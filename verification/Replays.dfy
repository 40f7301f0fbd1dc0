/** Replay after a crash (internal/ingest/pipeline.go, internal/eventstore/store.go): a lifetime that starts at the
    committed offset stores the records behind it again, often under the paths of the lifetime before it, whose numbers
    start at zero too. Nothing is lost as long as what it writes over came from records at or past the offset at which
    it started. */
module Replays {
  import opened Base
  import opened Bytes
  import opened Rows
  import opened Store
  import opened Dedupe
  import opened Runs
  import opened Pipeline
  import opened PipelineLosses

  // ---- Replaying runs ----

  /** The rows come from records at or past offset `start`. */
  ghost predicate AtOrPast(log: seq<Rec>, start: nat, rows: set<Row>) {
    forall r, n :: r in rows && 0 <= n < start && n < |log| ==> log[n].id < r.rec.id
  }

  /** No crash behind the committed offset, no cancellation, and files replaced only if their rows are at or past the
      start. */
  ghost predicate Gentle(w: World, a: Action) {
    match a
    case Lose(n) => w.committed <= n
    case WritePart(k, minTs) =>
      w.proc.Some? ==> AtOrPast(w.log, w.proc.value.start, Replaced(w.disk, PathFor(w.proc.value, k, minTs)))
    case Abandon => false
    case _ => true
  }

  ghost function Replaying(o: Settings): (World, Action, World) -> bool {
    (w, a, w') => Enabled(o, w, a) && Gentle(w, a) && w' == Step(o, w, a)
  }

  // ---- What such runs keep ----

  /** Accounted for by a row of this record or an earlier one. */
  ghost predicate HeldEarly(o: Settings, rows: set<Row>, rec: Rec, i: nat) {
    i < |Events(o, rec)| ==> exists r :: r in rows && Covers(o, r, rec, i) && r.rec.id <= rec.id
  }

  /** The rows that the present lifetime stored. */
  ghost function Own(w: World, p: Proc): set<Row> {
    OwnDisk(w) + RowSet(p.buf) + RowSet(Flight(p.pc))
  }

  ghost predicate CommittedEarly(o: Settings, w: World) {
    forall n, i {:trigger HeldEarly(o, DiskRows(w.disk), w.log[n], i)} ::
      0 <= n < w.committed && n < |w.log| && 0 <= i ==> HeldEarly(o, DiskRows(w.disk), w.log[n], i)
  }

  /** What was committed in this lifetime is in its own files. */
  ghost predicate OwnCommitted(o: Settings, w: World, p: Proc) {
    forall n, i {:trigger HeldEarly(o, OwnDisk(w), w.log[n], i)} ::
      p.start <= n < w.committed && n < |w.log| && 0 <= i ==> HeldEarly(o, OwnDisk(w), w.log[n], i)
  }

  /** What was dealt with in this lifetime is among its own rows. */
  ghost predicate OwnPast(o: Settings, w: World, p: Proc) {
    forall n, i {:trigger HeldEarly(o, Own(w, p), w.log[n], i)} ::
      p.start <= n < |w.log| && 0 <= i && Past(p, n, i) ==> HeldEarly(o, Own(w, p), w.log[n], i)
  }

  ghost predicate OwnSeen(w: World, p: Proc) {
    forall key :: Known(p.seen, key) ==> KeyHeld(Own(w, p) + TakenSet(p.pc), key)
  }

  ghost predicate ReadBefore(log: seq<Rec>, pos: nat, r: Row) {
    exists n :: 0 <= n < pos && n < |log| && r.rec == log[n]
  }

  /** Its rows come from records it has read. */
  ghost predicate OwnRead(w: World, p: Proc) {
    forall r :: r in Own(w, p) + TakenSet(p.pc) ==> ReadBefore(w.log, p.pos, r)
  }

  ghost predicate SteadyProc(o: Settings, w: World, p: Proc) {
    p.start <= w.committed && OwnCommitted(o, w, p) && OwnPast(o, w, p) && OwnSeen(w, p) && OwnRead(w, p)
  }

  ghost predicate Steady(o: Settings, w: World) {
    Good(o, w) && CommittedEarly(o, w) && (w.proc.Some? ==> SteadyProc(o, w, w.proc.value))
  }

  lemma {:induction false} EarlyMore(o: Settings, rows: set<Row>, rows': set<Row>, rec: Rec, i: nat)
    requires HeldEarly(o, rows, rec, i) && rows <= rows'
    ensures HeldEarly(o, rows', rec, i)
  {
  }

  // ---- Each kind of step keeps it ----

  /** The consumer does not touch the disk or the log: what it has dealt with is its own, and so are the keys it
      knows. */
  lemma {:induction false} OwnMore(o: Settings, w: World, p: Proc, w': World, p': Proc)
    requires SteadyProc(o, w, p) && p'.start == p.start && w'.committed == w.committed && p.pos <= p'.pos
    requires w.log <= w'.log && OwnDisk(w) <= OwnDisk(w') && Own(w, p) <= Own(w', p') && w.committed <= |w.log|
    requires forall n, i {:trigger Past(p', n, i)} :: p.start <= n < |w'.log| && 0 <= i && Past(p', n, i) ==>
      (n < |w.log| && Past(p, n, i)) || HeldEarly(o, Own(w', p'), w'.log[n], i)
    ensures OwnPast(o, w', p') && OwnCommitted(o, w', p')
  {
    forall n, i | p'.start <= n < |w'.log| && 0 <= i && Past(p', n, i)
      ensures HeldEarly(o, Own(w', p'), w'.log[n], i)
    {
      if n < |w.log| && Past(p, n, i) {
        EarlyMore(o, Own(w, p), Own(w', p'), w.log[n], i);
      }
    }
    forall n, i | p'.start <= n < w'.committed && n < |w'.log| && 0 <= i
      ensures HeldEarly(o, OwnDisk(w'), w'.log[n], i)
    {
      EarlyMore(o, OwnDisk(w), OwnDisk(w'), w.log[n], i);
    }
  }

  lemma {:induction false} ReadMore(log: seq<Rec>, log': seq<Rec>, pos: nat, pos': nat, r: Row)
    requires ReadBefore(log, pos, r) && log <= log' && pos <= pos'
    ensures ReadBefore(log', pos', r)
  {
  }

  /** No new row and no new key. */
  lemma {:induction false} OwnSame(o: Settings, w: World, p: Proc, w': World, p': Proc)
    requires SteadyProc(o, w, p) && w.log <= w'.log && p.pos <= p'.pos && p'.seen == p.seen
    requires Own(w', p') + TakenSet(p'.pc) == Own(w, p) + TakenSet(p.pc)
    ensures OwnSeen(w', p') && OwnRead(w', p')
  {
    forall r | r in Own(w', p') + TakenSet(p'.pc)
      ensures ReadBefore(w'.log, p'.pos, r)
    {
      ReadMore(w.log, w'.log, p.pos, p'.pos, r);
    }
  }

  lemma {:induction false} EarlyCommitted(o: Settings, w: World, w': World)
    requires CommittedEarly(o, w) && DiskRows(w.disk) <= DiskRows(w'.disk) && w'.committed == w.committed
    requires forall n {:trigger w'.log[n]} :: 0 <= n < w.committed && n < |w'.log| ==>
      n < |w.log| && w'.log[n] == w.log[n]
    ensures CommittedEarly(o, w')
  {
    forall n, i | 0 <= n < w'.committed && n < |w'.log| && 0 <= i
      ensures HeldEarly(o, DiskRows(w'.disk), w'.log[n], i)
    {
      var rec := w'.log[n];
      EarlyMore(o, DiskRows(w.disk), DiskRows(w'.disk), rec, i);
    }
  }

  /** A step of the consumer that keeps its own rows and keys. */
  lemma {:induction false} StaysSteady(o: Settings, w: World, p: Proc, w': World, p': Proc)
    requires Steady(o, w) && Good(o, w') && w.proc == Some(p) && w' == w.(proc := Some(p'))
    requires p'.start == p.start && p.pos <= p'.pos && p'.seen == p.seen
    requires Own(w', p') == Own(w, p) && TakenSet(p'.pc) == TakenSet(p.pc)
    requires forall n, i {:trigger Past(p', n, i)} :: p.start <= n < |w'.log| && 0 <= i && Past(p', n, i) ==>
      Past(p, n, i) || HeldEarly(o, Own(w', p'), w'.log[n], i)
    ensures Steady(o, w')
  {
    OwnMore(o, w, p, w', p');
    OwnSame(o, w, p, w', p');
    EarlyCommitted(o, w, w');
  }

  lemma {:induction false} OutsideSteady(o: Settings, w: World, a: Action)
    requires Steady(o, w) && Enabled(o, w, a) && (a.Submit? || a.Ack? || a.Retain?)
    ensures Steady(o, Step(o, w, a))
  {
    var w' := Step(o, w, a);
    OutsideKeepsGood(o, w, a);
    EarlyCommitted(o, w, w');
    if w.proc.Some? {
      var p := w.proc.value;
      assert Own(w', p) == Own(w, p);
      OwnMore(o, w, p, w', p);
      OwnSame(o, w, p, w', p);
    }
  }

  lemma {:induction false} LoseSteady(o: Settings, w: World, n: nat)
    requires Steady(o, w) && Enabled(o, w, Lose(n)) && w.committed <= n
    ensures Steady(o, Step(o, w, Lose(n)))
  {
    LoseKeepsGood(o, w, n);
    EarlyCommitted(o, w, Step(o, w, Lose(n)));
  }

  lemma {:induction false} StartSteady(o: Settings, w: World)
    requires Steady(o, w) && Enabled(o, w, Start)
    ensures Steady(o, Step(o, w, Start))
  {
    var w' := Step(o, w, Start);
    StartKeepsGood(o, w);
    EarlyCommitted(o, w, w');
    assert OwnDisk(w') == {};
    assert Own(w', w'.proc.value) + TakenSet(w'.proc.value.pc) == {};
  }

  lemma {:induction false} ReadIsEarlier(w: World, p: Proc, r: Row)
    requires LogOk(w) && 0 < p.pos <= |w.log| && ReadBefore(w.log, p.pos, r)
    ensures r.rec.id <= w.log[p.pos - 1].id
  {
  }

  /** A row with the key of an event accounts for it. */
  lemma {:induction false} KeyAccounts(o: Settings, r: Row, rec: Rec, at: nat)
    requires Genuine(o, r) && at < |Events(o, rec)| && |Events(o, rec)[at].ex.id| > 0
    requires RowKey(r) == ProjectKey(ProjectIn(rec.bytes), Events(o, rec)[at].ex.id)
    ensures Covers(o, r, rec, at)
  {
    ProjectKeyInjective(ProjectIn(r.rec.bytes), r.event.eventId, ProjectIn(rec.bytes), Events(o, rec)[at].ex.id);
  }

  /** A known key's row comes from this record or an earlier one. */
  lemma {:induction false} KnownIsEarly(o: Settings, w: World, p: Proc, at: nat)
    requires Good(o, w) && w.proc == Some(p) && SteadyProc(o, w, p) && p.pc.Working? && 0 < p.pos
    requires var rec := w.log[p.pos - 1];
      at < |Events(o, rec)| && |Events(o, rec)[at].ex.id| > 0
        && Known(p.seen, ProjectKey(ProjectIn(rec.bytes), Events(o, rec)[at].ex.id))
    ensures HeldEarly(o, Own(w, p), w.log[p.pos - 1], at)
  {
    var rec := w.log[p.pos - 1];
    var key := ProjectKey(ProjectIn(rec.bytes), Events(o, rec)[at].ex.id);
    assert KeyHeld(Own(w, p) + TakenSet(p.pc), key);
    var r :| r in Own(w, p) + TakenSet(p.pc) && RowKey(r) == key;
    assert r in Own(w, p) && r in Live(w, p);
    KeyAccounts(o, r, rec, at);
    ReadIsEarlier(w, p, r);
  }

  lemma {:induction false} TakeSteady(o: Settings, w: World, p: Proc, row: Row, key: string, seen: Window, w': World,
                                      p': Proc)
    requires Steady(o, w) && Good(o, w') && w.proc == Some(p) && p.pc.Working? && 0 < p.pos <= |w.log|
    requires p' == p.(pc := Appending(row, false), seen := seen) && w' == w.(proc := Some(p'))
    requires row.rec == w.log[p.pos - 1] && row.index == p.pc.at && RowKey(row) == key
    requires seen == p.seen || seen == Accept(o.cap, p.seen, key)
    ensures Steady(o, w')
  {
    assert Own(w', p') == Own(w, p);
    OwnMore(o, w, p, w', p');
    EarlyCommitted(o, w, w');
    forall k | Known(p'.seen, k)
      ensures KeyHeld(Own(w', p') + TakenSet(p'.pc), k)
    {
      if seen != p.seen {
        AcceptKnows(o.cap, p.seen, key, k);
      }
      TakenKeyHeld(w, p, row, k);
    }
    assert forall r :: r in Own(w', p') ==> ReadBefore(w.log, p.pos, r);
  }

  lemma {:induction false} TakenKeyHeld(w: World, p: Proc, row: Row, k: string)
    requires OwnSeen(w, p) && TakenSet(p.pc) == {} && (Known(p.seen, k) || RowKey(row) == k)
    ensures KeyHeld(Own(w, p) + {row}, k)
  {
    if RowKey(row) == k {
      assert row in Own(w, p) + {row};
    } else {
      assert KeyHeld(Own(w, p) + TakenSet(p.pc), k);
      var r :| r in Own(w, p) + TakenSet(p.pc) && RowKey(r) == k;
      assert r in Own(w, p) + {row};
    }
  }

  /** Past the last event, or a duplicate. */
  lemma {:induction false} SkipSteady(o: Settings, w: World, p: Proc, pc: Pc, w': World)
    requires Steady(o, w) && Good(o, w') && w.proc == Some(p) && p.pc.Working? && 0 < p.pos <= |w.log|
    requires w' == w.(proc := Some(p.(pc := pc)))
    requires (pc == Idle && p.pc.at >= |Events(o, w.log[p.pos - 1])|)
      || (pc == Working(p.pc.at + 1) && HeldEarly(o, Own(w, p), w.log[p.pos - 1], p.pc.at))
    ensures Steady(o, w')
  {
    assert Own(w', w'.proc.value) == Own(w, p);
    StaysSteady(o, w, p, w', w'.proc.value);
  }

  lemma {:induction false} NewSteady(o: Settings, w: World, p: Proc, now: int, rec: Rec, w': World)
    requires Steady(o, w) && Good(o, w') && w.proc == Some(p) && p.pc.Working? && 0 < p.pos <= |w.log|
      && rec == w.log[p.pos - 1]
    requires w' == w.(proc := Some(HandleEvent(o, rec, p, p.pc.at, now))) && w'.proc.value.pc.Appending?
    ensures Steady(o, w')
  {
    var p' := w'.proc.value;
    TakeSteady(o, w, p, p'.pc.row, ProjectKey(ProjectIn(rec.bytes), Events(o, rec)[p.pc.at].ex.id), p'.seen, w', p');
  }

  lemma {:induction false} DuplicateSteady(o: Settings, w: World, p: Proc, rec: Rec, w': World)
    requires Steady(o, w) && Good(o, w') && w.proc == Some(p) && p.pc.Working? && 0 < p.pos <= |w.log|
    requires rec == w.log[p.pos - 1] && p.pc.at < |Events(o, rec)|
    requires w' == w.(proc := Some(p.(pc := Working(p.pc.at + 1))))
    requires var id := Events(o, rec)[p.pc.at].ex.id;
      |id| > 0 && Known(p.seen, ProjectKey(ProjectIn(rec.bytes), id))
    ensures Steady(o, w')
  {
    KnownIsEarly(o, w, p, p.pc.at);
    SkipSteady(o, w, p, Working(p.pc.at + 1), w');
  }

  lemma {:induction false} HandledSteady(o: Settings, w: World, p: Proc, now: int, rec: Rec, w': World)
    requires Steady(o, w) && Good(o, w') && w.proc == Some(p) && p.pc.Working? && 0 < p.pos <= |w.log|
      && rec == w.log[p.pos - 1]
    requires w' == w.(proc := Some(HandleEvent(o, rec, p, p.pc.at, now)))
    ensures Steady(o, w')
  {
    if w'.proc.value.pc.Appending? {
      NewSteady(o, w, p, now, rec, w');
    } else if p.pc.at < |Events(o, rec)| {
      DuplicateSteady(o, w, p, rec, w');
    } else {
      SkipSteady(o, w, p, Idle, w');
    }
  }

  lemma {:induction false} HandleSteady(o: Settings, w: World, now: int)
    requires Steady(o, w) && Enabled(o, w, Handle(now))
    ensures Steady(o, Step(o, w, Handle(now)))
  {
    var p := w.proc.value;
    HandleKeepsGood(o, w, now);
    HandledSteady(o, w, p, now, w.log[p.pos - 1], Step(o, w, Handle(now)));
  }

  lemma {:induction false} AppendSteady(o: Settings, w: World, p: Proc, row: Row, w': World, p': Proc)
    requires Steady(o, w) && Good(o, w') && w.proc == Some(p) && p.pc.Appending? && p.pc.row == row
    requires p' == p.(pc := Working(row.index + 1), buf := p.buf + [row]) && w' == w.(proc := Some(p'))
    ensures Steady(o, w')
  {
    RowSetConcat(p.buf, [row]);
    RowSetOne(row);
    assert Own(w', p') == Own(w, p) + {row};
    assert Covers(o, row, w.log[p.pos - 1], row.index);
    OwnMore(o, w, p, w', p');
    assert Own(w', p') + TakenSet(p'.pc) == Own(w, p) + TakenSet(p.pc);
    OwnSame(o, w, p, w', p');
    EarlyCommitted(o, w, w');
  }

  /** Starting a flush moves the buffer into it. */
  lemma {:induction false} BeginSteady(o: Settings, w: World, p: Proc, next: Then, w': World, p': Proc)
    requires Steady(o, w) && Good(o, w') && w.proc == Some(p) && p' == BeginFlush(p, next) && w' == w.(proc := Some(p'))
    requires !p.pc.Flushing? && Progress(p'.pc) == Progress(p.pc) && TakenSet(p'.pc) == TakenSet(p.pc)
    ensures Steady(o, w')
  {
    assert Own(w', p') == Own(w, p);
    StaysSteady(o, w, p, w', p');
  }

  lemma {:induction false} StoreRowSteady(o: Settings, w: World, p: Proc, row: Row, w': World, p': Proc)
    requires Steady(o, w) && Good(o, w') && w.proc == Some(p) && p.pc.Appending? && p.pc.row == row
    requires p' == StoreRow(o, p, row) && w' == w.(proc := Some(p'))
    ensures Steady(o, w')
  {
    if |p.buf| + 1 > o.maxBufferRows {
      BeginSteady(o, w, p, ToAppend(row), w', p');
    } else {
      AppendSteady(o, w, p, row, w', p');
    }
  }

  lemma {:induction false} StoreSteady(o: Settings, w: World)
    requires Steady(o, w) && Enabled(o, w, Store)
    ensures Steady(o, Step(o, w, Store))
  {
    var p, w' := w.proc.value, Step(o, w, Store);
    StoreKeepsGood(o, w);
    StoreRowSteady(o, w, p, p.pc.row, w', w'.proc.value);
  }

  /** The end of a flush, failed or not: its rows are in the buffer again, or in files of this lifetime. */
  lemma {:induction false} EndSteady(o: Settings, w: World, p: Proc, w': World, p': Proc)
    requires Steady(o, w) && Good(o, w') && w.proc == Some(p) && w' == w.(proc := Some(p')) && p.pc.Flushing?
    requires p'.start == p.start && p'.pos == p.pos && p'.seen == p.seen
    requires exists ok :: p'.pc == AfterFlush(p.pc.then_, ok) && p'.buf == if ok then p.buf else p.pc.rows + p.buf
    requires p.pc.todo == {} || p'.buf == p.pc.rows + p.buf
    ensures Steady(o, w')
  {
    RowSetConcat(p.pc.rows, p.buf);
    if p'.buf == p.buf {
      assert p.pc.todo == {} ==> RowSet(p.pc.rows) <= OwnDisk(w);
    }
    assert Own(w', p') == Own(w, p);
    StaysSteady(o, w, p, w', p');
  }

  lemma {:induction false} FlushEndsSteady(o: Settings, w: World, a: Action)
    requires Steady(o, w) && Enabled(o, w, a) && (a.FailFlush? || a.EndFlush?)
    ensures Steady(o, Step(o, w, a))
  {
    var p, w' := w.proc.value, Step(o, w, a);
    if a.FailFlush? {
      FailKeepsGood(o, w, a.counted);
      assert p.pc.rows + p.buf == p.pc.rows;
    } else {
      EndKeepsGood(o, w);
    }
    assert w'.proc.value.pc == AfterFlush(p.pc.then_, a.EndFlush?);
    EndSteady(o, w, p, w', w'.proc.value);
  }

  /** Reading on, and failing to write the offset file. */
  lemma {:induction false} PlaceSteady(o: Settings, w: World, p: Proc, w': World, p': Proc)
    requires Steady(o, w) && Good(o, w') && w.proc == Some(p) && w' == w.(proc := Some(p'))
    requires (p.pc.Idle? && p' == p.(pos := p.pos + 1, pc := Working(0))) || (p.pc.Committing? && p' == p.(pc := Idle))
    ensures Steady(o, w')
  {
    assert Own(w', p') == Own(w, p);
    StaysSteady(o, w, p, w', p');
  }

  lemma {:induction false} CommitSteady(o: Settings, w: World)
    requires Steady(o, w) && Enabled(o, w, Commit)
    ensures Steady(o, Step(o, w, Commit))
  {
    var p, w' := w.proc.value, Step(o, w, Commit);
    var p' := w'.proc.value;
    CommitKeepsGood(o, w);
    assert Own(w', p') == OwnDisk(w') == OwnDisk(w) == Own(w, p);
    assert TakenSet(p'.pc) == TakenSet(p.pc);
    OwnSame(o, w, p, w', p');
    forall n, i | 0 <= n < w'.committed && n < |w'.log| && 0 <= i
      ensures HeldEarly(o, DiskRows(w'.disk), w'.log[n], i)
      ensures p.start <= n ==> HeldEarly(o, OwnDisk(w'), w'.log[n], i)
    {
      assert Past(p, n, i);
      if p.start <= n {
        EarlyMore(o, OwnDisk(w), DiskRows(w'.disk), w.log[n], i);
      }
    }
  }

  // ---- Writing over old files ----

  /** A committed event keeps a row of its record or an earlier one. */
  lemma {:induction false} EarlyOutside(o: Settings, w: World, p: Proc, x: Path, n: nat, i: nat)
    requires Steady(o, w) && w.proc == Some(p) && x.number == p.flushCount + 1
      && AtOrPast(w.log, p.start, Replaced(w.disk, x))
    requires n < w.committed && n < |w.log|
    ensures HeldEarly(o, Others(w.disk, x), w.log[n], i)
  {
    OwnIsOther(w, p, x);
    DiskAfterWrite(w.disk, x, File({}, 0));
    if p.start <= n {
      EarlyMore(o, OwnDisk(w), Others(w.disk, x), w.log[n], i);
    } else {
      assert HeldEarly(o, DiskRows(w.disk), w.log[n], i);
    }
  }

  /** Another event dealt with keeps a row that is its lifetime's own. */
  lemma {:induction false} PastOutside(o: Settings, w: World, p: Proc, x: Path, n: nat, i: nat)
    requires Steady(o, w) && w.proc == Some(p) && p.pc.Flushing? && x.number == p.flushCount + 1
    requires AtOrPast(w.log, p.start, Replaced(w.disk, x)) && n < |w.log| && Past(p, n, i)
    ensures HeldEarly(o, Others(w.disk, x) + RowSet(Flight(p.pc)), w.log[n], i)
  {
    OwnIsOther(w, p, x);
    if p.start <= n {
      assert RowSet(p.buf) == {};
      EarlyMore(o, Own(w, p), Others(w.disk, x) + RowSet(Flight(p.pc)), w.log[n], i);
    } else {
      EarlyOutside(o, w, p, x, n, i);
      EarlyMore(o, Others(w.disk, x), Others(w.disk, x) + RowSet(Flight(p.pc)), w.log[n], i);
    }
  }

  lemma {:induction false} EarlyIsHeld(o: Settings, rows: set<Row>, rows': set<Row>, rec: Rec, i: nat)
    requires HeldEarly(o, rows, rec, i) && rows <= rows'
    ensures Held(o, rows', rec, i)
  {
  }

  /** Rows at or past the start are dispensable. */
  lemma {:induction false} ReplayedIsDispensable(o: Settings, w: World, p: Proc, x: Path, part: set<Row>, r: Row)
    requires Steady(o, w) && w.proc == Some(p) && p.pc.Flushing? && x.number == p.flushCount + 1
    requires AtOrPast(w.log, p.start, Replaced(w.disk, x))
    ensures Dispensable(o, w, p, r, Others(w.disk, x) + part)
  {
    var disk := Others(w.disk, x) + part;
    forall n, i | 0 <= n < |w.log| && 0 <= i && Accounts(o, r, w.log[n], i)
      ensures n < w.committed ==> Held(o, disk, w.log[n], i)
      ensures Past(p, n, i) ==> Held(o, disk + RowSet(Flight(p.pc)), w.log[n], i)
    {
      if n < w.committed {
        EarlyOutside(o, w, p, x, n, i);
        EarlyIsHeld(o, Others(w.disk, x), disk, w.log[n], i);
      }
      if Past(p, n, i) {
        PastOutside(o, w, p, x, n, i);
        EarlyIsHeld(o, Others(w.disk, x) + RowSet(Flight(p.pc)), disk + RowSet(Flight(p.pc)), w.log[n], i);
      }
    }
    if Known(p.seen, RowKey(r)) {
      OwnIsOther(w, p, x);
      assert RowSet(p.buf) == {};
      assert KeyHeld(Own(w, p) + TakenSet(p.pc), RowKey(r));
    }
  }

  lemma {:induction false} ReplayIsSpared(o: Settings, w: World, k: Key, minTs: int)
    requires Steady(o, w) && Enabled(o, w, WritePart(k, minTs)) && Gentle(w, WritePart(k, minTs))
    ensures Spared(o, w, WritePart(k, minTs))
  {
    var p := w.proc.value;
    var x := PathFor(p, k, minTs);
    forall r | r in Replaced(w.disk, x)
      ensures Dispensable(o, w, p, r, Others(w.disk, x) + PartIn(p.pc.rows, k))
    {
      ReplayedIsDispensable(o, w, p, x, PartIn(p.pc.rows, k), r);
    }
  }

  lemma {:induction false} WriteSteady(o: Settings, w: World, k: Key, minTs: int)
    requires Steady(o, w) && Enabled(o, w, WritePart(k, minTs)) && Gentle(w, WritePart(k, minTs))
    ensures Steady(o, Step(o, w, WritePart(k, minTs)))
  {
    var p, w' := w.proc.value, Step(o, w, WritePart(k, minTs));
    ReplayIsSpared(o, w, k, minTs);
    WriteKeepsGood(o, w, k, minTs);
    WrittenSteady(o, w, p, PathFor(p, k, minTs), k, w', w'.proc.value);
  }

  lemma {:induction false} WrittenEarly(o: Settings, w: World, p: Proc, x: Path, k: Key, w': World, p': Proc)
    requires Steady(o, w) && w.proc == Some(p) && Writes(w, p, x, k, w', p')
      && AtOrPast(w.log, p.start, Replaced(w.disk, x))
    ensures CommittedEarly(o, w')
  {
    DiskAfterWrite(w.disk, x, File(PartIn(p.pc.rows, k), w.life));
    forall n, i | 0 <= n < w'.committed && n < |w'.log| && 0 <= i
      ensures HeldEarly(o, DiskRows(w'.disk), w'.log[n], i)
    {
      EarlyOutside(o, w, p, x, n, i);
      EarlyMore(o, Others(w.disk, x), DiskRows(w'.disk), w.log[n], i);
    }
  }

  lemma {:induction false} WrittenOwn(w: World, p: Proc, x: Path, k: Key, w': World, p': Proc)
    requires NumbersOk(w, p) && Writes(w, p, x, k, w', p')
    ensures Own(w', p') == Own(w, p) && OwnDisk(w) <= OwnDisk(w')
  {
    WriteAdds(w, p, x, PartIn(p.pc.rows, k), w');
  }

  lemma {:induction false} WrittenSteady(o: Settings, w: World, p: Proc, x: Path, k: Key, w': World, p': Proc)
    requires Steady(o, w) && w.proc == Some(p) && Writes(w, p, x, k, w', p')
      && AtOrPast(w.log, p.start, Replaced(w.disk, x))
    ensures CommittedEarly(o, w') && SteadyProc(o, w', p')
  {
    WrittenEarly(o, w, p, x, k, w', p');
    WrittenOwn(w, p, x, k, w', p');
    OwnMore(o, w, p, w', p');
    OwnSame(o, w, p, w', p');
  }

  // ---- Whole runs ----

  lemma {:induction false} StepSteady(o: Settings, w: World, a: Action)
    requires Steady(o, w) && Enabled(o, w, a) && Gentle(w, a)
    ensures Spared(o, w, a) && Steady(o, Step(o, w, a))
  {
    match a
    case Submit(_) => OutsideSteady(o, w, a);
    case Ack(_) => OutsideSteady(o, w, a);
    case Retain(_) => OutsideSteady(o, w, a);
    case Lose(n) => LoseSteady(o, w, n);
    case Start => StartSteady(o, w);
    case Handle(now) => HandleSteady(o, w, now);
    case Store => StoreSteady(o, w);
    case WritePart(k, minTs) =>
      ReplayIsSpared(o, w, k, minTs);
      WriteSteady(o, w, k, minTs);
    case Commit => CommitSteady(o, w);
    case FailFlush(_) => FlushEndsSteady(o, w, a);
    case EndFlush => FlushEndsSteady(o, w, a);
    case _ => MoveSteady(o, w, a);
  }

  lemma {:induction false} MoveSteady(o: Settings, w: World, a: Action)
    requires Steady(o, w) && Enabled(o, w, a) && (a.Read? || a.BeginCommit? || a.FailCommit?)
    ensures Steady(o, Step(o, w, a))
  {
    var p, w' := w.proc.value, Step(o, w, a);
    match a
    case Read =>
      ReadKeepsGood(o, w);
      PlaceSteady(o, w, p, w', w'.proc.value);
    case BeginCommit =>
      BeginKeepsGood(o, w, p, ToCommit, w');
      BeginSteady(o, w, p, ToCommit, w', w'.proc.value);
    case FailCommit =>
      FailCommitKeepsGood(o, w);
      PlaceSteady(o, w, p, w', w'.proc.value);
  }

  /** Runs in which files are replaced only by replays are spared, so they lose nothing. */
  lemma {:induction false} ReplaysAreSpared(o: Settings, w: World, acts: seq<Action>, w': World)
    requires Steady(o, w) && Run(Replaying(o), w, acts, w')
    ensures Run(Careful(o), w, acts, w') && Steady(o, w')
    decreases |acts|
  {
    if acts != [] {
      var m :| Replaying(o)(w, acts[0], m) && Run(Replaying(o), m, acts[1..], w');
      StepSteady(o, w, acts[0]);
      ReplaysAreSpared(o, m, acts[1..], w');
      assert Careful(o)(w, acts[0], m);
    }
  }

  /** No acknowledged event is lost in a run from the first start whose files replace only what is replayed. */
  lemma {:induction false} NoEventLostInReplays(o: Settings, acts: seq<Action>, w': World)
    requires Run(Replaying(o), Empty(), acts, w')
    ensures w'.committed <= |w'.log| && w'.acked <= |w'.log|
    ensures forall n, i :: 0 <= n < w'.committed && 0 <= i < |Events(o, w'.log[n])| ==>
      Held(o, DiskRows(w'.disk), w'.log[n], i)
  {
    EmptyIsGood(o);
    ReplaysAreSpared(o, Empty(), acts, w');
    NoEventLost(o, Empty(), acts, w');
  }

  // ---- Such a run ----

  ghost predicate Via(o: Settings, w: World, w': World) {
    exists acts :: Run(Replaying(o), w, acts, w')
  }

  lemma {:induction false} ViaStep(o: Settings, w: World, a: Action, w': World)
    requires Enabled(o, w, a) && Gentle(w, a) && w' == Step(o, w, a)
    ensures Via(o, w, w')
  {
    One(Replaying(o), w, a, w');
    assert Run(Replaying(o), w, [a], w');
  }

  lemma {:induction false} ViaThen(o: Settings, a: World, b: World, c: World)
    requires Via(o, a, b) && Via(o, b, c)
    ensures Via(o, a, c)
  {
    var x :| Run(Replaying(o), a, x, b);
    var y :| Run(Replaying(o), b, y, c);
    Runs.Concat(Replaying(o), a, x, b, y, c);
  }

  /** A lifetime reads and buffers the record at the committed offset. */
  lemma {:induction false} BuffersRecord(o: Settings, w: World, rec: Rec, now: int, w': World)
    requires w.proc.None? && w.oldest <= w.committed < |w.log| && w.log[w.committed] == rec && Single(o, rec)
      && o.maxBufferRows >= 1
    requires w' == w.(life := w.life + 1,
                      proc := Some(Proc(w.committed, w.committed + 1, Idle, Fresh(), [RowFor(o, rec, now)], 0)))
    ensures Via(o, w, w')
  {
    var c, row := w.committed, RowFor(o, rec, now);
    var w1 := w.(life := w.life + 1, proc := Some(Proc(c, c, Idle, Fresh(), [], 0)));
    var w2 := w1.(proc := Some(Proc(c, c + 1, Working(0), Fresh(), [], 0)));
    var w3 := w1.(proc := Some(Proc(c, c + 1, Appending(row, false), Fresh(), [], 0)));
    assert [] + [row] == [row];
    var w4 := w1.(proc := Some(Proc(c, c + 1, Working(1), Fresh(), [row], 0)));
    ViaStep(o, w, Start, w1);
    ViaStep(o, w1, Read, w2);
    ViaStep(o, w2, Handle(now), w3);
    ViaStep(o, w3, Store, w4);
    ViaStep(o, w4, Handle(now), w');
    ViaThen(o, w, w1, w2);
    ViaThen(o, w, w2, w3);
    ViaThen(o, w, w3, w4);
    ViaThen(o, w, w4, w');
  }

  /** And writes its file, over what an earlier replay of the record left there. */
  lemma {:induction false} WritesRecord(o: Settings, w: World, rec: Rec, now: int, w': World)
    requires w.proc.None? && w.oldest <= w.committed < |w.log| && w.log[w.committed] == rec && Single(o, rec)
      && o.maxBufferRows >= 1
    requires AtOrPast(w.log, w.committed, Replaced(w.disk, PathOf(RowFor(o, rec, now), 1)))
    requires var row := RowFor(o, rec, now);
      w' == w.(life := w.life + 1, disk := w.disk[PathOf(row, 1) := File({row}, w.life + 1)],
               proc := Some(Proc(w.committed, w.committed + 1, Flushing([row], {}, ToCommit), Fresh(), [], 1)))
    ensures Via(o, w, w')
  {
    var c, row := w.committed, RowFor(o, rec, now);
    var w1 := w.(life := w.life + 1, proc := Some(Proc(c, c + 1, Idle, Fresh(), [row], 0)));
    var w2 := w1.(proc := Some(Proc(c, c + 1, Flushing([row], {KeyOf(row.event)}, ToCommit), Fresh(), [], 0)));
    BuffersRecord(o, w, rec, now, w1);
    OneRowBuffer(row);
    assert BeginFlush(w1.proc.value, ToCommit) == w2.proc.value;
    ViaStep(o, w1, BeginCommit, w2);
    ViaThen(o, w, w1, w2);
    assert {KeyOf(row.event)} - {KeyOf(row.event)} == {};
    ViaStep(o, w2, WritePart(KeyOf(row.event), row.event.ts), w');
    ViaThen(o, w, w2, w');
  }

  /** A crash between the flush and its commit: the next lifetime stores the record again under the same path, commits,
      and has lost nothing. */
  lemma {:induction false} ReplayOverOwnPath(o: Settings, rec: Rec, now: int) returns (w: World)
    requires o.maxBufferRows >= 1 && rec.id == 0 && Single(o, rec)
    ensures Via(o, Empty(), w) && w.committed == 1 && w.life == 2 && w.log == [rec]
    ensures w.disk == map[PathOf(RowFor(o, rec, now), 1) := File({RowFor(o, rec, now)}, 2)]
  {
    var row, log := RowFor(o, rec, now), [rec];
    var x := PathOf(row, 1);
    var w1 := World(log, 1, 0, 0, 0, map[], 0, None);
    assert Empty().log + [rec] == log;
    ViaStep(o, Empty(), Submit(rec.bytes), w1);
    var w2 := World(log, 1, 0, 0, 0, map[][x := File({row}, 1)], 1,
                    Some(Proc(0, 1, Flushing([row], {}, ToCommit), Fresh(), [], 1)));
    WritesRecord(o, w1, rec, now, w2);
    ViaThen(o, Empty(), w1, w2);
    var w3 := w2.(proc := None);
    assert log[..1] == log;
    ViaStep(o, w2, Lose(1), w3);
    ViaThen(o, Empty(), w2, w3);
    var p4 := Proc(0, 1, Flushing([row], {}, ToCommit), Fresh(), [], 1);
    var w4 := w3.(life := 2, disk := w3.disk[x := File({row}, 2)], proc := Some(p4));
    WritesRecord(o, w3, rec, now, w4);
    ViaThen(o, Empty(), w3, w4);
    var w5 := w4.(proc := Some(p4.(pc := Committing)));
    w := w4.(committed := 1, proc := Some(p4.(pc := Idle)));
    ViaStep(o, w4, EndFlush, w5);
    ViaStep(o, w5, Commit, w);
    ViaThen(o, Empty(), w4, w5);
    ViaThen(o, Empty(), w5, w);
  }
}
