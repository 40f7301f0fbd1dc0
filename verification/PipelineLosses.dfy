/** Runs of the ingest pipeline that lose an event: each of the three things Pipeline.NoEventLost is spared does so. */
module PipelineLosses {
  import opened Base
  import opened Bytes
  import opened Rows
  import opened Store
  import opened Dedupe
  import opened Runs
  import opened Pipeline

  // ---- Building runs ----

  ghost predicate Reaches(o: Settings, w: World, w': World) {
    exists acts :: Run(Machine(o), w, acts, w')
  }

  lemma {:induction false} Step1(o: Settings, w: World, a: Action, w': World)
    requires Enabled(o, w, a) && w' == Step(o, w, a)
    ensures Reaches(o, w, w')
  {
    One(Machine(o), w, a, w');
    assert Run(Machine(o), w, [a], w');
  }

  lemma {:induction false} AndThen(o: Settings, a: World, b: World, c: World)
    requires Reaches(o, a, b) && Reaches(o, b, c)
    ensures Reaches(o, a, c)
  {
    var x :| Run(Machine(o), a, x, b);
    var y :| Run(Machine(o), b, y, c);
    Runs.Concat(Machine(o), a, x, b, y, c);
  }

  // ---- Stretches of the consumer's work ----

  /** A record with one event, which has no id. */
  ghost predicate Single(o: Settings, rec: Rec) {
    |Events(o, rec)| == 1 && |Events(o, rec)[0].ex.id| == 0
  }

  function RowFor(o: Settings, rec: Rec, now: int): Row
    requires |Events(o, rec)| == 1
  {
    Row(RowOf(ProjectIn(rec.bytes), Events(o, rec)[0], now), rec, 0, now)
  }

  ghost predicate At(w: World, p: Proc) {
    w.proc == Some(p)
  }

  lemma {:induction false} ReadRecord(o: Settings, w: World, p: Proc, w': World)
    requires At(w, p) && p.pc == Idle && p.pos < |w.log|
      && w' == w.(proc := Some(p.(pos := p.pos + 1, pc := Working(0))))
    ensures Reaches(o, w, w')
  {
    Step1(o, w, Read, w');
  }

  lemma {:induction false} FinishRecord(o: Settings, w: World, p: Proc, w': World)
    requires At(w, p) && p.pc.Working? && 0 < p.pos <= |w.log| && p.pc.at >= |Events(o, w.log[p.pos - 1])|
    requires w' == w.(proc := Some(p.(pc := Idle)))
    ensures Reaches(o, w, w')
  {
    Step1(o, w, Handle(0), w');
  }

  lemma {:induction false} TakeEvent(o: Settings, w: World, p: Proc, now: int, w': World)
    requires At(w, p) && p.pc == Working(0) && 0 < p.pos <= |w.log| && Single(o, w.log[p.pos - 1])
    requires w' == w.(proc := Some(p.(pc := Appending(RowFor(o, w.log[p.pos - 1], now), false))))
    ensures Reaches(o, w, w')
  {
    Step1(o, w, Handle(now), w');
  }

  /** Read a record and take its one event to the append loop. */
  lemma {:induction false} TakeRecord(o: Settings, w: World, p: Proc, now: int, w': World)
    requires At(w, p) && p.pc == Idle && p.pos < |w.log| && Single(o, w.log[p.pos])
    requires w' == w.(proc := Some(p.(pos := p.pos + 1, pc := Appending(RowFor(o, w.log[p.pos], now), false))))
    ensures Reaches(o, w, w')
  {
    var p1 := p.(pos := p.pos + 1, pc := Working(0));
    var w1 := w.(proc := Some(p1));
    ReadRecord(o, w, p, w1);
    TakeEvent(o, w1, p1, now, w');
    AndThen(o, w, w1, w');
  }

  /** Read a record without events. */
  lemma {:induction false} SkipRecord(o: Settings, w: World, p: Proc, w': World)
    requires At(w, p) && p.pc == Idle && p.pos < |w.log| && Events(o, w.log[p.pos]) == []
    requires w' == w.(proc := Some(p.(pos := p.pos + 1)))
    ensures Reaches(o, w, w')
  {
    var p1 := p.(pos := p.pos + 1, pc := Working(0));
    var w1 := w.(proc := Some(p1));
    ReadRecord(o, w, p, w1);
    assert p1.(pc := Idle) == p.(pos := p.pos + 1);
    FinishRecord(o, w1, p1, w');
    AndThen(o, w, w1, w');
  }

  /** Store the taken row and finish its record. */
  lemma {:induction false} KeepRow(o: Settings, w: World, p: Proc, row: Row, w': World)
    requires At(w, p) && p.pc == Appending(row, false) && |p.buf| < o.maxBufferRows && row.index == 0
    requires 0 < p.pos <= |w.log| && Single(o, w.log[p.pos - 1])
    requires w' == w.(proc := Some(p.(pc := Idle, buf := p.buf + [row])))
    ensures Reaches(o, w, w')
  {
    var p1 := p.(pc := Working(1), buf := p.buf + [row]);
    var w1 := w.(proc := Some(p1));
    Step1(o, w, Store, w1);
    assert p1.(pc := Idle) == p.(pc := Idle, buf := p.buf + [row]);
    FinishRecord(o, w1, p1, w');
    AndThen(o, w, w1, w');
  }

  // ---- Commits ----

  lemma {:induction false} EndAndCommit(o: Settings, w: World, p: Proc, rows: seq<Row>, w': World)
    requires At(w, p) && p.pc == Flushing(rows, {}, ToCommit)
      && w' == w.(committed := p.pos, proc := Some(p.(pc := Idle)))
    ensures Reaches(o, w, w')
  {
    var p1 := p.(pc := Committing);
    var w1 := w.(proc := Some(p1));
    Step1(o, w, EndFlush, w1);
    assert p1.(pc := Idle) == p.(pc := Idle);
    Step1(o, w1, Commit, w');
    AndThen(o, w, w1, w');
  }

  /** Committing with an empty buffer. */
  lemma {:induction false} CommitNothing(o: Settings, w: World, p: Proc, w': World)
    requires At(w, p) && p.pc == Idle && p.buf == [] && w' == w.(committed := p.pos)
    ensures Reaches(o, w, w')
  {
    var p1 := p.(pc := Flushing([], {}, ToCommit));
    var w1 := w.(proc := Some(p1));
    assert KeysIn(p.buf) == {};
    assert BeginFlush(p, ToCommit) == p1;
    Step1(o, w, BeginCommit, w1);
    assert p1.(pc := Idle) == p;
    EndAndCommit(o, w1, p1, [], w');
    AndThen(o, w, w1, w');
  }

  function PathOf(row: Row, number: nat): Path {
    Path(KeyOf(row.event).0, KeyOf(row.event).1, row.event.ts, number)
  }

  lemma {:induction false} OneRowBuffer(row: Row)
    ensures KeysIn([row]) == {KeyOf(row.event)} && PartIn([row], KeyOf(row.event)) == {row}
  {
    assert [row][0] == row;
  }

  lemma {:induction false} WriteRow(o: Settings, w: World, p: Proc, row: Row, w': World)
    requires At(w, p) && p.pc == Flushing([row], {KeyOf(row.event)}, ToCommit)
    requires w' == w.(disk := w.disk[PathOf(row, p.flushCount + 1) := File({row}, w.life)],
                      proc := Some(p.(pc := Flushing([row], {}, ToCommit), flushCount := p.flushCount + 1)))
    ensures Reaches(o, w, w')
  {
    OneRowBuffer(row);
    assert p.pc.todo - {KeyOf(row.event)} == {};
    Step1(o, w, WritePart(KeyOf(row.event), row.event.ts), w');
  }

  /** Committing one buffered row: its file, then the offset. */
  lemma {:induction false} CommitRow(o: Settings, w: World, p: Proc, row: Row, w': World)
    requires At(w, p) && p.pc == Idle && p.buf == [row]
    requires w' == w.(disk := w.disk[PathOf(row, p.flushCount + 1) := File({row}, w.life)], committed := p.pos,
                      proc := Some(p.(buf := [], flushCount := p.flushCount + 1)))
    ensures Reaches(o, w, w')
  {
    var p1 := p.(pc := Flushing([row], {KeyOf(row.event)}, ToCommit), buf := []);
    var p2 := p1.(pc := Flushing([row], {}, ToCommit), flushCount := p.flushCount + 1);
    var w1 := w.(proc := Some(p1));
    var w2 := w1.(disk := w.disk[PathOf(row, p.flushCount + 1) := File({row}, w.life)], proc := Some(p2));
    OneRowBuffer(row);
    assert BeginFlush(p, ToCommit) == p1;
    Step1(o, w, BeginCommit, w1);
    WriteRow(o, w1, p1, row, w2);
    assert p2.(pc := Idle) == p.(buf := [], flushCount := p.flushCount + 1);
    EndAndCommit(o, w2, p2, [row], w');
    AndThen(o, w, w1, w2);
    AndThen(o, w, w2, w');
  }

  // ---- What can be lost ----

  /** An event of a record below the committed offset has no row on disk. */
  ghost predicate Lost(o: Settings, w: World, n: nat, i: nat) {
    n < w.committed && n < |w.log| && i < |Events(o, w.log[n])| && !Held(o, DiskRows(w.disk), w.log[n], i)
  }

  function Fresh0(): Proc {
    Proc(0, 0, Idle, Fresh(), [], 0)
  }

  lemma {:induction false} SubmitOne(o: Settings, w: World, bytes: seq<Byte>, w': World)
    requires w' == w.(log := w.log + [Rec(w.nextId, bytes)], nextId := w.nextId + 1)
    ensures Reaches(o, w, w')
  {
    Step1(o, w, Submit(bytes), w');
  }

  lemma {:induction false} StartAt(o: Settings, w: World, w': World)
    requires w.proc.None? && w.oldest <= w.committed
    requires w' == w.(proc := Some(Proc(w.committed, w.committed, Idle, Fresh(), [], 0)), life := w.life + 1)
    ensures Reaches(o, w, w')
  {
    Step1(o, w, Start, w');
  }

  /** The consumer reads and commits a record that is not acknowledged yet. */
  lemma {:induction false} CommitsUnacked(o: Settings, bytes: seq<Byte>) returns (w: World)
    requires EventsIn(o.codec, bytes) == []
    ensures Reaches(o, Empty(), w)
    ensures w == World([Rec(0, bytes)], 1, 0, 0, 1, map[], 1, Some(Proc(0, 1, Idle, Fresh(), [], 0)))
  {
    var rec := Rec(0, bytes);
    var w1 := World([rec], 1, 0, 0, 0, map[], 0, None);
    var w2 := World([rec], 1, 0, 0, 0, map[], 1, Some(Fresh0()));
    var w3 := World([rec], 1, 0, 0, 0, map[], 1, Some(Proc(0, 1, Idle, Fresh(), [], 0)));
    w := World([rec], 1, 0, 0, 1, map[], 1, Some(Proc(0, 1, Idle, Fresh(), [], 0)));
    assert Empty().log + [rec] == [rec];
    SubmitOne(o, Empty(), bytes, w1);
    StartAt(o, w1, w2);
    SkipRecord(o, w2, Fresh0(), w3);
    CommitNothing(o, w3, Proc(0, 1, Idle, Fresh(), [], 0), w);
    AndThen(o, Empty(), w1, w2);
    AndThen(o, Empty(), w2, w3);
    AndThen(o, Empty(), w3, w);
  }

  lemma {:induction false} NothingHeld(o: Settings, rec: Rec)
    requires |Events(o, rec)| > 0
    ensures !Held(o, DiskRows(map[]), rec, 0)
  {
  }

  /** A power loss behind the committed offset: from the first start a run reaches a state in which a record was
      acknowledged at an offset that is already committed, and its event is nowhere on disk. Every lifetime starts past
      it. What was lost is a record that no event could be read from. */
  lemma {:induction false} PowerLossLosesEvent(o: Settings, kind: Byte, project: Int64, junk: seq<Byte>,
                                               bytes: seq<Byte>)
    returns (w: World)
    requires EventsIn(o.codec, Frame(kind, project, junk)) == [] && |EventsIn(o.codec, bytes)| > 0
    ensures Reaches(o, Empty(), w) && w.acked == 1 && |w.log| == 1 && w.log[0].bytes == bytes && Lost(o, w, 0, 0)
  {
    var w1 := CommitsUnacked(o, Frame(kind, project, junk));
    var w2 := World([], 1, 0, 0, 1, map[], 1, None);
    var w3 := World([Rec(1, bytes)], 2, 0, 0, 1, map[], 1, None);
    w := World([Rec(1, bytes)], 2, 1, 0, 1, map[], 1, None);
    assert w1.log[..0] == [] && w2.log + [Rec(1, bytes)] == [Rec(1, bytes)];
    Step1(o, w1, Lose(0), w2);
    SubmitOne(o, w2, bytes, w3);
    Step1(o, w3, Ack(1), w);
    AndThen(o, Empty(), w1, w2);
    AndThen(o, Empty(), w2, w3);
    AndThen(o, Empty(), w3, w);
    NothingHeld(o, Rec(1, bytes));
  }

  /** No acknowledged event below the committed offset is lost. */
  ghost predicate NothingLost(o: Settings, w: World) {
    forall n, i {:trigger Lost(o, w, n, i)} :: 0 <= n < w.acked && 0 <= i ==> !Lost(o, w, n, i)
  }

  /** However the run goes on. */
  ghost predicate SafeFrom(o: Settings, w: World) {
    forall acts, w' :: Run(Careful(o), w, acts, w') ==> NothingLost(o, w')
  }

  /** A crash is safe if and only if it leaves the log no shorter than the committed offset: in every state that meets
      the invariant, with any extractor that finds an event without an id in some record. */
  lemma {:induction false} LoseSafeIff(o: Settings, w: World, n: nat, bytes: seq<Byte>)
    requires Good(o, w) && Enabled(o, w, Lose(n)) && |EventsIn(o.codec, bytes)| > 0
      && |EventsIn(o.codec, bytes)[0].ex.id| == 0
    ensures SafeFrom(o, Step(o, w, Lose(n))) <==> w.committed <= n
  {
    var m := Step(o, w, Lose(n));
    if w.committed <= n {
      LoseKeepsGood(o, w, n);
      forall acts, w' | Run(Careful(o), m, acts, w')
        ensures NothingLost(o, w')
      {
        NoEventLost(o, m, acts, w');
      }
    } else {
      var acts, w' := NextIsLost(o, w, n, bytes);
      assert Run(Careful(o), m, acts, w') && Lost(o, w', n, 0);
    }
  }

  lemma {:induction false} CarefulStep(o: Settings, w: World, a: Action, w': World)
    requires Enabled(o, w, a) && Spared(o, w, a) && w' == Step(o, w, a)
    ensures Careful(o)(w, a, w')
  {
  }

  /** The next record gets an offset that is committed already. */
  lemma {:induction false} NextIsLost(o: Settings, w: World, n: nat, bytes: seq<Byte>)
    returns (acts: seq<Action>, w': World)
    requires Good(o, w) && Enabled(o, w, Lose(n)) && n < w.committed
    requires |EventsIn(o.codec, bytes)| > 0 && |EventsIn(o.codec, bytes)[0].ex.id| == 0
    ensures Run(Careful(o), Step(o, w, Lose(n)), acts, w') && n < w'.acked && Lost(o, w', n, 0)
  {
    var m, rec := Step(o, w, Lose(n)), Rec(w.nextId, bytes);
    var m1 := m.(log := m.log + [rec], nextId := w.nextId + 1);
    w' := m1.(acked := n + 1);
    CarefulStep(o, m, Submit(bytes), m1);
    CarefulStep(o, m1, Ack(n + 1), w');
    Two(Careful(o), m, Submit(bytes), m1, Ack(n + 1), w');
    acts := [Submit(bytes), Ack(n + 1)];
    assert w'.log[n] == rec;
  }

  // ---- Cancellation ----

  /** A first record's row is buffered; the buffer, of one row, is full when the second record's event arrives, and the
      flush this starts fails. */
  lemma {:induction false} BufferFull(o: Settings, a: Rec, b: Rec, now: int) returns (w: World)
    requires o.maxBufferRows == 1 && a.id == 0 && b.id == 1 && Single(o, a) && Single(o, b)
    ensures Reaches(o, Empty(), w)
    ensures w == World([a, b], 2, 0, 0, 0, map[], 1,
      Some(Proc(0, 2, Appending(RowFor(o, b, now), true), Fresh(), [RowFor(o, a, now)], 1)))
  {
    var ra, rb := RowFor(o, a, now), RowFor(o, b, now);
    var w1 := World([a], 1, 0, 0, 0, map[], 0, None);
    var w2 := World([a, b], 2, 0, 0, 0, map[], 0, None);
    assert Empty().log + [a] == [a] && [a] + [b] == [a, b];
    SubmitOne(o, Empty(), a.bytes, w1);
    SubmitOne(o, w1, b.bytes, w2);
    AndThen(o, Empty(), w1, w2);
    var log, p4 := [a, b], Proc(0, 1, Idle, Fresh(), [ra], 0);
    var w3 := World(log, 2, 0, 0, 0, map[], 1, Some(Fresh0()));
    StartAt(o, w2, w3);
    AndThen(o, Empty(), w2, w3);
    var w4 := World(log, 2, 0, 0, 0, map[], 1, Some(p4));
    BufferRow(o, w3, Fresh0(), a, now, w4);
    AndThen(o, Empty(), w3, w4);
    w := World(log, 2, 0, 0, 0, map[], 1, Some(Proc(0, 2, Appending(rb, true), Fresh(), [ra], 1)));
    FullAndFailed(o, w4, p4, b, now, w);
    AndThen(o, Empty(), w4, w);
  }

  lemma {:induction false} BufferRow(o: Settings, w: World, p: Proc, a: Rec, now: int, w': World)
    requires At(w, p) && p.pc == Idle && p.buf == [] && o.maxBufferRows >= 1 && p.pos < |w.log| && w.log[p.pos] == a
      && Single(o, a)
    requires w' == w.(proc := Some(p.(pos := p.pos + 1, buf := [RowFor(o, a, now)])))
    ensures Reaches(o, w, w')
  {
    var p1 := p.(pos := p.pos + 1, pc := Appending(RowFor(o, a, now), false));
    var w1 := w.(proc := Some(p1));
    TakeRecord(o, w, p, now, w1);
    assert [] + [RowFor(o, a, now)] == [RowFor(o, a, now)];
    assert p1.(pc := Idle, buf := p1.buf + [RowFor(o, a, now)]) == p.(pos := p.pos + 1, buf := [RowFor(o, a, now)]);
    KeepRow(o, w1, p1, RowFor(o, a, now), w');
    AndThen(o, w, w1, w');
  }

  lemma {:induction false} FullAndFailed(o: Settings, w: World, p: Proc, b: Rec, now: int, w': World)
    requires At(w, p) && p.pc == Idle && |p.buf| == 1 == o.maxBufferRows && p.pos < |w.log| && w.log[p.pos] == b
      && Single(o, b)
    requires w' == w.(proc :=
      Some(p.(pos := p.pos + 1, pc := Appending(RowFor(o, b, now), true), flushCount := p.flushCount + 1)))
    ensures Reaches(o, w, w')
  {
    var row, ra := RowFor(o, b, now), p.buf[0];
    var p1 := p.(pos := p.pos + 1, pc := Appending(row, false));
    var w1 := w.(proc := Some(p1));
    TakeRecord(o, w, p, now, w1);
    assert p.buf == [ra];
    OneRowBuffer(ra);
    var p2 := p1.(pc := Flushing(p.buf, {KeyOf(ra.event)}, ToAppend(row)), buf := []);
    var w2 := w.(proc := Some(p2));
    Step1(o, w1, Store, w2);
    AndThen(o, w, w1, w2);
    GiveUp(o, w2, p2, p.buf, row, w');
    AndThen(o, w, w2, w');
  }

  lemma {:induction false} GiveUp(o: Settings, w: World, p: Proc, rows: seq<Row>, row: Row, w': World)
    requires At(w, p) && p.pc.Flushing? && p.pc.rows == rows && p.pc.todo != {} && p.pc.then_ == ToAppend(row)
      && p.buf == []
    requires w' == w.(proc := Some(p.(pc := Appending(row, true), buf := rows, flushCount := p.flushCount + 1)))
    ensures Reaches(o, w, w')
  {
    assert rows + p.buf == rows;
    Step1(o, w, FailFlush(true), w');
  }

  /** From the first start a run with a cancellation inside the append loop reaches a state in which the second record
      is committed and its event has no row on disk, though the flush after the cancellation succeeded. */
  lemma {:induction false} CancelLosesEvent(o: Settings, a: Rec, b: Rec, now: int) returns (w: World)
    requires o.maxBufferRows == 1 && a.id == 0 && b.id == 1 && Single(o, a) && Single(o, b)
    ensures Reaches(o, Empty(), w) && w.log == [a, b] && w.acked == 2 && Lost(o, w, 1, 0)
  {
    var ra := RowFor(o, a, now);
    var w1 := BufferFull(o, a, b, now);
    var p2 := Proc(0, 2, Idle, Fresh(), [ra], 1);
    var w2 := World([a, b], 2, 0, 0, 0, map[], 1, Some(p2));
    Step1(o, w1, Abandon, w2);
    AndThen(o, Empty(), w1, w2);
    var w3 := World([a, b], 2, 0, 0, 2, map[PathOf(ra, 2) := File({ra}, 1)], 1, Some(p2.(buf := [], flushCount := 2)));
    CommitRow(o, w2, p2, ra, w3);
    AndThen(o, Empty(), w2, w3);
    w := w3.(acked := 2);
    Step1(o, w3, Ack(2), w);
    AndThen(o, Empty(), w3, w);
    OnlyRow(o, PathOf(ra, 2), ra, 1, b);
  }

  /** A disk with one row of another record holds no event without an id. */
  lemma {:induction false} OnlyRow(o: Settings, x: Path, row: Row, life: nat, rec: Rec)
    requires Single(o, rec) && row.rec != rec
    ensures !Held(o, DiskRows(map[x := File({row}, life)]), rec, 0)
  {
    assert DiskRows(map[x := File({row}, life)]) <= {row};
  }

  // ---- A path used twice ----

  /** One lifetime: start, store the record at the committed offset and commit it. */
  lemma {:induction false} OneLife(o: Settings, w: World, rec: Rec, now: int, w': World)
    requires w.proc.None? && w.oldest <= w.committed < |w.log| && w.log[w.committed] == rec && Single(o, rec)
      && o.maxBufferRows >= 1
    requires var row := RowFor(o, rec, now);
      w' == w.(disk := w.disk[PathOf(row, 1) := File({row}, w.life + 1)], committed := w.committed + 1,
        life := w.life + 1,
               proc := Some(Proc(w.committed, w.committed + 1, Idle, Fresh(), [], 1)))
    ensures Reaches(o, w, w')
  {
    var row := RowFor(o, rec, now);
    var p1, p2 := Proc(w.committed, w.committed, Idle, Fresh(), [], 0),
      Proc(w.committed, w.committed + 1, Idle, Fresh(), [row], 0);
    var w1 := w.(proc := Some(p1), life := w.life + 1);
    var w2 := w1.(proc := Some(p2));
    StartAt(o, w, w1);
    BufferRow(o, w1, p1, rec, now, w2);
    CommitRow(o, w2, p2, row, w');
    AndThen(o, w, w1, w2);
    AndThen(o, w, w2, w');
  }

  /** Two lifetimes, each of which stores one event of the same partition and timestamp: the second writes over the
      first one's file, and the first event, which is committed, has no row on disk any more. */
  lemma {:induction false} PathReuseLosesEvent(o: Settings, a: Rec, b: Rec, now: int) returns (w: World)
    requires o.maxBufferRows >= 1 && a.id == 0 && b.id == 1 && Single(o, a) && Single(o, b)
    requires PathOf(RowFor(o, a, now), 1) == PathOf(RowFor(o, b, now), 1)
    ensures Reaches(o, Empty(), w) && w.log == [a, b] && w.acked == 2 && Lost(o, w, 0, 0)
  {
    var ra, rb := RowFor(o, a, now), RowFor(o, b, now);
    var x, log := PathOf(ra, 1), [a, b];
    var w1 := World([a], 1, 0, 0, 0, map[], 0, None);
    var w2 := World(log, 2, 0, 0, 0, map[], 0, None);
    assert Empty().log + [a] == [a] && [a] + [b] == log;
    SubmitOne(o, Empty(), a.bytes, w1);
    SubmitOne(o, w1, b.bytes, w2);
    AndThen(o, Empty(), w1, w2);
    var w3 := World(log, 2, 0, 0, 1, map[x := File({ra}, 1)], 1, Some(Proc(0, 1, Idle, Fresh(), [], 1)));
    OneLife(o, w2, a, now, w3);
    AndThen(o, Empty(), w2, w3);
    var w4 := w3.(proc := None);
    assert log[..2] == log;
    Step1(o, w3, Lose(2), w4);
    AndThen(o, Empty(), w3, w4);
    var w5 := World(log, 2, 0, 0, 2, map[x := File({rb}, 2)], 2, Some(Proc(1, 2, Idle, Fresh(), [], 1)));
    assert w4.disk[x := File({rb}, 2)] == w5.disk;
    OneLife(o, w4, b, now, w5);
    AndThen(o, Empty(), w4, w5);
    w := w5.(acked := 2);
    Step1(o, w5, Ack(2), w);
    AndThen(o, Empty(), w5, w);
    OnlyRow(o, x, rb, 2, a);
  }

  // ---- Every cancellation ----

  predicate CommitStep(a: Action) {
    a.BeginCommit? || a.WritePart? || a.FailFlush? || a.EndFlush? || a.Commit? || a.FailCommit?
  }

  ghost predicate ShuttingDown(p: Proc) {
    p.pc.Idle? || p.pc.Committing? || (p.pc.Flushing? && p.pc.then_ == ToCommit)
  }

  lemma {:induction false} PartIsIn(rows: seq<Row>, k: Key)
    ensures PartIn(rows, k) <= RowSet(rows)
  {
  }

  /** Flushing and committing brings no row that was not on disk or in memory. */
  lemma {:induction false} CommitAddsNothing(o: Settings, w: World, p: Proc, a: Action)
    requires w.proc == Some(p) && ShuttingDown(p) && CommitStep(a) && Enabled(o, w, a)
    ensures var w' := Step(o, w, a);
      w'.proc.Some? && ShuttingDown(w'.proc.value) && w'.proc.value.pos == p.pos && w'.log == w.log
      && Live(w', w'.proc.value) <= Live(w, p)
  {
    var w' := Step(o, w, a);
    match a
    case WritePart(k, minTs) =>
      DiskAfterWrite(w.disk, PathFor(p, k, minTs), File(PartIn(p.pc.rows, k), w.life));
      PartIsIn(p.pc.rows, k);
    case FailFlush(_) =>
      RowSetConcat(p.pc.rows, p.buf);
    case _ =>
  }

  /** Whatever flushing and committing follows a cancellation: the event is on disk afterwards only if a row for it was
      there or in memory before. Otherwise no later commit can bring it back, and the first successful one moves the
      offset past it. */
  lemma {:induction false} ShutdownBringsNothing(o: Settings, w: World, p: Proc, acts: seq<Action>, w': World, rec: Rec,
                                                 i: nat)
    requires w.proc == Some(p) && ShuttingDown(p) && Run(Machine(o), w, acts, w')
      && forall a :: a in acts ==> CommitStep(a)
    requires !Held(o, Live(w, p), rec, i)
    ensures !Held(o, DiskRows(w'.disk), rec, i) && w'.log == w.log
    decreases |acts|
  {
    if acts != [] {
      var m :| Machine(o)(w, acts[0], m) && Run(Machine(o), m, acts[1..], w');
      assert acts[0] in acts;
      CommitAddsNothing(o, w, p, acts[0]);
      if Held(o, Live(m, m.proc.value), rec, i) {
        HeldMore(o, Live(m, m.proc.value), Live(w, p), rec, i);
      }
      ShutdownBringsNothing(o, m, m.proc.value, acts[1..], w', rec, i);
    } else if Held(o, DiskRows(w.disk), rec, i) {
      HeldMore(o, DiskRows(w.disk), Live(w, p), rec, i);
    }
  }

  /** Some spared run leads from w to w'. */
  ghost predicate Leads(o: Settings, w: World, w': World) {
    exists acts :: Run(Careful(o), w, acts, w')
  }

  lemma {:induction false} LeadsBy(o: Settings, w: World, a: Action, w': World)
    requires Enabled(o, w, a) && Spared(o, w, a) && w' == Step(o, w, a)
    ensures Leads(o, w, w')
  {
    One(Careful(o), w, a, w');
    assert Run(Careful(o), w, [a], w');
  }

  lemma {:induction false} LeadsOn(o: Settings, a: World, b: World, c: World)
    requires Leads(o, a, b) && Leads(o, b, c)
    ensures Leads(o, a, c)
  {
    var x :| Run(Careful(o), a, x, b);
    var y :| Run(Careful(o), b, y, c);
    Runs.Concat(Careful(o), a, x, b, y, c);
  }

  ghost predicate NumbersBelow(disk: map<Path, File>, n: nat) {
    forall x :: x in disk ==> x.number <= n
  }

  lemma {:induction false} HighestNumber(disk: map<Path, File>) returns (n: nat)
    ensures NumbersBelow(disk, n)
    decreases |disk|
  {
    n := 0;
    if disk != map[] {
      var x :| x in disk;
      var rest := disk - {x};
      assert x !in rest && rest.Keys + {x} == disk.Keys;
      var m := HighestNumber(rest);
      n := if m < x.number then x.number else m;
      forall y | y in disk
        ensures y.number <= n
      {
        assert y == x || y in rest;
      }
    }
  }

  /** The first row of a partition in time. */
  lemma {:induction false} EarliestOf(rows: seq<Row>, k: Key, n: nat) returns (t: int)
    requires n <= |rows| && exists i :: 0 <= i < n && KeyOf(rows[i].event) == k
    ensures exists i :: 0 <= i < n && KeyOf(rows[i].event) == k && rows[i].event.ts == t
    ensures forall i :: 0 <= i < n && KeyOf(rows[i].event) == k ==> t <= rows[i].event.ts
  {
    if exists i :: 0 <= i < n - 1 && KeyOf(rows[i].event) == k {
      t := EarliestOf(rows, k, n - 1);
      if KeyOf(rows[n - 1].event) == k && rows[n - 1].event.ts < t {
        t := rows[n - 1].event.ts;
      }
    } else {
      t := rows[n - 1].event.ts;
    }
  }

  /** A flush under numbers no file has can write every partition, and the commit that follows. */
  lemma {:induction false} FinishCommit(o: Settings, w: World, p: Proc) returns (w': World)
    requires At(w, p) && p.pc.Flushing? && p.pc.then_ == ToCommit && p.pc.todo <= KeysIn(p.pc.rows) && p.buf == []
    requires NumbersBelow(w.disk, p.flushCount)
    ensures Leads(o, w, w') && w'.committed == p.pos && w'.log == w.log && w'.acked == w.acked
    ensures DiskRows(w'.disk) <= Live(w, p)
    decreases |p.pc.todo|
  {
    if p.pc.todo == {} {
      var w1 := w.(proc := Some(p.(pc := Committing)));
      w' := w1.(committed := p.pos, proc := Some(p.(pc := Idle)));
      LeadsBy(o, w, EndFlush, w1);
      LeadsBy(o, w1, Commit, w');
      LeadsOn(o, w, w1, w');
    } else {
      var k :| k in p.pc.todo;
      var w1 := WriteNext(o, w, p, k);
      w' := FinishCommit(o, w1, w1.proc.value);
      LeadsOn(o, w, w1, w');
    }
  }

  lemma {:induction false} WriteNext(o: Settings, w: World, p: Proc, k: Key) returns (w': World)
    requires At(w, p) && p.pc.Flushing? && k in p.pc.todo && p.pc.todo <= KeysIn(p.pc.rows) && p.buf == []
    requires NumbersBelow(w.disk, p.flushCount)
    ensures Leads(o, w, w') && w'.committed == w.committed && w'.log == w.log && w'.acked == w.acked
    ensures w'.proc == Some(p.(pc := p.pc.(todo := p.pc.todo - {k}), flushCount := p.flushCount + 1))
    ensures NumbersBelow(w'.disk, p.flushCount + 1) && Live(w', w'.proc.value) <= Live(w, p)
  {
    var t := EarliestOf(p.pc.rows, k, |p.pc.rows|);
    var i :| 0 <= i < |p.pc.rows| && KeyOf(p.pc.rows[i].event) == k && p.pc.rows[i].event.ts == t;
    assert p.pc.rows[i] in PartIn(p.pc.rows, k);
    var x := PathFor(p, k, t);
    assert x !in w.disk;
    w' := Step(o, w, WritePart(k, t));
    LeadsBy(o, w, WritePart(k, t), w');
    DiskAfterWrite(w.disk, x, File(PartIn(p.pc.rows, k), w.life));
    PartIsIn(p.pc.rows, k);
  }

  /** Failing flushes use up the numbers that are taken. */
  lemma {:induction false} UseUpNumbers(o: Settings, w: World, p: Proc, n: nat) returns (w': World, p': Proc)
    requires At(w, p) && p.pc == Idle && p.buf != [] && NumbersBelow(w.disk, n)
    ensures Leads(o, w, w') && w' == w.(proc := Some(p')) && NumbersBelow(w.disk, p'.flushCount)
    ensures p' == p.(flushCount := p'.flushCount)
    decreases n - p.flushCount
  {
    if n <= p.flushCount {
      w', p' := w, p;
      assert Run(Careful(o), w, [], w);
    } else {
      var p1, p2 := BeginFlush(p, ToCommit), p.(flushCount := p.flushCount + 1);
      var w1, w2 := w.(proc := Some(p1)), w.(proc := Some(p2));
      assert KeyOf(p.buf[0].event) in KeysIn(p.buf);
      LeadsBy(o, w, BeginCommit, w1);
      assert p1.pc.rows + p1.buf == p.buf;
      LeadsBy(o, w1, FailFlush(true), w2);
      w', p' := UseUpNumbers(o, w2, p2, n);
      LeadsOn(o, w, w1, w2);
      LeadsOn(o, w, w2, w');
    }
  }

  /** Between records a commit is always possible, and brings nothing new to disk. */
  lemma {:induction false} CanCommit(o: Settings, w: World, p: Proc) returns (w': World)
    requires At(w, p) && p.pc == Idle
    ensures Leads(o, w, w') && w'.committed == p.pos && w'.log == w.log && w'.acked == w.acked
    ensures DiskRows(w'.disk) <= Live(w, p)
  {
    var n := HighestNumber(w.disk);
    var w1, p1 := w, p;
    assert Run(Careful(o), w, [], w);
    if p.buf != [] {
      w1, p1 := UseUpNumbers(o, w, p, n);
    }
    var p2 := BeginFlush(p1, ToCommit);
    var w2 := w1.(proc := Some(p2));
    LeadsBy(o, w1, BeginCommit, w2);
    LeadsOn(o, w, w1, w2);
    if p.buf != [] {
      w' := FinishCommit(o, w2, p2);
    } else {
      w' := FinishEmpty(o, w2, p2);
    }
    LeadsOn(o, w, w2, w');
  }

  lemma {:induction false} FinishEmpty(o: Settings, w: World, p: Proc) returns (w': World)
    requires At(w, p) && p.pc == Flushing([], {}, ToCommit)
    ensures Leads(o, w, w') && w' == w.(committed := p.pos, proc := Some(p.(pc := Idle)))
  {
    var w1 := w.(proc := Some(p.(pc := Committing)));
    w' := w1.(committed := p.pos, proc := Some(p.(pc := Idle)));
    LeadsBy(o, w, EndFlush, w1);
    LeadsBy(o, w1, Commit, w');
    LeadsOn(o, w, w1, w');
  }

  /** A cancellation is safe, however the run goes on, if and only if every event it leaves out is accounted for. */
  lemma {:induction false} AbandonSafeIff(o: Settings, w: World)
    requires Good(o, w) && Enabled(o, w, Abandon)
    ensures SafeFrom(o, Step(o, w, Abandon)) <==> RestHeld(o, w, w.proc.value)
  {
    var m := Step(o, w, Abandon);
    if RestHeld(o, w, w.proc.value) {
      AbandonKeepsGood(o, w);
      forall acts, w' | Run(Careful(o), m, acts, w')
        ensures NothingLost(o, w')
      {
        NoEventLost(o, m, acts, w');
      }
    } else {
      var i, w' := LeftOut(o, w);
      var acts :| Run(Careful(o), m, acts, w');
      assert Lost(o, w', w.proc.value.pos - 1, i) && w.proc.value.pos - 1 < w'.acked;
    }
  }

  lemma {:induction false} LeftOut(o: Settings, w: World) returns (i: nat, w': World)
    requires Good(o, w) && Enabled(o, w, Abandon) && !RestHeld(o, w, w.proc.value)
    ensures Leads(o, Step(o, w, Abandon), w') && Lost(o, w', w.proc.value.pos - 1, i) && w.proc.value.pos - 1 < w'.acked
  {
    var p, m := w.proc.value, Step(o, w, Abandon);
    i := NotHeld(o, w, p);
    w' := CommitsPast(o, m, m.proc.value, p.pos - 1, i);
  }

  lemma {:induction false} NotHeld(o: Settings, w: World, p: Proc) returns (i: nat)
    requires p.pc.Appending? && 0 < p.pos <= |w.log| && !RestHeld(o, w, p)
    ensures !Held(o, Live(w, p), w.log[p.pos - 1], i)
    ensures var p' := p.(pc := Idle); Live(w.(proc := Some(p')), p') == Live(w, p)
  {
    i :| p.pc.row.index <= i && !Held(o, Live(w, p), w.log[p.pos - 1], i);
  }

  /** A commit passes an event that no row accounts for. */
  lemma {:induction false} CommitsPast(o: Settings, w: World, p: Proc, n: nat, i: nat) returns (w': World)
    requires At(w, p) && p.pc == Idle && w.acked <= |w.log| && n < p.pos && n < |w.log|
      && !Held(o, Live(w, p), w.log[n], i)
    ensures Leads(o, w, w') && Lost(o, w', n, i) && n < w'.acked
  {
    var w1 := w.(acked := |w.log|);
    LeadsBy(o, w, Ack(|w.log|), w1);
    w' := CanCommit(o, w1, p);
    LeadsOn(o, w, w1, w');
    if Held(o, DiskRows(w'.disk), w.log[n], i) {
      HeldMore(o, DiskRows(w'.disk), Live(w, p), w.log[n], i);
    }
  }
}
