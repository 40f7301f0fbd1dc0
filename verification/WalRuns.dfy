/** Whole runs of the write-ahead log: batches, rolls, retention, crashes and re-opens in any order. */
module WalRuns {
  import opened Bytes
  import opened Segment
  import opened Wal
  import opened Runs

  /** `log` is every record whose write was issued, `acked` how many of them were acknowledged once synced. A log that
      is down remembers the segments it had; Refused is an open that reported corruption. */
  datatype World =
    | Up(st: LogState, log: seq<Entry>, acked: nat)
    | Down(dir: Dir, segs: seq<SegMeta>, log: seq<Entry>, acked: nat)
    | Refused

  datatype Event = Sync | Create | Write(e: Entry) | Ack | Retain | Fail(out: Outcome) | Reopen

  /** When an event can happen. Roll is Sync then Create. Ack is an acknowledgement with the active file synced: under
      SyncBatched and SyncAlways there is no other; what SyncInterval acknowledges without a sync is no event here. */
  ghost predicate Enabled(o: Options, w: World, ev: Event) {
    match ev
    case Sync => w.Up? && Open(w.st)
    case Create => w.Up? && Open(w.st) && Synced(w.st) && Last(w.st.segs).records > 0
    case Write(e) => w.Up? && Open(w.st) && Fits(o, e) && |w.log| + 1 < TWO_64
    case Ack => w.Up? && Open(w.st) && Synced(w.st)
    case Retain => w.Up? && |w.st.segs| > 1 && |w.st.dir| > 1
    case Fail(out) =>
      || (w.Up? && w.st.dir != [] && Possible(Last(w.st.dir), out))
      || (w.Down? && w.dir != [] && |w.dir| == |w.segs| && Possible(Last(w.dir), out))
    case Reopen => w.Down? && Recoverable(w.dir, w.segs)
  }

  ghost function Step(o: Options, w: World, ev: Event): World
    requires Enabled(o, w, ev)
  {
    match ev
    case Sync => w.(st := SyncActive(w.st))
    case Create => w.(st := CreateSegment(w.st))
    case Write(e) => Up(WriteRecord(o, w.st, e), w.log + [e], w.acked)
    case Ack => w.(acked := |w.log|)
    case Retain => w.(st := DropOldest(w.st))
    case Fail(out) =>
      if w.Up? then Down(Crash(w.st.dir, out), w.st.segs, w.log, w.acked) else w.(dir := Crash(w.dir, out))
    case Reopen =>
      match Load(w.dir, ProbeAll(o, w.dir))
      case LoadFailed => Refused
      case Loaded(s) => Up(s, if s.next <= |w.log| then w.log[..s.next] else w.log, w.acked)
  }

  function DropOldest(s: LogState): LogState
    requires s.segs != [] && s.dir != []
  {
    s.(dir := s.dir[1..], segs := s.segs[1..])
  }

  ghost predicate Next(o: Options, w: World, ev: Event, w': World) {
    Enabled(o, w, ev) && w' == Step(o, w, ev)
  }

  ghost function Machine(o: Options): (World, Event, World) -> bool {
    (w, ev, w') => Next(o, w, ev, w')
  }

  ghost predicate Good(o: Options, w: World) {
    match w
    case Up(st, log, acked) => Inv(o, st, log, acked)
    case Down(dir, segs, log, acked) => Damaged(o, dir, segs, log, acked)
    case Refused => false
  }

  /** Nothing acknowledged in w is gone or moved in w'. */
  ghost predicate Keeps(w: World, w': World) {
    && !w.Refused? && !w'.Refused?
    && w.acked <= |w.log|
    && w.acked <= w'.acked
    && w.log[..w.acked] <= w'.log
  }

  lemma {:induction false} RetainKeepsInv(o: Options, s: LogState, log: seq<Entry>, acked: nat)
    requires Inv(o, s, log, acked) && |s.segs| > 1
    ensures Inv(o, DropOldest(s), log, acked)
  {
    var r := DropOldest(s);
    assert Init(r.dir) == Init(s.dir)[1..] && Init(r.segs) == Init(s.segs)[1..];
    forall i, j | 0 <= i < j < |r.segs| && j == i + 1
      ensures r.segs[i].End() == r.segs[j].base
    {
      assert s.segs[i + 1].End() == s.segs[j + 1].base;
    }
    assert forall i :: 0 <= i < |r.segs| - 1 ==> r.segs[i].records > 0;
  }

  lemma {:induction false} FailKeepsGood(o: Options, w: World, out: Outcome)
    requires Good(o, w) && Enabled(o, w, Fail(out))
    ensures Good(o, Step(o, w, Fail(out)))
  {
    if w.Up? {
      InvIsDamaged(o, w.st, w.log, w.acked);
      CrashKeepsDamaged(o, w.st.dir, w.st.segs, w.log, w.acked, out);
    } else {
      CrashKeepsDamaged(o, w.dir, w.segs, w.log, w.acked, out);
    }
  }

  /** Opening after a crash never reports corruption; it yields a prefix of the writes that contains every
      acknowledged one, and the next offset is its length. */
  lemma {:induction false} ReopenRecovers(o: Options, w: World)
    requires Good(o, w) && Enabled(o, w, Reopen)
    ensures var w' := Step(o, w, Reopen);
      Good(o, w') && w'.Up? && w'.log <= w.log && w'.acked == w.acked <= |w'.log| == w'.st.next
  {
    var n := LoadRecovers(o, w.dir, w.segs, w.log, w.acked);
    assert Load(w.dir, ProbeAll(o, w.dir)).state.next == n;
  }

  lemma {:induction false} StepKeepsGood(o: Options, w: World, ev: Event)
    requires Good(o, w) && Enabled(o, w, ev)
    ensures Good(o, Step(o, w, ev))
  {
    match ev
    case Sync => SyncKeepsInv(o, w.st, w.log, w.acked);
    case Create => CreateKeepsInv(o, w.st, w.log, w.acked);
    case Write(e) => WriteKeepsInv(o, w.st, w.log, w.acked, e);
    case Ack => AckKeepsInv(o, w.st, w.log, w.acked);
    case Retain => RetainKeepsInv(o, w.st, w.log, w.acked);
    case Fail(out) => FailKeepsGood(o, w, out);
    case Reopen => ReopenRecovers(o, w);
  }

  lemma {:induction false} StepKeepsAcked(o: Options, w: World, ev: Event)
    requires Good(o, w) && Enabled(o, w, ev)
    ensures Keeps(w, Step(o, w, ev))
  {
    if ev.Reopen? {
      ReopenRecovers(o, w);
    }
  }

  /** What the rest of the system sees of the log: it stays, is acknowledged further, grows by a record, or after a
      crash is cut back to no less than what was acknowledged. */
  ghost predicate LogStep(log: seq<Entry>, acked: nat, log': seq<Entry>, acked': nat) {
    || (log' == log && acked <= acked' <= |log|)
    || (acked' == acked && exists e :: log' == log + [e])
    || (acked' == acked <= |log'| && log' <= log)
  }

  lemma {:induction false} StepIsLogStep(o: Options, w: World, ev: Event)
    requires Good(o, w) && Enabled(o, w, ev)
    ensures var w' := Step(o, w, ev); !w'.Refused? && LogStep(w.log, w.acked, w'.log, w'.acked)
  {
    if ev.Reopen? {
      ReopenRecovers(o, w);
    }
  }

  lemma {:induction false} KeepsTransitive(a: World, b: World, c: World)
    requires Keeps(a, b) && Keeps(b, c)
    ensures Keeps(a, c)
  {
  }

  /** In every run from a good state no open ever reports corruption and every record acknowledged once synced stays at
      its offset for the rest of the run; under SyncBatched and SyncAlways that is every record acknowledged. */
  lemma {:induction false} AckedForever(o: Options, w: World, evs: seq<Event>, w': World)
    requires Good(o, w) && Run(Machine(o), w, evs, w')
    ensures Good(o, w') && Keeps(w, w')
    decreases |evs|
  {
    if evs != [] {
      var m :| Machine(o)(w, evs[0], m) && Run(Machine(o), m, evs[1..], w');
      StepKeepsGood(o, w, evs[0]);
      StepKeepsAcked(o, w, evs[0]);
      AckedForever(o, m, evs[1..], w');
      KeepsTransitive(w, m, w');
    }
  }

  /** A log created by the first open is good. */
  lemma {:induction false} CreatedIsGood(o: Options)
    ensures Load([], ProbeAll(o, [])) == Loaded(Fresh(0))
    ensures Good(o, Up(Fresh(0), [], 0))
  {
  }

  // ---- A batch is such a run ----

  lemma {:induction false} AppendOneIsRun(o: Options, s: LogState, log: seq<Entry>, acked: nat, e: Entry)
    returns (evs: seq<Event>)
    requires Open(s) && Fits(o, e) && |log| + 1 < TWO_64
    ensures Run(Machine(o), Up(s, log, acked), evs, Up(AppendOne(o, s, e), log + [e], acked))
  {
    var w, s1 := Up(s, log, acked), s;
    evs := [];
    if MustRoll(o, s, e) {
      s1 := CreateSegment(SyncActive(s));
      Snoc(Machine(o), w, [], w, Sync, Up(SyncActive(s), log, acked));
      Snoc(Machine(o), w, [] + [Sync], Up(SyncActive(s), log, acked), Create, Up(s1, log, acked));
      evs := [] + [Sync] + [Create];
    }
    var s2 := WriteRecord(o, s1, e);
    Snoc(Machine(o), w, evs, Up(s1, log, acked), Write(e), Up(s2, log + [e], acked));
    evs := evs + [Write(e)];
    if o.policy == SyncAlways {
      Snoc(Machine(o), w, evs, Up(s2, log + [e], acked), Sync, Up(SyncActive(s2), log + [e], acked));
      evs := evs + [Sync];
    }
  }

  lemma {:induction false} SnocInit(log: seq<Entry>, es: seq<Entry>)
    requires es != []
    ensures log + Init(es) + [Last(es)] == log + es
  {
  }

  lemma {:induction false} AppendAllIsRun(o: Options, s: LogState, log: seq<Entry>, acked: nat, es: seq<Entry>)
    returns (evs: seq<Event>)
    requires Open(s) && AllFit(o, es) && |log| + |es| < TWO_64
    ensures Run(Machine(o), Up(s, log, acked), evs, Up(AppendAll(o, s, es), log + es, acked))
    decreases |es|
  {
    evs := [];
    if es == [] {
      assert log + es == log;
    } else {
      var s1, s2, log1 := AppendAll(o, s, Init(es)), AppendAll(o, s, es), log + Init(es);
      evs := AppendAllIsRun(o, s, log, acked, Init(es));
      var evs1 := AppendOneIsRun(o, s1, log1, acked, Last(es));
      SnocInit(log, es);
      Concat(Machine(o), Up(s, log, acked), evs, Up(s1, log1, acked), evs1, Up(s2, log + es, acked));
      evs := evs + evs1;
    }
  }

  /** writeBatch under the two durable policies: its system calls form a run that appends the batch, after
      which the acknowledgement of all of it is enabled. */
  lemma {:induction false} BatchIsRun(o: Options, s: LogState, log: seq<Entry>, acked: nat, es: seq<Entry>, due: bool)
    returns (evs: seq<Event>)
    requires o.policy != SyncInterval && Open(s) && AllFit(o, es) && es != [] && |log| + |es| < TWO_64
    ensures var w' := Up(BatchWritten(o, s, es, due), log + es, acked);
      Run(Machine(o), Up(s, log, acked), evs, w') && Enabled(o, w', Ack)
  {
    var r := AppendAll(o, s, es);
    evs := AppendAllIsRun(o, s, log, acked, es);
    if o.policy == SyncBatched {
      Snoc(Machine(o), Up(s, log, acked), evs, Up(r, log + es, acked), Sync, Up(SyncActive(r), log + es, acked));
      evs := evs + [Sync];
    }
  }

  // ---- What is kept whatever the policy ----

  /** A killed process leaves the bytes it has written: the first `done` records complete, whatever was synced. */
  lemma {:induction false} KilledIsDamaged(o: Options, s: LogState, log: seq<Entry>, acked: nat, done: nat, keep: nat)
    requires Inv(o, s, log, acked) && done <= |log|
    requires Last(s.segs).base < done ==> |Image(o, Last(s.segs).base, log[Last(s.segs).base..done])| <= keep
    requires Last(s.dir).synced <= keep <= |Last(s.dir).bytes|
    ensures Possible(Last(s.dir), Kept(keep, keep)) && Damaged(o, Crash(s.dir, Kept(keep, keep)), s.segs, log, done)
  {
    InvIsDamaged(o, s, log, acked);
    CrashKeepsDamaged(o, s.dir, s.segs, log, acked, Kept(keep, keep));
  }

  /** Whatever the policy, all that it finished writing is recovered. */
  lemma {:induction false} KillKeepsWrites(o: Options, s: LogState, log: seq<Entry>, acked: nat, done: nat, keep: nat)
    returns (n: nat)
    requires Inv(o, s, log, acked)
    requires Last(s.segs).base <= done <= |log|
    requires |Image(o, Last(s.segs).base, log[Last(s.segs).base..done])| <= keep <= |Last(s.dir).bytes|
    requires Last(s.dir).synced <= keep
    ensures done <= n <= |log| && RecoversTo(o, Crash(s.dir, Kept(keep, keep)), log[..n], done)
  {
    KilledIsDamaged(o, s, log, acked, done, keep);
    n := LoadRecovers(o, Crash(s.dir, Kept(keep, keep)), s.segs, log, done);
  }

  lemma {:induction false} OneSynced(o: Options, e: Entry)
    ensures var s := SyncActive(WriteRecord(o, Fresh(0), e));
      Open(s) && Synced(s) && |s.segs| == |s.dir| == 1 && s.segs[0].records == 1 && s.next == 1
  {
  }

  lemma {:induction false} RolledAndDropped(s: LogState)
    requires |s.segs| == |s.dir| == 1 && s.next == 1
    ensures var r := CreateSegment(s);
      |r.segs| == |r.dir| == 2 && DropOldest(r) == LogState([SegFile(1, Header(1), 0)], [SegMeta(1, 0, HEADER_LEN)], 1)
  {
    var r := CreateSegment(s);
    assert r.dir[1..] == [SegFile(1, Header(1), 0)] && r.segs[1..] == [SegMeta(1, 0, HEADER_LEN)];
  }

  lemma {:induction false} HeaderTorn()
    ensures var dir := [SegFile(1, Header(1), 0)];
      Possible(Last(dir), Kept(0, 0)) && Crash(dir, Kept(0, 0)) == [SegFile(1, [], 0)]
  {
    assert Header(1)[..0] == [];
  }

  /** The exception to recovery is reached: write, sync and acknowledge a record, roll, let retention delete the sealed
      segment, and lose power before the new header is out. What is left opens as an empty log at offset 0. */
  lemma {:induction false} LoneTornHeaderReached(o: Options, e: Entry) returns (evs: seq<Event>, w: World)
    requires Fits(o, e)
    ensures Run(Machine(o), Up(Fresh(0), [], 0), evs, w)
    ensures w.Down? && w.acked == 1 && w.log == [e] && !Recoverable(w.dir, w.segs)
      && Load(w.dir, ProbeAll(o, w.dir)) == Loaded(Fresh(0))
  {
    var next, w0, s1 := Machine(o), Up(Fresh(0), [], 0), WriteRecord(o, Fresh(0), e);
    var w1, w2, w3 := Up(s1, [e], 0), Up(SyncActive(s1), [e], 0), Up(SyncActive(s1), [e], 1);
    assert [] + [e] == [e];
    assert Step(o, w0, Write(e)) == w1;
    Two(next, w0, Write(e), w1, Sync, w2);
    OneSynced(o, e);
    Snoc(next, w0, [Write(e), Sync], w2, Ack, w3);
    evs, w := RollRetainTear(o, w3);
    Concat(next, w0, [Write(e), Sync] + [Ack], w3, evs, w);
    evs := [Write(e), Sync] + [Ack] + evs;
  }

  lemma {:induction false} RollRetainTear(o: Options, w: World) returns (evs: seq<Event>, w': World)
    requires w.Up? && Open(w.st) && Synced(w.st) && |w.st.segs| == |w.st.dir| == 1 && w.st.segs[0].records == 1
      && w.st.next == 1
    ensures Run(Machine(o), w, evs, w')
    ensures w' == Down([SegFile(1, [], 0)], [SegMeta(1, 0, HEADER_LEN)], w.log, w.acked)
    ensures !Recoverable(w'.dir, w'.segs) && Load(w'.dir, ProbeAll(o, w'.dir)) == Loaded(Fresh(0))
  {
    var next, w1 := Machine(o), w.(st := CreateSegment(w.st));
    var w2 := w.(st := LogState([SegFile(1, Header(1), 0)], [SegMeta(1, 0, HEADER_LEN)], 1));
    w' := Down([SegFile(1, [], 0)], [SegMeta(1, 0, HEADER_LEN)], w.log, w.acked);
    RolledAndDropped(w.st);
    assert Step(o, w, Create) == w1;
    assert Step(o, w1, Retain) == w2;
    Two(next, w, Create, w1, Retain, w2);
    HeaderTorn();
    assert Step(o, w2, Fail(Kept(0, 0))) == w';
    Snoc(next, w, [Create, Retain], w2, Fail(Kept(0, 0)), w');
    evs := [Create, Retain] + [Fail(Kept(0, 0))];
    LoadNothing(o, w'.dir);
  }
}
