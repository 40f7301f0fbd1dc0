/** SyncInterval (internal/wal/wal.go): batches are acknowledged before they are synced, and synced when the clock says
    so. What is on stable storage at every moment, which acknowledgements outlive a power loss, and how far the loss
    window that the policy documents is true. */
module Interval {
  import opened Base
  import opened Bytes
  import opened Segment
  import opened Wal
  import opened Runs
  import W = WalRuns

  // ---- What is on stable storage ----

  /** Bytes of records that were synced in the active file. */
  function Room(f: SegFile): nat {
    if f.synced < HEADER_LEN then 0 else f.synced - HEADER_LEN
  }

  /** How many records of the log are on stable storage. */
  function OnDisk(s: LogState, log: seq<Entry>): (n: nat)
    requires Open(s) && Last(s.segs).base <= |log|
    ensures n <= |log|
  {
    var base := Last(s.segs).base;
    base + CompleteCount(log[base..], Room(Last(s.dir)))
  }

  lemma {:induction false} OnDiskIs(o: Options, s: LogState, log: seq<Entry>, n: nat)
    requires Open(s) && Last(s.segs).base <= n <= |log|
    requires Complete(o, log[Last(s.segs).base..], Room(Last(s.dir)), n - Last(s.segs).base)
    ensures OnDisk(s, log) == n
  {
    var es, room := log[Last(s.segs).base..], Room(Last(s.dir));
    CompleteCountIsComplete(o, es, room);
    CompleteUnique(o, es, room, CompleteCount(es, room), n - Last(s.segs).base);
  }

  lemma {:induction false} OnDiskComplete(o: Options, s: LogState, log: seq<Entry>)
    requires Open(s) && Last(s.segs).base <= |log|
    ensures Complete(o, log[Last(s.segs).base..], Room(Last(s.dir)), OnDisk(s, log) - Last(s.segs).base)
  {
    CompleteCountIsComplete(o, log[Last(s.segs).base..], Room(Last(s.dir)));
  }

  /** The invariant for what is on stable storage. */
  lemma {:induction false} OnDiskInv(o: Options, s: LogState, log: seq<Entry>, acked: nat)
    requires Inv(o, s, log, acked)
    ensures Inv(o, s, log, OnDisk(s, log))
  {
    var base := Last(s.segs).base;
    OnDiskComplete(o, s, log);
    assert log[base..OnDisk(s, log)] == log[base..][..OnDisk(s, log) - base];
    if base < OnDisk(s, log) {
      HoldsSome(o, log[base..], Room(Last(s.dir)), OnDisk(s, log) - base);
    }
  }

  lemma {:induction false} HoldsSome(o: Options, es: seq<Entry>, room: nat, k: nat)
    requires 0 < k <= |es| && |EncodeAll(o, es[..k])| <= room
    ensures room > 0
  {
    EncodedLength(o, es[..k], 1);
  }

  /** Every crash that open recovers from leaves record n. */
  ghost predicate Survives(o: Options, s: LogState, log: seq<Entry>, n: nat)
    requires Open(s)
  {
    forall out :: Possible(Last(s.dir), out) && Recoverable(Crash(s.dir, out), s.segs) ==>
      exists m {:trigger log[..m]} :: n < m <= |log| && RecoversTo(o, Crash(s.dir, out), log[..m], 0)
  }

  lemma {:induction false} InvForgets(o: Options, s: LogState, log: seq<Entry>, acked: nat)
    requires Inv(o, s, log, acked)
    ensures Inv(o, s, log, 0)
  {
  }

  lemma {:induction false} OnDiskSurvives(o: Options, s: LogState, log: seq<Entry>, n: nat)
    requires Inv(o, s, log, 0) && n < OnDisk(s, log)
    ensures Survives(o, s, log, n)
  {
    OnDiskInv(o, s, log, 0);
    InvIsDamaged(o, s, log, OnDisk(s, log));
    forall out | Possible(Last(s.dir), out) && Recoverable(Crash(s.dir, out), s.segs)
      ensures exists m {:trigger log[..m]} :: n < m <= |log| && RecoversTo(o, Crash(s.dir, out), log[..m], 0)
    {
      CrashKeepsDamaged(o, s.dir, s.segs, log, OnDisk(s, log), out);
      var m := LoadRecovers(o, Crash(s.dir, out), s.segs, log, OnDisk(s, log));
      var r := Load(Crash(s.dir, out), ProbeAll(o, Crash(s.dir, out)));
      InvForgets(o, r.state, log[..m], OnDisk(s, log));
      assert RecoversTo(o, Crash(s.dir, out), log[..m], 0);
    }
  }

  /** The power loss that keeps the header and what was synced. */
  function Worst(f: SegFile): Outcome {
    Kept(if f.synced < HEADER_LEN then HEADER_LEN else f.synced, f.synced)
  }

  /** Recovery after it ends where the stable storage does. */
  lemma {:induction false} WorstLoses(o: Options, s: LogState, log: seq<Entry>)
    requires Inv(o, s, log, 0)
    ensures Possible(Last(s.dir), Worst(Last(s.dir)))
    ensures var dir := Crash(s.dir, Worst(Last(s.dir)));
      && Recoverable(dir, s.segs) && RecoversTo(o, dir, log[..OnDisk(s, log)], 0)
  {
    var f, base := Last(s.dir), Last(s.segs).base;
    var dir := Crash(s.dir, Worst(f));
    InvIsDamaged(o, s, log, 0);
    CrashKeepsDamaged(o, s.dir, s.segs, log, 0, Worst(f));
    ProbePrefix(o, Last(dir), log[base..], CompleteCount(log[base..], Room(f)));
    LoadedTail(o, dir, s.segs, log, 0);
    var m := LoadTornTail(o, dir, s.segs, log, 0);
    LoadEnds(o, dir, log[..m]);
    assert Last(Load(dir, ProbeAll(o, dir)).state.segs).End() == OnDisk(s, log);
  }

  /** Where the recovered log ends is where the last good segment does. */
  lemma {:induction false} LoadEnds(o: Options, dir: Dir, log: seq<Entry>)
    requires RecoversTo(o, dir, log, 0)
    ensures Load(dir, ProbeAll(o, dir)).state.next == |log|
  {
  }

  /** A record outlives every crash if and only if it is on stable storage. */
  lemma {:induction false} SurvivesIff(o: Options, s: LogState, log: seq<Entry>, acked: nat, n: nat)
    requires Inv(o, s, log, acked) && n < |log|
    ensures Survives(o, s, log, n) <==> n < OnDisk(s, log)
  {
    InvForgets(o, s, log, acked);
    if n < OnDisk(s, log) {
      OnDiskSurvives(o, s, log, n);
    }
    if Survives(o, s, log, n) {
      WorstLoses(o, s, log);
      var dir := Crash(s.dir, Worst(Last(s.dir)));
      var m :| n < m <= |log| && RecoversTo(o, dir, log[..m], 0);
      LoadEnds(o, dir, log[..m]);
      LoadEnds(o, dir, log[..OnDisk(s, log)]);
    }
  }

  // ---- What each system call does to it ----

  lemma {:induction false} SyncStores(o: Options, s: LogState, log: seq<Entry>, acked: nat)
    requires Inv(o, s, log, acked) && Synced(s)
    ensures OnDisk(s, log) == |log|
  {
    var m := Last(s.segs);
    assert log[m.base..] == log[m.base..m.End()];
    assert log[m.base..][..m.records] == log[m.base..];
    OnDiskIs(o, s, log, |log|);
  }

  lemma {:induction false} CreateStores(o: Options, s: LogState, log: seq<Entry>)
    requires Open(s) && s.next == |log|
    ensures OnDisk(CreateSegment(s), log) == |log|
  {
  }

  lemma {:induction false} CompleteSnoc(o: Options, es: seq<Entry>, e: Entry, room: nat, k: nat)
    requires Complete(o, es, room, k) && room <= |EncodeAll(o, es)|
    ensures Complete(o, es + [e], room, k)
  {
    assert (es + [e])[..k] == es[..k];
    if k == |es| {
      assert (es + [e])[..k + 1] == es + [e];
      EncodeAllConcat(o, es, [e]);
      EncodeAllOne(o, e);
    } else {
      assert (es + [e])[..k + 1] == es[..k + 1];
    }
  }

  /** A record more in the active file leaves as many complete within what was synced. */
  lemma {:induction false} SyncedUnchanged(o: Options, f: SegFile, m: SegMeta, log: seq<Entry>, e: Entry)
    requires Wal.Stored(o, f, m, log) && m.End() == |log| && f.synced <= |f.bytes|
    ensures CompleteCount((log + [e])[m.base..], Room(f)) == CompleteCount(log[m.base..], Room(f))
  {
    var es, room := log[m.base..], Room(f);
    var k := CompleteCount(es, room);
    assert es == log[m.base..m.End()] && (log + [e])[m.base..] == es + [e];
    CompleteCountIsComplete(o, es, room);
    CompleteSnoc(o, es, e, room, k);
    CompleteCountIsComplete(o, es + [e], room);
    CompleteUnique(o, es + [e], room, CompleteCount(es + [e], room), k);
  }

  lemma {:induction false} WriteStoresNothing(o: Options, s: LogState, log: seq<Entry>, acked: nat, e: Entry)
    requires Inv(o, s, log, acked)
    ensures OnDisk(WriteRecord(o, s, e), log + [e]) == OnDisk(s, log)
  {
    SyncedUnchanged(o, Last(s.dir), Last(s.segs), log, e);
  }

  /** How many records are on disk, and how many written, after an event, if `d` and `len` were before. */
  function Counts(ev: W.Event, d: nat, len: nat): (nat, nat) {
    match ev
    case Sync => (len, len)
    case Create => (len, len)
    case Write(_) => (d, len + 1)
    case _ => (d, len)
  }

  /** How many records were written when the last sync came, if the `len` records before these events had `d` on
      disk. */
  function SyncedBy(evs: seq<W.Event>, d: nat, len: nat): nat {
    if evs == [] then d else SyncedBy(evs[1..], Counts(evs[0], d, len).0, Counts(evs[0], d, len).1)
  }

  predicate NoCrash(evs: seq<W.Event>) {
    forall ev :: ev in evs ==> !ev.Fail? && !ev.Reopen?
  }

  lemma {:induction false} CallKeepsGood(o: Options, w: W.World, ev: W.Event)
    requires w.Up? && W.Good(o, w) && W.Enabled(o, w, ev) && !ev.Fail? && !ev.Reopen?
    ensures W.Step(o, w, ev).Up? && W.Good(o, W.Step(o, w, ev))
  {
    W.StepKeepsGood(o, w, ev);
  }

  lemma {:induction false} SyncCounts(o: Options, s: LogState, log: seq<Entry>, acked: nat)
    requires Inv(o, s, log, acked)
    ensures OnDisk(SyncActive(s), log) == |log|
  {
    SyncKeepsInv(o, s, log, acked);
    SyncStores(o, SyncActive(s), log, acked);
  }

  lemma {:induction false} OnDiskStep(o: Options, w: W.World, ev: W.Event)
    requires w.Up? && W.Good(o, w) && W.Enabled(o, w, ev) && !ev.Fail? && !ev.Reopen?
    ensures var w' := W.Step(o, w, ev);
      && w'.Up? && W.Good(o, w')
      && (OnDisk(w'.st, w'.log), |w'.log|) == Counts(ev, OnDisk(w.st, w.log), |w.log|)
  {
    CallKeepsGood(o, w, ev);
    match ev
    case Sync => SyncCounts(o, w.st, w.log, w.acked);
    case Create => CreateStores(o, w.st, w.log);
    case Write(e) => WriteStoresNothing(o, w.st, w.log, w.acked, e);
    case _ =>
  }

  lemma {:induction false} OnDiskRun(o: Options, w: W.World, evs: seq<W.Event>, w': W.World)
    requires w.Up? && W.Good(o, w) && Run(W.Machine(o), w, evs, w') && NoCrash(evs)
    ensures w'.Up? && W.Good(o, w') && OnDisk(w'.st, w'.log) == SyncedBy(evs, OnDisk(w.st, w.log), |w.log|)
    decreases |evs|
  {
    if evs != [] {
      var m :| W.Machine(o)(w, evs[0], m) && Run(W.Machine(o), m, evs[1..], w');
      assert evs[0] in evs;
      OnDiskStep(o, w, evs[0]);
      OnDiskRun(o, m, evs[1..], w');
    }
  }

  /** Of all records: those that outlive every crash are those on stable storage. */
  lemma {:induction false} SurvivorsAre(o: Options, s: LogState, log: seq<Entry>, acked: nat)
    requires Inv(o, s, log, acked)
    ensures forall n :: 0 <= n < |log| ==> (Survives(o, s, log, n) <==> n < OnDisk(s, log))
  {
    forall n | 0 <= n < |log|
      ensures Survives(o, s, log, n) <==> n < OnDisk(s, log)
    {
      SurvivesIff(o, s, log, acked, n);
    }
  }

  /** A record outlives every crash if and only if a sync has followed its write. */
  lemma {:induction false} DurableIffSynced(o: Options, w: W.World, evs: seq<W.Event>, w': W.World)
    requires w.Up? && W.Good(o, w) && Run(W.Machine(o), w, evs, w') && NoCrash(evs)
    ensures w'.Up? && W.Good(o, w')
    ensures forall n :: 0 <= n < |w'.log| ==>
      (Survives(o, w'.st, w'.log, n) <==> n < SyncedBy(evs, OnDisk(w.st, w.log), |w.log|))
  {
    OnDiskRun(o, w, evs, w');
    SurvivorsAre(o, w'.st, w'.log, w'.acked);
  }

  // ---- Batches under SyncInterval ----

  /** The log of one lifetime, with the clock test of each record's batch, the last sync by the clock, and the clock.
      Every record is acknowledged. */
  datatype Clocked = Clocked(st: LogState, log: seq<Entry>, times: seq<int>, lastSync: Option<int>, clock: int)

  /** A batch that was started, tested against the clock and finished at these times; retention; or time passing. */
  datatype Event = Batch(es: seq<Entry>, start: int, now: int, later: int) | Retain | Wait(until: int)

  ghost predicate Enabled(o: Options, w: Clocked, ev: Event) {
    match ev
    case Batch(es, start, now, later) =>
      && Open(w.st) && w.clock <= start <= now <= later && AllFit(o, es) && |w.log| + |es| < TWO_64
      && Gathered(o, es, start + o.batchWindow <= now)
    case Retain => |w.st.segs| > 1 && |w.st.dir| > 1
    case Wait(until) => w.clock <= until
  }

  ghost function Step(o: Options, w: Clocked, ev: Event): Clocked
    requires Enabled(o, w, ev)
  {
    match ev
    case Batch(es, start, now, later) =>
      var due := Due(o, w.lastSync, now);
      Clocked(BatchWritten(o, w.st, es, due), w.log + es, w.times + seq(|es|, _ => now),
              if due then Some(later) else w.lastSync, later)
    case Retain => w.(st := W.DropOldest(w.st))
    case Wait(until) => w.(clock := until)
  }

  ghost function Machine(o: Options): (Clocked, Event, Clocked) -> bool {
    (w, ev, w') => Enabled(o, w, ev) && w' == Step(o, w, ev)
  }

  ghost predicate Stored(w: Clocked)
    requires Open(w.st) && Last(w.st.segs).base <= |w.log|
  {
    OnDisk(w.st, w.log) == |w.log|
  }

  /** What is not on stable storage was acknowledged within one window after the last sync by the clock. */
  ghost predicate InWindow(o: Options, w: Clocked)
    requires Open(w.st) && Last(w.st.segs).base <= |w.log| == |w.times|
  {
    w.lastSync.Some? ==>
      && w.lastSync.value <= w.clock
      && forall n :: OnDisk(w.st, w.log) <= n < |w.log| ==>
        w.lastSync.value <= w.times[n] < w.lastSync.value + o.batchWindow
  }

  ghost predicate Good(o: Options, w: Clocked) {
    && Inv(o, w.st, w.log, 0) && |w.times| == |w.log| && InWindow(o, w)
    && (forall i :: 0 <= i < |w.times| ==> w.times[i] <= w.clock)
    && (forall i, j :: 0 <= i < j < |w.times| ==> w.times[i] <= w.times[j])
  }

  /** Appending rolls or does not: then everything before the roll is on disk, or what was. */
  lemma {:induction false} AppendStores(o: Options, s: LogState, log: seq<Entry>, e: Entry)
    requires o.policy == SyncInterval && Inv(o, s, log, 0) && Fits(o, e) && |log| + 1 < TWO_64
    ensures var r := AppendOne(o, s, e);
      && Inv(o, r, log + [e], 0)
      && OnDisk(r, log + [e]) == (if MustRoll(o, s, e) then |log| else OnDisk(s, log))
      && Last(r.segs).base == (if MustRoll(o, s, e) then |log| else Last(s.segs).base)
  {
    if MustRoll(o, s, e) {
      var t := SyncActive(s);
      SyncKeepsInv(o, s, log, 0);
      CreateKeepsInv(o, t, log, 0);
      CreateStores(o, t, log);
      WriteKeepsInv(o, CreateSegment(t), log, 0, e);
      WriteStoresNothing(o, CreateSegment(t), log, 0, e);
    } else {
      WriteKeepsInv(o, s, log, 0, e);
      WriteStoresNothing(o, s, log, 0, e);
    }
  }

  function Max(a: nat, b: nat): nat {
    if a < b then b else a
  }

  lemma {:induction false} AllStores(o: Options, s: LogState, log: seq<Entry>, es: seq<Entry>)
    requires o.policy == SyncInterval && Inv(o, s, log, 0) && AllFit(o, es) && |log| + |es| < TWO_64
    ensures var r := AppendAll(o, s, es);
      && Inv(o, r, log + es, 0) && Last(s.segs).base <= Last(r.segs).base
      && OnDisk(r, log + es) == Max(OnDisk(s, log), Last(r.segs).base)
    decreases |es|
  {
    if es == [] {
      assert log + es == log;
    } else {
      AllStores(o, s, log, Init(es));
      AppendStores(o, AppendAll(o, s, Init(es)), log + Init(es), Last(es));
      W.SnocInit(log, es);
    }
  }

  /** What is on stable storage after a batch: all of it if the clock test was met; else what was before, and what a
      roll within the batch synced. */
  lemma {:induction false} BatchStores(o: Options, s: LogState, log: seq<Entry>, es: seq<Entry>, due: bool)
    requires o.policy == SyncInterval && Inv(o, s, log, 0) && AllFit(o, es) && |log| + |es| < TWO_64
    ensures var r := BatchWritten(o, s, es, due);
      && Inv(o, r, log + es, 0)
      && OnDisk(r, log + es) == if due then |log| + |es| else Max(OnDisk(s, log), Last(r.segs).base)
  {
    AllStores(o, s, log, es);
    if due {
      var r := AppendAll(o, s, es);
      SyncKeepsInv(o, r, log + es, 0);
      SyncStores(o, SyncActive(r), log + es, 0);
    }
  }

  /** An acknowledged record is durable after its batch if and only if the batch was due or a roll within it came
      later. */
  lemma {:induction false} BatchDurableIff(o: Options, s: LogState, log: seq<Entry>, es: seq<Entry>, due: bool, n: nat)
    requires o.policy == SyncInterval && Inv(o, s, log, 0) && AllFit(o, es) && |log| + |es| < TWO_64
    requires |log| <= n < |log| + |es|
    ensures var r := BatchWritten(o, s, es, due);
      Survives(o, r, log + es, n) <==> due || n < Last(r.segs).base
  {
    BatchStores(o, s, log, es, due);
    SurvivesIff(o, BatchWritten(o, s, es, due), log + es, 0, n);
  }

  /** The first batch of a lifetime is synced before it is acknowledged, and so is every batch that the timer ended. */
  lemma {:induction false} TimedBatchIsStored(o: Options, w: Clocked, es: seq<Entry>, start: int, now: int, later: int)
    requires o.policy == SyncInterval && Good(o, w) && Enabled(o, w, Batch(es, start, now, later))
    requires w.lastSync.None? || BatchBytes(es) < o.maxBatchBytes
    ensures Good(o, Step(o, w, Batch(es, start, now, later))) && Stored(Step(o, w, Batch(es, start, now, later)))
  {
    BatchStores(o, w.st, w.log, es, true);
    BatchGood(o, w, es, start, now, later);
  }

  lemma {:induction false} BatchTimes(o: Options, w: Clocked, es: seq<Entry>, start: int, now: int, later: int)
    requires o.policy == SyncInterval && Good(o, w) && Enabled(o, w, Batch(es, start, now, later))
    ensures var w' := Step(o, w, Batch(es, start, now, later));
      && |w'.times| == |w'.log|
      && (forall i :: 0 <= i < |w'.times| ==> w'.times[i] == if i < |w.times| then w.times[i] else now)
  {
  }

  lemma {:induction false} BatchGood(o: Options, w: Clocked, es: seq<Entry>, start: int, now: int, later: int)
    requires o.policy == SyncInterval && Good(o, w) && Enabled(o, w, Batch(es, start, now, later))
    ensures Good(o, Step(o, w, Batch(es, start, now, later)))
  {
    BatchStores(o, w.st, w.log, es, Due(o, w.lastSync, now));
    BatchTimes(o, w, es, start, now, later);
  }

  lemma {:induction false} RetainGood(o: Options, w: Clocked)
    requires Good(o, w) && Enabled(o, w, Retain)
    ensures Good(o, Step(o, w, Retain))
  {
    W.RetainKeepsInv(o, w.st, w.log, 0);
  }

  lemma {:induction false} StepGood(o: Options, w: Clocked, ev: Event)
    requires o.policy == SyncInterval && Good(o, w) && Enabled(o, w, ev)
    ensures Good(o, Step(o, w, ev))
  {
    match ev
    case Batch(es, start, now, later) => BatchGood(o, w, es, start, now, later);
    case Retain => RetainGood(o, w);
    case Wait(_) =>
  }

  /** A log just opened, whatever an earlier lifetime left. */
  ghost function Opened(st: LogState, log: seq<Entry>, clock: int): Clocked {
    Clocked(st, log, seq(|log|, _ => clock), None, clock)
  }

  /** In every run of a lifetime, what is not on stable storage after its first batch was acknowledged within one window
      after the last sync by the clock. */
  lemma {:induction false} LossWithinOneWindow(o: Options, w: Clocked, evs: seq<Event>, w': Clocked)
    requires o.policy == SyncInterval && Good(o, w) && Run(Machine(o), w, evs, w')
    ensures Good(o, w')
    ensures w'.lastSync.Some? ==> forall n :: 0 <= n < |w'.log| && !Survives(o, w'.st, w'.log, n) ==>
      w'.lastSync.value <= w'.times[n] < w'.lastSync.value + o.batchWindow
    decreases |evs|
  {
    if evs != [] {
      var m :| Machine(o)(w, evs[0], m) && Run(Machine(o), m, evs[1..], w');
      StepGood(o, w, evs[0]);
      LossWithinOneWindow(o, m, evs[1..], w');
    } else {
      SurvivorsAre(o, w'.st, w'.log, 0);
    }
  }

  lemma {:induction false} OpenedIsGood(o: Options, st: LogState, log: seq<Entry>, clock: int)
    requires Inv(o, st, log, 0)
    ensures Good(o, Opened(st, log, clock))
  {
  }

  // ---- The documented loss window ----

  /** Everything acknowledged a window ago or earlier would outlive a crash now. */
  ghost predicate WindowHolds(o: Options, w: Clocked)
    requires Open(w.st) && |w.times| == |w.log|
  {
    forall n :: 0 <= n < |w.log| && w.times[n] + o.batchWindow <= w.clock ==> Survives(o, w.st, w.log, n)
  }

  /** The documented window holds at a moment if and only if everything is on stable storage or the oldest record that
      is not is younger than the window. No timer syncs, so time alone ends it. */
  lemma {:induction false} WindowHoldsIff(o: Options, w: Clocked)
    requires Good(o, w)
    ensures WindowHolds(o, w) <==> Stored(w) || w.clock < w.times[OnDisk(w.st, w.log)] + o.batchWindow
  {
    var d := OnDisk(w.st, w.log);
    SurvivorsAre(o, w.st, w.log, 0);
    if !Stored(w) {
      assert Survives(o, w.st, w.log, d) <==> d < d;
    }
  }

  /** One record that needs no roll. */
  lemma {:induction false} OneAppended(o: Options, s: LogState, e: Entry)
    requires o.policy == SyncInterval && Open(s) && !MustRoll(o, s, e)
    ensures AppendAll(o, s, [e]) == WriteRecord(o, s, e) && BatchBytes([e]) == Size(e)
  {
    assert Init([e]) == [] && AppendAll(o, s, []) == s && BatchBytes([]) == 0;
  }

  function AfterFirst(o: Options, a: Entry): LogState {
    SyncActive(WriteRecord(o, Fresh(0), a))
  }

  lemma {:induction false} FirstStored(o: Options, a: Entry)
    requires o.policy == SyncInterval && Fits(o, a)
    ensures BatchWritten(o, Fresh(0), [a], true) == AfterFirst(o, a) && BatchBytes([a]) == Size(a)
    ensures Inv(o, AfterFirst(o, a), [a], 0) && OnDisk(AfterFirst(o, a), [a]) == 1
    ensures Last(AfterFirst(o, a).segs) == SegMeta(0, 1, HEADER_LEN + Size(a))
  {
    CreatedInv(o);
    OneAppended(o, Fresh(0), a);
    assert [] + [a] == [a];
    BatchStores(o, Fresh(0), [], [a], true);
  }

  /** The second batch leaves the first on stable storage, and only that. */
  lemma {:induction false} SecondUnsynced(o: Options, a: Entry, b: Entry)
    requires o.policy == SyncInterval && Fits(o, a) && Fits(o, b) && HEADER_LEN + Size(a) + Size(b) <= o.segmentBytes
    ensures var s := WriteRecord(o, AfterFirst(o, a), b);
      && BatchWritten(o, AfterFirst(o, a), [b], false) == s && BatchBytes([b]) == Size(b)
      && Inv(o, s, [a, b], 0) && OnDisk(s, [a, b]) == 1
  {
    FirstStored(o, a);
    OneAppended(o, AfterFirst(o, a), b);
    assert [a] + [b] == [a, b];
    WriteKeepsInv(o, AfterFirst(o, a), [a], 0, b);
    WriteStoresNothing(o, AfterFirst(o, a), [a], 0, b);
  }

  lemma {:induction false} CreatedInv(o: Options)
    ensures Inv(o, Fresh(0), [], 0)
  {
    FreshInv(o, 0, [], 0);
  }

  lemma {:induction false} OneGathered(o: Options, e: Entry, fired: bool)
    requires o.policy == SyncInterval && (fired || Size(e) >= o.maxBatchBytes)
    ensures Gathered(o, [e], fired)
  {
    assert Init([e]) == [] && BatchBytes([]) == 0;
  }

  /** One record as a batch. */
  lemma {:induction false} BatchRuns(o: Options, w: Clocked, e: Entry, start: int, now: int, w': Clocked)
    requires o.policy == SyncInterval && Open(w.st) && w.clock <= start <= now && Fits(o, e) && |w.log| + 1 < TWO_64
    requires start + o.batchWindow <= now || Size(e) >= o.maxBatchBytes
    requires var due := Due(o, w.lastSync, now);
      w' == Clocked(BatchWritten(o, w.st, [e], due), w.log + [e], w.times + [now],
        if due then Some(now) else w.lastSync, now)
    ensures Machine(o)(w, Batch([e], start, now, now), w')
  {
    OneGathered(o, e, start + o.batchWindow <= now);
    assert Enabled(o, w, Batch([e], start, now, now));
    assert seq(1, _ => now) == [now];
  }

  lemma {:induction false} FirstBatchRuns(o: Options, s: LogState, r: LogState, a: Entry, t: int)
    requires o.policy == SyncInterval && Fits(o, a) && Open(s) && r == BatchWritten(o, s, [a], true)
    ensures var at := t + o.batchWindow;
      Machine(o)(Opened(s, [], t), Batch([a], t, at, at), Clocked(r, [a], [at], Some(at), at))
  {
    var w0, at := Opened(s, [], t), t + o.batchWindow;
    assert w0.log + [a] == [a] && w0.times + [at] == [at];
    BatchRuns(o, w0, a, t, at, Clocked(r, [a], [at], Some(at), at));
  }

  lemma {:induction false} FreshBatchRuns(o: Options, a: Entry, t: int)
    requires o.policy == SyncInterval && Fits(o, a)
    ensures var at := t + o.batchWindow;
      Machine(o)(Opened(Fresh(0), [], t), Batch([a], t, at, at), Clocked(AfterFirst(o, a), [a], [at], Some(at), at))
  {
    FirstStored(o, a);
    FirstBatchRuns(o, Fresh(0), AfterFirst(o, a), a, t);
  }

  lemma {:induction false} SecondBatchRuns(o: Options, a: Entry, b: Entry, at: int)
    requires o.policy == SyncInterval && o.batchWindow > 0 && Fits(o, a) && Fits(o, b) && Size(b) >= o.maxBatchBytes
    requires HEADER_LEN + Size(a) + Size(b) <= o.segmentBytes
    ensures Machine(o)(Clocked(AfterFirst(o, a), [a], [at], Some(at), at), Batch([b], at, at, at),
                       AfterTwo(o, a, b, at))
  {
    var w1 := Clocked(AfterFirst(o, a), [a], [at], Some(at), at);
    SecondUnsynced(o, a, b);
    assert w1.log + [b] == [a, b] && w1.times + [at] == [at, at];
    BatchRuns(o, w1, b, at, at, AfterTwo(o, a, b, at));
  }

  lemma {:induction false} WaitRuns(o: Options, w: Clocked, until: int)
    requires w.clock <= until
    ensures Machine(o)(w, Wait(until), w.(clock := until))
  {
    assert Enabled(o, w, Wait(until)) && Step(o, w, Wait(until)) == w.(clock := until);
  }

  /** Some power loss leaves a log that opens with `kept` only. */
  ghost predicate LosesTail(o: Options, w: Clocked, kept: seq<Entry>) {
    Open(w.st) && exists out :: Possible(Last(w.st.dir), out) && RecoversTo(o, Crash(w.st.dir, out), kept, 0)
  }

  lemma {:induction false} TailLost(o: Options, w: Clocked)
    requires Inv(o, w.st, w.log, 0)
    ensures LosesTail(o, w, w.log[..OnDisk(w.st, w.log)])
  {
    WorstLoses(o, w.st, w.log);
    var out := Worst(Last(w.st.dir));
    assert RecoversTo(o, Crash(w.st.dir, out), w.log[..OnDisk(w.st, w.log)], 0);
  }

  lemma {:induction false} SecondLost(o: Options, w: Clocked, a: Entry, b: Entry)
    requires o.policy == SyncInterval && Fits(o, a) && Fits(o, b) && HEADER_LEN + Size(a) + Size(b) <= o.segmentBytes
    requires w.st == WriteRecord(o, AfterFirst(o, a), b) && w.log == [a, b]
    ensures Open(w.st) && Survives(o, w.st, w.log, 0) && !Survives(o, w.st, w.log, 1) && LosesTail(o, w, [a])
  {
    SecondUnsynced(o, a, b);
    SurvivesIff(o, w.st, w.log, 0, 0);
    SurvivesIff(o, w.st, w.log, 0, 1);
    assert [a, b][..1] == [a];
    TailLost(o, w);
  }

  function AfterTwo(o: Options, a: Entry, b: Entry, at: int): Clocked {
    Clocked(WriteRecord(o, AfterFirst(o, a), b), [a, b], [at, at], Some(at), at)
  }

  /** Two batches, the second of which fills up at once; then time passes. */
  lemma {:induction false} TwoBatches(o: Options, a: Entry, b: Entry, t: int, until: int) returns (evs: seq<Event>)
    requires o.policy == SyncInterval && o.batchWindow > 0 && Fits(o, a) && Fits(o, b) && Size(b) >= o.maxBatchBytes
    requires HEADER_LEN + Size(a) + Size(b) <= o.segmentBytes && t + o.batchWindow <= until
    ensures Run(Machine(o), Opened(Fresh(0), [], t), evs, AfterTwo(o, a, b, t + o.batchWindow).(clock := until))
  {
    var at := t + o.batchWindow;
    var w1, w2 := Clocked(AfterFirst(o, a), [a], [at], Some(at), at), AfterTwo(o, a, b, at);
    FreshBatchRuns(o, a, t);
    SecondBatchRuns(o, a, b, at);
    WaitRuns(o, w2, until);
    evs := [Batch([a], t, at, at), Batch([b], at, at, at), Wait(until)];
    Three(Machine(o), Opened(Fresh(0), [], t), evs[0], w1, evs[1], w2, evs[2], w2.(clock := until));
  }

  /** A batch that fills up within a window of the last sync is acknowledged unsynced. It stays so however long nothing
      more is appended, and a power loss then takes it: the log opens without it. */
  lemma {:induction false} FullBatchIsLost(o: Options, a: Entry, b: Entry, t: int, until: int)
    returns (evs: seq<Event>, w: Clocked)
    requires o.policy == SyncInterval && o.batchWindow > 0 && Fits(o, a) && Fits(o, b) && Size(b) >= o.maxBatchBytes
    requires HEADER_LEN + Size(a) + Size(b) <= o.segmentBytes && t + o.batchWindow <= until
    ensures Run(Machine(o), Opened(Fresh(0), [], t), evs, w) && w.log == [a, b] && w.clock == until
    ensures w.times == [t + o.batchWindow, t + o.batchWindow]
    ensures Open(w.st) && Survives(o, w.st, w.log, 0) && !Survives(o, w.st, w.log, 1) && LosesTail(o, w, [a])
  {
    evs := TwoBatches(o, a, b, t, until);
    w := AfterTwo(o, a, b, t + o.batchWindow).(clock := until);
    SecondLost(o, w, a, b);
  }
}
