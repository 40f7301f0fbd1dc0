/** Refresh catches up (internal/wal/wal.go): once the owner is still, an attached process that goes on refreshing sees
    every record completely written, after the pass under way and one more. */
module CatchUp {
  import opened Segment
  import opened Wal
  import opened Runs
  import opened Tail
  import T = TailRuns

  /** n steps of Refresh with the directory as it is. */
  function Ticks(listing: seq<nat>, probe: Prober, r: ReadOnlyLog, n: nat): ReadOnlyLog
    decreases n
  {
    if n == 0 then r else Ticks(listing, probe, RefreshStep(listing, probe, r), n - 1)
  }

  lemma {:induction false} TicksAdd(listing: seq<nat>, probe: Prober, r: ReadOnlyLog, m: nat, n: nat)
    ensures Ticks(listing, probe, r, m + n) == Ticks(listing, probe, Ticks(listing, probe, r, m), n)
    decreases m
  {
    if m > 0 {
      TicksAdd(listing, probe, RefreshStep(listing, probe, r), m - 1, n);
    }
  }

  // ---- The pass under way ends ----

  /** How many more steps a pass takes at most. */
  function Left(r: ReadOnlyLog): nat {
    match r.pc
    case Idle => 0
    case FirstLoad(bases, i) => if i < |bases| then |bases| - i + 1 else 1
    case ProbeLast(bases) => |bases| + 2
    case Follow(bases, i, _) => if i < |bases| then |bases| - i + 1 else 1
    case Failed => 0
  }

  ghost predicate Sound(starts: seq<nat>, probe: Prober, r: ReadOnlyLog, vis: nat, ready: bool) {
    DiskOk(starts, vis, ready) && ProbeOk(probe, starts, vis, ready) && ReaderInv(r, starts, vis, ready)
  }

  lemma {:induction false} TickShortens(starts: seq<nat>, probe: Prober, r: ReadOnlyLog)
    requires !r.pc.Idle? && !r.pc.Failed?
    ensures Left(RefreshStep(starts, probe, r)) < Left(r)
  {
  }

  lemma {:induction false} TickSound(starts: seq<nat>, probe: Prober, r: ReadOnlyLog, vis: nat, ready: bool)
    requires Sound(starts, probe, r, vis, ready)
    ensures Sound(starts, probe, RefreshStep(starts, probe, r), vis, ready)
    ensures !r.pc.Idle? ==> Left(RefreshStep(starts, probe, r)) < Left(r)
  {
    RefreshSound(starts, probe, r, vis, ready);
    if !r.pc.Idle? {
      TickShortens(starts, probe, r);
    }
  }

  /** Every pass ends. */
  lemma {:induction false} PassEnds(starts: seq<nat>, probe: Prober, r: ReadOnlyLog, vis: nat, ready: bool)
    returns (n: nat)
    requires Sound(starts, probe, r, vis, ready)
    ensures n <= Left(r) && Ticks(starts, probe, r, n).pc.Idle?
    ensures Sound(starts, probe, Ticks(starts, probe, r, n), vis, ready)
    decreases Left(r)
  {
    if r.pc.Idle? {
      n := 0;
    } else {
      TickSound(starts, probe, r, vis, ready);
      n := PassEnds(starts, probe, RefreshStep(starts, probe, r), vis, ready);
      n := n + 1;
    }
  }

  // ---- A whole pass over the present listing ----

  /** The last known segment is start number t, and known as it is shown. */
  ghost predicate UpToDate(segs: seq<SegMeta>, starts: seq<nat>, vis: nat, ready: bool, t: nat) {
    && segs != [] && t < |starts| && Last(segs).base == starts[t]
    && Last(segs).End() == (if t + 1 < |starts| then starts[t + 1] else vis)
    && (t + 1 == |starts| ==> ready)
  }

  /** Inside such a pass; at its end nothing visible is missing. */
  ghost predicate InPass(r: ReadOnlyLog, starts: seq<nat>, vis: nat, ready: bool) {
    match r.pc
    case Idle => r.next == vis
    case FirstLoad(bases, i) =>
      bases == starts && i <= |starts|
        && (if i == 0 then r.segs == [] && r.next == 0 else UpToDate(r.segs, starts, vis, ready, i - 1))
    case ProbeLast(bases) => bases == starts && r.segs != []
    case Follow(bases, i, want) =>
      && bases == starts && i <= |starts| && r.segs != [] && want == Last(r.segs).End()
      && exists t :: 0 <= t < |starts| && i <= t + 1 && UpToDate(r.segs, starts, vis, ready, t)
    case Failed => false
  }

  lemma {:induction false} PassStarts(starts: seq<nat>, probe: Prober, r: ReadOnlyLog, vis: nat, ready: bool)
    requires Sound(starts, probe, r, vis, ready) && r.pc.Idle?
    ensures InPass(RefreshStep(starts, probe, r), starts, vis, ready)
  {
    if starts != [] && r.segs != [] {
      var t: nat :| AtStart(r.segs, starts, t, ready);
    }
  }

  /** The last start's header is not out: the segment before it ends where everything visible does. */
  lemma {:induction false} FirstLoadPass(starts: seq<nat>, probe: Prober, r: ReadOnlyLog, vis: nat, ready: bool)
    requires Sound(starts, probe, r, vis, ready) && r.pc.FirstLoad? && InPass(r, starts, vis, ready)
    ensures InPass(RefreshStep(starts, probe, r), starts, vis, ready)
  {
    var i := r.pc.i;
    if i < |starts| {
      ProbeStart(probe, starts, vis, ready, i);
    }
  }

  lemma {:induction false} ProbeLastPass(starts: seq<nat>, probe: Prober, r: ReadOnlyLog, vis: nat, ready: bool)
    requires Sound(starts, probe, r, vis, ready) && r.pc.ProbeLast? && InPass(r, starts, vis, ready)
    ensures InPass(RefreshStep(starts, probe, r), starts, vis, ready)
  {
    var t: nat :| AtStart(r.segs, starts, t, ready);
    ProbeStart(probe, starts, vis, ready, t);
    assert UpToDate(RefreshStep(starts, probe, r).segs, starts, vis, ready, t);
  }

  lemma {:induction false} FollowPass(starts: seq<nat>, probe: Prober, r: ReadOnlyLog, vis: nat, ready: bool)
    requires Sound(starts, probe, r, vis, ready) && r.pc.Follow? && InPass(r, starts, vis, ready)
    ensures InPass(RefreshStep(starts, probe, r), starts, vis, ready)
  {
    var i := r.pc.i;
    var t :| 0 <= t < |starts| && i <= t + 1 && UpToDate(r.segs, starts, vis, ready, t);
    if i < |starts| {
      ProbeStart(probe, starts, vis, ready, i);
      if i == t + 1 || starts[i] == r.pc.want {
        var p := probe(starts[i]);
        if p.Good? {
          assert UpToDate(r.segs + [p.meta], starts, vis, ready, i);
        }
      } else if starts[i] < r.pc.want {
        assert UpToDate(RefreshStep(starts, probe, r).segs, starts, vis, ready, t);
      }
    }
  }

  lemma {:induction false} PassStep(starts: seq<nat>, probe: Prober, r: ReadOnlyLog, vis: nat, ready: bool)
    requires Sound(starts, probe, r, vis, ready) && InPass(r, starts, vis, ready) && !r.pc.Idle?
    ensures InPass(RefreshStep(starts, probe, r), starts, vis, ready)
  {
    match r.pc
    case FirstLoad(_, _) => FirstLoadPass(starts, probe, r, vis, ready);
    case ProbeLast(_) => ProbeLastPass(starts, probe, r, vis, ready);
    case Follow(_, _, _) => FollowPass(starts, probe, r, vis, ready);
  }

  lemma {:induction false} PassCatchesUp(starts: seq<nat>, probe: Prober, r: ReadOnlyLog, vis: nat, ready: bool)
    returns (n: nat)
    requires Sound(starts, probe, r, vis, ready) && InPass(r, starts, vis, ready)
    ensures n <= Left(r) && Ticks(starts, probe, r, n).pc.Idle? && Ticks(starts, probe, r, n).next == vis
    decreases Left(r)
  {
    if r.pc.Idle? {
      n := 0;
    } else {
      TickSound(starts, probe, r, vis, ready);
      PassStep(starts, probe, r, vis, ready);
      n := PassCatchesUp(starts, probe, RefreshStep(starts, probe, r), vis, ready);
      n := n + 1;
    }
  }

  // ---- The attached process ----

  function Tick(o: Options, w: T.World, n: nat): T.World {
    w.(reader := Ticks(T.Starts(w.owner.segs), T.DirProber(o, w.owner.dir), w.reader, n))
  }

  lemma {:induction false} TicksRun(o: Options, w: T.World, n: nat) returns (evs: seq<T.Event>)
    ensures Run(T.Machine(o), w, evs, Tick(o, w, n)) && |evs| == n && forall ev :: ev in evs ==> ev.Tick?
    decreases n
  {
    if n == 0 {
      evs := [];
    } else {
      var starts, probe := T.Starts(w.owner.segs), T.DirProber(o, w.owner.dir);
      var m := w.(reader := RefreshStep(starts, probe, w.reader));
      evs := TicksRun(o, m, n - 1);
      assert T.Step(o, w, T.Tick, m) && T.Machine(o)(w, T.Tick, m);
      assert ([T.Tick] + evs)[1..] == evs;
      evs := [T.Tick] + evs;
    }
  }

  lemma {:induction false} PassLength(starts: seq<nat>, probe: Prober, r: ReadOnlyLog)
    requires r.pc.Idle?
    ensures Left(RefreshStep(starts, probe, r)) <= |starts| + 2
  {
  }

  /** A pass begun on an idle view. */
  lemma {:induction false} WholePass(starts: seq<nat>, probe: Prober, r: ReadOnlyLog, vis: nat, ready: bool)
    returns (n: nat)
    requires Sound(starts, probe, r, vis, ready) && r.pc.Idle?
    ensures n <= |starts| + 3 && Ticks(starts, probe, r, n).pc.Idle? && Ticks(starts, probe, r, n).next == vis
  {
    PassStarts(starts, probe, r, vis, ready);
    PassLength(starts, probe, r);
    TickSound(starts, probe, r, vis, ready);
    n := PassCatchesUp(starts, probe, RefreshStep(starts, probe, r), vis, ready);
    n := n + 1;
  }

  /** The pass under way, and one more. */
  lemma {:induction false} TwoPasses(starts: seq<nat>, probe: Prober, r: ReadOnlyLog, vis: nat, ready: bool)
    returns (n: nat)
    requires Sound(starts, probe, r, vis, ready)
    ensures n <= Left(r) + |starts| + 3
    ensures Ticks(starts, probe, r, n).pc.Idle? && Ticks(starts, probe, r, n).next == vis
  {
    var a := PassEnds(starts, probe, r, vis, ready);
    var b := WholePass(starts, probe, Ticks(starts, probe, r, a), vis, ready);
    TicksAdd(starts, probe, r, a, b);
    n := a + b;
  }

  /** From every state of every run, if the owner is still, the pass under way and one more bring the view to everything
      that is completely written: the next offset is the number of visible records, and nothing is under way. */
  lemma {:induction false} RefreshCatchesUp(o: Options, w: T.World) returns (n: nat)
    requires T.Good(o, w)
    ensures n <= Left(w.reader) + |w.owner.segs| + 3
    ensures Tick(o, w, n).reader.pc.Idle? && Tick(o, w, n).reader.next == T.Visible(w.owner)
  {
    T.OwnerShows(o, w.owner);
    n := TwoPasses(T.Starts(w.owner.segs), T.DirProber(o, w.owner.dir), w.reader, T.Visible(w.owner), T.Ready(w.owner));
  }
}
