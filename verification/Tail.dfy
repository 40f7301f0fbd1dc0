/** Read-only tailing (Refresh and readSegmentProbe in internal/wal/wal.go): a second process follows the
    files while the owner appends and rolls. The listing and every probe are separate steps, and bytes of a
    write in flight become visible in any portions. */
module Tail {
  import opened Bytes
  import opened Segment
  import opened Wal
  import opened Runs

  // ---- The reader's side: Refresh as a program with a program counter ----

  /** readSegmentProbe: TornHeader stands for errSegmentNotReady. */
  type Prober = nat -> Probe

  datatype Pc =
    | Idle
    | FirstLoad(bases: seq<nat>, i: nat)             // no segment known yet: probe each listed base in turn
    | ProbeLast(bases: seq<nat>)                     // re-scan the last known segment
    | Follow(bases: seq<nat>, i: nat, want: nat)   // look for the segment that starts at `want`
    | Failed                                         // an error was returned

  datatype ReadOnlyLog = ReadOnlyLog(segs: seq<SegMeta>, next: nat, pc: Pc)

  function Finish(r: ReadOnlyLog): ReadOnlyLog {
    ReadOnlyLog(r.segs, if r.segs == [] then r.next else Last(r.segs).End(), Idle)
  }

  /** One step of Refresh; `listing` is what the directory shows now, `probe` what its files show now. */
  function RefreshStep(listing: seq<nat>, probe: Prober, r: ReadOnlyLog): ReadOnlyLog {
    match r.pc
    case Idle =>
      if listing == [] then r
      else if r.segs == [] then r.(pc := FirstLoad(listing, 0))
      else r.(pc := ProbeLast(listing))
    case FirstLoad(bases, i) =>
      if i >= |bases| then Finish(r)
      else
        var p := probe(bases[i]);
        if p.TornHeader? then Finish(r)
        else if p.WrongBase? then r.(pc := Failed)
        else r.(segs := r.segs + [p.meta], pc := FirstLoad(bases, i + 1))
    case ProbeLast(bases) =>
      if r.segs == [] then r.(pc := Failed)
      else
        var p := probe(Last(r.segs).base);
        if p.WrongBase? then r.(pc := Failed)
        else
          var segs := if p.TornHeader? then r.segs else Init(r.segs) + [p.meta];
          r.(segs := segs, pc := Follow(bases, 0, Last(segs).End()))
    case Follow(bases, i, want) =>
      if i >= |bases| then Finish(r)
      else if bases[i] < want then r.(pc := Follow(bases, i + 1, want))
      else if bases[i] != want then r.(pc := Failed)
      else
        var p := probe(bases[i]);
        if p.TornHeader? then Finish(r)
        else if p.WrongBase? then r.(pc := Failed)
        else r.(segs := r.segs + [p.meta], pc := Follow(bases, i + 1, p.meta.End()))
    case Failed => r
  }

  // ---- What the reader relies on: segment starts, visible records, and a visible last header ----

  /** `starts` are the segment bases, `vis` the number of records completely visible. */
  ghost predicate DiskOk(starts: seq<nat>, vis: nat, ready: bool) {
    && (starts != [] ==> starts[0] == 0 && Last(starts) <= vis)
    && (starts == [] ==> vis == 0)
    && (!ready && starts != [] ==> vis == Last(starts))
    && (forall i, j :: 0 <= i < j < |starts| ==> starts[i] < starts[j])
  }

  predicate Shows(p: Probe, base: nat, end: nat) {
    p.Good? && p.meta.base == base && p.meta.End() == end
  }

  /** A sealed segment shows all its records, the last one those visible so far, a missing file nothing. */
  ghost predicate ProbeOk(probe: Prober, starts: seq<nat>, vis: nat, ready: bool) {
    && (forall i, j :: 0 <= i < j < |starts| && j == i + 1 ==> Shows(probe(starts[i]), starts[i], starts[j]))
    && (starts != [] ==>
          if ready then Shows(probe(Last(starts)), Last(starts), vis) else probe(Last(starts)).TornHeader?)
    && (forall b {:trigger probe(b)} :: b !in starts ==> probe(b).TornHeader?)
  }

  /** The known segments are contiguous from 0 and stay within what is visible. */
  ghost predicate ViewOk(segs: seq<SegMeta>, vis: nat) {
    && (segs != [] ==> segs[0].base == 0 && Last(segs).End() <= vis)
    && Handoff(segs)
  }

  /** The last known segment is start number t, and complete when another start follows it. */
  ghost predicate AtStart(segs: seq<SegMeta>, starts: seq<nat>, t: nat, ready: bool) {
    && segs != [] && t < |starts| && Last(segs).base == starts[t]
    && (t + 1 < |starts| ==> Last(segs).End() <= starts[t + 1])
    && (t + 1 == |starts| ==> ready)
  }

  /** A listing taken earlier: the starts there were then, all of which are still there, except that a last one whose
      header never got out may have been removed by the owner's restart. */
  ghost predicate Listed(bases: seq<nat>, starts: seq<nat>, vis: nat, ready: bool) {
    bases <= starts || Removed(bases, starts, vis, ready)
  }

  ghost predicate Removed(bases: seq<nat>, starts: seq<nat>, vis: nat, ready: bool) {
    && bases != [] && Init(bases) <= starts && Last(bases) !in starts && Last(bases) <= vis
    && (|bases| <= |starts| ==> Last(bases) < starts[|bases| - 1])
    && (|bases| > |starts| && starts != [] ==> ready)
    && (|bases| > 1 ==> bases[|bases| - 2] < Last(bases))
  }

  ghost predicate PcOk(r: ReadOnlyLog, starts: seq<nat>, vis: nat, ready: bool) {
    match r.pc
    case Idle => true
    case FirstLoad(bases, i) =>
      && Listed(bases, starts, vis, ready) && bases != [] && i <= |bases| && |r.segs| == i
      && (0 < i ==> Last(r.segs).base == bases[i - 1])
      && (0 < i < |bases| ==> bases[i] <= Last(r.segs).End())
    case ProbeLast(bases) => Listed(bases, starts, vis, ready) && r.segs != [] && Last(r.segs).base in bases
    case Follow(bases, i, want) =>
      && Listed(bases, starts, vis, ready) && r.segs != [] && want == Last(r.segs).End()
      && exists t :: 0 <= t < |bases| && FollowOk(r.segs, bases, i, t)
    case Failed => false
  }

  ghost predicate FollowOk(segs: seq<SegMeta>, bases: seq<nat>, i: nat, t: nat)
    requires segs != [] && t < |bases|
  {
    && Last(segs).base == bases[t]
    && i <= |bases| && (i <= t + 1 || i == |bases|)
    && (t + 1 < |bases| ==> bases[t + 1] <= Last(segs).End())
  }

  ghost predicate ReaderInv(r: ReadOnlyLog, starts: seq<nat>, vis: nat, ready: bool) {
    && ViewOk(r.segs, vis)
    && (r.segs == [] ==> r.next == 0)
    && (r.segs != [] ==> r.next <= Last(r.segs).End() && exists t: nat :: AtStart(r.segs, starts, t, ready))
    && PcOk(r, starts, vis, ready)
  }

  lemma {:induction false} ViewAppend(segs: seq<SegMeta>, m: SegMeta, vis: nat)
    requires ViewOk(segs, vis) && m.End() <= vis
    requires if segs == [] then m.base == 0 else m.base == Last(segs).End()
    ensures ViewOk(segs + [m], vis)
  {
  }

  lemma {:induction false} ViewReplace(segs: seq<SegMeta>, m: SegMeta, vis: nat)
    requires segs != [] && ViewOk(segs, vis) && m.base == Last(segs).base && m.End() <= vis
    ensures ViewOk(Init(segs) + [m], vis)
  {
  }

  /** What a probe of start t shows. */
  lemma {:induction false} ProbeStart(probe: Prober, starts: seq<nat>, vis: nat, ready: bool, t: nat)
    requires DiskOk(starts, vis, ready) && ProbeOk(probe, starts, vis, ready) && t < |starts|
    ensures t + 1 < |starts| ==> Shows(probe(starts[t]), starts[t], starts[t + 1]) && starts[t + 1] <= vis
    ensures t + 1 == |starts| && ready ==> Shows(probe(starts[t]), starts[t], vis)
    ensures t + 1 == |starts| && !ready ==> probe(starts[t]).TornHeader?
  {
  }

  lemma {:induction false} IdleStep(listing: seq<nat>, probe: Prober, r: ReadOnlyLog, vis: nat, ready: bool)
    requires DiskOk(listing, vis, ready) && ReaderInv(r, listing, vis, ready) && r.pc.Idle?
    ensures ReaderInv(RefreshStep(listing, probe, r), listing, vis, ready)
  {
  }

  /** Where a listed base is among the starts. */
  lemma {:induction false} ListedAt(bases: seq<nat>, starts: seq<nat>, vis: nat, ready: bool, i: nat)
    requires DiskOk(starts, vis, ready) && Listed(bases, starts, vis, ready) && i < |bases|
    ensures bases[i] in starts ==> i < |starts| && bases[i] == starts[i] && bases[..i + 1] <= starts
    ensures bases[i] !in starts ==> i == |bases| - 1
    ensures i > 0 ==> bases[i - 1] in starts && bases[i - 1] < bases[i]
  {
    if !(bases <= starts) && i < |bases| - 1 {
      assert bases[i] == Init(bases)[i];
    }
  }

  lemma {:induction false} FirstLoadStep(starts: seq<nat>, probe: Prober, r: ReadOnlyLog, vis: nat, ready: bool)
    requires DiskOk(starts, vis, ready) && ProbeOk(probe, starts, vis, ready)
    requires ReaderInv(r, starts, vis, ready) && r.pc.FirstLoad?
    ensures ReaderInv(RefreshStep(starts, probe, r), starts, vis, ready)
  {
    var bases, i := r.pc.bases, r.pc.i;
    if i < |bases| {
      ListedAt(bases, starts, vis, ready, i);
      if bases[i] in starts {
        ProbeStart(probe, starts, vis, ready, i);
        if probe(bases[i]).Good? {
          FirstLoadMore(starts, r, vis, ready, i, probe(bases[i]).meta);
        }
      }
    }
  }

  lemma {:induction false} FirstLoadMore(starts: seq<nat>, r: ReadOnlyLog, vis: nat, ready: bool, i: nat, m: SegMeta)
    requires DiskOk(starts, vis, ready) && ReaderInv(r, starts, vis, ready) && r.pc.FirstLoad?
      && i == r.pc.i < |r.pc.bases|
    requires i < |starts| && r.pc.bases[i] == starts[i] == m.base
    requires if i + 1 < |starts| then m.End() == starts[i + 1] <= vis else ready && m.End() == vis
    ensures ReaderInv(r.(segs := r.segs + [m], pc := FirstLoad(r.pc.bases, i + 1)), starts, vis, ready)
  {
    var bases := r.pc.bases;
    if 0 < i {
      ListedAt(bases, starts, vis, ready, i - 1);
      StartOfLast(r.segs, starts, vis, ready, i - 1);
    }
    ViewAppend(r.segs, m, vis);
    assert AtStart(r.segs + [m], starts, i, ready);
    NextListed(bases, starts, vis, ready, i, m.End());
  }

  /** The segment at start t ends within it. */
  lemma {:induction false} StartOfLast(segs: seq<SegMeta>, starts: seq<nat>, vis: nat, ready: bool, t: nat)
    requires DiskOk(starts, vis, ready) && segs != [] && t < |starts| && Last(segs).base == starts[t]
    requires exists u: nat :: AtStart(segs, starts, u, ready)
    ensures AtStart(segs, starts, t, ready)
  {
    var u: nat :| AtStart(segs, starts, u, ready);
    assert starts[u] == starts[t];
  }

  /** What a probe of listed start i shows reaches the base listed next. */
  lemma {:induction false} NextListed(bases: seq<nat>, starts: seq<nat>, vis: nat, ready: bool, i: nat, end: nat)
    requires DiskOk(starts, vis, ready) && Listed(bases, starts, vis, ready) && i < |bases| && i < |starts|
      && bases[i] == starts[i]
    requires if i + 1 < |starts| then end == starts[i + 1] else ready && end == vis
    ensures i + 1 < |bases| ==> bases[i + 1] <= end
  {
    if i + 1 < |bases| {
      ListedAt(bases, starts, vis, ready, i + 1);
    }
  }

  lemma {:induction false} ProbeLastStep(starts: seq<nat>, probe: Prober, r: ReadOnlyLog, vis: nat, ready: bool)
    requires DiskOk(starts, vis, ready) && ProbeOk(probe, starts, vis, ready)
    requires ReaderInv(r, starts, vis, ready) && r.pc.ProbeLast?
    ensures ReaderInv(RefreshStep(starts, probe, r), starts, vis, ready)
    ensures Last(r.segs).End() <= Last(RefreshStep(starts, probe, r).segs).End()
  {
    var bases := r.pc.bases;
    var t: nat :| AtStart(r.segs, starts, t, ready);
    var u :| 0 <= u < |bases| && bases[u] == Last(r.segs).base;
    ListedAt(bases, starts, vis, ready, u);
    assert u == t;
    ProbeStart(probe, starts, vis, ready, t);
    var p := probe(starts[t]);
    assert p.Good?;
    var segs := Init(r.segs) + [p.meta];
    ViewReplace(r.segs, p.meta, vis);
    assert AtStart(segs, starts, t, ready);
    NextListed(bases, starts, vis, ready, t, p.meta.End());
    assert FollowOk(segs, bases, 0, t);
  }

  lemma {:induction false} FollowStep(starts: seq<nat>, probe: Prober, r: ReadOnlyLog, vis: nat, ready: bool)
    requires DiskOk(starts, vis, ready) && ProbeOk(probe, starts, vis, ready)
    requires ReaderInv(r, starts, vis, ready) && r.pc.Follow?
    ensures ReaderInv(RefreshStep(starts, probe, r), starts, vis, ready)
  {
    var bases, i := r.pc.bases, r.pc.i;
    var t :| 0 <= t < |bases| && FollowOk(r.segs, bases, i, t);
    if i < |bases| {
      ListedAt(bases, starts, vis, ready, i);
      FollowWhere(r.segs, bases, starts, vis, ready, i, t);
      if bases[i] < r.pc.want {
        assert FollowOk(r.segs, bases, i + 1, t);
      } else {
        assert bases[i] == r.pc.want;
        FollowProbe(starts, probe, r, vis, ready, i);
      }
    }
  }

  /** Bases up to that of the last known segment are skipped, and so is the next one if the segment has grown past
      it. */
  lemma {:induction false} FollowWhere(segs: seq<SegMeta>, bases: seq<nat>, starts: seq<nat>, vis: nat, ready: bool,
                                       i: nat, t: nat)
    requires DiskOk(starts, vis, ready) && Listed(bases, starts, vis, ready) && segs != []
    requires t < |bases| && FollowOk(segs, bases, i, t) && i < |bases|
    requires exists u: nat :: AtStart(segs, starts, u, ready)
    ensures bases[i] <= Last(segs).End()
    ensures bases[i] < Last(segs).End() ==> FollowOk(segs, bases, i + 1, t)
  {
    ListedAt(bases, starts, vis, ready, t);
    if i < t {
      Ascends(bases, starts, vis, ready, i, t);
    } else if i == t + 1 {
      ListedAt(bases, starts, vis, ready, i);
      if bases[i] in starts {
        StartOfLast(segs, starts, vis, ready, t);
      }
    }
  }

  lemma {:induction false} Ascends(bases: seq<nat>, starts: seq<nat>, vis: nat, ready: bool, i: nat, t: nat)
    requires DiskOk(starts, vis, ready) && Listed(bases, starts, vis, ready) && i < t < |bases|
    ensures bases[i] < bases[t]
    decreases t
  {
    ListedAt(bases, starts, vis, ready, t);
    if i < t - 1 {
      Ascends(bases, starts, vis, ready, i, t - 1);
    }
  }

  /** The next segment starts where the last known one ends. */
  lemma {:induction false} FollowProbe(starts: seq<nat>, probe: Prober, r: ReadOnlyLog, vis: nat, ready: bool, i: nat)
    requires DiskOk(starts, vis, ready) && ProbeOk(probe, starts, vis, ready)
    requires ReaderInv(r, starts, vis, ready) && r.pc.Follow? && i == r.pc.i < |r.pc.bases|
      && r.pc.bases[i] == r.pc.want
    ensures ReaderInv(RefreshStep(starts, probe, r), starts, vis, ready)
  {
    var bases := r.pc.bases;
    ListedAt(bases, starts, vis, ready, i);
    if bases[i] in starts {
      ProbeStart(probe, starts, vis, ready, i);
      var p := probe(bases[i]);
      if p.Good? {
        ViewAppend(r.segs, p.meta, vis);
        assert AtStart(r.segs + [p.meta], starts, i, ready);
        NextListed(bases, starts, vis, ready, i, p.meta.End());
        assert FollowOk(r.segs + [p.meta], bases, i + 1, i);
      }
    }
  }

  /** Every step of Refresh keeps the view contiguous and within the visible records, never fails, and never
      moves the next offset back. */
  lemma {:induction false} RefreshSound(starts: seq<nat>, probe: Prober, r: ReadOnlyLog, vis: nat, ready: bool)
    requires DiskOk(starts, vis, ready) && ProbeOk(probe, starts, vis, ready) && ReaderInv(r, starts, vis, ready)
    ensures var r' := RefreshStep(starts, probe, r);
      ReaderInv(r', starts, vis, ready) && r.next <= r'.next <= vis
  {
    match r.pc
    case Idle => IdleStep(starts, probe, r, vis, ready);
    case FirstLoad(_, _) => FirstLoadStep(starts, probe, r, vis, ready);
    case ProbeLast(_) => ProbeLastStep(starts, probe, r, vis, ready);
    case Follow(_, _, _) => FollowStep(starts, probe, r, vis, ready);
    case Failed =>
  }

  /** What the owner does to its files: more becomes visible, a segment starts past it, or a restart removes a last one
      whose header never got out. */
  ghost predicate Grown(starts: seq<nat>, vis: nat, ready: bool, starts': seq<nat>, vis': nat, ready': bool) {
    || (starts' == starts && vis <= vis' && (ready ==> ready'))
    || (vis <= vis' && exists b {:trigger starts + [b]} :: vis <= b && starts' == starts + [b])
    || Dropped(starts, vis, ready, starts', vis', ready')
  }

  ghost predicate Dropped(starts: seq<nat>, vis: nat, ready: bool, starts': seq<nat>, vis': nat, ready': bool) {
    starts != [] && !ready && starts' == Init(starts) && vis' == vis && (starts' != [] ==> ready')
  }

  lemma {:induction false} GrowthKeepsListed(bases: seq<nat>, starts: seq<nat>, vis: nat, ready: bool,
                                             starts': seq<nat>, vis': nat, ready': bool)
    requires DiskOk(starts, vis, ready) && DiskOk(starts', vis', ready')
      && Grown(starts, vis, ready, starts', vis', ready')
    requires Listed(bases, starts, vis, ready)
    ensures Listed(bases, starts', vis', ready')
  {
    if !(starts <= starts') && bases == starts {
      assert Removed(bases, starts', vis', ready');
    } else if starts < starts' && !(bases <= starts) {
      GrowthRemoved(bases, starts, vis, ready, starts', vis', ready');
    }
  }

  lemma {:induction false} GrowthRemoved(bases: seq<nat>, starts: seq<nat>, vis: nat, ready: bool, starts': seq<nat>,
                                         vis': nat, ready': bool)
    requires DiskOk(starts, vis, ready) && DiskOk(starts', vis', ready') && vis <= vis'
    requires starts' != [] && starts' == starts + [Last(starts')] && vis <= Last(starts')
    requires Removed(bases, starts, vis, ready)
    ensures Listed(bases, starts', vis', ready')
  {
    if |bases| == |starts| + 1 && Last(bases) == Last(starts') {
      assert bases == Init(bases) + [Last(bases)];
      assert bases <= starts';
    } else {
      assert Removed(bases, starts', vis', ready');
    }
  }

  /** The reader's knowledge stays right whatever the owner does. */
  lemma {:induction false} GrowthKeepsReader(r: ReadOnlyLog, starts: seq<nat>, vis: nat, ready: bool, starts': seq<nat>,
                                             vis': nat, ready': bool)
    requires DiskOk(starts, vis, ready) && DiskOk(starts', vis', ready') && ReaderInv(r, starts, vis, ready)
    requires Grown(starts, vis, ready, starts', vis', ready')
    ensures ReaderInv(r, starts', vis', ready')
  {
    if r.segs != [] {
      var t: nat :| AtStart(r.segs, starts, t, ready);
      assert AtStart(r.segs, starts', t, ready');
    }
    match r.pc
    case FirstLoad(bases, _) => GrowthKeepsListed(bases, starts, vis, ready, starts', vis', ready');
    case ProbeLast(bases) => GrowthKeepsListed(bases, starts, vis, ready, starts', vis', ready');
    case Follow(bases, _, _) => GrowthKeepsListed(bases, starts, vis, ready, starts', vis', ready');
    case _ =>
  }

  // ---- Each known segment is one of the owner's ----

  /** It starts where one of the owner's segments starts, whose header is out, and ends within it. */
  ghost predicate Inside(m: SegMeta, starts: seq<nat>, t: nat, vis: nat, ready: bool) {
    && t < |starts| && m.base == starts[t]
    && (if t + 1 < |starts| then m.End() <= starts[t + 1] else ready && m.End() <= vis)
  }

  ghost predicate Owned(m: SegMeta, starts: seq<nat>, vis: nat, ready: bool) {
    exists t: nat :: Inside(m, starts, t, vis, ready)
  }

  ghost predicate KnownOk(segs: seq<SegMeta>, starts: seq<nat>, vis: nat, ready: bool) {
    forall i :: 0 <= i < |segs| ==> Owned(segs[i], starts, vis, ready)
  }

  lemma {:induction false} ProbedIsOwned(probe: Prober, starts: seq<nat>, vis: nat, ready: bool, t: nat)
    requires DiskOk(starts, vis, ready) && ProbeOk(probe, starts, vis, ready) && t < |starts| && probe(starts[t]).Good?
    ensures Owned(probe(starts[t]).meta, starts, vis, ready)
  {
    ProbeStart(probe, starts, vis, ready, t);
    assert Inside(probe(starts[t]).meta, starts, t, vis, ready);
  }

  lemma {:induction false} KnownMore(segs: seq<SegMeta>, m: SegMeta, starts: seq<nat>, vis: nat, ready: bool)
    requires KnownOk(segs, starts, vis, ready) && Owned(m, starts, vis, ready)
    ensures KnownOk(segs + [m], starts, vis, ready) && (segs != [] ==> KnownOk(Init(segs) + [m], starts, vis, ready))
  {
  }

  /** Probing a start and adding or replacing what it shows. */
  lemma {:induction false} ProbeKeepsKnown(starts: seq<nat>, probe: Prober, segs: seq<SegMeta>, vis: nat, ready: bool,
                                           t: nat)
    requires DiskOk(starts, vis, ready) && ProbeOk(probe, starts, vis, ready) && KnownOk(segs, starts, vis, ready)
    requires t < |starts| && probe(starts[t]).Good?
    ensures KnownOk(segs + [probe(starts[t]).meta], starts, vis, ready)
    ensures segs != [] ==> KnownOk(Init(segs) + [probe(starts[t]).meta], starts, vis, ready)
  {
    ProbedIsOwned(probe, starts, vis, ready, t);
    KnownMore(segs, probe(starts[t]).meta, starts, vis, ready);
  }

  /** Probing a listed base and adding or replacing what it shows. */
  lemma {:induction false} ListedKeepsKnown(starts: seq<nat>, probe: Prober, segs: seq<SegMeta>, vis: nat, ready: bool,
                                            bases: seq<nat>, i: nat)
    requires DiskOk(starts, vis, ready) && ProbeOk(probe, starts, vis, ready) && KnownOk(segs, starts, vis, ready)
    requires Listed(bases, starts, vis, ready) && i < |bases| && probe(bases[i]).Good?
    ensures KnownOk(segs + [probe(bases[i]).meta], starts, vis, ready)
    ensures segs != [] ==> KnownOk(Init(segs) + [probe(bases[i]).meta], starts, vis, ready)
  {
    ListedAt(bases, starts, vis, ready, i);
    ProbeKeepsKnown(starts, probe, segs, vis, ready, i);
  }

  lemma {:induction false} RefreshKeepsKnown(starts: seq<nat>, probe: Prober, r: ReadOnlyLog, vis: nat, ready: bool)
    requires DiskOk(starts, vis, ready) && ProbeOk(probe, starts, vis, ready) && PcOk(r, starts, vis, ready)
    requires KnownOk(r.segs, starts, vis, ready)
    ensures KnownOk(RefreshStep(starts, probe, r).segs, starts, vis, ready)
  {
    match r.pc
    case FirstLoad(bases, i) =>
      if i < |bases| && probe(bases[i]).Good? {
        ListedKeepsKnown(starts, probe, r.segs, vis, ready, bases, i);
      }
    case ProbeLast(bases) =>
      var u :| 0 <= u < |bases| && bases[u] == Last(r.segs).base;
      if probe(bases[u]).Good? {
        ListedKeepsKnown(starts, probe, r.segs, vis, ready, bases, u);
      }
    case Follow(bases, i, want) =>
      if i < |bases| && probe(bases[i]).Good? {
        ListedKeepsKnown(starts, probe, r.segs, vis, ready, bases, i);
      }
    case _ =>
  }

  lemma {:induction false} GrowthKeepsKnown(segs: seq<SegMeta>, starts: seq<nat>, vis: nat, ready: bool,
                                            starts': seq<nat>, vis': nat, ready': bool)
    requires KnownOk(segs, starts, vis, ready) && DiskOk(starts, vis, ready) && DiskOk(starts', vis', ready')
    requires Grown(starts, vis, ready, starts', vis', ready')
    ensures KnownOk(segs, starts', vis', ready')
  {
    forall i | 0 <= i < |segs|
      ensures Owned(segs[i], starts', vis', ready')
    {
      assert Owned(segs[i], starts, vis, ready);
      var t: nat :| Inside(segs[i], starts, t, vis, ready);
      assert Inside(segs[i], starts', t, vis', ready');
    }
  }
}
