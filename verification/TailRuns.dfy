/** The log's owner and a read-only attached process, interleaved step by step down to the bytes. */
module TailRuns {
  import opened Base
  import opened Bytes
  import opened Segment
  import opened Wal
  import opened Runs
  import opened Tail
  import opened Reader

  /** The owner's files as visible to others, its segments, and every record it has begun to write. */
  datatype Owner = Owner(dir: Dir, segs: seq<SegMeta>, log: seq<Entry>)

  /** Sealed files are complete; of the active one any prefix may be visible. */
  ghost predicate OwnerOk(o: Options, w: Owner) {
    || w == Owner([], [], [])
    || (Damaged(o, w.dir, w.segs, w.log, 0) && |w.dir| == |w.segs| && w.segs[0].base == 0)
  }

  datatype OwnerEvent =
    | Boot               // the first segment file appears, empty
    | Begin(e: Entry)    // a record's write is issued
    | Show(upTo: nat)    // bytes of the active file up to `upTo` become visible
    | Roll               // the active segment is complete and sealed, the next file appears, empty
    | Restart            // the process is killed and opens the log again

  ghost predicate OwnerEnabled(o: Options, w: Owner, ev: OwnerEvent) {
    match ev
    case Boot => w.dir == []
    case Begin(e) => w.segs != [] && w.dir != [] && Fits(o, e) && |w.log| + 1 < TWO_64
    case Show(n) =>
      && w.segs != [] && w.dir != [] && Last(w.segs).base <= |w.log|
      && |Last(w.dir).bytes| <= n <= |ActiveImage(o, w)|
    case Roll =>
      && w.segs != [] && w.dir != [] && Last(w.segs).base <= |w.log| && Last(w.segs).records > 0
      && Last(w.dir).bytes == ActiveImage(o, w)
    case Restart => w.dir != [] && Reopens(o, w)
  }

  /** Open succeeds, or finds only a torn header. */
  ghost predicate Reopens(o: Options, w: Owner)
    requires w.dir != []
  {
    (|w.dir| > 1 || Ready(w)) ==>
      Load(w.dir, ProbeAll(o, w.dir)).Loaded? && Load(w.dir, ProbeAll(o, w.dir)).state.next <= |w.log|
  }

  function ActiveImage(o: Options, w: Owner): seq<Byte>
    requires w.segs != [] && Last(w.segs).base <= |w.log|
  {
    Image(o, Last(w.segs).base, w.log[Last(w.segs).base..])
  }

  ghost function OwnerStep(o: Options, w: Owner, ev: OwnerEvent): Owner
    requires OwnerEnabled(o, w, ev)
  {
    match ev
    case Boot => Owner([SegFile(0, [], 0)], [SegMeta(0, 0, HEADER_LEN)], [])
    case Begin(e) =>
      var m := Last(w.segs);
      Owner(w.dir, Init(w.segs) + [SegMeta(m.base, m.records + 1, m.bytes + Size(e))], w.log + [e])
    case Show(n) => w.(dir := Init(w.dir) + [SegFile(Last(w.dir).base, ActiveImage(o, w)[..n], 0)])
    case Roll =>
      var f, m := Last(w.dir), Last(w.segs);
      Owner(Init(w.dir) + [f.(synced := |f.bytes|)] + [SegFile(|w.log|, [], 0)],
            Init(w.segs) + [m.(bytes := |f.bytes|)] + [SegMeta(|w.log|, 0, HEADER_LEN)], w.log)
    case Restart =>
      if |w.dir| > 1 || Ready(w) then
        var s := Load(w.dir, ProbeAll(o, w.dir)).state;
        Owner(s.dir, s.segs, w.log[..s.next])
      else
        Owner([], [], [])
  }

  // ---- What the files show ----

  function Starts(segs: seq<SegMeta>): (r: seq<nat>)
    ensures |r| == |segs| && forall i :: 0 <= i < |segs| ==> r[i] == segs[i].base
  {
    seq(|segs|, i requires 0 <= i < |segs| => segs[i].base)
  }

  function Ready(w: Owner): bool {
    w.dir != [] && HEADER_LEN <= |Last(w.dir).bytes|
  }

  /** How many records are completely visible. */
  function Visible(w: Owner): nat {
    if w.dir == [] || Last(w.dir).base > |w.log| then 0
    else if !Ready(w) then Last(w.dir).base
    else Last(w.dir).base + CompleteCount(w.log[Last(w.dir).base..], |Last(w.dir).bytes| - HEADER_LEN)
  }

  /** Opening a file by name and scanning it. */
  function ProbeBase(read: SegFile -> Probe, dir: Dir, base: nat): Probe {
    if dir == [] then TornHeader
    else if dir[0].base == base then read(dir[0])
    else ProbeBase(read, dir[1..], base)
  }

  function FileProbe(o: Options): SegFile -> Probe {
    f => ProbeFile(o, f)
  }

  function DirProber(o: Options, dir: Dir): Prober {
    (base: nat) => ProbeBase(FileProbe(o), dir, base)
  }

  lemma {:induction false} ProbeBaseAt(read: SegFile -> Probe, dir: Dir, i: nat)
    requires i < |dir| && forall j :: 0 <= j < i ==> dir[j].base != dir[i].base
    ensures ProbeBase(read, dir, dir[i].base) == read(dir[i])
    decreases i
  {
    if i > 0 {
      assert forall j :: 0 <= j < i - 1 ==> dir[1..][j] == dir[j + 1];
      ProbeBaseAt(read, dir[1..], i - 1);
    }
  }

  lemma {:induction false} ProbeBaseMissing(read: SegFile -> Probe, dir: Dir, base: nat)
    requires forall j :: 0 <= j < |dir| ==> dir[j].base != base
    ensures ProbeBase(read, dir, base) == TornHeader
  {
    if dir != [] {
      assert forall j :: 0 <= j < |dir[1..]| ==> dir[1..][j] == dir[j + 1];
      ProbeBaseMissing(read, dir[1..], base);
    }
  }

  lemma {:induction false} ActiveProbe(o: Options, f: SegFile, log: seq<Entry>)
    requires AllFit(o, log) && |log| < TWO_64 && f.base <= |log| && f.bytes <= Image(o, f.base, log[f.base..])
    ensures |f.bytes| < HEADER_LEN ==> ProbeFile(o, f).TornHeader?
    ensures HEADER_LEN <= |f.bytes| ==>
      Shows(ProbeFile(o, f), f.base, f.base + CompleteCount(log[f.base..], |f.bytes| - HEADER_LEN))
  {
    if HEADER_LEN <= |f.bytes| {
      ProbePrefix(o, f, log[f.base..], CompleteCount(log[f.base..], |f.bytes| - HEADER_LEN));
    }
  }

  lemma {:induction false} DirBases(o: Options, w: Owner, i: nat)
    requires OwnerOk(o, w) && i < |w.dir|
    ensures |w.dir| == |w.segs| && w.dir[i].base == w.segs[i].base
    ensures forall j :: 0 <= j < i ==> w.dir[j].base < w.dir[i].base
  {
    forall j | 0 <= j <= i
      ensures w.dir[j].base == w.segs[j].base
    {
      if j < |w.dir| - 1 {
        assert Sealed(o, Init(w.dir)[j], Init(w.segs)[j], w.log);
      }
    }
    forall j | 0 <= j < i
      ensures w.segs[j].base < w.segs[i].base
    {
      ChainOrder(w.segs, |w.log|, j, i);
    }
  }

  lemma {:induction false} SealedProbe(o: Options, w: Owner, i: nat)
    requires OwnerOk(o, w) && i + 1 < |w.dir|
    ensures Shows(FileProbe(o)(w.dir[i]), w.segs[i].base, w.segs[i + 1].base)
  {
    DirBases(o, w, i);
    assert Sealed(o, Init(w.dir)[i], Init(w.segs)[i], w.log);
    ProbeStored(o, w.dir[i], w.segs[i], w.log);
    assert w.segs[i].End() == w.segs[i + 1].base;
  }

  lemma {:induction false} LastProbe(o: Options, w: Owner)
    requires OwnerOk(o, w) && w.dir != []
    ensures var p := FileProbe(o)(Last(w.dir));
      if Ready(w) then Shows(p, Last(w.dir).base, Visible(w)) else p.TornHeader?
  {
    DirBases(o, w, |w.dir| - 1);
    ActiveProbe(o, Last(w.dir), w.log);
  }

  lemma {:induction false} MissingShowsNothing(o: Options, w: Owner, b: nat)
    requires OwnerOk(o, w) && b !in Starts(w.segs)
    ensures DirProber(o, w.dir)(b).TornHeader?
  {
    forall j | 0 <= j < |w.dir|
      ensures w.dir[j].base != b
    {
      DirBases(o, w, j);
      assert Starts(w.segs)[j] == w.dir[j].base;
    }
    ProbeBaseMissing(FileProbe(o), w.dir, b);
  }

  /** What the attached process relies on holds of the owner's files at every moment. */
  lemma {:induction false} OwnerShows(o: Options, w: Owner)
    requires OwnerOk(o, w)
    ensures DiskOk(Starts(w.segs), Visible(w), Ready(w))
    ensures ProbeOk(DirProber(o, w.dir), Starts(w.segs), Visible(w), Ready(w))
    ensures Visible(w) <= |w.log|
  {
    forall b | b !in Starts(w.segs)
      ensures DirProber(o, w.dir)(b).TornHeader?
    {
      MissingShowsNothing(o, w, b);
    }
    if w.dir != [] {
      StartsOk(o, w);
      LastShows(o, w);
      forall i, j | 0 <= i < j < |w.segs| && j == i + 1
        ensures Shows(DirProber(o, w.dir)(w.segs[i].base), w.segs[i].base, w.segs[j].base)
      {
        EachProbe(o, w, i);
        SealedProbe(o, w, i);
      }
    }
  }

  lemma {:induction false} EachProbe(o: Options, w: Owner, i: nat)
    requires OwnerOk(o, w) && i < |w.dir|
    ensures |w.dir| == |w.segs| && w.dir[i].base == w.segs[i].base
    ensures DirProber(o, w.dir)(w.segs[i].base) == FileProbe(o)(w.dir[i])
  {
    DirBases(o, w, i);
    ProbeBaseAt(FileProbe(o), w.dir, i);
  }

  lemma {:induction false} LastShows(o: Options, w: Owner)
    requires OwnerOk(o, w) && w.dir != []
    ensures |w.dir| == |w.segs|
    ensures var p := DirProber(o, w.dir)(Last(w.segs).base);
      if Ready(w) then Shows(p, Last(w.segs).base, Visible(w)) else p.TornHeader?
  {
    EachProbe(o, w, |w.dir| - 1);
    LastProbe(o, w);
  }

  lemma {:induction false} StartsOk(o: Options, w: Owner)
    requires OwnerOk(o, w) && w.dir != []
    ensures DiskOk(Starts(w.segs), Visible(w), Ready(w)) && Visible(w) <= |w.log|
  {
    DirBases(o, w, |w.dir| - 1);
    forall i, j | 0 <= i < j < |w.segs|
      ensures w.segs[i].base < w.segs[j].base
    {
      ChainOrder(w.segs, |w.log|, i, j);
    }
  }

  // ---- Every step of the owner ----

  lemma {:induction false} CompleteCountMonotone(es: seq<Entry>, room: nat, room': nat)
    requires room <= room'
    ensures CompleteCount(es, room) <= CompleteCount(es, room')
    decreases |es|
  {
    if es != [] && Size(es[0]) <= room {
      CompleteCountMonotone(es[1..], room - Size(es[0]), room' - Size(es[0]));
    }
  }

  lemma {:induction false} CompleteCountExtend(es: seq<Entry>, e: Entry, room: nat)
    ensures CompleteCount(es, room) <= CompleteCount(es + [e], room)
    decreases |es|
  {
    if es != [] && Size(es[0]) <= room {
      assert (es + [e])[1..] == es[1..] + [e];
      CompleteCountExtend(es[1..], e, room - Size(es[0]));
    }
  }

  lemma {:induction false} DropSnoc(log: seq<Entry>, e: Entry, n: nat)
    requires n <= |log|
    ensures (log + [e])[n..] == log[n..] + [e]
  {
  }

  lemma {:induction false} PrefixGrows(o: Options, f: SegFile, log: seq<Entry>, e: Entry)
    requires f.base <= |log| && f.bytes <= Image(o, f.base, log[f.base..])
    ensures f.bytes <= Image(o, f.base, (log + [e])[f.base..])
  {
    DropSnoc(log, e, f.base);
    ImageExtend(o, f.base, log[f.base..], e);
  }

  lemma {:induction false} BeginKeepsOk(o: Options, w: Owner, e: Entry)
    requires OwnerOk(o, w) && OwnerEnabled(o, w, Begin(e))
    ensures OwnerOk(o, OwnerStep(o, w, Begin(e)))
  {
    var w' := OwnerStep(o, w, Begin(e));
    ChainReplaceLast(w.segs, |w.log|, Last(w'.segs));
    StillSealed(o, Init(w.dir), Init(w.segs), w.log, w'.log);
    assert Init(w'.segs) == Init(w.segs);
    PrefixGrows(o, Last(w.dir), w.log, e);
  }

  lemma {:induction false} ShowKeepsOk(o: Options, w: Owner, n: nat)
    requires OwnerOk(o, w) && OwnerEnabled(o, w, Show(n))
    ensures OwnerOk(o, OwnerStep(o, w, Show(n)))
  {
  }

  lemma {:induction false} RollKeepsOk(o: Options, w: Owner)
    requires OwnerOk(o, w) && OwnerEnabled(o, w, Roll)
    ensures OwnerOk(o, OwnerStep(o, w, Roll))
  {
    var w', f, m := OwnerStep(o, w, Roll), Last(w.dir), Last(w.segs);
    var m' := m.(bytes := |f.bytes|);
    ChainReplaceLast(w.segs, |w.log|, m');
    ChainAppend(Init(w.segs) + [m'], |w.log|, SegMeta(|w.log|, 0, HEADER_LEN));
    assert w.log[m.base..] == w.log[m.base..m.End()];
    assert Sealed(o, f.(synced := |f.bytes|), m', w.log);
    assert AllSealed(o, Init(w.dir) + [f.(synced := |f.bytes|)], Init(w.segs) + [m'], w.log);
    assert Init(w'.dir) == Init(w.dir) + [f.(synced := |f.bytes|)] && Init(w'.segs) == Init(w.segs) + [m'];
  }

  lemma {:induction false} BootKeepsOk(o: Options, w: Owner)
    requires OwnerOk(o, w) && OwnerEnabled(o, w, Boot)
    ensures OwnerOk(o, OwnerStep(o, w, Boot))
  {
  }

  /** What an open log shows is all it has. */
  lemma {:induction false} OpenShowsAll(o: Options, s: LogState, log: seq<Entry>)
    requires Inv(o, s, log, 0)
    ensures var w := Owner(s.dir, s.segs, log); Ready(w) && Visible(w) == |log|
    ensures Damaged(o, s.dir, s.segs, log, 0) && |s.dir| == |s.segs|
  {
    var f, m := Last(s.dir), Last(s.segs);
    var es := log[m.base..];
    InvIsDamaged(o, s, log, 0);
    assert es == log[m.base..m.End()] && es[..|es|] == es;
    CompleteCountIsComplete(o, es, |f.bytes| - HEADER_LEN);
    CompleteUnique(o, es, |f.bytes| - HEADER_LEN, CompleteCount(es, |f.bytes| - HEADER_LEN), |es|);
  }

  /** The owner's restart keeps what is visible: it truncates a partial record, or removes a last file whose header is
      torn. */
  lemma {:induction false} RestartKeepsOk(o: Options, w: Owner)
    requires OwnerOk(o, w) && w.dir != []
    ensures Reopens(o, w) && OwnerOk(o, OwnerStep(o, w, Restart)) && Grows(w, OwnerStep(o, w, Restart))
    ensures w.log[..Visible(w)] == OwnerStep(o, w, Restart).log
  {
    DirBases(o, w, |w.dir| - 1);
    StartsOk(o, w);
    if Ready(w) {
      RestartTail(o, w);
    } else if |w.dir| > 1 {
      RestartHead(o, w);
    } else {
      assert w.segs[0].base == 0 && w.log[..0] == [];
      assert Starts([]) == Init(Starts(w.segs));
    }
  }

  lemma {:induction false} RestartTail(o: Options, w: Owner)
    requires OwnerOk(o, w) && w.dir != [] && Ready(w)
    ensures Reopens(o, w) && OwnerOk(o, OwnerStep(o, w, Restart)) && OwnerStep(o, w, Restart).log == w.log[..Visible(w)]
    ensures Grows(w, OwnerStep(o, w, Restart))
  {
    var r := Load(w.dir, ProbeAll(o, w.dir));
    var n := TailLoads(o, w.dir, w.segs, w.log);
    OpenShowsAll(o, r.state, w.log[..n]);
    LastProbe(o, w);
    SameStarts(w.segs, Last(r.state.segs));
  }

  lemma {:induction false} TailLoads(o: Options, dir: Dir, segs: seq<SegMeta>, log: seq<Entry>) returns (n: nat)
    requires Damaged(o, dir, segs, log, 0) && |dir| == |segs| && HEADER_LEN <= |Last(dir).bytes|
    ensures n <= |log| && RecoversTo(o, dir, log[..n], 0)
    ensures ProbeFile(o, Last(dir)).Good?
    ensures ProbeFile(o, Last(dir)).meta.base == Last(segs).base && ProbeFile(o, Last(dir)).meta.End() == n
    ensures Load(dir, ProbeAll(o, dir)).state.segs == Init(segs) + [ProbeFile(o, Last(dir)).meta]
  {
    n := LoadTornTail(o, dir, segs, log, 0);
    LoadedTail(o, dir, segs, log, 0);
    assert Last(Load(dir, ProbeAll(o, dir)).state.segs).End() == n;
  }

  lemma {:induction false} SameStarts(segs: seq<SegMeta>, m: SegMeta)
    requires segs != [] && m.base == Last(segs).base
    ensures Starts(Init(segs) + [m]) == Starts(segs) && (Init(segs) + [m])[0].base == segs[0].base
  {
  }

  lemma {:induction false} RestartHead(o: Options, w: Owner)
    requires OwnerOk(o, w) && |w.dir| > 1 && !Ready(w)
    ensures Reopens(o, w) && OwnerOk(o, OwnerStep(o, w, Restart)) && OwnerStep(o, w, Restart).log == w.log[..Visible(w)]
    ensures Grows(w, OwnerStep(o, w, Restart))
  {
    var r, n := Load(w.dir, ProbeAll(o, w.dir)), Last(w.segs).base;
    DirBases(o, w, |w.dir| - 1);
    LoadTornHead(o, w.dir, w.segs, w.log, 0);
    LoadedHead(o, w.dir, w.segs, w.log, 0);
    OpenShowsAll(o, r.state, w.log[..n]);
    assert Starts(Init(w.segs)) == Init(Starts(w.segs));
  }

  lemma {:induction false} OwnerStepKeepsOk(o: Options, w: Owner, ev: OwnerEvent)
    requires OwnerOk(o, w) && OwnerEnabled(o, w, ev)
    ensures OwnerOk(o, OwnerStep(o, w, ev))
  {
    match ev
    case Boot => BootKeepsOk(o, w);
    case Begin(e) => BeginKeepsOk(o, w, e);
    case Show(n) => ShowKeepsOk(o, w, n);
    case Roll => RollKeepsOk(o, w);
    case Restart => RestartKeepsOk(o, w);
  }

  /** The visible part of the log only grows. */
  ghost predicate Grows(w: Owner, w': Owner) {
    Grown(Starts(w.segs), Visible(w), Ready(w), Starts(w'.segs), Visible(w'), Ready(w'))
  }

  lemma {:induction false} VisibleBegin(w: Owner, segs: seq<SegMeta>, e: Entry)
    requires w.dir != [] && Last(w.dir).base <= |w.log|
    ensures Visible(w) <= Visible(Owner(w.dir, segs, w.log + [e]))
  {
    var f := Last(w.dir);
    DropSnoc(w.log, e, f.base);
    if Ready(w) {
      CompleteCountExtend(w.log[f.base..], e, |f.bytes| - HEADER_LEN);
    }
  }

  lemma {:induction false} BeginGrows(o: Options, w: Owner, e: Entry)
    requires OwnerOk(o, w) && OwnerEnabled(o, w, Begin(e))
    ensures Grows(w, OwnerStep(o, w, Begin(e)))
  {
    DirBases(o, w, |w.dir| - 1);
    VisibleBegin(w, OwnerStep(o, w, Begin(e)).segs, e);
  }

  lemma {:induction false} ShowGrows(o: Options, w: Owner, n: nat)
    requires OwnerOk(o, w) && OwnerEnabled(o, w, Show(n))
    ensures Grows(w, OwnerStep(o, w, Show(n)))
  {
    var f := Last(w.dir);
    DirBases(o, w, |w.dir| - 1);
    if Ready(w) {
      CompleteCountMonotone(w.log[f.base..], |f.bytes| - HEADER_LEN, n - HEADER_LEN);
    }
  }

  lemma {:induction false} RollGrows(o: Options, w: Owner)
    requires OwnerOk(o, w) && OwnerEnabled(o, w, Roll)
    ensures Grows(w, OwnerStep(o, w, Roll))
  {
    DirBases(o, w, |w.dir| - 1);
    StartsOk(o, w);
    assert Starts(OwnerStep(o, w, Roll).segs) == Starts(w.segs) + [|w.log|];
  }

  lemma {:induction false} VisibleGrows(o: Options, w: Owner, ev: OwnerEvent)
    requires OwnerOk(o, w) && OwnerEnabled(o, w, ev)
    ensures Grows(w, OwnerStep(o, w, ev))
  {
    match ev
    case Boot => assert Starts(OwnerStep(o, w, Boot).segs) == Starts(w.segs) + [0];
    case Begin(e) => BeginGrows(o, w, e);
    case Show(n) => ShowGrows(o, w, n);
    case Roll => RollGrows(o, w);
    case Restart => RestartKeepsOk(o, w);
  }

  // ---- Whole runs ----

  datatype World = World(owner: Owner, reader: ReadOnlyLog)

  datatype Event = Own(ev: OwnerEvent) | Tick

  ghost predicate Step(o: Options, w: World, ev: Event, w': World) {
    match ev
    case Own(e) => OwnerEnabled(o, w.owner, e) && w' == w.(owner := OwnerStep(o, w.owner, e))
    case Tick =>
      w' == w.(reader := RefreshStep(Starts(w.owner.segs), DirProber(o, w.owner.dir), w.reader))
  }

  ghost function Machine(o: Options): (World, Event, World) -> bool {
    (w, ev, w') => Step(o, w, ev, w')
  }

  ghost predicate Good(o: Options, w: World) {
    && OwnerOk(o, w.owner)
    && ReaderInv(w.reader, Starts(w.owner.segs), Visible(w.owner), Ready(w.owner))
    && KnownOk(w.reader.segs, Starts(w.owner.segs), Visible(w.owner), Ready(w.owner))
  }

  lemma {:induction false} StepKeepsGood(o: Options, w: World, ev: Event, w': World)
    requires Good(o, w) && Step(o, w, ev, w')
    ensures Good(o, w') && w.reader.next <= w'.reader.next
  {
    OwnerShows(o, w.owner);
    match ev
    case Own(e) =>
      OwnerStepKeepsOk(o, w.owner, e);
      OwnerShows(o, w'.owner);
      VisibleGrows(o, w.owner, e);
      GrowthKeepsReader(w.reader, Starts(w.owner.segs), Visible(w.owner), Ready(w.owner),
                        Starts(w'.owner.segs), Visible(w'.owner), Ready(w'.owner));
      GrowthKeepsKnown(w.reader.segs, Starts(w.owner.segs), Visible(w.owner), Ready(w.owner),
                       Starts(w'.owner.segs), Visible(w'.owner), Ready(w'.owner));
    case Tick =>
      RefreshKeepsKnown(Starts(w.owner.segs), DirProber(o, w.owner.dir), w.reader, Visible(w.owner), Ready(w.owner));
      RefreshSound(Starts(w.owner.segs), DirProber(o, w.owner.dir), w.reader, Visible(w.owner), Ready(w.owner));
  }

  /** In every interleaving, restarts of the owner included, the attached log never fails, its segments are contiguous
      from offset 0 and cover only records the owner has completely written, and its next offset never goes back. */
  lemma {:induction false} TailSound(o: Options, w: World, evs: seq<Event>, w': World)
    requires Good(o, w) && Run(Machine(o), w, evs, w')
    ensures Good(o, w') && !w'.reader.pc.Failed?
    ensures w.reader.next <= w'.reader.next <= Visible(w'.owner) <= |w'.owner.log|
    ensures ViewOk(w'.reader.segs, Visible(w'.owner))
    decreases |evs|
  {
    OwnerShows(o, w.owner);
    if evs != [] {
      var m :| Machine(o)(w, evs[0], m) && Run(Machine(o), m, evs[1..], w');
      StepKeepsGood(o, w, evs[0], m);
      TailSound(o, m, evs[1..], w');
    }
  }

  /** Attaching before the owner has written anything is a good start. */
  lemma {:induction false} AttachIsGood(o: Options)
    ensures Good(o, World(Owner([], [], []), ReadOnlyLog([], 0, Idle)))
  {
  }

  // ---- Reading through the attached log ----

  /** Shorter stretches of a log have shorter images. */
  lemma {:induction false} ImageGrows(o: Options, base: nat, log: seq<Entry>, a: nat, b: nat)
    requires base <= a <= b <= |log|
    ensures Image(o, base, log[base..a]) <= Image(o, base, log[base..b])
  {
    var es := log[base..b];
    assert log[base..a] == es[..a - base];
    EncodedLength(o, es, a - base);
  }

  lemma {:induction false} PrefixOfBoth(a: seq<Byte>, b: seq<Byte>, c: seq<Byte>)
    requires a <= c && b <= c && |a| <= |b|
    ensures a <= b
  {
  }

  lemma {:induction false} SealedShelf(o: Options, w: Owner, m: SegMeta, t: nat)
    requires OwnerOk(o, w) && t + 1 < |w.dir| && m.base == w.segs[t].base && m.End() <= w.segs[t + 1].base
    ensures Shelved(o, w.dir[t], m, w.log)
  {
    DirBases(o, w, t);
    assert Sealed(o, Init(w.dir)[t], Init(w.segs)[t], w.log);
    assert w.segs[t].End() == w.segs[t + 1].base;
    ImageGrows(o, m.base, w.log, m.End(), w.segs[t].End());
  }

  lemma {:induction false} ActiveShelf(o: Options, w: Owner, m: SegMeta)
    requires OwnerOk(o, w) && w.dir != [] && Ready(w) && m.base == Last(w.dir).base && m.End() <= Visible(w)
    ensures Shelved(o, Last(w.dir), m, w.log)
  {
    var f := Last(w.dir);
    DirBases(o, w, |w.dir| - 1);
    StartsOk(o, w);
    VisibleFits(o, f.base, w.log, |f.bytes| - HEADER_LEN, m.End());
    ImageGrows(o, m.base, w.log, m.End(), |w.log|);
    assert w.log[m.base..|w.log|] == w.log[m.base..];
    PrefixOfBoth(Image(o, m.base, w.log[m.base..m.End()]), f.bytes, Image(o, m.base, w.log[m.base..]));
  }

  /** The complete records fit into the visible bytes. */
  lemma {:induction false} VisibleFits(o: Options, base: nat, log: seq<Entry>, room: nat, end: nat)
    requires base <= end <= |log| && end <= base + CompleteCount(log[base..], room)
    ensures |Image(o, base, log[base..end])| <= HEADER_LEN + room
  {
    var es := log[base..];
    var k := CompleteCount(es, room);
    CompleteCountIsComplete(o, es, room);
    assert log[base..end] == es[..end - base];
    if end - base < k {
      PrefixLengths(o, es, end - base, k);
    }
  }

  lemma {:induction false} OwnedShelf(o: Options, w: Owner, m: SegMeta)
    requires OwnerOk(o, w) && w.dir != [] && Owned(m, Starts(w.segs), Visible(w), Ready(w))
    ensures Shelf(o, w.dir, m, w.log)
  {
    var t: nat :| Inside(m, Starts(w.segs), t, Visible(w), Ready(w));
    DirBases(o, w, 0);
    DirBases(o, w, t);
    FileOfAt(w.dir, t, 0);
    if t + 1 < |w.dir| {
      SealedShelf(o, w, m, t);
    } else {
      ActiveShelf(o, w, m);
    }
  }

  /** The records completely visible. */
  function Shown(w: Owner): (log: seq<Entry>)
    ensures |log| <= |w.log| && log <= w.log
  {
    if Visible(w) <= |w.log| then w.log[..Visible(w)] else w.log
  }

  function Attached(w: World): LogState {
    LogState(w.owner.dir, w.reader.segs, w.reader.next)
  }

  lemma {:induction false} ShelfOfPrefix(o: Options, dir: Dir, m: SegMeta, log: seq<Entry>, n: nat)
    requires Shelf(o, dir, m, log) && m.End() <= n <= |log|
    ensures Shelf(o, dir, m, log[..n])
  {
    assert log[..n][m.base..m.End()] == log[m.base..m.End()];
  }

  lemma {:induction false} AttachedReadable(o: Options, w: World)
    requires Good(o, w) && w.reader.next > 0
    ensures Readable(o, Attached(w), Shown(w.owner)) && w.reader.segs[0].base == 0 && w.reader.next <= |Shown(w.owner)|
  {
    var segs, vis := w.reader.segs, Visible(w.owner);
    OwnerShows(o, w.owner);
    assert Owned(segs[0], Starts(w.owner.segs), vis, Ready(w.owner));
    forall i | 0 <= i < |segs|
      ensures Shelf(o, w.owner.dir, segs[i], Shown(w.owner))
    {
      OwnedShelf(o, w.owner, segs[i]);
      OwnedWithin(segs[i], Starts(w.owner.segs), vis, Ready(w.owner));
      ShelfOfPrefix(o, w.owner.dir, segs[i], w.owner.log, vis);
    }
  }

  lemma {:induction false} OwnedWithin(m: SegMeta, starts: seq<nat>, vis: nat, ready: bool)
    requires DiskOk(starts, vis, ready) && Owned(m, starts, vis, ready)
    ensures m.End() <= vis
  {
    var t: nat :| Inside(m, starts, t, vis, ready);
    if t + 1 < |starts| {
      assert starts[t + 1] <= Last(starts);
    }
  }

  /** In every state of every run a reader over the attached log gets, at any position before its next offset, exactly
      the record the owner wrote at that offset, however many empty entries the segment list repeats. */
  lemma {:induction false} TailReads(o: Options, w: World, rd: ReaderState)
    requires Good(o, w) && ReaderOk(o, rd, Shown(w.owner))
    ensures var r := Next(o, Attached(w), rd);
      if rd.pos < w.reader.next
      then
        && rd.pos < |Shown(w.owner)| && r.0 == Got(At(w.owner.log[rd.pos], rd.pos))
        && r.1.pos == rd.pos + 1 && r.1.committed == rd.committed && ReaderOk(o, r.1, Shown(w.owner))
      else r == (NoRecord, rd)
  {
    if rd.pos < w.reader.next {
      AttachedReadable(o, w);
      NextReads(o, Attached(w), Shown(w.owner), rd);
    }
  }

  // ---- What is visible stays ----

  /** What is completely visible stays, through restarts too. */
  lemma {:induction false} ShownGrows(o: Options, w: World, ev: Event, w': World)
    requires Good(o, w) && Step(o, w, ev, w')
    ensures Shown(w.owner) <= Shown(w'.owner)
  {
    if ev.Own? {
      OwnerShown(o, w.owner, ev.ev);
    }
  }

  lemma {:induction false} VisibleWithin(o: Options, w: Owner)
    requires OwnerOk(o, w)
    ensures Visible(w) <= |w.log|
  {
    if w.dir != [] {
      StartsOk(o, w);
    }
  }

  /** No event takes anything visible from the log. */
  lemma {:induction false} VisibleKept(o: Options, w: Owner, ev: OwnerEvent)
    requires OwnerOk(o, w) && OwnerEnabled(o, w, ev) && Visible(w) <= |w.log|
    ensures w.log[..Visible(w)] <= OwnerStep(o, w, ev).log
  {
    if ev.Restart? {
      RestartKeepsOk(o, w);
    } else {
      assert w.log <= OwnerStep(o, w, ev).log;
    }
  }

  lemma {:induction false} VisibleMonotone(o: Options, w: Owner, ev: OwnerEvent)
    requires OwnerOk(o, w) && OwnerEnabled(o, w, ev)
    ensures Visible(w) <= Visible(OwnerStep(o, w, ev)) <= |OwnerStep(o, w, ev).log|
  {
    VisibleGrows(o, w, ev);
    OwnerStepKeepsOk(o, w, ev);
    VisibleWithin(o, OwnerStep(o, w, ev));
  }

  lemma {:induction false} ShownPrefix(w: Owner, w': Owner)
    requires Visible(w) <= |w.log| && Visible(w) <= Visible(w') <= |w'.log| && w.log[..Visible(w)] <= w'.log
    ensures Shown(w) <= Shown(w')
  {
    assert Shown(w) == w'.log[..Visible(w)];
  }

  lemma {:induction false} OwnerShown(o: Options, w: Owner, ev: OwnerEvent)
    requires OwnerOk(o, w) && OwnerEnabled(o, w, ev)
    ensures Shown(w) <= Shown(OwnerStep(o, w, ev))
  {
    VisibleWithin(o, w);
    VisibleKept(o, w, ev);
    VisibleMonotone(o, w, ev);
    ShownPrefix(w, OwnerStep(o, w, ev));
  }
}
