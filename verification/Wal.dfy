/** The segmented write-ahead log (internal/wal/wal.go): group commit, rolling and recovery on open.

    A file is its bytes and the length known to be on stable storage. A crash leaves the active file cut
    anywhere at or past its synced length; every sealed file was synced whole by `roll`. */
module Wal {
  import opened Base
  import opened Bytes
  import opened Segment

  /** A segment file, named by its base offset. */
  datatype SegFile = SegFile(base: nat, bytes: seq<Byte>, synced: nat)

  /** The segment files of the log's directory in listing order, which is ascending by base. */
  type Dir = seq<SegFile>

  /** In-memory description of one segment. */
  datatype SegMeta = SegMeta(base: nat, records: nat, bytes: nat) {
    function End(): nat { base + records }
  }

  /** The directory and the fields of an open log. The last segment is the active one. */
  datatype LogState = LogState(dir: Dir, segs: seq<SegMeta>, next: nat)

  function Last<T>(s: seq<T>): T
    requires s != []
  {
    s[|s| - 1]
  }

  function Init<T>(s: seq<T>): seq<T>
    requires s != []
  {
    s[..|s| - 1]
  }

  // ---- The writer's steps, one system call each ----

  /** The log has an active segment and its file. */
  predicate Open(s: LogState) {
    s.segs != [] && s.dir != []
  }

  predicate Synced(s: LogState)
    requires Open(s)
  {
    Last(s.dir).synced == |Last(s.dir).bytes|
  }

  function SyncActive(s: LogState): (r: LogState)
    requires Open(s)
    ensures Open(r)
  {
    var f := Last(s.dir);
    s.(dir := Init(s.dir) + [f.(synced := |f.bytes|)])
  }

  function CreateSegment(s: LogState): (r: LogState)
    ensures Open(r)
  {
    s.(dir := s.dir + [SegFile(s.next, Header(s.next), 0)], segs := s.segs + [SegMeta(s.next, 0, HEADER_LEN)])
  }

  function WriteRecord(o: Options, s: LogState, e: Entry): (r: LogState)
    requires Open(s)
    ensures Open(r)
  {
    var f, m := Last(s.dir), Last(s.segs);
    LogState(Init(s.dir) + [f.(bytes := f.bytes + Encode(o, e))],
             Init(s.segs) + [SegMeta(m.base, m.records + 1, m.bytes + Size(e))],
             s.next + 1)
  }

  // ---- One batch ----

  predicate MustRoll(o: Options, s: LogState, e: Entry)
    requires Open(s)
  {
    Last(s.segs).bytes + Size(e) > o.segmentBytes && Last(s.segs).records > 0
  }

  function AppendOne(o: Options, s: LogState, e: Entry): (r: LogState)
    requires Open(s)
    ensures Open(r)
  {
    var rolled := if MustRoll(o, s, e) then CreateSegment(SyncActive(s)) else s;
    var written := WriteRecord(o, rolled, e);
    if o.policy == SyncAlways then SyncActive(written) else written
  }

  function AppendAll(o: Options, s: LogState, es: seq<Entry>): (r: LogState)
    requires Open(s)
    ensures Open(r)
    decreases |es|
  {
    if es == [] then s else AppendOne(o, AppendAll(o, s, Init(es)), Last(es))
  }

  /** What a batch takes in bytes. */
  function BatchBytes(es: seq<Entry>): nat {
    if es == [] then 0 else BatchBytes(Init(es)) + Size(Last(es))
  }

  /** What the writer collects: under SyncAlways a single record; else requests join until the batch is full or the
      timer has fired. */
  predicate Gathered(o: Options, es: seq<Entry>, fired: bool) {
    && es != []
    && (o.policy == SyncAlways ==> |es| == 1)
    && (forall k :: 0 < k < |es| ==> BatchBytes(es[..k]) < o.maxBatchBytes)
    && (o.policy == SyncAlways || fired || BatchBytes(es) >= o.maxBatchBytes)
  }

  /** The clock test of SyncInterval. A log that was opened has not synced yet. */
  predicate Due(o: Options, lastSync: Option<int>, now: int) {
    lastSync.None? || now - lastSync.value >= o.batchWindow
  }

  /** `due` is the outcome of the clock test. */
  function BatchWritten(o: Options, s: LogState, es: seq<Entry>, due: bool): (r: LogState)
    requires Open(s)
    ensures Open(r)
  {
    var r := AppendAll(o, s, es);
    if o.policy == SyncBatched || (o.policy == SyncInterval && due) then SyncActive(r) else r
  }

  /** A segment exceeds the size limit only for the sake of a single record. */
  ghost predicate Sized(o: Options, segs: seq<SegMeta>) {
    forall i :: 0 <= i < |segs| && segs[i].records > 1 ==> segs[i].bytes <= o.segmentBytes
  }

  lemma {:induction false} AppendKeepsSizes(o: Options, s: LogState, es: seq<Entry>)
    requires Open(s) && Sized(o, s.segs)
    ensures Sized(o, AppendAll(o, s, es).segs)
    decreases |es|
  {
    if es != [] {
      AppendKeepsSizes(o, s, Init(es));
    }
  }

  /** Whatever is appended in whatever batches, segments keep to the size limit. */
  lemma {:induction false} BatchKeepsSizes(o: Options, s: LogState, es: seq<Entry>, due: bool)
    requires Open(s) && Sized(o, s.segs)
    ensures Sized(o, BatchWritten(o, s, es, due).segs)
  {
    AppendKeepsSizes(o, s, es);
  }

  /** A segment sealed from the i-th on is one that the record after it would have overflowed. */
  ghost predicate Packed(o: Options, segs: seq<SegMeta>, log: seq<Entry>, i: nat) {
    forall k {:trigger segs[k]} :: i <= k < |segs| - 1 ==>
      segs[k].records > 0 && segs[k].End() < |log| && segs[k].bytes + Size(log[segs[k].End()]) > o.segmentBytes
  }

  /** The log went on from these segments, and what it sealed since was full. */
  ghost predicate GoneOn(o: Options, before: seq<SegMeta>, s: LogState, log: seq<Entry>) {
    && Open(s) && 0 < |before| <= |s.segs| && Last(s.segs).End() == s.next == |log|
    && s.segs[..|before| - 1] == Init(before) && Packed(o, s.segs, log, |before| - 1)
  }

  /** A batch rolls only when it must: of the segments it seals, each had records and no room for the next one; it
      leaves the others as they were. */
  lemma {:induction false} RollsWhenFull(o: Options, s: LogState, log: seq<Entry>, es: seq<Entry>, due: bool)
    requires Open(s) && Last(s.segs).End() == s.next == |log|
    ensures GoneOn(o, s.segs, BatchWritten(o, s, es, due), log + es)
  {
    AppendsPacked(o, s, log, es);
  }

  lemma {:induction false} AppendsPacked(o: Options, s: LogState, log: seq<Entry>, es: seq<Entry>)
    requires Open(s) && Last(s.segs).End() == s.next == |log|
    ensures GoneOn(o, s.segs, AppendAll(o, s, es), log + es)
    decreases |es|
  {
    if es == [] {
      assert log + es == log;
    } else {
      AppendsPacked(o, s, log, Init(es));
      OnePacked(o, s.segs, AppendAll(o, s, Init(es)), log + Init(es), Last(es));
      assert log + Init(es) + [Last(es)] == log + es;
    }
  }

  lemma {:induction false} OnePacked(o: Options, before: seq<SegMeta>, s: LogState, log: seq<Entry>, e: Entry)
    requires GoneOn(o, before, s, log)
    ensures GoneOn(o, before, AppendOne(o, s, e), log + [e])
  {
  }

  // ---- Recovery ----

  datatype LoadResult = LoadFailed | Loaded(state: LogState)

  /** What opening and scanning one segment file finds. */
  datatype Probe = TornHeader | WrongBase | Good(meta: SegMeta)

  function ProbeFile(o: Options, f: SegFile): Probe {
    match ReadHeader(f.bytes)
    case BadHeader => TornHeader
    case HeaderBase(b) =>
      if b != f.base then WrongBase
      else
        var scan := ScanFrom(o, f.bytes, HEADER_LEN);
        Good(SegMeta(b, scan.0, scan.1))
  }

  function ProbeAll(o: Options, dir: Dir): (r: seq<Probe>)
    ensures |r| == |dir| && forall i :: 0 <= i < |dir| ==> r[i] == ProbeFile(o, dir[i])
  {
    seq(|dir|, i requires 0 <= i < |dir| => ProbeFile(o, dir[i]))
  }

  /** The segments found; a torn header is tolerated only in the last file, which is dropped. */
  function Collect(probes: seq<Probe>): (r: Option<seq<SegMeta>>)
    ensures r.Some? ==> |probes| - 1 <= |r.value| <= |probes|
  {
    if probes == [] then Some([])
    else
      match probes[0]
      case TornHeader => if |probes| == 1 then Some([]) else None
      case WrongBase => None
      case Good(m) =>
        var rest := Collect(probes[1..]);
        if rest.None? then None else Some([m] + rest.value)
  }

  /** Each segment hands off exactly to the next base. */
  ghost predicate Handoff(segs: seq<SegMeta>) {
    forall i, j :: 0 <= i < j < |segs| && j == i + 1 ==> segs[i].End() == segs[j].base
  }

  function Truncate(f: SegFile, n: nat): SegFile {
    if |f.bytes| > n then SegFile(f.base, f.bytes[..n], if f.synced < n then f.synced else n) else f
  }

  /** A log whose only segment is empty and starts at `base`. */
  function Fresh(base: nat): LogState {
    LogState([SegFile(base, Header(base), 0)], [SegMeta(base, 0, HEADER_LEN)], base)
  }

  /** load: drop a torn last header, check the offset chain, truncate the torn tail. */
  ghost function Load(dir: Dir, probes: seq<Probe>): LoadResult
    requires |probes| == |dir|
  {
    match Collect(probes)
    case None => LoadFailed
    case Some(segs) =>
      if segs == [] then Loaded(Fresh(0))
      else if !Handoff(segs) then LoadFailed
      else
        var n, m := |segs| - 1, Last(segs);
        Loaded(LogState(dir[..n] + [Truncate(dir[n], m.bytes)], segs, m.End()))
  }

  /** Each file but the last has its header, under its own name; the last may lack it. */
  ghost predicate HeadersOk(probes: seq<Probe>) {
    && (forall i :: 0 <= i < |probes| - 1 ==> probes[i].Good?)
    && (probes != [] ==> !Last(probes).WrongBase?)
  }

  /** How many segments are found. */
  function GoodOnes(probes: seq<Probe>): nat {
    if probes != [] && !Last(probes).Good? then |probes| - 1 else |probes|
  }

  lemma {:induction false} CollectIs(probes: seq<Probe>)
    ensures Collect(probes).Some? <==> HeadersOk(probes)
    ensures HeadersOk(probes) ==>
      && |Collect(probes).value| == GoodOnes(probes)
      && forall i :: 0 <= i < GoodOnes(probes) ==> probes[i] == Good(Collect(probes).value[i])
    decreases |probes|
  {
    if |probes| > 1 {
      CollectIs(probes[1..]);
      assert Last(probes[1..]) == Last(probes);
      assert forall i :: 0 <= i < |probes[1..]| ==> probes[1..][i] == probes[i + 1];
    }
  }

  /** Open runs on a directory exactly when its headers are right and each segment hands off to the next without gap: a
      log with a hole, a foreign header or a torn header before the last file is refused, never skipped. */
  lemma {:induction false} LoadAcceptsIff(dir: Dir, probes: seq<Probe>)
    requires |probes| == |dir|
    ensures Load(dir, probes).Loaded? <==>
      && HeadersOk(probes)
      && forall i, j :: 0 <= i < j < GoodOnes(probes) && j == i + 1 ==> probes[i].meta.End() == probes[j].meta.base
    ensures Load(dir, probes).Loaded? && GoodOnes(probes) > 0 ==>
      |Load(dir, probes).state.segs| == GoodOnes(probes)
      && forall i :: 0 <= i < GoodOnes(probes) ==> probes[i] == Good(Load(dir, probes).state.segs[i])
  {
    CollectIs(probes);
  }

  // ---- What the directory holds ----

  /** The segments cover offsets up to n without gap; only the last may be empty. */
  ghost predicate Chain(segs: seq<SegMeta>, n: nat) {
    && segs != []
    && Handoff(segs)
    && (forall i :: 0 <= i < |segs| - 1 ==> segs[i].records > 0)
    && Last(segs).End() == n
  }

  /** File f is segment m and holds exactly its slice of the log. */
  predicate Stored(o: Options, f: SegFile, m: SegMeta, log: seq<Entry>) {
    && f.base == m.base
    && m.End() <= |log|
    && f.bytes == Image(o, m.base, log[m.base..m.End()])
    && m.bytes == |f.bytes|
  }

  predicate Sealed(o: Options, f: SegFile, m: SegMeta, log: seq<Entry>) {
    Stored(o, f, m, log) && f.synced == |f.bytes|
  }

  predicate AllSealed(o: Options, dir: Dir, segs: seq<SegMeta>, log: seq<Entry>) {
    |dir| == |segs| && forall i :: 0 <= i < |dir| ==> Sealed(o, dir[i], segs[i], log)
  }

  predicate LogOk(o: Options, log: seq<Entry>, acked: nat) {
    AllFit(o, log) && |log| < TWO_64 && acked <= |log|
  }

  /** The first `acked` records are on stable storage, as far as the active file f is concerned. */
  predicate Durable(o: Options, f: SegFile, log: seq<Entry>, acked: nat)
    requires acked <= |log|
  {
    && f.synced <= |f.bytes|
    && (f.base < acked ==> |Image(o, f.base, log[f.base..acked])| <= f.synced)
  }

  /** The invariant of a running log whose completed writes are `log`, the first `acked` acknowledged. */
  ghost predicate Inv(o: Options, s: LogState, log: seq<Entry>, acked: nat) {
    && LogOk(o, log, acked)
    && s.next == |log|
    && Chain(s.segs, |log|)
    && s.dir != []
    && AllSealed(o, Init(s.dir), Init(s.segs), log)
    && Stored(o, Last(s.dir), Last(s.segs), log)
    && Durable(o, Last(s.dir), log, acked)
  }

  /** What any number of crashes can leave of a log that had the segments `segs`: the active file is a
      prefix of its image, no shorter than its synced length, or gone when its header never got out. */
  ghost predicate Damaged(o: Options, dir: Dir, segs: seq<SegMeta>, log: seq<Entry>, acked: nat) {
    && LogOk(o, log, acked)
    && Chain(segs, |log|)
    && (var m := Last(segs);
        if |dir| == |segs| then
          && AllSealed(o, Init(dir), Init(segs), log)
          && Last(dir).base == m.base
          && Last(dir).bytes <= Image(o, m.base, log[m.base..])
          && Durable(o, Last(dir), log, acked)
        else
          AllSealed(o, dir, Init(segs), log) && acked <= m.base)
  }

  lemma {:induction false} HandoffOrder(segs: seq<SegMeta>, i: nat, j: nat)
    requires Handoff(segs) && i < j < |segs|
    ensures segs[i].End() <= segs[j].base
    decreases j
  {
    if i < j - 1 {
      HandoffOrder(segs, i, j - 1);
    }
    assert segs[j - 1].End() == segs[j].base;
  }

  lemma {:induction false} ChainOrder(segs: seq<SegMeta>, n: nat, i: nat, j: nat)
    requires Chain(segs, n) && i < j < |segs|
    ensures segs[i].End() <= segs[j].base && segs[i].base < segs[j].base
    decreases j
  {
    if i + 1 < j {
      ChainOrder(segs, n, i, j - 1);
    }
  }

  lemma {:induction false} InvIsDamaged(o: Options, s: LogState, log: seq<Entry>, acked: nat)
    requires Inv(o, s, log, acked)
    ensures Damaged(o, s.dir, s.segs, log, acked)
  {
    var m := Last(s.segs);
    assert log[m.base..] == log[m.base..m.End()];
  }

  // ---- Every step of the writer keeps the invariant ----

  lemma {:induction false} ChainAppend(segs: seq<SegMeta>, n: nat, m: SegMeta)
    requires Chain(segs, n) && Last(segs).records > 0 && m.base == n
    ensures Chain(segs + [m], m.End())
  {
  }

  lemma {:induction false} ChainReplaceLast(segs: seq<SegMeta>, n: nat, m: SegMeta)
    requires Chain(segs, n) && m.base == Last(segs).base
    ensures Chain(Init(segs) + [m], m.End())
  {
    var r := Init(segs) + [m];
    forall i, j | 0 <= i < j < |r| && j == i + 1
      ensures r[i].End() == r[j].base
    {
      assert segs[i].End() == segs[j].base;
    }
  }

  lemma {:induction false} SyncKeepsInv(o: Options, s: LogState, log: seq<Entry>, acked: nat)
    requires Inv(o, s, log, acked)
    ensures Inv(o, SyncActive(s), log, acked) && Synced(SyncActive(s))
  {
    assert Init(SyncActive(s).dir) == Init(s.dir);
  }

  lemma {:induction false} EmptyStored(o: Options, base: nat, log: seq<Entry>)
    requires base <= |log|
    ensures Stored(o, SegFile(base, Header(base), 0), SegMeta(base, 0, HEADER_LEN), log)
  {
    assert log[base..base] == [];
  }

  lemma {:induction false} CreateKeepsInv(o: Options, s: LogState, log: seq<Entry>, acked: nat)
    requires Inv(o, s, log, acked) && Synced(s) && Last(s.segs).records > 0
    ensures Inv(o, CreateSegment(s), log, acked)
  {
    var r := CreateSegment(s);
    ChainAppend(s.segs, |log|, SegMeta(s.next, 0, HEADER_LEN));
    assert Init(r.dir) == s.dir && Init(r.segs) == s.segs;
    EmptyStored(o, s.next, log);
  }

  lemma {:induction false} SliceGrows(log: seq<Entry>, e: Entry, base: nat, end: nat)
    requires base <= end <= |log|
    ensures (log + [e])[base..end] == log[base..end]
    ensures end == |log| ==> (log + [e])[base..end + 1] == log[base..end] + [e]
  {
  }

  lemma {:induction false} WrittenStored(o: Options, f: SegFile, m: SegMeta, log: seq<Entry>, e: Entry)
    requires |log| == m.End() && Stored(o, f, m, log)
    ensures Stored(o, f.(bytes := f.bytes + Encode(o, e)), SegMeta(m.base, m.records + 1, m.bytes + Size(e)), log + [e])
  {
    SliceGrows(log, e, m.base, m.End());
    ImageExtend(o, m.base, log[m.base..m.End()], e);
  }

  lemma {:induction false} WrittenDurable(o: Options, f: SegFile, log: seq<Entry>, acked: nat, e: Entry)
    requires acked <= |log| && Durable(o, f, log, acked)
    ensures Durable(o, f.(bytes := f.bytes + Encode(o, e)), log + [e], acked)
  {
    if f.base < acked {
      SliceGrows(log, e, f.base, acked);
    }
  }

  lemma {:induction false} WrittenActive(o: Options, f: SegFile, m: SegMeta, log: seq<Entry>, acked: nat, e: Entry)
    requires acked <= |log| == m.End() && Stored(o, f, m, log) && Durable(o, f, log, acked)
    ensures var f' := f.(bytes := f.bytes + Encode(o, e));
      && Stored(o, f', SegMeta(m.base, m.records + 1, m.bytes + Size(e)), log + [e])
      && Durable(o, f', log + [e], acked)
  {
    WrittenStored(o, f, m, log, e);
    WrittenDurable(o, f, log, acked, e);
  }

  /** Sealed segments stay sealed while the log only grows, or shrinks no further than their end. */
  lemma {:induction false} StillSealed(o: Options, dir: Dir, segs: seq<SegMeta>, log: seq<Entry>, log': seq<Entry>)
    requires AllSealed(o, dir, segs, log)
    requires log <= log' || (log' <= log && forall i :: 0 <= i < |segs| ==> segs[i].End() <= |log'|)
    ensures AllSealed(o, dir, segs, log')
  {
    forall i | 0 <= i < |dir|
      ensures Sealed(o, dir[i], segs[i], log')
    {
      assert log'[segs[i].base..segs[i].End()] == log[segs[i].base..segs[i].End()];
    }
  }

  lemma {:induction false} WriteKeepsInv(o: Options, s: LogState, log: seq<Entry>, acked: nat, e: Entry)
    requires Inv(o, s, log, acked) && Fits(o, e) && |log| + 1 < TWO_64
    ensures Inv(o, WriteRecord(o, s, e), log + [e], acked)
  {
    var r, m := WriteRecord(o, s, e), Last(s.segs);
    StillSealed(o, Init(s.dir), Init(s.segs), log, log + [e]);
    WrittenActive(o, Last(s.dir), m, log, acked, e);
    ChainReplaceLast(s.segs, |log|, Last(r.segs));
    assert Init(r.dir) == Init(s.dir) && Init(r.segs) == Init(s.segs);
  }

  /** An acknowledgement is sound once the active file is synced. */
  lemma {:induction false} AckKeepsInv(o: Options, s: LogState, log: seq<Entry>, acked: nat)
    requires Inv(o, s, log, acked) && Synced(s)
    ensures Inv(o, s, log, |log|)
  {
    var m := Last(s.segs);
    assert log[m.base..|log|] == log[m.base..m.End()];
  }

  // ---- Crashes ----

  /** What became of the active file: cut to `keep` bytes, of which `synced` are on stable storage, or
      never entered in the directory. A power loss may keep any length from the synced one up; a killed
      process keeps every completed write and part of the one in flight. */
  datatype Outcome = Kept(keep: nat, synced: nat) | Lost

  predicate Possible(f: SegFile, out: Outcome) {
    match out
    case Kept(keep, synced) => f.synced <= synced <= keep <= |f.bytes|
    case Lost => |f.bytes| < HEADER_LEN || f.synced == 0
  }

  function Crash(dir: Dir, out: Outcome): Dir
    requires dir != [] && Possible(Last(dir), out)
  {
    match out
    case Kept(keep, synced) => Init(dir) + [SegFile(Last(dir).base, Last(dir).bytes[..keep], synced)]
    case Lost => Init(dir)
  }

  lemma {:induction false} CrashKeepsDamaged(o: Options, dir: Dir, segs: seq<SegMeta>, log: seq<Entry>, acked: nat,
                                             out: Outcome)
    requires Damaged(o, dir, segs, log, acked) && |dir| == |segs| && Possible(Last(dir), out)
    ensures Damaged(o, Crash(dir, out), segs, log, acked)
  {
    assert Init(Init(dir) + [Last(dir)]) == Init(dir);
    if out.Kept? {
      assert Init(Crash(dir, out)) == Init(dir);
    }
  }

  // ---- Recovery ----

  lemma {:induction false} ImagePrefix(o: Options, f: SegFile, es: seq<Entry>)
    requires f.base < TWO_64 && f.bytes <= Image(o, f.base, es) && HEADER_LEN <= |f.bytes|
    ensures ReadHeader(f.bytes) == HeaderBase(f.base)
  {
    assert f.bytes[..HEADER_LEN] == Image(o, f.base, es)[..HEADER_LEN] == Header(f.base);
    ReadHeaderOfImage(f.bytes, f.base);
  }

  /** Recovery's reading of one file that survived with its header. */
  lemma {:induction false} ProbePrefix(o: Options, f: SegFile, es: seq<Entry>, k: nat)
    requires f.base < TWO_64 && AllFit(o, es)
    requires f.bytes <= Image(o, f.base, es) && HEADER_LEN <= |f.bytes|
    requires k == CompleteCount(es, |f.bytes| - HEADER_LEN)
    ensures Complete(o, es, |f.bytes| - HEADER_LEN, k)
    ensures ProbeFile(o, f) == Good(SegMeta(f.base, k, |Image(o, f.base, es[..k])|))
  {
    ImagePrefix(o, f, es);
    assert f.bytes == Image(o, f.base, es)[..|f.bytes|];
    CrashAtEveryByte(o, f.base, es, |f.bytes|);
  }

  lemma {:induction false} ProbeStored(o: Options, f: SegFile, m: SegMeta, log: seq<Entry>)
    requires Stored(o, f, m, log) && AllFit(o, log) && |log| < TWO_64
    ensures ProbeFile(o, f) == Good(m)
  {
    var es := log[m.base..m.End()];
    var k := CompleteCount(es, |f.bytes| - HEADER_LEN);
    ProbePrefix(o, f, es, k);
    assert es[..|es|] == es;
    CompleteUnique(o, es, |f.bytes| - HEADER_LEN, k, |es|);
  }

  lemma {:induction false} CollectGood(segs: seq<SegMeta>, probes: seq<Probe>)
    requires |segs| <= |probes| && forall i :: 0 <= i < |segs| ==> probes[i] == Good(segs[i])
    requires probes[|segs|..] == [] || probes[|segs|..] == [TornHeader]
    ensures Collect(probes) == Some(segs)
    decreases |segs|
  {
    if segs == [] {
      assert probes[0..] == probes;
    } else {
      assert probes[1..][|segs[1..]|..] == probes[|segs|..];
      CollectGood(segs[1..], probes[1..]);
      assert segs == [segs[0]] + segs[1..];
    }
  }

  lemma {:induction false} AckedSurvives(o: Options, f: SegFile, log: seq<Entry>, acked: nat, k: nat)
    requires LogOk(o, log, acked) && f.base <= |log| && HEADER_LEN <= |f.bytes| && Durable(o, f, log, acked)
    requires Complete(o, log[f.base..], |f.bytes| - HEADER_LEN, k)
    ensures acked <= f.base + k <= |log|
  {
    if f.base + k < acked {
      var es := log[f.base..];
      assert log[f.base..acked] == es[..acked - f.base];
      if k + 1 < acked - f.base {
        PrefixLengths(o, es, k + 1, acked - f.base);
      }
    }
  }

  lemma {:induction false} TruncatedStored(o: Options, f: SegFile, log: seq<Entry>, k: nat, size: nat)
    requires f.base + k <= |log| && f.bytes <= Image(o, f.base, log[f.base..])
    requires size == |Image(o, f.base, log[f.base..][..k])| <= |f.bytes|
    ensures Stored(o, Truncate(f, size), SegMeta(f.base, k, size), log[..f.base + k])
  {
    var es := log[f.base..];
    EncodedLength(o, es, k);
    assert f.bytes[..size] == Image(o, f.base, es)[..size] == Image(o, f.base, es[..k]);
    assert log[..f.base + k][f.base..f.base + k] == es[..k];
    assert f.bytes[..|f.bytes|] == f.bytes;
  }

  lemma {:induction false} TruncatedDurable(o: Options, f: SegFile, log: seq<Entry>, acked: nat, k: nat, size: nat)
    requires acked <= f.base + k <= |log| && Durable(o, f, log, acked)
    requires size == |Image(o, f.base, log[f.base..][..k])| <= |f.bytes|
    ensures Durable(o, Truncate(f, size), log[..f.base + k], acked)
  {
    if f.base < acked {
      var es := log[f.base..];
      assert log[f.base..acked] == es[..acked - f.base] == log[..f.base + k][f.base..acked];
      if acked - f.base < k {
        PrefixLengths(o, es, acked - f.base, k);
      }
    }
  }

  /** Recovery is possible unless the only segment left starts past 0 and lost its header. */
  predicate Recoverable(dir: Dir, segs: seq<SegMeta>) {
    || |segs| > 1
    || (segs != [] && segs[0].base == 0)
    || (dir != [] && HEADER_LEN <= |Last(dir).bytes|)
  }

  lemma {:induction false} ProbeSealed(o: Options, dir: Dir, segs: seq<SegMeta>, log: seq<Entry>)
    requires AllSealed(o, dir, segs, log) && AllFit(o, log) && |log| < TWO_64
    ensures forall i :: 0 <= i < |dir| ==> ProbeFile(o, dir[i]) == Good(segs[i])
  {
    forall i | 0 <= i < |dir|
      ensures ProbeFile(o, dir[i]) == Good(segs[i])
    {
      ProbeStored(o, dir[i], segs[i], log);
    }
  }

  /** The state after recovery when the active file survived with its header and m complete records. */
  lemma {:induction false} TornTail(o: Options, dir: Dir, segs: seq<SegMeta>, log: seq<Entry>, acked: nat,
                                    probes: seq<Probe>, m: SegMeta)
    requires Damaged(o, dir, segs, log, acked) && |dir| == |segs| == |probes|
    requires m.base == Last(segs).base && m.End() <= |log|
    requires forall i :: 0 <= i < |dir| - 1 ==> probes[i] == Good(segs[i])
    requires Last(probes) == Good(m)
    requires Stored(o, Truncate(Last(dir), m.bytes), m, log[..m.End()])
    requires acked <= m.End() && Durable(o, Truncate(Last(dir), m.bytes), log[..m.End()], acked)
    ensures Load(dir, probes).Loaded? && Inv(o, Load(dir, probes).state, log[..m.End()], acked)
  {
    var segs', n := Init(segs) + [m], m.End();
    CollectGood(segs', probes);
    ChainReplaceLast(segs, |log|, m);
    assert Init(segs') == Init(segs);
    var r := LogState(Init(dir) + [Truncate(Last(dir), m.bytes)], segs', n);
    assert Load(dir, probes) == Loaded(r);
    assert Init(r.dir) == Init(dir);
    assert AllSealed(o, Init(dir), Init(segs), log[..n]) by {
      forall j | 0 <= j < |segs| - 1
        ensures segs[j].End() <= n
      {
        ChainOrder(segs, |log|, j, |segs| - 1);
      }
      StillSealed(o, Init(dir), Init(segs), log, log[..n]);
    }
  }

  /** How many records recovery counts in the active file, and where they end. */
  lemma {:induction false} RecoverCount(o: Options, f: SegFile, log: seq<Entry>, acked: nat) returns (k: nat, size: nat)
    requires LogOk(o, log, acked) && f.base <= |log|
    requires f.bytes <= Image(o, f.base, log[f.base..]) && HEADER_LEN <= |f.bytes| && Durable(o, f, log, acked)
    ensures acked <= f.base + k <= |log| && ProbeFile(o, f) == Good(SegMeta(f.base, k, size))
    ensures size == |Image(o, f.base, log[f.base..][..k])| <= |f.bytes|
  {
    var es := log[f.base..];
    k := CompleteCount(es, |f.bytes| - HEADER_LEN);
    ProbePrefix(o, f, es, k);
    size := |Image(o, f.base, es[..k])|;
    AckedSurvives(o, f, log, acked, k);
  }

  /** What recovery makes of the active file alone. */
  lemma {:induction false} RecoverActive(o: Options, f: SegFile, log: seq<Entry>, acked: nat) returns (m: SegMeta)
    requires LogOk(o, log, acked) && f.base <= |log|
    requires f.bytes <= Image(o, f.base, log[f.base..]) && HEADER_LEN <= |f.bytes| && Durable(o, f, log, acked)
    ensures ProbeFile(o, f) == Good(m) && m.base == f.base && acked <= m.End() <= |log|
    ensures Stored(o, Truncate(f, m.bytes), m, log[..m.End()])
    ensures Durable(o, Truncate(f, m.bytes), log[..m.End()], acked)
  {
    var k, size := RecoverCount(o, f, log, acked);
    m := SegMeta(f.base, k, size);
    TruncatedStored(o, f, log, k, size);
    TruncatedDurable(o, f, log, acked, k, size);
  }

  /** A log whose segments are all sealed is a good log; its last one is active again. */
  lemma {:induction false} SealedInv(o: Options, dir: Dir, segs: seq<SegMeta>, log: seq<Entry>, acked: nat)
    requires LogOk(o, log, acked) && Chain(segs, |log|) && AllSealed(o, dir, segs, log)
    ensures Inv(o, LogState(dir, segs, |log|), log, acked)
  {
    if Last(segs).base < acked {
      SealedDurable(o, Last(dir), Last(segs), log, acked);
    }
  }

  /** Segments whose probes are all good load as they are, up to a torn header at the end. */
  lemma {:induction false} LoadsSealed(o: Options, dir: Dir, segs: seq<SegMeta>, log: seq<Entry>, probes: seq<Probe>)
    requires |probes| == |dir| && 0 < |segs| <= |dir| && Chain(segs, |log|) && AllSealed(o, dir[..|segs|], segs, log)
    requires forall i :: 0 <= i < |segs| ==> probes[i] == Good(segs[i])
    requires probes[|segs|..] == [] || probes[|segs|..] == [TornHeader]
    ensures Load(dir, probes) == Loaded(LogState(dir[..|segs|], segs, |log|))
  {
    var i, m := |segs| - 1, Last(segs);
    CollectGood(segs, probes);
    assert dir[..i + 1][i] == dir[i];
    assert Truncate(dir[i], m.bytes) == dir[i] && dir[..i] + [dir[i]] == dir[..i + 1];
  }

  lemma {:induction false} InitChain(segs: seq<SegMeta>, n: nat)
    requires Chain(segs, n) && |segs| > 1
    ensures Chain(Init(segs), Last(segs).base) && Last(segs).base <= n
    ensures forall j :: 0 <= j < |segs| - 1 ==> segs[j].End() <= Last(segs).base
  {
    var i := |segs| - 2;
    assert segs[i].End() == segs[i + 1].base;
    forall j | 0 <= j < |segs| - 1
      ensures segs[j].End() <= Last(segs).base
    {
      ChainOrder(segs, n, j, i + 1);
    }
  }

  /** The active file is gone, or torn inside its header: the previous segment becomes active. */
  lemma {:induction false} TornHead(o: Options, dir: Dir, segs: seq<SegMeta>, log: seq<Entry>, acked: nat,
                                    probes: seq<Probe>)
    requires LogOk(o, log, acked) && Chain(segs, |log|) && |segs| > 1 && acked <= Last(segs).base
    requires |probes| == |dir| && |dir| >= |segs| - 1 && AllSealed(o, dir[..|segs| - 1], Init(segs), log)
    requires forall i :: 0 <= i < |segs| - 1 ==> probes[i] == Good(segs[i])
    requires probes[|segs| - 1..] == [] || probes[|segs| - 1..] == [TornHeader]
    ensures Load(dir, probes).Loaded? && Inv(o, Load(dir, probes).state, log[..Last(segs).base], acked)
  {
    InitChain(segs, |log|);
    BackToSealed(o, dir, Init(segs), log, acked, probes, log[..Last(segs).base]);
  }

  lemma {:induction false} BackToSealed(o: Options, dir: Dir, segs: seq<SegMeta>, log: seq<Entry>, acked: nat,
                                        probes: seq<Probe>, log': seq<Entry>)
    requires LogOk(o, log, acked) && log' <= log && acked <= |log'| && Chain(segs, |log'|)
    requires |probes| == |dir| && |dir| >= |segs| && AllSealed(o, dir[..|segs|], segs, log)
    requires forall i :: 0 <= i < |segs| ==> probes[i] == Good(segs[i]) && segs[i].End() <= |log'|
    requires probes[|segs|..] == [] || probes[|segs|..] == [TornHeader]
    ensures Load(dir, probes).Loaded? && Inv(o, Load(dir, probes).state, log', acked)
  {
    StillSealed(o, dir[..|segs|], segs, log, log');
    LoadsSealed(o, dir, segs, log', probes);
    SealedInv(o, dir[..|segs|], segs, log', acked);
  }

  lemma {:induction false} SealedDurable(o: Options, f: SegFile, m: SegMeta, log: seq<Entry>, acked: nat)
    requires Sealed(o, f, m, log) && m.base < acked <= m.End()
    ensures Durable(o, f, log, acked)
  {
    var es := log[m.base..m.End()];
    assert log[m.base..acked] == es[..acked - m.base];
    EncodedLength(o, es, acked - m.base);
  }

  /** What open finds when the last header is whole. */
  lemma {:induction false} TailProbed(o: Options, dir: Dir, segs: seq<SegMeta>, log: seq<Entry>, acked: nat)
    returns (m: SegMeta)
    requires Damaged(o, dir, segs, log, acked) && |dir| == |segs| && HEADER_LEN <= |Last(dir).bytes|
    ensures forall i :: 0 <= i < |dir| - 1 ==> ProbeAll(o, dir)[i] == Good(segs[i])
    ensures Last(ProbeAll(o, dir)) == ProbeFile(o, Last(dir)) == Good(m)
    ensures m.base == Last(segs).base && acked <= m.End() <= |log|
    ensures Stored(o, Truncate(Last(dir), m.bytes), m, log[..m.End()])
    ensures Durable(o, Truncate(Last(dir), m.bytes), log[..m.End()], acked)
  {
    ProbeSealed(o, Init(dir), Init(segs), log);
    m := RecoverActive(o, Last(dir), log, acked);
  }

  lemma {:induction false} LoadTornTail(o: Options, dir: Dir, segs: seq<SegMeta>, log: seq<Entry>, acked: nat)
    returns (n: nat)
    requires Damaged(o, dir, segs, log, acked) && |dir| == |segs| && HEADER_LEN <= |Last(dir).bytes|
    ensures acked <= n <= |log| && RecoversTo(o, dir, log[..n], acked)
  {
    var m := TailProbed(o, dir, segs, log, acked);
    TornTail(o, dir, segs, log, acked, ProbeAll(o, dir), m);
    n := m.End();
  }

  lemma {:induction false} LoadTornHead(o: Options, dir: Dir, segs: seq<SegMeta>, log: seq<Entry>, acked: nat)
    requires Damaged(o, dir, segs, log, acked) && |segs| > 1 && acked <= Last(segs).base
    requires |dir| == |segs| ==> |Last(dir).bytes| < HEADER_LEN
    ensures RecoversTo(o, dir, log[..Last(segs).base], acked)
  {
    var probes, n := ProbeAll(o, dir), |segs| - 1;
    assert AllSealed(o, dir[..n], Init(segs), log) by {
      if |dir| < |segs| {
        assert dir[..n] == dir;
      }
    }
    ProbeSealed(o, dir[..n], Init(segs), log);
    assert probes[n..] == [] || probes[n..] == [TornHeader] by {
      if |dir| == |segs| {
        assert probes[n] == TornHeader;
      }
    }
    TornHead(o, dir, segs, log, acked, probes);
  }

  ghost predicate RecoversTo(o: Options, dir: Dir, log: seq<Entry>, acked: nat) {
    var r := Load(dir, ProbeAll(o, dir));
    r.Loaded? && Inv(o, r.state, log, acked)
  }

  lemma {:induction false} LoadNothing(o: Options, dir: Dir)
    requires dir == [] || (|dir| == 1 && |dir[0].bytes| < HEADER_LEN)
    ensures Load(dir, ProbeAll(o, dir)) == Loaded(Fresh(0))
  {
    CollectGood([], ProbeAll(o, dir));
  }

  lemma {:induction false} FreshInv(o: Options, base: nat, log: seq<Entry>, acked: nat)
    requires LogOk(o, log, acked) && base == |log|
    ensures Inv(o, Fresh(base), log, acked)
  {
    EmptyStored(o, base, log);
  }

  /** After any crashes, open succeeds: the recovered log is a prefix of what was written that holds every
      acknowledged record, the next offset is its length, and the invariant is back. */
  lemma {:induction false} LoadRecovers(o: Options, dir: Dir, segs: seq<SegMeta>, log: seq<Entry>, acked: nat)
    returns (n: nat)
    requires Damaged(o, dir, segs, log, acked) && Recoverable(dir, segs)
    ensures acked <= n <= |log| && RecoversTo(o, dir, log[..n], acked)
  {
    if |dir| == |segs| && HEADER_LEN <= |Last(dir).bytes| {
      n := LoadTornTail(o, dir, segs, log, acked);
    } else {
      assert acked <= Last(segs).base;
      n := Last(segs).base;
      if |segs| > 1 {
        LoadTornHead(o, dir, segs, log, acked);
      } else {
        LoadNothing(o, dir);
        FreshInv(o, n, log[..n], acked);
      }
    }
  }

  lemma {:induction false} LoadedSegments(dir: Dir, probes: seq<Probe>, segs: seq<SegMeta>)
    requires |probes| == |dir| && segs != [] && Collect(probes) == Some(segs) && Load(dir, probes).Loaded?
    ensures Load(dir, probes).state.segs == segs
  {
  }

  /** The segments found: those there were, the last one as it scans; without it when its header is torn. */
  lemma {:induction false} LoadedTail(o: Options, dir: Dir, segs: seq<SegMeta>, log: seq<Entry>, acked: nat)
    requires Damaged(o, dir, segs, log, acked) && |dir| == |segs| && HEADER_LEN <= |Last(dir).bytes|
    ensures ProbeFile(o, Last(dir)).Good? && ProbeFile(o, Last(dir)).meta.base == Last(segs).base
    ensures Load(dir, ProbeAll(o, dir)).Loaded?
    ensures Load(dir, ProbeAll(o, dir)).state.segs == Init(segs) + [ProbeFile(o, Last(dir)).meta]
  {
    var probes := ProbeAll(o, dir);
    var m := TailProbed(o, dir, segs, log, acked);
    TornTail(o, dir, segs, log, acked, probes, m);
    CollectGood(Init(segs) + [m], probes);
    LoadedSegments(dir, probes, Init(segs) + [m]);
  }

  lemma {:induction false} LoadedHead(o: Options, dir: Dir, segs: seq<SegMeta>, log: seq<Entry>, acked: nat)
    requires Damaged(o, dir, segs, log, acked) && |segs| > 1 && (|dir| == |segs| ==> |Last(dir).bytes| < HEADER_LEN)
    ensures Load(dir, ProbeAll(o, dir)).Loaded? ==> Load(dir, ProbeAll(o, dir)).state.segs == Init(segs)
  {
    var probes, n := ProbeAll(o, dir), |segs| - 1;
    assert AllSealed(o, dir[..n], Init(segs), log) by {
      if |dir| < |segs| {
        assert dir[..n] == dir;
      }
    }
    ProbeSealed(o, dir[..n], Init(segs), log);
    assert probes[n..] == [] || probes[n..] == [TornHeader] by {
      if |dir| == |segs| {
        assert probes[n] == TornHeader;
      }
    }
    CollectGood(Init(segs), probes);
  }

  /** Opening keeps the oldest segment. */
  lemma {:induction false} LoadKeepsOldest(o: Options, dir: Dir, segs: seq<SegMeta>, log: seq<Entry>, acked: nat)
    requires Damaged(o, dir, segs, log, acked) && Recoverable(dir, segs)
    ensures Load(dir, ProbeAll(o, dir)).Loaded? ==>
      var s := Load(dir, ProbeAll(o, dir)).state; s.segs != [] && s.segs[0].base == segs[0].base
  {
    if |dir| == |segs| && HEADER_LEN <= |Last(dir).bytes| {
      LoadedTail(o, dir, segs, log, acked);
    } else if |segs| > 1 {
      LoadedHead(o, dir, segs, log, acked);
    } else {
      LoadNothing(o, dir);
    }
  }

  /** The one exception: the only segment left starts past 0 and its header is torn. Then open starts an
      empty log and hands out offsets from 0 again: no recovered prefix holds what was acknowledged. */
  lemma {:induction false} LoneTornHeaderRestarts(o: Options, dir: Dir, segs: seq<SegMeta>, log: seq<Entry>, acked: nat,
                                                  n: nat)
    requires Damaged(o, dir, segs, log, acked) && !Recoverable(dir, segs)
    requires 0 < acked <= n <= |log|
    ensures Load(dir, ProbeAll(o, dir)) == Loaded(Fresh(0)) && !RecoversTo(o, dir, log[..n], acked)
  {
    LoadNothing(o, dir);
  }
}
