/** The log as the program runs it: an object over a directory, updated in place
    (internal/wal/wal.go). Each method is proved against the step functions of module Wal. */
module WalLog {
  import opened Base
  import opened Bytes
  import opened Segment
  import opened Wal

  /** The part that outlives the process. */
  class Disk {
    var dir: Dir

    constructor ()
      ensures dir == []
    {
      dir := [];
    }
  }

  class Log {
    const o: Options
    const disk: Disk
    var segs: seq<SegMeta>
    var next: nat
    var lastSync: Option<int>

    constructor (o: Options, disk: Disk, segs: seq<SegMeta>, next: nat)
      ensures this.o == o && this.disk == disk && this.segs == segs && this.next == next && lastSync == None
    {
      this.o, this.disk, this.segs, this.next, lastSync := o, disk, segs, next, None;
    }

    function State(): LogState
      reads this, disk
    {
      LogState(disk.dir, segs, next)
    }

    /** f.Sync on the active file. */
    method SyncFile()
      requires Open(State())
      modifies disk
      ensures State() == SyncActive(old(State()))
    {
      var f := Last(disk.dir);
      disk.dir := Init(disk.dir) + [f.(synced := |f.bytes|)];
    }

    /** roll: sync and seal the active file, then create the next. */
    method Roll()
      requires Open(State())
      modifies this`segs, this`next, disk
      ensures State() == CreateSegment(SyncActive(old(State())))
    {
      SyncFile();
      disk.dir := disk.dir + [SegFile(next, Header(next), 0)];
      segs := segs + [SegMeta(next, 0, HEADER_LEN)];
    }

    /** f.Write of one encoded record, then the bookkeeping. */
    method Put(e: Entry) returns (offset: nat)
      requires Open(State())
      modifies this`segs, this`next, disk
      ensures State() == WriteRecord(o, old(State()), e)
      ensures offset == old(next)
    {
      var f, m := Last(disk.dir), Last(segs);
      disk.dir := Init(disk.dir) + [f.(bytes := f.bytes + Encode(o, e))];
      segs := Init(segs) + [SegMeta(m.base, m.records + 1, m.bytes + Size(e))];
      offset, next := next, next + 1;
    }

    /** The body of writeBatch's loop. */
    method WriteOne(e: Entry) returns (offset: nat)
      requires Open(State())
      modifies this`segs, this`next, disk
      ensures State() == AppendOne(o, old(State()), e)
      ensures offset == old(next) && next == offset + 1
    {
      if Last(segs).bytes + Size(e) > o.segmentBytes && Last(segs).records > 0 {
        Roll();
      }
      offset := Put(e);
      if o.policy == SyncAlways {
        SyncFile();
      }
    }

    /** The writer's collection of a batch: `first` is there, `arrivals` come in turn, and the timer fires after so
        many. */
    method Gather(first: Entry, arrivals: seq<Entry>, fires: nat) returns (batch: seq<Entry>, fired: bool)
      requires fires <= |arrivals|
      ensures Gathered(o, batch, fired) && |batch| <= fires + 1 && batch == [first] + arrivals[..|batch| - 1]
      ensures fired ==> |batch| == fires + 1
    {
      batch, fired := [first], false;
      if o.policy == SyncAlways {
        return;
      }
      var bytes, i := Size(first), 0;
      while bytes < o.maxBatchBytes && i < fires
        invariant 0 <= i <= fires && batch == [first] + arrivals[..i] && bytes == BatchBytes(batch)
        invariant forall k :: 0 < k < |batch| ==> BatchBytes(batch[..k]) < o.maxBatchBytes
      {
        ghost var before := batch;
        bytes, batch := bytes + Size(arrivals[i]), batch + [arrivals[i]];
        assert Init(batch) == before && forall k :: 0 < k < |before| ==> batch[..k] == before[..k];
        assert batch[..|before|] == before;
        i := i + 1;
      }
      fired := bytes < o.maxBatchBytes;
    }

    /** writeBatch: append every record, then sync as the policy says. `now` is the clock at its test, `later` after the
        sync. */
    method WriteBatch(es: seq<Entry>, now: int, later: int) returns (offsets: seq<nat>)
      requires Open(State())
      modifies this`segs, this`next, this`lastSync, disk
      ensures State() == BatchWritten(o, old(State()), es, Due(o, old(lastSync), now))
      ensures lastSync == if o.policy == SyncInterval && Due(o, old(lastSync), now) then Some(later) else old(lastSync)
      ensures |offsets| == |es| && forall i :: 0 <= i < |es| ==> offsets[i] == old(next) + i
    {
      offsets := [];
      var i := 0;
      while i < |es|
        invariant 0 <= i <= |es| && |offsets| == i && lastSync == old(lastSync)
        invariant State() == AppendAll(o, old(State()), es[..i])
        invariant next == old(next) + i
        invariant forall j :: 0 <= j < i ==> offsets[j] == old(next) + j
      {
        var offset := WriteOne(es[i]);
        offsets := offsets + [offset];
        i := i + 1;
        PrefixStep(es, i);
      }
      assert es[..i] == es;
      match o.policy {
        case SyncBatched =>
          SyncFile();
        case SyncAlways =>
        case SyncInterval =>
          if lastSync.None? || now - lastSync.value >= o.batchWindow {
            SyncFile();
            lastSync := Some(later);
          }
      }
    }

    /** Append: too large a record is refused before anything is written. */
    method Append(e: Entry, now: int, later: int) returns (r: Option<nat>)
      requires Open(State())
      modifies this`segs, this`next, this`lastSync, disk
      ensures r.None? <==> BodyLen(e) > o.maxRecordBytes
      ensures r.None? ==> State() == old(State()) && lastSync == old(lastSync)
      ensures r.Some? ==> r.value == old(next)
      ensures r.Some? ==> State() == BatchWritten(o, old(State()), [e], Due(o, old(lastSync), now))
    {
      if |e.payload| + BODY_FIXED_LEN > o.maxRecordBytes {
        return None;
      }
      var offsets := WriteBatch([e], now, later);
      return Some(offsets[0]);
    }
  }

  lemma {:induction false} PrefixStep<T>(s: seq<T>, i: nat)
    requires 0 < i <= |s|
    ensures Init(s[..i]) == s[..i - 1] && Last(s[..i]) == s[i - 1]
  {
  }

  method Probe1(o: Options, f: SegFile) returns (p: Probe)
    ensures p == ProbeFile(o, f)
  {
    var h := ReadHeader(f.bytes);
    if h.BadHeader? {
      return TornHeader;
    }
    if h.base != f.base {
      return WrongBase;
    }
    var n, size := ScanSegment(o, f.bytes);
    return Good(SegMeta(h.base, n, size));
  }

  /** The loop over the listed segments. */
  method CollectSegments(o: Options, dir: Dir) returns (r: Option<seq<SegMeta>>)
    ensures r == Collect(ProbeAll(o, dir))
  {
    ghost var probes := ProbeAll(o, dir);
    var metas, i := [], 0;
    assert probes[0..] == probes && forall x: seq<SegMeta> :: [] + x == x;
    while i < |dir|
      invariant 0 <= i <= |dir| && |metas| == i
      invariant Collect(probes) ==
        var rest := Collect(probes[i..]); if rest.None? then None else Some(metas + rest.value)
    {
      var p := Probe1(o, dir[i]);
      assert probes[i..][0] == p && probes[i..][1..] == probes[i + 1..];
      match p {
        case TornHeader =>
          if i == |dir| - 1 {
            assert metas + [] == metas;
            return Some(metas);
          }
          return None;
        case WrongBase =>
          return None;
        case Good(m) =>
          ghost var rest := Collect(probes[i + 1..]);
          assert rest.Some? ==> metas + ([m] + rest.value) == (metas + [m]) + rest.value;
          metas := metas + [m];
          i := i + 1;
      }
    }
    assert probes[i..] == [] && metas + [] == metas;
    return Some(metas);
  }

  method ChainHolds(segs: seq<SegMeta>) returns (ok: bool)
    ensures ok <==> Handoff(segs)
  {
    var i := 0;
    while i + 1 < |segs|
      invariant 0 <= i && (segs != [] ==> i < |segs|)
      invariant forall a, b :: 0 <= a < b < |segs| && b == a + 1 && b <= i ==> segs[a].End() == segs[b].base
    {
      if segs[i].End() != segs[i + 1].base {
        return false;
      }
      i := i + 1;
    }
    return true;
  }

  /** Open with load: the state found in the directory, or None for a reported corruption. */
  method OpenLog(o: Options, disk: Disk) returns (r: Option<Log>)
    modifies disk
    ensures r.Some? <==> Load(old(disk.dir), ProbeAll(o, old(disk.dir))).Loaded?
    ensures r.Some? ==> fresh(r.value) && r.value.o == o && r.value.disk == disk && r.value.lastSync == None
    ensures r.Some? ==> r.value.State() == Load(old(disk.dir), ProbeAll(o, old(disk.dir))).state
  {
    var dir := disk.dir;
    var found := CollectSegments(o, dir);
    if found.None? {
      return None;
    }
    var segs := found.value;
    disk.dir := dir[..|segs|];  // a torn last file is removed
    if segs == [] {
      disk.dir := [SegFile(0, Header(0), 0)];
      var fresh0 := new Log(o, disk, [SegMeta(0, 0, HEADER_LEN)], 0);
      return Some(fresh0);
    }
    var ok := ChainHolds(segs);
    if !ok {
      return None;
    }
    var n, last := |segs| - 1, Last(segs);
    disk.dir := disk.dir[..n] + [Truncate(disk.dir[n], last.bytes)];
    var log := new Log(o, disk, segs, last.End());
    return Some(log);
  }
}
