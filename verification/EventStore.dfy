/** The store object: append, flush, refresh and scan, as the program runs them
    (internal/eventstore/store.go, internal/eventstore/query.go). */
module EventStore {
  import opened Base
  import opened Rows
  import opened Sorting
  import opened Store
  import opened Compaction
  import Hll

  datatype ScanResult = NeedsProject | Rows(rows: seq<Event>)

  // ---- Scan ----

  /** Reading one row group row by row until the limit. */
  method ScanRows(q: Query, rows: seq<Event>, limit: nat) returns (out: seq<Event>)
    ensures out == Take(Filter(q, rows), limit)
  {
    out := [];
    var i := 0;
    while i < |rows| && |out| < limit
      invariant 0 <= i <= |rows| && |out| <= limit
      invariant out == Take(FilterTo(q, rows, i), limit) && |out| == |FilterTo(q, rows, i)|
    {
      if Match(q, rows[i]) {
        out := out + [rows[i]];
      }
      i := i + 1;
    }
    FilterGrows(q, rows, i, |rows|);
  }

  /** One row group: time and Bloom pruning, then the row filter. */
  method ScanGroup(q: Query, g: RowGroup, limit: nat) returns (out: seq<Event>)
    requires GroupOk(g) && Rows.Sorted(GroupRows(g))
    ensures out == Take(Filter(q, GroupRows(g)), limit)
  {
    if TimePruned(q, g) {
      TimePrunedIsEmpty(q, g);
      return [];
    }
    if BloomPruned(q, g) {
      BloomPrunedIsEmpty(q, g);
      return [];
    }
    out := ScanRows(q, GroupRows(g), limit);
  }

  /** scanSegment: the loop over row groups. */
  method ScanSegment(q: Query, s: Segment, limit: nat) returns (out: seq<Event>)
    requires SegmentOk(s)
    ensures out == Take(Filter(q, SegRows(s)), limit)
  {
    out := [];
    var g := 0;
    while g < |s.groups|
      invariant 0 <= g <= |s.groups| && |out| <= limit
      invariant out == Take(Filter(q, RowsOf(s.groups, g)), limit)
    {
      GroupSorted(s.groups, |s.groups|, g);
      var part := [];
      if |out| < limit {
        part := ScanGroup(q, s.groups[g], limit - |out|);
      }
      NextPart(q, RowsOf(s.groups, g), GroupRows(s.groups[g]), out, part, limit);
      out := out + part;
      g := g + 1;
    }
  }

  /** What a query reads of one manifest entry: nothing when the entry rules it out, else the rows of its file. */
  function EntryRows(q: Query, m: SegMeta, files: Files): seq<Event> {
    if SegmentMayMatch(q, m) then FileRows(files, m.path) else []
  }

  /** The buffered rows, then what is read of the first n entries. */
  function ReadRows(q: Query, buf: seq<Event>, segs: seq<SegMeta>, files: Files, n: nat): seq<Event>
    requires n <= |segs|
  {
    if n == 0 then buf else ReadRows(q, buf, segs, files, n - 1) + EntryRows(q, segs[n - 1], files)
  }

  /** One manifest entry: skipped when the manifest rules it out, else scanned. */
  method ScanEntry(q: Query, m: SegMeta, files: Files, limit: nat) returns (out: seq<Event>)
    requires Openable(m, files)
    ensures out == Take(Filter(q, EntryRows(q, m, files)), limit)
  {
    if !SegmentMayMatch(q, m) || limit == 0 {
      return [];
    }
    out := ScanSegment(q, files[m.path], limit);
  }

  /** The manifest entry has its file. */
  ghost predicate Openable(m: SegMeta, files: Files) {
    m.path in files && SegmentOk(files[m.path])
  }

  ghost predicate AllOpenable(segs: seq<SegMeta>, files: Files) {
    forall i {:trigger Openable(segs[i], files)} :: 0 <= i < |segs| ==> Openable(segs[i], files)
  }

  /** What is shown of the buffer and the first n segments, up to the limit. */
  ghost predicate Scanned(q: Query, buf: seq<Event>, segs: seq<SegMeta>, files: Files, n: nat, limit: nat,
                          out: seq<Event>) {
    n <= |segs| && |out| <= limit && out == Take(Filter(q, ReadRows(q, buf, segs, files, n)), limit)
  }

  lemma {:induction false} ScannedBuffer(q: Query, buf: seq<Event>, segs: seq<SegMeta>, files: Files, limit: nat)
    ensures Scanned(q, buf, segs, files, 0, limit, Take(Filter(q, buf), limit))
  {
  }

  lemma {:induction false} ScannedMore(q: Query, buf: seq<Event>, segs: seq<SegMeta>, files: Files, n: nat, limit: nat,
                                       out: seq<Event>, part: seq<Event>)
    requires Scanned(q, buf, segs, files, n, limit, out) && n < |segs|
    requires part == Take(Filter(q, EntryRows(q, segs[n], files)), limit - |out|)
    ensures Scanned(q, buf, segs, files, n + 1, limit, out + part)
  {
    NextPart(q, ReadRows(q, buf, segs, files, n), EntryRows(q, segs[n], files), out, part, limit);
  }

  /** The hot tier, then the warm tier. */
  method ScanTiers(q: Query, buf: seq<Event>, segs: seq<SegMeta>, files: Files, limit: nat) returns (out: seq<Event>)
    requires AllOpenable(segs, files)
    ensures Scanned(q, buf, segs, files, |segs|, limit, out)
  {
    out := ScanRows(q, buf, limit);
    ScannedBuffer(q, buf, segs, files, limit);
    var i := 0;
    while i < |segs|
      invariant 0 <= i <= |segs| && Scanned(q, buf, segs, files, i, limit, out)
    {
      assert Openable(segs[i], files);
      var part := ScanEntry(q, segs[i], files, limit - |out|);
      ScannedMore(q, buf, segs, files, i, limit, out, part);
      out := out + part;
      i := i + 1;
    }
  }

  /** Entries that describe their files rule out no match. */
  lemma {:induction false} PruningDropsNothing(o: Options, q: Query, buf: seq<Event>, segs: seq<SegMeta>, files: Files,
                                               n: nat)
    requires FilesOk(o, files) && Registered(segs, files) && n <= |segs|
    ensures Filter(q, ReadRows(q, buf, segs, files, n)) == Filter(q, TierRows(buf, segs, files, n))
  {
    if n > 0 {
      var m := segs[n - 1];
      assert FileOk(o, m.path, files[m.path]);
      if !SegmentMayMatch(q, m) {
        PrunedSegmentIsEmpty(q, m, files[m.path]);
      }
      PruningDropsNothing(o, q, buf, segs, files, n - 1);
      FilterConcat(q, ReadRows(q, buf, segs, files, n - 1), EntryRows(q, m, files));
      FilterConcat(q, TierRows(buf, segs, files, n - 1), FileRows(files, m.path));
    }
  }

  lemma {:induction false} FilesOpen(o: Options, segs: seq<SegMeta>, files: Files)
    requires FilesOk(o, files) && forall i :: 0 <= i < |segs| ==> segs[i].path in files
    ensures AllOpenable(segs, files)
  {
    forall i | 0 <= i < |segs|
      ensures Openable(segs[i], files)
    {
      assert FileOk(o, segs[i].path, files[segs[i].path]);
    }
  }

  // ---- Listing the directory ----

  /** The walk of the store directory: every segment file once. */
  ghost predicate Lists(listing: seq<Path>, files: Files) {
    (forall p :: p in files <==> p in listing) && AllDistinct(listing)
  }

  /** The walk, in whatever order it comes. */
  method Walk(files: Files) returns (listing: seq<Path>)
    ensures Lists(listing, files)
  {
    listing := [];
    var rest := files.Keys;
    while rest != {}
      invariant rest <= files.Keys && AllDistinct(listing)
      invariant forall i :: 0 <= i < |listing| ==> listing[i] in files && listing[i] !in rest
      invariant forall p :: p in files ==> p in rest || p in listing
      decreases |rest|
    {
      var p :| p in rest;
      rest := rest - {p};
      listing := listing + [p];
    }
  }

  /** The listed paths not yet known. */
  function Unknown(listing: seq<Path>, known: set<Path>, n: nat): seq<Path>
    requires n <= |listing|
  {
    if n == 0 then []
    else if listing[n - 1] in known then Unknown(listing, known, n - 1)
    else Unknown(listing, known, n - 1) + [listing[n - 1]]
  }

  lemma {:induction false} UnknownAre(listing: seq<Path>, known: set<Path>, n: nat)
    requires n <= |listing|
    ensures forall p :: p in Unknown(listing, known, n) <==> p in listing[..n] && p !in known
  {
    if n > 0 {
      UnknownAre(listing, known, n - 1);
      TakeSnoc(listing, n);
    }
  }

  lemma {:induction false} UnknownDistinct(listing: seq<Path>, known: set<Path>, n: nat)
    requires n <= |listing| && AllDistinct(listing)
    ensures AllDistinct(Unknown(listing, known, n))
  {
    if n > 0 {
      UnknownDistinct(listing, known, n - 1);
      UnknownAre(listing, known, n - 1);
    }
  }

  /** The entries of listed files show their rows. */
  lemma {:induction false} EntriesShow(paths: seq<Path>, segs: seq<SegMeta>, files: Files, n: nat)
    requires EntriesOf(paths, |paths|, segs, files) && n <= |paths|
    ensures Bag(segs[..n], files) == PathsBag(paths[..n], files)
  {
    if n > 0 {
      EntriesShow(paths, segs, files, n - 1);
      TakeSnoc(segs, n);
      TakeSnoc(paths, n);
      BagSnoc(segs[..n - 1], segs[n - 1], files);
      PathsBagConcat(paths[..n - 1], [paths[n - 1]], files);
      PathsBagOne(paths[n - 1], files);
    }
  }

  lemma {:induction false} AllEntriesShow(paths: seq<Path>, segs: seq<SegMeta>, files: Files)
    requires EntriesOf(paths, |paths|, segs, files)
    ensures Bag(segs, files) == PathsBag(paths, files)
  {
    EntriesShow(paths, segs, files, |paths|);
    assert segs[..|paths|] == segs && paths[..|paths|] == paths;
  }

  // ---- The manifest ----

  lemma {:induction false} RegisteredSort(a: seq<SegMeta>, b: seq<SegMeta>, files: Files)
    requires Registered(a, files) && Registered(b, files)
    ensures Registered(Sort(SegOrder(), a + b), files)
  {
    var s := Sort(SegOrder(), a + b);
    forall i | 0 <= i < |s|
      ensures s[i].path in files && s[i] == MetaOf(s[i].path, files[s[i].path])
    {
      SortMembers(SegOrder(), a + b, s[i]);
      assert s[i] in a || s[i] in b;
    }
  }

  lemma {:induction false} SortKeepsKnown(a: seq<SegMeta>, b: seq<SegMeta>, known: set<Path>)
    requires forall i :: 0 <= i < |a| ==> a[i].path in known
    ensures forall i :: 0 <= i < |a + b| ==> Sort(SegOrder(), a + b)[i].path in known + PathSet(b)
  {
    var s := Sort(SegOrder(), a + b);
    forall i | 0 <= i < |s|
      ensures s[i].path in known + PathSet(b)
    {
      SortMembers(SegOrder(), a + b, s[i]);
      assert s[i] in a || s[i] in b;
    }
  }

  lemma {:induction false} BagJoins(a: seq<SegMeta>, b: seq<SegMeta>, files: Files)
    ensures Bag(Sort(SegOrder(), a + b), files) == Bag(a, files) + Bag(b, files)
  {
    BagSort(SegOrder(), a + b, files);
    BagConcat(a, b, files);
  }

  /** Lexicographically, by project, hour, first timestamp and number. */
  predicate NotAfter(a: SegMeta, b: SegMeta) {
    || a.project < b.project
    || (a.project == b.project && a.hour < b.hour)
    || (a.project == b.project && a.hour == b.hour && a.path.minTs < b.path.minTs)
    || (a.project == b.project && a.hour == b.hour && a.path.minTs == b.path.minTs && a.path.number <= b.path.number)
  }

  /** The manifest is kept in the order of project, hour, first timestamp and number. */
  lemma {:induction false} ManifestOrdered(a: seq<SegMeta>)
    ensures forall i, j :: 0 <= i < j < |Sort(SegOrder(), a)| ==>
      NotAfter(Sort(SegOrder(), a)[i], Sort(SegOrder(), a)[j])
  {
    SortSorts(SegOrder(), a);
    forall i, j | 0 <= i < j < |Sort(SegOrder(), a)|
      ensures NotAfter(Sort(SegOrder(), a)[i], Sort(SegOrder(), a)[j])
    {
      assert SegOrder()(Sort(SegOrder(), a)[i], Sort(SegOrder(), a)[j]);
    }
  }

  /** How many partitions are written: those visited before the first that fails. */
  function Done(order: seq<Key>, faults: map<Key, Fault>, i: nat): (n: nat)
    requires i <= |order|
    ensures i <= n <= |order| && (n < |order| ==> order[n] in faults) && forall j :: i <= j < n ==> order[j] !in faults
    decreases |order| - i
  {
    if i == |order| || order[i] in faults then i else Done(order, faults, i + 1)
  }

  /** Partition i of the plan: where it goes and what it holds. */
  ghost predicate Planned(plan: Plan, i: nat, k: Key, part: seq<Event>, count: nat) {
    && i < |plan.paths| == |plan.contents| && part != [] && (forall j :: 0 <= j < |part| ==> KeyOf(part[j]) == k)
    && plan.contents[i] == Sort(TimeOrder(), part)
    && plan.paths[i] == Path(k.0, k.1, FirstTs(plan.contents[i]), count + i + 1)
  }

  /** How far the writing has come. */
  ghost predicate Reached(o: Options, plan: Plan, n: nat, newSegs: seq<SegMeta>, files0: Files, files: Files) {
    FilesOk(o, files) && Landed(plan, n, files0, files) && EntriesOf(plan.paths, n, newSegs, files)
  }

  lemma {:induction false} ReachedNone(o: Options, plan: Plan, files: Files)
    requires FilesOk(o, files) && |plan.paths| == |plan.contents|
    ensures Reached(o, plan, 0, [], files, files)
  {
  }

  lemma {:induction false} ReachedMore(o: Options, plan: Plan, n: nat, newSegs: seq<SegMeta>, files0: Files,
                                       files: Files, s: Segment,
                                       newSegs': seq<SegMeta>, files': Files)
    requires PlanOk(plan) && Reached(o, plan, n, newSegs, files0, files) && n < |plan.paths|
    requires SegRows(s) == plan.contents[n] && FileOk(o, plan.paths[n], s)
    requires newSegs' == newSegs + [MetaOf(plan.paths[n], s)] && files' == files[plan.paths[n] := s]
    ensures Reached(o, plan, n + 1, newSegs', files0, files')
  {
    FilesOkStep(o, files, plan.paths[n], s);
    LandedMore(plan, n, files0, files, s);
    EntriesMore(plan, n, newSegs, files, s);
  }

  lemma {:induction false} PartPlanned(rows: seq<Event>, order: seq<Key>, count: nat, i: nat)
    requires IsOrder(order, rows) && i < |order|
    ensures Planned(PlanOf(rows, order, count), i, order[i], RowsIn(rows, {order[i]}, |rows|), count)
  {
    assert order[i] in order;
    PartOf(rows, order[i]);
  }

  class EventStore {
    const o: Options
    var buf: seq<Event>
    var segs: seq<SegMeta>
    var known: set<Path>
    var flushCount: nat
    var files: Files

    ghost predicate Valid()
      reads this
    {
      ValidSnap(o, Snap())
    }

    /** What a query can see, as a bag. */
    ghost function Queryable(): multiset<Event>
      reads this
    {
      Shown(Snap())
    }

    /** The same rows in the order Scan visits them. */
    ghost function AllRows(): seq<Event>
      reads this
    {
      TierRows(buf, segs, files, |segs|)
    }

    lemma {:induction false} AllRowsIsQueryable()
      ensures multiset(AllRows()) == Queryable()
    {
      TierBag(buf, segs, files, |segs|);
      assert segs[..|segs|] == segs;
    }

    /** Open: register every segment file found; the count of writes starts at zero again. */
    constructor (o: Options, files: Files, listing: seq<Path>)
      requires Faithful(o) && FilesOk(o, files) && Lists(listing, files)
      ensures Valid() && this.o == o && this.files == files && known == files.Keys && buf == [] && flushCount == 0
      ensures EntriesOf(listing, |listing|, segs, files)
    {
      this.o, this.files, buf, flushCount := o, files, [], 0;
      var metas: seq<SegMeta> := [];
      var i := 0;
      while i < |listing|
        invariant 0 <= i <= |listing| && EntriesOf(listing, i, metas, files)
      {
        assert listing[i] in listing;
        metas := metas + [MetaOf(listing[i], files[listing[i]])];
        i := i + 1;
      }
      EntriesRegistered(listing, |listing|, metas, files);
      segs, known := metas, files.Keys;
    }

    method Append(events: seq<Event>) returns (ok: bool)
      modifies this`buf
      ensures ok <==> |old(buf)| + |events| <= o.maxBufferRows
      ensures buf == if ok then old(buf) + events else old(buf)
    {
      if |buf| + |events| > o.maxBufferRows {
        return false;
      }
      buf := buf + events;
      return true;
    }

    /** Scan: the hot buffer first, then every segment the manifest cannot rule out, up to the limit. With all its
        pruning it returns what a plain filter over all rows would, cut at the limit, when the manifest is right; after
        writes over registered files it returns what the entries as they were let it read. */
    method Scan(q: Query) returns (r: ScanResult)
      requires AllOpenable(segs, files)
      ensures r.NeedsProject? <==> q.project == 0
      ensures r.Rows? ==>
        var limit := if q.limit <= 0 then o.queryLimitDefault else q.limit;
        && r.rows == Take(Filter(q, ReadRows(q, buf, segs, files, |segs|)), limit)
        && (Valid() ==> r.rows == Take(Filter(q, AllRows()), limit))
    {
      if q.project == 0 {
        return NeedsProject;
      }
      var out := ScanTiers(q, buf, segs, files, if q.limit <= 0 then o.queryLimitDefault else q.limit);
      if Valid() {
        PruningDropsNothing(o, q, buf, segs, files, |segs|);
      }
      return Rows(out);
    }

    lemma {:induction false} ValidOpens()
      requires Valid()
      ensures AllOpenable(segs, files)
    {
      FilesOpen(o, segs, files);
    }

    // ---- Flush ----

    /** writeSegment: number the file, build it aside and rename it into place, or fail leaving no file. */
    method WriteSegment(k: Key, rows: seq<Event>, fault: Option<Fault>) returns (r: Option<SegMeta>, ghost s: Segment)
      requires Faithful(o) && rows != [] && forall i :: 0 <= i < |rows| ==> KeyOf(rows[i]) == k
      modifies this`flushCount, this`files
      ensures r.None? <==> fault.Some?
      ensures flushCount == old(flushCount) + (if fault == Some(NoDirectory) then 0 else 1)
      ensures fault.Some? ==> files == old(files)
      ensures fault.None? ==>
        var p := Path(k.0, k.1, FirstTs(Sort(TimeOrder(), rows)), flushCount);
        r.value == MetaOf(p, s) && files == old(files)[p := s] && FileOk(o, p, s)
          && SegRows(s) == Sort(TimeOrder(), rows)
    {
      s := BuildSegment(o, rows);
      BuiltSegmentOk(o, k, rows, flushCount + 1);
      if fault == Some(NoDirectory) {
        return None, s;
      }
      flushCount := flushCount + 1;
      if fault.Some? {
        return None, s;
      }
      var built := BuildSegment(o, rows);
      var path := Path(k.0, k.1, built.minTs, flushCount);
      files := files[path := built];
      return Some(MetaOf(path, built)), s;
    }

    /** The grouping loop: rows by (project, hour). */
    method Partition(rows: seq<Event>) returns (parts: map<Key, seq<Event>>)
      ensures parts.Keys == KeysOf(rows)
      ensures forall k :: k in parts ==> parts[k] == RowsIn(rows, {k}, |rows|)
    {
      parts := map[];
      var i := 0;
      while i < |rows|
        invariant 0 <= i <= |rows|
        invariant parts.Keys == KeysOf(rows[..i])
        invariant forall k :: k in parts ==> parts[k] == RowsIn(rows, {k}, i)
        invariant forall k :: k !in parts ==> RowsIn(rows, {k}, i) == []
      {
        var k := KeyOf(rows[i]);
        KeysSnoc(rows, i);
        parts := parts[k := (if k in parts then parts[k] else []) + [rows[i]]];
        i := i + 1;
      }
      assert rows[..i] == rows;
    }

    /** One turn of the writing loop: partition k joins the new segments, or nothing changes on disk. */
    method WritePart(ghost plan: Plan, ghost files0: Files, k: Key, part: seq<Event>, fault: Option<Fault>,
                     newSegs: seq<SegMeta>)
      returns (r: Option<SegMeta>)
      requires Faithful(o) && PlanOk(plan) && |newSegs| <= flushCount
        && Planned(plan, |newSegs|, k, part, flushCount - |newSegs|)
      requires Reached(o, plan, |newSegs|, newSegs, files0, files)
      modifies this`flushCount, this`files
      ensures r.None? <==> fault.Some?
      ensures r.None? ==> files == old(files) && old(flushCount) <= flushCount <= old(flushCount) + 1
      ensures r.Some? ==> flushCount == old(flushCount) + 1
      ensures r.Some? ==> Reached(o, plan, |newSegs| + 1, newSegs + [r.value], files0, files)
    {
      ghost var before := files;
      ghost var s;
      r, s := WriteSegment(k, part, fault);
      if r.Some? {
        ReachedMore(o, plan, |newSegs|, newSegs, files0, before, s, newSegs + [r.value], files);
      }
    }

    /** The writing loop: the partitions in map order, up to the first that fails. */
    method WriteParts(ghost plan: Plan, parts: map<Key, seq<Event>>, order: seq<Key>, faults: map<Key, Fault>)
      returns (newSegs: seq<SegMeta>)
      requires Faithful(o) && FilesOk(o, files) && PlanOk(plan) && |plan.paths| == |order|
      requires forall i :: 0 <= i < |order| ==> order[i] in parts
      requires forall i {:trigger Planned(plan, i, order[i], parts[order[i]], flushCount)} :: 0 <= i < |order| ==>
        Planned(plan, i, order[i], parts[order[i]], flushCount)
      modifies this`flushCount, this`files
      ensures |newSegs| == Done(order, faults, 0)
      ensures Reached(o, plan, |newSegs|, newSegs, old(files), files)
      ensures old(flushCount) + |newSegs| <= flushCount <= old(flushCount) + |newSegs| + 1
    {
      newSegs := [];
      ReachedNone(o, plan, files);
      while |newSegs| < |order|
        invariant 0 <= |newSegs| <= |order| && flushCount == old(flushCount) + |newSegs|
        invariant Done(order, faults, 0) == Done(order, faults, |newSegs|)
        invariant Reached(o, plan, |newSegs|, newSegs, old(files), files)
        decreases |order| - |newSegs|
      {
        var k := order[|newSegs|];
        assert Planned(plan, |newSegs|, k, parts[k], old(flushCount));
        var r := WritePart(plan, old(files), k, parts[k], if k in faults then Some(faults[k]) else None, newSegs);
        if r.None? {
          return;
        }
        newSegs := newSegs + [r.value];
      }
    }

    /** New entries join the manifest, which is kept sorted. */
    method Register(newSegs: seq<SegMeta>)
      modifies this`segs, this`known
      ensures known == old(known) + PathSet(newSegs) && segs == Sort(SegOrder(), old(segs) + newSegs)
    {
      known := known + PathSet(newSegs);
      segs := Sort(SegOrder(), segs + newSegs);
    }

    /** Group, then write. */
    method WriteRows(rows: seq<Event>, order: seq<Key>, faults: map<Key, Fault>, ghost plan: Plan)
      returns (newSegs: seq<SegMeta>)
      requires Faithful(o) && FilesOk(o, files) && IsOrder(order, rows) && plan == PlanOf(rows, order, flushCount)
      modifies this`flushCount, this`files
      ensures |newSegs| == Done(order, faults, 0)
      ensures Reached(o, plan, |newSegs|, newSegs, old(files), files)
      ensures old(flushCount) + |newSegs| <= flushCount <= old(flushCount) + |newSegs| + 1
    {
      PlanIsOk(rows, order, flushCount);
      var parts := Partition(rows);
      forall i | 0 <= i < |order|
        ensures order[i] in parts && Planned(plan, i, order[i], parts[order[i]], flushCount)
      {
        assert order[i] in order;
        PartPlanned(rows, order, flushCount, i);
      }
      newSegs := WriteParts(plan, parts, order, faults);
    }

    ghost function Snap(): Snapshot
      reads this
    {
      Snapshot(buf, segs, known, flushCount, files)
    }

    /** Write the rows and register their files, or leave the manifest as it is. */
    method Compact(rows: seq<Event>, order: seq<Key>, faults: map<Key, Fault>, ghost before: Snapshot)
      returns (ok: bool)
      requires ValidSnap(o, before) && before.buf == rows != [] && Snap() == before.(buf := []) && IsOrder(order, rows)
      modifies this`segs, this`known, this`flushCount, this`files
      ensures FlushStep(o, before, order, faults, Snap().(buf := if ok then [] else rows), ok)
    {
      ghost var plan := PlanOf(rows, order, flushCount);
      var newSegs := WriteRows(rows, order, faults, plan);
      ok := |newSegs| == |order|;
      if ok {
        Register(newSegs);
        assert Committed(plan, newSegs, before, Snap());
      }
    }

    /** Flush: take the buffer and compact it; if any partition fails, put every row back. What a query then sees is the
        flushed rows and whatever the manifest's files hold after the writes: the rows it saw before, if and only if
        the writes were harmless. */
    method Flush(order: seq<Key>, faults: map<Key, Fault>) returns (ok: bool)
      requires Valid() && IsOrder(order, buf)
      modifies this
      ensures FlushStep(o, old(Snap()), order, faults, Snap(), ok)
      ensures Queryable() == multiset(old(buf)) + Bag(old(segs), files)
      ensures var plan, n := PlanOf(old(buf), order, old(flushCount)), Done(order, faults, 0);
        && (Queryable() == old(Queryable()) <==> Harmless(plan, n, old(segs), old(files)))
        && (Harmless(plan, n, old(segs), old(files)) ==> Valid())
      ensures AllOpenable(segs, files)
    {
      ghost var before := Snap();
      var rows := buf;
      buf := [];
      if |rows| == 0 {
        ok := true;
        NothingFlushed(o, before, order, faults);
      } else {
        ok := Compact(rows, order, faults, before);
        if !ok {
          assert rows + buf == rows;
          buf := rows + buf;
        }
      }
      FlushOutcome(o, before, order, faults, Snap(), ok);
      FlushKeepsOpenable(o, before, order, faults, Snap(), ok);
    }

    /** The walk of Refresh: the entries of the files not yet known. */
    method Discover(listing: seq<Path>) returns (newSegs: seq<SegMeta>)
      requires Lists(listing, files)
      ensures EntriesOf(Unknown(listing, known, |listing|), |Unknown(listing, known, |listing|)|, newSegs, files)
    {
      newSegs := [];
      var i := 0;
      while i < |listing|
        invariant 0 <= i <= |listing|
        invariant EntriesOf(Unknown(listing, known, i), |Unknown(listing, known, i)|, newSegs, files)
      {
        var p := listing[i];
        assert p in listing;
        if p !in known {
          newSegs := newSegs + [MetaOf(p, files[p])];
        }
        i := i + 1;
      }
    }

    /** Refresh: register the files that others wrote since: exactly those not known, so an idle one adds nothing. */
    method Refresh(listing: seq<Path>)
      requires Valid() && Lists(listing, files)
      modifies this`segs, this`known
      ensures Valid() && known == files.Keys
      ensures Queryable() == old(Queryable()) + PathsBag(Unknown(listing, old(known), |listing|), files)
      ensures old(known) == files.Keys ==> segs == old(segs)
    {
      ghost var before := Snap();
      var newSegs := Discover(listing);
      if |newSegs| > 0 {
        Register(newSegs);
      }
      RefreshOutcome(o, before, listing, newSegs, Snap());
    }

    /** A flush and then a refresh of the same store, on unused paths and with nothing unknown before: the rows shown
        are the same if and only if every partition was written or none was. Otherwise those of the partitions written
        before the first fault are shown a second time, from the files beside the buffer. */
    method FlushThenRefresh(order: seq<Key>, faults: map<Key, Fault>) returns (ok: bool)
      requires Valid() && IsOrder(order, buf) && known == files.Keys && Unused(PlanOf(buf, order, flushCount), files)
      modifies this
      ensures Valid() && known == files.Keys && (ok <==> Done(order, faults, 0) == |order|)
      ensures Queryable() == old(Queryable()) +
        if ok then multiset{} else multiset(RowsIn(old(buf), Keys(order, Done(order, faults, 0)), |old(buf)|))
      ensures Queryable() == old(Queryable()) <==> ok || order[0] in faults
    {
      ghost var before := Snap();
      PlanIsOk(buf, order, flushCount);
      UnusedIsHarmless(PlanOf(buf, order, flushCount), Done(order, faults, 0), segs, files);
      ok := Flush(order, faults);
      ghost var between := Snap();
      var listing := Walk(files);
      Refresh(listing);
      RefreshAfterFlush(o, before, order, faults, between, ok, listing);
    }
  }

  // ---- What a flush does, on values ----

  /** The state of a store. */
  datatype Snapshot = Snapshot(buf: seq<Event>, segs: seq<SegMeta>, known: set<Path>, count: nat, files: Files)

  ghost predicate ValidSnap(o: Options, s: Snapshot) {
    && Faithful(o) && FilesOk(o, s.files) && Registered(s.segs, s.files)
    && s.known <= s.files.Keys && (forall i :: 0 <= i < |s.segs| ==> s.segs[i].path in s.known)
  }

  /** The rows in the buffer and in the files that the manifest lists. */
  ghost function Shown(s: Snapshot): multiset<Event> {
    multiset(s.buf) + Bag(s.segs, s.files)
  }

  /** The new entries joined the manifest. */
  ghost predicate Committed(plan: Plan, newSegs: seq<SegMeta>, s: Snapshot, t: Snapshot) {
    && EntriesOf(plan.paths, |plan.paths|, newSegs, t.files)
    && t.segs == Sort(SegOrder(), s.segs + newSegs) && t.known == s.known + PathSet(newSegs)
  }

  /** The files of the partitions visited before the first fault are written, and no others; without a fault they are
      registered and the buffer is empty, else buffer and manifest are as before. */
  ghost predicate FlushStep(o: Options, s: Snapshot, order: seq<Key>, faults: map<Key, Fault>, t: Snapshot, ok: bool) {
    var plan, n := PlanOf(s.buf, order, s.count), Done(order, faults, 0);
    && (ok <==> n == |order|)
    && FilesOk(o, t.files) && Landed(plan, n, s.files, t.files)
    && s.count + n <= t.count <= s.count + n + 1
    && (if s.buf == [] then t == s
        else if ok then t.buf == [] && exists newSegs :: Committed(plan, newSegs, s, t)
        else t.buf == s.buf && t.segs == s.segs && t.known == s.known)
  }

  lemma {:induction false} NothingFlushed(o: Options, s: Snapshot, order: seq<Key>, faults: map<Key, Fault>)
    requires ValidSnap(o, s) && s.buf == [] && IsOrder(order, s.buf)
    ensures FlushStep(o, s, order, faults, s, true)
  {
    NoPartitions(s.buf, order);
  }

  lemma {:induction false} CommittedShows(plan: Plan, newSegs: seq<SegMeta>, s: Snapshot, t: Snapshot)
    requires Committed(plan, newSegs, s, t) && Landed(plan, |plan.paths|, s.files, t.files)
    ensures Bag(t.segs, t.files) == Bag(s.segs, t.files) + Contents(plan.contents, |plan.paths|)
  {
    BagJoins(s.segs, newSegs, t.files);
    LandedBag(plan, |plan.paths|, s.files, t.files, newSegs);
  }

  /** What the buffer and the manifest's files hold after a flush. */
  lemma {:induction false} FlushShows(o: Options, s: Snapshot, order: seq<Key>, faults: map<Key, Fault>, t: Snapshot,
                                      ok: bool)
    requires IsOrder(order, s.buf) && FlushStep(o, s, order, faults, t, ok)
    ensures Shown(t) == multiset(s.buf) + Bag(s.segs, t.files)
  {
    if s.buf != [] && ok {
      var plan := PlanOf(s.buf, order, s.count);
      var newSegs :| Committed(plan, newSegs, s, t);
      CommittedShows(plan, newSegs, s, t);
      PlanRows(s.buf, order, s.count, |order|);
    }
  }

  /** It is what they held before, if and only if the writes were harmless. */
  lemma {:induction false} FlushIffHarmless(o: Options, s: Snapshot, order: seq<Key>, faults: map<Key, Fault>,
                                            t: Snapshot, ok: bool)
    requires ValidSnap(o, s) && IsOrder(order, s.buf) && FlushStep(o, s, order, faults, t, ok)
    ensures Shown(t) == Shown(s) <==> Harmless(PlanOf(s.buf, order, s.count), Done(order, faults, 0), s.segs, s.files)
  {
    PlanIsOk(s.buf, order, s.count);
    FlushShows(o, s, order, faults, t, ok);
    ShownIffHarmless(o, PlanOf(s.buf, order, s.count), Done(order, faults, 0), s.segs, s.files, t.files);
    Cancel(multiset(s.buf), Bag(s.segs, t.files), Bag(s.segs, s.files));
  }

  /** New entries with their files keep the manifest valid and add their rows. */
  lemma {:induction false} Registering(o: Options, s: Snapshot, newSegs: seq<SegMeta>, t: Snapshot)
    requires ValidSnap(o, s) && Registered(newSegs, s.files) && PathSet(newSegs) <= s.files.Keys
    requires t == s.(segs := Sort(SegOrder(), s.segs + newSegs), known := s.known + PathSet(newSegs))
    ensures ValidSnap(o, t) && Shown(t) == Shown(s) + Bag(newSegs, s.files)
  {
    RegisteredSort(s.segs, newSegs, s.files);
    SortKeepsKnown(s.segs, newSegs, s.known);
    BagJoins(s.segs, newSegs, s.files);
  }

  lemma {:induction false} PathsStay(a: seq<SegMeta>, b: seq<SegMeta>, files: Files)
    requires forall i :: 0 <= i < |a| ==> a[i].path in files
    requires forall i :: 0 <= i < |b| ==> b[i].path in files
    ensures forall i :: 0 <= i < |Sort(SegOrder(), a + b)| ==> Sort(SegOrder(), a + b)[i].path in files
  {
    var t := Sort(SegOrder(), a + b);
    forall i | 0 <= i < |t|
      ensures t[i].path in files
    {
      SortMembers(SegOrder(), a + b, t[i]);
    }
  }

  /** After any flush every entry of the manifest has its file. */
  lemma {:induction false} FlushKeepsOpenable(o: Options, s: Snapshot, order: seq<Key>, faults: map<Key, Fault>,
                                              t: Snapshot, ok: bool)
    requires ValidSnap(o, s) && FlushStep(o, s, order, faults, t, ok)
    ensures AllOpenable(t.segs, t.files)
  {
    if s.buf != [] && ok {
      var plan := PlanOf(s.buf, order, s.count);
      var newSegs :| Committed(plan, newSegs, s, t);
      PathsStay(s.segs, newSegs, t.files);
    }
    FilesOpen(o, t.segs, t.files);
  }

  lemma {:induction false} FlushOutcome(o: Options, s: Snapshot, order: seq<Key>, faults: map<Key, Fault>, t: Snapshot,
                                        ok: bool)
    requires ValidSnap(o, s) && IsOrder(order, s.buf) && FlushStep(o, s, order, faults, t, ok)
    ensures Shown(t) == multiset(s.buf) + Bag(s.segs, t.files)
    ensures Shown(t) == Shown(s) <==> Harmless(PlanOf(s.buf, order, s.count), Done(order, faults, 0), s.segs, s.files)
    ensures Harmless(PlanOf(s.buf, order, s.count), Done(order, faults, 0), s.segs, s.files) ==> ValidSnap(o, t)
  {
    FlushShows(o, s, order, faults, t, ok);
    FlushIffHarmless(o, s, order, faults, t, ok);
    if Harmless(PlanOf(s.buf, order, s.count), Done(order, faults, 0), s.segs, s.files) {
      FlushKeepsValid(o, s, order, faults, t, ok);
    }
  }

  lemma {:induction false} CommittedValid(o: Options, plan: Plan, newSegs: seq<SegMeta>, s: Snapshot, t: Snapshot)
    requires Committed(plan, newSegs, s, t) && Registered(s.segs, t.files) && s.known <= t.files.Keys
    requires forall i :: 0 <= i < |s.segs| ==> s.segs[i].path in s.known
    ensures Registered(t.segs, t.files) && t.known <= t.files.Keys
      && forall i :: 0 <= i < |t.segs| ==> t.segs[i].path in t.known
  {
    EntriesRegistered(plan.paths, |plan.paths|, newSegs, t.files);
    RegisteredSort(s.segs, newSegs, t.files);
    SortKeepsKnown(s.segs, newSegs, s.known);
  }

  lemma {:induction false} FlushKeepsValid(o: Options, s: Snapshot, order: seq<Key>, faults: map<Key, Fault>,
                                           t: Snapshot, ok: bool)
    requires ValidSnap(o, s) && IsOrder(order, s.buf) && FlushStep(o, s, order, faults, t, ok)
    requires Harmless(PlanOf(s.buf, order, s.count), Done(order, faults, 0), s.segs, s.files)
    ensures ValidSnap(o, t)
  {
    var plan := PlanOf(s.buf, order, s.count);
    HarmlessRegistered(o, plan, Done(order, faults, 0), s.segs, s.files, t.files);
    if s.buf != [] && ok {
      var newSegs :| Committed(plan, newSegs, s, t);
      CommittedValid(o, plan, newSegs, s, t);
    }
  }

  // ---- Refreshing after a flush ----

  lemma {:induction false} NewAreUnknown(listing: seq<Path>, known: set<Path>, files: Files, u: seq<Path>)
    requires Lists(listing, files) && u == Unknown(listing, known, |listing|)
    ensures forall p :: p in u <==> p in files && p !in known
    ensures forall p :: InFirst(u, |u|, p) <==> p in u
  {
    UnknownAre(listing, known, |listing|);
    assert listing[..|listing|] == listing;
  }

  lemma {:induction false} NowKnown(listing: seq<Path>, known: set<Path>, files: Files, newSegs: seq<SegMeta>)
    requires Lists(listing, files) && known <= files.Keys
    requires EntriesOf(Unknown(listing, known, |listing|), |Unknown(listing, known, |listing|)|, newSegs, files)
    ensures Registered(newSegs, files) && known + PathSet(newSegs) == files.Keys
    ensures Bag(newSegs, files) == PathsBag(Unknown(listing, known, |listing|), files)
    ensures known == files.Keys ==> newSegs == []
  {
    var u := Unknown(listing, known, |listing|);
    NewAreUnknown(listing, known, files, u);
    EntriesRegistered(u, |u|, newSegs, files);
    AllEntriesShow(u, newSegs, files);
    if known == files.Keys {
      NoneUnknown(u);
    }
  }

  lemma {:induction false} RefreshOutcome(o: Options, s: Snapshot, listing: seq<Path>, newSegs: seq<SegMeta>,
                                          t: Snapshot)
    requires ValidSnap(o, s) && Lists(listing, s.files)
    requires EntriesOf(Unknown(listing, s.known, |listing|), |Unknown(listing, s.known, |listing|)|, newSegs, s.files)
    requires t == if newSegs == [] then s
      else s.(segs := Sort(SegOrder(), s.segs + newSegs), known := s.known + PathSet(newSegs))
    ensures ValidSnap(o, t) && t.known == s.files.Keys
    ensures Shown(t) == Shown(s) + PathsBag(Unknown(listing, s.known, |listing|), s.files)
    ensures s.known == s.files.Keys ==> t.segs == s.segs
  {
    NowKnown(listing, s.known, s.files, newSegs);
    if newSegs != [] {
      Registering(o, s, newSegs, t);
    }
  }

  /** After a flush without a fault every file is known. */
  lemma {:induction false} FlushedIsKnown(o: Options, s: Snapshot, order: seq<Key>, faults: map<Key, Fault>,
                                          t: Snapshot)
    requires s.known == s.files.Keys && IsOrder(order, s.buf) && FlushStep(o, s, order, faults, t, true)
    ensures t.known == t.files.Keys
  {
    var plan := PlanOf(s.buf, order, s.count);
    if s.buf != [] {
      var newSegs :| Committed(plan, newSegs, s, t);
      EntriesRegistered(plan.paths, |order|, newSegs, t.files);
      forall p | p in t.files
        ensures p in t.known
      {
        if !InFirst(plan.paths, |order|, p) {
          assert p in s.files;
        }
      }
    }
  }

  /** After a fault the unknown files are those written before it. */
  lemma {:induction false} LeftBehind(o: Options, s: Snapshot, order: seq<Key>, faults: map<Key, Fault>, t: Snapshot,
                                      listing: seq<Path>)
    requires s.known == s.files.Keys && IsOrder(order, s.buf) && Unused(PlanOf(s.buf, order, s.count), s.files)
    requires FlushStep(o, s, order, faults, t, false) && s.buf != [] && Lists(listing, t.files)
    ensures PathsBag(Unknown(listing, t.known, |listing|), t.files) ==
      multiset(RowsIn(s.buf, Keys(order, Done(order, faults, 0)), |s.buf|))
  {
    var plan, n, u := PlanOf(s.buf, order, s.count), Done(order, faults, 0), Unknown(listing, t.known, |listing|);
    UnknownAre(listing, t.known, |listing|);
    UnknownDistinct(listing, t.known, |listing|);
    assert listing[..|listing|] == listing;
    forall p
      ensures p in u <==> InFirst(plan.paths, n, p)
    {
      if InFirst(plan.paths, n, p) {
        var i :| 0 <= i < n && plan.paths[i] == p;
      }
    }
    PlanIsOk(s.buf, order, s.count);
    ListingOfPlan(plan, n, s.files, t.files, u);
    PlanRows(s.buf, order, s.count, n);
  }

  lemma {:induction false} SomeWritten(rows: seq<Event>, order: seq<Key>, n: nat)
    requires IsOrder(order, rows) && 0 < n <= |order|
    ensures RowsIn(rows, Keys(order, n), |rows|) != []
  {
    KeysAre(order, n);
    assert order[..n][0] == order[0];
    assert order[0] in order;
    var i :| 0 <= i < |rows| && KeyOf(rows[i]) == order[0];
    RowsInAny(rows, Keys(order, n), |rows|, i);
  }

  lemma {:induction false} RowsInAny(rows: seq<Event>, keys: set<Key>, n: nat, i: nat)
    requires i < n <= |rows| && KeyOf(rows[i]) in keys
    ensures RowsIn(rows, keys, n) != []
  {
    if i < n - 1 {
      RowsInAny(rows, keys, n - 1, i);
    }
  }

  /** Which rows a refresh after a flush shows anew, and exactly when there are none. */
  lemma {:induction false} RefreshAfterFlush(o: Options, s: Snapshot, order: seq<Key>, faults: map<Key, Fault>,
                                             t: Snapshot, ok: bool, listing: seq<Path>)
    requires s.known == s.files.Keys && IsOrder(order, s.buf) && Unused(PlanOf(s.buf, order, s.count), s.files)
    requires FlushStep(o, s, order, faults, t, ok) && Lists(listing, t.files)
    ensures var added := PathsBag(Unknown(listing, t.known, |listing|), t.files);
      && added == (if ok then multiset{} else multiset(RowsIn(s.buf, Keys(order, Done(order, faults, 0)), |s.buf|)))
      && (added == multiset{} <==> ok || order[0] in faults)
  {
    var n := Done(order, faults, 0);
    if ok {
      FlushedIsKnown(o, s, order, faults, t);
      UnknownAre(listing, t.known, |listing|);
      assert listing[..|listing|] == listing;
      NoneUnknown(Unknown(listing, t.known, |listing|));
    } else {
      if s.buf == [] {
        NoPartitions(s.buf, order);
      }
      LeftBehind(o, s, order, faults, t, listing);
      if n == 0 {
        NothingIn(s.buf, |s.buf|);
      } else {
        SomeWritten(s.buf, order, n);
        assert RowsIn(s.buf, Keys(order, n), |s.buf|)[0] in multiset(RowsIn(s.buf, Keys(order, n), |s.buf|));
      }
    }
  }

  /** What another process, which has no buffer, comes to see: a flush that failed and its successful retry leave on
      disk all the flushed rows and once more those of the partitions the first attempt had written. */
  lemma {:induction false} RetryLeavesTwice(o: Options, s: Snapshot, order: seq<Key>, faults: map<Key, Fault>,
                                            t: Snapshot,
                                            order': seq<Key>, u: Snapshot, ls: seq<Path>, lt: seq<Path>, lu: seq<Path>)
    requires IsOrder(order, s.buf) && FlushStep(o, s, order, faults, t, false)
      && Unused(PlanOf(s.buf, order, s.count), s.files)
    requires IsOrder(order', t.buf) && FlushStep(o, t, order', map[], u, true)
      && Unused(PlanOf(t.buf, order', t.count), t.files)
    requires Lists(ls, s.files) && Lists(lt, t.files) && Lists(lu, u.files)
    ensures PathsBag(lu, u.files) ==
      PathsBag(ls, s.files) + multiset(s.buf) + multiset(RowsIn(s.buf, Keys(order, Done(order, faults, 0)), |s.buf|))
  {
    PlanIsOk(s.buf, order, s.count);
    DiskGrows(PlanOf(s.buf, order, s.count), Done(order, faults, 0), s.files, t.files, ls, lt);
    PlanRows(s.buf, order, s.count, Done(order, faults, 0));
    PlanIsOk(t.buf, order', t.count);
    DiskGrows(PlanOf(t.buf, order', t.count), |order'|, t.files, u.files, lt, lu);
    PlanRows(t.buf, order', t.count, |order'|);
  }

  // ---- Two inputs ----

  lemma {:induction false} OneRow(e: Event, count: nat)
    ensures var plan := PlanOf([e], [KeyOf(e)], count);
      IsOrder([KeyOf(e)], [e]) && plan.paths == [Path(e.project, KeyOf(e).1, e.ts, count + 1)] && plan.contents == [[e]]
  {
    assert RowsIn([e], {KeyOf(e)}, 1) == RowsIn([e], {KeyOf(e)}, 0) + [e];
    assert [e][0] == e && [KeyOf(e)][0] == KeyOf(e);
    assert SortedPart([e], KeyOf(e)) == [e];
  }

  lemma {:induction false} TwoRows(a: Event, b: Event)
    requires KeyOf(a) != KeyOf(b)
    ensures IsOrder([KeyOf(a), KeyOf(b)], [a, b])
    ensures Keys([KeyOf(a), KeyOf(b)], 1) == {KeyOf(a)} && RowsIn([a, b], {KeyOf(a)}, 2) == [a]
  {
    var rows, order := [a, b], [KeyOf(a), KeyOf(b)];
    assert rows[0] == a && rows[1] == b && order[0] == KeyOf(a) && order[1] == KeyOf(b);
    forall k
      ensures k in order <==> k in KeysOf(rows)
    {
      assert k in order ==> k == order[0] || k == order[1];
      assert KeyOf(rows[0]) in KeysOf(rows) && KeyOf(rows[1]) in KeysOf(rows);
    }
    assert Keys(order, 1) == Keys(order, 0) + {order[0]};
    assert RowsIn(rows, {KeyOf(a)}, 1) == RowsIn(rows, {KeyOf(a)}, 0) + [a];
    assert RowsIn(rows, {KeyOf(a)}, 2) == RowsIn(rows, {KeyOf(a)}, 1);
  }

  /** Two partitions, the second of which fails, and a refresh: the first one's row is shown twice. */
  method SecondPartitionFails(o: Options, a: Event, b: Event) returns (s: EventStore, ok: bool)
    requires Faithful(o) && KeyOf(a) != KeyOf(b) && o.maxBufferRows >= 2
    ensures !ok && s.Queryable() == multiset{a, a, b}
  {
    s := new EventStore(o, map[], []);
    var stored := s.Append([a, b]);
    TwoRows(a, b);
    assert s.buf == [a, b];
    NextNumbersUnused(s.buf, [KeyOf(a), KeyOf(b)], s.flushCount, s.files);
    var order, faults := [KeyOf(a), KeyOf(b)], map[KeyOf(b) := NoFile];
    assert Done(order, faults, 0) == Done(order, faults, 1) == 1;
    ok := s.FlushThenRefresh(order, faults);
  }

  /** One row flushed by a fresh store: one file holds it. */
  lemma {:induction false} OneFile(o: Options, s: Snapshot, e: Event, k: Key, p: Path, t: Snapshot)
    requires OnlyPath(e, k, p) && s.buf == [e] && s.count == 0 && FlushStep(o, s, [k], map[], t, true)
    ensures p in t.files && SegRows(t.files[p]) == [e] && forall q :: q in t.files && q != p ==> q in s.files
  {
    OneRow(e, 0);
    OneLanded(PlanOf([e], [k], 0), p, e, s.files, t.files);
  }

  lemma {:induction false} OneLanded(plan: Plan, p: Path, e: Event, files0: Files, files: Files)
    requires plan.paths == [p] && plan.contents == [[e]] && Landed(plan, 1, files0, files)
    ensures p in files && SegRows(files[p]) == [e] && forall q :: q in files && q != p ==> q in files0
  {
    assert plan.paths[0] == p && plan.contents[0] == [e];
    forall q | q in files && q != p
      ensures q in files0
    {
      assert !InFirst(plan.paths, 1, q);
    }
  }

  lemma {:induction false} OnlyListed(listing: seq<Path>, files: Files, p: Path)
    requires Lists(listing, files) && files.Keys == {p}
    ensures listing == [p]
  {
    assert |listing| >= 2 ==> listing[0] != listing[1];
    assert p in listing;
    forall i | 0 <= i < |listing|
      ensures listing[i] == p
    {
      assert listing[i] in listing;
    }
  }

  /** The shown bag of a manifest with one entry. */
  lemma {:induction false} OneEntry(m: SegMeta, files: Files)
    ensures Bag([m], files) == multiset(FileRows(files, m.path))
  {
    assert [m][1..] == [];
  }

  /** A lifetime that starts with at most this one file and flushes one row into it. */
  method OneLife(o: Options, files: Files, e: Event, k: Key, ghost p: Path) returns (s: EventStore)
    requires Faithful(o) && FilesOk(o, files) && o.maxBufferRows >= 1
    requires OnlyPath(e, k, p) && files.Keys <= {p}
    ensures FilesOk(o, s.files) && s.files.Keys == {p}
    ensures s.Queryable() == if files == map[] then multiset{e} else multiset{e, e}
  {
    ghost var listing;
    s, listing := OpenAndAppend(o, files, e);
    OneOrder(e, k, p);
    ghost var before := s.Snap();
    var ok := s.Flush([k], map[]);
    OneFile(o, before, e, k, p, s.Snap());
    OneLifeEnds(listing, files, p, before.segs, s.files, e, s.Queryable());
  }

  method OpenAndAppend(o: Options, files: Files, e: Event) returns (s: EventStore, ghost listing: seq<Path>)
    requires Faithful(o) && FilesOk(o, files) && o.maxBufferRows >= 1
    ensures fresh(s) && s.Valid() && s.o == o && s.buf == [e] && s.flushCount == 0 && s.files == files
    ensures Lists(listing, files) && EntriesOf(listing, |listing|, s.segs, files)
  {
    var walked := Walk(files);
    listing := walked;
    s := new EventStore(o, files, walked);
    var ok := s.Append([e]);
    assert s.buf == [e];
  }

  /** The partition of a row, and the path of the first file it makes. */
  ghost predicate OnlyPath(e: Event, k: Key, p: Path) {
    k == KeyOf(e) && p == Path(e.project, k.1, e.ts, 1)
  }

  lemma {:induction false} OneOrder(e: Event, k: Key, p: Path)
    requires OnlyPath(e, k, p)
    ensures IsOrder([k], [e])
  {
    OneRow(e, 0);
  }

  lemma {:induction false} OneLifeEnds(listing: seq<Path>, files: Files, p: Path, segs: seq<SegMeta>, files': Files,
                                       e: Event, shown: multiset<Event>)
    requires Lists(listing, files) && EntriesOf(listing, |listing|, segs, files) && files.Keys <= {p}
    requires p in files' && SegRows(files'[p]) == [e] && (forall q :: q in files' && q != p ==> q in files)
    requires shown == multiset([e]) + Bag(segs, files')
    ensures files'.Keys == {p} && shown == if files == map[] then multiset{e} else multiset{e, e}
  {
    ShownThen(listing, files, p, segs, files', e);
  }

  lemma {:induction false} ShownThen(listing: seq<Path>, files: Files, p: Path, segs: seq<SegMeta>, files': Files,
                                     e: Event)
    requires Lists(listing, files) && EntriesOf(listing, |listing|, segs, files) && files.Keys <= {p}
    requires p in files' && SegRows(files'[p]) == [e]
    ensures Bag(segs, files') == if files == map[] then multiset{} else multiset{e}
  {
    if files == map[] {
      NoneUnknown(listing);
    } else {
      OnlyListed(listing, files, p);
      assert segs == [segs[0]];
      OneEntry(segs[0], files');
    }
  }

  /** Two lifetimes that each flush one row of the same partition and timestamp: open has registered the first one's
      file, the second flush writes over it and registers its path again. The second row is shown twice and the first,
      if it was another, is gone. When the second lifetime replays the same row nothing is lost, but it is still there
      twice. */
  method ReusedPath(o: Options, a: Event, b: Event) returns (s: EventStore)
    requires Faithful(o) && KeyOf(a) == KeyOf(b) && a.ts == b.ts && o.maxBufferRows >= 1
    ensures s.Queryable() == multiset{b, b}
  {
    var k := KeyOf(a);
    ghost var p := Path(a.project, k.1, a.ts, 1);
    s := OneLife(o, map[], a, k, p);
    s := OneLife(o, s.files, b, k, p);
  }

  lemma {:induction false} NoneUnknown(u: seq<Path>)
    requires forall p :: p !in u
    ensures u == []
  {
    if u != [] {
      Inhabited(u);
    }
  }

  lemma {:induction false} NoPartitions(rows: seq<Event>, order: seq<Key>)
    requires rows == [] && IsOrder(order, rows)
    ensures order == []
  {
    if order != [] {
      Inhabited(order);
    }
  }

  lemma {:induction false} Cancel(a: multiset<Event>, b: multiset<Event>, c: multiset<Event>)
    ensures a + b == a + c <==> b == c
  {
    if a + b == a + c {
      forall x
        ensures b[x] == c[x]
      {
        assert (a + b)[x] == (a + c)[x];
      }
    }
  }

  /** Filtering the next stretch up to what is left of the limit continues the answer. */
  lemma {:induction false} NextPart(q: Query, a: seq<Event>, b: seq<Event>, out: seq<Event>, part: seq<Event>,
                                    limit: nat)
    requires out == Take(Filter(q, a), limit) && |out| <= limit
    requires part == Take(Filter(q, b), limit - |out|)
    ensures out + part == Take(Filter(q, a + b), limit) && |out + part| <= limit
  {
    FilterConcat(q, a, b);
    TakeTwice(Filter(q, a), Filter(q, b), limit);
  }

  lemma {:induction false} FilterGrows(q: Query, rows: seq<Event>, i: nat, n: nat)
    requires i <= n <= |rows|
    ensures FilterTo(q, rows, i) <= FilterTo(q, rows, n)
  {
    if i < n {
      FilterGrows(q, rows, i, n - 1);
    }
  }

  lemma {:induction false} KeysSnoc(rows: seq<Event>, i: nat)
    requires i < |rows|
    ensures KeysOf(rows[..i + 1]) == KeysOf(rows[..i]) + {KeyOf(rows[i])}
  {
  }
}
