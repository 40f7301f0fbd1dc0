/** The event store (internal/eventstore/store.go, query.go): a hot buffer compacted into immutable
    segments, and queries that merge both. */
module Store {
  import opened Base
  import opened Rows
  import opened Sorting
  import Hll

  const HOUR: int := 3_600_000_000_000

  /** `layout` is what the Parquet writer makes of a sorted batch of rows. */
  datatype Options = Options(maxBufferRows: nat, queryLimitDefault: nat, hash: Hll.Hash,
    layout: seq<Event> -> seq<RowGroup>)

  ghost predicate Encodes(groups: seq<RowGroup>, rows: seq<Event>) {
    RowsOf(groups, |groups|) == rows && forall g :: 0 <= g < |groups| ==> GroupOk(groups[g])
  }

  /** The writer keeps every row in order, and its Bloom filters have no false negatives. */
  ghost predicate Faithful(o: Options) {
    forall rows :: Encodes(o.layout(rows), rows)
  }

  type Files = map<Path, Segment>

  function MetaOf(p: Path, s: Segment): SegMeta {
    SegMeta(p, p.project, p.hour, s.minTs, s.maxTs, |SegRows(s)|)
  }

  /** The users that the rows name. */
  function Users(rows: seq<Event>): (users: set<string>)
    ensures "" !in users
    ensures forall i :: 0 <= i < |rows| && rows[i].userId != "" ==> rows[i].userId in users
    ensures forall u :: u in users ==> exists i :: 0 <= i < |rows| && rows[i].userId == u
  {
    set i | 0 <= i < |rows| && |rows[i].userId| > 0 :: rows[i].userId
  }

  /** The file's rows are its partition's, and its footer bounds are those of the first and last row. */
  ghost predicate Headed(p: Path, s: Segment) {
    && |SegRows(s)| > 0 && s.minTs == SegRows(s)[0].ts && s.maxTs == SegRows(s)[|SegRows(s)| - 1].ts
    && (forall i :: 0 <= i < |SegRows(s)| ==> KeyOf(SegRows(s)[i]) == (p.project, p.hour))
  }

  ghost predicate FileOk(o: Options, p: Path, s: Segment) {
    && SegmentOk(s) && Headed(p, s) && Describes(MetaOf(p, s), s)
    && |s.sketch| == Hll.REGISTERS && Hll.IsSketch(o.hash, s.sketch, Users(SegRows(s)))
  }

  ghost predicate FilesOk(o: Options, files: Files) {
    forall p {:trigger FileOk(o, p, files[p])} :: p in files ==> FileOk(o, p, files[p])
  }

  ghost predicate Registered(segs: seq<SegMeta>, files: Files) {
    forall i :: 0 <= i < |segs| ==> segs[i].path in files && segs[i] == MetaOf(segs[i].path, files[segs[i].path])
  }

  function FileRows(files: Files, p: Path): seq<Event> {
    if p in files then SegRows(files[p]) else []
  }

  /** The buffered rows, then those of the registered segments in manifest order. */
  function TierRows(buf: seq<Event>, segs: seq<SegMeta>, files: Files, n: nat): seq<Event>
    requires n <= |segs|
  {
    if n == 0 then buf else TierRows(buf, segs, files, n - 1) + FileRows(files, segs[n - 1].path)
  }

  /** The rows of the segments as a bag. */
  function Bag(segs: seq<SegMeta>, files: Files): multiset<Event> {
    if segs == [] then multiset{} else multiset(FileRows(files, segs[0].path)) + Bag(segs[1..], files)
  }

  lemma {:induction false} BagConcat(a: seq<SegMeta>, b: seq<SegMeta>, files: Files)
    ensures Bag(a + b, files) == Bag(a, files) + Bag(b, files)
  {
    if a == [] {
      assert a + b == b;
    } else {
      assert (a + b)[1..] == a[1..] + b;
      BagConcat(a[1..], b, files);
    }
  }

  lemma {:induction false} BagSnoc(segs: seq<SegMeta>, m: SegMeta, files: Files)
    ensures Bag(segs + [m], files) == Bag(segs, files) + multiset(FileRows(files, m.path))
  {
    BagConcat(segs, [m], files);
    assert Bag([m], files) == multiset(FileRows(files, m.path)) + Bag([m][1..], files);
  }

  lemma {:induction false} BagFrame(segs: seq<SegMeta>, files: Files, files': Files)
    requires forall i :: 0 <= i < |segs| ==> FileRows(files, segs[i].path) == FileRows(files', segs[i].path)
    ensures Bag(segs, files) == Bag(segs, files')
  {
    if segs != [] {
      BagFrame(segs[1..], files, files');
    }
  }

  lemma {:induction false} BagInsert(le: (SegMeta, SegMeta) -> bool, m: SegMeta, segs: seq<SegMeta>, files: Files)
    ensures Bag(Insert(le, m, segs), files) == Bag(segs, files) + multiset(FileRows(files, m.path))
  {
    if segs == [] || le(m, segs[0]) {
      assert ([m] + segs)[1..] == segs;
    } else {
      BagInsert(le, m, segs[1..], files);
      var r := Insert(le, m, segs[1..]);
      assert ([segs[0]] + r)[1..] == r;
    }
  }

  lemma {:induction false} BagSort(le: (SegMeta, SegMeta) -> bool, segs: seq<SegMeta>, files: Files)
    ensures Bag(Sort(le, segs), files) == Bag(segs, files)
  {
    if segs != [] {
      BagSort(le, segs[1..], files);
      BagInsert(le, segs[0], Sort(le, segs[1..]), files);
    }
  }

  lemma {:induction false} TakeSnoc<T>(s: seq<T>, n: nat)
    requires 0 < n <= |s|
    ensures s[..n] == s[..n - 1] + [s[n - 1]]
  {
  }

  lemma {:induction false} TierBag(buf: seq<Event>, segs: seq<SegMeta>, files: Files, n: nat)
    requires n <= |segs|
    ensures multiset(TierRows(buf, segs, files, n)) == multiset(buf) + Bag(segs[..n], files)
  {
    if n > 0 {
      TierBag(buf, segs, files, n - 1);
      TakeSnoc(segs, n);
      BagSnoc(segs[..n - 1], segs[n - 1], files);
    }
  }

  /** The manifest order: project, hour, path. */
  function SegOrder(): (SegMeta, SegMeta) -> bool {
    (a: SegMeta, b: SegMeta) =>
      if a.project != b.project then a.project < b.project
      else if a.hour != b.hour then a.hour < b.hour
      else if a.path.minTs != b.path.minTs then a.path.minTs < b.path.minTs
      else a.path.number <= b.path.number
  }

  // ---- Partitions ----

  /** Go's remainder takes the sign of the dividend. */
  function GoRem(a: int, m: int): int
    requires m > 0
  {
    if a >= 0 then a % m else -((-a) % m)
  }

  function GoDiv(a: int, m: int): int
    requires m > 0
  {
    if a >= 0 then a / m else -((-a) / m)
  }

  /** Partitions and buckets start at multiples of their width. A bucket holds the times from its start on, except that
      times before 1970 are rounded up: there the start lies after the time, unless it is the time itself. */
  lemma {:induction false} BucketStarts(ts: int, width: int)
    requires width > 0
    ensures var start := ts - GoRem(ts, width);
      && start == GoDiv(ts, width) * width
      && (start <= ts < start + width <==> ts >= 0 || start == ts)
  {
    var n := if ts >= 0 then ts else -ts;
    assert n == n / width * width + n % width;
    if ts < 0 {
      assert -(n / width) * width == -(n / width * width);
    }
  }

  function Times(n: int, width: int): int { n * width }

  ghost predicate Multiple(b: int, width: int) {
    exists n :: b == Times(n, width)
  }

  /** A time belongs to the bucket that starts at b, a multiple of the width: it lies in the width that follows, or
      before 1970 in the width that leads up to it. */
  ghost predicate InBucket(ts: int, b: int, width: int) {
    Multiple(b, width) && if ts >= 0 then b <= ts < b + width else b - width < ts <= b
  }

  lemma {:induction false} TimesGrows(n: int, m: int, width: int)
    requires width > 0 && n < m
    ensures Times(n, width) + width <= Times(m, width)
    decreases m - n
  {
    TimesNext(m - 1, width);
    if n < m - 1 {
      TimesGrows(n, m - 1, width);
    }
  }

  lemma {:induction false} TimesNext(n: int, width: int)
    ensures Times(n + 1, width) == Times(n, width) + width
  {
  }

  lemma {:induction false} MultipleBetween(b: int, c: int, width: int)
    requires width > 0 && Multiple(b, width) && Multiple(c, width) && b - width < c < b + width
    ensures b == c
  {
    var n :| b == Times(n, width);
    var m :| c == Times(m, width);
    if n < m {
      TimesGrows(n, m, width);
    } else if m < n {
      TimesGrows(m, n, width);
    }
  }

  /** Go's truncation puts every time into its bucket, and it is in no other. */
  lemma {:induction false} InOneBucket(ts: int, b: int, width: int)
    requires width > 0
    ensures InBucket(ts, b, width) <==> b == ts - GoRem(ts, width)
  {
    var start := ts - GoRem(ts, width);
    BucketStarts(ts, width);
    assert start == Times(GoDiv(ts, width), width);
    if InBucket(ts, b, width) {
      MultipleBetween(b, start, width);
    }
  }

  type Key = (int, int)

  function KeyOf(e: Event): Key {
    (e.project, e.ts - GoRem(e.ts, HOUR))
  }

  /** A partition is a project and an hour. */
  lemma {:induction false} KeyHolds(e: Event, k: Key)
    ensures KeyOf(e) == k <==> e.project == k.0 && InBucket(e.ts, k.1, 3_600_000_000_000)
  {
    InOneBucket(e.ts, k.1, HOUR);
  }

  function RowsIn(rows: seq<Event>, keys: set<Key>, n: nat): seq<Event>
    requires n <= |rows|
  {
    if n == 0 then []
    else if KeyOf(rows[n - 1]) in keys then RowsIn(rows, keys, n - 1) + [rows[n - 1]]
    else RowsIn(rows, keys, n - 1)
  }

  function KeysOf(rows: seq<Event>): set<Key> {
    set i | 0 <= i < |rows| :: KeyOf(rows[i])
  }

  lemma {:induction false} RowsInMore(rows: seq<Event>, done: set<Key>, k: Key, n: nat)
    requires n <= |rows| && k !in done
    ensures multiset(RowsIn(rows, done + {k}, n)) == multiset(RowsIn(rows, done, n)) + multiset(RowsIn(rows, {k}, n))
  {
    if n > 0 {
      RowsInMore(rows, done, k, n - 1);
    }
  }

  lemma {:induction false} RowsInAll(rows: seq<Event>, keys: set<Key>, n: nat)
    requires n <= |rows| && forall i :: 0 <= i < n ==> KeyOf(rows[i]) in keys
    ensures RowsIn(rows, keys, n) == rows[..n]
  {
    if n > 0 {
      RowsInAll(rows, keys, n - 1);
      assert rows[..n] == rows[..n - 1] + [rows[n - 1]];
    }
  }

  lemma {:induction false} RowsInKeys(rows: seq<Event>, keys: set<Key>, n: nat)
    requires n <= |rows|
    ensures forall i :: 0 <= i < |RowsIn(rows, keys, n)| ==>
      KeyOf(RowsIn(rows, keys, n)[i]) in keys && RowsIn(rows, keys, n)[i] in rows
  {
    if n > 0 {
      RowsInKeys(rows, keys, n - 1);
    }
  }

  lemma {:induction false} RowsInSome(rows: seq<Event>, k: Key, n: nat, i: nat)
    requires i < n <= |rows| && KeyOf(rows[i]) == k
    ensures RowsIn(rows, {k}, n) != []
  {
    if i < n - 1 {
      RowsInSome(rows, k, n - 1, i);
    }
  }

  // ---- Writing one segment ----

  function TimeOrder(): (Event, Event) -> bool {
    (a: Event, b: Event) => a.ts <= b.ts
  }

  lemma {:induction false} SortByTime(rows: seq<Event>)
    ensures Sorted(Sort(TimeOrder(), rows)) && multiset(Sort(TimeOrder(), rows)) == multiset(rows)
  {
    SortSorts(TimeOrder(), rows);
    SortPermutes(TimeOrder(), rows);
  }

  function SketchOf(h: Hll.Hash, rows: seq<Event>, n: nat): (r: seq<nat>)
    requires n <= |rows|
    ensures |r| == Hll.REGISTERS
  {
    if n == 0 then Hll.Empty()
    else if |rows[n - 1].userId| > 0 then Hll.Add(h, SketchOf(h, rows, n - 1), rows[n - 1].userId)
    else SketchOf(h, rows, n - 1)
  }

  lemma {:induction false} SketchStep(h: Hll.Hash, regs: seq<nat>, rows: seq<Event>, e: Event)
    requires |regs| == Hll.REGISTERS && Hll.IsSketch(h, regs, Users(rows))
    ensures Hll.IsSketch(h, if |e.userId| > 0 then Hll.Add(h, regs, e.userId) else regs, Users(rows + [e]))
  {
    UsersSnoc(rows, e);
    if |e.userId| > 0 {
      Hll.AddSketch(h, regs, Users(rows), e.userId);
    } else {
      assert Users(rows) + {} == Users(rows);
    }
  }

  lemma {:induction false} SketchOfUsers(h: Hll.Hash, rows: seq<Event>, n: nat)
    requires n <= |rows|
    ensures Hll.IsSketch(h, SketchOf(h, rows, n), Users(rows[..n]))
  {
    if n == 0 {
      Hll.EmptySketch(h);
      assert Users(rows[..0]) == {};
    } else {
      SketchOfUsers(h, rows, n - 1);
      SketchStep(h, SketchOf(h, rows, n - 1), rows[..n - 1], rows[n - 1]);
      TakeSnoc(rows, n);
    }
  }

  lemma {:induction false} UsersSnoc(rows: seq<Event>, e: Event)
    ensures Users(rows + [e]) == Users(rows) + (if |e.userId| > 0 then {e.userId} else {})
  {
    var all := rows + [e];
    forall u | u in Users(rows) + (if |e.userId| > 0 then {e.userId} else {})
      ensures u in Users(all)
    {
      if u in Users(rows) {
        var i :| 0 <= i < |rows| && |rows[i].userId| > 0 && rows[i].userId == u;
        assert all[i].userId == u;
      } else {
        assert all[|rows|].userId == u;
      }
    }
  }

  function BuildSegment(o: Options, rows: seq<Event>): Segment
    requires rows != []
  {
    var sorted := Sort(TimeOrder(), rows);
    Segment(o.layout(sorted), sorted[0].ts, sorted[|sorted| - 1].ts, SketchOf(o.hash, sorted, |sorted|))
  }

  lemma {:induction false} BuiltRows(o: Options, rows: seq<Event>)
    requires Faithful(o) && rows != []
    ensures SegRows(BuildSegment(o, rows)) == Sort(TimeOrder(), rows) && SegmentOk(BuildSegment(o, rows))
  {
    SortByTime(rows);
    assert Encodes(o.layout(Sort(TimeOrder(), rows)), Sort(TimeOrder(), rows));
  }

  lemma {:induction false} SortedKeys(rows: seq<Event>, k: Key)
    requires forall i :: 0 <= i < |rows| ==> KeyOf(rows[i]) == k
    ensures forall i :: 0 <= i < |rows| ==> KeyOf(Sort(TimeOrder(), rows)[i]) == k
  {
    var sorted := Sort(TimeOrder(), rows);
    forall i | 0 <= i < |sorted|
      ensures KeyOf(sorted[i]) == k
    {
      SortMembers(TimeOrder(), rows, sorted[i]);
    }
  }

  lemma {:induction false} HeadedDescribes(p: Path, s: Segment)
    requires Headed(p, s) && Sorted(SegRows(s))
    ensures Describes(MetaOf(p, s), s)
  {
    forall i | 0 <= i < |SegRows(s)|
      ensures SegRows(s)[i].project == p.project && s.minTs <= SegRows(s)[i].ts <= s.maxTs
    {
      assert KeyOf(SegRows(s)[i]) == (p.project, p.hour);
    }
  }

  /** A written segment holds exactly the partition's rows, sorted, under correct bounds and sketch. */
  lemma {:induction false} BuiltSegmentOk(o: Options, k: Key, rows: seq<Event>, number: nat)
    requires Faithful(o) && rows != [] && forall i :: 0 <= i < |rows| ==> KeyOf(rows[i]) == k
    ensures var s := BuildSegment(o, rows);
      && FileOk(o, Path(k.0, k.1, s.minTs, number), s) && SegRows(s) == Sort(TimeOrder(), rows)
      && s.minTs == SegRows(s)[0].ts && s.maxTs == SegRows(s)[|rows| - 1].ts
  {
    var s, sorted := BuildSegment(o, rows), Sort(TimeOrder(), rows);
    BuiltRows(o, rows);
    SortedKeys(rows, k);
    HeadedDescribes(Path(k.0, k.1, s.minTs, number), s);
    SketchOfUsers(o.hash, sorted, |sorted|);
    assert sorted[..|sorted|] == sorted;
  }
}
