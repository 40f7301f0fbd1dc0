/** What a flush writes (internal/eventstore/store.go): one file per partition, and what that does to the rows that the
    manifest already shows. */
module Compaction {
  import opened Base
  import opened Rows
  import opened Sorting
  import opened Store

  /** Where writeSegment can fail: creating the directory, or anywhere from creating the file to its rename. */
  datatype Fault = NoDirectory | NoFile

  ghost predicate InSegs(segs: seq<SegMeta>, p: Path) {
    exists i :: 0 <= i < |segs| && segs[i].path == p
  }

  function PathSet(segs: seq<SegMeta>): set<Path> {
    set i | 0 <= i < |segs| :: segs[i].path
  }

  // ---- The partitions of a flush ----

  ghost predicate Distinct(order: seq<Key>) {
    forall i, j :: 0 <= i < j < |order| ==> order[i] != order[j]
  }

  /** Any order in which the partitions can be visited. */
  ghost predicate IsOrder(order: seq<Key>, rows: seq<Event>) {
    Distinct(order) && forall k :: k in order <==> k in KeysOf(rows)
  }

  function SortedPart(rows: seq<Event>, k: Key): seq<Event> {
    Sort(TimeOrder(), RowsIn(rows, {k}, |rows|))
  }

  ghost predicate IsPart(rows: seq<Event>, k: Key, part: seq<Event>) {
    k in KeysOf(rows) && part == RowsIn(rows, {k}, |rows|)
  }

  lemma {:induction false} PartOf(rows: seq<Event>, k: Key)
    requires k in KeysOf(rows)
    ensures var part := RowsIn(rows, {k}, |rows|);
      part != [] && forall i :: 0 <= i < |part| ==> KeyOf(part[i]) == k
  {
    var i :| 0 <= i < |rows| && KeyOf(rows[i]) == k;
    RowsInSome(rows, k, |rows|, i);
    RowsInKeys(rows, {k}, |rows|);
  }

  /** The content and the path of each partition's file, when the count of writes stands at `count`. */
  datatype Plan = Plan(paths: seq<Path>, contents: seq<seq<Event>>)

  function FirstTs(rows: seq<Event>): int {
    if rows == [] then 0 else rows[0].ts
  }

  function PlanOf(rows: seq<Event>, order: seq<Key>, count: nat): Plan {
    Plan(seq(|order|, i requires 0 <= i < |order| =>
           Path(order[i].0, order[i].1, FirstTs(SortedPart(rows, order[i])), count + i + 1)),
         seq(|order|, i requires 0 <= i < |order| => SortedPart(rows, order[i])))
  }

  /** The timestamp in a path is the least of its partition. */
  lemma {:induction false} PathHasLeastTs(rows: seq<Event>, k: Key, x: Event)
    requires x in rows && KeyOf(x) == k
    ensures FirstTs(SortedPart(rows, k)) <= x.ts
    ensures exists y :: y in rows && KeyOf(y) == k && y.ts == FirstTs(SortedPart(rows, k))
  {
    var part, sorted := RowsIn(rows, {k}, |rows|), SortedPart(rows, k);
    RowsInAllOf(rows, k, |rows|, x);
    SortByTime(part);
    SortMembers(TimeOrder(), part, x);
    var i :| 0 <= i < |sorted| && sorted[i] == x;
    RowsInKeys(rows, {k}, |rows|);
    SortMembers(TimeOrder(), part, sorted[0]);
    assert sorted[0] in part;
  }

  lemma {:induction false} RowsInAllOf(rows: seq<Event>, k: Key, n: nat, x: Event)
    requires n <= |rows| && x in rows[..n] && KeyOf(x) == k
    ensures x in RowsIn(rows, {k}, n)
  {
    TakeSnoc(rows, n);
    if x != rows[n - 1] {
      RowsInAllOf(rows, k, n - 1, x);
    }
  }

  /** A plan's files are told apart by their numbers and their partitions, and each holds rows of its own partition. */
  ghost predicate PlanOk(plan: Plan) {
    && |plan.contents| == |plan.paths|
    && (forall i, j :: 0 <= i < j < |plan.paths| ==>
      plan.paths[i] != plan.paths[j] && PathKey(plan.paths[i]) != PathKey(plan.paths[j]))
    && (forall i :: 0 <= i < |plan.paths| ==> Keyed(plan.contents[i], PathKey(plan.paths[i])))
  }

  function PathKey(p: Path): Key {
    (p.project, p.hour)
  }

  ghost predicate Keyed(rows: seq<Event>, k: Key) {
    |rows| > 0 && Sorted(rows) && forall i :: 0 <= i < |rows| ==> KeyOf(rows[i]) == k
  }

  lemma {:induction false} SortedPartKeyed(rows: seq<Event>, k: Key)
    requires k in KeysOf(rows)
    ensures Keyed(SortedPart(rows, k), k)
  {
    PartOf(rows, k);
    SortedKeys(RowsIn(rows, {k}, |rows|), k);
    SortByTime(RowsIn(rows, {k}, |rows|));
  }

  lemma {:induction false} PlanIsOk(rows: seq<Event>, order: seq<Key>, count: nat)
    requires IsOrder(order, rows)
    ensures PlanOk(PlanOf(rows, order, count))
  {
    var plan := PlanOf(rows, order, count);
    forall i | 0 <= i < |order|
      ensures Keyed(plan.contents[i], PathKey(plan.paths[i]))
    {
      assert order[i] in order;
      SortedPartKeyed(rows, order[i]);
    }
  }

  // ---- Files on disk after the first n writes ----

  ghost predicate InFirst(paths: seq<Path>, n: nat, p: Path) {
    exists i :: 0 <= i < n <= |paths| && paths[i] == p
  }

  lemma {:induction false} InFirstMore(paths: seq<Path>, n: nat, p: Path)
    requires n < |paths|
    ensures InFirst(paths, n + 1, p) <==> InFirst(paths, n, p) || p == paths[n]
  {
  }

  /** The first n files of the plan are on disk with their contents; every other file is as before. */
  ghost predicate Landed(plan: Plan, n: nat, files0: Files, files: Files) {
    && n <= |plan.paths| == |plan.contents|
    && (forall i :: 0 <= i < n ==> plan.paths[i] in files && SegRows(files[plan.paths[i]]) == plan.contents[i])
    && (forall p :: p in files && !InFirst(plan.paths, n, p) ==> p in files0 && files[p] == files0[p])
    && (forall p :: p in files0 ==> p in files)
  }

  lemma {:induction false} LandedMore(plan: Plan, n: nat, files0: Files, files: Files, s: Segment)
    requires PlanOk(plan) && Landed(plan, n, files0, files) && n < |plan.paths| && SegRows(s) == plan.contents[n]
    ensures Landed(plan, n + 1, files0, files[plan.paths[n] := s])
  {
    var paths, files' := plan.paths, files[plan.paths[n] := s];
    forall i | 0 <= i < n + 1
      ensures paths[i] in files' && SegRows(files'[paths[i]]) == plan.contents[i]
    {
      assert i < n ==> paths[i] != paths[n];
    }
    forall p | p in files' && !InFirst(paths, n + 1, p)
      ensures p in files0 && files'[p] == files0[p]
    {
      InFirstMore(paths, n, p);
    }
  }

  lemma {:induction false} FilesOkStep(o: Options, files: Files, p: Path, s: Segment)
    requires FilesOk(o, files) && FileOk(o, p, s)
    ensures FilesOk(o, files[p := s])
  {
  }

  /** The manifest entries of the first n files. */
  ghost predicate EntriesOf(paths: seq<Path>, n: nat, segs: seq<SegMeta>, files: Files) {
    |segs| == n <= |paths|
      && forall i :: 0 <= i < n ==> paths[i] in files && segs[i] == MetaOf(paths[i], files[paths[i]])
  }

  lemma {:induction false} EntriesMore(plan: Plan, n: nat, segs: seq<SegMeta>, files: Files, s: Segment)
    requires PlanOk(plan) && n < |plan.paths| && EntriesOf(plan.paths, n, segs, files)
    ensures EntriesOf(plan.paths, n + 1, segs + [MetaOf(plan.paths[n], s)], files[plan.paths[n] := s])
  {
  }

  lemma {:induction false} EntriesRegistered(paths: seq<Path>, n: nat, segs: seq<SegMeta>, files: Files)
    requires EntriesOf(paths, n, segs, files)
    ensures Registered(segs, files) && forall p :: p in PathSet(segs) <==> InFirst(paths, n, p)
  {
    forall p | InFirst(paths, n, p)
      ensures p in PathSet(segs)
    {
      var i :| 0 <= i < n <= |paths| && paths[i] == p;
      assert segs[i].path == p;
    }
  }

  // ---- Their rows ----

  function Keys(order: seq<Key>, n: nat): set<Key>
    requires n <= |order|
  {
    if n == 0 then {} else Keys(order, n - 1) + {order[n - 1]}
  }

  lemma {:induction false} KeysAre(order: seq<Key>, n: nat)
    requires n <= |order|
    ensures forall k :: k in Keys(order, n) <==> k in order[..n]
  {
    if n > 0 {
      KeysAre(order, n - 1);
      TakeSnoc(order, n);
    }
  }

  lemma {:induction false} KeyIsNew(order: seq<Key>, n: nat)
    requires n < |order| && Distinct(order)
    ensures order[n] !in Keys(order, n)
  {
    KeysAre(order, n);
  }

  lemma {:induction false} NothingIn(rows: seq<Event>, n: nat)
    requires n <= |rows|
    ensures RowsIn(rows, {}, n) == []
  {
    if n > 0 {
      NothingIn(rows, n - 1);
    }
  }

  lemma {:induction false} PartJoins(rows: seq<Event>, done: set<Key>, a: multiset<Event>, k: Key, b: seq<Event>)
    requires a == multiset(RowsIn(rows, done, |rows|)) && k !in done && b == SortedPart(rows, k)
    ensures a + multiset(b) == multiset(RowsIn(rows, done + {k}, |rows|))
  {
    SortPermutes(TimeOrder(), RowsIn(rows, {k}, |rows|));
    RowsInMore(rows, done, k, |rows|);
  }

  /** The first n contents, as a bag. */
  function Contents(contents: seq<seq<Event>>, n: nat): multiset<Event>
    requires n <= |contents|
  {
    if n == 0 then multiset{} else Contents(contents, n - 1) + multiset(contents[n - 1])
  }

  ghost predicate Holds(rows: seq<Event>, k: Key, content: seq<Event>) {
    content == SortedPart(rows, k)
  }

  /** They are exactly the rows of the first n partitions. */
  lemma {:induction false} ContentsAreRows(rows: seq<Event>, order: seq<Key>, contents: seq<seq<Event>>, n: nat)
    requires Distinct(order) && n <= |order| == |contents|
    requires forall i {:trigger Holds(rows, order[i], contents[i])} :: 0 <= i < |order| ==>
      Holds(rows, order[i], contents[i])
    ensures Contents(contents, n) == multiset(RowsIn(rows, Keys(order, n), |rows|))
  {
    if n == 0 {
      NothingIn(rows, |rows|);
    } else {
      ContentsAreRows(rows, order, contents, n - 1);
      KeyIsNew(order, n - 1);
      assert Holds(rows, order[n - 1], contents[n - 1]);
      PartJoins(rows, Keys(order, n - 1), Contents(contents, n - 1), order[n - 1], contents[n - 1]);
    }
  }

  lemma {:induction false} EveryPart(rows: seq<Event>, order: seq<Key>)
    requires IsOrder(order, rows)
    ensures RowsIn(rows, Keys(order, |order|), |rows|) == rows
  {
    KeysAre(order, |order|);
    assert order[..|order|] == order;
    RowsInAll(rows, Keys(order, |order|), |rows|);
    assert rows[..|rows|] == rows;
  }

  lemma {:induction false} PlanRows(rows: seq<Event>, order: seq<Key>, count: nat, n: nat)
    requires IsOrder(order, rows) && n <= |order|
    ensures Contents(PlanOf(rows, order, count).contents, n) == multiset(RowsIn(rows, Keys(order, n), |rows|))
    ensures n == |order| ==> Contents(PlanOf(rows, order, count).contents, n) == multiset(rows)
  {
    ContentsAreRows(rows, order, PlanOf(rows, order, count).contents, n);
    EveryPart(rows, order);
  }

  /** The new entries show exactly the contents written. */
  lemma {:induction false} EntriesBag(contents: seq<seq<Event>>, segs: seq<SegMeta>, files: Files, n: nat)
    requires n <= |segs| <= |contents| && forall i :: 0 <= i < |segs| ==> FileRows(files, segs[i].path) == contents[i]
    ensures Bag(segs[..n], files) == Contents(contents, n)
  {
    if n > 0 {
      EntriesBag(contents, segs, files, n - 1);
      TakeSnoc(segs, n);
      BagSnoc(segs[..n - 1], segs[n - 1], files);
    }
  }

  lemma {:induction false} LandedBag(plan: Plan, n: nat, files0: Files, files: Files, segs: seq<SegMeta>)
    requires Landed(plan, n, files0, files) && EntriesOf(plan.paths, n, segs, files)
    ensures Bag(segs, files) == Contents(plan.contents, n)
  {
    EntriesBag(plan.contents, segs, files, n);
    assert segs[..n] == segs;
  }

  // ---- What the writes do to the rows already shown ----

  /** No file the manifest shows is replaced by other rows: for each path written, the manifest does not have it or its
      file already holds the rows that are written. */
  ghost predicate Harmless(plan: Plan, n: nat, segs: seq<SegMeta>, files0: Files)
    requires n <= |plan.paths| == |plan.contents|
  {
    forall i :: 0 <= i < n && InSegs(segs, plan.paths[i]) ==>
      multiset(FileRows(files0, plan.paths[i])) == multiset(plan.contents[i])
  }

  lemma {:induction false} SameBag(segs: seq<SegMeta>, files: Files, files': Files)
    requires forall i :: 0 <= i < |segs| ==>
      multiset(FileRows(files, segs[i].path)) == multiset(FileRows(files', segs[i].path))
    ensures Bag(segs, files) == Bag(segs, files')
  {
    if segs != [] {
      SameBag(segs[1..], files, files');
    }
  }

  /** How often a file shows x. */
  function Times(files: Files, p: Path, x: Event): nat {
    multiset(FileRows(files, p))[x]
  }

  lemma {:induction false} BagHead(segs: seq<SegMeta>, files: Files, x: Event)
    requires segs != []
    ensures Bag(segs, files)[x] == Times(files, segs[0].path, x) + Bag(segs[1..], files)[x]
  {
  }

  /** If no file has fewer of x and one that is shown has more, more of x are shown. */
  lemma {:induction false} MoreShown(segs: seq<SegMeta>, files: Files, files': Files, x: Event, j: nat)
    requires forall i :: 0 <= i < |segs| ==> Times(files, segs[i].path, x) <= Times(files', segs[i].path, x)
    ensures Bag(segs, files)[x] <= Bag(segs, files')[x]
    ensures j < |segs| && Times(files, segs[j].path, x) < Times(files', segs[j].path, x) ==>
      Bag(segs, files)[x] < Bag(segs, files')[x]
    decreases |segs|
  {
    if segs != [] {
      MoreShown(segs[1..], files, files', x, if j == 0 then |segs| else j - 1);
      BagHead(segs, files, x);
      BagHead(segs, files', x);
    }
  }

  /** Rows are only found in files of their own partition. */
  lemma {:induction false} NotIn(rows: seq<Event>, k: Key, x: Event)
    requires Keyed(rows, k) && KeyOf(x) != k
    ensures multiset(rows)[x] == 0
  {
    assert x !in rows;
  }

  lemma {:induction false} FileKeyed(o: Options, files: Files, p: Path)
    requires FilesOk(o, files) && p in files
    ensures Keyed(FileRows(files, p), PathKey(p))
  {
    assert FileOk(o, p, files[p]);
  }

  /** A row of partition i is counted as before in every file but the i-th. */
  lemma {:induction false} CountedElsewhere(o: Options, plan: Plan, n: nat, files: Files, files': Files, i: nat,
                                            x: Event, q: Path)
    requires PlanOk(plan) && Landed(plan, n, files, files') && FilesOk(o, files) && i < n
      && KeyOf(x) == PathKey(plan.paths[i])
    requires q in files && q != plan.paths[i]
    ensures Times(files, q, x) == Times(files', q, x)
  {
    if InFirst(plan.paths, n, q) {
      var j :| 0 <= j < n && plan.paths[j] == q;
      NotCounted(o, plan, files, i, j, x);
      assert FileRows(files', q) == plan.contents[j];
    }
  }

  lemma {:induction false} NotCounted(o: Options, plan: Plan, files: Files, i: nat, j: nat, x: Event)
    requires PlanOk(plan) && FilesOk(o, files) && i < |plan.paths| && j < |plan.paths| && i != j
    requires KeyOf(x) == PathKey(plan.paths[i]) && plan.paths[j] in files
    ensures Times(files, plan.paths[j], x) == 0 && multiset(plan.contents[j])[x] == 0
  {
    var q := plan.paths[j];
    assert PathKey(q) != PathKey(plan.paths[i]);
    NotIn(plan.contents[j], PathKey(q), x);
    FileKeyed(o, files, q);
    NotIn(FileRows(files, q), PathKey(q), x);
  }

  /** What a replaced file shows decides: fewer or more of one row there are fewer or more of it in all. */
  lemma {:induction false} ReplacedCounts(o: Options, plan: Plan, n: nat, segs: seq<SegMeta>, files: Files,
                                          files': Files, i: nat, x: Event)
    requires PlanOk(plan) && Landed(plan, n, files, files') && FilesOk(o, files) && Registered(segs, files) && i < n
    requires KeyOf(x) == PathKey(plan.paths[i]) && InSegs(segs, plan.paths[i])
      && Bag(segs, files')[x] == Bag(segs, files)[x]
    ensures multiset(FileRows(files, plan.paths[i]))[x] == multiset(plan.contents[i])[x]
  {
    var p := plan.paths[i];
    forall j | 0 <= j < |segs| && segs[j].path != p
      ensures Times(files, segs[j].path, x) == Times(files', segs[j].path, x)
    {
      CountedElsewhere(o, plan, n, files, files', i, x, segs[j].path);
    }
    assert FileRows(files', p) == plan.contents[i];
    var j :| 0 <= j < |segs| && segs[j].path == p;
    if Times(files, p, x) <= Times(files', p, x) {
      MoreShown(segs, files, files', x, j);
    } else {
      MoreShown(segs, files', files, x, j);
    }
  }

  lemma {:induction false} HarmlessKeeps(o: Options, plan: Plan, n: nat, segs: seq<SegMeta>, files: Files,
                                         files': Files)
    requires Landed(plan, n, files, files') && Registered(segs, files) && Harmless(plan, n, segs, files)
    ensures Bag(segs, files') == Bag(segs, files)
  {
    forall j | 0 <= j < |segs|
      ensures multiset(FileRows(files, segs[j].path)) == multiset(FileRows(files', segs[j].path))
    {
      var q := segs[j].path;
      if InFirst(plan.paths, n, q) {
        var i :| 0 <= i < n && plan.paths[i] == q;
        assert InSegs(segs, plan.paths[i]);
      }
    }
    SameBag(segs, files, files');
  }

  /** The rows the manifest shows are the same after the writes if and only if the writes are harmless. */
  lemma {:induction false} ShownIffHarmless(o: Options, plan: Plan, n: nat, segs: seq<SegMeta>, files: Files,
                                            files': Files)
    requires PlanOk(plan) && Landed(plan, n, files, files') && FilesOk(o, files) && Registered(segs, files)
    ensures Bag(segs, files') == Bag(segs, files) <==> Harmless(plan, n, segs, files)
  {
    if Harmless(plan, n, segs, files) {
      HarmlessKeeps(o, plan, n, segs, files, files');
    }
    if Bag(segs, files') == Bag(segs, files) {
      forall i | 0 <= i < n && InSegs(segs, plan.paths[i])
        ensures multiset(FileRows(files, plan.paths[i])) == multiset(plan.contents[i])
      {
        SameRows(o, plan, n, segs, files, files', i);
      }
    }
  }

  lemma {:induction false} SameRows(o: Options, plan: Plan, n: nat, segs: seq<SegMeta>, files: Files, files': Files,
                                    i: nat)
    requires PlanOk(plan) && Landed(plan, n, files, files') && FilesOk(o, files) && Registered(segs, files) && i < n
    requires InSegs(segs, plan.paths[i]) && Bag(segs, files') == Bag(segs, files)
    ensures multiset(FileRows(files, plan.paths[i])) == multiset(plan.contents[i])
  {
    var p := plan.paths[i];
    assert p in files;
    FileKeyed(o, files, p);
    forall x
      ensures multiset(FileRows(files, p))[x] == multiset(plan.contents[i])[x]
    {
      if KeyOf(x) == PathKey(p) {
        ReplacedCounts(o, plan, n, segs, files, files', i, x);
      } else {
        NotIn(FileRows(files, p), PathKey(p), x);
        NotIn(plan.contents[i], PathKey(p), x);
      }
    }
  }

  // ---- The manifest stays right when the writes are harmless ----

  /** In time order the same rows have the same first and last timestamp. */
  lemma {:induction false} SameEnds(a: seq<Event>, b: seq<Event>)
    requires Sorted(a) && Sorted(b) && multiset(a) == multiset(b) && |a| > 0
    ensures |a| == |b| && a[0].ts == b[0].ts && a[|a| - 1].ts == b[|b| - 1].ts
  {
    SameLength(a, b);
    SameElements(a, b, a[0]);
    SameElements(a, b, b[0]);
    SameElements(a, b, a[|a| - 1]);
    SameElements(a, b, b[|b| - 1]);
  }

  lemma {:induction false} SameLength(a: seq<Event>, b: seq<Event>)
    requires multiset(a) == multiset(b)
    ensures |a| == |b|
  {
    assert |multiset(a)| == |a| && |multiset(b)| == |b|;
  }

  lemma {:induction false} EntryStays(o: Options, p: Path, s: Segment, s': Segment)
    requires FileOk(o, p, s) && FileOk(o, p, s') && multiset(SegRows(s)) == multiset(SegRows(s'))
    ensures MetaOf(p, s) == MetaOf(p, s')
  {
    SameEnds(SegRows(s), SegRows(s'));
  }

  lemma {:induction false} HarmlessRegistered(o: Options, plan: Plan, n: nat, segs: seq<SegMeta>, files: Files,
                                              files': Files)
    requires Landed(plan, n, files, files') && FilesOk(o, files) && FilesOk(o, files') && Registered(segs, files)
    requires Harmless(plan, n, segs, files)
    ensures Registered(segs, files')
  {
    forall j | 0 <= j < |segs|
      ensures segs[j].path in files' && segs[j] == MetaOf(segs[j].path, files'[segs[j].path])
    {
      var q := segs[j].path;
      if InFirst(plan.paths, n, q) {
        var i :| 0 <= i < n && plan.paths[i] == q;
        assert InSegs(segs, plan.paths[i]) && FileOk(o, q, files[q]) && FileOk(o, q, files'[q]);
        EntryStays(o, q, files[q], files'[q]);
      }
    }
  }

  /** Unused paths are harmless; so are the next numbers of a lifetime that wrote, or saw, no later one. */
  ghost predicate Unused(plan: Plan, files: Files) {
    forall i :: 0 <= i < |plan.paths| ==> plan.paths[i] !in files
  }

  lemma {:induction false} UnusedIsHarmless(plan: Plan, n: nat, segs: seq<SegMeta>, files: Files)
    requires n <= |plan.paths| == |plan.contents| && Unused(plan, files) && Registered(segs, files)
    ensures Harmless(plan, n, segs, files)
  {
  }

  lemma {:induction false} NextNumbersUnused(rows: seq<Event>, order: seq<Key>, count: nat, files: Files)
    requires forall p :: p in files ==> p.number <= count
    ensures Unused(PlanOf(rows, order, count), files)
  {
  }

  // ---- The rows of a set of files, in whatever order they are listed ----

  function PathsBag(paths: seq<Path>, files: Files): multiset<Event> {
    if paths == [] then multiset{} else multiset(FileRows(files, paths[0])) + PathsBag(paths[1..], files)
  }

  lemma {:induction false} PathsBagConcat(a: seq<Path>, b: seq<Path>, files: Files)
    ensures PathsBag(a + b, files) == PathsBag(a, files) + PathsBag(b, files)
  {
    if a == [] {
      assert a + b == b;
    } else {
      assert (a + b)[1..] == a[1..] + b;
      PathsBagConcat(a[1..], b, files);
    }
  }

  lemma {:induction false} PathsBagOne(p: Path, files: Files)
    ensures PathsBag([p], files) == multiset(FileRows(files, p))
  {
    assert [p][1..] == [];
  }

  lemma {:induction false} PathsBagTakes(v: seq<Path>, j: nat, files: Files)
    requires j < |v|
    ensures PathsBag(v, files) == PathsBag(v[..j] + v[j + 1..], files) + multiset(FileRows(files, v[j]))
  {
    assert v == v[..j] + ([v[j]] + v[j + 1..]);
    PathsBagConcat(v[..j], [v[j]] + v[j + 1..], files);
    PathsBagConcat([v[j]], v[j + 1..], files);
    PathsBagOne(v[j], files);
    PathsBagConcat(v[..j], v[j + 1..], files);
  }

  lemma {:induction false} TakeOut(v: seq<Path>, j: nat, w: seq<Path>)
    requires j < |v| && AllDistinct(v) && w == v[..j] + v[j + 1..]
    ensures AllDistinct(w) && forall p :: p in w <==> p in v && p != v[j]
  {
    forall p | p in v && p != v[j]
      ensures p in w
    {
      var i :| 0 <= i < |v| && v[i] == p;
      assert w[if i < j then i else i - 1] == p;
    }
  }

  lemma {:induction false} Inhabited<T>(s: seq<T>)
    requires s != []
    ensures s[0] in s
  {
  }

  /** Two listings of the same files show the same rows. */
  lemma {:induction false} SameListing(u: seq<Path>, v: seq<Path>, files: Files)
    requires AllDistinct(u) && AllDistinct(v) && forall p :: p in u <==> p in v
    ensures PathsBag(u, files) == PathsBag(v, files)
    decreases |u|
  {
    if v != [] {
      Inhabited(v);
    }
    if u != [] {
      Inhabited(u);
      var j :| 0 <= j < |v| && v[j] == u[0];
      var w := v[..j] + v[j + 1..];
      PathsBagTakes(v, j, files);
      TakeOut(v, j, w);
      TakeOut(u, 0, u[1..]);
      SameListing(u[1..], w, files);
    }
  }

  lemma {:induction false} PathsBagContents(plan: Plan, n: nat, m: nat, files0: Files, files: Files)
    requires Landed(plan, n, files0, files) && m <= n
    ensures PathsBag(plan.paths[..m], files) == Contents(plan.contents, m)
  {
    if m > 0 {
      PathsBagContents(plan, n, m - 1, files0, files);
      TakeSnoc(plan.paths, m);
      PathsBagConcat(plan.paths[..m - 1], [plan.paths[m - 1]], files);
      PathsBagOne(plan.paths[m - 1], files);
    }
  }

  /** Any listing of the files just written shows exactly the contents written. */
  lemma {:induction false} ListingOfPlan(plan: Plan, n: nat, files0: Files, files: Files, u: seq<Path>)
    requires PlanOk(plan) && Landed(plan, n, files0, files) && AllDistinct(u)
      && forall p :: p in u <==> InFirst(plan.paths, n, p)
    ensures PathsBag(u, files) == Contents(plan.contents, n)
  {
    var v := plan.paths[..n];
    forall p
      ensures p in u <==> p in v
    {
      if InFirst(plan.paths, n, p) {
        var i :| 0 <= i < n && plan.paths[i] == p;
        assert v[i] == p;
      }
    }
    SameListing(u, v, files);
    PathsBagContents(plan, n, n, files0, files);
  }

  lemma {:induction false} PathsBagFrame(u: seq<Path>, files0: Files, files: Files)
    requires forall i :: 0 <= i < |u| ==> FileRows(files, u[i]) == FileRows(files0, u[i])
    ensures PathsBag(u, files) == PathsBag(u, files0)
  {
    if u != [] {
      PathsBagFrame(u[1..], files0, files);
    }
  }

  lemma {:induction false} OldAndNew(plan: Plan, n: nat, files0: Files, files: Files, u0: seq<Path>, u: seq<Path>,
                                     v: seq<Path>)
    requires PlanOk(plan) && Landed(plan, n, files0, files) && Unused(plan, files0)
    requires AllDistinct(u0) && (forall p :: p in files0 <==> p in u0) && (forall p :: p in files <==> p in u)
    requires v == u0 + plan.paths[..n]
    ensures AllDistinct(v) && forall p :: p in u <==> p in v
  {
    var w := plan.paths[..n];
    forall p
      ensures p in w <==> InFirst(plan.paths, n, p)
    {
      if InFirst(plan.paths, n, p) {
        var i :| 0 <= i < n && plan.paths[i] == p;
        assert w[i] == p;
      }
    }
    forall i, j | 0 <= i < j < |v|
      ensures v[i] != v[j]
    {
      if i < |u0| <= j {
        assert v[i] in u0 && v[j] == plan.paths[j - |u0|];
      }
    }
  }

  lemma {:induction false} OldUnchanged(plan: Plan, n: nat, files0: Files, files: Files, u0: seq<Path>)
    requires Landed(plan, n, files0, files) && Unused(plan, files0) && forall i :: 0 <= i < |u0| ==> u0[i] in files0
    ensures PathsBag(u0, files) == PathsBag(u0, files0)
  {
    PathsBagFrame(u0, files0, files);
  }

  lemma {:induction false} JoinedBag(plan: Plan, n: nat, files0: Files, files: Files, u0: seq<Path>)
    requires Landed(plan, n, files0, files) && Unused(plan, files0) && forall i :: 0 <= i < |u0| ==> u0[i] in files0
    ensures PathsBag(u0 + plan.paths[..n], files) == PathsBag(u0, files0) + Contents(plan.contents, n)
  {
    PathsBagConcat(u0, plan.paths[..n], files);
    PathsBagContents(plan, n, n, files0, files);
    OldUnchanged(plan, n, files0, files, u0);
  }

  /** On unused paths, the rows on disk, as another process lists them, grow by exactly the contents written. */
  lemma {:induction false} DiskGrows(plan: Plan, n: nat, files0: Files, files: Files, u0: seq<Path>, u: seq<Path>)
    requires PlanOk(plan) && Landed(plan, n, files0, files) && Unused(plan, files0) && AllDistinct(u0) && AllDistinct(u)
    requires (forall p :: p in files0 <==> p in u0) && (forall p :: p in files <==> p in u)
    ensures PathsBag(u, files) == PathsBag(u0, files0) + Contents(plan.contents, n)
  {
    var v := u0 + plan.paths[..n];
    OldAndNew(plan, n, files0, files, u0, u, v);
    SameListing(u, v, files);
    JoinedBag(plan, n, files0, files, u0);
  }
}
