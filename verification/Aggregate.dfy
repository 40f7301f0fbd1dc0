/** Aggregation over a query window (internal/eventstore/aggregate.go): totals, time buckets, top-N lists and the
    sketch of distinct users, against a row-by-row reference. */
module Aggregate {
  import opened Rows
  import opened Sorting
  import opened Store
  import Hll
  import EventStore

  // ---- The reference: counting matching rows ----

  function CountOf<K(==)>(rows: seq<Event>, f: Event -> K, k: K, n: nat): nat
    requires n <= |rows|
  {
    if n == 0 then 0 else CountOf(rows, f, k, n - 1) + if f(rows[n - 1]) == k then 1 else 0
  }

  function Count<K(==)>(rows: seq<Event>, f: Event -> K, k: K): nat {
    CountOf(rows, f, k, |rows|)
  }

  lemma {:induction false} CountFrame<K>(rows: seq<Event>, e: Event, f: Event -> K, k: K, n: nat)
    requires n <= |rows|
    ensures CountOf(rows + [e], f, k, n) == CountOf(rows, f, k, n)
  {
    if n > 0 {
      CountFrame(rows, e, f, k, n - 1);
    }
  }

  lemma {:induction false} CountSnoc<K>(rows: seq<Event>, e: Event, f: Event -> K, k: K)
    ensures Count(rows + [e], f, k) == Count(rows, f, k) + if f(e) == k then 1 else 0
  {
    CountFrame(rows, e, f, k, |rows|);
  }

  /** One row of an answer: a key and how many matching rows have it. */
  datatype Entry<K> = Entry(key: K, count: nat)

  function BucketOf(width: int): Event -> int
    requires width > 0
  {
    (e: Event) => e.ts - GoRem(e.ts, width)
  }

  function LevelOf(): (f: Event -> string)
    ensures forall e :: f(e) == e.level
  {
    (e: Event) => e.level
  }

  function ReleaseOf(): (f: Event -> string)
    ensures forall e :: f(e) == e.release
  {
    (e: Event) => e.release
  }

  function EnvironmentOf(): (f: Event -> string)
    ensures forall e :: f(e) == e.environment
  {
    (e: Event) => e.environment
  }

  function FingerprintOf(): (f: Event -> string)
    ensures forall e :: f(e) == e.fingerprint
  {
    (e: Event) => e.fingerprint
  }

  /** The buckets in time order: those that have rows, each with its count. */
  ghost predicate AreBuckets(out: seq<Entry<int>>, rows: seq<Event>, f: Event -> int) {
    && (forall i, j :: 0 <= i < j < |out| ==> out[i].key < out[j].key)
    && (forall i :: 0 <= i < |out| ==> out[i].count == Count(rows, f, out[i].key) > 0)
    && (forall k :: Count(rows, f, k) > 0 ==> HasKey(out, k))
  }

  /** How many of the first n rows lie in the bucket. */
  ghost function RowsInBucket(rows: seq<Event>, b: int, width: int, n: nat): nat
    requires width > 0 && n <= |rows|
  {
    if n == 0 then 0 else RowsInBucket(rows, b, width, n - 1) + if InBucket(rows[n - 1].ts, b, width) then 1 else 0
  }

  /** The time series of the rows: the buckets that have rows, in order, each with the number of its rows. */
  ghost predicate Histogram(out: seq<Entry<int>>, rows: seq<Event>, width: int)
    requires width > 0
  {
    && (forall i, j :: 0 <= i < j < |out| ==> out[i].key < out[j].key)
    && (forall i :: 0 <= i < |out| ==>
          Multiple(out[i].key, width) && out[i].count == RowsInBucket(rows, out[i].key, width, |rows|) > 0)
    && (forall j :: 0 <= j < |rows| ==> exists i :: 0 <= i < |out| && InBucket(rows[j].ts, out[i].key, width))
  }

  lemma {:induction false} CountsBucket(rows: seq<Event>, b: int, width: int, n: nat)
    requires width > 0 && n <= |rows|
    ensures CountOf(rows, BucketOf(width), b, n) == RowsInBucket(rows, b, width, n)
  {
    if n > 0 {
      CountsBucket(rows, b, width, n - 1);
      InOneBucket(rows[n - 1].ts, b, width);
    }
  }

  lemma {:induction false} CountsRow<K>(rows: seq<Event>, f: Event -> K, k: K, n: nat, j: nat)
    requires j < n <= |rows| && f(rows[j]) == k
    ensures CountOf(rows, f, k, n) > 0
  {
    if j < n - 1 {
      CountsRow(rows, f, k, n - 1, j);
    }
  }

  lemma {:induction false} SomeInBucket(rows: seq<Event>, b: int, width: int, n: nat)
    requires width > 0 && n <= |rows| && RowsInBucket(rows, b, width, n) > 0
    ensures Multiple(b, width)
  {
    if !InBucket(rows[n - 1].ts, b, width) {
      SomeInBucket(rows, b, width, n - 1);
    }
  }

  /** The buckets of the accumulators are that time series. */
  lemma {:induction false} BucketsAreHistogram(out: seq<Entry<int>>, rows: seq<Event>, width: int)
    requires width > 0 && AreBuckets(out, rows, BucketOf(width))
    ensures Histogram(out, rows, width)
  {
    var f := BucketOf(width);
    forall i | 0 <= i < |out|
      ensures Multiple(out[i].key, width) && out[i].count == RowsInBucket(rows, out[i].key, width, |rows|) > 0
    {
      CountsBucket(rows, out[i].key, width, |rows|);
      SomeInBucket(rows, out[i].key, width, |rows|);
    }
    forall j | 0 <= j < |rows|
      ensures exists i :: 0 <= i < |out| && InBucket(rows[j].ts, out[i].key, width)
    {
      CountsRow(rows, f, f(rows[j]), |rows|, j);
      assert HasKey(out, f(rows[j]));
      var i :| 0 <= i < |out| && out[i].key == f(rows[j]);
      InOneBucket(rows[j].ts, out[i].key, width);
    }
  }

  /** a ranks before b: more rows, or as many and a smaller key. */
  predicate Before(a: Entry<string>, b: Entry<string>) {
    a.key != b.key && (a.count > b.count || (a.count == b.count && StrLe(a.key, b.key)))
  }

  /** The true top n over non-empty keys: in rank order, with their counts, and nothing that ranks before any of them is
      missing. */
  ghost predicate AreTop(out: seq<Entry<string>>, rows: seq<Event>, f: Event -> string, n: nat) {
    && |out| <= n
    && (forall i, j :: 0 <= i < j < |out| ==> Before(out[i], out[j]))
    && (forall i :: 0 <= i < |out| ==> |out[i].key| > 0 && out[i].count == Count(rows, f, out[i].key) > 0)
    && (forall k :: |k| > 0 && Count(rows, f, k) > 0 && !HasKey(out, k) ==>
          |out| == n && forall i :: 0 <= i < |out| ==> Before(out[i], Entry(k, Count(rows, f, k))))
  }

  ghost predicate HasKey<K>(out: seq<Entry<K>>, k: K) {
    exists i :: 0 <= i < |out| && out[i].key == k
  }

  datatype Stats = Stats(total: nat, buckets: seq<Entry<int>>, level: seq<Entry<string>>, release: seq<Entry<string>>,
                         environment: seq<Entry<string>>, fingerprint: seq<Entry<string>>, users: seq<nat>)

  /** The answer the reference gives for these matching rows. */
  ghost predicate Answers(st: Stats, rows: seq<Event>, h: Hll.Hash, width: int, topN: nat)
    requires width > 0
  {
    && st.total == |rows|
    && Histogram(st.buckets, rows, width)
    && AreTop(st.level, rows, LevelOf(), topN)
    && AreTop(st.release, rows, ReleaseOf(), topN)
    && AreTop(st.environment, rows, EnvironmentOf(), topN)
    && AreTop(st.fingerprint, rows, FingerprintOf(), topN)
    && |st.users| == Hll.REGISTERS && Hll.IsSketch(h, st.users, Users(rows))
  }

  // ---- The accumulators ----

  function Got<K>(m: map<K, nat>, k: K): nat {
    if k in m then m[k] else 0
  }

  function Bump<K>(m: map<K, nat>, k: K): map<K, nat> {
    m[k := Got(m, k) + 1]
  }

  ghost predicate Tallies<K(!new)>(m: map<K, nat>, rows: seq<Event>, f: Event -> K) {
    forall k :: Got(m, k) == Count(rows, f, k) && (k in m ==> Got(m, k) > 0)
  }

  lemma {:induction false} BumpTallies<K(!new)>(m: map<K, nat>, rows: seq<Event>, f: Event -> K, e: Event)
    requires Tallies(m, rows, f)
    ensures Tallies(Bump(m, f(e)), rows + [e], f)
  {
    var m' := Bump(m, f(e));
    forall k
      ensures Got(m', k) == Count(rows + [e], f, k) && (k in m' ==> Got(m', k) > 0)
    {
      assert Got(m, k) == Count(rows, f, k);
      CountSnoc(rows, e, f, k);
    }
  }

  datatype Acc = Acc(total: nat, buckets: map<int, nat>, level: map<string, nat>, release: map<string, nat>,
                     environment: map<string, nat>, fingerprint: map<string, nat>)

  function AddRow(a: Acc, width: int, e: Event): Acc
    requires width > 0
  {
    Acc(a.total + 1, Bump(a.buckets, BucketOf(width)(e)), Bump(a.level, e.level), Bump(a.release, e.release),
        Bump(a.environment, e.environment), Bump(a.fingerprint, e.fingerprint))
  }

  ghost predicate Holds(a: Acc, rows: seq<Event>, width: int)
    requires width > 0
  {
    && a.total == |rows|
    && Tallies(a.buckets, rows, BucketOf(width))
    && Tallies(a.level, rows, LevelOf())
    && Tallies(a.release, rows, ReleaseOf())
    && Tallies(a.environment, rows, EnvironmentOf())
    && Tallies(a.fingerprint, rows, FingerprintOf())
  }

  lemma {:induction false} AddRowHolds(a: Acc, rows: seq<Event>, width: int, e: Event)
    requires width > 0 && Holds(a, rows, width)
    ensures Holds(AddRow(a, width, e), rows + [e], width)
  {
    BumpTallies(a.buckets, rows, BucketOf(width), e);
    BumpTallies(a.level, rows, LevelOf(), e);
    BumpTallies(a.release, rows, ReleaseOf(), e);
    BumpTallies(a.environment, rows, EnvironmentOf(), e);
    BumpTallies(a.fingerprint, rows, FingerprintOf(), e);
  }

  // ---- Materialising a map as a sorted list ----

  ghost predicate KeysDistinct<K>(out: seq<Entry<K>>) {
    forall i, j :: 0 <= i < j < |out| ==> out[i].key != out[j].key
  }

  /** Exactly the kept entries of m. */
  ghost predicate ListsMap<K(!new)>(out: seq<Entry<K>>, m: map<K, nat>, keep: K -> bool) {
    && KeysDistinct(out)
    && (forall i :: 0 <= i < |out| ==> out[i].key in m && keep(out[i].key) && out[i].count == m[out[i].key])
    && (forall k :: k in m && keep(k) ==> HasKey(out, k))
  }

  lemma {:induction false} HasKeySnoc<K>(out: seq<Entry<K>>, e: Entry<K>, k: K)
    requires HasKey(out, k) || k == e.key
    ensures HasKey(out + [e], k)
  {
    if HasKey(out, k) {
      var i :| 0 <= i < |out| && out[i].key == k;
      assert (out + [e])[i].key == k;
    } else {
      assert (out + [e])[|out|].key == k;
    }
  }

  /** The range loop over a map, in whatever order it comes. */
  method Entries<K(!new)>(m: map<K, nat>, keep: K -> bool) returns (out: seq<Entry<K>>)
    ensures ListsMap(out, m, keep)
  {
    out := [];
    var rest := m.Keys;
    while rest != {}
      invariant rest <= m.Keys && KeysDistinct(out)
      invariant forall i :: 0 <= i < |out| ==>
        out[i].key in m && out[i].key !in rest && keep(out[i].key) && out[i].count == m[out[i].key]
      invariant forall k :: k in m && keep(k) && k !in rest ==> HasKey(out, k)
      decreases |rest|
    {
      var k :| k in rest;
      rest := rest - {k};
      if keep(k) {
        forall x | HasKey(out, x) || x == k
          ensures HasKey(out + [Entry(k, m[k])], x)
        {
          HasKeySnoc(out, Entry(k, m[k]), x);
        }
        out := out + [Entry(k, m[k])];
      }
    }
  }

  lemma {:induction false} InsertKeepsDistinct<K>(le: (Entry<K>, Entry<K>) -> bool, x: Entry<K>, s: seq<Entry<K>>)
    requires KeysDistinct(s) && forall i :: 0 <= i < |s| ==> s[i].key != x.key
    ensures KeysDistinct(Insert(le, x, s))
  {
    if s == [] || le(x, s[0]) {
    } else {
      var t := Insert(le, x, s[1..]);
      InsertKeepsDistinct(le, x, s[1..]);
      forall i | 0 <= i < |t|
        ensures t[i].key != s[0].key
      {
        InsertMembers(le, x, s[1..], t[i]);
      }
    }
  }

  lemma {:induction false} SortKeepsDistinct<K>(le: (Entry<K>, Entry<K>) -> bool, s: seq<Entry<K>>)
    requires KeysDistinct(s)
    ensures KeysDistinct(Sort(le, s))
  {
    if s != [] {
      var t := Sort(le, s[1..]);
      SortKeepsDistinct(le, s[1..]);
      forall i | 0 <= i < |t|
        ensures t[i].key != s[0].key
      {
        SortMembers(le, s[1..], t[i]);
      }
      InsertKeepsDistinct(le, s[0], t);
    }
  }

  lemma {:induction false} SortKeepsEntries<K(!new)>(le: (Entry<K>, Entry<K>) -> bool, s: seq<Entry<K>>, m: map<K, nat>,
                                                     keep: K -> bool)
    requires ListsMap(s, m, keep)
    ensures ListsMap(Sort(le, s), m, keep)
  {
    var t := Sort(le, s);
    SortKeepsDistinct(le, s);
    forall i | 0 <= i < |t|
      ensures t[i].key in m && keep(t[i].key) && t[i].count == m[t[i].key]
    {
      SortMembers(le, s, t[i]);
    }
    forall k | k in m && keep(k)
      ensures HasKey(t, k)
    {
      assert HasKey(s, k);
      var i :| 0 <= i < |s| && s[i].key == k;
      SortMembers(le, s, s[i]);
    }
  }

  function StartOrder(): (Entry<int>, Entry<int>) -> bool {
    (a: Entry<int>, b: Entry<int>) => a.key <= b.key
  }

  function RankOrder(): (Entry<string>, Entry<string>) -> bool {
    (a: Entry<string>, b: Entry<string>) => a.count > b.count || (a.count == b.count && StrLe(a.key, b.key))
  }

  lemma {:induction false} RankOrderTotal()
    ensures TotalOrder(RankOrder())
  {
    var le := RankOrder();
    forall a: Entry<string>, b: Entry<string>
      ensures le(a, b) || le(b, a)
    {
      StrLeTotal(a.key, b.key);
    }
    forall a: Entry<string>, b: Entry<string>, c: Entry<string> | le(a, b) && le(b, c)
      ensures le(a, c)
    {
      if a.count == b.count == c.count {
        StrLeTransitive(a.key, b.key, c.key);
      }
    }
  }

  method Buckets(m: map<int, nat>, ghost rows: seq<Event>, ghost f: Event -> int) returns (out: seq<Entry<int>>)
    requires Tallies(m, rows, f)
    ensures AreBuckets(out, rows, f)
  {
    out := Entries(m, _ => true);
    SortKeepsEntries(StartOrder(), out, m, _ => true);
    SortSorts(StartOrder(), out);
    out := Sort(StartOrder(), out);
    AllBuckets(out, m, rows, f);
  }

  lemma {:induction false} AllBuckets(out: seq<Entry<int>>, m: map<int, nat>, rows: seq<Event>, f: Event -> int)
    requires Tallies(m, rows, f) && ListsMap(out, m, _ => true) && SortedBy(StartOrder(), out)
    ensures AreBuckets(out, rows, f)
  {
  }

  method Top(m: map<string, nat>, n: nat, ghost rows: seq<Event>, ghost f: Event -> string)
    returns (out: seq<Entry<string>>)
    requires Tallies(m, rows, f)
    ensures AreTop(out, rows, f, n)
  {
    var all := Entries(m, NotEmpty());
    SortKeepsEntries(RankOrder(), all, m, NotEmpty());
    RankOrderTotal();
    SortSorts(RankOrder(), all);
    all := Sort(RankOrder(), all);
    FirstAreTop(all, m, n, rows, f);
    out := if |all| > n then all[..n] else all;
  }

  function NotEmpty(): string -> bool {
    (k: string) => |k| > 0
  }

  lemma {:induction false} Ranked(all: seq<Entry<string>>, i: nat, j: nat)
    requires KeysDistinct(all) && SortedBy(RankOrder(), all) && i < j < |all|
    ensures Before(all[i], all[j])
  {
  }

  /** Cutting the ranked list at n leaves the true top n. */
  lemma {:induction false} FirstAreTop(all: seq<Entry<string>>, m: map<string, nat>, n: nat, rows: seq<Event>,
                                       f: Event -> string)
    requires Tallies(m, rows, f) && ListsMap(all, m, NotEmpty()) && SortedBy(RankOrder(), all)
    ensures AreTop(Take(all, n), rows, f, n)
  {
    var out := Take(all, n);
    forall i, j | 0 <= i < j < |out|
      ensures Before(out[i], out[j])
    {
      Ranked(all, i, j);
    }
    forall i | 0 <= i < |out|
      ensures |out[i].key| > 0 && out[i].count == Count(rows, f, out[i].key) > 0
    {
      assert out[i] == all[i] && NotEmpty()(all[i].key);
      assert Got(m, out[i].key) == Count(rows, f, out[i].key);
    }
    forall k | |k| > 0 && Count(rows, f, k) > 0 && !HasKey(out, k)
      ensures |out| == n && forall i :: 0 <= i < |out| ==> Before(out[i], Entry(k, Count(rows, f, k)))
    {
      RankedOut(all, m, n, rows, f, k);
    }
  }

  lemma {:induction false} RankedOut(all: seq<Entry<string>>, m: map<string, nat>, n: nat, rows: seq<Event>,
                                     f: Event -> string, k: string)
    requires Tallies(m, rows, f) && ListsMap(all, m, NotEmpty()) && SortedBy(RankOrder(), all)
    requires |k| > 0 && Count(rows, f, k) > 0 && !HasKey(Take(all, n), k)
    ensures |Take(all, n)| == n && forall i :: 0 <= i < n ==> Before(Take(all, n)[i], Entry(k, Count(rows, f, k)))
  {
  }

  // ---- Streaming the rows ----

  /** The accumulators and the register array of the users sketch. */
  datatype State = State(acc: Acc, users: seq<nat>)

  /** The counters are those of `rows`; the sketch is of their users and of `extra`. */
  ghost predicate Streams(st: State, rows: seq<Event>, extra: set<string>, h: Hll.Hash, width: int)
    requires width > 0
  {
    Holds(st.acc, rows, width) && |st.users| == Hll.REGISTERS && Hll.IsSketch(h, st.users, Users(rows) + extra)
  }

  function AddState(st: State, h: Hll.Hash, width: int, e: Event): State
    requires width > 0 && |st.users| == Hll.REGISTERS
  {
    State(AddRow(st.acc, width, e), if |e.userId| > 0 then Hll.Add(h, st.users, e.userId) else st.users)
  }

  lemma {:induction false} AddStateStreams(st: State, rows: seq<Event>, extra: set<string>, h: Hll.Hash, width: int,
                                           e: Event)
    requires width > 0 && Streams(st, rows, extra, h, width)
    ensures Streams(AddState(st, h, width, e), rows + [e], extra, h, width)
  {
    AddRowHolds(st.acc, rows, width, e);
    UsersSnoc(rows, e);
    if |e.userId| > 0 {
      Hll.AddSketch(h, st.users, Users(rows) + extra, e.userId);
      assert Users(rows + [e]) + extra == Users(rows) + extra + {e.userId};
    } else {
      assert Users(rows + [e]) == Users(rows);
    }
  }

  lemma {:induction false} StreamRow(st: State, done: seq<Event>, q: Query, rows: seq<Event>, i: nat,
                                     extra: set<string>, h: Hll.Hash, width: int,
                                     seen: seq<Event>, seen': seq<Event>)
    requires i < |rows| && seen == done + FilterTo(q, rows, i) && seen' == done + FilterTo(q, rows, i + 1)
    requires width > 0 && Streams(st, seen, extra, h, width)
    ensures Streams(if Match(q, rows[i]) then AddState(st, h, width, rows[i]) else st, seen', extra, h, width)
  {
    if Match(q, rows[i]) {
      assert seen' == seen + [rows[i]];
      AddStateStreams(st, seen, extra, h, width, rows[i]);
    }
  }

  /** The row loop: add every matching row. */
  method Stream(st0: State, q: Query, rows: seq<Event>, h: Hll.Hash, width: int, ghost done: seq<Event>,
                ghost extra: set<string>)
    returns (st: State)
    requires width > 0 && Streams(st0, done, extra, h, width)
    ensures Streams(st, done + Filter(q, rows), extra, h, width)
  {
    st := st0;
    ghost var seen := done + FilterTo(q, rows, 0);
    assert seen == done;
    var i := 0;
    while i < |rows|
      invariant 0 <= i <= |rows| && seen == done + FilterTo(q, rows, i)
      invariant Streams(st, seen, extra, h, width)
    {
      ghost var seen' := done + FilterTo(q, rows, i + 1);
      StreamRow(st, done, q, rows, i, extra, h, width, seen, seen');
      if Match(q, rows[i]) {
        st := AddState(st, h, width, rows[i]);
      }
      seen, i := seen', i + 1;
    }
  }

  /** The query's window covers the segment and nothing else is asked. */
  predicate WholeSegment(q: Query, m: SegMeta) {
    && (q.timeMin == 0 || q.timeMin <= m.minTs) && (q.timeMax == 0 || q.timeMax >= m.maxTs)
    && |q.level| == 0 && |q.fingerprint| == 0 && |q.release| == 0 && |q.environment| == 0 && |q.userId| == 0
  }

  lemma {:induction false} FilterAll(q: Query, rows: seq<Event>, n: nat)
    requires n <= |rows| && forall i :: 0 <= i < n ==> Match(q, rows[i])
    ensures FilterTo(q, rows, n) == rows[..n]
  {
    if n > 0 {
      FilterAll(q, rows, n - 1);
      TakeSnoc(rows, n);
    }
  }

  /** A segment the fast path covers matches entirely, so its footer sketch is of matching users only. */
  lemma {:induction false} WholeSegmentMatches(q: Query, m: SegMeta, s: Segment)
    requires Describes(m, s) && SegmentMayMatch(q, m) && WholeSegment(q, m)
    ensures Filter(q, SegRows(s)) == SegRows(s)
  {
    var rows := SegRows(s);
    FilterAll(q, rows, |rows|);
    assert rows[..|rows|] == rows;
  }

  lemma {:induction false} UsersConcat(a: seq<Event>, b: seq<Event>)
    ensures Users(a + b) == Users(a) + Users(b)
  {
    forall u | u in Users(a) + Users(b)
      ensures u in Users(a + b)
    {
      if u in Users(a) {
        var i :| 0 <= i < |a| && |a[i].userId| > 0 && a[i].userId == u;
        assert (a + b)[i].userId == u;
      } else {
        var i :| 0 <= i < |b| && |b[i].userId| > 0 && b[i].userId == u;
        assert (a + b)[|a| + i].userId == u;
      }
    }
    forall u | u in Users(a + b)
      ensures u in Users(a) + Users(b)
    {
      var i :| 0 <= i < |a + b| && |(a + b)[i].userId| > 0 && (a + b)[i].userId == u;
      assert i < |a| ==> a[i].userId == u;
      assert i >= |a| ==> b[i - |a|].userId == u;
    }
  }

  lemma {:induction false} MergeStreams(st: State, done: seq<Event>, s: Segment, h: Hll.Hash, width: int)
    requires width > 0 && Streams(st, done, {}, h, width)
    requires |s.sketch| == Hll.REGISTERS && Hll.IsSketch(h, s.sketch, Users(SegRows(s)))
    ensures Streams(State(st.acc, Hll.Merge(st.users, s.sketch)), done, Users(SegRows(s)), h, width)
  {
    Hll.MergeSketch(h, st.users, s.sketch, Users(done) + {}, Users(SegRows(s)));
    assert Users(done) + {} + Users(SegRows(s)) == Users(done) + Users(SegRows(s));
  }

  /** The merged users are those of rows that were streamed as well. */
  lemma {:induction false} ForgetExtra(st: State, done: seq<Event>, rows: seq<Event>, h: Hll.Hash, width: int)
    requires width > 0 && Streams(st, done + rows, Users(rows), h, width)
    ensures Streams(st, done + rows, {}, h, width)
  {
    UsersConcat(done, rows);
    assert Users(done + rows) + Users(rows) == Users(done + rows) + {};
  }

  /** aggregateSegment: merge the footer sketch when the window covers the segment, and stream the rows in any case. */
  method AggregateSegment(st0: State, q: Query, m: SegMeta, s: Segment, o: Options, width: int, ghost done: seq<Event>)
    returns (st: State)
    requires width > 0 && Streams(st0, done, {}, o.hash, width) && SegmentMayMatch(q, m)
    requires FileOk(o, m.path, s) && m == MetaOf(m.path, s)
    ensures Streams(st, done + Filter(q, SegRows(s)), {}, o.hash, width)
  {
    st := st0;
    ghost var extra := {};
    if WholeSegment(q, m) {
      MergeStreams(st, done, s, o.hash, width);
      st := State(st.acc, Hll.Merge(st.users, s.sketch));
      extra := Users(SegRows(s));
    }
    st := Stream(st, q, SegRows(s), o.hash, width, done, extra);
    if WholeSegment(q, m) {
      WholeSegmentMatches(q, m, s);
      ForgetExtra(st, done, SegRows(s), o.hash, width);
    }
  }

  /** One manifest entry: skipped when the manifest rules it out. */
  method AggregateEntry(st0: State, q: Query, m: SegMeta, files: Files, o: Options, width: int, ghost done: seq<Event>,
                        ghost done': seq<Event>)
    returns (st: State)
    requires width > 0 && Streams(st0, done, {}, o.hash, width)
    requires m.path in files && FileOk(o, m.path, files[m.path]) && m == MetaOf(m.path, files[m.path])
    requires done' == done + Filter(q, FileRows(files, m.path))
    ensures Streams(st, done', {}, o.hash, width)
  {
    if !SegmentMayMatch(q, m) {
      PrunedSegmentIsEmpty(q, m, files[m.path]);
      assert done' == done;
      return st0;
    }
    st := AggregateSegment(st0, q, m, files[m.path], o, width, done);
  }

  /** The hot buffer, then every segment. */
  method Gather(q: Query, buf: seq<Event>, segs: seq<SegMeta>, files: Files, o: Options, width: int) returns (st: State)
    requires width > 0 && FilesOk(o, files) && Registered(segs, files)
    ensures Streams(st, Filter(q, TierRows(buf, segs, files, |segs|)), {}, o.hash, width)
  {
    st := State(Acc(0, map[], map[], map[], map[], map[]), Hll.Empty());
    NothingStreams(o.hash, width);
    st := Stream(st, q, buf, o.hash, width, [], {});
    ghost var done := Filter(q, buf);
    assert [] + Filter(q, buf) == done;
    var i := 0;
    while i < |segs|
      invariant 0 <= i <= |segs| && done == Filter(q, TierRows(buf, segs, files, i))
      invariant Streams(st, done, {}, o.hash, width)
    {
      ghost var done' := Filter(q, TierRows(buf, segs, files, i + 1));
      FilterConcat(q, TierRows(buf, segs, files, i), FileRows(files, segs[i].path));
      assert FileOk(o, segs[i].path, files[segs[i].path]);
      st := AggregateEntry(st, q, segs[i], files, o, width, done, done');
      done, i := done', i + 1;
    }
  }

  lemma {:induction false} NothingStreams(h: Hll.Hash, width: int)
    requires width > 0
    ensures Streams(State(Acc(0, map[], map[], map[], map[], map[]), Hll.Empty()), [], {}, h, width)
  {
  }

  function Width(bucketNanos: int): int {
    if bucketNanos <= 0 then HOUR else bucketNanos
  }

  function TopCount(topN: int): nat {
    if topN <= 0 || topN > 50 then 10 else topN
  }

  /** The loop over the four columns. */
  method TopLists(a: Acc, n: nat, width: int, ghost rows: seq<Event>)
    returns (level: seq<Entry<string>>, release: seq<Entry<string>>, environment: seq<Entry<string>>,
      fingerprint: seq<Entry<string>>)
    requires width > 0 && Holds(a, rows, width)
    ensures AreTop(level, rows, LevelOf(), n) && AreTop(release, rows, ReleaseOf(), n)
    ensures AreTop(environment, rows, EnvironmentOf(), n) && AreTop(fingerprint, rows, FingerprintOf(), n)
  {
    level := Top(a.level, n, rows, LevelOf());
    release := Top(a.release, n, rows, ReleaseOf());
    environment := Top(a.environment, n, rows, EnvironmentOf());
    fingerprint := Top(a.fingerprint, n, rows, FingerprintOf());
  }

  method Materialise(g: State, n: nat, width: int, ghost h: Hll.Hash, ghost rows: seq<Event>) returns (st: Stats)
    requires width > 0 && Streams(g, rows, {}, h, width)
    ensures Answers(st, rows, h, width, n)
  {
    var buckets := Buckets(g.acc.buckets, rows, BucketOf(width));
    var level, release, environment, fingerprint := TopLists(g.acc, n, width, rows);
    BucketsAreHistogram(buckets, rows, width);
    assert Users(rows) + {} == Users(rows);
    st := Stats(g.acc.total, buckets, level, release, environment, fingerprint, g.users);
  }

  /** Aggregate: with its pruning and its footer sketches, the answer is the reference's over a plain filter of all
      rows. */
  method Aggregate(s: EventStore.EventStore, q: Query, bucketNanos: int, topN: int) returns (st: Stats)
    requires s.Valid()
    ensures Answers(st, Filter(q, s.AllRows()), s.o.hash, if bucketNanos > 0 then bucketNanos else 3_600_000_000_000,
                    if 1 <= topN <= 50 then topN else 10)
  {
    var width, n := Width(bucketNanos), TopCount(topN);
    ghost var rows := Filter(q, s.AllRows());
    var g := Gather(q, s.buf, s.segs, s.files, s.o, width);
    st := Materialise(g, n, width, s.o.hash, rows);
  }
}
