/** Consistent hashing of projects onto nodes (internal/cluster/ring.go) and the routing decision taken from it
    (internal/cluster/membership.go). */
module Ring {
  import opened Base
  import opened Bytes
  import opened Sorting

  const VNODES: nat := 100

  /** hashKey; nothing here depends on which hash it is. */
  type Hash = string -> U32

  datatype Entry = Entry(hash: U32, node: string)

  /** sort.Slice by hash: some permutation in order; ties fall as the algorithm has it, the same way for the same
      input. */
  type Sorter = seq<Entry> -> seq<Entry>

  ghost predicate IsSorter(sort: Sorter) {
    forall s :: Ascending(sort(s)) && multiset(sort(s)) == multiset(s)
  }

  ghost predicate Ascending(es: seq<Entry>) {
    forall i, j :: 0 <= i < j < |es| ==> es[i].hash <= es[j].hash
  }

  function Itoa(n: nat): string {
    if n < 10 then ["0123456789"[n]] else Itoa(n / 10) + ["0123456789"[n % 10]]
  }

  /** The number a decimal numeral stands for. */
  function Atoi(s: string): int {
    if s == "" then 0 else Atoi(s[..|s| - 1]) * 10 + (s[|s| - 1] as int - '0' as int)
  }

  /** A numeral of decimal digits for n, without leading zeros. */
  lemma {:induction false} ItoaIsDecimal(n: nat)
    ensures Atoi(Itoa(n)) == n && |Itoa(n)| > 0 && (forall i :: 0 <= i < |Itoa(n)| ==> '0' <= Itoa(n)[i] <= '9')
    ensures n > 0 ==> Itoa(n)[0] != '0'
  {
    if n >= 10 {
      ItoaIsDecimal(n / 10);
      assert Itoa(n)[..|Itoa(n)| - 1] == Itoa(n / 10);
      assert Itoa(n)[0] == Itoa(n / 10)[0];
    } else {
      assert Itoa(n)[..0] == "";
    }
  }

  lemma {:induction false} AtoiBefore(s: string, t: string)
    requires s == t
    ensures Atoi(s) == Atoi(t)
  {
  }

  /** Each virtual node is hashed under its own name: the node, a number sign and its number. */
  lemma {:induction false} VnodeNames(h: Hash, node: string, v: nat, u: nat)
    ensures Vnodes(h)(node, v) == h(node + "#" + Itoa(v))
    ensures node + "#" + Itoa(v) == node + "#" + Itoa(u) ==> v == u
  {
    var a, b := node + "#" + Itoa(v), node + "#" + Itoa(u);
    if a == b {
      assert a[|node| + 1..] == Itoa(v) && b[|node| + 1..] == Itoa(u);
      AtoiBefore(Itoa(v), Itoa(u));
      ItoaIsDecimal(v);
      ItoaIsDecimal(u);
    }
  }

  /** Where the v-th virtual node of a node sits. */
  type Places = (string, nat) -> U32

  function Vnodes(h: Hash): Places {
    (node: string, v: nat) => h(node + "#" + Itoa(v))
  }

  function Point(at: Places, node: string, v: nat): Entry {
    Entry(at(node, v), node)
  }

  function NodePoints(at: Places, node: string, n: nat): (r: seq<Entry>)
    ensures |r| == n && forall v :: 0 <= v < n ==> r[v] == Point(at, node, v)
  {
    if n == 0 then [] else NodePoints(at, node, n - 1) + [Point(at, node, n - 1)]
  }

  function Points(at: Places, ids: seq<string>, n: nat): seq<Entry>
    requires n <= |ids|
  {
    if n == 0 then [] else Points(at, ids, n - 1) + NodePoints(at, ids[n - 1], VNODES)
  }

  function Members(ids: seq<string>): set<string> {
    set i | 0 <= i < |ids| :: ids[i]
  }

  /** The points are exactly the virtual nodes of the listed nodes. */
  lemma {:induction false} PointsAre(at: Places, ids: seq<string>, n: nat)
    requires n <= |ids|
    ensures forall e :: e in Points(at, ids, n) <==>
      exists i, v :: 0 <= i < n && 0 <= v < VNODES && e == Point(at, ids[i], v)
  {
    if n > 0 {
      PointsAre(at, ids, n - 1);
      var last := NodePoints(at, ids[n - 1], VNODES);
      forall e | exists i, v :: 0 <= i < n && 0 <= v < VNODES && e == Point(at, ids[i], v)
        ensures e in Points(at, ids, n)
      {
        var i, v :| 0 <= i < n && 0 <= v < VNODES && e == Point(at, ids[i], v);
        if i == n - 1 {
          assert last[v] == e;
        }
      }
      forall e | e in last
        ensures exists i, v :: 0 <= i < n && 0 <= v < VNODES && e == Point(at, ids[i], v)
      {
        var v :| 0 <= v < VNODES && last[v] == e;
        assert e == Point(at, ids[n - 1], v);
      }
    }
  }

  // ---- The list of nodes is canonical ----

  ghost predicate SortedList(ids: seq<string>, nodes: set<string>) {
    && Members(ids) == nodes
    && (forall i, j :: 0 <= i < j < |ids| ==> ids[i] != ids[j] && StrLe(ids[i], ids[j]))
  }

  lemma {:induction false} FirstIsLeast(a: seq<string>, b: seq<string>, nodes: set<string>)
    requires SortedList(a, nodes) && SortedList(b, nodes) && a != []
    ensures b != [] && StrLe(b[0], a[0])
  {
    assert a[0] in Members(b);
    var j :| 0 <= j < |b| && b[j] == a[0];
    if j == 0 {
      StrLeTotal(a[0], a[0]);
    }
  }

  lemma {:induction false} TailSorted(a: seq<string>, nodes: set<string>)
    requires SortedList(a, nodes) && a != []
    ensures SortedList(a[1..], nodes - {a[0]})
  {
  }

  /** One set of nodes has one sorted list, so permuting or repeating members changes nothing. */
  lemma {:induction false} SortedListUnique(a: seq<string>, b: seq<string>, nodes: set<string>)
    requires SortedList(a, nodes) && SortedList(b, nodes)
    ensures a == b
    decreases |a|
  {
    if a == [] {
      if b != [] {
        FirstIsLeast(b, a, nodes);
      }
    } else {
      FirstIsLeast(a, b, nodes);
      FirstIsLeast(b, a, nodes);
      StrLeAntisymmetric(a[0], b[0]);
      TailSorted(a, nodes);
      TailSorted(b, nodes);
      SortedListUnique(a[1..], b[1..], nodes - {a[0]});
      assert a == [a[0]] + a[1..] && b == [b[0]] + b[1..];
    }
  }

  /** The ring of a set of nodes. */
  ghost predicate IsRing(at: Places, sort: Sorter, entries: seq<Entry>, nodes: set<string>) {
    exists ids :: SortedList(ids, nodes) && entries == sort(Points(at, ids, |ids|))
  }

  /** Every node computes the same ring from the same set of members, whatever order and repetition it saw them in. */
  lemma {:induction false} RingDetermined(at: Places, sort: Sorter, a: seq<Entry>, b: seq<Entry>, nodes: set<string>)
    requires IsRing(at, sort, a, nodes) && IsRing(at, sort, b, nodes)
    ensures a == b
  {
    var x :| SortedList(x, nodes) && a == sort(Points(at, x, |x|));
    var y :| SortedList(y, nodes) && b == sort(Points(at, y, |y|));
    SortedListUnique(x, y, nodes);
  }

  /** A ring has a hundred points for each node. */
  lemma {:induction false} RingSize(at: Places, sort: Sorter, entries: seq<Entry>, nodes: set<string>)
    requires IsSorter(sort) && IsRing(at, sort, entries, nodes)
    ensures |entries| == 100 * |nodes|
  {
    var ids :| SortedList(ids, nodes) && entries == sort(Points(at, ids, |ids|));
    var canonical := HasList(nodes);
    SortedListUnique(ids, canonical, nodes);
    PointsLength(at, ids, |ids|);
    var ps := Points(at, ids, |ids|);
    assert |multiset(sort(ps))| == |multiset(ps)|;
  }

  // ---- Ownership, without rings ----

  /** Distance from a key's hash to a point, clockwise around the 32-bit circle. */
  function Distance(from: U32, to: U32): U32 {
    if to >= from then to - from else to + TWO_32 - from
  }

  /** n has a point at least as near to the key as any point of any node. */
  ghost predicate IsOwner(at: Places, nodes: set<string>, hk: U32, n: string) {
    n in nodes && exists v :: 0 <= v < VNODES && Nearest(at, nodes, hk, Point(at, n, v).hash)
  }

  ghost predicate Nearest(at: Places, nodes: set<string>, hk: U32, p: U32) {
    forall m, v :: m in nodes && 0 <= v < VNODES ==> Distance(hk, p) <= Distance(hk, Point(at, m, v).hash)
  }

  /** No two nodes share a point. */
  ghost predicate NoTies(at: Places, nodes: set<string>) {
    forall a, b, v, u ::
      a in nodes && b in nodes && 0 <= v < VNODES && 0 <= u < VNODES && Point(at, a, v).hash == Point(at, b, u).hash ==>
        a == b
  }

  lemma {:induction false} OwnerUnique(at: Places, nodes: set<string>, hk: U32, a: string, b: string)
    requires NoTies(at, nodes) && IsOwner(at, nodes, hk, a) && IsOwner(at, nodes, hk, b)
    ensures a == b
  {
  }

  /** When x joins `nodes`, at most one of the others has the point nearest to the key. */
  ghost predicate Settled(at: Places, nodes: set<string>, x: string, hk: U32) {
    forall a, b :: a in nodes && b in nodes && IsOwner(at, nodes + {x}, hk, a) && IsOwner(at, nodes + {x}, hk, b) ==>
      a == b
  }

  lemma {:induction false} NoTiesSettled(at: Places, nodes: set<string>, x: string, hk: U32)
    requires NoTies(at, nodes + {x})
    ensures Settled(at, nodes, x, hk)
  {
  }

  /** Who owns a key among more nodes owns it among fewer, and is then as near as any other owner there. */
  lemma {:induction false} StaysOwner(at: Places, nodes: set<string>, x: string, hk: U32, before: string, after: string)
    requires IsOwner(at, nodes, hk, before) && IsOwner(at, nodes + {x}, hk, after) && after in nodes
    ensures IsOwner(at, nodes, hk, after) && IsOwner(at, nodes + {x}, hk, before)
  {
    var v :| 0 <= v < VNODES && Nearest(at, nodes + {x}, hk, Point(at, after, v).hash);
    var u :| 0 <= u < VNODES && Nearest(at, nodes, hk, Point(at, before, u).hash);
    assert Distance(hk, Point(at, before, u).hash) <= Distance(hk, Point(at, after, v).hash);
    assert Nearest(at, nodes, hk, Point(at, after, v).hash) && Nearest(at, nodes + {x}, hk, Point(at, before, u).hash);
  }

  /** Minimal movement: between two memberships that differ by node x, a key either keeps its owner or moves from or to
      x. */
  lemma {:induction false} MinimalMovement(at: Places, nodes: set<string>, x: string, hk: U32, before: string,
                                           after: string)
    requires Settled(at, nodes, x, hk)
    requires IsOwner(at, nodes, hk, before) && IsOwner(at, nodes + {x}, hk, after)
    ensures after == x || after == before
  {
    if after != x {
      StaysOwner(at, nodes, x, hk, before, after);
    }
  }

  // ---- The ring as the program keeps it ----

  /** The entries are the points of the nodes, in order. */
  ghost predicate EntriesFor(at: Places, entries: seq<Entry>, nodes: set<string>) {
    && Ascending(entries)
    && (forall i :: 0 <= i < |entries| ==> IsPoint(at, entries[i], nodes))
    && (forall m, v :: m in nodes && 0 <= v < VNODES ==> InRing(entries, Point(at, m, v)))
  }

  ghost predicate IsPoint(at: Places, e: Entry, nodes: set<string>) {
    e.node in nodes && exists v :: 0 <= v < VNODES && e == Point(at, e.node, v)
  }

  ghost predicate InRing(entries: seq<Entry>, e: Entry) {
    exists j :: 0 <= j < |entries| && entries[j] == e
  }

  /** The first entry at or after the hash, or the first of all: the nearest clockwise. */
  lemma {:induction false} FoundIsNearest(at: Places, entries: seq<Entry>, nodes: set<string>, hk: U32, i: nat)
    requires EntriesFor(at, entries, nodes) && i < |entries|
    requires (hk <= entries[i].hash && forall j :: 0 <= j < i ==> entries[j].hash < hk)
      || (i == 0 && forall j :: 0 <= j < |entries| ==> entries[j].hash < hk)
    ensures IsOwner(at, nodes, hk, entries[i].node)
  {
  }

  lemma {:induction false} RingEntries(at: Places, sort: Sorter, entries: seq<Entry>, nodes: set<string>)
    requires IsSorter(sort) && IsRing(at, sort, entries, nodes)
    ensures EntriesFor(at, entries, nodes)
  {
    var ids :| SortedList(ids, nodes) && entries == sort(Points(at, ids, |ids|));
    var ps := Points(at, ids, |ids|);
    PointsAre(at, ids, |ids|);
    SortedEntries(at, ids, ps, entries, nodes);
  }

  lemma {:induction false} SortedEntries(at: Places, ids: seq<string>, ps: seq<Entry>, entries: seq<Entry>,
                                         nodes: set<string>)
    requires Ascending(entries) && multiset(entries) == multiset(ps) && Members(ids) == nodes
    requires forall e :: e in ps <==> exists i, v :: 0 <= i < |ids| && 0 <= v < VNODES && e == Point(at, ids[i], v)
    ensures EntriesFor(at, entries, nodes)
  {
    forall i | 0 <= i < |entries|
      ensures IsPoint(at, entries[i], nodes)
    {
      SameElements(entries, ps, entries[i]);
      var j, v :| 0 <= j < |ids| && 0 <= v < VNODES && entries[i] == Point(at, ids[j], v);
      assert ids[j] in Members(ids);
    }
    forall m, v | m in nodes && 0 <= v < VNODES
      ensures InRing(entries, Point(at, m, v))
    {
      var i :| 0 <= i < |ids| && ids[i] == m;
      assert Point(at, ids[i], v) in ps;
      SameElements(entries, ps, Point(at, m, v));
    }
  }

  class Ring {
    const h: Hash
    const at: Places
    const sort: Sorter
    var entries: seq<Entry>
    var nodes: set<string>

    ghost predicate Valid()
      reads this
    {
      IsSorter(sort) && IsRing(at, sort, entries, nodes)
    }

    constructor (h: Hash, sort: Sorter)
      requires IsSorter(sort)
      ensures Valid() && nodes == {} && this.h == h && at == Vnodes(h) && this.sort == sort
    {
      this.h, at, this.sort, nodes := h, Vnodes(h), sort, {};
      entries := sort(Points(Vnodes(h), [], 0));
      assert SortedList([], {});
    }

    /** SetNodes: the ring of the set of nodes named, in whatever order and however often. */
    method SetNodes(nodeIds: seq<string>)
      requires Valid()
      modifies this
      ensures Valid() && nodes == Members(nodeIds)
    {
      var uniq := Unique(nodeIds);
      var ids := Listed(uniq);
      var points := AllPoints(at, ids);
      entries := sort(points);
      nodes := uniq;
    }

    /** OwnerFor: the node of the first entry at or after the key's hash, wrapping around; it is one with a nearest
        point. */
    method OwnerFor(key: string) returns (node: string, ok: bool)
      requires Valid()
      ensures ok <==> nodes != {}
      ensures ok ==> |entries| > 0 && node == OwnerIn(entries, h(key)) && IsOwner(at, nodes, h(key), node)
    {
      RingEntries(at, sort, entries, nodes);
      EntriesMeanNodes(at, entries, nodes);
      if |entries| == 0 {
        return "", false;
      }
      var i := Search(entries, h(key));
      FirstFrom(entries, h(key), 0, i);
      if i == |entries| {
        i := 0;
      }
      FoundIsNearest(at, entries, nodes, h(key), i);
      return entries[i].node, true;
    }
  }

  /** The first entry from i on that is at or after the hash, or their number. */
  function First(entries: seq<Entry>, hk: U32, i: nat): (r: nat)
    requires i <= |entries|
    ensures i <= r <= |entries|
    decreases |entries| - i
  {
    if i == |entries| || hk <= entries[i].hash then i else First(entries, hk, i + 1)
  }

  /** Where a ring's search ends, after wrapping around. */
  function Slot(entries: seq<Entry>, hk: U32): (i: nat)
    requires |entries| > 0
    ensures i < |entries|
  {
    var f := First(entries, hk, 0);
    if f == |entries| then 0 else f
  }

  /** The node that a ring gives a hash. */
  function OwnerIn(entries: seq<Entry>, hk: U32): string
    requires |entries| > 0
  {
    entries[Slot(entries, hk)].node
  }

  lemma {:induction false} FirstFrom(entries: seq<Entry>, hk: U32, i: nat, r: nat)
    requires i <= r <= |entries|
      && (forall j :: i <= j < r ==> entries[j].hash < hk) && (r < |entries| ==> hk <= entries[r].hash)
    ensures First(entries, hk, i) == r
    decreases r - i
  {
    if i < r {
      FirstFrom(entries, hk, i + 1, r);
    }
  }

  /** sort.Search: the first entry at or after the hash. */
  method Search(entries: seq<Entry>, hk: U32) returns (lo: nat)
    requires Ascending(entries)
    ensures lo <= |entries|
      && (forall j :: 0 <= j < lo ==> entries[j].hash < hk) && (lo < |entries| ==> hk <= entries[lo].hash)
  {
    lo := 0;
    var hi := |entries|;
    while lo < hi
      invariant 0 <= lo <= hi <= |entries|
      invariant forall j :: 0 <= j < lo ==> entries[j].hash < hk
      invariant hi < |entries| ==> hk <= entries[hi].hash
    {
      var mid := (lo + hi) / 2;
      if entries[mid].hash >= hk {
        hi := mid;
      } else {
        lo := mid + 1;
      }
    }
  }

  lemma {:induction false} EntriesMeanNodes(at: Places, entries: seq<Entry>, nodes: set<string>)
    requires EntriesFor(at, entries, nodes)
    ensures |entries| == 0 <==> nodes == {}
  {
    if |entries| > 0 {
      assert IsPoint(at, entries[0], nodes);
    }
    forall m | m in nodes
      ensures |entries| > 0
    {
      assert InRing(entries, Point(at, m, VNODES - 1));
    }
  }

  lemma {:induction false} MembersSnoc(ids: seq<string>, i: nat)
    requires i < |ids|
    ensures Members(ids[..i + 1]) == Members(ids[..i]) + {ids[i]}
  {
  }

  method Unique(nodeIds: seq<string>) returns (uniq: set<string>)
    ensures uniq == Members(nodeIds)
  {
    uniq := {};
    for i := 0 to |nodeIds|
      invariant uniq == Members(nodeIds[..i])
    {
      MembersSnoc(nodeIds, i);
      uniq := uniq + {nodeIds[i]};
    }
    assert nodeIds[..|nodeIds|] == nodeIds;
  }

  method AllPoints(at: Places, ids: seq<string>) returns (points: seq<Entry>)
    ensures points == Points(at, ids, |ids|)
  {
    points := [];
    for i := 0 to |ids|
      invariant points == Points(at, ids, i)
    {
      ghost var before := points;
      for v := 0 to VNODES
        invariant points == before + NodePoints(at, ids[i], v)
      {
        points := points + [Point(at, ids[i], v)];
      }
    }
  }

  /** Ranging over the set and sorting the result. */
  method Listed(nodes: set<string>) returns (ids: seq<string>)
    ensures SortedList(ids, nodes)
  {
    var rest, all := nodes, [];
    while rest != {}
      invariant rest <= nodes
      invariant forall i :: 0 <= i < |all| ==> all[i] in nodes && all[i] !in rest
      invariant forall x :: x in nodes ==> x in rest || x in all
      invariant forall i, j :: 0 <= i < j < |all| ==> all[i] != all[j]
      decreases |rest|
    {
      var x :| x in rest;
      rest := rest - {x};
      all := all + [x];
    }
    ids := Sort(StringOrder(), all);
    SortedIsList(all, nodes);
  }

  lemma {:induction false} SortedIsList(all: seq<string>, nodes: set<string>)
    requires forall i, j :: 0 <= i < j < |all| ==> all[i] != all[j]
    requires forall x :: x in nodes <==> x in all
    ensures SortedList(Sort(StringOrder(), all), nodes)
  {
    var ids := Sort(StringOrder(), all);
    StringOrderTotal();
    SortSorts(StringOrder(), all);
    SortDistinct(StringOrder(), all);
    forall x
      ensures x in Members(ids) <==> x in nodes
    {
      SortMembers(StringOrder(), all, x);
    }
    forall i, j | 0 <= i < j < |ids|
      ensures StrLe(ids[i], ids[j])
    {
      assert StringOrder()(ids[i], ids[j]);
    }
  }

  // ---- When movement is minimal ----

  /** The rings of the two memberships, under one sort, give the key the same owner unless x has it. */
  ghost predicate MovesMinimally(at: Places, sort: Sorter, nodes: set<string>, x: string, hk: U32) {
    forall r, r' :: IsRing(at, sort, r, nodes) && IsRing(at, sort, r', nodes + {x}) && |r| > 0 && |r'| > 0 ==>
      OwnerIn(r', hk) == x || OwnerIn(r', hk) == OwnerIn(r, hk)
  }

  /** The order by hash that puts one node first among equals. */
  function Favouring(n: string): (Entry, Entry) -> bool {
    (e: Entry, f: Entry) => e.hash < f.hash || (e.hash == f.hash && (e.node == n || f.node != n))
  }

  /** A sort that favours one node on small inputs and another on large ones. */
  function Partial(limit: nat, a: string, b: string): Sorter {
    (s: seq<Entry>) => Sort(Favouring(if |s| <= limit then a else b), s)
  }

  lemma {:induction false} FavouringSorts(n: string, s: seq<Entry>)
    ensures SortedBy(Favouring(n), Sort(Favouring(n), s)) && Ascending(Sort(Favouring(n), s))
    ensures multiset(Sort(Favouring(n), s)) == multiset(s)
  {
    SortSorts(Favouring(n), s);
    SortPermutes(Favouring(n), s);
    var t := Sort(Favouring(n), s);
    forall i, j | 0 <= i < j < |t|
      ensures t[i].hash <= t[j].hash
    {
      assert Favouring(n)(t[i], t[j]);
    }
  }

  lemma {:induction false} PartialSorts(limit: nat, a: string, b: string)
    ensures IsSorter(Partial(limit, a, b))
  {
    forall s: seq<Entry>
      ensures Ascending(Partial(limit, a, b)(s)) && multiset(Partial(limit, a, b)(s)) == multiset(s)
    {
      FavouringSorts(if |s| <= limit then a else b, s);
    }
  }

  /** No entry as near as the one found comes before it. */
  lemma {:induction false} SlotIsFirst(entries: seq<Entry>, hk: U32, j: nat)
    requires Ascending(entries) && j < |entries|
      && Distance(hk, entries[j].hash) <= Distance(hk, entries[Slot(entries, hk)].hash)
    ensures Slot(entries, hk) <= j && entries[Slot(entries, hk)].hash == entries[j].hash
  {
    FirstIs(entries, hk, 0);
  }

  /** Every owner has an entry as near as the one found. */
  lemma {:induction false} OwnerEntry(at: Places, entries: seq<Entry>, nodes: set<string>, hk: U32, n: string, i: nat)
    returns (j: nat)
    requires EntriesFor(at, entries, nodes) && i < |entries| && IsOwner(at, nodes, hk, n)
    ensures j < |entries| && entries[j].node == n && Distance(hk, entries[j].hash) <= Distance(hk, entries[i].hash)
  {
    var v :| 0 <= v < VNODES && Nearest(at, nodes, hk, Point(at, n, v).hash);
    assert InRing(entries, Point(at, n, v));
    j :| 0 <= j < |entries| && entries[j] == Point(at, n, v);
    assert IsPoint(at, entries[i], nodes);
  }

  /** Among nodes that share the nearest point, the ring's order decides. */
  lemma {:induction false} FavouredOwns(at: Places, entries: seq<Entry>, nodes: set<string>, hk: U32, n: string)
    requires EntriesFor(at, entries, nodes) && SortedBy(Favouring(n), entries) && |entries| > 0
      && IsOwner(at, nodes, hk, n)
    ensures OwnerIn(entries, hk) == n
  {
    var i := Slot(entries, hk);
    var j := OwnerEntry(at, entries, nodes, hk, n, i);
    SlotIsFirst(entries, hk, j);
    if i < j {
      assert Favouring(n)(entries[i], entries[j]);
    }
  }

  lemma {:induction false} PointsLength(at: Places, ids: seq<string>, n: nat)
    requires n <= |ids|
    ensures |Points(at, ids, n)| == n * VNODES
  {
    if n > 0 {
      PointsLength(at, ids, n - 1);
    }
  }

  /** A set has a list of its elements without repetition. */
  lemma {:induction false} HasList(nodes: set<string>) returns (ids: seq<string>)
    ensures SortedList(ids, nodes) && |ids| == |nodes|
  {
    var all := Enumerated(nodes);
    ids := Sort(StringOrder(), all);
    SortedIsList(all, nodes);
  }

  lemma {:induction false} Enumerated(nodes: set<string>) returns (all: seq<string>)
    ensures |all| == |nodes| && (forall x :: x in nodes <==> x in all)
    ensures forall i, j :: 0 <= i < j < |all| ==> all[i] != all[j]
    decreases |nodes|
  {
    if nodes == {} {
      all := [];
    } else {
      var x :| x in nodes;
      var rest := Enumerated(nodes - {x});
      all := [x] + rest;
    }
  }

  /** The ring of some nodes under a sort that favours n, and whom it gives a key that n may own. */
  lemma {:induction false} FavouredRing(at: Places, sort: Sorter, nodes: set<string>, hk: U32, n: string)
    returns (r: seq<Entry>)
    requires IsSorter(sort) && IsOwner(at, nodes, hk, n)
    requires forall s :: |s| == |nodes| * VNODES ==> sort(s) == Sort(Favouring(n), s)
    ensures IsRing(at, sort, r, nodes) && |r| > 0 && OwnerIn(r, hk) == n
  {
    var ids := HasList(nodes);
    var ps := Points(at, ids, |ids|);
    PointsLength(at, ids, |ids|);
    r := sort(ps);
    FavouringSorts(n, ps);
    RingEntries(at, sort, r, nodes);
    EntriesMeanNodes(at, r, nodes);
    FavouredOwns(at, r, nodes, hk, n);
  }

  /** With a tie that survives x's arrival, some sort moves the key between two other nodes. */
  lemma {:induction false} TieMoves(at: Places, nodes: set<string>, x: string, hk: U32, a: string, b: string)
    requires x !in nodes && a in nodes && b in nodes && a != b
    requires IsOwner(at, nodes + {x}, hk, a) && IsOwner(at, nodes + {x}, hk, b)
    ensures exists sort :: IsSorter(sort) && !MovesMinimally(at, sort, nodes, x, hk)
  {
    var m, n := |nodes| * VNODES, |nodes + {x}| * VNODES;
    assert m < n;
    var sort := Partial(m, a, b);
    PartialSorts(m, a, b);
    PartialFavours(m, a, b, m);
    PartialFavours(m, a, b, n);
    OwnsAmongFewer(at, nodes, x, hk, a);
    var r := FavouredRing(at, sort, nodes, hk, a);
    var r' := FavouredRing(at, sort, nodes + {x}, hk, b);
    NotMinimal(at, sort, nodes, x, hk, r, r');
  }

  lemma {:induction false} PartialFavours(limit: nat, a: string, b: string, n: nat)
    ensures forall s :: |s| == n ==> Partial(limit, a, b)(s) == Sort(Favouring(if n <= limit then a else b), s)
  {
  }

  lemma {:induction false} NotMinimal(at: Places, sort: Sorter, nodes: set<string>, x: string, hk: U32, r: seq<Entry>,
                                      r': seq<Entry>)
    requires IsRing(at, sort, r, nodes) && IsRing(at, sort, r', nodes + {x}) && |r| > 0 && |r'| > 0
    requires OwnerIn(r', hk) != x && OwnerIn(r', hk) != OwnerIn(r, hk)
    ensures !MovesMinimally(at, sort, nodes, x, hk)
  {
  }

  lemma {:induction false} OwnsAmongFewer(at: Places, nodes: set<string>, x: string, hk: U32, a: string)
    requires a in nodes && IsOwner(at, nodes + {x}, hk, a)
    ensures IsOwner(at, nodes, hk, a)
  {
    var v :| 0 <= v < VNODES && Nearest(at, nodes + {x}, hk, Point(at, a, v).hash);
    assert Nearest(at, nodes, hk, Point(at, a, v).hash);
  }

  /** Whatever the sort does with ties, a key moves only from or to x: exactly when no two other nodes share the point
      that is nearest to it once x is in. */
  lemma {:induction false} MovementIffSettled(at: Places, nodes: set<string>, x: string, hk: U32)
    requires x !in nodes
    ensures (forall sort :: IsSorter(sort) ==> MovesMinimally(at, sort, nodes, x, hk)) <==> Settled(at, nodes, x, hk)
  {
    if Settled(at, nodes, x, hk) {
      forall sort, r, r' | IsSorter(sort) && IsRing(at, sort, r, nodes) && IsRing(at, sort, r', nodes + {x}) && |r| > 0
        && |r'| > 0
        ensures OwnerIn(r', hk) == x || OwnerIn(r', hk) == OwnerIn(r, hk)
      {
        OwnerInIsOwner(at, sort, r, nodes, hk);
        OwnerInIsOwner(at, sort, r', nodes + {x}, hk);
        MinimalMovement(at, nodes, x, hk, OwnerIn(r, hk), OwnerIn(r', hk));
      }
    } else {
      var a, b :| a in nodes && b in nodes && IsOwner(at, nodes + {x}, hk, a) && IsOwner(at, nodes + {x}, hk, b)
        && a != b;
      TieMoves(at, nodes, x, hk, a, b);
    }
  }

  // ---- Membership and routing ----

  /** What a node announces. */
  datatype NodeInfo = NodeInfo(nodeId: string, apiAddr: string)

  /** The member announces itself under this id. */
  predicate Announces(member: Option<NodeInfo>, id: string) {
    member.Some? && |id| > 0 && member.value.nodeId == id
  }

  class Membership {
    const self: NodeInfo
    const ring: Ring
    var meta: map<string, NodeInfo>

    /** The ring and the metadata are of the same nodes. */
    ghost predicate Valid()
      reads this, ring
    {
      ring.Valid() && ring.nodes == meta.Keys && forall id :: id in meta ==> meta[id].nodeId == id
    }

    constructor (self: NodeInfo, h: Hash, sort: Sorter)
      requires IsSorter(sort)
      ensures Valid() && fresh(ring) && meta == map[] && this.self == self && ring.h == h && ring.at == Vnodes(h)
        && ring.sort == sort
    {
      this.self, meta := self, map[];
      ring := new Ring(h, sort);
    }

    /** refreshRing: rebuild both from the member list. */
    method RefreshRing(members: seq<Option<NodeInfo>>)
      requires Valid()
      modifies this, ring
      ensures Valid() && Views(members, |members|, meta)
    {
      var ids, m := Collect(members);
      ring.SetNodes(ids);
      meta := m;
    }

    /** Where this node sends a project: None is "serve it here". */
    ghost function Route(project: string): Option<string>
      requires Valid()
      reads this, ring
    {
      if |ring.entries| == 0 then None
      else
        var owner := OwnerIn(ring.entries, ring.h("project-" + project));
        if owner == self.nodeId then None else Some(owner)
    }

    /** OwnerAddr: local when this node owns the project or nobody is known, else the address of the owner. */
    method OwnerAddr(project: string) returns (addr: string, remote: bool)
      requires Valid()
      ensures remote <==> Route(project).Some?
      ensures remote ==> Route(project).value in meta && addr == meta[Route(project).value].apiAddr
    {
      RingEntries(ring.at, ring.sort, ring.entries, ring.nodes);
      EntriesMeanNodes(ring.at, ring.entries, ring.nodes);
      var node, ok := ring.OwnerFor("project-" + project);
      if !ok || node == self.nodeId {
        return "", false;
      }
      if node !in meta {
        return "", false;
      }
      return meta[node].apiAddr, true;
    }
  }

  /** What member k announced stands: it is the last of the first n to announce that id. */
  ghost predicate Stands(members: seq<Option<NodeInfo>>, n: nat, k: nat, id: string)
    requires n <= |members|
  {
    k < n && Announces(members[k], id) && forall j :: k < j < n ==> !Announces(members[j], id)
  }

  /** The metadata is of exactly the nodes announced among the first n members, each as it was announced last. */
  ghost predicate Views(members: seq<Option<NodeInfo>>, n: nat, meta: map<string, NodeInfo>)
    requires n <= |members|
  {
    && (forall id :: id in meta ==> exists k :: 0 <= k < n && Stands(members, n, k, id) && members[k].value == meta[id])
    && (forall j, id :: 0 <= j < n && Announces(members[j], id) ==> id in meta)
  }

  lemma {:induction false} ViewsStep(members: seq<Option<NodeInfo>>, n: nat, meta: map<string, NodeInfo>,
                                     info: NodeInfo)
    requires n < |members| && members[n] == Some(info) && |info.nodeId| > 0 && Views(members, n, meta)
    ensures Views(members, n + 1, meta[info.nodeId := info])
  {
    var meta' := meta[info.nodeId := info];
    assert Stands(members, n + 1, n, info.nodeId);
    forall id | id in meta'
      ensures exists k :: 0 <= k < n + 1 && Stands(members, n + 1, k, id) && members[k].value == meta'[id]
    {
      if id != info.nodeId {
        var k :| 0 <= k < n && Stands(members, n, k, id) && members[k].value == meta[id];
        StillStands(members, n, k, id);
      }
    }
  }

  lemma {:induction false} StillStands(members: seq<Option<NodeInfo>>, n: nat, k: nat, id: string)
    requires n < |members| && Stands(members, n, k, id) && !Announces(members[n], id)
    ensures Stands(members, n + 1, k, id)
  {
  }

  lemma {:induction false} ViewsSkip(members: seq<Option<NodeInfo>>, n: nat, meta: map<string, NodeInfo>)
    requires n < |members| && Views(members, n, meta) && (members[n].Some? ==> |members[n].value.nodeId| == 0)
    ensures Views(members, n + 1, meta)
  {
    forall id | id in meta
      ensures exists k :: 0 <= k < n + 1 && Stands(members, n + 1, k, id) && members[k].value == meta[id]
    {
      var k :| 0 <= k < n && Stands(members, n, k, id) && members[k].value == meta[id];
      StillStands(members, n, k, id);
    }
  }

  method Collect(members: seq<Option<NodeInfo>>) returns (ids: seq<string>, meta: map<string, NodeInfo>)
    ensures Members(ids) == meta.Keys && Views(members, |members|, meta)
  {
    ids, meta := [], map[];
    for i := 0 to |members|
      invariant Members(ids) == meta.Keys && Views(members, i, meta)
    {
      if members[i].Some? && |members[i].value.nodeId| > 0 {
        var info := members[i].value;
        ViewsStep(members, i, meta, info);
        OneMore(ids, info.nodeId);
        ids := ids + [info.nodeId];
        meta := meta[info.nodeId := info];
      } else {
        ViewsSkip(members, i, meta);
      }
    }
  }

  lemma {:induction false} OneMore(ids: seq<string>, id: string)
    ensures Members(ids + [id]) == Members(ids) + {id}
  {
    var t := ids + [id];
    MembersSnoc(t, |ids|);
    assert t[..|ids|] == ids && t[..|ids| + 1] == t;
  }

  /** Two nodes with the same hash and sort see the same members. */
  ghost predicate EqualViews(a: Membership, b: Membership)
    reads a, a.ring, b, b.ring
  {
    a.Valid() && b.Valid() && a.ring.h == b.ring.h && a.ring.at == b.ring.at && a.ring.sort == b.ring.sort
      && a.meta == b.meta
  }

  /** The owner in a ring is one of its nodes, nearest clockwise. */
  lemma {:induction false} OwnerInIsOwner(at: Places, sort: Sorter, entries: seq<Entry>, nodes: set<string>, hk: U32)
    requires IsSorter(sort) && IsRing(at, sort, entries, nodes) && |entries| > 0
    ensures IsOwner(at, nodes, hk, OwnerIn(entries, hk))
  {
    RingEntries(at, sort, entries, nodes);
    FirstIs(entries, hk, 0);
    FoundIsNearest(at, entries, nodes, hk, Slot(entries, hk));
  }

  lemma {:induction false} FirstIs(entries: seq<Entry>, hk: U32, i: nat)
    requires i <= |entries|
    ensures var r := First(entries, hk, i);
      (forall j :: i <= j < r ==> entries[j].hash < hk) && (r < |entries| ==> hk <= entries[r].hash)
    decreases |entries| - i
  {
    if i < |entries| && entries[i].hash < hk {
      FirstIs(entries, hk, i + 1);
    }
  }

  /** Nodes with equal views agree, ties included: each of them either serves a project itself or sends it to one and
      the same node; exactly one serves it, and so what is sent there is served there. */
  lemma {:induction false} OneHop(a: Membership, b: Membership, project: string)
    requires EqualViews(a, b) && a.self.nodeId in a.meta && b.self.nodeId in b.meta
    ensures a.Route(project).None? && b.Route(project).None? ==> a.self.nodeId == b.self.nodeId
    ensures a.Route(project).Some? && b.self.nodeId == a.Route(project).value ==> b.Route(project).None?
    ensures a.Route(project).Some? && b.Route(project).Some? ==> a.Route(project) == b.Route(project)
    ensures a.Route(project).None? && b.Route(project).Some? ==> b.Route(project).value == a.self.nodeId
    ensures a.Route(project).Some? ==> a.Route(project).value in a.meta
  {
    RingDetermined(a.ring.at, a.ring.sort, a.ring.entries, b.ring.entries, a.ring.nodes);
    RingEntries(a.ring.at, a.ring.sort, a.ring.entries, a.ring.nodes);
    EntriesMeanNodes(a.ring.at, a.ring.entries, a.ring.nodes);
    OwnerInIsOwner(a.ring.at, a.ring.sort, a.ring.entries, a.ring.nodes, a.ring.h("project-" + project));
  }
}
