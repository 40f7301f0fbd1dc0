/** The byte-bounded LRU cache (internal/cache/lru.go). */
module Lru {
  import opened Base

  datatype Entry<V> = Entry(key: string, val: V, bytes: int, expires: int)

  function Sum<V>(ll: seq<Entry<V>>, n: nat): int
    requires n <= |ll|
  {
    if n == 0 then 0 else Sum(ll, n - 1) + ll[n - 1].bytes
  }

  lemma {:induction false} SumFrame<V>(a: seq<Entry<V>>, b: seq<Entry<V>>, n: nat)
    requires n <= |a| && n <= |b| && forall i :: 0 <= i < n ==> a[i] == b[i]
    ensures Sum(a, n) == Sum(b, n)
  {
    if n > 0 {
      SumFrame(a, b, n - 1);
    }
  }

  lemma {:induction false} SumSnoc<V>(a: seq<Entry<V>>, e: Entry<V>)
    ensures Sum(a + [e], |a| + 1) == Sum(a, |a|) + e.bytes
  {
    SumFrame(a, a + [e], |a|);
  }

  lemma {:induction false} SumFront<V>(a: seq<Entry<V>>, e: Entry<V>, n: nat)
    requires n <= |a|
    ensures Sum([e] + a, n + 1) == Sum(a, n) + e.bytes
  {
    if n == 0 {
      assert Sum([e] + a, 1) == Sum([e] + a, 0) + ([e] + a)[0].bytes;
    } else {
      SumFront(a, e, n - 1);
      assert ([e] + a)[n] == a[n - 1];
    }
  }

  predicate Apart<V>(ll: seq<Entry<V>>, i: nat, j: nat)
    requires i < |ll| && j < |ll|
  {
    ll[i].key != ll[j].key
  }

  /** Every key once. */
  ghost predicate Distinct<V>(ll: seq<Entry<V>>) {
    forall i, j {:trigger Apart(ll, i, j)} :: 0 <= i < j < |ll| ==> Apart(ll, i, j)
  }

  ghost predicate Positive<V>(ll: seq<Entry<V>>) {
    forall i :: 0 <= i < |ll| ==> ll[i].bytes > 0
  }

  ghost predicate HasKey<V>(ll: seq<Entry<V>>, key: string) {
    exists i :: 0 <= i < |ll| && ll[i].key == key
  }

  // ---- Taking a key out of the recency list ----

  function WithoutTo<V>(ll: seq<Entry<V>>, key: string, n: nat): seq<Entry<V>>
    requires n <= |ll|
  {
    if n == 0 then []
    else if ll[n - 1].key == key then WithoutTo(ll, key, n - 1)
    else WithoutTo(ll, key, n - 1) + [ll[n - 1]]
  }

  function Without<V>(ll: seq<Entry<V>>, key: string): seq<Entry<V>> {
    WithoutTo(ll, key, |ll|)
  }

  lemma {:induction false} WithoutMembers<V>(ll: seq<Entry<V>>, key: string, n: nat)
    requires n <= |ll|
    ensures forall i :: 0 <= i < |WithoutTo(ll, key, n)| ==> WithoutTo(ll, key, n)[i].key != key
    ensures forall i :: 0 <= i < |WithoutTo(ll, key, n)| ==> WithoutTo(ll, key, n)[i] in ll[..n]
    ensures forall j :: 0 <= j < n && ll[j].key != key ==> ll[j] in WithoutTo(ll, key, n)
  {
    if n > 0 {
      WithoutMembers(ll, key, n - 1);
      assert ll[..n] == ll[..n - 1] + [ll[n - 1]];
    }
  }

  lemma {:induction false} DistinctSnoc<V>(ll: seq<Entry<V>>, e: Entry<V>)
    requires Distinct(ll) && forall i :: 0 <= i < |ll| ==> ll[i].key != e.key
    ensures Distinct(ll + [e])
  {
    forall i, j | 0 <= i < j < |ll + [e]|
      ensures Apart(ll + [e], i, j)
    {
      assert j < |ll| ==> Apart(ll, i, j);
    }
  }

  lemma {:induction false} WithoutDistinct<V>(ll: seq<Entry<V>>, key: string, n: nat)
    requires Distinct(ll) && n <= |ll|
    ensures Distinct(WithoutTo(ll, key, n))
  {
    if n > 0 {
      WithoutDistinct(ll, key, n - 1);
      WithoutMembers(ll, key, n - 1);
      var w := WithoutTo(ll, key, n - 1);
      forall i | 0 <= i < |w|
        ensures w[i].key != ll[n - 1].key
      {
        var j :| 0 <= j < n - 1 && ll[..n - 1][j] == w[i];
        assert Apart(ll, j, n - 1);
      }
      if ll[n - 1].key != key {
        DistinctSnoc(w, ll[n - 1]);
      }
    }
  }

  /** Nothing to take out. */
  lemma {:induction false} WithoutNothing<V>(ll: seq<Entry<V>>, key: string, n: nat)
    requires n <= |ll| && forall i :: 0 <= i < n ==> ll[i].key != key
    ensures WithoutTo(ll, key, n) == ll[..n]
  {
    if n > 0 {
      WithoutNothing(ll, key, n - 1);
      assert ll[..n] == ll[..n - 1] + [ll[n - 1]];
    }
  }

  /** Taking out the entry at i takes its cost off the total. */
  lemma {:induction false} WithoutSum<V>(ll: seq<Entry<V>>, i: nat, n: nat)
    requires Distinct(ll) && i < |ll| && n <= |ll|
    ensures var w := WithoutTo(ll, ll[i].key, n);
      Sum(w, |w|) == Sum(ll, n) - if i < n then ll[i].bytes else 0
  {
    if n > 0 {
      WithoutSum(ll, i, n - 1);
      if n - 1 != i {
        assert if i < n - 1 then Apart(ll, i, n - 1) else Apart(ll, n - 1, i);
        SumSnoc(WithoutTo(ll, ll[i].key, n - 1), ll[n - 1]);
      }
    }
  }

  lemma {:induction false} WithoutLast<V>(ll: seq<Entry<V>>)
    requires Distinct(ll) && |ll| > 0
    ensures Without(ll, ll[|ll| - 1].key) == ll[..|ll| - 1]
  {
    forall i | 0 <= i < |ll| - 1
      ensures ll[i].key != ll[|ll| - 1].key
    {
      assert Apart(ll, i, |ll| - 1);
    }
    WithoutNothing(ll, ll[|ll| - 1].key, |ll| - 1);
  }

  // ---- Eviction ----

  /** ll[..n] is the longest most-recent-first prefix that fits. */
  ghost predicate Fits<V>(ll: seq<Entry<V>>, max: int, n: nat) {
    n <= |ll| && Sum(ll, n) <= max && (n < |ll| ==> Sum(ll, n + 1) > max)
  }

  lemma {:induction false} SumGrows<V>(ll: seq<Entry<V>>, m: nat, n: nat)
    requires Positive(ll) && m <= n <= |ll|
    ensures Sum(ll, m) + (n - m) <= Sum(ll, n)
    decreases n - m
  {
    if m < n {
      SumGrows(ll, m, n - 1);
    }
  }

  /** There is only one such prefix, and no longer one fits. */
  lemma {:induction false} FitsUnique<V>(ll: seq<Entry<V>>, max: int, m: nat, n: nat)
    requires Positive(ll) && Fits(ll, max, m) && n <= |ll| && Sum(ll, n) <= max
    ensures n <= m && (Fits(ll, max, n) ==> n == m)
  {
    if m < n {
      SumGrows(ll, m + 1, n);
    } else if n < m {
      SumGrows(ll, n + 1, m);
    }
  }

  // ---- The map beside the list ----

  /** The map and the list hold the same entries. */
  ghost predicate Linked<V>(ll: seq<Entry<V>>, items: map<string, Entry<V>>) {
    && (forall i :: 0 <= i < |ll| ==> ll[i].key in items && items[ll[i].key] == ll[i])
    && (forall key :: key in items ==> items[key] in ll && items[key].key == key)
  }

  lemma {:induction false} LinkedWithout<V>(ll: seq<Entry<V>>, items: map<string, Entry<V>>, key: string)
    requires Linked(ll, items)
    ensures Linked(Without(ll, key), items - {key})
  {
    WithoutMembers(ll, key, |ll|);
    var w, m := Without(ll, key), items - {key};
    forall i | 0 <= i < |w|
      ensures w[i].key in m && m[w[i].key] == w[i]
    {
      assert w[i] in ll;
    }
  }

  lemma {:induction false} LinkedFront<V>(ll: seq<Entry<V>>, items: map<string, Entry<V>>, e: Entry<V>)
    requires Linked(ll, items) && e.key !in items
    ensures Linked([e] + ll, items[e.key := e])
  {
  }

  ghost predicate Wf<V>(ll: seq<Entry<V>>, items: map<string, Entry<V>>, curBytes: int) {
    Distinct(ll) && Positive(ll) && Linked(ll, items) && curBytes == Sum(ll, |ll|)
  }

  lemma {:induction false} WfWithout<V>(ll: seq<Entry<V>>, items: map<string, Entry<V>>, curBytes: int, key: string)
    requires Wf(ll, items, curBytes) && key in items
    ensures Wf(Without(ll, key), items - {key}, curBytes - items[key].bytes)
  {
    WithoutDistinct(ll, key, |ll|);
    WithoutMembers(ll, key, |ll|);
    LinkedWithout(ll, items, key);
    var i :| 0 <= i < |ll| && ll[i] == items[key];
    WithoutSum(ll, i, |ll|);
  }

  lemma {:induction false} WfFront<V>(ll: seq<Entry<V>>, items: map<string, Entry<V>>, curBytes: int, e: Entry<V>)
    requires Wf(ll, items, curBytes) && e.key !in items && e.bytes > 0
    ensures Wf([e] + ll, items[e.key := e], curBytes + e.bytes)
  {
    LinkedFront(ll, items, e);
    SumFront(ll, e, |ll|);
    forall i, j | 0 <= i < j < |[e] + ll|
      ensures Apart([e] + ll, i, j)
    {
      assert i > 0 ==> Apart(ll, i - 1, j - 1);
    }
  }

  // ---- Operations on the list ----

  /** What an entry is charged: its size, and at least one. */
  function Cost(bytes: int): (c: int)
    ensures c >= 1 && c >= bytes && (c == 1 || c == bytes)
  {
    if bytes <= 0 then 1 else bytes
  }

  /** The entry of a key. */
  function Lookup<V>(ll: seq<Entry<V>>, key: string, n: nat): (r: Option<Entry<V>>)
    requires n <= |ll|
    ensures r.Some? ==> r.value.key == key && r.value in ll
    ensures r.None? ==> forall i :: 0 <= i < n ==> ll[i].key != key
  {
    if n == 0 then None else if ll[n - 1].key == key then Some(ll[n - 1]) else Lookup(ll, key, n - 1)
  }

  function Hit<V>(ll: seq<Entry<V>>, ttl: int, key: string, now: int): Option<Entry<V>> {
    var e := Lookup(ll, key, |ll|);
    if e.Some? && ttl > 0 && now > e.value.expires then None else e
  }

  /** What a Get leaves: a fresh entry in front, a stale one gone. */
  function AfterGet<V>(ll: seq<Entry<V>>, ttl: int, key: string, now: int): seq<Entry<V>> {
    if Lookup(ll, key, |ll|).None? then ll
    else if Hit(ll, ttl, key, now).None? then Without(ll, key)
    else [Hit(ll, ttl, key, now).value] + Without(ll, key)
  }

  lemma {:induction false} LookupLinked<V>(ll: seq<Entry<V>>, items: map<string, Entry<V>>, key: string)
    requires Linked(ll, items)
    ensures Lookup(ll, key, |ll|) == if key in items then Some(items[key]) else None
  {
  }

  class LRU<V> {
    const maxBytes: int
    const ttl: int
    var curBytes: int
    var ll: seq<Entry<V>>
    var items: map<string, Entry<V>>
    var hits: nat
    var misses: nat

    ghost predicate Valid()
      reads this
    {
      maxBytes > 0 && Wf(ll, items, curBytes) && curBytes <= maxBytes
    }

    constructor (maxBytes: int, ttl: int)
      ensures Valid() && ll == [] && this.ttl == ttl && this.maxBytes == if maxBytes <= 0 then 1048576 else maxBytes
    {
      this.maxBytes := if maxBytes <= 0 then 1048576 else maxBytes;
      this.ttl, curBytes, ll, items, hits, misses := ttl, 0, [], map[], 0, 0;
    }

    /** removeElement. */
    method Remove(key: string)
      requires Wf(ll, items, curBytes) && key in items
      modifies this`ll, this`items, this`curBytes
      ensures Wf(ll, items, curBytes) && ll == Without(old(ll), key) && items == old(items) - {key}
      ensures curBytes == old(curBytes - items[key].bytes)
    {
      WfWithout(ll, items, curBytes, key);
      curBytes := curBytes - items[key].bytes;
      ll := Without(ll, key);
      items := items - {key};
    }

    method PushFront(e: Entry<V>)
      requires Wf(ll, items, curBytes) && e.key !in items && e.bytes > 0
      modifies this`ll, this`items, this`curBytes
      ensures Wf(ll, items, curBytes) && ll == [e] + old(ll) && items == old(items)[e.key := e]
      ensures curBytes == old(curBytes) + e.bytes
    {
      WfFront(ll, items, curBytes, e);
      ll := [e] + ll;
      items := items[e.key := e];
      curBytes := curBytes + e.bytes;
    }

    /** Get: a fresh entry moves to the front and its value is returned; a stale one is dropped. */
    method Get(key: string, now: int) returns (r: Option<V>)
      requires Valid()
      modifies this
      ensures Valid() && ll == AfterGet(old(ll), ttl, key, now)
      ensures var e := Hit(old(ll), ttl, key, now); r == if e.None? then None else Some(e.value.val)
      ensures hits + misses == old(hits + misses) + 1 && hits == old(hits) + if r.Some? then 1 else 0
    {
      LookupLinked(ll, items, key);
      if key !in items {
        misses := misses + 1;
        return None;
      }
      var e := items[key];
      if ttl > 0 && now > e.expires {
        assert e.bytes > 0;
        Remove(key);
        misses := misses + 1;
        return None;
      }
      Remove(key);
      PushFront(e);
      hits := hits + 1;
      return Some(e.val);
    }

    /** Set: replace, then evict from the back until it fits. What stays is the longest fitting prefix of the new list,
        and it has the new key. */
    method Set(key: string, val: V, bytes: int, now: int)
      requires Valid()
      modifies this`ll, this`items, this`curBytes
      ensures Valid()
      ensures Cost(bytes) > maxBytes ==> ll == old(ll)
      ensures Cost(bytes) <= maxBytes ==>
        var all := [Entry(key, val, Cost(bytes), now + ttl)] + Without(old(ll), key);
        0 < |ll| <= |all| && ll == all[..|ll|] && Fits(all, maxBytes, |ll|)
    {
      var cost := Cost(bytes);
      if cost > maxBytes {
        return;
      }
      LookupLinked(ll, items, key);
      if key in items {
        Remove(key);
      } else {
        WithoutNothing(ll, key, |ll|);
        assert ll[..|ll|] == ll;
      }
      PushFront(Entry(key, val, cost, now + ttl));
      Evict();
    }

    /** The eviction loop. */
    method Evict()
      requires Wf(ll, items, curBytes) && |ll| > 0 && ll[0].bytes <= maxBytes
      modifies this`ll, this`items, this`curBytes
      ensures Wf(ll, items, curBytes) && curBytes <= maxBytes
      ensures 0 < |ll| <= |old(ll)| && ll == old(ll)[..|ll|] && Fits(old(ll), maxBytes, |ll|)
    {
      ghost var all := ll;
      AllLeft(ll, maxBytes);
      while curBytes > maxBytes
        invariant Wf(ll, items, curBytes) && Evicted(ll, all, maxBytes)
        decreases |ll|
      {
        EvictLast(ll, all, maxBytes);
        Remove(ll[|ll| - 1].key);
      }
      EvictedFits(ll, all, maxBytes);
    }

    method Delete(key: string)
      requires Valid()
      modifies this`ll, this`items, this`curBytes
      ensures Valid() && ll == Without(old(ll), key)
    {
      LookupLinked(ll, items, key);
      if key in items {
        assert items[key].bytes > 0;
        Remove(key);
      } else {
        WithoutNothing(ll, key, |ll|);
        assert ll[..|ll|] == ll;
      }
    }
  }

  /** What eviction has left of all, the next longer part being too much. */
  ghost predicate Evicted<V>(ll: seq<Entry<V>>, all: seq<Entry<V>>, max: int) {
    && 0 < |ll| <= |all| && ll == all[..|ll|] && all[0].bytes <= max
    && (|ll| < |all| ==> Sum(all, |ll| + 1) > max)
  }

  lemma {:induction false} AllLeft<V>(ll: seq<Entry<V>>, max: int)
    requires |ll| > 0 && ll[0].bytes <= max
    ensures Evicted(ll, ll, max)
  {
    assert ll[..|ll|] == ll;
  }

  lemma {:induction false} EvictedFits<V>(ll: seq<Entry<V>>, all: seq<Entry<V>>, max: int)
    requires Evicted(ll, all, max) && Sum(ll, |ll|) <= max
    ensures Fits(all, max, |ll|)
  {
    SumFrame(ll, all, |ll|);
  }

  /** One entry always fits, so eviction stops before the front; taking the last leaves a shorter prefix, and the one it
      leaves behind did not fit. */
  lemma {:induction false} EvictLast<V>(ll: seq<Entry<V>>, all: seq<Entry<V>>, max: int)
    requires Distinct(ll) && Evicted(ll, all, max) && Sum(ll, |ll|) > max
    ensures Evicted(Without(ll, ll[|ll| - 1].key), all, max) && |Without(ll, ll[|ll| - 1].key)| < |ll|
  {
    assert Sum(ll, 1) == Sum(ll, 0) + ll[0].bytes;
    WithoutLast(ll);
    assert ll[..|ll| - 1] == all[..|ll| - 1];
    SumFrame(ll, all, |ll|);
  }

  // ---- Histories ----

  datatype Op<V> = Got(key: string, now: int) | Put(key: string, val: V, bytes: int, now: int) | Deleted(key: string)

  /** What the methods do to the list. */
  ghost predicate Does<V>(max: int, ttl: int, ll: seq<Entry<V>>, op: Op<V>, ll': seq<Entry<V>>) {
    match op
    case Got(key, now) => ll' == AfterGet(ll, ttl, key, now)
    case Deleted(key) => ll' == Without(ll, key)
    case Put(key, val, bytes, now) =>
      if Cost(bytes) > max then ll' == ll
      else
        var all := [Entry(key, val, Cost(bytes), now + ttl)] + Without(ll, key);
        0 < |ll'| <= |all| && ll' == all[..|ll'|] && Fits(all, max, |ll'|)
  }

  /** What was last accepted for a key, and when, unless deleted since. */
  function Last<V>(max: int, ops: seq<Op<V>>, n: nat, key: string): Option<(V, int)>
    requires n <= |ops|
  {
    if n == 0 then None
    else
      var op := ops[n - 1];
      if op.Put? && op.key == key && Cost(op.bytes) <= max then Some((op.val, op.now))
      else if op.Deleted? && op.key == key then None
      else Last(max, ops, n - 1, key)
  }

  /** From the empty cache, list by list. */
  ghost predicate Trace<V>(max: int, ttl: int, ops: seq<Op<V>>, lls: seq<seq<Entry<V>>>) {
    |lls| == |ops| + 1 && lls[0] == []
      && forall i, j :: 0 <= i < |ops| && j == i + 1 ==> Does(max, ttl, lls[i], ops[i], lls[j])
  }

  ghost predicate AllLast<V>(max: int, ttl: int, ops: seq<Op<V>>, n: nat, ll: seq<Entry<V>>)
    requires n <= |ops|
  {
    forall i :: 0 <= i < |ll| ==> Last(max, ops, n, ll[i].key) == Some((ll[i].val, ll[i].expires - ttl))
  }

  lemma {:induction false} StepKeepsLast<V>(max: int, ttl: int, ops: seq<Op<V>>, n: nat, ll: seq<Entry<V>>,
                                            ll': seq<Entry<V>>)
    requires n < |ops| && Does(max, ttl, ll, ops[n], ll') && AllLast(max, ttl, ops, n, ll)
    ensures AllLast(max, ttl, ops, n + 1, ll')
  {
    var op := ops[n];
    WithoutMembers(ll, op.key, |ll|);
    forall i | 0 <= i < |ll'|
      ensures Last(max, ops, n + 1, ll'[i].key) == Some((ll'[i].val, ll'[i].expires - ttl))
    {
      if op.Put? && Cost(op.bytes) <= max {
        var all := [Entry(op.key, op.val, Cost(op.bytes), op.now + ttl)] + Without(ll, op.key);
        assert ll'[i] == all[i];
        assert i > 0 ==> all[i] == Without(ll, op.key)[i - 1] && all[i] in ll;
      } else {
        assert ll'[i] in ll;
      }
    }
  }

  /** In every history, whatever is held for a key is what was last accepted for it. */
  lemma {:induction false} HoldsLast<V>(max: int, ttl: int, ops: seq<Op<V>>, lls: seq<seq<Entry<V>>>, n: nat)
    requires Trace(max, ttl, ops, lls) && n <= |ops|
    ensures AllLast(max, ttl, ops, n, lls[n])
  {
    if n > 0 {
      HoldsLast(max, ttl, ops, lls, n - 1);
      StepKeepsLast(max, ttl, ops, n - 1, lls[n - 1], lls[n]);
    }
  }

  /** A hit returns the value last accepted for its key, no older than the time to live allows; and a key that is held
      and no older than that is hit. */
  lemma {:induction false} HitIsLast<V>(max: int, ttl: int, ops: seq<Op<V>>, lls: seq<seq<Entry<V>>>, n: nat,
                                        key: string, now: int)
    requires Trace(max, ttl, ops, lls) && n <= |ops|
    ensures var e, last := Hit(lls[n], ttl, key, now), Last(max, ops, n, key);
      && (e.Some? ==> last.Some? && last.value.0 == e.value.val && (ttl > 0 ==> now <= last.value.1 + ttl))
      && (HasKey(lls[n], key) && last.Some? && (ttl > 0 ==> now <= last.value.1 + ttl) ==> e.Some?)
  {
    HoldsLast(max, ttl, ops, lls, n);
    var e := Lookup(lls[n], key, |lls[n]|);
    if e.Some? {
      var i :| 0 <= i < |lls[n]| && lls[n][i] == e.value;
    }
  }

  // ---- Recency ----

  /** Operation k uses the key: it is accepted for it, or hits it. */
  ghost predicate Uses<V>(max: int, ttl: int, ops: seq<Op<V>>, lls: seq<seq<Entry<V>>>, k: nat, key: string)
    requires k < |ops| && k < |lls|
  {
    match ops[k]
    case Got(x, now) => x == key && Hit(lls[k], ttl, key, now).Some?
    case Put(x, _, bytes, _) => x == key && Cost(bytes) <= max
    case Deleted(_) => false
  }

  /** One more than the last operation before n that uses the key; 0 when there is none. */
  ghost function LastUse<V>(max: int, ttl: int, ops: seq<Op<V>>, lls: seq<seq<Entry<V>>>, n: nat, key: string): (u: nat)
    requires n <= |ops| && n <= |lls|
    ensures u <= n
  {
    if n == 0 then 0
    else if Uses(max, ttl, ops, lls, n - 1, key) then n
    else LastUse(max, ttl, ops, lls, n - 1, key)
  }

  ghost predicate ByRecency<V>(max: int, ttl: int, ops: seq<Op<V>>, lls: seq<seq<Entry<V>>>, n: nat, ll: seq<Entry<V>>)
    requires n <= |ops| && n <= |lls|
  {
    forall i, j :: 0 <= i < j < |ll| ==>
      LastUse(max, ttl, ops, lls, n, ll[i].key) > LastUse(max, ttl, ops, lls, n, ll[j].key)
  }

  /** Taking a key out keeps the others in their order. */
  lemma {:induction false} WithoutByRecency<V>(max: int, ttl: int, ops: seq<Op<V>>, lls: seq<seq<Entry<V>>>, n: nat,
                                               ll: seq<Entry<V>>, key: string, m: nat)
    requires n < |ops| && n < |lls| && m <= |ll| && ByRecency(max, ttl, ops, lls, n, ll)
    requires forall k :: k != key ==> !Uses(max, ttl, ops, lls, n, k)
    ensures ByRecency(max, ttl, ops, lls, n + 1, WithoutTo(ll, key, m))
  {
    if m > 0 {
      WithoutByRecency(max, ttl, ops, lls, n, ll, key, m - 1);
      WithoutMembers(ll, key, m - 1);
      var w, last := WithoutTo(ll, key, m - 1), ll[m - 1];
      if last.key != key {
        forall i | 0 <= i < |w|
          ensures LastUse(max, ttl, ops, lls, n + 1, w[i].key) > LastUse(max, ttl, ops, lls, n + 1, last.key)
        {
          assert w[i] in ll[..m - 1];
        }
        BackByRecency(max, ttl, ops, lls, n + 1, w, last);
      }
    }
  }

  lemma {:induction false} BackByRecency<V>(max: int, ttl: int, ops: seq<Op<V>>, lls: seq<seq<Entry<V>>>, n: nat,
                                            w: seq<Entry<V>>, e: Entry<V>)
    requires n <= |ops| && n <= |lls| && ByRecency(max, ttl, ops, lls, n, w)
    requires forall i :: 0 <= i < |w| ==>
      LastUse(max, ttl, ops, lls, n, w[i].key) > LastUse(max, ttl, ops, lls, n, e.key)
    ensures ByRecency(max, ttl, ops, lls, n, w + [e])
  {
  }

  lemma {:induction false} FrontByRecency<V>(max: int, ttl: int, ops: seq<Op<V>>, lls: seq<seq<Entry<V>>>, n: nat,
                                             w: seq<Entry<V>>, e: Entry<V>)
    requires n < |ops| && n < |lls| && ByRecency(max, ttl, ops, lls, n + 1, w) && Uses(max, ttl, ops, lls, n, e.key)
    requires forall i :: 0 <= i < |w| ==> w[i].key != e.key
    requires forall k :: k != e.key ==> !Uses(max, ttl, ops, lls, n, k)
    ensures ByRecency(max, ttl, ops, lls, n + 1, [e] + w)
  {
  }

  lemma {:induction false} StepKeepsRecency<V>(max: int, ttl: int, ops: seq<Op<V>>, lls: seq<seq<Entry<V>>>, n: nat)
    requires Trace(max, ttl, ops, lls) && n < |ops| && ByRecency(max, ttl, ops, lls, n, lls[n])
    ensures ByRecency(max, ttl, ops, lls, n + 1, lls[n + 1])
  {
    var op, ll := ops[n], lls[n];
    assert Does(max, ttl, ll, op, lls[n + 1]);
    WithoutMembers(ll, op.key, |ll|);
    WithoutByRecency(max, ttl, ops, lls, n, ll, op.key, |ll|);
    match op
    case Got(key, now) =>
      if Hit(ll, ttl, key, now).Some? {
        FrontByRecency(max, ttl, ops, lls, n, Without(ll, key), Hit(ll, ttl, key, now).value);
      }
    case Put(key, val, bytes, now) =>
      if Cost(bytes) <= max {
        FrontByRecency(max, ttl, ops, lls, n, Without(ll, key), Entry(key, val, Cost(bytes), now + ttl));
      }
    case Deleted(_) =>
  }

  /** In every history the list is in the order of last use, most recent first, so what eviction takes from its back are
      the least recently used. */
  lemma {:induction false} OrderedByUse<V>(max: int, ttl: int, ops: seq<Op<V>>, lls: seq<seq<Entry<V>>>, n: nat)
    requires Trace(max, ttl, ops, lls) && n <= |ops|
    ensures ByRecency(max, ttl, ops, lls, n, lls[n])
  {
    if n == 0 {
      assert lls[0] == [];
    } else {
      OrderedByUse(max, ttl, ops, lls, n - 1);
      StepKeepsRecency(max, ttl, ops, lls, n - 1);
    }
  }
}
