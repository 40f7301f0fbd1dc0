/** Sorting by a comparison, as sort.Slice and sort.Strings do it, and the order of strings. */
module Sorting {

  ghost predicate TotalOrder<T(!new)>(le: (T, T) -> bool) {
    && (forall a, b :: le(a, b) || le(b, a))
    && (forall a, b, c :: le(a, b) && le(b, c) ==> le(a, c))
  }

  ghost predicate SortedBy<T>(le: (T, T) -> bool, s: seq<T>) {
    forall i, j :: 0 <= i < j < |s| ==> le(s[i], s[j])
  }

  function Insert<T>(le: (T, T) -> bool, x: T, s: seq<T>): (r: seq<T>)
    ensures |r| == |s| + 1
  {
    if s == [] || le(x, s[0]) then [x] + s else [s[0]] + Insert(le, x, s[1..])
  }

  /** Any sort by comparison does: callers rely only on order and on the elements being the same. */
  function Sort<T>(le: (T, T) -> bool, s: seq<T>): (r: seq<T>)
    ensures |r| == |s|
  {
    if s == [] then [] else Insert(le, s[0], Sort(le, s[1..]))
  }

  lemma {:induction false} BagOfCons<T>(x: T, s: seq<T>)
    ensures multiset([x] + s) == multiset(s) + multiset{x}
  {
  }

  lemma {:induction false} InsertBag<T>(le: (T, T) -> bool, x: T, s: seq<T>)
    ensures multiset(Insert(le, x, s)) == multiset(s) + multiset{x}
  {
    if s == [] || le(x, s[0]) {
      BagOfCons(x, s);
    } else {
      InsertBag(le, x, s[1..]);
      BagOfCons(s[0], Insert(le, x, s[1..]));
      BagOfCons(s[0], s[1..]);
      assert s == [s[0]] + s[1..];
    }
  }

  lemma {:induction false} SortPermutes<T>(le: (T, T) -> bool, s: seq<T>)
    ensures multiset(Sort(le, s)) == multiset(s)
  {
    if s != [] {
      SortPermutes(le, s[1..]);
      InsertBag(le, s[0], Sort(le, s[1..]));
      assert s == [s[0]] + s[1..];
    }
  }

  lemma {:induction false} InsertSorted<T(!new)>(le: (T, T) -> bool, x: T, s: seq<T>)
    requires TotalOrder(le) && SortedBy(le, s)
    ensures SortedBy(le, Insert(le, x, s))
  {
    if s == [] {
    } else if le(x, s[0]) {
      forall i | 0 <= i < |s|
        ensures le(x, s[i])
      {
        assert i == 0 || le(s[0], s[i]);
      }
    } else {
      var t := Insert(le, x, s[1..]);
      InsertSorted(le, x, s[1..]);
      InsertBag(le, x, s[1..]);
      forall i | 0 <= i < |t|
        ensures le(s[0], t[i])
      {
        assert t[i] in multiset(t);
        assert t[i] == x || t[i] in s[1..];
      }
    }
  }

  lemma {:induction false} SortSorts<T(!new)>(le: (T, T) -> bool, s: seq<T>)
    requires TotalOrder(le)
    ensures SortedBy(le, Sort(le, s))
  {
    if s != [] {
      SortSorts(le, s[1..]);
      InsertSorted(le, s[0], Sort(le, s[1..]));
    }
  }

  lemma {:induction false} InsertMembers<T>(le: (T, T) -> bool, x: T, s: seq<T>, y: T)
    ensures y in Insert(le, x, s) <==> y == x || y in s
  {
    InsertBag(le, x, s);
    assert y in multiset(Insert(le, x, s)) <==> y in multiset(s) + multiset{x};
  }

  lemma {:induction false} SortMembers<T>(le: (T, T) -> bool, s: seq<T>, x: T)
    ensures x in Sort(le, s) <==> x in s
  {
    SortPermutes(le, s);
    assert x in multiset(Sort(le, s)) <==> x in multiset(s);
  }

  ghost predicate AllDistinct<T>(s: seq<T>) {
    forall i, j :: 0 <= i < j < |s| ==> s[i] != s[j]
  }

  lemma {:induction false} InsertDistinct<T>(le: (T, T) -> bool, x: T, s: seq<T>)
    requires AllDistinct(s) && x !in s
    ensures AllDistinct(Insert(le, x, s))
  {
    if s == [] || le(x, s[0]) {
    } else {
      InsertDistinct(le, x, s[1..]);
      InsertMembers(le, x, s[1..], s[0]);
    }
  }

  lemma {:induction false} SortDistinct<T>(le: (T, T) -> bool, s: seq<T>)
    requires AllDistinct(s)
    ensures AllDistinct(Sort(le, s))
  {
    if s != [] {
      SortDistinct(le, s[1..]);
      SortMembers(le, s[1..], s[0]);
      InsertDistinct(le, s[0], Sort(le, s[1..]));
    }
  }

  lemma {:induction false} SameElements<T>(a: seq<T>, b: seq<T>, x: T)
    requires multiset(a) == multiset(b)
    ensures x in a <==> x in b
  {
    assert x in multiset(a) <==> x in multiset(b);
  }

  // ---- Strings in byte order ----

  predicate StrLe(a: string, b: string) {
    a == "" || (b != "" && (a[0] < b[0] || (a[0] == b[0] && StrLe(a[1..], b[1..]))))
  }

  lemma {:induction false} StrLeTotal(a: string, b: string)
    ensures StrLe(a, b) || StrLe(b, a)
  {
    if a != "" && b != "" && a[0] == b[0] {
      StrLeTotal(a[1..], b[1..]);
    }
  }

  lemma {:induction false} StrLeTransitive(a: string, b: string, c: string)
    requires StrLe(a, b) && StrLe(b, c)
    ensures StrLe(a, c)
  {
    if a != "" && a[0] == b[0] == c[0] {
      StrLeTransitive(a[1..], b[1..], c[1..]);
    }
  }

  lemma {:induction false} StrLeAntisymmetric(a: string, b: string)
    requires StrLe(a, b) && StrLe(b, a)
    ensures a == b
  {
    if a != "" {
      StrLeAntisymmetric(a[1..], b[1..]);
      assert a == [a[0]] + a[1..] && b == [b[0]] + b[1..];
    }
  }

  function StringOrder(): (string, string) -> bool {
    (a, b) => StrLe(a, b)
  }

  lemma {:induction false} StringOrderTotal()
    ensures TotalOrder(StringOrder())
  {
    forall a, b
      ensures StrLe(a, b) || StrLe(b, a)
    {
      StrLeTotal(a, b);
    }
    forall a, b, c | StrLe(a, b) && StrLe(b, c)
      ensures StrLe(a, c)
    {
      StrLeTransitive(a, b, c);
    }
  }
}
