/** Glob matching of grouping rules (internal/grouping/rules.go): `**` spans anything, its pieces are found greedily. */
module Glob {
  import opened Base

  // ---- path.Match ----

  /** What a pattern is made of: `*`, which matches anything without a slash, and what matches one character. */
  datatype Token = Star | One(accepts: char -> bool)

  /** How path.Match reads a pattern: its tokens, unless it is malformed. */
  type Syntax = string -> Option<seq<Token>>

  /** The tokens from the k-th on match s from a to b. */
  predicate Span(ts: seq<Token>, k: nat, s: string, a: nat, b: nat)
    requires k <= |ts| && a <= b <= |s|
    decreases |ts| - k, b - a
  {
    if k == |ts| then a == b
    else if ts[k].Star? then Span(ts, k + 1, s, a, b) || (a < b && s[a] != '/' && Span(ts, k, s, a + 1, b))
    else a < b && ts[k].accepts(s[a]) && Span(ts, k + 1, s, a + 1, b)
  }

  /** path.Match as a test: false on a malformed pattern. */
  predicate PathMatch(m: Syntax, f: string, t: string) {
    m(f).Some? && Span(m(f).value, 0, t, 0, |t|)
  }

  /** Matching a part of s is matching in place. */
  lemma {:induction false} SpanShift(ts: seq<Token>, k: nat, s: string, a: nat, b: nat, i: nat)
    requires k <= |ts| && a <= b <= |s| && i <= b - a
    ensures Span(ts, k, s[a..b], i, b - a) <==> Span(ts, k, s, a + i, b)
    decreases |ts| - k, b - a - i
  {
    if k < |ts| {
      SpanShift(ts, k + 1, s, a, b, i);
      if i < b - a {
        SpanShift(ts, k, s, a, b, i + 1);
        SpanShift(ts, k + 1, s, a, b, i + 1);
      }
    }
  }

  /** Two matches, one inside the other, cross within a `*` of the outer one; so the outer one can end where the inner
      does. */
  lemma {:induction false} Crossing(ts: seq<Token>, k: nat, s: string, a: nat, b: nat, x: nat, y: nat)
    requires k <= |ts| && a <= x <= y <= b <= |s| && Span(ts, k, s, a, b) && Span(ts, k, s, x, y)
    ensures Span(ts, k, s, a, y)
    decreases |ts| - k, b - a + y - x
  {
    if k < |ts| && a < x {
      if ts[k].One? {
        Crossing(ts, k + 1, s, a + 1, b, x + 1, y);
      } else if !Span(ts, k + 1, s, a, b) {
        Crossing(ts, k, s, a + 1, b, x, y);
      } else if Span(ts, k + 1, s, x, y) {
        Crossing(ts, k + 1, s, a, b, x, y);
      } else {
        Crossing(ts, k, s, a, b, x + 1, y);
      }
    }
  }

  // ---- Splitting at ** ----

  predicate StarsAt(p: string, i: int) {
    0 <= i && i + 1 < |p| && p[i] == '*' && p[i + 1] == '*'
  }

  /** The first "**" at or after i, or the length. */
  function FirstStars(p: string, i: nat): (r: nat)
    requires i <= |p|
    ensures i <= r <= |p| && (r < |p| ==> StarsAt(p, r)) && forall j :: i <= j < r ==> !StarsAt(p, j)
    decreases |p| - i
  {
    if i == |p| || StarsAt(p, i) then i else FirstStars(p, i + 1)
  }

  /** strings.Split(p, "**"). */
  function Split(p: string): (parts: seq<string>)
    ensures |parts| > 0
    decreases |p|
  {
    var i := FirstStars(p, 0);
    if i == |p| then [p] else [p[..i]] + Split(p[i + 2..])
  }

  function Join(parts: seq<string>): string
    requires |parts| > 0
  {
    if |parts| == 1 then parts[0] else parts[0] + "**" + Join(parts[1..])
  }

  /** The pieces are the pattern cut at "**", and none contains it. */
  lemma {:induction false} SplitJoins(p: string)
    ensures Join(Split(p)) == p
    ensures forall k, j :: 0 <= k < |Split(p)| ==> !StarsAt(Split(p)[k], j)
    decreases |p|
  {
    var i := FirstStars(p, 0);
    if i < |p| {
      SplitJoins(p[i + 2..]);
      var rest := Split(p[i + 2..]);
      assert ([p[..i]] + rest)[1..] == rest;
      assert p == p[..i] + "**" + p[i + 2..];
      assert forall j :: StarsAt(p[..i], j) ==> StarsAt(p, j);
    }
  }

  // ---- Finding one piece ----

  predicate HasMeta(f: string) {
    exists i :: 0 <= i < |f| && f[i] in {'*', '?', '['}
  }

  /** What one piece accepts: itself, or what path.Match says when it has wildcards. */
  predicate Accepts(m: Syntax, f: string, t: string) {
    if HasMeta(f) then PathMatch(m, f, t) else t == f
  }

  /** A piece with one of the three wildcard characters is matched by path.Match, any other piece by itself alone. */
  lemma {:induction false} AcceptsIs(m: Syntax, f: string, t: string)
    ensures '*' in f || '?' in f || '[' in f ==> (Accepts(m, f, t) <==> PathMatch(m, f, t))
    ensures '*' !in f && '?' !in f && '[' !in f ==> (Accepts(m, f, t) <==> t == f)
  {
    forall c | c in f
      ensures exists i :: 0 <= i < |f| && f[i] == c
    {
    }
  }

  /** f accepts s from a to b. */
  predicate Occurs(m: Syntax, f: string, s: string, a: int, b: int) {
    0 <= a <= b <= |s| && Accepts(m, f, s[a..b])
  }

  /** The end found for f at or after `from`: the shortest at the earliest start. */
  ghost predicate Found(m: Syntax, f: string, s: string, from: nat, anchored: bool, r: int) {
    if r < 0 then forall a, b :: from <= a && (anchored ==> a == from) ==> !Occurs(m, f, s, a, b)
    else exists a :: Earliest(m, f, s, from, anchored, a, r)
  }

  ghost predicate Earliest(m: Syntax, f: string, s: string, from: nat, anchored: bool, a: int, r: int) {
    && from <= a && (anchored ==> a == from) && Occurs(m, f, s, a, r)
    && (forall x, y :: from <= x < a ==> !Occurs(m, f, s, x, y))
    && (forall y :: a <= y < r ==> !Occurs(m, f, s, a, y))
  }

  /** indexGlob on the rest of s: a prefix test or a search for a literal, else every start and end in turn. */
  method IndexGlob(m: Syntax, s: string, from: nat, f: string, anchored: bool) returns (r: int)
    requires from <= |s|
    ensures Found(m, f, s, from, anchored, r)
  {
    if !HasMeta(f) {
      var i := from;
      while i + |f| <= |s| && (!anchored || i == from)
        invariant from <= i && forall x, y :: from <= x < i && (anchored ==> x == from) ==> !Occurs(m, f, s, x, y)
      {
        if s[i..i + |f|] == f {
          assert Earliest(m, f, s, from, anchored, i, i + |f|);
          return i + |f|;
        }
        i := i + 1;
      }
      return -1;
    }
    var i := from;
    while i <= |s| && (!anchored || i == from)
      invariant from <= i && forall x, y :: from <= x < i && (anchored ==> x == from) ==> !Occurs(m, f, s, x, y)
    {
      var j := i;
      while j <= |s|
        invariant i <= j && forall y :: i <= y < j ==> !Occurs(m, f, s, i, y)
      {
        if PathMatch(m, f, s[i..j]) {
          assert Earliest(m, f, s, from, anchored, i, j);
          return j;
        }
        j := j + 1;
      }
      i := i + 1;
    }
    return -1;
  }

  // ---- The pieces in order ----

  /** The pieces from the k-th on occur in order from `from` on, disjoint, with any gaps; the first piece of all at the
      very start, and what follows the last one free. */
  ghost predicate InOrder(m: Syntax, parts: seq<string>, k: nat, s: string, from: nat)
    requires k <= |parts|
    decreases |parts| - k
  {
    if k == |parts| then true
    else if parts[k] == "" then InOrder(m, parts, k + 1, s, from)
    else
      exists a, b ::
        from <= a && (k == 0 ==> a == from) && Occurs(m, parts[k], s, a, b) && InOrder(m, parts, k + 1, s, b)
  }

  /** An earlier start leaves more room. */
  lemma {:induction false} InOrderEarlier(m: Syntax, parts: seq<string>, k: nat, s: string, from: nat, from': nat)
    requires 0 < k <= |parts| && from' <= from && InOrder(m, parts, k, s, from)
    ensures InOrder(m, parts, k, s, from')
    decreases |parts| - k
  {
    if k < |parts| {
      if parts[k] == "" {
        InOrderEarlier(m, parts, k + 1, s, from, from');
      } else {
        var a, b :| from <= a && (k == 0 ==> a == from) && Occurs(m, parts[k], s, a, b)
          && InOrder(m, parts, k + 1, s, b);
        assert from' <= a;
      }
    }
  }

  /** An occurrence that encloses another can end where that one does. */
  lemma {:induction false} Stretches(m: Syntax, f: string, s: string, a: nat, b: nat, x: nat, y: nat)
    requires Occurs(m, f, s, a, b) && Occurs(m, f, s, x, y) && a <= x && y <= b
    ensures Occurs(m, f, s, a, y)
  {
    if HasMeta(f) {
      var ts := m(f).value;
      SpanShift(ts, 0, s, a, b, 0);
      SpanShift(ts, 0, s, x, y, 0);
      SpanShift(ts, 0, s, a, y, 0);
      Crossing(ts, 0, s, a, b, x, y);
    }
  }

  /** The search for f ends as early as any occurrence does. */
  lemma {:induction false} FoundIsEarliest(m: Syntax, f: string, s: string, from: nat, anchored: bool, r: int, a: int,
                                           b: int)
    requires Found(m, f, s, from, anchored, r) && from <= a && (anchored ==> a == from) && Occurs(m, f, s, a, b)
    ensures 0 <= r <= b
  {
    if b < r {
      var e :| Earliest(m, f, s, from, anchored, e, r);
      Stretches(m, f, s, e, r, a, b);
    }
  }

  /** Taking the piece where the search finds it is a way to place it. */
  lemma {:induction false} GreedySound(m: Syntax, parts: seq<string>, k: nat, s: string, from: nat, r: int)
    requires k < |parts| && parts[k] != "" && Found(m, parts[k], s, from, k == 0, r) && 0 <= r
      && InOrder(m, parts, k + 1, s, r)
    ensures InOrder(m, parts, k, s, from)
  {
  }

  /** And it loses no way to place the others. */
  lemma {:induction false} GreedyComplete(m: Syntax, parts: seq<string>, k: nat, s: string, from: nat, r: int)
    requires k < |parts| && parts[k] != "" && Found(m, parts[k], s, from, k == 0, r)
    requires InOrder(m, parts, k, s, from)
    ensures 0 <= r && InOrder(m, parts, k + 1, s, r)
  {
    var a, b :| from <= a && (k == 0 ==> a == from) && Occurs(m, parts[k], s, a, b) && InOrder(m, parts, k + 1, s, b);
    FoundIsEarliest(m, parts[k], s, from, k == 0, r, a, b);
    InOrderEarlier(m, parts, k + 1, s, b, r);
  }

  /** What a pattern means. */
  ghost predicate Means(m: Syntax, pattern: string, s: string) {
    if pattern == "" then false
    else if pattern == "*" || pattern == "**" then s != ""
    else if FirstStars(pattern, 0) < |pattern| then InOrder(m, Split(pattern), 0, s, 0)
    else PathMatch(m, pattern, s)
  }

  /** The loop over the pieces accepts exactly what holds them in order. */
  method MatchPieces(m: Syntax, parts: seq<string>, s: string) returns (ok: bool)
    ensures ok <==> InOrder(m, parts, 0, s, 0)
  {
    var from := 0;
    for k := 0 to |parts|
      invariant from <= |s| && (k == 0 ==> from == 0)
      invariant InOrder(m, parts, k, s, from) <==> InOrder(m, parts, 0, s, 0)
    {
      if parts[k] == "" {
        continue;
      }
      var idx := IndexGlob(m, s, from, parts[k], k == 0);
      if InOrder(m, parts, k, s, from) {
        GreedyComplete(m, parts, k, s, from, idx);
      }
      if idx < 0 {
        return false;
      }
      if InOrder(m, parts, k + 1, s, idx) {
        GreedySound(m, parts, k, s, from, idx);
      }
      from := idx;
    }
    return true;
  }

  /** globMatch. */
  method GlobMatch(m: Syntax, pattern: string, s: string) returns (ok: bool)
    ensures ok <==> Means(m, pattern, s)
  {
    if pattern == "" {
      return false;
    }
    if pattern == "*" || pattern == "**" {
      return s != "";
    }
    if FirstStars(pattern, 0) < |pattern| {
      ok := MatchPieces(m, Split(pattern), s);
      return;
    }
    return PathMatch(m, pattern, s);
  }
}
