/** Finite runs of a transition relation. */
module Runs {

  /** The events evs lead from state s to state t. */
  ghost predicate Run<S(!new), E(!new)>(next: (S, E, S) -> bool, s: S, evs: seq<E>, t: S)
    decreases |evs|
  {
    if evs == [] then s == t
    else exists m :: next(s, evs[0], m) && Run(next, m, evs[1..], t)
  }

  lemma {:induction false} One<S(!new), E(!new)>(next: (S, E, S) -> bool, s: S, e: E, t: S)
    requires next(s, e, t)
    ensures Run(next, s, [e], t)
  {
    assert Run(next, t, [e][1..], t);
  }

  lemma {:induction false} Concat<S(!new), E(!new)>(next: (S, E, S) -> bool, s: S, a: seq<E>, m: S, b: seq<E>, t: S)
    requires Run(next, s, a, m) && Run(next, m, b, t)
    ensures Run(next, s, a + b, t)
    decreases |a|
  {
    if a == [] {
      assert a + b == b;
    } else {
      var s' :| next(s, a[0], s') && Run(next, s', a[1..], m);
      Concat(next, s', a[1..], m, b, t);
      assert (a + b)[0] == a[0] && (a + b)[1..] == a[1..] + b;
    }
  }

  lemma {:induction false} Snoc<S(!new), E(!new)>(next: (S, E, S) -> bool, s: S, a: seq<E>, m: S, e: E, t: S)
    requires Run(next, s, a, m) && next(m, e, t)
    ensures Run(next, s, a + [e], t)
  {
    One(next, m, e, t);
    Concat(next, s, a, m, [e], t);
  }

  lemma {:induction false} Three<S(!new), E(!new)>(next: (S, E, S) -> bool, s: S, a: E, m: S, b: E, n: S, c: E, t: S)
    requires next(s, a, m) && next(m, b, n) && next(n, c, t)
    ensures Run(next, s, [a, b, c], t)
  {
    Two(next, m, b, n, c, t);
    assert [a, b, c][1..] == [b, c];
  }

  lemma {:induction false} Two<S(!new), E(!new)>(next: (S, E, S) -> bool, s: S, a: E, m: S, b: E, t: S)
    requires next(s, a, m) && next(m, b, t)
    ensures Run(next, s, [a, b], t)
  {
    One(next, m, b, t);
    assert [a, b][1..] == [b];
  }
}
