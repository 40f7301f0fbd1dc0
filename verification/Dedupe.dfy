/** The duplicate filter of the ingest pipeline (internal/ingest/pipeline.go): two generations of keys. */
module Dedupe {
  import opened Bytes

  datatype Window = Window(cur: set<string>, prev: set<string>)

  function Fresh(): Window {
    Window({}, {})
  }

  predicate Known(d: Window, key: string) {
    key in d.cur || key in d.prev
  }

  /** The window after an unknown key was accepted: a full generation is retired first. */
  function Accept(cap: nat, d: Window, key: string): Window {
    if |d.cur| >= cap then Window({key}, d.cur) else Window(d.cur + {key}, d.prev)
  }

  class Filter {
    const cap: nat
    var cur: set<string>
    var prev: set<string>

    constructor (cap: nat)
      ensures this.cap == cap && Window(cur, prev) == Fresh()
    {
      this.cap, cur, prev := cap, {}, {};
    }

    method FirstSeen(key: string) returns (first: bool)
      modifies this
      ensures first <==> !Known(old(Window(cur, prev)), key)
      ensures Window(cur, prev) == if first then Accept(cap, old(Window(cur, prev)), key) else old(Window(cur, prev))
    {
      if key in cur {
        return false;
      }
      if key in prev {
        return false;
      }
      if |cur| >= cap {
        prev := cur;
        cur := {};
      }
      cur := cur + {key};
      return true;
    }
  }

  // ---- Every sequence of keys ----

  /** The keys that were accepted when `keys` were offered in order, and the window they left. */
  datatype History = History(accepted: seq<string>, window: Window)

  function Offer(cap: nat, h: History, key: string): History {
    if Known(h.window, key) then h else History(h.accepted + [key], Accept(cap, h.window, key))
  }

  function OfferAll(cap: nat, keys: seq<string>, n: nat): History
    requires n <= |keys|
  {
    if n == 0 then History([], Fresh()) else Offer(cap, OfferAll(cap, keys, n - 1), keys[n - 1])
  }

  function Elements(s: seq<string>): set<string> {
    set i | 0 <= i < |s| :: s[i]
  }

  /** The current generation is the latest keys from `b` on; the previous one a full generation before it. */
  ghost predicate Split(cap: nat, h: History, a: nat, b: nat) {
    && a <= b <= |h.accepted|
    && h.window.prev == Elements(h.accepted[a..b]) && h.window.cur == Elements(h.accepted[b..])
    && |h.window.cur| == |h.accepted| - b <= cap && |h.window.prev| <= cap
    && (a == b == 0 || b - a >= cap)
  }

  lemma {:induction false} ElementsSnoc(s: seq<string>, x: string)
    ensures Elements(s + [x]) == Elements(s) + {x}
  {
    var t := s + [x];
    forall y | y in Elements(s) + {x}
      ensures y in Elements(t)
    {
      if y in Elements(s) {
        var i :| 0 <= i < |s| && s[i] == y;
        assert t[i] == y;
      } else {
        assert t[|s|] == y;
      }
    }
  }

  lemma {:induction false} OfferSplits(cap: nat, h: History, a: nat, b: nat, key: string) returns (a': nat, b': nat)
    requires cap > 0 && Split(cap, h, a, b)
    ensures Split(cap, Offer(cap, h, key), a', b')
  {
    a', b' := a, b;
    if !Known(h.window, key) {
      var acc := h.accepted + [key];
      if |h.window.cur| >= cap {
        a', b' := b, |h.accepted|;
        assert acc[a'..b'] == h.accepted[b..] && acc[b'..] == [] + [key];
        ElementsSnoc([], key);
      } else {
        assert acc[a..b] == h.accepted[a..b] && acc[b..] == h.accepted[b..] + [key];
        ElementsSnoc(h.accepted[b..], key);
      }
    }
  }

  lemma {:induction false} OfferAllSplits(cap: nat, keys: seq<string>, n: nat) returns (a: nat, b: nat)
    requires cap > 0 && n <= |keys|
    ensures Split(cap, OfferAll(cap, keys, n), a, b)
  {
    if n == 0 {
      a, b := 0, 0;
    } else {
      a, b := OfferAllSplits(cap, keys, n - 1);
      a, b := OfferSplits(cap, OfferAll(cap, keys, n - 1), a, b, keys[n - 1]);
    }
  }

  lemma {:induction false} LastAreKnown(cap: nat, h: History, a: nat, b: nat)
    requires cap > 0 && Split(cap, h, a, b)
    ensures forall i :: 0 <= i < |h.accepted| && i >= |h.accepted| - cap ==> Known(h.window, h.accepted[i])
    ensures forall key :: Known(h.window, key) ==> key in h.accepted
  {
    forall i | 0 <= i < |h.accepted| && i >= |h.accepted| - cap
      ensures Known(h.window, h.accepted[i])
    {
      if i >= b {
        assert h.accepted[b..][i - b] == h.accepted[i];
      } else {
        assert h.accepted[a..b][i - a] == h.accepted[i];
      }
    }
  }

  /** After any sequence of keys: the last `cap` accepted ones are all known, no key that was never accepted is,
      and no more than 2 * cap are held. */
  lemma {:induction false} WindowHolds(cap: nat, keys: seq<string>, n: nat)
    requires cap > 0 && n <= |keys|
    ensures var h := OfferAll(cap, keys, n);
      && (forall i :: 0 <= i < |h.accepted| && i >= |h.accepted| - cap ==> Known(h.window, h.accepted[i]))
      && (forall key :: Known(h.window, key) ==> key in h.accepted)
      && |h.window.cur| + |h.window.prev| <= 2 * cap
  {
    var a, b := OfferAllSplits(cap, keys, n);
    LastAreKnown(cap, OfferAll(cap, keys, n), a, b);
  }

  // ---- Keys ----

  function Chars(s: seq<Byte>): (r: string)
    ensures |r| == |s|
  {
    seq(|s|, i requires 0 <= i < |s| => s[i] as char)
  }

  /** projectKey: the project as eight bytes, then the event id. */
  function ProjectKey(project: Int64, id: string): string {
    Chars(PutLE(ToU64(project), 8)) + id
  }

  lemma {:induction false} CharsInjective(a: seq<Byte>, b: seq<Byte>)
    requires Chars(a) == Chars(b)
    ensures a == b
  {
    forall i | 0 <= i < |a|
      ensures a[i] == b[i]
    {
      assert Chars(a)[i] == Chars(b)[i];
    }
  }

  /** Keys of different projects, or of different ids, never collide. */
  lemma {:induction false} ProjectKeyInjective(p: Int64, a: string, q: Int64, b: string)
    ensures ProjectKey(p, a) == ProjectKey(q, b) <==> p == q && a == b
  {
    if ProjectKey(p, a) == ProjectKey(q, b) {
      var x, y := Chars(PutLE(ToU64(p), 8)), Chars(PutLE(ToU64(q), 8));
      assert x == ProjectKey(p, a)[..8] == ProjectKey(q, b)[..8] == y;
      assert a == ProjectKey(p, a)[8..] == ProjectKey(q, b)[8..] == b;
      CharsInjective(PutLE(ToU64(p), 8), PutLE(ToU64(q), 8));
      Int64Field(p);
      Int64Field(q);
    }
  }
}
