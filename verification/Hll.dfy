/** The HyperLogLog sketch of distinct users (internal/eventstore/hll.go), up to its estimate. */
module Hll {
  import opened Bytes

  const REGISTERS: nat := 4096
  const TWO_52: nat := 0x10_0000_0000_0000

  type U64 = x: int | 0 <= x < TWO_64

  /** The 64-bit hash of a value; nothing here depends on which one. */
  type Hash = string -> U64

  function BitLen(n: nat): nat {
    if n == 0 then 0 else 1 + BitLen(n / 2)
  }

  function LeadingZeros(n: nat): nat {
    if BitLen(n) > 64 then 0 else 64 - BitLen(n)
  }

  /** The top 12 bits choose the register. */
  function Index(x: U64): (i: nat)
    ensures i < REGISTERS
  {
    x / TWO_52
  }

  /** x << 12 | 1, in 64 bits, and the position of its first one bit. */
  function Rank(x: U64): (r: nat)
    ensures r > 0
  {
    LeadingZeros(x % TWO_52 * 4096 + 1) + 1
  }

  function Pow2(n: nat): (p: nat)
    ensures p > 0
  {
    if n == 0 then 1 else 2 * Pow2(n - 1)
  }

  /** A number of k bits lies between two powers. */
  lemma {:induction false} BitLenIs(n: nat)
    ensures n > 0 ==> BitLen(n) > 0 && Pow2(BitLen(n) - 1) <= n < Pow2(BitLen(n))
  {
    if n > 1 {
      BitLenIs(n / 2);
    }
  }

  /** One bit more. */
  lemma {:induction false} BitLenDouble(n: nat, m: nat)
    requires n > 0 && (m == 2 * n || m == 2 * n + 1)
    ensures BitLen(m) == BitLen(n) + 1
  {
    assert m / 2 == n;
  }

  lemma {:induction false} BitLenBy4(n: nat, m: nat)
    requires n > 0 && (m == 4 * n || m == 4 * n + 1)
    ensures BitLen(m) == BitLen(n) + 2
  {
    BitLenDouble(n, 2 * n);
    BitLenDouble(2 * n, m);
  }

  lemma {:induction false} BitLenBy16(n: nat, m: nat)
    requires n > 0 && (m == 16 * n || m == 16 * n + 1)
    ensures BitLen(m) == BitLen(n) + 4
  {
    BitLenBy4(n, 4 * n);
    BitLenBy4(4 * n, m);
  }

  /** Twelve bits more. */
  lemma {:induction false} BitLenShift(n: nat)
    requires n > 0
    ensures BitLen(n * 4096 + 1) == BitLen(n) + 12
  {
    BitLenBy16(n, 16 * n);
    BitLenBy16(16 * n, 256 * n);
    BitLenBy16(256 * n, n * 4096 + 1);
  }

  lemma {:induction false} Pow2Add(m: nat, n: nat)
    ensures Pow2(m + n) == Pow2(m) * Pow2(n)
  {
    if m > 0 {
      Pow2Add(m - 1, n);
      assert Pow2(m + n) == 2 * Pow2(m - 1 + n);
    }
  }

  lemma {:induction false} Pow2s()
    ensures Pow2(12) == 4096 && Pow2(52) == TWO_52
  {
    assert Pow2(4) == 16;
    Pow2Add(4, 4);
    Pow2Add(8, 4);
    Pow2Add(12, 12);
    Pow2Add(24, 24);
    Pow2Add(48, 4);
  }

  lemma {:induction false} BitLenMonotone(m: nat, n: nat)
    requires m <= n
    ensures BitLen(m) <= BitLen(n)
    decreases n
  {
    if m > 0 {
      BitLenMonotone(m / 2, n / 2);
    }
  }

  /** The register is the number in the top 12 bits; the rank counts the zeros that lead the other 52, and one more, and
      is 64 when they are all zero. */
  lemma {:induction false} IndexAndRank(x: U64)
    ensures Index(x) * TWO_52 <= x < (Index(x) + 1) * TWO_52
    ensures var low := x - Index(x) * TWO_52;
      if low == 0 then Rank(x) == 64 else 1 <= Rank(x) <= 52 && Pow2(52 - Rank(x)) <= low < Pow2(53 - Rank(x))
  {
    var low := x % TWO_52;
    assert x == x / TWO_52 * TWO_52 + low;
    if low > 0 {
      BitLenShift(low);
      BitLenIs(low);
      LowBits(low);
    } else {
      assert BitLen(1) == 1;
    }
  }

  lemma {:induction false} LowBits(low: nat)
    requires 0 < low < TWO_52
    ensures BitLen(low) <= 52
  {
    BitLenMonotone(low, TWO_52 - 1);
    AllOnes(52);
    Pow2s();
  }

  lemma {:induction false} AllOnes(k: nat)
    ensures BitLen(Pow2(k) - 1) == k
  {
    if k > 0 {
      AllOnes(k - 1);
      assert (Pow2(k) - 1) / 2 == Pow2(k - 1) - 1;
    }
  }

  type Regs = s: seq<nat> | |s| == REGISTERS witness seq(REGISTERS, i => 0)

  function Empty(): Regs {
    seq(REGISTERS, i => 0)
  }

  function Add(h: Hash, regs: Regs, v: string): Regs {
    var i, rank := Index(h(v)), Rank(h(v));
    if rank > regs[i] then regs[i := rank] else regs
  }

  function Merge(a: Regs, b: Regs): (r: Regs)
    ensures forall i :: 0 <= i < REGISTERS ==> r[i] == if b[i] > a[i] then b[i] else a[i]
  {
    seq(REGISTERS, i requires 0 <= i < REGISTERS => if b[i] > a[i] then b[i] else a[i])
  }

  /** Each register is the greatest rank among the values that map to it. */
  ghost predicate IsSketch(h: Hash, regs: Regs, values: set<string>) {
    && (forall v :: v in values ==> Rank(h(v)) <= regs[Index(h(v))])
    && (forall i :: 0 <= i < REGISTERS ==> regs[i] == 0 || Attained(h, regs[i], i, values))
  }

  ghost predicate Attained(h: Hash, rank: nat, i: nat, values: set<string>) {
    exists v :: v in values && Index(h(v)) == i && Rank(h(v)) == rank
  }

  lemma {:induction false} EmptySketch(h: Hash)
    ensures IsSketch(h, Empty(), {})
  {
  }

  lemma {:induction false} AddSketch(h: Hash, regs: Regs, values: set<string>, v: string)
    requires IsSketch(h, regs, values)
    ensures IsSketch(h, Add(h, regs, v), values + {v})
  {
  }

  lemma {:induction false} MergeSketch(h: Hash, a: Regs, b: Regs, va: set<string>, vb: set<string>)
    requires IsSketch(h, a, va) && IsSketch(h, b, vb)
    ensures IsSketch(h, Merge(a, b), va + vb)
  {
  }

  /** A sketch is determined by the set of values, so order and repetition do not matter. */
  lemma {:induction false} SketchUnique(h: Hash, a: Regs, b: Regs, values: set<string>)
    requires IsSketch(h, a, values) && IsSketch(h, b, values)
    ensures a == b
  {
  }

  /** The registers form a join semilattice: Merge commutes, associates and absorbs itself. */
  lemma {:induction false} MergeSemilattice(a: Regs, b: Regs, c: Regs)
    ensures Merge(a, b) == Merge(b, a)
    ensures Merge(Merge(a, b), c) == Merge(a, Merge(b, c))
    ensures Merge(a, a) == a
  {
  }

  // ---- In place ----

  class HLL {
    var regs: array<nat>

    ghost predicate Valid()
      reads this, regs
    {
      regs.Length == REGISTERS
    }

    constructor ()
      ensures Valid() && fresh(regs) && regs[..] == Empty()
    {
      regs := new nat[REGISTERS](i => 0);
      new;
      assert regs[..] == Empty();
    }

    method AddValue(h: Hash, v: string)
      requires Valid()
      modifies regs
      ensures Valid() && regs[..] == Add(h, old(regs[..]), v)
    {
      var x := h(v);
      var idx, rank := Index(x), Rank(x);
      if rank > regs[idx] {
        regs[idx] := rank;
      }
    }

    method MergeFrom(o: seq<nat>)
      requires Valid() && |o| == REGISTERS
      modifies regs
      ensures Valid() && regs[..] == Merge(old(regs[..]), o)
    {
      var i := 0;
      while i < REGISTERS
        invariant 0 <= i <= REGISTERS
        invariant forall k :: 0 <= k < i ==> regs[k] == Merge(old(regs[..]), o)[k]
        invariant forall k :: i <= k < REGISTERS ==> regs[k] == old(regs[k])
      {
        if o[i] > regs[i] {
          regs[i] := o[i];
        }
        i := i + 1;
      }
    }
  }
}
