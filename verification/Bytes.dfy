/** Bytes and the fixed-width little-endian integers of the on-disk formats. */
module Bytes {

  type Byte = b: int | 0 <= b < 256

  const TWO_32: int := 0x1_0000_0000
  const TWO_63: int := 0x8000_0000_0000_0000
  const TWO_64: int := 0x1_0000_0000_0000_0000

  type U32 = x: int | 0 <= x < TWO_32
  type Int64 = x: int | -TWO_63 <= x < TWO_63

  /** 256 to the power `width`. */
  function Pow256(width: nat): (p: nat)
    ensures p > 0
  {
    if width == 0 then 1 else 256 * Pow256(width - 1)
  }

  /** The i-th byte of n, least significant first. */
  function Digit(n: nat, i: nat): Byte {
    if i == 0 then n % 256 else Digit(n / 256, i - 1)
  }

  /** The low `width` bytes of n; higher bytes are cut off. */
  function PutLE(n: nat, width: nat): (s: seq<Byte>)
    ensures |s| == width
  {
    seq(width, i requires 0 <= i < width => Digit(n, i))
  }

  function GetLE(s: seq<Byte>): (n: nat)
  {
    if s == [] then 0 else s[0] + 256 * GetLE(s[1..])
  }

  /** Reading back what was put yields the number, when it fits the field. */
  lemma {:induction false} GetPut(n: nat, width: nat)
    requires n < Pow256(width)
    ensures GetLE(PutLE(n, width)) == n
  {
    if width > 0 {
      GetPut(n / 256, width - 1);
      assert PutLE(n, width)[1..] == PutLE(n / 256, width - 1);
    }
  }

  /** Putting back what was read yields the bytes. */
  lemma {:induction false} PutGet(s: seq<Byte>)
    ensures PutLE(GetLE(s), |s|) == s
  {
    if s != [] {
      var n := GetLE(s);
      PutGet(s[1..]);
      assert n / 256 == GetLE(s[1..]) && n % 256 == s[0];
      forall i | 0 <= i < |s|
        ensures Digit(n, i) == s[i]
      {
        if i > 0 {
          assert PutLE(GetLE(s[1..]), |s| - 1)[i - 1] == s[1..][i - 1];
        }
      }
    }
  }

  /** A field never reads as a number outside its range. */
  lemma {:induction false} GetLEBound(s: seq<Byte>)
    ensures GetLE(s) < Pow256(|s|)
  {
    if s != [] {
      GetLEBound(s[1..]);
    }
  }

  lemma {:induction false} FieldRanges()
    ensures Pow256(4) == TWO_32
    ensures Pow256(8) == TWO_64
  {
  }

  /** A 32-bit field holds n exactly when n is below 2^32. */
  lemma {:induction false} GetPut32(n: nat)
    ensures GetLE(PutLE(n, 4)) == n <==> n < TWO_32
  {
    FieldRanges();
    GetLEBound(PutLE(n, 4));
    if n < TWO_32 {
      GetPut(n, 4);
    }
  }

  lemma {:induction false} GetPut64(n: nat)
    requires n < TWO_64
    ensures GetLE(PutLE(n, 8)) == n
  {
    FieldRanges();
    GetPut(n, 8);
  }

  /** Two's complement: the conversions uint64(ts) and int64(u). */
  function ToU64(x: Int64): (u: nat)
    ensures u < TWO_64
  {
    if x < 0 then x + TWO_64 else x
  }

  function FromU64(u: nat): (x: Int64)
    requires u < TWO_64
  {
    if u >= TWO_63 then u - TWO_64 else u
  }

  lemma {:induction false} Int64Field(x: Int64)
    ensures GetLE(PutLE(ToU64(x), 8)) == ToU64(x)
    ensures FromU64(ToU64(x)) == x
  {
    GetPut64(ToU64(x));
  }
}
