/** Bits of bytes and of byte strings, low bit first: the order in which a disk passes under the
    drive's head. */
module Bits {

  newtype Byte = x: int | 0 <= x < 256

  function Pow2(k: nat): nat { if k == 0 then 1 else 2 * Pow2(k - 1) }

  /** The `k` low bits of a number, lowest first. */
  function BitsOfNum(n: nat, k: nat): (r: seq<bool>)
    ensures |r| == k
    decreases n, k
  {
    if k == 0 then [] else [n % 2 == 1] + BitsOfNum(n / 2, k - 1)
  }

  /** The number with the given bits. */
  function NumOf(bits: seq<bool>): (n: nat)
    ensures n < Pow2(|bits|)
  {
    if bits == [] then 0 else (if bits[0] then 1 else 0) + 2 * NumOf(bits[1..])
  }

  lemma {:induction false} BitsOfNumOf(bits: seq<bool>)
    ensures BitsOfNum(NumOf(bits), |bits|) == bits
  {
    if bits != [] {
      BitsOfNumOf(bits[1..]);
    }
  }

  lemma {:induction false} NumOfBits(n: nat, k: nat)
    requires n < Pow2(k)
    ensures NumOf(BitsOfNum(n, k)) == n
    decreases k
  {
    if k > 0 {
      NumOfBits(n / 2, k - 1);
    }
  }

  /** The bits of a byte, low bit first. */
  function BitsOf(b: Byte): (r: seq<bool>)
    ensures |r| == 8
  {
    BitsOfNum(b as int, 8)
  }

  predicate BitAt(b: Byte, k: nat)
    requires k < 8
  {
    BitsOf(b)[k]
  }

  /** The byte with the given eight bits. */
  function ByteOf(bits: seq<bool>): (b: Byte)
    requires |bits| == 8
    ensures BitsOf(b) == bits
  {
    BitsOfNumOf(bits);
    NumOf(bits) as Byte
  }

  /** A byte is its eight bits. */
  lemma ByteOfUnique(b: Byte, bits: seq<bool>)
    requires |bits| == 8
    ensures b == ByteOf(bits) <==> BitsOf(b) == bits
  {
    NumOfBits(b as int, 8);
    NumOfBits(ByteOf(bits) as int, 8);
  }

  lemma SameByte(a: Byte, b: Byte)
    requires forall k: nat | k < 8 :: BitAt(a, k) == BitAt(b, k)
    ensures a == b
  {
    assert forall k: nat | k < 8 :: BitsOf(a)[k] == BitAt(a, k) && BitsOf(b)[k] == BitAt(b, k);
    assert BitsOf(a) == BitsOf(b);
    NumOfBits(a as int, 8);
    NumOfBits(b as int, 8);
  }

  /** `b` with bit `k` set to `v`. */
  function WithBit(b: Byte, k: nat, v: bool): (r: Byte)
    requires k < 8
    ensures forall j: nat | j < 8 :: BitAt(r, j) == if j == k then v else BitAt(b, j)
  {
    ByteOf(BitsOf(b)[k := v])
  }

  /** Bit `p` of a byte string. */
  predicate TapeBit(s: seq<Byte>, p: nat)
    requires p < 8 * |s|
  {
    BitAt(s[p / 8], p % 8)
  }

  /** Bits `p .. p + n` of a byte string. */
  function TapeBits(s: seq<Byte>, p: nat, n: nat): (r: seq<bool>)
    requires p + n <= 8 * |s|
    ensures |r| == n
    ensures forall i: nat | i < n :: r[i] == TapeBit(s, p + i)
  {
    seq(n, i requires 0 <= i < n => TapeBit(s, p + i))
  }

  /** The bits of a whole byte string. */
  function AllBits(s: seq<Byte>): (r: seq<bool>)
    ensures |r| == 8 * |s|
  {
    if s == [] then [] else BitsOf(s[0]) + AllBits(s[1..])
  }

  lemma {:induction false} AllBitsAt(s: seq<Byte>, p: nat)
    requires p < 8 * |s|
    ensures AllBits(s)[p] == TapeBit(s, p)
  {
    if p >= 8 {
      AllBitsAt(s[1..], p - 8);
      assert s[1..][(p - 8) / 8] == s[p / 8];
    }
  }

  lemma {:induction false} AllBitsConcat(s: seq<Byte>, t: seq<Byte>)
    ensures AllBits(s + t) == AllBits(s) + AllBits(t)
  {
    if s == [] {
      assert s + t == t;
    } else {
      assert (s + t)[1..] == s[1..] + t;
      AllBitsConcat(s[1..], t);
    }
  }
}
