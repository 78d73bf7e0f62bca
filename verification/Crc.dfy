/** The drive's 16-bit cyclic redundancy check: the generator of section 2.2.7 of ITU-T X.25 in
    reflected form, with a zero preset and no final complement. The register is kept as its sixteen
    bits, low bit first. */
module Crc {
  import opened Bits

  type Word = w: seq<bool> | |w| == 16 witness
    [false, false, false, false, false, false, false, false,
     false, false, false, false, false, false, false, false]

  const ZERO: Word :=
    [false, false, false, false, false, false, false, false,
     false, false, false, false, false, false, false, false]

  /** One bit into the register. 0x8408 has bits 3, 10 and 15 set. */
  function Ccitt(crc: Word, bit: bool): Word {
    var feedback := crc[0] != bit;
    seq(16, i requires 0 <= i < 16 => (i < 15 && crc[i + 1]) != (feedback && (i == 3 || i == 10 || i == 15)))
  }

  /** A whole bit string into the register, first bit first. */
  function Feed(crc: Word, bits: seq<bool>): Word
    decreases |bits|
  {
    if bits == [] then crc else Feed(Ccitt(crc, bits[0]), bits[1..])
  }

  /** A byte string into the register, low bits first. */
  function FeedBytes(crc: Word, bytes: seq<Byte>): Word
    decreases |bytes|
  {
    if bytes == [] then crc else FeedBytes(Feed(crc, BitsOf(bytes[0])), bytes[1..])
  }

  function Low(crc: Word): Byte { ByteOf(crc[..8]) }

  function High(crc: Word): Byte { ByteOf(crc[8..]) }

  /** `crc >> 8` */
  function Shift8(crc: Word): Word { crc[8..] + ZERO[..8] }

  /** Eight bits into the register, low bit first. */
  method Ccitt8(crc: Word, b: Byte) returns (r: Word)
    ensures r == Feed(crc, BitsOf(b))
  {
    r := crc;
    for i := 0 to 8
      invariant r == Feed(crc, BitsOf(b)[..i])
    {
      r := Ccitt(r, BitAt(b, i));
      FeedAppend(crc, BitsOf(b)[..i], [BitAt(b, i)]);
      assert BitsOf(b)[..i] + [BitAt(b, i)] == BitsOf(b)[..i + 1];
    }
    assert BitsOf(b)[..8] == BitsOf(b);
  }

  lemma {:induction false} FeedAppend(crc: Word, u: seq<bool>, v: seq<bool>)
    ensures Feed(crc, u + v) == Feed(Feed(crc, u), v)
    decreases |u|
  {
    if u == [] {
      assert u + v == v;
    } else {
      assert (u + v)[1..] == u[1..] + v;
      FeedAppend(Ccitt(crc, u[0]), u[1..], v);
    }
  }

  lemma {:induction false} FeedBytesIsFeed(crc: Word, bytes: seq<Byte>)
    ensures FeedBytes(crc, bytes) == Feed(crc, AllBits(bytes))
    decreases |bytes|
  {
    if bytes != [] {
      FeedAppend(crc, BitsOf(bytes[0]), AllBits(bytes[1..]));
      FeedBytesIsFeed(Feed(crc, BitsOf(bytes[0])), bytes[1..]);
    }
  }

  lemma FeedBytesAppend(crc: Word, s: seq<Byte>, t: seq<Byte>)
    ensures FeedBytes(crc, s + t) == FeedBytes(FeedBytes(crc, s), t)
  {
    FeedBytesIsFeed(crc, s + t);
    FeedBytesIsFeed(crc, s);
    FeedBytesIsFeed(FeedBytes(crc, s), t);
    AllBitsConcat(s, t);
    FeedAppend(crc, AllBits(s), AllBits(t));
  }

  lemma FeedBytesSnoc(crc: Word, s: seq<Byte>, b: Byte)
    ensures FeedBytes(crc, s + [b]) == Feed(FeedBytes(crc, s), BitsOf(b))
  {
    FeedBytesAppend(crc, s, [b]);
    FeedBytesSingle(FeedBytes(crc, s), b);
  }

  lemma FeedBytesSingle(crc: Word, b: Byte)
    ensures FeedBytes(crc, [b]) == Feed(crc, BitsOf(b))
  {
  }

  // ---- what a zero register means ----

  /** The register holds exactly the bits `w` in its low end. */
  ghost predicate Holds(crc: Word, w: seq<bool>)
    requires |w| <= 16
  {
    forall i: nat | i < 16 :: crc[i] == (i < |w| && w[i])
  }

  /** Up to 16 bits bring the register to zero exactly when they are all the register holds. In
      particular a register fed its own 16 bits becomes zero. */
  lemma {:induction false} ZeroIffHeld(crc: Word, w: seq<bool>)
    requires |w| <= 16
    ensures Feed(crc, w) == ZERO <==> Holds(crc, w)
    decreases |w|
  {
    if w != [] {
      var next := Ccitt(crc, w[0]);
      ZeroIffHeld(next, w[1..]);
      if Holds(next, w[1..]) {
        assert !next[15];
        forall i: nat | i < 16 ensures crc[i] == (i < |w| && w[i]) {
          if i > 0 { assert next[i - 1] == (i - 1 < |w[1..]| && w[1..][i - 1]); }
        }
      }
    }
  }

  /** A block passes the check exactly when its two last bytes are its CRC, low byte first. */
  lemma ZeroIffTrailer(crc: Word, lo: Byte, hi: Byte)
    ensures FeedBytes(crc, [lo, hi]) == ZERO <==> lo == Low(crc) && hi == High(crc)
  {
    FeedBytesIsFeed(crc, [lo, hi]);
    assert AllBits([hi]) == BitsOf(hi) + [];
    assert AllBits([lo, hi]) == BitsOf(lo) + BitsOf(hi) by {
      assert [lo, hi][1..] == [hi];
    }
    ZeroIffHeld(crc, BitsOf(lo) + BitsOf(hi));
    ByteOfUnique(lo, crc[..8]);
    ByteOfUnique(hi, crc[8..]);
    HoldsHalves(crc, BitsOf(lo), BitsOf(hi));
  }

  lemma HoldsHalves(crc: Word, u: seq<bool>, v: seq<bool>)
    requires |u| == |v| == 8
    ensures Holds(crc, u + v) <==> u == crc[..8] && v == crc[8..]
  {
    if Holds(crc, u + v) {
      assert forall i: nat | i < 16 :: crc[i] == (u + v)[i];
    }
  }

  // ---- what the check detects ----

  function Xor(u: seq<bool>, v: seq<bool>): (r: seq<bool>)
    requires |u| == |v|
    ensures |r| == |u|
    ensures forall i: nat | i < |u| :: r[i] == (u[i] != v[i])
  {
    seq(|u|, i requires 0 <= i < |u| => u[i] != v[i])
  }

  lemma {:induction false} FeedLinear(a: Word, b: Word, u: seq<bool>, v: seq<bool>)
    requires |u| == |v|
    ensures Feed(Xor(a, b), Xor(u, v)) == Xor(Feed(a, u), Feed(b, v))
    decreases |u|
  {
    if u != [] {
      assert Ccitt(Xor(a, b), u[0] != v[0]) == Xor(Ccitt(a, u[0]), Ccitt(b, v[0]));
      FeedLinear(Ccitt(a, u[0]), Ccitt(b, v[0]), u[1..], v[1..]);
      assert Xor(u, v)[1..] == Xor(u[1..], v[1..]);
    }
  }

  lemma {:induction false} FeedInjective(a: Word, b: Word, v: seq<bool>)
    requires Feed(a, v) == Feed(b, v)
    ensures a == b
    decreases |v|
  {
    if v != [] {
      var x, y := Ccitt(a, v[0]), Ccitt(b, v[0]);
      FeedInjective(x, y, v[1..]);
      assert x[15] == y[15];
      forall i: nat | i < 16 ensures a[i] == b[i] {
        if i > 0 { assert x[i - 1] == y[i - 1]; }
      }
    }
  }

  /** No error burst of at most 16 bits goes unnoticed: two bit strings that agree outside one such
      window and both pass the check are equal. */
  lemma BurstDetected(crc: Word, u: seq<bool>, w1: seq<bool>, w2: seq<bool>, v: seq<bool>)
    requires |w1| == |w2| <= 16
    requires Feed(crc, u + w1 + v) == ZERO && Feed(crc, u + w2 + v) == ZERO
    ensures w1 == w2
  {
    var c := Feed(crc, u);
    FeedAppend(crc, u + w1, v);
    FeedAppend(crc, u, w1);
    FeedAppend(crc, u + w2, v);
    FeedAppend(crc, u, w2);
    FeedInjective(Feed(c, w1), Feed(c, w2), v);
    FeedLinear(c, c, w1, w2);
    assert Xor(c, c) == ZERO;
    assert Xor(Feed(c, w1), Feed(c, w2)) == ZERO;
    ZeroIffHeld(ZERO, Xor(w1, w2));
    forall i: nat | i < |w1| ensures w1[i] == w2[i] {
      assert ZERO[i] == Xor(w1, w2)[i];
    }
  }

  // ---- the register is a remainder ----

  /** The generator of section 2.2.7 of ITU-T X.25: x^16 + x^12 + x^5 + 1, highest power first. */
  const GENERATOR: seq<bool> :=
    [true, false, false, false, true, false, false, false, false,
     false, false, true, false, false, false, false, true]

  function NoBits(n: nat): (r: seq<bool>)
    ensures |r| == n && forall i: nat | i < n :: !r[i]
  {
    seq(n, i => false)
  }

  /** Long division of a polynomial over two elements by the generator: what is left. */
  function Remainder(bits: seq<bool>): (r: seq<bool>)
    requires |bits| >= 16
    ensures |r| == 16
    decreases |bits|
  {
    if |bits| == 16 then bits
    else if bits[0] then Remainder(Xor(bits, GENERATOR + NoBits(|bits| - 17))[1..])
    else Remainder(bits[1..])
  }

  lemma {:induction false} FeedNothing(n: nat)
    ensures Feed(ZERO, NoBits(n)) == ZERO
    decreases n
  {
    if n > 0 {
      assert Ccitt(ZERO, false) == ZERO;
      assert NoBits(n)[1..] == NoBits(n - 1);
      FeedNothing(n - 1);
    }
  }

  /** The generator itself passes the check. */
  lemma FeedGenerator(n: nat)
    ensures Feed(ZERO, GENERATOR + NoBits(n)) == ZERO
  {
    var crc := Ccitt(ZERO, true);
    assert forall i: nat | i < 16 :: GENERATOR[1..][i] == crc[i];
    ZeroIffHeld(crc, GENERATOR[1..]);
    FeedAppend(ZERO, GENERATOR, NoBits(n));
    FeedNothing(n);
  }

  /** A step of the division does not change the register. */
  lemma {:induction false} FeedRemainder(bits: seq<bool>)
    requires |bits| >= 16
    ensures Feed(ZERO, bits) == Feed(ZERO, Remainder(bits))
    decreases |bits|
  {
    if |bits| > 16 {
      assert Ccitt(ZERO, false) == ZERO;
      if bits[0] {
        var multiple := GENERATOR + NoBits(|bits| - 17);
        var rest := Xor(bits, multiple);
        FeedGenerator(|bits| - 17);
        FeedLinear(ZERO, ZERO, bits, multiple);
        assert Xor(ZERO, ZERO) == ZERO && Xor(Feed(ZERO, bits), ZERO) == Feed(ZERO, bits);
        assert !rest[0] && Feed(ZERO, rest) == Feed(ZERO, rest[1..]);
        FeedRemainder(rest[1..]);
      } else {
        FeedRemainder(bits[1..]);
      }
    }
  }

  /** The register is the remainder that a message, followed by sixteen zeroes, leaves; so a message passes the check
      just if it is a multiple of the generator. */
  lemma RegisterIsRemainder(message: seq<bool>)
    ensures Feed(ZERO, message) == Remainder(message + NoBits(16))
  {
    var padded := message + NoBits(16);
    var r := Remainder(padded);
    var shifted := NoBits(|message|) + r;
    FeedRemainder(padded);
    FeedNothing(|message|);
    FeedAppend(ZERO, NoBits(|message|), r);
    FeedLinear(ZERO, ZERO, padded, shifted);
    assert Xor(ZERO, ZERO) == ZERO;
    assert Xor(padded, shifted) == message + r;
    assert Xor(Feed(ZERO, r), Feed(ZERO, r)) == ZERO;
    FeedAppend(ZERO, message, r);
    ZeroIffHeld(Feed(ZERO, message), r);
    assert forall i: nat | i < 16 :: Feed(ZERO, message)[i] == r[i];
  }

  lemma PassesIffMultiple(message: seq<bool>)
    requires |message| >= 16
    ensures Feed(ZERO, message) == ZERO <==> Remainder(message) == ZERO
  {
    hide Feed, Remainder;
    FeedRemainder(message);
    ZeroIffHeld(ZERO, Remainder(message));
    HoldsAll(ZERO, Remainder(message));
  }

  lemma HoldsAll(crc: Word, w: Word)
    ensures Holds(crc, w) <==> crc == w
  {
    if Holds(crc, w) { assert forall i: nat | i < 16 :: crc[i] == w[i]; }
  }
}
