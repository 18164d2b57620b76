/** Bitwise operators on natural numbers and the little-endian layout of machine words. */
module Bits {

  const TWO_63: int := 0x8000_0000_0000_0000
  const TWO_64: int := 0x1_0000_0000_0000_0000

  type u8 = x: int | 0 <= x < 0x100
  type u16 = x: int | 0 <= x < 0x1_0000
  type u64 = x: int | 0 <= x < TWO_64
  type i64 = x: int | -TWO_63 <= x < TWO_63

  /** The two's-complement pattern of a signed word, and the word of a pattern. */
  function Pattern(x: i64): u64 {
    if x < 0 then x + TWO_64 else x
  }

  function Signed(w: u64): i64 {
    if w < TWO_63 then w else w - TWO_64
  }

  /** `x & y`, bit by bit. */
  function And(x: nat, y: nat): (r: nat)
    ensures r <= x && r <= y
  {
    if x == 0 || y == 0 then 0
    else 2 * And(x / 2, y / 2) + (x % 2) * (y % 2)
  }

  /** `x | y`, bit by bit. */
  function Or(x: nat, y: nat): (r: nat)
    ensures x <= r && y <= r && r <= x + y
    decreases x + y
  {
    if x == 0 then y
    else if y == 0 then x
    else 2 * Or(x / 2, y / 2) + (if x % 2 == 0 && y % 2 == 0 then 0 else 1)
  }

  function Pow2(k: nat): (p: nat)
    ensures p > 0
  {
    if k == 0 then 1 else 2 * Pow2(k - 1)
  }

  lemma Pow2Sum(a: nat, b: nat)
    ensures Pow2(a + b) == Pow2(a) * Pow2(b)
  {
    if a != 0 {
      Pow2Sum(a - 1, b);
      assert 2 * (Pow2(a - 1) * Pow2(b)) == (2 * Pow2(a - 1)) * Pow2(b);
    }
  }

  lemma Pow2At7And63()
    ensures Pow2(7) == 0x80 && Pow2(8) == 0x100
    ensures Pow2(63) == TWO_63
  {
    Pow2At16();
    hide Pow2;
    Pow2Sum(16, 15);
    Pow2Sum(16, 16);
    Pow2Sum(32, 31);
  }

  lemma Pow2At16()
    ensures Pow2(7) == 0x80 && Pow2(8) == 0x100 && Pow2(15) == 0x8000 && Pow2(16) == 0x1_0000
  {
    hide Pow2;
    Pow2At8();
    Pow2Sum(8, 7);
    Pow2Sum(8, 8);
  }

  lemma Pow2At8()
    ensures Pow2(7) == 0x80 && Pow2(8) == 0x100
  {
    assert Pow2(3) == 8 && Pow2(5) == 32;
  }

  lemma QuotientUnique(x: nat, d: nat, q: nat, r: nat)
    requires x == d * q + r && r < d
    ensures x / d == q && x % d == r
  {
    var q', r' := x / d, x % d;
    assert d * (q - q') == r' - r;
    assert q - q' >= 1 ==> d * (q - q') >= d;
    assert q' - q >= 1 ==> d * (q' - q) >= d;
  }

  lemma QuotientStep(n: nat, d: nat)
    requires d > 0
    ensures (n + d) / d == n / d + 1
  {
    assert n == d * (n / d) + n % d;
    assert d * (n / d + 1) == d * (n / d) + d;
    QuotientUnique(n + d, d, n / d + 1, n % d);
  }

  lemma HalveThenDivide(x: nat, p: nat)
    requires p > 0
    ensures x / (2 * p) == (x / 2) / p
    ensures x % (2 * p) == 2 * ((x / 2) % p) + x % 2
  {
    var h := x / 2;
    var q, r := h / p, h % p;
    assert h == p * q + r;
    assert x == 2 * h + x % 2 == (2 * p) * q + (2 * r + x % 2);
    QuotientUnique(x, 2 * p, q, 2 * r + x % 2);
  }

  lemma AndOdd(x: nat, y: nat)
    ensures And(x, 2 * y + 1) == 2 * And(x / 2, y) + x % 2
  {
    assert (2 * y + 1) / 2 == y && (2 * y + 1) % 2 == 1;
  }

  lemma AndEven(x: nat, y: nat)
    ensures And(x, 2 * y) == 2 * And(x / 2, y)
  {
    assert (2 * y) / 2 == y && (2 * y) % 2 == 0;
  }

  lemma OrStep(x: nat, y: nat)
    ensures Or(x, 2 * y) == 2 * Or(x / 2, y) + x % 2
  {
    assert (2 * y) / 2 == y && (2 * y) % 2 == 0;
  }

  /** The number made of the low `k` bits, and bit `k`, taken one bit at a time. */
  function LowBits(x: nat, k: nat): nat {
    if k == 0 then 0 else 2 * LowBits(x / 2, k - 1) + x % 2
  }

  function BitAt(x: nat, k: nat): nat {
    if k == 0 then x % 2 else BitAt(x / 2, k - 1)
  }

  lemma {:induction false} LowBitsAreRemainder(x: nat, k: nat)
    ensures LowBits(x, k) == x % Pow2(k)
  {
    if k != 0 {
      LowBitsAreRemainder(x / 2, k - 1);
      HalveThenDivide(x, Pow2(k - 1));
    }
  }

  lemma {:induction false} BitOfQuotient(x: nat, k: nat)
    ensures BitAt(x, k) == (x / Pow2(k)) % 2
  {
    if k != 0 {
      BitOfQuotient(x / 2, k - 1);
      HalveThenDivide(x, Pow2(k - 1));
    }
  }

  lemma NoBits(x: nat)
    ensures Pow2(0) == 1 && And(x, 0) == 0 == LowBits(x, 0)
    ensures BitAt(x, 0) == x % 2 == And(x, 1) && Or(x, 1) == if x % 2 == 1 then x else x + 1
  {
    assert And(x / 2, 0) == 0 && Or(x / 2, 0) == x / 2;
  }

  lemma NextBit(x: nat, k: nat)
    requires k > 0
    ensures LowBits(x, k) == 2 * LowBits(x / 2, k - 1) + x % 2
    ensures BitAt(x, k) == BitAt(x / 2, k - 1) && Pow2(k) == 2 * Pow2(k - 1)
  {
  }

  lemma {:induction false} MaskTakesLowBits(x: nat, k: nat)
    ensures And(x, Pow2(k) - 1) == LowBits(x, k)
  {
    hide And, Pow2, LowBits;
    if k == 0 {
      NoBits(x);
    } else {
      var mask := Pow2(k - 1) - 1;
      NextBit(x, k);
      MaskTakesLowBits(x / 2, k - 1);
      AndOdd(x, mask);
      assert Pow2(k) - 1 == 2 * mask + 1;
    }
  }

  /** A mask of the low `k` bits keeps the remainder modulo `2^k`. */
  lemma AndLowMask(x: nat, k: nat)
    ensures And(x, Pow2(k) - 1) == x % Pow2(k)
  {
    hide And, Pow2, LowBits;
    MaskTakesLowBits(x, k);
    LowBitsAreRemainder(x, k);
  }

  lemma {:induction false} AndTakesBit(x: nat, k: nat)
    ensures And(x, Pow2(k)) == if BitAt(x, k) == 1 then Pow2(k) else 0
  {
    hide And, Pow2, BitAt;
    if k == 0 {
      NoBits(x);
    } else {
      NextBit(x, k);
      AndTakesBit(x / 2, k - 1);
      AndEven(x, Pow2(k - 1));
    }
  }

  /** Masking one bit keeps that bit. */
  lemma AndOneBit(x: nat, k: nat)
    ensures And(x, Pow2(k)) == (if (x / Pow2(k)) % 2 == 1 then Pow2(k) else 0)
  {
    hide And, Pow2, BitAt;
    AndTakesBit(x, k);
    BitOfQuotient(x, k);
  }

  lemma {:induction false} OrSetsBit(x: nat, k: nat)
    ensures Or(x, Pow2(k)) == if BitAt(x, k) == 1 then x else x + Pow2(k)
  {
    hide Or, Pow2, BitAt;
    if k == 0 {
      NoBits(x);
    } else {
      NextBit(x, k);
      OrSetsBit(x / 2, k - 1);
      OrStep(x, Pow2(k - 1));
      assert x == 2 * (x / 2) + x % 2;
    }
  }

  /** Setting one bit adds its weight exactly when it was clear. */
  lemma OrOneBit(x: nat, k: nat)
    ensures Or(x, Pow2(k)) == (if (x / Pow2(k)) % 2 == 1 then x else x + Pow2(k))
  {
    hide Or, Pow2, BitAt;
    OrSetsBit(x, k);
    BitOfQuotient(x, k);
  }

  // ----- Little-endian words -----

  function Pow256(k: nat): (p: nat)
    ensures p > 0
  {
    if k == 0 then 1 else 256 * Pow256(k - 1)
  }

  function ToLittleEndian(n: nat, k: nat): (bytes: seq<u8>)
    ensures |bytes| == k
  {
    if k == 0 then [] else [n % 256] + ToLittleEndian(n / 256, k - 1)
  }

  function FromLittleEndian(bytes: seq<u8>): (n: nat)
    ensures n < Pow256(|bytes|)
  {
    if bytes == [] then 0 else bytes[0] + 256 * FromLittleEndian(bytes[1..])
  }

  lemma {:induction false} FromToLittleEndian(n: nat, k: nat)
    requires n < Pow256(k)
    ensures FromLittleEndian(ToLittleEndian(n, k)) == n
  {
    if k != 0 {
      FromToLittleEndian(n / 256, k - 1);
      assert ToLittleEndian(n, k)[1..] == ToLittleEndian(n / 256, k - 1);
    }
  }

  lemma {:induction false} ToFromLittleEndian(bytes: seq<u8>)
    ensures ToLittleEndian(FromLittleEndian(bytes), |bytes|) == bytes
  {
    if bytes != [] {
      ToFromLittleEndian(bytes[1..]);
      var n, rest := FromLittleEndian(bytes), FromLittleEndian(bytes[1..]);
      assert n == bytes[0] + 256 * rest;
      QuotientUnique(n, 256, rest, bytes[0]);
      assert bytes == [bytes[0]] + bytes[1..];
    }
  }

  lemma Pow256At8()
    ensures Pow256(8) == TWO_64
  {
  }

  function U64Bytes(w: u64): (bytes: seq<u8>)
    ensures |bytes| == 8
  {
    var width := 8;
    ToLittleEndian(w, width)
  }

  function U64Of(bytes: seq<u8>): (w: u64)
    requires |bytes| == 8
  {
    Pow256At8();
    FromLittleEndian(bytes)
  }

  function I64Bytes(x: i64): (bytes: seq<u8>)
    ensures |bytes| == 8
  {
    U64Bytes(Pattern(x))
  }

  function I64Of(bytes: seq<u8>): i64
    requires |bytes| == 8
  {
    Signed(U64Of(bytes))
  }

  lemma WordRoundTrip(w: u64, x: i64, bytes: seq<u8>)
    requires |bytes| == 8
    ensures U64Of(U64Bytes(w)) == w && I64Of(I64Bytes(x)) == x
    ensures U64Bytes(U64Of(bytes)) == bytes && I64Bytes(I64Of(bytes)) == bytes
  {
    Pow256At8();
    FromToLittleEndian(w, 8);
    FromToLittleEndian(Pattern(x), 8);
    ToFromLittleEndian(bytes);
  }

  /** The least significant byte comes first. */
  lemma LittleEndianLayout(w: u64)
    ensures var b: seq<nat> := U64Bytes(w);
            w == b[0] + 0x100 * b[1] + 0x1_0000 * b[2] + 0x100_0000 * b[3] + 0x1_0000_0000 * b[4]
                 + 0x100_0000_0000 * b[5] + 0x1_0000_0000_0000 * b[6] + 0x100_0000_0000_0000 * b[7]
  {
    var b := U64Bytes(w);
    WordRoundTrip(w, 0, b);
    hide U64Bytes;
    ReadFour(b);
    ReadFour(b[4..]);
    assert FromLittleEndian(b[4..][4..]) == 0;
  }

  lemma ReadFour(b: seq<u8>)
    requires |b| >= 4
    ensures FromLittleEndian(b) == b[0] + 0x100 * b[1] + 0x1_0000 * b[2] + 0x100_0000 * b[3]
                                   + 0x1_0000_0000 * FromLittleEndian(b[4..])
  {
    assert b[1..][1..] == b[2..] && b[2..][1..] == b[3..] && b[3..][1..] == b[4..];
  }

  /** Negative words are written as their two's complement. */
  lemma SignedLayout(x: i64)
    ensures I64Bytes(x) == U64Bytes(if x < 0 then x + 0x1_0000_0000_0000_0000 else x)
  {
  }
}
