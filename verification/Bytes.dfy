/** Bytes, bitwise exclusive or, and masking with a repeated four-byte key. */
module Bytes {
  import opened Seqs

  type byte = x: int | 0 <= x < 256

  function Pow2(k: nat): nat {
    if k == 0 then 1 else 2 * Pow2(k - 1)
  }

  /** Exclusive or of the low k bits. */
  function XorBits(a: nat, b: nat, k: nat): (r: nat)
    ensures r < Pow2(k)
  {
    if k == 0 then 0 else (a + b) % 2 + 2 * XorBits(a / 2, b / 2, k - 1)
  }

  lemma {:induction false} BitAndRest(bit: nat, rest: nat)
    requires bit < 2
    ensures (bit + 2 * rest) / 2 == rest && (bit + 2 * rest) % 2 == bit
  {
  }

  lemma {:induction false} FlipBack(a: nat, b: nat, r: nat)
    requires r % 2 == (a + b) % 2
    ensures (r + b) % 2 == a % 2
  {
  }

  lemma {:induction false} XorBitsTwice(a: nat, b: nat, k: nat)
    requires a < Pow2(k)
    ensures XorBits(XorBits(a, b, k), b, k) == a
  {
    if k > 0 {
      var r := XorBits(a, b, k);
      BitAndRest((a + b) % 2, XorBits(a / 2, b / 2, k - 1));
      FlipBack(a, b, r);
      XorBitsTwice(a / 2, b / 2, k - 1);
      assert r / 2 == XorBits(a / 2, b / 2, k - 1);
      assert XorBits(r, b, k) == (r + b) % 2 + 2 * XorBits(r / 2, b / 2, k - 1);
    }
  }

  lemma {:induction false} EightBits()
    ensures Pow2(8) == 256
  {
    assert Pow2(4) == 16;
    assert Pow2(6) == 64;
  }

  function Xor(a: byte, b: byte): byte {
    EightBits();
    XorBits(a, b, 8)
  }

  lemma {:induction false} XorTwice(a: byte, b: byte)
    ensures Xor(Xor(a, b), b) == a
  {
    EightBits();
    XorBitsTwice(a, b, 8);
  }

  /** Byte i of the payload combined with byte i mod 4 of the key. */
  function Masked(payload: seq<byte>, key: seq<byte>): seq<byte>
    requires |key| == 4
  {
    if payload == [] then []
    else Masked(Front(payload), key) + [Xor(Last(payload), key[(|payload| - 1) % 4])]
  }

  lemma {:induction false} MaskedLength(payload: seq<byte>, key: seq<byte>)
    requires |key| == 4
    ensures |Masked(payload, key)| == |payload|
  {
    if payload != [] { MaskedLength(Front(payload), key); }
  }

  /** Masking twice with the same key gives the payload back. */
  lemma {:induction false} MaskedTwice(payload: seq<byte>, key: seq<byte>)
    requires |key| == 4
    ensures Masked(Masked(payload, key), key) == payload
  {
    if payload != [] {
      var p := Front(payload);
      var x := Xor(Last(payload), key[(|payload| - 1) % 4]);
      MaskedTwice(p, key);
      MaskedLength(p, key);
      FrontLastSnoc(Masked(p, key), x);
      XorTwice(Last(payload), key[(|payload| - 1) % 4]);
      FrontLast(payload);
    }
  }

  // ---- Bit by bit --------------------------------------------------------------------

  /** The bit of weight p of u is the sum of those of a and b. */
  predicate AddsBit(u: nat, a: nat, b: nat, p: nat) {
    p > 0 && (u / p) % 2 == (a / p + b / p) % 2
  }

  predicate AddsBits(u: byte, a: byte, b: byte) {
    forall p :: p in [1, 2, 4, 8, 16, 32, 64, 128] ==> AddsBit(u, a, b, p)
  }

  /** Byte i of u has the bits of byte i of the payload and byte i mod 4 of the key added
      (section 5.3 of RFC 6455). */
  predicate MaskedBy(u: seq<byte>, payload: seq<byte>, key: seq<byte>) {
    && |key| == 4 && |u| == |payload|
    && forall i :: 0 <= i < |u| ==> AddsBits(u[i], payload[i], key[i % 4])
  }

  lemma {:induction false} HalfFirst(x: nat, p: nat)
    requires p > 0
    ensures x / (2 * p) == x / 2 / p
  {
    var q, r := x / 2 / p, x / 2 % p;
    assert x / 2 == q * p + r;
    Quotient(x, 2 * p, q, 2 * r + x % 2);
  }

  lemma {:induction false} Quotient(x: nat, d: nat, q: nat, r: nat)
    requires x == q * d + r && r < d
    ensures x / d == q
  {
    var z := x / d;
    if z < q {
      AtLeast(q, z + 1, d);
    } else if z > q {
      AtLeast(z, q + 1, d);
    }
  }

  lemma {:induction false} AtLeast(x: nat, y: nat, d: nat)
    requires x >= y
    ensures x * d >= y * d
  {
  }

  /** Bit j of the exclusive or. */
  lemma {:induction false} XorBit(a: nat, b: nat, k: nat, j: nat, p: nat)
    requires j < k && p == Pow2(j) > 0
    ensures AddsBit(XorBits(a, b, k), a, b, p)
    decreases j
  {
    var rest := XorBits(a / 2, b / 2, k - 1);
    BitAndRest((a + b) % 2, rest);
    if j > 0 {
      var half := Pow2(j - 1);
      XorBit(a / 2, b / 2, k - 1, j - 1, half);
      HalfFirst(XorBits(a, b, k), half);
      HalfFirst(a, half);
      HalfFirst(b, half);
    }
  }

  lemma {:induction false} Weights()
    ensures Pow2(0) == 1 && Pow2(1) == 2 && Pow2(2) == 4 && Pow2(3) == 8
    ensures Pow2(4) == 16 && Pow2(5) == 32 && Pow2(6) == 64 && Pow2(7) == 128 && Pow2(8) == 256
  {
    assert Pow2(3) == 8;
    assert Pow2(5) == 32;
    EightBits();
  }

  lemma {:induction false} XorAddsBits(a: byte, b: byte)
    ensures AddsBits(Xor(a, b), a, b)
  {
    Weights();
    XorBit(a, b, 8, 0, 1);
    XorBit(a, b, 8, 1, 2);
    XorBit(a, b, 8, 2, 4);
    XorBit(a, b, 8, 3, 8);
    XorBit(a, b, 8, 4, 16);
    XorBit(a, b, 8, 5, 32);
    XorBit(a, b, 8, 6, 64);
    XorBit(a, b, 8, 7, 128);
  }

  lemma {:induction false} SameHalf(x: nat, y: nat)
    requires x / 2 == y / 2 && x % 2 == y % 2
    ensures x == y
  {
  }

  /** A bit added twice is gone. */
  lemma {:induction false} Flipped(u: nat, w: nat, a: nat, b: nat, p: nat)
    requires AddsBit(w, a, b, p) && AddsBit(u, w, b, p)
    ensures u / p % 2 == a / p % 2
  {
    BitTwice(u / p, w / p, a / p, b / p);
  }

  lemma {:induction false} BitTwice(u: nat, w: nat, a: nat, b: nat)
    requires w % 2 == (a + b) % 2 && u % 2 == (w + b) % 2
    ensures u % 2 == a % 2
  {
  }

  lemma {:induction false} NextBit(u: nat, w: nat, a: nat, b: nat, p: nat)
    requires AddsBit(w, a, b, p) && AddsBit(u, w, b, p) && u / (2 * p) == a / (2 * p)
    ensures u / p == a / p
  {
    Flipped(u, w, a, b, p);
    TwoSteps(u, p);
    TwoSteps(a, p);
    SameHalf(u / p, a / p);
  }

  lemma {:induction false} TwoSteps(x: nat, p: nat)
    requires p > 0
    ensures x / (2 * p) == x / p / 2
  {
    var q, r := x / p / 2, x / p % 2;
    assert x / p == 2 * q + r;
    assert x == (x / p) * p + x % p;
    Quotient(x, 2 * p, q, r * p + x % p);
  }

  /** Adding the same bits twice changes nothing. */
  lemma {:induction false} BackToByte(u: byte, a: byte, w: byte, b: byte)
    requires AddsBits(w, a, b) && AddsBits(u, w, b)
    ensures u == a
  {
    assert u / 256 == a / 256;
    NextBit(u, w, a, b, 128);
    NextBit(u, w, a, b, 64);
    NextBit(u, w, a, b, 32);
    NextBit(u, w, a, b, 16);
    NextBit(u, w, a, b, 8);
    NextBit(u, w, a, b, 4);
    NextBit(u, w, a, b, 2);
    NextBit(u, w, a, b, 1);
  }

  lemma {:induction false} MaskedAt(payload: seq<byte>, key: seq<byte>, i: nat)
    requires |key| == 4 && i < |payload|
    ensures |Masked(payload, key)| == |payload| && Masked(payload, key)[i] == Xor(payload[i], key[i % 4])
  {
    MaskedLength(payload, key);
    MaskedLength(Front(payload), key);
    if i < |payload| - 1 { MaskedAt(Front(payload), key, i); }
  }

  lemma {:induction false} MaskedIsMaskedBy(payload: seq<byte>, key: seq<byte>)
    requires |key| == 4
    ensures MaskedBy(Masked(payload, key), payload, key)
  {
    MaskedLength(payload, key);
    forall i | 0 <= i < |payload|
      ensures AddsBits(Masked(payload, key)[i], payload[i], key[i % 4])
    {
      MaskedAt(payload, key, i);
      XorAddsBits(payload[i], key[i % 4]);
    }
  }

  /** What was masked bit by bit comes back. */
  lemma {:induction false} UnmaskedIs(wire: seq<byte>, payload: seq<byte>, key: seq<byte>)
    requires MaskedBy(wire, payload, key)
    ensures Masked(wire, key) == payload
  {
    MaskedIsMaskedBy(wire, key);
    forall i | 0 <= i < |wire|
      ensures Masked(wire, key)[i] == payload[i]
    {
      BackToByte(Masked(wire, key)[i], payload[i], wire[i], key[i % 4]);
    }
  }

  /** Unmasks byte by byte into a new buffer. */
  method Unmask(payload: seq<byte>, key: seq<byte>) returns (unmasked: seq<byte>)
    requires |key| == 4
    ensures unmasked == Masked(payload, key) && MaskedBy(unmasked, payload, key)
  {
    unmasked := [];
    var i := 0;
    while i < |payload|
      invariant 0 <= i <= |payload| && unmasked == Masked(payload[..i], key)
    {
      FrontOfTake(payload, i + 1);
      unmasked := unmasked + [Xor(payload[i], key[i % 4])];
      i := i + 1;
    }
    TakeAll(payload);
    MaskedIsMaskedBy(payload, key);
  }
}
