/**
 Octets and 32-bit words, shared by the index generator and the wire codec.
 */
module Bytes {

  /** An `unsigned char`. */
  type byte = x: int | 0 <= x < 256

  const WORD := 0x1_0000_0000

  /** A `uint32_t`. */
  type uint32 = x: int | 0 <= x < WORD

  /** What is left of a wider number in a `uint32_t`. */
  function Low32(n: nat): uint32 { n % WORD }

  /** Octet `i` of a word, counted from the low end: `(uint8_t)(v >> 8 * i)`. */
  function Octet(v: nat, i: nat): byte
    requires i < 4
  {
    (match i case 0 => v case 1 => v / 0x100 case 2 => v / 0x10000 case 3 => v / 0x1000000) % 256
  }

  /** The word with the given octets, low end first. */
  function Word(b0: byte, b1: byte, b2: byte, b3: byte): uint32 {
    b0 as int + 0x100 * b1 as int + 0x10000 * b2 as int + 0x1000000 * b3 as int
  }

  lemma {:induction false} MulMonotone(d: nat, a: int, b: int)
    requires a <= b
    ensures d * a <= d * b
  {
  }

  /** Division by `d` gives the only quotient that leaves a remainder below `d`. */
  lemma {:induction false} Quotient(n: nat, d: nat, q: nat, r: nat)
    requires n == d * q + r && r < d
    ensures n / d == q
  {
    var p := n / d;
    assert n == d * p + n % d;
    if p < q {
      MulMonotone(d, p + 1, q);
    } else if q < p {
      MulMonotone(d, q + 1, p);
    }
  }

  /** The four octets spell the low 32 bits of the number. */
  lemma {:induction false} WordOfOctets(n: nat)
    ensures Word(Octet(n, 0), Octet(n, 1), Octet(n, 2), Octet(n, 3)) == Low32(n)
  {
    var q1, r1 := n / 256, n % 256;
    var q2, r2 := q1 / 256, q1 % 256;
    var q3, r3 := q2 / 256, q2 % 256;
    var q4, r4 := q3 / 256, q3 % 256;
    Quotient(n, 0x10000, q2, 256 * r2 + r1);
    Quotient(n, 0x1000000, q3, 0x10000 * r3 + 256 * r2 + r1);
    Quotient(n, WORD, q4, 0x1000000 * r4 + 0x10000 * r3 + 256 * r2 + r1);
  }

  /** Every octet of a word is recovered from it. */
  lemma {:induction false} OctetsOfWord(b0: byte, b1: byte, b2: byte, b3: byte)
    ensures var w := Word(b0, b1, b2, b3);
            Octet(w, 0) == b0 && Octet(w, 1) == b1 && Octet(w, 2) == b2 && Octet(w, 3) == b3
  {
    var w := Word(b0, b1, b2, b3);
    Quotient(w, 0x100, 0x10000 * b3 as int + 0x100 * b2 as int + b1 as int, b0);
    Quotient(w, 0x10000, 0x100 * b3 as int + b2 as int, 0x100 * b1 as int + b0 as int);
    Quotient(w, 0x1000000, b3, 0x10000 * b2 as int + 0x100 * b1 as int + b0 as int);
  }

  // ---- Buffers ----

  /** A buffer whose part from `at` on was overwritten. */
  function Written(before: seq<byte>, at: nat, bytes: seq<byte>): (r: seq<byte>)
    requires at + |bytes| <= |before|
    ensures |r| == |before|
  {
    before[..at] + bytes + before[at + |bytes|..]
  }

  lemma {:induction false} WrittenTwice(before: seq<byte>, at: nat, a: seq<byte>, b: seq<byte>)
    requires at + |a| + |b| <= |before|
    ensures Written(Written(before, at, a), at + |a|, b) == Written(before, at, a + b)
  {
  }

  lemma {:induction false} WrittenNothing(before: seq<byte>, at: nat)
    requires at <= |before|
    ensures Written(before, at, []) == before
  {
  }

  // ---- Exclusive or ----

  function Pow2(n: nat): (p: nat)
    ensures 0 < p
  {
    if n == 0 then 1 else 2 * Pow2(n - 1)
  }

  /** Bitwise exclusive or of the low `n` bits. */
  function XorBits(a: nat, b: nat, n: nat): (x: nat)
    ensures x < Pow2(n)
  {
    if n == 0 then 0 else (a + b) % 2 + 2 * XorBits(a / 2, b / 2, n - 1)
  }

  /** The lowest bit and the rest. */
  lemma {:induction false} XorStep(a: nat, b: nat, n: nat)
    requires n > 0
    ensures XorBits(a, b, n) == (a + b) % 2 + 2 * XorBits(a / 2, b / 2, n - 1)
    ensures XorBits(a, b, n) / 2 == XorBits(a / 2, b / 2, n - 1) && XorBits(a, b, n) % 2 == (a + b) % 2
  {
  }

  lemma {:induction false} XorNothing(a: nat, b: nat)
    ensures XorBits(a, b, 0) == 0
  {
  }

  lemma {:induction false} SameParity(x: nat, a: nat, b: nat)
    requires x % 2 == (a + b) % 2
    ensures (x + b) % 2 == a % 2
  {
  }

  lemma {:induction false} XorTwice(a: nat, b: nat, n: nat)
    requires a < Pow2(n)
    ensures XorBits(XorBits(a, b, n), b, n) == a
  {
    hide XorBits;
    if n == 0 {
      XorNothing(XorBits(a, b, 0), b);
    } else {
      XorTwice(a / 2, b / 2, n - 1);
      XorStep(a, b, n);
      XorStep(XorBits(a, b, n), b, n);
      SameParity(XorBits(a, b, n), a, b);
    }
  }

  lemma {:induction false} Pow2Values()
    ensures Pow2(8) == 256 && Pow2(32) == WORD
  {
    Pow2Sum(8, 8);
    Pow2Sum(16, 16);
    assert Pow2(16) == 65536;
  }

  lemma {:induction false} Pow2Sum(m: nat, n: nat)
    ensures Pow2(m + n) == Pow2(m) * Pow2(n)
  {
    if n > 0 {
      Pow2Sum(m, n - 1);
    }
  }

  /** `a ^ b` on octets. */
  function Xor(a: byte, b: byte): byte {
    Pow2Values();
    XorBits(a, b, 8)
  }

  lemma {:induction false} XorUndoes(a: byte, b: byte)
    ensures Xor(Xor(a, b), b) == a
  {
    Pow2Values();
    XorTwice(a, b, 8);
  }

  /** `a ^ b` on words. */
  function Xor32(a: uint32, b: uint32): uint32 {
    Pow2Values();
    XorBits(a, b, 32)
  }
}
