/**
 Exclusive or, pinned down bit by bit, octet by octet and against the machine's
 own operator; and the laws of it that ciphers and digests rest on.
 */
module Bits {
  import opened Bytes

  // ---- Laws ----

  lemma {:induction false} XorCommutes(a: nat, b: nat, n: nat)
    ensures XorBits(a, b, n) == XorBits(b, a, n)
  {
    hide XorBits;
    if n == 0 {
      XorNothing(a, b);
      XorNothing(b, a);
    } else {
      XorStep(a, b, n);
      XorStep(b, a, n);
      XorCommutes(a / 2, b / 2, n - 1);
    }
  }

  lemma {:induction false} XorAssociates(a: nat, b: nat, c: nat, n: nat)
    ensures XorBits(XorBits(a, b, n), c, n) == XorBits(a, XorBits(b, c, n), n)
  {
    hide XorBits;
    var ab, bc := XorBits(a, b, n), XorBits(b, c, n);
    if n == 0 {
      XorNothing(ab, c);
      XorNothing(a, bc);
    } else {
      XorStep(a, b, n);
      XorStep(b, c, n);
      XorStep(ab, c, n);
      XorStep(a, bc, n);
      XorAssociates(a / 2, b / 2, c / 2, n - 1);
      Parity(ab, a, b, c);
      Parity(bc, b, c, a);
    }
  }

  lemma {:induction false} Parity(x: nat, a: nat, b: nat, c: nat)
    requires x % 2 == (a + b) % 2
    ensures (x + c) % 2 == (a + b + c) % 2
  {
  }

  lemma {:induction false} XorNeutral(a: nat, n: nat)
    requires a < Pow2(n)
    ensures XorBits(a, 0, n) == a
  {
    hide XorBits;
    if n == 0 {
      XorNothing(a, 0);
    } else {
      XorStep(a, 0, n);
      XorNeutral(a / 2, n - 1);
    }
  }

  lemma {:induction false} XorSelf(a: nat, n: nat)
    ensures XorBits(a, a, n) == 0
  {
    hide XorBits;
    if n == 0 {
      XorNothing(a, a);
    } else {
      XorStep(a, a, n);
      XorSelf(a / 2, n - 1);
      Twice(a);
    }
  }

  lemma {:induction false} Twice(a: nat)
    ensures (a + a) % 2 == 0
  {
  }

  /** Octets under exclusive or: commutative, associative, 0 neutral, everything its own inverse. */
  lemma {:induction false} XorGroup(a: byte, b: byte, c: byte)
    ensures Xor(a, b) == Xor(b, a)
    ensures Xor(Xor(a, b), c) == Xor(a, Xor(b, c))
    ensures Xor(a, 0) == a && Xor(a, a) == 0
  {
    hide XorBits;
    Pow2Values();
    XorCommutes(a, b, 8);
    XorAssociates(a, b, c, 8);
    XorNeutral(a, 8);
    XorSelf(a, 8);
  }

  /** The same for words. */
  lemma {:induction false} Xor32Group(a: uint32, b: uint32, c: uint32)
    ensures Xor32(a, b) == Xor32(b, a)
    ensures Xor32(Xor32(a, b), c) == Xor32(a, Xor32(b, c))
    ensures Xor32(a, 0) == a && Xor32(a, a) == 0
  {
    hide XorBits;
    Pow2Values();
    XorCommutes(a, b, 32);
    XorAssociates(a, b, c, 32);
    XorNeutral(a, 32);
    XorSelf(a, 32);
  }

  // ---- The machine's operator ----

  lemma {:induction false} LowBit(x: bv8)
    ensures (x & 1) as int == x as int % 2
  {
  }

  lemma {:induction false} OtherBits(x: bv8)
    ensures (x >> 1) as int == x as int / 2
  {
  }

  lemma {:induction false} BitByBit(a: bv8, b: bv8)
    ensures (a ^ b) >> 1 == (a >> 1) ^ (b >> 1) && (a ^ b) & 1 == (a & 1) ^ (b & 1)
    ensures (a & 1 == 0 || a & 1 == 1) && (b & 1 == 0 || b & 1 == 1)
  {
  }

  lemma {:induction false} OneBit(x: bv8, y: bv8)
    requires (x == 0 || x == 1) && (y == 0 || y == 1)
    ensures (x ^ y) as int == (x as int + y as int) % 2
  {
  }

  lemma {:induction false} LowBits(a: bv8, b: bv8)
    ensures (a ^ b) as int % 2 == (a as int % 2 + b as int % 2) % 2
  {
    LowBit(a);
    LowBit(b);
    LowBit(a ^ b);
    BitByBit(a, b);
    OneBit(a & 1, b & 1);
  }

  /** The upper bits of two octets, and of their exclusive or. */
  lemma {:induction false} Halves(a: bv8, b: bv8) returns (h: bv8, g: bv8)
    ensures h as int == a as int / 2 && g as int == b as int / 2 && (h ^ g) as int == (a ^ b) as int / 2
  {
    h, g := a >> 1, b >> 1;
    OtherBits(a);
    OtherBits(b);
    OtherBits(a ^ b);
    BitByBit(a, b);
  }

  lemma {:induction false} NoBits(a: bv8, b: bv8)
    requires a as int == 0 && b as int == 0
    ensures (a ^ b) as int == 0
  {
    assert a == 0 && b == 0;
  }

  /** `x` is the exclusive or of `a` and `b` if its lowest bit and the others are. */
  lemma {:induction false} Rejoined(a: nat, b: nat, x: nat, n: nat)
    requires n > 0 && x % 2 == (a % 2 + b % 2) % 2 && x / 2 == XorBits(a / 2, b / 2, n - 1)
    ensures x == XorBits(a, b, n)
  {
    XorStep(a, b, n);
    Evened(a, b);
  }

  lemma {:induction false} Evened(a: nat, b: nat)
    ensures (a + b) % 2 == (a % 2 + b % 2) % 2
  {
  }

  /** `x` is what the machine computes from `i` and `j`. */
  ghost predicate Machine(i: nat, j: nat, x: nat) {
    exists a: bv8, b: bv8 :: IsXor(a, b, i, j, x)
  }

  predicate IsXor(a: bv8, b: bv8, i: nat, j: nat, x: nat) {
    a as int == i && b as int == j && (a ^ b) as int == x
  }

  lemma {:induction false} MachineHalves(i: nat, j: nat, x: nat)
    requires Machine(i, j, x)
    ensures Machine(i / 2, j / 2, x / 2) && x % 2 == (i % 2 + j % 2) % 2 && (i == 0 && j == 0 ==> x == 0)
  {
    hide IsXor;
    var a: bv8, b: bv8 :| IsXor(a, b, i, j, x);
    assert Machine(i / 2, j / 2, x / 2) by { UpperBits(a, b, i, j, x); }
    LowestBit(a, b, i, j, x);
  }

  lemma {:induction false} UpperBits(a: bv8, b: bv8, i: nat, j: nat, x: nat)
    requires IsXor(a, b, i, j, x)
    ensures Machine(i / 2, j / 2, x / 2)
  {
    var h, g := Halves(a, b);
    assert IsXor(h, g, i / 2, j / 2, x / 2);
  }

  lemma {:induction false} LowestBit(a: bv8, b: bv8, i: nat, j: nat, x: nat)
    requires IsXor(a, b, i, j, x)
    ensures x % 2 == (i % 2 + j % 2) % 2 && (i == 0 && j == 0 ==> x == 0)
  {
    LowBits(a, b);
    if i == 0 && j == 0 {
      NoBits(a, b);
    }
  }

  lemma {:induction false} MachineBits(i: nat, j: nat, x: nat, n: nat)
    requires Machine(i, j, x) && i < Pow2(n) && j < Pow2(n)
    ensures XorBits(i, j, n) == x
  {
    hide XorBits, Machine;
    MachineHalves(i, j, x);
    if n == 0 {
      XorNothing(i, j);
    } else {
      MachineBits(i / 2, j / 2, x / 2, n - 1);
      Rejoined(i, j, x, n);
    }
  }

  lemma {:induction false} MachineXor(i: byte, j: byte, x: nat)
    requires Machine(i, j, x)
    ensures Xor(i, j) == x
  {
    hide XorBits, Machine;
    Pow2Values();
    MachineBits(i, j, x, 8);
  }

  /** `Xor` is the machine's exclusive or on octets. */
  lemma {:induction false} XorIsMachineXor(a: bv8, b: bv8, i: byte, j: byte, x: nat)
    requires a as int == i && b as int == j && (a ^ b) as int == x
    ensures Xor(i, j) == x
  {
    hide Xor;
    assert IsXor(a, b, i, j, x);
    MachineXor(i, j, x);
  }

  // ---- Words, octet by octet ----

  /** A number without its low `m` bits. */
  function Shifted(a: nat, m: nat): nat {
    if m == 0 then a else Shifted(a / 2, m - 1)
  }

  lemma {:induction false} ShiftedIs(a: nat, m: nat)
    ensures Shifted(a, m) == a / Pow2(m)
  {
    if m > 0 {
      ShiftedIs(a / 2, m - 1);
      HalfThenRest(a, Pow2(m - 1));
    }
  }

  lemma {:induction false} HalfThenRest(a: nat, p: nat)
    requires p > 0
    ensures a / 2 / p == a / (2 * p)
  {
    var q, r := a / 2 / p, a / 2 % p;
    assert a / 2 == p * q + r;
    assert a == (2 * p) * q + (2 * r + a % 2);
    Quotient(a, 2 * p, q, 2 * r + a % 2);
  }

  /** The low `m` bits and the `n` above them. */
  lemma {:induction false} XorSplit(a: nat, b: nat, m: nat, n: nat)
    ensures XorBits(a, b, m + n) % Pow2(m) == XorBits(a, b, m)
    ensures Shifted(XorBits(a, b, m + n), m) == XorBits(Shifted(a, m), Shifted(b, m), n)
  {
    hide XorBits;
    if m == 0 {
      XorNothing(a, b);
    } else {
      XorSplit(a / 2, b / 2, m - 1, n);
      XorStep(a, b, m + n);
      XorStep(a, b, m);
      var x, p := XorBits(a, b, m + n), Pow2(m - 1);
      Remainder(x, p);
    }
  }

  lemma {:induction false} Remainder(x: nat, p: nat)
    requires p > 0
    ensures x % (2 * p) == x % 2 + 2 * (x / 2 % p)
  {
    var q, r := x / 2 / p, x / 2 % p;
    assert x / 2 == p * q + r;
    assert x == (2 * p) * q + (2 * r + x % 2);
    Quotient(x, 2 * p, q, 2 * r + x % 2);
  }

  lemma {:induction false} ShiftedTwice(a: nat, m: nat, n: nat)
    ensures Shifted(Shifted(a, m), n) == Shifted(a, m + n)
  {
    if m > 0 {
      ShiftedTwice(a / 2, m - 1, n);
    }
  }

  /** Octet `i` of a word. */
  lemma {:induction false} OctetIs(a: nat, i: nat)
    requires i < 4
    ensures Octet(a, i) == Shifted(a, 8 * i) % 256
  {
    Pow2Values();
    Pow2Sum(8, 16);
    ShiftedIs(a, 8 * i);
  }

  /** Octet `i` of an exclusive or of words is that of their octets `i`. */
  lemma {:induction false} Xor32Octet(a: uint32, b: uint32, i: nat)
    requires i < 4
    ensures Octet(Xor32(a, b), i) == Xor(Octet(a, i), Octet(b, i))
  {
    hide XorBits, Shifted, Octet, SameLow;
    Pow2Values();
    var x, m := XorBits(a, b, 32), 8 * i;
    OctetIs(x, i);
    OctetIs(a, i);
    OctetIs(b, i);
    XorSplit(a, b, m, 32 - m);
    var a', b' := Shifted(a, m), Shifted(b, m);
    assert 8 + (24 - m) == 32 - m;
    XorSplit(a', b', 8, 24 - m);
    LowPart(a', 8);
    LowPart(b', 8);
    LowOnly(a', b', a' % 256, b' % 256, 8);
  }

  /** The lowest `n` bits agree. */
  predicate SameLow(a: nat, b: nat, n: nat) {
    n == 0 || (a % 2 == b % 2 && SameLow(a / 2, b / 2, n - 1))
  }

  lemma {:induction false} LowPart(a: nat, n: nat)
    ensures SameLow(a, a % Pow2(n), n)
  {
    if n > 0 {
      LowPart(a / 2, n - 1);
      Lower(a, Pow2(n - 1));
    }
  }

  lemma {:induction false} Lower(a: nat, p: nat)
    requires p > 0
    ensures a % (2 * p) % 2 == a % 2 && a % (2 * p) / 2 == a / 2 % p
  {
    Remainder(a, p);
  }

  /** Only the low bits count. */
  lemma {:induction false} LowOnly(a: nat, b: nat, a': nat, b': nat, n: nat)
    requires SameLow(a, a', n) && SameLow(b, b', n)
    ensures XorBits(a, b, n) == XorBits(a', b', n)
  {
    hide XorBits;
    if n == 0 {
      XorNothing(a, b);
      XorNothing(a', b');
    } else {
      XorStep(a, b, n);
      XorStep(a', b', n);
      LowOnly(a / 2, b / 2, a' / 2, b' / 2, n - 1);
      Evened(a, b);
      Evened(a', b');
    }
  }
}
