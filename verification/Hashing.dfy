/**
 What the emulated digest computes, without its own definition: every folded
 byte can be undone, so no byte goes unnoticed; the seed is that of FNV-1a; and
 an accumulator is expanded by shifting, with a step of 31 and the mechanism
 added.
 */
module Hashing {
  import opened Bytes
  import opened Bits
  import opened Token
  import opened TokenLaws

  const PRIME := 16777619

  /** The inverse of the prime modulo 2^32. */
  const INVERSE := 0x359C449B

  // ---- Folding ----

  lemma {:induction false} FoldOne(acc: uint32, b: byte)
    ensures Fold(acc, [b]) == Low32(Xor32(acc, b) * PRIME)
  {
    hide Xor32, Low32;
    assert [b][..0] == [];
  }

  /** Multiplying by the inverse undoes multiplying by the prime. */
  lemma {:induction false} Divided(x: uint32)
    ensures Low32(Low32(x * PRIME) * INVERSE) == x
  {
    var y := x * PRIME;
    var q, r := y / WORD, y % WORD;
    var k := PRIME * INVERSE / WORD;
    assert PRIME * INVERSE == k * WORD + 1;
    assert y == q * WORD + r;
    assert r * INVERSE == WORD * (k * x - q * INVERSE) + x;
    SameRest(r * INVERSE, k * x - q * INVERSE, x);
  }

  lemma {:induction false} SameRest(n: nat, q: int, r: uint32)
    requires n == WORD * q + r
    ensures Low32(n) == r
  {
  }

  lemma {:induction false} Xor32Undoes(a: uint32, b: uint32)
    ensures Xor32(Xor32(a, b), b) == a
  {
    hide XorBits;
    Pow2Values();
    XorTwice(a, b, 32);
  }

  /** One folded byte can be undone. */
  lemma {:induction false} FoldUndone(acc: uint32, b: byte)
    ensures Xor32(Low32(Fold(acc, [b]) * INVERSE), b) == acc
  {
    hide Xor32, Low32, Fold;
    FoldOne(acc, b);
    Divided(Xor32(acc, b));
    Xor32Undoes(acc, b);
  }

  lemma {:induction false} FoldSplit(acc: uint32, d: seq<byte>, i: nat)
    requires i < |d|
    ensures Fold(acc, d) == Fold(Fold(Fold(acc, d[..i]), [d[i]]), d[i + 1..])
  {
    hide Fold;
    FoldAppend(acc, d[..i], [d[i]]);
    FoldAppend(acc, d[..i] + [d[i]], d[i + 1..]);
    assert d[..i] + [d[i]] + d[i + 1..] == d;
  }

  /** Under the same data, different accumulators stay different. */
  lemma {:induction false} FoldInjective(acc: uint32, acc': uint32, d: seq<byte>)
    requires Fold(acc, d) == Fold(acc', d)
    ensures acc == acc'
  {
    hide Fold, Low32, Xor32;
    if d == [] {
      FoldNothing(acc);
      FoldNothing(acc');
    } else {
      var n := |d| - 1;
      var a, a' := Fold(acc, d[..n]), Fold(acc', d[..n]);
      assert d[n + 1..] == [];
      FoldSplit(acc, d, n);
      FoldSplit(acc', d, n);
      FoldNothing(Fold(a, [d[n]]));
      FoldNothing(Fold(a', [d[n]]));
      FoldUndone(a, d[n]);
      FoldUndone(a', d[n]);
      FoldInjective(acc, acc', d[..n]);
    }
  }

  /** Changing one byte changes the result. */
  lemma {:induction false} EveryByteCounts(acc: uint32, d: seq<byte>, i: nat, b: byte)
    requires i < |d| && b != d[i]
    ensures Fold(acc, d[i := b]) != Fold(acc, d)
  {
    hide Fold, Low32, Xor32;
    var e := d[i := b];
    FoldSplit(acc, d, i);
    FoldSplit(acc, e, i);
    assert e[..i] == d[..i] && e[i + 1..] == d[i + 1..];
    var a := Fold(acc, d[..i]);
    if Fold(acc, e) == Fold(acc, d) {
      FoldInjective(Fold(a, [b]), Fold(a, [d[i]]), d[i + 1..]);
      FoldUndone(a, b);
      FoldUndone(a, d[i]);
      var x := Low32(Fold(a, [b]) * INVERSE);
      Xor32Group(x, b, a);
      Xor32Cancels(x, b, d[i]);
    }
  }

  lemma {:induction false} Xor32Cancels(x: uint32, b: uint32, c: uint32)
    requires Xor32(x, b) == Xor32(x, c)
    ensures b == c
  {
    hide Xor32;
    Xor32Group(x, b, 0);
    Xor32Group(x, c, 0);
    Xor32Undoes(b, x);
    Xor32Undoes(c, x);
  }

  // ---- The seed ----

  lemma {:induction false} SeedTimesA()
    ensures Xor32(DIGEST_SEED, 0x61) == 0x811C9DA4
  {
    hide Xor32, Octet, Xor, Word;
    var x := Xor32(DIGEST_SEED, 0x61);
    forall i: nat | i < 4 ensures Octet(x, i) == Xor(Octet(DIGEST_SEED, i), Octet(0x61, i)) {
      Xor32Octet(DIGEST_SEED, 0x61, i);
    }
    SeedOctets();
    XorGroup(0x9D, 0, 0);
    XorGroup(0x1C, 0, 0);
    XorGroup(0x81, 0, 0);
    WordOfOctets(x);
  }

  lemma {:induction false} SeedOctets()
    ensures Octet(DIGEST_SEED, 0) == 0xC5 && Octet(DIGEST_SEED, 1) == 0x9D
    ensures Octet(DIGEST_SEED, 2) == 0x1C && Octet(DIGEST_SEED, 3) == 0x81
    ensures Octet(0x61, 0) == 0x61 && Octet(0x61, 1) == 0 && Octet(0x61, 2) == 0 && Octet(0x61, 3) == 0
    ensures Xor(0xC5, 0x61) == 0xA4 && Word(0xA4, 0x9D, 0x1C, 0x81) == 0x811C9DA4
  {
    hide Xor;
    XorIsMachineXor(0xC5, 0x61, 0xC5, 0x61, 0xA4);
  }

  /** The published FNV-1a value of the one-letter text "a". */
  lemma {:induction false} HashOfA()
    ensures Fold(DIGEST_SEED, [0x61]) == 0xE40C292C
  {
    hide Xor32;
    FoldOne(DIGEST_SEED, 0x61);
    SeedTimesA();
  }

  /** A digest starts from the seed and its mechanism. */
  lemma {:induction false} StartHasBoth(mech: uint32)
    ensures DigestStart(0) == 0x811C9DC5 && Xor32(DigestStart(mech), 0x811C9DC5) == mech
  {
    hide Xor32;
    Xor32Group(DIGEST_SEED, 0, 0);
    Xor32Undoes(mech, DIGEST_SEED);
  }

  // ---- Expansion ----

  /** The accumulator as byte `i` shows it. */
  function Shown(acc: uint32, i: nat): int { acc / Pow2(i % 8) }

  lemma {:induction false} ByteAt(acc: uint32, mech: uint32, n: nat, i: nat)
    requires i < n
    ensures Finalize(acc, mech, n)[i] == (Shown(acc, i) + i * 31 + mech) % 256
  {
    hide Pow2;
  }

  lemma {:induction false} ShownNext(acc: uint32, i: nat)
    requires (i + 1) % 8 != 0
    ensures Shown(acc, i + 1) == Shown(acc / 2, i)
  {
    var k := i % 8;
    Following(i);
    PowNext(k);
    HalfThenRest(acc, Pow2(k));
  }

  lemma {:induction false} PowNext(k: nat)
    ensures Pow2(k + 1) == 2 * Pow2(k)
  {
  }

  lemma {:induction false} Following(i: nat)
    requires (i + 1) % 8 != 0
    ensures (i + 1) % 8 == i % 8 + 1
  {
  }

  lemma {:induction false} AddRest(x: int, y: int)
    ensures (x % 256 + y) % 256 == (x + y) % 256
  {
  }

  /** The first byte shows the accumulator itself. */
  lemma {:induction false} FirstByte(acc: uint32, mech: uint32, n: nat)
    requires 0 < n
    ensures Finalize(acc, mech, n)[0] == (acc + mech) % 256
  {
    hide Finalize;
    ByteAt(acc, mech, n, 0);
  }

  /** The next byte shows it shifted by one bit, 31 further on. */
  lemma {:induction false} NextByte(acc: uint32, mech: uint32, n: nat, i: nat)
    requires i + 1 < n && (i + 1) % 8 != 0
    ensures Finalize(acc, mech, n)[i + 1] == (31 + Finalize(acc / 2, mech, n)[i] as int) % 256
  {
    hide Finalize, Shown;
    ByteAt(acc, mech, n, i + 1);
    ByteAt(acc / 2, mech, n, i);
    ShownNext(acc, i);
    AddRest(Shown(acc / 2, i) + i * 31 + mech, 31);
  }

  /** After eight bytes it starts again from the unshifted accumulator. */
  lemma {:induction false} EighthByte(acc: uint32, mech: uint32, n: nat, i: nat)
    requires i + 8 < n
    ensures Finalize(acc, mech, n)[i + 8] == (8 * 31 + Finalize(acc, mech, n)[i] as int) % 256
  {
    hide Finalize, Shown;
    ByteAt(acc, mech, n, i);
    ByteAt(acc, mech, n, i + 8);
    ShownAgain(acc, i);
    AddRest(Shown(acc, i) + i * 31 + mech, 8 * 31);
  }

  lemma {:induction false} ShownAgain(acc: uint32, i: nat)
    ensures Shown(acc, i + 8) == Shown(acc, i)
  {
    hide Pow2;
    assert (i + 8) % 8 == i % 8;
  }

  /** A different mechanism moves every byte by the difference. */
  lemma {:induction false} MechanismAdds(acc: uint32, mech: uint32, n: nat, i: nat)
    requires i < n
    ensures Finalize(acc, mech, n)[i] == (mech + Finalize(acc, 0, n)[i] as int) % 256
  {
    hide Finalize, Shown;
    ByteAt(acc, mech, n, i);
    ByteAt(acc, 0, n, i);
    AddRest(Shown(acc, i) + i * 31, mech);
  }

  /** The bytes for an empty accumulator. */
  lemma {:induction false} EmptyExpands(n: nat, i: nat)
    requires i < n
    ensures Finalize(0, 0, n)[i] == i * 31 % 256
  {
    hide Finalize, Pow2;
    ByteAt(0, 0, n, i);
  }

  /** The digests there are: SHA-1, SHA-224, SHA-256, SHA-384 and SHA-512, by their sizes in bits. */
  lemma {:induction false} DigestSizes(mech: uint32)
    ensures mech == 0x220 ==> DigestSize(mech) * 8 == 160
    ensures mech == 0x255 ==> DigestSize(mech) * 8 == 224
    ensures mech == 0x250 ==> DigestSize(mech) * 8 == 256
    ensures mech == 0x260 ==> DigestSize(mech) * 8 == 384
    ensures mech == 0x270 ==> DigestSize(mech) * 8 == 512
    ensures DigestSize(mech) != 0 <==> mech in {0x220, 0x250, 0x255, 0x260, 0x270}
  {
  }
}
