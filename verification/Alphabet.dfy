/**
 Alphabet compression: which bytes occur in the keys, and the consecutive
 numbers given to them.
 */
module Alphabet {
  import opened Bytes
  import opened MechTable

  datatype Alphabet = Alphabet(usage: seq<bool>, idx: seq<byte>, count: nat)

  /** How many of the first `n` bytes are in use. */
  function Rank(usage: seq<bool>, n: nat): nat
    requires n <= |usage|
  {
    if n == 0 then 0 else Rank(usage, n - 1) + (if usage[n - 1] then 1 else 0)
  }

  /** Used bytes are numbered in order; the others map to 0. */
  ghost predicate Numbered(a: Alphabet) {
    && |a.usage| == |a.idx| == 256
    && a.count == Rank(a.usage, |a.usage|)
    && forall c | 0 <= c < 256 :: a.idx[c] == if a.usage[c] then Rank(a.usage, c) else 0
  }

  lemma {:induction false} Sizes(a: Alphabet)
    requires Numbered(a)
    ensures |a.usage| == |a.idx| == 256
  {
  }

  lemma {:induction false} RankGrows(usage: seq<bool>, m: nat, n: nat)
    requires m <= n <= |usage|
    ensures Rank(usage, m) <= Rank(usage, n) <= Rank(usage, m) + n - m
    ensures m < n && usage[m] ==> Rank(usage, m) < Rank(usage, n)
  {
    if m < n {
      RankGrows(usage, m, n - 1);
    }
  }

  /** The numbers of used bytes lie below the count, and differ for different bytes. */
  lemma {:induction false} NumbersDiffer(a: Alphabet, c: byte, d: byte)
    requires Numbered(a) && a.usage[c]
    ensures a.idx[c] < a.count
    ensures a.usage[d] && a.idx[c] == a.idx[d] ==> c == d
  {
    RankGrows(a.usage, c, |a.usage|);
    if a.usage[d] {
      if c < d {
        RankGrows(a.usage, c, d);
      } else {
        RankGrows(a.usage, d, c);
      }
    }
  }

  lemma {:induction false} RankSet(usage: seq<bool>, c: nat, n: nat)
    requires c < |usage| && n <= |usage|
    ensures Rank(usage[c := true], n) == Rank(usage, n) + (if c < n && !usage[c] then 1 else 0)
  {
    if n > 0 {
      RankSet(usage, c, n - 1);
    }
  }

  lemma {:induction false} RankNone(usage: seq<bool>, n: nat)
    requires n <= |usage| && forall c | 0 <= c < n :: !usage[c]
    ensures Rank(usage, n) == 0
  {
    if n > 0 {
      RankNone(usage, n - 1);
    }
  }

  /** A byte is in use exactly when it occurs in one of the keys. */
  ghost predicate Covers(usage: seq<bool>, keys: seq<seq<byte>>) {
    && |usage| == 256
    && forall c | 0 <= c < 256 :: usage[c] <==> exists r :: 0 <= r < |keys| && c in keys[r]
  }

  /** `if (usagetable[c] == 0) ++usagecount; usagetable[c] = 1` */
  method Use(usage: array<bool>, count: nat, c: byte) returns (count': nat)
    requires usage.Length == 256 && count == Rank(usage[..], usage.Length)
    modifies usage
    ensures usage[..] == old(usage[..])[c := true] && count' == Rank(usage[..], usage.Length)
  {
    RankSet(usage[..], c, usage.Length);
    count' := if !usage[c] then count + 1 else count;
    usage[c] := true;
  }

  /** The numbering loop shared by both compressors. */
  method Number(usage: array<bool>, count: nat) returns (a: Alphabet)
    requires usage.Length == 256 && count == Rank(usage[..], usage.Length)
    ensures Numbered(a) && a.usage == usage[..]
  {
    var idxtable := new byte[256](i => 0);
    var idx := 0;
    for i := 0 to usage.Length
      invariant idx == Rank(usage[..], i)
      invariant forall c | 0 <= c < i :: idxtable[c] == if usage[c] then Rank(usage[..], c) else 0
      invariant forall c | i <= c < 256 :: idxtable[c] == 0
    {
      if usage[i] {
        RankGrows(usage[..], 0, i);
        idxtable[i] := idx;
        idx := idx + 1;
      }
    }
    a := Alphabet(usage[..], idxtable[..], count);
  }

  /** The first `i` keys, and the first `j` bytes of the next one. */
  ghost predicate SeenIn(c: byte, keys: seq<seq<byte>>, i: nat, j: nat)
    requires i < |keys| ==> j <= |keys[i]|
  {
    || (exists r :: 0 <= r < i && r < |keys| && c in keys[r])
    || (i < |keys| && c in keys[i][..j])
  }

  ghost predicate Seen(usage: seq<bool>, keys: seq<seq<byte>>, i: nat, j: nat)
    requires i < |keys| ==> j <= |keys[i]|
  {
    |usage| == 256 && forall c: byte :: usage[c] <==> SeenIn(c, keys, i, j)
  }

  lemma {:induction false} SeenStep(usage: seq<bool>, keys: seq<seq<byte>>, i: nat, j: nat)
    requires i < |keys| && j < |keys[i]| && Seen(usage, keys, i, j)
    ensures Seen(usage[keys[i][j] := true], keys, i, j + 1)
  {
    assert keys[i][..j + 1] == keys[i][..j] + [keys[i][j]];
  }

  lemma {:induction false} SeenRow(usage: seq<bool>, keys: seq<seq<byte>>, i: nat)
    requires i < |keys| && Seen(usage, keys, i, |keys[i]|)
    ensures Seen(usage, keys, i + 1, 0)
  {
    assert keys[i][..|keys[i]|] == keys[i];
  }

  /** `compressnumericalphabet` */
  method CompressNumeric(rows: seq<Row>) returns (a: Alphabet)
    ensures Numbered(a)
    ensures Covers(a.usage, NumericKeys(rows))
  {
    ghost var keys := NumericKeys(rows);
    var usage := new bool[256](i => false);
    var count := 0;
    RankNone(usage[..], usage.Length);
    for i := 0 to |rows|
      invariant Seen(usage[..], keys, i, 0) && count == Rank(usage[..], usage.Length)
    {
      var m := rows[i].numeric;
      SeenStep(usage[..], keys, i, 0);
      count := Use(usage, count, Octet(m, 3));
      SeenStep(usage[..], keys, i, 1);
      count := Use(usage, count, Octet(m, 2));
      SeenStep(usage[..], keys, i, 2);
      count := Use(usage, count, Octet(m, 1));
      SeenStep(usage[..], keys, i, 3);
      count := Use(usage, count, Octet(m, 0));
      SeenRow(usage[..], keys, i);
    }
    a := Number(usage, count);
  }

  /** `compressstringalphabet`: whole names, terminators included. */
  method CompressString(rows: seq<Row>) returns (a: Alphabet)
    ensures Numbered(a)
    ensures Covers(a.usage, NameKeys(rows))
  {
    ghost var keys := NameKeys(rows);
    var usage := new bool[256](i => false);
    var count := 0;
    RankNone(usage[..], usage.Length);
    for i := 0 to |rows|
      invariant Seen(usage[..], keys, i, 0) && count == Rank(usage[..], usage.Length)
    {
      var j := 0;
      while j <= |rows[i].str|
        invariant j <= |rows[i].str| + 1 == |keys[i]|
        invariant Seen(usage[..], keys, i, j) && count == Rank(usage[..], usage.Length)
      {
        SeenStep(usage[..], keys, i, j);
        count := Use(usage, count, CharAt(rows[i].str, j));
        j := j + 1;
      }
      SeenRow(usage[..], keys, i);
    }
    a := Number(usage, count);
  }
}
