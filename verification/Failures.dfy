/**
 Two tables the generator does not serve: one on which it aborts, and one for
 which it emits, without complaint, a lookup that misses a row.
 */
module Failures {
  import opened Bytes
  import opened MechTable
  import opened Trie
  import opened Alphabet
  import opened Generator
  import opened Pack
  import opened Saturation
  import opened Emit
  import opened Walk
  import opened Lookup
  import opened Spoilt
  import opened Lost
  import opened Generate

  // ---- A number that repeats one byte ----

  /** One row whose number is made of one byte. */
  ghost predicate OneByte(row: Row, b: byte, tr: Trace) {
    && NumericKey(row.numeric) == [b, b, b, b]
    && Sound(tr, NumericKeys([row]), 1) && AtLeaves(tr.view, NumericKeys([row]))
    && Covers(tr.alphabet.usage, NumericKeys([row]))
  }

  /** Each node is one byte deeper than the one before. */
  lemma {:induction false} Chain(row: Row, b: byte, tr: Trace, k: nat)
    requires OneByte(row, b, tr) && k < |tr.trie|
    ensures |tr.view.prefix| == |tr.trie| && |tr.view.prefix[k]| == k <= 3
    ensures forall i | 0 <= i < |tr.view.prefix[k]| :: tr.view.prefix[k][i] == b
  {
    hide Octet, Numbered, Covers, Weighed, Unpacked, SortedPrefix, GotOffsets, Packed, Linked, AtLeaves, Holds;
    var v, keys := tr.view, NumericKeys([row]);
    assert keys == [[b, b, b, b]];
    assert Inside(v.prefix[k], v.via[k], keys);
    if k > 0 {
      assert HangsOff(tr.trie, v, k);
      Chain(row, b, tr, v.parent[k]);
      assert |v.prefix[k]| == v.parent[k] + 1;
      var j := |v.prefix[k]|;
      if j < k {
        Chain(row, b, tr, j);
        Alike(v.prefix[j], v.prefix[k], b);
      }
    }
  }

  lemma {:induction false} Alike(x: seq<byte>, y: seq<byte>, b: byte)
    requires |x| == |y| && (forall i | 0 <= i < |x| :: x[i] == b) && (forall i | 0 <= i < |y| :: y[i] == b)
    ensures x == y
  {
  }

  lemma {:induction false} FourNodes(row: Row, b: byte, tr: Trace)
    requires OneByte(row, b, tr)
    ensures |tr.trie| == 4
    ensures forall k, d: byte | 0 <= k < 4 :: tr.trie[k].table[d] != 0 <==> d == b
  {
    hide Octet, Numbered, Covers, Weighed, Unpacked, SortedPrefix, GotOffsets, Packed, Linked, AtLeaves;
    var nodes, v, keys := tr.trie, tr.view, NumericKeys([row]);
    assert keys == [[b, b, b, b]];
    assert Stored(nodes, v, keys, 0);
    LeafDepth(v, keys, 0);
    forall k | 0 <= k < |nodes| ensures |v.prefix[k]| == k <= 3 {
      Chain(row, b, tr, k);
    }
    var last, leaf := |nodes| - 1, v.slot[0].node;
    assert |v.prefix[last]| == last && |v.prefix[leaf]| == leaf;
    forall k, d: byte | 0 <= k < |nodes| ensures nodes[k].table[d] != 0 <==> d == b {
      Chain(row, b, tr, k);
      Towards(nodes, v, keys, 0, k, k);
      if nodes[k].table[d] != 0 {
        OnlyThatByte(row, b, tr, k, d);
      }
    }
  }

  lemma {:induction false} OnlyThatByte(row: Row, b: byte, tr: Trace, k: nat, d: byte)
    requires OneByte(row, b, tr) && k < |tr.trie| && tr.trie[k].table[d] != 0
    ensures d == b
  {
    hide Octet, Numbered, Covers, Weighed, Unpacked, SortedPrefix, GotOffsets, Packed, Linked, AtLeaves;
    var nodes, v, keys := tr.trie, tr.view, NumericKeys([row]);
    assert keys == [[b, b, b, b]];
    assert LinksFit(nodes, v, k) && RowsFit(nodes, v, k);
    var t := nodes[k].table[d];
    if t > 0 {
      Chain(row, b, tr, t);
      assert v.prefix[t][|v.prefix[k]|] == d;
    } else {
      assert Stored(nodes, v, keys, RowOf(t));
      assert (v.prefix[k] + [d])[|v.prefix[k]|] == d;
    }
  }

  lemma {:induction false} WeightGap(table: seq<short>, m: nat, n: nat, link: nat)
    requires m <= n <= |table| && forall c | m <= c < n :: table[c] == 0
    ensures Weight(table, n, link) == Weight(table, m, link)
  {
    if m < n {
      WeightGap(table, m, n - 1, link);
    }
  }

  /** Packed in order of their numbers, the first and the last node do not hang together. */
  lemma {:induction false} InTurn(row: Row, b: byte, tr: Trace)
    requires OneByte(row, b, tr)
    ensures |tr.order| == 4 && tr.order[0] == 0 && tr.order[3] == 3
  {
    hide Octet, Numbered, Covers, Valid, Unpacked, GotOffsets, Packed, Linked, AtLeaves, Weight;
    FourNodes(row, b, tr);
    forall k | 0 <= k < 4 ensures tr.trie[k].used == 1 {
      var t := tr.trie[k].table;
      WeightGap(t, 0, b, 1);
      WeightGap(t, b as int + 1, |t|, 1);
      OneWeight(t, b);
    }
    var order := tr.order;
    assert Precedes(tr.trie, order[0], order[1]) && Precedes(tr.trie, order[1], order[2])
           && Precedes(tr.trie, order[2], order[3]);
  }

  lemma {:induction false} OneWeight(t: seq<short>, b: nat)
    requires b < |t| && t[b] != 0
    ensures Weight(t, 0, 1) == 0 && Weight(t, b + 1, 1) == Weight(t, b, 1) + 1
  {
  }

  /** Such a table is not packable, and the assertion of the emission fails. */
  lemma {:induction false} OneByteAborts(row: Row, b: byte, tr: Trace)
    requires OneByte(row, b, tr)
    ensures !Packable(tr) && !Quiet(tr.alphabet, tr.packed)
  {
    hide Octet, Numbered, Valid, Weighed, Saturated, Quiet, Packed, Linked, AtLeaves, Precedes, Stacked;
    var a, keys := tr.alphabet, NumericKeys([row]);
    assert keys == [[b, b, b, b]];
    FourNodes(row, b, tr);
    InTurn(row, b, tr);
    assert forall c | 0 <= c < 256 :: a.usage[c] <==> c in keys[0];
    OneLetterCount(a, b);
    OneLetter(a, Lineup(tr), b);
    StackedTrace(tr, keys, 1);
    if Quiet(a, tr.packed) {
      FirstLinksToLast(row, b, tr);
      Chain(row, b, tr, 3);
      ChildOfRoot(tr, keys, b);
    }
  }

  lemma {:induction false} FirstLinksToLast(row: Row, b: byte, tr: Trace)
    requires OneByte(row, b, tr) && |tr.trie| == |tr.order| == 4 && tr.order[0] == 0 && tr.order[3] == 3
    requires Sized(tr.alphabet) && tr.alphabet.count == 1 && tr.alphabet.usage[b]
             && Stacked(tr.alphabet, tr.packed, tr.order)
    requires Quiet(tr.alphabet, tr.packed) && forall k | 0 <= k < 4 :: tr.trie[k].table[b] != 0
    ensures tr.trie[0].table[b] == 3
  {
    hide Octet, Numbered, Valid, Weighed, Saturated, Quiet, Packed, Linked, AtLeaves, Precedes, Unpacked, SortedPrefix;
    var keys := NumericKeys([row]);
    ValidIgnoresOffsets(tr.trie, tr.packed, tr.view, keys);
    forall n | 0 <= n < |tr.packed| ensures tr.packed[n].offset <= 32767 {
      var j := Position(tr.order, n);
    }
    QuietEnds(tr.alphabet, tr.packed, tr.order, tr.view, keys, b);
  }

  lemma {:induction false} ChildOfRoot(tr: Trace, keys: seq<seq<byte>>, b: byte)
    requires Valid(tr.trie, tr.view, keys) && tr.trie[0].table[b] > 0
    ensures tr.trie[0].table[b] < |tr.view.prefix| && |tr.view.prefix[tr.trie[0].table[b]]| == 1
  {
    assert LinksFit(tr.trie, tr.view, 0);
  }

  lemma {:induction false} OneLetterCount(a: Alphabet, b: byte)
    requires Numbered(a) && forall c | 0 <= c < 256 :: a.usage[c] <==> c == b
    ensures a.count == 1 && |a.usage| == |a.idx| == 256
  {
    RankGap(a.usage, 0, b);
    RankGap(a.usage, b as int + 1, |a.usage|);
  }

  lemma {:induction false} RankGap(usage: seq<bool>, m: nat, n: nat)
    requires m <= n <= |usage| && forall c | m <= c < n :: !usage[c]
    ensures Rank(usage, n) == Rank(usage, m)
  {
    if m < n {
      RankGap(usage, m, n - 1);
    }
  }

  /** The generator aborts on every table of one row whose number repeats one byte. */
  method GenerateOneByte(row: Row, b: byte) returns (result: Generated)
    requires NumericKey(row.numeric) == [b, b, b, b]
    ensures result.Aborted?
  {
    OneKeyFits(row);
    ghost var tr;
    result, tr := NumericIndex([row]);
    OneByteAborts(row, b, tr);
  }

  lemma {:induction false} OneKeyFits(row: Row)
    ensures NumericFits(NumericKeys([row]))
  {
    hide Octet;
    var keys, key := NumericKeys([row]), NumericKey(row.numeric);
    assert keys[..0] == [];
    assert AllPrefixes(keys) == Prefixes(key);
    var s := {key[..1], key[..2], key[..3]};
    forall w | w in Prefixes(key) ensures w in s {
      var i :| 0 < i < |key| && w == key[..i];
    }
    assert Prefixes(key) <= s;
    SubsetSize(Prefixes(key), s);
  }

  lemma {:induction false} SubsetSize<T>(s: set<T>, t: set<T>)
    requires s <= t
    ensures |s| <= |t|
  {
    if s != {} {
      var x :| x in s;
      SubsetSize(s - {x}, t - {x});
    }
  }

  // ---- Three names ----

  const A := 97
  const B := 98

  /** The names "a", "aa" and "b"; the numbers do not matter. */
  function ThreeNames(): seq<Row> { [Row([A], 0), Row([A, A], 1), Row([B], 2)] }

  lemma {:induction false} ThreeKeys()
    ensures Shares(ThreeNames(), 0)
            && StringKeys(ThreeNames(), 0) == [[A, 0], [A, A, 0], [B, 0]] == NameKeys(ThreeNames())
    ensures DistinctNames(ThreeNames(), 3)
    ensures forall skip: nat | LongestCommon(ThreeNames(), 3, skip) :: skip == 0
  {
    var rows := ThreeNames();
    assert rows[0].str[..0] == rows[1].str[..0] == rows[2].str[..0] == [];
    assert rows[0].str[0..] == [A] && rows[1].str[0..] == [A, A] && rows[2].str[0..] == [B];
    assert StringKey(rows[0].str, 0) == [A, 0] && StringKey(rows[1].str, 0) == [A, A, 0]
           && StringKey(rows[2].str, 0) == [B, 0];
    forall skip: nat | LongestCommon(ThreeNames(), 3, skip) ensures skip == 0 {
      if skip > 0 {
        SameStart(rows[2].str, rows[0].str, skip);
      }
    }
  }

  lemma {:induction false} SameStart(x: seq<byte>, y: seq<byte>, n: nat)
    requires 0 < n <= |x| && n <= |y| && x[..n] == y[..n]
    ensures x[0] == y[0]
  {
    assert x[..n][0] == x[0] && y[..n][0] == y[0];
  }

  ghost predicate Three(tr: Trace) {
    && Sound(tr, [[A, 0], [A, A, 0], [B, 0]], 2) && Forked(tr.view, [[A, 0], [A, A, 0], [B, 0]])
    && Covers(tr.alphabet.usage, [[A, 0], [A, A, 0], [B, 0]])
  }

  /** Two nodes: the root, and one for the names that begin with "a". */
  lemma {:induction false} ThreeTrie(tr: Trace)
    requires Three(tr)
    ensures |tr.trie| == 2 && |tr.view.prefix| == 2 && tr.view.prefix[0] == [] && tr.view.prefix[1] == [A]
    ensures forall d: byte :: tr.trie[0].table[d] == if d == A then 1 else if d == B then CellOf(2) else 0
    ensures forall d: byte :: tr.trie[1].table[d] == if d == 0 then CellOf(0) else if d == A then CellOf(1) else 0
  {
    hide Numbered, Covers, Weighed, Unpacked, SortedPrefix, GotOffsets, Packed, Linked;
    var nodes, v, keys := tr.trie, tr.view, [[A, 0], [A, A, 0], [B, 0]];
    forall k | 0 < k < |nodes| ensures v.prefix[k] == [A] {
      assert Fork(v.prefix[k], keys) && HangsOff(nodes, v, k);
      OnlyFork(v.prefix[k], keys);
    }
    Slots(nodes, v, keys);
    assert HangsOff(nodes, v, 1);
    forall d: byte ensures nodes[0].table[d] == if d == A then 1 else if d == B then CellOf(2) else 0 {
      RootCell(nodes, v, keys, d);
    }
    forall d: byte ensures nodes[1].table[d] == if d == 0 then CellOf(0) else if d == A then CellOf(1) else 0 {
      ChildCell(nodes, v, keys, d);
    }
  }

  ghost predicate Placed(nodes: seq<Node>, v: View, keys: seq<seq<byte>>) {
    && Tree(nodes, v) && Holds(nodes, v, keys) && StoredUpTo(v, 3) && |nodes| == 2 && v.prefix[1] == [A]
    && v.slot[0] == Slot(1, 0) && v.slot[1] == Slot(1, A) && v.slot[2] == Slot(0, B)
  }

  lemma {:induction false} RootCell(nodes: seq<Node>, v: View, keys: seq<seq<byte>>, d: byte)
    requires Placed(nodes, v, keys)
    ensures nodes[0].table[d] == if d == A then 1 else if d == B then CellOf(2) else 0
  {
    assert HangsOff(nodes, v, 1) && LinksFit(nodes, v, 0) && RowsFit(nodes, v, 0) && Stored(nodes, v, keys, 2);
    var t := nodes[0].table[d];
    if t > 0 {
      assert v.prefix[t] == [] + [d];
    }
  }

  lemma {:induction false} ChildCell(nodes: seq<Node>, v: View, keys: seq<seq<byte>>, d: byte)
    requires Placed(nodes, v, keys)
    ensures nodes[1].table[d] == if d == 0 then CellOf(0) else if d == A then CellOf(1) else 0
  {
    assert LinksFit(nodes, v, 1) && RowsFit(nodes, v, 1) && Stored(nodes, v, keys, 0) && Stored(nodes, v, keys, 1);
  }

  lemma {:induction false} OnlyFork(w: seq<byte>, keys: seq<seq<byte>>)
    requires keys == [[A, 0], [A, A, 0], [B, 0]] && Fork(w, keys) && w != []
    ensures w == [A]
  {
    var q, r :| 0 <= q < r < |keys| && Inside(w, q, keys) && Inside(w, r, keys);
    assert w[0] == keys[q][0] == keys[r][0];
  }

  /** Where the three names are stored. */
  lemma {:induction false} Slots(nodes: seq<Node>, v: View, keys: seq<seq<byte>>)
    requires keys == [[A, 0], [A, A, 0], [B, 0]] && Tree(nodes, v) && Holds(nodes, v, keys) && StoredUpTo(v, 3)
    requires forall k | 0 < k < |nodes| :: v.prefix[k] == [A]
    ensures |nodes| == 2 && v.slot[0] == Slot(1, 0) && v.slot[1] == Slot(1, A) && v.slot[2] == Slot(0, B)
  {
    assert Stored(nodes, v, keys, 0) && Stored(nodes, v, keys, 1) && Stored(nodes, v, keys, 2);
    if |nodes| > 2 {
      SamePrefix(v, 1, 2);
    }
    forall r: nat | r < 3 ensures v.slot[r].node == 0 ==> v.slot[r].at == keys[r][0] {
      var s := v.slot[r];
      assert (v.prefix[s.node] + [s.at])[|v.prefix[s.node]|] == s.at;
    }
    forall r: nat | r < 3
      ensures v.slot[r].node > 0 ==> |keys[r]| > 1 && keys[r][0] == A && v.slot[r].at == keys[r][1]
    {
      var s := v.slot[r];
      assert (v.prefix[s.node] + [s.at])[|v.prefix[s.node]|] == s.at;
    }
    if |nodes| == 2 {
      assert HangsOff(nodes, v, 1);
    }
  }

  lemma {:induction false} ThreeLetters(a: Alphabet)
    requires Numbered(a) && forall c | 0 <= c < 256 :: a.usage[c] <==> c == 0 || c == A || c == B
    ensures |a.usage| == |a.idx| == 256 && a.count == 3 && a.idx[0] == 0 && a.idx[A] == 1 && a.idx[B] == 2
  {
    RankGap(a.usage, 1, A);
    RankGap(a.usage, B + 1, |a.usage|);
  }

  lemma {:induction false} ThreeUsed(tr: Trace)
    requires Three(tr)
    ensures |tr.trie| == 2 && tr.trie[0].used == 3 && tr.trie[1].used == 2
  {
    hide Numbered, Covers, Valid, Unpacked, SortedPrefix, GotOffsets, Packed, Linked, Forked;
    ThreeTrie(tr);
    var s, t := tr.trie[0].table, tr.trie[1].table;
    WeightGap(s, 0, A, 2);
    WeightGap(s, B + 1, |s|, 2);
    WeightGap(t, 1, A, 2);
    WeightGap(t, A + 1, |t|, 2);
    TwoCells(s, A, 2);
    TwoCells(s, B, 2);
    TwoCells(t, 0, 2);
    TwoCells(t, A, 2);
  }

  lemma {:induction false} TwoCells(t: seq<short>, c: nat, link: nat)
    requires c < |t|
    ensures Weight(t, 0, link) == 0 && Weight(t, c + 1, link) == Weight(t, c, link) + CellWeight(t[c], link)
  {
  }

  /** The second node collides with the first wherever it is tried. */
  lemma {:induction false} ThreeSaturated(tr: Trace)
    requires Three(tr)
    ensures tr.order == [0, 1] && !Packable(tr)
  {
    hide Valid, Weighed, Unpacked, GotOffsets, Packed, Linked, Forked, Rank;
    var a, keys := tr.alphabet, [[A, 0], [A, A, 0], [B, 0]];
    assert forall c | 0 <= c < 256 :: a.usage[c] <==> c in keys[0] || c in keys[1] || c in keys[2];
    ThreeLetters(a);
    ThreeTrie(tr);
    ThreeUsed(tr);
    assert Precedes(tr.trie, tr.order[0], tr.order[1]);
    var tables := Lineup(tr);
    assert tables == [tr.trie[0].table, tr.trie[1].table];
    forall i: nat, o: nat | 0 < i < 2 && o < i * a.count ensures Collides(a, tables, Stack(i, a.count), o) {
      assert Stack(i, a.count)[0] == 0;
      if o == 0 {
        Collide(a, tables, A, A, o);
      } else if o == 1 {
        Collide(a, tables, A, 0, o);
      } else {
        Collide(a, tables, B, 0, o);
      }
    }
  }

  lemma {:induction false} Collide(a: Alphabet, tables: seq<Table>, c: byte, d: byte, o: nat)
    requires Sized(a) && |tables| == 2 && InUse(a, tables[0], c) && InUse(a, tables[1], d) && a.idx[c] == a.idx[d] + o
    ensures |Stack(1, a.count)| == 1 && Collides(a, tables, Stack(1, a.count), o)
  {
    var p: nat := a.idx[c];
    assert Stack(1, a.count)[0] == 0;
    CellToPlace(a, tables[0], 0, |tables[0]|, c);
    CellToPlace(a, tables[1], o, |tables[1]|, d);
    assert p in AllPlaces(a, tables[0], Stack(1, a.count)[0]);
    assert Taken(a, tables, Stack(1, a.count), p) && p in AllPlaces(a, tables[1], o);
  }

  /** And yet the assertion passes: the link it overwrites is stored as 0. */
  lemma {:induction false} ThreePasses(tr: Trace)
    requires Three(tr)
    ensures OffsetsFit(tr) && Quiet(tr.alphabet, tr.packed)
  {
    hide Valid, Weighed, Numbered, Saturated, Forked, Precedes, FirstFit, Bounded;
    var a, keys := tr.alphabet, [[A, 0], [A, A, 0], [B, 0]];
    Sizes(a);
    ThreeTrie(tr);
    ThreeSaturated(tr);
    StackedTrace(tr, keys, 2);
    LeftOutIff(a, Lineup(tr), tr.offs);
    assert |tr.offs| == 1 && tr.offs[0] == tr.packed[0].offset == 0;
    assert tr.offs[..|tr.offs| - 1] == [] && MaxOf(tr.offs) == 0;
    forall j: nat, c: byte, k: nat, d: byte, p: nat
      | j < k && Writes(a, tr.packed, j, c, p) && Writes(a, tr.packed, k, d, p)
      ensures Value(tr.packed, tr.packed[j].table[c]) == 0
    {
      OnlyEndsShare(a, tr.packed, tr.order, j, c, k, d, p);
    }
  }

  /** For "a", "aa" and "b" the generator succeeds, and its lookup does not find "a". */
  method GenerateThree() returns (result: Generated, found: int)
    ensures result.Generated? && Walkable(result.ix, 3)
    ensures FindName(ThreeNames(), [A], 0) == 0 && found == -1 == NameFound(ThreeNames(), result.ix, [A])
  {
    hide Sound, Forked, Covers, Built, Quiet, Packable, NamesAgree, Walkable, NameFound, LongestCommon;
    ThreeKeys();
    ThreeFit();
    ghost var tr, skip;
    result, tr, skip := StringIndex(ThreeNames());
    ThreePasses(tr);
    AMissing(result.ix, tr, result.maxoffset);
    found := IdxFromString(ThreeNames(), [], result.ix, [A], []);
  }

  lemma {:induction false} ThreeFit()
    ensures NamesFit(ThreeNames())
  {
    hide LongestCommon;
    ThreeKeys();
    var keys := [[A, 0], [A, A, 0], [B, 0]];
    forall w | w in Forks(keys) ensures w in {[A]} {
      NotEmpty(keys, w);
      OnlyFork(w, keys);
    }
    SubsetSize(Forks(keys), {[A]});
  }

  lemma {:induction false} NotEmpty(keys: seq<seq<byte>>, w: seq<byte>)
    requires w in AllPrefixes(keys)
    ensures w != []
  {
    if w !in Prefixes(keys[|keys| - 1]) {
      NotEmpty(keys[..|keys| - 1], w);
    }
  }

  lemma {:induction false} AMissing(ix: Index, tr: Trace, maxoffset: nat)
    requires Three(tr) && ix.skip == 0
             && Built(ix, [[A, 0], [A, A, 0], [B, 0]], tr.packed, tr.view, tr.alphabet, maxoffset)
    ensures Walkable(ix, 3) && FindName(ThreeNames(), [A], 0) == 0 && NameFound(ThreeNames(), ix, [A]) == -1
  {
    hide Sound, Covers, Built, Quiet, Packable, NamesAgree, Walkable, NameFound, Forked, Stacked;
    var keys := [[A, 0], [A, A, 0], [B, 0]];
    assert |ThreeNames()| == 3;
    ThreeKeys();
    ThreeTrie(tr);
    ThreeSaturated(tr);
    StackedTrace(tr, keys, 2);
    var r := NameLost(ThreeNames(), ix, tr.packed, tr.view, tr.alphabet, maxoffset, tr.order);
    assert keys[r] == [A, 0];
  }
}
