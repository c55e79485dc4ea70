/**
 What becomes of a saturated list: the last node is left at offset 0, under the
 first one, and the emitted table does not show the trie.
 */
module Spoilt {
  import opened Bytes
  import opened MechTable
  import opened Trie
  import opened Alphabet
  import opened Generator
  import opened Pack
  import opened Saturation
  import opened Emit

  /** The nodes are stacked one alphabet apart in packing order, and the last one lies under the first. */
  ghost predicate Stacked(a: Alphabet, nodes: seq<Node>, order: seq<nat>)
    requires |a.usage| == |a.idx| == 256
  {
    && 1 < |nodes| == |order| && Distinct(order)
    && (forall j | 0 <= j < |order| :: order[j] < |nodes|) && (forall k | 0 <= k < |nodes| :: k in order)
    && Saturated(a, Tables(nodes, order))
    && (forall j | 0 <= j < |order| - 1 :: nodes[order[j]].offset == j * a.count)
    && nodes[order[|order| - 1]].offset == 0
  }

  predicate IsEnd(order: seq<nat>, k: nat) {
    0 < |order| && (k == order[0] || k == order[|order| - 1])
  }

  /** A saturated list is left stacked. */
  lemma {:induction false} SaturatedIsStacked(a: Alphabet, before: seq<Node>, after: seq<Node>, order: seq<nat>,
                                              offs: seq<nat>)
    requires Numbered(a) && 0 < a.count && Unpacked(before) && 1 < |before|
    requires SortedPrefix(before, order, |before|) && GotOffsets(before, after, order, offs)
    requires Packed(a, Tables(before, order), offs) && Saturated(a, Tables(before, order))
    ensures Sized(a) && Stacked(a, after, order)
  {
    hide Numbered, Precedes, Saturated, FirstFit, Bounded;
    Sizes(a);
    var tables := Tables(before, order);
    LeftOutIff(a, tables, offs);
    SaturatedStacks(a, tables, offs);
    assert Tables(after, order) == tables;
    forall i, j | 0 <= i < j < |order| ensures order[i] != order[j] {
      InOrder(before, order, i, j);
    }
  }

  predicate Sized(a: Alphabet) { |a.usage| == |a.idx| == 256 }

  /** Places at the same height belong to the same level, and only the two ends share one. */
  lemma {:induction false} SameLevel(a: Alphabet, nodes: seq<Node>, order: seq<nat>, j: nat, x: nat, k: nat, y: nat)
    requires Sized(a) && Stacked(a, nodes, order) && j < |nodes| && k < |nodes| && x < a.count && y < a.count
    requires x + nodes[j].offset == y + nodes[k].offset
    ensures x == y && nodes[j].offset == nodes[k].offset
    ensures j == k || (IsEnd(order, j) && IsEnd(order, k))
  {
    hide Saturated;
    var p, q := Position(order, j), Position(order, k);
    var m := |order| - 1;
    var s, t := if p < m then p else 0, if q < m then q else 0;
    assert nodes[j].offset == s * a.count && nodes[k].offset == t * a.count;
    if s < t {
      ProductGrows(s, t, a.count);
    } else if t < s {
      ProductGrows(t, s, a.count);
    }
  }

  /** Only the two ends write to the same place, and with the same byte. */
  lemma {:induction false} OnlyEndsShare(a: Alphabet, nodes: seq<Node>, order: seq<nat>, j: nat, c: byte, k: nat,
                                         d: byte, p: nat)
    requires Numbered(a) && Stacked(a, nodes, order) && j != k && Writes(a, nodes, j, c, p) && Writes(a, nodes, k, d, p)
    ensures IsEnd(order, j) && IsEnd(order, k) && c == d && p == a.idx[c]
  {
    hide Numbered, Stacked;
    Sizes(a);
    NumbersDiffer(a, c, d);
    NumbersDiffer(a, d, c);
    SameLevel(a, nodes, order, j, a.idx[c], k, a.idx[d]);
    EndsLow(a, nodes, order, j);
  }

  lemma {:induction false} EndsLow(a: Alphabet, nodes: seq<Node>, order: seq<nat>, k: nat)
    requires Sized(a) && Stacked(a, nodes, order) && IsEnd(order, k)
    ensures k < |nodes| && nodes[k].offset == 0
  {
    hide Saturated;
  }

  /** Every other node lies above them. */
  lemma {:induction false} OthersHigh(a: Alphabet, nodes: seq<Node>, order: seq<nat>, k: nat)
    requires Sized(a) && 0 < a.count && Stacked(a, nodes, order) && k < |nodes| && !IsEnd(order, k)
    ensures nodes[k].offset > 0
  {
    hide Saturated;
    var p := Position(order, k);
    ProductGrows(0, p, a.count);
  }

  /** The two ends do share a place. */
  lemma {:induction false} EndsCollide(a: Alphabet, nodes: seq<Node>, order: seq<nat>) returns (c: byte)
    requires Numbered(a) && 0 < a.count && Stacked(a, nodes, order)
    ensures InUse(a, nodes[order[0]].table, c) && InUse(a, nodes[order[|order| - 1]].table, c)
  {
    hide Numbered, Distinct;
    Sizes(a);
    var m, tables := |order| - 1, Tables(nodes, order);
    ProductGrows(0, m, a.count);
    assert Collides(a, tables, Stack(m, a.count), 0);
    var p :| p in AllPlaces(a, tables[m], 0) && Taken(a, tables, Stack(m, a.count), p);
    var j :| 0 <= j < m && p in AllPlaces(a, tables[j], Stack(m, a.count)[j]);
    c := PlaceToCell(a, tables[m], 0, |tables[m]|, p);
    var d := PlaceToCell(a, tables[j], j * a.count, |tables[j]|, p);
    NumbersDiffer(a, c, d);
    NumbersDiffer(a, d, c);
    if j > 0 {
      ProductGrows(0, j, a.count);
    }
  }

  /** Every node but the first has a cell for the lowest letter. */
  lemma {:induction false} LowCell(a: Alphabet, nodes: seq<Node>, order: seq<nat>, k: nat) returns (c: byte)
    requires Numbered(a) && 0 < a.count && Stacked(a, nodes, order) && k < |nodes| && k != order[0]
    ensures InUse(a, nodes[k].table, c) && a.idx[c] == 0
  {
    hide Numbered, Distinct;
    Sizes(a);
    var i, tables := Position(order, k), Tables(nodes, order);
    ProductGrows(0, i, a.count);
    var o: nat := i * a.count - 1;
    assert Collides(a, tables, Stack(i, a.count), o);
    var p :| p in AllPlaces(a, tables[i], o) && Taken(a, tables, Stack(i, a.count), p);
    var j :| 0 <= j < i && p in AllPlaces(a, tables[j], Stack(i, a.count)[j]);
    c := PlaceToCell(a, tables[i], o, |tables[i]|, p);
    PlacesBelow(a, tables[j], j * a.count, p);
    ProductGrows(j, i, a.count);
  }

  // ---- The two values at the shared place ----

  /** The cells that the two ends have at one byte never show the same. */
  lemma {:induction false} ValuesDiffer(a: Alphabet, nodes: seq<Node>, order: seq<nat>, v: View, keys: seq<seq<byte>>,
                                        j: nat, k: nat, c: byte)
    requires Numbered(a) && 0 < a.count && Stacked(a, nodes, order) && Valid(nodes, v, keys) && Linked(nodes)
    requires (forall n | 0 <= n < |nodes| :: nodes[n].offset <= 32767)
    requires j != k && IsEnd(order, j) && IsEnd(order, k) && j < |nodes| && k < |nodes|
    requires nodes[j].table[c] != 0 && nodes[k].table[c] != 0
    ensures Value(nodes, nodes[j].table[c]) != Value(nodes, nodes[k].table[c])
  {
    hide Numbered, Stacked, Spelled;
    Sizes(a);
    assert LinksFit(nodes, v, j) && LinksFit(nodes, v, k) && RowsFit(nodes, v, j) && RowsFit(nodes, v, k);
    var s, t := nodes[j].table[c], nodes[k].table[c];
    if s > 0 && t > 0 {
      assert |v.prefix[s]| == |v.prefix[j]| + 1 && |v.prefix[t]| == |v.prefix[k]| + 1;
      AppendDiffers(v.prefix[j], v.prefix[k], c) by { assert Distinct(v.prefix); }
      if nodes[s].offset == nodes[t].offset {
        SameLevel(a, nodes, order, s, 0, t, 0);
      }
    }
  }

  lemma {:induction false} AppendDiffers(x: seq<byte>, y: seq<byte>, c: byte)
    requires x != y
    ensures x + [c] != y + [c]
  {
    assert (x + [c])[..|x|] == x && (y + [c])[..|y|] == y;
  }

  /** Two cells that show at the same place show the same. */
  lemma {:induction false} ShownAlike(a: Alphabet, nodes: seq<Node>, res: seq<short>, j: nat, k: nat, c: byte)
    requires Sized(a) && Emitted(a, nodes, res) && j < |nodes| && k < |nodes| && nodes[j].offset == nodes[k].offset
    requires InUse(a, nodes[j].table, c) && InUse(a, nodes[k].table, c)
    ensures Value(nodes, nodes[j].table[c]) == Value(nodes, nodes[k].table[c])
  {
    hide Filled, Value;
    assert Shows(a, nodes, res, j, 256) && Shows(a, nodes, res, k, 256);
  }

  /** So the table cannot show the trie. */
  lemma {:induction false} NotEmitted(a: Alphabet, nodes: seq<Node>, order: seq<nat>, v: View, keys: seq<seq<byte>>,
                                      res: seq<short>)
    requires Numbered(a) && 0 < a.count && Stacked(a, nodes, order) && Valid(nodes, v, keys)
    requires (forall n | 0 <= n < |nodes| :: nodes[n].offset <= 32767)
    ensures !Emitted(a, nodes, res)
  {
    hide Numbered, Valid, Value, Filled, Saturated;
    Sizes(a);
    if Emitted(a, nodes, res) {
      var c := EndsCollide(a, nodes, order);
      var j, k := order[0], order[|order| - 1];
      ShownAlike(a, nodes, res, j, k, c);
      ValuesDiffer(a, nodes, order, v, keys, j, k, c);
    }
  }

  /** If the assertion passes nevertheless, the earlier end links to the later one at the one byte they share. */
  lemma {:induction false} QuietEnds(a: Alphabet, nodes: seq<Node>, order: seq<nat>, v: View, keys: seq<seq<byte>>,
                                     c: byte)
    requires Numbered(a) && 0 < a.count && Stacked(a, nodes, order) && Valid(nodes, v, keys) && Linked(nodes)
    requires (forall n | 0 <= n < |nodes| :: nodes[n].offset <= 32767) && Quiet(a, nodes)
    requires InUse(a, nodes[order[0]].table, c) && InUse(a, nodes[order[|order| - 1]].table, c)
    ensures nodes[Upper(order)].table[c] == Lower(order)
  {
    hide Numbered, Spelled, Holds, Saturated;
    Sizes(a);
    var u, w := Upper(order), Lower(order);
    EndsLow(a, nodes, order, u);
    EndsLow(a, nodes, order, w);
    assert Writes(a, nodes, u, c, a.idx[c]) && Writes(a, nodes, w, c, a.idx[c]);
    var t := nodes[u].table[c];
    assert Value(nodes, t) == 0;
    assert LinksFit(nodes, v, u);
    if !IsEnd(order, t) {
      OthersHigh(a, nodes, order, t);
    }
  }

  /** The end with the lower number, which is written first. */
  function Upper(order: seq<nat>): nat
    requires 0 < |order|
  {
    if order[0] < order[|order| - 1] then order[0] else order[|order| - 1]
  }

  function Lower(order: seq<nat>): nat
    requires 0 < |order|
  {
    if order[0] < order[|order| - 1] then order[|order| - 1] else order[0]
  }
}
