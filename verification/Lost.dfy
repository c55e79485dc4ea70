/**
 A table built from a saturated list loses a row: some lookup that the scan
 answers comes back empty.  Together with `Lookup` this gives the exact
 condition under which the emitted functions are right.
 */
module Lost {
  import opened Bytes
  import opened MechTable
  import opened Trie
  import opened Alphabet
  import opened Generator
  import opened Pack
  import opened Saturation
  import opened Emit
  import opened Walk
  import opened Lookup
  import opened Spoilt

  /** A table was emitted from a stacked list; the two ends share byte `c`. */
  ghost predicate Wreck(ix: Index, keys: seq<seq<byte>>, nodes: seq<Node>, v: View, a: Alphabet, maxoffset: nat,
                        order: seq<nat>, c: byte) {
    && Built(ix, keys, nodes, v, a, maxoffset) && Stacked(a, nodes, order)
    && InUse(a, nodes[order[0]].table, c) && InUse(a, nodes[order[|order| - 1]].table, c)
  }

  lemma {:induction false} Wrecked(ix: Index, keys: seq<seq<byte>>, nodes: seq<Node>, v: View, a: Alphabet,
                                   maxoffset: nat, order: seq<nat>)
    returns (c: byte)
    requires Built(ix, keys, nodes, v, a, maxoffset) && Stacked(a, nodes, order)
    ensures Wreck(ix, keys, nodes, v, a, maxoffset, order, c)
  {
    hide Quiet, LastWins, Valid, Stacked;
    c := EndsCollide(a, nodes, order);
  }

  /** The upper end links to the lower one, and both are read at offset 0. */
  lemma {:induction false} Ends(ix: Index, keys: seq<seq<byte>>, nodes: seq<Node>, v: View, a: Alphabet, maxoffset: nat,
                                order: seq<nat>, c: byte)
    requires Wreck(ix, keys, nodes, v, a, maxoffset, order, c)
    ensures 1 < |order| && var u, w := Upper(order), Lower(order);
            && u < w < |nodes| == |v.prefix| && nodes[u].table[c] == w && nodes[w].table[c] != 0
            && v.prefix[w] == v.prefix[u] + [c]
            && nodes[u].offset == 0 && nodes[w].offset == 0
            && (forall k | 0 <= k < |nodes| && k != u && k != w :: !IsEnd(order, k) && nodes[k].offset > 0)
  {
    hide Quiet, LastWins, Numbered, Tables, Spelled, Holds;
    Sizes(a);
    var u, w := Upper(order), Lower(order);
    QuietEnds(a, nodes, order, v, keys, c);
    EndsLow(a, nodes, order, u);
    EndsLow(a, nodes, order, w);
    assert LinksFit(nodes, v, u);
    forall k | 0 <= k < |nodes| && k != u && k != w ensures !IsEnd(order, k) && nodes[k].offset > 0 {
      OthersHigh(a, nodes, order, k);
    }
  }

  // ---- What is read where ----

  /** A node between the ends shows its cells, and nothing where it has none. */
  lemma {:induction false} ReadOwn(ix: Index, keys: seq<seq<byte>>, nodes: seq<Node>, v: View, a: Alphabet,
                                   maxoffset: nat, order: seq<nat>, c: byte,
                k: nat, d: byte)
    requires Wreck(ix, keys, nodes, v, a, maxoffset, order, c) && k < |nodes| && !IsEnd(order, k) && a.usage[d]
    ensures ReadsOn(ix, nodes[k].offset)
    ensures Cell(ix, nodes[k].offset, d) == if nodes[k].table[d] == 0 then 0 else Value(nodes, nodes[k].table[d])
  {
    hide Numbered, Valid, Stacked, Value, Quiet;
    Sizes(a);
    AllBelow(ix, keys, nodes, v, a, maxoffset);
    NumbersDiffer(a, d, d);
    var p := nodes[k].offset + a.idx[d];
    if nodes[k].table[d] != 0 {
      assert Writes(a, nodes, k, d, p);
      forall j: nat, e: byte | k < j ensures !Writes(a, nodes, j, e, p) {
        if Writes(a, nodes, j, e, p) {
          OnlyEndsShare(a, nodes, order, k, d, j, e, p);
        }
      }
      assert LastAt(a, nodes, k, d, p);
    } else if ix.table[p] != 0 {
      var j: nat, e: byte :| Writes(a, nodes, j, e, p);
      NumbersDiffer(a, e, d);
      SameLevel(a, nodes, order, j, a.idx[e], k, a.idx[d]);
    }
  }

  lemma {:induction false} AllBelow(ix: Index, keys: seq<seq<byte>>, nodes: seq<Node>, v: View, a: Alphabet,
                                    maxoffset: nat)
    requires Built(ix, keys, nodes, v, a, maxoffset)
    ensures forall k | 0 <= k < |nodes| :: ReadsOn(ix, nodes[k].offset)
    ensures ReadsOn(ix, 0)
  {
    hide Numbered, Valid, LastWins, Quiet;
    Sizes(a);
    forall d: byte ensures a.idx[d] < a.count {
      BelowCount(a, d);
    }
  }

  /** At offset 0 the lower end's cells show, and the upper end's where the lower has none. */
  lemma {:induction false} ReadEnds(ix: Index, keys: seq<seq<byte>>, nodes: seq<Node>, v: View, a: Alphabet,
                                    maxoffset: nat, order: seq<nat>, c: byte,
                 d: byte)
    requires Wreck(ix, keys, nodes, v, a, maxoffset, order, c) && a.usage[d]
    ensures ReadsOn(ix, 0) && 1 < |order| && Upper(order) < |nodes| && Lower(order) < |nodes|
    ensures var u, w := nodes[Upper(order)].table[d], nodes[Lower(order)].table[d];
            Cell(ix, 0, d) == if w != 0 then Value(nodes, w) else if u != 0 then Value(nodes, u) else 0
  {
    hide Numbered, Valid, Stacked, Value, Quiet;
    Sizes(a);
    Ends(ix, keys, nodes, v, a, maxoffset, order, c);
    AllBelow(ix, keys, nodes, v, a, maxoffset);
    NumbersDiffer(a, d, d);
    var u, w, p: nat := Upper(order), Lower(order), a.idx[d];
    forall j: nat, e: byte | Writes(a, nodes, j, e, p) ensures (j == u || j == w) && e == d {
      NumbersDiffer(a, e, d);
      SameLevel(a, nodes, order, j, a.idx[e], u, a.idx[d]);
    }
    if nodes[w].table[d] != 0 {
      assert LastAt(a, nodes, w, d, p);
    } else if nodes[u].table[d] != 0 {
      assert LastAt(a, nodes, u, d, p);
    }
  }

  // ---- Names ----

  ghost predicate StringWreck(rows: seq<Row>, ix: Index, nodes: seq<Node>, v: View, a: Alphabet, maxoffset: nat,
                              order: seq<nat>, c: byte) {
    && Shares(rows, ix.skip) && Wreck(ix, StringKeys(rows, ix.skip), nodes, v, a, maxoffset, order, c)
    && Forked(v, StringKeys(rows, ix.skip)) && DistinctNames(rows, |rows|)
  }

  /** The bytes of the keys are used. */
  lemma {:induction false} KeyUsed(rows: seq<Row>, ix: Index, nodes: seq<Node>, v: View, a: Alphabet, maxoffset: nat,
                                   order: seq<nat>, c: byte,
                r: nat, i: nat)
    requires StringWreck(rows, ix, nodes, v, a, maxoffset, order, c) && r < |rows| && i < |StringKeys(rows, ix.skip)[r]|
    ensures Sized(a) && a.usage[StringKeys(rows, ix.skip)[r][i]]
    ensures ix.skip + i <= |rows[r].str| && CharAt(rows[r].str, ix.skip + i) == StringKeys(rows, ix.skip)[r][i]
    ensures ix.skip + i == |rows[r].str| <==> StringKeys(rows, ix.skip)[r][i] == 0
  {
    hide Stacked, Valid, Quiet, LastWins, Numbered, Forked;
    Sizes(a);
  }

  /** Every node but the first in packing order holds the row that ends there. */
  lemma {:induction false} RowEndsHere(rows: seq<Row>, ix: Index, nodes: seq<Node>, v: View, a: Alphabet,
                                       maxoffset: nat, order: seq<nat>, c: byte,
                    k: nat) returns (r: nat)
    requires StringWreck(rows, ix, nodes, v, a, maxoffset, order, c) && k < |nodes| && 0 < |order| && k != order[0]
    ensures r < |rows| && nodes[k].table[0] == CellOf(r) && |v.prefix| == |nodes|
            && StringKeys(rows, ix.skip)[r] == v.prefix[k] + [0]
    ensures r in v.slot && v.slot[r] == Slot(k, 0) && Sized(a) && a.usage[0]
  {
    hide Stacked, Quiet, LastWins, Numbered, Forked, DistinctNames;
    Sizes(a);
    var keys := StringKeys(rows, ix.skip);
    var b := LowCell(a, nodes, order, k);
    var n := |keys[0]| - 1;
    assert keys[0][n] == 0 && a.usage[keys[0][n]];
    LowestIsNul(a, b);
    assert LinksFit(nodes, v, k) && RowsFit(nodes, v, k);
    var t := nodes[k].table[0];
    if t > 0 {
      assert Inside(v.prefix[t], v.via[t], keys);
      var q, i := v.via[t], |v.prefix[k]|;
      assert keys[q][i] == v.prefix[t][i] == 0;
      KeyUsed(rows, ix, nodes, v, a, maxoffset, order, c, q, i);
    } else {
      r := RowOf(t);
      assert Stored(nodes, v, keys, r);
      var i := |v.prefix[k]|;
      assert keys[r][i] == (v.prefix[k] + [0])[i] == 0;
      KeyUsed(rows, ix, nodes, v, a, maxoffset, order, c, r, i);
      assert keys[r] == v.prefix[k] + [0];
    }
  }

  lemma {:induction false} LowestIsNul(a: Alphabet, b: byte)
    requires Numbered(a) && a.usage[0] && a.usage[b] && a.idx[b] == 0
    ensures b == 0
  {
    assert a.idx[0] == Rank(a.usage, 0) == 0;
    NumbersDiffer(a, b, 0);
  }

  /** The walk of a name that goes through the upper end gets there. */
  lemma {:induction false} WalkToUpper(rows: seq<Row>, ix: Index, nodes: seq<Node>, v: View, a: Alphabet,
                                       maxoffset: nat,
                                       order: seq<nat>, c: byte, r: nat, i: nat) returns (n: nat)
    requires StringWreck(rows, ix, nodes, v, a, maxoffset, order, c) && Walkable(ix, |rows|) && r < |rows|
    requires 1 < |order| && Upper(order) < |v.prefix| == |nodes|
    requires v.prefix[Upper(order)] <= StringKeys(rows, ix.skip)[r] && i <= |v.prefix[Upper(order)]|
    ensures n < |nodes| && v.prefix[n] == v.prefix[Upper(order)][..i] && ReadsOn(ix, nodes[n].offset)
    ensures NameFound(rows, ix, rows[r].str) == NameFrom(rows, ix, rows[r].str, ix.skip + i, nodes[n].offset)
  {
    hide Stacked, Quiet, LastWins, Numbered, Forked, DistinctNames, Holds, Spelled, Walkable;
    var keys, u := StringKeys(rows, ix.skip), Upper(order);
    AllBelow(ix, keys, nodes, v, a, maxoffset);
    WalkStarts(ix, |rows|);
    if i == 0 {
      n := 0;
    } else {
      var m := WalkToUpper(rows, ix, nodes, v, a, maxoffset, order, c, r, i - 1);
      Ends(ix, keys, nodes, v, a, maxoffset, order, c);
      KeyUsed(rows, ix, nodes, v, a, maxoffset, order, c, r, i - 1);
      Onward(nodes, v, u, m, i - 1);
      n := nodes[m].table[keys[r][i - 1]];
      ReadOwn(ix, keys, nodes, v, a, maxoffset, order, c, m, keys[r][i - 1]);
    }
  }

  /** A walk that reads the value of another row does not find this one. */
  lemma {:induction false} WrongRow(rows: seq<Row>, ix: Index, r: nat, i: nat, o: nat, q: nat)
    requires Walkable(ix, |rows|) && ReadsOn(ix, o) && r < |rows| && q != r && i <= |rows[r].str|
    requires Cell(ix, o, CharAt(rows[r].str, i)) == CellOf(q)
    ensures NameFrom(rows, ix, rows[r].str, i, o) != r
  {
    hide Walkable;
  }

  /** A walk that reads an offset goes on from there. */
  lemma {:induction false} GoesOn(rows: seq<Row>, ix: Index, r: nat, i: nat, o: nat, x: nat)
    requires Walkable(ix, |rows|) && ReadsOn(ix, o) && r < |rows| && i <= |rows[r].str|
    requires Cell(ix, o, CharAt(rows[r].str, i)) == x
    ensures ReadsOn(ix, x) && NameFrom(rows, ix, rows[r].str, i, o) == NameFrom(rows, ix, rows[r].str, i + 1, x)
  {
    hide Walkable, ReadsOn;
    CellSafe(ix, |rows|, o, CharAt(rows[r].str, i));
  }

  lemma {:induction false} NodeFits(nodes: seq<Node>, v: View, keys: seq<seq<byte>>, k: nat)
    requires Valid(nodes, v, keys) && k < |nodes|
    ensures |nodes| == |v.prefix| && LinksFit(nodes, v, k) && RowsFit(nodes, v, k)
  {
  }

  /** At the upper end the walk is led past the lower one. */
  lemma {:induction false} LedAstray(rows: seq<Row>, ix: Index, nodes: seq<Node>, v: View, a: Alphabet, maxoffset: nat,
                  order: seq<nat>, c: byte, r: nat)
    requires StringWreck(rows, ix, nodes, v, a, maxoffset, order, c) && Walkable(ix, |rows|) && r < |rows|
    requires 1 < |order| && Lower(order) < |v.prefix| == |nodes|
             && Inside(v.prefix[Lower(order)], r, StringKeys(rows, ix.skip))
    ensures var w, i := Lower(order), ix.skip + |v.prefix[Lower(order)]|;
            var t := nodes[w].table[c];
            && 0 < |v.prefix[w]| && t != 0 && t < |nodes|
            && if t < 0 then RowOf(t) != r ==> NameFound(rows, ix, rows[r].str) != r
               else
                 && ReadsOn(ix, nodes[t].offset)
                 && NameFound(rows, ix, rows[r].str) == NameFrom(rows, ix, rows[r].str, i, nodes[t].offset)
  {
    hide Stacked, Quiet, LastWins, Numbered, Forked, DistinctNames, Spelled, Walkable;
    var keys, u, w := StringKeys(rows, ix.skip), Upper(order), Lower(order);
    Ends(ix, keys, nodes, v, a, maxoffset, order, c);
    AllBelow(ix, keys, nodes, v, a, maxoffset);
    var i := |v.prefix[u]|;
    assert v.prefix[w][..i] == v.prefix[u] && v.prefix[w][i] == c;
    assert v.prefix[u] == keys[r][..i] && keys[r][i] == c;
    var n := WalkToUpper(rows, ix, nodes, v, a, maxoffset, order, c, r, i);
    SamePrefix(v, n, u);
    KeyUsed(rows, ix, nodes, v, a, maxoffset, order, c, r, i);
    ReadEnds(ix, keys, nodes, v, a, maxoffset, order, c, c);
    assert LinksFit(nodes, v, w);
    if nodes[w].table[c] < 0 && RowOf(nodes[w].table[c]) != r {
      WrongRow(rows, ix, r, ix.skip + i, 0, RowOf(nodes[w].table[c]));
    }
  }

  /** When the lower end is not first in packing order, the row that ends there is lost. */
  lemma {:induction false} LosesShort(rows: seq<Row>, ix: Index, nodes: seq<Node>, v: View, a: Alphabet, maxoffset: nat,
                                      order: seq<nat>, c: byte) returns (r: nat)
    requires StringWreck(rows, ix, nodes, v, a, maxoffset, order, c) && Walkable(ix, |rows|)
    requires 1 < |order| && Lower(order) != order[0]
    ensures r < |rows| && NameFound(rows, ix, rows[r].str) != r
    ensures Lower(order) < |v.prefix| && StringKeys(rows, ix.skip)[r] == v.prefix[Lower(order)] + [0]
  {
    hide Stacked, Quiet, LastWins, Numbered, Forked, DistinctNames, Walkable, NameFound;
    var keys, w := StringKeys(rows, ix.skip), Lower(order);
    Ends(ix, keys, nodes, v, a, maxoffset, order, c);
    r := RowEndsHere(rows, ix, nodes, v, a, maxoffset, order, c, w);
    LedAstray(rows, ix, nodes, v, a, maxoffset, order, c, r);
    var i, t := |v.prefix[w]|, nodes[w].table[c];
    assert RowsFit(nodes, v, w) && LinksFit(nodes, v, w);
    assert keys[r][i] == 0;
    KeyUsed(rows, ix, nodes, v, a, maxoffset, order, c, r, i);
    assert c != 0 by { KeyUsed(rows, ix, nodes, v, a, maxoffset, order, c, r, i - 1); }
    if t > 0 {
      DeeperIsNoEnd(ix, keys, nodes, v, a, maxoffset, order, c, t);
      var q := RowEndsHere(rows, ix, nodes, v, a, maxoffset, order, c, t);
      ReadOwn(ix, keys, nodes, v, a, maxoffset, order, c, t, 0);
      WrongRow(rows, ix, r, ix.skip + i, nodes[t].offset, q);
    }
  }

  /** A node below the lower end is neither end. */
  lemma {:induction false} DeeperIsNoEnd(ix: Index, keys: seq<seq<byte>>, nodes: seq<Node>, v: View, a: Alphabet,
                                         maxoffset: nat,
                                         order: seq<nat>, c: byte, t: nat)
    requires Wreck(ix, keys, nodes, v, a, maxoffset, order, c) && t < |nodes| == |v.prefix|
    requires 1 < |order| && Lower(order) < |nodes| && |v.prefix[t]| > |v.prefix[Lower(order)]|
    ensures !IsEnd(order, t) && t != order[0]
  {
    hide Stacked, Quiet, LastWins, Numbered, Valid;
    Ends(ix, keys, nodes, v, a, maxoffset, order, c);
    assert t != Upper(order) && t != Lower(order);
  }

  /** When it is first, a row further down is lost. */
  lemma {:induction false} LosesDeep(rows: seq<Row>, ix: Index, nodes: seq<Node>, v: View, a: Alphabet, maxoffset: nat,
                                     order: seq<nat>, c: byte) returns (r: nat)
    requires StringWreck(rows, ix, nodes, v, a, maxoffset, order, c) && Walkable(ix, |rows|)
    requires 1 < |order| && Lower(order) == order[0]
    ensures r < |rows| && NameFound(rows, ix, rows[r].str) != r
  {
    hide Stacked, Quiet, LastWins, Numbered, Forked, DistinctNames, Walkable, NameFound;
    var keys, w := StringKeys(rows, ix.skip), Lower(order);
    Ends(ix, keys, nodes, v, a, maxoffset, order, c);
    var t := nodes[w].table[c];
    assert RowsFit(nodes, v, w) && LinksFit(nodes, v, w);
    if t < 0 {
      r := AnotherRow(v, keys, w, RowOf(t));
      LedAstray(rows, ix, nodes, v, a, maxoffset, order, c, r);
    } else {
      DeeperIsNoEnd(ix, keys, nodes, v, a, maxoffset, order, c, t);
      r := RowEndsHere(rows, ix, nodes, v, a, maxoffset, order, c, t);
      LosesBelow(rows, ix, nodes, v, a, maxoffset, order, c, r);
    }
  }

  lemma {:induction false} AnotherRow(v: View, keys: seq<seq<byte>>, k: nat, q: nat) returns (r: nat)
    requires Forked(v, keys) && 0 < k < |v.prefix|
    ensures r != q && r < |keys| && Inside(v.prefix[k], r, keys)
  {
    assert Fork(v.prefix[k], keys);
    var x, y :| 0 <= x < y < |keys| && Inside(v.prefix[k], x, keys) && Inside(v.prefix[k], y, keys);
    r := if x == q then y else x;
  }

  /** The walk of the name that ends two bytes below the upper end strays in every case. */
  lemma {:induction false} LosesBelow(rows: seq<Row>, ix: Index, nodes: seq<Node>, v: View, a: Alphabet, maxoffset: nat,
                                      order: seq<nat>, c: byte, r: nat)
    requires StringWreck(rows, ix, nodes, v, a, maxoffset, order, c) && Walkable(ix, |rows|) && r < |rows|
    requires 1 < |order| && Lower(order) == order[0] && Lower(order) < |nodes| == |v.prefix|
    requires var t := nodes[Lower(order)].table[c];
             && 0 < t < |nodes| && !IsEnd(order, t) && v.prefix[t] == v.prefix[Lower(order)] + [c]
             && StringKeys(rows, ix.skip)[r] == v.prefix[t] + [0] && r in v.slot && v.slot[r] == Slot(t, 0)
    ensures NameFound(rows, ix, rows[r].str) != r
  {
    hide Stacked, Quiet, LastWins, Numbered, Forked, DistinctNames, Walkable, NameFound, NameFrom, Valid, ReadsOn,
         Shares;
    var keys, u, w := StringKeys(rows, ix.skip), Upper(order), Lower(order);
    Ends(ix, keys, nodes, v, a, maxoffset, order, c);
    AllBelow(ix, keys, nodes, v, a, maxoffset);
    var i, t := |v.prefix[w]|, nodes[w].table[c];
    assert keys[r][..i] == v.prefix[w] && keys[r][i] == c && keys[r][i + 1] == 0;
    LedAstray(rows, ix, nodes, v, a, maxoffset, order, c, r);
    KeyUsed(rows, ix, nodes, v, a, maxoffset, order, c, r, i);
    KeyUsed(rows, ix, nodes, v, a, maxoffset, order, c, r, i + 1);
    ReadOwn(ix, keys, nodes, v, a, maxoffset, order, c, t, c);
    NodeFits(nodes, v, keys, t);
    var s := nodes[t].table[c];
    if s < 0 {
      WrongRow(rows, ix, r, ix.skip + i, nodes[t].offset, RowOf(s));
    } else if s > 0 {
      DeeperIsNoEnd(ix, keys, nodes, v, a, maxoffset, order, c, s);
      var q := RowEndsHere(rows, ix, nodes, v, a, maxoffset, order, c, s);
      ReadOwn(ix, keys, nodes, v, a, maxoffset, order, c, s, 0);
      GoesOn(rows, ix, r, ix.skip + i, nodes[t].offset, nodes[s].offset);
      WrongRow(rows, ix, r, ix.skip + i + 1, nodes[s].offset, q);
    } else {
      var q := RowEndsHere(rows, ix, nodes, v, a, maxoffset, order, c, u);
      ReadEnds(ix, keys, nodes, v, a, maxoffset, order, c, 0);
      QuietAtNul(ix, keys, nodes, v, a, maxoffset, order, c);
      GoesOn(rows, ix, r, ix.skip + i, nodes[t].offset, 0);
      WrongRow(rows, ix, r, ix.skip + i + 1, 0, q);
    }
  }

  /** The ends share only one byte. */
  lemma {:induction false} QuietAtNul(ix: Index, keys: seq<seq<byte>>, nodes: seq<Node>, v: View, a: Alphabet,
                                      maxoffset: nat,
                                      order: seq<nat>, c: byte)
    requires Wreck(ix, keys, nodes, v, a, maxoffset, order, c) && 1 < |order| && Upper(order) < |nodes|
             && Lower(order) < |nodes|
    requires nodes[Upper(order)].table[0] < 0 && Sized(a) && a.usage[0]
    ensures nodes[Lower(order)].table[0] == 0
  {
    hide Stacked, Quiet, LastWins, Numbered, Valid;
    if nodes[Lower(order)].table[0] != 0 {
      QuietEnds(a, nodes, order, v, keys, 0);
    }
  }

  /** The string table of a saturated list loses a name: the scan finds it and the lookup does not. */
  lemma {:induction false} NameLost(rows: seq<Row>, ix: Index, nodes: seq<Node>, v: View, a: Alphabet, maxoffset: nat,
                                    order: seq<nat>)
    returns (r: nat)
    requires Shares(rows, ix.skip) && Built(ix, StringKeys(rows, ix.skip), nodes, v, a, maxoffset)
             && Stacked(a, nodes, order)
    requires Forked(v, StringKeys(rows, ix.skip)) && DistinctNames(rows, |rows|)
    ensures r < |rows| && Walkable(ix, |rows|)
    ensures FindName(rows, rows[r].str, 0) == r && NameFound(rows, ix, rows[r].str) == -1
    ensures Lower(order) != order[0] ==>
              Lower(order) < |v.prefix| && StringKeys(rows, ix.skip)[r] == v.prefix[Lower(order)] + [0]
  {
    hide Quiet, LastWins, Numbered, Forked, Walkable, NameFound, Saturated, Valid;
    var keys := StringKeys(rows, ix.skip);
    ReadsInside(ix, keys, nodes, v, a, maxoffset);
    var c := Wrecked(ix, keys, nodes, v, a, maxoffset, order);
    if Lower(order) != order[0] {
      r := LosesShort(rows, ix, nodes, v, a, maxoffset, order, c);
    } else {
      r := LosesDeep(rows, ix, nodes, v, a, maxoffset, order, c);
    }
    OnlyOne(rows, r);
  }

  lemma {:induction false} OnlyOne(rows: seq<Row>, r: nat)
    requires DistinctNames(rows, |rows|) && r < |rows|
    ensures FindName(rows, rows[r].str, 0) == r
    ensures forall q | 0 <= q < |rows| && rows[q].str == rows[r].str :: q == r
  {
  }

  // ---- Numbers ----

  ghost predicate NumericWreck(rows: seq<Row>, ix: Index, nodes: seq<Node>, v: View, a: Alphabet, maxoffset: nat,
                               order: seq<nat>, c: byte) {
    Wreck(ix, NumericKeys(rows), nodes, v, a, maxoffset, order, c) && AtLeaves(v, NumericKeys(rows))
  }

  /** Rows are stored at depth three, links above. */
  lemma {:induction false} ByDepth(rows: seq<Row>, nodes: seq<Node>, v: View, k: nat, d: byte)
    requires Valid(nodes, v, NumericKeys(rows)) && AtLeaves(v, NumericKeys(rows)) && k < |nodes|
    ensures |nodes| == |v.prefix| && |v.prefix[k]| <= 3
    ensures if |v.prefix[k]| == 3 then nodes[k].table[d] <= 0 else nodes[k].table[d] >= 0
    ensures nodes[k].table[d] > 0 ==> nodes[k].table[d] < |nodes| && |v.prefix[nodes[k].table[d]]| == |v.prefix[k]| + 1
  {
    hide AtLeaves, Octet;
    var keys := NumericKeys(rows);
    assert Inside(v.prefix[k], v.via[k], keys) && LinksFit(nodes, v, k) && RowsFit(nodes, v, k);
    var t := nodes[k].table[d];
    if t > 0 {
      assert Inside(v.prefix[t], v.via[t], keys);
    } else if t < 0 {
      LeafDepth(v, keys, RowOf(t)) by { assert Stored(nodes, v, keys, RowOf(t)); }
    }
  }

  /** On the way to the upper end every read is right. */
  lemma {:induction false} StepToUpper(rows: seq<Row>, ix: Index, nodes: seq<Node>, v: View, a: Alphabet,
                                       maxoffset: nat,
                                       order: seq<nat>, c: byte, r: nat, m: nat) returns (n: nat)
    requires NumericWreck(rows, ix, nodes, v, a, maxoffset, order, c) && r < |rows| && m < |nodes| == |v.prefix|
    requires 1 < |order| && Upper(order) < |nodes|
    requires var i, u := |v.prefix[m]|, v.prefix[Upper(order)];
             i < |u| <= 3 && v.prefix[m] == u[..i] && u == NumericKey(rows[r].numeric)[..|u|]
    ensures n < |nodes| && v.prefix[n] == v.prefix[Upper(order)][..|v.prefix[m]| + 1]
    ensures ReadsOn(ix, nodes[m].offset)
            && Cell(ix, nodes[m].offset, NumericKey(rows[r].numeric)[|v.prefix[m]|]) == nodes[n].offset
  {
    hide Stacked, Quiet, LastWins, Numbered, AtLeaves, Octet, Holds, Spelled;
    var keys, u, i := NumericKeys(rows), Upper(order), |v.prefix[m]|;
    Ends(ix, keys, nodes, v, a, maxoffset, order, c);
    Onward(nodes, v, u, m, i);
    n := nodes[m].table[keys[r][i]];
    assert keys[r][i] == v.prefix[u][i];
    ReadOwn(ix, keys, nodes, v, a, maxoffset, order, c, m, keys[r][i]);
  }

  /** Above depth three, what is read at offset 0 is no row. */
  lemma {:induction false} NoRowAtEnds(rows: seq<Row>, ix: Index, nodes: seq<Node>, v: View, a: Alphabet,
                                       maxoffset: nat,
                                       order: seq<nat>, c: byte, d: byte)
    requires NumericWreck(rows, ix, nodes, v, a, maxoffset, order, c) && Sized(a) && a.usage[d]
    requires 1 < |order| && Lower(order) < |v.prefix| && |v.prefix[Lower(order)]| <= 2
    ensures ReadsOn(ix, 0) && Cell(ix, 0, d) >= 0
    ensures Cell(ix, 0, d) == 0
            || exists k: nat :: k < |nodes| == |v.prefix| && Cell(ix, 0, d) == nodes[k].offset
                                && |v.prefix[k]| <= |v.prefix[Lower(order)]| + 1
  {
    hide Stacked, Quiet, LastWins, Numbered, AtLeaves, Octet, Valid;
    var keys := NumericKeys(rows);
    Ends(ix, keys, nodes, v, a, maxoffset, order, c);
    ReadEnds(ix, keys, nodes, v, a, maxoffset, order, c, d);
    ByDepth(rows, nodes, v, Upper(order), d);
    ByDepth(rows, nodes, v, Lower(order), d);
  }

  /** Reading a node between the ends: a row only at depth three, otherwise a deeper node or 0. */
  lemma {:induction false} ReadByDepth(rows: seq<Row>, ix: Index, nodes: seq<Node>, v: View, a: Alphabet,
                                       maxoffset: nat,
                                       order: seq<nat>, c: byte, k: nat, d: byte)
    requires NumericWreck(rows, ix, nodes, v, a, maxoffset, order, c) && Sized(a) && a.usage[d]
             && k < |nodes| == |v.prefix|
    requires !IsEnd(order, k)
    ensures ReadsOn(ix, nodes[k].offset) && |v.prefix[k]| <= 3
    ensures var x, t := Cell(ix, nodes[k].offset, d), nodes[k].table[d];
            if |v.prefix[k]| == 3 then x <= 0
            else x == 0 || (0 < t < |nodes| && x == nodes[t].offset && |v.prefix[t]| == |v.prefix[k]| + 1)
  {
    hide Stacked, Quiet, LastWins, Numbered, AtLeaves, Octet, Valid;
    ReadOwn(ix, NumericKeys(rows), nodes, v, a, maxoffset, order, c, k, d);
    ByDepth(rows, nodes, v, k, d);
  }

  /** From a node no deeper than two, the last read finds no row. */
  lemma {:induction false} NoRowHere(rows: seq<Row>, ix: Index, nodes: seq<Node>, v: View, a: Alphabet, maxoffset: nat,
                                     order: seq<nat>, c: byte, k: nat, d: byte)
    requires NumericWreck(rows, ix, nodes, v, a, maxoffset, order, c) && Sized(a) && a.usage[d]
             && k < |nodes| == |v.prefix|
    requires 1 < |order| && Lower(order) < |v.prefix| && |v.prefix[Lower(order)]| <= 2 && |v.prefix[k]| <= 2
    ensures ReadsOn(ix, nodes[k].offset) && Cell(ix, nodes[k].offset, d) >= 0
  {
    hide Stacked, Quiet, LastWins, Numbered, AtLeaves, Octet, Valid;
    Ends(ix, NumericKeys(rows), nodes, v, a, maxoffset, order, c);
    if IsEnd(order, k) {
      NoRowAtEnds(rows, ix, nodes, v, a, maxoffset, order, c, d);
    } else {
      ReadByDepth(rows, ix, nodes, v, a, maxoffset, order, c, k, d);
    }
  }

  /** The reads of a number from a given read on, as in the emitted function. */
  ghost function Rest(rows: seq<Row>, ix: Index, mech: nat, i: nat, o: nat): int
    requires Walkable(ix, |rows|) && ReadsOn(ix, o) && i < 4
    decreases 4 - i
  {
    var x := Cell(ix, o, NumericKey(mech)[i]);
    if i < 3 then if x < 0 then -1 else Rest(rows, ix, mech, i + 1, x)
    else if x < 0 && rows[RowOf(x)].numeric == mech then RowOf(x) else -1
  }

  lemma {:induction false} RestIsAll(rows: seq<Row>, ix: Index, mech: nat)
    requires Walkable(ix, |rows|)
    ensures ReadsOn(ix, ix.root) && NumberFound(rows, ix, mech) == Rest(rows, ix, mech, 0, ix.root)
  {
    hide Octet, Walkable;
    WalkStarts(ix, |rows|);
    var o1 := Cell(ix, ix.root, Octet(mech, 3));
    CellSafe(ix, |rows|, ix.root, Octet(mech, 3));
    if o1 >= 0 {
      CellSafe(ix, |rows|, o1, Octet(mech, 2));
      var o2 := Cell(ix, o1, Octet(mech, 2));
      if o2 >= 0 {
        CellSafe(ix, |rows|, o2, Octet(mech, 1));
        assert Rest(rows, ix, mech, 2, o2)
               == var o3 := Cell(ix, o2, Octet(mech, 1)); if o3 < 0 then -1 else Rest(rows, ix, mech, 3, o3);
      }
    }
  }

  lemma {:induction false} NextRead(rows: seq<Row>, ix: Index, mech: nat, i: nat, o: nat)
    requires Walkable(ix, |rows|) && ReadsOn(ix, o) && i < 4
    ensures var x := Cell(ix, o, NumericKey(mech)[i]);
            && (x >= 0 ==> ReadsOn(ix, x))
            && Rest(rows, ix, mech, i, o) == if i < 3 then if x < 0 then -1 else Rest(rows, ix, mech, i + 1, x)
                                             else if x < 0 && rows[RowOf(x)].numeric == mech then RowOf(x) else -1
  {
    hide Octet, Walkable;
    CellSafe(ix, |rows|, o, NumericKey(mech)[i]);
  }

  /** Up to the upper end the walk of a number below it is right. */
  lemma {:induction false} RestAtUpper(rows: seq<Row>, ix: Index, nodes: seq<Node>, v: View, a: Alphabet,
                                       maxoffset: nat,
                                       order: seq<nat>, c: byte, r: nat, m: nat)
    requires NumericWreck(rows, ix, nodes, v, a, maxoffset, order, c) && Walkable(ix, |rows|) && r < |rows|
             && m < |nodes| == |v.prefix|
    requires 1 < |order| && Upper(order) < |nodes| && ReadsOn(ix, nodes[m].offset)
    requires var i, u := |v.prefix[m]|, v.prefix[Upper(order)];
             i <= |u| <= 3 && v.prefix[m] == u[..i] && u == NumericKey(rows[r].numeric)[..|u|]
    ensures ReadsOn(ix, 0)
    ensures Rest(rows, ix, rows[r].numeric, |v.prefix[m]|, nodes[m].offset)
         == Rest(rows, ix, rows[r].numeric, |v.prefix[Upper(order)]|, 0)
    decreases |v.prefix[Upper(order)]| - |v.prefix[m]|
  {
    hide Stacked, Quiet, LastWins, Numbered, AtLeaves, Octet, Walkable, Rest, Holds, Spelled, ReadsOn;
    var u := Upper(order);
    Ends(ix, NumericKeys(rows), nodes, v, a, maxoffset, order, c);
    if |v.prefix[m]| == |v.prefix[u]| {
      SamePrefix(v, m, u);
    } else {
      var n := StepToUpper(rows, ix, nodes, v, a, maxoffset, order, c, r, m);
      NextRead(rows, ix, rows[r].numeric, |v.prefix[m]|, nodes[m].offset);
      RestAtUpper(rows, ix, nodes, v, a, maxoffset, order, c, r, n);
    }
  }

  /** The numeric table of a saturated list loses every number below the lower end. */
  lemma {:induction false} NumberLost(rows: seq<Row>, ix: Index, nodes: seq<Node>, v: View, a: Alphabet, maxoffset: nat,
                                      order: seq<nat>)
    returns (r: nat)
    requires Built(ix, NumericKeys(rows), nodes, v, a, maxoffset) && Stacked(a, nodes, order)
             && AtLeaves(v, NumericKeys(rows))
    ensures r < |rows| && Walkable(ix, |rows|)
    ensures FindNumber(rows, rows[r].numeric, 0) >= 0 && NumberFound(rows, ix, rows[r].numeric) == -1
  {
    hide Quiet, LastWins, Numbered, AtLeaves, Octet, Walkable, Saturated, Rest, NumberFound, ReadsOn, Tree, Holds;
    var keys := NumericKeys(rows);
    ReadsInside(ix, keys, nodes, v, a, maxoffset);
    var c := Wrecked(ix, keys, nodes, v, a, maxoffset, order);
    Ends(ix, keys, nodes, v, a, maxoffset, order, c);
    Rooted(nodes, v, keys);
    var u, w := Upper(order), Lower(order);
    r := v.via[w];
    assert Inside(v.prefix[w], r, keys);
    var q := |v.prefix[u]|;
    assert v.prefix[u] == v.prefix[w][..q] == keys[r][..q] && keys[r][q] == c;
    RestIsAll(rows, ix, rows[r].numeric);
    RestAtUpper(rows, ix, nodes, v, a, maxoffset, order, c, r, 0);
    StraysFromUpper(rows, ix, nodes, v, a, maxoffset, order, c, r);
  }

  /** Whatever the depth of the upper end, the remaining reads find nothing. */
  lemma {:induction false} StraysFromUpper(rows: seq<Row>, ix: Index, nodes: seq<Node>, v: View, a: Alphabet,
                                           maxoffset: nat,
                                           order: seq<nat>, c: byte, r: nat)
    requires NumericWreck(rows, ix, nodes, v, a, maxoffset, order, c) && Walkable(ix, |rows|) && r < |rows|
             && ReadsOn(ix, 0)
    requires 1 < |order| && Upper(order) < |v.prefix| == |nodes| && Lower(order) < |nodes|
    requires var q := |v.prefix[Upper(order)]|;
             |v.prefix[Lower(order)]| == q + 1 <= 3 && NumericKey(rows[r].numeric)[q] == c
    ensures Rest(rows, ix, rows[r].numeric, |v.prefix[Upper(order)]|, 0) == -1
  {
    hide Stacked, Quiet, LastWins, Numbered, AtLeaves, Octet, Walkable, Rest, Valid, ReadsOn;
    var keys, w, q, mech := NumericKeys(rows), Lower(order), |v.prefix[Upper(order)]|, rows[r].numeric;
    Ends(ix, keys, nodes, v, a, maxoffset, order, c);
    UsedBytes(rows, ix, nodes, v, a, maxoffset, order, c, r);
    ReadEnds(ix, keys, nodes, v, a, maxoffset, order, c, c);
    ByDepth(rows, nodes, v, w, c);
    NextRead(rows, ix, mech, q, 0);
    var t := nodes[w].table[c];
    if q < 2 {
      DeeperIsNoEnd(ix, keys, nodes, v, a, maxoffset, order, c, t);
      StraysBelow(rows, ix, nodes, v, a, maxoffset, order, c, r, t);
    }
  }

  lemma {:induction false} UsedBytes(rows: seq<Row>, ix: Index, nodes: seq<Node>, v: View, a: Alphabet, maxoffset: nat,
                                     order: seq<nat>, c: byte, r: nat)
    requires NumericWreck(rows, ix, nodes, v, a, maxoffset, order, c) && r < |rows|
    ensures Sized(a) && forall i | 0 <= i < 4 :: a.usage[NumericKey(rows[r].numeric)[i]]
  {
    hide Stacked, Quiet, LastWins, Numbered, AtLeaves, Octet, Valid;
    Sizes(a);
    var keys := NumericKeys(rows);
    assert forall i | 0 <= i < |keys[r]| :: a.usage[keys[r][i]];
  }

  /** From two levels below the upper end, one byte too early. */
  lemma {:induction false} StraysBelow(rows: seq<Row>, ix: Index, nodes: seq<Node>, v: View, a: Alphabet,
                                       maxoffset: nat,
                                       order: seq<nat>, c: byte, r: nat, t: nat)
    requires NumericWreck(rows, ix, nodes, v, a, maxoffset, order, c) && Walkable(ix, |rows|) && r < |rows|
    requires 1 < |order| && Upper(order) < |v.prefix| == |nodes| && Lower(order) < |nodes| && t < |nodes|
             && !IsEnd(order, t)
    requires var q := |v.prefix[Upper(order)]|; |v.prefix[Lower(order)]| == q + 1 <= 2 && |v.prefix[t]| == q + 2
    ensures ReadsOn(ix, nodes[t].offset)
    ensures Rest(rows, ix, rows[r].numeric, |v.prefix[Upper(order)]| + 1, nodes[t].offset) == -1
  {
    hide Stacked, Quiet, LastWins, Numbered, AtLeaves, Octet, Walkable, Rest, Valid, ReadsOn;
    var keys, q, mech := NumericKeys(rows), |v.prefix[Upper(order)]|, rows[r].numeric;
    UsedBytes(rows, ix, nodes, v, a, maxoffset, order, c, r);
    ReadByDepth(rows, ix, nodes, v, a, maxoffset, order, c, t, NumericKey(mech)[q + 1]);
    NextRead(rows, ix, mech, q + 1, nodes[t].offset);
    CellSafe(ix, |rows|, nodes[t].offset, NumericKey(mech)[q + 1]);
    var x := Cell(ix, nodes[t].offset, NumericKey(mech)[q + 1]);
    if x == 0 {
      StraysAtEnds(rows, ix, nodes, v, a, maxoffset, order, c, r);
    } else if q == 0 {
      var s := nodes[t].table[NumericKey(mech)[1]];
      DeeperIsNoEnd(ix, keys, nodes, v, a, maxoffset, order, c, s);
      ReadByDepth(rows, ix, nodes, v, a, maxoffset, order, c, s, NumericKey(mech)[2]);
      NextRead(rows, ix, mech, 2, nodes[s].offset);
      NoRowAtEnds(rows, ix, nodes, v, a, maxoffset, order, c, NumericKey(mech)[3]);
      NextRead(rows, ix, mech, 3, 0);
    }
  }

  /** Back at offset 0 with one or two bytes left. */
  lemma {:induction false} StraysAtEnds(rows: seq<Row>, ix: Index, nodes: seq<Node>, v: View, a: Alphabet,
                                        maxoffset: nat,
                                        order: seq<nat>, c: byte, r: nat)
    requires NumericWreck(rows, ix, nodes, v, a, maxoffset, order, c) && Walkable(ix, |rows|) && r < |rows|
    requires 1 < |order| && Upper(order) < |v.prefix| == |nodes| && Lower(order) < |nodes|
    requires var q := |v.prefix[Upper(order)]|; |v.prefix[Lower(order)]| == q + 1 <= 2
    ensures ReadsOn(ix, 0) && Rest(rows, ix, rows[r].numeric, |v.prefix[Upper(order)]| + 2, 0) == -1
  {
    hide Stacked, Quiet, LastWins, Numbered, AtLeaves, Octet, Walkable, Rest, Valid, ReadsOn;
    var q, mech := |v.prefix[Upper(order)]|, rows[r].numeric;
    UsedBytes(rows, ix, nodes, v, a, maxoffset, order, c, r);
    var d := NumericKey(mech)[q + 2];
    NoRowAtEnds(rows, ix, nodes, v, a, maxoffset, order, c, d);
    NextRead(rows, ix, mech, q + 2, 0);
    if q == 0 {
      CellSafe(ix, |rows|, 0, d);
      var x, e := Cell(ix, 0, d), NumericKey(mech)[3];
      NextRead(rows, ix, mech, 3, x);
      if x == 0 {
        NoRowAtEnds(rows, ix, nodes, v, a, maxoffset, order, c, e);
      } else {
        var k: nat :| k < |nodes| && x == nodes[k].offset && |v.prefix[k]| <= 2;
        NoRowHere(rows, ix, nodes, v, a, maxoffset, order, c, k, e);
      }
    }
  }
}
