/**
 Exactly when the offset search of `compresstable` leaves the last node out.
 */
module Saturation {
  import opened Bytes
  import opened Trie
  import opened Alphabet
  import opened Generator
  import opened Pack

  /** Tables stacked one alphabet above the other. */
  ghost function Stack(n: nat, count: nat): seq<nat> {
    seq(n, j requires 0 <= j < n => j * count)
  }

  /** On the stack of its predecessors, every table collides everywhere below the top. */
  ghost predicate Saturated(a: Alphabet, tables: seq<Table>)
    requires |a.usage| == |a.idx| == 256
  {
    forall i: nat, o: nat | 0 < i < |tables| && o < i * a.count :: Collides(a, tables, Stack(i, a.count), o)
  }

  /** No two nodes take the same place. */
  ghost predicate Apart(a: Alphabet, nodes: seq<Node>)
    requires |a.usage| == |a.idx| == 256
  {
    forall j, k | 0 <= j < k < |nodes| ::
      AllPlaces(a, nodes[j].table, nodes[j].offset) !! AllPlaces(a, nodes[k].table, nodes[k].offset)
  }

  lemma {:induction false} FitsPrefix(a: Alphabet, tables: seq<Table>, offs: seq<nat>, m: nat)
    requires Numbered(a) && |offs| <= |tables| && m <= |offs| && FirstFit(a, tables, offs) && Bounded(offs, a.count)
    ensures FirstFit(a, tables, offs[..m]) && Bounded(offs[..m], a.count)
  {
    hide Numbered, Collides;
    Sizes(a);
    forall j | 0 <= j < m
      ensures !Collides(a, tables, offs[..m][..j], offs[..m][j])
      ensures forall o: nat | o < offs[..m][j] :: Collides(a, tables, offs[..m][..j], o)
    {
      assert offs[..m][..j] == offs[..j];
    }
  }

  /** In a saturated list first fit can do no better than stacking. */
  lemma {:induction false} SaturatedStacks(a: Alphabet, tables: seq<Table>, offs: seq<nat>)
    requires Numbered(a) && Saturated(a, tables)
    requires |offs| <= |tables| && FirstFit(a, tables, offs) && Bounded(offs, a.count)
    ensures offs == Stack(|offs|, a.count)
  {
    hide Numbered, Collides;
    Sizes(a);
    if offs != [] {
      var m := |offs| - 1;
      FitsPrefix(a, tables, offs, m);
      SaturatedStacks(a, tables, offs[..m]);
      assert offs[..m] == Stack(m, a.count);
      assert !Collides(a, tables, Stack(m, a.count), offs[m]);
      assert offs[m] <= m * a.count;
      assert m == 0 ==> m * a.count == 0;
      assert offs == offs[..m] + [offs[m]];
    }
  }

  /** Once a table sits lower than its stack position, the place below the top is free. */
  lemma {:induction false} Slack(a: Alphabet, tables: seq<Table>, offs: seq<nat>, j: nat)
    requires Numbered(a) && |offs| < |tables| && FirstFit(a, tables, offs) && Bounded(offs, a.count)
    requires j < |offs| && offs[j] < j * a.count
    ensures 0 < |offs| * a.count && !Collides(a, tables, offs, |offs| * a.count - 1)
  {
    var m := |offs| - 1;
    ProductGrows(m, |offs|, a.count);
    if j < m {
      FitsPrefix(a, tables, offs, m);
      Slack(a, tables, offs[..m], j);
      assert offs[m] <= m * a.count - 1 by {
        assert forall o: nat | o < offs[m] :: Collides(a, tables, offs[..m], o);
      }
    }
    var top := |offs| * a.count - 1;
    if Collides(a, tables, offs, top) {
      var p :| p in AllPlaces(a, tables[|offs|], top) && Taken(a, tables, offs, p);
      PlacesBelow(a, tables[|offs|], top, p);
      var i :| 0 <= i < |offs| && p in AllPlaces(a, tables[i], offs[i]);
      PlacesBelow(a, tables[i], offs[i], p);
      if i < m {
        ProductGrows(i, m, a.count);
      }
    }
  }

  /** The last table is left out exactly when the list is saturated. */
  lemma {:induction false} LeftOutIff(a: Alphabet, tables: seq<Table>, offs: seq<nat>)
    requires Numbered(a) && 0 < a.count && Packed(a, tables, offs)
    ensures |offs| < |tables| <==> Saturated(a, tables)
  {
    if |offs| < |tables| {
      if j :| 0 <= j < |offs| && offs[j] < j * a.count {
        Slack(a, tables, offs, j);
      }
      assert offs == Stack(|offs|, a.count);
      forall i: nat, o: nat | 0 < i < |tables| && o < i * a.count ensures Collides(a, tables, Stack(i, a.count), o) {
        assert Stack(i, a.count) == offs[..i];
        if i < |offs| {
          assert o < offs[i];
        } else {
          assert offs[..i] == offs;
        }
      }
    } else if Saturated(a, tables) {
      SaturatedStacks(a, tables, offs);
    }
  }

  lemma {:induction false} PlacedApart(a: Alphabet, tables: seq<Table>, offs: seq<nat>, i: nat, j: nat)
    requires |a.usage| == |a.idx| == 256 && |offs| <= |tables| && FirstFit(a, tables, offs) && i < j < |offs|
    ensures AllPlaces(a, tables[i], offs[i]) !! AllPlaces(a, tables[j], offs[j])
  {
    assert !Collides(a, tables, offs[..j], offs[j]);
    forall p | p in AllPlaces(a, tables[i], offs[i]) ensures p !in AllPlaces(a, tables[j], offs[j]) {
      assert offs[..j][i] == offs[i];
      assert Taken(a, tables, offs[..j], p);
    }
  }

  /** After packing, nodes keep apart exactly when there is one node or the list is not saturated. */
  lemma {:induction false} ApartIff(a: Alphabet, before: seq<Node>, after: seq<Node>, order: seq<nat>, offs: seq<nat>)
    requires Numbered(a) && 0 < a.count && Unpacked(before)
    requires SortedPrefix(before, order, |before|) && GotOffsets(before, after, order, offs)
    requires Packed(a, Tables(before, order), offs)
    ensures Apart(a, after) <==> |before| == 1 || !Saturated(a, Tables(before, order))
  {
    hide Numbered, Precedes, Bounded, Saturated;
    Sizes(a);
    var tables := Tables(before, order);
    LeftOutIff(a, tables, offs);
    if |offs| == |tables| {
      forall j, k | 0 <= j < k < |after|
        ensures AllPlaces(a, after[j].table, after[j].offset) !! AllPlaces(a, after[k].table, after[k].offset)
      {
        var x, y := Position(order, j), Position(order, k);
        if x < y {
          PlacedApart(a, tables, offs, x, y);
        } else {
          PlacedApart(a, tables, offs, y, x);
        }
      }
    } else if |before| > 1 {
      LimitIs(|tables|, a.count);
      assert 0 < Limit(|tables|, a.count) by { ProductGrows(0, |tables| - 1, a.count); }
      assert Collides(a, tables, offs, 0);
      var p :| p in AllPlaces(a, tables[|offs|], 0) && Taken(a, tables, offs, p);
      var i :| 0 <= i < |offs| && p in AllPlaces(a, tables[i], offs[i]);
      SharePlace(a, after, order[i], order[|offs|], p) by {
        assert order[i] != order[|offs|] by { InOrder(before, order, i, |offs|); }
      }
    }
  }

  lemma {:induction false} InOrder(nodes: seq<Node>, order: seq<nat>, i: nat, j: nat)
    requires SortedPrefix(nodes, order, |nodes|) && i < j < |order|
    ensures order[i] != order[j]
  {
    assert Precedes(nodes, order[i], order[j]);
  }

  lemma {:induction false} SharePlace(a: Alphabet, nodes: seq<Node>, j: nat, k: nat, p: nat)
    requires |a.usage| == |a.idx| == 256 && j < |nodes| && k < |nodes| && j != k
    requires p in AllPlaces(a, nodes[j].table, nodes[j].offset) && p in AllPlaces(a, nodes[k].table, nodes[k].offset)
    ensures !Apart(a, nodes)
  {
    var x, y := if j < k then j else k, if j < k then k else j;
    assert !(AllPlaces(a, nodes[x].table, nodes[x].offset) !! AllPlaces(a, nodes[y].table, nodes[y].offset));
  }

  ghost function Position(order: seq<nat>, k: nat): (x: nat)
    requires k in order
    ensures x < |order| && order[x] == k
  {
    var x :| 0 <= x < |order| && order[x] == k; x
  }

  /** A one-letter alphabet saturates every list: all tables compete for the same cell. */
  lemma {:induction false} OneLetter(a: Alphabet, tables: seq<Table>, c: byte)
    requires Numbered(a) && a.count == 1 && a.usage[c]
    requires forall j | 0 <= j < |tables| :: tables[j][c] != 0
    ensures Saturated(a, tables)
  {
    NumbersDiffer(a, c, c);
    forall i: nat, o: nat | 0 < i < |tables| && o < i * a.count ensures Collides(a, tables, Stack(i, a.count), o) {
      CellToPlace(a, tables[i], o, |tables[i]|, c);
      CellToPlace(a, tables[o], o, |tables[o]|, c);
      assert Stack(i, a.count)[o] == o;
      assert Taken(a, tables, Stack(i, a.count), o);
    }
  }
}
