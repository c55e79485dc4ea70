/**
 When the emitted table shows the trie exactly, both lookups agree with the
 scans for every query.
 */
module Lookup {
  import opened Bytes
  import opened MechTable
  import opened Trie
  import opened Alphabet
  import opened Generator
  import opened Pack
  import opened Emit
  import opened Walk

  // ---- What the generator leaves behind ----

  /** An index emitted for a trie that holds exactly the rows; nodes may have been written over each other. */
  ghost predicate Built(ix: Index, keys: seq<seq<byte>>, nodes: seq<Node>, v: View, a: Alphabet, maxoffset: nat) {
    && Numbered(a) && 0 < a.count && a.idx == ix.alphabet
    && (forall r, i | 0 <= r < |keys| && 0 <= i < |keys[r]| :: a.usage[keys[r][i]])
    && Valid(nodes, v, keys) && StoredUpTo(v, |keys|) && Linked(nodes)
    && (forall k | 0 <= k < |nodes| :: nodes[k].offset <= maxoffset)
    && maxoffset <= 32767
    && |ix.table| == maxoffset + a.count
    && Quiet(a, nodes) && LastWins(a, nodes, ix.table)
    && ix.root == nodes[0].offset
  }

  /** And the table shows every cell. */
  ghost predicate Faithful(ix: Index, keys: seq<seq<byte>>, nodes: seq<Node>, v: View, a: Alphabet, maxoffset: nat) {
    Built(ix, keys, nodes, v, a, maxoffset) && Emitted(a, nodes, ix.table)
  }

  /** Every read stays inside the table, whatever the byte and wherever the walk got to. */
  lemma {:induction false} ReadsInside(ix: Index, keys: seq<seq<byte>>, nodes: seq<Node>, v: View, a: Alphabet,
                                       maxoffset: nat)
    requires Built(ix, keys, nodes, v, a, maxoffset)
    ensures Walkable(ix, |keys|)
  {
    hide Rank, Valid, Numbered, LastWins, Quiet;
    Sizes(a);
    forall c: byte ensures a.idx[c] < a.count {
      BelowCount(a, c);
    }
    Rooted(nodes, v, keys);
    forall p | 0 <= p < |ix.table|
      ensures if ix.table[p] < 0 then RowOf(ix.table[p]) < |keys| else ReadsOn(ix, ix.table[p])
    {
      if ix.table[p] != 0 {
        var k, c := LastWriter(a, nodes, ix.table, p);
        if nodes[k].table[c] < 0 {
          RowInCell(nodes, v, keys, k, c);
        }
      }
    }
  }

  /** A place that is not 0 shows the last cell written to it. */
  lemma {:induction false} LastWriter(a: Alphabet, nodes: seq<Node>, res: seq<short>, p: nat) returns (k: nat, c: byte)
    requires Numbered(a) && Linked(nodes) && LastWins(a, nodes, res) && p < |res| && res[p] != 0
    ensures LastAt(a, nodes, k, c, p) && res[p] == Value(nodes, nodes[k].table[c])
  {
    hide Numbered, Value;
    Sizes(a);
    k, c :| Writes(a, nodes, k, c, p);
    k, c := LastAfter(a, nodes, k, c, p);
  }

  lemma {:induction false} LastAfter(a: Alphabet, nodes: seq<Node>, k: nat, c: byte, p: nat) returns (l: nat, d: byte)
    requires |a.usage| == |a.idx| == 256 && Writes(a, nodes, k, c, p)
    ensures LastAt(a, nodes, l, d, p)
    decreases |nodes| - k
  {
    if LastAt(a, nodes, k, c, p) {
      l, d := k, c;
    } else {
      var j: nat, e: byte :| k < j && Writes(a, nodes, j, e, p);
      l, d := LastAfter(a, nodes, j, e, p);
    }
  }

  lemma {:induction false} BelowCount(a: Alphabet, c: byte)
    requires Numbered(a) && 0 < a.count
    ensures a.idx[c] < a.count
  {
    if a.usage[c] {
      NumbersDiffer(a, c, c);
    }
  }

  lemma {:induction false} RowHasSlot(ix: Index, keys: seq<seq<byte>>, nodes: seq<Node>, v: View, a: Alphabet,
                                      maxoffset: nat, r: nat)
    requires Built(ix, keys, nodes, v, a, maxoffset) && r < |keys|
    ensures |v.prefix| == |nodes| && r in v.slot && v.slot[r].node < |nodes|
    ensures v.prefix[v.slot[r].node] + [v.slot[r].at] <= keys[r]
  {
    hide LastWins, Quiet;
    assert Stored(nodes, v, keys, r);
  }

  lemma {:induction false} LeafDepth(v: View, keys: seq<seq<byte>>, r: nat)
    requires AtLeaves(v, keys) && r in v.slot && r < |keys| && v.slot[r].node < |v.prefix|
    ensures |v.prefix[v.slot[r].node]| + 1 == |keys[r]|
  {
    assert |v.prefix[v.slot[r].node] + [v.slot[r].at]| == |keys[r]|;
  }

  /** One step along the key of a row: on to the next node, or to the row itself. */
  lemma {:induction false} StepTowards(ix: Index, keys: seq<seq<byte>>, nodes: seq<Node>, v: View, a: Alphabet,
                                       maxoffset: nat,
                    r: nat, n: nat, i: nat)
    requires Faithful(ix, keys, nodes, v, a, maxoffset) && r < |keys| && n < |nodes|
    requires i < |keys[r]| && v.prefix[n] == keys[r][..i] && i <= |v.prefix[v.slot[r].node]|
    ensures v.slot[r].node < |nodes|
    ensures |ix.alphabet| == 256 && nodes[n].offset + ix.alphabet[keys[r][i]] < |ix.table|
    ensures var x := ix.table[nodes[n].offset + ix.alphabet[keys[r][i]]];
            if i < |v.prefix[v.slot[r].node]|
            then exists t: nat :: t < |nodes| && v.prefix[t] == keys[r][..i + 1] && x == nodes[t].offset
            else x == CellOf(r)
  {
    hide Rank, Numbered, Tree, Spelled, Holds, LastWins, Quiet, Filled;
    Sizes(a);
    var c := keys[r][i];
    BelowCount(a, c);
    RowHasSlot(ix, keys, nodes, v, a, maxoffset, r);
    Towards(nodes, v, keys, r, n, i);
    assert Shows(a, nodes, ix.table, n, 256);
    assert InUse(a, nodes[n].table, c);
  }

  /** The node reached, as a value. */
  ghost predicate Reached(nodes: seq<Node>, v: View, w: seq<byte>, o: int) {
    |v.prefix| == |nodes| && exists t: nat :: t < |nodes| && v.prefix[t] == w && o == nodes[t].offset
  }

  // ---- Numeric lookup ----

  ghost predicate NumericFaithful(rows: seq<Row>, ix: Index, nodes: seq<Node>, v: View, a: Alphabet, maxoffset: nat) {
    && Faithful(ix, NumericKeys(rows), nodes, v, a, maxoffset)
    && AtLeaves(v, NumericKeys(rows))
  }

  lemma {:induction false} NumericStepTowards(rows: seq<Row>, ix: Index, nodes: seq<Node>, v: View, a: Alphabet,
                                              maxoffset: nat,
                           r: nat, i: nat, o: int)
    requires NumericFaithful(rows, ix, nodes, v, a, maxoffset) && r < |rows| && i < 4
    requires Reached(nodes, v, NumericKey(rows[r].numeric)[..i], o)
    ensures 0 <= o && |ix.alphabet| == 256 && o + ix.alphabet[NumericKey(rows[r].numeric)[i]] < |ix.table|
    ensures var x := ix.table[o + ix.alphabet[NumericKey(rows[r].numeric)[i]]];
            if i < 3 then x >= 0 && Reached(nodes, v, NumericKey(rows[r].numeric)[..i + 1], x) else x == CellOf(r)
  {
    hide Faithful, Built, AtLeaves, Octet;
    var keys := NumericKeys(rows);
    var n: nat :| n < |nodes| && v.prefix[n] == keys[r][..i] && o == nodes[n].offset;
    BuiltFromFaithful(ix, keys, nodes, v, a, maxoffset);
    RowHasSlot(ix, keys, nodes, v, a, maxoffset, r);
    LeafDepth(v, keys, r);
    StepTowards(ix, keys, nodes, v, a, maxoffset, r, n, i);
  }

  /** The numeric walk agrees with the scan, for every full-width query. */
  lemma {:induction false} NumberAgrees(rows: seq<Row>, ix: Index, nodes: seq<Node>, v: View, a: Alphabet,
                                        maxoffset: nat, mech: nat)
    requires NumericFaithful(rows, ix, nodes, v, a, maxoffset)
    ensures Walkable(ix, |rows|) && NumberFound(rows, ix, mech) == FindNumber(rows, mech, 0)
  {
    hide Faithful, AtLeaves, Octet, Reached, Walkable, Built;
    var keys, want := NumericKeys(rows), FindNumber(rows, mech, 0);
    BuiltFromFaithful(ix, keys, nodes, v, a, maxoffset);
    ReadsInside(ix, keys, nodes, v, a, maxoffset);
    WalkStarts(ix, |rows|);
    if want >= 0 {
      var key := NumericKey(mech);
      RootReached(ix, keys, nodes, v, a, maxoffset);
      assert key[..0] == [];
      NumericStepTowards(rows, ix, nodes, v, a, maxoffset, want, 0, ix.root);
      var o1 := Cell(ix, ix.root, key[0]);
      NumericStepTowards(rows, ix, nodes, v, a, maxoffset, want, 1, o1);
      var o2 := Cell(ix, o1, key[1]);
      NumericStepTowards(rows, ix, nodes, v, a, maxoffset, want, 2, o2);
      var o3 := Cell(ix, o2, key[2]);
      NumericStepTowards(rows, ix, nodes, v, a, maxoffset, want, 3, o3);
    }
  }

  lemma {:induction false} BuiltFromFaithful(ix: Index, keys: seq<seq<byte>>, nodes: seq<Node>, v: View, a: Alphabet,
                                             maxoffset: nat)
    requires Faithful(ix, keys, nodes, v, a, maxoffset)
    ensures Built(ix, keys, nodes, v, a, maxoffset)
  {
  }

  lemma {:induction false} RootReached(ix: Index, keys: seq<seq<byte>>, nodes: seq<Node>, v: View, a: Alphabet,
                                       maxoffset: nat)
    requires Faithful(ix, keys, nodes, v, a, maxoffset)
    ensures Reached(nodes, v, [], ix.root)
  {
    hide LastWins, Quiet, Emitted;
  }

  // ---- String lookup ----

  ghost predicate StringFaithful(rows: seq<Row>, ix: Index, nodes: seq<Node>, v: View, a: Alphabet, maxoffset: nat) {
    Shares(rows, ix.skip) && Faithful(ix, StringKeys(rows, ix.skip), nodes, v, a, maxoffset)
  }

  /** Where the walk of a name that is in the table has got to. */
  ghost predicate OnTheWay(rows: seq<Row>, ix: Index, nodes: seq<Node>, v: View, r: nat, i: nat, o: int)
    requires Shares(rows, ix.skip) && r < |rows|
  {
    && |v.prefix| == |nodes| && r in v.slot && v.slot[r].node < |nodes|
    && i <= |v.prefix[v.slot[r].node]| < |StringKeys(rows, ix.skip)[r]|
    && Reached(nodes, v, StringKeys(rows, ix.skip)[r][..i], o)
  }

  lemma {:induction false} StartOfWay(rows: seq<Row>, ix: Index, nodes: seq<Node>, v: View, a: Alphabet, maxoffset: nat,
                                      r: nat)
    requires StringFaithful(rows, ix, nodes, v, a, maxoffset) && r < |rows|
    ensures OnTheWay(rows, ix, nodes, v, r, 0, ix.root)
  {
    hide Faithful, Built;
    var keys := StringKeys(rows, ix.skip);
    RootReached(ix, keys, nodes, v, a, maxoffset);
    BuiltFromFaithful(ix, keys, nodes, v, a, maxoffset);
    RowHasSlot(ix, keys, nodes, v, a, maxoffset, r);
    assert keys[r][..0] == [];
    assert |v.prefix[v.slot[r].node] + [v.slot[r].at]| <= |keys[r]|;
  }

  lemma {:induction false} AlongTheWay(rows: seq<Row>, ix: Index, nodes: seq<Node>, v: View, a: Alphabet,
                                       maxoffset: nat, r: nat, i: nat, o: int)
    requires StringFaithful(rows, ix, nodes, v, a, maxoffset) && r < |rows|
    requires OnTheWay(rows, ix, nodes, v, r, i, o)
    ensures 0 <= o && |ix.alphabet| == 256 && o + ix.alphabet[StringKeys(rows, ix.skip)[r][i]] < |ix.table|
    ensures var x := ix.table[o + ix.alphabet[StringKeys(rows, ix.skip)[r][i]]];
            x == CellOf(r) || (x >= 0 && OnTheWay(rows, ix, nodes, v, r, i + 1, x))
  {
    hide Faithful, Built;
    var keys := StringKeys(rows, ix.skip);
    var n: nat :| n < |nodes| && v.prefix[n] == keys[r][..i] && o == nodes[n].offset;
    StepTowards(ix, keys, nodes, v, a, maxoffset, r, n, i);
  }

  /** The string walk agrees with the scan, for every query. */
  lemma {:induction false} NameAgrees(rows: seq<Row>, ix: Index, nodes: seq<Node>, v: View, a: Alphabet, maxoffset: nat,
                                      name: seq<byte>)
    requires StringFaithful(rows, ix, nodes, v, a, maxoffset)
    ensures Walkable(ix, |rows|) && NameFound(rows, ix, name) == FindName(rows, name, 0)
  {
    hide Faithful, Built, Walkable, OnTheWay, NameFrom;
    BuiltFromFaithful(ix, StringKeys(rows, ix.skip), nodes, v, a, maxoffset);
    ReadsInside(ix, StringKeys(rows, ix.skip), nodes, v, a, maxoffset);
    WalkStarts(ix, |rows|);
    var want := FindName(rows, name, 0);
    if want >= 0 {
      StartOfWay(rows, ix, nodes, v, a, maxoffset, want);
      WayEnds(rows, ix, nodes, v, a, maxoffset, want, 0, ix.root);
    }
  }

  lemma {:induction false} WayEnds(rows: seq<Row>, ix: Index, nodes: seq<Node>, v: View, a: Alphabet, maxoffset: nat,
                                   r: nat, i: nat, o: nat)
    requires StringFaithful(rows, ix, nodes, v, a, maxoffset) && r < |rows| && Walkable(ix, |rows|) && ReadsOn(ix, o)
    requires OnTheWay(rows, ix, nodes, v, r, i, o)
    ensures NameFrom(rows, ix, rows[r].str, ix.skip + i, o) == r
    decreases |StringKeys(rows, ix.skip)[r]| - i
  {
    hide Faithful, OnTheWay, Walkable;
    EndOfWay(rows, ix, nodes, v, r, i, o);
    AlongTheWay(rows, ix, nodes, v, a, maxoffset, r, i, o);
    CellSafe(ix, |rows|, o, StringKeys(rows, ix.skip)[r][i]);
    var x := Cell(ix, o, StringKeys(rows, ix.skip)[r][i]);
    if x >= 0 {
      WayEnds(rows, ix, nodes, v, a, maxoffset, r, i + 1, x);
    }
  }

  lemma {:induction false} EndOfWay(rows: seq<Row>, ix: Index, nodes: seq<Node>, v: View, r: nat, i: nat, o: int)
    requires Shares(rows, ix.skip) && r < |rows| && OnTheWay(rows, ix, nodes, v, r, i, o)
    ensures i < |StringKeys(rows, ix.skip)[r]|
  {
  }

  // ---- Aliases ----

  ghost predicate AliasesEndScan(rows: seq<Row>, aliases: seq<Alias>, rank: seq<nat>) {
    && |rank| == |aliases|
    && forall j | 0 <= j < |aliases| && FindName(rows, aliases[j].target, 0) < 0 ::
         var k := FirstAlias(aliases, aliases[j].target, 0); k < |aliases| ==> rank[k] < rank[j]
  }

  /** A row of that name, else what the target of the first fitting alias stands for, else -1. */
  ghost function FindNameOrAlias(rows: seq<Row>, aliases: seq<Alias>, name: seq<byte>, rank: seq<nat>): int
    requires AliasesEndScan(rows, aliases, rank)
    decreases if FindName(rows, name, 0) >= 0 || FirstAlias(aliases, name, 0) == |aliases| then 0
              else rank[FirstAlias(aliases, name, 0)] + 1
  {
    var r, j := FindName(rows, name, 0), FirstAlias(aliases, name, 0);
    if r >= 0 || j == |aliases| then r else FindNameOrAlias(rows, aliases, aliases[j].target, rank)
  }

  /** So does the lookup with aliases, whether or not their targets are rows. */
  lemma {:induction false} AliasAgrees(rows: seq<Row>, ix: Index, nodes: seq<Node>, v: View, a: Alphabet,
                                       maxoffset: nat,
                                       aliases: seq<Alias>, name: seq<byte>, rank: seq<nat>)
    requires StringFaithful(rows, ix, nodes, v, a, maxoffset) && AliasesEndScan(rows, aliases, rank)
    ensures Walkable(ix, |rows|) && AliasesEnd(rows, ix, aliases, rank)
    ensures Resolved(rows, ix, aliases, name, rank) == FindNameOrAlias(rows, aliases, name, rank)
    decreases if FindName(rows, name, 0) >= 0 || FirstAlias(aliases, name, 0) == |aliases| then 0
              else rank[FirstAlias(aliases, name, 0)] + 1
  {
    hide StringFaithful, Walkable, NameFound;
    NameAgrees(rows, ix, nodes, v, a, maxoffset, name);
    forall j | 0 <= j < |aliases|
      ensures NameFound(rows, ix, aliases[j].target) == FindName(rows, aliases[j].target, 0)
    {
      NameAgrees(rows, ix, nodes, v, a, maxoffset, aliases[j].target);
    }
    var j := FirstAlias(aliases, name, 0);
    if FindName(rows, name, 0) < 0 && j < |aliases| {
      AliasAgrees(rows, ix, nodes, v, a, maxoffset, aliases, aliases[j].target, rank);
    }
  }
}
