/**
 The generator's main sequence: prefix elimination, insertion, alphabet
 compression, packing and emission, for both indexes.
 */
module Generate {
  import opened Bytes
  import opened MechTable
  import opened Trie
  import opened Alphabet
  import opened Generator
  import opened Pack
  import opened Saturation
  import opened Emit
  import opened Walk
  import opened Lookup
  import opened Spoilt
  import opened Lost

  /** The first `n` names have their first `k` characters in common. */
  ghost predicate Common(rows: seq<Row>, n: nat, k: nat)
    requires n <= |rows|
  {
    && (forall r | 0 <= r < n :: k <= |rows[r].str|)
    && (forall r | 0 <= r < n :: rows[r].str[..k] == rows[0].str[..k])
  }

  ghost predicate LongestCommon(rows: seq<Row>, n: nat, k: nat)
    requires n <= |rows|
  {
    Common(rows, n, k) && forall m: nat | Common(rows, n, m) :: m <= k
  }

  /** `eliminatecommonprefixes`: the longest prefix that all names share. */
  method EliminateCommonPrefixes(rows: seq<Row>) returns (skip: nat)
    requires 0 < |rows|
    ensures LongestCommon(rows, |rows|, skip)
  {
    var commonprefix := rows[0].str;
    var i := 1;
    while i < |rows|
      invariant 1 <= i <= |rows|
      invariant |commonprefix| <= |rows[0].str| && commonprefix == rows[0].str[..|commonprefix|]
      invariant LongestCommon(rows, i, |commonprefix|)
    {
      var str := rows[i].str;
      var minlength := if |commonprefix| < |str| then |commonprefix| else |str|;
      var j := 0;
      while j < minlength && commonprefix[j] == str[j]
        invariant 0 <= j <= minlength && commonprefix[..j] == str[..j]
      {
        j := j + 1;
      }
      LongestShared(rows, i, commonprefix, j);
      commonprefix := commonprefix[..j];
      i := i + 1;
    }
    skip := |commonprefix|;
  }

  lemma {:induction false} LongestShared(rows: seq<Row>, i: nat, prefix: seq<byte>, j: nat)
    requires 0 < i < |rows| && |prefix| <= |rows[0].str| && prefix == rows[0].str[..|prefix|]
    requires LongestCommon(rows, i, |prefix|)
    requires j <= |prefix| && j <= |rows[i].str| && prefix[..j] == rows[i].str[..j]
    requires j < |prefix| && j < |rows[i].str| ==> prefix[j] != rows[i].str[j]
    ensures LongestCommon(rows, i + 1, j)
  {
    var n := i + 1;
    forall r | 0 <= r < n ensures j <= |rows[r].str| && rows[r].str[..j] == rows[0].str[..j] {
      if r < i {
        assert rows[r].str[..j] == rows[r].str[..|prefix|][..j];
      }
      assert rows[0].str[..j] == prefix[..j];
    }
    forall m: nat | Common(rows, n, m) ensures m <= j {
      assert Common(rows, i, m);
      assert forall q | 0 <= q < m :: rows[i].str[..m][q] == rows[0].str[..m][q];
    }
  }

  // ---- Packing leaves the trie as it is ----

  lemma {:induction false} ValidIgnoresOffsets(before: seq<Node>, after: seq<Node>, v: View, keys: seq<seq<byte>>)
    requires Valid(before, v, keys) && |before| == |after|
    requires forall k | 0 <= k < |before| :: after[k].table == before[k].table
    ensures Valid(after, v, keys)
  {
    forall k | 0 < k < |after| ensures HangsOff(after, v, k) {
      assert HangsOff(before, v, k);
    }
    forall k | 0 <= k < |after| ensures LinksFit(after, v, k) && RowsFit(after, v, k) {
      assert LinksFit(before, v, k) && RowsFit(before, v, k);
    }
    forall r | r in v.slot ensures Stored(after, v, keys, r) {
      assert Stored(before, v, keys, r);
    }
  }

  lemma {:induction false} ValidLinked(nodes: seq<Node>, v: View, keys: seq<seq<byte>>)
    requires Valid(nodes, v, keys)
    ensures Linked(nodes)
  {
    forall k, c | 0 <= k < |nodes| && 0 <= c < 256 ensures nodes[k].table[c] < |nodes| {
      assert LinksFit(nodes, v, k);
    }
  }

  lemma {:induction false} MaxIsMax(offs: seq<nat>, j: nat)
    requires j < |offs|
    ensures offs[j] <= MaxOf(offs)
  {
    if j < |offs| - 1 {
      MaxIsMax(offs[..|offs| - 1], j);
    }
  }

  lemma {:induction false} OffsetsBelowMax(before: seq<Node>, after: seq<Node>, order: seq<nat>, offs: seq<nat>)
    requires SortedPrefix(before, order, |before|) && GotOffsets(before, after, order, offs) && Unpacked(before)
    ensures forall k | 0 <= k < |after| :: after[k].offset <= MaxOf(offs)
  {
    hide MaxOf, Precedes;
    forall k | 0 <= k < |after| ensures after[k].offset <= MaxOf(offs) {
      var j := Position(order, k);
      if j < |offs| {
        MaxIsMax(offs, j);
      }
    }
  }

  lemma {:induction false} CountPositive(a: Alphabet, keys: seq<seq<byte>>)
    requires Numbered(a) && Covers(a.usage, keys) && 0 < |keys| && keys[0] != []
    ensures 0 < a.count
  {
    assert keys[0][0] in keys[0];
    NumbersDiffer(a, keys[0][0], keys[0][0]);
  }

  // ---- The two indexes ----

  datatype Generated = Generated(ix: Index, maxoffset: nat) | Duplicate | Aborted

  /** The trie a table is packed from, the alphabet and order it is packed with, and what comes of it. */
  datatype Trace = Trace(trie: seq<Node>, view: View, order: seq<nat>, alphabet: Alphabet, packed: seq<Node>,
                         offs: seq<nat>)

  const NO_TRACE := Trace([], ROOT_VIEW, [], Alphabet([], [], 0), [], [])

  /** The tables in the order in which they are packed. */
  ghost function Lineup(tr: Trace): seq<Table>
    requires forall j | 0 <= j < |tr.order| :: tr.order[j] < |tr.trie|
  {
    Tables(tr.trie, tr.order)
  }

  /** The trie stores exactly the rows, its nodes were sorted by use, and packed first fit. */
  ghost predicate Sound(tr: Trace, keys: seq<seq<byte>>, link: nat) {
    && Numbered(tr.alphabet) && 0 < tr.alphabet.count
    && Valid(tr.trie, tr.view, keys) && StoredUpTo(tr.view, |keys|)
    && Unpacked(tr.trie) && Weighed(tr.trie, link)
    && SortedPrefix(tr.trie, tr.order, |tr.trie|)
    && GotOffsets(tr.trie, tr.packed, tr.order, tr.offs) && Packed(tr.alphabet, Lineup(tr), tr.offs)
    && Linked(tr.packed)
  }

  /** All nodes find a place of their own. */
  ghost predicate Packable(tr: Trace)
    requires Numbered(tr.alphabet) && SortedPrefix(tr.trie, tr.order, |tr.trie|)
  {
    |tr.trie| == 1 || !Saturated(tr.alphabet, Lineup(tr))
  }

  /** The offsets can be stored in cells. */
  ghost predicate OffsetsFit(tr: Trace) { MaxOf(tr.offs) <= 32767 }

  /** Compression and emission, the same for both indexes. */
  method PackAndEmit(list: NodeList, a: Alphabet, skip: nat, ghost keys: seq<seq<byte>>, ghost link: nat)
    returns (result: Generated, ghost tr: Trace)
    requires Numbered(a) && 0 < a.count && Unpacked(list.nodes) && Weighed(list.nodes, link)
    requires Valid(list.nodes, list.view, keys) && StoredUpTo(list.view, |keys|)
    requires forall r, i | 0 <= r < |keys| && 0 <= i < |keys[r]| :: a.usage[keys[r][i]]
    modifies list`nodes
    ensures Sound(tr, keys, link) && tr.view == list.view && tr.alphabet == a
    ensures !result.Duplicate? && (result.Generated? <==> Quiet(a, tr.packed))
    ensures result.Generated? ==>
              && result.ix.skip == skip
              && (OffsetsFit(tr) ==> Built(result.ix, keys, tr.packed, tr.view, a, result.maxoffset))
    ensures OffsetsFit(tr) ==> (result.Generated? && Emitted(a, tr.packed, result.ix.table) <==> Packable(tr))
  {
    hide Valid, Numbered, Packed, MaxOf, Saturated, Apart, Emitted, Linked, Precedes, Rank, Quiet, LastWins, Weighed;
    Sizes(a);
    Rooted(list.nodes, list.view, keys);
    ghost var trie := list.nodes;
    var maxoffset, order, offs := CompressTable(list, a);
    tr := Trace(trie, list.view, order, a, list.nodes, offs);
    ValidIgnoresOffsets(trie, list.nodes, list.view, keys);
    ValidLinked(list.nodes, list.view, keys);
    OffsetsBelowMax(trie, list.nodes, order, offs);
    var ok, table := BuildCompressedTable(list.nodes, a, maxoffset);
    ShownIff(tr, keys, table);
    if !ok {
      return Aborted, tr;
    }
    result := Generated(Index(a.idx, table, list.nodes[0].offset, skip), maxoffset);
  }

  /** The emitted table shows the trie exactly when the list is packable. */
  lemma {:induction false} ShownIff(tr: Trace, keys: seq<seq<byte>>, table: seq<short>)
    requires Numbered(tr.alphabet) && 0 < tr.alphabet.count && Unpacked(tr.trie)
             && SortedPrefix(tr.trie, tr.order, |tr.trie|)
    requires GotOffsets(tr.trie, tr.packed, tr.order, tr.offs) && Packed(tr.alphabet, Lineup(tr), tr.offs)
    requires Valid(tr.packed, tr.view, keys) && Linked(tr.packed)
    requires forall k | 0 <= k < |tr.packed| :: tr.packed[k].offset <= MaxOf(tr.offs)
    ensures Packable(tr) ==>
              Quiet(tr.alphabet, tr.packed)
              && (LastWins(tr.alphabet, tr.packed, table) ==> Emitted(tr.alphabet, tr.packed, table))
    ensures OffsetsFit(tr) && !Packable(tr) ==> !Emitted(tr.alphabet, tr.packed, table)
    ensures !Packable(tr) ==> Stacked(tr.alphabet, tr.packed, tr.order)
  {
    hide Valid, Numbered, Packed, MaxOf, Saturated, Apart, Emitted, Precedes, Quiet, LastWins, Stacked, GotOffsets,
         SortedPrefix;
    Sizes(tr.alphabet);
    ApartIff(tr.alphabet, tr.trie, tr.packed, tr.order, tr.offs);
    if Packable(tr) {
      ApartShows(tr.alphabet, tr.packed, table);
    } else {
      SaturatedIsStacked(tr.alphabet, tr.trie, tr.packed, tr.order, tr.offs) by { TwoNodes(tr, keys); }
      if OffsetsFit(tr) {
        NotEmitted(tr.alphabet, tr.packed, tr.order, tr.view, keys, table);
      }
    }
  }

  lemma {:induction false} TwoNodes(tr: Trace, keys: seq<seq<byte>>)
    requires Valid(tr.packed, tr.view, keys) && GotOffsets(tr.trie, tr.packed, tr.order, tr.offs) && |tr.trie| != 1
    ensures 1 < |tr.trie|
  {
    hide Valid;
    Rooted(tr.packed, tr.view, keys);
  }

  // ---- The numeric index ----

  /** The emitted numeric lookup agrees with the scan, for every full-width query. */
  ghost predicate NumbersAgree(rows: seq<Row>, ix: Index) {
    Walkable(ix, |rows|) && forall mech: nat :: NumberFound(rows, ix, mech) == FindNumber(rows, mech, 0)
  }

  /**
   The numeric index.  A table with equal low 32 bits is refused.  Any other
   yields a lookup that agrees with the scan exactly when it is packable.
   */
  method NumericIndex(rows: seq<Row>) returns (result: Generated, ghost tr: Trace)
    requires NumericFits(NumericKeys(rows))
    ensures result.Duplicate? <==> !DistinctLow32(rows, |rows|)
    ensures !result.Duplicate? ==>
              && Sound(tr, NumericKeys(rows), 1) && AtLeaves(tr.view, NumericKeys(rows))
              && Covers(tr.alphabet.usage, NumericKeys(rows))
              && (result.Generated? <==> Quiet(tr.alphabet, tr.packed))
              && (OffsetsFit(tr) && result.Generated? ==> Walkable(result.ix, |rows|))
              && (OffsetsFit(tr) ==> (result.Generated? && NumbersAgree(rows, result.ix) <==> Packable(tr)))
  {
    hide Valid, Numbered, Built, Packable, DistinctLow32, AllPrefixes, Octet, Sound, Weighed, Emitted, Quiet,
         NumbersAgree, AtLeaves;
    ghost var keys := NumericKeys(rows);
    var list := new NodeList(rows, 0);
    RootValid(keys);
    RootWeighs(1);
    tr := NO_TRACE;
    var ok := list.BuildNumeric() by { RootAtLeaves(keys); }
    if !ok {
      return Generated.Duplicate, tr;
    }
    var a := CompressNumeric(rows);
    CountPositive(a, keys);
    result, tr := PackAndEmit(list, a, 0, keys, 1) by {
      assert forall r, i | 0 <= r < |keys| && 0 <= i < |keys[r]| :: keys[r][i] in keys[r];
    }
    NumbersAgreeIff(rows, result, tr);
  }

  lemma {:induction false} RootAtLeaves(keys: seq<seq<byte>>)
    ensures AtLeaves(ROOT_VIEW, keys)
  {
  }

  lemma {:induction false} RootWeighs(link: nat)
    ensures Weighed([FreshNode()], link)
  {
    WeightNone(FreshNode().table, |FreshNode().table|, link);
  }

  lemma {:induction false} NumbersAgreeIff(rows: seq<Row>, result: Generated, tr: Trace)
    requires Sound(tr, NumericKeys(rows), 1) && AtLeaves(tr.view, NumericKeys(rows))
    requires result.Generated? && OffsetsFit(tr) ==>
               Built(result.ix, NumericKeys(rows), tr.packed, tr.view, tr.alphabet, result.maxoffset)
    requires OffsetsFit(tr) ==>
               (result.Generated? && Emitted(tr.alphabet, tr.packed, result.ix.table) <==> Packable(tr))
    ensures OffsetsFit(tr) && result.Generated? ==> Walkable(result.ix, |rows|)
    ensures OffsetsFit(tr) ==> (result.Generated? && NumbersAgree(rows, result.ix) <==> Packable(tr))
  {
    hide Valid, Numbered, Built, Packable, Octet, Weighed, Emitted, AtLeaves, NumberFound, Walkable, Unpacked,
         SortedPrefix,
      GotOffsets, Packed, Linked, Saturated;
    if result.Generated? && OffsetsFit(tr) {
      var keys := NumericKeys(rows);
      ReadsInside(result.ix, keys, tr.packed, tr.view, tr.alphabet, result.maxoffset);
      if Packable(tr) {
        forall mech: nat ensures NumberFound(rows, result.ix, mech) == FindNumber(rows, mech, 0) {
          NumberAgrees(rows, result.ix, tr.packed, tr.view, tr.alphabet, result.maxoffset, mech);
        }
      } else {
        StackedTrace(tr, keys, 1);
        var r := NumberLost(rows, result.ix, tr.packed, tr.view, tr.alphabet, result.maxoffset, tr.order);
      }
    }
  }

  /** What is not packable is left stacked. */
  lemma {:induction false} StackedTrace(tr: Trace, keys: seq<seq<byte>>, link: nat)
    requires Sound(tr, keys, link) && !Packable(tr)
    ensures Sized(tr.alphabet) && Stacked(tr.alphabet, tr.packed, tr.order)
  {
    hide Valid, Numbered, Weighed, Saturated, GotOffsets, Packed, Linked, Stacked;
    Rooted(tr.trie, tr.view, keys);
    SaturatedIsStacked(tr.alphabet, tr.trie, tr.packed, tr.order, tr.offs);
  }

  // ---- The string index ----

  /** The emitted string lookup agrees with the scan, for every query. */
  ghost predicate NamesAgree(rows: seq<Row>, ix: Index) {
    Walkable(ix, |rows|) && forall name: seq<byte> :: NameFound(rows, ix, name) == FindName(rows, name, 0)
  }

  lemma {:induction false} SharedKeys(rows: seq<Row>, skip: nat)
    requires 0 < |rows| && Common(rows, |rows|, skip) && forall r | 0 <= r < |rows| :: IsCString(rows[r].str)
    ensures Shares(rows, skip)
    ensures forall r, i | 0 <= r < |rows| && 0 <= i < |StringKeys(rows, skip)[r]| ::
              StringKeys(rows, skip)[r][i] in NameKeys(rows)[r]
  {
    forall r, i | 0 <= r < |rows| && 0 <= i < |StringKeys(rows, skip)[r]|
      ensures StringKeys(rows, skip)[r][i] in NameKeys(rows)[r]
    {
      assert StringKeys(rows, skip)[r][i] == NameKeys(rows)[r][skip + i];
    }
  }

  /** Names are C strings; behind their longest common prefix, positions and node numbers fit a `short`. */
  ghost predicate NamesFit(rows: seq<Row>) {
    && 0 < |rows| && (forall r | 0 <= r < |rows| :: IsCString(rows[r].str))
    && forall skip: nat | LongestCommon(rows, |rows|, skip) && Shares(rows, skip) :: StringFits(StringKeys(rows, skip))
  }

  /**
   The string index.  A table with equal names is refused.  Any other yields a
   lookup that agrees with the scan exactly when it is packable.
   */
  method StringIndex(rows: seq<Row>) returns (result: Generated, ghost tr: Trace, ghost skip: nat)
    requires NamesFit(rows)
    ensures LongestCommon(rows, |rows|, skip) && Shares(rows, skip)
    ensures result.Duplicate? <==> !DistinctNames(rows, |rows|)
    ensures !result.Duplicate? ==>
              && Sound(tr, StringKeys(rows, skip), 2) && Forked(tr.view, StringKeys(rows, skip))
              && Covers(tr.alphabet.usage, NameKeys(rows))
              && (result.Generated? <==> Quiet(tr.alphabet, tr.packed))
              && (result.Generated? ==> result.ix.skip == skip)
              && (OffsetsFit(tr) && result.Generated? ==>
                    Built(result.ix, StringKeys(rows, skip), tr.packed, tr.view, tr.alphabet, result.maxoffset)
                    && Walkable(result.ix, |rows|))
              && (OffsetsFit(tr) ==> (result.Generated? && NamesAgree(rows, result.ix) <==> Packable(tr)))
  {
    hide Valid, Numbered, Built, Packable, DistinctNames, Forks, Sound, Weighed, Emitted, Quiet, NamesAgree, Forked,
         Covers;
    var prefix := EliminateCommonPrefixes(rows);
    skip := prefix;
    SharedKeys(rows, skip);
    ghost var keys := StringKeys(rows, skip);
    assert StringFits(keys);
    var list := new NodeList(rows, prefix);
    RootValid(keys);
    RootWeighs(2);
    tr := NO_TRACE;
    var ok := list.BuildString() by { RootForked(keys); }
    if !ok {
      return Generated.Duplicate, tr, skip;
    }
    var a := CompressString(rows);
    CountPositive(a, NameKeys(rows));
    result, tr := PackAndEmit(list, a, prefix, keys, 2) by { KeysCovered(rows, skip, a); }
    NamesAgreeIff(rows, result, tr, skip);
  }

  lemma {:induction false} RootForked(keys: seq<seq<byte>>)
    ensures Forked(ROOT_VIEW, keys)
  {
  }

  lemma {:induction false} KeysCovered(rows: seq<Row>, skip: nat, a: Alphabet)
    requires 0 < |rows| && Common(rows, |rows|, skip) && Shares(rows, skip) && Covers(a.usage, NameKeys(rows))
    ensures forall r, i | 0 <= r < |rows| && 0 <= i < |StringKeys(rows, skip)[r]| ::
              a.usage[StringKeys(rows, skip)[r][i]]
  {
    SharedKeys(rows, skip);
  }

  lemma {:induction false} NamesAgreeIff(rows: seq<Row>, result: Generated, tr: Trace, skip: nat)
    requires Shares(rows, skip) && Sound(tr, StringKeys(rows, skip), 2) && Forked(tr.view, StringKeys(rows, skip))
             && DistinctNames(rows, |rows|)
    requires result.Generated? ==> result.ix.skip == skip
    requires result.Generated? && OffsetsFit(tr) ==>
               Built(result.ix, StringKeys(rows, skip), tr.packed, tr.view, tr.alphabet, result.maxoffset)
    requires OffsetsFit(tr) ==>
               (result.Generated? && Emitted(tr.alphabet, tr.packed, result.ix.table) <==> Packable(tr))
    ensures OffsetsFit(tr) && result.Generated? ==> Walkable(result.ix, |rows|)
    ensures OffsetsFit(tr) ==> (result.Generated? && NamesAgree(rows, result.ix) <==> Packable(tr))
  {
    hide Valid, Numbered, Built, Packable, Weighed, Emitted, Forked, NameFound, Walkable, Unpacked, SortedPrefix,
         GotOffsets, Packed,
      Linked, Saturated, DistinctNames;
    if result.Generated? && OffsetsFit(tr) {
      var keys := StringKeys(rows, skip);
      ReadsInside(result.ix, keys, tr.packed, tr.view, tr.alphabet, result.maxoffset);
      if Packable(tr) {
        forall name: seq<byte> ensures NameFound(rows, result.ix, name) == FindName(rows, name, 0) {
          NameAgrees(rows, result.ix, tr.packed, tr.view, tr.alphabet, result.maxoffset, name);
        }
      } else {
        StackedTrace(tr, keys, 2);
        var r := NameLost(rows, result.ix, tr.packed, tr.view, tr.alphabet, result.maxoffset, tr.order);
      }
    }
  }
}
