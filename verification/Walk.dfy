/**
 The two lookup functions that are written into the generated source, as walks
 over an index, and the linear scans they are meant to agree with.
 */
module Walk {
  import opened Bytes
  import opened MechTable
  import opened Trie

  /** What is written into the generated source. */
  datatype Index = Index(alphabet: seq<byte>, table: seq<short>, root: nat, skip: nat)

  datatype Alias = Alias(str: seq<byte>, target: seq<byte>)

  // ---- The linear scans ----

  function FindNumber(rows: seq<Row>, mech: nat, from: nat): (r: int)
    requires from <= |rows|
    ensures -1 <= r < |rows|
    ensures r >= 0 ==> from <= r && rows[r].numeric == mech && forall i | from <= i < r :: rows[i].numeric != mech
    ensures r < 0 ==> forall i | from <= i < |rows| :: rows[i].numeric != mech
    decreases |rows| - from
  {
    if from == |rows| then -1
    else if rows[from].numeric == mech then from
    else FindNumber(rows, mech, from + 1)
  }

  function FindName(rows: seq<Row>, name: seq<byte>, from: nat): (r: int)
    requires from <= |rows|
    ensures -1 <= r < |rows|
    ensures r >= 0 ==> from <= r && rows[r].str == name && forall i | from <= i < r :: rows[i].str != name
    ensures r < 0 ==> forall i | from <= i < |rows| :: rows[i].str != name
    decreases |rows| - from
  {
    if from == |rows| then -1
    else if rows[from].str == name then from
    else FindName(rows, name, from + 1)
  }

  /** The first alias of that name. */
  function FirstAlias(aliases: seq<Alias>, name: seq<byte>, from: nat): (j: nat)
    requires from <= |aliases|
    ensures from <= j <= |aliases| && (j < |aliases| ==> aliases[j].str == name)
    ensures forall i | from <= i < j :: aliases[i].str != name
    decreases |aliases| - from
  {
    if from == |aliases| || aliases[from].str == name then from else FirstAlias(aliases, name, from + 1)
  }

  // ---- The emitted walks ----

  /** Whatever is read from the table can be followed: a row, or an offset to read on from. */
  ghost predicate Walkable(ix: Index, rows: nat) {
    && |ix.alphabet| == 256
    && (forall c: byte :: ix.root + ix.alphabet[c] < |ix.table|)
    && (forall p | 0 <= p < |ix.table| ::
          if ix.table[p] < 0 then RowOf(ix.table[p]) < rows else ReadsOn(ix, ix.table[p]))
  }

  ghost predicate ReadsOn(ix: Index, o: nat)
    requires |ix.alphabet| == 256
  {
    forall c: byte :: o + ix.alphabet[c] < |ix.table|
  }

  /** One read: byte `c` at offset `o`. */
  function Cell(ix: Index, o: nat, c: byte): short
    requires |ix.alphabet| == 256 && o + ix.alphabet[c] < |ix.table|
  {
    ix.table[o + ix.alphabet[c]]
  }

  /** The four reads of the numeric walk. */
  function NumberFound(rows: seq<Row>, ix: Index, mech: nat): (r: int)
    requires Walkable(ix, |rows|)
    ensures -1 <= r < |rows| && (r >= 0 ==> rows[r].numeric == mech)
  {
    var o1 := Cell(ix, ix.root, Octet(mech, 3));
    if o1 < 0 then -1
    else
      assert ReadsOn(ix, o1);
      var o2 := Cell(ix, o1, Octet(mech, 2));
      if o2 < 0 then -1
      else
        assert ReadsOn(ix, o2);
        var o3 := Cell(ix, o2, Octet(mech, 1));
        if o3 < 0 then -1
        else
          assert ReadsOn(ix, o3);
          var x := Cell(ix, o3, Octet(mech, 0));
          if x < 0 && rows[RowOf(x)].numeric == mech then RowOf(x) else -1
  }

  /** The string walk from character `i` on, at offset `o`. */
  function NameFrom(rows: seq<Row>, ix: Index, name: seq<byte>, i: nat, o: nat): (r: int)
    requires Walkable(ix, |rows|) && ReadsOn(ix, o)
    ensures -1 <= r < |rows| && (r >= 0 ==> rows[r].str == name)
    decreases |name| + 1 - i
  {
    if i > |name| then -1
    else
      var x := Cell(ix, o, CharAt(name, i));
      if x >= 0 then NameFrom(rows, ix, name, i + 1, x)
      else if rows[RowOf(x)].str == name then RowOf(x)
      else -1
  }

  function NameFound(rows: seq<Row>, ix: Index, name: seq<byte>): (r: int)
    requires Walkable(ix, |rows|)
    ensures -1 <= r < |rows| && (r >= 0 ==> rows[r].str == name)
  {
    assert ReadsOn(ix, ix.root);
    NameFrom(rows, ix, name, ix.skip, ix.root)
  }

  /** Following aliases of names that are not found comes to an end: each leads to one of lower rank. */
  ghost predicate AliasesEnd(rows: seq<Row>, ix: Index, aliases: seq<Alias>, rank: seq<nat>)
    requires Walkable(ix, |rows|)
  {
    && |rank| == |aliases|
    && forall j | 0 <= j < |aliases| && NameFound(rows, ix, aliases[j].target) < 0 ::
         var k := FirstAlias(aliases, aliases[j].target, 0); k < |aliases| ==> rank[k] < rank[j]
  }

  /** The row the walk finds, else what it finds for the target of the first fitting alias. */
  ghost function Resolved(rows: seq<Row>, ix: Index, aliases: seq<Alias>, name: seq<byte>, rank: seq<nat>): int
    requires Walkable(ix, |rows|) && AliasesEnd(rows, ix, aliases, rank)
    decreases Height(rows, ix, aliases, name, rank)
  {
    var r, j := NameFound(rows, ix, name), FirstAlias(aliases, name, 0);
    if r >= 0 || j == |aliases| then r else Resolved(rows, ix, aliases, aliases[j].target, rank)
  }

  ghost function Height(rows: seq<Row>, ix: Index, aliases: seq<Alias>, name: seq<byte>, rank: seq<nat>): nat
    requires Walkable(ix, |rows|) && |rank| == |aliases|
  {
    var j := FirstAlias(aliases, name, 0);
    if NameFound(rows, ix, name) >= 0 || j == |aliases| then 0 else rank[j] + 1
  }

  /** The emitted `mechtable_idx_from_numeric`. */
  method IdxFromNumeric(rows: seq<Row>, ix: Index, mech: nat) returns (result: int)
    requires Walkable(ix, |rows|)
    ensures result == NumberFound(rows, ix, mech)
  {
    hide Octet;
    var idx1, idx2 := ix.alphabet[Octet(mech, 3)], ix.alphabet[Octet(mech, 2)];
    var idx3, idx4 := ix.alphabet[Octet(mech, 1)], ix.alphabet[Octet(mech, 0)];
    var o1 := ix.table[ix.root + idx1];
    if o1 < 0 { return -1; }
    assert ReadsOn(ix, o1);
    var o2 := ix.table[o1 + idx2];
    if o2 < 0 { return -1; }
    assert ReadsOn(ix, o2);
    var o3 := ix.table[o2 + idx3];
    if o3 < 0 { return -1; }
    assert ReadsOn(ix, o3);
    var cell: int := ix.table[o3 + idx4];
    var midx := -(cell + 1);
    if 0 <= midx < |rows| && rows[midx].numeric == mech {
      return midx;
    }
    return -1;
  }

  /** The emitted `mechtable_idx_from_string`. */
  method IdxFromString(rows: seq<Row>, aliases: seq<Alias>, ix: Index, mech: seq<byte>, ghost rank: seq<nat>)
    returns (result: int)
    requires Walkable(ix, |rows|) && AliasesEnd(rows, ix, aliases, rank)
    ensures result == Resolved(rows, ix, aliases, mech, rank)
    decreases Height(rows, ix, aliases, mech, rank)
  {
    hide Walkable, AliasesEnd, ReadsOn;
    WalkStarts(ix, |rows|);
    var idx: int := ix.root;
    var i := ix.skip;
    while i <= |mech|
      invariant ix.skip <= i && 0 <= idx && ReadsOn(ix, idx)
      invariant NameFound(rows, ix, mech) == NameFrom(rows, ix, mech, i, idx)
      decreases |mech| + 1 - i
    {
      CellSafe(ix, |rows|, idx, CharAt(mech, i));
      var h := ix.alphabet[CharAt(mech, i)];
      idx := ix.table[idx + h];
      if idx < 0 {
        idx := -(idx + 1);
        if mech == rows[idx].str {
          return idx;
        }
        break;
      }
      i := i + 1;
    }
    var j := 0;
    while j < |aliases|
      invariant 0 <= j <= |aliases| && FirstAlias(aliases, mech, 0) == FirstAlias(aliases, mech, j)
                && NameFound(rows, ix, mech) < 0
    {
      if aliases[j].str == mech {
        LowerRank(rows, ix, aliases, mech, rank);
        result := IdxFromString(rows, aliases, ix, aliases[j].target, rank);
        return;
      }
      j := j + 1;
    }
    return -1;
  }

  /** Following an alias lowers the rank. */
  lemma {:induction false} LowerRank(rows: seq<Row>, ix: Index, aliases: seq<Alias>, name: seq<byte>, rank: seq<nat>)
    requires Walkable(ix, |rows|) && AliasesEnd(rows, ix, aliases, rank)
    requires NameFound(rows, ix, name) < 0 && FirstAlias(aliases, name, 0) < |aliases|
    ensures Height(rows, ix, aliases, aliases[FirstAlias(aliases, name, 0)].target, rank)
            < Height(rows, ix, aliases, name, rank)
  {
    hide Walkable, NameFound;
  }

  lemma {:induction false} WalkStarts(ix: Index, rows: nat)
    requires Walkable(ix, rows)
    ensures |ix.alphabet| == 256 && ReadsOn(ix, ix.root)
  {
  }

  lemma {:induction false} CellSafe(ix: Index, rows: nat, o: nat, c: byte)
    requires Walkable(ix, rows) && ReadsOn(ix, o)
    ensures o + ix.alphabet[c] < |ix.table|
    ensures var x := Cell(ix, o, c); if x < 0 then RowOf(x) < rows else ReadsOn(ix, x)
  {
  }
}
