/**
 Insertion of the table's rows into the node list: `addnumeric`, and
 `recursiveaddstring`/`addstring` with their displacement of rows that share a
 prefix.  The node list is the field `nodes`; node number `k` is `nodes[k]`.
 */
module Generator {
  import opened Bytes
  import opened MechTable
  import opened Trie

  /** All names are C strings that agree on their first `skip` characters. */
  ghost predicate Shares(rows: seq<Row>, skip: nat) {
    && (forall r | 0 <= r < |rows| :: IsCString(rows[r].str) && skip <= |rows[r].str|)
    && (forall r | 0 <= r < |rows| :: rows[r].str[..skip] == rows[0].str[..skip])
  }

  ghost function StringKeys(rows: seq<Row>, skip: nat): seq<seq<byte>>
    requires Shares(rows, skip)
  {
    seq(|rows|, i requires 0 <= i < |rows| => StringKey(rows[i].str, skip))
  }

  /** Row positions and node numbers of the numeric trie fit a `short`: besides the root, a node per proper prefix. */
  ghost predicate NumericFits(keys: seq<seq<byte>>) {
    0 < |keys| <= 32768 && |AllPrefixes(keys)| <= 32767
  }

  /** The same for the string trie: besides the root, a node per prefix that two keys share. */
  ghost predicate StringFits(keys: seq<seq<byte>>) {
    0 < |keys| <= 32768 && |Forks(keys)| <= 32767
  }

  /** One key being a prefix of the other, the names are the same. */
  lemma {:induction false} SameName(rows: seq<Row>, skip: nat, q: nat, r: nat)
    requires Shares(rows, skip) && q < |rows| && r < |rows|
    requires StringKeys(rows, skip)[q] <= StringKeys(rows, skip)[r]
    ensures rows[q].str == rows[r].str
  {
    StringKeyPrefix(rows[q].str, rows[r].str, skip);
    assert rows[q].str == rows[q].str[..skip] + rows[q].str[skip..];
    assert rows[r].str == rows[r].str[..skip] + rows[r].str[skip..];
  }

  /** No two of the first `n` rows have the same name. */
  ghost predicate DistinctNames(rows: seq<Row>, n: nat)
    requires n <= |rows|
  {
    forall q, r | 0 <= q < r < n :: rows[q].str != rows[r].str
  }

  /** No two of the first `n` rows agree on the low 32 bits of their number. */
  ghost predicate DistinctLow32(rows: seq<Row>, n: nat)
    requires n <= |rows|
  {
    forall q, r | 0 <= q < r < n :: Low32(rows[q].numeric) != Low32(rows[r].numeric)
  }

  /** Exactly the first `n` rows are stored. */
  ghost predicate StoredUpTo(v: View, n: nat) {
    forall r: nat :: r in v.slot <==> r < n
  }

  /** Nodes are allocated with offset 0. */
  ghost predicate Unpacked(nodes: seq<Node>) {
    forall k | 0 <= k < |nodes| :: nodes[k].offset == 0
  }

  /** Every stored row has used up its whole key. */
  ghost predicate AtLeaves(v: View, keys: seq<seq<byte>>) {
    forall r | r in v.slot ::
      && r < |keys| && v.slot[r].node < |v.prefix|
      && v.prefix[v.slot[r].node] + [v.slot[r].at] == keys[r]
  }

  /** What one insertion does to the list, given where the walk of the key stops. */
  function Inserted(nodes: seq<Node>, stop: nat, key: seq<byte>, depth: nat, position: nat): seq<Node>
    requires stop < |nodes| && depth < |key| && position < 32768
    requires nodes[stop].table[key[depth]] < 0 ==> depth + 1 < |key| && |nodes| < 32768
  {
    if nodes[stop].table[key[depth]] == 0 then SetCell(nodes, stop, key[depth], CellOf(position))
    else if nodes[stop].table[key[depth]] < 0 then
      SetCell(Hang(nodes, stop, key[depth]), |nodes|, key[depth + 1], CellOf(position))
    else nodes
  }

  ghost function InsertedView(nodes: seq<Node>, v: View, stop: nat, key: seq<byte>, depth: nat, position: nat): View
    requires stop < |nodes| == |v.prefix| && depth < |key|
    requires nodes[stop].table[key[depth]] < 0 ==> depth + 1 < |key|
  {
    var cell := nodes[stop].table[key[depth]];
    if cell < 0 then
      var w := Grown(v, stop, key[depth], cell, position);
      w.(slot := w.slot[position := Slot(|nodes|, key[depth + 1])])
    else v.(slot := v.slot[position := Slot(stop, key[depth])])
  }

  /** The walk of a key comes to a cell that is not a link. */
  ghost predicate StopsAt(nodes: seq<Node>, v: View, key: seq<byte>, stop: nat, depth: nat) {
    && stop < |nodes| == |v.prefix| && depth < |key|
    && v.prefix[stop] == key[..depth]
    && nodes[stop].table[key[depth]] <= 0
  }

  lemma {:induction false} InsertKeeps(nodes: seq<Node>, v: View, keys: seq<seq<byte>>, stop: nat, depth: nat,
                                       position: nat)
    requires Valid(nodes, v, keys) && Forked(v, keys) && Weighed(nodes, 2) && StringFits(keys)
    requires position < |keys| && position !in v.slot && StopsAt(nodes, v, keys[position], stop, depth)
    requires nodes[stop].table[keys[position][depth]] < 0 ==>
               depth + 1 < |keys[position]|
               && Inside(keys[position][..depth + 1], RowOf(nodes[stop].table[keys[position][depth]]), keys)
    ensures nodes[stop].table[keys[position][depth]] < 0 ==> |nodes| < 32768
    ensures var nodes' := Inserted(nodes, stop, keys[position], depth, position);
            var v' := InsertedView(nodes, v, stop, keys[position], depth, position);
            Valid(nodes', v', keys) && Forked(v', keys) && Weighed(nodes', 2)
  {
    hide Weight, Weighed, Fork, Forks;
    var key := keys[position];
    var c := key[depth];
    assert v.prefix[stop] + [c] == key[..depth + 1];
    if nodes[stop].table[c] == 0 {
      StoreKeeps(nodes, v, keys, stop, c, position);
      StoreWeighs(nodes, stop, c, CellOf(position), 2);
    } else {
      var q := RowOf(nodes[stop].table[c]);
      assert RowsFit(nodes, v, stop);
      assert Inside(v.prefix[stop] + [c], position, keys);
      RoomAtFork(nodes, v, keys, stop, c, q, position);
      GrowKeeps(nodes, v, keys, stop, c, position);
      GrowWeighs(nodes, stop, c, 2);
      ForkInside(v.prefix[stop] + [c], keys, q, position);
      var w := Grown(v, stop, c, nodes[stop].table[c], position);
      assert w.prefix[|nodes|] + [key[depth + 1]] == key[..depth + 2];
      StoreKeeps(Hang(nodes, stop, c), w, keys, |nodes|, key[depth + 1], position);
      StoreWeighs(Hang(nodes, stop, c), |nodes|, key[depth + 1], CellOf(position), 2);
    }
  }

  /** A row with the same key as a stored one stops at that row's slot. */
  lemma {:induction false} StopsAtSlot(nodes: seq<Node>, v: View, keys: seq<seq<byte>>, r: nat, stop: nat, depth: nat)
    requires Valid(nodes, v, keys) && r in v.slot && r < |keys|
    requires StopsAt(nodes, v, keys[r], stop, depth)
    ensures v.slot[r] == Slot(stop, keys[r][depth]) && nodes[stop].table[keys[r][depth]] == CellOf(r)
  {
    assert Stored(nodes, v, keys, r);
    var s := v.slot[r];
    var w := v.prefix[s.node];
    if depth <= |w| {
      Towards(nodes, v, keys, r, stop, depth);
    } else {
      assert w + [s.at] == keys[r][..|w| + 1] == v.prefix[stop][..|w| + 1];
      assert v.prefix[stop][..|w|] == (w + [s.at])[..|w|] == w;
      Onward(nodes, v, stop, s.node, |w|);
    }
    assert RowsFit(nodes, v, stop);
  }

  datatype Added = Added(readd: int) | Duplicate

  class NodeList {
    const rows: seq<Row>
    const skip: nat
    var nodes: seq<Node>
    ghost var view: View

    /** `reinitializenodes()`: a list holding just the root. */
    constructor (rows: seq<Row>, skip: nat)
      ensures this.rows == rows && this.skip == skip
      ensures nodes == [FreshNode()] && view == ROOT_VIEW
    {
      this.rows, this.skip := rows, skip;
      nodes := [FreshNode()];
      view := ROOT_VIEW;
    }

    ghost predicate NumericOk()
      reads this
    {
      && NumericFits(NumericKeys(rows))
      && Unpacked(nodes) && Weighed(nodes, 1)
      && Valid(nodes, view, NumericKeys(rows))
      && AtLeaves(view, NumericKeys(rows))
    }

    /** Follow the link for one byte of the key, allocating the node if need be. */
    method Descend(n: nat, idx: byte, ghost position: nat, ghost depth: nat) returns (a: nat)
      requires NumericOk() && position < |rows| && n < |nodes| && depth < 3
      requires view.prefix[n] == NumericKey(rows[position].numeric)[..depth]
      requires idx == NumericKey(rows[position].numeric)[depth]
      modifies this
      ensures NumericOk() && view.slot == old(view.slot)
      ensures a < |nodes| && view.prefix[a] == NumericKey(rows[position].numeric)[..depth + 1]
    {
      hide Valid, AtLeaves, NumericFits, NumericKey, Weighed;
      NumericStep(rows, nodes, view, n, position, depth);
      if nodes[n].table[idx] == 0 {
        a := |nodes|;
        GrowWeighs(nodes, n, idx, 1);
        nodes, view := Hang(nodes, n, idx), Grown(view, n, idx, 0, position);
      } else {
        a := nodes[n].table[idx];
      }
    }

    /** `addnumeric`: refuses exactly the rows whose low 32 bits are already in use. */
    method AddNumeric(position: nat) returns (ok: bool)
      requires NumericOk() && position < |rows| && position !in view.slot
      modifies this
      ensures ok <==> forall r | r in old(view.slot) ::
                        r < |rows| && Low32(rows[r].numeric) != Low32(rows[position].numeric)
      ensures ok ==> NumericOk() && view.slot.Keys == old(view.slot.Keys) + {position}
    {
      hide Valid, AtLeaves, AllPrefixes, Low32, Weighed;
      var m := rows[position].numeric;
      Rooted(nodes, view, NumericKeys(rows));
      var n := Descend(0, Octet(m, 3), position, 0);
      n := Descend(n, Octet(m, 2), position, 1);
      n := Descend(n, Octet(m, 1), position, 2);
      var idx := Octet(m, 0);
      Rooted(nodes, view, NumericKeys(rows));
      assert view.prefix[n] + [idx] == NumericKey(m);
      NumericLeafCell(rows, nodes, view, n, idx, position);
      if nodes[n].table[idx] != 0 {
        return false;
      }
      StoreWeighs(nodes, n, idx, CellOf(position), 1);
      nodes := SetCell(nodes, n, idx, CellOf(position));
      view := view.(slot := view.slot[position := Slot(n, idx)]);
      ok := true;
    }

    /** `buildnumeric`: succeeds exactly when all low 32 bits differ. */
    method BuildNumeric() returns (ok: bool)
      requires NumericOk() && StoredUpTo(view, 0)
      modifies this
      ensures ok <==> DistinctLow32(rows, |rows|)
      ensures ok ==> NumericOk() && StoredUpTo(view, |rows|)
    {
      hide Valid, AtLeaves, NumericFits, Low32, Weighed;
      ok := true;
      var i := 0;
      while i < |rows|
        invariant i <= |rows| && NumericOk() && StoredUpTo(view, i) && DistinctLow32(rows, i)
      {
        ok := AddNumeric(i);
        if !ok {
          return;
        }
        i := i + 1;
      }
    }

    ghost predicate StringOk()
      reads this
    {
      && Shares(rows, skip)
      && StringFits(StringKeys(rows, skip))
      && Unpacked(nodes) && Weighed(nodes, 2)
      && Valid(nodes, view, StringKeys(rows, skip)) && Forked(view, StringKeys(rows, skip))
    }

    /**
     `recursiveaddstring`: one insertion, which may push a stored row out of its
     cell.  The error exit at the end of the loop is not reachable.
     */
    method RecursiveAddString(position: nat)
      returns (result: Added, ghost stop: nat, ghost depth: nat)
      requires StringOk() && position < |rows| && position !in view.slot
      modifies this
      ensures result.Duplicate? <==> exists r :: r in old(view.slot) && r < |rows| && rows[r].str == rows[position].str
      ensures result.Duplicate? ==> nodes == old(nodes) && view == old(view)
      ensures result.Added? ==>
        var key := StringKeys(rows, skip)[position];
        && StopsAt(old(nodes), old(view), key, stop, depth)
        && result.readd == old(nodes)[stop].table[key[depth]]
        && (result.readd < 0 ==> depth + 1 < |key| && |old(nodes)| < 32768)
        && StringOk()
        && nodes == Inserted(old(nodes), stop, key, depth, position)
        && view == InsertedView(old(nodes), old(view), stop, key, depth, position)
    {
      hide Valid, Forked, Forks, Weighed;
      var str := rows[position].str;
      ghost var keys := StringKeys(rows, skip);
      ghost var key := keys[position];
      Rooted(nodes, view, keys);
      var readd: short := 0;
      var n: nat := 0;
      var i := skip;
      stop, depth := 0, 0;
      while i <= |str|
        invariant skip <= i <= |str| + 1 && n < |nodes| && |key| == |str| + 1 - skip
        invariant readd == 0 ==>
          && nodes == old(nodes) && view == old(view)
          && i <= |str| && n < |view.prefix| && view.prefix[n] == key[..i - skip]
        invariant readd < 0 ==>
          && StopsAt(old(nodes), old(view), key, stop, depth)
          && readd == old(nodes)[stop].table[key[depth]]
          && depth + 1 < |key| && |old(nodes)| < 32768 && Inside(key[..depth + 1], RowOf(readd), keys)
          && i - skip == depth + 1 && n == |old(nodes)|
          && nodes == Hang(old(nodes), stop, key[depth])
          && !exists r :: r in old(view.slot) && r < |rows| && rows[r].str == str
        invariant readd <= 0
      {
        var idx := CharAt(str, i);
        assert idx == key[i - skip];
        var val := nodes[n].table[idx];
        if val > 0 {
          FollowLink(rows, skip, nodes, view, n, position, i - skip);
          n := val;
        } else if val == 0 {
          if readd == 0 {
            stop, depth := n, i - skip;
            NoSuchName(rows, skip, nodes, view, position, stop, depth);
          }
          InsertKeeps(old(nodes), old(view), keys, stop, depth, position);
          nodes := SetCell(nodes, n, idx, CellOf(position));
          view := InsertedView(old(nodes), old(view), stop, key, depth, position);
          return Added(readd), stop, depth;
        } else {
          readd := val;
          stop, depth := n, i - skip;
          RowInCell(nodes, view, keys, n, idx);
          if str == rows[RowOf(val)].str {
            return Duplicate, stop, depth;
          }
          NoSuchName(rows, skip, nodes, view, position, stop, depth);
          Deeper(rows, skip, nodes, view, position, stop, depth);
          nodes := Hang(nodes, n, idx);
          n := |nodes| - 1;
        }
        i := i + 1;
      }
      assert false;
    }

    /**
     `addstring`: insert a row, then re-insert whichever row it pushed out, until
     none is missing.  Each round settles one more character of the two names.
     */
    method AddString(position: nat) returns (ok: bool)
      requires StringOk() && position < |rows| && StoredUpTo(view, position) && DistinctNames(rows, position)
      modifies this
      ensures ok <==> DistinctNames(rows, position + 1)
      ensures ok ==> StringOk() && StoredUpTo(view, position + 1)
    {
      hide Valid, Forked, Weighed, StringFits, Inside, Alone, Inserted, InsertedView, Undecided;
      var res := position;
      var result, stop, depth := RecursiveAddString(res);
      if result.Duplicate? {
        return false;
      }
      var readd := result.readd;
      ghost var last := res;
      Settle(rows, skip, old(nodes), old(view), position, res, stop, depth);
      while readd < 0
        invariant readd <= 0 && StringOk()
        invariant readd == 0 ==> StoredUpTo(view, position + 1)
        invariant readd < 0 ==> Missing(rows, skip, nodes, view, position, last, RowOf(readd))
        decreases if readd < 0 then Undecided(rows, skip, view, last, RowOf(readd)) else 0
      {
        res := RowOf(readd);
        ghost var nodes0, view0 := nodes, view;
        result, stop, depth := RecursiveAddString(res);
        assert result.Added?;
        readd := result.readd;
        Round(rows, skip, nodes0, view0, position, last, res, stop, depth);
        last := res;
      }
      ok := true;
    }

    /** `buildstring`: succeeds exactly when all names differ. */
    method BuildString() returns (ok: bool)
      requires StringOk() && StoredUpTo(view, 0)
      modifies this
      ensures ok <==> DistinctNames(rows, |rows|)
      ensures ok ==> StringOk() && StoredUpTo(view, |rows|)
    {
      hide Valid, Forked, Weighed, StringFits;
      ok := true;
      var i := 0;
      while i < |rows|
        invariant i <= |rows| && StringOk() && StoredUpTo(view, i) && DistinctNames(rows, i)
      {
        ok := AddString(i);
        if !ok {
          return;
        }
        i := i + 1;
      }
    }
  }

  // ---- Displacement ----

  ghost predicate AllBut(v: View, position: nat, missing: nat) {
    forall r: nat :: r in v.slot <==> r <= position && r != missing
  }

  /** Row `missing` was pushed out by row `last`, which now sits alone in a node on the way of both. */
  ghost predicate Missing(rows: seq<Row>, skip: nat, nodes: seq<Node>, v: View, position: nat, last: nat, missing: nat)
    requires Shares(rows, skip)
  {
    && missing <= position < |rows| && last <= position && last != missing
    && AllBut(v, position, missing)
    && v.slot[last].node < |nodes| == |v.prefix|
    && Inside(v.prefix[v.slot[last].node], missing, StringKeys(rows, skip))
    && Inside(v.prefix[v.slot[last].node], last, StringKeys(rows, skip))
    && Alone(nodes, v.slot[last])
  }

  ghost predicate Alone(nodes: seq<Node>, s: Slot)
    requires s.node < |nodes|
  {
    forall c | 0 <= c < 256 && c != s.at :: nodes[s.node].table[c] == 0
  }

  /** The characters of both names not yet known to agree. */
  ghost function Undecided(rows: seq<Row>, skip: nat, v: View, last: nat, missing: nat): int
    requires Shares(rows, skip) && last < |rows| && missing < |rows| && last in v.slot && v.slot[last].node < |v.prefix|
  {
    |rows[last].str| + |rows[missing].str| + 2 - 2 * |v.prefix[v.slot[last].node]|
  }

  /** After one round either nothing is missing, or the row just pushed out is. */
  lemma {:induction false} Settle(rows: seq<Row>, skip: nat, nodes: seq<Node>, v: View, position: nat, p: nat,
                                  stop: nat, depth: nat)
    requires Shares(rows, skip) && StringFits(StringKeys(rows, skip)) && Valid(nodes, v, StringKeys(rows, skip))
    requires p <= position < |rows| && AllBut(v, position, p)
    requires StopsAt(nodes, v, StringKeys(rows, skip)[p], stop, depth)
    requires nodes[stop].table[StringKeys(rows, skip)[p][depth]] < 0 ==>
               depth + 1 < |StringKeys(rows, skip)[p]| && |nodes| < 32768
    ensures var key := StringKeys(rows, skip)[p];
            var cell := nodes[stop].table[key[depth]];
            var nodes', v' := Inserted(nodes, stop, key, depth, p), InsertedView(nodes, v, stop, key, depth, p);
            if cell == 0 then StoredUpTo(v', position + 1)
            else Missing(rows, skip, nodes', v', position, p, RowOf(cell)) && |v'.prefix[v'.slot[p].node]| == depth + 1
  {
    var keys := StringKeys(rows, skip);
    var key := keys[p];
    var cell := nodes[stop].table[key[depth]];
    if cell < 0 {
      assert RowsFit(nodes, v, stop) && Stored(nodes, v, keys, RowOf(cell));
      assert v.prefix[stop] + [key[depth]] == key[..depth + 1];
      NotTheWholeKey(rows, skip, p, RowOf(cell), depth + 1);
    }
  }

  /** The part two different names share is not all of either key. */
  lemma {:induction false} NotTheWholeKey(rows: seq<Row>, skip: nat, q: nat, r: nat, depth: nat)
    requires Shares(rows, skip) && q < |rows| && r < |rows|
    requires var keys := StringKeys(rows, skip);
             depth < |keys[q]| && depth <= |keys[r]| && keys[q][..depth] == keys[r][..depth]
    ensures depth < |StringKeys(rows, skip)[r]|
  {
    var keys := StringKeys(rows, skip);
    if depth == |keys[r]| {
      assert keys[r] <= keys[q];
      SameName(rows, skip, r, q);
    }
  }

  /** Re-inserting the missing row can only meet the row that pushed it out. */
  lemma {:induction false} OnlyTheLast(rows: seq<Row>, skip: nat, nodes: seq<Node>, v: View, position: nat, last: nat,
                                       missing: nat,
                    stop: nat, depth: nat)
    requires Shares(rows, skip) && Valid(nodes, v, StringKeys(rows, skip))
    requires Missing(rows, skip, nodes, v, position, last, missing)
    requires StopsAt(nodes, v, StringKeys(rows, skip)[missing], stop, depth)
    ensures stop == v.slot[last].node && depth == |v.prefix[stop]|
    ensures var cell := nodes[stop].table[StringKeys(rows, skip)[missing][depth]];
            cell == 0 || cell == CellOf(last)
  {
    var keys := StringKeys(rows, skip);
    var key := keys[missing];
    var h := v.slot[last].node;
    var w := v.prefix[h];
    assert Stored(nodes, v, keys, last);
    if depth < |w| {
      assert w[..depth] == key[..depth] && w[depth] == key[depth];
      Onward(nodes, v, h, stop, depth);
    } else if depth > |w| {
      var u := v.prefix[stop];
      assert u[..|w|] == key[..|w|] == w;
      Onward(nodes, v, stop, h, |w|);
    } else {
      SamePrefix(v, stop, h);
    }
  }

  /** A later round either ends the displacement or swaps the two rows one character deeper. */
  lemma {:induction false} Round(rows: seq<Row>, skip: nat, nodes: seq<Node>, v: View, position: nat, last: nat,
                                 missing: nat,
              stop: nat, depth: nat)
    requires Shares(rows, skip) && StringFits(StringKeys(rows, skip)) && Valid(nodes, v, StringKeys(rows, skip))
    requires Missing(rows, skip, nodes, v, position, last, missing)
    requires StopsAt(nodes, v, StringKeys(rows, skip)[missing], stop, depth)
    requires nodes[stop].table[StringKeys(rows, skip)[missing][depth]] < 0 ==>
               depth + 1 < |StringKeys(rows, skip)[missing]| && |nodes| < 32768
    ensures var key := StringKeys(rows, skip)[missing];
            var cell := nodes[stop].table[key[depth]];
            var nodes' := Inserted(nodes, stop, key, depth, missing);
            var v' := InsertedView(nodes, v, stop, key, depth, missing);
            if cell == 0 then StoredUpTo(v', position + 1)
            else
              && RowOf(cell) == last
              && Missing(rows, skip, nodes', v', position, missing, last)
              && 0 <= Undecided(rows, skip, v', missing, last) < Undecided(rows, skip, v, last, missing)
    ensures 0 < Undecided(rows, skip, v, last, missing)
  {
    OnlyTheLast(rows, skip, nodes, v, position, last, missing, stop, depth);
    Settle(rows, skip, nodes, v, position, missing, stop, depth);
  }

  // ---- Facts used by the insertion methods ----

  /** Above full depth a cell is empty, and can take a node, or links on. */
  lemma {:induction false} NumericStep(rows: seq<Row>, nodes: seq<Node>, v: View, n: nat, position: nat, depth: nat)
    requires NumericFits(NumericKeys(rows)) && Valid(nodes, v, NumericKeys(rows)) && AtLeaves(v, NumericKeys(rows))
    requires position < |rows| && n < |nodes| && depth < 3
    requires v.prefix[n] == NumericKey(rows[position].numeric)[..depth]
    ensures |nodes| == |v.prefix| == |v.via| == |v.parent|
    ensures var key := NumericKey(rows[position].numeric);
            var cell := nodes[n].table[key[depth]];
            && v.prefix[n] + [key[depth]] == key[..depth + 1]
            && if cell == 0 then
                 && |nodes| < 32768
                 && Valid(Hang(nodes, n, key[depth]), Grown(v, n, key[depth], 0, position), NumericKeys(rows))
                 && AtLeaves(Grown(v, n, key[depth], 0, position), NumericKeys(rows))
               else 0 < cell < |nodes| && v.prefix[cell] == key[..depth + 1]
  {
    var keys := NumericKeys(rows);
    var c := keys[position][depth];
    assert v.prefix[n] + [c] == keys[position][..depth + 1];
    assert LinksFit(nodes, v, n) && RowsFit(nodes, v, n);
    if nodes[n].table[c] == 0 {
      assert Inside(v.prefix[n] + [c], position, keys);
      RoomInside(nodes, v, keys, n, c, position);
      GrowKeeps(nodes, v, keys, n, c, position);
    }
  }

  /** At full depth, a row agrees on the low 32 bits exactly when it owns the cell. */
  lemma {:induction false} NumericLeaf(rows: seq<Row>, nodes: seq<Node>, v: View, n: nat, idx: byte, position: nat,
                                       r: nat)
    requires Valid(nodes, v, NumericKeys(rows)) && AtLeaves(v, NumericKeys(rows)) && n < |nodes|
    requires position < |rows| && v.prefix[n] + [idx] == NumericKey(rows[position].numeric) && r in v.slot
    ensures r < |rows|
    ensures Low32(rows[r].numeric) == Low32(rows[position].numeric) <==> v.slot[r] == Slot(n, idx)
  {
    NumericKeyIsLow32(rows[r].numeric, rows[position].numeric);
    var s := v.slot[r];
    if NumericKey(rows[r].numeric) == NumericKey(rows[position].numeric) {
      assert (v.prefix[s.node] + [s.at])[..3] == (v.prefix[n] + [idx])[..3];
      assert (v.prefix[s.node] + [s.at])[3] == (v.prefix[n] + [idx])[3];
      SamePrefix(v, s.node, n);
    }
  }

  /** The leaf cell is free exactly when no stored row agrees, and then takes the row. */
  lemma {:induction false} NumericLeafCell(rows: seq<Row>, nodes: seq<Node>, v: View, n: nat, idx: byte, position: nat)
    requires NumericFits(NumericKeys(rows)) && Valid(nodes, v, NumericKeys(rows)) && AtLeaves(v, NumericKeys(rows))
    requires n < |nodes| && position < |rows| && position !in v.slot
    requires v.prefix[n] + [idx] == NumericKey(rows[position].numeric)
    ensures nodes[n].table[idx] == 0 <==>
            forall r | r in v.slot :: r < |rows| && Low32(rows[r].numeric) != Low32(rows[position].numeric)
    ensures nodes[n].table[idx] == 0 ==>
            && Valid(SetCell(nodes, n, idx, CellOf(position)), v.(slot := v.slot[position := Slot(n, idx)]),
                     NumericKeys(rows))
            && AtLeaves(v.(slot := v.slot[position := Slot(n, idx)]), NumericKeys(rows))
  {
    var keys := NumericKeys(rows);
    var cell := nodes[n].table[idx];
    assert LinksFit(nodes, v, n) && RowsFit(nodes, v, n);
    forall k | 0 <= k < |nodes| ensures |v.prefix[k]| < 4 {
      assert Inside(v.prefix[k], v.via[k], keys);
    }
    if cell < 0 {
      NumericLeaf(rows, nodes, v, n, idx, position, RowOf(cell));
    } else if cell == 0 {
      forall r | r in v.slot ensures r < |rows| && Low32(rows[r].numeric) != Low32(rows[position].numeric) {
        NumericLeaf(rows, nodes, v, n, idx, position, r);
        assert Stored(nodes, v, keys, r);
      }
      StoreKeeps(nodes, v, keys, n, idx, position);
    }
  }

  /** A link on the way of a name leads on, and never past its terminator. */
  lemma {:induction false} FollowLink(rows: seq<Row>, skip: nat, nodes: seq<Node>, v: View, n: nat, position: nat,
                                      depth: nat)
    requires Shares(rows, skip) && Valid(nodes, v, StringKeys(rows, skip)) && position < |rows|
    requires n < |nodes| && depth < |StringKeys(rows, skip)[position]|
    requires v.prefix[n] == StringKeys(rows, skip)[position][..depth]
    requires nodes[n].table[StringKeys(rows, skip)[position][depth]] > 0
    ensures var key := StringKeys(rows, skip)[position];
            var k := nodes[n].table[key[depth]];
            k < |nodes| && v.prefix[k] == key[..depth + 1] && depth + 1 < |key|
  {
    var keys := StringKeys(rows, skip);
    var k := nodes[n].table[keys[position][depth]];
    assert LinksFit(nodes, v, n);
    assert v.prefix[n] + [keys[position][depth]] == keys[position][..depth + 1];
    var r := v.via[k];
    assert Inside(v.prefix[k], r, keys);
    if depth + 1 == |keys[position]| {
      SameName(rows, skip, position, r);
    }
  }

  lemma {:induction false} RowInCell(nodes: seq<Node>, v: View, keys: seq<seq<byte>>, n: nat, c: byte)
    requires Valid(nodes, v, keys) && n < |nodes| && nodes[n].table[c] < 0
    ensures RowOf(nodes[n].table[c]) in v.slot && RowOf(nodes[n].table[c]) < |keys|
  {
    assert RowsFit(nodes, v, n) && Stored(nodes, v, keys, RowOf(nodes[n].table[c]));
  }

  /** Where the walk stops at another name, the name is not stored at all. */
  lemma {:induction false} NoSuchName(rows: seq<Row>, skip: nat, nodes: seq<Node>, v: View, position: nat, stop: nat,
                                      depth: nat)
    requires Shares(rows, skip) && Valid(nodes, v, StringKeys(rows, skip)) && position < |rows|
    requires StopsAt(nodes, v, StringKeys(rows, skip)[position], stop, depth)
    requires var cell := nodes[stop].table[StringKeys(rows, skip)[position][depth]];
             cell < 0 ==> RowOf(cell) < |rows| && rows[RowOf(cell)].str != rows[position].str
    ensures !exists r :: r in v.slot && r < |rows| && rows[r].str == rows[position].str
  {
    forall r | r in v.slot && r < |rows| && rows[r].str == rows[position].str ensures false {
      StopsAtSlot(nodes, v, StringKeys(rows, skip), r, stop, depth);
    }
  }

  /** Two different names part before the terminator. */
  lemma {:induction false} Deeper(rows: seq<Row>, skip: nat, nodes: seq<Node>, v: View, position: nat, stop: nat,
                                  depth: nat)
    requires Shares(rows, skip) && StringFits(StringKeys(rows, skip)) && position < |rows|
    requires Valid(nodes, v, StringKeys(rows, skip)) && Forked(v, StringKeys(rows, skip))
    requires StopsAt(nodes, v, StringKeys(rows, skip)[position], stop, depth)
    requires var cell := nodes[stop].table[StringKeys(rows, skip)[position][depth]];
             cell < 0 && RowOf(cell) < |rows| && rows[RowOf(cell)].str != rows[position].str
    ensures depth + 1 < |StringKeys(rows, skip)[position]| && |nodes| < 32768
    ensures var key := StringKeys(rows, skip)[position];
            Inside(key[..depth + 1], RowOf(nodes[stop].table[key[depth]]), StringKeys(rows, skip))
  {
    hide Forks, Forked;
    var keys := StringKeys(rows, skip);
    var c := keys[position][depth];
    var r := RowOf(nodes[stop].table[c]);
    assert RowsFit(nodes, v, stop);
    assert Stored(nodes, v, keys, r);
    assert v.prefix[stop] + [c] == keys[position][..depth + 1];
    if depth + 1 == |keys[position]| {
      SameName(rows, skip, position, r);
    }
    assert Inside(v.prefix[stop] + [c], position, keys);
    NotTheWholeKey(rows, skip, position, r, depth + 1);
    RoomAtFork(nodes, v, keys, stop, c, r, position);
  }
}
