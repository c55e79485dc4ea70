/**
 `compresstable`: first-fit row displacement of the nodes' tables into one
 array, with trial and undo.
 */
module Pack {
  import opened Bytes
  import opened Trie
  import opened Alphabet
  import opened Generator

  /** Cell `c` of a table takes a place in the packed array. */
  predicate InUse(a: Alphabet, table: Table, c: byte)
    requires |a.usage| == 256
  {
    a.usage[c] && table[c] != 0
  }

  /** The places taken by the first `n` cells of a table at an offset. */
  ghost function Places(a: Alphabet, table: Table, offset: nat, n: nat): set<nat>
    requires |a.usage| == |a.idx| == 256 && n <= 256
  {
    if n == 0 then {}
    else Places(a, table, offset, n - 1) + if InUse(a, table, n - 1) then {a.idx[n - 1] + offset} else {}
  }

  ghost function AllPlaces(a: Alphabet, table: Table, offset: nat): set<nat>
    requires |a.usage| == |a.idx| == 256
  {
    Places(a, table, offset, |table|)
  }

  lemma {:induction false} CellToPlace(a: Alphabet, table: Table, offset: nat, n: nat, c: byte)
    requires |a.usage| == |a.idx| == 256 && c < n <= 256 && InUse(a, table, c)
    ensures a.idx[c] + offset in Places(a, table, offset, n)
  {
    if c < n - 1 {
      CellToPlace(a, table, offset, n - 1, c);
    }
  }

  lemma {:induction false} PlaceToCell(a: Alphabet, table: Table, offset: nat, n: nat, p: nat) returns (c: byte)
    requires |a.usage| == |a.idx| == 256 && n <= 256 && p in Places(a, table, offset, n)
    ensures c < n && InUse(a, table, c) && a.idx[c] + offset == p
  {
    if p in Places(a, table, offset, n - 1) {
      c := PlaceToCell(a, table, offset, n - 1, p);
    } else {
      c := n - 1;
    }
  }

  /** Different cells take different places, all within `count` of the offset. */
  lemma {:induction false} NewPlace(a: Alphabet, table: Table, offset: nat, n: nat)
    requires Numbered(a) && n < 256 && InUse(a, table, n)
    ensures a.idx[n] < a.count && a.idx[n] + offset !in Places(a, table, offset, n)
  {
    NumbersDiffer(a, n, n);
    if a.idx[n] + offset in Places(a, table, offset, n) {
      var c := PlaceToCell(a, table, offset, n, a.idx[n] + offset);
      NumbersDiffer(a, n, c);
    }
  }

  /** One of the first tables, placed at the given offsets, takes place `p`. */
  ghost predicate Taken(a: Alphabet, tables: seq<Table>, offs: seq<nat>, p: nat)
    requires |a.usage| == |a.idx| == 256 && |offs| <= |tables|
  {
    exists j :: 0 <= j < |offs| && p in AllPlaces(a, tables[j], offs[j])
  }

  /** The next table would share a place with one already placed. */
  ghost predicate Collides(a: Alphabet, tables: seq<Table>, offs: seq<nat>, offset: nat)
    requires |a.usage| == |a.idx| == 256 && |offs| < |tables|
  {
    exists p :: p in AllPlaces(a, tables[|offs|], offset) && Taken(a, tables, offs, p)
  }

  /** Each table sits at the first offset where it collides with none before it. */
  ghost predicate FirstFit(a: Alphabet, tables: seq<Table>, offs: seq<nat>)
    requires |a.usage| == |a.idx| == 256 && |offs| <= |tables|
  {
    forall j | 0 <= j < |offs| ::
      && !Collides(a, tables, offs[..j], offs[j])
      && forall o: nat | o < offs[j] :: Collides(a, tables, offs[..j], o)
  }

  ghost predicate Bounded(offs: seq<nat>, count: nat) {
    forall j | 0 <= j < |offs| :: offs[j] <= j * count
  }

  /** The mark array shows exactly the places taken. */
  ghost predicate Marked(t: seq<bool>, a: Alphabet, tables: seq<Table>, offs: seq<nat>)
    requires |a.usage| == |a.idx| == 256 && |offs| <= |tables|
  {
    forall p: nat | p < |t| :: t[p] <==> Taken(a, tables, offs, p)
  }

  // ---- One trial ----

  ghost predicate Clear(t: seq<bool>, places: set<nat>) {
    forall p | p in places :: p < |t| && !t[p]
  }

  /** Try a table at an offset; on a clash every mark made is taken back. */
  method TryPlace(t: array<bool>, a: Alphabet, table: Table, offset: nat) returns (ok: bool)
    requires Numbered(a) && offset + a.count <= t.Length
    modifies t
    ensures ok <==> Clear(old(t[..]), AllPlaces(a, table, offset))
    ensures ok ==> forall p: nat | p < t.Length :: t[p] <==> old(t[p]) || p in AllPlaces(a, table, offset)
    ensures !ok ==> t[..] == old(t[..])
  {
    hide Rank, Numbered;
    assert |a.usage| == |a.idx| == 256 by { Sizes(a); }
    var k := 0;
    while k < |table|
      invariant 0 <= k <= |table|
      invariant forall p: nat | p < t.Length :: t[p] <==> old(t[p]) || p in Places(a, table, offset, k)
      invariant Clear(old(t[..]), Places(a, table, offset, k))
    {
      if InUse(a, table, k) {
        NewPlace(a, table, offset, k);
        if t[a.idx[k] + offset] {
          break;
        }
        t[a.idx[k] + offset] := true;
      }
      k := k + 1;
    }
    ok := k == |table|;
    if !ok {
      CellToPlace(a, table, offset, |table|, k);
      ghost var mine := Places(a, table, offset, k);
      var l := 0;
      while l < k
        invariant 0 <= l <= k
        invariant forall p: nat | p < t.Length ::
          t[p] <==> old(t[p]) || (p in mine && p !in Places(a, table, offset, l))
      {
        if InUse(a, table, l) {
          CellToPlace(a, table, offset, k, l);
          NewPlace(a, table, offset, l);
          t[a.idx[l] + offset] := false;
        }
        l := l + 1;
      }
      assert t[..] == old(t[..]);
    }
  }

  // ---- The search for one table ----

  lemma {:induction false} PlacesBelow(a: Alphabet, table: Table, offset: nat, p: nat)
    requires Numbered(a) && p in AllPlaces(a, table, offset)
    ensures offset <= p < offset + a.count
  {
    var c := PlaceToCell(a, table, offset, |table|, p);
    NumbersDiffer(a, c, c);
  }

  lemma {:induction false} ClearIff(t: seq<bool>, a: Alphabet, tables: seq<Table>, offs: seq<nat>, offset: nat)
    requires Numbered(a) && |offs| < |tables| && Marked(t, a, tables, offs) && offset + a.count <= |t|
    ensures Clear(t, AllPlaces(a, tables[|offs|], offset)) <==> !Collides(a, tables, offs, offset)
  {
    forall p | p in AllPlaces(a, tables[|offs|], offset) ensures p < |t| {
      PlacesBelow(a, tables[|offs|], offset, p);
    }
  }

  lemma {:induction false} MarkedNext(t: seq<bool>, t': seq<bool>, a: Alphabet, tables: seq<Table>, offs: seq<nat>,
                                      offset: nat)
    requires |a.usage| == |a.idx| == 256 && |offs| < |tables| && |t| == |t'| && Marked(t, a, tables, offs)
    requires forall p: nat | p < |t| :: t'[p] <==> t[p] || p in AllPlaces(a, tables[|offs|], offset)
    ensures Marked(t', a, tables, offs + [offset])
  {
    var offs' := offs + [offset];
    forall p: nat | p < |t| ensures Taken(a, tables, offs', p) <==> t'[p] {
      if Taken(a, tables, offs, p) {
        var j :| 0 <= j < |offs| && p in AllPlaces(a, tables[j], offs[j]);
        assert offs'[j] == offs[j];
      }
      if p in AllPlaces(a, tables[|offs|], offset) {
        assert offs'[|offs|] == offset;
      }
    }
  }

  /** Offsets in ascending order, up to but not including `limit`. */
  method Search(t: array<bool>, a: Alphabet, table: Table, limit: nat, ghost tables: seq<Table>, ghost offs: seq<nat>)
    returns (found: bool, offset: nat)
    requires Numbered(a) && |offs| < |tables| && tables[|offs|] == table
    requires limit + a.count <= t.Length + 1 && Marked(t[..], a, tables, offs)
    modifies t
    ensures forall o: nat | o < offset :: Collides(a, tables, offs, o)
    ensures if found then offset < limit && !Collides(a, tables, offs, offset)
            && Marked(t[..], a, tables, offs + [offset])
            else offset == limit && Marked(t[..], a, tables, offs)
  {
    hide Numbered, Collides, Clear, AllPlaces;
    Sizes(a);
    found, offset := false, 0;
    while offset < limit
      invariant offset <= limit && Marked(t[..], a, tables, offs)
      invariant forall o: nat | o < offset :: Collides(a, tables, offs, o)
    {
      ghost var before := t[..];
      ClearIff(before, a, tables, offs, offset);
      found := TryPlace(t, a, table, offset);
      if found {
        MarkedNext(before, t[..], a, tables, offs, offset);
        return;
      }
      offset := offset + 1;
    }
  }

  // ---- All tables ----

  /** Nodes by descending `used` count, ties by number. */
  ghost predicate Precedes(nodes: seq<Node>, j: nat, k: nat)
    requires j < |nodes| && k < |nodes|
  {
    nodes[j].used > nodes[k].used || (nodes[j].used == nodes[k].used && j < k)
  }

  ghost predicate SortedPrefix(nodes: seq<Node>, order: seq<nat>, n: nat) {
    && n <= |nodes| && |order| == n
    && (forall i | 0 <= i < n :: order[i] < n)
    && (forall k | 0 <= k < n :: k in order)
    && (forall i, j | 0 <= i < j < n :: Precedes(nodes, order[i], order[j]))
  }

  /** The insertion sort at the head of `compresstable`. */
  method SortNodes(nodes: seq<Node>) returns (order: seq<nat>)
    ensures SortedPrefix(nodes, order, |nodes|)
  {
    order := [];
    var pos := 0;
    while pos < |nodes|
      invariant 0 <= pos <= |nodes| && SortedPrefix(nodes, order, pos)
    {
      var i := 0;
      while i < pos && nodes[pos].used <= nodes[order[i]].used
        invariant 0 <= i <= pos
        invariant forall j | 0 <= j < i :: Precedes(nodes, order[j], pos)
      {
        i := i + 1;
      }
      InsertSorted(nodes, order, pos, i);
      order := order[..i] + [pos] + order[i..];
      pos := pos + 1;
    }
  }

  lemma {:induction false} InsertSorted(nodes: seq<Node>, order: seq<nat>, pos: nat, i: nat)
    requires pos < |nodes| && SortedPrefix(nodes, order, pos) && i <= pos
    requires forall j | 0 <= j < i :: Precedes(nodes, order[j], pos)
    requires i < pos ==> nodes[pos].used > nodes[order[i]].used
    ensures SortedPrefix(nodes, order[..i] + [pos] + order[i..], pos + 1)
  {
    var order' := order[..i] + [pos] + order[i..];
    forall k | 0 <= k <= pos ensures k in order' {
      if k == pos {
        assert order'[i] == pos;
      } else {
        assert k in order;
        var j :| 0 <= j < |order| && order[j] == k;
        assert order'[if j < i then j else j + 1] == k;
      }
    }
    forall j | i <= j < pos ensures Precedes(nodes, pos, order[j]) {
      assert j == i || Precedes(nodes, order[i], order[j]);
    }
  }

  ghost function Tables(nodes: seq<Node>, order: seq<nat>): seq<Table>
    requires forall j | 0 <= j < |order| :: order[j] < |nodes|
  {
    seq(|order|, j requires 0 <= j < |order| => nodes[order[j]].table)
  }

  function MaxOf(offs: seq<nat>): nat {
    if offs == [] then 0
    else
      var m := MaxOf(offs[..|offs| - 1]);
      if offs[|offs| - 1] > m then offs[|offs| - 1] else m
  }

  /** The first nodes in sort order got the given offsets; nothing else changed. */
  ghost predicate GotOffsets(before: seq<Node>, after: seq<Node>, order: seq<nat>, offs: seq<nat>) {
    && |before| == |after| == |order| && |offs| <= |order|
    && (forall k | 0 <= k < |before| :: after[k].table == before[k].table && after[k].used == before[k].used)
    && (forall j | 0 <= j < |order| :: order[j] < |before|)
    && (forall j | 0 <= j < |offs| :: after[order[j]].offset == offs[j])
    && (forall j | |offs| <= j < |order| :: after[order[j]].offset == before[order[j]].offset)
  }

  lemma {:induction false} GotNext(before: seq<Node>, after: seq<Node>, order: seq<nat>, offs: seq<nat>, offset: nat)
    requires SortedPrefix(before, order, |before|) && GotOffsets(before, after, order, offs) && |offs| < |order|
    ensures var k := order[|offs|];
            GotOffsets(before, after[k := after[k].(offset := offset)], order, offs + [offset])
  {
    forall j | 0 <= j < |order| && j != |offs| ensures order[j] != order[|offs|] {
      assert j < |offs| ==> Precedes(before, order[j], order[|offs|]);
      assert j > |offs| ==> Precedes(before, order[|offs|], order[j]);
    }
  }

  lemma {:induction false} ProductGrows(i: nat, j: nat, count: nat)
    requires i < j
    ensures i * count + count <= j * count
  {
    MulMonotone(count, i + 1, j);
    assert count * (i + 1) == i * count + count;
  }

  /** Placed tables stay below the next multiple of the alphabet size. */
  lemma {:induction false} TakenBelow(a: Alphabet, tables: seq<Table>, offs: seq<nat>, p: nat)
    requires Numbered(a) && |offs| <= |tables| && Bounded(offs, a.count) && Taken(a, tables, offs, p)
    ensures p < |offs| * a.count
  {
    var j :| 0 <= j < |offs| && p in AllPlaces(a, tables[j], offs[j]);
    PlacesBelow(a, tables[j], offs[j], p);
    ProductGrows(j, |offs|, a.count);
  }

  lemma {:induction false} TopIsFree(a: Alphabet, tables: seq<Table>, offs: seq<nat>)
    requires Numbered(a) && |offs| < |tables| && Bounded(offs, a.count)
    ensures !Collides(a, tables, offs, |offs| * a.count)
  {
    if Collides(a, tables, offs, |offs| * a.count) {
      var p :| p in AllPlaces(a, tables[|offs|], |offs| * a.count) && Taken(a, tables, offs, p);
      PlacesBelow(a, tables[|offs|], |offs| * a.count, p);
      TakenBelow(a, tables, offs, p);
    }
  }

  lemma {:induction false} FitsNext(a: Alphabet, tables: seq<Table>, offs: seq<nat>, offset: nat)
    requires Numbered(a) && |offs| < |tables| && FirstFit(a, tables, offs) && Bounded(offs, a.count)
    requires !Collides(a, tables, offs, offset)
    requires forall o: nat | o < offset :: Collides(a, tables, offs, o)
    ensures FirstFit(a, tables, offs + [offset]) && Bounded(offs + [offset], a.count)
    ensures MaxOf(offs + [offset]) == if offset > MaxOf(offs) then offset else MaxOf(offs)
  {
    hide Numbered, Collides;
    Sizes(a);
    TopIsFree(a, tables, offs);
    var offs' := offs + [offset];
    assert offs'[..|offs|] == offs;
    assert offset <= |offs| * a.count;
    forall j | 0 <= j < |offs'|
      ensures !Collides(a, tables, offs'[..j], offs'[j])
      ensures forall o: nat | o < offs'[j] :: Collides(a, tables, offs'[..j], o)
    {
      assert j < |offs| ==> offs'[..j] == offs[..j];
    }
  }

  /** The offset search for each of `n` nodes stops here. */
  function Limit(n: nat, count: nat): nat
    requires 0 < n
  {
    (n - 1) * count
  }

  /** The search cannot fail for any table but the last. */
  lemma {:induction false} SearchSucceeds(a: Alphabet, tables: seq<Table>, offs: seq<nat>)
    requires Numbered(a) && 0 < a.count && |offs| + 1 < |tables| && Bounded(offs, a.count)
    ensures exists o: nat :: o < Limit(|tables|, a.count) && !Collides(a, tables, offs, o)
  {
    TopIsFree(a, tables, offs);
    ProductGrows(|offs|, |tables| - 1, a.count);
  }

  /** What the offset search leaves behind. */
  ghost predicate Packed(a: Alphabet, tables: seq<Table>, offs: seq<nat>)
    requires |a.usage| == |a.idx| == 256
  {
    && 0 < |tables| && |tables| - 1 <= |offs| <= |tables|
    && FirstFit(a, tables, offs) && Bounded(offs, a.count)
    && if |offs| == |tables| then offs[|offs| - 1] < Limit(|tables|, a.count)
       else forall o: nat | o < Limit(|tables|, a.count) :: Collides(a, tables, offs, o)
  }

  /**
   `compresstable`: every node but the last in sort order gets its first-fit
   offset; the last gets it too unless it is `(nextnum - 1) * usagecount`.
   */
  method CompressTable(list: NodeList, a: Alphabet)
    returns (maxoffset: nat, ghost order: seq<nat>, ghost offs: seq<nat>)
    requires Numbered(a) && 0 < a.count && 0 < |list.nodes|
    modifies list`nodes
    ensures SortedPrefix(old(list.nodes), order, |list.nodes|)
    ensures GotOffsets(old(list.nodes), list.nodes, order, offs)
    ensures Packed(a, Tables(old(list.nodes), order), offs)
    ensures maxoffset == MaxOf(offs)
  {
    hide Numbered, Collides, FirstFit, Bounded, Marked, MaxOf, Precedes, Limit;
    Sizes(a);
    var nextnum := |list.nodes|;
    var t := new bool[nextnum * a.count](i => false);
    var sorttable := SortNodes(list.nodes);
    order, offs, maxoffset := sorttable, [], 0;
    ghost var tables := Tables(list.nodes, order);
    NothingPlaced(t[..], a, tables);
    var limit := Limit(nextnum, a.count);
    assert limit + a.count <= t.Length by { ProductGrows(nextnum - 1, nextnum, a.count); LimitIs(nextnum, a.count); }
    var i := 0;
    while i < nextnum
      invariant 0 <= i <= nextnum && |list.nodes| == nextnum
      invariant GotOffsets(old(list.nodes), list.nodes, order, offs)
      invariant FirstFit(a, tables, offs) && Bounded(offs, a.count) && Marked(t[..], a, tables, offs)
      invariant maxoffset == MaxOf(offs)
      invariant i < nextnum ==> |offs| == i
      invariant i == nextnum ==> Packed(a, tables, offs)
    {
      var k := sorttable[i];
      var found, offset := Search(t, a, list.nodes[k].table, limit, tables, offs);
      if i < nextnum - 1 {
        SearchSucceeds(a, tables, offs);
      }
      if found {
        GotNext(old(list.nodes), list.nodes, order, offs, offset);
        FitsNext(a, tables, offs, offset);
        list.nodes := list.nodes[k := list.nodes[k].(offset := offset)];
        if offset > maxoffset {
          maxoffset := offset;
        }
        offs := offs + [offset];
      }
      i := i + 1;
    }
  }

  lemma {:induction false} LimitIs(n: nat, count: nat)
    requires 0 < n
    ensures Limit(n, count) == (n - 1) * count
  {
  }

  lemma {:induction false} NothingPlaced(t: seq<bool>, a: Alphabet, tables: seq<Table>)
    requires |a.usage| == |a.idx| == 256 && forall p | 0 <= p < |t| :: !t[p]
    ensures Marked(t, a, tables, []) && FirstFit(a, tables, []) && Bounded([], a.count) && MaxOf([]) == 0
  {
  }
}
