/**
 The generator's node list as a trie: what every insertion keeps, and why the
 cells met along a key are the ones its row needs.

 A cell is 0 when empty, a node number when positive, and `-row - 1` when
 negative.  `View` names what the source keeps implicit: the bytes spelled on
 the way from the root to each node, a row whose key goes through the node,
 the node's parent, and the one cell where each inserted row is stored.
 */
module Trie {
  import opened Bytes
  import opened MechTable

  type Table = t: seq<short> | |t| == 256 witness seq(256, i => 0)

  datatype Node = Node(table: Table, used: nat, offset: nat)

  /** What `allocatenode()` appends to the list. */
  function FreshNode(): Node { Node(seq(256, i => 0), 0, 0) }

  /** The cell that stores a row; zero is kept for empty cells. */
  function CellOf(row: nat): int { -1 - row as int }

  function RowOf(cell: int): nat
    requires cell < 0
  {
    -1 - cell
  }

  /** `nodes[n].table[c] = x; nodes[n].used += 1` */
  function SetCell(nodes: seq<Node>, n: nat, c: byte, x: short): seq<Node>
    requires n < |nodes|
  {
    nodes[n := Node(nodes[n].table[c := x], nodes[n].used + 1, nodes[n].offset)]
  }

  /** `allocatenode()` hung off cell `c` of node `n`. */
  function Hang(nodes: seq<Node>, n: nat, c: byte): seq<Node>
    requires n < |nodes| < 32768
  {
    SetCell(nodes, n, c, |nodes|) + [FreshNode()]
  }

  datatype Slot = Slot(node: nat, at: byte)

  datatype View = View(prefix: seq<seq<byte>>, via: seq<nat>, parent: seq<nat>, slot: map<nat, Slot>)

  const ROOT_VIEW := View([[]], [0], [0], map[])

  /** Node `k` hangs off its parent, an earlier node, at the last byte of its prefix. */
  ghost predicate HangsOff(nodes: seq<Node>, v: View, k: nat)
    requires |nodes| == |v.prefix| == |v.parent| && k < |nodes|
  {
    && 0 < |v.prefix[k]|
    && v.parent[k] < k
    && var last := |v.prefix[k]| - 1;
    && v.prefix[v.parent[k]] == v.prefix[k][..last]
    && nodes[v.parent[k]].table[v.prefix[k][last]] == k
  }

  ghost predicate LinksFit(nodes: seq<Node>, v: View, k: nat)
    requires |nodes| == |v.prefix| && k < |nodes|
  {
    forall c | 0 <= c < 256 && 0 < nodes[k].table[c] ::
      nodes[k].table[c] < |nodes| && v.prefix[nodes[k].table[c]] == v.prefix[k] + [c]
  }

  ghost predicate Distinct<T>(s: seq<T>) {
    forall i, j | 0 <= i < j < |s| :: s[i] != s[j]
  }

  /** The links form a tree rooted at node 0, and nodes spell distinct prefixes. */
  ghost predicate Tree(nodes: seq<Node>, v: View) {
    && 0 < |nodes| == |v.prefix| == |v.parent|
    && v.prefix[0] == []
    && Distinct(v.prefix)
    && (forall k | 0 < k < |nodes| :: HangsOff(nodes, v, k))
    && (forall k | 0 <= k < |nodes| :: LinksFit(nodes, v, k))
  }

  /** Every node lies strictly inside the key of some row. */
  ghost predicate Spelled(v: View, keys: seq<seq<byte>>) {
    && |v.via| == |v.prefix|
    && forall k | 0 <= k < |v.via| :: Inside(v.prefix[k], v.via[k], keys)
  }

  /** A proper prefix of key `r`. */
  ghost predicate Inside(w: seq<byte>, r: nat, keys: seq<seq<byte>>) {
    r < |keys| && |w| < |keys[r]| && w == keys[r][..|w|]
  }

  /** Row `r` is stored at its slot, on the way spelled by its key. */
  ghost predicate Stored(nodes: seq<Node>, v: View, keys: seq<seq<byte>>, r: nat)
    requires |nodes| == |v.prefix| && r in v.slot
  {
    && r < |keys|
    && v.slot[r].node < |nodes|
    && nodes[v.slot[r].node].table[v.slot[r].at] == CellOf(r)
    && v.prefix[v.slot[r].node] + [v.slot[r].at] <= keys[r]
  }

  ghost predicate RowsFit(nodes: seq<Node>, v: View, k: nat)
    requires k < |nodes|
  {
    forall c | 0 <= c < 256 && nodes[k].table[c] < 0 ::
      RowOf(nodes[k].table[c]) in v.slot && v.slot[RowOf(nodes[k].table[c])] == Slot(k, c)
  }

  /** Exactly the rows of `slot` are stored, each in one cell. */
  ghost predicate Holds(nodes: seq<Node>, v: View, keys: seq<seq<byte>>)
    requires |nodes| == |v.prefix|
  {
    && (forall r | r in v.slot :: Stored(nodes, v, keys, r))
    && (forall k | 0 <= k < |nodes| :: RowsFit(nodes, v, k))
  }

  ghost predicate Valid(nodes: seq<Node>, v: View, keys: seq<seq<byte>>) {
    Tree(nodes, v) && Spelled(v, keys) && Holds(nodes, v, keys)
  }

  lemma {:induction false} RootValid(keys: seq<seq<byte>>)
    requires 0 < |keys| && keys[0] != []
    ensures Valid([FreshNode()], ROOT_VIEW, keys)
  {
  }

  lemma {:induction false} Rooted(nodes: seq<Node>, v: View, keys: seq<seq<byte>>)
    requires Valid(nodes, v, keys)
    ensures 0 < |nodes| == |v.prefix| && v.prefix[0] == []
  {
  }

  // ---- Walking a key ----

  /** Some node spells each prefix of a node's prefix, and links onwards. */
  lemma {:induction false} Ancestor(nodes: seq<Node>, v: View, h: nat, i: nat) returns (m: nat)
    requires Tree(nodes, v) && h < |nodes| && i <= |v.prefix[h]|
    ensures m < |nodes| && v.prefix[m] == v.prefix[h][..i]
    ensures i < |v.prefix[h]| ==> 0 < nodes[m].table[v.prefix[h][i]]
    decreases |v.prefix[h]|
  {
    if i == |v.prefix[h]| {
      m := h;
    } else {
      assert HangsOff(nodes, v, h);
      var p := v.parent[h];
      if i == |v.prefix[h]| - 1 {
        m := p;
      } else {
        m := Ancestor(nodes, v, p, i);
      }
    }
  }

  lemma {:induction false} SamePrefix(v: View, m: nat, n: nat)
    requires Distinct(v.prefix) && m < |v.prefix| && n < |v.prefix| && v.prefix[m] == v.prefix[n]
    ensures m == n
  {
  }

  /** A node on the way to `h` links one byte closer to it. */
  lemma {:induction false} Onward(nodes: seq<Node>, v: View, h: nat, n: nat, i: nat)
    requires Tree(nodes, v) && h < |nodes| && n < |nodes|
    requires i < |v.prefix[h]| && v.prefix[n] == v.prefix[h][..i]
    ensures var t := nodes[n].table[v.prefix[h][i]];
            0 < t < |nodes| && v.prefix[t] == v.prefix[h][..i + 1]
  {
    var m := Ancestor(nodes, v, h, i);
    SamePrefix(v, m, n);
    assert LinksFit(nodes, v, n);
    assert v.prefix[h][..i] + [v.prefix[h][i]] == v.prefix[h][..i + 1];
  }

  /**
   The cells met along the key of a stored row are links up to the row's slot,
   and the slot holds the row.
   */
  lemma {:induction false} Towards(nodes: seq<Node>, v: View, keys: seq<seq<byte>>, r: nat, n: nat, i: nat)
    requires Valid(nodes, v, keys) && r in v.slot && n < |nodes|
    requires r < |keys| && i < |keys[r]| && v.prefix[n] == keys[r][..i]
    requires i <= |v.prefix[v.slot[r].node]|
    ensures var t := nodes[n].table[keys[r][i]];
            if i < |v.prefix[v.slot[r].node]|
            then 0 < t < |nodes| && v.prefix[t] == keys[r][..i + 1]
            else n == v.slot[r].node && t == CellOf(r)
  {
    assert Stored(nodes, v, keys, r);
    var s := v.slot[r];
    var w := v.prefix[s.node];
    assert w + [s.at] == keys[r][..|w| + 1];
    assert w == (w + [s.at])[..|w|] == keys[r][..|w|];
    if i < |w| {
      assert w[..i] == keys[r][..i] && w[..i + 1] == keys[r][..i + 1];
      Onward(nodes, v, s.node, n, i);
    } else {
      SamePrefix(v, n, s.node);
      assert (w + [s.at])[i] == s.at;
    }
  }

  // ---- Growing the trie ----

  lemma {:induction false} StoreTree(nodes: seq<Node>, v: View, n: nat, c: byte, r: nat)
    requires Tree(nodes, v) && n < |nodes| && nodes[n].table[c] == 0 && r < 32768
    ensures Tree(SetCell(nodes, n, c, CellOf(r)), v.(slot := v.slot[r := Slot(n, c)]))
  {
    var nodes', v' := SetCell(nodes, n, c, CellOf(r)), v.(slot := v.slot[r := Slot(n, c)]);
    forall k | 0 < k < |nodes'| ensures HangsOff(nodes', v', k) {
      assert HangsOff(nodes, v, k);
    }
    forall k | 0 <= k < |nodes'| ensures LinksFit(nodes', v', k) {
      assert LinksFit(nodes, v, k);
    }
  }

  lemma {:induction false} StoreHolds(nodes: seq<Node>, v: View, keys: seq<seq<byte>>, n: nat, c: byte, r: nat)
    requires |nodes| == |v.prefix| && Holds(nodes, v, keys) && n < |nodes| && nodes[n].table[c] == 0
    requires r < |keys| && r < 32768 && r !in v.slot && v.prefix[n] + [c] <= keys[r]
    ensures Holds(SetCell(nodes, n, c, CellOf(r)), v.(slot := v.slot[r := Slot(n, c)]), keys)
  {
    var nodes', v' := SetCell(nodes, n, c, CellOf(r)), v.(slot := v.slot[r := Slot(n, c)]);
    forall k | 0 <= k < |nodes'| ensures RowsFit(nodes', v', k) {
      assert RowsFit(nodes, v, k);
    }
    forall q | q in v'.slot ensures Stored(nodes', v', keys, q) {
      assert q != r ==> Stored(nodes, v, keys, q);
    }
  }

  /** Storing a row in an empty cell its key leads to. */
  lemma {:induction false} StoreKeeps(nodes: seq<Node>, v: View, keys: seq<seq<byte>>, n: nat, c: byte, r: nat)
    requires Valid(nodes, v, keys) && n < |nodes| && nodes[n].table[c] == 0
    requires r < |keys| && r < 32768 && r !in v.slot && v.prefix[n] + [c] <= keys[r]
    ensures Valid(SetCell(nodes, n, c, CellOf(r)), v.(slot := v.slot[r := Slot(n, c)]), keys)
  {
    StoreTree(nodes, v, n, c, r);
    StoreHolds(nodes, v, keys, n, c, r);
  }

  /** The view once cell `(n, c)`, which held `cell`, links to a fresh node inside key `r`. */
  ghost function Grown(v: View, n: nat, c: byte, cell: short, r: nat): View
    requires n < |v.prefix|
  {
    View(v.prefix + [v.prefix[n] + [c]], v.via + [r], v.parent + [n],
         if cell < 0 then v.slot - {RowOf(cell)} else v.slot)
  }

  /** No node spells what an unlinked cell would spell. */
  lemma {:induction false} Unspelled(nodes: seq<Node>, v: View, n: nat, c: byte)
    requires Tree(nodes, v) && n < |nodes| && nodes[n].table[c] <= 0
    ensures forall k | 0 <= k < |nodes| :: v.prefix[k] != v.prefix[n] + [c]
  {
    forall k | 0 <= k < |nodes| && v.prefix[k] == v.prefix[n] + [c] ensures false {
      assert HangsOff(nodes, v, k);
      assert v.prefix[k][..|v.prefix[n]|] == v.prefix[n];
      SamePrefix(v, v.parent[k], n);
    }
  }

  lemma {:induction false} GrowTree(nodes: seq<Node>, v: View, n: nat, c: byte, r: nat)
    requires Tree(nodes, v) && n < |nodes| < 32768 && nodes[n].table[c] <= 0
    ensures Tree(Hang(nodes, n, c), Grown(v, n, c, nodes[n].table[c], r))
  {
    var nodes', v' := Hang(nodes, n, c), Grown(v, n, c, nodes[n].table[c], r);
    Unspelled(nodes, v, n, c);
    forall k | 0 < k < |nodes'| ensures HangsOff(nodes', v', k) {
      if k < |nodes| {
        assert HangsOff(nodes, v, k);
      } else {
        assert v'.prefix[k][..|v.prefix[n]|] == v.prefix[n];
      }
    }
    forall k | 0 <= k < |nodes'| ensures LinksFit(nodes', v', k) {
      assert k < |nodes| ==> LinksFit(nodes, v, k);
    }
  }

  lemma {:induction false} GrowHolds(nodes: seq<Node>, v: View, keys: seq<seq<byte>>, n: nat, c: byte, r: nat)
    requires |nodes| == |v.prefix| && Holds(nodes, v, keys) && n < |nodes| < 32768 && nodes[n].table[c] <= 0
    ensures Holds(Hang(nodes, n, c), Grown(v, n, c, nodes[n].table[c], r), keys)
  {
    var nodes', v' := Hang(nodes, n, c), Grown(v, n, c, nodes[n].table[c], r);
    assert RowsFit(nodes, v, n);
    forall k | 0 <= k < |nodes'| ensures RowsFit(nodes', v', k) {
      if k < |nodes| {
        assert RowsFit(nodes, v, k);
        forall d: byte | nodes'[k].table[d] < 0 ensures v.slot[RowOf(nodes'[k].table[d])] == Slot(k, d) {
          assert nodes'[k].table[d] == nodes[k].table[d];
        }
      }
    }
    forall q | q in v'.slot ensures Stored(nodes', v', keys, q) {
      assert Stored(nodes, v, keys, q);
    }
  }

  /**
   Hanging a fresh node off a cell that was empty or held a row; that row, if
   any, is the only one no longer stored.
   */
  lemma {:induction false} GrowKeeps(nodes: seq<Node>, v: View, keys: seq<seq<byte>>, n: nat, c: byte, r: nat)
    requires Valid(nodes, v, keys) && n < |nodes| < 32768 && nodes[n].table[c] <= 0
    requires Inside(v.prefix[n] + [c], r, keys)
    ensures Valid(Hang(nodes, n, c), Grown(v, n, c, nodes[n].table[c], r), keys)
  {
    GrowTree(nodes, v, n, c, r);
    GrowHolds(nodes, v, keys, n, c, r);
  }

  // ---- How often a cell was written ----

  /** A value was written once, a link `link` times: a string trie's links were values before. */
  function Weight(table: seq<short>, n: nat, link: nat): nat
    requires n <= |table|
  {
    if n == 0 then 0
    else Weight(table, n - 1, link) + if table[n - 1] < 0 then 1 else if table[n - 1] > 0 then link else 0
  }

  /** `used` counts the writes to a node's cells. */
  ghost predicate Weighed(nodes: seq<Node>, link: nat) {
    forall k | 0 <= k < |nodes| :: nodes[k].used == Weight(nodes[k].table, |nodes[k].table|, link)
  }

  function CellWeight(x: short, link: nat): nat { if x < 0 then 1 else if x > 0 then link else 0 }

  lemma {:induction false} WeightSet(table: seq<short>, c: nat, x: short, n: nat, link: nat)
    requires c < |table| && n <= |table|
    ensures Weight(table[c := x], n, link) + (if c < n then CellWeight(table[c], link) else 0)
         == Weight(table, n, link) + (if c < n then CellWeight(x, link) else 0)
  {
    if n > 0 {
      WeightSet(table, c, x, n - 1, link);
    }
  }

  lemma {:induction false} WeightNone(table: seq<short>, n: nat, link: nat)
    requires n <= |table| && forall c | 0 <= c < n :: table[c] == 0
    ensures Weight(table, n, link) == 0
  {
    if n > 0 {
      WeightNone(table, n - 1, link);
    }
  }

  lemma {:induction false} StoreWeighs(nodes: seq<Node>, n: nat, c: byte, x: short, link: nat)
    requires Weighed(nodes, link) && n < |nodes| && CellWeight(x, link) == CellWeight(nodes[n].table[c], link) + 1
    ensures Weighed(SetCell(nodes, n, c, x), link)
  {
    WeightSet(nodes[n].table, c, x, |nodes[n].table|, link);
  }

  lemma {:induction false} GrowWeighs(nodes: seq<Node>, n: nat, c: byte, link: nat)
    requires Weighed(nodes, link) && n < |nodes| < 32768 && 0 < |nodes|
             && link == CellWeight(nodes[n].table[c], link) + 1
    ensures Weighed(Hang(nodes, n, c), link)
  {
    StoreWeighs(nodes, n, c, |nodes|, link);
    WeightNone(FreshNode().table, |FreshNode().table|, link);
  }

  // ---- How many nodes there can be ----

  ghost function Prefixes(key: seq<byte>): set<seq<byte>> {
    set i | 0 < i < |key| :: key[..i]
  }

  /** All proper prefixes of all keys. */
  ghost function AllPrefixes(keys: seq<seq<byte>>): set<seq<byte>> {
    if keys == [] then {} else AllPrefixes(keys[..|keys| - 1]) + Prefixes(keys[|keys| - 1])
  }

  lemma {:induction false} PrefixOfAll(keys: seq<seq<byte>>, w: seq<byte>, r: nat)
    requires Inside(w, r, keys) && w != []
    ensures w in AllPrefixes(keys)
  {
    var n := |keys| - 1;
    if r < n {
      assert Inside(w, r, keys[..n]);
      PrefixOfAll(keys[..n], w, r);
    } else {
      assert keys[r][..|w|] in Prefixes(keys[r]);
    }
  }

  /** Two keys go on from here. */
  ghost predicate Fork(w: seq<byte>, keys: seq<seq<byte>>) {
    exists q, r :: 0 <= q < r < |keys| && Inside(w, q, keys) && Inside(w, r, keys)
  }

  /** The proper prefixes that two keys share. */
  ghost function Forks(keys: seq<seq<byte>>): set<seq<byte>> {
    set w | w in AllPrefixes(keys) && Fork(w, keys)
  }

  /** Every node but the root lies inside two keys. */
  ghost predicate Forked(v: View, keys: seq<seq<byte>>) {
    forall k | 0 < k < |v.prefix| :: Fork(v.prefix[k], keys)
  }

  lemma {:induction false} ForkInside(w: seq<byte>, keys: seq<seq<byte>>, q: nat, r: nat)
    requires Inside(w, q, keys) && Inside(w, r, keys) && q != r && w != []
    ensures Fork(w, keys) && w in Forks(keys)
  {
    var x, y := if q < r then q else r, if q < r then r else q;
    assert 0 <= x < y < |keys| && Inside(w, x, keys) && Inside(w, y, keys);
    PrefixOfAll(keys, w, q);
  }

  lemma {:induction false} DistinctSize<T>(s: seq<T>, all: set<T>)
    requires Distinct(s) && forall x | x in s :: x in all
    ensures |s| <= |all|
  {
    if s != [] {
      var last := s[|s| - 1];
      DistinctSize(s[..|s| - 1], all - {last});
    }
  }

  /** A node can only be added while there are prefixes left for it. */
  lemma {:induction false} RoomToGrow(nodes: seq<Node>, v: View, all: set<seq<byte>>, n: nat, c: byte)
    requires Tree(nodes, v) && n < |nodes| && nodes[n].table[c] <= 0
    requires (forall k | 0 < k < |nodes| :: v.prefix[k] in all) && v.prefix[n] + [c] in all
    ensures |nodes| <= |all|
  {
    var s := v.prefix[1..] + [v.prefix[n] + [c]];
    Unspelled(nodes, v, n, c);
    forall x | x in s ensures x in all {
      assert x == v.prefix[n] + [c] || exists k :: 1 <= k < |v.prefix| && v.prefix[k] == x;
    }
    DistinctSize(s, all);
  }

  /** In any trie. */
  lemma {:induction false} RoomInside(nodes: seq<Node>, v: View, keys: seq<seq<byte>>, n: nat, c: byte, r: nat)
    requires Tree(nodes, v) && Spelled(v, keys) && n < |nodes| && nodes[n].table[c] <= 0
    requires Inside(v.prefix[n] + [c], r, keys)
    ensures |nodes| <= |AllPrefixes(keys)|
  {
    forall k | 0 < k < |nodes| ensures v.prefix[k] in AllPrefixes(keys) {
      assert HangsOff(nodes, v, k);
      PrefixOfAll(keys, v.prefix[k], v.via[k]);
    }
    PrefixOfAll(keys, v.prefix[n] + [c], r);
    RoomToGrow(nodes, v, AllPrefixes(keys), n, c);
  }

  /** In a trie whose nodes are shared by keys. */
  lemma {:induction false} RoomAtFork(nodes: seq<Node>, v: View, keys: seq<seq<byte>>, n: nat, c: byte, q: nat, r: nat)
    requires Tree(nodes, v) && Forked(v, keys) && n < |nodes| && nodes[n].table[c] <= 0
    requires q != r && Inside(v.prefix[n] + [c], q, keys) && Inside(v.prefix[n] + [c], r, keys)
    ensures |nodes| <= |Forks(keys)|
  {
    forall k | 0 < k < |nodes| ensures v.prefix[k] in Forks(keys) {
      assert HangsOff(nodes, v, k);
      var x, y :| 0 <= x < y < |keys| && Inside(v.prefix[k], x, keys) && Inside(v.prefix[k], y, keys);
      ForkInside(v.prefix[k], keys, x, y);
    }
    ForkInside(v.prefix[n] + [c], keys, q, r);
    RoomToGrow(nodes, v, Forks(keys), n, c);
  }
}
