/**
 `buildcompressedtable`: the array of shorts that is written into the
 generated source.  An empty cell and a link to offset 0 both read as 0.
 */
module Emit {
  import opened Bytes
  import opened MechTable
  import opened Trie
  import opened Alphabet
  import opened Pack
  import opened Saturation

  /** Assigning an `unsigned int` to a `short`. */
  function ToShort(x: nat): short { (x + 32768) % 65536 - 32768 }

  /** Cells link to nodes of the list. */
  ghost predicate Linked(nodes: seq<Node>) {
    forall k, c | 0 <= k < |nodes| && 0 <= c < 256 :: nodes[k].table[c] < |nodes|
  }

  /** The emitted form of a cell: a row as it is, a link as the offset it leads to. */
  function Value(nodes: seq<Node>, cell: short): short
    requires cell < |nodes|
  {
    if cell < 0 then cell else ToShort(nodes[cell].offset)
  }

  ghost predicate Shows(a: Alphabet, nodes: seq<Node>, res: seq<short>, k: nat, n: nat)
    requires |a.usage| == |a.idx| == 256 && Linked(nodes) && k < |nodes| && n <= 256
  {
    forall c: byte | c < n && InUse(a, nodes[k].table, c) ::
      && a.idx[c] + nodes[k].offset < |res|
      && res[a.idx[c] + nodes[k].offset] == Value(nodes, nodes[k].table[c])
  }

  /** Cell `c` of node `k` is written to place `p`. */
  ghost predicate Writes(a: Alphabet, nodes: seq<Node>, k: nat, c: byte, p: nat)
    requires |a.usage| == |a.idx| == 256
  {
    k < |nodes| && InUse(a, nodes[k].table, c) && a.idx[c] + nodes[k].offset == p
  }

  /** Cell `c` of node `j` comes before cell `n` of node `k` in the order of writing. */
  predicate Before(j: nat, c: nat, k: nat, n: nat) { j < k || (j == k && c < n) }

  /** Only places of some node are filled. */
  ghost predicate Filled(a: Alphabet, nodes: seq<Node>, res: seq<short>)
    requires |a.usage| == |a.idx| == 256
  {
    forall p: nat | p < |res| && res[p] != 0 :: exists k: nat, c: byte :: Writes(a, nodes, k, c, p)
  }

  /** The emitted table shows every cell of every node, and nothing else. */
  ghost predicate Emitted(a: Alphabet, nodes: seq<Node>, res: seq<short>)
    requires |a.usage| == |a.idx| == 256
  {
    && Linked(nodes)
    && (forall k | 0 <= k < |nodes| :: Shows(a, nodes, res, k, 256))
    && Filled(a, nodes, res)
  }

  /** Where two nodes write to the same place, the earlier one writes 0. */
  ghost predicate Quiet(a: Alphabet, nodes: seq<Node>)
    requires |a.usage| == |a.idx| == 256 && Linked(nodes)
  {
    forall j: nat, c: byte, k: nat, d: byte, p: nat | j < k && Writes(a, nodes, j, c, p) && Writes(a, nodes, k, d, p) ::
      Value(nodes, nodes[j].table[c]) == 0
  }

  /** No later node writes to the place of cell `c` of node `k`. */
  ghost predicate LastAt(a: Alphabet, nodes: seq<Node>, k: nat, c: byte, p: nat)
    requires |a.usage| == |a.idx| == 256
  {
    Writes(a, nodes, k, c, p) && forall j: nat, d: byte | k < j :: !Writes(a, nodes, j, d, p)
  }

  /** Every place shows its last writer, the others are 0. */
  ghost predicate LastWins(a: Alphabet, nodes: seq<Node>, res: seq<short>)
    requires |a.usage| == |a.idx| == 256 && Linked(nodes)
  {
    && (forall k: nat, c: byte, p: nat | LastAt(a, nodes, k, c, p) ::
          p < |res| && res[p] == Value(nodes, nodes[k].table[c]))
    && Filled(a, nodes, res)
  }

  // ---- The writes so far ----

  /** What is written before cell `n` of node `k` shows, unless it is 0; nothing else does. */
  ghost predicate SoFar(a: Alphabet, nodes: seq<Node>, res: seq<short>, k: nat, n: nat)
    requires |a.usage| == |a.idx| == 256 && Linked(nodes)
  {
    && (forall j: nat, c: byte, p: nat | Before(j, c, k, n) && Writes(a, nodes, j, c, p) ::
          && p < |res| && (Value(nodes, nodes[j].table[c]) != 0 ==> res[p] == Value(nodes, nodes[j].table[c])))
    && (forall p: nat | p < |res| && res[p] != 0 :: exists j: nat, c: byte :: Shown(a, nodes, res, j, c, p, k, n))
  }

  ghost predicate Shown(a: Alphabet, nodes: seq<Node>, res: seq<short>, j: nat, c: byte, p: nat, k: nat, n: nat)
    requires |a.usage| == |a.idx| == 256 && Linked(nodes) && p < |res|
  {
    Before(j, c, k, n) && Writes(a, nodes, j, c, p) && res[p] == Value(nodes, nodes[j].table[c])
  }

  ghost predicate QuietSoFar(a: Alphabet, nodes: seq<Node>, k: nat, n: nat)
    requires |a.usage| == |a.idx| == 256 && Linked(nodes)
  {
    forall i: nat, c: byte, j: nat, d: byte, p: nat
      | i < j && Before(j, d, k, n) && Writes(a, nodes, i, c, p) && Writes(a, nodes, j, d, p) ::
      Value(nodes, nodes[i].table[c]) == 0
  }

  lemma {:induction false} NothingWritten(a: Alphabet, nodes: seq<Node>, res: seq<short>)
    requires |a.usage| == |a.idx| == 256 && Linked(nodes) && forall p | 0 <= p < |res| :: res[p] == 0
    ensures SoFar(a, nodes, res, 0, 0) && QuietSoFar(a, nodes, 0, 0)
  {
  }

  /** A cell that is not in use is passed over; so is the end of a table. */
  lemma {:induction false} PassOver(a: Alphabet, nodes: seq<Node>, res: seq<short>, k: nat, n: nat, k': nat, n': nat)
    requires |a.usage| == |a.idx| == 256 && Linked(nodes) && SoFar(a, nodes, res, k, n) && QuietSoFar(a, nodes, k, n)
    requires k < |nodes|
    requires if n == 256 then k' == k + 1 && n' == 0
             else n < 256 && k' == k && n' == n + 1 && !InUse(a, nodes[k].table, n)
    ensures SoFar(a, nodes, res, k', n') && QuietSoFar(a, nodes, k', n')
  {
    hide Value;
    assert forall j: nat, c: byte, p: nat | Before(j, c, k', n') && Writes(a, nodes, j, c, p) :: Before(j, c, k, n);
    forall p: nat | p < |res| && res[p] != 0 ensures exists j: nat, c: byte :: Shown(a, nodes, res, j, c, p, k', n') {
      var j: nat, c: byte :| Shown(a, nodes, res, j, c, p, k, n);
      assert Shown(a, nodes, res, j, c, p, k', n');
    }
  }

  /** Two cells of one node go to different places. */
  lemma {:induction false} OwnPlace(a: Alphabet, nodes: seq<Node>, k: nat, c: byte, d: byte, p: nat)
    requires Numbered(a) && Writes(a, nodes, k, c, p) && Writes(a, nodes, k, d, p)
    ensures c == d
  {
    NumbersDiffer(a, c, d);
  }

  /** The assertion fails only over a value that an earlier node wrote. */
  lemma {:induction false} Clash(a: Alphabet, nodes: seq<Node>, res: seq<short>, k: nat, n: byte, p: nat)
    requires Numbered(a) && Linked(nodes) && SoFar(a, nodes, res, k, n) && Writes(a, nodes, k, n, p)
    requires p < |res| && res[p] != 0
    ensures !Quiet(a, nodes)
  {
    hide Numbered;
    Sizes(a);
    var j: nat, c: byte :| Shown(a, nodes, res, j, c, p, k, n);
    if j == k {
      OwnPlace(a, nodes, k, c, n, p);
    }
    assert j < k && Writes(a, nodes, j, c, p);
  }

  lemma {:induction false} WriteNext(a: Alphabet, nodes: seq<Node>, res: seq<short>, k: nat, n: byte, p: nat)
    requires Numbered(a) && Linked(nodes) && SoFar(a, nodes, res, k, n) && QuietSoFar(a, nodes, k, n)
    requires Writes(a, nodes, k, n, p) && p < |res| && res[p] == 0
    ensures var res' := res[p := Value(nodes, nodes[k].table[n])];
            SoFar(a, nodes, res', k, n + 1) && QuietSoFar(a, nodes, k, n + 1)
  {
    hide Numbered, Value;
    Sizes(a);
    var res' := res[p := Value(nodes, nodes[k].table[n])];
    var m := n + 1;
    forall q: nat | q < |res'| && res'[q] != 0 ensures exists j: nat, c: byte :: Shown(a, nodes, res', j, c, q, k, m) {
      if q == p {
        assert Shown(a, nodes, res', k, n, p, k, m);
      } else {
        var j: nat, c: byte :| Shown(a, nodes, res, j, c, q, k, n);
        assert Shown(a, nodes, res', j, c, q, k, m);
      }
    }
    forall i: nat, c: byte, j: nat, d: byte, q: nat
      | i < j && Before(j, d, k, n + 1) && Writes(a, nodes, i, c, q) && Writes(a, nodes, j, d, q)
      ensures Value(nodes, nodes[i].table[c]) == 0
    {
      assert Before(i, c, k, n);
      if j == k && d == n {
        assert q == p;
      }
    }
  }

  lemma {:induction false} AllWritten(a: Alphabet, nodes: seq<Node>, res: seq<short>)
    requires Numbered(a) && Linked(nodes)
    requires SoFar(a, nodes, res, |nodes|, 0) && QuietSoFar(a, nodes, |nodes|, 0)
    ensures Quiet(a, nodes) && LastWins(a, nodes, res)
  {
    hide Value, Numbered;
    Sizes(a);
    forall p: nat | p < |res| && res[p] != 0 ensures exists k: nat, c: byte :: Writes(a, nodes, k, c, p) {
      var j: nat, c: byte :| Shown(a, nodes, res, j, c, p, |nodes|, 0);
      assert Writes(a, nodes, j, c, p);
    }
    forall k: nat, c: byte, p: nat | LastAt(a, nodes, k, c, p)
      ensures p < |res| && res[p] == Value(nodes, nodes[k].table[c])
    {
      assert Before(k, c, |nodes|, 0);
      if res[p] != 0 {
        var j: nat, d: byte :| Shown(a, nodes, res, j, d, p, |nodes|, 0);
        assert !(k < j);
        if j == k {
          OwnPlace(a, nodes, k, c, d, p);
        }
      }
    }
  }

  /** `buildcompressedtable`; `ok` is false when its assertion fails. */
  method BuildCompressedTable(nodes: seq<Node>, a: Alphabet, maxoffset: nat) returns (ok: bool, table: seq<short>)
    requires Numbered(a) && Linked(nodes)
    requires forall k | 0 <= k < |nodes| :: nodes[k].offset <= maxoffset
    ensures ok <==> Quiet(a, nodes)
    ensures ok ==> |table| == maxoffset + a.count && LastWins(a, nodes, table)
  {
    hide Numbered, SoFar, QuietSoFar, Quiet, LastWins, ToShort;
    Sizes(a);
    var res := new short[maxoffset + a.count](i => 0);
    NothingWritten(a, nodes, res[..]);
    table := [];
    var k := 0;
    while k < |nodes|
      invariant 0 <= k <= |nodes| && SoFar(a, nodes, res[..], k, 0) && QuietSoFar(a, nodes, k, 0)
    {
      var i := 0;
      while i < 256
        invariant 0 <= i <= 256 && SoFar(a, nodes, res[..], k, i) && QuietSoFar(a, nodes, k, i)
      {
        if InUse(a, nodes[k].table, i) {
          NumbersDiffer(a, i, i);
          var idx := a.idx[i] + nodes[k].offset;
          if res[idx] != 0 {
            Clash(a, nodes, res[..], k, i, idx);
            return false, [];
          }
          WriteNext(a, nodes, res[..], k, i, idx);
          ghost var before := res[..];
          res[idx] := Value(nodes, nodes[k].table[i]);
          assert res[..] == before[idx := Value(nodes, nodes[k].table[i])];
        } else {
          PassOver(a, nodes, res[..], k, i, k, i + 1);
        }
        i := i + 1;
      }
      PassOver(a, nodes, res[..], k, 256, k + 1, 0);
      k := k + 1;
    }
    AllWritten(a, nodes, res[..]);
    ok, table := true, res[..];
  }

  // ---- Nodes that keep apart ----

  lemma {:induction false} SharePlaces(a: Alphabet, nodes: seq<Node>, j: nat, c: byte, k: nat, d: byte, p: nat)
    requires |a.usage| == |a.idx| == 256 && Writes(a, nodes, j, c, p) && Writes(a, nodes, k, d, p) && Apart(a, nodes)
    ensures j == k
  {
    CellToPlace(a, nodes[j].table, nodes[j].offset, |nodes[j].table|, c);
    CellToPlace(a, nodes[k].table, nodes[k].offset, |nodes[k].table|, d);
    assert p in AllPlaces(a, nodes[j].table, nodes[j].offset) && p in AllPlaces(a, nodes[k].table, nodes[k].offset);
  }

  /** When nodes keep apart the assertion cannot fail, and every cell shows. */
  lemma {:induction false} ApartShows(a: Alphabet, nodes: seq<Node>, res: seq<short>)
    requires |a.usage| == |a.idx| == 256 && Linked(nodes) && Apart(a, nodes)
    ensures Quiet(a, nodes)
    ensures LastWins(a, nodes, res) ==> Emitted(a, nodes, res)
  {
    hide Apart, Value;
    forall j: nat, c: byte, k: nat, d: byte, p: nat | Writes(a, nodes, j, c, p) && Writes(a, nodes, k, d, p)
      ensures j == k
    {
      SharePlaces(a, nodes, j, c, k, d, p);
    }
    if LastWins(a, nodes, res) {
      forall k | 0 <= k < |nodes| ensures Shows(a, nodes, res, k, 256) {
        forall c: byte | InUse(a, nodes[k].table, c)
          ensures a.idx[c] + nodes[k].offset < |res|
                  && res[a.idx[c] + nodes[k].offset] == Value(nodes, nodes[k].table[c])
        {
          assert Writes(a, nodes, k, c, a.idx[c] + nodes[k].offset);
          assert LastAt(a, nodes, k, c, a.idx[c] + nodes[k].offset);
        }
      }
    }
  }
}
