/**
 The layout of the shared mapping: a header with the slots, then one pool per
 slot holding a request and a response buffer for every ring entry.  Offsets are
 computed in 64 bits; sizes and counts are parameters.
 */
module Shm {
  import opened Bytes

  const WORD64 := 0x1_0000_0000_0000_0000

  datatype Sizes = Sizes(header: nat, slots: nat, depth: nat, entry: nat, pool: nat)

  /** Offsets of the two buffers of an entry. */
  datatype Buffers = Buffers(req: nat, rsp: nat)

  function Wrap(x: nat): nat { x % WORD64 }

  /** The size of the whole mapping. */
  function TotalSize(z: Sizes): nat { z.header + z.slots * z.pool }

  /** The pool holds the buffers of all entries, and the mapping is addressable. */
  predicate Sized(z: Sizes) {
    z.depth * (2 * z.entry) <= z.pool && TotalSize(z) < WORD64
  }

  /** The two buffers of an entry follow each other inside their slot's pool. */
  predicate InPool(z: Sizes, s: nat, b: Buffers) {
    z.header + s * z.pool <= b.req && b.rsp == b.req + z.entry
    && b.rsp + z.entry <= z.header + s * z.pool + z.pool <= TotalSize(z)
  }

  /** All four buffers of two entries are disjoint. */
  predicate Apart(z: Sizes, a: Buffers, b: Buffers) {
    a.rsp + z.entry <= b.req || b.rsp + z.entry <= a.req
  }

  predicate RingApart(z: Sizes, ring: seq<Buffers>) {
    forall i, j | 0 <= i < j < |ring| :: Apart(z, ring[i], ring[j])
  }

  /** Entry `i` of slot `s` is the `i`th of its pool: a request buffer, then a response buffer. */
  predicate InTurn(z: Sizes, s: nat, i: nat, b: Buffers) {
    b.req == z.header + s * z.pool + i * (2 * z.entry) && b.rsp == b.req + z.entry
  }

  predicate LaidOut(z: Sizes, rings: seq<seq<Buffers>>) {
    && (forall s | 0 <= s < |rings| :: |rings[s]| == z.depth && RingApart(z, rings[s]))
    && (forall s, i | 0 <= s < |rings| && 0 <= i < |rings[s]| ::
          InPool(z, s, rings[s][i]) && InTurn(z, s, i, rings[s][i]))
  }

  /** The layout loops of `ncmp_shm_create`. */
  method Create(z: Sizes) returns (rings: seq<seq<Buffers>>)
    requires Sized(z)
    ensures |rings| == z.slots && LaidOut(z, rings)
  {
    rings := [];
    var s := 0;
    while s < z.slots
      invariant 0 <= s <= z.slots && |rings| == s && LaidOut(z, rings)
    {
      var ring := CreateRing(z, s);
      rings := rings + [ring];
      s := s + 1;
    }
  }

  method CreateRing(z: Sizes, s: nat) returns (ring: seq<Buffers>)
    requires Sized(z) && s < z.slots
    ensures |ring| == z.depth && RingApart(z, ring)
    ensures forall i | 0 <= i < |ring| :: InPool(z, s, ring[i]) && InTurn(z, s, i, ring[i])
  {
    hide Wrap, InPool, InTurn, Sized, TotalSize, Apart;
    var poolOff := Wrap(z.header + Wrap(s * z.pool));
    PoolInside(z, s);
    ring := [];
    var i := 0;
    while i < z.depth
      invariant 0 <= i <= z.depth && |ring| == i
      invariant forall j | 0 <= j < i :: ring[j] == Place(z, poolOff, j)
    {
      var entryOff := Wrap(poolOff + Wrap(i * (2 * z.entry)));
      var rspOff := Wrap(entryOff + z.entry);
      PlaceInside(z, s, i);
      ring := ring + [Buffers(entryOff, rspOff)];
      i := i + 1;
    }
    forall j | 0 <= j < |ring| ensures InPool(z, s, ring[j]) && InTurn(z, s, j, ring[j]) {
      PlaceInside(z, s, j);
    }
    forall j, k | 0 <= j < k < |ring| ensures Apart(z, ring[j], ring[k]) {
      PlacesApart(z, poolOff, j, k);
    }
  }

  /** Where the buffers of an entry are, without wrap-around. */
  function Place(z: Sizes, poolOff: nat, i: nat): Buffers {
    Buffers(poolOff + i * (2 * z.entry), poolOff + i * (2 * z.entry) + z.entry)
  }

  lemma {:induction false} Below(a: nat, b: nat, d: nat)
    requires a < b
    ensures a * d + d <= b * d
  {
    MulMonotone(d, a + 1, b);
    assert d * (a + 1) == a * d + d;
  }

  lemma {:induction false} PoolInside(z: Sizes, s: nat)
    requires Sized(z) && s < z.slots
    ensures Wrap(z.header + Wrap(s * z.pool)) == z.header + s * z.pool
    ensures z.header + s * z.pool + z.pool <= TotalSize(z) < WORD64
  {
    Below(s, z.slots, z.pool);
  }

  lemma {:induction false} PlaceInside(z: Sizes, s: nat, i: nat)
    requires Sized(z) && s < z.slots && i < z.depth
    ensures var poolOff := z.header + s * z.pool;
            var b := Place(z, poolOff, i);
            && InPool(z, s, b) && InTurn(z, s, i, b)
            && Wrap(poolOff + Wrap(i * (2 * z.entry))) == b.req && Wrap(b.req + z.entry) == b.rsp
  {
    hide Wrap;
    Below(i, z.depth, 2 * z.entry);
    PoolInside(z, s);
    var poolOff, off := z.header + s * z.pool, i * (2 * z.entry);
    NoWrap(off);
    NoWrap(poolOff + off);
    NoWrap(poolOff + off + z.entry);
  }

  lemma {:induction false} NoWrap(x: nat)
    requires x < WORD64
    ensures Wrap(x) == x
  {
  }

  lemma {:induction false} PlacesApart(z: Sizes, poolOff: nat, i: nat, j: nat)
    requires i < j
    ensures Apart(z, Place(z, poolOff, i), Place(z, poolOff, j))
  {
    Below(i, j, 2 * z.entry);
  }

  /**
   Any two different entries of any slots have disjoint buffers, none touches the
   header, and all lie inside the mapping.
   */
  lemma {:induction false} BuffersDisjoint(z: Sizes, rings: seq<seq<Buffers>>, s: nat, i: nat, t: nat, j: nat)
    requires Sized(z) && LaidOut(z, rings) && s < |rings| && t < |rings| && i < |rings[s]| && j < |rings[t]|
             && (s, i) != (t, j)
    ensures Apart(z, rings[s][i], rings[t][j])
    ensures z.header <= rings[s][i].req <= rings[s][i].req + z.entry <= rings[s][i].rsp
            <= rings[s][i].rsp + z.entry <= TotalSize(z)
  {
    hide Apart, TotalSize;
    assert InPool(z, s, rings[s][i]) && InPool(z, t, rings[t][j]);
    InMapping(z, s, rings[s][i]);
    if s == t {
      assert RingApart(z, rings[s]);
      EitherWay(z, rings[s][i], rings[t][j]);
    } else if s < t {
      PoolsApart(z, s, t, rings[s][i], rings[t][j]);
    } else {
      PoolsApart(z, t, s, rings[t][j], rings[s][i]);
      EitherWay(z, rings[s][i], rings[t][j]);
    }
  }

  lemma {:induction false} EitherWay(z: Sizes, a: Buffers, b: Buffers)
    ensures Apart(z, a, b) == Apart(z, b, a)
  {
  }

  lemma {:induction false} InMapping(z: Sizes, s: nat, b: Buffers)
    requires InPool(z, s, b)
    ensures z.header <= b.req <= b.req + z.entry <= b.rsp <= b.rsp + z.entry <= TotalSize(z)
  {
    assert s * z.pool >= 0;
  }

  lemma {:induction false} PoolsApart(z: Sizes, s: nat, t: nat, a: Buffers, b: Buffers)
    requires s < t && InPool(z, s, a) && InPool(z, t, b)
    ensures Apart(z, a, b)
  {
    Below(s, t, z.pool);
  }
}
