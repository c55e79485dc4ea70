/**
 Where the premise that keys in flight are distinct comes from: calls that
 never repeat a (session, sequence) pair.
 */
module Keys {
  import opened Bytes
  import opened Ring
  import opened RingSafety
  import opened RingRuns
  import opened System
  import opened Correlation

  type Key = (uint32, uint32)

  function KeyOf(req: Request): Key { (req.session, req.sequence) }

  /** No two calls of the run are made under the same key. */
  predicate FreshStarts(steps: seq<Step>) {
    forall k, l | 0 <= k < l < |steps| && steps[k].Start? && steps[l].Start? ::
      KeyOf(steps[k].req) != KeyOf(steps[l].req)
  }

  /** The keys of the calls made before point `k`. */
  function Used(steps: seq<Step>, k: nat): set<Key>
    requires k <= |steps|
  {
    set l | 0 <= l < k && steps[l].Start? :: KeyOf(steps[l].req)
  }

  /** Every claim and every call in search of an entry has a key of its own. */
  ghost predicate OwnKeys(s: S, used: set<Key>) {
    && (forall c | 0 <= c < |s.claims| :: KeyOf(s.claims[c].req) in used)
    && (forall p | 0 <= p < |s.pc| && s.pc[p].Claiming? :: KeyOf(s.pc[p].req) in used)
    && (forall c, d | 0 <= c < d < |s.claims| :: KeyOf(s.claims[c].req) != KeyOf(s.claims[d].req))
    && (forall p, q | 0 <= p < q < |s.pc| && s.pc[p].Claiming? && s.pc[q].Claiming? ::
          KeyOf(s.pc[p].req) != KeyOf(s.pc[q].req))
    && (forall c, p | 0 <= c < |s.claims| && 0 <= p < |s.pc| && s.pc[p].Claiming? ::
          KeyOf(s.claims[c].req) != KeyOf(s.pc[p].req))
  }

  /** A step that is not a call gives no claim and no search a new key. */
  ghost predicate SameKeys(s: S, t: S) {
    && |t.claims| == |s.claims| && (forall c | 0 <= c < |s.claims| :: t.claims[c].req == s.claims[c].req)
    && |t.pc| == |s.pc|
    && (forall p | 0 <= p < |t.pc| && t.pc[p].Claiming? :: s.pc[p].Claiming? && s.pc[p].req == t.pc[p].req)
  }

  lemma {:induction false} SameKeysKeep(s: S, t: S, used: set<Key>)
    requires OwnKeys(s, used) && SameKeys(s, t)
    ensures OwnKeys(t, used)
  {
    hide KeyOf;
  }

  lemma {:induction false} OthersSameKeys(s: S, step: Step, t: S)
    requires Moves(s, step, t) && !step.Start? && !(step.Producer? && step.p < |s.pc| && s.pc[step.p].Claiming?)
    requires Inv(s)
    ensures SameKeys(s, t)
  {
    hide Inv, Returns, ConsumerStep, ProducerStep, ClaimMoves;
    if step.Consumer? {
      ConsumerAddsNoClaim(s, step.io);
      ConsumerLeavesProducers(s, step.io);
    } else if step.Producer? {
      WorkAddsNoClaim(s, step.p);
    }
    forall c | 0 <= c < |s.claims| ensures c < |t.claims| && t.claims[c].req == s.claims[c].req {
      ClaimStep(s, step, t, c);
      SameRequest(s, step, t, c);
    }
  }

  lemma {:induction false} SameRequest(s: S, step: Step, t: S, c: nat)
    requires c < |s.claims| && c < |t.claims| && ClaimMoves(s, step, t, c)
    ensures t.claims[c].req == s.claims[c].req
  {
  }

  lemma {:induction false} WorkAddsNoClaim(s: S, p: nat)
    requires p < |s.pc| && HasClaim(s.pc[p]) && ProducerReady(s, p)
    ensures var t := ProducerStep(s, p); |t.claims| == |s.claims| && |t.pc| == |s.pc|
    ensures forall q | 0 <= q < |s.pc| && ProducerStep(s, p).pc[q].Claiming? :: ProducerStep(s, p).pc[q] == s.pc[q]
  {
    hide FrameOf, Encodable, Overlay, ReadOut;
  }

  lemma {:induction false} OwnKeysStep(s: S, step: Step, t: S, used: set<Key>)
    requires Inv(s) && Moves(s, step, t) && OwnKeys(s, used) && (step.Start? ==> KeyOf(step.req) !in used)
    ensures OwnKeys(t, if step.Start? then used + {KeyOf(step.req)} else used)
  {
    hide Inv, KeyOf;
    if step.Start? {
      CallKeeps(s, step.p, step.req, used);
    } else if step.Producer? && s.pc[step.p].Claiming? {
      SearchKeeps(s, step.p, used);
    } else {
      OthersSameKeys(s, step, t);
      SameKeysKeep(s, t, used);
    }
  }

  lemma {:induction false} CallKeeps(s: S, p: nat, req: Request, used: set<Key>)
    requires OwnKeys(s, used) && p < |s.pc| && KeyOf(req) !in used
    ensures OwnKeys(MovePC(s, p, Claiming(req, 0)), used + {KeyOf(req)})
  {
    hide KeyOf;
  }

  lemma {:induction false} SearchKeeps(s: S, p: nat, used: set<Key>)
    requires OwnKeys(s, used) && p < |s.pc| && s.pc[p].Claiming? && ProducerReady(s, p)
    ensures OwnKeys(ProducerStep(s, p), used)
  {
    hide KeyOf;
  }

  lemma {:induction false} RunOwnKeys(run: seq<S>, steps: seq<Step>, k: nat)
    requires Run(run, steps) && FreshStarts(steps) && k < |run|
    ensures OwnKeys(run[k], Used(steps, k))
  {
    hide Inv, Moves, KeyOf;
    if k > 0 {
      RunOwnKeys(run, steps, k - 1);
      RunKeeps(run, steps, k - 1);
      assert MovesAt(run, steps, k - 1);
      var step := steps[k - 1];
      OwnKeysStep(run[k - 1], step, run[k], Used(steps, k - 1));
      assert Used(steps, k) == if step.Start? then Used(steps, k - 1) + {KeyOf(step.req)} else Used(steps, k - 1);
    }
  }

  /** In every run whose calls never repeat a key, entries in flight have distinct keys. */
  lemma {:induction false} FreshAreDistinct(run: seq<S>, steps: seq<Step>, k: nat)
    requires Run(run, steps) && FreshStarts(steps) && k < |run|
    ensures DistinctKeys(run[k])
  {
    hide Run, Inv, FreshStarts, Used;
    assert k <= |steps| by { RunLength(run, steps); }
    RunOwnKeys(run, steps, k);
    RunKeeps(run, steps, k);
    var s := run[k];
    forall i, j | 0 <= i < |s.ring| && 0 <= j < |s.ring|
                  && InFlightState(s.ring[i].state) && InFlightState(s.ring[j].state)
                  && s.ring[i].owner == s.ring[j].owner && s.ring[i].sequence == s.ring[j].sequence
      ensures i == j
    {
      KeyInFlight(s, i);
      KeyInFlight(s, j);
    }
  }

  lemma {:induction false} RunLength(run: seq<S>, steps: seq<Step>)
    requires Run(run, steps)
    ensures |run| == |steps| + 1
  {
    hide Initial, Moves;
  }

  lemma {:induction false} KeyInFlight(s: S, i: nat)
    requires Inv(s) && i < |s.ring| && InFlightState(s.ring[i].state)
    ensures s.ring[i].claim < |s.claims| && s.claims[s.ring[i].claim].idx == i
    ensures KeyOf(s.claims[s.ring[i].claim].req) == (s.ring[i].owner, s.ring[i].sequence)
  {
    hide ProducerInv, ConsumerInv, FrameOf, Encodable;
    assert EntryInv(s, i);
  }

  /** So such a run, with requests addressed by their headers, has all the properties of a sound one. */
  lemma {:induction false} FreshIsSound(run: seq<S>, steps: seq<Step>)
    requires Run(run, steps) && FreshStarts(steps) && run[0].link.Emulated?
    requires forall k | 0 <= k < |steps| && steps[k].Start? :: Addressed(steps[k].req)
    ensures SoundRun(run, steps)
  {
    hide Run, FreshStarts, DistinctKeys, Addressed;
    forall k | 0 <= k < |run| ensures DistinctKeys(run[k]) {
      FreshAreDistinct(run, steps, k);
    }
  }
}
