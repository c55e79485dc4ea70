/**
 When an abandoned entry is reused.  The client's give-up promises that the
 consumer returns the entry to FREE; it does exactly when the consumer had
 already settled on the entry for a response.
 */
module Recycling {
  import opened Wire
  import opened Device
  import opened Ring
  import opened RingSafety
  import opened RingRuns
  import opened InFlight

  /** The consumer is delivering a response to entry `i`, or is certain to. */
  predicate Bound(s: S, i: nat)
    requires i < |s.ring|
  {
    match s.cpc
    case MatchOwner(_, h, j) => j == i && s.ring[i].owner == h.session && s.ring[i].sequence == h.sequence
    case MatchSequence(_, h, j) => j == i && s.ring[i].sequence == h.sequence
    case CopyReply(_, _, j) => j == i
    case SetReplyLen(_, _, j) => j == i
    case ReleaseReply(j) => j == i
    case Publish(j) => j == i
    case Discard(j) => j == i
    case _ => false
  }

  /** How many steps the consumer is from the end of a delivery. */
  function Rank(cpc: CPC): nat {
    match cpc
    case MatchOwner(_, _, _) => 7
    case MatchSequence(_, _, _) => 6
    case CopyReply(_, _, _) => 5
    case SetReplyLen(_, _, _) => 4
    case ReleaseReply(_) => 3
    case Publish(_) => 2
    case Discard(_) => 1
    case _ => 0
  }

  /** What a step does to an abandoned entry. */
  predicate AbandonedMoves(s: S, step: Step, t: S, i: nat)
    requires i < |s.ring| && i < |t.ring|
  {
    if s.cpc.Discard? && s.cpc.i == i && step.Consumer? then t.ring[i].state == Free
    else
      && t.ring[i].state == Abandoned && t.ring[i].claim == s.ring[i].claim && (Bound(t, i) <==> Bound(s, i))
      && (Bound(s, i) ==> Rank(t.cpc) + (if step.Consumer? then 1 else 0) == Rank(s.cpc))
  }

  lemma {:induction false} AbandonedStep(s: S, step: Step, t: S, i: nat)
    requires Inv(s) && Moves(s, step, t) && i < |s.ring| && s.ring[i].state == Abandoned
    ensures |t.ring| == |s.ring| && AbandonedMoves(s, step, t, i)
  {
    hide Inv, ProducerStep, ConsumerStep, Returns;
    match step
    case Start(_, _) =>
    case Producer(p) =>
      ProducerWrites(s, p, i);
      ProducerLeavesStats(s, p);
    case Consumer(io) => AbandonedConsumer(s, io, i);
    case _ => ScribbleWrites(s, step, i);
  }

  lemma {:induction false} AbandonedConsumer(s: S, io: IO, i: nat)
    requires ConsumerReady(s) && i < |s.ring| && s.ring[i].state == Abandoned
    ensures var t := ConsumerStep(s, io); |t.ring| == |s.ring| && AbandonedMoves(s, Consumer(io), t, i)
  {
    hide ConsumerReady, ConsumerStep, AbandonedMoves;
    if Rank(s.cpc) > 0 {
      DeliveringMoves(s, io, i);
    } else {
      ElsewhereMoves(s, io, i);
    }
  }

  lemma {:induction false} DeliveringMoves(s: S, io: IO, i: nat)
    requires ConsumerReady(s) && i < |s.ring| && s.ring[i].state == Abandoned && Rank(s.cpc) > 0
    ensures var t := ConsumerStep(s, io); |t.ring| == |s.ring| && AbandonedMoves(s, Consumer(io), t, i)
  {
    hide AllParse, Wired, Overlay;
  }

  lemma {:induction false} ElsewhereMoves(s: S, io: IO, i: nat)
    requires ConsumerReady(s) && i < |s.ring| && s.ring[i].state == Abandoned && Rank(s.cpc) == 0
    ensures var t := ConsumerStep(s, io); |t.ring| == |s.ring| && AbandonedMoves(s, Consumer(io), t, i)
  {
    hide AllParse, Wired, DecodeHeader, McuStep, Ingest, IngestOutcome, ServedNext, Overlay, SendOk, RecvOk;
    CallsEnd(s, io);
  }

  /** An entry abandoned before the consumer settled on it is never reused. */
  lemma {:induction false} AbandonedStays(run: seq<S>, steps: seq<Step>, k: nat, l: nat, i: nat)
    requires Run(run, steps) && k <= l < |run| && i < |run[k].ring| && run[k].ring[i].state == Abandoned
             && !Bound(run[k], i)
    ensures i < |run[l].ring| && run[l].ring[i].state == Abandoned && run[l].ring[i].claim == run[k].ring[i].claim
    ensures !Bound(run[l], i)
    decreases l
  {
    hide Inv, Moves, Initial;
    if k < l {
      AbandonedStays(run, steps, k, l - 1, i);
      RunKeeps(run, steps, l - 1);
      assert MovesAt(run, steps, l - 1);
      AbandonedStep(run[l - 1], steps[l - 1], run[l], i);
    }
  }

  /** Consumer steps taken up to point `l`. */
  function ConsumerSteps(steps: seq<Step>, l: nat): nat
    requires l <= |steps|
  {
    if l == 0 then 0 else ConsumerSteps(steps, l - 1) + if steps[l - 1].Consumer? then 1 else 0
  }

  ghost predicate FreedBetween(run: seq<S>, k: nat, l: nat, i: nat) {
    exists m | k < m <= l && m < |run| :: i < |run[m].ring| && run[m].ring[i].state == Free
  }

  lemma {:induction false} FreedOrNearer(run: seq<S>, steps: seq<Step>, k: nat, l: nat, i: nat)
    requires Run(run, steps) && k <= l < |run| && i < |run[k].ring| && run[k].ring[i].state == Abandoned
             && Bound(run[k], i)
    ensures || FreedBetween(run, k, l, i)
            || (&& i < |run[l].ring| && run[l].ring[i].state == Abandoned && Bound(run[l], i)
                && Rank(run[l].cpc) + ConsumerSteps(steps, l) == Rank(run[k].cpc) + ConsumerSteps(steps, k))
    decreases l
  {
    hide Inv, Moves, Initial;
    if k < l {
      FreedOrNearer(run, steps, k, l - 1, i);
      if FreedBetween(run, k, l - 1, i) {
        assert FreedBetween(run, k, l, i);
      } else {
        RunKeeps(run, steps, l - 1);
        assert MovesAt(run, steps, l - 1);
        AbandonedStep(run[l - 1], steps[l - 1], run[l], i);
      }
    }
  }

  /**
   Given seven more consumer steps, an abandoned entry has been FREE at some point
   in between if and only if the consumer had settled on it.
   */
  lemma {:induction false} RecycledIff(run: seq<S>, steps: seq<Step>, k: nat, l: nat, i: nat)
    requires Run(run, steps) && k <= l < |run| && i < |run[k].ring| && run[k].ring[i].state == Abandoned
    requires ConsumerSteps(steps, l) >= ConsumerSteps(steps, k) + 7
    ensures FreedBetween(run, k, l, i) <==> Bound(run[k], i)
  {
    assert |run| == |steps| + 1;
    hide Run;
    if Bound(run[k], i) {
      FreedOrNearer(run, steps, k, l, i);
    } else {
      forall m | k < m <= l ensures i < |run[m].ring| && run[m].ring[i].state == Abandoned {
        AbandonedStays(run, steps, k, m, i);
      }
    }
  }

  // ---- A response nobody waits for ----

  /** No producer is at work for claim `c`. */
  predicate Orphaned(s: S, c: nat) {
    forall p | 0 <= p < |s.pc| && HasClaim(s.pc[p]) :: s.pc[p].c != c
  }

  /** A DONE entry whose client timed out without abandoning it is never reused. */
  lemma {:induction false} OrphanStays(run: seq<S>, steps: seq<Step>, k: nat, l: nat, i: nat)
    requires Run(run, steps) && k <= l < |run| && i < |run[k].ring| && run[k].ring[i].state == Done
    requires Orphaned(run[k], run[k].ring[i].claim)
    ensures i < |run[l].ring| && run[l].ring[i] == run[k].ring[i] && Orphaned(run[l], run[k].ring[i].claim)
    decreases l
  {
    hide Inv, Moves, Initial, Orphaned;
    if k < l {
      OrphanStays(run, steps, k, l - 1, i);
      RunKeeps(run, steps, l - 1);
      assert MovesAt(run, steps, l - 1);
      OrphanStep(run[l - 1], steps[l - 1], run[l], i);
    }
  }

  lemma {:induction false} OrphanStep(s: S, step: Step, t: S, i: nat)
    requires Inv(s) && Moves(s, step, t) && i < |s.ring| && s.ring[i].state == Done && Orphaned(s, s.ring[i].claim)
    ensures |t.ring| == |s.ring| && t.ring[i] == s.ring[i] && Orphaned(t, s.ring[i].claim)
  {
    hide Inv, Moves, Disciplined;
    WriteDiscipline(s, step, t, i);
    assert t.ring[i] == s.ring[i] by { OrphanEntry(s, step, t, i); }
    forall p | 0 <= p < |t.pc| && HasClaim(t.pc[p]) ensures t.pc[p].c != s.ring[i].claim {
      SameClaimant(s, step, t, p);
      ClaimBelow(s, i);
    }
  }

  lemma {:induction false} OrphanEntry(s: S, step: Step, t: S, i: nat)
    requires i < |s.ring| && i < |t.ring| && s.ring[i].state == Done && Orphaned(s, s.ring[i].claim)
             && Disciplined(s, step, t, i)
    ensures t.ring[i] == s.ring[i]
  {
  }

  lemma {:induction false} ClaimBelow(s: S, i: nat)
    requires Inv(s) && i < |s.ring| && s.ring[i].state != Free
    ensures s.ring[i].claim < |s.claims|
  {
    hide EntryOk, ProducerInv, ConsumerInv;
    assert EntryInv(s, i);
  }

  /** A producer works for the same claim as before, or for a new one. */
  lemma {:induction false} SameClaimant(s: S, step: Step, t: S, p: nat)
    requires Moves(s, step, t) && p < |t.pc| && HasClaim(t.pc[p])
    ensures p < |s.pc| && (t.pc[p].c == |s.claims| || (HasClaim(s.pc[p]) && s.pc[p].c == t.pc[p].c))
  {
    hide ProducerStep, ConsumerStep, ConsumerReady, ProducerReady, Returns;
    if step == Producer(p) {
      OwnPlace(s, p);
    } else {
      PlaceKept(s, step, t, p);
    }
  }
}
