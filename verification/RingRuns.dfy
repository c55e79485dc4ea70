/**
 What the invariant gives over whole runs: who writes what, and that a claim is
 sent and completed at most once.
 */
module RingRuns {
  import opened Bytes
  import opened Wire
  import opened Device
  import opened Ring
  import opened RingSafety

  // ---- Who may change an entry ----

  predicate ByClaimant(s: S, step: Step, i: nat)
    requires i < |s.ring|
  {
    && (step.Producer? || step.Scribble?) && step.p < |s.pc| && HasClaim(s.pc[step.p])
    && s.pc[step.p].c == s.ring[i].claim < |s.claims| && s.claims[s.ring[i].claim].producer == step.p
  }

  predicate ByConsumer(s: S, step: Step, i: nat) {
    (step.Consumer? || step.ScribbleReply?) && Handling(s.cpc) && s.cpc.i == i
  }

  /** The transitions of the entry states, and which side makes them. */
  predicate Transition(producer: bool, q: QState, q': QState) {
    if producer then
      match q
      case Free => q' == Claimed
      case Claimed => q' == Posted || q' == Free
      case Posted => q' == Abandoned
      case Sent => q' == Abandoned
      case Done => q' == Free
      case Abandoned => false
    else
      match q
      case Posted => q' == Sent
      case Sent => q' == Posted || q' == Done
      case Abandoned => q' == Free
      case _ => false
  }

  /** What a step may do to entry `i`. */
  predicate Disciplined(s: S, step: Step, t: S, i: nat)
    requires i < |s.ring| && i < |t.ring|
  {
    var e, e' := s.ring[i], t.ring[i];
    && (e'.req != e.req || e'.owner != e.owner || e'.sequence != e.sequence || e'.reqLen != e.reqLen ==>
          e.state == Claimed && ByClaimant(s, step, i))
    && (e'.rsp != e.rsp ==> (e.state == Sent || e.state == Abandoned) && ByConsumer(s, step, i))
    && (e'.rspLen != e.rspLen ==>
          || (e.state == Claimed && ByClaimant(s, step, i))
          || ((e.state == Sent || e.state == Abandoned) && ByConsumer(s, step, i)))
    && (e'.claim != e.claim ==> e.state == Free && e'.claim == |s.claims|)
    && (e.state == Free && e'.state != Free ==> e'.claim == |s.claims|)
    && (e'.state != e.state ==> Transition(step.Producer?, e.state, e'.state))
    && (e'.state != e.state && e.state != Free && step.Producer? ==> ByClaimant(s, step, i))
  }

  /**
   In every step: request bytes and key are written only by the claimant while
   CLAIMED, response bytes only by the consumer while SENT or ABANDONED, an
   entry changes hands only when FREE, and states follow the transitions.
   */
  lemma {:induction false} WriteDiscipline(s: S, step: Step, t: S, i: nat)
    requires Inv(s) && Moves(s, step, t) && i < |s.ring|
    ensures |t.ring| == |s.ring| && Disciplined(s, step, t, i)
  {
    hide EntryOk, EntryInv, ProducerInv, ConsumerInv, Disciplined, FrameOf;
    match step
    case Start(_, _) => assert Disciplined(s, step, t, i) by { Unchanged(s, step, t, i); }
    case Producer(p) => ProducerWrites(s, p, i);
    case Consumer(io) => ConsumerWrites(s, io, i);
    case _ => ScribbleWrites(s, step, i);
  }

  lemma {:induction false} Unchanged(s: S, step: Step, t: S, i: nat)
    requires i < |s.ring| && t.ring == s.ring
    ensures Disciplined(s, step, t, i)
  {
  }

  lemma {:induction false} ProducerWrites(s: S, p: nat, i: nat)
    requires Inv(s) && p < |s.pc| && !s.pc[p].Idle? && ProducerReady(s, p) && i < |s.ring|
    ensures var t := ProducerStep(s, p); |t.ring| == |s.ring| && Disciplined(s, Producer(p), t, i)
  {
    hide Filled, Answered, Encoded, FrameOf, Encodable, Decode, Overlay, EntryOk, FrameOk, EntryInv, ProducerInv,
         ConsumerInv;
    if HasClaim(s.pc[p]) {
      OwnEntry(s, p);
    }
  }

  /** The consumer steps that may change an entry. */
  predicate TouchesRing(cpc: CPC) {
    cpc.TakeCas? || cpc.Requeue? || cpc.CopyReply? || cpc.SetReplyLen? || cpc.Publish? || cpc.Discard?
  }

  lemma {:induction false} RingUntouched(s: S, io: IO)
    requires ConsumerReady(s) && !TouchesRing(s.cpc)
    ensures ConsumerStep(s, io).ring == s.ring
  {
    hide DecodeHeader, IngestOutcome, Ingest, McuStep, AllParse, Wired, ServedNext;
  }

  lemma {:induction false} ConsumerWrites(s: S, io: IO, i: nat)
    requires Inv(s) && ConsumerReady(s) && i < |s.ring|
    ensures var t := ConsumerStep(s, io); |t.ring| == |s.ring| && Disciplined(s, Consumer(io), t, i)
  {
    hide Inv, ConsumerStep, ConsumerReady, Disciplined;
    if TouchesRing(s.cpc) {
      TouchWrites(s, io, i);
    } else {
      RingUntouched(s, io);
      Unchanged(s, Consumer(io), ConsumerStep(s, io), i);
    }
  }

  lemma {:induction false} TouchWrites(s: S, io: IO, i: nat)
    requires Inv(s) && ConsumerReady(s) && i < |s.ring| && TouchesRing(s.cpc)
    ensures var t := ConsumerStep(s, io); |t.ring| == |s.ring| && Disciplined(s, Consumer(io), t, i)
  {
    hide Filled, Answered, FrameOf, Encodable, DecodeHeader, Overlay, EntryOk, FrameOk, EntryInv, ProducerInv, Wired,
         AllParse;
  }

  lemma {:induction false} ScribbleWrites(s: S, step: Step, i: nat)
    requires Inv(s) && (step.Scribble? || step.ScribbleReply?) && Ready(s, step) && Enabled(s, step) && i < |s.ring|
    ensures var t := Next(s, step); |t.ring| == |s.ring| && Disciplined(s, step, t, i)
  {
    hide Filled, Answered, Encoded, FrameOf, Encodable, EntryOk, FrameOk, EntryInv, ProducerInv, ConsumerInv;
    if step.Scribble? {
      OwnEntry(s, step.p);
    } else {
      HandledEntry(s);
    }
  }

  /** While the consumer handles an entry nobody else can claim it, and its request cannot change. */
  lemma {:induction false} HandledIsKept(s: S, step: Step, t: S)
    requires Inv(s) && Moves(s, step, t) && Handling(s.cpc)
    ensures var i := s.cpc.i;
            && i < |s.ring| == |t.ring| && t.ring[i].claim == s.ring[i].claim
            && t.ring[i].req == s.ring[i].req && t.ring[i].owner == s.ring[i].owner
            && t.ring[i].sequence == s.ring[i].sequence
  {
    hide Moves, EntryOk, FrameOk;
    HandledEntry(s);
    WriteDiscipline(s, step, t, s.cpc.i);
  }

  /** The bytes handed to the transport are the claimant's encoding. */
  lemma {:induction false} SentBytes(s: S)
    requires Inv(s) && s.cpc.Sending?
    ensures && s.cpc.i < |s.ring| && s.ring[s.cpc.i].claim < |s.claims|
            && var e, cl := s.ring[s.cpc.i], s.claims[s.ring[s.cpc.i].claim];
            Encodable(cl.req) && Outgoing(e) == FrameOf(cl.req) && cl.sends == 0 && cl.dones == 0
  {
    hide FrameOf, Encodable;
    HandledEntry(s);
  }

  /** Every DONE entry holds a frame whose header carries the entry's own session and sequence. */
  lemma {:induction false} DoneIsAnswered(s: S, i: nat)
    requires Inv(s) && i < |s.ring| && s.ring[i].state == Done
    ensures && s.ring[i].claim < |s.claims| && s.ring[i].rspLen <= |s.ring[i].rsp|
            && var e, req, h :=
                 s.ring[i], s.claims[s.ring[i].claim].req, DecodeHeader(s.ring[i].rsp[..s.ring[i].rspLen]);
            h.Ok? && h.value.session == e.owner == req.session && h.value.sequence == e.sequence == req.sequence
  {
    assert EntryInv(s, i);
  }

  // ---- Claims over a run ----

  /** A successful send of claim `c`. */
  predicate Sends(s: S, step: Step, c: nat) {
    s.cpc.Sending? && s.cpc.i < |s.ring| && s.ring[s.cpc.i].claim == c && step == Consumer(SendDone(true))
  }

  /** The step in which claim `c` becomes DONE. */
  predicate Completes(s: S, step: Step, c: nat) {
    s.cpc.Publish? && s.cpc.i < |s.ring| && s.ring[s.cpc.i].claim == c && s.ring[s.cpc.i].state == Sent
    && step.Consumer?
  }

  /** One step's effect on a claim's record. */
  predicate ClaimMoves(s: S, step: Step, t: S, c: nat)
    requires c < |s.claims| && c < |t.claims|
  {
    var cl, cl' := s.claims[c], t.claims[c];
    && cl'.idx == cl.idx && cl'.producer == cl.producer && cl'.req == cl.req
    && cl'.sends == cl.sends + (if Sends(s, step, c) then 1 else 0)
    && cl'.dones == cl.dones + (if Completes(s, step, c) then 1 else 0)
    && (cl.abandoned ==> cl'.abandoned)
  }

  lemma {:induction false} ClaimStep(s: S, step: Step, t: S, c: nat)
    requires Inv(s) && Moves(s, step, t) && c < |s.claims|
    ensures |s.claims| <= |t.claims| && ClaimMoves(s, step, t, c)
  {
    hide EntryOk, EntryInv, ProducerInv, ConsumerInv, ClaimMoves, FrameOf;
    match step
    case Start(_, _) => assert ClaimMoves(s, step, t, c) by { SameClaims(s, step, t, c); }
    case Producer(p) => ProducerClaim(s, p, c);
    case Consumer(io) =>
      ConsumerAddsNoClaim(s, io);
      ConsumerClaim(s, io, c);
    case _ => assert ClaimMoves(s, step, t, c) by { ScribbleClaims(s, step); SameClaims(s, step, t, c); }
  }

  lemma {:induction false} SameClaims(s: S, step: Step, t: S, c: nat)
    requires c < |s.claims| && t.claims == s.claims && !step.Consumer?
    ensures ClaimMoves(s, step, t, c)
  {
  }

  lemma {:induction false} ScribbleClaims(s: S, step: Step)
    requires (step.Scribble? || step.ScribbleReply?) && Ready(s, step) && Enabled(s, step)
    ensures Next(s, step).claims == s.claims
  {
  }

  lemma {:induction false} ProducerClaim(s: S, p: nat, c: nat)
    requires Inv(s) && p < |s.pc| && !s.pc[p].Idle? && ProducerReady(s, p) && c < |s.claims|
    ensures var t := ProducerStep(s, p); |s.claims| <= |t.claims| && ClaimMoves(s, Producer(p), t, c)
  {
    hide Inv, FrameOf, Encodable, Decode, Overlay;
  }

  lemma {:induction false} ConsumerClaim(s: S, io: IO, c: nat)
    requires Inv(s) && ConsumerReady(s) && Returns(s, io) && c < |s.claims|
    ensures var t := ConsumerStep(s, io); c < |t.claims| && ClaimMoves(s, Consumer(io), t, c)
  {
    hide Inv, DecodeHeader, Overlay, IngestOutcome, Ingest, McuStep, Wired, AllParse, ServedNext, Outgoing, SendOk,
         RecvOk;
    if s.cpc.Sending? && io == SendDone(true) {
      SendClaim(s, s.cpc.i);
    } else if s.cpc.Receiving? && io.r.Ok? {
      RecvClaim(s, io.r.value);
    }
  }

  lemma {:induction false} SendClaim(s: S, i: nat)
    requires i < |s.ring| && s.ring[i].claim < |s.claims|
    ensures var c := s.ring[i].claim;
            SendOk(s, i).claims == s.claims[c := s.claims[c].(sends := s.claims[c].sends + 1)]
  {
  }

  lemma {:induction false} RecvClaim(s: S, frame: seq<byte>)
    requires s.link.Emulated? ==> Wired(s.link.dev) && AllParse(s.link.dev)
    ensures |RecvOk(s, frame).claims| == |s.claims|
    ensures forall c | 0 <= c < |s.claims| ::
              RecvOk(s, frame).claims[c] == s.claims[c].(service := RecvOk(s, frame).claims[c].service)
  {
    hide McuStep, Wired, AllParse, ServedNext;
  }

  /** A claim's record only grows along a run. */
  lemma {:induction false} ClaimLater(run: seq<S>, steps: seq<Step>, k: nat, l: nat, c: nat)
    requires Run(run, steps) && k <= l < |run| && c < |run[k].claims|
    ensures c < |run[l].claims|
    ensures var cl, cl' := run[k].claims[c], run[l].claims[c];
            && cl'.idx == cl.idx && cl'.producer == cl.producer && cl'.req == cl.req
            && cl.sends <= cl'.sends && cl.dones <= cl'.dones && (cl.abandoned ==> cl'.abandoned)
    decreases l
  {
    hide Inv, Moves, Initial;
    if k < l {
      ClaimLater(run, steps, k, l - 1, c);
      RunKeeps(run, steps, l - 1);
      assert MovesAt(run, steps, l - 1);
      ClaimStep(run[l - 1], steps[l - 1], run[l], c);
    }
  }

  /** In every run a claim is successfully sent at most once. */
  lemma {:induction false} SentOnce(run: seq<S>, steps: seq<Step>, k: nat, l: nat, c: nat)
    requires Run(run, steps) && k < |steps| && l < |steps|
    requires Sends(run[k], steps[k], c) && Sends(run[l], steps[l], c)
    ensures k == l
  {
    assert |run| == |steps| + 1;
    hide Inv, Run, Outgoing, FrameOf, Encodable;
    if k != l {
      var a, b := if k < l then k else l, if k < l then l else k;
      AfterSend(run, steps, a, c);
      ClaimLater(run, steps, a + 1, b, c);
      RunKeeps(run, steps, b);
      SentBytes(run[b]);
      assert false;
    }
  }

  lemma {:induction false} AfterSend(run: seq<S>, steps: seq<Step>, k: nat, c: nat)
    requires Run(run, steps) && k < |steps| && Sends(run[k], steps[k], c)
    ensures c < |run[k].claims| <= |run[k + 1].claims| && run[k].claims[c].sends == 0 && run[k + 1].claims[c].sends == 1
  {
    hide Inv, Moves, Initial, Outgoing;
    RunKeeps(run, steps, k);
    SentBytes(run[k]);
    assert MovesAt(run, steps, k);
    ClaimStep(run[k], steps[k], run[k + 1], c);
  }

  /** In every run a claim becomes DONE at most once. */
  lemma {:induction false} DoneOnce(run: seq<S>, steps: seq<Step>, k: nat, l: nat, c: nat)
    requires Run(run, steps) && k < |steps| && l < |steps|
    requires Completes(run[k], steps[k], c) && Completes(run[l], steps[l], c)
    ensures k == l
  {
    assert |run| == |steps| + 1;
    hide Inv, Run;
    if k != l {
      var a, b := if k < l then k else l, if k < l then l else k;
      AfterDone(run, steps, a, c);
      ClaimLater(run, steps, a + 1, b, c);
      AfterDone(run, steps, b, c);
      assert false;
    }
  }

  lemma {:induction false} AfterDone(run: seq<S>, steps: seq<Step>, k: nat, c: nat)
    requires Run(run, steps) && k < |steps| && Completes(run[k], steps[k], c)
    ensures c < |run[k].claims| <= |run[k + 1].claims|
    ensures run[k].claims[c].sends == 1 && run[k].claims[c].dones == 0 && run[k + 1].claims[c].dones == 1
  {
    hide Moves, Initial, EntryInv, ProducerInv, Filled, Answered;
    RunKeeps(run, steps, k);
    HandledEntry(run[k]);
    assert MovesAt(run, steps, k);
    ClaimStep(run[k], steps[k], run[k + 1], c);
  }

  /** A claim counted as sent was sent by some earlier step. */
  lemma {:induction false} WasSent(run: seq<S>, steps: seq<Step>, l: nat, c: nat)
    requires Run(run, steps) && l < |run| && c < |run[l].claims| && run[l].claims[c].sends > 0
    ensures exists k | 0 <= k < l :: Sends(run[k], steps[k], c)
  {
    hide Inv, Moves;
    if l > 0 {
      assert MovesAt(run, steps, l - 1);
      RunKeeps(run, steps, l - 1);
      if c < |run[l - 1].claims| {
        ClaimStep(run[l - 1], steps[l - 1], run[l], c);
        if !Sends(run[l - 1], steps[l - 1], c) {
          WasSent(run, steps, l - 1, c);
        }
      } else {
        FreshClaim(run[l - 1], steps[l - 1], run[l], c);
      }
    }
  }

  lemma {:induction false} FreshClaim(s: S, step: Step, t: S, c: nat)
    requires Moves(s, step, t) && |s.claims| <= c < |t.claims|
    ensures t.claims[c].sends == 0 && t.claims[c].dones == 0 && c == |s.claims|
  {
    hide Returns, FrameOf, Decode, DecodeHeader, Overlay, SendOk, RecvOk;
    if step.Consumer? {
      ConsumerAddsNoClaim(s, step.io);
    } else if step.Scribble? || step.ScribbleReply? {
      ScribbleClaims(s, step);
    }
  }

  lemma {:induction false} ConsumerAddsNoClaim(s: S, io: IO)
    requires ConsumerReady(s)
    ensures |ConsumerStep(s, io).claims| == |s.claims|
  {
    hide McuStep, Wired, AllParse, ServedNext, Ingest, IngestOutcome;
  }

  /** Where a transport call leaves the consumer. */
  lemma {:induction false} CallsEnd(s: S, io: IO)
    requires ConsumerReady(s)
    ensures s.cpc.Sending? && io.SendDone? && io.ok ==>
              var t := SendOk(s, s.cpc.i);
              t.cpc == Ceiling && t.hist.failed == s.hist.failed && t.ring == s.ring
    ensures s.cpc.Receiving? && io.RecvDone? && io.r.Ok? ==>
              var t := RecvOk(s, io.r.value);
              t.cpc == Parsing(io.r.value) && t.hist.failed == s.hist.failed && t.ring == s.ring
  {
    hide McuStep, Wired, AllParse, ServedNext, Ingest, IngestOutcome;
  }

  lemma {:induction false} ConsumerLeavesProducers(s: S, io: IO)
    requires ConsumerReady(s)
    ensures ConsumerStep(s, io).pc == s.pc
  {
    hide McuStep, Wired, AllParse, ServedNext, Ingest, IngestOutcome, DecodeHeader, Overlay;
  }

  /** A client's step changes only its own place: it goes on searching, gets a claim, keeps it, or is done. */
  lemma {:induction false} OwnPlace(s: S, q: nat)
    requires q < |s.pc| && !s.pc[q].Idle? && ProducerReady(s, q)
    ensures var t := ProducerStep(s, q);
            && |t.pc| == |s.pc| && (forall p | 0 <= p < |s.pc| && p != q :: t.pc[p] == s.pc[p])
            && (HasClaim(t.pc[q]) ==> t.pc[q].c == if HasClaim(s.pc[q]) then s.pc[q].c else |s.claims|)
            && (t.pc[q].Claiming? ==>
                  && t.pc[q].i > 0 && s.pc[q] == Claiming(t.pc[q].req, t.pc[q].i - 1)
                  && t.pc[q].i - 1 < |s.ring| && s.ring[t.pc[q].i - 1].state != Free)
  {
    hide FrameOf, Encodable, ReadOut, Overlay, Cas, EncodedLen;
  }

  /** What a client has is kept by every step but its own. */
  lemma {:induction false} PlaceKept(s: S, step: Step, t: S, p: nat)
    requires Moves(s, step, t) && step != Producer(p) && p < |t.pc|
    ensures p < |s.pc| && (t.pc[p] == s.pc[p] || (step.Start? && step.p == p && t.pc[p] == Claiming(step.req, 0)))
  {
    hide Returns, ConsumerStep, ProducerStep, ConsumerReady, ProducerReady;
    match step
    case Producer(q) => OwnPlace(s, q);
    case Consumer(io) => ConsumerLeavesProducers(s, io);
    case _ =>
  }

  /** DONE, now or earlier, implies exactly one successful send before it. */
  lemma {:induction false} DoneWasSentOnce(run: seq<S>, steps: seq<Step>, l: nat, c: nat)
    requires Run(run, steps) && l < |steps| && Completes(run[l], steps[l], c)
    ensures exists k | 0 <= k < l :: Sends(run[k], steps[k], c)
    ensures forall k, k' | 0 <= k < |steps| && 0 <= k' < |steps|
                           && Sends(run[k], steps[k], c) && Sends(run[k'], steps[k'], c) :: k == k'
  {
    assert |run| == |steps| + 1;
    hide Run, Sends;
    AfterDone(run, steps, l, c);
    WasSent(run, steps, l, c);
    forall k, k' | 0 <= k < |steps| && 0 <= k' < |steps| && Sends(run[k], steps[k], c) && Sends(run[k'], steps[k'], c)
      ensures k == k'
    {
      SentOnce(run, steps, k, k', c);
    }
  }
}
