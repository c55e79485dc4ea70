/**
 When a client reports a timeout without having abandoned its entry: it found
 the entry POSTED when it tried to abandon a SENT one, SENT when it tried to
 abandon a POSTED one, and not DONE when it looked again.
 */
module Timeouts {
  import opened Wire
  import opened Device
  import opened Ring
  import opened RingSafety
  import opened RingRuns
  import opened Recycling

  /** The step is one of a client at `pc`, which finds its entry in state `q`. */
  predicate Finds(s: S, step: Step, pc: PC, q: QState) {
    && step.Producer? && step.p < |s.pc| && s.pc[step.p] == pc && HasClaim(pc)
    && OwnState(s, pc.c, q)
  }

  predicate OwnState(s: S, c: nat, q: QState) {
    c < |s.claims| && s.claims[c].idx < |s.ring| && s.ring[s.claims[c].idx].state == q
  }

  /** Before point `m` the client of claim `c` passed its entry by three times. */
  ghost predicate Slips(run: seq<S>, steps: seq<Step>, j: nat, k: nat, l: nat, m: nat, c: nat)
    requires |run| == |steps| + 1
  {
    && j < k < l < m < |run|
    && Finds(run[j], steps[j], AbandonSent(c), Posted)
    && Finds(run[k], steps[k], AbandonPosted(c), Sent)
    && (Finds(run[l], steps[l], Recheck(c), Posted) || Finds(run[l], steps[l], Recheck(c), Sent))
  }

  ghost predicate Slipped(run: seq<S>, steps: seq<Step>, m: nat, c: nat)
    requires |run| == |steps| + 1
  {
    exists j: nat, k: nat, l: nat :: Slips(run, steps, j, k, l, m, c)
  }

  predicate Left(cl: Claim) { cl.outcome == TimedOut && !cl.abandoned }

  // ---- Looking back from a timeout ----

  /** The two later attempts, and what comes before each. */
  predicate LateAttempt(pc: PC) { pc.AbandonPosted? || pc.Recheck? }

  function Earlier(pc: PC): PC
    requires LateAttempt(pc)
  {
    if pc.AbandonPosted? then AbandonSent(pc.c) else AbandonPosted(pc.c)
  }

  function Passed(pc: PC): QState { if pc.AbandonPosted? then Posted else Sent }

  /** A late attempt with an entry that is not DONE was late before, or comes from the attempt before it. */
  lemma {:induction false} OneBack(s: S, step: Step, t: S, p: nat, pc: PC)
    requires Inv(s) && Moves(s, step, t) && LateAttempt(pc) && p < |t.pc| && t.pc[p] == pc && !OwnState(t, pc.c, Done)
    ensures || (p < |s.pc| && s.pc[p] == pc && !OwnState(s, pc.c, Done))
            || (step == Producer(p) && Finds(s, step, Earlier(pc), Passed(pc)))
  {
    hide Inv, ProducerStep, ConsumerStep, Returns, OwnState, FrameOf;
    if step == Producer(p) {
      AttemptMoves(s, p, pc);
    } else {
      OthersKeep(s, step, t, p);
      if OwnState(s, pc.c, Done) {
        DoneKept(s, step, t, p);
      }
    }
  }

  lemma {:induction false} AttemptMoves(s: S, p: nat, pc: PC)
    requires Inv(s) && p < |s.pc| && !s.pc[p].Idle? && ProducerReady(s, p) && LateAttempt(pc)
    requires ProducerStep(s, p).pc[p] == pc && !OwnState(ProducerStep(s, p), pc.c, Done)
    ensures Finds(s, Producer(p), Earlier(pc), Passed(pc))
  {
    hide Inv, EntryOk, ClaimOk, BuffersOk, ConsumerOk, FrameOf, Encodable, Overlay, ReadOut, Filled, Encoded, Answered;
    if HasClaim(s.pc[p]) {
      OwnEntry(s, p);
    }
  }

  lemma {:induction false} OthersKeep(s: S, step: Step, t: S, p: nat)
    requires Moves(s, step, t) && step != Producer(p) && p < |t.pc| && HasClaim(t.pc[p])
    ensures p < |s.pc| && s.pc[p] == t.pc[p]
  {
    hide Moves;
    PlaceKept(s, step, t, p);
  }

  /** A DONE entry stays DONE until its client acts. */
  lemma {:induction false} DoneKept(s: S, step: Step, t: S, p: nat)
    requires Inv(s) && Moves(s, step, t) && step != Producer(p) && p < |s.pc| && HasClaim(s.pc[p])
             && OwnState(s, s.pc[p].c, Done)
    ensures OwnState(t, s.pc[p].c, Done)
  {
    hide Inv, Moves, EntryOk, ConsumerOk, BuffersOk;
    OwnEntry(s, p);
    ClaimStep(s, step, t, s.pc[p].c);
    WriteDiscipline(s, step, t, s.claims[s.pc[p].c].idx);
  }

  /** A late attempt with an entry that is not DONE follows an earlier attempt of the same client. */
  lemma {:induction false} CameFrom(run: seq<S>, steps: seq<Step>, l: nat, p: nat, pc: PC) returns (k: nat)
    requires Run(run, steps) && l < |run| && LateAttempt(pc) && p < |run[l].pc| && run[l].pc[p] == pc
             && !OwnState(run[l], pc.c, Done)
    ensures k < l && Finds(run[k], steps[k], Earlier(pc), Passed(pc)) && steps[k] == Producer(p)
  {
    hide Inv, Moves, OwnState;
    assert l > 0;
    RunKeeps(run, steps, l - 1);
    assert MovesAt(run, steps, l - 1);
    OneBack(run[l - 1], steps[l - 1], run[l], p, pc);
    if steps[l - 1] == Producer(p) && Finds(run[l - 1], steps[l - 1], Earlier(pc), Passed(pc)) {
      k := l - 1;
    } else {
      k := CameFrom(run, steps, l - 1, p, pc);
    }
  }

  /** A step that leaves a claim timed out and not abandoned is the last look of its client. */
  lemma {:induction false} LastLook(s: S, step: Step, t: S, c: nat)
    requires Inv(s) && Moves(s, step, t) && c < |t.claims| && Left(t.claims[c])
             && !(c < |s.claims| && Left(s.claims[c]))
    ensures Finds(s, step, Recheck(c), Posted) || Finds(s, step, Recheck(c), Sent)
  {
    hide Inv, ProducerStep, ConsumerStep, Returns, FrameOf;
    match step
    case Start(_, _) =>
    case Producer(p) => LookingAgain(s, p, c);
    case Consumer(io) => ConsumerKeepsOutcome(s, io, c);
    case _ => ScribbleClaims(s, step);
  }

  lemma {:induction false} LookingAgain(s: S, p: nat, c: nat)
    requires Inv(s) && p < |s.pc| && !s.pc[p].Idle? && ProducerReady(s, p)
    requires c < |ProducerStep(s, p).claims| && Left(ProducerStep(s, p).claims[c])
             && !(c < |s.claims| && Left(s.claims[c]))
    ensures Finds(s, Producer(p), Recheck(c), Posted) || Finds(s, Producer(p), Recheck(c), Sent)
  {
    hide Inv, EntryOk, ClaimOk, BuffersOk, ConsumerOk, FrameOf, Encodable, Overlay, Decode, HeadAfter;
    if HasClaim(s.pc[p]) {
      OwnEntry(s, p);
    }
  }

  lemma {:induction false} ConsumerKeepsOutcome(s: S, io: IO, c: nat)
    requires ConsumerReady(s)
    ensures |ConsumerStep(s, io).claims| == |s.claims|
    ensures c < |s.claims| ==>
              var cl, cl' := s.claims[c], ConsumerStep(s, io).claims[c];
              cl'.outcome == cl.outcome && cl'.abandoned == cl.abandoned
  {
    hide McuStep, Wired, AllParse, ServedNext, Ingest, IngestOutcome, DecodeHeader, Overlay, SendOk, RecvOk, Cas;
    if s.cpc.Sending? {
      SendClaim(s, s.cpc.i);
    } else if s.cpc.Receiving? && io.RecvDone? && io.r.Ok? {
      RecvClaim(s, io.r.value);
    }
  }

  lemma {:induction false} WhenLeft(run: seq<S>, steps: seq<Step>, m: nat, c: nat)
    requires Run(run, steps) && m < |run| && c < |run[m].claims| && Left(run[m].claims[c])
    ensures Slipped(run, steps, m, c)
  {
    hide Inv, Moves, Finds, Left;
    assert m > 0;
    if c < |run[m - 1].claims| && Left(run[m - 1].claims[c]) {
      WhenLeft(run, steps, m - 1, c);
      var j: nat, k: nat, l: nat :| Slips(run, steps, j, k, l, m - 1, c);
      assert Slips(run, steps, j, k, l, m, c);
    } else {
      var l := m - 1;
      RunKeeps(run, steps, l);
      assert MovesAt(run, steps, l);
      LastLook(run[l], steps[l], run[m], c);
      var k := LookedBefore(run, steps, l, c);
      var j := TriedBefore(run, steps, k, c);
      assert Slips(run, steps, j, k, l, m, c);
    }
  }

  lemma {:induction false} LookedBefore(run: seq<S>, steps: seq<Step>, l: nat, c: nat) returns (k: nat)
    requires Run(run, steps) && l < |steps|
             && (Finds(run[l], steps[l], Recheck(c), Posted) || Finds(run[l], steps[l], Recheck(c), Sent))
    ensures k < l && Finds(run[k], steps[k], AbandonPosted(c), Sent)
  {
    assert |run| == |steps| + 1;
    hide Run;
    k := CameFrom(run, steps, l, steps[l].p, Recheck(c));
  }

  lemma {:induction false} TriedBefore(run: seq<S>, steps: seq<Step>, k: nat, c: nat) returns (j: nat)
    requires Run(run, steps) && k < |steps| && Finds(run[k], steps[k], AbandonPosted(c), Sent)
    ensures j < k && Finds(run[j], steps[j], AbandonSent(c), Posted)
  {
    assert |run| == |steps| + 1;
    hide Run;
    j := CameFrom(run, steps, k, steps[k].p, AbandonPosted(c));
  }

  // ---- Looking on ----

  /** Once nobody is at work for a claim, its outcome stands. */
  lemma {:induction false} OutcomeStands(s: S, step: Step, t: S, c: nat)
    requires Inv(s) && Moves(s, step, t) && c < |s.claims| && Orphaned(s, c)
    ensures c < |t.claims| && t.claims[c].outcome == s.claims[c].outcome
            && t.claims[c].abandoned == s.claims[c].abandoned && Orphaned(t, c)
  {
    hide Inv, ProducerStep, ConsumerStep, Returns, FrameOf, ClaimMoves;
    ClaimStep(s, step, t, c);
    forall p | 0 <= p < |t.pc| && HasClaim(t.pc[p]) ensures t.pc[p].c != c {
      SameClaimant(s, step, t, p);
    }
    match step
    case Start(_, _) =>
    case Producer(p) => OthersOutcome(s, p, c);
    case Consumer(io) => ConsumerKeepsOutcome(s, io, c);
    case _ => ScribbleClaims(s, step);
  }

  lemma {:induction false} OthersOutcome(s: S, p: nat, c: nat)
    requires p < |s.pc| && !s.pc[p].Idle? && ProducerReady(s, p) && c < |s.claims|
             && (HasClaim(s.pc[p]) ==> s.pc[p].c != c)
    ensures c < |ProducerStep(s, p).claims| && ProducerStep(s, p).claims[c] == s.claims[c]
  {
    hide FrameOf, Encodable, Overlay, ReadOut;
  }

  lemma {:induction false} OutcomeLasts(run: seq<S>, steps: seq<Step>, l: nat, m: nat, c: nat)
    requires Run(run, steps) && l <= m < |run| && c < |run[l].claims| && Orphaned(run[l], c)
    ensures c < |run[m].claims| && run[m].claims[c].outcome == run[l].claims[c].outcome
    ensures run[m].claims[c].abandoned == run[l].claims[c].abandoned && Orphaned(run[m], c)
    decreases m
  {
    hide Inv, Moves, Initial, Orphaned;
    if l < m {
      OutcomeLasts(run, steps, l, m - 1, c);
      RunKeeps(run, steps, m - 1);
      assert MovesAt(run, steps, m - 1);
      OutcomeStands(run[m - 1], steps[m - 1], run[m], c);
    }
  }

  /** The last look, when it fails, leaves the claim timed out, not abandoned, and nobody at work for it. */
  lemma {:induction false} LooksInVain(s: S, p: nat, c: nat)
    requires Inv(s) && p < |s.pc| && s.pc[p] == Recheck(c) && ProducerReady(s, p)
    requires OwnState(s, c, Posted) || OwnState(s, c, Sent)
    ensures var t := ProducerStep(s, p); c < |t.claims| && Left(t.claims[c]) && Orphaned(t, c)
  {
    hide Inv, ClaimOk, BuffersOk, ConsumerOk, FrameOf, Encodable, Overlay, ReadOut, Filled, Answered;
    OwnEntry(s, p);
    var t := ProducerStep(s, p);
    forall q | 0 <= q < |t.pc| && HasClaim(t.pc[q]) ensures t.pc[q].c != c {
      if q != p {
        OwnEntry(s, q);
      }
    }
  }

  /**
   At any point of any run, a claim has timed out without being abandoned exactly
   when its client passed its entry by three times.
   */
  lemma {:induction false} LeftIff(run: seq<S>, steps: seq<Step>, m: nat, c: nat)
    requires Run(run, steps) && m < |run| && c < |run[m].claims|
    ensures Left(run[m].claims[c]) <==> Slipped(run, steps, m, c)
    ensures Slipped(run, steps, m, c) ==> Orphaned(run[m], c)
  {
    assert |run| == |steps| + 1;
    hide Inv, Orphaned, Left, Initial, Moves;
    if Left(run[m].claims[c]) {
      WhenLeft(run, steps, m, c);
    }
    if Slipped(run, steps, m, c) {
      var j: nat, k: nat, l: nat :| Slips(run, steps, j, k, l, m, c);
      AfterLook(run, steps, l, c);
      OutcomeLasts(run, steps, l + 1, m, c);
      SameLeft(run[l + 1].claims[c], run[m].claims[c]);
    }
  }

  lemma {:induction false} SameLeft(a: Claim, b: Claim)
    requires Left(a) && b.outcome == a.outcome && b.abandoned == a.abandoned
    ensures Left(b)
  {
  }

  lemma {:induction false} AfterLook(run: seq<S>, steps: seq<Step>, l: nat, c: nat)
    requires Run(run, steps) && l < |steps|
    requires Finds(run[l], steps[l], Recheck(c), Posted) || Finds(run[l], steps[l], Recheck(c), Sent)
    ensures c < |run[l + 1].claims| && Left(run[l + 1].claims[c]) && Orphaned(run[l + 1], c)
  {
    hide Inv, Orphaned, Left, Initial, ProducerStep, OwnState;
    RunKeeps(run, steps, l);
    assert MovesAt(run, steps, l);
    LooksInVain(run[l], steps[l].p, c);
  }

  // ---- Entries nobody will free ----

  /** An occupied entry is being worked for, or its client has timed out. */
  predicate Minded(s: S, i: nat)
    requires i < |s.ring|
  {
    var c := s.ring[i].claim;
    s.ring[i].state != Free && c < |s.claims| && Orphaned(s, c) ==> s.claims[c].outcome == TimedOut
  }

  lemma {:induction false} StaysMinded(s: S, step: Step, t: S, i: nat)
    requires Inv(s) && Moves(s, step, t) && i < |s.ring| == |t.ring| && Minded(s, i)
    ensures Minded(t, i)
  {
    hide Inv, ProducerStep, ConsumerStep, Returns, FrameOf, Minded;
    if step.Producer? {
      ClientMinds(s, step.p, i);
    } else {
      OthersMind(s, step, t, i);
    }
  }

  lemma {:induction false} OthersMind(s: S, step: Step, t: S, i: nat)
    requires Inv(s) && Moves(s, step, t) && !step.Producer? && i < |s.ring| == |t.ring| && Minded(s, i)
    ensures Minded(t, i)
  {
    hide Inv, Moves;
    WriteDiscipline(s, step, t, i);
    if s.ring[i].state != Free {
      ClaimBelow(s, i);
      PlacesKept(s, step, t);
      if Orphaned(s, s.ring[i].claim) {
        OutcomeStands(s, step, t, s.ring[i].claim);
      }
    }
  }

  lemma {:induction false} PlacesKept(s: S, step: Step, t: S)
    requires Moves(s, step, t) && !step.Producer?
    ensures |t.pc| == |s.pc| && forall p | 0 <= p < |s.pc| && HasClaim(s.pc[p]) :: t.pc[p] == s.pc[p]
  {
    hide Returns, ConsumerStep;
    if step.Consumer? {
      ConsumerLeavesProducers(s, step.io);
    }
  }

  lemma {:induction false} ClientMinds(s: S, p: nat, i: nat)
    requires Inv(s) && p < |s.pc| && !s.pc[p].Idle? && ProducerReady(s, p) && i < |s.ring| == |ProducerStep(s, p).ring|
             && Minded(s, i)
    ensures Minded(ProducerStep(s, p), i)
  {
    hide Inv, ProducerStep, Minded, Orphaned, ProducerReady;
    if HasClaim(s.pc[p]) && OwnIndex(s, p) == i {
      MindsOwn(s, p);
    } else if s.ring[i].state != Free {
      ClaimBelow(s, i);
      MindsNoOther(s, p, i);
    } else {
      MindsNew(s, p, i);
    }
  }

  function OwnIndex(s: S, p: nat): nat
    requires p < |s.pc| && HasClaim(s.pc[p]) && ProducerReady(s, p)
  {
    s.claims[s.pc[p].c].idx
  }

  /** A client leaves its own entry FREE, or with a timeout. */
  lemma {:induction false} MindsOwn(s: S, p: nat)
    requires Inv(s) && p < |s.pc| && HasClaim(s.pc[p]) && ProducerReady(s, p)
    ensures OwnIndex(s, p) < |ProducerStep(s, p).ring| && Minded(ProducerStep(s, p), OwnIndex(s, p))
  {
    hide Inv, EntryOk, ClaimOk, BuffersOk, ConsumerOk, FrameOf, Encodable, Overlay, ReadOut, Filled, Encoded, Answered;
    OwnEntry(s, p);
    var t := ProducerStep(s, p);
    if HasClaim(t.pc[p]) {
      assert t.pc[p].c == t.ring[OwnIndex(s, p)].claim;
    }
  }

  lemma {:induction false} MindsNoOther(s: S, p: nat, i: nat)
    requires Inv(s) && p < |s.pc| && !s.pc[p].Idle? && ProducerReady(s, p) && i < |s.ring| && Minded(s, i)
    requires s.ring[i].state != Free && s.ring[i].claim < |s.claims| && (HasClaim(s.pc[p]) ==> OwnIndex(s, p) != i)
    ensures i < |ProducerStep(s, p).ring| && Minded(ProducerStep(s, p), i)
  {
    hide EntryOk, ClaimOk, BuffersOk, ProducerInv, ConsumerInv, FrameOf, Encodable, Overlay, ReadOut;
    assert EntryInv(s, i);
    var t := ProducerStep(s, p);
    var c := s.ring[i].claim;
    OthersOutcome(s, p, c);
    assert t.ring[i] == s.ring[i];
    if Orphaned(t, c) {
      forall q | 0 <= q < |s.pc| && HasClaim(s.pc[q]) ensures s.pc[q].c != c {
        assert q != p ==> t.pc[q] == s.pc[q];
      }
    }
  }

  lemma {:induction false} MindsNew(s: S, p: nat, i: nat)
    requires Inv(s) && p < |s.pc| && !s.pc[p].Idle? && ProducerReady(s, p) && i < |s.ring| && s.ring[i].state == Free
    requires HasClaim(s.pc[p]) ==> OwnIndex(s, p) != i
    ensures i < |ProducerStep(s, p).ring| && Minded(ProducerStep(s, p), i)
  {
    hide Inv, FrameOf, Encodable, Overlay, ReadOut;
    var t := ProducerStep(s, p);
    if t.ring[i].state != Free {
      assert HasClaim(t.pc[p]) && t.pc[p].c == t.ring[i].claim;
    }
  }

  /** In every run an occupied entry that nobody works for belongs to a client that has timed out. */
  lemma {:induction false} AllMinded(run: seq<S>, steps: seq<Step>, m: nat, i: nat)
    requires Run(run, steps) && m < |run| && i < |run[m].ring|
    ensures Minded(run[m], i)
  {
    hide Inv, Moves, Minded;
    if m > 0 {
      assert MovesAt(run, steps, m - 1);
      RunKeeps(run, steps, m - 1);
      SameRing(run[m - 1], steps[m - 1], run[m]);
      AllMinded(run, steps, m - 1, i);
      StaysMinded(run[m - 1], steps[m - 1], run[m], i);
    } else {
      FreshMinded(run[0], i);
    }
  }

  lemma {:induction false} FreshMinded(s: S, i: nat)
    requires Initial(s) && i < |s.ring|
    ensures Minded(s, i)
  {
  }

  lemma {:induction false} SameRing(s: S, step: Step, t: S)
    requires Inv(s) && Moves(s, step, t)
    ensures |t.ring| == |s.ring|
  {
    hide Inv, FrameOf, Encodable, Overlay, ReadOut, Returns, ConsumerStep;
    if step.Consumer? {
      ConsumerSameRing(s, step.io);
    }
  }

  lemma {:induction false} ConsumerSameRing(s: S, io: IO)
    requires ConsumerReady(s)
    ensures |ConsumerStep(s, io).ring| == |s.ring|
  {
    hide McuStep, Wired, AllParse, ServedNext, Ingest, IngestOutcome, DecodeHeader, Overlay;
  }

  /**
   In every run a DONE entry has lost its client, and is never reused, exactly when
   that client passed it by three times.
   */
  lemma {:induction false} OrphanedIff(run: seq<S>, steps: seq<Step>, m: nat, i: nat)
    requires Run(run, steps) && m < |run| && i < |run[m].ring| && run[m].ring[i].state == Done
    ensures Orphaned(run[m], run[m].ring[i].claim) <==> Slipped(run, steps, m, run[m].ring[i].claim)
  {
    assert |run| == |steps| + 1;
    hide Run, Inv, Orphaned, Slipped;
    RunKeeps(run, steps, m);
    DoneNotAbandoned(run[m], i);
    AllMinded(run, steps, m, i);
    LeftIff(run, steps, m, run[m].ring[i].claim);
  }

  lemma {:induction false} DoneNotAbandoned(s: S, i: nat)
    requires Inv(s) && i < |s.ring| && s.ring[i].state == Done
    ensures s.ring[i].claim < |s.claims| && !s.claims[s.ring[i].claim].abandoned
  {
    hide Filled, Answered;
    assert EntryInv(s, i);
  }
}
