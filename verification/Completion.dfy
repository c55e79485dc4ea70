/**
 A client's call ends.  Whatever the consumer, the transport and the other
 clients do, a call with a budget returns within a number of the client's own
 steps fixed by the ring and the budget.
 */
module Completion {
  import opened Ring
  import opened RingSafety
  import opened RingRuns
  import opened Timeouts
  import Progress

  /** The budget of the call producer `p` is at work for. */
  function Budget(s: S, p: nat): nat
    requires p < |s.pc|
  {
    if s.pc[p].Claiming? then s.pc[p].req.budget
    else if HasClaim(s.pc[p]) && s.pc[p].c < |s.claims| then s.claims[s.pc[p].c].req.budget
    else 0
  }

  /** At most how many steps a client with budget `b` is from its return, in a ring of `n` entries. */
  function ToReturn(pc: PC, b: nat, n: nat): nat {
    match pc
    case Idle => 0
    case Claiming(_, i) => Progress.Left(i, n) + b + 13
    case Encoding(_) => b + 12
    case RollBack(_) => 1
    case SetOwner(_) => b + 11
    case SetSequence(_) => b + 10
    case SetReqLen(_) => b + 9
    case SetRspLen(_) => b + 8
    case Posting(_) => b + 7
    case Waiting(_, spins) => Progress.Left(spins, b) + 6
    case AbandonSent(_) => 5
    case AbandonPosted(_) => 4
    case Recheck(_) => 3
    case Reading(_) => 2
    case Releasing(_) => 1
  }

  function CallLeft(s: S, p: nat): nat
    requires p < |s.pc|
  {
    ToReturn(s.pc[p], Budget(s, p), |s.ring|)
  }

  /** Every step of its own brings a client with a budget nearer to its return. */
  lemma {:induction false} OwnNearer(s: S, p: nat)
    requires p < |s.pc| && !s.pc[p].Idle? && ProducerReady(s, p) && Budget(s, p) > 0
    ensures var t := ProducerStep(s, p);
            && p < |t.pc| && CallLeft(t, p) < CallLeft(s, p)
            && (!t.pc[p].Idle? ==> Budget(t, p) == Budget(s, p))
  {
    hide ProducerStep, ProducerReady, CallLeft, Budget;
    if Waits(s.pc[p]) {
      WaitNearer(s, p);
    } else {
      FillNearer(s, p);
    }
  }

  /** The entry has been posted. */
  predicate Waits(pc: PC) {
    pc.Waiting? || pc.AbandonSent? || pc.AbandonPosted? || pc.Recheck? || pc.Reading? || pc.Releasing?
  }

  lemma {:induction false} FillNearer(s: S, p: nat)
    requires p < |s.pc| && !s.pc[p].Idle? && ProducerReady(s, p) && !Waits(s.pc[p])
    ensures var t := ProducerStep(s, p);
            && p < |t.pc| && CallLeft(t, p) < CallLeft(s, p)
            && (!t.pc[p].Idle? ==> Budget(t, p) == Budget(s, p))
  {
    hide FrameOf, Encodable, Overlay, Cas, EncodedLen;
  }

  lemma {:induction false} WaitNearer(s: S, p: nat)
    requires p < |s.pc| && ProducerReady(s, p) && Budget(s, p) > 0 && Waits(s.pc[p])
    ensures var t := ProducerStep(s, p);
            && p < |t.pc| && CallLeft(t, p) < CallLeft(s, p)
            && (!t.pc[p].Idle? ==> Budget(t, p) == Budget(s, p))
  {
    hide ReadOut, Cas;
  }

  /** No other step makes a difference to it. */
  lemma {:induction false} OthersPass(s: S, step: Step, t: S, p: nat)
    requires Inv(s) && Moves(s, step, t) && p < |s.pc| && !s.pc[p].Idle? && step != Producer(p)
    ensures p < |t.pc| && t.pc[p] == s.pc[p] && Budget(t, p) == Budget(s, p) && CallLeft(t, p) == CallLeft(s, p)
  {
    hide Inv, Moves, ToReturn;
    SamePlaces(s, step, t);
    SameRing(s, step, t);
    PlaceKept(s, step, t, p);
    NotStarting(s, step, t, p);
    if HasClaim(s.pc[p]) {
      ClaimKnown(s, p);
      ClaimStep(s, step, t, s.pc[p].c);
    }
  }

  lemma {:induction false} ClaimKnown(s: S, p: nat)
    requires Inv(s) && p < |s.pc| && HasClaim(s.pc[p])
    ensures s.pc[p].c < |s.claims|
  {
    hide EntryInv, ProducerOk, ConsumerInv;
    assert ProducerInv(s, p);
  }

  lemma {:induction false} SamePlaces(s: S, step: Step, t: S)
    requires Moves(s, step, t)
    ensures |t.pc| == |s.pc|
  {
    hide ProducerStep, ConsumerStep, Returns, ConsumerReady, ProducerReady;
    match step
    case Producer(q) => OwnPlace(s, q);
    case Consumer(io) => ConsumerLeavesProducers(s, io);
    case _ =>
  }

  lemma {:induction false} NotStarting(s: S, step: Step, t: S, p: nat)
    requires Moves(s, step, t) && p < |s.pc| && !s.pc[p].Idle?
    ensures !(step.Start? && step.p == p)
  {
    hide ProducerStep, ConsumerStep, ConsumerReady, ProducerReady, Returns;
  }

  /** Steps of client `p` up to point `l`. */
  function ClientSteps(steps: seq<Step>, p: nat, l: nat): nat
    requires l <= |steps|
  {
    if l == 0 then 0 else ClientSteps(steps, p, l - 1) + if steps[l - 1] == Producer(p) then 1 else 0
  }

  /** Client `p` is back from its call at some point from `a` on, up to `b`. */
  ghost predicate BackBy(run: seq<S>, p: nat, a: nat, b: nat)
    requires b < |run|
  {
    exists m | a <= m <= b :: p < |run[m].pc| && run[m].pc[p].Idle?
  }

  lemma {:induction false} CallKept(run: seq<S>, steps: seq<Step>, p: nat, a: nat, b: nat)
    requires Run(run, steps) && a <= b < |run| && p < |run[a].pc| && Budget(run[a], p) > 0
    requires !BackBy(run, p, a, b)
    ensures p < |run[b].pc| && Budget(run[b], p) == Budget(run[a], p)
    ensures CallLeft(run[b], p) + ClientSteps(steps, p, b) <= CallLeft(run[a], p) + ClientSteps(steps, p, a)
    decreases b
  {
    hide Inv, Moves, Initial, CallLeft, Budget;
    if a < b {
      assert !BackBy(run, p, a, b - 1);
      CallKept(run, steps, p, a, b - 1);
      RunKeeps(run, steps, b - 1);
      assert MovesAt(run, steps, b - 1);
      if steps[b - 1] == Producer(p) {
        OwnMove(run[b - 1], p, run[b]);
      } else {
        OthersPass(run[b - 1], steps[b - 1], run[b], p);
      }
    }
  }

  lemma {:induction false} OwnMove(s: S, p: nat, t: S)
    requires Moves(s, Producer(p), t) && p < |s.pc| && Budget(s, p) > 0
    ensures p < |t.pc| && CallLeft(t, p) < CallLeft(s, p) && (!t.pc[p].Idle? ==> Budget(t, p) == Budget(s, p))
  {
    hide ProducerStep, ProducerReady, CallLeft, Budget;
    OwnNearer(s, p);
  }

  /** In every run a call with a budget returns within as many steps of its client as ring and budget allow. */
  lemma {:induction false} CallReturns(run: seq<S>, steps: seq<Step>, p: nat, a: nat, b: nat)
    requires Run(run, steps) && a <= b < |run| && p < |run[a].pc| && Budget(run[a], p) > 0
    requires ClientSteps(steps, p, b) >= ClientSteps(steps, p, a) + |run[a].ring| + Budget(run[a], p) + 13
    ensures BackBy(run, p, a, b)
  {
    hide Run, Budget, BackBy, ClientSteps;
    if !BackBy(run, p, a, b) {
      CallKept(run, steps, p, a, b);
      StillBusy(run, p, a, b);
    }
  }

  lemma {:induction false} StillBusy(run: seq<S>, p: nat, a: nat, b: nat)
    requires a <= b < |run| && p < |run[b].pc| && !BackBy(run, p, a, b)
    ensures CallLeft(run[b], p) > 0
  {
  }

  // ---- Once there is an answer ----

  /** At most how many steps a client whose entry is DONE is from its return. */
  function ToClose(pc: PC): nat {
    match pc
    case Releasing(_) => 1
    case Reading(_) => 2
    case Waiting(_, _) => 3
    case Recheck(_) => 3
    case AbandonPosted(_) => 4
    case _ => 5
  }

  /** Client `p` is at work for claim `c`, and its entry is DONE. */
  predicate HasAnswer(s: S, p: nat, c: nat) {
    p < |s.pc| && HasClaim(s.pc[p]) && s.pc[p].c == c && OwnState(s, c, Done)
  }

  /** Client `p` is back from its call with what was decoded from the response. */
  predicate Back(s: S, p: nat, c: nat) {
    p < |s.pc| && s.pc[p].Idle? && c < |s.claims| && s.claims[c].outcome.Returned?
  }

  lemma {:induction false} OwnCloses(s: S, p: nat, c: nat)
    requires Inv(s) && HasAnswer(s, p, c) && ProducerReady(s, p)
    ensures var t := ProducerStep(s, p);
            p < |t.pc| && (Back(t, p, c) || (HasAnswer(t, p, c) && ToClose(t.pc[p]) < ToClose(s.pc[p])))
  {
    hide Inv, EntryOk, ClaimOk, BuffersOk, ConsumerOk, Encodable, Filled, Encoded;
    OwnEntry(s, p);
  }

  lemma {:induction false} ClosingStep(s: S, step: Step, t: S, p: nat, c: nat)
    requires Inv(s) && Moves(s, step, t) && HasAnswer(s, p, c)
    ensures || Back(t, p, c)
            || (HasAnswer(t, p, c) && ToClose(t.pc[p]) + (if step == Producer(p) then 1 else 0) <= ToClose(s.pc[p]))
  {
    if step == Producer(p) {
      hide Inv, ProducerStep, ProducerReady, HasAnswer, Back;
      OwnCloses(s, p, c);
    } else {
      hide Inv, Moves, OwnState;
      OthersPass(s, step, t, p);
      DoneKept(s, step, t, p);
    }
  }

  ghost predicate BackWith(run: seq<S>, p: nat, c: nat, a: nat, b: nat)
    requires b < |run|
  {
    exists m | a <= m <= b :: Back(run[m], p, c)
  }

  lemma {:induction false} Closing(run: seq<S>, steps: seq<Step>, p: nat, c: nat, a: nat, b: nat)
    requires Run(run, steps) && a <= b < |run| && HasAnswer(run[a], p, c) && !BackWith(run, p, c, a, b)
    ensures HasAnswer(run[b], p, c)
    ensures ToClose(run[b].pc[p]) + ClientSteps(steps, p, b) <= ToClose(run[a].pc[p]) + ClientSteps(steps, p, a)
    decreases b
  {
    hide Inv, Moves, Initial, Back, ToClose, OwnState;
    if a < b {
      assert !BackWith(run, p, c, a, b - 1) && !Back(run[b], p, c);
      Closing(run, steps, p, c, a, b - 1);
      RunKeeps(run, steps, b - 1);
      assert MovesAt(run, steps, b - 1);
      ClosingStep(run[b - 1], steps[b - 1], run[b], p, c);
    }
  }

  /** In every run a client whose entry is DONE is back with its response within five steps of its own. */
  lemma {:induction false} AnsweredReturns(run: seq<S>, steps: seq<Step>, p: nat, c: nat, a: nat, b: nat)
    requires Run(run, steps) && a <= b < |run| && HasAnswer(run[a], p, c)
    requires ClientSteps(steps, p, b) >= ClientSteps(steps, p, a) + 5
    ensures BackWith(run, p, c, a, b)
  {
    hide Run, HasAnswer, BackWith, ClientSteps;
    if !BackWith(run, p, c, a, b) {
      Closing(run, steps, p, c, a, b);
    }
  }
}
