/**
 The consumer's loop, for every transport: it comes back to its head within a
 number of steps fixed by the ring, calls for a response at most once in between,
 and overlooks no POSTED entry while there is room below the ceiling.
 */
module Rounds {
  import opened Wire
  import opened Device
  import opened Ring
  import opened InFlight
  import opened Recycling
  import opened Turns
  import opened Progress
  import opened Searches

  // ---- Back to the head ----

  /** At most how many steps the consumer is from the head of its loop, in a ring of `n` entries. */
  function ToHead(cpc: CPC, n: nat): nat {
    match cpc
    case Ceiling => 0
    case Take(i) => 2 * Left(i, n) + 3 * n + 16
    case TakeCas(i) => 2 * Left(i, n) + 3 * n + 15
    case ReserveMax(_) => 3 * n + 15
    case ReserveTotal(_) => 3 * n + 14
    case ReserveSlot(_) => 3 * n + 13
    case Sending(_) => 3 * n + 12
    case Unreserve(_) => 3 * n + 11
    case Requeue(_) => 3 * n + 10
    case DrainCheck => 3 * n + 9
    case Receiving => 3 * n + 8
    case Parsing(_) => 3 * n + 7
    case Match(_, _, i) => 3 * Left(i, n) + 6
    case MatchOwner(_, _, i) => 3 * Left(i, n) + 5
    case MatchSequence(_, _, i) => 3 * Left(i, n) + 4
    case DropReply => 1
    case CopyReply(_, _, _) => 5
    case SetReplyLen(_, _, _) => 4
    case ReleaseReply(_) => 3
    case Publish(_) => 2
    case Discard(_) => 1
  }

  function HeadIn(s: S): nat { ToHead(s.cpc, |s.ring|) }

  /** Every step of the consumer from elsewhere brings it nearer. */
  lemma {:induction false} HeadNearer(s: S, io: IO)
    requires ConsumerReady(s) && !s.cpc.Ceiling?
    ensures HeadIn(ConsumerStep(s, io)) < HeadIn(s)
  {
    hide ConsumerReady, ConsumerStep, ToHead;
    if Dispatching(s.cpc) || Holding(s.cpc) {
      OutwardNearer(s, io);
    } else {
      InwardNearer(s, io);
    }
  }

  lemma {:induction false} OutwardNearer(s: S, io: IO)
    requires ConsumerReady(s) && (Dispatching(s.cpc) || Holding(s.cpc))
    ensures HeadIn(ConsumerStep(s, io)) < HeadIn(s)
  {
    hide Wired, AllParse, Ingest, IngestOutcome, Outgoing;
  }

  lemma {:induction false} InwardNearer(s: S, io: IO)
    requires ConsumerReady(s) && !s.cpc.Ceiling? && !Dispatching(s.cpc) && !Holding(s.cpc)
    ensures HeadIn(ConsumerStep(s, io)) < HeadIn(s)
  {
    hide ConsumerReady, ConsumerStep, ToHead;
    if Rank(s.cpc) > 0 {
      DeliveryNearer(s, io);
    } else {
      ReceiptNearer(s, io);
    }
  }

  lemma {:induction false} DeliveryNearer(s: S, io: IO)
    requires ConsumerReady(s) && Rank(s.cpc) > 0
    ensures HeadIn(ConsumerStep(s, io)) < HeadIn(s)
  {
    hide Wired, AllParse, Overlay;
  }

  lemma {:induction false} ReceiptNearer(s: S, io: IO)
    requires ConsumerReady(s)
    requires s.cpc.DrainCheck? || s.cpc.Receiving? || s.cpc.Parsing? || s.cpc.Match? || s.cpc.DropReply?
    ensures HeadIn(ConsumerStep(s, io)) < HeadIn(s)
  {
    hide Wired, AllParse, McuStep, ServedNext, DecodeHeader;
  }

  lemma {:induction false} HeadStep(s: S, step: Step, t: S)
    requires Moves(s, step, t) && !s.cpc.Ceiling?
    ensures HeadIn(t) + (if step.Consumer? then 1 else 0) <= HeadIn(s)
  {
    hide ProducerStep, ConsumerStep, Wired, AllParse, Returns, ToHead;
    if step.Consumer? {
      HeadNearer(s, step.io);
    } else if step.Producer? {
      ProducerLeavesStats(s, step.p);
      ProducerLeavesRing(s, step.p);
    }
  }

  /** The consumer is at the head of its loop at some point from `a` on, before `b`. */
  ghost predicate AtHead(run: seq<S>, a: nat, b: nat)
    requires b <= |run|
  {
    exists m | a <= m < b :: run[m].cpc.Ceiling?
  }

  lemma {:induction false} HeadKept(run: seq<S>, steps: seq<Step>, a: nat, b: nat)
    requires Run(run, steps) && a <= b < |run| && !AtHead(run, a, b)
    ensures HeadIn(run[b]) + ConsumerSteps(steps, b) <= HeadIn(run[a]) + ConsumerSteps(steps, a)
    decreases b
  {
    hide Moves, Initial, HeadIn;
    if a < b {
      assert !AtHead(run, a, b - 1) && !run[b - 1].cpc.Ceiling?;
      HeadKept(run, steps, a, b - 1);
      assert MovesAt(run, steps, b - 1);
      HeadStep(run[b - 1], steps[b - 1], run[b]);
    }
  }

  /** In every run the consumer is back at the head of its loop within a number of steps the ring fixes. */
  lemma {:induction false} HeadSoon(run: seq<S>, steps: seq<Step>, a: nat, b: nat)
    requires Run(run, steps) && a <= b < |run|
    requires ConsumerSteps(steps, b) > ConsumerSteps(steps, a) + 5 * |run[a].ring| + 16
    ensures AtHead(run, a, b)
  {
    hide Run, AtHead, ConsumerSteps;
    if !AtHead(run, a, b) {
      HeadKept(run, steps, a, b);
    }
  }

  /** In every run it passes the head of its loop between two calls for a response. */
  lemma {:induction false} HeadBetween(run: seq<S>, steps: seq<Step>, k: nat, l: nat)
    requires Run(run, steps) && k < l < |steps| && run[k].cpc.Receiving? && steps[k].Consumer? && run[l].cpc.Receiving?
    ensures AtHead(run, k + 1, l)
  {
    assert |run| == |steps| + 1;
    hide Run, AtHead;
    if !AtHead(run, k + 1, l) {
      assert !AtHead(run, k, l) by { HeadBefore(run, k, l); }
      HeadKept(run, steps, k, l);
      SameRing(run, steps, k, l);
      StepsGrow(steps, k + 1, l);
    }
  }

  lemma {:induction false} HeadBefore(run: seq<S>, k: nat, l: nat)
    requires k < l <= |run| && !run[k].cpc.Ceiling? && !AtHead(run, k + 1, l)
    ensures !AtHead(run, k, l)
  {
  }

  lemma {:induction false} SameRing(run: seq<S>, steps: seq<Step>, k: nat, l: nat)
    requires Run(run, steps) && k <= l < |run|
    ensures |run[l].ring| == |run[k].ring|
  {
    RingLength(run, steps, k);
    RingLength(run, steps, l);
  }

  lemma {:induction false} StepsGrow(steps: seq<Step>, k: nat, l: nat)
    requires k <= l <= |steps|
    ensures ConsumerSteps(steps, k) <= ConsumerSteps(steps, l)
    decreases l
  {
    if k < l {
      StepsGrow(steps, k, l - 1);
    }
  }

  // ---- Nothing overlooked ----

  /** The consumer takes an entry up to `j`. */
  predicate TakesUpTo(s: S, step: Step, j: nat) {
    step.Consumer? && s.cpc.TakeCas? && s.cpc.i <= j && IsPosted(s, s.cpc.i)
  }

  /** The scan from the head has not got past entry `j`. */
  predicate Coming(s: S, j: nat) {
    if s.cpc.Ceiling? then s.stats.inFlight < s.ceiling else Dispatching(s.cpc) && s.cpc.i <= j
  }

  lemma {:induction false} ComingStep(s: S, step: Step, t: S, j: nat)
    requires Moves(s, step, t) && Coming(s, j) && IsPosted(s, j) && !TakesUpTo(s, step, j)
    ensures Coming(t, j)
  {
    hide ProducerStep, ProducerReady, Wired, AllParse, Returns;
    if step.Producer? {
      ProducerLeavesStats(s, step.p);
    }
  }

  ghost predicate TakenUpTo(run: seq<S>, steps: seq<Step>, a: nat, l: nat, j: nat)
    requires |run| == |steps| + 1 && l < |run|
  {
    exists m | a <= m < l :: TakesUpTo(run[m], steps[m], j)
  }

  lemma {:induction false} StillComing(run: seq<S>, steps: seq<Step>, a: nat, l: nat, j: nat)
    requires Run(run, steps) && a <= l < |run| && run[a].cpc.Ceiling? && run[a].stats.inFlight < run[a].ceiling
    requires PostedThrough(run, a, l, j) && !TakenUpTo(run, steps, a, l, j)
    ensures Coming(run[l], j)
    decreases l
  {
    hide Moves, Initial, TakesUpTo, IsPosted;
    if a < l {
      assert !TakenUpTo(run, steps, a, l - 1, j) && !TakesUpTo(run[l - 1], steps[l - 1], j);
      StillComing(run, steps, a, l - 1, j);
      assert MovesAt(run, steps, l - 1);
      ComingStep(run[l - 1], steps[l - 1], run[l], j);
    }
  }

  /**
   In every run: with room below the ceiling at the head of the loop, an entry that
   stays POSTED or a lower one is taken before the next call for a response.
   */
  lemma {:induction false} NotOverlooked(run: seq<S>, steps: seq<Step>, a: nat, l: nat, j: nat)
    requires Run(run, steps) && a <= l < |run| && run[a].cpc.Ceiling? && run[a].stats.inFlight < run[a].ceiling
    requires PostedThrough(run, a, l, j) && run[l].cpc.Receiving?
    ensures TakenUpTo(run, steps, a, l, j)
  {
    assert |run| == |steps| + 1;
    hide Run, TakenUpTo;
    if !TakenUpTo(run, steps, a, l, j) {
      StillComing(run, steps, a, l, j);
    }
  }
}
