/**
 The consumer gets somewhere.  Whatever the transport does and whatever clients
 do in between, it calls the transport for a response, or finds nothing in
 flight, within a fixed number of its own steps.  With the emulated device the
 bounds in services become bounds in steps.
 */
module Progress {
  import opened Wire
  import opened Device
  import opened DeviceLaws
  import opened Ring
  import opened RingSafety
  import opened InFlight
  import opened Recycling
  import opened System
  import opened SystemSteps
  import opened Correlation
  import opened Serial
  import opened Turns
  import opened Timeouts

  // ---- Steps to the next receive ----

  function Left(i: int, n: int): nat { if i < n then n - i else 0 }

  /** What one dispatched request may cost. */
  function Cost(n: nat): nat { 2 * n + 12 }

  /** At most how many steps the consumer is from a receive; `room` is what may still be put in flight. */
  function Pace(cpc: CPC, room: nat, n: nat): nat {
    var k := Cost(n);
    match cpc
    case Ceiling => room * k + 2
    case Take(i) => Left(1, room) * k + 2 * Left(i, n) + 11
    case TakeCas(i) => Left(1, room) * k + 2 * Left(i, n) + 10
    case ReserveMax(_) => Left(1, room) * k + 9
    case ReserveTotal(_) => Left(1, room) * k + 8
    case ReserveSlot(_) => Left(1, room) * k + 7
    case Sending(_) => room * k + 6
    case Unreserve(_) => room * k + 5
    case Requeue(_) => 2
    case DrainCheck => 1
    case Receiving => 0
    case Parsing(_) => (room + 1) * k + 3 * n + 10
    case Match(_, _, i) => (room + 1) * k + 3 * Left(i, n) + 9
    case MatchOwner(_, _, i) => (room + 1) * k + 3 * Left(i, n) + 8
    case MatchSequence(_, _, i) => (room + 1) * k + 3 * Left(i, n) + 7
    case DropReply => (room + 1) * k + 4
    case CopyReply(_, _, _) => (room + 1) * k + 7
    case SetReplyLen(_, _, _) => (room + 1) * k + 6
    case ReleaseReply(_) => (room + 1) * k + 5
    case Publish(_) => room * k + 4
    case Discard(_) => room * k + 3
  }

  function StepsLeft(s: S): nat { Pace(s.cpc, Left(s.stats.inFlight, s.ceiling), |s.ring|) }

  /** The consumer asks for a response, or finds nothing in flight. */
  predicate LooksIn(s: S, step: Step) {
    step.Consumer? && (s.cpc.Receiving? || (s.cpc.DrainCheck? && s.stats.inFlight == 0))
  }

  lemma {:induction false} OneMore(room: nat, k: nat)
    ensures (room + 1) * k == room * k + k
  {
  }

  /** Every other step of the consumer brings it nearer. */
  lemma {:induction false} NearerByOne(s: S, io: IO)
    requires ConsumerReady(s) && Accounted(s) && !LooksIn(s, Consumer(io))
    ensures StepsLeft(ConsumerStep(s, io)) < StepsLeft(s)
  {
    hide ConsumerReady, ConsumerStep, Accounted, Pace;
    if BelowCeiling(s.cpc) || s.cpc.Ceiling? {
      DispatchNears(s, io);
    } else if s.cpc.Sending? || s.cpc.Unreserve? || s.cpc.Requeue? || s.cpc.DrainCheck? {
      SendNears(s, io);
    } else if s.cpc.Match? || s.cpc.MatchOwner? || s.cpc.MatchSequence? || s.cpc.Parsing? {
      MatchNears(s, io);
    } else {
      DeliverNears(s, io);
    }
  }

  lemma {:induction false} DispatchNears(s: S, io: IO)
    requires ConsumerReady(s) && Accounted(s) && (BelowCeiling(s.cpc) || s.cpc.Ceiling?)
    ensures StepsLeft(ConsumerStep(s, io)) < StepsLeft(s)
  {
    hide Wired, AllParse;
    var room, k := Left(s.stats.inFlight, s.ceiling), Cost(|s.ring|);
    if room > 0 {
      OneMore(room - 1, k);
    }
  }

  lemma {:induction false} SendNears(s: S, io: IO)
    requires ConsumerReady(s) && Accounted(s) && !LooksIn(s, Consumer(io))
    requires s.cpc.Sending? || s.cpc.Unreserve? || s.cpc.Requeue? || s.cpc.DrainCheck?
    ensures StepsLeft(ConsumerStep(s, io)) < StepsLeft(s)
  {
    hide Wired, AllParse, Ingest, IngestOutcome;
  }

  lemma {:induction false} MatchNears(s: S, io: IO)
    requires ConsumerReady(s) && Accounted(s)
    requires s.cpc.Match? || s.cpc.MatchOwner? || s.cpc.MatchSequence? || s.cpc.Parsing?
    ensures StepsLeft(ConsumerStep(s, io)) < StepsLeft(s)
  {
    hide ConsumerReady, ConsumerStep, Accounted, Pace, Cost;
    if s.cpc.Parsing? {
      ParseNears(s, io);
    } else {
      ScanNears(s, io);
    }
  }

  lemma {:induction false} ParseNears(s: S, io: IO)
    requires ConsumerReady(s) && s.cpc.Parsing?
    ensures StepsLeft(ConsumerStep(s, io)) < StepsLeft(s)
  {
    hide Wired, AllParse, DecodeHeader;
    OneMore(Left(s.stats.inFlight, s.ceiling), Cost(|s.ring|));
  }

  lemma {:induction false} ScanNears(s: S, io: IO)
    requires ConsumerReady(s) && (s.cpc.Match? || s.cpc.MatchOwner? || s.cpc.MatchSequence?)
    ensures StepsLeft(ConsumerStep(s, io)) < StepsLeft(s)
  {
    hide Wired, AllParse, Cost;
  }

  lemma {:induction false} DeliverNears(s: S, io: IO)
    requires ConsumerReady(s) && Accounted(s)
    requires s.cpc.DropReply? || s.cpc.CopyReply? || s.cpc.SetReplyLen? || s.cpc.ReleaseReply? || s.cpc.Publish?
             || s.cpc.Discard?
    ensures StepsLeft(ConsumerStep(s, io)) < StepsLeft(s)
  {
    hide Wired, AllParse, Overlay;
  }

  /** No other step changes the distance. */
  lemma {:induction false} SameDistance(s: S, step: Step, t: S)
    requires Moves(s, step, t) && !step.Consumer?
    ensures StepsLeft(t) == StepsLeft(s)
  {
    hide ProducerStep, Wired, AllParse, Pace, Left;
    if step.Producer? {
      ProducerLeavesStats(s, step.p);
      ProducerLeavesRing(s, step.p);
    }
  }

  lemma {:induction false} ProducerLeavesRing(s: S, p: nat)
    requires p < |s.pc| && !s.pc[p].Idle? && ProducerReady(s, p)
    ensures |ProducerStep(s, p).ring| == |s.ring|
  {
    hide FrameOf, Encodable, ReadOut, Overlay;
  }

  ghost predicate LookedIn(run: seq<S>, steps: seq<Step>, a: nat, b: nat)
    requires |run| == |steps| + 1 && b < |run|
  {
    exists m | a <= m < b :: LooksIn(run[m], steps[m])
  }

  lemma {:induction false} PaceKept(run: seq<S>, steps: seq<Step>, a: nat, b: nat)
    requires Run(run, steps) && a <= b < |run| && !LookedIn(run, steps, a, b)
    ensures StepsLeft(run[b]) + ConsumerSteps(steps, b) <= StepsLeft(run[a]) + ConsumerSteps(steps, a)
    decreases b
  {
    hide Moves, Initial, Accounted, StepsLeft, LooksIn;
    if a < b {
      assert !LookedIn(run, steps, a, b - 1) && !LooksIn(run[b - 1], steps[b - 1]);
      PaceKept(run, steps, a, b - 1);
      RunAccounted(run, steps, b - 1);
      assert MovesAt(run, steps, b - 1);
      PaceStep(run[b - 1], steps[b - 1], run[b]);
    }
  }

  lemma {:induction false} PaceStep(s: S, step: Step, t: S)
    requires Moves(s, step, t) && Accounted(s) && !LooksIn(s, step)
    ensures StepsLeft(t) + (if step.Consumer? then 1 else 0) <= StepsLeft(s)
  {
    hide ProducerStep, ConsumerStep, ConsumerReady, ProducerReady, Returns, StepsLeft, Accounted, LooksIn;
    if step.Consumer? {
      NearerByOne(s, step.io);
    } else {
      SameDistance(s, step, t);
    }
  }

  /**
   In every run, for every transport: within `StepsLeft` further steps of its own
   the consumer calls for a response, or finds nothing in flight.
   */
  lemma {:induction false} ReceivesSoon(run: seq<S>, steps: seq<Step>, a: nat, b: nat)
    requires Run(run, steps) && a <= b < |run| && ConsumerSteps(steps, b) > ConsumerSteps(steps, a) + StepsLeft(run[a])
    ensures LookedIn(run, steps, a, b)
  {
    assert |run| == |steps| + 1;
    hide Run, StepsLeft, LookedIn;
    if !LookedIn(run, steps, a, b) {
      PaceKept(run, steps, a, b);
    }
  }

  /** A bound on that number for the whole run. */
  function Most(ceiling: nat, n: nat): nat { (ceiling + 1) * Cost(n) + 3 * n + 10 }

  lemma {:induction false} NeverMore(s: S)
    requires Accounted(s)
    ensures StepsLeft(s) <= Most(s.ceiling, |s.ring|)
  {
    var room, k := Left(s.stats.inFlight, s.ceiling), Cost(|s.ring|);
    RoomCosts(room, s.ceiling, k);
    RoomCosts(room + 1, s.ceiling + 1, k);
    RoomCosts(Left(1, room), s.ceiling, k);
    OneMore(s.ceiling, k);
  }

  lemma {:induction false} RoomCosts(a: nat, b: nat, k: nat)
    requires a <= b
    ensures a * k <= b * k
  {
  }

  // ---- Between two failed sends ----

  /** The way from a failed send to the next receive. */
  predicate Backing(cpc: CPC) { cpc.Unreserve? || cpc.Requeue? || cpc.DrainCheck? || cpc.Receiving? }

  lemma {:induction false} BackingStep(s: S, step: Step, t: S)
    requires Moves(s, step, t) && Backing(s.cpc) && !LooksIn(s, step)
    ensures Backing(t.cpc) && t.link == s.link
  {
    hide ProducerStep, ProducerReady, Wired, AllParse, Returns;
    if step.Producer? {
      ProducerLeavesStats(s, step.p);
      ProducerLeavesLink(s, step.p);
    }
  }

  lemma {:induction false} StillBacking(run: seq<S>, steps: seq<Step>, k: nat, m: nat)
    requires Run(run, steps) && k < m < |run| && SendFails(run[k], steps[k]) && !LookedIn(run, steps, k + 1, m)
    ensures Backing(run[m].cpc) && run[m].link == run[k].link
    decreases m
  {
    hide Moves, Initial, LooksIn;
    if m == k + 1 {
      assert MovesAt(run, steps, k);
      FailStep(run[k], run[m]);
    } else {
      assert !LookedIn(run, steps, k + 1, m - 1) && !LooksIn(run[m - 1], steps[m - 1]);
      StillBacking(run, steps, k, m - 1);
      assert MovesAt(run, steps, m - 1);
      BackingStep(run[m - 1], steps[m - 1], run[m]);
    }
  }

  lemma {:induction false} FailStep(s: S, t: S)
    requires Moves(s, Consumer(SendDone(false)), t) && s.cpc.Sending?
    ensures t.cpc.Unreserve? && t.link == s.link
  {
    hide Wired, AllParse, Ingest, IngestOutcome;
  }

  /** In every run the consumer turns to receiving between two failed sends. */
  lemma {:induction false} BetweenFailures(run: seq<S>, steps: seq<Step>, k: nat, l: nat)
    requires Run(run, steps) && k < l < |steps| && SendFails(run[k], steps[k]) && SendFails(run[l], steps[l])
    ensures LookedIn(run, steps, k + 1, l)
  {
    assert |run| == |steps| + 1;
    hide Run, LookedIn;
    if !LookedIn(run, steps, k + 1, l) {
      StillBacking(run, steps, k, l);
    }
  }

  // ---- With the emulated device ----

  /** A look with something staged is a service. */
  lemma {:induction false} LookServes(run: seq<S>, steps: seq<Step>, m: nat)
    requires SoundRun(run, steps) && m < |steps| && LooksIn(run[m], steps[m])
    requires run[m].link.Emulated? && Busy(run[m].link.dev) != {}
    ensures Serves(run[m], steps[m])
  {
    assert |run| == |steps| + 1;
    hide SoundRun, SystemInv, Busy;
    RunSystem(run, steps, m);
    if run[m].cpc.Receiving? {
      DrainYields(run, steps, m);
    } else {
      StagedIsInFlight(run[m]);
    }
  }

  lemma {:induction false} StagedIsInFlight(s: S)
    requires SystemInv(s) && s.cpc.DrainCheck? && Busy(s.link.dev) != {}
    ensures s.stats.inFlight > 0
  {
    hide Inv, AllAddressed, DeviceInv, HandInv, Tracked, Busy;
    InFlightIsBusy(s);
    NotNone(Busy(s.link.dev));
  }

  lemma {:induction false} NotNone(s: set<nat>)
    requires s != {}
    ensures |s| > 0
  {
    var x :| x in s;
  }

  /** In every sound run a request is served between two refused sends. */
  lemma {:induction false} ServedBetweenRefusals(run: seq<S>, steps: seq<Step>, k: nat, l: nat)
    requires SoundRun(run, steps) && k < l < |steps| && SendFails(run[k], steps[k]) && SendFails(run[l], steps[l])
    ensures exists m | k < m < l :: Serves(run[m], steps[m])
  {
    assert |run| == |steps| + 1 && Run(run, steps);
    hide SoundRun, Run, LooksIn, Serves;
    BetweenFailures(run, steps, k, l);
    var m := FirstLook(run, steps, k + 1, l);
    StillBacking(run, steps, k, m);
    FullAtRefusal(run, steps, k);
    LookServes(run, steps, m);
  }

  lemma {:induction false} FirstLook(run: seq<S>, steps: seq<Step>, a: nat, b: nat) returns (m: nat)
    requires |run| == |steps| + 1 && b < |run| && LookedIn(run, steps, a, b)
    ensures a <= m < b && LooksIn(run[m], steps[m]) && !LookedIn(run, steps, a, m)
    decreases b
  {
    hide LooksIn;
    if LookedIn(run, steps, a, b - 1) {
      m := FirstLook(run, steps, a, b - 1);
    } else {
      m := b - 1;
    }
  }

  lemma {:induction false} FullAtRefusal(run: seq<S>, steps: seq<Step>, k: nat)
    requires SoundRun(run, steps) && k < |steps| && SendFails(run[k], steps[k])
    ensures run[k].link.Emulated? && Busy(run[k].link.dev) != {}
  {
    hide DistinctKeys, Addressed, Initial, Moves, SystemInv, Busy;
    RunSystem(run, steps, k);
    assert MovesAt(run, steps, k);
    RefusedWhenFull(run[k], steps[k], run[k + 1]);
    SomeContainer(run[k]);
  }

  lemma {:induction false} SomeContainer(s: S)
    requires SystemInv(s) && Turns.Full(s.link)
    ensures Busy(s.link.dev) != {}
  {
    hide Inv, Accounted, AllAddressed, HandInv, Occupied, Tracked, ContainerOk, Truthful, DoneOk, Busy;
  }

  /** While a request is staged, the next service is no further than the consumer's distance to a receive. */
  lemma {:induction false} ServesSoon(run: seq<S>, steps: seq<Step>, a: nat, b: nat, k: nat, c: nat)
    requires SoundRun(run, steps) && a <= b < |run| && StagedAs(run[a], k, c)
    requires ConsumerSteps(steps, b) > ConsumerSteps(steps, a) + StepsLeft(run[a])
    ensures |Order(run, steps, b)| > |Order(run, steps, a)|
  {
    assert |run| == |steps| + 1 && Run(run, steps);
    hide SoundRun, Run, LookedIn, LooksIn, Serves, Order, ConsumerSteps, StepsLeft, StagedAs;
    ReceivesSoon(run, steps, a, b);
    var m := FirstLook(run, steps, a, b);
    NeverShorter(run, steps, a, m);
    if |Order(run, steps, m)| == |Order(run, steps, a)| {
      StagedYet(run, steps, a, m, k, c);
      LookServes(run, steps, m);
      ServedWithin(run, steps, a, m, b);
    } else {
      NeverShorter(run, steps, m, b);
    }
  }

  lemma {:induction false} NeverShorter(run: seq<S>, steps: seq<Step>, a: nat, b: nat)
    requires |run| == |steps| + 1 && a <= b < |run|
    ensures |Order(run, steps, b)| >= |Order(run, steps, a)|
  {
    hide Order;
    OrderGrows(run, steps, a, b);
  }

  lemma {:induction false} ServedWithin(run: seq<S>, steps: seq<Step>, a: nat, m: nat, b: nat)
    requires |run| == |steps| + 1 && a <= m < b < |run| && Serves(run[m], steps[m])
    ensures |Order(run, steps, b)| > |Order(run, steps, a)|
  {
    hide Order, Serves;
    NeverShorter(run, steps, a, m);
    OneService(run, steps, m);
    NeverShorter(run, steps, m + 1, b);
  }

  /** Claim `c` is staged in container `k`. */
  ghost predicate StagedAs(s: S, k: nat, c: nat) {
    s.link.Emulated? && |s.tags| == |s.link.dev.container| && InContainer(s, k, c)
  }

  lemma {:induction false} OneService(run: seq<S>, steps: seq<Step>, m: nat)
    requires |run| == |steps| + 1 && m < |steps|
    ensures |Order(run, steps, m + 1)| == |Order(run, steps, m)| + if Serves(run[m], steps[m]) then 1 else 0
  {
    hide Serves;
  }

  /** As long as nothing is served, what is staged stays staged. */
  lemma {:induction false} StagedYet(run: seq<S>, steps: seq<Step>, a: nat, m: nat, k: nat, c: nat)
    requires SoundRun(run, steps) && a <= m < |run| && StagedAs(run[a], k, c)
    requires |Order(run, steps, m)| == |Order(run, steps, a)|
    ensures StagedAs(run[m], k, c) && Busy(run[m].link.dev) != {}
  {
    assert |run| == |steps| + 1;
    hide SoundRun, Order, SystemInv, StillStaged, ServedSince;
    RunSystem(run, steps, a);
    StartsStaged(run[a], k, c);
    ServedOrNearer(run, steps, a, m, k, c, Distance(run[a].link.dev, k));
    NothingSince(run, steps, a, m, c);
    RunSystem(run, steps, m);
    StagedIs(run[m], k, c, Distance(run[a].link.dev, k));
  }

  lemma {:induction false} NothingSince(run: seq<S>, steps: seq<Step>, a: nat, m: nat, c: nat)
    requires |run| == |steps| + 1 && a <= m < |run| && |Order(run, steps, m)| == |Order(run, steps, a)|
    ensures !ServedSince(run, steps, a, m, c)
  {
    hide Order;
    OrderGrows(run, steps, a, m);
  }

  lemma {:induction false} StagedIs(s: S, k: nat, c: nat, n: int)
    requires SystemInv(s) && StillStaged(s, k, c, n)
    ensures StagedAs(s, k, c) && Busy(s.link.dev) != {}
  {
    hide Inv, Accounted, AllAddressed, HandInv, Occupied, Tracked, Truthful, DoneOk, FrameOf, Encodable, Flying;
    assert ContainerOk(s, k);
    FrameNotEmpty(s, k);
    assert k in Busy(s.link.dev);
  }

  lemma {:induction false} FrameNotEmpty(s: S, k: nat)
    requires s.link.Emulated? && k < |s.tags| == |s.link.dev.container| && ContainerOk(s, k)
             && s.link.dev.container[k].busy
    ensures s.link.dev.container[k].data != []
  {
    hide Flying;
  }

  // ---- Bounds in steps ----

  /** The bound for this run. */
  function Lap(s: S): nat { Most(s.ceiling, |s.ring|) + 1 }

  lemma {:induction false} SameBound(run: seq<S>, steps: seq<Step>, k: nat)
    requires Run(run, steps) && k < |run|
    ensures Lap(run[k]) == Lap(run[0]) && StepsLeft(run[k]) < Lap(run[k])
  {
    hide Accounted, Moves, Initial, Most, StepsLeft;
    RunAccounted(run, steps, k);
    NeverMore(run[k]);
    RingLength(run, steps, k);
  }

  lemma {:induction false} RingLength(run: seq<S>, steps: seq<Step>, k: nat)
    requires Run(run, steps) && k < |run|
    ensures |run[k].ring| == |run[0].ring|
  {
    hide Inv, Moves, Initial;
    if k > 0 {
      RingLength(run, steps, k - 1);
      RunKeeps(run, steps, k - 1);
      assert MovesAt(run, steps, k - 1);
      SameRing(run[k - 1], steps[k - 1], run[k]);
    }
  }

  /** The point at which the consumer has taken `d` more steps. */
  lemma {:induction false} PointAfter(steps: seq<Step>, a: nat, b: nat, d: nat) returns (m: nat)
    requires a <= b <= |steps| && ConsumerSteps(steps, b) >= ConsumerSteps(steps, a) + d
    ensures a <= m <= b && ConsumerSteps(steps, m) == ConsumerSteps(steps, a) + d
    decreases b
  {
    if ConsumerSteps(steps, b) == ConsumerSteps(steps, a) + d {
      m := b;
    } else {
      m := PointAfter(steps, a, b - 1, d);
    }
  }

  lemma {:induction false} SinceLater(run: seq<S>, steps: seq<Step>, a: nat, m: nat, b: nat, c: nat)
    requires |run| == |steps| + 1 && a <= m <= b < |run|
    requires ServedSince(run, steps, a, m, c) || ServedSince(run, steps, m, b, c)
    ensures ServedSince(run, steps, a, b, c)
  {
    hide Order;
    OrderGrows(run, steps, a, m);
    OrderGrows(run, steps, m, b);
    OrderGrows(run, steps, a, b);
    var x, y, z := Order(run, steps, a), Order(run, steps, m), Order(run, steps, b);
    assert z[|x|..] == y[|x|..] + z[|y|..];
  }

  /** While a request stays staged, every so many steps of the consumer serve a request. */
  lemma {:induction false} ManyServices(run: seq<S>, steps: seq<Step>, a: nat, b: nat, k: nat, c: nat, q: nat)
    requires SoundRun(run, steps) && a <= b < |run| && StagedAs(run[a], k, c)
    requires ConsumerSteps(steps, b) >= ConsumerSteps(steps, a) + q * Lap(run[0])
    ensures ServedSince(run, steps, a, b, c) || |Order(run, steps, b)| - |Order(run, steps, a)| >= q
    decreases q
  {
    assert |run| == |steps| + 1;
    hide SoundRun, Order, ServedSince, StagedAs, Lap, ConsumerSteps;
    if q == 0 {
      NeverShorter(run, steps, a, b);
    } else {
      OneMore(q - 1, Lap(run[0]));
      var m := PointAfter(steps, a, b, Lap(run[0]));
      LapServes(run, steps, a, m, k, c);
      if !ServedSince(run, steps, a, m, c) {
        ManyServices(run, steps, m, b, k, c, q - 1);
      }
      if ServedSince(run, steps, a, m, c) || ServedSince(run, steps, m, b, c) {
        SinceLater(run, steps, a, m, b, c);
      }
    }
  }

  lemma {:induction false} LapServes(run: seq<S>, steps: seq<Step>, a: nat, m: nat, k: nat, c: nat)
    requires SoundRun(run, steps) && a <= m < |run| && StagedAs(run[a], k, c)
    requires ConsumerSteps(steps, m) == ConsumerSteps(steps, a) + Lap(run[0])
    ensures |Order(run, steps, m)| > |Order(run, steps, a)|
    ensures ServedSince(run, steps, a, m, c) || StagedAs(run[m], k, c)
  {
    assert |run| == |steps| + 1 && Run(run, steps);
    hide SoundRun, Run, Order, ServedSince, StagedAs, Lap, StepsLeft, ConsumerSteps;
    SameBound(run, steps, a);
    ServesSoon(run, steps, a, m, k, c);
    if !ServedSince(run, steps, a, m, c) {
      NotServedYet(run, steps, a, m, k, c);
    }
  }

  lemma {:induction false} NotServedYet(run: seq<S>, steps: seq<Step>, a: nat, m: nat, k: nat, c: nat)
    requires SoundRun(run, steps) && a <= m < |run| && StagedAs(run[a], k, c) && !ServedSince(run, steps, a, m, c)
    ensures StagedAs(run[m], k, c)
  {
    assert |run| == |steps| + 1;
    hide SoundRun, Order, SystemInv, StillStaged, ServedSince;
    RunSystem(run, steps, a);
    StartsStaged(run[a], k, c);
    var n := Distance(run[a].link.dev, k);
    ServedOrNearer(run, steps, a, m, k, c, n);
    RunSystem(run, steps, m);
    StagedIs(run[m], k, c, n - (|Order(run, steps, m)| - |Order(run, steps, a)|));
  }

  /**
   A staged request is served within a number of consumer steps fixed by the
   sizes alone, for every ceiling and whatever other clients do.
   */
  lemma {:induction false} ServedWithinSteps(run: seq<S>, steps: seq<Step>, a: nat, b: nat, k: nat, c: nat)
    requires SoundRun(run, steps) && a <= b < |run| && StagedAs(run[a], k, c)
    requires ConsumerSteps(steps, b) >= ConsumerSteps(steps, a) + |run[a].link.dev.container| * Lap(run[0])
    ensures c in Order(run, steps, b) && c < |run[b].claims| && run[b].claims[c].service.Served?
  {
    assert |run| == |steps| + 1;
    hide SoundRun, Order, Lap, SerialInv;
    ManyServices(run, steps, a, b, k, c, |run[a].link.dev.container|);
    if ServedSince(run, steps, a, b, c) {
      OrderGrows(run, steps, a, b);
      RunSerial(run, steps, b);
      OrderIsServed(run[b], run[0].link.dev.mem, Order(run, steps, b), c);
    } else {
      ServedWithinARound(run, steps, a, b, k, c);
    }
  }

  /** And at the next loop head it is completed, unless its client gave up. */
  lemma {:induction false} DoneWithinSteps(run: seq<S>, steps: seq<Step>, a: nat, b: nat, k: nat, c: nat)
    requires SoundRun(run, steps) && a <= b < |run| && StagedAs(run[a], k, c) && run[b].cpc.Ceiling?
    requires ConsumerSteps(steps, b) >= ConsumerSteps(steps, a) + |run[a].link.dev.container| * Lap(run[0])
    ensures c < |run[b].claims| && (run[b].claims[c].dones == 1 || run[b].claims[c].abandoned)
  {
    hide SoundRun, Order, Lap, SystemInv, StagedAs;
    OfStaged(run[a], k, c);
    ServedWithinSteps(run, steps, a, b, k, c);
    RunSystem(run, steps, b);
    ServedIsSettled(run[b], c);
  }

  lemma {:induction false} OfStaged(s: S, k: nat, c: nat)
    requires StagedAs(s, k, c)
    ensures s.link.Emulated?
  {
  }

  /** While a low entry stays POSTED, every look of the consumer serves a request. */
  lemma {:induction false} PressedLook(run: seq<S>, steps: seq<Step>, a: nat, m: nat, j: nat)
    requires SoundRun(run, steps) && a <= m < |steps| && run[a].cpc.Ceiling? && PostedThrough(run, a, m, j)
    requires j < run[0].ceiling && LooksIn(run[m], steps[m])
    ensures Serves(run[m], steps[m])
  {
    assert |run| == |steps| + 1 && Run(run, steps);
    hide SoundRun, Run, SystemInv, PostedThrough, OldOrLow;
    Pressed(run, steps, a, m, j);
    RunAccounted(run, steps, m);
    if run[m].cpc.Receiving? {
      DrainYields(run, steps, m);
    } else {
      SomeContainer(run[m]);
      StagedIsInFlight(run[m]);
    }
  }

  lemma {:induction false} ManyPressed(run: seq<S>, steps: seq<Step>, a: nat, x: nat, b: nat, j: nat, q: nat)
    requires SoundRun(run, steps) && a <= x <= b < |run| && run[a].cpc.Ceiling? && PostedThrough(run, a, b, j)
    requires j < run[0].ceiling && ConsumerSteps(steps, b) >= ConsumerSteps(steps, x) + q * Lap(run[0])
    ensures |Order(run, steps, b)| - |Order(run, steps, x)| >= q
    decreases q
  {
    assert |run| == |steps| + 1;
    hide SoundRun, Order, Lap, ConsumerSteps, PostedThrough;
    if q == 0 {
      NeverShorter(run, steps, x, b);
    } else {
      var d := Lap(run[0]);
      OneMore(q - 1, d);
      var m := PointAfter(steps, x, b, d);
      PressedServes(run, steps, a, x, m, b, j);
      ManyPressed(run, steps, a, m, b, j, q - 1);
    }
  }

  lemma {:induction false} PressedServes(run: seq<S>, steps: seq<Step>, a: nat, x: nat, m: nat, b: nat, j: nat)
    requires SoundRun(run, steps) && a <= x <= m <= b < |run| && run[a].cpc.Ceiling? && PostedThrough(run, a, b, j)
    requires j < run[0].ceiling && ConsumerSteps(steps, m) == ConsumerSteps(steps, x) + Lap(run[0])
    ensures |Order(run, steps, m)| > |Order(run, steps, x)|
  {
    assert |run| == |steps| + 1 && Run(run, steps);
    hide SoundRun, Run, Order, Lap, StepsLeft, LookedIn, LooksIn, Serves, IsPosted, ConsumerSteps;
    SameBound(run, steps, x);
    ReceivesSoon(run, steps, x, m);
    var l := FirstLook(run, steps, x, m);
    assert PostedThrough(run, a, l, j);
    PressedLook(run, steps, a, l, j);
    ServedWithin(run, steps, x, l, m);
  }

  /** A POSTED entry below the ceiling and the number of containers is taken within as many steps and one round more. */
  lemma {:induction false} TakenWithinSteps(run: seq<S>, steps: seq<Step>, a: nat, b: nat, j: nat)
    requires SoundRun(run, steps) && a <= b < |run| && run[a].cpc.Ceiling? && run[a].link.Emulated?
    requires j < run[0].ceiling && j < |run[a].link.dev.container|
    requires ConsumerSteps(steps, b) >= ConsumerSteps(steps, a) + (|run[a].link.dev.container| + 1) * Lap(run[0])
    ensures exists m | a <= m <= b :: !IsPosted(run[m], j)
  {
    assert |run| == |steps| + 1;
    hide SoundRun, Order, Lap;
    if PostedThrough(run, a, b, j) {
      ManyPressed(run, steps, a, a, b, j, |run[a].link.dev.container| + 1);
      TakenWithinARound(run, steps, a, b, j);
    }
  }
}
