/**
 How long an entry may stay POSTED.  A dispatch prefers the lowest POSTED entry,
 so an entry is passed over only in favour of a lower one; one whose index is
 below the in-flight ceiling is taken within one round of the containers.
 */
module Turns {
  import opened Bytes
  import opened Wire
  import opened Device
  import opened DeviceLaws
  import opened Ring
  import opened RingSafety
  import opened RingRuns
  import opened InFlight
  import opened Recycling
  import opened System
  import opened SystemSteps
  import opened Correlation
  import opened Searches
  import opened Serial

  /** Entry `j` is POSTED at every point from `a` to `b`. */
  ghost predicate PostedThrough(run: seq<S>, a: nat, b: nat, j: nat)
    requires b < |run|
  {
    forall m | a <= m <= b :: IsPosted(run[m], j)
  }

  predicate IsPosted(s: S, j: nat) { j < |s.ring| && s.ring[j].state == Posted }

  /** In every run a dispatch passes an entry that stays POSTED only for a lower one. */
  lemma {:induction false} OnlyLowerFirst(run: seq<S>, steps: seq<Step>, a: nat, l: nat, j: nat)
    requires Run(run, steps) && a <= l < |run| && run[a].cpc.Ceiling? && PostedThrough(run, a, l, j)
    requires Dispatching(run[l].cpc)
    ensures run[l].cpc.i <= j
  {
    assert |run| == |steps| + 1;
    hide Run;
    if j < run[l].cpc.i {
      TakeSkips(run, steps, l, j);
    }
  }

  // ---- Below the ceiling ----

  /** The consumer has taken an entry and not yet sent it or given it back. */
  predicate Holding(cpc: CPC) {
    || cpc.ReserveMax? || cpc.ReserveTotal? || cpc.ReserveSlot? || cpc.Sending? || cpc.Unreserve? || cpc.Requeue?
  }

  /** Every container is in use. */
  predicate Full(link: Link) { link.Emulated? && |Busy(link.dev)| >= |link.dev.container| }

  /** While entry `j` stays POSTED: it is a lower entry that is sent, and a drain begins only when no more can be. */
  predicate Pressing(s: S, j: nat) {
    && (s.cpc.Unreserve? || s.cpc.Requeue? ==> Full(s.link))
    && (s.cpc.DrainCheck? || s.cpc.Receiving? ==> s.stats.inFlight >= s.ceiling || Full(s.link))
    && (Holding(s.cpc) ==> s.cpc.i < j)
  }

  lemma {:induction false} PhaseStep(s: S, io: IO, j: nat)
    requires ConsumerReady(s) && Pressing(s, j) && (s.cpc.Sending? ==> io == SendDone(true) || Full(s.link))
    requires Dispatching(s.cpc) ==> s.cpc.i <= j
    requires IsPosted(s, j) && IsPosted(ConsumerStep(s, io), j)
    ensures Pressing(ConsumerStep(s, io), j)
  {
    hide ConsumerReady, ConsumerStep, Pressing, IsPosted;
    if Dispatching(s.cpc) {
      DispatchPhase(s, io, j);
    } else {
      OtherPhase(s, io, j);
    }
  }

  lemma {:induction false} DispatchPhase(s: S, io: IO, j: nat)
    requires ConsumerReady(s) && Dispatching(s.cpc) && s.cpc.i <= j
    requires IsPosted(s, j) && IsPosted(ConsumerStep(s, io), j)
    ensures Pressing(ConsumerStep(s, io), j)
  {
    hide Wired, AllParse, Full;
  }

  lemma {:induction false} OtherPhase(s: S, io: IO, j: nat)
    requires ConsumerReady(s) && Pressing(s, j) && (s.cpc.Sending? ==> io == SendDone(true) || Full(s.link))
    requires !Dispatching(s.cpc)
    ensures Pressing(ConsumerStep(s, io), j)
  {
    hide ConsumerReady, ConsumerStep, Pressing, Full;
    if Holding(s.cpc) {
      SendPhase(s, io, j);
    } else {
      DrainPhase(s, io, j);
    }
  }

  lemma {:induction false} SendPhase(s: S, io: IO, j: nat)
    requires ConsumerReady(s) && Pressing(s, j) && (s.cpc.Sending? ==> io == SendDone(true) || Full(s.link))
    requires Holding(s.cpc)
    ensures Pressing(ConsumerStep(s, io), j)
  {
    hide Wired, AllParse, SendOk, Cas, Full;
    CallsEnd(s, io);
  }

  lemma {:induction false} DrainPhase(s: S, io: IO, j: nat)
    requires ConsumerReady(s) && Pressing(s, j) && !Dispatching(s.cpc) && !Holding(s.cpc)
    ensures Pressing(ConsumerStep(s, io), j)
  {
    hide McuStep, Wired, AllParse, DecodeHeader, Overlay, RecvOk, Cas, Full;
    CallsEnd(s, io);
  }

  /** A container is filled only by a send. */
  lemma {:induction false} FilledBySend(s: S, step: Step, t: S, k: nat, c: nat)
    requires SystemInv(s) && Moves(s, step, t) && t.link.Emulated? && |t.tags| == |t.link.dev.container|
             && InContainer(t, k, c)
    ensures InContainer(s, k, c) || (s.cpc.Sending? && step.Consumer? && c == s.ring[s.cpc.i].claim)
  {
    hide Inv, Accounted, AllAddressed, HandInv, Tracked, Carries, ConsumerStep, ContainerOk, Truthful, DoneOk, Occupied;
    if !step.Consumer? {
      if step.ScribbleReply? {
        ScribbleCarries(s, step);
      } else {
        ProducerCarries(s, step, t);
      }
      SameLink(s, t);
    } else if Quiet(s, step.io) {
      QuietCarries(s, step.io);
      SameLink(s, t);
    } else if s.cpc.Sending? {
      SendFills(s, step.io, k, c);
    } else {
      ServeEmpties(s, step, t, k, c);
    }
  }

  lemma {:induction false} SendFills(s: S, io: IO, k: nat, c: nat)
    requires DeviceInv(s) && ConsumerReady(s) && Returns(s, io) && s.cpc.Sending? && io == SendDone(true)
    requires var t := ConsumerStep(s, io);
             t.link.Emulated? && |t.tags| == |t.link.dev.container| && InContainer(t, k, c)
    ensures InContainer(s, k, c) || c == s.ring[s.cpc.i].claim
  {
    hide ContainerOk, Truthful, DoneOk, IngestOutcome, Ingest, Outgoing, AllParse;
    IngestBusy(s.link.dev, Outgoing(s.ring[s.cpc.i]));
  }

  lemma {:induction false} ServeEmpties(s: S, step: Step, t: S, k: nat, c: nat)
    requires SystemInv(s) && Moves(s, step, t) && s.cpc.Receiving? && step.Consumer?
    requires t.link.Emulated? && |t.tags| == |t.link.dev.container| && InContainer(t, k, c)
    ensures InContainer(s, k, c)
  {
    hide Inv, Accounted, AllAddressed, HandInv, Tracked, Truthful, DoneOk, Occupied, AllParse, McuStep, Encodable;
    MustAnswer(s, step.io);
    InFlightIsBusy(s);
    DeviceAnswers(s);
  }

  /** Every staged request was staged there at `s0` already, or belongs to an entry below `j`. */
  ghost predicate OldOrLow(s0: S, s: S, j: nat)
    requires s0.link.Emulated? && |s0.tags| == |s0.link.dev.container|
    requires s.link.Emulated? && |s.tags| == |s.link.dev.container|
  {
    forall k: nat, c: nat | InContainer(s, k, c) :: InContainer(s0, k, c) || (c < |s.claims| && s.claims[c].idx < j)
  }

  lemma {:induction false} LowStep(s0: S, s: S, step: Step, t: S, j: nat)
    requires SystemInv(s) && SystemInv(t) && Moves(s, step, t) && Under(s0, s, j)
    ensures t.link.Emulated? && |t.tags| == |t.link.dev.container| && OldOrLow(s0, t, j)
  {
    hide Inv, Moves, Accounted, AllAddressed, HandInv, Occupied, Tracked, ContainerOk, Truthful, DoneOk, InContainer;
    forall k: nat, c: nat | InContainer(t, k, c)
      ensures InContainer(s0, k, c) || (c < |t.claims| && t.claims[c].idx < j)
    {
      FilledBySend(s, step, t, k, c);
      if InContainer(s, k, c) {
        if c < |s.claims| {
          SameIndex(s, step, t, c);
        }
      } else {
        SentIndex(s);
        SameIndex(s, step, t, c);
      }
    }
  }

  lemma {:induction false} SameIndex(s: S, step: Step, t: S, c: nat)
    requires Inv(s) && Moves(s, step, t) && c < |s.claims|
    ensures c < |t.claims| && t.claims[c].idx == s.claims[c].idx
  {
    hide Inv, Moves;
    ClaimStep(s, step, t, c);
  }

  lemma {:induction false} SentIndex(s: S)
    requires Inv(s) && s.cpc.Sending?
    ensures s.cpc.i < |s.ring| && s.ring[s.cpc.i].claim < |s.claims| && s.claims[s.ring[s.cpc.i].claim].idx == s.cpc.i
  {
    hide Inv, EntryOk, ConsumerOk, ClaimOk, BuffersOk, FrameOk;
    HandledEntry(s);
  }

  /** How things stand since the loop head `s0`, as long as entry `j` stays POSTED. */
  ghost predicate Under(s0: S, s: S, j: nat) {
    && s0.link.Emulated? && |s0.tags| == |s0.link.dev.container|
    && s.link.Emulated? && |s.tags| == |s.link.dev.container|
    && Pressing(s, j) && OldOrLow(s0, s, j)
  }

  lemma {:induction false} UnderStep(s0: S, s: S, step: Step, t: S, j: nat)
    requires SystemInv(s) && SystemInv(t) && Moves(s, step, t) && Under(s0, s, j)
    requires s.cpc.Sending? && step.Consumer? ==> step.io == SendDone(true) || Full(s.link)
    requires IsPosted(s, j) && IsPosted(t, j) && (Dispatching(s.cpc) ==> s.cpc.i <= j)
    ensures Under(s0, t, j)
  {
    hide SystemInv, Moves, Pressing, OldOrLow, IsPosted;
    PressStep(s, step, t, j);
    LowStep(s0, s, step, t, j);
  }

  /** It stands so at every point from a loop head on. */
  lemma {:induction false} Pressed(run: seq<S>, steps: seq<Step>, a: nat, m: nat, j: nat)
    requires SoundRun(run, steps) && a <= m < |run| && run[a].cpc.Ceiling? && PostedThrough(run, a, m, j)
    ensures SystemInv(run[m]) && Under(run[a], run[m], j)
    decreases m
  {
    hide SystemInv, DeviceInv, SoundRun, Run, Moves, Under, IsPosted, PostedThrough;
    RunSystem(run, steps, m);
    if m == a {
      PressedFirst(run[a], j);
    } else {
      PostedBefore(run, steps, a, m, j);
      Pressed(run, steps, a, m - 1, j);
      if Dispatching(run[m - 1].cpc) {
        OnlyLowerFirst(run, steps, a, m - 1, j);
      } else if run[m - 1].cpc.Sending? && steps[m - 1].Consumer? {
        RefusedWhenFull(run[m - 1], steps[m - 1], run[m]);
      }
      UnderStep(run[a], run[m - 1], steps[m - 1], run[m], j);
    }
  }

  lemma {:induction false} PostedBefore(run: seq<S>, steps: seq<Step>, a: nat, m: nat, j: nat)
    requires SoundRun(run, steps) && a < m < |run| && PostedThrough(run, a, m, j)
    ensures |run| == |steps| + 1 && Run(run, steps) && Moves(run[m - 1], steps[m - 1], run[m])
    ensures PostedThrough(run, a, m - 1, j) && IsPosted(run[m - 1], j) && IsPosted(run[m], j)
  {
    hide Moves, IsPosted, DistinctKeys, Addressed, Initial;
    assert MovesAt(run, steps, m - 1);
  }

  lemma {:induction false} PressedFirst(s: S, j: nat)
    requires s.cpc.Ceiling? && SystemInv(s)
    ensures Under(s, s, j)
  {
    hide Inv, Accounted, AllAddressed, HandInv, Occupied, Tracked, ContainerOk, Truthful, DoneOk, InContainer;
  }

  /** The device refuses a request only when every container is in use. */
  lemma {:induction false} RefusedWhenFull(s: S, step: Step, t: S)
    requires SystemInv(s) && Moves(s, step, t) && s.cpc.Sending? && step.Consumer?
    ensures step.io == SendDone(true) || Full(s.link)
  {
    hide Inv, Accounted, AllAddressed, HandInv, Occupied, Tracked, Busy, Outgoing, IngestOutcome, ConsumerStep;
    SentBytes(s);
    IngestFrame(s.link.dev, Sendable(s.claims[s.ring[s.cpc.i].claim].req));
    if !Full(s.link) {
      RoomLeft(s);
    }
  }

  lemma {:induction false} SameContainers(run: seq<S>, steps: seq<Step>, a: nat, m: nat)
    requires SoundRun(run, steps) && a <= m < |run| && DeviceInv(run[a])
    ensures run[m].link.Emulated? && |run[m].link.dev.container| == |run[a].link.dev.container|
    decreases m
  {
    hide DistinctKeys, Addressed, Initial, SystemInv, DeviceInv, Moves;
    if a < m {
      SameContainers(run, steps, a, m - 1);
      RunSystem(run, steps, m - 1);
      RunSystem(run, steps, m);
      assert MovesAt(run, steps, m - 1);
      SameCount(run[m - 1], steps[m - 1], run[m]);
    } else {
      OfDevice(run[a]);
    }
  }

  lemma {:induction false} OfDevice(s: S)
    requires DeviceInv(s)
    ensures s.link.Emulated? && |s.tags| == |s.link.dev.container|
  {
  }

  lemma {:induction false} SameCount(s: S, step: Step, t: S)
    requires Moves(s, step, t) && s.link.Emulated? && SystemInv(t)
    ensures t.link.Emulated? && |t.link.dev.container| == |s.link.dev.container|
  {
    hide Inv, Accounted, AllAddressed, HandInv, Occupied, Tracked, ContainerOk, Truthful, DoneOk, ProducerStep,
         ConsumerStep,
         ConsumerReady, ProducerReady, Returns;
    if step.Producer? {
      ProducerLeavesLink(s, step.p);
    } else if step.Consumer? {
      ConsumerSameCount(s, step.io);
    }
  }

  lemma {:induction false} ProducerLeavesLink(s: S, p: nat)
    requires p < |s.pc| && !s.pc[p].Idle? && ProducerReady(s, p)
    ensures ProducerStep(s, p).link == s.link
  {
    hide FrameOf, Encodable, ReadOut, Overlay;
  }

  lemma {:induction false} ConsumerSameCount(s: S, io: IO)
    requires ConsumerReady(s) && s.link.Emulated?
    ensures var t := ConsumerStep(s, io); t.link.Emulated? && |t.link.dev.container| == |s.link.dev.container|
  {
    hide McuStep, Wired, AllParse, ServedNext, Ingest, IngestOutcome, DecodeHeader, Overlay, Cas, Outgoing;
    if s.cpc.Sending? {
      IngestCount(s.link.dev, Outgoing(s.ring[s.cpc.i]));
    } else if s.cpc.Receiving? {
      StepCount(s.link.dev);
    }
  }

  lemma {:induction false} IngestCount(d: Device, frame: seq<byte>)
    ensures |Ingest(d, frame).container| == |d.container|
  {
    hide Get32;
  }

  lemma {:induction false} StepCount(d: Device)
    requires Wired(d) && AllParse(d)
    ensures |McuStep(d, MAX_FRAME_SIZE).0.container| == |d.container|
  {
    hide Serve, Parses;
  }

  lemma {:induction false} PressStep(s: S, step: Step, t: S, j: nat)
    requires Moves(s, step, t) && Pressing(s, j)
    requires s.cpc.Sending? && step.Consumer? ==> step.io == SendDone(true) || Full(s.link)
    requires IsPosted(s, j) && IsPosted(t, j) && (Dispatching(s.cpc) ==> s.cpc.i <= j)
    ensures Pressing(t, j)
  {
    hide ConsumerStep, ProducerStep, ConsumerReady, ProducerReady, Returns, IsPosted, Full;
    match step
    case Producer(p) =>
      ProducerLeavesStats(s, p);
      ProducerLeavesLink(s, p);
    case Consumer(io) => PhaseStep(s, io, j);
    case _ =>
  }

  /** As many different containers as there are indices below `j`, at most. */
  lemma {:induction false} FewIndices(ks: set<nat>, index: nat -> nat, j: nat)
    requires forall k | k in ks :: index(k) < j
    requires forall k, l | k in ks && l in ks && index(k) == index(l) :: k == l
    ensures |ks| <= j
  {
    if j == 0 {
      assert ks == {};
    } else if k :| k in ks && index(k) == j - 1 {
      FewIndices(ks - {k}, index, j - 1);
    } else {
      FewIndices(ks, index, j - 1);
    }
  }

  /** When all staged requests belong to entries below `j`, there are at most `j` of them. */
  lemma {:induction false} FewStaged(s: S, j: nat)
    requires SystemInv(s)
    requires forall k: nat, c: nat | InContainer(s, k, c) :: c < |s.claims| && s.claims[c].idx < j
    ensures |Busy(s.link.dev)| <= j
  {
    hide Inv, Accounted, AllAddressed, HandInv, Occupied, Tracked, Truthful, DoneOk, FrameOf, Encodable;
    var index := (k: nat) => if k < |s.tags| && s.tags[k] < |s.claims| then s.claims[s.tags[k]].idx else 0;
    forall k | k in Busy(s.link.dev) ensures index(k) < j {
      assert InContainer(s, k, s.tags[k]);
    }
    forall k, l | k in Busy(s.link.dev) && l in Busy(s.link.dev) && index(k) == index(l) ensures k == l {
      assert InContainer(s, k, s.tags[k]) && InContainer(s, l, s.tags[l]);
      assert ContainerOk(s, k) && ContainerOk(s, l);
    }
    FewIndices(Busy(s.link.dev), index, j);
  }

  /** A request staged at loop head `a` is no longer staged once a round of services has passed. */
  lemma {:induction false} NoneOld(run: seq<S>, steps: seq<Step>, a: nat, l: nat, k: nat, c: nat)
    requires SoundRun(run, steps) && a <= l < |run| && DeviceInv(run[a]) && SystemInv(run[l])
    requires |Order(run, steps, l)| - |Order(run, steps, a)| >= |run[a].link.dev.container|
    ensures !(InContainer(run[a], k, c) && InContainer(run[l], k, c))
  {
    assert |run| == |steps| + 1;
    hide SoundRun, Order, SystemInv, DeviceInv;
    OfDevice(run[a]);
    if InContainer(run[a], k, c) && InContainer(run[l], k, c) {
      NotYetServed(run[l], k, c);
      ServedWithinARound(run, steps, a, l, k, c);
    }
  }

  lemma {:induction false} NotYetServed(s: S, k: nat, c: nat)
    requires SystemInv(s) && InContainer(s, k, c)
    ensures c < |s.claims| && s.claims[c].service.NotServed?
  {
    hide Inv, Accounted, AllAddressed, HandInv, Occupied, Tracked, Truthful, DoneOk, FrameOf, Encodable;
    assert ContainerOk(s, k);
  }

  /** The last serving step before a point at which more has been served than before. */
  lemma {:induction false} LastService(run: seq<S>, steps: seq<Step>, a: nat, b: nat) returns (l: nat)
    requires |run| == |steps| + 1 && a <= b < |run| && |Order(run, steps, b)| > |Order(run, steps, a)|
    ensures a <= l < b && Serves(run[l], steps[l]) && |Order(run, steps, l)| == |Order(run, steps, b)| - 1
  {
    hide Serves;
    if Serves(run[b - 1], steps[b - 1]) {
      l := b - 1;
    } else {
      l := LastService(run, steps, a, b - 1);
    }
  }

  /**
   An entry whose index is below the ceiling and the number of containers does
   not stay POSTED while more requests are served than there are containers,
   whatever other clients post meanwhile.
   */
  lemma {:induction false} TakenWithinARound(run: seq<S>, steps: seq<Step>, a: nat, b: nat, j: nat)
    requires SoundRun(run, steps) && a <= b < |run| && run[a].cpc.Ceiling? && run[a].link.Emulated?
    requires j < run[0].ceiling && j < |run[a].link.dev.container|
    requires |Order(run, steps, b)| - |Order(run, steps, a)| > |run[a].link.dev.container|
    ensures exists m | a <= m <= b :: !IsPosted(run[m], j)
  {
    assert |run| == |steps| + 1;
    hide SoundRun, Run, Order, SystemInv, DeviceInv, Serves;
    var l := LastService(run, steps, a, b);
    NotThrough(run, steps, a, l, j);
  }

  lemma {:induction false} NotThrough(run: seq<S>, steps: seq<Step>, a: nat, l: nat, j: nat)
    requires SoundRun(run, steps) && a <= l < |steps| && run[a].cpc.Ceiling? && run[a].link.Emulated?
    requires j < run[0].ceiling && j < |run[a].link.dev.container| && Serves(run[l], steps[l])
    requires |Order(run, steps, l)| - |Order(run, steps, a)| >= |run[a].link.dev.container|
    ensures !PostedThrough(run, a, l, j)
  {
    assert |run| == |steps| + 1 && Run(run, steps);
    hide SoundRun, Run, Order, PostedThrough, OldOrLow;
    RunSystem(run, steps, a);
    if PostedThrough(run, a, l, j) {
      Pressed(run, steps, a, l, j);
      RunAccounted(run, steps, l);
      SameContainers(run, steps, a, l);
      AllLow(run, steps, a, l, j);
      InFlightIsBusy(run[l]);
      FewStaged(run[l], j);
    }
  }

  lemma {:induction false} AllLow(run: seq<S>, steps: seq<Step>, a: nat, l: nat, j: nat)
    requires SoundRun(run, steps) && a <= l < |run| && DeviceInv(run[a]) && SystemInv(run[l])
             && Under(run[a], run[l], j)
    requires |Order(run, steps, l)| - |Order(run, steps, a)| >= |run[a].link.dev.container|
    ensures forall k: nat, c: nat | InContainer(run[l], k, c) :: c < |run[l].claims| && run[l].claims[c].idx < j
  {
    assert |run| == |steps| + 1;
    hide SoundRun, Order, SystemInv, DeviceInv, Pressing, InContainer;
    forall k: nat, c: nat | InContainer(run[l], k, c) ensures c < |run[l].claims| && run[l].claims[c].idx < j {
      NoneOld(run, steps, a, l, k, c);
    }
  }

  // ---- Staying POSTED ----

  /** Claim `c` has left POSTED in entry `j`, and can come back only through a send that failed after the `f`th. */
  predicate Departed(s: S, j: nat, c: nat, f: nat) {
    && j < |s.ring| && c < |s.claims| && s.hist.failed >= f
    && (s.ring[j].claim == c ==>
          && s.ring[j].state != Claimed && s.ring[j].state != Posted
          && (s.ring[j].state == Sent && s.cpc == Requeue(j) ==> s.hist.failed > f))
  }

  predicate PostedBy(s: S, j: nat, c: nat) { IsPosted(s, j) && s.ring[j].claim == c }

  /** What the consumer does to the count of failed sends, and when it gives an entry back. */
  lemma {:induction false} GivenBack(s: S, io: IO, j: nat)
    requires ConsumerReady(s) && j < |s.ring|
    ensures var t := ConsumerStep(s, io);
            && t.hist.failed >= s.hist.failed && j < |t.ring|
            && (t.cpc == Requeue(j) ==> t.hist.failed > s.hist.failed)
            && (s.ring[j].state == Sent && t.ring[j].state == Posted ==> s.cpc == Requeue(j))
  {
    hide ConsumerReady, ConsumerStep;
    FailuresCounted(s, io);
    if TouchesRing(s.cpc) {
      TouchBack(s, io, j);
    } else {
      RingUntouched(s, io);
    }
  }

  lemma {:induction false} TouchBack(s: S, io: IO, j: nat)
    requires ConsumerReady(s) && j < |s.ring| && TouchesRing(s.cpc)
    ensures var t := ConsumerStep(s, io);
            j < |t.ring| && (s.ring[j].state == Sent && t.ring[j].state == Posted ==> s.cpc == Requeue(j))
  {
    hide Wired, AllParse, Overlay;
  }

  lemma {:induction false} FailuresCounted(s: S, io: IO)
    requires ConsumerReady(s)
    ensures var t := ConsumerStep(s, io);
            && t.hist.failed >= s.hist.failed
            && (t.cpc.Requeue? ==> t.hist.failed > s.hist.failed)
  {
    hide ConsumerReady, ConsumerStep;
    if Holding(s.cpc) {
      FailuresSending(s, io);
    } else {
      FailuresElsewhere(s, io);
    }
  }

  lemma {:induction false} FailuresSending(s: S, io: IO)
    requires ConsumerReady(s) && Holding(s.cpc)
    ensures var t := ConsumerStep(s, io);
            t.hist.failed >= s.hist.failed && (t.cpc.Requeue? ==> t.hist.failed > s.hist.failed)
  {
    hide Wired, AllParse, SendOk, Cas;
    CallsEnd(s, io);
  }

  lemma {:induction false} FailuresElsewhere(s: S, io: IO)
    requires ConsumerReady(s) && !Holding(s.cpc)
    ensures var t := ConsumerStep(s, io); t.hist.failed == s.hist.failed && !t.cpc.Requeue?
  {
    hide McuStep, Wired, AllParse, DecodeHeader, Overlay, RecvOk, Cas;
    CallsEnd(s, io);
  }

  lemma {:induction false} DepartedStep(s: S, step: Step, t: S, j: nat, c: nat, f: nat)
    requires Inv(s) && Moves(s, step, t) && Departed(s, j, c, f)
    ensures Departed(t, j, c, f) || t.hist.failed > f
  {
    hide Inv, ConsumerStep, ProducerStep, ConsumerReady, ProducerReady, Returns;
    WriteDiscipline(s, step, t, j);
    SameIndex(s, step, t, c);
    if step.Consumer? {
      GivenBack(s, step.io, j);
    } else if step.Producer? {
      ProducerLeavesStats(s, step.p);
    }
  }

  lemma {:induction false} DepartStep(s: S, step: Step, t: S, j: nat, c: nat)
    requires Inv(s) && Moves(s, step, t) && PostedBy(s, j, c)
    ensures PostedBy(t, j, c) || Departed(t, j, c, s.hist.failed)
    ensures t.hist.failed >= s.hist.failed
  {
    hide Inv, ConsumerStep, ProducerStep, ConsumerReady, ProducerReady, Returns;
    WriteDiscipline(s, step, t, j);
    ClaimBelow(s, j);
    SameIndex(s, step, t, c);
    if step.Consumer? {
      GivenBack(s, step.io, j);
    } else if step.Producer? {
      ProducerLeavesStats(s, step.p);
    }
  }

  lemma {:induction false} NeverBack(run: seq<S>, steps: seq<Step>, m: nat, b: nat, j: nat, c: nat, f: nat)
    requires Run(run, steps) && m <= b < |run| && (Departed(run[m], j, c, f) || run[m].hist.failed > f)
    ensures Departed(run[b], j, c, f) || run[b].hist.failed > f
    decreases b
  {
    hide Inv, Moves, Initial, Departed;
    if m < b {
      NeverBack(run, steps, m, b - 1, j, c, f);
      RunKeeps(run, steps, b - 1);
      assert MovesAt(run, steps, b - 1);
      if Departed(run[b - 1], j, c, f) {
        DepartedStep(run[b - 1], steps[b - 1], run[b], j, c, f);
      } else {
        FailuresGrow(run[b - 1], steps[b - 1], run[b]);
      }
    }
  }

  lemma {:induction false} FailuresGrow(s: S, step: Step, t: S)
    requires Moves(s, step, t)
    ensures t.hist.failed >= s.hist.failed
  {
    hide ConsumerStep, ProducerStep, ConsumerReady, ProducerReady, Returns;
    if step.Consumer? {
      FailuresCounted(s, step.io);
    } else if step.Producer? {
      ProducerLeavesStats(s, step.p);
    }
  }

  /** Between two points at which a claim is POSTED, and no send fails, it is POSTED throughout. */
  lemma {:induction false} StaysPosted(run: seq<S>, steps: seq<Step>, a: nat, b: nat, j: nat, c: nat)
    requires Run(run, steps) && a <= b < |run| && PostedBy(run[a], j, c) && PostedBy(run[b], j, c)
    requires run[b].hist.failed == run[a].hist.failed
    ensures PostedThrough(run, a, b, j)
  {
    assert |run| == |steps| + 1;
    hide Run;
    forall m | a <= m <= b ensures IsPosted(run[m], j) {
      StillPosted(run, steps, a, m, b, j, c);
    }
  }

  lemma {:induction false} StillPosted(run: seq<S>, steps: seq<Step>, a: nat, m: nat, b: nat, j: nat, c: nat)
    requires Run(run, steps) && a <= m <= b < |run| && PostedBy(run[a], j, c) && PostedBy(run[b], j, c)
    requires run[b].hist.failed == run[a].hist.failed
    ensures PostedBy(run[m], j, c) && run[m].hist.failed == run[a].hist.failed
    decreases m
  {
    hide Inv, Moves, Initial;
    if a < m {
      StillPosted(run, steps, a, m - 1, b, j, c);
      RunKeeps(run, steps, m - 1);
      assert MovesAt(run, steps, m - 1);
      DepartStep(run[m - 1], steps[m - 1], run[m], j, c);
      if !PostedBy(run[m], j, c) || run[m].hist.failed > run[a].hist.failed {
        NeverBack(run, steps, m, b, j, c, run[a].hist.failed);
      }
    }
  }
}
