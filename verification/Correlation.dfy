/**
 End to end: what clients of the ring get back from the emulated token, over
 every run in which requests are addressed by their headers and no two entries
 in flight share a key.
 */
module Correlation {
  import opened Wire
  import opened Device
  import opened DeviceLaws
  import opened Ring
  import opened RingSafety
  import opened RingRuns
  import opened InFlight
  import opened System
  import opened SystemSteps

  ghost predicate SoundRun(run: seq<S>, steps: seq<Step>) {
    && Run(run, steps) && run[0].link.Emulated?
    && (forall k | 0 <= k < |run| :: DistinctKeys(run[k]))
    && (forall k | 0 <= k < |steps| :: steps[k].Start? ==> Addressed(steps[k].req))
  }

  lemma {:induction false} RunSystem(run: seq<S>, steps: seq<Step>, k: nat)
    requires SoundRun(run, steps) && k < |run|
    ensures SystemInv(run[k])
  {
    hide SystemInv, Moves, DistinctKeys, Addressed;
    if k == 0 {
      SystemInitially(run[0]);
    } else {
      RunSystem(run, steps, k - 1);
      assert MovesAt(run, steps, k - 1);
      SystemStep(run[k - 1], steps[k - 1], run[k]);
    }
  }

  /** In the composed system, too, every index is in range and every staged frame parses. */
  lemma {:induction false} SystemNeverStuck(s: S, step: Step)
    requires SystemInv(s)
    ensures Ready(s, step)
  {
    hide Inv, HandInv, Accounted, ContainerOk, Truthful, DoneOk, AllParse;
    DeviceParses(s);
    NeverStuck(s, step);
  }

  // ---- Replies reach their own entry ----

  /** Response bytes are written only into the entry of the claim the reply answers. */
  lemma {:induction false} ReplyReachesOwner(run: seq<S>, steps: seq<Step>, k: nat, j: nat)
    requires SoundRun(run, steps) && k < |steps| && j < |run[k].ring| == |run[k + 1].ring|
    requires run[k].ring[j].rsp != run[k + 1].ring[j].rsp
             || (run[k].ring[j].state != Done && run[k + 1].ring[j].state == Done)
    ensures run[k].ring[j].claim == run[k].cur < |run[k].claims| && run[k].claims[run[k].cur].service.Served?
    ensures HasFrame(run[k].cpc) ==> run[k].cpc.frame == run[k].claims[run[k].cur].service.reply
  {
    hide Moves, DistinctKeys, Addressed, Inv, DeviceInv, AllAddressed, Accounted, Occupied, Tracked, Flying;
    RunSystem(run, steps, k);
    assert MovesAt(run, steps, k);
    WriterInHand(run[k], steps[k], run[k + 1], j);
    FlyingIsAClaim(run[k], run[k].cur);
  }

  lemma {:induction false} WriterInHand(s: S, step: Step, t: S, j: nat)
    requires Inv(s) && Moves(s, step, t) && j < |s.ring| == |t.ring|
    requires s.ring[j].rsp != t.ring[j].rsp || (s.ring[j].state != Done && t.ring[j].state == Done)
    ensures s.cpc.CopyReply? || s.cpc.Publish?
    ensures s.cpc.i == j
  {
    hide Inv, ProducerStep, ConsumerStep, Returns;
    if step.Producer? {
      ProducerWrites(s, step.p, j);
    } else if step.Consumer? {
      ConsumerDelivers(s, step.io, j);
    }
  }

  lemma {:induction false} ConsumerDelivers(s: S, io: IO, j: nat)
    requires ConsumerReady(s) && j < |s.ring|
    ensures var t := ConsumerStep(s, io);
            && |t.ring| == |s.ring|
            && (s.ring[j].rsp != t.ring[j].rsp || (s.ring[j].state != Done && t.ring[j].state == Done) ==>
                  (s.cpc.CopyReply? || s.cpc.Publish?) && s.cpc.i == j)
  {
    hide DecodeHeader, Overlay, IngestOutcome, Ingest, McuStep, AllParse, Wired, ServedNext, ConsumerStep;
    if TouchesRing(s.cpc) {
      TouchDelivers(s, io, j);
    } else {
      RingUntouched(s, io);
    }
  }

  lemma {:induction false} TouchDelivers(s: S, io: IO, j: nat)
    requires ConsumerReady(s) && j < |s.ring| && TouchesRing(s.cpc)
    ensures var t := ConsumerStep(s, io);
            && |t.ring| == |s.ring|
            && (s.ring[j].rsp != t.ring[j].rsp || (s.ring[j].state != Done && t.ring[j].state == Done) ==>
                  (s.cpc.CopyReply? || s.cpc.Publish?) && s.cpc.i == j)
  {
    hide AllParse, Wired, Overlay;
  }

  /** A reply is dropped only when its claim was abandoned. */
  lemma {:induction false} DroppedWasAbandoned(run: seq<S>, steps: seq<Step>, k: nat)
    requires SoundRun(run, steps) && k < |run| && run[k].cpc.DropReply?
    ensures run[k].cur < |run[k].claims| && run[k].claims[run[k].cur].abandoned
  {
    hide Run, DistinctKeys, Addressed, Inv, DeviceInv, AllAddressed, Accounted, Occupied, Tracked;
    RunSystem(run, steps, k);
    HandEntry(run[k]);
  }

  // ---- The counter and the containers ----

  /** At every loop head the in-flight counter is the number of busy containers. */
  lemma {:induction false} CounterIsOccupancy(run: seq<S>, steps: seq<Step>, k: nat)
    requires SoundRun(run, steps) && k < |run| && run[k].cpc.Ceiling?
    ensures run[k].link.Emulated? && run[k].stats.inFlight == |Busy(run[k].link.dev)|
  {
    hide Run, DistinctKeys, Addressed, Inv, DeviceInv, AllAddressed, HandInv, Tracked, Busy;
    RunSystem(run, steps, k);
    InFlightIsBusy(run[k]);
  }

  /** A drain with something in flight always yields a response. */
  lemma {:induction false} DrainYields(run: seq<S>, steps: seq<Step>, k: nat)
    requires SoundRun(run, steps) && k < |steps| && run[k].cpc.Receiving? && steps[k].Consumer?
    ensures steps[k].io.RecvDone? && steps[k].io.r.Ok?
    ensures run[k + 1].cpc.Parsing? && run[k + 1].cur < |run[k + 1].claims|
            && run[k + 1].claims[run[k + 1].cur].service.Served?
  {
    hide DistinctKeys, Addressed, Inv, DeviceInv, AllAddressed, HandInv, Tracked, Busy, McuStep, Flying, ReplyTo;
    RunSystem(run, steps, k);
    InFlightIsBusy(run[k]);
    DeviceParses(run[k]);
    DeviceAnswers(run[k]);
    assert MovesAt(run, steps, k);
    FlyingIsAClaim(run[k], run[k].tags[ServedNext(run[k].link.dev)]);
  }

  lemma {:induction false} HoldsAll(s: set<nat>, n: nat)
    requires forall k: nat | k < n :: k in s
    ensures |s| >= n
  {
    if n > 0 {
      HoldsAll(s - {n - 1}, n - 1);
    }
  }

  /** A device that is not full has a vacant container. */
  lemma {:induction false} RoomLeft(s: S)
    requires DeviceInv(s) && |Busy(s.link.dev)| < |s.link.dev.container|
    ensures FirstVacant(s.link.dev.container, 0) < |s.link.dev.container|
  {
    hide Flying, FrameOf, Truthful, DoneOk;
    var cs := s.link.dev.container;
    var i := FirstVacant(cs, 0);
    if i == |cs| {
      forall k: nat | k < |cs| ensures k in Busy(s.link.dev) {
        assert ContainerOk(s, k) && !Vacant(cs[k]);
      }
      HoldsAll(Busy(s.link.dev), |cs|);
    }
  }

  /** With a ceiling no higher than the number of containers, the device never refuses a request. */
  lemma {:induction false} NoBackpressure(run: seq<S>, steps: seq<Step>, k: nat)
    requires SoundRun(run, steps) && k < |steps| && run[k].cpc.Sending? && steps[k].Consumer?
    requires run[k].link.Emulated? && run[k].ceiling <= |run[k].link.dev.container|
    ensures steps[k].io == SendDone(true)
  {
    hide DistinctKeys, Addressed, Inv, AllAddressed, HandInv, Tracked, Busy, Outgoing, IngestOutcome;
    RunSystem(run, steps, k);
    var s := run[k];
    RoomLeft(s);
    SentBytes(s);
    IngestFrame(s.link.dev, Sendable(s.claims[s.ring[s.cpc.i].claim].req));
    assert MovesAt(run, steps, k);
  }
}
