/**
 The in-flight accounting of the consumer, for every transport behaviour and
 every interleaving with producers.
 */
module InFlight {
  import opened Wire
  import opened Device
  import opened Ring

  /** A reservation is charged for a request not yet sent. */
  predicate Reserving(cpc: CPC) { cpc.Sending? || cpc.Unreserve? }

  /** A parsed response is still charged. */
  predicate Delivering(cpc: CPC) {
    || cpc.Match? || cpc.MatchOwner? || cpc.MatchSequence? || cpc.DropReply? || cpc.CopyReply? || cpc.SetReplyLen?
    || cpc.ReleaseReply?
  }

  /** The ceiling was checked and nothing reserved since. */
  predicate BelowCeiling(cpc: CPC) {
    cpc.Take? || cpc.TakeCas? || cpc.ReserveMax? || cpc.ReserveTotal? || cpc.ReserveSlot?
  }

  /** Something is charged. */
  predicate Charged(cpc: CPC) {
    Reserving(cpc) || Delivering(cpc) || cpc.Receiving? || cpc.Parsing?
  }

  function Max(a: int, b: int): int { if a > b then a else b }

  predicate Accounted(s: S) {
    && s.stats.inFlight == s.hist.sent - s.hist.drained + (if Reserving(s.cpc) || Delivering(s.cpc) then 1 else 0)
    && 0 <= s.stats.inFlight <= s.ceiling
    && (BelowCeiling(s.cpc) ==> s.stats.inFlight < s.ceiling)
    && (Charged(s.cpc) ==> 0 < s.stats.inFlight)
    && s.stats.inFlight <= s.hist.peak
    && s.stats.maxInFlight
       == (if s.cpc.ReserveTotal? || s.cpc.ReserveSlot? then Max(s.hist.peak, s.stats.inFlight + 1) else s.hist.peak)
    && s.stats.totalSent == s.hist.sent + s.hist.failed + (if s.cpc.ReserveSlot? || Reserving(s.cpc) then 1 else 0)
  }

  lemma {:induction false} AccountedStep(s: S, step: Step, t: S)
    requires Accounted(s) && Moves(s, step, t)
    ensures Accounted(t) && t.ceiling == s.ceiling && t.hist.peak == Max(s.hist.peak, t.stats.inFlight)
  {
    hide Returns, FrameOf, Encodable, Decode, DecodeHeader, McuStep, IngestOutcome, Ingest, Overlay, AllParse, Wired,
         ServedNext;
    if step.Consumer? {
      AccountedConsumer(s, step.io);
    } else if step.Producer? {
      ProducerLeavesStats(s, step.p);
    }
  }

  lemma {:induction false} ProducerLeavesStats(s: S, p: nat)
    requires p < |s.pc| && !s.pc[p].Idle? && ProducerReady(s, p)
    ensures var t := ProducerStep(s, p);
            t.stats == s.stats && t.hist == s.hist && t.cpc == s.cpc && t.ceiling == s.ceiling
  {
    hide FrameOf, Encodable, Decode, Overlay;
  }

  lemma {:induction false} AccountedConsumer(s: S, io: IO)
    requires Accounted(s) && ConsumerReady(s)
    ensures var t := ConsumerStep(s, io);
            Accounted(t) && t.ceiling == s.ceiling && t.hist.peak == Max(s.hist.peak, t.stats.inFlight)
  {
    hide ConsumerStep, Accounted;
    if s.cpc.Ceiling? || BelowCeiling(s.cpc) {
      AccountedReserve(s, io);
    } else if Reserving(s.cpc) || s.cpc.Requeue? {
      AccountedSend(s, io);
    } else if Delivering(s.cpc) {
      AccountedDeliver(s, io);
    } else {
      AccountedDrain(s, io);
    }
  }

  lemma {:induction false} AccountedReserve(s: S, io: IO)
    requires Accounted(s) && ConsumerReady(s) && (s.cpc.Ceiling? || BelowCeiling(s.cpc))
    ensures var t := ConsumerStep(s, io);
            Accounted(t) && t.ceiling == s.ceiling && t.hist.peak == Max(s.hist.peak, t.stats.inFlight)
  {
    hide AllParse, Wired;
  }

  lemma {:induction false} AccountedSend(s: S, io: IO)
    requires Accounted(s) && ConsumerReady(s) && (Reserving(s.cpc) || s.cpc.Requeue?)
    ensures var t := ConsumerStep(s, io);
            Accounted(t) && t.ceiling == s.ceiling && t.hist.peak == Max(s.hist.peak, t.stats.inFlight)
  {
    hide IngestOutcome, Ingest, AllParse, Wired;
  }

  lemma {:induction false} AccountedDrain(s: S, io: IO)
    requires Accounted(s) && ConsumerReady(s)
    requires s.cpc.DrainCheck? || s.cpc.Receiving? || s.cpc.Parsing? || s.cpc.Publish? || s.cpc.Discard?
    ensures var t := ConsumerStep(s, io);
            Accounted(t) && t.ceiling == s.ceiling && t.hist.peak == Max(s.hist.peak, t.stats.inFlight)
  {
    hide DecodeHeader, McuStep, AllParse, Wired, ServedNext;
  }

  lemma {:induction false} AccountedDeliver(s: S, io: IO)
    requires Accounted(s) && ConsumerReady(s) && Delivering(s.cpc)
    ensures var t := ConsumerStep(s, io);
            Accounted(t) && t.ceiling == s.ceiling && t.hist.peak == Max(s.hist.peak, t.stats.inFlight)
  {
    hide Overlay, AllParse, Wired;
  }

  /**
   At every point of every run: the counter stays between 0 and the ceiling, and
   outside the windows of a reservation and of a delivery it equals the
   successful sends minus the parsed responses.
   */
  lemma {:induction false} RunAccounted(run: seq<S>, steps: seq<Step>, k: nat)
    requires Run(run, steps) && k < |run|
    ensures Accounted(run[k]) && run[k].ceiling == run[0].ceiling
  {
    hide Moves, Accounted;
    if k == 0 {
      AccountedInitially(run[0]);
    } else {
      RunAccounted(run, steps, k - 1);
      assert MovesAt(run, steps, k - 1);
      AccountedStep(run[k - 1], steps[k - 1], run[k]);
    }
  }

  lemma {:induction false} AccountedInitially(s: S)
    requires Initial(s)
    ensures Accounted(s)
  {
  }

  /** The history's peak is the largest value the counter ever had. */
  lemma {:induction false} PeakReached(run: seq<S>, steps: seq<Step>, l: nat) returns (top: nat)
    requires Run(run, steps) && l < |run|
    ensures forall k | 0 <= k <= l :: run[k].stats.inFlight <= run[l].hist.peak
    ensures top <= l && run[top].stats.inFlight == run[l].hist.peak
  {
    hide Moves;
    if l == 0 {
      top := 0;
    } else {
      top := PeakReached(run, steps, l - 1);
      RunAccounted(run, steps, l - 1);
      assert MovesAt(run, steps, l - 1);
      AccountedStep(run[l - 1], steps[l - 1], run[l]);
      if run[l].hist.peak != run[l - 1].hist.peak {
        top := l;
      }
    }
  }

  /** The reported maximum is the largest value the counter ever reached, outside the reservation window. */
  lemma {:induction false} MaximumIsPeak(run: seq<S>, steps: seq<Step>, l: nat)
    requires Run(run, steps) && l < |run| && !run[l].cpc.ReserveTotal? && !run[l].cpc.ReserveSlot?
    ensures forall k | 0 <= k <= l :: run[k].stats.inFlight <= run[l].stats.maxInFlight
    ensures exists k | 0 <= k <= l :: run[k].stats.inFlight == run[l].stats.maxInFlight
  {
    hide Moves, Initial, MovesAt;
    RunAccounted(run, steps, l);
    var top := PeakReached(run, steps, l);
    assert run[top].stats.inFlight == run[l].stats.maxInFlight;
  }

  // ---- The counts, read off the run ----

  predicate SendSucceeds(s: S, step: Step) { s.cpc.Sending? && step == Consumer(SendDone(true)) }

  predicate SendFails(s: S, step: Step) { s.cpc.Sending? && step == Consumer(SendDone(false)) }

  /** A received frame with a valid header is accepted. */
  predicate Drains(s: S, step: Step) { s.cpc.Parsing? && step.Consumer? && DecodeHeader(s.cpc.frame).Ok? }

  function Sent(run: seq<S>, steps: seq<Step>, l: nat): nat
    requires |run| == |steps| + 1 && l < |run|
  {
    if l == 0 then 0 else Sent(run, steps, l - 1) + if SendSucceeds(run[l - 1], steps[l - 1]) then 1 else 0
  }

  function Failed(run: seq<S>, steps: seq<Step>, l: nat): nat
    requires |run| == |steps| + 1 && l < |run|
  {
    if l == 0 then 0 else Failed(run, steps, l - 1) + if SendFails(run[l - 1], steps[l - 1]) then 1 else 0
  }

  function Drained(run: seq<S>, steps: seq<Step>, l: nat): nat
    requires |run| == |steps| + 1 && l < |run|
  {
    if l == 0 then 0 else Drained(run, steps, l - 1) + if Drains(run[l - 1], steps[l - 1]) then 1 else 0
  }

  /** The history fields count what happened in the run. */
  lemma {:induction false} HistoryCounts(run: seq<S>, steps: seq<Step>, l: nat)
    requires Run(run, steps) && l < |run|
    ensures run[l].hist.sent == Sent(run, steps, l) && run[l].hist.drained == Drained(run, steps, l)
    ensures Failed(run, steps, l) == run[l].hist.failed + if run[l].cpc.Unreserve? then 1 else 0
  {
    hide Moves;
    if l > 0 {
      HistoryCounts(run, steps, l - 1);
      assert MovesAt(run, steps, l - 1);
      HistoryStep(run[l - 1], steps[l - 1], run[l]);
    }
  }

  /** One step's share of the counts. */
  predicate Counts(s: S, step: Step, t: S) {
    && t.hist.sent == s.hist.sent + (if SendSucceeds(s, step) then 1 else 0)
    && t.hist.drained == s.hist.drained + (if Drains(s, step) then 1 else 0)
    && t.hist.failed + (if t.cpc.Unreserve? then 1 else 0)
       == s.hist.failed + (if s.cpc.Unreserve? then 1 else 0) + (if SendFails(s, step) then 1 else 0)
  }

  lemma {:induction false} HistoryStep(s: S, step: Step, t: S)
    requires Moves(s, step, t)
    ensures Counts(s, step, t)
  {
    hide FrameOf, Encodable, Decode, ProducerStep, ConsumerStep, AllParse, Wired;
    if step.Producer? {
      ProducerLeavesStats(s, step.p);
    } else if step.Consumer? {
      HistoryConsumer(s, step.io);
    }
  }

  lemma {:induction false} HistoryConsumer(s: S, io: IO)
    requires ConsumerReady(s) && Returns(s, io)
    ensures Counts(s, Consumer(io), ConsumerStep(s, io))
  {
    hide DecodeHeader, McuStep, IngestOutcome, Ingest, Overlay, AllParse, Wired, ServedNext, Outgoing;
  }

  /**
   At every loop head the counter equals the successful sends minus the accepted
   responses; the total counts attempts, the failed ones included.
   */
  lemma {:induction false} CounterIsDifference(run: seq<S>, steps: seq<Step>, l: nat)
    requires Run(run, steps) && l < |run| && run[l].cpc.Ceiling?
    ensures 0 <= run[l].stats.inFlight == Sent(run, steps, l) - Drained(run, steps, l) <= run[0].ceiling
    ensures run[l].stats.totalSent == Sent(run, steps, l) + Failed(run, steps, l)
  {
    hide Run, Sent, Drained, Failed;
    RunAccounted(run, steps, l);
    HistoryCounts(run, steps, l);
  }
}
