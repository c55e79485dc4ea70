/**
 Runs put together step by step: each lemma continues a given run by one phase
 of a client's call or of the consumer's loop.
 */
module Stories {
  import opened Bytes
  import opened Wire
  import opened Token
  import opened Device
  import opened Ring
  import opened RingSafety
  import opened RingRuns
  import opened InFlight
  import opened DeviceLaws
  import opened System
  import opened Scans

  function Last(run: seq<S>): S
    requires run != []
  {
    run[|run| - 1]
  }

  /** The calls made in a run, in order. */
  function Calls(steps: seq<Step>): seq<Request> {
    if steps == [] then []
    else
      var step := steps[|steps| - 1];
      Calls(steps[..|steps| - 1]) + if step.Start? then [step.req] else []
  }

  /** One run continues another. */
  ghost predicate Grown(run: seq<S>, run': seq<S>, steps': seq<Step>) {
    run != [] && run <= run' && Run(run', steps')
  }

  /** It does so without a new call, a response or a failed send. */
  ghost predicate Onward(run: seq<S>, steps: seq<Step>, run': seq<S>, steps': seq<Step>) {
    && Grown(run, run', steps') && Calls(steps') == Calls(steps)
    && Last(run').hist.received == Last(run).hist.received && Last(run').hist.failed == Last(run).hist.failed
  }

  lemma {:induction false} Extend(run: seq<S>, steps: seq<Step>, step: Step) returns (run': seq<S>, steps': seq<Step>)
    requires Run(run, steps) && Ready(Last(run), step) && Enabled(Last(run), step)
    ensures Grown(run, run', steps') && Last(run') == Next(Last(run), step)
    ensures Calls(steps') == if step.Start? then Calls(steps) + [step.req] else Calls(steps)
  {
    hide Ready, Enabled, Next, Initial;
    run', steps' := run + [Next(Last(run), step)], steps + [step];
    assert steps'[..|steps|] == steps;
    forall k | 0 <= k < |steps'| ensures MovesAt(run', steps', k) {
      assert k < |steps| ==> MovesAt(run, steps, k);
    }
  }

  /** The device, if there is one, is in order. */
  ghost predicate InOrder(link: Link) {
    link.Emulated? ==> Wired(link.dev) && AllParse(link.dev)
  }

  lemma {:induction false} GoProducer(run: seq<S>, steps: seq<Step>, p: nat) returns (run': seq<S>, steps': seq<Step>)
    requires Run(run, steps) && p < |Last(run).pc| && !Last(run).pc[p].Idle?
    ensures ProducerReady(Last(run), p) && Onward(run, steps, run', steps') && Last(run') == ProducerStep(Last(run), p)
  {
    hide Calls, Run, Inv, ProducerStep, EntryOk, ProducerOk, ConsumerOk;
    assert run != [] by { Nonempty(run, steps); }
    RunKeeps(run, steps, |run| - 1);
    if HasClaim(Last(run).pc[p]) {
      OwnEntry(Last(run), p);
    }
    run', steps' := Extend(run, steps, Producer(p));
    ProducerLeavesStats(Last(run), p);
  }

  lemma {:induction false} Nonempty(run: seq<S>, steps: seq<Step>)
    requires Run(run, steps)
    ensures run != []
  {
    hide Initial, Moves;
  }

  lemma {:induction false} GoConsumer(run: seq<S>, steps: seq<Step>, io: IO) returns (run': seq<S>, steps': seq<Step>)
    requires Run(run, steps) && InOrder(Last(run).link) && ConsumerReady(Last(run)) && Returns(Last(run), io)
    ensures Grown(run, run', steps') && Calls(steps') == Calls(steps) && Last(run') == ConsumerStep(Last(run), io)
  {
    hide Calls, Run, ConsumerStep, ConsumerReady, Returns;
    Nonempty(run, steps);
    run', steps' := Extend(run, steps, Consumer(io));
  }

  /** The consumer's next action is possible. */
  lemma {:induction false} ConsumerCan(run: seq<S>, steps: seq<Step>)
    requires Run(run, steps) && InOrder(Last(run).link)
    ensures ConsumerReady(Last(run)) && Inv(Last(run))
  {
    hide Calls, Run, Inv, ConsumerReady, Wired, AllParse;
    Nonempty(run, steps);
    RunKeeps(run, steps, |run| - 1);
    NeverStuck(Last(run), Consumer(NoCall));
  }

  // ---- Clients ----

  /** A client starts a call and claims entry `i`, the first FREE one. */
  lemma {:induction false} Claims(run: seq<S>, steps: seq<Step>, p: nat, req: Request, i: nat)
    returns (run': seq<S>, steps': seq<Step>)
    requires Run(run, steps) && p < |Last(run).pc| && Last(run).pc[p].Idle?
    requires i < |Last(run).ring| && Last(run).ring[i].state == Free
             && forall j | 0 <= j < i :: Last(run).ring[j].state != Free
    ensures Grown(run, run', steps') && Calls(steps') == Calls(steps) + [req]
            && Last(run') == ClaimEntry(Last(run), p, req, i)
  {
    Nonempty(run, steps);
    hide Calls, Run, Initial, Moves, MovesAt;
    var s := Last(run);
    run', steps' := Extend(run, steps, Start(p, req));
    var j := 0;
    while j < i
      invariant 0 <= j <= i && Grown(run, run', steps') && Last(run') == MovePC(s, p, Claiming(req, j))
      invariant Calls(steps') == Calls(steps) + [req]
    {
      run', steps' := GoProducer(run', steps', p);
      j := j + 1;
      assert s.pc[p := Claiming(req, j - 1)][p := Claiming(req, j)] == s.pc[p := Claiming(req, j)];
    }
    run', steps' := GoProducer(run', steps', p);
    assert s.pc[p := Claiming(req, i)][p := Encoding(|s.claims|)] == s.pc[p := Encoding(|s.claims|)];
  }

  /** An entry as its claimant posts it. */
  function Filed(e: Entry, req: Request): Entry
    requires Encodable(req) && |e.req| == ENTRY_BUF_SIZE
  {
    e.(state := Posted, owner := req.session, sequence := req.sequence, reqLen := |FrameOf(req)|, rspLen := 0,
       req := Overlay(e.req, FrameOf(req)))
  }

  /** The client encodes its request and posts the entry. */
  lemma {:induction false} Posts(run: seq<S>, steps: seq<Step>, p: nat) returns (run': seq<S>, steps': seq<Step>)
    requires Run(run, steps) && p < |Last(run).pc| && Last(run).pc[p].Encoding?
    requires ProducerReady(Last(run), p) && Encodable(Last(run).claims[Last(run).pc[p].c].req)
    requires Last(run).ring[Last(run).claims[Last(run).pc[p].c].idx].state == Claimed
    ensures var s, c := Last(run), Last(run).pc[p].c;
            && Onward(run, steps, run', steps')
            && Last(run') == ProducerUpdate(s, p, c, Filed(s.ring[s.claims[c].idx], s.claims[c].req), s.claims[c],
                                            Waiting(c, 0))
  {
    Nonempty(run, steps);
    hide Calls, Run, FrameOf, Encodable, Overlay;
    var s, c := Last(run), Last(run).pc[p].c;
    run', steps' := GoProducer(run, steps, p);
    run', steps' := GoProducer(run', steps', p);
    run', steps' := GoProducer(run', steps', p);
    run', steps' := GoProducer(run', steps', p);
    run', steps' := GoProducer(run', steps', p);
    run', steps' := GoProducer(run', steps', p);
    var i := s.claims[c].idx;
    var t := Last(run');
    assert t.ring == s.ring[i := Filed(s.ring[i], s.claims[c].req)];
    assert t.pc == s.pc[p := Waiting(c, 0)];
  }

  /**
   A client that has waited as long as it may comes to its second attempt to
   abandon, finding its entry POSTED before.
   */
  lemma {:induction false} GivesUp(run: seq<S>, steps: seq<Step>, p: nat, c: nat)
    returns (run': seq<S>, steps': seq<Step>)
    requires Run(run, steps) && p < |Last(run).pc| && Last(run).pc[p] == Waiting(c, 0) && ProducerReady(Last(run), p)
    requires Last(run).claims[c].req.budget == 1 && Last(run).ring[Last(run).claims[c].idx].state == Posted
    ensures Onward(run, steps, run', steps') && Last(run') == MovePC(Last(run), p, AbandonPosted(c))
  {
    Nonempty(run, steps);
    hide Calls, Run, FrameOf, Encodable, Overlay, ReadOut;
    var s := Last(run);
    run', steps' := GoProducer(run, steps, p);
    run', steps' := GoProducer(run', steps', p);
    run', steps' := GoProducer(run', steps', p);
    assert Last(run').pc == s.pc[p := AbandonPosted(c)];
  }

  // ---- The consumer ----

  /** The consumer, below its ceiling, takes entry `i`, the first POSTED one. */
  lemma {:induction false} Takes(run: seq<S>, steps: seq<Step>, i: nat) returns (run': seq<S>, steps': seq<Step>)
    requires Run(run, steps) && Last(run).cpc == Ceiling && InOrder(Last(run).link)
    requires Last(run).stats.inFlight < Last(run).ceiling && i < |Last(run).ring| && Last(run).ring[i].state == Posted
    requires forall j | 0 <= j < i :: Last(run).ring[j].state != Posted
    ensures Onward(run, steps, run', steps')
    ensures var s := Last(run);
            && s.ring[i].claim < |s.claims|
            && Last(run') == s.(ring := s.ring[i := s.ring[i].(state := Sent)], cpc := ReserveMax(i))
  {
    Nonempty(run, steps);
    hide Calls, Run, InOrder, Inv, Wired, AllParse;
    var s := Last(run);
    run', steps' := Consumes(run, steps);
    var j := 0;
    while j < i
      invariant 0 <= j <= i && Onward(run, steps, run', steps') && Last(run') == MoveCPC(s, Take(j))
    {
      run', steps' := Consumes(run', steps');
      j := j + 1;
    }
    run', steps' := Grabs(run', steps');
  }

  /** It looks at a POSTED entry and takes it. */
  lemma {:induction false} Grabs(run: seq<S>, steps: seq<Step>) returns (run': seq<S>, steps': seq<Step>)
    requires Run(run, steps) && Last(run).cpc.Take? && InOrder(Last(run).link)
    requires Last(run).cpc.i < |Last(run).ring| && Last(run).ring[Last(run).cpc.i].state == Posted
    ensures Onward(run, steps, run', steps')
    ensures var s, i := Last(run), Last(run).cpc.i;
            && s.ring[i].claim < |s.claims|
            && Last(run') == s.(ring := s.ring[i := s.ring[i].(state := Sent)], cpc := ReserveMax(i))
  {
    Nonempty(run, steps);
    hide Calls, Run, InOrder, Inv, Wired, AllParse;
    var s, i := Last(run), Last(run).cpc.i;
    run', steps' := Consumes(run, steps);
    ConsumerCan(run', steps');
    PostedEntry(Last(run'), i);
    run', steps' := Consumes(run', steps');
    assert s.claims[s.ring[i].claim := s.claims[s.ring[i].claim]] == s.claims;
  }

  /** A step of the consumer without a transport call. */
  lemma {:induction false} Consumes(run: seq<S>, steps: seq<Step>) returns (run': seq<S>, steps': seq<Step>)
    requires Run(run, steps) && InOrder(Last(run).link) && !Last(run).cpc.Sending? && !Last(run).cpc.Receiving?
    ensures ConsumerReady(Last(run)) && Grown(run, run', steps') && Calls(steps') == Calls(steps)
    ensures Last(run') == ConsumerStep(Last(run), NoCall)
  {
    hide Calls, Run, InOrder, Inv, ConsumerStep, ConsumerReady;
    ConsumerCan(run, steps);
    run', steps' := GoConsumer(run, steps, NoCall);
  }

  /** It reserves a place in flight and comes to the transport. */
  lemma {:induction false} Reserves(run: seq<S>, steps: seq<Step>) returns (run': seq<S>, steps': seq<Step>)
    requires Run(run, steps) && Last(run).cpc.ReserveMax? && InOrder(Last(run).link)
    ensures Onward(run, steps, run', steps')
    ensures var s, t := Last(run), Last(run');
            && t.cpc == Sending(s.cpc.i) && t.stats.inFlight == s.stats.inFlight + 1
            && t.ring == s.ring && t.claims == s.claims && t.pc == s.pc && t.link == s.link && t.tags == s.tags
            && t.ceiling == s.ceiling
  {
    Nonempty(run, steps);
    hide Calls, Run, InOrder, Inv, Wired, AllParse;
    run', steps' := Consumes(run, steps);
    run', steps' := Consumes(run', steps');
    run', steps' := Consumes(run', steps');
  }

  /** The emulated device stages the request in container `k`, its first vacant one. */
  lemma {:induction false} SendsTo(run: seq<S>, steps: seq<Step>, k: nat) returns (run': seq<S>, steps': seq<Step>)
    requires Run(run, steps) && Last(run).cpc.Sending? && Last(run).link.Emulated? && InOrder(Last(run).link)
    requires k == FirstVacant(Last(run).link.dev.container, 0) < |Last(run).link.dev.container| == |Last(run).tags|
    ensures Onward(run, steps, run', steps')
    ensures var s, t, i := Last(run), Last(run'), Last(run).cpc.i;
            && i < |s.ring| && s.ring[i].claim < |s.claims|
            && var c := s.ring[i].claim;
            && Encodable(s.claims[c].req)
            && t.cpc == Ceiling && t.ring == s.ring && t.pc == s.pc && t.stats == s.stats && t.ceiling == s.ceiling
            && t.claims == s.claims[c := s.claims[c].(sends := 1)] && t.tags == s.tags[k := c]
            && var cs := s.link.dev.container[k := Container(FrameOf(s.claims[c].req), true)];
            && t.link == Emulated(s.link.dev.(container := cs))
            && InOrder(t.link)
  {
    Nonempty(run, steps);
    hide Calls, Run, Inv, Wired, AllParse, Outgoing, FrameOf, Encodable, IngestOutcome, Ingest, FirstVacant;
    var s := Last(run);
    ConsumerCan(run, steps);
    SentBytes(s);
    var c := s.ring[s.cpc.i].claim;
    FrameStages(s.link.dev, s.claims[c].req, k);
    run', steps' := GoConsumer(run, steps, SendDone(true));
    assert s.ring[s.cpc.i := s.ring[s.cpc.i]] == s.ring;
  }

  lemma {:induction false} FrameStages(d: Device, req: Request, k: nat)
    requires Wired(d) && AllParse(d) && Encodable(req) && k == FirstVacant(d.container, 0) < |d.container|
    ensures IngestOutcome(d, FrameOf(req)) == Ok(k)
    ensures var d' := d.(container := d.container[k := Container(FrameOf(req), true)]);
            Ingest(d, FrameOf(req)) == d' && Wired(d') && AllParse(d')
  {
    hide Parses, Frame, Exec, IngestOutcome;
    IngestFrame(d, Sendable(req));
    ServeFrame(d.mem, Sendable(req));
  }

  /** With something in flight and nothing to send, or no room to, the consumer turns to receiving. */
  lemma {:induction false} TurnsToReceive(run: seq<S>, steps: seq<Step>) returns (run': seq<S>, steps': seq<Step>)
    requires Run(run, steps) && Last(run).cpc == Ceiling && InOrder(Last(run).link) && Last(run).stats.inFlight > 0
    requires || Last(run).stats.inFlight >= Last(run).ceiling
             || forall j | 0 <= j < |Last(run).ring| :: Last(run).ring[j].state != Posted
    ensures Onward(run, steps, run', steps') && Last(run') == MoveCPC(Last(run), Receiving)
  {
    Nonempty(run, steps);
    hide Calls, Run, InOrder, Inv, Wired, AllParse;
    var s := Last(run);
    run', steps' := Consumes(run, steps);
    if s.stats.inFlight < s.ceiling {
      var j := 0;
      while j < |s.ring|
        invariant 0 <= j <= |s.ring| && Onward(run, steps, run', steps') && Last(run') == MoveCPC(s, Take(j))
      {
        run', steps' := Consumes(run', steps');
        j := j + 1;
      }
      run', steps' := Consumes(run', steps');
    }
    run', steps' := Consumes(run', steps');
  }

  /** It receives the reply to the request in the container whose turn it is, and looks for its entry. */
  lemma {:induction false} Receives(run: seq<S>, steps: seq<Step>, c: nat) returns (run': seq<S>, steps': seq<Step>)
    requires Run(run, steps) && Last(run).cpc == Receiving && Last(run).link.Emulated? && InOrder(Last(run).link)
    requires Busy(Last(run).link.dev) != {} && c < |Last(run).claims| && Encodable(Last(run).claims[c].req)
    requires var s := Last(run);
             var k := ServedNext(s.link.dev);
             k < |s.tags| == |s.link.dev.container| && s.tags[k] == c
             && s.link.dev.container[k].data == FrameOf(s.claims[c].req)
    ensures Grown(run, run', steps') && Calls(steps') == Calls(steps)
    ensures var s, t := Last(run), Last(run');
            var req := s.claims[c].req;
            && t.hist.received == s.hist.received + 1 && t.hist.failed == s.hist.failed && t.stats == s.stats
            && t.ceiling == s.ceiling
            && t.ring == s.ring && t.pc == s.pc && t.cur == c && t.link.Emulated? && InOrder(t.link)
            && t.claims == s.claims[c := s.claims[c].(service := Served(s.link.dev.mem, ReplyTo(s.link.dev.mem, req)))]
            && t.cpc.Match? && t.cpc.i == 0 && t.cpc.frame == ReplyTo(s.link.dev.mem, req)
            && t.cpc.h.session == req.msg.header.session && t.cpc.h.sequence == req.msg.header.sequence
  {
    Nonempty(run, steps);
    hide Calls, Run, Inv, FrameOf, Encodable, ServedNext, Busy, ReplyTo, InOrder, ConsumerStep, ConsumerReady, Returns;
    var s := Last(run);
    ConsumerCan(run, steps);
    Reply(s, c);
    run', steps' := GoConsumer(run, steps, RecvDone(Ok(ReplyTo(s.link.dev.mem, s.claims[c].req))));
    ReplyNamesItself(s.link.dev.mem, s.claims[c].req);
    run', steps' := ReadsHeader(run', steps');
  }

  /** What the emulated device returns to the receiving consumer, and what becomes of it. */
  lemma {:induction false} Reply(s: S, c: nat)
    requires ConsumerReady(s) && s.cpc == Receiving && s.link.Emulated? && InOrder(s.link)
    requires Busy(s.link.dev) != {} && c < |s.claims| && Encodable(s.claims[c].req)
    requires var k := ServedNext(s.link.dev);
             k < |s.tags| == |s.link.dev.container| && s.tags[k] == c
             && s.link.dev.container[k].data == FrameOf(s.claims[c].req)
    ensures var reply := ReplyTo(s.link.dev.mem, s.claims[c].req);
            var t := ConsumerStep(s, RecvDone(Ok(reply)));
            && Returns(s, RecvDone(Ok(reply)))
            && t.ring == s.ring && t.pc == s.pc && t.cur == c && t.link.Emulated? && InOrder(t.link)
            && t.cpc == Parsing(reply)
            && t.hist.received == s.hist.received + 1 && t.hist.failed == s.hist.failed && t.stats == s.stats
            && t.ceiling == s.ceiling
            && t.claims == s.claims[c := s.claims[c].(service := Served(s.link.dev.mem, reply))]
  {
    hide Inv, FrameOf, Encodable, Busy, Exec, Frame, Serve, Parses, McuStep, Wired, AllParse;
    StepBusy(s.link.dev, MAX_FRAME_SIZE);
    ServeFrame(s.link.dev.mem, Sendable(s.claims[c].req));
    FrameOfIs(s.claims[c].req);
    StillInOrder(s.link.dev);
  }

  lemma {:induction false} FrameOfIs(req: Request)
    requires Encodable(req)
    ensures FrameOf(req) == Frame(Sendable(req))
  {
  }

  lemma {:induction false} ReplyNamesItself(mem: Memory, req: Request)
    requires Encodable(req)
    ensures var h := DecodeHeader(ReplyTo(mem, req));
            h.Ok? && h.value.session == req.msg.header.session && h.value.sequence == req.msg.header.sequence
  {
    hide Exec, Frame, DecodeHeader;
    ServeFrame(mem, Sendable(req));
  }

  lemma {:induction false} ReadsHeader(run: seq<S>, steps: seq<Step>) returns (run': seq<S>, steps': seq<Step>)
    requires Run(run, steps) && Last(run).cpc.Parsing? && InOrder(Last(run).link)
             && DecodeHeader(Last(run).cpc.frame).Ok?
    ensures Onward(run, steps, run', steps')
    ensures var s, t := Last(run), Last(run');
            && t.ring == s.ring && t.pc == s.pc && t.claims == s.claims && t.cur == s.cur && t.link == s.link
            && t.stats == s.stats && t.ceiling == s.ceiling
            && t.cpc == Match(s.cpc.frame, DecodeHeader(s.cpc.frame).value, 0)
  {
    Nonempty(run, steps);
    hide Calls, Run, Inv, InOrder, DecodeHeader;
    run', steps' := Consumes(run, steps);
  }

  lemma {:induction false} StillInOrder(d: Device)
    requires Wired(d) && AllParse(d) && Busy(d) != {}
    ensures Wired(McuStep(d, MAX_FRAME_SIZE).0) && AllParse(McuStep(d, MAX_FRAME_SIZE).0)
  {
    hide Serve, Parses;
    StepBusy(d, MAX_FRAME_SIZE);
  }

  /** The consumer passes an entry that does not have the response's key. */
  lemma {:induction false} PassesBy(run: seq<S>, steps: seq<Step>) returns (run': seq<S>, steps': seq<Step>)
    requires Run(run, steps) && Last(run).cpc.Match? && Last(run).cpc.i < |Last(run).ring| && InOrder(Last(run).link)
    requires !HasKey(Last(run).ring[Last(run).cpc.i], Last(run).cpc.h)
    ensures Onward(run, steps, run', steps')
    ensures var s := Last(run); Last(run') == MoveCPC(s, Match(s.cpc.frame, s.cpc.h, s.cpc.i + 1))
  {
    Nonempty(run, steps);
    hide Calls, Run, InOrder, Inv, Wired, AllParse;
    var s := Last(run);
    run', steps' := Consumes(run, steps);
    if s.ring[s.cpc.i].state == Sent {
      run', steps' := Consumes(run', steps');
      if s.ring[s.cpc.i].owner == s.cpc.h.session {
        run', steps' := Consumes(run', steps');
      }
    }
  }

  /** Entry `i` is the first with the response's key: the consumer settles on it. */
  lemma {:induction false} Settles(run: seq<S>, steps: seq<Step>, i: nat) returns (run': seq<S>, steps': seq<Step>)
    requires Run(run, steps) && Last(run).cpc.Match? && Last(run).cpc.i == 0 && InOrder(Last(run).link)
    requires i < |Last(run).ring| && HasKey(Last(run).ring[i], Last(run).cpc.h)
    requires forall j | 0 <= j < i :: !HasKey(Last(run).ring[j], Last(run).cpc.h)
    ensures Onward(run, steps, run', steps')
    ensures Last(run') == MoveCPC(Last(run), CopyReply(Last(run).cpc.frame, Last(run).cpc.h, i))
  {
    Nonempty(run, steps);
    hide Calls, Run, InOrder, HasKey;
    var s := Last(run);
    run', steps' := run, steps;
    var j := 0;
    while j < i
      invariant 0 <= j <= i && Onward(run, steps, run', steps')
      invariant Last(run') == MoveCPC(s, Match(s.cpc.frame, s.cpc.h, j))
    {
      run', steps' := PassesBy(run', steps');
      j := j + 1;
    }
    run', steps' := Picks(run', steps');
  }

  /** The consumer looks at an entry that has the response's key. */
  lemma {:induction false} Picks(run: seq<S>, steps: seq<Step>) returns (run': seq<S>, steps': seq<Step>)
    requires Run(run, steps) && Last(run).cpc.Match? && Last(run).cpc.i < |Last(run).ring| && InOrder(Last(run).link)
    requires HasKey(Last(run).ring[Last(run).cpc.i], Last(run).cpc.h)
    ensures Onward(run, steps, run', steps')
    ensures var s := Last(run); Last(run') == MoveCPC(s, CopyReply(s.cpc.frame, s.cpc.h, s.cpc.i))
  {
    Nonempty(run, steps);
    hide Calls, Run, InOrder, Inv, Wired, AllParse;
    run', steps' := Consumes(run, steps);
    run', steps' := Consumes(run', steps');
    run', steps' := Consumes(run', steps');
  }

  /** An entry with a response in it. */
  function Replied(e: Entry, frame: seq<byte>): Entry
    requires |frame| <= |e.rsp|
  {
    e.(state := Done, rsp := Overlay(e.rsp, frame), rspLen := |frame|)
  }

  /** The consumer copies the response to entry `i` and publishes it. */
  lemma {:induction false} Delivers(run: seq<S>, steps: seq<Step>, i: nat) returns (run': seq<S>, steps': seq<Step>)
    requires Run(run, steps) && Last(run).cpc.CopyReply? && Last(run).cpc.i == i && InOrder(Last(run).link)
    requires i < |Last(run).ring| && Last(run).ring[i].state == Sent
    ensures Onward(run, steps, run', steps')
    ensures var s, t, c := Last(run), Last(run'), Last(run).ring[i].claim;
            && c < |s.claims| && |s.cpc.frame| <= |s.ring[i].rsp|
            && t.ring == s.ring[i := Replied(s.ring[i], s.cpc.frame)]
            && t.claims == s.claims[c := s.claims[c].(dones := s.claims[c].dones + 1)]
            && t.pc == s.pc && t.cur == s.cur && t.link == s.link && t.cpc == Ceiling && t.ceiling == s.ceiling
            && t.stats.inFlight == s.stats.inFlight - 1
  {
    Nonempty(run, steps);
    hide Calls, Run, InOrder, Inv, Wired, AllParse, Overlay;
    run', steps' := Copies(run, steps, i);
    run', steps' := Consumes(run', steps');
    run', steps' := Consumes(run', steps');
  }

  lemma {:induction false} Copies(run: seq<S>, steps: seq<Step>, i: nat) returns (run': seq<S>, steps': seq<Step>)
    requires Run(run, steps) && Last(run).cpc.CopyReply? && Last(run).cpc.i == i && InOrder(Last(run).link)
    requires i < |Last(run).ring|
    ensures Onward(run, steps, run', steps')
    ensures var s := Last(run);
            && s.ring[i].claim < |s.claims| && |s.cpc.frame| <= |s.ring[i].rsp|
            && var e := s.ring[i].(rsp := Overlay(s.ring[i].rsp, s.cpc.frame), rspLen := |s.cpc.frame|);
            Last(run') == s.(ring := s.ring[i := e], cpc := ReleaseReply(i))
  {
    Nonempty(run, steps);
    hide Calls, Run, InOrder, Inv, Wired, AllParse, Overlay;
    var s := Last(run);
    run', steps' := Consumes(run, steps);
    assert Last(run').claims == s.claims;
    run', steps' := Consumes(run', steps');
    assert Last(run').claims == s.claims;
  }

  /** A waiting client finds its entry DONE and reads the response. */
  lemma {:induction false} Reads(run: seq<S>, steps: seq<Step>, p: nat, c: nat)
    returns (run': seq<S>, steps': seq<Step>)
    requires Run(run, steps) && p < |Last(run).pc| && Last(run).pc[p].Waiting? && Last(run).pc[p].c == c
    requires ProducerReady(Last(run), p) && Last(run).ring[Last(run).claims[c].idx].state == Done
    ensures Onward(run, steps, run', steps')
    ensures var s := Last(run);
            var e := s.ring[s.claims[c].idx];
            var cl := s.claims[c].(outcome := ReadOut(e.rsp[..e.rspLen], s.claims[c].req.room));
            Last(run') == s.(claims := s.claims[c := cl], pc := s.pc[p := Releasing(c)])
  {
    Nonempty(run, steps);
    hide Calls, Run, FrameOf, Encodable, Overlay, ReadOut;
    var s := Last(run);
    run', steps' := GoProducer(run, steps, p);
    run', steps' := GoProducer(run', steps', p);
    assert Last(run').pc == s.pc[p := Releasing(c)] && Last(run').ring == s.ring;
  }

  /** It releases the entry. */
  lemma {:induction false} Releases(run: seq<S>, steps: seq<Step>, p: nat) returns (run': seq<S>, steps': seq<Step>)
    requires Run(run, steps) && p < |Last(run).pc| && Last(run).pc[p].Releasing? && ProducerReady(Last(run), p)
    requires Last(run).ring[Last(run).claims[Last(run).pc[p].c].idx].state == Done
    ensures Onward(run, steps, run', steps')
    ensures var s := Last(run);
            var i := s.claims[s.pc[p].c].idx;
            Last(run') == s.(ring := s.ring[i := s.ring[i].(state := Free)], pc := s.pc[p := Idle])
  {
    Nonempty(run, steps);
    hide Calls, Run, FrameOf, Encodable, Overlay, ReadOut;
    var s := Last(run);
    run', steps' := GoProducer(run, steps, p);
    var c := s.pc[p].c;
    assert s.claims[c := s.claims[c]] == s.claims;
  }
}
