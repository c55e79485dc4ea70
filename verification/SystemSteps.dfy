/** Every step of the composed system keeps its invariant. */
module SystemSteps {
  import opened Wire
  import opened Token
  import opened Device
  import opened DeviceLaws
  import opened Ring
  import opened RingSafety
  import opened RingRuns
  import opened InFlight
  import opened System

  // ---- The consumer away from the device ----

  /** The step calls no transport that succeeds. */
  predicate Quiet(s: S, io: IO) {
    !(s.cpc.Sending? && io == SendDone(true)) && !s.cpc.Receiving?
  }

  lemma {:induction false} StillRing(s: S, io: IO)
    requires ConsumerReady(s) && Returns(s, io) && Quiet(s, io) && !TouchesRing(s.cpc)
    ensures var t := ConsumerStep(s, io);
            t.ring == s.ring && t.claims == s.claims && t.link == s.link && t.tags == s.tags && t.cur == s.cur
  {
    hide DecodeHeader, AllParse, Wired, Ingest, IngestOutcome, McuStep;
  }

  lemma {:induction false} StillCarries(s: S, t: S)
    requires t.ring == s.ring && t.claims == s.claims && t.link == s.link && t.tags == s.tags && t.cur == s.cur
    ensures Carries(s, t)
  {
    hide EntryCarries, SameFate;
    forall i | 0 <= i < |s.ring| ensures EntryCarries(s, t.ring[i], i, InHand(t.cpc)) {
      SameEntry(s, t.ring[i], i, InHand(t.cpc));
    }
    forall c | 0 <= c < |s.claims| ensures SameFate(s.claims[c], s.claims[c], InHand(t.cpc)) {
      FateIsReflexive(s.claims[c], InHand(t.cpc));
    }
  }

  lemma {:induction false} UpdateCarries(s: S, i: nat, e: Entry, cl: Claim, cpc: CPC)
    requires i < |s.ring| && s.ring[i].claim < |s.claims| && EntryCarries(s, e, i, InHand(cpc))
    requires SameFate(s.claims[s.ring[i].claim], cl, InHand(cpc))
    ensures Carries(s, ConsumerUpdate(s, i, e, cl, cpc))
  {
    hide EntryCarries, SameFate;
    var t := ConsumerUpdate(s, i, e, cl, cpc);
    forall j | 0 <= j < |s.ring| ensures EntryCarries(s, t.ring[j], j, InHand(cpc)) {
      if j != i {
        SameEntry(s, t.ring[j], j, InHand(cpc));
      }
    }
    forall c | 0 <= c < |s.claims| ensures SameFate(s.claims[c], t.claims[c], InHand(cpc)) {
      FateIsReflexive(s.claims[c], InHand(cpc));
    }
  }

  lemma {:induction false} TouchCarries(s: S, io: IO)
    requires Inv(s) && HandInv(s) && ConsumerReady(s) && TouchesRing(s.cpc)
    ensures Carries(s, ConsumerStep(s, io))
  {
    hide EntryOk, EntryInv, ProducerInv, Truthful, DecodeHeader, AllParse, Wired, Encodable, Overlay, Carries, Inv;
    var i := s.cpc.i;
    if s.cpc.TakeCas? {
      if s.ring[i].state == Posted {
        UpdateCarries(s, i, s.ring[i].(state := Sent), s.claims[s.ring[i].claim], ReserveMax(i));
      } else {
        StillCarries(s, MoveCPC(s, Take(i + 1)));
      }
    } else {
      HandledEntry(s);
      var e, cl := s.ring[i], s.claims[s.ring[i].claim];
      var t := ConsumerStep(s, io);
      if s.cpc.Publish? && e.state == Abandoned {
        StillCarries(s, t);
      } else {
        UpdateCarries(s, i, t.ring[i], t.claims[e.claim], t.cpc);
      }
    }
  }

  /** What a quiet step does to the device's side, the claims and the ring. */
  lemma {:induction false} QuietCarries(s: S, io: IO)
    requires Inv(s) && HandInv(s) && ConsumerReady(s) && Returns(s, io) && Quiet(s, io)
    ensures Carries(s, ConsumerStep(s, io))
  {
    hide Inv, HandInv, Returns, ConsumerStep, Carries;
    if TouchesRing(s.cpc) {
      TouchCarries(s, io);
    } else {
      StillRing(s, io);
      StillCarries(s, ConsumerStep(s, io));
    }
  }

  // ---- Matching a reply ----

  /** The header of the reply in hand carries the key of claim `cur`. */
  lemma {:induction false} HandHeader(s: S)
    requires DeviceInv(s) && HandInv(s) && AllAddressed(s) && HasFrame(s.cpc)
    ensures s.cur < |s.claims|
    ensures var req, h := s.claims[s.cur].req, DecodeHeader(s.cpc.frame);
            h.Ok? && h.value.session == req.session && h.value.sequence == req.sequence
  {
    hide ContainerOk, DoneOk, Exec, Frame, DecodeHeader;
    var cl := s.claims[s.cur];
    assert Truthful(cl);
    ServeFrame(cl.service.mem, Sendable(cl.req));
  }

  /** Where the entry of claim `cur` stands. */
  lemma {:induction false} HandEntry(s: S)
    requires Inv(s) && HandInv(s) && InHand(s.cpc)
    ensures && s.cur < |s.claims| && var cl := s.claims[s.cur];
            && cl.idx < |s.ring| && var e := s.ring[cl.idx];
            && e.claim == s.cur && InFlightState(e.state) && e.owner == cl.req.session && e.sequence == cl.req.sequence
            && (e.state == Abandoned ==> cl.abandoned)
  {
    hide FrameOf, Encodable;
    assert EntryInv(s, s.claims[s.cur].idx);
  }

  /** With distinct keys a reply matches the entry of its own claim or none. */
  lemma {:induction false} MatchHand(s: S, io: IO)
    requires Inv(s) && DeviceInv(s) && HandInv(s) && AllAddressed(s) && DistinctKeys(s) && ConsumerReady(s)
    requires s.cpc.Parsing? || s.cpc.Match? || s.cpc.MatchOwner? || s.cpc.MatchSequence?
    ensures var t := ConsumerStep(s, io); HandInv(t) && InHand(t.cpc)
  {
    hide EntryOk, EntryInv, ProducerInv, DeviceInv, AllAddressed, DecodeHeader, AllParse, Wired, Encodable,
         DistinctKeys;
    HandHeader(s);
    HandEntry(s);
    if s.cpc.MatchSequence? && s.ring[s.cpc.i].sequence == s.cpc.h.sequence {
      HandledEntry(s);
      OnlyMatch(s, s.cpc.i, s.claims[s.cur].idx);
    }
  }

  lemma {:induction false} OnlyMatch(s: S, i: nat, j: nat)
    requires DistinctKeys(s) && i < |s.ring| && j < |s.ring| && InFlightState(s.ring[i].state)
             && InFlightState(s.ring[j].state)
    requires s.ring[i].owner == s.ring[j].owner && s.ring[i].sequence == s.ring[j].sequence
    ensures i == j
  {
  }

  lemma {:induction false} DeliverHand(s: S, io: IO)
    requires Inv(s) && HandInv(s) && ConsumerReady(s)
    requires s.cpc.CopyReply? || s.cpc.SetReplyLen? || s.cpc.ReleaseReply? || s.cpc.Publish? || s.cpc.Discard?
             || s.cpc.DropReply?
    ensures var t := ConsumerStep(s, io);
            && HandInv(t)
            && (!InHand(t.cpc) ==> s.cur < |t.claims| && (t.claims[s.cur].dones == 1 || t.claims[s.cur].abandoned))
  {
    hide EntryOk, EntryInv, ProducerInv, DecodeHeader, AllParse, Wired, Encodable, Overlay;
    HandEntry(s);
  }

  // ---- Sending to the device ----

  lemma {:induction false} SendDevice(s: S)
    requires Inv(s) && DeviceInv(s) && s.cpc.Sending? && ConsumerReady(s)
    requires IngestOutcome(s.link.dev, Outgoing(s.ring[s.cpc.i])).Ok?
    ensures DeviceInv(SendOk(s, s.cpc.i))
  {
    hide EntryOk, EntryInv, ProducerInv, Inv, FrameOf, Encodable, ReplyTo, Outgoing, IngestOutcome, Ingest, Truthful,
         ContainerOk, DoneOk;
    var i := s.cpc.i;
    var t, c := SendOk(s, i), s.ring[i].claim;
    SentBytes(s);
    IngestBusy(s.link.dev, Outgoing(s.ring[i]));
    var k := IngestOutcome(s.link.dev, Outgoing(s.ring[i])).value;
    forall l | 0 <= l < |t.tags|
      ensures ContainerOk(t, l) && (l != k && t.link.dev.container[l].busy ==> t.tags[l] != c)
    {
      SendContainer(s, l);
    }
    forall d | 0 <= d < |t.claims| ensures Truthful(t.claims[d]) {
      SendTruthful(s, d);
    }
    forall j | 0 <= j < |t.ring| ensures DoneOk(t, j) {
      assert DoneOk(s, j);
      SameDone(s, t, j);
    }
  }

  lemma {:induction false} SameDone(s: S, t: S, j: nat)
    requires t.ring == s.ring && |t.claims| == |s.claims| && j < |s.ring| && DoneOk(s, j)
    requires forall c | 0 <= c < |s.claims| ::
               s.claims[c].service.Served? ==> t.claims[c].service == s.claims[c].service
    ensures DoneOk(t, j)
  {
  }

  lemma {:induction false} SendTruthful(s: S, d: nat)
    requires Inv(s) && DeviceInv(s) && s.cpc.Sending? && ConsumerReady(s) && d < |s.claims|
    ensures Truthful(SendOk(s, s.cpc.i).claims[d])
  {
    hide EntryOk, EntryInv, ProducerInv, Inv, FrameOf, Encodable, ReplyTo, Outgoing, IngestOutcome, Ingest, ContainerOk,
         DoneOk;
    SentBytes(s);
    assert Truthful(s.claims[d]);
  }

  lemma {:induction false} SendContainer(s: S, l: nat)
    requires Inv(s) && DeviceInv(s) && s.cpc.Sending? && ConsumerReady(s) && l < |s.tags|
    requires IngestOutcome(s.link.dev, Outgoing(s.ring[s.cpc.i])).Ok?
    ensures var t, k := SendOk(s, s.cpc.i), IngestOutcome(s.link.dev, Outgoing(s.ring[s.cpc.i])).value;
            && |t.tags| == |s.tags| && t.link.Emulated? && |t.link.dev.container| == |t.tags| && ContainerOk(t, l)
            && (l != k && t.link.dev.container[l].busy ==> t.tags[l] != s.ring[s.cpc.i].claim)
  {
    hide EntryOk, EntryInv, ProducerInv, FrameOf, Encodable, ReplyTo, Outgoing, IngestOutcome, Ingest, DoneOk;
    SentBytes(s);
    HandledEntry(s);
    assert ContainerOk(s, l);
    assert Truthful(s.claims[s.ring[s.cpc.i].claim]);
    IngestBusy(s.link.dev, Outgoing(s.ring[s.cpc.i]));
  }

  // ---- Receiving from the device ----

  /** Whatever is staged can be parsed. */
  lemma {:induction false} DeviceParses(s: S)
    requires DeviceInv(s)
    ensures AllParse(s.link.dev)
  {
    hide Frame, Parses, Exec;
    forall k | 0 <= k < |s.link.dev.container| && Staged(s.link.dev.container[k])
      ensures Parses(s.link.dev.container[k].data)
    {
      assert ContainerOk(s, k);
      ServeFrame(s.link.dev.mem, Sendable(s.claims[s.tags[k]].req));
    }
  }

  /** With something in flight, a receive yields the reply to the request of the container whose turn it is. */
  lemma {:induction false} DeviceAnswers(s: S)
    requires DeviceInv(s) && AllParse(s.link.dev) && Busy(s.link.dev) != {}
    ensures var k := ServedNext(s.link.dev);
            && k < |s.tags| && Staged(s.link.dev.container[k]) && Flying(s, s.tags[k])
            && s.claims[s.tags[k]].service.NotServed?
            && McuStep(s.link.dev, MAX_FRAME_SIZE).1 == Ok(ReplyTo(s.link.dev.mem, s.claims[s.tags[k]].req))
            && McuStep(s.link.dev, MAX_FRAME_SIZE).0.container == s.link.dev.container[k := IDLE]
            && Wired(McuStep(s.link.dev, MAX_FRAME_SIZE).0)
            && |Busy(McuStep(s.link.dev, MAX_FRAME_SIZE).0)| == |Busy(s.link.dev)| - 1
  {
    hide McuStep, Exec, Frame, Serve, AllParse, Truthful, DoneOk;
    var k := ServedNext(s.link.dev);
    StepBusy(s.link.dev, MAX_FRAME_SIZE);
    assert ContainerOk(s, k);
    ServeFrame(s.link.dev.mem, Sendable(s.claims[s.tags[k]].req));
  }

  lemma {:induction false} ReceiveDevice(s: S)
    requires DeviceInv(s) && AllParse(s.link.dev) && s.cpc.Receiving? && Busy(s.link.dev) != {}
    ensures var k := ServedNext(s.link.dev);
            && k < |s.tags| && s.tags[k] < |s.claims| && Encodable(s.claims[s.tags[k]].req)
            && var t := RecvOk(s, ReplyTo(s.link.dev.mem, s.claims[s.tags[k]].req));
            DeviceInv(t) && HandInv(t)
  {
    hide McuStep, AllParse, ReplyTo, FrameOf, Encodable, ServedNext, Truthful, DoneOk, ContainerOk, Flying;
    DeviceAnswers(s);
    var k := ServedNext(s.link.dev);
    var c := s.tags[k];
    FlyingIsAClaim(s, c);
    var t := RecvOk(s, ReplyTo(s.link.dev.mem, s.claims[c].req));
    forall l | 0 <= l < |t.tags| ensures ContainerOk(t, l) {
      assert ContainerOk(s, l);
      ReceiveContainer(s, t, k, l);
    }
    forall d | 0 <= d < |t.claims| ensures Truthful(t.claims[d]) {
      assert Truthful(s.claims[d]);
      ReceiveTruthful(s.claims[d], t.claims[d], s.link.dev.mem);
    }
    forall j | 0 <= j < |t.ring| ensures DoneOk(t, j) {
      assert DoneOk(s, j);
      SameDone(s, t, j);
    }
    StillFlying(s, t, c);
  }

  lemma {:induction false} StillFlying(s: S, t: S, c: nat)
    requires Flying(s, c) && t.ring == s.ring && c < |t.claims|
    requires var cl, cl' := s.claims[c], t.claims[c];
             cl'.req == cl.req && cl'.idx == cl.idx && cl'.sends == cl.sends && cl'.dones == cl.dones
    ensures Flying(t, c)
  {
  }

  lemma {:induction false} ReceiveTruthful(cl: Claim, cl': Claim, mem: Memory)
    requires Truthful(cl)
    requires cl' == cl
             || (cl.service.NotServed? && Encodable(cl.req) && cl.sends == 1
                 && cl' == cl.(service := Served(mem, ReplyTo(mem, cl.req))))
    ensures Truthful(cl')
  {
    hide ReplyTo, Encodable, Decode;
  }

  lemma {:induction false} ReceiveContainer(s: S, t: S, k: nat, l: nat)
    requires DeviceInv(s) && k < |s.tags| && l < |s.tags| && s.tags[k] < |s.claims| && s.link.dev.container[k].busy
    requires t.link.Emulated? && t.tags == s.tags && t.ring == s.ring
             && t.link.dev.container == s.link.dev.container[k := IDLE]
    requires |t.claims| == |s.claims|
             && t.claims == s.claims[s.tags[k] := s.claims[s.tags[k]].(service := t.claims[s.tags[k]].service)]
    requires ContainerOk(s, l)
    ensures ContainerOk(t, l)
  {
    hide FrameOf, Encodable, Truthful, DoneOk;
  }

  // ---- All steps ----

  lemma {:induction false} AddressedStep(s: S, step: Step, t: S)
    requires Inv(s) && AllAddressed(s) && Moves(s, step, t) && (step.Start? ==> Addressed(step.req))
    ensures AllAddressed(t)
  {
    hide Inv, Moves, Addressed;
    forall c | 0 <= c < |t.claims| ensures Addressed(t.claims[c].req) {
      if c < |s.claims| {
        ClaimStep(s, step, t, c);
      } else {
        NewClaim(s, step, t, c);
      }
    }
    forall p | 0 <= p < |t.pc| && t.pc[p].Claiming? ensures Addressed(t.pc[p].req) {
      NewSearch(s, step, t, p);
    }
  }

  lemma {:induction false} NewClaim(s: S, step: Step, t: S, c: nat)
    requires Moves(s, step, t) && |s.claims| <= c < |t.claims|
    ensures step.Producer? && step.p < |s.pc| && s.pc[step.p].Claiming? && t.claims[c].req == s.pc[step.p].req
  {
    hide Returns, FrameOf, Decode, DecodeHeader, Overlay, SendOk, RecvOk, ConsumerStep;
    if step.Consumer? {
      ConsumerAddsNoClaim(s, step.io);
    } else if step.Scribble? || step.ScribbleReply? {
      ScribbleClaims(s, step);
    }
  }

  lemma {:induction false} NewSearch(s: S, step: Step, t: S, p: nat)
    requires Moves(s, step, t) && p < |t.pc| && t.pc[p].Claiming?
    ensures p < |s.pc| && ((s.pc[p].Claiming? && t.pc[p].req == s.pc[p].req) || step == Start(p, t.pc[p].req))
  {
    hide ProducerStep, ConsumerStep, ConsumerReady, ProducerReady, Returns;
    if step == Producer(p) {
      OwnPlace(s, p);
    } else {
      PlaceKept(s, step, t, p);
    }
  }

  lemma {:induction false} ProducerSystem(s: S, step: Step, t: S)
    requires SystemInv(s) && Moves(s, step, t) && !step.Consumer? && !step.ScribbleReply?
             && (step.Start? ==> Addressed(step.req))
    ensures SystemInv(t)
  {
    hide Inv, Accounted, AllAddressed, DeviceInv, HandInv, Moves, Carries, Tracked;
    StepKeeps(s, step, t);
    AccountedStep(s, step, t);
    AddressedStep(s, step, t);
    ProducerCarries(s, step, t);
    DeviceCarries(s, t);
    HandCarries(s, t);
    AllTracked(s, t);
    assert t.link == s.link by { SameLink(s, t); }
  }

  lemma {:induction false} SameLink(s: S, t: S)
    requires Carries(s, t)
    ensures t.link == s.link && t.tags == s.tags
  {
  }

  lemma {:induction false} AllTracked(s: S, t: S)
    requires DeviceInv(s) && DeviceInv(t) && Carries(s, t) && (forall c | 0 <= c < |s.claims| :: Tracked(s, c))
    requires InHand(s.cpc) && !InHand(t.cpc) && s.cur < |t.claims| ==>
               t.claims[s.cur].dones == 1 || t.claims[s.cur].abandoned
    ensures forall c | 0 <= c < |t.claims| :: Tracked(t, c)
  {
    hide ContainerOk, Truthful, DoneOk, Carries, Tracked, InHand;
    forall c | 0 <= c < |t.claims| ensures Tracked(t, c) {
      TrackedCarries(s, t, c);
    }
  }

  lemma {:induction false} ScribbleSystem(s: S, step: Step, t: S)
    requires SystemInv(s) && Moves(s, step, t) && step.ScribbleReply?
    ensures SystemInv(t)
  {
    hide Inv, Accounted, AllAddressed, DeviceInv, HandInv, Carries, Tracked;
    StepKeeps(s, step, t);
    AccountedStep(s, step, t);
    AddressedStep(s, step, t);
    ScribbleCarries(s, step);
    DeviceCarries(s, t);
    HandCarries(s, t);
    AllTracked(s, t);
  }

  lemma {:induction false} ScribbleCarries(s: S, step: Step)
    requires Inv(s) && step.ScribbleReply? && Ready(s, step) && Enabled(s, step)
    ensures Carries(s, Next(s, step))
  {
    hide EntryOk, EntryInv, ProducerInv, SameFate, Carries;
    var i := s.cpc.i;
    HandledEntry(s);
    FateIsReflexive(s.claims[s.ring[i].claim], true);
    UpdateCarries(s, i, s.ring[i].(rsp := step.bytes), s.claims[s.ring[i].claim], s.cpc);
  }

  lemma {:induction false} QuietSystem(s: S, io: IO)
    requires SystemInv(s) && DistinctKeys(s) && ConsumerReady(s) && Returns(s, io) && Quiet(s, io)
    ensures SystemInv(ConsumerStep(s, io))
  {
    hide Inv, Accounted, AllAddressed, DeviceInv, HandInv, Carries, Tracked, ConsumerStep, Returns, DistinctKeys,
         ConsumerReady;
    var t := ConsumerStep(s, io);
    assert Moves(s, Consumer(io), t);
    StepKeeps(s, Consumer(io), t);
    AccountedStep(s, Consumer(io), t);
    AddressedStep(s, Consumer(io), t);
    QuietCarries(s, io);
    DeviceCarries(s, t);
    QuietHand(s, io);
    AllTracked(s, t);
    SameLink(s, t);
    QuietOccupied(s, io);
  }

  lemma {:induction false} QuietHand(s: S, io: IO)
    requires SystemInv(s) && DistinctKeys(s) && ConsumerReady(s) && Returns(s, io) && Quiet(s, io)
    ensures var t := ConsumerStep(s, io);
            && HandInv(t)
            && (InHand(s.cpc) && !InHand(t.cpc) && s.cur < |t.claims| ==>
                  t.claims[s.cur].dones == 1 || t.claims[s.cur].abandoned)
  {
    hide Inv, Accounted, AllAddressed, DeviceInv, HandInv, Tracked, ConsumerStep, Returns, DistinctKeys, ConsumerReady;
    if s.cpc.Parsing? || s.cpc.Match? || s.cpc.MatchOwner? || s.cpc.MatchSequence? {
      MatchHand(s, io);
    } else if InHand(s.cpc) {
      DeliverHand(s, io);
    } else {
      EmptyHand(s, io);
    }
  }

  lemma {:induction false} EmptyHand(s: S, io: IO)
    requires ConsumerReady(s) && Quiet(s, io) && !InHand(s.cpc)
    ensures HandInv(ConsumerStep(s, io))
  {
    hide IngestOutcome, Ingest, AllParse, Wired;
  }

  lemma {:induction false} QuietOccupied(s: S, io: IO)
    requires SystemInv(s) && ConsumerReady(s) && Returns(s, io) && Quiet(s, io) && ConsumerStep(s, io).link == s.link
    ensures Occupied(ConsumerStep(s, io))
  {
    hide Inv, Accounted, AllAddressed, DeviceInv, HandInv, Tracked, DecodeHeader, AllParse, Wired, Busy, Ingest,
         IngestOutcome, Overlay;
    if s.cpc.Parsing? {
      HandHeader(s);
    }
  }

  lemma {:induction false} SendSystem(s: S, io: IO)
    requires SystemInv(s) && ConsumerReady(s) && Returns(s, io) && s.cpc.Sending? && io == SendDone(true)
    ensures SystemInv(ConsumerStep(s, io))
  {
    hide Inv, Accounted, AllAddressed, DeviceInv, HandInv, Tracked, IngestOutcome, Ingest, Outgoing, Moves, Busy;
    var t := ConsumerStep(s, io);
    assert Moves(s, Consumer(io), t) by { Stepped(s, io); }
    StepKeeps(s, Consumer(io), t);
    AccountedStep(s, Consumer(io), t);
    AddressedStep(s, Consumer(io), t);
    assert IngestOutcome(s.link.dev, Outgoing(s.ring[s.cpc.i])).Ok?;
    SendDevice(s);
    IngestBusy(s.link.dev, Outgoing(s.ring[s.cpc.i]));
    assert HandInv(t) by { NotInHand(t); }
    forall c | 0 <= c < |t.claims| ensures t.link.Emulated? && |t.tags| == |t.link.dev.container| && Tracked(t, c) {
      SendTracked(s, c);
    }
  }

  lemma {:induction false} Stepped(s: S, io: IO)
    requires ConsumerReady(s) && Returns(s, io)
    ensures Moves(s, Consumer(io), ConsumerStep(s, io))
  {
  }

  lemma {:induction false} NotInHand(s: S)
    requires !InHand(s.cpc)
    ensures HandInv(s)
  {
  }

  lemma {:induction false} SendTracked(s: S, c: nat)
    requires DeviceInv(s) && s.cpc.Sending? && ConsumerReady(s) && c < |s.claims| && Tracked(s, c)
    requires IngestOutcome(s.link.dev, Outgoing(s.ring[s.cpc.i])).Ok?
    ensures var t := SendOk(s, s.cpc.i);
            t.link.Emulated? && |t.tags| == |t.link.dev.container| && c < |t.claims| && Tracked(t, c)
  {
    hide ContainerOk, Truthful, DoneOk, IngestOutcome, Ingest, Outgoing, InHand;
    var i := s.cpc.i;
    var t := SendOk(s, i);
    IngestBusy(s.link.dev, Outgoing(s.ring[i]));
    var k := IngestOutcome(s.link.dev, Outgoing(s.ring[i])).value;
    assert !s.link.dev.container[k].busy;
    if c == s.ring[i].claim {
      assert InContainer(t, k, c);
    } else {
      assert !InHand(s.cpc) by { SendingIsNotInHand(s.cpc); }
      forall l: nat | InContainer(s, l, c) ensures InContainer(t, l, c) {
      }
    }
  }

  lemma {:induction false} SendingIsNotInHand(cpc: CPC)
    requires cpc.Sending? || cpc.Receiving?
    ensures !InHand(cpc)
  {
  }

  lemma {:induction false} ReceiveSystem(s: S, io: IO)
    requires SystemInv(s) && ConsumerReady(s) && Returns(s, io) && s.cpc.Receiving?
    ensures SystemInv(ConsumerStep(s, io))
  {
    hide Inv, AllAddressed, DeviceInv, HandInv, Tracked, Moves, Busy, McuStep, AllParse, Wired, Flying, ReplyTo,
         Encodable, ServedNext;
    var t := ConsumerStep(s, io);
    assert Moves(s, Consumer(io), t) by { Stepped(s, io); }
    StepKeeps(s, Consumer(io), t);
    AccountedStep(s, Consumer(io), t);
    AddressedStep(s, Consumer(io), t);
    InFlightIsBusy(s);
    DeviceAnswers(s);
    ReceiveDevice(s);
    forall c | 0 <= c < |t.claims| ensures t.link.Emulated? && |t.tags| == |t.link.dev.container| && Tracked(t, c) {
      ReceiveTracked(s, t, c);
    }
  }

  /** When nothing is reserved or in hand, the counter is the number of occupied containers. */
  lemma {:induction false} InFlightIsBusy(s: S)
    requires Accounted(s) && Occupied(s) && !Reserving(s.cpc) && !Delivering(s.cpc) && !s.cpc.Parsing?
    ensures s.stats.inFlight == |Busy(s.link.dev)|
    ensures s.cpc.Receiving? ==> Busy(s.link.dev) != {}
  {
    hide Busy;
  }

  lemma {:induction false} ReceiveTracked(s: S, t: S, c: nat)
    requires DeviceInv(s) && s.cpc.Receiving? && c < |s.claims| && Tracked(s, c)
    requires t.link.Emulated? && t.tags == s.tags && |t.claims| == |s.claims| && t.cpc.Parsing? && t.cur < |s.claims|
    requires t.claims == s.claims[t.cur := s.claims[t.cur].(service := t.claims[t.cur].service)]
    requires exists k: nat | k < |s.tags| ::
               t.cur == s.tags[k] && t.link.dev.container == s.link.dev.container[k := IDLE]
    ensures |t.tags| == |t.link.dev.container| && Tracked(t, c)
  {
    hide ContainerOk, Truthful, DoneOk;
    forall l: nat | InContainer(s, l, c) && c != t.cur ensures InContainer(t, l, c) {
    }
  }

  /** Every step of the composed system keeps its invariant, as long as no two entries in flight share a key. */
  lemma {:induction false} SystemStep(s: S, step: Step, t: S)
    requires SystemInv(s) && DistinctKeys(s) && Moves(s, step, t) && (step.Start? ==> Addressed(step.req))
    ensures SystemInv(t)
  {
    hide SystemInv, DistinctKeys, ConsumerReady, Returns;
    if step.ScribbleReply? {
      ScribbleSystem(s, step, t);
    } else if !step.Consumer? {
      ProducerSystem(s, step, t);
    } else if Quiet(s, step.io) {
      QuietSystem(s, step.io);
    } else if s.cpc.Sending? {
      SendSystem(s, step.io);
    } else {
      ReceiveSystem(s, step.io);
    }
  }

  lemma {:induction false} SystemInitially(s: S)
    requires Initial(s) && s.link.Emulated?
    ensures SystemInv(s)
  {
    assert forall i | 0 <= i < |s.ring| :: EntryInv(s, i);
    assert forall p | 0 <= p < |s.pc| :: ProducerInv(s, p);
    assert Busy(s.link.dev) == {};
  }
}
