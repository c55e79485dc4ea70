/**
 Ring, codec and emulated device together.  The invariant ties every container
 to the claim it holds and every reply to the claim it answers.
 */
module System {
  import opened Bytes
  import opened Wire
  import opened Token
  import opened Device
  import opened DeviceLaws
  import opened Ring
  import opened RingSafety
  import opened RingRuns
  import opened InFlight

  // ---- Premises ----

  /** The key a request is enqueued under is the one in its header. */
  predicate Addressed(req: Request) {
    req.session == req.msg.header.session && req.sequence == req.msg.header.sequence
  }

  predicate InFlightState(q: QState) { q == Sent || q == Abandoned }

  /** No two entries in flight share a key. */
  predicate DistinctKeys(s: S) {
    forall i, j | 0 <= i < |s.ring| && 0 <= j < |s.ring|
                  && InFlightState(s.ring[i].state) && InFlightState(s.ring[j].state)
                  && s.ring[i].owner == s.ring[j].owner && s.ring[i].sequence == s.ring[j].sequence :: i == j
  }

  // ---- The invariant ----

  /** Claim `c` is sent, not completed, and still owns its entry. */
  ghost predicate Flying(s: S, c: nat) {
    && c < |s.claims| && var cl := s.claims[c];
    && Encodable(cl.req) && cl.sends == 1 && cl.dones == 0 && Live(s, c)
  }

  ghost predicate Live(s: S, c: nat)
    requires c < |s.claims|
  {
    var i := s.claims[c].idx;
    i < |s.ring| && s.ring[i].claim == c && InFlightState(s.ring[i].state)
  }

  /** A container is idle or holds the frame of the claim it is tagged with. */
  ghost predicate ContainerOk(s: S, k: nat)
    requires s.link.Emulated? && k < |s.tags| == |s.link.dev.container|
  {
    s.link.dev.container[k] == IDLE ||
    (&& Flying(s, s.tags[k]) && s.claims[s.tags[k]].service.NotServed?
     && s.link.dev.container[k] == Container(FrameOf(s.claims[s.tags[k]].req), true))
  }

  /** A recorded reply is the token's reply to this very request, and a returned response was decoded from it. */
  ghost predicate Truthful(cl: Claim) {
    && (cl.service.Served? ==>
          Encodable(cl.req) && cl.sends == 1 && ReplyTo(cl.service.mem, cl.req) == cl.service.reply)
    && (cl.outcome.Returned? ==>
          cl.service.Served? && cl.outcome == ReadOut(cl.service.reply, cl.req.room))
  }

  /** What the token in state `mem` replies to a request. */
  function ReplyTo(mem: Memory, req: Request): (reply: seq<byte>)
    requires Encodable(req)
    ensures |reply| <= MAX_FRAME_SIZE
  {
    ServeFrame(mem, Sendable(req));
    Frame(Exec(mem, Received(Sendable(req))).1)
  }

  /** A DONE entry holds the reply recorded for its claim. */
  ghost predicate DoneOk(s: S, i: nat)
    requires i < |s.ring|
  {
    s.ring[i].state == Done ==> Holds(s.ring[i], s.ring[i].claim, s)
  }

  ghost predicate Holds(e: Entry, c: nat, s: S) {
    && c < |s.claims| && s.claims[c].service.Served?
    && e.rspLen <= |e.rsp| && e.rsp[..e.rspLen] == s.claims[c].service.reply
  }

  ghost predicate DeviceInv(s: S) {
    && s.link.Emulated? && Wired(s.link.dev) && |s.tags| == |s.link.dev.container|
    && (forall k | 0 <= k < |s.tags| :: ContainerOk(s, k))
    && (forall k, l | 0 <= k < l < |s.tags| && s.link.dev.container[k].busy && s.link.dev.container[l].busy ::
          s.tags[k] != s.tags[l])
    && (forall c | 0 <= c < |s.claims| :: Truthful(s.claims[c]))
    && (forall i | 0 <= i < |s.ring| :: DoneOk(s, i))
  }

  /** The consumer has received a reply and not finished with it. */
  predicate InHand(cpc: CPC) {
    Delivering(cpc) || cpc.Parsing? || cpc.Publish? || cpc.Discard?
  }

  predicate HasFrame(cpc: CPC) {
    || cpc.Parsing? || cpc.Match? || cpc.MatchOwner? || cpc.MatchSequence? || cpc.CopyReply? || cpc.SetReplyLen?
  }

  /** The reply in hand is that of claim `cur`, and it goes to no other entry. */
  ghost predicate HandInv(s: S) {
    InHand(s.cpc) ==>
      && Flying(s, s.cur) && s.claims[s.cur].service.Served?
      && var idx := s.claims[s.cur].idx;
      && (HasFrame(s.cpc) ==> s.cpc.frame == s.claims[s.cur].service.reply)
      && (s.cpc.Match? || s.cpc.MatchOwner? || s.cpc.MatchSequence? ==>
            s.cpc.i <= idx || s.ring[idx].state == Abandoned)
      && (s.cpc.DropReply? ==> s.ring[idx].state == Abandoned)
      && (Handling(s.cpc) && !s.cpc.MatchOwner? && !s.cpc.MatchSequence? ==> s.cpc.i == idx)
      && (s.cpc.ReleaseReply? || s.cpc.Publish? || s.cpc.Discard? ==> Holds(s.ring[idx], s.cur, s))
  }

  /** A sent claim is completed, abandoned, staged in a container, or in the consumer's hand. */
  ghost predicate Tracked(s: S, c: nat)
    requires s.link.Emulated? && c < |s.claims| && |s.tags| == |s.link.dev.container|
  {
    s.claims[c].sends == 1 && s.claims[c].dones == 0 && !s.claims[c].abandoned ==>
      (InHand(s.cpc) && s.cur == c) || (exists k :: InContainer(s, k, c))
  }

  ghost predicate InContainer(s: S, k: nat, c: nat)
    requires s.link.Emulated? && |s.tags| == |s.link.dev.container|
  {
    k < |s.tags| && s.tags[k] == c && s.link.dev.container[k].busy
  }

  ghost predicate Occupied(s: S) {
    && s.link.Emulated? && |Busy(s.link.dev)| == s.hist.sent - s.hist.received
    && s.hist.received == s.hist.drained + (if s.cpc.Parsing? then 1 else 0)
  }

  ghost predicate AllAddressed(s: S) {
    && (forall c | 0 <= c < |s.claims| :: Addressed(s.claims[c].req))
    && (forall p | 0 <= p < |s.pc| && s.pc[p].Claiming? :: Addressed(s.pc[p].req))
  }

  ghost predicate SystemInv(s: S) {
    && Inv(s) && Accounted(s) && AllAddressed(s) && DeviceInv(s) && HandInv(s) && Occupied(s)
    && forall c | 0 <= c < |s.claims| :: Tracked(s, c)
  }

  // ---- Steps that leave the device alone ----

  /** What such a step does to a claim's record; a served claim not kept in hand may be completed. */
  ghost predicate SameFate(cl: Claim, cl': Claim, hand: bool) {
    && cl'.req == cl.req && cl'.idx == cl.idx && cl'.sends == cl.sends && cl.dones <= cl'.dones
    && cl'.service == cl.service
    && (cl.service.NotServed? || hand ==> cl'.dones == cl.dones)
    && (cl.abandoned ==> cl'.abandoned) && (cl'.outcome.Returned? && cl'.outcome != cl.outcome ==> Truthful(cl'))
  }

  ghost predicate Carries(s: S, t: S) {
    && t.link == s.link && t.tags == s.tags && t.cur == s.cur && |s.claims| <= |t.claims| && |t.ring| == |s.ring|
    && (forall c | 0 <= c < |s.claims| :: SameFate(s.claims[c], t.claims[c], InHand(t.cpc)))
    && (forall c | |s.claims| <= c < |t.claims| ::
          t.claims[c].sends == 0 && t.claims[c].service.NotServed? && t.claims[c].outcome.Pending?)
    && (forall i | 0 <= i < |s.ring| :: EntryCarries(s, t.ring[i], i, InHand(t.cpc)))
  }

  ghost predicate EntryCarries(s: S, e': Entry, i: nat, hand: bool)
    requires i < |s.ring|
  {
    var e := s.ring[i];
    && (InFlightState(e.state) && e.claim < |s.claims| && s.claims[e.claim].sends == 1
        && (s.claims[e.claim].service.NotServed? || hand) ==>
          && e'.claim == e.claim && InFlightState(e'.state) && (e.state == Abandoned ==> e'.state == Abandoned)
          && ((s.cpc.ReleaseReply? || s.cpc.Publish? || s.cpc.Discard?) && s.cpc.i == i ==>
                e'.rsp == e.rsp && e'.rspLen == e.rspLen))
    && (e'.state == Done ==>
          || (e.state == Done && e'.claim == e.claim && e'.rsp == e.rsp && e'.rspLen == e.rspLen)
          || Holds(e', e'.claim, s))
  }

  lemma {:induction false} FlyingCarries(s: S, t: S, c: nat)
    requires Carries(s, t) && Flying(s, c) && (s.claims[c].service.NotServed? || InHand(t.cpc))
    ensures Flying(t, c)
  {
    hide Truthful, Encodable, InHand;
    assert EntryCarries(s, t.ring[s.claims[c].idx], s.claims[c].idx, InHand(t.cpc));
    assert SameFate(s.claims[c], t.claims[c], InHand(t.cpc));
  }

  lemma {:induction false} DeviceCarries(s: S, t: S)
    requires DeviceInv(s) && Carries(s, t)
    ensures DeviceInv(t)
  {
    hide Flying, Live, FrameOf, ReplyTo, InHand;
    forall k | 0 <= k < |t.tags| ensures ContainerOk(t, k) {
      assert ContainerOk(s, k);
      if s.link.dev.container[k] != IDLE {
        FlyingIsAClaim(s, s.tags[k]);
        FlyingCarries(s, t, s.tags[k]);
        assert SameFate(s.claims[s.tags[k]], t.claims[s.tags[k]], InHand(t.cpc));
      }
    }
    forall c | 0 <= c < |t.claims| ensures Truthful(t.claims[c]) {
      if c < |s.claims| {
        assert Truthful(s.claims[c]) && SameFate(s.claims[c], t.claims[c], InHand(t.cpc));
      }
    }
    forall i | 0 <= i < |t.ring| ensures DoneOk(t, i) {
      assert DoneOk(s, i) && EntryCarries(s, t.ring[i], i, InHand(t.cpc));
      if t.ring[i].state == Done {
        assert SameFate(s.claims[t.ring[i].claim], t.claims[t.ring[i].claim], InHand(t.cpc));
      }
    }
  }

  lemma {:induction false} FlyingIsAClaim(s: S, c: nat)
    requires Flying(s, c)
    ensures && c < |s.claims| && var cl := s.claims[c];
            && Encodable(cl.req) && cl.sends == 1 && cl.dones == 0 && cl.idx < |s.ring|
            && s.ring[cl.idx].claim == c && InFlightState(s.ring[cl.idx].state)
  {
  }

  lemma {:induction false} HandCarries(s: S, t: S)
    requires HandInv(s) && Carries(s, t) && t.cpc == s.cpc
    ensures HandInv(t)
  {
    hide Flying, Live, FrameOf, ReplyTo, Truthful;
    if InHand(s.cpc) {
      FlyingCarries(s, t, s.cur);
      FlyingIsAClaim(s, s.cur);
      FlyingIsAClaim(t, s.cur);
      var idx := s.claims[s.cur].idx;
      assert SameFate(s.claims[s.cur], t.claims[s.cur], true);
      assert EntryCarries(s, t.ring[idx], idx, true);
    }
  }

  lemma {:induction false} TrackedCarries(s: S, t: S, c: nat)
    requires DeviceInv(s) && Carries(s, t) && c < |t.claims| && (c < |s.claims| ==> Tracked(s, c))
    requires InHand(s.cpc) && !InHand(t.cpc) && s.cur < |t.claims| ==>
               t.claims[s.cur].dones == 1 || t.claims[s.cur].abandoned
    ensures Tracked(t, c)
  {
    hide ContainerOk, Truthful, DoneOk, EntryCarries;
    if c < |s.claims| {
      assert SameFate(s.claims[c], t.claims[c], InHand(t.cpc));
      forall k: nat | InContainer(s, k, c) ensures InContainer(t, k, c) {
      }
    }
  }

  // ---- Producers ----

  lemma {:induction false} ProducerCarries(s: S, step: Step, t: S)
    requires Inv(s) && DeviceInv(s) && Moves(s, step, t) && !step.Consumer? && !step.ScribbleReply?
    ensures Carries(s, t) && t.cpc == s.cpc && t.hist == s.hist && t.stats == s.stats && t.ceiling == s.ceiling
  {
    hide EntryOk, EntryInv, ProducerInv, ConsumerInv, FrameOf, ContainerOk, DoneOk, Truthful, Decode, ReplyTo,
         EntryCarries,
      SameFate, ProducerStep;
    if step.Producer? {
      ProducerFates(s, step.p);
      forall i | 0 <= i < |s.ring| ensures |t.ring| == |s.ring| && EntryCarries(s, t.ring[i], i, InHand(t.cpc)) {
        ProducerWrites(s, step.p, i);
        ProducerEntry(s, step.p, t, i, InHand(t.cpc));
      }
    } else {
      forall i | 0 <= i < |s.ring| ensures EntryCarries(s, t.ring[i], i, InHand(t.cpc)) {
        SameEntry(s, t.ring[i], i, InHand(t.cpc));
      }
      forall c | 0 <= c < |s.claims| ensures SameFate(s.claims[c], s.claims[c], InHand(t.cpc)) {
        FateIsReflexive(s.claims[c], InHand(t.cpc));
      }
    }
  }

  lemma {:induction false} FateIsReflexive(cl: Claim, hand: bool)
    ensures SameFate(cl, cl, hand)
  {
  }

  lemma {:induction false} SameEntry(s: S, e': Entry, i: nat, hand: bool)
    requires i < |s.ring| && e'.state == s.ring[i].state && e'.claim == s.ring[i].claim && e'.rsp == s.ring[i].rsp
             && e'.rspLen == s.ring[i].rspLen
    ensures EntryCarries(s, e', i, hand)
  {
  }

  lemma {:induction false} ProducerEntry(s: S, p: nat, t: S, i: nat, hand: bool)
    requires i < |s.ring| && i < |t.ring| && Disciplined(s, Producer(p), t, i)
    ensures EntryCarries(s, t.ring[i], i, hand)
  {
  }

  lemma {:induction false} ProducerFates(s: S, p: nat)
    requires Inv(s) && DeviceInv(s) && p < |s.pc| && !s.pc[p].Idle? && ProducerReady(s, p)
    ensures var t := ProducerStep(s, p);
            && t.link == s.link && t.tags == s.tags && t.cur == s.cur && t.cpc == s.cpc && t.hist == s.hist
            && t.stats == s.stats
            && t.ceiling == s.ceiling && |s.claims| <= |t.claims| && |t.ring| == |s.ring|
            && (forall c | 0 <= c < |s.claims| :: SameFate(s.claims[c], t.claims[c], InHand(t.cpc)))
            && (forall c | |s.claims| <= c < |t.claims| ::
                  t.claims[c].sends == 0 && t.claims[c].service.NotServed? && t.claims[c].outcome.Pending?)
  {
    hide Inv, DeviceInv, FrameOf, Decode, HeadAfter, Encodable, Overlay, Truthful;
    if s.pc[p].Reading? {
      ReturnIsTruthful(s, p);
    }
  }

  /** What the waiting client decodes is the reply recorded for its claim. */
  lemma {:induction false} ReturnIsTruthful(s: S, p: nat)
    requires Inv(s) && DeviceInv(s) && p < |s.pc| && s.pc[p].Reading? && ProducerReady(s, p)
    ensures Truthful(ProducerStep(s, p).claims[s.pc[p].c])
  {
    hide EntryOk, EntryInv, ProducerInv, ConsumerInv, FrameOf, ContainerOk, Decode, ReplyTo, Encodable;
    OwnEntry(s, p);
    var c := s.pc[p].c;
    assert DoneOk(s, s.claims[c].idx) && Truthful(s.claims[c]);
  }
}
