/**
 What every interleaving keeps: each non-FREE entry belongs to one claim, its
 request is written only by the claimant and its response only by the consumer,
 and no claim is sent or completed twice.
 */
module RingSafety {
  import opened Bytes
  import opened Wire
  import opened Device
  import opened Ring

  // ---- The invariant, one entry, producer or consumer at a time ----

  /** The consumer has taken entry `i` and not yet sent it. */
  predicate Taken(cpc: CPC, i: nat) {
    && (cpc.ReserveMax? || cpc.ReserveTotal? || cpc.ReserveSlot? || cpc.Sending? || cpc.Unreserve? || cpc.Requeue?)
    && cpc.i == i
  }

  /** The entry holds the encoding and the key of its claim. */
  ghost predicate Filled(e: Entry, req: Request) {
    && Encodable(req)
    && e.owner == req.session && e.sequence == req.sequence
    && e.reqLen == |FrameOf(req)| <= |e.req| && e.req[..e.reqLen] == FrameOf(req)
  }

  /** The response buffer holds a frame whose header carries the entry's key. */
  ghost predicate Answered(e: Entry) {
    && e.rspLen <= |e.rsp|
    && var h := DecodeHeader(e.rsp[..e.rspLen]);
    h.Ok? && h.value.session == e.owner && h.value.sequence == e.sequence
  }

  ghost predicate EntryOk(cpc: CPC, i: nat, e: Entry, cl: Claim) {
    match e.state
    case Free => true
    case Claimed => cl.sends == 0 && cl.dones == 0 && !cl.abandoned
    case Posted => Filled(e, cl.req) && cl.sends == 0 && cl.dones == 0 && !cl.abandoned
    case Sent => Filled(e, cl.req) && cl.sends == (if Taken(cpc, i) then 0 else 1) && cl.dones == 0 && !cl.abandoned
    case Done => Filled(e, cl.req) && cl.sends == 1 && cl.dones == 1 && !cl.abandoned && Answered(e)
    case Abandoned => Filled(e, cl.req) && cl.sends <= 1 && cl.dones == 0 && cl.abandoned
  }

  ghost predicate ProducerOk(pc: PC, e: Entry, cl: Claim)
    requires HasClaim(pc)
  {
    match pc
    case Encoding(_) => e.state == Claimed
    case RollBack(_) => e.state == Claimed
    case SetOwner(_) => e.state == Claimed && Encoded(e, cl.req)
    case SetSequence(_) => e.state == Claimed && Encoded(e, cl.req) && e.owner == cl.req.session
    case SetReqLen(_) =>
      e.state == Claimed && Encoded(e, cl.req) && e.owner == cl.req.session && e.sequence == cl.req.sequence
    case SetRspLen(_) => e.state == Claimed && Filled(e, cl.req)
    case Posting(_) => e.state == Claimed && Filled(e, cl.req)
    case Waiting(_, _) => InTransit(e.state)
    case AbandonSent(_) => InTransit(e.state)
    case AbandonPosted(_) => InTransit(e.state)
    case Recheck(_) => InTransit(e.state)
    case Reading(_) => e.state == Done
    case Releasing(_) => e.state == Done && cl.outcome == ReadOut(ResponseOf(e), cl.req.room)
  }

  predicate InTransit(q: QState) { q == Posted || q == Sent || q == Done }

  ghost predicate Encoded(e: Entry, req: Request) {
    Encodable(req) && |FrameOf(req)| <= |e.req| && e.req[..|FrameOf(req)|] == FrameOf(req)
  }

  function ResponseOf(e: Entry): seq<byte> {
    if e.rspLen <= |e.rsp| then e.rsp[..e.rspLen] else e.rsp
  }

  /** What the consumer knows about the entry it is handling. */
  ghost predicate ConsumerOk(cpc: CPC, e: Entry, cl: Claim)
    requires Handling(cpc)
  {
    && cl.sends == (if Taken(cpc, cpc.i) then 0 else 1)
    && (cpc.MatchSequence? || cpc.CopyReply? || cpc.SetReplyLen? ==> e.owner == cpc.h.session)
    && (cpc.CopyReply? || cpc.SetReplyLen? ==> e.sequence == cpc.h.sequence)
    && (cpc.SetReplyLen? ==> |cpc.frame| <= |e.rsp| && e.rsp[..|cpc.frame|] == cpc.frame)
    && (cpc.ReleaseReply? || cpc.Publish? || cpc.Discard? ==> Answered(e))
    && (cpc.Discard? ==> e.state == Abandoned)
  }

  /** A received frame fits the buffers, and its header is the one parsed. */
  ghost predicate FrameOk(cpc: CPC) {
    && (cpc.Parsing? ==> |cpc.frame| <= MAX_FRAME_SIZE)
    && (cpc.Match? || cpc.MatchOwner? || cpc.MatchSequence? || cpc.CopyReply? || cpc.SetReplyLen? ==>
          |cpc.frame| <= MAX_FRAME_SIZE && DecodeHeader(cpc.frame) == Ok(cpc.h))
  }

  ghost predicate BuffersOk(e: Entry) {
    |e.req| == |e.rsp| == ENTRY_BUF_SIZE && e.rspLen <= |e.rsp|
  }

  ghost predicate ClaimOk(s: S, cl: Claim) {
    && cl.idx < |s.ring| && cl.producer < |s.pc| && cl.sends <= 1 && cl.dones <= cl.sends
    && (cl.abandoned ==> cl.dones == 0) && (cl.outcome.Returned? ==> cl.dones == 1)
  }

  ghost predicate EntryInv(s: S, i: nat)
    requires i < |s.ring|
  {
    && BuffersOk(s.ring[i])
    && (s.ring[i].state != Free ==>
          && s.ring[i].claim < |s.claims| && s.claims[s.ring[i].claim].idx == i
          && EntryOk(s.cpc, i, s.ring[i], s.claims[s.ring[i].claim]))
  }

  ghost predicate ProducerInv(s: S, p: nat)
    requires p < |s.pc|
  {
    HasClaim(s.pc[p]) ==>
      var c := s.pc[p].c;
      && c < |s.claims| && s.claims[c].producer == p && s.claims[c].idx < |s.ring|
      && var e := s.ring[s.claims[c].idx];
      e.claim == c && e.state != Free && ProducerOk(s.pc[p], e, s.claims[c])
  }

  ghost predicate ConsumerInv(s: S) {
    && FrameOk(s.cpc)
    && (s.cpc.TakeCas? ==> s.cpc.i < |s.ring|)
    && (Handling(s.cpc) ==>
          && s.cpc.i < |s.ring|
          && var e := s.ring[s.cpc.i];
          && (e.state == Sent || e.state == Abandoned) && e.claim < |s.claims|
          && ConsumerOk(s.cpc, e, s.claims[e.claim]))
  }

  ghost predicate Inv(s: S) {
    && (forall c | 0 <= c < |s.claims| :: ClaimOk(s, s.claims[c]))
    && (forall i | 0 <= i < |s.ring| :: EntryInv(s, i))
    && (forall p | 0 <= p < |s.pc| :: ProducerInv(s, p))
    && ConsumerInv(s)
  }

  // ---- Steps as local changes ----

  /** The invariant speaks of the ring, the claims and where the threads are. */
  lemma {:induction false} SameKeeps(s: S, t: S)
    requires Inv(s) && t.ring == s.ring && t.claims == s.claims && t.pc == s.pc && t.cpc == s.cpc
    ensures Inv(t)
  {
    hide EntryOk, ProducerOk, ConsumerOk, BuffersOk, FrameOk;
    assert forall i | 0 <= i < |s.ring| :: EntryInv(s, i) ==> EntryInv(t, i);
    assert forall p | 0 <= p < |s.pc| :: ProducerInv(s, p) ==> ProducerInv(t, p);
    assert forall c | 0 <= c < |s.claims| :: ClaimOk(s, s.claims[c]) ==> ClaimOk(t, t.claims[c]);
  }

  lemma {:induction false} MovePCKeeps(s: S, p: nat, pc: PC)
    requires Inv(s) && p < |s.pc| && ProducerInv(MovePC(s, p, pc), p)
    ensures Inv(MovePC(s, p, pc))
  {
    hide EntryOk, ProducerOk, ConsumerOk, BuffersOk, FrameOk;
    var t := MovePC(s, p, pc);
    assert forall i | 0 <= i < |s.ring| :: EntryInv(s, i) ==> EntryInv(t, i);
    assert forall q | 0 <= q < |s.pc| && q != p :: ProducerInv(s, q) ==> ProducerInv(t, q);
    assert forall c | 0 <= c < |s.claims| :: ClaimOk(s, s.claims[c]) ==> ClaimOk(t, t.claims[c]);
  }

  /** A producer touches only its own entry; nobody else relies on it except the consumer. */
  lemma {:induction false} ProducerUpdateKeeps(s: S, p: nat, c: nat, e: Entry, cl: Claim, pc: PC)
    requires Inv(s) && p < |s.pc| && HasClaim(s.pc[p]) && s.pc[p].c == c
    requires c < |s.claims| && s.claims[c].idx < |s.ring|
    requires e.claim == c && BuffersOk(e) && cl.idx == s.claims[c].idx && cl.producer == p && ClaimOk(s, cl)
    requires e.state != Free ==> EntryOk(s.cpc, cl.idx, e, cl)
    requires HasClaim(pc) ==> pc.c == c && e.state != Free && ProducerOk(pc, e, cl)
    requires Handling(s.cpc) && s.cpc.i == cl.idx ==>
               (e.state == Sent || e.state == Abandoned) && ConsumerOk(s.cpc, e, cl)
    ensures Inv(ProducerUpdate(s, p, c, e, cl, pc))
  {
    hide EntryOk, ProducerOk, ConsumerOk, BuffersOk, FrameOk;
    var t := ProducerUpdate(s, p, c, e, cl, pc);
    assert ProducerInv(s, p);
    forall i | 0 <= i < |t.ring| ensures EntryInv(t, i) {
      assert EntryInv(s, i);
    }
    forall q | 0 <= q < |t.pc| ensures ProducerInv(t, q) {
      assert ProducerInv(s, q);
    }
    forall d | 0 <= d < |t.claims| ensures ClaimOk(t, t.claims[d]) {
      assert ClaimOk(s, s.claims[d]);
    }
    if Handling(s.cpc) {
      assert EntryInv(s, s.cpc.i);
    }
  }

  /** Claiming a FREE entry: nobody else held it. */
  lemma {:induction false} ClaimKeeps(s: S, p: nat, req: Request, i: nat)
    requires Inv(s) && p < |s.pc| && i < |s.ring| && s.ring[i].state == Free && !HasClaim(s.pc[p])
    ensures Inv(ClaimEntry(s, p, req, i))
  {
    hide ConsumerOk, FrameOk, Filled, Answered, Encoded;
    var t := ClaimEntry(s, p, req, i);
    forall j | 0 <= j < |t.ring| ensures EntryInv(t, j) {
      assert EntryInv(s, j);
    }
    forall q | 0 <= q < |t.pc| ensures ProducerInv(t, q) {
      assert ProducerInv(s, q);
    }
    forall d | 0 <= d < |t.claims| ensures ClaimOk(t, t.claims[d]) {
      assert d < |s.claims| ==> ClaimOk(s, s.claims[d]);
    }
  }

  lemma {:induction false} SameTaken(cpc: CPC, cpc': CPC, i: nat, e: Entry, cl: Claim)
    requires Taken(cpc, i) == Taken(cpc', i) && EntryOk(cpc, i, e, cl)
    ensures EntryOk(cpc', i, e, cl)
  {
  }

  lemma {:induction false} MoveCPCKeeps(s: S, cpc: CPC)
    requires Inv(s) && ConsumerInv(MoveCPC(s, cpc))
    requires forall j: nat :: Taken(cpc, j) == Taken(s.cpc, j)
    ensures Inv(MoveCPC(s, cpc))
  {
    hide EntryOk, ProducerOk, ConsumerOk, BuffersOk, FrameOk, Taken;
    var t := MoveCPC(s, cpc);
    forall j | 0 <= j < |t.ring| ensures EntryInv(t, j) {
      assert EntryInv(s, j);
      if s.ring[j].state != Free {
        SameTaken(s.cpc, cpc, j, s.ring[j], s.claims[s.ring[j].claim]);
      }
    }
    assert forall p | 0 <= p < |s.pc| :: ProducerInv(s, p) ==> ProducerInv(t, p);
    assert forall c | 0 <= c < |s.claims| :: ClaimOk(s, s.claims[c]) ==> ClaimOk(t, t.claims[c]);
  }

  /** The consumer changes the entry it is concerned with; the claimant's view must survive. */
  lemma {:induction false} ConsumerUpdateKeeps(s: S, i: nat, e: Entry, cl: Claim, cpc: CPC)
    requires Inv(s) && i < |s.ring| && s.ring[i].state != Free && s.ring[i].claim < |s.claims|
    requires e.claim == s.ring[i].claim && BuffersOk(e) && ClaimOk(s, cl)
    requires cl.idx == i && cl.producer == s.claims[e.claim].producer
    requires e.state != Free ==> EntryOk(cpc, i, e, cl)
    requires forall pc | HasClaim(pc) && pc.c == e.claim && ProducerOk(pc, s.ring[i], s.claims[e.claim]) ::
               e.state != Free && ProducerOk(pc, e, cl)
    requires forall j: nat | j != i :: Taken(cpc, j) == Taken(s.cpc, j)
    requires FrameOk(cpc) && !cpc.TakeCas?
    requires Handling(cpc) ==> cpc.i == i && (e.state == Sent || e.state == Abandoned) && ConsumerOk(cpc, e, cl)
    ensures Inv(ConsumerUpdate(s, i, e, cl, cpc))
  {
    hide EntryOk, ProducerOk, ConsumerOk, BuffersOk, FrameOk, Taken;
    var t := ConsumerUpdate(s, i, e, cl, cpc);
    assert EntryInv(s, i);
    forall j | 0 <= j < |t.ring| ensures EntryInv(t, j) {
      assert EntryInv(s, j);
      if j != i && s.ring[j].state != Free {
        SameTaken(s.cpc, cpc, j, s.ring[j], s.claims[s.ring[j].claim]);
      }
    }
    forall q | 0 <= q < |t.pc| ensures ProducerInv(t, q) {
      assert ProducerInv(s, q);
    }
    forall d | 0 <= d < |t.claims| ensures ClaimOk(t, t.claims[d]) {
      assert ClaimOk(s, s.claims[d]);
    }
  }

  // ---- Every step keeps the invariant ----

  lemma {:induction false} FillKeeps(s: S, p: nat)
    requires Inv(s) && p < |s.pc| && HasClaim(s.pc[p]) && ProducerReady(s, p)
    requires s.pc[p].Encoding? || s.pc[p].RollBack? || s.pc[p].SetOwner? || s.pc[p].SetSequence?
             || s.pc[p].SetReqLen? || s.pc[p].SetRspLen? || s.pc[p].Posting?
    ensures Inv(ProducerStep(s, p))
  {
    hide Inv, EntryInv, ProducerInv, ConsumerInv, FrameOf, Encodable, Overlay, Answered, ConsumerOk;
    OwnEntry(s, p);
    var c := s.pc[p].c;
    var cl := s.claims[c];
    var e := s.ring[cl.idx];
    match s.pc[p]
    case Encoding(_) =>
      if Encodable(cl.req) {
        ProducerUpdateKeeps(s, p, c, e.(req := Overlay(e.req, FrameOf(cl.req))), cl, SetOwner(c));
      } else {
        MoveOwn(s, p, RollBack(c));
      }
    case RollBack(_) => ProducerUpdateKeeps(s, p, c, Cas(e, Claimed, Free), cl.(outcome := Refused), Idle);
    case SetOwner(_) => ProducerUpdateKeeps(s, p, c, e.(owner := cl.req.session), cl, SetSequence(c));
    case SetSequence(_) => ProducerUpdateKeeps(s, p, c, e.(sequence := cl.req.sequence), cl, SetReqLen(c));
    case SetReqLen(_) =>
      ProducerUpdateKeeps(s, p, c, e.(reqLen := EncodedLen(cl.req)), cl, SetRspLen(c));
    case SetRspLen(_) => ProducerUpdateKeeps(s, p, c, e.(rspLen := 0), cl, Posting(c));
    case Posting(_) => ProducerUpdateKeeps(s, p, c, e.(state := Posted), cl, Waiting(c, 0));
  }

  /** What the invariant says about a producer's own entry. */
  lemma {:induction false} OwnEntry(s: S, p: nat)
    requires Inv(s) && p < |s.pc| && HasClaim(s.pc[p])
    ensures var c := s.pc[p].c;
            && c < |s.claims| && ClaimOk(s, s.claims[c]) && s.claims[c].producer == p
            && var i, cl := s.claims[c].idx, s.claims[c];
            var e := s.ring[i];
            && e.claim == c && e.state != Free && BuffersOk(e) && EntryOk(s.cpc, i, e, cl) && ProducerOk(s.pc[p], e, cl)
            && (Handling(s.cpc) && s.cpc.i == i ==>
                  (e.state == Sent || e.state == Abandoned) && ConsumerOk(s.cpc, e, cl))
  {
    hide EntryOk, ProducerOk, ConsumerOk, BuffersOk, FrameOk;
    assert ProducerInv(s, p);
    assert EntryInv(s, s.claims[s.pc[p].c].idx);
  }

  lemma {:induction false} MoveOwn(s: S, p: nat, pc: PC)
    requires Inv(s) && p < |s.pc| && HasClaim(s.pc[p]) && HasClaim(pc) && pc.c == s.pc[p].c
    requires pc.c < |s.claims| && s.claims[pc.c].idx < |s.ring|
             && ProducerOk(pc, s.ring[s.claims[pc.c].idx], s.claims[pc.c])
    ensures Inv(MovePC(s, p, pc))
  {
    hide EntryOk, ProducerOk, ConsumerOk, BuffersOk, FrameOk;
    assert ProducerInv(s, p);
    MovePCKeeps(s, p, pc);
  }

  lemma {:induction false} AbandonKeeps(s: S, p: nat)
    requires Inv(s) && p < |s.pc| && (s.pc[p].AbandonSent? || s.pc[p].AbandonPosted?) && ProducerReady(s, p)
    requires s.ring[s.claims[s.pc[p].c].idx].state == if s.pc[p].AbandonSent? then Sent else Posted
    ensures Inv(ProducerStep(s, p))
  {
    hide Inv, EntryInv, ProducerInv, ConsumerInv, FrameOf, Encodable;
    OwnEntry(s, p);
    var c := s.pc[p].c;
    var cl := s.claims[c];
    ProducerUpdateKeeps(s, p, c, s.ring[cl.idx].(state := Abandoned), cl.(abandoned := true, outcome := TimedOut),
                        Idle);
  }

  lemma {:induction false} WaitKeeps(s: S, p: nat)
    requires Inv(s) && p < |s.pc| && HasClaim(s.pc[p]) && ProducerReady(s, p)
    requires s.pc[p].Waiting? || s.pc[p].AbandonSent? || s.pc[p].AbandonPosted? || s.pc[p].Recheck?
             || s.pc[p].Reading? || s.pc[p].Releasing?
    ensures Inv(ProducerStep(s, p))
  {
    hide Inv, EntryInv, ProducerInv, ConsumerInv, FrameOf, Encodable, Overlay, Answered, Filled, ReadOut;
    OwnEntry(s, p);
    var c := s.pc[p].c;
    var cl := s.claims[c];
    var e := s.ring[cl.idx];
    match s.pc[p]
    case Waiting(_, spins) =>
      if e.state == Done {
        MoveOwn(s, p, Reading(c));
      } else if cl.req.budget > 0 && spins + 1 > cl.req.budget {
        MoveOwn(s, p, AbandonSent(c));
      } else {
        MoveOwn(s, p, Waiting(c, spins + 1));
      }
    case AbandonSent(_) =>
      if e.state == Sent {
        AbandonKeeps(s, p);
      } else {
        MoveOwn(s, p, AbandonPosted(c));
      }
    case AbandonPosted(_) =>
      if e.state == Posted {
        AbandonKeeps(s, p);
      } else {
        MoveOwn(s, p, Recheck(c));
      }
    case Recheck(_) =>
      if e.state == Done {
        MoveOwn(s, p, Reading(c));
      } else {
        ProducerUpdateKeeps(s, p, c, e, cl.(outcome := TimedOut), Idle);
      }
    case Reading(_) =>
      ProducerUpdateKeeps(s, p, c, e, cl.(outcome := ReadOut(e.rsp[..e.rspLen], cl.req.room)), Releasing(c));
    case Releasing(_) => ProducerUpdateKeeps(s, p, c, Cas(e, Done, Free), cl, Idle);
  }

  /** What the invariant says about the entry the consumer handles. */
  lemma {:induction false} HandledEntry(s: S)
    requires Inv(s) && Handling(s.cpc)
    ensures var i := s.cpc.i;
            && i < |s.ring| && s.ring[i].claim < |s.claims|
            && var e, cl := s.ring[i], s.claims[s.ring[i].claim];
            && cl.idx == i && ClaimOk(s, cl) && BuffersOk(e) && (e.state == Sent || e.state == Abandoned)
            && EntryOk(s.cpc, i, e, cl) && ConsumerOk(s.cpc, e, cl) && FrameOk(s.cpc)
  {
    hide EntryOk, ProducerOk, ConsumerOk, BuffersOk, FrameOk;
    assert EntryInv(s, s.cpc.i);
    assert ClaimOk(s, s.claims[s.ring[s.cpc.i].claim]);
  }

  /** The scans that look at one entry after the other. */
  lemma {:induction false} ScanKeeps(s: S, io: IO)
    requires Inv(s) && ConsumerReady(s)
    requires s.cpc.Ceiling? || s.cpc.Take? || s.cpc.DrainCheck? || s.cpc.Parsing? || s.cpc.Match? || s.cpc.DropReply?
             || s.cpc.MatchOwner? || s.cpc.MatchSequence?
    ensures Inv(ConsumerStep(s, io))
  {
    hide EntryInv, ProducerInv, ProducerOk, BuffersOk, Decode, DecodeHeader, Filled, Answered;
    var t := ConsumerStep(s, io);
    if Handling(s.cpc) {
      HandledEntry(s);
    }
    if s.cpc.Match? && s.cpc.i < |s.ring| && s.ring[s.cpc.i].state == Sent {
      SentEntry(s, s.cpc.i);
    }
    MoveCPCKeeps(s, t.cpc);
    SameKeeps(MoveCPC(s, t.cpc), t);
  }

  lemma {:induction false} SentEntry(s: S, i: nat)
    requires Inv(s) && i < |s.ring| && s.ring[i].state == Sent && !Taken(s.cpc, i)
    ensures s.ring[i].claim < |s.claims| && s.claims[s.ring[i].claim].sends == 1
  {
    hide Filled, Answered;
    assert EntryInv(s, i);
  }

  lemma {:induction false} TakeKeeps(s: S, io: IO)
    requires Inv(s) && ConsumerReady(s) && s.cpc.TakeCas?
    ensures Inv(ConsumerStep(s, io))
  {
    hide EntryInv, ProducerInv, Filled, Answered;
    var i := s.cpc.i;
    if s.ring[i].state == Posted {
      PostedEntry(s, i);
      var e := s.ring[i].(state := Sent);
      SameFilled(s.ring[i], e, s.claims[e.claim].req);
      ConsumerUpdateKeeps(s, i, e, s.claims[e.claim], ReserveMax(i));
    } else {
      MoveCPCKeeps(s, Take(i + 1));
    }
  }

  lemma {:induction false} PostedEntry(s: S, i: nat)
    requires Inv(s) && i < |s.ring| && s.ring[i].state == Posted
    ensures && s.ring[i].claim < |s.claims|
            && var e, cl := s.ring[i], s.claims[s.ring[i].claim];
            cl.idx == i && ClaimOk(s, cl) && BuffersOk(e) && EntryOk(s.cpc, i, e, cl)
  {
    hide EntryOk, ProducerOk, ConsumerOk, FrameOk;
    assert EntryInv(s, i);
    assert ClaimOk(s, s.claims[s.ring[i].claim]);
  }

  lemma {:induction false} SameFilled(e: Entry, e': Entry, req: Request)
    requires e'.owner == e.owner && e'.sequence == e.sequence && e'.reqLen == e.reqLen && e'.req == e.req
    ensures Filled(e, req) == Filled(e', req)
  {
  }

  lemma {:induction false} DispatchKeeps(s: S, io: IO)
    requires Inv(s) && ConsumerReady(s) && Handling(s.cpc) && Taken(s.cpc, s.cpc.i)
    ensures Inv(ConsumerStep(s, io))
  {
    hide EntryInv, ProducerInv, Filled, Answered, ConsumerInv, Inv, Ingest, IngestOutcome, Outgoing;
    var t := ConsumerStep(s, io);
    HandledEntry(s);
    var i := s.cpc.i;
    var e, cl := s.ring[i], s.claims[s.ring[i].claim];
    if s.cpc.Sending? && io.SendDone? && io.ok {
      ConsumerUpdateKeeps(s, i, e, cl.(sends := cl.sends + 1), Ceiling);
      SameKeeps(ConsumerUpdate(s, i, e, cl.(sends := cl.sends + 1), Ceiling), t);
    } else if s.cpc.Requeue? {
      SameFilled(e, Cas(e, Sent, Posted), cl.req);
      ConsumerUpdateKeeps(s, i, Cas(e, Sent, Posted), cl, DrainCheck);
    } else {
      StayKeeps(s, t.cpc);
      SameKeeps(MoveCPC(s, t.cpc), t);
    }
  }

  /** The consumer goes on handling the same entry. */
  lemma {:induction false} StayKeeps(s: S, cpc: CPC)
    requires Inv(s) && Handling(s.cpc) && Handling(cpc) && cpc.i == s.cpc.i && cpc.i < |s.ring| && FrameOk(cpc)
    requires forall j: nat :: Taken(cpc, j) == Taken(s.cpc, j)
    requires s.ring[cpc.i].claim < |s.claims| && ConsumerOk(cpc, s.ring[cpc.i], s.claims[s.ring[cpc.i].claim])
    ensures Inv(MoveCPC(s, cpc))
  {
    hide EntryOk, EntryInv, ProducerInv, ConsumerOk, FrameOk, Taken;
    MoveCPCKeeps(s, cpc);
  }

  lemma {:induction false} ReceiveKeeps(s: S, io: IO)
    requires Inv(s) && ConsumerReady(s) && s.cpc.Receiving? && Returns(s, io)
    ensures Inv(ConsumerStep(s, io))
  {
    hide EntryInv, ProducerInv, EntryOk, McuStep, AllParse;
    var t := ConsumerStep(s, io);
    MoveCPCKeeps(s, t.cpc);
    var u := MoveCPC(s, t.cpc);
    if t.claims != s.claims {
      var c := s.tags[ServedNext(s.link.dev)];
      ServiceKeeps(u, c, t.claims[c].service);
      SameKeeps(u.(claims := t.claims), t);
    } else {
      SameKeeps(u, t);
    }
  }

  lemma {:induction false} ServiceKeeps(s: S, c: nat, service: Service)
    requires Inv(s) && c < |s.claims|
    ensures Inv(s.(claims := s.claims[c := s.claims[c].(service := service)]))
  {
    hide BuffersOk, FrameOk, Filled, Answered, Encoded, Taken;
    var t := s.(claims := s.claims[c := s.claims[c].(service := service)]);
    assert forall i | 0 <= i < |s.ring| :: EntryInv(s, i) ==> EntryInv(t, i);
    assert forall p | 0 <= p < |s.pc| :: ProducerInv(s, p) ==> ProducerInv(t, p);
    assert forall d | 0 <= d < |s.claims| :: ClaimOk(s, s.claims[d]) ==> ClaimOk(t, t.claims[d]);
  }

  lemma {:induction false} CopyKeeps(s: S, io: IO)
    requires Inv(s) && ConsumerReady(s) && (s.cpc.CopyReply? || s.cpc.SetReplyLen?)
    ensures Inv(ConsumerStep(s, io))
  {
    hide EntryInv, ProducerInv, ConsumerInv, Inv, FrameOf, Encodable, Decode, DecodeHeader;
    HandledEntry(s);
    var i := s.cpc.i;
    var e, cl, frame := s.ring[i], s.claims[s.ring[i].claim], s.cpc.frame;
    if s.cpc.CopyReply? {
      ConsumerUpdateKeeps(s, i, e.(rsp := Overlay(e.rsp, frame)), cl, SetReplyLen(frame, s.cpc.h, i));
    } else {
      ConsumerUpdateKeeps(s, i, e.(rspLen := |frame|), cl, ReleaseReply(i));
    }
  }

  lemma {:induction false} PublishKeeps(s: S, io: IO)
    requires Inv(s) && ConsumerReady(s) && (s.cpc.ReleaseReply? || s.cpc.Publish? || s.cpc.Discard?)
    ensures Inv(ConsumerStep(s, io))
  {
    hide EntryInv, ProducerInv, ConsumerInv, Inv, FrameOf, Encodable, Decode, DecodeHeader;
    HandledEntry(s);
    var i := s.cpc.i;
    var e, cl := s.ring[i], s.claims[s.ring[i].claim];
    if s.cpc.ReleaseReply? {
      StayKeeps(s, Publish(i));
      SameKeeps(MoveCPC(s, Publish(i)), ConsumerStep(s, io));
    } else if s.cpc.Discard? {
      ConsumerUpdateKeeps(s, i, e.(state := Free), cl, Ceiling);
    } else if e.state == Sent {
      ConsumerUpdateKeeps(s, i, e.(state := Done), cl.(dones := cl.dones + 1), Ceiling);
    } else {
      StayKeeps(s, Discard(i));
    }
  }

  lemma {:induction false} ScribbleKeeps(s: S, step: Step)
    requires Inv(s) && (step.Scribble? || step.ScribbleReply?) && Ready(s, step) && Enabled(s, step)
    ensures Inv(Next(s, step))
  {
    hide EntryInv, ProducerInv, ConsumerInv, Inv, FrameOf, Encodable, Decode, DecodeHeader;
    if step.Scribble? {
      OwnEntry(s, step.p);
      var c := s.pc[step.p].c;
      ProducerUpdateKeeps(s, step.p, c, s.ring[s.claims[c].idx].(req := step.bytes), s.claims[c], s.pc[step.p]);
    } else {
      HandledEntry(s);
      var e := s.ring[s.cpc.i];
      ConsumerUpdateKeeps(s, s.cpc.i, e.(rsp := step.bytes), s.claims[e.claim], s.cpc);
    }
  }

  /** Every step of every thread keeps the invariant. */
  lemma {:induction false} StepKeeps(s: S, step: Step, t: S)
    requires Inv(s) && Moves(s, step, t)
    ensures Inv(t)
  {
    hide EntryOk, EntryInv, ProducerOk, ConsumerOk, BuffersOk, FrameOk, ConsumerInv;
    match step
    case Start(p, req) => MovePCKeeps(s, p, Claiming(req, 0));
    case Producer(p) => ProducerKeeps(s, p);
    case Consumer(io) => ConsumerKeeps(s, io);
    case _ => ScribbleKeeps(s, step);
  }

  lemma {:induction false} ProducerKeeps(s: S, p: nat)
    requires Inv(s) && p < |s.pc| && !s.pc[p].Idle? && ProducerReady(s, p)
    ensures Inv(ProducerStep(s, p))
  {
    hide EntryOk, EntryInv, ProducerOk, ConsumerOk, BuffersOk, FrameOk, ConsumerInv;
    match s.pc[p]
    case Claiming(req, i) =>
      if i >= |s.ring| {
        MovePCKeeps(s, p, Idle);
      } else if s.ring[i].state == Free {
        ClaimKeeps(s, p, req, i);
      } else {
        MovePCKeeps(s, p, Claiming(req, i + 1));
      }
    case Waiting(_, _) => WaitKeeps(s, p);
    case AbandonSent(_) => WaitKeeps(s, p);
    case AbandonPosted(_) => WaitKeeps(s, p);
    case Recheck(_) => WaitKeeps(s, p);
    case Reading(_) => WaitKeeps(s, p);
    case Releasing(_) => WaitKeeps(s, p);
    case _ => FillKeeps(s, p);
  }

  lemma {:induction false} ConsumerKeeps(s: S, io: IO)
    requires Inv(s) && ConsumerReady(s) && Returns(s, io)
    ensures Inv(ConsumerStep(s, io))
  {
    hide Inv, Returns, ConsumerReady, ConsumerStep;
    match s.cpc
    case TakeCas(_) => TakeKeeps(s, io);
    case ReserveMax(_) => DispatchKeeps(s, io);
    case ReserveTotal(_) => DispatchKeeps(s, io);
    case ReserveSlot(_) => DispatchKeeps(s, io);
    case Sending(_) => DispatchKeeps(s, io);
    case Unreserve(_) => DispatchKeeps(s, io);
    case Requeue(_) => DispatchKeeps(s, io);
    case Receiving => ReceiveKeeps(s, io);
    case CopyReply(_, _, _) => CopyKeeps(s, io);
    case SetReplyLen(_, _, _) => CopyKeeps(s, io);
    case ReleaseReply(_) => PublishKeeps(s, io);
    case Publish(_) => PublishKeeps(s, io);
    case Discard(_) => PublishKeeps(s, io);
    case _ => ScanKeeps(s, io);
  }

  /** Nothing a thread's next action takes for granted can fail: every index is in range and every copy fits. */
  lemma {:induction false} NeverStuck(s: S, step: Step)
    requires Inv(s) && (s.link.Emulated? ==> Wired(s.link.dev) && AllParse(s.link.dev))
    ensures Ready(s, step)
  {
    hide EntryOk, ProducerOk, ConsumerOk;
    if (step.Producer? || step.Scribble?) && step.p < |s.pc| && HasClaim(s.pc[step.p]) {
      OwnEntry(s, step.p);
    }
    if Handling(s.cpc) {
      HandledEntry(s);
    } else if s.cpc.TakeCas? && s.ring[s.cpc.i].state == Posted {
      PostedEntry(s, s.cpc.i);
    }
  }

  /** The invariant holds in every state of every run. */
  lemma {:induction false} RunKeeps(run: seq<S>, steps: seq<Step>, k: nat)
    requires Run(run, steps) && k < |run|
    ensures Inv(run[k])
  {
    if k == 0 {
      assert forall i | 0 <= i < |run[0].ring| :: EntryInv(run[0], i);
      assert forall p | 0 <= p < |run[0].pc| :: ProducerInv(run[0], p);
    } else {
      RunKeeps(run, steps, k - 1);
      assert MovesAt(run, steps, k - 1);
      StepKeeps(run[k - 1], steps[k - 1], run[k]);
    }
  }
}
