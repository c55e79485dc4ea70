/**
 The lock-free command path as a transition system.  Any number of producers
 run `ncmp_slot_enqueue` and `ncmp_slot_wait`; one consumer runs the loop of
 `ncmpd_comm_thread`.  Every compare-and-swap, field write and transport call is
 one step, and steps of different threads interleave freely.  Filling a buffer
 may show any intermediate contents before the final one.

 Fields marked as history are not in the source: they record which claim an
 entry belongs to and what happened to each claim.
 */
module Ring {
  import opened Bytes
  import opened Wire
  import opened Codec
  import opened Token
  import opened Device

  const ENTRY_BUF_SIZE := MAX_FRAME_SIZE

  datatype QState = Free | Claimed | Posted | Sent | Done | Abandoned

  /** A ring entry with its two buffers; `claim` is history. */
  datatype Entry = Entry(state: QState, owner: uint32, sequence: uint32, reqLen: nat, rspLen: nat,
                         req: seq<byte>, rsp: seq<byte>, claim: nat)

  /**
   One call of `ncmp_client_exec`: the key, the message with its payload buffer,
   the room for the response, and the spin budget (0 waits for ever).
   */
  datatype Request = Request(session: uint32, sequence: uint32, msg: Message, room: Room, budget: nat)

  /** What a call came to; a call that returns has filled in `head`, whether or not the parameters fit. */
  datatype Outcome = Pending | Refused | TimedOut | Returned(response: Result<Message>, head: Head)

  /** The client's response structure as it is handed in. */
  const BLANK := Head(Header(0, 0, 0, 0, 0), [0, 0, 0, 0, 0, 0, 0, 0])

  /** The token state a request was executed in, and the reply. */
  datatype Service = NotServed | Served(mem: Memory, reply: seq<byte>)

  /** History of one claim of an entry. */
  datatype Claim = Claim(idx: nat, producer: nat, req: Request, sends: nat, dones: nat, abandoned: bool,
                         outcome: Outcome, service: Service)

  /** Where a producer is; `c` is the number of its claim. */
  datatype PC =
    | Idle
    | Claiming(req: Request, i: nat)
    | Encoding(c: nat)
    | RollBack(c: nat)
    | SetOwner(c: nat)
    | SetSequence(c: nat)
    | SetReqLen(c: nat)
    | SetRspLen(c: nat)
    | Posting(c: nat)
    | Waiting(c: nat, spins: nat)
    | AbandonSent(c: nat)
    | AbandonPosted(c: nat)
    | Recheck(c: nat)
    | Reading(c: nat)
    | Releasing(c: nat)

  /** Where the consumer is. */
  datatype CPC =
    | Ceiling
    | Take(i: nat)
    | TakeCas(i: nat)
    | ReserveMax(i: nat)
    | ReserveTotal(i: nat)
    | ReserveSlot(i: nat)
    | Sending(i: nat)
    | Unreserve(i: nat)
    | Requeue(i: nat)
    | DrainCheck
    | Receiving
    | Parsing(frame: seq<byte>)
    | Match(frame: seq<byte>, h: Header, i: nat)
    | MatchOwner(frame: seq<byte>, h: Header, i: nat)
    | MatchSequence(frame: seq<byte>, h: Header, i: nat)
    | DropReply
    | CopyReply(frame: seq<byte>, h: Header, i: nat)
    | SetReplyLen(frame: seq<byte>, h: Header, i: nat)
    | ReleaseReply(i: nat)
    | Publish(i: nat)
    | Discard(i: nat)

  datatype Stats = Stats(inFlight: int, maxInFlight: int, totalSent: nat)

  /** History of the consumer: sends that succeeded or failed, responses received and parsed, the peak. */
  datatype History = History(sent: nat, failed: nat, received: nat, drained: nat, peak: int)

  /** Either transport: one that may do anything, or the emulated device. */
  datatype Link = Wild | Emulated(dev: Device)

  /**
   `tags` (which claim each container holds) and `cur` (the claim whose reply
   was received last) are history.
   */
  datatype S = S(ring: seq<Entry>, claims: seq<Claim>, pc: seq<PC>, cpc: CPC, ceiling: nat,
                 stats: Stats, hist: History, link: Link, tags: seq<nat>, cur: nat)

  /** What a transport call returns. */
  datatype IO = NoCall | SendDone(ok: bool) | RecvDone(r: Result<seq<byte>>)

  datatype Step =
    | Start(p: nat, req: Request)
    | Producer(p: nat)
    | Scribble(p: nat, bytes: seq<byte>)
    | Consumer(io: IO)
    | ScribbleReply(bytes: seq<byte>)

  // ---- Requests ----

  /** Encoding into an entry's buffer succeeds. */
  predicate Encodable(req: Request) {
    ValidLens(req.msg.lens) && Sum(req.msg.lens) <= |req.msg.params|
  }

  lemma {:induction false} EncodableIff(req: Request)
    ensures Encodable(req) <==> EncodeOutcome(req.msg.lens, Room.Some(|req.msg.params|), ENTRY_BUF_SIZE).Ok?
  {
  }

  function Sendable(req: Request): (m: Message)
    requires Encodable(req)
    ensures WellFormed(m)
  {
    req.msg.(params := req.msg.params[..Sum(req.msg.lens)])
  }

  function FrameOf(req: Request): (f: seq<byte>)
    requires Encodable(req)
    ensures FIXED <= |f| <= ENTRY_BUF_SIZE
  {
    Frame(Sendable(req))
  }

  /** The length `ncmp_wire_encode` reports; 0 when it fails. */
  function EncodedLen(req: Request): nat {
    if Encodable(req) then |FrameOf(req)| else 0
  }

  /** What decoding a response leaves the client with; the result of decoding is not looked at. */
  function ReadOut(frame: seq<byte>, room: Room): Outcome {
    Returned(Decode(frame, room), HeadAfter(frame, BLANK))
  }

  /** `memcpy` to the start of a buffer. */
  function Overlay(buf: seq<byte>, bytes: seq<byte>): (r: seq<byte>)
    requires |bytes| <= |buf|
    ensures |r| == |buf| && r[..|bytes|] == bytes
  {
    bytes + buf[|bytes|..]
  }

  // ---- Building blocks of steps ----

  function MovePC(s: S, p: nat, pc: PC): S
    requires p < |s.pc|
  {
    s.(pc := s.pc[p := pc])
  }

  /** A producer changes its entry and claim record, and moves on. */
  function ProducerUpdate(s: S, p: nat, c: nat, e: Entry, cl: Claim, pc: PC): S
    requires p < |s.pc| && c < |s.claims| && s.claims[c].idx < |s.ring|
  {
    s.(ring := s.ring[s.claims[c].idx := e], claims := s.claims[c := cl], pc := s.pc[p := pc])
  }

  /** The consumer changes an entry and its claim record, and moves on. */
  function ConsumerUpdate(s: S, i: nat, e: Entry, cl: Claim, cpc: CPC): S
    requires i < |s.ring| && s.ring[i].claim < |s.claims|
  {
    s.(ring := s.ring[i := e], claims := s.claims[s.ring[i].claim := cl], cpc := cpc)
  }

  function MoveCPC(s: S, cpc: CPC): S { s.(cpc := cpc) }

  // ---- The producer ----

  /** FREE -> CLAIMED */
  function ClaimEntry(s: S, p: nat, req: Request, i: nat): S
    requires p < |s.pc| && i < |s.ring|
  {
    var c := |s.claims|;
    s.(ring := s.ring[i := s.ring[i].(state := Claimed, claim := c)],
       claims := s.claims + [Claim(i, p, req, 0, 0, false, Pending, NotServed)],
       pc := s.pc[p := Encoding(c)])
  }

  /** The claim a producer works for. */
  predicate HasClaim(pc: PC) { !pc.Idle? && !pc.Claiming? }

  /** What a producer's next action takes for granted: its entry exists and the buffers have their sizes. */
  predicate ProducerReady(s: S, p: nat)
    requires p < |s.pc|
  {
    HasClaim(s.pc[p]) ==>
      && s.pc[p].c < |s.claims| && s.claims[s.pc[p].c].idx < |s.ring|
      && var e := s.ring[s.claims[s.pc[p].c].idx];
      |e.req| == ENTRY_BUF_SIZE && e.rspLen <= |e.rsp|
  }

  /** The next atomic action of producer `p`. */
  function ProducerStep(s: S, p: nat): S
    requires p < |s.pc| && !s.pc[p].Idle? && ProducerReady(s, p)
  {
    if s.pc[p].Claiming? then
      var i := s.pc[p].i;
      if i >= |s.ring| then MovePC(s, p, Idle)
      else if s.ring[i].state == Free then ClaimEntry(s, p, s.pc[p].req, i)
      else MovePC(s, p, s.pc[p].(i := i + 1))
    else
      var c := s.pc[p].c;
      var cl := s.claims[c];
      var e := s.ring[cl.idx];
      match s.pc[p]
      case Encoding(_) =>
        if Encodable(cl.req) then ProducerUpdate(s, p, c, e.(req := Overlay(e.req, FrameOf(cl.req))), cl, SetOwner(c))
        else MovePC(s, p, RollBack(c))
      case RollBack(_) =>
        ProducerUpdate(s, p, c, Cas(e, Claimed, Free), cl.(outcome := Refused), Idle)
      case SetOwner(_) => ProducerUpdate(s, p, c, e.(owner := cl.req.session), cl, SetSequence(c))
      case SetSequence(_) => ProducerUpdate(s, p, c, e.(sequence := cl.req.sequence), cl, SetReqLen(c))
      case SetReqLen(_) =>
        ProducerUpdate(s, p, c, e.(reqLen := EncodedLen(cl.req)), cl, SetRspLen(c))
      case SetRspLen(_) => ProducerUpdate(s, p, c, e.(rspLen := 0), cl, Posting(c))
      case Posting(_) =>
        if e.state == Claimed then ProducerUpdate(s, p, c, e.(state := Posted), cl, Waiting(c, 0))
        else ProducerUpdate(s, p, c, e, cl.(outcome := Refused), Idle)
      case Waiting(_, spins) =>
        if e.state == Done then MovePC(s, p, Reading(c))
        else if cl.req.budget > 0 && spins + 1 > cl.req.budget then MovePC(s, p, AbandonSent(c))
        else MovePC(s, p, Waiting(c, spins + 1))
      case AbandonSent(_) =>
        if e.state == Sent then Abandon(s, p, c, e, cl) else MovePC(s, p, AbandonPosted(c))
      case AbandonPosted(_) =>
        if e.state == Posted then Abandon(s, p, c, e, cl) else MovePC(s, p, Recheck(c))
      case Recheck(_) =>
        if e.state == Done then MovePC(s, p, Reading(c))
        else ProducerUpdate(s, p, c, e, cl.(outcome := TimedOut), Idle)
      case Reading(_) =>
        ProducerUpdate(s, p, c, e, cl.(outcome := ReadOut(e.rsp[..e.rspLen], cl.req.room)), Releasing(c))
      case Releasing(_) => ProducerUpdate(s, p, c, Cas(e, Done, Free), cl, Idle)
  }

  function Cas(e: Entry, from: QState, to: QState): Entry {
    if e.state == from then e.(state := to) else e
  }

  function Abandon(s: S, p: nat, c: nat, e: Entry, cl: Claim): S
    requires p < |s.pc| && c < |s.claims| && s.claims[c].idx < |s.ring|
  {
    ProducerUpdate(s, p, c, e.(state := Abandoned), cl.(abandoned := true, outcome := TimedOut), Idle)
  }

  // ---- The consumer ----

  /** The consumer has taken entry `cpc.i` for sending or for a response. */
  predicate Handling(cpc: CPC) {
    && !cpc.Ceiling? && !cpc.DrainCheck? && !cpc.Receiving? && !cpc.Parsing? && !cpc.DropReply?
    && !cpc.Take? && !cpc.TakeCas? && !cpc.Match?
  }

  /** What the consumer's next action takes for granted, the state of the emulated device included. */
  predicate ConsumerReady(s: S) {
    && (Handling(s.cpc) || s.cpc.TakeCas? ==> s.cpc.i < |s.ring|)
    && (Handling(s.cpc) || (s.cpc.TakeCas? && s.ring[s.cpc.i].state == Posted) ==> s.ring[s.cpc.i].claim < |s.claims|)
    && (s.cpc.CopyReply? ==> |s.cpc.frame| <= |s.ring[s.cpc.i].rsp|)
    && (s.link.Emulated? ==> Wired(s.link.dev) && AllParse(s.link.dev))
  }

  /** The bytes the consumer hands to the transport. */
  function Outgoing(e: Entry): seq<byte> {
    if e.reqLen <= |e.req| then e.req[..e.reqLen] else e.req
  }

  /** A successful send, with the device staging the frame if there is one. */
  function SendOk(s: S, i: nat): S
    requires i < |s.ring| && s.ring[i].claim < |s.claims|
  {
    var cl := s.claims[s.ring[i].claim];
    var t := ConsumerUpdate(s, i, s.ring[i], cl.(sends := cl.sends + 1), Ceiling);
    var u := t.(hist := t.hist.(sent := t.hist.sent + 1));
    if s.link.Wild? then u
    else
      var rc := IngestOutcome(s.link.dev, Outgoing(s.ring[i]));
      u.(link := Emulated(Ingest(s.link.dev, Outgoing(s.ring[i]))),
         tags := if rc.Ok? && rc.value < |s.tags| then s.tags[rc.value := s.ring[i].claim] else s.tags)
  }

  /** The container the device serves next. */
  function ServedNext(d: Device): nat
    requires Wired(d)
  {
    At(d, NextStaged(d, 0))
  }

  /** A response frame arrives. */
  function RecvOk(s: S, frame: seq<byte>): S
    requires s.link.Emulated? ==> Wired(s.link.dev) && AllParse(s.link.dev)
  {
    var t := s.(cpc := Parsing(frame), hist := s.hist.(received := s.hist.received + 1));
    if s.link.Wild? then t
    else
      var k := ServedNext(s.link.dev);
      var dev := McuStep(s.link.dev, MAX_FRAME_SIZE).0;
      if k < |s.tags| && s.tags[k] < |s.claims| then
        var c := s.tags[k];
        t.(link := Emulated(dev), cur := c,
           claims := s.claims[c := s.claims[c].(service := Served(s.link.dev.mem, frame))])
      else t.(link := Emulated(dev))
  }

  /** Wrap-around of the counter is not modelled; it is shown never to go below zero. */
  function Charge(s: S, delta: int): S {
    var n := s.stats.inFlight + delta;
    s.(stats := s.stats.(inFlight := n), hist := s.hist.(peak := if n > s.hist.peak then n else s.hist.peak))
  }

  /** The next atomic action of the consumer; `io` is what a transport call returns. */
  function ConsumerStep(s: S, io: IO): S
    requires ConsumerReady(s)
  {
    match s.cpc
    case Ceiling => MoveCPC(s, if s.stats.inFlight < s.ceiling then Take(0) else DrainCheck)
    case Take(i) =>
      if i >= |s.ring| then MoveCPC(s, DrainCheck)
      else if s.ring[i].state == Posted then MoveCPC(s, TakeCas(i))
      else MoveCPC(s, Take(i + 1))
    case TakeCas(i) =>
      if s.ring[i].state == Posted then
        ConsumerUpdate(s, i, s.ring[i].(state := Sent), s.claims[s.ring[i].claim], ReserveMax(i))
      else MoveCPC(s, Take(i + 1))
    case ReserveMax(i) =>
      var after := s.stats.inFlight + 1;
      var most := if after > s.stats.maxInFlight then after else s.stats.maxInFlight;
      MoveCPC(s, ReserveTotal(i)).(stats := s.stats.(maxInFlight := most))
    case ReserveTotal(i) =>
      MoveCPC(s, ReserveSlot(i)).(stats := s.stats.(totalSent := s.stats.totalSent + 1))
    case ReserveSlot(i) => MoveCPC(Charge(s, 1), Sending(i))
    case Sending(i) =>
      if io.SendDone? && io.ok then SendOk(s, i) else MoveCPC(s, Unreserve(i))
    case Unreserve(i) =>
      var t := Charge(s, -1);
      MoveCPC(t.(hist := t.hist.(failed := t.hist.failed + 1)), Requeue(i))
    case Requeue(i) =>
      ConsumerUpdate(s, i, Cas(s.ring[i], Sent, Posted), s.claims[s.ring[i].claim], DrainCheck)
    case DrainCheck => MoveCPC(s, if s.stats.inFlight == 0 then Ceiling else Receiving)
    case Receiving =>
      if io.RecvDone? && io.r.Ok? then RecvOk(s, io.r.value)
      else if s.link.Emulated? then MoveCPC(s, Ceiling).(link := Emulated(McuStep(s.link.dev, MAX_FRAME_SIZE).0))
      else MoveCPC(s, Ceiling)
    case Parsing(frame) =>
      var h := DecodeHeader(frame);
      if h.Err? then MoveCPC(s, Ceiling)
      else MoveCPC(s, Match(frame, h.value, 0)).(hist := s.hist.(drained := s.hist.drained + 1))
    case Match(frame, h, i) =>
      if i >= |s.ring| then MoveCPC(s, DropReply)
      else if s.ring[i].state == Sent then MoveCPC(s, MatchOwner(frame, h, i))
      else MoveCPC(s, Match(frame, h, i + 1))
    case MatchOwner(frame, h, i) =>
      MoveCPC(s, if s.ring[i].owner == h.session then MatchSequence(frame, h, i) else Match(frame, h, i + 1))
    case MatchSequence(frame, h, i) =>
      MoveCPC(s, if s.ring[i].sequence == h.sequence then CopyReply(frame, h, i) else Match(frame, h, i + 1))
    case DropReply => MoveCPC(Charge(s, -1), Ceiling)
    case CopyReply(frame, h, i) =>
      ConsumerUpdate(s, i, s.ring[i].(rsp := Overlay(s.ring[i].rsp, frame)), s.claims[s.ring[i].claim],
                     SetReplyLen(frame, h, i))
    case SetReplyLen(frame, h, i) =>
      ConsumerUpdate(s, i, s.ring[i].(rspLen := |frame|), s.claims[s.ring[i].claim], ReleaseReply(i))
    case ReleaseReply(i) => MoveCPC(Charge(s, -1), Publish(i))
    case Publish(i) =>
      var cl := s.claims[s.ring[i].claim];
      if s.ring[i].state == Sent then
        ConsumerUpdate(s, i, s.ring[i].(state := Done), cl.(dones := cl.dones + 1), Ceiling)
      else MoveCPC(s, Discard(i))
    case Discard(i) =>
      ConsumerUpdate(s, i, Cas(s.ring[i], Abandoned, Free), s.claims[s.ring[i].claim], Ceiling)
  }

  // ---- Interleavings ----

  /** The indices a step uses are in range. */
  predicate Ready(s: S, step: Step) {
    match step
    case Start(_, _) => true
    case Producer(p) => p < |s.pc| ==> ProducerReady(s, p)
    case Scribble(p, _) => p < |s.pc| ==> ProducerReady(s, p)
    case Consumer(_) => ConsumerReady(s)
    case ScribbleReply(_) => ConsumerReady(s)
  }

  /** What a transport may return: anything that fits the receive buffer, or what the emulated device answers. */
  predicate Returns(s: S, io: IO)
    requires ConsumerReady(s)
  {
    if s.cpc.Sending? then
      io.SendDone? && (s.link.Emulated? ==> (io.ok <==> IngestOutcome(s.link.dev, Outgoing(s.ring[s.cpc.i])).Ok?))
    else if s.cpc.Receiving? then
      && io.RecvDone? && (io.r.Ok? ==> |io.r.value| <= MAX_FRAME_SIZE)
      && (s.link.Emulated? ==> io.r == McuStep(s.link.dev, MAX_FRAME_SIZE).1)
    else io.NoCall?
  }

  /** Which steps the threads can take. */
  predicate Enabled(s: S, step: Step)
    requires Ready(s, step)
  {
    match step
    case Start(p, _) => p < |s.pc| && s.pc[p].Idle?
    case Producer(p) => p < |s.pc| && !s.pc[p].Idle?
    case Scribble(p, bytes) => p < |s.pc| && s.pc[p].Encoding? && |bytes| == ENTRY_BUF_SIZE
    case Consumer(io) => Returns(s, io)
    case ScribbleReply(bytes) => s.cpc.CopyReply? && |bytes| == |s.ring[s.cpc.i].rsp|
  }

  function Next(s: S, step: Step): S
    requires Ready(s, step) && Enabled(s, step)
  {
    match step
    case Start(p, req) => MovePC(s, p, Claiming(req, 0))
    case Producer(p) => ProducerStep(s, p)
    case Scribble(p, bytes) =>
      var c := s.pc[p].c;
      ProducerUpdate(s, p, c, s.ring[s.claims[c].idx].(req := bytes), s.claims[c], s.pc[p])
    case Consumer(io) => ConsumerStep(s, io)
    case ScribbleReply(bytes) =>
      var i := s.cpc.i;
      ConsumerUpdate(s, i, s.ring[i].(rsp := bytes), s.claims[s.ring[i].claim], s.cpc)
  }

  predicate Moves(s: S, step: Step, t: S) {
    Ready(s, step) && Enabled(s, step) && t == Next(s, step)
  }

  /** A freshly created slot: every entry FREE, no thread at work, nothing counted. */
  predicate Initial(s: S) {
    && (forall i | 0 <= i < |s.ring| ::
          s.ring[i].state == Free && |s.ring[i].req| == |s.ring[i].rsp| == ENTRY_BUF_SIZE && s.ring[i].rspLen == 0)
    && s.claims == [] && (forall p | 0 <= p < |s.pc| :: s.pc[p] == Idle)
    && s.cpc == Ceiling && s.stats == Stats(0, 0, 0) && s.hist == History(0, 0, 0, 0, 0)
    && (s.link.Emulated? ==>
          && Wired(s.link.dev) && |s.tags| == |s.link.dev.container|
          && forall k | 0 <= k < |s.tags| :: s.link.dev.container[k] == IDLE)
  }

  predicate MovesAt(run: seq<S>, steps: seq<Step>, k: nat)
    requires |run| == |steps| + 1 && k < |steps|
  {
    Moves(run[k], steps[k], run[k + 1])
  }

  /** Any finite run from a fresh slot. */
  predicate Run(run: seq<S>, steps: seq<Step>) {
    && |run| == |steps| + 1 && Initial(run[0])
    && forall k | 0 <= k < |steps| :: MovesAt(run, steps, k)
  }
}
