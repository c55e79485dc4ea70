/**
 The concurrent command path behaves like a sequential token: the order in which
 requests are served explains every response, and respects real time.  A staged
 request is served within one round of the containers.
 */
module Serial {
  import opened Wire
  import opened Token
  import opened TokenLaws
  import opened Device
  import opened DeviceLaws
  import opened Ring
  import opened RingSafety
  import opened InFlight
  import opened System
  import opened SystemSteps
  import opened Correlation

  /** The step in which a request is served and its reply received. */
  predicate Serves(s: S, step: Step) {
    s.cpc.Receiving? && step.Consumer? && step.io.RecvDone? && step.io.r.Ok?
  }

  /** The claims served before point `l` of a run, in the order of service. */
  ghost function Order(run: seq<S>, steps: seq<Step>, l: nat): seq<nat>
    requires |run| == |steps| + 1 && l < |run|
  {
    if l == 0 then []
    else Order(run, steps, l - 1) + if Serves(run[l - 1], steps[l - 1]) then [run[l].cur] else []
  }

  ghost predicate Orderly(s: S, order: seq<nat>) {
    forall j | 0 <= j < |order| :: order[j] < |s.claims| && Encodable(s.claims[order[j]].req)
  }

  /** A request as the token sees it. */
  function Told(req: Request): (m: Message)
    requires Encodable(req)
    ensures Held(m)
  {
    Received(Sendable(req))
  }

  ghost function Messages(s: S, order: seq<nat>): (ms: seq<Message>)
    requires Orderly(s, order)
    ensures |ms| == |order| && forall j | 0 <= j < |ms| :: ms[j] == Told(s.claims[order[j]].req) && Held(ms[j])
  {
    seq(|order|, j requires 0 <= j < |order| => Told(s.claims[order[j]].req))
  }

  /** The `j`th served claim got the reply of a sequential token that had executed the ones before. */
  ghost predicate Explained(s: S, mem: Memory, order: seq<nat>, j: nat)
    requires Orderly(s, order) && j < |order|
  {
    s.claims[order[j]].service.Served? &&
    s.claims[order[j]].service.mem == ExecAll(mem, Messages(s, order)[..j])
  }

  ghost predicate SerialInv(s: S, mem: Memory, order: seq<nat>) {
    && s.link.Emulated? && Orderly(s, order) && s.link.dev.mem == ExecAll(mem, Messages(s, order))
    && (forall j | 0 <= j < |order| :: Explained(s, mem, order, j))
    && (forall i, j | 0 <= i < j < |order| :: order[i] != order[j])
    && (forall c | 0 <= c < |s.claims| && s.claims[c].service.Served? :: c in order)
  }

  /** A step that serves nothing leaves token memory and replies as they are. */
  lemma {:induction false} NotServing(s: S, step: Step, t: S)
    requires SystemInv(s) && Moves(s, step, t) && !Serves(s, step)
    ensures t.link.Emulated? && t.link.dev.mem == s.link.dev.mem && |s.claims| <= |t.claims|
    ensures forall c | 0 <= c < |s.claims| ::
              t.claims[c].service == s.claims[c].service && t.claims[c].req == s.claims[c].req
    ensures forall c | |s.claims| <= c < |t.claims| :: t.claims[c].service.NotServed?
  {
    hide Inv, Accounted, AllAddressed, DeviceInv, HandInv, Tracked, Carries, ConsumerStep;
    if !step.Consumer? {
      NotServingOthers(s, step, t);
    } else if Quiet(s, step.io) {
      QuietCarries(s, step.io);
      ServicesCarry(s, t);
    } else if s.cpc.Sending? {
      SendServices(s, step.io);
    } else {
      MustAnswer(s, step.io);
    }
  }

  lemma {:induction false} NotServingOthers(s: S, step: Step, t: S)
    requires SystemInv(s) && Moves(s, step, t) && !step.Consumer?
    ensures t.link == s.link && |s.claims| <= |t.claims|
    ensures forall c | 0 <= c < |s.claims| ::
              t.claims[c].service == s.claims[c].service && t.claims[c].req == s.claims[c].req
    ensures forall c | |s.claims| <= c < |t.claims| :: t.claims[c].service.NotServed?
  {
    hide Inv, Accounted, AllAddressed, DeviceInv, HandInv, Tracked, Carries;
    if step.ScribbleReply? {
      ScribbleCarries(s, step);
    } else {
      ProducerCarries(s, step, t);
    }
    ServicesCarry(s, t);
  }

  lemma {:induction false} ServicesCarry(s: S, t: S)
    requires Carries(s, t)
    ensures t.link == s.link && |s.claims| <= |t.claims|
    ensures forall c | 0 <= c < |s.claims| ::
              t.claims[c].service == s.claims[c].service && t.claims[c].req == s.claims[c].req
    ensures forall c | |s.claims| <= c < |t.claims| :: t.claims[c].service.NotServed?
  {
    hide EntryCarries, Truthful, InHand;
    assert forall c | 0 <= c < |s.claims| :: SameFate(s.claims[c], t.claims[c], InHand(t.cpc));
  }

  lemma {:induction false} SendServices(s: S, io: IO)
    requires ConsumerReady(s) && s.cpc.Sending? && io == SendDone(true) && s.link.Emulated?
    ensures var t := ConsumerStep(s, io);
            && t.link.Emulated? && t.link.dev.mem == s.link.dev.mem && |t.claims| == |s.claims|
            && forall c | 0 <= c < |s.claims| ::
                 t.claims[c].service == s.claims[c].service && t.claims[c].req == s.claims[c].req
  {
    hide IngestOutcome, AllParse, Wired;
  }

  lemma {:induction false} MustAnswer(s: S, io: IO)
    requires SystemInv(s) && ConsumerReady(s) && Returns(s, io) && s.cpc.Receiving?
    ensures io.RecvDone? && io.r.Ok?
  {
    hide Inv, AllAddressed, DeviceInv, HandInv, Tracked, Busy, McuStep, Flying, ReplyTo, AllParse, Wired;
    InFlightIsBusy(s);
    DeviceAnswers(s);
  }

  /** A serving step: the next container's request is executed and its reply recorded. */
  lemma {:induction false} Serving(s: S, step: Step, t: S)
    requires SystemInv(s) && Moves(s, step, t) && Serves(s, step)
    ensures && t.cur < |s.claims| && s.claims[t.cur].service.NotServed? && Encodable(s.claims[t.cur].req)
            && var service := Served(s.link.dev.mem, ReplyTo(s.link.dev.mem, s.claims[t.cur].req));
            && t.claims == s.claims[t.cur := s.claims[t.cur].(service := service)]
            && t.link.Emulated? && t.link.dev.mem == Exec(s.link.dev.mem, Told(s.claims[t.cur].req)).0
  {
    hide Inv, AllAddressed, HandInv, Tracked, Busy, Exec, Frame, AllParse, Wired, Truthful, DoneOk, Serve, Parses;
    InFlightIsBusy(s);
    DeviceAnswers(s);
    var k := ServedNext(s.link.dev);
    assert ContainerOk(s, k);
    ServeFrame(s.link.dev.mem, Sendable(s.claims[s.tags[k]].req));
    StepBusy(s.link.dev, MAX_FRAME_SIZE);
  }

  /** The messages of an order do not depend on later claims or replies. */
  lemma {:induction false} SameMessages(s: S, t: S, order: seq<nat>)
    requires Orderly(s, order) && |s.claims| <= |t.claims|
    requires forall c | 0 <= c < |s.claims| :: t.claims[c].req == s.claims[c].req
    ensures Orderly(t, order) && Messages(t, order) == Messages(s, order)
  {
    hide Encodable, Told;
  }

  lemma {:induction false} SerialQuiet(s: S, t: S, mem: Memory, order: seq<nat>)
    requires SerialInv(s, mem, order)
    requires t.link.Emulated? && t.link.dev.mem == s.link.dev.mem && |s.claims| <= |t.claims|
    requires forall c | 0 <= c < |s.claims| ::
               t.claims[c].service == s.claims[c].service && t.claims[c].req == s.claims[c].req
    requires forall c | |s.claims| <= c < |t.claims| :: t.claims[c].service.NotServed?
    ensures SerialInv(t, mem, order)
  {
    hide Encodable, Told, ExecAll, Messages;
    SameMessages(s, t, order);
    forall j | 0 <= j < |order| ensures Explained(t, mem, order, j) {
      assert Explained(s, mem, order, j);
    }
  }

  lemma {:induction false} OneMore(mem: Memory, ms: seq<Message>, m: Message)
    requires Held(m) && forall i | 0 <= i < |ms| :: Held(ms[i])
    ensures ExecAll(mem, ms + [m]) == Exec(ExecAll(mem, ms), m).0
  {
    hide Exec, Held;
    assert (ms + [m])[..|ms|] == ms;
  }

  lemma {:induction false} MoreMessages(s: S, t: S, order: seq<nat>, c: nat)
    requires Orderly(s, order) && c < |s.claims| == |t.claims| && Encodable(s.claims[c].req)
    requires forall d | 0 <= d < |s.claims| :: t.claims[d].req == s.claims[d].req
    ensures Orderly(t, order + [c]) && Messages(t, order + [c]) == Messages(s, order) + [Told(s.claims[c].req)]
  {
    hide Encodable, Told;
  }

  lemma {:induction false} SerialServe(s: S, t: S, mem: Memory, order: seq<nat>)
    requires SerialInv(s, mem, order) && s.link.Emulated?
    requires t.cur < |s.claims| == |t.claims| && s.claims[t.cur].service.NotServed? && Encodable(s.claims[t.cur].req)
    requires exists reply :: t.claims == s.claims[t.cur := s.claims[t.cur].(service := Served(s.link.dev.mem, reply))]
    requires t.link.Emulated? && t.link.dev.mem == Exec(s.link.dev.mem, Told(s.claims[t.cur].req)).0
    ensures SerialInv(t, mem, order + [t.cur])
  {
    hide Encodable, Told, Exec, Messages, ExecAll, Held;
    var order' := order + [t.cur];
    MoreMessages(s, t, order, t.cur);
    OneMore(mem, Messages(s, order), Told(s.claims[t.cur].req));
    var ms, ms' := Messages(s, order), Messages(t, order');
    assert ms'[..|order|] == ms;
    forall j | 0 <= j < |order'| ensures Explained(t, mem, order', j) {
      if j < |order| {
        assert Explained(s, mem, order, j);
        assert ms'[..j] == ms[..j];
      }
    }
    forall c | 0 <= c < |t.claims| && t.claims[c].service.Served? ensures c in order' {
      assert order'[|order|] == t.cur && (c in order ==> c in order');
    }
    assert t.link.dev.mem == ExecAll(mem, ms');
    forall i, j | 0 <= i < j < |order'| ensures order'[i] != order'[j] {
      assert order'[i] == order[i] && Explained(s, mem, order, i);
    }
  }

  lemma {:induction false} RunSerial(run: seq<S>, steps: seq<Step>, l: nat)
    requires SoundRun(run, steps) && l < |run|
    ensures SerialInv(run[l], run[0].link.dev.mem, Order(run, steps, l))
  {
    hide SystemInv, Moves, DistinctKeys, Addressed, SerialInv, Serves;
    if l == 0 {
      SerialInitially(run[0]);
    } else {
      RunSerial(run, steps, l - 1);
      RunSystem(run, steps, l - 1);
      assert MovesAt(run, steps, l - 1);
      var s, step, t := run[l - 1], steps[l - 1], run[l];
      var mem, order := run[0].link.dev.mem, Order(run, steps, l - 1);
      if Serves(s, step) {
        Serving(s, step, t);
        assert s.link.Emulated? by { assert SerialInv(s, mem, order); IsEmulated(s, mem, order); }
        SerialServe(s, t, mem, order);
      } else {
        NotServing(s, step, t);
        IsEmulated(s, mem, order);
        SerialQuiet(s, t, mem, order);
        assert Order(run, steps, l) == order;
      }
    }
  }

  lemma {:induction false} IsEmulated(s: S, mem: Memory, order: seq<nat>)
    requires SerialInv(s, mem, order)
    ensures s.link.Emulated?
  {
  }

  lemma {:induction false} SerialInitially(s: S)
    requires Initial(s) && s.link.Emulated?
    ensures SerialInv(s, s.link.dev.mem, [])
  {
  }

  // ---- What clients see ----

  /**
   Every response a client gets is, for some point in the service order, the
   response of a sequential token that executed the requests served before, to
   this client's own request.  Its header and lengths always arrive; the parameters
   do exactly when they fit the room, although the call succeeds either way.
   */
  lemma {:induction false} ResponseIsSerial(run: seq<S>, steps: seq<Step>, l: nat, c: nat) returns (j: nat)
    requires SoundRun(run, steps) && l < |run| && c < |run[l].claims| && run[l].claims[c].outcome.Returned?
    ensures Orderly(run[l], Order(run, steps, l)) && j < |Order(run, steps, l)| && Order(run, steps, l)[j] == c
    ensures var cl, before := run[l].claims[c], Messages(run[l], Order(run, steps, l))[..j];
            && Encodable(cl.req)
            && var r := Exec(ExecAll(run[0].link.dev.mem, before), Told(cl.req)).1;
            && WellFormed(r) && SameIds(cl.req.msg, r)
            && cl.outcome.head == Head(FrameHeader(r), r.lens)
            && cl.outcome.response
               == if cl.req.room.Some? && cl.req.room.size < Sum(r.lens) then Err(NoSpace) else Ok(Received(r))
  {
    assert |run| == |steps| + 1;
    hide Run, DistinctKeys, Addressed, Inv, HandInv, AllAddressed, Accounted, Tracked, ContainerOk, DoneOk, Order, Exec,
         ExecAll,
      Decode, Frame, Messages;
    RunSerial(run, steps, l);
    RunSystem(run, steps, l);
    var cl, order := run[l].claims[c], Order(run, steps, l);
    assert Truthful(cl);
    j :| 0 <= j < |order| && order[j] == c;
    assert Explained(run[l], run[0].link.dev.mem, order, j);
    ServeFrame(cl.service.mem, Sendable(cl.req));
    Arrives(Exec(cl.service.mem, Told(cl.req)).1, cl.req.room);
  }

  /** The service order only grows. */
  lemma {:induction false} OrderGrows(run: seq<S>, steps: seq<Step>, k: nat, l: nat)
    requires |run| == |steps| + 1 && k <= l < |run|
    ensures Order(run, steps, k) <= Order(run, steps, l)
    decreases l
  {
    if k < l {
      OrderGrows(run, steps, k, l - 1);
    }
  }

  /** A request claimed only after another one's response was returned is served later. */
  lemma {:induction false} RespectsRealTime(run: seq<S>, steps: seq<Step>, k: nat, l: nat, c: nat, d: nat, i: nat,
                                            j: nat)
    requires SoundRun(run, steps) && k <= l < |run|
    requires c < |run[k].claims| && run[k].claims[c].outcome.Returned? && |run[k].claims| <= d
    requires i < |Order(run, steps, l)| && Order(run, steps, l)[i] == c
    requires j < |Order(run, steps, l)| && Order(run, steps, l)[j] == d
    ensures i < j
  {
    assert |run| == |steps| + 1;
    hide Run, DistinctKeys, Addressed, Order, Messages, ExecAll, Exec;
    var i' := ResponseIsSerial(run, steps, k, c);
    OrderGrows(run, steps, k, l);
    RunSerial(run, steps, l);
    var before, after := Order(run, steps, k), Order(run, steps, l);
    assert after[i'] == c;
    assert forall x | 0 <= x < |before| :: after[x] == before[x] < |run[k].claims|;
  }

  /** Served at most once: no claim occurs twice in the service order. */
  lemma {:induction false} ServedOnce(run: seq<S>, steps: seq<Step>, l: nat, i: nat, j: nat)
    requires SoundRun(run, steps) && l < |run| && i < |Order(run, steps, l)| && j < |Order(run, steps, l)|
    requires Order(run, steps, l)[i] == Order(run, steps, l)[j]
    ensures i == j
  {
    assert |run| == |steps| + 1;
    hide Run, DistinctKeys, Addressed, Order, Messages, ExecAll;
    RunSerial(run, steps, l);
  }

  /**
   A digest through the whole stack: the FINAL response a client gets is the
   digest of all data sent to its context, by whichever clients, in service order.
   */
  lemma {:induction false} DigestEndToEnd(run: seq<S>, steps: seq<Step>, l: nat, c: nat, live: map<nat, Stream>)
    returns (j: nat)
    requires SoundRun(run, steps) && l < |run| && c < |run[l].claims| && Tracks(run[0].link.dev.mem, live)
    requires run[l].claims[c].outcome.Returned? && run[l].claims[c].outcome.response.Ok?
             && Is(run[l].claims[c].req.msg, CMD_DIGEST_FINAL)
    ensures Orderly(run[l], Order(run, steps, l)) && j < |Order(run, steps, l)| && Order(run, steps, l)[j] == c
    ensures var cl, before := run[l].claims[c], Messages(run[l], Order(run, steps, l))[..j];
            && Encodable(cl.req)
            && var after, id: nat := LiveAfter(run[0].link.dev.mem, live, before), Scalar(Told(cl.req), 0xFFFF_FFFF);
            var r := cl.outcome.response.value;
            if id in after then r.header.ack == CKR_OK && r.params == Digest(after[id].mech, after[id].data)
            else r.header.ack != CKR_OK
  {
    assert |run| == |steps| + 1;
    hide Run, DistinctKeys, Addressed, Order, Messages, ExecAll, Exec, LiveAfter, Tracks, Digest, Scalar;
    j := ResponseIsSerial(run, steps, l, c);
    DigestOfStream(run[0].link.dev.mem, live, Messages(run[l], Order(run, steps, l))[..j], Told(run[l].claims[c].req));
  }

  // ---- Bounded service ----

  /** A staged request is served by this step, or stays staged, nearer by one if something else was served. */
  ghost predicate Waits(s: S, step: Step, t: S, k: nat, c: nat)
    requires s.link.Emulated? && |s.tags| == |s.link.dev.container| && Wired(s.link.dev) && k < |s.tags|
  {
    || (Serves(s, step) && t.cur == c)
    || (&& t.link.Emulated? && |t.tags| == |t.link.dev.container| == |s.tags| && Wired(t.link.dev)
        && InContainer(t, k, c)
        && Distance(t.link.dev, k) + (if Serves(s, step) then 1 else 0) <= Distance(s.link.dev, k))
  }

  lemma {:induction false} WaitStep(s: S, step: Step, t: S, k: nat, c: nat)
    requires SystemInv(s) && Moves(s, step, t) && InContainer(s, k, c)
    ensures Waits(s, step, t, k, c)
  {
    hide Inv, Accounted, AllAddressed, HandInv, Tracked, Carries, ConsumerStep, ContainerOk, Truthful, DoneOk, Occupied;
    if !step.Consumer? {
      if step.ScribbleReply? {
        ScribbleCarries(s, step);
      } else {
        ProducerCarries(s, step, t);
      }
      SameLink(s, t);
    } else if Quiet(s, step.io) {
      QuietCarries(s, step.io);
      SameLink(s, t);
    } else if s.cpc.Sending? {
      WaitSend(s, step.io, k, c);
    } else {
      WaitServe(s, step, t, k, c);
    }
  }

  lemma {:induction false} WaitSend(s: S, io: IO, k: nat, c: nat)
    requires DeviceInv(s) && ConsumerReady(s) && Returns(s, io) && s.cpc.Sending? && io == SendDone(true)
             && InContainer(s, k, c)
    ensures Waits(s, Consumer(io), ConsumerStep(s, io), k, c)
  {
    hide ContainerOk, Truthful, DoneOk, IngestOutcome, Ingest, Outgoing, AllParse;
    IngestBusy(s.link.dev, Outgoing(s.ring[s.cpc.i]));
  }

  lemma {:induction false} WaitServe(s: S, step: Step, t: S, k: nat, c: nat)
    requires SystemInv(s) && Moves(s, step, t) && InContainer(s, k, c) && s.cpc.Receiving? && step.Consumer?
    ensures Waits(s, step, t, k, c)
  {
    hide Inv, Accounted, AllAddressed, HandInv, Tracked, Truthful, DoneOk, Occupied, AllParse, McuStep, Distance,
         Encodable;
    MustAnswer(s, step.io);
    assert ContainerOk(s, k);
    assert k in Busy(s.link.dev);
    NearerOrServed(s.link.dev, k, MAX_FRAME_SIZE);
    DeviceAnswers(s);
  }

  /** Served since point `a`. */
  ghost predicate ServedSince(run: seq<S>, steps: seq<Step>, a: nat, b: nat, c: nat)
    requires |run| == |steps| + 1 && a <= b < |run|
  {
    OrderGrows(run, steps, a, b);
    c in Order(run, steps, b)[|Order(run, steps, a)|..]
  }

  ghost predicate StillStaged(s: S, k: nat, c: nat, n: int) {
    && s.link.Emulated? && |s.tags| == |s.link.dev.container| && Wired(s.link.dev)
    && InContainer(s, k, c) && Distance(s.link.dev, k) <= n
  }

  /** A staged request has been served since, or is nearer to the cursor by the number of services. */
  lemma {:induction false} ServedOrNearer(run: seq<S>, steps: seq<Step>, a: nat, b: nat, k: nat, c: nat, n: nat)
    requires SoundRun(run, steps) && a <= b < |run| && StillStaged(run[a], k, c, n)
    ensures || ServedSince(run, steps, a, b, c)
            || StillStaged(run[b], k, c, n - (|Order(run, steps, b)| - |Order(run, steps, a)|))
    decreases b
  {
    hide SystemInv, Moves, DistinctKeys, Addressed, Initial, Order, StillStaged, ServedSince, Serves;
    if a == b {
    } else {
      ServedOrNearer(run, steps, a, b - 1, k, c, n);
      if ServedSince(run, steps, a, b - 1, c) {
        SinceGrows(run, steps, a, b, c);
      } else {
        RunSystem(run, steps, b - 1);
        assert MovesAt(run, steps, b - 1);
        NextService(run, steps, a, b, c);
        NearerStep(run[b - 1], steps[b - 1], run[b], k, c,
                   n - (|Order(run, steps, b - 1)| - |Order(run, steps, a)|));
      }
    }
  }

  /** What has been served since stays served since. */
  lemma {:induction false} SinceGrows(run: seq<S>, steps: seq<Step>, a: nat, b: nat, c: nat)
    requires |run| == |steps| + 1 && a < b < |run| && ServedSince(run, steps, a, b - 1, c)
    ensures ServedSince(run, steps, a, b, c)
  {
    hide Serves;
    OrderGrows(run, steps, a, b - 1);
    var older, old', new' := Order(run, steps, a), Order(run, steps, b - 1), Order(run, steps, b);
    assert new'[|older|..] == old'[|older|..] + new'[|old'|..];
  }

  lemma {:induction false} NextService(run: seq<S>, steps: seq<Step>, a: nat, b: nat, c: nat)
    requires |run| == |steps| + 1 && a < b < |run|
    ensures |Order(run, steps, b)| == |Order(run, steps, b - 1)| + if Serves(run[b - 1], steps[b - 1]) then 1 else 0
    ensures Serves(run[b - 1], steps[b - 1]) && run[b].cur == c ==> ServedSince(run, steps, a, b, c)
  {
    hide Serves;
    OrderGrows(run, steps, a, b - 1);
    var older, old', new' := Order(run, steps, a), Order(run, steps, b - 1), Order(run, steps, b);
    if Serves(run[b - 1], steps[b - 1]) {
      assert new'[|older|..][|old'| - |older|] == run[b].cur;
    }
  }

  lemma {:induction false} NearerStep(s: S, step: Step, t: S, k: nat, c: nat, n: int)
    requires SystemInv(s) && Moves(s, step, t) && StillStaged(s, k, c, n)
    ensures (Serves(s, step) && t.cur == c) || StillStaged(t, k, c, n - if Serves(s, step) then 1 else 0)
  {
    hide SystemInv, Moves, Distance;
    WaitStep(s, step, t, k, c);
  }

  /**
   A request staged in some container is served before as many further requests
   are served as there are containers, whatever else arrives meanwhile.
   */
  lemma {:induction false} ServedWithinARound(run: seq<S>, steps: seq<Step>, a: nat, b: nat, k: nat, c: nat)
    requires SoundRun(run, steps) && a <= b < |run|
    requires run[a].link.Emulated? && |run[a].tags| == |run[a].link.dev.container| && InContainer(run[a], k, c)
    requires |Order(run, steps, b)| - |Order(run, steps, a)| >= |run[a].link.dev.container|
    ensures c in Order(run, steps, b) && c < |run[b].claims| && run[b].claims[c].service.Served?
  {
    assert |run| == |steps| + 1;
    hide SoundRun, SystemInv, Distance, SerialInv, StillStaged, InContainer, Order;
    RunSystem(run, steps, a);
    StartsStaged(run[a], k, c);
    ServedOrNearer(run, steps, a, b, k, c, Distance(run[a].link.dev, k));
    OrderGrows(run, steps, a, b);
    RunSerial(run, steps, b);
    NotNegative(run[b], k, c, Distance(run[a].link.dev, k) - (|Order(run, steps, b)| - |Order(run, steps, a)|));
    OrderIsServed(run[b], run[0].link.dev.mem, Order(run, steps, b), c);
  }

  lemma {:induction false} StartsStaged(s: S, k: nat, c: nat)
    requires SystemInv(s) && InContainer(s, k, c)
    ensures Wired(s.link.dev) && StillStaged(s, k, c, Distance(s.link.dev, k))
            && Distance(s.link.dev, k) < |s.link.dev.container|
  {
  }

  lemma {:induction false} NotNegative(s: S, k: nat, c: nat, n: int)
    requires n < 0
    ensures !StillStaged(s, k, c, n)
  {
  }

  lemma {:induction false} OrderIsServed(s: S, mem: Memory, order: seq<nat>, c: nat)
    requires SerialInv(s, mem, order) && c in order
    ensures c < |s.claims| && s.claims[c].service.Served?
  {
    hide Messages, ExecAll;
    var j :| 0 <= j < |order| && order[j] == c;
    assert Explained(s, mem, order, j);
  }

  /**
   And at the next loop head it is settled: its entry was completed, unless the
   client gave up on it.
   */
  lemma {:induction false} DoneWithinARound(run: seq<S>, steps: seq<Step>, a: nat, b: nat, k: nat, c: nat)
    requires SoundRun(run, steps) && a <= b < |run| && run[b].cpc.Ceiling?
    requires run[a].link.Emulated? && |run[a].tags| == |run[a].link.dev.container| && InContainer(run[a], k, c)
    requires |Order(run, steps, b)| - |Order(run, steps, a)| >= |run[a].link.dev.container|
    ensures c < |run[b].claims| && (run[b].claims[c].dones == 1 || run[b].claims[c].abandoned)
  {
    assert |run| == |steps| + 1;
    hide SoundRun, SystemInv, InContainer, Order;
    ServedWithinARound(run, steps, a, b, k, c);
    RunSystem(run, steps, b);
    ServedIsSettled(run[b], c);
  }

  lemma {:induction false} ServedIsSettled(s: S, c: nat)
    requires SystemInv(s) && s.cpc.Ceiling? && c < |s.claims| && s.claims[c].service.Served?
    ensures s.claims[c].dones == 1 || s.claims[c].abandoned
  {
    hide EntryInv, ProducerInv, ConsumerInv, AllAddressed, HandInv, Accounted, Occupied, DoneOk, FrameOf, ReplyTo;
    assert Truthful(s.claims[c]) && Tracked(s, c) && ClaimOk(s, s.claims[c]);
    forall l: nat ensures !InContainer(s, l, c) {
      assert l < |s.tags| ==> ContainerOk(s, l);
    }
  }
}
