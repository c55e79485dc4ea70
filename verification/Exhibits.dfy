/**
 Runs that end in the states the general results warn about: an entry abandoned
 for good, a response nobody waits for, and a response delivered to a client
 that sent a different request.
 */
module Exhibits {
  import opened Device
  import opened DeviceLaws
  import opened Ring
  import opened System
  import opened Recycling
  import opened Stories

  /** A fresh slot that some client can use. */
  ghost predicate Usable(s: S) { Initial(s) && 0 < |s.ring| && 0 < |s.pc| }

  /** A fresh slot in front of an emulated device. */
  ghost predicate Connected(s: S) { Usable(s) && s.link.Emulated? && 0 < s.ceiling }

  lemma {:induction false} Begins(s: S)
    requires Initial(s)
    ensures Run([s], []) && InOrder(s.link) && s.claims == [] && s.cpc == Ceiling && s.stats.inFlight == 0
    ensures forall i | 0 <= i < |s.ring| ::
              s.ring[i].state == Free && |s.ring[i].req| == ENTRY_BUF_SIZE && s.ring[i].rspLen <= |s.ring[i].rsp|
    ensures forall p | 0 <= p < |s.pc| :: s.pc[p] == Idle
    ensures s.link.Emulated? ==>
              |s.tags| == |s.link.dev.container| > 0 && forall k | 0 <= k < |s.tags| :: s.link.dev.container[k] == IDLE
  {
  }

  /** The first client's request is POSTED in entry 0. */
  lemma {:induction false} FirstPosts(s: S, req: Request) returns (run: seq<S>, steps: seq<Step>)
    requires Usable(s) && Encodable(req)
    ensures Run(run, steps) && run != [] && run[0] == s
    ensures |s.ring[0].req| == ENTRY_BUF_SIZE
    ensures Last(run) == s.(ring := s.ring[0 := Filed(s.ring[0], req).(claim := 0)],
                            claims := [Claim(0, 0, req, 0, 0, false, Pending, NotServed)],
                            pc := s.pc[0 := Waiting(0, 0)])
  {
    hide Calls, Run, Initial, FrameOf, Encodable, Overlay, InOrder;
    Begins(s);
    run, steps := Claims([s], [], 0, req, 0);
    run, steps := Posts(run, steps, 0);
    var cl := Claim(0, 0, req, 0, 0, false, Pending, NotServed);
    assert [cl][0 := cl] == [cl];
  }

  // ---- Entries that are never reused ----

  /** A client may time out while its entry is still POSTED; no delivery is then bound to free the entry. */
  lemma {:induction false} AbandonedWhilePosted(s: S, req: Request) returns (run: seq<S>, steps: seq<Step>)
    requires Usable(s) && Encodable(req) && req.budget == 1
    ensures Run(run, steps) && run != [] && run[0] == s
    ensures var t := Last(run);
            && |t.ring| == |s.ring| && |t.claims| == 1 && t.claims[0].req == req && t.claims[0].outcome == TimedOut
            && t.ring[0].state == Abandoned && t.ring[0].claim == 0 && !Bound(t, 0)
  {
    hide Calls, Run, Initial, FrameOf, Encodable, Overlay, ReadOut, InOrder;
    Begins(s);
    run, steps := FirstPosts(s, req);
    run, steps := GivesUp(run, steps, 0, 0);
    run, steps := GoProducer(run, steps, 0);
  }

  /**
   The consumer may take the entry between the client's two attempts to abandon it,
   and answer it after the client has left.
   */
  lemma {:induction false} AnsweredTooLate(s: S, req: Request) returns (run: seq<S>, steps: seq<Step>)
    requires Connected(s) && Encodable(req) && Addressed(req) && req.budget == 1
    ensures Run(run, steps) && run != [] && run[0] == s
    ensures var t := Last(run);
            && |t.ring| == |s.ring| && |t.claims| == 1 && t.claims[0].req == req
            && t.claims[0].outcome == TimedOut && !t.claims[0].abandoned
            && t.ring[0].state == Done && t.ring[0].claim == 0 && Orphaned(t, 0)
  {
    hide Calls, Run, Initial, FrameOf, Encodable, Overlay, ReadOut, InOrder;
    Begins(s);
    run, steps := FirstPosts(s, req);
    run, steps := GivesUp(run, steps, 0, 0);
    run, steps := Takes(run, steps, 0);
    run, steps := GoProducer(run, steps, 0);
    run, steps := GoProducer(run, steps, 0);
    assert Last(run).pc == s.pc[0 := Idle];
    run, steps := Reserves(run, steps);
    run, steps := Answers(run, steps);
  }

  /** One request, taken into an otherwise idle device, is answered. */
  lemma {:induction false} Answers(run: seq<S>, steps: seq<Step>) returns (run': seq<S>, steps': seq<Step>)
    requires Run(run, steps) && run != [] && Last(run).cpc == Sending(0) && Last(run).link.Emulated?
             && InOrder(Last(run).link)
    requires Last(run).stats.inFlight > 0 && |Last(run).tags| == |Last(run).link.dev.container| > 0
    requires forall k | 0 <= k < |Last(run).tags| :: Last(run).link.dev.container[k] == IDLE
    requires |Last(run).ring| > 0 && Last(run).ring[0].state == Sent && Last(run).ring[0].claim == 0
    requires forall j | 0 < j < |Last(run).ring| :: Last(run).ring[j].state != Posted
    requires |Last(run).claims| == 1 && Addressed(Last(run).claims[0].req)
    requires Last(run).ring[0].owner == Last(run).claims[0].req.session
             && Last(run).ring[0].sequence == Last(run).claims[0].req.sequence
    ensures Grown(run, run', steps')
    ensures var s, t := Last(run), Last(run');
            && |t.ring| == |s.ring| && t.ring[0].state == Done && t.ring[0].claim == 0 && t.pc == s.pc
            && |t.claims| == 1 && t.claims[0].req == s.claims[0].req && t.claims[0].outcome == s.claims[0].outcome
            && t.claims[0].abandoned == s.claims[0].abandoned
  {
    hide Calls, Run, Initial, FrameOf, Encodable, Overlay, ReadOut, InOrder, ServedNext, Busy, ReplyTo;
    run', steps' := SendsTo(run, steps, 0);
    run', steps' := TurnsToReceive(run', steps');
    OnlyContainer(Last(run').link.dev);
    run', steps' := Receives(run', steps', 0);
    run', steps' := Settles(run', steps', 0);
    run', steps' := Delivers(run', steps', 0);
  }

  lemma {:induction false} OnlyContainer(d: Device)
    requires InOrder(Emulated(d)) && d.container[0].busy && d.container[0].data != []
    requires forall k | 0 < k < |d.container| :: d.container[k] == IDLE
    ensures Busy(d) != {} && ServedNext(d) == 0
  {
    hide Parses, Serve;
    assert 0 in Busy(d);
    StepBusy(d, 0);
  }

  // ---- A response delivered to another client ----

  /** The slot has room for two clients, and its device was just created. */
  ghost predicate Shared(s: S) {
    && Connected(s) && 2 <= |s.ring| && 2 <= |s.pc| && 2 <= s.ceiling
    && 2 <= |s.link.dev.container| && s.link.dev.cursor == 0
  }

  predicate SameKey(a: Request, b: Request) { a.session == b.session && a.sequence == b.sequence }

  /** Two clients whose requests carry the same key: one may be handed the token's reply to the other's request. */
  lemma {:induction false} AnothersReply(s: S, a: Request, b: Request) returns (run: seq<S>, steps: seq<Step>)
    requires Shared(s) && Encodable(a) && Encodable(b) && Addressed(a) && Addressed(b) && SameKey(a, b)
    ensures Run(run, steps) && run != [] && run[0] == s
    ensures var t := Last(run);
            && |t.claims| == 2 && t.claims[0].req == a && t.claims[1].req == b
            && t.claims[0].service == NotServed
            && t.claims[0].outcome == ReadOut(ReplyTo(s.link.dev.mem, b), a.room)
  {
    hide Calls, Run, Initial, FrameOf, Encodable, Overlay, ReadOut, InOrder, ServedNext, Busy, ReplyTo;
    Begins(s);
    run, steps := SecondSent(s, a, b);
    run, steps := FirstSent(run, steps);
    run, steps := TurnsToReceive(run, steps);
    FirstContainer(Last(run).link.dev);
    run, steps := Receives(run, steps, 1);
    run, steps := Settles(run, steps, 0);
    run, steps := Delivers(run, steps, 0);
    run, steps := Reads(run, steps, 0, 0);
  }

  /** Client 0 claims entry 0; client 1 claims entry 1, posts it, and has it sent to container 0. */
  lemma {:induction false} SecondSent(s: S, a: Request, b: Request) returns (run: seq<S>, steps: seq<Step>)
    requires Shared(s) && Encodable(a) && Encodable(b)
    ensures Run(run, steps) && run != [] && run[0] == s
    ensures var t := Last(run);
            && |t.ring| == |s.ring| && |t.pc| == |s.pc| && t.ceiling == s.ceiling && t.stats.inFlight == 1
            && t.cpc == Ceiling
            && t.claims == [Claim(0, 0, a, 0, 0, false, Pending, NotServed),
                            Claim(1, 1, b, 1, 0, false, Pending, NotServed)]
            && t.pc[0] == Encoding(0) && |t.ring[0].req| == ENTRY_BUF_SIZE && t.ring[0].rspLen <= |t.ring[0].rsp|
            && t.ring[0].state == Claimed && t.ring[0].claim == 0 && t.ring[1].state == Sent
            && (forall j | 2 <= j < |t.ring| :: t.ring[j].state == Free)
            && |t.tags| == |s.link.dev.container| && t.tags[0] == 1
            && t.link == Emulated(s.link.dev.(container := s.link.dev.container[0 := Container(FrameOf(b), true)]))
            && InOrder(t.link)
  {
    hide Calls, Run, Initial, FrameOf, Encodable, Overlay, InOrder;
    Begins(s);
    run, steps := Claims([s], [], 0, a, 0);
    run, steps := Claims(run, steps, 1, b, 1);
    run, steps := Posts(run, steps, 1);
    run, steps := Takes(run, steps, 1);
    run, steps := Reserves(run, steps);
    run, steps := SendsTo(run, steps, 0);
  }

  /** Client 0 posts entry 0, which is sent to container 1. */
  lemma {:induction false} FirstSent(run: seq<S>, steps: seq<Step>) returns (run': seq<S>, steps': seq<Step>)
    requires Run(run, steps) && run != []
    requires var s := Last(run);
             && s.cpc == Ceiling && s.stats.inFlight == 1 < s.ceiling && s.link.Emulated? && InOrder(s.link)
             && 2 <= |s.ring| && 2 <= |s.pc| && |s.tags| == |s.link.dev.container| >= 2
             && |s.claims| == 2 && s.claims[0].idx == 0 && s.claims[0].sends == 0 && Encodable(s.claims[0].req)
             && s.pc[0] == Encoding(0) && |s.ring[0].req| == ENTRY_BUF_SIZE && s.ring[0].rspLen <= |s.ring[0].rsp|
             && s.ring[0].state == Claimed && s.ring[0].claim == 0 && s.ring[1].state == Sent
             && (forall j | 2 <= j < |s.ring| :: s.ring[j].state == Free)
             && !Vacant(s.link.dev.container[0]) && s.link.dev.container[1] == IDLE
    ensures Grown(run, run', steps')
    ensures var s, t := Last(run), Last(run');
            && |t.ring| == |s.ring| && |t.pc| == |s.pc| && t.stats.inFlight == 2 && t.cpc == Ceiling
            && t.claims == s.claims[0 := s.claims[0].(sends := 1)] && t.pc[0] == Waiting(0, 0)
            && t.ring[0].owner == s.claims[0].req.session && t.ring[0].sequence == s.claims[0].req.sequence
            && t.ring[0].state == Sent && t.ring[0].claim == 0 && t.ring[0].rsp == s.ring[0].rsp
            && |t.ring[0].req| == ENTRY_BUF_SIZE
            && (forall j | 0 <= j < |t.ring| :: t.ring[j].state != Posted)
            && t.tags == s.tags[1 := 0] && t.link.Emulated? && InOrder(t.link)
            && t.link.dev.container[0] == s.link.dev.container[0] && |t.link.dev.container| == |s.link.dev.container|
            && t.link.dev.cursor == s.link.dev.cursor && t.link.dev.mem == s.link.dev.mem
  {
    hide Calls, Run, Initial, FrameOf, Encodable, Overlay, InOrder;
    run', steps' := Posts(run, steps, 0);
    run', steps' := Takes(run', steps', 0);
    run', steps' := Reserves(run', steps');
    SecondContainer(Last(run').link.dev.container);
    run', steps' := SendsTo(run', steps', 1);
  }

  lemma {:induction false} SecondContainer(cs: seq<Container>)
    requires 2 <= |cs| && !Vacant(cs[0]) && cs[1] == IDLE
    ensures FirstVacant(cs, 0) == 1
  {
  }

  lemma {:induction false} FirstContainer(d: Device)
    requires InOrder(Emulated(d)) && d.cursor == 0 && d.container[0].busy && d.container[0].data != []
    ensures Busy(d) != {} && ServedNext(d) == 0
  {
    hide Parses;
    assert 0 in Busy(d);
    assert At(d, 0) == 0;
  }
}
