/**
 Entries at or above the in-flight ceiling may stay POSTED for ever: as long as
 the clients of the lower entries call again at once, every dispatch finds a
 lower entry to send.
 */
module Crowds {
  import opened Wire
  import opened Device
  import opened DeviceLaws
  import opened Ring
  import opened RingSafety
  import opened InFlight
  import opened System
  import opened SystemSteps
  import opened Correlation
  import opened Keys
  import opened Scans
  import opened Serial
  import opened Stories
  import opened Exhibits
  import opened Turns

  // ---- Calls that may share a slot ----

  /** Well-addressed requests, no two under the same key. */
  ghost predicate Apart(calls: seq<Request>) {
    && (forall i | 0 <= i < |calls| :: Encodable(calls[i]) && Addressed(calls[i]))
    && (forall i, j | 0 <= i < j < |calls| :: KeyOf(calls[i]) != KeyOf(calls[j]))
  }

  /** The position of a call among the calls. */
  lemma {:induction false} CallAt(steps: seq<Step>, k: nat) returns (i: nat)
    requires k < |steps| && steps[k].Start?
    ensures i < |Calls(steps)| && Calls(steps)[i] == steps[k].req && i == |Calls(steps[..k])|
  {
    var before := steps[..|steps| - 1];
    if k == |steps| - 1 {
      i := |Calls(before)|;
    } else {
      assert before[..k] == steps[..k];
      i := CallAt(before, k);
    }
  }

  lemma {:induction false} CallsGrow(steps: seq<Step>, k: nat)
    requires k <= |steps|
    ensures Calls(steps[..k]) <= Calls(steps)
  {
    if k < |steps| {
      var before := steps[..|steps| - 1];
      assert before[..k] == steps[..k];
      CallsGrow(before, k);
    } else {
      assert steps[..k] == steps;
    }
  }

  lemma {:induction false} CallsInOrder(steps: seq<Step>, k: nat, l: nat)
    requires k < l < |steps| && steps[k].Start? && steps[l].Start?
    ensures |Calls(steps[..k])| < |Calls(steps[..l])|
  {
    assert steps[..l][..k + 1] == steps[..k + 1] && steps[..k + 1][..k] == steps[..k];
    CallsGrow(steps[..l], k + 1);
  }

  /** A run whose calls may share a slot is a sound one. */
  lemma {:induction false} ApartIsSound(run: seq<S>, steps: seq<Step>)
    requires Run(run, steps) && run[0].link.Emulated? && Apart(Calls(steps))
    ensures SoundRun(run, steps)
  {
    hide Run, Calls, KeyOf, Addressed, Encodable;
    forall k, l | 0 <= k < l < |steps| && steps[k].Start? && steps[l].Start?
      ensures KeyOf(steps[k].req) != KeyOf(steps[l].req)
    {
      var i := CallAt(steps, k);
      var j := CallAt(steps, l);
      CallsInOrder(steps, k, l);
    }
    forall k | 0 <= k < |steps| && steps[k].Start? ensures Addressed(steps[k].req) {
      var i := CallAt(steps, k);
    }
    FreshIsSound(run, steps);
  }

  // ---- Clients at their entries ----

  /**
   Clients 0, 1, ... wait at entries 0, 1, ..., which are in the states `qs`; the
   rest of the ring is FREE.  The consumer is at its loop head with `n` requests
   in flight.
   */
  ghost predicate Standing(s: S, qs: seq<QState>, n: nat) {
    && |qs| <= |s.ring| && |qs| <= |s.pc| && s.cpc == Ceiling && s.stats.inFlight == n && s.link.Emulated?
    && (forall i | 0 <= i < |qs| :: AtWork(s, i) && s.ring[i].state == qs[i])
    && (forall i | |qs| <= i < |s.ring| :: s.ring[i].state == Free)
  }

  predicate AtWork(s: S, i: nat) {
    i < |s.pc| && i < |s.ring| && s.pc[i].Waiting? && s.pc[i].c == s.ring[i].claim
  }

  /** Nothing but entry `x` has changed hands. */
  ghost predicate OthersSame(s: S, t: S, x: nat) {
    && |t.ring| == |s.ring| && |t.pc| == |s.pc| && t.ceiling == s.ceiling
    && (forall i | 0 <= i < |s.ring| && i != x :: t.ring[i].claim == s.ring[i].claim)
    && (forall p | 0 <= p < |s.pc| && p != x :: t.pc[p] == s.pc[p])
  }

  /** Entry `x` goes to state `q`, and its client waits for it. */
  lemma {:induction false} StandingNext(s: S, t: S, qs: seq<QState>, n: nat, x: nat, n': nat)
    requires Standing(s, qs, n) && x < |qs| && OthersSame(s, t, x) && t.cpc == Ceiling && t.stats.inFlight == n'
    requires t.link.Emulated? && AtWork(t, x)
             && forall i | 0 <= i < |s.ring| && i != x :: t.ring[i].state == s.ring[i].state
    ensures Standing(t, qs[x := t.ring[x].state], n')
  {
    forall i | 0 <= i < |qs| ensures AtWork(t, i) && t.ring[i].state == qs[x := t.ring[x].state][i] {
      assert AtWork(s, i);
    }
  }

  /** Below the ceiling, the lowest POSTED entry is sent. */
  lemma {:induction false} SendOne(run: seq<S>, steps: seq<Step>, qs: seq<QState>, n: nat, x: nat)
    returns (run': seq<S>, steps': seq<Step>)
    requires Run(run, steps) && run[0].link.Emulated? && Apart(Calls(steps)) && Standing(Last(run), qs, n)
    requires n < Last(run).ceiling && n < |Last(run).link.dev.container|
    requires x < |qs| && qs[x] == Posted && forall i | 0 <= i < x :: qs[i] != Posted
    ensures Onward(run, steps, run', steps') && Standing(Last(run'), qs[x := Sent], n + 1)
    ensures OthersSame(Last(run), Last(run'), x) && |Last(run').link.dev.container| == |Last(run).link.dev.container|
  {
    Nonempty(run, steps);
    hide Calls, Run, InOrder, FirstVacant, FrameOf, Encodable, Apart;
    var s := Last(run);
    assert AtWork(s, x);
    Vacancy(run, steps);
    run', steps' := Takes(run, steps, x);
    hide Standing;
    run', steps' := Reserves(run', steps');
    run', steps' := SendsTo(run', steps', FirstVacant(s.link.dev.container, 0));
    StandingNext(s, Last(run'), qs, n, x, n + 1);
  }

  /** Fewer in flight than there are containers: one of them is vacant. */
  lemma {:induction false} Vacancy(run: seq<S>, steps: seq<Step>)
    requires Run(run, steps) && run[0].link.Emulated? && Apart(Calls(steps)) && Last(run).cpc == Ceiling
    requires Last(run).link.Emulated? && Last(run).stats.inFlight < |Last(run).link.dev.container|
    ensures InOrder(Last(run).link) && |Last(run).tags| == |Last(run).link.dev.container|
    ensures FirstVacant(Last(run).link.dev.container, 0) < |Last(run).link.dev.container|
  {
    Nonempty(run, steps);
    hide Calls, Run, Apart, SoundRun, Busy, FirstVacant, Inv, Accounted, AllAddressed, HandInv, Occupied, Tracked,
         ContainerOk;
    ApartIsSound(run, steps);
    RunSystem(run, steps, |run| - 1);
    CounterIsOccupancy(run, steps, |run| - 1);
    DeviceParses(Last(run));
    RoomLeft(Last(run));
  }

  // ---- One request is answered, and its client calls again ----

  /** What is served next: the frame of claim `c`, in flight at entry `y`. */
  ghost predicate ServesNext(s: S, c: nat, y: nat) {
    && s.link.Emulated? && InOrder(s.link) && Busy(s.link.dev) != {}
    && c < |s.claims| && Encodable(s.claims[c].req) && Addressed(s.claims[c].req) && s.claims[c].idx == y
    && y < |s.ring| && s.ring[y].claim == c && InFlightState(s.ring[y].state)
    && s.ring[y].owner == s.claims[c].req.session && s.ring[y].sequence == s.claims[c].req.sequence
    && var k := ServedNext(s.link.dev);
    k < |s.tags| == |s.link.dev.container| && s.tags[k] == c && s.link.dev.container[k].data == FrameOf(s.claims[c].req)
  }

  lemma {:induction false} NextReply(s: S) returns (c: nat, y: nat)
    requires SystemInv(s) && s.cpc == Receiving
    ensures ServesNext(s, c, y)
  {
    hide Busy, FrameOf, Encodable, ServedNext, McuStep, ReplyTo, Inv, HandInv, Tracked, Flying, Truthful, DoneOk;
    InFlightIsBusy(s);
    DeviceParses(s);
    DeviceAnswers(s);
    c := s.tags[ServedNext(s.link.dev)];
    FlyingIsAClaim(s, c);
    y := s.claims[c].idx;
    assert ContainerOk(s, ServedNext(s.link.dev));
    KeyInFlight(s, y);
  }

  /** With distinct keys, the response's key is found at its own entry first. */
  lemma {:induction false} FoundFirst(s: S, h: Header, y: nat)
    requires DistinctKeys(s) && y < |s.ring| && HasKey(s.ring[y], h)
    ensures forall j | 0 <= j < y :: !HasKey(s.ring[j], h)
  {
  }

  /** With the ceiling reached, one of the requests in flight is answered. */
  lemma {:induction false} AnswerOne(run: seq<S>, steps: seq<Step>, qs: seq<QState>, n: nat)
    returns (run': seq<S>, steps': seq<Step>, y: nat)
    requires Run(run, steps) && run[0].link.Emulated? && Apart(Calls(steps)) && Standing(Last(run), qs, n)
    requires 0 < n && n >= Last(run).ceiling && forall i | 0 <= i < |qs| :: qs[i] == Sent || qs[i] == Posted
    ensures Grown(run, run', steps') && Calls(steps') == Calls(steps)
    ensures y < |qs| && qs[y] == Sent && Standing(Last(run'), qs[y := Done], n - 1)
            && OthersSame(Last(run), Last(run'), y)
    ensures Last(run').hist.received == Last(run).hist.received + 1 && Last(run').hist.failed == Last(run).hist.failed
  {
    Nonempty(run, steps);
    hide Calls, Run, InOrder, Apart, Overlay, Standing;
    var s := Last(run);
    run', steps', y := ReceiveOne(run, steps, qs, n);
    KeysNow(run', steps');
    FoundFirst(Last(run'), Last(run').cpc.h, y);
    run', steps' := Settles(run', steps', y);
    run', steps' := Delivers(run', steps', y);
    StandingNext(s, Last(run'), qs, n, y, n - 1);
  }

  /** Its reply is received. */
  lemma {:induction false} ReceiveOne(run: seq<S>, steps: seq<Step>, qs: seq<QState>, n: nat)
    returns (run': seq<S>, steps': seq<Step>, y: nat)
    requires Run(run, steps) && run[0].link.Emulated? && Apart(Calls(steps)) && Standing(Last(run), qs, n)
    requires 0 < n && n >= Last(run).ceiling && forall i | 0 <= i < |qs| :: qs[i] == Sent || qs[i] == Posted
    ensures Grown(run, run', steps') && Calls(steps') == Calls(steps) && y < |qs| && qs[y] == Sent
    ensures Last(run').hist.received == Last(run).hist.received + 1 && Last(run').hist.failed == Last(run).hist.failed
    ensures var s, t := Last(run), Last(run');
            && t.ring == s.ring && t.pc == s.pc && t.stats == s.stats && t.ceiling == s.ceiling && t.link.Emulated?
            && InOrder(t.link) && t.cpc.Match? && t.cpc.i == 0 && AtWork(s, y) && HasKey(s.ring[y], t.cpc.h)
  {
    Nonempty(run, steps);
    hide Calls, Run, InOrder, FrameOf, Encodable, Apart, ReplyTo, ServedNext, Busy;
    var s := Last(run);
    InOrderNow(run, steps);
    run', steps' := TurnsToReceive(run, steps);
    var c;
    c, y := ReplyNow(run', steps');
    assert y < |qs| ==> AtWork(s, y);
    run', steps' := Receives(run', steps', c);
  }

  lemma {:induction false} InOrderNow(run: seq<S>, steps: seq<Step>)
    requires Run(run, steps) && run[0].link.Emulated? && Apart(Calls(steps))
    ensures InOrder(Last(run).link)
  {
    Nonempty(run, steps);
    hide Calls, Run, Apart, SoundRun, Inv, Accounted, AllAddressed, HandInv, Occupied, Tracked, ContainerOk;
    ApartIsSound(run, steps);
    RunSystem(run, steps, |run| - 1);
    DeviceParses(Last(run));
  }

  lemma {:induction false} ReplyNow(run: seq<S>, steps: seq<Step>) returns (c: nat, y: nat)
    requires Run(run, steps) && run[0].link.Emulated? && Apart(Calls(steps)) && Last(run).cpc == Receiving
    ensures ServesNext(Last(run), c, y)
  {
    Nonempty(run, steps);
    hide Calls, Run, Apart, SoundRun, SystemInv, ServesNext;
    ApartIsSound(run, steps);
    RunSystem(run, steps, |run| - 1);
    c, y := NextReply(Last(run));
  }

  lemma {:induction false} KeysNow(run: seq<S>, steps: seq<Step>)
    requires Run(run, steps) && run[0].link.Emulated? && Apart(Calls(steps))
    ensures DistinctKeys(Last(run))
  {
    Nonempty(run, steps);
    hide Calls, Run, Apart, DistinctKeys, Addressed;
    ApartIsSound(run, steps);
  }

  /** The client of a DONE entry takes the response, calls again and posts. */
  lemma {:induction false} CallAgain(run: seq<S>, steps: seq<Step>, qs: seq<QState>, n: nat, y: nat, req: Request)
    returns (run': seq<S>, steps': seq<Step>)
    requires Run(run, steps) && Standing(Last(run), qs, n) && y < |qs| && qs[y] == Done && Encodable(req)
    requires forall i | 0 <= i < y :: qs[i] != Free
    ensures Grown(run, run', steps') && Calls(steps') == Calls(steps) + [req]
    ensures Standing(Last(run'), qs[y := Posted], n) && OthersSame(Last(run), Last(run'), y)
    ensures Last(run').hist == Last(run).hist && Last(run').link == Last(run).link
  {
    Nonempty(run, steps);
    hide Calls, Run, FrameOf, Encodable, Overlay, ReadOut;
    var s := Last(run);
    assert AtWork(s, y);
    ReadyNow(run, steps, y);
    run', steps' := Reads(run, steps, y, s.pc[y].c);
    ReadyNow(run', steps', y);
    run', steps' := Releases(run', steps', y);
    run', steps' := Claims(run', steps', y, req, y);
    ReadyNow(run', steps', y);
    run', steps' := Posts(run', steps', y);
    StandingNext(s, Last(run'), qs, n, y, n);
  }

  lemma {:induction false} ReadyNow(run: seq<S>, steps: seq<Step>, p: nat)
    requires Run(run, steps) && p < |Last(run).pc|
    ensures ProducerReady(Last(run), p)
    ensures var s := Last(run);
            HasClaim(s.pc[p]) ==> s.ring[s.claims[s.pc[p].c].idx].claim == s.pc[p].c
    ensures forall i | 0 <= i < |Last(run).ring| && Last(run).ring[i].state != Free ::
              Last(run).ring[i].claim < |Last(run).claims| && Last(run).claims[Last(run).ring[i].claim].idx == i
  {
    Nonempty(run, steps);
    hide Run, EntryOk, ProducerOk, ConsumerOk, ConsumerInv;
    RunKeeps(run, steps, |run| - 1);
    var s := Last(run);
    if HasClaim(s.pc[p]) {
      OwnEntry(s, p);
    }
    forall i | 0 <= i < |s.ring| && s.ring[i].state != Free
      ensures s.ring[i].claim < |s.claims| && s.claims[s.ring[i].claim].idx == i
    {
      assert EntryInv(s, i);
    }
  }

  // ---- Filling the slot ----

  /** Of `k` entries the first `x` are SENT and the others POSTED. */
  function Mixed(x: nat, k: nat): (qs: seq<QState>)
    ensures |qs| == k && forall i | 0 <= i < k :: qs[i] == if i < x then Sent else Posted
  {
    seq(k, i => if i < x then Sent else Posted)
  }

  /** One more client calls and posts. */
  lemma {:induction false} SeatOne(run: seq<S>, steps: seq<Step>, k: nat, req: Request)
    returns (run': seq<S>, steps': seq<Step>)
    requires Run(run, steps) && Standing(Last(run), Mixed(0, k), 0) && Encodable(req)
    requires k < |Last(run).ring| && k < |Last(run).pc| && forall p | k <= p < |Last(run).pc| :: Last(run).pc[p] == Idle
    ensures Grown(run, run', steps') && Calls(steps') == Calls(steps) + [req]
    ensures Standing(Last(run'), Mixed(0, k + 1), 0)
    ensures var s, t := Last(run), Last(run');
            && |t.ring| == |s.ring| && |t.pc| == |s.pc| && t.ceiling == s.ceiling && t.link == s.link
            && forall p | k < p < |t.pc| :: t.pc[p] == Idle
  {
    Nonempty(run, steps);
    hide Calls, Run, FrameOf, Encodable, Overlay;
    var s := Last(run);
    run', steps' := Claims(run, steps, k, req, k);
    ReadyNow(run', steps', k);
    run', steps' := Posts(run', steps', k);
    var t := Last(run');
    forall i | 0 <= i < k + 1 ensures AtWork(t, i) && t.ring[i].state == Posted {
      assert i < k ==> AtWork(s, i);
    }
  }

  /** As many clients as there are calls. */
  lemma {:induction false} SeatAll(s: S, calls: seq<Request>) returns (run: seq<S>, steps: seq<Step>)
    requires Connected(s) && |calls| <= |s.ring| && |calls| <= |s.pc| && Apart(calls)
    ensures Run(run, steps) && run != [] && run[0] == s && Calls(steps) == calls
            && Standing(Last(run), Mixed(0, |calls|), 0)
    ensures Last(run).ceiling == s.ceiling && Last(run).link == s.link
  {
    Begins(s);
    hide Calls, Run, Initial, Encodable, Addressed, Standing, InOrder;
    run, steps := [s], [];
    NoCalls();
    FirstStanding(s);
    var k := 0;
    while k < |calls|
      invariant 0 <= k <= |calls| && Run(run, steps) && run != [] && run[0] == s && Calls(steps) == calls[..k]
      invariant Standing(Last(run), Mixed(0, k), 0) && |Last(run).ring| == |s.ring| && |Last(run).pc| == |s.pc|
      invariant Last(run).ceiling == s.ceiling && Last(run).link == s.link
      invariant forall p | k <= p < |Last(run).pc| :: Last(run).pc[p] == Idle
    {
      run, steps := SeatOne(run, steps, k, calls[k]);
      k := k + 1;
      assert calls[..k] == calls[..k - 1] + [calls[k - 1]];
    }
    assert calls[..k] == calls;
  }

  lemma {:induction false} NoCalls()
    ensures Calls([]) == []
  {
  }

  lemma {:induction false} FirstStanding(s: S)
    requires Connected(s)
    ensures Standing(s, Mixed(0, 0), 0)
  {
  }

  /** The consumer sends the first `w` of them. */
  lemma {:induction false} SendAll(run: seq<S>, steps: seq<Step>, w: nat, k: nat)
    returns (run': seq<S>, steps': seq<Step>)
    requires Run(run, steps) && run != [] && run[0].link.Emulated? && Apart(Calls(steps))
             && Standing(Last(run), Mixed(0, k), 0)
    requires w <= k && w <= Last(run).ceiling && w <= |Last(run).link.dev.container|
    ensures Grown(run, run', steps') && Calls(steps') == Calls(steps) && Standing(Last(run'), Mixed(w, k), w)
    ensures Last(run').ceiling == Last(run).ceiling && |Last(run').link.dev.container| == |Last(run).link.dev.container|
  {
    assert Last(run).link.Emulated?;
    hide Calls, Run, Apart, Standing;
    run', steps' := run, steps;
    var x := 0;
    while x < w
      invariant 0 <= x <= w && Grown(run, run', steps') && Calls(steps') == Calls(steps)
      invariant Standing(Last(run'), Mixed(x, k), x) && Last(run').ceiling == Last(run).ceiling
      invariant Last(run').link.Emulated? && |Last(run').link.dev.container| == |Last(run).link.dev.container|
    {
      run', steps' := SendOne(run', steps', Mixed(x, k), x, x);
      assert Mixed(x, k)[x := Sent] == Mixed(x + 1, k);
      x := x + 1;
    }
  }

  // ---- Rounds ----

  /** One request is answered, its client calls again, and the new request is sent at once. */
  lemma {:induction false} Round(run: seq<S>, steps: seq<Step>, w: nat, k: nat, req: Request)
    returns (run': seq<S>, steps': seq<Step>)
    requires Run(run, steps) && run != [] && run[0].link.Emulated? && Apart(Calls(steps) + [req])
    requires 0 < w <= k && Standing(Last(run), Mixed(w, k), w)
    requires Last(run).ceiling == w <= |Last(run).link.dev.container|
    ensures Grown(run, run', steps') && Calls(steps') == Calls(steps) + [req]
    ensures Standing(Last(run'), Mixed(w, k), w) && KeptFrom(Last(run), Last(run'), w)
    ensures var s, t := Last(run), Last(run');
            && t.ceiling == w <= |t.link.dev.container|
            && t.hist.received == s.hist.received + 1 && t.hist.failed == s.hist.failed
  {
    assert Last(run).link.Emulated?;
    hide Calls, Run, Standing, Encodable, Addressed, KeyOf;
    var qs := Mixed(w, k);
    FewerApart(Calls(steps), req);
    var y;
    run', steps', y := AnswerOne(run, steps, qs, w);
    KeptCount(run, run', steps');
    run', steps' := CallAgain(run', steps', qs[y := Done], w - 1, y, req);
    assert qs[y := Done][y := Posted] == qs[y := Posted];
    run', steps' := SendOne(run', steps', qs[y := Posted], w - 1, y);
    assert qs[y := Posted][y := Sent] == qs;
  }

  /** The entries from `w` on have kept their claims. */
  ghost predicate KeptFrom(s: S, t: S, w: nat) {
    |t.ring| == |s.ring| && forall i | w <= i < |s.ring| :: t.ring[i].claim == s.ring[i].claim
  }

  lemma {:induction false} FewerApart(calls: seq<Request>, req: Request)
    requires Apart(calls + [req])
    ensures Apart(calls) && Encodable(req)
  {
    hide Encodable, Addressed, KeyOf;
    var all := calls + [req];
    assert all[|calls|] == req;
    assert forall i | 0 <= i < |calls| :: all[i] == calls[i];
  }

  lemma {:induction false} KeptCount(run: seq<S>, run': seq<S>, steps': seq<Step>)
    requires Grown(run, run', steps') && run'[0].link.Emulated? && Apart(Calls(steps'))
    ensures Last(run).link.Emulated? && Last(run').link.Emulated?
    ensures |Last(run').link.dev.container| == |Last(run).link.dev.container|
  {
    hide Calls, Run, Apart, SoundRun, Inv, Accounted, AllAddressed, HandInv, Occupied, Tracked, ContainerOk;
    ApartIsSound(run', steps');
    RunSystem(run', steps', |run| - 1);
    SameContainers(run', steps', |run| - 1, |run'| - 1);
  }

  /** As many rounds as there are further calls. */
  lemma {:induction false} Rounds(run: seq<S>, steps: seq<Step>, w: nat, k: nat, more: seq<Request>)
    returns (run': seq<S>, steps': seq<Step>)
    requires Run(run, steps) && run != [] && run[0].link.Emulated? && Apart(Calls(steps) + more)
    requires 0 < w <= k && Standing(Last(run), Mixed(w, k), w)
    requires Last(run).ceiling == w <= |Last(run).link.dev.container|
    ensures Grown(run, run', steps') && Calls(steps') == Calls(steps) + more
    ensures Standing(Last(run'), Mixed(w, k), w) && KeptFrom(Last(run), Last(run'), w)
    ensures var s, t := Last(run), Last(run');
            t.hist.received == s.hist.received + |more| && t.hist.failed == s.hist.failed
    decreases |more|
  {
    hide Calls, Run, Standing, Mixed;
    run', steps' := run, steps;
    if more == [] {
      assert Calls(steps) + more == Calls(steps);
    } else {
      var all := Calls(steps) + more;
      assert all == (Calls(steps) + [more[0]]) + more[1..];
      ApartFront(Calls(steps) + [more[0]], more[1..]);
      run', steps' := Round(run, steps, w, k, more[0]);
      run', steps' := Rounds(run', steps', w, k, more[1..]);
    }
  }

  lemma {:induction false} ApartFront(calls: seq<Request>, more: seq<Request>)
    requires Apart(calls + more)
    ensures Apart(calls)
  {
    hide Encodable, Addressed, KeyOf;
    var all := calls + more;
    assert forall i | 0 <= i < |calls| :: all[i] == calls[i];
  }

  // ---- The entries that wait ----

  /** The services of a run are counted by its history. */
  lemma {:induction false} OrderCounts(run: seq<S>, steps: seq<Step>, l: nat)
    requires Run(run, steps) && l < |run|
    ensures |Order(run, steps, l)| == run[l].hist.received
  {
    hide Moves;
    if l > 0 {
      OrderCounts(run, steps, l - 1);
      assert MovesAt(run, steps, l - 1);
      ServiceCounted(run[l - 1], steps[l - 1], run[l]);
    }
  }

  lemma {:induction false} ServiceCounted(s: S, step: Step, t: S)
    requires Moves(s, step, t)
    ensures t.hist.received == s.hist.received + if Serves(s, step) then 1 else 0
  {
    hide ConsumerStep, ProducerStep, ConsumerReady, ProducerReady, Returns;
    if step.Consumer? {
      ReceiptCounted(s, step.io);
    } else if step.Producer? {
      ProducerLeavesStats(s, step.p);
    }
  }

  lemma {:induction false} ReceiptCounted(s: S, io: IO)
    requires ConsumerReady(s)
    ensures ConsumerStep(s, io).hist.received == s.hist.received + if Serves(s, Consumer(io)) then 1 else 0
  {
    hide McuStep, Wired, AllParse, ServedNext, Ingest, IngestOutcome, DecodeHeader, Overlay, Cas;
  }

  /**
   Take any slot with a ceiling no higher than its number of containers, `k`
   clients, and any further calls by them.  In some sound run all these calls are
   served while every entry from the ceiling up to `k` stays POSTED.
   */
  lemma {:induction false} LeftWaiting(s: S, calls: seq<Request>, more: seq<Request>)
    returns (run: seq<S>, steps: seq<Step>, a: nat)
    requires Connected(s) && s.ceiling <= |s.link.dev.container| && s.ceiling <= |calls| && Apart(calls + more)
    requires |calls| <= |s.ring| && |calls| <= |s.pc|
    ensures SoundRun(run, steps) && run[0] == s && a < |run| && run[a].cpc.Ceiling?
    ensures |Order(run, steps, |steps|)| - |Order(run, steps, a)| == |more|
    ensures forall j | s.ceiling <= j < |calls| :: PostedThrough(run, a, |steps|, j)
  {
    var w, k := s.ceiling, |calls|;
    hide Calls, Run, Initial, Apart, Order;
    ApartFront(calls, more);
    run, steps := SeatAll(s, calls);
    run, steps := SendAll(run, steps, w, k);
    var run0 := run;
    a := |run| - 1;
    run, steps := Rounds(run, steps, w, k, more);
    ApartIsSound(run, steps);
    RunLength(run, steps);
    OrderCounts(run, steps, a);
    OrderCounts(run, steps, |steps|);
    forall j | w <= j < k ensures PostedThrough(run, a, |steps|, j) {
      assert AtWork(run[a], j) && AtWork(run[|steps|], j);
      StaysPosted(run, steps, a, |steps|, j, run[a].ring[j].claim);
    }
  }
}
