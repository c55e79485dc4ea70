/**
 The scans and the wait under interference: in every run, whatever a search has
 passed it had reason to pass, at the moment it looked.
 */
module Searches {
  import opened Bytes
  import opened Wire
  import opened Device
  import opened Ring
  import opened RingSafety
  import opened RingRuns
  import opened Scans
  import opened Timeouts

  // ---- Claiming ----

  /** At point `k` client `p` saw entry `j` occupied, and it has been searching for the same request since. */
  ghost predicate SeenOccupied(run: seq<S>, steps: seq<Step>, k: nat, l: nat, p: nat, req: Request, j: nat)
    requires |run| == |steps| + 1
  {
    && k < l < |run| && steps[k] == Producer(p) && p < |run[k].pc| && run[k].pc[p] == Claiming(req, j)
    && j < |run[k].ring| && run[k].ring[j].state != Free
    && forall m | k < m <= l :: Searching(run[m], p, req)
  }

  predicate Searching(s: S, p: nat, req: Request) {
    p < |s.pc| && s.pc[p].Claiming? && s.pc[p].req == req
  }

  lemma {:induction false} SearchStep(s: S, step: Step, t: S, p: nat)
    requires Moves(s, step, t) && p < |t.pc| && t.pc[p].Claiming? && t.pc[p].i > 0
    ensures p < |s.pc|
    ensures if step == Producer(p) then
              && s.pc[p] == Claiming(t.pc[p].req, t.pc[p].i - 1)
              && t.pc[p].i - 1 < |s.ring| && s.ring[t.pc[p].i - 1].state != Free
            else s.pc[p] == t.pc[p]
  {
    hide Moves, ProducerStep, ConsumerStep;
    if step == Producer(p) {
      SearchMoves(s, p, t);
    } else {
      PlaceKept(s, step, t, p);
    }
  }

  lemma {:induction false} SearchMoves(s: S, p: nat, t: S)
    requires Moves(s, Producer(p), t) && p < |t.pc| && t.pc[p].Claiming?
    ensures p < |s.pc| && t.pc[p].i > 0 && s.pc[p] == Claiming(t.pc[p].req, t.pc[p].i - 1)
    ensures t.pc[p].i - 1 < |s.ring| && s.ring[t.pc[p].i - 1].state != Free
  {
    hide ProducerStep, ProducerReady;
    OwnPlace(s, p);
  }

  /** In every run a search passes only entries it has seen occupied. */
  lemma {:induction false} ClaimSkips(run: seq<S>, steps: seq<Step>, l: nat, p: nat, j: nat)
    requires Run(run, steps) && l < |run| && p < |run[l].pc| && run[l].pc[p].Claiming? && j < run[l].pc[p].i
    ensures exists k :: SeenOccupied(run, steps, k, l, p, run[l].pc[p].req, j)
  {
    hide Moves;
    assert l > 0;
    var req, i := run[l].pc[p].req, run[l].pc[p].i;
    assert MovesAt(run, steps, l - 1);
    SearchStep(run[l - 1], steps[l - 1], run[l], p);
    if steps[l - 1] == Producer(p) && j == i - 1 {
      assert SeenOccupied(run, steps, l - 1, l, p, req, j);
    } else {
      ClaimSkips(run, steps, l - 1, p, j);
      var k :| SeenOccupied(run, steps, k, l - 1, p, req, j);
      assert SeenOccupied(run, steps, k, l, p, req, j);
    }
  }

  /** So a call is refused a place only after each entry was occupied at some moment of its search. */
  lemma {:induction false} RefusedWhenFull(run: seq<S>, steps: seq<Step>, l: nat, p: nat, j: nat)
    requires Run(run, steps) && l < |steps| && steps[l] == Producer(p) && p < |run[l].pc| && run[l].pc[p].Claiming?
    requires p < |run[l + 1].pc| && run[l + 1].pc[p].Idle? && j < |run[l].ring|
    ensures exists k :: SeenOccupied(run, steps, k, l, p, run[l].pc[p].req, j)
  {
    hide Initial;
    assert MovesAt(run, steps, l);
    ClaimSkips(run, steps, l, p, j);
  }

  // ---- Dispatching ----

  predicate Dispatching(cpc: CPC) { cpc.Take? || cpc.TakeCas? }

  /** At point `k` the consumer saw entry `j` not POSTED, or lost it, and it has been in the same dispatch since. */
  ghost predicate SeenNotPosted(run: seq<S>, steps: seq<Step>, k: nat, l: nat, j: nat)
    requires |run| == |steps| + 1
  {
    && k < l < |run| && steps[k].Consumer? && (run[k].cpc == Take(j) || run[k].cpc == TakeCas(j))
    && j < |run[k].ring| && run[k].ring[j].state != Posted
    && forall m | k < m <= l :: Dispatching(run[m].cpc)
  }

  lemma {:induction false} DispatchBack(s: S, step: Step, t: S)
    requires Moves(s, step, t) && Dispatching(t.cpc)
    ensures || s.cpc == t.cpc
            || (step.Consumer? && t.cpc == Take(0))
            || (step.Consumer? && t.cpc.TakeCas? && s.cpc == Take(t.cpc.i))
            || (&& step.Consumer? && t.cpc.Take? && t.cpc.i > 0
                && (s.cpc == Take(t.cpc.i - 1) || s.cpc == TakeCas(t.cpc.i - 1))
                && t.cpc.i - 1 < |s.ring| && s.ring[t.cpc.i - 1].state != Posted)
  {
    hide ProducerStep, ConsumerStep, ConsumerReady, Returns;
    if step.Producer? {
      ProducerLeavesConsumer(s, step.p);
    } else if step.Consumer? {
      ConsumerDispatches(s, step.io);
    }
  }

  lemma {:induction false} ConsumerDispatches(s: S, io: IO)
    requires ConsumerReady(s) && Dispatching(ConsumerStep(s, io).cpc)
    ensures var cpc := ConsumerStep(s, io).cpc;
            || cpc == Take(0)
            || (cpc.TakeCas? && s.cpc == Take(cpc.i))
            || (&& cpc.Take? && cpc.i > 0 && (s.cpc == Take(cpc.i - 1) || s.cpc == TakeCas(cpc.i - 1))
                && cpc.i - 1 < |s.ring| && s.ring[cpc.i - 1].state != Posted)
  {
    hide Wired, AllParse;
    if !Dispatching(s.cpc) {
      hide ConsumerStep, ConsumerReady;
      DispatchBegins(s, io);
    }
  }

  lemma {:induction false} DispatchBegins(s: S, io: IO)
    requires ConsumerReady(s) && !Dispatching(s.cpc)
    ensures var cpc := ConsumerStep(s, io).cpc; Dispatching(cpc) ==> cpc == Take(0)
  {
    hide McuStep, Wired, AllParse, ServedNext, Ingest, IngestOutcome, DecodeHeader, Overlay, SendOk, RecvOk, Cas;
    CallsEnd(s, io);
  }

  lemma {:induction false} ProducerLeavesConsumer(s: S, p: nat)
    requires p < |s.pc| && !s.pc[p].Idle? && ProducerReady(s, p)
    ensures ProducerStep(s, p).cpc == s.cpc
  {
    hide FrameOf, Encodable, ReadOut, Overlay;
  }

  /** In every run a dispatch passes only entries that were not POSTED when it tried them. */
  lemma {:induction false} TakeSkips(run: seq<S>, steps: seq<Step>, l: nat, j: nat)
    requires Run(run, steps) && l < |run| && Dispatching(run[l].cpc) && j < run[l].cpc.i
    ensures exists k :: SeenNotPosted(run, steps, k, l, j)
  {
    hide Moves;
    assert l > 0;
    assert MovesAt(run, steps, l - 1);
    DispatchBack(run[l - 1], steps[l - 1], run[l]);
    if run[l].cpc.Take? && run[l - 1].cpc != run[l].cpc && j == run[l].cpc.i - 1 {
      assert SeenNotPosted(run, steps, l - 1, l, j);
    } else {
      TakeSkips(run, steps, l - 1, j);
      var k :| SeenNotPosted(run, steps, k, l - 1, j);
      assert SeenNotPosted(run, steps, k, l, j);
    }
  }

  // ---- Matching ----

  predicate MatchingFor(cpc: CPC, frame: seq<byte>, h: Header) {
    Scanning(cpc) && cpc.frame == frame && cpc.h == h
  }

  /**
   At point `k` the consumer saw entry `j` without the response's key, and it has
   been matching the same response since.
   */
  ghost predicate SeenOther(run: seq<S>, steps: seq<Step>, k: nat, l: nat, frame: seq<byte>, h: Header, j: nat)
    requires |run| == |steps| + 1
  {
    && k < l < |run| && steps[k].Consumer? && MatchingFor(run[k].cpc, frame, h) && run[k].cpc.i == j
    && j < |run[k].ring| && !HasKey(run[k].ring[j], h)
    && forall m | k < m <= l :: MatchingFor(run[m].cpc, frame, h)
  }

  lemma {:induction false} MatchBack(s: S, step: Step, t: S)
    requires Moves(s, step, t) && Scanning(t.cpc)
    ensures || s.cpc == t.cpc
            || (step.Consumer? && t.cpc.Match? && t.cpc.i == 0)
            || (&& step.Consumer? && MatchingFor(s.cpc, t.cpc.frame, t.cpc.h)
                && (s.cpc.i == t.cpc.i
                    || (t.cpc.Match? && s.cpc.i + 1 == t.cpc.i && s.cpc.i < |s.ring|
                        && !HasKey(s.ring[s.cpc.i], t.cpc.h))))
  {
    hide ProducerStep, ConsumerStep, ConsumerReady, Returns;
    if step.Producer? {
      ProducerLeavesConsumer(s, step.p);
    } else if step.Consumer? {
      ConsumerMatches(s, step.io);
    }
  }

  lemma {:induction false} ConsumerMatches(s: S, io: IO)
    requires ConsumerReady(s) && Scanning(ConsumerStep(s, io).cpc)
    ensures var cpc := ConsumerStep(s, io).cpc;
            || (cpc.Match? && cpc.i == 0)
            || (&& MatchingFor(s.cpc, cpc.frame, cpc.h)
                && (s.cpc.i == cpc.i
                    || (cpc.Match? && s.cpc.i + 1 == cpc.i && s.cpc.i < |s.ring| && !HasKey(s.ring[s.cpc.i], cpc.h))))
  {
    hide ConsumerReady, ConsumerStep;
    if Scanning(s.cpc) {
      MatchGoesOn(s, io);
    } else {
      MatchBegins(s, io);
    }
  }

  lemma {:induction false} MatchGoesOn(s: S, io: IO)
    requires ConsumerReady(s) && Scanning(s.cpc)
    ensures var cpc := ConsumerStep(s, io).cpc;
            Scanning(cpc) ==>
              && MatchingFor(s.cpc, cpc.frame, cpc.h)
              && (s.cpc.i == cpc.i
                  || (cpc.Match? && s.cpc.i + 1 == cpc.i && s.cpc.i < |s.ring| && !HasKey(s.ring[s.cpc.i], cpc.h)))
  {
    hide Wired, AllParse;
  }

  lemma {:induction false} MatchBegins(s: S, io: IO)
    requires ConsumerReady(s) && !Scanning(s.cpc)
    ensures var cpc := ConsumerStep(s, io).cpc; Scanning(cpc) ==> cpc.Match? && cpc.i == 0
  {
    hide McuStep, Wired, AllParse, ServedNext, Ingest, IngestOutcome, DecodeHeader, Overlay, SendOk, RecvOk, Cas;
    CallsEnd(s, io);
  }

  /** In every run a match passes only entries that lacked the response's key when it looked. */
  lemma {:induction false} MatchSkips(run: seq<S>, steps: seq<Step>, l: nat, j: nat)
    requires Run(run, steps) && l < |run| && Scanning(run[l].cpc) && j < run[l].cpc.i
    ensures exists k :: SeenOther(run, steps, k, l, run[l].cpc.frame, run[l].cpc.h, j)
  {
    hide Moves, HasKey;
    assert l > 0;
    assert MovesAt(run, steps, l - 1);
    MatchBack(run[l - 1], steps[l - 1], run[l]);
    var frame, h := run[l].cpc.frame, run[l].cpc.h;
    if run[l - 1].cpc != run[l].cpc && run[l - 1].cpc.i == j {
      assert SeenOther(run, steps, l - 1, l, frame, h, j);
    } else {
      MatchSkips(run, steps, l - 1, j);
      var k :| SeenOther(run, steps, k, l - 1, frame, h, j);
      assert SeenOther(run, steps, k, l, frame, h, j);
    }
  }

  /** So a response is dropped only after each entry lacked its key at some moment of the match. */
  lemma {:induction false} DroppedUnmatched(run: seq<S>, steps: seq<Step>, l: nat, j: nat)
    requires Run(run, steps) && l < |steps| && Scanning(run[l].cpc) && run[l + 1].cpc.DropReply? && j < |run[l].ring|
    ensures exists k :: SeenOther(run, steps, k, l, run[l].cpc.frame, run[l].cpc.h, j)
  {
    hide Initial, HasKey, ProducerStep, Returns, Wired, AllParse;
    assert MovesAt(run, steps, l);
    if steps[l].Producer? {
      ProducerLeavesConsumer(run[l], steps[l].p);
    }
    MatchSkips(run, steps, l, j);
  }

  // ---- Waiting ----

  /** Some client looks at the entry of its claim `c`, and it is not DONE. */
  predicate VainLook(s: S, step: Step, c: nat) {
    && step.Producer? && step.p < |s.pc| && s.pc[step.p].Waiting? && s.pc[step.p].c == c
    && !OwnState(s, c, Done)
  }

  /** How often that happened before point `l`. */
  function VainLooks(run: seq<S>, steps: seq<Step>, l: nat, c: nat): nat
    requires |run| == |steps| + 1 && l <= |steps|
  {
    if l == 0 then 0 else VainLooks(run, steps, l - 1, c) + if VainLook(run[l - 1], steps[l - 1], c) then 1 else 0
  }

  predicate Filling(pc: PC) {
    pc.Encoding? || pc.RollBack? || pc.SetOwner? || pc.SetSequence? || pc.SetReqLen? || pc.SetRspLen? || pc.Posting?
  }

  predicate GivingUp(pc: PC) { pc.AbandonSent? || pc.AbandonPosted? || pc.Recheck? }

  /** What a client's place says about its vain looks `n` and its budget. */
  predicate LookedFor(pc: PC, budget: nat, n: nat) {
    && (Filling(pc) ==> n == 0)
    && (pc.Waiting? ==> n == pc.spins && (budget == 0 || n <= budget))
    && (GivingUp(pc) ==> budget > 0 && n == budget + 1)
  }

  ghost predicate HasLooked(run: seq<S>, steps: seq<Step>, l: nat, p: nat)
    requires |run| == |steps| + 1 && l <= |steps| && p < |run[l].pc| && HasClaim(run[l].pc[p])
  {
    var c := run[l].pc[p].c;
    c < |run[l].claims| && LookedFor(run[l].pc[p], run[l].claims[c].req.budget, VainLooks(run, steps, l, c))
  }

  /** A look is at a claim there is. */
  lemma {:induction false} NoLooksYet(run: seq<S>, steps: seq<Step>, l: nat, c: nat)
    requires Run(run, steps) && l < |run| && c >= |run[l].claims|
    ensures VainLooks(run, steps, l, c) == 0
  {
    hide Inv, Moves, Initial, OwnState;
    if l > 0 {
      RunKeeps(run, steps, l - 1);
      assert MovesAt(run, steps, l - 1);
      NoFewerClaims(run[l - 1], steps[l - 1], run[l]);
      NoLooksYet(run, steps, l - 1, c);
      if VainLook(run[l - 1], steps[l - 1], c) {
        OwnEntry(run[l - 1], steps[l - 1].p);
      }
    }
  }

  lemma {:induction false} NoFewerClaims(s: S, step: Step, t: S)
    requires Inv(s) && Moves(s, step, t)
    ensures |s.claims| <= |t.claims|
  {
    hide Inv, Moves;
    if |s.claims| > 0 {
      ClaimStep(s, step, t, 0);
    }
  }

  /** One step of a client at work, or the one in which it gets its claim. */
  lemma {:induction false} OwnLook(s: S, p: nat, n: nat)
    requires Inv(s) && p < |s.pc| && !s.pc[p].Idle? && ProducerReady(s, p) && HasClaim(ProducerStep(s, p).pc[p])
    requires if HasClaim(s.pc[p]) then LookedFor(s.pc[p], s.claims[s.pc[p].c].req.budget, n) else n == 0
    ensures var t := ProducerStep(s, p);
            var c := t.pc[p].c;
            && c < |t.claims| && c == (if HasClaim(s.pc[p]) then s.pc[p].c else |s.claims|)
            && LookedFor(t.pc[p], t.claims[c].req.budget, n + if VainLook(s, Producer(p), c) then 1 else 0)
  {
    hide Inv, FrameOf, Encodable, Overlay, ReadOut;
  }

  lemma {:induction false} OthersLook(s: S, step: Step, p: nat)
    requires Inv(s) && p < |s.pc| && HasClaim(s.pc[p]) && step != Producer(p)
    ensures s.pc[p].c < |s.claims| && !VainLook(s, step, s.pc[p].c)
  {
    hide Inv, EntryOk, ProducerOk, ConsumerOk, ClaimOk, BuffersOk, OwnState;
    OwnEntry(s, p);
    if VainLook(s, step, s.pc[p].c) {
      OwnEntry(s, step.p);
    }
  }

  /**
   In every run a client that gives up has looked at its entry, in vain, exactly
   once more often than its budget says; with a budget of 0 it never gives up.
   */
  lemma {:induction false} LooksAsOften(run: seq<S>, steps: seq<Step>, l: nat, p: nat)
    requires Run(run, steps) && l < |run| && p < |run[l].pc| && HasClaim(run[l].pc[p])
    ensures HasLooked(run, steps, l, p)
    decreases l, 1
  {
    hide Inv, Moves, VainLook, LookedFor;
    assert l > 0;
    var s, step, t := run[l - 1], steps[l - 1], run[l];
    RunKeeps(run, steps, l - 1);
    assert MovesAt(run, steps, l - 1);
    var c := t.pc[p].c;
    if step == Producer(p) {
      OwnSteps(run, steps, l, p);
    } else {
      OthersKeep(s, step, t, p);
      LooksAsOften(run, steps, l - 1, p);
      OthersLook(s, step, p);
      SameBudget(s, step, t, c);
    }
  }

  lemma {:induction false} SameBudget(s: S, step: Step, t: S, c: nat)
    requires Inv(s) && Moves(s, step, t) && c < |s.claims|
    ensures c < |t.claims| && t.claims[c].req == s.claims[c].req
  {
    hide Inv, Moves;
    ClaimStep(s, step, t, c);
  }

  lemma {:induction false} OwnSteps(run: seq<S>, steps: seq<Step>, l: nat, p: nat)
    requires Run(run, steps) && 0 < l < |run| && p < |run[l].pc| && HasClaim(run[l].pc[p])
             && steps[l - 1] == Producer(p)
    ensures HasLooked(run, steps, l, p)
    decreases l, 0
  {
    hide Inv, ProducerStep, VainLook, LookedFor, Initial;
    var s := run[l - 1];
    RunKeeps(run, steps, l - 1);
    assert MovesAt(run, steps, l - 1);
    if HasClaim(s.pc[p]) {
      LooksAsOften(run, steps, l - 1, p);
      OwnLook(s, p, VainLooks(run, steps, l - 1, s.pc[p].c));
    } else {
      NoLooksYet(run, steps, l - 1, |s.claims|);
      OwnLook(s, p, 0);
    }
  }
}
