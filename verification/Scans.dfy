/**
 The scans and the wait, when no other thread interferes: a claim takes the first
 FREE entry, a dispatch the first POSTED one, a match the first SENT one with the
 response's key, and a wait gives up after exactly its budget.  A reply goes
 astray exactly when an earlier entry shares its key.
 */
module Scans {
  import opened Bytes
  import opened Wire
  import opened Device
  import opened Ring
  import opened RingSafety

  predicate HasKey(e: Entry, h: Header) {
    e.state == Sent && e.owner == h.session && e.sequence == h.sequence
  }

  function FirstMatch(ring: seq<Entry>, h: Header, from: nat): (i: nat)
    requires from <= |ring|
    ensures from <= i <= |ring| && (i < |ring| ==> HasKey(ring[i], h))
    ensures forall j | from <= j < i :: !HasKey(ring[j], h)
    decreases |ring| - from
  {
    if from == |ring| || HasKey(ring[from], h) then from else FirstMatch(ring, h, from + 1)
  }

  predicate Scanning(cpc: CPC) { cpc.Match? || cpc.MatchOwner? || cpc.MatchSequence? }

  /** The consumer runs on its own, for `n` steps or until the match is decided. */
  ghost function Decided(s: S, n: nat): S
    requires ConsumerReady(s)
    decreases n
  {
    if n == 0 || !Scanning(s.cpc) then s
    else
      var t := ConsumerStep(s, NoCall);
      if ConsumerReady(t) then Decided(t, n - 1) else t
  }

  /** Where an undisturbed match ends. */
  function Verdict(ring: seq<Entry>, frame: seq<byte>, h: Header, from: nat): CPC
    requires from <= |ring|
  {
    var i := FirstMatch(ring, h, from);
    if i < |ring| then CopyReply(frame, h, i) else DropReply
  }

  /** The steps of the three scans, spelled out. */
  lemma {:induction false} ScanStep(s: S)
    requires ConsumerReady(s) && (s.cpc.Take? || Scanning(s.cpc))
    ensures ConsumerStep(s, NoCall) == MoveCPC(s, match s.cpc
      case Take(i) =>
        if i >= |s.ring| then DrainCheck else if s.ring[i].state == Posted then TakeCas(i) else Take(i + 1)
      case Match(f, h, i) =>
        if i >= |s.ring| then DropReply else if s.ring[i].state == Sent then MatchOwner(f, h, i) else Match(f, h, i + 1)
      case MatchOwner(f, h, i) => if s.ring[i].owner == h.session then MatchSequence(f, h, i) else Match(f, h, i + 1)
      case MatchSequence(f, h, i) => if s.ring[i].sequence == h.sequence then CopyReply(f, h, i) else Match(f, h, i + 1)
      case _ => s.cpc)
  {
    hide AllParse, Wired;
  }

  lemma {:induction false} OneStep(s: S, n: nat, t: S)
    requires ConsumerReady(s) && Scanning(s.cpc) && n > 0 && t == ConsumerStep(s, NoCall) && ConsumerReady(t)
    ensures Decided(s, n) == if Scanning(t.cpc) then Decided(t, n - 1) else t
  {
    hide ConsumerReady, ConsumerStep;
  }

  /** Looking at one entry takes at most three steps. */
  lemma {:induction false} LookAt(s: S, n: nat) returns (m: nat)
    requires Inv(s) && ConsumerReady(s) && s.cpc.Match? && s.cpc.i < |s.ring| && n >= 3
    ensures n - 3 <= m < n
    ensures var next := MoveCPC(s, Match(s.cpc.frame, s.cpc.h, s.cpc.i + 1));
            && Inv(next) && ConsumerReady(next)
            && Decided(s, n) == if HasKey(s.ring[s.cpc.i], s.cpc.h) then
                                  MoveCPC(s, CopyReply(s.cpc.frame, s.cpc.h, s.cpc.i))
                                else Decided(next, m)
  {
    hide Inv, AllParse, Wired, Decided, ConsumerStep;
    var i, frame, h := s.cpc.i, s.cpc.frame, s.cpc.h;
    var next := MoveCPC(s, Match(frame, h, i + 1));
    m := n - 1;
    ScanStep(s);
    if s.ring[i].state != Sent {
      ScanKeeps(s, NoCall);
      OneStep(s, n, next);
    } else {
      LookedAt(s);
      var t := MoveCPC(s, MatchOwner(frame, h, i));
      ScanStep(t);
      OneStep(s, n, t);
      m := n - 2;
      if s.ring[i].owner != h.session {
        OneStep(t, n - 1, next);
      } else {
        var u := MoveCPC(s, MatchSequence(frame, h, i));
        ScanStep(u);
        OneStep(t, n - 1, u);
        m := n - 3;
        var cpc := if s.ring[i].sequence == h.sequence then CopyReply(frame, h, i) else Match(frame, h, i + 1);
        OneStep(u, n - 2, MoveCPC(s, cpc));
      }
    }
  }

  /** Three steps for each entry still to look at suffice. */
  lemma {:induction false} MatchFinds(s: S, n: nat)
    requires Inv(s) && ConsumerReady(s) && s.cpc.Match? && s.cpc.i <= |s.ring| && n > 3 * (|s.ring| - s.cpc.i)
    ensures Decided(s, n) == MoveCPC(s, Verdict(s.ring, s.cpc.frame, s.cpc.h, s.cpc.i))
    decreases |s.ring| - s.cpc.i
  {
    hide Inv, AllParse, Wired;
    if s.cpc.i < |s.ring| {
      var m := LookAt(s, n);
      if !HasKey(s.ring[s.cpc.i], s.cpc.h) {
        MatchFinds(MoveCPC(s, Match(s.cpc.frame, s.cpc.h, s.cpc.i + 1)), m);
      }
    }
  }

  /** Looking at a SENT entry is safe, and passing it keeps the invariant. */
  lemma {:induction false} LookedAt(s: S)
    requires Inv(s) && ConsumerReady(s) && s.cpc.Match? && s.cpc.i < |s.ring| && s.ring[s.cpc.i].state == Sent
    ensures var i, frame, h := s.cpc.i, s.cpc.frame, s.cpc.h;
            && s.ring[i].claim < |s.claims| && |frame| <= |s.ring[i].rsp|
            && Inv(MoveCPC(s, Match(frame, h, i + 1)))
  {
    hide EntryOk, ProducerOk, DecodeHeader, AllParse, Wired, Filled, Answered;
    var i, frame, h := s.cpc.i, s.cpc.frame, s.cpc.h;
    assert EntryInv(s, i);
    MoveCPCKeeps(s, Match(frame, h, i + 1));
  }

  /** A reply for entry `idx` reaches it, undisturbed, if and only if no earlier SENT entry has the same key. */
  lemma {:induction false} AstrayIff(s: S, idx: nat, n: nat)
    requires Inv(s) && ConsumerReady(s) && s.cpc.Match? && s.cpc.i == 0 && n > 3 * |s.ring|
    requires idx < |s.ring| && HasKey(s.ring[idx], s.cpc.h)
    ensures Decided(s, n).cpc == CopyReply(s.cpc.frame, s.cpc.h, idx) <==>
              forall j | 0 <= j < idx :: !HasKey(s.ring[j], s.cpc.h)
  {
    hide Inv, Decided, AllParse, Wired;
    MatchFinds(s, n);
  }

  // ---- Claiming ----

  function FirstIn(ring: seq<Entry>, q: QState, from: nat): (i: nat)
    requires from <= |ring|
    ensures from <= i <= |ring| && (i < |ring| ==> ring[i].state == q)
    ensures forall j | from <= j < i :: ring[j].state != q
    decreases |ring| - from
  {
    if from == |ring| || ring[from].state == q then from else FirstIn(ring, q, from + 1)
  }

  /** Producer `p` runs on its own until its search has ended, for `n` steps at most. */
  function Searched(s: S, p: nat, n: nat): S
    requires p < |s.pc|
    decreases n
  {
    if n == 0 || !s.pc[p].Claiming? then s else Searched(ProducerStep(s, p), p, n - 1)
  }

  /** The search claims the first FREE entry, and fails only when there is none. */
  lemma {:induction false} ClaimFinds(s: S, p: nat, n: nat)
    requires p < |s.pc| && s.pc[p].Claiming? && s.pc[p].i <= |s.ring| && n > |s.ring| - s.pc[p].i
    ensures var i := FirstIn(s.ring, Free, s.pc[p].i);
            Searched(s, p, n) == if i < |s.ring| then ClaimEntry(s, p, s.pc[p].req, i) else MovePC(s, p, Idle)
    decreases |s.ring| - s.pc[p].i
  {
    var i := s.pc[p].i;
    if i < |s.ring| && s.ring[i].state != Free {
      var t := MovePC(s, p, Claiming(s.pc[p].req, i + 1));
      ClaimFinds(t, p, n - 1);
      SameClaim(s, t, p, FirstIn(s.ring, Free, i));
    }
  }

  lemma {:induction false} SameClaim(s: S, t: S, p: nat, i: nat)
    requires p < |s.pc| && s.pc[p].Claiming? && t == MovePC(s, p, Claiming(s.pc[p].req, s.pc[p].i + 1))
    ensures MovePC(t, p, Idle) == MovePC(s, p, Idle)
    ensures i < |s.ring| ==> ClaimEntry(t, p, s.pc[p].req, i) == ClaimEntry(s, p, s.pc[p].req, i)
  {
    assert t.pc[p := Idle] == s.pc[p := Idle];
    assert t.pc[p := Encoding(|s.claims|)] == s.pc[p := Encoding(|s.claims|)];
  }

  // ---- Dispatching ----

  /** The consumer runs on its own until it has taken an entry or looked at all, for `n` steps at most. */
  ghost function Dispatched(s: S, n: nat): S
    requires ConsumerReady(s)
    decreases n
  {
    if n == 0 || !(s.cpc.Take? || s.cpc.TakeCas?) then s
    else
      var t := ConsumerStep(s, NoCall);
      if ConsumerReady(t) then Dispatched(t, n - 1) else t
  }

  lemma {:induction false} DispatchStep(s: S, n: nat, t: S)
    requires ConsumerReady(s) && (s.cpc.Take? || s.cpc.TakeCas?) && n > 0 && t == ConsumerStep(s, NoCall)
             && ConsumerReady(t)
    ensures Dispatched(s, n) == if t.cpc.Take? || t.cpc.TakeCas? then Dispatched(t, n - 1) else t
  {
    hide ConsumerReady, ConsumerStep;
  }

  lemma {:induction false} TakesIt(s: S)
    requires ConsumerReady(s) && s.cpc.TakeCas? && s.ring[s.cpc.i].state == Posted
    ensures var i := s.cpc.i;
            ConsumerStep(s, NoCall) == ConsumerUpdate(s, i, s.ring[i].(state := Sent), s.claims[s.ring[i].claim],
                                                      ReserveMax(i))
  {
    hide AllParse, Wired;
  }

  /** The dispatch takes the first POSTED entry, and goes on to drain only when there is none. */
  lemma {:induction false} TakeFinds(s: S, n: nat)
    requires Inv(s) && ConsumerReady(s) && s.cpc.Take? && s.cpc.i <= |s.ring| && n > 2 * (|s.ring| - s.cpc.i)
    ensures var i := FirstIn(s.ring, Posted, s.cpc.i);
            && (i < |s.ring| ==> s.ring[i].claim < |s.claims|)
            && Dispatched(s, n) == if i < |s.ring|
                then ConsumerUpdate(s, i, s.ring[i].(state := Sent), s.claims[s.ring[i].claim], ReserveMax(i))
                              else MoveCPC(s, DrainCheck)
    decreases |s.ring| - s.cpc.i
  {
    hide Inv, AllParse, Wired, Dispatched, ConsumerStep;
    var i := s.cpc.i;
    ScanStep(s);
    if i == |s.ring| {
      DispatchStep(s, n, MoveCPC(s, DrainCheck));
    } else if s.ring[i].state != Posted {
      var next := MoveCPC(s, Take(i + 1));
      ScanKeeps(s, NoCall);
      DispatchStep(s, n, next);
      TakeFinds(next, n - 1);
    } else {
      PostedEntry(s, i);
      var cas := MoveCPC(s, TakeCas(i));
      DispatchStep(s, n, cas);
      TakesIt(cas);
      DispatchStep(cas, n - 1,
                   ConsumerUpdate(s, i, s.ring[i].(state := Sent), s.claims[s.ring[i].claim], ReserveMax(i)));
    }
  }

  // ---- Waiting ----

  /** Producer `p` takes `n` steps on its own while it waits. */
  ghost function Waited(s: S, p: nat, n: nat): S
    requires p < |s.pc| && ProducerReady(s, p)
    decreases n
  {
    if n == 0 || !s.pc[p].Waiting? then s
    else
      var t := ProducerStep(s, p);
      if p < |t.pc| && ProducerReady(t, p) then Waited(t, p, n - 1) else t
  }

  /** A wait whose entry does not become DONE looks `budget + 1` times before giving up; a budget of 0 never does. */
  lemma {:induction false} WaitLasts(s: S, p: nat, c: nat, spins: nat, n: nat)
    requires p < |s.pc| && s.pc[p] == Waiting(c, spins) && ProducerReady(s, p) && s.ring[s.claims[c].idx].state != Done
    requires s.claims[c].req.budget == 0 || spins <= s.claims[c].req.budget
    ensures var b := s.claims[c].req.budget;
            Waited(s, p, n) == MovePC(s, p, if b == 0 || spins + n <= b then Waiting(c, spins + n) else AbandonSent(c))
    decreases n
  {
    hide Decode, FrameOf, Encodable;
    var b := s.claims[c].req.budget;
    if n == 0 {
      assert s.pc[p := s.pc[p]] == s.pc;
    } else if b == 0 || spins + 1 <= b {
      var t := MovePC(s, p, Waiting(c, spins + 1));
      WaitLasts(t, p, c, spins + 1, n - 1);
      var end := if b == 0 || spins + n <= b then Waiting(c, spins + n) else AbandonSent(c);
      assert t.pc[p := end] == s.pc[p := end];
    }
  }
}
