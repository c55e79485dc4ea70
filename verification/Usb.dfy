/**
 Receiving frames over a bulk endpoint that delivers in arbitrary chunks.
 The foreign transfer call is scripted: whatever it may return, for any number
 of calls.
 */
module Usb {
  import opened Bytes
  import opened Wire
  import opened Token
  import opened DeviceLaws

  const INT32_MAX := 0x7FFF_FFFF

  datatype Status = Good | TimedOut | Failed

  /** What one transfer call returns: its status, and how much it would move if nothing limits it. */
  datatype Transfer = Transfer(status: Status, count: nat)

  /** Bytes still to arrive, and what the coming transfer calls do; after the last they time out. */
  datatype Endpoint = Endpoint(stream: seq<byte>, script: seq<Transfer>)

  function Min(a: nat, b: nat): nat { if a < b then a else b }

  /** Bytes moved by the next call when `want` are still missing. */
  function Moved(e: Endpoint, want: nat): nat {
    if e.script == [] then 0 else Min(Min(e.script[0].count, Min(want, INT32_MAX)), |e.stream|)
  }

  function CallStatus(e: Endpoint): Status {
    if e.script == [] then TimedOut else e.script[0].status
  }

  function AfterCall(e: Endpoint, want: nat): Endpoint {
    Endpoint(e.stream[Moved(e, want)..], if e.script == [] then [] else e.script[1..])
  }

  /** How the loop of exact transfers ends: result, bytes moved, endpoint. */
  function Exact(e: Endpoint, want: nat): (r: (Result<()>, nat, Endpoint))
    ensures r.1 <= want && r.1 <= |e.stream| && r.2.stream == e.stream[r.1..]
    ensures r.0.Ok? ==> r.1 == want
    decreases want
  {
    if want == 0 then (Ok(()), 0, e)
    else
      var n, e' := Moved(e, want), AfterCall(e, want);
      if CallStatus(e) == TimedOut && n == 0 then (Err(Timeout), n, e')
      else if CallStatus(e) == Failed || n == 0 then (Err(Error.Usb), n, e')
      else
        var (rc, more, last) := Exact(e', want - n);
        (rc, n + more, last)
  }

  /** Cutting a call to what an `int` can hold changes nothing; the loop asks again. */
  lemma {:induction false} CutCall(e: Endpoint, want: nat)
    ensures Moved(e, Min(want, INT32_MAX)) == Moved(e, want) && AfterCall(e, Min(want, INT32_MAX)) == AfterCall(e, want)
  {
  }

  lemma {:induction false} MovedBounds(e: Endpoint, want: nat)
    ensures Moved(e, want) <= want && Moved(e, want) <= |e.stream|
    ensures AfterCall(e, want).stream == e.stream[Moved(e, want)..]
  {
  }

  lemma {:induction false} Joins(s: seq<byte>, a: nat, b: nat)
    requires a + b <= |s|
    ensures s[..a] + s[a..][..b] == s[..a + b] && s[a..][b..] == s[a + b..]
  {
  }

  /** One round of the loop. */
  lemma {:induction false} ExactRound(e: Endpoint, want: nat)
    requires want > 0
    ensures var n, e', r := Moved(e, want), AfterCall(e, want), Exact(e, want);
            if CallStatus(e) == TimedOut && n == 0 then r == (Err(Timeout), n, e')
            else if CallStatus(e) == Failed || n == 0 then r == (Err(Error.Usb), n, e')
            else var r' := Exact(e', want - n); r == (r'.0, n + r'.1, r'.2)
  {
  }

  lemma {:induction false} ExactNothing(e: Endpoint)
    ensures Exact(e, 0) == (Ok(()), 0, e)
  {
  }

  /** After `done` bytes the buffer holds them and the rest of the loop decides the result. */
  ghost predicate Progress(e: Endpoint, before: seq<byte>, at: nat, len: nat, done: nat, now: seq<byte>, e': Endpoint) {
    && done <= len && done <= |e.stream| && at + len <= |before| && e'.stream == e.stream[done..]
    && now == Written(before, at, e.stream[..done])
    && var r := Exact(e', len - done); Exact(e, len) == (r.0, done + r.1, r.2)
  }

  lemma {:induction false} Starts(e: Endpoint, before: seq<byte>, at: nat, len: nat)
    requires at + len <= |before|
    ensures Progress(e, before, at, len, 0, before, e)
  {
    WrittenNothing(before, at);
  }

  lemma {:induction false} Round(e: Endpoint, before: seq<byte>, at: nat, len: nat, done: nat, now: seq<byte>,
                                 e': Endpoint)
    requires Progress(e, before, at, len, done, now, e') && done < len
    ensures var n := Moved(e', len - done);
            && n <= |e'.stream| && done + n <= len && done + n <= |e.stream| && |now| == |before|
            && at + len <= |before|
            && var after, r := AfterCall(e', len - done), Exact(e, len);
            && Written(now, at + done, e'.stream[..n]) == Written(before, at, e.stream[..done + n])
            && if CallStatus(e') == TimedOut && n == 0 then r == (Err(Timeout), done + n, after)
               else if CallStatus(e') == Failed || n == 0 then r == (Err(Error.Usb), done + n, after)
               else Progress(e, before, at, len, done + n, Written(now, at + done, e'.stream[..n]), after)
  {
    hide Exact, Moved, AfterCall, CallStatus, Written;
    ExactRound(e', len - done);
    MovedBounds(e', len - done);
    Joins(e.stream, done, Moved(e', len - done));
    WrittenTwice(before, at, e.stream[..done], e'.stream[..Moved(e', len - done)]);
  }

  lemma {:induction false} Ends(e: Endpoint, before: seq<byte>, at: nat, len: nat, now: seq<byte>, e': Endpoint)
    requires Progress(e, before, at, len, len, now, e')
    ensures Exact(e, len) == (Ok(()), len, e') && len <= |e.stream| && at + len <= |before|
            && now == Written(before, at, e.stream[..len])
  {
    hide Written;
    ExactNothing(e');
  }

  /** What the two-step read returns. */
  function Recv(e: Endpoint, cap: nat): (r: (Result<seq<byte>>, Endpoint)) {
    if cap < FIXED then (Err(Truncated), e)
    else
      var (rc, n, e') := Exact(e, FIXED);
      if rc.Err? then (Err(rc.error), e')
      else
        var h := DecodeHeader(e.stream[..FIXED]);
        if h.Err? then (Err(h.error), e')
        else if cap < FIXED + h.value.payloadLen then (Err(Truncated), e')
        else
          var (rc', n', e'') := Exact(e', h.value.payloadLen);
          if rc'.Err? then (Err(rc'.error), e'') else (Ok(e.stream[..FIXED + h.value.payloadLen]), e'')
  }

  class Transport {
    var stream: seq<byte>
    var script: seq<Transfer>

    ghost function State(): Endpoint
      reads this
    {
      Endpoint(stream, script)
    }

    /** The foreign call `libusb_bulk_transfer`. */
    method BulkTransfer(buf: array<byte>, at: nat, chunk: nat) returns (status: Status, transferred: nat)
      requires at + chunk <= buf.Length
      modifies this, buf
      ensures status == CallStatus(old(State())) && transferred == Moved(old(State()), chunk)
      ensures State() == AfterCall(old(State()), chunk) && transferred <= chunk && transferred <= |old(stream)|
      ensures buf[..] == Written(old(buf[..]), at, old(stream)[..transferred])
    {
      if script == [] {
        return TimedOut, 0;
      }
      status, transferred := script[0].status, Min(Min(script[0].count, Min(chunk, INT32_MAX)), |stream|);
      forall i | 0 <= i < transferred {
        buf[at + i] := stream[i];
      }
      stream, script := stream[transferred..], script[1..];
    }

    /** `ncmp_bulk_exact` on the IN endpoint. */
    method BulkExact(buf: array<byte>, at: nat, len: nat) returns (rc: Result<()>)
      requires at + len <= buf.Length
      modifies this, buf
      ensures var r := Exact(old(State()), len);
              && rc == r.0 && State() == r.2
              && buf[..] == Written(old(buf[..]), at, old(stream)[..r.1])
    {
      hide Exact, Moved, AfterCall, CallStatus, Written, Progress;
      ghost var before, e := buf[..], State();
      var done := 0;
      Starts(e, before, at, len);
      while done < len
        invariant 0 <= done <= len && Progress(e, before, at, len, done, buf[..], State())
      {
        var chunk := if len - done > INT32_MAX then INT32_MAX else len - done;
        CutCall(State(), len - done);
        Round(e, before, at, len, done, buf[..], State());
        var status, transferred := BulkTransfer(buf, at + done, chunk);
        if status == TimedOut && transferred == 0 {
          return Err(Timeout);
        }
        if status != Good && status != TimedOut {
          return Err(Error.Usb);
        }
        if transferred == 0 {
          return Err(Error.Usb);
        }
        done := done + transferred;
      }
      Ends(e, before, at, len, buf[..], State());
      return Ok(());
    }

    /** `ncmp_transport_recv`: the fixed part first, then as much as its header announces. */
    method Receive(buf: array<byte>, cap: nat) returns (rc: Result<nat>)
      requires cap <= buf.Length
      modifies this, buf
      ensures var r := Recv(old(State()), cap);
              && State() == r.1 && rc.Ok? == r.0.Ok?
              && (rc.Err? ==> rc.error == r.0.error)
              && (rc.Ok? ==> rc.value <= cap && buf[..rc.value] == r.0.value)
    {
      hide DecodeHeader, Exact;
      if cap < FIXED {
        return Err(Truncated);
      }
      var step1 := BulkExact(buf, 0, FIXED);
      if step1.Err? {
        return Err(step1.error);
      }
      assert buf[..FIXED] == old(stream)[..FIXED];
      var hdr := DecodeHeader(buf[..FIXED]);
      if hdr.Err? {
        return Err(hdr.error);
      }
      if cap < FIXED + hdr.value.payloadLen {
        return Err(Truncated);
      }
      ExactNothing(State());
      if hdr.value.payloadLen > 0 {
        var step2 := BulkExact(buf, FIXED, hdr.value.payloadLen);
        if step2.Err? {
          return Err(step2.error);
        }
      }
      return Ok(FIXED + hdr.value.payloadLen);
    }
  }

  // ---- Any chunking yields the frames ----

  /** No transfer fails or moves nothing, and there are enough of them. */
  predicate Benign(e: Endpoint) {
    && |e.stream| <= |e.script|
    && forall i | 0 <= i < |e.script| :: e.script[i].status != Failed && e.script[i].count > 0
  }

  /** A benign endpoint delivers exactly what is asked for, in however many chunks. */
  lemma {:induction false} ExactDelivers(e: Endpoint, want: nat)
    requires Benign(e) && want <= |e.stream|
    ensures var r := Exact(e, want); r.0.Ok? && r.2.stream == e.stream[want..] && Benign(r.2)
    decreases want
  {
    if want > 0 {
      ExactDelivers(AfterCall(e, want), want - Moved(e, want));
    }
  }

  /** One frame: a header, and as many bytes as it announces. */
  predicate IsFrame(f: seq<byte>) {
    && FIXED <= |f|
    && var h := DecodeHeader(f[..FIXED]);
    h.Ok? && |f| == FIXED + h.value.payloadLen
  }

  function Joined(frames: seq<seq<byte>>): seq<byte> {
    if frames == [] then [] else frames[0] + Joined(frames[1..])
  }

  lemma {:induction false} RecvFrame(e: Endpoint, cap: nat, f: seq<byte>, rest: seq<byte>)
    requires Benign(e) && e.stream == f + rest && IsFrame(f) && |f| <= cap
    ensures var r := Recv(e, cap); r.0 == Ok(f) && r.1.stream == rest && Benign(r.1)
  {
    hide DecodeHeader, Exact, Benign;
    assert e.stream[..FIXED] == f[..FIXED] && e.stream[..|f|] == f;
    ExactDelivers(e, FIXED);
    var e' := Exact(e, FIXED).2;
    ExactDelivers(e', |f| - FIXED);
    assert e'.stream[|f| - FIXED..] == rest;
  }

  /** The results of `k` calls, and the endpoint after them. */
  function RecvMany(e: Endpoint, cap: nat, k: nat): (seq<Result<seq<byte>>>, Endpoint)
    decreases k
  {
    if k == 0 then ([], e)
    else
      var (r, e') := Recv(e, cap);
      var (rs, last) := RecvMany(e', cap, k - 1);
      ([r] + rs, last)
  }

  /** `k` calls on a stream of frames return the first `k` frames in order and stop at the next boundary. */
  lemma {:induction false} ReceivesFrames(e: Endpoint, cap: nat, frames: seq<seq<byte>>, k: nat)
    requires Benign(e) && e.stream == Joined(frames) && k <= |frames|
    requires forall i | 0 <= i < |frames| :: IsFrame(frames[i]) && |frames[i]| <= cap
    ensures var (rs, last) := RecvMany(e, cap, k);
            && |rs| == k && (forall i | 0 <= i < k :: rs[i] == Ok(frames[i]))
            && last.stream == Joined(frames[k..]) && Benign(last)
    decreases k
  {
    hide Recv, Benign, IsFrame;
    if k > 0 {
      RecvFrame(e, cap, frames[0], Joined(frames[1..]));
      var e' := Recv(e, cap).1;
      ReceivesFrames(e', cap, frames[1..], k - 1);
      assert frames[1..][k - 1..] == frames[k..];
      var (rs, _) := RecvMany(e', cap, k - 1);
      forall i | 0 <= i < k ensures ([Recv(e, cap).0] + rs)[i] == Ok(frames[i]) {
        assert i > 0 ==> frames[1..][i - 1] == frames[i];
      }
    } else {
      assert frames[0..] == frames;
    }
  }

  // ---- What any endpoint yields ----

  /** The transfer does not fail and has something to move. */
  predicate Healthy(t: Transfer) { t.status != Failed && t.count > 0 }

  predicate HealthyTo(script: seq<Transfer>, k: nat)
    requires k <= |script|
  {
    forall i | 0 <= i < k :: Healthy(script[i])
  }

  /** The transfer is the first to move nothing, and has the given status. */
  predicate Dry(t: Transfer, status: Status, left: seq<byte>) { t.status == status && (t.count == 0 || left == []) }

  /** The calls made tell the result: all healthy, or the last of them, or their lack, decides the error. */
  predicate Tells(e: Endpoint, want: nat, rc: Result<()>, moved: nat, last: Endpoint) {
    && |last.script| <= |e.script|
    && var used := |e.script| - |last.script|;
    && last.script == e.script[used..]
    && (rc.Ok? <==> HealthyTo(e.script, used) && moved == want)
    && (rc.Err? ==>
          || (rc.error == Timeout && HealthyTo(e.script, used) && last.script == [])
          || (&& used > 0 && HealthyTo(e.script, used - 1)
              && var t := e.script[used - 1];
              || (rc.error == Timeout && Dry(t, TimedOut, last.stream))
              || (rc.error == Error.Usb && (t.status == Failed || Dry(t, Good, last.stream)))))
  }

  lemma {:induction false} ExactTells(e: Endpoint, want: nat)
    ensures var r := Exact(e, want); Tells(e, want, r.0, r.1, r.2)
    decreases want
  {
    hide Exact, Tells, Moved, AfterCall, CallStatus;
    if want == 0 {
      ExactNothing(e);
      TellsNothing(e);
    } else {
      var n, e' := Moved(e, want), AfterCall(e, want);
      ExactRound(e, want);
      MovedBounds(e, want);
      if n == 0 || CallStatus(e) == Failed {
        TellsLast(e, want);
      } else {
        GoesOn(e, want);
        ExactTells(e', want - n);
        var r := Exact(e', want - n);
        TellsOn(e, e', want, n, r.0, r.1, r.2);
      }
    }
  }

  lemma {:induction false} TellsNothing(e: Endpoint)
    ensures Tells(e, 0, Ok(()), 0, e)
  {
  }

  lemma {:induction false} GoesOn(e: Endpoint, want: nat)
    requires Moved(e, want) > 0 && CallStatus(e) != Failed
    ensures e.script != [] && Healthy(e.script[0]) && AfterCall(e, want).script == e.script[1..]
  {
  }

  lemma {:induction false} TellsLast(e: Endpoint, want: nat)
    requires want > 0 && (Moved(e, want) == 0 || CallStatus(e) == Failed)
    ensures var error := if CallStatus(e) == TimedOut then Timeout else Error.Usb;
            Tells(e, want, Err(error), Moved(e, want), AfterCall(e, want))
  {
    var n, last := Moved(e, want), AfterCall(e, want);
    assert e.script == [] ==> last.script == e.script[0..];
    assert n == 0 ==> last.stream == e.stream;
  }

  lemma {:induction false} TellsOn(e: Endpoint, e': Endpoint, want: nat, n: nat, rc: Result<()>, moved: nat,
                                   last: Endpoint)
    requires e.script != [] && Healthy(e.script[0]) && e'.script == e.script[1..] && n <= want
    requires Tells(e', want - n, rc, moved, last)
    ensures Tells(e, want, rc, n + moved, last)
  {
    hide Healthy, Dry;
    var used := |e.script| - |last.script|;
    HealthyOn(e.script, used);
    if used > 1 {
      HealthyOn(e.script, used - 1);
    }
  }

  lemma {:induction false} HealthyOn(script: seq<Transfer>, k: nat)
    requires 0 < k <= |script| && Healthy(script[0])
    ensures HealthyTo(script, k) <==> HealthyTo(script[1..], k - 1)
  {
    hide Healthy;
    if HealthyTo(script[1..], k - 1) {
      forall i | 0 <= i < k ensures Healthy(script[i]) {
        assert i > 0 ==> script[i] == script[1..][i - 1];
      }
    }
  }

  /** Whatever the endpoint does, a receive that succeeds returns one frame from the front of the stream. */
  lemma {:induction false} RecvSound(e: Endpoint, cap: nat)
    requires Recv(e, cap).0.Ok?
    ensures var (r, e') := Recv(e, cap);
            && IsFrame(r.value) && |r.value| <= cap && |r.value| <= |e.stream|
            && r.value == e.stream[..|r.value|] && e'.stream == e.stream[|r.value|..]
  {
    hide DecodeHeader;
    var f := Recv(e, cap).0.value;
    assert f[..FIXED] == e.stream[..FIXED];
  }

  /** Too small a buffer is refused, before anything is read or once the header has told the length. */
  lemma {:induction false} RecvRefuses(e: Endpoint, cap: nat)
    ensures cap < 24 ==> Recv(e, cap) == (Err(Truncated), e)
    ensures Benign(e) && 24 <= cap && 24 <= |e.stream| ==>
              var h, r := DecodeHeader(e.stream[..24]), Recv(e, cap);
              h.Err? || cap < 24 + h.value.payloadLen ==> r.0 == Err(Truncated) && r.1.stream == e.stream[24..]
  {
    hide Get32, Exact, Benign;
    if Benign(e) && 24 <= cap && 24 <= |e.stream| {
      ExactDelivers(e, 24);
    }
  }

  /** Every encoded message is such a frame. */
  lemma {:induction false} EncodedIsFrame(m: Message)
    requires WellFormed(m)
    ensures IsFrame(Frame(m)) && |Frame(m)| <= MAX_FRAME_SIZE
  {
    hide Frame, Get32;
    Arrives(m, NoBuffer);
    HeaderPrefix(Frame(m));
  }

  /** Only the fixed part matters to the header. */
  lemma {:induction false} HeaderPrefix(b: seq<byte>)
    requires |b| >= FIXED
    ensures DecodeHeader(b[..FIXED]) == DecodeHeader(b)
  {
    hide Put32;
  }
}
