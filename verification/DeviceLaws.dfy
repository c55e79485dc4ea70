/**
 What the emulated device does with well-formed frames: it always answers, it
 serves containers in turn, and staging disturbs no other container.
 */
module DeviceLaws {
  import opened Bytes
  import opened Wire
  import opened Token
  import opened Device

  // ---- Frames ----

  /** The message as the device sees it: the header carries the payload length. */
  function Received(m: Message): Message
    requires WellFormed(m)
  {
    m.(header := FrameHeader(m))
  }

  /** Serving an encoded request succeeds, with the reply to that very request. */
  lemma {:induction false} ServeFrame(mem: Memory, m: Message)
    requires WellFormed(m)
    ensures Parses(Frame(m))
    ensures var (mem', r) := Exec(mem, Received(m));
            && WellFormed(r) && SameIds(m, r) && Serve(mem, Frame(m), MAX_FRAME_SIZE) == (mem', Ok(Frame(r)))
            && DecodeHeader(Frame(r)) == Ok(FrameHeader(r))
  {
    hide Exec, Frame, Decode, DecodeHeader;
    assert Sum(m.lens) <= MAX_PAYLOAD_SIZE;
    Arrives(m, Room.Some(MAX_PAYLOAD_SIZE));
    var (mem', r) := Exec(mem, Received(m));
    Arrives(r, NoBuffer);
  }

  /** Decoding an encoded frame succeeds exactly when the parameters fit the given room. */
  lemma {:induction false} Arrives(m: Message, room: Room)
    requires WellFormed(m)
    ensures DecodeHeader(Frame(m)) == Ok(FrameHeader(m))
    ensures Decode(Frame(m), room) == if room.Some? && room.size < Sum(m.lens) then Err(NoSpace) else Ok(Received(m))
    ensures forall was: Head :: HeadAfter(Frame(m), was) == Head(FrameHeader(m), m.lens)
  {
    hide Frame, GetLens, DecodeHeader, HeadAfter;
    assert Frame(m) + [] == Frame(m);
    RoundTrip(m, [], NoBuffer);
    forall was: Head ensures HeadAfter(Frame(m), was) == Head(FrameHeader(m), m.lens) {
      HeadArrives(Frame(m), m, was);
    }
  }

  lemma {:induction false} HeadArrives(f: seq<byte>, m: Message, was: Head)
    requires WellFormed(m) && Decode(f, NoBuffer) == Ok(m.(header := FrameHeader(m)))
    ensures HeadAfter(f, was) == Head(FrameHeader(m), m.lens)
  {
    hide GetLens, Get32, Sum, Low32;
  }

  /** The mover refuses an encoded frame only when every container is occupied. */
  lemma {:induction false} IngestFrame(d: Device, m: Message)
    requires WellFormed(m)
    ensures var i := FirstVacant(d.container, 0);
            IngestOutcome(d, Frame(m)) == if i == |d.container| then Err(Full) else Ok(i)
  {
    hide Put32, Get32, HeaderBytes, LensBytes;
    var len := HEADER_WIRE_SIZE + PARAM_LEN_ARRAY_SIZE + Sum(m.lens);
    assert Frame(m)[0..4] == Put32(len);
    GetAt(Frame(m), 0, len);
  }

  // ---- Occupancy ----

  function Busy(d: Device): set<nat> {
    set k: nat | k < |d.container| && Staged(d.container[k])
  }

  lemma {:induction false} IngestBusy(d: Device, frame: seq<byte>)
    requires IngestOutcome(d, frame).Ok?
    ensures var i := IngestOutcome(d, frame).value;
            && i < |d.container| && Vacant(d.container[i]) && i !in Busy(d)
            && Ingest(d, frame) == d.(container := d.container[i := Container(frame, true)])
            && |Busy(Ingest(d, frame))| == |Busy(d)| + 1
  {
    hide Get32;
    var i := IngestOutcome(d, frame).value;
    assert Busy(Ingest(d, frame)) == Busy(d) + {i};
  }

  lemma {:induction false} Freed(d: Device, d': Device, i: nat)
    requires i in Busy(d) && d'.container == d.container[i := IDLE]
    ensures |Busy(d')| == |Busy(d)| - 1
  {
    assert Busy(d') == Busy(d) - {i};
  }

  lemma {:induction false} StepBusy(d: Device, cap: nat)
    requires Wired(d) && AllParse(d) && Busy(d) != {}
    ensures var i := At(d, NextStaged(d, 0));
            && i in Busy(d) && McuStep(d, cap).1 == Serve(d.mem, d.container[i].data, cap).1
            && McuStep(d, cap).0 == Device(d.container[i := IDLE], (i + 1) % |d.container|,
                                           Serve(d.mem, d.container[i].data, cap).0)
            && |Busy(McuStep(d, cap).0)| == |Busy(d)| - 1
  {
    hide Serve, Parses, At;
    var k :| k in Busy(d);
    AtDistance(d, k);
    var i := At(d, NextStaged(d, 0));
    Freed(d, McuStep(d, cap).0, i);
  }

  lemma {:induction false} NothingStaged(d: Device, cap: nat)
    requires Wired(d) && AllParse(d) && Busy(d) == {}
    ensures McuStep(d, cap) == (d, Err(State))
  {
    forall k: nat | k < |d.container| ensures !Staged(d.container[k]) {
      assert k !in Busy(d);
    }
  }

  // ---- Round-robin ----

  /** How many places after the cursor container `k` is. */
  function Distance(d: Device, k: nat): (n: nat)
    requires Wired(d) && k < |d.container|
    ensures n < |d.container|
  {
    if k >= d.cursor then k - d.cursor else k + |d.container| - d.cursor
  }

  lemma {:induction false} AtDistance(d: Device, k: nat)
    requires Wired(d) && k < |d.container|
    ensures At(d, Distance(d, k)) == k
  {
    Wraps(d.cursor + Distance(d, k), |d.container|);
  }

  lemma {:induction false} Wraps(a: nat, n: nat)
    requires 0 < n && a < 2 * n
    ensures a % n == if a < n then a else a - n
  {
    if a >= n {
      assert a == n * 1 + (a - n);
    }
  }

  /** A scheduler step serves container `k`, or leaves it staged and strictly nearer. */
  lemma {:induction false} NearerOrServed(d: Device, k: nat, cap: nat)
    requires Wired(d) && AllParse(d) && k in Busy(d)
    ensures var i := At(d, NextStaged(d, 0));
            var d' := McuStep(d, cap).0;
            && Wired(d') && |d'.container| == |d.container|
            && (i != k ==> d'.container[k] == d.container[k] && Distance(d', k) < Distance(d, k))
  {
    hide Serve, Parses;
    AtDistance(d, k);
    var n := NextStaged(d, 0);
    var i := At(d, n);
    StepBusy(d, cap);
    Wraps(d.cursor + n, |d.container|);
    Wraps(i + 1, |d.container|);
  }
}
