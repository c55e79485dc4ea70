/**
 The buffer-filling side of the wire format: encoding, decoding, packing
 parameters and finding them again, proved against the functions of `Wire`.
 */
module Codec {
  import opened Bytes
  import opened Wire

  /** `put_u32le` */
  method PutU32(buf: array<byte>, p: nat, v: uint32)
    requires p + 4 <= buf.Length
    modifies buf
    ensures buf[..] == Written(old(buf[..]), p, Put32(v))
  {
    hide Octet;
    buf[p] := Octet(v, 0);
    buf[p + 1] := Octet(v, 1);
    buf[p + 2] := Octet(v, 2);
    buf[p + 3] := Octet(v, 3);
  }

  /** `memcpy` between different buffers. */
  method Copy(buf: array<byte>, p: nat, src: seq<byte>)
    requires p + |src| <= buf.Length
    modifies buf
    ensures buf[..] == Written(old(buf[..]), p, src)
  {
    forall i | 0 <= i < |src| {
      buf[p + i] := src[i];
    }
  }

  /** The frame prefix and the header, field by field. */
  method PutFixed(buf: array<byte>, frameLen: uint32, h: Header)
    requires FIXED <= buf.Length
    modifies buf
    ensures buf[..] == Written(old(buf[..]), 0, Put32(frameLen) + HeaderBytes(h))
  {
    hide Put32, Written, HeaderBytes;
    ghost var before := buf[..];
    ghost var done := Put32(frameLen);
    PutU32(buf, 0, frameLen);
    WrittenTwice(before, 0, done, Put32(h.session));
    PutU32(buf, 4, h.session);
    done := done + Put32(h.session);
    WrittenTwice(before, 0, done, Put32(h.sequence));
    PutU32(buf, 8, h.sequence);
    done := done + Put32(h.sequence);
    WrittenTwice(before, 0, done, Put32(h.command));
    PutU32(buf, 12, h.command);
    done := done + Put32(h.command);
    WrittenTwice(before, 0, done, Put32(h.ack));
    PutU32(buf, 16, h.ack);
    done := done + Put32(h.ack);
    WrittenTwice(before, 0, done, Put32(h.payloadLen));
    PutU32(buf, 20, h.payloadLen);
    SixFields(frameLen, h);
  }

  lemma {:induction false} SixFields(frameLen: uint32, h: Header)
    ensures Put32(frameLen) + HeaderBytes(h)
            == Put32(frameLen) + Put32(h.session) + Put32(h.sequence) + Put32(h.command)
               + Put32(h.ack) + Put32(h.payloadLen)
  {
    hide Put32;
  }

  method PutLens(buf: array<byte>, lens: Lens)
    requires FIXED + PARAM_LEN_ARRAY_SIZE <= buf.Length
    modifies buf
    ensures buf[..] == Written(old(buf[..]), FIXED, LensBytes(lens))
  {
    hide Put32, Written;
    var p := FIXED;
    WrittenNothing(buf[..], FIXED);
    for i := 0 to |lens|
      invariant p == FIXED + 4 * i
      invariant buf[..] == Written(old(buf[..]), FIXED, LensBytes(lens[..i]))
    {
      assert lens[..i + 1][..i] == lens[..i];
      WrittenTwice(old(buf[..]), FIXED, LensBytes(lens[..i]), Put32(lens[i]));
      PutU32(buf, p, lens[i]);
      p := p + 4;
    }
    assert lens[..|lens|] == lens;
  }

  /** When and how `ncmp_wire_encode` refuses; `room` is the size of the parameter buffer. */
  function EncodeOutcome(lens: Lens, room: Room, size: nat): Result<nat> {
    if !EachFits(lens) then Err(ParamSize)
    else if !ValidLens(lens) then Err(Payload)
    else if size < FIXED + PARAM_LEN_ARRAY_SIZE + Sum(lens) then Err(NoSpace)
    else if Sum(lens) > 0 && (room.NoBuffer? || room.size < Sum(lens)) then Err(Inval)
    else Ok(FIXED + PARAM_LEN_ARRAY_SIZE + Sum(lens))
  }

  function RoomOf(payload: array?<byte>): Room {
    if payload == null then NoBuffer else Room.Some(payload.Length)
  }

  /** `ncmp_wire_encode` */
  method Encode(header: Header, lens: Lens, payload: array?<byte>, buf: array<byte>, size: nat)
    returns (rc: Result<nat>)
    requires size <= buf.Length && payload != buf
    modifies buf
    ensures rc == EncodeOutcome(lens, RoomOf(payload), size)
    ensures rc.Err? ==> buf[..] == old(buf[..])
    ensures rc.Ok? ==>
      var sum := Sum(lens);
      var params: seq<byte> := if sum > 0 then payload[..sum] else [];
      rc.value <= buf.Length && buf[..] == Written(old(buf[..]), 0, Frame(Message(header, lens, params)))
  {
    hide Put32, HeaderBytes, LensBytes, Written;
    ghost var before := buf[..];
    var valid := ValidateParams(lens);
    if valid.Err? {
      return Err(valid.error);
    }
    var payloadSum: nat := 0;
    for i := 0 to |lens|
      invariant payloadSum == Sum(lens[..i])
    {
      assert lens[..i + 1][..i] == lens[..i];
      payloadSum := payloadSum + lens[i];
    }
    assert lens[..|lens|] == lens;
    var payloadLen: uint32 := PARAM_LEN_ARRAY_SIZE + payloadSum;
    var frameLen := HEADER_WIRE_SIZE + payloadLen;
    var total := FRAME_PREFIX_SIZE + frameLen;
    if size < total {
      return Err(NoSpace);
    }
    if payloadSum > 0 && (payload == null || payload.Length < payloadSum) {
      return Err(Inval);
    }
    ghost var fixed := Put32(frameLen) + HeaderBytes(header.(payloadLen := payloadLen));
    ghost var params: seq<byte> := if payloadSum > 0 then payload[..payloadSum] else [];
    WrittenTwice(before, 0, fixed, LensBytes(lens));
    WrittenTwice(before, 0, fixed + LensBytes(lens), params);
    PutFixed(buf, frameLen, header.(payloadLen := payloadLen));
    PutLens(buf, lens);
    if payloadSum > 0 {
      Copy(buf, FIXED + PARAM_LEN_ARRAY_SIZE, payload[..payloadSum]);
    } else {
      WrittenNothing(buf[..], FIXED + PARAM_LEN_ARRAY_SIZE);
    }
    rc := Ok(total);
    assert fixed + LensBytes(lens) + params == Frame(Message(header, lens, params));
  }

  /** Keeping the sum in 32 bits at every step is the same as at the end. */
  lemma {:induction false} AddLength(got: seq<uint32>, len: uint32)
    ensures Low32(Low32(Sum(got)) + len) == Low32(Sum(got + [len]))
    ensures Low32(0) == 0 && Sum([]) == 0
  {
    assert (got + [len])[..|got|] == got;
  }

  /** `ncmp_wire_decode`; `was` and `head` are the header and lengths of the structure before and after. */
  method DecodeFrame(buf: array<byte>, size: nat, payload: array?<byte>, was: Head) returns (rc: Result<()>, head: Head)
    requires size <= buf.Length && payload != buf
    modifies payload
    ensures head == HeadAfter(buf[..size], was)
    ensures var spec := Decode(buf[..size], RoomOf(payload));
            if spec.Err? then rc == Err(spec.error) && (payload != null ==> payload[..] == old(payload[..]))
            else
              && rc.Ok? && head == Head(spec.value.header, spec.value.lens)
              && (payload != null ==>
                    |spec.value.params| <= payload.Length
                    && payload[..] == Written(old(payload[..]), 0, spec.value.params))
  {
    hide Get32, Sum, Low32, Written;
    ghost var b := buf[..size];
    if payload != null {
      WrittenNothing(payload[..], 0);
    }
    head := was;
    if size < FIXED {
      return Err(Truncated), head;
    }
    var bytes := buf[..size];
    var header := Header(Get32(bytes, 4), Get32(bytes, 8), Get32(bytes, 12), Get32(bytes, 16), Get32(bytes, 20));
    head := head.(header := header);
    if Get32(bytes, 0) != Low32(HEADER_WIRE_SIZE + header.payloadLen) {
      return Err(Truncated), head;
    }
    if size < FIXED + header.payloadLen || header.payloadLen < PARAM_LEN_ARRAY_SIZE {
      return Err(Truncated), head;
    }
    var sum: uint32 := 0;
    var got: seq<uint32> := [];
    AddLength([], 0);
    for i := 0 to MAX_PARAM_COUNT
      invariant got == GetLens(b, i) && sum == Low32(Sum(got))
      invariant payload != null ==> payload[..] == old(payload[..])
    {
      var len := Get32(bytes, FIXED + 4 * i);
      AddLength(got, len);
      got, sum := got + [len], Low32(sum + len);
    }
    head := head.(lens := got);
    if header.payloadLen as int != PARAM_LEN_ARRAY_SIZE + sum {
      return Err(Truncated), head;
    }
    if payload != null && sum > 0 {
      if payload.Length < sum {
        return Err(NoSpace), head;
      }
      Copy(payload, 0, bytes[FIXED + PARAM_LEN_ARRAY_SIZE..FIXED + PARAM_LEN_ARRAY_SIZE + sum]);
    }
    rc := Ok(());
  }

  // ---- Parameters ----

  /** What a caller hands in for one parameter. */
  datatype Part = Null(len: uint32) | Bytes(data: seq<byte>)

  predicate Usable(parts: seq<Part>) {
    forall i | 0 <= i < |parts| ::
      match parts[i]
      case Null(len) => len == 0
      case Bytes(data) => |data| <= MAX_PARAM_SIZE
  }

  function Data(p: Part): seq<byte> {
    if p.Bytes? then p.data else []
  }

  /** All parameters one after the other. */
  function Concat(parts: seq<Part>): seq<byte> {
    if parts == [] then [] else Concat(parts[..|parts| - 1]) + Data(parts[|parts| - 1])
  }

  function LensOf(parts: seq<Part>): seq<uint32>
    requires Usable(parts)
  {
    seq(|parts|, i requires 0 <= i < |parts| => |Data(parts[i])|)
  }

  function Padded(parts: seq<Part>): Lens
    requires Usable(parts) && |parts| <= MAX_PARAM_COUNT
  {
    LensOf(parts) + Zeros(MAX_PARAM_COUNT - |parts|)
  }

  lemma {:induction false} ConcatLength(parts: seq<Part>)
    requires Usable(parts)
    ensures |Concat(parts)| == Sum(LensOf(parts))
  {
    if parts != [] {
      var n := |parts| - 1;
      ConcatLength(parts[..n]);
      assert LensOf(parts)[..n] == LensOf(parts[..n]);
    }
  }

  predicate Packable(parts: seq<Part>, cap: nat) {
    && 1 <= |parts| <= MAX_PARAM_COUNT && Usable(parts)
    && |Concat(parts)| <= cap && PARAM_LEN_ARRAY_SIZE + |Concat(parts)| <= MAX_PAYLOAD_SIZE
  }

  /** Part `i` has an admissible size, is there, and fits behind the parts before it. */
  predicate Acceptable(parts: seq<Part>, i: nat, cap: nat)
    requires i < |parts|
  {
    match parts[i]
    case Null(len) => len == 0 && |Concat(parts[..i])| <= cap
    case Bytes(data) => |data| <= MAX_PARAM_SIZE && |Concat(parts[..i])| + |data| <= cap
  }

  /** The first part that is not acceptable. */
  function FirstBad(parts: seq<Part>, cap: nat, from: nat): (i: nat)
    requires from <= |parts|
    ensures from <= i <= |parts| && (i < |parts| ==> !Acceptable(parts, i, cap))
    ensures forall j | from <= j < i :: Acceptable(parts, j, cap)
    decreases |parts| - from
  {
    if from == |parts| || !Acceptable(parts, from, cap) then from else FirstBad(parts, cap, from + 1)
  }

  /** What is copied before a refusal: the parts before the first one at fault. */
  function Accepted(parts: seq<Part>, cap: nat): seq<byte> {
    if |parts| < 1 || |parts| > MAX_PARAM_COUNT then [] else Concat(parts[..FirstBad(parts, cap, 0)])
  }

  /** Why parts are refused: the first part at fault decides. */
  function Refusal(parts: seq<Part>, cap: nat): Error {
    if |parts| < 1 || |parts| > MAX_PARAM_COUNT then Inval
    else
      var i := FirstBad(parts, cap, 0);
      if i == |parts| then Payload
      else
        match parts[i]
        case Null(len) => if len > MAX_PARAM_SIZE then ParamSize else if len > 0 then Inval else NoSpace
        case Bytes(data) => if |data| > MAX_PARAM_SIZE then ParamSize else NoSpace
  }

  /** `ncmp_msg_pack` */
  method MsgPack(buf: array<byte>, parts: seq<Part>) returns (rc: Result<Lens>)
    modifies buf
    ensures rc.Ok? <==> Packable(parts, buf.Length)
    ensures rc.Err? ==> rc.error == Refusal(parts, buf.Length)
    ensures rc.Err? ==>
              && |Accepted(parts, buf.Length)| <= buf.Length
              && buf[..] == Written(old(buf[..]), 0, Accepted(parts, buf.Length))
    ensures rc.Ok? ==>
      && rc.value == Padded(parts)
      && buf[..] == Written(old(buf[..]), 0, Concat(parts))
  {
    hide Concat, Padded, Written, Usable;
    WrittenNothing(buf[..], 0);
    if |parts| < 1 || |parts| > MAX_PARAM_COUNT {
      return Err(Inval);
    }
    PackStart(parts);
    var lens: seq<uint32> := Zeros(MAX_PARAM_COUNT);
    var off: nat := 0;
    var i := 0;
    while i < |parts|
      invariant 0 <= i <= |parts| && Usable(parts[..i])
      invariant lens == Padded(parts[..i]) && off == |Concat(parts[..i])| <= buf.Length
      invariant buf[..] == Written(old(buf[..]), 0, Concat(parts[..i]))
      invariant FirstBad(parts, buf.Length, 0) == FirstBad(parts, buf.Length, i)
    {
      PackNext(parts, i);
      var len := if parts[i].Bytes? then |parts[i].data| else parts[i].len;
      if len > MAX_PARAM_SIZE {
        return Err(ParamSize);
      }
      if len > 0 && parts[i].Null? {
        return Err(Inval);
      }
      if off + len > buf.Length {
        return Err(NoSpace);
      }
      WrittenTwice(old(buf[..]), 0, Concat(parts[..i]), Data(parts[i]));
      if len > 0 {
        Copy(buf, off, parts[i].data);
      } else {
        WrittenNothing(buf[..], off);
      }
      lens := lens[i := len];
      off := off + len;
      i := i + 1;
    }
    assert parts[..i] == parts;
    if PARAM_LEN_ARRAY_SIZE + off > MAX_PAYLOAD_SIZE {
      return Err(Payload);
    }
    rc := Ok(lens);
  }

  lemma {:induction false} PackStart(parts: seq<Part>)
    ensures parts[..0] == [] && Usable([]) && Padded([]) == Zeros(MAX_PARAM_COUNT) && Concat([]) == []
  {
  }

  lemma {:induction false} ConcatGrows(parts: seq<Part>, i: nat)
    requires i <= |parts|
    ensures |Concat(parts[..i])| <= |Concat(parts)|
    ensures Concat(parts[..i]) == Concat(parts)[..|Concat(parts[..i])|]
    decreases |parts|
  {
    if i == |parts| {
      assert parts[..i] == parts;
    } else {
      var n := |parts| - 1;
      ConcatGrows(parts[..n], i);
      assert parts[..n][..i] == parts[..i];
    }
  }

  lemma {:induction false} PackNext(parts: seq<Part>, i: nat)
    requires i < |parts| <= MAX_PARAM_COUNT && Usable(parts[..i])
    ensures Concat(parts[..i + 1]) == Concat(parts[..i]) + Data(parts[i])
    ensures |Concat(parts[..i + 1])| <= |Concat(parts)|
    ensures Usable(parts) ==> Usable(parts[..i + 1])
    ensures Usable(parts[..i + 1]) ==> Padded(parts[..i + 1]) == Padded(parts[..i])[i := |Data(parts[i])|]
    ensures Usable(parts[..i + 1]) <==>
              match parts[i] case Null(len) => len == 0 case Bytes(data) => |data| <= MAX_PARAM_SIZE
  {
    hide Padded;
    assert parts[..i + 1][..i] == parts[..i];
    ConcatGrows(parts, i + 1);
    if Usable(parts[..i + 1]) {
      PadNext(parts, i);
    }
  }

  lemma {:induction false} PadNext(parts: seq<Part>, i: nat)
    requires i < |parts| <= MAX_PARAM_COUNT && Usable(parts[..i]) && Usable(parts[..i + 1])
    ensures Padded(parts[..i + 1]) == Padded(parts[..i])[i := |Data(parts[i])|]
  {
    hide Usable;
    assert LensOf(parts[..i + 1]) == LensOf(parts[..i]) + [|Data(parts[i])|];
  }

  /** The bytes of parameter `i` of a message. */
  function Param(m: Message, i: nat): (p: seq<byte>)
    requires i < MAX_PARAM_COUNT && |m.params| == Sum(m.lens)
    ensures |p| == m.lens[i] <= |m.params|
  {
    ParamBounds(m.lens, i);
    m.params[Sum(m.lens[..i])..Sum(m.lens[..i + 1])]
  }

  lemma {:induction false} ParamBounds(lens: Lens, i: nat)
    requires i < MAX_PARAM_COUNT
    ensures Sum(lens[..i + 1]) == Sum(lens[..i]) + lens[i] && Sum(lens[..i + 1]) <= Sum(lens)
  {
    assert lens[..i + 1][..i] == lens[..i];
    assert lens == lens[..i + 1] + lens[i + 1..];
    SumAppend(lens[..i + 1], lens[i + 1..]);
  }

  /** `ncmp_msg_param`: where a parameter starts, and how long it is. */
  method MsgParam(m: Message, idx: int) returns (rc: Result<(nat, nat)>)
    requires |m.params| == Sum(m.lens)
    ensures rc.Ok? <==> 0 <= idx < MAX_PARAM_COUNT
    ensures rc.Ok? ==> rc.value.0 + rc.value.1 <= |m.params| && m.params[rc.value.0..][..rc.value.1] == Param(m, idx)
  {
    if idx < 0 || idx >= MAX_PARAM_COUNT {
      return Err(Inval);
    }
    var off: nat := 0;
    for i := 0 to idx
      invariant off == Sum(m.lens[..i])
    {
      ParamBounds(m.lens, i);
      off := off + m.lens[i];
    }
    ParamBounds(m.lens, idx);
    rc := Ok((off, m.lens[idx]));
  }

  lemma {:induction false} PackedSum(parts: seq<Part>)
    requires Usable(parts) && |parts| <= MAX_PARAM_COUNT
    ensures Sum(Padded(parts)) == |Concat(parts)|
  {
    SumAppend(LensOf(parts), Zeros(MAX_PARAM_COUNT - |parts|));
    SumZeros(MAX_PARAM_COUNT - |parts|);
    ConcatLength(parts);
  }

  lemma {:induction false} PackedPrefixSum(parts: seq<Part>, i: nat)
    requires Usable(parts) && |parts| <= MAX_PARAM_COUNT && i <= MAX_PARAM_COUNT
    ensures Sum(Padded(parts)[..i]) == if i <= |parts| then |Concat(parts[..i])| else |Concat(parts)|
  {
    var n := |parts|;
    if i <= n {
      assert Padded(parts)[..i] == LensOf(parts[..i]);
      ConcatLength(parts[..i]);
    } else {
      assert Padded(parts)[..i] == LensOf(parts) + Zeros(i - n);
      SumAppend(LensOf(parts), Zeros(i - n));
      SumZeros(i - n);
      ConcatLength(parts);
    }
  }

  /** Packed parts travel through a frame: parameter `i` of what is decoded is part `i`. */
  lemma {:induction false} PartsRoundTrip(header: Header, parts: seq<Part>, after: seq<byte>, room: Room, i: nat)
    requires Packable(parts, |Concat(parts)|) && i < MAX_PARAM_COUNT
    requires room.Some? ==> |Concat(parts)| <= room.size
    ensures ValidLens(Padded(parts)) && |Concat(parts)| == Sum(Padded(parts))
    ensures var m := Message(header, Padded(parts), Concat(parts));
            && |Frame(m)| == FIXED + PARAM_LEN_ARRAY_SIZE + |Concat(parts)|
            && var d := Decode(Frame(m) + after, room);
            && d.Ok? && |d.value.params| == Sum(d.value.lens)
            && d.value.header == header.(payloadLen := PARAM_LEN_ARRAY_SIZE + |Concat(parts)|)
            && Param(d.value, i) == if i < |parts| then Data(parts[i]) else []
  {
    hide Put32, Frame, Decode, Sum, Concat, Padded, Param, ValidLens;
    PackedSum(parts);
    assert ValidLens(Padded(parts)) by { PackedValid(parts); }
    var m := Message(header, Padded(parts), Concat(parts));
    RoundTrip(m, after, room);
    PackedParam(FrameHeader(m), parts, i);
  }

  lemma {:induction false} PackedValid(parts: seq<Part>)
    requires Usable(parts) && |parts| <= MAX_PARAM_COUNT
    requires PARAM_LEN_ARRAY_SIZE + |Concat(parts)| <= MAX_PAYLOAD_SIZE
    ensures ValidLens(Padded(parts))
  {
    PackedSum(parts);
  }

  lemma {:induction false} PackedParam(header: Header, parts: seq<Part>, i: nat)
    requires Usable(parts) && |parts| <= MAX_PARAM_COUNT && i < MAX_PARAM_COUNT
    ensures Sum(Padded(parts)) == |Concat(parts)|
    ensures Param(Message(header, Padded(parts), Concat(parts)), i) == if i < |parts| then Data(parts[i]) else []
  {
    hide Sum, Padded, Concat;
    PackedSum(parts);
    PackedPrefixSum(parts, i);
    PackedPrefixSum(parts, i + 1);
    if i < |parts| {
      PackNext(parts, i);
      ConcatGrows(parts, i + 1);
      var x, y := |Concat(parts[..i])|, |Concat(parts[..i + 1])|;
      assert Concat(parts)[x..y] == Concat(parts)[..y][x..] == Data(parts[i]);
    } else {
      assert parts[..|parts|] == parts;
    }
  }
}
