/**
 The NCMP wire format: little-endian frames of a length prefix, a fixed
 header, eight parameter lengths and the concatenated parameters.
 */
module Wire {
  import opened Bytes

  const MAX_PARAM_COUNT := 8
  const MAX_PARAM_SIZE := 32 * 1024
  const MAX_PAYLOAD_SIZE := 40 * 1024
  const FRAME_PREFIX_SIZE := 4
  const HEADER_WIRE_SIZE := 20
  const PARAM_LEN_ARRAY_SIZE := 32
  const FIXED := FRAME_PREFIX_SIZE + HEADER_WIRE_SIZE
  const MAX_FRAME_SIZE := FIXED + MAX_PAYLOAD_SIZE

  datatype Error = Inval | NoSpace | ParamSize | Payload | Truncated | State | Timeout | Usb | Full

  datatype Result<+T> = Ok(value: T) | Err(error: Error)

  type Lens = l: seq<uint32> | |l| == MAX_PARAM_COUNT witness [0, 0, 0, 0, 0, 0, 0, 0]

  datatype Header = Header(session: uint32, sequence: uint32, command: uint32, ack: uint32, payloadLen: uint32)

  /** A parsed message: the parameter bytes are those the lengths account for. */
  datatype Message = Message(header: Header, lens: Lens, params: seq<byte>)

  // ---- Scalars ----

  function Put32(v: uint32): (b: seq<byte>)
    ensures |b| == 4
  {
    [Octet(v, 0), Octet(v, 1), Octet(v, 2), Octet(v, 3)]
  }

  function Get32(b: seq<byte>, p: nat): uint32
    requires p + 4 <= |b|
  {
    Word(b[p], b[p + 1], b[p + 2], b[p + 3])
  }

  lemma {:induction false} GetPut(v: uint32)
    ensures Get32(Put32(v), 0) == v
  {
    hide Octet, Word;
    WordOfOctets(v);
  }

  lemma {:induction false} PutGet(b: seq<byte>, p: nat)
    requires p + 4 <= |b|
    ensures Put32(Get32(b, p)) == b[p..p + 4]
  {
    hide Octet, Word;
    OctetsOfWord(b[p], b[p + 1], b[p + 2], b[p + 3]);
  }

  // ---- Lengths ----

  function Sum(lens: seq<uint32>): nat {
    if lens == [] then 0 else Sum(lens[..|lens| - 1]) + lens[|lens| - 1]
  }

  lemma {:induction false} SumAppend(a: seq<uint32>, b: seq<uint32>)
    ensures Sum(a + b) == Sum(a) + Sum(b)
  {
    if b == [] {
      assert a + b == a;
    } else {
      assert (a + b)[..|a + b| - 1] == a + b[..|b| - 1];
      SumAppend(a, b[..|b| - 1]);
    }
  }

  predicate EachFits(lens: seq<uint32>) {
    forall i | 0 <= i < |lens| :: lens[i] <= MAX_PARAM_SIZE
  }

  predicate ValidLens(lens: seq<uint32>) {
    EachFits(lens) && PARAM_LEN_ARRAY_SIZE + Sum(lens) <= MAX_PAYLOAD_SIZE
  }

  /** `ncmp_wire_validate_params` */
  method ValidateParams(lens: Lens) returns (rc: Result<()>)
    ensures rc.Ok? <==> ValidLens(lens)
    ensures rc.Err? ==> rc.error == if EachFits(lens) then Payload else ParamSize
  {
    var total := PARAM_LEN_ARRAY_SIZE;
    var i := 0;
    while i < |lens|
      invariant 0 <= i <= |lens| && EachFits(lens[..i]) && total == PARAM_LEN_ARRAY_SIZE + Sum(lens[..i])
    {
      if lens[i] > MAX_PARAM_SIZE {
        return Err(ParamSize);
      }
      total := total + lens[i];
      i := i + 1;
      assert lens[..i][..i - 1] == lens[..i - 1];
    }
    assert lens[..i] == lens;
    return if total > MAX_PAYLOAD_SIZE then Err(Payload) else Ok(());
  }

  // ---- Frames ----

  function LensBytes(lens: seq<uint32>): (b: seq<byte>)
    ensures |b| == 4 * |lens|
  {
    if lens == [] then [] else LensBytes(lens[..|lens| - 1]) + Put32(lens[|lens| - 1])
  }

  function HeaderBytes(h: Header): (b: seq<byte>)
    ensures |b| == HEADER_WIRE_SIZE
  {
    Put32(h.session) + Put32(h.sequence) + Put32(h.command) + Put32(h.ack) + Put32(h.payloadLen)
  }

  /** The frame of a message; its payload length is recomputed from the lengths. */
  function Frame(m: Message): (f: seq<byte>)
    requires ValidLens(m.lens) && |m.params| == Sum(m.lens)
    ensures |f| == FIXED + PARAM_LEN_ARRAY_SIZE + Sum(m.lens) <= MAX_FRAME_SIZE
  {
    var payloadLen := PARAM_LEN_ARRAY_SIZE + Sum(m.lens);
    Put32(HEADER_WIRE_SIZE + payloadLen)
    + HeaderBytes(m.header.(payloadLen := payloadLen)) + LensBytes(m.lens) + m.params
  }

  /** What `ncmp_wire_decode_header` reads from a buffer. */
  function DecodeHeader(b: seq<byte>): Result<Header> {
    if |b| < FIXED then Err(Truncated)
    else
      var h := Header(Get32(b, 4), Get32(b, 8), Get32(b, 12), Get32(b, 16), Get32(b, 20));
      if Get32(b, 0) != Low32(HEADER_WIRE_SIZE + h.payloadLen) then Err(Truncated) else Ok(h)
  }

  function GetLens(b: seq<byte>, n: nat): (l: seq<uint32>)
    requires FIXED + 4 * n <= |b|
    ensures |l| == n
  {
    if n == 0 then [] else GetLens(b, n - 1) + [Get32(b, FIXED + 4 * (n - 1))]
  }

  /**
   What `ncmp_wire_decode` reads from a buffer, given the room for parameters
   (`None` when the caller passes no buffer for them).  The sum of the lengths
   is kept in 32 bits.
   */
  function Decode(b: seq<byte>, room: Room): Result<Message> {
    var h := DecodeHeader(b);
    if h.Err? then Err(h.error)
    else
      var payloadLen: int := h.value.payloadLen;
      if |b| < FIXED + payloadLen || payloadLen < PARAM_LEN_ARRAY_SIZE then Err(Truncated)
      else
        var lens := GetLens(b, MAX_PARAM_COUNT);
        var sum: int := Low32(Sum(lens));
        if payloadLen != PARAM_LEN_ARRAY_SIZE + sum then Err(Truncated)
        else if room.Some? && sum > 0 && room.size < sum then Err(NoSpace)
        else Ok(Message(h.value, lens, b[FIXED + PARAM_LEN_ARRAY_SIZE..FIXED + PARAM_LEN_ARRAY_SIZE + sum]))
  }

  /** The part of the caller's structure that decoding fills in as far as it gets. */
  datatype Head = Head(header: Header, lens: Lens)

  /**
   The structure after decoding `b`, error or not: the header once there is one,
   the lengths once they are in reach.
   */
  function HeadAfter(b: seq<byte>, was: Head): Head {
    if |b| < FIXED then was
    else
      var h := Header(Get32(b, 4), Get32(b, 8), Get32(b, 12), Get32(b, 16), Get32(b, 20));
      if DecodeHeader(b).Err? || |b| < FIXED + h.payloadLen || h.payloadLen < PARAM_LEN_ARRAY_SIZE then
        was.(header := h)
      else Head(h, GetLens(b, MAX_PARAM_COUNT))
  }

  datatype Room = NoBuffer | Some(size: nat)

  // ---- Round trip ----

  lemma {:induction false} GetLensPut(lens: seq<uint32>, before: seq<byte>, after: seq<byte>)
    requires |before| == FIXED
    ensures GetLens(before + LensBytes(lens) + after, |lens|) == lens
  {
    hide Put32, Get32;
    if lens != [] {
      var n := |lens| - 1;
      var b := before + LensBytes(lens) + after;
      assert b == before + LensBytes(lens[..n]) + (Put32(lens[n]) + after);
      GetLensPut(lens[..n], before, Put32(lens[n]) + after);
      GetPut(lens[n]);
      assert b[FIXED + 4 * n..FIXED + 4 * n + 4] == Put32(lens[n]);
      GetSlice(b, FIXED + 4 * n);
    }
  }

  lemma {:induction false} GetSlice(b: seq<byte>, p: nat)
    requires p + 4 <= |b|
    ensures Get32(b, p) == Get32(b[p..p + 4], 0)
  {
  }

  lemma {:induction false} GetAt(b: seq<byte>, p: nat, v: uint32)
    requires p + 4 <= |b| && b[p..p + 4] == Put32(v)
    ensures Get32(b, p) == v
  {
    GetSlice(b, p);
    GetPut(v);
  }

  /** The fixed part of a frame, read back from whatever follows it. */
  lemma {:induction false} HeaderRoundTrip(h: Header, after: seq<byte>)
    requires HEADER_WIRE_SIZE + h.payloadLen < WORD
    ensures DecodeHeader(Put32(HEADER_WIRE_SIZE + h.payloadLen) + HeaderBytes(h) + after) == Ok(h)
  {
    hide Put32, Get32;
    var len := HEADER_WIRE_SIZE + h.payloadLen;
    var b := Put32(len) + HeaderBytes(h) + after;
    GetAt(b, 0, len);
    GetAt(b, 4, h.session);
    GetAt(b, 8, h.sequence);
    GetAt(b, 12, h.command);
    GetAt(b, 16, h.ack);
    GetAt(b, 20, h.payloadLen);
  }

  /** The header a frame carries. */
  function FrameHeader(m: Message): Header
    requires ValidLens(m.lens)
  {
    m.header.(payloadLen := PARAM_LEN_ARRAY_SIZE + Sum(m.lens))
  }

  /** Decoding a frame, whatever follows it, gives the message back. */
  lemma {:induction false} RoundTrip(m: Message, after: seq<byte>, room: Room)
    requires ValidLens(m.lens) && |m.params| == Sum(m.lens)
    requires room.Some? ==> Sum(m.lens) <= room.size
    ensures DecodeHeader(Frame(m) + after) == Ok(FrameHeader(m))
    ensures Decode(Frame(m) + after, room) == Ok(m.(header := FrameHeader(m)))
  {
    hide Put32, Get32, HeaderBytes, LensBytes;
    var h := FrameHeader(m);
    var fixed := Put32(HEADER_WIRE_SIZE + h.payloadLen) + HeaderBytes(h);
    var b := Frame(m) + after;
    assert b == fixed + (LensBytes(m.lens) + m.params + after);
    HeaderRoundTrip(h, LensBytes(m.lens) + m.params + after);
    assert b == fixed + LensBytes(m.lens) + (m.params + after);
    GetLensPut(m.lens, fixed, m.params + after);
    assert b[FIXED + PARAM_LEN_ARRAY_SIZE..FIXED + PARAM_LEN_ARRAY_SIZE + Sum(m.lens)] == m.params;
  }

  // ---- Canonical form ----

  lemma {:induction false} LensBytesGet(b: seq<byte>, n: nat)
    requires FIXED + 4 * n <= |b|
    ensures LensBytes(GetLens(b, n)) == b[FIXED..FIXED + 4 * n]
  {
    hide Put32, Get32;
    if n > 0 {
      LensBytesGet(b, n - 1);
      PutGet(b, FIXED + 4 * (n - 1));
      assert GetLens(b, n)[..n - 1] == GetLens(b, n - 1);
    }
  }

  lemma {:induction false} HeaderCanonical(b: seq<byte>)
    requires DecodeHeader(b).Ok? && HEADER_WIRE_SIZE + DecodeHeader(b).value.payloadLen < WORD
    ensures var h := DecodeHeader(b).value;
            Put32(HEADER_WIRE_SIZE + h.payloadLen) + HeaderBytes(h) == b[..FIXED]
  {
    hide Put32, Get32;
    PutGet(b, 0);
    PutGet(b, 4);
    PutGet(b, 8);
    PutGet(b, 12);
    PutGet(b, 16);
    PutGet(b, 20);
  }

  /** Re-encoding what was decoded reproduces the bytes of the frame. */
  lemma {:induction false} Canonical(b: seq<byte>, room: Room)
    requires Decode(b, room).Ok? && ValidLens(Decode(b, room).value.lens)
    ensures var m := Decode(b, room).value;
            && |m.params| == Sum(m.lens)
            && m.header == FrameHeader(m)
            && FIXED + m.header.payloadLen <= |b|
            && Frame(m) == b[..FIXED + m.header.payloadLen]
  {
    hide Put32, Get32, HeaderBytes, LensBytes, GetLens;
    var m := Decode(b, room).value;
    var end := FIXED + PARAM_LEN_ARRAY_SIZE;
    HeaderCanonical(b);
    LensBytesGet(b, |m.lens|);
    assert b[..FIXED] + b[FIXED..end] + b[end..end + Sum(m.lens)] == b[..end + Sum(m.lens)];
  }

  /** So two accepted frames with the same message are the same bytes. */
  lemma {:induction false} SameMessageSameBytes(b: seq<byte>, c: seq<byte>, room: Room)
    requires Decode(b, room).Ok? && Decode(b, room) == Decode(c, room) && ValidLens(Decode(b, room).value.lens)
    ensures var n := FIXED + Decode(b, room).value.header.payloadLen;
            n <= |b| && n <= |c| && b[..n] == c[..n]
  {
    hide Decode, Frame;
    Canonical(b, room);
    Canonical(c, room);
  }

  /** Lengths whose 32-bit sum wraps are accepted by decoding, though no message encodes to them. */
  lemma {:induction false} WrappedLengths()
    ensures exists b :: Decode(b, NoBuffer).Ok? && !ValidLens(Decode(b, NoBuffer).value.lens)
  {
    hide Put32, Get32, HeaderBytes, LensBytes;
    var lens: Lens := [0xFFFF_FFFF, 1, 0, 0, 0, 0, 0, 0];
    var h := Header(0, 0, 0, 0, PARAM_LEN_ARRAY_SIZE);
    var fixed := Put32(HEADER_WIRE_SIZE + h.payloadLen) + HeaderBytes(h);
    var b := fixed + LensBytes(lens) + [];
    assert b == fixed + LensBytes(lens);
    HeaderRoundTrip(h, LensBytes(lens));
    GetLensPut(lens, fixed, []);
    assert Sum(lens) == 0x1_0000_0000 by {
      assert lens == [0xFFFF_FFFF, 1] + [0, 0, 0, 0, 0, 0];
      SumAppend([0xFFFF_FFFF, 1], [0, 0, 0, 0, 0, 0]);
      assert lens[..2] == [0xFFFF_FFFF, 1];
      SumTwo(0xFFFF_FFFF, 1);
      SumZeros(6);
      assert [0, 0, 0, 0, 0, 0] == Zeros(6);
    }
    assert Decode(b, NoBuffer).Ok?;
    assert lens[0] > MAX_PARAM_SIZE;
  }

  function Zeros(n: nat): seq<uint32> { seq(n, i => 0) }

  lemma {:induction false} SumZeros(n: nat)
    ensures Sum(Zeros(n)) == 0
  {
    if n > 0 {
      assert Zeros(n)[..n - 1] == Zeros(n - 1);
      SumZeros(n - 1);
    }
  }

  lemma {:induction false} SumTwo(x: uint32, y: uint32)
    ensures Sum([x, y]) == x as int + y as int
  {
    assert [x, y][..1] == [x];
    assert [x][..0] == [];
    assert Sum([x]) == x;
  }
}
