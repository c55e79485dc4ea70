/**
 Where everything is in a frame, byte by byte, and which error each malformed or
 unfitting message meets.
 */
module Layout {
  import opened Bytes
  import opened Bits
  import opened Wire
  import opened Codec
  import opened Device
  import Token

  // ---- Words ----

  /** Byte `i` of a stored word, the lowest first. */
  lemma {:induction false} StoredByte(v: uint32, i: nat)
    requires i < 4
    ensures Put32(v)[i] == v / Pow2(8 * i) % 256
  {
    hide Pow2, Shifted;
    OctetIs(v, i);
    ShiftedIs(v, 8 * i);
  }

  /** A word is read with its lowest byte first. */
  lemma {:induction false} ReadWord(b: seq<byte>, p: nat)
    requires p + 4 <= |b|
    ensures Get32(b, p)
            == b[p] as int + 0x100 * b[p + 1] as int + 0x1_0000 * b[p + 2] as int + 0x100_0000 * b[p + 3] as int
  {
  }

  // ---- Frames ----

  /**
   A frame: its own length without the prefix, session, sequence, command,
   acknowledgement, the length of what follows the header, eight parameter
   lengths, the parameters.
   */
  lemma {:induction false} FrameLayout(m: Message)
    requires ValidLens(m.lens) && |m.params| == Sum(m.lens)
    ensures var f := Frame(m);
            && |f| == 56 + |m.params| && f[56..] == m.params
            && Get32(f, 0) == |f| - 4 && Get32(f, 20) == |f| - 24
            && Get32(f, 4) == m.header.session && Get32(f, 8) == m.header.sequence
            && Get32(f, 12) == m.header.command && Get32(f, 16) == m.header.ack
            && forall i | 0 <= i < 8 :: Get32(f, 24 + 4 * i) == m.lens[i]
  {
    hide Put32, Get32, LensBytes, GetLens, Sum;
    var f := Frame(m);
    var h := FrameHeader(m);
    assert f == Put32(HEADER_WIRE_SIZE + h.payloadLen) + HeaderBytes(h) + (LensBytes(m.lens) + m.params);
    FixedFields(h, LensBytes(m.lens) + m.params);
    var fixed := Put32(HEADER_WIRE_SIZE + h.payloadLen) + HeaderBytes(h);
    assert f == fixed + LensBytes(m.lens) + m.params;
    GetLensPut(m.lens, fixed, m.params);
    forall i | 0 <= i < 8 ensures Get32(f, 24 + 4 * i) == m.lens[i] {
      LengthAt(f, 8, i);
    }
  }

  lemma {:induction false} FixedFields(h: Header, after: seq<byte>)
    requires HEADER_WIRE_SIZE + h.payloadLen < WORD
    ensures var b := Put32(HEADER_WIRE_SIZE + h.payloadLen) + HeaderBytes(h) + after;
            && Get32(b, 0) == 20 + h.payloadLen as int && Get32(b, 4) == h.session && Get32(b, 8) == h.sequence
            && Get32(b, 12) == h.command && Get32(b, 16) == h.ack && Get32(b, 20) == h.payloadLen
  {
    hide Put32, Get32;
    var b := Put32(HEADER_WIRE_SIZE + h.payloadLen) + HeaderBytes(h) + after;
    GetAt(b, 0, HEADER_WIRE_SIZE + h.payloadLen);
    GetAt(b, 4, h.session);
    GetAt(b, 8, h.sequence);
    GetAt(b, 12, h.command);
    GetAt(b, 16, h.ack);
    GetAt(b, 20, h.payloadLen);
  }

  lemma {:induction false} LengthAt(b: seq<byte>, n: nat, i: nat)
    requires FIXED + 4 * n <= |b| && i < n
    ensures GetLens(b, n)[i] == Get32(b, 24 + 4 * i)
  {
    hide Get32;
    if i < n - 1 {
      LengthAt(b, n - 1, i);
    }
  }

  // ---- Decoding ----

  /** The lengths a buffer states are consistent with each other and with the buffer. */
  predicate Consistent(b: seq<byte>) {
    && |b| >= 56 && |b| >= 24 + Get32(b, 20) && Get32(b, 0) == (20 + Get32(b, 20) as int) % WORD
    && Get32(b, 20) == 32 + Sum(GetLens(b, 8)) % WORD
  }

  /** Decoding fails for inconsistent lengths, then for want of room, and for nothing else. */
  lemma {:induction false} DecodeErrors(b: seq<byte>, room: Room)
    ensures Decode(b, room) == Err(Truncated) <==> !Consistent(b)
    ensures Decode(b, room) == Err(NoSpace) <==>
              Consistent(b) && room.Some? && room.size < Get32(b, 20) - 32
    ensures Decode(b, room).Err? ==> Decode(b, room).error == Truncated || Decode(b, room).error == NoSpace
  {
    hide Get32, GetLens, Sum;
  }

  /** What a consistent buffer with enough room decodes to. */
  lemma {:induction false} DecodedFields(b: seq<byte>, room: Room)
    requires Consistent(b) && (room.Some? ==> Get32(b, 20) - 32 <= room.size)
    ensures var r := Decode(b, room);
            && r.Ok? && |b| >= 24 + Get32(b, 20) && r.value.params == b[56..24 + Get32(b, 20)]
            && r.value.header == Header(Get32(b, 4), Get32(b, 8), Get32(b, 12), Get32(b, 16), Get32(b, 20))
            && forall i | 0 <= i < 8 :: r.value.lens[i] == Get32(b, 24 + 4 * i)
  {
    hide Get32, GetLens, Sum;
    forall i | 0 <= i < 8 ensures GetLens(b, 8)[i] == Get32(b, 24 + 4 * i) {
      LengthAt(b, 8, i);
    }
  }

  /** The lengths are there to be read, whether or not their sum is the one stated. */
  predicate InReach(b: seq<byte>) {
    && |b| >= 24 && |b| >= 24 + Get32(b, 20) && Get32(b, 20) >= 32
    && Get32(b, 0) == (20 + Get32(b, 20) as int) % WORD
  }

  /** What is left in the caller's structure, error or not: nothing, the header, or the lengths too. */
  lemma {:induction false} HeadFilled(b: seq<byte>, was: Head)
    ensures var h := HeadAfter(b, was);
            && (|b| < 24 ==> h == was)
            && (|b| >= 24 ==> h.header == Header(Get32(b, 4), Get32(b, 8), Get32(b, 12), Get32(b, 16), Get32(b, 20)))
            && (!InReach(b) ==> h.lens == was.lens)
            && (InReach(b) ==> forall i | 0 <= i < 8 :: h.lens[i] == Get32(b, 24 + 4 * i))
    ensures Consistent(b) ==> InReach(b)
  {
    hide Get32, GetLens, Sum;
    if InReach(b) {
      forall i | 0 <= i < 8 ensures HeadAfter(b, was).lens[i] == Get32(b, 24 + 4 * i) {
        LengthAt(b, 8, i);
      }
    }
  }

  // ---- Encoding ----

  /** Each error of encoding, exactly when its limit is the first one broken. */
  lemma {:induction false} EncodeErrors(lens: Lens, room: Room, size: nat)
    ensures var rc, total := EncodeOutcome(lens, room, size), Sum(lens);
            var big := exists i :: 0 <= i < 8 && lens[i] > 32768;
            && (rc == Err(ParamSize) <==> big)
            && (rc == Err(Payload) <==> !big && total > 40960 - 32)
            && (rc == Err(NoSpace) <==> !big && total <= 40960 - 32 && size < 56 + total)
            && (rc == Err(Inval) <==>
                  && !big && total <= 40960 - 32 && size >= 56 + total
                  && total > 0 && (room.NoBuffer? || room.size < total))
            && (rc.Ok? ==> rc.value == 56 + total) && (rc.Err? ==> rc.error in {ParamSize, Payload, NoSpace, Inval})
  {
    hide Sum;
  }

  // ---- Packing ----

  /** The parts before `k` are present or empty, small enough, and fit together. */
  predicate FineBefore(parts: seq<Part>, k: nat, cap: nat)
    requires k <= |parts|
  {
    && |Concat(parts[..k])| <= cap
    && forall j | 0 <= j < k :: if parts[j].Null? then parts[j].len == 0 else |parts[j].data| <= 32768
  }

  /** The first part at fault decides how packing fails; the parts before it have been copied. */
  lemma {:induction false} PartErrors(parts: seq<Part>, k: nat, cap: nat)
    requires 1 <= |parts| <= 8 && k < |parts| && FineBefore(parts, k, cap) && !FineBefore(parts, k + 1, cap)
    ensures !Packable(parts, cap) && Accepted(parts, cap) == Concat(parts[..k])
    ensures var len := if parts[k].Null? then parts[k].len as int else |parts[k].data|;
            Refusal(parts, cap) == if len > 32768 then ParamSize else if parts[k].Null? then Inval else NoSpace
  {
    hide Concat;
    forall j | 0 <= j < k ensures Acceptable(parts, j, cap) {
      StillRoom(parts, j, k, cap);
    }
    ConcatGrows(parts, k + 1);
    NextPart(parts, k);
    assert !Acceptable(parts, k, cap);
  }

  lemma {:induction false} StillRoom(parts: seq<Part>, j: nat, k: nat, cap: nat)
    requires j < k <= |parts| && FineBefore(parts, k, cap)
    ensures Acceptable(parts, j, cap)
  {
    hide Concat;
    ConcatGrows(parts[..k], j + 1);
    assert parts[..k][..j + 1] == parts[..j + 1];
    NextPart(parts, j);
  }

  lemma {:induction false} NextPart(parts: seq<Part>, j: nat)
    requires j < |parts|
    ensures Concat(parts[..j + 1]) == Concat(parts[..j]) + Data(parts[j])
  {
    assert parts[..j + 1][..j] == parts[..j];
  }

  /** One to eight fine parts are packed unless they exceed a payload; any other number is refused. */
  lemma {:induction false} PackErrors(parts: seq<Part>, cap: nat)
    ensures !(1 <= |parts| <= 8) ==> !Packable(parts, cap) && Refusal(parts, cap) == Inval && Accepted(parts, cap) == []
    ensures 1 <= |parts| <= 8 && FineBefore(parts, |parts|, cap) ==>
              && (Packable(parts, cap) <==> |Concat(parts)| <= 40960 - 32)
              && (!Packable(parts, cap) ==> Refusal(parts, cap) == Payload && Accepted(parts, cap) == Concat(parts))
  {
    hide Concat;
    assert parts[..|parts|] == parts;
    if 1 <= |parts| <= 8 && FineBefore(parts, |parts|, cap) {
      forall j | 0 <= j < |parts| ensures Acceptable(parts, j, cap) {
        StillRoom(parts, j, |parts|, cap);
      }
    }
  }

  /** What can be packed is what can then be encoded. */
  lemma {:induction false} PackedEncodes(parts: seq<Part>, cap: nat)
    requires 1 <= |parts| <= 8 && Usable(parts)
    ensures Packable(parts, cap) <==>
              Sum(Padded(parts)) <= cap && EncodeOutcome(Padded(parts), Room.Some(cap), MAX_FRAME_SIZE).Ok?
  {
    hide Concat, Sum;
    ConcatLength(parts);
    SumAppend(LensOf(parts), Zeros(8 - |parts|));
    SumZeros(8 - |parts|);
    assert forall i | 0 <= i < |parts| :: LensOf(parts)[i] == |Data(parts[i])| <= MAX_PARAM_SIZE;
  }

  // ---- The mover ----

  /** Each error of staging a frame; a refused frame changes nothing. */
  lemma {:induction false} IngestErrors(d: Device, frame: seq<byte>)
    ensures var rc := IngestOutcome(d, frame);
            var taken := forall i | 0 <= i < |d.container| :: !Vacant(d.container[i]);
            var matches := |frame| >= 4 && Get32(frame, 0) == |frame| - 4;
            && (rc == Err(Inval) <==> |frame| < 4)
            && (rc == Err(Truncated) <==> |frame| >= 4 && !matches)
            && (rc == Err(NoSpace) <==> matches && |frame| > 65536)
            && (rc == Err(Full) <==> matches && |frame| <= 65536 && taken)
            && (rc.Err? ==> Ingest(d, frame) == d && rc.error in {Inval, Truncated, NoSpace, Full})
  {
    hide Get32;
    var i := FirstVacant(d.container, 0);
    assert i < |d.container| ==> Vacant(d.container[i]);
  }

  /** The staged frames the scheduler must not see: consistent, small, but with lengths whose sum wraps. */
  lemma {:induction false} ParsesIff(data: seq<byte>)
    ensures Parses(data) <==>
              (Consistent(data) && Get32(data, 20) - 32 <= 40960 ==> Sum(GetLens(data, 8)) < WORD)
  {
    hide Get32, GetLens, Sum, Decode;
    var room := Room.Some(MAX_PAYLOAD_SIZE);
    DecodeErrors(data, room);
    if Decode(data, room).Ok? {
      DecodedFields(data, room);
      var m := Decode(data, room).value;
      assert m.lens == GetLens(data, 8) by {
        forall i | 0 <= i < 8 ensures m.lens[i] == GetLens(data, 8)[i] {
          LengthAt(data, 8, i);
        }
      }
      assert |m.params| == Sum(m.lens) % WORD;
    }
  }

  /** A staged frame that does not parse is answered with its error and leaves the token alone. */
  lemma {:induction false} ServeErrors(mem: Token.Memory, data: seq<byte>, cap: nat)
    requires Parses(data) && Decode(data, Room.Some(MAX_PAYLOAD_SIZE)).Err?
    ensures Serve(mem, data, cap) == (mem, Err(if Consistent(data) then NoSpace else Truncated))
  {
    hide Decode, Consistent;
    DecodeErrors(data, Room.Some(MAX_PAYLOAD_SIZE));
  }
}
