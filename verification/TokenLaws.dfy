/**
 Laws of the emulated token over several commands: digest contexts, and
 ciphers that undo each other.
 */
module TokenLaws {
  import opened Bytes
  import opened Wire
  import opened Codec
  import opened Token

  // ---- Digest contexts ----

  /** What a live context stands for: the mechanism, and all data since its INIT. */
  datatype Stream = Stream(mech: uint32, data: seq<byte>)

  /** The token's contexts hold exactly the accumulators of the live streams. */
  ghost predicate Tracks(mem: Memory, live: map<nat, Stream>) {
    && (forall id | id in live :: id < DIGEST_CTX_MAX)
    && (forall i: nat | i < DIGEST_CTX_MAX :: mem[i].inUse <==> i in live)
    && (forall i: nat | i in live ::
          mem[i].mech == live[i].mech && mem[i].acc == Fold(DigestStart(live[i].mech), live[i].data))
  }

  /** The live streams after a request and its response, read off the wire alone. */
  ghost function NextLive(live: map<nat, Stream>, m: Message, r: Message): map<nat, Stream>
    requires Held(m)
  {
    if m.header.command >= CMD_FAIL_BIT || r.header.ack != CKR_OK then live
    else
      match Opcode(m.header.command)
      case 0x0004 => if |r.params| < 4 then live else live[Get32(r.params, 0) := Stream(Scalar(m, 0), [])]
      case 0x0005 =>
        var id: nat := Scalar(m, 0);
        if id in live then live[id := live[id].(data := live[id].data + Param(m, 1))] else live
      case 0x0006 => live - {Scalar(m, 0xFFFF_FFFF)}
      case _ => live
  }

  ghost predicate Is(m: Message, opcode: nat) {
    m.header.command < CMD_FAIL_BIT && Opcode(m.header.command) == opcode
  }

  lemma {:induction false} FoldNothing(acc: uint32)
    ensures Fold(acc, []) == acc
  {
  }

  /** Some context is free. */
  ghost predicate SomeFree(live: map<nat, Stream>) {
    exists i: nat :: i < DIGEST_CTX_MAX && i !in live
  }

  /** INIT gives out the lowest id no live context has; it fails only for an unknown mechanism or without such an id. */
  lemma {:induction false} InitLaw(mem: Memory, live: map<nat, Stream>, m: Message)
    requires Held(m) && Tracks(mem, live) && Is(m, CMD_DIGEST_INIT)
    ensures var r := Exec(mem, m).1;
            && Tracks(Exec(mem, m).0, NextLive(live, m, r))
            && (r.header.ack == CKR_OK <==> DigestSize(Scalar(m, 0)) != 0 && SomeFree(live))
            && (r.header.ack == CKR_OK ==>
                  && |r.params| == 4 && Get32(r.params, 0) !in live
                  && forall j: nat | j < Get32(r.params, 0) :: j in live)
            && (r.header.ack != CKR_OK ==> r.header.ack == if DigestSize(Scalar(m, 0)) == 0 then 0x70 else 0x31)
  {
    hide Fold, Finalize, Xor32, Get32, Put32, Param, Sum, DigestSize;
    var mech := Scalar(m, 0);
    var slot := FirstFree(mem, 0);
    if DigestSize(mech) != 0 && slot < |mem| {
      GetPut(slot);
      FoldNothing(DigestStart(mech));
      assert slot !in live;
    }
  }

  /** UPDATE appends to one stream and leaves the others alone. */
  lemma {:induction false} UpdateLaw(mem: Memory, live: map<nat, Stream>, m: Message)
    requires Held(m) && Tracks(mem, live) && Is(m, CMD_DIGEST_UPDATE)
    ensures var r := Exec(mem, m).1;
            && Tracks(Exec(mem, m).0, NextLive(live, m, r))
            && (r.header.ack == CKR_OK <==> m.lens[0] >= 4 && Scalar(m, 0) in live)
            && (if r.header.ack == CKR_OK then r.params == [] else r.header.ack == 0x6)
  {
    hide Fold, Finalize, Xor32, Get32, Put32, Param, Sum, DigestSize;
    var id: nat := Scalar(m, 0);
    if m.lens[0] >= 4 && id in live {
      FoldAppend(DigestStart(live[id].mech), live[id].data, Param(m, 1));
    }
  }

  /** FINAL returns the digest of everything sent to the context, and frees it. */
  lemma {:induction false} FinalLaw(mem: Memory, live: map<nat, Stream>, m: Message)
    requires Held(m) && Tracks(mem, live) && Is(m, CMD_DIGEST_FINAL)
    ensures var r := Exec(mem, m).1;
            var id: nat := Scalar(m, 0xFFFF_FFFF);
            && Tracks(Exec(mem, m).0, NextLive(live, m, r))
            && (r.header.ack == CKR_OK <==> id in live) && (r.header.ack != CKR_OK ==> r.header.ack == 0x6)
            && (id in live ==> r.params == Digest(live[id].mech, live[id].data))
  {
    hide Fold, Finalize, Xor32, Get32, Put32, Param, Sum, DigestSize;
  }

  /** No other command touches a context. */
  lemma {:induction false} OtherLaw(mem: Memory, live: map<nat, Stream>, m: Message)
    requires Held(m) && Tracks(mem, live)
    requires !Is(m, CMD_DIGEST_INIT) && !Is(m, CMD_DIGEST_UPDATE) && !Is(m, CMD_DIGEST_FINAL)
    ensures Tracks(Exec(mem, m).0, NextLive(live, m, Exec(mem, m).1))
  {
    hide Fold, Finalize, Xor32, Get32, Put32, Param, Sum, DigestSize;
  }

  /** The contexts after a list of commands. */
  function ExecAll(mem: Memory, ms: seq<Message>): Memory
    requires forall i | 0 <= i < |ms| :: Held(ms[i])
  {
    if ms == [] then mem else Exec(ExecAll(mem, ms[..|ms| - 1]), ms[|ms| - 1]).0
  }

  ghost function LiveAfter(mem: Memory, live: map<nat, Stream>, ms: seq<Message>): map<nat, Stream>
    requires forall i | 0 <= i < |ms| :: Held(ms[i])
  {
    if ms == [] then live
    else
      var n := |ms| - 1;
      NextLive(LiveAfter(mem, live, ms[..n]), ms[n], Exec(ExecAll(mem, ms[..n]), ms[n]).1)
  }

  /** Over any interleaving of commands the contexts stay in step with the streams. */
  lemma {:induction false} DigestRun(mem: Memory, live: map<nat, Stream>, ms: seq<Message>)
    requires Tracks(mem, live) && forall i | 0 <= i < |ms| :: Held(ms[i])
    ensures Tracks(ExecAll(mem, ms), LiveAfter(mem, live, ms))
  {
    hide Tracks, NextLive, Exec, Held;
    if ms != [] {
      var n := |ms| - 1;
      DigestRun(mem, live, ms[..n]);
      var mem', live' := ExecAll(mem, ms[..n]), LiveAfter(mem, live, ms[..n]);
      if Is(ms[n], CMD_DIGEST_INIT) {
        InitLaw(mem', live', ms[n]);
      } else if Is(ms[n], CMD_DIGEST_UPDATE) {
        UpdateLaw(mem', live', ms[n]);
      } else if Is(ms[n], CMD_DIGEST_FINAL) {
        FinalLaw(mem', live', ms[n]);
      } else {
        OtherLaw(mem', live', ms[n]);
      }
    }
  }

  /**
   After any commands, FINAL on a context returns the digest of all data sent to
   it since its INIT, however it was cut up and interleaved with other contexts.
   */
  lemma {:induction false} DigestOfStream(mem: Memory, live: map<nat, Stream>, ms: seq<Message>, m: Message)
    requires Tracks(mem, live) && (forall i | 0 <= i < |ms| :: Held(ms[i])) && Held(m) && Is(m, CMD_DIGEST_FINAL)
    ensures var r := Exec(ExecAll(mem, ms), m).1;
            var live' := LiveAfter(mem, live, ms);
            var id: nat := Scalar(m, 0xFFFF_FFFF);
            if id in live' then r.header.ack == CKR_OK && r.params == Digest(live'[id].mech, live'[id].data)
            else r.header.ack != CKR_OK
  {
    hide Tracks, NextLive, Exec, Held, Digest;
    DigestRun(mem, live, ms);
    FinalLaw(ExecAll(mem, ms), LiveAfter(mem, live, ms), m);
  }

  /** A request made of packed parameters. */
  function Request(header: Header, parts: seq<Part>): (m: Message)
    requires Packable(parts, MAX_PAYLOAD_SIZE)
    ensures WellFormed(m) && m.header == header
  {
    PackedValid(parts);
    PackedSum(parts);
    Message(header, Padded(parts), Concat(parts))
  }

  lemma {:induction false} RequestParam(header: Header, parts: seq<Part>, i: nat)
    requires Packable(parts, MAX_PAYLOAD_SIZE) && i < MAX_PARAM_COUNT
    ensures Param(Request(header, parts), i) == if i < |parts| then Data(parts[i]) else []
  {
    PackedParam(header, parts, i);
  }

  lemma {:induction false} FirstParam(m: Message)
    requires Held(m)
    ensures m.lens[0] <= |m.params| && Param(m, 0) == m.params[..m.lens[0]]
  {
    hide Sum;
    ParamBounds(m.lens, 0);
    assert m.lens[..0] == [];
    SumNothing();
  }

  lemma {:induction false} SumNothing()
    ensures Sum([]) == 0
  {
  }

  /** The one-shot command computes the same digest. */
  lemma {:induction false} OneShotLaw(mem: Memory, header: Header, mech: uint32, data: seq<byte>)
    requires DigestSize(mech) != 0 && 4 + |data| <= MAX_PARAM_SIZE
    requires header.command < CMD_FAIL_BIT && Opcode(header.command) == CMD_DIGEST
    ensures Packable([Bytes(Put32(mech) + data)], MAX_PAYLOAD_SIZE)
    ensures var r := Exec(mem, Request(header, [Bytes(Put32(mech) + data)])).1;
            r.header.ack == CKR_OK && r.params == Digest(mech, data)
  {
    hide Fold, Finalize, Xor32, Get32, Put32, Param, Sum, DigestSize;
    var part := Put32(mech) + data;
    OnePart(part);
    var m := Request(header, [Bytes(part)]);
    RequestParam(header, [Bytes(part)], 0);
    FirstParam(m);
    assert m.params[..4] == part[..4] == Put32(mech);
    assert m.params[4..m.lens[0]] == data;
    GetAt(m.params, 0, mech) by { assert m.params[0..4] == m.params[..4]; }
  }

  lemma {:induction false} OnePart(data: seq<byte>)
    requires |data| <= MAX_PARAM_SIZE
    ensures Packable([Bytes(data)], MAX_PAYLOAD_SIZE)
  {
    assert [Bytes(data)][..0] == [];
    assert Concat([Bytes(data)]) == data;
  }

  // ---- Ciphers ----

  lemma {:induction false} ConcatSize(parts: seq<Part>)
    ensures parts == [] ==> |Concat(parts)| == 0
    ensures parts != [] ==> |Concat(parts)| == |Concat(parts[..|parts| - 1])| + |Data(parts[|parts| - 1])|
  {
  }

  function CbcParts(flags: uint32, key: seq<byte>, iv: seq<byte>, data: seq<byte>): seq<Part> {
    [Bytes(Put32(flags)), Bytes(key), Bytes(iv), Bytes(data)]
  }

  lemma {:induction false} CbcPackable(flags: uint32, key: seq<byte>, iv: seq<byte>, data: seq<byte>)
    requires |key| <= 32 && |iv| <= 16 && |data| <= MAX_PARAM_SIZE
    ensures Packable(CbcParts(flags, key, iv, data), MAX_PAYLOAD_SIZE)
  {
    hide Put32, Concat;
    var parts := CbcParts(flags, key, iv, data);
    assert parts[..3][..2] == parts[..2] && parts[..2][..1] == parts[..1] && parts[..1][..0] == [];
    ConcatSize(parts);
    ConcatSize(parts[..3]);
    ConcatSize(parts[..2]);
    ConcatSize(parts[..1]);
    ConcatSize([]);
  }

  /** The response to one CBC command. */
  lemma {:induction false} CbcOnce(mem: Memory, header: Header, flags: uint32, key: seq<byte>, iv: seq<byte>,
                                   data: seq<byte>)
    requires header.command < CMD_FAIL_BIT && Opcode(header.command) == CMD_AES_CBC
    requires KeySize(|key|) && |iv| == AES_BLOCK && |data| % AES_BLOCK == 0 && |data| <= MAX_PARAM_SIZE
    ensures Packable(CbcParts(flags, key, iv, data), MAX_PAYLOAD_SIZE)
    ensures var r := Exec(mem, Request(header, CbcParts(flags, key, iv, data))).1;
            r.header.ack == CKR_OK && r.params == Cipher(key, iv, data)
  {
    hide Cipher, Concat, Padded, Put32, Param, Sum, Request, Xor32, Fold;
    CbcPackable(flags, key, iv, data);
    var parts := CbcParts(flags, key, iv, data);
    RequestParam(header, parts, 0);
    RequestParam(header, parts, 1);
    RequestParam(header, parts, 2);
    RequestParam(header, parts, 3);
  }

  /** Feeding the output of a CBC command to another one gives the data back. */
  lemma {:induction false} CbcTwice(mem: Memory, mem': Memory, header: Header, header': Header, flags: uint32,
                                    flags': uint32,
                 key: seq<byte>, iv: seq<byte>, data: seq<byte>)
    requires header.command < CMD_FAIL_BIT && Opcode(header.command) == CMD_AES_CBC
    requires header'.command < CMD_FAIL_BIT && Opcode(header'.command) == CMD_AES_CBC
    requires KeySize(|key|) && |iv| == AES_BLOCK && |data| % AES_BLOCK == 0 && |data| <= MAX_PARAM_SIZE
    ensures Packable(CbcParts(flags, key, iv, data), MAX_PAYLOAD_SIZE)
    ensures var out := Exec(mem, Request(header, CbcParts(flags, key, iv, data))).1.params;
            && Packable(CbcParts(flags', key, iv, out), MAX_PAYLOAD_SIZE)
            && Exec(mem', Request(header', CbcParts(flags', key, iv, out))).1.params == data
  {
    hide Cipher, Request, CbcParts, Exec, Packable;
    CbcOnce(mem, header, flags, key, iv, data);
    CbcOnce(mem', header', flags', key, iv, Cipher(key, iv, data));
    CipherUndoes(key, iv, data);
  }

  function EcbParts(flags: uint32, key: seq<byte>, data: seq<byte>): seq<Part> {
    [Bytes(Put32(flags)), Bytes(key), Bytes(data)]
  }

  lemma {:induction false} EcbOnce(mem: Memory, header: Header, flags: uint32, key: seq<byte>, data: seq<byte>)
    requires header.command < CMD_FAIL_BIT && Opcode(header.command) == CMD_AES_ECB
    requires KeySize(|key|) && |data| % AES_BLOCK == 0 && |data| <= MAX_PARAM_SIZE
    ensures Packable(EcbParts(flags, key, data), MAX_PAYLOAD_SIZE)
    ensures var r := Exec(mem, Request(header, EcbParts(flags, key, data))).1;
            r.header.ack == CKR_OK && r.params == Cipher(key, [], data)
  {
    hide Cipher, Concat, Padded, Put32, Param, Sum, Request, Xor32, Fold;
    var parts := EcbParts(flags, key, data);
    assert parts[..2][..1] == parts[..1] && parts[..1][..0] == [];
    ConcatSize(parts);
    ConcatSize(parts[..2]);
    ConcatSize(parts[..1]);
    ConcatSize([]);
    RequestParam(header, parts, 0);
    RequestParam(header, parts, 1);
    RequestParam(header, parts, 2);
  }

  /** The same for ECB. */
  lemma {:induction false} EcbTwice(mem: Memory, mem': Memory, header: Header, header': Header, flags: uint32,
                                    flags': uint32,
                 key: seq<byte>, data: seq<byte>)
    requires header.command < CMD_FAIL_BIT && Opcode(header.command) == CMD_AES_ECB
    requires header'.command < CMD_FAIL_BIT && Opcode(header'.command) == CMD_AES_ECB
    requires KeySize(|key|) && |data| % AES_BLOCK == 0 && |data| <= MAX_PARAM_SIZE
    ensures Packable(EcbParts(flags, key, data), MAX_PAYLOAD_SIZE)
    ensures var out := Exec(mem, Request(header, EcbParts(flags, key, data))).1.params;
            && Packable(EcbParts(flags', key, out), MAX_PAYLOAD_SIZE)
            && Exec(mem', Request(header', EcbParts(flags', key, out))).1.params == data
  {
    hide Cipher, Request, EcbParts, Exec, Packable;
    EcbOnce(mem, header, flags, key, data);
    EcbOnce(mem', header', flags', key, Cipher(key, [], data));
    CipherUndoes(key, [], data);
  }

  function GcmParts(flags: uint32, key: seq<byte>, iv: seq<byte>, aad: seq<byte>, taglen: uint32,
                    data: seq<byte>): seq<Part> {
    [Bytes(Put32(flags)), Bytes(key), Bytes(iv), Bytes(aad), Bytes(Put32(taglen)), Bytes(data)]
  }

  /** Sizes a GCM command accepts, in one message. */
  predicate GcmSizes(key: seq<byte>, iv: seq<byte>, aad: seq<byte>, taglen: uint32, data: seq<byte>) {
    && KeySize(|key|) && 0 < |iv| <= 16 && 0 < taglen <= 16
    && |aad| <= MAX_PARAM_SIZE && |data| <= MAX_PARAM_SIZE
    && PARAM_LEN_ARRAY_SIZE + 4 + |key| + |iv| + |aad| + 4 + |data| <= MAX_PAYLOAD_SIZE
  }

  lemma {:induction false} GcmPackable(header: Header, flags: uint32, key: seq<byte>, iv: seq<byte>, aad: seq<byte>,
                                       taglen: uint32, data: seq<byte>)
    requires GcmSizes(key, iv, aad, taglen, data)
    ensures var parts := GcmParts(flags, key, iv, aad, taglen, data);
            && Packable(parts, MAX_PAYLOAD_SIZE)
            && forall i: nat | i < 6 :: Param(Request(header, parts), i) == Data(parts[i])
  {
    hide Put32, Concat, Padded, Param, Request, Sum;
    var parts := GcmParts(flags, key, iv, aad, taglen, data);
    assert parts[..5][..4] == parts[..4] && parts[..4][..3] == parts[..3] && parts[..3][..2] == parts[..2];
    assert parts[..2][..1] == parts[..1] && parts[..1][..0] == [];
    ConcatSize(parts);
    ConcatSize(parts[..5]);
    ConcatSize(parts[..4]);
    ConcatSize(parts[..3]);
    ConcatSize(parts[..2]);
    ConcatSize(parts[..1]);
    ConcatSize([]);
    forall i: nat | i < 6 ensures Param(Request(header, parts), i) == Data(parts[i]) {
      RequestParam(header, parts, i);
    }
  }

  /** What a GCM command answers to a request that passes its checks. */
  lemma {:induction false} GcmOnce(mem: Memory, header: Header, flags: uint32, key: seq<byte>, iv: seq<byte>,
                                   aad: seq<byte>,
                taglen: uint32, data: seq<byte>)
    requires header.command < CMD_FAIL_BIT && Opcode(header.command) == CMD_AES_GCM
    requires GcmSizes(key, iv, aad, taglen, data)
    ensures Packable(GcmParts(flags, key, iv, aad, taglen, data), MAX_PAYLOAD_SIZE)
    ensures var r := Exec(mem, Request(header, GcmParts(flags, key, iv, aad, taglen, data))).1;
            var ct := Cipher(key, iv, data);
            && (flags % 2 == 1 && |data| + taglen <= MAX_PARAM_SIZE ==>
                  r.header.ack == CKR_OK && r.params == ct + Tag(key, iv, aad, ct, taglen))
            && (flags % 2 == 0 ==>
                  if |data| >= taglen && Tag(key, iv, aad, data[..|data| - taglen], taglen) == data[|data| - taglen..]
                  then r.header.ack == CKR_OK && r.params == Cipher(key, iv, data[..|data| - taglen])
                  else r.header.ack == CKR_ENCRYPTED_DATA_INVALID)
  {
    hide Cipher, Tag, Concat, Padded, Put32, Get32, Param, Sum, Request, Xor32, Fold;
    var parts := GcmParts(flags, key, iv, aad, taglen, data);
    GcmPackable(header, flags, key, iv, aad, taglen, data);
    var m := Request(header, parts);
    assert Param(m, 0) == Put32(flags) && Param(m, 1) == key && Param(m, 2) == iv;
    assert Param(m, 3) == aad && Param(m, 4) == Put32(taglen) && Param(m, 5) == data;
    GetPut(flags);
    GetPut(taglen);
  }

  /** Decrypting what was encrypted under the same key, IV, AAD and tag length always succeeds. */
  lemma {:induction false} GcmRoundTrip(mem: Memory, mem': Memory, header: Header, header': Header, flags: uint32,
                                        flags': uint32,
                     key: seq<byte>, iv: seq<byte>, aad: seq<byte>, taglen: uint32, data: seq<byte>)
    requires header.command < CMD_FAIL_BIT && Opcode(header.command) == CMD_AES_GCM && flags % 2 == 1
    requires header'.command < CMD_FAIL_BIT && Opcode(header'.command) == CMD_AES_GCM && flags' % 2 == 0
    requires GcmSizes(key, iv, aad, taglen, data) && |data| + taglen <= MAX_PARAM_SIZE
    requires PARAM_LEN_ARRAY_SIZE + 8 + |key| + |iv| + |aad| + |data| + taglen <= MAX_PAYLOAD_SIZE
    ensures Packable(GcmParts(flags, key, iv, aad, taglen, data), MAX_PAYLOAD_SIZE)
    ensures var out := Exec(mem, Request(header, GcmParts(flags, key, iv, aad, taglen, data))).1.params;
            && Packable(GcmParts(flags', key, iv, aad, taglen, out), MAX_PAYLOAD_SIZE)
            && var r := Exec(mem', Request(header', GcmParts(flags', key, iv, aad, taglen, out))).1;
            && r.header.ack == CKR_OK && r.params == data
  {
    hide Cipher, Tag, Request, GcmParts, Exec, Packable;
    GcmOnce(mem, header, flags, key, iv, aad, taglen, data);
    var ct := Cipher(key, iv, data);
    var out := ct + Tag(key, iv, aad, ct, taglen);
    assert out[..|out| - taglen] == ct && out[|out| - taglen..] == Tag(key, iv, aad, ct, taglen);
    GcmOnce(mem', header', flags', key, iv, aad, taglen, out);
    CipherUndoes(key, iv, data);
  }
}
