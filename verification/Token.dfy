/**
 The emulated token's command execution: digests with token-side contexts,
 the keystream ciphers, and the signature-shaped commands.
 */
module Token {
  import opened Bytes
  import opened Wire
  import opened Codec

  const CMD_DIGEST := 0x0002
  const CMD_DIGEST_INIT := 0x0004
  const CMD_DIGEST_UPDATE := 0x0005
  const CMD_DIGEST_FINAL := 0x0006
  const CMD_AES_CBC := 0x0010
  const CMD_AES_ECB := 0x0011
  const CMD_AES_GCM := 0x0012
  const CMD_FAIL_BIT := 0x8000_0000

  const CKR_OK := 0
  const CKR_FUNCTION_FAILED := 0x6
  const CKR_DEVICE_MEMORY := 0x31
  const CKR_ENCRYPTED_DATA_INVALID := 0x40
  const CKR_MECHANISM_INVALID := 0x70

  const DIGEST_SEED := 0x811C9DC5
  const DIGEST_CTX_MAX := 8
  const AES_BLOCK := 16

  /** One multipart digest in progress. */
  datatype Ctx = Ctx(inUse: bool, mech: uint32, acc: uint32)

  type Memory = s: seq<Ctx> | |s| == DIGEST_CTX_MAX witness seq(DIGEST_CTX_MAX, i => Ctx(false, 0, 0))

  /** A parsed message whose parameters lie in the emulator's payload buffer. */
  predicate Held(m: Message) {
    |m.params| == Sum(m.lens) <= MAX_PAYLOAD_SIZE
  }

  /** A message whose lengths also pass validation, as all encoded ones do. */
  predicate WellFormed(m: Message) {
    ValidLens(m.lens) && |m.params| == Sum(m.lens)
  }

  function Opcode(command: uint32): nat { command % 0x1_0000 }

  // ---- Responses ----

  /** The identifiers that correlate a response with its request. */
  predicate SameIds(m: Message, r: Message) {
    && r.header.session == m.header.session && r.header.sequence == m.header.sequence
    && r.header.command == m.header.command
  }

  /** What every command keeps: the identifiers, a consistent payload, and that the message can be encoded. */
  predicate Keeps(m: Message, r: Message) {
    SameIds(m, r) && |r.params| == Sum(r.lens) && (WellFormed(m) ==> WellFormed(r))
  }

  /** A response with one parameter and a good acknowledgement. */
  function Answer(m: Message, out: seq<byte>): (r: Message)
    requires |out| < WORD
    ensures SameIds(m, r) && |r.params| == Sum(r.lens) && (|out| <= MAX_PARAM_SIZE ==> WellFormed(r))
  {
    OneParam(out);
    Message(m.header.(ack := CKR_OK), [|out|] + Zeros(MAX_PARAM_COUNT - 1), out)
  }

  /** An error response: only the first length is cleared, the rest of the request stays. */
  function Refuse(m: Message, ack: uint32): (r: Message)
    requires Held(m)
    ensures Keeps(m, r)
  {
    DropFirst(m.lens);
    Message(m.header.(ack := ack), m.lens[0 := 0], m.params[..Sum(m.lens[0 := 0])])
  }

  lemma {:induction false} DropFirst(lens: Lens)
    ensures Sum(lens[0 := 0]) + lens[0] == Sum(lens)
  {
    assert lens == [lens[0]] + lens[1..] && lens[0 := 0] == [0] + lens[1..];
    SumAppend([lens[0]], lens[1..]);
    SumAppend([0], lens[1..]);
    SumOne(lens[0]);
    SumOne(0);
  }

  lemma {:induction false} SumOne(x: uint32)
    ensures Sum([x]) == x
  {
    assert [x][..0] == [];
  }

  lemma {:induction false} OneParam(out: seq<byte>)
    requires |out| < WORD
    ensures Sum([|out|] + Zeros(MAX_PARAM_COUNT - 1)) == |out|
  {
    SumAppend([|out|], Zeros(MAX_PARAM_COUNT - 1));
    SumOne(|out|);
    SumZeros(MAX_PARAM_COUNT - 1);
  }

  // ---- Digests ----

  function DigestSize(mech: uint32): nat {
    match mech
    case 0x220 => 20
    case 0x255 => 28
    case 0x250 => 32
    case 0x260 => 48
    case 0x270 => 64
    case _ => 0
  }

  /** `mock_digest_fold`, one byte after the other. */
  function Fold(acc: uint32, d: seq<byte>): uint32 {
    if d == [] then acc
    else Low32(Xor32(Fold(acc, d[..|d| - 1]), d[|d| - 1]) * 16777619)
  }

  /** `mock_digest_finalize` */
  function Finalize(acc: uint32, mech: uint32, size: nat): (out: seq<byte>)
    ensures |out| == size
  {
    seq(size, i requires 0 <= i < size => (acc / Pow2(i % 8) + i * 31 + mech) % 256)
  }

  /** Folding in pieces is folding the whole. */
  lemma {:induction false} FoldAppend(acc: uint32, a: seq<byte>, b: seq<byte>)
    ensures Fold(Fold(acc, a), b) == Fold(acc, a + b)
  {
    hide Xor32, Low32;
    if b == [] {
      assert a + b == a;
    } else {
      var n := |b| - 1;
      FoldAppend(acc, a, b[..n]);
      assert (a + b)[..|a + b| - 1] == a + b[..n];
    }
  }

  function DigestStart(mech: uint32): uint32 { Xor32(mech, DIGEST_SEED) }

  /** The digest of some data under a mechanism. */
  function Digest(mech: uint32, data: seq<byte>): seq<byte> {
    Finalize(Fold(DigestStart(mech), data), mech, DigestSize(mech))
  }

  /** The loop of `mock_digest_fold`. */
  method DigestFold(acc: uint32, d: seq<byte>) returns (r: uint32)
    ensures r == Fold(acc, d)
  {
    hide Xor32, Low32;
    r := acc;
    for j := 0 to |d|
      invariant r == Fold(acc, d[..j])
    {
      assert d[..j + 1][..j] == d[..j];
      r := Low32(Xor32(r, d[j]) * 16777619);
    }
    assert d[..|d|] == d;
  }

  /** The loop of `mock_digest_finalize`, which expands an accumulator into the buffer. */
  method DigestFinalize(acc: uint32, mech: uint32, out: array<byte>, at: nat, size: nat)
    requires at + size <= out.Length
    modifies out
    ensures out[..] == Written(old(out[..]), at, Finalize(acc, mech, size))
  {
    hide Pow2;
    ghost var spec := Finalize(acc, mech, size);
    for i := 0 to size
      invariant forall j | 0 <= j < out.Length :: out[j] == if at <= j < at + i then spec[j - at] else old(out[j])
    {
      out[at + i] := (acc / Pow2(i % 8) + i * 31 + mech) % 256;
    }
  }

  /** A little-endian word at the head of the payload, when the first parameter has one. */
  function Scalar(m: Message, default: uint32): uint32
    requires Held(m)
  {
    DropFirst(m.lens);
    if m.lens[0] >= 4 then Get32(m.params, 0) else default
  }

  function ExecDigest(m: Message): (r: Message)
    requires Held(m)
    ensures Keeps(m, r)
  {
    var mech := Scalar(m, 0);
    DropFirst(m.lens);
    if DigestSize(mech) == 0 || m.lens[0] < 4 then Refuse(m, CKR_MECHANISM_INVALID)
    else Answer(m, Digest(mech, m.params[4..m.lens[0]]))
  }

  function FirstFree(mem: seq<Ctx>, from: nat): (i: nat)
    requires from <= |mem|
    ensures from <= i <= |mem|
    ensures i < |mem| ==> !mem[i].inUse
    ensures forall j | from <= j < i :: mem[j].inUse
    decreases |mem| - from
  {
    if from == |mem| || !mem[from].inUse then from else FirstFree(mem, from + 1)
  }

  function ExecDigestInit(mem: Memory, m: Message): (r: (Memory, Message))
    requires Held(m)
    ensures Keeps(m, r.1)
  {
    var mech := Scalar(m, 0);
    if DigestSize(mech) == 0 then (mem, Refuse(m, CKR_MECHANISM_INVALID))
    else
      var slot := FirstFree(mem, 0);
      if slot == |mem| then (mem, Refuse(m, CKR_DEVICE_MEMORY))
      else (mem[slot := Ctx(true, mech, DigestStart(mech))], Answer(m, Put32(slot)))
  }

  function ExecDigestUpdate(mem: Memory, m: Message): (r: (Memory, Message))
    requires Held(m)
    ensures Keeps(m, r.1)
  {
    if m.lens[0] < 4 then (mem, Refuse(m, CKR_FUNCTION_FAILED))
    else
      var id := Scalar(m, 0);
      if id >= DIGEST_CTX_MAX || !mem[id].inUse then (mem, Refuse(m, CKR_FUNCTION_FAILED))
      else (mem[id := mem[id].(acc := Fold(mem[id].acc, Param(m, 1)))], Answer(m, []))
  }

  function ExecDigestFinal(mem: Memory, m: Message): (r: (Memory, Message))
    requires Held(m)
    ensures Keeps(m, r.1)
  {
    var id := Scalar(m, 0xFFFF_FFFF);
    if id >= DIGEST_CTX_MAX || !mem[id].inUse then (mem, Refuse(m, CKR_FUNCTION_FAILED))
    else
      (mem[id := mem[id].(inUse := false)],
       Answer(m, Finalize(mem[id].acc, mem[id].mech, DigestSize(mem[id].mech))))
  }

  // ---- Keystream ciphers ----

  /** The keystream byte at a position; ECB has no IV. */
  function KeyStream(key: seq<byte>, iv: seq<byte>, i: nat): byte
    requires key != []
  {
    var k := key[i % |key|];
    Xor(if iv == [] then k else Xor(k, iv[i % |iv|]), i % 256)
  }

  function Cipher(key: seq<byte>, iv: seq<byte>, data: seq<byte>): (out: seq<byte>)
    requires key != []
    ensures |out| == |data|
  {
    seq(|data|, i requires 0 <= i < |data| => Xor(data[i], KeyStream(key, iv, i)))
  }

  /** The cipher undoes itself. */
  lemma {:induction false} CipherUndoes(key: seq<byte>, iv: seq<byte>, data: seq<byte>)
    requires key != []
    ensures Cipher(key, iv, Cipher(key, iv, data)) == data
  {
    hide Xor, KeyStream;
    forall i | 0 <= i < |data| ensures Cipher(key, iv, Cipher(key, iv, data))[i] == data[i] {
      XorUndoes(data[i], KeyStream(key, iv, i));
    }
  }

  /**
   The in-place loop: the output overwrites the payload from its start while the
   data is read further on.  The write never overtakes the read.
   */
  method CipherInPlace(payload: array<byte>, at: nat, len: nat, key: seq<byte>, iv: seq<byte>)
    requires key != [] && at + len <= payload.Length
    modifies payload
    ensures payload[..] == Cipher(key, iv, old(payload[at..at + len])) + old(payload[len..])
  {
    hide Xor, KeyStream;
    ghost var out := Cipher(key, iv, payload[at..at + len]);
    for i := 0 to len
      invariant forall j | 0 <= j < i :: payload[j] == out[j]
      invariant forall j | i <= j < payload.Length :: payload[j] == old(payload[j])
    {
      payload[i] := Xor(payload[at + i], KeyStream(key, iv, i));
    }
  }

  predicate KeySize(n: int) { n == 16 || n == 24 || n == 32 }

  function ExecCbc(m: Message): (r: Message)
    requires Held(m)
    ensures Keeps(m, r)
  {
    var key, iv, data := Param(m, 1), Param(m, 2), Param(m, 3);
    if m.lens[0] < 4 || !KeySize(|key|) || |iv| != AES_BLOCK || |data| % AES_BLOCK != 0
    then Refuse(m, CKR_MECHANISM_INVALID)
    else Answer(m, Cipher(key, iv, data))
  }

  function ExecEcb(m: Message): (r: Message)
    requires Held(m)
    ensures Keeps(m, r)
  {
    var key, data := Param(m, 1), Param(m, 2);
    if m.lens[0] < 4 || !KeySize(|key|) || |data| % AES_BLOCK != 0
    then Refuse(m, CKR_MECHANISM_INVALID)
    else Answer(m, Cipher(key, [], data))
  }

  /** The tag over key, IV, associated data and ciphertext. */
  function Tag(key: seq<byte>, iv: seq<byte>, aad: seq<byte>, ct: seq<byte>, size: nat): (t: seq<byte>)
    ensures |t| == size
  {
    Finalize(Fold(Fold(Fold(Fold(DIGEST_SEED, key), iv), aad), ct), 0, size)
  }

  function ExecGcm(m: Message): (r: Message)
    requires Held(m)
    ensures Keeps(m, r)
  {
    var flags, key, iv, aad, tl, data := Param(m, 0), Param(m, 1), Param(m, 2), Param(m, 3), Param(m, 4), Param(m, 5);
    if |flags| < 4 || !KeySize(|key|) || |iv| == 0 || |iv| > 16 || |tl| < 4 then Refuse(m, CKR_MECHANISM_INVALID)
    else
      var encrypt := Get32(flags, 0) % 2 == 1;
      var taglen: int := Get32(tl, 0);
      if taglen == 0 || taglen > 16 then Refuse(m, CKR_MECHANISM_INVALID)
      else if encrypt then
        if |data| + taglen > MAX_PARAM_SIZE then Refuse(m, CKR_MECHANISM_INVALID)
        else
          var ct := Cipher(key, iv, data);
          Answer(m, ct + Tag(key, iv, aad, ct, taglen))
      else if |data| < taglen then Refuse(m, CKR_ENCRYPTED_DATA_INVALID)
      else
        var ct := data[..|data| - taglen];
        if Tag(key, iv, aad, ct, taglen) != data[|data| - taglen..]
        then Refuse(m, CKR_ENCRYPTED_DATA_INVALID)
        else Answer(m, Cipher(key, iv, ct))
  }

  // ---- The rest ----

  function ExecRng(m: Message): (r: Message)
    requires Held(m)
    ensures Keeps(m, r)
  {
    var want: int := Scalar(m, 0);
    var n := if want > MAX_PARAM_SIZE then MAX_PARAM_SIZE else want;
    Answer(m, seq(n, i requires 0 <= i < n => (0x5A + i) % 256))
  }

  function ExecEcSign(m: Message): (r: Message)
    requires Held(m)
    ensures Keeps(m, r)
  {
    var curve, priv, data := Param(m, 0), Param(m, 1), Param(m, 2);
    if |priv| == 0 || |priv| > 66 then Refuse(m, CKR_MECHANISM_INVALID)
    else
      var acc := Fold(Fold(Fold(Xor32(DIGEST_SEED, Low32(|curve|)), curve), data), priv);
      Answer(m, seq(2 * |priv|, i requires 0 <= i < 2 * |priv| =>
                (acc / Pow2(i % 8) + i * 197 + priv[i % |priv|]) % 256))
  }

  function ExecRsaSign(m: Message): (r: Message)
    requires Held(m)
    ensures Keeps(m, r)
  {
    var mod, exp, data := Param(m, 0), Param(m, 1), Param(m, 2);
    if |mod| == 0 || |mod| > 512 then Refuse(m, CKR_MECHANISM_INVALID)
    else
      var acc := Fold(Fold(Xor32(DIGEST_SEED, |mod|), exp), data);
      Answer(m, seq(|mod|, i requires 0 <= i < |mod| => (acc / Pow2(i % 8) + i * 131 + mod[i]) % 256))
  }

  /** `mock_exec_command`, after the check of the fail bit. */
  function Exec(mem: Memory, m: Message): (r: (Memory, Message))
    requires Held(m)
    ensures Keeps(m, r.1)
  {
    if m.header.command >= CMD_FAIL_BIT then (mem, m.(header := m.header.(ack := CKR_FUNCTION_FAILED)))
    else
      match Opcode(m.header.command)
      case 0x0001 => (mem, ExecRng(m))
      case 0x0002 => (mem, ExecDigest(m))
      case 0x0004 => ExecDigestInit(mem, m)
      case 0x0005 => ExecDigestUpdate(mem, m)
      case 0x0006 => ExecDigestFinal(mem, m)
      case 0x0010 => (mem, ExecCbc(m))
      case 0x0011 => (mem, ExecEcb(m))
      case 0x0012 => (mem, ExecGcm(m))
      case 0x0020 => (mem, ExecRsaSign(m))
      case 0x0021 => (mem, ExecEcSign(m))
      case _ => (mem, m.(header := m.header.(ack := CKR_OK)))
  }
}
