/**
 What each command of the emulated token answers: when it succeeds, with which
 error it refuses, what a refusal leaves, and that everything else is echoed.
 */
module Commands {
  import opened Bytes
  import opened Wire
  import opened Codec
  import opened Token
  import opened TokenLaws
  import opened Hashing

  // ---- Dispatch ----

  /** The opcode is the low half of the command word. */
  lemma {:induction false} LowHalf(hi: nat, lo: nat)
    requires lo < 0x1_0000 && hi * 0x1_0000 + lo < WORD
    ensures Opcode(hi * 0x1_0000 + lo) == lo
  {
  }

  predicate Handled(opcode: nat) {
    opcode in {0x01, 0x02, 0x04, 0x05, 0x06, 0x10, 0x11, 0x12, 0x20, 0x21}
  }

  /** A command that is none of the ten is answered with its own parameters. */
  lemma {:induction false} EchoLaw(mem: Memory, m: Message)
    requires Held(m) && m.header.command < 0x8000_0000 && !Handled(Opcode(m.header.command))
    ensures var (mem', r) := Exec(mem, m);
            mem' == mem && r.header == m.header.(ack := 0) && r.lens == m.lens && r.params == m.params
  {
  }

  /** The fail bit makes any command fail, with its parameters unchanged. */
  lemma {:induction false} FailLaw(mem: Memory, m: Message)
    requires Held(m) && m.header.command >= 0x8000_0000
    ensures var (mem', r) := Exec(mem, m);
            mem' == mem && r.header == m.header.(ack := 6) && r.lens == m.lens && r.params == m.params
  {
  }

  /** A refused command changes nothing in the token and clears nothing but the first length. */
  lemma {:induction false} RefusalLaw(mem: Memory, m: Message)
    requires Held(m) && m.header.command < 0x8000_0000 && Exec(mem, m).1.header.ack != 0
    ensures var (mem', r) := Exec(mem, m);
            && mem' == mem && r.header == m.header.(ack := r.header.ack) && m.lens[0] <= |m.params|
            && r.lens == m.lens[0 := 0] && r.params == m.params[..|m.params| - m.lens[0]]
  {
    hide Fold, Finalize, Xor32, Get32, Put32, Param, Sum, DigestSize, Cipher, Tag, Scalar, Pow2, Digest;
    DropFirst(m.lens);
  }

  /** An answer has one parameter and the request's identifiers. */
  lemma {:induction false} AnswerLaw(mem: Memory, m: Message)
    requires Held(m) && m.header.command < 0x8000_0000 && Exec(mem, m).1.header.ack == 0
    requires Handled(Opcode(m.header.command))
    ensures var r := Exec(mem, m).1;
            && r.header == m.header.(ack := 0) && r.lens == [|r.params|] + [0, 0, 0, 0, 0, 0, 0]
  {
    hide Fold, Finalize, Xor32, Get32, Put32, Param, Sum, DigestSize, Cipher, Tag, Scalar, Pow2, Digest;
    assert Zeros(7) == [0, 0, 0, 0, 0, 0, 0];
  }

  // ---- When commands succeed ----

  lemma {:induction false} DigestAck(mem: Memory, m: Message)
    requires Held(m) && Is(m, CMD_DIGEST)
    ensures Exec(mem, m).1.header.ack == if m.lens[0] >= 4 && DigestSize(Scalar(m, 0)) != 0 then 0 else 0x70
  {
    hide Fold, Finalize, Xor32, Get32, Put32, Sum, DigestSize, Digest;
  }

  lemma {:induction false} CbcAck(mem: Memory, m: Message)
    requires Held(m) && Is(m, CMD_AES_CBC)
    ensures Exec(mem, m).1.header.ack
            == if m.lens[0] >= 4 && KeySize(m.lens[1]) && m.lens[2] == 16 && m.lens[3] % 16 == 0 then 0 else 0x70
  {
    hide Cipher, Sum;
  }

  lemma {:induction false} EcbAck(mem: Memory, m: Message)
    requires Held(m) && Is(m, CMD_AES_ECB)
    ensures Exec(mem, m).1.header.ack
            == if m.lens[0] >= 4 && KeySize(m.lens[1]) && m.lens[2] % 16 == 0 then 0 else 0x70
  {
    hide Cipher, Sum;
  }

  lemma {:induction false} KeySizes(n: int)
    ensures KeySize(n) <==> n * 8 in {128, 192, 256}
  {
  }

  /** A GCM command that is not refused for its sizes. */
  predicate GcmShape(m: Message)
    requires Held(m)
  {
    && m.lens[0] >= 4 && KeySize(m.lens[1]) && 0 < m.lens[2] <= 16 && m.lens[4] >= 4
    && 0 < Get32(Param(m, 4), 0) <= 16
  }

  lemma {:induction false} GcmAck(mem: Memory, m: Message)
    requires Held(m) && Is(m, CMD_AES_GCM)
    ensures var ack := Exec(mem, m).1.header.ack;
            if !GcmShape(m) then ack == 0x70
            else
              var taglen, data := Get32(Param(m, 4), 0), Param(m, 5);
              if Get32(Param(m, 0), 0) % 2 == 1 then ack == if |data| + taglen > 32768 then 0x70 else 0
              else ack == 0 || ack == 0x40
  {
    hide Cipher, Tag, Sum, Get32;
  }

  lemma {:induction false} EcAck(mem: Memory, m: Message)
    requires Held(m) && Is(m, 0x21)
    ensures Exec(mem, m).1.header.ack == if 0 < m.lens[1] <= 66 then 0 else 0x70
  {
    hide Fold, Xor32, Sum, Pow2;
  }

  lemma {:induction false} RsaAck(mem: Memory, m: Message)
    requires Held(m) && Is(m, 0x20)
    ensures Exec(mem, m).1.header.ack == if 0 < m.lens[0] <= 512 then 0 else 0x70
  {
    hide Fold, Xor32, Sum, Pow2;
  }

  // ---- What they answer ----

  /** As many bytes as asked for, up to one parameter, counting up from 0x5A. */
  lemma {:induction false} RngLaw(mem: Memory, m: Message)
    requires Held(m) && Is(m, 0x01)
    ensures var r := Exec(mem, m).1;
            var want := Scalar(m, 0);
            && r.header.ack == 0 && |r.params| == (if want > 32768 then 32768 else want)
            && (|r.params| > 0 ==> r.params[0] == 0x5A)
            && forall i | 0 <= i < |r.params| - 1 :: r.params[i + 1] == (1 + r.params[i] as int) % 256
  {
    hide Sum, Get32;
  }

  /** A tag covers key, IV, associated data and ciphertext, one after the other. */
  lemma {:induction false} TagLaw(key: seq<byte>, iv: seq<byte>, aad: seq<byte>, ct: seq<byte>, n: nat)
    ensures Tag(key, iv, aad, ct, n) == Finalize(Fold(0x811C9DC5, key + iv + aad + ct), 0, n)
  {
    hide Fold, Finalize;
    FoldAppend(DIGEST_SEED, key, iv);
    FoldAppend(DIGEST_SEED, key + iv, aad);
    FoldAppend(DIGEST_SEED, key + iv + aad, ct);
  }

  /** An EC signature covers curve, data and key, and shows the key a second time. */
  lemma {:induction false} EcLaw(mem: Memory, m: Message, i: nat)
    requires Held(m) && Is(m, 0x21) && 0 < m.lens[1] <= 66 && i < 2 * m.lens[1]
    ensures var r := Exec(mem, m).1;
            var curve, key, data := Param(m, 0), Param(m, 1), Param(m, 2);
            var acc := Fold(Xor32(0x811C9DC5, Low32(|curve|)), curve + data + key);
            && |r.params| == 2 * |key|
            && r.params[i] == (Finalize(acc, 0, 2 * |key|)[i] as int + 166 * i + key[i % |key|]) % 256
  {
    hide Fold, Xor32, Sum, Finalize, Low32, ExecEcSign, Param;
    var curve, key, data := Param(m, 0), Param(m, 1), Param(m, 2);
    var start := Xor32(DIGEST_SEED, Low32(|curve|));
    FoldAppend(start, curve, data);
    FoldAppend(start, curve + data, key);
    EcBytes(m, Fold(start, curve + data + key), i);
  }

  lemma {:induction false} EcBytes(m: Message, acc: uint32, i: nat)
    requires Held(m) && 0 < m.lens[1] <= 66 && i < 2 * m.lens[1]
    requires var start := Xor32(DIGEST_SEED, Low32(|Param(m, 0)|));
             acc == Fold(Fold(Fold(start, Param(m, 0)), Param(m, 2)), Param(m, 1))
    ensures var key, r := Param(m, 1), ExecEcSign(m);
            && |r.params| == 2 * |key|
            && r.params[i] == (Finalize(acc, 0, 2 * |key|)[i] as int + 166 * i + key[i % |key|]) % 256
  {
    hide Fold, Xor32, Sum, Finalize, Low32, Pow2, Param;
    var key := Param(m, 1);
    var k := key[i % |key|];
    ByteMixed(acc, 2 * |key|, i, 166 * i + k, i * 197 + k);
  }

  lemma {:induction false} ByteMixed(acc: uint32, n: nat, i: nat, extra: int, total: int)
    requires i < n && total == i * 31 + extra
    ensures (acc / Pow2(i % 8) + total) % 256 == (Finalize(acc, 0, n)[i] as int + extra) % 256
  {
    hide Pow2, Finalize;
    ByteAt(acc, 0, n, i);
    AddRest(Shown(acc, i) + i * 31, extra);
  }

  /** An RSA signature covers exponent and data, and shows the modulus. */
  lemma {:induction false} RsaLaw(mem: Memory, m: Message, i: nat)
    requires Held(m) && Is(m, 0x20) && 0 < m.lens[0] <= 512 && i < m.lens[0]
    ensures var r := Exec(mem, m).1;
            var mod, exp, data := Param(m, 0), Param(m, 1), Param(m, 2);
            var acc := Fold(Xor32(0x811C9DC5, |mod|), exp + data);
            && |r.params| == |mod|
            && r.params[i] == (Finalize(acc, 0, |mod|)[i] as int + 100 * i + mod[i]) % 256
  {
    hide Fold, Xor32, Sum, Finalize, Pow2;
    var mod, exp, data := Param(m, 0), Param(m, 1), Param(m, 2);
    FoldAppend(Xor32(DIGEST_SEED, |mod|), exp, data);
    var acc := Fold(Xor32(DIGEST_SEED, |mod|), exp + data);
    ByteMixed(acc, |mod|, i, 100 * i + mod[i], i * 131 + mod[i]);
  }
}
