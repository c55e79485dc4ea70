/**
 A whole multipart digest: INIT, any number of UPDATEs and FINAL on a token with
 a free context give the digest of all the data.
 */
module Sessions {
  import opened Bytes
  import opened Wire
  import opened Codec
  import opened Token
  import opened TokenLaws

  /** A request whose first parameter is a word and whose second, if any, is data. */
  function WordParts(v: uint32, data: seq<byte>): seq<Part> { [Bytes(Put32(v)), Bytes(data)] }

  lemma {:induction false} WordRequest(h: Header, v: uint32, data: seq<byte>)
    requires |data| <= MAX_PARAM_SIZE
    ensures Packable(WordParts(v, data), MAX_PAYLOAD_SIZE)
    ensures var m := Request(h, WordParts(v, data));
            Held(m) && m.lens[0] == 4 && Param(m, 1) == data && forall d: uint32 :: Scalar(m, d) == v
  {
    hide Put32, Get32, Concat, Padded, Param, Sum, Request;
    var parts := WordParts(v, data);
    assert parts[..1][..0] == [];
    ConcatSize(parts);
    ConcatSize(parts[..1]);
    ConcatSize([]);
    var m := Request(h, parts);
    RequestParam(h, parts, 0);
    RequestParam(h, parts, 1);
    FirstParam(m);
    assert |Param(m, 0)| == 4 && m.params[0..4] == m.params[..4] == Put32(v);
    GetAt(m.params, 0, v);
  }

  /** One data part after the other. */
  function Join(chunks: seq<seq<byte>>): seq<byte> {
    if chunks == [] then [] else Join(chunks[..|chunks| - 1]) + chunks[|chunks| - 1]
  }

  predicate Fitting(chunks: seq<seq<byte>>) {
    forall i | 0 <= i < |chunks| :: |chunks[i]| <= MAX_PARAM_SIZE
  }

  function Updates(h: Header, id: uint32, chunks: seq<seq<byte>>): (ms: seq<Message>)
    requires Fitting(chunks)
    ensures |ms| == |chunks| && forall i | 0 <= i < |ms| :: Held(ms[i])
  {
    if chunks == [] then []
    else
      var n := |chunks| - 1;
      WordRequest(h, id, chunks[n]);
      Updates(h, id, chunks[..n]) + [Request(h, WordParts(id, chunks[n]))]
  }

  lemma {:induction false} LastUpdate(h: Header, id: uint32, chunks: seq<seq<byte>>)
    requires Fitting(chunks) && chunks != []
    ensures var n := |chunks| - 1;
            var ms := Updates(h, id, chunks);
            && Packable(WordParts(id, chunks[n]), MAX_PAYLOAD_SIZE)
            && ms[..n] == Updates(h, id, chunks[..n]) && ms[n] == Request(h, WordParts(id, chunks[n]))
            && Join(chunks) == Join(chunks[..n]) + chunks[n]
  {
    hide Packable, Request, WordParts, Held;
    WordRequest(h, id, chunks[|chunks| - 1]);
  }

  /** The updates all succeed, and the context then stands for all their data. */
  lemma {:induction false} UpdatesLaw(mem: Memory, live: map<nat, Stream>, h: Header, id: uint32, mech: uint32,
                                      chunks: seq<seq<byte>>)
    requires Tracks(mem, live) && id in live && live[id] == Stream(mech, []) && Fitting(chunks)
    requires h.command < CMD_FAIL_BIT && Opcode(h.command) == CMD_DIGEST_UPDATE
    ensures var ms := Updates(h, id, chunks);
            && Tracks(ExecAll(mem, ms), live[id := Stream(mech, Join(chunks))])
            && forall i | 0 <= i < |ms| :: Exec(ExecAll(mem, ms[..i]), ms[i]).1.header.ack == 0
  {
    hide Tracks, Exec, Request, WordParts, Packable, Scalar, Param, Held, Updates, Join;
    if chunks == [] {
      NoUpdates(mem, h, id);
      assert live[id := Stream(mech, Join([]))] == live;
    } else {
      var n := |chunks| - 1;
      UpdatesLaw(mem, live, h, id, mech, chunks[..n]);
      LastUpdate(h, id, chunks);
      WordRequest(h, id, chunks[n]);
      var ms := Updates(h, id, chunks);
      var live' := live[id := Stream(mech, Join(chunks[..n]))];
      UpdateLaw(ExecAll(mem, ms[..n]), live', ms[n]);
      assert live'[id := live'[id].(data := live'[id].data + chunks[n])] == live[id := Stream(mech, Join(chunks))];
      forall i | 0 <= i < |ms| ensures Exec(ExecAll(mem, ms[..i]), ms[i]).1.header.ack == 0 {
        if i < n {
          assert ms[..n][..i] == ms[..i] && ms[..n][i] == ms[i];
        }
      }
    }
  }

  lemma {:induction false} NoUpdates(mem: Memory, h: Header, id: uint32)
    ensures Updates(h, id, []) == [] && ExecAll(mem, []) == mem && Join([]) == []
  {
  }

  predicate Opens(h: Header, opcode: nat) { h.command < CMD_FAIL_BIT && Opcode(h.command) == opcode }

  /** On a token with a free context, a whole digest succeeds and returns the digest of all its data. */
  lemma {:induction false} WholeDigest(mem: Memory, live: map<nat, Stream>, h0: Header, h1: Header, h2: Header,
                                       mech: uint32, chunks: seq<seq<byte>>)
    requires Tracks(mem, live) && SomeFree(live) && DigestSize(mech) != 0 && Fitting(chunks)
    requires Opens(h0, CMD_DIGEST_INIT) && Opens(h1, CMD_DIGEST_UPDATE) && Opens(h2, CMD_DIGEST_FINAL)
    ensures Packable(WordParts(mech, []), MAX_PAYLOAD_SIZE)
    ensures var (mem1, r1) := Exec(mem, Request(h0, WordParts(mech, [])));
            && r1.header.ack == 0 && |r1.params| == 4
            && var id := Get32(r1.params, 0);
            var ms := Updates(h1, id, chunks);
            && Packable(WordParts(id, []), MAX_PAYLOAD_SIZE)
            && (forall i | 0 <= i < |ms| :: Exec(ExecAll(mem1, ms[..i]), ms[i]).1.header.ack == 0)
            && var (mem3, r3) := Exec(ExecAll(mem1, ms), Request(h2, WordParts(id, [])));
            && r3.header.ack == 0 && r3.params == Digest(mech, Join(chunks)) && Tracks(mem3, live)
  {
    hide Tracks, Exec, Request, WordParts, Packable, Param, Held, Updates, Join, Digest, SomeFree, Scalar, Get32;
    WordRequest(h0, mech, []);
    var m0 := Request(h0, WordParts(mech, []));
    InitLaw(mem, live, m0);
    var (mem1, r1) := Exec(mem, m0);
    var id := Get32(r1.params, 0);
    var live1 := live[id := Stream(mech, [])];
    assert NextLive(live, m0, r1) == live1;
    UpdatesLaw(mem1, live1, h1, id, mech, chunks);
    var mem2, live2 := ExecAll(mem1, Updates(h1, id, chunks)), live1[id := Stream(mech, Join(chunks))];
    WordRequest(h2, id, []);
    var m2 := Request(h2, WordParts(id, []));
    FinalLaw(mem2, live2, m2);
    assert live2 - {id} == live;
  }

  /** An empty token has a free context, and none in use. */
  lemma {:induction false} EmptyToken(mem: Memory)
    requires forall i: nat | i < DIGEST_CTX_MAX :: !mem[i].inUse
    ensures Tracks(mem, map[]) && SomeFree(map[])
  {
    var none: map<nat, Stream> := map[];
    assert 0 !in none;
  }
}
