/**
 What the keystream ciphers compute, without the keystream: how the output
 follows the data, the key, the IV and the position, one at a time.
 */
module Ciphers {
  import opened Bytes
  import opened Bits
  import opened Token

  lemma {:induction false} Cancel(a: byte, b: byte, c: byte)
    ensures Xor(Xor(a, c), Xor(b, c)) == Xor(a, b)
  {
    hide Xor;
    XorGroup(Xor(a, c), b, c);
    XorGroup(Xor(a, c), c, b);
    XorGroup(b, c, 0);
    XorUndoes(a, c);
  }

  /** The output at a place, from the data, the key, the IV and the place. */
  lemma {:induction false} OutputAt(key: seq<byte>, iv: seq<byte>, data: seq<byte>, i: nat)
    requires key != [] && i < |data|
    ensures var k := key[i % |key|];
            Cipher(key, iv, data)[i] == Xor(data[i], Xor(if iv == [] then k else Xor(k, iv[i % |iv|]), i % 256))
  {
    hide Xor;
  }

  /** Two texts under the same key and IV: the outputs differ as the texts do. */
  lemma {:induction false} DataShows(key: seq<byte>, iv: seq<byte>, data: seq<byte>, data': seq<byte>, i: nat)
    requires key != [] && i < |data| && i < |data'|
    ensures Xor(Cipher(key, iv, data)[i], Cipher(key, iv, data')[i]) == Xor(data[i], data'[i])
  {
    hide Xor, KeyStream;
    Cancel(data[i], data'[i], KeyStream(key, iv, i));
  }

  /** One text under two IVs: the outputs differ as the IVs do, each repeated. */
  lemma {:induction false} IvShows(key: seq<byte>, iv: seq<byte>, iv': seq<byte>, data: seq<byte>, i: nat)
    requires key != [] && iv != [] && iv' != [] && i < |data|
    ensures Xor(Cipher(key, iv, data)[i], Cipher(key, iv', data)[i]) == Xor(iv[i % |iv|], iv'[i % |iv'|])
  {
    hide Xor, Cipher;
    OutputAt(key, iv, data, i);
    OutputAt(key, iv', data, i);
    var k, v, v', d, n := key[i % |key|], iv[i % |iv|], iv'[i % |iv'|], data[i], i % 256;
    XorGroup(d, Xor(Xor(k, v), n), 0);
    XorGroup(d, Xor(Xor(k, v'), n), 0);
    Cancel(Xor(Xor(k, v), n), Xor(Xor(k, v'), n), d);
    Cancel(Xor(k, v), Xor(k, v'), n);
    XorGroup(k, v, 0);
    XorGroup(k, v', 0);
    Cancel(v, v', k);
  }

  /** One text under two keys: the outputs differ as the keys do, each repeated. */
  lemma {:induction false} KeyShows(key: seq<byte>, key': seq<byte>, iv: seq<byte>, data: seq<byte>, i: nat)
    requires key != [] && key' != [] && i < |data|
    ensures Xor(Cipher(key, iv, data)[i], Cipher(key', iv, data)[i]) == Xor(key[i % |key|], key'[i % |key'|])
  {
    hide Xor, Cipher;
    OutputAt(key, iv, data, i);
    OutputAt(key', iv, data, i);
    var k, k', d, n := key[i % |key|], key'[i % |key'|], data[i], i % 256;
    var x := if iv == [] then k else Xor(k, iv[i % |iv|]);
    var x' := if iv == [] then k' else Xor(k', iv[i % |iv|]);
    XorGroup(d, Xor(x, n), 0);
    XorGroup(d, Xor(x', n), 0);
    Cancel(Xor(x, n), Xor(x', n), d);
    Cancel(x, x', n);
    if iv != [] {
      Cancel(k, k', iv[i % |iv|]);
    }
  }

  function Nothing(n: nat): seq<byte> { seq(n, i => 0) }

  /** With nothing but zeros, every place shows its own position. */
  lemma {:induction false} PlaceShows(k: nat, v: nat, n: nat, i: nat)
    requires 0 < k && i < n
    ensures Cipher(Nothing(k), Nothing(v), Nothing(n))[i] == i % 256
  {
    hide Xor, Cipher;
    OutputAt(Nothing(k), Nothing(v), Nothing(n), i);
    XorGroup(0, i % 256, 0);
    XorGroup(i % 256, 0, 0);
  }

  /** A cipher without an IV is one with an IV of zeros. */
  lemma {:induction false} NoIv(key: seq<byte>, data: seq<byte>, v: nat)
    requires key != []
    ensures Cipher(key, [], data) == Cipher(key, Nothing(v), data)
  {
    hide Xor, Cipher;
    forall i | 0 <= i < |data| ensures Cipher(key, [], data)[i] == Cipher(key, Nothing(v), data)[i] {
      OutputAt(key, [], data, i);
      OutputAt(key, Nothing(v), data, i);
      XorGroup(key[i % |key|], 0, 0);
    }
  }
}
