/**
 The mechanism table the index generator reads, and the two kinds of key it
 indexes: the four low bytes of the mechanism number, and the mechanism name
 with its terminating NUL.
 */
module MechTable {
  import opened Bytes

  /** A C `short`: trie cells and emitted table cells have this type. */
  type short = x: int | -32768 <= x <= 32767

  /** The two columns of a table row that the generator looks at. */
  datatype Row = Row(str: seq<byte>, numeric: nat)

  /** A C string holds no NUL before its terminator. */
  predicate IsCString(s: seq<byte>) {
    forall i | 0 <= i < |s| :: s[i] != 0
  }

  /** The array access `s[i]` of a C string, which may touch the terminator. */
  function CharAt(s: seq<byte>, i: nat): byte
    requires i <= |s|
  {
    if i < |s| then s[i] else 0
  }

  /** The part of a name that the string trie is keyed by. */
  function StringKey(s: seq<byte>, skip: nat): seq<byte>
    requires skip <= |s|
  {
    s[skip..] + [0]
  }

  /** The bytes selected by the four mask-and-shift expressions. */
  function NumericKey(n: nat): seq<byte> {
    [Octet(n, 3), Octet(n, 2), Octet(n, 1), Octet(n, 0)]
  }

  function NumericKeys(rows: seq<Row>): seq<seq<byte>> {
    seq(|rows|, i requires 0 <= i < |rows| => NumericKey(rows[i].numeric))
  }

  /** Whole names with their terminators. */
  function NameKeys(rows: seq<Row>): seq<seq<byte>> {
    seq(|rows|, i requires 0 <= i < |rows| => StringKey(rows[i].str, 0))
  }

  /** The four bytes determine exactly the low 32 bits of the number. */
  lemma {:induction false} NumericKeyIsLow32(a: nat, b: nat)
    ensures NumericKey(a) == NumericKey(b) <==> Low32(a) == Low32(b)
  {
    WordOfOctets(a);
    WordOfOctets(b);
    OctetsOfWord(Octet(a, 0), Octet(a, 1), Octet(a, 2), Octet(a, 3));
    OctetsOfWord(Octet(b, 0), Octet(b, 1), Octet(b, 2), Octet(b, 3));
    if NumericKey(a) == NumericKey(b) {
      forall i | 0 <= i < 4 ensures Octet(a, i) == Octet(b, i) {
        assert NumericKey(a)[3 - i] == NumericKey(b)[3 - i];
      }
    }
  }

  /** With no NUL inside, a key that starts another key is that key. */
  lemma {:induction false} StringKeyPrefix(s: seq<byte>, t: seq<byte>, skip: nat)
    requires IsCString(s) && IsCString(t) && skip <= |s| && skip <= |t|
    requires StringKey(s, skip) <= StringKey(t, skip)
    ensures s[skip..] == t[skip..]
  {
    var a, b := StringKey(s, skip), StringKey(t, skip);
    assert b[|a| - 1] == 0;
    assert forall i | 0 <= i < |b| - 1 :: b[i] == t[skip + i];
    assert s[skip..] == a[..|a| - 1];
    assert t[skip..] == b[..|b| - 1];
  }
}
