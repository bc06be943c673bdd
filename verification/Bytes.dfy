/** Byte strings and the flattening of a list of byte strings, shared by the
    send and receive paths. */
module Bytes {

  type byte = bv8

  function Min(a: nat, b: nat): nat { if a <= b then a else b }

  /** The stream that a list of fragments denotes. */
  function Flatten(ss: seq<seq<byte>>): (s: seq<byte>) {
    if ss == [] then [] else ss[0] + Flatten(ss[1..])
  }

  lemma {:induction false} FlattenConcat(a: seq<seq<byte>>, b: seq<seq<byte>>)
    ensures Flatten(a + b) == Flatten(a) + Flatten(b)
  {
    if a == [] {
      assert a + b == b;
    } else {
      assert (a + b)[1..] == a[1..] + b;
      FlattenConcat(a[1..], b);
    }
  }

  lemma FlattenOne(s: seq<byte>)
    ensures Flatten([s]) == s
  {
    assert Flatten([s]) == s + Flatten([]);
  }

  lemma FlattenSnoc(a: seq<seq<byte>>, s: seq<byte>)
    ensures Flatten(a + [s]) == Flatten(a) + s
  {
    FlattenConcat(a, [s]);
    FlattenOne(s);
  }

  lemma FlattenSplit(ss: seq<seq<byte>>, k: nat)
    requires k <= |ss|
    ensures Flatten(ss) == Flatten(ss[..k]) + Flatten(ss[k..])
  {
    assert ss == ss[..k] + ss[k..];
    FlattenConcat(ss[..k], ss[k..]);
  }
}
