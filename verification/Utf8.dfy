/**
 * Text as the disk and the wire hold it. A character is given by the bytes
 * UTF-8 writes it with: a first byte that tells the width, and continuation
 * bytes that are never the first byte of anything.
 */
module Utf8 {
  import opened Sequences

  type Byte = b: int | 0 <= b < 0x100

  function Width(first: Byte): nat {
    if first < 0x80 then 1
    else if first < 0xC0 then 0
    else if first < 0xE0 then 2
    else if first < 0xF0 then 3
    else 4
  }

  predicate IsScalar(b: seq<Byte>) {
    && b != [] && |b| == Width(b[0])
    && forall i :: 1 <= i < |b| ==> 0x80 <= b[i] < 0xC0
  }

  type Scalar = b: seq<Byte> | IsScalar(b) witness [0]

  type Str = seq<Scalar>

  function Bytes(s: Str): seq<Byte> {
    if s == [] then [] else s[0] + Bytes(s[1..])
  }

  lemma {:induction false} BytesConcat(a: Str, b: Str)
    ensures Bytes(a + b) == Bytes(a) + Bytes(b)
  {
    if a == [] {
      assert a + b == b;
    } else {
      assert (a + b)[1..] == a[1..] + b;
      BytesConcat(a[1..], b);
      ConcatAssociates(a[0], Bytes(a[1..]), Bytes(b));
    }
  }

  lemma {:induction false} BytesNotEmpty(s: Str)
    requires s != []
    ensures |Bytes(s)| > 0
  {
  }

  lemma {:induction false} FirstCharacter(c: Scalar, d: Scalar, x: seq<Byte>, y: seq<Byte>)
    requires c + x == d + y
    ensures c == d && x == y
  {
    assert (c + x)[0] == c[0] && (d + y)[0] == d[0];
    var w := |c|;
    assert (c + x)[..w] == c && (d + y)[..w] == d;
    assert (c + x)[w..] == x && (d + y)[w..] == y;
  }

  /** Two texts with the same bytes are the same text. */
  lemma {:induction false} BytesInjective(a: Str, b: Str)
    requires Bytes(a) == Bytes(b)
    ensures a == b
  {
    if a != [] && b != [] {
      FirstCharacter(a[0], b[0], Bytes(a[1..]), Bytes(b[1..]));
      BytesInjective(a[1..], b[1..]);
      assert a == [a[0]] + a[1..] && b == [b[0]] + b[1..];
    } else if a != [] {
      BytesNotEmpty(a);
    } else if b != [] {
      BytesNotEmpty(b);
    }
  }
}
