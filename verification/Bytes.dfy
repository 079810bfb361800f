/** Byte strings, the order in which the database keeps them (memcmp, shorter
 *  first) and the big-endian numbers that the keys embed.
 */
module Bytes {

  type byte = x: int | 0 <= x < 256
  type Bytes = seq<byte>

  predicate Less(a: Bytes, b: Bytes) {
    b != [] && (a == [] || a[0] < b[0] || (a[0] == b[0] && Less(a[1..], b[1..])))
  }

  predicate LessEq(a: Bytes, b: Bytes) {
    a == b || Less(a, b)
  }

  lemma {:induction false} LessIrreflexive(a: Bytes)
    ensures !Less(a, a)
  {
    if a == [] {
    } else {
      LessIrreflexive(a[1..]);
    }
  }

  lemma {:induction false} LessTransitive(a: Bytes, b: Bytes, c: Bytes)
    requires Less(a, b) && Less(b, c)
    ensures Less(a, c)
  {
    if a == [] || a[0] != b[0] || b[0] != c[0] {
    } else {
      LessTransitive(a[1..], b[1..], c[1..]);
    }
  }

  lemma {:induction false} LessTotal(a: Bytes, b: Bytes)
    ensures a == b || Less(a, b) || Less(b, a)
  {
    if a == [] || b == [] || a[0] != b[0] {
    } else {
      LessTotal(a[1..], b[1..]);
      assert a == [a[0]] + a[1..] && b == [b[0]] + b[1..];
    }
  }

  /** Exactly one of a < b, a == b, b < a. */
  lemma {:induction false} Trichotomy(a: Bytes, b: Bytes)
    ensures Less(a, b) <==> !LessEq(b, a)
  {
    LessTotal(a, b);
    LessIrreflexive(a);
    if Less(a, b) && Less(b, a) { LessTransitive(a, b, a); }
  }

  lemma {:induction false} CommonPrefix(p: Bytes, a: Bytes, b: Bytes)
    ensures Less(p + a, p + b) <==> Less(a, b)
  {
    if p == [] {
      assert p + a == a && p + b == b;
    } else {
      CommonPrefix(p[1..], a, b);
      assert (p + a)[1..] == p[1..] + a && (p + b)[1..] == p[1..] + b;
    }
  }

  /** Whatever lies between two strings with a common prefix has that prefix. */
  lemma {:induction false} Between(p: Bytes, a: Bytes, x: Bytes, b: Bytes)
    requires LessEq(p + a, x) && LessEq(x, p + b)
    ensures p <= x
  {
    if p == [] {
    } else {
      var a', b' := p[1..] + a, p[1..] + b;
      assert p + a == [p[0]] + a' && p + b == [p[0]] + b';
      assert x != [] && x[0] == p[0];
      assert x == [p[0]] + x[1..];
      assert (p + a)[1..] == a' && (p + b)[1..] == b';
      Between(p[1..], a, x[1..], b);
    }
  }

  /** The `w` byte big-endian form of n (setValueAt in include/nsblast/util.h). */
  function BigEndian(n: nat, w: nat): (r: Bytes)
    ensures |r| == w
  {
    if w == 0 then [] else BigEndian(n / 256, w - 1) + [n % 256]
  }

  function FromBigEndian(b: Bytes): nat {
    if b == [] then 0 else FromBigEndian(b[..|b| - 1]) * 256 + b[|b| - 1]
  }

  /** A number and one more byte after it. */
  function Shifted(high: nat, low: nat): nat {
    high * 256 + low
  }

  lemma {:induction false} TwoBytes(b: Bytes)
    requires |b| == 2
    ensures FromBigEndian(b) == Shifted(b[0], b[1])
  {
    assert FromBigEndian(b[..1]) == FromBigEndian(b[..1][..0]) * 256 + b[0];
  }

  lemma {:induction false} FourBytes(b: Bytes)
    requires |b| == 4
    ensures FromBigEndian(b) == Shifted(Shifted(Shifted(b[0], b[1]), b[2]), b[3])
  {
    TwoBytes(b[..2]);
    assert b[..3][..2] == b[..2];
  }

  function Pow256(w: nat): nat {
    if w == 0 then 1 else 256 * Pow256(w - 1)
  }

  lemma {:induction false} BigEndianRoundTrip(n: nat, w: nat)
    requires n < Pow256(w)
    ensures FromBigEndian(BigEndian(n, w)) == n
  {
    if w == 0 {
    } else {
      BigEndianRoundTrip(n / 256, w - 1);
      assert BigEndian(n, w)[..w - 1] == BigEndian(n / 256, w - 1);
    }
  }

  lemma {:induction false} LessAppend(a: Bytes, b: Bytes, x: byte, y: byte)
    requires |a| == |b|
    ensures Less(a + [x], b + [y]) <==> Less(a, b) || (a == b && x < y)
  {
    if a == [] {
    } else {
      LessAppend(a[1..], b[1..], x, y);
      assert (a + [x])[1..] == a[1..] + [x] && (b + [y])[1..] == b[1..] + [y];
      assert a == [a[0]] + a[1..] && b == [b[0]] + b[1..];
    }
  }

  /** Big-endian byte order is numeric order. */
  lemma {:induction false} BigEndianOrder(m: nat, n: nat, w: nat)
    requires m < Pow256(w) && n < Pow256(w)
    ensures Less(BigEndian(m, w), BigEndian(n, w)) <==> m < n
    ensures BigEndian(m, w) == BigEndian(n, w) <==> m == n
  {
    if w == 0 {
    } else {
      BigEndianOrder(m / 256, n / 256, w - 1);
      LessAppend(BigEndian(m / 256, w - 1), BigEndian(n / 256, w - 1), m % 256, n % 256);
      BigEndianRoundTrip(m, w);
      BigEndianRoundTrip(n, w);
    }
  }

  function Reverse(s: Bytes): (r: Bytes)
    ensures |r| == |s|
    ensures forall i :: 0 <= i < |s| ==> r[i] == s[|s| - 1 - i]
  {
    seq(|s|, i requires 0 <= i < |s| => s[|s| - 1 - i])
  }

  lemma {:induction false} ReverseTwice(s: Bytes)
    ensures Reverse(Reverse(s)) == s
  {
  }
}
