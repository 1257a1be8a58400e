/** Byte strings: the lexicographic key order, little-endian integers, and the
    bounds-checked reads every on-disk parser of the engine is built from. */
module Bytes {

  type byte = x: int | 0 <= x < 256

  const U32: nat := 0x1_0000_0000
  const U64: nat := 0x1_0000_0000_0000_0000

  datatype Option<+T> = None | Some(value: T)

  datatype Error = Corruption | Io

  /** The outcome of a fallible operation. */
  datatype Result<+T> = Ok(value: T) | Err(error: Error) {
    predicate IsFailure() { Err? }
    function PropagateFailure<U>(): Result<U> requires Err? { Err(error) }
    function Extract(): T requires Ok? { value }
  }

  // ---------------------------------------------------------------- key order

  /** Strict lexicographic order on byte strings (`memcmp` order). */
  predicate Less(a: seq<byte>, b: seq<byte>) {
    if b == [] then false
    else if a == [] then true
    else a[0] < b[0] || (a[0] == b[0] && Less(a[1..], b[1..]))
  }

  lemma {:induction false} LessTransitive(a: seq<byte>, b: seq<byte>, c: seq<byte>)
    requires Less(a, b) && Less(b, c)
    ensures Less(a, c)
  {
    if a != [] && a[0] == b[0] == c[0] {
      LessTransitive(a[1..], b[1..], c[1..]);
    }
  }

  lemma {:induction false} LessTotal(a: seq<byte>, b: seq<byte>)
    ensures Less(a, b) || a == b || Less(b, a)
  {
    if a != [] && b != [] && a[0] == b[0] {
      LessTotal(a[1..], b[1..]);
      if a[1..] == b[1..] {
        assert a == [a[0]] + a[1..] == b;
      }
    }
  }

  lemma {:induction false} LessAsymmetric(a: seq<byte>, b: seq<byte>)
    requires Less(a, b)
    ensures !Less(b, a) && a != b
  {
    if a != [] && a[0] == b[0] {
      LessAsymmetric(a[1..], b[1..]);
    }
  }

  /** `Less` is a strict total order, in the form later proofs instantiate. */
  lemma LessIsStrictTotalOrder()
    ensures forall a, b, c :: Less(a, b) && Less(b, c) ==> Less(a, c)
    ensures forall a, b :: Less(a, b) ==> !Less(b, a) && a != b
    ensures forall a, b :: !Less(a, b) && !Less(b, a) ==> a == b
  {
    forall a, b, c | Less(a, b) && Less(b, c) ensures Less(a, c) { LessTransitive(a, b, c); }
    forall a, b | Less(a, b) ensures !Less(b, a) && a != b { LessAsymmetric(a, b); }
    forall a, b | !Less(a, b) && !Less(b, a) ensures a == b { LessTotal(a, b); }
  }

  /** The order by its first difference: `a` is below `b` exactly if, after a common
      prefix, `a` ends before `b` does or has the smaller byte. */
  lemma {:induction false} LessAtFirstDifference(a: seq<byte>, b: seq<byte>)
    ensures Less(a, b) <==> exists i :: 0 <= i <= |a| && i < |b| && a[..i] == b[..i] && (i == |a| || a[i] < b[i])
  {
    if a == [] && b != [] {
      assert a[..0] == b[..0];
    } else if a != [] && b != [] {
      LessAtFirstDifference(a[1..], b[1..]);
      if a[0] < b[0] {
        assert a[..0] == b[..0];
      } else if Less(a, b) {
        var i :| 0 <= i <= |a[1..]| && i < |b[1..]| && a[1..][..i] == b[1..][..i] && (i == |a[1..]| || a[1..][i] < b[1..][i]);
        assert a[..i + 1] == [a[0]] + a[1..][..i] == b[..i + 1];
      } else if i: int :| 0 <= i <= |a| && i < |b| && a[..i] == b[..i] && (i == |a| || a[i] < b[i]) {
        FirstAgrees(a, b, i);
        assert a[1..][..i - 1] == a[..i][1..] == b[1..][..i - 1];
      }
    }
  }

  lemma FirstAgrees(a: seq<byte>, b: seq<byte>, i: int)
    requires a != [] && b != [] && b[0] <= a[0] && 0 <= i <= |a| && i < |b| && a[..i] == b[..i] && (i == |a| || a[i] < b[i])
    ensures i > 0 && a[0] == b[0]
  {
    if i > 0 { assert a[..i][0] == b[..i][0]; }
  }

  // ---------------------------------------------------- little-endian integers

  function Pow256(width: nat): nat {
    if width == 0 then 1 else 256 * Pow256(width - 1)
  }

  /** The low `width` bytes of `n`, least significant first: what casting to the
      unsigned type of that width and calling `to_le_bytes` produces. */
  function LittleEndian(n: nat, width: nat): (s: seq<byte>)
    ensures |s| == width
  {
    if width == 0 then [] else [n % 256] + LittleEndian(n / 256, width - 1)
  }

  /** Byte `i` is digit `i` of the number in base 256. */
  lemma {:induction false} LittleEndianDigit(n: nat, width: nat, i: nat)
    requires i < width
    ensures Pow256(i) > 0 && LittleEndian(n, width)[i] == (n / Pow256(i)) % 256
  {
    if i > 0 {
      LittleEndianDigit(n / 256, width - 1, i - 1);
      DivideTwice(n, 256, Pow256(i - 1));
    }
  }

  lemma DivideTwice(n: nat, k: nat, m: nat)
    requires k > 0 && m > 0
    ensures k * m > 0 && n / k / m == n / (k * m)
  {
    var d := n / k;
    var q, r, low := d / m, d % m, n % k;
    Divided(n, k);
    Divided(d, m);
    Nested(n, k, m, q, r, low);
    Quotient(n, k * m, q, k * r + low);
  }

  lemma Divided(n: nat, k: nat)
    requires k > 0
    ensures n == k * (n / k) + n % k && n % k < k
  {
  }

  lemma Nested(n: nat, k: nat, m: nat, q: nat, r: nat, low: nat)
    requires n == k * (m * q + r) + low && r < m && low < k
    ensures n == q * (k * m) + (k * r + low) && k * r + low < k * m && k * m > 0
  {
    assert k * (m * q + r) == q * (k * m) + k * r;
    ProductsApart(r, m, k);
  }

  lemma Quotient(n: nat, m: nat, q: nat, r: nat)
    requires m > 0 && n == q * m + r && r < m
    ensures n / m == q
  {
    var d, rest := n / m, n % m;
    assert d * m + rest == q * m + r;
    if d < q { ProductsApart(d, q, m); } else if d > q { ProductsApart(q, d, m); }
  }

  lemma {:induction false} ProductsApart(a: nat, b: nat, m: nat)
    requires a < b
    ensures b * m >= a * m + m
  {
    assert b * m == (b - 1) * m + m;
    if a < b - 1 { ProductsApart(a, b - 1, m); }
  }

  function FromLittleEndian(s: seq<byte>): (n: nat)
    ensures n < Pow256(|s|)
  {
    if s == [] then 0 else s[0] + 256 * FromLittleEndian(s[1..])
  }

  /** Encoding then decoding truncates to the width, and loses nothing below it. */
  lemma {:induction false} FromOfLittleEndian(n: nat, width: nat)
    requires n < Pow256(width)
    ensures FromLittleEndian(LittleEndian(n, width)) == n
  {
    if width > 0 {
      FromOfLittleEndian(n / 256, width - 1);
      assert LittleEndian(n, width)[1..] == LittleEndian(n / 256, width - 1);
    }
  }

  lemma {:induction false} LittleEndianOfFrom(s: seq<byte>)
    ensures LittleEndian(FromLittleEndian(s), |s|) == s
  {
    if s != [] {
      var rest := FromLittleEndian(s[1..]);
      LittleEndianOfFrom(s[1..]);
      assert (s[0] + 256 * rest) % 256 == s[0] && (s[0] + 256 * rest) / 256 == rest;
      assert s == [s[0]] + s[1..];
    }
  }

  lemma Pow256Widths()
    ensures Pow256(4) == U32 && Pow256(8) == U64
  {
    assert Pow256(2) == 65536;
    assert Pow256(4) == 256 * (256 * Pow256(2));
    assert Pow256(6) == 256 * (256 * Pow256(4));
    assert Pow256(8) == 256 * (256 * Pow256(6));
  }

  function Le32(n: nat): (s: seq<byte>) ensures |s| == 4 { LittleEndian(n, 4) }
  function Le64(n: nat): (s: seq<byte>) ensures |s| == 8 { LittleEndian(n, 8) }

  function U32Of(s: seq<byte>): (n: nat)
    requires |s| == 4
    ensures n < U32 && Le32(n) == s
  {
    LittleEndianOfFrom(s); Pow256Widths();
    FromLittleEndian(s)
  }

  function U64Of(s: seq<byte>): (n: nat)
    requires |s| == 8
    ensures n < U64 && Le64(n) == s
  {
    LittleEndianOfFrom(s); Pow256Widths();
    FromLittleEndian(s)
  }

  lemma Le32RoundTrip(n: nat)
    requires n < U32
    ensures U32Of(Le32(n)) == n
  {
    Pow256Widths(); FromOfLittleEndian(n, 4);
  }

  lemma Le64RoundTrip(n: nat)
    requires n < U64
    ensures U64Of(Le64(n)) == n
  {
    Pow256Widths(); FromOfLittleEndian(n, 8);
  }
}
