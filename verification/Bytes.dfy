/** Byte strings and the integer encodings the store and the wire formats use: fixed-width big-
    and little-endian integers, and the byte order a bucket cursor walks in. */
module Bytes {
  import opened Sequences

  type u8 = x: int | 0 <= x < 0x100
  type u16 = x: int | 0 <= x < 0x1_0000
  type u32 = x: int | 0 <= x < 0x1_0000_0000
  type u64 = x: int | 0 <= x < 0x1_0000_0000_0000_0000

  const U64_LIMIT := 0x1_0000_0000_0000_0000

  type bytes = seq<u8>

  function Zeros(n: nat): (r: bytes)
    ensures |r| == n
  {
    if n == 0 then [] else Zeros(n - 1) + [0]
  }

  lemma {:induction false} ZerosAreZero(n: nat)
    ensures forall i :: 0 <= i < n ==> Zeros(n)[i] == 0
  {
    if n > 0 {
      ZerosAreZero(n - 1);
    }
  }

  lemma ZerosOnly(h: bytes)
    ensures h == Zeros(|h|) <==> forall b :: b in h ==> b == 0
  {
    ZerosAreZero(|h|);
    hide Zeros;
    assert (forall b :: b in h ==> b == 0) ==> forall i :: 0 <= i < |h| ==> h[i] in h && h[i] == 0;
  }

  /** 64-byte transaction signature; the all-zero one means "none". */
  type Signature = s: bytes | |s| == 64 witness Zeros(64)

  /** 32-byte account key. */
  type Key = s: bytes | |s| == 32 witness Zeros(32)

  const ZERO_SIGNATURE: Signature := Zeros(64)

  function Pow256(n: nat): (p: nat)
    ensures p >= 1
  {
    if n == 0 then 1 else 256 * Pow256(n - 1)
  }

  lemma PowValues()
    ensures Pow256(2) == 0x1_0000
    ensures Pow256(4) == 0x1_0000_0000
    ensures Pow256(8) == U64_LIMIT
  {
    assert Pow256(1) == 256 * Pow256(0);
    assert Pow256(2) == 256 * Pow256(1);
    assert Pow256(3) == 256 * Pow256(2);
    assert Pow256(4) == 256 * Pow256(3);
    assert Pow256(5) == 256 * Pow256(4);
    assert Pow256(6) == 256 * Pow256(5);
    assert Pow256(7) == 256 * Pow256(6);
    assert Pow256(8) == 256 * Pow256(7);
  }

  // ---- big endian ----

  function EncodeBE(v: nat, n: nat): (r: bytes)
    ensures |r| == n
  {
    if n == 0 then [] else EncodeBE(v / 256, n - 1) + [v % 256]
  }

  function DecodeBE(s: bytes): nat {
    if s == [] then 0 else 256 * DecodeBE(s[..|s| - 1]) + Last(s)
  }

  lemma {:induction false} DecodeEncodeBE(v: nat, n: nat)
    requires v < Pow256(n)
    ensures DecodeBE(EncodeBE(v, n)) == v
  {
    if n > 0 {
      DecodeEncodeBE(v / 256, n - 1);
      assert EncodeBE(v, n)[..n - 1] == EncodeBE(v / 256, n - 1);
    }
  }

  lemma EncodeSnoc(v: nat, d: u8, n: nat)
    ensures EncodeBE(256 * v + d, n + 1) == EncodeBE(v, n) + [d]
  {
    ModUnique(256 * v + d, 256, v, d);
  }

  lemma {:induction false} EncodeDecodeBE(s: bytes)
    ensures DecodeBE(s) < Pow256(|s|)
    ensures EncodeBE(DecodeBE(s), |s|) == s
  {
    if s != [] {
      var front := s[..|s| - 1];
      EncodeDecodeBE(front);
      EncodeSnoc(DecodeBE(front), Last(s), |front|);
      assert s == front + [Last(s)];
    }
  }

  /** Lexicographic order on byte strings, the order of keys inside a bucket. */
  predicate LexLess(a: bytes, b: bytes) {
    if b == [] then false
    else if a == [] then true
    else a[0] < b[0] || (a[0] == b[0] && LexLess(a[1..], b[1..]))
  }

  lemma {:induction false} LexSnoc(a: bytes, b: bytes, c: u8, d: u8)
    requires |a| == |b|
    ensures LexLess(a + [c], b + [d]) <==> LexLess(a, b) || (a == b && c < d)
  {
    if a == [] {
      assert a + [c] == [c] && b + [d] == [d];
    } else {
      LexSnoc(a[1..], b[1..], c, d);
      assert (a + [c])[1..] == a[1..] + [c];
      assert (b + [d])[1..] == b[1..] + [d];
      assert a == [a[0]] + a[1..] && b == [b[0]] + b[1..];
    }
  }

  /** Big-endian keys of one width sort exactly as the numbers they encode. */
  lemma {:induction false} BigEndianOrder(v: nat, w: nat, n: nat)
    requires v < Pow256(n) && w < Pow256(n)
    ensures LexLess(EncodeBE(v, n), EncodeBE(w, n)) <==> v < w
  {
    if n > 0 {
      BigEndianOrder(v / 256, w / 256, n - 1);
      LexSnoc(EncodeBE(v / 256, n - 1), EncodeBE(w / 256, n - 1), v % 256, w % 256);
      DecodeEncodeBE(v / 256, n - 1);
      DecodeEncodeBE(w / 256, n - 1);
    }
  }

  lemma LexTotal(a: bytes, b: bytes)
    ensures LexLess(a, b) || a == b || LexLess(b, a)
  {
    if a != [] && b != [] {
      LexTotal(a[1..], b[1..]);
      assert a == [a[0]] + a[1..] && b == [b[0]] + b[1..];
    }
  }

  lemma LexTransitive(a: bytes, b: bytes, c: bytes)
    requires LexLess(a, b) && LexLess(b, c)
    ensures LexLess(a, c)
  {
  }

  lemma LexIrreflexive(a: bytes)
    ensures !LexLess(a, a)
  {
  }

  function EncodeUint64(v: u64): (r: bytes)
    ensures |r| == 8
  {
    EncodeBE(v, 8)
  }

  function DecodeUint64(s: bytes): (v: u64)
    requires |s| == 8
  {
    EncodeDecodeBE(s);
    PowValues();
    DecodeBE(s)
  }

  lemma Uint64RoundTrip(v: u64)
    ensures DecodeUint64(EncodeUint64(v)) == v
  {
    PowValues();
    DecodeEncodeBE(v, 8);
  }

  lemma Uint64Injective(v: u64, w: u64)
    requires EncodeUint64(v) == EncodeUint64(w)
    ensures v == w
  {
    Uint64RoundTrip(v);
    Uint64RoundTrip(w);
  }

  lemma Uint64Order(v: u64, w: u64)
    ensures LexLess(EncodeUint64(v), EncodeUint64(w)) <==> v < w
  {
    PowValues();
    BigEndianOrder(v, w, 8);
  }

  // ---- little endian ----

  function EncodeLE(v: nat, n: nat): (r: bytes)
    ensures |r| == n
  {
    if n == 0 then [] else [v % 256] + EncodeLE(v / 256, n - 1)
  }

  function DecodeLE(s: bytes): nat {
    if s == [] then 0 else s[0] + 256 * DecodeLE(s[1..])
  }

  /** Little-endian writing keeps the value modulo the width, as a truncating cast does. */
  lemma {:induction false} DecodeEncodeLE(v: nat, n: nat)
    ensures DecodeLE(EncodeLE(v, n)) == v % Pow256(n)
  {
    if n > 0 {
      DecodeEncodeLE(v / 256, n - 1);
      assert EncodeLE(v, n)[1..] == EncodeLE(v / 256, n - 1);
      ModStep(v, Pow256(n - 1));
    }
  }

  lemma ModStep(v: nat, m: nat)
    requires m >= 1
    ensures v % 256 + 256 * ((v / 256) % m) == v % (256 * m)
  {
    var q := v / 256;
    var k := q / m;
    assert q == k * m + q % m;
    assert v == k * (256 * m) + (v % 256 + 256 * (q % m));
    ModUnique(v, 256 * m, k, v % 256 + 256 * (q % m));
  }

  lemma ModUnique(v: int, m: int, k: int, r: int)
    requires m > 0 && 0 <= r < m && v == k * m + r
    ensures v % m == r && v / m == k
  {
    var k' := v / m;
    var r' := v % m;
    assert v == k' * m + r';
    assert (k - k') * m == r' - r;
    MulApart(k - k', m);
  }

  lemma MulApart(x: int, m: int)
    requires m > 0
    ensures x >= 1 ==> x * m >= m
    ensures x <= -1 ==> x * m <= -m
  {
  }

  lemma {:induction false} EncodeDecodeLE(s: bytes)
    ensures EncodeLE(DecodeLE(s), |s|) == s
  {
    if s != [] {
      EncodeDecodeLE(s[1..]);
      ModUnique(DecodeLE(s), 256, DecodeLE(s[1..]), s[0]);
      assert s == [s[0]] + s[1..];
    }
  }

  // ---- digits ----

  /** Dividing twice. */
  lemma DivideTwice(v: nat, b: nat, p: nat)
    requires b > 0 && p > 0
    ensures b * p > 0 && v / b / p == v / (b * p)
  {
    var q, d := v / b, v % b;
    var k, r := q / p, q % p;
    assert b * p >= p by { MulApart(b, p); }
    assert v == b * (p * k + r) + d;
    assert b * (p * k + r) + d == k * (b * p) + (b * r + d);
    MulApart(p - r, b);
    assert b * r + b <= b * p;
    ModUnique(v, b * p, k, b * r + d);
  }

  /** The k-th byte of a little-endian number is its k-th digit to the base 256. */
  lemma {:induction false} LittleEndianDigit(v: nat, n: nat, k: nat)
    requires k < n
    ensures EncodeLE(v, n)[k] == v / Pow256(k) % 256
  {
    if k > 0 {
      LittleEndianDigit(v / 256, n - 1, k - 1);
      DivideTwice(v, 256, Pow256(k - 1));
    }
  }

  /** Byte k is the k-th digit to the base 256. */
  ghost predicate LittleEndian(b: bytes, v: nat) {
    forall k :: 0 <= k < |b| ==> b[k] == v / Pow256(k) % 256
  }

  lemma LittleEndianExactly(b: bytes, v: nat)
    ensures LittleEndian(b, v) <==> b == EncodeLE(v, |b|)
  {
    hide EncodeLE, Pow256;
    forall k | 0 <= k < |b|
      ensures EncodeLE(v, |b|)[k] == v / Pow256(k) % 256
    {
      LittleEndianDigit(v, |b|, k);
    }
  }

  /** A big-endian number has the same digits the other way around. */
  lemma {:induction false} BigEndianDigit(v: nat, n: nat, k: nat)
    requires k < n
    ensures EncodeBE(v, n)[n - 1 - k] == v / Pow256(k) % 256
  {
    if k > 0 {
      BigEndianDigit(v / 256, n - 1, k - 1);
      DivideTwice(v, 256, Pow256(k - 1));
    }
  }

  /** The other way around. */
  ghost predicate BigEndian(b: bytes, v: nat) {
    forall k :: 0 <= k < |b| ==> b[|b| - 1 - k] == v / Pow256(k) % 256
  }

  lemma BigEndianExactly(b: bytes, v: nat)
    ensures BigEndian(b, v) <==> b == EncodeBE(v, |b|)
  {
    hide EncodeBE, Pow256;
    forall k | 0 <= k < |b|
      ensures EncodeBE(v, |b|)[|b| - 1 - k] == v / Pow256(k) % 256
    {
      BigEndianDigit(v, |b|, k);
    }
    if BigEndian(b, v) {
      forall i | 0 <= i < |b|
        ensures b[i] == EncodeBE(v, |b|)[i]
      {
        assert b[|b| - 1 - (|b| - 1 - i)] == v / Pow256(|b| - 1 - i) % 256;
        assert EncodeBE(v, |b|)[|b| - 1 - (|b| - 1 - i)] == v / Pow256(|b| - 1 - i) % 256;
      }
    }
  }

  lemma {:induction false} DecodeLEBound(s: bytes)
    ensures DecodeLE(s) < Pow256(|s|)
  {
    if s != [] {
      DecodeLEBound(s[1..]);
    }
  }
}
