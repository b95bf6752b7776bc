/** Sixteen-bit samples, their little-endian bytes, and the conversions from real numbers. */
module Pcm16 {

  type byte = x: int | 0 <= x < 256
  type int16 = x: int | -32768 <= x <= 32767

  /** Keeps the low sixteen bits, read as a signed number. */
  function Wrap16(x: int): int16 {
    var low := x % 65536;
    if low >= 32768 then low - 65536 else low
  }

  function SampleOf(lo: byte, hi: byte): int16 {
    Wrap16(lo + 256 * hi)
  }

  function LowByte(x: int16): byte { x % 256 }

  function HighByte(x: int16): byte { (x / 256) % 256 }

  lemma BytesOfSample(x: int16)
    ensures SampleOf(LowByte(x), HighByte(x)) == x
  {
    var high := x / 256;
    assert x == 256 * high + LowByte(x);
    assert HighByte(x) == if x >= 0 then high else high + 256;
  }

  lemma SampleOfBytes(lo: byte, hi: byte)
    ensures LowByte(SampleOf(lo, hi)) == lo && HighByte(SampleOf(lo, hi)) == hi
  {
  }

  function ToSamples(b: seq<byte>): (s: seq<int16>)
    ensures |s| == |b| / 2
  {
    seq(|b| / 2, i requires 0 <= i < |b| / 2 => SampleOf(b[2 * i], b[2 * i + 1]))
  }

  function ToBytes(s: seq<int16>): (b: seq<byte>)
    ensures |b| == 2 * |s|
  {
    seq(2 * |s|, i requires 0 <= i < 2 * |s| => if i % 2 == 0 then LowByte(s[i / 2]) else HighByte(s[i / 2]))
  }

  method Pcm16BytesToSamples(b: seq<byte>) returns (out: array<int16>)
    ensures fresh(out) && out[..] == ToSamples(b)
    ensures forall k :: 0 <= k < |b| / 2 ==>
      (b[2 * k] as int) + 256 * (b[2 * k + 1] as int) == if out[k] >= 0 then out[k] as int else out[k] as int + 65536
  {
    var n := |b| / 2;
    out := new int16[n];
    for i := 0 to n
      invariant forall k :: 0 <= k < i ==> out[k] == SampleOf(b[2 * k], b[2 * k + 1])
    {
      out[i] := SampleOf(b[i * 2], b[i * 2 + 1]);
    }
  }

  method SamplesToPcm16Bytes(s: seq<int16>) returns (out: array<byte>)
    ensures fresh(out) && out[..] == ToBytes(s) && out.Length == 2 * |s|
    ensures forall k :: 0 <= k < |s| ==>
      (out[2 * k] as int) + 256 * (out[2 * k + 1] as int) == if s[k] >= 0 then s[k] as int else s[k] as int + 65536
  {
    out := new byte[|s| * 2];
    for i := 0 to |s|
      invariant forall k :: 0 <= k < 2 * i ==> out[k] == ToBytes(s)[k]
    {
      out[i * 2] := LowByte(s[i]);
      out[i * 2 + 1] := HighByte(s[i]);
    }
  }

  lemma SamplesRoundTrip(s: seq<int16>)
    ensures ToSamples(ToBytes(s)) == s
  {
    hide SampleOf, LowByte, HighByte;
    forall i | 0 <= i < |s| ensures ToSamples(ToBytes(s))[i] == s[i] {
      assert 2 * i / 2 == i && (2 * i + 1) / 2 == i && 2 * i % 2 == 0 && (2 * i + 1) % 2 == 1;
      BytesOfSample(s[i]);
    }
  }

  /** An odd byte at the end is dropped; everything else survives. */
  lemma BytesRoundTrip(b: seq<byte>)
    ensures ToBytes(ToSamples(b)) == b[..|b| / 2 * 2]
  {
    hide SampleOf, LowByte, HighByte;
    forall i | 0 <= i < |b| / 2 * 2 ensures ToBytes(ToSamples(b))[i] == b[i] {
      SampleOfBytes(b[i / 2 * 2], b[i / 2 * 2 + 1]);
    }
  }

  // ---- From real numbers ----

  /** Go's conversion of a float to an integer drops the fraction, toward zero. */
  function Truncate(x: real): int {
    if x >= 0.0 then x.Floor else 0 - (0.0 - x).Floor
  }

  function Saturate(x: real): (y: real)
    ensures -32768.0 <= y <= 32767.0
  {
    if x > 32767.0 then 32767.0 else if x < -32768.0 then -32768.0 else x
  }

  function Clip(x: real): (y: int16) {
    Truncate(Saturate(x))
  }

  /** The conversion saturates, and otherwise drops the fraction, toward zero. */
  lemma ClipIs(x: real)
    ensures x >= 32767.0 ==> Clip(x) == 32767
    ensures x <= -32768.0 ==> Clip(x) == -32768
    ensures 0.0 <= x <= 32767.0 ==> Clip(x) as real <= x < Clip(x) as real + 1.0
    ensures -32768.0 <= x <= 0.0 ==> Clip(x) as real - 1.0 < x <= Clip(x) as real
  {
  }

  lemma ProductMonotone(a: real, b: real, c: real)
    requires a <= b && c >= 0.0
    ensures a * c <= b * c
  {
  }

  lemma ProductNonNegative(a: real, b: real)
    requires a >= 0.0 && b >= 0.0
    ensures a * b >= 0.0
  {
  }

  /** A product, by name, for proofs that need no more of it than a bound. */
  function Times(w: real, x: real): real { w * x }

  lemma TimesWithin(w: real, x: real, bound: real)
    requires 0.0 <= w && -bound <= x <= bound
    ensures -Times(w, bound) <= Times(w, x) <= Times(w, bound)
  {
    ProductNonNegative(w, bound - x);
    ProductNonNegative(w, bound + x);
    assert w * (bound - x) == w * bound - w * x;
    assert w * (bound + x) == w * bound + w * x;
  }

  function Mix(a: real, b: real, t: real): real {
    a * (1.0 - t) + b * t
  }

  lemma MixStaysBetween(a: real, b: real, t: real)
    requires 0.0 <= t <= 1.0
    ensures a <= b ==> a <= Mix(a, b, t) <= b
    ensures b <= a ==> b <= Mix(a, b, t) <= a
  {
    if a <= b {
      ProductNonNegative(b - a, t);
      ProductNonNegative(b - a, 1.0 - t);
      assert Mix(a, b, t) == a + (b - a) * t;
      assert Mix(a, b, t) == b - (b - a) * (1.0 - t);
    }
    if b <= a {
      ProductNonNegative(a - b, t);
      ProductNonNegative(a - b, 1.0 - t);
      assert Mix(a, b, t) == a - (a - b) * t;
      assert Mix(a, b, t) == b + (a - b) * (1.0 - t);
    }
  }

  lemma TruncateBetween(lo: int, x: real, hi: int)
    requires lo as real <= x <= hi as real
    ensures lo <= Truncate(x) <= hi
  {
  }

  lemma TruncateInteger(n: int)
    ensures Truncate(n as real) == n
  {
    assert 0.0 - n as real == (0 - n) as real;
  }
}
