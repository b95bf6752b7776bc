/** The rate converter: interpolation between samples, with the low-pass filter before or after it. */
module Resampler {
  import opened Pcm16
  import opened LowPass

  // ---- Positions ----

  function Ratio(source: int, target: int): real
    requires source > 0 && target > 0
  {
    target as real / source as real
  }

  function OutputCount(n: nat, source: int, target: int): int
    requires source > 0 && target > 0
  {
    Truncate(n as real * Ratio(source, target))
  }

  function Position(k: nat, source: int, target: int): real
    requires source > 0 && target > 0
  {
    k as real / Ratio(source, target)
  }

  lemma RatioIsPositive(source: int, target: int)
    requires source > 0 && target > 0
    ensures Ratio(source, target) > 0.0
    ensures Ratio(source, target) * source as real == target as real
  {
  }

  lemma CountIsNatural(n: nat, source: int, target: int)
    requires source > 0 && target > 0
    ensures OutputCount(n, source, target) >= 0
    ensures OutputCount(n, source, target) as real <= n as real * Ratio(source, target)
  {
    RatioIsPositive(source, target);
    ProductMonotone(0.0, n as real, Ratio(source, target));
  }

  lemma QuotientTimes(x: real, y: real)
    requires y != 0.0
    ensures x / y * y == x
  {
  }

  lemma QuotientNonNegative(x: real, y: real)
    requires x >= 0.0 && y > 0.0
    ensures x / y >= 0.0
  {
  }

  /** Every output sample is read from inside the input: the "no sample" branch is never reached. */
  lemma SourceIndexInRange(n: nat, k: nat, source: int, target: int)
    requires source > 0 && target > 0 && k < OutputCount(n, source, target)
    ensures 0.0 <= Position(k, source, target) < n as real
    ensures 0 <= Truncate(Position(k, source, target)) < n
  {
    CountIsNatural(n, source, target);
    RatioIsPositive(source, target);
    var q := Ratio(source, target);
    var p := Position(k, source, target);
    QuotientTimes(k as real, q);
    QuotientNonNegative(k as real, q);
    if p >= n as real {
      ProductMonotone(n as real, p, q);
    }
  }

  // ---- Interpolation ----

  function Linear(v1: int16, v2: int16, t: real): real {
    Mix(v1 as real, v2 as real, t)
  }

  function Cubic(p0: int16, p1: int16, p2: int16, p3: int16, t: real): real {
    var t2 := t * t;
    var t3 := t2 * t;
    (2.0 * t3 - 3.0 * t2 + 1.0) * p1 as real
    + (t3 - 2.0 * t2 + t) * (p2 as real - p0 as real) / 2.0
    + (-2.0 * t3 + 3.0 * t2) * p2 as real
    + (t3 - t2) * (p3 as real - p1 as real) / 2.0
  }

  /** The conversion does not saturate; out of range, the low sixteen bits are kept, as on the platforms Go runs
      this on. */
  function ToInt16(x: real): int16 {
    Wrap16(Truncate(x))
  }

  function SampleAt(samples: seq<int16>, k: nat, source: int, target: int, useCubic: bool): int16
    requires source > 0 && target > 0
  {
    var p := Position(k, source, target);
    var i := Truncate(p);
    var t := p - i as real;
    if i < 0 || i >= |samples| then 0
    else if useCubic && i + 2 < |samples| && i > 0 then
      ToInt16(Cubic(samples[i - 1], samples[i], samples[i + 1], samples[i + 2], t))
    else if i + 1 < |samples| then ToInt16(Linear(samples[i], samples[i + 1], t))
    else samples[i]
  }

  function Interpolated(samples: seq<int16>, source: int, target: int, useCubic: bool): (out: seq<int16>)
    requires source > 0 && target > 0
  {
    if OutputCount(|samples|, source, target) < 0 then []
    else
      var n: nat := OutputCount(|samples|, source, target);
      seq(n, k requires k >= 0 => SampleAt(samples, k, source, target, useCubic))
  }

  lemma ConversionStaysBetween(lo: int16, x: real, hi: int16)
    requires lo as real <= x <= hi as real
    ensures lo <= ToInt16(x) <= hi
  {
    TruncateBetween(lo, x, hi);
  }

  /** A linear value lies between its neighbours, whichever is larger. */
  lemma LinearStaysBetween(v1: int16, v2: int16, t: real)
    requires 0.0 <= t <= 1.0
    ensures v1 <= v2 ==> v1 <= ToInt16(Linear(v1, v2, t)) <= v2
    ensures v2 <= v1 ==> v2 <= ToInt16(Linear(v1, v2, t)) <= v1
  {
    hide ToInt16, Mix;
    MixStaysBetween(v1 as real, v2 as real, t);
    if v1 <= v2 {
      ConversionStaysBetween(v1, Linear(v1, v2, t), v2);
    }
    if v2 <= v1 {
      ConversionStaysBetween(v2, Linear(v1, v2, t), v1);
    }
  }

  lemma SquareNonNegative(x: real)
    ensures x * x >= 0.0
  {
    if x < 0.0 {
      ProductNonNegative(-x, -x);
      assert -x * -x == x * x;
    } else {
      ProductNonNegative(x, x);
    }
  }

  function OuterLeft(t: real): real { t * (1.0 - t) * (1.0 - t) / 2.0 }
  function InnerLeft(t: real): real { 1.0 + 1.5 * t * t * t - 2.5 * t * t }
  function InnerRight(t: real): real { 2.0 * t * t - 1.5 * t * t * t + t / 2.0 }
  function OuterRight(t: real): real { t * t * (1.0 - t) / 2.0 }

  lemma CubicIsWeighted(p0: int16, p1: int16, p2: int16, p3: int16, t: real)
    ensures Cubic(p0, p1, p2, p3, t) ==
      Times(InnerLeft(t), p1 as real) + Times(InnerRight(t), p2 as real)
      - Times(OuterLeft(t), p0 as real) - Times(OuterRight(t), p3 as real)
  {
    var t2, t3 := t * t, t * t * t;
    Regrouped(p0 as real, p1 as real, p2 as real, p3 as real, t, t2, t3);
    assert OuterLeft(t) == (t - 2.0 * t2 + t3) / 2.0 && OuterRight(t) == (t2 - t3) / 2.0;
    assert InnerLeft(t) == 1.0 + 1.5 * t3 - 2.5 * t2 && InnerRight(t) == 2.0 * t2 - 1.5 * t3 + t / 2.0;
  }

  lemma Regrouped(p0: real, p1: real, p2: real, p3: real, t: real, t2: real, t3: real)
    ensures
      (2.0 * t3 - 3.0 * t2 + 1.0) * p1 + (t3 - 2.0 * t2 + t) * (p2 - p0) / 2.0
      + (-2.0 * t3 + 3.0 * t2) * p2 + (t3 - t2) * (p3 - p1) / 2.0 ==
      Times(1.0 + 1.5 * t3 - 2.5 * t2, p1) + Times(2.0 * t2 - 1.5 * t3 + t / 2.0, p2)
      - Times((t - 2.0 * t2 + t3) / 2.0, p0) - Times((t2 - t3) / 2.0, p3)
  {
  }

  /** No weight changes sign between the middle samples, and in size they add up to at most five quarters. */
  lemma WeightsAreBounded(t: real)
    requires 0.0 <= t <= 1.0
    ensures OuterLeft(t) >= 0.0 && InnerLeft(t) >= 0.0 && InnerRight(t) >= 0.0 && OuterRight(t) >= 0.0
    ensures OuterLeft(t) + InnerLeft(t) + InnerRight(t) + OuterRight(t) <= 1.25
  {
    var u := 1.0 - t;
    var t2, t3 := t * t, t * t * t;
    ProductNonNegative(t, u);
    ProductNonNegative(t * u, u);
    ProductNonNegative(t, t);
    ProductNonNegative(t2, u);
    ProductNonNegative(t2, t);
    ProductNonNegative(u, u);
    assert t * u * u == t - 2.0 * t2 + t3;
    assert t2 * u == t2 - t3;
    assert 1.0 + 1.5 * t3 - 2.5 * t2 == u * u + 2.0 * t * u * u + t2 * u / 2.0;
    assert 2.0 * t2 - 1.5 * t3 + t / 2.0 == 2.0 * t2 * u + t2 + t * u * u / 2.0;
    SquareNonNegative(t - 0.5);
    assert (t - 0.5) * (t - 0.5) == t2 - t + 0.25;
  }

  predicate Within(p0: int16, p1: int16, p2: int16, p3: int16, bound: nat) {
    && 0 - bound <= p0 <= bound && 0 - bound <= p1 <= bound
    && 0 - bound <= p2 <= bound && 0 - bound <= p3 <= bound
  }

  /** Samples within `bound` of zero give cubic values within five quarters of it. */
  lemma CubicBound(p0: int16, p1: int16, p2: int16, p3: int16, t: real, bound: nat)
    requires 0.0 <= t <= 1.0 && Within(p0, p1, p2, p3, bound)
    ensures -(1.25 * bound as real) <= Cubic(p0, p1, p2, p3, t) <= 1.25 * bound as real
  {
    hide Cubic, OuterLeft, InnerLeft, InnerRight, OuterRight, Times;
    CubicIsWeighted(p0, p1, p2, p3, t);
    WeightsAreBounded(t);
    var w0, w1, w2, w3 := OuterLeft(t), InnerLeft(t), InnerRight(t), OuterRight(t);
    var a := bound as real;
    TimesWithin(w0, p0 as real, a);
    TimesWithin(w1, p1 as real, a);
    TimesWithin(w2, p2 as real, a);
    TimesWithin(w3, p3 as real, a);
    WeightsTimes(w0, w1, w2, w3, a);
    SumWithin(Times(w0, p0 as real), Times(w1, p1 as real), Times(w2, p2 as real), Times(w3, p3 as real),
      Times(w0, a), Times(w1, a), Times(w2, a), Times(w3, a), 1.25 * a);
  }

  lemma WeightsTimes(w0: real, w1: real, w2: real, w3: real, a: real)
    requires w0 + w1 + w2 + w3 <= 1.25 && a >= 0.0
    ensures Times(w0, a) + Times(w1, a) + Times(w2, a) + Times(w3, a) <= 1.25 * a
  {
    var sum := w0 + w1 + w2 + w3;
    ProductNonNegative(1.25 - sum, a);
    assert (1.25 - sum) * a == 1.25 * a - sum * a;
    assert sum * a == w0 * a + w1 * a + w2 * a + w3 * a;
  }

  lemma SumWithin(x0: real, x1: real, x2: real, x3: real, s0: real, s1: real, s2: real, s3: real, limit: real)
    requires -s0 <= x0 <= s0 && -s1 <= x1 <= s1 && -s2 <= x2 <= s2 && -s3 <= x3 <= s3
    requires s0 + s1 + s2 + s3 <= limit
    ensures -limit <= x1 + x2 - x0 - x3 <= limit
  {
  }

  /** The conversion of a cubic value drops only its fraction. */
  predicate Fits(p0: int16, p1: int16, p2: int16, p3: int16, t: real) {
    -32768 <= Truncate(Cubic(p0, p1, p2, p3, t)) <= 32767
  }

  /** The largest amplitude at which no cubic value can leave the sixteen-bit range is 26214. */
  lemma CubicFitsIff(bound: nat)
    requires bound <= 32767
    ensures (forall p0, p1, p2, p3, t ::
        0.0 <= t < 1.0 && Within(p0, p1, p2, p3, bound) ==> Fits(p0, p1, p2, p3, t)) <==> bound <= 26214
  {
    if bound <= 26214 {
      forall p0, p1, p2, p3, t | 0.0 <= t < 1.0 && Within(p0, p1, p2, p3, bound) ensures Fits(p0, p1, p2, p3, t) {
        CubicBound(p0, p1, p2, p3, t, bound);
        CubicInRange(p0, p1, p2, p3, t);
      }
    } else {
      var b: int16 := bound;
      LoudPeak(b);
      assert Within(-b, b, b, -b, bound);
      assert !Fits(-b, b, b, -b, 0.5);
    }
  }

  lemma CubicInRange(p0: int16, p1: int16, p2: int16, p3: int16, t: real)
    requires -32767.5 <= Cubic(p0, p1, p2, p3, t) <= 32767.5
    ensures Fits(p0, p1, p2, p3, t)
  {
    hide Cubic;
  }

  /** Half way up a loud peak the value overflows, and the sample comes out at the other end of the range. */
  lemma LoudPeak(b: int16)
    requires b > 26214
    ensures Cubic(-b, b, b, -b, 0.5) == 1.25 * b as real
    ensures Truncate(Cubic(-b, b, b, -b, 0.5)) > 32767
    ensures ToInt16(Cubic(-b, b, b, -b, 0.5)) < 0
  {
    assert (-b) as real == -(b as real);
    var x := 1.25 * b as real;
    assert x >= 32768.0 && x < 65536.0;
  }

  // ---- What the interpolation does to lines and curves ----

  /** Where the input lies on a line, so does the output, whichever interpolation is used. */
  lemma LineIsKept(samples: seq<int16>, c: real, d: real, k: nat, source: int, target: int, useCubic: bool)
    requires source > 0 && target > 0
    requires forall j :: 0 <= j < |samples| ==> samples[j] as real == c + Times(d, j as real)
    requires k < OutputCount(|samples|, source, target) && Truncate(Position(k, source, target)) + 1 < |samples|
    ensures SampleAt(samples, k, source, target, useCubic) ==
      ToInt16(c + Times(d, k as real * source as real / target as real))
  {
    hide Ratio, Position, Truncate, Cubic, Linear, ToInt16, OutputCount, Times;
    PositionIs(k, source, target);
    SourceIndexInRange(|samples|, k, source, target);
    var p := Position(k, source, target);
    var i := Truncate(p);
    var t := p - i as real;
    StepsAlong(c, d, i, t);
    if useCubic && i + 2 < |samples| && i > 0 {
      CubicOfLine(samples[i - 1], samples[i], samples[i + 1], samples[i + 2], d, t);
    } else {
      LinearOfLine(samples[i], samples[i + 1], d, t);
    }
  }

  lemma PositionIs(k: nat, source: int, target: int)
    requires source > 0 && target > 0
    ensures Position(k, source, target) == k as real * source as real / target as real
  {
    RatioIsPositive(source, target);
    var p, q, s, t := Position(k, source, target), Ratio(source, target), source as real, target as real;
    QuotientTimes(k as real, q);
    assert p * t == p * (q * s) == p * q * s == k as real * s;
    QuotientOfProduct(p, t);
  }

  lemma QuotientOfProduct(x: real, y: real)
    requires y != 0.0
    ensures x * y / y == x
  {
  }

  lemma StepsAlong(c: real, d: real, i: int, t: real)
    ensures Times(d, (i - 1) as real) == Times(d, i as real) - d
    ensures Times(d, (i + 1) as real) == Times(d, i as real) + d
    ensures Times(d, (i + 2) as real) == Times(d, i as real) + 2.0 * d
    ensures Times(d, i as real + t) == Times(d, i as real) + Times(d, t)
  {
  }

  lemma LinearOfLine(v1: int16, v2: int16, d: real, t: real)
    requires v2 as real == v1 as real + d
    ensures Linear(v1, v2, t) == v1 as real + Times(d, t)
  {
  }

  lemma CubicOfLine(p0: int16, p1: int16, p2: int16, p3: int16, d: real, t: real)
    requires p0 as real == p1 as real - d && p2 as real == p1 as real + d && p3 as real == p1 as real + 2.0 * d
    ensures Cubic(p0, p1, p2, p3, t) == p1 as real + Times(d, t)
  {
    CubicOfPolynomial(p0, p1, p2, p3, p1 as real, d, 0.0, 0.0, t);
    assert Times(d, t) == d * t;
  }

  /** Four samples lie on one polynomial of degree three; the cubic value is the polynomial's, but for a term that
      vanishes at both ends and half way, so parabolas are kept exactly. */
  lemma CubicOfPolynomial(
    p0: int16, p1: int16, p2: int16, p3: int16, a: real, b: real, c: real, d: real, t: real)
    requires p0 as real == a - b + c - d && p1 as real == a
    requires p2 as real == a + b + c + d && p3 as real == a + 2.0 * b + 4.0 * c + 8.0 * d
    ensures Cubic(p0, p1, p2, p3, t) ==
      a + b * t + c * (t * t) + d * (t * t * t) + d * (t * (1.0 - t) * (1.0 - 2.0 * t))
  {
    var t2, t3 := t * t, t * t * t;
    assert t * (1.0 - t) * (1.0 - 2.0 * t) == t - 3.0 * t2 + 2.0 * t3;
    CubicByCoefficients(a, b, c, d, t, t2, t3);
  }

  lemma CubicByCoefficients(a: real, b: real, c: real, d: real, t: real, t2: real, t3: real)
    ensures
      (2.0 * t3 - 3.0 * t2 + 1.0) * a
      + (t3 - 2.0 * t2 + t) * ((a + b + c + d) - (a - b + c - d)) / 2.0
      + (-2.0 * t3 + 3.0 * t2) * (a + b + c + d)
      + (t3 - t2) * ((a + 2.0 * b + 4.0 * c + 8.0 * d) - a) / 2.0 ==
      a + b * t + c * t2 + d * t3 + d * (t - 3.0 * t2 + 2.0 * t3)
  {
  }

  /** A steady level is kept, to the last sample. */
  lemma LevelIsKept(samples: seq<int16>, v: int16, k: nat, source: int, target: int, useCubic: bool)
    requires source > 0 && target > 0 && k < OutputCount(|samples|, source, target)
    requires forall j :: 0 <= j < |samples| ==> samples[j] == v
    ensures SampleAt(samples, k, source, target, useCubic) == v
  {
    hide Ratio, Position, Truncate, Cubic, Linear, OutputCount;
    SourceIndexInRange(|samples|, k, source, target);
    if Truncate(Position(k, source, target)) + 1 < |samples| {
      LineIsKept(samples, v as real, 0.0, k, source, target, useCubic);
      TruncateInteger(v);
    }
  }

  // ---- Sample positions ----

  /** The number of output samples is the largest whole number that the rates allow. */
  lemma CountIs(n: nat, source: int, target: int)
    requires source > 0 && target > 0
    ensures OutputCount(n, source, target) * source <= n * target < (OutputCount(n, source, target) + 1) * source
  {
    CountIsNatural(n, source, target);
    RatioIsPositive(source, target);
    var q, c, s := Ratio(source, target), OutputCount(n, source, target), source as real;
    assert c as real <= n as real * q < (c + 1) as real;
    ProductMonotone(c as real, n as real * q, s);
    ProductGrows(n as real * q, (c + 1) as real, s);
    assert n as real * q * s == n as real * (q * s);
    assert (n * target) as real == n as real * target as real;
    assert (c * source) as real == c as real * s;
    assert ((c + 1) * source) as real == (c + 1) as real * s;
  }

  lemma ProductGrows(a: real, b: real, c: real)
    requires a < b && c > 0.0
    ensures a * c < b * c
  {
  }

  /** At a whole position both interpolations give the sample there; so multiplying the rate keeps every sample. */
  lemma WholeRatioKeepsSamples(samples: seq<int16>, k: nat, m: nat, source: int, useCubic: bool)
    requires source > 0 && m > 0 && k < |samples|
    ensures SampleAt(samples, m * k, source, m * source, useCubic) == samples[k]
  {
    hide Cubic, Mix, Truncate, Ratio;
    WholePosition(k, m, source);
    TruncateInteger(k);
    AtZero(0, samples[k], 0, 0);
    if useCubic && k + 2 < |samples| && k > 0 {
      AtZero(samples[k - 1], samples[k], samples[k + 1], samples[k + 2]);
    }
    if k + 1 < |samples| {
      AtZero(0, samples[k], samples[k + 1], 0);
    }
  }

  lemma AtZero(p0: int16, p1: int16, p2: int16, p3: int16)
    ensures ToInt16(Cubic(p0, p1, p2, p3, 0.0)) == p1 && ToInt16(Linear(p1, p2, 0.0)) == p1
  {
    TruncateInteger(p1);
    assert Linear(p1, p2, 0.0) == p1 as real;
    assert Cubic(p0, p1, p2, p3, 0.0) == p1 as real;
  }

  lemma WholePosition(k: nat, m: nat, source: int)
    requires source > 0 && m > 0
    ensures m * source > 0
    ensures Position(m * k, source, m * source) == k as real
  {
    var s, r := source as real, m as real;
    assert (m * source) as real == r * s;
    assert Ratio(source, m * source) == r by {
      assert r * s / s == r;
    }
    assert (m * k) as real == r * k as real;
    assert r * k as real / r == k as real;
  }

  // ---- Writing in pieces ----

  /** What a count leaves over. */
  function Leftover(n: nat, source: int, target: int): real
    requires source > 0 && target > 0
  {
    n as real * Ratio(source, target) - OutputCount(n, source, target) as real
  }

  /** Each write starts a new count: two writes give as many samples as one exactly when their leftovers stay below
      one sample, and one sample less otherwise. */
  lemma TwoWritesLoseASampleIff(a: nat, b: nat, source: int, target: int)
    requires source > 0 && target > 0
    ensures var separate := OutputCount(a, source, target) + OutputCount(b, source, target);
      OutputCount(a + b, source, target) ==
        if Leftover(a, source, target) + Leftover(b, source, target) < 1.0 then separate else separate + 1
  {
    hide OutputCount, Ratio;
    var r := Ratio(source, target);
    CountIsFloor(a, source, target);
    CountIsFloor(b, source, target);
    CountIsFloor(a + b, source, target);
    assert (a + b) as real * r == a as real * r + b as real * r;
    Floors(a as real * r, b as real * r);
  }

  lemma CountIsFloor(n: nat, source: int, target: int)
    requires source > 0 && target > 0
    ensures OutputCount(n, source, target) == (n as real * Ratio(source, target)).Floor
    ensures n as real * Ratio(source, target) >= 0.0
  {
    hide Ratio;
    RatioIsPositive(source, target);
    ProductNonNegative(n as real, Ratio(source, target));
  }

  lemma Floors(x: real, y: real)
    requires x >= 0.0 && y >= 0.0
    ensures (x + y).Floor ==
      if x - x.Floor as real + (y - y.Floor as real) < 1.0 then x.Floor + y.Floor else x.Floor + y.Floor + 1
  {
  }

  // ---- The converter ----

  class InterpolatingConverter {
    const sourceRate: int
    const targetRate: int
    const useCubic: bool
    const antiAlias: LowPassFIR?
    const antiImage: LowPassFIR?
    var buffer: seq<byte>

    /** One filter, before the interpolation on the way down and after it on the way up. */
    ghost predicate Valid()
      reads this
    {
      && sourceRate > 0 && targetRate > 0
      && (antiAlias != null <==> sourceRate > targetRate) && (antiImage != null <==> targetRate > sourceRate)
      && (antiAlias != null ==> |antiAlias.taps| == antiAlias.history.Length + 1)
      && (antiImage != null ==> |antiImage.taps| == antiImage.history.Length + 1)
    }

    /** `taps` stands for the designed filter. */
    constructor (source: int, target: int, cubic: bool, taps: seq<real>)
      requires source > 0 && target > 0 && |taps| == TAPS
      ensures Valid() && sourceRate == source && targetRate == target && useCubic == cubic && buffer == []
      ensures antiAlias != null ==>
        antiAlias.taps == taps && fresh(antiAlias.history) && antiAlias.history[..] == Zeros(TAPS - 1)
      ensures antiImage != null ==>
        antiImage.taps == taps && fresh(antiImage.history) && antiImage.history[..] == Zeros(TAPS - 1)
    {
      sourceRate, targetRate, useCubic, buffer := source, target, cubic, [];
      if source > target {
        antiAlias := new LowPassFIR(taps);
        antiImage := null;
      } else if target > source {
        antiAlias := null;
        antiImage := new LowPassFIR(taps);
      } else {
        antiAlias, antiImage := null, null;
      }
    }

    ghost function Footprint(): set<object>
      reads this
    {
      (if antiAlias != null then {antiAlias.history} else {}) + (if antiImage != null then {antiImage.history} else {})
    }

    /** The samples the interpolation works on. */
    ghost function Input(samples: seq<byte>): seq<int16>
      requires Valid()
      reads this, Footprint()
    {
      if antiAlias != null then Filtered(antiAlias.taps, antiAlias.history[..], ToSamples(samples))
      else ToSamples(samples)
    }

    ghost function Output(samples: seq<byte>): seq<byte>
      requires Valid()
      reads this, Footprint()
    {
      if sourceRate == targetRate then samples
      else if |samples| % 2 != 0 then []
      else
        var middle := Interpolated(Input(samples), sourceRate, targetRate, useCubic);
        ToBytes(if antiImage != null then Filtered(antiImage.taps, antiImage.history[..], middle) else middle)
    }

    method Interpolate(samples: seq<byte>) returns (output: array<byte>)
      requires Valid() && sourceRate != targetRate && |samples| % 2 == 0
      ensures fresh(output)
      ensures output[..] == ToBytes(Interpolated(ToSamples(samples), sourceRate, targetRate, useCubic))
    {
      hide Ratio, Position, Truncate, Cubic, Linear, ToInt16, SampleOf, SampleFrom, LowByte, HighByte, OutputCount,
        ToBytes;
      var sampleCount := |samples| / 2;
      ghost var source := ToSamples(samples);
      CountIsNatural(sampleCount, sourceRate, targetRate);
      var outputSampleCount := OutputCount(sampleCount, sourceRate, targetRate);
      ghost var target := Interpolated(source, sourceRate, targetRate, useCubic);
      output := new byte[2 * outputSampleCount];
      for k := 0 to outputSampleCount
        invariant forall i :: 0 <= i < 2 * k ==> output[i] == ToBytes(target)[i]
      {
        var sourcePos := Position(k, sourceRate, targetRate);
        var sourceIdx := Truncate(sourcePos);
        SourceIndexInRange(sampleCount, k, sourceRate, targetRate);
        var fractional := sourcePos - sourceIdx as real;
        ReadIsSample(samples);
        var interpolated: int16 := 0;
        if useCubic && sourceIdx + 2 < sampleCount && sourceIdx > 0 {
          interpolated := ToInt16(Cubic(SampleFrom(samples, sourceIdx - 1), SampleFrom(samples, sourceIdx),
            SampleFrom(samples, sourceIdx + 1), SampleFrom(samples, sourceIdx + 2), fractional));
        } else if sourceIdx + 1 < sampleCount {
          interpolated :=
            ToInt16(Linear(SampleFrom(samples, sourceIdx), SampleFrom(samples, sourceIdx + 1), fractional));
        } else if sourceIdx < sampleCount {
          interpolated := SampleFrom(samples, sourceIdx);
        }
        assert interpolated == target[k];
        BytesAt(target, k);
        output[2 * k] := LowByte(interpolated);
        output[2 * k + 1] := HighByte(interpolated);
      }
    }

    method ConvertSamples(samples: seq<byte>) returns (out: seq<byte>)
      requires Valid()
      modifies Footprint()
      ensures Valid() && out == old(Output(samples))
      ensures sourceRate == targetRate ==> out == samples
      ensures sourceRate != targetRate && |samples| % 2 != 0 ==> out == []
      ensures sourceRate > targetRate && |samples| % 2 == 0 ==>
        out == ToBytes(Interpolated(Filtered(antiAlias.taps, old(antiAlias.history[..]), ToSamples(samples)),
                                    sourceRate, targetRate, useCubic))
      ensures targetRate > sourceRate && |samples| % 2 == 0 ==>
        out == ToBytes(Filtered(antiImage.taps, old(antiImage.history[..]),
                                Interpolated(ToSamples(samples), sourceRate, targetRate, useCubic)))
      ensures sourceRate > targetRate && |samples| % 2 == 0 ==>
        antiAlias.history[..] == NextHistory(old(antiAlias.history[..]), ToSamples(samples))
      ensures targetRate > sourceRate && |samples| % 2 == 0 ==>
        antiImage.history[..] == NextHistory(old(antiImage.history[..]),
          Interpolated(ToSamples(samples), sourceRate, targetRate, useCubic))
    {
      hide Filtered, NextHistory, Interpolated, ToBytes, ToSamples;
      if sourceRate == targetRate {
        return samples;
      }
      if |samples| % 2 != 0 {
        return [];
      }
      var input := samples;
      if antiAlias != null {
        var decoded := Pcm16BytesToSamples(samples);
        var filtered := antiAlias.Filter(decoded);
        var encoded := SamplesToPcm16Bytes(filtered[..]);
        input := encoded[..];
        SamplesRoundTrip(filtered[..]);
        EvenBytes(filtered[..]);
      }
      var output := Interpolate(input);
      if antiImage != null {
        ghost var middle := Interpolated(ToSamples(input), sourceRate, targetRate, useCubic);
        SamplesRoundTrip(middle);
        var decoded := Pcm16BytesToSamples(output[..]);
        var filtered := antiImage.Filter(decoded);
        output := SamplesToPcm16Bytes(filtered[..]);
      }
      out := output[..];
    }

    method Write(p: seq<byte>) returns (n: nat)
      requires Valid()
      modifies this`buffer, Footprint()
      ensures Valid() && n == |p| && buffer == old(buffer) + old(Output(p))
    {
      var converted := ConvertSamples(p);
      buffer := buffer + converted;
      n := |p|;
    }

    method Samples() returns (result: seq<byte>)
      modifies this`buffer
      ensures result == old(buffer) && buffer == []
    {
      result := buffer;
      buffer := [];
    }
  }

  lemma BytesAt(s: seq<int16>, k: nat)
    requires k < |s|
    ensures ToBytes(s)[2 * k] == LowByte(s[k]) && ToBytes(s)[2 * k + 1] == HighByte(s[k])
  {
    hide LowByte, HighByte;
    assert 2 * k / 2 == k && (2 * k + 1) / 2 == k;
  }

  lemma ReadIsSample(b: seq<byte>)
    ensures forall i :: 0 <= i < |b| / 2 ==> SampleFrom(b, i) == ToSamples(b)[i]
  {
    hide SampleOf;
  }

  lemma EvenBytes(s: seq<int16>)
    ensures |ToBytes(s)| % 2 == 0
  {
  }

  /** Sample `i` of a byte sequence, or zero past its end. */
  function SampleFrom(b: seq<byte>, i: nat): int16 {
    if 2 * i + 1 < |b| then SampleOf(b[2 * i], b[2 * i + 1]) else 0
  }
}
