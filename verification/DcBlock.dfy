/** The DC blocker: a one-pole recursive filter run in place, with two numbers of state. */
module DcBlock {
  import opened Pcm16

  /** The previous input and the previous output, before saturation. */
  datatype State = State(x: real, y: real)

  const RESET := State(0.0, 0.0)

  function Next(r: real, s: State, x: int16): State {
    State(x as real, x as real - s.x + r * s.y)
  }

  function After(r: real, s: State, input: seq<int16>): State {
    if input == [] then s else Next(r, After(r, s, input[..|input| - 1]), input[|input| - 1])
  }

  lemma AfterNone(r: real, s: State)
    ensures After(r, s, []) == s
  {
  }

  lemma AfterNext(r: real, s: State, input: seq<int16>, i: nat)
    requires i < |input|
    ensures After(r, s, input[..i + 1]) == Next(r, After(r, s, input[..i]), input[i])
  {
    assert input[..i + 1][..i] == input[..i];
  }

  function Blocked(r: real, s: State, input: seq<int16>): (out: seq<int16>)
    ensures |out| == |input|
  {
    seq(|input|, i requires 0 <= i < |input| => Clip(After(r, s, input[..i + 1]).y))
  }

  class DCBlockHPF {
    const r: real
    var xPrev: real
    var yPrev: real

    function Memory(): State
      reads this
    {
      State(xPrev, yPrev)
    }

    /** `turn` stands for two pi times the corner frequency. */
    constructor (sampleRate: int, turn: real)
      requires turn >= 0.0
      ensures 0.0 <= r <= 0.999 && Memory() == RESET
      ensures var pole := 1.0 - turn / (if sampleRate > 0 then sampleRate else 8000) as real;
        (0.0 <= pole <= 0.999 ==> r == pole) && (pole > 0.999 ==> r == 0.999) && (pole < 0.0 ==> r == 0.0)
    {
      var rate := if sampleRate <= 0 then 8000 else sampleRate;
      var pole := 1.0 - turn / rate as real;
      if pole < 0.0 {
        pole := 0.0;
      }
      if pole > 0.999 {
        pole := 0.999;
      }
      r, xPrev, yPrev := pole, 0.0, 0.0;
    }

    method Process(samples: array<int16>)
      modifies this, samples
      ensures samples[..] == Blocked(r, old(Memory()), old(samples[..]))
      ensures Memory() == After(r, old(Memory()), old(samples[..]))
    {
      hide After, Truncate;
      ghost var input, s := samples[..], Memory();
      assert After(r, s, input[..0]) == s by { AfterNone(r, s); }
      for i := 0 to samples.Length
        invariant Memory() == After(r, s, input[..i])
        invariant forall k :: 0 <= k < i ==> samples[k] == Clip(After(r, s, input[..k + 1]).y)
        invariant forall k :: i <= k < samples.Length ==> samples[k] == input[k]
      {
        AfterNext(r, s, input, i);
        var x := samples[i] as real;
        var y := x - xPrev + r * yPrev;
        xPrev := x;
        yPrev := y;
        if y > 32767.0 {
          y := 32767.0;
        } else if y < -32768.0 {
          y := -32768.0;
        }
        TruncateBetween(-32768, y, 32767);
        samples[i] := Truncate(y);
      }
      assert input[..samples.Length] == input;
    }

    method Reset()
      modifies this
      ensures Memory() == RESET
    {
      xPrev := 0.0;
      yPrev := 0.0;
    }
  }

  // ---- Chunks ----

  lemma {:induction false} AfterBoth(r: real, s: State, a: seq<int16>, b: seq<int16>)
    ensures After(r, s, a + b) == After(r, After(r, s, a), b)
  {
    if b == [] {
      assert a + b == a;
    } else {
      var n := |b| - 1;
      assert (a + b)[..|a + b| - 1] == a + b[..n];
      AfterBoth(r, s, a, b[..n]);
    }
  }

  /** Cutting the input anywhere changes neither the output nor the state. */
  lemma TwoChunks(r: real, s: State, a: seq<int16>, b: seq<int16>)
    ensures Blocked(r, s, a + b) == Blocked(r, s, a) + Blocked(r, After(r, s, a), b)
    ensures After(r, s, a + b) == After(r, After(r, s, a), b)
  {
    hide After, Clip;
    AfterBoth(r, s, a, b);
    forall i | 0 <= i < |a + b|
      ensures Blocked(r, s, a + b)[i] == (Blocked(r, s, a) + Blocked(r, After(r, s, a), b))[i]
    {
      if i < |a| {
        assert (a + b)[..i + 1] == a[..i + 1];
      } else {
        assert (a + b)[..i + 1] == a + b[..i - |a| + 1];
        AfterBoth(r, s, a, b[..i - |a| + 1]);
      }
    }
  }

  // ---- The filter is linear, before saturation, and does not care when a signal starts ----

  /** The outputs for two inputs add up to the output for their sum; with `SilenceChangesNothing` and
      `SteadyLevelDecays` this fixes the filter, since every input is a sum of steady levels that start at different
      times. */
  lemma {:induction false} OutputsAddUp(r: real, a: seq<int16>, b: seq<int16>, c: seq<int16>)
    requires |a| == |b| == |c| && forall i :: 0 <= i < |c| ==> c[i] as int == a[i] as int + b[i] as int
    ensures After(r, RESET, c) ==
      State(After(r, RESET, a).x + After(r, RESET, b).x, After(r, RESET, a).y + After(r, RESET, b).y)
  {
    hide Next;
    if c != [] {
      var n := |c| - 1;
      OutputsAddUp(r, a[..n], b[..n], c[..n]);
      NextAddsUp(r, After(r, RESET, a[..n]), After(r, RESET, b[..n]), a[n], b[n], c[n]);
    }
  }

  lemma NextAddsUp(r: real, s: State, t: State, x: int16, y: int16, z: int16)
    requires z as int == x as int + y as int
    ensures Next(r, State(s.x + t.x, s.y + t.y), z) ==
      State(Next(r, s, x).x + Next(r, t, y).x, Next(r, s, x).y + Next(r, t, y).y)
  {
    assert r * (s.y + t.y) == r * s.y + r * t.y;
  }

  lemma {:induction false} SilenceChangesNothing(r: real, n: nat, input: seq<int16>)
    ensures After(r, RESET, Steady(0, n) + input) == After(r, RESET, input)
  {
    SilenceStaysSilent(r, n);
    AfterBoth(r, RESET, Steady(0, n), input);
  }

  lemma {:induction false} SilenceStaysSilent(r: real, n: nat)
    ensures After(r, RESET, Steady(0, n)) == RESET
  {
    if n > 0 {
      assert Steady(0, n)[..n - 1] == Steady(0, n - 1);
      SilenceStaysSilent(r, n - 1);
    }
  }

  // ---- Bounds, before saturation ----

  ghost predicate Near(s: State, bound: real) {
    -bound <= s.x <= bound && -bound <= s.y - s.x <= bound
  }

  /** The next output differs from its input by a mixture of the last difference and the last input. */
  lemma NextDifference(r: real, s: State, x: int16)
    ensures Next(r, s, x).x == x as real
    ensures Next(r, s, x).y - Next(r, s, x).x == Times(r, s.y - s.x) - Times(1.0 - r, s.x)
  {
    assert r * (s.y - s.x) == r * s.y - r * s.x;
    assert (1.0 - r) * s.x == s.x - r * s.x;
  }

  lemma PartsOfBound(r: real, bound: real)
    ensures Times(r, bound) + Times(1.0 - r, bound) == bound
  {
  }

  lemma NextStaysNear(r: real, s: State, x: int16, bound: real)
    requires 0.0 <= r <= 1.0 && Near(s, bound) && -bound <= x as real <= bound
    ensures Near(Next(r, s, x), bound)
  {
    hide Times, Next;
    NextDifference(r, s, x);
    PartsOfBound(r, bound);
    TimesWithin(r, s.y - s.x, bound);
    TimesWithin(1.0 - r, s.x, bound);
  }

  /** Samples within `bound` of zero move by at most `bound`, for ever; so the output stays within twice that. */
  lemma {:induction false} OutputStaysNearInput(r: real, s: State, input: seq<int16>, bound: real)
    requires 0.0 <= r <= 1.0 && Near(s, bound)
    requires forall i :: 0 <= i < |input| ==> -bound <= input[i] as real <= bound
    ensures Near(After(r, s, input), bound)
    ensures -2.0 * bound <= After(r, s, input).y <= 2.0 * bound
  {
    if input != [] {
      OutputStaysNearInput(r, s, input[..|input| - 1], bound);
      NextStaysNear(r, After(r, s, input[..|input| - 1]), input[|input| - 1], bound);
    }
  }

  function Power(r: real, n: nat): real {
    if n == 0 then 1.0 else r * Power(r, n - 1)
  }

  function Steady(v: int16, n: nat): (s: seq<int16>)
    ensures |s| == n
  {
    seq(n, i => v)
  }

  /** A steady level dies away geometrically: that is the DC being blocked. */
  lemma {:induction false} SteadyLevelDecays(r: real, v: int16, n: nat)
    ensures After(r, RESET, Steady(v, n + 1)) == State(v as real, Power(r, n) * v as real)
  {
    var input := Steady(v, n + 1);
    assert input[..n] == Steady(v, n);
    if n > 0 {
      SteadyLevelDecays(r, v, n - 1);
      assert r * (Power(r, n - 1) * v as real) == Power(r, n) * v as real;
    } else {
      assert After(r, RESET, []) == RESET;
    }
  }

  /** The filter can amplify, up to the factor of two: a long level of -v and then v comes out as 2v less what
      remains of v. */
  lemma FlipAfterSteadyLevel(r: real, v: int16, n: nat)
    requires v > -32768
    ensures After(r, RESET, Steady(-v, n + 1) + [v]).y == 2.0 * v as real - Power(r, n + 1) * v as real
  {
    var input := Steady(-v, n + 1) + [v];
    assert input[..n + 1] == Steady(-v, n + 1);
    SteadyLevelDecays(r, -v, n);
    assert r * (Power(r, n) * -(v as real)) == -(Power(r, n + 1) * v as real);
  }

  // ---- Loudness of the samples that come out ----

  predicate NoLouder(samples: seq<int16>, bound: nat) {
    forall i :: 0 <= i < |samples| ==> 0 - bound <= samples[i] <= bound
  }

  /** Samples no louder than `bound` come out no louder than `bound`. */
  predicate NotAmplified(r: real, input: seq<int16>, bound: nat) {
    NoLouder(input, bound) ==> NoLouder(Blocked(r, RESET, input), bound)
  }

  /** Every sample that comes out is at most twice as loud as the loudest that went in. */
  lemma AtMostTwiceAsLoud(r: real, input: seq<int16>, bound: nat)
    requires 0.0 <= r <= 1.0 && NoLouder(input, bound)
    ensures NoLouder(Blocked(r, RESET, input), 2 * bound)
  {
    hide Clip, After;
    forall i | 0 <= i < |input|
      ensures 0 - 2 * bound <= Blocked(r, RESET, input)[i] <= 2 * bound
    {
      SampleAtMostTwiceAsLoud(r, input[..i + 1], bound);
    }
  }

  lemma SampleAtMostTwiceAsLoud(r: real, input: seq<int16>, bound: nat)
    requires 0.0 <= r <= 1.0 && NoLouder(input, bound)
    ensures 0 - 2 * bound <= Clip(After(r, RESET, input).y) <= 2 * bound
  {
    hide Clip, After;
    var b := bound as real;
    assert forall i :: 0 <= i < |input| ==> -b <= input[i] as real <= b;
    OutputStaysNearInput(r, RESET, input, b);
    ClipBetween(2 * bound, After(r, RESET, input).y);
  }

  lemma ClipBetween(bound: nat, y: real)
    requires -(bound as real) <= y <= bound as real
    ensures 0 - bound <= Clip(y) <= bound
  {
    var s := Saturate(y);
    if bound >= 32768 {
      TruncateBetween(-32768, s, 32767);
    } else {
      TruncateBetween(0 - bound, s, bound);
    }
  }

  lemma ClipAtLeast(n: int16, y: real)
    requires n as real <= y
    ensures Clip(y) >= n
  {
    TruncateBetween(n, Saturate(y), 32767);
  }

  /** The input -1000, 1000 comes out louder at every sample rate, whatever pole the constructor chose. */
  lemma EveryFilterAmplifies(r: real)
    requires 0.0 <= r <= 0.999
    ensures !NotAmplified(r, [-1000, 1000], 1000)
  {
    hide Clip;
    var input: seq<int16> := Steady(-1000, 1) + [1000];
    assert input == [-1000, 1000];
    FlipAfterSteadyLevel(r, 1000, 0);
    assert Power(r, 1) == r * Power(r, 0) == r;
    assert input[..2] == input;
    ClipAtLeast(1001, After(r, RESET, input).y);
    assert Blocked(r, RESET, input)[1] >= 1001;
  }

  lemma {:induction false} PowerIsBounded(r: real, n: nat)
    requires 0.0 <= r <= 1.0
    ensures 0.0 <= Power(r, n)
    ensures Power(r, n) * (1.0 + n as real * (1.0 - r)) <= 1.0
  {
    if n > 0 {
      PowerIsBounded(r, n - 1);
      PowerStep(r, Power(r, n - 1), (n - 1) as real);
      ProductNonNegative(r, Power(r, n - 1));
    }
  }

  lemma PowerStep(r: real, p: real, m: real)
    requires 0.0 <= r <= 1.0 && 0.0 <= p && 0.0 <= m && p * (1.0 + m * (1.0 - r)) <= 1.0
    ensures r * p * (1.0 + (m + 1.0) * (1.0 - r)) <= 1.0
  {
    var d := 1.0 - r;
    var x := 1.0 + m * d;
    SquareTimes(d, m + 1.0);
    assert r * (x + d) == x - (m + 1.0) * (d * d);
    ProductNonNegative(p, (m + 1.0) * (d * d));
    assert r * p * (x + d) == p * x - p * ((m + 1.0) * (d * d));
    assert (m + 1.0) * d == m * d + d;
  }

  lemma SquareTimes(d: real, m: real)
    requires d >= 0.0 && m >= 0.0
    ensures m * (d * d) >= 0.0
  {
    ProductNonNegative(d, d);
    ProductNonNegative(m, d * d);
  }

  /** Below one, some power is at most a half. */
  lemma SomePowerIsSmall(r: real) returns (n: nat)
    requires 0.0 <= r < 1.0
    ensures n > 0 && Power(r, n) <= 0.5
  {
    var d := 1.0 - r;
    n := (1.0 / d).Floor + 1;
    PowerIsBounded(r, n);
    var p := Power(r, n);
    ReachesOne(d, n);
    ProductMonotone(2.0, 1.0 + n as real * d, p);
  }

  lemma ReachesOne(d: real, n: nat)
    requires d > 0.0 && n == (1.0 / d).Floor + 1
    ensures n as real * d >= 1.0
  {
    assert n as real >= 1.0 / d;
    ProductMonotone(1.0 / d, n as real, d);
    assert 1.0 / d * d == 1.0;
  }

  /** A filter never makes samples louder exactly when its pole is at one, and then it changes nothing. */
  lemma NeverAmplifiesIff(r: real)
    requires 0.0 <= r <= 1.0
    ensures (forall input, bound :: NotAmplified(r, input, bound)) <==> r == 1.0
  {
    if r == 1.0 {
      forall input, bound ensures NotAmplified(r, input, bound) {
        PoleAtOneChangesNothing(input);
      }
    } else {
      LongLevelIsAmplified(r);
    }
  }

  lemma LongLevelIsAmplified(r: real)
    requires 0.0 <= r < 1.0
    ensures exists input, bound :: !NotAmplified(r, input, bound)
  {
    hide Clip;
    var n := SomePowerIsSmall(r);
    var input := Steady(-2, n) + [2];
    FlipAfterSteadyLevel(r, 2, n - 1);
    assert input[..n + 1] == input;
    ClipAtLeast(3, After(r, RESET, input).y);
    assert Blocked(r, RESET, input)[n] >= 3;
    assert !NotAmplified(r, input, 2);
  }

  lemma PoleAtOneChangesNothing(input: seq<int16>)
    ensures Blocked(1.0, RESET, input) == input
  {
    hide After;
    forall i | 0 <= i < |input| ensures Blocked(1.0, RESET, input)[i] == input[i] {
      PoleAtOneIsIdentity(input[..i + 1]);
      assert input[..i + 1][i] == input[i];
      TruncateInteger(input[i]);
    }
  }

  lemma {:induction false} PoleAtOneIsIdentity(input: seq<int16>)
    ensures After(1.0, RESET, input).y == After(1.0, RESET, input).x
    ensures input != [] ==> After(1.0, RESET, input).x == input[|input| - 1] as real
  {
    if input != [] {
      PoleAtOneIsIdentity(input[..|input| - 1]);
    }
  }
}
