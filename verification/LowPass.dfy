/** The streaming low-pass filter: a sum over a window of samples, with the window's tail carried from chunk to
    chunk. */
module LowPass {
  import opened Pcm16

  const TAPS := 31

  /** The first `k` products of the window that starts at `i`. */
  function Products(taps: seq<real>, extended: seq<int16>, i: nat, k: nat): real
    requires k <= |taps| && i + k <= |extended|
  {
    if k == 0 then 0.0 else Products(taps, extended, i, k - 1) + taps[k - 1] * extended[i + k - 1] as real
  }

  function FilteredAt(taps: seq<real>, extended: seq<int16>, i: nat): int16
    requires i + |taps| <= |extended|
  {
    Clip(Products(taps, extended, i, |taps|))
  }

  function Filtered(taps: seq<real>, history: seq<int16>, input: seq<int16>): (out: seq<int16>)
    requires |taps| == |history| + 1
    ensures |out| == |input|
  {
    seq(|input|, i requires 0 <= i < |input| => FilteredAt(taps, history + input, i))
  }

  /** The history keeps its length and holds the latest samples. */
  function NextHistory(history: seq<int16>, input: seq<int16>): (next: seq<int16>)
    ensures |next| == |history|
  {
    (history + input)[|input|..]
  }

  class LowPassFIR {
    const taps: seq<real>
    const history: array<int16>

    ghost predicate Valid()
      reads this
    {
      |taps| == history.Length + 1
    }

    constructor (coefficients: seq<real>)
      requires |coefficients| == TAPS
      ensures Valid() && taps == coefficients && fresh(history) && history[..] == Zeros(TAPS - 1)
    {
      taps := coefficients;
      history := new int16[TAPS - 1](i => 0);
    }

    method Filter(input: array<int16>) returns (out: array<int16>)
      requires Valid() && input != history
      modifies history
      ensures out == input || fresh(out)
      ensures out[..] == Filtered(taps, old(history[..]), input[..])
      ensures history[..] == NextHistory(old(history[..]), input[..])
    {
      if input.Length == 0 {
        return input;
      }
      var histN := history.Length;
      ghost var all := history[..] + input[..];
      var extended := new int16[histN + input.Length];
      forall i | 0 <= i < histN {
        extended[i] := history[i];
      }
      forall i | 0 <= i < input.Length {
        extended[histN + i] := input[i];
      }
      assert extended[..] == all;
      out := new int16[input.Length];
      for i := 0 to input.Length
        invariant extended[..] == all && history[..] == old(history[..]) && input[..] == old(input[..])
        invariant forall k :: 0 <= k < i ==> out[k] == FilteredAt(taps, all, k)
      {
        var acc := 0.0;
        for k := 0 to |taps|
          invariant acc == Products(taps, all, i, k)
        {
          assert extended[i + k] == all[i + k];
          acc := acc + taps[k] * extended[i + k] as real;
        }
        if acc > 32767.0 {
          acc := 32767.0;
        } else if acc < -32768.0 {
          acc := -32768.0;
        }
        out[i] := Truncate(acc);
      }
      ghost var filtered := out[..];
      assert filtered == Filtered(taps, old(history[..]), input[..]);
      forall i | 0 <= i < histN {
        history[i] := extended[extended.Length - histN + i];
      }
      assert input[..] == old(input[..]) && out[..] == filtered;
    }
  }

  function Zeros(n: nat): (z: seq<int16>)
    ensures |z| == n
  {
    seq(n, i => 0)
  }

  // ---- Chunks ----

  lemma {:induction false} ProductsOfWindow(taps: seq<real>, x: seq<int16>, i: nat, y: seq<int16>, j: nat, k: nat)
    requires k <= |taps| && i + k <= |x| && j + k <= |y|
    requires x[i..i + k] == y[j..j + k]
    ensures Products(taps, x, i, k) == Products(taps, y, j, k)
  {
    if k > 0 {
      assert x[i..i + k - 1] == x[i..i + k][..k - 1] && y[j..j + k - 1] == y[j..j + k][..k - 1];
      ProductsOfWindow(taps, x, i, y, j, k - 1);
      assert x[i..i + k][k - 1] == y[j..j + k][k - 1];
    }
  }

  /** The sum at a position depends only on the window there. */
  lemma SameWindow(taps: seq<real>, x: seq<int16>, i: nat, y: seq<int16>, j: nat)
    requires i + |taps| <= |x| && j + |taps| <= |y| && x[i..i + |taps|] == y[j..j + |taps|]
    ensures FilteredAt(taps, x, i) == FilteredAt(taps, y, j)
  {
    ProductsOfWindow(taps, x, i, y, j, |taps|);
  }

  lemma TwoChunks(taps: seq<real>, history: seq<int16>, a: seq<int16>, b: seq<int16>)
    requires |taps| == |history| + 1
    ensures Filtered(taps, history, a + b) == Filtered(taps, history, a) + Filtered(taps, NextHistory(history, a), b)
    ensures NextHistory(history, a + b) == NextHistory(NextHistory(history, a), b)
  {
    hide FilteredAt;
    var whole := history + (a + b);
    var next := NextHistory(history, a);
    assert whole[|a|..] == next + b;
    forall i | 0 <= i < |a| ensures FilteredAt(taps, whole, i) == FilteredAt(taps, history + a, i) {
      assert whole[i..i + |taps|] == (history + a)[i..i + |taps|];
      SameWindow(taps, whole, i, history + a, i);
    }
    forall i | 0 <= i < |b| ensures FilteredAt(taps, whole, |a| + i) == FilteredAt(taps, next + b, i) {
      assert whole[|a|..][i..i + |taps|] == whole[|a| + i..|a| + i + |taps|];
      SameWindow(taps, whole, |a| + i, next + b, i);
    }
  }

  function Joined(chunks: seq<seq<int16>>): seq<int16> {
    if chunks == [] then [] else chunks[0] + Joined(chunks[1..])
  }

  /** The outputs of one call per chunk, joined. */
  function Streamed(taps: seq<real>, history: seq<int16>, chunks: seq<seq<int16>>): seq<int16>
    requires |taps| == |history| + 1
    decreases chunks
  {
    if chunks == [] then []
    else Filtered(taps, history, chunks[0]) + Streamed(taps, NextHistory(history, chunks[0]), chunks[1..])
  }

  function HistoryAfter(history: seq<int16>, chunks: seq<seq<int16>>): seq<int16>
    decreases chunks
  {
    if chunks == [] then history else HistoryAfter(NextHistory(history, chunks[0]), chunks[1..])
  }

  /** However the input is cut, into chunks of any lengths, the output is that of one call, and the filter is left
      holding the last samples of zeros followed by the input. */
  lemma {:induction false} ChunksDoNotMatter(taps: seq<real>, history: seq<int16>, chunks: seq<seq<int16>>)
    requires |taps| == |history| + 1
    ensures Streamed(taps, history, chunks) == Filtered(taps, history, Joined(chunks))
    ensures HistoryAfter(history, chunks) == (history + Joined(chunks))[|Joined(chunks)|..]
    decreases chunks
  {
    if chunks == [] {
      assert history + [] == history;
    } else {
      TwoChunks(taps, history, chunks[0], Joined(chunks[1..]));
      ChunksDoNotMatter(taps, NextHistory(history, chunks[0]), chunks[1..]);
    }
  }

  // ---- Impulses: what fixes a filter ----

  /** Silence but for one sample. */
  function Impulse(n: nat, p: nat, v: int16): (s: seq<int16>)
    ensures |s| == n
  {
    seq(n, i => if i == p then v else 0)
  }

  lemma {:induction false} ImpulseProducts(taps: seq<real>, x: seq<int16>, i: nat, k: nat, at: nat)
    requires k <= |taps| && i + k <= |x| && forall m :: 0 <= m < |x| && m != at ==> x[m] == 0
    ensures Products(taps, x, i, k) == if i <= at < i + k then taps[at - i] * x[at] as real else 0.0
  {
    if k > 0 {
      ImpulseProducts(taps, x, i, k - 1, at);
    }
  }

  /** An impulse comes out as the taps in reverse, each times its height, starting where it went in; everything else
      stays silent. */
  lemma ImpulseResponse(taps: seq<real>, n: nat, p: nat, v: int16, i: nat)
    requires taps != [] && p < n && i < n
    ensures Filtered(taps, Zeros(|taps| - 1), Impulse(n, p, v))[i] ==
      if p <= i < p + |taps| then Clip(taps[|taps| - 1 - (i - p)] * v as real) else 0
  {
    hide Products, Clip;
    var at := |taps| - 1 + p;
    var x := Zeros(|taps| - 1) + Impulse(n, p, v);
    assert p <= i < p + |taps| ==> at - i == |taps| - 1 - (i - p);
    assert forall m :: 0 <= m < |x| && m != at ==> x[m] == 0;
    assert x[at] == v;
    ImpulseProducts(taps, x, i, |taps|, at);
    assert Filtered(taps, Zeros(|taps| - 1), Impulse(n, p, v))[i] == FilteredAt(taps, x, i);
    assert FilteredAt(taps, x, i) == Clip(Products(taps, x, i, |taps|));
    if p <= i < p + |taps| {
      assert Products(taps, x, i, |taps|) == taps[|taps| - 1 - (i - p)] * v as real;
      assert FilteredAt(taps, x, i) == Clip(taps[|taps| - 1 - (i - p)] * v as real);
    } else {
      ClipIs(0.0);
    }
  }

  /** The sums over two signals add up to the sum over the signals' sum, and scale with them: so every output is the
      sum, before it is clipped, of what the samples in its window contribute as impulses. */
  lemma {:induction false} SumsAddUp(
    taps: seq<real>, x: seq<int16>, y: seq<int16>, z: seq<int16>, a: real, b: real, i: nat, k: nat)
    requires k <= |taps| && i + k <= |x| == |y| == |z|
    requires forall m :: 0 <= m < |x| ==> z[m] as real == Times(a, x[m] as real) + Times(b, y[m] as real)
    ensures Products(taps, z, i, k) == Times(a, Products(taps, x, i, k)) + Times(b, Products(taps, y, i, k))
  {
    hide Times;
    if k == 0 {
      TimesZero(a);
      TimesZero(b);
    } else {
      SumsAddUp(taps, x, y, z, a, b, i, k - 1);
      var w, m := taps[k - 1], i + k - 1;
      var xm, ym, zm := x[m] as real, y[m] as real, z[m] as real;
      var p, q := Products(taps, x, i, k - 1), Products(taps, y, i, k - 1);
      OneProduct(w, xm, ym, zm, a, b, p, q);
      assert Products(taps, x, i, k) == p + w * xm && Products(taps, y, i, k) == q + w * ym;
      assert Times(a, Products(taps, x, i, k)) == Times(a, p + w * xm);
      assert Times(b, Products(taps, y, i, k)) == Times(b, q + w * ym);
      assert Products(taps, z, i, k) == Products(taps, z, i, k - 1) + w * zm;
    }
  }

  lemma OneProduct(w: real, x: real, y: real, z: real, a: real, b: real, p: real, q: real)
    requires z == Times(a, x) + Times(b, y)
    ensures Times(a, p) + Times(b, q) + w * z == Times(a, p + w * x) + Times(b, q + w * y)
  {
    assert a * (p + w * x) == a * p + a * w * x && b * (q + w * y) == b * q + b * w * y;
    assert w * z == a * w * x + b * w * y;
  }

  lemma TimesZero(a: real)
    ensures Times(a, 0.0) == 0.0
  {
  }

  // ---- Gain ----

  function SumOf(taps: seq<real>, k: nat): real
    requires k <= |taps|
  {
    if k == 0 then 0.0 else SumOf(taps, k - 1) + taps[k - 1]
  }

  lemma {:induction false} ConstantProducts(taps: seq<real>, x: seq<int16>, i: nat, k: nat, v: int16)
    requires k <= |taps| && i + k <= |x| && forall m :: i <= m < i + k ==> x[m] == v
    ensures Products(taps, x, i, k) == SumOf(taps, k) * v as real
  {
    if k > 0 {
      ConstantProducts(taps, x, i, k - 1, v);
    }
  }

  /** Taps scaled to add up to one pass a steady level through unchanged, once the window is full of it. */
  lemma SteadyLevelPasses(taps: seq<real>, history: seq<int16>, input: seq<int16>, i: nat, v: int16)
    requires |taps| == |history| + 1 && SumOf(taps, |taps|) == 1.0
    requires |history| <= i < |input| && forall m :: 0 <= m <= i ==> input[m] == v
    ensures Filtered(taps, history, input)[i] == v
  {
    var x := history + input;
    assert forall m :: i <= m < i + |taps| ==> x[m] == input[m - |history|];
    ConstantProducts(taps, x, i, |taps|, v);
    TruncateInteger(v);
  }
}
