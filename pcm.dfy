/**
 * Mono signed 16-bit linear PCM and the linear-interpolation resampler
 * `resampleAudio` (src/index.ts).
 *
 * A buffer is modelled by the samples it holds (two little-endian bytes
 * each in the source). The source computes `ratio = fromRate / toRate` and
 * the source position `i * ratio` in floating point; here both are exact
 * rationals: the source position of output sample `i` is the quotient
 * `i * fromRate / toRate` plus the fraction `(i * fromRate % toRate) / toRate`.
 */
module Pcm {

  const MinSample: int := -32768
  const MaxSample: int := 32767

  /** Rate of the voice channel, both for decoded speech and for playback. */
  const VoiceRate: nat := 48000

  /** One sample, as `readInt16LE` returns it and `writeInt16LE` accepts it. */
  type Sample = x: int | MinSample <= x <= MaxSample

  function Min(a: int, b: int): int { if a <= b then a else b }
  function Max(a: int, b: int): int { if a <= b then b else a }
  function Dist(a: int, b: int): nat { if a <= b then b - a else a - b }

  /** `Math.max(-32768, Math.min(32767, x))`: the sample nearest to `x`. */
  function Clamp(x: int): (r: Sample)
    ensures forall s: Sample :: Dist(r, x) <= Dist(s, x)
    ensures MinSample <= x <= MaxSample ==> r == x
  {
    Max(MinSample, Min(MaxSample, x))
  }

  /**
   * `Math.round(num / den)`: the integer nearest to the rational `num / den`,
   * a tie (a fraction of exactly one half) going up, towards +infinity.
   */
  function RoundHalfUp(num: int, den: int): (r: int)
    requires den > 0
    ensures 2 * den * r - den <= 2 * num < 2 * den * r + den
  {
    (2 * num + den) / (2 * den)
  }

  /** `Math.floor(inputSamples / ratio)`: the number of output samples. */
  function OutputCount(n: nat, fromRate: nat, toRate: nat): nat
    requires fromRate > 0
  {
    n * toRate / fromRate
  }

  /** `Math.floor(i * ratio)`: the source sample left of output sample `i`. */
  function SourceFloor(i: nat, fromRate: nat, toRate: nat): nat
    requires toRate > 0
  {
    i * fromRate / toRate
  }

  /** `i * ratio - srcIndexFloor`, times `toRate`: the fraction's numerator. */
  function FractionNumerator(i: nat, fromRate: nat, toRate: nat): nat
    requires toRate > 0
  {
    i * fromRate % toRate
  }

  /** `Math.min(srcIndexFloor + 1, inputSamples - 1)`. */
  function SourceCeil(n: nat, i: nat, fromRate: nat, toRate: nat): int
    requires toRate > 0
  {
    Min(SourceFloor(i, fromRate, toRate) + 1, n - 1)
  }

  /** `sample1`: the input sample at `srcIndexFloor`. */
  function LeftNeighbour(input: seq<Sample>, fromRate: nat, toRate: nat, i: nat): Sample
    requires fromRate > 0 && toRate > 0
    requires i < OutputCount(|input|, fromRate, toRate)
  {
    SourceInBounds(|input|, fromRate, toRate, i);
    input[SourceFloor(i, fromRate, toRate)]
  }

  /** `sample2`: the input sample at `srcIndexCeil`. */
  function RightNeighbour(input: seq<Sample>, fromRate: nat, toRate: nat, i: nat): Sample
    requires fromRate > 0 && toRate > 0
    requires i < OutputCount(|input|, fromRate, toRate)
  {
    SourceInBounds(|input|, fromRate, toRate, i);
    input[SourceCeil(|input|, i, fromRate, toRate)]
  }

  /** `interpolated`: `Math.round(sample1 + (sample2 - sample1) * fraction)`, before the clamp. */
  function Interpolated(input: seq<Sample>, fromRate: nat, toRate: nat, i: nat): int
    requires fromRate > 0 && toRate > 0
    requires i < OutputCount(|input|, fromRate, toRate)
  {
    var s1 := LeftNeighbour(input, fromRate, toRate, i);
    var s2 := RightNeighbour(input, fromRate, toRate, i);
    RoundHalfUp(s1 * toRate + (s2 - s1) * FractionNumerator(i, fromRate, toRate), toRate)
  }

  /** The buffer `resampleAudio(input, fromRate, toRate)` returns, as samples. */
  function Resample(input: seq<Sample>, fromRate: nat, toRate: nat): seq<Sample>
    requires fromRate > 0 && toRate > 0
  {
    seq(OutputCount(|input|, fromRate, toRate),
        i requires 0 <= i < OutputCount(|input|, fromRate, toRate) =>
          Clamp(Interpolated(input, fromRate, toRate, i)))
  }

  /**
   * `resampleAudio`: allocates the output buffer and fills it sample by
   * sample, reading only inside the input.
   */
  method ResampleAudio(input: seq<Sample>, fromRate: nat, toRate: nat) returns (output: array<Sample>)
    requires fromRate > 0 && toRate > 0
    ensures fresh(output)
    ensures output[..] == Resample(input, fromRate, toRate)
  {
    var inputSamples := |input|;
    var outputSamples := inputSamples * toRate / fromRate;
    output := new Sample[outputSamples];
    for i := 0 to outputSamples
      invariant forall k :: 0 <= k < i ==> output[k] == Resample(input, fromRate, toRate)[k]
    {
      SourceInBounds(inputSamples, fromRate, toRate, i);
      var srcIndexFloor := i * fromRate / toRate;
      var srcIndexCeil := Min(srcIndexFloor + 1, inputSamples - 1);
      var fraction := i * fromRate % toRate;
      var sample1 := input[srcIndexFloor];
      var sample2 := input[srcIndexCeil];
      var interpolated := RoundHalfUp(sample1 * toRate + (sample2 - sample1) * fraction, toRate);
      output[i] := Clamp(interpolated);
    }
  }

  // ---------------------------------------------------------------------
  // Arithmetic helpers

  lemma MulLeMono(a: int, b: int, c: int)
    requires a <= b && c >= 0
    ensures a * c <= b * c
  {
  }

  /** Euclidean division is determined by its quotient-remainder equation. */
  lemma DivModUnique(x: int, d: int, q: int, m: int)
    requires d > 0 && 0 <= m < d && x == q * d + m
    ensures x / d == q && x % d == m
  {
    var q', m' := x / d, x % d;
    assert x == q' * d + m' && 0 <= m' < d;
    if q' < q {
      MulLeMono(q' + 1, q, d);
      assert false;
    } else if q < q' {
      MulLeMono(q + 1, q', d);
      assert false;
    }
  }

  /** Rounding lands between any two integers that enclose the rational. */
  lemma RoundBetween(num: int, den: int, a: int, b: int)
    requires den > 0 && a * den <= num <= b * den
    ensures a <= RoundHalfUp(num, den) <= b
  {
    var r := RoundHalfUp(num, den);
    if r < a {
      MulLeMono(r + 1, a, den);
      assert false;
    } else if b < r {
      MulLeMono(b + 1, r, den);
      assert false;
    }
  }

  lemma RoundOfWhole(k: int, den: int)
    requires den > 0
    ensures RoundHalfUp(k * den, den) == k
  {
    RoundBetween(k * den, den, k, k);
  }

  // ---------------------------------------------------------------------
  // Properties of the resampler

  /** Every output index reads `srcIndexFloor` and `srcIndexCeil` inside the input. */
  lemma SourceInBounds(n: nat, fromRate: nat, toRate: nat, i: nat)
    requires fromRate > 0 && toRate > 0
    requires i < OutputCount(n, fromRate, toRate)
    ensures SourceFloor(i, fromRate, toRate) < n
    ensures SourceFloor(i, fromRate, toRate) <= SourceCeil(n, i, fromRate, toRate) < n
  {
    var q := OutputCount(n, fromRate, toRate);
    assert q * fromRate <= n * toRate;
    MulLeMono(i + 1, q, fromRate);
    var lo := SourceFloor(i, fromRate, toRate);
    assert lo * toRate <= i * fromRate;
    if n <= lo {
      MulLeMono(n, lo, toRate);
      assert false;
    }
  }

  /**
   * The output has `floor(n * toRate / fromRate)` samples: `m` output samples
   * span no more than the `n` input samples, and `m + 1` would span more. An
   * empty input gives an empty output.
   */
  lemma OutputLength(input: seq<Sample>, fromRate: nat, toRate: nat)
    requires fromRate > 0 && toRate > 0
    ensures var m := |Resample(input, fromRate, toRate)|;
      m * fromRate <= |input| * toRate < (m + 1) * fromRate
    ensures |input| == 0 ==> Resample(input, fromRate, toRate) == []
  {
    var m := |Resample(input, fromRate, toRate)|;
    var x := |input| * toRate;
    assert x == (x / fromRate) * fromRate + x % fromRate;
    assert (m + 1) * fromRate == m * fromRate + fromRate;
  }

  /**
   * The interpolated value lies between its two neighbours; so it is always a
   * sample, and the clamp never changes it.
   */
  lemma InterpolationWithinNeighbours(input: seq<Sample>, fromRate: nat, toRate: nat, i: nat)
    requires fromRate > 0 && toRate > 0
    requires i < OutputCount(|input|, fromRate, toRate)
    ensures var s1 := LeftNeighbour(input, fromRate, toRate, i);
      var s2 := RightNeighbour(input, fromRate, toRate, i);
      Min(s1, s2) <= Interpolated(input, fromRate, toRate, i) <= Max(s1, s2)
    ensures Resample(input, fromRate, toRate)[i] == Interpolated(input, fromRate, toRate, i)
  {
    var s1 := LeftNeighbour(input, fromRate, toRate, i);
    var s2 := RightNeighbour(input, fromRate, toRate, i);
    var f := FractionNumerator(i, fromRate, toRate);
    var num := s1 * toRate + (s2 - s1) * f;
    if s1 <= s2 {
      MulLeMono(f, toRate, s2 - s1);
      assert 0 <= (s2 - s1) * f;
      RoundBetween(num, toRate, s1, s2);
    } else {
      MulLeMono(f, toRate, s1 - s2);
      assert 0 <= (s1 - s2) * f;
      RoundBetween(num, toRate, s2, s1);
    }
  }

  /** Where the source position is a whole index, the output copies that input sample. */
  lemma ExactPosition(input: seq<Sample>, fromRate: nat, toRate: nat, i: nat)
    requires fromRate > 0 && toRate > 0
    requires i < OutputCount(|input|, fromRate, toRate)
    requires FractionNumerator(i, fromRate, toRate) == 0
    ensures Resample(input, fromRate, toRate)[i] == LeftNeighbour(input, fromRate, toRate, i)
  {
    var s1 := LeftNeighbour(input, fromRate, toRate, i);
    RoundOfWhole(s1, toRate);
  }

  /** Equal rates: the output is the input, sample for sample. */
  lemma {:induction false} Identity(input: seq<Sample>, rate: nat)
    requires rate > 0
    ensures Resample(input, rate, rate) == input
  {
    var n := |input|;
    DivModUnique(n * rate, rate, n, 0);
    var r := Resample(input, rate, rate);
    forall i | 0 <= i < n
      ensures r[i] == input[i]
    {
      DivModUnique(i * rate, rate, i, 0);
      ExactPosition(input, rate, rate, i);
    }
  }

  /**
   * Downsampling by a whole factor `m` keeps every `m`-th input sample and
   * nothing else: `floor(n / m)` samples, the `i`-th being input sample `m * i`.
   */
  lemma {:induction false} Decimation(input: seq<Sample>, m: nat, toRate: nat)
    requires m > 0 && toRate > 0
    ensures var r := Resample(input, m * toRate, toRate);
      |r| == |input| / m &&
      forall i :: 0 <= i < |r| ==> m * i < |input| && r[i] == input[m * i]
  {
    var n := |input|;
    var fromRate := m * toRate;
    var q := n / m;
    MulLeMono(0, n % m, toRate);
    MulLeMono(n % m + 1, m, toRate);
    DivModUnique(n * toRate, fromRate, q, (n % m) * toRate);
    var r := Resample(input, fromRate, toRate);
    forall i | 0 <= i < |r|
      ensures m * i < n && r[i] == input[m * i]
    {
      MulLeMono(i + 1, q, m);
      DivModUnique(i * fromRate, toRate, m * i, 0);
      ExactPosition(input, fromRate, toRate, i);
    }
  }

  /**
   * Upsampling by a whole factor `m` gives `m * n` samples, and every `m`-th
   * output sample is the input sample it stands on.
   */
  lemma {:induction false} UpsampleKeepsInput(input: seq<Sample>, m: nat, fromRate: nat)
    requires m > 0 && fromRate > 0
    ensures var r := Resample(input, fromRate, m * fromRate);
      |r| == m * |input| &&
      forall k :: 0 <= k < |input| ==> m * k < |r| && r[m * k] == input[k]
  {
    var n := |input|;
    var toRate := m * fromRate;
    DivModUnique(n * toRate, fromRate, m * n, 0);
    var r := Resample(input, fromRate, toRate);
    forall k | 0 <= k < n
      ensures m * k < |r| && r[m * k] == input[k]
    {
      MulLeMono(k + 1, n, m);
      DivModUnique(m * k * fromRate, toRate, k, 0);
      ExactPosition(input, fromRate, toRate, m * k);
    }
  }
}
