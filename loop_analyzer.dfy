/** `LoopAnalyzer` of src/audio/loopAnalyzer.ts: deciding whether a sound
    loops and where, by comparing the last and first 1.5 seconds of a
    downsampled copy with a cross-correlation. Samples are reals; reading and
    decoding the file is a parameter. */
module LoopAnalysis {
  import opened Common
  import opened Text

  const AnalysisSampleRate: nat := 11025
  const CorrelationThreshold: real := 0.8
  const FadeSamples: int := 1000

  datatype LoopMetadata = LoopMetadata(
    loopStart: int,
    loopEnd: int,
    crossfadeMs: real,
    isLoopable: bool,
    confidence: real,
    duration: real)

  /** A decoded sound: its sample rate and the samples of its first channel. */
  datatype SoundBuffer = SoundBuffer(sampleRate: nat, samples: seq<real>)

  function Duration(b: SoundBuffer): real
    requires b.sampleRate > 0
  {
    |b.samples| as real / b.sampleRate as real
  }

  const PercussivePatterns: seq<string> := ["chime", "bell", "pulse", "click", "hit", "snap"]

  /** `isPercussiveSound(filename, duration)` */
  predicate IsPercussive(filename: string, duration: real)
  {
    (exists p | p in PercussivePatterns :: Contains(Lower(filename), p)) || duration < 2.0
  }

  /** `getFallbackMetadata()`: one second at 44.1 kHz. */
  function FallbackMetadata(): LoopMetadata
  {
    LoopMetadata(0, 44100 - FadeSamples, 400.0, true, 0.3, 1.0)
  }

  // ----- downsample -----

  function Ratio(sourceRate: nat, targetRate: nat): (r: real)
    requires sourceRate > 0 && targetRate > 0
    ensures r > 0.0
  {
    sourceRate as real / targetRate as real
  }

  /** `Math.floor(buffer.length / ratio)` */
  function TargetLength(n: nat, ratio: real): (t: nat)
    requires ratio > 0.0
    ensures t as real <= n as real / ratio < t as real + 1.0
  {
    DivNonneg(n as real, ratio);
    (n as real / ratio).Floor
  }

  lemma DivNonneg(x: real, y: real)
    requires x >= 0.0 && y > 0.0
    ensures x / y >= 0.0
  {
  }

  /** Output position i reads source position floor(i * ratio), which exists. */
  lemma IndexInRange(n: nat, ratio: real, i: nat)
    requires ratio > 0.0 && i < TargetLength(n, ratio)
    ensures 0 <= (i as real * ratio).Floor < n
  {
    var q := n as real / ratio;
    assert i as real < q;
    assert q * ratio == n as real;
    MulLess(i as real, q, ratio);
  }

  lemma MulLess(a: real, b: real, c: real)
    requires 0.0 <= a < b && c > 0.0
    ensures 0.0 <= a * c < b * c
  {
  }

  /** `sample1 + fraction * (sample2 - sample1)` */
  function Interpolated(sample1: real, sample2: real, fraction: real): real
  {
    sample1 + fraction * (sample2 - sample1)
  }

  /** Sample i of the downsampled signal: a linear interpolation between the
      two source samples around position i * ratio, or the last one. */
  function Resampled(samples: seq<real>, ratio: real, i: nat): real
    requires ratio > 0.0 && i < TargetLength(|samples|, ratio)
  {
    IndexInRange(|samples|, ratio, i);
    var sourceIndex := i as real * ratio;
    var index := sourceIndex.Floor;
    var fraction := sourceIndex - index as real;
    if index < |samples| - 1 then
      Interpolated(samples[index], samples[index + 1], fraction)
    else
      samples[if index <= |samples| - 1 then index else |samples| - 1]
  }

  lemma ResampledAt(samples: seq<real>, ratio: real, i: nat)
    requires ratio > 0.0 && i < TargetLength(|samples|, ratio)
    ensures var sourceIndex := i as real * ratio;
            var index := sourceIndex.Floor;
            var fraction := sourceIndex - index as real;
            && 0 <= index < |samples|
            && Resampled(samples, ratio, i) ==
                 if index < |samples| - 1 then Interpolated(samples[index], samples[index + 1], fraction)
                 else samples[if index <= |samples| - 1 then index else |samples| - 1]
  {
    IndexInRange(|samples|, ratio, i);
  }

  /** `downsample(buffer, targetRate)` as a value. */
  function Downsampled(samples: seq<real>, sourceRate: nat, targetRate: nat): (d: seq<real>)
    requires sourceRate > 0 && targetRate > 0
    ensures |d| == TargetLength(|samples|, Ratio(sourceRate, targetRate))
  {
    var ratio := Ratio(sourceRate, targetRate);
    seq(TargetLength(|samples|, ratio), i requires 0 <= i < TargetLength(|samples|, ratio) =>
      Resampled(samples, ratio, i))
  }

  /** `downsample(buffer, targetRate)`, filling a new array index by index. */
  method Downsample(samples: seq<real>, sourceRate: nat, targetRate: nat) returns (out: array<real>)
    requires sourceRate > 0 && targetRate > 0
    ensures fresh(out) && out[..] == Downsampled(samples, sourceRate, targetRate)
  {
    var ratio := Ratio(sourceRate, targetRate);
    var targetLength := TargetLength(|samples|, ratio);
    out := new real[targetLength];
    var i := 0;
    while i < targetLength
      invariant 0 <= i <= targetLength
      invariant forall k :: 0 <= k < i ==> out[k] == Resampled(samples, ratio, k)
    {
      out[i] := Interpolate(samples, ratio, i);
      i := i + 1;
    }
  }

  /** One pass of the `downsample` loop: the source position, its whole and
      fractional parts, and the interpolated (or last) sample. */
  method Interpolate(samples: seq<real>, ratio: real, i: nat) returns (v: real)
    requires ratio > 0.0 && i < TargetLength(|samples|, ratio)
    ensures v == Resampled(samples, ratio, i)
  {
    ResampledAt(samples, ratio, i);
    var sourceIndex := i as real * ratio;
    var index := sourceIndex.Floor;
    var fraction := sourceIndex - index as real;
    if index < |samples| - 1 {
      v := Interpolated(samples[index], samples[index + 1], fraction);
    } else {
      v := samples[if index <= |samples| - 1 then index else |samples| - 1];
    }
  }

  /** An interpolated value lies between the two it interpolates. */
  lemma Lerp(a: real, b: real, f: real)
    requires 0.0 <= f < 1.0
    ensures Min(a, b) <= Interpolated(a, b, f) <= Max(a, b)
  {
    if a < b {
      MulNonneg(f, b - a);
      MulNonneg(1.0 - f, b - a);
    } else if a > b {
      MulNonneg(f, a - b);
      MulNonneg(1.0 - f, a - b);
    }
  }

  /** Every downsampled value lies between the two neighbouring source samples
      at its position, and the last source sample is repeated when there is no
      right neighbour. */
  lemma ResampledBetween(samples: seq<real>, ratio: real, i: nat)
    requires ratio > 0.0 && i < TargetLength(|samples|, ratio)
    ensures var index := (i as real * ratio).Floor;
            var v := Resampled(samples, ratio, i);
            && 0 <= index < |samples|
            && (index < |samples| - 1 ==> Min(samples[index], samples[index + 1]) <= v <= Max(samples[index], samples[index + 1]))
            && (index == |samples| - 1 ==> v == samples[index])
  {
    ResampledAt(samples, ratio, i);
    var x := i as real * ratio;
    var index := x.Floor;
    if index < |samples| - 1 {
      Lerp(samples[index], samples[index + 1], x - index as real);
    }
  }

  /** At the same rate downsampling copies the signal. */
  lemma DownsampleSameRate(samples: seq<real>, rate: nat)
    requires rate > 0
    ensures Downsampled(samples, rate, rate) == samples
  {
    var d := Downsampled(samples, rate, rate);
    assert Ratio(rate, rate) == 1.0;
    assert |d| == |samples|;
    forall i | 0 <= i < |d| ensures d[i] == samples[i] {
      assert (i as real * 1.0).Floor == i;
    }
  }

  // ----- crossCorrelate -----

  function MinLength(a: seq<real>, b: seq<real>): nat
  {
    if |a| <= |b| then |a| else |b|
  }

  /** The sum of a[i] * b[i + k] for i < len, added in index order. */
  function Dot(a: seq<real>, b: seq<real>, k: nat, len: nat): real
    requires len <= |a| && len + k <= |b|
  {
    if len == 0 then 0.0 else Dot(a, b, k, len - 1) + a[len - 1] * b[len - 1 + k]
  }

  /** Entry k of `crossCorrelate(a, b)`: the mean of a[i] * b[i + k] over the
      m - k positions where both exist. */
  function Correlation(a: seq<real>, b: seq<real>, k: nat): real
    requires k < MinLength(a, b)
  {
    var count := MinLength(a, b) - k;
    if count > 0 then Dot(a, b, k, count) / count as real else 0.0
  }

  function Correlations(a: seq<real>, b: seq<real>): (c: seq<real>)
    ensures |c| == MinLength(a, b)
  {
    seq(MinLength(a, b), k requires 0 <= k < MinLength(a, b) => Correlation(a, b, k))
  }

  /** `crossCorrelate(segment1, segment2)` with its two nested loops. */
  method CrossCorrelate(segment1: seq<real>, segment2: seq<real>) returns (correlation: array<real>)
    ensures fresh(correlation) && correlation[..] == Correlations(segment1, segment2)
  {
    var minLength := if |segment1| <= |segment2| then |segment1| else |segment2|;
    correlation := new real[minLength](_ => 0.0);
    var offset := 0;
    while offset < minLength
      invariant 0 <= offset <= minLength
      invariant forall k :: 0 <= k < offset ==> correlation[k] == Correlation(segment1, segment2, k)
    {
      var sum := 0.0;
      var count := 0;
      var i := 0;
      while i < minLength - offset
        invariant 0 <= i <= minLength - offset
        invariant count == i && sum == Dot(segment1, segment2, offset, i)
      {
        sum := sum + segment1[i] * segment2[i + offset];
        count := count + 1;
        i := i + 1;
      }
      correlation[offset] := if count > 0 then sum / count as real else 0.0;
      offset := offset + 1;
    }
  }

  predicate InUnitRange(s: seq<real>)
  {
    forall i :: 0 <= i < |s| ==> -1.0 <= s[i] <= 1.0
  }

  lemma ProductInUnitRange(x: real, y: real)
    requires -1.0 <= x <= 1.0 && -1.0 <= y <= 1.0
    ensures -1.0 <= x * y <= 1.0
  {
    if x >= 0.0 && y >= 0.0 {
      assert x * y <= x * 1.0;
    } else if x >= 0.0 {
      assert x * y >= x * -1.0;
    } else if y >= 0.0 {
      assert x * y >= -1.0 * y;
    } else {
      assert x * y <= -1.0 * y;
    }
  }

  lemma {:induction false} DotBounded(a: seq<real>, b: seq<real>, k: nat, len: nat)
    requires len <= |a| && len + k <= |b| && InUnitRange(a) && InUnitRange(b)
    ensures -(len as real) <= Dot(a, b, k, len) <= len as real
  {
    if len > 0 {
      DotBounded(a, b, k, len - 1);
      ProductInUnitRange(a[len - 1], b[len - 1 + k]);
      var p := a[len - 1] * b[len - 1 + k];
      var d := Dot(a, b, k, len - 1);
      var n := (len - 1) as real;
      assert -n <= d <= n && -1.0 <= p <= 1.0;
      assert Dot(a, b, k, len) == d + p && len as real == n + 1.0;
    }
  }

  lemma MeanBounded(x: real, n: real)
    requires n > 0.0 && -n <= x <= n
    ensures -1.0 <= x / n <= 1.0
  {
    assert x / n * n == x;
  }

  /** Signals within [-1, 1], as decoded PCM is, correlate within [-1, 1]. */
  lemma CorrelationBounded(a: seq<real>, b: seq<real>, k: nat)
    requires k < MinLength(a, b) && InUnitRange(a) && InUnitRange(b)
    ensures -1.0 <= Correlations(a, b)[k] <= 1.0
  {
    var count := MinLength(a, b) - k;
    DotBounded(a, b, k, count);
    MeanBounded(Dot(a, b, k, count), count as real);
  }

  lemma {:induction false} DotSelfNonneg(a: seq<real>, len: nat)
    requires len <= |a|
    ensures Dot(a, a, 0, len) >= 0.0
  {
    if len > 0 {
      DotSelfNonneg(a, len - 1);
      assert a[len - 1] * a[len - 1] >= 0.0;
    }
  }

  /** At offset 0 a segment correlated with itself gives its mean square,
      which is never negative. */
  lemma SelfCorrelationNonneg(a: seq<real>)
    requires |a| > 0
    ensures Correlations(a, a)[0] >= 0.0
  {
    DotSelfNonneg(a, |a|);
  }

  /** The last offset pairs only the first sample of one segment with the
      last compared sample of the other. */
  lemma LastOffset(a: seq<real>, b: seq<real>)
    requires MinLength(a, b) > 0
    ensures Correlations(a, b)[MinLength(a, b) - 1] == a[0] * b[MinLength(a, b) - 1]
  {
    var k := MinLength(a, b) - 1;
    assert Dot(a, b, k, 1) == Dot(a, b, k, 0) + a[0] * b[k];
  }

  // ----- peak and width -----

  /** `Math.max(...s)` over a non-empty sequence. */
  function MaxOf(s: seq<real>): (m: real)
    requires |s| > 0
    ensures m in s && forall i :: 0 <= i < |s| ==> s[i] <= m
  {
    if |s| == 1 then s[0]
    else
      var rest := MaxOf(s[1..]);
      assert forall i :: 1 <= i < |s| ==> s[i] == s[1..][i - 1];
      if s[0] >= rest then s[0] else rest
  }

  /** The first index at or after `from` whose value is below `threshold`. */
  function FirstBelow(c: seq<real>, from: nat, threshold: real): (r: Option<nat>)
    ensures r.Some? ==> from <= r.value < |c| && c[r.value] < threshold &&
                        forall j :: from <= j < r.value ==> c[j] >= threshold
    ensures r.None? ==> forall j :: from <= j < |c| ==> c[j] >= threshold
    decreases |c| - from
  {
    if from >= |c| then None
    else if c[from] < threshold then Some(from)
    else FirstBelow(c, from + 1, threshold)
  }

  /** `getCorrelationWidth(correlation, peakIndex)`: at least 100, and above
      100 exactly the distance to the first later entry below 80% of the peak. */
  function CorrelationWidth(c: seq<real>, peak: nat): (w: int)
    requires peak < |c|
    ensures w >= 100
    ensures w > 100 ==> peak + w < |c| && c[peak + w] < c[peak] * 0.8 &&
                        forall j :: peak <= j < peak + w ==> c[j] >= c[peak] * 0.8
    ensures forall i :: (peak + 100 < i < |c| && c[i] < c[peak] * 0.8 &&
                         forall j :: peak <= j < i ==> c[j] >= c[peak] * 0.8) ==> w == i - peak
  {
    var below := FirstBelow(c, peak, c[peak] * 0.8);
    var width := if below.Some? then below.value - peak else 0;
    if 100 >= width then 100 else width
  }

  /** `getCorrelationWidth`, scanning forward from the peak and breaking at
      the first entry below the threshold. */
  method GetCorrelationWidth(correlation: array<real>, peakIndex: nat) returns (w: int)
    requires peakIndex < correlation.Length
    ensures w == CorrelationWidth(correlation[..], peakIndex)
  {
    var threshold := correlation[peakIndex] * 0.8;
    var width := 0;
    var i := peakIndex;
    while i < correlation.Length
      invariant peakIndex <= i <= correlation.Length
      invariant forall j :: peakIndex <= j < i ==> correlation[j] >= threshold
      invariant width == 0
    {
      if correlation[i] < threshold {
        width := i - peakIndex;
        break;
      }
      i := i + 1;
    }
    w := if 100 >= width then 100 else width;
  }

  // ----- detectLoopPoints -----

  /** The last and the first `min(1.5 * 11025, length / 2)` samples, the
      length truncated as `slice` does; `slice(-0)` is the whole array. */
  function Segments(d: seq<real>): (seq<real>, seq<real>)
  {
    var segmentLength := Min(1.5 * AnalysisSampleRate as real, |d| as real / 2.0);
    var l := segmentLength.Floor;
    assert 0 <= l <= |d|;
    (if l == 0 then d else d[|d| - l..], d[..l])
  }

  /** The correlation of the last and first segments of the downsampled
      signal. */
  function CorrelationOf(b: SoundBuffer): seq<real>
    requires b.sampleRate > 0
  {
    var segments := Segments(Downsampled(b.samples, b.sampleRate, AnalysisSampleRate));
    Correlations(segments.0, segments.1)
  }

  /** `sampleRate / ANALYSIS_SAMPLE_RATE` */
  function ScaleFactor(sampleRate: nat): real
  {
    sampleRate as real / AnalysisSampleRate as real
  }

  /** `Math.floor(bestOffset * scaleFactor)`: an analysis offset back at the
      source rate. */
  function LoopStartAt(bestOffset: nat, sampleRate: nat): (s: int)
    ensures s >= 0
  {
    MulNonneg(bestOffset as real, ScaleFactor(sampleRate));
    (bestOffset as real * ScaleFactor(sampleRate)).Floor
  }

  /** The cross-fade for a correlation peak `width` analysis samples wide, in
      milliseconds, kept within [200, 600]. */
  function CrossfadeFor(width: int, sampleRate: nat): (ms: real)
    requires sampleRate > 0
    ensures 200.0 <= ms <= 600.0
  {
    Min(600.0, Max(200.0, width as real * ScaleFactor(sampleRate) / sampleRate as real * 1000.0))
  }

  /** The outcome of a non-percussive sound once its correlation c is known. */
  function FromCorrelation(b: SoundBuffer, c: seq<real>): LoopMetadata
    requires b.sampleRate > 0
  {
    var n := |b.samples|;
    if |c| == 0 || MaxOf(c) < CorrelationThreshold then
      LoopMetadata(0, n - FadeSamples, 500.0, true, 0.5, Duration(b))
    else
      var best := IndexOf(c, MaxOf(c));
      var width := CorrelationWidth(c, best);
      LoopMetadata(LoopStartAt(best, b.sampleRate), n - FadeSamples, CrossfadeFor(width, b.sampleRate), true, MaxOf(c), Duration(b))
  }

  /** `detectLoopPoints(buffer, filename)` as a value. */
  function Detected(b: SoundBuffer, filename: string): LoopMetadata
    requires b.sampleRate > 0
  {
    if IsPercussive(filename, Duration(b)) then
      LoopMetadata(0, |b.samples| - FadeSamples, 0.0, false, 1.0, Duration(b))
    else FromCorrelation(b, CorrelationOf(b))
  }

  /** `detectLoopPoints(buffer, filename)`. */
  method DetectLoopPoints(b: SoundBuffer, filename: string) returns (r: LoopMetadata)
    requires b.sampleRate > 0
    ensures r == Detected(b, filename)
  {
    var duration := Duration(b);
    if IsPercussive(filename, duration) {
      return LoopMetadata(0, |b.samples| - FadeSamples, 0.0, false, 1.0, duration);
    }
    var downsampled := Downsample(b.samples, b.sampleRate, AnalysisSampleRate);
    var segments := Segments(downsampled[..]);
    var correlation := CrossCorrelate(segments.0, segments.1);
    r := PickLoop(b, correlation);
  }

  /** The second half of `detectLoopPoints`: the peak of the correlation, the
      threshold test, and the loop start and cross-fade; an empty correlation
      has maximum minus infinity, which is below the threshold. */
  method PickLoop(b: SoundBuffer, correlation: array<real>) returns (r: LoopMetadata)
    requires b.sampleRate > 0
    ensures r == FromCorrelation(b, correlation[..])
  {
    var sampleRate := b.sampleRate;
    var duration := Duration(b);
    if correlation.Length == 0 || MaxOf(correlation[..]) < CorrelationThreshold {
      return LoopMetadata(0, |b.samples| - FadeSamples, 500.0, true, 0.5, duration);
    }
    var maxCorrelation := MaxOf(correlation[..]);
    var bestOffset := IndexOf(correlation[..], maxCorrelation);
    var loopStart := LoopStartAt(bestOffset, sampleRate);
    var correlationWidth := GetCorrelationWidth(correlation, bestOffset);
    var crossfadeMs := CrossfadeFor(correlationWidth, sampleRate);
    r := LoopMetadata(loopStart, |b.samples| - FadeSamples, crossfadeMs, true, maxCorrelation, duration);
  }

  /** Every outcome ends the loop 1000 samples before the end and reports the
      buffer's duration; a sound is loopable exactly when it is not
      percussive; a loopable one cross-fades for 200 to 600 ms. */
  lemma DetectedShape(b: SoundBuffer, filename: string)
    requires b.sampleRate > 0
    ensures var r := Detected(b, filename);
            && r.loopEnd == |b.samples| - 1000
            && r.duration == |b.samples| as real / b.sampleRate as real
            && (r.isLoopable <==> !IsPercussive(filename, r.duration))
            && (r.isLoopable ==> 200.0 <= r.crossfadeMs <= 600.0)
            && (!r.isLoopable ==> r.loopStart == 0 && r.crossfadeMs == 0.0 && r.confidence == 1.0)
  {
  }

  /** Without a correlation entry of at least 0.8 the whole sound loops with a
      500 ms cross-fade and confidence 0.5. */
  lemma DetectedWeakCorrelation(b: SoundBuffer, filename: string)
    requires b.sampleRate > 0 && !IsPercussive(filename, Duration(b))
    requires forall x :: x in CorrelationOf(b) ==> x < 0.8
    ensures Detected(b, filename) == LoopMetadata(0, |b.samples| - 1000, 500.0, true, 0.5, Duration(b))
  {
    var c := CorrelationOf(b);
    if |c| > 0 {
      assert MaxOf(c) in c;
    }
  }

  /** With a correlation entry of at least 0.8 the loop starts at the first
      offset of the maximum, scaled back to the source rate, and the
      confidence is that maximum. */
  lemma StrongCorrelation(b: SoundBuffer, c: seq<real>, k: nat)
    requires b.sampleRate > 0 && k < |c| && c[k] >= 0.8
    ensures var r := FromCorrelation(b, c);
            exists best :: 0 <= best < |c| && c[best] == r.confidence
              && (forall j :: 0 <= j < |c| ==> c[j] <= c[best])
              && (forall j :: 0 <= j < best ==> c[j] < c[best])
              && r.loopStart == LoopStartAt(best, b.sampleRate)
              && r.loopStart >= 0
              && r.confidence >= 0.8 && r.isLoopable
  {
    var best := IndexOf(c, MaxOf(c));
    forall j | 0 <= j < best ensures c[j] < c[best] {
      assert c[..best][j] == c[j];
    }
    var r := FromCorrelation(b, c);
    assert r.confidence == c[best] && r.loopStart == LoopStartAt(best, b.sampleRate);
  }

  lemma MulNonneg(x: real, y: real)
    requires x >= 0.0 && y >= 0.0
    ensures x * y >= 0.0
  {
  }

  lemma DetectedStrongCorrelation(b: SoundBuffer, filename: string, k: nat)
    requires b.sampleRate > 0 && !IsPercussive(filename, Duration(b))
    requires k < |CorrelationOf(b)| && CorrelationOf(b)[k] >= 0.8
    ensures var c := CorrelationOf(b);
            var r := Detected(b, filename);
            exists best :: 0 <= best < |c| && c[best] == r.confidence
              && (forall j :: 0 <= j < |c| ==> c[j] <= c[best])
              && (forall j :: 0 <= j < best ==> c[j] < c[best])
              && r.loopStart == LoopStartAt(best, b.sampleRate)
              && r.loopStart >= 0
              && r.confidence >= 0.8 && r.isLoopable
  {
    StrongCorrelation(b, CorrelationOf(b), k);
  }

  // ----- analyzeLoop -----

  /** The path with its trailing slashes removed. */
  function StripTrailingSlashes(p: string): (r: string)
    ensures |r| <= |p| && r == p[..|r|]
  {
    if |p| > 0 && p[|p| - 1] == '/' then StripTrailingSlashes(p[..|p| - 1]) else p
  }

  /** The text after the last '/' . */
  function AfterLastSlash(p: string): (r: string)
    ensures '/' !in r && |r| <= |p| && r == p[|p| - |r|..]
  {
    if p == [] then []
    else if p[|p| - 1] == '/' then []
    else AfterLastSlash(p[..|p| - 1]) + [p[|p| - 1]]
  }

  /** `path.basename(p)` */
  function Basename(p: string): string
  {
    AfterLastSlash(StripTrailingSlashes(p))
  }

  /** The position of the last '.' in s, if any. */
  function LastDot(s: string): (r: Option<nat>)
    ensures r.Some? ==> r.value < |s| && s[r.value] == '.' && '.' !in s[r.value + 1..]
    ensures r.None? ==> '.' !in s
  {
    if s == [] then None
    else if s[|s| - 1] == '.' then Some(|s| - 1)
    else
      var r := LastDot(s[..|s| - 1]);
      assert s == s[..|s| - 1] + [s[|s| - 1]];
      r
  }

  /** `path.extname(p)`: from the last '.' of the base name on, unless there
      is none, it is the base name's first character, or the base name is
      "..". */
  function ExtName(p: string): (e: string)
    ensures e == [] || (e[0] == '.' && '.' !in e[1..] && '/' !in e)
  {
    var base := Basename(p);
    var dot := LastDot(base);
    if dot.None? || dot.value == 0 || base == ".." then [] else base[dot.value..]
  }

  /** The buffer the `.ogg` stub returns: one second of silence at 44.1 kHz. */
  function OggStub(): (b: SoundBuffer)
    ensures b.sampleRate == 44100 && |b.samples| == 44100
  {
    SoundBuffer(44100, seq(44100, _ => 0.0))
  }

  /** `analyzeLoop(filePath)` as a value; `wav` is what decoding the file as
      WAV yields, or None when reading or decoding fails. */
  function Analysis(filePath: string, wav: Option<SoundBuffer>): LoopMetadata
    requires wav.Some? ==> wav.value.sampleRate > 0
  {
    var ext := Lower(ExtName(filePath));
    if ext == ".wav" then
      if wav.Some? then Detected(wav.value, Basename(filePath)) else FallbackMetadata()
    else if ext == ".ogg" then Detected(OggStub(), Basename(filePath))
    else FallbackMetadata()
  }

  /** `analyzeLoop(filePath)`: dispatch on the extension, and the fallback
      metadata for an unsupported one or a failed decode. */
  method AnalyzeLoop(filePath: string, wav: Option<SoundBuffer>) returns (r: LoopMetadata)
    requires wav.Some? ==> wav.value.sampleRate > 0
    ensures r == Analysis(filePath, wav)
  {
    var ext := Lower(ExtName(filePath));
    if ext == ".wav" {
      if wav.None? {
        return FallbackMetadata();
      }
      r := DetectLoopPoints(wav.value, Basename(filePath));
    } else if ext == ".ogg" {
      r := DetectLoopPoints(OggStub(), Basename(filePath));
    } else {
      return FallbackMetadata();
    }
  }

  /** An unsupported extension or a failed WAV decode yields exactly
      {0, 43100, 400, true, 0.3, 1.0}. */
  lemma AnalysisFallback(filePath: string, wav: Option<SoundBuffer>)
    requires wav.Some? ==> wav.value.sampleRate > 0
    requires Lower(ExtName(filePath)) != ".ogg"
    requires Lower(ExtName(filePath)) != ".wav" || wav.None?
    ensures Analysis(filePath, wav) == LoopMetadata(0, 43100, 400.0, true, 0.3, 1.0)
  {
  }

  /** Every `.ogg` file decodes to one silent second, which is shorter than two
      seconds and so never loops. */
  lemma OggNeverLoops(filePath: string, wav: Option<SoundBuffer>)
    requires wav.Some? ==> wav.value.sampleRate > 0
    requires Lower(ExtName(filePath)) == ".ogg"
    ensures Analysis(filePath, wav) == LoopMetadata(0, 43100, 0.0, false, 1.0, 1.0)
  {
    assert Duration(OggStub()) == 1.0;
  }
}
