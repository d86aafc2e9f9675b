/**
 * The index skeleton of the spectral stage: `remove_dc_offset`, the harmonic
 * product and clipping of `PitchSpectralHps`, and `note_threshold_scaled_by_RMS`.
 * Magnitudes are reals; the Fourier transform that produces them is not modelled.
 */
module Spectrum {

  /**
   * `remove_dc_offset(fft_res)`: zeroes bins 0, 1 and 2 in place. On an array
   * shorter than three bins the Python code raises `IndexError` after writing
   * the bins that exist; `ok` is false then.
   */
  method RemoveDcOffset(fftRes: array<real>) returns (ok: bool)
    modifies fftRes
    ensures ok <==> fftRes.Length >= 3
    ensures forall k :: 0 <= k < fftRes.Length ==> fftRes[k] == if k < 3 then 0.0 else old(fftRes[k])
  {
    if fftRes.Length < 1 { return false; }
    fftRes[0] := 0.0;
    if fftRes.Length < 2 { return false; }
    fftRes[1] := 0.0;
    if fftRes.Length < 3 { return false; }
    fftRes[2] := 0.0;
    return true;
  }

  /** `iOrder`: the fundamental and three harmonics. The source fixes it at 4, and
      `HpsLength`, `DecimatedCoversHps` and `HpsOf` write the product's four factors
      out with the literal 4; only the loop bound of `HarmonicProductSpectrum` reads `Order`. */
  const Order: nat := 4

  /** `iLen = int((N - 1) / iOrder)` for N bins (`int` truncates -0.25 to 0). */
  function HpsLength(n: nat): (len: nat)
    ensures n == 0 ==> len == 0
    ensures n > 0 ==> 4 * len <= n - 1 < 4 * len + 4
  {
    if n == 0 then 0 else (n - 1) / 4
  }

  /** The decimated spectrum `X[::step]` has at least `iLen` bins for each step 1..4,
      so every `X_d[np.arange(0, iLen)]` stays in bounds. */
  lemma DecimatedCoversHps(n: nat, step: nat, k: nat)
    requires 1 <= step <= 4 && k < HpsLength(n)
    ensures step * k < n
  {
    assert step * k <= 4 * k;
  }

  /** `X[::step][np.arange(0, iLen)]`: every `step`-th bin of `X`, cut to the HPS length. */
  function Decimated(x: seq<real>, step: nat): (d: seq<real>)
    requires 1 <= step <= 4
    ensures |d| == HpsLength(|x|)
  {
    seq(HpsLength(|x|), i requires 0 <= i < HpsLength(|x|) => DecimatedCoversHps(|x|, step, i); x[step * i])
  }

  /** Element-wise product of two spectra of equal length (numpy's `*`). */
  function Times(a: seq<real>, b: seq<real>): (c: seq<real>)
    requires |a| == |b|
    ensures |c| == |a|
  {
    seq(|a|, i requires 0 <= i < |a| => a[i] * b[i])
  }

  /** `afHps` after the rounds j = 1 .. h - 1 of the loop: `X[0:iLen]` times the
      decimated spectra with steps 2 .. h. */
  function PartialHps(x: seq<real>, h: nat): (p: seq<real>)
    requires 1 <= h <= 4
    ensures |p| == HpsLength(|x|)
  {
    if h == 1 then Decimated(x, 1) else Times(PartialHps(x, h - 1), Decimated(x, h))
  }

  /** The harmonic product at bin k before clipping: `X[k] * X[2k] * X[3k] * X[4k]`. */
  function HpsOf(x: seq<real>): (h: seq<real>)
    ensures |h| == HpsLength(|x|)
  {
    seq(HpsLength(|x|), k requires 0 <= k < HpsLength(|x|) => x[k] * x[2 * k] * x[3 * k] * x[4 * k])
  }

  /** After the three rounds, `afHps[k]` is the product of bin k and its images at 2k, 3k, 4k. */
  lemma PartialHpsComplete(x: seq<real>)
    ensures PartialHps(x, 4) == HpsOf(x)
  {
    var p := PartialHps(x, 4);
    forall k | 0 <= k < |p| ensures p[k] == HpsOf(x)[k] {
      assert PartialHps(x, 1)[k] == x[k];
      assert PartialHps(x, 2)[k] == x[k] * x[2 * k];
      assert PartialHps(x, 3)[k] == x[k] * x[2 * k] * x[3 * k];
    }
  }

  function Max(a: real, b: real): real { if a < b then b else a }
  function Min(a: real, b: real): real { if a < b then a else b }

  /** `max(afHps)`. */
  function MaxOf(s: seq<real>): (m: real)
    requires |s| > 0
    ensures forall k :: 0 <= k < |s| ==> s[k] <= m
    ensures exists k :: 0 <= k < |s| && s[k] == m
  {
    if |s| == 1 then s[0]
    else
      var m := MaxOf(s[..|s| - 1]);
      assert forall k :: 0 <= k < |s| - 1 ==> s[..|s| - 1][k] == s[k];
      Max(m, s[|s| - 1])
  }

  /** `np.clip(a, lo, hi)`, which is `minimum(maximum(a, lo), hi)` bin by bin. */
  function Clip(s: seq<real>, lo: real, hi: real): (r: seq<real>)
    ensures |r| == |s|
  {
    seq(|s|, k requires 0 <= k < |s| => Min(Max(s[k], lo), hi))
  }

  predicate NonNegative(s: seq<real>)
  {
    forall k :: 0 <= k < |s| ==> s[k] >= 0.0
  }

  /** With lo <= hi, clipping lands in [lo, hi], leaves values inside untouched, and
      turns everything above hi into hi. */
  lemma ClipBounds(s: seq<real>, lo: real, hi: real, k: nat)
    requires lo <= hi && k < |s|
    ensures lo <= Clip(s, lo, hi)[k] <= hi
    ensures lo <= s[k] <= hi ==> Clip(s, lo, hi)[k] == s[k]
    ensures s[k] >= hi ==> Clip(s, lo, hi)[k] == hi
  {
  }

  /** Clipping never reorders two bins. */
  lemma ClipMonotone(s: seq<real>, lo: real, hi: real, a: nat, b: nat)
    requires a < |s| && b < |s| && s[a] <= s[b]
    ensures Clip(s, lo, hi)[a] <= Clip(s, lo, hi)[b]
  {
  }

  lemma ProductNonNegative(a: real, b: real, c: real, d: real)
    requires a >= 0.0 && b >= 0.0 && c >= 0.0 && d >= 0.0
    ensures a * b * c * d >= 0.0
  {
    assert a * b >= 0.0;
    assert a * b * c >= 0.0;
  }

  /** A non-negative spectrum (as `np.abs` gives) has a non-negative harmonic product. */
  lemma HpsNonNegative(x: seq<real>)
    requires NonNegative(x)
    ensures NonNegative(HpsOf(x))
  {
    var h := HpsOf(x);
    forall k | 0 <= k < |h| ensures h[k] >= 0.0 {
      ProductNonNegative(x[k], x[2 * k], x[3 * k], x[4 * k]);
    }
  }

  /** `np.clip(afHps, 0, max(afHps) * 0.5)` applied to the harmonic product of `x`. */
  function ClippedHps(x: seq<real>): (c: seq<real>)
    requires HpsLength(|x|) > 0
    ensures |c| == HpsLength(|x|)
  {
    var h := HpsOf(x);
    Clip(h, 0.0, MaxOf(h) * 0.5)
  }

  /** After `np.clip(afHps, 0, max(afHps) * 0.5)` on a non-negative spectrum every
      bin lies in [0, max / 2], and the strongest bins sit exactly at max / 2. */
  lemma HpsClipRange(x: seq<real>)
    requires NonNegative(x) && HpsLength(|x|) > 0
    ensures var c := ClippedHps(x); var top := MaxOf(HpsOf(x)) * 0.5;
      && 0.0 <= top
      && (forall k :: 0 <= k < |c| ==> 0.0 <= c[k] <= top)
      && (forall k :: 0 <= k < |c| && HpsOf(x)[k] == MaxOf(HpsOf(x)) ==> c[k] == top)
  {
    var h := HpsOf(x);
    HpsNonNegative(x);
    assert h[0] >= 0.0;
    var top := MaxOf(h) * 0.5;
    forall k | 0 <= k < |h| ensures 0.0 <= Clip(h, 0.0, top)[k] <= top {
      ClipBounds(h, 0.0, top, k);
    }
  }

  /** `afHps *= X[::step][np.arange(0, iLen)]`, bin by bin. */
  method MultiplyByDecimated(afHps: array<real>, x: array<real>, step: nat)
    requires 1 <= step <= 4 && afHps.Length == HpsLength(x.Length)
    requires afHps != x
    modifies afHps
    ensures afHps[..] == Times(old(afHps[..]), Decimated(x[..], step))
  {
    ghost var before := afHps[..];
    ghost var target := Times(before, Decimated(x[..], step));
    var i := 0;
    while i < afHps.Length
      invariant 0 <= i <= afHps.Length
      invariant forall t :: 0 <= t < i ==> afHps[t] == target[t]
      invariant forall t :: i <= t < afHps.Length ==> afHps[t] == before[t]
    {
      DecimatedCoversHps(x.Length, step, i);
      assert target[i] == afHps[i] * x[step * i];
      afHps[i] := afHps[i] * x[step * i];
      i := i + 1;
    }
    assert afHps[..] == target;
  }

  /** Python's `max(a)` over a non-empty array; it raises on an empty one. */
  method MaxValue(a: array<real>) returns (m: real)
    requires a.Length > 0
    ensures forall k :: 0 <= k < a.Length ==> a[k] <= m
    ensures exists k :: 0 <= k < a.Length && a[k] == m
    ensures m == MaxOf(a[..])
  {
    m := a[0];
    var i := 1;
    while i < a.Length
      invariant 1 <= i <= a.Length
      invariant m == MaxOf(a[..i])
    {
      assert a[..i + 1][..i] == a[..i];
      m := Max(m, a[i]);
      i := i + 1;
    }
    assert a[..a.Length] == a[..];
  }

  /** `np.clip(a, lo, hi)`, which returns a new array and leaves `a` as it was. */
  method ClipArray(a: array<real>, lo: real, hi: real) returns (c: array<real>)
    ensures fresh(c)
    ensures c[..] == Clip(a[..], lo, hi)
  {
    c := new real[a.Length];
    var i := 0;
    while i < a.Length
      invariant 0 <= i <= a.Length
      invariant forall t :: 0 <= t < i ==> c[t] == Min(Max(a[t], lo), hi)
    {
      c[i] := Min(Max(a[i], lo), hi);
      i := i + 1;
    }
  }

  /** `X[np.arange(0, n)]`: fancy indexing copies the first `n` bins into a new array. */
  method CopyPrefix(x: array<real>, n: nat) returns (a: array<real>)
    requires n <= x.Length
    ensures fresh(a)
    ensures a[..] == x[..n]
  {
    a := new real[n];
    var k := 0;
    while k < n
      invariant 0 <= k <= n
      invariant forall t :: 0 <= t < k ==> a[t] == x[t]
    {
      a[k] := x[k];
      k := k + 1;
    }
  }

  /** Lines 205-212 of `PitchSpectralHps`: `afHps = X[np.arange(0, iLen)]`, then
      `afHps *= X[::(j + 1)][np.arange(0, iLen)]` for j = 1, 2, 3. `X` is only read. */
  method HarmonicProductSpectrum(x: array<real>) returns (afHps: array<real>)
    ensures fresh(afHps)
    ensures afHps[..] == HpsOf(x[..])
  {
    ghost var xs := x[..];
    var iLen := HpsLength(x.Length);
    afHps := CopyPrefix(x, iLen);
    assert afHps[..] == PartialHps(xs, 1);
    var j := 1;
    while j < Order
      invariant 1 <= j <= Order && x[..] == xs
      invariant afHps[..] == PartialHps(xs, j)
    {
      MultiplyByDecimated(afHps, x, j + 1);
      j := j + 1;
    }
    PartialHpsComplete(xs);
  }

  /**
   * The harmonic product and clipping of `PitchSpectralHps(X, ...)`: the product
   * above, then `afHps = np.clip(afHps, 0, max(afHps) * 0.5)`. `max` of an empty
   * `afHps` raises `ValueError`; `ok` is false then.
   */
  method HpsProductAndClip(x: array<real>) returns (ok: bool, afHps: array<real>)
    ensures fresh(afHps)
    ensures afHps.Length == HpsLength(x.Length)
    ensures ok <==> afHps.Length > 0
    ensures ok ==> afHps[..] == ClippedHps(x[..])
  {
    ghost var xs := x[..];
    afHps := HarmonicProductSpectrum(x);
    ghost var h := afHps[..];
    assert h == HpsOf(xs);
    if afHps.Length == 0 {
      return false, afHps;
    }
    var maxValue := MaxValue(afHps);
    assert maxValue == MaxOf(h);
    afHps := ClipArray(afHps, 0.0, maxValue * 0.5);
    return true, afHps;
  }

  /** `THRESH`. */
  const Thresh: real := 100.0

  /** `note_threshold_scaled_by_RMS(buffer_rms) = THRESH * (4 / 0.090) * buffer_rms`. */
  function NoteThresholdScaledByRms(bufferRms: real): (t: real)
    ensures bufferRms >= 0.0 ==> t >= 0.0
    ensures t == 0.0 <==> bufferRms == 0.0
  {
    Thresh * (4.0 / 0.090) * bufferRms
  }

  /** The threshold scales linearly with the chunk's RMS: doubling the RMS doubles it. */
  lemma ThresholdLinear(a: real, rms: real, rms': real)
    ensures NoteThresholdScaledByRms(a * rms) == a * NoteThresholdScaledByRms(rms)
    ensures NoteThresholdScaledByRms(rms + rms') == NoteThresholdScaledByRms(rms) + NoteThresholdScaledByRms(rms')
  {
  }
}
