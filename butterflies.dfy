/**
 * What FFT.calculateSpectrum computes, as functions on sequences: the windowed bit-reversal
 * permutation of the input, the radix-2 butterfly stages with the rotating phasor, and the
 * magnitudes of the first N/2 bins. The arithmetic is the source's, on `real`; the trigonometric
 * tables, the square root and the logarithm are external functions (see `Numerics`).
 */
module Butterflies {
  import opened BitReversal

  /** The working complex array: `real` and `imag`. */
  datatype Work = Work(re: seq<real>, im: seq<real>)

  predicate Shaped(w: Work, n: nat) {
    |w.re| == n && |w.im| == n
  }

  /**
   * The host's floating-point functions the FFT uses and nothing here verifies:
   * hann(i, N) = 0.5 * (1 - cos(2*PI*i / (N-1))), cosStep(i) = cos(-PI/i), sinStep(i) = sin(-PI/i),
   * sqrt = Math.sqrt, and decibels(x) = Math.log(x) * Math.LOG10E * 45 for x > 0.
   */
  datatype Numerics = Numerics(
    hann: (nat, nat) -> real,
    cosStep: nat -> real,
    sinStep: nat -> real,
    sqrt: real -> real,
    decibels: real -> real)

  /** The one fact about the host's square root the model relies on. */
  ghost predicate SqrtNonNegative(num: Numerics) {
    forall x :: 0.0 <= x ==> 0.0 <= num.sqrt(x)
  }

  /** The four tables an FFT of size N holds after construction. */
  datatype Tables = Tables(window: seq<real>, reverse: seq<nat>, cos: seq<real>, sin: seq<real>)

  predicate TablesShaped(t: Tables, n: nat) {
    && |t.window| == n && |t.reverse| == n && |t.cos| == n && |t.sin| == n
    && forall i :: 0 <= i < n ==> t.reverse[i] < n
  }

  /** floor(log2 n) for n >= 1, i.e. Math.floor(Math.log(n) / Math.LN2) without rounding error. */
  function FloorLog2(n: nat): (k: nat)
    requires n >= 1
    ensures Pow2(k) <= n < 2 * Pow2(k)
  {
    if n == 1 then 0 else 1 + FloorLog2(n / 2)
  }

  /**
   * The guard of calculateSpectrum: Math.pow(2, k) === bufferSize with k = floor(log2 bufferSize).
   * For 0, Math.log gives -Infinity and Math.pow(2, -Infinity) is 0, so 0 passes.
   */
  function PowerOfTwoCheck(n: nat): bool
  {
    if n == 0 then true else Pow2(FloorLog2(n)) == n
  }

  /** The sizes calculateSpectrum accepts: 0 and the powers of two. */
  predicate SizeAccepted(n: nat) {
    n == 0 || IsPow2(n)
  }

  /** The guard passes exactly for the accepted sizes. */
  lemma PowerOfTwoCheckAccepts(n: nat)
    ensures PowerOfTwoCheck(n) <==> SizeAccepted(n)
  {
    if n > 0 {
      var f := FloorLog2(n);
      if IsPow2(n) {
        var k: nat :| k <= n && Pow2(k) == n;
        Pow2Monotone(k, f);
        Pow2Monotone(k, f + 1);
      } else {
        Pow2AtLeastExponent(f);
      }
    }
  }

  /** The Hann window and twiddle tables, filled by the constructor's loops for any size N. */
  function WindowTable(n: nat, num: Numerics): (t: seq<real>)
    ensures |t| == n
  {
    seq(n, (i: int) requires 0 <= i => num.hann(i, n))
  }

  function CosTable(n: nat, num: Numerics): (t: seq<real>)
    ensures |t| == n
  {
    seq(n, (i: int) requires 0 <= i => num.cosStep(i))
  }

  function SinTable(n: nat, num: Numerics): (t: seq<real>)
    ensures |t| == n
  {
    seq(n, (i: int) requires 0 <= i => num.sinStep(i))
  }

  /** The tables an FFT of size N = 2^k holds after construction. */
  function TablesFor(k: nat, num: Numerics): (t: Tables)
    ensures TablesShaped(t, Pow2(k))
  {
    var n := Pow2(k);
    RevTableIsPermutation(k);
    Tables(WindowTable(n, num), RevTable(k), CosTable(n, num), SinTable(n, num))
  }

  /**
   * The first loop of calculateSpectrum: real[i] = segment[rev[i]] * window[rev[i]], imag[i] = 0.
   * Every read index is a table entry, hence below N.
   */
  function Permute(segment: seq<real>, t: Tables): (w: Work)
    requires TablesShaped(t, |segment|)
    ensures Shaped(w, |segment|)
    ensures forall i :: 0 <= i < |segment| ==> w.im[i] == 0.0
  {
    var n := |segment|;
    Work(seq(n, i requires 0 <= i < n => segment[t.reverse[i]] * t.window[t.reverse[i]]), seq(n, i => 0.0))
  }

  /** Real and imaginary part of the complex product (cr + i*ci) * (xr + i*xi). */
  function RotRe(cr: real, ci: real, xr: real, xi: real): real
  {
    cr * xr - ci * xi
  }

  function RotIm(cr: real, ci: real, xr: real, xi: real): real
  {
    cr * xi + ci * xr
  }

  /** One butterfly on the pair (i, off) with phasor (cr, ci). */
  function Butterfly(w: Work, i: nat, off: nat, cr: real, ci: real): (r: Work)
    requires Shaped(w, |w.re|) && i < off < |w.re|
    ensures Shaped(r, |w.re|)
  {
    var tr := RotRe(cr, ci, w.re[off], w.im[off]);
    var ti := RotIm(cr, ci, w.re[off], w.im[off]);
    Work(w.re[off := w.re[i] - tr][i := w.re[i] + tr], w.im[off := w.im[i] - ti][i := w.im[i] + ti])
  }

  /**
   * A butterfly writes positions i and off only: off gets the difference and i the sum of
   * the old value at i and the rotated value at off.
   */
  lemma ButterflyTouchesPair(w: Work, i: nat, off: nat, cr: real, ci: real)
    requires Shaped(w, |w.re|) && i < off < |w.re|
    ensures forall p :: 0 <= p < |w.re| && p != i && p != off ==>
      Butterfly(w, i, off, cr, ci).re[p] == w.re[p] && Butterfly(w, i, off, cr, ci).im[p] == w.im[p]
    ensures Butterfly(w, i, off, cr, ci).re[i] + Butterfly(w, i, off, cr, ci).re[off] == 2.0 * w.re[i]
    ensures Butterfly(w, i, off, cr, ci).im[i] + Butterfly(w, i, off, cr, ci).im[off] == 2.0 * w.im[i]
  {}

  lemma MulMonotone(a: nat, b: nat, c: nat)
    requires a <= b
    ensures a * c <= b * c
  {}

  /** The position of the butterfly of step s in block m, with half-size h: each block is 2h further. */
  function BlockIndex(s: nat, m: nat, h: nat): nat
  {
    if m == 0 then s else BlockIndex(s, m - 1, h) + 2 * h
  }

  lemma {:induction false} BlockIndexIsAffine(s: nat, m: nat, h: nat)
    ensures BlockIndex(s, m, h) == s + m * (2 * h)
  {
    if m > 0 {
      BlockIndexIsAffine(s, m - 1, h);
      assert (m - 1) * (2 * h) + 2 * h == m * (2 * h);
    }
  }

  /** The number of blocks of size 2h in stage j of an FFT of size 2^k: N / 2^(j+1). */
  function Blocks(k: nat, j: nat): nat
    requires j < k
  {
    Pow2(k - j - 1)
  }

  /**
   * In stage j of an FFT of size 2^k (halfSize h = 2^j), the butterfly of step s < h in block m
   * sits at i = s + m*2h. The innermost loop's test i < N holds exactly for the N / 2h blocks,
   * and whenever it holds the partner i + h is below N too.
   */
  lemma {:induction false} BlockBounds(k: nat, j: nat, s: nat, m: nat)
    requires j < k && s < Pow2(j)
    ensures BlockIndex(s, m, Pow2(j)) < Pow2(k) <==> m < Blocks(k, j)
    ensures m < Blocks(k, j) ==> BlockIndex(s, m, Pow2(j)) + Pow2(j) < Pow2(k)
    ensures BlockIndex(s, m + 1, Pow2(j)) == BlockIndex(s, m, Pow2(j)) + 2 * Pow2(j)
  {
    var w := 2 * Pow2(j);
    var c := Blocks(k, j);
    BlockIndexIsAffine(s, m, Pow2(j));
    Pow2Add(k - j - 1, j + 1);
    assert Pow2(k) == c * w;
    assert (m + 1) * w == m * w + w;
    if c <= m {
      MulMonotone(c, m, w);
    } else {
      MulMonotone(m + 1, c, w);
    }
  }

  /**
   * The innermost loop of a stage after its first m rounds: butterflies at i = s, s + 2h, ...,
   * s + (m-1)*2h, all with the same phasor.
   */
  function Column(w: Work, k: nat, j: nat, s: nat, m: nat, cr: real, ci: real): (r: Work)
    requires j < k && s < Pow2(j) && m <= Blocks(k, j) && Shaped(w, Pow2(k))
    ensures Shaped(r, Pow2(k))
  {
    if m == 0 then w
    else
      var i := BlockIndex(s, m - 1, Pow2(j));
      BlockBounds(k, j, s, m - 1);
      Butterfly(Column(w, k, j, s, m - 1, cr, ci), i, i + Pow2(j), cr, ci)
  }

  /** The phasor after t steps: (1, 0) rotated t times by (stepR, stepI), by the angle-addition recurrence. */
  function Phasor(t: nat, stepR: real, stepI: real): (real, real)
  {
    if t == 0 then (1.0, 0.0)
    else
      var p := Phasor(t - 1, stepR, stepI);
      (RotRe(p.0, p.1, stepR, stepI), RotIm(p.0, p.1, stepR, stepI))
  }

  /**
   * The fftStep loop of a stage after its first s steps: one complete Column per step, step t
   * with the phasor after t rotations.
   */
  function Columns(w: Work, k: nat, j: nat, s: nat, stepR: real, stepI: real): (r: Work)
    requires j < k && s <= Pow2(j) && Shaped(w, Pow2(k))
    ensures Shaped(r, Pow2(k))
  {
    if s == 0 then w
    else
      var p := Phasor(s - 1, stepR, stepI);
      Column(Columns(w, k, j, s - 1, stepR, stepI), k, j, s - 1, Blocks(k, j), p.0, p.1)
  }

  /**
   * The first j stages of the stage loop (halfSize 1, 2, ..., 2^(j-1)), each reading its phasor
   * step from the twiddle tables at index halfSize.
   */
  function Stages(w: Work, k: nat, j: nat, cos: seq<real>, sin: seq<real>): (r: Work)
    requires j <= k && Shaped(w, Pow2(k)) && |cos| == Pow2(k) && |sin| == Pow2(k)
    ensures Shaped(r, Pow2(k))
  {
    if j == 0 then w
    else
      Pow2Monotone(j - 1, k);
      Columns(Stages(w, k, j - 1, cos, sin), k, j - 1, Pow2(j - 1), cos[Pow2(j - 1)], sin[Pow2(j - 1)])
  }

  /** The halfSize values the stage loop runs with: halfSize = h, 2h, 4h, ... while halfSize < N. */
  function HalfSizesFrom(h: nat, n: nat): seq<nat>
    requires h >= 1
    decreases n - h
  {
    if h >= n then [] else [h] + HalfSizesFrom(2 * h, n)
  }

  /** The stage loop of an FFT of size 2^k runs exactly k stages, with halfSize 1, 2, 4, ..., 2^(k-1). */
  lemma {:induction false} HalfSizesOfPow2(j: nat, k: nat)
    requires j <= k
    ensures |HalfSizesFrom(Pow2(j), Pow2(k))| == k - j
    ensures forall i :: 0 <= i < k - j ==> HalfSizesFrom(Pow2(j), Pow2(k))[i] == Pow2(j + i)
    decreases k - j
  {
    Pow2Monotone(j, k);
    if j < k {
      HalfSizesOfPow2(j + 1, k);
      assert 2 * Pow2(j) == Pow2(j + 1);
      var rest := HalfSizesFrom(Pow2(j + 1), Pow2(k));
      assert HalfSizesFrom(Pow2(j), Pow2(k)) == [Pow2(j)] + rest;
      forall i | 0 < i < k - j ensures HalfSizesFrom(Pow2(j), Pow2(k))[i] == Pow2(j + i) {
        assert rest[i - 1] == Pow2(j + 1 + (i - 1));
      }
    }
  }

  /** 2^0, 2^1, ..., 2^(j-1). */
  function Powers(j: nat): (ps: seq<nat>)
    ensures |ps| == j
  {
    if j == 0 then [] else Powers(j - 1) + [Pow2(j - 1)]
  }

  /** The halfSize list of an FFT of size 2^k is 1, 2, 4, ..., 2^(k-1). */
  lemma PowersAreHalfSizes(k: nat)
    ensures Powers(k) == HalfSizesFrom(1, Pow2(k))
  {
    HalfSizesOfPow2(0, k);
    var expected := HalfSizesFrom(Pow2(0), Pow2(k));
    forall i | 0 <= i < k ensures Powers(k)[i] == expected[i] {
      PowersAt(k, i);
    }
  }

  lemma {:induction false} PowersAt(j: nat, i: nat)
    requires i < j
    ensures Powers(j)[i] == Pow2(i)
  {
    if i < j - 1 { PowersAt(j - 1, i); }
  }

  /** scale * |x + i*y|, with the host's square root. */
  function BinMagnitude(scale: real, x: real, y: real, num: Numerics): real
  {
    scale * num.sqrt(x * x + y * y)
  }

  /** bSi = 2/N; the source's Infinity for N = 0 is never used, as no magnitude is computed then. */
  function BinScale(n: nat): real
  {
    if n == 0 then 0.0 else 2.0 / n as real
  }

  /**
   * The magnitudes (2/N) * sqrt(re^2 + im^2) the last loop computes. Its bound N/2 is a
   * floating-point quotient, so it runs for i < ceil(N/2): once more than the spectrum holds
   * when N is odd (N = 1 is the only odd size the guard lets through).
   */
  function Magnitudes(w: Work, n: nat, num: Numerics): (mags: seq<real>)
    requires Shaped(w, n)
    ensures |mags| == (n + 1) / 2
  {
    seq((n + 1) / 2, i requires 0 <= i < (n + 1) / 2 => BinMagnitude(BinScale(n), w.re[i], w.im[i], num))
  }

  /** The working array after the permutation and all stages, for an accepted non-empty segment. */
  ghost function TransformOf(t: Tables, segment: seq<real>): (w: Work)
    requires IsPow2(|segment|) && TablesShaped(t, |segment|)
    ensures Shaped(w, |segment|)
  {
    var k := Log2(|segment|);
    Stages(Permute(segment, t), k, k, t.cos, t.sin)
  }

  /** Every magnitude the last loop computes, each of which `peak` is compared with. */
  ghost function PeakCandidates(t: Tables, segment: seq<real>, num: Numerics): (mags: seq<real>)
    requires SizeAccepted(|segment|) && TablesShaped(t, |segment|)
    ensures |mags| == (|segment| + 1) / 2
  {
    if |segment| == 0 then [] else Magnitudes(TransformOf(t, segment), |segment|, num)
  }

  /** The spectrum calculateSpectrum returns for an accepted segment: the first N/2 magnitudes. */
  ghost function SpectrumOf(t: Tables, segment: seq<real>, num: Numerics): (mags: seq<real>)
    requires SizeAccepted(|segment|) && TablesShaped(t, |segment|)
  {
    PeakCandidates(t, segment, num)[..|segment| / 2]
  }

  /** The spectrum has N/2 entries, and with a non-negative square root every magnitude is non-negative. */
  lemma SpectrumShape(t: Tables, segment: seq<real>, num: Numerics)
    requires SizeAccepted(|segment|) && TablesShaped(t, |segment|)
    ensures |SpectrumOf(t, segment, num)| == |segment| / 2
    ensures SqrtNonNegative(num) ==> forall i :: 0 <= i < |PeakCandidates(t, segment, num)| ==> PeakCandidates(t, segment, num)[i] >= 0.0
  {
    var n := |segment|;
    if n > 0 && SqrtNonNegative(num) {
      var w := TransformOf(t, segment);
      forall i | 0 <= i < (n + 1) / 2 ensures PeakCandidates(t, segment, num)[i] >= 0.0 {
        var x := w.re[i] * w.re[i] + w.im[i] * w.im[i];
        assert x >= 0.0;
        assert num.sqrt(x) >= 0.0;
        assert BinScale(n) > 0.0;
        assert PeakCandidates(t, segment, num)[i] == BinMagnitude(BinScale(n), w.re[i], w.im[i], num);
      }
    }
  }
}
