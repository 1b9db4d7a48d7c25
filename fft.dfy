/**
 * The FFT class of FFT.js: tables filled once by the constructor, and calculateSpectrum, which
 * checks its size and its segment, permutes the segment into `real`/`imag`, runs the butterfly
 * stages in place and returns N/2 magnitudes while raising the running `peak`.
 */
module Fft {
  import opened Results
  import opened BitReversal
  import opened Butterflies

  /**
   * m is the running maximum `peak` reaches from `peak` after comparing with each of `mags`:
   * no smaller than any of them, and one of them.
   */
  predicate IsMaxOf(m: real, peak: real, mags: seq<real>)
  {
    && m >= peak
    && (forall i :: 0 <= i < |mags| ==> m >= mags[i])
    && (m == peak || m in mags)
  }

  /** The running maximum is unique. */
  lemma MaxOfUnique(m1: real, m2: real, peak: real, mags: seq<real>)
    requires IsMaxOf(m1, peak, mags) && IsMaxOf(m2, peak, mags)
    ensures m1 == m2
  {
    if m1 != peak {
      var i :| 0 <= i < |mags| && mags[i] == m1;
    }
    if m2 != peak {
      var i :| 0 <= i < |mags| && mags[i] == m2;
    }
  }

  class FFT {
    const bufferSize: nat
    const num: Numerics
    const windowValues: array<real>
    const reverseTable: array<nat>
    const sinTable: array<real>
    const cosTable: array<real>
    var peak: real

    /** The tables as values. */
    ghost function TablesView(): Tables
      reads windowValues, reverseTable, cosTable, sinTable
    {
      Tables(windowValues[..], reverseTable[..], cosTable[..], sinTable[..])
    }

    /**
     * The constructor's tables: window and twiddles for every size; the bit-reversal table is
     * known (and a permutation, by RevTableIsPermutation) when the size is a power of two.
     */
    ghost predicate Valid()
      reads this, windowValues, reverseTable, cosTable, sinTable
    {
      && windowValues[..] == WindowTable(bufferSize, num)
      && cosTable[..] == CosTable(bufferSize, num)
      && sinTable[..] == SinTable(bufferSize, num)
      && reverseTable.Length == bufferSize
      && (IsPow2(bufferSize) ==> TablesView() == TablesFor(Log2(bufferSize), num))
    }

    /**
     * `new FFT(fftSize)`. The constructor accepts any size: a write past the end of a typed array
     * is dropped, which is what the guard in the bit-reversal loop stands for.
     */
    constructor (fftSize: nat, num: Numerics)
      ensures Valid() && bufferSize == fftSize && this.num == num && peak == 0.0
      ensures fresh(windowValues) && fresh(reverseTable) && fresh(cosTable) && fresh(sinTable)
    {
      var window := new real[fftSize];
      var sins := new real[fftSize];
      var coss := new real[fftSize];

      for i := 0 to fftSize
        invariant forall p :: 0 <= p < i ==> window[p] == num.hann(p, fftSize)
        modifies window
      {
        window[i] := num.hann(i, fftSize);
      }
      assert window[..] == WindowTable(fftSize, num);

      var rev := BitReverseTable(fftSize);

      for i := 0 to fftSize
        invariant forall p :: 0 <= p < i ==> sins[p] == num.sinStep(p) && coss[p] == num.cosStep(p)
        modifies sins, coss
      {
        sins[i] := num.sinStep(i);
        coss[i] := num.cosStep(i);
      }
      assert sins[..] == SinTable(fftSize, num) && coss[..] == CosTable(fftSize, num);

      bufferSize := fftSize;
      this.num := num;
      windowValues := window;
      reverseTable := rev;
      sinTable := sins;
      cosTable := coss;
      peak := 0.0;
    }

    /**
     * calculateSpectrum(segment). The size guard runs on every call; both guards throw before
     * `peak` is touched. On success the result is SpectrumOf the segment with this FFT's tables,
     * `peak` becomes the running maximum over every magnitude the last loop computed, and the
     * stage loop ran with halfSize 1, 2, ..., N/2.
     */
    method CalculateSpectrum(segment: seq<real>) returns (r: Result<seq<real>, Error>, ghost halfSizes: seq<nat>)
      requires Valid()
      modifies this`peak
      ensures Valid()
      ensures !SizeAccepted(bufferSize) ==> r == Err(InvalidBufferSize) && peak == old(peak)
      ensures SizeAccepted(bufferSize) && |segment| != bufferSize ==> r == Err(SegmentSizeMismatch) && peak == old(peak)
      ensures SizeAccepted(bufferSize) && |segment| == bufferSize ==>
        && r == Ok(SpectrumOf(TablesView(), segment, num))
        && IsMaxOf(peak, old(peak), PeakCandidates(TablesView(), segment, num))
        && halfSizes == HalfSizesFrom(1, bufferSize)
    {
      var n := bufferSize;
      halfSizes := [];
      PowerOfTwoCheckAccepts(n);
      if !PowerOfTwoCheck(n) {
        return Err(InvalidBufferSize), halfSizes;
      }
      if n != |segment| {
        return Err(SegmentSizeMismatch), halfSizes;
      }
      ghost var t := TablesView();
      ghost var k: nat := if n == 0 then 0 else Log2(n);
      assert n > 0 ==> t == TablesFor(k, num);
      assert TablesShaped(t, n) by {
        if n > 0 { RevTableIsPermutation(k); }
      }

      var re, im := PermuteWindowed(segment, t);

      ghost var permuted := Work(re[..], im[..]);
      halfSizes := RunStages(re, im, cosTable, sinTable, k);
      ghost var w := Work(re[..], im[..]);
      assert n > 0 ==> w == Stages(permuted, k, k, t.cos, t.sin);

      var spectrum := SpectrumFrom(re, im);
      assert n > 0 ==> w == TransformOf(t, segment);
      return Ok(spectrum[..]), halfSizes;
    }

    /**
     * The stage loop: halfSize = 1, 2, 4, ... while below N, each stage one ButterflyStage with
     * the twiddle step read at index halfSize.
     */
    static method RunStages(re: array<real>, im: array<real>, coss: array<real>, sins: array<real>, ghost k: nat)
      returns (ghost halfSizes: seq<nat>)
      requires re != im && re != coss && re != sins && im != coss && im != sins
      requires re.Length == im.Length == coss.Length == sins.Length
      requires re.Length > 0 ==> re.Length == Pow2(k)
      modifies re, im
      ensures re.Length > 0 ==> Work(re[..], im[..]) == Stages(old(Work(re[..], im[..])), k, k, coss[..], sins[..])
      ensures halfSizes == HalfSizesFrom(1, re.Length)
    {
      var n := re.Length;
      ghost var cos, sin := coss[..], sins[..];
      halfSizes := [];
      var halfSize: nat := 1;
      ghost var j: nat := 0;
      ghost var start := Work(re[..], im[..]);
      while halfSize < n
        invariant halfSize == Pow2(j) && (n == 0 ==> j == 0)
        invariant n > 0 ==> j <= k && Work(re[..], im[..]) == Stages(start, k, j, cos, sin)
        invariant halfSizes == Powers(j)
        decreases n - halfSize
      {
        Pow2Monotone(j, k);
        ButterflyStage(re, im, k, j, halfSize, coss[halfSize], sins[halfSize]);
        halfSizes := halfSizes + [halfSize];
        halfSize := 2 * halfSize;
        j := j + 1;
      }
      if n > 0 {
        Pow2Monotone(j, k);
        PowersAreHalfSizes(k);
      } else {
        assert HalfSizesFrom(1, n) == [];
      }
    }

    /** The first loop: real[i] = segment[rev[i]] * window[rev[i]] and imag[i] = 0, into fresh arrays. */
    method PermuteWindowed(segment: seq<real>, ghost t: Tables) returns (re: array<real>, im: array<real>)
      requires Valid() && t == TablesView() && TablesShaped(t, |segment|)
      ensures fresh(re) && fresh(im) && re != im
      ensures Work(re[..], im[..]) == Permute(segment, t)
    {
      var n := |segment|;
      re := new real[n];
      im := new real[n];
      for i := 0 to n
        invariant forall p :: 0 <= p < i ==> re[p] == segment[t.reverse[p]] * t.window[t.reverse[p]]
        invariant forall p :: 0 <= p < i ==> im[p] == 0.0
      {
        var ri := reverseTable[i];
        re[i] := segment[ri] * windowValues[ri];
        im[i] := 0.0;
      }
      forall p | 0 <= p < n ensures re[p] == Permute(segment, t).re[p] {}
      assert re[..] == Permute(segment, t).re;
      assert im[..] == Permute(segment, t).im;
    }

    /**
     * The last loop: the magnitude of each of the first N/2 bins scaled by 2/N, and `peak`
     * raised to each magnitude that exceeds it, in bin order.
     */
    method SpectrumFrom(re: array<real>, im: array<real>) returns (spectrum: array<real>)
      requires re.Length == bufferSize && im.Length == bufferSize
      modifies this`peak
      ensures fresh(spectrum)
      ensures spectrum[..] == Magnitudes(Work(re[..], im[..]), bufferSize, num)[..bufferSize / 2]
      ensures IsMaxOf(peak, old(peak), Magnitudes(Work(re[..], im[..]), bufferSize, num))
    {
      var n := bufferSize;
      var bSi := BinScale(n);
      ghost var mags := Magnitudes(Work(re[..], im[..]), n, num);
      spectrum := new real[n / 2];
      var bound := (n + 1) / 2;  // the iterations of `i < bufferSize / 2` in floating point
      for i := 0 to bound
        invariant forall p :: 0 <= p < i && p < spectrum.Length ==> spectrum[p] == mags[p]
        invariant peak >= old(peak) && forall p :: 0 <= p < i ==> peak >= mags[p]
        invariant peak == old(peak) || exists p :: 0 <= p < i && peak == mags[p]
      {
        var mag := BinMagnitude(bSi, re[i], im[i], num);
        assert mag == mags[i];
        if mag > peak {
          peak := mag;
        }
        if i < spectrum.Length {
          spectrum[i] := mag;
        }
      }
      assert spectrum[..] == mags[..n / 2];
    }

    /**
     * One stage of the butterfly loop (the fftStep loop at one halfSize): the phasor starts at 1
     * and is advanced by the twiddle step (cosTable[halfSize], sinTable[halfSize]) after every step.
     */
    static method ButterflyStage(re: array<real>, im: array<real>, ghost k: nat, ghost j: nat, halfSize: nat, stepR: real, stepI: real)
      requires j < k && halfSize == Pow2(j)
      requires re != im && re.Length == Pow2(k) && im.Length == Pow2(k)
      modifies re, im
      ensures Work(re[..], im[..]) == Columns(old(Work(re[..], im[..])), k, j, halfSize, stepR, stepI)
    {
      var cr, ci := 1.0, 0.0;
      ghost var stageStart := Work(re[..], im[..]);
      for fftStep := 0 to halfSize
        invariant Work(re[..], im[..]) == Columns(stageStart, k, j, fftStep, stepR, stepI)
        invariant (cr, ci) == Phasor(fftStep, stepR, stepI)
      {
        ButterflyColumn(re, im, k, j, halfSize, fftStep, cr, ci);
        cr, ci := RotRe(cr, ci, stepR, stepI), RotIm(cr, ci, stepR, stepI);
      }
    }

    /** The innermost loop: butterflies (i, i + halfSize) for i = fftStep, fftStep + 2*halfSize, ... below N. */
    static method ButterflyColumn(re: array<real>, im: array<real>, ghost k: nat, ghost j: nat, halfSize: nat, fftStep: nat, cr: real, ci: real)
      requires re != im && re.Length == Pow2(k) && im.Length == Pow2(k)
      requires j < k && halfSize == Pow2(j) && fftStep < halfSize
      modifies re, im
      ensures Work(re[..], im[..]) == Column(old(Work(re[..], im[..])), k, j, fftStep, Blocks(k, j), cr, ci)
    {
      var n := re.Length;
      var i := fftStep;
      ghost var m: nat := 0;
      ghost var columnStart := Work(re[..], im[..]);
      while i < n
        invariant i == BlockIndex(fftStep, m, halfSize) && m <= Blocks(k, j)
        invariant Work(re[..], im[..]) == Column(columnStart, k, j, fftStep, m, cr, ci)
        decreases n - i
      {
        BlockBounds(k, j, fftStep, m);
        ButterflyAt(re, im, i, i + halfSize, cr, ci);
        i := i + 2 * halfSize;
        m := m + 1;
      }
      BlockBounds(k, j, fftStep, m);
    }

    /** The body of the innermost loop: one butterfly on (i, off) with the phasor (cr, ci). */
    static method ButterflyAt(re: array<real>, im: array<real>, i: nat, off: nat, cr: real, ci: real)
      requires re != im && re.Length == im.Length && i < off < re.Length
      modifies re, im
      ensures Work(re[..], im[..]) == Butterfly(old(Work(re[..], im[..])), i, off, cr, ci)
    {
      var tr := RotRe(cr, ci, re[off], im[off]);
      var ti := RotIm(cr, ci, re[off], im[off]);
      re[off] := re[i] - tr;
      im[off] := im[i] - ti;
      re[i] := re[i] + tr;
      im[i] := im[i] + ti;
    }

    /**
     * The bit-reversal table loop of the constructor: entries limit .. 2*limit-1 are the entries
     * 0 .. limit-1 plus `bit`, with limit doubling from 1 and bit halving from N/2.
     */
    static method BitReverseTable(n: nat) returns (rev: array<nat>)
      ensures fresh(rev) && rev.Length == n
      ensures IsPow2(n) ==> rev[..] == RevTable(Log2(n))
    {
      rev := new nat[n](_ => 0);
      ghost var pow := IsPow2(n);
      ghost var k: nat := if pow then Log2(n) else 0;
      var limit: nat := 1;
      var bit: nat := n / 2;
      ghost var j: nat := 0;
      if pow {
        RevZero(k);
        if k > 0 {
          assert Pow2(k) == 2 * Pow2(k - 1);
        }
      }
      while limit < n
        invariant limit == Pow2(j)
        invariant pow ==> j <= k && bit == (if j < k then Pow2(k - 1 - j) else 0)
        invariant pow ==> forall p :: 0 <= p < limit && p < n ==> rev[p] == Rev(p, k)
        decreases n - limit
      {
        if pow {
          Pow2Monotone(j, k);
          Pow2Monotone(j + 1, k);
        }
        ReflectBlock(rev, limit, bit, j, k, pow);
        if pow && j + 1 < k {
          assert Pow2(k - 1 - j) == 2 * Pow2(k - 1 - (j + 1));
        }
        limit := limit * 2;
        bit := bit / 2;
        j := j + 1;
      }
      if pow {
        Pow2Monotone(j, k);
        assert rev[..] == RevTable(k);
        Log2Of(k);
      }
    }

    /**
     * The inner loop of the table construction: rev[i + limit] = rev[i] + bit for i below limit,
     * a write past the end of the table being dropped.
     */
    static method ReflectBlock(rev: array<nat>, limit: nat, bit: nat, ghost j: nat, ghost k: nat, ghost pow: bool)
      requires limit == Pow2(j)
      requires pow ==> rev.Length == Pow2(k) && j < k && 2 * limit <= rev.Length && bit == Pow2(k - 1 - j)
      requires pow ==> forall p :: 0 <= p < limit ==> rev[p] == Rev(p, k)
      modifies rev
      ensures pow ==> forall p :: 0 <= p < 2 * limit ==> rev[p] == Rev(p, k)
    {
      var n := rev.Length;
      if pow {
        Pow2Monotone(j + 1, k);
      }
      for i := 0 to limit
        invariant pow ==> forall p :: 0 <= p < limit ==> rev[p] == Rev(p, k)
        invariant pow ==> forall p :: limit <= p < limit + i ==> rev[p] == Rev(p, k)
      {
        if i + limit < n {
          rev[i + limit] := rev[i] + bit;
          if pow {
            RevStep(i, j, k);
          }
        }
      }
    }
  }
}
