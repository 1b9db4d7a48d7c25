/**
 * The worker entry point of FFT.js (`onmessage`): the channel data is cut into consecutive,
 * non-overlapping segments of fftSize samples, each is transformed by one FFT object, and its
 * spectrum is narrowed into a Uint8Array of intensities stored at index offset / fftSize.
 */
module Segmentation {
  import opened Results
  import opened BitReversal
  import opened Butterflies
  import opened Fft

  /** A JavaScript number as far as the narrowing needs it: NaN or a finite value. */
  datatype Number = NaN | Finite(value: real)

  /**
   * Number of segments the loop `while (offset + N < length)` takes: the k with (k+1)*N < length
   * (see FrameCountMeaning). The bound is strict, so the last full segment is never taken.
   */
  function FrameCount(len: nat, n: nat): nat
    requires n > 0
  {
    if len == 0 then 0 else (len - 1) / n
  }

  /** The offset of segment k: `currentOffset += fftSize` taken k times from 0. */
  function Offset(k: nat, n: nat): nat
  {
    if k == 0 then 0 else Offset(k - 1, n) + n
  }

  lemma {:induction false} OffsetIsProduct(k: nat, n: nat)
    ensures Offset(k, n) == k * n
  {
    if k > 0 {
      OffsetIsProduct(k - 1, n);
      assert (k - 1) * n + n == k * n;
    }
  }

  /** k is below x / n exactly when k + 1 blocks of n fit in x. */
  lemma QuotientBelow(x: nat, n: nat, k: nat)
    requires n > 0
    ensures k < x / n <==> (k + 1) * n <= x
  {
    var q, r := x / n, x % n;
    assert x == q * n + r && 0 <= r < n;
    if k + 1 <= q {
      MulMonotone(k + 1, q, n);
    } else {
      MulMonotone(q + 1, k + 1, n);
      assert (q + 1) * n == q * n + n;
    }
  }

  /** The loop takes segment k exactly when the segment after it starts before the end of the data. */
  lemma FrameCountMeaning(len: nat, n: nat, k: nat)
    requires n > 0
    ensures k < FrameCount(len, n) <==> (k + 1) * n < len
    ensures k < FrameCount(len, n) <==> Offset(k, n) + n < len
  {
    OffsetIsProduct(k, n);
    assert (k + 1) * n == k * n + n;
    if len > 0 {
      QuotientBelow(len - 1, n, k);
    }
  }

  /** FrameCountMeaning in the loop's own terms, free of products. */
  lemma FrameCountTakes(len: nat, n: nat, k: nat)
    requires n > 0
    ensures k < FrameCount(len, n) <==> Offset(k, n) + n < len
  {
    FrameCountMeaning(len, n, k);
  }

  /** A buffer of exactly m*N samples yields m - 1 frames. */
  lemma FrameCountOfMultiple(m: nat, n: nat)
    requires n > 0 && m > 0
    ensures FrameCount(m * n, n) == m - 1
  {
    var len := m * n;
    assert len - 1 == (m - 1) * n + (n - 1);
    FrameCountMeaning(len, n, m - 1);
    if m > 1 { FrameCountMeaning(len, n, m - 2); }
    assert (m - 1 + 1) * n == len;
  }

  /** The only multiple of a positive n in [0, n) is 0. */
  lemma OnlyZeroMultipleBelow(d: int, n: int)
    ensures n > 0 && 0 <= d * n < n ==> d == 0
  {
    if n > 0 && d >= 1 {
      MulMonotone(1, d, n);
    } else if n > 0 && d <= -1 {
      MulMonotone(1, -d, n);
      assert (-d) * n == -(d * n);
    }
  }

  /** `((currentOffset + fftSize) / fftSize) - 1` at the offset of segment m is m. */
  lemma SegmentNumber(offset: nat, m: nat, n: nat)
    requires n > 0 && offset == Offset(m, n)
    ensures (offset + n) / n - 1 == m
  {
    var a: nat := m + 1;
    OffsetIsProduct(a, n);
    var q, r := (a * n) / n, (a * n) % n;
    assert (a - q) * n == r;
    OnlyZeroMultipleBelow(a - q, n);
  }

  /** channelData.slice(offset, offset + N) for segment k. */
  function Segment(data: seq<real>, n: nat, k: nat): (s: seq<real>)
    requires Offset(k, n) + n <= |data|
    ensures |s| == n
  {
    data[Offset(k, n)..Offset(k, n) + n]
  }

  /** The first m segments, one after the other. */
  function Segments(data: seq<real>, n: nat, m: nat): seq<real>
    requires Offset(m, n) <= |data|
  {
    if m == 0 then [] else Segments(data, n, m - 1) + Segment(data, n, m - 1)
  }

  /** The segments tile the data from index 0 without gaps or overlaps. */
  lemma {:induction false} SegmentsTile(data: seq<real>, n: nat, m: nat)
    requires Offset(m, n) <= |data|
    ensures Segments(data, n, m) == data[..Offset(m, n)]
  {
    if m > 0 {
      SegmentsTile(data, n, m - 1);
      var o := Offset(m - 1, n);
      assert data[..o] + data[o..o + n] == data[..o + n];
    }
  }

  /**
   * The frames the loop takes tile the data from index 0, and what they leave at the end is at
   * least one sample and at most N samples long.
   */
  lemma FramesCoverData(data: seq<real>, n: nat)
    requires n > 0
    ensures Offset(FrameCount(|data|, n), n) <= |data|
    ensures Segments(data, n, FrameCount(|data|, n)) == data[..Offset(FrameCount(|data|, n), n)]
    ensures |data| > 0 ==> 0 < |data| - Offset(FrameCount(|data|, n), n) <= n
  {
    var len, c := |data|, FrameCount(|data|, n);
    OffsetIsProduct(c, n);
    if len > 0 {
      assert len - 1 == c * n + (len - 1) % n;
    }
    SegmentsTile(data, n, c);
  }

  /** Truncation toward zero, the ToIntegerOrInfinity step of a typed-array store. */
  function Trunc(x: real): (r: int)
    ensures 0.0 <= x ==> 0 <= r && r as real <= x < r as real + 1.0
    ensures x < 0.0 ==> r <= 0 && r as real - 1.0 < x <= r as real
  {
    if x >= 0.0 then x.Floor else -((-x).Floor)
  }

  /** ToUint8: NaN becomes 0, anything else is truncated and taken modulo 256 (no clamping). */
  function ToUint8(v: Number): (r: int)
    ensures 0 <= r < 256
    ensures v.NaN? ==> r == 0
    ensures v.Finite? ==> (r - Trunc(v.value)) % 256 == 0
  {
    match v
    case NaN => 0
    case Finite(x) => Trunc(x) % 256
  }

  /**
   * Math.max(-255, Math.log(x) * Math.LOG10E * 45): the log of a negative magnitude is NaN, which
   * Math.max passes on; the log of 0 is -Infinity, so the level is -255.
   */
  function Level(x: real, num: Numerics): (v: Number)
    ensures x < 0.0 <==> v.NaN?
    ensures v.Finite? ==> v.value >= -255.0
    ensures x == 0.0 ==> v == Finite(-255.0)
  {
    if x < 0.0 then NaN
    else if x == 0.0 then Finite(-255.0)
    else if num.decibels(x) < -255.0 then Finite(-255.0)
    else Finite(num.decibels(x))
  }

  /** The byte stored for one spectrum bin. */
  function Intensity(x: real, num: Numerics): (b: int)
    ensures 0 <= b < 256
  {
    ToUint8(Level(x, num))
  }

  /** A silent bin (magnitude 0) is stored as 1: -255 wraps around to 256 - 255. */
  lemma SilenceIsOne(num: Numerics)
    ensures Intensity(0.0, num) == 1
  {
    assert Trunc(-255.0) == -255;
  }

  /**
   * For levels from -255 to -1 the stored byte is 256 plus the truncated level, so within that
   * range a louder bin is never stored as a smaller byte.
   */
  lemma NegativeLevelsWrap(x: real, y: real)
    requires -255.0 <= x <= y <= -1.0
    ensures ToUint8(Finite(x)) == 256 + Trunc(x)
    ensures ToUint8(Finite(x)) <= ToUint8(Finite(y))
  {
    var tx, ty := Trunc(x), Trunc(y);
    assert -255 <= tx <= ty <= -1;
    assert tx % 256 == 256 + tx;
    assert ty % 256 == 256 + ty;
  }

  /** The Uint8Array(N/2) for one spectrum. */
  function Frame(spectrum: seq<real>, num: Numerics): (f: seq<int>)
    ensures |f| == |spectrum|
  {
    seq(|spectrum|, j requires 0 <= j < |spectrum| => Intensity(spectrum[j], num))
  }

  /** The frame stored for segment k of the data, with the tables of an FFT of size N = 2^k. */
  ghost function FrameAt(data: seq<real>, n: nat, k: nat, num: Numerics): seq<int>
    requires n > 0 && IsPow2(n) && k < FrameCount(|data|, n)
  {
    FrameCountTakes(|data|, n, k);
    Frame(SpectrumOf(TablesFor(Log2(n), num), Segment(data, n, k), num), num)
  }

  /**
   * The array the worker posts: one frame per segment the loop takes. It is defined when the
   * size is a power of two, or when the loop takes no segment at all.
   */
  ghost function FreqData(data: seq<real>, n: nat, num: Numerics): (fd: seq<seq<int>>)
    requires n > 0 && (IsPow2(n) || FrameCount(|data|, n) == 0)
    ensures |fd| == FrameCount(|data|, n)
  {
    seq(FrameCount(|data|, n), (k: int) requires 0 <= k < FrameCount(|data|, n) => FrameAt(data, n, k, num))
  }

  /** A frame holds N/2 bytes. */
  lemma FrameAtLength(data: seq<real>, n: nat, k: nat, num: Numerics)
    requires n > 0 && IsPow2(n) && k < FrameCount(|data|, n)
    ensures |FrameAt(data, n, k, num)| == n / 2
  {
    FrameCountTakes(|data|, n, k);
    SpectrumShape(TablesFor(Log2(n), num), Segment(data, n, k), num);
  }

  /** fd holds the frames of the first |fd| segments. */
  ghost predicate FramesSoFar(fd: seq<seq<int>>, data: seq<real>, n: nat, num: Numerics)
    requires n > 0 && IsPow2(n) && |fd| <= FrameCount(|data|, n)
  {
    forall k :: 0 <= k < |fd| ==> fd[k] == FrameAt(data, n, k, num)
  }

  lemma FramesSoFarAppend(fd: seq<seq<int>>, frame: seq<int>, data: seq<real>, n: nat, num: Numerics)
    requires n > 0 && IsPow2(n) && |fd| < FrameCount(|data|, n)
    requires FramesSoFar(fd, data, n, num) && frame == FrameAt(data, n, |fd|, num)
    ensures FramesSoFar(fd + [frame], data, n, num)
  {
    forall k | 0 <= k < |fd| + 1 ensures (fd + [frame])[k] == FrameAt(data, n, k, num) {
      if k < |fd| {
        assert (fd + [frame])[k] == fd[k];
      }
    }
  }

  /** Every frame holds N/2 bytes, each in 0..255. */
  lemma FreqDataShape(data: seq<real>, n: nat, num: Numerics)
    requires n > 0 && (IsPow2(n) || FrameCount(|data|, n) == 0)
    ensures forall k :: 0 <= k < |FreqData(data, n, num)| ==> |FreqData(data, n, num)[k]| == n / 2
    ensures forall k, j :: 0 <= k < |FreqData(data, n, num)| && 0 <= j < |FreqData(data, n, num)[k]| ==>
      0 <= FreqData(data, n, num)[k][j] <= 255
  {
    forall k | 0 <= k < FrameCount(|data|, n) ensures |FreqData(data, n, num)[k]| == n / 2 {
      FrameAtLength(data, n, k, num);
    }
  }

  /** The inner loop of onmessage: a Uint8Array(fftSize / 2) filled with the narrowed spectrum. */
  method NarrowSpectrum(spectrum: seq<real>, fftSize: nat, num: Numerics) returns (bytes: array<int>)
    requires |spectrum| == fftSize / 2
    ensures fresh(bytes)
    ensures bytes[..] == Frame(spectrum, num)
  {
    bytes := new int[fftSize / 2];
    for j := 0 to (fftSize + 1) / 2  // `j < fftSize / 2` in floating point; writes past the end are dropped
      invariant forall p :: 0 <= p < j && p < bytes.Length ==> bytes[p] == Intensity(spectrum[p], num)
    {
      if j < bytes.Length {
        bytes[j] := Intensity(spectrum[j], num);
      }
    }
    assert bytes[..] == Frame(spectrum, num);
  }

  /**
   * One pass of the onmessage loop body up to the store: slice segment m at `offset`, transform
   * it, narrow the spectrum. calculateSpectrum throws when fftSize is not a power of two.
   */
  method TransformSegment(fft: FFT, channelData: seq<real>, offset: nat, ghost m: nat, num: Numerics)
    returns (r: Result<seq<int>, Error>)
    requires fft.Valid() && fft.bufferSize > 0 && fft.num == num
    requires m < FrameCount(|channelData|, fft.bufferSize) && offset == Offset(m, fft.bufferSize)
    modifies fft`peak
    ensures fft.Valid()
    ensures IsPow2(fft.bufferSize) ==> r == Ok(FrameAt(channelData, fft.bufferSize, m, num))
    ensures !IsPow2(fft.bufferSize) ==> r == Err(InvalidBufferSize)
  {
    var n := fft.bufferSize;
    FrameCountTakes(|channelData|, n, m);
    var segment := channelData[offset..offset + n];
    assert segment == Segment(channelData, n, m);
    var spectrum;
    ghost var halfSizes;
    spectrum, halfSizes := fft.CalculateSpectrum(segment);
    if spectrum.Err? {
      return Err(spectrum.error);
    }
    SpectrumShape(fft.TablesView(), segment, num);
    var bytes := NarrowSpectrum(spectrum.value, n, num);
    return Ok(bytes[..]);
  }

  /**
   * onmessage({channelDataBuffer, fftSize}): the frames it posts, or the error calculateSpectrum
   * throws on the first segment when fftSize is not a power of two.
   */
  method AnalyzeFrequenciesOverTime(channelData: seq<real>, fftSize: nat, num: Numerics)
    returns (r: Result<seq<seq<int>>, Error>)
    requires fftSize > 0
    ensures IsPow2(fftSize) || FrameCount(|channelData|, fftSize) == 0 ==>
      r == Ok(FreqData(channelData, fftSize, num))
    ensures !IsPow2(fftSize) && FrameCount(|channelData|, fftSize) > 0 ==> r == Err(InvalidBufferSize)
  {
    var n := fftSize;
    var fft := new FFT(n, num);
    var freqData: seq<seq<int>> := [];
    var currentOffset := 0;
    while currentOffset + n < |channelData|
      invariant fft.Valid() && fft.bufferSize == n && fft.num == num
      invariant currentOffset == Offset(|freqData|, n) && |freqData| <= FrameCount(|channelData|, n)
      invariant |freqData| > 0 ==> IsPow2(n) && FramesSoFar(freqData, channelData, n, num)
      decreases |channelData| - currentOffset
    {
      var m := |freqData|;
      FrameCountTakes(|channelData|, n, m);
      var frame := TransformSegment(fft, channelData, currentOffset, m, num);
      if frame.Err? {
        return Err(frame.error);
      }
      var segmentNumber := (currentOffset + n) / n - 1;
      assert segmentNumber == m by {  // so `freqData[segmentNumber] = array` appends
        SegmentNumber(currentOffset, m, n);
      }
      FramesSoFarAppend(freqData, frame.value, channelData, n, num);
      freqData := freqData + [frame.value];
      currentOffset := currentOffset + n;
    }
    FrameCountTakes(|channelData|, n, |freqData|);
    assert |freqData| == FrameCount(|channelData|, n);
    if IsPow2(n) || |freqData| == 0 {
      assert forall k :: 0 <= k < |freqData| ==> freqData[k] == FrameAt(channelData, n, k, num);
      assert freqData == FreqData(channelData, n, num);
    }
    return Ok(freqData);
  }
}
