/**
 * spectrogram.js: the Spectrogram renderer. A spectro layer holds one column of pixels per
 * 1024-sample segment of the audio; an optional playhead layer holds a bar redrawn on every
 * animation frame; `drawOrder` lists the layers composited onto the visible canvas.
 */
module SpectrogramView {
  import opened Results
  import opened Surfaces
  import opened BitReversal
  import opened Butterflies
  import opened Fft
  import opened Segmentation
  import opened LayerStack
  import PlayheadTracking

  /** `this._FFT_SIZE`: samples per column. */
  const FFT_SIZE: nat := 1024

  /** 1024 = 2^10, so an FFT of this size passes the power-of-two guard. */
  lemma FftSizeIsPow2()
    ensures Pow2(10) == FFT_SIZE && IsPow2(FFT_SIZE) && Log2(FFT_SIZE) == 10
  {
    assert Pow2(10) == 1024;
    Log2Of(10);
  }

  // ---------------------------------------------------------------------------------------
  // `_getColor`

  /** The ToInt32 conversion `index >> 0` applies: wrap-around into [-2^31, 2^31). */
  function ToInt32(i: int): (r: int)
    ensures -0x8000_0000 <= r < 0x8000_0000
    ensures -0x8000_0000 <= i < 0x8000_0000 ==> r == i
    ensures (r - i) % 0x1_0000_0000 == 0
  {
    (i + 0x8000_0000) % 0x1_0000_0000 - 0x8000_0000
  }

  /**
   * `_getColor(index)`: the palette entry at `index >> 0`, or entry 0 when there is none there;
   * None is the `undefined` an empty palette yields.
   */
  function GetColor(colors: seq<Color>, index: int): (c: Option<Color>)
    ensures c.Some? <==> |colors| > 0
    ensures c.Some? ==> c.value in colors
    ensures 0 <= index < |colors| && index < 0x8000_0000 ==> c == Some(colors[index])
    ensures |colors| > 0 && !(0 <= ToInt32(index) < |colors|) ==> c == Some(colors[0])
  {
    var i := ToInt32(index);
    if 0 <= i < |colors| then Some(colors[i])
    else if 0 < |colors| then Some(colors[0])
    else None
  }

  /**
   * With the 275 colours the constructor asks for, every byte intensity 0..255 has its own
   * entry, and an index outside the palette falls back to entry 0.
   */
  lemma GetColorOfIntensity(colors: seq<Color>, index: int)
    requires |colors| == 275
    ensures 0 <= index <= 255 ==> GetColor(colors, index) == Some(colors[index])
    ensures -0x8000_0000 <= index < 0x8000_0000 && (index < 0 || 275 <= index) ==> GetColor(colors, index) == Some(colors[0])
  {
  }

  // ---------------------------------------------------------------------------------------
  // `this._layers.drawOrder`

  /** The draw order: a JavaScript array that may have holes (None). */
  type DrawOrder = seq<Option<LayerId>>

  /** `drawOrder[i] = layer`: slot i overwritten, the array padded with holes up to i if shorter. */
  function SetSlot(order: DrawOrder, i: nat, id: LayerId): (r: DrawOrder)
    ensures |r| == if i < |order| then |order| else i + 1
    ensures r[i] == Some(id)
    ensures forall j :: 0 <= j < |order| && j != i ==> r[j] == order[j]
    ensures forall j :: |order| <= j < i ==> r[j] == None
  {
    if i < |order| then order[i := Some(id)]
    else order + seq(i - |order|, _ => None) + [Some(id)]
  }

  /** `drawOrder.splice(1, 1)`: the second slot removed when there is one; slot 0 stays. */
  function SpliceOutSecond(order: DrawOrder): (r: DrawOrder)
    ensures |order| < 2 ==> r == order
    ensures |order| >= 2 ==> |r| == |order| - 1 && r[0] == order[0]
    ensures |order| >= 2 ==> forall j :: 1 <= j < |r| ==> r[j] == order[j + 1]
  {
    var p := SpliceStart(1, |order|);
    if p < |order| then RemoveAt(order, p) else order
  }

  /** The layers `forEach` visits: the filled slots, in order; holes are skipped. */
  function Present(order: DrawOrder): (ls: seq<LayerId>)
    ensures |ls| <= |order|
  {
    if order == [] then []
    else
      var last := order[|order| - 1];
      Present(order[..|order| - 1]) + (if last.Some? then [last.value] else [])
  }

  /** Exactly the layers in filled slots are composited. */
  lemma {:induction false} PresentLayers(order: DrawOrder, id: LayerId)
    ensures id in Present(order) <==> Some(id) in order
  {
    if order != [] {
      var init := order[..|order| - 1];
      PresentLayers(init, id);
      assert order == init + [order[|order| - 1]];
    }
  }

  /** Compositing one more slot composites one more layer, or nothing more for a hole. */
  lemma PresentBlitsStep(prior: seq<BaseOp>, order: DrawOrder, i: nat)
    requires i < |order|
    ensures order[i].Some? ==> prior + Blits(Present(order[..i])) + [Blit(order[i].value)] == prior + Blits(Present(order[..i + 1]))
    ensures order[i].None? ==> prior + Blits(Present(order[..i])) == prior + Blits(Present(order[..i + 1]))
  {
    var prefix := order[..i];
    assert order[..i + 1] == prefix + [order[i]];
    assert (prefix + [order[i]])[..|prefix|] == prefix;
    var ls := Present(prefix);
    if order[i].Some? {
      assert (ls + [order[i].value])[..|ls|] == ls;
    } else {
      assert ls + [] == ls;
    }
  }

  // ---------------------------------------------------------------------------------------
  // What `_draw` paints

  /**
   * The frames `_draw` narrows, one per segment its loop takes: the same frames the worker's
   * onmessage posts for a size of 1024.
   */
  ghost function SpectroFrames(data: seq<real>, num: Numerics): (fd: seq<seq<int>>)
    ensures |fd| == FrameCount(|data|, FFT_SIZE)
    ensures forall k :: 0 <= k < |fd| ==> |fd[k]| == FFT_SIZE / 2
  {
    FftSizeIsPow2();
    FreqDataShape(data, FFT_SIZE, num);
    FreqData(data, FFT_SIZE, num)
  }

  /** The inner loop of `_draw` for one frame at x = column: bin f is the pixel in row height - f. */
  function ColumnOps(frame: seq<int>, column: int, height: int, colors: seq<Color>): (ops: seq<PaintOp>)
    ensures |ops| == |frame|
  {
    seq(|frame|, f requires 0 <= f < |frame| => FillRect(GetColor(colors, frame[f]), column, height - f, 1, 1))
  }

  /** Everything `_draw` paints for a run of frames: frame k at column k + 1. */
  function PaintedColumns(frames: seq<seq<int>>, height: int, colors: seq<Color>): seq<PaintOp>
  {
    if frames == [] then []
    else PaintedColumns(frames[..|frames| - 1], height, colors) + ColumnOps(frames[|frames| - 1], |frames|, height, colors)
  }

  /** How many columns `_draw` paints: one per segment the loop takes, but none past the width. */
  function DrawnColumns(len: nat, n: nat, width: nat): (c: nat)
    requires n > 0
    ensures c <= width && c <= FrameCount(len, n)
    ensures c == width || c == FrameCount(len, n)
  {
    if FrameCount(len, n) < width then FrameCount(len, n) else width
  }

  lemma {:induction false} OffsetMonotone(j: nat, k: nat, n: nat)
    requires j <= k
    ensures Offset(j, n) <= Offset(k, n)
  {
    if j < k {
      OffsetMonotone(j, k - 1, n);
    }
  }

  /** A slice of a concatenation lies in one part when its bounds do. */
  lemma PrefixSlice<T>(xs: seq<T>, ys: seq<T>, i: nat, j: nat)
    requires i <= j <= |xs| + |ys|
    ensures j <= |xs| ==> (xs + ys)[i..j] == xs[i..j]
    ensures i == |xs| && j == |xs| + |ys| ==> (xs + ys)[i..j] == ys
  {
  }

  /** Frames of n bins paint n operations each. */
  lemma {:induction false} ColumnsLength(frames: seq<seq<int>>, n: nat, height: int, colors: seq<Color>)
    requires forall k :: 0 <= k < |frames| ==> |frames[k]| == n
    ensures |PaintedColumns(frames, height, colors)| == Offset(|frames|, n)
  {
    if frames != [] {
      ColumnsLength(frames[..|frames| - 1], n, height, colors);
    }
  }

  /** Operations Offset(k, n) to Offset(k, n) + n - 1 are frame k's column, painted at x = k + 1. */
  lemma {:induction false} ColumnAt(frames: seq<seq<int>>, n: nat, height: int, colors: seq<Color>, k: nat)
    requires forall j :: 0 <= j < |frames| ==> |frames[j]| == n
    requires k < |frames|
    ensures Offset(k, n) + n <= |PaintedColumns(frames, height, colors)|
    ensures PaintedColumns(frames, height, colors)[Offset(k, n)..Offset(k, n) + n] == ColumnOps(frames[k], k + 1, height, colors)
  {
    var m := |frames|;
    var init := frames[..m - 1];
    var last := ColumnOps(frames[m - 1], m, height, colors);
    var before := PaintedColumns(init, height, colors);
    assert PaintedColumns(frames, height, colors) == before + last;
    ColumnsLength(init, n, height, colors);
    var a := Offset(k, n);
    assert Offset(k + 1, n) == a + n;
    if k < m - 1 {
      ColumnAt(init, n, height, colors, k);
      assert init[k] == frames[k];
      PrefixSlice(before, last, a, a + n);
    } else {
      PrefixSlice(before, last, a, a + n);
    }
  }

  /**
   * The layout of the spectro layer for frames of n bins: operations Offset(k, n) to
   * Offset(k, n) + n - 1 are frame k's column, painted at x = k + 1.
   */
  lemma ColumnsLayout(frames: seq<seq<int>>, n: nat, height: int, colors: seq<Color>)
    requires forall k :: 0 <= k < |frames| ==> |frames[k]| == n
    ensures |PaintedColumns(frames, height, colors)| == Offset(|frames|, n)
    ensures forall k :: 0 <= k < |frames| ==>
      && Offset(k, n) + n <= |PaintedColumns(frames, height, colors)|
      && PaintedColumns(frames, height, colors)[Offset(k, n)..Offset(k, n) + n] == ColumnOps(frames[k], k + 1, height, colors)
  {
    ColumnsLength(frames, n, height, colors);
    forall k | 0 <= k < |frames|
      ensures && Offset(k, n) + n <= |PaintedColumns(frames, height, colors)|
              && PaintedColumns(frames, height, colors)[Offset(k, n)..Offset(k, n) + n] == ColumnOps(frames[k], k + 1, height, colors)
    {
      ColumnAt(frames, n, height, colors, k);
    }
  }

  /** Painting one more column after the columns of some frames paints the columns of one more frame. */
  lemma ExtendColumns(start: Surface, frames: seq<seq<int>>, frame: seq<int>, height: int, colors: seq<Color>)
    ensures AppendOps(AppendOps(start, PaintedColumns(frames, height, colors)), ColumnOps(frame, |frames| + 1, height, colors))
      == AppendOps(start, PaintedColumns(frames + [frame], height, colors))
  {
    assert (frames + [frame])[..|frames|] == frames;
    AppendOpsConcat(start, PaintedColumns(frames, height, colors), ColumnOps(frame, |frames| + 1, height, colors));
  }

  /**
   * Every operation on the spectro layer is a one-pixel fill in columns 1..|frames| and in the n
   * rows ending at height: nothing is painted left of column 1 or right of the last frame's column.
   */
  lemma {:induction false} ColumnsBounds(frames: seq<seq<int>>, n: nat, height: int, colors: seq<Color>)
    requires forall k :: 0 <= k < |frames| ==> |frames[k]| <= n
    ensures forall op :: op in PaintedColumns(frames, height, colors) ==>
      && op.FillRect? && 1 <= op.x <= |frames| && height - n < op.y <= height
      && op.w == 1 && op.h == 1
  {
    if frames != [] {
      ColumnsBounds(frames[..|frames| - 1], n, height, colors);
    }
  }

  // ---------------------------------------------------------------------------------------
  // The renderer

  /** An AudioBuffer: the samples of channel 0 and the sample rate. */
  datatype AudioBuffer = AudioBuffer(channel0: seq<real>, sampleRate: real)

  /** What `toString.call(audioBuffer)` tells `draw` about its argument. */
  datatype Argument = AudioBufferArg(buffer: AudioBuffer) | OtherArg

  /** What `new FFT(x)` receives: a size, or (as `_draw` is written) the AudioBuffer itself. */
  datatype FftArgument = Size(n: nat) | BufferObject

  /**
   * The size guard of calculateSpectrum on what the constructor stored. For an AudioBuffer,
   * `Math.log` of the object is NaN, so `Math.pow(2, k)` is NaN; `!==` converts neither side, and
   * NaN is never strictly equal to an object, so the guard throws.
   */
  predicate GuardAccepts(size: FftArgument) {
    match size
    case Size(n) => SizeAccepted(n)
    case BufferObject => false
  }

  /**
   * The outcome of `_draw` on a buffer, given what its FFT was built from: the loop cuts segments
   * of this._FFT_SIZE samples, so the first `calculateSpectrum`, when there is one, checks the
   * power-of-two guard and then that the FFT was built for exactly that segment length.
   */
  function RenderOutcome(size: FftArgument, buffer: AudioBuffer): (r: Outcome<Error>)
    ensures FrameCount(|buffer.channel0|, FFT_SIZE) == 0 ==> r == Pass
    ensures FrameCount(|buffer.channel0|, FFT_SIZE) > 0 && !GuardAccepts(size) ==> r == Fail(InvalidBufferSize)
    ensures FrameCount(|buffer.channel0|, FFT_SIZE) > 0 && GuardAccepts(size) && size.n != FFT_SIZE ==>
      r == Fail(SegmentSizeMismatch)
    ensures r == Pass <==> FrameCount(|buffer.channel0|, FFT_SIZE) == 0 || size == Size(FFT_SIZE)
  {
    FftSizeIsPow2();
    PowerOfTwoCheckAccepts(FFT_SIZE);
    if FrameCount(|buffer.channel0|, FFT_SIZE) == 0 then Pass
    else if !GuardAccepts(size) then Fail(InvalidBufferSize)
    else if size.n != FFT_SIZE then Fail(SegmentSizeMismatch)
    else Pass
  }

  /**
   * As written (`new FFT(this._audio.buffer)`), `draw` throws on every buffer longer than 1024
   * samples; built for this._FFT_SIZE, as the rest of the renderer assumes, it never throws.
   */
  lemma RenderAsWrittenThrows(buffer: AudioBuffer)
    ensures |buffer.channel0| > FFT_SIZE ==> RenderOutcome(BufferObject, buffer) == Fail(InvalidBufferSize)
    ensures RenderOutcome(Size(FFT_SIZE), buffer) == Pass
  {
    FrameCountMeaning(|buffer.channel0|, FFT_SIZE, 0);
    FftSizeIsPow2();
    PowerOfTwoCheckAccepts(FFT_SIZE);
  }

  /** The playhead sits in column k exactly while the current sample lies in segment k. */
  lemma PlayheadColumnOfSegment(currentTime: real, buffer: AudioBuffer, k: nat)
    requires k as real * 1024.0 <= currentTime * buffer.sampleRate < (k + 1) as real * 1024.0
    ensures PlayheadTracking.PlayheadColumn(currentTime, buffer.sampleRate, FFT_SIZE) == k
  {
    PlayheadTracking.PlayheadColumnIsSegment(currentTime, buffer.sampleRate, FFT_SIZE, k);
  }

  lemma PrefixSnoc<T>(xs: seq<T>, m: nat)
    requires m < |xs|
    ensures xs[..m + 1] == xs[..m] + [xs[m]]
  {
  }

  /** One pass of the `_draw` loop before painting: segment m's frame, computed by the FFT. */
  method SegmentFrame(fft: FFT, channelData: seq<real>, offset: nat, ghost m: nat, num: Numerics) returns (frame: seq<int>)
    requires fft.Valid() && fft.bufferSize > 0 && IsPow2(fft.bufferSize) && fft.num == num
    requires m < FrameCount(|channelData|, fft.bufferSize) && offset == Offset(m, fft.bufferSize)
    modifies fft`peak
    ensures fft.Valid()
    ensures m < |FreqData(channelData, fft.bufferSize, num)| && frame == FreqData(channelData, fft.bufferSize, num)[m]
  {
    var r := TransformSegment(fft, channelData, offset, m, num);
    frame := r.value;
  }

  class Spectrogram {
    /** The base canvas's width and height after the constructor. */
    const width: nat
    const height: nat
    /** `this._colors`. */
    const colors: seq<Color>
    const scheduler: FrameScheduler
    /** `this._audio.buffer`. */
    var audio: Option<AudioBuffer>
    /** `this._layers.spectro` and `this._layers.playhead`. */
    var spectro: Option<LayerId>
    var playhead: Option<LayerId>
    /** The `requestId` property stored on a layer context. */
    var requestIds: map<LayerId, nat>
    /** `this._layers.drawOrder`. */
    var drawOrder: DrawOrder
    /** The offscreen canvas behind each context `_initializeLayer` created. */
    var surfaces: map<LayerId, Surface>
    var nextId: nat
    /** What has been done to the base canvas context, oldest first. */
    var baseOps: seq<BaseOp>

    /** Every layer named anywhere exists; a playhead layer has its request id. */
    ghost predicate Valid()
      reads this`spectro, this`playhead, this`requestIds, this`drawOrder, this`surfaces, this`nextId, scheduler
    {
      && scheduler.Valid()
      && (forall id :: id in surfaces ==> id < nextId)
      && (spectro.Some? ==> spectro.value in surfaces)
      && (playhead.Some? ==> playhead.value in surfaces && playhead.value in requestIds)
      && (forall i :: 0 <= i < |drawOrder| && drawOrder[i].Some? ==> drawOrder[i].value in surfaces)
    }

    /** `new Spectrogram(canvas, audioContext, options)`: no layers, no audio yet. */
    constructor (width: nat, height: nat, colors: seq<Color>, scheduler: FrameScheduler)
      requires scheduler.Valid()
      ensures Valid()
      ensures this.width == width && this.height == height && this.colors == colors && this.scheduler == scheduler
      ensures audio == None && spectro == None && playhead == None && drawOrder == []
      ensures surfaces == map[] && baseOps == [] && requestIds == map[]
    {
      this.width := width;
      this.height := height;
      this.colors := colors;
      this.scheduler := scheduler;
      audio := None;
      spectro := None;
      playhead := None;
      requestIds := map[];
      drawOrder := [];
      surfaces := map[];
      nextId := 0;
      baseOps := [];
    }

    /** `_initializeLayer()`: a fresh blank canvas of the base canvas's size. */
    method InitializeLayer() returns (id: LayerId)
      requires Valid()
      modifies this`surfaces, this`nextId
      ensures Valid()
      ensures id !in old(surfaces) && surfaces == old(surfaces)[id := Surface(width, height, [])]
    {
      id := nextId;
      nextId := nextId + 1;
      surfaces := surfaces[id := Surface(width, height, [])];
    }

    /** `clear(context)`: clears the given layer, or the base canvas when there is none. */
    method Clear(target: Option<LayerId>)
      requires Valid() && (target.Some? ==> target.value in surfaces)
      modifies this`surfaces, this`baseOps
      ensures Valid()
      ensures target.Some? ==>
        && baseOps == old(baseOps)
        && surfaces == old(surfaces)[target.value := Painted(old(surfaces)[target.value], ClearRect(0, 0, width, height))]
      ensures target.None? ==> surfaces == old(surfaces) && baseOps == old(baseOps) + [ClearBase(width, height)]
    {
      match target
      case Some(id) => surfaces := surfaces[id := Painted(surfaces[id], ClearRect(0, 0, width, height))];
      case None => baseOps := baseOps + [ClearBase(width, height)];
    }

    /** `_drawLayers()`: each layer of the draw order composited onto the base canvas, in order. */
    method DrawLayers()
      requires Valid()
      modifies this`baseOps
      ensures Valid() && baseOps == old(baseOps) + Blits(Present(drawOrder))
    {
      for i := 0 to |drawOrder|
        invariant baseOps == old(baseOps) + Blits(Present(drawOrder[..i]))
      {
        var slot := drawOrder[i];
        PresentBlitsStep(old(baseOps), drawOrder, i);
        if slot.Some? {
          baseOps := baseOps + [Blit(slot.value)];
        }
      }
      assert drawOrder[..|drawOrder|] == drawOrder;
    }

    /** The inner loop of `_draw`: one pixel per frequency bin at x = column, from the bottom row up. */
    method PaintColumn(layer: Surface, frame: seq<int>, column: int) returns (painted: Surface)
      ensures painted == AppendOps(layer, ColumnOps(frame, column, height, colors))
    {
      painted := layer;
      ghost var ops := ColumnOps(frame, column, height, colors);
      AppendOpsConcat(layer, [], []);
      assert ops[..0] == [];
      for f := 0 to |frame|
        invariant painted == AppendOps(layer, ops[..f])
      {
        var value := frame[f];
        var pixel := FillRect(GetColor(colors, value), column, height - f, 1, 1);
        assert ops[..f + 1] == ops[..f] + [pixel];
        PaintedAfterBatch(layer, ops[..f], pixel);
        painted := Painted(painted, pixel);
      }
      assert ops[..|frame|] == ops;
    }

    /**
     * The loop of `_draw()`: the frame of segment k is painted at column k + 1 for as long as
     * that column is within the width.
     */
    method PaintFrames(fft: FFT, num: Numerics, channelData: seq<real>, layer: Surface) returns (painted: Surface)
      requires fft.Valid() && fft.bufferSize > 0 && IsPow2(fft.bufferSize) && fft.num == num
      modifies fft`peak
      ensures painted == AppendOps(layer, PaintedColumns(
        FreqData(channelData, fft.bufferSize, num)[..DrawnColumns(|channelData|, fft.bufferSize, width)],
        height, colors))
    {
      var n := fft.bufferSize;
      var currentOffset := 0;
      ghost var all := FreqData(channelData, n, num);
      ghost var m: nat := 0;
      painted := layer;
      AppendOpsConcat(layer, [], []);
      assert all[..0] == [];
      while currentOffset + n < |channelData|
        invariant fft.Valid() && fft.bufferSize == n && fft.num == num
        invariant currentOffset == Offset(m, n) && m <= |all| && m <= width
        invariant painted == AppendOps(layer, PaintedColumns(all[..m], height, colors))
        decreases |channelData| - currentOffset
        modifies fft`peak
      {
        FrameCountTakes(|channelData|, n, m);
        var frame := SegmentFrame(fft, channelData, currentOffset, m, num);
        var segmentNumber := (currentOffset + n) / n;
        assert segmentNumber == m + 1 by {
          SegmentNumber(currentOffset, m, n);
        }
        if segmentNumber > width {
          break;
        }
        painted := PaintColumn(painted, frame, segmentNumber);
        ExtendColumns(layer, all[..m], frame, height, colors);
        PrefixSnoc(all, m);
        currentOffset := currentOffset + n;
        m := m + 1;
      }
      assert m == DrawnColumns(|channelData|, n, width) by {
        FrameCountTakes(|channelData|, n, m);
      }
    }

    /**
     * `_draw()` up to the compositing: the spectro layer gets the columns. It is painted as a
     * value and stored back at the end, which nothing in between can observe.
     */
    method PaintSegments(fft: FFT, num: Numerics)
      requires Valid() && audio.Some? && spectro.Some?
      requires fft.Valid() && fft.bufferSize > 0 && IsPow2(fft.bufferSize) && fft.num == num
      modifies this`surfaces, fft`peak
      ensures Valid()
      ensures surfaces == old(surfaces)[spectro.value := AppendOps(old(surfaces)[spectro.value], PaintedColumns(
        FreqData(audio.value.channel0, fft.bufferSize, num)[..DrawnColumns(|audio.value.channel0|, fft.bufferSize, width)],
        height, colors))]
    {
      var s := spectro.value;
      var layer := PaintFrames(fft, num, audio.value.channel0, surfaces[s]);
      surfaces := surfaces[s := layer];
    }

    /** `_draw()`, with the FFT built for this._FFT_SIZE: the columns, then the layers composited. */
    method Render(num: Numerics)
      requires Valid() && audio.Some? && spectro.Some?
      modifies this`surfaces, this`baseOps
      ensures Valid()
      ensures surfaces == old(surfaces)[spectro.value := AppendOps(old(surfaces)[spectro.value],
        PaintedColumns(SpectroFrames(audio.value.channel0, num)[..DrawnColumns(|audio.value.channel0|, FFT_SIZE, width)], height, colors))]
      ensures baseOps == old(baseOps) + Blits(Present(drawOrder))
    {
      FftSizeIsPow2();
      var fft := new FFT(FFT_SIZE, num);
      PaintSegments(fft, num);
      DrawLayers();
    }

    /** What `draw` paints on the spectro layer before the columns: a clear, then colour 0 everywhere. */
    function Backdrop(): (ops: seq<PaintOp>)
    {
      [ClearRect(0, 0, width, height), FillRect(GetColor(colors, 0), 0, 0, width, height)]
    }

    /**
     * The part of `draw` before `_draw`: keep the buffer, reuse the spectro layer (creating it on
     * the first call), put it in slot 0, clear it and fill it with colour 0.
     */
    method ShowBackdrop(buffer: AudioBuffer)
      requires Valid()
      modifies this`audio, this`spectro, this`drawOrder, this`surfaces, this`nextId
      ensures Valid() && audio == Some(buffer) && spectro.Some?
      ensures old(spectro).Some? ==> spectro == old(spectro)
      ensures old(spectro).None? ==> spectro.value !in old(surfaces)
      ensures drawOrder == SetSlot(old(drawOrder), 0, spectro.value)
      ensures surfaces == old(surfaces)[spectro.value := AppendOps(
        if old(spectro).Some? then old(surfaces)[spectro.value] else Surface(width, height, []), Backdrop())]
    {
      audio := Some(buffer);
      if spectro.None? {
        var id := InitializeLayer();
        spectro := Some(id);
      }
      var s := spectro.value;
      drawOrder := SetSlot(drawOrder, 0, s);
      ghost var blank := surfaces[s];
      surfaces := surfaces[s := Painted(surfaces[s], ClearRect(0, 0, width, height))];
      surfaces := surfaces[s := Painted(surfaces[s], FillRect(GetColor(colors, 0), 0, 0, width, height))];
      assert surfaces[s] == AppendOps(blank, Backdrop());
    }

    /** `draw(audioBuffer)` once the argument is known to be an audio buffer, with `_draw` corrected to `new FFT(1024)`. */
    method DrawBuffer(buffer: AudioBuffer, num: Numerics)
      requires Valid()
      modifies this`audio, this`spectro, this`drawOrder, this`surfaces, this`nextId, this`baseOps
      ensures Valid() && audio == Some(buffer) && spectro.Some?
      ensures old(spectro).Some? ==> spectro == old(spectro)
      ensures old(spectro).None? ==> spectro.value !in old(surfaces)
      ensures drawOrder == SetSlot(old(drawOrder), 0, spectro.value)
      ensures surfaces == old(surfaces)[spectro.value := AppendOps(
        if old(spectro).Some? then old(surfaces)[spectro.value] else Surface(width, height, []),
        Backdrop() + PaintedColumns(SpectroFrames(buffer.channel0, num)[..DrawnColumns(|buffer.channel0|, FFT_SIZE, width)], height, colors))]
      ensures baseOps == old(baseOps) + Blits(Present(drawOrder))
    {
      ghost var base := if spectro.Some? then surfaces[spectro.value] else Surface(width, height, []);
      ghost var cols := PaintedColumns(SpectroFrames(buffer.channel0, num)[..DrawnColumns(|buffer.channel0|, FFT_SIZE, width)], height, colors);
      ShowBackdrop(buffer);
      Render(num);
      AppendOpsConcat(base, Backdrop(), cols);
    }

    /**
     * `draw(audioBuffer)`: refuses anything but an AudioBuffer, changing nothing. Otherwise it shows
     * the backdrop on the spectro layer in slot 0, paints the columns and composites the layers,
     * with `_draw` corrected to `new FFT(1024)` (see Render and RenderAsWrittenThrows).
     */
    method Draw(arg: Argument, num: Numerics) returns (r: Outcome<Error>)
      requires Valid()
      modifies this`audio, this`spectro, this`drawOrder, this`surfaces, this`nextId, this`baseOps
      ensures Valid()
      ensures arg.OtherArg? ==>
        && r == Fail(NotAnAudioBuffer) && audio == old(audio) && spectro == old(spectro)
        && drawOrder == old(drawOrder) && surfaces == old(surfaces) && baseOps == old(baseOps)
      ensures arg.AudioBufferArg? ==> r == Pass && audio == Some(arg.buffer) && spectro.Some?
      ensures arg.AudioBufferArg? && old(spectro).Some? ==> spectro == old(spectro)
      ensures arg.AudioBufferArg? && old(spectro).None? ==> spectro.value !in old(surfaces)
      ensures arg.AudioBufferArg? ==> drawOrder == SetSlot(old(drawOrder), 0, spectro.value)
      ensures arg.AudioBufferArg? ==>
        surfaces == old(surfaces)[spectro.value := AppendOps(
          if old(spectro).Some? then old(surfaces)[spectro.value] else Surface(width, height, []),
          Backdrop() + PaintedColumns(SpectroFrames(arg.buffer.channel0, num)[..DrawnColumns(|arg.buffer.channel0|, FFT_SIZE, width)], height, colors))]
      ensures arg.AudioBufferArg? ==> baseOps == old(baseOps) + Blits(Present(drawOrder))
    {
      if arg.OtherArg? {
        return Fail(NotAnAudioBuffer);
      }
      DrawBuffer(arg.buffer, num);
      r := Pass;
    }

    /** `drawPlayhead()`: a fresh playhead layer in slot 1 and its first frame requested. */
    method DrawPlayhead()
      requires Valid()
      modifies this`playhead, this`drawOrder, this`surfaces, this`nextId, this`requestIds, scheduler
      ensures Valid() && playhead.Some? && playhead.value !in old(surfaces)
      ensures surfaces == old(surfaces)[playhead.value := Surface(width, height, [])]
      ensures drawOrder == SetSlot(old(drawOrder), 1, playhead.value)
      ensures requestIds == old(requestIds)[playhead.value := requestIds[playhead.value]]
      ensures requestIds[playhead.value] !in old(scheduler.pending)
      ensures scheduler.pending == old(scheduler.pending) + {requestIds[playhead.value]}
    {
      var id := InitializeLayer();
      playhead := Some(id);
      drawOrder := SetSlot(drawOrder, 1, id);
      var request := scheduler.Request();
      requestIds := requestIds[id := request];
    }

    /**
     * `_drawPayhead()`, run when the host fires request `id`: clears the playhead layer (the base
     * canvas when there is none, and then throws), paints a yellow bar at the playhead column,
     * composites the layers and requests the next frame for the playhead layer.
     */
    method TickPlayhead(id: nat, currentTime: real) returns (r: Outcome<Error>)
      requires Valid() && id in scheduler.pending
      modifies this`surfaces, this`baseOps, this`requestIds, scheduler
      ensures Valid()
      ensures playhead.None? ==>
        && r == Fail(NoPlayheadLayer) && surfaces == old(surfaces)
        && baseOps == old(baseOps) + [ClearBase(width, height)] && scheduler.pending == old(scheduler.pending) - {id}
        && requestIds == old(requestIds)
      ensures playhead.Some? && audio.None? ==>
        && r == Fail(NoAudioBuffer) && baseOps == old(baseOps) && requestIds == old(requestIds)
        && surfaces == old(surfaces)[playhead.value := Painted(old(surfaces)[playhead.value], ClearRect(0, 0, width, height))]
        && scheduler.pending == old(scheduler.pending) - {id}
      ensures playhead.Some? && audio.Some? ==>
        && r == Pass
        && surfaces == old(surfaces)[playhead.value := Painted(Painted(old(surfaces)[playhead.value],
          ClearRect(0, 0, width, height)),
          FillRect(Some("yellow"), PlayheadTracking.PlayheadColumn(currentTime, audio.value.sampleRate, FFT_SIZE), 0, 1, height))]
        && baseOps == old(baseOps) + Blits(Present(drawOrder))
        && requestIds == old(requestIds)[playhead.value := requestIds[playhead.value]]
        && requestIds[playhead.value] !in old(scheduler.pending)
        && scheduler.pending == old(scheduler.pending) - {id} + {requestIds[playhead.value]}
    {
      scheduler.Fire(id);
      Clear(playhead);
      if playhead.None? {
        return Fail(NoPlayheadLayer);
      }
      var p := playhead.value;
      if audio.None? {
        return Fail(NoAudioBuffer);
      }
      var x := PlayheadTracking.PlayheadColumn(currentTime, audio.value.sampleRate, FFT_SIZE);
      surfaces := surfaces[p := Painted(surfaces[p], FillRect(Some("yellow"), x, 0, 1, height))];
      DrawLayers();
      var next := scheduler.Request();
      requestIds := requestIds[p := next];
      r := Pass;
    }

    /**
     * `stopDrawingPlayhead()`: cancels the playhead's pending frame, forgets the playhead layer,
     * removes slot 1 of the draw order and composites what remains. Without a playhead layer it
     * throws at once and changes nothing.
     */
    method StopDrawingPlayhead() returns (r: Outcome<Error>)
      requires Valid()
      modifies this`playhead, this`drawOrder, this`baseOps, scheduler`pending
      ensures Valid()
      ensures old(playhead).None? ==>
        && r == Fail(NoPlayheadLayer) && playhead == None && drawOrder == old(drawOrder)
        && baseOps == old(baseOps) && scheduler.pending == old(scheduler.pending)
      ensures old(playhead).Some? ==>
        && r == Pass && playhead == None && drawOrder == SpliceOutSecond(old(drawOrder))
        && baseOps == old(baseOps) + Blits(Present(drawOrder))
        && scheduler.pending == old(scheduler.pending) - {requestIds[old(playhead).value]}
    {
      if playhead.None? {
        return Fail(NoPlayheadLayer);
      }
      scheduler.Cancel(requestIds[playhead.value]);
      playhead := None;
      drawOrder := SpliceOutSecond(drawOrder);
      DrawLayers();
      r := Pass;
    }
  }
}
