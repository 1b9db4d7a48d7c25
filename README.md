# Spectrogram renderer: integer and index structure, in Dafny

This project models the parts of the spectrogram renderer that are about indices, lists and
state rather than floating-point values:

- **FFT.js.** The `FFT` class and the worker entry `onmessage`.
  - The constructor fills the bit-reversal table with the doubling `limit`/`bit` loop.
  - `calculateSpectrum` runs its two guards, then the windowed bit-reversal permutation, then the
    radix-2 butterfly stages in place on `real`/`imag`, then the N/2 magnitudes and the running
    `peak`.
  - `onmessage` cuts the channel data into consecutive N-sample segments and narrows each spectrum
    into a `Uint8Array`.
- **spectrogram.js.** The `Spectrogram` renderer.
  - `draw`, `drawPlayhead`, `stopDrawingPlayhead` and `clear`.
  - The `_draw` segment/column loop, `_drawPayhead`, `_getXPositionOfPlayhead` and `_getColor`.
  - The `drawOrder` array, holes included.
- **modules/LayeredCanvas.js.** The layer stack: `registerLayer` (a `splice` insertion),
  `drawLayers`, `clear` and `#initializeLayer`.
- **modules/Playhead/Playhead.js.** The playhead's idle/tracking state machine, driven by
  `#requestId`, and its column formula.

Canvases are surfaces that record the operations painted on them (`Surfaces.Surface`). The base
canvas records clears and composites (`Surfaces.BaseOp`). `requestAnimationFrame` and
`cancelAnimationFrame` are a scheduler that holds the set of pending request ids
(`Surfaces.FrameScheduler`).

The window, the twiddle tables, the square root and the decibel scaling are functions passed in
as a `Numerics` value. The butterflies are modelled exactly, on `real`, with those tables. No
numeric property of the transform is claimed.

Where a description of this code and the code itself disagree, the model follows the code:

- A silent bin is stored as 1, not 0: -255 wraps modulo 256 (`Segmentation.SilenceIsOne`).
- A buffer of exactly m·N samples gives m − 1 frames, not m: the loop bound is strict
  (`Segmentation.FrameCountOfMultiple`).
- The power-of-two check runs on every `calculateSpectrum` call, not at construction, and it
  accepts a size of 0.
- `stopDrawingPlayhead` throws (a TypeError) when there is no playhead layer. A second call in a
  row is therefore not a no-op, although it changes nothing.

## Model

| member | source | states |
|---|---|---|
| BitReversal.RevStep | FFT.js:52-54 | entry i + 2^j of the k-bit reversal is entry i plus 2^(k-1-j): the step `reverseTable[i + limit] = reverseTable[i] + bit` takes |
| BitReversal.RevBound | FFT.js:48-58 | every k-bit reversal is below 2^k |
| BitReversal.RevInvolution | FFT.js:48-58 | reversing twice gives the index back |
| BitReversal.RevTableIsPermutation | FFT.js:48-58 | the table for N = 2^k has entries below N, no two equal, every value below N present, and it is its own inverse |
| Fft.FFT.BitReverseTable | FFT.js:48-58 | the constructor's `limit`/`bit` loop leaves an N-entry table that, for N = 2^k, is exactly the k-bit reversal table |
| Fft.FFT.ReflectBlock | FFT.js:52-54 | the inner loop extends the correct first `limit` entries to the correct first 2·`limit` entries |
| Fft.FFT.constructor | FFT.js:31-65 | fresh window, twiddle and reversal tables of size N, built for any N; `peak` starts at 0 |
| Butterflies.FloorLog2 | FFT.js:84 | k = floor(log2 N) satisfies 2^k <= N < 2^(k+1) |
| Butterflies.PowerOfTwoCheckAccepts | FFT.js:84-88 | the guard `Math.pow(2, k) !== bufferSize` passes exactly for 0 and the powers of two |
| Butterflies.TablesFor | FFT.js:35-63 | the tables of an FFT of size 2^k all have 2^k entries, and every reversal entry is below 2^k |
| Butterflies.Permute | FFT.js:103-107 | the permuted arrays have N entries, `imag` is all zero, and every index read is a table entry |
| Butterflies.ButterflyTouchesPair | FFT.js:120-131 | a butterfly writes only positions i and off; their new values sum to twice the old value at i |
| Butterflies.BlockIndexIsAffine | FFT.js:117-133 | the m-th butterfly of step s sits at i = s + m·2·halfSize |
| Butterflies.BlockBounds | FFT.js:116-134 | the test `i < bufferSize` holds exactly for N / (2·halfSize) blocks, and while it holds, off = i + halfSize < N |
| Butterflies.HalfSizesOfPow2 | FFT.js:109-146 | for N = 2^k the stage loop runs exactly k − j stages from 2^j, with halfSize 2^j, 2^(j+1), … |
| Butterflies.PowersAreHalfSizes | FFT.js:93-145 | the halfSize values, from 1, are 1, 2, …, N/2 |
| Butterflies.Magnitudes | FFT.js:148-159 | the last loop computes ceil(N/2) magnitudes (it bounds i by the float N/2) |
| Butterflies.SpectrumShape | FFT.js:148-160 | the spectrum has N/2 entries; with a non-negative square root every magnitude is >= 0 |
| Fft.MaxOfUnique | FFT.js:155-157 | the running maximum of `peak` over the magnitudes is uniquely determined |
| Fft.FFT.CalculateSpectrum | FFT.js:67-161 | a size that is neither 0 nor a power of two gives InvalidBufferSize; a wrong segment length gives SegmentSizeMismatch; both leave `peak` unchanged. Otherwise the result is the spectrum of the permuted, staged segment, `peak` is the running maximum over every magnitude computed (never lower than before), and the stages ran with halfSize 1, 2, …, N/2 |
| Fft.FFT.PermuteWindowed | FFT.js:103-107 | the first loop fills `real`/`imag` with the windowed, bit-reversed segment |
| Fft.FFT.RunStages | FFT.js:109-146 | the stage loop leaves the arrays equal to all k stages of butterflies and runs with halfSize 1, 2, …, N/2 |
| Fft.FFT.ButterflyStage | FFT.js:110-143 | one stage: each fftStep is a full column of butterflies with the phasor after fftStep rotations |
| Fft.FFT.ButterflyColumn | FFT.js:117-134 | the innermost loop performs exactly the N / (2·halfSize) butterflies of one step |
| Fft.FFT.ButterflyAt | FFT.js:120-131 | the loop body is one butterfly on (i, off) |
| Fft.FFT.SpectrumFrom | FFT.js:148-160 | the spectrum is the first N/2 magnitudes, and `peak` is the running maximum over all of them |
| Segmentation.OffsetIsProduct | FFT.js:20 | after k steps of `currentOffset += fftSize`, the offset is k·N |
| Segmentation.FrameCountMeaning | FFT.js:7 | segment k is taken exactly when (k+1)·N < length |
| Segmentation.FrameCountOfMultiple | FFT.js:7 | a buffer of exactly m·N samples yields m − 1 frames |
| Segmentation.SegmentNumber | FFT.js:17 | at the offset of segment m, `((offset + N) / N) - 1` is m, so frames are stored at 0, 1, 2, … |
| Segmentation.Segment | FFT.js:8-11 | each slice is exactly N samples long |
| Segmentation.SegmentsTile | FFT.js:6-20 | the first m slices, concatenated, are the first m·N samples |
| Segmentation.FramesCoverData | FFT.js:6-21 | the slices taken tile the data from 0 and leave between 1 and N samples unprocessed |
| Segmentation.Trunc | FFT.js:15 | truncation toward zero |
| Segmentation.ToUint8 | FFT.js:15 | a Uint8Array store: NaN gives 0, otherwise the truncated value modulo 256 (no clamping) |
| Segmentation.Level | FFT.js:15 | `Math.max(-255, …)` of the log level: NaN for a negative magnitude, -255 for silence, never below -255 |
| Segmentation.Intensity | FFT.js:15 | every stored byte is in 0..255 |
| Segmentation.SilenceIsOne | FFT.js:15 | a silent bin is stored as 1 |
| Segmentation.NegativeLevelsWrap | FFT.js:15 | levels -255..-1 are stored as 256 plus the truncated level, so they keep their order |
| Segmentation.Frame | FFT.js:13-16 | a frame has one byte per spectrum bin |
| Segmentation.FreqData | FFT.js:5-22 | the posted array has one frame per segment the loop takes |
| Segmentation.FrameAtLength | FFT.js:13 | each frame holds N/2 bytes |
| Segmentation.FramesSoFarAppend | FFT.js:17-18 | storing at `segmentNumber` appends the next frame |
| Segmentation.FreqDataShape | FFT.js:13-16 | every frame holds N/2 values, each in 0..255 |
| Segmentation.NarrowSpectrum | FFT.js:13-16 | the inner loop fills a fresh `Uint8Array(N/2)` with the narrowed spectrum |
| Segmentation.TransformSegment | FFT.js:8-16 | one loop pass: the frame of segment m, or InvalidBufferSize when N is not a power of two |
| Segmentation.AnalyzeFrequenciesOverTime | FFT.js:2-23 | `onmessage` posts exactly FreqData (one frame per segment, contiguous from 0), or fails with InvalidBufferSize on the first segment when N is not a power of two |
| LayerStack.SpliceStart | modules/LayeredCanvas.js:59 | splice's start index: a negative index counts from the end, and the result is clamped to [0, length] |
| LayerStack.InsertPlaces | modules/LayeredCanvas.js:59 | inserting grows the list by one, places the layer at p and keeps the others in order; removing it gives the old list |
| LayerStack.BlitsInOrder | modules/LayeredCanvas.js:67-71 | the i-th composite is the i-th layer |
| LayerStack.BlitsEachOnce | modules/LayeredCanvas.js:67-71 | with distinct layers, each layer is composited exactly once and nothing else is |
| LayerStack.LayeredCanvas.constructor | modules/LayeredCanvas.js:22-25 | no layers and nothing drawn yet |
| LayerStack.LayeredCanvas.InitializeLayer | modules/LayeredCanvas.js:45-50 | a fresh canvas with the base canvas's width and height |
| LayerStack.LayeredCanvas.RegisterLayer | modules/LayeredCanvas.js:57-61 | a new layer spliced in at the clamped index; the list grows by one; the count of layers equals the count of registerLayer calls |
| LayerStack.LayeredCanvas.Clear | modules/LayeredCanvas.js:38-43 | every layer gets one full-size clear, the base canvas is cleared last, and no layer is added, removed or moved |
| LayerStack.LayeredCanvas.DrawLayers | modules/LayeredCanvas.js:67-71 | the base canvas receives one composite per layer, in list order |
| LayerStack.LayeredCanvas.PaintLayer | modules/Playhead/Playhead.js:60-61 | a drawing call on a layer context records the operation on that layer only |
| LayerStack.LayeredCanvas.ClearLayer | modules/Playhead/Playhead.js:59 | clears the one layer the playhead passes, and nothing else |
| Surfaces.FrameScheduler.Request | modules/Playhead/Playhead.js:55 | `requestAnimationFrame` returns a fresh, non-zero id, which is now pending |
| Surfaces.FrameScheduler.Cancel | modules/Playhead/Playhead.js:67 | `cancelAnimationFrame` removes the id from the pending requests; it does nothing for an id that is not pending |
| PlayheadTracking.PlayheadColumn | modules/Playhead/Playhead.js:74-77 | x is the floor of currentTime · sampleRate / 1024 |
| PlayheadTracking.PlayheadColumnMonotone | modules/Playhead/Playhead.js:74-77 | the column never moves left as time advances |
| PlayheadTracking.PlayheadColumnIsSegment | modules/Playhead/Playhead.js:74-77 | the column is k exactly when the current sample lies in [k·N, (k+1)·N) |
| PlayheadTracking.PlayheadColumnAtOneSecond | modules/Playhead/Playhead.js:74-77 | one second into 44.1 kHz audio the column is 43 |
| PlayheadTracking.Playhead.constructor | modules/Playhead/Playhead.js:36-47 | registers its own layer at draw index 1 (clamped) and starts idle |
| PlayheadTracking.Playhead.DrawPlayhead | modules/Playhead/Playhead.js:50-56 | while a request is pending, nothing changes; when idle, exactly one new request becomes pending. At most one redraw loop exists |
| PlayheadTracking.Playhead.PaintBar | modules/Playhead/Playhead.js:59-62 | the layer is cleared, then a white bar 1 pixel wide and as tall as the canvas is painted at x, then all layers are composited in order |
| PlayheadTracking.Playhead.Tick | modules/Playhead/Playhead.js:58-64 | a frame paints the bar at the playhead column and replaces the fired request with a new pending one, so tracking continues |
| PlayheadTracking.Playhead.TickAsWritten | modules/Playhead/Playhead.js:58-59 | as written, the frame throws at `clearLayer`: nothing is painted, the fired request is no longer pending while every other pending request stays, and `#requestId` keeps the fired id |
| PlayheadTracking.Playhead.PauseDrawingPlayhead | modules/Playhead/Playhead.js:66-69 | cancels the pending request, if any, and goes idle; a second pause changes nothing |
| PlayheadTracking.Playhead.OnEvent | modules/Playhead/Playhead.js:41-46 | `play` leaves the playhead tracking: an existing loop is kept unchanged, and from idle exactly one new request becomes pending. `pause` leaves it idle: the pending request is cancelled, and when idle nothing changes. After the loop as written has stalled, `play` keeps the dead id and `pause` recovers a consistent idle state |
| SpectrogramView.FftSizeIsPow2 | spectrogram.js:53 | `_FFT_SIZE` 1024 is 2^10 and passes the power-of-two guard |
| SpectrogramView.ToInt32 | spectrogram.js:168 | `index >> 0` wraps into the int32 range and is the identity within it |
| SpectrogramView.GetColor | spectrogram.js:167-175 | a colour exists exactly when the palette is non-empty; it is a palette entry, namely `colors[index]` whenever that entry exists, and entry 0 whenever `index >> 0` falls outside the palette |
| SpectrogramView.GetColorOfIntensity | spectrogram.js:44-46 | with 275 colours, every intensity 0..255 gets its own entry, and an int32 index outside the palette gets entry 0 |
| SpectrogramView.SetSlot | spectrogram.js:63 | `drawOrder[i] = layer` overwrites slot i, keeps the other slots, and pads with holes when the array is shorter |
| SpectrogramView.SpliceOutSecond | spectrogram.js:80 | `splice(1, 1)` removes exactly slot 1, keeps slot 0 and shifts the rest; it does nothing on a shorter array |
| SpectrogramView.Present | spectrogram.js:142-144 | `forEach` visits at most one layer per slot |
| SpectrogramView.PresentLayers | spectrogram.js:142-144 | a layer is composited exactly when some slot holds it; holes are skipped |
| SpectrogramView.SpectroFrames | spectrogram.js:95-104 | `_draw` narrows one 512-byte frame per segment its loop takes |
| SpectrogramView.ColumnOps | spectrogram.js:109-113 | one pixel per frequency bin of the frame |
| SpectrogramView.DrawnColumns | spectrogram.js:105-108 | `_draw` paints min(segments, width) columns: the loop stops before any column past the width |
| SpectrogramView.ColumnsLayout | spectrogram.js:105-113 | the painted operations come in blocks of N/2, and block k is frame k's column at x = k + 1 (rising by 1 per segment) |
| SpectrogramView.ColumnsBounds | spectrogram.js:109-113 | every operation is a 1×1 fill with 1 <= x <= number of frames and height − N/2 < y <= height |
| SpectrogramView.RenderOutcome | spectrogram.js:89-98 | whether `_draw` throws, given what its FFT was built from: a buffer of at most 1024 samples never reaches `calculateSpectrum`; otherwise an argument the power-of-two guard refuses gives InvalidBufferSize, an accepted size other than 1024 (0 included) gives SegmentSizeMismatch, and it passes exactly when the FFT was built for 1024 |
| SpectrogramView.RenderAsWrittenThrows | spectrogram.js:90 | as written (`new FFT(audioBuffer)`), `_draw` throws for every buffer longer than 1024 samples; with `new FFT(1024)` it never throws |
| SpectrogramView.PlayheadColumnOfSegment | spectrogram.js:127-130 | the playhead is at x = k exactly while the current sample is in segment k (`_draw` paints that segment at x = k + 1, see SpectrogramView.ColumnsLayout) |
| SpectrogramView.SegmentFrame | spectrogram.js:96-104 | one loop pass yields the frame of segment m |
| SpectrogramView.Spectrogram.constructor | spectrogram.js:28-54 | no audio, no layers, an empty draw order |
| SpectrogramView.Spectrogram.InitializeLayer | spectrogram.js:132-137 | a fresh canvas with the base canvas's width and height |
| SpectrogramView.Spectrogram.Clear | spectrogram.js:84-87 | clears the given layer, or the base canvas when none is given |
| SpectrogramView.Spectrogram.DrawLayers | spectrogram.js:139-145 | one composite per filled slot of the draw order, in order |
| SpectrogramView.Spectrogram.PaintColumn | spectrogram.js:109-113 | the inner loop paints exactly the column's pixels, bottom row first |
| SpectrogramView.Spectrogram.PaintFrames | spectrogram.js:95-115 | the loop paints exactly the columns of the first min(segments, width) frames |
| SpectrogramView.Spectrogram.PaintSegments | spectrogram.js:89-115 | the spectro layer gets those columns; no other layer changes |
| SpectrogramView.Spectrogram.Render | spectrogram.js:89-117 | `_draw` with an FFT of size 1024: the columns, then the layers composited |
| SpectrogramView.Spectrogram.ShowBackdrop | spectrogram.js:61-66 | keeps the buffer, reuses the spectro layer or creates it, puts it in slot 0, clears it and fills it with colour 0 |
| SpectrogramView.Spectrogram.DrawBuffer | spectrogram.js:61-68 | `draw` on an AudioBuffer, with `_draw` corrected to `new FFT(1024)` (see ## Findings, `Spectrogram.Render`): backdrop, then columns, on the one spectro layer in slot 0, then compositing |
| SpectrogramView.Spectrogram.Draw | spectrogram.js:56-69 | a non-AudioBuffer argument throws with nothing changed. Otherwise, with `_draw` corrected to `new FFT(1024)` (see ## Findings, `Spectrogram.Render`): the spectro layer is reused on repeat calls (created only the first time), it is slot 0, it receives the backdrop and the columns, and all layers are composited |
| SpectrogramView.Spectrogram.DrawPlayhead | spectrogram.js:71-75 | a fresh layer in slot 1, and its first frame requested |
| SpectrogramView.Spectrogram.TickPlayhead | spectrogram.js:119-125 | a frame clears the playhead layer, paints a yellow bar at the playhead column, composites, and requests the next frame. Without a playhead layer it clears the base canvas and throws; without audio it throws after the clear. On both failure paths the stored request ids are unchanged |
| SpectrogramView.Spectrogram.StopDrawingPlayhead | spectrogram.js:77-82 | cancels the playhead's request, forgets the layer, removes exactly slot 1 (slot 0 is kept) and composites. Without a playhead layer it throws and changes nothing |

## Left out

- Floating-point arithmetic, which the model leaves alone:
  - the Hann window, the sin/cos twiddle tables, the phasor values, `Math.sqrt` and the logarithm are parameters (`Numerics`);
  - samples and magnitudes are `real`;
  - Float32 rounding is not modelled;
  - no numeric property of the transform is claimed.
- The power-of-two guard on a fractional size (for example 0.5, which passes the float check) is not modelled: sizes are naturals.
- The 32-bit `<<` and `>>` in the constructor and the stage loop are plain doubling and halving: for the sizes the renderer uses, they never overflow.
- Segmentation.AnalyzeFrequenciesOverTime: requires fftSize > 0. With a size of 0 the worker's loop never ends on non-empty data.
- The default palette (`_generateDefaultColors`, spectrogram.js:147-165) and a user colour function: the palette is a parameter.
- `_result` and the width/height fallbacks of the Spectrogram constructor: the resulting width and height are parameters.
- Canvas pixels: layers record the operations painted on them, not pixels. A `fillStyle` assignment is recorded inside the fill that uses it.
  - Because only operations are recorded, a repeated `draw` is not shown to produce the same pixels; the model shows only that it clears and refills the same layer.
- `_draw` paints the spectro layer as a value and stores it back after the loop. Nothing in between can observe the difference.
- Timing of `requestAnimationFrame` callbacks: a callback runs when the caller fires a pending request.
  - Several loops started by repeated `drawPlayhead` calls on the renderer are tracked only through their request ids.
- `currentTime` and the sample rate are parameters.
  - modules/BufferedAudioData.js is not part of this model, and neither is the `getSampleRate()` call it lacks (Playhead.js:75).
  - Nor is the import path `'../BufferedAudioData/BufferedAudioData.js'` (Playhead.js:1), which does not match that file's location.
- Not part of this model: modules/PromisedWorker/PromisedWorker.js, example/scripts/main.js, modules/Utils.js, the UMD wrapper (spectrogram.js:1-15) and the `getCanvasWidth`/`getCanvasHeight` accessors (LayeredCanvas.js:27-33).
- The worker's `postMessage` and the typed-array buffer transfer: the posted array is the method's result.

## Findings

| source | as written | input that shows it | evidently intended | confidence | as-written member | corrected member |
|---|---|---|---|---|---|---|
| modules/Playhead/Playhead.js:59 | each frame calls `this.#layeredCanvas.clearLayer(...)`, which LayeredCanvas does not define, so it throws before painting or rescheduling | a `play` event, then the first animation frame | clear the playhead's own layer, paint the bar and request the next frame | high; not executed | PlayheadTracking.Playhead.TickAsWritten | PlayheadTracking.Playhead.Tick |
| spectrogram.js:90 | `new FFT(this._audio.buffer)` passes the AudioBuffer as the FFT size, so the power-of-two guard (`Math.pow(2, NaN) !== audioBuffer`, always true) throws on the first segment | `draw` with any AudioBuffer of more than 1024 samples | `new FFT(this._FFT_SIZE)` | high; not executed | SpectrogramView.RenderAsWrittenThrows | SpectrogramView.Spectrogram.Render |
