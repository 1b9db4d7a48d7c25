/**
 * modules/Playhead/Playhead.js: a vertical bar on its own layer of a LayeredCanvas, redrawn on
 * every animation frame while the audio plays. `#requestId` is the pending frame request: set,
 * the playhead is tracking; unset, it is idle.
 */
module PlayheadTracking {
  import opened Results
  import opened Surfaces
  import opened LayerStack

  /** BufferedAudioData.FFT_SIZE: samples per spectrogram column. */
  const FFT_SIZE: nat := 1024

  /**
   * The column under the playhead: Math.floor(currentTime * sampleRate / fftSize), i.e. the
   * index of the fftSize-sample segment that holds the current sample.
   */
  function PlayheadColumn(currentTime: real, sampleRate: real, fftSize: nat): (x: int)
    requires fftSize > 0
    ensures x as real <= currentTime * sampleRate / fftSize as real < x as real + 1.0
  {
    (currentTime * sampleRate / fftSize as real).Floor
  }

  lemma MulMonotoneReal(a: real, b: real, c: real)
    requires a <= b && 0.0 <= c
    ensures a * c <= b * c
  {
    assert b * c - a * c == (b - a) * c;
  }

  lemma MulStrictReal(a: real, b: real, c: real)
    requires a < b && 0.0 < c
    ensures a * c < b * c
  {
    assert b * c - a * c == (b - a) * c;
  }

  lemma DivMonotoneReal(a: real, b: real, c: real)
    requires a <= b && 0.0 < c
    ensures a / c <= b / c
  {
  }

  /** Dividing by a positive n compares as multiplying the other side by n. */
  lemma DivBounds(k: real, c: real, n: real)
    requires 0.0 < n
    ensures k <= c / n <==> k * n <= c
  {
    assert (c / n) * n == c;
    if k <= c / n {
      MulMonotoneReal(k, c / n, n);
    }
    if c / n < k {
      MulStrictReal(c / n, k, n);
    }
  }

  /** The column only moves right as playback time advances. */
  lemma PlayheadColumnMonotone(t1: real, t2: real, sampleRate: real, fftSize: nat)
    requires fftSize > 0 && t1 <= t2 && sampleRate >= 0.0
    ensures PlayheadColumn(t1, sampleRate, fftSize) <= PlayheadColumn(t2, sampleRate, fftSize)
  {
    var n := fftSize as real;
    MulMonotoneReal(t1, t2, sampleRate);
    DivMonotoneReal(t1 * sampleRate, t2 * sampleRate, n);
  }

  /**
   * A column is exactly the times whose sample index t * sampleRate lies in one segment
   * [k * fftSize, (k + 1) * fftSize).
   */
  lemma PlayheadColumnIsSegment(t: real, sampleRate: real, fftSize: nat, k: int)
    requires fftSize > 0
    ensures PlayheadColumn(t, sampleRate, fftSize) == k <==>
      k as real * fftSize as real <= t * sampleRate < (k + 1) as real * fftSize as real
  {
    var n := fftSize as real;
    var c := t * sampleRate;
    DivBounds(k as real, c, n);
    DivBounds((k + 1) as real, c, n);
  }

  /** One second into 44.1 kHz audio the playhead is at column 43 (44100 / 1024 = 43.07). */
  lemma PlayheadColumnAtOneSecond()
    ensures PlayheadColumn(1.0, 44100.0, FFT_SIZE) == 43
  {
    assert 43.0 <= 44100.0 / 1024.0 < 44.0;
  }

  /** The media events the constructor listens to. */
  datatype MediaEvent = Play | Pause

  class Playhead {
    const canvas: LayeredCanvas
    const scheduler: FrameScheduler
    /** `#canvasContext`: the layer registered at draw index 1. */
    const layer: LayerId
    /** `#requestId`: undefined, or the id requestAnimationFrame returned (never 0). */
    var requestId: Option<nat>
    /** The frame requests of this playhead that are pending: its running redraw loops. */
    ghost var loops: set<nat>

    /** The layer exists on the canvas and the scheduler is consistent. */
    ghost predicate Wired()
      reads this, canvas, scheduler
    {
      canvas.Valid() && scheduler.Valid() && layer in canvas.surfaces
    }

    /** Tracking means exactly one redraw loop, whose request `#requestId` holds; idle means none. */
    ghost predicate Valid()
      reads this, canvas, scheduler
    {
      && Wired()
      && loops <= scheduler.pending
      && (requestId.None? ==> loops == {})
      && (requestId.Some? ==> loops == {requestId.value} && requestId.value > 0)
    }

    /** `#requestId` holds a request that has already fired, so no redraw will ever come. */
    ghost predicate Stalled()
      reads this, scheduler
    {
      requestId.Some? && requestId.value !in scheduler.pending
    }

    /**
     * `new Playhead(layeredCanvas, audioElement, bufferedAudioData)`: registers its layer at draw
     * index 1 (clamped to the end while fewer layers exist) and starts idle.
     */
    constructor (canvas: LayeredCanvas, scheduler: FrameScheduler)
      requires canvas.Valid() && scheduler.Valid()
      modifies canvas`surfaces, canvas`nextId, canvas`layers, canvas`registrations
      ensures Valid() && this.canvas == canvas && this.scheduler == scheduler && requestId == None
      ensures layer !in old(canvas.surfaces) && canvas.surfaces == old(canvas.surfaces)[layer := Surface(canvas.width, canvas.height, [])]
      ensures canvas.layers == Insert(old(canvas.layers), SpliceStart(1, |old(canvas.layers)|), layer)
    {
      this.canvas := canvas;
      this.scheduler := scheduler;
      var id := canvas.RegisterLayer(1);
      layer := id;
      requestId := None;
      loops := {};
    }

    /** `drawPlayhead()`: starts a redraw loop unless `#requestId` is already set. */
    method DrawPlayhead()
      requires Wired()
      modifies this`requestId, this`loops, scheduler
      ensures Wired()
      ensures old(requestId).Some? ==> requestId == old(requestId) && loops == old(loops) && scheduler.pending == old(scheduler.pending)
      ensures old(requestId).None? ==>
        && requestId.Some? && requestId.value !in old(scheduler.pending)
        && scheduler.pending == old(scheduler.pending) + {requestId.value}
      ensures old(Valid()) ==> Valid()
      ensures old(Stalled()) ==> Stalled()
    {
      if requestId.Some? {
        return;
      }
      var id := scheduler.Request();
      requestId := Some(id);
      loops := {id};
    }

    /**
     * The painting part of a frame: clear the layer, paint a white bar one pixel wide and as tall
     * as the canvas at column x, composite all layers.
     */
    method PaintBar(x: int)
      requires Wired()
      modifies canvas`surfaces, canvas`baseOps
      ensures Wired()
      ensures canvas.surfaces == old(canvas.surfaces)[layer := Painted(Painted(old(canvas.surfaces)[layer],
        ClearRect(0, 0, canvas.width, canvas.height)), FillRect(Some("white"), x, 0, 1, canvas.height))]
      ensures canvas.baseOps == old(canvas.baseOps) + Blits(canvas.layers)
    {
      ghost var before := canvas.surfaces;
      var cleared := ClearRect(0, 0, canvas.width, canvas.height);
      var bar := FillRect(Some("white"), x, 0, 1, canvas.height);
      canvas.ClearLayer(layer);
      canvas.PaintLayer(layer, bar);
      assert canvas.surfaces == before[layer := Painted(Painted(before[layer], cleared), bar)];
      canvas.DrawLayers();
    }

    /**
     * `#drawPlayhead()` as intended, run when the host fires the pending request: paint the bar at
     * the playhead column and request the next frame, so exactly one request stays pending.
     */
    method Tick(currentTime: real, sampleRate: real)
      requires Valid() && requestId.Some?
      modifies this`requestId, this`loops, scheduler, canvas`surfaces, canvas`baseOps
      ensures Valid() && requestId.Some? && requestId.value in scheduler.pending
      ensures scheduler.pending == old(scheduler.pending) - {old(requestId).value} + {requestId.value}
      ensures canvas.surfaces == old(canvas.surfaces)[layer := Painted(Painted(old(canvas.surfaces)[layer],
        ClearRect(0, 0, canvas.width, canvas.height)),
        FillRect(Some("white"), PlayheadColumn(currentTime, sampleRate, FFT_SIZE), 0, 1, canvas.height))]
      ensures canvas.baseOps == old(canvas.baseOps) + Blits(canvas.layers)
    {
      scheduler.Fire(requestId.value);
      loops := {};
      PaintBar(PlayheadColumn(currentTime, sampleRate, FFT_SIZE));
      var id := scheduler.Request();
      requestId := Some(id);
      loops := {id};
    }

    /**
     * `#drawPlayhead()` as written: it first calls `this.#layeredCanvas.clearLayer(...)`, which
     * LayeredCanvas does not define, so the callback throws before painting or rescheduling and
     * `#requestId` keeps the id of the request that just fired.
     */
    method TickAsWritten() returns (r: Outcome<Error>)
      requires Valid() && requestId.Some?
      modifies this`loops, scheduler
      ensures r == Fail(NotAFunction)
      ensures Wired() && Stalled() && requestId == old(requestId)
      ensures scheduler.pending == old(scheduler.pending) - {old(requestId).value}
      ensures canvas.surfaces == old(canvas.surfaces) && canvas.baseOps == old(canvas.baseOps)
    {
      scheduler.Fire(requestId.value);
      loops := {};
      return Fail(NotAFunction);
    }

    /** `pauseDrawingPlayhead()`: cancels the pending request, if any, and unsets `#requestId`. */
    method PauseDrawingPlayhead()
      requires Wired()
      modifies this`requestId, this`loops, scheduler`pending
      ensures Valid() && requestId == None
      ensures old(requestId).Some? ==> scheduler.pending == old(scheduler.pending) - {old(requestId).value}
      ensures old(requestId).None? ==> scheduler.pending == old(scheduler.pending)
    {
      if requestId.Some? {
        scheduler.Cancel(requestId.value);
      }
      requestId := None;
      loops := {};
    }

    /**
     * The `play` and `pause` listeners the constructor adds to the audio element. They also run
     * after a frame of the loop as written has stalled it: `play` then keeps the dead id, and
     * `pause` forgets it, so that the next `play` requests a frame again.
     */
    method OnEvent(e: MediaEvent)
      requires Wired()
      modifies this`requestId, this`loops, scheduler
      ensures Wired()
      ensures e == Play ==> requestId.Some? && (old(Valid()) ==> Valid() && requestId.value in scheduler.pending)
      ensures e == Play && old(Stalled()) ==> Stalled()
      ensures e == Pause ==> Valid()
      ensures e == Play && old(requestId).Some? ==> requestId == old(requestId) && scheduler.pending == old(scheduler.pending)
      ensures e == Play && old(requestId).None? ==>
        requestId.value !in old(scheduler.pending) && scheduler.pending == old(scheduler.pending) + {requestId.value}
      ensures e == Pause ==> requestId == None
      ensures e == Pause && old(requestId).Some? ==> scheduler.pending == old(scheduler.pending) - {old(requestId).value}
      ensures e == Pause && old(requestId).None? ==> scheduler.pending == old(scheduler.pending)
    {
      match e
      case Play => DrawPlayhead();
      case Pause => PauseDrawingPlayhead();
    }
  }
}
