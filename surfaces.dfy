/**
 * The drawing surfaces the compositors work on, as recorded operations, and the host's
 * animation-frame scheduler, as a set of pending request tokens.
 */
module Surfaces {
  import opened Results

  /** A CSS colour string (`fillStyle`). */
  type Color = string

  /** Identity of an offscreen canvas context created by `document.createElement('canvas')`. */
  type LayerId = nat

  /** The two context primitives the core calls on an offscreen layer. */
  datatype PaintOp =
    | ClearRect(x: int, y: int, w: int, h: int)
      // `fillStyle = style; fillRect(...)`; None is an `undefined` style (the canvas keeps its previous one)
    | FillRect(style: Option<Color>, x: int, y: int, w: int, h: int)

  /** An offscreen canvas: its size, fixed at creation, and every operation painted on it. */
  datatype Surface = Surface(width: nat, height: nat, ops: seq<PaintOp>)

  /** Operations on the visible (base) canvas. */
  datatype BaseOp =
    | ClearBase(w: int, h: int)
      // `drawImage(layer.canvas, ...)`: composite the layer's current picture
    | Blit(layer: LayerId)

  function Painted(s: Surface, op: PaintOp): (r: Surface)
    ensures r.width == s.width && r.height == s.height && r.ops == s.ops + [op]
  {
    s.(ops := s.ops + [op])
  }

  /** Several operations painted in order. */
  function AppendOps(s: Surface, ops: seq<PaintOp>): (r: Surface)
    ensures r.width == s.width && r.height == s.height && r.ops == s.ops + ops
  {
    s.(ops := s.ops + ops)
  }

  /** Painting a batch and then more is painting the concatenation; an empty batch changes nothing. */
  lemma AppendOpsConcat(s: Surface, a: seq<PaintOp>, b: seq<PaintOp>)
    ensures AppendOps(AppendOps(s, a), b) == AppendOps(s, a + b)
    ensures AppendOps(s, []) == s
  {
    assert s.ops + [] == s.ops;
    assert (s.ops + a) + b == s.ops + (a + b);
  }

  /** One more operation after a batch extends the batch. */
  lemma PaintedAfterBatch(s: Surface, a: seq<PaintOp>, op: PaintOp)
    ensures Painted(AppendOps(s, a), op) == AppendOps(s, a + [op])
  {
    assert (s.ops + a) + [op] == s.ops + (a + [op]);
  }

  /**
   * `requestAnimationFrame` / `cancelAnimationFrame`: the host hands out positive request ids
   * and keeps the set of requests whose callback has not yet run or been cancelled.
   */
  class FrameScheduler {
    var pending: set<nat>
    var issued: nat

    ghost predicate Valid()
      reads this
    {
      forall id :: id in pending ==> 0 < id <= issued
    }

    constructor ()
      ensures Valid() && pending == {} && issued == 0
    {
      pending := {};
      issued := 0;
    }

    /** `requestAnimationFrame(callback)`: a fresh, non-zero id, now pending. */
    method Request() returns (id: nat)
      requires Valid()
      modifies this
      ensures Valid()
      ensures id > 0 && id !in old(pending) && pending == old(pending) + {id}
      ensures issued == id && id > old(issued)
    {
      issued := issued + 1;
      id := issued;
      pending := pending + {id};
    }

    /** `cancelAnimationFrame(id)`: a no-op for an id that is not pending. */
    method Cancel(id: nat)
      requires Valid()
      modifies this`pending
      ensures Valid() && pending == old(pending) - {id}
    {
      pending := pending - {id};
    }

    /** The host runs the callback of a pending request; it is no longer pending. */
    method Fire(id: nat)
      requires Valid() && id in pending
      modifies this`pending
      ensures Valid() && pending == old(pending) - {id}
    {
      pending := pending - {id};
    }
  }
}
