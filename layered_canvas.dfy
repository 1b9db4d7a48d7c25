/**
 * modules/LayeredCanvas.js: offscreen layers composited onto one visible canvas. The layers are an
 * ordered list changed in place by `splice`; clearing and compositing walk that list in order.
 */
module LayerStack {
  import opened Surfaces

  /**
   * Where `Array.prototype.splice(index, ...)` starts on an array of length len: a negative
   * index counts from the end, and the result is clamped to [0, len].
   */
  function SpliceStart(index: int, len: nat): (s: nat)
    ensures s <= len
    ensures 0 <= index <= len ==> s == index
    ensures len < index ==> s == len
    ensures -(len as int) <= index < 0 ==> s as int == len as int + index
    ensures index < -(len as int) ==> s == 0
  {
    if index < 0 then (if len as int + index < 0 then 0 else len as int + index)
    else if index > len then len
    else index
  }

  /** `splice(p, 0, x)` on a clamped start p. */
  function Insert<T>(s: seq<T>, p: nat, x: T): seq<T>
    requires p <= |s|
  {
    s[..p] + [x] + s[p..]
  }

  /** `splice(p, 1)`: the element at p removed. */
  function RemoveAt<T>(s: seq<T>, p: nat): seq<T>
    requires p < |s|
  {
    s[..p] + s[p + 1..]
  }

  /**
   * Inserting grows the list by one, puts x at p, shifts the tail by one and keeps the relative
   * order of everything else: removing x again gives the old list back.
   */
  lemma InsertPlaces<T>(s: seq<T>, p: nat, x: T)
    requires p <= |s|
    ensures |Insert(s, p, x)| == |s| + 1 && Insert(s, p, x)[p] == x
    ensures forall i :: 0 <= i < p ==> Insert(s, p, x)[i] == s[i]
    ensures forall i :: p <= i < |s| ==> Insert(s, p, x)[i + 1] == s[i]
    ensures RemoveAt(Insert(s, p, x), p) == s
  {
    var r := Insert(s, p, x);
    assert r[..p] == s[..p];
    assert r[p + 1..] == s[p..];
  }

  /** No layer occurs twice in the list. */
  predicate Distinct(ls: seq<LayerId>) {
    forall i, j :: 0 <= i < j < |ls| ==> ls[i] != ls[j]
  }

  /** One `drawImage` per entry, in list order. */
  function Blits(ls: seq<LayerId>): (ops: seq<BaseOp>)
  {
    if ls == [] then [] else Blits(ls[..|ls| - 1]) + [Blit(ls[|ls| - 1])]
  }

  /** The i-th composite is the i-th layer: later layers are painted over earlier ones. */
  lemma {:induction false} BlitsInOrder(ls: seq<LayerId>)
    ensures |Blits(ls)| == |ls|
    ensures forall i :: 0 <= i < |ls| ==> Blits(ls)[i] == Blit(ls[i])
  {
    if ls != [] {
      BlitsInOrder(ls[..|ls| - 1]);
    }
  }

  /** With distinct layers, each registered layer is composited exactly once and no other is. */
  lemma {:induction false} BlitsEachOnce(ls: seq<LayerId>, l: LayerId)
    requires Distinct(ls)
    ensures multiset(Blits(ls))[Blit(l)] == if l in ls then 1 else 0
  {
    if ls != [] {
      var init := ls[..|ls| - 1];
      assert Distinct(init);
      BlitsEachOnce(init, l);
      assert ls == init + [ls[|ls| - 1]];
      assert l in ls <==> l in init || l == ls[|ls| - 1];
      assert l == ls[|ls| - 1] ==> l !in init;
    }
  }

  class LayeredCanvas {
    /** The base canvas's width and height, which every new layer copies. */
    const width: nat
    const height: nat
    /** `#layers`, in draw order. */
    var layers: seq<LayerId>
    /** The offscreen canvas behind each layer context. */
    var surfaces: map<LayerId, Surface>
    /** The next identity `document.createElement('canvas')` hands out. */
    var nextId: nat
    /** What has been done to the base canvas context, oldest first. */
    var baseOps: seq<BaseOp>
    /** How many times registerLayer has run. */
    ghost var registrations: nat

    /**
     * The layers are exactly the canvases created so far, each once, each the base canvas's size
     * at creation; nothing removes one, so there are as many as registerLayer calls.
     */
    ghost predicate Valid()
      reads this`layers, this`surfaces, this`nextId, this`registrations
    {
      && Distinct(layers)
      && (forall id :: id in surfaces <==> id in layers)
      && (forall id :: id in surfaces ==> id < nextId)
      && (forall id :: id in surfaces ==> surfaces[id].width == width && surfaces[id].height == height)
      && |layers| == registrations
    }

    /** `new LayeredCanvas(canvas)`. */
    constructor (width: nat, height: nat)
      ensures Valid() && this.width == width && this.height == height
      ensures layers == [] && surfaces == map[] && baseOps == [] && registrations == 0
    {
      this.width := width;
      this.height := height;
      layers := [];
      surfaces := map[];
      nextId := 0;
      baseOps := [];
      registrations := 0;
    }

    /** `#initializeLayer()`: a fresh canvas with the base canvas's size, not yet a layer. */
    method InitializeLayer() returns (id: LayerId)
      requires forall k :: k in surfaces ==> k < nextId
      modifies this`surfaces, this`nextId
      ensures id == old(nextId) && id !in old(surfaces) && nextId == id + 1
      ensures surfaces == old(surfaces)[id := Surface(width, height, [])]
    {
      id := nextId;
      nextId := nextId + 1;
      surfaces := surfaces[id := Surface(width, height, [])];
    }

    /** `registerLayer(index)`: a new layer spliced in at `index`, clamped as splice clamps it. */
    method RegisterLayer(index: int) returns (id: LayerId)
      requires Valid()
      modifies this`surfaces, this`nextId, this`layers, this`registrations
      ensures Valid()
      ensures id !in old(surfaces) && surfaces == old(surfaces)[id := Surface(width, height, [])]
      ensures layers == Insert(old(layers), SpliceStart(index, |old(layers)|), id)
      ensures registrations == old(registrations) + 1
    {
      id := InitializeLayer();
      var p := SpliceStart(index, |layers|);
      InsertPlaces(layers, p, id);
      layers := layers[..p] + [id] + layers[p..];
      registrations := registrations + 1;
    }

    /** `clear()`: every layer cleared, in order, then the base canvas; no layer moves. */
    method Clear()
      requires Valid()
      modifies this`surfaces, this`baseOps
      ensures Valid() && surfaces.Keys == old(surfaces).Keys
      ensures forall id :: id in surfaces ==> surfaces[id] == Painted(old(surfaces)[id], ClearRect(0, 0, width, height))
      ensures baseOps == old(baseOps) + [ClearBase(width, height)]
    {
      for i := 0 to |layers|
        invariant surfaces.Keys == old(surfaces).Keys
        invariant forall id :: id in surfaces ==>
          surfaces[id] == if id in layers[..i] then Painted(old(surfaces)[id], ClearRect(0, 0, width, height)) else old(surfaces)[id]
        modifies this`surfaces
      {
        var layer := layers[i];
        assert layer !in layers[..i];
        assert layers[..i + 1] == layers[..i] + [layer];
        surfaces := surfaces[layer := Painted(surfaces[layer], ClearRect(0, 0, width, height))];
      }
      assert layers[..|layers|] == layers;
      baseOps := baseOps + [ClearBase(width, height)];
    }

    /** `drawLayers()`: each layer composited onto the base canvas, in list order. */
    method DrawLayers()
      requires Valid()
      modifies this`baseOps
      ensures Valid() && baseOps == old(baseOps) + Blits(layers)
    {
      for i := 0 to |layers|
        invariant baseOps == old(baseOps) + Blits(layers[..i])
      {
        assert layers[..i + 1][..i] == layers[..i];
        baseOps := baseOps + [Blit(layers[i])];
      }
      assert layers[..|layers|] == layers;
    }

    /** A drawing call on a context registerLayer returned. */
    method PaintLayer(id: LayerId, op: PaintOp)
      requires Valid() && id in surfaces
      modifies this`surfaces
      ensures Valid() && surfaces == old(surfaces)[id := Painted(old(surfaces)[id], op)]
    {
      surfaces := surfaces[id := Painted(surfaces[id], op)];
    }

    /** Clears one layer: the `clearLayer(context)` the playhead calls (see the README's findings). */
    method ClearLayer(id: LayerId)
      requires Valid() && id in surfaces
      modifies this`surfaces
      ensures Valid() && surfaces == old(surfaces)[id := Painted(old(surfaces)[id], ClearRect(0, 0, width, height))]
    {
      PaintLayer(id, ClearRect(0, 0, width, height));
    }
  }
}
