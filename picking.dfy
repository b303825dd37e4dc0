/**
 * The picker: while the left button is held, the first vertex of strictly
 * smallest distance to the pointer's hit point is chosen once and kept until
 * the button is released. Both variants of the source share it: `updating` in
 * build/app.js and `updateMouse` in js/index.js, with identical `mousedown` /
 * `mouseup` handlers. The ray casts and the distances themselves are floating
 * point and are given: `hit` says whether the ray met the target shape, and
 * `dist[i]` is the distance from the hit point to vertex `i`.
 */
module Picking {
  import opened Wrappers

  /** `k` is the first index of strictly smallest distance. */
  ghost predicate IsFirstNearest(dist: seq<real>, k: nat)
  {
    && k < |dist|
    && (forall j :: 0 <= j < |dist| ==> dist[k] <= dist[j])
    && (forall j :: 0 <= j < k ==> dist[k] < dist[j])
  }

  /**
   * The index the scan `if (tmp < dist) { dist = tmp; psel = i; }` settles on
   * when it starts from `dist = Infinity`: none for no vertices.
   */
  function Nearest(dist: seq<real>): (r: Option<nat>)
    ensures r.None? <==> |dist| == 0
    ensures r.Some? ==> IsFirstNearest(dist, r.value)
  {
    if |dist| == 0 then None
    else
      var best := Nearest(dist[..|dist| - 1]);
      if best.None? || dist[|dist| - 1] < dist[best.value] then Some(|dist| - 1) else best
  }

  /** The nearest-vertex loop of `updating` (build/app.js:156-164) and `updateMouse` (js/index.js:206-214). */
  method NearestIndex(dist: seq<real>) returns (psel: Option<nat>)
    ensures psel == Nearest(dist)
    ensures psel.None? <==> |dist| == 0
    ensures psel.Some? ==> IsFirstNearest(dist, psel.value)
  {
    psel := None;
    var best: real := 0.0;
    for i := 0 to |dist|
      invariant psel == Nearest(dist[..i])
      invariant psel.Some? ==> psel.value < i && best == dist[psel.value]
    {
      assert dist[..i + 1][..i] == dist[..i];
      if psel.None? || dist[i] < best {
        best := dist[i];
        psel := Some(i);
      }
    }
    assert dist[..|dist|] == dist;
  }

  /**
   * The drag test `(interacting && psel) ? true : false` (build/app.js:174) and
   * `interacting && psel` (js/index.js:248): `psel` is truthy only when it is
   * defined and not 0.
   */
  function Dragging(interacting: bool, psel: Option<nat>): (r: bool)
    ensures r ==> interacting && psel.Some?
    ensures psel == Some(0) ==> !r
    ensures interacting && psel.Some? && psel.value > 0 ==> r
  {
    interacting && psel.Some? && psel.value != 0
  }

  /** The selection after one `updating` / `updateMouse` call. */
  function Pick(interacting: bool, psel: Option<nat>, hit: bool, dist: seq<real>): (r: Option<nat>)
    ensures !interacting || !hit ==> r == psel
    ensures psel.Some? ==> r == psel
    ensures r.Some? && psel.None? ==> IsFirstNearest(dist, r.value)
    ensures interacting && hit && |dist| > 0 ==> r.Some?
  {
    if interacting && hit && psel.None? then Nearest(dist) else psel
  }

  /** Picking again within the same press changes nothing: the choice is kept. */
  lemma PickKept(interacting: bool, psel: Option<nat>, hit: bool, dist: seq<real>)
    ensures Pick(interacting, Pick(interacting, psel, hit, dist), hit, dist) == Pick(interacting, psel, hit, dist)
  {
  }

  /** The pointer state the handlers and the picker share: the globals `interacting` and `psel`. */
  class Picker {
    var interacting: bool
    var psel: Option<nat>

    constructor ()
      ensures !interacting && psel == None
    {
      interacting := false;
      psel := None;
    }

    /** `onMouseDown` (build/app.js:181-185, js/index.js:292-295): the left button starts interacting. */
    method OnMouseDown(button: int)
      modifies this
      ensures interacting == (old(interacting) || button == 0)
      ensures psel == old(psel)
    {
      if button == 0 {
        interacting := true;
      }
    }

    /** `onMouseUp` (build/app.js:186-191, js/index.js:297-302): releasing the left button drops the pick. */
    method OnMouseUp(button: int)
      modifies this
      ensures button == 0 ==> !interacting && psel == None
      ensures button != 0 ==> interacting == old(interacting) && psel == old(psel)
    {
      if button == 0 {
        interacting := false;
        psel := None;
      }
    }

    /**
     * `updating` (build/app.js:146-175): when interacting and the ray meets the
     * sphere, pick the nearest vertex unless one is already picked; report
     * whether a drag is under way. When not interacting it returns `undefined`,
     * which the caller reads as false.
     */
    method Updating(hit: bool, dist: seq<real>) returns (dragging: bool)
      modifies this
      ensures interacting == old(interacting)
      ensures psel == Pick(old(interacting), old(psel), hit, dist)
      ensures dragging == Dragging(interacting, psel)
    {
      if !interacting {
        return false;
      }
      if hit && psel == None {
        psel := NearestIndex(dist);
      }
      dragging := interacting && psel.Some? && psel.value != 0;
    }

    /**
     * `updateMouse` (js/index.js:195-228): the same pick, when interacting and
     * the ray meets the mesh; the CPU variant tests the drag later, in `simulate`.
     */
    method UpdateMouse(hit: bool, dist: seq<real>)
      modifies this
      ensures interacting == old(interacting)
      ensures psel == Pick(old(interacting), old(psel), hit, dist)
    {
      if !interacting {
        return;
      }
      if hit && psel == None {
        psel := NearestIndex(dist);
      }
    }
  }
}
