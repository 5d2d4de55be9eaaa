/**
  The wall-pruning part of `FloorplanApp` in draw_map/draw_map.py: detected
  walls are segments between pixel corners, the user drags a rectangle with
  the mouse, and on release every wall whose start point lies in the
  rectangle is dropped.
 */
module DrawMap {
  import opened Results

  /** A canvas position in pixels. */
  datatype Pixel = Pixel(x: int, y: int)

  /** A detected wall, stored as `((x, y), (x + w, y + h))`. */
  datatype Segment = Segment(start: Pixel, end: Pixel)

  /** A closed pixel rectangle with `left <= right` and `top <= bottom`. */
  datatype Box = Box(left: int, top: int, right: int, bottom: int)

  function Min(a: int, b: int): int { if a <= b then a else b }

  function Max(a: int, b: int): int { if a <= b then b else a }

  /** The rectangle spanned by two corners given in either order, as the min/max normalisation builds it. */
  function BoxOf(x1: int, y1: int, x2: int, y2: int): (b: Box)
    ensures b.left <= b.right && b.top <= b.bottom
    ensures {b.left, b.right} == {x1, x2} && {b.top, b.bottom} == {y1, y2}
  {
    Box(Min(x1, x2), Min(y1, y2), Max(x1, x2), Max(y1, y2))
  }

  /** The box does not depend on which corner the drag started from. */
  lemma BoxOfCornerOrder(x1: int, y1: int, x2: int, y2: int)
    ensures BoxOf(x1, y1, x2, y2) == BoxOf(x2, y2, x1, y1) == BoxOf(x1, y2, x2, y1) == BoxOf(x2, y1, x1, y2)
  {
  }

  /** p lies in the closed box. */
  predicate InBox(p: Pixel, b: Box) {
    b.left <= p.x <= b.right && b.top <= p.y <= b.bottom
  }

  /** The list comprehension of `remove_walls_in_box`: the walls whose start point is outside the box, in order. */
  function WallsOutside(walls: seq<Segment>, b: Box): (kept: seq<Segment>)
    ensures |kept| <= |walls|
    ensures forall w :: w in kept <==> w in walls && !InBox(w.start, b)
    ensures forall w :: multiset(kept)[w] == if InBox(w.start, b) then 0 else multiset(walls)[w]
  {
    if walls == [] then []
    else
      assert walls == [walls[0]] + walls[1..];
      (if InBox(walls[0].start, b) then [] else [walls[0]]) + WallsOutside(walls[1..], b)
  }

  /** `sub` is `s` with some elements dropped and the rest in their original order. */
  predicate IsSubsequence(sub: seq<Segment>, s: seq<Segment>)
    decreases |s|
  {
    if s == [] then sub == []
    else IsSubsequence(sub, s[1..]) || (sub != [] && sub[0] == s[0] && IsSubsequence(sub[1..], s[1..]))
  }

  /** Pruning only drops walls: the survivors keep their relative order. */
  lemma {:induction false} WallsOutsideIsSubsequence(walls: seq<Segment>, b: Box)
    ensures IsSubsequence(WallsOutside(walls, b), walls)
    decreases |walls|
  {
    if walls != [] {
      WallsOutsideIsSubsequence(walls[1..], b);
      var rest := WallsOutside(walls[1..], b);
      if !InBox(walls[0].start, b) {
        assert WallsOutside(walls, b) == [walls[0]] + rest;
        assert ([walls[0]] + rest)[1..] == rest;
      } else {
        assert WallsOutside(walls, b) == rest;
      }
    }
  }

  /** Pruning with the same box a second time changes nothing. */
  lemma {:induction false} WallsOutsideIdempotent(walls: seq<Segment>, b: Box)
    ensures WallsOutside(WallsOutside(walls, b), b) == WallsOutside(walls, b)
    decreases |walls|
  {
    if walls != [] {
      WallsOutsideIdempotent(walls[1..], b);
      var rest := WallsOutside(walls[1..], b);
      if !InBox(walls[0].start, b) {
        assert WallsOutside(walls, b) == [walls[0]] + rest;
        assert ([walls[0]] + rest)[1..] == rest;
      } else {
        assert WallsOutside(walls, b) == rest;
      }
    }
  }

  /** Only the start point is tested: a wall reaching into the box from outside survives. */
  lemma EndPointIgnored()
    ensures var w := Segment(Pixel(0, 0), Pixel(5, 5));
            InBox(w.end, BoxOf(4, 4, 6, 6)) && WallsOutside([w], BoxOf(4, 4, 6, 6)) == [w]
  {
  }

  /** The state `FloorplanApp` keeps for wall pruning. */
  class FloorplanApp {
    /** The walls currently shown, in detection order. */
    var detectedWalls: seq<Segment>
    /** Every rectangle dragged so far, with its corners as pressed and released. */
    var rectsToRemove: seq<(Pixel, Pixel)>
    /** Where the current drag started, or None when no drag is in progress. */
    var rectStart: Option<Pixel>

    /** The three fields as `__init__` sets them. */
    constructor ()
      ensures detectedWalls == [] && rectsToRemove == [] && rectStart == None
    {
      detectedWalls := [];
      rectsToRemove := [];
      rectStart := None;
    }

    /** Mouse press: remember where the drag starts. */
    method StartDrawRect(event: Pixel)
      modifies this`rectStart
      ensures rectStart == Some(event)
    {
      rectStart := Some(event);
    }

    /** Mouse motion: only redraws the canvas, so no field changes. */
    method DrawRect(event: Pixel)
      ensures unchanged(this)
    {
    }

    /** `remove_walls_in_box(x1, y1, x2, y2)`: drop every wall whose start point lies in the normalised box. */
    method RemoveWallsInBox(x1: int, y1: int, x2: int, y2: int)
      modifies this`detectedWalls
      ensures detectedWalls == WallsOutside(old(detectedWalls), BoxOf(x1, y1, x2, y2))
      ensures forall w :: w in detectedWalls <==> w in old(detectedWalls) && !InBox(w.start, BoxOf(x1, y1, x2, y2))
    {
      var left, right := Min(x1, x2), Max(x1, x2);
      var top, bottom := Min(y1, y2), Max(y1, y2);
      detectedWalls := WallsOutside(detectedWalls, Box(left, top, right, bottom));
    }

    /**
      Mouse release: without a drag in progress nothing happens; otherwise
      the rectangle is recorded as dragged, the walls starting inside it are
      dropped, and the drag ends.
     */
    method EndDrawRect(event: Pixel)
      modifies this
      ensures old(rectStart).None? ==> unchanged(this)
      ensures old(rectStart).Some? ==>
        var start := old(rectStart).value;
        && rectsToRemove == old(rectsToRemove) + [(start, event)]
        && detectedWalls == WallsOutside(old(detectedWalls), BoxOf(start.x, start.y, event.x, event.y))
        && rectStart == None
      ensures old(rectStart).Some? ==>
        var start := old(rectStart).value;
        forall w :: w in detectedWalls ==> !InBox(w.start, BoxOf(start.x, start.y, event.x, event.y))
    {
      if rectStart.None? {
        return;
      }
      var start := rectStart.value;
      rectsToRemove := rectsToRemove + [(start, event)];
      RemoveWallsInBox(start.x, start.y, event.x, event.y);
      rectStart := None;
    }
  }
}
