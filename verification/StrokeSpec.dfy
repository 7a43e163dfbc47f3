/** Ink strokes, distances and the eraser's hit test. */
module StrokeSpec {
  import opened Options

  const ERASE_RADIUS_SQ: real := 100.0
  const DEGENERATE: real := 1e-18
  const UNDO_CAP := 48

  datatype Pt = Pt(x: real, y: real, p: real) {
    function Moved(dx: real, dy: real): Pt {
      Pt(x + dx, y + dy, p)
    }
  }

  datatype Stroke = Stroke(rgba: seq<real>, pts: seq<Pt>, windowSeq: int) {
    function Moved(dx: real, dy: real): Stroke {
      Stroke(rgba, MovePts(pts, dx, dy), windowSeq)
    }
  }

  function MovePts(pts: seq<Pt>, dx: real, dy: real): (r: seq<Pt>)
    ensures |r| == |pts|
    ensures forall i :: 0 <= i < |pts| ==> r[i] == pts[i].Moved(dx, dy)
  {
    if pts == [] then [] else MovePts(pts[..|pts| - 1], dx, dy) + [pts[|pts| - 1].Moved(dx, dy)]
  }

  function MoveStrokes(strokes: seq<Stroke>, dx: real, dy: real): (r: seq<Stroke>)
    ensures |r| == |strokes|
    ensures forall i :: 0 <= i < |strokes| ==> r[i] == strokes[i].Moved(dx, dy)
  {
    if strokes == [] then []
    else MoveStrokes(strokes[..|strokes| - 1], dx, dy) + [strokes[|strokes| - 1].Moved(dx, dy)]
  }

  // ---- Distances ----

  function Sq(x: real): real {
    x * x
  }

  function PointDistSq(px: real, py: real, a: Pt): real {
    Sq(px - a.x) + Sq(py - a.y)
  }

  /** Where on the segment the nearest point is, before it is clamped to the segment. */
  function Foot(apx: real, apy: real, abx: real, aby: real): real
    requires Sq(abx) + Sq(aby) != 0.0
  {
    (apx * abx + apy * aby) / (Sq(abx) + Sq(aby))
  }

  function Clamp01(t: real): real {
    if t < 0.0 then 0.0 else if t > 1.0 then 1.0 else t
  }

  /** The squared distance to the point at t on the way from a to b. */
  function AlongDistSq(px: real, py: real, a: Pt, b: Pt, t: real): real {
    Sq(px - (a.x + t * (b.x - a.x))) + Sq(py - (a.y + t * (b.y - a.y)))
  }

  function PointSegmentDistSq(px: real, py: real, a: Pt, b: Pt): real {
    if Sq(b.x - a.x) + Sq(b.y - a.y) < DEGENERATE then PointDistSq(px, py, a)
    else AlongDistSq(px, py, a, b, Clamp01(Foot(px - a.x, py - a.y, b.x - a.x, b.y - a.y)))
  }

  function Less(a: real, b: Option<real>): bool {
    b.None? || a < b.value
  }

  /** The distance to the first n segments; None stands for an infinite distance. */
  function SegmentsDistSq(px: real, py: real, pts: seq<Pt>, n: nat): Option<real>
    requires n < |pts|
  {
    if n == 0 then None
    else
      var best := SegmentsDistSq(px, py, pts, n - 1);
      var d := PointSegmentDistSq(px, py, pts[n - 1], pts[n]);
      if Less(d, best) then Some(d) else best
  }

  function PointToPolylineDistSq(px: real, py: real, pts: seq<Pt>): Option<real> {
    if |pts| == 0 then None
    else if |pts| == 1 then Some(PointDistSq(px, py, pts[0]))
    else SegmentsDistSq(px, py, pts, |pts| - 1)
  }

  predicate Touches(px: real, py: real, pts: seq<Pt>) {
    var d := PointToPolylineDistSq(px, py, pts);
    d.Some? && d.value <= ERASE_RADIUS_SQ
  }

  /** Some of these points touches the path. */
  predicate SomeTouches(points: seq<Pt>, path: seq<Pt>) {
    exists i :: 0 <= i < |points| && Touches(points[i].x, points[i].y, path)
  }

  predicate StrokeHitByEraser(stroke: Stroke, eraser: seq<Pt>) {
    && stroke.pts != [] && eraser != []
    && (SomeTouches(stroke.pts, eraser) || SomeTouches(eraser, stroke.pts))
  }

  lemma ZeroSquare(u: real)
    ensures Sq(u - u) == 0.0
  {
    assert u - u == 0.0;
  }

  lemma PointTouchesItself(a: Pt)
    ensures Touches(a.x, a.y, [a])
  {
    hide Sq, PointSegmentDistSq;
    ZeroSquare(a.x);
    ZeroSquare(a.y);
    assert PointToPolylineDistSq(a.x, a.y, [a]) == Some(PointDistSq(a.x, a.y, a));
  }

  // ---- What the distances mean ----

  function Dot(px: real, py: real, a: Pt, b: Pt): real {
    (px - a.x) * (b.x - a.x) + (py - a.y) * (b.y - a.y)
  }

  function LengthSq(a: Pt, b: Pt): real {
    Sq(b.x - a.x) + Sq(b.y - a.y)
  }

  /** t*t*len - 2*t*dot */
  function Excess(dot: real, len: real, t: real): real {
    t * t * len - 2.0 * t * dot
  }

  /** How the distance changes on the way from a to b. */
  lemma AlongExpansion(px: real, py: real, a: Pt, b: Pt, t: real)
    ensures AlongDistSq(px, py, a, b, t) == PointDistSq(px, py, a) + Excess(Dot(px, py, a, b), LengthSq(a, b), t)
  {
    SquareExpansion(px - a.x, b.x - a.x, t);
    SquareExpansion(py - a.y, b.y - a.y, t);
    assert px - (a.x + t * (b.x - a.x)) == (px - a.x) - t * (b.x - a.x);
    assert py - (a.y + t * (b.y - a.y)) == (py - a.y) - t * (b.y - a.y);
  }

  lemma SquareExpansion(u: real, v: real, t: real)
    ensures Sq(u - t * v) == Sq(u) - 2.0 * t * (u * v) + t * t * Sq(v)
  {
  }

  lemma ExcessFactors(dot: real, len: real, t: real)
    ensures Excess(dot, len, t) == t * (t * len - 2.0 * dot)
    ensures Excess(dot, len, t) - Excess(dot, len, 1.0) == (1.0 - t) * (2.0 * dot - (t + 1.0) * len)
  {
  }

  lemma ExcessAtFoot(len: real, foot: real, t: real)
    requires len > 0.0
    ensures Excess(foot * len, len, foot) <= Excess(foot * len, len, t)
  {
    SquareExpansion(t, 1.0, foot);
    ProductSign(Sq(t - foot), len);
    assert Excess(foot * len, len, t) - Excess(foot * len, len, foot) == Sq(t - foot) * len;
  }

  /** On 0 to 1 the excess is least at dot/len, clamped to 0 to 1. */
  lemma Parabola(dot: real, len: real, t: real)
    requires len > 0.0 && 0.0 <= t <= 1.0
    ensures Excess(dot, len, Clamp01(dot / len)) <= Excess(dot, len, t)
  {
    var foot := dot / len;
    assert foot * len == dot;
    ExcessFactors(dot, len, t);
    if foot < 0.0 {
      ProductSign(foot, len);
      ProductSign(t, len);
      ProductSign(t, t * len - 2.0 * dot);
    } else if foot > 1.0 {
      ProductSign(foot - 1.0, len);
      ProductSign(1.0 - t, len);
      ProductSign(1.0 - t, 2.0 * dot - (t + 1.0) * len);
    } else {
      ExcessAtFoot(len, foot, t);
    }
  }

  lemma ProductSign(a: real, b: real)
    ensures a >= 0.0 && b >= 0.0 ==> a * b >= 0.0
    ensures a < 0.0 && b > 0.0 ==> a * b < 0.0
    ensures a > 0.0 && b > 0.0 ==> a * b > 0.0
    ensures a * a >= 0.0
  {
  }

  lemma SegmentAtFoot(px: real, py: real, a: Pt, b: Pt)
    requires LengthSq(a, b) >= DEGENERATE
    ensures PointSegmentDistSq(px, py, a, b) ==
      AlongDistSq(px, py, a, b, Clamp01(Dot(px, py, a, b) / LengthSq(a, b)))
  {
  }

  /** Unless the segment is degenerate, its distance is that of its nearest point. */
  lemma SegmentIsNearest(px: real, py: real, a: Pt, b: Pt, t: real)
    requires LengthSq(a, b) >= DEGENERATE && 0.0 <= t <= 1.0
    ensures PointSegmentDistSq(px, py, a, b) <= AlongDistSq(px, py, a, b, t)
    ensures exists s :: 0.0 <= s <= 1.0 && PointSegmentDistSq(px, py, a, b) == AlongDistSq(px, py, a, b, s)
  {
    var dot, len := Dot(px, py, a, b), LengthSq(a, b);
    SegmentAtFoot(px, py, a, b);
    AlongExpansion(px, py, a, b, Clamp01(dot / len));
    AlongExpansion(px, py, a, b, t);
    Parabola(dot, len, t);
  }

  lemma SegmentNoFartherThanStart(px: real, py: real, a: Pt, b: Pt)
    ensures PointSegmentDistSq(px, py, a, b) <= PointDistSq(px, py, a)
  {
    if LengthSq(a, b) >= DEGENERATE {
      SegmentIsNearest(px, py, a, b, 0.0);
    }
  }

  // ---- Growing a path ----

  lemma {:induction false} SegmentsPrefix(px: real, py: real, pts: seq<Pt>, q: Pt, n: nat)
    requires n < |pts|
    ensures SegmentsDistSq(px, py, pts + [q], n) == SegmentsDistSq(px, py, pts, n)
  {
    if n > 0 {
      SegmentsPrefix(px, py, pts, q, n - 1);
    }
  }

  /** A longer path touches whatever the shorter one touched. */
  lemma TouchesGrows(px: real, py: real, pts: seq<Pt>, q: Pt)
    requires Touches(px, py, pts)
    ensures Touches(px, py, pts + [q])
  {
    var n := |pts|;
    SegmentsPrefix(px, py, pts, q, n - 1);
    if n == 1 {
      SegmentNoFartherThanStart(px, py, pts[0], q);
      assert SegmentsDistSq(px, py, pts + [q], 0) == None;
    }
  }

  lemma HitGrows(stroke: Stroke, eraser: seq<Pt>, q: Pt)
    requires StrokeHitByEraser(stroke, eraser)
    ensures StrokeHitByEraser(stroke, eraser + [q])
  {
    var eraser' := eraser + [q];
    if i :| 0 <= i < |stroke.pts| && Touches(stroke.pts[i].x, stroke.pts[i].y, eraser) {
      TouchesGrows(stroke.pts[i].x, stroke.pts[i].y, eraser, q);
    } else {
      var i :| 0 <= i < |eraser| && Touches(eraser[i].x, eraser[i].y, stroke.pts);
      assert eraser'[i] == eraser[i];
    }
  }

  // ---- Moving everything ----

  function DifferencesDistSq(apx: real, apy: real, abx: real, aby: real): real {
    if Sq(abx) + Sq(aby) < DEGENERATE then Sq(apx) + Sq(apy)
    else
      var t := Clamp01(Foot(apx, apy, abx, aby));
      Sq(apx - t * abx) + Sq(apy - t * aby)
  }

  /** The distance depends on differences of coordinates only. */
  lemma SegmentByDifferences(px: real, py: real, a: Pt, b: Pt)
    ensures PointSegmentDistSq(px, py, a, b) == DifferencesDistSq(px - a.x, py - a.y, b.x - a.x, b.y - a.y)
  {
    var abx, aby := b.x - a.x, b.y - a.y;
    if Sq(abx) + Sq(aby) >= DEGENERATE {
      var t := Clamp01(Foot(px - a.x, py - a.y, abx, aby));
      assert px - (a.x + t * abx) == (px - a.x) - t * abx;
      assert py - (a.y + t * aby) == (py - a.y) - t * aby;
    }
  }

  lemma SegmentMoves(px: real, py: real, a: Pt, b: Pt, dx: real, dy: real)
    ensures PointSegmentDistSq(px + dx, py + dy, a.Moved(dx, dy), b.Moved(dx, dy)) == PointSegmentDistSq(px, py, a, b)
  {
    SegmentByDifferences(px, py, a, b);
    SegmentByDifferences(px + dx, py + dy, a.Moved(dx, dy), b.Moved(dx, dy));
  }

  lemma {:induction false} SegmentsMove(px: real, py: real, pts: seq<Pt>, n: nat, dx: real, dy: real)
    requires n < |pts|
    ensures SegmentsDistSq(px + dx, py + dy, MovePts(pts, dx, dy), n) == SegmentsDistSq(px, py, pts, n)
  {
    if n > 0 {
      SegmentsMove(px, py, pts, n - 1, dx, dy);
      SegmentMoves(px, py, pts[n - 1], pts[n], dx, dy);
    }
  }

  lemma TouchesMoves(px: real, py: real, pts: seq<Pt>, dx: real, dy: real)
    ensures Touches(px + dx, py + dy, MovePts(pts, dx, dy)) <==> Touches(px, py, pts)
  {
    if |pts| > 1 {
      SegmentsMove(px, py, pts, |pts| - 1, dx, dy);
    }
  }

  lemma SomeTouchesMoves(points: seq<Pt>, path: seq<Pt>, dx: real, dy: real)
    ensures SomeTouches(MovePts(points, dx, dy), MovePts(path, dx, dy)) <==> SomeTouches(points, path)
  {
    var points', path' := MovePts(points, dx, dy), MovePts(path, dx, dy);
    hide Touches;
    if i :| 0 <= i < |points| && Touches(points[i].x, points[i].y, path) {
      TouchesMoves(points[i].x, points[i].y, path, dx, dy);
      assert Touches(points'[i].x, points'[i].y, path');
    }
    if i :| 0 <= i < |points'| && Touches(points'[i].x, points'[i].y, path') {
      TouchesMoves(points[i].x, points[i].y, path, dx, dy);
      assert Touches(points[i].x, points[i].y, path);
    }
  }

  /** Moving stroke and eraser together changes no hit. */
  lemma HitMoves(stroke: Stroke, eraser: seq<Pt>, dx: real, dy: real)
    ensures StrokeHitByEraser(stroke.Moved(dx, dy), MovePts(eraser, dx, dy)) <==> StrokeHitByEraser(stroke, eraser)
  {
    SomeTouchesMoves(stroke.pts, eraser, dx, dy);
    SomeTouchesMoves(eraser, stroke.pts, dx, dy);
  }
}
