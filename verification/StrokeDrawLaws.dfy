/** What drawing draws and erasing erases, told from the operations alone. */
module StrokeDrawLaws {
  import opened Options
  import opened SnocLists
  import opened StrokeModelSpec
  import opened StrokeSpec

  // ---- The pen ----

  const FIRST_PEN: seq<real> := [0.1, 0.1, 0.1, 1.0]

  /** The colour last set. */
  function LastColor(ops: List<Op>): seq<real> {
    match ops
    case Nil => FIRST_PEN
    case Snoc(init, OpSetPenColor(rgba)) => rgba
    case Snoc(init, _) => LastColor(init)
  }

  lemma OnlyRecoloringChangesPen(m: Model, op: Op)
    ensures Apply(m, op).pen == if op.OpSetPenColor? then op.rgba else m.pen
  {
    hide Unhit, MoveStrokes, MovePts;
  }

  lemma {:induction false} PenIsLast(ops: List<Op>)
    ensures Track(ops).m.pen == LastColor(ops)
  {
    if ops.Snoc? {
      OnlyRecoloringChangesPen(Track(ops.init).m, ops.last);
      PenIsLast(ops.init);
      hide Apply, Snapshots;
    }
  }

  // ---- One gesture ----

  /** What can happen between the beginning and the end of a stroke. */
  datatype DrawOp = Point(x: real, y: real, p: real) | Shift(dx: real, dy: real) | Recolor(rgba: seq<real>)

  function AsOp(d: DrawOp): Op {
    match d
    case Point(x, y, p) => OpAppendPoint(x, y, p)
    case Shift(dx, dy) => OpTranslateAll(dx, dy)
    case Recolor(rgba) => OpSetPenColor(rgba)
  }

  function Then(ops: List<Op>, gesture: List<DrawOp>): List<Op> {
    match gesture
    case Nil => ops
    case Snoc(init, d) => Snoc(Then(ops, init), AsOp(d))
  }

  /** How far the content was moved in all. */
  function ShiftX(gesture: List<DrawOp>): real {
    match gesture
    case Nil => 0.0
    case Snoc(init, d) => ShiftX(init) + if d.Shift? then d.dx else 0.0
  }

  function ShiftY(gesture: List<DrawOp>): real {
    match gesture
    case Nil => 0.0
    case Snoc(init, d) => ShiftY(init) + if d.Shift? then d.dy else 0.0
  }

  /** The points of a gesture in their order, each moved by the shifts after it; dx and dy are those after the
      gesture. */
  function PointsOf(gesture: List<DrawOp>, dx: real, dy: real): seq<Pt> {
    match gesture
    case Nil => []
    case Snoc(init, Point(x, y, p)) => PointsOf(init, dx, dy) + [Pt(x + dx, y + dy, p)]
    case Snoc(init, Shift(tx, ty)) => PointsOf(init, tx + dx, ty + dy)
    case Snoc(init, Recolor(_)) => PointsOf(init, dx, dy)
  }

  lemma {:induction false} PointsMoved(gesture: List<DrawOp>, dx: real, dy: real, tx: real, ty: real)
    ensures MovePts(PointsOf(gesture, dx, dy), tx, ty) == PointsOf(gesture, dx + tx, dy + ty)
  {
    match gesture
    case Nil =>
    case Snoc(init, Point(x, y, p)) =>
      PointsMoved(init, dx, dy, tx, ty);
      var before := PointsOf(init, dx, dy);
      assert (before + [Pt(x + dx, y + dy, p)])[..|before|] == before;
    case Snoc(init, Shift(sx, sy)) =>
      PointsMoved(init, sx + dx, sy + dy, tx, ty);
      assert sx + dx + tx == sx + (dx + tx) && sy + dy + ty == sy + (dy + ty);
    case Snoc(init, Recolor(_)) => PointsMoved(init, dx, dy, tx, ty);
  }

  /** The same strokes, every point moved by dx and dy. */
  ghost predicate ShiftedBy(before: seq<Stroke>, after: seq<Stroke>, dx: real, dy: real) {
    && |after| == |before|
    && forall i :: 0 <= i < |before| ==> StrokeShifted(before[i], after[i], dx, dy)
  }

  ghost predicate StrokeShifted(before: Stroke, after: Stroke, dx: real, dy: real) {
    && after.rgba == before.rgba && after.windowSeq == before.windowSeq && |after.pts| == |before.pts|
    && forall j :: 0 <= j < |before.pts| ==>
      after.pts[j] == Pt(before.pts[j].x + dx, before.pts[j].y + dy, before.pts[j].p)
  }

  lemma ShiftMore(before: seq<Stroke>, strokes: seq<Stroke>, dx: real, dy: real, tx: real, ty: real)
    requires ShiftedBy(before, strokes, dx, dy)
    ensures ShiftedBy(before, MoveStrokes(strokes, tx, ty), dx + tx, dy + ty)
  {
    var after := MoveStrokes(strokes, tx, ty);
    forall i | 0 <= i < |before| ensures StrokeShifted(before[i], after[i], dx + tx, dy + ty) {
      assert StrokeShifted(before[i], strokes[i], dx, dy);
    }
  }

  /** The strokes of a model with the one in progress, if it has points. */
  function WithCurrent(m: Model): seq<Stroke> {
    m.strokes + if m.current.Some? && m.current.value.pts != [] then [m.current.value] else []
  }

  /** The stroke that a gesture draws. */
  function StrokeOf(rgba: seq<real>, x: real, y: real, p: real, windowSeq: int, gesture: List<DrawOp>): Stroke {
    Stroke(rgba, [Pt(x + ShiftX(gesture), y + ShiftY(gesture), p)] + PointsOf(gesture, 0.0, 0.0), windowSeq)
  }

  /** In the middle of a gesture. */
  ghost predicate Drawing(m: Model, m': Model, x: real, y: real, p: real, windowSeq: int, gesture: List<DrawOp>) {
    && m'.current == Some(StrokeOf(m.pen, x, y, p, windowSeq, gesture))
    && m'.eraser == None
    && ShiftedBy(WithCurrent(m), m'.strokes, ShiftX(gesture), ShiftY(gesture))
  }

  lemma DrawingShifts(m: Model, m1: Model, x: real, y: real, p: real, windowSeq: int, init: List<DrawOp>, dx: real,
                      dy: real)
    requires Drawing(m, m1, x, y, p, windowSeq, init)
    ensures Drawing(m, TranslateAll(m1, dx, dy), x, y, p, windowSeq, Snoc(init, Shift(dx, dy)))
  {
    ShiftMore(WithCurrent(m), m1.strokes, ShiftX(init), ShiftY(init), dx, dy);
    PointsMoved(init, 0.0, 0.0, dx, dy);
    var first := Pt(x + ShiftX(init), y + ShiftY(init), p);
    var rest := PointsOf(init, 0.0, 0.0);
    assert MovePts([first] + rest, dx, dy) == [first.Moved(dx, dy)] + MovePts(rest, dx, dy);
    assert PointsOf(Snoc(init, Shift(dx, dy)), 0.0, 0.0) == PointsOf(init, 0.0 + dx, 0.0 + dy);
  }

  lemma DrawingBegins(m: Model, x: real, y: real, p: real, windowSeq: int)
    ensures Drawing(m, BeginStroke(m, x, y, p, windowSeq), x, y, p, windowSeq, Nil)
  {
    assert [Pt(x, y, p)] + [] == [Pt(x, y, p)];
  }

  lemma DrawingMore(m: Model, m1: Model, x: real, y: real, p: real, windowSeq: int, init: List<DrawOp>, d: DrawOp)
    requires Drawing(m, m1, x, y, p, windowSeq, init)
    ensures Drawing(m, Apply(m1, AsOp(d)), x, y, p, windowSeq, Snoc(init, d))
  {
    match d
    case Shift(dx, dy) => DrawingShifts(m, m1, x, y, p, windowSeq, init, dx, dy);
    case Point(qx, qy, qp) =>
      var first, rest := Pt(x + ShiftX(init), y + ShiftY(init), p), PointsOf(init, 0.0, 0.0);
      assert ([first] + rest) + [Pt(qx, qy, qp)] == [first] + (rest + [Pt(qx, qy, qp)]);
    case Recolor(_) =>
  }

  lemma {:induction false} GestureDrawing(ops: List<Op>, x: real, y: real, p: real, windowSeq: int, gesture: List<DrawOp>)
    ensures
      var m, m' := Track(ops).m, Track(Then(Snoc(ops, OpBeginStroke(x, y, p, windowSeq)), gesture)).m;
      Drawing(m, m', x, y, p, windowSeq, gesture)
  {
    hide Drawing, BeginStroke, Snapshots;
    var m, begin := Track(ops).m, Snoc(ops, OpBeginStroke(x, y, p, windowSeq));
    match gesture
    case Nil => DrawingBegins(m, x, y, p, windowSeq);
    case Snoc(init, d) =>
      GestureDrawing(ops, x, y, p, windowSeq, init);
      hide Apply;
      DrawingMore(m, Track(Then(begin, init)).m, x, y, p, windowSeq, init, d);
  }

  /** What ends a stroke in progress by putting it into the drawing. */
  predicate Ends(op: Op) {
    op.OpCommitCurrent? || op.OpBeginStroke? || op.OpBeginErase?
  }

  /** A gesture of points, with the content shifted and the colour changed anywhere in between, adds exactly one stroke
      behind those that were there: with the colour last set before the gesture, the window it began on, and its
      points in order with their pressures. All of it is moved by the shifts that came after it. */
  lemma GestureDraws(ops: List<Op>, x: real, y: real, p: real, windowSeq: int, gesture: List<DrawOp>, end: Op)
    requires Ends(end)
    ensures
      var earlier := WithCurrent(Track(ops).m);
      var drawn := Track(Snoc(Then(Snoc(ops, OpBeginStroke(x, y, p, windowSeq)), gesture), end)).m.strokes;
      && |drawn| == |earlier| + 1
      && ShiftedBy(earlier, drawn[..|earlier|], ShiftX(gesture), ShiftY(gesture))
      && drawn[|earlier|] == StrokeOf(LastColor(ops), x, y, p, windowSeq, gesture)
  {
    GestureDrawing(ops, x, y, p, windowSeq, gesture);
    PenIsLast(ops);
    var m' := Track(Then(Snoc(ops, OpBeginStroke(x, y, p, windowSeq)), gesture)).m;
    assert Apply(m', end).strokes == m'.strokes + [m'.current.value];
  }

  // ---- Erasing ----

  function ErasedX(gesture: List<EraseOp>): real {
    match gesture
    case Nil => 0.0
    case Snoc(init, d) => ErasedX(init) + if d.Translate? then d.dx else 0.0
  }

  function ErasedY(gesture: List<EraseOp>): real {
    match gesture
    case Nil => 0.0
    case Snoc(init, d) => ErasedY(init) + if d.Translate? then d.dy else 0.0
  }

  function PathRest(gesture: List<EraseOp>, dx: real, dy: real): seq<Pt> {
    match gesture
    case Nil => []
    case Snoc(init, Append(x, y)) => PathRest(init, dx, dy) + [Pt(x + dx, y + dy, 0.0)]
    case Snoc(init, Translate(tx, ty)) => PathRest(init, tx + dx, ty + dy)
  }

  /** The path of an eraser gesture: its points in order, each moved by the translations after it. */
  function PathOf(x: real, y: real, gesture: List<EraseOp>): seq<Pt> {
    [Pt(x + ErasedX(gesture), y + ErasedY(gesture), 0.0)] + PathRest(gesture, 0.0, 0.0)
  }

  lemma {:induction false} PathMoved(gesture: List<EraseOp>, dx: real, dy: real, tx: real, ty: real)
    ensures MovePts(PathRest(gesture, dx, dy), tx, ty) == PathRest(gesture, dx + tx, dy + ty)
  {
    match gesture
    case Nil =>
    case Snoc(init, Append(x, y)) =>
      PathMoved(init, dx, dy, tx, ty);
      var before := PathRest(init, dx, dy);
      assert (before + [Pt(x + dx, y + dy, 0.0)])[..|before|] == before;
    case Snoc(init, Translate(sx, sy)) =>
      PathMoved(init, sx + dx, sy + dy, tx, ty);
      assert sx + dx + tx == sx + (dx + tx) && sy + dy + ty == sy + (dy + ty);
  }

  lemma AppendPath(m: Model, x: real, y: real)
    requires m.eraser.Some?
    ensures
      var m' := AppendErase(m, x, y);
      m'.eraser == Some(m.eraser.value + [Pt(x, y, 0.0)]) && m'.eraserSeq == m.eraserSeq
  {
    hide Unhit;
  }

  lemma TranslatePath(m: Model, x: real, y: real, init: List<EraseOp>, dx: real, dy: real)
    requires m.eraser == Some(PathOf(x, y, init))
    ensures TranslateAll(m, dx, dy).eraser == Some(PathOf(x, y, Snoc(init, Translate(dx, dy))))
  {
    hide MoveStrokes;
    PathMoved(init, 0.0, 0.0, dx, dy);
    var first, rest := Pt(x + ErasedX(init), y + ErasedY(init), 0.0), PathRest(init, 0.0, 0.0);
    assert MovePts([first] + rest, dx, dy) == [first.Moved(dx, dy)] + MovePts(rest, dx, dy);
    assert PathRest(Snoc(init, Translate(dx, dy)), 0.0, 0.0) == PathRest(init, 0.0 + dx, 0.0 + dy);
  }

  lemma {:induction false} EraserPathIs(m: Model, x: real, y: real, windowSeq: int, gesture: List<EraseOp>)
    ensures
      var erased := EraseRun(BeginErase(m, x, y, windowSeq), gesture);
      erased.eraser == Some(PathOf(x, y, gesture)) && erased.eraserSeq == windowSeq
  {
    hide AppendErase, TranslateAll;
    match gesture
    case Nil => assert [Pt(x, y, 0.0)] + [] == [Pt(x, y, 0.0)];
    case Snoc(init, Append(qx, qy)) =>
      EraserPathIs(m, x, y, windowSeq, init);
      AppendPath(EraseRun(BeginErase(m, x, y, windowSeq), init), qx, qy);
      var first, rest := Pt(x + ErasedX(init), y + ErasedY(init), 0.0), PathRest(init, 0.0, 0.0);
      assert [first] + (rest + [Pt(qx, qy, 0.0)]) == ([first] + rest) + [Pt(qx, qy, 0.0)];
      assert qx + 0.0 == qx && qy + 0.0 == qy;
    case Snoc(init, Translate(dx, dy)) =>
      EraserPathIs(m, x, y, windowSeq, init);
      TranslatePath(EraseRun(BeginErase(m, x, y, windowSeq), init), x, y, init, dx, dy);
      TranslateSeq(EraseRun(BeginErase(m, x, y, windowSeq), init), dx, dy);
  }

  lemma TranslateSeq(m: Model, dx: real, dy: real)
    ensures TranslateAll(m, dx, dy).eraserSeq == m.eraserSeq
  {
  }

  lemma {:induction false} MovedShifts(strokes: seq<Stroke>, gesture: List<EraseOp>)
    ensures ShiftedBy(strokes, MovedBy(strokes, gesture), ErasedX(gesture), ErasedY(gesture))
  {
    match gesture
    case Nil =>
    case Snoc(init, Append(_, _)) => MovedShifts(strokes, init);
    case Snoc(init, Translate(dx, dy)) =>
      MovedShifts(strokes, init);
      ShiftMore(strokes, MovedBy(strokes, init), ErasedX(init), ErasedY(init), dx, dy);
  }

  /** The places of the strokes that are kept, in order. */
  ghost predicate KeptPlaces(strokes: seq<Stroke>, kept: seq<Stroke>, places: seq<nat>, path: seq<Pt>, windowSeq: int) {
    && |places| == |kept|
    && (forall i, j :: 0 <= i < j < |places| ==> places[i] < places[j])
    && (forall i :: 0 <= i < |places| ==> places[i] < |strokes| && kept[i] == strokes[places[i]])
    && (forall k :: 0 <= k < |strokes| ==> (k in places <==> Survives(strokes[k], path, windowSeq)))
  }

  /** A stroke survives a path that does not hit it, and a path on a window that it is not on. */
  ghost predicate Survives(s: Stroke, path: seq<Pt>, windowSeq: int) {
    !StrokeHitByEraser(s, path) || (windowSeq >= 0 && s.windowSeq != windowSeq)
  }

  lemma PlacesMore(strokes: seq<Stroke>, kept: seq<Stroke>, before: seq<nat>, path: seq<Pt>, windowSeq: int)
    requires strokes != [] && KeptPlaces(strokes[..|strokes| - 1], kept, before, path, windowSeq)
    ensures
      var n := |strokes| - 1;
      if Survives(strokes[n], path, windowSeq) then
        KeptPlaces(strokes, kept + [strokes[n]], before + [n], path, windowSeq)
      else KeptPlaces(strokes, kept, before, path, windowSeq)
  {
    hide Survives;
    var n := |strokes| - 1;
    assert n !in before;
    forall k | 0 <= k < |strokes|
      ensures k in before <==> k < n && Survives(strokes[k], path, windowSeq)
      ensures k in before + [n] <==> k == n || k in before
    {
      if k < n {
        assert strokes[..n][k] == strokes[k];
      }
    }
  }

  lemma {:induction false} UnhitPlaces(strokes: seq<Stroke>, path: seq<Pt>, windowSeq: int) returns (places: seq<nat>)
    ensures KeptPlaces(strokes, Unhit(strokes, path, windowSeq), places, path, windowSeq)
  {
    hide StrokeHitByEraser, KeptPlaces;
    places := [];
    if strokes == [] {
      NoPlaces(path, windowSeq);
    } else {
      var n := |strokes| - 1;
      places := UnhitPlaces(strokes[..n], path, windowSeq);
      PlacesMore(strokes, Unhit(strokes[..n], path, windowSeq), places, path, windowSeq);
      if Keeps(strokes[n], path, windowSeq) {
        places := places + [n];
      }
    }
  }

  lemma NoPlaces(path: seq<Pt>, windowSeq: int)
    ensures KeptPlaces([], [], [], path, windowSeq)
  {
  }

  /** A finished eraser gesture removes exactly the strokes that its path hits, of those on the window it began on or of
      all; the others keep their order and are moved as the content was. */
  lemma GestureErases(ops: List<Op>, x: real, y: real, windowSeq: int, gesture: List<EraseOp>) returns (places: seq<nat>)
    ensures
      var m := Track(ops).m;
      var earlier, erased := WithCurrent(m), EraseRun(BeginErase(m, x, y, windowSeq), gesture);
      && ShiftedBy(earlier, MovedBy(earlier, gesture), ErasedX(gesture), ErasedY(gesture))
      && KeptPlaces(MovedBy(earlier, gesture), FinishErase(erased).strokes, places, PathOf(x, y, gesture), windowSeq)
      && FinishErase(erased).eraser == None && FinishErase(erased).current == None
  {
    var m := Track(ops).m;
    var earlier, begun := WithCurrent(m), BeginErase(m, x, y, windowSeq);
    assert begun.strokes == earlier;
    ErasingIsOneFilter(m, x, y, windowSeq, gesture);
    EraserPathIs(m, x, y, windowSeq, gesture);
    MovedShifts(earlier, gesture);
    NoInkWhileErasing(begun, gesture);
    hide Unhit, StrokeHitByEraser;
    places := UnhitPlaces(MovedBy(earlier, gesture), PathOf(x, y, gesture), windowSeq);
  }

  lemma {:induction false} NoInkWhileErasing(m: Model, gesture: List<EraseOp>)
    requires m.current == None
    ensures EraseRun(m, gesture).current == None
  {
    if gesture.Snoc? {
      NoInkWhileErasing(m, gesture.init);
    }
  }

  /** A stroke hits an eraser path exactly when the path, taken as a stroke, hits the stroke, taken as a path. */
  lemma HitSymmetric(s: Stroke, path: seq<Pt>)
    ensures StrokeHitByEraser(s, path) <==> StrokeHitByEraser(Stroke(s.rgba, path, s.windowSeq), s.pts)
  {
  }

  /** A point touches a path of two or more points exactly when it comes within 10 of one of its segments. */
  lemma TouchesIff(px: real, py: real, pts: seq<Pt>)
    ensures |pts| == 0 ==> !Touches(px, py, pts)
    ensures |pts| == 1 ==> (Touches(px, py, pts) <==> PointDistSq(px, py, pts[0]) <= 100.0)
    ensures |pts| >= 2 ==>
      (Touches(px, py, pts) <==>
       exists i :: 0 <= i < |pts| - 1 && PointSegmentDistSq(px, py, pts[i], pts[i + 1]) <= 100.0)
  {
    if |pts| >= 2 {
      SegmentsLeast(px, py, pts, |pts| - 1);
    }
  }

  lemma {:induction false} SegmentsLeast(px: real, py: real, pts: seq<Pt>, n: nat)
    requires n < |pts|
    ensures n == 0 <==> SegmentsDistSq(px, py, pts, n) == None
    ensures n > 0 ==>
      var d := SegmentsDistSq(px, py, pts, n).value;
      && (forall i :: 0 <= i < n ==> d <= PointSegmentDistSq(px, py, pts[i], pts[i + 1]))
      && exists i :: 0 <= i < n && d == PointSegmentDistSq(px, py, pts[i], pts[i + 1])
  {
    hide PointSegmentDistSq;
    if n > 0 {
      SegmentsLeast(px, py, pts, n - 1);
      assert pts[n - 1 + 1] == pts[n];
    }
  }

  // ---- Clearing ----

  /** Clearing empties the drawing and ends what is in progress; undoing it brings the strokes back. */
  lemma ClearEmpties(ops: List<Op>)
    ensures
      var m, cleared := Track(ops).m, Track(Snoc(ops, OpClearAll)).m;
      && cleared.strokes == [] && cleared.current == None && cleared.eraser == None
      && Track(Snoc(Snoc(ops, OpClearAll), OpUndoOne)).m.strokes == m.strokes
  {
    var m, cleared := Track(ops).m, Track(Snoc(ops, OpClearAll)).m;
    assert cleared == ClearAll(m);
  }

  /** With nothing in progress, ending and extending a stroke and finishing an erase leave the drawing and its history as
      they are. */
  lemma NothingInProgress(m: Model, op: Op)
    requires m.current == None && m.eraser == None
    requires op.OpCommitCurrent? || op.OpFinishErase? || op.OpAppendPoint? || op.OpSetPenColor?
    ensures Apply(m, op).strokes == m.strokes && Apply(m, op).undo == m.undo
    ensures Apply(m, op).current == None && Apply(m, op).eraser == None
  {
  }
}
