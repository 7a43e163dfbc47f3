/** The stroke model with its objects: strokes and their points are shared by reference and moved in place. */
module Strokes {
  import opened Options
  import opened StrokeModelSpec
  import opened StrokeSpec

  /** A point belongs to one place of one stroke for ever, or of an eraser path if it has no owner. */
  class Point {
    var x: real
    var y: real
    var p: real
    ghost const owner: InkStroke?
    ghost const index: nat

    constructor (x: real, y: real, p: real, ghost owner: InkStroke?, ghost index: nat)
      ensures Shows(Pt(x, y, p)) && this.owner == owner && this.index == index
    {
      this.x, this.y, this.p := x, y, p;
      this.owner, this.index := owner, index;
    }

    ghost predicate Shows(v: Pt)
      reads this
    {
      x == v.x && y == v.y && p == v.p
    }
  }

  ghost predicate Owned(pts: seq<Point>, owner: InkStroke?) {
    forall i :: 0 <= i < |pts| ==> pts[i].owner == owner && pts[i].index == i
  }

  ghost predicate ShowPts(pts: seq<Point>, vs: seq<Pt>)
    reads pts
  {
    |pts| == |vs| && forall i :: 0 <= i < |pts| ==> pts[i].Shows(vs[i])
  }

  method TranslatePoints(pts: seq<Point>, dx: real, dy: real, ghost vs: seq<Pt>, ghost owner: InkStroke?)
    requires Owned(pts, owner) && ShowPts(pts, vs)
    modifies pts
    ensures ShowPts(pts, MovePts(vs, dx, dy))
  {
    for i := 0 to |pts|
      invariant forall k :: 0 <= k < i ==> pts[k].Shows(vs[k].Moved(dx, dy))
      invariant forall k :: i <= k < |pts| ==> pts[k].Shows(vs[k])
    {
      pts[i].x := pts[i].x + dx;
      pts[i].y := pts[i].y + dy;
    }
  }

  class InkStroke {
    var rgba: seq<real>
    var pts: seq<Point>
    var windowSeq: int

    constructor (rgba: seq<real>, windowSeq: int)
      ensures Shows(Stroke(rgba, [], windowSeq)) && pts == []
    {
      this.rgba, this.windowSeq := rgba, windowSeq;
      this.pts := [];
    }

    ghost predicate Shows(v: Stroke)
      reads this, pts
    {
      rgba == v.rgba && windowSeq == v.windowSeq && Owned(pts, this) && ShowPts(pts, v.pts)
    }

    method Push(x: real, y: real, p: real, ghost v: Stroke)
      requires Shows(v)
      modifies this
      ensures Shows(Stroke(v.rgba, v.pts + [Pt(x, y, p)], v.windowSeq))
      ensures |pts| == |old(pts)| + 1 && pts[..|old(pts)|] == old(pts) && fresh(pts[|old(pts)|])
    {
      var point := new Point(x, y, p, this, |pts|);
      pts := pts + [point];
    }

    method Translate(dx: real, dy: real, ghost v: Stroke)
      requires Shows(v)
      modifies pts
      ensures Shows(v.Moved(dx, dy))
    {
      TranslatePoints(pts, dx, dy, v.pts, this);
    }

    /** One element of _cloneStrokes. */
    method Clone(ghost v: Stroke) returns (copy: InkStroke)
      requires Shows(v)
      ensures fresh(copy) && copy.Shows(v)
      ensures forall p :: p in copy.pts ==> fresh(p)
    {
      copy := new InkStroke(rgba, windowSeq);
      for i := 0 to |pts|
        invariant fresh(copy)
        invariant copy.Shows(Stroke(v.rgba, v.pts[..i], v.windowSeq))
        invariant forall p :: p in copy.pts ==> fresh(p)
      {
        copy.Push(pts[i].x, pts[i].y, pts[i].p, Stroke(v.rgba, v.pts[..i], v.windowSeq));
        assert v.pts[..i + 1] == v.pts[..i] + [v.pts[i]];
      }
      assert v.pts[..|pts|] == v.pts;
    }
  }

  // ---- The hit test on objects ----

  method PointToPolyline(px: real, py: real, pts: seq<Point>, ghost vs: seq<Pt>) returns (best: Option<real>)
    requires ShowPts(pts, vs)
    ensures best == PointToPolylineDistSq(px, py, vs)
  {
    if |pts| == 0 {
      return None;
    }
    if |pts| == 1 {
      return Some(PointDistSq(px, py, Pt(pts[0].x, pts[0].y, pts[0].p)));
    }
    best := None;
    var i := 0;
    while i + 1 < |pts|
      invariant 0 <= i < |pts|
      invariant best == SegmentsDistSq(px, py, vs, i)
    {
      var a, b := pts[i], pts[i + 1];
      var d := PointSegmentDistSq(px, py, Pt(a.x, a.y, a.p), Pt(b.x, b.y, b.p));
      if Less(d, best) {
        best := Some(d);
      }
      i := i + 1;
    }
  }

  method AnyTouches(points: seq<Point>, path: seq<Point>, ghost vs: seq<Pt>, ghost path': seq<Pt>) returns (hit: bool)
    requires ShowPts(points, vs) && ShowPts(path, path')
    ensures hit <==> exists i :: 0 <= i < |vs| && Touches(vs[i].x, vs[i].y, path')
  {
    for i := 0 to |points|
      invariant forall k :: 0 <= k < i ==> !Touches(vs[k].x, vs[k].y, path')
    {
      var d := PointToPolyline(points[i].x, points[i].y, path, path');
      if d.Some? && d.value <= ERASE_RADIUS_SQ {
        assert Touches(vs[i].x, vs[i].y, path');
        return true;
      }
    }
    return false;
  }

  method HitByEraser(stroke: InkStroke, eraser: seq<Point>, ghost v: Stroke, ghost vs: seq<Pt>) returns (hit: bool)
    requires stroke.Shows(v) && ShowPts(eraser, vs)
    ensures hit <==> StrokeHitByEraser(v, vs)
  {
    if |stroke.pts| == 0 || |eraser| == 0 {
      return false;
    }
    hit := AnyTouches(stroke.pts, eraser, v.pts, vs);
    if !hit {
      hit := AnyTouches(eraser, stroke.pts, vs, v.pts);
    }
  }

  // ---- Lists of strokes ----

  /** These strokes, with everything they consist of, lie in the region and show these values. */
  ghost predicate ShowStrokes(strokes: seq<InkStroke>, vs: seq<Stroke>, region: set<object>)
    reads region
  {
    && |strokes| == |vs|
    && (forall i :: 0 <= i < |strokes| ==> strokes[i] in region)
    && (forall i, k :: 0 <= i < |strokes| && 0 <= k < |strokes[i].pts| ==> strokes[i].pts[k] in region)
    && (forall i :: 0 <= i < |strokes| ==> strokes[i].Shows(vs[i]))
  }

  ghost predicate Distinct(strokes: seq<InkStroke>) {
    forall i, j :: 0 <= i < j < |strokes| ==> strokes[i] != strokes[j]
  }

  lemma ShowStrokesAppend(strokes: seq<InkStroke>, vs: seq<Stroke>, s: InkStroke, v: Stroke, region: set<object>)
    requires ShowStrokes(strokes, vs, region)
    requires s in region && s.Shows(v) && forall k :: 0 <= k < |s.pts| ==> s.pts[k] in region
    ensures ShowStrokes(strokes + [s], vs + [v], region)
  {
  }

  /** translateAll's outer loop. */
  method TranslateStrokes(strokes: seq<InkStroke>, dx: real, dy: real, ghost vs: seq<Stroke>, ghost region: set<object>)
    requires ShowStrokes(strokes, vs, region) && Distinct(strokes)
    modifies region
    ensures ShowStrokes(strokes, MoveStrokes(vs, dx, dy), region)
  {
    for i := 0 to |strokes|
      invariant forall k :: 0 <= k < i ==> strokes[k].Shows(vs[k].Moved(dx, dy))
      invariant forall k :: i <= k < |strokes| ==> strokes[k].Shows(vs[k])
      invariant forall k :: 0 <= k < |strokes| ==> strokes[k].pts == old(strokes[k].pts)
    {
      strokes[i].Translate(dx, dy, vs[i]);
    }
  }

  /** The callback of _applyEraser's filter. */
  method KeepsStroke(s: InkStroke, path: seq<Point>, seqNo: int, ghost v: Stroke, ghost path': seq<Pt>)
    returns (keep: bool)
    requires s.Shows(v) && ShowPts(path, path')
    ensures keep == Keeps(v, path', seqNo)
  {
    if seqNo >= 0 && s.windowSeq != seqNo {
      return true;
    }
    var hit := HitByEraser(s, path, v, path');
    return !hit;
  }

  method FilterStrokes(strokes: seq<InkStroke>, path: seq<Point>, seqNo: int,
                       ghost vs: seq<Stroke>, ghost path': seq<Pt>, ghost region: set<object>)
    returns (kept: seq<InkStroke>)
    requires ShowStrokes(strokes, vs, region) && Distinct(strokes) && ShowPts(path, path')
    ensures ShowStrokes(kept, Unhit(vs, path', seqNo), region) && Distinct(kept)
  {
    kept := [];
    for i := 0 to |strokes|
      invariant ShowStrokes(kept, Unhit(vs[..i], path', seqNo), region) && Distinct(kept)
      invariant forall s :: s in kept ==> s in strokes[..i]
    {
      UnhitAppend(vs[..i], vs[i], path', seqNo);
      assert vs[..i + 1] == vs[..i] + [vs[i]];
      var keep := KeepsStroke(strokes[i], path, seqNo, vs[i], path');
      if keep {
        assert strokes[i] !in strokes[..i];
        ShowStrokesAppend(kept, Unhit(vs[..i], path', seqNo), strokes[i], vs[i], region);
        kept := kept + [strokes[i]];
      }
    }
    assert vs[..|strokes|] == vs;
  }

  /** _cloneStrokes: nothing of the copy is shared with anything. */
  method CloneStrokes(strokes: seq<InkStroke>, ghost vs: seq<Stroke>, ghost region: set<object>)
    returns (copy: seq<InkStroke>, ghost copied: set<object>)
    requires ShowStrokes(strokes, vs, region)
    ensures ShowStrokes(copy, vs, copied) && Distinct(copy) && fresh(copied)
  {
    copy := [];
    copied := {};
    for i := 0 to |strokes|
      invariant fresh(copied) && Distinct(copy)
      invariant ShowStrokes(copy, vs[..i], copied)
    {
      var s := strokes[i].Clone(vs[i]);
      copy := copy + [s];
      copied := copied + {s} + (set p | p in s.pts);
    }
    assert vs[..|strokes|] == vs;
  }

  /** The undo stack. Its snapshots share no object with each other. */
  class UndoHistory {
    var stack: seq<seq<InkStroke>>
    ghost var snapshots: seq<seq<Stroke>>    // the values each snapshot was taken with
    ghost var past: seq<set<object>>         // the objects of each snapshot
    ghost var Repr: set<object>

    /** Snapshot k still shows the values it was taken with. */
    ghost predicate Intact(k: nat)
      requires k < |stack| == |past| == |snapshots|
      reads this, past[k]
    {
      ShowStrokes(stack[k], snapshots[k], past[k]) && Distinct(stack[k])
    }

    ghost predicate Valid()
      reads this, Repr
    {
      && this in Repr
      && |stack| == |past| == |snapshots|
      && (forall k :: 0 <= k < |past| ==> past[k] <= Repr && this !in past[k])
      && (forall j, k :: 0 <= j < k < |past| ==> past[j] !! past[k])
      && (forall k :: 0 <= k < |past| ==> Intact(k))
    }

    constructor ()
      ensures Valid() && fresh(Repr) && snapshots == []
    {
      stack, snapshots, past := [], [], [];
      Repr := {this};
    }

    /** Array push. */
    method Push(copy: seq<InkStroke>, ghost vs: seq<Stroke>, ghost copied: set<object>)
      requires Valid() && ShowStrokes(copy, vs, copied) && Distinct(copy) && copied !! Repr
      modifies this
      ensures Valid() && Repr == old(Repr) + copied
      ensures snapshots == old(snapshots) + [vs]
    {
      stack := stack + [copy];
      past := past + [copied];
      snapshots := snapshots + [vs];
      Repr := Repr + copied;
      forall k | 0 <= k < |past| ensures Intact(k) {
        if k < |past| - 1 {
          assert old(Intact(k));
        }
      }
    }

    /** Array shift. */
    method Shift()
      requires Valid() && stack != []
      modifies this
      ensures Valid() && Repr <= old(Repr)
      ensures snapshots == old(snapshots)[1..]
    {
      stack := stack[1..];
      past := past[1..];
      snapshots := snapshots[1..];
      forall k | 0 <= k < |past| ensures Intact(k) {
        assert old(Intact(k + 1));
      }
    }

    /** A snapshot is added; beyond 48 the oldest are dropped. */
    method PushCapped(copy: seq<InkStroke>, ghost vs: seq<Stroke>, ghost copied: set<object>)
      requires Valid() && ShowStrokes(copy, vs, copied) && Distinct(copy) && copied !! Repr
      modifies this
      ensures Valid() && Repr <= old(Repr) + copied
      ensures snapshots == Capped(old(snapshots) + [vs])
    {
      Push(copy, vs, copied);
      while |stack| > UNDO_CAP
        invariant Valid() && Repr <= old(Repr) + copied
        invariant Capped(snapshots) == Capped(old(snapshots) + [vs])
      {
        Shift();
      }
    }

    /** Array pop: the objects of the newest snapshot are handed out and are the history's no more. */
    method Pop() returns (strokes: seq<InkStroke>, ghost region: set<object>)
      requires Valid() && stack != []
      modifies this
      ensures Valid() && Repr <= old(Repr) && Repr !! region && region <= old(Repr) && this !in region
      ensures snapshots == old(snapshots)[..|old(snapshots)| - 1]
      ensures ShowStrokes(strokes, old(snapshots)[|old(snapshots)| - 1], region) && Distinct(strokes)
    {
      var n := |stack| - 1;
      assert Intact(n);
      strokes, region := stack[n], past[n];
      stack := stack[..n];
      past := past[..n];
      snapshots := snapshots[..n];
      Repr := Repr - region;
      forall k | 0 <= k < |past| ensures Intact(k) {
        assert old(Intact(k));
      }
    }
  }

  /** The stroke being drawn, if any. */
  ghost predicate ShowCurrent(current: InkStroke?, v: Option<Stroke>, region: set<object>)
    reads region
  {
    match v
    case None => current == null
    case Some(stroke) =>
      && current != null && current in region && (forall k :: 0 <= k < |current.pts| ==> current.pts[k] in region)
      && current.Shows(stroke)
  }

  /** The eraser path, if any. */
  ghost predicate ShowEraser(path: Option<seq<Point>>, v: Option<seq<Pt>>, region: set<object>)
    reads region
  {
    match v
    case None => path.None?
    case Some(pts) =>
      && path.Some? && (forall k :: 0 <= k < |path.value| ==> path.value[k] in region)
      && Owned(path.value, null) && ShowPts(path.value, pts)
  }

  class StrokeModel {
    var strokes: seq<InkStroke>
    var current: InkStroke?
    var eraserPath: Option<seq<Point>>
    var eraserWindowSeq: int
    var penRGBA: seq<real>
    const history: UndoHistory
    ghost var model: Model
    ghost var live: set<object>     // the objects of the strokes
    ghost var wet: set<object>      // those of the current stroke
    ghost var rubber: set<object>   // those of the eraser path

    /** The drawing is the one of the model. */
    ghost predicate WorkShows()
      reads this, live, wet, rubber
    {
      && ShowStrokes(strokes, model.strokes, live) && Distinct(strokes)
      && ShowCurrent(current, model.current, wet)
      && ShowEraser(eraserPath, model.eraser, rubber)
      && eraserWindowSeq == model.eraserSeq && penRGBA == model.pen
    }

    ghost predicate Apart()
      reads this, history
    {
      && this !in live && this !in wet && this !in rubber && this !in history.Repr
      && live !! wet && live !! rubber && wet !! rubber
      && live !! history.Repr && wet !! history.Repr && rubber !! history.Repr
    }

    /** No object is shared between the live drawing and a snapshot. */
    ghost predicate Valid()
      reads this, live, wet, rubber, history, history.Repr
    {
      && Apart() && history.Valid() && history.snapshots == model.undo
      && WorkShows()
    }

    lemma EraserShown()
      requires Valid()
      ensures eraserPath.Some? <==> model.eraser.Some?
    {
    }

    ghost function Repr(): set<object>
      reads this, history
    {
      {this, history} + live + wet + rubber + history.Repr
    }

    constructor ()
      ensures Valid() && fresh(Repr()) && model == EMPTY
    {
      strokes := [];
      current := null;
      eraserPath := None;
      eraserWindowSeq := -1;
      penRGBA := [0.1, 0.1, 0.1, 1.0];
      history := new UndoHistory();
      model := EMPTY;
      live, wet, rubber := {}, {}, {};
    }

    /** _pushUndoState. */
    method PushUndoState()
      requires Valid()
      modifies `model, history
      ensures Valid() && fresh(Repr() - old(Repr()))
      ensures model == PushUndo(old(model))
    {
      var copy;
      ghost var copied;
      copy, copied := CloneStrokes(strokes, model.strokes, live);
      history.PushCapped(copy, model.strokes, copied);
      model := PushUndo(model);
    }

    method UndoOne() returns (undone: bool)
      requires Valid()
      modifies this, history
      ensures Valid() && Repr() <= old(Repr())
      ensures model == StrokeModelSpec.UndoOne(old(model)) && undone == (old(model).undo != [])
    {
      if |history.stack| == 0 {
        return false;
      }
      TakeBack();
      DropCurrent();
      DropEraser();
      return true;
    }

    method TakeBack()
      requires Valid() && model.undo != []
      modifies `strokes, `live, `model, history
      ensures Valid() && Repr() <= old(Repr())
      ensures
        var undo := old(model).undo;
        model == old(model).(strokes := undo[|undo| - 1], undo := undo[..|undo| - 1])
    {
      strokes, live := history.Pop();
      model := model.(strokes := model.undo[|model.undo| - 1], undo := model.undo[..|model.undo| - 1]);
    }

    method DropCurrent()
      requires Valid()
      modifies `current, `wet, `model
      ensures Valid() && Repr() <= old(Repr())
      ensures model == old(model).(current := None) && current == null
    {
      current, wet := null, {};
      model := model.(current := None);
    }

    method DropStrokes()
      requires Valid()
      modifies `strokes, `live, `model
      ensures Valid() && Repr() <= old(Repr())
      ensures model == old(model).(strokes := [])
    {
      strokes, live := [], {};
      model := model.(strokes := []);
    }

    method SetPenColor(rgba: seq<real>)
      requires Valid()
      modifies `penRGBA, `model
      ensures Valid() && model == StrokeModelSpec.SetPenColor(old(model), rgba)
    {
      penRGBA := rgba;
      model := StrokeModelSpec.SetPenColor(model, rgba);
    }

    method ClearAll()
      requires Valid()
      modifies this, history
      ensures Valid() && fresh(Repr() - old(Repr()))
      ensures model == StrokeModelSpec.ClearAll(old(model))
    {
      PushUndoState();
      DropStrokes();
      DropCurrent();
      DropEraser();
    }

    method CommitCurrent()
      requires Valid()
      modifies this, history
      ensures Valid() && fresh(Repr() - old(Repr()))
      ensures model == StrokeModelSpec.CommitCurrent(old(model))
      ensures current == null
    {
      if current != null && |current.pts| > 0 {
        PushUndoState();
        PushCurrent();
      }
      DropCurrent();
    }

    method PushCurrent()
      requires Valid() && current != null
      modifies `strokes, `live, `current, `wet, `model
      ensures Valid() && Repr() == old(Repr())
      ensures old(model).current.Some?
      ensures model == old(model).(strokes := old(model).strokes + [old(model).current.value], current := None)
    {
      strokes, live := strokes + [current], live + wet;
      current, wet := null, {};
      model := model.(strokes := model.strokes + [model.current.value], current := None);
    }

    method BeginStroke(x: real, y: real, p: real, windowSeq: int)
      requires Valid()
      modifies this, history
      ensures Valid() && fresh(Repr() - old(Repr()))
      ensures model == StrokeModelSpec.BeginStroke(old(model), x, y, p, windowSeq)
    {
      CommitCurrent();
      DropEraser();
      StartStroke(x, y, p, windowSeq);
    }

    method StartStroke(x: real, y: real, p: real, windowSeq: int)
      requires Valid()
      modifies `current, `wet, `model
      ensures Valid() && fresh(Repr() - old(Repr()))
      ensures model == old(model).(current := Some(Stroke(old(model).pen, [Pt(x, y, p)], windowSeq)))
    {
      var stroke := new InkStroke(penRGBA, windowSeq);
      stroke.Push(x, y, p, Stroke(penRGBA, [], windowSeq));
      current, wet := stroke, {stroke, stroke.pts[0]};
      model := model.(current := Some(Stroke(model.pen, [Pt(x, y, p)], windowSeq)));
    }

    method BeginErase(x: real, y: real, windowSeq: int)
      requires Valid()
      modifies this, history
      ensures Valid() && fresh(Repr() - old(Repr()))
      ensures model == StrokeModelSpec.BeginErase(old(model), x, y, windowSeq)
    {
      CommitCurrent();
      StartErase(x, y, windowSeq);
    }

    method StartErase(x: real, y: real, windowSeq: int)
      requires Valid()
      modifies `eraserPath, `eraserWindowSeq, `rubber, `model
      ensures Valid() && fresh(Repr() - old(Repr()))
      ensures model == old(model).(eraserSeq := windowSeq, eraser := Some([Pt(x, y, 0.0)]))
    {
      eraserWindowSeq := windowSeq;
      var point := new Point(x, y, 0.0, null, 0);
      eraserPath, rubber := Some([point]), {point};
      model := model.(eraserSeq := windowSeq, eraser := Some([Pt(x, y, 0.0)]));
    }

    method AppendPoint(x: real, y: real, p: real)
      requires Valid()
      modifies `wet, `model, wet
      ensures Valid() && fresh(Repr() - old(Repr()))
      ensures model == StrokeModelSpec.AppendPoint(old(model), x, y, p)
    {
      if current == null {
        return;
      }
      current.Push(x, y, p, model.current.value);
      wet := wet + {current.pts[|current.pts| - 1]};
      model := StrokeModelSpec.AppendPoint(model, x, y, p);
    }

    method AppendErase(x: real, y: real)
      requires Valid()
      modifies this
      ensures Valid() && fresh(Repr() - old(Repr()))
      ensures model == StrokeModelSpec.AppendErase(old(model), x, y)
    {
      PushEraser(x, y);
      ApplyEraser();
    }

    method PushEraser(x: real, y: real)
      requires Valid()
      modifies `eraserPath, `rubber, `model
      ensures Valid() && fresh(Repr() - old(Repr()))
      ensures model == old(model).(
        eraser := Some((if old(model).eraser.Some? then old(model).eraser.value else []) + [Pt(x, y, 0.0)]))
    {
      var path := if eraserPath.Some? then eraserPath.value else [];
      var point := new Point(x, y, 0.0, null, |path|);
      eraserPath, rubber := Some(path + [point]), rubber + {point};
      model := model.(eraser := Some((if model.eraser.Some? then model.eraser.value else []) + [Pt(x, y, 0.0)]));
    }

    method FinishErase()
      requires Valid()
      modifies this, history
      ensures Valid() && fresh(Repr() - old(Repr()))
      ensures model == StrokeModelSpec.FinishErase(old(model))
    {
      if eraserPath.Some? && |eraserPath.value| > 0 {
        PushUndoState();
        ApplyEraser();
      }
      DropEraser();
    }

    method DropEraser()
      requires Valid()
      modifies `eraserPath, `eraserWindowSeq, `rubber, `model
      ensures Valid() && Repr() <= old(Repr())
      ensures model == old(model).(eraser := None, eraserSeq := -1)
    {
      eraserPath, rubber := None, {};
      eraserWindowSeq := -1;
      model := model.(eraser := None, eraserSeq := -1);
    }

    /** _applyEraser. */
    method ApplyEraser()
      requires Valid()
      modifies `strokes, `model
      ensures Valid()
      ensures model == StrokeModelSpec.ApplyEraser(old(model))
    {
      if eraserPath.None? || |eraserPath.value| == 0 {
        return;
      }
      strokes := FilterStrokes(strokes, eraserPath.value, eraserWindowSeq, model.strokes, model.eraser.value, live);
      model := StrokeModelSpec.ApplyEraser(model);
    }

    method TranslateAll(dx: real, dy: real)
      requires Valid()
      modifies `model, live, wet, rubber
      ensures Valid() && Repr() == old(Repr())
      ensures model == StrokeModelSpec.TranslateAll(old(model), dx, dy)
    {
      TranslateLive(dx, dy);
      TranslateCurrent(dx, dy);
      TranslateEraser(dx, dy);
    }

    method TranslateLive(dx: real, dy: real)
      requires Valid()
      modifies `model, live
      ensures Valid() && model == old(model).(strokes := MoveStrokes(old(model).strokes, dx, dy))
    {
      assert history in history.Repr;
      hide ShowCurrent, ShowEraser, UndoHistory.Valid;
      TranslateStrokes(strokes, dx, dy, model.strokes, live);
      model := model.(strokes := MoveStrokes(model.strokes, dx, dy));
    }

    method TranslateCurrent(dx: real, dy: real)
      requires Valid()
      modifies `model, wet
      ensures Valid() && model == old(model).(
        current := if old(model).current.Some? then Some(old(model).current.value.Moved(dx, dy)) else None)
    {
      if current != null {
        current.Translate(dx, dy, model.current.value);
        model := model.(current := Some(model.current.value.Moved(dx, dy)));
      }
    }

    method TranslateEraser(dx: real, dy: real)
      requires Valid()
      modifies `model, rubber
      ensures Valid() && model == old(model).(
        eraser := if old(model).eraser.Some? then Some(MovePts(old(model).eraser.value, dx, dy)) else None)
    {
      if eraserPath.Some? {
        TranslatePoints(eraserPath.value, dx, dy, model.eraser.value, null);
        model := model.(eraser := Some(MovePts(model.eraser.value, dx, dy)));
      }
    }
  }
}
