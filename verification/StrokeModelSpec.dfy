/** The stroke model as a value, and what its operations amount to over a run. */
module StrokeModelSpec {
  import opened Options
  import opened SnocLists
  import opened StrokeSpec

  datatype Model = Model(
    strokes: seq<Stroke>,
    current: Option<Stroke>,
    eraser: Option<seq<Pt>>,
    eraserSeq: int,
    pen: seq<real>,
    undo: seq<seq<Stroke>>)

  const EMPTY := Model([], None, None, -1, [0.1, 0.1, 0.1, 1.0], [])

  // ---- The operations ----

  /** The newest 48. */
  function Capped(undo: seq<seq<Stroke>>): seq<seq<Stroke>> {
    if |undo| > UNDO_CAP then undo[|undo| - UNDO_CAP..] else undo
  }

  function PushUndo(m: Model): Model {
    m.(undo := Capped(m.undo + [m.strokes]))
  }

  function UndoOne(m: Model): Model {
    var n := |m.undo|;
    if n == 0 then m
    else Model(m.undo[n - 1], None, None, -1, m.pen, m.undo[..n - 1])
  }

  function SetPenColor(m: Model, rgba: seq<real>): Model {
    m.(pen := rgba)
  }

  function ClearAll(m: Model): Model {
    PushUndo(m).(strokes := [], current := None, eraser := None, eraserSeq := -1)
  }

  function TranslateAll(m: Model, dx: real, dy: real): Model {
    m.(strokes := MoveStrokes(m.strokes, dx, dy),
       current := if m.current.Some? then Some(m.current.value.Moved(dx, dy)) else None,
       eraser := if m.eraser.Some? then Some(MovePts(m.eraser.value, dx, dy)) else None)
  }

  function CommitCurrent(m: Model): Model {
    if m.current.Some? && |m.current.value.pts| > 0 then
      PushUndo(m).(strokes := m.strokes + [m.current.value], current := None)
    else m.(current := None)
  }

  function BeginStroke(m: Model, x: real, y: real, p: real, windowSeq: int): Model {
    CommitCurrent(m).(eraser := None, eraserSeq := -1, current := Some(Stroke(m.pen, [Pt(x, y, p)], windowSeq)))
  }

  function BeginErase(m: Model, x: real, y: real, windowSeq: int): Model {
    CommitCurrent(m).(eraserSeq := windowSeq, eraser := Some([Pt(x, y, 0.0)]))
  }

  function AppendPoint(m: Model, x: real, y: real, p: real): Model {
    if m.current.None? then m
    else
      var s := m.current.value;
      m.(current := Some(Stroke(s.rgba, s.pts + [Pt(x, y, p)], s.windowSeq)))
  }

  /** The filter of _applyEraser. */
  predicate Keeps(stroke: Stroke, eraser: seq<Pt>, seqNo: int) {
    (seqNo >= 0 && stroke.windowSeq != seqNo) || !StrokeHitByEraser(stroke, eraser)
  }

  function Unhit(strokes: seq<Stroke>, eraser: seq<Pt>, seqNo: int): seq<Stroke> {
    if strokes == [] then []
    else
      var n := |strokes| - 1;
      var rest := Unhit(strokes[..n], eraser, seqNo);
      if Keeps(strokes[n], eraser, seqNo) then rest + [strokes[n]] else rest
  }

  function ApplyEraser(m: Model): Model {
    if m.eraser.None? || m.eraser.value == [] then m
    else m.(strokes := Unhit(m.strokes, m.eraser.value, m.eraserSeq))
  }

  function AppendErase(m: Model, x: real, y: real): Model {
    var path := if m.eraser.Some? then m.eraser.value else [];
    ApplyEraser(m.(eraser := Some(path + [Pt(x, y, 0.0)])))
  }

  function FinishErase(m: Model): Model {
    (if m.eraser.Some? && m.eraser.value != [] then ApplyEraser(PushUndo(m)) else m).(eraser := None, eraserSeq := -1)
  }

  // ---- Filtering live or filtering once ----

  lemma UnhitAppend(strokes: seq<Stroke>, s: Stroke, eraser: seq<Pt>, seqNo: int)
    ensures Unhit(strokes + [s], eraser, seqNo) ==
      (if Keeps(s, eraser, seqNo) then Unhit(strokes, eraser, seqNo) + [s] else Unhit(strokes, eraser, seqNo))
  {
    assert (strokes + [s])[..|strokes|] == strokes;
  }

  /** A second pass with a path that hits no less removes exactly what one pass with it removes. */
  lemma {:induction false} UnhitTwice(strokes: seq<Stroke>, e: seq<Pt>, e': seq<Pt>, seqNo: int)
    requires forall s :: StrokeHitByEraser(s, e) ==> StrokeHitByEraser(s, e')
    ensures Unhit(Unhit(strokes, e, seqNo), e', seqNo) == Unhit(strokes, e', seqNo)
  {
    if strokes != [] {
      var n := |strokes| - 1;
      UnhitTwice(strokes[..n], e, e', seqNo);
      UnhitAppend(Unhit(strokes[..n], e, seqNo), strokes[n], e', seqNo);
    }
  }

  lemma UnhitGrows(strokes: seq<Stroke>, e: seq<Pt>, q: Pt, seqNo: int)
    ensures Unhit(Unhit(strokes, e, seqNo), e + [q], seqNo) == Unhit(strokes, e + [q], seqNo)
  {
    forall s | StrokeHitByEraser(s, e) ensures StrokeHitByEraser(s, e + [q]) {
      HitGrows(s, e, q);
    }
    UnhitTwice(strokes, e, e + [q], seqNo);
  }

  lemma MoveStrokesAppend(strokes: seq<Stroke>, s: Stroke, dx: real, dy: real)
    ensures MoveStrokes(strokes + [s], dx, dy) == MoveStrokes(strokes, dx, dy) + [s.Moved(dx, dy)]
  {
    assert (strokes + [s])[..|strokes|] == strokes;
  }

  lemma {:induction false} UnhitMoves(strokes: seq<Stroke>, e: seq<Pt>, seqNo: int, dx: real, dy: real)
    ensures Unhit(MoveStrokes(strokes, dx, dy), MovePts(e, dx, dy), seqNo) == MoveStrokes(Unhit(strokes, e, seqNo), dx, dy)
  {
    if strokes != [] {
      var n := |strokes| - 1;
      UnhitMoves(strokes[..n], e, seqNo, dx, dy);
      HitMoves(strokes[n], e, dx, dy);
      UnhitAppend(MoveStrokes(strokes[..n], dx, dy), strokes[n].Moved(dx, dy), MovePts(e, dx, dy), seqNo);
      MoveStrokesAppend(Unhit(strokes[..n], e, seqNo), strokes[n], dx, dy);
    }
  }

  // ---- One eraser gesture ----

  datatype EraseOp = Append(x: real, y: real) | Translate(dx: real, dy: real)

  function EraseRun(m: Model, ops: List<EraseOp>): Model {
    match ops
    case Nil => m
    case Snoc(init, Append(x, y)) => AppendErase(EraseRun(m, init), x, y)
    case Snoc(init, Translate(dx, dy)) => TranslateAll(EraseRun(m, init), dx, dy)
  }

  /** The strokes if nothing had been erased, moved like everything else. */
  function MovedBy(strokes: seq<Stroke>, ops: List<EraseOp>): seq<Stroke> {
    match ops
    case Nil => strokes
    case Snoc(init, Append(_, _)) => MovedBy(strokes, init)
    case Snoc(init, Translate(dx, dy)) => MoveStrokes(MovedBy(strokes, init), dx, dy)
  }

  predicate Appends(ops: List<EraseOp>) {
    ops.Snoc? && (ops.last.Append? || Appends(ops.init))
  }

  /** The eraser is down, and a pass of its path over the strokes leaves what it would leave of the
      untouched ones; if a point was appended, that is what is left already. */
  ghost predicate Live(m: Model, ops: List<EraseOp>, m': Model) {
    && m'.eraser.Some? && m'.eraser.value != [] && m'.eraserSeq == m.eraserSeq && m'.undo == m.undo
    && Unhit(m'.strokes, m'.eraser.value, m.eraserSeq) == Unhit(MovedBy(m.strokes, ops), m'.eraser.value, m.eraserSeq)
    && m'.strokes ==
      (if Appends(ops) then Unhit(MovedBy(m.strokes, ops), m'.eraser.value, m.eraserSeq) else MovedBy(m.strokes, ops))
  }

  lemma LiveAppend(m: Model, ops: List<EraseOp>, m1: Model, x: real, y: real)
    requires Live(m, ops, m1)
    ensures Live(m, Snoc(ops, Append(x, y)), AppendErase(m1, x, y))
  {
    var e, q, n := m1.eraser.value, Pt(x, y, 0.0), m.eraserSeq;
    UnhitGrows(m1.strokes, e, q, n);
    UnhitGrows(MovedBy(m.strokes, ops), e, q, n);
    UnhitTwice(m1.strokes, e + [q], e + [q], n);
  }

  lemma LiveTranslate(m: Model, ops: List<EraseOp>, m1: Model, dx: real, dy: real)
    requires Live(m, ops, m1)
    ensures Live(m, Snoc(ops, Translate(dx, dy)), TranslateAll(m1, dx, dy))
  {
    UnhitMoves(m1.strokes, m1.eraser.value, m.eraserSeq, dx, dy);
    UnhitMoves(MovedBy(m.strokes, ops), m1.eraser.value, m.eraserSeq, dx, dy);
  }

  /** Erasing live at every appended point, with translations anywhere in between, leaves at every moment
      what one pass of the path so far over the untouched strokes would leave. */
  lemma {:induction false} LiveErasing(m: Model, ops: List<EraseOp>)
    requires m.eraser.Some? && m.eraser.value != []
    ensures Live(m, ops, EraseRun(m, ops))
  {
    if ops.Snoc? {
      LiveErasing(m, ops.init);
      match ops.last
      case Append(x, y) => LiveAppend(m, ops.init, EraseRun(m, ops.init), x, y);
      case Translate(dx, dy) => LiveTranslate(m, ops.init, EraseRun(m, ops.init), dx, dy);
    }
  }

  /** A finished eraser gesture leaves exactly the strokes that one filter with its complete path leaves. */
  lemma ErasingIsOneFilter(m: Model, x: real, y: real, windowSeq: int, ops: List<EraseOp>)
    ensures
      var begun := BeginErase(m, x, y, windowSeq);
      var erased := EraseRun(begun, ops);
      && erased.eraser.Some?
      && FinishErase(erased).strokes == Unhit(MovedBy(begun.strokes, ops), erased.eraser.value, windowSeq)
  {
    LiveErasing(BeginErase(m, x, y, windowSeq), ops);
  }

  // ---- Undoing an eraser gesture ----

  lemma {:induction false} UnhitAllIff(strokes: seq<Stroke>, e: seq<Pt>, seqNo: int)
    ensures |Unhit(strokes, e, seqNo)| <= |strokes|
    ensures Unhit(strokes, e, seqNo) == strokes <==> forall i :: 0 <= i < |strokes| ==> Keeps(strokes[i], e, seqNo)
  {
    if strokes != [] {
      UnhitAllIff(strokes[..|strokes| - 1], e, seqNo);
    }
  }

  /** Undo right after a gesture gives the strokes as the gesture had left them when it ended. */
  lemma UndoFinished(m: Model)
    requires m.eraser.Some? && m.eraser.value != []
    ensures UndoOne(FinishErase(m)).strokes == m.strokes
  {
    hide Unhit;
  }

  /** The snapshot of an eraser gesture is taken when it ends. Undoing the gesture therefore gives the strokes as they
      were before it, moved like everything else since, if and only if no point was appended to it or its path hit
      none of them. */
  lemma EraseUndoRestoresIff(m: Model, x: real, y: real, windowSeq: int, ops: List<EraseOp>)
    ensures
      var begun := BeginErase(m, x, y, windowSeq);
      var erased := EraseRun(begun, ops);
      var untouched := MovedBy(begun.strokes, ops);
      && erased.eraser.Some?
      && (UndoOne(FinishErase(erased)).strokes == untouched <==>
          !Appends(ops) || forall i :: 0 <= i < |untouched| ==> Keeps(untouched[i], erased.eraser.value, windowSeq))
  {
    var begun := BeginErase(m, x, y, windowSeq);
    hide Unhit, Keeps, MovedBy, FinishErase, UndoOne;
    LiveErasing(begun, ops);
    UndoFinished(EraseRun(begun, ops));
    UnhitAllIff(MovedBy(begun.strokes, ops), EraseRun(begun, ops).eraser.value, windowSeq);
  }

  const DOT := Stroke([], [Pt(0.0, 0.0, 1.0)], -1)
  const OVER_DOT := [Pt(100.0, 0.0, 0.0), Pt(0.0, 0.0, 0.0)]

  lemma DotTouched()
    ensures Touches(0.0, 0.0, DOT.pts)
  {
    PointTouchesItself(DOT.pts[0]);
  }

  lemma DotHit()
    ensures !Keeps(DOT, OVER_DOT, -1)
  {
    hide Touches;
    DotTouched();
    assert OVER_DOT[1] == Pt(0.0, 0.0, 0.0);
    assert SomeTouches(OVER_DOT, DOT.pts);
  }

  lemma NoneLeft(s: Stroke, eraser: seq<Pt>, seqNo: int)
    requires !Keeps(s, eraser, seqNo)
    ensures Unhit([s], eraser, seqNo) == []
  {
    assert [s][..0] == [];
  }

  /** A dot erased by a gesture that comes over it stays erased when the gesture is undone. */
  lemma ErasedDotStaysErased()
    ensures
      var m := EMPTY.(strokes := [DOT]);
      var erased := AppendErase(BeginErase(m, 100.0, 0.0, -1), 0.0, 0.0);
      UndoOne(FinishErase(erased)).strokes == []
  {
    hide Unhit, Keeps, FinishErase, UndoOne;
    DotHit();
    NoneLeft(DOT, OVER_DOT, -1);
    assert [Pt(100.0, 0.0, 0.0)] + [Pt(0.0, 0.0, 0.0)] == OVER_DOT;
    UndoFinished(AppendErase(BeginErase(EMPTY.(strokes := [DOT]), 100.0, 0.0, -1), 0.0, 0.0));
  }

  // ---- The undo history ----

  datatype Op =
    | OpSetPenColor(rgba: seq<real>)
    | OpBeginStroke(x: real, y: real, p: real, windowSeq: int)
    | OpBeginErase(x: real, y: real, windowSeq: int)
    | OpAppendPoint(x: real, y: real, p: real)
    | OpAppendErase(x: real, y: real)
    | OpCommitCurrent
    | OpFinishErase
    | OpUndoOne
    | OpClearAll
    | OpTranslateAll(dx: real, dy: real)

  function Apply(m: Model, op: Op): Model {
    match op
    case OpSetPenColor(rgba) => SetPenColor(m, rgba)
    case OpBeginStroke(x, y, p, windowSeq) => BeginStroke(m, x, y, p, windowSeq)
    case OpBeginErase(x, y, windowSeq) => BeginErase(m, x, y, windowSeq)
    case OpAppendPoint(x, y, p) => AppendPoint(m, x, y, p)
    case OpAppendErase(x, y) => AppendErase(m, x, y)
    case OpCommitCurrent => CommitCurrent(m)
    case OpFinishErase => FinishErase(m)
    case OpUndoOne => UndoOne(m)
    case OpClearAll => ClearAll(m)
    case OpTranslateAll(dx, dy) => TranslateAll(m, dx, dy)
  }

  /** The operation takes a snapshot of the strokes before it changes them. */
  predicate Snapshots(m: Model, op: Op) {
    match op
    case OpBeginStroke(_, _, _, _) => m.current.Some? && m.current.value.pts != []
    case OpBeginErase(_, _, _) => m.current.Some? && m.current.value.pts != []
    case OpCommitCurrent => m.current.Some? && m.current.value.pts != []
    case OpFinishErase => m.eraser.Some? && m.eraser.value != []
    case OpClearAll => true
    case _ => false
  }

  /** The model, all snapshots taken and not undone since, and the largest number there ever was of them. */
  datatype Tracked = Tracked(m: Model, taken: List<seq<Stroke>>, depth: nat, peak: nat)

  function Track(ops: List<Op>): Tracked {
    match ops
    case Nil => Tracked(EMPTY, Nil, 0, 0)
    case Snoc(init, op) =>
      var t := Track(init);
      var m := Apply(t.m, op);
      if Snapshots(t.m, op) then
        Tracked(m, Snoc(t.taken, t.m.strokes), t.depth + 1, if t.depth + 1 > t.peak then t.depth + 1 else t.peak)
      else if op.OpUndoOne? && t.m.undo != [] && t.taken.Snoc? && t.depth > 0 then
        Tracked(m, t.taken.init, t.depth - 1, t.peak)
      else Tracked(m, t.taken, t.depth, t.peak)
  }

  /** The newest n of a list, in order. */
  function Newest<T>(l: List<T>, n: nat): seq<T>
    requires n <= Length(l)
  {
    if n == 0 then [] else Newest(l.init, n - 1) + [l.last]
  }

  function Lost(peak: nat): nat {
    if peak > UNDO_CAP then peak - UNDO_CAP else 0
  }

  lemma {:induction false} NewestLength<T>(l: List<T>, n: nat)
    requires n <= Length(l)
    ensures |Newest(l, n)| == n
  {
    if n > 0 {
      NewestLength(l.init, n - 1);
    }
  }

  lemma {:induction false} NewestTail<T>(l: List<T>, n: nat)
    requires 0 < n <= Length(l)
    ensures |Newest(l, n)| == n && Newest(l, n)[1..] == Newest(l, n - 1)
  {
    NewestLength(l, n);
    if n > 1 {
      NewestTail(l.init, n - 1);
    }
  }

  lemma ApplyUndo(m: Model, op: Op)
    ensures Apply(m, op).undo ==
      if Snapshots(m, op) then Capped(m.undo + [m.strokes])
      else if op.OpUndoOne? && m.undo != [] then m.undo[..|m.undo| - 1]
      else m.undo
  {
  }

  ghost predicate StackIsNewest(t: Tracked) {
    && t.depth == Length(t.taken) <= t.peak && Lost(t.peak) <= t.depth
    && |t.m.undo| == t.depth - Lost(t.peak)
    && t.m.undo == Newest(t.taken, t.depth - Lost(t.peak))
  }

  lemma StackPush(t: Tracked, m: Model)
    requires StackIsNewest(t) && m.undo == Capped(t.m.undo + [t.m.strokes])
    ensures StackIsNewest(Tracked(m, Snoc(t.taken, t.m.strokes), t.depth + 1,
                                  if t.depth + 1 > t.peak then t.depth + 1 else t.peak))
  {
    var taken := Snoc(t.taken, t.m.strokes);
    var n := |t.m.undo|;
    assert Newest(taken, n + 1) == t.m.undo + [t.m.strokes];
    if n + 1 > UNDO_CAP {
      NewestTail(taken, n + 1);
    }
  }

  lemma StackPop(t: Tracked, m: Model)
    requires StackIsNewest(t) && t.m.undo != [] && m.undo == t.m.undo[..|t.m.undo| - 1]
    ensures t.taken.Snoc? && t.depth > 0 && StackIsNewest(Tracked(m, t.taken.init, t.depth - 1, t.peak))
  {
    assert t.m.undo == Newest(t.taken.init, |t.m.undo| - 1) + [t.taken.last];
  }

  lemma StackKept(t: Tracked, m: Model)
    requires StackIsNewest(t) && m.undo == t.m.undo
    ensures StackIsNewest(Tracked(m, t.taken, t.depth, t.peak))
  {
    hide Newest;
  }

  lemma StackStep(t: Tracked, init: List<Op>, op: Op)
    requires t == Track(init) && StackIsNewest(t)
    ensures StackIsNewest(Track(Snoc(init, op)))
  {
    ApplyUndo(t.m, op);
    hide Apply, StackIsNewest, Snapshots, Capped;
    if Snapshots(t.m, op) {
      StackPush(t, Apply(t.m, op));
    } else if op.OpUndoOne? && t.m.undo != [] {
      StackPop(t, Apply(t.m, op));
    } else {
      StackKept(t, Apply(t.m, op));
    }
  }

  /** In every run the undo stack holds, with the values they had when they were taken, the outstanding
      snapshots but for the oldest, of which as many are lost as the depth ever exceeded 48. */
  lemma {:induction false} UndoStackIsNewest(ops: List<Op>)
    ensures StackIsNewest(Track(ops))
  {
    if ops.Snoc? {
      UndoStackIsNewest(ops.init);
      StackStep(Track(ops.init), ops.init, ops.last);
    } else {
      assert Track(Nil) == Tracked(EMPTY, Nil, 0, 0);
    }
  }

  /** A successful undo puts back the strokes exactly as they were when the newest outstanding snapshot was
      taken, whatever was translated since. */
  lemma UndoRestores(ops: List<Op>)
    requires Track(ops).m.undo != []
    ensures
      var t := Track(ops);
      && t.taken.Snoc? && UndoOne(t.m).strokes == t.taken.last
      && Track(Snoc(ops, OpUndoOne)).taken == t.taken.init
      && UndoOne(t.m).current.None? && UndoOne(t.m).eraser.None?
  {
    UndoStackIsNewest(ops);
  }
}
