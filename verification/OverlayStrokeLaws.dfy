/** What a gesture of the pen draws or erases, from its first point to its last, told from the events. */
module OverlayStrokeLaws {
  import opened Options
  import opened OverlayGateLaws
  import opened OverlayLaws
  import opened OverlaySpec
  import opened SnocLists
  import opened StrokeDrawLaws
  import opened StrokeModelSpec
  import opened StrokeSpec

  // ---- Windows ----

  predicate Holds(w: Window, p: XY) {
    && !w.minimized
    && w.frame.x <= p.x < w.frame.x + w.frame.w && w.frame.y <= p.y < w.frame.y + w.frame.h
  }

  /** The number of the topmost window there that is not minimised, or -1. */
  ghost predicate Topmost(env: Env, p: XY, seqNo: int) {
    || (seqNo == -1 && forall i :: 0 <= i < |env.windows| ==> !Holds(env.windows[i], p))
    || exists i :: TopmostIs(env, p, i) && seqNo == env.windows[i].stableSeq
  }

  ghost predicate TopmostIs(env: Env, p: XY, i: int) {
    && 0 <= i < |env.windows| && Holds(env.windows[i], p)
    && forall j :: i < j < |env.windows| ==> !Holds(env.windows[j], p)
  }

  lemma {:induction false} WindowIsTopmost(env: Env, p: XY, n: nat)
    requires n <= |env.windows| && forall j :: n <= j < |env.windows| ==> !Holds(env.windows[j], p)
    ensures Topmost(env, p, WindowSeq(env, p, n))
  {
    if n > 0 {
      if Holds(env.windows[n - 1], p) {
        assert TopmostIs(env, p, n - 1);
      } else {
        WindowIsTopmost(env, p, n - 1);
      }
    }
  }

  // ---- The first point ----

  /** Where a point of the stage lies on the canvas; an event without a point is taken to be in its corner. */
  function OnCanvas(env: Env, at: Option<XY>): XY {
    if at.None? then XY(0.0, 0.0) else XY(at.value.x - env.root.x, at.value.y - env.root.y)
  }

  /** The gesture has just begun there: an eraser path in erase mode, and a stroke of the pen's colour in draw mode, on
      the topmost window; the drawing is as it was. */
  ghost predicate Begun(s: Session, e: Event, env: Env, at: Option<XY>, s': Session) {
    var o := OnCanvas(env, at);
    var m := s'.model;
    && e.isPen && e.mode != NoMode && s'.penDown
    && m.strokes == s.model.strokes && m.undo == s.model.undo && m.pen == s.model.pen
    && Topmost(env, XY(o.x + env.root.x, o.y + env.root.y), SeqOf(m)) && BegunOn(s, e, o, SeqOf(m), s')
  }

  /** The window of what is in progress. */
  function SeqOf(m: Model): int {
    if m.current.Some? then m.current.value.windowSeq else m.eraserSeq
  }

  /** It does not matter how the gate stood. */
  lemma BegunAlike(s: Session, s1: Session, e: Event, env: Env, at: Option<XY>, s': Session)
    requires Begun(s1, e, env, at, s') && s1.model == s.model && s1.calls == s.calls
    ensures Begun(s, e, env, at, s')
  {
  }

  ghost predicate BegunOn(s: Session, e: Event, o: XY, seqNo: int, s': Session) {
    var m := s'.model;
    if e.mode == Erase then
      && m.current == None && m.eraser == Some([Pt(o.x, o.y, 0.0)]) && m.eraserSeq == seqNo
      && s'.calls == Snoc(Snoc(s.calls, OpCommitCurrent), OpBeginErase(o.x, o.y, seqNo))
    else
      && m.eraser == None && m.current == Some(Stroke(s.model.pen, [Pt(o.x, o.y, e.pressure)], seqNo))
      && s'.calls == Snoc(Snoc(s.calls, OpFinishErase), OpBeginStroke(o.x, o.y, e.pressure, seqNo))
  }

  lemma BeginBegins(s: Session, e: Event, env: Env, pair: Option<XY>)
    requires s.model.current == None && s.model.eraser == None && e.isPen && e.mode != NoMode
    ensures Begun(s, e, env, HandlePoint(s, e, env, pair), Begin(s, e, env, pair))
  {
    var o := OnCanvas(env, HandlePoint(s, e, env, pair));
    var p := XY(o.x + env.root.x, o.y + env.root.y);
    WindowIsTopmost(env, p, |env.windows|);
    var seqNo := WindowSeq(env, p, |env.windows|);
    assert BegunOn(s, e, o, seqNo, Begin(s, e, env, pair));
  }

  ghost predicate Idle(s: Session) {
    !s.penDown && s.model.current == None && s.model.eraser == None
  }

  lemma PressFirst(c: Codes, s: Session, e: Event, env: Env, pair: Option<XY>)
    requires Idle(s) && OnPress(c, s, e, env, pair).s.penDown
    ensures Begun(s, e, env, HandlePoint(s, e, env, pair), OnPress(c, s, e, env, pair).s)
  {
    BeginBegins(s, e, env, pair);
  }

  lemma MotionFirst(c: Codes, s: Session, e: Event, env: Env, pair: Option<XY>)
    requires Idle(s) && OnMotion(c, s, e, env, pair).s.penDown
    ensures Begun(s, e, env, HandlePoint(s, e, env, pair), OnMotion(c, s, e, env, pair).s)
  {
    var open, s' := s.(await := false, anchor := None), OnMotion(c, s, e, env, pair).s;
    var at := HandlePoint(s, e, env, pair);
    hide Begun;
    if OnMotion(c, s, e, env, pair) == OnPress(c, open, e, env, pair) {
      PressFirst(c, open, e, env, pair);
      BegunAlike(s, open, e, env, at, s');
    } else {
      PressFirst(c, s, e, env, pair);
    }
  }

  lemma DispatchFirst(c: Codes, s: Session, e: Event, env: Env, at: XY, t: Kind)
    requires Idle(s) && Dispatch(c, s, e, env, at, t).s.penDown
    ensures Begun(s, e, env, Some(at), Dispatch(c, s, e, env, at, t).s)
  {
    hide Begun, OnPress, OnMotion, InRoot;
    if Discrete(c, Some(t)) {
      PressFirst(c, s, e, env, Some(at));
    } else if t == ProximityIn {
      var armed := Arm(s, env);
      MotionFirst(c, armed, e, env, Some(at));
      BegunAlike(s, armed, e, env, Some(at), Dispatch(c, s, e, env, at, t).s);
    } else {
      MotionFirst(c, s, e, env, Some(at));
    }
  }

  lemma CaptureFirst(c: Codes, s: Session, e: Event, env: Env)
    requires Idle(s) && Captured(c, s, e, env).s.penDown
    ensures Begun(s, e, env, PointOf(c, s, Moment(StageCaptured(e), env)), Captured(c, s, e, env).s)
  {
    var s1 := s.(handled := s.handled + {e.id});
    var raw := StageCoords(s1, e, env);
    var fix := Repair(s1, e, env, raw.value);
    var at := Settle(c, s1, e, env, raw.value, fix.at);
    hide Settle, Repair, InRoot, StageCoords, Accepts, DockHit, LikelyOverDock;
    hide Begun, Dispatch, ForwardSwatch;
    PassedOn(c, s, e, env);
    DispatchFirst(c, s1, e, env, at, DispatchKind(c, e, fix.coerced));
    BegunAlike(s, s1, e, env, Some(at), Captured(c, s, e, env).s);
  }

  /** Only the dispatch puts the pen down. */
  lemma PassedOn(c: Codes, s: Session, e: Event, env: Env)
    requires !s.penDown && Captured(c, s, e, env).s.penDown
    ensures
      var s1 := s.(handled := s.handled + {e.id});
      var raw := StageCoords(s1, e, env);
      && raw.Some?
      && var fix := Repair(s1, e, env, raw.value);
      var at := Settle(c, s1, e, env, raw.value, fix.at);
      && Captured(c, s, e, env) == Dispatch(c, s1, e, env, at, DispatchKind(c, e, fix.coerced))
      && PointOf(c, s, Moment(StageCaptured(e), env)) == Some(at)
  {
    hide Settle, Repair, InRoot, StageCoords, Accepts, DockHit, LikelyOverDock, Dispatch;
  }

  /** The step that puts the pen down begins an eraser path if the event's mode is to erase, and a stroke with its
      pressure if it is to draw, at the point of the event and on the topmost window there. */
  lemma PenDownBegins(c: Codes, s: Session, m: Moment)
    requires Inv(s) && !s.penDown && Step(c, s, m).penDown
    ensures EventOf(m.input).Some? && Begun(s, EventOf(m.input).value, m.env, PointOf(c, s, m), Step(c, s, m))
  {
    match m.input
    case StageCaptured(e) => CaptureFirst(c, s, e, m.env);
    case CanvasPress(e) => PressFirst(c, s, e, m.env, None);
    case CanvasMotion(e) => MotionFirst(c, s, e, m.env, None);
    case _ =>
  }

  // ---- The points after it ----

  /** The kinds that a captured event can have to be taken for a point of the stroke. */
  predicate PointKind(c: Codes, e: Event, t: Kind, inside: bool) {
    || Discrete(c, Some(t)) || Motionish(Some(t))
    || (inside && !ReleaseLike(Some(t)) && t != ProximityOut && t != Enter && t != Leave && !KeyOrScroll(e.kind))
  }

  /** A captured event gets past the root and the dock. */
  predicate Passes(c: Codes, s: Session, e: Event, env: Env) {
    var raw := StageCoords(s, e, env);
    && Accepts(s, e, env) && e.id !in s.handled && raw.Some?
    && (InRoot(env, Repair(s, e, env, raw.value).at) || EntersByPen(e))
    && !HeldByDock(s, e, env, raw.value, Settle(c, s, e, env, raw.value, Repair(s, e, env, raw.value).at))
  }

  /** The event is a point of the stroke in progress. */
  predicate Follows(c: Codes, s: Session, m: Moment) {
    match m.input
    case StageCaptured(e) =>
      && Passes(c, s, e, m.env) && !LikelyOverDock(s, e, m.env)
      && var raw := StageCoords(s, e, m.env).value;
      var fix := Repair(s, e, m.env, raw);
      PointKind(c, e, DispatchKind(c, e, fix.coerced), InRoot(m.env, Settle(c, s, e, m.env, raw, fix.at)))
    case CanvasPress(e) => (e.isPen || Motionish(e.kind)) && !LikelyOverDock(s, e, m.env)
    case CanvasMotion(e) => (e.isPen || Motionish(e.kind)) && !LikelyOverDock(s, e, m.env)
    case _ => false
  }

  /** The stroke or path in progress has one point more. */
  ghost predicate Extended(s: Session, e: Event, o: XY, s': Session) {
    var op := if s.model.eraser.Some? then OpAppendErase(o.x, o.y) else OpAppendPoint(o.x, o.y, e.pressure);
    s'.penDown && s'.calls == Snoc(s.calls, op) && s'.model == Apply(s.model, op)
  }

  /** The stroke or path in progress is ended. */
  ghost predicate Ended(s: Session, s': Session) {
    var op := if s.model.eraser.Some? then OpFinishErase else OpCommitCurrent;
    !s'.penDown && s'.calls == Snoc(s.calls, op) && s'.model == Apply(s.model, op)
  }

  /** A step of a stroke in progress: a point more if the event is to be one, and else nothing, or the end. */
  ghost predicate Continues(s: Session, e: Event, o: XY, follows: bool, s': Session) {
    if follows then Extended(s, e, o, s')
    else Ended(s, s') || (s'.penDown && s'.calls == s.calls && s'.model == s.model)
  }

  lemma MotionContinues(c: Codes, s: Session, e: Event, env: Env, pair: Option<XY>)
    requires Inv(s) && s.penDown
    ensures
      Continues(s, e, OnCanvas(env, HandlePoint(s, e, env, pair)),
                (e.isPen || pair.Some? || Motionish(e.kind)) && !LikelyOverDock(s, e, env), OnMotion(c, s, e, env, pair).s)
  {
  }

  lemma PressContinues(c: Codes, s: Session, e: Event, env: Env, pair: Option<XY>)
    requires Inv(s) && s.penDown
    ensures
      Continues(s, e, OnCanvas(env, HandlePoint(s, e, env, pair)),
                (e.isPen || pair.Some? || Motionish(e.kind)) && !LikelyOverDock(s, e, env), OnPress(c, s, e, env, pair).s)
  {
    MotionContinues(c, s, e, env, pair);
  }

  /** A pen that comes into range in the middle of a stroke is remembered and nothing else. */
  lemma ArmAlike(s: Session, e: Event, env: Env)
    requires Inv(s) && s.penDown
    ensures Inv(Arm(s, env)) && LikelyOverDock(Arm(s, env), e, env) == LikelyOverDock(s, e, env)
  {
  }

  lemma DispatchContinues(c: Codes, s: Session, e: Event, env: Env, at: XY, t: Kind)
    requires Inv(s) && s.penDown && (e.kind.Some? ==> t == e.kind.value || t == Motion) && (e.kind.None? ==> t == Motion)
    ensures
      Continues(s, e, OnCanvas(env, Some(at)), PointKind(c, e, t, InRoot(env, at)) && !LikelyOverDock(s, e, env),
                Dispatch(c, s, e, env, at, t).s)
  {
    hide LikelyOverDock, InRoot, Unhit, Apply, Logged;
    if Discrete(c, Some(t)) {
      PressContinues(c, s, e, env, Some(at));
    } else if t == ProximityIn {
      ArmAlike(s, e, env);
      MotionContinues(c, Arm(s, env), e, env, Some(at));
    } else {
      MotionContinues(c, s, e, env, Some(at));
    }
  }

  lemma DeliverContinues(c: Codes, s: Session, e: Event, env: Env, raw: XY, at: XY, coerced: bool)
    requires Inv(s) && s.penDown && (e.kind.None? ==> Accepts(s, e, env))
    ensures
      Continues(s, e, OnCanvas(env, Some(at)),
                !HeldByDock(s, e, env, raw, at) && !LikelyOverDock(s, e, env)
                && PointKind(c, e, DispatchKind(c, e, coerced), InRoot(env, at)),
                Deliver(c, s, e, env, raw, at, coerced).s)
  {
    hide Dispatch, Accepts, LikelyOverDock, DockHit, InRoot, PointKind, Apply;
    if !HeldByDock(s, e, env, raw, at) {
      DispatchContinues(c, s, e, env, at, DispatchKind(c, e, coerced));
    }
  }

  lemma CaptureContinues(c: Codes, s: Session, e: Event, env: Env)
    requires Inv(s) && s.penDown
    ensures
      var m := Moment(StageCaptured(e), env);
      Continues(s, e, OnCanvas(env, PointOf(c, s, m)), Follows(c, s, m), Captured(c, s, e, env).s)
  {
    var s1 := s.(handled := s.handled + {e.id});
    var raw := StageCoords(s, e, env);
    Apart(c, s, s1, e, env);
    if Accepts(s, e, env) && e.id !in s.handled && raw.Some? {
      var fix := Repair(s, e, env, raw.value);
      var at := Settle(c, s, e, env, raw.value, fix.at);
      hide Deliver, Accepts, LikelyOverDock, DockHit, InRoot, PointKind, Settle, Repair, StageCoords, HeldByDock, Apply;
      if InRoot(env, fix.at) || EntersByPen(e) {
        DeliverContinues(c, s1, e, env, raw.value, at, fix.coerced);
      }
    }
  }

  /** That the event is now known to have been handled changes nothing about it. */
  lemma Apart(c: Codes, s: Session, s1: Session, e: Event, env: Env)
    requires s1 == s.(handled := s1.handled)
    ensures StageCoords(s1, e, env) == StageCoords(s, e, env)
    ensures forall raw :: Repair(s1, e, env, raw) == Repair(s, e, env, raw)
    ensures forall raw, p :: Settle(c, s1, e, env, raw, p) == Settle(c, s, e, env, raw, p)
    ensures forall raw, at :: HeldByDock(s1, e, env, raw, at) == HeldByDock(s, e, env, raw, at)
    ensures Accepts(s1, e, env) == Accepts(s, e, env) && LikelyOverDock(s1, e, env) == LikelyOverDock(s, e, env)
  {
  }

  /** The gesture is ended by hand, and not by an event of its own. */
  predicate Interrupts(input: Input) {
    input.Toggled? || input.Undone? || input.Cleared?
  }

  /** Every event of a gesture in progress adds one point, there where the event is, to what the gesture draws or erases
      if it is to, and nothing otherwise; or it ends it. */
  lemma StepContinues(c: Codes, s: Session, m: Moment)
    requires Inv(s) && s.penDown && EventOf(m.input).Some?
    ensures
      Continues(s, EventOf(m.input).value, OnCanvas(m.env, PointOf(c, s, m)), Follows(c, s, m), Step(c, s, m))
  {
    match m.input
    case StageCaptured(e) => CaptureContinues(c, s, e, m.env);
    case CanvasPress(e) => PressContinues(c, s, e, m.env, None);
    case CanvasMotion(e) => MotionContinues(c, s, e, m.env, None);
    case _ =>
  }

  // ---- Whole gestures ----

  /** What a step adds to a gesture in progress. */
  function NextOf(c: Codes, s: Session, m: Moment): Option<DrawOp> {
    match m.input
    case ContentMoved(dx, dy) => Some(Shift(dx, dy))
    case Recolored(rgba) => Some(Recolor(rgba))
    case _ =>
      if EventOf(m.input).Some? && Follows(c, s, m) then
        var o := OnCanvas(m.env, PointOf(c, s, m));
        Some(Point(o.x, o.y, EventOf(m.input).value.pressure))
      else None
  }

  /** What a gesture does: its points, and the shifts and colours in between. */
  function GestureOf(c: Codes, start: List<Moment>, run: List<Moment>): List<DrawOp> {
    if run == start || run.Nil? then Nil
    else
      var before, next := GestureOf(c, start, run.init), NextOf(c, State(c, run.init), run.last);
      if next.Some? then Snoc(before, next.value) else before
  }

  /** The pen is down from start to the end of run, and nothing interrupts it. */
  ghost predicate OnePenDown(c: Codes, start: List<Moment>, run: List<Moment>) {
    && State(c, run).penDown
    && (run != start ==> run.Snoc? && !Interrupts(run.last.input) && OnePenDown(c, start, run.init))
  }

  function CallFor(erasing: bool, d: DrawOp): Op {
    if erasing && d.Point? then OpAppendErase(d.x, d.y) else AsOp(d)
  }

  function CallsFor(calls: List<Op>, erasing: bool, gesture: List<DrawOp>): List<Op> {
    match gesture
    case Nil => calls
    case Snoc(init, d) => Snoc(CallsFor(calls, erasing, init), CallFor(erasing, d))
  }

  lemma EventCalls(c: Codes, s: Session, m: Moment)
    requires Inv(s) && s.penDown && EventOf(m.input).Some? && Step(c, s, m).penDown
    ensures
      var s', next := Step(c, s, m), NextOf(c, s, m);
      && s'.calls == (if next.Some? then Snoc(s.calls, CallFor(s.model.eraser.Some?, next.value)) else s.calls)
      && s'.model.eraser.Some? == s.model.eraser.Some?
  {
    hide Follows, PointOf, Inv, Step, Unhit;
    StepContinues(c, s, m);
  }

  lemma StepCalls(c: Codes, s: Session, m: Moment)
    requires Inv(s) && s.penDown && !Interrupts(m.input) && Step(c, s, m).penDown
    ensures
      var s', next := Step(c, s, m), NextOf(c, s, m);
      && s'.calls == (if next.Some? then Snoc(s.calls, CallFor(s.model.eraser.Some?, next.value)) else s.calls)
      && s'.model.eraser.Some? == s.model.eraser.Some?
  {
    hide Follows, PointOf, Inv;
    if EventOf(m.input).Some? {
      EventCalls(c, s, m);
    }
  }

  /** From the point at which the pen goes down a gesture makes exactly one call for each of its points, to the eraser if
      it began as an eraser's and to the stroke if not, and no other but for shifts and colours. */
  lemma {:induction false} GestureCalls(c: Codes, start: List<Moment>, run: List<Moment>)
    requires OnePenDown(c, start, run)
    ensures
      var s := State(c, start);
      && State(c, run).calls == CallsFor(s.calls, s.model.eraser.Some?, GestureOf(c, start, run))
      && State(c, run).model.eraser.Some? == s.model.eraser.Some?
  {
    if run != start {
      GestureCalls(c, start, run.init);
      RunKeeps(c, run.init);
      StepCalls(c, State(c, run.init), run.last);
    }
  }

  // ---- What is left of a gesture ----

  /** The pen goes down with the last moment of start, stays down for the rest of run, and an event lifts it. */
  ghost predicate Gesture(c: Codes, start: List<Moment>, run: List<Moment>, end: Moment) {
    && start.Snoc? && !State(c, start.init).penDown && OnePenDown(c, start, run)
    && EventOf(end.input).Some? && !Step(c, State(c, run), end).penDown
  }

  lemma GestureEnds(c: Codes, start: List<Moment>, run: List<Moment>, end: Moment)
    requires Gesture(c, start, run, end)
    ensures
      var s, s' := State(c, run), State(c, Snoc(run, end));
      && s'.calls == Snoc(s.calls, if s.model.eraser.Some? then OpFinishErase else OpCommitCurrent)
      && s'.model == Track(s'.calls).m
  {
    RunKeeps(c, run);
    RunKeeps(c, Snoc(run, end));
    var s := State(c, run);
    assert s.penDown;
    StepContinues(c, s, end);
    hide Inv, Follows, PointOf, Step;
  }

  lemma {:induction false} StartDown(c: Codes, start: List<Moment>, run: List<Moment>)
    requires OnePenDown(c, start, run)
    ensures State(c, start).penDown
  {
    if run != start {
      StartDown(c, start, run.init);
    }
  }

  lemma InkCalls(calls: List<Op>, gesture: List<DrawOp>)
    ensures CallsFor(calls, false, gesture) == Then(calls, gesture)
  {
    if gesture.Snoc? {
      InkCalls(calls, gesture.init);
    }
  }

  /** Where the first point of a gesture lies on the canvas. */
  function FirstPoint(c: Codes, start: List<Moment>): XY
    requires start.Snoc?
  {
    OnCanvas(start.last.env, PointOf(c, State(c, start.init), start.last))
  }

  /** A gesture in draw mode adds exactly one stroke to the drawing: in the pen's colour, on the window it began on, with
      the points of its events in their order and with their pressures, moved as the content was after them. */
  lemma InkIsDrawn(c: Codes, start: List<Moment>, run: List<Moment>, end: Moment)
    requires Gesture(c, start, run, end) && EventOf(start.last.input).Some?
    requires EventOf(start.last.input).value.mode != Erase
    ensures
      var before, begun, after := State(c, start.init).model, State(c, start).model, State(c, Snoc(run, end)).model;
      var o, gesture := FirstPoint(c, start), GestureOf(c, start, run);
      var n := |before.strokes|;
      && |after.strokes| == n + 1
      && ShiftedBy(before.strokes, after.strokes[..n], ShiftX(gesture), ShiftY(gesture))
      && Topmost(start.last.env, XY(o.x + start.last.env.root.x, o.y + start.last.env.root.y), SeqOf(begun))
      && after.strokes[n] ==
           StrokeOf(before.pen, o.x, o.y, EventOf(start.last.input).value.pressure, SeqOf(begun), gesture)
  {
    hide ShiftedBy, StrokeOf, Topmost, Track, GestureOf, Inv, PointOf, OnePenDown, OnCanvas, Then, Step;
    var s, s1 := State(c, start.init), State(c, start);
    var e, o, gesture := EventOf(start.last.input).value, FirstPoint(c, start), GestureOf(c, start, run);
    StartDown(c, start, run);
    RunKeeps(c, start.init);
    PenDownBegins(c, s, start.last);
    var ops, seqNo := Snoc(s.calls, OpFinishErase), SeqOf(s1.model);
    assert BegunOn(s, e, o, seqNo, s1);
    GestureCalls(c, start, run);
    GestureEnds(c, start, run, end);
    InkCalls(Snoc(ops, OpBeginStroke(o.x, o.y, e.pressure, seqNo)), gesture);
    GestureDraws(ops, o.x, o.y, e.pressure, seqNo, gesture, OpCommitCurrent);
    IdleFinish(s);
    PenIsLast(ops);
  }

  /** With the pen up the eraser has nothing to finish. */
  lemma IdleFinish(s: Session)
    requires Inv(s) && !s.penDown
    ensures WithCurrent(Track(Snoc(s.calls, OpFinishErase)).m) == s.model.strokes
    ensures Track(Snoc(s.calls, OpFinishErase)).m.pen == s.model.pen
    ensures WithCurrent(Track(Snoc(s.calls, OpCommitCurrent)).m) == s.model.strokes
  {
    assert s.model == Track(s.calls).m;
    assert Track(Snoc(s.calls, OpFinishErase)).m == Apply(s.model, OpFinishErase);
    assert Track(Snoc(s.calls, OpCommitCurrent)).m == Apply(s.model, OpCommitCurrent);
    assert s.model.strokes + [] == s.model.strokes;
  }

  // ---- Erasing ----

  /** The part of a gesture that the eraser feels. */
  function Felt(gesture: List<DrawOp>): List<EraseOp> {
    match gesture
    case Nil => Nil
    case Snoc(init, Point(x, y, _)) => Snoc(Felt(init), Append(x, y))
    case Snoc(init, Shift(dx, dy)) => Snoc(Felt(init), Translate(dx, dy))
    case Snoc(init, Recolor(_)) => Felt(init)
  }

  /** The colour of the pen plays no part in erasing. */
  lemma PenApart(m: Model, rgba: seq<real>, x: real, y: real)
    ensures AppendErase(m.(pen := rgba), x, y) == AppendErase(m, x, y).(pen := rgba)
    ensures TranslateAll(m.(pen := rgba), x, y) == TranslateAll(m, x, y).(pen := rgba)
    ensures FinishErase(m.(pen := rgba)) == FinishErase(m).(pen := rgba)
  {
    hide Unhit, MoveStrokes, MovePts;
  }

  /** One more call to the eraser, or one more shift or colour. */
  lemma ErasingStep(m: Model, plain: Model, gesture: List<DrawOp>, d: DrawOp)
    requires m == plain.(pen := m.pen)
    ensures
      var m', next := Apply(m, CallFor(true, d)), Felt(Snoc(gesture, d));
      && (d.Point? ==> next == Snoc(Felt(gesture), Append(d.x, d.y)) && m' == AppendErase(plain, d.x, d.y).(pen := m'.pen))
      && (d.Shift? ==> next == Snoc(Felt(gesture), Translate(d.dx, d.dy))
                       && m' == TranslateAll(plain, d.dx, d.dy).(pen := m'.pen))
      && (d.Recolor? ==> next == Felt(gesture) && m' == plain.(pen := m'.pen))
  {
    hide AppendErase, TranslateAll;
    match d
    case Point(x, y, _) => PenApart(plain, m.pen, x, y);
    case Shift(dx, dy) => PenApart(plain, m.pen, dx, dy);
    case Recolor(_) =>
  }

  lemma TrackLast(calls: List<Op>, op: Op)
    ensures Track(Snoc(calls, op)).m == Apply(Track(calls).m, op)
  {
  }

  lemma {:induction false} ErasingRun(calls: List<Op>, x: real, y: real, windowSeq: int, gesture: List<DrawOp>)
    ensures
      var m := Track(CallsFor(Snoc(calls, OpBeginErase(x, y, windowSeq)), true, gesture)).m;
      m == EraseRun(BeginErase(Track(calls).m, x, y, windowSeq), Felt(gesture)).(pen := m.pen)
  {
    hide AppendErase, TranslateAll, BeginErase, Snapshots, Track;
    var begin, begun := Snoc(calls, OpBeginErase(x, y, windowSeq)), BeginErase(Track(calls).m, x, y, windowSeq);
    if gesture.Nil? {
      TrackLast(calls, OpBeginErase(x, y, windowSeq));
      assert EraseRun(begun, Felt(gesture)) == begun;
    } else {
      var init, d := gesture.init, gesture.last;
      ErasingRun(calls, x, y, windowSeq, init);
      var m1, plain := Track(CallsFor(begin, true, init)).m, EraseRun(begun, Felt(init));
      TrackLast(CallsFor(begin, true, init), CallFor(true, d));
      ErasingStep(m1, plain, init, d);
      assert gesture == Snoc(init, d);
      hide Apply, CallFor, Felt;
    }
  }

  /** The same on operations: a gesture of the eraser behind these calls. */
  lemma ErasedByCalls(ops: List<Op>, x: real, y: real, windowSeq: int, gesture: List<DrawOp>) returns (places: seq<nat>)
    ensures
      var earlier := WithCurrent(Track(ops).m);
      var calls := CallsFor(Snoc(ops, OpBeginErase(x, y, windowSeq)), true, gesture);
      var moved := MovedBy(earlier, Felt(gesture));
      && ShiftedBy(earlier, moved, ErasedX(Felt(gesture)), ErasedY(Felt(gesture)))
      && KeptPlaces(moved, Track(Snoc(calls, OpFinishErase)).m.strokes, places, PathOf(x, y, Felt(gesture)), windowSeq)
  {
    var calls := CallsFor(Snoc(ops, OpBeginErase(x, y, windowSeq)), true, gesture);
    ErasingRun(ops, x, y, windowSeq, gesture);
    var erased := EraseRun(BeginErase(Track(ops).m, x, y, windowSeq), Felt(gesture));
    PenApart(erased, Track(calls).m.pen, 0.0, 0.0);
    assert Track(Snoc(calls, OpFinishErase)).m == Apply(Track(calls).m, OpFinishErase);
    hide FinishErase, KeptPlaces, ShiftedBy, EraseRun, BeginErase, Track;
    places := GestureErases(ops, x, y, windowSeq, Felt(gesture));
  }

  /** A gesture in erase mode leaves exactly the strokes that its path does not hit, or that are on another window than
      the one it began on; the path has the points of its events in their order, moved as the content was after them. */
  lemma InkIsErased(c: Codes, start: List<Moment>, run: List<Moment>, end: Moment) returns (places: seq<nat>)
    requires Gesture(c, start, run, end) && EventOf(start.last.input).Some?
    requires EventOf(start.last.input).value.mode == Erase
    ensures
      var before, begun, after := State(c, start.init).model, State(c, start).model, State(c, Snoc(run, end)).model;
      var o, gesture := FirstPoint(c, start), Felt(GestureOf(c, start, run));
      var moved := MovedBy(before.strokes, gesture);
      && ShiftedBy(before.strokes, moved, ErasedX(gesture), ErasedY(gesture))
      && Topmost(start.last.env, XY(o.x + start.last.env.root.x, o.y + start.last.env.root.y), SeqOf(begun))
      && KeptPlaces(moved, after.strokes, places, PathOf(o.x, o.y, gesture), SeqOf(begun))
  {
    hide KeptPlaces, ShiftedBy, PathOf, MovedBy, Topmost, Track, GestureOf, Inv, PointOf, OnePenDown, OnCanvas;
    hide Step, Felt, Unhit, WithCurrent, CallsFor;
    var s, s1 := State(c, start.init), State(c, start);
    var e, o, gesture := EventOf(start.last.input).value, FirstPoint(c, start), GestureOf(c, start, run);
    StartDown(c, start, run);
    RunKeeps(c, start.init);
    PenDownBegins(c, s, start.last);
    var ops, seqNo := Snoc(s.calls, OpCommitCurrent), SeqOf(s1.model);
    assert BegunOn(s, e, o, seqNo, s1);
    GestureCalls(c, start, run);
    GestureEnds(c, start, run, end);
    IdleFinish(s);
    places := ErasedByCalls(ops, o.x, o.y, seqNo, gesture);
  }

  // ---- When the pen goes down, and up ----

  /** A pen with a drawing mode, off the dock. */
  predicate CanDraw(s: Session, e: Event, env: Env) {
    s.visible && e.isPen && e.mode != NoMode && !LikelyOverDock(s, e, env)
  }

  /** Exactly which presses on the canvas put the pen down: those of a pen that can draw, that hit no swatch, and for
      which the gate is open or which it does not take for a press. */
  lemma PressDownIff(c: Codes, s: Session, e: Event, env: Env)
    requires Inv(s) && !s.penDown
    ensures Step(c, s, Moment(CanvasPress(e), env)).penDown <==>
      CanDraw(s, e, env) && !ForwardSwatch(s, e, env, None).stop && (s.await ==> !Discrete(c, e.kind))
  {
    ForwardSwatchUp(s, e, env, None);
  }

  lemma ForwardSwatchUp(s: Session, e: Event, env: Env, pair: Option<XY>)
    ensures ForwardSwatch(s, e, env, pair).s.penDown == s.penDown
    ensures Motionish(e.kind) ==> !ForwardSwatch(s, e, env, pair).stop
  {
  }

  /** Behind the closed gate, exactly which motions on the canvas open it and draw: those of a pen that can draw, at a
      point 8 or more away from where a press was swallowed. */
  lemma DragDownIff(c: Codes, s: Session, e: Event, env: Env)
    requires Inv(s) && s.await && e.isPen && Motionish(e.kind)
    ensures Step(c, s, Moment(CanvasMotion(e), env)).penDown <==>
      && CanDraw(s, e, env) && s.anchor.Some?
      && var at := StageCoords(s, e, env);
      at.Some? && DistSq(at.value, s.anchor.value) >= 64.0
  {
    var open := s.(await := false, anchor := None);
    OpenPressDownIff(c, open, e, env);
    var at := StageCoords(s, e, env);
    assert CanDraw(open, e, env) == CanDraw(s, e, env) && StageCoords(open, e, env) == at;
    hide LikelyOverDock, StageCoords, ForwardSwatch, Inv, CanDraw;
    if s.visible && s.anchor.Some? && at.Some? && DistSq(at.value, s.anchor.value) >= 64.0 {
      assert OnMotion(c, s, e, env, None) == OnPress(c, open, e, env, None);
    } else {
      assert !OnMotion(c, s, e, env, None).s.penDown;
    }
    InvisibleCannot(s, e, env);
  }

  lemma InvisibleCannot(s: Session, e: Event, env: Env)
    ensures CanDraw(s, e, env) ==> s.visible
  {
  }

  lemma OpenPressDownIff(c: Codes, s: Session, e: Event, env: Env)
    requires !s.penDown && !s.await && e.isPen
    ensures OnPress(c, s, e, env, None).s.penDown <==> CanDraw(s, e, env) && !ForwardSwatch(s, e, env, None).stop
    ensures Motionish(e.kind) ==> !ForwardSwatch(s, e, env, None).stop
  {
    ForwardSwatchUp(s, e, env, None);
  }

  /** With the gate open a motion of a pen that tells its pressure draws exactly if that is above 0.015 and it can draw. */
  lemma PressureDownIff(c: Codes, s: Session, e: Event, env: Env)
    requires Inv(s) && !s.penDown && !s.await && e.isPen && Motionish(e.kind) && e.hasPressure
    ensures Step(c, s, Moment(CanvasMotion(e), env)).penDown <==> CanDraw(s, e, env) && e.pressure > 0.015
  {
    OpenPressDownIff(c, s, e, env);
    InvisibleCannot(s, e, env);
    assert ImplicitPress(s, e, env) == (e.pressure > 0.015);
    hide LikelyOverDock, StageCoords, ForwardSwatch, Inv, CanDraw, ImplicitPress;
    if s.visible && e.pressure > 0.015 {
      assert OnMotion(c, s, e, env, None) == OnPress(c, s, e, env, None);
    } else {
      assert !OnMotion(c, s, e, env, None).s.penDown;
    }
  }

  /** With the gate open a motion of a pen that does not tell its pressure draws exactly if it can draw and comes from a
      tablet with a tool, or from a tablet or the core pointer within 900 ms of a pen coming into range. */
  lemma ToolDownIff(c: Codes, s: Session, e: Event, env: Env)
    requires Inv(s) && !s.penDown && !s.await && e.isPen && Motionish(e.kind) && !e.hasPressure
    ensures
      var recent := s.armed && s.armedAt > 0 && env.now - s.armedAt < 900;
      Step(c, s, Moment(CanvasMotion(e), env)).penDown <==>
        && CanDraw(s, e, env)
        && ((e.device == TabletLike && (e.hasTool || recent)) || (e.device == CorePointer && recent))
  {
    OpenPressDownIff(c, s, e, env);
    InvisibleCannot(s, e, env);
    var implicit := ImplicitPress(s, e, env);
    assert implicit <==>
      ((e.device == TabletLike && (e.hasTool || Fresh(s, env))) || (e.device == CorePointer && Fresh(s, env)));
    hide LikelyOverDock, StageCoords, ForwardSwatch, Inv, CanDraw, ImplicitPress;
    if s.visible && implicit {
      assert OnMotion(c, s, e, env, None) == OnPress(c, s, e, env, None);
    } else {
      assert !OnMotion(c, s, e, env, None).s.penDown;
    }
  }

  /** A press on the canvas by a pen that can draw, behind the closed gate, is remembered where it was, and nothing else
      happens, unless it hits a swatch. */
  lemma PressSwallowed(c: Codes, s: Session, e: Event, env: Env)
    requires Inv(s) && s.await && CanDraw(s, e, env) && Discrete(c, e.kind) && StageCoords(s, e, env).Some?
    requires !ForwardSwatch(s, e, env, None).stop
    ensures Step(c, s, Moment(CanvasPress(e), env)) == s.(anchor := StageCoords(s, e, env))
  {
  }

  /** With the pen up, a captured motion that gets past the dock does what it would do on the canvas. */
  lemma CapturedMotionActs(c: Codes, s: Session, e: Event, env: Env)
    requires Inv(s) && !s.penDown && s.visible && e.isPen && Motionish(e.kind) && !Discrete(c, e.kind)
    requires Passes(c, s, e, env) && PointOf(c, s, Moment(StageCaptured(e), env)) == StageCoords(s, e, env)
    ensures Step(c, s, Moment(StageCaptured(e), env)) ==
      Step(c, s.(handled := s.handled + {e.id}), Moment(CanvasMotion(e), env))
  {
    var s1, at := s.(handled := s.handled + {e.id}), StageCoords(s, e, env);
    Apart(c, s, s1, e, env);
    SamePoint(c, s1, e, env);
    SamePoint(c, s1.(await := false, anchor := None), e, env);
    hide Accepts, LikelyOverDock, DockHit, InRoot, Settle, Repair, StageCoords, Inv, Begin, ForwardSwatch;
    assert DispatchKind(c, e, false) == e.kind.value;
    MotionSamePoint(c, s1, e, env);
  }

  lemma SamePoint(c: Codes, s: Session, e: Event, env: Env)
    requires StageCoords(s, e, env).Some?
    ensures Begin(s, e, env, StageCoords(s, e, env)) == Begin(s, e, env, None)
    ensures HandlePoint(s, e, env, StageCoords(s, e, env)) == HandlePoint(s, e, env, None)
    ensures Motionish(e.kind) ==> ForwardSwatch(s, e, env, StageCoords(s, e, env)) == ForwardSwatch(s, e, env, None)
  {
  }

  lemma MotionSamePoint(c: Codes, s: Session, e: Event, env: Env)
    requires !s.penDown && s.visible && e.isPen && Motionish(e.kind) && StageCoords(s, e, env).Some?
    ensures OnMotion(c, s, e, env, StageCoords(s, e, env)) == OnMotion(c, s, e, env, None)
  {
    var at, open := StageCoords(s, e, env), s.(await := false, anchor := None);
    assert StageCoords(open, e, env) == at;
    SamePoint(c, s, e, env);
    SamePoint(c, open, e, env);
    hide LikelyOverDock, DockHit, InRoot, StageCoords, Begin, ForwardSwatch, HandlePoint, ImplicitPress;
    assert OnPress(c, s, e, env, at) == OnPress(c, s, e, env, None);
    assert OnPress(c, open, e, env, at) == OnPress(c, open, e, env, None);
  }

  /** With the pen up and the dock hidden, a captured press does what it would do on the canvas. */
  lemma CapturedPressActs(c: Codes, s: Session, e: Event, env: Env)
    requires Inv(s) && !s.penDown && s.visible && e.isPen && Discrete(c, e.kind) && !env.dockVisible
    requires Passes(c, s, e, env) && PointOf(c, s, Moment(StageCaptured(e), env)) == StageCoords(s, e, env)
    ensures Step(c, s, Moment(StageCaptured(e), env)) ==
      Step(c, s.(handled := s.handled + {e.id}), Moment(CanvasPress(e), env))
  {
    var s1, at := s.(handled := s.handled + {e.id}), StageCoords(s, e, env);
    Apart(c, s, s1, e, env);
    SamePoint(c, s1, e, env);
    assert !ForwardSwatch(s1, e, env, at).stop && !ForwardSwatch(s1, e, env, None).stop;
    hide Accepts, LikelyOverDock, DockHit, InRoot, Settle, Repair, StageCoords, Inv, Begin, ForwardSwatch, HandlePoint;
    assert OnPress(c, s1, e, env, at) == OnPress(c, s1, e, env, None);
    assert DispatchKind(c, e, false) == e.kind.value;
  }

  /** A pen that comes into range or enters behind the closed gate is remembered with the time, and nothing else
      happens. */
  lemma RangeRemembered(c: Codes, s: Session, e: Event, env: Env)
    requires Inv(s) && s.visible && s.await && EntersByPen(e) && !Discrete(c, e.kind)
    requires Passes(c, s, e, env)
    ensures Step(c, s, Moment(StageCaptured(e), env)) ==
      s.(handled := s.handled + {e.id}, armed := true, armedAt := env.now)
  {
    var s1 := s.(handled := s.handled + {e.id});
    Apart(c, s, s1, e, env);
    hide Accepts, LikelyOverDock, DockHit, InRoot, Settle, Repair, StageCoords, Inv;
  }

  /** A release of the pen on the canvas forgets the press that was swallowed. */
  lemma ReleaseForgets(c: Codes, s: Session, e: Event, env: Env)
    requires Inv(s) && s.visible && !s.penDown && e.isPen && ReleaseLike(e.kind)
    ensures Step(c, s, Moment(CanvasRelease(e), env)) == s.(anchor := None)
  {
  }

  /** A release on the canvas ends what the pen draws or erases, and so does that of any device if it is one. */
  lemma ReleaseEnds(c: Codes, s: Session, e: Event, env: Env)
    requires Inv(s) && s.penDown
    ensures
      var s' := Step(c, s, Moment(CanvasRelease(e), env));
      if e.isPen || ReleaseLike(e.kind) || e.kind == Some(ProximityOut) then Ended(s, s') else s' == s
  {
  }

  /** A captured release that gets past the root and the dock ends what is drawn or erased, and so does any captured
      event of the gesture that the dock holds. */
  lemma CapturedReleaseEnds(c: Codes, s: Session, e: Event, env: Env)
    requires Inv(s) && s.penDown && ReleaseLike(e.kind) && !Discrete(c, e.kind)
    requires Accepts(s, e, env) && e.id !in s.handled && StageCoords(s, e, env).Some?
    requires InRoot(env, Repair(s, e, env, StageCoords(s, e, env).value).at)
    ensures Ended(s, Step(c, s, Moment(StageCaptured(e), env)))
  {
    var s1 := s.(handled := s.handled + {e.id});
    var raw := StageCoords(s, e, env).value;
    Apart(c, s, s1, e, env);
    var fix := Repair(s, e, env, raw);
    var at := Settle(c, s, e, env, raw, fix.at);
    hide Accepts, LikelyOverDock, DockHit, InRoot, Settle, Repair, StageCoords, Apply, Logged;
    assert DispatchKind(c, e, fix.coerced) == e.kind.value;
  }

  /** The overlay is shown if it was hidden, with the drawing as it was, and hidden if it was shown, with what was being
      drawn or erased ended. */
  lemma ToggleShows(s: Session)
    requires Inv(s)
    ensures
      var s' := Toggle(s);
      && s'.visible == !s.visible && !s'.penDown && s'.model.current == None && s'.model.eraser == None
      && s'.model.pen == s.model.pen
      && (s.model.eraser == None ==> s'.model.strokes == WithCurrent(s.model))
      && (s.model.eraser.Some? ==> s'.model == FinishErase(s.model))
  {
    if s.model.eraser == None {
      assert s.model.strokes + [] == s.model.strokes;
    }
  }

  /** The buttons and the content call the stroke model once, and change nothing else of the session. */
  lemma ButtonsCall(c: Codes, s: Session, m: Moment)
    requires m.input.Undone? || m.input.Cleared? || m.input.Recolored? || m.input.ContentMoved?
    ensures
      var op := match m.input
                case Undone => OpUndoOne
                case Cleared => OpClearAll
                case Recolored(rgba) => OpSetPenColor(rgba)
                case ContentMoved(dx, dy) => OpTranslateAll(dx, dy)
                case _ => OpUndoOne;
      Step(c, s, m) == s.(model := Apply(s.model, op), calls := Snoc(s.calls, op))
  {
  }

  // ---- Taps on the dock ----

  ghost predicate SwatchHit(env: Env, p: XY, i: int) {
    && 0 <= i < |env.swatches| && env.swatches[i].visible
    && env.swatches[i].box.x - 6.0 <= p.x < env.swatches[i].box.x + Max(1.0, env.swatches[i].box.w) + 6.0
    && env.swatches[i].box.y - 6.0 <= p.y < env.swatches[i].box.y + Max(1.0, env.swatches[i].box.h) + 6.0
  }

  lemma {:induction false} SwatchAtIs(env: Env, p: XY, n: nat)
    requires n <= |env.swatches|
    ensures
      var rgba := SwatchAt(env, p, n);
      if exists i :: i < n && SwatchHit(env, p, i) then
        exists i :: SwatchHit(env, p, i) && rgba == Some(env.swatches[i].rgba) && forall j :: j < i ==> !SwatchHit(env, p, j)
      else rgba == None
  {
    if n > 0 {
      SwatchAtIs(env, p, n - 1);
      if SwatchAt(env, p, n - 1) == None && SwatchHit(env, p, n - 1) {
        assert forall j :: j < n - 1 ==> !SwatchHit(env, p, j);
      }
    }
  }

  /** A press of the pen on the canvas, with the dock shown, under whose pointer or point a swatch lies sets the colour of
      the first such swatch and draws nothing. */
  lemma SwatchTaps(c: Codes, s: Session, e: Event, env: Env, i: nat)
    requires Inv(s) && s.visible && !s.penDown && e.isPen && !Motionish(e.kind) && env.dockVisible
    requires env.pointer.Some? && InRoot(env, env.pointer.value)
    requires SwatchHit(env, env.pointer.value, i) && forall j :: j < i ==> !SwatchHit(env, env.pointer.value, j)
    ensures
      var s', rgba := Step(c, s, Moment(CanvasPress(e), env)), env.swatches[i].rgba;
      s' == s.(model := s.model.(pen := rgba), calls := Snoc(s.calls, OpSetPenColor(rgba)))
  {
    var p := env.pointer.value;
    SwatchAtIs(env, p, |env.swatches|);
    var points := TapPoints(s, e, env, None);
    assert points[0] == p && TapAt(env, p) == Some(OpSetPenColor(env.swatches[i].rgba));
    FirstTapFirst(env, points, |points|);
  }

  lemma {:induction false} FirstTapFirst(env: Env, points: seq<XY>, n: nat)
    requires 0 < n <= |points| && TapAt(env, points[0]).Some?
    ensures FirstTap(env, points, n) == TapAt(env, points[0])
  {
    if n > 1 {
      FirstTapFirst(env, points, n - 1);
    } else {
      assert FirstTap(env, points, 0) == None;
    }
  }

  // ---- Whose events, and where ----

  /** An event of another device is left alone while the pen is up, unless it is a motion soon after a pen came into
      range; and so is a pen's over the dock, unless a press was swallowed before. */
  lemma LeftAlone(c: Codes, s: Session, e: Event, env: Env)
    requires !s.penDown
    requires
      || (!e.isPen && !(Motionish(e.kind) && Fresh(s, env)))
      || (LikelyOverDock(s, e, env) && !(s.await && s.anchor.Some?))
      || !s.visible
    ensures Step(c, s, Moment(StageCaptured(e), env)) == s
  {
  }

  /** Coordinates of the pen are believed if they lie in the overlay, are not stuck at the corner of the stage, are not of
      the kind with code 17 and not on the dock. */
  lemma BelievedPoint(c: Codes, s: Session, e: Event, env: Env)
    requires e.isPen && e.coords.Some? && InRoot(env, e.coords.value) && e.coords.value != XY(0.0, 0.0)
    requires e.kind != Some(c.seventeen) && !DockHit(env, e.coords.value, 4.0)
    ensures PointOf(c, s, Moment(StageCaptured(e), env)) == e.coords
  {
    var s1 := s.(handled := s.handled + {e.id});
    assert StageCoords(s1, e, env) == e.coords;
    assert Repair(s1, e, env, e.coords.value).at == e.coords.value;
  }

  /** Coordinates stuck at the corner of the stage are replaced by the last point of the stroke, whatever the event, if the
      pointer is unknown and no key or wheel was moved. */
  lemma StuckPoint(c: Codes, s: Session, e: Event, env: Env)
    requires s.penDown && s.lastGood.Some? && InRoot(env, s.lastGood.value) && !KeyOrScroll(e.kind)
    requires e.coords == Some(XY(0.0, 0.0)) && env.pointer == None
    ensures PointOf(c, s, Moment(StageCaptured(e), env)) == s.lastGood
  {
    var s1 := s.(handled := s.handled + {e.id});
    assert Repair(s1, e, env, XY(0.0, 0.0)) == Fix(s.lastGood.value, true);
    SelfDistance(s.lastGood.value);
  }

  lemma SelfDistance(p: XY)
    ensures DistSq(p, p) == 0.0
  {
    ZeroSquare(p.x);
    ZeroSquare(p.y);
  }

  /** A motion of a stroke outside the overlay is taken to be where it leaves it: each coordinate is kept if it is inside,
      and moved to the edge if not. */
  lemma ClampedPoint(env: Env, p: XY)
    requires env.root.w >= 1.0 && env.root.h >= 1.0
    ensures
      var q := Clamped(env, p);
      && (env.root.x <= p.x <= env.root.x + env.root.w - 0.0001 ==> q.x == p.x)
      && (env.root.y <= p.y <= env.root.y + env.root.h - 0.0001 ==> q.y == p.y)
      && (p.x < env.root.x ==> q.x == env.root.x)
      && (p.y < env.root.y ==> q.y == env.root.y)
      && (p.x > env.root.x + env.root.w - 0.0001 ==> q.x == env.root.x + env.root.w - 0.0001)
      && (p.y > env.root.y + env.root.h - 0.0001 ==> q.y == env.root.y + env.root.h - 0.0001)
  {
  }

  /** A point of a stroke that was captured in the overlay is the last good one from then on. */
  lemma PointIsLastGood(c: Codes, s: Session, e: Event, env: Env)
    requires Inv(s) && s.penDown && Follows(c, s, Moment(StageCaptured(e), env))
    requires
      var at := PointOf(c, s, Moment(StageCaptured(e), env));
      at.Some? && InRoot(env, at.value)
    ensures Step(c, s, Moment(StageCaptured(e), env)).lastGood == PointOf(c, s, Moment(StageCaptured(e), env))
  {
    var s1 := s.(handled := s.handled + {e.id});
    var raw := StageCoords(s, e, env).value;
    Apart(c, s, s1, e, env);
    var fix := Repair(s, e, env, raw);
    var at := Settle(c, s, e, env, raw, fix.at);
    hide Accepts, LikelyOverDock, DockHit, InRoot, Settle, Repair, StageCoords, Apply, Logged, HeldByDock;
    DispatchLastGood(c, s1, e, env, at, DispatchKind(c, e, fix.coerced));
    assert Deliver(c, s1, e, env, raw, at, fix.coerced) == Dispatch(c, s1, e, env, at, DispatchKind(c, e, fix.coerced)) by {
      Delivered(c, s1, e, env, raw, at, fix.coerced);
    }
  }

  lemma Delivered(c: Codes, s: Session, e: Event, env: Env, raw: XY, at: XY, coerced: bool)
    requires s.penDown && !HeldByDock(s, e, env, raw, at) && (e.kind.None? ==> Accepts(s, e, env))
    ensures Deliver(c, s, e, env, raw, at, coerced) == Dispatch(c, s, e, env, at, DispatchKind(c, e, coerced))
  {
  }

  lemma DispatchLastGood(c: Codes, s: Session, e: Event, env: Env, at: XY, t: Kind)
    requires Inv(s) && s.penDown && InRoot(env, at) && PointKind(c, e, t, true) && !LikelyOverDock(s, e, env)
    ensures Dispatch(c, s, e, env, at, t).s.lastGood == Some(at)
  {
    ArmAlike(s, e, env);
    hide LikelyOverDock, InRoot, Apply, Logged;
    assert OnMotion(c, s, e, env, Some(at)).s.lastGood == Some(at);
    assert OnMotion(c, Arm(s, env), e, env, Some(at)).s.lastGood == Some(at);
    assert OnPress(c, s, e, env, Some(at)).s.lastGood == Some(at);
  }

  /** Exactly when a point of a stroke is moved back to the last good one: when the event's coordinates lie on the dock
      but the pointer is elsewhere, or when its kind has code 17 and it is more than 85 away. */
  lemma SettledBack(c: Codes, s: Session, e: Event, env: Env, raw: XY, p: XY)
    requires s.lastGood.Some? && InRoot(env, s.lastGood.value) && s.penDown && e.isPen
    ensures Settle(c, s, e, env, raw, p) ==
      if TabletDockRawDisagreesWithPointer(env, raw)
         || (e.kind == Some(c.seventeen) && DistSq(p, s.lastGood.value) > 85.0 * 85.0)
      then s.lastGood.value else p
  {
    SelfDistance(s.lastGood.value);
  }

  /** Within so much of a box. */
  predicate Within(box: Rect, p: XY, pad: real) {
    && box.x - pad <= p.x < box.x + Max(1.0, box.w) + pad
    && box.y - pad <= p.y < box.y + Max(1.0, box.h) + pad
  }

  /** A point counts as on the dock if it is in the palette, which is placed in the root, or so near to the dock while that
      is shown; the event is over it if its point or the pointer is within 28. */
  lemma OverDockIff(s: Session, e: Event, env: Env)
    ensures
      var near := (p: Option<XY>) =>
        p.Some?
        && (InRect(env.palette, XY(p.value.x - env.root.x, p.value.y - env.root.y))
            || (env.dockVisible && Within(env.dock, p.value, 28.0)));
      LikelyOverDock(s, e, env) <==> near(StageCoords(s, e, env)) || near(env.pointer)
  {
  }

  predicate InRect(box: Rect, p: XY) {
    box.x <= p.x < box.x + box.w && box.y <= p.y < box.y + box.h
  }
}
