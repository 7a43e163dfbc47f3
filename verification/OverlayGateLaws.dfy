/** The deferred-ink gate: what it takes to draw after the pen was out of range or the overlay was hidden. */
module OverlayGateLaws {
  import opened Options
  import opened OverlayInkLaws
  import opened OverlayLaws
  import opened OverlaySpec
  import opened SnocLists
  import opened StrokeModelSpec
  import opened StrokeSpec

  function EventOf(input: Input): Option<Event> {
    match input
    case StageCaptured(e) => Some(e)
    case CanvasPress(e) => Some(e)
    case CanvasMotion(e) => Some(e)
    case CanvasRelease(e) => Some(e)
    case _ => None
  }

  /** Where the event of a moment is handled: captured events at their repaired point. */
  function PointOf(c: Codes, s: Session, m: Moment): Option<XY> {
    match m.input
    case StageCaptured(e) =>
      var s1 := s.(handled := s.handled + {e.id});
      var raw := StageCoords(s1, e, m.env);
      if raw.None? then None
      else Some(Settle(c, s1, e, m.env, raw.value, Repair(s1, e, m.env, raw.value).at))
    case CanvasPress(e) => StageCoords(s, e, m.env)
    case CanvasMotion(e) => StageCoords(s, e, m.env)
    case _ => None
  }

  /** An event of the pen that counts as a discrete press draws nothing and is remembered as the anchor. Which kinds
      of event count is said by SwallowedKindIff. */
  predicate Swallows(c: Codes, s: Session, m: Moment) {
    var e, s' := EventOf(m.input), Step(c, s, m);
    && e.Some? && e.value.isPen && Discrete(c, e.value.kind)
    && s'.model == s.model && s'.anchor.Some? && s'.anchor == PointOf(c, s, m)
  }

  /** A motion of the pen at least 8 away from the anchor. */
  predicate Unlocks(c: Codes, s: Session, m: Moment) {
    var e, at := EventOf(m.input), PointOf(c, s, m);
    && e.Some? && e.value.isPen && Motionish(e.value.kind)
    && s.anchor.Some? && at.Some? && DistSq(at.value, s.anchor.value) >= PEN_INK_DRAG_UNLOCK2
  }

  /** The kind of a press on the canvas can be read as one; an unreadable kind is not taken for a press. */
  predicate Readable(c: Codes, m: Moment) {
    match m.input
    case CanvasPress(e) => Discrete(c, e.kind)
    case StageCaptured(e) => e.kind.Some? || c.sixteen != Motion
    case _ => true
  }

  // ---- One step behind the closed gate ----

  /** What a handler does to a closed gate when it handles an event at a point. */
  predicate Guarded(c: Codes, s: Session, e: Event, at: Option<XY>, s': Session) {
    if s'.await then
      || s'.anchor == s.anchor
      || s'.anchor.None?
      || (e.isPen && Discrete(c, e.kind) && s'.model == s.model && s'.anchor.Some? && s'.anchor == at)
    else
      && e.isPen && Motionish(e.kind) && s.anchor.Some? && at.Some?
      && DistSq(at.value, s.anchor.value) >= PEN_INK_DRAG_UNLOCK2
  }

  lemma ForwardLeavesGate(s: Session, e: Event, env: Env, pair: Option<XY>)
    ensures
      var s' := ForwardSwatch(s, e, env, pair).s;
      s'.await == s.await && s'.anchor == s.anchor
  {
  }

  lemma PressGuarded(c: Codes, s: Session, e: Event, env: Env, pair: Option<XY>)
    requires s.await && !s.penDown && Discrete(c, e.kind)
    ensures Guarded(c, s, e, HandlePoint(s, e, env, pair), OnPress(c, s, e, env, pair).s)
  {
    ForwardLeavesGate(s, e, env, pair);
  }

  lemma OpenPressStaysOpen(c: Codes, s: Session, e: Event, env: Env, pair: Option<XY>)
    requires !s.await
    ensures !OnPress(c, s, e, env, pair).s.await
    decreases 1
  {
    ForwardLeavesGate(s, e, env, pair);
    if s.penDown {
      OpenMotionStaysOpen(c, s, e, env, pair);
    }
  }

  lemma OpenMotionStaysOpen(c: Codes, s: Session, e: Event, env: Env, pair: Option<XY>)
    requires !s.await
    ensures !OnMotion(c, s, e, env, pair).s.await
    decreases if s.penDown then 0 else 2
  {
    if !s.penDown {
      OpenPressStaysOpen(c, s.(await := false, anchor := None), e, env, pair);
      OpenPressStaysOpen(c, s, e, env, pair);
    }
  }

  lemma MotionGuarded(c: Codes, s: Session, e: Event, env: Env, pair: Option<XY>)
    requires s.await && !s.penDown
    ensures Guarded(c, s, e, HandlePoint(s, e, env, pair), OnMotion(c, s, e, env, pair).s)
  {
    OpenPressStaysOpen(c, s.(await := false, anchor := None), e, env, pair);
  }

  lemma DispatchGuarded(c: Codes, s: Session, e: Event, env: Env, at: XY, t: Kind)
    requires s.await && !s.penDown
    requires e.kind == Some(t) || (e.kind.None? && t == Motion && c.sixteen != Motion)
    ensures Guarded(c, s, e, Some(at), Dispatch(c, s, e, env, at, t).s)
  {
    if Discrete(c, Some(t)) {
      PressGuarded(c, s, e, env, Some(at));
    } else if Motionish(Some(t)) {
      MotionGuarded(c, s, e, env, Some(at));
    }
  }

  lemma DeliverGuarded(c: Codes, s: Session, e: Event, env: Env, raw: XY, at: XY)
    requires s.await && !s.penDown && (e.kind.Some? || c.sixteen != Motion)
    ensures Guarded(c, s, e, Some(at), Deliver(c, s, e, env, raw, at, false).s)
  {
    ForwardLeavesGate(s, e, env, env.pointer);
    ForwardLeavesGate(s, e, env, Some(at));
    DispatchGuarded(c, s, e, env, at, DispatchKind(c, e, false));
  }

  lemma CaptureGuarded(c: Codes, s: Session, m: Moment)
    requires s.await && !s.penDown && m.input.StageCaptured? && Readable(c, m)
    ensures Guarded(c, s, m.input.e, PointOf(c, s, m), Step(c, s, m))
  {
    var e, env := m.input.e, m.env;
    if s.visible && Accepts(s, e, env) && e.id !in s.handled {
      var s1 := s.(handled := s.handled + {e.id});
      var raw := StageCoords(s1, e, env);
      if raw.Some? {
        var fix := Repair(s1, e, env, raw.value);
        DeliverGuarded(c, s1, e, env, raw.value, Settle(c, s1, e, env, raw.value, fix.at));
      }
    }
  }

  /** Behind the closed gate a step that leaves it closed keeps the anchor, drops it or swallows a press, and only
      a motion away from the anchor opens it. */
  lemma GateStep(c: Codes, s: Session, m: Moment)
    requires Inv(s) && s.await && Readable(c, m)
    ensures
      var s' := Step(c, s, m);
      if s'.await then s'.anchor == s.anchor || s'.anchor.None? || Swallows(c, s, m) else Unlocks(c, s, m)
  {
    match m.input
    case StageCaptured(e) => CaptureGuarded(c, s, m);
    case CanvasPress(e) => PressGuarded(c, s, e, m.env, None);
    case CanvasMotion(e) => MotionGuarded(c, s, e, m.env, None);
    case _ =>
  }

  // ---- What closes the gate ----

  lemma DispatchCloses(c: Codes, s: Session, e: Event, env: Env, at: XY, t: Kind)
    requires Inv(s) && !s.await
    ensures Dispatch(c, s, e, env, at, t).s.await ==> Dispatch(c, s, e, env, at, t).s.anchor.None?
  {
    if Discrete(c, Some(t)) {
      OpenPressStaysOpen(c, s, e, env, Some(at));
    } else if t == ProximityIn {
      OpenMotionStaysOpen(c, Arm(s, env), e, env, Some(at));
    } else {
      OpenMotionStaysOpen(c, s, e, env, Some(at));
    }
  }

  lemma CaptureCloses(c: Codes, s: Session, e: Event, env: Env)
    requires Inv(s) && !s.await
    ensures Captured(c, s, e, env).s.await ==> Captured(c, s, e, env).s.anchor.None?
  {
    if s.visible && Accepts(s, e, env) && e.id !in s.handled {
      var s1 := s.(handled := s.handled + {e.id});
      var raw := StageCoords(s1, e, env);
      if raw.Some? {
        var fix := Repair(s1, e, env, raw.value);
        var at := Settle(c, s1, e, env, raw.value, fix.at);
        ForwardLeavesGate(s1, e, env, env.pointer);
        ForwardLeavesGate(s1, e, env, Some(at));
        DispatchCloses(c, s1, e, env, at, DispatchKind(c, e, fix.coerced));
      }
    }
  }

  /** A step that closes the gate leaves no anchor. */
  lemma ClosingStep(c: Codes, s: Session, m: Moment)
    requires Inv(s) && !s.await
    ensures Step(c, s, m).await ==> Step(c, s, m).anchor.None?
  {
    match m.input
    case StageCaptured(e) => CaptureCloses(c, s, e, m.env);
    case CanvasPress(e) => OpenPressStaysOpen(c, s, e, m.env, None);
    case CanvasMotion(e) => OpenMotionStaysOpen(c, s, e, m.env, None);
    case _ =>
  }

  /** One of the three branches at the dock returns before a captured event is dispatched. */
  predicate HeldByDock(s: Session, e: Event, env: Env, raw: XY, at: XY) {
    || (!s.penDown && InRoot(env, at) && e.isPen && PointerOnDockWhileTabletMisses(env, raw))
    || (InRoot(env, at) && DockHit(env, at, 4.0) && !(s.penDown && TabletDockRawDisagreesWithPointer(env, raw)))
    || (s.penDown && e.isPen && InRoot(env, at) && env.pointer.Some? && InRoot(env, env.pointer.value)
        && DockHit(env, env.pointer.value, 4.0) && !DockHit(env, at, 4.0))
  }

  /** A captured event reaches the dispatch by its kind: it is accepted, new, has a point that the repairs leave
      in the root, and the dock does not take it. */
  predicate Reaches(c: Codes, s: Session, e: Event, env: Env) {
    var raw := StageCoords(s, e, env);
    && Accepts(s, e, env) && e.id !in s.handled
    && raw.Some? && InRoot(env, Repair(s, e, env, raw.value).at)
    && !HeldByDock(s, e, env, raw.value, Settle(c, s, e, env, raw.value, Repair(s, e, env, raw.value).at))
  }

  predicate ClosedAndIdle(s: Session) {
    s.await && s.anchor.None? && !s.penDown
  }

  lemma DeliverCloses(c: Codes, s: Session, e: Event, env: Env, raw: XY, at: XY, coerced: bool)
    requires Inv(s) && s.visible && e.isPen && e.kind == Some(ProximityOut) && c.sixteen != ProximityOut
    ensures ClosedAndIdle(Deliver(c, s, e, env, raw, at, coerced).s) <==>
      (s.await && s.anchor.None?) || !HeldByDock(s, e, env, raw, at)
  {
    hide DockHit, InRoot, PointerOnDockWhileTabletMisses, TabletDockRawDisagreesWithPointer;
    ForwardLeavesGate(s, e, env, env.pointer);
    ForwardLeavesGate(s, e, env, Some(at));
    if !HeldByDock(s, e, env, raw, at) {
      LeavingRange(s, e);
    }
  }

  lemma SameDock(s: Session, s1: Session, e: Event, env: Env, raw: XY, at: XY)
    requires s1.penDown == s.penDown
    ensures HeldByDock(s, e, env, raw, at) == HeldByDock(s1, e, env, raw, at)
  {
  }

  /** Exactly when a captured PROXIMITY_OUT of the pen leaves the gate closed, nothing anchored and the pen up:
      if it reaches the dispatch, or if that was so before. */
  lemma GateClosesIff(c: Codes, s: Session, e: Event, env: Env)
    requires Inv(s) && s.visible && e.isPen && e.kind == Some(ProximityOut) && c.sixteen != ProximityOut
    ensures ClosedAndIdle(Step(c, s, Moment(StageCaptured(e), env))) <==>
      (s.await && s.anchor.None?) || Reaches(c, s, e, env)
  {
    if Accepts(s, e, env) && e.id !in s.handled {
      var s1 := s.(handled := s.handled + {e.id});
      var raw := StageCoords(s1, e, env);
      if raw.Some? {
        var fix := Repair(s1, e, env, raw.value);
        var at := Settle(c, s1, e, env, raw.value, fix.at);
        DeliverCloses(c, s1, e, env, raw.value, at, fix.coerced);
        hide HeldByDock, Deliver, InRoot, DockHit, Accepts;
        assert StageCoords(s, e, env) == raw && Repair(s, e, env, raw.value) == fix;
        assert Settle(c, s, e, env, raw.value, fix.at) == at;
        SameDock(s, s1, e, env, raw.value, at);
      }
    }
  }

  /** In a stroke begun on the desk the pen leaves range outside the overlay: the stroke goes on and the gate stays
      open. */
  lemma LeavingOutsideKeepsDrawing(c: Codes)
    requires c.sixteen != Motion && c.sixteen != ProximityOut
    ensures
      var s := State(c, Snoc(Opened(), PenMoment(3, ProximityOut, 2000.0, 100.0)));
      s.penDown && !s.await
  {
    OpenedState(c);
    RunKeeps(c, Opened());
    var s, e := State(c, Opened()), PenEvent(3, ProximityOut, 2000.0, 100.0);
    var s1 := s.(handled := s.handled + {3});
    assert StageCoords(s1, e, DESK) == Some(XY(2000.0, 100.0));
    assert Repair(s1, e, DESK, XY(2000.0, 100.0)) == Fix(XY(2000.0, 100.0), false);
  }

  // ---- Over whole runs ----

  /** After start every press on the canvas can be read as one. */
  predicate AllReadable(c: Codes, start: List<Moment>, run: List<Moment>) {
    run != start && run.Snoc? ==> Readable(c, run.last) && AllReadable(c, start, run.init)
  }

  /** Between start and run a press was swallowed, and its anchor still stands after run. */
  ghost predicate SwallowedBetween(c: Codes, start: List<Moment>, run: List<Moment>) {
    exists u: List<Moment> :: SwallowedAt(c, start, u, run)
  }

  ghost predicate SwallowedAt(c: Codes, start: List<Moment>, u: List<Moment>, run: List<Moment>) {
    && u.Snoc? && IsPrefix(start, u.init) && IsPrefix(u, run)
    && Swallows(c, State(c, u.init), u.last) && State(c, u).anchor == State(c, run).anchor
  }

  /** Between start and run a press was swallowed at some anchor, and later the pen moved away from that anchor. */
  ghost predicate UnlockedBetween(c: Codes, start: List<Moment>, run: List<Moment>) {
    exists v: List<Moment> :: UnlockedAt(c, start, v, run)
  }

  ghost predicate UnlockedAt(c: Codes, start: List<Moment>, v: List<Moment>, run: List<Moment>) {
    && v.Snoc? && IsPrefix(v, run)
    && SwallowedBetween(c, start, v.init) && Unlocks(c, State(c, v.init), v.last)
  }

  ghost predicate GateOrder(c: Codes, start: List<Moment>, run: List<Moment>) {
    if State(c, run).await then State(c, run).anchor.None? || SwallowedBetween(c, start, run)
    else UnlockedBetween(c, start, run)
  }

  lemma SwallowedLater(c: Codes, start: List<Moment>, init: List<Moment>, m: Moment)
    requires SwallowedBetween(c, start, init) && State(c, Snoc(init, m)).anchor == State(c, init).anchor
    ensures SwallowedBetween(c, start, Snoc(init, m))
  {
    var u :| SwallowedAt(c, start, u, init);
    assert SwallowedAt(c, start, u, Snoc(init, m));
  }

  lemma UnlockedLater(c: Codes, start: List<Moment>, init: List<Moment>, m: Moment)
    requires UnlockedBetween(c, start, init)
    ensures UnlockedBetween(c, start, Snoc(init, m))
  {
    var v :| UnlockedAt(c, start, v, init);
    assert UnlockedAt(c, start, v, Snoc(init, m));
  }

  lemma GateOrderStep(c: Codes, start: List<Moment>, init: List<Moment>, m: Moment)
    requires IsPrefix(start, init) && GateOrder(c, start, init) && Inv(State(c, init)) && Readable(c, m)
    ensures GateOrder(c, start, Snoc(init, m))
  {
    var s, run := State(c, init), Snoc(init, m);
    if s.await {
      GateStep(c, s, m);
      if State(c, run).await {
        if Swallows(c, s, m) {
          assert SwallowedAt(c, start, run, run);
        } else if State(c, run).anchor.Some? {
          SwallowedLater(c, start, init, m);
        }
      } else {
        assert UnlockedAt(c, start, run, run);
      }
    } else {
      ClosingStep(c, s, m);
      if !State(c, run).await {
        UnlockedLater(c, start, init, m);
      }
    }
  }

  lemma {:induction false} GateOrderHolds(c: Codes, start: List<Moment>, run: List<Moment>)
    requires IsPrefix(start, run) && AllReadable(c, start, run)
    requires State(c, start).await && State(c, start).anchor.None?
    ensures GateOrder(c, start, run)
  {
    if start != run {
      GateOrderHolds(c, start, run.init);
      RunKeeps(c, run.init);
      GateOrderStep(c, start, run.init, run.last);
    }
  }

  /** After any moment at which the gate stood closed with nothing anchored, as it does when the overlay was toggled
      and when a PROXIMITY_OUT of the pen was dispatched, the pen is down only if an event of the pen that counts as a
      discrete press was swallowed at an anchor and after that the pen moved at least 8 away from it. */
  lemma GateHolds(c: Codes, start: List<Moment>, run: List<Moment>)
    requires IsPrefix(start, run) && AllReadable(c, start, run)
    requires State(c, start).await && State(c, start).anchor.None?
    requires State(c, run).penDown
    ensures UnlockedBetween(c, start, run)
  {
    GateOrderHolds(c, start, run);
    RunKeeps(c, run);
  }

  /** Exactly which presses on the canvas get past the closed gate: those whose kind is not a discrete press. */
  lemma GateBypassIff(c: Codes, s: Session, e: Event, env: Env)
    requires Inv(s) && s.await
    ensures Step(c, s, Moment(CanvasPress(e), env)).penDown <==>
      && s.visible && e.isPen && e.mode != NoMode && !Discrete(c, e.kind)
      && !LikelyOverDock(s, e, env) && !ForwardSwatch(s, e, env, None).stop
  {
    ForwardLeavesGate(s, e, env, None);
  }

  /** Right after the overlay is shown a press on the canvas whose kind cannot be read draws. */
  lemma UnreadablePressDraws(c: Codes)
    ensures State(c, Snoc(Shown(), Moment(CanvasPress(PenEvent(1, Motion, 100.0, 100.0).(kind := None)), DESK))).penDown
  {
    var e := PenEvent(1, Motion, 100.0, 100.0).(kind := None);
    RunKeeps(c, Shown());
    ShownState(c);
    GateBypassIff(c, State(c, Shown()), e, DESK);
  }

  // ---- Which events are swallowed ----

  function Shown(): List<Moment> {
    Snoc(Nil, Moment(Toggled, DESK))
  }

  lemma ShownState(c: Codes)
    ensures State(c, Shown()) == INITIAL.(visible := true)
  {
  }

  function Hovering(id: int, kind: Kind, x: real, y: real): Moment {
    Moment(StageCaptured(HoverEvent(id, kind, x, y)), DESK)
  }

  /** With code 16 of that kind or not: an event that counts as a press is swallowed on the desk. */
  lemma SwallowedOnDesk(c: Codes, kind: Kind)
    requires Discrete(c, Some(kind))
    ensures
      var run := Snoc(Shown(), Hovering(1, kind, 100.0, 100.0));
      && Swallows(c, State(c, Shown()), run.last)
      && State(c, run) == INITIAL.(visible := true, handled := {1}, anchor := Some(XY(100.0, 100.0)))
  {
    var s, e := State(c, Shown()), HoverEvent(1, kind, 100.0, 100.0);
    ShownState(c);
    PlainCapture(c, s, e);
    assert s.handled + {1} == {1};
    var s1 := s.(handled := {1});
    assert !LikelyOverDock(s1, e, DESK) && !ForwardSwatch(s1, e, DESK, e.coords).stop;
    assert StageCoords(s1, e, DESK) == e.coords && Repair(s1, e, DESK, e.coords.value) == Fix(e.coords.value, false);
  }

  /** In the run a moment swallows an event of this kind at its end. */
  ghost predicate SwallowsKind(c: Codes, run: List<Moment>, kind: Kind) {
    && run.Snoc? && Swallows(c, State(c, run.init), run.last)
    && EventOf(run.last.input).value.kind == Some(kind)
  }

  /** Exactly which kinds of event some run swallows as a press: BUTTON_PRESS, TOUCH_BEGIN and whatever has code 16. */
  lemma SwallowedKindIff(c: Codes, kind: Kind)
    ensures (exists run :: SwallowsKind(c, run, kind)) <==> Discrete(c, Some(kind))
  {
    if Discrete(c, Some(kind)) {
      SwallowedOnDesk(c, kind);
      assert SwallowsKind(c, Snoc(Shown(), Hovering(1, kind, 100.0, 100.0)), kind);
    }
  }

  /** The pen comes into range and hovers along. */
  function HoverRun(): List<Moment> {
    Snoc(Snoc(Shown(), Hovering(1, ProximityIn, 100.0, 100.0)), Hovering(2, Motion, 200.0, 100.0))
  }

  /** If code 16 is PROXIMITY_IN, as in this repository's Clutter, a pen that only comes into range and hovers opens
      the gate and draws. */
  lemma HoverDraws(c: Codes)
    requires c.sixteen == ProximityIn
    ensures State(c, HoverRun()).penDown
  {
    SwallowedOnDesk(c, ProximityIn);
    var s, e := State(c, HoverRun().init), HoverEvent(2, Motion, 200.0, 100.0);
    PlainCapture(c, s, e);
    DragBegins(c, s.(handled := s.handled + {2}), e);
  }

  /** In every run what the gate swallows is never a pen coming into range if and only if code 16 is not
      PROXIMITY_IN. */
  lemma RangeNotSwallowedIff(c: Codes)
    ensures (forall run :: !SwallowsKind(c, run, ProximityIn)) <==> c.sixteen != ProximityIn
  {
    SwallowedKindIff(c, ProximityIn);
  }

  // ---- Nothing is drawn behind the gate ----

  predicate Quiet(op: Op) {
    !op.OpBeginStroke? && !op.OpBeginErase? && !op.OpAppendPoint? && !op.OpAppendErase?
  }

  predicate QuietSince(before: List<Op>, after: List<Op>) {
    before == after || (after.Snoc? && Quiet(after.last) && QuietSince(before, after.init))
  }

  lemma ForwardQuiet(s: Session, e: Event, env: Env, pair: Option<XY>)
    ensures QuietSince(s.calls, ForwardSwatch(s, e, env, pair).s.calls)
  {
    var points := TapPoints(s, e, env, pair);
    FirstTapKind(env, points, |points|);
  }

  lemma PressQuiet(c: Codes, s: Session, e: Event, env: Env, pair: Option<XY>)
    requires !s.penDown && !OnPress(c, s, e, env, pair).s.penDown
    ensures QuietSince(s.calls, OnPress(c, s, e, env, pair).s.calls)
  {
    ForwardQuiet(s, e, env, pair);
  }

  lemma MotionQuiet(c: Codes, s: Session, e: Event, env: Env, pair: Option<XY>)
    requires !s.penDown && !OnMotion(c, s, e, env, pair).s.penDown
    ensures QuietSince(s.calls, OnMotion(c, s, e, env, pair).s.calls)
  {
    if OnPress(c, s.(await := false, anchor := None), e, env, pair) == OnMotion(c, s, e, env, pair) {
      PressQuiet(c, s.(await := false, anchor := None), e, env, pair);
    }
    if OnPress(c, s, e, env, pair) == OnMotion(c, s, e, env, pair) {
      PressQuiet(c, s, e, env, pair);
    }
  }

  lemma DispatchQuiet(c: Codes, s: Session, e: Event, env: Env, at: XY, t: Kind)
    requires !s.penDown && !Dispatch(c, s, e, env, at, t).s.penDown
    ensures QuietSince(s.calls, Dispatch(c, s, e, env, at, t).s.calls)
  {
    if Discrete(c, Some(t)) {
      PressQuiet(c, s, e, env, Some(at));
    } else if Motionish(Some(t)) {
      MotionQuiet(c, s, e, env, Some(at));
    } else if t == ProximityIn && InRoot(env, at) && !s.await {
      MotionQuiet(c, Arm(s, env), e, env, Some(at));
    }
  }

  lemma CaptureQuiet(c: Codes, s: Session, e: Event, env: Env)
    requires !s.penDown && !Captured(c, s, e, env).s.penDown
    ensures QuietSince(s.calls, Captured(c, s, e, env).s.calls)
  {
    if s.visible && Accepts(s, e, env) && e.id !in s.handled {
      var s1 := s.(handled := s.handled + {e.id});
      var raw := StageCoords(s1, e, env);
      if raw.Some? {
        var fix := Repair(s1, e, env, raw.value);
        var at, t := Settle(c, s1, e, env, raw.value, fix.at), DispatchKind(c, e, fix.coerced);
        ForwardQuiet(s1, e, env, env.pointer);
        ForwardQuiet(s1, e, env, Some(at));
        if !Dispatch(c, s1, e, env, at, t).s.penDown {
          DispatchQuiet(c, s1, e, env, at, t);
        }
      }
    }
  }

  lemma ReleaseQuiet(s: Session, e: Event)
    requires !s.penDown
    ensures QuietSince(s.calls, OnRelease(s, e).s.calls)
  {
  }

  lemma ToggleQuiet(s: Session)
    ensures QuietSince(s.calls, Toggle(s).calls)
  {
  }

  lemma CallQuiet(s: Session, op: Op)
    requires Quiet(op)
    ensures QuietSince(s.calls, Call(s, op).calls)
  {
  }

  /** A step between two states with the gate closed draws nothing. */
  lemma ClosedIsQuiet(c: Codes, s: Session, m: Moment)
    requires Inv(s) && s.await && Step(c, s, m).await
    ensures QuietSince(s.calls, Step(c, s, m).calls)
  {
    assert !s.penDown && !Step(c, s, m).penDown by {
      StepKeeps(c, s, m);
    }
    hide OnPress, OnMotion, OnRelease, Captured, Toggle, Call, QuietSince;
    match m.input
    case StageCaptured(e) => CaptureQuiet(c, s, e, m.env);
    case CanvasPress(e) => PressQuiet(c, s, e, m.env, None);
    case CanvasMotion(e) => MotionQuiet(c, s, e, m.env, None);
    case CanvasRelease(e) => ReleaseQuiet(s, e);
    case Toggled => ToggleQuiet(s);
    case Undone => CallQuiet(s, OpUndoOne);
    case Cleared => CallQuiet(s, OpClearAll);
    case Recolored(rgba) => CallQuiet(s, OpSetPenColor(rgba));
    case ContentMoved(dx, dy) => CallQuiet(s, OpTranslateAll(dx, dy));
  }

  /** An event that comes in over two capture connections acts once. */
  lemma CapturedOnce(c: Codes, s: Session, e: Event, env: Env, env': Env)
    requires s.visible && Accepts(s, e, env)
    ensures
      var s' := Captured(c, s, e, env).s;
      Captured(c, s', e, env').s == s'
  {
    if e.id !in s.handled {
      var s1 := s.(handled := s.handled + {e.id});
      var raw := StageCoords(s1, e, env);
      if raw.Some? {
        var fix := Repair(s1, e, env, raw.value);
        DeliverHandles(c, s1, e, env, raw.value, Settle(c, s1, e, env, raw.value, fix.at), fix.coerced);
      }
    }
  }

  lemma DispatchHandles(c: Codes, s: Session, e: Event, env: Env, at: XY, t: Kind)
    ensures Dispatch(c, s, e, env, at, t).s.handled == s.handled
  {
    if Discrete(c, Some(t)) {
      PressHandles(c, s, e, env, Some(at));
    } else if t == ProximityIn {
      MotionHandles(c, Arm(s, env), e, env, Some(at));
    } else {
      MotionHandles(c, s, e, env, Some(at));
    }
  }

  lemma DeliverHandles(c: Codes, s: Session, e: Event, env: Env, raw: XY, at: XY, coerced: bool)
    ensures Deliver(c, s, e, env, raw, at, coerced).s.handled == s.handled
  {
    DispatchHandles(c, s, e, env, at, DispatchKind(c, e, coerced));
  }

  lemma PressHandles(c: Codes, s: Session, e: Event, env: Env, pair: Option<XY>)
    ensures OnPress(c, s, e, env, pair).s.handled == s.handled
    decreases 1
  {
    if s.penDown {
      MotionHandles(c, s, e, env, pair);
    }
  }

  lemma MotionHandles(c: Codes, s: Session, e: Event, env: Env, pair: Option<XY>)
    ensures OnMotion(c, s, e, env, pair).s.handled == s.handled
    decreases if s.penDown then 0 else 2
  {
    if !s.penDown {
      PressHandles(c, s.(await := false, anchor := None), e, env, pair);
      PressHandles(c, s, e, env, pair);
    }
  }
}
