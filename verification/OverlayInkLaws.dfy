/** Where the overlay session draws. */
module OverlayInkLaws {
  import opened Options
  import opened OverlayLaws
  import opened OverlaySpec
  import opened SnocLists
  import opened StrokeModelSpec
  import opened StrokeSpec

  // ---- Captured ink lies in the root ----

  predicate InkIn(op: Op, env: Env) {
    match op
    case OpBeginStroke(x, y, _, _) => 0.0 <= x < env.root.w && 0.0 <= y < env.root.h
    case OpBeginErase(x, y, _) => 0.0 <= x < env.root.w && 0.0 <= y < env.root.h
    case OpAppendPoint(x, y, _) => 0.0 <= x < env.root.w && 0.0 <= y < env.root.h
    case OpAppendErase(x, y) => 0.0 <= x < env.root.w && 0.0 <= y < env.root.h
    case _ => true
  }

  /** The calls made since have their points in the root. */
  predicate InkSince(before: List<Op>, after: List<Op>, env: Env) {
    before == after || (after.Snoc? && InkIn(after.last, env) && InkSince(before, after.init, env))
  }

  lemma ForwardInk(s: Session, e: Event, env: Env, pair: Option<XY>)
    ensures InkSince(s.calls, ForwardSwatch(s, e, env, pair).s.calls, env)
  {
    var points := TapPoints(s, e, env, pair);
    FirstTapKind(env, points, |points|);
  }

  lemma PressInk(c: Codes, s: Session, e: Event, env: Env, at: XY)
    requires InRoot(env, at)
    ensures InkSince(s.calls, OnPress(c, s, e, env, Some(at)).s.calls, env)
    decreases 1
  {
    ForwardInk(s, e, env, Some(at));
    if s.penDown {
      MotionInk(c, s, e, env, at);
    }
  }

  lemma MotionInk(c: Codes, s: Session, e: Event, env: Env, at: XY)
    requires InRoot(env, at)
    ensures InkSince(s.calls, OnMotion(c, s, e, env, Some(at)).s.calls, env)
    decreases if s.penDown then 0 else 2
  {
    if !s.penDown {
      PressInk(c, s.(await := false, anchor := None), e, env, at);
      PressInk(c, s, e, env, at);
    }
  }

  lemma ClampedInRoot(env: Env, p: XY)
    requires env.root.w >= 1.0 && env.root.h >= 1.0
    ensures InRoot(env, Clamped(env, p))
  {
  }

  lemma SettledInRoot(c: Codes, s: Session, e: Event, env: Env, raw: XY, p: XY)
    requires env.root.w >= 1.0 && env.root.h >= 1.0 && InRoot(env, p)
    ensures InRoot(env, Settle(c, s, e, env, raw, p))
  {
    if s.lastGood.Some? {
      ClampedInRoot(env, s.lastGood.value);
    }
  }

  lemma DispatchInk(c: Codes, s: Session, e: Event, env: Env, at: XY, t: Kind)
    requires InRoot(env, at)
    ensures InkSince(s.calls, Dispatch(c, s, e, env, at, t).s.calls, env)
  {
    if Discrete(c, Some(t)) {
      PressInk(c, s, e, env, at);
    } else if t == ProximityIn {
      MotionInk(c, Arm(s, env), e, env, at);
    } else {
      MotionInk(c, s, e, env, at);
    }
  }

  lemma DeliverInk(c: Codes, s: Session, e: Event, env: Env, raw: XY, at: XY, coerced: bool)
    requires InRoot(env, at)
    ensures InkSince(s.calls, Deliver(c, s, e, env, raw, at, coerced).s.calls, env)
  {
    ForwardInk(s, e, env, env.pointer);
    ForwardInk(s, e, env, Some(at));
    DispatchInk(c, s, e, env, at, DispatchKind(c, e, coerced));
  }

  /** A press of the pen with this point would draw, whatever the gate lets through. */
  predicate Draws(s: Session, e: Event, env: Env, at: XY) {
    && s.visible && !LikelyOverDock(s, e, env)
    && (s.penDown || (e.mode != NoMode && !s.await && !ForwardSwatch(s, e, env, Some(at)).stop))
  }

  /** Beginning or extending a stroke with a point outside the root draws there. */
  lemma OutsideInk(s: Session, e: Event, env: Env, at: XY)
    requires !InRoot(env, at)
    ensures !InkSince(s.calls, Begin(s, e, env, Some(at)).calls, env)
    ensures !InkSince(s.calls, Extend(s, e, env, Some(at)).calls, env)
  {
    var begun, extended := Begin(s, e, env, Some(at)).calls, Extend(s, e, env, Some(at)).calls;
    assert Length(begun) == Length(s.calls) + 2 && !InkIn(begun.last, env);
    assert Length(extended) == Length(s.calls) + 1 && !InkIn(extended.last, env);
  }

  lemma PressOutside(c: Codes, s: Session, e: Event, env: Env, at: XY)
    requires !InRoot(env, at) && e.isPen && Discrete(c, e.kind)
    ensures InkSince(s.calls, OnPress(c, s, e, env, Some(at)).s.calls, env) <==> !Draws(s, e, env, at)
  {
    ForwardInk(s, e, env, Some(at));
    if Draws(s, e, env, at) {
      if s.penDown {
        assert OnPress(c, s, e, env, Some(at)) == OnMotion(c, s, e, env, Some(at));
        assert OnMotion(c, s, e, env, Some(at)).s == Extend(s, e, env, Some(at));
      } else {
        assert OnPress(c, s, e, env, Some(at)).s == Begin(s, e, env, Some(at));
      }
      OutsideInk(s, e, env, at);
    }
  }

  /** The event enters with the pen, and its kind is taken for a press. */
  predicate EntersAsPress(c: Codes, e: Event) {
    EntersByPen(e) && e.kind == Some(c.sixteen)
  }

  lemma DeliverOutside(c: Codes, s: Session, e: Event, env: Env, raw: XY, at: XY)
    requires !InRoot(env, at) && EntersByPen(e)
    ensures InkSince(s.calls, Deliver(c, s, e, env, raw, at, false).s.calls, env) <==>
      !(EntersAsPress(c, e) && Draws(s, e, env, at))
  {
    if EntersAsPress(c, e) {
      PressOutside(c, s, e, env, at);
    }
  }

  /** The motions of a stroke are taken to be in the root whenever the pointer is. */
  lemma StrokeCoordsInRoot(s: Session, e: Event, env: Env)
    requires s.penDown && Motionish(e.kind) && env.pointer.Some? && InRoot(env, env.pointer.value)
    ensures StageCoords(s, e, env).Some? && InRoot(env, StageCoords(s, e, env).value)
  {
  }

  /** In a coerced stroke the repaired point is in the root, so nothing is coerced outside it. */
  lemma CoercedInRoot(s: Session, e: Event, env: Env, raw: XY)
    requires env.root.w >= 1.0 && env.root.h >= 1.0
    ensures Repair(s, e, env, raw).coerced ==> InRoot(env, Repair(s, e, env, raw).at)
  {
    if s.lastGood.Some? {
      ClampedInRoot(env, s.lastGood.value);
    }
  }

  /** A captured event is handled, at this point, although that point is not in the root. */
  predicate HandledOutside(c: Codes, s: Session, e: Event, env: Env) {
    var raw := StageCoords(s, e, env);
    && s.visible && Accepts(s, e, env) && e.id !in s.handled && raw.Some? && EntersByPen(e)
    && !InRoot(env, SettledPoint(c, s, e, env, raw.value))
  }

  function SettledPoint(c: Codes, s: Session, e: Event, env: Env, raw: XY): XY {
    Settle(c, s, e, env, raw, Repair(s, e, env, raw).at)
  }

  /** A captured event draws outside the root: it enters there with the pen, its kind is taken for a press, and it is
      not over the dock; and either a stroke goes on, or the gate is open and the pen has a drawing mode and no swatch
      under it. */
  predicate Escapes(c: Codes, s: Session, e: Event, env: Env) {
    && HandledOutside(c, s, e, env) && EntersAsPress(c, e)
    && Draws(s, e, env, SettledPoint(c, s, e, env, StageCoords(s, e, env).value))
  }

  /** Exactly which captured events draw only inside the root, from any state whatever, wherever the root was
      before, and for all codes. */
  lemma CaptureInkIff(c: Codes, s: Session, e: Event, env: Env)
    requires env.root.w >= 1.0 && env.root.h >= 1.0
    ensures InkSince(s.calls, Captured(c, s, e, env).s.calls, env) <==> !Escapes(c, s, e, env)
  {
    if s.visible && Accepts(s, e, env) && e.id !in s.handled {
      var s1 := s.(handled := s.handled + {e.id});
      var raw := StageCoords(s1, e, env);
      if raw.Some? {
        var fix := Repair(s1, e, env, raw.value);
        var at := Settle(c, s1, e, env, raw.value, fix.at);
        HandledApart(c, s, s1, e, env, raw.value);
        CoercedInRoot(s1, e, env, raw.value);
        SettledOutside(c, s1, e, env, raw.value, fix.at);
        if InRoot(env, fix.at) {
          SettledInRoot(c, s1, e, env, raw.value, fix.at);
        }
        hide InRoot, Settle, Repair, Deliver, Accepts, LikelyOverDock, ForwardSwatch, InkSince, Draws;
        if InRoot(env, at) {
          DeliverInk(c, s1, e, env, raw.value, at, fix.coerced);
          NoInk(s, env);
        } else {
          assert !fix.coerced;
          if EntersByPen(e) {
            DeliverOutside(c, s1, e, env, raw.value, at);
          } else {
            NoInk(s, env);
          }
        }
      } else {
        NoInk(s, env);
      }
    }
  }

  lemma NoInk(s: Session, env: Env)
    ensures InkSince(s.calls, s.calls, env)
  {
  }

  /** That the event is now known to have been handled plays no part in where it is taken to be. */
  lemma HandledApart(c: Codes, s: Session, s1: Session, e: Event, env: Env, raw: XY)
    requires s1 == s.(handled := s1.handled)
    ensures StageCoords(s1, e, env) == StageCoords(s, e, env)
    ensures SettledPoint(c, s1, e, env, raw) == SettledPoint(c, s, e, env, raw)
    ensures forall at :: Draws(s1, e, env, at) <==> Draws(s, e, env, at)
  {
  }

  lemma SettledOutside(c: Codes, s: Session, e: Event, env: Env, raw: XY, p: XY)
    requires env.root.w >= 1.0 && env.root.h >= 1.0
    ensures Settle(c, s, e, env, raw, p) == p || InRoot(env, Settle(c, s, e, env, raw, p))
  {
    if s.lastGood.Some? {
      ClampedInRoot(env, s.lastGood.value);
    }
  }

  /** The overlay has an extent at every moment. */
  predicate Extended(run: List<Moment>) {
    run.Snoc? ==> run.last.env.root.w >= 1.0 && run.last.env.root.h >= 1.0 && Extended(run.init)
  }

  predicate CapturedInkInRoot(c: Codes, run: List<Moment>) {
    run.Snoc? ==>
      && CapturedInkInRoot(c, run.init)
      && (run.last.input.StageCaptured? ==> InkSince(State(c, run.init).calls, State(c, run).calls, run.last.env))
  }

  predicate NoneEscapes(c: Codes, run: List<Moment>) {
    run.Snoc? ==>
      && NoneEscapes(c, run.init)
      && (run.last.input.StageCaptured? ==> !Escapes(c, State(c, run.init), run.last.input.e, run.last.env))
  }

  lemma {:induction false} RunInkIff(c: Codes, run: List<Moment>)
    requires Extended(run)
    ensures CapturedInkInRoot(c, run) <==> NoneEscapes(c, run)
  {
    if run.Snoc? {
      RunInkIff(c, run.init);
      if run.last.input.StageCaptured? {
        CaptureInkIff(c, State(c, run.init), run.last.input.e, run.last.env);
      }
    }
  }

  lemma {:induction false} OtherCodesNoneEscape(c: Codes, run: List<Moment>)
    requires c.sixteen != ProximityIn && c.sixteen != Enter
    ensures NoneEscapes(c, run)
  {
    if run.Snoc? {
      OtherCodesNoneEscape(c, run.init);
    }
  }

  // A run that draws outside: a pen press and a drag open the gate, the pen is lifted, and an event with code 16
  // arrives outside the root.

  const NOWHERE := Rect(0.0, 0.0, 0.0, 0.0)
  const DESK := Env(Rect(0.0, 0.0, 1000.0, 800.0), None, NOWHERE, false, NOWHERE, [], Swatch(false, NOWHERE, []), [], 0)

  function PenEvent(id: int, kind: Kind, x: real, y: real): Event {
    Event(id, Some(kind), true, Some(XY(x, y)), true, 0.5, true, TabletLike, Draw)
  }

  /** The same from a pen that does not touch the tablet. */
  function HoverEvent(id: int, kind: Kind, x: real, y: real): Event {
    PenEvent(id, kind, x, y).(pressure := 0.0)
  }

  function PenMoment(id: int, kind: Kind, x: real, y: real): Moment {
    Moment(StageCaptured(PenEvent(id, kind, x, y)), DESK)
  }

  function Pressed(): List<Moment> {
    Snoc(Snoc(Nil, Moment(Toggled, DESK)), PenMoment(1, ButtonPress, 100.0, 100.0))
  }

  function Opened(): List<Moment> {
    Snoc(Pressed(), PenMoment(2, Motion, 200.0, 100.0))
  }

  /** On the desk a pen event in the overlay, or one that enters outside it, is dispatched where it is. */
  lemma PlainCapture(c: Codes, s: Session, e: Event)
    requires s.visible && s.lastGood.None? && e.id !in s.handled
    requires e.isPen && e.kind.Some? && e.coords.Some? && e.coords.value != XY(0.0, 0.0)
    requires InRoot(DESK, e.coords.value) || (!s.penDown && EntersByPen(e))
    ensures Captured(c, s, e, DESK) ==
      Dispatch(c, s.(handled := s.handled + {e.id}), e, DESK, e.coords.value, e.kind.value)
  {
    assert !LikelyOverDock(s, e, DESK) && Accepts(s, e, DESK);
    var s1 := s.(handled := s.handled + {e.id});
    assert StageCoords(s1, e, DESK) == e.coords;
    assert Repair(s1, e, DESK, e.coords.value) == Fix(e.coords.value, false);
  }

  lemma PressedState(c: Codes)
    ensures State(c, Pressed()) == INITIAL.(visible := true, handled := {1}, anchor := Some(XY(100.0, 100.0)))
  {
    var shown := INITIAL.(visible := true);
    assert State(c, Snoc(Nil, Moment(Toggled, DESK))) == Toggle(INITIAL) == shown;
    PlainCapture(c, shown, PenEvent(1, ButtonPress, 100.0, 100.0));
    assert shown.handled + {1} == {1};
  }

  lemma PressBegins(c: Codes, s: Session, e: Event, pair: Option<XY>)
    requires s.visible && !s.penDown && !s.await && e.isPen && e.mode == Draw
    ensures OnPress(c, s, e, DESK, pair).s == Begin(s, e, DESK, pair)
  {
    assert !LikelyOverDock(s, e, DESK) && !ForwardSwatch(s, e, DESK, pair).stop;
  }

  lemma FarApart()
    ensures DistSq(XY(200.0, 100.0), XY(100.0, 100.0)) == 10000.0
  {
    assert 100.0 * 100.0 == 10000.0;
  }

  /** A drag of 100 from the anchor begins a stroke. */
  lemma DragBegins(c: Codes, s: Session, e: Event)
    requires s.visible && !s.penDown && s.await && s.anchor == Some(XY(100.0, 100.0))
    requires e.isPen && e.mode == Draw && e.kind == Some(Motion)
    ensures
      var pair := Some(XY(200.0, 100.0));
      OnMotion(c, s, e, DESK, pair).s == Begin(s.(await := false, anchor := None), e, DESK, pair)
  {
    PressBegins(c, s.(await := false, anchor := None), e, Some(XY(200.0, 100.0)));
    FarApart();
  }

  lemma BeginDraws(s: Session, e: Event, pair: Option<XY>)
    requires e.mode == Draw
    ensures
      var s' := Begin(s, e, DESK, pair);
      && s'.visible == s.visible && s'.penDown && s'.handled == s.handled && s'.lastGood == s.lastGood
      && s'.model.eraser.None?
  {
  }

  lemma DragStep(c: Codes, s: Session)
    requires s.visible && !s.penDown && s.await && s.anchor == Some(XY(100.0, 100.0)) && s.handled == {1}
    requires s.lastGood.None? && c.sixteen != Motion
    ensures
      var s' := Step(c, s, PenMoment(2, Motion, 200.0, 100.0));
      s'.visible && s'.penDown && s'.handled == {1, 2} && s'.model.eraser.None? && s'.lastGood.None?
  {
    var s1, e, pair := s.(handled := {1} + {2}), PenEvent(2, Motion, 200.0, 100.0), Some(XY(200.0, 100.0));
    assert {1} + {2} == {1, 2};
    assert Step(c, s, PenMoment(2, Motion, 200.0, 100.0)) == OnMotion(c, s1, e, DESK, pair).s by {
      PlainCapture(c, s, PenEvent(2, Motion, 200.0, 100.0));
    }
    DragBegins(c, s1, e);
    BeginDraws(s1.(await := false, anchor := None), e, pair);
  }

  lemma OpenedState(c: Codes)
    requires c.sixteen != Motion
    ensures
      var s := State(c, Opened());
      s.visible && s.penDown && s.handled == {1, 2} && s.model.eraser.None? && s.lastGood.None?
  {
    PressedState(c);
    DragStep(c, State(c, Pressed()));
  }

  /** A pen event dispatched as a press with the gate open begins a stroke where it is, even outside the root. */
  lemma EscapeStep(c: Codes, s: Session)
    requires s.visible && !s.penDown && !s.await && s.lastGood.None? && s.handled == {1, 2, 3}
    requires c.sixteen == ProximityIn || c.sixteen == Enter
    ensures Step(c, s, PenMoment(4, c.sixteen, 2000.0, 100.0)).calls
      == Snoc(Snoc(s.calls, OpFinishErase), OpBeginStroke(2000.0, 100.0, 0.5, -1))
  {
    PlainCapture(c, s, PenEvent(4, c.sixteen, 2000.0, 100.0));
    PressBegins(c, s.(handled := s.handled + {4}), PenEvent(4, c.sixteen, 2000.0, 100.0), Some(XY(2000.0, 100.0)));
  }

  lemma LiftStep(c: Codes, s: Session)
    requires Inv(s) && s.penDown && s.handled == {1, 2} && s.model.eraser.None? && s.lastGood.None?
    requires c.sixteen == ProximityIn || c.sixteen == Enter
    ensures
      var s' := Step(c, s, PenMoment(3, ButtonRelease, 200.0, 100.0));
      s'.visible && !s'.penDown && !s'.await && s'.lastGood.None? && s'.handled == {1, 2, 3}
  {
    PlainCapture(c, s, PenEvent(3, ButtonRelease, 200.0, 100.0));
    assert {1, 2} + {3} == {1, 2, 3};
  }

  lemma CodeSixteenEscapes(c: Codes)
    requires c.sixteen == ProximityIn || c.sixteen == Enter
    ensures
      var run := Snoc(Snoc(Opened(), PenMoment(3, ButtonRelease, 200.0, 100.0)), PenMoment(4, c.sixteen, 2000.0, 100.0));
      Extended(run) && !CapturedInkInRoot(c, run)
  {
    OpenedState(c);
    RunKeeps(c, Opened());
    var lift, last := PenMoment(3, ButtonRelease, 200.0, 100.0), PenMoment(4, c.sixteen, 2000.0, 100.0);
    LiftStep(c, State(c, Opened()));
    EscapeStep(c, State(c, Snoc(Opened(), lift)));
    var before := State(c, Snoc(Opened(), lift)).calls;
    var after := State(c, Snoc(Snoc(Opened(), lift), last)).calls;
    assert Length(after) == Length(before) + 2;
    assert !InkIn(after.last, DESK);
  }

  /** Every point drawn by a captured event of any run lies in the overlay if and only if code 16 is neither
      PROXIMITY_IN nor ENTER. In this repository's Clutter it is PROXIMITY_IN. */
  lemma InkInRootIff(c: Codes)
    ensures (forall run :: Extended(run) ==> CapturedInkInRoot(c, run)) <==> c.sixteen != ProximityIn && c.sixteen != Enter
  {
    if c.sixteen == ProximityIn || c.sixteen == Enter {
      CodeSixteenEscapes(c);
    } else {
      forall run | Extended(run) ensures CapturedInkInRoot(c, run) {
        RunInkIff(c, run);
        OtherCodesNoneEscape(c, run);
      }
    }
  }

  /** The codes of this repository's Clutter. */
  const CLUTTER_CODES := Codes(ProximityIn, ProximityOut)

  /** With them some captured event of some run draws outside the overlay. */
  lemma ClutterCodesEscape()
    ensures exists run :: Extended(run) && !CapturedInkInRoot(CLUTTER_CODES, run)
  {
    CodeSixteenEscapes(CLUTTER_CODES);
  }
}
