/** What every run of the overlay session keeps. */
module OverlayLaws {
  import opened Options
  import opened OverlaySpec
  import opened SnocLists
  import opened StrokeModelSpec
  import opened StrokeSpec

  // ---- The states a session can be in ----

  ghost predicate Inv(s: Session) {
    && (s.model.current.None? || s.model.eraser.None?)
    && (!s.penDown ==> s.model.current.None? && s.model.eraser.None? && s.lastGood.None?)
    && (s.penDown ==> s.visible && !s.await && s.anchor.None?)
    && (s.anchor.Some? ==> s.await)
    && (!s.visible ==> s.await && !s.armed)
    && Logged(s)
  }

  ghost predicate Logged(s: Session) {
    s.model == Track(s.calls).m
  }

  lemma CallTracks(s: Session, op: Op)
    requires Logged(s)
    ensures Logged(Call(s, op))
  {
  }

  lemma CommitKeeps(s: Session)
    requires Inv(s)
    ensures Inv(Commit(s)) && !Commit(s).penDown
  {
  }

  lemma ForwardKeeps(s: Session, e: Event, env: Env, pair: Option<XY>)
    requires Inv(s)
    ensures Inv(ForwardSwatch(s, e, env, pair).s)
  {
    var points := TapPoints(s, e, env, pair);
    FirstTapKind(env, points, |points|);
  }

  lemma {:induction false} FirstTapKind(env: Env, points: seq<XY>, n: nat)
    requires n <= |points|
    ensures FirstTap(env, points, n).Some? ==>
      FirstTap(env, points, n).value.OpSetPenColor? || FirstTap(env, points, n).value.OpClearAll?
  {
    if n > 0 {
      FirstTapKind(env, points, n - 1);
    }
  }

  lemma BeginKeeps(s: Session, e: Event, env: Env, pair: Option<XY>)
    requires s.visible && Logged(s) && (s.model.current.None? || s.model.eraser.None?)
    ensures Inv(Begin(s, e, env, pair)) && Begin(s, e, env, pair).penDown
  {
    var s1 := Call(s, if e.mode == Erase then OpCommitCurrent else OpFinishErase);
    CallTracks(s, if e.mode == Erase then OpCommitCurrent else OpFinishErase);
    var s2 := Begin(s, e, env, pair);
    CallTracks(s1, s2.calls.last);
  }

  lemma ExtendKeeps(s: Session, e: Event, env: Env, pair: Option<XY>)
    requires Inv(s) && s.penDown
    ensures Inv(Extend(s, e, env, pair))
  {
  }

  lemma PressKeeps(c: Codes, s: Session, e: Event, env: Env, pair: Option<XY>)
    requires Inv(s)
    ensures Inv(OnPress(c, s, e, env, pair).s)
    decreases 1
  {
    ForwardKeeps(s, e, env, pair);
    CommitKeeps(s);
    if s.visible {
      BeginKeeps(s, e, env, pair);
    }
    if s.penDown {
      MotionKeeps(c, s, e, env, pair);
    }
  }

  lemma MotionKeeps(c: Codes, s: Session, e: Event, env: Env, pair: Option<XY>)
    requires Inv(s)
    ensures Inv(OnMotion(c, s, e, env, pair).s)
    decreases if s.penDown then 0 else 2
  {
    CommitKeeps(s);
    if s.penDown {
      ExtendKeeps(s, e, env, pair);
    } else if s.visible {
      PressKeeps(c, s.(await := false, anchor := None), e, env, pair);
      PressKeeps(c, s, e, env, pair);
    }
  }

  lemma ReleaseKeeps(s: Session, e: Event)
    requires Inv(s)
    ensures Inv(OnRelease(s, e).s)
  {
  }

  /** A PROXIMITY_OUT of the pen that is dispatched ends the stroke and leaves the gate closed. */
  lemma LeavingRange(s: Session, e: Event)
    requires Inv(s) && s.visible && e.isPen && e.kind == Some(ProximityOut)
    ensures
      var s' := OnRelease(s.(await := true, anchor := None), e).s;
      Inv(s') && !s'.penDown && s'.await && s'.anchor.None?
  {
  }

  lemma DispatchKeeps(c: Codes, s: Session, e: Event, env: Env, at: XY, t: Kind)
    requires Inv(s) && s.visible && (e.kind.Some? ==> t == e.kind.value || t == Motion) && (e.kind.None? ==> t == Motion)
    ensures Inv(Dispatch(c, s, e, env, at, t).s)
  {
    if Discrete(c, Some(t)) {
      PressKeeps(c, s, e, env, Some(at));
    } else if t == ProximityIn {
      MotionKeeps(c, Arm(s, env), e, env, Some(at));
    } else if t == ProximityOut && e.isPen {
      LeavingRange(s, e);
    } else {
      MotionKeeps(c, s, e, env, Some(at));
      ReleaseKeeps(s, e);
    }
  }

  lemma DeliverKeeps(c: Codes, s: Session, e: Event, env: Env, raw: XY, at: XY, coerced: bool)
    requires Inv(s) && s.visible
    ensures Inv(Deliver(c, s, e, env, raw, at, coerced).s)
  {
    ForwardKeeps(s, e, env, env.pointer);
    ForwardKeeps(s, e, env, Some(at));
    CommitKeeps(s);
    DispatchKeeps(c, s, e, env, at, DispatchKind(c, e, coerced));
  }

  lemma CaptureKeeps(c: Codes, s: Session, e: Event, env: Env)
    requires Inv(s)
    ensures Inv(Captured(c, s, e, env).s)
  {
    if s.visible && Accepts(s, e, env) && e.id !in s.handled {
      var s1 := s.(handled := s.handled + {e.id});
      var raw := StageCoords(s1, e, env);
      if raw.Some? {
        var fix := Repair(s1, e, env, raw.value);
        DeliverKeeps(c, s1, e, env, raw.value, Settle(c, s1, e, env, raw.value, fix.at), fix.coerced);
      }
    }
  }

  lemma ToggleKeeps(s: Session)
    requires Inv(s)
    ensures Inv(Toggle(s)) && !Toggle(s).penDown && Toggle(s).await && Toggle(s).anchor.None?
  {
  }

  /** Every input keeps the invariant. */
  lemma StepKeeps(c: Codes, s: Session, m: Moment)
    requires Inv(s)
    ensures Inv(Step(c, s, m))
  {
    match m.input
    case StageCaptured(e) => CaptureKeeps(c, s, e, m.env);
    case CanvasPress(e) => PressKeeps(c, s, e, m.env, None);
    case CanvasMotion(e) => MotionKeeps(c, s, e, m.env, None);
    case CanvasRelease(e) => ReleaseKeeps(s, e);
    case Toggled => ToggleKeeps(s);
    case Undone => CallTracks(s, OpUndoOne);
    case Cleared => CallTracks(s, OpClearAll);
    case Recolored(rgba) => CallTracks(s, OpSetPenColor(rgba));
    case ContentMoved(dx, dy) => CallTracks(s, OpTranslateAll(dx, dy));
  }

  /** In every state of every run: never both a stroke and an eraser path; with the pen up neither, and no last
      point; with the pen down the overlay is shown, the gate open and nothing anchored; an anchor only behind a
      closed gate; a hidden overlay has its gate closed. The strokes are what the calls made so far make them. */
  lemma {:induction false} RunKeeps(c: Codes, run: List<Moment>)
    ensures Inv(State(c, run))
  {
    match run
    case Nil =>
      assert Track(Nil).m == EMPTY;
    case Snoc(init, m) =>
      RunKeeps(c, init);
      StepKeeps(c, State(c, init), m);
  }
}
