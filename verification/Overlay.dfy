/** The overlay session as an object whose handlers update it in place. */
module Overlay {
  import opened Options
  import opened OverlaySpec
  import opened SnocLists
  import opened StrokeModelSpec
  import opened StrokeSpec
  import Strokes

  lemma {:induction false} SwatchFound(env: Env, p: XY, n: nat, m: nat)
    requires n <= m <= |env.swatches| && SwatchAt(env, p, n).Some?
    ensures SwatchAt(env, p, m) == SwatchAt(env, p, n)
  {
    if n < m {
      SwatchFound(env, p, n, m - 1);
    }
  }

  lemma {:induction false} TapFound(env: Env, points: seq<XY>, n: nat, m: nat)
    requires n <= m <= |points| && FirstTap(env, points, n).Some?
    ensures FirstTap(env, points, m) == FirstTap(env, points, n)
  {
    if n < m {
      TapFound(env, points, n, m - 1);
    }
  }

  class OverlaySession {
    const codes: Codes
    const strokes: Strokes.StrokeModel
    var visible: bool
    var penDown: bool
    var armed: bool
    var armedAt: int
    var awaitInk: bool
    var anchor: Option<XY>
    var lastGood: Option<XY>
    var handled: set<int>
    var pair: Option<XY>          // the point of the capture dispatch under way
    ghost var calls: List<Op>     // all calls made into the stroke model

    ghost function View(): Session
      reads this, strokes
    {
      Session(visible, penDown, armed, armedAt, awaitInk, anchor, lastGood, handled, strokes.model, calls)
    }

    ghost predicate Valid()
      reads this, strokes, strokes.history, strokes.Repr()
    {
      this !in strokes.Repr() && strokes.Valid()
    }

    constructor (codes: Codes, strokes: Strokes.StrokeModel)
      requires strokes.Valid() && strokes.model == EMPTY
      modifies strokes.Repr()
      ensures Valid() && View() == INITIAL && pair.None?
      ensures this.codes == codes && this.strokes == strokes
      ensures fresh(strokes.Repr() - old(strokes.Repr()))
    {
      this.codes, this.strokes := codes, strokes;
      visible, penDown, armed, armedAt := false, false, false, 0;
      awaitInk, anchor, lastGood, handled, pair := true, None, None, {}, None;
      calls := Snoc(Nil, OpSetPenColor(FIRST_COLOR));
      new;
      strokes.SetPenColor(FIRST_COLOR);
    }

    // ---- What the handlers read ----

    /** _stageCoordsFromEvent. */
    method StageCoordsFromEvent(e: Event, env: Env) returns (xy: Option<XY>)
      ensures xy == StageCoords(View(), e, env)
    {
      xy := e.coords;
      var strokePointer := penDown && Motionish(e.kind);
      var bad := xy.None? || (e.isPen && xy.value == XY(0.0, 0.0));
      if bad && (e.isPen || strokePointer) {
        if env.pointer.Some? {
          return env.pointer;
        }
      }
      if strokePointer && xy.Some? && !InRoot(env, xy.value) {
        if env.pointer.Some? && InRoot(env, env.pointer.value) {
          return env.pointer;
        }
      }
    }

    /** _penEventLikelyOverDockPalette. */
    method EventLikelyOverDock(e: Event, env: Env) returns (over: bool)
      ensures over == LikelyOverDock(View(), e, env)
    {
      var sources := [];
      var xy := StageCoordsFromEvent(e, env);
      if xy.Some? {
        sources := sources + [xy.value];
      }
      if env.pointer.Some? {
        sources := sources + [env.pointer.value];
        assert sources[|sources| - 1] == env.pointer.value;
      }
      assert xy.Some? ==> sources[0] == xy.value;
      for i := 0 to |sources|
        invariant forall k :: 0 <= k < i ==> !DockHit(env, sources[k], 28.0)
      {
        if DockHit(env, sources[i], 28.0) {
          return true;
        }
      }
      return false;
    }

    /** _penMotionShouldImplicitPress. */
    method MotionShouldImplicitPress(e: Event, env: Env) returns (press: bool)
      ensures press == ImplicitPress(View(), e, env)
    {
      if e.kind.None? {
        return false;
      }
      if e.kind.value == ProximityIn && e.isPen {
        var xy := StageCoordsFromEvent(e, env);
        if xy.Some? && InPalette(env, xy.value) {
          return false;
        }
        if e.hasPressure {
          return e.pressure > IMPLICIT_PRESSURE_START;
        }
        return e.hasTool;
      }
      if !Motionish(e.kind) {
        return false;
      }
      if e.hasPressure {
        return e.pressure > IMPLICIT_PRESSURE_START;
      }
      var fresh' := armed && armedAt > 0 && env.now - armedAt < FRESH_MS;
      if e.device == TabletLike && (fresh' || e.hasTool) {
        return true;
      }
      return fresh' && e.device == CorePointer;
    }

    /** _penCaptureAcceptsEvent. */
    method CaptureAcceptsEvent(e: Event, env: Env) returns (accepts: bool)
      ensures accepts == Accepts(View(), e, env)
    {
      var overDock := EventLikelyOverDock(e, env);
      if !penDown && !(awaitInk && anchor.Some?) && overDock {
        return false;
      }
      if e.isPen {
        return true;
      }
      if Motionish(e.kind) && armed && armedAt > 0 && env.now - armedAt < FRESH_MS {
        return true;
      }
      if !penDown || e.kind.None? {
        return false;
      }
      return !e.kind.value.KeyPress? && !e.kind.value.KeyRelease?;
    }

    /** The point a handler takes an event to be at. */
    method PointFor(e: Event, env: Env) returns (at: Option<XY>)
      ensures at == HandlePoint(View(), e, env, pair)
    {
      if pair.Some? {
        return pair;
      }
      at := StageCoordsFromEvent(e, env);
    }

    /** _localFromEvent. */
    method LocalFromEvent(e: Event, env: Env) returns (at: XY)
      ensures at == Local(View(), e, env, pair)
    {
      var p := PointFor(e, env);
      if p.None? {
        return XY(0.0, 0.0);
      }
      return XY(p.value.x - env.root.x, p.value.y - env.root.y);
    }

    /** _windowSeqFromLocal: from the topmost window down. */
    method WindowSeqFromLocal(env: Env, at: XY) returns (seqNo: int)
      ensures seqNo == WindowSeq(env, XY(at.x + env.root.x, at.y + env.root.y), |env.windows|)
    {
      var p := XY(at.x + env.root.x, at.y + env.root.y);
      var i := |env.windows|;
      while i > 0
        invariant 0 <= i <= |env.windows|
        invariant WindowSeq(env, p, |env.windows|) == WindowSeq(env, p, i)
      {
        i := i - 1;
        var w := env.windows[i];
        if !w.minimized && w.frame.x <= p.x < w.frame.x + w.frame.w && w.frame.y <= p.y < w.frame.y + w.frame.h {
          return w.stableSeq;
        }
      }
      return -1;
    }

    // ---- Swatches ----

    method FindSwatch(env: Env, p: XY) returns (rgba: Option<seq<real>>)
      ensures rgba == SwatchAt(env, p, |env.swatches|)
    {
      for i := 0 to |env.swatches|
        invariant SwatchAt(env, p, i).None?
      {
        if env.swatches[i].visible && HitsBox(env.swatches[i].box, p, 6.0) {
          SwatchFound(env, p, i + 1, |env.swatches|);
          return Some(env.swatches[i].rgba);
        }
      }
      return None;
    }

    method FindTap(env: Env, points: seq<XY>) returns (tap: Option<Op>)
      ensures tap == FirstTap(env, points, |points|)
      ensures tap.Some? ==> tap.value.OpSetPenColor? || tap.value.OpClearAll?
    {
      for i := 0 to |points|
        invariant FirstTap(env, points, i).None?
      {
        if InRoot(env, points[i]) {
          var rgba := FindSwatch(env, points[i]);
          if rgba.Some? {
            TapFound(env, points, i + 1, |points|);
            return Some(OpSetPenColor(rgba.value));
          }
          if env.clear.visible && HitsBox(env.clear.box, points[i], 6.0) {
            TapFound(env, points, i + 1, |points|);
            return Some(OpClearAll);
          }
        }
      }
      return None;
    }

    /** The points at which a tap is looked for, in order. */
    method CandidatePoints(e: Event, env: Env) returns (points: seq<XY>)
      ensures points == TapPoints(View(), e, env, pair)
    {
      points := [];
      if e.isPen && env.pointer.Some? {
        points := points + [env.pointer.value];
      }
      if pair.Some? {
        points := points + [pair.value];
      }
      var xy := StageCoordsFromEvent(e, env);
      if xy.Some? {
        points := points + [xy.value];
      }
      if !e.isPen && env.pointer.Some? {
        points := points + [env.pointer.value];
      }
    }

    /** _forwardPenDockIfSwatchHit. */
    method ForwardPenDockIfSwatchHit(e: Event, env: Env) returns (hit: bool)
      requires Valid()
      modifies this, strokes.Repr()
      ensures Valid() && fresh(strokes.Repr() - old(strokes.Repr())) && pair == old(pair)
      ensures Outcome(View(), hit) == ForwardSwatch(old(View()), e, env, pair)
    {
      hide Strokes.StrokeModel.Valid;
      if penDown || !env.dockVisible || Motionish(e.kind) {
        return false;
      }
      var points := CandidatePoints(e, env);
      var tap := FindTap(env, points);
      if tap.None? {
        return false;
      }
      ClickTap(tap.value);
      return true;
    }

    /** The clicked handlers of the swatches and of the clear button. */
    method ClickTap(tap: Op)
      requires Valid() && (tap.OpSetPenColor? || tap.OpClearAll?)
      modifies this, strokes.Repr()
      ensures Valid() && fresh(strokes.Repr() - old(strokes.Repr())) && pair == old(pair)
      ensures View() == Call(old(View()), tap)
    {
      hide Strokes.StrokeModel.Valid;
      calls := Snoc(calls, tap);
      if tap.OpSetPenColor? {
        strokes.SetPenColor(tap.rgba);
      } else {
        strokes.ClearAll();
      }
    }

    /** The clicked handler of the undo button. */
    method ClickUndo()
      requires Valid()
      modifies this, strokes.Repr()
      ensures Valid() && fresh(strokes.Repr() - old(strokes.Repr())) && pair == old(pair)
      ensures View() == Call(old(View()), OpUndoOne)
    {
      hide Strokes.StrokeModel.Valid;
      calls := Snoc(calls, OpUndoOne);
      var _ := strokes.UndoOne();
    }

    // ---- The stroke ----

    /** _commitPenStrokeFromCapture. */
    method CommitPenStroke()
      requires Valid()
      modifies this, strokes.Repr()
      ensures Valid() && fresh(strokes.Repr() - old(strokes.Repr())) && pair == old(pair)
      ensures View() == Commit(old(View()))
    {
      hide Strokes.StrokeModel.Valid;
      if !penDown {
        return;
      }
      lastGood := None;
      penDown := false;
      strokes.EraserShown();
      if strokes.eraserPath.Some? {
        EndErase();
      } else {
        EndStroke();
      }
    }

    method EndErase()
      requires Valid()
      modifies this, strokes.Repr()
      ensures Valid() && fresh(strokes.Repr() - old(strokes.Repr())) && pair == old(pair)
      ensures View() == Call(old(View()), OpFinishErase)
    {
      hide Strokes.StrokeModel.Valid;
      calls := Snoc(calls, OpFinishErase);
      strokes.FinishErase();
    }

    method EndStroke()
      requires Valid()
      modifies this, strokes.Repr()
      ensures Valid() && fresh(strokes.Repr() - old(strokes.Repr())) && pair == old(pair)
      ensures View() == Call(old(View()), OpCommitCurrent)
    {
      hide Strokes.StrokeModel.Valid;
      calls := Snoc(calls, OpCommitCurrent);
      strokes.CommitCurrent();
    }

    method BeginInk(e: Event, env: Env)
      requires Valid()
      modifies this, strokes.Repr()
      ensures Valid() && fresh(strokes.Repr() - old(strokes.Repr())) && pair == old(pair)
      ensures View() == Begin(old(View()), e, env, pair)
    {
      hide Strokes.StrokeModel.Valid;
      hide Apply;
      var at := LocalFromEvent(e, env);
      var windowSeq := WindowSeqFromLocal(env, at);
      if e.mode == Erase {
        SwitchToErase(at, windowSeq);
      } else {
        SwitchToStroke(at, e.pressure, windowSeq);
      }
      penDown := true;
      awaitInk := false;
      anchor := None;
    }

    method SwitchToErase(at: XY, windowSeq: int)
      requires Valid()
      modifies this, strokes.Repr()
      ensures Valid() && fresh(strokes.Repr() - old(strokes.Repr())) && pair == old(pair)
      ensures View() == Call(Call(old(View()), OpCommitCurrent), OpBeginErase(at.x, at.y, windowSeq))
    {
      hide Strokes.StrokeModel.Valid;
      EndStroke();
      calls := Snoc(calls, OpBeginErase(at.x, at.y, windowSeq));
      strokes.BeginErase(at.x, at.y, windowSeq);
    }

    method SwitchToStroke(at: XY, pressure: real, windowSeq: int)
      requires Valid()
      modifies this, strokes.Repr()
      ensures Valid() && fresh(strokes.Repr() - old(strokes.Repr())) && pair == old(pair)
      ensures View() == Call(Call(old(View()), OpFinishErase), OpBeginStroke(at.x, at.y, pressure, windowSeq))
    {
      hide Strokes.StrokeModel.Valid;
      EndErase();
      calls := Snoc(calls, OpBeginStroke(at.x, at.y, pressure, windowSeq));
      strokes.BeginStroke(at.x, at.y, pressure, windowSeq);
    }

    method ExtendInk(e: Event, env: Env)
      requires Valid()
      modifies this, strokes.Repr()
      ensures Valid() && fresh(strokes.Repr() - old(strokes.Repr())) && pair == old(pair)
      ensures View() == Extend(old(View()), e, env, pair)
    {
      hide Strokes.StrokeModel.Valid;
      hide Apply;
      var at := LocalFromEvent(e, env);
      AppendInk(at, e.pressure);
      RefreshLastGood(env);
    }

    method AppendInk(at: XY, pressure: real)
      requires Valid()
      modifies this, strokes.Repr()
      ensures Valid() && fresh(strokes.Repr() - old(strokes.Repr())) && pair == old(pair)
      ensures View() == Call(old(View()), (
        if old(strokes.model).eraser.Some? then OpAppendErase(at.x, at.y) else OpAppendPoint(at.x, at.y, pressure)))
    {
      hide Strokes.StrokeModel.Valid;
      strokes.EraserShown();
      if strokes.eraserPath.Some? {
        calls := Snoc(calls, OpAppendErase(at.x, at.y));
        strokes.AppendErase(at.x, at.y);
      } else {
        calls := Snoc(calls, OpAppendPoint(at.x, at.y, pressure));
        strokes.AppendPoint(at.x, at.y, pressure);
      }
    }

    /** _refreshPenStrokeLastGoodStageXY. */
    method RefreshLastGood(env: Env)
      modifies `lastGood
      ensures lastGood == if pair.Some? && InRoot(env, pair.value) then pair else old(lastGood)
    {
      if pair.Some? && InRoot(env, pair.value) {
        lastGood := pair;
      }
    }

    // ---- Press, motion, release ----

    method OnPress(e: Event, env: Env) returns (stop: bool)
      requires Valid()
      modifies this, strokes.Repr()
      ensures Valid() && fresh(strokes.Repr() - old(strokes.Repr())) && pair == old(pair)
      ensures Outcome(View(), stop) == OverlaySpec.OnPress(codes, old(View()), e, env, pair)
      decreases 1
    {
      hide Strokes.StrokeModel.Valid;
      hide Begin, LikelyOverDock, StageCoords;
      if !visible {
        return false;
      }
      if e.isPen && !penDown {
        var forwarded := ForwardPenDockIfSwatchHit(e, env);
        if forwarded {
          return true;
        }
      }
      var overDock := EventLikelyOverDock(e, env);
      if overDock {
        CommitPenStroke();
        return false;
      }
      if penDown {
        stop := OnMotion(e, env);
        return;
      }
      if !e.isPen || e.mode == NoMode {
        return false;
      }
      if awaitInk && Discrete(codes, e.kind) {
        var at := PointFor(e, env);
        if at.Some? {
          anchor := at;
        }
        return true;
      }
      BeginInk(e, env);
      return true;
    }

    method OnMotion(e: Event, env: Env) returns (stop: bool)
      requires Valid()
      modifies this, strokes.Repr()
      ensures Valid() && fresh(strokes.Repr() - old(strokes.Repr())) && pair == old(pair)
      ensures Outcome(View(), stop) == OverlaySpec.OnMotion(codes, old(View()), e, env, pair)
      decreases if penDown then 0 else 2
    {
      hide Strokes.StrokeModel.Valid;
      if !visible {
        return false;
      }
      if !penDown {
        stop := OnHover(e, env);
        return;
      }
      if !e.isPen && pair.None? && !Motionish(e.kind) {
        return false;
      }
      var overDock := EventLikelyOverDock(e, env);
      if overDock {
        CommitPenStroke();
        return true;
      }
      ExtendInk(e, env);
      return true;
    }

    /** The part of _onMotion for the pen up. */
    method OnHover(e: Event, env: Env) returns (stop: bool)
      requires Valid() && visible && !penDown
      modifies this, strokes.Repr()
      ensures Valid() && fresh(strokes.Repr() - old(strokes.Repr())) && pair == old(pair)
      ensures Outcome(View(), stop) == OverlaySpec.OnMotion(codes, old(View()), e, env, pair)
      decreases 2, 0
    {
      hide Strokes.StrokeModel.Valid;
      if !e.isPen && !armed {
        return false;
      }
      if awaitInk && e.isPen {
        var overDock := EventLikelyOverDock(e, env);
        if anchor.None? && overDock {
          return true;
        }
        if Motionish(e.kind) && anchor.Some? {
          var at := PointFor(e, env);
          if at.None? || DistSq(at.value, anchor.value) < PEN_INK_DRAG_UNLOCK2 {
            return true;
          }
          awaitInk := false;
          anchor := None;
          stop := OnPress(e, env);
          return;
        }
      }
      var implicit := MotionShouldImplicitPress(e, env);
      if !implicit {
        return false;
      }
      if awaitInk {
        return true;
      }
      stop := OnPress(e, env);
    }

    method OnRelease(e: Event) returns (stop: bool)
      requires Valid()
      modifies this, strokes.Repr()
      ensures Valid() && fresh(strokes.Repr() - old(strokes.Repr())) && pair == old(pair)
      ensures Outcome(View(), stop) == OverlaySpec.OnRelease(old(View()), e)
    {
      hide Strokes.StrokeModel.Valid;
      if !visible {
        return false;
      }
      if !penDown {
        if e.isPen && e.kind == Some(ProximityOut) {
          return false;
        }
        if anchor.Some? && e.isPen && ReleaseLike(e.kind) {
          anchor := None;
        }
      }
      if !e.isPen {
        if !penDown || !(ReleaseLike(e.kind) || e.kind == Some(ProximityOut)) {
          return false;
        }
      }
      CommitPenStroke();
      return true;
    }

    // ---- Capture ----

    method RepairPoint(e: Event, env: Env, raw: XY) returns (fix: Fix)
      ensures fix == Repair(View(), e, env, raw)
    {
      var p := raw;
      if !InRoot(env, p) && env.pointer.Some? && InRoot(env, env.pointer.value) {
        p := env.pointer.value;
      }
      var coerced := false;
      if penDown && raw == XY(0.0, 0.0) && lastGood.Some? && !KeyOrScroll(e.kind) {
        p := lastGood.value;
        coerced := true;
      }
      var stream := penDown && (coerced || e.kind.None? || Motionish(e.kind));
      if !InRoot(env, p) && stream {
        p := Clamped(env, p);
      }
      if !InRoot(env, p) && stream && lastGood.Some? {
        p := lastGood.value;
      }
      return Fix(p, coerced);
    }

    method SettlePoint(e: Event, env: Env, raw: XY, p: XY) returns (at: XY)
      ensures at == Settle(codes, View(), e, env, raw, p)
    {
      at := p;
      if penDown && e.isPen && lastGood.Some? && TabletDockRawDisagreesWithPointer(env, raw) {
        at := lastGood.value;
        if !InRoot(env, at) {
          at := Clamped(env, at);
        }
      }
      if penDown && e.isPen && e.kind == Some(codes.seventeen) && lastGood.Some? {
        if DistSq(at, lastGood.value) > GHOST_JUMP2 {
          at := lastGood.value;
          if !InRoot(env, at) {
            at := Clamped(env, at);
          }
        }
      }
    }

    method DispatchPress(e: Event, env: Env, at: XY) returns (stop: bool)
      requires Valid() && pair.None?
      modifies this, strokes.Repr()
      ensures Valid() && fresh(strokes.Repr() - old(strokes.Repr())) && pair.None?
      ensures Outcome(View(), stop) == OverlaySpec.OnPress(codes, old(View()), e, env, Some(at))
    {
      hide Strokes.StrokeModel.Valid;
      pair := Some(at);
      stop := OnPress(e, env);
      pair := None;
    }

    method DispatchMotion(e: Event, env: Env, at: XY) returns (stop: bool)
      requires Valid() && pair.None?
      modifies this, strokes.Repr()
      ensures Valid() && fresh(strokes.Repr() - old(strokes.Repr())) && pair.None?
      ensures Outcome(View(), stop) == OverlaySpec.OnMotion(codes, old(View()), e, env, Some(at))
    {
      hide Strokes.StrokeModel.Valid;
      pair := Some(at);
      stop := OnMotion(e, env);
      pair := None;
    }

    method DispatchForward(e: Event, env: Env, at: XY)
      requires Valid() && pair.None?
      modifies this, strokes.Repr()
      ensures Valid() && fresh(strokes.Repr() - old(strokes.Repr())) && pair.None?
      ensures View() == ForwardSwatch(old(View()), e, env, Some(at)).s
    {
      hide Strokes.StrokeModel.Valid;
      pair := Some(at);
      var _ := ForwardPenDockIfSwatchHit(e, env);
      pair := None;
    }

    method OnProximityOut(e: Event) returns (stop: bool)
      requires Valid() && pair.None?
      modifies this, strokes.Repr()
      ensures Valid() && fresh(strokes.Repr() - old(strokes.Repr())) && pair.None?
      ensures Outcome(View(), stop) ==
        OverlaySpec.OnRelease(if e.isPen then old(View()).(await := true, anchor := None) else old(View()), e)
    {
      hide Strokes.StrokeModel.Valid;
      if e.isPen {
        awaitInk := true;
        anchor := None;
      }
      stop := OnRelease(e);
    }

    /** The last part of _onPenStageCaptured. */
    method DispatchKinded(e: Event, env: Env, at: XY, t: Kind) returns (stop: bool)
      requires Valid() && pair.None?
      modifies this, strokes.Repr()
      ensures Valid() && fresh(strokes.Repr() - old(strokes.Repr())) && pair.None?
      ensures Outcome(View(), stop) == Dispatch(codes, old(View()), e, env, at, t)
    {
      hide Strokes.StrokeModel.Valid;
      if Discrete(codes, Some(t)) {
        stop := DispatchPress(e, env, at);
      } else if Motionish(Some(t)) {
        stop := DispatchMotion(e, env, at);
      } else if ReleaseLike(Some(t)) {
        stop := OnRelease(e);
      } else if t == ProximityOut {
        stop := OnProximityOut(e);
      } else if t == ProximityIn {
        armed := true;
        armedAt := env.now;
        if InRoot(env, at) && !awaitInk {
          var _ := DispatchMotion(e, env, at);
        }
        stop := true;
      } else if t == Enter {
        if e.isPen {
          armed := true;
          armedAt := env.now;
          return true;
        }
        return penDown;
      } else if penDown && InRoot(env, at) && !KeyOrScroll(e.kind) && t != Leave {
        stop := DispatchMotion(e, env, at);
      } else {
        stop := penDown;
      }
    }

    /** The middle part. */
    method DeliverCaptured(e: Event, env: Env, raw: XY, at: XY, coerced: bool) returns (stop: bool)
      requires Valid() && pair.None?
      modifies this, strokes.Repr()
      ensures Valid() && fresh(strokes.Repr() - old(strokes.Repr())) && pair.None?
      ensures Outcome(View(), stop) == Deliver(codes, old(View()), e, env, raw, at, coerced)
    {
      hide Strokes.StrokeModel.Valid;
      if !penDown && InRoot(env, at) && e.isPen && PointerOnDockWhileTabletMisses(env, raw) {
        if Discrete(codes, e.kind) {
          DispatchForward(e, env, env.pointer.value);
        }
        return true;
      }
      if InRoot(env, at) && DockHit(env, at, 4.0) && !(penDown && TabletDockRawDisagreesWithPointer(env, raw)) {
        if !penDown {
          DispatchForward(e, env, at);
        } else {
          CommitPenStroke();
        }
        return true;
      }
      if penDown && e.isPen && InRoot(env, at) && env.pointer.Some? && InRoot(env, env.pointer.value)
         && DockHit(env, env.pointer.value, 4.0) && !DockHit(env, at, 4.0) {
        CommitPenStroke();
        return true;
      }
      if e.kind.None? {
        var accepts := CaptureAcceptsEvent(e, env);
        if !accepts {
          return penDown;
        }
      }
      stop := DispatchKinded(e, env, at, DispatchKind(codes, e, coerced));
    }

    method OnPenStageCaptured(e: Event, env: Env) returns (stop: bool)
      requires Valid() && pair.None?
      modifies this, strokes.Repr()
      ensures Valid() && fresh(strokes.Repr() - old(strokes.Repr())) && pair.None?
      ensures Outcome(View(), stop) == Captured(codes, old(View()), e, env)
    {
      hide Strokes.StrokeModel.Valid;
      hide Deliver, Repair, Settle, Accepts, StageCoords;
      if !visible {
        return false;
      }
      var accepts := CaptureAcceptsEvent(e, env);
      if !accepts {
        return false;
      }
      if e.id in handled {
        return true;
      }
      handled := handled + {e.id};
      var raw := StageCoordsFromEvent(e, env);
      if raw.None? {
        return penDown;
      }
      var fix := RepairPoint(e, env, raw.value);
      if !InRoot(env, fix.at) && !EntersByPen(e) {
        return penDown;
      }
      var at := SettlePoint(e, env, raw.value, fix.at);
      stop := DeliverCaptured(e, env, raw.value, at, fix.coerced);
    }

    method Toggle()
      requires Valid()
      modifies this, strokes.Repr()
      ensures Valid() && fresh(strokes.Repr() - old(strokes.Repr())) && pair == old(pair)
      ensures View() == OverlaySpec.Toggle(old(View()))
    {
      hide Strokes.StrokeModel.Valid;
      visible := !visible;
      awaitInk := true;
      anchor := None;
      if !visible {
        penDown := false;
        lastGood := None;
        armed := false;
        armedAt := 0;
        EndAll();
      }
    }

    method EndAll()
      requires Valid()
      modifies this, strokes.Repr()
      ensures Valid() && fresh(strokes.Repr() - old(strokes.Repr())) && pair == old(pair)
      ensures View() == Call(Call(old(View()), OpCommitCurrent), OpFinishErase)
    {
      hide Strokes.StrokeModel.Valid;
      EndStroke();
      EndErase();
    }
  }
}
