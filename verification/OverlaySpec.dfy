/** The pen capture of the overlay session as a state machine on values. */
module OverlaySpec {
  import opened Options
  import opened SnocLists
  import opened StrokeModelSpec
  import opened StrokeSpec

  const PEN_INK_DRAG_UNLOCK2: real := 64.0
  const TABLET_DOCK_COORD_SLACK2: real := 6400.0
  const GHOST_JUMP2: real := 7225.0
  const IMPLICIT_PRESSURE_START: real := 0.015
  const FRESH_MS := 900
  const CLAMP_INSET: real := 0.0001
  const FIRST_COLOR: seq<real> := [0.1, 0.1, 0.1, 1.0]

  datatype XY = XY(x: real, y: real)

  datatype Rect = Rect(x: real, y: real, w: real, h: real)

  /** Kinds of Clutter event. Different enumerators have different codes; a code without a name is Other. */
  datatype Kind =
    | Motion | TouchUpdate | ButtonPress | TouchBegin | ButtonRelease | TouchEnd | TouchCancel
    | ProximityIn | ProximityOut | Enter | Leave | KeyPress | KeyRelease
    | Scroll | ScrollStop | TouchpadPinch | TouchpadSwipe | Other(code: int)

  /** Which kinds have the numeric codes 16 and 17. */
  datatype Codes = Codes(sixteen: Kind, seventeen: Kind)

  datatype Mode = Draw | Erase | NoMode

  datatype Device = NoDevice | TabletLike | CorePointer | OtherDevice

  /** What the handlers can learn of an event. The kind is None when it cannot be read. */
  datatype Event = Event(
    id: int,
    kind: Option<Kind>,
    isPen: bool,
    coords: Option<XY>,
    hasPressure: bool,
    pressure: real,
    hasTool: bool,
    device: Device,
    mode: Mode)

  datatype Swatch = Swatch(visible: bool, box: Rect, rgba: seq<real>)

  datatype Window = Window(minimized: bool, frame: Rect, stableSeq: int)

  /** The surroundings at the moment of an event. */
  datatype Env = Env(
    root: Rect,
    pointer: Option<XY>,
    palette: Rect,
    dockVisible: bool,
    dock: Rect,
    swatches: seq<Swatch>,
    clear: Swatch,
    windows: seq<Window>,
    now: int)

  datatype Session = Session(
    visible: bool,
    penDown: bool,
    armed: bool,
    armedAt: int,
    await: bool,
    anchor: Option<XY>,
    lastGood: Option<XY>,
    handled: set<int>,
    model: Model,
    calls: List<Op>)

  /** A handler's effect and what it returns: stop or propagate. */
  datatype Outcome = Outcome(s: Session, stop: bool)

  // ---- Geometry ----

  function DistSq(p: XY, q: XY): real {
    Sq(p.x - q.x) + Sq(p.y - q.y)
  }

  function Max(a: real, b: real): real {
    if a < b then b else a
  }

  function Min(a: real, b: real): real {
    if a < b then a else b
  }

  predicate InRoot(env: Env, p: XY) {
    0.0 <= p.x - env.root.x < env.root.w && 0.0 <= p.y - env.root.y < env.root.h
  }

  function Clamped(env: Env, p: XY): XY {
    XY(Min(Max(p.x, env.root.x), env.root.x + Max(1.0, env.root.w) - CLAMP_INSET),
       Min(Max(p.y, env.root.y), env.root.y + Max(1.0, env.root.h) - CLAMP_INSET))
  }

  predicate InPalette(env: Env, p: XY) {
    var lx, ly := p.x - env.root.x, p.y - env.root.y;
    && env.palette.x <= lx < env.palette.x + env.palette.w
    && env.palette.y <= ly < env.palette.y + env.palette.h
  }

  predicate HitsBox(box: Rect, p: XY, pad: real) {
    && box.x - pad <= p.x < box.x + Max(1.0, box.w) + pad
    && box.y - pad <= p.y < box.y + Max(1.0, box.h) + pad
  }

  predicate DockHit(env: Env, p: XY, pad: real) {
    InPalette(env, p) || (env.dockVisible && HitsBox(env.dock, p, pad))
  }

  /** The topmost window under a point: the last of the first n that holds it. */
  function WindowSeq(env: Env, p: XY, n: nat): int
    requires n <= |env.windows|
  {
    if n == 0 then -1
    else
      var w := env.windows[n - 1];
      if !w.minimized && w.frame.x <= p.x < w.frame.x + w.frame.w && w.frame.y <= p.y < w.frame.y + w.frame.h
      then w.stableSeq
      else WindowSeq(env, p, n - 1)
  }

  // ---- Events ----

  predicate Motionish(kind: Option<Kind>) {
    kind == Some(Motion) || kind == Some(TouchUpdate)
  }

  predicate ReleaseLike(kind: Option<Kind>) {
    kind == Some(ButtonRelease) || kind == Some(TouchEnd) || kind == Some(TouchCancel)
  }

  predicate Discrete(c: Codes, kind: Option<Kind>) {
    kind == Some(ButtonPress) || kind == Some(TouchBegin) || kind == Some(c.sixteen)
  }

  predicate KeyOrScroll(kind: Option<Kind>) {
    && kind.Some?
    && (kind.value.KeyPress? || kind.value.KeyRelease? || kind.value.Scroll? || kind.value.ScrollStop?
        || kind.value.TouchpadPinch? || kind.value.TouchpadSwipe?)
  }

  /** _stageCoordsFromEvent. */
  function StageCoords(s: Session, e: Event, env: Env): Option<XY> {
    var strokePointer := s.penDown && Motionish(e.kind);
    var bad := e.coords.None? || (e.isPen && e.coords.value == XY(0.0, 0.0));
    if bad && (e.isPen || strokePointer) && env.pointer.Some? then env.pointer
    else if strokePointer && e.coords.Some? && !InRoot(env, e.coords.value)
            && env.pointer.Some? && InRoot(env, env.pointer.value) then env.pointer
    else e.coords
  }

  predicate TabletDockRawDisagreesWithPointer(env: Env, p: XY) {
    && DockHit(env, p, 4.0)
    && env.pointer.Some? && InRoot(env, env.pointer.value) && !DockHit(env, env.pointer.value, 4.0)
    && DistSq(p, env.pointer.value) > TABLET_DOCK_COORD_SLACK2
  }

  predicate PointerOnDockWhileTabletMisses(env: Env, p: XY) {
    && env.pointer.Some? && InRoot(env, env.pointer.value) && DockHit(env, env.pointer.value, 28.0)
    && !DockHit(env, p, 12.0)
    && DistSq(p, env.pointer.value) > TABLET_DOCK_COORD_SLACK2
  }

  predicate LikelyOverDock(s: Session, e: Event, env: Env) {
    var xy := StageCoords(s, e, env);
    || (xy.Some? && DockHit(env, xy.value, 28.0))
    || (env.pointer.Some? && DockHit(env, env.pointer.value, 28.0))
  }

  predicate Fresh(s: Session, env: Env) {
    s.armed && s.armedAt > 0 && env.now - s.armedAt < FRESH_MS
  }

  predicate ImplicitPress(s: Session, e: Event, env: Env) {
    if e.kind == Some(ProximityIn) && e.isPen then
      var xy := StageCoords(s, e, env);
      && !(xy.Some? && InPalette(env, xy.value))
      && (if e.hasPressure then e.pressure > IMPLICIT_PRESSURE_START else e.hasTool)
    else if !Motionish(e.kind) then false
    else if e.hasPressure then e.pressure > IMPLICIT_PRESSURE_START
    else
      || (e.device == TabletLike && (Fresh(s, env) || e.hasTool))
      || (Fresh(s, env) && e.device == CorePointer)
  }

  predicate DeferredInkAwaitingMotion(s: Session) {
    s.await && s.anchor.Some?
  }

  predicate Accepts(s: Session, e: Event, env: Env) {
    var overDock := !s.penDown && !DeferredInkAwaitingMotion(s) && LikelyOverDock(s, e, env);
    && !overDock
    && (e.isPen
        || (Motionish(e.kind) && Fresh(s, env))
        || (s.penDown && e.kind.Some? && !e.kind.value.KeyPress? && !e.kind.value.KeyRelease?))
  }

  // ---- Calls into the stroke model ----

  function Call(s: Session, op: Op): Session {
    s.(model := Apply(s.model, op), calls := Snoc(s.calls, op))
  }

  /** _commitPenStrokeFromCapture. */
  function Commit(s: Session): Session {
    if !s.penDown then s
    else Call(s, if s.model.eraser.Some? then OpFinishErase else OpCommitCurrent).(lastGood := None, penDown := false)
  }

  // ---- Swatches ----

  function SwatchAt(env: Env, p: XY, n: nat): Option<seq<real>>
    requires n <= |env.swatches|
  {
    if n == 0 then None
    else
      var before := SwatchAt(env, p, n - 1);
      if before.Some? then before
      else if env.swatches[n - 1].visible && HitsBox(env.swatches[n - 1].box, p, 6.0) then Some(env.swatches[n - 1].rgba)
      else None
  }

  /** What a tap at a point triggers: the first swatch there, or else the clear button. */
  function TapAt(env: Env, p: XY): Option<Op> {
    if !InRoot(env, p) then None
    else
      var rgba := SwatchAt(env, p, |env.swatches|);
      if rgba.Some? then Some(OpSetPenColor(rgba.value))
      else if env.clear.visible && HitsBox(env.clear.box, p, 6.0) then Some(OpClearAll)
      else None
  }

  function FirstTap(env: Env, points: seq<XY>, n: nat): Option<Op>
    requires n <= |points|
  {
    if n == 0 then None
    else
      var before := FirstTap(env, points, n - 1);
      if before.Some? then before else TapAt(env, points[n - 1])
  }

  function AsSeq(p: Option<XY>): seq<XY> {
    if p.Some? then [p.value] else []
  }

  function TapPoints(s: Session, e: Event, env: Env, pair: Option<XY>): seq<XY> {
    (if e.isPen then AsSeq(env.pointer) else []) + AsSeq(pair) + AsSeq(StageCoords(s, e, env))
    + (if e.isPen then [] else AsSeq(env.pointer))
  }

  /** _forwardPenDockIfSwatchHit: pair is the point the capture handler dispatches with, if it does. */
  function ForwardSwatch(s: Session, e: Event, env: Env, pair: Option<XY>): Outcome {
    if s.penDown || !env.dockVisible || Motionish(e.kind) then Outcome(s, false)
    else
      var points := TapPoints(s, e, env, pair);
      var tap := FirstTap(env, points, |points|);
      if tap.Some? then Outcome(Call(s, tap.value), true) else Outcome(s, false)
  }

  // ---- Press, motion, release ----

  function HandlePoint(s: Session, e: Event, env: Env, pair: Option<XY>): Option<XY> {
    if pair.Some? then pair else StageCoords(s, e, env)
  }

  /** _localFromEvent; the canvas lies at the origin of the root. */
  function Local(s: Session, e: Event, env: Env, pair: Option<XY>): XY {
    var p := HandlePoint(s, e, env, pair);
    if p.Some? then XY(p.value.x - env.root.x, p.value.y - env.root.y) else XY(0.0, 0.0)
  }

  function Begin(s: Session, e: Event, env: Env, pair: Option<XY>): Session {
    var at := Local(s, e, env, pair);
    var windowSeq := WindowSeq(env, XY(at.x + env.root.x, at.y + env.root.y), |env.windows|);
    (if e.mode == Erase then Call(Call(s, OpCommitCurrent), OpBeginErase(at.x, at.y, windowSeq))
     else Call(Call(s, OpFinishErase), OpBeginStroke(at.x, at.y, e.pressure, windowSeq)))
    .(penDown := true, await := false, anchor := None)
  }

  function Extend(s: Session, e: Event, env: Env, pair: Option<XY>): Session {
    var at := Local(s, e, env, pair);
    Call(s, if s.model.eraser.Some? then OpAppendErase(at.x, at.y) else OpAppendPoint(at.x, at.y, e.pressure))
    .(lastGood := if pair.Some? && InRoot(env, pair.value) then pair else s.lastGood)
  }

  function OnPress(c: Codes, s: Session, e: Event, env: Env, pair: Option<XY>): Outcome
    decreases 1
  {
    if !s.visible then Outcome(s, false)
    else if e.isPen && !s.penDown && ForwardSwatch(s, e, env, pair).stop then ForwardSwatch(s, e, env, pair)
    else if LikelyOverDock(s, e, env) then Outcome(Commit(s), false)
    else if s.penDown then OnMotion(c, s, e, env, pair)
    else if !e.isPen || e.mode == NoMode then Outcome(s, false)
    else if s.await && Discrete(c, e.kind) then
      var at := HandlePoint(s, e, env, pair);
      Outcome(if at.Some? then s.(anchor := at) else s, true)
    else Outcome(Begin(s, e, env, pair), true)
  }

  function OnMotion(c: Codes, s: Session, e: Event, env: Env, pair: Option<XY>): Outcome
    decreases if s.penDown then 0 else 2
  {
    if !s.visible then Outcome(s, false)
    else if !s.penDown then
      if !e.isPen && !s.armed then Outcome(s, false)
      else if s.await && e.isPen && !DeferredInkAwaitingMotion(s) && LikelyOverDock(s, e, env) then Outcome(s, true)
      else if s.await && e.isPen && Motionish(e.kind) && s.anchor.Some? then
        var at := HandlePoint(s, e, env, pair);
        if at.Some? && DistSq(at.value, s.anchor.value) >= PEN_INK_DRAG_UNLOCK2
        then OnPress(c, s.(await := false, anchor := None), e, env, pair)
        else Outcome(s, true)
      else if ImplicitPress(s, e, env) then
        if s.await then Outcome(s, true) else OnPress(c, s, e, env, pair)
      else Outcome(s, false)
    else if !e.isPen && pair.None? && !Motionish(e.kind) then Outcome(s, false)
    else if LikelyOverDock(s, e, env) then Outcome(Commit(s), true)
    else Outcome(Extend(s, e, env, pair), true)
  }

  function OnRelease(s: Session, e: Event): Outcome {
    if !s.visible then Outcome(s, false)
    else if !s.penDown && e.isPen && e.kind == Some(ProximityOut) then Outcome(s, false)
    else
      var s1 := if !s.penDown && s.anchor.Some? && e.isPen && ReleaseLike(e.kind) then s.(anchor := None) else s;
      if !e.isPen && (!s1.penDown || !(ReleaseLike(e.kind) || e.kind == Some(ProximityOut))) then Outcome(s1, false)
      else Outcome(Commit(s1), true)
  }

  // ---- Capture ----

  /** Where a captured event is taken to be. */
  datatype Fix = Fix(at: XY, coerced: bool)

  /** Coordinates outside the root, or stuck at 0,0 in a stroke, are repaired. */
  function Repair(s: Session, e: Event, env: Env, raw: XY): Fix {
    var p0 := if !InRoot(env, raw) && env.pointer.Some? && InRoot(env, env.pointer.value) then env.pointer.value else raw;
    var coerced := s.penDown && raw == XY(0.0, 0.0) && s.lastGood.Some? && !KeyOrScroll(e.kind);
    var p1 := if coerced then s.lastGood.value else p0;
    var stream := s.penDown && (coerced || e.kind.None? || Motionish(e.kind));
    var p2 := if !InRoot(env, p1) && stream then Clamped(env, p1) else p1;
    var p3 := if !InRoot(env, p2) && stream && s.lastGood.Some? then s.lastGood.value else p2;
    Fix(p3, coerced)
  }

  /** The last point of the stroke, moved into the root. */
  function LastGoodInRoot(s: Session, env: Env): XY
    requires s.lastGood.Some?
  {
    if InRoot(env, s.lastGood.value) then s.lastGood.value else Clamped(env, s.lastGood.value)
  }

  /** Tablet coordinates that wrongly sit on the dock, or hover far from the stroke, are replaced by the last
      point of the stroke. */
  function Settle(c: Codes, s: Session, e: Event, env: Env, raw: XY, p: XY): XY {
    var inStroke := s.penDown && e.isPen && s.lastGood.Some?;
    var p1 := if inStroke && TabletDockRawDisagreesWithPointer(env, raw) then LastGoodInRoot(s, env) else p;
    if inStroke && e.kind == Some(c.seventeen) && DistSq(p1, s.lastGood.value) > GHOST_JUMP2
    then LastGoodInRoot(s, env) else p1
  }

  predicate EntersByPen(e: Event) {
    e.isPen && (e.kind == Some(ProximityIn) || e.kind == Some(Enter))
  }

  /** The kind a captured event is dispatched as. */
  function DispatchKind(c: Codes, e: Event, coerced: bool): Kind {
    var t := if e.kind.None? then Motion else e.kind.value;
    if coerced && !Motionish(Some(t)) && !Discrete(c, Some(t)) && !ReleaseLike(Some(t)) && t != ProximityIn
       && t != ProximityOut
    then Motion else t
  }

  function Arm(s: Session, env: Env): Session {
    s.(armed := true, armedAt := env.now)
  }

  /** The last part of _onPenStageCaptured. */
  function Dispatch(c: Codes, s: Session, e: Event, env: Env, at: XY, t: Kind): Outcome {
    if Discrete(c, Some(t)) then OnPress(c, s, e, env, Some(at))
    else if Motionish(Some(t)) then OnMotion(c, s, e, env, Some(at))
    else if ReleaseLike(Some(t)) then OnRelease(s, e)
    else if t == ProximityOut then OnRelease(if e.isPen then s.(await := true, anchor := None) else s, e)
    else if t == ProximityIn then
      var s1 := Arm(s, env);
      Outcome(if InRoot(env, at) && !s.await then OnMotion(c, s1, e, env, Some(at)).s else s1, true)
    else if t == Enter then
      if e.isPen then Outcome(Arm(s, env), true) else Outcome(s, s.penDown)
    else if s.penDown && InRoot(env, at) && !KeyOrScroll(e.kind) && t != Leave then OnMotion(c, s, e, env, Some(at))
    else Outcome(s, s.penDown)
  }

  /** The middle part: the dock takes taps and ends strokes. */
  function Deliver(c: Codes, s: Session, e: Event, env: Env, raw: XY, at: XY, coerced: bool): Outcome {
    if !s.penDown && InRoot(env, at) && e.isPen && PointerOnDockWhileTabletMisses(env, raw) then
      Outcome(if Discrete(c, e.kind) then ForwardSwatch(s, e, env, env.pointer).s else s, true)
    else if InRoot(env, at) && DockHit(env, at, 4.0) && !(s.penDown && TabletDockRawDisagreesWithPointer(env, raw)) then
      Outcome(if s.penDown then Commit(s) else ForwardSwatch(s, e, env, Some(at)).s, true)
    else if s.penDown && e.isPen && InRoot(env, at) && env.pointer.Some? && InRoot(env, env.pointer.value)
            && DockHit(env, env.pointer.value, 4.0) && !DockHit(env, at, 4.0) then
      Outcome(Commit(s), true)
    else if e.kind.None? && !Accepts(s, e, env) then Outcome(s, s.penDown)
    else Dispatch(c, s, e, env, at, DispatchKind(c, e, coerced))
  }

  /** _onPenStageCaptured. */
  function Captured(c: Codes, s: Session, e: Event, env: Env): Outcome {
    if !s.visible || !Accepts(s, e, env) then Outcome(s, false)
    else if e.id in s.handled then Outcome(s, true)
    else
      var s1 := s.(handled := s.handled + {e.id});
      var raw := StageCoords(s1, e, env);
      if raw.None? then Outcome(s1, s1.penDown)
      else
        var fix := Repair(s1, e, env, raw.value);
        if !InRoot(env, fix.at) && !EntersByPen(e) then Outcome(s1, s1.penDown)
        else Deliver(c, s1, e, env, raw.value, Settle(c, s1, e, env, raw.value, fix.at), fix.coerced)
  }

  function Toggle(s: Session): Session {
    if s.visible then
      Call(Call(s, OpCommitCurrent), OpFinishErase).(
        visible := false, penDown := false, lastGood := None, armed := false, armedAt := 0, await := true,
        anchor := None)
    else s.(visible := true, await := true, anchor := None)
  }

  const INITIAL := Session(false, false, false, 0, true, None, None, {}, SetPenColor(EMPTY, FIRST_COLOR),
                           Snoc(Nil, OpSetPenColor(FIRST_COLOR)))

  // ---- Runs ----

  datatype Input =
    | StageCaptured(e: Event)
    | CanvasPress(e: Event)
    | CanvasMotion(e: Event)
    | CanvasRelease(e: Event)
    | Toggled
    | Undone
    | Cleared
    | Recolored(rgba: seq<real>)
    | ContentMoved(dx: real, dy: real)

  datatype Moment = Moment(input: Input, env: Env)

  function Step(c: Codes, s: Session, m: Moment): Session {
    match m.input
    case StageCaptured(e) => Captured(c, s, e, m.env).s
    case CanvasPress(e) => OnPress(c, s, e, m.env, None).s
    case CanvasMotion(e) => OnMotion(c, s, e, m.env, None).s
    case CanvasRelease(e) => OnRelease(s, e).s
    case Toggled => Toggle(s)
    case Undone => Call(s, OpUndoOne)
    case Cleared => Call(s, OpClearAll)
    case Recolored(rgba) => Call(s, OpSetPenColor(rgba))
    case ContentMoved(dx, dy) => Call(s, OpTranslateAll(dx, dy))
  }

  function State(c: Codes, run: List<Moment>): Session {
    match run
    case Nil => INITIAL
    case Snoc(init, m) => Step(c, State(c, init), m)
  }
}
