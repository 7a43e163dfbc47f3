/** The lifecycle of an application and its lazily sorted windows, as a state machine on values. */
module AppLifecycleSpec {
  import opened Options
  import opened SnocLists

  const U32 := 0x1_0000_0000
  const HALF := 0x8000_0000

  /** What the shell asks of a window. User times are 32 bits wide. */
  datatype Win = Win(workspace: int, showing: bool, userTime: nat, skipTaskbar: bool, overrideRedirect: bool)

  /** The windows of the display and its active workspace. */
  datatype Screen = Screen(active: int, wins: map<nat, Win>)

  datatype AppState = Stopped | Starting | Running

  datatype RunningData = RunningData(windows: seq<nat>, interesting: int, sortStale: bool)

  /** Listed: the application is in the running_apps table of the application system. */
  datatype App = App(state: AppState, running: Option<RunningData>, listed: bool)

  const NEW := App(Stopped, None, false)

  // ---- Order of windows ----

  /** A 32-bit difference returned as a signed number. */
  function Signed32(d: int): int {
    var low := d % U32;
    if low >= HALF then low - U32 else low
  }

  /** shell_app_compare_windows. */
  function Compare(active: int, a: Win, b: Win): int {
    if a.workspace == active && b.workspace != active then -1
    else if a.workspace != active && b.workspace == active then 1
    else if a.showing && !b.showing then -1
    else if !a.showing && b.showing then 1
    else Signed32(b.userTime - a.userTime)
  }

  predicate InOrder(s: Screen, a: nat, b: nat) {
    a in s.wins && b in s.wins && Compare(s.active, s.wins[a], s.wins[b]) <= 0
  }

  ghost predicate Sorted(s: Screen, ws: seq<nat>) {
    forall i, j :: 0 <= i < j < |ws| ==> InOrder(s, ws[i], ws[j])
  }

  /** The user times of these windows span less than half the range of the clock. */
  ghost predicate Timely(s: Screen, ws: seq<nat>) {
    forall a, b :: a in ws && b in ws && a in s.wins && b in s.wins ==> s.wins[a].userTime - s.wins[b].userTime < HALF
  }

  /** Where a stable sort puts one more element that comes before all of these. */
  function InsertFirst(s: Screen, w: nat, ws: seq<nat>): seq<nat> {
    if ws == [] || InOrder(s, w, ws[0]) then [w] + ws else [ws[0]] + InsertFirst(s, w, ws[1..])
  }

  /** g_slist_sort_with_data: a stable sort. */
  function Sort(s: Screen, ws: seq<nat>): seq<nat> {
    if ws == [] then [] else InsertFirst(s, ws[0], Sort(s, ws[1..]))
  }

  // ---- The steps ----

  function Interest(s: Screen, w: nat): nat {
    if w in s.wins && !s.wins[w].skipTaskbar then 1 else 0
  }

  function CountInteresting(s: Screen, ws: seq<nat>): nat {
    if ws == [] then 0 else Interest(s, ws[0]) + CountInteresting(s, ws[1..])
  }

  /** shell_app_state_transition, with the table of running applications kept by its notification. A transition
      from RUNNING to STARTING is refused. */
  function Transition(app: App, state: AppState): App {
    if app.state == state || (app.state == Running && state == Starting) then app
    else app.(state := state, listed := if state == Running then true else if state == Stopped then false else app.listed)
  }

  /** shell_app_sync_running_state. */
  function Sync(app: App): App
    requires app.running.Some?
  {
    if app.state == Starting then app
    else Transition(app, if app.running.value.interesting == 0 then Stopped else Running)
  }

  /** _shell_app_add_window. */
  function AddWindow(app: App, s: Screen, w: nat): App {
    if app.running.Some? && w in app.running.value.windows then app
    else
      var r := if app.running.Some? then app.running.value else RunningData([], 0, false);
      Sync(app.(running := Some(RunningData([w] + r.windows, r.interesting + Interest(s, w), true))))
  }

  function Without(ws: seq<nat>, w: nat): seq<nat> {
    if ws == [] then [] else if ws[0] == w then ws[1..] else [ws[0]] + Without(ws[1..], w)
  }

  /** _shell_app_remove_window. */
  function RemoveWindow(app: App, s: Screen, w: nat): App
    requires app.running.Some?
  {
    var r := app.running.value;
    if w !in r.windows then app
    else
      var rest := Without(r.windows, w);
      var synced := Sync(app.(running := Some(RunningData(rest, r.interesting - Interest(s, w), r.sortStale))));
      if rest == [] then synced.(running := None) else synced
  }

  /** shell_app_on_skip_taskbar_changed, in the state of the display after the change. */
  function OnSkipTaskbarChanged(app: App, s: Screen, w: nat): App
    requires app.running.Some?
  {
    var r := app.running.value;
    var skips := w in s.wins && s.wins[w].skipTaskbar;
    Sync(app.(running := Some(r.(interesting := if skips then r.interesting - 1 else r.interesting + 1))))
  }

  /** shell_app_on_user_time_changed. */
  function OnUserTimeChanged(app: App, w: nat): App
    requires app.running.Some? && app.running.value.windows != []
  {
    if w != app.running.value.windows[0] then app.(running := Some(app.running.value.(sortStale := true))) else app
  }

  /** shell_app_on_ws_switch, connected while the application has windows. */
  function OnWorkspaceSwitch(app: App): App {
    if app.running.None? then app else app.(running := Some(app.running.value.(sortStale := true)))
  }

  /** _shell_app_handle_startup_sequence. */
  function HandleStartupSequence(app: App, completed: bool): App {
    if !completed then (if app.state == Stopped then Transition(app, Starting) else app)
    else if app.running.Some? && app.running.value.windows != [] then Transition(app, Running)
    else Transition(app, Stopped)
  }

  /** shell_app_get_windows: what it leaves behind. */
  function Resorted(app: App, s: Screen): App {
    if app.running.Some? && app.running.value.sortStale then
      app.(running := Some(app.running.value.(windows := Sort(s, app.running.value.windows), sortStale := false)))
    else app
  }

  function Ordinary(s: Screen, ws: seq<nat>): seq<nat> {
    if ws == [] then []
    else
      var rest := Ordinary(s, ws[1..]);
      if ws[0] in s.wins && s.wins[ws[0]].overrideRedirect then rest else [ws[0]] + rest
  }

  // ---- Runs ----

  datatype Input =
    | Added(w: nat)
    | Removed(w: nat)
    | SkipTaskbarChanged(w: nat)
    | UserTimeChanged(w: nat, time: nat)
    | WorkspaceSwitched(to: int)
    | Startup(completed: bool)
    | WindowsAsked
    | Elsewhere(w: nat, win: Win)    // a window the application does not have changes, or is new
    | ShowingChanged(w: nat)         // a window is minimised or shown again
    | Relocated(w: nat, to: int)     // a window is moved to another workspace

  datatype Moment = Moment(app: App, screen: Screen)

  /** The display after the change that an input tells of. */
  function After(s: Screen, input: Input): Screen {
    match input
    case SkipTaskbarChanged(w) =>
      if w in s.wins then s.(wins := s.wins[w := s.wins[w].(skipTaskbar := !s.wins[w].skipTaskbar)]) else s
    case UserTimeChanged(w, time) => if w in s.wins then s.(wins := s.wins[w := s.wins[w].(userTime := time)]) else s
    case WorkspaceSwitched(to) => s.(active := to)
    case Elsewhere(w, win) => s.(wins := s.wins[w := win])
    case ShowingChanged(w) =>
      if w in s.wins then s.(wins := s.wins[w := s.wins[w].(showing := !s.wins[w].showing)]) else s
    case Relocated(w, to) => if w in s.wins then s.(wins := s.wins[w := s.wins[w].(workspace := to)]) else s
    case _ => s
  }

  predicate Has(app: App, w: nat) {
    app.running.Some? && w in app.running.value.windows
  }

  /** The input can happen: windows are connected only while the application has them, are removed only from an
      application with windows, and exist when they are added. */
  predicate Enabled(m: Moment, input: Input) {
    match input
    case Added(w) => w in m.screen.wins
    case Removed(w) => m.app.running.Some?
    case SkipTaskbarChanged(w) => Has(m.app, w)
    case UserTimeChanged(w, time) => Has(m.app, w) && time < U32
    case Elsewhere(w, _) => !Has(m.app, w)
    case ShowingChanged(w) => Has(m.app, w)
    case Relocated(w, _) => Has(m.app, w)
    case _ => true
  }

  function Step(m: Moment, input: Input): Moment
    requires Enabled(m, input)
  {
    var s := After(m.screen, input);
    Moment(
      match input
      case Added(w) => AddWindow(m.app, s, w)
      case Removed(w) => RemoveWindow(m.app, s, w)
      case SkipTaskbarChanged(w) => OnSkipTaskbarChanged(m.app, s, w)
      case UserTimeChanged(w, _) => OnUserTimeChanged(m.app, w)
      case WorkspaceSwitched(_) => OnWorkspaceSwitch(m.app)
      case Startup(completed) => HandleStartupSequence(m.app, completed)
      case WindowsAsked => Resorted(m.app, s)
      case Elsewhere(_, _) => m.app
      case ShowingChanged(_) => m.app
      case Relocated(_, _) => m.app,
      s)
  }

  // ---- What every run keeps ----

  ghost predicate Distinct(ws: seq<nat>) {
    forall i, j :: 0 <= i < j < |ws| ==> ws[i] != ws[j]
  }

  ghost predicate RunningValid(s: Screen, r: RunningData) {
    && r.windows != [] && Distinct(r.windows) && (forall i :: 0 <= i < |r.windows| ==> r.windows[i] in s.wins)
    && r.interesting == CountInteresting(s, r.windows)
  }

  ghost predicate Inv(app: App, s: Screen) {
    && (app.running.Some? ==> RunningValid(s, app.running.value))
    && (app.state == Stopped && app.running.Some? ==> app.running.value.interesting == 0)
    && (app.state == Running ==> app.running.Some?)
    && (app.listed <==> app.state == Running)
  }

  ghost predicate CacheInv(app: App, s: Screen) {
    app.running.Some? && !app.running.value.sortStale ==> Sorted(s, app.running.value.windows)
  }
}
