/** Applications and the application system as objects. */
module AppLifecycle {
  import opened AppLifecycleLaws
  import opened AppLifecycleSpec
  import opened Options

  class ShellAppSystem {
    var runningApps: set<ShellApp>

    constructor ()
      ensures runningApps == {}
    {
      runningApps := {};
    }

    /** _shell_app_system_notify_app_state_changed: if the table was right about all other applications, and does not
        list one that only starts, it is right about all of them again. */
    method NotifyAppStateChanged(app: ShellApp, ghost apps: set<ShellApp>)
      modifies this`runningApps
      ensures old(ListsRunning(this, apps - {app})) && (app.state == Starting ==> app !in old(runningApps)) ==>
        ListsRunning(this, apps + {app})
      ensures runningApps - {app} == old(runningApps) - {app}
      ensures app.state == Starting ==> (app in runningApps <==> app in old(runningApps))
      ensures app.state != Starting ==> (app in runningApps <==> app.state == Running)
    {
      match app.state
      case Running => runningApps := runningApps + {app};
      case Starting =>
      case Stopped => runningApps := runningApps - {app};
    }
  }

  class RunningState {
    var windows: seq<nat>
    var interestingWindows: int
    var windowSortStale: bool

    constructor ()
      ensures windows == [] && interestingWindows == 0 && !windowSortStale
    {
      windows, interestingWindows, windowSortStale := [], 0, false;
    }
  }

  class ShellApp {
    const system: ShellAppSystem
    var state: AppState
    var runningState: RunningState?

    /** The application as a value. */
    function View(): App
      reads this, runningState, system
    {
      App(state,
          if runningState == null then None
          else Some(RunningData(runningState.windows, runningState.interestingWindows, runningState.windowSortStale)),
          this in system.runningApps)
    }

    /** What changes this application changes nothing about the others. */
    twostate predicate OthersKept()
      reads system
    {
      system.runningApps - {this} == old(system.runningApps) - {this}
    }

    constructor (system: ShellAppSystem)
      ensures this.system == system && View() == NEW
    {
      this.system := system;
      state := Stopped;
      runningState := null;
      new;
      assert this !in system.runningApps;
    }

    /** shell_app_state_transition. */
    method Transition(to: AppState)
      modifies this`state, system
      ensures View() == AppLifecycleSpec.Transition(old(View()), to) && OthersKept()
      ensures runningState == old(runningState)
    {
      if state == to || (state == Running && to == Starting) {
        return;
      }
      state := to;
      system.NotifyAppStateChanged(this, {});
    }

    /** shell_app_sync_running_state. */
    method SyncRunningState()
      requires runningState != null
      modifies this`state, system
      ensures View() == Sync(old(View())) && OthersKept() && runningState == old(runningState)
    {
      if state != Starting {
        if runningState.interestingWindows == 0 {
          Transition(Stopped);
        } else {
          Transition(Running);
        }
      }
    }

    /** _shell_app_add_window. */
    method AddWindow(s: Screen, w: nat)
      modifies this, runningState, system
      ensures View() == AppLifecycleSpec.AddWindow(old(View()), s, w) && OthersKept()
      ensures runningState == old(runningState) || fresh(runningState)
    {
      if runningState != null && w in runningState.windows {
        return;
      }
      if runningState == null {
        runningState := new RunningState();
      }
      runningState.windowSortStale := true;
      runningState.windows := [w] + runningState.windows;
      if w in s.wins && !s.wins[w].skipTaskbar {
        runningState.interestingWindows := runningState.interestingWindows + 1;
      }
      SyncRunningState();
    }

    /** _shell_app_remove_window. */
    method RemoveWindow(s: Screen, w: nat)
      requires runningState != null
      modifies this, runningState, system
      ensures View() == AppLifecycleSpec.RemoveWindow(old(View()), s, w) && OthersKept()
      ensures runningState == old(runningState) || runningState == null
    {
      if w !in runningState.windows {
        return;
      }
      runningState.windows := Without(runningState.windows, w);
      if w in s.wins && !s.wins[w].skipTaskbar {
        runningState.interestingWindows := runningState.interestingWindows - 1;
      }
      SyncRunningState();
      if runningState.windows == [] {
        runningState := null;
      }
    }

    /** shell_app_on_skip_taskbar_changed. */
    method OnSkipTaskbarChanged(s: Screen, w: nat)
      requires runningState != null && w in s.wins
      modifies this`state, runningState, system
      ensures View() == AppLifecycleSpec.OnSkipTaskbarChanged(old(View()), s, w) && OthersKept()
      ensures runningState == old(runningState)
    {
      if s.wins[w].skipTaskbar {
        runningState.interestingWindows := runningState.interestingWindows - 1;
      } else {
        runningState.interestingWindows := runningState.interestingWindows + 1;
      }
      SyncRunningState();
    }

    /** shell_app_on_user_time_changed. */
    method OnUserTimeChanged(w: nat)
      requires runningState != null && runningState.windows != []
      modifies runningState
      ensures View() == AppLifecycleSpec.OnUserTimeChanged(old(View()), w)
    {
      if w != runningState.windows[0] {
        runningState.windowSortStale := true;
      }
    }

    /** shell_app_on_ws_switch. */
    method OnWorkspaceSwitch()
      requires runningState != null
      modifies runningState
      ensures View() == AppLifecycleSpec.OnWorkspaceSwitch(old(View()))
    {
      runningState.windowSortStale := true;
    }

    /** _shell_app_handle_startup_sequence. */
    method HandleStartupSequence(completed: bool)
      modifies this`state, system
      ensures View() == AppLifecycleSpec.HandleStartupSequence(old(View()), completed) && OthersKept()
      ensures runningState == old(runningState)
    {
      if !completed && state == Stopped {
        Transition(Starting);
      }
      if !completed {
      } else if runningState != null && runningState.windows != [] {
        Transition(Running);
      } else {
        Transition(Stopped);
      }
    }

    /** shell_app_get_windows. */
    method GetWindows(s: Screen) returns (windows: seq<nat>)
      modifies runningState
      ensures View() == Resorted(old(View()), s)
      ensures windows == if runningState == null then [] else Ordinary(s, runningState.windows)
    {
      if runningState == null {
        return [];
      }
      if runningState.windowSortStale {
        runningState.windows := Sort(s, runningState.windows);
        runningState.windowSortStale := false;
      }
      windows := KeepOrdinary(s, runningState.windows);
    }
  }

  method KeepOrdinary(s: Screen, all: seq<nat>) returns (windows: seq<nat>)
    ensures windows == Ordinary(s, all)
  {
    windows := [];
    for i := 0 to |all|
      invariant Reversed(windows) == Ordinary(s, all[..i])
    {
      assert all[..i + 1] == all[..i] + [all[i]];
      OrdinaryAppend(s, all[..i], all[i]);
      if !(all[i] in s.wins && s.wins[all[i]].overrideRedirect) {
        windows := [all[i]] + windows;
      }
    }
    assert all[..|all|] == all;
    windows := Reversed(windows);
  }

  lemma {:induction false} OrdinaryAppend(s: Screen, ws: seq<nat>, w: nat)
    ensures Ordinary(s, ws + [w]) == Ordinary(s, ws) + if w in s.wins && s.wins[w].overrideRedirect then [] else [w]
  {
    if ws == [] {
      assert ws + [w] == [w];
    } else {
      assert (ws + [w])[1..] == ws[1..] + [w];
      OrdinaryAppend(s, ws[1..], w);
    }
  }

  /** g_slist_reverse. */
  function Reversed(ws: seq<nat>): seq<nat> {
    if ws == [] then [] else Reversed(ws[1..]) + [ws[0]]
  }

  /** The table holds exactly the running ones of these applications. */
  ghost predicate ListsRunning(system: ShellAppSystem, apps: set<ShellApp>)
    reads system, apps
  {
    forall a :: a in apps ==> (a in system.runningApps <==> a.state == Running)
  }

  /** When one application changed and is as every run keeps it, the table is right for all of them again. */
  twostate lemma OneChanged(system: ShellAppSystem, apps: set<ShellApp>, changed: ShellApp, s: Screen)
    requires old(ListsRunning(system, apps)) && changed in apps && changed.system == system
    requires changed.OthersKept() && Inv(changed.View(), s)
    requires forall a :: a in apps && a != changed ==> a.state == old(a.state)
    ensures ListsRunning(system, apps)
  {
    forall a | a in apps ensures a in system.runningApps <==> a.state == Running {
      if a != changed {
        assert a in system.runningApps <==> a in system.runningApps - {changed};
        assert a in old(system.runningApps) <==> a in old(system.runningApps) - {changed};
      }
    }
  }
}
