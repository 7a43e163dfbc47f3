/** Windows and state of an application, told from its inputs alone. */
module AppLifecycleInputLaws {
  import opened AppLifecycleLaws
  import opened AppLifecycleSpec
  import opened Options
  import opened SnocLists

  // ---- What the inputs say ----

  /** The window exists: it was there at the beginning, or something was heard of it since. */
  predicate Appeared(s: Screen, inputs: List<Input>, w: nat) {
    match inputs
    case Nil => w in s.wins
    case Snoc(init, Elsewhere(v, _)) => v == w || Appeared(s, init, w)
    case Snoc(init, _) => Appeared(s, init, w)
  }

  /** The windows that came and did not go. */
  function Members(s: Screen, inputs: List<Input>): set<nat> {
    match inputs
    case Nil => {}
    case Snoc(init, Added(w)) => if Appeared(s, init, w) then Members(s, init) + {w} else Members(s, init)
    case Snoc(init, Removed(w)) => Members(s, init) - {w}
    case Snoc(init, _) => Members(s, init)
  }

  /** The window is kept out of the taskbar. */
  predicate Skips(s: Screen, inputs: List<Input>, w: nat) {
    match inputs
    case Nil => w in s.wins && s.wins[w].skipTaskbar
    case Snoc(init, SkipTaskbarChanged(v)) => Skips(s, init, w) != (v == w && w in Members(s, init))
    case Snoc(init, Elsewhere(v, win)) =>
      if v == w && w !in Members(s, init) then win.skipTaskbar else Skips(s, init, w)
    case Snoc(init, _) => Skips(s, init, w)
  }

  predicate OnTaskbar(s: Screen, inputs: List<Input>) {
    exists w :: w in Members(s, inputs) && !Skips(s, inputs, w)
  }

  /** A window came that was not there, or went that was, or changed its place in the taskbar. */
  predicate ChangesTaskbar(s: Screen, init: List<Input>, input: Input) {
    match input
    case Added(w) => Appeared(s, init, w) && w !in Members(s, init)
    case Removed(w) => w in Members(s, init)
    case SkipTaskbarChanged(w) => w in Members(s, init)
    case _ => false
  }

  /** A starting application stays that until its startup completes; any other runs exactly when a window of it is on
      the taskbar, as of the last time that changed, or when its startup completed with windows. */
  function StateOf(s: Screen, inputs: List<Input>): AppState {
    match inputs
    case Nil => Stopped
    case Snoc(init, Startup(completed)) =>
      if completed then (if Members(s, init) != {} then Running else Stopped)
      else if StateOf(s, init) == Stopped then Starting
      else StateOf(s, init)
    case Snoc(init, input) =>
      if ChangesTaskbar(s, init, input) && StateOf(s, init) != Starting
      then (if OnTaskbar(s, inputs) then Running else Stopped)
      else StateOf(s, init)
  }

  // ---- The run does what they say ----

  ghost predicate ScreenTold(s: Screen, inputs: List<Input>) {
    var m := Run(s, inputs);
    && (forall w :: w in m.screen.wins <==> Appeared(s, inputs, w))
    && (forall w :: w in m.screen.wins ==> m.screen.wins[w].skipTaskbar == Skips(s, inputs, w))
  }

  ghost predicate WindowsTold(s: Screen, inputs: List<Input>) {
    forall w :: w in WindowsOf(Run(s, inputs).app) <==> w in Members(s, inputs)
  }

  lemma HasIffMember(s: Screen, inputs: List<Input>, w: nat)
    requires WindowsTold(s, inputs)
    ensures Has(Run(s, inputs).app, w) <==> w in Members(s, inputs)
  {
    assert w in WindowsOf(Run(s, inputs).app) <==> w in Members(s, inputs);
  }

  lemma ScreenStep(s: Screen, inputs: List<Input>)
    requires inputs.Snoc? && ScreenTold(s, inputs.init) && WindowsTold(s, inputs.init)
    ensures ScreenTold(s, inputs)
  {
    var m, input := Run(s, inputs.init), inputs.last;
    RunKeeps(s, inputs.init);
    forall w ensures w in Run(s, inputs).screen.wins <==> Appeared(s, inputs, w) {
      HasIffMember(s, inputs.init, w);
      MembersExist(m, w);
    }
    forall w | w in Run(s, inputs).screen.wins
      ensures Run(s, inputs).screen.wins[w].skipTaskbar == Skips(s, inputs, w)
    {
      HasIffMember(s, inputs.init, w);
      MembersExist(m, w);
    }
  }

  lemma MembersExist(m: Moment, w: nat)
    requires Inv(m.app, m.screen)
    ensures Has(m.app, w) ==> w in m.screen.wins
  {
  }

  lemma StepWindows(m: Moment, input: Input, w: nat)
    requires Inv(m.app, m.screen) && Enabled(m, input)
    ensures Has(Step(m, input).app, w) <==>
      match input
      case Added(v) => v == w || Has(m.app, w)
      case Removed(v) => v != w && Has(m.app, w)
      case _ => Has(m.app, w)
  {
    match input
    case Removed(v) =>
      if v in m.app.running.value.windows {
        WithoutMembers(m.app.running.value.windows, v);
      }
    case WindowsAsked =>
      if m.app.running.Some? {
        SortMembers(m.screen, m.app.running.value.windows);
      }
    case _ =>
  }

  lemma WindowsStep(s: Screen, inputs: List<Input>)
    requires inputs.Snoc? && ScreenTold(s, inputs.init) && WindowsTold(s, inputs.init)
    ensures WindowsTold(s, inputs)
  {
    var m, input := Run(s, inputs.init), inputs.last;
    RunKeeps(s, inputs.init);
    forall w ensures w in WindowsOf(Run(s, inputs).app) <==> w in Members(s, inputs) {
      HasIffMember(s, inputs.init, w);
      if Enabled(m, input) {
        StepWindows(m, input, w);
        assert Has(Step(m, input).app, w) <==> w in WindowsOf(Step(m, input).app);
      }
    }
  }

  lemma {:induction false} RunWindows(s: Screen, inputs: List<Input>)
    ensures ScreenTold(s, inputs) && WindowsTold(s, inputs)
  {
    if inputs.Snoc? {
      RunWindows(s, inputs.init);
      ScreenStep(s, inputs);
      WindowsStep(s, inputs);
    }
  }

  lemma {:induction false} CountPositive(s: Screen, ws: seq<nat>)
    ensures CountInteresting(s, ws) > 0 <==> exists w :: w in ws && w in s.wins && !s.wins[w].skipTaskbar
  {
    if ws != [] {
      CountPositive(s, ws[1..]);
      assert forall w :: w in ws <==> w == ws[0] || w in ws[1..];
    }
  }

  /** The count is positive exactly when a window is on the taskbar. */
  lemma InterestTold(s: Screen, inputs: List<Input>)
    ensures
      var app := Run(s, inputs).app;
      app.running.Some? ==> (app.running.value.interesting > 0 <==> OnTaskbar(s, inputs))
    ensures Run(s, inputs).app.running.Some? <==> Members(s, inputs) != {}
  {
    var m := Run(s, inputs);
    RunWindows(s, inputs);
    RunKeeps(s, inputs);
    if m.app.running.Some? {
      var ws := m.app.running.value.windows;
      CountPositive(m.screen, ws);
      forall w ensures w in ws && w in m.screen.wins && !m.screen.wins[w].skipTaskbar <==>
        w in Members(s, inputs) && !Skips(s, inputs, w)
      {
        HasIffMember(s, inputs, w);
        MembersExist(m, w);
      }
      HasIffMember(s, inputs, ws[0]);
    }
  }

  /** A window of the application comes, goes or changes its place in the taskbar. */
  predicate TakesUp(app: App, input: Input) {
    match input
    case Added(w) => !Has(app, w)
    case Removed(w) => Has(app, w)
    case SkipTaskbarChanged(_) => true
    case _ => false
  }

  /** What a step does to the state, by the count it leaves behind. */
  lemma StepState(m: Moment, input: Input)
    requires Inv(m.app, m.screen) && Enabled(m, input)
    ensures
      var app := Step(m, input).app;
      match input
      case Startup(completed) =>
        app.state == if completed then (if WindowsOf(m.app) != [] then Running else Stopped)
                     else if m.app.state == Stopped then Starting else m.app.state
      case _ =>
        if TakesUp(m.app, input) then
          app.state == if m.app.state == Starting then Starting
                       else if app.running.Some? && app.running.value.interesting > 0 then Running else Stopped
        else app.state == m.app.state
  {
    StepKeeps(m, input);
    if input.Removed? && Has(m.app, input.w) {
      var ws := m.app.running.value.windows;
      WithoutCounts(m.screen, ws, input.w);
    }
  }

  lemma StateStep(s: Screen, inputs: List<Input>)
    requires inputs.Snoc? && Run(s, inputs.init).app.state == StateOf(s, inputs.init)
    ensures Run(s, inputs).app.state == StateOf(s, inputs)
  {
    var m, input := Run(s, inputs.init), inputs.last;
    RunKeeps(s, inputs.init);
    RunWindows(s, inputs.init);
    InterestTold(s, inputs);
    InterestTold(s, inputs.init);
    hide Inv, Step, Run, Skips, Members, Appeared;
    if input.Added? || input.Removed? || input.SkipTaskbarChanged? {
      HasIffMember(s, inputs.init, input.w);
    }
    EnabledIff(s, inputs.init, input);
    RunStep(s, inputs);
    if Enabled(m, input) {
      StepState(m, input);
      NoMembersNoTaskbar(s, inputs);
    }
  }

  lemma RunStep(s: Screen, inputs: List<Input>)
    requires inputs.Snoc?
    ensures
      var m := Run(s, inputs.init);
      Run(s, inputs) == if Enabled(m, inputs.last) then Step(m, inputs.last) else m
  {
  }

  lemma NoMembersNoTaskbar(s: Screen, inputs: List<Input>)
    ensures Members(s, inputs) == {} ==> !OnTaskbar(s, inputs)
  {
  }

  /** What changes the taskbar can happen. */
  lemma EnabledIff(s: Screen, init: List<Input>, input: Input)
    requires ScreenTold(s, init) && WindowsTold(s, init)
    requires Inv(Run(s, init).app, Run(s, init).screen)
    ensures ChangesTaskbar(s, init, input) ==> Enabled(Run(s, init), input)
    ensures Enabled(Run(s, init), input) && (input.Added? || input.Removed? || input.SkipTaskbarChanged?) ==>
      (ChangesTaskbar(s, init, input) <==> TakesUp(Run(s, init).app, input))
  {
    if input.Added? || input.Removed? || input.SkipTaskbarChanged? {
      HasIffMember(s, init, input.w);
    }
  }

  lemma {:induction false} RunState(s: Screen, inputs: List<Input>)
    ensures Run(s, inputs).app.state == StateOf(s, inputs)
  {
    if inputs.Snoc? {
      RunState(s, inputs.init);
      StateStep(s, inputs);
    }
  }

  /** In every run an application has exactly the windows that came and did not go, is in exactly the state its inputs
      tell, has running state exactly while it has windows, and is listed exactly while it runs. */
  lemma RunTold(s: Screen, inputs: List<Input>)
    ensures
      var app := Run(s, inputs).app;
      && (forall w :: w in WindowsOf(app) <==> w in Members(s, inputs))
      && app.state == StateOf(s, inputs)
      && (app.running.Some? <==> Members(s, inputs) != {})
      && (app.listed <==> StateOf(s, inputs) == Running)
  {
    RunWindows(s, inputs);
    InterestTold(s, inputs);
    RunState(s, inputs);
    RunKeeps(s, inputs);
  }

  /** Removing its last window stops an application that is not starting, and takes it off the list. */
  lemma LastWindowStops(s: Screen, inputs: List<Input>, w: nat)
    requires Members(s, inputs) == {w} && StateOf(s, inputs) != Starting
    ensures
      var app := Run(s, Snoc(inputs, Removed(w))).app;
      app.state == Stopped && app.running == None && !app.listed
  {
    RunTold(s, Snoc(inputs, Removed(w)));
  }
}
