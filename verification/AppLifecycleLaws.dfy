/** What every run of an application keeps: its state agrees with its windows, and its window cache with their order. */
module AppLifecycleLaws {
  import opened AppLifecycleSpec
  import opened Options
  import opened SnocLists

  // ---- The order ----

  /** The three keys spelled out: windows of the active workspace first, then visible ones, then by user time. */
  ghost predicate Before(active: int, a: Win, b: Win) {
    var (wa, wb) := (a.workspace == active, b.workspace == active);
    || (wa && !wb)
    || (wa == wb && a.showing && !b.showing)
    || (wa == wb && a.showing == b.showing && a.userTime >= b.userTime)
  }

  /** As long as the times span less than half the clock, the wrapped difference orders as the times do. */
  lemma CompareIff(active: int, a: Win, b: Win)
    requires a.userTime - b.userTime < HALF && b.userTime - a.userTime < HALF
    ensures Compare(active, a, b) <= 0 <==> Before(active, a, b)
  {
    var d := b.userTime - a.userTime;
    if d < 0 {
      assert d % U32 == d + U32;
    }
  }

  lemma InOrderTransitive(s: Screen, a: nat, b: nat, c: nat)
    requires Timely(s, [a, b, c]) && InOrder(s, a, b) && InOrder(s, b, c)
    ensures InOrder(s, a, c)
  {
    assert [a, b, c][0] == a && [a, b, c][1] == b && [a, b, c][2] == c;
    CompareIff(s.active, s.wins[a], s.wins[b]);
    CompareIff(s.active, s.wins[b], s.wins[c]);
    CompareIff(s.active, s.wins[a], s.wins[c]);
  }

  lemma InOrderTotal(s: Screen, a: nat, b: nat)
    requires Timely(s, [a, b]) && a in s.wins && b in s.wins
    ensures InOrder(s, a, b) || InOrder(s, b, a)
  {
    assert [a, b][0] == a && [a, b][1] == b;
    CompareIff(s.active, s.wins[a], s.wins[b]);
    CompareIff(s.active, s.wins[b], s.wins[a]);
  }

  ghost predicate Known(s: Screen, ws: seq<nat>) {
    forall i :: 0 <= i < |ws| ==> ws[i] in s.wins
  }

  lemma {:induction false} InsertFirstMembers(s: Screen, w: nat, ws: seq<nat>)
    ensures multiset(InsertFirst(s, w, ws)) == multiset([w] + ws)
    ensures forall v :: v in InsertFirst(s, w, ws) <==> v == w || v in ws
  {
    if !(ws == [] || InOrder(s, w, ws[0])) {
      InsertFirstMembers(s, w, ws[1..]);
      assert ws == [ws[0]] + ws[1..];
    }
  }

  lemma {:induction false} InsertFirstSorts(s: Screen, w: nat, ws: seq<nat>)
    requires Timely(s, [w] + ws) && w in s.wins && Known(s, ws) && Sorted(s, ws)
    ensures Sorted(s, InsertFirst(s, w, ws)) && Known(s, InsertFirst(s, w, ws))
  {
    assert forall v :: v in [w] + ws <==> v == w || v in ws;
    if ws == [] {
    } else if InOrder(s, w, ws[0]) {
      forall j | 0 < j < |ws| ensures InOrder(s, w, ws[j]) {
        InOrderTransitive(s, w, ws[0], ws[j]);
      }
    } else {
      var rest := InsertFirst(s, w, ws[1..]);
      InsertFirstSorts(s, w, ws[1..]);
      InsertFirstMembers(s, w, ws[1..]);
      InOrderTotal(s, w, ws[0]);
      forall j | 0 <= j < |rest| ensures InOrder(s, ws[0], rest[j]) {
        assert rest[j] in rest;
      }
    }
  }

  lemma {:induction false} SortMembers(s: Screen, ws: seq<nat>)
    ensures multiset(Sort(s, ws)) == multiset(ws)
    ensures forall v :: v in Sort(s, ws) <==> v in ws
  {
    if ws != [] {
      SortMembers(s, ws[1..]);
      InsertFirstMembers(s, ws[0], Sort(s, ws[1..]));
      assert ws == [ws[0]] + ws[1..];
    }
  }

  lemma {:induction false} SortSorts(s: Screen, ws: seq<nat>)
    requires Timely(s, ws) && Known(s, ws)
    ensures Sorted(s, Sort(s, ws)) && Known(s, Sort(s, ws)) && multiset(Sort(s, ws)) == multiset(ws)
  {
    SortMembers(s, ws);
    if ws != [] {
      SortSorts(s, ws[1..]);
      SortMembers(s, ws[1..]);
      InsertFirstSorts(s, ws[0], Sort(s, ws[1..]));
    }
  }

  /** Sorting what is sorted moves nothing, not even windows that compare equal. */
  lemma {:induction false} SortKeeps(s: Screen, ws: seq<nat>)
    requires Sorted(s, ws) && Known(s, ws)
    ensures Sort(s, ws) == ws
  {
    if ws != [] {
      SortKeeps(s, ws[1..]);
      if |ws| > 1 {
        assert InOrder(s, ws[0], ws[1]);
      }
    }
  }

  /** Window i stands right between its neighbours. */
  ghost predicate Fits(s: Screen, ws: seq<nat>, i: nat)
    requires i < |ws|
  {
    (i > 0 ==> InOrder(s, ws[i - 1], ws[i])) && (i + 1 < |ws| ==> InOrder(s, ws[i], ws[i + 1]))
  }

  /** When one window changes the list is still sorted if and only if that window still fits between its
      neighbours. */
  lemma OneChangeIff(s: Screen, s': Screen, ws: seq<nat>, i: nat)
    requires i < |ws| && Distinct(ws) && Known(s, ws) && Known(s', ws) && Sorted(s, ws) && Timely(s', ws)
    requires s'.active == s.active && forall k :: 0 <= k < |ws| && k != i ==> s'.wins[ws[k]] == s.wins[ws[k]]
    ensures Sorted(s', ws) <==> Fits(s', ws, i)
  {
    if Fits(s', ws, i) {
      forall j, k | 0 <= j < k < |ws| ensures InOrder(s', ws[j], ws[k]) {
        if j != i && k != i {
          assert InOrder(s, ws[j], ws[k]);
        } else if k == i && j < i - 1 {
          assert InOrder(s, ws[j], ws[i - 1]);
          InOrderTransitive(s', ws[j], ws[i - 1], ws[i]);
        } else if j == i && k > i + 1 {
          assert InOrder(s, ws[i + 1], ws[k]);
          InOrderTransitive(s', ws[i], ws[i + 1], ws[k]);
        }
      }
    }
  }

  // ---- Lists of windows ----

  lemma {:induction false} WithoutMembers(ws: seq<nat>, w: nat)
    requires w in ws && Distinct(ws)
    ensures Distinct(Without(ws, w)) && forall v :: v in Without(ws, w) <==> v in ws && v != w
  {
    assert forall v :: v in ws <==> v == ws[0] || v in ws[1..];
    if ws[0] != w {
      WithoutMembers(ws[1..], w);
      assert ws[0] !in ws[1..];
    }
  }

  lemma {:induction false} WithoutSorted(s: Screen, ws: seq<nat>, w: nat)
    requires w in ws && Distinct(ws) && Sorted(s, ws)
    ensures Sorted(s, Without(ws, w))
  {
    if ws[0] != w {
      WithoutSorted(s, ws[1..], w);
      WithoutMembers(ws[1..], w);
      var rest := Without(ws[1..], w);
      forall j | 0 <= j < |rest| ensures InOrder(s, ws[0], rest[j]) {
        assert rest[j] in ws[1..];
      }
    }
  }

  lemma {:induction false} CountSame(s: Screen, s': Screen, ws: seq<nat>)
    requires forall i :: 0 <= i < |ws| ==> Interest(s', ws[i]) == Interest(s, ws[i])
    ensures CountInteresting(s', ws) == CountInteresting(s, ws)
  {
    if ws != [] {
      CountSame(s, s', ws[1..]);
    }
  }

  lemma {:induction false} CountFlipped(s: Screen, s': Screen, ws: seq<nat>, w: nat)
    requires w in ws && Distinct(ws) && forall v :: v in ws && v != w ==> Interest(s', v) == Interest(s, v)
    ensures CountInteresting(s', ws) == CountInteresting(s, ws) + Interest(s', w) - Interest(s, w)
  {
    if ws[0] == w {
      CountSame(s, s', ws[1..]);
    } else {
      assert w in ws[1..];
      CountFlipped(s, s', ws[1..], w);
    }
  }

  lemma {:induction false} CountPermuted(s: Screen, ws: seq<nat>, ws': seq<nat>)
    requires multiset(ws) == multiset(ws')
    ensures CountInteresting(s, ws) == CountInteresting(s, ws')
    decreases |ws|
  {
    if ws == [] {
      assert |multiset(ws')| == 0;
    } else {
      var w := ws[0];
      assert w in multiset(ws');
      assert ws == [w] + ws[1..];
      var rest := Without(ws', w);
      WithoutCounts(s, ws', w);
      WithoutMultiset(ws', w);
      assert multiset(ws[1..]) == multiset(ws) - multiset{w};
      CountPermuted(s, ws[1..], rest);
    }
  }

  lemma {:induction false} WithoutCounts(s: Screen, ws: seq<nat>, w: nat)
    requires w in ws
    ensures CountInteresting(s, ws) == CountInteresting(s, Without(ws, w)) + Interest(s, w)
  {
    if ws[0] != w {
      assert w in ws[1..];
      WithoutCounts(s, ws[1..], w);
      var rest := Without(ws[1..], w);
      assert ([ws[0]] + rest)[1..] == rest;
    }
  }

  lemma {:induction false} WithoutMultiset(ws: seq<nat>, w: nat)
    requires w in ws
    ensures multiset(Without(ws, w)) == multiset(ws) - multiset{w}
  {
    assert ws == [ws[0]] + ws[1..];
    if ws[0] != w {
      WithoutMultiset(ws[1..], w);
    }
  }

  lemma {:induction false} DistinctIff(ws: seq<nat>)
    ensures Distinct(ws) <==> forall w :: multiset(ws)[w] <= 1
  {
    if ws != [] {
      assert ws == [ws[0]] + ws[1..];
      DistinctIff(ws[1..]);
      assert multiset(ws)[ws[0]] == 1 + multiset(ws[1..])[ws[0]];
      if Distinct(ws) {
        assert ws[0] !in ws[1..];
        forall w ensures multiset(ws)[w] <= 1 {
          assert multiset(ws)[w] == multiset([ws[0]])[w] + multiset(ws[1..])[w];
        }
      }
      if forall w :: multiset(ws)[w] <= 1 {
        forall w ensures multiset(ws[1..])[w] <= 1 {
          assert multiset(ws)[w] == multiset([ws[0]])[w] + multiset(ws[1..])[w];
        }
        assert multiset(ws[1..])[ws[0]] == 0;
        assert ws[0] !in multiset(ws[1..]);
        forall i, j | 0 <= i < j < |ws| ensures ws[i] != ws[j] {
          assert ws[j] == ws[1..][j - 1];
          if i > 0 {
            assert ws[i] == ws[1..][i - 1];
          }
        }
      }
    }
  }

  // ---- Steps keep the invariant ----

  function WindowsOf(app: App): seq<nat> {
    if app.running.None? then [] else app.running.value.windows
  }

  lemma SyncKeeps(app: App, s: Screen)
    requires app.running.Some? && RunningValid(s, app.running.value) && (app.listed <==> app.state == Running)
    ensures Inv(Sync(app), s) && Sync(app).running == app.running
  {
  }

  lemma AddKeeps(app: App, s: Screen, w: nat)
    requires Inv(app, s) && w in s.wins
    ensures Inv(AddWindow(app, s, w), s) && (Inv(app, s) && CacheInv(app, s) ==> CacheInv(AddWindow(app, s, w), s))
  {
    if !Has(app, w) {
      var r := if app.running.Some? then app.running.value else RunningData([], 0, false);
      var r' := RunningData([w] + r.windows, r.interesting + Interest(s, w), true);
      assert r'.windows[1..] == r.windows;
      SyncKeeps(app.(running := Some(r')), s);
    }
  }

  lemma RemoveKeeps(app: App, s: Screen, w: nat)
    requires Inv(app, s) && app.running.Some?
    ensures Inv(RemoveWindow(app, s, w), s) && (CacheInv(app, s) ==> CacheInv(RemoveWindow(app, s, w), s))
  {
    var r := app.running.value;
    if w in r.windows {
      WithoutMembers(r.windows, w);
      WithoutCounts(s, r.windows, w);
      if Sorted(s, r.windows) {
        WithoutSorted(s, r.windows, w);
      }
      var rest := Without(r.windows, w);
      forall i | 0 <= i < |rest| ensures rest[i] in s.wins {
        assert rest[i] in r.windows;
      }
      if rest != [] {
        SyncKeeps(app.(running := Some(RunningData(rest, r.interesting - Interest(s, w), r.sortStale))), s);
      }
    }
  }

  lemma SkipTaskbarKeeps(m: Moment, w: nat)
    requires Inv(m.app, m.screen) && Has(m.app, w)
    ensures Inv(Step(m, SkipTaskbarChanged(w)).app, Step(m, SkipTaskbarChanged(w)).screen)
    ensures CacheInv(m.app, m.screen) ==> CacheInv(Step(m, SkipTaskbarChanged(w)).app, Step(m, SkipTaskbarChanged(w)).screen)
  {
    var s, r := After(m.screen, SkipTaskbarChanged(w)), m.app.running.value;
    CountFlipped(m.screen, s, r.windows, w);
    var n := if s.wins[w].skipTaskbar then r.interesting - 1 else r.interesting + 1;
    SyncKeeps(m.app.(running := Some(r.(interesting := n))), s);
    if Sorted(m.screen, r.windows) {
      forall i, j | 0 <= i < j < |r.windows| ensures InOrder(s, r.windows[i], r.windows[j]) {
        assert InOrder(m.screen, r.windows[i], r.windows[j]);
      }
    }
  }

  lemma ResortKeeps(app: App, s: Screen)
    requires Inv(app, s)
    ensures Inv(Resorted(app, s), s)
  {
    hide Sort;
    if app.running.Some? && app.running.value.sortStale {
      var ws := app.running.value.windows;
      SortMembers(s, ws);
      CountPermuted(s, ws, Sort(s, ws));
      DistinctIff(ws);
      DistinctIff(Sort(s, ws));
      var ws' := Sort(s, ws);
      assert |ws'| == |multiset(ws')| == |multiset(ws)|;
      forall i | 0 <= i < |ws'| ensures ws'[i] in s.wins {
        assert ws'[i] in ws;
      }
    }
  }

  lemma ResortOrders(app: App, s: Screen)
    requires Inv(app, s) && CacheInv(app, s) && Timely(s, WindowsOf(app))
    ensures CacheInv(Resorted(app, s), s)
  {
    if app.running.Some? {
      SortSorts(s, app.running.value.windows);
    }
  }

  /** A step that changes neither the application nor anything about its windows. */
  lemma UntouchedKeeps(app: App, s: Screen, s': Screen)
    requires Inv(app, s) && s'.active == s.active && forall w :: w in s.wins ==> w in s'.wins
    requires forall w :: Has(app, w) && w in s.wins ==> s'.wins[w] == s.wins[w]
    ensures Inv(app, s') && (CacheInv(app, s) ==> CacheInv(app, s'))
  {
    if app.running.Some? {
      var ws := app.running.value.windows;
      CountSame(s, s', ws);
      if Sorted(s, ws) {
        forall i, j | 0 <= i < j < |ws| ensures InOrder(s', ws[i], ws[j]) {
          assert InOrder(s, ws[i], ws[j]);
        }
      }
    }
  }

  lemma StartupKeeps(app: App, s: Screen, completed: bool)
    requires Inv(app, s)
    ensures Inv(HandleStartupSequence(app, completed), s)
    ensures CacheInv(app, s) ==> CacheInv(HandleStartupSequence(app, completed), s)
  {
  }

  /** A change of a window that only its place in the order may depend on. */
  predicate Reorders(input: Input) {
    input.UserTimeChanged? || input.ShowingChanged? || input.Relocated?
  }

  lemma ReorderingKeeps(m: Moment, input: Input)
    requires Inv(m.app, m.screen) && Enabled(m, input) && Reorders(input)
    ensures Inv(Step(m, input).app, Step(m, input).screen)
  {
    CountSame(m.screen, After(m.screen, input), m.app.running.value.windows);
  }

  lemma SwitchKeeps(m: Moment, to: int)
    requires Inv(m.app, m.screen)
    ensures
      var m' := Step(m, WorkspaceSwitched(to));
      Inv(m'.app, m'.screen) && CacheInv(m'.app, m'.screen)
  {
    if m.app.running.Some? {
      CountSame(m.screen, After(m.screen, WorkspaceSwitched(to)), m.app.running.value.windows);
    }
  }

  /** Every step keeps the invariant. */
  lemma StepKeeps(m: Moment, input: Input)
    requires Inv(m.app, m.screen) && Enabled(m, input)
    ensures Inv(Step(m, input).app, Step(m, input).screen)
  {
    match input
    case Added(w) => AddKeeps(m.app, m.screen, w);
    case Removed(w) => RemoveKeeps(m.app, m.screen, w);
    case SkipTaskbarChanged(w) => SkipTaskbarKeeps(m, w);
    case WorkspaceSwitched(to) => SwitchKeeps(m, to);
    case Startup(completed) => StartupKeeps(m.app, m.screen, completed);
    case WindowsAsked => ResortKeeps(m.app, m.screen);
    case Elsewhere(w, win) => UntouchedKeeps(m.app, m.screen, After(m.screen, input));
    case _ => ReorderingKeeps(m, input);
  }

  // ---- The order of the list ----

  /** After the step the list is marked stale, or there is none. */
  predicate Unclaimed(m: Moment, input: Input)
    requires Enabled(m, input)
  {
    var app := Step(m, input).app;
    app.running.None? || app.running.value.sortStale
  }

  /** The window stands right between its neighbours. */
  ghost predicate FitsIn(s: Screen, ws: seq<nat>, w: nat) {
    forall i :: 0 <= i < |ws| && ws[i] == w ==> Fits(s, ws, i)
  }

  /** A window that changes in what the order depends on still fits between its neighbours, unless the list is marked
      stale. */
  ghost predicate StaysOrdered(m: Moment, input: Input)
    requires Enabled(m, input)
  {
    Reorders(input) ==> Unclaimed(m, input) || FitsIn(After(m.screen, input), WindowsOf(m.app), input.w)
  }

  /** Exactly when a step leaves the cache in order. */
  lemma StepOrderIff(m: Moment, input: Input)
    requires Inv(m.app, m.screen) && CacheInv(m.app, m.screen) && Enabled(m, input)
    requires Timely(After(m.screen, input), WindowsOf(m.app))
    ensures
      var m' := Step(m, input);
      CacheInv(m'.app, m'.screen) <==> StaysOrdered(m, input)
  {
    match input
    case Added(w) => AddKeeps(m.app, m.screen, w);
    case Removed(w) => RemoveKeeps(m.app, m.screen, w);
    case SkipTaskbarChanged(w) => SkipTaskbarKeeps(m, w);
    case WorkspaceSwitched(to) => SwitchKeeps(m, to);
    case Startup(completed) => StartupKeeps(m.app, m.screen, completed);
    case WindowsAsked => ResortOrders(m.app, m.screen);
    case Elsewhere(w, win) => UntouchedKeeps(m.app, m.screen, After(m.screen, input));
    case _ => ReorderIff(m, input);
  }

  lemma ReorderIff(m: Moment, input: Input)
    requires Inv(m.app, m.screen) && CacheInv(m.app, m.screen) && Enabled(m, input) && Reorders(input)
    requires Timely(After(m.screen, input), WindowsOf(m.app))
    ensures
      var m' := Step(m, input);
      CacheInv(m'.app, m'.screen) <==> StaysOrdered(m, input)
  {
    var ws := WindowsOf(m.app);
    if !Unclaimed(m, input) {
      var i :| 0 <= i < |ws| && ws[i] == input.w;
      OneChangeIff(m.screen, After(m.screen, input), ws, i);
      assert FitsIn(After(m.screen, input), ws, input.w) <==> Fits(After(m.screen, input), ws, i);
    }
  }

  /** A user time that does not go back leaves the first window first. */
  lemma GrowingTimeStays(m: Moment, w: nat, time: nat)
    requires Inv(m.app, m.screen) && CacheInv(m.app, m.screen) && Enabled(m, UserTimeChanged(w, time))
    requires w in m.screen.wins && m.screen.wins[w].userTime <= time
    requires Timely(m.screen, WindowsOf(m.app)) && Timely(After(m.screen, UserTimeChanged(w, time)), WindowsOf(m.app))
    ensures StaysOrdered(m, UserTimeChanged(w, time))
  {
    var s', ws := After(m.screen, UserTimeChanged(w, time)), WindowsOf(m.app);
    if !Unclaimed(m, UserTimeChanged(w, time)) && |ws| > 1 {
      var v := ws[1];
      assert InOrder(m.screen, w, v);
      CompareIff(m.screen.active, m.screen.wins[w], m.screen.wins[v]);
      CompareIff(s'.active, s'.wins[w], s'.wins[v]);
    }
  }

  // ---- Whole runs ----

  /** The moments of a run; inputs that cannot happen are passed over. */
  function Run(s: Screen, inputs: List<Input>): Moment {
    match inputs
    case Nil => Moment(NEW, s)
    case Snoc(init, input) =>
      var m := Run(s, init);
      if Enabled(m, input) then Step(m, input) else m
  }

  /** In every run interesting_windows is the number of windows not left out of the taskbar, so it never falls below
      zero; there is running state exactly while there are windows; a stopped application has no such window, a
      running one has windows; and the running applications are the ones listed. */
  lemma {:induction false} RunKeeps(s: Screen, inputs: List<Input>)
    ensures Inv(Run(s, inputs).app, Run(s, inputs).screen)
  {
    if inputs.Snoc? {
      RunKeeps(s, inputs.init);
      var m := Run(s, inputs.init);
      if Enabled(m, inputs.last) {
        StepKeeps(m, inputs.last);
      }
    }
  }

  /** Before and after every step the times of the application's windows span less than half the clock. */
  ghost predicate AllTimely(s: Screen, inputs: List<Input>) {
    inputs.Snoc? ==>
      && AllTimely(s, inputs.init)
      && var m := Run(s, inputs.init);
      Enabled(m, inputs.last) ==> Timely(After(m.screen, inputs.last), WindowsOf(m.app))
  }

  /** Since the list was last marked stale, or empty, every window that changed in what the order depends on still
      fitted. */
  ghost predicate Ordered(s: Screen, inputs: List<Input>) {
    inputs.Snoc? ==>
      var m := Run(s, inputs.init);
      if !Enabled(m, inputs.last) then Ordered(s, inputs.init)
      else Unclaimed(m, inputs.last) || (Ordered(s, inputs.init) && StaysOrdered(m, inputs.last))
  }

  /** A window list that is not stale is in the current order as long as the run is ordered, and is out of order from
      the very step with which the run no longer is. */
  lemma {:induction false} RunOrdered(s: Screen, inputs: List<Input>)
    requires AllTimely(s, inputs)
    ensures Ordered(s, inputs) ==> CacheInv(Run(s, inputs).app, Run(s, inputs).screen)
    ensures inputs.Snoc? && Ordered(s, inputs.init) ==>
      (CacheInv(Run(s, inputs).app, Run(s, inputs).screen) <==> Ordered(s, inputs))
  {
    if inputs.Snoc? {
      RunOrdered(s, inputs.init);
      RunKeeps(s, inputs.init);
      var m := Run(s, inputs.init);
      if Enabled(m, inputs.last) && Ordered(s, inputs.init) {
        StepOrderIff(m, inputs.last);
      }
    }
  }

  /** No step makes a running application a starting one. */
  lemma NeverBackToStarting(m: Moment, input: Input)
    requires Inv(m.app, m.screen) && Enabled(m, input) && m.app.state == Running
    ensures Step(m, input).app.state != Starting
  {
  }

  /** Hiding or showing a window does not mark the list stale: a list that is not stale stays in order if and only if
      the window still fits between its neighbours. */
  lemma HidingKeepsOrderIff(m: Moment, i: nat)
    requires Inv(m.app, m.screen) && CacheInv(m.app, m.screen) && m.app.running.Some?
    requires !m.app.running.value.sortStale && i < |m.app.running.value.windows|
    requires Timely(After(m.screen, ShowingChanged(m.app.running.value.windows[i])), m.app.running.value.windows)
    ensures
      var ws := m.app.running.value.windows;
      var m' := Step(m, ShowingChanged(ws[i]));
      CacheInv(m'.app, m'.screen) <==> Fits(m'.screen, ws, i)
  {
    var ws := m.app.running.value.windows;
    OneChangeIff(m.screen, After(m.screen, ShowingChanged(ws[i])), ws, i);
  }

  const SHOWN := Win(0, true, 10, false, false)
  const TWO := Screen(0, map[1 := SHOWN, 2 := SHOWN])

  /** Two windows come, the windows are asked for, and the first one is hidden. */
  const HIDING: List<Input> := Snoc(Snoc(Snoc(Snoc(Nil, Added(2)), Added(1)), WindowsAsked), ShowingChanged(1))

  lemma SortedTwo()
    ensures Run(TWO, HIDING.init) == Moment(App(Running, Some(RunningData([1, 2], 2, false)), true), TWO)
  {
    var added := HIDING.init.init;
    assert [2] + [] == [2] && [1] + [2] == [1, 2];
    var first := App(Running, Some(RunningData([2], 1, true)), true);
    assert AddWindow(NEW, TWO, 2) == first;
    assert Run(TWO, Nil) == Moment(NEW, TWO) && Run(TWO, added.init) == Moment(first, TWO);
    assert AddWindow(first, TWO, 1) == App(Running, Some(RunningData([1, 2], 2, true)), true);
    assert Run(TWO, added) == Moment(App(Running, Some(RunningData([1, 2], 2, true)), true), TWO);
    assert InOrder(TWO, 1, 2);
    assert [1, 2][1..] == [2] && [2][1..] == [];
    assert Sort(TWO, [2]) == [2];
    assert Sort(TWO, [1, 2]) == [1, 2];
  }

  lemma HidingOrdered()
    ensures Ordered(TWO, HIDING.init)
    ensures Run(TWO, HIDING) == Moment(Run(TWO, HIDING.init).app, After(TWO, ShowingChanged(1)))
  {
    SortedTwo();
    var added := HIDING.init.init;
    assert added.last == Added(1);
    assert Unclaimed(Run(TWO, added.init), Added(1));
    assert Ordered(TWO, added);
    assert HIDING.init.last == WindowsAsked && !Reorders(WindowsAsked);
    assert StaysOrdered(Run(TWO, added), WindowsAsked);
  }

  lemma SameTimes(s: Screen, ws: seq<nat>)
    requires forall w :: w in s.wins ==> s.wins[w].userTime == 10
    ensures Timely(s, ws)
  {
  }

  /** In this run, whose times are all the same, the list is in order until the window is hidden, and then not marked
      stale and yet out of order. */
  lemma HidingBreaksOrder()
    ensures AllTimely(TWO, HIDING) && Ordered(TWO, HIDING.init) && !Ordered(TWO, HIDING)
    ensures !CacheInv(Run(TWO, HIDING).app, Run(TWO, HIDING).screen)
  {
    HidingTimely();
    SortedTwo();
    HidingOrdered();
    RunOrdered(TWO, HIDING);
    hide Ordered, AllTimely, Run;
    var s := After(TWO, ShowingChanged(1));
    assert !InOrder(s, [1, 2][0], [1, 2][1]);
  }

  lemma HidingTimely()
    ensures AllTimely(TWO, HIDING)
  {
    SortedTwo();
    var added := HIDING.init.init;
    assert Run(TWO, added).screen == TWO && Run(TWO, added.init).screen == TWO && Run(TWO, Nil).screen == TWO;
    SameTimes(TWO, WindowsOf(Run(TWO, Nil).app));
    SameTimes(TWO, WindowsOf(Run(TWO, added.init).app));
    SameTimes(TWO, WindowsOf(Run(TWO, added).app));
    SameTimes(After(TWO, ShowingChanged(1)), WindowsOf(Run(TWO, HIDING.init).app));
    hide Timely, AddWindow, Resorted;
    assert AllTimely(TWO, Nil) && AllTimely(TWO, added.init) && AllTimely(TWO, added) && AllTimely(TWO, HIDING.init);
  }

  // ---- Many applications ----

  /** The applications of the display by their numbers, and the windows they share out. */
  datatype Desktop = Desktop(apps: map<nat, App>, screen: Screen)

  datatype Happening =
    | At(id: nat, input: Input)      // something about the windows of one application, or about itself
    | Switched(to: int)
    | Foreign(w: nat, win: Win)      // a window of no application changes, or is new

  /** A window has one application: it is only added where no other has it. */
  ghost predicate Possible(d: Desktop, h: Happening) {
    match h
    case At(id, input) =>
      && id in d.apps && Enabled(Moment(d.apps[id], d.screen), input)
      && !input.WorkspaceSwitched? && !input.Elsewhere?
      && (input.Added? ==> forall other :: other in d.apps && other != id ==> !Has(d.apps[other], input.w))
    case Switched(_) => true
    case Foreign(w, _) => forall id :: id in d.apps ==> !Has(d.apps[id], w)
  }

  ghost function Happened(d: Desktop, h: Happening): Desktop
    requires Possible(d, h)
  {
    match h
    case At(id, input) =>
      var m := Step(Moment(d.apps[id], d.screen), input);
      Desktop(d.apps[id := m.app], m.screen)
    case Switched(to) =>
      Desktop(map id | id in d.apps :: OnWorkspaceSwitch(d.apps[id]), After(d.screen, WorkspaceSwitched(to)))
    case Foreign(w, win) => d.(screen := After(d.screen, Elsewhere(w, win)))
  }

  /** Every application is as its runs keep it, and no two have the same window. */
  ghost predicate DesktopInv(d: Desktop) {
    && (forall id :: id in d.apps ==> Inv(d.apps[id], d.screen))
    && (forall a, b, w {:trigger Has(d.apps[a], w), Has(d.apps[b], w)} ::
         a in d.apps && b in d.apps && Has(d.apps[a], w) && Has(d.apps[b], w) ==> a == b)
  }

  ghost function DesktopRun(d: Desktop, happenings: List<Happening>): Desktop {
    match happenings
    case Nil => d
    case Snoc(init, h) =>
      var before := DesktopRun(d, init);
      if Possible(before, h) then Happened(before, h) else before
  }

  /** The running_apps table: the applications that are listed. */
  ghost function Table(d: Desktop): set<nat> {
    set id | id in d.apps && d.apps[id].listed
  }

  /** An application gets no window but the one that is added, and nothing changes about windows it does not have. */
  lemma StepOwnWindows(m: Moment, input: Input)
    requires Inv(m.app, m.screen) && Enabled(m, input) && !input.WorkspaceSwitched? && !input.Elsewhere?
    ensures
      var m' := Step(m, input);
      && (forall w :: Has(m'.app, w) ==> Has(m.app, w) || input == Added(w))
      && m'.screen.active == m.screen.active && (forall w :: w in m.screen.wins ==> w in m'.screen.wins)
      && (forall w :: w in m.screen.wins && !Has(m.app, w) ==> m'.screen.wins[w] == m.screen.wins[w])
  {
    match input
    case Removed(w) =>
      if Has(m.app, w) {
        WithoutMembers(m.app.running.value.windows, w);
      }
    case WindowsAsked =>
      if m.app.running.Some? {
        SortMembers(m.screen, m.app.running.value.windows);
      }
    case _ =>
  }

  lemma AtKeeps(d: Desktop, id: nat, input: Input)
    requires DesktopInv(d) && Possible(d, At(id, input))
    ensures DesktopInv(Happened(d, At(id, input)))
  {
    var d', m := Happened(d, At(id, input)), Moment(d.apps[id], d.screen);
    StepKeeps(m, input);
    StepOwnWindows(m, input);
    hide Step, Enabled, Inv;
    forall other | other in d'.apps ensures Inv(d'.apps[other], d'.screen) {
      if other != id {
        forall w | Has(d.apps[other], w) ensures !Has(d.apps[id], w) {
        }
        UntouchedKeeps(d.apps[other], d.screen, d'.screen);
      }
    }
  }

  /** In every run over any number of applications that share the windows of a display, in which windows come, go and
      pass from one application to another, running_apps holds exactly the running applications, and no window has
      two of them. */
  lemma {:induction false} TableIsRunning(d: Desktop, happenings: List<Happening>)
    requires DesktopInv(d)
    ensures
      var d' := DesktopRun(d, happenings);
      && DesktopInv(d')
      && Table(d') == set id | id in d'.apps && d'.apps[id].state == Running
  {
    if happenings.Snoc? {
      TableIsRunning(d, happenings.init);
      var before := DesktopRun(d, happenings.init);
      if Possible(before, happenings.last) {
        match happenings.last
        case At(id, input) => AtKeeps(before, id, input);
        case Switched(to) => SwitchedKeeps(before, to);
        case Foreign(w, win) =>
          forall id | id in before.apps ensures Inv(before.apps[id], After(before.screen, Elsewhere(w, win))) {
            UntouchedKeeps(before.apps[id], before.screen, After(before.screen, Elsewhere(w, win)));
          }
      }
    }
  }

  lemma SwitchedKeeps(d: Desktop, to: int)
    requires DesktopInv(d)
    ensures DesktopInv(Happened(d, Switched(to)))
  {
    var d' := Happened(d, Switched(to));
    forall id | id in d'.apps ensures Inv(d'.apps[id], d'.screen) {
      SwitchKeeps(Moment(d.apps[id], d.screen), to);
    }
    forall a, w | a in d.apps ensures Has(d'.apps[a], w) <==> Has(d.apps[a], w) {
    }
  }

  /** A display whose applications have not started is a start. */
  lemma NewDesktop(ids: set<nat>, s: Screen)
    ensures DesktopInv(Desktop(map id | id in ids :: NEW, s))
  {
  }

  // ---- What shell_app_get_windows returns ----

  lemma {:induction false} OrdinaryIs(s: Screen, ws: seq<nat>)
    requires Known(s, ws)
    ensures forall w :: w in Ordinary(s, ws) <==> w in ws && !s.wins[w].overrideRedirect
    ensures Sorted(s, ws) ==> Sorted(s, Ordinary(s, ws))
  {
    if ws != [] {
      OrdinaryIs(s, ws[1..]);
      var rest := Ordinary(s, ws[1..]);
      if Sorted(s, ws) {
        forall j | 0 <= j < |rest| ensures InOrder(s, ws[0], rest[j]) {
          assert rest[j] in ws[1..];
        }
      }
    }
  }

  /** shell_app_get_windows returns the windows that are not override-redirect, in the current order. */
  lemma WindowsInOrder(app: App, s: Screen)
    requires Inv(app, s) && CacheInv(app, s) && Timely(s, WindowsOf(app)) && app.running.Some?
    ensures
      var ws := Ordinary(s, Resorted(app, s).running.value.windows);
      && Sorted(s, ws)
      && (forall w :: w in ws <==> w in app.running.value.windows && w in s.wins && !s.wins[w].overrideRedirect)
  {
    var ws, ws' := app.running.value.windows, Resorted(app, s).running.value.windows;
    SortSorts(s, ws);
    OrdinaryIs(s, ws');
    forall w ensures w in ws' <==> w in ws {
      assert w in ws' <==> w in multiset(ws');
      assert w in ws <==> w in multiset(ws);
    }
  }
}
