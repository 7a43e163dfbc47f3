/** Who is told of what: the watchers registered with each muxer, and the signals that reach them. */
module MuxerSignals {
  import opened MuxerLaws
  import opened MuxerSpec
  import opened Options
  import opened SnocLists

  // ---- Registrations ----

  function Watchers(observed: map<string, seq<nat>>, name: string): seq<nat> {
    if name in observed then observed[name] else []
  }

  /** g_slist_remove. */
  function WithoutFirst(watchers: seq<nat>, observer: nat): seq<nat> {
    if watchers == [] then []
    else if watchers[0] == observer then watchers[1..]
    else [watchers[0]] + WithoutFirst(watchers[1..], observer)
  }

  /** One registration is gone and no other. */
  lemma {:induction false} WithoutFirstCounts(watchers: seq<nat>, observer: nat)
    ensures multiset(WithoutFirst(watchers, observer)) == multiset(watchers) - multiset{observer}
  {
    if watchers != [] {
      assert watchers == [watchers[0]] + watchers[1..];
      WithoutFirstCounts(watchers[1..], observer);
    }
  }

  /** gtk_action_muxer_register_observer. */
  function Registered(observed: map<string, seq<nat>>, name: string, observer: nat): map<string, seq<nat>> {
    observed[name := [observer] + Watchers(observed, name)]
  }

  /** gtk_action_muxer_unregister_internal: an action no one watches any more is forgotten. */
  function Unregistered(observed: map<string, seq<nat>>, name: string, observer: nat): map<string, seq<nat>>
    requires name in observed
  {
    var rest := WithoutFirst(observed[name], observer);
    if rest == [] && observer in observed[name] then observed - {name} else observed[name := rest]
  }

  /** How often an observer is registered for an action. */
  function Registrations(observed: map<string, seq<nat>>, name: string, observer: nat): nat {
    multiset(Watchers(observed, name))[observer]
  }

  lemma RegisteredCounts(observed: map<string, seq<nat>>, name: string, observer: nat, other: string, o: nat)
    ensures Registrations(Registered(observed, name, observer), other, o) ==
      Registrations(observed, other, o) + if other == name && o == observer then 1 else 0
  {
    var watchers := Watchers(observed, name);
    assert multiset([observer] + watchers) == multiset{observer} + multiset(watchers);
  }

  lemma UnregisteredCounts(observed: map<string, seq<nat>>, name: string, observer: nat, other: string, o: nat)
    requires name in observed
    ensures
      var count := Registrations(observed, other, o);
      Registrations(Unregistered(observed, name, observer), other, o) ==
        if other == name && o == observer && count > 0 then count - 1 else count
  {
    var watchers := observed[name];
    var rest := WithoutFirst(watchers, observer);
    WithoutFirstCounts(watchers, observer);
    hide WithoutFirst;
    assert Watchers(Unregistered(observed, name, observer), other) ==
      if other == name then rest else Watchers(observed, other);
  }

  function WithWatchers(w: World, m: nat, observed: map<string, seq<nat>>): World
    requires m in w.nodes
  {
    w.(nodes := w.nodes[m := w.nodes[m].(observed := observed)])
  }

  /** Registrations are no part of what queries see. */
  lemma WatchersApart(w: World, m: nat, observed: map<string, seq<nat>>)
    requires Valid(w) && m in w.nodes
    ensures
      var w' := WithWatchers(w, m, observed);
      && Valid(w') && (NoShadow(w) ==> NoShadow(w'))
      && forall x, name :: x in w.nodes ==> Query(w', x, name) == Query(w, x, name)
  {
    var w' := WithWatchers(w, m, observed);
    forall x | x in w'.nodes ensures NodeValid(w', x) {
      assert NodeValid(w, x);
    }
    forall x, prefix | x in w.nodes ensures Unshadowed(w, x, prefix) ==> Unshadowed(w', x, prefix) {
      UnshadowedApart(w, m, observed, x, prefix);
    }
    forall x, name | x in w.nodes ensures Query(w', x, name) == Query(w, x, name) {
      QueryApart(w, m, observed, x, name);
    }
  }

  lemma {:induction false} QueryApart(w: World, m: nat, observed: map<string, seq<nat>>, x: nat, name: string)
    requires Valid(w) && m in w.nodes && x in w.nodes && Valid(WithWatchers(w, m, observed))
    ensures Query(WithWatchers(w, m, observed), x, name) == Query(w, x, name)
    decreases w.nodes[x].rank
  {
    assert NodeValid(w, x) && NodeValid(WithWatchers(w, m, observed), x);
    if w.nodes[x].parent.Some? {
      QueryApart(w, m, observed, w.nodes[x].parent.value, name);
    }
  }

  lemma {:induction false} ClearApart(w: World, m: nat, observed: map<string, seq<nat>>, x: nat, prefix: string)
    requires Valid(w) && m in w.nodes && x in w.nodes && Valid(WithWatchers(w, m, observed))
    ensures Clear(WithWatchers(w, m, observed), x, prefix) <==> Clear(w, x, prefix)
    decreases w.nodes[x].rank
  {
    assert NodeValid(w, x) && NodeValid(WithWatchers(w, m, observed), x);
    if w.nodes[x].parent.Some? {
      ClearApart(w, m, observed, w.nodes[x].parent.value, prefix);
    }
  }

  lemma {:induction false} UnshadowedApart(w: World, m: nat, observed: map<string, seq<nat>>, x: nat, prefix: string)
    requires Valid(w) && m in w.nodes && x in w.nodes && Valid(WithWatchers(w, m, observed))
    ensures Unshadowed(WithWatchers(w, m, observed), x, prefix) <==> Unshadowed(w, x, prefix)
    decreases w.nodes[x].rank
  {
    assert NodeValid(w, x) && NodeValid(WithWatchers(w, m, observed), x);
    if w.nodes[x].parent.Some? {
      ClearApart(w, m, observed, w.nodes[x].parent.value, prefix);
      UnshadowedApart(w, m, observed, w.nodes[x].parent.value, prefix);
    }
  }

  // ---- Signals ----

  /** A signal of a muxer, and the watchers it called before. */
  datatype Signal = Signal(at: nat, ev: Event, told: seq<nat>)

  datatype AccelSignal = AccelSignal(at: nat, name: string, key: string, told: seq<nat>)

  /** The events of the signals of one muxer. */
  function EventsAt(sent: List<Signal>, x: nat): List<Event> {
    match sent
    case Nil => Nil
    case Snoc(init, s) => if s.at == x then Snoc(EventsAt(init, x), s.ev) else EventsAt(init, x)
  }

  lemma {:induction false} EventsAtConcat(a: List<Signal>, b: List<Signal>, x: nat)
    ensures EventsAt(Concat(a, b), x) == Concat(EventsAt(a, x), EventsAt(b, x))
  {
    if b.Snoc? {
      EventsAtConcat(a, b.init, x);
    }
  }

  /** Every signal called the watchers that its muxer has for its action, in their order. */
  ghost predicate RightlyTold(w: World, sent: List<Signal>) {
    sent.Snoc? ==>
      && RightlyTold(w, sent.init)
      && sent.last.at in w.nodes
      && sent.last.told == Watchers(w.nodes[sent.last.at].observed, sent.last.ev.name)
  }

  lemma {:induction false} RightlyConcat(w: World, a: List<Signal>, b: List<Signal>)
    requires RightlyTold(w, a) && RightlyTold(w, b)
    ensures RightlyTold(w, Concat(a, b))
  {
    if b.Snoc? {
      RightlyConcat(w, a, b.init);
    }
  }

  ghost predicate SameWatchers(w: World, w': World) {
    w'.nodes.Keys == w.nodes.Keys && forall x :: x in w.nodes ==> w'.nodes[x].observed == w.nodes[x].observed
  }

  lemma {:induction false} RightlyStays(w: World, w': World, sent: List<Signal>)
    requires RightlyTold(w, sent) && SameWatchers(w, w')
    ensures RightlyTold(w', sent)
  {
    if sent.Snoc? {
      RightlyStays(w, w', sent.init);
    }
  }

  // ---- What one watcher hears ----

  function Times(ev: Event, n: nat): List<Event> {
    if n == 0 then Nil else Snoc(Times(ev, n - 1), ev)
  }

  /** The calls that signals made to one watcher of x. */
  function CallsTo(sent: List<Signal>, x: nat, observer: nat): List<Event> {
    match sent
    case Nil => Nil
    case Snoc(init, s) =>
      if s.at == x then Concat(CallsTo(init, x, observer), Times(s.ev, multiset(s.told)[observer]))
      else CallsTo(init, x, observer)
  }

  /** The calls that the events of a muxer make to one watcher, by its registrations. */
  function Hears(observed: map<string, seq<nat>>, evs: List<Event>, observer: nat): List<Event> {
    match evs
    case Nil => Nil
    case Snoc(init, ev) =>
      Concat(Hears(observed, init, observer), Times(ev, Registrations(observed, ev.name, observer)))
  }

  /** Rightly told signals make exactly those calls. */
  lemma {:induction false} CallsAreHeard(w: World, sent: List<Signal>, x: nat, observer: nat)
    requires RightlyTold(w, sent) && x in w.nodes
    ensures CallsTo(sent, x, observer) == Hears(w.nodes[x].observed, EventsAt(sent, x), observer)
  {
    if sent.Snoc? {
      CallsAreHeard(w, sent.init, x, observer);
    }
  }

  lemma {:induction false} ToldTimes(name: string, view: Option<Info>, ev: Event, n: nat)
    ensures ToldAll(name, view, Times(ev, n)) == if n == 0 then view else Told(name, view, ev)
  {
    if n > 0 {
      ToldTimes(name, view, ev, n - 1);
    }
  }

  /** However often an observer is registered, its calls teach it what the events say; one that is not registered
      for the action learns nothing about it. */
  lemma {:induction false} HearsAll(observed: map<string, seq<nat>>, name: string, view: Option<Info>, evs: List<Event>,
                                    observer: nat)
    ensures ToldAll(name, view, Hears(observed, evs, observer)) ==
      if Registrations(observed, name, observer) > 0 then ToldAll(name, view, evs) else view
  {
    if evs.Snoc? {
      var before, n := Hears(observed, evs.init, observer), Registrations(observed, evs.last.name, observer);
      HearsAll(observed, name, view, evs.init, observer);
      ToldConcat(name, view, before, Times(evs.last, n));
      ToldTimes(name, ToldAll(name, view, before), evs.last, n);
    }
  }
}
