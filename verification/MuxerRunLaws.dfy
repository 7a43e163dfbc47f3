/** Whole runs of a muxer tree. */
module MuxerRunLaws {
  import opened MuxerLaws
  import opened MuxerParentLaws
  import opened MuxerShadowLaws
  import opened MuxerSignals
  import opened MuxerSpec
  import opened Options
  import opened SnocLists

  /** A change to the tree or to a group, with the orders in which its tables are walked, or to who watches an action
      of a muxer. */
  datatype Op =
    | Insert(m: nat, prefix: string, g: nat, gone: List<string>, come: List<string>)
    | Remove(m: nat, prefix: string, gone: List<string>)
    | Change(g: nat, action: string, change: MuxerLaws.Change, handlers: List<(nat, string)>)
    | Move(m: nat, parent: Option<nat>, gone: List<string>, come: List<string>)
    | Register(m: nat, name: string, observer: nat)
    | Unregister(m: nat, name: string, observer: nat)

  /** The change can be made. */
  ghost predicate Sound(w: World, op: Op) {
    match op
    case Insert(m, prefix, g, gone, come) => Inserts(w, m, prefix, g, gone, come)
    case Remove(m, prefix, gone) => Setting(w, m, prefix, gone)
    case Change(g, action, change, handlers) => Changes(w, g, action, change, handlers)
    case Move(m, parent, gone, come) => MovesWith(w, m, parent, gone, come)
    case Register(m, _, _) => Valid(w) && m in w.nodes
    case Unregister(m, name, _) => Valid(w) && m in w.nodes && name in w.nodes[m].observed
  }

  /** Shadowed prefixes do no harm to the change. */
  ghost predicate Fits(w: World, op: Op)
    requires Sound(w, op)
  {
    match op
    case Insert(m, prefix, g, _, _) =>
      forall x, action :: x in w.nodes && OnChain(w, m, x) ==> InsertFits(w, m, prefix, g, x, action)
    case Remove(m, prefix, _) => forall x :: x in w.nodes && OnChain(w, m, x) ==> Harmless(w, m, prefix, x)
    case Change(g, action, change, handlers) =>
      forall x, name :: x in w.nodes ==> ChangeFits(w, g, action, change, handlers, x, name)
    case Move(m, parent, _, _) => forall x, name :: x in w.nodes ==> MoveFits(w, m, parent, x, name)
    case _ => true
  }

  ghost predicate Allowed(w: World, op: Op) {
    Sound(w, op) && Fits(w, op)
  }

  ghost function After(w: World, op: Op): World
    requires Sound(w, op)
  {
    match op
    case Insert(m, prefix, g, _, _) => Inserted(w, m, prefix, g)
    case Remove(m, prefix, _) => WithoutGroup(w, m, prefix)
    case Change(g, action, change, _) => WithChange(w, g, action, change)
    case Move(m, parent, _, _) => WithParent(w, m, parent)
    case Register(m, name, observer) => WithWatchers(w, m, MuxerSignals.Registered(w.nodes[m].observed, name, observer))
    case Unregister(m, name, observer) =>
      WithWatchers(w, m, MuxerSignals.Unregistered(w.nodes[m].observed, name, observer))
  }

  lemma SoundValid(w: World, op: Op)
    requires Sound(w, op)
    ensures Valid(w) && Valid(After(w, op)) && After(w, op).nodes.Keys == w.nodes.Keys
  {
    match op
    case Register(m, n, o) => WatchersApart(w, m, MuxerSignals.Registered(w.nodes[m].observed, n, o));
    case Unregister(m, n, o) => WatchersApart(w, m, MuxerSignals.Unregistered(w.nodes[m].observed, n, o));
    case _ =>
  }

  /** The events of x. */
  ghost function SentTo(w: World, op: Op, x: nat): List<Event>
    requires Sound(w, op) && x in w.nodes
  {
    match op
    case Insert(m, prefix, g, gone, come) => InsertedAt(w, m, x, prefix, g, gone, come)
    case Remove(m, prefix, gone) => RemovedAt(WithoutGroup(w, m, prefix), m, x, FullNames(prefix, gone))
    case Change(g, action, change, handlers) => ChangeAt(WithChange(w, g, action, change), handlers, x, g, action, change)
    case Move(m, parent, gone, come) => ReparentedAt(w, m, parent, x, gone, come)
    case _ => Nil
  }

  /** The events of one step lead x from the answer before it to the one after it. */
  ghost predicate Leads(w: World, op: Op, x: nat, name: string)
    requires Sound(w, op) && x in w.nodes && Valid(w) && Valid(After(w, op)) && x in After(w, op).nodes
  {
    ToldAll(name, Query(w, x, name), SentTo(w, op, x)) == Query(After(w, op), x, name)
  }

  /** They do so everywhere if and only if the change fits. */
  lemma StepAgreesIff(w: World, op: Op)
    requires Sound(w, op)
    ensures Valid(w) && Valid(After(w, op)) && After(w, op).nodes.Keys == w.nodes.Keys
    ensures (forall x, name :: x in w.nodes ==> Leads(w, op, x, name)) <==> Fits(w, op)
  {
    SoundValid(w, op);
    match op
    case Insert(m, prefix, g, gone, come) =>
      InsertAgreesIff(w, m, prefix, g, gone, come);
      assert forall x, name :: x in w.nodes ==>
        (Leads(w, op, x, name) <==> InsertToldRight(w, m, prefix, g, gone, come, x, name));
    case Remove(m, prefix, gone) =>
      RemoveAgreesIff(w, m, prefix, gone);
      assert forall x, name :: x in w.nodes ==>
        (Leads(w, op, x, name) <==> MuxerShadowLaws.ToldRight(w, m, prefix, gone, x, name));
    case Change(g, action, change, handlers) =>
      ChangeAgreesIff(w, g, action, change, handlers);
      assert forall x, name :: x in w.nodes ==>
        (Leads(w, op, x, name) <==> ChangeToldRight(w, g, action, change, handlers, x, name));
    case Move(m, parent, gone, come) =>
      ReparentAgreesIff(w, m, parent, gone, come);
      assert forall x, name :: x in w.nodes ==>
        (Leads(w, op, x, name) <==> MoveToldRight(w, m, parent, gone, come, x, name));
    case Register(m, n, o) => WatchersApart(w, m, MuxerSignals.Registered(w.nodes[m].observed, n, o));
    case Unregister(m, n, o) => WatchersApart(w, m, MuxerSignals.Unregistered(w.nodes[m].observed, n, o));
  }

  lemma StepAgrees(w: World, op: Op, x: nat, name: string)
    requires Allowed(w, op) && x in w.nodes
    ensures
      var w' := After(w, op);
      && Valid(w') && w'.nodes.Keys == w.nodes.Keys
      && ToldAll(name, Query(w, x, name), SentTo(w, op, x)) == Query(w', x, name)
  {
    StepAgreesIff(w, op);
    assert Leads(w, op, x, name);
  }

  /** Where no prefix occurs twice on a path to the root, before the change or after it, every change fits. */
  lemma UnshadowedFits(w: World, op: Op)
    requires Sound(w, op) && NoShadow(w) && Valid(After(w, op)) && NoShadow(After(w, op))
    ensures Fits(w, op)
  {
    StepAgreesIff(w, op);
    forall x, name | x in w.nodes ensures Leads(w, op, x, name) {
      match op
      case Insert(m, prefix, g, gone, come) => InsertAgrees(w, m, prefix, g, gone, come, x, name);
      case Remove(m, prefix, gone) => RemoveAgrees(w, m, prefix, gone, x, name);
      case Change(g, action, change, handlers) => ChangeAgrees(w, g, action, change, handlers, x, name);
      case Move(m, parent, gone, come) => ReparentAgrees(w, m, parent, gone, come, x, name);
      case Register(m, n, o) => WatchersApart(w, m, MuxerSignals.Registered(w.nodes[m].observed, n, o));
      case Unregister(m, n, o) => WatchersApart(w, m, MuxerSignals.Unregistered(w.nodes[m].observed, n, o));
    }
  }

  /** Nothing but registering and unregistering changes who watches what. */
  lemma StepWatchers(w: World, op: Op)
    requires Allowed(w, op) && !op.Register? && !op.Unregister?
    ensures SameWatchers(w, After(w, op))
  {
    hide Valid, NoShadow, NodeValid, Enumerates, EnumeratesAll, Connected, Possible, OnChain;
    var w' := After(w, op);
    forall x | x in w.nodes ensures x in w'.nodes && w'.nodes[x].observed == w.nodes[x].observed {
    }
  }

  // ---- One observer of one action ----

  /** The tree after a run, how often the observer has registered with x for the action and not unregistered since,
      and what it makes of the calls it got. */
  datatype Watching = Watching(w: World, times: nat, view: Option<Info>)

  /** The first registration asks for the action; after that the observer hears its calls alone. */
  ghost function Watched(t: Watching, op: Op, x: nat, name: string, observer: nat): Watching
    requires Allowed(t.w, op) && x in t.w.nodes
  {
    var w' := After(t.w, op);
    if op == Register(x, name, observer) then
      Watching(w', t.times + 1, if t.times == 0 then Query(t.w, x, name) else t.view)
    else if op == Unregister(x, name, observer) then
      Watching(w', if t.times > 0 then t.times - 1 else 0, t.view)
    else
      Watching(w', t.times, ToldAll(name, t.view, Hears(t.w.nodes[x].observed, SentTo(t.w, op, x), observer)))
  }

  /** The registrations are those of the muxer's table, and a registered observer knows the answer. */
  ghost predicate Knows(t: Watching, x: nat, name: string, observer: nat) {
    && Valid(t.w) && x in t.w.nodes
    && t.times == Registrations(t.w.nodes[x].observed, name, observer)
    && (t.times > 0 ==> t.view == Query(t.w, x, name))
  }

  lemma WatchedTimes(t: Watching, op: Op, x: nat, name: string, observer: nat)
    requires Allowed(t.w, op) && Knows(t, x, name, observer) && x in After(t.w, op).nodes
    ensures Watched(t, op, x, name, observer).times ==
      Registrations(After(t.w, op).nodes[x].observed, name, observer)
  {
    hide Valid, NoShadow, NodeValid, Enumerates, EnumeratesAll, Connected, Possible, Moves;
    hide WithParent, WithGroup, WithoutGroup, WithChange, Freed, Query, ToldAll, Hears, SentTo;
    hide MuxerSignals.Registered, MuxerSignals.Unregistered, Registrations;
    match op
    case Register(m, n, o) => RegisteredCounts(t.w.nodes[m].observed, n, o, name, observer);
    case Unregister(m, n, o) => UnregisteredCounts(t.w.nodes[m].observed, n, o, name, observer);
    case _ => StepWatchers(t.w, op);
  }

  lemma WatchedView(t: Watching, op: Op, x: nat, name: string, observer: nat)
    requires Allowed(t.w, op) && Knows(t, x, name, observer)
    requires Valid(After(t.w, op)) && x in After(t.w, op).nodes
    requires ToldAll(name, Query(t.w, x, name), SentTo(t.w, op, x)) == Query(After(t.w, op), x, name)
    ensures
      var t' := Watched(t, op, x, name, observer);
      t'.times > 0 ==> t'.view == Query(t'.w, x, name)
  {
    HearsAll(t.w.nodes[x].observed, name, t.view, SentTo(t.w, op, x), observer);
    hide Valid, Allowed, After, Registrations, Query, Hears;
  }

  lemma WatchedStep(t: Watching, op: Op, x: nat, name: string, observer: nat)
    requires Allowed(t.w, op) && Knows(t, x, name, observer)
    ensures Knows(Watched(t, op, x, name, observer), x, name, observer)
  {
    StepAgrees(t.w, op, x, name);
    hide Valid, Allowed, After, SentTo, Registrations, Query, Hears, ToldAll;
    WatchedTimes(t, op, x, name, observer);
    WatchedView(t, op, x, name, observer);
  }

  ghost predicate RunAllowed(t: Watching, x: nat, name: string, observer: nat, run: List<Op>)
    requires x in t.w.nodes
    decreases run, 0
  {
    run.Snoc? ==>
      && RunAllowed(t, x, name, observer, run.init)
      && var t' := Outcome(t, x, name, observer, run.init); x in t'.w.nodes && Allowed(t'.w, run.last)
  }

  ghost function Outcome(t: Watching, x: nat, name: string, observer: nat, run: List<Op>): Watching
    requires x in t.w.nodes && RunAllowed(t, x, name, observer, run)
    decreases run, 1
  {
    match run
    case Nil => t
    case Snoc(init, op) => Watched(Outcome(t, x, name, observer, init), op, x, name, observer)
  }

  /** After every run of inserts, removes, moves, group changes, registrations and unregistrations, of this observer
      and of others, in which every change fits, the muxer's table has exactly the registrations the observer has
      made and not taken back. While there are any, what it asked at the first of them and was called with since is
      what a fresh query on its muxer returns. */
  lemma {:induction false} ObserversKnow(t: Watching, x: nat, name: string, observer: nat, run: List<Op>)
    requires Knows(t, x, name, observer) && RunAllowed(t, x, name, observer, run)
    ensures Knows(Outcome(t, x, name, observer, run), x, name, observer)
  {
    if run.Snoc? {
      ObserversKnow(t, x, name, observer, run.init);
      WatchedStep(Outcome(t, x, name, observer, run.init), run.last, x, name, observer);
    }
  }

  /** From any tree, with an observer that is registered or not and has just asked. */
  lemma AnyObserverKnows(w: World, x: nat, name: string, observer: nat, run: List<Op>)
    requires Valid(w) && x in w.nodes
    requires
      var asked := Watching(w, Registrations(w.nodes[x].observed, name, observer), Query(w, x, name));
      RunAllowed(asked, x, name, observer, run)
    ensures
      var asked := Watching(w, Registrations(w.nodes[x].observed, name, observer), Query(w, x, name));
      var t := Outcome(asked, x, name, observer, run);
      && Valid(t.w) && x in t.w.nodes && t.times == Registrations(t.w.nodes[x].observed, name, observer)
      && (t.times > 0 ==> t.view == Query(t.w, x, name))
  {
    var asked := Watching(w, Registrations(w.nodes[x].observed, name, observer), Query(w, x, name));
    ObserversKnow(asked, x, name, observer, run);
  }

  /** Signals that reach x with the events of a step, and call the watchers in its table, take every registered
      observer from the answer before the step to the answer after it, and tell no other anything of the action. */
  lemma SignalsTeach(w: World, op: Op, sent: List<Signal>, x: nat, name: string, observer: nat, view: Option<Info>)
    requires Allowed(w, op) && x in w.nodes && EventsAt(sent, x) == SentTo(w, op, x) && RightlyTold(After(w, op), sent)
    ensures Valid(After(w, op)) && x in After(w, op).nodes
    ensures
      var registered := Registrations(w.nodes[x].observed, name, observer) > 0;
      && (registered ==> ToldAll(name, Query(w, x, name), CallsTo(sent, x, observer)) == Query(After(w, op), x, name))
      && (!registered ==> ToldAll(name, view, CallsTo(sent, x, observer)) == view)
  {
    StepAgrees(w, op, x, name);
    if !op.Register? && !op.Unregister? {
      StepWatchers(w, op);
    }
    CallsAreHeard(After(w, op), sent, x, observer);
    HearsAll(w.nodes[x].observed, name, Query(w, x, name), SentTo(w, op, x), observer);
    HearsAll(w.nodes[x].observed, name, view, SentTo(w, op, x), observer);
  }
}
