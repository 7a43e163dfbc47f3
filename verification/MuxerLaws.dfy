/** Observers of a muxer tree know what a fresh query would tell them. */
module MuxerLaws {
  import opened MuxerSpec
  import opened Options
  import opened SnocLists

  // ---- Names ----

  lemma {:induction false} IndexOfFirst(prefix: string, c: char, rest: string)
    requires c !in prefix
    ensures IndexOf(prefix + [c] + rest, c) == Some(|prefix|)
  {
    var s := prefix + [c] + rest;
    if prefix != "" {
      assert s[1..] == prefix[1..] + [c] + rest;
      IndexOfFirst(prefix[1..], c, rest);
    }
  }

  /** A full name is taken apart at its first dot, whatever the action is called. */
  lemma NameParts(prefix: string, action: string)
    requires '.' !in prefix
    ensures
      var name := FullName(prefix, action);
      Prefixed(name) && PrefixOf(name) == prefix && BareName(name) == action
  {
    var name := FullName(prefix, action);
    assert name == prefix + ['.'] + action;
    IndexOfFirst(prefix, '.', action);
    assert name[|prefix|] == '.';
    assert name[..|prefix|] == prefix && name[|prefix| + 1..] == action;
  }

  lemma NameWhole(name: string)
    requires Prefixed(name)
    ensures name == FullName(PrefixOf(name), BareName(name)) && '.' !in PrefixOf(name)
  {
  }

  // ---- Chains ----

  lemma {:induction false} ClearIsUnshadowed(w: World, x: nat, prefix: string)
    requires Valid(w) && x in w.nodes && Clear(w, x, prefix)
    ensures Unshadowed(w, x, prefix)
    decreases w.nodes[x].rank
  {
    assert NodeValid(w, x);
    if w.nodes[x].parent.Some? {
      ClearIsUnshadowed(w, w.nodes[x].parent.value, prefix);
    }
  }

  lemma {:induction false} ClearOnChain(w: World, m: nat, x: nat, prefix: string)
    requires Valid(w) && x in w.nodes && Clear(w, x, prefix) && OnChain(w, m, x)
    ensures m in w.nodes && prefix !in w.nodes[m].groups
    decreases w.nodes[x].rank
  {
    assert NodeValid(w, x);
    if m != x {
      ClearOnChain(w, m, w.nodes[x].parent.value, prefix);
    }
  }

  lemma {:induction false} ClearQuery(w: World, x: nat, name: string)
    requires Valid(w) && x in w.nodes && (Prefixed(name) ==> Clear(w, x, PrefixOf(name)))
    ensures Query(w, x, name) == None
    decreases w.nodes[x].rank
  {
    assert NodeValid(w, x);
    if w.nodes[x].parent.Some? {
      ClearQuery(w, w.nodes[x].parent.value, name);
    }
  }

  /** The one group under the prefix answers. */
  lemma {:induction false} HolderAnswers(w: World, m: nat, x: nat, name: string)
    requires Valid(w) && x in w.nodes && m in w.nodes && OnChain(w, m, x)
    requires Prefixed(name) && PrefixOf(name) in w.nodes[m].groups && Unshadowed(w, x, PrefixOf(name))
    ensures NodeValid(w, m) && Query(w, x, name) == Lookup(w, w.nodes[m].groups[PrefixOf(name)], BareName(name))
    decreases w.nodes[x].rank
  {
    assert NodeValid(w, x);
    if m != x {
      var p := w.nodes[x].parent.value;
      if PrefixOf(name) in w.nodes[x].groups {
        ClearOnChain(w, m, p, PrefixOf(name));
      }
      HolderAnswers(w, m, p, name);
    }
  }

  // ---- What is told by lists of events ----

  lemma {:induction false} ToldRemovals(w: World, m: nat, x: nat, names: List<string>, name: string, view: Option<Info>)
    requires Valid(w) && x in w.nodes
    ensures ToldAll(name, view, RemovedAt(w, m, x, names)) ==
      if OnChain(w, m, x) && Contains(names, name) then None else view
  {
    if names.Snoc? {
      ToldRemovals(w, m, x, names.init, name, view);
    }
  }

  lemma {:induction false} ToldGroupAdditions(w: World, m: nat, x: nat, prefix: string, g: nat, actions: List<string>,
                                              name: string, view: Option<Info>)
    requires Valid(w) && x in w.nodes && g in w.actions && '.' !in prefix
    ensures
      var action := if Prefixed(name) then BareName(name) else "";
      var info := Described(w, m, x, name, Lookup(w, g, action));
      ToldAll(name, view, GroupAddedAt(w, m, x, prefix, g, actions)) ==
        if OnChain(w, m, x) && Prefixed(name) && PrefixOf(name) == prefix && Contains(actions, action) && info.Some?
        then info else view
  {
    if actions.Snoc? {
      ToldGroupAdditions(w, m, x, prefix, g, actions.init, name, view);
      NameParts(prefix, actions.last);
      if Prefixed(name) {
        NameWhole(name);
      }
    }
  }

  lemma {:induction false} ToldParentAdditions(w: World, m: nat, x: nat, p: nat, names: List<string>, name: string,
                                               view: Option<Info>)
    requires Valid(w) && x in w.nodes && p in w.nodes
    ensures
      var info := Described(w, m, x, name, Query(w, p, name));
      ToldAll(name, view, ParentAddedAt(w, m, x, p, names)) ==
        if OnChain(w, m, x) && Contains(names, name) && info.Some? then info else view
  {
    if names.Snoc? {
      ToldParentAdditions(w, m, x, p, names.init, name, view);
    }
  }

  lemma {:induction false} FullNamesContain(prefix: string, actions: List<string>, name: string)
    requires '.' !in prefix
    ensures Contains(FullNames(prefix, actions), name) <==>
      Prefixed(name) && PrefixOf(name) == prefix && Contains(actions, BareName(name))
  {
    if actions.Snoc? {
      FullNamesContain(prefix, actions.init, name);
      NameParts(prefix, actions.last);
      if Prefixed(name) {
        NameWhole(name);
      }
    }
  }

  // ---- Removing a group ----

  lemma WithoutGroupValid(w: World, m: nat, prefix: string)
    requires Valid(w) && m in w.nodes
    ensures Valid(WithoutGroup(w, m, prefix))
  {
    var w' := WithoutGroup(w, m, prefix);
    forall x | x in w'.nodes ensures NodeValid(w', x) {
      assert NodeValid(w, x);
    }
  }

  /** Chains do not depend on the groups. */
  lemma {:induction false} ChainSame(w: World, w': World, m: nat, x: nat)
    requires Valid(w) && Valid(w') && x in w.nodes && w'.nodes.Keys == w.nodes.Keys
    requires forall y :: y in w.nodes ==> w'.nodes[y].parent == w.nodes[y].parent
    ensures OnChain(w', m, x) <==> OnChain(w, m, x)
    decreases w.nodes[x].rank
  {
    assert NodeValid(w, x) && NodeValid(w', x);
    if w.nodes[x].parent.Some? {
      ChainSame(w, w', m, w.nodes[x].parent.value);
    }
  }

  lemma {:induction false} WithoutGroupClear(w: World, m: nat, prefix: string, x: nat, q: string)
    requires Valid(w) && m in w.nodes && x in w.nodes && Valid(WithoutGroup(w, m, prefix))
    ensures Clear(w, x, q) ==> Clear(WithoutGroup(w, m, prefix), x, q)
    decreases w.nodes[x].rank
  {
    assert NodeValid(w, x) && NodeValid(WithoutGroup(w, m, prefix), x);
    if w.nodes[x].parent.Some? {
      WithoutGroupClear(w, m, prefix, w.nodes[x].parent.value, q);
    }
  }

  lemma {:induction false} WithoutGroupUnshadowed(w: World, m: nat, prefix: string, x: nat, q: string)
    requires Valid(w) && m in w.nodes && x in w.nodes && Valid(WithoutGroup(w, m, prefix))
    requires Unshadowed(w, x, q)
    ensures Unshadowed(WithoutGroup(w, m, prefix), x, q)
    decreases w.nodes[x].rank
  {
    var w' := WithoutGroup(w, m, prefix);
    assert NodeValid(w, x) && NodeValid(w', x);
    if w.nodes[x].parent.Some? {
      var p := w.nodes[x].parent.value;
      WithoutGroupClear(w, m, prefix, p, q);
      if q in w.nodes[x].groups {
        ClearIsUnshadowed(w', p, q);
      } else {
        WithoutGroupUnshadowed(w, m, prefix, p, q);
      }
    }
  }

  lemma {:induction false} WithoutGroupQuery(w: World, m: nat, prefix: string, x: nat, name: string)
    requires Valid(w) && m in w.nodes && x in w.nodes && Valid(WithoutGroup(w, m, prefix))
    requires prefix in w.nodes[m].groups && (Prefixed(name) ==> Unshadowed(w, x, PrefixOf(name)))
    ensures Query(WithoutGroup(w, m, prefix), x, name) ==
      if OnChain(w, m, x) && Prefixed(name) && PrefixOf(name) == prefix then None else Query(w, x, name)
    decreases w.nodes[x].rank
  {
    var w' := WithoutGroup(w, m, prefix);
    assert NodeValid(w, x) && NodeValid(w', x);
    if w.nodes[x].parent.Some? {
      var p := w.nodes[x].parent.value;
      if Prefixed(name) && PrefixOf(name) in w.nodes[x].groups {
        ClearIsUnshadowed(w, p, PrefixOf(name));
        if OnChain(w, m, p) {
          ClearOnChain(w, m, p, PrefixOf(name));
        }
        WithoutGroupClear(w, m, prefix, p, PrefixOf(name));
        ClearQuery(w', p, name);
      } else {
        WithoutGroupQuery(w, m, prefix, p, name);
      }
    }
  }

  /** Removing a group tells every observer, at the muxer or below it, what a fresh query now answers. */
  lemma RemoveAgrees(w: World, m: nat, prefix: string, actions: List<string>, x: nat, name: string)
    requires Valid(w) && NoShadow(w) && m in w.nodes && x in w.nodes && prefix in w.nodes[m].groups
    requires NodeValid(w, m) && Enumerates(w, w.nodes[m].groups[prefix], actions)
    ensures
      var w' := WithoutGroup(w, m, prefix);
      && Valid(w') && NoShadow(w')
      && ToldAll(name, Query(w, x, name), RemovedAt(w', m, x, FullNames(prefix, actions))) == Query(w', x, name)
  {
    var w' := WithoutGroup(w, m, prefix);
    WithoutGroupValid(w, m, prefix);
    forall y, q | y in w'.nodes ensures Unshadowed(w', y, q) {
      WithoutGroupUnshadowed(w, m, prefix, y, q);
    }
    assert Prefixed(name) ==> Unshadowed(w, x, PrefixOf(name));
    WithoutGroupQuery(w, m, prefix, x, name);
    ToldRemovals(w', m, x, FullNames(prefix, actions), name, Query(w, x, name));
    FullNamesContain(prefix, actions, name);
    ChainSame(w, w', m, x);
    if OnChain(w, m, x) && Prefixed(name) && PrefixOf(name) == prefix {
      HolderAnswers(w, m, x, name);
    }
  }

  // ---- Inserting a group ----

  lemma {:induction false} ToldConcat(name: string, view: Option<Info>, a: List<Event>, b: List<Event>)
    ensures ToldAll(name, view, Concat(a, b)) == ToldAll(name, ToldAll(name, view, a), b)
  {
    if b.Snoc? {
      ToldConcat(name, view, a, b.init);
    }
  }

  lemma WithGroupValid(w: World, m: nat, prefix: string, g: nat)
    requires Valid(w) && m in w.nodes && g in w.actions && '.' !in prefix
    ensures Valid(WithGroup(w, m, prefix, g))
  {
    var w' := WithGroup(w, m, prefix, g);
    forall x | x in w'.nodes ensures NodeValid(w', x) {
      assert NodeValid(w, x);
    }
  }

  lemma {:induction false} WithGroupElsewhere(w: World, m: nat, prefix: string, g: nat, x: nat, name: string)
    requires Valid(w) && m in w.nodes && x in w.nodes && Valid(WithGroup(w, m, prefix, g))
    requires !(OnChain(w, m, x) && Prefixed(name) && PrefixOf(name) == prefix)
    ensures Query(WithGroup(w, m, prefix, g), x, name) == Query(w, x, name)
    decreases w.nodes[x].rank
  {
    assert NodeValid(w, x) && NodeValid(WithGroup(w, m, prefix, g), x);
    if w.nodes[x].parent.Some? {
      WithGroupElsewhere(w, m, prefix, g, w.nodes[x].parent.value, name);
    }
  }

  /** Adding a group under a free prefix. */
  lemma AddAgrees(w: World, m: nat, prefix: string, g: nat, actions: List<string>, x: nat, name: string)
    requires Valid(w) && m in w.nodes && x in w.nodes && g in w.actions && '.' !in prefix
    requires NoShadow(w) && prefix !in w.nodes[m].groups && Enumerates(w, g, actions)
    requires Valid(WithGroup(w, m, prefix, g)) && NoShadow(WithGroup(w, m, prefix, g))
    ensures
      var w' := WithGroup(w, m, prefix, g);
      ToldAll(name, Query(w, x, name), GroupAddedAt(w', m, x, prefix, g, actions)) == Query(w', x, name)
  {
    var w' := WithGroup(w, m, prefix, g);
    assert NodeValid(w', x);
    ToldGroupAdditions(w', m, x, prefix, g, actions, name, Query(w, x, name));
    ChainSame(w, w', m, x);
    if OnChain(w, m, x) && Prefixed(name) && PrefixOf(name) == prefix {
      HolderAnswers(w', m, x, name);
      if x != m {
        var p := w'.nodes[x].parent.value;
        HolderAnswers(w', m, p, name);
      }
      NoneBefore(w, m, prefix, g, x, name);
    } else {
      WithGroupElsewhere(w, m, prefix, g, x, name);
    }
  }

  /** Before the group was added no muxer on the chain had the prefix. */
  lemma {:induction false} NoneBefore(w: World, m: nat, prefix: string, g: nat, x: nat, name: string)
    requires Valid(w) && m in w.nodes && x in w.nodes && OnChain(w, m, x) && prefix !in w.nodes[m].groups
    requires Valid(WithGroup(w, m, prefix, g)) && Unshadowed(WithGroup(w, m, prefix, g), x, prefix)
    requires Prefixed(name) && PrefixOf(name) == prefix
    ensures Query(w, x, name) == None
    decreases w.nodes[x].rank
  {
    var w' := WithGroup(w, m, prefix, g);
    assert NodeValid(w, x) && NodeValid(w', x);
    if w.nodes[x].parent.Some? {
      var p := w.nodes[x].parent.value;
      if x == m {
        ClearBefore(w, m, prefix, g, p);
        ClearQuery(w, p, name);
      } else {
        if prefix in w'.nodes[x].groups {
          ChainSame(w, w', m, p);
          ClearOnChain(w', m, p, prefix);
        }
        NoneBefore(w, m, prefix, g, p, name);
      }
    }
  }

  lemma {:induction false} ClearBefore(w: World, m: nat, prefix: string, g: nat, x: nat)
    requires Valid(w) && m in w.nodes && x in w.nodes
    requires Valid(WithGroup(w, m, prefix, g)) && Clear(WithGroup(w, m, prefix, g), x, prefix)
    ensures Clear(w, x, prefix)
    decreases w.nodes[x].rank
  {
    assert NodeValid(w, x) && NodeValid(WithGroup(w, m, prefix, g), x);
    if w.nodes[x].parent.Some? {
      ClearBefore(w, m, prefix, g, w.nodes[x].parent.value);
    }
  }

  /** What is left of a tree once the prefix is free at m. */
  function Freed(w: World, m: nat, prefix: string): World
    requires m in w.nodes
  {
    if prefix in w.nodes[m].groups then WithoutGroup(w, m, prefix) else w
  }

  /** gtk_action_muxer_insert sends x the removals of the group it replaces and then the additions. */
  ghost function InsertedAt(w: World, m: nat, x: nat, prefix: string, g: nat, gone: List<string>, actions: List<string>)
    : List<Event>
    requires m in w.nodes && x in w.nodes && Valid(Freed(w, m, prefix)) && g in w.actions
    requires Valid(WithGroup(Freed(w, m, prefix), m, prefix, g))
  {
    Concat(if prefix in w.nodes[m].groups then RemovedAt(Freed(w, m, prefix), m, x, FullNames(prefix, gone)) else Nil,
           GroupAddedAt(WithGroup(Freed(w, m, prefix), m, prefix, g), m, x, prefix, g, actions))
  }

  /** Inserting a group, in place of an old one or not, tells every observer what a fresh query now answers. */
  lemma InsertAgrees(w: World, m: nat, prefix: string, g: nat, gone: List<string>, actions: List<string>,
                     x: nat, name: string)
    requires Valid(w) && NoShadow(w) && m in w.nodes && x in w.nodes && g in w.actions && '.' !in prefix
    requires NodeValid(w, m) && Enumerates(w, g, actions)
    requires prefix in w.nodes[m].groups ==> Enumerates(w, w.nodes[m].groups[prefix], gone)
    requires Valid(Freed(w, m, prefix)) && Valid(WithGroup(Freed(w, m, prefix), m, prefix, g))
    requires NoShadow(WithGroup(Freed(w, m, prefix), m, prefix, g))
    ensures
      var w' := WithGroup(Freed(w, m, prefix), m, prefix, g);
      ToldAll(name, Query(w, x, name), InsertedAt(w, m, x, prefix, g, gone, actions)) == Query(w', x, name)
  {
    var w1 := Freed(w, m, prefix);
    if prefix in w.nodes[m].groups {
      RemoveAgrees(w, m, prefix, gone, x, name);
    }
    ToldConcat(name, Query(w, x, name),
               if prefix in w.nodes[m].groups then RemovedAt(w1, m, x, FullNames(prefix, gone)) else Nil,
               GroupAddedAt(WithGroup(w1, m, prefix, g), m, x, prefix, g, actions));
    AddAgrees(w1, m, prefix, g, actions, x, name);
  }

  // ---- Changes inside a group ----

  datatype Change =
    | AddAction(info: Info)
    | RemoveAction
    | SetEnabled(enabled: bool)
    | SetState(state: Option<string>)

  /** A change a group can announce: it adds actions it does not have and changes those it has. */
  predicate Possible(actions: map<string, Info>, action: string, change: Change) {
    change.AddAction? <==> action !in actions
  }

  function Changed(actions: map<string, Info>, action: string, change: Change): map<string, Info>
    requires Possible(actions, action, change)
  {
    match change
    case AddAction(info) => actions[action := info]
    case RemoveAction => actions - {action}
    case SetEnabled(enabled) => actions[action := actions[action].(enabled := enabled)]
    case SetState(state) => actions[action := actions[action].(state := state)]
  }

  function WithChange(w: World, g: nat, action: string, change: Change): World
    requires g in w.actions && Possible(w.actions[g], action, change)
  {
    w.(actions := w.actions[g := Changed(w.actions[g], action, change)])
  }

  /** The handlers a group has: one for each muxer and prefix it was inserted at. */
  ghost predicate Connected(w: World, g: nat, handlers: List<(nat, string)>) {
    forall m, prefix :: Contains(handlers, (m, prefix)) <==> InsertedUnder(w, g, m, prefix)
  }

  predicate InsertedUnder(w: World, g: nat, m: nat, prefix: string) {
    m in w.nodes && prefix in w.nodes[m].groups && w.nodes[m].groups[prefix] == g
  }

  /** What x is told when the group announces the change and its handlers run. */
  ghost function ChangeAt(w: World, handlers: List<(nat, string)>, x: nat, g: nat, action: string, change: Change)
    : List<Event>
    requires Valid(w) && x in w.nodes && g in w.actions
  {
    match handlers
    case Nil => Nil
    case Snoc(init, (m, prefix)) =>
      var before := ChangeAt(w, init, x, g, action, change);
      var name := FullName(prefix, action);
      if !OnChain(w, m, x) then before
      else
        match change
        case AddAction(_) =>
          var info := Described(w, m, x, name, Lookup(w, g, action));
          if info.Some? then Snoc(before, Added(name, info.value)) else before
        case RemoveAction => Snoc(before, Removed(name))
        case SetEnabled(enabled) => Snoc(before, EnabledChanged(name, enabled))
        case SetState(state) => Snoc(before, StateChanged(name, state))
  }

  /** One of the handlers forwards the name to x. */
  ghost predicate Forwarded(w: World, handlers: List<(nat, string)>, x: nat, action: string, name: string)
    requires Valid(w) && x in w.nodes
  {
    && handlers.Snoc?
    && ((OnChain(w, handlers.last.0, x) && FullName(handlers.last.1, action) == name)
        || Forwarded(w, handlers.init, x, action, name))
  }

  /** What an observer that knows the old answer makes of the change. */
  function Expected(view: Option<Info>, change: Change): Option<Info> {
    match change
    case AddAction(info) => Some(info)
    case RemoveAction => None
    case SetEnabled(enabled) => if view.Some? then Some(view.value.(enabled := enabled)) else None
    case SetState(state) => if view.Some? then Some(view.value.(state := state)) else None
  }

  ghost predicate AllInserted(w: World, g: nat, handlers: List<(nat, string)>) {
    handlers.Snoc? ==> InsertedUnder(w, g, handlers.last.0, handlers.last.1) && AllInserted(w, g, handlers.init)
  }

  /** The group is described alike to every muxer it reaches. */
  lemma DescribedAlike(w: World, m: nat, x: nat, prefix: string, g: nat, action: string)
    requires Valid(w) && NoShadow(w) && x in w.nodes && g in w.actions && InsertedUnder(w, g, m, prefix)
    requires OnChain(w, m, x)
    ensures Described(w, m, x, FullName(prefix, action), Lookup(w, g, action)) == Lookup(w, g, action)
  {
    assert NodeValid(w, x) && NodeValid(w, m);
    NameParts(prefix, action);
    if x != m {
      var p := w.nodes[x].parent.value;
      assert Unshadowed(w, p, prefix);
      HolderAnswers(w, m, p, FullName(prefix, action));
    }
  }

  lemma {:induction false} ToldChange(w: World, handlers: List<(nat, string)>, x: nat, g: nat, action: string,
                                      change: Change, name: string, view: Option<Info>)
    requires Valid(w) && NoShadow(w) && x in w.nodes && g in w.actions && AllInserted(w, g, handlers)
    requires change.AddAction? ==> Lookup(w, g, action) == Some(change.info)
    ensures ToldAll(name, view, ChangeAt(w, handlers, x, g, action, change)) ==
      if Forwarded(w, handlers, x, action, name) then Expected(view, change) else view
  {
    if handlers.Snoc? {
      ToldChange(w, handlers.init, x, g, action, change, name, view);
      if OnChain(w, handlers.last.0, x) {
        DescribedAlike(w, handlers.last.0, x, handlers.last.1, g, action);
      }
    }
  }

  lemma {:induction false} ConnectedAreInserted(w: World, g: nat, all: List<(nat, string)>, handlers: List<(nat, string)>)
    requires Connected(w, g, all) && forall h :: Contains(handlers, h) ==> Contains(all, h)
    ensures AllInserted(w, g, handlers)
  {
    if handlers.Snoc? {
      assert Contains(handlers, handlers.last);
      assert Contains(all, (handlers.last.0, handlers.last.1));
      forall h | Contains(handlers.init, h) ensures Contains(all, h) {
        assert Contains(handlers, h);
      }
      ConnectedAreInserted(w, g, all, handlers.init);
    }
  }

  lemma {:induction false} ForwardedIff(w: World, handlers: List<(nat, string)>, x: nat, action: string, name: string)
    requires Valid(w) && x in w.nodes
    ensures Forwarded(w, handlers, x, action, name) <==>
      exists m, prefix :: Contains(handlers, (m, prefix)) && OnChain(w, m, x) && FullName(prefix, action) == name
  {
    if handlers.Snoc? {
      ForwardedIff(w, handlers.init, x, action, name);
      assert Contains(handlers, (handlers.last.0, handlers.last.1));
      if Forwarded(w, handlers.init, x, action, name) {
        var m, prefix :| Contains(handlers.init, (m, prefix)) && OnChain(w, m, x) && FullName(prefix, action) == name;
        assert Contains(handlers, (m, prefix));
      }
    }
  }

  /** The groups' contents decide nothing about the tree. */
  lemma {:induction false} SameTree(w: World, w': World, m: nat, x: nat, prefix: string)
    requires Valid(w) && Valid(w') && w'.nodes == w.nodes && x in w.nodes
    ensures OnChain(w', m, x) <==> OnChain(w, m, x)
    ensures Clear(w', x, prefix) <==> Clear(w, x, prefix)
    ensures Unshadowed(w', x, prefix) <==> Unshadowed(w, x, prefix)
    decreases w.nodes[x].rank
  {
    assert NodeValid(w, x) && NodeValid(w', x);
    if w.nodes[x].parent.Some? {
      SameTree(w, w', m, w.nodes[x].parent.value, prefix);
    }
  }

  /** Some muxer on the chain has the prefix, or none has. */
  lemma {:induction false} HolderOrClear(w: World, x: nat, prefix: string) returns (m: nat)
    requires Valid(w) && x in w.nodes
    ensures m in w.nodes
    ensures Clear(w, x, prefix) || (OnChain(w, m, x) && prefix in w.nodes[m].groups)
    decreases w.nodes[x].rank
  {
    assert NodeValid(w, x);
    m := x;
    if prefix !in w.nodes[x].groups && w.nodes[x].parent.Some? {
      m := HolderOrClear(w, w.nodes[x].parent.value, prefix);
    }
  }

  lemma WithChangeValid(w: World, g: nat, action: string, change: Change)
    requires Valid(w) && NoShadow(w) && g in w.actions && Possible(w.actions[g], action, change)
    ensures Valid(WithChange(w, g, action, change)) && NoShadow(WithChange(w, g, action, change))
  {
    var w' := WithChange(w, g, action, change);
    forall x | x in w'.nodes ensures NodeValid(w', x) {
      assert NodeValid(w, x);
    }
    forall x, prefix | x in w'.nodes ensures Unshadowed(w', x, prefix) {
      SameTree(w, w', x, x, prefix);
    }
  }

  /** Whatever changes in a group, all observers are told what a fresh query now answers. */
  lemma ChangeAgrees(w: World, g: nat, action: string, change: Change, handlers: List<(nat, string)>, x: nat, name: string)
    requires Valid(w) && NoShadow(w) && g in w.actions && Possible(w.actions[g], action, change)
    requires Connected(w, g, handlers) && x in w.nodes
    ensures
      var w' := WithChange(w, g, action, change);
      && Valid(w') && NoShadow(w')
      && ToldAll(name, Query(w, x, name), ChangeAt(w', handlers, x, g, action, change)) == Query(w', x, name)
  {
    var w' := WithChange(w, g, action, change);
    WithChangeValid(w, g, action, change);
    assert Connected(w', g, handlers) by {
      assert forall m, prefix :: InsertedUnder(w', g, m, prefix) <==> InsertedUnder(w, g, m, prefix);
    }
    ConnectedAreInserted(w', g, handlers, handlers);
    ToldChange(w', handlers, x, g, action, change, name, Query(w, x, name));
    ForwardedIff(w', handlers, x, action, name);
    if Prefixed(name) {
      ChangedAnswer(w, g, action, change, handlers, x, name);
    } else {
      ClearQuery(w, x, name);
      ClearQuery(w', x, name);
      forall m, prefix | Contains(handlers, (m, prefix)) ensures FullName(prefix, action) != name {
        assert NodeValid(w', m);
        NameParts(prefix, action);
      }
    }
  }

  lemma ChangedAnswer(w: World, g: nat, action: string, change: Change, handlers: List<(nat, string)>, x: nat, name: string)
    requires Valid(w) && NoShadow(w) && g in w.actions && Possible(w.actions[g], action, change)
    requires Connected(w, g, handlers) && x in w.nodes && Prefixed(name)
    requires Valid(WithChange(w, g, action, change)) && NoShadow(WithChange(w, g, action, change))
    ensures
      var w' := WithChange(w, g, action, change);
      Query(w', x, name) ==
        if (exists m, prefix :: Contains(handlers, (m, prefix)) && OnChain(w', m, x) && FullName(prefix, action) == name)
        then Expected(Query(w, x, name), change) else Query(w, x, name)
  {
    var w', prefix := WithChange(w, g, action, change), PrefixOf(name);
    NameWhole(name);
    var m := HolderOrClear(w, x, prefix);
    SameTree(w, w', m, x, prefix);
    assert Unshadowed(w, x, prefix) && Unshadowed(w', x, prefix);
    forall n, q | Contains(handlers, (n, q)) && OnChain(w', n, x) && FullName(q, action) == name
      ensures !Clear(w, x, prefix) && n == m && q == prefix && BareName(name) == action && w.nodes[m].groups[prefix] == g
    {
      assert InsertedUnder(w, g, n, q) && NodeValid(w, n);
      NameParts(q, action);
      SameTree(w, w', n, x, prefix);
      if Clear(w, x, prefix) {
        ClearOnChain(w, n, x, prefix);
      }
      HolderUnique(w, m, n, x, prefix);
    }
    if Clear(w, x, prefix) {
      ClearQuery(w, x, name);
      ClearQuery(w', x, name);
    } else {
      HolderAnswers(w, m, x, name);
      HolderAnswers(w', m, x, name);
      if w.nodes[m].groups[prefix] == g && BareName(name) == action {
        assert InsertedUnder(w, g, m, prefix);
        assert Contains(handlers, (m, prefix)) && OnChain(w', m, x) && FullName(prefix, action) == name;
      }
    }
  }

  lemma {:induction false} HolderUnique(w: World, m: nat, n: nat, x: nat, prefix: string)
    requires Valid(w) && x in w.nodes && m in w.nodes && n in w.nodes && Unshadowed(w, x, prefix)
    requires OnChain(w, m, x) && OnChain(w, n, x) && prefix in w.nodes[m].groups && prefix in w.nodes[n].groups
    ensures m == n
    decreases w.nodes[x].rank
  {
    assert NodeValid(w, x);
    if m != n {
      var p := w.nodes[x].parent.value;
      if prefix in w.nodes[x].groups {
        ClearOnChain(w, if m == x then n else m, p, prefix);
      } else {
        HolderUnique(w, m, n, p, prefix);
      }
    }
  }
}
