/** What shadowed prefixes cost: the exact conditions under which a removal, an insertion, a move or a group change leaves
    observers informed. */
module MuxerShadowLaws {
  import opened MuxerLaws
  import opened MuxerParentLaws
  import opened MuxerSpec
  import opened Options
  import opened SnocLists

  /** The nearest muxer from x to the root with a group under the prefix. */
  ghost function Holder(w: World, x: nat, prefix: string): (h: Option<nat>)
    requires Valid(w) && x in w.nodes
    ensures h.Some? ==> h.value in w.nodes && prefix in w.nodes[h.value].groups && w.nodes[h.value].groups[prefix] in w.actions
    decreases w.nodes[x].rank
  {
    assert NodeValid(w, x);
    if prefix in w.nodes[x].groups then Some(x)
    else if w.nodes[x].parent.Some? then Holder(w, w.nodes[x].parent.value, prefix)
    else None
  }

  ghost function HeldActions(w: World, x: nat, prefix: string): map<string, Info>
    requires Valid(w) && x in w.nodes
  {
    var h := Holder(w, x, prefix);
    if h.None? then map[] else w.actions[w.nodes[h.value].groups[prefix]]
  }

  lemma {:induction false} HolderDecides(w: World, x: nat, name: string)
    requires Valid(w) && x in w.nodes && Prefixed(name)
    ensures
      var held := HeldActions(w, x, PrefixOf(name));
      Query(w, x, name) == if BareName(name) in held then Some(held[BareName(name)]) else None
    decreases w.nodes[x].rank
  {
    assert NodeValid(w, x);
    if w.nodes[x].parent.Some? {
      HolderDecides(w, w.nodes[x].parent.value, name);
    }
  }

  lemma {:induction false} HolderWithout(w: World, m: nat, prefix: string, x: nat, q: string)
    requires Valid(w) && m in w.nodes && x in w.nodes && Valid(WithoutGroup(w, m, prefix))
    ensures q != prefix || Holder(w, x, q) != Some(m) ==>
      HeldActions(WithoutGroup(w, m, prefix), x, q) == HeldActions(w, x, q)
    ensures !OnChain(w, m, x) ==> Holder(w, x, q) != Some(m)
    decreases w.nodes[x].rank
  {
    assert NodeValid(w, x) && NodeValid(WithoutGroup(w, m, prefix), x);
    if w.nodes[x].parent.Some? {
      HolderWithout(w, m, prefix, w.nodes[x].parent.value, q);
    }
  }

  /** x is told right: no other group under the prefix answers for x, except that one nearer to x than m may have
      actions of other names. */
  ghost predicate Harmless(w: World, m: nat, prefix: string, x: nat)
    requires Valid(w) && m in w.nodes && x in w.nodes && Valid(WithoutGroup(w, m, prefix))
    requires prefix in w.nodes[m].groups && w.nodes[m].groups[prefix] in w.actions
  {
    var others := HeldActions(WithoutGroup(w, m, prefix), x, prefix);
    if Holder(w, x, prefix) == Some(m) then others == map[]
    else others.Keys !! w.actions[w.nodes[m].groups[prefix]].Keys
  }

  ghost predicate ToldRight(w: World, m: nat, prefix: string, actions: List<string>, x: nat, name: string)
    requires Valid(w) && m in w.nodes && x in w.nodes && Valid(WithoutGroup(w, m, prefix))
  {
    var w' := WithoutGroup(w, m, prefix);
    ToldAll(name, Query(w, x, name), RemovedAt(w', m, x, FullNames(prefix, actions))) == Query(w', x, name)
  }

  ghost predicate Setting(w: World, m: nat, prefix: string, actions: List<string>) {
    && Valid(w) && m in w.nodes && prefix in w.nodes[m].groups && Valid(WithoutGroup(w, m, prefix))
    && w.nodes[m].groups[prefix] in w.actions && '.' !in prefix && Enumerates(w, w.nodes[m].groups[prefix], actions)
  }

  lemma ToldRightElsewhere(w: World, m: nat, prefix: string, actions: List<string>, x: nat, name: string)
    requires Setting(w, m, prefix, actions) && x in w.nodes
    requires !OnChain(w, m, x) || !Prefixed(name) || PrefixOf(name) != prefix
    ensures ToldRight(w, m, prefix, actions, x, name)
  {
    var w' := WithoutGroup(w, m, prefix);
    ToldRemovals(w', m, x, FullNames(prefix, actions), name, Query(w, x, name));
    FullNamesContain(prefix, actions, name);
    ChainSame(w, w', m, x);
    if Prefixed(name) {
      HolderDecides(w, x, name);
      HolderDecides(w', x, name);
      HolderWithout(w, m, prefix, x, PrefixOf(name));
    } else {
      ClearQuery(w, x, name);
      ClearQuery(w', x, name);
    }
  }

  /** Below m, for one action of the prefix. */
  lemma ToldRightBelow(w: World, m: nat, prefix: string, actions: List<string>, x: nat, action: string)
    requires Setting(w, m, prefix, actions) && x in w.nodes && OnChain(w, m, x)
    ensures
      var others := HeldActions(WithoutGroup(w, m, prefix), x, prefix);
      var removed := w.actions[w.nodes[m].groups[prefix]];
      ToldRight(w, m, prefix, actions, x, FullName(prefix, action)) <==>
        (Holder(w, x, prefix) == Some(m) || action in removed ==> action !in others)
  {
    var w', name := WithoutGroup(w, m, prefix), FullName(prefix, action);
    NameParts(prefix, action);
    ToldRemovals(w', m, x, FullNames(prefix, actions), name, Query(w, x, name));
    FullNamesContain(prefix, actions, name);
    ChainSame(w, w', m, x);
    HolderDecides(w, x, name);
    HolderDecides(w', x, name);
    HolderWithout(w, m, prefix, x, prefix);
  }

  /** Removing a group leaves every observer knowing what a fresh query answers if and only if, for every muxer at
      or below, it is harmless. */
  lemma RemoveAgreesIff(w: World, m: nat, prefix: string, actions: List<string>)
    requires Setting(w, m, prefix, actions)
    ensures
      (forall x, name :: x in w.nodes ==> ToldRight(w, m, prefix, actions, x, name)) <==>
      (forall x :: x in w.nodes && OnChain(w, m, x) ==> Harmless(w, m, prefix, x))
  {
    if forall x, name :: x in w.nodes ==> ToldRight(w, m, prefix, actions, x, name) {
      forall x | x in w.nodes && OnChain(w, m, x) ensures Harmless(w, m, prefix, x) {
        var others := HeldActions(WithoutGroup(w, m, prefix), x, prefix);
        forall action | action in others ensures Holder(w, x, prefix) != Some(m)
          && action !in w.actions[w.nodes[m].groups[prefix]]
        {
          assert ToldRight(w, m, prefix, actions, x, FullName(prefix, action));
          ToldRightBelow(w, m, prefix, actions, x, action);
        }
      }
    } else {
      var x, name :| x in w.nodes && !ToldRight(w, m, prefix, actions, x, name);
      if !OnChain(w, m, x) || !Prefixed(name) || PrefixOf(name) != prefix {
        ToldRightElsewhere(w, m, prefix, actions, x, name);
      } else {
        NameWhole(name);
        ToldRightBelow(w, m, prefix, actions, x, BareName(name));
        assert !Harmless(w, m, prefix, x);
      }
    }
  }

  /** An inner muxer has its own group under the outer one's prefix, with an action of the same name. */
  function Shadowed(): World {
    var info := Info("", true, None);
    World(map[0 := Node(map["app" := 0], map[], map[], None, 0), 1 := Node(map["app" := 1], map[], map[], Some(0), 1)],
          map[0 := map["quit" := info], 1 := map["quit" := info]])
  }

  /** Removing the outer group tells the inner observer that its action is gone, while it is not. */
  lemma ShadowedDisagrees()
    ensures
      var w, actions := Shadowed(), Snoc(Nil, "quit");
      && Setting(w, 0, "app", actions) && !ToldRight(w, 0, "app", actions, 1, "app.quit")
  {
    var w, actions := Shadowed(), Snoc(Nil, "quit");
    assert NodeValid(w, 0) && NodeValid(w, 1);
    WithoutGroupValid(w, 0, "app");
    assert OnChain(w, 0, 0);
    assert OnChain(w, 0, 1);
    assert forall a :: Contains(actions, a) <==> a == "quit";
    assert FullName("app", "quit") == "app.quit";
    ToldRightBelow(w, 0, "app", actions, 1, "quit");
    assert Holder(WithoutGroup(w, 0, "app"), 1, "app") == Some(1);
  }

  // ---- Inserting ----

  ghost predicate Inserts(w: World, m: nat, prefix: string, g: nat, gone: List<string>, come: List<string>) {
    && Valid(w) && m in w.nodes && g in w.actions && '.' !in prefix && NodeValid(w, m) && Enumerates(w, g, come)
    && (prefix in w.nodes[m].groups ==> Enumerates(w, w.nodes[m].groups[prefix], gone))
    && Valid(Freed(w, m, prefix)) && Valid(Inserted(w, m, prefix, g))
  }

  function Inserted(w: World, m: nat, prefix: string, g: nat): World
    requires m in w.nodes
  {
    WithGroup(Freed(w, m, prefix), m, prefix, g)
  }

  /** The actions of the group that is replaced. */
  function Replaced(w: World, m: nat, prefix: string): map<string, Info>
    requires m in w.nodes
  {
    if prefix in w.nodes[m].groups && w.nodes[m].groups[prefix] in w.actions then w.actions[w.nodes[m].groups[prefix]]
    else map[]
  }

  /** The actions that the parent of x has under the prefix. */
  ghost function ActionsAbove(w: World, x: nat, prefix: string): map<string, Info>
    requires Valid(w) && x in w.nodes
  {
    assert NodeValid(w, x);
    if w.nodes[x].parent.None? then map[] else HeldActions(w, w.nodes[x].parent.value, prefix)
  }

  /** Which muxer answers under the prefix once the group is inserted, for one at or below m. */
  lemma {:induction false} InsertHolder(w: World, m: nat, prefix: string, g: nat, gone: List<string>, come: List<string>,
                                        x: nat)
    requires Inserts(w, m, prefix, g, gone, come) && x in w.nodes && OnChain(w, m, x)
    ensures
      var w' := Inserted(w, m, prefix, g);
      && w'.nodes[x].parent == w.nodes[x].parent
      && if Holder(w', x, prefix) == Some(m) then
           && HeldActions(w', x, prefix) == w.actions[g]
           && (prefix in w.nodes[m].groups ==> HeldActions(w, x, prefix) == Replaced(w, m, prefix))
           && (x != m ==> Holder(w', w.nodes[x].parent.value, prefix) == Some(m) && prefix !in w.nodes[x].groups)
         else x != m && HeldActions(w', x, prefix) == HeldActions(w, x, prefix)
    decreases w.nodes[x].rank
  {
    assert NodeValid(w, x) && NodeValid(Inserted(w, m, prefix, g), x);
    if x != m && prefix !in w.nodes[x].groups {
      InsertHolder(w, m, prefix, g, gone, come, w.nodes[x].parent.value);
    }
  }

  /** What an observer of x makes of the insertion is right, as far as one action of the prefix goes: if the new group
      answers x, it has what was answered from further up before, unless it replaces another; if a nearer group
      answers x, that group loses nothing to the removals, and the additions say of it what it says itself. */
  ghost predicate InsertFits(w: World, m: nat, prefix: string, g: nat, x: nat, action: string)
    requires Valid(w) && m in w.nodes && x in w.nodes && g in w.actions && Valid(Inserted(w, m, prefix, g))
  {
    var w' := Inserted(w, m, prefix, g);
    var own, above := HeldActions(w, x, prefix), ActionsAbove(w', x, prefix);
    var gone, come := action in Replaced(w, m, prefix), action in w.actions[g];
    if Holder(w', x, prefix) == Some(m) then prefix in w.nodes[m].groups || come || action !in own
    else if prefix in w.nodes[x].groups && come && action in above then action in own && own[action] == above[action]
    else gone && action in own ==> come && prefix !in w.nodes[x].groups
  }

  ghost predicate InsertToldRight(w: World, m: nat, prefix: string, g: nat, gone: List<string>, come: List<string>,
                                  x: nat, name: string)
    requires Inserts(w, m, prefix, g, gone, come) && x in w.nodes
  {
    ToldAll(name, Query(w, x, name), InsertedAt(w, m, x, prefix, g, gone, come)) ==
      Query(Inserted(w, m, prefix, g), x, name)
  }

  /** What an observer of x makes of an insertion. */
  lemma InsertTold(w: World, m: nat, prefix: string, g: nat, gone: List<string>, come: List<string>, x: nat, name: string)
    requires Inserts(w, m, prefix, g, gone, come) && x in w.nodes
    ensures
      var w' := Inserted(w, m, prefix, g);
      ToldAll(name, Query(w, x, name), InsertedAt(w, m, x, prefix, g, gone, come)) ==
        if !(OnChain(w, m, x) && Prefixed(name) && PrefixOf(name) == prefix) then Query(w, x, name)
        else
          var action := BareName(name);
          var info := Described(w', m, x, name, Lookup(w', g, action));
          if action in w.actions[g] && info.Some? then info
          else if action in Replaced(w, m, prefix) then None
          else Query(w, x, name)
  {
    hide Query, Lookup, OnChain;
    var w1, w', view := Freed(w, m, prefix), Inserted(w, m, prefix, g), Query(w, x, name);
    var removals := if prefix in w.nodes[m].groups then RemovedAt(w1, m, x, FullNames(prefix, gone)) else Nil;
    ToldConcat(name, view, removals, GroupAddedAt(w', m, x, prefix, g, come));
    ChainSame(w, w', m, x);
    ChainSame(w, w1, m, x);
    if prefix in w.nodes[m].groups {
      ToldRemovals(w1, m, x, FullNames(prefix, gone), name, view);
      FullNamesContain(prefix, gone, name);
    }
    ToldGroupAdditions(w', m, x, prefix, g, come, name, ToldAll(name, view, removals));
  }

  lemma InsertElsewhere(w: World, m: nat, prefix: string, g: nat, gone: List<string>, come: List<string>, x: nat,
                        name: string)
    requires Inserts(w, m, prefix, g, gone, come) && x in w.nodes
    requires !(OnChain(w, m, x) && Prefixed(name) && PrefixOf(name) == prefix)
    ensures InsertToldRight(w, m, prefix, g, gone, come, x, name)
  {
    var w1 := Freed(w, m, prefix);
    InsertTold(w, m, prefix, g, gone, come, x, name);
    ChainSame(w, w1, m, x);
    WithGroupElsewhere(w1, m, prefix, g, x, name);
    if Prefixed(name) {
      HolderDecides(w, x, name);
      HolderDecides(w1, x, name);
      if prefix in w.nodes[m].groups {
        HolderWithout(w, m, prefix, x, PrefixOf(name));
      }
    } else {
      ClearQuery(w, x, name);
      ClearQuery(w1, x, name);
    }
  }

  lemma InsertBelow(w: World, m: nat, prefix: string, g: nat, gone: List<string>, come: List<string>, x: nat,
                    action: string)
    requires Inserts(w, m, prefix, g, gone, come) && x in w.nodes && OnChain(w, m, x)
    ensures InsertToldRight(w, m, prefix, g, gone, come, x, FullName(prefix, action)) <==>
      InsertFits(w, m, prefix, g, x, action)
  {
    var w', name := Inserted(w, m, prefix, g), FullName(prefix, action);
    NameParts(prefix, action);
    InsertTold(w, m, prefix, g, gone, come, x, name);
    InsertHolder(w, m, prefix, g, gone, come, x);
    HolderDecides(w, x, name);
    HolderDecides(w', x, name);
    assert NodeValid(w', x);
    if x != m {
      HolderDecides(w', w.nodes[x].parent.value, name);
    }
  }

  /** Inserting a group, in place of another or not, leaves every observer knowing what a fresh query answers if and
      only if it fits for every action and every muxer at or below. */
  lemma InsertAgreesIff(w: World, m: nat, prefix: string, g: nat, gone: List<string>, come: List<string>)
    requires Inserts(w, m, prefix, g, gone, come)
    ensures
      (forall x, name :: x in w.nodes ==> InsertToldRight(w, m, prefix, g, gone, come, x, name)) <==>
      (forall x, action :: x in w.nodes && OnChain(w, m, x) ==> InsertFits(w, m, prefix, g, x, action))
  {
    if forall x, name :: x in w.nodes ==> InsertToldRight(w, m, prefix, g, gone, come, x, name) {
      forall x, action | x in w.nodes && OnChain(w, m, x) ensures InsertFits(w, m, prefix, g, x, action) {
        assert InsertToldRight(w, m, prefix, g, gone, come, x, FullName(prefix, action));
        InsertBelow(w, m, prefix, g, gone, come, x, action);
      }
    } else {
      var x, name :| x in w.nodes && !InsertToldRight(w, m, prefix, g, gone, come, x, name);
      if !(OnChain(w, m, x) && Prefixed(name) && PrefixOf(name) == prefix) {
        InsertElsewhere(w, m, prefix, g, gone, come, x, name);
      } else {
        NameWhole(name);
        InsertBelow(w, m, prefix, g, gone, come, x, BareName(name));
        assert !InsertFits(w, m, prefix, g, x, BareName(name));
      }
    }
  }

  // ---- Moving ----

  ghost predicate MovesWith(w: World, m: nat, parent: Option<nat>, gone: List<string>, come: List<string>) {
    && Moves(w, m, parent) && NodeValid(w, m)
    && (w.nodes[m].parent.Some? ==> EnumeratesAll(w, w.nodes[m].parent.value, gone))
    && (parent.Some? ==> EnumeratesAll(WithParent(w, m, parent), parent.value, come))
  }

  /** What a muxer answers it lists, shadowed or not. */
  lemma {:induction false} AnsweredIsListed(w: World, x: nat, name: string)
    requires Valid(w) && x in w.nodes && Query(w, x, name).Some?
    ensures Lists(w, x, name) && Prefixed(name)
    decreases w.nodes[x].rank
  {
    assert NodeValid(w, x);
    var n := w.nodes[x];
    if Prefixed(name) && PrefixOf(name) in n.groups {
      NameWhole(name);
      assert ListedUnder(w, n.groups[PrefixOf(name)], PrefixOf(name), name);
    } else {
      AnsweredIsListed(w, n.parent.value, name);
    }
  }

  /** The new parent of m lists the name. */
  ghost predicate Comes(w: World, m: nat, parent: Option<nat>, name: string)
    requires Moves(w, m, parent)
  {
    parent.Some? && Lists(WithParent(w, m, parent), parent.value, name)
  }

  /** The old one does. */
  ghost predicate Goes(w: World, m: nat, name: string)
    requires Valid(w) && m in w.nodes
  {
    assert NodeValid(w, m);
    w.nodes[m].parent.Some? && Lists(w, w.nodes[m].parent.value, name)
  }

  /** What an observer of x makes of the move is right, as far as one name goes. It is unless a muxer from x up to m
      has a group of its own under the prefix: then what that group answers is not lost with the old parent's names
      or comes back with the new one's, and if the group is that of x, the new names say of it what it says itself. */
  ghost predicate MoveFits(w: World, m: nat, parent: Option<nat>, x: nat, name: string)
    requires Moves(w, m, parent) && x in w.nodes
  {
    OnChain(w, m, x) && Prefixed(name) && Inside(w, m, x, PrefixOf(name)) ==>
      var own, above := Query(w, x, name), Above(WithParent(w, m, parent), x, name);
      if PrefixOf(name) !in w.nodes[x].groups then own.Some? && Goes(w, m, name) ==> Comes(w, m, parent, name)
      else if Comes(w, m, parent, name) && above.Some? then own == above
      else Goes(w, m, name) ==> own == None
  }

  ghost predicate MoveToldRight(w: World, m: nat, parent: Option<nat>, gone: List<string>, come: List<string>,
                                x: nat, name: string)
    requires MovesWith(w, m, parent, gone, come) && x in w.nodes
  {
    ToldAll(name, Query(w, x, name), ReparentedAt(w, m, parent, x, gone, come)) ==
      Query(WithParent(w, m, parent), x, name)
  }

  /** What an observer of x makes of a move. */
  lemma MoveTold(w: World, m: nat, parent: Option<nat>, gone: List<string>, come: List<string>, x: nat, name: string)
    requires MovesWith(w, m, parent, gone, come) && x in w.nodes
    ensures
      ToldAll(name, Query(w, x, name), ReparentedAt(w, m, parent, x, gone, come)) ==
        if !OnChain(w, m, x) then Query(w, x, name)
        else if Comes(w, m, parent, name) && Above(WithParent(w, m, parent), x, name).Some?
        then Above(WithParent(w, m, parent), x, name)
        else if Goes(w, m, name) then None
        else Query(w, x, name)
  {
    var w', view := WithParent(w, m, parent), Query(w, x, name);
    var removals := if w.nodes[m].parent.Some? then RemovedAt(w, m, x, gone) else Nil;
    var additions := if parent.Some? then ParentAddedAt(w', m, x, parent.value, come) else Nil;
    ToldConcat(name, view, removals, additions);
    MovedChain(w, m, parent, x);
    assert NodeValid(w, x) && NodeValid(w', x) && NodeValid(w', m);
    if w.nodes[m].parent.Some? {
      ToldRemovals(w, m, x, gone, name, view);
    }
    if parent.Some? {
      ToldParentAdditions(w', m, x, parent.value, come, name, ToldAll(name, view, removals));
    }
  }

  lemma MoveTellsRightIff(w: World, m: nat, parent: Option<nat>, gone: List<string>, come: List<string>, x: nat,
                          name: string)
    requires MovesWith(w, m, parent, gone, come) && x in w.nodes
    ensures MoveToldRight(w, m, parent, gone, come, x, name) <==> MoveFits(w, m, parent, x, name)
  {
    var w' := WithParent(w, m, parent);
    MoveTold(w, m, parent, gone, come, x, name);
    MovedChain(w, m, parent, x);
    if !OnChain(w, m, x) {
      OutsideSame(w, m, parent, x, name);
    } else if Prefixed(name) && Inside(w, m, x, PrefixOf(name)) {
      MoveInside(w, m, parent, x, name);
    } else {
      MoveOutside(w, m, parent, x, name);
    }
  }

  /** With a group of its own for the name below m, x answers as before, and asks its parent unless it has it itself. */
  lemma MoveInside(w: World, m: nat, parent: Option<nat>, x: nat, name: string)
    requires Moves(w, m, parent) && x in w.nodes && OnChain(w, m, x) && OnChain(WithParent(w, m, parent), m, x)
    requires Prefixed(name) && Inside(w, m, x, PrefixOf(name))
    ensures Query(WithParent(w, m, parent), x, name) == Query(w, x, name)
    ensures PrefixOf(name) !in w.nodes[x].groups ==> Above(WithParent(w, m, parent), x, name) == Query(w, x, name)
  {
    var w' := WithParent(w, m, parent);
    assert NodeValid(w, x) && NodeValid(w', x);
    InsideSame(w, m, parent, x, name);
  }

  /** Without one it answers what the parent of m does. */
  lemma MoveOutside(w: World, m: nat, parent: Option<nat>, x: nat, name: string)
    requires Moves(w, m, parent) && x in w.nodes && OnChain(w, m, x) && OnChain(WithParent(w, m, parent), m, x)
    requires Prefixed(name) ==> !Inside(w, m, x, PrefixOf(name))
    ensures
      var w' := WithParent(w, m, parent);
      && Above(w', x, name) == Query(w', x, name)
      && (Query(w', x, name).Some? ==> Comes(w, m, parent, name))
      && (Query(w, x, name).Some? ==> Goes(w, m, name))
  {
    var w' := WithParent(w, m, parent);
    assert NodeValid(w, x) && NodeValid(w', x) && NodeValid(w, m) && NodeValid(w', m);
    if Prefixed(name) {
      InsideSame(w, m, parent, x, name);
    }
    OutsideAnswersAbove(w, m, x, name);
    OutsideAnswersAbove(w', m, x, name);
    if Above(w', m, name).Some? {
      AnsweredIsListed(w', parent.value, name);
    }
    if Above(w, m, name).Some? {
      AnsweredIsListed(w, w.nodes[m].parent.value, name);
    }
  }

  /** Moving a muxer leaves every observer knowing what a fresh query answers if and only if it fits for every name and
      every muxer. */
  lemma ReparentAgreesIff(w: World, m: nat, parent: Option<nat>, gone: List<string>, come: List<string>)
    requires MovesWith(w, m, parent, gone, come)
    ensures
      (forall x, name :: x in w.nodes ==> MoveToldRight(w, m, parent, gone, come, x, name)) <==>
      (forall x, name :: x in w.nodes ==> MoveFits(w, m, parent, x, name))
  {
    forall x, name | x in w.nodes
      ensures MoveToldRight(w, m, parent, gone, come, x, name) <==> MoveFits(w, m, parent, x, name)
    {
      MoveTellsRightIff(w, m, parent, gone, come, x, name);
    }
  }

  // ---- Changes inside a group ----

  ghost predicate Changes(w: World, g: nat, action: string, change: Change, handlers: List<(nat, string)>) {
    && Valid(w) && g in w.actions && Possible(w.actions[g], action, change) && Connected(w, g, handlers)
    && Valid(WithChange(w, g, action, change))
  }

  /** The muxer at or above x whose handler forwards the name to x last. */
  ghost function LastForwarder(w: World, handlers: List<(nat, string)>, x: nat, action: string, name: string): Option<nat>
    requires Valid(w) && x in w.nodes
  {
    if handlers.Nil? then None
    else if OnChain(w, handlers.last.0, x) && FullName(handlers.last.1, action) == name then Some(handlers.last.0)
    else LastForwarder(w, handlers.init, x, action, name)
  }

  /** The changed group answers x for the name. */
  ghost predicate Answers(w: World, g: nat, action: string, x: nat, name: string)
    requires Valid(w) && x in w.nodes && Prefixed(name)
  {
    var h := Holder(w, x, PrefixOf(name));
    BareName(name) == action && h.Some? && w.nodes[h.value].groups[PrefixOf(name)] == g
  }

  /** What an observer of x makes of the change is right, as far as one name goes. It is if the name is not forwarded to
      x. If the changed group answers x, an addition must not be followed by one that describes another group further
      up. If a nearer group answers x, that group must be as the change says. */
  ghost predicate ChangeFits(w: World, g: nat, action: string, change: Change, handlers: List<(nat, string)>, x: nat,
                             name: string)
    requires Changes(w, g, action, change, handlers) && x in w.nodes
  {
    var w' := WithChange(w, g, action, change);
    Forwarded(w', handlers, x, action, name) && Prefixed(name) ==>
      var own, above := Query(w, x, name), Above(w', x, name);
      if Answers(w, g, action, x, name) then
        change.AddAction? && PrefixOf(name) in w.nodes[x].groups && above.Some? ==>
          LastForwarder(w', handlers, x, action, name) == Some(x) || above == Some(change.info)
      else
        match change
        case AddAction(_) => PrefixOf(name) in w.nodes[x].groups && above.Some? ==> own == above
        case RemoveAction => own == None
        case SetEnabled(enabled) => own.Some? ==> own.value.enabled == enabled
        case SetState(state) => own.Some? ==> own.value.state == state
  }

  ghost predicate ChangeToldRight(w: World, g: nat, action: string, change: Change, handlers: List<(nat, string)>, x: nat,
                                  name: string)
    requires Changes(w, g, action, change, handlers) && x in w.nodes
  {
    var w' := WithChange(w, g, action, change);
    ToldAll(name, Query(w, x, name), ChangeAt(w', handlers, x, g, action, change)) == Query(w', x, name)
  }

  lemma {:induction false} ToldPlain(w: World, handlers: List<(nat, string)>, x: nat, g: nat, action: string,
                                     change: Change, name: string, view: Option<Info>)
    requires Valid(w) && x in w.nodes && g in w.actions && !change.AddAction?
    ensures ToldAll(name, view, ChangeAt(w, handlers, x, g, action, change)) ==
      if Forwarded(w, handlers, x, action, name) then Expected(view, change) else view
  {
    if handlers.Snoc? {
      ToldPlain(w, handlers.init, x, g, action, change, name, view);
    }
  }

  ghost predicate ForwardsItself(handlers: List<(nat, string)>, x: nat, action: string, name: string) {
    && handlers.Snoc?
    && ((handlers.last.0 == x && FullName(handlers.last.1, action) == name)
        || ForwardsItself(handlers.init, x, action, name))
  }

  /** Additions: x describes its own group when its own handler runs, and what its parent answers for any other. */
  lemma {:induction false} ToldAddition(w: World, handlers: List<(nat, string)>, x: nat, g: nat, action: string,
                                        change: Change, name: string, view: Option<Info>)
    requires Valid(w) && x in w.nodes && g in w.actions && change.AddAction?
    requires Lookup(w, g, action) == Some(change.info)
    ensures
      var above, last := Above(w, x, name), LastForwarder(w, handlers, x, action, name);
      ToldAll(name, view, ChangeAt(w, handlers, x, g, action, change)) ==
        if last == None then view
        else if above.Some? then (if last == Some(x) then Some(change.info) else above)
        else if ForwardsItself(handlers, x, action, name) then Some(change.info)
        else view
    ensures LastForwarder(w, handlers, x, action, name) == None <==> !Forwarded(w, handlers, x, action, name)
    ensures ForwardsItself(handlers, x, action, name) ==> Forwarded(w, handlers, x, action, name)
    ensures LastForwarder(w, handlers, x, action, name) == Some(x) ==> ForwardsItself(handlers, x, action, name)
  {
    if handlers.Snoc? {
      ToldAddition(w, handlers.init, x, g, action, change, name, view);
      assert NodeValid(w, x);
      assert OnChain(w, x, x);
    }
  }

  lemma {:induction false} SelfForwarderIs(handlers: List<(nat, string)>, x: nat, action: string, name: string)
    returns (prefix: string)
    requires ForwardsItself(handlers, x, action, name)
    ensures Contains(handlers, (x, prefix)) && FullName(prefix, action) == name
  {
    if handlers.last.0 == x && FullName(handlers.last.1, action) == name {
      prefix := handlers.last.1;
      assert handlers.last == (x, prefix);
    } else {
      prefix := SelfForwarderIs(handlers.init, x, action, name);
    }
  }

  lemma {:induction false} SelfForwards(handlers: List<(nat, string)>, x: nat, prefix: string, action: string)
    requires Contains(handlers, (x, prefix))
    ensures ForwardsItself(handlers, x, action, FullName(prefix, action))
  {
    if handlers.last != (x, prefix) {
      SelfForwards(handlers.init, x, prefix, action);
    }
  }

  lemma {:induction false} SameHolder(w: World, w': World, x: nat, prefix: string)
    requires Valid(w) && Valid(w') && w'.nodes == w.nodes && x in w.nodes
    ensures Holder(w', x, prefix) == Holder(w, x, prefix)
    ensures Holder(w, x, prefix).Some? ==> OnChain(w, Holder(w, x, prefix).value, x)
    decreases w.nodes[x].rank
  {
    assert NodeValid(w, x) && NodeValid(w', x);
    if w.nodes[x].parent.Some? {
      SameHolder(w, w', w.nodes[x].parent.value, prefix);
    }
  }

  lemma AnswerChanges(w: World, g: nat, action: string, change: Change, handlers: List<(nat, string)>, x: nat,
                      name: string)
    requires Changes(w, g, action, change, handlers) && x in w.nodes && Prefixed(name)
    ensures
      var w' := WithChange(w, g, action, change);
      if Answers(w, g, action, x, name) then
        && Query(w', x, name) == Expected(Query(w, x, name), change)
        && Forwarded(w', handlers, x, action, name)
      else Query(w', x, name) == Query(w, x, name)
  {
    var w', prefix := WithChange(w, g, action, change), PrefixOf(name);
    HolderDecides(w, x, name);
    HolderDecides(w', x, name);
    SameHolder(w, w', x, prefix);
    if Answers(w, g, action, x, name) {
      var h := Holder(w, x, prefix).value;
      NameWhole(name);
      SameTree(w, w', h, x, prefix);
      ForwardedIff(w', handlers, x, action, name);
      assert InsertedUnder(w, g, h, prefix);
      assert Contains(handlers, (h, prefix));
    }
  }

  lemma AdditionTellsRightIff(w: World, g: nat, action: string, change: Change, handlers: List<(nat, string)>, x: nat,
                              name: string)
    requires Changes(w, g, action, change, handlers) && x in w.nodes && Prefixed(name) && change.AddAction?
    ensures ChangeToldRight(w, g, action, change, handlers, x, name) <==>
      ChangeFits(w, g, action, change, handlers, x, name)
  {
    var w', prefix := WithChange(w, g, action, change), PrefixOf(name);
    ToldAddition(w', handlers, x, g, action, change, name, Query(w, x, name));
    AnswerChanges(w, g, action, change, handlers, x, name);
    assert NodeValid(w, x) && NodeValid(w', x);
    if ForwardsItself(handlers, x, action, name) {
      var q := SelfForwarderIs(handlers, x, action, name);
      assert InsertedUnder(w, g, x, q) && '.' !in q;
      NameParts(q, action);
      assert Answers(w, g, action, x, name);
    }
    if Answers(w, g, action, x, name) && prefix in w.nodes[x].groups {
      NameWhole(name);
      assert InsertedUnder(w, g, x, prefix);
      SelfForwards(handlers, x, prefix, action);
    }
  }

  lemma ChangeTellsRightIff(w: World, g: nat, action: string, change: Change, handlers: List<(nat, string)>, x: nat,
                            name: string)
    requires Changes(w, g, action, change, handlers) && x in w.nodes
    ensures ChangeToldRight(w, g, action, change, handlers, x, name) <==>
      ChangeFits(w, g, action, change, handlers, x, name)
  {
    var w' := WithChange(w, g, action, change);
    if !Prefixed(name) {
      UnprefixedUntold(w', handlers, x, g, action, change, name, Query(w, x, name));
      ClearQuery(w, x, name);
      ClearQuery(w', x, name);
    } else if change.AddAction? {
      AdditionTellsRightIff(w, g, action, change, handlers, x, name);
    } else {
      ToldPlain(w', handlers, x, g, action, change, name, Query(w, x, name));
      AnswerChanges(w, g, action, change, handlers, x, name);
    }
  }

  lemma {:induction false} UnprefixedUntold(w: World, handlers: List<(nat, string)>, x: nat, g: nat, action: string,
                                            change: Change, name: string, view: Option<Info>)
    requires Valid(w) && x in w.nodes && g in w.actions && !Prefixed(name)
    ensures ToldAll(name, view, ChangeAt(w, handlers, x, g, action, change)) == view
  {
    if handlers.Snoc? {
      UnprefixedUntold(w, handlers.init, x, g, action, change, name, view);
      assert FullName(handlers.last.1, action)[|handlers.last.1|] == '.';
    }
  }

  /** A change in a group leaves every observer knowing what a fresh query answers if and only if it fits for every
      name and every muxer. */
  lemma ChangeAgreesIff(w: World, g: nat, action: string, change: Change, handlers: List<(nat, string)>)
    requires Changes(w, g, action, change, handlers)
    ensures
      (forall x, name :: x in w.nodes ==> ChangeToldRight(w, g, action, change, handlers, x, name)) <==>
      (forall x, name :: x in w.nodes ==> ChangeFits(w, g, action, change, handlers, x, name))
  {
    forall x, name | x in w.nodes
      ensures ChangeToldRight(w, g, action, change, handlers, x, name) <==>
        ChangeFits(w, g, action, change, handlers, x, name)
    {
      ChangeTellsRightIff(w, g, action, change, handlers, x, name);
    }
  }
}
