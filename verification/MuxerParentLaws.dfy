/** Moving a muxer to another parent. */
module MuxerParentLaws {
  import opened MuxerLaws
  import opened MuxerSpec
  import opened Options
  import opened SnocLists

  /** One of the muxers from x up to m has a group under the prefix. */
  ghost predicate Inside(w: World, m: nat, x: nat, prefix: string)
    requires Valid(w) && x in w.nodes && OnChain(w, m, x)
    decreases w.nodes[x].rank
  {
    assert NodeValid(w, x);
    prefix in w.nodes[x].groups || (x != m && Inside(w, m, w.nodes[x].parent.value, prefix))
  }

  /** What the ancestors of m answer. */
  ghost function Above(w: World, m: nat, name: string): Option<Info>
    requires Valid(w) && m in w.nodes
  {
    assert NodeValid(w, m);
    if w.nodes[m].parent.Some? then Query(w, w.nodes[m].parent.value, name) else None
  }

  lemma {:induction false} OutsideAnswersAbove(w: World, m: nat, x: nat, name: string)
    requires Valid(w) && x in w.nodes && m in w.nodes && OnChain(w, m, x)
    requires Prefixed(name) ==> !Inside(w, m, x, PrefixOf(name))
    ensures Query(w, x, name) == Above(w, m, name)
    decreases w.nodes[x].rank
  {
    assert NodeValid(w, x);
    if x != m {
      OutsideAnswersAbove(w, m, w.nodes[x].parent.value, name);
    }
  }

  lemma {:induction false} InsideClearsAbove(w: World, m: nat, x: nat, prefix: string)
    requires Valid(w) && x in w.nodes && m in w.nodes && OnChain(w, m, x)
    requires Inside(w, m, x, prefix) && Unshadowed(w, x, prefix)
    ensures NodeValid(w, m) && (w.nodes[m].parent.Some? ==> Clear(w, w.nodes[m].parent.value, prefix))
    decreases w.nodes[x].rank
  {
    assert NodeValid(w, x);
    if x != m {
      if prefix in w.nodes[x].groups {
        ClearAbove(w, m, w.nodes[x].parent.value, prefix);
      } else {
        InsideClearsAbove(w, m, w.nodes[x].parent.value, prefix);
      }
    }
  }

  lemma {:induction false} ClearAbove(w: World, m: nat, x: nat, prefix: string)
    requires Valid(w) && x in w.nodes && m in w.nodes && OnChain(w, m, x) && Clear(w, x, prefix)
    ensures NodeValid(w, m) && (w.nodes[m].parent.Some? ==> Clear(w, w.nodes[m].parent.value, prefix))
    decreases w.nodes[x].rank
  {
    assert NodeValid(w, x);
    if x != m {
      ClearAbove(w, m, w.nodes[x].parent.value, prefix);
    }
  }

  /** A muxer lists exactly the names it can answer for. */
  lemma {:induction false} ListsIff(w: World, x: nat, name: string)
    requires Valid(w) && x in w.nodes && (Prefixed(name) ==> Unshadowed(w, x, PrefixOf(name)))
    ensures Lists(w, x, name) <==> Query(w, x, name).Some?
    decreases w.nodes[x].rank
  {
    assert NodeValid(w, x);
    var n := w.nodes[x];
    forall prefix | prefix in n.groups && ListedUnder(w, n.groups[prefix], prefix, name)
      ensures Prefixed(name) && PrefixOf(name) == prefix && BareName(name) in w.actions[n.groups[prefix]]
    {
      NameParts(prefix, name[|prefix| + 1..]);
    }
    if Prefixed(name) && PrefixOf(name) in n.groups {
      NameWhole(name);
      assert BareName(name) in w.actions[n.groups[PrefixOf(name)]] ==>
        ListedUnder(w, n.groups[PrefixOf(name)], PrefixOf(name), name);
      if n.parent.Some? {
        ClearIsUnshadowed(w, n.parent.value, PrefixOf(name));
        ClearQuery(w, n.parent.value, name);
        ListsIff(w, n.parent.value, name);
      }
    } else if n.parent.Some? {
      ListsIff(w, n.parent.value, name);
    }
  }

  // ---- The moved tree ----

  lemma {:induction false} ChainTransitive(w: World, m: nat, y: nat, x: nat)
    requires Valid(w) && x in w.nodes && y in w.nodes && OnChain(w, y, x) && OnChain(w, m, y)
    ensures OnChain(w, m, x)
    decreases w.nodes[x].rank
  {
    assert NodeValid(w, x);
    if x != y {
      ChainTransitive(w, m, y, w.nodes[x].parent.value);
    }
  }

  /** A muxer may be moved under any that is not itself below it. */
  lemma MovedValid(w: World, m: nat, parent: Option<nat>)
    requires Valid(w) && m in w.nodes
    requires parent.Some? ==> parent.value in w.nodes && !OnChain(w, m, parent.value)
    ensures Valid(WithParent(w, m, parent))
  {
    var w' := WithParent(w, m, parent);
    forall x | x in w'.nodes ensures NodeValid(w', x) {
      assert NodeValid(w, x);
      if x != m && w.nodes[x].parent.Some? {
        var p := w.nodes[x].parent.value;
        assert OnChain(w, m, x) <==> OnChain(w, m, p);
        assert w'.nodes[x].parent == w.nodes[x].parent;
        assert w'.nodes[p].rank < w'.nodes[x].rank;
      }
    }
  }

  ghost predicate Moves(w: World, m: nat, parent: Option<nat>) {
    && Valid(w) && m in w.nodes && (parent.Some? ==> parent.value in w.nodes && !OnChain(w, m, parent.value))
    && Valid(WithParent(w, m, parent))
  }

  lemma {:induction false} MovedChain(w: World, m: nat, parent: Option<nat>, x: nat)
    requires Moves(w, m, parent) && x in w.nodes
    ensures OnChain(WithParent(w, m, parent), m, x) <==> OnChain(w, m, x)
    decreases w.nodes[x].rank
  {
    var w' := WithParent(w, m, parent);
    assert NodeValid(w, x) && NodeValid(w', x);
    if x != m && w.nodes[x].parent.Some? {
      MovedChain(w, m, parent, w.nodes[x].parent.value);
    }
  }

  /** Muxers that are not below m answer as before. */
  lemma {:induction false} OutsideSame(w: World, m: nat, parent: Option<nat>, x: nat, name: string)
    requires Moves(w, m, parent) && x in w.nodes && !OnChain(w, m, x)
    ensures Query(WithParent(w, m, parent), x, name) == Query(w, x, name)
    decreases w.nodes[x].rank
  {
    var w' := WithParent(w, m, parent);
    assert NodeValid(w, x) && NodeValid(w', x);
    if w.nodes[x].parent.Some? {
      OutsideSame(w, m, parent, w.nodes[x].parent.value, name);
    }
  }

  lemma {:induction false} InsideSame(w: World, m: nat, parent: Option<nat>, x: nat, name: string)
    requires Moves(w, m, parent) && x in w.nodes && OnChain(w, m, x) && OnChain(WithParent(w, m, parent), m, x)
    requires Prefixed(name)
    ensures Inside(WithParent(w, m, parent), m, x, PrefixOf(name)) <==> Inside(w, m, x, PrefixOf(name))
    ensures Inside(w, m, x, PrefixOf(name)) ==> Query(WithParent(w, m, parent), x, name) == Query(w, x, name)
    decreases w.nodes[x].rank
  {
    var w' := WithParent(w, m, parent);
    assert NodeValid(w, x) && NodeValid(w', x);
    if x != m {
      MovedChain(w, m, parent, w.nodes[x].parent.value);
      InsideSame(w, m, parent, w.nodes[x].parent.value, name);
    }
  }

  /** gtk_action_muxer_set_parent sends x the removal of everything the old parent lists and the addition of
      everything the new one lists. */
  ghost function ReparentedAt(w: World, m: nat, parent: Option<nat>, x: nat, gone: List<string>, come: List<string>)
    : List<Event>
    requires Moves(w, m, parent) && x in w.nodes
  {
    Concat(if w.nodes[m].parent.Some? then RemovedAt(w, m, x, gone) else Nil,
           if parent.Some? then ParentAddedAt(WithParent(w, m, parent), m, x, parent.value, come) else Nil)
  }

  lemma GoneAbove(w: World, m: nat, x: nat, gone: List<string>, name: string, view: Option<Info>)
    requires Valid(w) && NoShadow(w) && m in w.nodes && x in w.nodes && NodeValid(w, m)
    requires w.nodes[m].parent.Some? ==> EnumeratesAll(w, w.nodes[m].parent.value, gone)
    ensures
      ToldAll(name, view, if w.nodes[m].parent.Some? then RemovedAt(w, m, x, gone) else Nil) ==
        if OnChain(w, m, x) && Above(w, m, name).Some? then None else view
  {
    if w.nodes[m].parent.Some? {
      var p := w.nodes[m].parent.value;
      ToldRemovals(w, m, x, gone, name, view);
      assert Prefixed(name) ==> Unshadowed(w, p, PrefixOf(name));
      ListsIff(w, p, name);
    }
  }

  /** In the moved tree x, if it has no group of its own for the name, is told what the new parent answers. */
  lemma ComeAbove(w: World, m: nat, x: nat, come: List<string>, name: string, view: Option<Info>)
    requires Valid(w) && NoShadow(w) && m in w.nodes && x in w.nodes && NodeValid(w, m)
    requires w.nodes[m].parent.Some? ==> EnumeratesAll(w, w.nodes[m].parent.value, come)
    ensures
      ToldAll(name, view, if w.nodes[m].parent.Some? then ParentAddedAt(w, m, x, w.nodes[m].parent.value, come) else Nil) ==
        if OnChain(w, m, x) && Above(w, m, name).Some? then Above(w, m, name) else view
  {
    if w.nodes[m].parent.Some? {
      var p := w.nodes[m].parent.value;
      assert NodeValid(w, x);
      ToldParentAdditions(w, m, x, p, come, name, view);
      assert Prefixed(name) ==> Unshadowed(w, p, PrefixOf(name));
      ListsIff(w, p, name);
      if OnChain(w, m, x) && x != m && Above(w, m, name).Some? {
        NothingInside(w, m, x, name);
        OutsideAnswersAbove(w, m, w.nodes[x].parent.value, name);
      }
    }
  }

  /** Where the ancestors of m answer, nothing from x up to m does. */
  lemma NothingInside(w: World, m: nat, x: nat, name: string)
    requires Valid(w) && NoShadow(w) && m in w.nodes && x in w.nodes && OnChain(w, m, x) && Above(w, m, name).Some?
    ensures Prefixed(name) && !Inside(w, m, x, PrefixOf(name))
  {
    assert NodeValid(w, m);
    if !Prefixed(name) || Inside(w, m, x, PrefixOf(name)) {
      if Prefixed(name) {
        assert Unshadowed(w, x, PrefixOf(name));
        InsideClearsAbove(w, m, x, PrefixOf(name));
      }
      ClearQuery(w, w.nodes[m].parent.value, name);
    }
  }

  /** Moving a muxer tells every observer, at it or below it, what a fresh query now answers. */
  lemma ReparentAgrees(w: World, m: nat, parent: Option<nat>, gone: List<string>, come: List<string>, x: nat, name: string)
    requires Moves(w, m, parent) && NoShadow(w) && NoShadow(WithParent(w, m, parent)) && x in w.nodes
    requires NodeValid(w, m) && (w.nodes[m].parent.Some? ==> EnumeratesAll(w, w.nodes[m].parent.value, gone))
    requires parent.Some? ==> EnumeratesAll(WithParent(w, m, parent), parent.value, come)
    ensures ToldAll(name, Query(w, x, name), ReparentedAt(w, m, parent, x, gone, come)) ==
      Query(WithParent(w, m, parent), x, name)
  {
    var w', view := WithParent(w, m, parent), Query(w, x, name);
    assert NodeValid(w', m);
    var removals := if w.nodes[m].parent.Some? then RemovedAt(w, m, x, gone) else Nil;
    var additions := if parent.Some? then ParentAddedAt(w', m, x, parent.value, come) else Nil;
    ToldConcat(name, view, removals, additions);
    GoneAbove(w, m, x, gone, name, view);
    ComeAbove(w', m, x, come, name, ToldAll(name, view, removals));
    MovedChain(w, m, parent, x);
    if !OnChain(w, m, x) {
      OutsideSame(w, m, parent, x, name);
    } else if Prefixed(name) && Inside(w, m, x, PrefixOf(name)) {
      InsideSame(w, m, parent, x, name);
      if Above(w, m, name).Some? {
        NothingInside(w, m, x, name);
      }
      if Above(w', m, name).Some? {
        NothingInside(w', m, x, name);
      }
    } else {
      if Prefixed(name) {
        InsideSame(w, m, parent, x, name);
      }
      OutsideAnswersAbove(w, m, x, name);
      OutsideAnswersAbove(w', m, x, name);
    }
  }
}
