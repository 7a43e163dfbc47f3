/** Action muxers as objects: tables and parent pointers updated in place, changes forwarded down the tree. */
module Muxer {
  import opened MuxerAccelLaws
  import opened MuxerLaws
  import opened MuxerParentLaws
  import opened MuxerSignals
  import opened MuxerSpec
  import opened Options
  import opened SnocLists

  /** The objects of a tree, by the numbers they have in its world. */
  datatype Tree = Tree(w: World, muxers: map<nat, ActionMuxer>, groups: map<nat, ActionGroup>) {
    ghost function Muxer(x: nat): ActionMuxer
      requires x in muxers
    {
      muxers[x]
    }

    ghost function Group(g: nat): ActionGroup
      requires g in groups
    {
      groups[g]
    }
  }

  ghost predicate GroupShows(t: Tree, g: nat)
    requires g in t.groups
    reads t.Group(g)`actions
  {
    t.groups[g].id == g && g in t.w.actions && t.groups[g].actions == t.w.actions[g]
  }

  /** The handlers of a group are those of the muxers it was inserted in. */
  ghost predicate Handlers(t: Tree, g: nat, handlers: set<(ActionMuxer, string)>) {
    && (forall h :: h in handlers ==>
         h.0.id in t.muxers && t.muxers[h.0.id] == h.0 && InsertedUnder(t.w, g, h.0.id, h.1))
    && (forall x, prefix {:trigger InsertedUnder(t.w, g, x, prefix)} ::
         x in t.muxers && InsertedUnder(t.w, g, x, prefix) ==> (t.muxers[x], prefix) in handlers)
  }

  ghost predicate HandlersShow(t: Tree, g: nat)
    requires g in t.groups
    reads t.Group(g)`handlers
  {
    Handlers(t, g, t.groups[g].handlers)
  }

  lemma HandlerDropped(t: Tree, m: ActionMuxer, prefix: string, g: nat, handlers: set<(ActionMuxer, string)>)
    requires m.id in t.muxers && t.muxers[m.id] == m && m.id in t.w.nodes && Handlers(t, g, handlers) && Numbered(t)
    ensures
      var t' := t.(w := WithoutGroup(t.w, m.id, prefix));
      Handlers(t', g, handlers - {(m, prefix)})
  {
    var w' := WithoutGroup(t.w, m.id, prefix);
    assert forall x, q :: InsertedUnder(w', g, x, q) <==> InsertedUnder(t.w, g, x, q) && !(x == m.id && q == prefix);
    forall h | h in handlers - {(m, prefix)} ensures !(h.0.id == m.id && h.1 == prefix) {
      assert h == (h.0, h.1);
    }
  }

  lemma HandlerAdded(t: Tree, m: ActionMuxer, prefix: string, group: nat, g: nat, handlers: set<(ActionMuxer, string)>)
    requires m.id in t.muxers && t.muxers[m.id] == m && m.id in t.w.nodes && Handlers(t, g, handlers)
    requires prefix !in t.w.nodes[m.id].groups
    ensures
      var t' := t.(w := WithGroup(t.w, m.id, prefix, group));
      Handlers(t', g, if g == group then handlers + {(m, prefix)} else handlers)
  {
    var w' := WithGroup(t.w, m.id, prefix, group);
    assert forall x, q :: InsertedUnder(w', g, x, q) <==>
      InsertedUnder(t.w, g, x, q) || (x == m.id && q == prefix && g == group);
  }

  ghost predicate Numbered(t: Tree) {
    forall x :: x in t.muxers ==> t.muxers[x].id == x
  }

  ghost predicate MuxerShows(t: Tree, x: nat)
    requires x in t.muxers
    reads t.Muxer(x)`groups, t.Muxer(x)`observed, t.Muxer(x)`accels, t.Muxer(x)`parent
  {
    var m := t.muxers[x];
    && x in t.w.nodes
    && var n := t.w.nodes[x];
    && m.groups.Keys == n.groups.Keys
    && (forall prefix :: prefix in n.groups ==> n.groups[prefix] in t.groups && m.groups[prefix] == t.groups[n.groups[prefix]])
    && m.observed == n.observed && m.accels == n.accels
    && (if n.parent.None? then m.parent == null else n.parent.value in t.muxers && m.parent == t.muxers[n.parent.value])
  }

  /** The muxers connected to a muxer's signals are its children, each once. */
  ghost predicate Connections(t: Tree, x: nat, kids: seq<ActionMuxer>) {
    && (forall i, j :: 0 <= i < j < |kids| ==> kids[i] != kids[j])
    && (forall c :: c in kids ==> c.id in t.muxers && t.muxers[c.id] == c && IsChild(t.w, c.id, x))
    && (forall y {:trigger IsChild(t.w, y, x)} :: y in t.muxers && IsChild(t.w, y, x) ==> t.muxers[y] in kids)
  }

  ghost predicate ChildrenShow(t: Tree, x: nat)
    requires x in t.muxers
    reads t.Muxer(x)`children
  {
    Connections(t, x, t.muxers[x].children)
  }

  predicate IsChild(w: World, c: nat, x: nat) {
    c in w.nodes && w.nodes[c].parent == Some(x)
  }

  ghost predicate Shows(t: Tree)
    reads t.muxers.Values`groups, t.muxers.Values`observed, t.muxers.Values`accels, t.muxers.Values`parent,
          t.muxers.Values`children, t.groups.Values`actions
  {
    && Numbered(t) && t.muxers.Keys == t.w.nodes.Keys && t.groups.Keys == t.w.actions.Keys
    && (forall x {:trigger MuxerShows(t, x)} :: x in t.muxers ==> MuxerShows(t, x))
    && (forall x {:trigger ChildrenShow(t, x)} :: x in t.muxers ==> ChildrenShow(t, x))
    && (forall g {:trigger GroupShows(t, g)} :: g in t.groups ==> GroupShows(t, g))
  }

  ghost predicate Linked(t: Tree)
    reads t.groups.Values`handlers
  {
    forall g {:trigger HandlersShow(t, g)} :: g in t.groups ==> HandlersShow(t, g)
  }

  lemma ChildrenStay(t: Tree, t': Tree, x: nat)
    requires x in t.muxers && ChildrenShow(t, x) && t'.muxers == t.muxers && t'.w.nodes.Keys == t.w.nodes.Keys
    requires forall y :: y in t.w.nodes ==> t'.w.nodes[y].parent == t.w.nodes[y].parent
    ensures ChildrenShow(t', x)
  {
    assert forall c :: IsChild(t'.w, c, x) <==> IsChild(t.w, c, x);
  }

  /** Everything shows but the tables of one muxer. */
  ghost predicate AllBut(t: Tree, m: nat)
    reads t.muxers.Values`groups, t.muxers.Values`observed, t.muxers.Values`accels, t.muxers.Values`parent,
          t.muxers.Values`children, t.groups.Values`actions
  {
    && Numbered(t) && t.muxers.Keys == t.w.nodes.Keys && t.groups.Keys == t.w.actions.Keys
    && (forall x {:trigger ChildrenShow(t, x)} :: x in t.muxers ==> ChildrenShow(t, x))
    && (forall x {:trigger MuxerShows(t, x)} :: x in t.muxers && x != m ==> MuxerShows(t, x))
    && (forall g {:trigger GroupShows(t, g)} :: g in t.groups ==> GroupShows(t, g))
  }

  lemma NodeChanged(t: Tree, t': Tree, m: nat)
    requires AllBut(t, m) && m in t.muxers && t'.muxers == t.muxers && t'.groups == t.groups
    requires t'.w.actions == t.w.actions && m in t'.w.nodes && t'.w.nodes == t.w.nodes[m := t'.w.nodes[m]]
    requires t'.w.nodes[m].parent == t.w.nodes[m].parent && MuxerShows(t', m)
    ensures Shows(t')
  {
    forall x | x in t'.muxers && x != m ensures MuxerShows(t', x) {
      assert MuxerShows(t, x);
    }
    forall x | x in t'.muxers ensures ChildrenShow(t', x) {
      ChildrenStay(t, t', x);
    }
    forall g | g in t'.groups ensures GroupShows(t', g) {
      assert GroupShows(t, g);
    }
  }

  lemma TablesStay(t: Tree, t': Tree, x: nat)
    requires x in t.muxers && MuxerShows(t, x) && t'.muxers == t.muxers && t'.groups == t.groups && x in t'.w.nodes
    requires
      var n, n' := t.w.nodes[x], t'.w.nodes[x];
      n'.groups == n.groups && n'.observed == n.observed && n'.accels == n.accels && n'.parent == n.parent
    ensures MuxerShows(t', x)
  {
  }

  ghost predicate AllConnected(t: Tree)
    reads t.muxers.Values`children
  {
    forall x {:trigger ChildrenShow(t, x)} :: x in t.muxers ==> ChildrenShow(t, x)
  }

  lemma MovedShows(t: Tree, t': Tree, m: nat)
    requires Numbered(t) && t'.muxers == t.muxers && t'.groups == t.groups && t'.w.actions == t.w.actions
    requires t.muxers.Keys == t.w.nodes.Keys == t'.w.nodes.Keys && t.groups.Keys == t.w.actions.Keys
    requires forall x :: x in t.w.nodes && x != m ==>
      var n, n' := t.w.nodes[x], t'.w.nodes[x];
      n'.groups == n.groups && n'.observed == n.observed && n'.accels == n.accels && n'.parent == n.parent
    requires forall x {:trigger MuxerShows(t, x)} :: x in t.muxers && x != m ==> MuxerShows(t, x)
    requires m in t'.muxers && MuxerShows(t', m) && AllConnected(t')
    requires forall g {:trigger GroupShows(t, g)} :: g in t.groups ==> GroupShows(t, g)
    ensures Shows(t')
  {
    forall x | x in t'.muxers ensures MuxerShows(t', x) {
      if x != m {
        TablesStay(t, t', x);
      }
    }
    forall g | g in t'.groups ensures GroupShows(t', g) {
      assert GroupShows(t, g);
    }
  }

  /** m, whose parent becomes p, is dropped from its old parent's connections and added to p's. */
  lemma ConnectionsMove(t: Tree, t': Tree, m: ActionMuxer, x: nat, kids: seq<ActionMuxer>, kids': seq<ActionMuxer>)
    requires Connections(t, x, kids) && m.id in t.muxers && t.muxers[m.id] == m && Numbered(t)
    requires t'.muxers == t.muxers && t'.w.nodes.Keys == t.w.nodes.Keys && m.id in t.w.nodes
    requires forall y :: y in t.w.nodes && y != m.id ==> t'.w.nodes[y].parent == t.w.nodes[y].parent
    requires forall i, j :: 0 <= i < j < |kids'| ==> kids'[i] != kids'[j]
    requires forall c :: c in kids' <==> if c == m then t'.w.nodes[m.id].parent == Some(x) else c in kids
    ensures Connections(t', x, kids')
  {
    forall c | c in kids' ensures c.id in t'.muxers && t'.muxers[c.id] == c && IsChild(t'.w, c.id, x) {
      if c != m {
        assert IsChild(t.w, c.id, x);
      }
    }
    forall y | y in t'.muxers && IsChild(t'.w, y, x) ensures t'.muxers[y] in kids' {
      if y != m.id {
        assert IsChild(t.w, y, x);
      }
    }
  }

  lemma LinkedStays(t: Tree, t': Tree)
    requires Linked(t) && t'.muxers == t.muxers && t'.groups == t.groups && t'.w.nodes.Keys == t.w.nodes.Keys
    requires forall x :: x in t.w.nodes ==> t'.w.nodes[x].groups == t.w.nodes[x].groups
    ensures Linked(t')
  {
    forall g | g in t'.groups ensures HandlersShow(t', g) {
      assert HandlersShow(t, g);
      assert forall m, prefix :: InsertedUnder(t'.w, g, m, prefix) <==> InsertedUnder(t.w, g, m, prefix);
    }
  }

  // ---- Descendants ----

  ghost function Below(w: World, m: nat): set<nat>
    requires Valid(w)
  {
    set x | x in w.nodes && OnChain(w, m, x)
  }

  lemma {:induction false} ChainRank(w: World, m: nat, x: nat)
    requires Valid(w) && x in w.nodes && m in w.nodes && OnChain(w, m, x) && m != x
    ensures w.nodes[m].rank < w.nodes[x].rank
    decreases w.nodes[x].rank
  {
    assert NodeValid(w, x);
    if w.nodes[x].parent.value != m {
      ChainRank(w, m, w.nodes[x].parent.value);
    }
  }

  lemma ChildBelow(w: World, c: nat, m: nat)
    requires Valid(w) && m in w.nodes && IsChild(w, c, m)
    ensures Below(w, c) < Below(w, m)
  {
    assert NodeValid(w, c);
    assert OnChain(w, m, m) && OnChain(w, m, c);
    forall x | x in Below(w, c) ensures x in Below(w, m) {
      ChainTransitive(w, m, c, x);
    }
    if m in Below(w, c) {
      ChainRank(w, c, m);
    }
    assert m in Below(w, m) && m !in Below(w, c);
  }

  /** Below m is m itself and what is below one of its children. */
  lemma {:induction false} ThroughChild(w: World, m: nat, x: nat) returns (c: nat)
    requires Valid(w) && m in w.nodes && x in w.nodes && OnChain(w, m, x) && x != m
    ensures IsChild(w, c, m) && OnChain(w, c, x)
    decreases w.nodes[x].rank
  {
    assert NodeValid(w, x);
    var p := w.nodes[x].parent.value;
    if p == m {
      c := x;
    } else {
      c := ThroughChild(w, m, p);
    }
  }

  lemma {:induction false} OneChild(w: World, m: nat, c: nat, d: nat, x: nat)
    requires Valid(w) && m in w.nodes && x in w.nodes && IsChild(w, c, m) && IsChild(w, d, m)
    requires OnChain(w, c, x) && OnChain(w, d, x)
    ensures c == d
    decreases w.nodes[x].rank
  {
    assert NodeValid(w, x) && NodeValid(w, c) && NodeValid(w, d);
    if c != d {
      if c == x {
        ChainRank(w, d, x);
        assert OnChain(w, d, m);
        SameOrBelow(w, d, m);
      } else if d == x {
        assert OnChain(w, c, m);
        SameOrBelow(w, c, m);
      } else {
        OneChild(w, m, c, d, w.nodes[x].parent.value);
      }
    }
  }

  /** A child is not on the chain of its parent. */
  lemma SameOrBelow(w: World, c: nat, m: nat)
    requires Valid(w) && m in w.nodes && IsChild(w, c, m)
    ensures !OnChain(w, c, m)
  {
    assert NodeValid(w, c);
    if OnChain(w, c, m) {
      ChainRank(w, c, m);
    }
  }

  /** These are the children of m, each once. */
  ghost predicate Kids(w: World, m: nat, kids: seq<nat>) {
    && (forall i, j :: 0 <= i < j < |kids| ==> kids[i] != kids[j])
    && (forall i :: 0 <= i < |kids| ==> IsChild(w, kids[i], m))
    && (forall c :: IsChild(w, c, m) ==> c in kids)
  }

  /** x is below one of the first i. */
  ghost predicate BelowOneOf(w: World, kids: seq<nat>, i: nat, x: nat)
    requires Valid(w) && x in w.nodes && i <= |kids|
  {
    exists k :: 0 <= k < i && OnChain(w, kids[k], x)
  }

  lemma NextKid(w: World, m: nat, kids: seq<nat>, i: nat, x: nat)
    requires Valid(w) && m in w.nodes && x in w.nodes && Kids(w, m, kids) && i < |kids|
    ensures OnChain(w, kids[i], x) ==> x != m && !BelowOneOf(w, kids, i, x)
    ensures BelowOneOf(w, kids, i + 1, x) <==> BelowOneOf(w, kids, i, x) || OnChain(w, kids[i], x)
  {
    if OnChain(w, kids[i], x) {
      SameOrBelow(w, kids[i], m);
      if BelowOneOf(w, kids, i, x) {
        var k :| 0 <= k < i && OnChain(w, kids[k], x);
        OneChild(w, m, kids[i], kids[k], x);
        assert false;
      }
      assert BelowOneOf(w, kids, i + 1, x);
    }
  }

  lemma AllKids(w: World, m: nat, kids: seq<nat>, x: nat)
    requires Valid(w) && m in w.nodes && x in w.nodes && Kids(w, m, kids)
    ensures OnChain(w, m, x) <==> x == m || BelowOneOf(w, kids, |kids|, x)
  {
    if OnChain(w, m, x) && x != m {
      var c := ThroughChild(w, m, x);
      var k :| 0 <= k < |kids| && kids[k] == c;
    }
    if BelowOneOf(w, kids, |kids|, x) {
      var k :| 0 <= k < |kids| && OnChain(w, kids[k], x);
      assert NodeValid(w, kids[k]);
      assert OnChain(w, m, m) && OnChain(w, m, kids[k]);
      ChainTransitive(w, m, kids[k], x);
    }
  }

  /** An event sent as it is, or the addition of an action, which every muxer describes to its own observers. */
  datatype What = Plain(ev: Event) | Addition(name: string, info: Option<Info>)

  ghost function Expect(w: World, m: nat, x: nat, what: What): List<Event>
    requires Valid(w) && x in w.nodes
  {
    match what
    case Plain(ev) => Snoc(Nil, ev)
    case Addition(name, original) =>
      var info := Described(w, m, x, name, original);
      if info.Some? then Snoc(Nil, Added(name, info.value)) else Nil
  }

  /** m, and all at or below one of its first i children, and no other, were sent what is expected. */
  ghost predicate SentToKids(w: World, m: nat, kids: seq<nat>, i: nat, what: What, sent: List<Signal>)
    requires Valid(w) && i <= |kids|
  {
    RightlyTold(w, sent) &&
    forall x :: x in w.nodes ==>
      EventsAt(sent, x) == if x == m || BelowOneOf(w, kids, i, x) then Expect(w, m, x, what) else Nil
  }

  /** m and all below it, and no other, were sent what is expected, and the watchers registered there called. */
  ghost predicate SentBelow(w: World, m: nat, what: What, sent: List<Signal>)
    requires Valid(w)
  {
    && RightlyTold(w, sent)
    && forall x :: x in w.nodes ==> EventsAt(sent, x) == if OnChain(w, m, x) then Expect(w, m, x, what) else Nil
  }

  lemma FirstSent(w: World, m: nat, kids: seq<nat>, what: What, sent: List<Signal>)
    requires Valid(w) && m in w.nodes && EventsAt(sent, m) == Expect(w, m, m, what)
    requires RightlyTold(w, sent) && (sent == Nil || (sent.Snoc? && sent.init == Nil && sent.last.at == m))
    ensures SentToKids(w, m, kids, 0, what, sent)
  {
    forall x | x in w.nodes && x != m ensures EventsAt(sent, x) == Nil {
      if sent.Snoc? {
        assert EventsAt(sent.init, x) == Nil;
      }
    }
  }

  /** A child passes on the same event, or the addition with its parent's answer. */
  ghost predicate PassedOn(w: World, m: nat, what: What, what': What)
    requires Valid(w) && m in w.nodes
  {
    match what
    case Plain(_) => what' == what
    case Addition(name, _) => what' == Addition(name, Query(w, m, name))
  }

  lemma KidJoinsAt(w: World, m: nat, kids: seq<nat>, i: nat, what: What, what': What, sent: List<Signal>,
                   s: List<Signal>, x: nat)
    requires Valid(w) && m in w.nodes && Kids(w, m, kids) && i < |kids| && PassedOn(w, m, what, what')
    requires SentToKids(w, m, kids, i, what, sent) && SentBelow(w, kids[i], what', s) && x in w.nodes
    ensures EventsAt(Concat(sent, s), x) == if x == m || BelowOneOf(w, kids, i + 1, x) then Expect(w, m, x, what) else Nil
  {
    hide RightlyTold;
    EventsAtConcat(sent, s, x);
    NextKid(w, m, kids, i, x);
    assert NodeValid(w, x);
    if OnChain(w, kids[i], x) {
      assert Expect(w, kids[i], x, what') == Expect(w, m, x, what);
      ConcatNil(EventsAt(s, x));
    }
  }

  lemma KidJoins(w: World, m: nat, kids: seq<nat>, i: nat, what: What, what': What, sent: List<Signal>, s: List<Signal>)
    requires Valid(w) && m in w.nodes && Kids(w, m, kids) && i < |kids| && PassedOn(w, m, what, what')
    requires SentToKids(w, m, kids, i, what, sent) && SentBelow(w, kids[i], what', s)
    ensures SentToKids(w, m, kids, i + 1, what, Concat(sent, s))
  {
    RightlyConcat(w, sent, s);
    forall x | x in w.nodes
      ensures EventsAt(Concat(sent, s), x) ==
        if x == m || BelowOneOf(w, kids, i + 1, x) then Expect(w, m, x, what) else Nil
    {
      KidJoinsAt(w, m, kids, i, what, what', sent, s, x);
    }
  }

  lemma KidsDone(w: World, m: nat, kids: seq<nat>, what: What, sent: List<Signal>)
    requires Valid(w) && m in w.nodes && Kids(w, m, kids) && SentToKids(w, m, kids, |kids|, what, sent)
    ensures SentBelow(w, m, what, sent)
  {
    forall x | x in w.nodes ensures EventsAt(sent, x) == if OnChain(w, m, x) then Expect(w, m, x, what) else Nil {
      AllKids(w, m, kids, x);
    }
  }

  lemma RemovalJoins(w: World, m: nat, prefix: string, gone: List<string>, a: string, sent: List<Signal>, s: List<Signal>)
    requires Valid(w) && SentBelow(w, m, Plain(Removed(FullName(prefix, a))), s) && RightlyTold(w, sent)
    requires forall x :: x in w.nodes ==> EventsAt(sent, x) == RemovedAt(w, m, x, FullNames(prefix, gone))
    ensures RightlyTold(w, Concat(sent, s))
    ensures forall x :: x in w.nodes ==>
      EventsAt(Concat(sent, s), x) == RemovedAt(w, m, x, FullNames(prefix, Snoc(gone, a)))
  {
    RightlyConcat(w, sent, s);
    hide RightlyTold;
    forall x | x in w.nodes
      ensures EventsAt(Concat(sent, s), x) == RemovedAt(w, m, x, FullNames(prefix, Snoc(gone, a)))
    {
      EventsAtConcat(sent, s, x);
    }
  }

  lemma AdditionJoins(w: World, m: nat, prefix: string, g: nat, come: List<string>, a: string,
                      sent: List<Signal>, s: List<Signal>)
    requires Valid(w) && g in w.actions && SentBelow(w, m, Addition(FullName(prefix, a), Lookup(w, g, a)), s)
    requires RightlyTold(w, sent)
    requires forall x :: x in w.nodes ==> EventsAt(sent, x) == GroupAddedAt(w, m, x, prefix, g, come)
    ensures RightlyTold(w, Concat(sent, s))
    ensures forall x :: x in w.nodes ==>
      EventsAt(Concat(sent, s), x) == GroupAddedAt(w, m, x, prefix, g, Snoc(come, a))
  {
    RightlyConcat(w, sent, s);
    hide RightlyTold;
    forall x | x in w.nodes
      ensures EventsAt(Concat(sent, s), x) == GroupAddedAt(w, m, x, prefix, g, Snoc(come, a))
    {
      EventsAtConcat(sent, s, x);
    }
  }

  lemma InsertJoins(w: World, m: nat, prefix: string, g: nat, gone: List<string>, come: List<string>,
                    sent: List<Signal>, s: List<Signal>)
    requires Valid(w) && m in w.nodes && g in w.actions && Valid(Freed(w, m, prefix))
    requires
      var w1 := Freed(w, m, prefix);
      var w' := WithGroup(w1, m, prefix, g);
      && Valid(w') && RightlyTold(w1, sent) && RightlyTold(w', s)
      && (forall x :: x in w.nodes ==>
          EventsAt(sent, x) == if prefix in w.nodes[m].groups then RemovedAt(w1, m, x, FullNames(prefix, gone)) else Nil)
      && (forall x :: x in w.nodes ==> EventsAt(s, x) == GroupAddedAt(w', m, x, prefix, g, come))
    ensures RightlyTold(WithGroup(Freed(w, m, prefix), m, prefix, g), Concat(sent, s))
    ensures forall x :: x in w.nodes ==> EventsAt(Concat(sent, s), x) == InsertedAt(w, m, x, prefix, g, gone, come)
  {
    var w1 := Freed(w, m, prefix);
    var w' := WithGroup(w1, m, prefix, g);
    RightlyStays(w1, w', sent);
    RightlyConcat(w', sent, s);
    hide RightlyTold;
    forall x | x in w.nodes ensures EventsAt(Concat(sent, s), x) == InsertedAt(w, m, x, prefix, g, gone, come) {
      EventsAtConcat(sent, s, x);
    }
  }

  /** x itself lists the name. */
  ghost predicate ListedBy(w: World, x: nat, name: string)
    requires Valid(w) && x in w.nodes
  {
    ListedByOthers(w, x, {}, name)
  }

  /** x lists the name under a prefix that is not in the set. */
  ghost predicate ListedByOthers(w: World, x: nat, but: set<string>, name: string)
    requires Valid(w) && x in w.nodes
  {
    assert NodeValid(w, x);
    var groups := w.nodes[x].groups;
    exists prefix :: prefix in groups && prefix !in but && ListedUnder(w, groups[prefix], prefix, name)
  }

  /** Only the parent of m changes, and ranks. */
  lemma MovedTables(w: World, m: nat, p: Option<nat>)
    requires Valid(w) && m in w.nodes && (p.Some? ==> p.value in w.nodes)
    ensures
      var w' := WithParent(w, m, p);
      && w'.actions == w.actions && SameWatchers(w, w') && w'.nodes[m].parent == p
      && forall x :: x in w.nodes ==>
        && w'.nodes[x].groups == w.nodes[x].groups && w'.nodes[x].accels == w.nodes[x].accels
        && (x != m ==> w'.nodes[x].parent == w.nodes[x].parent)
  {
    var w' := WithParent(w, m, p);
    forall x | x in w.nodes
      ensures w'.nodes[x].observed == w.nodes[x].observed
      ensures w'.nodes[x].groups == w.nodes[x].groups && w'.nodes[x].accels == w.nodes[x].accels
      ensures x != m ==> w'.nodes[x].parent == w.nodes[x].parent
    {
    }
  }

  ghost function NumberOf(m: ActionMuxer?): Option<nat> {
    if m == null then None else Some(m.id)
  }

  /** What moving m under p sends. */
  ghost predicate SetParentSpec(w: World, m: nat, p: Option<nat>, t': Tree, gone: List<string>, come: List<string>,
                                sent: List<Signal>, keys: List<AccelSignal>)
  {
    && Moves(w, m, p) && NodeValid(w, m) && t'.w == WithParent(w, m, p)
    && (w.nodes[m].parent.Some? ==> EnumeratesAll(w, w.nodes[m].parent.value, gone))
    && (p.Some? ==> EnumeratesAll(t'.w, p.value, come))
    && RightlyTold(w, sent) && NamesRight(w, keys)
    && (forall x :: x in w.nodes ==> EventsAt(sent, x) == ReparentedAt(w, m, p, x, gone, come))
    && (forall x, k :: x in w.nodes ==>
        (Heard(keys, x, k) <==> KeyFrom(w, m, w.nodes[m].parent, x, k) || KeyFrom(t'.w, m, p, x, k)))
  }

  /** What is sent while m still has its old parent. */
  ghost predicate LeftSpec(w: World, m: nat, gone: List<string>, removals: List<Signal>, before: List<AccelSignal>)
    requires Valid(w) && m in w.nodes
  {
    && NodeValid(w, m) && RightlyTold(w, removals) && NamesRight(w, before)
    && if w.nodes[m].parent.None? then removals == Nil && before == Nil
       else
         && EnumeratesAll(w, w.nodes[m].parent.value, gone)
         && (forall x :: x in w.nodes ==> EventsAt(removals, x) == RemovedAt(w, m, x, gone))
         && (forall x, k :: x in w.nodes ==>
              (Heard(before, x, k) <==> Keyed(w, w.nodes[m].parent.value, k) && Announced(w, m, x, k)))
  }

  /** What is sent once it has the new one. */
  ghost predicate JoinedSpec(w: World, m: nat, p: Option<nat>, come: List<string>, additions: List<Signal>,
                             after: List<AccelSignal>)
    requires Valid(w) && (p.Some? ==> p.value in w.nodes)
  {
    && RightlyTold(w, additions) && NamesRight(w, after)
    && if p.None? then additions == Nil && after == Nil
       else
         && EnumeratesAll(w, p.value, come)
         && (forall x :: x in w.nodes ==> EventsAt(additions, x) == ParentAddedAt(w, m, x, p.value, come))
         && (forall x, k :: x in w.nodes ==> (Heard(after, x, k) <==> Keyed(w, p.value, k) && Announced(w, m, x, k)))
  }

  lemma SetParentDone(w: World, m: nat, p: Option<nat>, t': Tree, gone: List<string>, come: List<string>,
                      removals: List<Signal>, additions: List<Signal>, before: List<AccelSignal>, after: List<AccelSignal>)
    requires Moves(w, m, p) && t'.w == WithParent(w, m, p)
    requires LeftSpec(w, m, gone, removals, before) && JoinedSpec(t'.w, m, p, come, additions, after)
    ensures SetParentSpec(w, m, p, t', gone, come, Concat(removals, additions), Concat(before, after))
  {
    MovedEvents(w, m, p, gone, come, removals, additions);
    MovedKeys(w, m, p, gone, come, removals, additions, before, after);
  }

  /** Key k of the chain that begins at p is announced at x. */
  ghost predicate KeyFrom(w: World, m: nat, p: Option<nat>, x: nat, k: string)
    requires Valid(w) && x in w.nodes && (p.Some? ==> p.value in w.nodes)
  {
    p.Some? && Keyed(w, p.value, k) && Announced(w, m, x, k)
  }

  lemma MovedKeys(w: World, m: nat, p: Option<nat>, gone: List<string>, come: List<string>,
                  removals: List<Signal>, additions: List<Signal>, before: List<AccelSignal>, after: List<AccelSignal>)
    requires Moves(w, m, p) && LeftSpec(w, m, gone, removals, before)
    requires JoinedSpec(WithParent(w, m, p), m, p, come, additions, after)
    ensures NamesRight(w, Concat(before, after))
    ensures forall x, k :: x in w.nodes ==>
      (Heard(Concat(before, after), x, k) <==>
        KeyFrom(w, m, w.nodes[m].parent, x, k) || KeyFrom(WithParent(w, m, p), m, p, x, k))
  {
    MovedTables(w, m, p);
    NamesStay(WithParent(w, m, p), w, after);
    hide SameWatchers, RightlyTold, NamesRight, EnumeratesAll, WithParent, Keyed, Announced, Valid;
    forall x, k | x in w.nodes
      ensures Heard(Concat(before, after), x, k) <==>
        KeyFrom(w, m, w.nodes[m].parent, x, k) || KeyFrom(WithParent(w, m, p), m, p, x, k)
    {
      HeardConcat(w, before, after, x, k);
    }
    HeardConcat(w, before, after, 0, "");
  }

  lemma MovedEvents(w: World, m: nat, p: Option<nat>, gone: List<string>, come: List<string>,
                    removals: List<Signal>, additions: List<Signal>)
    requires Moves(w, m, p) && RightlyTold(w, removals) && RightlyTold(WithParent(w, m, p), additions)
    requires if w.nodes[m].parent.None? then removals == Nil else
      forall x :: x in w.nodes ==> EventsAt(removals, x) == RemovedAt(w, m, x, gone)
    requires if p.None? then additions == Nil else
      forall x :: x in w.nodes ==> EventsAt(additions, x) == ParentAddedAt(WithParent(w, m, p), m, x, p.value, come)
    ensures RightlyTold(w, Concat(removals, additions))
    ensures forall x :: x in w.nodes ==>
      EventsAt(Concat(removals, additions), x) == ReparentedAt(w, m, p, x, gone, come)
  {
    MovedTables(w, m, p);
    RightlyStays(WithParent(w, m, p), w, additions);
    RightlyConcat(w, removals, additions);
    forall x | x in w.nodes ensures EventsAt(Concat(removals, additions), x) == ReparentedAt(w, m, p, x, gone, come) {
      EventsAtConcat(removals, additions, x);
    }
  }

  ghost function Ids(muxers: seq<ActionMuxer>): (ids: seq<nat>)
    ensures |ids| == |muxers| && forall i :: 0 <= i < |ids| ==> ids[i] == muxers[i].id
  {
    seq(|muxers|, i requires 0 <= i < |muxers| => muxers[i].id)
  }

  lemma NameRemovalJoins(w: World, m: nat, gone: List<string>, name: string, sent: List<Signal>, s: List<Signal>)
    requires Valid(w) && SentBelow(w, m, Plain(Removed(name)), s)
    requires RightlyTold(w, sent) && forall x :: x in w.nodes ==> EventsAt(sent, x) == RemovedAt(w, m, x, gone)
    ensures RightlyTold(w, Concat(sent, s))
    ensures forall x :: x in w.nodes ==> EventsAt(Concat(sent, s), x) == RemovedAt(w, m, x, Snoc(gone, name))
  {
    RightlyConcat(w, sent, s);
    hide RightlyTold;
    forall x | x in w.nodes ensures EventsAt(Concat(sent, s), x) == RemovedAt(w, m, x, Snoc(gone, name)) {
      EventsAtConcat(sent, s, x);
    }
  }

  lemma NameAdditionAt(w: World, m: nat, p: nat, come: List<string>, name: string, sent: List<Signal>, s: List<Signal>,
                       x: nat)
    requires Valid(w) && p in w.nodes && SentBelow(w, m, Addition(name, Query(w, p, name)), s) && x in w.nodes
    requires EventsAt(sent, x) == ParentAddedAt(w, m, x, p, come)
    ensures EventsAt(Concat(sent, s), x) == ParentAddedAt(w, m, x, p, Snoc(come, name))
  {
    hide RightlyTold;
    EventsAtConcat(sent, s, x);
    hide OnChain, Query, Valid, Described;
  }

  lemma NameAdditionJoins(w: World, m: nat, p: nat, come: List<string>, name: string, sent: List<Signal>, s: List<Signal>)
    requires Valid(w) && p in w.nodes && SentBelow(w, m, Addition(name, Query(w, p, name)), s)
    requires RightlyTold(w, sent) && forall x :: x in w.nodes ==> EventsAt(sent, x) == ParentAddedAt(w, m, x, p, come)
    ensures RightlyTold(w, Concat(sent, s))
    ensures forall x :: x in w.nodes ==> EventsAt(Concat(sent, s), x) == ParentAddedAt(w, m, x, p, Snoc(come, name))
  {
    RightlyConcat(w, sent, s);
    forall x | x in w.nodes ensures EventsAt(Concat(sent, s), x) == ParentAddedAt(w, m, x, p, Snoc(come, name)) {
      NameAdditionAt(w, m, p, come, name, sent, s, x);
    }
  }

  /** The key is announced at x by one of the signals. */
  predicate Heard(sent: List<AccelSignal>, x: nat, key: string) {
    sent.Snoc? && ((sent.last.at == x && sent.last.key == key) || Heard(sent.init, x, key))
  }

  /** Every signal names the action that follows the last bar of its key, and called the watchers that its muxer has
      for that action. */
  ghost predicate NamesRight(w: World, sent: List<AccelSignal>) {
    sent.Snoc? ==>
      && NamesRight(w, sent.init)
      && '|' in sent.last.key && sent.last.name == AfterLast(sent.last.key, '|')
      && sent.last.at in w.nodes && sent.last.told == Watchers(w.nodes[sent.last.at].observed, sent.last.name)
  }

  lemma {:induction false} NamesStay(w: World, w': World, sent: List<AccelSignal>)
    requires NamesRight(w, sent) && SameWatchers(w, w')
    ensures NamesRight(w', sent)
  {
    if sent.Snoc? {
      NamesStay(w, w', sent.init);
    }
  }

  lemma {:induction false} HeardConcat(w: World, a: List<AccelSignal>, b: List<AccelSignal>, x: nat, key: string)
    requires NamesRight(w, a) && NamesRight(w, b)
    ensures Heard(Concat(a, b), x, key) <==> Heard(a, x, key) || Heard(b, x, key)
    ensures NamesRight(w, Concat(a, b))
  {
    if b.Snoc? {
      HeardConcat(w, a, b.init, x, key);
    }
  }

  lemma {:induction false} AnnouncedOnChain(w: World, m: nat, x: nat, key: string)
    requires Valid(w) && x in w.nodes && Announced(w, m, x, key)
    ensures OnChain(w, m, x)
    decreases w.nodes[x].rank
  {
    assert NodeValid(w, x);
    if x != m {
      AnnouncedOnChain(w, m, w.nodes[x].parent.value, key);
    }
  }

  /** An announcement reaches what is below a child through that child. */
  lemma {:induction false} AnnouncedThrough(w: World, m: nat, c: nat, x: nat, key: string)
    requires Valid(w) && m in w.nodes && x in w.nodes && IsChild(w, c, m) && OnChain(w, c, x)
    ensures Announced(w, m, x, key) <==> key !in w.nodes[c].accels && Announced(w, c, x, key)
    decreases w.nodes[x].rank
  {
    assert NodeValid(w, x) && NodeValid(w, c);
    SameOrBelow(w, c, m);
    if x != c {
      AnnouncedThrough(w, m, c, w.nodes[x].parent.value, key);
    }
  }

  /** m, and all it is announced to below its first i children, and no other, heard of the key and no other key. */
  ghost predicate HeardToKids(w: World, m: nat, kids: seq<nat>, i: nat, key: string, sent: List<AccelSignal>)
    requires Valid(w) && i <= |kids|
  {
    NamesRight(w, sent) &&
    forall x, k :: x in w.nodes ==>
      (Heard(sent, x, k) <==> k == key && Announced(w, m, x, key) && (x == m || BelowOneOf(w, kids, i, x)))
  }

  ghost predicate HeardBelow(w: World, m: nat, key: string, sent: List<AccelSignal>)
    requires Valid(w)
  {
    NamesRight(w, sent) && forall x, k :: x in w.nodes ==> (Heard(sent, x, k) <==> k == key && Announced(w, m, x, key))
  }

  lemma FirstHeard(w: World, m: nat, kids: seq<nat>, key: string, sent: List<AccelSignal>)
    requires Valid(w) && m in w.nodes && NamesRight(w, sent)
    requires sent.Snoc? && sent.init == Nil && sent.last.at == m && sent.last.key == key
    ensures HeardToKids(w, m, kids, 0, key, sent)
  {
    assert forall x, k :: !Heard(sent.init, x, k);
  }

  /** The next child passes the announcement on unless it has an entry of its own. */
  lemma KidHears(w: World, m: nat, kids: seq<nat>, i: nat, key: string, sent: List<AccelSignal>, s: List<AccelSignal>)
    requires Valid(w) && m in w.nodes && Kids(w, m, kids) && i < |kids| && HeardToKids(w, m, kids, i, key, sent)
    requires kids[i] in w.nodes && if key in w.nodes[kids[i]].accels then s == Nil else HeardBelow(w, kids[i], key, s)
    ensures HeardToKids(w, m, kids, i + 1, key, Concat(sent, s))
  {
    forall x, k | x in w.nodes
      ensures Heard(Concat(sent, s), x, k) <==>
        k == key && Announced(w, m, x, key) && (x == m || BelowOneOf(w, kids, i + 1, x))
    {
      HeardConcat(w, sent, s, x, k);
      NextKid(w, m, kids, i, x);
      if OnChain(w, kids[i], x) {
        AnnouncedThrough(w, m, kids[i], x, key);
      } else if Announced(w, kids[i], x, key) {
        AnnouncedOnChain(w, kids[i], x, key);
      }
    }
    HeardConcat(w, sent, s, m, key);
  }

  lemma KidsHeard(w: World, m: nat, kids: seq<nat>, key: string, sent: List<AccelSignal>)
    requires Valid(w) && m in w.nodes && Kids(w, m, kids) && HeardToKids(w, m, kids, |kids|, key, sent)
    ensures HeardBelow(w, m, key, sent)
  {
    forall x | x in w.nodes && Announced(w, m, x, key) ensures x == m || BelowOneOf(w, kids, |kids|, x) {
      AnnouncedOnChain(w, m, x, key);
      AllKids(w, m, kids, x);
    }
  }

  function EventFor(change: Change, name: string): Event
    requires !change.AddAction?
  {
    match change
    case RemoveAction => Removed(name)
    case SetEnabled(enabled) => EnabledChanged(name, enabled)
    case SetState(state) => StateChanged(name, state)
  }

  ghost function WhatFor(w: World, g: nat, action: string, change: Change, name: string): What
    requires g in w.actions
  {
    if change.AddAction? then Addition(name, Lookup(w, g, action)) else Plain(EventFor(change, name))
  }

  /** Everyone was sent what the handlers run so far send. */
  ghost predicate ChangeSent(w: World, order: List<(nat, string)>, g: nat, action: string, change: Change,
                             sent: List<Signal>)
    requires Valid(w) && g in w.actions
  {
    RightlyTold(w, sent) &&
    forall x :: x in w.nodes ==> EventsAt(sent, x) == ChangeAt(w, order, x, g, action, change)
  }

  lemma ChangeJoinsAt(w: World, order: List<(nat, string)>, m: nat, prefix: string, g: nat, action: string,
                      change: Change, sent: List<Signal>, s: List<Signal>, x: nat)
    requires Valid(w) && g in w.actions && SentBelow(w, m, WhatFor(w, g, action, change, FullName(prefix, action)), s)
    requires ChangeSent(w, order, g, action, change, sent) && x in w.nodes
    ensures EventsAt(Concat(sent, s), x) == ChangeAt(w, Snoc(order, (m, prefix)), x, g, action, change)
  {
    hide RightlyTold;
    EventsAtConcat(sent, s, x);
    hide OnChain, Valid, FullName;
  }

  lemma ChangeJoins(w: World, order: List<(nat, string)>, m: nat, prefix: string, g: nat, action: string, change: Change,
                    sent: List<Signal>, s: List<Signal>)
    requires Valid(w) && g in w.actions && SentBelow(w, m, WhatFor(w, g, action, change, FullName(prefix, action)), s)
    requires ChangeSent(w, order, g, action, change, sent)
    ensures ChangeSent(w, Snoc(order, (m, prefix)), g, action, change, Concat(sent, s))
  {
    RightlyConcat(w, sent, s);
    forall x | x in w.nodes
      ensures EventsAt(Concat(sent, s), x) == ChangeAt(w, Snoc(order, (m, prefix)), x, g, action, change)
    {
      ChangeJoinsAt(w, order, m, prefix, g, action, change, sent, s, x);
    }
  }

  /** These are the handlers run so far. */
  ghost predicate Ran(t: Tree, order: List<(nat, string)>, done: set<(ActionMuxer, string)>) {
    forall m, prefix :: Contains(order, (m, prefix)) <==> m in t.muxers && (t.muxers[m], prefix) in done
  }

  lemma RanMore(t: Tree, order: List<(nat, string)>, done: set<(ActionMuxer, string)>, h: (ActionMuxer, string))
    requires Ran(t, order, done) && Numbered(t) && h.0.id in t.muxers && t.muxers[h.0.id] == h.0
    ensures Ran(t, Snoc(order, (h.0.id, h.1)), done + {h})
  {
    assert h == (h.0, h.1);
  }

  lemma AllRan(t: Tree, g: nat, order: List<(nat, string)>, handlers: set<(ActionMuxer, string)>)
    requires Ran(t, order, handlers) && Handlers(t, g, handlers) && Numbered(t) && t.muxers.Keys == t.w.nodes.Keys
    ensures Connected(t.w, g, order)
  {
  }

  class ActionGroup {
    const id: nat
    var actions: map<string, Info>
    var handlers: set<(ActionMuxer, string)>

    constructor (id: nat, actions: map<string, Info>)
      ensures this.id == id && this.actions == actions && handlers == {}
    {
      this.id, this.actions, this.handlers := id, actions, {};
    }

    /** The group changes and its signal runs the handlers of all muxers it was inserted in. */
    method ChangeAction(action: string, change: Change, ghost t: Tree)
      returns (ghost t': Tree, ghost order: List<(nat, string)>, sent: List<Signal>)
      requires Valid(t.w) && Shows(t) && Linked(t) && id in t.groups && t.groups[id] == this
      requires Possible(actions, action, change)
      modifies this`actions
      ensures id in t.w.actions && old(actions) == t.w.actions[id]
      ensures t' == t.(w := WithChange(t.w, id, action, change)) && Valid(t'.w) && Shows(t') && Linked(t')
      ensures Connected(t.w, id, order)
      ensures ChangeSent(t'.w, order, id, action, change, sent)
    {
      t' := ApplyChange(action, change, t);
      order, sent := RunHandlers(action, change, t');
      assert forall m, prefix :: InsertedUnder(t'.w, id, m, prefix) <==> InsertedUnder(t.w, id, m, prefix);
    }

    method ApplyChange(action: string, change: Change, ghost t: Tree) returns (ghost t': Tree)
      requires Valid(t.w) && Shows(t) && Linked(t) && id in t.groups && t.groups[id] == this
      requires Possible(actions, action, change)
      modifies this`actions
      ensures id in t.w.actions && old(actions) == t.w.actions[id]
      ensures t' == t.(w := WithChange(t.w, id, action, change)) && Valid(t'.w) && Shows(t') && Linked(t')
      ensures actions == t'.w.actions[id]
    {
      assert GroupShows(t, id);
      actions := Changed(actions, action, change);
      t' := t.(w := WithChange(t.w, id, action, change));
      forall x | x in t'.muxers ensures MuxerShows(t', x) && ChildrenShow(t', x) {
        assert MuxerShows(t, x) && ChildrenShow(t, x);
        ChildrenStay(t, t', x);
      }
      forall x | x in t'.w.nodes ensures NodeValid(t'.w, x) {
        assert NodeValid(t.w, x);
      }
      forall g | g in t'.groups ensures GroupShows(t', g) {
        assert old(GroupShows(t, g));
      }
      LinkedStays(t, t');
    }

    method RunHandlers(action: string, change: Change, ghost t: Tree)
      returns (ghost order: List<(nat, string)>, sent: List<Signal>)
      requires Valid(t.w) && Shows(t) && Linked(t) && id in t.groups && t.groups[id] == this
      requires id in t.w.actions && actions == t.w.actions[id]
      ensures Connected(t.w, id, order)
      ensures ChangeSent(t.w, order, id, action, change, sent)
    {
      order, sent := Nil, Nil;
      assert ChangeSent(t.w, order, id, action, change, sent);
      HandlersIn(t);
      hide Shows, ChangeSent, SentBelow, Linked, ActionMuxer.In;
      ghost var done: set<(ActionMuxer, string)> := {};
      var rest := handlers;
      while rest != {}
        invariant rest <= handlers && done == handlers - rest && Ran(t, order, done)
        invariant ChangeSent(t.w, order, id, action, change, sent)
        decreases |rest|
      {
        var h :| h in rest;
        assert HandlerIn(t, h);
        var s := RunHandler(h.0, h.1, action, change, t);
        ChangeJoins(t.w, order, h.0.id, h.1, id, action, change, sent, s);
        sent := Concat(sent, s);
        RanMore(t, order, done, h);
        order := Snoc(order, (h.0.id, h.1));
        done := done + {h};
        rest := rest - {h};
      }
      assert done == handlers;
      AllRan(t, id, order, handlers);
    }

    ghost predicate HandlerIn(t: Tree, h: (ActionMuxer, string))
      reads t.muxers.Values`groups, t.muxers.Values`observed, t.muxers.Values`accels, t.muxers.Values`parent,
          t.muxers.Values`children, t.groups.Values`actions
    {
      h.0.In(t) && h.0.id in t.muxers && t.muxers[h.0.id] == h.0
    }

    lemma HandlersIn(t: Tree)
      requires Valid(t.w) && Shows(t) && Linked(t) && id in t.groups && t.groups[id] == this
      ensures Numbered(t) && Handlers(t, id, handlers) && t.muxers.Keys == t.w.nodes.Keys
      ensures forall h {:trigger HandlerIn(t, h)} :: h in handlers ==> HandlerIn(t, h)
    {
      assert HandlersShow(t, id);
    }

    /** _action_added_to_group, _removed_from_group, _group_action_enabled_changed and _state_changed. */
    method RunHandler(muxer: ActionMuxer, prefix: string, action: string, change: Change, ghost t: Tree)
      returns (sent: List<Signal>)
      requires muxer.In(t) && id in t.w.actions && actions == t.w.actions[id]
      ensures SentBelow(t.w, muxer.id, WhatFor(t.w, id, action, change, FullName(prefix, action)), sent)
    {
      var name := FullName(prefix, action);
      match change
      case AddAction(_) =>
        sent := muxer.ActionAdded(name, if action in actions then Some(actions[action]) else None, t);
      case _ =>
        sent := muxer.Emit(EventFor(change, name), t);
    }
  }

  lemma {:induction false} FirstFound(watchers: seq<nat>, observer: nat, i: nat)
    requires i <= |watchers| && observer !in watchers[..i] && (i < |watchers| ==> watchers[i] == observer)
    ensures WithoutFirst(watchers, observer) == if i < |watchers| then watchers[..i] + watchers[i + 1..] else watchers
  {
    if i > 0 {
      var rest := watchers[1..];
      assert watchers[0] == watchers[..i][0];
      assert rest[..i - 1] == watchers[..i][1..];
      FirstFound(rest, observer, i - 1);
      if i < |watchers| {
        assert [watchers[0]] + rest[..i - 1] == watchers[..i];
        assert rest[i..] == watchers[i + 1..];
      }
    }
  }

  class ActionMuxer {
    const id: nat
    var groups: map<string, ActionGroup>
    var observed: map<string, seq<nat>>    // the watchers of each action
    var accels: map<string, string>
    var parent: ActionMuxer?
    var children: seq<ActionMuxer>         // those connected to the signals of this muxer

    constructor (id: nat)
      ensures this.id == id && groups == map[] && observed == map[] && accels == map[] && parent == null && children == []
    {
      this.id := id;
      groups, observed, accels, parent, children := map[], map[], map[], null, [];
    }

    ghost predicate In(t: Tree)
      reads t.muxers.Values`groups, t.muxers.Values`observed, t.muxers.Values`accels, t.muxers.Values`parent,
          t.muxers.Values`children, t.groups.Values`actions
    {
      Valid(t.w) && id in t.w.nodes && id in t.muxers && t.muxers[id] == this && Shows(t)
    }

    lemma ParentIn(t: Tree)
      requires In(t) && parent != null
      ensures parent.In(t) && t.w.nodes[id].parent == Some(parent.id)
    {
      assert MuxerShows(t, id);
      assert MuxerShows(t, t.w.nodes[id].parent.value);
    }

    lemma Tables(t: Tree)
      requires In(t)
      ensures groups.Keys == t.w.nodes[id].groups.Keys && observed == t.w.nodes[id].observed
      ensures accels == t.w.nodes[id].accels
      ensures NodeValid(t.w, id) && Numbered(t)
    {
      assert MuxerShows(t, id) && NodeValid(t.w, id);
    }

    lemma GroupAt(t: Tree, prefix: string)
      requires In(t) && prefix in groups
      ensures
        var g := groups[prefix];
        && g.id in t.groups && t.groups[g.id] == g && InsertedUnder(t.w, g.id, id, prefix)
        && g.id in t.w.actions && g.actions == t.w.actions[g.id]
    {
      assert MuxerShows(t, id) && NodeValid(t.w, id);
      assert GroupShows(t, t.w.nodes[id].groups[prefix]);
    }

    // ---- Queries ----

    /** gtk_action_muxer_find_group. */
    method FindGroup(name: string, ghost t: Tree) returns (group: ActionGroup?, bare: string)
      requires In(t)
      ensures group == null <==> !Prefixed(name) || PrefixOf(name) !in t.w.nodes[id].groups
      ensures group != null ==>
        && NodeValid(t.w, id) && bare == BareName(name)
        && group.actions == t.w.actions[t.w.nodes[id].groups[PrefixOf(name)]]
    {
      assert MuxerShows(t, id) && NodeValid(t.w, id);
      var dot := IndexOf(name, '.');
      if dot.None? {
        return null, "";
      }
      var prefix := name[..dot.value];
      if prefix !in groups {
        return null, "";
      }
      group, bare := groups[prefix], name[dot.value + 1..];
      assert GroupShows(t, t.w.nodes[id].groups[prefix]);
    }

    /** gtk_action_muxer_query_action. */
    method QueryAction(name: string, ghost t: Tree) returns (info: Option<Info>)
      requires In(t)
      ensures info == Query(t.w, id, name)
      decreases t.w.nodes[id].rank
    {
      assert MuxerShows(t, id) && NodeValid(t.w, id);
      var group, bare := FindGroup(name, t);
      if group != null {
        return if bare in group.actions then Some(group.actions[bare]) else None;
      }
      if parent == null {
        return None;
      }
      ParentIn(t);
      info := parent.QueryAction(name, t);
    }

    /** gtk_action_muxer_get_primary_accel. */
    method GetPrimaryAccel(key: string, ghost t: Tree) returns (accel: Option<string>)
      requires In(t)
      ensures accel == Accel(t.w, id, key)
      decreases t.w.nodes[id].rank
    {
      assert MuxerShows(t, id) && NodeValid(t.w, id);
      if key in accels {
        return Some(accels[key]);
      }
      if parent == null {
        return None;
      }
      ParentIn(t);
      accel := parent.GetPrimaryAccel(key, t);
    }

    // ---- Watchers ----

    /** The table of registrations is replaced. */
    method PutWatchers(table: map<string, seq<nat>>, ghost t: Tree) returns (ghost t': Tree)
      requires In(t)
      modifies this`observed
      ensures observed == table && t' == t.(w := WithWatchers(t.w, id, table)) && In(t')
    {
      assert MuxerShows(t, id);
      observed := table;
      t' := t.(w := WithWatchers(t.w, id, table));
      assert Valid(t'.w) by {
        WatchersApart(t.w, id, table);
      }
      assert AllBut(t, id) by {
        forall x | x in t.muxers ensures x != id ==> MuxerShows(t, x) {
          assert old(MuxerShows(t, x));
        }
      }
      NodeChanged(t, t', id);
    }

    /** gtk_action_muxer_register_observer. */
    method RegisterObserver(name: string, observer: nat, ghost t: Tree) returns (ghost t': Tree)
      requires In(t) && Linked(t)
      modifies this`observed
      ensures t' == t.(w := WithWatchers(t.w, id, Registered(t.w.nodes[id].observed, name, observer)))
      ensures In(t') && Linked(t')
    {
      Tables(t);
      hide Shows;
      var table := observed;
      if name !in table {
        table := table[name := []];
      }
      table := table[name := [observer] + table[name]];
      assert table == Registered(observed, name, observer);
      t' := PutWatchers(table, t);
      LinkedStays(t, t');
    }

    /** gtk_action_muxer_unregister_internal: one registration is taken back, and an action no one watches is
        forgotten. */
    method UnregisterObserver(name: string, observer: nat, ghost t: Tree) returns (ghost t': Tree)
      requires In(t) && Linked(t) && name in observed
      modifies this`observed
      ensures name in t.w.nodes[id].observed
      ensures t' == t.(w := WithWatchers(t.w, id, Unregistered(t.w.nodes[id].observed, name, observer)))
      ensures In(t') && Linked(t')
    {
      Tables(t);
      hide Shows;
      var table := TakeBack(name, observer);
      t' := PutWatchers(table, t);
      LinkedStays(t, t');
    }

    method TakeBack(name: string, observer: nat) returns (table: map<string, seq<nat>>)
      requires name in observed
      ensures table == Unregistered(observed, name, observer)
    {
      var rest, found := RemoveFirst(observed[name], observer);
      table := observed;
      if found {
        table := if rest == [] then table - {name} else table[name := rest];
      }
    }

    method RemoveFirst(watchers: seq<nat>, observer: nat) returns (rest: seq<nat>, found: bool)
      ensures rest == WithoutFirst(watchers, observer) && (found <==> observer in watchers)
      ensures !found ==> rest == watchers
    {
      var i := 0;
      while i < |watchers|
        invariant 0 <= i <= |watchers| && observer !in watchers[..i]
      {
        if watchers[i] == observer {
          FirstFound(watchers, observer, i);
          return watchers[..i] + watchers[i + 1..], true;
        }
        i := i + 1;
      }
      FirstFound(watchers, observer, i);
      return watchers, false;
    }

    // ---- Telling watchers and children ----

    method TellWatchers(name: string) returns (told: seq<nat>)
      ensures told == Watchers(observed, name)
    {
      told := [];
      if name in observed {
        var watchers := observed[name];
        for i := 0 to |watchers|
          invariant told == watchers[..i]
        {
          told := told + [watchers[i]];
        }
      }
    }

    /** gtk_action_muxer_action_removed, _enabled_changed and _state_changed, which differ in the event alone. */
    method Emit(ev: Event, ghost t: Tree) returns (sent: List<Signal>)
      requires In(t)
      ensures SentBelow(t.w, id, Plain(ev), sent)
      decreases Below(t.w, id)
    {
      hide Shows;
      Tables(t);
      var told := TellWatchers(ev.name);
      sent := Snoc(Nil, Signal(id, ev, told));
      ghost var kids := Ids(children);
      KidsShown(t);
      FirstSent(t.w, id, kids, Plain(ev), sent);
      for i := 0 to |children|
        invariant SentToKids(t.w, id, kids, i, Plain(ev), sent)
      {
        ChildIn(t, i);
        ChildBelow(t.w, kids[i], id);
        var s := children[i].Emit(ev, t);
        KidJoins(t.w, id, kids, i, Plain(ev), Plain(ev), sent, s);
        sent := Concat(sent, s);
      }
      KidsDone(t.w, id, kids, Plain(ev), sent);
    }

    /** gtk_action_muxer_action_added: info is what the original group answers. */
    method ActionAdded(name: string, info: Option<Info>, ghost t: Tree) returns (sent: List<Signal>)
      requires In(t)
      ensures SentBelow(t.w, id, Addition(name, info), sent)
      decreases Below(t.w, id)
    {
      hide Shows;
      Tables(t);
      sent := Nil;
      if info.Some? {
        var told := TellWatchers(name);
        sent := Snoc(Nil, Signal(id, Added(name, info.value), told));
      }
      ghost var kids := Ids(children);
      ghost var what := Addition(name, info);
      KidsShown(t);
      FirstSent(t.w, id, kids, what, sent);
      for i := 0 to |children|
        invariant SentToKids(t.w, id, kids, i, what, sent)
      {
        ChildIn(t, i);
        ChildBelow(t.w, kids[i], id);
        var answer := QueryAction(name, t);
        var s := children[i].ActionAdded(name, answer, t);
        KidJoins(t.w, id, kids, i, what, Addition(name, answer), sent, s);
        sent := Concat(sent, s);
      }
      KidsDone(t.w, id, kids, what, sent);
    }

    lemma KidsShown(t: Tree)
      requires In(t)
      ensures Kids(t.w, id, Ids(children))
    {
      var kids := Ids(children);
      assert MuxerShows(t, id) && ChildrenShow(t, id);
      forall c | IsChild(t.w, c, id) ensures c in kids {
        assert MuxerShows(t, c);
        var k :| 0 <= k < |children| && children[k] == t.muxers[c];
        assert kids[k] == c;
      }
      forall i | 0 <= i < |kids| ensures IsChild(t.w, kids[i], id) && t.muxers[kids[i]] == children[i] {
        assert children[i] in children;
      }
    }

    lemma ChildIn(t: Tree, i: nat)
      requires In(t) && i < |children|
      ensures children[i].In(t) && IsChild(t.w, children[i].id, id)
    {
      assert ChildrenShow(t, id);
      assert children[i] in children;
    }

    // ---- Groups ----

    /** The removal of all actions of a group, in the order in which its table lists them. */
    method EmitRemovals(prefix: string, group: ActionGroup, ghost t: Tree)
      returns (ghost gone: List<string>, sent: List<Signal>)
      requires In(t)
      ensures forall a :: Contains(gone, a) <==> a in group.actions
      ensures RightlyTold(t.w, sent)
      ensures forall x :: x in t.w.nodes ==> EventsAt(sent, x) == RemovedAt(t.w, id, x, FullNames(prefix, gone))
    {
      hide Shows;
      gone, sent := Nil, Nil;
      var rest := group.actions.Keys;
      while rest != {}
        invariant rest <= group.actions.Keys
        invariant forall a :: Contains(gone, a) <==> a in group.actions && a !in rest
        invariant RightlyTold(t.w, sent)
        invariant forall x :: x in t.w.nodes ==> EventsAt(sent, x) == RemovedAt(t.w, id, x, FullNames(prefix, gone))
        decreases |rest|
      {
        var a :| a in rest;
        var s := Emit(Removed(FullName(prefix, a)), t);
        RemovalJoins(t.w, id, prefix, gone, a, sent, s);
        sent := Concat(sent, s);
        gone := Snoc(gone, a);
        rest := rest - {a};
      }
    }

    method EmitAdditions(prefix: string, group: ActionGroup, ghost t: Tree)
      returns (ghost come: List<string>, sent: List<Signal>)
      requires In(t) && group.id in t.w.actions && group.actions == t.w.actions[group.id]
      ensures Enumerates(t.w, group.id, come)
      ensures RightlyTold(t.w, sent)
      ensures forall x :: x in t.w.nodes ==> EventsAt(sent, x) == GroupAddedAt(t.w, id, x, prefix, group.id, come)
    {
      hide Shows;
      come, sent := Nil, Nil;
      var rest := group.actions.Keys;
      while rest != {}
        invariant rest <= group.actions.Keys
        invariant forall a :: Contains(come, a) <==> a in group.actions && a !in rest
        invariant RightlyTold(t.w, sent)
        invariant forall x :: x in t.w.nodes ==> EventsAt(sent, x) == GroupAddedAt(t.w, id, x, prefix, group.id, come)
        decreases |rest|
      {
        var a :| a in rest;
        var s := ActionAdded(FullName(prefix, a), Some(group.actions[a]), t);
        AdditionJoins(t.w, id, prefix, group.id, come, a, sent, s);
        sent := Concat(sent, s);
        come := Snoc(come, a);
        rest := rest - {a};
      }
    }

    /** g_hash_table_steal. */
    method TakeOut(prefix: string, ghost t: Tree) returns (ghost t': Tree)
      requires In(t) && prefix in groups
      modifies this`groups
      ensures t' == t.(w := WithoutGroup(t.w, id, prefix)) && In(t')
      ensures groups == old(groups) - {prefix}
    {
      assert MuxerShows(t, id);
      groups := groups - {prefix};
      t' := t.(w := WithoutGroup(t.w, id, prefix));
      WithoutGroupValid(t.w, id, prefix);
      assert AllBut(t, id) by {
        forall x | x in t.muxers ensures x != id ==> MuxerShows(t, x) {
          assert old(MuxerShows(t, x));
        }
      }
      NodeChanged(t, t', id);
    }

    /** g_hash_table_insert. */
    method PutIn(prefix: string, group: ActionGroup, ghost t: Tree) returns (ghost t': Tree)
      requires In(t) && '.' !in prefix && group.id in t.groups && t.groups[group.id] == group
      modifies this`groups
      ensures group.id in t.w.actions && group.actions == t.w.actions[group.id]
      ensures t' == t.(w := WithGroup(t.w, id, prefix, group.id)) && In(t')
      ensures groups == old(groups)[prefix := group]
    {
      assert MuxerShows(t, id) && GroupShows(t, group.id);
      groups := groups[prefix := group];
      t' := t.(w := WithGroup(t.w, id, prefix, group.id));
      WithGroupValid(t.w, id, prefix, group.id);
      assert AllBut(t, id) by {
        forall x | x in t.muxers ensures x != id ==> MuxerShows(t, x) {
          assert old(MuxerShows(t, x));
        }
      }
      NodeChanged(t, t', id);
    }

    /** g_clear_signal_handler on the four handlers. */
    method Disconnect(prefix: string, group: ActionGroup, ghost t: Tree, ghost t': Tree)
      requires id in t.w.nodes && In(t') && Numbered(t) && t' == t.(w := WithoutGroup(t.w, id, prefix)) && Linked(t)
      requires group.id in t.groups && t.groups[group.id] == group && InsertedUnder(t.w, group.id, id, prefix)
      modifies group`handlers
      ensures Linked(t')
    {
      group.handlers := group.handlers - {(this, prefix)};
      forall g | g in t'.groups ensures HandlersShow(t', g) {
        assert old(HandlersShow(t, g));
        assert GroupShows(t', g);
        HandlerDropped(t, this, prefix, g, old(t.groups[g].handlers));
        if g != group.id {
          assert (this, prefix) !in t.groups[g].handlers;
          assert t.groups[g].handlers - {(this, prefix)} == t.groups[g].handlers;
        }
      }
    }

    /** The four g_signal_connect. */
    method Connect(prefix: string, group: ActionGroup, ghost t: Tree, ghost t': Tree)
      requires In(t') && group.id in t.groups && t.groups[group.id] == group && id in t.w.nodes
      requires t' == t.(w := WithGroup(t.w, id, prefix, group.id)) && Linked(t) && prefix !in t.w.nodes[id].groups
      modifies group`handlers
      ensures Linked(t')
    {
      group.handlers := group.handlers + {(this, prefix)};
      forall g | g in t'.groups ensures HandlersShow(t', g) {
        assert old(HandlersShow(t, g));
        assert GroupShows(t', g);
        HandlerAdded(t, this, prefix, group.id, g, old(t.groups[g].handlers));
      }
    }

    /** gtk_action_muxer_remove. */
    method Remove(prefix: string, ghost t: Tree)
      returns (ghost t': Tree, ghost gone: List<string>, sent: List<Signal>)
      requires In(t) && Linked(t)
      modifies this`groups, (if prefix in groups then {groups[prefix]} else {})
      ensures t' == t.(w := Freed(t.w, id, prefix)) && In(t') && Linked(t')
      ensures prefix in t.w.nodes[id].groups ==> NodeValid(t.w, id) && Enumerates(t.w, t.w.nodes[id].groups[prefix], gone)
      ensures RightlyTold(t'.w, sent)
      ensures forall x :: x in t.w.nodes ==>
        EventsAt(sent, x) ==
          if prefix in t.w.nodes[id].groups then RemovedAt(t'.w, id, x, FullNames(prefix, gone)) else Nil
    {
      hide Shows;
      Tables(t);
      if prefix !in groups {
        return t, Nil, Nil;
      }
      var group := groups[prefix];
      GroupAt(t, prefix);
      t' := TakeOut(prefix, t);
      gone, sent := EmitRemovals(prefix, group, t');
      Disconnect(prefix, group, t, t');
    }

    /** gtk_action_muxer_insert. */
    method Insert(prefix: string, group: ActionGroup, ghost t: Tree)
      returns (ghost t': Tree, ghost gone: List<string>, ghost come: List<string>, sent: List<Signal>)
      requires In(t) && Linked(t) && '.' !in prefix && group.id in t.groups && t.groups[group.id] == group
      modifies this`groups, group`handlers, (if prefix in groups then {groups[prefix]} else {})
      ensures Valid(Freed(t.w, id, prefix)) && group.id in t.w.actions
      ensures t' == t.(w := WithGroup(Freed(t.w, id, prefix), id, prefix, group.id)) && In(t') && Linked(t')
      ensures prefix in t.w.nodes[id].groups ==> NodeValid(t.w, id) && Enumerates(t.w, t.w.nodes[id].groups[prefix], gone)
      ensures Enumerates(t.w, group.id, come)
      ensures RightlyTold(t'.w, sent)
      ensures forall x :: x in t.w.nodes ==> EventsAt(sent, x) == InsertedAt(t.w, id, x, prefix, group.id, gone, come)
    {
      hide Shows;
      ghost var t1;
      var s;
      t1, gone, sent := Remove(prefix, t);
      t' := PutIn(prefix, group, t1);
      come, s := EmitAdditions(prefix, group, t');
      Connect(prefix, group, t1, t');
      InsertJoins(t.w, id, prefix, group.id, gone, come, sent, s);
      sent := Concat(sent, s);
    }

    // ---- Accelerators ----

    /** gtk_action_muxer_primary_accel_changed; a child with an entry of its own does not let it through. */
    method PrimaryAccelChanged(key: string, ghost t: Tree) returns (sent: List<AccelSignal>)
      requires In(t) && '|' in key
      ensures HeardBelow(t.w, id, key, sent)
      decreases Below(t.w, id)
    {
      hide Shows;
      Tables(t);
      var name := AfterLast(key, '|');
      var told := TellWatchers(name);
      sent := Snoc(Nil, AccelSignal(id, name, key, told));
      ghost var kids := Ids(children);
      KidsShown(t);
      FirstHeard(t.w, id, kids, key, sent);
      for i := 0 to |children|
        invariant HeardToKids(t.w, id, kids, i, key, sent)
      {
        ChildIn(t, i);
        ChildBelow(t.w, kids[i], id);
        var c := children[i];
        c.Tables(t);
        var s := Nil;
        if key !in c.accels {
          s := c.PrimaryAccelChanged(key, t);
        }
        KidHears(t.w, id, kids, i, key, sent, s);
        sent := Concat(sent, s);
      }
      KidsHeard(t.w, id, kids, key, sent);
    }

    /** gtk_action_muxer_set_primary_accel. */
    method SetPrimaryAccel(key: string, accel: Option<string>, ghost t: Tree)
      returns (ghost t': Tree, sent: List<AccelSignal>)
      requires In(t) && Linked(t) && '|' in key
      modifies this`accels
      ensures t' == t.(w := WithAccel(t.w, id, key, accel)) && In(t') && Linked(t')
      ensures HeardBelow(t'.w, id, key, sent)
    {
      hide Shows;
      t' := PutAccel(key, accel, t);
      LinkedStays(t, t');
      sent := PrimaryAccelChanged(key, t');
    }

    method PutAccel(key: string, accel: Option<string>, ghost t: Tree) returns (ghost t': Tree)
      requires In(t) && '|' in key
      modifies this`accels
      ensures t' == t.(w := WithAccel(t.w, id, key, accel)) && In(t')
    {
      assert MuxerShows(t, id);
      accels := if accel.Some? then accels[key := accel.value] else accels - {key};
      t' := t.(w := WithAccel(t.w, id, key, accel));
      WithAccelValid(t.w, id, key, accel);
      assert AllBut(t, id) by {
        forall x | x in t.muxers ensures x != id ==> MuxerShows(t, x) {
          assert old(MuxerShows(t, x));
        }
      }
      NodeChanged(t, t', id);
    }

    // ---- The parent ----

    /** The names one muxer itself contributes to gtk_action_muxer_list_actions. */
    method AppendGroupActions(before: List<string>, ghost t: Tree) returns (names: List<string>)
      requires In(t)
      ensures forall name :: Contains(names, name) <==> Contains(before, name) || ListedBy(t.w, id, name)
    {
      Tables(t);
      hide Shows;
      names := before;
      var prefixes := groups.Keys;
      while prefixes != {}
        invariant prefixes <= groups.Keys
        invariant forall name :: Contains(names, name) <==>
          Contains(before, name) || ListedByOthers(t.w, id, prefixes, name)
        decreases |prefixes|
      {
        var prefix :| prefix in prefixes;
        GroupAt(t, prefix);
        names := AppendActions(names, prefix, groups[prefix], t);
        prefixes := prefixes - {prefix};
      }
    }

    method AppendActions(before: List<string>, prefix: string, group: ActionGroup, ghost t: Tree) returns (names: List<string>)
      requires group.id in t.w.actions && group.actions == t.w.actions[group.id]
      ensures forall name :: Contains(names, name) <==> Contains(before, name) || ListedUnder(t.w, group.id, prefix, name)
    {
      names := before;
      var rest := group.actions.Keys;
      while rest != {}
        invariant rest <= group.actions.Keys
        invariant forall name :: Contains(names, name) <==>
          Contains(before, name) || (ListedUnder(t.w, group.id, prefix, name) && name[|prefix| + 1..] !in rest)
        decreases |rest|
      {
        var a :| a in rest;
        var full := FullName(prefix, a);
        assert full[|prefix| + 1..] == a;
        names := Snoc(names, full);
        rest := rest - {a};
      }
    }

    /** gtk_action_muxer_list_actions. */
    method ListActions(ghost t: Tree) returns (names: List<string>)
      requires In(t)
      ensures EnumeratesAll(t.w, id, names)
    {
      hide Shows;
      names := Nil;
      var cur: ActionMuxer? := this;
      while cur != null
        invariant cur != null ==> cur.In(t)
        invariant forall name :: Lists(t.w, id, name) <==> Contains(names, name) || (cur != null && Lists(t.w, cur.id, name))
        decreases if cur == null then 0 else t.w.nodes[cur.id].rank + 1
      {
        cur.Tables(t);
        cur.ParentKnown(t);
        names := cur.AppendGroupActions(names, t);
        cur := cur.parent;
      }
    }

    lemma ParentKnown(t: Tree)
      requires In(t)
      ensures parent == null <==> t.w.nodes[id].parent.None?
      ensures parent != null ==> parent.In(t) && t.w.nodes[id].parent == Some(parent.id)
    {
      assert MuxerShows(t, id);
      if parent != null {
        ParentIn(t);
      }
    }

    /** The removal or addition of every name in a list. */
    method EmitNameRemovals(names: List<string>, ghost t: Tree) returns (sent: List<Signal>)
      requires In(t)
      ensures RightlyTold(t.w, sent)
      ensures forall x :: x in t.w.nodes ==> EventsAt(sent, x) == RemovedAt(t.w, id, x, names)
      decreases names
    {
      hide Shows;
      match names
      case Nil => sent := Nil;
      case Snoc(init, name) =>
        sent := EmitNameRemovals(init, t);
        var s := Emit(Removed(name), t);
        NameRemovalJoins(t.w, id, init, name, sent, s);
        sent := Concat(sent, s);
    }

    method EmitNameAdditions(names: List<string>, original: ActionMuxer, ghost t: Tree) returns (sent: List<Signal>)
      requires In(t) && original.In(t)
      ensures RightlyTold(t.w, sent)
      ensures forall x :: x in t.w.nodes ==> EventsAt(sent, x) == ParentAddedAt(t.w, id, x, original.id, names)
      decreases names
    {
      hide Shows;
      match names
      case Nil => sent := Nil;
      case Snoc(init, name) =>
        sent := EmitNameAdditions(init, original, t);
        var answer := original.QueryAction(name, t);
        var s := ActionAdded(name, answer, t);
        NameAdditionJoins(t.w, id, original.id, init, name, sent, s);
        sent := Concat(sent, s);
    }

    /** The keys of one ancestor's table, announced here. */
    method EmitKeys(p: ActionMuxer, before: List<AccelSignal>, ghost t: Tree) returns (sent: List<AccelSignal>)
      requires In(t) && p.In(t) && NamesRight(t.w, before)
      ensures NamesRight(t.w, sent)
      ensures forall x, k :: x in t.w.nodes ==>
        (Heard(sent, x, k) <==> Heard(before, x, k) || (k in t.w.nodes[p.id].accels && Announced(t.w, id, x, k)))
    {
      p.Tables(t);
      hide Shows;
      sent := before;
      var rest := p.accels.Keys;
      while rest != {}
        invariant rest <= p.accels.Keys && NamesRight(t.w, sent)
        invariant forall x, k :: x in t.w.nodes ==>
          (Heard(sent, x, k) <==> Heard(before, x, k) || (k in p.accels && k !in rest && Announced(t.w, id, x, k)))
        decreases |rest|
      {
        var key :| key in rest;
        var s := PrimaryAccelChanged(key, t);
        forall x, k | x in t.w.nodes
          ensures Heard(Concat(sent, s), x, k) <==> Heard(sent, x, k) || (k == key && Announced(t.w, id, x, k))
        {
          HeardConcat(t.w, sent, s, x, k);
        }
        HeardConcat(t.w, sent, s, id, key);
        sent := Concat(sent, s);
        rest := rest - {key};
      }
    }

    /** emit_changed_accels. */
    method EmitChangedAccels(from: ActionMuxer, ghost t: Tree) returns (sent: List<AccelSignal>)
      requires In(t) && from.In(t)
      ensures NamesRight(t.w, sent)
      ensures forall x, k :: x in t.w.nodes ==>
        (Heard(sent, x, k) <==> Keyed(t.w, from.id, k) && Announced(t.w, id, x, k))
    {
      hide Shows;
      sent := Nil;
      var p: ActionMuxer? := from;
      while p != null
        invariant p != null ==> p.In(t)
        invariant NamesRight(t.w, sent)
        invariant forall x, k :: x in t.w.nodes ==>
          (Keyed(t.w, from.id, k) && Announced(t.w, id, x, k) <==>
           Heard(sent, x, k) || (p != null && Keyed(t.w, p.id, k) && Announced(t.w, id, x, k)))
        decreases if p == null then 0 else t.w.nodes[p.id].rank + 1
      {
        p.Tables(t);
        p.ParentKnown(t);
        sent := EmitKeys(p, sent, t);
        p := p.parent;
      }
    }

    /** The handler of a child that leaves is disconnected. */
    method DropChild(c: ActionMuxer)
      requires c in children && forall i, j :: 0 <= i < j < |children| ==> children[i] != children[j]
      modifies this`children
      ensures forall d :: d in children <==> d in old(children) && d != c
      ensures forall i, j :: 0 <= i < j < |children| ==> children[i] != children[j]
    {
      var i := 0;
      while children[i] != c
        invariant 0 <= i < |children| && c in children[i..]
        decreases |children| - i
      {
        i := i + 1;
      }
      var kids := children[..i] + children[i + 1..];
      forall d ensures d in kids <==> d in children && d != c {
        if d in children && d != c {
          var k :| 0 <= k < |children| && children[k] == d;
          assert kids[if k < i then k else k - 1] == d;
        }
      }
      children := kids;
    }

    /** What changes in the tables when this muxer changes parents. */
    method Relink(newParent: ActionMuxer?, ghost t: Tree) returns (ghost t': Tree)
      requires In(t) && newParent != parent
      requires newParent != null ==> newParent.In(t) && !OnChain(t.w, id, newParent.id)
      modifies this`parent, (if parent == null then {} else {parent})`children,
               (if newParent == null then {} else {newParent})`children
      ensures
        var p := if newParent == null then None else Some(newParent.id);
        Moves(t.w, id, p) && t' == t.(w := WithParent(t.w, id, p)) && In(t')
      ensures parent == newParent
    {
      hide Shows;
      ParentKnown(t);
      Tables(t);
      ghost var p := if newParent == null then None else Some(newParent.id);
      t' := t.(w := WithParent(t.w, id, p));
      MovedValid(t.w, id, p);
      MovedTables(t.w, id, p);
      Retable(newParent, t, t');
    }

    method Retable(newParent: ActionMuxer?, ghost t: Tree, ghost t': Tree)
      requires In(t) && newParent != parent && (newParent != null ==> newParent.In(t))
      requires t'.muxers == t.muxers && t'.groups == t.groups && t'.w.actions == t.w.actions
      requires t'.w.nodes.Keys == t.w.nodes.Keys
      requires forall x :: x in t.w.nodes ==>
        && t'.w.nodes[x].groups == t.w.nodes[x].groups && t'.w.nodes[x].accels == t.w.nodes[x].accels
        && t'.w.nodes[x].observed == t.w.nodes[x].observed
        && (x != id ==> t'.w.nodes[x].parent == t.w.nodes[x].parent)
      requires t'.w.nodes[id].parent == if newParent == null then None else Some(newParent.id)
      modifies this`parent, (if parent == null then {} else {parent})`children,
               (if newParent == null then {} else {newParent})`children
      ensures parent == newParent && Shows(t')
    {
      assert MuxerShows(t, id);
      MoveConnections(newParent, t, t');
      forall x | x in t.muxers ensures x != id ==> MuxerShows(t, x) {
        assert old(MuxerShows(t, x));
      }
      forall g | g in t.groups ensures GroupShows(t, g) {
        assert old(GroupShows(t, g));
      }
      MovedShows(t, t', id);
    }

    method MoveConnections(newParent: ActionMuxer?, ghost t: Tree, ghost t': Tree)
      requires In(t) && newParent != parent && (newParent != null ==> newParent.In(t))
      requires t'.muxers == t.muxers && t'.w.nodes.Keys == t.w.nodes.Keys
      requires forall y :: y in t.w.nodes && y != id ==> t'.w.nodes[y].parent == t.w.nodes[y].parent
      requires t'.w.nodes[id].parent == if newParent == null then None else Some(newParent.id)
      modifies this`parent, (if parent == null then {} else {parent})`children,
               (if newParent == null then {} else {newParent})`children
      ensures parent == newParent && AllConnected(t')
    {
      ParentKnown(t);
      Tables(t);
      assert AllConnected(t);
      hide Shows;
      ghost var t1 := t.(w := t.w.(nodes := t.w.nodes[id := t.w.nodes[id].(parent := None)]));
      Leave(t, t1);
      Join(newParent, t1, t');
      parent := newParent;
    }

    method Leave(ghost t: Tree, ghost t1: Tree)
      requires Numbered(t) && id in t.muxers && t.muxers[id] == this && id in t.w.nodes && AllConnected(t)
      requires if parent == null then t.w.nodes[id].parent.None? else
        parent.id in t.muxers && t.muxers[parent.id] == parent && t.w.nodes[id].parent == Some(parent.id)
      requires t1.muxers == t.muxers && t1.w.nodes == t.w.nodes[id := t.w.nodes[id].(parent := None)]
      modifies (if parent == null then {} else {parent})`children
      ensures AllConnected(t1)
    {
      if parent != null {
        assert ChildrenShow(t, parent.id) && IsChild(t.w, id, parent.id);
        parent.DropChild(this);
      }
      forall x | x in t1.muxers ensures ChildrenShow(t1, x) {
        assert old(ChildrenShow(t, x));
        assert this in old(t.muxers[x].children) ==> IsChild(t.w, id, x);
        ConnectionsMove(t, t1, this, x, old(t.muxers[x].children), t.muxers[x].children);
      }
    }

    method Join(newParent: ActionMuxer?, ghost t1: Tree, ghost t': Tree)
      requires Numbered(t1) && id in t1.muxers && t1.muxers[id] == this && id in t1.w.nodes && AllConnected(t1)
      requires t1.w.nodes[id].parent == None
      requires newParent != null ==> newParent.id in t1.muxers && t1.muxers[newParent.id] == newParent
      requires t'.muxers == t1.muxers && t'.w.nodes.Keys == t1.w.nodes.Keys
      requires forall y :: y in t1.w.nodes && y != id ==> t'.w.nodes[y].parent == t1.w.nodes[y].parent
      requires t'.w.nodes[id].parent == if newParent == null then None else Some(newParent.id)
      modifies (if newParent == null then {} else {newParent})`children
      ensures AllConnected(t')
    {
      if newParent != null {
        assert ChildrenShow(t1, newParent.id);
        assert this in newParent.children ==> IsChild(t1.w, id, newParent.id);
        newParent.children := newParent.children + [this];
      }
      forall x | x in t'.muxers ensures ChildrenShow(t', x) {
        assert old(ChildrenShow(t1, x));
        assert this in old(t1.muxers[x].children) ==> IsChild(t1.w, id, x);
        ConnectionsMove(t1, t', this, x, old(t1.muxers[x].children), t1.muxers[x].children);
      }
    }

    method LeaveParent(ghost t: Tree) returns (gone: List<string>, removals: List<Signal>, before: List<AccelSignal>)
      requires In(t)
      ensures LeftSpec(t.w, id, gone, removals, before)
    {
      hide Shows;
      ParentKnown(t);
      Tables(t);
      gone, removals, before := Nil, Nil, Nil;
      if parent != null {
        gone := parent.ListActions(t);
        removals := EmitNameRemovals(gone, t);
        before := EmitChangedAccels(parent, t);
      }
    }

    method JoinParent(ghost t: Tree) returns (come: List<string>, additions: List<Signal>, after: List<AccelSignal>)
      requires In(t) && (parent != null ==> parent.In(t))
      ensures JoinedSpec(t.w, id, NumberOf(parent), come, additions, after)
    {
      hide Shows;
      come, additions, after := Nil, Nil, Nil;
      if parent != null {
        come := parent.ListActions(t);
        additions := EmitNameAdditions(come, parent, t);
        after := EmitChangedAccels(parent, t);
      }
    }

    /** gtk_action_muxer_set_parent: the new parent is not below this muxer. */
    method SetParent(newParent: ActionMuxer?, ghost t: Tree)
      returns (ghost t': Tree, ghost gone: List<string>, ghost come: List<string>, sent: List<Signal>,
               keys: List<AccelSignal>)
      requires In(t) && Linked(t) && (newParent != null ==> newParent.In(t) && !OnChain(t.w, id, newParent.id))
      modifies this`parent, (if parent == null then {} else {parent})`children,
               (if newParent == null then {} else {newParent})`children
      ensures parent == newParent && In(t') && Linked(t')
      ensures newParent == old(parent) ==> t' == t && sent == Nil && keys == Nil
      ensures newParent != old(parent) ==> SetParentSpec(t.w, id, NumberOf(newParent), t', gone, come, sent, keys)
      ensures newParent != old(parent) ==> t' == t.(w := WithParent(t.w, id, NumberOf(newParent)))
    {
      hide Shows;
      gone, come, sent, keys := Nil, Nil, Nil, Nil;
      if parent == newParent {
        return t, Nil, Nil, Nil, Nil;
      }
      var left, removals, before := LeaveParent(t);
      t' := Relink(newParent, t);
      MovedTables(t.w, id, NumberOf(newParent));
      LinkedStays(t, t');
      var joined, additions, after := JoinParent(t');
      gone, come := left, joined;
      sent := Concat(removals, additions);
      keys := Concat(before, after);
      SetParentDone(t.w, id, NumberOf(newParent), t', gone, come, removals, additions, before, after);
    }
  }
}