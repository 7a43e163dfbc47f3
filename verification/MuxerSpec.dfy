/** A tree of action muxers as a value: what queries answer, and what each change tells the observers. */
module MuxerSpec {
  import opened Options
  import opened SnocLists

  /** What a query for an action returns. */
  datatype Info = Info(parameterType: string, enabled: bool, state: Option<string>)

  /** One muxer: its groups, the observers registered for each action, its accelerators and its parent. The rank
      shows that there are no cycles: a parent's is smaller. */
  datatype Node = Node(groups: map<string, nat>, observed: map<string, seq<nat>>, accels: map<string, string>,
                       parent: Option<nat>, rank: nat)

  datatype World = World(nodes: map<nat, Node>, actions: map<nat, map<string, Info>>)

  // ---- Names ----

  /** strchr: where the first c is, if there is one. */
  function IndexOf(s: string, c: char): (i: Option<nat>)
    ensures i.Some? ==> i.value < |s| && s[i.value] == c && c !in s[..i.value]
    ensures i.None? ==> c !in s
  {
    if s == "" then None
    else if s[0] == c then Some(0)
    else
      var rest := IndexOf(s[1..], c);
      if rest.None? then None else Some(rest.value + 1)
  }

  /** strrchr + 1: what follows the last c. */
  function AfterLast(s: string, c: char): (rest: string)
    requires c in s
    ensures c !in rest && |rest| < |s| && s[|s| - |rest| - 1] == c && s[|s| - |rest|..] == rest
  {
    if c in s[1..] then AfterLast(s[1..], c) else s[1..]
  }

  predicate Prefixed(name: string) {
    '.' in name
  }

  /** What precedes the first dot. */
  function PrefixOf(name: string): string
    requires Prefixed(name)
  {
    name[..IndexOf(name, '.').value]
  }

  function BareName(name: string): string
    requires Prefixed(name)
  {
    name[IndexOf(name, '.').value + 1..]
  }

  function FullName(prefix: string, action: string): string {
    prefix + "." + action
  }

  // ---- Trees ----

  ghost predicate NodeValid(w: World, x: nat)
    requires x in w.nodes
  {
    var n := w.nodes[x];
    && (n.parent.Some? ==> n.parent.value in w.nodes && w.nodes[n.parent.value].rank < n.rank)
    && (forall prefix :: prefix in n.groups ==> n.groups[prefix] in w.actions && '.' !in prefix)
    && (forall key :: key in n.accels ==> '|' in key)
  }

  ghost predicate Valid(w: World) {
    forall x :: x in w.nodes ==> NodeValid(w, x)
  }

  /** m is x or an ancestor of x. */
  ghost predicate OnChain(w: World, m: nat, x: nat)
    requires Valid(w) && x in w.nodes
    decreases w.nodes[x].rank
  {
    assert NodeValid(w, x);
    m == x || (w.nodes[x].parent.Some? && OnChain(w, m, w.nodes[x].parent.value))
  }

  /** No muxer from x to the root has a group under the prefix. */
  ghost predicate Clear(w: World, x: nat, prefix: string)
    requires Valid(w) && x in w.nodes
    decreases w.nodes[x].rank
  {
    assert NodeValid(w, x);
    prefix !in w.nodes[x].groups && (w.nodes[x].parent.Some? ==> Clear(w, w.nodes[x].parent.value, prefix))
  }

  /** The prefix occurs at most once from x to the root. */
  ghost predicate Unshadowed(w: World, x: nat, prefix: string)
    requires Valid(w) && x in w.nodes
    decreases w.nodes[x].rank
  {
    assert NodeValid(w, x);
    w.nodes[x].parent.Some? ==>
      if prefix in w.nodes[x].groups then Clear(w, w.nodes[x].parent.value, prefix)
      else Unshadowed(w, w.nodes[x].parent.value, prefix)
  }

  ghost predicate NoShadow(w: World)
    requires Valid(w)
  {
    forall x, prefix :: x in w.nodes ==> Unshadowed(w, x, prefix)
  }

  // ---- Queries ----

  function Lookup(w: World, g: nat, action: string): Option<Info>
    requires g in w.actions
  {
    if action in w.actions[g] then Some(w.actions[g][action]) else None
  }

  /** gtk_action_muxer_query_action. */
  ghost function Query(w: World, x: nat, name: string): Option<Info>
    requires Valid(w) && x in w.nodes
    decreases w.nodes[x].rank
  {
    assert NodeValid(w, x);
    var n := w.nodes[x];
    if Prefixed(name) && PrefixOf(name) in n.groups then Lookup(w, n.groups[PrefixOf(name)], BareName(name))
    else if n.parent.Some? then Query(w, n.parent.value, name)
    else None
  }

  /** gtk_action_muxer_get_primary_accel. */
  ghost function Accel(w: World, x: nat, key: string): Option<string>
    requires Valid(w) && x in w.nodes
    decreases w.nodes[x].rank
  {
    assert NodeValid(w, x);
    var n := w.nodes[x];
    if key in n.accels then Some(n.accels[key])
    else if n.parent.Some? then Accel(w, n.parent.value, key)
    else None
  }

  /** gtk_action_muxer_list_actions: the name is listed by x. */
  ghost predicate Lists(w: World, x: nat, name: string)
    requires Valid(w) && x in w.nodes
    decreases w.nodes[x].rank
  {
    assert NodeValid(w, x);
    var n := w.nodes[x];
    || (exists prefix :: prefix in n.groups && ListedUnder(w, n.groups[prefix], prefix, name))
    || (n.parent.Some? && Lists(w, n.parent.value, name))
  }

  predicate ListedUnder(w: World, g: nat, prefix: string, name: string)
    requires g in w.actions
  {
    |prefix| < |name| && name == FullName(prefix, name[|prefix| + 1..]) && name[|prefix| + 1..] in w.actions[g]
  }

  // ---- What observers are told ----

  datatype Event =
    | Added(name: string, info: Info)
    | Removed(name: string)
    | EnabledChanged(name: string, enabled: bool)
    | StateChanged(name: string, state: Option<string>)

  /** An observer's knowledge of one action after one event. */
  function Told(name: string, view: Option<Info>, ev: Event): Option<Info> {
    if ev.name != name then view
    else
      match ev
      case Added(_, info) => Some(info)
      case Removed(_) => None
      case EnabledChanged(_, enabled) => if view.Some? then Some(view.value.(enabled := enabled)) else None
      case StateChanged(_, state) => if view.Some? then Some(view.value.(state := state)) else None
  }

  function ToldAll(name: string, view: Option<Info>, evs: List<Event>): Option<Info> {
    match evs
    case Nil => view
    case Snoc(init, ev) => Told(name, ToldAll(name, view, init), ev)
  }

  // ---- Changes to the tree ----

  function WithoutGroup(w: World, m: nat, prefix: string): World
    requires m in w.nodes
  {
    w.(nodes := w.nodes[m := w.nodes[m].(groups := w.nodes[m].groups - {prefix})])
  }

  function WithGroup(w: World, m: nat, prefix: string, g: nat): World
    requires m in w.nodes
  {
    w.(nodes := w.nodes[m := w.nodes[m].(groups := w.nodes[m].groups[prefix := g])])
  }

  /** What gtk_action_muxer_action_removed sends to x when it is called on m for every name. */
  ghost function RemovedAt(w: World, m: nat, x: nat, names: List<string>): List<Event>
    requires Valid(w) && x in w.nodes
  {
    match names
    case Nil => Nil
    case Snoc(init, name) =>
      if OnChain(w, m, x) then Snoc(RemovedAt(w, m, x, init), Removed(name)) else RemovedAt(w, m, x, init)
  }

  /** The action that gtk_action_muxer_action_added describes to the observers of x: x asks the group if the
      event starts there, and its parent if it came from there. */
  ghost function Described(w: World, m: nat, x: nat, name: string, original: Option<Info>): Option<Info>
    requires Valid(w) && x in w.nodes
  {
    assert NodeValid(w, x);
    if x == m || w.nodes[x].parent.None? then original else Query(w, w.nodes[x].parent.value, name)
  }

  /** What it sends to x when it is called on m for every action of a group. */
  ghost function GroupAddedAt(w: World, m: nat, x: nat, prefix: string, g: nat, actions: List<string>): List<Event>
    requires Valid(w) && x in w.nodes && g in w.actions
  {
    match actions
    case Nil => Nil
    case Snoc(init, action) =>
      var name := FullName(prefix, action);
      var info := Described(w, m, x, name, Lookup(w, g, action));
      var before := GroupAddedAt(w, m, x, prefix, g, init);
      if OnChain(w, m, x) && info.Some? then Snoc(before, Added(name, info.value)) else before
  }

  /** What it sends to x when it is called on m for every action of a new parent p. */
  ghost function ParentAddedAt(w: World, m: nat, x: nat, p: nat, names: List<string>): List<Event>
    requires Valid(w) && x in w.nodes && p in w.nodes
  {
    match names
    case Nil => Nil
    case Snoc(init, name) =>
      var info := Described(w, m, x, name, Query(w, p, name));
      var before := ParentAddedAt(w, m, x, p, init);
      if OnChain(w, m, x) && info.Some? then Snoc(before, Added(name, info.value)) else before
  }

  function FullNames(prefix: string, actions: List<string>): List<string> {
    match actions
    case Nil => Nil
    case Snoc(init, action) => Snoc(FullNames(prefix, init), FullName(prefix, action))
  }

  /** The list holds exactly the names of the group's actions. */
  ghost predicate Enumerates(w: World, g: nat, actions: List<string>)
    requires g in w.actions
  {
    forall a :: Contains(actions, a) <==> a in w.actions[g]
  }

  /** The list holds exactly the names that x lists. */
  ghost predicate EnumeratesAll(w: World, x: nat, names: List<string>)
    requires Valid(w) && x in w.nodes
  {
    forall name :: Contains(names, name) <==> Lists(w, x, name)
  }

  // ---- Re-parenting ----

  /** The nodes below m get ranks above that of the new parent. */
  ghost function Reranked(w: World, m: nat, shift: nat): map<nat, Node>
    requires Valid(w)
  {
    map x | x in w.nodes :: if OnChain(w, m, x) then w.nodes[x].(rank := w.nodes[x].rank + shift) else w.nodes[x]
  }

  ghost function WithParent(w: World, m: nat, parent: Option<nat>): World
    requires Valid(w) && m in w.nodes && (parent.Some? ==> parent.value in w.nodes)
  {
    var nodes := Reranked(w, m, if parent.Some? then w.nodes[parent.value].rank + 1 else 0);
    w.(nodes := nodes[m := nodes[m].(parent := parent)])
  }
}
