/** Accelerators: who hears of a change, and what every muxer then answers. */
module MuxerAccelLaws {
  import opened MuxerLaws
  import opened MuxerParentLaws
  import opened MuxerSpec
  import opened Options
  import opened SnocLists

  /** The change of an entry of m is announced at x: it is not held back by an entry on the way. */
  ghost predicate Announced(w: World, m: nat, x: nat, key: string)
    requires Valid(w) && x in w.nodes
    decreases w.nodes[x].rank
  {
    assert NodeValid(w, x);
    || x == m
    || (key !in w.nodes[x].accels && w.nodes[x].parent.Some? && Announced(w, m, w.nodes[x].parent.value, key))
  }

  /** gtk_action_muxer_set_primary_accel. */
  function WithAccel(w: World, m: nat, key: string, accel: Option<string>): World
    requires m in w.nodes
  {
    var accels := w.nodes[m].accels;
    w.(nodes := w.nodes[m := w.nodes[m].(
      accels := if accel.Some? then accels[key := accel.value] else accels - {key})])
  }

  lemma WithAccelValid(w: World, m: nat, key: string, accel: Option<string>)
    requires Valid(w) && m in w.nodes && '|' in key
    ensures Valid(WithAccel(w, m, key, accel))
  {
    var w' := WithAccel(w, m, key, accel);
    forall x | x in w'.nodes ensures NodeValid(w', x) {
      assert NodeValid(w, x);
    }
  }

  lemma {:induction false} AccelElsewhere(w: World, m: nat, key: string, accel: Option<string>, x: nat, other: string)
    requires Valid(w) && m in w.nodes && x in w.nodes && Valid(WithAccel(w, m, key, accel))
    requires other != key || !Announced(w, m, x, key)
    ensures Accel(WithAccel(w, m, key, accel), x, other) == Accel(w, x, other)
    decreases w.nodes[x].rank
  {
    assert NodeValid(w, x) && NodeValid(WithAccel(w, m, key, accel), x);
    if w.nodes[x].parent.Some? && (other != key || key !in w.nodes[x].accels) {
      AccelElsewhere(w, m, key, accel, w.nodes[x].parent.value, other);
    }
  }

  lemma {:induction false} AnnouncedTakes(w: World, m: nat, key: string, v: string, x: nat)
    requires Valid(w) && m in w.nodes && x in w.nodes && Valid(WithAccel(w, m, key, Some(v)))
    requires Announced(w, m, x, key)
    ensures Accel(WithAccel(w, m, key, Some(v)), x, key) == Some(v)
    decreases w.nodes[x].rank
  {
    assert NodeValid(w, x) && NodeValid(WithAccel(w, m, key, Some(v)), x);
    if x != m {
      AnnouncedTakes(w, m, key, v, w.nodes[x].parent.value);
    }
  }

  /** The announcement does not depend on the entry of m itself. */
  lemma {:induction false} AnnouncedSame(w: World, m: nat, key: string, accel: Option<string>, x: nat)
    requires Valid(w) && m in w.nodes && x in w.nodes && Valid(WithAccel(w, m, key, accel))
    ensures Announced(WithAccel(w, m, key, accel), m, x, key) <==> Announced(w, m, x, key)
    decreases w.nodes[x].rank
  {
    assert NodeValid(w, x) && NodeValid(WithAccel(w, m, key, accel), x);
    if x != m && w.nodes[x].parent.Some? {
      AnnouncedSame(w, m, key, accel, w.nodes[x].parent.value);
    }
  }

  /** A change of m's entry is announced at exactly the muxers whose accelerator is the one m has, whatever it is;
      everyone else, and every other key, keeps what it had. */
  lemma AccelAnnouncedIff(w: World, m: nat, key: string, accel: Option<string>, x: nat)
    requires Valid(w) && m in w.nodes && x in w.nodes && '|' in key
    ensures
      var w' := WithAccel(w, m, key, accel);
      && Valid(w')
      && (forall v :: Valid(WithAccel(w', m, key, Some(v))))
      && (Announced(w', m, x, key) <==> forall v :: Accel(WithAccel(w', m, key, Some(v)), x, key) == Some(v))
      && (!Announced(w', m, x, key) ==> Accel(w', x, key) == Accel(w, x, key))
      && (forall other :: other != key ==> Accel(w', x, other) == Accel(w, x, other))
  {
    var w' := WithAccel(w, m, key, accel);
    WithAccelValid(w, m, key, accel);
    forall v ensures Valid(WithAccel(w', m, key, Some(v))) {
      WithAccelValid(w', m, key, Some(v));
    }
    AnnouncedSame(w, m, key, accel, x);
    if Announced(w', m, x, key) {
      forall v ensures Accel(WithAccel(w', m, key, Some(v)), x, key) == Some(v) {
        AnnouncedTakes(w', m, key, v, x);
      }
    } else {
      AccelElsewhere(w, m, key, accel, x, key);
      AccelElsewhere(w', m, key, Some("a"), x, key);
      AccelElsewhere(w', m, key, Some("b"), x, key);
      assert Accel(WithAccel(w', m, key, Some("a")), x, key) == Accel(WithAccel(w', m, key, Some("b")), x, key);
    }
    forall other | other != key ensures Accel(w', x, other) == Accel(w, x, other) {
      AccelElsewhere(w, m, key, accel, x, other);
    }
  }

  // ---- Accelerators of a moved muxer ----

  /** One of the muxers from x to the root has an entry: emit_changed_accels announces the key. */
  ghost predicate Keyed(w: World, x: nat, key: string)
    requires Valid(w) && x in w.nodes
    decreases w.nodes[x].rank
  {
    assert NodeValid(w, x);
    key in w.nodes[x].accels || (w.nodes[x].parent.Some? && Keyed(w, w.nodes[x].parent.value, key))
  }

  lemma {:induction false} KeyedIff(w: World, x: nat, key: string)
    requires Valid(w) && x in w.nodes
    ensures Keyed(w, x, key) <==> Accel(w, x, key).Some?
    decreases w.nodes[x].rank
  {
    assert NodeValid(w, x);
    if w.nodes[x].parent.Some? {
      KeyedIff(w, w.nodes[x].parent.value, key);
    }
  }

  lemma {:induction false} OutsideAccelSame(w: World, m: nat, parent: Option<nat>, x: nat, key: string)
    requires Moves(w, m, parent) && x in w.nodes && !OnChain(w, m, x)
    ensures Accel(WithParent(w, m, parent), x, key) == Accel(w, x, key)
    decreases w.nodes[x].rank
  {
    assert NodeValid(w, x) && NodeValid(WithParent(w, m, parent), x);
    if w.nodes[x].parent.Some? {
      OutsideAccelSame(w, m, parent, w.nodes[x].parent.value, key);
    }
  }

  ghost function AccelAbove(w: World, m: nat, key: string): Option<string>
    requires Valid(w) && m in w.nodes
  {
    assert NodeValid(w, m);
    if w.nodes[m].parent.Some? then Accel(w, w.nodes[m].parent.value, key) else None
  }

  /** An announcement at m reaches x with the tree before the move just as with the tree after it. */
  lemma {:induction false} MovedAnnounced(w: World, m: nat, parent: Option<nat>, x: nat, key: string)
    requires Moves(w, m, parent) && x in w.nodes
    ensures Announced(WithParent(w, m, parent), m, x, key) <==> Announced(w, m, x, key)
    decreases w.nodes[x].rank
  {
    assert NodeValid(w, x) && NodeValid(WithParent(w, m, parent), x);
    if x != m && w.nodes[x].parent.Some? {
      MovedAnnounced(w, m, parent, w.nodes[x].parent.value, key);
    }
  }

  lemma {:induction false} MovedAccel(w: World, m: nat, parent: Option<nat>, x: nat, key: string)
    requires Moves(w, m, parent) && x in w.nodes
    requires AccelAbove(WithParent(w, m, parent), m, key) == AccelAbove(w, m, key) || !Announced(w, m, x, key)
    ensures Accel(WithParent(w, m, parent), x, key) == Accel(w, x, key)
    decreases w.nodes[x].rank
  {
    assert NodeValid(w, x) && NodeValid(WithParent(w, m, parent), x);
    if x != m && w.nodes[x].parent.Some? && key !in w.nodes[x].accels {
      MovedAccel(w, m, parent, w.nodes[x].parent.value, key);
    }
  }

  /** Moving a muxer announces at x every key whose accelerator changes for x. */
  lemma ReparentAnnounces(w: World, m: nat, parent: Option<nat>, x: nat, key: string)
    requires Moves(w, m, parent) && x in w.nodes && NodeValid(w, m)
    requires Accel(WithParent(w, m, parent), x, key) != Accel(w, x, key)
    ensures
      var w' := WithParent(w, m, parent);
      || (w.nodes[m].parent.Some? && Keyed(w, w.nodes[m].parent.value, key) && Announced(w, m, x, key))
      || (parent.Some? && Keyed(w', parent.value, key) && Announced(w', m, x, key))
  {
    var w' := WithParent(w, m, parent);
    if AccelAbove(w', m, key) == AccelAbove(w, m, key) || !Announced(w, m, x, key) {
      MovedAccel(w, m, parent, x, key);
    }
    MovedAnnounced(w, m, parent, x, key);
    assert NodeValid(w', m);
    if w.nodes[m].parent.Some? {
      KeyedIff(w, w.nodes[m].parent.value, key);
    }
    if parent.Some? {
      KeyedIff(w', parent.value, key);
    }
  }

  // ---- Printed keys ----

  function DetailedName(namespace: Option<string>, action: string): string {
    if namespace.Some? then namespace.value + "." + action else action
  }

  /** gtk_print_action_and_target. */
  function PrintActionAndTarget(namespace: Option<string>, action: string, target: Option<string>): string {
    (if target.Some? then target.value else "") + "|" + DetailedName(namespace, action)
  }

  lemma {:induction false} AfterLastUnique(s: string, c: char, before: string, rest: string)
    requires s == before + [c] + rest && c !in rest
    ensures c in s && AfterLast(s, c) == rest
  {
    assert s[|before|] == c;
    if before != "" {
      assert s[1..] == before[1..] + [c] + rest;
      AfterLastUnique(s[1..], c, before[1..], rest);
    } else {
      assert s[1..] == rest;
    }
  }

  /** The action is found again after the last bar, whatever text the target prints as. */
  lemma PrintedNameRecovered(namespace: Option<string>, action: string, target: Option<string>)
    requires '|' !in action && (namespace.Some? ==> '|' !in namespace.value)
    ensures
      var key := PrintActionAndTarget(namespace, action, target);
      '|' in key && AfterLast(key, '|') == DetailedName(namespace, action)
  {
    var key := PrintActionAndTarget(namespace, action, target);
    var before := if target.Some? then target.value else "";
    assert key == before + ['|'] + DetailedName(namespace, action);
    AfterLastUnique(key, '|', before, DetailedName(namespace, action));
  }
}
