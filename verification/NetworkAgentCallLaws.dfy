/** Which secret request is pending and what each is answered, told from the inputs of the agent alone. */
module NetworkAgentCallLaws {
  import opened NetworkAgentSpec
  import opened Options
  import opened SnocLists

  // ---- Ids ----

  /** Requests for different settings of different connections have different ids, as setting names have no slash. */
  lemma IdsDiffer(path: string, settingName: string, path': string, settingName': string)
    requires '/' !in settingName && '/' !in settingName'
    ensures RequestId(path, settingName) == RequestId(path', settingName') <==>
      path == path' && settingName == settingName'
  {
    var id, id' := RequestId(path, settingName), RequestId(path', settingName');
    if id == id' {
      SlashPlace(path, settingName);
      SlashPlace(path', settingName');
      assert path == id[..|path|] && path' == id'[..|path'|];
      assert settingName == id[|path| + 1..] && settingName' == id'[|path'| + 1..];
    }
  }

  lemma SlashPlace(path: string, settingName: string)
    ensures
      var id := RequestId(path, settingName);
      && |id| == |path| + 1 + |settingName| && id[|path|] == '/'
      && id[..|path|] == path && id[|path| + 1..] == settingName
  {
    assert RequestId(path, settingName) == path + ("/" + settingName);
  }

  // ---- Items ----

  /** The secret of the last item with this key that has one. */
  function LastSecret(items: List<Item>, key: string): Option<string> {
    match items
    case Nil => None
    case Snoc(init, item) => if item.key == Some(key) && item.secret.Some? then item.secret else LastSecret(init, key)
  }

  lemma {:induction false} LastSecretIff(items: List<Item>, key: string)
    ensures LastSecret(items, key).Some? <==> exists secret :: Contains(items, Item(Some(key), Some(secret)))
    ensures LastSecret(items, key).Some? ==> Contains(items, Item(Some(key), LastSecret(items, key)))
  {
    if items.Snoc? {
      LastSecretIff(items.init, key);
      if items.last.key == Some(key) && items.last.secret.Some? {
        assert items.last == Item(Some(key), Some(items.last.secret.value));
        assert Contains(items, Item(Some(key), Some(items.last.secret.value)));
      }
      forall secret | Contains(items.init, Item(Some(key), Some(secret)))
        ensures Contains(items, Item(Some(key), Some(secret)))
      {
      }
    }
  }

  /** The setting has a key exactly if some item has that key and a secret, with the last such item's. */
  ghost predicate Holds(setting: map<string, Value>, items: List<Item>) {
    forall key :: HoldsKey(setting, items, key)
  }

  ghost predicate HoldsKey(setting: map<string, Value>, items: List<Item>, key: string) {
    && (key in setting <==> LastSecret(items, key).Some?)
    && (key in setting ==> setting[key] == Text(LastSecret(items, key).value))
  }

  /** One of the items can be used. */
  predicate Usable(items: List<Item>) {
    items.Snoc? && ((items.last.key.Some? && items.last.secret.Some?) || Usable(items.init))
  }

  lemma {:induction false} FoundHolds(items: List<Item>, key: string)
    ensures HoldsKey(FoundSetting(items), items, key)
    ensures FoundSetting(items) != map[] <==> Usable(items)
  {
    if items.Snoc? {
      FoundHolds(items.init, key);
      if items.last.key.Some? && items.last.secret.Some? {
        assert items.last.key.value in FoundSetting(items);
      }
    }
  }

  // ---- What the inputs say ----

  /** How many requests came. */
  function Came(inputs: List<Input>): nat {
    match inputs
    case Nil => 0
    case Snoc(init, InGetSecrets(_, _, _, _)) => Came(init) + 1
    case Snoc(init, _) => Came(init)
  }

  /** The request under an id: which one it is, its setting and flags, and whether the user was asked. */
  datatype Pending = Pending(call: nat, settingName: string, flags: Flags, asked: bool)

  /** A request goes to the user at once if that is demanded, or allowed and secrets are always asked for. */
  predicate AskedAtOnce(forceAlwaysAsk: bool, flags: Flags, alwaysAsk: bool) {
    flags.requestNew || (flags.allowInteraction && forceAlwaysAsk) || (flags.allowInteraction && alwaysAsk)
  }

  /** A search whose result goes on to the user: all of a VPN, and those without a secret if the user may be asked. */
  predicate HandedOn(p: Pending, items: List<Item>) {
    p.settingName == "vpn" || (!Usable(items) && p.flags.allowInteraction)
  }

  /** The request that is pending under an id. */
  function PendingAt(forceAlwaysAsk: bool, inputs: List<Input>, id: string): Option<Pending> {
    match inputs
    case Nil => None
    case Snoc(init, input) =>
      var before := PendingAt(forceAlwaysAsk, init, id);
      match input
      case InGetSecrets(path, settingName, flags, alwaysAsk) =>
        if path + "/" + settingName != id then before
        else Some(Pending(Came(init), settingName, flags, AskedAtOnce(forceAlwaysAsk, flags, alwaysAsk)))
      case InRespond(i, _) => if i == id then None else before
      case InCancel(path, settingName) => if path + "/" + settingName == id then None else before
      case InFinalize(order) => if Contains(order, id) then None else before
      case InKeyringDone(i, call, result) =>
        if i != id || before.None? || before.value.call != call || before.value.asked then before
        else
          (match result
           case SearchCancelled => before
           case SearchFailed => None
           case SearchFound(items) =>
             if HandedOn(before.value, items) then Some(before.value.(asked := true)) else None)
      case _ => before
  }

  /** The agent's table has exactly the pending requests. */
  ghost predicate TableTold(forceAlwaysAsk: bool, inputs: List<Input>, id: string) {
    var a, p := Run(forceAlwaysAsk, inputs), PendingAt(forceAlwaysAsk, inputs, id);
    && (id in a.requests <==> p.Some?)
    && (p.Some? ==>
         var r := a.requests[id];
         r.call == p.value.call && r.settingName == p.value.settingName && r.flags == p.value.flags
         && (r.entries.Some? <==> p.value.asked))
  }

  lemma {:induction false} CameTold(forceAlwaysAsk: bool, inputs: List<Input>)
    ensures Run(forceAlwaysAsk, inputs).next == Came(inputs)
    ensures Run(forceAlwaysAsk, inputs).forceAlwaysAsk == forceAlwaysAsk
  {
    if inputs.Snoc? {
      CameTold(forceAlwaysAsk, inputs.init);
      if inputs.last.InFinalize? {
        FireAllSettled(Run(forceAlwaysAsk, inputs.init), inputs.last.order, "");
      }
    }
  }

  lemma {:induction false} FireAllSettled(a: Agent, order: List<string>, id: string)
    ensures
      var a' := FireAll(a, order);
      && a'.next == a.next && a'.forceAlwaysAsk == a.forceAlwaysAsk
      && (id in a'.requests <==> id in a.requests && !Contains(order, id))
      && (id in a'.requests ==> a'.requests[id] == a.requests[id])
  {
    if order.Snoc? {
      FireAllSettled(a, order.init, id);
    }
  }

  /** In every run the table holds exactly the requests that are pending, with the setting and the flags they came with,
      and the user was asked for exactly those with entries. */
  lemma {:induction false} RunPending(forceAlwaysAsk: bool, inputs: List<Input>, id: string)
    ensures TableTold(forceAlwaysAsk, inputs, id)
  {
    if inputs.Snoc? {
      var a, input := Run(forceAlwaysAsk, inputs.init), inputs.last;
      RunPending(forceAlwaysAsk, inputs.init, id);
      CameTold(forceAlwaysAsk, inputs.init);
      match input
      case InFinalize(order) => FireAllSettled(a, order, id);
      case InKeyringDone(_, _, SearchFound(items)) => FoundHolds(items, "");
      case _ =>
    }
  }

  // ---- Who is answered, and what ----

  /** The reply a pending request gets from an input, of the kinds that carry nothing. */
  predicate Refusal(input: Input, reply: Reply) {
    match input
    case InGetSecrets(_, _, _, _) => reply == AgentCanceled
    case InCancel(_, _) => reply == AgentCanceled
    case InFinalize(_) => reply == AgentCanceled
    case InRespond(_, ByUserCanceled) => reply == UserCanceled
    case InRespond(_, InternalError) => reply == Failed
    case InKeyringDone(_, _, SearchFailed) => reply == Failed
    case _ => reply.Secrets?
  }

  /** The one id an input may take from the table, if it is not the end of the agent. */
  function Concerns(input: Input): Option<string> {
    match input
    case InGetSecrets(path, settingName, _, _) => Some(path + "/" + settingName)
    case InCancel(path, settingName) => Some(path + "/" + settingName)
    case InRespond(id, _) => Some(id)
    case InKeyringDone(id, _, _) => Some(id)
    case _ => None
  }

  /** A request that an input takes from the table, or replaces, is answered then and there, with the error that goes
      with the input or with secrets of its setting; nobody else is answered by it. */
  lemma TakenIsAnswered(forceAlwaysAsk: bool, inputs: List<Input>, input: Input)
    requires !input.InFinalize?
    ensures
      var a, a' := Run(forceAlwaysAsk, inputs), Run(forceAlwaysAsk, Snoc(inputs, input));
      var id := Concerns(input);
      if id.Some? && PendingAt(forceAlwaysAsk, inputs, id.value).Some?
         && (PendingAt(forceAlwaysAsk, Snoc(inputs, input), id.value).None? || input.InGetSecrets?)
      then
        var p := PendingAt(forceAlwaysAsk, inputs, id.value).value;
        && a'.fired.Snoc? && a'.fired.init == a.fired && a'.fired.last.0 == p.call
        && Refusal(input, a'.fired.last.1)
        && (a'.fired.last.1.Secrets? ==> a'.fired.last.1.settingName == p.settingName)
      else a'.fired == a.fired
  {
    CameTold(forceAlwaysAsk, inputs);
    if Concerns(input).Some? {
      RunPending(forceAlwaysAsk, inputs, Concerns(input).value);
      RunPending(forceAlwaysAsk, Snoc(inputs, input), Concerns(input).value);
    }
  }

  /** When the agent goes away every pending request is answered as cancelled. */
  lemma {:induction false} FinalizeCancels(a: Agent, order: List<string>, f: (nat, Reply))
    requires Contains(FireAll(a, order).fired, f)
    ensures Contains(a.fired, f) || f.1 == AgentCanceled
  {
    if order.Snoc? {
      if Contains(FireAll(a, order.init).fired, f) {
        FinalizeCancels(a, order.init, f);
      }
    }
  }

  lemma SearchFires(forceAlwaysAsk: bool, inputs: List<Input>, id: string, items: List<Item>)
    requires
      var p := PendingAt(forceAlwaysAsk, inputs, id);
      p.Some? && !p.value.asked && !HandedOn(p.value, items)
    ensures
      var p := PendingAt(forceAlwaysAsk, inputs, id).value;
      Run(forceAlwaysAsk, Snoc(inputs, InKeyringDone(id, p.call, SearchFound(items)))).fired ==
        Snoc(Run(forceAlwaysAsk, inputs).fired, (p.call, Secrets(p.settingName, FoundSetting(items))))
  {
    RunPending(forceAlwaysAsk, inputs, id);
    FoundHolds(items, "");
  }

  /** When a search completes with items for a request that does not go on to the user, the one reply to its call is the
      secrets of its own setting: a key for every item with that key and a secret, and the last such item's secret. */
  lemma SearchAnswers(forceAlwaysAsk: bool, inputs: List<Input>, id: string, items: List<Item>)
    requires
      var p := PendingAt(forceAlwaysAsk, inputs, id);
      p.Some? && !p.value.asked && !HandedOn(p.value, items)
    ensures
      var p := PendingAt(forceAlwaysAsk, inputs, id).value;
      var run := Snoc(inputs, InKeyringDone(id, p.call, SearchFound(items)));
      var a, a' := Run(forceAlwaysAsk, inputs), Run(forceAlwaysAsk, run);
      && a'.fired.Snoc? && a'.fired.init == a.fired && a'.fired.last.0 == p.call
      && TimesFired(a'.fired, p.call) == 1
      && var reply := a'.fired.last.1;
      reply.Secrets? && reply.settingName == p.settingName && Holds(reply.setting, items)
  {
    var p := PendingAt(forceAlwaysAsk, inputs, id).value;
    var run := Snoc(inputs, InKeyringDone(id, p.call, SearchFound(items)));
    SearchFires(forceAlwaysAsk, inputs, id, items);
    forall key ensures HoldsKey(FoundSetting(items), items, key) {
      FoundHolds(items, key);
    }
    AnsweredOnce(forceAlwaysAsk, run);
    AnsweredOften(Run(forceAlwaysAsk, run).fired, (p.call, Secrets(p.settingName, FoundSetting(items))));
  }

  /** When it goes on to the user, the entries begin with just those secrets. */
  lemma SearchHandsOn(forceAlwaysAsk: bool, inputs: List<Input>, id: string, items: List<Item>)
    requires
      var p := PendingAt(forceAlwaysAsk, inputs, id);
      p.Some? && !p.value.asked && HandedOn(p.value, items)
    ensures
      var p := PendingAt(forceAlwaysAsk, inputs, id).value;
      var run := Snoc(inputs, InKeyringDone(id, p.call, SearchFound(items)));
      var a, a' := Run(forceAlwaysAsk, inputs), Run(forceAlwaysAsk, run);
      && a'.fired == a.fired && id in a'.requests && a'.requests[id].entries.Some?
      && Holds(a'.requests[id].entries.value, items)
  {
    RunPending(forceAlwaysAsk, inputs, id);
    FoundHolds(items, "");
    forall key ensures HoldsKey(FoundSetting(items), items, key) {
      FoundHolds(items, key);
    }
  }

  /** From end to end: after a connection was saved, a request for a setting that the search answers is told exactly the
      kept secrets of that setting. */
  lemma SavedIsAnswered(forceAlwaysAsk: bool, inputs: List<Input>, id: string, properties: seq<Property>)
    requires KeysDiffer(properties)
    requires
      var p := PendingAt(forceAlwaysAsk, inputs, id);
      && p.Some? && !p.value.asked
      && !HandedOn(p.value, NetworkAgentSpec.Found(Stores(properties, |properties|), p.value.settingName))
    ensures
      var p := PendingAt(forceAlwaysAsk, inputs, id).value;
      var items := NetworkAgentSpec.Found(Stores(properties, |properties|), p.settingName);
      var a' := Run(forceAlwaysAsk, Snoc(inputs, InKeyringDone(id, p.call, SearchFound(items))));
      && a'.fired.Snoc? && a'.fired.last.0 == p.call && a'.fired.last.1.Secrets?
      && var setting := a'.fired.last.1.setting;
      && (forall key :: key in setting ==> setting[key].Text?)
      && forall key, secret ::
           (key in setting && setting[key] == Text(secret)) <==> KeptIn(properties, Stored(p.settingName, key, secret))
  {
    hide Stores, KeptIn, PendingAt, FoundSetting, Run, NetworkAgentSpec.Found, HandedOn, KeysDiffer;
    var p := PendingAt(forceAlwaysAsk, inputs, id).value;
    var items := NetworkAgentSpec.Found(Stores(properties, |properties|), p.settingName);
    SearchFires(forceAlwaysAsk, inputs, id, items);
    forall key ensures
      var found := FoundSetting(items);
      && (key in found ==> found[key].Text?)
      && forall secret ::
           (key in found && found[key] == Text(secret)) <==> KeptIn(properties, Stored(p.settingName, key, secret))
    {
      SavedIsFound(properties, p.settingName, key);
    }
  }
}
