/** The network secret agent as a value: which secret requests are outstanding, and what each is answered. */
module NetworkAgentSpec {
  import opened Options
  import opened SnocLists

  datatype Flags = Flags(allowInteraction: bool, requestNew: bool)

  datatype Value = Text(text: string) | VpnSecrets(secrets: List<(string, string)>)

  /** One pending get_secrets call. There are entries once the user is asked. */
  datatype Request = Request(
    call: nat,
    settingName: string,
    flags: Flags,
    entries: Option<map<string, Value>>,
    vpn: List<(string, string)>)

  datatype Reply =
    | Secrets(settingName: string, setting: map<string, Value>)
    | AgentCanceled
    | UserCanceled
    | Failed

  /** Secrets the agent handed to its own save_secrets, and the call they were given for. */
  datatype Saved = Saved(call: nat, settingName: string, setting: map<string, Value>)

  /** Calls are numbered in the order in which they come. Fired lists the callbacks made. */
  datatype Agent = Agent(
    requests: map<string, Request>,
    forceAlwaysAsk: bool,
    next: nat,
    fired: List<(nat, Reply)>,
    saved: List<Saved>)

  datatype Item = Item(key: Option<string>, secret: Option<string>)

  datatype SearchResult = SearchCancelled | SearchFailed | SearchFound(items: List<Item>)

  datatype Response = Confirmed | ByUserCanceled | InternalError

  const VPN_SETTING := "vpn"
  const VPN_SECRETS := "secrets"

  function RequestId(path: string, settingName: string): string {
    path + "/" + settingName
  }

  /** A callback is made and its request dropped. */
  function Fire(a: Agent, id: string, reply: Reply): Agent
    requires id in a.requests
  {
    a.(requests := a.requests - {id}, fired := Snoc(a.fired, (a.requests[id].call, reply)))
  }

  predicate AsksFirst(a: Agent, flags: Flags, alwaysAsk: bool) {
    flags.requestNew || (flags.allowInteraction && (a.forceAlwaysAsk || alwaysAsk))
  }

  /** shell_network_agent_get_secrets. */
  function GetSecrets(a: Agent, path: string, settingName: string, flags: Flags, alwaysAsk: bool): Agent {
    var id := RequestId(path, settingName);
    var a1 := if id in a.requests then Fire(a, id, AgentCanceled) else a;
    var entries := if AsksFirst(a, flags, alwaysAsk) then Some(map[]) else None;
    a1.(requests := a1.requests[id := Request(a1.next, settingName, flags, entries, Nil)], next := a1.next + 1)
  }

  /** The secrets found, by their keys; a later item replaces an earlier one. */
  function FoundSetting(items: List<Item>): map<string, Value> {
    match items
    case Nil => map[]
    case Snoc(init, item) =>
      if item.secret.Some? && item.key.Some? then FoundSetting(init)[item.key.value := Text(item.secret.value)]
      else FoundSetting(init)
  }

  /** get_secrets_keyring_cb, for the request with this id. */
  function KeyringDone(a: Agent, id: string, result: SearchResult): Agent
    requires result != SearchCancelled ==> id in a.requests
  {
    match result
    case SearchCancelled => a
    case SearchFailed => Fire(a, id, Failed)
    case SearchFound(items) =>
      var r, setting := a.requests[id], FoundSetting(items);
      if r.settingName == VPN_SETTING || (setting == map[] && r.flags.allowInteraction) then
        a.(requests := a.requests[id := r.(entries := Some(setting))])
      else Fire(a, id, Secrets(r.settingName, setting))
  }

  function AddVpnSecret(a: Agent, id: string, key: string, value: string): Agent {
    if id !in a.requests then a
    else a.(requests := a.requests[id := a.requests[id].(vpn := Snoc(a.requests[id].vpn, (key, value)))])
  }

  function SetPassword(a: Agent, id: string, key: string, value: string): Agent {
    if id !in a.requests || a.requests[id].entries.None? then a
    else
      var r := a.requests[id];
      a.(requests := a.requests[id := r.(entries := Some(r.entries.value[key := Text(value)]))])
  }

  /** What a confirmed request is answered. */
  function Setting(r: Request): map<string, Value> {
    var entries := if r.entries.Some? then r.entries.value else map[];
    if r.vpn == Nil then entries else entries[VPN_SECRETS := VpnSecrets(r.vpn)]
  }

  predicate Saves(flags: Flags) {
    flags.allowInteraction || flags.requestNew
  }

  /** The secrets of a confirmed request are saved first if the user could be asked for them. */
  function SaveSecrets(a: Agent, r: Request): Agent {
    if Saves(r.flags) then a.(saved := Snoc(a.saved, Saved(r.call, r.settingName, Setting(r)))) else a
  }

  /** shell_network_agent_respond. */
  function Respond(a: Agent, id: string, response: Response): Agent {
    if id !in a.requests then a
    else
      match response
      case ByUserCanceled => Fire(a, id, UserCanceled)
      case InternalError => Fire(a, id, Failed)
      case Confirmed =>
        var r := a.requests[id];
        Fire(SaveSecrets(a, r), id, Secrets(r.settingName, Setting(r)))
  }

  /** shell_network_agent_cancel_get_secrets. */
  function CancelGetSecrets(a: Agent, path: string, settingName: string): Agent {
    var id := RequestId(path, settingName);
    if id in a.requests then Fire(a, id, AgentCanceled) else a
  }

  /** shell_network_agent_finalize, which walks the table in some order. */
  function FireAll(a: Agent, order: List<string>): Agent {
    match order
    case Nil => a
    case Snoc(init, id) =>
      var a1 := FireAll(a, init);
      if id in a1.requests then Fire(a1, id, AgentCanceled) else a1
  }

  // ---- Runs ----

  datatype Input =
    | InGetSecrets(path: string, settingName: string, flags: Flags, alwaysAsk: bool)
    | InKeyringDone(id: string, call: nat, result: SearchResult)
    | InAddVpnSecret(id: string, key: string, value: string)
    | InSetPassword(id: string, key: string, value: string)
    | InRespond(id: string, response: Response)
    | InCancel(path: string, settingName: string)
    | InFinalize(order: List<string>)

  /** A search is under way while its request has no entries. Its result comes as cancelled exactly when the request
      is gone, which cancelled it. */
  predicate Enabled(a: Agent, input: Input) {
    match input
    case InKeyringDone(id, call, result) =>
      if HasCall(a, id, call) then result != SearchCancelled && a.requests[id].entries.None?
      else result == SearchCancelled
    case _ => true
  }

  function Step(a: Agent, input: Input): Agent
    requires Enabled(a, input)
  {
    match input
    case InGetSecrets(path, settingName, flags, alwaysAsk) => GetSecrets(a, path, settingName, flags, alwaysAsk)
    case InKeyringDone(id, call, result) => KeyringDone(a, id, result)
    case InAddVpnSecret(id, key, value) => AddVpnSecret(a, id, key, value)
    case InSetPassword(id, key, value) => SetPassword(a, id, key, value)
    case InRespond(id, response) => Respond(a, id, response)
    case InCancel(path, settingName) => CancelGetSecrets(a, path, settingName)
    case InFinalize(order) => FireAll(a, order)
  }

  /** Inputs that cannot happen are passed over. */
  function Run(forceAlwaysAsk: bool, inputs: List<Input>): Agent {
    match inputs
    case Nil => Agent(map[], forceAlwaysAsk, 0, Nil, Nil)
    case Snoc(init, input) =>
      var a := Run(forceAlwaysAsk, init);
      if Enabled(a, input) then Step(a, input) else a
  }

  // ---- What every run keeps ----

  function TimesFired(fired: List<(nat, Reply)>, call: nat): nat {
    match fired
    case Nil => 0
    case Snoc(init, f) => TimesFired(init, call) + if f.0 == call then 1 else 0
  }

  ghost predicate Outstanding(a: Agent, call: nat) {
    exists id :: HasCall(a, id, call)
  }

  predicate HasCall(a: Agent, id: string, call: nat) {
    id in a.requests && a.requests[id].call == call
  }

  /** A call that came and is not outstanding was answered exactly once; any other not at all. */
  ghost predicate Inv(a: Agent) {
    && (forall id :: id in a.requests ==> a.requests[id].call < a.next)
    && (forall id, id' :: id in a.requests && id' in a.requests && a.requests[id].call == a.requests[id'].call ==> id == id')
    && (forall call: nat {:trigger TimesFired(a.fired, call)} ::
         TimesFired(a.fired, call) == if call < a.next && !Outstanding(a, call) then 1 else 0)
  }

  lemma FireKeeps(a: Agent, id: string, reply: Reply)
    requires Inv(a) && id in a.requests
    ensures Inv(Fire(a, id, reply)) && !Outstanding(Fire(a, id, reply), a.requests[id].call)
    ensures TimesFired(Fire(a, id, reply).fired, a.requests[id].call) == 1
  {
    var a', c := Fire(a, id, reply), a.requests[id].call;
    forall call: nat ensures Outstanding(a', call) <==> Outstanding(a, call) && call != c {
      assert HasCall(a, id, c);
      if Outstanding(a, call) && call != c {
        var i :| HasCall(a, i, call);
        assert HasCall(a', i, call);
      }
      if Outstanding(a', call) {
        var i :| HasCall(a', i, call);
        assert HasCall(a, i, call);
      }
    }
    forall call: nat ensures TimesFired(a'.fired, call) == if call < a'.next && !Outstanding(a', call) then 1 else 0 {
      assert TimesFired(a'.fired, call) == TimesFired(a.fired, call) + if c == call then 1 else 0;
      assert HasCall(a, id, c);
    }
  }

  lemma NewKeeps(a: Agent, id: string, r: Request)
    requires Inv(a) && id !in a.requests && r.call == a.next
    ensures Inv(a.(requests := a.requests[id := r], next := a.next + 1))
  {
    var a' := a.(requests := a.requests[id := r], next := a.next + 1);
    forall call: nat ensures Outstanding(a', call) <==> Outstanding(a, call) || call == a.next {
      if Outstanding(a, call) {
        var i :| HasCall(a, i, call);
        assert HasCall(a', i, call);
      }
      if Outstanding(a', call) {
        var i :| HasCall(a', i, call);
        if i != id {
          assert HasCall(a, i, call);
        }
      }
      assert HasCall(a', id, a.next);
    }
    forall call: nat ensures TimesFired(a'.fired, call) == if call < a'.next && !Outstanding(a', call) then 1 else 0 {
      assert TimesFired(a.fired, call) == if call < a.next && !Outstanding(a, call) then 1 else 0;
    }
  }

  lemma SaveKeeps(a: Agent, r: Request)
    requires Inv(a)
    ensures Inv(SaveSecrets(a, r))
  {
    var a' := SaveSecrets(a, r);
    forall call: nat ensures Outstanding(a', call) <==> Outstanding(a, call) {
      assert forall i :: HasCall(a', i, call) <==> HasCall(a, i, call);
    }
  }

  /** A request is filled in while it waits. */
  lemma EditKeeps(a: Agent, id: string, r: Request)
    requires Inv(a) && id in a.requests && r.call == a.requests[id].call
    ensures Inv(a.(requests := a.requests[id := r]))
  {
    var a' := a.(requests := a.requests[id := r]);
    forall call: nat ensures Outstanding(a', call) <==> Outstanding(a, call) {
      assert forall i :: HasCall(a', i, call) <==> HasCall(a, i, call);
    }
  }

  lemma {:induction false} FireAllKeeps(a: Agent, order: List<string>)
    requires Inv(a)
    ensures
      var a' := FireAll(a, order);
      && Inv(a') && a'.next == a.next && forall id :: id in a'.requests <==> id in a.requests && !Contains(order, id)
  {
    if order.Snoc? {
      FireAllKeeps(a, order.init);
      var a1 := FireAll(a, order.init);
      if order.last in a1.requests {
        FireKeeps(a1, order.last, AgentCanceled);
      }
    }
  }

  lemma GetSecretsKeeps(a: Agent, path: string, settingName: string, flags: Flags, alwaysAsk: bool)
    requires Inv(a)
    ensures Inv(GetSecrets(a, path, settingName, flags, alwaysAsk))
  {
    var id := RequestId(path, settingName);
    var a1 := if id in a.requests then Fire(a, id, AgentCanceled) else a;
    if id in a.requests {
      FireKeeps(a, id, AgentCanceled);
    }
    NewKeeps(a1, id, GetSecrets(a, path, settingName, flags, alwaysAsk).requests[id]);
  }

  lemma KeyringKeeps(a: Agent, id: string, result: SearchResult)
    requires Inv(a) && (result != SearchCancelled ==> id in a.requests)
    ensures Inv(KeyringDone(a, id, result))
  {
    match result
    case SearchCancelled =>
    case SearchFailed => FireKeeps(a, id, Failed);
    case SearchFound(items) =>
      var r, setting := a.requests[id], FoundSetting(items);
      FireKeeps(a, id, Secrets(r.settingName, setting));
      EditKeeps(a, id, r.(entries := Some(setting)));
  }

  lemma StepKeeps(a: Agent, input: Input)
    requires Inv(a) && Enabled(a, input)
    ensures Inv(Step(a, input))
  {
    match input
    case InGetSecrets(path, settingName, flags, alwaysAsk) => GetSecretsKeeps(a, path, settingName, flags, alwaysAsk);
    case InKeyringDone(id, _, result) => KeyringKeeps(a, id, result);
    case InAddVpnSecret(id, key, value) =>
      if id in a.requests {
        EditKeeps(a, id, Step(a, input).requests[id]);
      }
    case InSetPassword(id, key, value) =>
      if id in a.requests && a.requests[id].entries.Some? {
        EditKeeps(a, id, Step(a, input).requests[id]);
      }
    case InRespond(id, response) =>
      if id in a.requests {
        var a1 := if response == Confirmed then SaveSecrets(a, a.requests[id]) else a;
        SaveKeeps(a, a.requests[id]);
        FireKeeps(a1, id, Step(a, input).fired.last.1);
      }
    case InCancel(path, settingName) =>
      var id := RequestId(path, settingName);
      if id in a.requests {
        FireKeeps(a, id, AgentCanceled);
      }
    case InFinalize(order) => FireAllKeeps(a, order);
  }

  /** In every run each call is answered at most once, and is in the table exactly as long as it is not answered,
      whatever replaces, cancels, completes or answers it, and in whatever order. */
  lemma {:induction false} AnsweredOnce(forceAlwaysAsk: bool, inputs: List<Input>)
    ensures Inv(Run(forceAlwaysAsk, inputs))
  {
    if inputs.Snoc? {
      AnsweredOnce(forceAlwaysAsk, inputs.init);
      var a := Run(forceAlwaysAsk, inputs.init);
      if Enabled(a, inputs.last) {
        StepKeeps(a, inputs.last);
      }
    } else {
      var a := Run(forceAlwaysAsk, Nil);
      assert a.next == 0 && a.fired == Nil;
      assert forall call: nat :: TimesFired(Nil, call) == 0;
    }
  }

  /** When the agent goes away every call that ever came has been answered exactly once. */
  lemma FinalizeAnswersAll(a: Agent, order: List<string>, call: nat)
    requires Inv(a) && forall id :: id in a.requests ==> Contains(order, id)
    ensures FireAll(a, order).requests == map[]
    ensures TimesFired(FireAll(a, order).fired, call) == if call < a.next then 1 else 0
  {
    FireAllKeeps(a, order);
    var a' := FireAll(a, order);
    assert !Outstanding(a', call);
    assert TimesFired(a'.fired, call) == if call < a'.next && !Outstanding(a', call) then 1 else 0;
  }

  // ---- What a confirmed request is answered ----

  /** The edits a user's dialog makes to one request. */
  datatype Edit = Password(key: string, value: string) | VpnSecret(key: string, value: string)

  function Edited(r: Request, edits: List<Edit>): Request
    requires r.entries.Some?
    ensures Edited(r, edits).entries.Some?
  {
    match edits
    case Nil => r
    case Snoc(init, Password(key, value)) =>
      var r1 := Edited(r, init);
      r1.(entries := Some(r1.entries.value[key := Text(value)]))
    case Snoc(init, VpnSecret(key, value)) =>
      var r1 := Edited(r, init);
      r1.(vpn := Snoc(r1.vpn, (key, value)))
  }

  /** The last password given for a key. */
  function LastPassword(edits: List<Edit>, key: string): Option<string> {
    match edits
    case Nil => None
    case Snoc(_, Password(k, value)) => if k == key then Some(value) else LastPassword(edits.init, key)
    case Snoc(init, VpnSecret(_, _)) => LastPassword(init, key)
  }

  function VpnSecretsGiven(edits: List<Edit>): List<(string, string)> {
    match edits
    case Nil => Nil
    case Snoc(init, Password(_, _)) => VpnSecretsGiven(init)
    case Snoc(init, VpnSecret(key, value)) => Snoc(VpnSecretsGiven(init), (key, value))
  }

  lemma {:induction false} EditedIs(r: Request, edits: List<Edit>, key: string)
    requires r.entries.Some?
    ensures
      var r', last, before := Edited(r, edits), LastPassword(edits, key), r.entries.value;
      && r'.vpn == Concat(r.vpn, VpnSecretsGiven(edits))
      && (key in r'.entries.value <==> last.Some? || key in before)
      && (last.Some? ==> r'.entries.value[key] == Text(last.value))
      && (last.None? && key in before ==> r'.entries.value[key] == before[key])
  {
    if edits.Snoc? {
      EditedIs(r, edits.init, key);
    }
  }

  /** The edits that the inputs after start make to the request with this id. */
  ghost function Given(start: List<Input>, inputs: List<Input>, id: string): List<Edit> {
    if inputs == start || inputs.Nil? then Nil
    else
      var before := Given(start, inputs.init, id);
      match inputs.last
      case InSetPassword(i, key, value) => if i == id then Snoc(before, Password(key, value)) else before
      case InAddVpnSecret(i, key, value) => if i == id then Snoc(before, VpnSecret(key, value)) else before
      case _ => before
  }

  /** The request stays the same, or is edited by its dialog, as long as its call is outstanding. */
  ghost predicate EditedBy(r: Request, r': Request, id: string, input: Input)
    requires r.entries.Some?
  {
    r' == match input
          case InSetPassword(i, key, value) => if i == id then Edited(r, Snoc(Nil, Password(key, value))) else r
          case InAddVpnSecret(i, key, value) => if i == id then Edited(r, Snoc(Nil, VpnSecret(key, value))) else r
          case _ => r
  }

  lemma {:induction false} FireAllLeaves(a: Agent, order: List<string>, id: string)
    ensures id in FireAll(a, order).requests ==> id in a.requests && FireAll(a, order).requests[id] == a.requests[id]
    ensures FireAll(a, order).next == a.next
  {
    if order.Snoc? {
      FireAllLeaves(a, order.init, id);
    }
  }

  lemma StepEdits(a: Agent, input: Input, id: string, call: nat)
    requires Enabled(a, input) && HasCall(Step(a, input), id, call) && call < a.next
    ensures HasCall(a, id, call)
    ensures
      a.requests[id].entries.Some? ==> EditedBy(a.requests[id], Step(a, input).requests[id], id, input)
  {
    if input.InFinalize? {
      FireAllLeaves(a, input.order, id);
    }
  }

  lemma {:induction false} NextGrows(forceAlwaysAsk: bool, start: List<Input>, inputs: List<Input>)
    requires IsPrefix(start, inputs)
    ensures Run(forceAlwaysAsk, start).next <= Run(forceAlwaysAsk, inputs).next
  {
    if start != inputs {
      NextGrows(forceAlwaysAsk, start, inputs.init);
      var a := Run(forceAlwaysAsk, inputs.init);
      if inputs.last.InFinalize? {
        FireAllLeaves(a, inputs.last.order, "");
      }
    }
  }

  /** As long as a call is outstanding its request is what the edits made since have made of it. */
  lemma {:induction false} RunEdits(forceAlwaysAsk: bool, start: List<Input>, inputs: List<Input>, id: string, call: nat)
    requires IsPrefix(start, inputs)
    requires
      var a := Run(forceAlwaysAsk, start);
      HasCall(a, id, call) && call < a.next && a.requests[id].entries.Some?
    requires HasCall(Run(forceAlwaysAsk, inputs), id, call)
    ensures Run(forceAlwaysAsk, inputs).requests[id] ==
      Edited(Run(forceAlwaysAsk, start).requests[id], Given(start, inputs, id))
  {
    if start != inputs {
      var a := Run(forceAlwaysAsk, inputs.init);
      NextGrows(forceAlwaysAsk, start, inputs.init);
      if Enabled(a, inputs.last) {
        StepEdits(a, inputs.last, id, call);
      }
      RunEdits(forceAlwaysAsk, start, inputs.init, id, call);
    }
  }

  /** The key of an answer: the password last given for it, or else what the entries had before; and all VPN secrets
      in the order given under their one key, if there are any. */
  ghost predicate AnswersKey(answer: map<string, Value>, before: map<string, Value>, vpn: List<(string, string)>,
                             edits: List<Edit>, key: string)
  {
    var last, all := LastPassword(edits, key), Concat(vpn, VpnSecretsGiven(edits));
    if key == VPN_SECRETS && all != Nil then key in answer && answer[key] == VpnSecrets(all)
    else if last.Some? then key in answer && answer[key] == Text(last.value)
    else (key in answer <==> key in before) && (key in answer ==> answer[key] == before[key])
  }

  /** In every run, when a call that had entries at some time start is confirmed, the one reply to it holds for every
      key the password last given for that call since start, or else what its entries had at start, and all VPN
      secrets in their order; and exactly that is saved if the user could be asked. */
  lemma ConfirmedAnswer(forceAlwaysAsk: bool, start: List<Input>, inputs: List<Input>, id: string, call: nat)
    requires IsPrefix(start, inputs)
    requires HasCall(Run(forceAlwaysAsk, start), id, call) && Run(forceAlwaysAsk, start).requests[id].entries.Some?
    requires HasCall(Run(forceAlwaysAsk, inputs), id, call)
    ensures
      var r, edits := Run(forceAlwaysAsk, start).requests[id], Given(start, inputs, id);
      var a, a' := Run(forceAlwaysAsk, inputs), Run(forceAlwaysAsk, Snoc(inputs, InRespond(id, Confirmed)));
      && a'.fired.Snoc? && a'.fired.init == a.fired && a'.fired.last.0 == call
      && var reply := a'.fired.last.1;
      && reply.Secrets? && reply.settingName == r.settingName
      && (forall key :: AnswersKey(reply.setting, r.entries.value, r.vpn, edits, key))
      && a'.saved == if Saves(r.flags) then Snoc(a.saved, Saved(call, r.settingName, reply.setting)) else a.saved
  {
    AnsweredOnce(forceAlwaysAsk, start);
    RunEdits(forceAlwaysAsk, start, inputs, id, call);
    var r, edits := Run(forceAlwaysAsk, start).requests[id], Given(start, inputs, id);
    var answer := Setting(Edited(r, edits));
    EditedKeeps(r, edits);
    forall key ensures AnswersKey(answer, r.entries.value, r.vpn, edits, key) {
      EditedIs(r, edits, key);
    }
  }

  lemma {:induction false} EditedKeeps(r: Request, edits: List<Edit>)
    requires r.entries.Some?
    ensures
      var r' := Edited(r, edits);
      r'.call == r.call && r'.settingName == r.settingName && r'.flags == r.flags
  {
    if edits.Snoc? {
      EditedKeeps(r, edits.init);
    }
  }

  /** Entries begin empty when the user is asked at once, and with what the keyring had otherwise. */
  lemma EntriesBegin(forceAlwaysAsk: bool, inputs: List<Input>, input: Input, id: string, call: nat)
    requires
      var a, a' := Run(forceAlwaysAsk, inputs), Run(forceAlwaysAsk, Snoc(inputs, input));
      && HasCall(a', id, call) && a'.requests[id].entries.Some?
      && !(HasCall(a, id, call) && a.requests[id].entries.Some?)
    ensures
      var r' := Run(forceAlwaysAsk, Snoc(inputs, input)).requests[id];
      match input
      case InGetSecrets(_, _, _, _) => r'.entries == Some(map[]) && r'.vpn == Nil
      case InKeyringDone(_, _, SearchFound(items)) =>
        && HasCall(Run(forceAlwaysAsk, inputs), id, call)
        && r'.entries == Some(FoundSetting(items)) && r'.vpn == Run(forceAlwaysAsk, inputs).requests[id].vpn
      case _ => false
  {
    var a := Run(forceAlwaysAsk, inputs);
    if Enabled(a, input) && input.InFinalize? {
      FireAllLeaves(a, input.order, id);
    }
  }

  /** What a step saves it answers, and no answer is taken back. */
  ghost predicate SavesAnswers(a: Agent, a': Agent) {
    && (forall f :: Contains(a.fired, f) ==> Contains(a'.fired, f))
    && (a'.saved != a.saved ==>
        && a'.saved.Snoc? && a'.saved.init == a.saved
        && var s := a'.saved.last; Contains(a'.fired, (s.call, Secrets(s.settingName, s.setting))))
  }

  lemma {:induction false} FireAllSaves(a: Agent, order: List<string>)
    ensures SavesAnswers(a, FireAll(a, order)) && FireAll(a, order).saved == a.saved
  {
    if order.Snoc? {
      FireAllSaves(a, order.init);
    }
  }

  lemma StepSaves(a: Agent, input: Input)
    requires Enabled(a, input)
    ensures SavesAnswers(a, Step(a, input))
  {
    if input.InFinalize? {
      FireAllSaves(a, input.order);
    }
  }

  lemma {:induction false} AnsweredOften(fired: List<(nat, Reply)>, f: (nat, Reply))
    requires Contains(fired, f)
    ensures TimesFired(fired, f.0) > 0
  {
    if fired.last != f {
      AnsweredOften(fired.init, f);
    }
  }

  lemma {:induction false} SavedIsAnswer(forceAlwaysAsk: bool, inputs: List<Input>, s: Saved)
    requires Contains(Run(forceAlwaysAsk, inputs).saved, s)
    ensures Contains(Run(forceAlwaysAsk, inputs).fired, (s.call, Secrets(s.settingName, s.setting)))
  {
    if inputs.Snoc? {
      var a := Run(forceAlwaysAsk, inputs.init);
      if Enabled(a, inputs.last) {
        StepSaves(a, inputs.last);
      }
      if Contains(a.saved, s) {
        SavedIsAnswer(forceAlwaysAsk, inputs.init, s);
      }
    }
  }

  /** In every run, whatever was saved is the one answer that its call got. */
  lemma SavedWasAnswered(forceAlwaysAsk: bool, inputs: List<Input>, s: Saved)
    requires Contains(Run(forceAlwaysAsk, inputs).saved, s)
    ensures
      var fired := Run(forceAlwaysAsk, inputs).fired;
      Contains(fired, (s.call, Secrets(s.settingName, s.setting))) && TimesFired(fired, s.call) == 1
  {
    var a := Run(forceAlwaysAsk, inputs);
    SavedIsAnswer(forceAlwaysAsk, inputs, s);
    AnsweredOften(a.fired, (s.call, Secrets(s.settingName, s.setting)));
    AnsweredOnce(forceAlwaysAsk, inputs);
  }

  // ---- Saving: what is stored ----

  const AGENT_OWNED := 1

  datatype VpnItem = VpnItem(key: string, secret: Option<string>, flags: nat)

  /** A property of a setting: flags is 0 if they cannot be read, text is None if it does not hold a string. A VPN
      setting has its secrets in items. */
  datatype Property = Property(settingName: string, key: string, isSecret: bool, text: Option<string>, flags: nat,
                               items: seq<VpnItem>)

  /** A secret in the keyring, with the attributes it is found by. */
  datatype Stored = Stored(settingName: string, key: string, secret: string)

  /** A secret that is to be kept: it is not empty, and owned by the agent and nothing else. */
  predicate Kept(secret: Option<string>, flags: nat) {
    secret.Some? && secret.value != "" && flags == AGENT_OWNED
  }

  /** The property of a VPN setting that is a table of secrets. */
  predicate IsVpnTable(p: Property) {
    p.settingName == VPN_SETTING && p.key == VPN_SECRETS
  }

  /** A kept secret of the connection: the text of a property, or an item of its VPN secrets. */
  ghost predicate KeptIn(properties: seq<Property>, st: Stored) {
    exists i :: 0 <= i < |properties| && KeptBy(properties[i], st)
  }

  ghost predicate KeptBy(p: Property, st: Stored) {
    && p.isSecret && st.settingName == p.settingName
    && if IsVpnTable(p) then KeptItem(p.items, st)
       else st.key == p.key && p.text == Some(st.secret) && Kept(p.text, p.flags)
  }

  ghost predicate KeptItem(items: seq<VpnItem>, st: Stored) {
    exists j :: 0 <= j < |items| && ItemKept(items[j], st)
  }

  predicate ItemKept(item: VpnItem, st: Stored) {
    st.key == item.key && item.secret == Some(st.secret) && Kept(item.secret, item.flags)
  }

  /** What is stored for the first n items of a VPN table, in order. */
  function ItemStores(settingName: string, items: seq<VpnItem>, n: nat): List<Stored>
    requires n <= |items|
  {
    if n == 0 then Nil
    else
      var before, item := ItemStores(settingName, items, n - 1), items[n - 1];
      if Kept(item.secret, item.flags) then Snoc(before, Stored(settingName, item.key, item.secret.value)) else before
  }

  function PropertyStores(p: Property): List<Stored> {
    if !p.isSecret then Nil
    else if IsVpnTable(p) then ItemStores(p.settingName, p.items, |p.items|)
    else if Kept(p.text, p.flags) then Snoc(Nil, Stored(p.settingName, p.key, p.text.value))
    else Nil
  }

  /** What is stored for the first n properties of a connection, in order. */
  function Stores(properties: seq<Property>, n: nat): List<Stored>
    requires n <= |properties|
  {
    if n == 0 then Nil else Concat(Stores(properties, n - 1), PropertyStores(properties[n - 1]))
  }

  lemma {:induction false} ItemsStored(settingName: string, items: seq<VpnItem>, n: nat, st: Stored)
    requires n <= |items|
    ensures Contains(ItemStores(settingName, items, n), st) <==>
      st.settingName == settingName && exists j :: 0 <= j < n && ItemKept(items[j], st)
  {
    if n > 0 {
      ItemsStored(settingName, items, n - 1, st);
    }
  }

  lemma PropertyStored(p: Property, st: Stored)
    ensures Contains(PropertyStores(p), st) <==> KeptBy(p, st)
  {
    ItemsStored(p.settingName, p.items, |p.items|, st);
  }

  lemma {:induction false} ContainsConcat<T>(a: List<T>, b: List<T>, t: T)
    ensures Contains(Concat(a, b), t) <==> Contains(a, t) || Contains(b, t)
  {
    if b.Snoc? {
      ContainsConcat(a, b.init, t);
    }
  }

  /** The secrets stored are the kept secrets of the connection. */
  lemma {:induction false} StoredAreKept(properties: seq<Property>, n: nat, st: Stored)
    requires n <= |properties|
    ensures Contains(Stores(properties, n), st) <==> exists i :: 0 <= i < n && KeptBy(properties[i], st)
  {
    if n > 0 {
      StoredAreKept(properties, n - 1, st);
      PropertyStored(properties[n - 1], st);
      ContainsConcat(Stores(properties, n - 1), PropertyStores(properties[n - 1]), st);
      hide KeptBy, PropertyStores;
    }
  }

  /** The items that a search for a setting finds after these secrets were stored in an empty keyring. */
  function Found(stored: List<Stored>, settingName: string): List<Item> {
    match stored
    case Nil => Nil
    case Snoc(init, st) =>
      if st.settingName == settingName then Snoc(Found(init, settingName), Item(Some(st.key), Some(st.secret)))
      else Found(init, settingName)
  }

  /** No two kept secrets of a setting have the same key. */
  ghost predicate KeysDiffer(properties: seq<Property>) {
    forall a, b :: KeptIn(properties, a) && KeptIn(properties, b) && a.settingName == b.settingName && a.key == b.key ==>
      a == b
  }

  lemma {:induction false} FoundIsStored(stored: List<Stored>, settingName: string, key: string)
    ensures key in FoundSetting(Found(stored, settingName)) ==>
      exists secret :: FoundSetting(Found(stored, settingName))[key] == Text(secret)
                       && Contains(stored, Stored(settingName, key, secret))
    ensures forall secret :: Contains(stored, Stored(settingName, key, secret)) ==>
      key in FoundSetting(Found(stored, settingName))
  {
    if stored.Snoc? {
      FoundIsStored(stored.init, settingName, key);
      var found := FoundSetting(Found(stored.init, settingName));
      if stored.last.settingName == settingName && stored.last.key == key {
        assert Contains(stored, Stored(settingName, key, stored.last.secret));
      } else if key in found {
        var secret :| found[key] == Text(secret) && Contains(stored.init, Stored(settingName, key, secret));
        assert Contains(stored, Stored(settingName, key, secret));
      }
    }
  }

  /** What a save stored a later search gets back: for each setting exactly its kept secrets, under their keys. */
  lemma SavedIsFound(properties: seq<Property>, settingName: string, key: string)
    requires KeysDiffer(properties)
    ensures
      var found := FoundSetting(Found(Stores(properties, |properties|), settingName));
      && (key in found ==> found[key].Text?)
      && forall secret ::
           (key in found && found[key] == Text(secret)) <==> KeptIn(properties, Stored(settingName, key, secret))
  {
    var stored := Stores(properties, |properties|);
    FoundIsStored(stored, settingName, key);
    forall st ensures Contains(stored, st) <==> KeptIn(properties, st) {
      StoredAreKept(properties, |properties|, st);
    }
    hide KeptIn, Stores;
    var found := FoundSetting(Found(stored, settingName));
    forall secret
      ensures (key in found && found[key] == Text(secret)) <==> KeptIn(properties, Stored(settingName, key, secret))
    {
      if KeptIn(properties, Stored(settingName, key, secret)) {
        assert Contains(stored, Stored(settingName, key, secret));
      }
    }
  }

  // ---- Saving: the countdown ----

  /** A store is begun or completes, or the walk over the settings ends. */
  datatype SaveEvent = Issued | Completed | WalkEnded

  datatype Save = Save(nSecrets: int, fired: nat)

  function AfterSave(schedule: List<SaveEvent>): Save {
    match schedule
    case Nil => Save(0, 0)
    case Snoc(init, ev) =>
      var s := AfterSave(init);
      match ev
      case Issued => s.(nSecrets := s.nSecrets + 1)
      case Completed => Save(s.nSecrets - 1, if s.nSecrets == 1 then s.fired + 1 else s.fired)
      case WalkEnded => if s.nSecrets == 0 then s.(fired := s.fired + 1) else s
  }

  function Count(schedule: List<SaveEvent>, ev: SaveEvent): nat {
    match schedule
    case Nil => 0
    case Snoc(init, e) => Count(init, ev) + if e == ev then 1 else 0
  }

  /** Stores complete after they are begun, and none is begun once the walk has ended, which it does once. */
  predicate Proper(schedule: List<SaveEvent>) {
    schedule.Snoc? ==>
      && Proper(schedule.init)
      && match schedule.last
         case Issued => Count(schedule.init, WalkEnded) == 0
         case Completed => Count(schedule.init, Completed) < Count(schedule.init, Issued)
         case WalkEnded => Count(schedule.init, WalkEnded) == 0
  }

  /** How often, while the walk still goes on, a completion leaves no store under way. */
  function EarlyZeros(schedule: List<SaveEvent>): nat {
    match schedule
    case Nil => 0
    case Snoc(init, ev) =>
      EarlyZeros(init) +
      if ev == Completed && Count(init, WalkEnded) == 0 && Count(init, Issued) == Count(init, Completed) + 1 then 1 else 0
  }

  predicate Finished(schedule: List<SaveEvent>) {
    Proper(schedule) && Count(schedule, WalkEnded) == 1 && Count(schedule, Issued) == Count(schedule, Completed)
  }

  lemma {:induction false} SaveCounts(schedule: List<SaveEvent>)
    requires Proper(schedule)
    ensures
      var s := AfterSave(schedule);
      && s.nSecrets == Count(schedule, Issued) - Count(schedule, Completed) >= 0
      && Count(schedule, WalkEnded) <= 1
      && s.fired == EarlyZeros(schedule) +
           if Count(schedule, WalkEnded) == 1 && Count(schedule, Issued) == Count(schedule, Completed) then 1 else 0
  {
    if schedule.Snoc? {
      SaveCounts(schedule.init);
    }
  }

  /** A save that runs to its end calls back exactly once if and only if no completion during the walk leaves no store
      under way. Completions are delivered by the main loop, after the walk, so there are none. */
  lemma SavedOnceIff(schedule: List<SaveEvent>)
    requires Finished(schedule)
    ensures AfterSave(schedule).fired == 1 <==> EarlyZeros(schedule) == 0
  {
    SaveCounts(schedule);
  }

  predicate CompletedAfterWalk(schedule: List<SaveEvent>) {
    schedule.Snoc? ==>
      CompletedAfterWalk(schedule.init) && (schedule.last == Completed ==> Count(schedule.init, WalkEnded) == 1)
  }

  /** With completions after the walk the callback comes with the very last event: the end of the walk if nothing had
      to be stored, the last completion otherwise, and not before. */
  lemma {:induction false} SavedAtTheEnd(schedule: List<SaveEvent>)
    requires Proper(schedule) && CompletedAfterWalk(schedule)
    ensures AfterSave(schedule).fired == if Finished(schedule) then 1 else 0
  {
    SaveCounts(schedule);
    NoEarlyZeros(schedule);
  }

  lemma {:induction false} NoEarlyZeros(schedule: List<SaveEvent>)
    requires CompletedAfterWalk(schedule)
    ensures EarlyZeros(schedule) == 0
  {
    if schedule.Snoc? {
      NoEarlyZeros(schedule.init);
    }
  }
}
