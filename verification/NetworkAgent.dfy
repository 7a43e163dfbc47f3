/** The network secret agent with its table of pending requests, and the countdown of a save. */
module NetworkAgent {
  import opened NetworkAgentSpec
  import opened Options
  import opened SnocLists

  class ShellAgentRequest {
    const requestId: string
    const settingName: string
    const flags: Flags
    ghost const call: nat
    var entries: Option<map<string, Value>>
    var vpn: List<(string, string)>

    constructor (requestId: string, settingName: string, flags: Flags, ghost call: nat)
      ensures this.requestId == requestId && View() == Request(call, settingName, flags, None, Nil)
    {
      this.requestId, this.settingName, this.flags, this.call := requestId, settingName, flags, call;
      entries, vpn := None, Nil;
    }

    ghost function View(): Request
      reads this
    {
      Request(call, settingName, flags, entries, vpn)
    }
  }

  class ShellNetworkAgent {
    var requests: map<string, ShellAgentRequest>
    var forceAlwaysAsk: bool
    ghost var next: nat
    ghost var fired: List<(nat, Reply)>    // the callbacks made
    ghost var saved: List<Saved>           // the secrets handed to save_secrets

    ghost predicate Valid()
      reads this
    {
      forall id :: id in requests ==> requests[id].requestId == id
    }

    ghost function View(): Agent
      reads this, requests.Values
    {
      Agent(map id | id in requests :: requests[id].View(), forceAlwaysAsk, next, fired, saved)
    }

    constructor (forceAlwaysAsk: bool)
      ensures Valid() && View() == Run(forceAlwaysAsk, Nil)
    {
      requests, this.forceAlwaysAsk, next, fired, saved := map[], forceAlwaysAsk, 0, Nil, Nil;
    }

    /** A callback is made and its request freed. */
    method CallBack(request: ShellAgentRequest, reply: Reply)
      requires Valid() && request.requestId in requests && requests[request.requestId] == request
      modifies `requests, `fired
      ensures Valid() && View() == Fire(old(View()), request.requestId, reply)
      ensures requests == old(requests) - {request.requestId}
    {
      fired := Snoc(fired, (request.call, reply));
      requests := requests - {request.requestId};
    }

    /** shell_network_agent_get_secrets, up to asking the user or the keyring. */
    method GetSecrets(path: string, settingName: string, flags: Flags, alwaysAsk: bool)
      returns (request: ShellAgentRequest, askUser: bool)
      requires Valid()
      modifies this
      ensures Valid() && View() == NetworkAgentSpec.GetSecrets(old(View()), path, settingName, flags, alwaysAsk)
      ensures fresh(request) && RequestId(path, settingName) in requests
      ensures requests[RequestId(path, settingName)] == request && request.call == old(next)
      ensures askUser == AsksFirst(old(View()), flags, alwaysAsk)
    {
      var requestId := RequestId(path, settingName);
      if requestId in requests {
        CallBack(requests[requestId], AgentCanceled);
      }
      askUser := flags.requestNew || (flags.allowInteraction && (forceAlwaysAsk || alwaysAsk));
      request := AddRequest(requestId, settingName, flags, askUser);
    }

    method AddRequest(id: string, settingName: string, flags: Flags, askUser: bool) returns (request: ShellAgentRequest)
      requires Valid() && id !in requests
      modifies `requests, `next
      ensures Valid() && fresh(request) && id in requests && requests[id] == request && request.call == old(next)
      ensures
        var entries := if askUser then Some(map[]) else None;
        View() == old(View()).(
          requests := old(View()).requests[id := Request(old(next), settingName, flags, entries, Nil)],
          next := old(next) + 1)
    {
      request := new ShellAgentRequest(id, settingName, flags, next);
      if askUser {
        request.entries := Some(map[]);
      }
      requests := requests[id := request];
      next := next + 1;
    }

    method CollectItems(items: List<Item>) returns (setting: map<string, Value>)
      ensures setting == FoundSetting(items)
      decreases items
    {
      match items
      case Nil => setting := map[];
      case Snoc(init, item) =>
        setting := CollectItems(init);
        if item.secret.Some? && item.key.Some? {
          setting := setting[item.key.value := Text(item.secret.value)];
        }
    }

    /** get_secrets_keyring_cb: a cancelled search has no request any more, any other has the one it was begun for. */
    method KeyringDone(closure: ShellAgentRequest, result: SearchResult)
      requires Valid()
      requires result != SearchCancelled ==> closure.requestId in requests && requests[closure.requestId] == closure
      modifies this, closure
      ensures Valid()
      ensures result == SearchCancelled ==> View() == old(View())
      ensures result != SearchCancelled ==>
        View() == NetworkAgentSpec.KeyringDone(old(View()), closure.requestId, result)
    {
      if result == SearchCancelled {
        return;
      }
      if result == SearchFailed {
        CallBack(closure, Failed);
        return;
      }
      var setting := CollectItems(result.items);
      if closure.settingName == VPN_SETTING || (setting == map[] && closure.flags.allowInteraction) {
        closure.entries := Some(setting);
        return;
      }
      CallBack(closure, Secrets(closure.settingName, setting));
    }

    method AddVpnSecret(id: string, key: string, value: string)
      requires Valid()
      modifies requests.Values
      ensures Valid() && View() == NetworkAgentSpec.AddVpnSecret(old(View()), id, key, value)
    {
      if id in requests {
        requests[id].vpn := Snoc(requests[id].vpn, (key, value));
      }
    }

    /** The user was asked, so there are entries. */
    method SetPassword(id: string, key: string, value: string)
      requires Valid() && (id in requests ==> requests[id].entries.Some?)
      modifies requests.Values
      ensures Valid() && View() == NetworkAgentSpec.SetPassword(old(View()), id, key, value)
    {
      if id in requests {
        requests[id].entries := Some(requests[id].entries.value[key := Text(value)]);
      }
    }

    method Respond(id: string, response: Response)
      requires Valid() && (id in requests && response == Confirmed ==> requests[id].entries.Some?)
      modifies `requests, `fired, `saved
      ensures Valid() && View() == NetworkAgentSpec.Respond(old(View()), id, response)
    {
      if id !in requests {
        return;
      }
      var request := requests[id];
      match response
      case ByUserCanceled => CallBack(request, UserCanceled);
      case InternalError => CallBack(request, Failed);
      case Confirmed =>
        var setting := request.entries.value;
        if request.vpn != Nil {
          setting := setting[VPN_SECRETS := VpnSecrets(request.vpn)];
        }
        if request.flags.allowInteraction || request.flags.requestNew {
          saved := Snoc(saved, Saved(request.call, request.settingName, setting));
        }
        CallBack(request, Secrets(request.settingName, setting));
    }

    method CancelGetSecrets(path: string, settingName: string)
      requires Valid()
      modifies `requests, `fired
      ensures Valid() && View() == NetworkAgentSpec.CancelGetSecrets(old(View()), path, settingName)
    {
      var id := RequestId(path, settingName);
      if id in requests {
        CallBack(requests[id], AgentCanceled);
      }
    }

    /** shell_network_agent_finalize. */
    method Finalize() returns (ghost order: List<string>)
      requires Valid()
      modifies `requests, `fired
      ensures Valid() && View() == FireAll(old(View()), order) && requests == map[]
      ensures forall id :: id in old(requests) ==> Contains(order, id)
    {
      order := Nil;
      while requests.Keys != {}
        invariant Valid() && View() == FireAll(old(View()), order)
        invariant requests.Keys <= old(requests.Keys)
        invariant forall id :: id in old(requests) && id !in requests ==> Contains(order, id)
        decreases |requests.Keys|
      {
        var id :| id in requests.Keys;
        var left := requests.Keys;
        CallBack(requests[id], AgentCanceled);
        order := Snoc(order, id);
        assert requests.Keys == left - {id};
      }
    }
  }

  /** One save_secrets call. */
  class KeyringRequest {
    var nSecrets: int
    var stored: List<Stored>                 // the secrets given to the keyring
    ghost var fired: nat                     // how often the caller was called back
    ghost var schedule: List<SaveEvent>      // what happened so far

    ghost predicate Valid()
      reads this
    {
      Save(nSecrets, fired) == AfterSave(schedule)
    }

    /** The walk over the settings goes on, and every store of it counts. */
    ghost predicate Walking()
      reads this
    {
      && Valid() && Proper(schedule) && CompletedAfterWalk(schedule) && fired == 0
      && Count(schedule, WalkEnded) == 0 && Count(schedule, Completed) == 0
      && nSecrets == Count(schedule, Issued) == Length(stored)
    }

    constructor ()
      ensures Walking() && stored == Nil && schedule == Nil
    {
      nSecrets, stored, fired, schedule := 0, Nil, 0, Nil;
    }

    /** save_one_secret: only secrets that the agent owns are stored. */
    method SaveOneSecret(settingName: string, key: string, secret: string, flags: nat)
      requires Walking()
      modifies this
      ensures Walking()
      ensures stored == if flags == AGENT_OWNED then Snoc(old(stored), Stored(settingName, key, secret)) else old(stored)
    {
      if flags != AGENT_OWNED {
        return;
      }
      nSecrets := nSecrets + 1;
      stored := Snoc(stored, Stored(settingName, key, secret));
      schedule := Snoc(schedule, Issued);
    }

    /** nm_setting_vpn_foreach_secret with vpn_secret_iter_cb. */
    method SaveVpnSecrets(settingName: string, items: seq<VpnItem>)
      requires Walking()
      modifies this
      ensures Walking() && stored == Concat(old(stored), ItemStores(settingName, items, |items|))
    {
      for j := 0 to |items|
        invariant Walking() && stored == Concat(old(stored), ItemStores(settingName, items, j))
      {
        var item := items[j];
        if item.secret.Some? && item.secret.value != "" {
          SaveOneSecret(settingName, item.key, item.secret.value, item.flags);
        }
      }
    }

    /** write_one_secret_to_keyring. */
    method WriteOneSecret(p: Property)
      requires Walking()
      modifies this
      ensures Walking() && stored == Concat(old(stored), PropertyStores(p))
    {
      if !p.isSecret {
        return;
      }
      if IsVpnTable(p) {
        SaveVpnSecrets(p.settingName, p.items);
      } else if p.text.Some? && p.text.value != "" {
        SaveOneSecret(p.settingName, p.key, p.text.value, p.flags);
      }
    }

    method SaveSecretCallback()
      requires Valid()
      modifies this
      ensures Valid() && schedule == Snoc(old(schedule), Completed) && stored == old(stored)
    {
      nSecrets := nSecrets - 1;
      if nSecrets == 0 {
        fired := fired + 1;
      }
      schedule := Snoc(schedule, Completed);
    }

    /** save_delete_cb: the old items are deleted, all secrets of the connection are walked over, and with none to
        store the save is done. */
    method SaveDeleteCallback(properties: seq<Property>)
      requires Walking() && stored == Nil
      modifies this
      ensures Valid() && Proper(schedule) && CompletedAfterWalk(schedule)
      ensures stored == Stores(properties, |properties|)
      ensures Count(schedule, WalkEnded) == 1 && Count(schedule, Completed) == 0
      ensures nSecrets == Count(schedule, Issued) == Length(stored)
      ensures fired == if nSecrets == 0 then 1 else 0
    {
      for i := 0 to |properties|
        invariant Walking() && stored == Stores(properties, i)
      {
        WriteOneSecret(properties[i]);
      }
      if nSecrets == 0 {
        fired := fired + 1;
      }
      schedule := Snoc(schedule, WalkEnded);
    }
  }
}
