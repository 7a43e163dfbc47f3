/** Which calls a performance log accepts, told from the operations alone: what was defined, switched, updated and
    collected before a call decides, and no table or record of the log. */
module PerfLogCallLaws {
  import opened Bytes
  import opened Options
  import opened PerfLogLaws
  import opened PerfLogSpec
  import opened SnocLists

  /** What happens to a log, one thing after the other: callers ask, a collection visits the statistics, and closes. */
  datatype Act = Asked(basic: Basic) | Visits(begin: Time) | Closes(begin: Time, elapsed: int64)

  /** The log was last switched on. */
  predicate On(t: List<Act>) {
    match t
    case Nil => false
    case Snoc(_, Asked(SetEnabled(on))) => on
    case Snoc(init, _) => On(init)
  }

  function AskedAll(t: List<Act>, callbacks: seq<Basic>): List<Act> {
    if callbacks == [] then t
    else Snoc(AskedAll(t, callbacks[..|callbacks| - 1]), Asked(callbacks[|callbacks| - 1]))
  }

  /** A collection of a log that is switched off does nothing at all. */
  function Acts(ops: List<Op>): List<Act> {
    match ops
    case Nil => Nil
    case Snoc(init, Do(basic)) => Snoc(Acts(init), Asked(basic))
    case Snoc(init, Collect(begin, elapsed, callbacks)) =>
      if On(Acts(init)) then Snoc(Snoc(AskedAll(Acts(init), callbacks), Visits(begin)), Closes(begin, elapsed))
      else Acts(init)
  }

  // ---- What was defined ----

  predicate Definition(known: map<string, string>, name: string, signature: string) {
    && (signature == "" || signature == "s" || signature == "i" || signature == "x")
    && '"' !in name && name !in known && |known| != 65536
  }

  /** The names that can be recorded, with their signatures. */
  function Known(t: List<Act>): map<string, string> {
    match t
    case Nil => map["perf.setTime" := "x", "perf.statisticsCollected" := "x"]
    case Snoc(init, Asked(DefineEvent(name, _, signature))) =>
      if Definition(Known(init), name, signature) then Known(init)[name := signature] else Known(init)
    case Snoc(init, Asked(DefineStat(name, _, signature))) =>
      if (signature == "i" || signature == "x") && Definition(Known(init), name, signature)
      then Known(init)[name := signature] else Known(init)
    case Snoc(init, _) => Known(init)
  }

  /** The statistics in the order of their definition. */
  function Statistics(t: List<Act>): seq<string> {
    match t
    case Nil => []
    case Snoc(init, Asked(DefineStat(name, _, signature))) =>
      if (signature == "i" || signature == "x") && Definition(Known(init), name, signature)
      then Statistics(init) + [name] else Statistics(init)
    case Snoc(init, _) => Statistics(init)
  }

  // ---- Statistics ----

  /** The value a statistic was last given, of its own type. */
  function Value(t: List<Act>, name: string): Option<Arg> {
    match t
    case Nil => None
    case Snoc(init, Asked(UpdateStat(n, value))) =>
      if n == name && name in Statistics(init) && name in Known(init) && Known(init)[name] == value.Signature()
      then Some(value) else Value(init, name)
    case Snoc(init, _) => Value(init, name)
  }

  /** The value it had when a collection last found it to be due. */
  function Taken(t: List<Act>, name: string): Option<Arg>
    decreases t, 0
  {
    match t
    case Nil => None
    case Snoc(init, Visits(_)) => if Due(init, name) then Value(init, name) else Taken(init, name)
    case Snoc(init, _) => Taken(init, name)
  }

  predicate Due(t: List<Act>, name: string)
    decreases t, 1
  {
    Value(t, name).Some? && Value(t, name) != Taken(t, name)
  }

  // ---- What is accepted ----

  /** The record is no larger than a block. */
  predicate FitsBlock(arg: Arg) {
    arg.Str? ==> |arg.s| + 7 <= 8192
  }

  function AcceptedCalls(t: List<Act>): List<Accepted>
    decreases t, 0
  {
    match t
    case Nil => Nil
    case Snoc(init, Asked(RecordEvent(time, name, arg))) =>
      if On(init) && name in Known(init) && Known(init)[name] == arg.Signature() && FitsBlock(arg)
      then Snoc(AcceptedCalls(init), Accepted(time, name, arg)) else AcceptedCalls(init)
    case Snoc(init, Visits(begin)) =>
      if On(init) then WithDues(init, begin, |Statistics(init)|) else AcceptedCalls(init)
    case Snoc(init, Closes(begin, elapsed)) =>
      if On(init) then Snoc(AcceptedCalls(init), Accepted(begin, "perf.statisticsCollected", Long(elapsed)))
      else AcceptedCalls(init)
    case Snoc(init, _) => AcceptedCalls(init)
  }

  /** Behind them, those of the first n statistics that are due. */
  function WithDues(t: List<Act>, begin: Time, n: nat): List<Accepted>
    requires n <= |Statistics(t)|
    decreases t, n + 1
  {
    if n == 0 then AcceptedCalls(t)
    else
      var before, name := WithDues(t, begin, n - 1), Statistics(t)[n - 1];
      if Due(t, name) then Snoc(before, Accepted(begin, name, Value(t, name).value)) else before
  }

  // ---- A log is what it was told ----

  ghost predicate NameTold(log: Log, t: List<Act>, name: string) {
    && (name in log.ids <==> name in Known(t))
    && (name in log.ids ==> log.ids[name] < |log.events| && log.events[log.ids[name]].signature == Known(t)[name])
  }

  ghost predicate ValueTold(stat: Stat, value: Option<Arg>, taken: Option<Arg>) {
    && (stat.initialized <==> value.Some?) && (value.Some? ==> stat.current == value.value)
    && (stat.recorded <==> taken.Some?) && (taken.Some? ==> stat.last == taken.value && value.Some?)
  }

  ghost predicate StatTold(log: Log, t: List<Act>, k: int) {
    0 <= k < |log.stats| && k < |Statistics(t)| ==>
      && log.stats[k].id < |log.events| && log.events[log.stats[k].id].name == Statistics(t)[k]
      && ValueTold(log.stats[k], Value(t, Statistics(t)[k]), Taken(t, Statistics(t)[k]))
  }

  ghost predicate TablesTold(log: Log, t: List<Act>) {
    && Inv(log) && log.enabled == On(t)
    && |log.events| == |Known(t)| && (forall name :: NameTold(log, t, name))
    && |log.stats| == |Statistics(t)| && (forall k :: StatTold(log, t, k))
    && (forall name :: name in log.statIds <==> name in Statistics(t))
  }

  ghost predicate AsTold(log: Log, t: List<Act>) {
    TablesTold(log, t) && log.history == AcceptedCalls(t)
  }

  lemma {:induction false} OnlyStatisticsHaveValues(t: List<Act>, name: string)
    ensures Value(t, name).Some? ==> name in Statistics(t)
    ensures Taken(t, name).Some? ==> Value(t, name).Some?
  {
    if t.Snoc? {
      OnlyStatisticsHaveValues(t.init, name);
    }
  }

  /** A definition is no more than a definition. */
  lemma DefinesOnly(t: List<Act>, basic: Basic)
    requires basic.DefineEvent? || basic.DefineStat?
    ensures
      var t' := Snoc(t, Asked(basic));
      && On(t') == On(t) && AcceptedCalls(t') == AcceptedCalls(t)
      && forall n :: Value(t', n) == Value(t, n) && Taken(t', n) == Taken(t, n)
  {
  }

  lemma DefineTold(log: Log, t: List<Act>, name: string, description: string, signature: string)
    requires AsTold(log, t)
    ensures AsTold(Apply(log, DefineEvent(name, description, signature)),
                   Snoc(t, Asked(DefineEvent(name, description, signature))))
  {
    hide Inv, On, AcceptedCalls, Value, Taken, EventsOk, StatsOk;
    var basic := DefineEvent(name, description, signature);
    var log', t' := Apply(log, basic), Snoc(t, Asked(basic));
    DefinesOnly(t, basic);
    assert NameTold(log, t, name);
    forall n ensures NameTold(log', t', n) {
      assert NameTold(log, t, n);
    }
    forall k ensures StatTold(log', t', k) {
      assert StatTold(log, t, k);
    }
  }

  lemma StatKnown(log: Log, name: string)
    requires Inv(log)
    ensures name in log.statIds ==> name in log.ids
  {
    StatNameIsEventName(log, name);
  }

  lemma DefineStatNames(log: Log, t: List<Act>, name: string, description: string, signature: string, n: string)
    requires AsTold(log, t)
    ensures
      var basic := DefineStat(name, description, signature);
      NameTold(Apply(log, basic), Snoc(t, Asked(basic)), n)
  {
    hide Inv, On, AcceptedCalls, Value, Taken, EventsOk, StatsOk, StatTold, Statistics;
    assert NameTold(log, t, name) && NameTold(log, t, n);
  }

  lemma DefineStatStats(log: Log, t: List<Act>, name: string, description: string, signature: string, k: int)
    requires AsTold(log, t)
    ensures
      var basic := DefineStat(name, description, signature);
      StatTold(Apply(log, basic), Snoc(t, Asked(basic)), k)
  {
    hide Inv, On, AcceptedCalls, Value, Taken, EventsOk, StatsOk;
    var basic := DefineStat(name, description, signature);
    StatKnown(log, name);
    OnlyStatisticsHaveValues(t, name);
    DefinesOnly(t, basic);
    assert NameTold(log, t, name) && StatTold(log, t, k);
  }

  lemma DefineStatTold(log: Log, t: List<Act>, name: string, description: string, signature: string)
    requires AsTold(log, t)
    ensures AsTold(Apply(log, DefineStat(name, description, signature)),
                   Snoc(t, Asked(DefineStat(name, description, signature))))
  {
    hide Inv, On, AcceptedCalls, Value, Taken, EventsOk, StatsOk;
    var basic := DefineStat(name, description, signature);
    var log', t' := Apply(log, basic), Snoc(t, Asked(basic));
    StatKnown(log, name);
    DefinesOnly(t, basic);
    assert NameTold(log, t, name);
    forall n ensures NameTold(log', t', n) {
      DefineStatNames(log, t, name, description, signature, n);
    }
    forall k ensures StatTold(log', t', k) {
      DefineStatStats(log, t, name, description, signature, k);
    }
    hide NameTold, StatTold;
  }

  lemma RecordTold(log: Log, t: List<Act>, time: Time, name: string, arg: Arg)
    requires AsTold(log, t)
    ensures AsTold(Apply(log, RecordEvent(time, name, arg)), Snoc(t, Asked(RecordEvent(time, name, arg))))
  {
    var log', t' := Apply(log, RecordEvent(time, name, arg)), Snoc(t, Asked(RecordEvent(time, name, arg)));
    assert NameTold(log, t, name) && IdEntry(log.events, log.ids, name);
    forall n ensures NameTold(log', t', n) {
      assert NameTold(log, t, n);
    }
    forall k ensures StatTold(log', t', k) {
      assert StatTold(log, t, k);
    }
  }

  lemma UpdatesOnly(t: List<Act>, name: string, value: Arg)
    ensures
      var t' := Snoc(t, Asked(UpdateStat(name, value)));
      && On(t') == On(t) && AcceptedCalls(t') == AcceptedCalls(t)
      && Known(t') == Known(t) && Statistics(t') == Statistics(t)
      && (forall n :: Taken(t', n) == Taken(t, n))
      && forall n :: Value(t', n) ==
           if n == name && n in Statistics(t) && n in Known(t) && Known(t)[n] == value.Signature() then Some(value)
           else Value(t, n)
  {
  }

  /** A statistic has one place, and its event has its type. */
  lemma StatPlace(log: Log, t: List<Act>, name: string)
    requires TablesTold(log, t)
    ensures name in log.statIds ==>
      var k := log.statIds[name];
      && k < |log.stats| && Statistics(t)[k] == name && name in Known(t)
      && log.stats[k].id < |log.events| && log.events[log.stats[k].id].signature == Known(t)[name]
    ensures forall k :: 0 <= k < |log.stats| && Statistics(t)[k] == name ==> name in log.statIds && log.statIds[name] == k
  {
    assert NameTold(log, t, name) && StatIdEntry(log.events, log.stats, log.statIds, name);
    if name in log.statIds {
      var k := log.statIds[name];
      assert StatTold(log, t, k);
      assert EventEntry(log.events, log.ids, log.stats[k].id);
    }
    forall k | 0 <= k < |log.stats| && Statistics(t)[k] == name ensures name in log.statIds && log.statIds[name] == k {
      assert StatTold(log, t, k) && StatEntry(log.events, log.stats, log.statIds, k);
    }
  }

  lemma UpdateTold(log: Log, t: List<Act>, name: string, value: Arg)
    requires AsTold(log, t)
    ensures AsTold(Apply(log, UpdateStat(name, value)), Snoc(t, Asked(UpdateStat(name, value))))
  {
    hide Inv, On, AcceptedCalls, Value, Taken, Known, Statistics, EventsOk, StatsOk;
    var log', t' := Apply(log, UpdateStat(name, value)), Snoc(t, Asked(UpdateStat(name, value)));
    UpdatesOnly(t, name, value);
    StatPlace(log, t, name);
    OnlyStatisticsHaveValues(t, name);
    forall n ensures NameTold(log', t', n) {
      assert NameTold(log, t, n);
    }
    forall k ensures StatTold(log', t', k) {
      assert StatTold(log, t, k);
    }
  }

  lemma AskedTold(log: Log, t: List<Act>, basic: Basic)
    requires AsTold(log, t)
    ensures AsTold(Apply(log, basic), Snoc(t, Asked(basic)))
  {
    match basic
    case DefineEvent(name, description, signature) => DefineTold(log, t, name, description, signature);
    case DefineStat(name, description, signature) => DefineStatTold(log, t, name, description, signature);
    case RecordEvent(time, name, arg) => RecordTold(log, t, time, name, arg);
    case UpdateStat(name, value) => UpdateTold(log, t, name, value);
    case SetEnabled(on) =>
      var log', t' := Apply(log, basic), Snoc(t, Asked(basic));
      forall n ensures NameTold(log', t', n) {
        assert NameTold(log, t, n);
      }
      forall k ensures StatTold(log', t', k) {
        assert StatTold(log, t, k);
      }
  }

  lemma {:induction false} AskedAllTold(log: Log, t: List<Act>, callbacks: seq<Basic>)
    requires AsTold(log, t)
    ensures AsTold(ApplyAll(log, callbacks), AskedAll(t, callbacks))
  {
    if callbacks != [] {
      var init := callbacks[..|callbacks| - 1];
      AskedAllTold(log, t, init);
      AskedTold(ApplyAll(log, init), AskedAll(t, init), callbacks[|callbacks| - 1]);
    }
  }

  lemma {:induction false} DuesTold(log: Log, t: List<Act>, begin: Time, n: nat)
    requires AsTold(log, t) && n <= |log.stats|
    ensures RecordPending(log, begin, n).history == if On(t) then WithDues(t, begin, n) else AcceptedCalls(t)
  {
    if n > 0 {
      DuesTold(log, t, begin, n - 1);
      assert StatTold(log, t, n - 1) && StatEntry(log.events, log.stats, log.statIds, n - 1);
    }
  }

  lemma VisitsTold(log: Log, t: List<Act>, begin: Time)
    requires AsTold(log, t)
    ensures AsTold(Sweep(log, begin), Snoc(t, Visits(begin)))
  {
    var log', t' := Sweep(log, begin), Snoc(t, Visits(begin));
    DuesTold(log, t, begin, |log.stats|);
    forall n ensures NameTold(log', t', n) {
      assert NameTold(log, t, n);
    }
    forall k ensures StatTold(log', t', k) {
      assert StatTold(log, t, k);
    }
  }

  lemma ClosesTold(log: Log, t: List<Act>, begin: Time, elapsed: int64)
    requires AsTold(log, t)
    ensures AsTold(Mark(log, begin, elapsed), Snoc(t, Closes(begin, elapsed)))
  {
    var log', t' := Mark(log, begin, elapsed), Snoc(t, Closes(begin, elapsed));
    forall n ensures NameTold(log', t', n) {
      assert NameTold(log, t, n);
    }
    forall k ensures StatTold(log', t', k) {
      assert StatTold(log, t, k);
    }
  }

  lemma FreshTold(start: Time)
    ensures AsTold(Run(start, Nil), Nil)
  {
    assert "perf.setTime" != "perf.statisticsCollected" by {
      assert |"perf.setTime"| != |"perf.statisticsCollected"|;
    }
    forall n ensures NameTold(Fresh(start), Nil, n) {
    }
  }

  /** In every run the log has exactly the names, signatures, statistics and values it was told, and has accepted
      exactly the calls that a reader of the operations would say it has to accept. */
  lemma {:induction false} RunTold(start: Time, ops: List<Op>)
    ensures AsTold(Run(start, ops), Acts(ops))
  {
    match ops
    case Nil => FreshTold(start);
    case Snoc(init, op) =>
      var log, t := Run(start, init), Acts(init);
      RunTold(start, init);
      match op
      case Do(basic) => AskedTold(log, t, basic);
      case Collect(begin, elapsed, callbacks) =>
        if log.enabled {
          var updated, asked := ApplyAll(log, callbacks), AskedAll(t, callbacks);
          AskedAllTold(log, t, callbacks);
          VisitsTold(updated, asked, begin);
          ClosesTold(Sweep(updated, begin), Snoc(asked, Visits(begin)), begin, elapsed);
        }
  }

  /** Every run replays as a reader of its operations would say. */
  lemma ReplayTold(start: Time, ops: List<Op>)
    ensures Replay(Run(start, ops)) == Reference(start, AcceptedCalls(Acts(ops)))
  {
    RunTold(start, ops);
    ReplayIsReference(start, ops);
  }

  /** A call recorded by name in a log that is on is the last event of the replay, if the name was defined with its
      signature and it fits a block; and everything replayed before is still there. Otherwise the replay is as it
      was. */
  lemma RecordedIsReplayed(start: Time, ops: List<Op>, time: Time, name: string, arg: Arg)
    requires name != "perf.setTime"
    ensures
      var t, h := Acts(ops), AcceptedCalls(Acts(ops));
      var before, after := Replay(Run(start, ops)), Replay(Run(start, Snoc(ops, Do(RecordEvent(time, name, arg)))));
      if On(t) && name in Known(t) && Known(t)[name] == arg.Signature() && FitsBlock(arg) then
        after == Snoc(before, Replayed(time + Drift(start, Snoc(h, Accepted(time, name, arg))), name, arg.Signature(), arg))
      else after == before
  {
    hide Replay, Run, Known, On, FitsBlock;
    ReplayTold(start, ops);
    ReplayTold(start, Snoc(ops, Do(RecordEvent(time, name, arg))));
    ClockDrift(start, Snoc(AcceptedCalls(Acts(ops)), Accepted(time, name, arg)));
  }
}
