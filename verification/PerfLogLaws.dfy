/** What replaying a performance log gives back, over every run. */
module PerfLogLaws {
  import opened Bytes
  import opened Options
  import opened PerfLogSpec
  import opened SnocLists

  // ---- The codec ----

  /** The records mean exactly what the accepted calls say. */
  ghost predicate Exact(log: Log) {
    && Inv(log)
    && log.last == LastTime(log.start, log.history)
    && Clock(log.start, log.stream) == ReferenceClock(log.start, log.history)
    && Play(log.events, log.start, log.stream) == Reference(log.start, log.history)
  }

  lemma RecordExact(log: Log, time: Time, id: uint16, arg: Arg)
    requires Exact(log) && id < |log.events| && arg.Signature() == log.events[id].signature
    ensures Exact(Record(log, time, id, arg))
  {
    RecordInv(log, time, id, arg);
    assert EventEntry(log.events, log.ids, id) && EventEntry(log.events, log.ids, 0);
  }

  lemma DefineExact(log: Log, name: string, description: string, signature: string)
    requires Exact(log)
    ensures Exact(Define(log, name, description, signature))
    ensures Exact(DefineStatistic(log, name, description, signature))
  {
    DefineInv(log, name, description, signature);
    DefineStatisticInv(log, name, description, signature);
    PlayGrow(log.events, Event(name, description, signature), log.start, log.stream);
  }

  lemma ApplyExact(log: Log, op: Basic)
    requires Exact(log)
    ensures Exact(Apply(log, op))
  {
    match op
    case DefineEvent(name, description, signature) => DefineExact(log, name, description, signature);
    case DefineStat(name, description, signature) => DefineExact(log, name, description, signature);
    case SetEnabled(on) =>
    case RecordEvent(time, name, arg) =>
      assert IdEntry(log.events, log.ids, name);
      if name in log.ids && log.events[log.ids[name]].signature == arg.Signature() {
        RecordExact(log, time, log.ids[name], arg);
      }
    case UpdateStat(name, value) =>
  }

  lemma {:induction false} ApplyAllExact(log: Log, ops: seq<Basic>)
    requires Exact(log)
    ensures Exact(ApplyAll(log, ops))
  {
    if ops != [] {
      ApplyAllExact(log, ops[..|ops| - 1]);
      ApplyExact(ApplyAll(log, ops[..|ops| - 1]), ops[|ops| - 1]);
    }
  }

  lemma {:induction false} RecordPendingExact(log: Log, begin: Time, n: nat)
    requires Exact(log) && n <= |log.stats|
    ensures Exact(RecordPending(log, begin, n))
  {
    if n > 0 {
      RecordPendingExact(log, begin, n - 1);
      assert StatEntry(log.events, log.stats, log.statIds, n - 1);
      RecordExact(RecordPending(log, begin, n - 1), begin, log.stats[n - 1].id, log.stats[n - 1].current);
    }
  }

  lemma CollectExact(log: Log, begin: Time, elapsed: int64, callbacks: seq<Basic>)
    requires Exact(log)
    ensures Exact(CollectStatistics(log, begin, elapsed, callbacks))
  {
    var updated := ApplyAll(log, callbacks);
    ApplyAllExact(log, callbacks);
    RecordPendingExact(updated, begin, |updated.stats|);
    RecordExact(Sweep(updated, begin), begin, STATISTICS_COLLECTED, Long(elapsed));
  }

  /** Every run: the replay is the reference replay of the accepted calls. */
  lemma {:induction false} ReplayIsReference(start: Time, ops: List<Op>)
    ensures Exact(Run(start, ops)) && Run(start, ops).start == start
    ensures Replay(Run(start, ops)) == Reference(start, Run(start, ops).history)
  {
    if ops.Snoc? {
      var log := Run(start, ops.init);
      ReplayIsReference(start, ops.init);
      match ops.last
      case Do(basic) =>
        ApplyExact(log, basic);
        ApplyGrows(log, basic);
      case Collect(begin, elapsed, callbacks) =>
        CollectExact(log, begin, elapsed, callbacks);
        ApplyAllGrows(log, callbacks);
    }
  }

  // ---- When a replay is exact ----

  ghost function Identity(h: List<Accepted>): List<Replayed> {
    match h
    case Nil => Nil
    case Snoc(init, e) => Snoc(Identity(init), Replayed(e.time, e.name, e.arg.Signature(), e.arg))
  }

  ghost predicate NoSetTime(h: List<Accepted>) {
    h.Snoc? ==> NoSetTime(h.init) && h.last.name != SET_TIME_NAME
  }

  /** No accepted call is back-dated. */
  ghost predicate Nondecreasing(start: Time, h: List<Accepted>) {
    h.Snoc? ==> Nondecreasing(start, h.init) && LastTime(start, h.init) <= h.last.time
  }

  lemma {:induction false} NondecreasingClock(start: Time, h: List<Accepted>)
    requires NoSetTime(h) && Nondecreasing(start, h)
    ensures ReferenceClock(start, h) == LastTime(start, h)
    ensures Reference(start, h) == Identity(h)
  {
    if h.Snoc? {
      NondecreasingClock(start, h.init);
    }
  }

  lemma {:induction false} ReferenceLength(start: Time, h: List<Accepted>)
    ensures Length(Identity(h)) == Length(h)
    ensures Length(Reference(start, h)) <= Length(h)
    ensures Length(Reference(start, h)) == Length(h) <==> NoSetTime(h)
  {
    if h.Snoc? {
      ReferenceLength(start, h.init);
    }
  }

  lemma {:induction false} ExactOnlyIfNondecreasing(start: Time, h: List<Accepted>)
    requires NoSetTime(h) && Reference(start, h) == Identity(h)
    ensures Nondecreasing(start, h)
  {
    if h.Snoc? {
      ExactOnlyIfNondecreasing(start, h.init);
      NondecreasingClock(start, h.init);
    }
  }

  lemma IdentityIff(start: Time, h: List<Accepted>)
    ensures Reference(start, h) == Identity(h) <==> NoSetTime(h) && Nondecreasing(start, h)
  {
    ReferenceLength(start, h);
    if NoSetTime(h) && Nondecreasing(start, h) {
      NondecreasingClock(start, h);
    }
    if Reference(start, h) == Identity(h) {
      ExactOnlyIfNondecreasing(start, h);
    }
  }

  /** The replay of a run gives back exactly the accepted calls, in order and with their own times, if and
      only if nobody recorded perf.setTime by name and no call was back-dated. */
  lemma ReplayExactIff(start: Time, ops: List<Op>)
    ensures
      var log := Run(start, ops);
      Replay(log) == Identity(log.history) <==> NoSetTime(log.history) && Nondecreasing(start, log.history)
  {
    ReplayIsReference(start, ops);
    IdentityIff(start, Run(start, ops).history);
  }

  // ---- Back-dated calls ----

  /** The backward steps since the last escape record or since the log started. A perf.setTime recorded by name
      counts as far as the time it names is from the time of the call. */
  ghost function Drift(start: Time, h: List<Accepted>): int {
    match h
    case Nil => 0
    case Snoc(init, e) =>
      var last := LastTime(start, init);
      if e.name == SET_TIME_NAME && e.arg.Long? then e.arg.x - e.time
      else if Escapes(last, e.time) then 0
      else Drift(start, init) + if e.time < last then last - e.time else 0
  }

  /** However the times jump about, the replay clock runs ahead by exactly the drift. */
  lemma {:induction false} ClockDrift(start: Time, h: List<Accepted>)
    ensures ReferenceClock(start, h) == LastTime(start, h) + Drift(start, h)
  {
    if h.Snoc? {
      ClockDrift(start, h.init);
    }
  }

  lemma {:induction false} DriftNotNegative(start: Time, h: List<Accepted>)
    requires NoSetTime(h)
    ensures Drift(start, h) >= 0
  {
    if h.Snoc? {
      DriftNotNegative(start, h.init);
    }
  }

  /** In the replay of any later log, the call that ended h shows its own time plus the drift at h. */
  lemma ReplayedTimeDrift(start: Time, h: List<Accepted>, h': List<Accepted>)
    requires h.Snoc? && h.last.name != SET_TIME_NAME && IsPrefix(h, h')
    ensures
      var e := h.last;
      IsPrefix(
        Snoc(Reference(start, h.init), Replayed(e.time + Drift(start, h), e.name, e.arg.Signature(), e.arg)),
        Reference(start, h'))
  {
    ReferencePrefix(start, h, h');
    ClockDrift(start, h);
  }

  // ---- The log only grows ----

  lemma {:induction false} ReferencePrefix(start: Time, h: List<Accepted>, h': List<Accepted>)
    requires IsPrefix(h, h')
    ensures IsPrefix(Reference(start, h), Reference(start, h'))
  {
    if h != h' {
      ReferencePrefix(start, h, h'.init);
    }
  }

  lemma ApplyGrows(log: Log, op: Basic)
    requires Inv(log)
    ensures var log' := Apply(log, op);
      log'.start == log.start && IsPrefix(log.history, log'.history)
  {
  }

  lemma {:induction false} ApplyAllGrows(log: Log, ops: seq<Basic>)
    requires Inv(log)
    ensures var log' := ApplyAll(log, ops);
      log'.start == log.start && IsPrefix(log.history, log'.history)
  {
    if ops != [] {
      var mid := ApplyAll(log, ops[..|ops| - 1]);
      ApplyAllGrows(log, ops[..|ops| - 1]);
      ApplyGrows(mid, ops[|ops| - 1]);
      PrefixTransitive(log.history, mid.history, ApplyAll(log, ops).history);
    }
  }

  lemma {:induction false} RecordPendingGrows(log: Log, begin: Time, n: nat)
    requires TablesOk(log) && n <= |log.stats|
    ensures IsPrefix(log.history, RecordPending(log, begin, n).history)
  {
    if n > 0 {
      RecordPendingGrows(log, begin, n - 1);
      PrefixTransitive(log.history, RecordPending(log, begin, n - 1).history, RecordPending(log, begin, n).history);
    }
  }

  lemma StepGrows(log: Log, op: Op)
    requires Inv(log)
    ensures Step(log, op).start == log.start && IsPrefix(log.history, Step(log, op).history)
  {
    match op
    case Do(basic) =>
      ApplyGrows(log, basic);
    case Collect(begin, elapsed, callbacks) =>
      if log.enabled {
        var updated := ApplyAll(log, callbacks);
        var swept := Sweep(updated, begin);
        ApplyAllGrows(log, callbacks);
        RecordPendingGrows(updated, begin, |updated.stats|);
        PrefixTransitive(log.history, updated.history, swept.history);
        PrefixTransitive(log.history, swept.history, Mark(swept, begin, elapsed).history);
      }
  }

  /** No later operation takes back a replayed event. */
  lemma ReplayGrows(start: Time, ops: List<Op>, op: Op)
    ensures IsPrefix(Replay(Run(start, ops)), Replay(Run(start, Snoc(ops, op))))
  {
    ReplayIsReference(start, ops);
    ReplayIsReference(start, Snoc(ops, op));
    StepGrows(Run(start, ops), op);
    ReferencePrefix(start, Run(start, ops).history, Run(start, Snoc(ops, op)).history);
  }

  // ---- Statistics ----

  /** The newest replayed value under a name. */
  ghost function Latest(out: List<Replayed>, name: string): Option<Arg> {
    match out
    case Nil => None
    case Snoc(init, r) => if r.name == name then Some(r.arg) else Latest(init, name)
  }

  ghost predicate NamesKnown(h: List<Accepted>, ids: map<string, uint16>) {
    h.Snoc? ==> NamesKnown(h.init, ids) && h.last.name in ids
  }

  ghost predicate HasStat(log: Log, k: int) {
    0 <= k < |log.stats| && log.stats[k].id < |log.events|
  }

  ghost function StatName(log: Log, k: nat): string
    requires HasStat(log, k)
  {
    log.events[log.stats[k].id].name
  }

  /** What the replay shows of statistic k. */
  ghost function Shown(log: Log, k: nat): Option<Arg>
    requires HasStat(log, k)
  {
    Latest(Reference(log.start, log.history), StatName(log, k))
  }

  ghost predicate Faithful(log: Log, k: nat)
    requires HasStat(log, k)
  {
    Shown(log, k) == if log.stats[k].recorded then Some(log.stats[k].last) else None
  }

  ghost predicate FaithfulEntry(log: Log, k: int) {
    0 <= k < |log.stats| ==> HasStat(log, k) && Faithful(log, k)
  }

  /** The replay shows, for every statistic, the value that the log believes it wrote last. */
  ghost predicate StatsFaithful(log: Log) {
    && NamesKnown(log.history, log.ids)
    && forall k :: FaithfulEntry(log, k)
  }

  /** The operation does not record a statistic's event directly. */
  ghost predicate Respects(log: Log, op: Basic)
    requires Inv(log)
  {
    op.RecordEvent? ==> op.name !in log.statIds
  }

  lemma {:induction false} UnknownNameShowsNothing(start: Time, h: List<Accepted>, ids: map<string, uint16>, name: string)
    requires NamesKnown(h, ids) && name !in ids
    ensures Latest(Reference(start, h), name) == None
  {
    if h.Snoc? {
      UnknownNameShowsNothing(start, h.init, ids, name);
    }
  }

  lemma {:induction false} NamesKnownGrow(h: List<Accepted>, ids: map<string, uint16>, name: string, id: uint16)
    requires NamesKnown(h, ids)
    ensures NamesKnown(h, ids[name := id])
  {
    if h.Snoc? {
      NamesKnownGrow(h.init, ids, name, id);
    }
  }

  /** Recording under one name leaves what is shown under every other name alone. */
  lemma RecordShows(log: Log, time: Time, id: uint16, arg: Arg, name: string)
    requires id < |log.events| && name != SET_TIME_NAME
    ensures
      var log' := Record(log, time, id, arg);
      Latest(Reference(log'.start, log'.history), name) ==
        if log.enabled && !Oversize(arg) && log.events[id].name == name then Some(arg)
        else Latest(Reference(log.start, log.history), name)
  {
  }

  lemma StatNames(log: Log, j: nat, k: nat)
    requires TablesOk(log) && j < |log.stats| && k < |log.stats|
    ensures HasStat(log, j) && HasStat(log, k)
    ensures StatName(log, j) == StatName(log, k) <==> j == k
    ensures StatName(log, k) != SET_TIME_NAME && StatName(log, k) != STATISTICS_COLLECTED_NAME
    ensures StatName(log, k) in log.ids && StatName(log, k) in log.statIds
  {
    assert StatEntry(log.events, log.stats, log.statIds, j) && StatEntry(log.events, log.stats, log.statIds, k);
    assert EventEntry(log.events, log.ids, log.stats[k].id);
    assert EventEntry(log.events, log.ids, 0) && EventEntry(log.events, log.ids, 1);
  }

  lemma DefineFaithful(log: Log, name: string, description: string, signature: string)
    requires TablesOk(log) && StatsFaithful(log)
    ensures StatsFaithful(Define(log, name, description, signature))
  {
    var log' := Define(log, name, description, signature);
    if Definable(log, name, signature) {
      NamesKnownGrow(log.history, log.ids, name, |log.events|);
    }
    forall k ensures FaithfulEntry(log', k) {
      assert FaithfulEntry(log, k);
    }
  }

  lemma DefineStatisticFaithful(log: Log, name: string, description: string, signature: string)
    requires TablesOk(log) && StatsFaithful(log)
    ensures StatsFaithful(DefineStatistic(log, name, description, signature))
  {
    DefineFaithful(log, name, description, signature);
    if signature in ["i", "x"] && Definable(log, name, signature) {
      var log' := DefineStatistic(log, name, description, signature);
      UnknownNameShowsNothing(log.start, log.history, log.ids, name);
      forall k ensures FaithfulEntry(log', k) {
        assert FaithfulEntry(Define(log, name, description, signature), k);
      }
    }
  }

  lemma RecordFaithful(log: Log, time: Time, id: uint16, arg: Arg)
    requires TablesOk(log) && StatsFaithful(log)
    requires id < |log.events| && log.events[id].name !in log.statIds
    ensures StatsFaithful(Record(log, time, id, arg))
  {
    var log' := Record(log, time, id, arg);
    assert EventEntry(log.events, log.ids, id);
    forall k ensures FaithfulEntry(log', k) {
      assert FaithfulEntry(log, k);
      if 0 <= k < |log.stats| {
        StatNames(log, k, k);
        RecordShows(log, time, id, arg, StatName(log, k));
      }
    }
  }

  lemma UpdateFaithful(log: Log, name: string, value: Arg)
    requires TablesOk(log) && StatsFaithful(log)
    ensures StatsFaithful(Update(log, name, value))
  {
    var log' := Update(log, name, value);
    assert StatIdEntry(log.events, log.stats, log.statIds, name);
    forall k ensures FaithfulEntry(log', k) {
      assert FaithfulEntry(log, k);
    }
  }

  lemma ApplyFaithful(log: Log, op: Basic)
    requires Inv(log) && StatsFaithful(log) && Respects(log, op)
    ensures StatsFaithful(Apply(log, op))
  {
    match op
    case DefineEvent(name, description, signature) =>
      DefineFaithful(log, name, description, signature);
    case DefineStat(name, description, signature) =>
      DefineStatisticFaithful(log, name, description, signature);
    case SetEnabled(on) =>
      forall k ensures FaithfulEntry(log.(enabled := on), k) {
        assert FaithfulEntry(log, k);
      }
    case RecordEvent(time, name, arg) =>
      assert IdEntry(log.events, log.ids, name);
      if name in log.ids {
        RecordFaithful(log, time, log.ids[name], arg);
      }
    case UpdateStat(name, value) =>
      UpdateFaithful(log, name, value);
  }

  lemma RecordStatShows(log: Log, begin: Time, j: nat, k: nat)
    requires TablesOk(log) && log.enabled && j < |log.stats| && k < |log.stats|
    ensures HasStat(log, j) && HasStat(log, k)
    ensures Shown(Record(log, begin, log.stats[j].id, log.stats[j].current), k) ==
      if j == k then Some(log.stats[k].current) else Shown(log, k)
  {
    StatNames(log, j, k);
    assert StatEntry(log.events, log.stats, log.statIds, j);
    RecordShows(log, begin, log.stats[j].id, log.stats[j].current, StatName(log, k));
  }

  lemma {:induction false} RecordPendingShows(log: Log, begin: Time, n: nat, k: nat)
    requires TablesOk(log) && log.enabled && n <= |log.stats| && k < |log.stats| && HasStat(log, k)
    ensures Shown(RecordPending(log, begin, n), k) ==
      if k < n && log.stats[k].Pending() then Some(log.stats[k].current) else Shown(log, k)
  {
    if n > 0 {
      RecordPendingShows(log, begin, n - 1, k);
      RecordStatShows(RecordPending(log, begin, n - 1), begin, n - 1, k);
    }
  }

  lemma {:induction false} RecordPendingKnown(log: Log, begin: Time, n: nat)
    requires TablesOk(log) && NamesKnown(log.history, log.ids) && n <= |log.stats|
    ensures NamesKnown(RecordPending(log, begin, n).history, log.ids)
  {
    if n > 0 {
      RecordPendingKnown(log, begin, n - 1);
      StatNames(log, n - 1, n - 1);
    }
  }

  /** Writing the changed statistics while the log is enabled keeps all of them faithful. */
  lemma SweepFaithful(log: Log, begin: Time)
    requires Inv(log) && StatsFaithful(log) && log.enabled
    ensures StatsFaithful(Sweep(log, begin))
  {
    var n := |log.stats|;
    RecordPendingKnown(log, begin, n);
    var log' := Sweep(log, begin);
    forall k ensures FaithfulEntry(log', k) {
      assert FaithfulEntry(log, k);
      if 0 <= k < n {
        RecordPendingShows(log, begin, n, k);
        assert StatName(log', k) == StatName(log, k);
      }
    }
  }

  /** The newest replayed event is the perf.statisticsCollected of a collection. */
  ghost predicate ClosedBy(out: List<Replayed>, elapsed: int64) {
    out.Snoc? && out.last.name == STATISTICS_COLLECTED_NAME && out.last.arg == Long(elapsed)
  }

  lemma MarkFaithful(log: Log, begin: Time, elapsed: int64)
    requires Inv(log) && StatsFaithful(log)
    ensures
      var log' := Mark(log, begin, elapsed);
      && StatsFaithful(log') && log'.stats == log.stats && log'.events == log.events
      && (log.enabled ==>
        ClosedBy(Reference(log'.start, log'.history), elapsed))
  {
    assert EventEntry(log.events, log.ids, 1) && EventEntry(log.events, log.ids, 0);
    if STATISTICS_COLLECTED_NAME in log.statIds {
      assert StatIdEntry(log.events, log.stats, log.statIds, STATISTICS_COLLECTED_NAME);
      StatNames(log, log.statIds[STATISTICS_COLLECTED_NAME], log.statIds[STATISTICS_COLLECTED_NAME]);
    }
    RecordFaithful(log, begin, STATISTICS_COLLECTED, Long(elapsed));
  }

  ghost predicate RespectsAll(log: Log, ops: seq<Basic>)
    requires Inv(log)
  {
    ops != [] ==>
      RespectsAll(log, ops[..|ops| - 1]) && Respects(ApplyAll(log, ops[..|ops| - 1]), ops[|ops| - 1])
  }

  lemma {:induction false} ApplyAllFaithful(log: Log, ops: seq<Basic>)
    requires Inv(log) && StatsFaithful(log) && RespectsAll(log, ops)
    ensures StatsFaithful(ApplyAll(log, ops))
  {
    if ops != [] {
      ApplyAllFaithful(log, ops[..|ops| - 1]);
      ApplyFaithful(ApplyAll(log, ops[..|ops| - 1]), ops[|ops| - 1]);
    }
  }

  lemma SweepClears(log: Log, begin: Time)
    requires Inv(log)
    ensures forall k :: 0 <= k < |Sweep(log, begin).stats| ==> !Sweep(log, begin).stats[k].Pending()
  {
  }

  /** After a collection, what is faithful is also current. */
  lemma FaithfulIsCurrent(log: Log, k: nat)
    requires k < |log.stats| && StatsFaithful(log)
    requires log.stats[k].initialized && !log.stats[k].Pending()
    ensures HasStat(log, k) && Shown(log, k) == Some(log.stats[k].current)
  {
    assert FaithfulEntry(log, k);
  }

  /** At the perf.statisticsCollected event that closes a collection, the newest replayed value of
      every initialised statistic is its current value, although unchanged values were not written. */
  lemma CollectionShowsCurrent(log: Log, begin: Time, elapsed: int64, callbacks: seq<Basic>)
    requires Inv(log) && StatsFaithful(log) && RespectsAll(log, callbacks)
    requires log.enabled && ApplyAll(log, callbacks).enabled
    ensures
      var log' := CollectStatistics(log, begin, elapsed, callbacks);
      && StatsFaithful(log')
      && ClosedBy(Reference(log'.start, log'.history), elapsed)
      && forall k :: 0 <= k < |log'.stats| && log'.stats[k].initialized ==>
        HasStat(log', k) && Shown(log', k) == Some(log'.stats[k].current)
  {
    var swept := Sweep(ApplyAll(log, callbacks), begin);
    ApplyAllFaithful(log, callbacks);
    SweepFaithful(ApplyAll(log, callbacks), begin);
    SweepClears(ApplyAll(log, callbacks), begin);
    MarkFaithful(swept, begin, elapsed);
    var log' := Mark(swept, begin, elapsed);
    forall k | 0 <= k < |log'.stats| && log'.stats[k].initialized
      ensures HasStat(log', k) && Shown(log', k) == Some(log'.stats[k].current)
    {
      FaithfulIsCurrent(log', k);
    }
  }

  // ---- A log switched off during its own collection ----

  lemma {:induction false} RecordPendingDisabled(log: Log, begin: Time, n: nat)
    requires TablesOk(log) && !log.enabled && n <= |log.stats|
    ensures RecordPending(log, begin, n) == log
  {
    if n > 0 {
      RecordPendingDisabled(log, begin, n - 1);
    }
  }

  ghost predicate SomePending(log: Log) {
    exists k :: 0 <= k < |log.stats| && log.stats[k].Pending()
  }

  lemma DisabledVisitFaithfulIff(log: Log)
    requires StatsFaithful(log)
    ensures StatsFaithful(log.(stats := Visited(log.stats, |log.stats|))) <==> !SomePending(log)
  {
    var log' := log.(stats := Visited(log.stats, |log.stats|));
    forall k ensures FaithfulEntry(log', k) <==> (0 <= k < |log.stats| ==> !log.stats[k].Pending()) {
      assert FaithfulEntry(log, k);
      if 0 <= k < |log.stats| {
        assert StatName(log', k) == StatName(log, k);
      }
    }
  }

  /** A collection keeps the statistics faithful if and only if its callbacks did not switch the log off
      while some statistic was waiting to be written: such a value is marked as written and lost. */
  lemma CollectionFaithfulIff(log: Log, begin: Time, elapsed: int64, callbacks: seq<Basic>)
    requires Inv(log) && StatsFaithful(log) && log.enabled && RespectsAll(log, callbacks)
    ensures StatsFaithful(CollectStatistics(log, begin, elapsed, callbacks)) <==>
      var updated := ApplyAll(log, callbacks);
      updated.enabled || !SomePending(updated)
  {
    var updated := ApplyAll(log, callbacks);
    if updated.enabled {
      CollectionShowsCurrent(log, begin, elapsed, callbacks);
    } else {
      ApplyAllFaithful(log, callbacks);
      RecordPendingDisabled(updated, begin, |updated.stats|);
      DisabledVisitFaithfulIff(updated);
    }
  }

  // ---- Every run ----

  ghost predicate Careful(log: Log, op: Op)
    requires Inv(log)
  {
    match op
    case Do(basic) => Respects(log, basic)
    case Collect(_, _, callbacks) =>
      log.enabled ==>
        && RespectsAll(log, callbacks)
        && var updated := ApplyAll(log, callbacks);
           updated.enabled || !SomePending(updated)
  }

  /** No operation records a statistic's event by name, no callbacks leave the log switched off with a statistic
      waiting to be written. */
  ghost predicate CarefulRun(start: Time, ops: List<Op>) {
    ops.Snoc? ==> CarefulRun(start, ops.init) && Careful(Run(start, ops.init), ops.last)
  }

  lemma {:induction false} RunFaithful(start: Time, ops: List<Op>)
    requires CarefulRun(start, ops)
    ensures StatsFaithful(Run(start, ops))
  {
    if ops.Snoc? {
      var log := Run(start, ops.init);
      RunFaithful(start, ops.init);
      match ops.last
      case Do(basic) => ApplyFaithful(log, basic);
      case Collect(begin, elapsed, callbacks) =>
        if log.enabled {
          CollectionFaithfulIff(log, begin, elapsed, callbacks);
        }
    }
  }

  /** The same for a whole run: whenever a collection closes with the log enabled, the replay up to there
      shows the current value of every initialised statistic. */
  lemma RunCollectionShowsCurrent(start: Time, ops: List<Op>, begin: Time, elapsed: int64, callbacks: seq<Basic>)
    requires CarefulRun(start, ops) && RespectsAll(Run(start, ops), callbacks)
    requires Run(start, ops).enabled && ApplyAll(Run(start, ops), callbacks).enabled
    ensures
      var log' := Run(start, Snoc(ops, Collect(begin, elapsed, callbacks)));
      && ClosedBy(Replay(log'), elapsed)
      && forall k :: 0 <= k < |log'.stats| && log'.stats[k].initialized ==>
        HasStat(log', k) && Latest(Replay(log'), StatName(log', k)) == Some(log'.stats[k].current)
  {
    hide Inv, StatsFaithful, RespectsAll, CarefulRun, CollectStatistics, ApplyAll, ClosedBy, Reference, Replay, HasStat;
    RunFaithful(start, ops);
    ReplayIsReference(start, Snoc(ops, Collect(begin, elapsed, callbacks)));
    CollectionShowsCurrent(Run(start, ops), begin, elapsed, callbacks);
  }

  // ---- A value that is lost ----

  /** A callback updates the statistic "n" and switches the log off; later the log is on again and collects once more. */
  ghost function LosingRun(): List<Op> {
    var callbacks := [UpdateStat("n", Int(1)), SetEnabled(false)];
    Snoc(Snoc(Snoc(Snoc(Snoc(Nil, Do(DefineStat("n", "", "i"))), Do(SetEnabled(true))), Collect(0, 0, callbacks)),
              Do(SetEnabled(true))), Collect(0, 0, []))
  }

  /** A log with the one statistic "n" and no accepted call. */
  ghost predicate OnlyStat(log: Log, stat: Stat) {
    && Inv(log) && log.statIds == map["n" := 0] && |log.events| == 3 && log.events[2] == Event("n", "", "i")
    && log.stats == [stat] && log.history == Nil
  }

  lemma LosingStart()
    ensures
      var log := Run(0, LosingRun().init.init.init);
      log.enabled && OnlyStat(log, Stat(2, Int(0), Int(0), false, false))
  {
    var defined := Run(0, LosingRun().init.init.init.init);
    assert defined == DefineStatistic(Fresh(0), "n", "", "i");
    assert Run(0, LosingRun().init.init.init) == defined.(enabled := true);
  }

  lemma LosingCallbacks(log: Log)
    requires log.enabled && OnlyStat(log, Stat(2, Int(0), Int(0), false, false))
    ensures
      var off := ApplyAll(log, [UpdateStat("n", Int(1)), SetEnabled(false)]);
      !off.enabled && OnlyStat(off, Stat(2, Int(1), Int(0), true, false))
  {
    var callbacks := [UpdateStat("n", Int(1)), SetEnabled(false)];
    ApplyAllStep(log, callbacks, 0);
    ApplyAllStep(log, callbacks, 1);
    assert callbacks[..2] == callbacks && callbacks[..0] == [];
    assert ApplyAll(log, callbacks) == Update(log, "n", Int(1)).(enabled := false);
  }

  lemma LosingSweep(off: Log)
    requires !off.enabled && OnlyStat(off, Stat(2, Int(1), Int(0), true, false))
    ensures OnlyStat(Mark(Sweep(off, 0), 0, 0), Stat(2, Int(1), Int(1), true, true))
    ensures !Mark(Sweep(off, 0), 0, 0).enabled
  {
    RecordPendingDisabled(off, 0, 1);
    assert Visited(off.stats, 1) == [Stat(2, Int(1), Int(1), true, true)];
  }

  /** With nothing pending the next collection records its closing event alone. */
  lemma LosingEnd(on: Log)
    requires on.enabled && OnlyStat(on, Stat(2, Int(1), Int(1), true, true))
    ensures
      var log := CollectStatistics(on, 0, 0, []);
      && log.enabled && log.stats == on.stats && log.events == on.events
      && log.history == Snoc(Nil, Accepted(0, STATISTICS_COLLECTED_NAME, Long(0)))
  {
    assert RecordPending(on, 0, 1) == RecordPending(on, 0, 0);
    assert Visited(on.stats, 1) == on.stats;
  }

  /** The statistic was initialised, a collection has closed with the log enabled, and still no value was replayed. */
  lemma LosingRunLoses()
    ensures
      var log := Run(0, LosingRun());
      && log.enabled && |log.stats| == 1 && log.stats[0].initialized && HasStat(log, 0)
      && ClosedBy(Replay(log), 0) && Latest(Replay(log), StatName(log, 0)) == None
  {
    LosingStart();
    var log := Run(0, LosingRun().init.init.init);
    LosingCallbacks(log);
    LosingSweep(ApplyAll(log, [UpdateStat("n", Int(1)), SetEnabled(false)]));
    LosingEnd(Run(0, LosingRun().init));
    ReplayIsReference(0, LosingRun());
    assert Reference(0, Nil) == Nil;
  }
}
