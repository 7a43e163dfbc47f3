/** The performance log as a value: which records each operation appends, what replaying
    them yields, and the laws that tie the two together. */
module PerfLogSpec {
  import opened Bytes
  import opened SnocLists

  const BLOCK_SIZE := 8192
  const MAX_DELTA := 0xffff_ffff
  const MAX_EVENTS := 65536
  const SET_TIME: uint16 := 0
  const STATISTICS_COLLECTED: uint16 := 1
  const SET_TIME_NAME := "perf.setTime"
  const STATISTICS_COLLECTED_NAME := "perf.statisticsCollected"

  /** Readings of the monotonic clock for which `last_time + 0xffffffff` is still a gint64. */
  type Time = x: int | 0 <= x < 0x8000_0000_0000_0000 - 0x1_0000_0000

  /** The bytes of a C string, its terminating NUL left out. */
  type CString = s: seq<byte> | 0 !in s

  datatype Arg = NoArg | Int(i: int32) | Long(x: int64) | Str(s: CString) {
    function Signature(): string {
      match this
      case NoArg => ""
      case Int(_) => "i"
      case Long(_) => "x"
      case Str(_) => "s"
    }

    /** The number of bytes the argument takes in a block. */
    function Size(): nat {
      match this
      case NoArg => 0
      case Int(_) => 4
      case Long(_) => 8
      case Str(s) => |s| + 1
    }

    function Encode(): (s: seq<byte>)
      ensures |s| == Size()
    {
      match this
      case NoArg => []
      case Int(i) => Signed32(i)
      case Long(x) => Signed64(x)
      case Str(s) => s + [0]
    }
  }

  datatype Event = Event(name: string, description: string, signature: string)

  datatype Rec = Rec(delta: uint32, id: uint16, arg: Arg) {
    function Size(): nat {
      6 + arg.Size()
    }

    function Encode(): (s: seq<byte>)
      ensures |s| == Size()
    {
      LittleEndian(delta, 4) + LittleEndian(id, 2) + arg.Encode()
    }
  }

  datatype Stat = Stat(id: uint16, current: Arg, last: Arg, initialized: bool, recorded: bool) {
    /** The next collection has something to write for this statistic. */
    predicate Pending() {
      initialized && (!recorded || current != last)
    }

    function Written(): Stat {
      if Pending() then this.(last := current, recorded := true) else this
    }
  }

  /** What a caller asked to record and the log accepted. */
  datatype Accepted = Accepted(time: Time, name: string, arg: Arg)

  datatype Replayed = Replayed(time: int, name: string, signature: string, arg: Arg)

  datatype Log = Log(
    events: seq<Event>, ids: map<string, uint16>,
    stats: seq<Stat>, statIds: map<string, nat>,
    start: Time, last: Time, enabled: bool,
    stream: List<Rec>,
    history: List<Accepted>)

  // ---- The tables ----

  ghost predicate EventEntry(events: seq<Event>, ids: map<string, uint16>, i: int) {
    0 <= i < |events| ==>
      && events[i].name in ids && ids[events[i].name] == i
      && events[i].signature in ["", "s", "i", "x"]
  }

  ghost predicate IdEntry(events: seq<Event>, ids: map<string, uint16>, name: string) {
    name in ids ==> ids[name] < |events| && events[ids[name]].name == name
  }

  /** The events and their index by name; the two built-in events come first. */
  ghost predicate EventsOk(events: seq<Event>, ids: map<string, uint16>) {
    && 2 <= |events| <= MAX_EVENTS
    && events[0] == Event(SET_TIME_NAME, "", "x")
    && events[1].name == STATISTICS_COLLECTED_NAME && events[1].signature == "x"
    && (forall i :: EventEntry(events, ids, i))
    && (forall name :: IdEntry(events, ids, name))
  }

  ghost predicate StatOk(events: seq<Event>, stat: Stat) {
    && 1 < stat.id < |events|
    && events[stat.id].signature in ["i", "x"]
    && stat.current.Signature() == events[stat.id].signature
    && stat.last.Signature() == events[stat.id].signature
  }

  ghost predicate StatEntry(events: seq<Event>, stats: seq<Stat>, statIds: map<string, nat>, k: int) {
    0 <= k < |stats| ==>
      StatOk(events, stats[k]) && events[stats[k].id].name in statIds && statIds[events[stats[k].id].name] == k
  }

  ghost predicate StatIdEntry(events: seq<Event>, stats: seq<Stat>, statIds: map<string, nat>, name: string) {
    name in statIds ==>
      && statIds[name] < |stats| && stats[statIds[name]].id < |events|
      && events[stats[statIds[name]].id].name == name
  }

  ghost predicate StatsOk(events: seq<Event>, stats: seq<Stat>, statIds: map<string, nat>) {
    && (forall k :: StatEntry(events, stats, statIds, k))
    && (forall name :: StatIdEntry(events, stats, statIds, name))
  }

  ghost predicate TablesOk(log: Log) {
    EventsOk(log.events, log.ids) && StatsOk(log.events, log.stats, log.statIds)
  }

  // ---- Recording ----

  predicate Oversize(arg: Arg) {
    6 + arg.Size() > BLOCK_SIZE
  }

  /** record_event: at most one escape record, then the record itself. */
  ghost function Record(log: Log, time: Time, id: uint16, arg: Arg): Log
    requires id < |log.events|
  {
    if !log.enabled || Oversize(arg) then log
    else
      var stream :=
        if time > log.last + MAX_DELTA then
          Snoc(Snoc(log.stream, Rec(0, SET_TIME, Long(time))), Rec(0, id, arg))
        else
          Snoc(log.stream, Rec(if time < log.last then 0 else time - log.last, id, arg));
      log.(last := time, stream := stream,
           history := Snoc(log.history, Accepted(time, log.events[id].name, arg)))
  }

  /** shell_perf_log_event and its _i, _x, _s forms: unknown names and wrong signatures are dropped. */
  ghost function RecordByName(log: Log, time: Time, name: string, arg: Arg): Log
    requires EventsOk(log.events, log.ids)
  {
    assert IdEntry(log.events, log.ids, name);
    if name !in log.ids || log.events[log.ids[name]].signature != arg.Signature() then log
    else Record(log, time, log.ids[name], arg)
  }

  ghost predicate Definable(log: Log, name: string, signature: string) {
    signature in ["", "s", "i", "x"] && |log.events| != MAX_EVENTS && '"' !in name && name !in log.ids
  }

  ghost function Define(log: Log, name: string, description: string, signature: string): Log
    requires EventsOk(log.events, log.ids)
  {
    if !Definable(log, name, signature) then log
    else log.(events := log.events + [Event(name, description, signature)],
              ids := log.ids[name := |log.events|])
  }

  function ZeroArg(signature: string): Arg {
    if signature == "i" then Int(0) else Long(0)
  }

  ghost function DefineStatistic(log: Log, name: string, description: string, signature: string): Log
    requires EventsOk(log.events, log.ids)
  {
    if signature !in ["i", "x"] || !Definable(log, name, signature) then log
    else
      Define(log, name, description, signature).(
        stats := log.stats + [Stat(|log.events|, ZeroArg(signature), ZeroArg(signature), false, false)],
        statIds := log.statIds[name := |log.stats|])
  }

  ghost function Update(log: Log, name: string, value: Arg): Log
    requires TablesOk(log)
  {
    assert StatIdEntry(log.events, log.stats, log.statIds, name);
    if name !in log.statIds then log
    else
      var k := log.statIds[name];
      if log.events[log.stats[k].id].signature != value.Signature() then log
      else log.(stats := log.stats[k := log.stats[k].(current := value, initialized := true)])
  }

  // ---- Replay ----

  ghost predicate RecOk(events: seq<Event>, r: Rec) {
    r.id < |events| && r.arg.Signature() == events[r.id].signature
  }

  ghost predicate AllRecsOk(events: seq<Event>, stream: List<Rec>) {
    stream.Snoc? ==> AllRecsOk(events, stream.init) && RecOk(events, stream.last)
  }

  /** The replay clock after some records. */
  ghost function Clock(start: int, stream: List<Rec>): int {
    match stream
    case Nil => start
    case Snoc(init, r) =>
      if r.id == SET_TIME && r.arg.Long? then r.arg.x else Clock(start, init) + r.delta
  }

  /** The calls that shell_perf_log_replay makes for some records. */
  ghost function Play(events: seq<Event>, start: int, stream: List<Rec>): List<Replayed>
    requires AllRecsOk(events, stream)
  {
    match stream
    case Nil => Nil
    case Snoc(init, r) =>
      if r.id == SET_TIME then Play(events, start, init)
      else Snoc(Play(events, start, init),
                Replayed(Clock(start, stream), events[r.id].name, events[r.id].signature, r.arg))
  }

  // ---- What a replay ought to be, told from the accepted calls alone ----

  ghost function LastTime(start: Time, h: List<Accepted>): Time {
    if h.Nil? then start else h.last.time
  }

  ghost predicate Escapes(last: Time, time: Time) {
    time > last + MAX_DELTA
  }

  ghost function ReferenceClock(start: Time, h: List<Accepted>): int {
    match h
    case Nil => start
    case Snoc(init, e) =>
      var last := LastTime(start, init);
      if e.name == SET_TIME_NAME && e.arg.Long? then e.arg.x
      else if Escapes(last, e.time) then e.time
      else if e.time < last then ReferenceClock(start, init)
      else ReferenceClock(start, init) + (e.time - last)
  }

  ghost function Reference(start: Time, h: List<Accepted>): List<Replayed> {
    match h
    case Nil => Nil
    case Snoc(init, e) =>
      if e.name == SET_TIME_NAME then Reference(start, init)
      else Snoc(Reference(start, init), Replayed(ReferenceClock(start, h), e.name, e.arg.Signature(), e.arg))
  }

  // ---- The invariant of every log ----

  ghost predicate Inv(log: Log) {
    TablesOk(log) && AllRecsOk(log.events, log.stream)
  }

  ghost function Replay(log: Log): List<Replayed>
    requires Inv(log)
  {
    Play(log.events, log.start, log.stream)
  }

  lemma RecordInv(log: Log, time: Time, id: uint16, arg: Arg)
    requires Inv(log) && id < |log.events| && arg.Signature() == log.events[id].signature
    ensures Inv(Record(log, time, id, arg))
  {
    assert EventEntry(log.events, log.ids, id) && EventEntry(log.events, log.ids, 0);
  }

  lemma {:induction false} PlayGrow(events: seq<Event>, e: Event, start: int, stream: List<Rec>)
    requires AllRecsOk(events, stream)
    ensures AllRecsOk(events + [e], stream)
    ensures Play(events + [e], start, stream) == Play(events, start, stream)
  {
    if stream.Snoc? {
      PlayGrow(events, e, start, stream.init);
    }
  }

  lemma DefineEventsOk(events: seq<Event>, ids: map<string, uint16>, e: Event)
    requires EventsOk(events, ids) && |events| < MAX_EVENTS
    requires e.name !in ids && e.signature in ["", "s", "i", "x"]
    ensures EventsOk(events + [e], ids[e.name := |events|])
  {
    var events', ids' := events + [e], ids[e.name := |events|];
    forall i ensures EventEntry(events', ids', i) {
      assert EventEntry(events, ids, i);
    }
    forall name ensures IdEntry(events', ids', name) {
      assert IdEntry(events, ids, name);
    }
  }

  lemma DefineStatsOk(events: seq<Event>, stats: seq<Stat>, statIds: map<string, nat>, e: Event)
    requires StatsOk(events, stats, statIds)
    ensures StatsOk(events + [e], stats, statIds)
  {
    var events' := events + [e];
    forall k ensures StatEntry(events', stats, statIds, k) {
      assert StatEntry(events, stats, statIds, k);
    }
    forall name ensures StatIdEntry(events', stats, statIds, name) {
      assert StatIdEntry(events, stats, statIds, name);
    }
  }

  lemma AddStatOk(events: seq<Event>, stats: seq<Stat>, statIds: map<string, nat>, stat: Stat)
    requires StatsOk(events, stats, statIds) && StatOk(events, stat)
    requires events[stat.id].name !in statIds
    ensures StatsOk(events, stats + [stat], statIds[events[stat.id].name := |stats|])
  {
    var stats', statIds' := stats + [stat], statIds[events[stat.id].name := |stats|];
    forall k ensures StatEntry(events, stats', statIds', k) {
      assert StatEntry(events, stats, statIds, k);
    }
    forall name ensures StatIdEntry(events, stats', statIds', name) {
      assert StatIdEntry(events, stats, statIds, name);
    }
  }

  lemma DefineInv(log: Log, name: string, description: string, signature: string)
    requires Inv(log)
    ensures Inv(Define(log, name, description, signature))
  {
    if Definable(log, name, signature) {
      var e := Event(name, description, signature);
      DefineEventsOk(log.events, log.ids, e);
      DefineStatsOk(log.events, log.stats, log.statIds, e);
      PlayGrow(log.events, e, log.start, log.stream);
    }
  }

  lemma StatNameIsEventName(log: Log, name: string)
    requires TablesOk(log)
    ensures name in log.statIds ==> name in log.ids
  {
    assert StatIdEntry(log.events, log.stats, log.statIds, name);
    if name in log.statIds {
      assert EventEntry(log.events, log.ids, log.stats[log.statIds[name]].id);
    }
  }

  lemma DefineStatisticInv(log: Log, name: string, description: string, signature: string)
    requires Inv(log)
    ensures Inv(DefineStatistic(log, name, description, signature))
  {
    if signature in ["i", "x"] && Definable(log, name, signature) {
      DefineInv(log, name, description, signature);
      var mid := Define(log, name, description, signature);
      var stat := Stat(|log.events|, ZeroArg(signature), ZeroArg(signature), false, false);
      StatNameIsEventName(log, name);
      AddStatOk(mid.events, mid.stats, mid.statIds, stat);
    }
  }

  lemma EnabledInv(log: Log, on: bool)
    requires Inv(log)
    ensures Inv(log.(enabled := on))
  {
  }

  lemma UpdateInv(log: Log, name: string, value: Arg)
    requires Inv(log)
    ensures Inv(Update(log, name, value))
  {
    var log' := Update(log, name, value);
    assert StatIdEntry(log.events, log.stats, log.statIds, name);
    forall k ensures StatEntry(log.events, log'.stats, log.statIds, k) {
      assert StatEntry(log.events, log.stats, log.statIds, k);
    }
    forall n ensures StatIdEntry(log.events, log'.stats, log.statIds, n) {
      assert StatIdEntry(log.events, log.stats, log.statIds, n);
    }
  }

  // ---- Operations and runs ----

  datatype Basic =
    | DefineEvent(name: string, description: string, signature: string)
    | DefineStat(name: string, description: string, signature: string)
    | SetEnabled(on: bool)
    | RecordEvent(time: Time, name: string, arg: Arg)
    | UpdateStat(name: string, value: Arg)

  datatype Op =
    | Do(basic: Basic)
    | Collect(begin: Time, elapsed: int64, callbacks: seq<Basic>)

  /** A log just after shell_perf_log_init. */
  ghost function Fresh(start: Time): Log {
    Log([Event(SET_TIME_NAME, "", "x"),
         Event(STATISTICS_COLLECTED_NAME, "Finished collecting statistics", "x")],
        map[SET_TIME_NAME := SET_TIME, STATISTICS_COLLECTED_NAME := STATISTICS_COLLECTED],
        [], map[], start, start, false, Nil, Nil)
  }

  ghost function Apply(log: Log, op: Basic): (log': Log)
    requires Inv(log)
    ensures Inv(log')
  {
    match op
    case DefineEvent(name, description, signature) =>
      DefineInv(log, name, description, signature);
      Define(log, name, description, signature)
    case DefineStat(name, description, signature) =>
      DefineStatisticInv(log, name, description, signature);
      DefineStatistic(log, name, description, signature)
    case SetEnabled(on) =>
      EnabledInv(log, on);
      log.(enabled := on)
    case RecordEvent(time, name, arg) =>
      assert IdEntry(log.events, log.ids, name);
      if name in log.ids && log.events[log.ids[name]].signature == arg.Signature() then
        RecordInv(log, time, log.ids[name], arg);
        RecordByName(log, time, name, arg)
      else log
    case UpdateStat(name, value) =>
      UpdateInv(log, name, value);
      Update(log, name, value)
  }

  ghost function ApplyAll(log: Log, ops: seq<Basic>): (log': Log)
    requires Inv(log)
    ensures Inv(log')
  {
    if ops == [] then log else Apply(ApplyAll(log, ops[..|ops| - 1]), ops[|ops| - 1])
  }

  lemma ApplyAllStep(log: Log, ops: seq<Basic>, i: nat)
    requires Inv(log) && i < |ops|
    ensures ApplyAll(log, ops[..i + 1]) == Apply(ApplyAll(log, ops[..i]), ops[i])
  {
    assert ops[..i + 1][..i] == ops[..i];
  }

  /** Records the first n statistics whose value has changed since it was last written. */
  ghost function RecordPending(log: Log, begin: Time, n: nat): (log': Log)
    requires TablesOk(log) && n <= |log.stats|
    ensures log' == log.(last := log'.last, stream := log'.stream, history := log'.history)
  {
    if n == 0 then log
    else
      var before := RecordPending(log, begin, n - 1);
      var stat := log.stats[n - 1];
      assert StatEntry(log.events, log.stats, log.statIds, n - 1);
      if !stat.Pending() then before
      else Record(before, begin, stat.id, stat.current)
  }

  lemma {:induction false} RecordPendingInv(log: Log, begin: Time, n: nat)
    requires Inv(log) && n <= |log.stats|
    ensures Inv(RecordPending(log, begin, n))
  {
    if n > 0 {
      RecordPendingInv(log, begin, n - 1);
      var stat := log.stats[n - 1];
      assert StatEntry(log.events, log.stats, log.statIds, n - 1);
      RecordInv(RecordPending(log, begin, n - 1), begin, stat.id, stat.current);
    }
  }

  /** The first n statistics once they have been visited by a collection. */
  ghost function Visited(stats: seq<Stat>, n: nat): seq<Stat> {
    seq(|stats|, k requires 0 <= k < |stats| => if k < n then stats[k].Written() else stats[k])
  }

  /** The log when the collection loop has visited n statistics. */
  ghost function Swept(log: Log, begin: Time, n: nat): Log
    requires TablesOk(log) && n <= |log.stats|
  {
    RecordPending(log, begin, n).(stats := Visited(log.stats, n))
  }

  lemma VisitedTablesOk(log: Log, n: nat)
    requires TablesOk(log)
    ensures TablesOk(log.(stats := Visited(log.stats, n)))
  {
    var stats' := Visited(log.stats, n);
    forall k ensures StatEntry(log.events, stats', log.statIds, k) {
      assert StatEntry(log.events, log.stats, log.statIds, k);
    }
    forall name ensures StatIdEntry(log.events, stats', log.statIds, name) {
      assert StatIdEntry(log.events, log.stats, log.statIds, name);
    }
  }

  lemma SweptInv(log: Log, begin: Time, n: nat)
    requires Inv(log) && n <= |log.stats|
    ensures Inv(Swept(log, begin, n))
  {
    RecordPendingInv(log, begin, n);
    VisitedTablesOk(RecordPending(log, begin, n), n);
  }

  /** One visit of the collection loop. */
  ghost function Visit(log: Log, begin: Time, k: nat): Log
    requires k < |log.stats| && log.stats[k].id < |log.events|
  {
    var stat := log.stats[k];
    if stat.Pending() then
      Record(log, begin, stat.id, stat.current).(stats := log.stats[k := stat.Written()])
    else log
  }

  lemma SweptStep(log: Log, begin: Time, n: nat)
    requires Inv(log) && n < |log.stats|
    ensures
      var swept := Swept(log, begin, n);
      && n < |swept.stats| && swept.stats[n].id < |swept.events|
      && swept.stats[n].current.Signature() == swept.events[swept.stats[n].id].signature
      && Swept(log, begin, n + 1) == Visit(swept, begin, n)
      && Inv(Visit(swept, begin, n))
  {
    assert StatEntry(log.events, log.stats, log.statIds, n);
    assert Visited(log.stats, n + 1) == Visited(log.stats, n)[n := log.stats[n].Written()];
    SweptInv(log, begin, n + 1);
  }

  /** The collection loop: visits every statistic once. */
  ghost function Sweep(log: Log, begin: Time): (log': Log)
    requires Inv(log)
    ensures Inv(log')
  {
    SweptInv(log, begin, |log.stats|);
    Swept(log, begin, |log.stats|)
  }

  /** Closes a collection with its perf.statisticsCollected event. */
  ghost function Mark(log: Log, begin: Time, elapsed: int64): (log': Log)
    requires Inv(log)
    ensures Inv(log')
  {
    RecordInv(log, begin, STATISTICS_COLLECTED, Long(elapsed));
    Record(log, begin, STATISTICS_COLLECTED, Long(elapsed))
  }

  ghost function CollectStatistics(log: Log, begin: Time, elapsed: int64, callbacks: seq<Basic>): (log': Log)
    requires Inv(log)
    ensures Inv(log')
  {
    if !log.enabled then log
    else
      var updated := ApplyAll(log, callbacks);
      Mark(Sweep(updated, begin), begin, elapsed)
  }

  ghost function Step(log: Log, op: Op): (log': Log)
    requires Inv(log)
    ensures Inv(log')
  {
    match op
    case Do(basic) => Apply(log, basic)
    case Collect(begin, elapsed, callbacks) => CollectStatistics(log, begin, elapsed, callbacks)
  }

  ghost function Run(start: Time, ops: List<Op>): (log: Log)
    ensures Inv(log)
  {
    match ops
    case Nil => Fresh(start)
    case Snoc(init, op) => Step(Run(start, init), op)
  }
}
