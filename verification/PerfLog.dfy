/** The recorder and its player: events are written into fixed-size blocks of bytes and read back. */
module PerfLog {
  import opened Bytes
  import opened SnocLists
  import opened PerfLogSpec

  // ---- Runs of records as bytes ----

  ghost function SizeAll(recs: List<Rec>): nat {
    match recs
    case Nil => 0
    case Snoc(init, r) => SizeAll(init) + r.Size()
  }

  ghost function EncodeAll(recs: List<Rec>): (s: seq<byte>)
    ensures |s| == SizeAll(recs)
  {
    match recs
    case Nil => []
    case Snoc(init, r) => EncodeAll(init) + r.Encode()
  }

  ghost function First(recs: List<Rec>): Rec
    requires recs.Snoc?
  {
    if recs.init.Nil? then recs.last else First(recs.init)
  }

  lemma {:induction false} EncodePrefix(a: List<Rec>, b: List<Rec>)
    requires IsPrefix(a, b)
    ensures EncodeAll(a) <= EncodeAll(b)
  {
    if a != b {
      EncodePrefix(a, b.init);
    }
  }

  lemma {:induction false} NextRec(a: List<Rec>, b: List<Rec>) returns (r: Rec)
    requires IsPrefix(a, b) && a != b
    ensures IsPrefix(Snoc(a, r), b)
  {
    if a == b.init {
      r := b.last;
    } else {
      r := NextRec(a, b.init);
    }
  }

  /** The records of all blocks, in order. */
  ghost function Stream(recs: seq<List<Rec>>): List<Rec> {
    if recs == [] then Nil else Concat(Stream(recs[..|recs| - 1]), recs[|recs| - 1])
  }

  lemma StreamOpen(recs: seq<List<Rec>>, r: Rec)
    ensures Stream(recs + [Snoc(Nil, r)]) == Snoc(Stream(recs), r)
  {
    assert (recs + [Snoc(Nil, r)])[..|recs|] == recs;
    assert Concat(Stream(recs), Nil) == Stream(recs);
  }

  lemma StreamExtend(recs: seq<List<Rec>>, r: Rec)
    requires recs != []
    ensures
      var n := |recs| - 1;
      Stream(recs[n := Snoc(recs[n], r)]) == Snoc(Stream(recs), r)
  {
    var n := |recs| - 1;
    assert recs[n := Snoc(recs[n], r)][..n] == recs[..n];
  }

  lemma {:induction false} NilPrefix(recs: List<Rec>)
    ensures IsPrefix(Nil, recs)
  {
    if recs.Snoc? {
      NilPrefix(recs.init);
    }
  }

  /** A prefix as large as the whole is the whole: a block is consumed exactly. */
  lemma {:induction false} FullPrefix(a: List<Rec>, b: List<Rec>)
    requires IsPrefix(a, b) && SizeAll(a) >= SizeAll(b)
    ensures a == b
  {
    if a != b {
      EncodePrefix(a, b.init);
    }
  }

  lemma {:induction false} StreamPrefixOk(events: seq<Event>, recs: seq<List<Rec>>, k: nat)
    requires k <= |recs| && AllRecsOk(events, Stream(recs))
    ensures AllRecsOk(events, Stream(recs[..k]))
  {
    if k == |recs| {
      assert recs[..k] == recs;
    } else {
      var n := |recs| - 1;
      ConcatOk(events, Stream(recs[..n]), recs[n]);
      StreamPrefixOk(events, recs[..n], k);
      assert recs[..n][..k] == recs[..k];
    }
  }

  lemma {:induction false} ConcatOk(events: seq<Event>, a: List<Rec>, b: List<Rec>)
    requires AllRecsOk(events, Concat(a, b))
    ensures AllRecsOk(events, a)
  {
    if b.Snoc? {
      ConcatOk(events, a, b.init);
    }
  }

  lemma StreamStep(events: seq<Event>, recs: seq<List<Rec>>, k: nat)
    requires k < |recs| && AllRecsOk(events, Stream(recs))
    ensures Stream(recs[..k + 1]) == Concat(Stream(recs[..k]), recs[k])
    ensures AllRecsOk(events, Stream(recs[..k + 1]))
  {
    StreamPrefixOk(events, recs, k + 1);
    assert recs[..k + 1][..k] == recs[..k];
  }

  // ---- Reading one record back ----

  /** The bytes from pos on begin with the image of r. */
  ghost predicate RecordAt(bytes: seq<byte>, pos: nat, r: Rec) {
    pos + r.Size() <= |bytes| && bytes[pos..pos + r.Size()] == r.Encode()
  }

  lemma {:induction false} RecordAtPosition(a: List<Rec>, b: List<Rec>, r: Rec)
    requires IsPrefix(Snoc(a, r), b)
    ensures RecordAt(EncodeAll(b), SizeAll(a), r)
  {
    EncodePrefix(Snoc(a, r), b);
  }

  lemma SliceOfSlice<T>(s: seq<T>, a: nat, b: nat, c: nat, d: nat)
    requires a <= b <= |s| && c <= d <= b - a
    ensures s[a..b][c..d] == s[a + c..a + d]
  {
    var t, u := s[a..b][c..d], s[a + c..a + d];
    assert |t| == |u|;
    forall i | 0 <= i < |t| ensures t[i] == u[i] {
      assert t[i] == s[a..b][c + i] == s[a + c + i];
    }
  }

  lemma HeaderAt(bytes: seq<byte>, pos: nat, r: Rec)
    requires RecordAt(bytes, pos, r)
    ensures FromLittleEndian(bytes[pos..pos + 4]) == r.delta
    ensures FromLittleEndian(bytes[pos + 4..pos + 6]) == r.id
    ensures bytes[pos + 6..pos + r.Size()] == r.arg.Encode()
  {
    Widths();
    LittleEndianRoundTrip(r.delta, 4);
    LittleEndianRoundTrip(r.id, 2);
    var image := r.Encode();
    var delta, id, arg := LittleEndian(r.delta, 4), LittleEndian(r.id, 2), r.arg.Encode();
    assert image == delta + id + arg;
    SliceOfSlice(bytes, pos, pos + r.Size(), 0, 4);
    SliceOfSlice(bytes, pos, pos + r.Size(), 4, 6);
    SliceOfSlice(bytes, pos, pos + r.Size(), 6, r.Size());
    assert image[0..4] == delta && image[4..6] == id && image[6..r.Size()] == arg;
  }

  lemma {:induction false} PrefixOk(events: seq<Event>, before: List<Rec>, seen: List<Rec>, recs: List<Rec>)
    requires IsPrefix(seen, recs) && AllRecsOk(events, Concat(before, recs))
    ensures AllRecsOk(events, Concat(before, seen))
  {
    if seen != recs {
      PrefixOk(events, before, seen, recs.init);
    }
  }

  /** Where the reader stands between two records of a block, and what comes next. */
  lemma NextRecord(events: seq<Event>, before: List<Rec>, seen: List<Rec>, recs: List<Rec>) returns (r: Rec)
    requires IsPrefix(seen, recs) && SizeAll(seen) != SizeAll(recs)
    requires AllRecsOk(events, Concat(before, recs))
    ensures IsPrefix(Snoc(seen, r), recs)
    ensures RecordAt(EncodeAll(recs), SizeAll(seen), r)
    ensures AllRecsOk(events, Concat(before, seen)) && RecOk(events, r)
    ensures SizeAll(seen) + r.Size() <= SizeAll(recs)
  {
    r := NextRec(seen, recs);
    RecordAtPosition(seen, recs, r);
    PrefixOk(events, before, Snoc(seen, r), recs);
  }

  // ---- Blocks ----

  class Block {
    var bytes: nat
    const buffer: array<byte>

    constructor ()
      ensures bytes == 0 && buffer.Length == BLOCK_SIZE && fresh(buffer)
    {
      bytes := 0;
      buffer := new byte[BLOCK_SIZE];
    }

    /** The block holds exactly these records and nothing of any other. */
    ghost predicate Holds(recs: List<Rec>)
      reads this, buffer
    {
      && buffer.Length == BLOCK_SIZE
      && bytes == SizeAll(recs) <= BLOCK_SIZE
      && buffer[..bytes] == EncodeAll(recs)
    }

    method Append(r: Rec, ghost recs: List<Rec>)
      requires Holds(recs) && bytes + r.Size() <= BLOCK_SIZE
      modifies this, buffer
      ensures Holds(Snoc(recs, r))
    {
      var image := r.Encode();
      var pos := bytes;
      forall i | 0 <= i < |image| {
        buffer[pos + i] := image[i];
      }
      bytes := pos + |image|;
      assert buffer[..bytes] == old(buffer[..bytes]) + image;
    }
  }

  /** A block is only opened for a record that did not fit into the one before. */
  ghost predicate Full(recs: List<Rec>, next: List<Rec>) {
    next.Snoc? && SizeAll(recs) + First(next).Size() > BLOCK_SIZE
  }

  ghost predicate Chained(recs: seq<List<Rec>>) {
    forall j, k :: 0 <= j && k == j + 1 < |recs| ==> Full(recs[j], recs[k])
  }

  lemma ChainedOpen(recs: seq<List<Rec>>, r: Rec)
    requires Chained(recs) && (recs != [] ==> SizeAll(recs[|recs| - 1]) + r.Size() > BLOCK_SIZE)
    ensures Chained(recs + [Snoc(Nil, r)])
  {
  }

  lemma ChainedExtend(recs: seq<List<Rec>>, r: Rec)
    requires Chained(recs) && recs != []
    ensures Chained(recs[|recs| - 1 := Snoc(recs[|recs| - 1], r)])
  {
  }

  /** The queue of blocks. */
  class BlockQueue {
    var blocks: seq<Block>
    ghost var contents: seq<List<Rec>>
    ghost var Repr: set<object>

    /** Every block holds whole records, and blocks are filled before new ones are opened. */
    ghost predicate Valid()
      reads this, Repr
    {
      && this in Repr
      && |contents| == |blocks|
      && (forall k :: 0 <= k < |blocks| ==> blocks[k] in Repr && blocks[k].buffer in Repr)
      && AllApart()
      && (forall k :: 0 <= k < |blocks| ==> blocks[k].Holds(contents[k]))
      && Chained(contents)
    }

    ghost predicate AllApart()
      reads `blocks
    {
      forall j, k :: 0 <= j < k < |blocks| ==> blocks[j] != blocks[k] && blocks[j].buffer != blocks[k].buffer
    }

    ghost function Records(): List<Rec>
      reads this
    {
      Stream(contents)
    }

    constructor ()
      ensures Valid() && fresh(Repr) && Records() == Nil
    {
      blocks := [];
      contents := [];
      Repr := {this};
    }

    /** A record for which the last block has no room opens a new one. */
    method OpenBlock(r: Rec)
      requires Valid() && r.Size() <= BLOCK_SIZE
      requires blocks != [] ==> r.Size() + blocks[|blocks| - 1].bytes > BLOCK_SIZE
      modifies this
      ensures Valid() && fresh(Repr - old(Repr))
      ensures contents == old(contents) + [Snoc(Nil, r)]
    {
      hide Chained;
      ChainedOpen(contents, r);
      var block := new Block();
      block.Append(r, Nil);
      blocks := blocks + [block];
      Repr := Repr + {block, block.buffer};
      contents := contents + [Snoc(Nil, r)];
    }

    method FillBlock(r: Rec)
      requires Valid() && blocks != []
      requires r.Size() + blocks[|blocks| - 1].bytes <= BLOCK_SIZE
      modifies Repr
      ensures Valid() && Repr == old(Repr)
      ensures
        var n := |old(contents)| - 1;
        contents == old(contents)[n := Snoc(old(contents)[n], r)]
    {
      var n := |blocks| - 1;
      ChainedExtend(contents, r);
      blocks[n].Append(r, contents[n]);
      contents := contents[n := Snoc(contents[n], r)];
    }

    /** Puts one record behind all others. */
    method Append(r: Rec)
      requires Valid() && r.Size() <= BLOCK_SIZE
      modifies Repr
      ensures Valid() && fresh(Repr - old(Repr))
      ensures Records() == Snoc(old(Records()), r)
    {
      if blocks == [] || r.Size() + blocks[|blocks| - 1].bytes > BLOCK_SIZE {
        StreamOpen(contents, r);
        OpenBlock(r);
      } else {
        StreamExtend(contents, r);
        FillBlock(r);
      }
    }
  }

  class ShellPerfLog {
    var events: seq<Event>
    var eventsByName: map<string, uint16>
    var statistics: seq<Stat>
    var statisticsByName: map<string, nat>
    const queue: BlockQueue
    var startTime: Time
    var lastTime: Time
    var enabled: bool
    ghost var model: Log

    /** The fields and the blocks are those of the model. */
    ghost predicate Mirrors()
      reads this, queue
    {
      && events == model.events && eventsByName == model.ids
      && statistics == model.stats && statisticsByName == model.statIds
      && startTime == model.start && lastTime == model.last && enabled == model.enabled
      && queue.Records() == model.stream
    }

    ghost predicate Valid()
      reads this, queue, queue.Repr
    {
      && this !in queue.Repr && queue.Valid()
      && Mirrors()
      && Inv(model)
    }

    constructor (now: Time)
      ensures Valid() && fresh(queue.Repr)
      ensures model == Fresh(now)
    {
      events := [Event(SET_TIME_NAME, "", "x"),
                 Event(STATISTICS_COLLECTED_NAME, "Finished collecting statistics", "x")];
      eventsByName := map[SET_TIME_NAME := SET_TIME, STATISTICS_COLLECTED_NAME := STATISTICS_COLLECTED];
      statistics := [];
      statisticsByName := map[];
      queue := new BlockQueue();
      startTime, lastTime := now, now;
      enabled := false;
      model := Fresh(now);
    }

    /** The time delta of the next record; a gap too wide for one sends out an escape record first,
        with the clock already moved, hence with delta 0. */
    method TakeDelta(time: Time) returns (delta: uint32)
      requires this !in queue.Repr && queue.Valid()
      modifies `lastTime, queue.Repr
      ensures this !in queue.Repr && queue.Valid() && fresh(queue.Repr - old(queue.Repr))
      ensures
        var escape := time > old(lastTime) + MAX_DELTA;
        && queue.Records() ==
          (if escape then Snoc(old(queue.Records()), Rec(0, SET_TIME, Long(time))) else old(queue.Records()))
        && delta == if escape || time < old(lastTime) then 0 else time - old(lastTime)
      ensures lastTime == time
    {
      if time > lastTime + MAX_DELTA {
        lastTime := time;
        queue.Append(Rec(0, SET_TIME, Long(time)));
        delta := 0;
      } else if time < lastTime {
        delta := 0;
      } else {
        delta := time - lastTime;
      }
      lastTime := time;
    }

    /** record_event. */
    method RecordEvent(time: Time, id: uint16, arg: Arg)
      requires Valid() && id < |events| && arg.Signature() == events[id].signature
      modifies this, queue.Repr
      ensures Valid() && fresh(queue.Repr - old(queue.Repr))
      ensures model == Record(old(model), time, id, arg)
    {
      RecordInv(model, time, id, arg);
      if !enabled || Oversize(arg) {
        return;
      }
      var delta := TakeDelta(time);
      queue.Append(Rec(delta, id, arg));
      model := Record(model, time, id, arg);
    }

    /** define_event: true when the event was added. */
    method DefineEvent(name: string, description: string, signature: string) returns (added: bool)
      requires Valid()
      modifies this
      ensures Valid() && queue.Repr == old(queue.Repr)
      ensures model == Define(old(model), name, description, signature)
      ensures added == Definable(old(model), name, signature)
    {
      DefineInv(model, name, description, signature);
      if signature !in ["", "s", "i", "x"] {
        return false;
      }
      if |events| == MAX_EVENTS {
        return false;
      }
      if '"' in name {
        return false;
      }
      if name in eventsByName {
        return false;
      }
      eventsByName := eventsByName[name := |events|];
      events := events + [Event(name, description, signature)];
      model := Define(model, name, description, signature);
      return true;
    }

    method DefineStatistic(name: string, description: string, signature: string)
      requires Valid()
      modifies this
      ensures Valid() && queue.Repr == old(queue.Repr)
      ensures model == PerfLogSpec.DefineStatistic(old(model), name, description, signature)
    {
      DefineStatisticInv(model, name, description, signature);
      if signature != "i" && signature != "x" {
        return;
      }
      var id := |events|;
      var added := DefineEvent(name, description, signature);
      if !added {
        return;
      }
      statisticsByName := statisticsByName[name := |statistics|];
      statistics := statistics + [Stat(id, ZeroArg(signature), ZeroArg(signature), false, false)];
      model := PerfLogSpec.DefineStatistic(old(model), name, description, signature);
    }

    method SetEnabled(on: bool)
      requires Valid()
      modifies this
      ensures Valid() && queue.Repr == old(queue.Repr)
      ensures model == old(model).(enabled := on)
    {
      EnabledInv(model, on);
      enabled := on;
      model := model.(enabled := on);
    }

    /** shell_perf_log_event, _i, _x and _s. */
    method RecordByName(time: Time, name: string, arg: Arg)
      requires Valid()
      modifies this, queue.Repr
      ensures Valid() && fresh(queue.Repr - old(queue.Repr))
      ensures model == PerfLogSpec.RecordByName(old(model), time, name, arg)
    {
      if name !in eventsByName {
        return;
      }
      assert IdEntry(model.events, model.ids, name);
      var id := eventsByName[name];
      if events[id].signature != arg.Signature() {
        return;
      }
      RecordEvent(time, id, arg);
    }

    /** shell_perf_log_update_statistic_i and _x. */
    method UpdateStatistic(name: string, value: Arg)
      requires Valid()
      modifies this
      ensures Valid() && queue.Repr == old(queue.Repr)
      ensures model == Update(old(model), name, value)
    {
      UpdateInv(model, name, value);
      if name !in statisticsByName {
        return;
      }
      assert StatIdEntry(model.events, model.stats, model.statIds, name);
      var k := statisticsByName[name];
      if events[statistics[k].id].signature != value.Signature() {
        return;
      }
      statistics := statistics[k := statistics[k].(current := value, initialized := true)];
      model := Apply(model, UpdateStat(name, value));
    }

    method Perform(op: Basic)
      requires Valid()
      modifies this, queue.Repr
      ensures Valid() && fresh(queue.Repr - old(queue.Repr))
      ensures model == Apply(old(model), op)
    {
      match op
      case DefineEvent(name, description, signature) =>
        var _ := DefineEvent(name, description, signature);
      case DefineStat(name, description, signature) =>
        DefineStatistic(name, description, signature);
      case SetEnabled(on) =>
        SetEnabled(on);
      case RecordEvent(time, name, arg) =>
        RecordByName(time, name, arg);
      case UpdateStat(name, value) =>
        UpdateStatistic(name, value);
    }

    /** Visits statistic k: writes it out if it has changed. */
    method VisitStatistic(begin: Time, k: nat)
      requires Valid() && k < |statistics| && statistics[k].id < |events|
      requires statistics[k].current.Signature() == events[statistics[k].id].signature
      requires Inv(Visit(model, begin, k))
      modifies this, queue.Repr
      ensures Valid() && fresh(queue.Repr - old(queue.Repr))
      ensures model == Visit(old(model), begin, k)
    {
      var statistic := statistics[k];
      if !statistic.initialized {
        return;
      }
      if !statistic.recorded || statistic.current != statistic.last {
        RecordEvent(begin, statistic.id, statistic.current);
        statistics := statistics[k := statistic.(last := statistic.current, recorded := true)];
        model := Visit(old(model), begin, k);
      }
    }

    /** shell_perf_log_collect_statistics. The callbacks are given by what they do to the log, the clock
        by its reading at the start and by the time the callbacks took. */
    method CollectStatistics(begin: Time, elapsed: int64, callbacks: seq<Basic>)
      requires Valid()
      modifies this, queue.Repr
      ensures Valid() && fresh(queue.Repr - old(queue.Repr))
      ensures model == PerfLogSpec.CollectStatistics(old(model), begin, elapsed, callbacks)
    {
      if !enabled {
        return;
      }
      RunCallbacks(callbacks);
      WriteStatistics(begin);
      RecordEvent(begin, STATISTICS_COLLECTED, Long(elapsed));
    }

    method RunCallbacks(callbacks: seq<Basic>)
      requires Valid()
      modifies this, queue.Repr
      ensures Valid() && fresh(queue.Repr - old(queue.Repr))
      ensures model == ApplyAll(old(model), callbacks)
    {
      ghost var log := model;
      var i := 0;
      while i < |callbacks|
        invariant 0 <= i <= |callbacks|
        invariant Valid() && fresh(queue.Repr - old(queue.Repr))
        invariant model == ApplyAll(log, callbacks[..i])
      {
        ApplyAllStep(log, callbacks, i);
        Perform(callbacks[i]);
        i := i + 1;
      }
      assert callbacks[..i] == callbacks;
    }

    method WriteStatistics(begin: Time)
      requires Valid()
      modifies this, queue.Repr
      ensures Valid() && fresh(queue.Repr - old(queue.Repr))
      ensures model == Sweep(old(model), begin)
    {
      ghost var log := model;
      var k := 0;
      assert Swept(log, begin, 0) == log by { assert Visited(log.stats, 0) == log.stats; }
      while k < |statistics|
        invariant 0 <= k <= |statistics| == |log.stats|
        invariant Valid() && fresh(queue.Repr - old(queue.Repr))
        invariant model == Swept(log, begin, k)
      {
        SweptStep(log, begin, k);
        VisitStatistic(begin, k);
        k := k + 1;
      }
    }

    /** The argument that follows a record's header, by the signature of its event. */
    method ReadArg(buffer: array<byte>, start: nat, signature: string, ghost arg: Arg) returns (r: Arg, pos: nat)
      requires start + arg.Size() <= buffer.Length
      requires buffer[start..start + arg.Size()] == arg.Encode()
      requires signature == arg.Signature()
      ensures r == arg && pos == start + arg.Size()
    {
      pos := start;
      if signature == "" {
        r := NoArg;
      } else if signature == "i" {
        SignedRoundTrip(arg.i, 0);
        r := Int(FromSigned32(buffer[pos..pos + 4]));
        pos := pos + 4;
      } else if signature == "x" {
        SignedRoundTrip(0, arg.x);
        r := Long(FromSigned64(buffer[pos..pos + 8]));
        pos := pos + 8;
      } else {
        ghost var image := arg.Encode();
        assert forall k :: 0 <= k < |image| ==> buffer[start..start + arg.Size()][k] == image[k];
        var n := 0;
        while buffer[pos + n] != 0
          invariant 0 <= n <= |arg.s|
          decreases |arg.s| - n
        {
          assert image[n] == arg.s[n];
          n := n + 1;
        }
        assert n == |arg.s|;
        assert buffer[pos..pos + n] == image[..n];
        r := Str(buffer[pos..pos + n]);
        pos := pos + n + 1;
      }
    }

    lemma PrefixSlice(a: array<byte>, n: nat, i: nat, j: nat)
      requires i <= j <= n <= a.Length
      ensures a[..n][i..j] == a[i..j]
    {
    }

    /** One turn of the replay loop: reads the record at pos. */
    method ReplayRecord(block: Block, pos: nat, time: int, ghost r: Rec) returns (pos': nat, time': int, arg: Arg, id: uint16)
      requires block.buffer.Length == BLOCK_SIZE && block.bytes <= BLOCK_SIZE
      requires RecordAt(block.buffer[..block.bytes], pos, r)
      requires RecOk(events, r) && 0 < |events| && events[0].signature == "x"
      ensures pos' == pos + r.Size() && id == r.id && arg == r.arg
      ensures time' == if r.id == SET_TIME && r.arg.Long? then r.arg.x else time + r.delta
    {
      var buffer := block.buffer;
      ghost var bytes := buffer[..block.bytes];
      HeaderAt(bytes, pos, r);
      PrefixSlice(buffer, block.bytes, pos, pos + 4);
      PrefixSlice(buffer, block.bytes, pos + 4, pos + 6);
      PrefixSlice(buffer, block.bytes, pos + 6, pos + r.Size());
      var delta := FromLittleEndian(buffer[pos..pos + 4]);
      id := FromLittleEndian(buffer[pos + 4..pos + 6]);
      arg, pos' := ReadArg(buffer, pos + 6, if id == SET_TIME then "x" else events[id].signature, r.arg);
      if id == SET_TIME {
        time' := arg.x;
      } else {
        time' := time + delta;
      }
    }

    /** The records of one block, played behind those of the blocks before it. */
    method ReplayBlock(block: Block, time0: int, out0: List<Replayed>, ghost recs: List<Rec>, ghost before: List<Rec>)
      returns (time: int, out: List<Replayed>)
      requires block.Holds(recs)
      requires AllRecsOk(events, Concat(before, recs)) && AllRecsOk(events, before)
      requires 0 < |events| && events[0].signature == "x"
      requires time0 == Clock(startTime, before) && out0 == Play(events, startTime, before)
      ensures time == Clock(startTime, Concat(before, recs))
      ensures out == Play(events, startTime, Concat(before, recs))
    {
      time, out := time0, out0;
      var pos := 0;
      ghost var seen: List<Rec> := Nil;
      NilPrefix(recs);
      while pos < block.bytes
        invariant IsPrefix(seen, recs) && pos == SizeAll(seen) <= block.bytes
        invariant AllRecsOk(events, Concat(before, seen))
        invariant time == Clock(startTime, Concat(before, seen))
        invariant out == Play(events, startTime, Concat(before, seen))
        decreases block.bytes - pos
      {
        ghost var r := NextRecord(events, before, seen, recs);
        var id: uint16;
        var arg: Arg;
        pos, time, arg, id := ReplayRecord(block, pos, time, r);
        if id != SET_TIME {
          out := Snoc(out, Replayed(time, events[id].name, events[id].signature, arg));
        }
        seen := Snoc(seen, r);
      }
      FullPrefix(seen, recs);
    }

    /** shell_perf_log_replay: the events passed to the replay function, in order. */
    method Replay() returns (out: List<Replayed>)
      requires Valid()
      ensures out == PerfLogSpec.Replay(model)
    {
      out := Nil;
      var time: int := startTime;
      var k := 0;
      while k < |queue.blocks|
        invariant 0 <= k <= |queue.blocks|
        invariant AllRecsOk(events, Stream(queue.contents[..k]))
        invariant time == Clock(startTime, Stream(queue.contents[..k]))
        invariant out == Play(events, startTime, Stream(queue.contents[..k]))
      {
        StreamStep(events, queue.contents, k);
        time, out := ReplayBlock(queue.blocks[k], time, out, queue.contents[k], Stream(queue.contents[..k]));
        k := k + 1;
      }
      assert queue.contents[..k] == queue.contents;
    }
  }
}
