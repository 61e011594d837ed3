/** The cpuperf importer: records of several CPUs and events are turned into intervals, or, in
    tally mode, into one total per CPU and event. */
module CpuperfImporter {

  const MAX_NUM_CPUS: nat := 32
  const TWO_TO_THE_64: nat := 0x1_0000_0000_0000_0000

  type CpuNumber = c: nat | c < MAX_NUM_CPUS
  // Sixteen bits wide.
  type EventId = e: nat | e < 0x1_0000
  type Ticks = nat

  const EVENT_ID_NONE: EventId := 0

  /** A time record without an event only sets the clock. */
  datatype Kind = Time(time: Ticks) | Tick | Count(count: nat) | Value(value: nat) | Pc | LastBranch

  datatype Record = Record(cpu: CpuNumber, event: EventId, kind: Kind)

  datatype Config = Config(startTime: Ticks, stopTime: Ticks, sampleRate: nat)

  predicate IsTimeOnly(r: Record) {
    r.kind.Time? && r.event == EVENT_ID_NONE
  }

  // ------------------------------------------------------------------ keys

  /** The packed key of the tracker's table, a CPU number shifted left by sixteen and an event id
      in the low bits; PackIsSum says why this is a sum. */
  function GenKey(cpu: CpuNumber, id: EventId): nat {
    cpu * 0x1_0000 + id
  }

  lemma PackIsSum(cpu: bv32, id: bv32)
    requires cpu < 32 && id < 0x1_0000
    ensures (cpu << 16) | id == cpu * 0x1_0000 + id && cpu * 0x1_0000 <= 0x1f_0000
  {
  }

  /** Different CPUs or events never share an entry. */
  lemma KeyInjective(c1: CpuNumber, e1: EventId, c2: CpuNumber, e2: EventId)
    ensures GenKey(c1, e1) == GenKey(c2, e2) <==> c1 == c2 && e1 == e2
  {
  }

  // ------------------------------------------------------------------ the tracker

  datatype Data = Data(time: Ticks, isValue: bool, countOrValue: nat)

  function Entry(data: map<nat, Data>, key: nat): Data {
    if key in data then data[key] else Data(0, false, 0)
  }

  /** The table is as before except perhaps for one entry. */
  ghost predicate OnlyChanges(before: map<nat, Data>, after: map<nat, Data>, key: nat) {
    && after.Keys == before.Keys + {key}
    && forall k :: k in before && k != key ==> after[k] == before[k]
  }

  class EventTracker {
    const startTime: Ticks
    var data: map<nat, Data>

    constructor (startTime: Ticks)
      ensures this.startTime == startTime && data == map[]
    {
      this.startTime := startTime;
      data := map[];
    }

    predicate HaveValue(cpu: CpuNumber, id: EventId)
      reads this
    {
      GenKey(cpu, id) in data
    }

    function GetTime(cpu: CpuNumber, id: EventId): Ticks
      reads this
    {
      if GenKey(cpu, id) in data then data[GenKey(cpu, id)].time else startTime
    }

    function GetCountOrValue(cpu: CpuNumber, id: EventId): nat
      reads this
    {
      if GenKey(cpu, id) in data then data[GenKey(cpu, id)].countOrValue else 0
    }

    method UpdateTime(cpu: CpuNumber, id: EventId, time: Ticks)
      modifies this
      ensures data == WithTime(old(data), GenKey(cpu, id), time)
      ensures OnlyChanges(old(data), data, GenKey(cpu, id)) && GetTime(cpu, id) == time
      ensures GetCountOrValue(cpu, id) == old(GetCountOrValue(cpu, id))
    {
      var key := GenKey(cpu, id);
      data := data[key := Entry(data, key).(time := time)];
    }

    method UpdateValue(cpu: CpuNumber, id: EventId, value: nat)
      modifies this
      ensures data == WithValue(old(data), GenKey(cpu, id), value)
      ensures OnlyChanges(old(data), data, GenKey(cpu, id)) && GetCountOrValue(cpu, id) == value
      ensures old(HaveValue(cpu, id)) ==> GetTime(cpu, id) == old(GetTime(cpu, id))
    {
      var key := GenKey(cpu, id);
      data := data[key := Entry(data, key).(isValue := true)];
      data := data[key := Entry(data, key).(countOrValue := value)];
      assert data == old(data)[key := data[key]];
    }

    method AccumulateCount(cpu: CpuNumber, id: EventId, value: nat)
      modifies this
      ensures data == WithCount(old(data), GenKey(cpu, id), value)
      ensures OnlyChanges(old(data), data, GenKey(cpu, id))
      ensures GetCountOrValue(cpu, id) == (old(GetCountOrValue(cpu, id)) + value) % TWO_TO_THE_64
      ensures old(HaveValue(cpu, id)) ==> GetTime(cpu, id) == old(GetTime(cpu, id))
    {
      var key := GenKey(cpu, id);
      data := data[key := Entry(data, key).(isValue := false)];
      data := data[key := Entry(data, key).(countOrValue := (data[key].countOrValue + value) % TWO_TO_THE_64)];
      assert data == old(data)[key := data[key]];
    }
  }

  function WithTime(data: map<nat, Data>, key: nat, time: Ticks): map<nat, Data> {
    data[key := Entry(data, key).(time := time)]
  }

  function WithValue(data: map<nat, Data>, key: nat, value: nat): map<nat, Data> {
    data[key := Entry(data, key).(isValue := true, countOrValue := value)]
  }

  function WithCount(data: map<nat, Data>, key: nat, value: nat): map<nat, Data> {
    var d := Entry(data, key);
    data[key := d.(isValue := false, countOrValue := (d.countOrValue + value) % TWO_TO_THE_64)]
  }

  // ------------------------------------------------------------------ the loop, one record at a time

  datatype Class = TimeOnly | Backward | Empty | Late | Accepted

  datatype Interval = Interval(cpu: CpuNumber, event: EventId, start: Ticks, end: Ticks)

  /** `classes` and `accepted` are history: what became of each record, and the intervals used. */
  datatype State = State(now: Ticks, data: map<nat, Data>, classes: seq<Class>, accepted: seq<Interval>)

  function LastTime(c: Config, s: State, key: nat): Ticks {
    if key in s.data then s.data[key].time else c.startTime
  }

  function Clock(now: Ticks, r: Record): Ticks {
    if r.kind.Time? then r.kind.time else now
  }

  function Classify(c: Config, r: Record, previous: Ticks, now: Ticks): Class {
    if IsTimeOnly(r) then TimeOnly
    else if now < previous then Backward
    else if now == previous then Empty
    else if now > c.stopTime then Late
    else Accepted
  }

  function Tally(c: Config, data: map<nat, Data>, key: nat, kind: Kind): map<nat, Data> {
    match kind
    case Time(_) => WithCount(data, key, c.sampleRate)
    case Tick => WithCount(data, key, c.sampleRate)
    case Count(n) => WithCount(data, key, n)
    case Value(v) => WithValue(data, key, v)
    case Pc => data
    case LastBranch => data
  }

  function Step(c: Config, s: State, r: Record): State {
    var now := Clock(s.now, r);
    var key := GenKey(r.cpu, r.event);
    var previous := LastTime(c, s, key);
    var class_ := Classify(c, r, previous, now);
    var t := s.(now := now, classes := s.classes + [class_]);
    if class_ == TimeOnly then t
    else
      var data := if class_ == Accepted && c.sampleRate == 0 then Tally(c, s.data, key, r.kind) else s.data;
      t.(data := WithTime(data, key, now),
         accepted := if class_ == Accepted then s.accepted + [Interval(r.cpu, r.event, previous, now)]
                     else s.accepted)
  }

  /** The state after the first `n` records of a trace whose clock starts at `init`. */
  function Run(c: Config, init: Ticks, h: seq<Record>, n: nat): State
    requires n <= |h|
  {
    if n == 0 then State(init, map[], [], []) else Step(c, Run(c, init, h, n - 1), h[n - 1])
  }

  // ------------------------------------------------------------------ what the history says

  /** The clock when record `n - 1` is handled: that of the latest time record. */
  function TimeAt(init: Ticks, h: seq<Record>, n: nat): Ticks
    requires n <= |h|
  {
    if n == 0 then init
    else if h[n - 1].kind.Time? then h[n - 1].kind.time
    else TimeAt(init, h, n - 1)
  }

  /** By position: with no time record from record `m` to before record `n`, the time is that of record
      `m - 1` if that is a time record, and the initial time if there is no earlier record. */
  lemma {:induction false} TimeIsLast(init: Ticks, h: seq<Record>, m: nat, n: nat)
    requires m <= n <= |h| && forall k :: m <= k < n ==> !h[k].kind.Time?
    ensures m == 0 ==> TimeAt(init, h, n) == init
    ensures m > 0 && h[m - 1].kind.Time? ==> TimeAt(init, h, n) == h[m - 1].kind.time
    decreases n
  {
    if m < n {
      TimeIsLast(init, h, m, n - 1);
    }
  }

  /** Record `i` is one of the given CPU and event, and not just a time without an event. */
  predicate IsOf(h: seq<Record>, i: nat, cpu: CpuNumber, event: EventId) {
    i < |h| && h[i].cpu == cpu && h[i].event == event && !(h[i].kind.Time? && event == 0)
  }

  /** The time of the latest record of the CPU and event, the start time if there is none. */
  function Previous(c: Config, init: Ticks, h: seq<Record>, n: nat, cpu: CpuNumber, event: EventId): Ticks
    requires n <= |h|
  {
    if n == 0 then c.startTime
    else if IsOf(h, n - 1, cpu, event) then TimeAt(init, h, n)
    else Previous(c, init, h, n - 1, cpu, event)
  }

  /** What record `i` is, judged by the history alone. */
  function ClassOf(c: Config, init: Ticks, h: seq<Record>, i: nat): Class
    requires i < |h|
  {
    var previous, now := Previous(c, init, h, i, h[i].cpu, h[i].event), TimeAt(init, h, i + 1);
    if h[i].kind.Time? && h[i].event == 0 then TimeOnly
    else if previous < now <= c.stopTime then Accepted
    else if previous < now then Late
    else if previous == now then Empty
    else Backward
  }

  // ------------------------------------------------------------------ the state tells the history

  lemma {:induction false} TableTimes(c: Config, init: Ticks, h: seq<Record>, n: nat, cpu: CpuNumber, event: EventId)
    requires n <= |h|
    ensures Run(c, init, h, n).now == TimeAt(init, h, n)
    ensures LastTime(c, Run(c, init, h, n), GenKey(cpu, event)) == Previous(c, init, h, n, cpu, event)
  {
    if n > 0 {
      TableTimes(c, init, h, n - 1, cpu, event);
      var r := h[n - 1];
      var key := GenKey(cpu, event);
      if GenKey(r.cpu, r.event) == key {
        KeyInjective(r.cpu, r.event, cpu, event);
        assert !IsTimeOnly(r) ==> IsOf(h, n - 1, cpu, event) && key in Run(c, init, h, n).data;
      }
    }
  }

  /** Every record read falls in exactly one class, the one the history gives it. */
  lemma {:induction false} ClassesMatch(c: Config, init: Ticks, h: seq<Record>, n: nat)
    requires n <= |h|
    ensures |Run(c, init, h, n).classes| == n
    ensures forall i :: 0 <= i < n ==> Run(c, init, h, n).classes[i] == ClassOf(c, init, h, i)
  {
    if n > 0 {
      ClassesMatch(c, init, h, n - 1);
      TableTimes(c, init, h, n - 1, h[n - 1].cpu, h[n - 1].event);
      StepHistory(c, Run(c, init, h, n - 1), h[n - 1]);
    }
  }

  // ------------------------------------------------------------------ tiling

  function OfKey(a: seq<Interval>, cpu: CpuNumber, event: EventId): seq<Interval> {
    if a == [] then []
    else
      var n := |a| - 1;
      OfKey(a[..n], cpu, event) + if a[n].cpu == cpu && a[n].event == event then [a[n]] else []
  }

  /** Consecutive non-empty intervals that cover the time between `start` and `end`. */
  ghost predicate Tiles(a: seq<Interval>, start: Ticks, end: Ticks) {
    && (forall k :: 0 <= k < |a| ==> a[k].start < a[k].end)
    && (forall k :: 0 < k < |a| ==> a[k].start == a[k - 1].end)
    && (if a == [] then start == end else a[0].start == start && a[|a| - 1].end == end)
  }

  /** The time of the latest record of the CPU and event that is not past the stop time. */
  function LastInRange(c: Config, init: Ticks, h: seq<Record>, n: nat, cpu: CpuNumber, event: EventId): Ticks
    requires n <= |h|
  {
    if n == 0 then c.startTime
    else if IsOf(h, n - 1, cpu, event) && TimeAt(init, h, n) <= c.stopTime then TimeAt(init, h, n)
    else LastInRange(c, init, h, n - 1, cpu, event)
  }

  /** No record of the CPU and event that is in range goes back in time: in particular, times that
      begin at or after the start time and never decrease. */
  ghost predicate NeverBack(c: Config, init: Ticks, h: seq<Record>, cpu: CpuNumber, event: EventId) {
    forall i: nat :: i < |h| && IsOf(h, i, cpu, event) && TimeAt(init, h, i + 1) <= c.stopTime ==>
      Previous(c, init, h, i, cpu, event) <= TimeAt(init, h, i + 1)
  }

  lemma OfKeyAppend(a: seq<Interval>, x: Interval, cpu: CpuNumber, event: EventId)
    ensures OfKey(a + [x], cpu, event) ==
            if x.cpu == cpu && x.event == event then OfKey(a, cpu, event) + [x] else OfKey(a, cpu, event)
  {
    assert (a + [x])[..|a|] == a;
  }

  /** What one record adds to the accepted intervals of a CPU and event. */
  lemma AcceptedStep(c: Config, init: Ticks, h: seq<Record>, i: nat, cpu: CpuNumber, event: EventId)
    requires i < |h|
    ensures OfKey(Run(c, init, h, i + 1).accepted, cpu, event) ==
            if IsOf(h, i, cpu, event) && ClassOf(c, init, h, i) == Accepted
            then OfKey(Run(c, init, h, i).accepted, cpu, event)
                 + [Interval(cpu, event, Previous(c, init, h, i, cpu, event), TimeAt(init, h, i + 1))]
            else OfKey(Run(c, init, h, i).accepted, cpu, event)
  {
    var r := h[i];
    TableTimes(c, init, h, i, r.cpu, r.event);
    var previous := Previous(c, init, h, i, r.cpu, r.event);
    OfKeyAppend(Run(c, init, h, i).accepted, Interval(r.cpu, r.event, previous, TimeAt(init, h, i + 1)), cpu, event);
  }

  lemma TilesAppend(a: seq<Interval>, start: Ticks, end: Ticks, x: Interval)
    requires Tiles(a, start, end) && x.start == end < x.end
    ensures Tiles(a + [x], start, x.end)
  {
  }

  /** The intervals accepted for a CPU and event tile the span from the start time to the last
      in-range time, with no gap and no overlap. */
  lemma {:induction false} AcceptedTile(c: Config, init: Ticks, h: seq<Record>, n: nat, cpu: CpuNumber, event: EventId)
    requires n <= |h| && NeverBack(c, init, h, cpu, event)
    ensures Tiles(OfKey(Run(c, init, h, n).accepted, cpu, event), c.startTime, LastInRange(c, init, h, n, cpu, event))
    ensures Previous(c, init, h, n, cpu, event) <= c.stopTime ==>
              LastInRange(c, init, h, n, cpu, event) == Previous(c, init, h, n, cpu, event)
  {
    if n > 0 {
      var i := n - 1;
      AcceptedTile(c, init, h, i, cpu, event);
      AcceptedStep(c, init, h, i, cpu, event);
      if IsOf(h, i, cpu, event) && ClassOf(c, init, h, i) == Accepted {
        TilesAppend(OfKey(Run(c, init, h, i).accepted, cpu, event), c.startTime, LastInRange(c, init, h, i, cpu, event),
                    Interval(cpu, event, Previous(c, init, h, i, cpu, event), TimeAt(init, h, n)));
      }
    }
  }

  // ------------------------------------------------------------------ tallies

  /** No value record is among those of the CPU and event. */
  ghost predicate OnlyCounted(h: seq<Record>, cpu: CpuNumber, event: EventId) {
    forall i: nat :: i < |h| && IsOf(h, i, cpu, event) ==> !h[i].kind.Value?
  }

  /** The sum of the counts in the accepted records of exactly this CPU and event. */
  function CountSum(c: Config, init: Ticks, h: seq<Record>, n: nat, cpu: CpuNumber, event: EventId): nat
    requires n <= |h|
  {
    if n == 0 then 0
    else
      CountSum(c, init, h, n - 1, cpu, event) +
      if IsOf(h, n - 1, cpu, event) && h[n - 1].kind.Count? && ClassOf(c, init, h, n - 1) == Accepted
      then h[n - 1].kind.count else 0
  }

  lemma ModAdd(a: nat, b: nat)
    ensures (a % TWO_TO_THE_64 + b) % TWO_TO_THE_64 == (a + b) % TWO_TO_THE_64
  {
    var q, r := a / TWO_TO_THE_64, a % TWO_TO_THE_64;
    assert a + b == q * TWO_TO_THE_64 + (r + b);
  }

  /** What one record does to an entry of the table: nothing unless it is of that CPU and event; an
      accepted count is added. */
  lemma EntryStep(c: Config, init: Ticks, h: seq<Record>, i: nat, cpu: CpuNumber, event: EventId)
    requires i < |h| && c.sampleRate == 0 && !(IsOf(h, i, cpu, event) && h[i].kind.Value?)
    ensures var key, s, t := GenKey(cpu, event), Run(c, init, h, i), Run(c, init, h, i + 1);
            var d, e := Entry(s.data, key), Entry(t.data, key);
            && (!d.isValue ==> !e.isValue)
            && (key in t.data <==> key in s.data || IsOf(h, i, cpu, event))
            && e.countOrValue ==
                 (if IsOf(h, i, cpu, event) && ClassOf(c, init, h, i) == Accepted && Adds(h[i])
                  then (d.countOrValue + Added(h[i])) % TWO_TO_THE_64 else d.countOrValue)
  {
    TableTimes(c, init, h, i, h[i].cpu, h[i].event);
    KeyInjective(h[i].cpu, h[i].event, cpu, event);
    EntryOfStep(c, Run(c, init, h, i), h[i], GenKey(cpu, event));
  }

  lemma EntryOfStep(c: Config, s: State, r: Record, key: nat)
    requires c.sampleRate == 0 && !(GenKey(r.cpu, r.event) == key && r.kind.Value?)
    ensures var own := GenKey(r.cpu, r.event) == key && !IsTimeOnly(r);
            var kind := Classify(c, r, LastTime(c, s, GenKey(r.cpu, r.event)), Clock(s.now, r));
            var d, e := Entry(s.data, key), Entry(Step(c, s, r).data, key);
            && (!d.isValue ==> !e.isValue)
            && (key in Step(c, s, r).data <==> key in s.data || own)
            && e.countOrValue ==
                 (if own && kind == Accepted && Adds(r) then (d.countOrValue + Added(r)) % TWO_TO_THE_64
                  else d.countOrValue)
  {
  }

  predicate Adds(r: Record) {
    !r.kind.Pc? && !r.kind.LastBranch?
  }

  function Added(r: Record): nat {
    if r.kind.Count? then r.kind.count else 0
  }

  lemma SumStep(c: Config, init: Ticks, h: seq<Record>, n: nat, cpu: CpuNumber, event: EventId)
    requires 0 < n <= |h| && c.sampleRate == 0 && !(IsOf(h, n - 1, cpu, event) && h[n - 1].kind.Value?)
    requires SumsAt(c, init, h, n - 1, cpu, event)
    ensures SumsAt(c, init, h, n, cpu, event)
  {
    var i := n - 1;
    EntryStep(c, init, h, i, cpu, event);
    CountSumStep(c, init, h, i, cpu, event);
    if IsOf(h, i, cpu, event) && ClassOf(c, init, h, i) == Accepted {
      ModAdd(CountSum(c, init, h, i, cpu, event), Added(h[i]));
    }
  }

  /** After `n` records the entry of the CPU and event holds a count, the sum modulo 2^64. */
  ghost predicate SumsAt(c: Config, init: Ticks, h: seq<Record>, n: nat, cpu: CpuNumber, event: EventId)
    requires n <= |h|
  {
    var d := Entry(Run(c, init, h, n).data, GenKey(cpu, event));
    !d.isValue && d.countOrValue == CountSum(c, init, h, n, cpu, event) % TWO_TO_THE_64
  }

  /** In tally mode the table holds that sum modulo 2^64; other CPUs and events do not interfere. */
  lemma {:induction false} TableSums(c: Config, init: Ticks, h: seq<Record>, n: nat, cpu: CpuNumber, event: EventId)
    requires n <= |h| && c.sampleRate == 0 && OnlyCounted(h, cpu, event)
    ensures SumsAt(c, init, h, n, cpu, event)
  {
    if n > 0 {
      TableSums(c, init, h, n - 1, cpu, event);
      assert !(IsOf(h, n - 1, cpu, event) && h[n - 1].kind.Value?);
      SumStep(c, init, h, n, cpu, event);
    }
  }

  lemma CountSumStep(c: Config, init: Ticks, h: seq<Record>, i: nat, cpu: CpuNumber, event: EventId)
    requires i < |h|
    ensures CountSum(c, init, h, i + 1, cpu, event) ==
            if IsOf(h, i, cpu, event) && ClassOf(c, init, h, i) == Accepted
            then CountSum(c, init, h, i, cpu, event) + Added(h[i]) else CountSum(c, init, h, i, cpu, event)
  {
  }

  lemma KnownStep(c: Config, s: State, r: Record, key: nat)
    ensures key in Step(c, s, r).data <==> key in s.data || (GenKey(r.cpu, r.event) == key && !IsTimeOnly(r))
  {
  }

  ghost predicate Recorded(h: seq<Record>, n: nat, cpu: CpuNumber, event: EventId) {
    exists i: nat :: i < n && IsOf(h, i, cpu, event)
  }

  lemma RecordedStep(h: seq<Record>, n: nat, cpu: CpuNumber, event: EventId)
    ensures Recorded(h, n + 1, cpu, event) <==> Recorded(h, n, cpu, event) || IsOf(h, n, cpu, event)
  {
  }

  /** The table knows exactly the CPUs and events that were recorded. */
  lemma {:induction false} TableKnows(c: Config, init: Ticks, h: seq<Record>, n: nat, cpu: CpuNumber, event: EventId)
    requires n <= |h|
    ensures GenKey(cpu, event) in Run(c, init, h, n).data <==> Recorded(h, n, cpu, event)
  {
    if n > 0 {
      TableKnows(c, init, h, n - 1, cpu, event);
      KnownStep(c, Run(c, init, h, n - 1), h[n - 1], GenKey(cpu, event));
      KeyInjective(h[n - 1].cpu, h[n - 1].event, cpu, event);
      RecordedStep(h, n - 1, cpu, event);
    }
  }

  datatype TallyEvent = TallyEvent(cpu: CpuNumber, event: EventId, time: Ticks, isValue: bool, value: nat)

  function TallyOf(c: Config, data: map<nat, Data>, cpu: CpuNumber, event: EventId): seq<TallyEvent> {
    if GenKey(cpu, event) !in data then []
    else
      var d := data[GenKey(cpu, event)];
      if d.isValue then [TallyEvent(cpu, event, c.stopTime, true, d.countOrValue)]
      else [TallyEvent(cpu, event, c.startTime, false, 0), TallyEvent(cpu, event, c.stopTime, false, d.countOrValue)]
  }

  function CpuTallies(c: Config, data: map<nat, Data>, cpu: CpuNumber, events: seq<EventId>): seq<TallyEvent> {
    if events == [] then []
    else CpuTallies(c, data, cpu, events[..|events| - 1]) + TallyOf(c, data, cpu, events[|events| - 1])
  }

  function AllTallies(c: Config, data: map<nat, Data>, numCpus: nat, events: seq<EventId>): seq<TallyEvent>
    requires numCpus <= MAX_NUM_CPUS
  {
    if numCpus == 0 then []
    else AllTallies(c, data, numCpus - 1, events) + CpuTallies(c, data, numCpus - 1, events)
  }

  function EmittedFor(out: seq<TallyEvent>, cpu: CpuNumber, event: EventId): seq<TallyEvent> {
    if out == [] then []
    else
      (if out[0].cpu == cpu && out[0].event == event then [out[0]] else []) + EmittedFor(out[1..], cpu, event)
  }

  lemma {:induction false} EmittedForAppend(a: seq<TallyEvent>, b: seq<TallyEvent>, cpu: CpuNumber, event: EventId)
    ensures EmittedFor(a + b, cpu, event) == EmittedFor(a, cpu, event) + EmittedFor(b, cpu, event)
  {
    if a == [] {
      assert a + b == b;
    } else {
      assert (a + b)[1..] == a[1..] + b;
      EmittedForAppend(a[1..], b, cpu, event);
    }
  }

  lemma EmittedForTally(c: Config, data: map<nat, Data>, cpu: CpuNumber, event: EventId, k: CpuNumber, e: EventId)
    ensures EmittedFor(TallyOf(c, data, k, e), cpu, event) ==
            if k == cpu && e == event then TallyOf(c, data, k, e) else []
  {
    var t := TallyOf(c, data, k, e);
    if |t| == 2 {
      assert t[1..][1..] == [] && [t[0]] + [t[1]] == t;
      assert EmittedFor(t[1..], cpu, event) == if k == cpu && e == event then [t[1]] else [];
    }
  }

  predicate OnceIn(events: seq<EventId>, event: EventId) {
    multiset(events)[event] == 1
  }

  lemma {:induction false} CpuTalliesFor(c: Config, data: map<nat, Data>, k: CpuNumber, events: seq<EventId>,
                                         cpu: CpuNumber, event: EventId)
    requires multiset(events)[event] <= 1
    ensures EmittedFor(CpuTallies(c, data, k, events), cpu, event) ==
            if k == cpu && event in events then TallyOf(c, data, cpu, event) else []
  {
    if events != [] {
      var n := |events| - 1;
      var front, last := events[..n], events[n];
      SplitEvents(events, event);
      CpuTalliesFor(c, data, k, front, cpu, event);
      EmittedForTally(c, data, cpu, event, k, last);
      var a, b := CpuTallies(c, data, k, front), TallyOf(c, data, k, last);
      assert CpuTallies(c, data, k, events) == a + b;
      EmittedForEither(a, b, cpu, event);
    }
  }

  lemma SplitEvents(events: seq<EventId>, event: EventId)
    requires events != [] && multiset(events)[event] <= 1
    ensures var front, last := events[..|events| - 1], events[|events| - 1];
            && multiset(front)[event] <= 1
            && (event in events <==> event in front || event == last)
            && !(event in front && event == last)
  {
    assert events == events[..|events| - 1] + [events[|events| - 1]];
  }

  /** What two parts emit for an event, if only one of them emits any. */
  lemma EmittedForEither(a: seq<TallyEvent>, b: seq<TallyEvent>, cpu: CpuNumber, event: EventId)
    ensures EmittedFor(a, cpu, event) == [] ==> EmittedFor(a + b, cpu, event) == EmittedFor(b, cpu, event)
    ensures EmittedFor(b, cpu, event) == [] ==> EmittedFor(a + b, cpu, event) == EmittedFor(a, cpu, event)
  {
    EmittedForAppend(a, b, cpu, event);
    var x, y := EmittedFor(a, cpu, event), EmittedFor(b, cpu, event);
    assert [] + y == y && x + [] == x;
  }

  lemma NextCpu(c: Config, data: map<nat, Data>, k: CpuNumber, events: seq<EventId>, cpu: CpuNumber, event: EventId)
    ensures var x, y := EmittedFor(AllTallies(c, data, k, events), cpu, event), EmittedFor(CpuTallies(c, data, k, events), cpu, event);
            && (x == [] ==> EmittedFor(AllTallies(c, data, k + 1, events), cpu, event) == y)
            && (y == [] ==> EmittedFor(AllTallies(c, data, k + 1, events), cpu, event) == x)
  {
    EmittedForEither(AllTallies(c, data, k, events), CpuTallies(c, data, k, events), cpu, event);
  }

  lemma {:induction false} AllTalliesFor(c: Config, data: map<nat, Data>, numCpus: nat, events: seq<EventId>,
                                         cpu: CpuNumber, event: EventId)
    requires numCpus <= MAX_NUM_CPUS && multiset(events)[event] <= 1 && event in events
    ensures EmittedFor(AllTallies(c, data, numCpus, events), cpu, event) ==
            if cpu < numCpus then TallyOf(c, data, cpu, event) else []
  {
    if numCpus > 0 {
      var k := numCpus - 1;
      AllTalliesFor(c, data, k, events, cpu, event);
      CpuTalliesFor(c, data, k, events, cpu, event);
      NextCpu(c, data, k, events, cpu, event);
    }
  }

  /** In tally mode, what is written for an event fed by no value records: zero at the start time and,
      at the stop time, the sum modulo 2^64 of the accepted counts of exactly that CPU and event;
      nothing at all if it was never recorded. */
  lemma TallyIsSum(c: Config, init: Ticks, h: seq<Record>, numCpus: nat, events: seq<EventId>,
                   cpu: CpuNumber, event: EventId)
    requires c.sampleRate == 0 && OnlyCounted(h, cpu, event)
    requires cpu < numCpus <= MAX_NUM_CPUS && OnceIn(events, event)
    ensures EmittedFor(AllTallies(c, Run(c, init, h, |h|).data, numCpus, events), cpu, event) ==
            if Recorded(h, |h|, cpu, event) then
              [TallyEvent(cpu, event, c.startTime, false, 0),
               TallyEvent(cpu, event, c.stopTime, false, CountSum(c, init, h, |h|, cpu, event) % 0x1_0000_0000_0000_0000)]
            else []
  {
    TableSums(c, init, h, |h|, cpu, event);
    TableKnows(c, init, h, |h|, cpu, event);
    AllTalliesFor(c, Run(c, init, h, |h|).data, numCpus, events, cpu, event);
  }

  lemma ValueOfStep(c: Config, s: State, r: Record)
    requires c.sampleRate == 0 && r.kind.Value?
    requires Classify(c, r, LastTime(c, s, GenKey(r.cpu, r.event)), Clock(s.now, r)) == Accepted
    ensures var key, t := GenKey(r.cpu, r.event), Step(c, s, r);
            key in t.data && t.data[key].isValue && t.data[key].countOrValue == r.kind.value
  {
  }

  lemma KeptByStep(c: Config, s: State, r: Record, key: nat)
    requires c.sampleRate == 0 && key in s.data
    requires GenKey(r.cpu, r.event) == key && Classify(c, r, LastTime(c, s, key), Clock(s.now, r)) == Accepted ==> !Adds(r)
    ensures var t := Step(c, s, r);
            && key in t.data && t.data[key].isValue == s.data[key].isValue
            && t.data[key].countOrValue == s.data[key].countOrValue
  {
  }

  /** Record `j` is the last of the CPU and event that is accepted and tallied. */
  ghost predicate LastTallied(c: Config, init: Ticks, h: seq<Record>, j: nat, n: nat, cpu: CpuNumber, event: EventId)
    requires n <= |h|
  {
    && j < n && IsOf(h, j, cpu, event) && ClassOf(c, init, h, j) == Accepted
    && forall i :: j < i < n && IsOf(h, i, cpu, event) && ClassOf(c, init, h, i) == Accepted ==>
         h[i].kind == Pc || h[i].kind == LastBranch
  }

  lemma {:induction false} TableHoldsValue(c: Config, init: Ticks, h: seq<Record>, j: nat, n: nat,
                                           cpu: CpuNumber, event: EventId)
    requires n <= |h| && c.sampleRate == 0 && LastTallied(c, init, h, j, n, cpu, event) && h[j].kind.Value?
    ensures var key, data := GenKey(cpu, event), Run(c, init, h, n).data;
            key in data && data[key].isValue && data[key].countOrValue == h[j].kind.value
    decreases n
  {
    var i := n - 1;
    TableTimes(c, init, h, i, h[i].cpu, h[i].event);
    if j == i {
      ValueOfStep(c, Run(c, init, h, i), h[i]);
    } else {
      TableHoldsValue(c, init, h, j, i, cpu, event);
      KeyInjective(h[i].cpu, h[i].event, cpu, event);
      KeptByStep(c, Run(c, init, h, i), h[i], GenKey(cpu, event));
    }
  }

  /** In tally mode, what is written for an event whose last accepted and tallied record is a value: that value,
      once, at the stop time. */
  lemma TallyIsLastValue(c: Config, init: Ticks, h: seq<Record>, numCpus: nat, events: seq<EventId>,
                         cpu: CpuNumber, event: EventId, j: nat)
    requires c.sampleRate == 0 && LastTallied(c, init, h, j, |h|, cpu, event) && h[j].kind.Value?
    requires cpu < numCpus <= MAX_NUM_CPUS && OnceIn(events, event)
    ensures EmittedFor(AllTallies(c, Run(c, init, h, |h|).data, numCpus, events), cpu, event) ==
            [TallyEvent(cpu, event, c.stopTime, true, h[j].kind.value)]
  {
    TableHoldsValue(c, init, h, j, |h|, cpu, event);
    AllTalliesFor(c, Run(c, init, h, |h|).data, numCpus, events, cpu, event);
  }

  // ------------------------------------------------------------------ the loops

  /** The tallies of one CPU. */
  method EmitCpuTallies(c: Config, tracker: EventTracker, cpu: CpuNumber, events: seq<EventId>)
    returns (out: seq<TallyEvent>)
    ensures out == CpuTallies(c, tracker.data, cpu, events)
  {
    out := [];
    for i := 0 to |events|
      invariant out == CpuTallies(c, tracker.data, cpu, events[..i])
    {
      assert events[..i + 1][..i] == events[..i];
      var id := events[i];
      if tracker.HaveValue(cpu, id) {
        var value := tracker.GetCountOrValue(cpu, id);
        if tracker.data[GenKey(cpu, id)].isValue {
          out := out + [TallyEvent(cpu, id, c.stopTime, true, value)];
        } else {
          out := out + [TallyEvent(cpu, id, c.startTime, false, 0), TallyEvent(cpu, id, c.stopTime, false, value)];
        }
      }
    }
    assert events[..|events|] == events;
  }

  method EmitTallyCounts(c: Config, tracker: EventTracker, numCpus: nat, events: seq<EventId>)
    returns (out: seq<TallyEvent>)
    requires numCpus <= MAX_NUM_CPUS
    ensures out == AllTallies(c, tracker.data, numCpus, events)
  {
    out := [];
    for cpu := 0 to numCpus
      invariant out == AllTallies(c, tracker.data, cpu, events)
    {
      var more := EmitCpuTallies(c, tracker, cpu, events);
      out := out + more;
    }
  }

  function Occurrences(classes: seq<Class>, k: Class): nat {
    if classes == [] then 0
    else Occurrences(classes[..|classes| - 1], k) + if classes[|classes| - 1] == k then 1 else 0
  }

  /** The numbers of warnings. */
  ghost predicate Counted(classes: seq<Class>, backward: nat, empty: nat, late: nat) {
    && backward == Occurrences(classes, Backward) && empty == Occurrences(classes, Empty)
    && late == Occurrences(classes, Late)
  }

  lemma CountedNext(classes: seq<Class>, x: Class, backward: nat, empty: nat, late: nat)
    requires Counted(classes, backward, empty, late)
    ensures Counted(classes + [x], if x == Backward then backward + 1 else backward,
                    if x == Empty then empty + 1 else empty, if x == Late then late + 1 else late)
  {
    assert (classes + [x])[..|classes|] == classes;
  }

  /** What an accepted record adds in tally mode. */
  method TallyRecord(c: Config, tracker: EventTracker, r: Record)
    modifies tracker
    ensures tracker.data == Tally(c, old(tracker.data), GenKey(r.cpu, r.event), r.kind)
  {
    match r.kind
    case Time(_) => tracker.AccumulateCount(r.cpu, r.event, c.sampleRate);
    case Tick => tracker.AccumulateCount(r.cpu, r.event, c.sampleRate);
    case Count(n) => tracker.AccumulateCount(r.cpu, r.event, n);
    case Value(v) => tracker.UpdateValue(r.cpu, r.event, v);
    case Pc =>
    case LastBranch =>
  }

  lemma StepHistory(c: Config, s: State, r: Record)
    ensures var now := Clock(s.now, r);
            var previous := LastTime(c, s, GenKey(r.cpu, r.event));
            var kind := Classify(c, r, previous, now);
            var t := Step(c, s, r);
            && t.now == now && t.classes == s.classes + [kind]
            && t.accepted == if kind == Accepted then s.accepted + [Interval(r.cpu, r.event, previous, now)] else s.accepted
  {
  }

  /** One turn of the record loop. `s` is the history so far. */
  method HandleRecord(c: Config, tracker: EventTracker, r: Record, clock: Ticks, ghost s: State)
    returns (kind: Class, now: Ticks, previous: Ticks)
    requires tracker.startTime == c.startTime && s.now == clock && s.data == tracker.data
    modifies tracker
    ensures now == Clock(clock, r) && previous == LastTime(c, s, GenKey(r.cpu, r.event))
    ensures kind == Classify(c, r, previous, now) && tracker.data == Step(c, s, r).data
  {
    now := clock;
    if r.kind.Time? {
      now := r.kind.time;
    }
    previous := tracker.GetTime(r.cpu, r.event);
    if IsTimeOnly(r) {
      return TimeOnly, now, previous;
    }
    if now < previous {
      kind := Backward;
    } else if now == previous {
      kind := Empty;
    } else if now > c.stopTime {
      kind := Late;
    } else {
      kind := Accepted;
      if c.sampleRate == 0 {
        TallyRecord(c, tracker, r);
      }
    }
    tracker.UpdateTime(r.cpu, r.event, now);
  }

  /** The record loop: counts every record, warns about exactly the backward, empty and late ones,
      and leaves the tracker and the intervals as the history says. */
  method ImportRecords(c: Config, init: Ticks, h: seq<Record>)
    returns (tracker: EventTracker, recordCount: nat, backward: nat, empty: nat, late: nat, intervals: seq<Interval>)
    ensures fresh(tracker) && tracker.data == Run(c, init, h, |h|).data
    ensures recordCount == |h|
    ensures Counted(Run(c, init, h, |h|).classes, backward, empty, late)
    ensures intervals == Run(c, init, h, |h|).accepted
  {
    tracker := new EventTracker(c.startTime);
    recordCount, backward, empty, late, intervals := 0, 0, 0, 0, [];
    var now := init;
    ghost var s := Run(c, init, h, 0);
    for i := 0 to |h|
      invariant fresh(tracker) && tracker.startTime == c.startTime
      invariant recordCount == i && s == Run(c, init, h, i)
      invariant now == s.now && tracker.data == s.data && intervals == s.accepted
      invariant Counted(s.classes, backward, empty, late)
    {
      var r := h[i];
      var kind, clock, previous := HandleRecord(c, tracker, r, now, s);
      StepHistory(c, s, r);
      CountedNext(s.classes, kind, backward, empty, late);
      match kind {
        case Backward => backward := backward + 1;
        case Empty => empty := empty + 1;
        case Late => late := late + 1;
        case Accepted => intervals := intervals + [Interval(r.cpu, r.event, previous, clock)];
        case TimeOnly =>
      }
      now, s := clock, Step(c, s, r);
      recordCount := recordCount + 1;
    }
  }
}
