/** The ktrace importer's channel flows: message counters per channel pair give the flow ids of
    writes and reads. */
module KtraceChannels {
  import opened Common

  type Koid = nat

  datatype Record =
    | ChannelCreate(end0: Koid, end1: Koid)
    | ChannelWrite(channel: Koid)
    | ChannelRead(channel: Koid)
    | ObjectDelete(koid: Koid)
    | Other

  datatype Counters = Counters(readCount: nat, writeCount: nat)

  /** A flow event written to the trace: writes begin a flow, reads end it. */
  datatype Flow = FlowBegin(id: nat) | FlowEnd(id: nat)

  // ------------------------------------------------------------------ the importer's state

  datatype State = State(nextId: nat, ids: map<Koid, nat>, counters: map<nat, Counters>, emitted: seq<Flow>)

  function CountersOf(s: State, id: nat): Counters {
    if id in s.counters then s.counters[id] else Counters(0, 0)
  }

  function Step(s: State, r: Record): State {
    match r
    case ChannelCreate(a, b) =>
      if a in s.ids || b in s.ids then s
      else s.(ids := s.ids[b := s.nextId][a := s.nextId], nextId := s.nextId + 1)
    case ChannelWrite(c) =>
      if c !in s.ids then s
      else
        var k := CountersOf(s, s.ids[c]);
        s.(counters := s.counters[s.ids[c] := k.(writeCount := k.writeCount + 1)],
           emitted := s.emitted + [FlowBegin(k.writeCount)])
    case ChannelRead(c) =>
      if c !in s.ids then s
      else
        var k := CountersOf(s, s.ids[c]);
        s.(counters := s.counters[s.ids[c] := k.(readCount := k.readCount + 1)],
           emitted := s.emitted + [FlowEnd(k.readCount)])
    case ObjectDelete(o) =>
      if o !in s.ids then s else s.(counters := s.counters - {s.ids[o]})
    case Other => s
  }

  function Run(h: seq<Record>, n: nat): State
    requires n <= |h|
  {
    if n == 0 then State(0, map[], map[], []) else Step(Run(h, n - 1), h[n - 1])
  }

  // ------------------------------------------------------------------ what the history says

  /** The record that created the pair `c` belongs to; a create that names an end already known
      creates nothing. */
  function PairOf(h: seq<Record>, n: nat, c: Koid): Option<nat>
    requires n <= |h|
  {
    if n == 0 then None
    else
      var r := h[n - 1];
      if r.ChannelCreate? && (c == r.end0 || c == r.end1)
         && PairOf(h, n - 1, r.end0).None? && PairOf(h, n - 1, r.end1).None?
      then Some(n - 1)
      else PairOf(h, n - 1, c)
  }

  ghost predicate Writes(h: seq<Record>, k: nat, p: nat) {
    k < |h| && h[k].ChannelWrite? && PairOf(h, k, h[k].channel) == Some(p)
  }

  ghost predicate Reads(h: seq<Record>, k: nat, p: nat) {
    k < |h| && h[k].ChannelRead? && PairOf(h, k, h[k].channel) == Some(p)
  }

  ghost predicate Deletes(h: seq<Record>, k: nat, p: nat) {
    k < |h| && h[k].ObjectDelete? && PairOf(h, k, h[k].koid) == Some(p)
  }

  /** Neither end of pair `p` is deleted by a record from `k` on, before `n`. */
  ghost predicate Undeleted(h: seq<Record>, k: nat, n: nat, p: nat) {
    forall m: nat :: k <= m < n ==> !Deletes(h, m, p)
  }

  /** The writes to either end of pair `p` before `n`, since either end was last deleted. */
  ghost function WritesSince(h: seq<Record>, n: nat, p: nat): set<nat> {
    set k: nat | k < n && Writes(h, k, p) && Undeleted(h, k, n, p)
  }

  ghost function ReadsSince(h: seq<Record>, n: nat, p: nat): set<nat> {
    set k: nat | k < n && Reads(h, k, p) && Undeleted(h, k, n, p)
  }

  ghost function FlowsOf(h: seq<Record>, i: nat): seq<Flow>
    requires i < |h|
  {
    match h[i]
    case ChannelWrite(c) =>
      var p := PairOf(h, i, c);
      if p.None? then [] else [FlowBegin(|WritesSince(h, i, p.value)|)]
    case ChannelRead(c) =>
      var p := PairOf(h, i, c);
      if p.None? then [] else [FlowEnd(|ReadsSince(h, i, p.value)|)]
    case _ => []
  }

  ghost function Expected(h: seq<Record>, n: nat): seq<Flow>
    requires n <= |h|
  {
    if n == 0 then [] else Expected(h, n - 1) + FlowsOf(h, n - 1)
  }

  // ------------------------------------------------------------------ pairs and their ids

  predicate Creates(h: seq<Record>, p: nat)
  {
    p < |h| && h[p].ChannelCreate? && PairOf(h, p, h[p].end0).None? && PairOf(h, p, h[p].end1).None?
  }

  lemma {:induction false} PairIsACreate(h: seq<Record>, n: nat, c: Koid)
    requires n <= |h| && PairOf(h, n, c).Some?
    ensures var p := PairOf(h, n, c).value; p < n && Creates(h, p) && (c == h[p].end0 || c == h[p].end1)
  {
    if PairOf(h, n - 1, c).Some? {
      PairIsACreate(h, n - 1, c);
    }
  }

  /** The id table knows exactly the channels created, each under its pair's id. */
  lemma {:induction false} IdTable(h: seq<Record>, n: nat, c: Koid)
    requires n <= |h|
    ensures c in Run(h, n).ids <==> PairOf(h, n, c).Some?
    ensures PairOf(h, n, c).Some? ==>
              var p := PairOf(h, n, c).value; p < n && Run(h, n).ids[c] == Run(h, p).nextId
  {
    if n > 0 {
      IdTable(h, n - 1, c);
      var r := h[n - 1];
      if r.ChannelCreate? {
        IdTable(h, n - 1, r.end0);
        IdTable(h, n - 1, r.end1);
      }
    }
  }

  lemma {:induction false} IdsGrow(h: seq<Record>, m: nat, n: nat)
    requires m <= n <= |h|
    ensures Run(h, m).nextId <= Run(h, n).nextId
    ensures m < n && Creates(h, m) ==> Run(h, m).nextId < Run(h, n).nextId
    decreases n - m
  {
    if m < n {
      IdsGrow(h, m + 1, n);
      if h[m].ChannelCreate? {
        IdTable(h, m, h[m].end0);
        IdTable(h, m, h[m].end1);
      }
    }
  }

  lemma DistinctIds(h: seq<Record>, p: nat, q: nat)
    requires Creates(h, p) && Creates(h, q) && p != q
    ensures Run(h, p).nextId != Run(h, q).nextId
  {
    if p < q {
      IdsGrow(h, p, q);
    } else {
      IdsGrow(h, q, p);
    }
  }

  /** Two channels share a pair id exactly if one record created both. */
  lemma SameIdIffCreatedTogether(h: seq<Record>, n: nat, a: Koid, b: Koid)
    requires n <= |h| && a in Run(h, n).ids && b in Run(h, n).ids
    ensures Run(h, n).ids[a] == Run(h, n).ids[b] <==>
            exists p: nat :: Creates(h, p) && p < n && {a, b} <= {h[p].end0, h[p].end1}
  {
    IdTable(h, n, a);
    IdTable(h, n, b);
    PairIsACreate(h, n, a);
    PairIsACreate(h, n, b);
    var p, q := PairOf(h, n, a).value, PairOf(h, n, b).value;
    if p != q {
      DistinctIds(h, p, q);
      forall m: nat | Creates(h, m) && m < n && {a, b} <= {h[m].end0, h[m].end1} ensures false {
        assert a in {a, b} && b in {a, b};
        CreatedOnce(h, n, m, a);
        CreatedOnce(h, n, m, b);
      }
    } else {
      assert {a, b} <= {h[p].end0, h[p].end1};
    }
  }

  /** A channel belongs to the pair of the one record that created it. */
  lemma {:induction false} CreatedOnce(h: seq<Record>, n: nat, m: nat, c: Koid)
    requires m < n <= |h| && Creates(h, m) && (c == h[m].end0 || c == h[m].end1)
    ensures PairOf(h, n, c) == Some(m)
  {
    if n > m + 1 {
      CreatedOnce(h, n - 1, m, c);
    }
  }

  // ------------------------------------------------------------------ counters

  lemma {:induction false} CountersOnlyForPairs(h: seq<Record>, n: nat)
    requires n <= |h|
    ensures forall id :: id in Run(h, n).counters ==> id < Run(h, n).nextId
    ensures forall c :: c in Run(h, n).ids ==> Run(h, n).ids[c] < Run(h, n).nextId
  {
    if n > 0 {
      CountersOnlyForPairs(h, n - 1);
    }
  }

  lemma SinceStep(h: seq<Record>, n: nat, p: nat)
    requires n < |h|
    ensures WritesSince(h, n + 1, p) ==
            if Deletes(h, n, p) then {} else WritesSince(h, n, p) + if Writes(h, n, p) then {n} else {}
    ensures ReadsSince(h, n + 1, p) ==
            if Deletes(h, n, p) then {} else ReadsSince(h, n, p) + if Reads(h, n, p) then {n} else {}
  {
  }

  lemma SinceCount(h: seq<Record>, n: nat, p: nat)
    requires n < |h|
    ensures |WritesSince(h, n + 1, p)| ==
            if Deletes(h, n, p) then 0 else |WritesSince(h, n, p)| + if Writes(h, n, p) then 1 else 0
    ensures |ReadsSince(h, n + 1, p)| ==
            if Deletes(h, n, p) then 0 else |ReadsSince(h, n, p)| + if Reads(h, n, p) then 1 else 0
  {
    SinceStep(h, n, p);
    assert n !in WritesSince(h, n, p) && n !in ReadsSince(h, n, p);
  }

  /** What a record does to the counters of a pair. */
  lemma CountersStep(h: seq<Record>, i: nat, p: nat)
    requires p < i < |h| && Creates(h, p)
    ensures var k := CountersOf(Run(h, i), Run(h, p).nextId);
            CountersOf(Run(h, i + 1), Run(h, p).nextId) ==
              if Deletes(h, i, p) then Counters(0, 0)
              else Counters(k.readCount + (if Reads(h, i, p) then 1 else 0),
                            k.writeCount + (if Writes(h, i, p) then 1 else 0))
  {
    var r := h[i];
    if r.ChannelWrite? || r.ChannelRead? || r.ObjectDelete? {
      var c := if r.ObjectDelete? then r.koid else r.channel;
      IdTable(h, i, c);
      if PairOf(h, i, c).Some? && PairOf(h, i, c) != Some(p) {
        PairIsACreate(h, i, c);
        DistinctIds(h, PairOf(h, i, c).value, p);
      }
    }
  }

  /** A pair starts with no counters. */
  lemma CountersStart(h: seq<Record>, p: nat)
    requires Creates(h, p)
    ensures CountersOf(Run(h, p + 1), Run(h, p).nextId) == Counters(0, 0)
  {
    CountersOnlyForPairs(h, p);
    IdTable(h, p, h[p].end0);
    IdTable(h, p, h[p].end1);
  }

  /** The counters of a pair count its writes and reads since either end was last deleted. */
  lemma {:induction false} CountersCount(h: seq<Record>, n: nat, p: nat)
    requires p < n <= |h| && Creates(h, p)
    ensures CountersOf(Run(h, n), Run(h, p).nextId) ==
            Counters(|ReadsSince(h, n, p)|, |WritesSince(h, n, p)|)
  {
    var i := n - 1;
    SinceCount(h, i, p);
    if i == p {
      CountersStart(h, p);
      NothingBefore(h, p);
    } else {
      CountersCount(h, i, p);
      CountersStep(h, i, p);
    }
  }

  lemma NothingBefore(h: seq<Record>, p: nat)
    requires p < |h|
    ensures WritesSince(h, p, p) == {} && ReadsSince(h, p, p) == {}
  {
    forall k: nat | k < p ensures !Writes(h, k, p) && !Reads(h, k, p) {
      if h[k].ChannelWrite? || h[k].ChannelRead? {
        if PairOf(h, k, h[k].channel).Some? {
          PairIsACreate(h, k, h[k].channel);
        }
      }
    }
  }

  lemma RecordEmits(h: seq<Record>, i: nat)
    requires i < |h|
    ensures Run(h, i + 1).emitted == Run(h, i).emitted + FlowsOf(h, i)
  {
    var r := h[i];
    if r.ChannelWrite? || r.ChannelRead? {
      IdTable(h, i, r.channel);
      if PairOf(h, i, r.channel).Some? {
        PairIsACreate(h, i, r.channel);
        CountersCount(h, i, PairOf(h, i, r.channel).value);
      }
    }
  }

  /** For every history: a write's flow id is the number of earlier writes to either end of its pair
      since either end was last deleted, and likewise for reads; records of channels whose
      creation was not seen emit nothing. */
  lemma {:induction false} EmitsExpected(h: seq<Record>, n: nat)
    requires n <= |h|
    ensures Run(h, n).emitted == Expected(h, n)
  {
    if n > 0 {
      EmitsExpected(h, n - 1);
      RecordEmits(h, n - 1);
    }
  }

  // ------------------------------------------------------------------ which records share an id

  lemma {:induction false} EmittedGrows(h: seq<Record>, m: nat, n: nat)
    requires m <= n <= |h|
    ensures Run(h, m).emitted <= Run(h, n).emitted
    decreases n - m
  {
    if m < n {
      RecordEmits(h, m);
      EmittedGrows(h, m + 1, n);
    }
  }

  /** Record `i` puts flow event `f` into the trace of the whole history. */
  ghost predicate Emits(h: seq<Record>, i: nat, f: Flow) {
    && i < |h|
    && var all, k := Run(h, |h|).emitted, |Run(h, i).emitted|;
       k < |all| && all[k] == f
  }

  lemma RecordFlow(h: seq<Record>, i: nat, p: nat)
    ensures Writes(h, i, p) ==> Emits(h, i, FlowBegin(|WritesSince(h, i, p)|))
    ensures Reads(h, i, p) ==> Emits(h, i, FlowEnd(|ReadsSince(h, i, p)|))
  {
    if Writes(h, i, p) || Reads(h, i, p) {
      RecordEmits(h, i);
      EmittedGrows(h, i + 1, |h|);
      assert FlowsOf(h, i) == [FlowsOf(h, i)[0]];
    }
  }

  /** Two writes, of the same pair or not, have the same flow id if and only if equally many writes to
      their pairs went before them since the last deletion. */
  lemma WritesShareId(h: seq<Record>, i: nat, p: nat, j: nat, q: nat, a: Flow, b: Flow)
    requires Writes(h, i, p) && Writes(h, j, q) && Emits(h, i, a) && Emits(h, j, b)
    ensures a.FlowBegin? && b.FlowBegin?
    ensures a.id == b.id <==> |WritesSince(h, i, p)| == |WritesSince(h, j, q)|
  {
    RecordFlow(h, i, p);
    RecordFlow(h, j, q);
  }

  /** A read ends a flow with the id of a write if and only if it is the k-th read as the write is the
      k-th write since the last deletion, for some k. */
  lemma ReadSharesId(h: seq<Record>, i: nat, p: nat, j: nat, q: nat, a: Flow, b: Flow)
    requires Writes(h, i, p) && Reads(h, j, q) && Emits(h, i, a) && Emits(h, j, b)
    ensures a.FlowBegin? && b.FlowEnd?
    ensures a.id == b.id <==> |WritesSince(h, i, p)| == |ReadsSince(h, j, q)|
  {
    RecordFlow(h, i, p);
    RecordFlow(h, j, q);
  }

  lemma Fewer(a: set<nat>, b: set<nat>, x: nat)
    requires a <= b && x in b && x !in a
    ensures |a| < |b|
  {
    assert b == a + (b - a) && x in b - a;
  }

  /** Between deletions the ids of a pair's writes increase, so that no two of them are equal. */
  lemma IdsIncrease(h: seq<Record>, i: nat, j: nat, p: nat, a: Flow, b: Flow)
    requires Writes(h, i, p) && Writes(h, j, p) && i < j && Undeleted(h, i, j, p)
    requires Emits(h, i, a) && Emits(h, j, b)
    ensures a.id < b.id
  {
    RecordFlow(h, i, p);
    RecordFlow(h, j, p);
    var x, y := WritesSince(h, i, p), WritesSince(h, j, p);
    forall k | k in x ensures k in y {
      assert Undeleted(h, k, j, p);
    }
    Fewer(x, y, i);
  }

  // ------------------------------------------------------------------ messages

  /** The writes and reads over the whole life of a pair. */
  ghost function WritesBefore(h: seq<Record>, n: nat, p: nat): set<nat> {
    set k: nat | k < n && Writes(h, k, p)
  }

  ghost function ReadsBefore(h: seq<Record>, n: nat, p: nat): set<nat> {
    set k: nat | k < n && Reads(h, k, p)
  }

  /** The record after the last deletion of either end before record `n`; zero if there is none. */
  ghost function LastReset(h: seq<Record>, n: nat, p: nat): nat {
    if n == 0 then 0 else if Deletes(h, n - 1, p) then n else LastReset(h, n - 1, p)
  }

  lemma {:induction false} UndeletedSince(h: seq<Record>, n: nat, p: nat, k: nat)
    requires k <= n
    ensures LastReset(h, n, p) <= n && (Undeleted(h, k, n, p) <==> LastReset(h, n, p) <= k)
    decreases n
  {
    if k < n {
      UndeletedSince(h, n - 1, p, k);
      assert Undeleted(h, k, n, p) <==> Undeleted(h, k, n - 1, p) && !Deletes(h, n - 1, p);
    } else if n > 0 {
      UndeletedSince(h, n - 1, p, n - 1);
    }
  }

  lemma Remaining(a: set<nat>, b: set<nat>)
    requires b <= a
    ensures |a - b| == |a| - |b|
  {
    assert a == b + (a - b);
  }

  /** What was counted since the last deletion is what was counted in all less what went before it. */
  lemma SinceIsRest(h: seq<Record>, n: nat, p: nat)
    ensures |WritesSince(h, n, p)| == |WritesBefore(h, n, p)| - |WritesBefore(h, LastReset(h, n, p), p)|
    ensures |ReadsSince(h, n, p)| == |ReadsBefore(h, n, p)| - |ReadsBefore(h, LastReset(h, n, p), p)|
  {
    var r := LastReset(h, n, p);
    UndeletedSince(h, n, p, n);
    forall k: nat | k < n ensures Undeleted(h, k, n, p) <==> r <= k {
      UndeletedSince(h, n, p, k);
    }
    assert WritesSince(h, n, p) == WritesBefore(h, n, p) - WritesBefore(h, r, p);
    assert ReadsSince(h, n, p) == ReadsBefore(h, n, p) - ReadsBefore(h, r, p);
    Remaining(WritesBefore(h, n, p), WritesBefore(h, r, p));
    Remaining(ReadsBefore(h, n, p), ReadsBefore(h, r, p));
  }

  /** The m-th read over the life of a pair takes the message of the m-th write. Exactly when it carries
      that write's id: the writes before the last deletion ahead of the write are as many as the
      reads before the last deletion ahead of the read. */
  lemma MessageKeepsId(h: seq<Record>, i: nat, j: nat, p: nat, a: Flow, b: Flow)
    requires Writes(h, i, p) && Reads(h, j, p) && Emits(h, i, a) && Emits(h, j, b)
    requires |WritesBefore(h, i, p)| == |ReadsBefore(h, j, p)|
    ensures a.id == b.id <==>
            |WritesBefore(h, LastReset(h, i, p), p)| == |ReadsBefore(h, LastReset(h, j, p), p)|
  {
    ReadSharesId(h, i, p, j, p, a, b);
    SinceIsRest(h, i, p);
    SinceIsRest(h, j, p);
  }

  /** While neither end of its pair is deleted every message keeps its id. */
  lemma UndeletedKeepsIds(h: seq<Record>, i: nat, j: nat, p: nat, a: Flow, b: Flow)
    requires Writes(h, i, p) && Reads(h, j, p) && Emits(h, i, a) && Emits(h, j, b)
    requires |WritesBefore(h, i, p)| == |ReadsBefore(h, j, p)| && Undeleted(h, 0, |h|, p)
    ensures a.id == b.id
  {
    UndeletedSince(h, i, p, 0);
    UndeletedSince(h, j, p, 0);
    assert Undeleted(h, 0, i, p) && Undeleted(h, 0, j, p);
    MessageKeepsId(h, i, j, p, a, b);
  }

  /** A deletion between the reads of two messages: the second message is written with id 1 and read
      with id 0. */
  lemma DeletionMixesMessages() returns (h: seq<Record>)
    ensures h == [ChannelCreate(1, 2), ChannelWrite(1), ChannelWrite(1), ChannelRead(2), ObjectDelete(1), ChannelRead(2)]
    ensures Writes(h, 2, 0) && Reads(h, 5, 0) && WritesBefore(h, 2, 0) == {1} && ReadsBefore(h, 5, 0) == {3}
    ensures Emits(h, 2, FlowBegin(1)) && Emits(h, 5, FlowEnd(0))
  {
    h := [ChannelCreate(1, 2), ChannelWrite(1), ChannelWrite(1), ChannelRead(2), ObjectDelete(1), ChannelRead(2)];
    forall c, n: nat | (c == 1 || c == 2) && 1 <= n <= 6 ensures PairOf(h, n, c) == Some(0) {
      CreatedOnce(h, n, 0, c);
    }
    RunOfDeletion(h);
  }

  lemma RunOfDeletion(h: seq<Record>)
    requires h == [ChannelCreate(1, 2), ChannelWrite(1), ChannelWrite(1), ChannelRead(2), ObjectDelete(1), ChannelRead(2)]
    ensures |Run(h, 2).emitted| == 1 && |Run(h, 5).emitted| == 3
    ensures Run(h, 6).emitted == [FlowBegin(0), FlowBegin(1), FlowEnd(0), FlowEnd(0)]
  {
    assert Run(h, 1) == State(1, map[1 := 0, 2 := 0], map[], []);
    assert Run(h, 2) == State(1, map[1 := 0, 2 := 0], map[0 := Counters(0, 1)], [FlowBegin(0)]);
    assert Run(h, 3) == State(1, map[1 := 0, 2 := 0], map[0 := Counters(0, 2)], [FlowBegin(0), FlowBegin(1)]);
    assert Run(h, 4) == State(1, map[1 := 0, 2 := 0], map[0 := Counters(1, 2)], [FlowBegin(0), FlowBegin(1), FlowEnd(0)]);
    assert Run(h, 5) == State(1, map[1 := 0, 2 := 0], map[], [FlowBegin(0), FlowBegin(1), FlowEnd(0)]);
  }

  /** The flow id says nothing about the pair: the first writes of two channels get the same id.
      WritesShareId says exactly when that happens. */
  lemma FlowIdsCollide() returns (h: seq<Record>)
    ensures h == [ChannelCreate(1, 2), ChannelCreate(3, 4), ChannelWrite(1), ChannelWrite(3)]
    ensures PairOf(h, 2, 1) != PairOf(h, 2, 3)
    ensures Run(h, 4).emitted == [FlowBegin(0), FlowBegin(0)]
  {
    h := [ChannelCreate(1, 2), ChannelCreate(3, 4), ChannelWrite(1), ChannelWrite(3)];
    var s1 := Run(h, 1);
    assert s1.ids == map[1 := 0, 2 := 0];
    var s2 := Run(h, 2);
    var s3 := Run(h, 3);
    assert s3.emitted == [FlowBegin(0)];
    assert PairOf(h, 1, 3).None?;
  }

  // ------------------------------------------------------------------ the handlers

  class Importer {
    var nextId: nat
    var ids: map<Koid, nat>
    var messageCounters: map<nat, Counters>
    // The flow events written so far.
    var emitted: seq<Flow>

    ghost function View(): State
      reads this
    {
      State(nextId, ids, messageCounters, emitted)
    }

    constructor ()
      ensures View() == State(0, map[], map[], [])
    {
      nextId, ids, messageCounters, emitted := 0, map[], map[], [];
    }

    method HandleChannelCreate(end0: Koid, end1: Koid) returns (handled: bool)
      modifies this
      ensures View() == Step(old(View()), ChannelCreate(end0, end1))
      ensures handled <==> end0 !in old(ids) && end1 !in old(ids)
    {
      if end0 in ids || end1 in ids {
        return false;
      }
      ids := ids[end1 := nextId];
      ids := ids[end0 := nextId];
      nextId := nextId + 1;
      return true;
    }

    method HandleChannelWrite(channel: Koid) returns (handled: bool)
      modifies this
      ensures View() == Step(old(View()), ChannelWrite(channel))
      ensures handled <==> channel in old(ids)
    {
      if channel !in ids {
        return false;
      }
      var id := ids[channel];
      if id !in messageCounters {
        messageCounters := messageCounters[id := Counters(0, 0)];
      }
      var k := messageCounters[id];
      messageCounters := messageCounters[id := k.(writeCount := k.writeCount + 1)];
      emitted := emitted + [FlowBegin(k.writeCount)];
      return true;
    }

    method HandleChannelRead(channel: Koid) returns (handled: bool)
      modifies this
      ensures View() == Step(old(View()), ChannelRead(channel))
      ensures handled <==> channel in old(ids)
    {
      if channel !in ids {
        return false;
      }
      var id := ids[channel];
      if id !in messageCounters {
        messageCounters := messageCounters[id := Counters(0, 0)];
      }
      var k := messageCounters[id];
      messageCounters := messageCounters[id := k.(readCount := k.readCount + 1)];
      emitted := emitted + [FlowEnd(k.readCount)];
      return true;
    }

    method HandleObjectDelete(koid: Koid) returns (handled: bool)
      modifies this
      ensures View() == Step(old(View()), ObjectDelete(koid)) && handled
    {
      if koid in ids {
        messageCounters := messageCounters - {ids[koid]};
      }
      return true;
    }

    /** The import loop over the records of a trace. */
    method Import(h: seq<Record>)
      requires View() == State(0, map[], map[], [])
      modifies this
      ensures emitted == Expected(h, |h|)
    {
      for i := 0 to |h|
        invariant View() == Run(h, i)
      {
        var handled := false;
        match h[i]
        case ChannelCreate(a, b) => handled := HandleChannelCreate(a, b);
        case ChannelWrite(c) => handled := HandleChannelWrite(c);
        case ChannelRead(c) => handled := HandleChannelRead(c);
        case ObjectDelete(o) => handled := HandleObjectDelete(o);
        case Other =>
      }
      EmitsExpected(h, |h|);
    }
  }
}
