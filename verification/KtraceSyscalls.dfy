/** The ktrace importer's syscall durations: enter and exit records name a CPU, and the thread is
    found through the per-CPU table that context switches keep. */
module KtraceSyscalls {
  import opened Common

  type Koid = nat
  type Ticks = nat

  const KOID_INVALID: Koid := 0

  /** The syscall records pack the CPU into the low byte of `tid` and the syscall above it. A
      context switch to user thread zero is one to the kernel thread. */
  datatype Record =
    | SyscallEnter(ts: Ticks, tid: nat)
    | SyscallExit(ts: Ticks, tid: nat)
    | ContextSwitch(ts: Ticks, word: nat, incoming: Koid, incomingKernel: nat)
    | Other(ts: Ticks)

  datatype Duration = Duration(begin: Ticks, syscall: nat, valid: bool)

  /** A duration event written to the trace. */
  datatype Span = Span(thread: Koid, begin: Ticks, end: Ticks, syscall: nat)

  function Cpu(r: Record): nat {
    match r
    case SyscallEnter(_, tid) => tid % 256
    case SyscallExit(_, tid) => tid % 256
    case ContextSwitch(_, word, _, _) => word % 256
    case Other(_) => 0
  }

  function Syscall(r: Record): nat
    requires r.SyscallEnter? || r.SyscallExit?
  {
    r.tid / 256
  }

  function Incoming(r: Record): Koid
    requires r.ContextSwitch?
  {
    if r.incoming != 0 then r.incoming else r.incomingKernel
  }

  // ------------------------------------------------------------------ the importer's state

  /** How the trace refers to a thread. */
  datatype ThreadRef = UnknownThread | UserThread(koid: Koid) | KernelThread(number: nat)

  datatype CpuInfo = CpuInfo(thread: Koid, ref: ThreadRef)

  const NO_THREAD: CpuInfo := CpuInfo(KOID_INVALID, UnknownThread)

  /** A context switch written to the trace; state and priorities are those of the record. */
  datatype Switch = Switch(ts: Ticks, cpu: nat, outgoing: ThreadRef, incoming: ThreadRef, word: nat)

  datatype State = State(cpus: seq<CpuInfo>, durations: map<Koid, Duration>, emitted: seq<Span>, switches: seq<Switch>)

  const NOTHING_YET: State := State([], map[], [], [])

  function CurrentInfo(s: State, cpu: nat): CpuInfo {
    if cpu >= |s.cpus| then NO_THREAD else s.cpus[cpu]
  }

  function CurrentThread(s: State, cpu: nat): Koid {
    CurrentInfo(s, cpu).thread
  }

  function IncomingInfo(r: Record): CpuInfo
    requires r.ContextSwitch?
  {
    CpuInfo(Incoming(r), if r.incoming != 0 then UserThread(r.incoming) else KernelThread(r.incomingKernel))
  }

  function Resized(cpus: seq<CpuInfo>, size: nat): (r: seq<CpuInfo>)
    ensures |r| >= size && |r| >= |cpus|
    ensures forall i :: 0 <= i < |r| ==> r[i] == if i < |cpus| then cpus[i] else NO_THREAD
  {
    if size <= |cpus| then cpus else cpus + seq(size - |cpus|, _ => NO_THREAD)
  }

  function SwitchOf(s: State, r: Record): seq<Switch>
    requires r.ContextSwitch?
  {
    var outgoing, incoming := CurrentInfo(s, Cpu(r)).ref, IncomingInfo(r).ref;
    if outgoing.UnknownThread? && incoming.UnknownThread? then []
    else [Switch(r.ts, Cpu(r), outgoing, incoming, r.word)]
  }

  function SwitchCpu(s: State, r: Record): State
    requires r.ContextSwitch?
  {
    s.(cpus := Resized(s.cpus, Cpu(r) + 1)[Cpu(r) := IncomingInfo(r)], switches := s.switches + SwitchOf(s, r))
  }

  function Step(s: State, r: Record): State {
    match r
    case SyscallEnter(ts, _) =>
      var t := CurrentThread(s, Cpu(r));
      if t == KOID_INVALID then s
      else s.(durations := s.durations[t := Duration(ts, Syscall(r), true)])
    case SyscallExit(ts, _) =>
      var t := CurrentThread(s, Cpu(r));
      if t == KOID_INVALID then s
      else if t !in s.durations then s.(durations := s.durations[t := Duration(0, 0, false)])
      else
        var d := s.durations[t];
        if !d.valid || d.syscall != Syscall(r) then s
        else s.(durations := s.durations[t := d.(valid := false)],
                emitted := s.emitted + [Span(t, d.begin, ts, Syscall(r))])
    case ContextSwitch(_, _, _, _) => SwitchCpu(s, r)
    case Other(_) => s
  }

  /** The state after the first `n` records. */
  function Run(h: seq<Record>, n: nat): State
    requires n <= |h|
  {
    if n == 0 then NOTHING_YET else Step(Run(h, n - 1), h[n - 1])
  }

  // ------------------------------------------------------------------ what the history says

  /** The thread that the last switch on `cpu` before record `n` switched to: the user thread it
      names, or the kernel thread if that is zero. */
  function RunningOn(h: seq<Record>, n: nat, cpu: nat): Koid
    requires n <= |h|
  {
    if n == 0 then KOID_INVALID
    else if h[n - 1].ContextSwitch? && h[n - 1].word % 256 == cpu then
      (if h[n - 1].incoming == 0 then h[n - 1].incomingKernel else h[n - 1].incoming)
    else RunningOn(h, n - 1, cpu)
  }

  /** The same for the reference under which the trace knows that thread. */
  function RefOn(h: seq<Record>, n: nat, cpu: nat): ThreadRef
    requires n <= |h|
  {
    if n == 0 then UnknownThread
    else if h[n - 1].ContextSwitch? && h[n - 1].word % 256 == cpu then RefOf(h[n - 1].incoming, h[n - 1].incomingKernel)
    else RefOn(h, n - 1, cpu)
  }

  function RefOf(user: Koid, kernel: nat): ThreadRef {
    if user == 0 then KernelThread(kernel) else UserThread(user)
  }

  /** The context switches that the history calls for: one for each record, from the thread that the
      last switch on the CPU switched to. */
  function ExpectedSwitches(h: seq<Record>, n: nat): seq<Switch>
    requires n <= |h|
  {
    if n == 0 then []
    else
      var r := h[n - 1];
      if !r.ContextSwitch? then ExpectedSwitches(h, n - 1)
      else
        var cpu := r.word % 256;
        ExpectedSwitches(h, n - 1) +
        [Switch(r.ts, cpu, RefOn(h, n - 1, cpu), RefOf(r.incoming, r.incomingKernel), r.word)]
  }

  predicate Enters(h: seq<Record>, i: nat, t: Koid) {
    i < |h| && h[i].SyscallEnter? && t != KOID_INVALID && RunningOn(h, i, h[i].tid % 256) == t
  }

  predicate Exits(h: seq<Record>, i: nat, t: Koid, syscall: nat) {
    && i < |h| && h[i].SyscallExit? && t != KOID_INVALID && RunningOn(h, i, h[i].tid % 256) == t
    && h[i].tid / 256 == syscall
  }

  /** Among the first `n` records, `j` is the latest enter of thread `t` and its syscall has not
      been left since. */
  ghost predicate Open(h: seq<Record>, n: nat, t: Koid, j: nat) {
    && j < n <= |h| && Enters(h, j, t)
    && (forall k :: j < k < n ==> !Enters(h, k, t) && !Exits(h, k, t, h[j].tid / 256))
  }

  /** Exit `i` ends the syscall that enter `j` began, on the same thread. */
  ghost predicate Pairs(h: seq<Record>, j: nat, i: nat, t: Koid) {
    i < |h| && Open(h, i, t, j) && Exits(h, i, t, h[j].tid / 256)
  }

  ghost predicate Paired(h: seq<Record>, i: nat) {
    exists j: nat, t: Koid :: Pairs(h, j, i, t)
  }

  /** The durations that the history calls for, in the order of their exits. */
  ghost function Expected(h: seq<Record>, n: nat): seq<Span>
    requires n <= |h|
  {
    if n == 0 then []
    else
      Expected(h, n - 1) +
      var i := n - 1;
      if Paired(h, i) then
        var j: nat, t: Koid :| Pairs(h, j, i, t);
        [Span(t, h[j].ts, h[i].ts, h[j].tid / 256)]
      else []
  }

  /** A word with a CPU number in its low byte and another number above it. */
  predicate Packs(word: nat, above: nat, cpu: nat) {
    cpu < 256 && word == above * 256 + cpu
  }

  /** Taking the two numbers out of a record undoes the packing. */
  lemma Unpacks(r: Record, above: nat, cpu: nat)
    requires !r.Other? && Packs(if r.ContextSwitch? then r.word else r.tid, above, cpu)
    ensures Cpu(r) == cpu && (!r.ContextSwitch? ==> Syscall(r) == above)
    ensures (if r.ContextSwitch? then r.word else r.tid) % 256 == cpu
    ensures (if r.ContextSwitch? then r.word else r.tid) / 256 == above
  {
  }

  /** No switch on `cpu` from record `m` to before record `n`. */
  ghost predicate NoSwitch(h: seq<Record>, m: nat, n: nat, cpu: nat)
    requires m <= n <= |h|
  {
    forall k, above :: m <= k < n && h[k].ContextSwitch? ==> !Packs(h[k].word, above, cpu)
  }

  /** What runs on a CPU by position: nothing before its first switch, and then what the last switch
      says. */
  lemma {:induction false} RunningOnIs(h: seq<Record>, m: nat, n: nat, cpu: nat, above: nat)
    requires m <= n <= |h| && cpu < 256 && NoSwitch(h, m, n, cpu)
    ensures m == 0 ==> RunningOn(h, n, cpu) == KOID_INVALID && RefOn(h, n, cpu) == UnknownThread
    ensures m > 0 && h[m - 1].ContextSwitch? && Packs(h[m - 1].word, above, cpu) ==>
              var r := h[m - 1];
              && (r.incoming != 0 ==> RunningOn(h, n, cpu) == r.incoming && RefOn(h, n, cpu) == UserThread(r.incoming))
              && (r.incoming == 0 ==>
                    RunningOn(h, n, cpu) == r.incomingKernel && RefOn(h, n, cpu) == KernelThread(r.incomingKernel))
    decreases n
  {
    if m < n {
      RunningOnIs(h, m, n - 1, cpu, above);
      var r := h[n - 1];
      assert r.ContextSwitch? ==> Packs(r.word, r.word / 256, r.word % 256);
    } else if m > 0 && h[m - 1].ContextSwitch? && Packs(h[m - 1].word, above, cpu) {
      Unpacks(h[m - 1], above, cpu);
    }
  }

  // ------------------------------------------------------------------ the state tells the history

  /** The CPU table holds what the context switches say. */
  lemma {:induction false} CpuTable(h: seq<Record>, n: nat, cpu: nat)
    requires n <= |h|
    ensures CurrentInfo(Run(h, n), cpu) == CpuInfo(RunningOn(h, n, cpu), RefOn(h, n, cpu))
  {
    if n > 0 {
      CpuTable(h, n - 1, cpu);
      InfoStep(Run(h, n - 1), h[n - 1], cpu);
    }
  }

  lemma InfoStep(s: State, r: Record, cpu: nat)
    ensures CurrentInfo(Step(s, r), cpu) ==
            if r.ContextSwitch? && Cpu(r) == cpu then IncomingInfo(r) else CurrentInfo(s, cpu)
  {
  }

  lemma SwitchStep(s: State, r: Record)
    ensures Step(s, r).switches ==
            if !r.ContextSwitch? then s.switches
            else s.switches + [Switch(r.ts, Cpu(r), CurrentInfo(s, Cpu(r)).ref, IncomingInfo(r).ref, r.word)]
  {
  }

  /** For every history one context switch is written for each record of one, in order, out of the
      thread that the last switch on that CPU went into: on each CPU the switches join up. */
  lemma {:induction false} SwitchesExpected(h: seq<Record>, n: nat)
    requires n <= |h|
    ensures Run(h, n).switches == ExpectedSwitches(h, n)
  {
    if n > 0 {
      SwitchesExpected(h, n - 1);
      CpuTable(h, n - 1, Cpu(h[n - 1]));
      SwitchStep(Run(h, n - 1), h[n - 1]);
    }
  }

  lemma OpenIsUnique(h: seq<Record>, n: nat, t: Koid, i: nat, j: nat)
    requires Open(h, n, t, i) && Open(h, n, t, j)
    ensures i == j
  {
    assert i < j ==> !Enters(h, j, t);
    assert j < i ==> !Enters(h, i, t);
  }

  /** The time and syscall of a thread's valid duration. */
  function Pending(s: State, t: Koid): Option<(Ticks, nat)> {
    if t in s.durations && s.durations[t].valid then Some((s.durations[t].begin, s.durations[t].syscall)) else None
  }

  lemma PendingStep(s: State, r: Record, t: Koid)
    requires t != KOID_INVALID
    ensures var mine := CurrentThread(s, Cpu(r)) == t;
            Pending(Step(s, r), t) ==
              if r.SyscallEnter? && mine then Some((r.ts, Syscall(r)))
              else if r.SyscallExit? && mine && Pending(s, t).Some? && Pending(s, t).value.1 == Syscall(r) then None
              else Pending(s, t)
  {
  }

  lemma OpenStep(h: seq<Record>, n: nat, t: Koid, j: nat)
    requires n < |h|
    ensures Open(h, n + 1, t, j) <==>
            (j == n && Enters(h, n, t)) || (Open(h, n, t, j) && !Enters(h, n, t) && !Exits(h, n, t, h[j].tid / 256))
  {
  }

  /** A thread has a valid duration exactly while an enter of it is open, with that enter's time
      and syscall. */
  lemma {:induction false} DurationsAreOpenEnters(h: seq<Record>, n: nat, t: Koid)
    requires n <= |h| && t != KOID_INVALID
    ensures forall j: nat :: Open(h, n, t, j) ==> Pending(Run(h, n), t) == Some((h[j].ts, Syscall(h[j])))
    ensures Pending(Run(h, n), t).Some? ==> exists j: nat :: Open(h, n, t, j)
  {
    if n > 0 {
      var i := n - 1;
      DurationsAreOpenEnters(h, i, t);
      CpuTable(h, i, Cpu(h[i]));
      PendingStep(Run(h, i), h[i], t);
      forall j: nat | Open(h, n, t, j) ensures Pending(Run(h, n), t) == Some((h[j].ts, Syscall(h[j]))) {
        OpenStep(h, i, t, j);
      }
      if Pending(Run(h, n), t).Some? {
        OpenStep(h, i, t, i);
        if !Enters(h, i, t) {
          var j: nat :| Open(h, i, t, j);
          OpenStep(h, i, t, j);
        }
      }
    }
  }

  /** An exit record emits a duration exactly when it pairs with an enter, and then that one. */
  lemma ExitEmits(h: seq<Record>, i: nat)
    requires i < |h|
    ensures forall j: nat, t: Koid :: Pairs(h, j, i, t) ==>
              Run(h, i + 1).emitted == Run(h, i).emitted + [Span(t, h[j].ts, h[i].ts, Syscall(h[j]))]
    ensures !Paired(h, i) ==> Run(h, i + 1).emitted == Run(h, i).emitted
  {
    var s, r := Run(h, i), h[i];
    CpuTable(h, i, Cpu(r));
    var u := RunningOn(h, i, Cpu(r));
    if r.SyscallExit? && u != KOID_INVALID {
      DurationsAreOpenEnters(h, i, u);
      if Pending(s, u).Some? && Pending(s, u).value.1 == Syscall(r) {
        var j: nat :| Open(h, i, u, j);
        assert Pairs(h, j, i, u);
        forall k: nat, t: Koid | Pairs(h, k, i, t) ensures k == j && t == u {
          OpenIsUnique(h, i, u, k, j);
        }
      }
    }
  }

  /** For every history the durations emitted are those the history calls for, in order: one for
      each exit that pairs with its thread's latest enter, and no others. */
  lemma {:induction false} EmitsExpected(h: seq<Record>, n: nat)
    requires n <= |h|
    ensures Run(h, n).emitted == Expected(h, n)
  {
    if n > 0 {
      EmitsExpected(h, n - 1);
      ExitEmits(h, n - 1);
    }
  }

  /** Record `k` is an enter or exit of `syscall` on a CPU that thread `t` runs on. */
  ghost predicate CallOf(h: seq<Record>, k: nat, t: Koid, syscall: nat, cpu: nat) {
    && k < |h| && (h[k].SyscallEnter? || h[k].SyscallExit?) && Packs(h[k].tid, syscall, cpu)
    && t != KOID_INVALID && RunningOn(h, k, cpu) == t
  }

  lemma CallsSplit(h: seq<Record>, k: nat, t: Koid, syscall: nat, cpu: nat)
    requires CallOf(h, k, t, syscall, cpu)
    ensures h[k].SyscallEnter? ==> Enters(h, k, t)
    ensures h[k].SyscallExit? ==> Exits(h, k, t, syscall)
    ensures h[k].tid / 256 == syscall
  {
    Unpacks(h[k], syscall, cpu);
  }

  /** By the numbers in the records: a thread that enters a syscall and, with no other enter and no other exit of
      that syscall in between, leaves it, on whatever CPUs, is given the span from the one to the other. */
  lemma SpanByNumbers(h: seq<Record>, j: nat, i: nat, t: Koid, syscall: nat, from: nat, to: nat)
    requires CallOf(h, j, t, syscall, from) && h[j].SyscallEnter?
    requires CallOf(h, i, t, syscall, to) && h[i].SyscallExit? && j < i
    requires forall k, other, cpu :: j < k < i && CallOf(h, k, t, other, cpu) ==> h[k].SyscallExit? && other != syscall
    ensures Run(h, i + 1).emitted == Run(h, i).emitted + [Span(t, h[j].ts, h[i].ts, syscall)]
  {
    CallsSplit(h, j, t, syscall, from);
    CallsSplit(h, i, t, syscall, to);
    forall k | j < k < i ensures !Enters(h, k, t) && !Exits(h, k, t, syscall) {
      if Enters(h, k, t) || Exits(h, k, t, syscall) {
        assert CallOf(h, k, t, h[k].tid / 256, h[k].tid % 256);
      }
    }
    assert Pairs(h, j, i, t);
    ExitEmits(h, i);
  }

  // ------------------------------------------------------------------ time

  ghost predicate TimeOrdered(h: seq<Record>) {
    forall i, j :: 0 <= i < j < |h| ==> h[i].ts <= h[j].ts
  }

  /** Spans of one thread follow each other. */
  ghost predicate Disjoint(e: seq<Span>) {
    && (forall k :: 0 <= k < |e| ==> e[k].begin <= e[k].end)
    && (forall k, l :: 0 <= k < l < |e| && e[k].thread == e[l].thread ==> e[k].end <= e[l].begin)
  }

  /** A pending duration began after its thread's last span ended. */
  ghost predicate After(s: State, now: Ticks) {
    && (forall t :: t in s.durations && s.durations[t].valid ==> s.durations[t].begin <= now)
    && (forall k :: 0 <= k < |s.emitted| ==> s.emitted[k].end <= now)
    && (forall k :: 0 <= k < |s.emitted| ==>
          var t := s.emitted[k].thread;
          t in s.durations && s.durations[t].valid ==> s.emitted[k].end <= s.durations[t].begin)
  }

  lemma AppendDisjoint(e: seq<Span>, x: Span)
    requires Disjoint(e) && x.begin <= x.end
    requires forall k :: 0 <= k < |e| && e[k].thread == x.thread ==> e[k].end <= x.begin
    ensures Disjoint(e + [x])
  {
  }

  lemma StepDisjoint(s: State, r: Record, now: Ticks)
    requires Disjoint(s.emitted) && After(s, now) && now <= r.ts
    ensures Disjoint(Step(s, r).emitted) && After(Step(s, r), r.ts)
  {
    var t := CurrentThread(s, Cpu(r));
    if r.SyscallExit? && t != KOID_INVALID && Pending(s, t).Some? && Pending(s, t).value.1 == Syscall(r) {
      AppendDisjoint(s.emitted, Span(t, s.durations[t].begin, r.ts, Syscall(r)));
    }
  }

  /** With timestamps that never decrease, the durations of any one thread begin before they end
      and never overlap. */
  lemma {:induction false} SpansDisjoint(h: seq<Record>, n: nat)
    requires n <= |h| && TimeOrdered(h)
    ensures Disjoint(Run(h, n).emitted)
    ensures After(Run(h, n), if n == 0 then 0 else h[n - 1].ts)
  {
    if n > 0 {
      SpansDisjoint(h, n - 1);
      StepDisjoint(Run(h, n - 1), h[n - 1], if n == 1 then 0 else h[n - 2].ts);
    }
  }

  // ------------------------------------------------------------------ the handlers

  class Importer {
    var cpuInfos: seq<CpuInfo>
    var syscallDurations: map<Koid, Duration>
    // The duration events and the context switches written so far.
    var emitted: seq<Span>
    var switches: seq<Switch>

    ghost function View(): State
      reads this
    {
      State(cpuInfos, syscallDurations, emitted, switches)
    }

    constructor ()
      ensures View() == NOTHING_YET
    {
      cpuInfos, syscallDurations, emitted, switches := [], map[], [], [];
    }

    function GetCpuCurrentThread(cpu: nat): Koid
      reads this
    {
      if cpu >= |cpuInfos| then KOID_INVALID else cpuInfos[cpu].thread
    }

    function GetCpuCurrentThreadRef(cpu: nat): ThreadRef
      reads this
    {
      if cpu >= |cpuInfos| then UnknownThread else cpuInfos[cpu].ref
    }

    method HandleSyscallEnter(r: Record) returns (handled: bool)
      requires r.SyscallEnter?
      modifies this
      ensures View() == Step(old(View()), r) && handled
    {
      var thread := GetCpuCurrentThread(Cpu(r));
      if thread != KOID_INVALID {
        syscallDurations := syscallDurations[thread := Duration(r.ts, Syscall(r), true)];
      }
      return true;
    }

    method HandleSyscallExit(r: Record) returns (handled: bool)
      requires r.SyscallExit?
      modifies this
      ensures View() == Step(old(View()), r)
      ensures handled <==> |emitted| > |old(emitted)| || CurrentThread(old(View()), Cpu(r)) == KOID_INVALID
    {
      var thread := GetCpuCurrentThread(Cpu(r));
      if thread == KOID_INVALID {
        return true;
      }
      if thread !in syscallDurations {
        syscallDurations := syscallDurations[thread := Duration(0, 0, false)];
      }
      var duration := syscallDurations[thread];
      if !duration.valid || duration.syscall != Syscall(r) {
        return false;
      }
      emitted := emitted + [Span(thread, duration.begin, r.ts, Syscall(r))];
      syscallDurations := syscallDurations[thread := duration.(valid := false)];
      return true;
    }

    method SwitchCpuToThread(cpu: nat, info: CpuInfo) returns (ref: ThreadRef)
      modifies this`cpuInfos
      ensures cpuInfos == Resized(old(cpuInfos), cpu + 1)[cpu := info] && ref == info.ref
    {
      if cpu >= |cpuInfos| {
        cpuInfos := cpuInfos + seq(cpu + 1 - |cpuInfos|, _ => NO_THREAD);
      }
      cpuInfos := cpuInfos[cpu := info];
      ref := info.ref;
    }

    method HandleContextSwitch(r: Record) returns (handled: bool)
      requires r.ContextSwitch?
      modifies this
      ensures View() == Step(old(View()), r) && handled
    {
      var outgoing := GetCpuCurrentThreadRef(Cpu(r));
      var incoming := SwitchCpuToThread(Cpu(r), IncomingInfo(r));
      if !outgoing.UnknownThread? || !incoming.UnknownThread? {
        switches := switches + [Switch(r.ts, Cpu(r), outgoing, incoming, r.word)];
      }
      return true;
    }

    /** The import loop over the records of a trace. */
    method Import(h: seq<Record>)
      requires View() == NOTHING_YET
      modifies this
      ensures emitted == Expected(h, |h|) && switches == ExpectedSwitches(h, |h|)
      ensures TimeOrdered(h) ==> Disjoint(emitted)
    {
      for i := 0 to |h|
        invariant View() == Run(h, i)
      {
        var handled := false;
        match h[i]
        case SyscallEnter(_, _) => handled := HandleSyscallEnter(h[i]);
        case SyscallExit(_, _) => handled := HandleSyscallExit(h[i]);
        case ContextSwitch(_, _, _, _) => handled := HandleContextSwitch(h[i]);
        case Other(_) =>
      }
      EmitsExpected(h, |h|);
      SwitchesExpected(h, |h|);
      if TimeOrdered(h) {
        SpansDisjoint(h, |h|);
      }
    }
  }
}
