/** Whole runs of the loader protocol: when waiting requests are granted, when slots are lost, and when
    the service crashes. */
module LoaderFaults {
  import opened Common
  import A = SlotAllocator
  import opened LoaderProtocol
  import opened LoaderRuns

  // ------------------------------------------------------------------ waiting requests

  /** Grants followed by the queue only grow at their end. */
  lemma ArrivalsGrow(s: Service, step: Step)
    requires Sound(s) && Enabled(s, step)
    ensures var r := Apply(s, step); s.granted + s.waiting <= r.granted + r.waiting
  {
    if step.RunMain? {
      var q := s.(mainQueue := s.mainQueue[1..]);
      var c := s.mainQueue[0].owner;
      assert c in s.loaders;
      if s.loaders[c].onInactive.Some? {
        if s.mainQueue[0].ReturnSlot? {
          ReturnGrows(Releasing(q, c), s.loaders[c].onInactive.value);
        } else if s.mainQueue[0].JoinAndNotify? {
          ReturnGrows(Joining(q, c), s.loaders[c].onInactive.value);
        }
      }
    }
  }

  lemma {:induction false} RunArrivalsGrow(b: seq<Service>, w: seq<Step>, i: nat, j: nat)
    requires Behavior(b, w) && i <= j < |b|
    ensures b[i].granted + b[i].waiting <= b[j].granted + b[j].waiting
  {
    if i < j {
      RunArrivalsGrow(b, w, i, j - 1);
      EveryRunSound(b, w, j - 1);
      ArrivalsGrow(b[j - 1], w[j - 1]);
    }
  }

  /** In every run, whatever the clients do: a request with `k` requests ahead of it in one state has
      been granted in a later one if and only if at least `k` + 1 slots have been returned between,
      in nested returns or not; until then it waits in the queue. */
  lemma GrantedInRun(b: seq<Service>, w: seq<Step>, i: nat, j: nat, k: nat)
    requires Behavior(b, w) && i <= j < |b| && k < |b[i].waiting|
    ensures var n := |b[i].granted| + k;
            if |b[j].returned| >= |b[i].returned| + k + 1
            then n < |b[j].granted| && b[j].granted[n] == b[i].waiting[k]
            else |b[j].granted| <= n < |b[j].granted| + |b[j].waiting| && b[j].waiting[n - |b[j].granted|] == b[i].waiting[k]
  {
    EveryRunSound(b, w, i);
    EveryRunSound(b, w, j);
    RunArrivalsGrow(b, w, i, j);
    var n := |b[i].granted| + k;
    var x, y := b[i].granted + b[i].waiting, b[j].granted + b[j].waiting;
    assert x[n] == b[i].waiting[k] && y[n] == x[n];
  }

  /** And it is exactly the (k+1)-th of the returns that grants it: after any further allocator events
      with `k` returns among them it heads the queue, and the next return grants it. */
  lemma GrantedByReturn(b: seq<Service>, w: seq<Step>, i: nat, k: nat, fs: seq<A.Event<LoaderId>>)
    requires Behavior(b, w) && i < |b| && k < |b[i].waiting| && A.Returns(fs) == k
    ensures var es := AllEvents(b, w, i) + fs;
            var before, after := A.Run(A.Initial<LoaderId>(), es), A.Run(A.Initial<LoaderId>(), es + [A.Returned]);
            && before.waiting != [] && before.waiting[0] == b[i].waiting[k]
            && after.granted == before.granted + [b[i].waiting[k]]
  {
    RunsRefine(b, w, i);
    A.GrantedOnReturn(AllEvents(b, w, i), fs, k);
  }

  // ------------------------------------------------------------------ lost slots

  /** A lost slot stays lost in every continuation. */
  lemma {:induction false} LostForever(b: seq<Service>, w: seq<Step>, i: nat, j: nat, token: nat)
    requires Behavior(b, w) && i <= j < |b| && Lost(b[i], token)
    ensures Lost(b[j], token)
  {
    if i < j {
      LostForever(b, w, i, j - 1, token);
      LostStays(b[j - 1], w[j - 1], token);
    }
  }

  lemma NoneLostIsAccounted(s: Service)
    requires Holders(s, {}) && !SomeLost(s)
    ensures Accounted(s, {})
  {
    forall t | 0 <= t < |s.granted| && t !in s.returned
      ensures s.granted[t] in s.loaders && s.loaders[s.granted[t]].onInactive == Some(t)
    {
      assert !Lost(s, t);
    }
  }

  /** Some step before state `i` grants to a container that still holds a slot. */
  ghost predicate OverwroteBefore(b: seq<Service>, w: seq<Step>, i: nat)
    requires Behavior(b, w) && i < |b|
  {
    exists j :: 0 <= j < i && Overwrites(b[j], w[j])
  }

  /** In every run a slot is lost if and only if some step has granted to a container that was still
      holding one, or was being destroyed. */
  lemma {:induction false} RunLosesIff(b: seq<Service>, w: seq<Step>, i: nat)
    requires Behavior(b, w) && i < |b|
    ensures SomeLost(b[i]) <==> OverwroteBefore(b, w, i)
  {
    if i == 0 {
      return;
    }
    RunLosesIff(b, w, i - 1);
    EveryRunSound(b, w, i - 1);
    assert OverwroteBefore(b, w, i) <==> OverwroteBefore(b, w, i - 1) || Overwrites(b[i - 1], w[i - 1]);
    if SomeLost(b[i - 1]) {
      var token :| Lost(b[i - 1], token);
      LostStays(b[i - 1], w[i - 1], token);
    } else {
      NoneLostIsAccounted(b[i - 1]);
      LosesIffOverwrites(b[i - 1], w[i - 1]);
    }
  }

  // ------------------------------------------------------------------ crashes

  /** A returned slot finds the container's closure empty. */
  predicate CallsEmptyClosure(s: Service, step: Step)
    requires Enabled(s, step)
  {
    && step.RunMain? && s.mainQueue[0].ReturnSlot?
    && s.mainQueue[0].owner in s.loaders && s.loaders[s.mainQueue[0].owner].onInactive.None?
  }

  /** The only way to crash is to call an empty closure: destroyed containers are never used. */
  lemma CrashesIff(s: Service, step: Step)
    requires Sound(s) && Enabled(s, step)
    ensures Apply(s, step).crashed <==> CallsEmptyClosure(s, step)
  {
    match step
    case RunIo(c) => RunIoSound(s, c);
    case RunMain =>
      var q := s.(mainQueue := s.mainQueue[1..]);
      var c := s.mainQueue[0].owner;
      assert c in s.loaders;
      if s.loaders[c].onInactive.Some? {
        ReturnKeepsLoaders(Releasing(q, c), s.loaders[c].onInactive.value);
        ReturnKeepsLoaders(Joining(q, c), s.loaders[c].onInactive.value);
      }
    case _ =>
  }

  /** Tasks that will call the closure of `c`. */
  ghost function Owed(s: Service, c: LoaderId): nat
    requires c in s.loaders
  {
    multiset(s.loaders[c].ioQueue)[RunSlot] + multiset(s.mainQueue)[ReturnSlot(c)]
  }

  /** Every container has as many of them as it holds slots. */
  ghost predicate AllOwed(s: Service) {
    forall c :: c in s.loaders ==> Owed(s, c) == if s.loaders[c].onInactive.Some? then 1 else 0
  }

  lemma DeliverOwed(s: Service, r: Service, f: LoaderId, token: nat)
    requires AllOwed(s) && f in s.loaders && s.loaders[f].onInactive.None?
    requires r.mainQueue == s.mainQueue && r.loaders == Deliver(s, f, token).loaders
    ensures AllOwed(r)
  {
    forall c | c in r.loaders ensures Owed(r, c) == if r.loaders[c].onInactive.Some? then 1 else 0 {
      assert Owed(s, c) == if s.loaders[c].onInactive.Some? then 1 else 0;
    }
  }

  lemma ReturnOwed(s: Service, token: nat)
    requires AllOwed(s) && token < |s.granted| && forall t :: t in s.returned ==> t < |s.granted|
    requires var f := FirstLive(s.waiting, s.loaders.Keys);
             f.Some? ==> f.value in s.loaders && s.loaders[f.value].onInactive.None?
    ensures AllOwed(Return(s, token)) && Return(s, token).mainQueue == s.mainQueue
    ensures Return(s, token).loaders.Keys == s.loaders.Keys
  {
    ReturnGrants(s, token);
    ReturnKeepsLoaders(s, token);
    GrantedOwed(s, token, Return(s, token), FirstLive(s.waiting, s.loaders.Keys));
  }

  lemma GrantedOwed(s: Service, token: nat, r: Service, f: Option<LoaderId>)
    requires AllOwed(s) && Granted(s, token, r, f) && r.mainQueue == s.mainQueue
    requires f.Some? ==> f.value in s.loaders && s.loaders[f.value].onInactive.None?
    ensures AllOwed(r)
  {
    if f.Some? {
      DeliverOwed(s, r, f.value, |r.granted| - 1);
    } else {
      SameOwed(s, r);
    }
  }

  lemma SameOwed(s: Service, r: Service)
    requires AllOwed(s) && r.mainQueue == s.mainQueue && r.loaders == s.loaders
    ensures AllOwed(r)
  {
    forall c | c in r.loaders ensures Owed(r, c) == Owed(s, c) {
    }
  }

  lemma RequestOwed(s: Service, c: LoaderId)
    requires AllOwed(s) && Enabled(s, RunMain) && s.mainQueue[0] == RequestSlot(c) && c in s.loaders
    requires !Overwrites(s, RunMain)
    ensures AllOwed(Apply(s, RunMain))
  {
    var q := s.(mainQueue := s.mainQueue[1..]);
    Pop(s.mainQueue);
    assert AllOwed(q) by {
      forall d | d in q.loaders ensures Owed(q, d) == Owed(s, d) {
      }
    }
    if s.available > 0 {
      DeliverOwed(q, Request(q, c), c, |s.granted|);
    }
  }

  lemma ReleasingOwed(s: Service, c: LoaderId)
    requires AllOwed(s) && c in s.loaders && s.mainQueue != [] && s.mainQueue[0] == ReturnSlot(c)
    requires s.loaders[c].onInactive.Some?
    ensures AllOwed(Releasing(s.(mainQueue := s.mainQueue[1..]), c))
  {
    var e := Releasing(s.(mainQueue := s.mainQueue[1..]), c);
    Pop(s.mainQueue);
    forall d | d in e.loaders ensures Owed(e, d) == if e.loaders[d].onInactive.Some? then 1 else 0 {
      assert Owed(s, d) == if s.loaders[d].onInactive.Some? then 1 else 0;
    }
  }

  lemma ReleaseOwed(s: Service, c: LoaderId)
    requires AllOwed(s) && Ledger(s) && Holders(s, {}) && c in s.loaders
    requires Enabled(s, RunMain) && s.mainQueue[0] == ReturnSlot(c) && !Overwrites(s, RunMain)
    ensures s.loaders[c].onInactive.Some? && AllOwed(Apply(s, RunMain))
  {
    var q := s.(mainQueue := s.mainQueue[1..]);
    assert s.mainQueue[0] in multiset(s.mainQueue) && Owed(s, c) >= 1;
    var token := s.loaders[c].onInactive.value;
    var e := Releasing(q, c);
    ReleasingOwed(s, c);
    assert e.loaders.Keys == s.loaders.Keys;
    FirstLiveLives(s.waiting, s.loaders.Keys);
    ReturnOwed(e, token);
    assert Apply(s, RunMain) == Return(e, token);
  }

  lemma EraseOwed(r: Service, c: LoaderId)
    requires AllOwed(r)
    ensures AllOwed(r.(loaders := r.loaders - {c}))
  {
    var e := r.(loaders := r.loaders - {c});
    forall d | d in e.loaders ensures Owed(e, d) == if e.loaders[d].onInactive.Some? then 1 else 0 {
      assert Owed(r, d) == Owed(e, d);
    }
  }

  lemma JoiningOwed(s: Service, c: LoaderId)
    requires AllOwed(s) && c in s.loaders && s.mainQueue != [] && s.mainQueue[0] == JoinAndNotify(c)
    ensures AllOwed(Joining(s.(mainQueue := s.mainQueue[1..]), c))
  {
    var j := Joining(s.(mainQueue := s.mainQueue[1..]), c);
    Pop(s.mainQueue);
    forall d | d in j.loaders ensures Owed(j, d) == if j.loaders[d].onInactive.Some? then 1 else 0 {
      assert Owed(s, d) == if s.loaders[d].onInactive.Some? then 1 else 0;
    }
  }

  lemma JoinOwed(s: Service, c: LoaderId)
    requires AllOwed(s) && Ledger(s) && Holders(s, {}) && c in s.loaders && !s.loaders[c].joined
    requires Enabled(s, RunMain) && s.mainQueue[0] == JoinAndNotify(c) && !Overwrites(s, RunMain)
    ensures AllOwed(Apply(s, RunMain))
  {
    var j := Joining(s.(mainQueue := s.mainQueue[1..]), c);
    JoiningOwed(s, c);
    assert j.loaders.Keys == s.loaders.Keys;
    if s.loaders[c].onInactive.Some? {
      var token := s.loaders[c].onInactive.value;
      FirstLiveLives(s.waiting, s.loaders.Keys);
      ReturnOwed(j, token);
      EraseOwed(Return(j, token), c);
    } else {
      EraseOwed(j, c);
    }
  }

  /** A step that only touches container `c` and may post a task. */
  lemma LocalOwed(s: Service, r: Service, c: LoaderId, posted: seq<MainTask>)
    requires AllOwed(s) && c in s.loaders && r.loaders.Keys == s.loaders.Keys && r.mainQueue == s.mainQueue + posted
    requires forall d :: d in s.loaders && d != c ==> r.loaders[d] == s.loaders[d]
    requires r.loaders[c].onInactive == s.loaders[c].onInactive
    requires multiset(posted)[ReturnSlot(c)] + multiset(r.loaders[c].ioQueue)[RunSlot] == multiset(s.loaders[c].ioQueue)[RunSlot]
    requires forall t :: t in posted ==> t.owner == c
    ensures AllOwed(r)
  {
    forall d | d in r.loaders ensures Owed(r, d) == if r.loaders[d].onInactive.Some? then 1 else 0 {
      assert Owed(s, d) == if s.loaders[d].onInactive.Some? then 1 else 0;
      assert d != c ==> ReturnSlot(d) !in posted;
    }
  }

  lemma RunIoOwed(s: Service, c: LoaderId)
    requires AllOwed(s) && Enabled(s, RunIo(c)) && !Apply(s, RunIo(c)).crashed
    ensures AllOwed(Apply(s, RunIo(c)))
  {
    Pop(s.loaders[c].ioQueue);
    if s.loaders[c].ioQueue[0] == StartOnIo {
      LocalOwed(s, Apply(s, RunIo(c)), c, []);
    } else {
      LocalOwed(s, Apply(s, RunIo(c)), c, [ReturnSlot(c)]);
    }
  }

  lemma CreateOwed(s: Service)
    requires AllOwed(s) && Ids(s) && Enabled(s, CreateLoader)
    ensures AllOwed(Apply(s, CreateLoader))
  {
    var r := Apply(s, CreateLoader);
    assert ReturnSlot(s.nextId) !in s.mainQueue;
    forall d | d in r.loaders ensures Owed(r, d) == if r.loaders[d].onInactive.Some? then 1 else 0 {
      assert d != s.nextId ==> Owed(r, d) == Owed(s, d);
    }
  }

  lemma MainOwed(s: Service)
    requires Sound(s) && AllOwed(s) && Enabled(s, RunMain) && !Overwrites(s, RunMain)
    ensures AllOwed(Apply(s, RunMain)) && !CallsEmptyClosure(s, RunMain)
  {
    var c := s.mainQueue[0].owner;
    assert c in s.loaders && Shape(s.loaders[c], Tasks(s.mainQueue, c));
    match s.mainQueue[0]
    case RequestSlot(_) => RequestOwed(s, c);
    case ReturnSlot(_) => ReleaseOwed(s, c);
    case JoinAndNotify(_) => JoinOwed(s, c);
  }

  lemma ClientStartOwed(s: Service, c: LoaderId)
    requires AllOwed(s) && Enabled(s, ClientStart(c))
    ensures AllOwed(Apply(s, ClientStart(c)))
  {
    LocalOwed(s, Apply(s, ClientStart(c)), c, [RequestSlot(c)]);
  }

  lemma BindingErrorOwed(s: Service, c: LoaderId)
    requires AllOwed(s) && Enabled(s, BindingError(c))
    ensures AllOwed(Apply(s, BindingError(c)))
  {
    LocalOwed(s, Apply(s, BindingError(c)), c, [JoinAndNotify(c)]);
  }

  /** Without an overwritten closure a step keeps what is owed, and does not crash. */
  lemma StepOwed(s: Service, step: Step)
    requires Sound(s) && AllOwed(s) && Enabled(s, step) && !Overwrites(s, step)
    ensures AllOwed(Apply(s, step)) && !Apply(s, step).crashed
  {
    CrashesIff(s, step);
    match step
    case CreateLoader => CreateOwed(s);
    case RunMain => MainOwed(s);
    case RunIo(c) =>
      RunIoSound(s, c);
      RunIoOwed(s, c);
    case ClientStart(c) => ClientStartOwed(s, c);
    case BindingError(c) => BindingErrorOwed(s, c);
  }

  lemma {:induction false} NoOverwriteNoCrash(b: seq<Service>, w: seq<Step>, i: nat)
    requires Behavior(b, w) && i < |b| && !OverwroteBefore(b, w, i)
    ensures AllOwed(b[i]) && !b[i].crashed
  {
    if i > 0 {
      assert !OverwroteBefore(b, w, i - 1);
      NoOverwriteNoCrash(b, w, i - 1);
      EveryRunSound(b, w, i - 1);
      StepOwed(b[i - 1], w[i - 1]);
    }
  }

  /** In every run, exactly when a state is a crash: the last step ran the return of a slot of a
      container that holds none. That needs an overwritten closure, so that a slot has been lost. */
  lemma RunCrashesIff(b: seq<Service>, w: seq<Step>, i: nat)
    requires Behavior(b, w) && i < |b|
    ensures b[i].crashed <==> i > 0 && CallsEmptyClosure(b[i - 1], w[i - 1])
    ensures b[i].crashed ==> OverwroteBefore(b, w, i) && SomeLost(b[i])
  {
    if i > 0 {
      EveryRunSound(b, w, i - 1);
      CrashesIff(b[i - 1], w[i - 1]);
    }
    if !OverwroteBefore(b, w, i) {
      NoOverwriteNoCrash(b, w, i);
    }
    RunLosesIff(b, w, i);
  }

  // ------------------------------------------------------------------ answers

  /** Step `i` serves a Start of `c`: the loader runs the request, and answers it if `answers[i]`. */
  ghost predicate Serves(b: seq<Service>, w: seq<Step>, i: nat, c: LoaderId)
    requires Behavior(b, w)
  {
    i < |w| && w[i] == RunIo(c) && b[i].loaders[c].ioQueue[0] == RunSlot
  }

  /** The loader of `c` has a callback: each Start sets it, overwriting the one before, and each answer
      uses it up. */
  ghost predicate HasCallback(b: seq<Service>, w: seq<Step>, answers: seq<bool>, i: nat, c: LoaderId)
    requires Behavior(b, w) && |answers| == |w| && i <= |w|
  {
    i > 0 && (w[i - 1] == ClientStart(c)
              || (!(Serves(b, w, i - 1, c) && answers[i - 1]) && HasCallback(b, w, answers, i - 1, c)))
  }

  /** Step `i` answers without a callback. */
  ghost predicate CallsEmptyCallback(b: seq<Service>, w: seq<Step>, answers: seq<bool>, i: nat, c: LoaderId)
    requires Behavior(b, w) && |answers| == |w|
  {
    Serves(b, w, i, c) && answers[i] && !HasCallback(b, w, answers, i, c)
  }

  ghost predicate AnsweredSince(b: seq<Service>, w: seq<Step>, answers: seq<bool>, j: nat, i: nat, c: LoaderId)
    requires Behavior(b, w) && |answers| == |w|
  {
    exists k: nat :: j < k < i && k < |w| && Serves(b, w, k, c) && answers[k]
  }

  /** In every run, exactly when a serve that answers finds no callback: an earlier serve has answered
      since the last Start. */
  lemma {:induction false} CallbackIff(b: seq<Service>, w: seq<Step>, answers: seq<bool>, i: nat, c: LoaderId)
    requires Behavior(b, w) && |answers| == |w| && i <= |w|
    ensures HasCallback(b, w, answers, i, c) <==>
            exists j: nat :: j < i && w[j] == ClientStart(c) && !AnsweredSince(b, w, answers, j, i, c)
  {
    if i > 0 {
      var n := i - 1;
      CallbackIff(b, w, answers, n, c);
      forall j: nat | j < n
        ensures AnsweredSince(b, w, answers, j, i, c) <==>
                AnsweredSince(b, w, answers, j, n, c) || (Serves(b, w, n, c) && answers[n])
      {
        AnsweredStep(b, w, answers, j, n, c);
      }
      assert !AnsweredSince(b, w, answers, n, i, c);
    }
  }

  lemma AnsweredStep(b: seq<Service>, w: seq<Step>, answers: seq<bool>, j: nat, n: nat, c: LoaderId)
    requires Behavior(b, w) && |answers| == |w| && j < n < |w|
    ensures AnsweredSince(b, w, answers, j, n + 1, c) <==>
            AnsweredSince(b, w, answers, j, n, c) || (Serves(b, w, n, c) && answers[n])
  {
    if AnsweredSince(b, w, answers, j, n + 1, c) {
      var k: nat :| j < k < n + 1 && Serves(b, w, k, c) && answers[k];
    }
  }

  lemma {:induction false} ReturnKeepsCounts(s: Service, token: nat, c: LoaderId)
    requires c in s.loaders
    ensures var r := Return(s, token);
            c in r.loaders && r.loaders[c].starts == s.loaders[c].starts && r.loaders[c].served == s.loaders[c].served
    decreases |s.waiting|
  {
    if s.waiting != [] && s.waiting[0] !in s.loaders {
      ReturnKeepsCounts(Popped(s, token), |s.granted|, c);
    }
  }

  /** What a step does to the Starts made and served of a container. */
  lemma CountsStep(s: Service, step: Step, c: LoaderId)
    requires Enabled(s, step) && !Apply(s, step).crashed && c in Apply(s, step).loaders && c in s.loaders
    requires step.CreateLoader? ==> c != s.nextId
    ensures var k, m := s.loaders[c], Apply(s, step).loaders[c];
            && m.starts == k.starts + (if step == ClientStart(c) then 1 else 0)
            && m.served == k.served + (if step == RunIo(c) && k.ioQueue[0] == RunSlot then 1 else 0)
  {
    if step.RunMain? && s.mainQueue[0].owner in s.loaders {
      var o := s.mainQueue[0].owner;
      var q := s.(mainQueue := s.mainQueue[1..]);
      if s.loaders[o].onInactive.Some? {
        ReturnKeepsCounts(Releasing(q, o), s.loaders[o].onInactive.value, c);
        ReturnKeepsCounts(Joining(q, o), s.loaders[o].onInactive.value, c);
      }
    }
  }

  lemma ServedInOrder(s: Service, c: LoaderId)
    requires Orderly(s) && Enabled(s, RunIo(c)) && s.loaders[c].ioQueue[0] == RunSlot
    ensures s.loaders[c].starts == s.loaders[c].served + 1
  {
    assert Phase(s.loaders[c], Tasks(s.mainQueue, c), multiset(s.waiting)[c]);
    assert s.loaders[c].ioQueue[0] in multiset(s.loaders[c].ioQueue);
  }

  /** With one Start in flight at a time the Start that is not served has its callback. */
  lemma {:induction false} UnservedHasCallback(b: seq<Service>, w: seq<Step>, answers: seq<bool>, i: nat, c: LoaderId)
    requires Behavior(b, w) && OneStartInFlight(b, w) && |answers| == |w| && i < |b|
    requires c in b[i].loaders && b[i].loaders[c].starts != b[i].loaders[c].served
    ensures HasCallback(b, w, answers, i, c)
  {
    if i > 0 {
      EveryRunOrderly(b, w, i - 1);
      UnservedBefore(b[i - 1], w[i - 1], c);
      if w[i - 1] != ClientStart(c) {
        UnservedHasCallback(b, w, answers, i - 1, c);
      }
    }
  }

  /** A Start that is not served was just made, or was not served before either. */
  lemma UnservedBefore(s: Service, step: Step, c: LoaderId)
    requires Orderly(s) && Enabled(s, step) && NoneInFlight(s, step)
    requires c in Apply(s, step).loaders && Apply(s, step).loaders[c].starts != Apply(s, step).loaders[c].served
    ensures step == ClientStart(c) || (c in s.loaders && s.loaders[c].starts != s.loaders[c].served)
    ensures step == RunIo(c) ==> s.loaders[c].ioQueue[0] != RunSlot
  {
    CrashesIff(s, step);
    StepOrderly(s, step);
    if c !in s.loaders {
      NewLoader(s, step, c);
    } else {
      CountsStep(s, step, c);
      if step == RunIo(c) && s.loaders[c].ioQueue[0] == RunSlot {
        ServedInOrder(s, c);
      }
    }
  }

  lemma NewLoader(s: Service, step: Step, c: LoaderId)
    requires Sound(s) && Enabled(s, step) && c !in s.loaders && c in Apply(s, step).loaders
    ensures Apply(s, step).loaders[c].starts == Apply(s, step).loaders[c].served
  {
    if step.RunMain? && s.mainQueue[0].owner in s.loaders {
      var o := s.mainQueue[0].owner;
      var q := s.(mainQueue := s.mainQueue[1..]);
      if s.loaders[o].onInactive.Some? {
        ReturnKeepsLoaders(Releasing(q, o), s.loaders[o].onInactive.value);
        ReturnKeepsLoaders(Joining(q, o), s.loaders[o].onInactive.value);
      }
    }
  }

  /** So no answer finds the callback gone. */
  lemma EveryAnswerHasCallback(b: seq<Service>, w: seq<Step>, answers: seq<bool>, i: nat, c: LoaderId)
    requires Behavior(b, w) && OneStartInFlight(b, w) && |answers| == |w|
    ensures !CallsEmptyCallback(b, w, answers, i, c)
  {
    if Serves(b, w, i, c) {
      EveryRunOrderly(b, w, i);
      ServedInOrder(b[i], c);
      UnservedHasCallback(b, w, answers, i, c);
    }
  }

  // ------------------------------------------------------------------ two Starts in flight

  /** The service with one loader and nobody waiting. */
  function Alone(k: Container, queue: seq<MainTask>, granted: seq<LoaderId>, returned: seq<nat>): Service
    requires |granted| <= A.MAX_SLOTS + |returned| && |returned| <= |granted|
  {
    Service(A.MAX_SLOTS + |returned| - |granted|, [], map[0 := k], queue, granted, returned, 1, false)
  }

  lemma Replaced(k: Container, m: Container)
    ensures map[0 := k][0 := m] == map[0 := m]
  {
  }

  lemma GrantsAgain(k: Container, queue: seq<MainTask>, granted: seq<LoaderId>)
    requires queue != [] && queue[0] == RequestSlot(0) && |granted| < A.MAX_SLOTS
    ensures Apply(Alone(k, queue, granted, []), RunMain) ==
            Alone(k.(onInactive := Some(|granted|), ioQueue := k.ioQueue + [RunSlot]), queue[1..], granted + [0], [])
  {
    Replaced(k, k.(onInactive := Some(|granted|), ioQueue := k.ioQueue + [RunSlot]));
  }

  lemma BindsLoader(k: Container)
    requires k.running && k.ioQueue == [StartOnIo]
    ensures Apply(Alone(k, [], [], []), RunIo(0)) == Alone(k.(ioQueue := [], bound := true), [], [], [])
  {
    assert k.ioQueue[1..] == [];
    Replaced(k, k.(ioQueue := []));
    Replaced(k.(ioQueue := []), k.(ioQueue := [], bound := true));
  }

  lemma ServesSlot(k: Container, queue: seq<MainTask>, granted: seq<LoaderId>, rest: seq<IoTask>)
    requires k.running && k.bound && k.ioQueue == [RunSlot] + rest && |granted| <= A.MAX_SLOTS
    ensures Apply(Alone(k, queue, granted, []), RunIo(0)) ==
            Alone(k.(ioQueue := rest, served := k.served + 1), queue + [ReturnSlot(0)], granted, [])
  {
    assert k.ioQueue[1..] == rest;
    Replaced(k, k.(ioQueue := rest));
    Replaced(k.(ioQueue := rest), k.(ioQueue := rest, served := k.served + 1));
  }

  lemma ReturnsSlot(k: Container, queue: seq<MainTask>, token: nat)
    requires queue != [] && queue[0] == ReturnSlot(0) && k.onInactive == Some(token)
    ensures Apply(Alone(k, queue, [0, 0], []), RunMain) == Alone(k.(onInactive := None), queue[1..], [0, 0], [token])
  {
    Replaced(k, k.(onInactive := None));
  }

  lemma Extended(b: seq<Service>, w: seq<Step>, step: Step)
    requires Behavior(b, w) && Enabled(b[|w|], step)
    ensures Behavior(b + [Apply(b[|w|], step)], w + [step])
  {
    var c, v := b + [Apply(b[|w|], step)], w + [step];
    forall i | 0 <= i < |v| ensures Enabled(c[i], v[i]) && c[i + 1] == Apply(c[i], v[i]) {
      assert i < |w| ==> Enabled(b[i], w[i]);
    }
  }

  /** A bound loader that has made some Starts, none of them handled yet. */
  function Started(starts: nat): Service {
    Alone(Container(None, false, [], true, true, starts, 0), seq(starts, _ => RequestSlot(0)), [], [])
  }

  lemma StartsAgain(n: nat)
    ensures Enabled(Started(n), ClientStart(0)) && Apply(Started(n), ClientStart(0)) == Started(n + 1)
  {
    Replaced(Started(n).loaders[0], Started(n + 1).loaders[0]);
    assert Started(n).mainQueue + [RequestSlot(0)] == Started(n + 1).mainQueue;
  }

  lemma Bound() returns (b: seq<Service>, w: seq<Step>)
    ensures Behavior(b, w) && |w| == 2 && b[2] == Started(0)
  {
    var k := Container(None, false, [StartOnIo], true, false, 0, 0);
    assert Behavior([Initial()], []);
    assert Alone(k, [], [], []) == Apply(Initial(), CreateLoader);
    Extended([Initial()], [], CreateLoader);
    b, w := [Initial(), Alone(k, [], [], [])], [CreateLoader];
    assert Behavior(b, w);
    Extended(b, w, RunIo(0));
    BindsLoader(k);
    b, w := b + [Started(0)], w + [RunIo(0)];
  }

  lemma StartedTwice() returns (b: seq<Service>, w: seq<Step>)
    ensures Behavior(b, w) && |w| == 4 && b[4] == Started(2) && !NoneInFlight(b[3], w[3])
  {
    b, w := Bound();
    StartsAgain(0);
    Extended(b, w, ClientStart(0));
    b, w := b + [Started(1)], w + [ClientStart(0)];
    StartsAgain(1);
    Extended(b, w, ClientStart(0));
    b, w := b + [Started(2)], w + [ClientStart(0)];
  }

  lemma GrantedTwice()
    ensures var s := Started(2);
            && Enabled(s, RunMain) && Enabled(Apply(s, RunMain), RunMain)
            && Apply(Apply(s, RunMain), RunMain) ==
               Alone(Container(Some(1), false, [RunSlot, RunSlot], true, true, 2, 0), [], [0, 0], [])
  {
    var s := Started(2);
    var k := s.loaders[0];
    GrantsAgain(k, s.mainQueue, []);
    var q := s.mainQueue[1..];
    GrantsAgain(k.(onInactive := Some(0), ioQueue := [] + [RunSlot]), q, [] + [0]);
    assert q[1..] == [] && ([] + [0]) + [0] == [0, 0] && ([] + [RunSlot]) + [RunSlot] == [RunSlot, RunSlot];
  }

  /** Two Starts of one loader, both requests handled by the main thread before the IO thread runs
      the first: the second grant overwrites the first slot's closure, and that slot is lost. */
  lemma TwoStartsLoseASlot() returns (b: seq<Service>, w: seq<Step>)
    ensures Behavior(b, w) && |w| == 6 && Lost(b[6], 0)
    ensures !OneStartInFlight(b, w)
    ensures b[6] == Alone(Container(Some(1), false, [RunSlot, RunSlot], true, true, 2, 0), [], [0, 0], [])
  {
    b, w := StartedTwice();
    GrantedTwice();
    Extended(b, w, RunMain);
    ghost var b5 := b + [Apply(b[4], RunMain)];
    Extended(b5, w + [RunMain], RunMain);
    b, w := b5 + [Apply(b5[5], RunMain)], w + [RunMain] + [RunMain];
    assert !NoneInFlight(b[3], w[3]);
  }

  lemma ServedTwice(s: Service)
    requires s == Alone(Container(Some(1), false, [RunSlot, RunSlot], true, true, 2, 0), [], [0, 0], [])
    ensures Enabled(s, RunIo(0)) && Enabled(Apply(s, RunIo(0)), RunIo(0))
    ensures Apply(Apply(s, RunIo(0)), RunIo(0)) ==
            Alone(Container(Some(1), false, [], true, true, 2, 2), [ReturnSlot(0), ReturnSlot(0)], [0, 0], [])
  {
    var k := s.loaders[0];
    ServesSlot(k, [], [0, 0], [RunSlot]);
    ServesSlot(k.(ioQueue := [RunSlot], served := 1), [] + [ReturnSlot(0)], [0, 0], []);
    assert ([] + [ReturnSlot(0)]) + [ReturnSlot(0)] == [ReturnSlot(0), ReturnSlot(0)];
  }

  lemma SecondReturnCrashes(s: Service)
    requires s == Alone(Container(Some(1), false, [], true, true, 2, 2), [ReturnSlot(0), ReturnSlot(0)], [0, 0], [])
    ensures Enabled(s, RunMain) && Enabled(Apply(s, RunMain), RunMain) && Apply(Apply(s, RunMain), RunMain).crashed
  {
    ReturnsSlot(s.loaders[0], s.mainQueue, 1);
    assert s.mainQueue[1..] == [ReturnSlot(0)];
  }

  lemma TwoMore(b: seq<Service>, w: seq<Step>, first: Step, second: Step) returns (c: seq<Service>, v: seq<Step>)
    requires Behavior(b, w) && Enabled(b[|w|], first) && Enabled(Apply(b[|w|], first), second)
    ensures Behavior(c, v) && |v| == |w| + 2 && c[|v|] == Apply(Apply(b[|w|], first), second)
  {
    Extended(b, w, first);
    var d := b + [Apply(b[|w|], first)];
    Extended(d, w + [first], second);
    c, v := d + [Apply(d[|w| + 1], second)], w + [first] + [second];
  }

  /** The same run continued: both Starts are served, and the second return calls an empty closure. */
  lemma TwoStartsCrash() returns (b: seq<Service>, w: seq<Step>)
    ensures Behavior(b, w) && |w| == 10 && b[10].crashed
  {
    b, w := TwoStartsLoseASlot();
    ServedTwice(b[6]);
    b, w := TwoMore(b, w, RunIo(0), RunIo(0));
    SecondReturnCrashes(b[8]);
    b, w := TwoMore(b, w, RunMain, RunMain);
  }

  /** And before that, if both Starts are answered, the second answer finds the callback gone. */
  lemma TwoStartsAnswerTwice() returns (b: seq<Service>, w: seq<Step>)
    ensures Behavior(b, w) && |w| == 8 && CallsEmptyCallback(b, w, seq(8, _ => true), 7, 0)
  {
    var c, v := TwoStartsLoseASlot();
    ServedTwice(c[6]);
    Extended(c, v, RunIo(0));
    var d := c + [Apply(c[6], RunIo(0))];
    Extended(d, v + [RunIo(0)], RunIo(0));
    b, w := d + [Apply(d[7], RunIo(0))], v + [RunIo(0)] + [RunIo(0)];
    ServesSlot(c[6].loaders[0], [], [0, 0], [RunSlot]);
    assert Serves(b, w, 6, 0) && Serves(b, w, 7, 0);
    assert !HasCallback(b, w, seq(8, _ => true), 7, 0);
  }
}
