/** Consequences of the loader protocol for whole runs: the cascades refine the flat allocator,
    queues drain with every slot returned, and what goes wrong with two Starts in flight. */
module LoaderRuns {
  import opened Common
  import A = SlotAllocator
  import opened LoaderProtocol

  // ------------------------------------------------------------------ refinement

  function Abs(s: Service): A.Allocator<LoaderId> {
    A.Allocator(s.available, s.waiting, s.granted, |s.returned|)
  }

  function Repeat(n: nat): seq<A.Event<LoaderId>> {
    seq(n, _ => A.Returned)
  }

  /** A nested cascade of returns is a flat sequence of returns, each of a slot that is out. */
  lemma {:induction false} CascadeIsFlat(s: Service, token: nat)
    requires |s.returned| < |s.granted|
    ensures |Return(s, token).returned| > |s.returned|
    ensures var es := Repeat(|Return(s, token).returned| - |s.returned|);
            A.Legal(Abs(s), es) && A.Run(Abs(s), es) == Abs(Return(s, token))
    decreases |s.waiting|
  {
    if s.waiting == [] || s.waiting[0] in s.loaders {
      FlatStep(Abs(s));
      assert Repeat(1) == [A.Returned];
    } else {
      var g := Popped(s, token);
      CascadeIsFlat(g, |s.granted|);
      assert Abs(g) == A.Apply(Abs(s), A.Returned);
      OneMore(Abs(s), |Return(g, |s.granted|).returned| - |g.returned|);
    }
  }

  lemma OneMore(a: A.Allocator<LoaderId>, n: nat)
    requires A.MayReturn(a) && A.Legal(A.Apply(a, A.Returned), Repeat(n))
    ensures A.Legal(a, Repeat(n + 1)) && A.Run(a, Repeat(n + 1)) == A.Run(A.Apply(a, A.Returned), Repeat(n))
  {
    FlatStep(a);
    assert Repeat(n + 1) == [A.Returned] + Repeat(n);
    A.RunAppend(a, [A.Returned], Repeat(n));
    A.LegalAppend(a, [A.Returned], Repeat(n));
  }

  lemma FlatStep(a: A.Allocator<LoaderId>)
    requires A.MayReturn(a)
    ensures A.Run(a, [A.Returned]) == A.Apply(a, A.Returned) && A.Legal(a, [A.Returned])
  {
    var es: seq<A.Event<LoaderId>> := [A.Returned];
    assert es[..0] == [];
    assert A.Run(a, es[..0]) == a;
  }

  /** The allocator events of one step of the protocol. */
  function Events(s: Service, step: Step): seq<A.Event<LoaderId>>
    requires Enabled(s, step)
  {
    if step.RunMain? && s.mainQueue[0].RequestSlot? && s.mainQueue[0].owner in s.loaders then
      [A.Request(s.mainQueue[0].owner)]
    else
      var r := Apply(s, step);
      if |r.returned| < |s.returned| then [] else Repeat(|r.returned| - |s.returned|)
  }

  lemma NoEvents(a: A.Allocator<LoaderId>)
    ensures Repeat(0) == [] && A.Run(a, []) == a && A.Legal(a, [])
  {
  }

  lemma RequestRefines(s: Service, c: LoaderId)
    requires Enabled(s, RunMain) && s.mainQueue[0] == RequestSlot(c) && c in s.loaders
    ensures A.Legal(Abs(s), Events(s, RunMain))
    ensures A.Run(Abs(s), Events(s, RunMain)) == Abs(Apply(s, RunMain))
  {
    var es: seq<A.Event<LoaderId>> := [A.Request(c)];
    assert es[..0] == [];
    assert A.Run(Abs(s), es[..0]) == Abs(s);
  }

  lemma ReturnRefines(s: Service, c: LoaderId, token: nat)
    requires Sound(s) && Enabled(s, RunMain) && !s.mainQueue[0].RequestSlot? && s.mainQueue[0].owner == c
    requires c in s.loaders && s.loaders[c].onInactive == Some(token)
    ensures A.Legal(Abs(s), Events(s, RunMain))
    ensures A.Run(Abs(s), Events(s, RunMain)) == Abs(Apply(s, RunMain))
  {
    var q := s.(mainQueue := s.mainQueue[1..]);
    assert token < |s.granted| && token !in s.returned;
    MissingOne(s.returned, |s.granted|, token);
    if s.mainQueue[0].ReturnSlot? {
      var e := Releasing(q, c);
      CascadeIsFlat(e, token);
      FlatEvents(s, e, token);
    } else {
      assert Shape(s.loaders[c], Tasks(s.mainQueue, c));
      var j := Joining(q, c);
      CascadeIsFlat(j, token);
      FlatEvents(s, j, token);
    }
  }

  lemma FlatEvents(s: Service, e: Service, token: nat)
    requires Enabled(s, RunMain) && !s.mainQueue[0].RequestSlot? && Abs(s) == Abs(e)
    requires Abs(Apply(s, RunMain)) == Abs(Return(e, token)) && |Return(e, token).returned| > |e.returned|
    ensures Events(s, RunMain) == Repeat(|Return(e, token).returned| - |e.returned|)
  {
  }

  lemma StepRefines(s: Service, step: Step)
    requires Sound(s) && Enabled(s, step)
    ensures A.Legal(Abs(s), Events(s, step))
    ensures A.Run(Abs(s), Events(s, step)) == Abs(Apply(s, step))
  {
    if step.RunMain? {
      var c := s.mainQueue[0].owner;
      assert c in s.loaders;
      if s.mainQueue[0].RequestSlot? {
        RequestRefines(s, c);
      } else if s.loaders[c].onInactive.Some? {
        ReturnRefines(s, c, s.loaders[c].onInactive.value);
      } else {
        NoEvents(Abs(s));
      }
    } else {
      NoEvents(Abs(s));
      if step.RunIo? {
        RunIoSound(s, step.c);
      }
    }
  }

  ghost function AllEvents(b: seq<Service>, w: seq<Step>, i: nat): seq<A.Event<LoaderId>>
    requires Behavior(b, w) && i < |b|
  {
    if i == 0 then [] else AllEvents(b, w, i - 1) + Events(b[i - 1], w[i - 1])
  }

  /** Every run of the protocol, cascades included, is a legal run of the flat allocator, so that
      slots are granted strictly in the order in which the main thread received the requests. */
  lemma {:induction false} RunsRefine(b: seq<Service>, w: seq<Step>, i: nat)
    requires Behavior(b, w) && i < |b|
    ensures A.Legal(A.Initial<LoaderId>(), AllEvents(b, w, i))
    ensures A.Run(A.Initial<LoaderId>(), AllEvents(b, w, i)) == Abs(b[i])
    ensures b[i].granted + b[i].waiting == A.Arrivals(AllEvents(b, w, i))
  {
    if i > 0 {
      RunsRefine(b, w, i - 1);
      EveryRunSound(b, w, i - 1);
      StepRefines(b[i - 1], w[i - 1]);
      A.RunAppend(A.Initial<LoaderId>(), AllEvents(b, w, i - 1), Events(b[i - 1], w[i - 1]));
      A.LegalAppend(A.Initial<LoaderId>(), AllEvents(b, w, i - 1), Events(b[i - 1], w[i - 1]));
    }
    A.RunsStayBalanced(AllEvents(b, w, i));
  }

  // ------------------------------------------------------------------ draining

  /** No task is left for any thread to run. */
  ghost predicate Quiet(s: Service) {
    s.mainQueue == [] && forall c :: c in s.loaders && s.loaders[c].running ==> s.loaders[c].ioQueue == []
  }

  predicate IsTask(step: Step) {
    step.RunMain? || step.RunIo?
  }

  lemma {:induction false} AllPresent(r: seq<nat>, n: nat)
    requires forall t :: 0 <= t < n ==> t in r
    ensures |r| >= n
    decreases n
  {
    if n > 0 {
      assert n - 1 in r;
      var i :| 0 <= i < |r| && r[i] == n - 1;
      var rest := r[..i] + r[i + 1..];
      forall t | 0 <= t < n - 1 ensures t in rest {
        assert t in r;
        var j :| 0 <= j < |r| && r[j] == t;
        assert if j < i then rest[j] == t else rest[j - 1] == t;
      }
      AllPresent(rest, n - 1);
    }
  }

  lemma {:induction false} OccursOnce(r: seq<nat>, t: nat)
    requires NoDuplicates(r) && t in r
    ensures multiset(r)[t] == 1
  {
    var n := |r| - 1;
    assert r == r[..n] + [r[n]];
    if r[n] == t {
      assert t !in r[..n];
    } else {
      assert t in r[..n];
      OccursOnce(r[..n], t);
    }
  }

  lemma QuietHoldsNothing(s: Service, c: LoaderId)
    requires Orderly(s) && Quiet(s) && c in s.loaders
    ensures s.loaders[c].onInactive.None?
    ensures s.waiting == [] ==> s.loaders[c].served == s.loaders[c].starts
  {
    assert Shape(s.loaders[c], Tasks(s.mainQueue, c));
    assert Phase(s.loaders[c], Tasks(s.mainQueue, c), multiset(s.waiting)[c]);
  }

  /** Every Start of every loader that is left has been served. */
  ghost predicate AllServed(s: Service) {
    forall c :: c in s.loaders ==> s.loaders[c].served == s.loaders[c].starts
  }

  /** Once the queues have drained, every slot ever granted has been returned exactly once, all
      slots are free again, nobody is left waiting and every Start has been served. */
  lemma QuietMeansReturned(s: Service)
    requires Orderly(s) && Quiet(s)
    ensures s.waiting == [] && s.available == A.MAX_SLOTS && AllServed(s)
    ensures forall t: nat :: t < |s.granted| ==> multiset(s.returned)[t] == 1
  {
    forall t: nat | t < |s.granted| ensures t in s.returned && multiset(s.returned)[t] == 1 {
      if t !in s.returned {
        QuietHoldsNothing(s, s.granted[t]);
      }
      OccursOnce(s.returned, t);
    }
    AllPresent(s.returned, |s.granted|);
    forall c | c in s.loaders ensures s.loaders[c].served == s.loaders[c].starts {
      QuietHoldsNothing(s, c);
    }
  }

  /** Nothing blocks: while a task is left, some thread can run its next task. */
  lemma SomeTaskRuns(s: Service)
    requires Sound(s) && !s.crashed && !Quiet(s)
    ensures exists step :: IsTask(step) && Enabled(s, step)
  {
    if s.mainQueue != [] {
      var c := s.mainQueue[0].owner;
      assert c in s.loaders && Shape(s.loaders[c], Tasks(s.mainQueue, c));
      if s.mainQueue[0].JoinAndNotify? {
        JoinIsLast(s.loaders[c], Tasks(s.mainQueue, c));
      }
      assert Enabled(s, RunMain);
    } else {
      var c :| c in s.loaders && s.loaders[c].running && s.loaders[c].ioQueue != [];
      assert Enabled(s, RunIo(c));
    }
  }

  // A request still to be handled is worth more than the wait, the slot task and the return it
  // may turn into.
  function MainLoad(q: seq<MainTask>): nat {
    if q == [] then 0 else (if q[0].RequestSlot? then 4 else 1) + MainLoad(q[1..])
  }

  function QueueLoad(q: seq<IoTask>): nat {
    if q == [] then 0 else (if q[0] == RunSlot then 2 else 1) + QueueLoad(q[1..])
  }

  ghost function IoLoad(m: map<LoaderId, Container>): nat
    decreases |m|
  {
    if m == map[] then 0
    else
      var c :| c in m;
      QueueLoad(m[c].ioQueue) + IoLoad(m - {c})
  }

  ghost function Load(s: Service): nat {
    MainLoad(s.mainQueue) + 3 * |s.waiting| + IoLoad(s.loaders)
  }

  lemma {:induction false} MainLoadAppend(q: seq<MainTask>, t: MainTask)
    ensures MainLoad(q + [t]) == MainLoad(q) + if t.RequestSlot? then 4 else 1
  {
    if q == [] {
      assert (q + [t])[1..] == [];
    } else {
      assert (q + [t])[1..] == q[1..] + [t];
      MainLoadAppend(q[1..], t);
    }
  }

  lemma {:induction false} QueueLoadAppend(q: seq<IoTask>)
    ensures QueueLoad(q + [RunSlot]) == QueueLoad(q) + 2
  {
    if q == [] {
      assert (q + [RunSlot])[1..] == [];
    } else {
      assert (q + [RunSlot])[1..] == q[1..] + [RunSlot];
      QueueLoadAppend(q[1..]);
    }
  }

  lemma {:induction false} IoLoadOf(m: map<LoaderId, Container>, c: LoaderId)
    requires c in m
    ensures IoLoad(m) == QueueLoad(m[c].ioQueue) + IoLoad(m - {c})
    decreases |m|
  {
    var d :| d in m && IoLoad(m) == QueueLoad(m[d].ioQueue) + IoLoad(m - {d});
    if d != c {
      IoLoadOf(m - {d}, c);
      IoLoadOf(m - {c}, d);
      assert m - {d} - {c} == m - {c} - {d};
    }
  }

  lemma IoLoadUpdate(m: map<LoaderId, Container>, c: LoaderId, k: Container)
    requires c in m
    ensures IoLoad(m[c := k]) + QueueLoad(m[c].ioQueue) == IoLoad(m) + QueueLoad(k.ioQueue)
  {
    IoLoadOf(m, c);
    IoLoadOf(m[c := k], c);
    assert m[c := k] - {c} == m - {c};
  }

  lemma DeliverLoad(s: Service, c: LoaderId, token: nat)
    requires c in s.loaders
    ensures Load(Deliver(s, c, token)) == Load(s) + 2
  {
    var k := s.loaders[c];
    IoLoadUpdate(s.loaders, c, k.(onInactive := Some(token), ioQueue := k.ioQueue + [RunSlot]));
    QueueLoadAppend(k.ioQueue);
  }

  lemma {:induction false} ReturnLoad(s: Service, token: nat)
    ensures Load(Return(s, token)) <= Load(s)
    decreases |s.waiting|
  {
    if s.waiting != [] {
      var c, g := s.waiting[0], Popped(s, token);
      if c in s.loaders {
        DeliverLoad(g, c, |s.granted|);
      } else {
        ReturnLoad(g, |s.granted|);
      }
    }
  }

  lemma RequestShrinksLoad(s: Service, c: LoaderId)
    requires s.mainQueue != [] && s.mainQueue[0] == RequestSlot(c) && c in s.loaders
    ensures Load(Request(s.(mainQueue := s.mainQueue[1..]), c)) < Load(s)
  {
    var q := s.(mainQueue := s.mainQueue[1..]);
    if s.available > 0 {
      DeliverLoad(q.(available := s.available - 1, granted := s.granted + [c]), c, |s.granted|);
    }
  }

  lemma ReleaseShrinksLoad(s: Service, c: LoaderId, token: nat)
    requires s.mainQueue != [] && s.mainQueue[0] == ReturnSlot(c) && c in s.loaders
    ensures Load(Return(Releasing(s.(mainQueue := s.mainQueue[1..]), c), token)) < Load(s)
  {
    IoLoadUpdate(s.loaders, c, s.loaders[c].(onInactive := None));
    ReturnLoad(Releasing(s.(mainQueue := s.mainQueue[1..]), c), token);
  }

  lemma JoinShrinksLoad(s: Service, c: LoaderId)
    requires s.mainQueue != [] && s.mainQueue[0] == JoinAndNotify(c) && c in s.loaders
    ensures Load(Join(s.(mainQueue := s.mainQueue[1..]), c)) < Load(s)
  {
    var q := s.(mainQueue := s.mainQueue[1..]);
    var k := s.loaders[c];
    if !k.joined {
      var j := Joining(q, c);
      IoLoadUpdate(s.loaders, c, k.(joined := true));
      if k.onInactive.Some? {
        ReturnLoad(j, k.onInactive.value);
        ReturnKeepsLoaders(j, k.onInactive.value);
        IoLoadOf(Return(j, k.onInactive.value).loaders, c);
      } else {
        IoLoadOf(j.loaders, c);
      }
    }
  }

  lemma IoShrinksLoad(s: Service, c: LoaderId)
    requires Enabled(s, RunIo(c)) && !Apply(s, RunIo(c)).crashed
    ensures Load(Apply(s, RunIo(c))) < Load(s)
  {
    var r := Apply(s, RunIo(c));
    assert r.loaders == s.loaders[c := r.loaders[c]];
    IoLoadUpdate(s.loaders, c, r.loaders[c]);
    MainLoadAppend(s.mainQueue, ReturnSlot(c));
  }

  /** Every task run makes the remaining work smaller, cascades included. */
  lemma TaskShrinksLoad(s: Service, step: Step)
    requires Ids(s) && Enabled(s, step) && IsTask(step) && !Apply(s, step).crashed
    ensures Load(Apply(s, step)) < Load(s)
  {
    if step.RunMain? {
      var c := s.mainQueue[0].owner;
      assert c in s.loaders;
      match s.mainQueue[0]
      case RequestSlot(_) => RequestShrinksLoad(s, c);
      case ReturnSlot(_) => ReleaseShrinksLoad(s, c, s.loaders[c].onInactive.value);
      case JoinAndNotify(_) => JoinShrinksLoad(s, c);
    } else {
      IoShrinksLoad(s, step.c);
    }
  }

  lemma {:induction false} ReturnKeepsLoaders(s: Service, token: nat)
    ensures var r := Return(s, token);
            r.loaders.Keys == s.loaders.Keys && r.mainQueue == s.mainQueue && r.crashed == s.crashed
    decreases |s.waiting|
  {
    if s.waiting != [] && s.waiting[0] !in s.loaders {
      ReturnKeepsLoaders(Popped(s, token), |s.granted|);
    }
  }

  /** Running tasks only, from any state reached with one Start in flight, at most Load(s) of them
      can run; when none is left to run every slot granted has been returned exactly once and every
      Start has been served. */
  lemma {:induction false} TasksDrain(s: Service, b: seq<Service>, w: seq<Step>)
    requires Orderly(s) && |b| == |w| + 1 && b[0] == s
    requires forall i :: 0 <= i < |w| ==> IsTask(w[i]) && Enabled(b[i], w[i]) && b[i + 1] == Apply(b[i], w[i])
    ensures |w| + Load(b[|w|]) <= Load(s)
    ensures Orderly(b[|w|])
    ensures (forall step :: IsTask(step) ==> !Enabled(b[|w|], step)) ==>
              && b[|w|].available == A.MAX_SLOTS && AllServed(b[|w|])
              && forall t: nat :: t < |b[|w|].granted| ==> multiset(b[|w|].returned)[t] == 1
    decreases |w|
  {
    if w != [] {
      var n := |w| - 1;
      TasksDrain(s, b[..n + 1], w[..n]);
      assert b[..n + 1][n] == b[n];
      StepOrderly(b[n], w[n]);
      TaskShrinksLoad(b[n], w[n]);
    }
    if forall step :: IsTask(step) ==> !Enabled(b[|w|], step) {
      if !Quiet(b[|w|]) {
        SomeTaskRuns(b[|w|]);
      }
      QuietMeansReturned(b[|w|]);
    }
  }

  // ------------------------------------------------------------------ two Starts in flight

  /** The slot is out, but no closure that could return it is left. */
  ghost predicate Lost(s: Service, token: nat) {
    token < |s.granted| && token !in s.returned
    && forall c :: c in s.loaders ==> s.loaders[c].onInactive != Some(token)
  }

  ghost predicate SomeLost(s: Service) {
    exists token :: Lost(s, token)
  }

  lemma {:induction false} ReturnNeverFinds(s: Service, other: nat, token: nat)
    requires Lost(s, token) && other != token
    ensures Lost(Return(s, other), token)
    decreases |s.waiting|
  {
    if s.waiting != [] && s.waiting[0] !in s.loaders {
      ReturnNeverFinds(Popped(s, other), |s.granted|, token);
    }
  }

  /** A step does not find a lost slot again. */
  lemma LostStays(s: Service, step: Step, token: nat)
    requires Enabled(s, step) && Lost(s, token)
    ensures Lost(Apply(s, step), token)
  {
    if step.RunMain? {
      var q := s.(mainQueue := s.mainQueue[1..]);
      var c := s.mainQueue[0].owner;
      if c in s.loaders && s.loaders[c].onInactive.Some? {
        var u := s.loaders[c].onInactive.value;
        if s.mainQueue[0].ReturnSlot? {
          ReturnNeverFinds(Releasing(q, c), u, token);
        } else if s.mainQueue[0].JoinAndNotify? {
          ReturnNeverFinds(Joining(q, c), u, token);
        }
      }
    }
  }

  /** The first container in the queue that has not been destroyed. */
  function FirstLive(w: seq<LoaderId>, live: set<LoaderId>): Option<LoaderId> {
    if w == [] then None else if w[0] in live then Some(w[0]) else FirstLive(w[1..], live)
  }

  /** The container that a step grants a slot to. */
  function Grantee(s: Service, step: Step): Option<LoaderId>
    requires Enabled(s, step)
  {
    if !step.RunMain? || s.mainQueue[0].owner !in s.loaders then None
    else
      var c := s.mainQueue[0].owner;
      var k := s.loaders[c];
      match s.mainQueue[0]
      case RequestSlot(_) => if s.available > 0 then Some(c) else None
      case ReturnSlot(_) => if k.onInactive.Some? then FirstLive(s.waiting, s.loaders.Keys) else None
      case JoinAndNotify(_) =>
        if k.onInactive.Some? && !k.joined then FirstLive(s.waiting, s.loaders.Keys) else None
  }

  /** The step grants to a container whose `on_inactive` is in use: it still holds a slot that this
      step does not return, or it is being destroyed. */
  predicate Overwrites(s: Service, step: Step)
    requires Enabled(s, step)
  {
    var g := Grantee(s, step);
    && g.Some?
    && g.value in s.loaders
    && s.loaders[g.value].onInactive.Some?
    && !(s.mainQueue[0].ReturnSlot? && s.mainQueue[0].owner == g.value)
  }

  /** What a cascade does to the containers: the first live waiter gets the last slot granted,
      every slot granted before it in the cascade has been returned. */
  lemma {:induction false} ReturnGrants(s: Service, token: nat)
    requires token < |s.granted| && forall t :: t in s.returned ==> t < |s.granted|
    ensures Granted(s, token, Return(s, token), FirstLive(s.waiting, s.loaders.Keys))
    decreases |s.waiting|
  {
    if s.waiting != [] && s.waiting[0] !in s.loaders {
      ReturnGrants(Popped(s, token), |s.granted|);
    }
  }

  /** The outcome of a return of which `f` is the first live waiter. */
  ghost predicate Granted(s: Service, token: nat, r: Service, f: Option<LoaderId>) {
    && s.granted <= r.granted
    && (forall t :: t in s.returned + [token] ==> t in r.returned)
    && (forall t :: t in r.returned ==> t in s.returned || t == token || t >= |s.granted|)
    && (f.None? ==> r.loaders == s.loaders && forall t :: |s.granted| <= t < |r.granted| ==> t in r.returned)
    && (f.Some? ==>
          && f.value in s.loaders && |r.granted| > |s.granted|
          && r.granted[|r.granted| - 1] == f.value
          && r.loaders == Deliver(s, f.value, |r.granted| - 1).loaders
          && |r.granted| - 1 !in r.returned
          && (forall t :: |s.granted| <= t < |r.granted| - 1 ==> t in r.returned))
  }

  lemma GrantsAccounted(s: Service, token: nat, r: Service, f: Option<LoaderId>)
    requires token < |s.granted| && Accounted(s, {token}) && Granted(s, token, r, f)
    requires f.Some? ==> f.value in s.loaders && s.loaders[f.value].onInactive.None?
    ensures Accounted(r, {})
  {
    forall t | 0 <= t < |r.granted| && t !in r.returned
      ensures r.granted[t] in r.loaders && r.loaders[r.granted[t]].onInactive == Some(t)
    {
      if t < |s.granted| {
        assert t !in s.returned + [token];
        assert s.granted[t] == r.granted[t];
      }
    }
  }

  lemma ReturnKeepsAccount(s: Service, token: nat)
    requires token < |s.granted| && Accounted(s, {token})
    requires forall t :: t in s.returned ==> t < |s.granted|
    requires var f := FirstLive(s.waiting, s.loaders.Keys);
             f.Some? ==> f.value in s.loaders && s.loaders[f.value].onInactive.None?
    ensures Accounted(Return(s, token), {})
  {
    ReturnGrants(s, token);
    GrantsAccounted(s, token, Return(s, token), FirstLive(s.waiting, s.loaders.Keys));
  }

  lemma ReturnDropsSlot(s: Service, token: nat, f: LoaderId)
    requires token < |s.granted| && Holders(s, {})
    requires forall t :: t in s.returned ==> t < |s.granted|
    requires FirstLive(s.waiting, s.loaders.Keys) == Some(f) && f in s.loaders
    requires s.loaders[f].onInactive.Some? && s.loaders[f].onInactive != Some(token)
    ensures Lost(Return(s, token), s.loaders[f].onInactive.value)
  {
    var u := s.loaders[f].onInactive.value;
    var r := Return(s, token);
    ReturnGrants(s, token);
    assert u < |s.granted| && u !in s.returned && s.granted[u] == f;
    forall c | c in r.loaders ensures r.loaders[c].onInactive != Some(u) {
      if c != f && s.loaders[c].onInactive.Some? {
        assert s.granted[s.loaders[c].onInactive.value] == c;
      }
    }
  }

  lemma NothingLost(s: Service)
    requires Accounted(s, {})
    ensures !SomeLost(s)
  {
  }

  lemma RequestLoses(s: Service, c: LoaderId)
    requires Holders(s, {}) && Accounted(s, {}) && c in s.loaders
    ensures SomeLost(Request(s, c)) <==> s.available > 0 && s.loaders[c].onInactive.Some?
  {
    var r := Request(s, c);
    if s.available > 0 && s.loaders[c].onInactive.Some? {
      var u := s.loaders[c].onInactive.value;
      assert u < |s.granted| && u !in s.returned && s.granted[u] == c;
      forall d | d in r.loaders ensures r.loaders[d].onInactive != Some(u) {
        if d != c && s.loaders[d].onInactive.Some? {
          assert s.granted[s.loaders[d].onInactive.value] == d;
        }
      }
      assert Lost(r, u);
    } else {
      assert Accounted(r, {});
      NothingLost(r);
    }
  }

  lemma ReleaseLoses(s: Service, c: LoaderId)
    requires Holders(s, {}) && Accounted(s, {}) && forall t :: t in s.returned ==> t < |s.granted|
    requires Enabled(s, RunMain) && s.mainQueue[0] == ReturnSlot(c)
    requires c in s.loaders && s.loaders[c].onInactive.Some?
    ensures SomeLost(Apply(s, RunMain)) <==> Overwrites(s, RunMain)
  {
    var token := s.loaders[c].onInactive.value;
    var e := Releasing(s.(mainQueue := s.mainQueue[1..]), c);
    var r := Apply(s, RunMain);
    assert token < |s.granted| && s.granted[token] == c;
    ReleasingAccounted(s, c);
    assert e.loaders.Keys == s.loaders.Keys;
    var f := FirstLive(s.waiting, s.loaders.Keys);
    FirstLiveLives(s.waiting, s.loaders.Keys);
    if f.Some? && e.loaders[f.value].onInactive.Some? {
      assert Holders(e, {});
      ReturnDropsSlot(e, token, f.value);
      assert Lost(r, e.loaders[f.value].onInactive.value);
    } else {
      ReturnKeepsAccount(e, token);
      NothingLost(r);
    }
  }

  lemma FirstLiveLives(w: seq<LoaderId>, live: set<LoaderId>)
    ensures FirstLive(w, live).Some? ==> FirstLive(w, live).value in live
  {
  }

  lemma EraseKeepsAccount(r: Service, c: LoaderId)
    requires Accounted(r, {}) && c in r.loaders
    requires r.loaders[c].onInactive.Some? ==> r.loaders[c].onInactive.value in r.returned
    ensures Accounted(r.(loaders := r.loaders - {c}), {})
  {
  }

  /** A slot granted to the container that is being destroyed goes with it. */
  lemma RegrantLost(j: Service, token: nat, c: LoaderId)
    requires token < |j.granted| && Holders(j, {c})
    requires forall t :: t in j.returned ==> t < |j.granted|
    requires FirstLive(j.waiting, j.loaders.Keys) == Some(c)
    ensures var r := Return(j, token);
            r.granted != [] && Lost(r.(loaders := r.loaders - {c}), |r.granted| - 1)
  {
    ReturnGrants(j, token);
  }

  lemma JoinLoses(j: Service, token: nat, c: LoaderId)
    requires Holders(j, {}) && Accounted(j, {}) && forall t :: t in j.returned ==> t < |j.granted|
    requires c in j.loaders && j.loaders[c].onInactive == Some(token)
    ensures var r := Return(j, token);
            var f := FirstLive(j.waiting, j.loaders.Keys);
            SomeLost(r.(loaders := r.loaders - {c})) <==>
            f.Some? && f.value in j.loaders && j.loaders[f.value].onInactive.Some?
  {
    var f := FirstLive(j.waiting, j.loaders.Keys);
    var r := Return(j, token);
    var e := r.(loaders := r.loaders - {c});
    assert token < |j.granted| && j.granted[token] == c;
    FirstLiveLives(j.waiting, j.loaders.Keys);
    if f == Some(c) {
      RegrantLost(j, token, c);
      assert Lost(e, |r.granted| - 1);
    } else if f.Some? && j.loaders[f.value].onInactive.Some? {
      var u := j.loaders[f.value].onInactive.value;
      assert j.granted[u] == f.value;
      ReturnDropsSlot(j, token, f.value);
      assert Lost(e, u);
    } else {
      JoinKeepsAccount(j, token, c);
      NothingLost(e);
    }
  }

  lemma HolderKept(j: Service, token: nat, r: Service, f: Option<LoaderId>, c: LoaderId)
    requires Granted(j, token, r, f) && c in j.loaders && j.loaders[c].onInactive == Some(token)
    requires f.Some? ==> f.value in j.loaders && j.loaders[f.value].onInactive.None?
    ensures c in r.loaders && r.loaders[c].onInactive == Some(token) && token in r.returned
  {
    assert token in j.returned + [token];
  }

  lemma JoinKeepsAccount(j: Service, token: nat, c: LoaderId)
    requires token < |j.granted| && Accounted(j, {token}) && forall t :: t in j.returned ==> t < |j.granted|
    requires c in j.loaders && j.loaders[c].onInactive == Some(token)
    requires var f := FirstLive(j.waiting, j.loaders.Keys);
             f.Some? ==> f.value in j.loaders && j.loaders[f.value].onInactive.None?
    ensures var r := Return(j, token); Accounted(r.(loaders := r.loaders - {c}), {})
  {
    ReturnGrants(j, token);
    JoinedAccount(j, token, Return(j, token), FirstLive(j.waiting, j.loaders.Keys), c);
  }

  lemma JoinedAccount(j: Service, token: nat, r: Service, f: Option<LoaderId>, c: LoaderId)
    requires token < |j.granted| && Accounted(j, {token}) && Granted(j, token, r, f)
    requires c in j.loaders && j.loaders[c].onInactive == Some(token)
    requires f.Some? ==> f.value in j.loaders && j.loaders[f.value].onInactive.None?
    ensures Accounted(r.(loaders := r.loaders - {c}), {})
  {
    GrantsAccounted(j, token, r, f);
    HolderKept(j, token, r, f, c);
    EraseKeepsAccount(r, c);
  }

  lemma RequestStepLoses(s: Service, c: LoaderId)
    requires Holders(s, {}) && Accounted(s, {}) && c in s.loaders
    requires Enabled(s, RunMain) && s.mainQueue[0] == RequestSlot(c)
    ensures SomeLost(Apply(s, RunMain)) <==> Overwrites(s, RunMain)
  {
    var q := s.(mainQueue := s.mainQueue[1..]);
    assert Holders(q, {}) && Accounted(q, {});
    RequestLoses(q, c);
    assert Apply(s, RunMain) == Request(q, c);
  }

  lemma JoinStepLoses(s: Service, c: LoaderId)
    requires Holders(s, {}) && Accounted(s, {}) && forall t :: t in s.returned ==> t < |s.granted|
    requires Enabled(s, RunMain) && s.mainQueue[0] == JoinAndNotify(c) && c in s.loaders
    requires s.loaders[c].onInactive.Some? && !s.loaders[c].joined
    ensures SomeLost(Apply(s, RunMain)) <==> Overwrites(s, RunMain)
  {
    var j := Joining(s.(mainQueue := s.mainQueue[1..]), c);
    assert j.loaders.Keys == s.loaders.Keys;
    assert Holders(j, {}) && Accounted(j, {});
    JoinLoses(j, s.loaders[c].onInactive.value, c);
    FirstLiveLives(s.waiting, s.loaders.Keys);
    var f := FirstLive(s.waiting, s.loaders.Keys);
    assert Overwrites(s, RunMain) <==> f.Some? && j.loaders[f.value].onInactive.Some?;
    var r := Return(j, s.loaders[c].onInactive.value);
    var e := r.(loaders := r.loaders - {c});
    assert SomeLost(e) <==> Overwrites(s, RunMain);
    assert Apply(s, RunMain) == e;
  }

  /** Exactly when a step loses a slot: when it grants to a container that is still holding one
      (or that is being destroyed). Such grants need two Starts in flight: see
      EveryRunOrderly. */
  lemma LosesIffOverwrites(s: Service, step: Step)
    requires Sound(s) && Accounted(s, {}) && Enabled(s, step)
    ensures SomeLost(Apply(s, step)) <==> Overwrites(s, step)
  {
    if step.RunMain? {
      var c := s.mainQueue[0].owner;
      assert c in s.loaders && Shape(s.loaders[c], Tasks(s.mainQueue, c));
      if s.mainQueue[0].RequestSlot? {
        RequestStepLoses(s, c);
      } else if s.loaders[c].onInactive.None? {
        IdleMainTaskKeeps(s, c);
      } else if s.mainQueue[0].ReturnSlot? {
        ReleaseLoses(s, c);
      } else {
        JoinStepLoses(s, c);
      }
    } else {
      OtherStepKeeps(s, step);
    }
  }

  lemma IdleMainTaskKeeps(s: Service, c: LoaderId)
    requires Accounted(s, {}) && Enabled(s, RunMain) && s.mainQueue[0].owner == c && c in s.loaders
    requires !s.mainQueue[0].RequestSlot? && s.loaders[c].onInactive.None?
    ensures !SomeLost(Apply(s, RunMain))
  {
    assert Accounted(Apply(s, RunMain), {});
  }

  lemma OtherStepKeeps(s: Service, step: Step)
    requires Accounted(s, {}) && Enabled(s, step) && !step.RunMain?
    requires forall c :: c in s.loaders ==> c < s.nextId
    ensures !SomeLost(Apply(s, step))
  {
    assert Accounted(Apply(s, step), {});
  }
}
