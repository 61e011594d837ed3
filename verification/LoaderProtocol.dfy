/** The message-passing protocol between the HTTP service (main thread) and its loader containers
    (one IO thread each), as a step relation over the main task queue and the IO task queues.

    A weak pointer to a container is valid exactly while the container is in `loaders`.
    Every grant is numbered (its index in `granted`) and its `on_inactive` closure carries that
    number, so that "returned exactly once" can be said of each slot granted. */
module LoaderProtocol {
  import opened Common
  import A = SlotAllocator

  type LoaderId = nat

  /** StartOnIo binds the loader; RunSlot is the posted task that runs the slot request. */
  datatype IoTask = StartOnIo | RunSlot

  datatype MainTask =
    | RequestSlot(owner: LoaderId)
    | ReturnSlot(owner: LoaderId)
    | JoinAndNotify(owner: LoaderId)

  /** `running` says that the IO loop has not been told to quit, `bound` that the loader and its
      binding exist. `starts` and `served` are history: calls of Start, and slot requests run. */
  datatype Container = Container(onInactive: Option<nat>, joined: bool, ioQueue: seq<IoTask>,
                                 running: bool, bound: bool, starts: nat, served: nat)

  datatype Service = Service(available: nat, waiting: seq<LoaderId>, loaders: map<LoaderId, Container>,
                             mainQueue: seq<MainTask>, granted: seq<LoaderId>, returned: seq<nat>,
                             nextId: LoaderId, crashed: bool)

  function Initial(): Service {
    Service(A.MAX_SLOTS, [], map[], [], [], [], 0, false)
  }

  // ------------------------------------------------------------------ the code of the tasks

  /** The container's grant callback when its weak pointer is still valid. */
  function Deliver(s: Service, c: LoaderId, token: nat): Service
    requires c in s.loaders
  {
    var k := s.loaders[c];
    s.(loaders := s.loaders[c := k.(onInactive := Some(token), ioQueue := k.ioQueue + [RunSlot])])
  }

  /** `OnSlotReturned`, including the returns made at once by grants to destroyed containers. */
  function Return(s: Service, token: nat): Service
    decreases |s.waiting|
  {
    var r := s.(returned := s.returned + [token]);
    if s.waiting == [] then r.(available := s.available + 1)
    else
      var c := s.waiting[0];
      var g := r.(waiting := s.waiting[1..], granted := s.granted + [c]);
      if c in s.loaders then Deliver(g, c, |s.granted|) else Return(g, |s.granted|)
  }

  /** The service's `RequestNetworkSlot`, called for a live container. */
  function Request(s: Service, c: LoaderId): Service
    requires c in s.loaders
  {
    if s.available == 0 then s.(waiting := s.waiting + [c])
    else Deliver(s.(available := s.available - 1, granted := s.granted + [c]), c, |s.granted|)
  }

  /** `JoinAndNotify`: gives back a slot still held, then has the container erased. */
  function Join(s: Service, c: LoaderId): Service
    requires c in s.loaders
  {
    var k := s.loaders[c];
    if k.joined then s
    else
      var j := s.(loaders := s.loaders[c := k.(joined := true)]);
      var r := if k.onInactive.Some? then Return(j, k.onInactive.value) else j;
      r.(loaders := r.loaders - {c})
  }

  /** The main thread runs `task`. Calling an empty closure or a method of a destroyed container
      is a crash. */
  function RunMainTask(s: Service, task: MainTask): Service {
    var c := task.owner;
    match task
    case RequestSlot(_) => if c in s.loaders then Request(s, c) else s
    case ReturnSlot(_) =>
      if c !in s.loaders then s
      else
        var k := s.loaders[c];
        if k.onInactive.None? then s.(crashed := true)
        else Return(s.(loaders := s.loaders[c := k.(onInactive := None)]), k.onInactive.value)
    case JoinAndNotify(_) => if c in s.loaders then Join(s, c) else s.(crashed := true)
  }

  /** The IO thread of `c` runs `task`; a slot request run without a loader is a crash. */
  function RunIoTask(s: Service, c: LoaderId, task: IoTask): Service
    requires c in s.loaders
  {
    var k := s.loaders[c];
    match task
    case StartOnIo => s.(loaders := s.loaders[c := k.(bound := true)])
    case RunSlot =>
      if !k.bound then s.(crashed := true)
      else s.(loaders := s.loaders[c := k.(served := k.served + 1)],
              mainQueue := s.mainQueue + [ReturnSlot(c)])
  }

  datatype Step =
    | CreateLoader
    | RunMain
    | RunIo(c: LoaderId)
    | ClientStart(c: LoaderId)
    | BindingError(c: LoaderId)

  /** A thread takes its oldest task; joining waits until the IO loop has been told to quit. */
  predicate Enabled(s: Service, step: Step) {
    && !s.crashed
    && match step
       case CreateLoader => true
       case RunMain =>
         && s.mainQueue != []
         && var t := s.mainQueue[0];
            (t.JoinAndNotify? && t.owner in s.loaders ==> !s.loaders[t.owner].running)
       case RunIo(c) => c in s.loaders && s.loaders[c].running && s.loaders[c].ioQueue != []
       case ClientStart(c) => c in s.loaders && s.loaders[c].running && s.loaders[c].bound
       case BindingError(c) => c in s.loaders && s.loaders[c].running && s.loaders[c].bound
  }

  function Apply(s: Service, step: Step): Service
    requires Enabled(s, step)
  {
    match step
    case CreateLoader =>
      s.(loaders := s.loaders[s.nextId := Container(None, false, [StartOnIo], true, false, 0, 0)],
         nextId := s.nextId + 1)
    case RunMain => RunMainTask(s.(mainQueue := s.mainQueue[1..]), s.mainQueue[0])
    case RunIo(c) =>
      var k := s.loaders[c];
      RunIoTask(s.(loaders := s.loaders[c := k.(ioQueue := k.ioQueue[1..])]), c, k.ioQueue[0])
    case ClientStart(c) =>
      var k := s.loaders[c];
      s.(loaders := s.loaders[c := k.(starts := k.starts + 1)], mainQueue := s.mainQueue + [RequestSlot(c)])
    case BindingError(c) =>
      var k := s.loaders[c];
      s.(loaders := s.loaders[c := k.(bound := false, running := false)],
         mainQueue := s.mainQueue + [JoinAndNotify(c)])
  }

  ghost predicate Behavior(b: seq<Service>, w: seq<Step>) {
    && |b| == |w| + 1
    && b[0] == Initial()
    && forall i :: 0 <= i < |w| ==> Enabled(b[i], w[i]) && b[i + 1] == Apply(b[i], w[i])
  }

  /** The client of `c` has had every earlier Start served. */
  predicate NoneInFlight(s: Service, step: Step) {
    step.ClientStart? && step.c in s.loaders ==> s.loaders[step.c].starts == s.loaders[step.c].served
  }

  ghost predicate OneStartInFlight(b: seq<Service>, w: seq<Step>)
    requires |b| == |w| + 1
  {
    forall i :: 0 <= i < |w| ==> NoneInFlight(b[i], w[i])
  }

  // ------------------------------------------------------------------ tasks of one container

  function Tasks(q: seq<MainTask>, c: LoaderId): seq<MainTask> {
    if q == [] then []
    else if q[0].owner == c then [q[0]] + Tasks(q[1..], c)
    else Tasks(q[1..], c)
  }

  lemma {:induction false} TasksAppend(q: seq<MainTask>, t: MainTask, c: LoaderId)
    ensures Tasks(q + [t], c) == if t.owner == c then Tasks(q, c) + [t] else Tasks(q, c)
  {
    if q == [] {
      assert q + [t] == [t] && [t][1..] == [];
    } else {
      assert (q + [t])[1..] == q[1..] + [t];
      TasksAppend(q[1..], t, c);
    }
  }

  // ------------------------------------------------------------------ what every run keeps

  ghost predicate NoDuplicates(r: seq<nat>) {
    forall i, j :: 0 <= i < j < |r| ==> r[i] != r[j]
  }

  lemma {:induction false} DistinctFit(r: seq<nat>, n: nat)
    requires NoDuplicates(r) && forall t :: t in r ==> t < n
    ensures |r| <= n
  {
    if r == [] {
      return;
    }
    assert r[0] in r;
    if n - 1 in r {
      var i :| 0 <= i < |r| && r[i] == n - 1;
      var rest := r[..i] + r[i + 1..];
      forall t | t in rest ensures t < n - 1 {
        assert t in r && t != r[i];
      }
      DistinctFit(rest, n - 1);
    } else {
      DistinctFit(r, n - 1);
    }
  }

  /** Distinct numbers below `n`, one of them missing, are fewer than `n`. */
  lemma MissingOne(r: seq<nat>, n: nat, missing: nat)
    requires NoDuplicates(r) && forall t :: t in r ==> t < n
    requires missing < n && missing !in r
    ensures |r| < n
  {
    DistinctFit(r + [missing], n);
  }

  /** Slots balance, and no slot was returned twice or before it was granted. */
  ghost predicate Ledger(s: Service) {
    && |s.returned| <= |s.granted|
    && s.available + (|s.granted| - |s.returned|) == A.MAX_SLOTS
    && (s.waiting != [] ==> s.available == 0)
    && NoDuplicates(s.returned)
    && (forall t :: t in s.returned ==> t < |s.granted|)
  }

  /** Containers outside `except` hold only slots granted to them and not yet returned. */
  ghost predicate Holders(s: Service, except: set<LoaderId>) {
    forall c :: c in s.loaders && c !in except && s.loaders[c].onInactive.Some? ==>
      var t := s.loaders[c].onInactive.value;
      t < |s.granted| && t !in s.returned && s.granted[t] == c
  }

  ghost predicate Ids(s: Service) {
    && (forall c :: c in s.loaders ==> c < s.nextId)
    && (forall c :: c in s.waiting ==> c < s.nextId)
    && (forall t :: t in s.mainQueue ==> t.owner in s.loaders)
  }

  /** The pending requests and returns of a container; after them comes the join, once stopped. */
  function Core(k: Container, p: seq<MainTask>): seq<MainTask> {
    if k.running || p == [] then p else p[..|p| - 1]
  }

  /** A join is pending exactly for the stopped containers, as their last task; a container is
      bound by its first IO task. */
  ghost predicate Shape(k: Container, p: seq<MainTask>) {
    && !k.joined
    && (forall t :: t in Core(k, p) ==> !t.JoinAndNotify?)
    && (!k.running ==> p != [] && p[|p| - 1].JoinAndNotify? && !k.bound)
    && (k.bound ==> StartOnIo !in k.ioQueue)
    && (k.running && !k.bound ==> k.ioQueue != [] && k.ioQueue[0] == StartOnIo && StartOnIo !in k.ioQueue[1..])
  }

  ghost predicate Shapes(s: Service) {
    forall c :: c in s.loaders ==> Shape(s.loaders[c], Tasks(s.mainQueue, c))
  }

  ghost predicate Sound(s: Service) {
    Ledger(s) && Holders(s, {}) && Ids(s) && Shapes(s)
  }

  /** What a return cascade may change in a container. */
  ghost predicate SameButSlot(k: Container, m: Container) {
    && m == k.(onInactive := m.onInactive, ioQueue := m.ioQueue)
    && (m.ioQueue == k.ioQueue || m.ioQueue == k.ioQueue + [RunSlot])
  }

  /** The state of a return that has taken the next request off the queue. */
  function Popped(s: Service, token: nat): Service
    requires s.waiting != []
  {
    s.(returned := s.returned + [token], waiting := s.waiting[1..], granted := s.granted + [s.waiting[0]])
  }

  lemma {:induction false} ReturnSound(s: Service, token: nat, except: set<LoaderId>)
    requires Ledger(s) && Holders(s, except)
    requires token < |s.granted| && token !in s.returned
    requires forall c :: c in s.loaders && c !in except ==> s.loaders[c].onInactive != Some(token)
    ensures s.available < A.MAX_SLOTS
    ensures var r := Return(s, token);
            && Ledger(r) && Holders(r, except)
            && r == r.(mainQueue := s.mainQueue, nextId := s.nextId, crashed := s.crashed)
            && r.loaders.Keys == s.loaders.Keys
            && (forall c :: c in s.loaders ==> SameButSlot(s.loaders[c], r.loaders[c]))
            && (forall c :: c in r.waiting ==> c in s.waiting)
    decreases |s.waiting|
  {
    MissingOne(s.returned, |s.granted|, token);
    if s.waiting != [] && s.waiting[0] !in s.loaders {
      ReturnSound(Popped(s, token), |s.granted|, except);
    }
  }

  /** A return grants from the head of the queue only: grants and queue together do not change. */
  lemma {:induction false} ReturnGrows(s: Service, token: nat)
    ensures var r := Return(s, token);
            && s.granted <= r.granted && s.returned + [token] <= r.returned
            && r.granted + r.waiting == s.granted + s.waiting
    decreases |s.waiting|
  {
    if s.waiting != [] {
      var g := Popped(s, token);
      assert g.granted + g.waiting == s.granted + s.waiting;
      if s.waiting[0] !in s.loaders {
        ReturnGrows(g, |s.granted|);
        assert s.returned + [token] <= g.returned + [|s.granted|];
      }
    }
  }

  lemma RequestSound(s: Service, c: LoaderId)
    requires Ledger(s) && Holders(s, {}) && c in s.loaders
    ensures var r := Request(s, c);
            && Ledger(r) && Holders(r, {})
            && r == r.(mainQueue := s.mainQueue, nextId := s.nextId, crashed := s.crashed)
            && r.loaders.Keys == s.loaders.Keys
            && (forall d :: d in s.loaders ==> SameButSlot(s.loaders[d], r.loaders[d]))
            && (forall d :: d in r.waiting ==> d in s.waiting || d in s.loaders)
  {
  }

  /** The main thread has taken the first task of a container, and it was not the join. */
  lemma TakeHead(k: Container, p: seq<MainTask>, m: Container)
    requires Shape(k, p) && p != [] && !p[0].JoinAndNotify? && SameButSlot(k, m)
    ensures Shape(m, p[1..])
    ensures Core(k, p) == [p[0]] + Core(m, p[1..])
  {
  }

  lemma MainStepShapes(s: Service, r: Service)
    requires Shapes(s) && s.mainQueue != [] && !s.mainQueue[0].JoinAndNotify?
    requires r.mainQueue == s.mainQueue[1..] && r.loaders.Keys == s.loaders.Keys
    requires forall c :: c in s.loaders ==> SameButSlot(s.loaders[c], r.loaders[c])
    ensures Shapes(r)
  {
    forall c | c in r.loaders ensures Shape(r.loaders[c], Tasks(r.mainQueue, c)) {
      var p := Tasks(s.mainQueue, c);
      assert Shape(s.loaders[c], p);
      if s.mainQueue[0].owner == c {
        TakeHead(s.loaders[c], p, r.loaders[c]);
      }
    }
  }

  lemma RequestSlotSound(s: Service)
    requires Sound(s) && s.mainQueue != [] && s.mainQueue[0].RequestSlot?
    ensures Sound(RunMainTask(s.(mainQueue := s.mainQueue[1..]), s.mainQueue[0]))
  {
    var q := s.(mainQueue := s.mainQueue[1..]);
    var r := RunMainTask(q, s.mainQueue[0]);
    assert s.mainQueue[0].owner in s.loaders;
    RequestSound(q, s.mainQueue[0].owner);
    TakenIds(s, r);
    MainStepShapes(s, r);
  }

  /** The state in which `c` has handed out its closure and is about to call it. */
  function Releasing(s: Service, c: LoaderId): Service
    requires c in s.loaders
  {
    s.(loaders := s.loaders[c := s.loaders[c].(onInactive := None)])
  }

  lemma ReleasedSound(s: Service, c: LoaderId, token: nat)
    requires Ledger(s) && Holders(s, {}) && c in s.loaders && s.loaders[c].onInactive == Some(token)
    ensures var r := Return(Releasing(s, c), token);
            && Ledger(r) && Holders(r, {})
            && r == r.(mainQueue := s.mainQueue, nextId := s.nextId, crashed := s.crashed)
            && r.loaders.Keys == s.loaders.Keys
            && (forall d :: d in s.loaders ==> SameButSlot(s.loaders[d], r.loaders[d]))
            && (forall d :: d in r.waiting ==> d in s.waiting)
  {
    var e := Releasing(s, c);
    ReturnSound(e, token, {});
    assert SameButSlot(s.loaders[c], e.loaders[c]);
  }

  lemma TakenIds(s: Service, r: Service)
    requires Ids(s) && s.mainQueue != [] && r.mainQueue == s.mainQueue[1..] && r.nextId == s.nextId
    requires r.loaders.Keys == s.loaders.Keys && forall d :: d in r.waiting ==> d in s.waiting || d in s.loaders
    ensures Ids(r)
  {
  }

  lemma ReturnSlotSound(s: Service)
    requires Sound(s) && s.mainQueue != [] && s.mainQueue[0].ReturnSlot?
    ensures Sound(RunMainTask(s.(mainQueue := s.mainQueue[1..]), s.mainQueue[0]))
  {
    var q := s.(mainQueue := s.mainQueue[1..]);
    var c := s.mainQueue[0].owner;
    var r := RunMainTask(q, s.mainQueue[0]);
    assert c in s.loaders;
    if s.loaders[c].onInactive.Some? {
      ReleasedSound(q, c, s.loaders[c].onInactive.value);
    }
    TakenIds(s, r);
    MainStepShapes(s, r);
  }

  lemma JoinIsLast(k: Container, p: seq<MainTask>)
    requires Shape(k, p) && p != [] && p[0].JoinAndNotify?
    ensures |p| == 1 && !k.running
  {
    assert p[0] !in Core(k, p);
    assert p[0] in p[..1];
  }

  /** The state in which `JoinAndNotify` gives back the slot of `c`. */
  function Joining(s: Service, c: LoaderId): Service
    requires c in s.loaders
  {
    s.(loaders := s.loaders[c := s.loaders[c].(joined := true)])
  }

  lemma JoinLedger(s: Service, c: LoaderId)
    requires Ledger(s) && Holders(s, {}) && c in s.loaders && !s.loaders[c].joined
    ensures var r := Join(s, c);
            && Ledger(r) && Holders(r, {})
            && r == r.(mainQueue := s.mainQueue, nextId := s.nextId, crashed := s.crashed)
            && r.loaders.Keys == s.loaders.Keys - {c}
            && (forall d :: d in r.loaders ==> SameButSlot(s.loaders[d], r.loaders[d]))
            && (forall d :: d in r.waiting ==> d in s.waiting)
  {
    var k := s.loaders[c];
    var j := Joining(s, c);
    assert SameButJoined(s, j, c);
    if k.onInactive.Some? {
      ReturnSound(j, k.onInactive.value, {c});
      ErasedLedger(s, j, Return(j, k.onInactive.value), c);
    } else {
      ErasedLedger(s, j, j, c);
    }
  }

  ghost predicate SameButJoined(s: Service, j: Service, c: LoaderId) {
    && j == s.(loaders := j.loaders) && j.loaders.Keys == s.loaders.Keys
    && forall d :: d in s.loaders && d != c ==> j.loaders[d] == s.loaders[d]
  }

  lemma ErasedLedger(s: Service, j: Service, r: Service, c: LoaderId)
    requires SameButJoined(s, j, c) && Ledger(r) && Holders(r, {c})
    requires r == r.(mainQueue := j.mainQueue, nextId := j.nextId, crashed := j.crashed)
    requires r.loaders.Keys == j.loaders.Keys && forall d :: d in j.loaders ==> SameButSlot(j.loaders[d], r.loaders[d])
    requires forall d :: d in r.waiting ==> d in j.waiting
    ensures var e := r.(loaders := r.loaders - {c});
            && Ledger(e) && Holders(e, {})
            && e == e.(mainQueue := s.mainQueue, nextId := s.nextId, crashed := s.crashed)
            && e.loaders.Keys == s.loaders.Keys - {c}
            && (forall d :: d in e.loaders ==> SameButSlot(s.loaders[d], e.loaders[d]))
            && (forall d :: d in e.waiting ==> d in s.waiting)
  {
  }

  lemma JoinShapes(s: Service, r: Service)
    requires Shapes(s) && s.mainQueue != []
    requires r.mainQueue == s.mainQueue[1..] && r.loaders.Keys == s.loaders.Keys - {s.mainQueue[0].owner}
    requires forall c :: c in r.loaders ==> SameButSlot(s.loaders[c], r.loaders[c])
    ensures Shapes(r)
  {
    forall c | c in r.loaders ensures Shape(r.loaders[c], Tasks(r.mainQueue, c)) {
      assert Shape(s.loaders[c], Tasks(s.mainQueue, c));
      SlotKeepsShape(s.loaders[c], Tasks(s.mainQueue, c), r.loaders[c]);
    }
  }

  lemma JoinIds(s: Service, r: Service, c: LoaderId)
    requires Ids(s) && s.mainQueue != [] && r.mainQueue == s.mainQueue[1..] && r.nextId == s.nextId
    requires r.loaders.Keys == s.loaders.Keys - {c} && forall d :: d in r.waiting ==> d in s.waiting
    requires forall t :: t in r.mainQueue ==> t.owner != c
    ensures Ids(r)
  {
  }

  /** The join of a container is its last task in the main queue. */
  lemma JoinTaken(s: Service, c: LoaderId)
    requires Ids(s) && Shapes(s) && s.mainQueue != [] && s.mainQueue[0] == JoinAndNotify(c)
    ensures c in s.loaders && !s.loaders[c].joined
    ensures forall t :: t in s.mainQueue[1..] ==> t.owner != c
  {
    assert s.mainQueue[0] in s.mainQueue;
    assert Shape(s.loaders[c], Tasks(s.mainQueue, c));
    JoinIsLast(s.loaders[c], Tasks(s.mainQueue, c));
    NoTasksLeft(s.mainQueue[1..], c);
  }

  lemma JoinSound(s: Service)
    requires Sound(s) && Enabled(s, RunMain) && s.mainQueue[0].JoinAndNotify?
    ensures Sound(Apply(s, RunMain))
  {
    var q := s.(mainQueue := s.mainQueue[1..]);
    var c := s.mainQueue[0].owner;
    JoinTaken(s, c);
    JoinLedger(q, c);
    var r := Join(q, c);
    JoinShapes(s, r);
    JoinIds(s, r, c);
    assert Apply(s, RunMain) == r;
  }

  lemma SlotKeepsShape(k: Container, p: seq<MainTask>, m: Container)
    requires Shape(k, p) && SameButSlot(k, m)
    ensures Shape(m, p)
  {
  }

  lemma {:induction false} NoTasksLeft(q: seq<MainTask>, c: LoaderId)
    ensures Tasks(q, c) == [] <==> forall t :: t in q ==> t.owner != c
  {
    if q != [] {
      assert q == [q[0]] + q[1..];
      NoTasksLeft(q[1..], c);
    }
  }

  lemma PostedTasks(q: seq<MainTask>, posted: seq<MainTask>, c: LoaderId, d: LoaderId)
    requires |posted| <= 1 && (posted != [] ==> posted[0].owner == c)
    ensures Tasks(q + posted, d) == if d == c then Tasks(q, c) + posted else Tasks(q, d)
  {
    if posted == [] {
      assert q + posted == q && Tasks(q, c) + posted == Tasks(q, c);
    } else {
      TasksAppend(q, posted[0], d);
      assert [posted[0]] == posted;
    }
  }

  /** A step that only touches container `c` and may post one task for it. */
  lemma LocalStepShapes(s: Service, r: Service, c: LoaderId, posted: seq<MainTask>)
    requires Shapes(s) && c in s.loaders && r.loaders.Keys == s.loaders.Keys
    requires |posted| <= 1 && (posted != [] ==> posted[0].owner == c)
    requires r.mainQueue == s.mainQueue + posted
    requires forall d :: d in s.loaders && d != c ==> r.loaders[d] == s.loaders[d]
    requires Shape(r.loaders[c], Tasks(s.mainQueue, c) + posted)
    ensures Shapes(r)
  {
    forall d | d in r.loaders ensures Shape(r.loaders[d], Tasks(r.mainQueue, d)) {
      assert Shape(s.loaders[d], Tasks(s.mainQueue, d));
      PostedTasks(s.mainQueue, posted, c, d);
    }
  }

  lemma CreateSound(s: Service)
    requires Sound(s) && Enabled(s, CreateLoader)
    ensures Sound(Apply(s, CreateLoader))
  {
    var r := Apply(s, CreateLoader);
    NoTasksLeft(s.mainQueue, s.nextId);
    forall c | c in r.loaders ensures Shape(r.loaders[c], Tasks(r.mainQueue, c)) {
      if c != s.nextId {
        assert Shape(s.loaders[c], Tasks(s.mainQueue, c));
      }
    }
  }

  /** A step that moves no slot keeps the ledger. */
  lemma LocalStepLedger(s: Service, r: Service)
    requires Ledger(s) && Holders(s, {}) && r.granted == s.granted && r.returned == s.returned
    requires r.available == s.available && r.waiting == s.waiting && r.loaders.Keys == s.loaders.Keys
    requires forall d :: d in s.loaders ==> r.loaders[d].onInactive == s.loaders[d].onInactive
    ensures Ledger(r) && Holders(r, {})
  {
  }

  lemma LocalStepIds(s: Service, r: Service, c: LoaderId, posted: seq<MainTask>)
    requires Ids(s) && c in s.loaders && r.loaders.Keys == s.loaders.Keys && r.nextId == s.nextId
    requires r.waiting == s.waiting && r.mainQueue == s.mainQueue + posted
    requires forall t :: t in posted ==> t.owner == c
    ensures Ids(r)
  {
  }

  lemma IoTaskShape(k: Container, p: seq<MainTask>, t: MainTask)
    requires Shape(k, p) && k.running && k.ioQueue != [] && t.ReturnSlot?
    ensures var m := k.(ioQueue := k.ioQueue[1..]);
            if k.ioQueue[0] == StartOnIo then Shape(m.(bound := true), p + [])
            else k.bound && Shape(m.(served := m.served + 1), p + [t])
  {
    assert p + [] == p;
  }

  lemma RunIoSound(s: Service, c: LoaderId)
    requires Sound(s) && Enabled(s, RunIo(c))
    ensures Sound(Apply(s, RunIo(c)))
    ensures !Apply(s, RunIo(c)).crashed
  {
    var k := s.loaders[c];
    IoTaskShape(k, Tasks(s.mainQueue, c), ReturnSlot(c));
    var posted := if k.ioQueue[0] == StartOnIo then [] else [ReturnSlot(c)];
    var r := Apply(s, RunIo(c));
    LocalStepLedger(s, r);
    LocalStepIds(s, r, c, posted);
    LocalStepShapes(s, r, c, posted);
  }

  lemma ClientStartSound(s: Service, c: LoaderId)
    requires Sound(s) && Enabled(s, ClientStart(c))
    ensures Sound(Apply(s, ClientStart(c)))
  {
    assert Shape(s.loaders[c], Tasks(s.mainQueue, c));
    var r := Apply(s, ClientStart(c));
    LocalStepLedger(s, r);
    LocalStepIds(s, r, c, [RequestSlot(c)]);
    LocalStepShapes(s, r, c, [RequestSlot(c)]);
  }

  lemma BindingErrorSound(s: Service, c: LoaderId)
    requires Sound(s) && Enabled(s, BindingError(c))
    ensures Sound(Apply(s, BindingError(c)))
  {
    assert Shape(s.loaders[c], Tasks(s.mainQueue, c));
    var r := Apply(s, BindingError(c));
    LocalStepLedger(s, r);
    LocalStepIds(s, r, c, [JoinAndNotify(c)]);
    LocalStepShapes(s, r, c, [JoinAndNotify(c)]);
  }

  /** Every step of either thread keeps the ledger, whatever the clients do. */
  lemma StepSound(s: Service, step: Step)
    requires Sound(s) && Enabled(s, step)
    ensures Sound(Apply(s, step))
  {
    match step
    case CreateLoader => CreateSound(s);
    case RunMain =>
      match s.mainQueue[0] {
        case RequestSlot(_) => RequestSlotSound(s);
        case ReturnSlot(_) => ReturnSlotSound(s);
        case JoinAndNotify(_) => JoinSound(s);
      }
    case RunIo(c) => RunIoSound(s, c);
    case ClientStart(c) => ClientStartSound(s, c);
    case BindingError(c) => BindingErrorSound(s, c);
  }

  /** In every run, whatever the clients do: free slots plus slots out are MAX_SLOTS, requests wait
      only when no slot is free, no slot is returned twice, and the raw-pointer join task, like
      every other task, finds its container still there. */
  lemma {:induction false} EveryRunSound(b: seq<Service>, w: seq<Step>, i: nat)
    requires Behavior(b, w) && i < |b|
    ensures Sound(b[i])
  {
    if i > 0 {
      EveryRunSound(b, w, i - 1);
      StepSound(b[i - 1], w[i - 1]);
    }
  }

  // ------------------------------------------------- what runs with one Start in flight keep

  /** Where the current Start of a container stands: idle, asked for, waiting, granted, served and
      being returned, or served and being returned with the next one already asked for. */
  ghost predicate Phase(k: Container, p: seq<MainTask>, waiting: nat) {
    var core := Core(k, p);
    var slots := multiset(k.ioQueue)[RunSlot];
    if k.onInactive.None? then
      && slots == 0
      && (|| (core == [] && waiting == 0 && k.starts == k.served)
          || (core == [] && waiting == 1 && k.starts == k.served + 1)
          || (|core| == 1 && core[0].RequestSlot? && waiting == 0 && k.starts == k.served + 1))
    else
      && waiting == 0
      && (|| (core == [] && slots == 1 && k.starts == k.served + 1)
          || (|core| == 1 && core[0].ReturnSlot? && slots == 0 && k.starts == k.served)
          || (|core| == 2 && core[0].ReturnSlot? && core[1].RequestSlot? && slots == 0
              && k.starts == k.served + 1))
  }

  ghost predicate Phases(s: Service, except: set<LoaderId>) {
    forall c :: c in s.loaders && c !in except ==>
      Phase(s.loaders[c], Tasks(s.mainQueue, c), multiset(s.waiting)[c])
  }

  /** Every slot out, other than those in `inHand`, is held by the container it was granted to. */
  ghost predicate Accounted(s: Service, inHand: set<nat>) {
    forall t :: 0 <= t < |s.granted| && t !in s.returned && t !in inHand ==>
      s.granted[t] in s.loaders && s.loaders[s.granted[t]].onInactive == Some(t)
  }

  ghost predicate Orderly(s: Service) {
    Sound(s) && Phases(s, {}) && Accounted(s, {}) && !s.crashed
  }

  lemma Pop<T>(q: seq<T>)
    requires q != []
    ensures multiset(q) == multiset(q[1..]) + multiset{q[0]}
  {
    assert q == [q[0]] + q[1..];
  }

  lemma DeliveredPhases(s: Service, token: nat, except: set<LoaderId>)
    requires Phases(s, except) && s.waiting != [] && s.waiting[0] in s.loaders && s.waiting[0] !in except
    ensures Phases(Deliver(Popped(s, token), s.waiting[0], |s.granted|), except)
  {
    var c := s.waiting[0];
    var r := Deliver(Popped(s, token), c, |s.granted|);
    Pop(s.waiting);
    forall d | d in r.loaders && d !in except
      ensures Phase(r.loaders[d], Tasks(r.mainQueue, d), multiset(r.waiting)[d])
    {
      assert Phase(s.loaders[d], Tasks(s.mainQueue, d), multiset(s.waiting)[d]);
    }
  }

  lemma DeliveredAccounted(s: Service, token: nat)
    requires Accounted(s, {token}) && token < |s.granted| && s.waiting != [] && s.waiting[0] in s.loaders
    requires s.loaders[s.waiting[0]].onInactive.None?
    ensures Accounted(Deliver(Popped(s, token), s.waiting[0], |s.granted|), {})
  {
  }

  lemma PoppedKeeps(s: Service, token: nat, except: set<LoaderId>)
    requires Phases(s, except) && Accounted(s, {token}) && token < |s.granted|
    requires s.waiting != [] && s.waiting[0] !in s.loaders
    ensures Phases(Popped(s, token), except) && Accounted(Popped(s, token), {|s.granted|})
  {
    var g := Popped(s, token);
    Pop(s.waiting);
    forall d | d in g.loaders && d !in except
      ensures Phase(g.loaders[d], Tasks(g.mainQueue, d), multiset(g.waiting)[d])
    {
      assert Phase(s.loaders[d], Tasks(s.mainQueue, d), multiset(s.waiting)[d]);
    }
  }

  lemma {:induction false} ReturnOrderly(s: Service, token: nat, except: set<LoaderId>)
    requires Phases(s, except) && Accounted(s, {token}) && token < |s.granted|
    requires forall c :: c in except ==> c !in s.waiting
    ensures Phases(Return(s, token), except) && Accounted(Return(s, token), {})
    ensures Return(s, token).crashed == s.crashed
    decreases |s.waiting|
  {
    if s.waiting != [] {
      var c := s.waiting[0];
      if c in s.loaders {
        assert Phase(s.loaders[c], Tasks(s.mainQueue, c), multiset(s.waiting)[c]);
        DeliveredPhases(s, token, except);
        DeliveredAccounted(s, token);
        assert Return(s, token) == Deliver(Popped(s, token), c, |s.granted|);
      } else {
        PoppedKeeps(s, token, except);
        ReturnOrderly(Popped(s, token), |s.granted|, except);
        assert Return(s, token) == Return(Popped(s, token), |s.granted|);
      }
    } else {
      assert Accounted(Return(s, token), {});
    }
  }

  /** The first task of a container is its pending return or request, unless it is the join. */
  lemma HeadOfCore(s: Service, c: LoaderId)
    requires Shapes(s) && s.mainQueue != [] && s.mainQueue[0].owner == c && c in s.loaders
    requires !s.mainQueue[0].JoinAndNotify?
    ensures Core(s.loaders[c], Tasks(s.mainQueue, c)) ==
            [s.mainQueue[0]] + Core(s.loaders[c], Tasks(s.mainQueue[1..], c))
  {
    assert Shape(s.loaders[c], Tasks(s.mainQueue, c));
    TakeHead(s.loaders[c], Tasks(s.mainQueue, c), s.loaders[c]);
  }

  lemma RequestedPhase(k: Container, p: seq<MainTask>, rest: seq<MainTask>, t: MainTask, waiting: nat, token: nat)
    requires Phase(k, p, waiting) && Core(k, p) == [t] + Core(k, rest) && t.RequestSlot?
    ensures waiting == 0 && k.onInactive.None?
    ensures Phase(k, rest, 1)
    ensures Phase(k.(onInactive := Some(token), ioQueue := k.ioQueue + [RunSlot]), rest, 0)
  {
  }

  lemma ReturnedPhase(k: Container, p: seq<MainTask>, rest: seq<MainTask>, t: MainTask, waiting: nat)
    requires Phase(k, p, waiting) && Core(k, p) == [t] + Core(k, rest) && t.ReturnSlot?
    ensures k.onInactive.Some?
    ensures Phase(k.(onInactive := None), rest, waiting)
  {
  }

  lemma IoTaskPhase(k: Container, p: seq<MainTask>, t: MainTask, waiting: nat)
    requires Phase(k, p, waiting) && k.running && k.ioQueue != [] && t.ReturnSlot?
    ensures var m := k.(ioQueue := k.ioQueue[1..]);
            if k.ioQueue[0] == StartOnIo then Phase(m.(bound := true), p + [], waiting)
            else Phase(m.(served := m.served + 1), p + [t], waiting)
  {
    assert k.ioQueue == [k.ioQueue[0]] + k.ioQueue[1..];
    assert p + [] == p;
  }

  lemma StartedPhase(k: Container, p: seq<MainTask>, t: MainTask, waiting: nat)
    requires Phase(k, p, waiting) && k.running && k.starts == k.served && t.RequestSlot?
    ensures Phase(k.(starts := k.starts + 1), p + [t], waiting)
  {
  }

  lemma StoppedPhase(k: Container, p: seq<MainTask>, t: MainTask, waiting: nat)
    requires Phase(k, p, waiting) && k.running
    ensures Phase(k.(bound := false, running := false), p + [t], waiting)
  {
    assert (p + [t])[..|p|] == p;
  }

  /** A step that only touches container `c` and may post one task for it. */
  lemma LocalStepPhases(s: Service, r: Service, c: LoaderId, posted: seq<MainTask>)
    requires Phases(s, {}) && c in s.loaders && r.loaders.Keys == s.loaders.Keys
    requires |posted| <= 1 && (posted != [] ==> posted[0].owner == c)
    requires r.mainQueue == s.mainQueue + posted && r.waiting == s.waiting
    requires forall d :: d in s.loaders && d != c ==> r.loaders[d] == s.loaders[d]
    requires Phase(r.loaders[c], Tasks(s.mainQueue, c) + posted, multiset(s.waiting)[c])
    ensures Phases(r, {})
  {
    forall d | d in r.loaders ensures Phase(r.loaders[d], Tasks(r.mainQueue, d), multiset(r.waiting)[d]) {
      assert Phase(s.loaders[d], Tasks(s.mainQueue, d), multiset(s.waiting)[d]);
      PostedTasks(s.mainQueue, posted, c, d);
    }
  }

  lemma RequestSlotPhases(s: Service, c: LoaderId)
    requires Shapes(s) && Phases(s, {}) && c in s.loaders
    requires s.mainQueue != [] && s.mainQueue[0] == RequestSlot(c)
    ensures Phases(Request(s.(mainQueue := s.mainQueue[1..]), c), {})
  {
    var q := s.(mainQueue := s.mainQueue[1..]);
    var r := Request(q, c);
    HeadOfCore(s, c);
    RequestedPhase(s.loaders[c], Tasks(s.mainQueue, c), Tasks(q.mainQueue, c), s.mainQueue[0],
                   multiset(s.waiting)[c], |s.granted|);
    forall d | d in r.loaders && d != c
      ensures Phase(r.loaders[d], Tasks(r.mainQueue, d), multiset(r.waiting)[d])
    {
      assert Phase(s.loaders[d], Tasks(s.mainQueue, d), multiset(s.waiting)[d]);
    }
  }

  lemma RequestAccounted(s: Service, c: LoaderId)
    requires Accounted(s, {}) && c in s.loaders && s.loaders[c].onInactive.None?
    ensures Accounted(Request(s, c), {})
  {
  }

  lemma RequestSlotOrderly(s: Service)
    requires Orderly(s) && Enabled(s, RunMain) && s.mainQueue[0].RequestSlot?
    ensures Orderly(Apply(s, RunMain))
  {
    var c := s.mainQueue[0].owner;
    StepSound(s, RunMain);
    assert c in s.loaders && Phase(s.loaders[c], Tasks(s.mainQueue, c), multiset(s.waiting)[c]);
    HeadOfCore(s, c);
    assert s.loaders[c].onInactive.None?;
    RequestSlotPhases(s, c);
    var q := s.(mainQueue := s.mainQueue[1..]);
    assert Accounted(q, {});
    RequestAccounted(q, c);
    assert Apply(s, RunMain) == Request(q, c);
  }

  lemma ReleasingPhases(s: Service, c: LoaderId)
    requires Shapes(s) && Phases(s, {}) && c in s.loaders
    requires s.mainQueue != [] && s.mainQueue[0] == ReturnSlot(c)
    ensures s.loaders[c].onInactive.Some?
    ensures Phases(Releasing(s.(mainQueue := s.mainQueue[1..]), c), {})
  {
    var e := Releasing(s.(mainQueue := s.mainQueue[1..]), c);
    HeadOfCore(s, c);
    ReturnedPhase(s.loaders[c], Tasks(s.mainQueue, c), Tasks(e.mainQueue, c), s.mainQueue[0],
                  multiset(s.waiting)[c]);
    forall d | d in e.loaders && d != c
      ensures Phase(e.loaders[d], Tasks(e.mainQueue, d), multiset(e.waiting)[d])
    {
      assert Phase(s.loaders[d], Tasks(s.mainQueue, d), multiset(s.waiting)[d]);
    }
  }

  lemma ReleasingAccounted(s: Service, c: LoaderId)
    requires Accounted(s, {}) && c in s.loaders && s.loaders[c].onInactive.Some? && s.mainQueue != []
    ensures Accounted(Releasing(s.(mainQueue := s.mainQueue[1..]), c), {s.loaders[c].onInactive.value})
  {
  }

  lemma ReleasedOrderly(s: Service, c: LoaderId, token: nat)
    requires Accounted(s, {}) && c in s.loaders && s.loaders[c].onInactive == Some(token)
    requires Enabled(s, RunMain) && s.mainQueue[0] == ReturnSlot(c) && token < |s.granted|
    requires Phases(Releasing(s.(mainQueue := s.mainQueue[1..]), c), {})
    ensures var r := Apply(s, RunMain); Phases(r, {}) && Accounted(r, {}) && !r.crashed
  {
    var e := Releasing(s.(mainQueue := s.mainQueue[1..]), c);
    ReleasingAccounted(s, c);
    ReturnOrderly(e, token, {});
    assert Apply(s, RunMain) == Return(e, token);
  }

  lemma ReturnSlotOrderly(s: Service)
    requires Orderly(s) && Enabled(s, RunMain) && s.mainQueue[0].ReturnSlot?
    ensures Orderly(Apply(s, RunMain))
  {
    var c := s.mainQueue[0].owner;
    StepSound(s, RunMain);
    assert c in s.loaders && Shapes(s) && Phases(s, {});
    ReleasingPhases(s, c);
    var token := s.loaders[c].onInactive.value;
    assert token < |s.granted|;
    ReleasedOrderly(s, c, token);
  }

  lemma JoiningPhases(s: Service, c: LoaderId)
    requires Shapes(s) && Phases(s, {}) && c in s.loaders
    requires s.mainQueue != [] && s.mainQueue[0] == JoinAndNotify(c)
    ensures Phases(Joining(s.(mainQueue := s.mainQueue[1..]), c), {c})
    ensures s.loaders[c].onInactive.Some? ==> c !in s.waiting
  {
    assert Phase(s.loaders[c], Tasks(s.mainQueue, c), multiset(s.waiting)[c]);
    var j := Joining(s.(mainQueue := s.mainQueue[1..]), c);
    forall d | d in j.loaders && d != c
      ensures Phase(j.loaders[d], Tasks(j.mainQueue, d), multiset(j.waiting)[d])
    {
      assert Phase(s.loaders[d], Tasks(s.mainQueue, d), multiset(s.waiting)[d]);
    }
  }

  /** A return by `c` itself does not grant to `c` when `c` is not waiting. */
  lemma {:induction false} NotGrantedTo(s: Service, token: nat, c: LoaderId)
    requires c in s.loaders && c !in s.waiting
    ensures c in Return(s, token).loaders && Return(s, token).loaders[c] == s.loaders[c]
    decreases |s.waiting|
  {
    if s.waiting != [] && s.waiting[0] !in s.loaders {
      NotGrantedTo(Popped(s, token), |s.granted|, c);
    }
  }

  /** Erasing a container that holds no slot out leaves every slot accounted for. */
  lemma EraseKeeps(r: Service, c: LoaderId)
    requires Phases(r, {c}) && Accounted(r, {}) && c in r.loaders
    requires r.loaders[c].onInactive.Some? ==> r.loaders[c].onInactive.value in r.returned
    ensures Phases(r.(loaders := r.loaders - {c}), {}) && Accounted(r.(loaders := r.loaders - {c}), {})
  {
  }

  lemma JoinOrderly(s: Service)
    requires Orderly(s) && Enabled(s, RunMain) && s.mainQueue[0].JoinAndNotify?
    ensures Orderly(Apply(s, RunMain))
  {
    var c := s.mainQueue[0].owner;
    StepSound(s, RunMain);
    assert c in s.loaders && Shape(s.loaders[c], Tasks(s.mainQueue, c));
    JoiningPhases(s, c);
    var j := Joining(s.(mainQueue := s.mainQueue[1..]), c);
    assert Accounted(j, {});
    if s.loaders[c].onInactive.Some? {
      var token := s.loaders[c].onInactive.value;
      assert Ledger(j) && Holders(j, {c});
      ReturnSound(j, token, {c});
      ReturnGrows(j, token);
      ReturnOrderly(j, token, {c});
      NotGrantedTo(j, token, c);
      var r := Return(j, token);
      assert (s.returned + [token])[|s.returned|] == token && token in r.returned;
      EraseKeeps(r, c);
    } else {
      EraseKeeps(j, c);
    }
  }

  lemma RunIoPhases(s: Service, c: LoaderId)
    requires Phases(s, {}) && Enabled(s, RunIo(c)) && !Apply(s, RunIo(c)).crashed
    ensures Phases(Apply(s, RunIo(c)), {})
  {
    var r := Apply(s, RunIo(c));
    IoTaskPhase(s.loaders[c], Tasks(s.mainQueue, c), ReturnSlot(c), multiset(s.waiting)[c]);
    var posted := if s.loaders[c].ioQueue[0] == StartOnIo then [] else [ReturnSlot(c)];
    LocalStepPhases(s, r, c, posted);
  }

  lemma RunIoOrderly(s: Service, c: LoaderId)
    requires Orderly(s) && Enabled(s, RunIo(c))
    ensures Orderly(Apply(s, RunIo(c)))
  {
    RunIoSound(s, c);
    LocalStepAccounted(s, Apply(s, RunIo(c)));
    RunIoPhases(s, c);
  }

  /** A step that moves no slot leaves every slot accounted for. */
  lemma LocalStepAccounted(s: Service, r: Service)
    requires Accounted(s, {}) && r.granted == s.granted && r.returned == s.returned
    requires forall d :: d in s.loaders ==> d in r.loaders && r.loaders[d].onInactive == s.loaders[d].onInactive
    ensures Accounted(r, {})
  {
  }

  lemma ClientStartPhases(s: Service, c: LoaderId)
    requires Phases(s, {}) && Enabled(s, ClientStart(c)) && NoneInFlight(s, ClientStart(c))
    ensures Phases(Apply(s, ClientStart(c)), {})
  {
    StartedPhase(s.loaders[c], Tasks(s.mainQueue, c), RequestSlot(c), multiset(s.waiting)[c]);
    LocalStepPhases(s, Apply(s, ClientStart(c)), c, [RequestSlot(c)]);
  }

  lemma ClientStartOrderly(s: Service, c: LoaderId)
    requires Orderly(s) && Enabled(s, ClientStart(c)) && NoneInFlight(s, ClientStart(c))
    ensures Orderly(Apply(s, ClientStart(c)))
  {
    ClientStartSound(s, c);
    LocalStepAccounted(s, Apply(s, ClientStart(c)));
    ClientStartPhases(s, c);
  }

  lemma BindingErrorPhases(s: Service, c: LoaderId)
    requires Phases(s, {}) && Enabled(s, BindingError(c))
    ensures Phases(Apply(s, BindingError(c)), {})
  {
    StoppedPhase(s.loaders[c], Tasks(s.mainQueue, c), JoinAndNotify(c), multiset(s.waiting)[c]);
    LocalStepPhases(s, Apply(s, BindingError(c)), c, [JoinAndNotify(c)]);
  }

  lemma BindingErrorOrderly(s: Service, c: LoaderId)
    requires Orderly(s) && Enabled(s, BindingError(c))
    ensures Orderly(Apply(s, BindingError(c)))
  {
    BindingErrorSound(s, c);
    LocalStepAccounted(s, Apply(s, BindingError(c)));
    BindingErrorPhases(s, c);
  }

  lemma CreateOrderly(s: Service)
    requires Orderly(s) && Enabled(s, CreateLoader)
    ensures Orderly(Apply(s, CreateLoader))
  {
    CreateSound(s);
    NoTasksLeft(s.mainQueue, s.nextId);
    var r := Apply(s, CreateLoader);
    LocalStepAccounted(s, r);
    forall d | d in r.loaders ensures Phase(r.loaders[d], Tasks(r.mainQueue, d), multiset(r.waiting)[d]) {
      if d != s.nextId {
        assert Phase(s.loaders[d], Tasks(s.mainQueue, d), multiset(s.waiting)[d]);
      } else {
        assert d !in s.waiting;
      }
    }
  }

  lemma StepOrderly(s: Service, step: Step)
    requires Orderly(s) && Enabled(s, step) && NoneInFlight(s, step)
    ensures Orderly(Apply(s, step))
  {
    match step
    case CreateLoader => CreateOrderly(s);
    case RunMain =>
      match s.mainQueue[0] {
        case RequestSlot(_) => RequestSlotOrderly(s);
        case ReturnSlot(_) => ReturnSlotOrderly(s);
        case JoinAndNotify(_) => JoinOrderly(s);
      }
    case RunIo(c) => RunIoOrderly(s, c);
    case ClientStart(c) => ClientStartOrderly(s, c);
    case BindingError(c) => BindingErrorOrderly(s, c);
  }

  /** In every interleaving of the two threads with at most one Start in flight per loader, every
      slot granted has been returned exactly once or is still held by the container it was granted
      to, and nothing crashes: no empty closure is called, no destroyed container is used. */
  lemma {:induction false} EveryRunOrderly(b: seq<Service>, w: seq<Step>, i: nat)
    requires Behavior(b, w) && OneStartInFlight(b, w) && i < |b|
    ensures Orderly(b[i])
  {
    if i > 0 {
      EveryRunOrderly(b, w, i - 1);
      StepOrderly(b[i - 1], w[i - 1]);
    }
  }
}
