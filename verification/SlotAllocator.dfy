/** The counting allocator of network slots with its FIFO wait queue, on flat event sequences.

    A call of `OnSlotReturned` from inside a grant is the last thing that grant does, so a nested
    cascade of returns is the same event sequence as the returns made one after another;
    LoaderRuns proves that for the cascades of the loader containers. */
module SlotAllocator {

  // File descriptors used by one loader, reserved for stdio, and kept as a margin.
  const FDIO_MAX_FD: nat := 1024
  const FDS_PER_CONNECTION: nat := 3
  const FDS_RESERVED: nat := 3
  const MARGIN: nat := 4
  const MAX_SLOTS: nat := (FDIO_MAX_FD - FDS_RESERVED) / FDS_PER_CONNECTION - MARGIN

  datatype Event<R> = Request(r: R) | Returned

  /** `granted` and `returnCount` are history: all grants in order, and the number of returns. */
  datatype Allocator<R> = Allocator(available: nat, waiting: seq<R>, granted: seq<R>, returnCount: nat)

  function Initial<R>(): Allocator<R> {
    Allocator(MAX_SLOTS, [], [], 0)
  }

  function Apply<R>(a: Allocator<R>, e: Event<R>): Allocator<R> {
    match e
    case Request(r) =>
      if a.available == 0 then a.(waiting := a.waiting + [r])
      else a.(available := a.available - 1, granted := a.granted + [r])
    case Returned =>
      var b := a.(returnCount := a.returnCount + 1);
      if a.waiting == [] then b.(available := a.available + 1)
      else b.(waiting := a.waiting[1..], granted := a.granted + [a.waiting[0]])
  }

  /** Some slot is out, which is what the check at the head of `OnSlotReturned` demands. */
  predicate MayReturn<R>(a: Allocator<R>) {
    a.returnCount < |a.granted|
  }

  function Run<R>(a: Allocator<R>, es: seq<Event<R>>): Allocator<R>
    decreases |es|
  {
    if es == [] then a else Apply(Run(a, es[..|es| - 1]), es[|es| - 1])
  }

  predicate LegalAt<R>(a: Allocator<R>, es: seq<Event<R>>, i: nat)
    requires i < |es|
  {
    es[i].Returned? ==> MayReturn(Run(a, es[..i]))
  }

  /** Nothing is returned that was not granted. */
  ghost predicate Legal<R>(a: Allocator<R>, es: seq<Event<R>>) {
    forall i: nat :: i < |es| ==> LegalAt(a, es, i)
  }

  function Arrivals<R>(es: seq<Event<R>>): seq<R>
    decreases |es|
  {
    if es == [] then []
    else Arrivals(es[..|es| - 1]) + (if es[|es| - 1].Request? then [es[|es| - 1].r] else [])
  }

  function Returns<R>(es: seq<Event<R>>): nat
    decreases |es|
  {
    if es == [] then 0
    else Returns(es[..|es| - 1]) + if es[|es| - 1].Returned? then 1 else 0
  }

  /** Free slots and slots out make up MAX_SLOTS, and nobody waits while a slot is free. */
  ghost predicate Balanced<R>(a: Allocator<R>) {
    && a.returnCount <= |a.granted|
    && a.available + (|a.granted| - a.returnCount) == MAX_SLOTS
    && (a.waiting != [] ==> a.available == 0)
  }

  lemma {:induction false} RunAppend<R>(a: Allocator<R>, es: seq<Event<R>>, fs: seq<Event<R>>)
    ensures Run(a, es + fs) == Run(Run(a, es), fs)
    decreases |fs|
  {
    if fs == [] {
      assert es + fs == es;
    } else {
      var n := |fs| - 1;
      RunAppend(a, es, fs[..n]);
      assert (es + fs)[..|es + fs| - 1] == es + fs[..n];
    }
  }

  lemma LegalPrefix<R>(a: Allocator<R>, es: seq<Event<R>>, n: nat)
    requires n <= |es| && Legal(a, es)
    ensures Legal(a, es[..n])
  {
    forall i: nat | i < n ensures LegalAt(a, es[..n], i) {
      assert LegalAt(a, es, i) && es[..n][..i] == es[..i];
    }
  }

  lemma ApplyKeeps<R>(a: Allocator<R>, e: Event<R>)
    requires Balanced(a) && (e.Returned? ==> MayReturn(a))
    ensures Balanced(Apply(a, e))
    ensures Apply(a, e).granted + Apply(a, e).waiting ==
            if e.Request? then a.granted + a.waiting + [e.r] else a.granted + a.waiting
  {
    if e.Returned? && a.waiting != [] {
      assert a.waiting == [a.waiting[0]] + a.waiting[1..];
    }
  }

  /** What every legal run keeps: the balance of slots, and service strictly in order of arrival
      (the grants made so far followed by the queue are the arrivals, in order). */
  lemma {:induction false} RunsStayBalanced<R>(es: seq<Event<R>>)
    requires Legal(Initial<R>(), es)
    ensures Balanced(Run(Initial<R>(), es))
    ensures Run(Initial<R>(), es).granted + Run(Initial<R>(), es).waiting == Arrivals(es)
    ensures Run(Initial<R>(), es).returnCount == Returns(es)
    decreases |es|
  {
    if es != [] {
      var n := |es| - 1;
      LegalPrefix(Initial<R>(), es, n);
      RunsStayBalanced(es[..n]);
      assert LegalAt(Initial<R>(), es, n);
      ApplyKeeps(Run(Initial<R>(), es[..n]), es[n]);
    }
  }

  function Requests<R>(rs: seq<R>): (es: seq<Event<R>>)
    ensures |es| == |rs| && forall i :: 0 <= i < |es| ==> es[i] == Request(rs[i])
  {
    seq(|rs|, i requires 0 <= i < |rs| => Request(rs[i]))
  }

  /** The state of an allocator with no returns: the first 336 requests are granted, all later ones wait. */
  ghost predicate FirstServed<R>(a: Allocator<R>, rs: seq<R>) {
    var n := if |rs| <= 336 then |rs| else 336;
    a.granted == rs[..n] && a.waiting == rs[n..] && a.available == 336 - n
  }

  lemma NextServed<R>(a: Allocator<R>, rs: seq<R>, r: R)
    requires FirstServed(a, rs)
    ensures FirstServed(Apply(a, Request(r)), rs + [r])
  {
  }

  /** With no returns, 336 requests are granted at once and the 337th waits. */
  lemma {:induction false} SlotsInAll<R>(rs: seq<R>)
    ensures FirstServed(Run(Initial<R>(), Requests(rs)), rs)
    decreases |rs|
  {
    if rs != [] {
      var m := |rs| - 1;
      SlotsInAll(rs[..m]);
      assert Requests(rs)[..m] == Requests(rs[..m]);
      NextServed(Run(Initial<R>(), Requests(rs[..m])), rs[..m], rs[m]);
      assert rs == rs[..m] + [rs[m]];
    }
  }

  lemma QueueStep<R>(a: Allocator<R>, b: Allocator<R>, e: Event<R>, arrivals: seq<R>, k: nat)
    requires k < |a.waiting| && b.available == 0
    requires b.waiting == a.waiting[k..] + arrivals && b.granted == a.granted + a.waiting[..k]
    ensures var c := Apply(b, e);
            && c.available == 0
            && (e.Request? ==> c.granted == b.granted && c.waiting == a.waiting[k..] + (arrivals + [e.r]))
            && (e.Returned? ==> c.granted == a.granted + a.waiting[..k + 1] && c.waiting == a.waiting[k + 1..] + arrivals)
  {
    if e.Returned? {
      assert b.waiting[1..] == a.waiting[k + 1..] + arrivals;
      assert a.waiting[..k + 1] == a.waiting[..k] + [a.waiting[k]];
    }
  }

  /** While fewer returns than waiters have happened the queue has only moved up by that many. */
  lemma {:induction false} QueueMovesUp<R>(a: Allocator<R>, fs: seq<Event<R>>)
    requires Balanced(a) && a.waiting != [] && Returns(fs) < |a.waiting|
    ensures Run(a, fs).available == 0
    ensures Run(a, fs).waiting == a.waiting[Returns(fs)..] + Arrivals(fs)
    ensures Run(a, fs).granted == a.granted + a.waiting[..Returns(fs)]
    decreases |fs|
  {
    if fs != [] {
      var n := |fs| - 1;
      QueueMovesUp(a, fs[..n]);
      QueueStep(a, Run(a, fs[..n]), fs[n], Arrivals(fs[..n]), Returns(fs[..n]));
    }
  }

  /** A request with `k` requests ahead of it is granted by exactly the (k+1)-th later return:
      it still waits after `k` returns, whatever else arrives meanwhile, and the next return
      grants it and nothing else. */
  lemma GrantedOnReturn<R>(es: seq<Event<R>>, fs: seq<Event<R>>, k: nat)
    requires Legal(Initial<R>(), es)
    requires k < |Run(Initial<R>(), es).waiting|
    requires Returns(fs) == k
    ensures var a := Run(Initial<R>(), es);
            var b := Run(Initial<R>(), es + fs);
            var c := Run(Initial<R>(), es + fs + [Returned]);
            && b.granted == a.granted + a.waiting[..k]
            && b.waiting != [] && b.waiting[0] == a.waiting[k]
            && c.granted == b.granted + [a.waiting[k]]
  {
    var a := Run(Initial<R>(), es);
    RunsStayBalanced(es);
    QueueMovesUp(a, fs);
    RunAppend(Initial<R>(), es, fs);
    assert (es + fs + [Returned])[..|es + fs|] == es + fs;
  }

  lemma LegalBefore<R>(a: Allocator<R>, es: seq<Event<R>>, gs: seq<Event<R>>, i: nat)
    requires i < |es| && es <= gs && LegalAt(a, es, i)
    ensures LegalAt(a, gs, i)
  {
    assert gs[..i] == es[..i];
  }

  lemma LegalAfter<R>(a: Allocator<R>, es: seq<Event<R>>, fs: seq<Event<R>>, gs: seq<Event<R>>, i: nat)
    requires gs == es + fs && |es| <= i < |gs| && LegalAt(Run(a, es), fs, i - |es|)
    ensures LegalAt(a, gs, i)
  {
    assert gs[..i] == es + fs[..i - |es|];
    RunAppend(a, es, fs[..i - |es|]);
  }

  lemma LegalAppend<R>(a: Allocator<R>, es: seq<Event<R>>, fs: seq<Event<R>>)
    requires Legal(a, es) && Legal(Run(a, es), fs)
    ensures Legal(a, es + fs)
  {
    LegalParts(a, es, fs, es + fs);
  }

  lemma LegalParts<R>(a: Allocator<R>, es: seq<Event<R>>, fs: seq<Event<R>>, gs: seq<Event<R>>)
    requires Legal(a, es) && Legal(Run(a, es), fs) && gs == es + fs
    ensures Legal(a, gs)
  {
    forall i: nat | i < |gs| ensures LegalAt(a, gs, i) {
      if i < |es| {
        LegalBefore(a, es, gs, i);
      } else {
        LegalAfter(a, es, fs, gs, i);
      }
    }
  }
}
