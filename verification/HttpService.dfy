/** The service object with its fields updated in place. Every method is proved against the step
    functions of LoaderProtocol; the slot ledger holds at every point where a callback is called. */
module HttpService {
  import opened Common
  import A = SlotAllocator
  import opened LoaderProtocol

  lemma KeepsSound(s: Service, step: Step)
    requires Enabled(s, step)
    ensures Sound(s) ==> Sound(Apply(s, step)) && (step.RunIo? ==> !Apply(s, step).crashed)
  {
    if Sound(s) {
      StepSound(s, step);
      if step.RunIo? {
        RunIoSound(s, step.c);
      }
    }
  }

  class HttpServiceImpl {
    var availableSlots: nat
    var slotRequests: seq<LoaderId>
    var loaders: map<LoaderId, Container>
    var mainQueue: seq<MainTask>
    var nextId: LoaderId
    var crashed: bool
    // History: all grants in order (a slot is known by its number there), and the slots returned.
    var granted: seq<LoaderId>
    var returned: seq<nat>

    ghost function View(): Service
      reads this
    {
      Service(availableSlots, slotRequests, loaders, mainQueue, granted, returned, nextId, crashed)
    }

    constructor ()
      ensures View() == Initial() && Sound(View())
    {
      availableSlots := A.MAX_SLOTS;
      slotRequests := [];
      loaders := map[];
      mainQueue := [];
      nextId := 0;
      crashed := false;
      granted, returned := [], [];
    }

    method CreateURLLoader()
      requires !crashed
      modifies this
      ensures View() == Apply(old(View()), CreateLoader)
      ensures old(Sound(View())) ==> Sound(View())
    {
      KeepsSound(View(), CreateLoader);
      loaders := loaders[nextId := Container(None, false, [StartOnIo], true, false, 0, 0)];
      nextId := nextId + 1;
    }

    /** Runs a slot request that has just been given slot number `token`. */
    method Grant(c: LoaderId, token: nat)
      requires Ledger(View()) && token < |granted| && token !in returned
      modifies this
      ensures Ledger(View())
      ensures View() == if c in old(loaders) then Deliver(old(View()), c, token) else Return(old(View()), token)
      decreases |slotRequests|, 1
    {
      if c !in loaders {
        OnSlotReturned(token);
        return;
      }
      var k := loaders[c];
      loaders := loaders[c := k.(onInactive := Some(token), ioQueue := k.ioQueue + [RunSlot])];
    }

    method OnSlotReturned(token: nat)
      requires Ledger(View()) && token < |granted| && token !in returned
      modifies this
      ensures Ledger(View())
      ensures View() == Return(old(View()), token)
      decreases |slotRequests|, 0
    {
      MissingOne(returned, |granted|, token);
      assert availableSlots < A.MAX_SLOTS;
      returned := returned + [token];
      if slotRequests == [] {
        availableSlots := availableSlots + 1;
        return;
      }
      var request := slotRequests[0];
      slotRequests := slotRequests[1..];
      granted := granted + [request];
      Grant(request, |granted| - 1);
    }

    method RequestNetworkSlot(c: LoaderId)
      requires c in loaders && Ledger(View())
      modifies this
      ensures Ledger(View())
      ensures View() == Request(old(View()), c)
    {
      if availableSlots == 0 {
        slotRequests := slotRequests + [c];
        return;
      }
      availableSlots := availableSlots - 1;
      granted := granted + [c];
      Grant(c, |granted| - 1);
    }

    /** The task posted by the slot request's completion. */
    method TakeBackSlot(c: LoaderId)
      requires Ledger(View()) && Holders(View(), {})
      modifies this
      ensures View() == RunMainTask(old(View()), ReturnSlot(c))
    {
      if c !in loaders {
        return;
      }
      var onInactive := loaders[c].onInactive;
      if onInactive.None? {
        crashed := true;
        return;
      }
      loaders := loaders[c := loaders[c].(onInactive := None)];
      OnSlotReturned(onInactive.value);
    }

    method JoinAndNotify(c: LoaderId)
      requires Ledger(View()) && Holders(View(), {}) && c in loaders
      modifies this
      ensures View() == Join(old(View()), c)
    {
      if loaders[c].joined {
        return;
      }
      loaders := loaders[c := loaders[c].(joined := true)];
      if loaders[c].onInactive.Some? {
        OnSlotReturned(loaders[c].onInactive.value);
      }
      loaders := loaders - {c};
    }

    /** The main thread takes its oldest task. */
    method RunMainLoop()
      requires Sound(View()) && Enabled(View(), RunMain)
      modifies this
      ensures View() == Apply(old(View()), RunMain)
      ensures Sound(View())
    {
      ghost var before := View();
      StepSound(before, RunMain);
      var task := mainQueue[0];
      mainQueue := mainQueue[1..];
      match task
      case RequestSlot(c) => if c in loaders { RequestNetworkSlot(c); }
      case ReturnSlot(c) => TakeBackSlot(c);
      case JoinAndNotify(c) => JoinAndNotify(c);
    }

    /** The IO thread of `c` takes its oldest task. */
    method RunIoLoop(c: LoaderId)
      requires Enabled(View(), RunIo(c))
      modifies this
      ensures View() == Apply(old(View()), RunIo(c))
      ensures old(Sound(View())) ==> Sound(View()) && !crashed
    {
      KeepsSound(View(), RunIo(c));
      RunOneIoTask(c);
    }

    method RunOneIoTask(c: LoaderId)
      requires Enabled(View(), RunIo(c))
      modifies this
      ensures View() == Apply(old(View()), RunIo(c))
    {
      var k := loaders[c];
      var task := k.ioQueue[0];
      loaders := loaders[c := k.(ioQueue := k.ioQueue[1..])];
      match task
      case StartOnIo => loaders := loaders[c := loaders[c].(bound := true)];
      case RunSlot =>
        if !k.bound {
          crashed := true;
        } else {
          loaders := loaders[c := loaders[c].(served := k.served + 1)];
          mainQueue := mainQueue + [ReturnSlot(c)];
        }
    }

    /** A Start message reaches the bound loader on its IO thread. */
    method Start(c: LoaderId)
      requires Enabled(View(), ClientStart(c))
      modifies this
      ensures View() == Apply(old(View()), ClientStart(c))
      ensures old(Sound(View())) ==> Sound(View())
    {
      KeepsSound(View(), ClientStart(c));
      loaders := loaders[c := loaders[c].(starts := loaders[c].starts + 1)];
      mainQueue := mainQueue + [RequestSlot(c)];
    }

    /** The binding's error handler. */
    method StopOnIOThread(c: LoaderId)
      requires Enabled(View(), BindingError(c))
      modifies this
      ensures View() == Apply(old(View()), BindingError(c))
      ensures old(Sound(View())) ==> Sound(View())
    {
      KeepsSound(View(), BindingError(c));
      loaders := loaders[c := loaders[c].(bound := false, running := false)];
      mainQueue := mainQueue + [MainTask.JoinAndNotify(c)];
    }
  }
}
