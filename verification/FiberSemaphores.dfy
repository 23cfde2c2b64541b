/** The semaphore object of chat/mutex.cc, updated in place. */
module FiberSemaphores {
  import S = Semaphores

  class FiberSemaphore {
    var concurrency: nat
    var waiters: seq<nat>
    var scheduled: seq<nat>

    function View(): S.Sem<nat>
      reads this
    {
      S.Sem(concurrency, waiters)
    }

    constructor (initial: nat)
      ensures View() == S.Sem(initial, []) && scheduled == []
    {
      concurrency, waiters, scheduled := initial, [], [];
    }

    method TryWait() returns (ok: bool)
      modifies this
      ensures (View(), ok) == S.TryWait(old(View())) && scheduled == old(scheduled)
    {
      if concurrency > 0 {
        concurrency := concurrency - 1;
        return true;
      }
      return false;
    }

    /** The locked part of `wait`; a fiber that is not granted yields to HOLD afterwards. */
    method Wait(fiber: nat) returns (granted: bool)
      modifies this
      ensures (View(), granted) == S.Wait(old(View()), fiber) && scheduled == old(scheduled)
    {
      if concurrency > 0 {
        concurrency := concurrency - 1;
        return true;
      }
      waiters := waiters + [fiber];
      return false;
    }

    /** A woken fiber is scheduled inside the lock. */
    method Notify()
      modifies this
      ensures var (s, woken) := S.Notify(old(View()));
              View() == s && scheduled == old(scheduled) + (if woken.Some? then [woken.value] else [])
    {
      if waiters != [] {
        var next := waiters[0];
        waiters := waiters[1..];
        scheduled := scheduled + [next];
      } else {
        concurrency := concurrency + 1;
      }
    }
  }
}
