/**
  The registrations and timers of module `IoWait` are those of `Events` and `Timers`: each of its pieces of
  a slice is matched by the operation of those modules that the source calls there.
 */
module IoRefinement {
  import opened Options
  import opened IoWait
  import E = Events
  import T = Timers

  // ---------------------------------------------------------------- registrations

  /** The slot of one event of a context. */
  function SlotOf(c: nat, e: E.Event): Slot {
    2 * c + Count(e.Write?)
  }

  /** What a context holds for a waiter: the fiber itself, or somebody's callback. */
  predicate Fills(x: E.Ctx, waiter: Waiter) {
    match waiter
    case IoFiber(f) => x == E.Filled(E.FiberTask(f))
    case Foreign => x.scheduler && x.fiber.None? && x.cb.Some?
  }

  ghost predicate SlotAgrees(w: World, io: E.IO, c: nat, e: E.Event)
    requires c < |io.ctxs|
  {
    && (SlotOf(c, e) in w.armed <==> E.Has(io.ctxs[c], e))
    && (SlotOf(c, e) in w.armed ==> Fills(E.CtxOf(io.ctxs[c], e), w.armed[SlotOf(c, e)]))
  }

  ghost predicate EventsAgree(w: World, io: E.IO) {
    forall c: nat, e :: c < |io.ctxs| ==> SlotAgrees(w, io, c, e)
  }

  /** The run-queue entry for a task that an event hands to the scheduler. */
  function EntryOf(t: E.Task): Entry {
    match t
    case FiberTask(f) => Resume(f)
    case CbTask(_) => Other
  }

  /** Only slot `(c, e)` changes, on both sides. */
  lemma OneSlot(w: World, io: E.IO, w': World, io': E.IO, c: nat, e: E.Event)
    requires EventsAgree(w, io) && c < |io.ctxs| && |io'.ctxs| == |io.ctxs|
    requires forall s :: s != SlotOf(c, e) ==> (s in w'.armed <==> s in w.armed) && (s in w.armed ==> w'.armed[s] == w.armed[s])
    requires forall b :: 0 <= b < |io.ctxs| && b != c ==> io'.ctxs[b] == io.ctxs[b]
    requires forall g :: g != e ==> E.Has(io'.ctxs[c], g) == E.Has(io.ctxs[c], g) && E.CtxOf(io'.ctxs[c], g) == E.CtxOf(io.ctxs[c], g)
    requires SlotAgrees(w', io', c, e)
    ensures EventsAgree(w', io')
  {
    forall b: nat, g | b < |io'.ctxs| ensures SlotAgrees(w', io', b, g) {
      assert SlotAgrees(w, io, b, g);
      assert (b, g) != (c, e) ==> SlotOf(b, g) != SlotOf(c, e);
    }
  }

  /** `cancelEvent`, with its trigger: the same waiter moves to the same queue, or nothing happens. */
  lemma FireRefinesCancel(w: World, io: E.IO, c: nat, e: E.Event)
    requires EventsAgree(w, io) && c < |io.ctxs|
    ensures var w', io' := Fire(w, SlotOf(c, e)), E.Cancel(io, c, e, true).0;
            && EventsAgree(w', io')
            && if E.Has(io.ctxs[c], e)
               then exists t :: io'.queue == io.queue + [t] && w'.queue == w.queue + multiset{EntryOf(t)}
               else io' == io && w' == w
  {
    assert SlotAgrees(w, io, c, e);
    var w', io' := Fire(w, SlotOf(c, e)), E.Cancel(io, c, e, true).0;
    if E.Has(io.ctxs[c], e) {
      OneSlot(w, io, w', io', c, e);
      var x := E.CtxOf(io.ctxs[c], e);
      var t := if x.cb.Some? then E.CbTask(x.cb.value) else E.FiberTask(x.fiber.value);
      assert io'.queue == io.queue + [t] && w'.queue == w.queue + multiset{EntryOf(t)};
    }
  }

  /** `delEvent`. */
  lemma DeletedRefinesDelete(w: World, io: E.IO, c: nat, e: E.Event)
    requires EventsAgree(w, io) && c < |io.ctxs| && SlotOf(c, e) in w.armed
    ensures E.Delete(io, c, e, true).1 && EventsAgree(Deleted(w, SlotOf(c, e)), E.Delete(io, c, e, true).0)
  {
    assert SlotAgrees(w, io, c, e);
    OneSlot(w, io, Deleted(w, SlotOf(c, e)), E.Delete(io, c, e, true).0, c, e);
  }

  /** `addEvent` by a fiber that is about to park. */
  lemma ParkRefinesArm(w: World, io: E.IO, c: nat, e: E.Event, f: Fiber, call: Call, t: Option<Timer>)
    requires EventsAgree(w, io) && c < |io.ctxs| && call in w.calls && w.calls[call].slot == SlotOf(c, e)
    requires SlotOf(c, e) !in w.armed
    ensures var (io', r) := E.Arm(io, c, e, E.FiberTask(f), true);
            r.Ok? && EventsAgree(Attempt(w, f, call, Blocks(t)), io')
  {
    assert SlotAgrees(w, io, c, e);
    OneSlot(w, io, Attempt(w, f, call, Blocks(t)), E.Arm(io, c, e, E.FiberTask(f), true).0, c, e);
  }

  /** A fiber that waits in `do_io` sits in exactly one context: that of its own slot. */
  lemma WaitsInOneContext(w: World, io: E.IO, f: Fiber, c: nat, e: E.Event)
    requires Inv(w) && EventsAgree(w, io) && c < |io.ctxs| && SlotOf(c, e) in w.armed && w.armed[SlotOf(c, e)] == IoFiber(f)
    ensures E.Has(io.ctxs[c], e) && E.CtxOf(io.ctxs[c], e) == E.Filled(E.FiberTask(f))
    ensures ArmedFor(w, f) && w.calls[w.parked[f].call].slot == SlotOf(c, e) && w.queue[Resume(f)] == 0
    ensures forall b: nat, g :: b < |io.ctxs| && SlotOf(b, g) in w.armed && w.armed[SlotOf(b, g)] == IoFiber(f) ==> (b, g) == (c, e)
  {
    assert SlotAgrees(w, io, c, e);
    assert ParkOk(w, f);
  }

  // ---------------------------------------------------------------- timers

  /** A condition timer is a one-shot timer of the manager, in the set exactly while it is armed here. */
  ghost predicate TimerAgrees(w: World, tm: T.State, t: Timer)
    requires t in w.timers
  {
    && t in tm.recs && tm.recs[t].hadCb && !tm.recs[t].recurring
    && (w.timers[t].st.Armed? <==> T.InSet(tm, t))
  }

  ghost predicate TimersAgree(w: World, tm: T.State) {
    T.Valid(tm) && forall t :: t in w.timers ==> TimerAgrees(w, tm, t)
  }

  /** `timer->cancel()`: succeeds exactly while the timer is armed. */
  lemma StopRefinesCancel(w: World, tm: T.State, t: Timer)
    requires TimersAgree(w, tm) && t in w.timers
    ensures t in tm.recs && TimersAgree(StopTimer(w, Some(t)), T.Cancel(tm, t).0)
    ensures T.Cancel(tm, t).1 <==> w.timers[t].st.Armed?
  {
    assert TimerAgrees(w, tm, t);
    T.CancelKeeps(tm, t);
    var w', tm' := StopTimer(w, Some(t)), T.Cancel(tm, t).0;
    forall x | x in w'.timers ensures TimerAgrees(w', tm', x) {
      assert TimerAgrees(w, tm, x);
    }
  }

  /** `addConditionTimer`. */
  lemma AddRefinesAdd(w: World, tm: T.State, c: Call, t: Timer, now: nat, ms: nat)
    requires TimersAgree(w, tm) && t !in w.timers && t !in tm.recs
    ensures TimersAgree(AddTimer(w, c, Some(t), Armed), T.Add(tm, now, t, ms, true, false).0)
  {
    T.AddKeeps(tm, now, t, ms, true, false);
    T.InsertMembers(tm.order, T.Key(T.W(now + ms), t));
    var w', tm' := AddTimer(w, c, Some(t), Armed), T.Add(tm, now, t, ms, true, false).0;
    forall x | x in w'.timers ensures TimerAgrees(w', tm', x) {
      assert x != t ==> TimerAgrees(w, tm, x);
    }
  }

  /** The condition timers among the keys handed out, expired one by one. */
  ghost function ExpireAll(w: World, due: seq<T.Key>): World
    decreases |due|
  {
    if due == [] then w
    else
      ExpireAll(ExpireOne(w, due[0].id), due[1..])
  }

  function ExpireOne(w: World, t: Timer): World {
    if Can(w, ExpireTimer(t)) then Do(w, ExpireTimer(t)) else w
  }

  lemma {:induction false} ExpireAllTimers(w: World, due: seq<T.Key>)
    requires Unique(due)
    ensures var w' := ExpireAll(w, due);
            && w'.timers.Keys == w.timers.Keys
            && forall x :: x in w.timers ==> (w'.timers[x].st.Armed? <==> w.timers[x].st.Armed? && x !in T.Ids(due))
    decreases |due|
  {
    if due != [] {
      ExpireAllTimers(ExpireOne(w, due[0].id), due[1..]);
      IdsCons(due);
    }
  }

  lemma {:induction false} ExpireAllQueue(w: World, due: seq<T.Key>, x: Timer)
    requires Unique(due)
    ensures ExpireAll(w, due).queue[Timeout(x)] ==
              w.queue[Timeout(x)] + Count(x in T.Ids(due) && x in w.timers && w.timers[x].st.Armed?)
    decreases |due|
  {
    if due != [] {
      ExpireAllQueue(ExpireOne(w, due[0].id), due[1..], x);
      IdsCons(due);
    }
  }

  ghost predicate Unique(due: seq<T.Key>) {
    forall i, j :: 0 <= i < j < |due| ==> due[i].id != due[j].id
  }

  lemma IdsCons(due: seq<T.Key>)
    requires due != [] && Unique(due)
    ensures T.Ids(due) == T.Ids(due[1..]) + {due[0].id} && due[0].id !in T.Ids(due[1..]) && Unique(due[1..])
  {
    assert due == [due[0]] + due[1..];
  }

  /** `listExpiredCb`: every armed condition timer that is due, and no other, is handed to the queue. */
  lemma ExpireRefinesListExpired(w: World, tm: T.State, now: nat)
    requires TimersAgree(w, tm)
    ensures var (tm', due) := T.ListExpired(tm, now);
            && TimersAgree(ExpireAll(w, due), tm')
            && forall x :: x in w.timers ==>
                 ExpireAll(w, due).queue[Timeout(x)] ==
                   w.queue[Timeout(x)] + Count(w.timers[x].st.Armed? && (T.Rollover(tm.previous, now) || tm.recs[x].next <= now))
  {
    var (tm', due) := T.ListExpired(tm, now);
    T.ExpiryIsExact(tm, now);
    DueDistinct(tm, now);
    ExpireAllTimers(w, due);
    forall x | x in w.timers
      ensures ExpireAll(w, due).queue[Timeout(x)] == w.queue[Timeout(x)] + Count(x in T.Ids(due) && w.timers[x].st.Armed?)
    {
      ExpireAllQueue(w, due, x);
    }
    forall x | x in w.timers
      ensures TimerAgrees(ExpireAll(w, due), tm', x)
      ensures w.timers[x].st.Armed? ==> (x in T.Ids(due) <==> T.Rollover(tm.previous, now) || tm.recs[x].next <= now)
    {
      OneExpires(w, tm, now, x);
    }
  }

  lemma OneExpires(w: World, tm: T.State, now: nat, x: Timer)
    requires TimersAgree(w, tm) && x in w.timers
    ensures var (tm', due) := T.ListExpired(tm, now);
            && x in tm'.recs && tm'.recs[x].hadCb && !tm'.recs[x].recurring
            && (T.InSet(tm', x) <==> w.timers[x].st.Armed? && x !in T.Ids(due))
            && (w.timers[x].st.Armed? ==> (x in T.Ids(due) <==> T.Rollover(tm.previous, now) || tm.recs[x].next <= now))
  {
    assert TimerAgrees(w, tm, x);
    T.ExpiryIsExact(tm, now);
    if T.InSet(tm, x) {
      DueIds(tm, now, x);
    }
  }

  lemma DueDistinct(tm: T.State, now: nat)
    requires T.Valid(tm)
    ensures Unique(T.ListExpired(tm, now).1)
  {
    T.ExpiryIsExact(tm, now);
    var due := T.ListExpired(tm, now).1;
    forall i, j | 0 <= i < j < |due| ensures due[i].id != due[j].id {
      assert due[i] in due && due[j] in due;
      assert T.Less(due[i], due[j]);
    }
  }

  lemma DueIds(tm: T.State, now: nat, x: Timer)
    requires T.Valid(tm) && T.InSet(tm, x)
    ensures var due := T.ListExpired(tm, now).1;
            x in T.Ids(due) <==> T.Rollover(tm.previous, now) || tm.recs[x].next <= now
  {
    T.ExpiryIsExact(tm, now);
    var due := T.ListExpired(tm, now).1;
    var k := T.Key(tm.recs[x].next, x);
    if x in T.Ids(due) {
      var j :| j in due && j.id == x;
      assert j in tm.order;
    }
    if k in due {
      assert x in T.Ids(due);
    }
  }
}
