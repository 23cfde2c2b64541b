/**
  The wait inside `do_io` and `connect_with_timeout` (chat/hook.cc): a fiber that gets EAGAIN arms a
  condition timer and an event, yields, and is queued again by readiness, by its timeout or by a
  cancel. One step per task slice between yields, per expiry and per event operation; the run queue
  may be served in any order.
 */
module IoWait {
  import opened Options

  /** A descriptor and direction: at most one registration each. */
  type Slot = nat
  type Fiber = nat
  type Call = nat
  type Timer = nat

  /** Who is registered on a slot: a fiber inside `do_io`, or something else. */
  datatype Waiter = IoFiber(fiber: Fiber) | Foreign

  datatype Entry = Resume(fiber: Fiber) | Timeout(timer: Timer) | Other

  /** One `do_io` call. `cancelled` is `timer_info::cancelled`. */
  datatype Status = Live | Finished | TimedOut | Failed
  datatype CallRec = CallRec(fiber: Fiber, slot: Slot, cancelled: bool, status: Status)

  /** A condition timer: armed, handed to the run queue, run, or cancelled. */
  datatype TimerState = Armed | Handed | Ran | Stopped
  datatype TimerRec = TimerRec(call: Call, st: TimerState)

  /** A parked fiber: its call, the timer of this wait, how often this park was queued, and whether
      its registration was deleted under it. */
  datatype Park = Park(call: Call, timer: Option<Timer>, woken: nat, deleted: bool)

  /** Who shares ownership of a call's `timer_info`: the stack frame of `do_io`, `OnTimer` while it runs a
      callback, and the callback itself after its own `lock`. Timers hold weak references only. */
  datatype Owners = Owners(frame: bool, onTimer: bool, callback: bool)

  datatype World = World(parked: map<Fiber, Park>, calls: map<Call, CallRec>, armed: map<Slot, Waiter>,
                         timers: map<Timer, TimerRec>, queue: multiset<Entry>,
                         owners: map<Call, Owners>)

  /** How the system call and the registration of one slice turn out. */
  datatype Slice = Done | Blocks(timer: Option<Timer>) | BlocksButAddFails(timer: Option<Timer>)

  datatype Step =
    | Begin(f: Fiber, c: Call, slot: Slot, how: Slice)
    | ResumeFiber(f: Fiber, how: Slice)
    | ExpireTimer(t: Timer)
    | RunTimeout(t: Timer, epoll: bool)
    | Trigger(slot: Slot)
    | Delete(slot: Slot)
    | ForeignAdd(slot: Slot)
    | Push | Pop

  function Minus<K, V>(m: map<K, V>, k: K): map<K, V> {
    m - {k}
  }

  // ---------------------------------------------------------------- who owns a timer_info

  const NOBODY := Owners(false, false, false)

  function OwnersOf(w: World, c: Call): Owners {
    if c in w.owners then w.owners[c] else NOBODY
  }

  /** `weak_ptr::lock` succeeds while somebody owns the object. */
  predicate Alive(w: World, c: Call) {
    var o := OwnersOf(w, c);
    o.frame || o.onTimer || o.callback
  }

  function SetOwners(w: World, c: Call, o: Owners): World {
    w.(owners := w.owners[c := o])
  }

  /** `do_io` returns: its frame goes, and with it its share. */
  function Return(w: World, c: Call, status: Status): World
    requires c in w.calls
  {
    SetOwners(w.(calls := w.calls[c := w.calls[c].(status := status)]), c, OwnersOf(w, c).(frame := false))
  }

  // ---------------------------------------------------------------- pieces of a slice

  /** Event `slot` fires: its waiter moves from the context to the run queue. */
  function Fire(w: World, slot: Slot): World {
    if slot !in w.armed then w
    else
      match w.armed[slot]
      case Foreign => w.(armed := Minus(w.armed, slot), queue := w.queue + multiset{Other})
      case IoFiber(f) =>
        w.(armed := Minus(w.armed, slot), queue := w.queue + multiset{Resume(f)},
           parked := if f in w.parked then w.parked[f := w.parked[f].(woken := w.parked[f].woken + 1)] else w.parked)
  }

  function AddTimer(w: World, c: Call, t: Option<Timer>, st: TimerState): World {
    if t.None? then w else w.(timers := w.timers[t.value := TimerRec(c, st)])
  }

  /** The rest of a slice of call `c` by the running fiber `f`, from the system call on. */
  function Attempt(w: World, f: Fiber, c: Call, how: Slice): World
    requires c in w.calls
  {
    match how
    case Done => Return(w, c, Finished)
    case Blocks(t) =>
      AddTimer(w, c, t, Armed).(armed := w.armed[w.calls[c].slot := IoFiber(f)],
                                parked := w.parked[f := Park(c, t, 0, false)])
    case BlocksButAddFails(t) =>
      Return(AddTimer(w, c, t, Stopped), c, Failed)
  }

  /** `timer->cancel()` after the yield. */
  function StopTimer(w: World, t: Option<Timer>): World {
    if t.Some? && t.value in w.timers && w.timers[t.value].st.Armed?
    then w.(timers := w.timers[t.value := w.timers[t.value].(st := Stopped)])
    else w
  }

  predicate FreshTimer(w: World, how: Slice) {
    match how
    case Done => true
    case Blocks(t) => t.Some? ==> t.value !in w.timers
    case BlocksButAddFails(t) => t.Some? ==> t.value !in w.timers
  }

  /** Registering an event twice aborts the program, so a blocking slice finds its slot free. */
  predicate SlotFree(w: World, slot: Slot, how: Slice) {
    how.Done? || slot !in w.armed
  }

  predicate Can(w: World, a: Step) {
    match a
    case Begin(f, c, slot, how) =>
      f !in w.parked && c !in w.calls && FreshTimer(w, how) && SlotFree(w, slot, how)
    case ResumeFiber(f, how) =>
      && Resume(f) in w.queue && f in w.parked && w.parked[f].call in w.calls
      && FreshTimer(w, how) && SlotFree(w, w.calls[w.parked[f].call].slot, how)
    case ExpireTimer(t) => t in w.timers && w.timers[t].st.Armed?
    case RunTimeout(t, _) => Timeout(t) in w.queue && t in w.timers && w.timers[t].call in w.calls
    case Trigger(_) => true
    case Delete(slot) => slot in w.armed
    case ForeignAdd(slot) => slot !in w.armed
    case Push => true
    case Pop => Other in w.queue
  }

  /** The slice of a resumed fiber: stop this wait's timer, report a timeout, or retry. */
  function Resumed(w: World, f: Fiber, how: Slice): World
    requires f in w.parked && w.parked[f].call in w.calls
  {
    var p := w.parked[f];
    var w1 := StopTimer(w.(queue := w.queue - multiset{Resume(f)}, parked := Minus(w.parked, f)), p.timer);
    if w.calls[p.call].cancelled then Return(w1, p.call, TimedOut)
    else Attempt(w1, f, p.call, how)
  }

  /** Unless the call is marked already, mark it and cancel whatever is registered on its slot. */
  function MarkAndCancel(w: World, c: Call, epoll: bool): World
    requires c in w.calls
  {
    if w.calls[c].cancelled then w
    else
      var w1 := w.(calls := w.calls[c := w.calls[c].(cancelled := true)]);
      if epoll then Fire(w1, w.calls[c].slot) else w1
  }

  /** The callback of a timeout, which locks the `timer_info` itself. */
  function TimeoutCallback(w: World, c: Call, epoll: bool): World
    requires c in w.calls
  {
    if !Alive(w, c) then w
    else
      var o := OwnersOf(w, c);
      SetOwners(MarkAndCancel(SetOwners(w, c, o.(callback := true)), c, epoll), c, o)
  }

  /** `OnTimer`: runs the callback if the `timer_info` is still there, and keeps it alive meanwhile. */
  function TimedOutNow(w: World, t: Timer, epoll: bool): World
    requires t in w.timers && w.timers[t].call in w.calls
  {
    var c := w.timers[t].call;
    var w1 := w.(queue := w.queue - multiset{Timeout(t)}, timers := w.timers[t := w.timers[t].(st := Ran)]);
    if !Alive(w1, c) then w1
    else
      var o := OwnersOf(w1, c);
      SetOwners(TimeoutCallback(SetOwners(w1, c, o.(onTimer := true)), c, epoll), c, o)
  }

  function Deleted(w: World, slot: Slot): World
    requires slot in w.armed
  {
    match w.armed[slot]
    case Foreign => w.(armed := Minus(w.armed, slot))
    case IoFiber(f) =>
      w.(armed := Minus(w.armed, slot),
         parked := if f in w.parked then w.parked[f := w.parked[f].(deleted := true)] else w.parked)
  }

  /** A new call: its frame makes and owns the `timer_info`. */
  function Called(w: World, f: Fiber, c: Call, slot: Slot): World {
    w.(calls := w.calls[c := CallRec(f, slot, false, Live)], owners := w.owners[c := Owners(true, false, false)])
  }

  function Do(w: World, a: Step): World
    requires Can(w, a)
  {
    match a
    case Begin(f, c, slot, how) =>
      Attempt(Called(w, f, c, slot), f, c, how)
    case ResumeFiber(f, how) => Resumed(w, f, how)
    case ExpireTimer(t) =>
      w.(timers := w.timers[t := w.timers[t].(st := Handed)], queue := w.queue + multiset{Timeout(t)})
    case RunTimeout(t, epoll) => TimedOutNow(w, t, epoll)
    case Trigger(slot) => Fire(w, slot)
    case Delete(slot) => Deleted(w, slot)
    case ForeignAdd(slot) => w.(armed := w.armed[slot := Foreign])
    case Push => w.(queue := w.queue + multiset{Other})
    case Pop => w.(queue := w.queue - multiset{Other})
  }

  // ---------------------------------------------------------------- the invariant

  /** The slot a parked fiber waits on holds that very fiber. */
  predicate ArmedFor(w: World, f: Fiber) {
    && f in w.parked && w.parked[f].call in w.calls
    && w.calls[w.parked[f].call].slot in w.armed
    && w.armed[w.calls[w.parked[f].call].slot] == IoFiber(f)
  }

  /** A parked fiber is waiting on its slot, or queued once, or was deleted: exactly one of them. */
  ghost predicate ParkOk(w: World, f: Fiber)
    requires f in w.parked
  {
    var p := w.parked[f];
    && p.call in w.calls && w.calls[p.call].fiber == f && w.calls[p.call].status.Live?
    && Count(ArmedFor(w, f)) + p.woken + Count(p.deleted) == 1
    && w.queue[Resume(f)] == p.woken
  }

  ghost predicate Parks(w: World) {
    && (forall f :: f in w.parked ==> ParkOk(w, f))
    && (forall f :: f !in w.parked ==> w.queue[Resume(f)] == 0)
  }

  /** Fibers in event contexts are parked on exactly that slot; live calls belong to parked fibers. */
  ghost predicate Slots(w: World, running: Option<Call>) {
    && (forall s :: s in w.armed && w.armed[s].IoFiber? ==>
          var f := w.armed[s].fiber;
          f in w.parked && w.parked[f].call in w.calls && w.calls[w.parked[f].call].slot == s)
    && (forall c :: c in w.calls && w.calls[c].status.Live? && Some(c) != running ==>
          w.calls[c].fiber in w.parked && w.parked[w.calls[c].fiber].call == c)
  }

  /** `t` is the timer of the wait its call is in. */
  predicate CurrentTimer(w: World, t: Timer) {
    && t in w.timers && w.timers[t].call in w.calls && w.calls[w.timers[t].call].status.Live?
    && w.calls[w.timers[t].call].fiber in w.parked
    && w.parked[w.calls[w.timers[t].call].fiber].timer == Some(t)
  }

  ghost predicate OwnTimerRan(w: World, c: Call) {
    exists t :: t in w.timers && w.timers[t].call == c && w.timers[t].st.Ran?
  }

  /** An armed timer is the current wait's; a call is cancelled or timed out only by a timer of its own
      that expired and ran. */
  ghost predicate Clocks(w: World) {
    && (forall t :: t in w.timers ==> w.timers[t].call in w.calls)
    && (forall t :: t in w.timers && w.timers[t].st.Armed? ==> CurrentTimer(w, t))
    && (forall c :: c in w.calls && (w.calls[c].cancelled || w.calls[c].status.TimedOut?) ==> OwnTimerRan(w, c))
  }

  /** Between slices a `timer_info` is owned by its call's frame while the call is live, and by nobody
      afterwards. */
  ghost predicate Owned(w: World) {
    && w.owners.Keys == w.calls.Keys
    && forall c :: c in w.calls ==> w.owners[c] == Owners(w.calls[c].status.Live?, false, false)
  }

  ghost predicate Core(w: World) {
    Parks(w) && Slots(w, None) && Clocks(w)
  }

  ghost predicate Inv(w: World) {
    Core(w) && Owned(w)
  }

  /** The invariant inside a slice: call `c` is live although its fiber `f` runs. */
  ghost predicate Running(w: World, f: Fiber, c: Call) {
    && f !in w.parked && c in w.calls && w.calls[c].fiber == f && w.calls[c].status.Live?
    && Parks(w) && Slots(w, Some(c)) && Clocks(w)
  }

  // ---------------------------------------------------------------- every step keeps it

  /** What parking depends on: who is parked on which call and slot, and how often each fiber is queued. */
  ghost predicate SameWaits(w: World, w': World) {
    && w'.parked == w.parked && w'.calls.Keys == w.calls.Keys
    && (forall c :: c in w.calls ==>
          w'.calls[c].fiber == w.calls[c].fiber && w'.calls[c].slot == w.calls[c].slot && w'.calls[c].status == w.calls[c].status)
    && (forall s :: (s in w'.armed && w'.armed[s].IoFiber?) <==> (s in w.armed && w.armed[s].IoFiber?))
    && (forall s :: s in w.armed && w.armed[s].IoFiber? ==> w'.armed[s] == w.armed[s])
    && (forall f :: w'.queue[Resume(f)] == w.queue[Resume(f)])
  }

  lemma WaitsKept(w: World, w': World)
    requires Parks(w) && Slots(w, None) && SameWaits(w, w')
    ensures Parks(w') && Slots(w', None)
  {
    forall g | g in w'.parked ensures ParkOk(w', g) {
      assert ParkOk(w, g);
      assert ArmedFor(w', g) <==> ArmedFor(w, g);
    }
  }

  lemma FireIoParks(w: World, slot: Slot, f: Fiber)
    requires Core(w) && slot in w.armed && w.armed[slot] == IoFiber(f)
    ensures Parks(Fire(w, slot)) && Slots(Fire(w, slot), None)
  {
    var w' := Fire(w, slot);
    assert ParkOk(w, f) && ArmedFor(w, f);
    forall g | g in w'.parked ensures ParkOk(w', g) {
      assert ParkOk(w, g);
    }
  }

  lemma FireParks(w: World, slot: Slot)
    requires Core(w)
    ensures Parks(Fire(w, slot)) && Slots(Fire(w, slot), None)
  {
    if slot in w.armed && w.armed[slot].IoFiber? {
      FireIoParks(w, slot, w.armed[slot].fiber);
    } else if slot in w.armed {
      WaitsKept(w, Fire(w, slot));
    }
  }

  lemma FireKeeps(w: World, slot: Slot)
    requires Core(w)
    ensures Core(Fire(w, slot))
  {
    FireParks(w, slot);
    FireClocks(w, slot);
  }

  lemma FireClocks(w: World, slot: Slot)
    requires Clocks(w)
    ensures Clocks(Fire(w, slot))
  {
    var w' := Fire(w, slot);
    forall t | t in w'.timers && w'.timers[t].st.Armed? ensures CurrentTimer(w', t) {
      assert CurrentTimer(w, t);
    }
    forall c | c in w'.calls && (w'.calls[c].cancelled || w'.calls[c].status.TimedOut?) ensures OwnTimerRan(w', c) {
      assert OwnTimerRan(w, c);
    }
  }

  lemma DeleteParks(w: World, slot: Slot)
    requires Core(w) && slot in w.armed
    ensures Parks(Deleted(w, slot))
  {
    var w' := Deleted(w, slot);
    if w.armed[slot].IoFiber? {
      var f := w.armed[slot].fiber;
      assert ParkOk(w, f) && ArmedFor(w, f);
    }
    forall g | g in w'.parked ensures ParkOk(w', g) {
      assert ParkOk(w, g);
    }
  }

  lemma DeleteClocks(w: World, slot: Slot)
    requires Clocks(w) && slot in w.armed
    ensures Clocks(Deleted(w, slot))
  {
    var w' := Deleted(w, slot);
    forall t | t in w'.timers && w'.timers[t].st.Armed? ensures CurrentTimer(w', t) {
      assert CurrentTimer(w, t);
    }
    forall c | c in w'.calls && (w'.calls[c].cancelled || w'.calls[c].status.TimedOut?) ensures OwnTimerRan(w', c) {
      assert OwnTimerRan(w, c);
    }
  }

  lemma DeleteKeeps(w: World, slot: Slot)
    requires Core(w) && slot in w.armed
    ensures Core(Deleted(w, slot))
  {
    DeleteParks(w, slot);
    DeleteClocks(w, slot);
  }

  /** Changing the status of the running call, and timers of that call that are not armed. */
  lemma EndCall(w: World, f: Fiber, c: Call, status: Status)
    requires Running(w, f, c) && !status.Live? && (status.TimedOut? ==> w.calls[c].cancelled)
    ensures Core(Return(w, c, status))
  {
    var w' := Return(w, c, status);
    forall g | g in w'.parked ensures ParkOk(w', g) {
      assert ParkOk(w, g);
    }
    forall t | t in w'.timers && w'.timers[t].st.Armed? ensures CurrentTimer(w', t) {
      assert CurrentTimer(w, t);
    }
    forall d | d in w'.calls && (w'.calls[d].cancelled || w'.calls[d].status.TimedOut?) ensures OwnTimerRan(w', d) {
      assert OwnTimerRan(w, d);
    }
  }

  lemma AddStopped(w: World, f: Fiber, c: Call, t: Option<Timer>)
    requires Running(w, f, c) && (t.Some? ==> t.value !in w.timers)
    ensures Running(AddTimer(w, c, t, Stopped), f, c)
  {
    var w' := AddTimer(w, c, t, Stopped);
    forall g | g in w'.parked ensures ParkOk(w', g) {
      assert ParkOk(w, g);
    }
    forall x | x in w'.timers && w'.timers[x].st.Armed? ensures CurrentTimer(w', x) {
      assert CurrentTimer(w, x);
    }
    RanKept(w, w');
  }

  /** Timers that ran stay run. */
  lemma RanKept(w: World, w': World)
    requires forall t :: t in w.timers && w.timers[t].st.Ran? ==> t in w'.timers && w'.timers[t] == w.timers[t]
    ensures forall c :: OwnTimerRan(w, c) ==> OwnTimerRan(w', c)
  {}

  /** A slice that may park: the call runs, its timer is new and its slot is free. */
  ghost predicate MayPark(w: World, f: Fiber, c: Call, t: Option<Timer>) {
    Running(w, f, c) && (t.Some? ==> t.value !in w.timers) && w.calls[c].slot !in w.armed
  }

  lemma ParkParks(w: World, f: Fiber, c: Call, t: Option<Timer>)
    requires MayPark(w, f, c, t)
    ensures Parks(Attempt(w, f, c, Blocks(t)))
  {
    var w' := Attempt(w, f, c, Blocks(t));
    assert ArmedFor(w', f);
    forall g | g in w'.parked ensures ParkOk(w', g) {
      if g != f {
        assert ParkOk(w, g);
      }
    }
  }

  lemma ParkClocks(w: World, f: Fiber, c: Call, t: Option<Timer>)
    requires MayPark(w, f, c, t)
    ensures Clocks(Attempt(w, f, c, Blocks(t)))
  {
    var w' := Attempt(w, f, c, Blocks(t));
    forall x | x in w'.timers && w'.timers[x].st.Armed? ensures CurrentTimer(w', x) {
      ParkTimers(w, f, c, t, x);
    }
    RanKept(w, w');
  }

  lemma ParkKeeps(w: World, f: Fiber, c: Call, t: Option<Timer>)
    requires MayPark(w, f, c, t)
    ensures Core(Attempt(w, f, c, Blocks(t)))
  {
    ParkParks(w, f, c, t);
    ParkSlots(w, f, c, t);
    ParkClocks(w, f, c, t);
  }

  lemma ParkSlots(w: World, f: Fiber, c: Call, t: Option<Timer>)
    requires MayPark(w, f, c, t)
    ensures Slots(Attempt(w, f, c, Blocks(t)), None)
  {}

  lemma ParkTimers(w: World, f: Fiber, c: Call, t: Option<Timer>, x: Timer)
    requires MayPark(w, f, c, t)
    requires var w' := Attempt(w, f, c, Blocks(t)); x in w'.timers && w'.timers[x].st.Armed?
    ensures CurrentTimer(Attempt(w, f, c, Blocks(t)), x)
  {
    if Some(x) != t {
      assert CurrentTimer(w, x);
    }
  }

  lemma AttemptKeeps(w: World, f: Fiber, c: Call, how: Slice)
    requires Running(w, f, c) && FreshTimer(w, how) && SlotFree(w, w.calls[c].slot, how)
    ensures Core(Attempt(w, f, c, how))
  {
    match how
    case Done => EndCall(w, f, c, Finished);
    case Blocks(t) => ParkKeeps(w, f, c, t);
    case BlocksButAddFails(t) =>
      AddStopped(w, f, c, t);
      EndCall(AddTimer(w, c, t, Stopped), f, c, Failed);
  }

  lemma BeginKeeps(w: World, f: Fiber, c: Call, slot: Slot, how: Slice)
    requires Core(w) && Can(w, Begin(f, c, slot, how))
    ensures Core(Do(w, Begin(f, c, slot, how)))
  {
    var w1 := Called(w, f, c, slot);
    forall g | g in w1.parked ensures ParkOk(w1, g) {
      assert ParkOk(w, g);
    }
    forall x | x in w1.timers && w1.timers[x].st.Armed? ensures CurrentTimer(w1, x) {
      assert CurrentTimer(w, x);
    }
    RanKept(w, w1);
    AttemptKeeps(w1, f, c, how);
  }

  /** Taking the fiber off the queue and stopping its wait's timer. */
  function Woken(w: World, f: Fiber): World
    requires f in w.parked
  {
    StopTimer(w.(queue := w.queue - multiset{Resume(f)}, parked := Minus(w.parked, f)), w.parked[f].timer)
  }

  lemma WokenParks(w: World, f: Fiber)
    requires Core(w) && Resume(f) in w.queue && f in w.parked
    ensures Parks(Woken(w, f)) && Slots(Woken(w, f), Some(w.parked[f].call))
  {
    assert ParkOk(w, f);
    assert !ArmedFor(w, f);
    var w' := Woken(w, f);
    forall g | g in w'.parked ensures ParkOk(w', g) {
      assert ParkOk(w, g);
    }
  }

  lemma WokenClocks(w: World, f: Fiber)
    requires Core(w) && f in w.parked
    ensures Clocks(Woken(w, f))
  {
    assert ParkOk(w, f);
    var w' := Woken(w, f);
    forall x | x in w'.timers && w'.timers[x].st.Armed? ensures CurrentTimer(w', x) {
      assert CurrentTimer(w, x);
    }
    RanKept(w, w');
  }

  lemma WokenRuns(w: World, f: Fiber)
    requires Core(w) && Resume(f) in w.queue && f in w.parked
    ensures Running(Woken(w, f), f, w.parked[f].call)
    ensures Woken(w, f).calls == w.calls && Woken(w, f).armed == w.armed && Woken(w, f).timers.Keys == w.timers.Keys
  {
    assert ParkOk(w, f);
    WokenParks(w, f);
    WokenClocks(w, f);
  }

  lemma ResumeKeeps(w: World, f: Fiber, how: Slice)
    requires Core(w) && Can(w, ResumeFiber(f, how))
    ensures Core(Do(w, ResumeFiber(f, how)))
  {
    WokenRuns(w, f);
    var c := w.parked[f].call;
    if w.calls[c].cancelled {
      EndCall(Woken(w, f), f, c, TimedOut);
    } else {
      AttemptKeeps(Woken(w, f), f, c, how);
    }
  }

  /** A timer that stops being armed, and nothing else, keeps the clocks. */
  lemma ClocksKept(w: World, w': World)
    requires Clocks(w) && w'.parked == w.parked && w'.calls.Keys == w.calls.Keys && w'.timers.Keys == w.timers.Keys
    requires forall c :: c in w.calls ==>
               w'.calls[c].fiber == w.calls[c].fiber && w'.calls[c].status == w.calls[c].status
    requires forall x :: x in w.timers ==>
               && w'.timers[x].call == w.timers[x].call
               && (w'.timers[x].st.Armed? ==> w.timers[x].st.Armed?) && (w.timers[x].st.Ran? ==> w'.timers[x].st.Ran?)
    requires forall c :: c in w.calls && w'.calls[c].cancelled && !w.calls[c].cancelled ==> OwnTimerRan(w', c)
    ensures Clocks(w')
  {
    forall x | x in w'.timers && w'.timers[x].st.Armed? ensures CurrentTimer(w', x) {
      assert CurrentTimer(w, x);
    }
    forall d | OwnTimerRan(w, d) ensures OwnTimerRan(w', d) {
      var x :| x in w.timers && w.timers[x].call == d && w.timers[x].st.Ran?;
      assert x in w'.timers && w'.timers[x].call == d && w'.timers[x].st.Ran?;
    }
  }

  lemma ExpireKeeps(w: World, t: Timer)
    requires Core(w) && Can(w, ExpireTimer(t))
    ensures Core(Do(w, ExpireTimer(t)))
  {
    var w' := Do(w, ExpireTimer(t));
    WaitsKept(w, w');
    ClocksKept(w, w');
  }

  /** The callback marks its own call. */
  function Marked(w: World, t: Timer, mark: bool): World
    requires t in w.timers && w.timers[t].call in w.calls
  {
    var c := w.timers[t].call;
    w.(queue := w.queue - multiset{Timeout(t)}, timers := w.timers[t := w.timers[t].(st := Ran)],
       calls := if mark then w.calls[c := w.calls[c].(cancelled := true)] else w.calls)
  }

  lemma MarkKeeps(w: World, t: Timer, mark: bool)
    requires Core(w) && t in w.timers && w.timers[t].call in w.calls && Timeout(t) in w.queue
    ensures Core(Marked(w, t, mark))
  {
    var w' := Marked(w, t, mark);
    assert t in w'.timers && w'.timers[t].st.Ran?;
    assert OwnTimerRan(w', w.timers[t].call);
    WaitsKept(w, w');
    ClocksKept(w, w');
  }

  /** Ownership and the rest of a callback do not touch each other. */
  lemma MarkCommutes(w: World, c: Call, o: Owners, epoll: bool)
    requires c in w.calls
    ensures MarkAndCancel(SetOwners(w, c, o), c, epoll) == SetOwners(MarkAndCancel(w, c, epoll), c, o)
  {}

  lemma OwnersBack(w: World, c: Call, o: Owners, o': Owners)
    requires c in w.owners && w.owners[c] == o
    ensures SetOwners(SetOwners(w, c, o'), c, o) == w
  {
    assert w.owners[c := o'][c := o] == w.owners;
  }

  lemma MarkKeepsOwners(w: World, c: Call, epoll: bool)
    requires c in w.calls
    ensures MarkAndCancel(w, c, epoll).owners == w.owners
  {}

  /** While the `timer_info` is alive, the callback marks and cancels, and its shares are gone again. */
  lemma AliveTimesOut(w: World, c: Call, epoll: bool)
    requires c in w.calls && c in w.owners && w.owners[c].frame
    ensures var o := w.owners[c];
            SetOwners(TimeoutCallback(SetOwners(w, c, o.(onTimer := true)), c, epoll), c, o) == MarkAndCancel(w, c, epoll)
  {
    var o := w.owners[c];
    var o1 := o.(onTimer := true);
    var w1 := SetOwners(w, c, o1);
    MarkCommutes(w1, c, o1.(callback := true), epoll);
    MarkCommutes(w, c, o1, epoll);
    MarkKeepsOwners(w, c, epoll);
    var v := MarkAndCancel(w, c, epoll);
    OwnersBack(SetOwners(v, c, o1), c, o1, o1.(callback := true));
    OwnersBack(v, c, o, o1);
  }

  /** What a timeout callback comes to, between slices: its two locks succeed exactly while the call is
      live, and their shares are gone again at the end. */
  lemma TimedOutIs(w: World, t: Timer, epoll: bool)
    requires Owned(w) && t in w.timers && w.timers[t].call in w.calls
    ensures var c := w.timers[t].call;
            TimedOutNow(w, t, epoll) ==
              if w.calls[c].status.Live? then MarkAndCancel(Marked(w, t, false), c, epoll) else Marked(w, t, false)
  {
    var c := w.timers[t].call;
    if w.calls[c].status.Live? {
      AliveTimesOut(Marked(w, t, false), c, epoll);
    }
  }

  lemma MarkedTwice(w: World, t: Timer, epoll: bool)
    requires t in w.timers && w.timers[t].call in w.calls && !w.calls[w.timers[t].call].cancelled
    ensures var c := w.timers[t].call;
            MarkAndCancel(Marked(w, t, false), c, epoll) ==
              if epoll then Fire(Marked(w, t, true), w.calls[c].slot) else Marked(w, t, true)
  {}

  lemma TimeoutKeeps(w: World, t: Timer, epoll: bool)
    requires Core(w) && Owned(w) && Can(w, RunTimeout(t, epoll))
    ensures Core(Do(w, RunTimeout(t, epoll)))
  {
    var c := w.timers[t].call;
    TimedOutIs(w, t, epoll);
    MarkKeeps(w, t, false);
    if w.calls[c].status.Live? && !w.calls[c].cancelled {
      MarkedTwice(w, t, epoll);
      MarkKeeps(w, t, true);
      FireKeeps(Marked(w, t, true), w.calls[c].slot);
    }
  }

  lemma AttemptOwned(w: World, f: Fiber, c: Call, how: Slice)
    requires Owned(w) && c in w.calls && w.calls[c].status.Live?
    ensures Owned(Attempt(w, f, c, how))
  {}

  lemma CalledOwned(w: World, f: Fiber, c: Call, slot: Slot)
    requires Owned(w)
    ensures Owned(Called(w, f, c, slot))
  {}

  lemma ResumedOwned(w: World, f: Fiber, how: Slice)
    requires Owned(w) && f in w.parked && w.parked[f].call in w.calls && w.calls[w.parked[f].call].status.Live?
    ensures Owned(Resumed(w, f, how))
  {
    var c := w.parked[f].call;
    if !w.calls[c].cancelled {
      AttemptOwned(Woken(w, f), f, c, how);
    }
  }

  lemma TimeoutOwned(w: World, t: Timer, epoll: bool)
    requires Owned(w) && t in w.timers && w.timers[t].call in w.calls
    ensures Owned(TimedOutNow(w, t, epoll))
  {
    TimedOutIs(w, t, epoll);
    var v := Marked(w, t, false);
    OwnedKept(w, v);
    MarkOwned(v, w.timers[t].call, epoll);
  }

  lemma OwnedKept(w: World, v: World)
    requires Owned(w) && v.owners == w.owners && v.calls.Keys == w.calls.Keys
    requires forall c :: c in w.calls ==> v.calls[c].status == w.calls[c].status
    ensures Owned(v)
  {}

  lemma MarkOwned(w: World, c: Call, epoll: bool)
    requires Owned(w) && c in w.calls
    ensures Owned(MarkAndCancel(w, c, epoll))
  {
    MarkKeepsOwners(w, c, epoll);
    OwnedKept(w, MarkAndCancel(w, c, epoll));
  }

  /** Shares are made by a call's first slice, dropped by its last, and balanced by every callback. */
  lemma StepOwned(w: World, a: Step)
    requires Inv(w) && Can(w, a)
    ensures Owned(Do(w, a))
  {
    match a
    case Begin(f, c, slot, how) =>
      CalledOwned(w, f, c, slot);
      AttemptOwned(Called(w, f, c, slot), f, c, how);
    case ResumeFiber(f, how) =>
      assert ParkOk(w, f);
      ResumedOwned(w, f, how);
    case RunTimeout(t, epoll) => TimeoutOwned(w, t, epoll);
    case _ =>
  }

  lemma OtherKeeps(w: World, a: Step)
    requires Core(w) && Can(w, a) && (a.Push? || a.Pop? || a.ForeignAdd?)
    ensures Core(Do(w, a))
  {
    WaitsKept(w, Do(w, a));
    ClocksKept(w, Do(w, a));
  }

  lemma StepKeeps(w: World, a: Step)
    requires Inv(w) && Can(w, a)
    ensures Inv(Do(w, a))
  {
    StepOwned(w, a);
    match a
    case Begin(f, c, slot, how) => BeginKeeps(w, f, c, slot, how);
    case ResumeFiber(f, how) => ResumeKeeps(w, f, how);
    case ExpireTimer(t) => ExpireKeeps(w, t);
    case RunTimeout(t, epoll) => TimeoutKeeps(w, t, epoll);
    case Trigger(slot) => FireKeeps(w, slot);
    case Delete(slot) => DeleteKeeps(w, slot);
    case ForeignAdd(_) => OtherKeeps(w, a);
    case Push => OtherKeeps(w, a);
    case Pop => OtherKeeps(w, a);
  }

  // ---------------------------------------------------------------- whole runs

  const START := World(map[], map[], map[], map[], multiset{}, map[])

  ghost predicate Run(ws: seq<World>, steps: seq<Step>) {
    && |ws| == |steps| + 1 && ws[0] == START
    && forall i {:trigger steps[i]} :: 0 <= i < |steps| ==>
         Can(ws[i], steps[i]) && ws[i + 1] == Do(ws[i], steps[i])
  }

  lemma {:induction false} RunKeeps(ws: seq<World>, steps: seq<Step>, n: nat)
    requires Run(ws, steps) && n <= |steps|
    ensures Inv(ws[n])
  {
    if n > 0 {
      RunKeeps(ws, steps, n - 1);
      StepKeeps(ws[n - 1], steps[n - 1]);
    }
  }

  /**
    Each park is resumed at most once, in every reachable state and for any service order: a parked
    fiber is in its event context, or in the run queue exactly once, or its registration was deleted,
    and never two of these; a fiber that is not parked is in no context and not in the queue.
   */
  lemma ResumesOnce(ws: seq<World>, steps: seq<Step>, n: nat, f: Fiber)
    requires Run(ws, steps) && n <= |steps|
    ensures var w := ws[n];
            && (f in w.parked ==>
                  && Count(ArmedFor(w, f)) + w.queue[Resume(f)] + Count(w.parked[f].deleted) == 1
                  && w.queue[Resume(f)] == w.parked[f].woken <= 1)
            && (f !in w.parked ==> w.queue[Resume(f)] == 0)
            && (forall s :: s in w.armed && w.armed[s] == IoFiber(f) ==> ArmedFor(w, f) && w.calls[w.parked[f].call].slot == s)
  {
    RunKeeps(ws, steps, n);
    if f in ws[n].parked {
      assert ParkOk(ws[n], f);
    }
  }

  /** Readiness, a cancel, or the fiber's own timeout puts a waiting fiber in the queue. */
  lemma FiredIsQueued(w: World, f: Fiber)
    requires Inv(w) && ArmedFor(w, f)
    ensures var w' := Fire(w, w.calls[w.parked[f].call].slot);
            w'.queue[Resume(f)] == 1 && !ArmedFor(w', f) && w'.parked[f].woken == 1
  {
    assert ParkOk(w, f);
  }

  /** A call that reported a timeout had a timer of its own that expired and ran. */
  lemma TimeoutIsOwn(ws: seq<World>, steps: seq<Step>, n: nat, c: Call)
    requires Run(ws, steps) && n <= |steps| && c in ws[n].calls && ws[n].calls[c].status.TimedOut?
    ensures OwnTimerRan(ws[n], c)
  {
    RunKeeps(ws, steps, n);
  }

  // ---------------------------------------------------------------- how calls end

  /** A slice of call `c` by fiber `f` ends as `how` says: the call finished, or failed, or it is live and the
      fiber is parked on the call's slot with the timer of this wait. */
  ghost predicate EndsAs(w: World, w': World, f: Fiber, c: Call, slot: Slot, how: Slice) {
    && c in w'.calls
    && match how
       case Done => w'.calls[c].status.Finished? && f !in w'.parked && w'.armed == w.armed
       case BlocksButAddFails(_) => w'.calls[c].status.Failed? && f !in w'.parked && w'.armed == w.armed
       case Blocks(t) =>
         && w'.calls[c].status.Live? && !w'.calls[c].cancelled
         && f in w'.parked && w'.parked[f] == Park(c, t, 0, false)
         && w'.armed == w.armed[slot := IoFiber(f)]
         && (t.Some? ==> t.value in w'.timers && w'.timers[t.value] == TimerRec(c, Armed))
  }

  /**
    How a resumed call goes on, in any run. If its own timeout marked it, it reports the timeout: the fiber
    returns from `do_io`, is not parked, and no slot is newly armed. If not, it does not report a timeout, and
    ends, fails or waits again as the system call and the registration turn out.
   */
  lemma ResumedReports(ws: seq<World>, steps: seq<Step>, n: nat, f: Fiber, how: Slice)
    requires Run(ws, steps) && n < |steps| && steps[n] == ResumeFiber(f, how)
    ensures var w, w' := ws[n], ws[n + 1];
            && f in w.parked && w.parked[f].call in w.calls
            && var c := w.parked[f].call;
               && c in w'.calls && w'.calls[c].fiber == f
               && (w.calls[c].cancelled ==> w'.calls[c].status.TimedOut? && f !in w'.parked && w'.armed == w.armed)
               && (!w.calls[c].cancelled ==> !w'.calls[c].status.TimedOut? && EndsAs(w, w', f, c, w.calls[c].slot, how))
  {
    RunKeeps(ws, steps, n);
    assert ParkOk(ws[n], f);
  }

  /** The first slice of a call never reports a timeout. */
  lemma BeginEnds(ws: seq<World>, steps: seq<Step>, n: nat, f: Fiber, c: Call, slot: Slot, how: Slice)
    requires Run(ws, steps) && n < |steps| && steps[n] == Begin(f, c, slot, how)
    ensures EndsAs(ws[n], ws[n + 1], f, c, slot, how) && ws[n + 1].calls[c].fiber == f && ws[n + 1].calls[c].slot == slot
  {}

  /** What a timeout does to a call that has not returned and is not marked. */
  lemma TimeoutTakes(w: World, t: Timer, epoll: bool)
    requires Inv(w) && Can(w, RunTimeout(t, epoll))
    requires var c := w.timers[t].call; w.calls[c].status.Live? && !w.calls[c].cancelled
    ensures var w', c := TimedOutNow(w, t, epoll), w.timers[t].call;
            && w'.calls == w.calls[c := w.calls[c].(cancelled := true)]
            && w'.armed == if epoll then Minus(w.armed, w.calls[c].slot) else w.armed
  {
    TimedOutIs(w, t, epoll);
    MarkedTwice(w, t, epoll);
    FireClears(Marked(w, t, true), w.calls[w.timers[t].call].slot);
  }

  lemma FireClears(w: World, slot: Slot)
    ensures Fire(w, slot).armed == Minus(w.armed, slot) && Fire(w, slot).calls == w.calls
  {}

  /** To any other call it does nothing. */
  lemma TimeoutLeaves(w: World, t: Timer, epoll: bool)
    requires Inv(w) && Can(w, RunTimeout(t, epoll))
    requires var c := w.timers[t].call; !w.calls[c].status.Live? || w.calls[c].cancelled
    ensures var w' := TimedOutNow(w, t, epoll); w'.calls == w.calls && w'.armed == w.armed && w'.parked == w.parked
  {
    TimedOutIs(w, t, epoll);
  }

  /**
    What a timeout does, in any run: if its call has not returned, the call is marked, and if it was not marked
    before and `epoll_ctl` succeeds, its slot is cleared; nothing else changes for any call or slot.
   */
  lemma TimeoutMarks(ws: seq<World>, steps: seq<Step>, n: nat, t: Timer, epoll: bool)
    requires Run(ws, steps) && n < |steps| && steps[n] == RunTimeout(t, epoll)
    ensures var w, w' := ws[n], ws[n + 1];
            && t in w.timers && w.timers[t].call in w.calls
            && var c := w.timers[t].call;
               var live, marked := w.calls[c].status.Live?, w.calls[c].cancelled;
               && w'.calls == w.calls[c := w.calls[c].(cancelled := live || marked)]
               && w'.armed == if live && !marked && epoll then w.armed - {w.calls[c].slot} else w.armed
  {
    RunKeeps(ws, steps, n);
    var w := ws[n];
    var r := w.calls[w.timers[t].call];
    if r.status.Live? && !r.cancelled {
      TimeoutTakes(w, t, epoll);
    } else {
      TimeoutLeaves(w, t, epoll);
      assert r.(cancelled := r.status.Live? || r.cancelled) == r;
    }
  }

  /** And a fiber that waits for the call is then queued, still parked for it, so it will report the timeout. */
  lemma TimeoutWakes(ws: seq<World>, steps: seq<Step>, n: nat, t: Timer, f: Fiber)
    requires Run(ws, steps) && n < |steps| && steps[n] == RunTimeout(t, true)
    requires ArmedFor(ws[n], f) && t in ws[n].timers && ws[n].parked[f].call == ws[n].timers[t].call
    requires !ws[n].calls[ws[n].parked[f].call].cancelled
    ensures var w' := ws[n + 1]; var c := ws[n].timers[t].call;
            f in w'.parked && w'.parked[f].call == c && c in w'.calls && w'.calls[c].cancelled && w'.queue[Resume(f)] == 1
  {
    RunKeeps(ws, steps, n);
    RunKeeps(ws, steps, n + 1);
    var w := ws[n];
    assert ParkOk(w, f);
    TimedOutIs(w, t, true);
    MarkedTwice(w, t, true);
    assert ParkOk(ws[n + 1], f);
  }

  /** Appending one enabled step. */
  lemma Extend(ws: seq<World>, steps: seq<Step>, a: Step) returns (ws': seq<World>, steps': seq<Step>)
    requires Run(ws, steps) && Can(ws[|steps|], a)
    ensures Run(ws', steps') && ws' == ws + [Do(ws[|steps|], a)] && steps' == steps + [a]
  {
    ws', steps' := ws + [Do(ws[|steps|], a)], steps + [a];
    forall i | 0 <= i < |steps'| ensures Can(ws'[i], steps'[i]) && ws'[i + 1] == Do(ws'[i], steps'[i]) {
      if i < |steps| {
        assert steps'[i] == steps[i] && ws'[i] == ws[i] && ws'[i + 1] == ws[i + 1];
      }
    }
  }
}
