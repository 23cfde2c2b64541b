/**
  Timeouts of `do_io` over whole runs (chat/hook.cc, chat/timer.cc): how long a `timer_info` lives, that
  timeouts which come too late change nothing, and what a timeout in time may touch.
 */
module IoTimeouts {
  import opened Options
  import opened IoWait

  /** In every reachable state `weak_ptr::lock` on a call's `timer_info` succeeds exactly while the call
      has not returned: no callback keeps it alive past its own slice. */
  lemma LockIffLive(ws: seq<World>, steps: seq<Step>, n: nat, c: Call)
    requires Run(ws, steps) && n <= |steps| && c in ws[n].calls
    ensures Alive(ws[n], c) <==> ws[n].calls[c].status.Live?
  {
    RunKeeps(ws, steps, n);
  }

  // ---------------------------------------------------------------- stale timeouts

  /** A timeout callback that is run after its call returned. */
  predicate Stale(w: World, a: Step) {
    a.RunTimeout? && Can(w, a) && !w.calls[w.timers[a.t].call].status.Live?
  }

  /** The worlds agree on everything but stale timeouts: calls with their results, registrations, parked
      fibers, owners, queued fibers and other tasks, and which timers are armed. */
  ghost predicate Same(w: World, v: World) {
    && v.calls == w.calls && v.armed == w.armed && v.parked == w.parked && v.owners == w.owners
    && SameTimers(w, v) && SameQueue(w.queue, v.queue)
  }

  ghost predicate SameTimers(w: World, v: World) {
    && v.timers.Keys == w.timers.Keys
    && forall t :: t in w.timers ==> v.timers[t].call == w.timers[t].call && (v.timers[t].st.Armed? <==> w.timers[t].st.Armed?)
  }

  ghost predicate SameQueue(q: multiset<Entry>, r: multiset<Entry>) {
    && (forall f :: r[Resume(f)] == q[Resume(f)]) && r[Other] == q[Other]
    && (forall t :: q[Timeout(t)] <= r[Timeout(t)])
  }

  lemma QueueMore(q: multiset<Entry>, r: multiset<Entry>, e: Entry)
    requires SameQueue(q, r)
    ensures SameQueue(q + multiset{e}, r + multiset{e})
    ensures e in q ==> e in r && SameQueue(q - multiset{e}, r - multiset{e})
    ensures e.Timeout? ==> SameQueue(q - multiset{e}, r)
  {}

  lemma FireSame(w: World, v: World, slot: Slot)
    requires Same(w, v)
    ensures Same(Fire(w, slot), Fire(v, slot))
  {
    if slot in w.armed {
      QueueMore(w.queue, v.queue, Other);
      if w.armed[slot].IoFiber? {
        QueueMore(w.queue, v.queue, Resume(w.armed[slot].fiber));
      }
    }
  }

  lemma StopSame(w: World, v: World, t: Option<Timer>)
    requires Same(w, v)
    ensures Same(StopTimer(w, t), StopTimer(v, t))
  {}

  lemma AddTimerSame(w: World, v: World, c: Call, t: Option<Timer>, st: TimerState)
    requires Same(w, v)
    ensures Same(AddTimer(w, c, t, st), AddTimer(v, c, t, st))
  {}

  lemma ReturnSame(w: World, v: World, c: Call, status: Status)
    requires Same(w, v) && c in w.calls
    ensures Same(Return(w, c, status), Return(v, c, status))
  {}

  lemma AttemptSame(w: World, v: World, f: Fiber, c: Call, how: Slice)
    requires Same(w, v) && c in w.calls
    ensures Same(Attempt(w, f, c, how), Attempt(v, f, c, how))
  {
    match how
    case Done => ReturnSame(w, v, c, Finished);
    case Blocks(t) => AddTimerSame(w, v, c, t, Armed);
    case BlocksButAddFails(t) =>
      AddTimerSame(w, v, c, t, Stopped);
      ReturnSame(AddTimer(w, c, t, Stopped), AddTimer(v, c, t, Stopped), c, Failed);
  }

  lemma ResumeSame(w: World, v: World, f: Fiber, how: Slice)
    requires Same(w, v) && Can(w, ResumeFiber(f, how))
    ensures Can(v, ResumeFiber(f, how)) && Same(Do(w, ResumeFiber(f, how)), Do(v, ResumeFiber(f, how)))
  {
    WokenSame(w, v, f);
    var c := w.parked[f].call;
    if w.calls[c].cancelled {
      ReturnSame(Woken(w, f), Woken(v, f), c, TimedOut);
    } else {
      AttemptSame(Woken(w, f), Woken(v, f), f, c, how);
    }
  }

  lemma WokenSame(w: World, v: World, f: Fiber)
    requires Same(w, v) && f in w.parked && Resume(f) in w.queue
    ensures Same(Woken(w, f), Woken(v, f)) && Resume(f) in v.queue
    ensures Woken(w, f).calls == w.calls
  {
    QueueMore(w.queue, v.queue, Resume(f));
    var w1 := w.(queue := w.queue - multiset{Resume(f)}, parked := Minus(w.parked, f));
    var v1 := v.(queue := v.queue - multiset{Resume(f)}, parked := Minus(v.parked, f));
    StopSame(w1, v1, w.parked[f].timer);
  }

  lemma ExpireSame(w: World, v: World, t: Timer)
    requires Same(w, v) && Can(w, ExpireTimer(t))
    ensures Can(v, ExpireTimer(t)) && Same(Do(w, ExpireTimer(t)), Do(v, ExpireTimer(t)))
  {
    QueueMore(w.queue, v.queue, Timeout(t));
  }

  lemma MarkSame(w: World, v: World, c: Call, epoll: bool)
    requires Same(w, v) && c in w.calls
    ensures Same(MarkAndCancel(w, c, epoll), MarkAndCancel(v, c, epoll))
  {
    if !w.calls[c].cancelled {
      var w1 := w.(calls := w.calls[c := w.calls[c].(cancelled := true)]);
      var v1 := v.(calls := v.calls[c := v.calls[c].(cancelled := true)]);
      FireSame(w1, v1, w.calls[c].slot);
    }
  }

  lemma TimeoutSame(w: World, v: World, t: Timer, epoll: bool)
    requires Owned(w) && Same(w, v) && Can(w, RunTimeout(t, epoll))
    ensures Can(v, RunTimeout(t, epoll)) && Same(Do(w, RunTimeout(t, epoll)), Do(v, RunTimeout(t, epoll)))
  {
    QueueMore(w.queue, v.queue, Timeout(t));
    TimedOutIs(w, t, epoll);
    TimedOutIs(v, t, epoll);
    MarkSame(Marked(w, t, false), Marked(v, t, false), w.timers[t].call, epoll);
  }

  lemma DeleteSame(w: World, v: World, slot: Slot)
    requires Same(w, v) && slot in w.armed
    ensures Same(Deleted(w, slot), Deleted(v, slot))
  {}

  lemma EventSame(w: World, v: World, a: Step)
    requires Same(w, v) && Can(w, a) && (a.Trigger? || a.Delete? || a.ForeignAdd? || a.Push? || a.Pop?)
    ensures Can(v, a) && Same(Do(w, a), Do(v, a))
  {
    match a
    case Trigger(slot) => FireSame(w, v, slot);
    case Delete(slot) => DeleteSame(w, v, slot);
    case ForeignAdd(_) =>
    case Push => QueueMore(w.queue, v.queue, Other);
    case Pop => QueueMore(w.queue, v.queue, Other);
  }

  lemma BeginSame(w: World, v: World, f: Fiber, c: Call, slot: Slot, how: Slice)
    requires Same(w, v) && Can(w, Begin(f, c, slot, how))
    ensures Can(v, Begin(f, c, slot, how)) && Same(Do(w, Begin(f, c, slot, how)), Do(v, Begin(f, c, slot, how)))
  {
    AttemptSame(Called(w, f, c, slot), Called(v, f, c, slot), f, c, how);
  }

  /** A step possible in one of two such worlds is possible in the other, with the same outcome. */
  lemma StepSame(w: World, v: World, a: Step)
    requires Inv(w) && Same(w, v) && Can(w, a)
    ensures Can(v, a) && Same(Do(w, a), Do(v, a))
  {
    match a
    case Begin(f, c, slot, how) => BeginSame(w, v, f, c, slot, how);
    case ResumeFiber(f, how) => ResumeSame(w, v, f, how);
    case ExpireTimer(t) => ExpireSame(w, v, t);
    case RunTimeout(t, epoll) => TimeoutSame(w, v, t, epoll);
    case _ => EventSame(w, v, a);
  }

  /** A stale timeout makes no difference. */
  lemma StaleSame(w: World, v: World, a: Step)
    requires Inv(w) && Same(w, v) && Stale(w, a)
    ensures Same(Do(w, a), v)
  {
    TimedOutIs(w, a.t, a.epoll);
    assert w.timers[a.t].st.Armed? ==> CurrentTimer(w, a.t);
    DroppedSame(w, v, a.t);
  }

  lemma DroppedSame(w: World, v: World, t: Timer)
    requires Same(w, v) && t in w.timers && !w.timers[t].st.Armed? && w.timers[t].call in w.calls
    ensures Same(Marked(w, t, false), v)
  {
    QueueMore(w.queue, v.queue, Timeout(t));
  }

  /** The steps of a run without its stale timeouts. */
  ghost function Kept(ws: seq<World>, steps: seq<Step>, n: nat): (r: seq<Step>)
    requires n <= |steps| < |ws|
    ensures |r| <= n
  {
    if n == 0 then []
    else
      var r := Kept(ws, steps, n - 1);
      if Stale(ws[n - 1], steps[n - 1]) then r else r + [steps[n - 1]]
  }

  /** When the run is at step `i`, the kept run has got to the same point. */
  ghost predicate FollowsAt(ws: seq<World>, steps: seq<Step>, i: nat, vs: seq<World>)
    requires i <= |steps| < |ws|
  {
    |Kept(ws, steps, i)| < |vs| && Same(ws[i], vs[|Kept(ws, steps, i)|])
  }

  ghost predicate Follows(ws: seq<World>, steps: seq<Step>, n: nat, vs: seq<World>)
    requires n <= |steps| < |ws|
  {
    forall i: nat :: i <= n ==> FollowsAt(ws, steps, i, vs)
  }

  lemma FollowsMore(ws: seq<World>, steps: seq<Step>, n: nat, us: seq<World>, vs: seq<World>)
    requires n < |steps| < |ws| && Follows(ws, steps, n, us) && us <= vs && FollowsAt(ws, steps, n + 1, vs)
    ensures Follows(ws, steps, n + 1, vs)
  {
    forall i: nat | i <= n + 1 ensures FollowsAt(ws, steps, i, vs) {
      if i <= n {
        assert FollowsAt(ws, steps, i, us);
      }
    }
  }

  /** `vs` runs the kept steps of the first `n` and follows them. */
  ghost predicate Thinned(ws: seq<World>, steps: seq<Step>, n: nat, vs: seq<World>)
    requires n <= |steps| < |ws|
  {
    Run(vs, Kept(ws, steps, n)) && Follows(ws, steps, n, vs)
  }

  ghost predicate StepAt(ws: seq<World>, steps: seq<Step>, n: nat)
    requires n < |steps| < |ws|
  {
    Inv(ws[n]) && Can(ws[n], steps[n]) && ws[n + 1] == Do(ws[n], steps[n])
  }

  lemma RunStepAt(ws: seq<World>, steps: seq<Step>, n: nat)
    requires Run(ws, steps) && n < |steps|
    ensures StepAt(ws, steps, n)
  {
    RunKeeps(ws, steps, n);
  }

  lemma ThinStale(ws: seq<World>, steps: seq<Step>, n: nat, n': nat, us: seq<World>)
    requires n' == n + 1 && n < |steps| < |ws| && StepAt(ws, steps, n) && Thinned(ws, steps, n, us) && Stale(ws[n], steps[n])
    ensures Thinned(ws, steps, n', us)
  {
    assert FollowsAt(ws, steps, n, us);
    var v := us[|Kept(ws, steps, n)|];
    StaleSame(ws[n], v, steps[n]);
    FollowsMore(ws, steps, n, us, us);
  }

  lemma ThinKept(ws: seq<World>, steps: seq<Step>, n: nat, n': nat, us: seq<World>) returns (vs: seq<World>)
    requires n' == n + 1 && n < |steps| < |ws| && StepAt(ws, steps, n) && Thinned(ws, steps, n, us) && !Stale(ws[n], steps[n])
    ensures Thinned(ws, steps, n', vs)
  {
    var kept := Kept(ws, steps, n);
    assert FollowsAt(ws, steps, n, us);
    var v := us[|kept|];
    StepSame(ws[n], v, steps[n]);
    var more;
    vs, more := Extend(us, kept, steps[n]);
    FollowsMore(ws, steps, n, us, vs);
  }

  lemma ThinOne(ws: seq<World>, steps: seq<Step>, n: nat, n': nat, us: seq<World>) returns (vs: seq<World>)
    requires n' == n + 1 && n < |steps| < |ws| && StepAt(ws, steps, n) && Thinned(ws, steps, n, us)
    ensures Thinned(ws, steps, n', vs)
  {
    if Stale(ws[n], steps[n]) {
      ThinStale(ws, steps, n, n', us);
      vs := us;
    } else {
      vs := ThinKept(ws, steps, n, n', us);
    }
  }

  lemma ThinNothing(ws: seq<World>, steps: seq<Step>)
    requires Run(ws, steps)
    ensures Thinned(ws, steps, 0, [START])
  {}

  /**
    Stale timeouts are harmless: drop from any run all timeout callbacks that were run after their call had
    returned, and what is left is a run that goes through the same calls and results, registrations,
    parked fibers and queued fibers, step for step.
   */
  lemma {:induction false} StaleTimeoutsAreHarmless(ws: seq<World>, steps: seq<Step>, n: nat) returns (vs: seq<World>)
    requires Run(ws, steps) && n <= |steps|
    ensures Thinned(ws, steps, n, vs)
    decreases n
  {
    if n == 0 {
      vs := [START];
      ThinNothing(ws, steps);
    } else {
      var us := StaleTimeoutsAreHarmless(ws, steps, n - 1);
      RunStepAt(ws, steps, n - 1);
      vs := ThinOne(ws, steps, n - 1, n, us);
    }
  }

  // ---------------------------------------------------------------- timeouts in time

  /** What a callback does, in one look. */
  lemma TimeoutEffect(w: World, t: Timer)
    requires Inv(w) && Can(w, RunTimeout(t, true))
    ensures var c, w' := w.timers[t].call, Do(w, RunTimeout(t, true));
            var acts := w.calls[c].status.Live? && !w.calls[c].cancelled;
            && w'.calls == (if acts then w.calls[c := w.calls[c].(cancelled := true)] else w.calls)
            && w'.armed == (if acts then Minus(w.armed, w.calls[c].slot) else w.armed)
  {
    TimedOutIs(w, t, true);
    var c := w.timers[t].call;
    if w.calls[c].slot !in w.armed {
      assert Minus(w.armed, w.calls[c].slot) == w.armed;
    }
  }

  /** A timeout callback touches no other call, and no registration but the one on its call's slot. */
  lemma TimeoutTouchesOwn(w: World, t: Timer)
    requires Inv(w) && Can(w, RunTimeout(t, true))
    ensures var c, w' := w.timers[t].call, Do(w, RunTimeout(t, true));
            OthersUntouched(w.calls, w'.calls, c) && OnlyLost(w.armed, w'.armed, w.calls[c].slot)
  {
    TimeoutEffect(w, t);
  }

  /** All entries but that of `c` are the same. */
  ghost predicate OthersUntouched(m: map<Call, CallRec>, m': map<Call, CallRec>, c: Call) {
    forall d :: d in m && d != c ==> d in m' && m'[d] == m[d]
  }

  /** At most the registration on `slot` is gone, and the others are the same. */
  ghost predicate OnlyLost(m: map<Slot, Waiter>, m': map<Slot, Waiter>, slot: Slot) {
    && (forall s :: s in m && s !in m' ==> s == slot)
    && (forall s :: s in m' ==> s in m && m'[s] == m[s])
  }

  /** It takes another waiter's registration exactly when its own call is live, unmarked and no longer
      registered itself (already queued, or deleted), and the slot was registered again. */
  lemma TimeoutTakesIff(w: World, t: Timer)
    requires Inv(w) && Can(w, RunTimeout(t, true))
    ensures var c, w' := w.timers[t].call, Do(w, RunTimeout(t, true));
            (exists s :: s in w.armed && s !in w'.armed && w.armed[s] != IoFiber(w.calls[c].fiber))
            <==> && w.calls[c].status.Live? && !w.calls[c].cancelled
                 && w.calls[c].slot in w.armed && !ArmedFor(w, w.calls[c].fiber)
  {
    TimeoutEffect(w, t);
    var c := w.timers[t].call;
    if w.calls[c].status.Live? {
      assert ParkOk(w, w.calls[c].fiber);
      if w.calls[c].slot in w.armed {
        assert w.calls[c].slot !in Minus(w.armed, w.calls[c].slot);
      }
    }
  }

  /** A fiber waits with a timeout that has just expired. */
  function Expired(f: Fiber, c: Call, slot: Slot, t: Timer): World {
    World(map[f := Park(c, Some(t), 0, false)], map[c := CallRec(f, slot, false, Live)], map[slot := IoFiber(f)],
          map[t := TimerRec(c, Handed)], multiset{Timeout(t)}, map[c := Owners(true, false, false)])
  }

  lemma WaitExpires(f: Fiber, c: Call, slot: Slot, t: Timer) returns (ws: seq<World>, steps: seq<Step>)
    ensures steps == [Begin(f, c, slot, Blocks(Some(t))), ExpireTimer(t)] && Run(ws, steps)
    ensures ws[2] == Expired(f, c, slot, t)
  {
    ws, steps := [START], [];
    ws, steps := Extend(ws, steps, Begin(f, c, slot, Blocks(Some(t))));
    ws, steps := Extend(ws, steps, ExpireTimer(t));
    assert ws[2].queue == multiset{Timeout(t)};
  }

  /** The wait is over, one way or the other, and somebody else registers on its slot. */
  lemma SlotChangesHands(f: Fiber, c: Call, slot: Slot, t: Timer, deleted: bool)
    ensures var end := if deleted then Delete(slot) else Trigger(slot);
            var w := Expired(f, c, slot, t);
            && Can(w, end) && Can(Do(w, end), ForeignAdd(slot))
            && var v := Do(Do(w, end), ForeignAdd(slot));
               && v.armed == map[slot := Foreign] && v.calls == w.calls && v.timers == w.timers && Timeout(t) in v.queue
               && v.queue[Resume(f)] == (if deleted then 0 else 1)
  {
    var w := Expired(f, c, slot, t);
    assert Minus(w.armed, slot) == map[];
  }

  /** It happens: a fiber waits with a timeout, the timer expires, the wait ends (by readiness, or because
      its registration is deleted) before the callback gets its turn, and somebody else registers on the
      slot: the callback takes that registration. */
  lemma TimeoutTakesForeign(f: Fiber, c: Call, slot: Slot, t: Timer, deleted: bool)
    returns (ws: seq<World>, steps: seq<Step>)
    ensures steps == [Begin(f, c, slot, Blocks(Some(t))), ExpireTimer(t), if deleted then Delete(slot) else Trigger(slot),
                      ForeignAdd(slot), RunTimeout(t, true)]
    ensures Run(ws, steps) && ws[4].armed == map[slot := Foreign] && ws[5].armed == map[]
    ensures ws[4].queue[Resume(f)] == (if deleted then 0 else 1)
  {
    ws, steps := SlotTaken(f, c, slot, t, deleted);
    RunKeeps(ws, steps, 4);
    CallbackTakes(ws[4], f, c, slot, t);
    ws, steps := Extend(ws, steps, RunTimeout(t, true));
  }

  /** The callback is queued, its call alive, and its slot another's. */
  ghost predicate SlotLost(w: World, f: Fiber, c: Call, slot: Slot, t: Timer) {
    && w.armed == map[slot := Foreign] && w.calls == map[c := CallRec(f, slot, false, Live)]
    && w.timers == map[t := TimerRec(c, Handed)] && Timeout(t) in w.queue
  }

  lemma CallbackTakes(w: World, f: Fiber, c: Call, slot: Slot, t: Timer)
    requires Inv(w) && SlotLost(w, f, c, slot, t)
    ensures Can(w, RunTimeout(t, true)) && Do(w, RunTimeout(t, true)).armed == map[]
  {
    TimeoutEffect(w, t);
    assert Minus(w.armed, slot) == map[];
  }

  lemma SlotTaken(f: Fiber, c: Call, slot: Slot, t: Timer, deleted: bool) returns (ws: seq<World>, steps: seq<Step>)
    ensures steps == [Begin(f, c, slot, Blocks(Some(t))), ExpireTimer(t), if deleted then Delete(slot) else Trigger(slot),
                      ForeignAdd(slot)]
    ensures Run(ws, steps) && SlotLost(ws[4], f, c, slot, t) && ws[4].queue[Resume(f)] == (if deleted then 0 else 1)
  {
    ws, steps := WaitExpires(f, c, slot, t);
    SlotChangesHands(f, c, slot, t, deleted);
    ws, steps := Extend(ws, steps, if deleted then Delete(slot) else Trigger(slot));
    ws, steps := Extend(ws, steps, ForeignAdd(slot));
  }
}
