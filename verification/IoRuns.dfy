/**
  Every run of module `IoWait` is a run of the registrations of `Events` and the timers of `Timers`: each
  step is followed by the calls that the source makes there, and the two sides agree after every step.
 */
module IoRuns {
  import opened Options
  import opened IoWait
  import opened IoRefinement
  import E = Events
  import T = Timers

  /** The registrations and the timers of one `IOManager`. */
  datatype Manager = Manager(io: E.IO, tm: T.State)

  function ContextOf(s: Slot): nat {
    s / 2
  }

  function EventOf(s: Slot): E.Event {
    if s % 2 == 1 then E.Write else E.Read
  }

  predicate Fits(s: Slot, m: Manager) {
    ContextOf(s) < |m.io.ctxs|
  }

  // ---------------------------------------------------------------- the calls of one slice

  function AddEvent(m: Manager, s: Slot, t: E.Task, epoll: bool): (r: Manager)
    requires Fits(s, m)
    ensures |r.io.ctxs| == |m.io.ctxs|
  {
    m.(io := E.Arm(m.io, ContextOf(s), EventOf(s), t, epoll).0)
  }

  function DelEvent(m: Manager, s: Slot): (r: Manager)
    requires Fits(s, m)
    ensures |r.io.ctxs| == |m.io.ctxs|
  {
    m.(io := E.Delete(m.io, ContextOf(s), EventOf(s), true).0)
  }

  function CancelEvent(m: Manager, s: Slot, epoll: bool): (r: Manager)
    requires Fits(s, m)
    ensures |r.io.ctxs| == |m.io.ctxs|
  {
    m.(io := E.Cancel(m.io, ContextOf(s), EventOf(s), epoll).0)
  }

  /** `addConditionTimer`, if this wait has a timeout. */
  function SetTimer(m: Manager, t: Option<Timer>, now: nat, ms: nat): (r: Manager)
    requires t.Some? ==> t.value !in m.tm.recs
    ensures |r.io.ctxs| == |m.io.ctxs| && (t.Some? ==> t.value in r.tm.recs)
  {
    if t.None? then m else m.(tm := T.Add(m.tm, now, t.value, ms, true, false).0)
  }

  function CancelTimer(m: Manager, t: Option<Timer>): (r: Manager)
    requires t.Some? ==> t.value in m.tm.recs
    ensures |r.io.ctxs| == |m.io.ctxs|
  {
    if t.None? then m else m.(tm := T.Cancel(m.tm, t.value).0)
  }

  function TimerOf(how: Slice): Option<Timer> {
    if how.Done? then None else how.timer
  }

  /** The calls from the system call of a slice on: timer, event, and the timer again if that failed. */
  function Registers(m: Manager, f: Fiber, s: Slot, how: Slice, now: nat, ms: nat): (r: Manager)
    requires Fits(s, m) && (TimerOf(how).Some? ==> TimerOf(how).value !in m.tm.recs)
    ensures |r.io.ctxs| == |m.io.ctxs|
  {
    match how
    case Done => m
    case Blocks(t) => AddEvent(SetTimer(m, t, now, ms), s, E.FiberTask(f), true)
    case BlocksButAddFails(t) => CancelTimer(AddEvent(SetTimer(m, t, now, ms), s, E.FiberTask(f), false), t)
  }

  // ---------------------------------------------------------------- agreement

  ghost predicate Agree(w: World, m: Manager) {
    EventsAgree(w, m.io) && TimersAgree(w, m.tm) && m.tm.recs.Keys == w.timers.Keys
  }

  ghost predicate CallsFit(w: World, m: Manager) {
    forall c :: c in w.calls ==> Fits(w.calls[c].slot, m)
  }

  ghost predicate WaitTimersKnown(w: World) {
    forall f :: f in w.parked && w.parked[f].timer.Some? ==> w.parked[f].timer.value in w.timers
  }

  ghost predicate HandedNotArmed(w: World) {
    forall t :: w.queue[Timeout(t)] > 0 ==> t in w.timers && !w.timers[t].st.Armed?
  }

  /** Calls are on descriptors with a context; the timers of waits exist; a handed-out timer is not armed. */
  ghost predicate Tidy(w: World, m: Manager) {
    CallsFit(w, m) && WaitTimersKnown(w) && HandedNotArmed(w)
  }

  predicate StepFits(a: Step, m: Manager) {
    match a
    case Begin(_, _, slot, _) => Fits(slot, m)
    case Trigger(slot) => Fits(slot, m)
    case Delete(slot) => Fits(slot, m)
    case ForeignAdd(slot) => Fits(slot, m)
    case _ => true
  }

  ghost predicate Ready(w: World, m: Manager, a: Step) {
    Can(w, a) && Agree(w, m) && Tidy(w, m) && StepFits(a, m)
  }

  /** The calls on the manager in step `a` at time `now`; a timer it sets runs for `ms`. */
  ghost function Follow(w: World, m: Manager, a: Step, now: nat, ms: nat): (r: Manager)
    requires Ready(w, m, a)
    ensures |r.io.ctxs| == |m.io.ctxs|
  {
    match a
    case Begin(f, c, slot, how) => Registers(m, f, slot, how, now, ms)
    case ResumeFiber(f, how) =>
      var p := w.parked[f];
      var m1 := CancelTimer(m, p.timer);
      if w.calls[p.call].cancelled then m1 else Registers(m1, f, w.calls[p.call].slot, how, now, ms)
    case ExpireTimer(_) => m.(tm := T.ListExpired(m.tm, now).0)
    case RunTimeout(t, epoll) =>
      var c := w.calls[w.timers[t].call];
      if c.status.Live? && !c.cancelled then CancelEvent(m, c.slot, epoll) else m
    case Trigger(slot) => CancelEvent(m, slot, true)
    case Delete(slot) => DelEvent(m, slot)
    case ForeignAdd(slot) => AddEvent(m, slot, E.CbTask(0), true)
    case Push => m
    case Pop => m
  }

  lemma SlotBack(s: Slot)
    ensures SlotOf(ContextOf(s), EventOf(s)) == s
  {}

  lemma EventsSame(w: World, w': World, io: E.IO)
    requires EventsAgree(w, io) && w'.armed == w.armed
    ensures EventsAgree(w', io)
  {
    forall c: nat, e | c < |io.ctxs| ensures SlotAgrees(w', io, c, e) {
      assert SlotAgrees(w, io, c, e);
    }
  }

  lemma TimersSame(w: World, w': World, tm: T.State)
    requires TimersAgree(w, tm) && w'.timers.Keys == w.timers.Keys
    requires forall t :: t in w.timers ==> (w'.timers[t].st.Armed? <==> w.timers[t].st.Armed?)
    ensures TimersAgree(w', tm)
  {
    forall t | t in w'.timers ensures TimerAgrees(w', tm, t) {
      assert TimerAgrees(w, tm, t);
    }
  }

  lemma SameAgrees(w: World, w': World, m: Manager)
    requires Agree(w, m) && w'.armed == w.armed && w'.timers.Keys == w.timers.Keys
    requires forall t :: t in w.timers ==> (w'.timers[t].st.Armed? <==> w.timers[t].st.Armed?)
    ensures Agree(w', m)
  {
    EventsSame(w, w', m.io);
    TimersSame(w, w', m.tm);
  }

  lemma SetTimerAgrees(w: World, m: Manager, c: Call, t: Option<Timer>, now: nat, ms: nat)
    requires Agree(w, m) && (t.Some? ==> t.value !in w.timers)
    ensures Agree(AddTimer(w, c, t, Armed), SetTimer(m, t, now, ms))
  {
    if t.Some? {
      AddRefinesAdd(w, m.tm, c, t.value, now, ms);
      EventsSame(w, AddTimer(w, c, t, Armed), m.io);
    }
  }

  lemma CancelTimerAgrees(w: World, m: Manager, t: Option<Timer>)
    requires Agree(w, m) && (t.Some? ==> t.value in w.timers)
    ensures Agree(StopTimer(w, t), CancelTimer(m, t))
  {
    if t.Some? {
      StopRefinesCancel(w, m.tm, t.value);
      EventsSame(w, StopTimer(w, t), m.io);
    }
  }

  lemma FireAgrees(w: World, m: Manager, s: Slot)
    requires Agree(w, m) && Fits(s, m)
    ensures Agree(Fire(w, s), CancelEvent(m, s, true))
  {
    SlotBack(s);
    FireRefinesCancel(w, m.io, ContextOf(s), EventOf(s));
    TimersSame(w, Fire(w, s), m.tm);
  }

  lemma DeleteAgrees(w: World, m: Manager, s: Slot)
    requires Agree(w, m) && Fits(s, m) && s in w.armed
    ensures Agree(Deleted(w, s), DelEvent(m, s))
  {
    SlotBack(s);
    DeletedRefinesDelete(w, m.io, ContextOf(s), EventOf(s));
    TimersSame(w, Deleted(w, s), m.tm);
  }

  lemma ForeignAgrees(w: World, m: Manager, s: Slot, k: nat)
    requires Agree(w, m) && Fits(s, m) && s !in w.armed
    ensures Agree(w.(armed := w.armed[s := Foreign]), AddEvent(m, s, E.CbTask(k), true))
  {
    SlotBack(s);
    var c, e := ContextOf(s), EventOf(s);
    assert SlotAgrees(w, m.io, c, e);
    OneSlot(w, m.io, w.(armed := w.armed[s := Foreign]), E.Arm(m.io, c, e, E.CbTask(k), true).0, c, e);
    TimersSame(w, w.(armed := w.armed[s := Foreign]), m.tm);
  }

  /** A slice that blocks: its timer first, then its event. */
  lemma BlocksAgrees(w: World, m: Manager, f: Fiber, c: Call, t: Option<Timer>, now: nat, ms: nat)
    requires Agree(w, m) && c in w.calls && Fits(w.calls[c].slot, m)
    requires (t.Some? ==> t.value !in w.timers) && w.calls[c].slot !in w.armed
    ensures Agree(Attempt(w, f, c, Blocks(t)), Registers(m, f, w.calls[c].slot, Blocks(t), now, ms))
  {
    var s := w.calls[c].slot;
    var w1, m1 := AddTimer(w, c, t, Armed), SetTimer(m, t, now, ms);
    SetTimerAgrees(w, m, c, t, now, ms);
    SlotBack(s);
    ParkRefinesArm(w1, m1.io, ContextOf(s), EventOf(s), f, c, None);
    EventsSame(Attempt(w1, f, c, Blocks(None)), Attempt(w, f, c, Blocks(t)), AddEvent(m1, s, E.FiberTask(f), true).io);
    TimersSame(w1, Attempt(w, f, c, Blocks(t)), m1.tm);
  }

  /** A slice whose `addEvent` fails: its timer is set and cancelled again. */
  lemma FailsAgrees(w: World, m: Manager, f: Fiber, c: Call, t: Option<Timer>, now: nat, ms: nat)
    requires Agree(w, m) && c in w.calls && Fits(w.calls[c].slot, m)
    requires t.Some? ==> t.value !in w.timers
    ensures Agree(Attempt(w, f, c, BlocksButAddFails(t)), Registers(m, f, w.calls[c].slot, BlocksButAddFails(t), now, ms))
  {
    var w1, m1 := AddTimer(w, c, t, Armed), SetTimer(m, t, now, ms);
    SetTimerAgrees(w, m, c, t, now, ms);
    CancelTimerAgrees(w1, m1, t);
    NothingAdded(m1, w.calls[c].slot, E.FiberTask(f));
    SetAndStopped(w, c, t);
    SameAgrees(StopTimer(w1, t), Attempt(w, f, c, BlocksButAddFails(t)), CancelTimer(m1, t));
  }

  lemma SetAndStopped(w: World, c: Call, t: Option<Timer>)
    requires t.Some? ==> t.value !in w.timers
    ensures StopTimer(AddTimer(w, c, t, Armed), t) == AddTimer(w, c, t, Stopped)
  {}

  lemma NothingAdded(m: Manager, s: Slot, t: E.Task)
    requires Fits(s, m)
    ensures AddEvent(m, s, t, false) == m
  {}

  lemma AttemptAgrees(w: World, m: Manager, f: Fiber, c: Call, how: Slice, now: nat, ms: nat)
    requires Agree(w, m) && c in w.calls && Fits(w.calls[c].slot, m)
    requires FreshTimer(w, how) && SlotFree(w, w.calls[c].slot, how)
    ensures Agree(Attempt(w, f, c, how), Registers(m, f, w.calls[c].slot, how, now, ms))
  {
    match how
    case Done =>
      EventsSame(w, Attempt(w, f, c, how), m.io);
      TimersSame(w, Attempt(w, f, c, how), m.tm);
    case Blocks(t) => BlocksAgrees(w, m, f, c, t, now, ms);
    case BlocksButAddFails(t) => FailsAgrees(w, m, f, c, t, now, ms);
  }

  lemma BeginAgrees(w: World, m: Manager, f: Fiber, c: Call, slot: Slot, how: Slice, now: nat, ms: nat)
    requires Agree(w, m) && Fits(slot, m) && Can(w, Begin(f, c, slot, how))
    ensures Agree(Do(w, Begin(f, c, slot, how)), Registers(m, f, slot, how, now, ms))
  {
    SameAgrees(w, Called(w, f, c, slot), m);
    AttemptAgrees(Called(w, f, c, slot), m, f, c, how, now, ms);
  }

  lemma ResumeAgrees(w: World, m: Manager, f: Fiber, how: Slice, now: nat, ms: nat)
    requires Agree(w, m) && Tidy(w, m) && Can(w, ResumeFiber(f, how))
    ensures Agree(Do(w, ResumeFiber(f, how)), Follow(w, m, ResumeFiber(f, how), now, ms))
  {
    var p := w.parked[f];
    var w0 := w.(queue := w.queue - multiset{Resume(f)}, parked := Minus(w.parked, f));
    SameAgrees(w, w0, m);
    CancelTimerAgrees(w0, m, p.timer);
    var w1, m1 := StopTimer(w0, p.timer), CancelTimer(m, p.timer);
    if w.calls[p.call].cancelled {
      SameAgrees(w1, Return(w1, p.call, TimedOut), m1);
    } else {
      AttemptAgrees(w1, m1, f, p.call, how, now, ms);
    }
  }

  lemma MarkAgrees(w: World, m: Manager, t: Timer, mark: bool)
    requires Agree(w, m) && t in w.timers && !w.timers[t].st.Armed? && w.timers[t].call in w.calls
    ensures Agree(Marked(w, t, mark), m)
  {
    SameAgrees(w, Marked(w, t, mark), m);
  }

  lemma TimeoutAgrees(w: World, m: Manager, t: Timer, epoll: bool, now: nat, ms: nat)
    requires Ready(w, m, RunTimeout(t, epoll)) && Owned(w)
    ensures Agree(TimedOutNow(w, t, epoll), Follow(w, m, RunTimeout(t, epoll), now, ms))
  {
    var c := w.timers[t].call;
    assert w.queue[Timeout(t)] > 0;
    TimedOutIs(w, t, epoll);
    if w.calls[c].status.Live? && !w.calls[c].cancelled {
      MarkedTwice(w, t, epoll);
      MarkAgrees(w, m, t, true);
      if epoll {
        FireAgrees(Marked(w, t, true), m, w.calls[c].slot);
      }
    } else {
      MarkAgrees(w, m, t, false);
    }
  }

  // ---------------------------------------------------------------- deadlines

  /** The first step from `n` on that hands out `t`, or the end of the run. */
  function Expiry(steps: seq<Step>, t: Timer, n: nat): (r: nat)
    requires n <= |steps|
    ensures n <= r <= |steps|
    decreases |steps| - n
  {
    if n == |steps| || steps[n] == ExpireTimer(t) then n else Expiry(steps, t, n + 1)
  }

  /** With the number of the step as the clock: armed timers are due at the step that hands them out. */
  ghost predicate Timed(w: World, tm: T.State, steps: seq<Step>, n: nat)
    requires n <= |steps|
  {
    && tm.previous <= n
    && forall t :: t in w.timers && w.timers[t].st.Armed? ==> t in tm.recs && tm.recs[t].next == Expiry(steps, t, n)
  }

  /** The interval of a timer set in step `n`. */
  function Interval(steps: seq<Step>, n: nat): nat
    requires n < |steps|
  {
    match steps[n]
    case Begin(_, _, _, how) => IntervalOf(steps, n, how)
    case ResumeFiber(_, how) => IntervalOf(steps, n, how)
    case _ => 0
  }

  function IntervalOf(steps: seq<Step>, n: nat, how: Slice): nat
    requires n < |steps|
  {
    if TimerOf(how).None? then 0 else Expiry(steps, TimerOf(how).value, n) - n
  }

  lemma Single(due: seq<T.Key>, k: T.Key)
    requires k in due && Unique(due) && forall x :: x in due ==> x == k
    ensures due == [k]
  {
    if |due| > 1 {
      Differ(due, 0, 1);
      assert false;
    }
  }

  lemma Differ(due: seq<T.Key>, i: nat, j: nat)
    requires Unique(due) && i < j < |due|
    ensures due[i] != due[j] && due[i] in due && due[j] in due
  {}

  /** `listExpiredCb` at step `n` hands out the one timer of that step. */
  lemma OneDue(w: World, m: Manager, steps: seq<Step>, n: nat, t: Timer)
    requires Agree(w, m) && n < |steps| && Timed(w, m.tm, steps, n) && steps[n] == ExpireTimer(t) && Can(w, steps[n])
    ensures T.ListExpired(m.tm, n).1 == [T.Key(n, t)]
  {
    T.ExpiryIsExact(m.tm, n);
    DueDistinct(m.tm, n);
    var due := T.ListExpired(m.tm, n).1;
    assert TimerAgrees(w, m.tm, t);
    assert T.Key(n, t) in due;
    forall k | k in due ensures k == T.Key(n, t) {
      assert k.id in w.timers && TimerAgrees(w, m.tm, k.id) && T.InSet(m.tm, k.id);
    }
    Single(due, T.Key(n, t));
  }

  lemma ExpireAgrees(w: World, m: Manager, steps: seq<Step>, n: nat, t: Timer)
    requires Agree(w, m) && n < |steps| && Timed(w, m.tm, steps, n) && steps[n] == ExpireTimer(t) && Can(w, steps[n])
    ensures Agree(Do(w, steps[n]), m.(tm := T.ListExpired(m.tm, n).0))
    ensures Timed(Do(w, steps[n]), T.ListExpired(m.tm, n).0, steps, n + 1)
  {
    var (tm', due) := T.ListExpired(m.tm, n);
    var w' := Do(w, steps[n]);
    OneDue(w, m, steps, n, t);
    T.ExpiryIsExact(m.tm, n);
    ExpireRefinesListExpired(w, m.tm, n);
    assert due[1..] == [];
    assert ExpireAll(w, due) == ExpireAll(ExpireOne(w, t), due[1..]) == w';
    EventsSame(w, w', m.io);
    PreviousAfter(m.tm, n);
    forall x | x in w'.timers && w'.timers[x].st.Armed? ensures tm'.recs[x].next == Expiry(steps, x, n + 1) {
      assert T.ExpiredRec(m.tm, n, due, tm', x);
    }
  }

  lemma PreviousAfter(tm: T.State, now: nat)
    requires T.Valid(tm)
    ensures T.ListExpired(tm, now).0.previous == (if tm.order == [] then tm.previous else now)
  {
    if tm.order != [] {
      var k := T.Due(tm, now);
      T.DueReady(tm, k);
      T.TakeKeeps(tm, k, now);
      T.FireAllEffect(tm.(order := tm.order[k..], previous := now), now, tm.order[..k]);
    }
  }

  /** In a step that hands out nothing, the timers left armed keep their deadlines. */
  lemma TimedSame(w: World, w': World, tm: T.State, tm': T.State, steps: seq<Step>, n: nat)
    requires n < |steps| && Timed(w, tm, steps, n) && !steps[n].ExpireTimer? && tm'.previous == tm.previous
    requires forall t :: t in w'.timers && w'.timers[t].st.Armed? ==>
               t in tm'.recs &&
               if t in w.timers then w.timers[t].st.Armed? && (t in tm.recs ==> tm'.recs[t] == tm.recs[t])
               else tm'.recs[t].next == Expiry(steps, t, n)
    ensures Timed(w', tm', steps, n + 1)
  {
    forall t | t in w'.timers && w'.timers[t].st.Armed? ensures tm'.recs[t].next == Expiry(steps, t, n + 1) {
      assert Expiry(steps, t, n) == Expiry(steps, t, n + 1);
    }
  }

  lemma RegistersTimers(m: Manager, f: Fiber, s: Slot, how: Slice, steps: seq<Step>, n: nat)
    requires Fits(s, m) && n < |steps| < T.WRAP && (TimerOf(how).Some? ==> TimerOf(how).value !in m.tm.recs)
    ensures var tm' := Registers(m, f, s, how, n, IntervalOf(steps, n, how)).tm;
            && tm'.previous == m.tm.previous
            && (forall t :: t in m.tm.recs ==> t in tm'.recs && tm'.recs[t] == m.tm.recs[t])
            && (how.Blocks? && how.timer.Some? ==>
                  how.timer.value in tm'.recs && tm'.recs[how.timer.value].next == Expiry(steps, how.timer.value, n))
  {}

  lemma AttemptTimers(w: World, f: Fiber, c: Call, how: Slice)
    requires c in w.calls
    ensures Attempt(w, f, c, how).timers == AddTimer(w, c, TimerOf(how), if how.Blocks? then Armed else Stopped).timers
  {}

  lemma AttemptTimed(w: World, m: Manager, f: Fiber, c: Call, how: Slice, steps: seq<Step>, n: nat)
    requires n < |steps| < T.WRAP && Timed(w, m.tm, steps, n) && !steps[n].ExpireTimer?
    requires m.tm.recs.Keys == w.timers.Keys && c in w.calls && Fits(w.calls[c].slot, m) && FreshTimer(w, how)
    ensures Timed(Attempt(w, f, c, how), Registers(m, f, w.calls[c].slot, how, n, IntervalOf(steps, n, how)).tm, steps, n + 1)
  {
    RegistersTimers(m, f, w.calls[c].slot, how, steps, n);
    AttemptTimers(w, f, c, how);
    TimedSame(w, Attempt(w, f, c, how), m.tm, Registers(m, f, w.calls[c].slot, how, n, IntervalOf(steps, n, how)).tm, steps, n);
  }

  lemma StopTimed(w: World, m: Manager, t: Option<Timer>, steps: seq<Step>, n: nat)
    requires Agree(w, m) && n <= |steps| && Timed(w, m.tm, steps, n) && (t.Some? ==> t.value in w.timers)
    ensures Timed(StopTimer(w, t), CancelTimer(m, t).tm, steps, n)
  {
    if t.Some? {
      T.CancelKeeps(m.tm, t.value);
      assert TimerAgrees(w, m.tm, t.value);
    }
  }

  lemma ResumeTimed(w: World, m: Manager, f: Fiber, how: Slice, steps: seq<Step>, n: nat)
    requires Ready(w, m, ResumeFiber(f, how)) && n < |steps| < T.WRAP && Timed(w, m.tm, steps, n) && steps[n] == ResumeFiber(f, how)
    ensures Timed(Do(w, steps[n]), Follow(w, m, steps[n], n, IntervalOf(steps, n, how)).tm, steps, n + 1)
  {
    var p := w.parked[f];
    var w0 := w.(queue := w.queue - multiset{Resume(f)}, parked := Minus(w.parked, f));
    SameAgrees(w, w0, m);
    StopTimed(w0, m, p.timer, steps, n);
    CancelTimerAgrees(w0, m, p.timer);
    var w1, m1 := StopTimer(w0, p.timer), CancelTimer(m, p.timer);
    if w.calls[p.call].cancelled {
      TimedSame(w1, Return(w1, p.call, TimedOut), m1.tm, m1.tm, steps, n);
    } else {
      AttemptTimed(w1, m1, f, p.call, how, steps, n);
    }
  }

  // ---------------------------------------------------------------- one step

  ghost predicate Together(w: World, m: Manager, steps: seq<Step>, n: nat)
    requires n <= |steps|
  {
    Inv(w) && Agree(w, m) && Tidy(w, m) && Timed(w, m.tm, steps, n)
  }

  lemma FollowAgrees(w: World, m: Manager, steps: seq<Step>, n: nat)
    requires n < |steps| < T.WRAP && Together(w, m, steps, n) && Ready(w, m, steps[n])
    ensures Agree(Do(w, steps[n]), Follow(w, m, steps[n], n, Interval(steps, n)))
  {
    var ms := Interval(steps, n);
    match steps[n]
    case Begin(f, c, slot, how) => BeginAgrees(w, m, f, c, slot, how, n, ms);
    case ResumeFiber(f, how) => ResumeAgrees(w, m, f, how, n, ms);
    case ExpireTimer(t) => ExpireAgrees(w, m, steps, n, t);
    case RunTimeout(t, epoll) => TimeoutAgrees(w, m, t, epoll, n, ms);
    case Trigger(slot) => FireAgrees(w, m, slot);
    case Delete(slot) => DeleteAgrees(w, m, slot);
    case ForeignAdd(slot) => ForeignAgrees(w, m, slot, 0);
    case Push => SameAgrees(w, Do(w, Push), m);
    case Pop => SameAgrees(w, Do(w, Pop), m);
  }

  lemma TimeoutTimers(w: World, t: Timer, epoll: bool)
    requires Owned(w) && Can(w, RunTimeout(t, epoll))
    ensures TimedOutNow(w, t, epoll).timers == w.timers[t := w.timers[t].(st := Ran)]
  {
    TimedOutIs(w, t, epoll);
  }

  lemma TimeoutTimed(w: World, m: Manager, t: Timer, epoll: bool, steps: seq<Step>, n: nat)
    requires n < |steps| && Timed(w, m.tm, steps, n) && Owned(w) && steps[n] == RunTimeout(t, epoll) && Can(w, steps[n])
    ensures Timed(TimedOutNow(w, t, epoll), m.tm, steps, n + 1)
  {
    TimeoutTimers(w, t, epoll);
    TimedSame(w, TimedOutNow(w, t, epoll), m.tm, m.tm, steps, n);
  }

  /** The steps that leave all timers alone. */
  lemma OtherTimed(w: World, m: Manager, steps: seq<Step>, n: nat)
    requires n < |steps| && Timed(w, m.tm, steps, n) && Ready(w, m, steps[n])
    requires steps[n].Trigger? || steps[n].Delete? || steps[n].ForeignAdd? || steps[n].Push? || steps[n].Pop?
    ensures Timed(Do(w, steps[n]), Follow(w, m, steps[n], n, 0).tm, steps, n + 1)
  {
    assert Follow(w, m, steps[n], n, 0).tm == m.tm;
    assert Do(w, steps[n]).timers == w.timers;
    TimedSame(w, Do(w, steps[n]), m.tm, m.tm, steps, n);
  }

  lemma BeginTimed(w: World, m: Manager, f: Fiber, c: Call, slot: Slot, how: Slice, steps: seq<Step>, n: nat)
    requires Agree(w, m) && Fits(slot, m) && Can(w, Begin(f, c, slot, how))
    requires n < |steps| < T.WRAP && Timed(w, m.tm, steps, n) && steps[n] == Begin(f, c, slot, how)
    ensures Timed(Do(w, steps[n]), Registers(m, f, slot, how, n, IntervalOf(steps, n, how)).tm, steps, n + 1)
  {
    AttemptTimed(Called(w, f, c, slot), m, f, c, how, steps, n);
  }

  lemma FollowTimed(w: World, m: Manager, steps: seq<Step>, n: nat)
    requires n < |steps| < T.WRAP && Timed(w, m.tm, steps, n) && Owned(w) && Ready(w, m, steps[n])
    ensures Timed(Do(w, steps[n]), Follow(w, m, steps[n], n, Interval(steps, n)).tm, steps, n + 1)
  {
    match steps[n]
    case Begin(f, c, slot, how) => BeginTimed(w, m, f, c, slot, how, steps, n);
    case ResumeFiber(f, how) => ResumeTimed(w, m, f, how, steps, n);
    case ExpireTimer(t) => ExpireAgrees(w, m, steps, n, t);
    case RunTimeout(t, epoll) => TimeoutTimed(w, m, t, epoll, steps, n);
    case _ => OtherTimed(w, m, steps, n);
  }

  // ---------------------------------------------------------------- tidiness

  lemma CallsKept(w: World, w': World, m: Manager, m': Manager)
    requires CallsFit(w, m) && w'.calls.Keys == w.calls.Keys && |m'.io.ctxs| == |m.io.ctxs|
    requires forall c :: c in w.calls ==> w'.calls[c].slot == w.calls[c].slot
    ensures CallsFit(w', m')
  {}

  lemma HandedKept(w: World, w': World)
    requires HandedNotArmed(w) && w'.timers.Keys == w.timers.Keys
    requires forall t :: t in w.timers && w'.timers[t].st.Armed? ==> w.timers[t].st.Armed?
    requires forall t :: w'.queue[Timeout(t)] <= w.queue[Timeout(t)]
    ensures HandedNotArmed(w')
  {}

  lemma AttemptTidy(w: World, m: Manager, f: Fiber, c: Call, how: Slice)
    requires Tidy(w, m) && c in w.calls && FreshTimer(w, how)
    ensures Tidy(Attempt(w, f, c, how), m)
  {}

  lemma WokenTidy(w: World, m: Manager, f: Fiber)
    requires Tidy(w, m) && f in w.parked
    ensures Tidy(Woken(w, f), m)
  {
    HandedKept(w, Woken(w, f));
  }

  lemma ResumeTidy(w: World, m: Manager, f: Fiber, how: Slice)
    requires Tidy(w, m) && Can(w, ResumeFiber(f, how))
    ensures Tidy(Resumed(w, f, how), m)
  {
    var c := w.parked[f].call;
    WokenTidy(w, m, f);
    if w.calls[c].cancelled {
      CallsKept(Woken(w, f), Return(Woken(w, f), c, TimedOut), m, m);
    } else {
      AttemptTidy(Woken(w, f), m, f, c, how);
    }
  }

  lemma FireTidy(w: World, m: Manager, slot: Slot)
    requires Tidy(w, m)
    ensures Tidy(Fire(w, slot), m)
  {
    HandedKept(w, Fire(w, slot));
  }

  lemma MarkTidy(w: World, m: Manager, t: Timer, mark: bool)
    requires Tidy(w, m) && t in w.timers && w.timers[t].call in w.calls
    ensures Tidy(Marked(w, t, mark), m)
  {
    HandedKept(w, Marked(w, t, mark));
    CallsKept(w, Marked(w, t, mark), m, m);
  }

  lemma TimeoutTidy(w: World, m: Manager, t: Timer, epoll: bool)
    requires Tidy(w, m) && Owned(w) && Can(w, RunTimeout(t, epoll))
    ensures Tidy(TimedOutNow(w, t, epoll), m)
  {
    var c := w.timers[t].call;
    TimedOutIs(w, t, epoll);
    if w.calls[c].status.Live? && !w.calls[c].cancelled {
      MarkedTwice(w, t, epoll);
      MarkTidy(w, m, t, true);
      FireTidy(Marked(w, t, true), m, w.calls[c].slot);
    } else {
      MarkTidy(w, m, t, false);
    }
  }

  lemma DeleteTidy(w: World, m: Manager, slot: Slot)
    requires Tidy(w, m) && slot in w.armed
    ensures Tidy(Deleted(w, slot), m)
  {
    HandedKept(w, Deleted(w, slot));
  }

  lemma OtherTidy(w: World, m: Manager, a: Step)
    requires Tidy(w, m) && Can(w, a) && (a.ExpireTimer? || a.ForeignAdd? || a.Push? || a.Pop?)
    ensures Tidy(Do(w, a), m)
  {}

  lemma StepTidy(w: World, m: Manager, a: Step)
    requires Owned(w) && Tidy(w, m) && Can(w, a) && StepFits(a, m)
    ensures Tidy(Do(w, a), m)
  {
    match a
    case Begin(f, c, slot, how) => AttemptTidy(Called(w, f, c, slot), m, f, c, how);
    case ResumeFiber(f, how) => ResumeTidy(w, m, f, how);
    case RunTimeout(t, epoll) => TimeoutTidy(w, m, t, epoll);
    case Trigger(slot) => FireTidy(w, m, slot);
    case Delete(slot) => DeleteTidy(w, m, slot);
    case _ => OtherTidy(w, m, a);
  }

  // ---------------------------------------------------------------- whole runs

  /** A manager with `size` contexts, all clear, and no timer. */
  function Idle(size: nat): Manager {
    Manager(E.IO(E.Empties(size), [], 0, [], 0, 0, 0), T.State(map[], [], false, 0))
  }

  ghost predicate AllFit(steps: seq<Step>, size: nat) {
    forall i :: 0 <= i < |steps| ==> StepFits(steps[i], Idle(size))
  }

  lemma ReadyNow(w: World, m: Manager, steps: seq<Step>, size: nat, n: nat)
    requires n < |steps| && Together(w, m, steps, n) && |m.io.ctxs| == size
    requires Can(w, steps[n]) && StepFits(steps[n], Idle(size))
    ensures Ready(w, m, steps[n])
  {
    assert |Idle(size).io.ctxs| == size;
  }

  lemma StartTogether(steps: seq<Step>, size: nat)
    ensures Together(START, Idle(size), steps, 0) && |Idle(size).io.ctxs| == size
  {
    forall c: nat, e | c < size ensures SlotAgrees(START, Idle(size).io, c, e) {
      assert Idle(size).io.ctxs[c] == E.FRESH;
    }
  }

  /** The manager after the calls of one step. */
  ghost function Next(w: World, m: Manager, steps: seq<Step>, n: nat): Manager
    requires n < |steps|
  {
    if Ready(w, m, steps[n]) then Follow(w, m, steps[n], n, Interval(steps, n)) else m
  }

  /** The states of a machine that each state of another drives one step on. */
  ghost function Along<W, M>(ws: seq<W>, m: M, next: (W, M, nat) -> M, n: nat): M
    requires n <= |ws|
  {
    if n == 0 then m else next(ws[n - 1], Along(ws, m, next, n - 1), n - 1)
  }

  lemma {:induction false} AlongKeeps<W, M>(ws: seq<W>, m: M, next: (W, M, nat) -> M, good: (W, M, nat) -> bool, n: nat)
    requires n < |ws| && good(ws[0], m, 0)
    requires forall k, i :: 0 <= i < |ws| - 1 && good(ws[i], k, i) ==> good(ws[i + 1], next(ws[i], k, i), i + 1)
    ensures good(ws[n], Along(ws, m, next, n), n)
  {
    if n > 0 {
      AlongKeeps(ws, m, next, good, n - 1);
      assert good(ws[n - 1 + 1], next(ws[n - 1], Along(ws, m, next, n - 1), n - 1), n - 1 + 1);
    }
  }

  ghost function NextIn(steps: seq<Step>): (World, Manager, nat) -> Manager {
    (w: World, m: Manager, n: nat) => if n < |steps| then Next(w, m, steps, n) else m
  }

  ghost function TogetherIn(steps: seq<Step>, size: nat): (World, Manager, nat) -> bool {
    (w: World, m: Manager, n: nat) => n <= |steps| && Together(w, m, steps, n) && |m.io.ctxs| == size
  }

  /** The manager after `n` steps of a run. */
  ghost function ManagerAt(ws: seq<World>, steps: seq<Step>, size: nat, n: nat): (m: Manager)
    requires n <= |ws|
  {
    Along(ws, Idle(size), NextIn(steps), n)
  }

  lemma Fold(w: World, m: Manager, steps: seq<Step>, size: nat, n: nat)
    requires n <= |steps| && Together(w, m, steps, n) && |m.io.ctxs| == size
    ensures TogetherIn(steps, size)(w, m, n)
  {}

  lemma FollowOne(w: World, m: Manager, steps: seq<Step>, size: nat, n: nat)
    requires n < |steps| < T.WRAP && Together(w, m, steps, n) && Ready(w, m, steps[n]) && |m.io.ctxs| == size
    ensures TogetherIn(steps, size)(Do(w, steps[n]), Follow(w, m, steps[n], n, Interval(steps, n)), n + 1)
  {
    var m' := Follow(w, m, steps[n], n, Interval(steps, n));
    FollowAgrees(w, m, steps, n);
    FollowTimed(w, m, steps, n);
    StepTidy(w, m, steps[n]);
    CallsKept(Do(w, steps[n]), Do(w, steps[n]), m, m');
    StepKeeps(w, steps[n]);
    Fold(Do(w, steps[n]), m', steps, size, n + 1);
  }

  lemma NextFollows(w: World, m: Manager, steps: seq<Step>, n: nat)
    requires n < |steps| && Ready(w, m, steps[n])
    ensures NextIn(steps)(w, m, n) == Follow(w, m, steps[n], n, Interval(steps, n))
  {}

  lemma NextTogether(w: World, m: Manager, steps: seq<Step>, size: nat, n: nat)
    requires n < |steps| < T.WRAP && TogetherIn(steps, size)(w, m, n)
    requires Can(w, steps[n]) && StepFits(steps[n], Idle(size))
    ensures TogetherIn(steps, size)(Do(w, steps[n]), NextIn(steps)(w, m, n), n + 1)
  {
    ReadyNow(w, m, steps, size, n);
    FollowOne(w, m, steps, size, n);
    NextFollows(w, m, steps, n);
  }

  lemma TogetherAt(ws: seq<World>, steps: seq<Step>, size: nat, n: nat)
    requires Run(ws, steps) && |steps| < T.WRAP && AllFit(steps, size) && n <= |steps|
    ensures TogetherIn(steps, size)(ws[n], ManagerAt(ws, steps, size, n), n)
  {
    var next, good := NextIn(steps), TogetherIn(steps, size);
    StartTogether(steps, size);
    forall m, i | 0 <= i < |ws| - 1 && good(ws[i], m, i) ensures good(ws[i + 1], next(ws[i], m, i), i + 1) {
      NextTogether(ws[i], m, steps, size, i);
    }
    AlongKeeps(ws, Idle(size), next, good, n);
  }

  /**
    Every run of fibers in `do_io` is a run of the manager, from an idle one, that makes the calls of the
    source in every step, and the two agree after every step, the start included.
   */
  lemma RunRefines(ws: seq<World>, steps: seq<Step>, size: nat, n: nat)
    requires Run(ws, steps) && |steps| < T.WRAP && AllFit(steps, size) && n <= |steps|
    ensures ManagerAt(ws, steps, size, 0) == Idle(size)
    ensures var m := ManagerAt(ws, steps, size, n);
            && Agree(ws[n], m)
            && (n < |steps| ==>
                  && Ready(ws[n], m, steps[n])
                  && ManagerAt(ws, steps, size, n + 1) == Follow(ws[n], m, steps[n], n, Interval(steps, n)))
  {
    TogetherAt(ws, steps, size, n);
    var m := ManagerAt(ws, steps, size, n);
    if n < |steps| {
      ReadyNow(ws[n], m, steps, size, n);
    }
  }
}
