/**
  `Scheduler` (chat/scheduler.cc, chat/scheduler.h) and the fiber states of chat/fiber.cc, for any
  number of worker threads. One step per locked region of the run queue; the hand-off when a fiber
  yields (state write, context swap, `run`'s decrement) is one step.

  Nothing is asked of the programs that use it: fibers may be scheduled at any time and any number of
  times. `Polite` states what a program has to keep to for the fiber states to make sense; only module
  `FiberStates` needs it.
 */
module Scheduler {
  import opened Options

  type Fiber = nat
  type Thread = int

  const ANY: Thread := -1

  datatype FState = INIT | EXEC | READY | HOLD | TERM | EXCEPT

  datatype Work = FiberW(fiber: Fiber) | CbW(cb: nat)

  /** A queue entry; tickets number the entries in the order they were scheduled, and `owner` is the
      worker that put back a READY fiber. */
  datatype Entry = Entry(ticket: nat, work: Work, thread: Thread, owner: Option<Thread>)

  /** Where a worker is in `run`: at the loop head; holding a dequeued entry; inside a fiber; back from
      it after the decrement; after a scan that found nothing; gone. */
  datatype Phase = Head | Holding(e: Entry) | Running(f: Fiber, isCb: bool) | After(f: Fiber, isCb: bool) | Empty | Left

  /** `cbFiber` is the reusable callback fiber; `idleDone` says that the idle fiber has terminated. */
  datatype Worker = Worker(phase: Phase, cbFiber: Option<Fiber>, idleDone: bool)

  /** Which worker, if any, holds a reference it may run or reset the fiber through. */
  datatype Place = Nowhere | At(worker: Thread)

  /** `taken` records who dequeued each ticket, `queued` the ticket of each queued fiber. */
  datatype World = World(queue: seq<Entry>, next: nat, taken: map<nat, Thread>, fibers: map<Fiber, FState>,
                         place: map<Fiber, Place>, queued: map<Fiber, nat>, workers: map<Thread, Worker>, active: nat)

  // ---------------------------------------------------------------- the scan

  function StateOf(fibers: map<Fiber, FState>, f: Fiber): FState {
    if f in fibers then fibers[f] else INIT
  }

  predicate Ended(st: FState) {
    st.TERM? || st.EXCEPT?
  }

  /** An entry thread `w` may take: not pinned to another thread, and not a fiber that runs now. */
  predicate Takeable(e: Entry, w: Thread, fibers: map<Fiber, FState>) {
    && (e.thread == ANY || e.thread == w)
    && !(e.work.FiberW? && StateOf(fibers, e.work.fiber).EXEC?)
  }

  /** The first takeable index from `i` on, or the queue's length. */
  function FirstFrom(q: seq<Entry>, i: nat, w: Thread, fibers: map<Fiber, FState>): (k: nat)
    requires i <= |q|
    ensures i <= k <= |q|
    ensures k < |q| ==> Takeable(q[k], w, fibers)
    ensures forall j :: i <= j < k ==> !Takeable(q[j], w, fibers)
    decreases |q| - i
  {
    if i == |q| || Takeable(q[i], w, fibers) then i else FirstFrom(q, i + 1, w, fibers)
  }

  function First(q: seq<Entry>, w: Thread, fibers: map<Fiber, FState>): (k: nat)
    ensures k <= |q|
  {
    FirstFrom(q, 0, w, fibers)
  }

  // ---------------------------------------------------------------- steps

  datatype Step =
    | Schedule(work: Work, thread: Thread)
    | Spawn(f: Fiber)
    | Scan(w: Thread)
    | Skip(w: Thread)
    | SwapIn(w: Thread)
    | StartCb(w: Thread, nf: Fiber)
    | Yield(w: Thread, to: FState)
    | Settle(w: Thread)
    | Idle(w: Thread, done: bool)
    | Leave(w: Thread)

  predicate IsPhase(s: World, w: Thread, p: Phase) {
    w in s.workers && s.workers[w].phase == p
  }

  predicate Runs(s: World, w: Thread, f: Fiber) {
    w in s.workers && s.workers[w].phase.Running? && s.workers[w].phase.f == f
  }

  predicate CanYield(s: World, w: Thread, to: FState) {
    w in s.workers && s.workers[w].phase.Running? && (to.HOLD? || to.READY? || Ended(to))
  }

  predicate Unused(s: World, f: Fiber) {
    f !in s.fibers && f !in s.place && f !in s.queued
  }

  predicate Can(s: World, a: Step) {
    match a
    case Schedule(work, _) => work.FiberW? ==> work.fiber in s.fibers
    case Spawn(f) => Unused(s, f)
    case Scan(w) => IsPhase(s, w, Head)
    case Skip(w) => w in s.workers && s.workers[w].phase.Holding? && Finished(s, s.workers[w].phase.e.work)
    case SwapIn(w) =>
      && w in s.workers && s.workers[w].phase.Holding? && s.workers[w].phase.e.work.FiberW?
      && !Finished(s, s.workers[w].phase.e.work)
    case StartCb(w, nf) =>
      && w in s.workers && s.workers[w].phase.Holding? && s.workers[w].phase.e.work.CbW?
      && (s.workers[w].cbFiber.None? ==> Unused(s, nf))
    case Yield(w, to) => CanYield(s, w, to)
    case Settle(w) => w in s.workers && s.workers[w].phase.After?
    case Idle(w, _) => IsPhase(s, w, Empty) && !s.workers[w].idleDone
    case Leave(w) => IsPhase(s, w, Empty) && s.workers[w].idleDone
  }

  /** The fiber is parked, or runs and has no wake-up queued yet. */
  predicate Wakeable(s: World, f: Fiber) {
    && f in s.fibers && f !in s.queued && f in s.place
    && (s.place[f].Nowhere? || Runs(s, s.place[f].worker, f))
  }

  /** What a well-behaved program keeps to: a fiber is scheduled when it is parked or, as an early wake-up,
      while it runs, and not again while a wake-up is queued; a fiber with a queued wake-up does not yield
      to READY; a callback ends without leaving a wake-up of its fiber in the queue. */
  predicate Polite(s: World, a: Step)
    requires Can(s, a)
  {
    match a
    case Schedule(work, _) => work.FiberW? ==> Wakeable(s, work.fiber)
    case Yield(w, to) => to.READY? || (Ended(to) && s.workers[w].phase.isCb) ==> s.workers[w].phase.f !in s.queued
    case _ => true
  }

  /** The entry of a fiber that has ended meanwhile is dropped. */
  predicate Finished(s: World, work: Work) {
    work.FiberW? && Ended(StateOf(s.fibers, work.fiber))
  }

  function SetWorker(s: World, w: Thread, k: Worker): World {
    s.(workers := s.workers[w := k])
  }

  function Push(s: World, work: Work, thread: Thread, owner: Option<Thread>): World {
    s.(queue := s.queue + [Entry(s.next, work, thread, owner)], next := s.next + 1,
       queued := if work.FiberW? then s.queued[work.fiber := s.next] else s.queued)
  }

  function Take(s: World, w: Thread, k: nat): World
    requires w in s.workers && k < |s.queue|
  {
    var e := s.queue[k];
    var s1 := s.(queue := RemoveAt(s.queue, k), taken := s.taken[e.ticket := w], active := s.active + 1);
    var s2 := if e.work.FiberW?
              then s1.(place := s1.place[e.work.fiber := At(w)], queued := s1.queued - {e.work.fiber})
              else s1;
    SetWorker(s2, w, s.workers[w].(phase := Holding(e)))
  }

  function Dec(n: nat): nat {
    if n == 0 then 0 else n - 1
  }

  /** `cb_fiber->reset(cb)` or a new fiber, then `swapIn`. */
  function CbFiber(s: World, w: Thread, nf: Fiber): Fiber
    requires w in s.workers
  {
    if s.workers[w].cbFiber.Some? then s.workers[w].cbFiber.value else nf
  }

  /** `f` moves to state `st` and place `p`. */
  function SetFiber(s: World, f: Fiber, st: FState, p: Place): World {
    s.(fibers := s.fibers[f := st], place := s.place[f := p])
  }

  /** The hand-off: a fiber that parks, or ends and is not the callback fiber, is let go at once. */
  function Yielded(s: World, w: Thread, to: FState): World
    requires CanYield(s, w, to)
  {
    var k := s.workers[w];
    var f, isCb := k.phase.f, k.phase.isCb;
    var s1 := s.(active := Dec(s.active));
    if to.HOLD? || (Ended(to) && !isCb) then
      SetWorker(SetFiber(s1, f, to, Nowhere), w, k.(phase := Head, cbFiber := if isCb then None else k.cbFiber))
    else
      SetWorker(SetFiber(s1, f, to, At(w)), w, k.(phase := After(f, isCb)))
  }

  /** What is left after the decrement: put a READY fiber back, `reset` an ended callback fiber, let any
      other ended fiber go, and mark the rest HOLD. */
  function Settled(s: World, w: Thread): World
    requires w in s.workers && s.workers[w].phase.After?
  {
    var k := s.workers[w];
    var f, isCb, st := k.phase.f, k.phase.isCb, StateOf(s.fibers, k.phase.f);
    var released := k.(phase := Head, cbFiber := if isCb then None else k.cbFiber);
    if st.READY? then Push(SetWorker(s.(place := s.place[f := Nowhere]), w, released), FiberW(f), ANY, Some(w))
    else if !Ended(st) then SetWorker(SetFiber(s, f, HOLD, Nowhere), w, released)
    else if isCb then SetWorker(SetFiber(s, f, INIT, At(w)), w, k.(phase := Head))
    else SetWorker(SetFiber(s, f, st, Nowhere), w, released)
  }

  function Do(s: World, a: Step): World
    requires Can(s, a)
  {
    match a
    case Schedule(work, thread) => Push(s, work, thread, None)
    case Spawn(f) => SetFiber(s, f, INIT, Nowhere)
    case Scan(w) =>
      var k := First(s.queue, w, s.fibers);
      if k == |s.queue| then SetWorker(s, w, s.workers[w].(phase := Empty)) else Take(s, w, k)
    case Skip(w) =>
      SetWorker(s.(active := Dec(s.active), place := s.place[s.workers[w].phase.e.work.fiber := Nowhere]),
                w, s.workers[w].(phase := Head))
    case SwapIn(w) =>
      var f := s.workers[w].phase.e.work.fiber;
      SetWorker(SetFiber(s, f, EXEC, At(w)), w, s.workers[w].(phase := Running(f, false)))
    case StartCb(w, nf) =>
      var f := CbFiber(s, w, nf);
      SetWorker(SetFiber(s, f, EXEC, At(w)), w, s.workers[w].(phase := Running(f, true), cbFiber := Some(f)))
    case Yield(w, to) => Yielded(s, w, to)
    case Settle(w) => Settled(s, w)
    case Idle(w, done) => SetWorker(s, w, s.workers[w].(phase := Head, idleDone := done))
    case Leave(w) => SetWorker(s, w, s.workers[w].(phase := Left))
  }

  // ---------------------------------------------------------------- conservation

  /** A worker between its dequeue and its single decrement. */
  predicate InFlight(p: Phase) {
    p.Holding? || p.Running?
  }

  ghost function Flying(ws: map<Thread, Worker>): set<Thread> {
    set w | w in ws && InFlight(ws[w].phase)
  }

  ghost predicate InTheQueue(q: seq<Entry>, t: nat) {
    exists i :: 0 <= i < |q| && q[i].ticket == t
  }

  ghost predicate Ordered(q: seq<Entry>, next: nat, taken: map<nat, Thread>) {
    && (forall i, j :: 0 <= i < j < |q| ==> q[i].ticket < q[j].ticket)
    && (forall i :: 0 <= i < |q| ==> q[i].ticket < next && q[i].ticket !in taken)
  }

  ghost predicate Accounted(q: seq<Entry>, next: nat, taken: map<nat, Thread>) {
    && (forall t :: t in taken ==> t < next)
    && (forall t :: 0 <= t < next ==> t in taken || InTheQueue(q, t))
  }

  /** Entries are queued in ticket order; every ticket issued is either queued or was taken, not both. */
  ghost predicate Tickets(s: World) {
    Ordered(s.queue, s.next, s.taken) && Accounted(s.queue, s.next, s.taken)
  }

  ghost predicate Counted(s: World) {
    s.active == |Flying(s.workers)|
  }

  lemma TakeOrdered(q: seq<Entry>, next: nat, taken: map<nat, Thread>, k: nat, w: Thread)
    requires Ordered(q, next, taken) && k < |q|
    ensures Ordered(RemoveAt(q, k), next, taken[q[k].ticket := w])
  {
    var q' := RemoveAt(q, k);
    forall i | 0 <= i < |q'| ensures q'[i].ticket < next && q'[i].ticket !in taken[q[k].ticket := w] {
      var i' := if i < k then i else i + 1;
      assert q'[i] == q[i'] && i' != k;
    }
  }

  lemma TakeAccounted(q: seq<Entry>, next: nat, taken: map<nat, Thread>, k: nat, w: Thread)
    requires Ordered(q, next, taken) && Accounted(q, next, taken) && k < |q|
    ensures Accounted(RemoveAt(q, k), next, taken[q[k].ticket := w])
  {
    var q' := RemoveAt(q, k);
    forall t | 0 <= t < next && t !in taken && t != q[k].ticket ensures InTheQueue(q', t) {
      assert InTheQueue(q, t);
      var i :| 0 <= i < |q| && q[i].ticket == t;
      var i' := if i < k then i else i - 1;
      assert q'[i'] == q[i];
    }
  }

  lemma PushTickets(q: seq<Entry>, next: nat, taken: map<nat, Thread>, e: Entry)
    requires Ordered(q, next, taken) && Accounted(q, next, taken) && e.ticket == next
    ensures Ordered(q + [e], next + 1, taken) && Accounted(q + [e], next + 1, taken)
  {
    forall t | 0 <= t < next + 1 && t !in taken ensures InTheQueue(q + [e], t) {
      if t < next {
        assert InTheQueue(q, t);
        var i :| 0 <= i < |q| && q[i].ticket == t;
        assert (q + [e])[i] == q[i];
      } else {
        assert (q + [e])[|q|].ticket == t;
      }
    }
  }

  /** Only `Schedule`, `Scan` and `Settle` change the queue. */
  predicate Queues(a: Step) {
    a.Schedule? || a.Scan? || a.Settle?
  }

  lemma OthersKeepQueue(s: World, a: Step)
    requires Can(s, a) && !Queues(a)
    ensures var s' := Do(s, a);
            s'.queue == s.queue && s'.next == s.next && s'.taken == s.taken && s'.queued == s.queued
  {}

  lemma SettleTickets(s: World, w: Thread)
    requires Tickets(s) && Can(s, Settle(w))
    ensures Tickets(Settled(s, w))
  {
    PushTickets(s.queue, s.next, s.taken, Entry(s.next, FiberW(s.workers[w].phase.f), ANY, Some(w)));
  }

  lemma ScanTickets(s: World, w: Thread)
    requires Tickets(s) && Can(s, Scan(w))
    ensures Tickets(Do(s, Scan(w)))
  {
    var k := First(s.queue, w, s.fibers);
    if k < |s.queue| {
      TakeOrdered(s.queue, s.next, s.taken, k, w);
      TakeAccounted(s.queue, s.next, s.taken, k, w);
    }
  }

  lemma StepTickets(s: World, a: Step)
    requires Tickets(s) && Can(s, a)
    ensures Tickets(Do(s, a))
  {
    if a.Schedule? {
      PushTickets(s.queue, s.next, s.taken, Entry(s.next, a.work, a.thread, None));
    } else if a.Scan? {
      ScanTickets(s, a.w);
    } else if a.Settle? {
      SettleTickets(s, a.w);
    } else {
      OthersKeepQueue(s, a);
    }
  }

  lemma FlyOne(ws: map<Thread, Worker>, w: Thread, k: Worker)
    requires w in ws
    ensures Flying(ws[w := k]) == if InFlight(k.phase) then Flying(ws) + {w} else Flying(ws) - {w}
    ensures w in Flying(ws) <==> InFlight(ws[w].phase)
  {}

  lemma StepCounts(s: World, a: Step)
    requires Counted(s) && Can(s, a)
    ensures Counted(Do(s, a))
  {
    if !a.Schedule? && !a.Spawn? {
      StepMoves(s, a);
      MovedCounts(s, Do(s, a), a.w);
    }
  }

  lemma MovedCounts(s: World, s': World, w: Thread)
    requires Counted(s) && Moved(s, s', w)
    ensures Counted(s')
  {
    FlyOne(s.workers, w, s'.workers[w]);
  }

  /** A step of worker `w` changes no other worker, and the count follows its phase. */
  lemma StepMoves(s: World, a: Step)
    requires !a.Schedule? && !a.Spawn? && Can(s, a)
    ensures Moved(s, Do(s, a), a.w)
  {
    match a {
      case Yield(w, to) => YieldMoves(s, w, to);
      case Settle(w) => SettleMoves(s, w);
      case Scan(w) => ScanMoves(s, w);
      case Skip(_) =>
      case SwapIn(_) =>
      case StartCb(_, _) =>
      case Idle(_, _) =>
      case Leave(_) =>
    }
  }

  /** Only worker `w` moved, and the count followed its phase. */
  ghost predicate Moved(s: World, s': World, w: Thread) {
    && w in s.workers && w in s'.workers && s'.workers == s.workers[w := s'.workers[w]]
    && var was, now := InFlight(s.workers[w].phase), InFlight(s'.workers[w].phase);
       s'.active == if !was && now then s.active + 1 else if was && !now then Dec(s.active) else s.active
  }

  lemma YieldMoves(s: World, w: Thread, to: FState)
    requires CanYield(s, w, to)
    ensures Moved(s, Yielded(s, w, to), w)
  {}

  lemma SettleMoves(s: World, w: Thread)
    requires w in s.workers && s.workers[w].phase.After?
    ensures Moved(s, Settled(s, w), w)
  {}

  lemma ScanMoves(s: World, w: Thread)
    requires Can(s, Scan(w))
    ensures Moved(s, Do(s, Scan(w)), w)
  {}

  lemma OthersRemain(q: seq<Entry>, next: nat, taken: map<nat, Thread>, k: nat)
    requires Ordered(q, next, taken) && k < |q|
    ensures q[k] !in RemoveAt(q, k)
  {
    var q' := RemoveAt(q, k);
    forall i | 0 <= i < |q'| ensures q'[i] != q[k] {
      assert q'[i] == q[if i < k then i else i + 1];
    }
  }

  /** The entry `e` was the oldest that worker `w` may take, and is new. */
  ghost predicate Oldest(s: World, w: Thread, e: Entry) {
    && e in s.queue && Takeable(e, w, s.fibers) && e.ticket !in s.taken
    && forall i :: 0 <= i < |s.queue| && Takeable(s.queue[i], w, s.fibers) ==> e.ticket <= s.queue[i].ticket
  }

  lemma FirstIsOldest(s: World, w: Thread, k: nat)
    requires Ordered(s.queue, s.next, s.taken) && k == First(s.queue, w, s.fibers) && k < |s.queue|
    ensures Oldest(s, w, s.queue[k])
  {
    forall i | 0 <= i < |s.queue| && Takeable(s.queue[i], w, s.fibers) ensures s.queue[k].ticket <= s.queue[i].ticket {
      assert i >= k;
    }
  }

  /** A scan takes the oldest entry the worker may take out of the queue, and stays empty-handed exactly
      when there is none; the entry taken was never taken before. */
  lemma ScanTakesOldest(s: World, w: Thread)
    requires Tickets(s) && Can(s, Scan(w))
    ensures var s' := Do(s, Scan(w));
            && (s'.workers[w].phase.Empty? <==> forall i :: 0 <= i < |s.queue| ==> !Takeable(s.queue[i], w, s.fibers))
            && (s'.workers[w].phase.Empty? || s'.workers[w].phase.Holding?)
            && (s'.workers[w].phase.Holding? ==>
                  Oldest(s, w, s'.workers[w].phase.e) && s'.workers[w].phase.e !in s'.queue)
  {
    var k := First(s.queue, w, s.fibers);
    if k < |s.queue| {
      FirstIsOldest(s, w, k);
      OthersRemain(s.queue, s.next, s.taken, k);
    }
  }

  // ---------------------------------------------------------------- whole runs

  /** The scheduler as constructed: any number of workers, each about to enter its loop. */
  predicate Start(s: World) {
    && s.queue == [] && s.next == 0 && s.taken == map[] && s.fibers == map[] && s.place == map[] && s.queued == map[]
    && s.active == 0
    && forall w :: w in s.workers ==> s.workers[w] == Worker(Head, None, false)
  }

  ghost predicate Run(ws: seq<World>, steps: seq<Step>) {
    && |ws| == |steps| + 1 && Start(ws[0])
    && forall i {:trigger steps[i]} :: 0 <= i < |steps| ==> Can(ws[i], steps[i]) && ws[i + 1] == Do(ws[i], steps[i])
  }

  lemma StartCounts(s: World)
    requires Start(s)
    ensures Tickets(s) && Counted(s)
  {
    forall w ensures w !in Flying(s.workers) {
    }
    assert |Flying(s.workers)| == 0;
  }

  /** Conservation, for any number of workers and any program: in every reachable state the entries in the
      queue are in the order they were scheduled, each entry ever scheduled was taken or is queued but not
      both, and the active count is the number of workers between dequeue and decrement. */
  lemma {:induction false} SchedulerConserves(ws: seq<World>, steps: seq<Step>, n: nat)
    requires Run(ws, steps) && n <= |steps|
    ensures Tickets(ws[n]) && Counted(ws[n])
  {
    if n == 0 {
      StartCounts(ws[0]);
    } else {
      SchedulerConserves(ws, steps, n - 1);
      StepTickets(ws[n - 1], steps[n - 1]);
      StepCounts(ws[n - 1], steps[n - 1]);
    }
  }

  lemma StepTakesOnce(s: World, a: Step, t: nat)
    requires Tickets(s) && Can(s, a) && t in s.taken
    ensures t in Do(s, a).taken && Do(s, a).taken[t] == s.taken[t]
  {
    if !Queues(a) {
      OthersKeepQueue(s, a);
    }
  }

  /** An entry once taken stays with the worker that took it: no later step of any worker takes it again. */
  lemma {:induction false} TakenOnce(ws: seq<World>, steps: seq<Step>, i: nat, j: nat, t: nat)
    requires Run(ws, steps) && i <= j <= |steps| && t in ws[i].taken
    ensures t in ws[j].taken && ws[j].taken[t] == ws[i].taken[t]
    decreases j
  {
    if i < j {
      TakenOnce(ws, steps, i, j - 1, t);
      SchedulerConserves(ws, steps, j - 1);
      StepTakesOnce(ws[j - 1], steps[j - 1], t);
    }
  }

  /** And only after its idle fiber has ended. */
  lemma LeavesAfterIdle(ws: seq<World>, steps: seq<Step>, n: nat, w: Thread)
    requires Run(ws, steps) && n < |steps| && steps[n] == Leave(w)
    ensures exists m :: 0 <= m < n && steps[m] == Idle(w, true)
  {
    IdleEnded(ws, steps, n, w);
  }

  lemma {:induction false} IdleEnded(ws: seq<World>, steps: seq<Step>, n: nat, w: Thread)
    requires Run(ws, steps) && n <= |steps| && w in ws[n].workers && ws[n].workers[w].idleDone
    ensures exists m :: 0 <= m < n && steps[m] == Idle(w, true)
  {
    if n > 0 {
      StepWorkers(ws[n - 1], steps[n - 1]);
      StepIdle(ws[n - 1], steps[n - 1], w);
      if steps[n - 1] != Idle(w, true) {
        IdleEnded(ws, steps, n - 1, w);
      }
    }
  }

  lemma StepIdle(s: World, a: Step, w: Thread)
    requires Can(s, a) && w in s.workers && w in Do(s, a).workers && Do(s, a).workers[w].idleDone
    ensures a == Idle(w, true) || s.workers[w].idleDone
  {
    if By(a, w) {
      OwnStepIdle(s, a);
    } else if !a.Schedule? && !a.Spawn? {
      StepMoves(s, a);
    }
  }

  lemma OwnStepIdle(s: World, a: Step)
    requires Can(s, a) && !a.Schedule? && !a.Spawn? && a.w in s.workers
    ensures a.w in Do(s, a).workers && Do(s, a).workers[a.w].idleDone == if a.Idle? then a.done else s.workers[a.w].idleDone
  {
    if a.Yield? {
      YieldIdle(s, a.w, a.to);
    } else if a.Settle? {
      SettleIdle(s, a.w);
    }
  }

  lemma YieldIdle(s: World, w: Thread, to: FState)
    requires CanYield(s, w, to)
    ensures w in Yielded(s, w, to).workers && Yielded(s, w, to).workers[w].idleDone == s.workers[w].idleDone
  {}

  lemma SettleIdle(s: World, w: Thread)
    requires Can(s, Settle(w))
    ensures w in Settled(s, w).workers && Settled(s, w).workers[w].idleDone == s.workers[w].idleDone
  {}

  // ---------------------------------------------------------------- a READY fiber goes back

  /** In any run of any program: when a worker lets go of a fiber that yielded READY, exactly one entry is added,
      at the end of the queue, for that fiber and for any thread, and a callback fiber is given up. */
  lemma ReadyGoesBack(ws: seq<World>, steps: seq<Step>, n: nat, w: Thread, f: Fiber, isCb: bool)
    requires Run(ws, steps) && n < |steps| && w in ws[n].workers && ws[n].workers[w].phase == After(f, isCb)
    requires StateOf(ws[n].fibers, f).READY?
    requires w in ws[n + 1].workers ==> ws[n + 1].workers[w].phase != After(f, isCb)
    ensures var s, s' := ws[n], ws[n + 1];
            && |s'.queue| == |s.queue| + 1 && s.queue <= s'.queue
            && s'.queue[|s.queue|].work == FiberW(f) && s'.queue[|s.queue|].thread == -1
            && StateOf(s'.fibers, f).READY?
            && w in s'.workers && s'.workers[w].phase.Head?
            && s'.workers[w].cbFiber == if isCb then None else s.workers[w].cbFiber
  {
    var s, a := ws[n], steps[n];
    if !a.Schedule? && !a.Spawn? {
      StepMoves(s, a);
    }
  }

  /** A fiber that yields is in the state it yielded to. */
  lemma YieldRecords(ws: seq<World>, steps: seq<Step>, n: nat, w: Thread, to: FState)
    requires Run(ws, steps) && n < |steps| && steps[n] == Yield(w, to)
    ensures w in ws[n].workers && ws[n].workers[w].phase.Running?
    ensures StateOf(ws[n + 1].fibers, ws[n].workers[w].phase.f) == to
  {
    YieldedIs(ws[n], w, to);
  }

  lemma YieldedIs(s: World, w: Thread, to: FState)
    requires CanYield(s, w, to)
    ensures StateOf(Yielded(s, w, to).fibers, s.workers[w].phase.f) == to
  {
    var f := s.workers[w].phase.f;
    assert SetFiber(s, f, to, Nowhere).fibers == SetFiber(s, f, to, At(w)).fibers == s.fibers[f := to];
    assert Yielded(s, w, to).fibers == s.fibers[f := to];
  }

  // ---------------------------------------------------------------- where scheduled work goes

  ghost predicate Queued(q: seq<Entry>, t: nat, work: Work, thread: Thread) {
    exists i :: 0 <= i < |q| && q[i].ticket == t && q[i].work == work && q[i].thread == thread
  }

  predicate Holds(s: World, w: Thread, t: nat) {
    w in s.workers && s.workers[w].phase.Holding? && s.workers[w].phase.e.ticket == t
  }

  /** Entry `t`, scheduled with this work for this thread: it waits in the queue, or was taken, by that
      thread if one was named, and whoever holds it holds that work. */
  ghost predicate Delivered(s: World, t: nat, work: Work, thread: Thread) {
    && (t in s.taken || Queued(s.queue, t, work, thread))
    && (t in s.taken && thread != ANY ==> s.taken[t] == thread)
    && forall w :: Holds(s, w, t) ==> s.workers[w].phase.e.work == work
  }

  /** Who holds an entry took it. */
  ghost predicate HoldersTook(s: World) {
    forall w :: w in s.workers && s.workers[w].phase.Holding? ==>
      var t := s.workers[w].phase.e.ticket; t in s.taken && s.taken[t] == w
  }

  lemma StepKeepsHolders(s: World, a: Step, w: Thread, t: nat)
    requires Can(s, a) && Holds(Do(s, a), w, t) && !(a.Scan? && a.w == w)
    ensures Holds(s, w, t) && Do(s, a).workers[w].phase.e == s.workers[w].phase.e
  {
    if !a.Schedule? && !a.Spawn? {
      StepMoves(s, a);
    }
  }

  lemma TakeQueued(q: seq<Entry>, k: nat, t: nat, work: Work, thread: Thread)
    requires k < |q| && Queued(q, t, work, thread) && q[k].ticket != t
    ensures Queued(RemoveAt(q, k), t, work, thread)
  {
    var i :| 0 <= i < |q| && q[i].ticket == t && q[i].work == work && q[i].thread == thread;
    assert RemoveAt(q, k)[if i < k then i else i - 1] == q[i];
  }

  lemma TakesOnlyIt(q: seq<Entry>, next: nat, taken: map<nat, Thread>, k: nat, t: nat, work: Work, thread: Thread)
    requires Ordered(q, next, taken) && k < |q| && q[k].ticket == t && Queued(q, t, work, thread)
    ensures q[k].work == work && q[k].thread == thread
  {}

  /** Entry `t` stays queued, or is taken, by its thread if it names one. */
  lemma TakeDelivers(s: World, w: Thread, k: nat, t: nat, work: Work, thread: Thread)
    requires Tickets(s) && w in s.workers && k < |s.queue| && Takeable(s.queue[k], w, s.fibers)
    requires Queued(s.queue, t, work, thread) && t !in s.taken
    ensures var s' := Take(s, w, k);
            if s.queue[k].ticket == t then t in s'.taken && s'.taken[t] == w && (thread != ANY ==> w == thread)
            else t !in s'.taken && Queued(s'.queue, t, work, thread)
  {
    if s.queue[k].ticket == t {
      TakesOnlyIt(s.queue, s.next, s.taken, k, t, work, thread);
    } else {
      TakeQueued(s.queue, k, t, work, thread);
    }
  }

  lemma ScanDelivers(s: World, w: Thread, t: nat, work: Work, thread: Thread)
    requires Tickets(s) && HoldersTook(s) && Can(s, Scan(w)) && Delivered(s, t, work, thread)
    ensures Delivered(Do(s, Scan(w)), t, work, thread)
  {
    var k := First(s.queue, w, s.fibers);
    ScanHolders(s, w, t, work, thread);
    StepTickets(s, Scan(w));
    if t in s.taken {
      StepTakesOnce(s, Scan(w), t);
    } else if k < |s.queue| {
      TakeDelivers(s, w, k, t, work, thread);
    }
  }

  lemma ScanHolders(s: World, w: Thread, t: nat, work: Work, thread: Thread)
    requires Tickets(s) && HoldersTook(s) && Can(s, Scan(w)) && Delivered(s, t, work, thread)
    ensures var s' := Do(s, Scan(w)); forall v :: Holds(s', v, t) ==> s'.workers[v].phase.e.work == work
  {
    var k, s' := First(s.queue, w, s.fibers), Do(s, Scan(w));
    forall v | Holds(s', v, t) ensures s'.workers[v].phase.e.work == work {
      if v != w {
        assert Holds(s, v, t);
      } else if k < |s.queue| && Queued(s.queue, t, work, thread) {
        TakesOnlyIt(s.queue, s.next, s.taken, k, t, work, thread);
      }
    }
  }

  lemma StepDelivers(s: World, a: Step, t: nat, work: Work, thread: Thread)
    requires Tickets(s) && HoldersTook(s) && Can(s, a) && Delivered(s, t, work, thread)
    ensures Delivered(Do(s, a), t, work, thread)
  {
    if a.Scan? {
      ScanDelivers(s, a.w, t, work, thread);
    } else {
      var s' := Do(s, a);
      QueueExtends(s, a);
      if Queued(s.queue, t, work, thread) {
        var i :| 0 <= i < |s.queue| && s.queue[i].ticket == t && s.queue[i].work == work && s.queue[i].thread == thread;
        assert s'.queue[i] == s.queue[i];
      }
      forall w | Holds(s', w, t) ensures s'.workers[w].phase.e.work == work {
        StepKeepsHolders(s, a, w, t);
      }
    }
  }

  lemma QueueExtends(s: World, a: Step)
    requires Can(s, a) && !a.Scan?
    ensures s.queue <= Do(s, a).queue && Do(s, a).taken == s.taken
  {
    if !Queues(a) {
      OthersKeepQueue(s, a);
    }
  }

  lemma StepHoldersTook(s: World, a: Step)
    requires Tickets(s) && HoldersTook(s) && Can(s, a)
    ensures HoldersTook(Do(s, a))
  {
    var s' := Do(s, a);
    forall w | w in s'.workers && s'.workers[w].phase.Holding?
      ensures s'.workers[w].phase.e.ticket in s'.taken && s'.taken[s'.workers[w].phase.e.ticket] == w
    {
      var t := s'.workers[w].phase.e.ticket;
      if !(a.Scan? && a.w == w) {
        StepKeepsHolders(s, a, w, t);
        StepTakesOnce(s, a, t);
      }
    }
  }

  lemma {:induction false} RunHoldersTook(ws: seq<World>, steps: seq<Step>, n: nat)
    requires Run(ws, steps) && n <= |steps|
    ensures HoldersTook(ws[n])
  {
    if n > 0 {
      RunHoldersTook(ws, steps, n - 1);
      SchedulerConserves(ws, steps, n - 1);
      StepHoldersTook(ws[n - 1], steps[n - 1]);
    }
  }

  /** What `schedule` is for, in any run of any program: the work it is given waits in the queue or was taken,
      by the named thread if one was named, and nobody ever holds another work in its place. */
  lemma {:induction false} ScheduledIsDelivered(ws: seq<World>, steps: seq<Step>, i: nat, j: nat, work: Work, thread: Thread)
    requires Run(ws, steps) && i < j <= |steps| && steps[i] == Schedule(work, thread)
    ensures Delivered(ws[j], ws[i].next, work, thread)
    decreases j
  {
    var t := ws[i].next;
    SchedulerConserves(ws, steps, j - 1);
    RunHoldersTook(ws, steps, j - 1);
    if i == j - 1 {
      assert ws[j].queue[|ws[i].queue|].ticket == t;
    } else {
      ScheduledIsDelivered(ws, steps, i, j - 1, work, thread);
      StepDelivers(ws[j - 1], steps[j - 1], t, work, thread);
    }
  }

  /** A step of worker `w` itself. */
  predicate By(a: Step, w: Thread) {
    !a.Schedule? && !a.Spawn? && a.w == w
  }

  ghost predicate NothingFor(s: World, w: Thread) {
    forall i :: 0 <= i < |s.queue| ==> !Takeable(s.queue[i], w, s.fibers)
  }

  lemma EmptyComesFromScan(s: World, a: Step, w: Thread)
    requires Can(s, a) && w in s.workers && Do(s, a).workers[w].phase.Empty?
    ensures By(a, w) ==> a.Scan? && NothingFor(s, w)
    ensures !By(a, w) ==> s.workers[w].phase.Empty?
  {
    if !a.Schedule? && !a.Spawn? {
      StepMoves(s, a);
    }
  }

  lemma StepWorkers(s: World, a: Step)
    requires Can(s, a)
    ensures Do(s, a).workers.Keys == s.workers.Keys
  {
    if !a.Schedule? && !a.Spawn? {
      StepMoves(s, a);
    }
  }

  /** The scan that found nothing, for a worker that is empty-handed now. */
  lemma {:induction false} LastScan(ws: seq<World>, steps: seq<Step>, n: nat, w: Thread) returns (m: nat)
    requires Run(ws, steps) && n <= |steps| && w in ws[n].workers && ws[n].workers[w].phase.Empty?
    ensures m < n && steps[m] == Scan(w) && NothingFor(ws[m], w)
    ensures forall j {:trigger steps[j]} :: m < j < n ==> !By(steps[j], w)
    decreases n
  {
    StepWorkers(ws[n - 1], steps[n - 1]);
    EmptyComesFromScan(ws[n - 1], steps[n - 1], w);
    if By(steps[n - 1], w) {
      m := n - 1;
    } else {
      m := LastScan(ws, steps, n - 1, w);
    }
  }

  /** A worker leaves `run` only after a scan with nothing takeable, with no step of its own in between. */
  lemma LeavesAfterEmptyScan(ws: seq<World>, steps: seq<Step>, n: nat, w: Thread)
    requires Run(ws, steps) && n < |steps| && steps[n] == Leave(w)
    ensures exists m :: 0 <= m < n && steps[m] == Scan(w) && NothingFor(ws[m], w)
                        && forall j {:trigger steps[j]} :: m < j < n ==> !By(steps[j], w)
  {
    var m := LastScan(ws, steps, n, w);
  }
}
