/**
  How `IOManager` stops (chat/iomanager.cc, chat/scheduler.cc): one worker, whose `idle` looks at the
  timers, the pending count and the run queue one after the other, against any number of threads that
  register, cancel and schedule at any time. Clock readings, reports and counts may be anything.
 */
module CleanExit {
  import opened Options
  import T = Timers
  import TR = TimerRuns
  import E = Events
  import ER = EventRuns

  /** What the run queue holds: a task of an event, a timer's callback, or anything else scheduled. */
  datatype Job = EventJob(task: E.Task) | TimerJob(id: T.Id) | TaskJob(n: nat)

  /** Where the worker is: scanning the queue; inside a task; about to evaluate `stopping`; past its
      timer test; past its pending test; waiting for events and handling them; out of the idle loop. */
  datatype Phase = Scanning | Running | Checking | TimersClear | PendingClear | Polling | Gone

  type Registration = (nat, E.Event)

  /** The last five are ledgers. `hidden` is what a test passed over: in the timer set at the last passed
      timer test, or armed at the last passed pending test, and not taken back since. `late` is what others
      did behind the worker's back: timers added and not cancelled since the timer test, events registered
      and not taken back since the pending test, jobs queued since the worker left. */
  datatype World = World(tm: T.State, ev: ER.World, run: seq<Job>, active: nat, stop: bool, phase: Phase,
                         hiddenTimers: set<T.Id>, lateTimers: set<T.Id>,
                         hiddenEvents: set<Registration>, lateEvents: set<Registration>, lateJobs: seq<Job>)

  datatype Actor = Worker | Outside

  datatype Step =
    | Stop
    | Timer(actor: Actor, top: TR.Op)
    | Event(actor: Actor, eop: ER.Op)
    | Schedule(actor: Actor, n: nat)
    | TakeJob(k: nat)
    | EndJob(again: bool, n: nat)
    | EnterIdle
    | CheckTimers(now: nat)
    | CheckPending
    | CheckQueue
    | Expire(now: nat)
    | Report(eop: ER.Op)
    | LeaveIdle

  // ---------------------------------------------------------------- steps

  /** Tasks act while they run; other threads act at any time. */
  predicate MayAct(w: World, actor: Actor) {
    actor.Outside? || w.phase.Running?
  }

  predicate PastTimers(p: Phase) {
    p.TimersClear? || PastPending(p)
  }

  predicate PastPending(p: Phase) {
    p.PendingClear? || p.Gone?
  }

  predicate Can(w: World, a: Step) {
    match a
    case Stop => true
    case Timer(actor, op) => MayAct(w, actor) && !op.ExpireOp? && TR.Enabled(Bare(w.tm), op)
    case Event(actor, op) => MayAct(w, actor) && !op.ReportIt? && ER.Enabled(w.ev, op)
    case Schedule(actor, _) => MayAct(w, actor)
    case TakeJob(k) => w.phase.Scanning? && k < |w.run|
    case EndJob(_, _) => w.phase.Running?
    case EnterIdle => w.phase.Scanning?
    case CheckTimers(_) => w.phase.Checking?
    case CheckPending => w.phase.TimersClear?
    case CheckQueue => w.phase.PendingClear?
    case Expire(_) => w.phase.Polling?
    case Report(op) => w.phase.Polling? && op.ReportIt? && ER.Enabled(w.ev, op)
    case LeaveIdle => w.phase.Polling?
  }

  /** A timer manager seen by `TimerRuns`, with nothing logged. */
  function Bare(tm: T.State): TR.World {
    TR.World(tm, [], map[], 0)
  }

  function Jobs(tasks: seq<E.Task>): seq<Job> {
    seq(|tasks|, i requires 0 <= i < |tasks| => EventJob(tasks[i]))
  }

  function TimerJobs(due: seq<T.Key>): seq<Job> {
    seq(|due|, i requires 0 <= i < |due| => TimerJob(due[i].id))
  }

  /** What an event operation handed to the scheduler. */
  function NewJobs(w: World, ev: ER.World): seq<Job> {
    var n := |w.ev.io.queue|;
    if n <= |ev.io.queue| then Jobs(ev.io.queue[n..]) else []
  }

  function Queue(w: World, jobs: seq<Job>): World {
    w.(run := w.run + jobs, lateJobs := if w.phase.Gone? then w.lateJobs + jobs else w.lateJobs)
  }

  function Then(w: World, p: Phase): World {
    w.(phase := p)
  }

  /** The timers an operation adds, and those it takes back. */
  function Added(op: TR.Op): set<T.Id> {
    if op.AddOp? then {op.id} else {}
  }

  function Cancelled(tm: T.State, op: TR.Op): set<T.Id>
    requires TR.Enabled(Bare(tm), op)
  {
    if op.CancelOp? && T.Cancel(tm, op.id).1 then {op.id} else {}
  }

  /** The events an operation registers, and those it takes back. */
  function Registered(ev: ER.World, op: ER.Op): set<Registration>
    requires ER.Enabled(ev, op)
  {
    if op.ArmIt? && E.Arm(ev.io, ER.PcOf(ev, op.th).c, op.e, op.t, op.epoll).1.Ok? then {(ER.PcOf(ev, op.th).c, op.e)} else {}
  }

  function TakenBack(ev: ER.World, op: ER.Op): set<Registration>
    requires ER.Enabled(ev, op)
  {
    match op
    case DeleteIt(th, e, epoll) =>
      var c := ER.PcOf(ev, th).c;
      if E.Delete(ev.io, c, e, epoll).1 then {(c, e)} else {}
    case CancelIt(th, e, epoll) =>
      var c := ER.PcOf(ev, th).c;
      if E.Cancel(ev.io, c, e, epoll).1 then {(c, e)} else {}
    case CancelBothIt(th, epoll) =>
      var c := ER.PcOf(ev, th).c;
      if E.CancelBoth(ev.io, c, epoll).1 then {(c, E.Read), (c, E.Write)} else {}
    case _ => {}
  }

  function InTheSet(tm: T.State): set<T.Id> {
    set x | x in tm.recs && T.InSet(tm, x)
  }

  function ArmedEvents(ctxs: seq<E.Fd>): set<Registration> {
    if ctxs == [] then {}
    else
      var n := |ctxs| - 1;
      ArmedEvents(ctxs[..n]) + (if ctxs[n].rd then {(n, E.Read)} else {}) + (if ctxs[n].wr then {(n, E.Write)} else {})
  }

  ghost function Do(w: World, a: Step): World
    requires T.Valid(w.tm) && Can(w, a)
  {
    match a
    case Stop => w.(stop := true)
    case Timer(_, op) =>
      var tm := TR.Step(Bare(w.tm), op).tm;
      if !PastTimers(w.phase) then w.(tm := tm)
      else
        w.(tm := tm, hiddenTimers := w.hiddenTimers - Cancelled(w.tm, op),
           lateTimers := w.lateTimers + Added(op) - Cancelled(w.tm, op))
    case Event(_, op) =>
      var ev := ER.Apply(w.ev, op);
      var w1 := Queue(w, NewJobs(w, ev)).(ev := ev);
      if !PastPending(w.phase) then w1
      else
        w1.(hiddenEvents := w.hiddenEvents - TakenBack(w.ev, op),
            lateEvents := w.lateEvents + Registered(w.ev, op) - TakenBack(w.ev, op))
    case Schedule(_, n) => Queue(w, [TaskJob(n)])
    case TakeJob(k) => Then(w.(run := RemoveAt(w.run, k), active := w.active + 1), Running)
    case EndJob(again, n) =>
      Then(w.(active := if w.active == 0 then 0 else w.active - 1, run := if again then w.run + [TaskJob(n)] else w.run), Scanning)
    case EnterIdle => Then(w, Checking)
    case CheckTimers(now) =>
      var (tm, next) := T.NextTimer(w.tm, now);
      Then(w.(tm := tm, hiddenTimers := InTheSet(w.tm), lateTimers := {}), if next == T.FOREVER then TimersClear else Polling)
    case CheckPending =>
      Then(w.(hiddenEvents := ArmedEvents(w.ev.io.ctxs), lateEvents := {}), if w.ev.io.pending == 0 then PendingClear else Polling)
    case CheckQueue => Then(w.(lateJobs := []), if w.stop && w.run == [] && w.active == 0 then Gone else Polling)
    case Expire(now) =>
      var (tm, due) := T.ListExpired(w.tm, now);
      Queue(w.(tm := tm), TimerJobs(due))
    case Report(op) =>
      var ev := ER.Apply(w.ev, op);
      Queue(w, NewJobs(w, ev)).(ev := ev)
    case LeaveIdle => Then(w, Scanning)
  }

  // ---------------------------------------------------------------- the sentinel

  /** Every deadline fits in 64 bits. */
  ghost predicate Bounded(tm: T.State) {
    forall x :: x in tm.recs ==> tm.recs[x].next < T.WRAP
  }

  /** The "no timer" answer of `getNextTimer` is also given for a timer at the largest deadline when the
      clock reads 0, and for nothing else. */
  lemma SentinelIff(tm: T.State, now: nat)
    requires T.Valid(tm) && Bounded(tm)
    ensures T.NextTimer(tm, now).1 == T.FOREVER <==> tm.order == [] || (now == 0 && tm.order[0].next == T.FOREVER)
  {
    if tm.order != [] {
      assert tm.order[0] in tm.order;
    }
  }

  // ---------------------------------------------------------------- timers: what one operation does to the set

  lemma TimerStepKeeps(tm: T.State, op: TR.Op)
    requires T.Valid(tm) && TR.Enabled(Bare(tm), op)
    ensures T.Valid(TR.Step(Bare(tm), op).tm)
  {
    TR.StepIsGentle(Bare(tm), op);
  }

  lemma TimerStepBounded(tm: T.State, op: TR.Op)
    requires T.Valid(tm) && Bounded(tm) && TR.Enabled(Bare(tm), op)
    ensures Bounded(TR.Step(Bare(tm), op).tm)
  {
    match op
    case AddOp(_, _, _, _, _) =>
    case CancelOp(id) => T.CancelKeeps(tm, id);
    case RefreshOp(now, id) => T.RefreshKeeps(tm, now, id);
    case ResetOp(now, id, ms, fromNow) => T.ResetKeeps(tm, now, id, ms, fromNow);
    case NextOp(_) =>
    case ExpireOp(now) => T.ExpiryIsExact(tm, now);
  }

  lemma AddMembers(tm: T.State, now: nat, id: T.Id, ms: nat, hasCb: bool, recurring: bool, x: T.Id)
    requires T.Valid(tm) && id !in tm.recs
    ensures T.InSet(T.Add(tm, now, id, ms, hasCb, recurring).0, x) <==> x == id || T.InSet(tm, x)
  {
    T.AddKeeps(tm, now, id, ms, hasCb, recurring);
    T.InsertMembers(tm.order, T.Key(T.W(now + ms), id));
  }

  /** Between expiries only `addTimer` puts a timer into the set, and only a successful `cancel` takes one
      out: `refresh` and `reset` bring no timer back. */
  lemma TimerMembers(tm: T.State, op: TR.Op, x: T.Id)
    requires T.Valid(tm) && TR.Enabled(Bare(tm), op) && !op.ExpireOp?
    ensures T.InSet(TR.Step(Bare(tm), op).tm, x) <==>
              || (op.AddOp? && x == op.id)
              || (T.InSet(tm, x) && !(op.CancelOp? && x == op.id && T.Cancel(tm, op.id).1))
  {
    match op
    case AddOp(now, id, ms, hasCb, recurring) => AddMembers(tm, now, id, ms, hasCb, recurring, x);
    case CancelOp(id) => T.CancelKeeps(tm, id);
    case RefreshOp(now, id) => T.RefreshKeeps(tm, now, id);
    case ResetOp(now, id, ms, fromNow) => T.ResetKeeps(tm, now, id, ms, fromNow);
    case NextOp(_) => T.TickledIrrelevant(tm, false);
  }

  // ---------------------------------------------------------------- events: what one operation does to the bits

  predicate Armed(io: E.IO, r: Registration) {
    r.0 < |io.ctxs| && E.Has(io.ctxs[r.0], r.1)
  }

  /** Only a successful arming sets a bit, and only that bit; deleting and cancelling clear theirs. */
  lemma EventMembers(ev: ER.World, op: ER.Op, r: Registration)
    requires ER.Enabled(ev, op) && !op.ReportIt?
    ensures Armed(ER.Apply(ev, op).io, r) <==> (Armed(ev.io, r) && r !in TakenBack(ev, op)) || r in Registered(ev, op)
  {}

  lemma {:induction false} ArmedEventsAre(ctxs: seq<E.Fd>, r: Registration)
    ensures r in ArmedEvents(ctxs) <==> r.0 < |ctxs| && E.Has(ctxs[r.0], r.1)
  {
    if ctxs != [] {
      ArmedEventsAre(ctxs[..|ctxs| - 1], r);
    }
  }

  /** As many as there are set bits. */
  lemma {:induction false} ArmedEventsCount(ctxs: seq<E.Fd>)
    ensures |ArmedEvents(ctxs)| == E.Bits(ctxs)
  {
    if ctxs != [] {
      var n := |ctxs| - 1;
      ArmedEventsCount(ctxs[..n]);
      ArmedEventsAre(ctxs[..n], (n, E.Read));
      ArmedEventsAre(ctxs[..n], (n, E.Write));
    }
  }

  // ---------------------------------------------------------------- the invariant

  /** What the worker has seen on its way out, corrected by the ledgers, is how things are. */
  ghost predicate Seen(w: World) {
    && (PastTimers(w.phase) ==> forall x :: T.InSet(w.tm, x) <==> x in w.hiddenTimers || x in w.lateTimers)
    && (PastPending(w.phase) ==> forall r :: Armed(w.ev.io, r) <==> r in w.hiddenEvents || r in w.lateEvents)
    && (w.phase.Gone? ==> w.stop && w.run == w.lateJobs && w.active == 0)
  }

  ghost predicate Inv(w: World) {
    && T.Valid(w.tm) && Bounded(w.tm) && ER.WorldInv(w.ev)
    && w.active == (if w.phase.Running? then 1 else 0)
    && Seen(w)
  }

  lemma TimerKeeps(w: World, actor: Actor, op: TR.Op)
    requires Inv(w) && Can(w, Timer(actor, op))
    ensures Inv(Do(w, Timer(actor, op)))
  {
    TimerStepKeeps(w.tm, op);
    TimerStepBounded(w.tm, op);
    var w' := Do(w, Timer(actor, op));
    if PastTimers(w.phase) {
      forall x ensures T.InSet(w'.tm, x) <==> x in w'.hiddenTimers || x in w'.lateTimers {
        TimerMembers(w.tm, op, x);
      }
    }
  }

  lemma RegisteredStays(ev: ER.World, op: ER.Op, r: Registration)
    requires ER.Enabled(ev, op)
    ensures r in Registered(ev, op) ==> r !in TakenBack(ev, op)
  {}

  lemma EventKeeps(w: World, actor: Actor, op: ER.Op)
    requires Inv(w) && Can(w, Event(actor, op))
    ensures Inv(Do(w, Event(actor, op)))
  {
    ER.StepKeeps(w.ev, op);
    var w' := Do(w, Event(actor, op));
    if PastPending(w.phase) {
      forall r ensures Armed(w'.ev.io, r) <==> r in w'.hiddenEvents || r in w'.lateEvents {
        EventMembers(w.ev, op, r);
        RegisteredStays(w.ev, op, r);
      }
    }
  }

  lemma CheckTimersKeeps(w: World, now: nat)
    requires Inv(w) && Can(w, CheckTimers(now))
    ensures Inv(Do(w, CheckTimers(now)))
  {
    T.TickledIrrelevant(w.tm, false);
  }

  lemma CheckPendingKeeps(w: World)
    requires Inv(w) && Can(w, CheckPending)
    ensures Inv(Do(w, CheckPending))
  {
    forall r ensures Armed(w.ev.io, r) <==> r in ArmedEvents(w.ev.io.ctxs) {
      ArmedEventsAre(w.ev.io.ctxs, r);
    }
  }

  lemma ExpireKeeps(w: World, now: nat)
    requires Inv(w) && Can(w, Expire(now))
    ensures Inv(Do(w, Expire(now)))
  {
    TimerStepKeeps(w.tm, TR.ExpireOp(now));
    TimerStepBounded(w.tm, TR.ExpireOp(now));
  }

  lemma StepKeeps(w: World, a: Step)
    requires Inv(w) && Can(w, a)
    ensures Inv(Do(w, a))
  {
    match a
    case Timer(actor, op) => TimerKeeps(w, actor, op);
    case Event(actor, op) => EventKeeps(w, actor, op);
    case CheckTimers(now) => CheckTimersKeeps(w, now);
    case CheckPending => CheckPendingKeeps(w);
    case Expire(now) => ExpireKeeps(w, now);
    case Report(op) => ER.StepKeeps(w.ev, op);
    case _ =>
  }

  // ---------------------------------------------------------------- runs

  predicate Start(w: World) {
    && w.tm.recs == map[] && w.tm.order == [] && !w.tm.tickled && ER.Start(w.ev)
    && w.run == [] && w.active == 0 && !w.stop && w.phase.Scanning?
    && w.hiddenTimers == {} && w.lateTimers == {} && w.hiddenEvents == {} && w.lateEvents == {} && w.lateJobs == []
  }

  ghost predicate Run(ws: seq<World>, steps: seq<Step>) {
    && |ws| == |steps| + 1 && Start(ws[0])
    && forall i {:trigger steps[i]} :: 0 <= i < |steps| ==>
         T.Valid(ws[i].tm) && Can(ws[i], steps[i]) && ws[i + 1] == Do(ws[i], steps[i])
  }

  lemma {:induction false} RunKeeps(ws: seq<World>, steps: seq<Step>, n: nat)
    requires Run(ws, steps) && n <= |steps|
    ensures Inv(ws[n])
  {
    if n == 0 {
      ER.StartIsInv(ws[0].ev);
    } else {
      RunKeeps(ws, steps, n - 1);
      StepKeeps(ws[n - 1], steps[n - 1]);
    }
  }

  /** Nothing is left behind: no queued or active task, no timer in the set, no context (in the table or
      not) with anything parked on it. */
  ghost predicate Clean(w: World) {
    && w.run == [] && w.active == 0 && w.tm.order == []
    && forall i :: 0 <= i < |w.ev.io.ctxs| ==> w.ev.io.ctxs[i] == E.FRESH
  }

  lemma NoneIsFresh(io: E.IO)
    requires E.Inv(io)
    ensures (forall r :: !Armed(io, r)) <==> forall i :: 0 <= i < |io.ctxs| ==> io.ctxs[i] == E.FRESH
  {
    if forall r :: !Armed(io, r) {
      forall i | 0 <= i < |io.ctxs| ensures io.ctxs[i] == E.FRESH {
        assert E.FdOk(io.ctxs[i]) && !Armed(io, (i, E.Read)) && !Armed(io, (i, E.Write));
      }
    }
  }

  lemma NoneIsEmpty(tm: T.State)
    requires T.Valid(tm)
    ensures (forall x :: !T.InSet(tm, x)) <==> tm.order == []
  {
    if tm.order != [] {
      assert tm.order[0] in tm.order;
      assert T.InSet(tm, tm.order[0].id);
    }
  }

  /**
    What a worker leaves behind, for all runs: once it is out of the idle loop, the timers in the set and the
    armed events are exactly the hidden and the late ones, the queued jobs exactly those queued since it
    left. So the exit is clean if and only if there is none of these. `TimerTestHides` and
    `PendingTestHides` say what the tests pass over.
   */
  lemma ExitLeaves(ws: seq<World>, steps: seq<Step>, n: nat)
    requires Run(ws, steps) && n <= |steps| && ws[n].phase.Gone?
    ensures var w := ws[n];
            && w.stop && w.active == 0 && w.run == w.lateJobs
            && (forall x :: T.InSet(w.tm, x) <==> x in w.hiddenTimers || x in w.lateTimers)
            && (forall r :: Armed(w.ev.io, r) <==> r in w.hiddenEvents || r in w.lateEvents)
            && (Clean(w) <==>
                  w.hiddenTimers == {} && w.lateTimers == {} && w.hiddenEvents == {} && w.lateEvents == {} && w.lateJobs == [])
  {
    RunKeeps(ws, steps, n);
    var w := ws[n];
    NoneIsEmpty(w.tm);
    NoneIsFresh(w.ev.io);
    assert w.hiddenTimers + w.lateTimers == {} <==> forall x :: x !in w.hiddenTimers && x !in w.lateTimers;
    assert w.hiddenEvents + w.lateEvents == {} <==> forall r :: r !in w.hiddenEvents && r !in w.lateEvents;
  }

  /** A passed timer test passes over timers exactly when the clock reads 0 and there are any; their earliest
      deadline is then the largest possible. */
  lemma TimerTestHides(ws: seq<World>, steps: seq<Step>, n: nat)
    requires Run(ws, steps) && n < |steps| && steps[n].CheckTimers? && ws[n + 1].phase.TimersClear?
    ensures ws[n + 1].hiddenTimers != {} <==> steps[n].now == 0 && ws[n].tm.order != []
    ensures ws[n].tm.order != [] ==> ws[n].tm.order[0].next == T.FOREVER
  {
    RunKeeps(ws, steps, n);
    assert ws[n + 1] == Do(ws[n], steps[n]);
    SentinelIff(ws[n].tm, steps[n].now);
    NoneInTheSet(ws[n].tm);
  }

  lemma NoneInTheSet(tm: T.State)
    requires T.Valid(tm)
    ensures InTheSet(tm) == {} <==> tm.order == []
  {
    NoneIsEmpty(tm);
    forall x ensures x in InTheSet(tm) <==> T.InSet(tm, x) {
    }
  }

  /** A passed pending test passes over as many events as there were misses, modulo 2^64: none exactly when
      the misses so far are a multiple of 2^64. */
  lemma PendingTestHides(ws: seq<World>, steps: seq<Step>, n: nat)
    requires Run(ws, steps) && n < |steps| && steps[n].CheckPending? && ws[n + 1].phase.PendingClear?
    ensures |ws[n + 1].hiddenEvents| % E.WRAP == ws[n].ev.io.missed % E.WRAP
    ensures ws[n].ev.io.registered < E.WRAP ==> |ws[n + 1].hiddenEvents| == ws[n].ev.io.missed % E.WRAP
  {
    RunKeeps(ws, steps, n);
    assert ws[n + 1] == Do(ws[n], steps[n]);
    var io := ws[n].ev.io;
    ArmedEventsCount(io.ctxs);
    SameRemainder(E.Bits(io.ctxs), io.missed);
  }

  lemma SameRemainder(x: nat, y: nat)
    requires (x - y) % E.WRAP == 0
    ensures x % E.WRAP == y % E.WRAP
  {}

  // ---------------------------------------------------------------- what callers can do about it

  /** A registration or job that comes before the worker has looked for its kind for the last time, a clock
      that does not read 0, a report of registered events, fewer than 2^64 registrations. */
  predicate InTime(w: World, a: Step) {
    match a
    case Timer(_, AddOp(_, _, _, _, _)) => !PastTimers(w.phase)
    case Event(_, ArmIt(_, _, _, _)) => !PastPending(w.phase)
    case Schedule(_, _) => !w.phase.Gone?
    case CheckTimers(now) => now > 0
    case CheckPending => w.ev.io.registered < E.WRAP
    case Report(op) =>
      op.ReportIt? && op.c < |w.ev.io.ctxs| && (op.epoll ==> E.ReportFits(w.ev.io.ctxs[op.c], op.inn, op.out, op.err))
    case _ => true
  }

  ghost predicate NoneLate(w: World) {
    && w.ev.io.missed == 0
    && (PastTimers(w.phase) ==> w.hiddenTimers == {} && w.lateTimers == {})
    && (PastPending(w.phase) ==> w.hiddenEvents == {} && w.lateEvents == {})
    && (w.phase.Gone? ==> w.lateJobs == [])
  }

  /** With no event registered, deleting and cancelling find nothing. */
  lemma NothingToCancel(w: World, op: ER.Op)
    requires ER.Enabled(w.ev, op) && !op.ReportIt? && !op.ArmIt? && forall r :: !Armed(w.ev.io, r)
    ensures ER.Apply(w.ev, op).io.queue == w.ev.io.queue
  {
    if op.DeleteIt? || op.CancelIt? || op.CancelBothIt? {
      var c := ER.PcOf(w.ev, op.th).c;
      assert !Armed(w.ev.io, (c, E.Read)) && !Armed(w.ev.io, (c, E.Write));
    }
  }

  lemma EventNoneLate(w: World, actor: Actor, op: ER.Op)
    requires Inv(w) && NoneLate(w) && Can(w, Event(actor, op)) && InTime(w, Event(actor, op))
    ensures NoneLate(Do(w, Event(actor, op)))
  {
    ER.StepMisses(w.ev, op);
    if w.phase.Gone? {
      NothingToCancel(w, op);
    }
  }

  lemma CheckTimersNoneLate(w: World, now: nat)
    requires Inv(w) && NoneLate(w) && Can(w, CheckTimers(now)) && now > 0
    ensures NoneLate(Do(w, CheckTimers(now)))
  {
    SentinelIff(w.tm, now);
    NoneInTheSet(w.tm);
  }

  lemma CheckPendingNoneLate(w: World)
    requires Inv(w) && NoneLate(w) && Can(w, CheckPending) && w.ev.io.registered < E.WRAP
    ensures NoneLate(Do(w, CheckPending))
  {
    ArmedEventsCount(w.ev.io.ctxs);
  }

  lemma StepNoneLate(w: World, a: Step)
    requires Inv(w) && NoneLate(w) && Can(w, a) && InTime(w, a)
    ensures NoneLate(Do(w, a))
  {
    match a
    case Event(actor, op) => EventNoneLate(w, actor, op);
    case CheckTimers(now) => CheckTimersNoneLate(w, now);
    case CheckPending => CheckPendingNoneLate(w);
    case Report(op) => ER.StepMisses(w.ev, op);
    case _ =>
  }

  lemma {:induction false} RunNoneLate(ws: seq<World>, steps: seq<Step>, n: nat)
    requires Run(ws, steps) && n <= |steps|
    requires forall i {:trigger steps[i]} :: 0 <= i < n ==> InTime(ws[i], steps[i])
    ensures NoneLate(ws[n])
  {
    if n > 0 {
      RunNoneLate(ws, steps, n - 1);
      RunKeeps(ws, steps, n - 1);
      StepNoneLate(ws[n - 1], steps[n - 1]);
    }
  }

  /** Clean exit: if everything was registered and scheduled in time, reports named registered events and the
      clock was past 0, a worker that left the idle loop left nothing behind, whatever others cancel,
      delete, refresh or reset meanwhile. */
  lemma ExitIsClean(ws: seq<World>, steps: seq<Step>, n: nat)
    requires Run(ws, steps) && n <= |steps| && ws[n].phase.Gone?
    requires forall i {:trigger steps[i]} :: 0 <= i < n ==> InTime(ws[i], steps[i])
    ensures Clean(ws[n]) && ws[n].stop
  {
    RunNoneLate(ws, steps, n);
    ExitLeaves(ws, steps, n);
  }

  // ---------------------------------------------------------------- what fires is queued

  /** The step adds jobs at the end of the run queue only. */
  ghost predicate Appends(w: World, w': World) {
    w.run <= w'.run
  }

  /** Jobs leave the queue one at a time, when the worker takes them; a scheduled task, and a task that yields to
      be run again, go to its end. */
  ghost predicate JobsMove(q: seq<Job>, q': seq<Job>, a: Step) {
    match a
    case TakeJob(k) => k < |q| && q' == q[..k] + q[k + 1..]
    case Schedule(_, m) => q' == q + [TaskJob(m)]
    case EndJob(again, m) => q' == q + if again then [TaskJob(m)] else []
    case _ => q <= q'
  }

  lemma StepJobs(w: World, a: Step)
    requires T.Valid(w.tm) && Can(w, a)
    ensures JobsMove(w.run, Do(w, a).run, a)
  {}

  lemma JobsStay(ws: seq<World>, steps: seq<Step>, n: nat)
    requires Run(ws, steps) && n < |steps|
    ensures JobsMove(ws[n].run, ws[n + 1].run, steps[n])
  {
    assert ws[n + 1] == Do(ws[n], steps[n]);
    StepJobs(ws[n], steps[n]);
  }

  /** The worker queues one job for each timer that is due, or in the set after a rollback, and none else. */
  lemma ExpiryQueues(ws: seq<World>, steps: seq<Step>, n: nat, now: nat)
    requires Run(ws, steps) && n < |steps| && steps[n] == Expire(now)
    ensures QueuesTheDue(ws[n], ws[n + 1], now)
  {
    assert ws[n + 1] == Do(ws[n], steps[n]);
    ExpireQueues(ws[n], now);
  }

  ghost predicate QueuesTheDue(w: World, w': World, now: nat) {
    var k := |w.run|;
    && Appends(w, w')
    && (forall i, j :: k <= i < j < |w'.run| ==> w'.run[i].TimerJob? && w'.run[j].TimerJob? && w'.run[i] != w'.run[j])
    && (forall job :: job in w'.run[k..] <==> job.TimerJob? && IsDue(w.tm, now, job.id))
  }

  predicate IsDue(tm: T.State, now: nat, x: T.Id) {
    T.InSet(tm, x) && (tm.recs[x].next <= now || T.Rollover(tm.previous, now))
  }

  lemma ExpireQueues(w: World, now: nat)
    requires T.Valid(w.tm) && Can(w, Expire(now))
    ensures QueuesTheDue(w, Do(w, Expire(now)), now)
  {
    var due := T.ListExpired(w.tm, now).1;
    var jobs, w' := TimerJobs(due), Do(w, Expire(now));
    DueOnce(w.tm, now);
    assert w'.run == w.run + jobs;
    forall job ensures job in w'.run[|w.run|..] <==> job.TimerJob? && IsDue(w.tm, now, job.id) {
      assert w'.run[|w.run|..] == jobs;
      if job.TimerJob? {
        DueJob(w.tm, now, job.id);
      }
    }
  }

  lemma DueOnce(tm: T.State, now: nat)
    requires T.Valid(tm)
    ensures var jobs := TimerJobs(T.ListExpired(tm, now).1);
            forall i, j :: 0 <= i < j < |jobs| ==> jobs[i].TimerJob? && jobs[j].TimerJob? && jobs[i] != jobs[j]
  {
    var due := T.ListExpired(tm, now).1;
    if tm.order != [] {
      T.DueReady(tm, T.Due(tm, now));
    }
    forall i, j | 0 <= i < j < |due| ensures due[i].id != due[j].id {
    }
  }

  lemma DueKey(tm: T.State, now: nat, k: T.Key)
    requires T.Valid(tm)
    ensures k in T.ListExpired(tm, now).1 <==> IsDue(tm, now, k.id) && k.next == tm.recs[k.id].next
  {
    T.DueIsExact(tm, now);
  }

  lemma JobOfKey(due: seq<T.Key>, x: T.Id)
    ensures TimerJob(x) in TimerJobs(due) <==> exists k :: k in due && k.id == x
  {
    var jobs := TimerJobs(due);
    if TimerJob(x) in jobs {
      var i :| 0 <= i < |jobs| && jobs[i] == TimerJob(x);
      assert due[i] in due && due[i].id == x;
    }
    if k :| k in due && k.id == x {
      var i :| 0 <= i < |due| && due[i] == k;
      assert jobs[i] == TimerJob(x);
    }
  }

  lemma DueJob(tm: T.State, now: nat, x: T.Id)
    requires T.Valid(tm)
    ensures TimerJob(x) in TimerJobs(T.ListExpired(tm, now).1) <==> IsDue(tm, now, x)
  {
    var due := T.ListExpired(tm, now).1;
    JobOfKey(due, x);
    if k :| k in due && k.id == x {
      DueKey(tm, now, k);
    }
    if IsDue(tm, now, x) {
      DueKey(tm, now, T.Key(tm.recs[x].next, x));
    }
  }

  /** The run queue grows by a job for each task that the event queue grows by, in order. */
  ghost predicate Handed(run: seq<Job>, run': seq<Job>, q: seq<E.Task>, q': seq<E.Task>) {
    && run <= run' && q <= q' && |run'| - |run| == |q'| - |q|
    && forall i :: |q| <= i < |q'| ==> run'[|run| + (i - |q|)] == EventJob(q'[i])
  }

  lemma JobsHanded(run: seq<Job>, q: seq<E.Task>, q': seq<E.Task>)
    requires q <= q'
    ensures Handed(run, run + Jobs(q'[|q|..]), q, q')
  {}

  /** What an event step does to the run queue. */
  lemma EventStepRuns(w: World, a: Step)
    requires T.Valid(w.tm) && Can(w, a) && (a.Event? || a.Report?)
    ensures var ev := ER.Apply(w.ev, a.eop); Do(w, a).ev == ev && Do(w, a).run == w.run + NewJobs(w, ev)
  {}

  /** Whatever an event operation or a report hands to the scheduler is queued, in order, and nothing else. */
  lemma FiredIsQueued(ws: seq<World>, steps: seq<Step>, n: nat)
    requires Run(ws, steps) && n < |steps| && (steps[n].Event? || steps[n].Report?)
    ensures Handed(ws[n].run, ws[n + 1].run, ws[n].ev.io.queue, ws[n + 1].ev.io.queue)
  {
    var w, w' := ws[n], ws[n + 1];
    assert w' == Do(w, steps[n]);
    ER.QueueGrows(w.ev, steps[n].eop);
    EventStepRuns(w, steps[n]);
    JobsHanded(w.run, w.ev.io.queue, w'.ev.io.queue);
  }

  // ---------------------------------------------------------------- runs that do not end clean

  lemma StartExists() returns (w: World)
    ensures Start(w)
  {
    var ev := ER.StartExists();
    w := World(T.State(map[], [], false, 0), ev, [], 0, false, Scanning, {}, {}, {}, {}, []);
  }

  lemma Extend(ws: seq<World>, steps: seq<Step>, a: Step) returns (ws': seq<World>, steps': seq<Step>)
    requires Run(ws, steps) && T.Valid(ws[|steps|].tm) && Can(ws[|steps|], a)
    ensures Run(ws', steps') && ws'[0] == ws[0] && steps' == steps + [a] && ws'[|steps'|] == Do(ws[|steps|], a)
    ensures T.Valid(ws'[|steps'|].tm)
  {
    ws', steps' := ws + [Do(ws[|steps|], a)], steps + [a];
    forall i | 0 <= i < |steps'|
      ensures T.Valid(ws'[i].tm) && Can(ws'[i], steps'[i]) && ws'[i + 1] == Do(ws'[i], steps'[i])
    {
      if i < |steps| {
        assert steps'[i] == steps[i] && ws'[i] == ws[i] && ws'[i + 1] == ws[i + 1];
      }
    }
    RunKeeps(ws', steps', |steps'|);
  }

  lemma StartHidesNothing(w: World)
    requires Start(w)
    ensures InTheSet(w.tm) == {} && ArmedEvents(w.ev.io.ctxs) == {}
  {
    ER.StartIsInv(w.ev);
    ArmedEventsCount(w.ev.io.ctxs);
  }

  /** An idle worker that has passed its timer and pending tests. */
  lemma PastBoth(w: World) returns (ws: seq<World>, steps: seq<Step>)
    requires Start(w)
    ensures Run(ws, steps) && ws[0] == w && steps == [EnterIdle, CheckTimers(1), CheckPending]
    ensures ws[3] == w.(phase := PendingClear)
  {
    ws, steps := [w], [];
    StartHidesNothing(w);
    ws, steps := Extend(ws, steps, EnterIdle);
    ws, steps := Extend(ws, steps, CheckTimers(1));
    ws, steps := Extend(ws, steps, CheckPending);
  }

  /** `stop` and then the queue test. */
  lemma StopAndLeave(ws: seq<World>, steps: seq<Step>) returns (ws': seq<World>, steps': seq<Step>)
    requires Run(ws, steps) && var w := ws[|steps|]; w.phase.PendingClear? && w.run == [] && w.active == 0
    ensures Run(ws', steps') && ws'[0] == ws[0] && steps' == steps + [Stop, CheckQueue]
    ensures ws'[|steps'|] == ws[|steps|].(stop := true, phase := Gone, lateJobs := [])
  {
    RunKeeps(ws, steps, |steps|);
    ws', steps' := Extend(ws, steps, Stop);
    ws', steps' := Extend(ws', steps', CheckQueue);
  }

  /** A timer added between the worker's tests, `stop` following at once, is left behind: nothing was
      registered after `stop`. */
  lemma TimerSlips(w: World, op: TR.Op) returns (ws: seq<World>, steps: seq<Step>)
    requires Start(w) && op.AddOp?
    ensures Run(ws, steps) && ws[0] == w
    ensures steps == [EnterIdle, CheckTimers(1), CheckPending, Timer(Outside, op), Stop, CheckQueue]
    ensures ws[6].phase.Gone? && T.InSet(ws[6].tm, op.id) && !Clean(ws[6])
  {
    ws, steps := PastBoth(w);
    ws, steps := Extend(ws, steps, Timer(Outside, op));
    ws, steps := StopAndLeave(ws, steps);
    ExitLeaves(ws, steps, 6);
    assert op.id in ws[6].lateTimers;
  }

  /** So is an event. */
  lemma EventSlips(w: World, fd: nat, e: E.Event, t: E.Task) returns (ws: seq<World>, steps: seq<Step>)
    requires Start(w) && fd < 32
    ensures Run(ws, steps) && ws[0] == w
    ensures steps == [EnterIdle, CheckTimers(1), CheckPending, Event(Outside, ER.Look(0, fd, true)),
                      Event(Outside, ER.ArmIt(0, e, t, true)), Stop, CheckQueue]
    ensures ws[7].phase.Gone? && Armed(ws[7].ev.io, (fd, e)) && !Clean(ws[7])
  {
    ws, steps := PastBoth(w);
    ws, steps := LateArm(ws, steps, fd, e, t);
    ws, steps := StopAndLeave(ws, steps);
    ExitLeaves(ws, steps, 7);
    assert (fd, e) in ws[7].lateEvents;
  }

  lemma LateArm(ws: seq<World>, steps: seq<Step>, fd: nat, e: E.Event, t: E.Task) returns (ws': seq<World>, steps': seq<Step>)
    requires Run(ws, steps) && fd < 32
    requires var w := ws[|steps|]; T.Valid(w.tm) && w.phase.PendingClear? && ER.Start(w.ev) && w.run == [] && w.active == 0
    ensures Run(ws', steps') && ws'[0] == ws[0]
    ensures steps' == steps + [Event(Outside, ER.Look(0, fd, true)), Event(Outside, ER.ArmIt(0, e, t, true))]
    ensures var u := ws'[|steps'|]; u.phase.PendingClear? && u.run == [] && u.active == 0 && (fd, e) in u.lateEvents
  {
    LookThenArm(ws[|steps|], fd, e, t);
    ws', steps' := Extend(ws, steps, Event(Outside, ER.Look(0, fd, true)));
    ws', steps' := Extend(ws', steps', Event(Outside, ER.ArmIt(0, e, t, true)));
  }

  lemma LookThenArm(w: World, fd: nat, e: E.Event, t: E.Task)
    requires T.Valid(w.tm) && w.phase.PendingClear? && ER.Start(w.ev) && fd < 32
    ensures Can(w, Event(Outside, ER.Look(0, fd, true)))
    ensures var v := Do(w, Event(Outside, ER.Look(0, fd, true)));
            && T.Valid(v.tm) && Can(v, Event(Outside, ER.ArmIt(0, e, t, true)))
            && var u := Do(v, Event(Outside, ER.ArmIt(0, e, t, true)));
               u.phase == w.phase && u.run == w.run && u.active == w.active && u.tm == w.tm && (fd, e) in u.lateEvents
  {
    var look, arm := Event(Outside, ER.Look(0, fd, true)), Event(Outside, ER.ArmIt(0, e, t, true));
    var v := Do(w, look);
    assert v.run == w.run;
    assert ER.PcOf(v.ev, 0) == ER.Got(fd);
    assert Do(v, arm).run == v.run;
  }

  // ---------------------------------------------------------------- a miss that hides an event

  /** Between tasks, with nothing queued and no timer ever added. */
  ghost predicate Resting(w: World) {
    w.phase.Scanning? && w.run == [] && w.active == 0 && w.tm.order == [] && w.tm.recs == map[]
  }

  /** Another thread makes a call that finds its descriptor in the table. */
  lemma OutsideCall(ws: seq<World>, steps: seq<Step>, fd: nat, d: E.Fd, pending: nat, queue: seq<E.Task>, missed: nat, act: ER.Op)
    returns (ws': seq<World>, steps': seq<Step>)
    requires Run(ws, steps) && Resting(ws[|steps|]) && ER.Called(ws[|steps|].ev, fd, d, pending, queue, missed) && pending < E.WRAP
    requires (act.ArmIt? && !E.Has(d, act.e)) || (act.DeleteIt? && E.Has(d, act.e))
    requires act.th == 0 && act.epoll
    ensures Run(ws', steps') && ws'[0] == ws[0] && steps' == steps + [Event(Outside, ER.Look(0, fd, true)), Event(Outside, act)]
    ensures Resting(ws'[|steps'|])
    ensures ER.Called(ws'[|steps'|].ev, fd,
                      if act.ArmIt? then E.With(d, act.e, true, E.Filled(act.t)) else E.With(d, act.e, false, E.EMPTY),
                      if act.ArmIt? then (pending + 1) % E.WRAP else (pending - 1) % E.WRAP, queue, missed)
  {
    var w := ws[|steps|];
    ER.AfterCall(w.ev, fd, d, pending, queue, missed, act);
    RunKeeps(ws, steps, |steps|);
    ws', steps' := Extend(ws, steps, Event(Outside, ER.Look(0, fd, true)));
    assert ws'[|steps'|].run == [];
    ws', steps' := Extend(ws', steps', Event(Outside, act));
    assert ws'[|steps'|].run == [];
  }

  /** The worker goes idle and makes its first two tests. */
  lemma IdleTests(ws: seq<World>, steps: seq<Step>) returns (ws': seq<World>, steps': seq<Step>)
    requires Run(ws, steps) && Resting(ws[|steps|])
    ensures Run(ws', steps') && ws'[0] == ws[0] && steps' == steps + [EnterIdle, CheckTimers(1), CheckPending]
    ensures var w, w' := ws[|steps|], ws'[|steps'|];
            w' == w.(tm := w.tm.(tickled := false), phase := if w.ev.io.pending == 0 then PendingClear else Polling,
                     hiddenTimers := {}, lateTimers := {}, hiddenEvents := ArmedEvents(w.ev.io.ctxs), lateEvents := {})
  {
    RunKeeps(ws, steps, |steps|);
    NoneInTheSet(ws[|steps|].tm);
    ws', steps' := Extend(ws, steps, EnterIdle);
    ws', steps' := Extend(ws', steps', CheckTimers(1));
    ws', steps' := Extend(ws', steps', CheckPending);
  }

  /** Both events are registered, the write is deleted again, and the worker waits. */
  lemma WaitsForRead(w: World, fd: nat, t: E.Task, u: E.Task) returns (ws: seq<World>, steps: seq<Step>)
    requires Start(w) && fd < 32
    ensures Run(ws, steps) && ws[0] == w && Resting(ws[|steps|].(phase := Scanning)) && ws[|steps|].phase.Polling?
    ensures ER.Called(ws[|steps|].ev, fd, E.With(E.FRESH, E.Read, true, E.Filled(t)), 1, [], 0)
    ensures steps == [Event(Outside, ER.Look(0, fd, true)), Event(Outside, ER.ArmIt(0, E.Read, t, true)),
                      Event(Outside, ER.Look(0, fd, true)), Event(Outside, ER.ArmIt(0, E.Write, u, true)),
                      Event(Outside, ER.Look(0, fd, true)), Event(Outside, ER.DeleteIt(0, E.Write, true)),
                      EnterIdle, CheckTimers(1), CheckPending]
  {
    ws, steps := ReadStays(w, fd, t, u);
    ws, steps := IdleTests(ws, steps);
  }

  lemma ReadStays(w: World, fd: nat, t: E.Task, u: E.Task) returns (ws: seq<World>, steps: seq<Step>)
    requires Start(w) && fd < 32
    ensures Run(ws, steps) && ws[0] == w && Resting(ws[|steps|])
    ensures ER.Called(ws[|steps|].ev, fd, E.With(E.FRESH, E.Read, true, E.Filled(t)), 1, [], 0)
    ensures steps == [Event(Outside, ER.Look(0, fd, true)), Event(Outside, ER.ArmIt(0, E.Read, t, true)),
                      Event(Outside, ER.Look(0, fd, true)), Event(Outside, ER.ArmIt(0, E.Write, u, true)),
                      Event(Outside, ER.Look(0, fd, true)), Event(Outside, ER.DeleteIt(0, E.Write, true))]
  {
    ws, steps := [w], [];
    var d := E.With(E.FRESH, E.Read, true, E.Filled(t));
    ws, steps := OutsideCall(ws, steps, fd, E.FRESH, 0, [], 0, ER.ArmIt(0, E.Read, t, true));
    ws, steps := OutsideCall(ws, steps, fd, d, 1, [], 0, ER.ArmIt(0, E.Write, u, true));
    ws, steps := OutsideCall(ws, steps, fd, E.With(d, E.Write, true, E.Filled(u)), 2, [], 0, ER.DeleteIt(0, E.Write, true));
  }

  /** A report of both events that was already on its way: the read fires, the counter wraps below 0. */
  lemma LateReport(w: World, fd: nat, t: E.Task)
    requires Resting(w.(phase := Scanning)) && w.phase.Polling? && T.Valid(w.tm)
    requires ER.Called(w.ev, fd, E.With(E.FRESH, E.Read, true, E.Filled(t)), 1, [], 0)
    ensures var a := Report(ER.ReportIt(fd, true, true, false, true));
            && Can(w, a) && var v := Do(w, a);
               && v.phase.Polling? && v.run == [EventJob(t)] && v.active == 0 && v.tm == w.tm
               && ER.Called(v.ev, fd, E.FRESH, E.WRAP - 1, [t], 1)
  {
    var a := Report(ER.ReportIt(fd, true, true, false, true));
    var v := Do(w, a);
    assert v.ev.io.queue == [t];
    assert Jobs([t]) == [EventJob(t)];
  }

  /** The job of the report is run, and the worker is between tasks again. */
  lemma RunsTheJob(ws: seq<World>, steps: seq<Step>, t: E.Task) returns (ws': seq<World>, steps': seq<Step>)
    requires Run(ws, steps)
    requires var w := ws[|steps|]; w.phase.Polling? && w.run == [EventJob(t)] && w.active == 0 && w.tm.order == [] && w.tm.recs == map[]
    ensures Run(ws', steps') && ws'[0] == ws[0] && steps' == steps + [LeaveIdle, TakeJob(0), EndJob(false, 0)]
    ensures Resting(ws'[|steps'|]) && ws'[|steps'|].ev == ws[|steps|].ev
  {
    RunKeeps(ws, steps, |steps|);
    ws', steps' := Extend(ws, steps, LeaveIdle);
    ws', steps' := Extend(ws', steps', TakeJob(0));
    ws', steps' := Extend(ws', steps', EndJob(false, 0));
  }

  /** With a miss behind it, one more registration brings the counter to 0 with its bit set. */
  lemma MissThenRegister(w: World, fd: nat, t: E.Task, u: E.Task, v: E.Task) returns (ws: seq<World>, steps: seq<Step>)
    requires Start(w) && fd < 32
    ensures Run(ws, steps) && ws[0] == w && Resting(ws[|steps|])
    ensures ER.Called(ws[|steps|].ev, fd, E.With(E.FRESH, E.Read, true, E.Filled(v)), 0, [t], 1)
  {
    ws, steps := WaitsForRead(w, fd, t, u);
    RunKeeps(ws, steps, |steps|);
    LateReport(ws[|steps|], fd, t);
    ws, steps := Extend(ws, steps, Report(ER.ReportIt(fd, true, true, false, true)));
    ws, steps := RunsTheJob(ws, steps, t);
    ws, steps := OutsideCall(ws, steps, fd, E.FRESH, E.WRAP - 1, [t], 1, ER.ArmIt(0, E.Read, v, true));
  }

  /** An event that the pending test passes over because of an earlier miss is left behind, though nothing
      was late: it was registered before the worker's last tests, and `stop` came after that. */
  lemma MissHidesEvent(w: World, fd: nat, t: E.Task, u: E.Task, v: E.Task) returns (ws: seq<World>, steps: seq<Step>)
    requires Start(w) && fd < 32
    ensures Run(ws, steps) && ws[0] == w
    ensures var x := ws[|steps|];
            && x.phase.Gone? && Armed(x.ev.io, (fd, E.Read)) && !Clean(x)
            && (fd, E.Read) in x.hiddenEvents && x.hiddenTimers == {} && x.lateTimers == {} && x.lateEvents == {} && x.lateJobs == []
  {
    ws, steps := MissThenRegister(w, fd, t, u, v);
    ws, steps := IdleTests(ws, steps);
    ArmedEventsAre(ws[|steps|].ev.io.ctxs, (fd, E.Read));
    ws, steps := StopAndLeave(ws, steps);
    ExitLeaves(ws, steps, |steps|);
  }
}
