/**
  `WorkerGroup` (chat/worker.cc) over its semaphore: single-callback `schedule`, `doWork` with callbacks
  that return normally, and the first `waitAll`. A step is one locked region of the semaphore. A later
  `waitAll` finds `m_finish` set and returns at once, so the barrier is the first caller's.
 */
module WorkerGroups {
  import opened Options
  import opened Semaphores

  /** Who asks for a permit: the `n`th call of `schedule`, or `waitAll`. */
  datatype Who = Sched(n: nat) | All

  /** `Asking(i)`: `waitAll` has `i` permits and is at the loop test; `Parked(i)`: it waits for one more. */
  datatype Barrier = NotCalled | Asking(i: nat) | Parked(i: nat)

  /** `holding`: calls of `schedule` with a permit that have not scheduled their job yet; `jobs`: scheduled
      jobs that have not given their permit back; `done`: those that have. */
  datatype World = World(hist: Hist<Who>, batch: nat, holding: set<nat>, jobs: set<nat>, done: set<nat>, all: Barrier)

  datatype Op = Enter(n: nat) | Submit(n: nat) | Finish(n: nat) | CallWaitAll | AskAll

  predicate Can(w: World, op: Op) {
    match op
    case Enter(n) => Sched(n) !in w.hist.arrivals
    case Submit(n) => n in w.holding
    case Finish(n) => n in w.jobs
    case CallWaitAll => w.all.NotCalled?
    case AskAll => w.all.Asking? && w.all.i < w.batch
  }

  function Permits(b: Barrier): nat {
    if b.NotCalled? then 0 else b.i
  }

  /** The permit of a finished job goes to the first in line. */
  function Woken(w: World, who: Option<Who>): World {
    match who
    case None => w
    case Some(Sched(n)) => w.(holding := w.holding + {n})
    case Some(All) => w.(all := Asking(Permits(w.all) + 1))
  }

  function Do(w: World, op: Op): World
    requires Can(w, op)
  {
    match op
    case Enter(n) =>
      var ok := Wait(w.hist.sem, Sched(n)).1;
      w.(hist := Step(w.hist, WaitOp(Sched(n))), holding := if ok then w.holding + {n} else w.holding)
    case Submit(n) => w.(holding := w.holding - {n}, jobs := w.jobs + {n})
    case Finish(n) =>
      Woken(w.(hist := Step(w.hist, NotifyOp), jobs := w.jobs - {n}, done := w.done + {n}), Notify(w.hist.sem).1)
    case CallWaitAll => w.(all := Asking(0))
    case AskAll =>
      var ok := Wait(w.hist.sem, All).1;
      w.(hist := Step(w.hist, WaitOp(All)), all := if ok then Asking(w.all.i + 1) else Parked(w.all.i))
  }

  // ---------------------------------------------------------------- the invariant

  /** Free permits, permits granted to schedulers, unfinished jobs and permits granted to `waitAll`. */
  ghost predicate Conserved(w: World) {
    w.hist.sem.free + |w.holding| + |w.jobs| + Permits(w.all) == w.batch
  }

  /** Each call of `schedule` is granted once, and is then in exactly one of the three sets. */
  ghost predicate Tracked(w: World) {
    && (forall n :: Sched(n) in w.hist.grants <==> n in w.holding || n in w.jobs || n in w.done)
    && (forall n :: n in w.jobs ==> n !in w.holding)
    && (forall n :: n in w.done ==> n !in w.holding && n !in w.jobs)
  }

  ghost predicate NoRepeat(s: seq<Who>) {
    forall i, j :: 0 <= i < j < |s| && s[i].Sched? ==> s[i] != s[j]
  }

  ghost predicate OneAll(s: seq<Who>) {
    forall i, j :: 0 <= i < j < |s| && s[i].All? ==> s[j] != All
  }

  /** `waitAll` is in line at most once, exactly while it is parked. */
  ghost predicate InLine(w: World) {
    OneAll(w.hist.sem.waiters) && (All in w.hist.sem.waiters <==> w.all.Parked?)
  }

  ghost predicate Inv(w: World) {
    Fair(w.hist) && NoRepeat(w.hist.arrivals) && Conserved(w) && Tracked(w) && InLine(w)
  }

  lemma EnterKeeps(w: World, n: nat)
    requires Inv(w) && Can(w, Enter(n))
    ensures Inv(Do(w, Enter(n)))
  {
    StepFair(w.hist, WaitOp(Sched(n)));
    assert n !in w.holding by {
      assert Sched(n) in w.hist.grants ==> Sched(n) in w.hist.arrivals;
    }
  }

  lemma SubmitKeeps(w: World, n: nat)
    requires Inv(w) && Can(w, Submit(n))
    ensures Inv(Do(w, Submit(n)))
  {}

  /** Who is first in line has no permit yet. */
  lemma FirstIsNew(w: World)
    requires Inv(w) && w.hist.sem.waiters != [] && w.hist.sem.waiters[0].Sched?
    ensures w.hist.sem.waiters[0] !in w.hist.grants
  {
    var a := w.hist.arrivals;
    assert a[|w.hist.grants|] == w.hist.sem.waiters[0];
    forall i | 0 <= i < |w.hist.grants| ensures w.hist.grants[i] != w.hist.sem.waiters[0] {
      assert a[i] == w.hist.grants[i];
    }
  }

  lemma FinishKeeps(w: World, n: nat)
    requires Inv(w) && Can(w, Finish(n))
    ensures Inv(Do(w, Finish(n)))
  {
    StepFair(w.hist, NotifyOp);
    if w.hist.sem.waiters != [] {
      FinishTracks(w, n);
      FinishInLine(w, n);
    }
  }

  lemma FinishTracks(w: World, n: nat)
    requires Inv(w) && Can(w, Finish(n)) && w.hist.sem.waiters != []
    ensures Tracked(Do(w, Finish(n))) && Conserved(Do(w, Finish(n)))
  {
    if w.hist.sem.waiters[0].Sched? {
      FirstIsNew(w);
    } else {
      assert All in w.hist.sem.waiters;
    }
  }

  lemma FinishInLine(w: World, n: nat)
    requires Inv(w) && Can(w, Finish(n)) && w.hist.sem.waiters != []
    ensures InLine(Do(w, Finish(n)))
  {
    var s := w.hist.sem.waiters;
    assert s == [s[0]] + s[1..];
  }

  lemma AskKeeps(w: World)
    requires Inv(w) && Can(w, AskAll)
    ensures Inv(Do(w, AskAll))
  {
    StepFair(w.hist, WaitOp(All));
  }

  lemma StepKeeps(w: World, op: Op)
    requires Inv(w) && Can(w, op)
    ensures Inv(Do(w, op)) && Do(w, op).batch == w.batch
  {
    match op
    case Enter(n) => EnterKeeps(w, n);
    case Submit(n) => SubmitKeeps(w, n);
    case Finish(n) => FinishKeeps(w, n);
    case CallWaitAll =>
    case AskAll => AskKeeps(w);
  }

  // ---------------------------------------------------------------- runs

  function Begin(batch: nat): World {
    World(New(batch), batch, {}, {}, {}, NotCalled)
  }

  ghost predicate Runs(w: World, ops: seq<Op>)
    decreases |ops|
  {
    ops == [] || (Can(w, ops[0]) && Runs(Do(w, ops[0]), ops[1..]))
  }

  function End(w: World, ops: seq<Op>): World
    requires Runs(w, ops)
    decreases |ops|
  {
    if ops == [] then w else End(Do(w, ops[0]), ops[1..])
  }

  lemma {:induction false} RunKeeps(w: World, ops: seq<Op>)
    requires Inv(w) && Runs(w, ops)
    ensures Inv(End(w, ops)) && End(w, ops).batch == w.batch
    decreases |ops|
  {
    if ops != [] {
      StepKeeps(w, ops[0]);
      RunKeeps(Do(w, ops[0]), ops[1..]);
    }
  }

  /** In every reachable state the permits add up, so at most `batch` jobs are outstanding. */
  lemma BoundedConcurrency(batch: nat, ops: seq<Op>)
    requires Runs(Begin(batch), ops)
    ensures var w := End(Begin(batch), ops); Inv(w) && |w.holding| + |w.jobs| <= batch
  {
    RunKeeps(Begin(batch), ops);
  }

  predicate Returned(w: World) {
    w.all == Asking(w.batch)
  }

  lemma GrantedOrInLine(w: World, q: nat)
    requires Fair(w.hist) && q < |w.hist.arrivals|
    ensures q < |w.hist.grants| || w.hist.arrivals[q] in w.hist.sem.waiters
  {
    var g := w.hist.grants;
    if q >= |g| {
      assert w.hist.arrivals[q] == w.hist.sem.waiters[q - |g|];
    }
  }

  /** When `waitAll` has its last permit, no job is unfinished, and every `schedule` that asked for its
      permit before one of `waitAll`'s own requests has had its job run to the end. */
  lemma BarrierHolds(batch: nat, ops: seq<Op>, p: nat, q: nat)
    requires Runs(Begin(batch), ops) && Returned(End(Begin(batch), ops))
    ensures var w := End(Begin(batch), ops);
            && w.holding == {} && w.jobs == {} && w.hist.sem.free == 0
            && (p < q < |w.hist.arrivals| && w.hist.arrivals[q] == All && w.hist.arrivals[p].Sched? ==>
                  w.hist.arrivals[p].n in w.done)
  {
    RunKeeps(Begin(batch), ops);
    var w := End(Begin(batch), ops);
    var a, g := w.hist.arrivals, w.hist.grants;
    if p < q < |a| && a[q] == All && a[p].Sched? {
      GrantedOrInLine(w, q);
      assert a[p] == g[p] && a[p] == Sched(a[p].n);
    }
  }

  /** The permits `waitAll` took are never returned: after it, nobody is ever granted one again. */
  lemma {:induction false} NothingAfterBarrier(w: World, ops: seq<Op>)
    requires Inv(w) && Returned(w) && Runs(w, ops)
    ensures var w' := End(w, ops); Returned(w') && w'.jobs == {} && w'.holding == {} && w'.hist.grants == w.hist.grants
    decreases |ops|
  {
    if ops != [] {
      StepKeeps(w, ops[0]);
      NothingAfterBarrier(Do(w, ops[0]), ops[1..]);
    }
  }
}
