/**
  Which worker may run a fiber, and the states of chat/fiber.cc a fiber goes through, over the steps of
  `Scheduler`, for programs that keep to `Polite`: a fiber is never run or reset through two references at once, its state moves only
  along the documented edges, and no READY fiber is left behind by the worker that put it back.
 */
module FiberStates {
  import opened Options
  import opened Scheduler

  // ---------------------------------------------------------------- who holds a fiber, and in what state

  function PhaseFiber(p: Phase): Option<Fiber> {
    if p.Holding? then (if p.e.work.FiberW? then Some(p.e.work.fiber) else None)
    else if p.Running? || p.After? then Some(p.f)
    else None
  }

  predicate Uses(k: Worker, f: Fiber) {
    k.cbFiber == Some(f) || PhaseFiber(k.phase) == Some(f)
  }

  predicate WellFormed(k: Worker) {
    && (k.phase.Running? || k.phase.After? ==> (k.phase.isCb <==> k.cbFiber == Some(k.phase.f)))
    && (k.phase.Holding? && k.phase.e.work.FiberW? ==> k.cbFiber != Some(k.phase.e.work.fiber))
  }

  /** The state of a fiber that worker `k` uses; only a running fiber may have a wake-up queued. */
  predicate StateFits(k: Worker, f: Fiber, st: FState, inQueue: bool) {
    if k.phase.Running? && k.phase.f == f then st.EXEC?
    else
      && !inQueue
      && if k.phase.After? && k.phase.f == f then st.READY? || (k.phase.isCb && Ended(st))
         else if PhaseFiber(k.phase) == Some(f) then !st.EXEC?
         else st.INIT?
  }

  ghost predicate FiberOk(s: World, f: Fiber)
    requires f in s.fibers
  {
    && f in s.place
    && match s.place[f]
       case Nowhere => !s.fibers[f].EXEC?
       case At(w) => w in s.workers && Uses(s.workers[w], f) && StateFits(s.workers[w], f, s.fibers[f], f in s.queued)
  }

  ghost predicate Owned(s: World) {
    forall f :: f in s.fibers ==> FiberOk(s, f)
  }

  ghost predicate WorkerOk(s: World, w: Thread)
    requires w in s.workers
  {
    && WellFormed(s.workers[w])
    && forall f :: Uses(s.workers[w], f) ==> f in s.fibers && f in s.place && s.place[f] == At(w)
  }

  ghost predicate Workers(s: World) {
    forall w :: w in s.workers ==> WorkerOk(s, w)
  }

  /** A queued fiber is queued once; one that was put back is READY and held by nobody. */
  ghost predicate EntryOk(s: World, e: Entry) {
    && (e.owner.Some? ==> e.work.FiberW? && e.thread == ANY)
    && (e.work.FiberW? ==>
          var f := e.work.fiber;
          && f in s.fibers && f in s.place && f in s.queued && s.queued[f] == e.ticket
          && (e.owner.Some? ==> s.fibers[f].READY? && s.place[f].Nowhere?))
  }

  ghost predicate Entries(s: World) {
    forall i :: 0 <= i < |s.queue| ==> EntryOk(s, s.queue[i])
  }

  /** Between `s` and `s'` only worker `w` and fiber `f` change; `w` drops or takes up only `f`. */
  ghost predicate Touch(s: World, s': World, w: Thread, f: Fiber) {
    && w in s.workers && w in s'.workers && s'.workers == s.workers[w := s'.workers[w]]
    && f in s'.fibers && s'.fibers == s.fibers[f := s'.fibers[f]]
    && f in s'.place && s'.place == s.place[f := s'.place[f]]
    && (forall g :: g != f ==> (g in s'.queued <==> g in s.queued))
    && MovesOnly(s.workers[w], s'.workers[w], f)
    && (if f in s.fibers then f in s.place && (s.place[f] == Nowhere || s.place[f] == At(w)) else Unused(s, f))
  }

  predicate MovesOnly(k: Worker, k': Worker, f: Fiber) {
    && (k'.cbFiber == k.cbFiber || ((k.cbFiber.None? || k.cbFiber == Some(f)) && (k'.cbFiber.None? || k'.cbFiber == Some(f))))
    && (PhaseFiber(k.phase).None? || PhaseFiber(k.phase) == Some(f))
    && (PhaseFiber(k'.phase).None? || PhaseFiber(k'.phase) == Some(f))
  }

  /** Where `f` ends up, and in what state. */
  ghost predicate Lands(s': World, w: Thread, f: Fiber)
    requires w in s'.workers && f in s'.fibers && f in s'.place
  {
    && WellFormed(s'.workers[w])
    && match s'.place[f]
       case Nowhere => !Uses(s'.workers[w], f) && !s'.fibers[f].EXEC?
       case At(v) => v == w && Uses(s'.workers[w], f) && StateFits(s'.workers[w], f, s'.fibers[f], f in s'.queued)
  }

  lemma TouchOwned(s: World, s': World, w: Thread, f: Fiber)
    requires Owned(s) && Workers(s) && Touch(s, s', w, f) && Lands(s', w, f)
    ensures Owned(s')
  {
    forall g | g in s'.fibers ensures FiberOk(s', g) {
      if g != f {
        assert FiberOk(s, g);
      }
    }
  }

  lemma TouchWorkers(s: World, s': World, w: Thread, f: Fiber)
    requires Workers(s) && Touch(s, s', w, f) && Lands(s', w, f)
    ensures Workers(s')
  {
    forall v | v in s'.workers ensures WorkerOk(s', v) {
      assert WorkerOk(s, v);
    }
  }

  /** A touch of a fiber that the worker already holds, or of a new one, leaves the entries as they are. */
  lemma TouchEntries(s: World, s': World, w: Thread, f: Fiber)
    requires Entries(s) && Touch(s, s', w, f) && s'.queue == s.queue && s'.queued == s.queued
    requires f in s.fibers ==> s.place[f] == At(w)
    ensures Entries(s')
  {
    forall i | 0 <= i < |s'.queue| ensures EntryOk(s', s'.queue[i]) {
      assert EntryOk(s, s.queue[i]);
    }
  }

  predicate Hands(a: Step) {
    a.Skip? || a.SwapIn? || a.StartCb? || a.Yield?
  }

  /** The fiber that a hand-off is about. */
  function Handed(s: World, a: Step): Fiber
    requires Can(s, a) && Hands(a)
  {
    match a
    case StartCb(w, nf) => CbFiber(s, w, nf)
    case Yield(w, _) => s.workers[w].phase.f
    case Skip(w) => s.workers[w].phase.e.work.fiber
    case SwapIn(w) => s.workers[w].phase.e.work.fiber
  }

  ghost predicate Held(s: World, w: Thread, f: Fiber) {
    f in s.fibers ==> f in s.place && s.place[f] == At(w)
  }

  ghost predicate Handover(s: World, s': World, w: Thread, f: Fiber) {
    Touch(s, s', w, f) && Lands(s', w, f) && Held(s, w, f)
  }

  lemma HandedIsHeld(s: World, a: Step)
    requires Owned(s) && Workers(s) && Can(s, a) && Hands(a)
    ensures WellFormed(s.workers[a.w])
    ensures var f := Handed(s, a);
            && Held(s, a.w, f)
            && (f in s.fibers || (Unused(s, f) && a.StartCb?))
            && (f in s.fibers ==> StateFits(s.workers[a.w], f, s.fibers[f], f in s.queued))
  {
    var f := Handed(s, a);
    assert WorkerOk(s, a.w);
    assert Uses(s.workers[a.w], f) || Unused(s, f);
    if f in s.fibers {
      assert FiberOk(s, f);
    }
  }

  lemma SkipHands(s: World, w: Thread)
    requires Owned(s) && Workers(s) && Can(s, Skip(w))
    ensures Handover(s, Do(s, Skip(w)), w, Handed(s, Skip(w)))
  {
    HandedIsHeld(s, Skip(w));
  }

  lemma SwapInHands(s: World, w: Thread)
    requires Owned(s) && Workers(s) && Can(s, SwapIn(w))
    ensures Handover(s, Do(s, SwapIn(w)), w, Handed(s, SwapIn(w)))
  {
    HandedIsHeld(s, SwapIn(w));
  }

  lemma StartCbHands(s: World, w: Thread, nf: Fiber)
    requires Owned(s) && Workers(s) && Can(s, StartCb(w, nf))
    ensures Handover(s, Do(s, StartCb(w, nf)), w, Handed(s, StartCb(w, nf)))
  {
    HandedIsHeld(s, StartCb(w, nf));
  }

  lemma YieldHands(s: World, w: Thread, to: FState)
    requires Owned(s) && Workers(s) && Can(s, Yield(w, to)) && Polite(s, Yield(w, to))
    ensures Handover(s, Do(s, Yield(w, to)), w, Handed(s, Yield(w, to)))
  {
    HandedIsHeld(s, Yield(w, to));
  }

  ghost predicate Disciplined(s: World) {
    Owned(s) && Workers(s) && Entries(s)
  }

  lemma HandKeeps(s: World, a: Step)
    requires Disciplined(s) && Can(s, a) && Polite(s, a) && Hands(a)
    ensures Disciplined(Do(s, a))
  {
    var s', f := Do(s, a), Handed(s, a);
    match a {
      case Skip(w) => SkipHands(s, w);
      case SwapIn(w) => SwapInHands(s, w);
      case StartCb(w, nf) => StartCbHands(s, w, nf);
      case Yield(w, to) => YieldHands(s, w, to);
    }
    OthersKeepQueue(s, a);
    TouchOwned(s, s', a.w, f);
    TouchWorkers(s, s', a.w, f);
    TouchEntries(s, s', a.w, f);
  }

  // ---------------------------------------------------------------- steps on the queue

  /** A fiber that can be taken is held by nobody. */
  lemma TakeableIsFree(s: World, k: nat, w: Thread)
    requires Disciplined(s) && k < |s.queue| && s.queue[k].work.FiberW? && Takeable(s.queue[k], w, s.fibers)
    ensures var f := s.queue[k].work.fiber; f in s.fibers && f in s.place && s.place[f].Nowhere?
  {
    assert EntryOk(s, s.queue[k]);
    assert FiberOk(s, s.queue[k].work.fiber);
  }

  lemma TakeEntries(s: World, w: Thread, k: nat)
    requires Entries(s) && Ordered(s.queue, s.next, s.taken) && w in s.workers && k < |s.queue|
    ensures Entries(Take(s, w, k))
  {
    var s' := Take(s, w, k);
    forall i | 0 <= i < |s'.queue| ensures EntryOk(s', s'.queue[i]) {
      var j := if i < k then i else i + 1;
      assert s'.queue[i] == s.queue[j];
      assert EntryOk(s, s.queue[j]) && EntryOk(s, s.queue[k]);
      assert s.queue[j].ticket != s.queue[k].ticket;
    }
  }

  lemma TakeFiber(s: World, w: Thread, k: nat)
    requires Disciplined(s) && Can(s, Scan(w)) && k < |s.queue|
    requires s.queue[k].work.FiberW? && Takeable(s.queue[k], w, s.fibers)
    ensures Owned(Take(s, w, k)) && Workers(Take(s, w, k))
  {
    var s', f := Take(s, w, k), s.queue[k].work.fiber;
    TakeableIsFree(s, k, w);
    assert WorkerOk(s, w);
    assert FiberOk(s, f);
    TouchOwned(s, s', w, f);
    TouchWorkers(s, s', w, f);
  }

  /** A step that changes one worker's phase between phases that use no fiber. */
  lemma IdleKeeps(s: World, s': World, w: Thread)
    requires Owned(s) && Workers(s) && w in s.workers && w in s'.workers
    requires s'.workers == s.workers[w := s'.workers[w]] && s'.workers[w].cbFiber == s.workers[w].cbFiber
    requires PhaseFiber(s.workers[w].phase).None? && PhaseFiber(s'.workers[w].phase).None?
    requires s'.fibers == s.fibers && s'.place == s.place && s'.queued == s.queued
    ensures Owned(s') && Workers(s')
  {
    forall g | g in s'.fibers ensures FiberOk(s', g) {
      assert FiberOk(s, g);
    }
    forall v | v in s'.workers ensures WorkerOk(s', v) {
      assert WorkerOk(s, v);
    }
  }

  lemma ScanKeeps(s: World, w: Thread)
    requires Disciplined(s) && Ordered(s.queue, s.next, s.taken) && Can(s, Scan(w))
    ensures Disciplined(Do(s, Scan(w)))
  {
    var k := First(s.queue, w, s.fibers);
    if k == |s.queue| || s.queue[k].work.CbW? {
      IdleKeeps(s, Do(s, Scan(w)), w);
    } else {
      TakeFiber(s, w, k);
    }
    if k < |s.queue| {
      TakeEntries(s, w, k);
    } else {
      SameEntries(s, Do(s, Scan(w)));
    }
  }

  lemma SameEntries(s: World, s': World)
    requires Entries(s) && s'.queue == s.queue && s'.queued == s.queued
    requires s'.fibers == s.fibers && s'.place == s.place
    ensures Entries(s')
  {
    forall i | 0 <= i < |s'.queue| ensures EntryOk(s', s'.queue[i]) {
      assert EntryOk(s, s.queue[i]);
    }
  }

  lemma SettleTouches(s: World, w: Thread)
    requires Owned(s) && Workers(s) && Can(s, Settle(w))
    ensures Handover(s, Settled(s, w), w, s.workers[w].phase.f)
    ensures s.workers[w].phase.f in s.fibers && s.workers[w].phase.f !in s.queued
    ensures StateFits(s.workers[w], s.workers[w].phase.f, s.fibers[s.workers[w].phase.f], false)
  {
    var f := s.workers[w].phase.f;
    assert WorkerOk(s, w);
    assert Uses(s.workers[w], f);
    assert FiberOk(s, f);
  }

  lemma SettleEntries(s: World, w: Thread)
    requires Disciplined(s) && Can(s, Settle(w))
    ensures Entries(Settled(s, w))
  {
    var s', f := Settled(s, w), s.workers[w].phase.f;
    SettleTouches(s, w);
    forall i | 0 <= i < |s'.queue| ensures EntryOk(s', s'.queue[i]) {
      if i < |s.queue| {
        assert s'.queue[i] == s.queue[i];
        assert EntryOk(s, s.queue[i]);
      }
    }
  }

  lemma SettleKeeps(s: World, w: Thread)
    requires Disciplined(s) && Can(s, Settle(w))
    ensures Disciplined(Settled(s, w))
  {
    var s', f := Settled(s, w), s.workers[w].phase.f;
    SettleTouches(s, w);
    SettleEntries(s, w);
    TouchOwned(s, s', w, f);
    TouchWorkers(s, s', w, f);
  }

  lemma ScheduleKeeps(s: World, work: Work, thread: Thread)
    requires Disciplined(s) && Can(s, Schedule(work, thread)) && Polite(s, Schedule(work, thread))
    ensures Disciplined(Push(s, work, thread, None))
  {
    var s' := Push(s, work, thread, None);
    forall g | g in s'.fibers ensures FiberOk(s', g) {
      assert FiberOk(s, g);
    }
    forall v | v in s'.workers ensures WorkerOk(s', v) {
      assert WorkerOk(s, v);
    }
    forall i | 0 <= i < |s'.queue| ensures EntryOk(s', s'.queue[i]) {
      if i < |s.queue| {
        assert s'.queue[i] == s.queue[i];
        assert EntryOk(s, s.queue[i]);
      }
    }
  }

  lemma SpawnKeeps(s: World, f: Fiber)
    requires Disciplined(s) && Can(s, Spawn(f))
    ensures Disciplined(Do(s, Spawn(f)))
  {
    var s' := Do(s, Spawn(f));
    forall g | g in s'.fibers ensures FiberOk(s', g) {
      if g != f { assert FiberOk(s, g); }
    }
    forall v | v in s'.workers ensures WorkerOk(s', v) {
      assert WorkerOk(s, v);
    }
    forall i | 0 <= i < |s'.queue| ensures EntryOk(s', s'.queue[i]) {
      assert EntryOk(s, s.queue[i]);
    }
  }

  lemma StepDisciplined(s: World, a: Step)
    requires Disciplined(s) && Ordered(s.queue, s.next, s.taken) && Can(s, a) && Polite(s, a)
    ensures Disciplined(Do(s, a))
  {
    match a
    case Schedule(work, thread) => ScheduleKeeps(s, work, thread);
    case Spawn(f) => SpawnKeeps(s, f);
    case Scan(w) => ScanKeeps(s, w);
    case Settle(w) => SettleKeeps(s, w);
    case Idle(w, _) => IdleKeeps(s, Do(s, a), w); SameEntries(s, Do(s, a));
    case Leave(w) => IdleKeeps(s, Do(s, a), w); SameEntries(s, Do(s, a));
    case Skip(w) => HandKeeps(s, a);
    case SwapIn(w) => HandKeeps(s, a);
    case StartCb(w, nf) => HandKeeps(s, a);
    case Yield(w, to) => HandKeeps(s, a);
  }

  // ---------------------------------------------------------------- exactly the polite steps keep it

  ghost predicate HasEntry(q: seq<Entry>, f: Fiber, t: nat) {
    exists i :: 0 <= i < |q| && q[i].work == FiberW(f) && q[i].ticket == t
  }

  /** A fiber with a ticket has its entry in the queue. */
  ghost predicate Listed(s: World) {
    forall f :: f in s.queued ==> HasEntry(s.queue, f, s.queued[f])
  }

  lemma PushListed(s: World, work: Work, thread: Thread, owner: Option<Thread>)
    requires Listed(s)
    ensures Listed(Push(s, work, thread, owner))
  {
    var s' := Push(s, work, thread, owner);
    forall f | f in s'.queued ensures HasEntry(s'.queue, f, s'.queued[f]) {
      if work == FiberW(f) {
        assert s'.queue[|s.queue|].work == FiberW(f);
      } else {
        var i :| 0 <= i < |s.queue| && s.queue[i].work == FiberW(f) && s.queue[i].ticket == s.queued[f];
        assert s'.queue[i] == s.queue[i];
      }
    }
  }

  lemma TakeListed(s: World, w: Thread, k: nat)
    requires Listed(s) && w in s.workers && k < |s.queue|
    ensures Listed(Take(s, w, k))
  {
    var s' := Take(s, w, k);
    forall f | f in s'.queued ensures HasEntry(s'.queue, f, s'.queued[f]) {
      var i :| 0 <= i < |s.queue| && s.queue[i].work == FiberW(f) && s.queue[i].ticket == s.queued[f];
      assert s'.queue[if i < k then i else i - 1] == s.queue[i];
    }
  }

  lemma SettleListed(s: World, w: Thread)
    requires Listed(s) && Can(s, Settle(w))
    ensures Listed(Settled(s, w))
  {
    var k := s.workers[w];
    var f, isCb := k.phase.f, k.phase.isCb;
    if StateOf(s.fibers, f).READY? {
      PushListed(SetWorker(s.(place := s.place[f := Nowhere]), w, k.(phase := Head, cbFiber := if isCb then None else k.cbFiber)),
                 FiberW(f), ANY, Some(w));
    }
  }

  lemma StepListed(s: World, a: Step)
    requires Listed(s) && Can(s, a)
    ensures Listed(Do(s, a))
  {
    match a
    case Schedule(work, thread) => PushListed(s, work, thread, None);
    case Scan(w) =>
      var k := First(s.queue, w, s.fibers);
      if k < |s.queue| { TakeListed(s, w, k); }
    case Settle(w) => SettleListed(s, w);
    case _ => OthersKeepQueue(s, a);
  }

  /** Scheduling a fiber that has a wake-up queued, or that a worker holds without running it, breaks it. */
  lemma RudeSchedule(s: World, f: Fiber, thread: Thread)
    requires Disciplined(s) && Listed(s) && Ordered(s.queue, s.next, s.taken)
    requires Can(s, Schedule(FiberW(f), thread)) && !Wakeable(s, f)
    ensures !Disciplined(Push(s, FiberW(f), thread, None))
  {
    var s' := Push(s, FiberW(f), thread, None);
    assert FiberOk(s, f);
    if f in s.queued {
      var i :| 0 <= i < |s.queue| && s.queue[i].work == FiberW(f) && s.queue[i].ticket == s.queued[f];
      assert s'.queue[i] == s.queue[i];
      assert !EntryOk(s', s'.queue[i]);
    } else {
      assert !FiberOk(s', f);
    }
  }

  /** So does yielding to READY, or ending a callback, with a wake-up queued. */
  lemma RudeYield(s: World, w: Thread, to: FState)
    requires Disciplined(s) && Can(s, Yield(w, to)) && !Polite(s, Yield(w, to))
    ensures !Disciplined(Do(s, Yield(w, to)))
  {
    HandedIsHeld(s, Yield(w, to));
    assert !FiberOk(Do(s, Yield(w, to)), s.workers[w].phase.f);
  }

  /** A step keeps fibers held as they should be if and only if it is polite. */
  lemma StepDisciplinedIff(s: World, a: Step)
    requires Disciplined(s) && Listed(s) && Ordered(s.queue, s.next, s.taken) && Can(s, a)
    ensures Listed(Do(s, a)) && (Disciplined(Do(s, a)) <==> Polite(s, a))
  {
    StepListed(s, a);
    if Polite(s, a) {
      StepDisciplined(s, a);
    } else if a.Schedule? {
      RudeSchedule(s, a.work.fiber, a.thread);
    } else {
      RudeYield(s, a.w, a.to);
    }
  }

  // ---------------------------------------------------------------- nothing put back is abandoned

  predicate Gone(p: Phase) {
    p.Empty? || p.Left?
  }

  ghost predicate NoneOf(q: seq<Entry>, w: Thread) {
    forall i :: 0 <= i < |q| ==> q[i].owner != Some(w)
  }

  /** A worker that found nothing, or has left, has no fiber it put back still in the queue. */
  ghost predicate NoneAbandoned(s: World) {
    forall w :: w in s.workers && Gone(s.workers[w].phase) ==> NoneOf(s.queue, w)
  }

  /** A fiber that was put back can be taken by every worker. */
  lemma PutBackIsTakeable(s: World, i: nat, w: Thread)
    requires Entries(s) && i < |s.queue| && s.queue[i].owner.Some?
    ensures Takeable(s.queue[i], w, s.fibers)
  {
    assert EntryOk(s, s.queue[i]);
  }

  lemma EmptyScanHasNone(s: World, w: Thread)
    requires Entries(s) && First(s.queue, w, s.fibers) == |s.queue|
    ensures NoneOf(s.queue, w)
  {
    forall i | 0 <= i < |s.queue| ensures s.queue[i].owner != Some(w) {
      if s.queue[i].owner == Some(w) {
        PutBackIsTakeable(s, i, w);
      }
    }
  }

  lemma ScanAbandonsNone(s: World, w: Thread)
    requires Entries(s) && NoneAbandoned(s) && Can(s, Scan(w))
    ensures NoneAbandoned(Do(s, Scan(w)))
  {
    var k := First(s.queue, w, s.fibers);
    var s' := Do(s, Scan(w));
    if k == |s.queue| {
      EmptyScanHasNone(s, w);
    } else {
      forall v | v in s'.workers && Gone(s'.workers[v].phase) ensures NoneOf(s'.queue, v) {
        assert NoneOf(s.queue, v);
        forall i | 0 <= i < |s'.queue| ensures s'.queue[i].owner != Some(v) {
          assert s'.queue[i] == s.queue[if i < k then i else i + 1];
        }
      }
    }
  }

  lemma StepAbandonsNone(s: World, a: Step)
    requires Entries(s) && NoneAbandoned(s) && Can(s, a)
    ensures NoneAbandoned(Do(s, a))
  {
    if a.Scan? {
      ScanAbandonsNone(s, a.w);
    } else {
      QueueGrows(s, a);
      var s' := Do(s, a);
      forall v | v in s'.workers && Gone(s'.workers[v].phase) ensures NoneOf(s'.queue, v) {
        assert NoneOf(s.queue, v);
      }
    }
  }

  /** Outside a scan the queue only grows at its end, by entries of the worker that steps; nobody becomes
      idle or leaves but from an empty scan. */
  lemma QueueGrows(s: World, a: Step)
    requires Can(s, a) && !a.Scan?
    ensures var s' := Do(s, a);
            && |s'.queue| >= |s.queue| && s'.queue[..|s.queue|] == s.queue
            && s'.workers.Keys == s.workers.Keys
            && (forall i :: |s.queue| <= i < |s'.queue| ==>
                  s'.queue[i].owner.None? || (a.Settle? && s'.queue[i].owner == Some(a.w) && s'.workers[a.w].phase.Head?))
            && (forall v :: v in s.workers && Gone(s'.workers[v].phase) ==> Gone(s.workers[v].phase))
  {
    if !a.Schedule? && !a.Spawn? {
      StepMoves(s, a);
    }
    if !Queues(a) {
      OthersKeepQueue(s, a);
    }
  }

  // ---------------------------------------------------------------- a READY fiber is queued or in one hand

  /** A READY fiber that nobody holds has a wake-up queued. */
  ghost predicate ReadyOk(s: World) {
    forall f :: f in s.fibers && s.fibers[f].READY? && f in s.place && s.place[f].Nowhere? ==> f in s.queued
  }

  lemma HandReady(s: World, a: Step)
    requires ReadyOk(s) && Can(s, a) && Hands(a)
    ensures ReadyOk(Do(s, a))
  {}

  lemma SettleReady(s: World, w: Thread)
    requires ReadyOk(s) && Can(s, Settle(w))
    ensures ReadyOk(Settled(s, w))
  {}

  lemma StepReady(s: World, a: Step)
    requires ReadyOk(s) && Can(s, a)
    ensures ReadyOk(Do(s, a))
  {
    if Hands(a) {
      HandReady(s, a);
    } else if a.Settle? {
      SettleReady(s, a.w);
    }
  }

  /** Worker `w` is back from the fiber, or has taken its entry and is about to run it. */
  predicate InHand(s: World, w: Thread, f: Fiber) {
    && w in s.workers
    && (match s.workers[w].phase
        case After(g, _) => g == f
        case Holding(e) => e.work == FiberW(f)
        case _ => false)
  }

  /** A READY fiber has exactly one entry in the queue, or exactly one worker has it in hand, not both. */
  ghost predicate QueuedOrInHand(s: World, f: Fiber) {
    && ((exists i :: 0 <= i < |s.queue| && s.queue[i].work == FiberW(f)) <==> !(exists w :: InHand(s, w, f)))
    && (forall i, j :: 0 <= i < |s.queue| && 0 <= j < |s.queue| && s.queue[i].work == FiberW(f) && s.queue[j].work == FiberW(f) ==> i == j)
    && (forall v, w :: InHand(s, v, f) && InHand(s, w, f) ==> v == w)
  }

  lemma ReadyIsSomewhere(s: World, f: Fiber)
    requires Disciplined(s) && Listed(s) && ReadyOk(s) && f in s.fibers && s.fibers[f].READY?
    ensures f in s.queued <==> s.place[f].Nowhere?
    ensures s.place[f].At? ==> InHand(s, s.place[f].worker, f)
    ensures forall w :: InHand(s, w, f) ==> s.place[f] == At(w)
  {
    assert FiberOk(s, f);
    forall w | InHand(s, w, f) ensures s.place[f] == At(w) {
      assert WorkerOk(s, w) && Uses(s.workers[w], f);
    }
  }

  lemma EntriesOnce(s: World, f: Fiber)
    requires Disciplined(s) && Ordered(s.queue, s.next, s.taken)
    ensures forall i, j :: 0 <= i < |s.queue| && 0 <= j < |s.queue| && s.queue[i].work == FiberW(f) && s.queue[j].work == FiberW(f) ==> i == j
    ensures forall i :: 0 <= i < |s.queue| && s.queue[i].work == FiberW(f) ==> f in s.queued
  {
    forall i | 0 <= i < |s.queue| && s.queue[i].work == FiberW(f) ensures f in s.queued && s.queued[f] == s.queue[i].ticket {
      assert EntryOk(s, s.queue[i]);
    }
  }

  // ---------------------------------------------------------------- transitions and assertions

  /** INIT, READY, HOLD go to EXEC; EXEC to READY, HOLD, TERM, EXCEPT; only `reset` leads back to INIT. */
  predicate Allowed(st: FState, st': FState) {
    match st'
    case EXEC => st.INIT? || st.READY? || st.HOLD?
    case INIT => st.INIT? || Ended(st)
    case _ => st.EXEC?
  }

  /** What `reset`, `YieldToReady` and `YieldToHold` assert, where the step runs into them. */
  predicate AssertionsHold(s: World, a: Step)
    requires Can(s, a)
  {
    match a
    case StartCb(w, _) =>
      s.workers[w].cbFiber.Some? ==>
        var f := s.workers[w].cbFiber.value; f in s.fibers && (s.fibers[f].INIT? || Ended(s.fibers[f]))
    case Yield(w, _) => s.workers[w].phase.f in s.fibers && s.fibers[s.workers[w].phase.f].EXEC?
    case Settle(w) =>
      var f := s.workers[w].phase.f;
      f in s.fibers && (s.fibers[f].READY? || (Ended(s.fibers[f]) && s.workers[w].cbFiber == Some(f)))
    case _ => true
  }

  ghost predicate MovesAlong(s: World, s': World) {
    forall f :: f in s.fibers ==> f in s'.fibers && (s'.fibers[f] == s.fibers[f] || Allowed(s.fibers[f], s'.fibers[f]))
  }

  lemma StepAsserts(s: World, a: Step)
    requires Owned(s) && Workers(s) && Can(s, a)
    ensures AssertionsHold(s, a)
  {
    match a
    case StartCb(w, nf) => HandedIsHeld(s, a);
    case Yield(w, to) => HandedIsHeld(s, a);
    case Settle(w) =>
      SettleTouches(s, w);
      assert WorkerOk(s, w);
    case _ =>
  }

  /** A hand-off moves one fiber, along an allowed edge. */
  lemma HandMovesAlong(s: World, a: Step)
    requires Owned(s) && Workers(s) && Can(s, a) && Hands(a)
    ensures MovesAlong(s, Do(s, a))
  {
    HandedIsHeld(s, a);
    match a {
      case Skip(w) =>
      case SwapIn(w) =>
      case StartCb(w, nf) =>
      case Yield(w, to) => YieldMovesAlong(s, w, to);
    }
  }

  lemma YieldMovesAlong(s: World, w: Thread, to: FState)
    requires Owned(s) && Workers(s) && Can(s, Yield(w, to))
    ensures MovesAlong(s, Yielded(s, w, to))
  {
    HandedIsHeld(s, Yield(w, to));
    OneMoves(s, Yielded(s, w, to), s.workers[w].phase.f);
  }

  lemma OneMoves(s: World, s': World, f: Fiber)
    requires f in s'.fibers && s'.fibers == s.fibers[f := s'.fibers[f]]
    requires f in s.fibers ==> s'.fibers[f] == s.fibers[f] || Allowed(s.fibers[f], s'.fibers[f])
    ensures MovesAlong(s, s')
  {}

  lemma SettleMovesAlong(s: World, w: Thread)
    requires Owned(s) && Workers(s) && Can(s, Settle(w))
    ensures MovesAlong(s, Settled(s, w))
  {
    SettleTouches(s, w);
  }

  lemma StepMovesAlong(s: World, a: Step)
    requires Owned(s) && Workers(s) && Can(s, a)
    ensures MovesAlong(s, Do(s, a))
  {
    if Hands(a) {
      HandMovesAlong(s, a);
    } else if a.Settle? {
      SettleMovesAlong(s, a.w);
    } else {
      OthersMoveNone(s, a);
    }
  }

  lemma OthersMoveNone(s: World, a: Step)
    requires Can(s, a) && !Hands(a) && !a.Settle?
    ensures MovesAlong(s, Do(s, a))
  {}

  // ---------------------------------------------------------------- whole runs

  /** A run of programs that keep to the rules. */
  ghost predicate PoliteRun(ws: seq<World>, steps: seq<Step>) {
    Run(ws, steps) && forall i {:trigger steps[i]} :: 0 <= i < |steps| ==> Polite(ws[i], steps[i])
  }

  lemma {:induction false} RunKeeps(ws: seq<World>, steps: seq<Step>, n: nat)
    requires PoliteRun(ws, steps) && n <= |steps|
    ensures Disciplined(ws[n]) && Listed(ws[n]) && NoneAbandoned(ws[n])
  {
    if n > 0 {
      RunKeeps(ws, steps, n - 1);
      SchedulerConserves(ws, steps, n - 1);
      StepDisciplinedIff(ws[n - 1], steps[n - 1]);
      StepAbandonsNone(ws[n - 1], steps[n - 1]);
    }
  }

  /** Over whole runs: fibers are held as they should be in every state if and only if every step is polite. */
  lemma PoliteRunIff(ws: seq<World>, steps: seq<Step>)
    requires Run(ws, steps)
    ensures PoliteRun(ws, steps) <==> forall i :: 0 <= i <= |steps| ==> Disciplined(ws[i])
  {
    if PoliteRun(ws, steps) {
      forall i | 0 <= i <= |steps| ensures Disciplined(ws[i]) {
        RunKeeps(ws, steps, i);
      }
    }
    if forall i :: 0 <= i <= |steps| ==> Disciplined(ws[i]) {
      forall i | 0 <= i < |steps| ensures Polite(ws[i], steps[i]) {
        RunListed(ws, steps, i);
        SchedulerConserves(ws, steps, i);
        assert Disciplined(ws[i + 1]);
        StepDisciplinedIff(ws[i], steps[i]);
      }
    }
  }

  lemma {:induction false} RunListed(ws: seq<World>, steps: seq<Step>, n: nat)
    requires Run(ws, steps) && n <= |steps|
    ensures Listed(ws[n])
  {
    if n > 0 {
      RunListed(ws, steps, n - 1);
      StepListed(ws[n - 1], steps[n - 1]);
    }
  }

  /** No fiber runs on two workers, and a fiber that a worker holds but does not run is not in the queue. */
  ghost predicate RunsOnce(s: World) {
    && (forall v, w, f :: Runs(s, v, f) && Runs(s, w, f) ==> v == w)
    && (forall w, f, i :: w in s.workers && Uses(s.workers[w], f) && 0 <= i < |s.queue| && s.queue[i].work == FiberW(f) ==>
          Runs(s, w, f) && StateOf(s.fibers, f).EXEC?)
  }

  /** At the loop head, and while it is empty-handed, a worker's callback fiber is null or INIT. */
  ghost predicate CbFiberFresh(s: World) {
    forall w :: w in s.workers && PhaseFiber(s.workers[w].phase).None? && s.workers[w].cbFiber.Some? ==>
      var f := s.workers[w].cbFiber.value; f in s.fibers && s.fibers[f].INIT?
  }

  lemma InvRunsOnce(s: World)
    requires Disciplined(s)
    ensures RunsOnce(s)
  {
    forall v, w, f | Runs(s, v, f) && Runs(s, w, f) ensures v == w {
      assert WorkerOk(s, v) && WorkerOk(s, w);
      assert Uses(s.workers[v], f) && Uses(s.workers[w], f);
    }
    forall w, f, i | w in s.workers && Uses(s.workers[w], f) && 0 <= i < |s.queue| && s.queue[i].work == FiberW(f)
      ensures Runs(s, w, f) && StateOf(s.fibers, f).EXEC?
    {
      assert WorkerOk(s, w) && EntryOk(s, s.queue[i]);
      assert FiberOk(s, f);
    }
  }

  lemma InvCbFiberFresh(s: World)
    requires Disciplined(s)
    ensures CbFiberFresh(s)
  {
    forall w | w in s.workers && PhaseFiber(s.workers[w].phase).None? && s.workers[w].cbFiber.Some?
      ensures s.workers[w].cbFiber.value in s.fibers && s.fibers[s.workers[w].cbFiber.value].INIT?
    {
      var f := s.workers[w].cbFiber.value;
      assert WorkerOk(s, w);
      assert Uses(s.workers[w], f);
      assert FiberOk(s, f);
    }
  }

  lemma {:induction false} RunReady(ws: seq<World>, steps: seq<Step>, n: nat)
    requires Run(ws, steps) && n <= |steps|
    ensures ReadyOk(ws[n])
  {
    if n > 0 {
      RunReady(ws, steps, n - 1);
      StepReady(ws[n - 1], steps[n - 1]);
    }
  }

  /** No READY fiber is lost or doubled: in every state a polite run reaches it has exactly one entry in the
      queue, or exactly one worker is back from it or about to run it. */
  lemma ReadyIsKept(ws: seq<World>, steps: seq<Step>, n: nat, f: Fiber)
    requires PoliteRun(ws, steps) && n <= |steps| && f in ws[n].fibers && ws[n].fibers[f].READY?
    ensures QueuedOrInHand(ws[n], f)
  {
    var s := ws[n];
    RunKeeps(ws, steps, n);
    RunReady(ws, steps, n);
    SchedulerConserves(ws, steps, n);
    ReadyIsSomewhere(s, f);
    EntriesOnce(s, f);
    if f in s.queued {
      var i :| 0 <= i < |s.queue| && s.queue[i].work == FiberW(f) && s.queue[i].ticket == s.queued[f];
    }
  }

  /** A worker that found nothing to take, or has left, has no READY fiber it put back still in the queue. */
  lemma NothingPutBackIsAbandoned(ws: seq<World>, steps: seq<Step>, n: nat)
    requires PoliteRun(ws, steps) && n <= |steps|
    ensures NoneAbandoned(ws[n])
  {
    RunKeeps(ws, steps, n);
  }

  /** In every state a polite run reaches, no fiber is in two workers' hands, and every next step
      passes its assertions and moves fiber states along the allowed edges. */
  lemma FiberDiscipline(ws: seq<World>, steps: seq<Step>, n: nat)
    requires PoliteRun(ws, steps) && n <= |steps|
    ensures var t := ws[n];
            && RunsOnce(t) && CbFiberFresh(t)
            && forall a :: Can(t, a) ==> AssertionsHold(t, a) && MovesAlong(t, Do(t, a))
  {
    var t := ws[n];
    RunKeeps(ws, steps, n);
    InvRunsOnce(t);
    InvCbFiberFresh(t);
    forall a | Can(t, a) ensures AssertionsHold(t, a) && MovesAlong(t, Do(t, a)) {
      StepAsserts(t, a);
      StepMovesAlong(t, a);
    }
  }

  /** A fiber that has ended stays so, in a polite run, but for a callback fiber that its own worker resets. */
  lemma EndedStays(ws: seq<World>, steps: seq<Step>, n: nat, f: Fiber)
    requires PoliteRun(ws, steps) && n < |steps| && f in ws[n].fibers && Ended(ws[n].fibers[f])
    ensures f in ws[n + 1].fibers
    ensures ws[n + 1].fibers[f] == ws[n].fibers[f] ||
              (steps[n].Settle? && ws[n].workers[steps[n].w].phase == After(f, true) && ws[n + 1].fibers[f].INIT?)
  {
    RunKeeps(ws, steps, n);
    StepMovesAlong(ws[n], steps[n]);
    if ws[n + 1].fibers[f] != ws[n].fibers[f] {
      OnlyResets(ws[n], steps[n], f);
    }
  }

  lemma OnlyResets(s: World, a: Step, f: Fiber)
    requires Can(s, a) && f in s.fibers && !s.fibers[f].INIT? && f in Do(s, a).fibers && Do(s, a).fibers[f].INIT?
    ensures a.Settle? && s.workers[a.w].phase == After(f, true)
  {
    if !a.Settle? {
      OthersNeverReset(s, a, f);
    }
  }

  lemma OthersNeverReset(s: World, a: Step, f: Fiber)
    requires Can(s, a) && !a.Settle? && f in s.fibers && f in Do(s, a).fibers
    ensures Do(s, a).fibers[f].INIT? ==> s.fibers[f].INIT?
  {}

  // ---------------------------------------------------------------- why programs have to be polite

  lemma Extend(ws: seq<World>, steps: seq<Step>, a: Step) returns (ws': seq<World>, steps': seq<Step>)
    requires Run(ws, steps) && Can(ws[|steps|], a)
    ensures Run(ws', steps') && ws' == ws + [Do(ws[|steps|], a)] && steps' == steps + [a]
  {
    ws', steps' := ws + [Do(ws[|steps|], a)], steps + [a];
    forall i | 0 <= i < |steps'| ensures Can(ws'[i], steps'[i]) && ws'[i + 1] == Do(ws'[i], steps'[i]) {
      if i < |steps| {
        assert steps'[i] == steps[i] && ws'[i] == ws[i] && ws'[i + 1] == ws[i + 1];
      }
    }
  }

  lemma ScanTakesFirst(s: World, w: Thread)
    requires Can(s, Scan(w)) && |s.queue| > 0 && Takeable(s.queue[0], w, s.fibers)
    ensures Do(s, Scan(w)) == Take(s, w, 0)
  {}

  /** A fiber with two entries at the front of the queue, and two workers at their loop heads. */
  ghost predicate QueuedTwice(s: World, f: Fiber, v: Thread, w: Thread) {
    && IsPhase(s, v, Head) && IsPhase(s, w, Head) && v != w
    && f in s.fibers && s.fibers[f].INIT?
    && |s.queue| == 2 && (forall i :: 0 <= i < 2 ==> s.queue[i].work == FiberW(f) && s.queue[i].thread == ANY)
  }

  /** Both workers hold an entry of the fiber. */
  ghost predicate BothHold(t: World, f: Fiber, v: Thread, w: Thread) {
    && v in t.workers && w in t.workers && v != w && f in t.fibers && t.fibers[f].INIT?
    && t.workers[v].phase.Holding? && t.workers[w].phase.Holding?
    && t.workers[v].phase.e.work == FiberW(f) && t.workers[w].phase.e.work == FiberW(f)
  }

  lemma BothTakeIt(s: World, f: Fiber, v: Thread, w: Thread)
    requires QueuedTwice(s, f, v, w)
    ensures Can(s, Scan(v)) && Can(Do(s, Scan(v)), Scan(w)) && BothHold(Do(Do(s, Scan(v)), Scan(w)), f, v, w)
  {
    ScanTakesFirst(s, v);
    ScanTakesFirst(Take(s, v, 0), w);
  }

  lemma BothRunIt(t: World, f: Fiber, v: Thread, w: Thread)
    requires BothHold(t, f, v, w)
    ensures Can(t, SwapIn(v)) && Can(Do(t, SwapIn(v)), SwapIn(w))
    ensures var u := Do(Do(t, SwapIn(v)), SwapIn(w)); Runs(u, v, f) && Runs(u, w, f)
  {}

  lemma TakenByBoth(s: World, f: Fiber, v: Thread, w: Thread) returns (ws: seq<World>, steps: seq<Step>)
    requires Start(s) && v in s.workers && w in s.workers && v != w
    ensures steps == [Spawn(f), Schedule(FiberW(f), ANY), Schedule(FiberW(f), ANY), Scan(v), Scan(w)]
    ensures Run(ws, steps) && ws[0] == s && BothHold(ws[5], f, v, w)
  {
    ws, steps := ScheduledTwice(s, f, v, w);
    BothTakeIt(ws[3], f, v, w);
    ws, steps := ExtendTwice(ws, steps, Scan(v), Scan(w));
  }

  /** A fiber that is scheduled twice is run by two workers at once. */
  lemma ScheduledTwiceRunsTwice(s: World, f: Fiber, v: Thread, w: Thread) returns (ws: seq<World>, steps: seq<Step>)
    requires Start(s) && v in s.workers && w in s.workers && v != w
    ensures steps == [Spawn(f), Schedule(FiberW(f), ANY), Schedule(FiberW(f), ANY), Scan(v), Scan(w), SwapIn(v), SwapIn(w)]
    ensures Run(ws, steps) && ws[0] == s && Runs(ws[7], v, f) && Runs(ws[7], w, f)
  {
    ws, steps := TakenByBoth(s, f, v, w);
    BothRunIt(ws[5], f, v, w);
    ws, steps := ExtendTwice(ws, steps, SwapIn(v), SwapIn(w));
  }

  lemma ExtendTwice(ws: seq<World>, steps: seq<Step>, a: Step, b: Step) returns (ws': seq<World>, steps': seq<Step>)
    requires Run(ws, steps) && Can(ws[|steps|], a) && Can(Do(ws[|steps|], a), b)
    ensures Run(ws', steps') && steps' == steps + [a, b] && ws'[0] == ws[0]
    ensures ws'[|steps'|] == Do(Do(ws[|steps|], a), b)
  {
    ws', steps' := Extend(ws, steps, a);
    ws', steps' := Extend(ws', steps', b);
  }

  lemma ScheduledTwice(s: World, f: Fiber, v: Thread, w: Thread) returns (ws: seq<World>, steps: seq<Step>)
    requires Start(s) && v in s.workers && w in s.workers && v != w
    ensures steps == [Spawn(f), Schedule(FiberW(f), ANY), Schedule(FiberW(f), ANY)]
    ensures Run(ws, steps) && ws[0] == s && QueuedTwice(ws[3], f, v, w)
  {
    ws, steps := [s], [];
    ws, steps := Extend(ws, steps, Spawn(f));
    ws, steps := Extend(ws, steps, Schedule(FiberW(f), ANY));
    ws, steps := Extend(ws, steps, Schedule(FiberW(f), ANY));
  }
}
