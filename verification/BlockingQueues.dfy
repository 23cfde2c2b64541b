/**
  `BlockingQueue` (chat/blocking_queue.h) over its semaphore, for any number of producers and consumers
  and without `notifyAll`. `push` is two locked regions, the list's and the semaphore's; so is `pop`.
 */
module BlockingQueues {
  import opened Semaphores
  import opened FiberSemaphores

  class BlockingQueue<T> {
    const sem: FiberSemaphore
    var datas: seq<T>

    constructor ()
      ensures fresh(sem) && datas == [] && sem.View() == Sem(0, [])
    {
      sem := new FiberSemaphore(0);
      datas := [];
    }

    method Push(data: T) returns (size: nat)
      modifies this, sem
      ensures datas == old(datas) + [data] && size == |datas|
      ensures sem.View() == Notify(old(sem.View())).0
    {
      datas := datas + [data];
      size := |datas|;
      sem.Notify();
    }

    /** The locked region of `pop` after its `wait`. */
    method PopFront() returns (v: T)
      requires datas != []
      modifies this
      ensures old(datas) == [v] + datas
    {
      v := datas[0];
      datas := datas[1..];
    }
  }

  // ---------------------------------------------------------------- the machine

  type Consumer = nat

  /** `unnotified`: pushes that have not notified yet; `ready`: consumers past `wait` that have not popped;
      `pushed` and `popped` are the histories;
      `undefined` records a `front` of an empty list. */
  datatype World<!T> = World(hist: Hist<Consumer>, data: seq<T>, unnotified: nat, ready: set<Consumer>,
                             pushed: seq<T>, popped: seq<T>, undefined: bool)

  datatype Op<T> = PushData(v: T) | PushNotify | PopWait(c: Consumer) | PopTake(c: Consumer)

  predicate Can<T>(w: World<T>, op: Op<T>) {
    match op
    case PushData(_) => true
    case PushNotify => w.unnotified > 0
    case PopWait(c) => c !in w.ready && c !in w.hist.sem.waiters
    case PopTake(c) => c in w.ready
  }

  function Do<T>(w: World<T>, op: Op<T>): World<T>
    requires Can(w, op)
  {
    match op
    case PushData(v) => w.(data := w.data + [v], unnotified := w.unnotified + 1, pushed := w.pushed + [v])
    case PushNotify =>
      var woken := Notify(w.hist.sem).1;
      w.(hist := Step(w.hist, NotifyOp), unnotified := w.unnotified - 1,
         ready := if woken.Some? then w.ready + {woken.value} else w.ready)
    case PopWait(c) =>
      var ok := Wait(w.hist.sem, c).1;
      w.(hist := Step(w.hist, WaitOp(c)), ready := if ok then w.ready + {c} else w.ready)
    case PopTake(c) =>
      if w.data == [] then w.(undefined := true)
      else w.(data := w.data[1..], ready := w.ready - {c}, popped := w.popped + [w.data[0]])
  }

  /** The list holds one entry for each banked permit, each ready consumer and each push not yet
      notified. */
  ghost predicate Conserved<T>(w: World<T>) {
    |w.data| == w.hist.sem.free + |w.ready| + w.unnotified
  }

  ghost predicate Line<T>(w: World<T>) {
    && (forall i, j :: 0 <= i < j < |w.hist.sem.waiters| ==> w.hist.sem.waiters[i] != w.hist.sem.waiters[j])
    && (forall i :: 0 <= i < |w.hist.sem.waiters| ==> w.hist.sem.waiters[i] !in w.ready)
  }

  ghost predicate Inv<T>(w: World<T>) {
    Fair(w.hist) && Conserved(w) && Line(w) && w.pushed == w.popped + w.data && !w.undefined
  }

  /** A consumer past `wait` finds something to pop. */
  lemma FrontIsSafe<T>(w: World<T>, c: Consumer)
    requires Inv(w) && c in w.ready
    ensures w.data != []
  {
    assert |w.ready| > 0;
  }

  lemma NotifyKeeps<T>(w: World<T>)
    requires Inv(w) && Can(w, PushNotify)
    ensures Inv(Do(w, PushNotify))
  {
    StepFair(w.hist, NotifyOp);
    var waiters := w.hist.sem.waiters;
    assert waiters != [] ==> waiters == [waiters[0]] + waiters[1..];
  }

  lemma WaitKeeps<T>(w: World<T>, c: Consumer)
    requires Inv(w) && Can(w, PopWait(c))
    ensures Inv(Do(w, PopWait(c)))
  {
    StepFair(w.hist, WaitOp(c));
  }

  lemma TakeKeeps<T>(w: World<T>, c: Consumer)
    requires Inv(w) && Can(w, PopTake(c))
    ensures Inv(Do(w, PopTake(c)))
  {
    FrontIsSafe(w, c);
    assert w.data == [w.data[0]] + w.data[1..];
  }

  lemma StepKeeps<T>(w: World<T>, op: Op<T>)
    requires Inv(w) && Can(w, op)
    ensures Inv(Do(w, op))
  {
    match op
    case PushData(v) => assert w.popped + w.data + [v] == w.popped + (w.data + [v]);
    case PushNotify => NotifyKeeps(w);
    case PopWait(c) => WaitKeeps(w, c);
    case PopTake(c) => TakeKeeps(w, c);
  }

  function Begin<T>(): World<T> {
    World(New(0), [], 0, {}, [], [], false)
  }

  ghost predicate Runs<T>(w: World<T>, ops: seq<Op<T>>)
    decreases |ops|
  {
    ops == [] || (Can(w, ops[0]) && Runs(Do(w, ops[0]), ops[1..]))
  }

  ghost function End<T>(w: World<T>, ops: seq<Op<T>>): World<T>
    requires Runs(w, ops)
    decreases |ops|
  {
    if ops == [] then w else End(Do(w, ops[0]), ops[1..])
  }

  lemma {:induction false} RunKeeps<T>(w: World<T>, ops: seq<Op<T>>)
    requires Inv(w) && Runs(w, ops)
    ensures Inv(End(w, ops))
    decreases |ops|
  {
    if ops != [] {
      StepKeeps(w, ops[0]);
      RunKeeps(Do(w, ops[0]), ops[1..]);
    }
  }

  /** For any producers and consumers: `front` is never taken of an empty list, the values popped so far
      are the first values pushed, in order, and while a consumer is parked every value in the list is
      already promised to a ready consumer or about to be announced. */
  lemma PopsInOrder<T>(ops: seq<Op<T>>)
    requires Runs(Begin<T>(), ops)
    ensures var w := End(Begin<T>(), ops);
            && !w.undefined && Conserved(w)
            && |w.popped| <= |w.pushed| && w.popped == w.pushed[..|w.popped|]
            && (w.hist.sem.waiters != [] ==> |w.data| == |w.ready| + w.unnotified)
  {
    RunKeeps(Begin<T>(), ops);
  }
}
