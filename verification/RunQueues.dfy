/** The run queue in place: `scheduleNoLock`, both `schedule`s and the scan of `run` (chat/scheduler.h,
    chat/scheduler.cc). */
module RunQueues {
  import opened Options
  import opened Scheduler

  /** The non-null works of the slots, in order, as entries numbered from `next`. */
  ghost function Entered(slots: seq<Option<Work>>, next: nat, thread: Thread): seq<Entry> {
    if slots == [] then []
    else
      var front := Entered(slots[..|slots| - 1], next, thread);
      var w := slots[|slots| - 1];
      if w.Some? then front + [Entry(next + |front|, w.value, thread, None)] else front
  }

  class RunQueue {
    var queue: seq<Entry>
    var next: nat
    var active: nat

    constructor ()
      ensures queue == [] && next == 0 && active == 0
    {
      queue, next, active := [], 0, 0;
    }

    /** A null work is dropped, but the answer depends only on the queue before. */
    method ScheduleNoLock(work: Option<Work>, thread: Thread) returns (needTickle: bool)
      modifies this
      ensures needTickle <==> old(queue) == []
      ensures queue == old(queue) + (if work.Some? then [Entry(old(next), work.value, thread, None)] else [])
      ensures next == old(next) + (if work.Some? then 1 else 0) && active == old(active)
    {
      needTickle := queue == [];
      if work.Some? {
        queue := queue + [Entry(next, work.value, thread, None)];
        next := next + 1;
      }
    }

    /** Each slot is swapped out into the queue, in order. A tickle is due exactly when the queue was
        empty and there was a slot at all. */
    method ScheduleRange(slots: array<Option<Work>>) returns (needTickle: bool)
      modifies this, slots
      ensures queue == old(queue) + Entered(old(slots[..]), old(next), ANY)
      ensures next == old(next) + |Entered(old(slots[..]), old(next), ANY)| && active == old(active)
      ensures forall i :: 0 <= i < slots.Length ==> slots[i].None?
      ensures needTickle <==> old(queue) == [] && slots.Length > 0
    {
      needTickle := false;
      ghost var all := slots[..];
      var i := 0;
      while i < slots.Length
        invariant 0 <= i <= slots.Length
        invariant forall j :: 0 <= j < i ==> slots[j].None?
        invariant forall j :: i <= j < slots.Length ==> slots[j] == all[j]
        invariant queue == old(queue) + Entered(all[..i], old(next), ANY)
        invariant next == old(next) + |Entered(all[..i], old(next), ANY)| && active == old(active)
        invariant needTickle <==> old(queue) == [] && i > 0
      {
        assert all[..i + 1][..i] == all[..i];
        var work := slots[i];
        slots[i] := None;
        var empty := ScheduleNoLock(work, ANY);
        needTickle := empty || needTickle;
        i := i + 1;
      }
      assert all[..i] == all;
    }

    /** The locked scan of `run` by thread `w`: takes the oldest takeable entry; tickles exactly when
        entries remain. */
    method TakeTask(w: Thread, fibers: map<Fiber, FState>) returns (taken: Option<Entry>, tickleMe: bool)
      modifies this
      ensures var k := First(old(queue), w, fibers);
              if k == |old(queue)| then taken.None? && queue == old(queue) && active == old(active)
              else taken == Some(old(queue)[k]) && queue == RemoveAt(old(queue), k) && active == old(active) + 1
      ensures tickleMe <==> queue != []
      ensures next == old(next)
    {
      taken, tickleMe := None, false;
      var i := 0;
      while i < |queue|
        invariant 0 <= i <= |queue| && queue == old(queue) && next == old(next) && active == old(active)
        invariant taken.None? && FirstFrom(queue, 0, w, fibers) == FirstFrom(queue, i, w, fibers)
        invariant tickleMe ==> i > 0
      {
        var e := queue[i];
        if e.thread != ANY && e.thread != w {
          i, tickleMe := i + 1, true;
        } else if e.work.FiberW? && StateOf(fibers, e.work.fiber).EXEC? {
          i := i + 1;
        } else {
          taken := Some(e);
          queue := RemoveAt(queue, i);
          active := active + 1;
          break;
        }
      }
      tickleMe := tickleMe || queue != [];
    }
  }
}
