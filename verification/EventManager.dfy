/**
  The mutable side of chat/iomanager.cc: descriptor contexts updated in place behind a growable table.
  There is one method for each locked region, proved against module `Events`, and one for each call made
  of them.
 */
module EventManager {
  import opened Options
  import opened Events

  class FdContext {
    var rd: bool
    var wr: bool
    var read: Ctx
    var write: Ctx

    constructor ()
      ensures View() == FRESH
    {
      rd, wr, read, write := false, false, EMPTY, EMPTY;
    }

    ghost function View(): (d: Fd)
      reads this
    {
      Fd(rd, wr, read, write)
    }

    /** Set one event's bit and context. */
    method Set(e: Event, bit: bool, c: Ctx)
      modifies this
      ensures View() == With(old(View()), e, bit, c)
    {
      if e.Read? {
        rd, read := bit, c;
      } else {
        wr, write := bit, c;
      }
    }

    method Get(e: Event) returns (bit: bool, c: Ctx)
      ensures bit == Has(View(), e) && c == CtxOf(View(), e)
    {
      if e.Read? {
        bit, c := rd, read;
      } else {
        bit, c := wr, write;
      }
    }

    /** `triggerEvent`: what it appends to the run queue. */
    method TriggerEvent(e: Event) returns (out: seq<Task>)
      modifies this
      ensures forall q :: Trigger(old(View()), q, e) == (View(), q + out)
    {
      out := [];
      var bit, c := Get(e);
      if !bit {
        assert forall q: seq<Task> :: q + out == q;
        return;
      }
      if c.cb.Some? {
        out := [CbTask(c.cb.value)];
        c := c.(cb := None);
      } else {
        if c.fiber.Some? {
          out := [FiberTask(c.fiber.value)];
        }
        c := c.(fiber := None);
      }
      c := c.(scheduler := false);
      Set(e, false, c);
    }
  }

  class IOManager {
    var contexts: seq<FdContext>
    var pending: nat
    var queue: seq<Task>
    ghost var all: seq<FdContext>
    ghost var ids: seq<nat>
    ghost var registered: nat
    ghost var deleted: nat
    ghost var missed: nat

    /** `all` are the contexts ever created; slot `i` of the table holds number `ids[i]` of them. */
    ghost predicate Linked()
      reads this
    {
      && (forall i, j :: 0 <= i < j < |all| ==> all[i] != all[j])
      && |ids| == |contexts|
      && (forall i :: 0 <= i < |ids| ==> ids[i] < |all| && contexts[i] == all[ids[i]])
    }

    ghost function Ctxs(): (s: seq<Fd>)
      reads this, all
      ensures |s| == |all| && forall i :: 0 <= i < |s| ==> s[i] == all[i].View()
    {
      seq(|all|, i requires 0 <= i < |all| reads this, all => all[i].View())
    }

    ghost function View(): (io: IO)
      reads this, all
    {
      IO(Ctxs(), ids, pending, queue, registered, deleted, missed)
    }

    ghost predicate Valid()
      reads this, all
    {
      Linked() && Inv(View())
    }

    /** `c` is context number `k`. */
    ghost predicate IsContext(c: FdContext, k: nat)
      reads this
    {
      k < |all| && c == all[k]
    }

    /** Writing one context is updating one entry. */
    twostate lemma OneContext(k: nat)
      requires all == old(all) && k < |all| && Linked()
      requires forall i :: 0 <= i < |all| && i != k ==> all[i].View() == old(all[i].View())
      ensures Ctxs() == old(Ctxs())[k := all[k].View()]
    {}

    // -------------------------------------------------------------- under the table's lock

    /** The look-up that every call begins with. */
    method FindContext(fd: nat) returns (c: FdContext?, ghost k: nat)
      requires Linked()
      ensures c == null <==> |ids| <= fd
      ensures c != null ==> k == ids[fd] && IsContext(c, k)
    {
      if |contexts| <= fd {
        return null, 0;
      }
      c, k := contexts[fd], ids[fd];
    }

    /** `contextResize`: `vector::resize` either way, then a new context in every empty slot. */
    method ContextResize(size: nat)
      requires Linked()
      modifies this`contexts, this`all, this`ids
      ensures Linked() && View() == Resize(old(View()), size)
      ensures old(all) <= all && forall i :: |old(all)| <= i < |all| ==> fresh(all[i])
    {
      if size < |contexts| {
        CutTable(size);
      } else {
        ExtendTable(size);
      }
    }

    method CutTable(size: nat)
      requires Linked() && size <= |contexts|
      modifies this`contexts, this`ids
      ensures Linked() && View() == old(View()).(table := old(ids)[..size])
    {
      contexts, ids := contexts[..size], ids[..size];
      assert Ctxs() == old(Ctxs());
    }

    method ExtendTable(size: nat)
      requires Linked() && |contexts| <= size
      modifies this`contexts, this`all, this`ids
      ensures Linked() && ids == old(ids) + NewIds(|old(all)|, size - |old(ids)|)
      ensures Ctxs() == old(Ctxs()) + Empties(size - |old(ids)|)
      ensures old(all) <= all && forall i :: |old(all)| <= i < |all| ==> fresh(all[i])
    {
      ghost var n := 0;
      while |contexts| < size
        invariant |contexts| == |old(contexts)| + n <= size && Linked()
        invariant ids == old(ids) + NewIds(|old(all)|, n)
        invariant old(all) <= all && |all| == |old(all)| + n
        invariant forall i :: |old(all)| <= i < |all| ==> fresh(all[i])
        invariant Ctxs() == old(Ctxs()) + Empties(n)
        decreases size - |contexts|
      {
        AddSlot();
        n := n + 1;
      }
    }

    /** A new context in a new slot. */
    method AddSlot()
      requires Linked()
      modifies this`contexts, this`all, this`ids
      ensures Linked() && |contexts| == |old(contexts)| + 1
      ensures |all| == |old(all)| + 1 && all == old(all) + [all[|all| - 1]] && fresh(all[|all| - 1])
      ensures ids == old(ids) + [|old(all)|] && Ctxs() == old(Ctxs()) + [FRESH]
    {
      var c := new FdContext();
      contexts, all, ids := contexts + [c], all + [c], ids + [|all|];
    }

    /** The second region of `addEvent`: resize for `fd` and fetch its context. */
    method GrowAndFetch(fd: nat) returns (c: FdContext, ghost k: nat)
      requires Linked() && 2 <= fd
      modifies this`contexts, this`all, this`ids
      ensures Linked() && View() == Resize(old(View()), fd * 3 / 2)
      ensures old(all) <= all && forall i :: |old(all)| <= i < |all| ==> fresh(all[i])
      ensures fd < |ids| && k == ids[fd] && IsContext(c, k)
    {
      ContextResize(fd * 3 / 2);
      c, k := contexts[fd], ids[fd];
    }

    // -------------------------------------------------------------- under a context's lock

    /** The last region of `addEvent`. */
    method ArmContext(c: FdContext, ghost k: nat, e: Event, t: Task, epoll: bool) returns (r: Added)
      requires Linked() && IsContext(c, k)
      modifies this`pending, this`registered, c
      ensures Linked() && (View(), r) == Arm(old(View()), k, e, t, epoll)
    {
      var bit, slot := c.Get(e);
      if bit {
        return AlreadyRegistered;
      }
      if !epoll {
        return EpollFailed;
      }
      pending := (pending + 1) % WRAP;
      registered := registered + 1;
      c.Set(e, true, Filled(t));
      OneContext(k);
      r := Ok;
    }

    /** The last region of `delEvent`. */
    method DeleteContext(c: FdContext, ghost k: nat, e: Event, epoll: bool) returns (ok: bool)
      requires Linked() && IsContext(c, k)
      modifies this`pending, this`deleted, c
      ensures Linked() && (View(), ok) == Delete(old(View()), k, e, epoll)
    {
      var bit, slot := c.Get(e);
      if !bit || !epoll {
        return false;
      }
      pending := Dec(pending);
      deleted := deleted + 1;
      c.Set(e, false, EMPTY);
      OneContext(k);
      ok := true;
    }

    /** `triggerEvent(e); --m_pendingEventCount`. */
    method TriggerCounted(c: FdContext, ghost k: nat, e: Event)
      requires Linked() && IsContext(c, k)
      modifies this`pending, this`queue, this`missed, c
      ensures Linked() && View() == TriggerAndCount(old(View()), k, e)
    {
      ghost var was := Has(c.View(), e);
      var out := c.TriggerEvent(e);
      assert Trigger(old(c.View()), queue, e) == (c.View(), queue + out);
      queue := queue + out;
      pending := Dec(pending);
      missed := if was then missed else missed + 1;
      OneContext(k);
    }

    /** The last region of `cancelEvent`. */
    method CancelContext(c: FdContext, ghost k: nat, e: Event, epoll: bool) returns (ok: bool)
      requires Linked() && IsContext(c, k)
      modifies this`pending, this`queue, this`missed, c
      ensures Linked() && (View(), ok) == Cancel(old(View()), k, e, epoll)
    {
      var bit, slot := c.Get(e);
      if !bit || !epoll {
        return false;
      }
      TriggerCounted(c, k, e);
      ok := true;
    }

    /** The last region of `cancelAll`. */
    method CancelBothContext(c: FdContext, ghost k: nat, epoll: bool) returns (ok: bool)
      requires Linked() && IsContext(c, k)
      modifies this`pending, this`queue, this`missed, c
      ensures Linked() && (View(), ok) == CancelBoth(old(View()), k, epoll)
    {
      if !(c.rd || c.wr) || !epoll {
        return false;
      }
      if c.rd {
        TriggerCounted(c, k, Read);
      }
      if c.wr {
        TriggerCounted(c, k, Write);
      }
      ok := true;
    }

    /** The loop body of `idle` for the context an epoll event points to. */
    method HandleReport(c: FdContext, ghost k: nat, inn: bool, out: bool, err: bool, epoll: bool)
      requires Linked() && IsContext(c, k)
      modifies this`pending, this`queue, this`missed, c
      ensures Linked() && View() == Report(old(View()), k, inn, out, err, epoll)
    {
      var realRead, realWrite := inn, out;
      if err {
        realRead, realWrite := realRead || c.rd, realWrite || c.wr;
      }
      if !(c.rd && realRead) && !(c.wr && realWrite) {
        return;
      }
      if !epoll {
        return;
      }
      if realRead {
        TriggerCounted(c, k, Read);
      }
      if realWrite {
        TriggerCounted(c, k, Write);
      }
    }

    // -------------------------------------------------------------- whole calls

    /** `addEvent`, when no other thread comes in between its regions. */
    method AddEvent(fd: nat, e: Event, t: Task, epoll: bool) returns (r: Added)
      requires Valid() && fd < MAX_FD
      modifies this, all
      ensures Valid()
      ensures (View(), r) == AddAlone(old(View()), fd, e, t, epoll)
    {
      AddAloneKeeps(View(), fd, e, t, epoll);
      var c, k := FindContext(fd);
      if c == null {
        c, k := GrowAndFetch(fd);
      }
      r := ArmContext(c, k, e, t, epoll);
    }

    /** `delEvent`, in the same sense. */
    method DelEvent(fd: nat, e: Event, epoll: bool) returns (ok: bool)
      requires Valid()
      modifies this`pending, this`deleted, all
      ensures Valid()
      ensures |ids| <= fd ==> !ok && View() == old(View())
      ensures fd < |ids| ==> (View(), ok) == Delete(old(View()), ids[fd], e, epoll)
    {
      var c, k := FindContext(fd);
      if c == null {
        return false;
      }
      DeleteKeeps(View(), k, e, epoll);
      ok := DeleteContext(c, k, e, epoll);
    }

    method CancelEvent(fd: nat, e: Event, epoll: bool) returns (ok: bool)
      requires Valid()
      modifies this`pending, this`queue, this`missed, all
      ensures Valid()
      ensures |ids| <= fd ==> !ok && View() == old(View())
      ensures fd < |ids| ==> (View(), ok) == Cancel(old(View()), ids[fd], e, epoll)
    {
      var c, k := FindContext(fd);
      if c == null {
        return false;
      }
      CancelKeeps(View(), k, e, epoll);
      ok := CancelContext(c, k, e, epoll);
    }

    method CancelAll(fd: nat, epoll: bool) returns (ok: bool)
      requires Valid()
      modifies this`pending, this`queue, this`missed, all
      ensures Valid()
      ensures |ids| <= fd ==> !ok && View() == old(View())
      ensures fd < |ids| ==> (View(), ok) == CancelBoth(old(View()), ids[fd], epoll)
    {
      var c, k := FindContext(fd);
      if c == null {
        return false;
      }
      CancelBothKeeps(View(), k, epoll);
      ok := CancelBothContext(c, k, epoll);
    }
  }
}
