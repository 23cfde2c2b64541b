/**
  The event registrations of `IOManager` (chat/iomanager.cc): contexts with their event bits, the table
  that leads from a descriptor to its context, the pending count and what was handed to the scheduler.

  A context has an identity. `contextResize` may drop it from the table, but nothing frees it: a thread
  that fetched it and epoll, whose `data.ptr` names it, still reach it.
 */
module Events {
  import opened Options

  datatype Event = Read | Write

  /** What runs when an event fires: a callback, or the fiber that waits. */
  datatype Task = FiberTask(fiber: nat) | CbTask(cb: nat)

  /** `EventContext`: is a scheduler set, and the fiber and callback slots. */
  datatype Ctx = Ctx(scheduler: bool, fiber: Option<nat>, cb: Option<nat>)

  const EMPTY := Ctx(false, None, None)

  /** `FdContext`: the registered-event bits and one context per event. */
  datatype Fd = Fd(rd: bool, wr: bool, read: Ctx, write: Ctx)

  const FRESH := Fd(false, false, EMPTY, EMPTY)
  const WRAP := 0x1_0000_0000_0000_0000
  const MAX_FD := 0x8000_0000

  /** `ctxs` are all contexts ever created, oldest first, and `table` is `m_fdcontexts`, by their index.
      `pending` is the 64-bit counter; `queue` the tasks scheduled so far, oldest first. The last three
      count successful registrations, deletions, and decrements for a trigger that was refused. */
  datatype IO = IO(ctxs: seq<Fd>, table: seq<nat>, pending: nat, queue: seq<Task>, registered: nat, deleted: nat, missed: nat)

  // ---------------------------------------------------------------- one context

  predicate Has(d: Fd, e: Event) {
    if e.Read? then d.rd else d.wr
  }

  function CtxOf(d: Fd, e: Event): Ctx {
    if e.Read? then d.read else d.write
  }

  function With(d: Fd, e: Event, bit: bool, c: Ctx): Fd {
    if e.Read? then d.(rd := bit, read := c) else d.(wr := bit, write := c)
  }

  function Filled(t: Task): Ctx {
    match t
    case FiberTask(f) => Ctx(true, Some(f), None)
    case CbTask(c) => Ctx(true, None, Some(c))
  }

  /** `triggerEvent` on an armed event: the callback if there is one, else the fiber, is moved out of
      its slot into the run queue. */
  function Fired(c: Ctx): seq<Task> {
    if c.cb.Some? then [CbTask(c.cb.value)]
    else if c.fiber.Some? then [FiberTask(c.fiber.value)]
    else []
  }

  function AfterTrigger(c: Ctx): Ctx {
    if c.cb.Some? then c.(scheduler := false, cb := None) else c.(scheduler := false, fiber := None)
  }

  /** `triggerEvent`, which refuses an event that is not registered. */
  function Trigger(d: Fd, q: seq<Task>, e: Event): (Fd, seq<Task>) {
    if !Has(d, e) then (d, q)
    else (With(d, e, false, AfterTrigger(CtxOf(d, e))), q + Fired(CtxOf(d, e)))
  }

  function Dec(n: nat): nat {
    (n - 1) % WRAP
  }

  // ---------------------------------------------------------------- operations, by context

  function Empties(n: nat): (s: seq<Fd>)
    ensures |s| == n && forall i :: 0 <= i < n ==> s[i] == FRESH
  {
    if n == 0 then [] else Empties(n - 1) + [FRESH]
  }

  /** The identities of `n` contexts created after the first `from`. */
  function NewIds(from: nat, n: nat): (s: seq<nat>)
    ensures |s| == n && forall i :: 0 <= i < n ==> s[i] == from + i
  {
    if n == 0 then [] else NewIds(from, n - 1) + [from + n - 1]
  }

  /** `contextResize`: `vector::resize`, which drops contexts from the table when the new size is smaller,
      and a new context in every new slot. */
  function Resize(io: IO, size: nat): IO {
    if size <= |io.table| then io.(table := io.table[..size])
    else
      var n := size - |io.table|;
      io.(ctxs := io.ctxs + Empties(n), table := io.table + NewIds(|io.ctxs|, n))
  }

  datatype Added = Ok | EpollFailed | AlreadyRegistered

  /** The part of `addEvent` under the lock of context `c`. `epoll` is the result of `epoll_ctl`. */
  function Arm(io: IO, c: nat, e: Event, t: Task, epoll: bool): (IO, Added)
    requires c < |io.ctxs|
  {
    var d := io.ctxs[c];
    if Has(d, e) then (io, AlreadyRegistered)
    else if !epoll then (io, EpollFailed)
    else
      (io.(ctxs := io.ctxs[c := With(d, e, true, Filled(t))], pending := (io.pending + 1) % WRAP,
           registered := io.registered + 1), Ok)
  }

  /** The three regions of `addEvent` in a row: look up, resize if out of range, arm. */
  ghost function AddAlone(io: IO, fd: nat, e: Event, t: Task, epoll: bool): (IO, Added)
    requires Shape(io)
  {
    var io1 := if fd < |io.table| then io else Resize(io, fd * 3 / 2);
    Arm(io1, io1.table[fd], e, t, epoll)
  }

  /** The part of `delEvent` under the lock of the context. */
  function Delete(io: IO, c: nat, e: Event, epoll: bool): (IO, bool)
    requires c < |io.ctxs|
  {
    if !Has(io.ctxs[c], e) || !epoll then (io, false)
    else
      (io.(ctxs := io.ctxs[c := With(io.ctxs[c], e, false, EMPTY)], pending := Dec(io.pending),
           deleted := io.deleted + 1), true)
  }

  /** `triggerEvent` and the decrement that follows it at every call site. */
  function TriggerAndCount(io: IO, c: nat, e: Event): (r: IO)
    requires c < |io.ctxs|
    ensures |r.ctxs| == |io.ctxs|
  {
    var (d, q) := Trigger(io.ctxs[c], io.queue, e);
    io.(ctxs := io.ctxs[c := d], queue := q, pending := Dec(io.pending),
        missed := if Has(io.ctxs[c], e) then io.missed else io.missed + 1)
  }

  /** The part of `cancelEvent` under the lock of the context. */
  function Cancel(io: IO, c: nat, e: Event, epoll: bool): (IO, bool)
    requires c < |io.ctxs|
  {
    if !Has(io.ctxs[c], e) || !epoll then (io, false) else (TriggerAndCount(io, c, e), true)
  }

  function TriggerIf(io: IO, c: nat, e: Event, wanted: bool): (r: IO)
    requires c < |io.ctxs|
    ensures |r.ctxs| == |io.ctxs|
  {
    if wanted then TriggerAndCount(io, c, e) else io
  }

  /** The part of `cancelAll` under the lock of the context. */
  function CancelBoth(io: IO, c: nat, epoll: bool): (IO, bool)
    requires c < |io.ctxs|
  {
    if !(io.ctxs[c].rd || io.ctxs[c].wr) || !epoll then (io, false)
    else
      var io1 := TriggerIf(io, c, Read, io.ctxs[c].rd);
      (TriggerIf(io1, c, Write, io1.ctxs[c].wr), true)
  }

  /** The events `idle` acts on for one report: an error or hang-up adds what is registered. */
  function RealRead(d: Fd, inn: bool, err: bool): bool { inn || (err && d.rd) }
  function RealWrite(d: Fd, out: bool, err: bool): bool { out || (err && d.wr) }

  /** The loop body of `idle` for one context that `epoll_wait` names. */
  function Report(io: IO, c: nat, inn: bool, out: bool, err: bool, epoll: bool): IO
    requires c < |io.ctxs|
  {
    var d := io.ctxs[c];
    var r, w := RealRead(d, inn, err), RealWrite(d, out, err);
    if !(d.rd && r) && !(d.wr && w) then io
    else if !epoll then io
    else TriggerIf(TriggerIf(io, c, Read, r), c, Write, w)
  }

  // ---------------------------------------------------------------- bits

  function BitsOf(d: Fd): nat {
    Count(d.rd) + Count(d.wr)
  }

  function Bits(ctxs: seq<Fd>): nat {
    if ctxs == [] then 0 else Bits(ctxs[..|ctxs| - 1]) + BitsOf(ctxs[|ctxs| - 1])
  }

  lemma {:induction false} BitsUpdate(ctxs: seq<Fd>, i: nat, d: Fd)
    requires i < |ctxs|
    ensures Bits(ctxs[i := d]) == Bits(ctxs) - BitsOf(ctxs[i]) + BitsOf(d)
  {
    var n := |ctxs| - 1;
    if i < n {
      BitsUpdate(ctxs[..n], i, d);
      assert ctxs[i := d][..n] == ctxs[..n][i := d];
    } else {
      assert ctxs[i := d][..n] == ctxs[..n];
    }
  }

  lemma {:induction false} BitsAppend(a: seq<Fd>, b: seq<Fd>)
    ensures Bits(a + b) == Bits(a) + Bits(b)
  {
    if b == [] {
      assert a + b == a;
    } else {
      var n := |b| - 1;
      BitsAppend(a, b[..n]);
      assert (a + b)[..|a + b| - 1] == a + b[..n];
    }
  }

  lemma {:induction false} EmptiesClear(n: nat)
    ensures Bits(Empties(n)) == 0
  {
    if n > 0 {
      EmptiesClear(n - 1);
      assert Empties(n)[..n - 1] == Empties(n - 1);
    }
  }

  lemma {:induction false} AllClear(ctxs: seq<Fd>, i: nat)
    requires Bits(ctxs) == 0 && i < |ctxs|
    ensures !ctxs[i].rd && !ctxs[i].wr
  {
    if i < |ctxs| - 1 {
      AllClear(ctxs[..|ctxs| - 1], i);
    }
  }

  /** The bits of the contexts among `ids`. */
  function BitsIn(ctxs: seq<Fd>, ids: set<nat>): nat {
    if ctxs == [] then 0
    else
      var n := |ctxs| - 1;
      BitsIn(ctxs[..n], ids) + (if n in ids then BitsOf(ctxs[n]) else 0)
  }

  ghost function Tabled(io: IO): set<nat> {
    set i | 0 <= i < |io.table| :: io.table[i]
  }

  /** The contexts that no descriptor leads to any more. */
  ghost function Orphans(io: IO): set<nat> {
    set c | 0 <= c < |io.ctxs| && c !in Tabled(io)
  }

  ghost function TableBits(io: IO): nat {
    BitsIn(io.ctxs, Tabled(io))
  }

  ghost function OrphanBits(io: IO): nat {
    BitsIn(io.ctxs, Orphans(io))
  }

  lemma {:induction false} BitsSplit(ctxs: seq<Fd>, a: set<nat>, b: set<nat>)
    requires forall i :: 0 <= i < |ctxs| ==> (i in a <==> i !in b)
    ensures BitsIn(ctxs, a) + BitsIn(ctxs, b) == Bits(ctxs)
  {
    if ctxs != [] {
      BitsSplit(ctxs[..|ctxs| - 1], a, b);
    }
  }

  lemma TableAndOrphans(io: IO)
    ensures TableBits(io) + OrphanBits(io) == Bits(io.ctxs)
  {
    BitsSplit(io.ctxs, Tabled(io), Orphans(io));
  }

  lemma {:induction false} BitsInAtLeast(ctxs: seq<Fd>, ids: set<nat>, i: nat)
    requires i < |ctxs| && i in ids
    ensures BitsIn(ctxs, ids) >= BitsOf(ctxs[i])
  {
    if i < |ctxs| - 1 {
      BitsInAtLeast(ctxs[..|ctxs| - 1], ids, i);
    }
  }

  /** At most two bits for each element of `ids`. */
  lemma {:induction false} BitsInBound(ctxs: seq<Fd>, ids: set<nat>)
    ensures BitsIn(ctxs, ids) <= 2 * |ids|
  {
    if ctxs != [] {
      var n := |ctxs| - 1;
      if n in ids {
        BitsInBound(ctxs[..n], ids - {n});
        BitsInSame(ctxs[..n], ids, ids - {n});
      } else {
        BitsInBound(ctxs[..n], ids);
      }
    }
  }

  lemma {:induction false} BitsInSame(ctxs: seq<Fd>, a: set<nat>, b: set<nat>)
    requires forall i :: 0 <= i < |ctxs| ==> (i in a <==> i in b)
    ensures BitsIn(ctxs, a) == BitsIn(ctxs, b)
  {
    if ctxs != [] {
      BitsInSame(ctxs[..|ctxs| - 1], a, b);
    }
  }

  // ---------------------------------------------------------------- accounting

  /** A bit is set exactly when its context holds a scheduler and one of fiber and callback. */
  ghost predicate CtxOk(bit: bool, c: Ctx) {
    if bit then c.scheduler && (c.fiber.Some? <==> c.cb.None?) else c == EMPTY
  }

  ghost predicate FdOk(d: Fd) {
    CtxOk(d.rd, d.read) && CtxOk(d.wr, d.write)
  }

  ghost predicate Shape(io: IO) {
    && (forall i :: 0 <= i < |io.ctxs| ==> FdOk(io.ctxs[i]))
    && 32 <= |io.table| <= 2 * MAX_FD
    && (forall i :: 0 <= i < |io.table| ==> io.table[i] < |io.ctxs|)
  }

  /** The pending counter, as a 64-bit number, is the number of set bits over all contexts, in the table
      or not, less the decrements that had no bit; every registration is scheduled, deleted or armed. */
  ghost predicate Balanced(io: IO) {
    && io.pending == (Bits(io.ctxs) - io.missed) % WRAP
    && io.registered == |io.queue| + io.deleted + Bits(io.ctxs)
  }

  ghost predicate Inv(io: IO) {
    Shape(io) && Balanced(io)
  }

  lemma PlusOne(x: int, y: int)
    requires y == x + 1
    ensures (x % WRAP + 1) % WRAP == y % WRAP && (y % WRAP - 1) % WRAP == x % WRAP
  {}

  // ---------------------------------------------------------------- every operation keeps it

  /** A resize, either way, keeps the accounting over all contexts. */
  lemma ResizeKeeps(io: IO, size: nat)
    requires Inv(io) && 32 <= size <= 2 * MAX_FD
    ensures Inv(Resize(io, size))
  {
    if size > |io.table| {
      BitsAppend(io.ctxs, Empties(size - |io.table|));
      EmptiesClear(size - |io.table|);
    }
  }

  /** Arming a context keeps the accounting, and when the event bit is clear the context is empty, so the
      assertion before it is filled cannot fail. */
  lemma ArmKeeps(io: IO, c: nat, e: Event, t: Task, epoll: bool)
    requires Inv(io) && c < |io.ctxs|
    ensures Inv(Arm(io, c, e, t, epoll).0) && |Arm(io, c, e, t, epoll).0.ctxs| == |io.ctxs|
    ensures !Has(io.ctxs[c], e) ==> CtxOf(io.ctxs[c], e) == EMPTY
  {
    BitsUpdate(io.ctxs, c, With(io.ctxs[c], e, true, Filled(t)));
    PlusOne(Bits(io.ctxs) - io.missed, Bits(io.ctxs) - io.missed + 1);
  }

  lemma AddAloneKeeps(io: IO, fd: nat, e: Event, t: Task, epoll: bool)
    requires Inv(io) && fd < MAX_FD
    ensures Inv(AddAlone(io, fd, e, t, epoll).0)
  {
    var io1 := if fd < |io.table| then io else Resize(io, fd * 3 / 2);
    if fd >= |io.table| {
      ResizeKeeps(io, fd * 3 / 2);
    }
    ArmKeeps(io1, io1.table[fd], e, t, epoll);
  }

  lemma DeleteKeeps(io: IO, c: nat, e: Event, epoll: bool)
    requires Inv(io) && c < |io.ctxs|
    ensures Inv(Delete(io, c, e, epoll).0) && |Delete(io, c, e, epoll).0.ctxs| == |io.ctxs|
  {
    BitsUpdate(io.ctxs, c, With(io.ctxs[c], e, false, EMPTY));
    PlusOne(Bits(io.ctxs) - io.missed - 1, Bits(io.ctxs) - io.missed);
  }

  /** A trigger and its decrement keep the accounting, whether the event is registered or not. */
  lemma TriggerKeeps(io: IO, c: nat, e: Event)
    requires Inv(io) && c < |io.ctxs|
    ensures Inv(TriggerAndCount(io, c, e))
  {
    BitsUpdate(io.ctxs, c, Trigger(io.ctxs[c], io.queue, e).0);
    PlusOne(Bits(io.ctxs) - io.missed - 1, Bits(io.ctxs) - io.missed);
  }

  lemma CancelKeeps(io: IO, c: nat, e: Event, epoll: bool)
    requires Inv(io) && c < |io.ctxs|
    ensures Inv(Cancel(io, c, e, epoll).0) && |Cancel(io, c, e, epoll).0.ctxs| == |io.ctxs|
  {
    TriggerKeeps(io, c, e);
  }

  /** `cancelAll` keeps the accounting and leaves no event on the context. */
  lemma CancelBothKeeps(io: IO, c: nat, epoll: bool)
    requires Inv(io) && c < |io.ctxs|
    ensures Inv(CancelBoth(io, c, epoll).0) && |CancelBoth(io, c, epoll).0.ctxs| == |io.ctxs|
    ensures CancelBoth(io, c, epoll).1 ==> CancelBoth(io, c, epoll).0.ctxs[c] == FRESH
  {
    TriggerKeeps(io, c, Read);
    TriggerKeeps(TriggerIf(io, c, Read, io.ctxs[c].rd), c, Write);
  }

  lemma ReportKeeps(io: IO, c: nat, inn: bool, out: bool, err: bool, epoll: bool)
    requires Inv(io) && c < |io.ctxs|
    ensures Inv(Report(io, c, inn, out, err, epoll)) && |Report(io, c, inn, out, err, epoll).ctxs| == |io.ctxs|
  {
    TriggerKeeps(io, c, Read);
    TriggerKeeps(TriggerIf(io, c, Read, RealRead(io.ctxs[c], inn, err)), c, Write);
  }

  /** The reported events are all registered, or none is. */
  predicate ReportFits(d: Fd, inn: bool, out: bool, err: bool) {
    var r, w := RealRead(d, inn, err), RealWrite(d, out, err);
    ((r ==> d.rd) && (w ==> d.wr)) || (!(d.rd && r) && !(d.wr && w))
  }

  /** A report costs the counter exactly when it names an unregistered event together with a registered
      one, and then one count: `triggerEvent` refuses the event but the decrement is not taken back. */
  lemma ReportMissesIff(io: IO, c: nat, inn: bool, out: bool, err: bool, epoll: bool)
    requires c < |io.ctxs|
    ensures var d := io.ctxs[c];
            var hit := (d.rd && (inn || err)) || (d.wr && (out || err));
            var stray := (inn && !d.rd) || (out && !d.wr);
            && Report(io, c, inn, out, err, epoll).missed == io.missed + Count(epoll && hit && stray)
            && (ReportFits(d, inn, out, err) <==> !(hit && stray))
  {}

  /** A resize makes the table `size` long: what stays in it leads where it led, each new slot to a new and
      empty context of its own, and no context is lost. */
  lemma ResizeIs(io: IO, size: nat)
    ensures var io' := Resize(io, size); var n := |io.table|;
            && |io'.table| == size && io.ctxs <= io'.ctxs
            && (forall i :: 0 <= i < size && i < n ==> io'.table[i] == io.table[i])
            && (forall i :: n <= i < size ==> |io.ctxs| <= io'.table[i] < |io'.ctxs| && io'.ctxs[io'.table[i]] == Fd(false, false, EMPTY, EMPTY))
            && (forall i, j :: n <= i < j < size ==> io'.table[i] != io'.table[j])
            && io'.queue == io.queue && io'.pending == io.pending
  {}

  // ---------------------------------------------------------------- who is woken

  /** The context's waiter: its callback if there is one, else its fiber. */
  predicate Waits(x: Ctx, t: Task) {
    match t
    case CbTask(cb) => x.cb == Some(cb)
    case FiberTask(f) => x.cb.None? && x.fiber == Some(f)
  }

  /** From `io` to `io'` context `c` loses the registered ones of the wanted events, and their waiters are queued,
      the reader first; nothing else moves. */
  ghost predicate Fires(io: IO, io': IO, c: nat, rd: bool, wr: bool)
    requires c < |io.ctxs|
  {
    var d, n := io.ctxs[c], |io.queue|;
    var r, w := d.rd && rd, d.wr && wr;
    && io'.table == io.table && |io'.ctxs| == |io.ctxs|
    && io'.ctxs == io.ctxs[c := Fd(d.rd && !rd, d.wr && !wr, if r then EMPTY else d.read, if w then EMPTY else d.write)]
    && |io'.queue| == n + Count(r) + Count(w) && io.queue <= io'.queue
    && (r ==> Waits(d.read, io'.queue[n]))
    && (w ==> Waits(d.write, io'.queue[n + Count(r)]))
  }

  /** A report wakes the waiter of an event exactly when the event is registered and the report has its own
      flag or the error or hang-up flag; without such an event, or when `epoll_ctl` fails, nothing changes. */
  lemma ReportFires(io: IO, c: nat, inn: bool, out: bool, err: bool, epoll: bool)
    requires Shape(io) && c < |io.ctxs|
    ensures var io', d := Report(io, c, inn, out, err, epoll), io.ctxs[c];
            && (epoll ==> Fires(io, io', c, inn || err, out || err))
            && (!epoll || !((d.rd && (inn || err)) || (d.wr && (out || err))) ==> io' == io)
  {
    if epoll {
      TriggerFires(io, c, Read, inn || err);
      TriggerFires(TriggerIf(io, c, Read, RealRead(io.ctxs[c], inn, err)), c, Write, out || err);
    }
  }

  /** One trigger; the decrement beside it may miss. */
  lemma TriggerFires(io: IO, c: nat, e: Event, wanted: bool)
    requires c < |io.ctxs| && FdOk(io.ctxs[c])
    ensures wanted || !Has(io.ctxs[c], e) ==> Fires(io, TriggerIf(io, c, e, wanted), c, wanted && e.Read?, wanted && e.Write?)
  {}

  /** `cancelEvent` wakes the waiter of its event and no other, and succeeds exactly when it was registered and
      `epoll_ctl` does. */
  lemma CancelFires(io: IO, c: nat, e: Event, epoll: bool)
    requires Shape(io) && c < |io.ctxs|
    ensures var (io', ok) := Cancel(io, c, e, epoll);
            && (ok <==> epoll && if e.Read? then io.ctxs[c].rd else io.ctxs[c].wr)
            && if ok then Fires(io, io', c, e.Read?, e.Write?) else io' == io
  {}

  /** `cancelAll` wakes both. */
  lemma CancelBothFires(io: IO, c: nat, epoll: bool)
    requires Shape(io) && c < |io.ctxs|
    ensures var (io', ok) := CancelBoth(io, c, epoll);
            && (ok <==> epoll && (io.ctxs[c].rd || io.ctxs[c].wr))
            && if ok then Fires(io, io', c, true, true) else io' == io
  {
    TriggerFires(io, c, Read, true);
  }

  /** `addEvent` sets one bit, for the waiter it is given; `delEvent` clears one and wakes nobody. */
  lemma ArmFills(io: IO, c: nat, e: Event, t: Task, epoll: bool)
    requires Shape(io) && c < |io.ctxs|
    ensures var (io', r) := Arm(io, c, e, t, epoll); var d := io.ctxs[c];
            && (r.Ok? <==> epoll && if e.Read? then !d.rd else !d.wr)
            && (!r.Ok? ==> io' == io)
            && (r.Ok? ==>
                  && |io'.ctxs| == |io.ctxs| && io'.table == io.table && io'.queue == io.queue
                  && var d' := io'.ctxs[c];
                     && io'.ctxs == io.ctxs[c := d']
                     && (if e.Read? then d'.rd && Waits(d'.read, t) && d'.wr == d.wr && d'.write == d.write
                         else d'.wr && Waits(d'.write, t) && d'.rd == d.rd && d'.read == d.read))
  {}

  lemma DeleteDrops(io: IO, c: nat, e: Event, epoll: bool)
    requires Shape(io) && c < |io.ctxs|
    ensures var (io', ok) := Delete(io, c, e, epoll); var d := io.ctxs[c];
            && (ok <==> epoll && if e.Read? then d.rd else d.wr)
            && (!ok ==> io' == io)
            && (ok ==>
                  && io'.table == io.table && io'.queue == io.queue
                  && io'.ctxs == io.ctxs[c := if e.Read? then Fd(false, d.wr, EMPTY, d.write) else Fd(d.rd, false, d.read, EMPTY)])
  {}

  /** What the table alone says: the counter is the number of its set bits exactly when the orphans' bits
      and the misses make up for each other; without misses, exactly when no orphan is armed. */
  lemma TableExactIff(io: IO)
    requires Inv(io)
    ensures io.pending == TableBits(io) <==> (OrphanBits(io) - io.missed) % WRAP == 0
    ensures io.missed == 0 && OrphanBits(io) < WRAP ==> (io.pending == TableBits(io) <==> OrphanBits(io) == 0)
  {
    TableAndOrphans(io);
    BitsInBound(io.ctxs, Tabled(io));
    TabledBound(io.table);
    Cancels(TableBits(io), OrphanBits(io) - io.missed);
  }

  lemma Cancels(x: nat, y: int)
    requires x < WRAP
    ensures (x + y) % WRAP == x <==> y % WRAP == 0
  {}

  lemma {:induction false} TabledBound(table: seq<nat>)
    ensures |set i | 0 <= i < |table| :: table[i]| <= |table|
  {
    var s := set i | 0 <= i < |table| :: table[i];
    if table != [] {
      var n := |table| - 1;
      TabledBound(table[..n]);
      var r := set i | 0 <= i < |table[..n]| :: table[..n][i];
      assert s == r + {table[n]};
    }
  }
}
