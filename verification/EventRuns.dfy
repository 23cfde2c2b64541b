/**
  Whole runs of event registrations, one step per locked region: any number of threads look up a context
  under the table's lock, may resize the table under it later, and act on the context they fetched under
  that context's own lock; the idle worker handles whatever contexts `epoll_wait` names, with any events.
 */
module EventRuns {
  import opened Events

  type Thread = nat

  /** Between two locked regions of a call: about to resize for a descriptor, or with a context in hand. */
  datatype Pc = Away | MustGrow(fd: nat) | Got(c: nat)

  datatype World = World(io: IO, pcs: map<Thread, Pc>)

  /** `Look` and `Grow` are the first regions of `addEvent` (`adding`), `delEvent`, `cancelEvent` and
      `cancelAll`; the next four are their last regions; `ReportIt` is the loop body of `idle`. */
  datatype Op =
    | Look(th: Thread, fd: nat, adding: bool)
    | Grow(th: Thread)
    | ArmIt(th: Thread, e: Event, t: Task, epoll: bool)
    | DeleteIt(th: Thread, e: Event, epoll: bool)
    | CancelIt(th: Thread, e: Event, epoll: bool)
    | CancelBothIt(th: Thread, epoll: bool)
    | ReportIt(c: nat, inn: bool, out: bool, err: bool, epoll: bool)

  function PcOf(w: World, th: Thread): Pc {
    if th in w.pcs then w.pcs[th] else Away
  }

  predicate Holds(w: World, th: Thread) {
    PcOf(w, th).Got? && PcOf(w, th).c < |w.io.ctxs|
  }

  /** Descriptors are non-negative ints. */
  predicate Enabled(w: World, op: Op) {
    match op
    case Look(th, fd, _) => PcOf(w, th).Away? && fd < MAX_FD
    case Grow(th) => PcOf(w, th).MustGrow?
    case ArmIt(th, _, _, _) => Holds(w, th)
    case DeleteIt(th, _, _) => Holds(w, th)
    case CancelIt(th, _, _) => Holds(w, th)
    case CancelBothIt(th, _) => Holds(w, th)
    case ReportIt(c, _, _, _, _) => c < |w.io.ctxs|
  }

  function SetPc(w: World, th: Thread, pc: Pc): World {
    w.(pcs := w.pcs[th := pc])
  }

  /** The call of thread `th` returns, leaving `io`. */
  function Back(w: World, th: Thread, io: IO): World {
    SetPc(w.(io := io), th, Away)
  }

  /** The context a descriptor leads to. */
  function Fetched(io: IO, fd: nat): Pc {
    if fd < |io.table| then Got(io.table[fd]) else Away
  }

  function Apply(w: World, op: Op): World
    requires Enabled(w, op)
  {
    match op
    case Look(th, fd, adding) =>
      SetPc(w, th, if fd < |w.io.table| || !adding then Fetched(w.io, fd) else MustGrow(fd))
    case Grow(th) =>
      var fd := PcOf(w, th).fd;
      var io := Resize(w.io, fd * 3 / 2);
      SetPc(w.(io := io), th, Fetched(io, fd))
    case ArmIt(th, e, t, epoll) => Back(w, th, Arm(w.io, PcOf(w, th).c, e, t, epoll).0)
    case DeleteIt(th, e, epoll) => Back(w, th, Delete(w.io, PcOf(w, th).c, e, epoll).0)
    case CancelIt(th, e, epoll) => Back(w, th, Cancel(w.io, PcOf(w, th).c, e, epoll).0)
    case CancelBothIt(th, epoll) => Back(w, th, CancelBoth(w.io, PcOf(w, th).c, epoll).0)
    case ReportIt(c, inn, out, err, epoll) => w.(io := Report(w.io, c, inn, out, err, epoll))
  }

  // ---------------------------------------------------------------- the invariant

  ghost predicate PcOk(w: World, th: Thread)
    requires th in w.pcs
  {
    match w.pcs[th]
    case Away => true
    case MustGrow(fd) => 32 <= fd < MAX_FD
    case Got(c) => c < |w.io.ctxs|
  }

  ghost predicate WorldInv(w: World) {
    Inv(w.io) && forall th :: th in w.pcs ==> PcOk(w, th)
  }

  /** Contexts are never taken away, so every thread still reaches the one it fetched. */
  lemma PcsKept(w: World, w': World, th: Thread)
    requires forall x :: x in w.pcs ==> PcOk(w, x)
    requires |w.io.ctxs| <= |w'.io.ctxs| && th in w'.pcs && w'.pcs == w.pcs[th := w'.pcs[th]] && PcOk(w', th)
    ensures forall x :: x in w'.pcs ==> PcOk(w', x)
  {
    forall x | x in w'.pcs ensures PcOk(w', x) {
      assert x != th ==> PcOk(w, x);
    }
  }

  lemma GrowKeeps(w: World, th: Thread)
    requires WorldInv(w) && Enabled(w, Grow(th))
    ensures WorldInv(Apply(w, Grow(th)))
    ensures Holds(Apply(w, Grow(th)), th)
  {
    var fd := PcOf(w, th).fd;
    assert PcOk(w, th);
    ResizeKeeps(w.io, fd * 3 / 2);
    PcsKept(w, Apply(w, Grow(th)), th);
  }

  lemma ActKeeps(w: World, op: Op)
    requires WorldInv(w) && Enabled(w, op) && !op.Grow? && !op.Look? && !op.ReportIt?
    ensures WorldInv(Apply(w, op))
  {
    var c := PcOf(w, op.th).c;
    match op {
      case ArmIt(_, e, t, epoll) => ArmKeeps(w.io, c, e, t, epoll);
      case DeleteIt(_, e, epoll) => DeleteKeeps(w.io, c, e, epoll);
      case CancelIt(_, e, epoll) => CancelKeeps(w.io, c, e, epoll);
      case CancelBothIt(_, epoll) => CancelBothKeeps(w.io, c, epoll);
    }
    PcsKept(w, Apply(w, op), op.th);
  }

  lemma StepKeeps(w: World, op: Op)
    requires WorldInv(w) && Enabled(w, op)
    ensures WorldInv(Apply(w, op))
  {
    match op
    case Look(th, fd, adding) => PcsKept(w, Apply(w, op), th);
    case Grow(th) => GrowKeeps(w, th);
    case ReportIt(c, inn, out, err, epoll) =>
      ReportKeeps(w.io, c, inn, out, err, epoll);
      forall x | x in w.pcs ensures PcOk(Apply(w, op), x) {
        assert PcOk(w, x);
      }
    case _ => ActKeeps(w, op);
  }

  // ---------------------------------------------------------------- runs

  /** The manager as constructed: 32 contexts in the table, nothing registered, no call under way. */
  predicate Start(w: World) {
    && |w.io.ctxs| == 32 && (forall i :: 0 <= i < 32 ==> w.io.ctxs[i] == FRESH)
    && |w.io.table| == 32 && (forall i :: 0 <= i < 32 ==> w.io.table[i] == i)
    && w.io.pending == 0 && w.io.queue == [] && w.io.registered == 0 && w.io.deleted == 0 && w.io.missed == 0
    && w.pcs == map[]
  }

  lemma StartExists() returns (w: World)
    ensures Start(w)
  {
    w := World(IO(Empties(32), NewIds(0, 32), 0, [], 0, 0, 0), map[]);
  }

  ghost predicate Run(ws: seq<World>, ops: seq<Op>) {
    && |ws| == |ops| + 1 && Start(ws[0])
    && forall i {:trigger ops[i]} :: 0 <= i < |ops| ==>
         Enabled(ws[i], ops[i]) && ws[i + 1] == Apply(ws[i], ops[i])
  }

  lemma StartIsInv(w: World)
    requires Start(w)
    ensures WorldInv(w) && Bits(w.io.ctxs) == 0 && Orphans(w.io) == {}
  {
    assert w.io.ctxs == Empties(|w.io.ctxs|);
    EmptiesClear(|w.io.ctxs|);
    forall c | 0 <= c < |w.io.ctxs| ensures c in Tabled(w.io) {
      assert w.io.table[c] == c;
    }
  }

  /**
    Event accounting for every interleaving of registering, resizing, cancelling and deleting threads and
    every report: the counter is the number of set bits over all contexts less the misses, a bit is set
    exactly when its context is filled, and registered = scheduled + deleted + armed.
   */
  lemma {:induction false} AccountingHolds(ws: seq<World>, ops: seq<Op>, n: nat)
    requires Run(ws, ops) && n <= |ops|
    ensures WorldInv(ws[n])
  {
    if n == 0 {
      StartIsInv(ws[0]);
    } else {
      AccountingHolds(ws, ops, n - 1);
      StepKeeps(ws[n - 1], ops[n - 1]);
    }
  }

  // ---------------------------------------------------------------- when the table tells it all

  /** Every report of the run names events that are all registered, or none that is. */
  ghost predicate ReportsFit(ws: seq<World>, ops: seq<Op>, n: nat)
    requires Run(ws, ops) && n <= |ops|
  {
    forall i {:trigger ops[i]} :: 0 <= i < n && ops[i].ReportIt? ==>
      !ops[i].epoll || ReportFits(ws[i].io.ctxs[ops[i].c], ops[i].inn, ops[i].out, ops[i].err)
  }

  /** No resize of the run makes the table smaller. */
  /** Out of range, `addEvent` resizes the table to one and a half times its descriptor, whatever the table is by
      then, and fetches the context of its descriptor. */
  lemma GrowIs(ws: seq<World>, ops: seq<Op>, n: nat, th: nat)
    requires Run(ws, ops) && n < |ops| && ops[n] == Grow(th)
    ensures var w, w' := ws[n], ws[n + 1];
            && PcOf(w, th).MustGrow?
            && var fd := PcOf(w, th).fd;
               && |w'.io.table| == fd + fd / 2 && fd < |w'.io.table|
               && PcOf(w', th) == Got(w'.io.table[fd])
  {
    AccountingHolds(ws, ops, n);
    assert PcOk(ws[n], th);
    ResizeIs(ws[n].io, PcOf(ws[n], th).fd * 3 / 2);
  }

  /** Nothing that was handed to the scheduler is taken back. */
  lemma QueueGrows(w: World, op: Op)
    requires Enabled(w, op)
    ensures w.io.queue <= Apply(w, op).io.queue
  {}

  ghost predicate NoneShrinks(ws: seq<World>, ops: seq<Op>, n: nat)
    requires Run(ws, ops) && n <= |ops|
  {
    forall i {:trigger ops[i]} :: 0 <= i < n && ops[i].Grow? ==> |ws[i].io.table| <= PcOf(ws[i], ops[i].th).fd * 3 / 2
  }

  lemma StepMisses(w: World, op: Op)
    requires Enabled(w, op)
    requires op.ReportIt? ==> !op.epoll || ReportFits(w.io.ctxs[op.c], op.inn, op.out, op.err)
    ensures Apply(w, op).io.missed == w.io.missed
  {
    if op.ReportIt? {
      ReportMissesIff(w.io, op.c, op.inn, op.out, op.err, op.epoll);
    }
  }

  lemma {:induction false} NothingMissed(ws: seq<World>, ops: seq<Op>, n: nat)
    requires Run(ws, ops) && n <= |ops| && ReportsFit(ws, ops, n)
    ensures ws[n].io.missed == 0
  {
    if n > 0 {
      NothingMissed(ws, ops, n - 1);
      StepMisses(ws[n - 1], ops[n - 1]);
    }
  }

  lemma StepOrphans(w: World, op: Op)
    requires Enabled(w, op) && Orphans(w.io) == {}
    requires op.Grow? ==> |w.io.table| <= PcOf(w, op.th).fd * 3 / 2
    ensures Orphans(Apply(w, op).io) == {}
  {
    var w' := Apply(w, op);
    if op.Grow? {
      GrowOrphans(w.io, PcOf(w, op.th).fd * 3 / 2);
    } else {
      assert w'.io.table == w.io.table && |w'.io.ctxs| == |w.io.ctxs|;
      assert Orphans(w'.io) == Orphans(w.io);
    }
  }

  lemma GrowOrphans(io: IO, size: nat)
    requires Orphans(io) == {} && |io.table| <= size
    ensures Orphans(Resize(io, size)) == {}
  {
    var io' := Resize(io, size);
    forall c | 0 <= c < |io'.ctxs| ensures c in Tabled(io') {
      if c < |io.ctxs| {
        assert c !in Orphans(io);
        assert c in Tabled(io);
        var i :| 0 <= i < |io.table| && io.table[i] == c;
        assert io'.table[i] == c;
      } else {
        assert io'.table[|io.table| + (c - |io.ctxs|)] == c;
      }
    }
  }

  lemma {:induction false} NoOrphans(ws: seq<World>, ops: seq<Op>, n: nat)
    requires Run(ws, ops) && n <= |ops| && NoneShrinks(ws, ops, n)
    ensures Orphans(ws[n].io) == {}
  {
    if n == 0 {
      StartIsInv(ws[0]);
    } else {
      NoOrphans(ws, ops, n - 1);
      StepOrphans(ws[n - 1], ops[n - 1]);
    }
  }

  lemma {:induction false} NoBitsInNone(ctxs: seq<Fd>)
    ensures BitsIn(ctxs, {}) == 0
  {
    if ctxs != [] {
      NoBitsInNone(ctxs[..|ctxs| - 1]);
    }
  }

  /** In every reachable state the counter is the number of bits set in the table if and only if the
      orphans' bits and the misses make up for each other; in particular if no resize shrank the table
      and every report fitted. */
  lemma TableAccountingIff(ws: seq<World>, ops: seq<Op>, n: nat)
    requires Run(ws, ops) && n <= |ops|
    ensures var io := ws[n].io; io.pending == TableBits(io) <==> (OrphanBits(io) - io.missed) % WRAP == 0
    ensures NoneShrinks(ws, ops, n) && ReportsFit(ws, ops, n) ==> ws[n].io.pending == TableBits(ws[n].io)
  {
    AccountingHolds(ws, ops, n);
    TableExactIff(ws[n].io);
    if NoneShrinks(ws, ops, n) && ReportsFit(ws, ops, n) {
      NothingMissed(ws, ops, n);
      NoOrphans(ws, ops, n);
      NoBitsInNone(ws[n].io.ctxs);
    }
  }

  // ---------------------------------------------------------------- runs where it does not

  /** Appending one enabled step. */
  lemma Extend(ws: seq<World>, ops: seq<Op>, op: Op)
    requires Run(ws, ops) && Enabled(ws[|ops|], op)
    ensures Run(ws + [Apply(ws[|ops|], op)], ops + [op])
  {
    var ws', ops' := ws + [Apply(ws[|ops|], op)], ops + [op];
    forall i | 0 <= i < |ops'| ensures Enabled(ws'[i], ops'[i]) && ws'[i + 1] == Apply(ws'[i], ops'[i]) {
      if i < |ops| {
        assert ops'[i] == ops[i] && ws'[i] == ws[i] && ws'[i + 1] == ws[i + 1];
      }
    }
  }

  /** Both threads found their descriptors out of range; thread 0 has resized for `hi`. */
  ghost predicate BothLooked(v: World, lo: nat, hi: nat) {
    && 32 <= lo && lo * 3 / 2 <= hi < MAX_FD
    && v.pcs == map[1 := MustGrow(lo), 0 := Got(hi)]
    && |v.io.table| == |v.io.ctxs| == hi * 3 / 2 && (forall i :: 0 <= i < |v.io.table| ==> v.io.table[i] == i)
    && v.io.ctxs[hi] == FRESH && v.io.queue == [] && v.io.missed == 0 && v.io.pending == 0
    && v.io.registered == 0 && v.io.deleted == 0
  }

  lemma RaceBegins(w: World, lo: nat, hi: nat) returns (ws: seq<World>, ops: seq<Op>)
    requires Start(w) && 32 <= lo && lo * 3 / 2 <= hi < MAX_FD
    ensures Run(ws, ops) && |ops| == 3 && ws[0] == w && BothLooked(ws[3], lo, hi)
  {
    ws, ops := [w], [];
    ws, ops := More(ws, ops, Look(1, lo, true));
    ws, ops := More(ws, ops, Look(0, hi, true));
    LooksThenGrows(w, lo, hi);
    ws, ops := More(ws, ops, Grow(0));
  }

  lemma LooksThenGrows(w: World, lo: nat, hi: nat)
    requires Start(w) && 32 <= lo && lo * 3 / 2 <= hi < MAX_FD
    ensures Enabled(w, Look(1, lo, true)) && Enabled(Apply(w, Look(1, lo, true)), Look(0, hi, true))
    ensures var v := Apply(Apply(w, Look(1, lo, true)), Look(0, hi, true)); Enabled(v, Grow(0)) && BothLooked(Apply(v, Grow(0)), lo, hi)
  {}

  /** Appending one enabled step, as a new run. */
  lemma More(ws: seq<World>, ops: seq<Op>, op: Op) returns (ws': seq<World>, ops': seq<Op>)
    requires Run(ws, ops) && Enabled(ws[|ops|], op)
    ensures Run(ws', ops') && ops' == ops + [op] && ws'[0] == ws[0] && ws'[|ops'|] == Apply(ws[|ops|], op)
  {
    Extend(ws, ops, op);
    ws', ops' := ws + [Apply(ws[|ops|], op)], ops + [op];
  }

  /** The one registration sits on an orphan: it is counted, but no descriptor leads to it. */
  ghost predicate OrphanArmed(io: IO, hi: nat, t: Task) {
    && io.pending == 1 && io.missed == 0 && io.registered == 1 && io.queue == [] && io.deleted == 0
    && hi < |io.ctxs| && hi in Orphans(io) && io.ctxs[hi] == With(FRESH, Read, true, Filled(t))
  }

  lemma CutTable(v: World, lo: nat, hi: nat)
    requires BothLooked(v, lo, hi)
    ensures var io := Resize(v.io, lo * 3 / 2); hi in Orphans(io) && io.ctxs == v.io.ctxs
  {
    var io := Resize(v.io, lo * 3 / 2);
    forall i | 0 <= i < |io.table| ensures io.table[i] != hi {
      assert io.table[i] == v.io.table[i];
    }
  }

  lemma SameOrphans(io: IO, io': IO)
    requires io'.table == io.table && |io'.ctxs| == |io.ctxs|
    ensures Orphans(io') == Orphans(io)
  {
    assert Tabled(io') == Tabled(io);
  }

  lemma ArmThenCut(v: World, lo: nat, hi: nat, t: Task)
    requires BothLooked(v, lo, hi)
    ensures Enabled(v, ArmIt(0, Read, t, true)) && Enabled(Apply(v, ArmIt(0, Read, t, true)), Grow(1))
    ensures OrphanArmed(Apply(Apply(v, ArmIt(0, Read, t, true)), Grow(1)).io, hi, t)
  {
    CutTable(v, lo, hi);
    var v2 := Apply(Apply(v, ArmIt(0, Read, t, true)), Grow(1));
    SameOrphans(Resize(v.io, lo * 3 / 2), v2.io);
  }

  lemma CutThenArm(v: World, lo: nat, hi: nat, t: Task)
    requires BothLooked(v, lo, hi)
    ensures Enabled(v, Grow(1)) && Enabled(Apply(v, Grow(1)), ArmIt(0, Read, t, true))
    ensures OrphanArmed(Apply(Apply(v, Grow(1)), ArmIt(0, Read, t, true)).io, hi, t)
  {
    CutTable(v, lo, hi);
    var v2 := Apply(Apply(v, Grow(1)), ArmIt(0, Read, t, true));
    SameOrphans(Resize(v.io, lo * 3 / 2), v2.io);
  }

  /**
    The resize race, both ways. Thread 1 finds `lo` out of range (60, say); thread 0 finds `hi` (100, say)
    out of range and resizes for it. Then thread 1's resize excludes `hi` again, after thread 0 armed its
    context (`early`) or before: either way the registration is counted and no table bit is set.
   */
  lemma RaceOrphans(w: World, lo: nat, hi: nat, t: Task, early: bool) returns (ws: seq<World>, ops: seq<Op>)
    requires Start(w) && 32 <= lo && lo * 3 / 2 <= hi < MAX_FD
    ensures Run(ws, ops) && ws[0] == w && OrphanArmed(ws[|ops|].io, hi, t)
    ensures var io := ws[|ops|].io; io.pending == 1 && TableBits(io) == 0 && OrphanBits(io) == 1
  {
    ws, ops := RaceBegins(w, lo, hi);
    ArmThenCut(ws[3], lo, hi, t);
    CutThenArm(ws[3], lo, hi, t);
    var a, b := if early then ArmIt(0, Read, t, true) else Grow(1), if early then Grow(1) else ArmIt(0, Read, t, true);
    Extend(ws, ops, a);
    ws, ops := ws + [Apply(ws[3], a)], ops + [a];
    Extend(ws, ops, b);
    ws, ops := ws + [Apply(ws[4], b)], ops + [b];
    AccountingHolds(ws, ops, 5);
    OneOrphan(ws[5].io, hi, t);
  }

  lemma OneOrphan(io: IO, hi: nat, t: Task)
    requires Inv(io) && OrphanArmed(io, hi, t)
    ensures TableBits(io) == 0 && OrphanBits(io) == 1
  {
    TableAndOrphans(io);
    BitsInAtLeast(io.ctxs, Orphans(io), hi);
  }

  /** An orphan still fires: epoll's report names the context itself. */
  lemma OrphanFires(io: IO, hi: nat, t: Task)
    requires OrphanArmed(io, hi, t)
    ensures var io' := Report(io, hi, true, false, false, true);
            io'.queue == [t] && io'.pending == 0 && io'.ctxs[hi] == FRESH
  {}

  /** The miss happens: register both events of a descriptor, delete the write, and let a report that was
      already on its way name both. The counter wraps below zero with no bit set. */
  lemma ReportMisses(w: World, fd: nat, t: Task, u: Task) returns (ws: seq<World>, ops: seq<Op>)
    requires Start(w) && fd < 32
    ensures Run(ws, ops) && ws[0] == w && |ops| == 7 && ops[6] == ReportIt(fd, true, true, false, true)
    ensures var io := ws[7].io; io.missed == 1 && io.pending == WRAP - 1 && io.ctxs[fd] == FRESH && io.queue == [t]
  {
    ws, ops := [w], [];
    var look := Look(0, fd, true);
    assert Called(w, fd, FRESH, 0, [], 0);
    AfterCall(w, fd, FRESH, 0, [], 0, ArmIt(0, Read, t, true));
    ws, ops := Two(ws, ops, look, ArmIt(0, Read, t, true));
    var d := With(FRESH, Read, true, Filled(t));
    AfterCall(ws[2], fd, d, 1, [], 0, ArmIt(0, Write, u, true));
    ws, ops := Two(ws, ops, look, ArmIt(0, Write, u, true));
    AfterCall(ws[4], fd, With(d, Write, true, Filled(u)), 2, [], 0, DeleteIt(0, Write, true));
    ws, ops := Two(ws, ops, look, DeleteIt(0, Write, true));
    ws, ops := More(ws, ops, ReportIt(fd, true, true, false, true));
  }

  /** Between calls of thread 0, with the context of `fd` and the counters as given. */
  ghost predicate Called(w: World, fd: nat, d: Fd, pending: nat, queue: seq<Task>, missed: nat) {
    && PcOf(w, 0).Away? && fd < |w.io.table| && fd < MAX_FD && w.io.table[fd] == fd && fd < |w.io.ctxs| && w.io.ctxs[fd] == d
    && w.io.pending == pending && w.io.queue == queue && w.io.missed == missed
  }

  lemma AfterCall(w: World, fd: nat, d: Fd, pending: nat, queue: seq<Task>, missed: nat, act: Op)
    requires Called(w, fd, d, pending, queue, missed) && pending < WRAP
    requires (act.ArmIt? && !Has(d, act.e)) || (act.DeleteIt? && Has(d, act.e))
    requires act.th == 0 && act.epoll
    ensures Enabled(w, Look(0, fd, true)) && Enabled(Apply(w, Look(0, fd, true)), act)
    ensures Called(Apply(Apply(w, Look(0, fd, true)), act), fd,
                   if act.ArmIt? then With(d, act.e, true, Filled(act.t)) else With(d, act.e, false, EMPTY),
                   if act.ArmIt? then (pending + 1) % WRAP else (pending - 1) % WRAP, queue, missed)
  {}

  /** A call that finds its descriptor in the table: look it up, then act. */
  lemma Two(ws0: seq<World>, ops0: seq<Op>, look: Op, act: Op) returns (ws: seq<World>, ops: seq<Op>)
    requires Run(ws0, ops0) && Enabled(ws0[|ops0|], look) && look.Look? && look.fd < |ws0[|ops0|].io.table|
    requires Enabled(Apply(ws0[|ops0|], look), act)
    ensures Run(ws, ops) && |ops| == |ops0| + 2 && ws[0] == ws0[0]
    ensures ws[|ops|] == Apply(Apply(ws0[|ops0|], look), act)
  {
    Extend(ws0, ops0, look);
    ws, ops := ws0 + [Apply(ws0[|ops0|], look)], ops0 + [look];
    Extend(ws, ops, act);
    ws, ops := ws + [Apply(ws[|ops|], act)], ops + [act];
  }
}
