/**
  Timer wake-ups between one idle worker and any number of threads that insert timers, one step per
  locked region: `IOManager::idle`, `tickle` and `onTimerInsertedAtFront` (chat/iomanager.cc) over
  the timer manager. The clock may do anything and deadline sums may wrap; a single step can lose a wake-up,
  a `refresh` that moves a deadline forward (`Loses`), and none does while the clock is monotone and no sum
  wraps (`Sane`).
 */
module TimerWake {
  import opened Timers
  import opened TimerRuns

  /** Where the worker thread is. `Holding` lasts from its `getNextTimer` until `epoll_wait` returns; it
      carries the clock reading there and that reading plus the answer, until when the worker may wait. The
      worker counts as idle in every phase but `Busy`. */
  datatype Phase = Busy | Entered | Holding(since: nat, until: nat) | Woken | Expired | Drained

  /** `announcing` threads inserted at the front and will look at the idle count; `writing` threads
      saw an idle worker and will write a byte; `bytes` are in the pipe. */
  datatype Wake = Wake(tm: State, now: nat, phase: Phase, announcing: nat, writing: nat, bytes: nat)

  datatype Step =
    | Tick(time: nat)
    | Enter | GetNext | Return | Expire(read: nat) | Drain | SkipDrain | Leave
    | Add(read: nat, id: Id, ms: nat, hasCb: bool, recurring: bool)
    | Cancel(id: Id)
    | Refresh(id: Id)
    | Reset(id: Id, ms: nat, fromNow: bool)
    | OtherGetNext
    | LookIdle | WriteByte | OtherByte

  predicate CanStep(w: Wake, a: Step) {
    match a
    case Tick(_) => true
    case Enter => w.phase.Busy?
    case GetNext => w.phase.Entered?
    case Return => w.phase.Holding?
    case Expire(_) => w.phase.Woken?
    case Drain => w.phase.Expired?
    case SkipDrain => w.phase.Expired?
    case Leave => w.phase.Drained?
    case Add(_, id, _, _, _) => id !in w.tm.recs
    case Cancel(id) => id in w.tm.recs
    case Refresh(id) => id in w.tm.recs
    case Reset(id, _, _) => id in w.tm.recs
    case OtherGetNext => true
    case LookIdle => w.announcing > 0
    case WriteByte => w.writing > 0
    case OtherByte => true
  }

  function Announce(w: Wake, tm: State, front: bool): Wake {
    w.(tm := tm, announcing := if front then w.announcing + 1 else w.announcing)
  }

  ghost function Do(w: Wake, a: Step): Wake
    requires Valid(w.tm) && CanStep(w, a)
  {
    match a
    case Tick(time) => w.(now := time)
    case Enter => w.(phase := Entered)
    case GetNext =>
      var (tm, wait) := NextTimer(w.tm, w.now);
      w.(tm := tm, phase := Holding(w.now, w.now + wait))
    case Return => w.(phase := Woken)
    case Expire(read) => w.(tm := ListExpired(w.tm, read).0, phase := Expired)
    case Drain => w.(bytes := 0, phase := Drained)
    case SkipDrain => w.(phase := Drained)
    case Leave => w.(phase := Busy)
    case Add(read, id, ms, hasCb, recurring) =>
      var (tm, front) := Timers.Add(w.tm, read, id, ms, hasCb, recurring);
      Announce(w, tm, front)
    case Cancel(id) => w.(tm := Timers.Cancel(w.tm, id).0)
    case Refresh(id) => w.(tm := Timers.Refresh(w.tm, w.now, id).0)
    case Reset(id, ms, fromNow) =>
      var (tm, _, front) := Timers.Reset(w.tm, w.now, id, ms, fromNow);
      Announce(w, tm, front)
    case OtherGetNext => w.(tm := NextTimer(w.tm, w.now).0)
    case LookIdle => w.(announcing := w.announcing - 1, writing := if w.phase.Busy? then w.writing else w.writing + 1)
    case WriteByte => w.(writing := w.writing - 1, bytes := w.bytes + 1)
    case OtherByte => w.(bytes := w.bytes + 1)
  }

  // ---------------------------------------------------------------- the invariant

  /** A byte is in the pipe, or a thread is on its way to writing one. */
  predicate Signalled(w: Wake) {
    w.bytes > 0 || w.announcing > 0 || w.writing > 0
  }

  /** The worker waits, and past the deadline of `k`. */
  predicate Earlier(k: Key, p: Phase) {
    p.Holding? && p.since < p.until && k.next < p.until
  }

  /** While the worker holds a deadline, an earlier armed timer implies a signal; so does the
      front-inserted flag, which suppresses further tickles. */
  ghost predicate Covered(w: Wake) {
    w.phase.Holding? ==>
      && (w.tm.tickled ==> Signalled(w))
      && (forall k :: k in w.tm.order && Earlier(k, w.phase) ==> Signalled(w))
  }

  ghost predicate Inv(w: Wake) {
    Valid(w.tm) && Covered(w)
  }

  /** A `refresh` that puts its timer before the deadline the worker holds, with no signal under way: it
      re-inserts without ever asking for a tickle. */
  predicate Loses(w: Wake, a: Step)
    requires CanStep(w, a)
  {
    && a.Refresh? && w.tm.recs[a.id].armed && w.phase.Holding? && !Signalled(w)
    && Earlier(Key(RefreshRec(w.tm.recs[a.id], w.now).next, a.id), w.phase)
  }

  /** An insertion that asks for no tickle: the flag was up already, or an old member is no later. */
  lemma PutIsCovered(s: State, id: Id)
    requires id in s.recs && Sorted(s.order) && Key(s.recs[id].next, id) !in s.order
    requires forall k :: k in s.order ==> k.id != id
    ensures var (t, front) := Put(s, id);
            && (forall k :: k in t.order <==> k in s.order || k == Key(s.recs[id].next, id))
            && (t.tickled <==> s.tickled || front)
            && (front || s.tickled || (s.order != [] && s.order[0].next <= s.recs[id].next))
  {
    var k := Key(s.recs[id].next, id);
    InsertMembers(s.order, k);
  }

  lemma AddCovers(w: Wake, a: Step)
    requires Inv(w) && a.Add? && CanStep(w, a)
    ensures Inv(Do(w, a))
  {
    AddKeeps(w.tm, a.read, a.id, a.ms, a.hasCb, a.recurring);
    var s1 := w.tm.(recs := w.tm.recs[a.id := Rec(a.ms, W(a.read + a.ms), a.hasCb, a.recurring, a.hasCb)]);
    PutIsCovered(s1, a.id);
    assert w.tm.order != [] ==> w.tm.order[0] in w.tm.order;
  }

  lemma CancelCovers(w: Wake, a: Step)
    requires Inv(w) && a.Cancel? && CanStep(w, a)
    ensures Inv(Do(w, a))
  {
    CancelKeeps(w.tm, a.id);
    EraseMembers(w.tm.order, Key(w.tm.recs[a.id].next, a.id));
  }

  /** The set after a `refresh` that takes effect. */
  lemma RefreshMembers(s: State, now: nat, id: Id)
    requires Valid(s) && id in s.recs && s.recs[id].armed
    ensures var t, r := Timers.Refresh(s, now, id).0, s.recs[id];
            && t.tickled == s.tickled
            && forall k :: k in t.order <==> (k in s.order && k != Key(r.next, id)) || k == Key(RefreshRec(r, now).next, id)
  {
    var r := s.recs[id];
    RemoveLeaves(s, id);
    EraseMembers(s.order, Key(r.next, id));
    InsertMembers(Erase(s.order, Key(r.next, id)), Key(RefreshRec(r, now).next, id));
  }

  lemma RefreshCoversIff(w: Wake, a: Step)
    requires Inv(w) && a.Refresh? && CanStep(w, a)
    ensures Valid(Do(w, a).tm) && (Covered(Do(w, a)) <==> !Loses(w, a))
  {
    RefreshKeeps(w.tm, w.now, a.id);
    if w.tm.recs[a.id].armed {
      RefreshMembers(w.tm, w.now, a.id);
    }
  }

  lemma ResetMembers(s: State, now: nat, id: Id, ms: nat, fromNow: bool)
    requires Valid(s) && id in s.recs
    ensures var (t, _, front) := Timers.Reset(s, now, id, ms, fromNow);
            && (t.tickled <==> s.tickled || front)
            && (front || s.tickled || forall k :: k in t.order ==>
                  k in s.order || (s.order != [] && exists j :: j in s.order && j.next <= k.next))
  {
    var r := s.recs[id];
    if r.armed && !(ms == r.ms && !fromNow) {
      RemoveKeeps(s, id);
      EraseMembers(s.order, Key(r.next, id));
      var s1 := Remove(s, id);
      RemoveLeaves(s, id);
      var s2 := Rekey(s1, id, ms, ResetRec(r, now, ms, fromNow).next);
      assert forall k :: k in s1.order ==> k.id != id;
      PutIsCovered(s2, id);
      assert s1.order != [] ==> s1.order[0] in s1.order && s1.order[0] in s.order;
    }
  }

  lemma ResetCovers(w: Wake, a: Step)
    requires Inv(w) && a.Reset? && CanStep(w, a)
    ensures Inv(Do(w, a))
  {
    ResetKeeps(w.tm, w.now, a.id, a.ms, a.fromNow);
    ResetMembers(w.tm, w.now, a.id, a.ms, a.fromNow);
  }

  lemma GetNextCovers(w: Wake)
    requires Inv(w) && w.phase.Entered?
    ensures Inv(Do(w, GetNext))
  {
    TickledIrrelevant(w.tm, false);
    forall k | k in w.tm.order ensures !(k.next < w.tm.order[0].next) {
      var i :| 0 <= i < |w.tm.order| && w.tm.order[i] == k;
      if i > 0 {
        assert Less(w.tm.order[0], w.tm.order[i]);
      }
    }
  }

  /** Every step of worker, inserters, pipe and clock keeps the coverage, except exactly a `refresh` that
      loses. */
  lemma StepCoversIff(w: Wake, a: Step)
    requires Inv(w) && CanStep(w, a)
    ensures Valid(Do(w, a).tm) && (Covered(Do(w, a)) <==> !Loses(w, a))
  {
    match a
    case GetNext => GetNextCovers(w);
    case Expire(read) => ExpiryEffect(w.tm, read);
    case Add(_, _, _, _, _) => AddCovers(w, a);
    case Cancel(_) => CancelCovers(w, a);
    case Refresh(_) => RefreshCoversIff(w, a);
    case Reset(_, _, _) => ResetCovers(w, a);
    case OtherGetNext => TickledIrrelevant(w.tm, false);
    case _ =>
  }

  // ---------------------------------------------------------------- runs

  function Begin(now: nat): Wake {
    Wake(State(map[], [], false, now), now, Busy, 0, 0, 0)
  }

  ghost predicate WakeRun(ws: seq<Wake>, steps: seq<Step>) {
    && |ws| == |steps| + 1 && ws[0] == Begin(ws[0].now)
    && forall i {:trigger steps[i]} :: 0 <= i < |steps| ==>
         Valid(ws[i].tm) && CanStep(ws[i], steps[i]) && ws[i + 1] == Do(ws[i], steps[i])
  }

  lemma {:induction false} RunValid(ws: seq<Wake>, steps: seq<Step>, n: nat)
    requires WakeRun(ws, steps) && n <= |steps|
    requires forall i {:trigger steps[i]} :: 0 <= i < n ==> !Loses(ws[i], steps[i])
    ensures Inv(ws[n])
  {
    if n > 0 {
      RunValid(ws, steps, n - 1);
      StepCoversIff(ws[n - 1], steps[n - 1]);
    }
  }

  /**
    No lost timer wake-up, exactly: over a run, in every state an armed timer earlier than the held deadline
    implies a byte in the pipe or an inserter about to write one, if and only if no `refresh` of the run
    loses. Any adds, resets, refreshes, cancels, clock jumps and other `getNextTimer` calls may be
    interleaved.
   */
  lemma NoLostWakeupIff(ws: seq<Wake>, steps: seq<Step>)
    requires WakeRun(ws, steps)
    ensures (forall i :: 0 <= i <= |steps| ==> Covered(ws[i])) <==>
            (forall i {:trigger steps[i]} :: 0 <= i < |steps| ==> !Loses(ws[i], steps[i]))
  {
    if forall i {:trigger steps[i]} :: 0 <= i < |steps| ==> !Loses(ws[i], steps[i]) {
      forall i | 0 <= i <= |steps| ensures Covered(ws[i]) {
        RunValid(ws, steps, i);
      }
    }
    if forall i :: 0 <= i <= |steps| ==> Covered(ws[i]) {
      forall i | 0 <= i < |steps| ensures !Loses(ws[i], steps[i]) {
        assert Covered(ws[i]) && Covered(ws[i + 1]);
        StepCoversIff(ws[i], steps[i]);
      }
    }
  }

  // ---------------------------------------------------------------- a monotone clock and no wrap

  /** The clock does not go back, readings are not ahead of it, and no deadline sum wraps. */
  ghost predicate Sane(w: Wake, a: Step)
    requires CanStep(w, a)
  {
    match a
    case Tick(time) => w.now <= time
    case Expire(read) => read <= w.now && forall x :: x in w.tm.recs ==> read + w.tm.recs[x].ms < WRAP
    case Add(read, _, ms, _, _) => read <= w.now && read + ms < WRAP
    case Refresh(id) => w.now + w.tm.recs[id].ms < WRAP
    case Reset(_, ms, _) => w.now + ms < WRAP
    case _ => true
  }

  predicate BehindRec(r: Rec, now: nat) {
    r.ms <= r.next < WRAP && r.next <= now + r.ms
  }

  /** No deadline is more than its interval ahead of the clock. */
  ghost predicate Behind(s: State, now: nat) {
    forall x :: x in s.recs ==> BehindRec(s.recs[x], now)
  }

  lemma FiredIsBehind(r: Rec, now: nat, read: nat)
    requires BehindRec(r, now) && read <= now && read + r.ms < WRAP
    ensures BehindRec(AfterFire(r, read), now)
  {
    NoWrap(read + r.ms);
  }

  lemma BehindExpire(s: State, now: nat, read: nat)
    requires Valid(s) && Behind(s, now) && read <= now
    requires forall x :: x in s.recs ==> read + s.recs[x].ms < WRAP
    ensures Behind(ListExpired(s, read).0, now)
  {
    ExpiryEffect(s, read);
    var (t, due) := ListExpired(s, read);
    forall x | x in t.recs ensures BehindRec(t.recs[x], now) {
      assert ExpiredRec(s, read, due, t, x);
      FiredIsBehind(s.recs[x], now, read);
    }
  }

  lemma RefreshBehind(s: State, now: nat, id: Id)
    requires Valid(s) && Behind(s, now) && id in s.recs && now + s.recs[id].ms < WRAP
    ensures Behind(Timers.Refresh(s, now, id).0, now)
  {
    RefreshKeeps(s, now, id);
    NoWrap(now + s.recs[id].ms);
  }

  lemma ResetBehind(s: State, now: nat, id: Id, ms: nat, fromNow: bool)
    requires Valid(s) && Behind(s, now) && id in s.recs && now + ms < WRAP
    ensures Behind(Timers.Reset(s, now, id, ms, fromNow).0, now)
  {
    ResetKeeps(s, now, id, ms, fromNow);
    var r := s.recs[id];
    assert BehindRec(r, now);
    ResetNext(r, now, ms, fromNow, if fromNow then now else r.next - r.ms);
  }

  lemma StepBehind(w: Wake, a: Step)
    requires Valid(w.tm) && Behind(w.tm, w.now) && CanStep(w, a) && Sane(w, a)
    ensures Behind(Do(w, a).tm, Do(w, a).now)
  {
    match a
    case Expire(read) => BehindExpire(w.tm, w.now, read);
    case Add(read, _, ms, _, _) => NoWrap(read + ms);
    case Cancel(id) => CancelKeeps(w.tm, id);
    case Refresh(id) => RefreshBehind(w.tm, w.now, id);
    case Reset(id, ms, fromNow) => ResetBehind(w.tm, w.now, id, ms, fromNow);
    case _ =>
  }

  /** There, a `refresh` moves its deadline back, so it cannot lose. */
  lemma SaneLosesNone(w: Wake, a: Step)
    requires Inv(w) && Behind(w.tm, w.now) && CanStep(w, a) && Sane(w, a)
    ensures !Loses(w, a)
  {
    if a.Refresh? && w.tm.recs[a.id].armed {
      var r := w.tm.recs[a.id];
      NoWrap(w.now + r.ms);
      assert InSet(w.tm, a.id);
      assert BehindRec(r, w.now);
    }
  }

  lemma {:induction false} SaneRunCovers(ws: seq<Wake>, steps: seq<Step>, n: nat)
    requires WakeRun(ws, steps) && n <= |steps|
    requires forall i {:trigger steps[i]} :: 0 <= i < n ==> Sane(ws[i], steps[i])
    ensures Inv(ws[n]) && Behind(ws[n].tm, ws[n].now)
  {
    if n > 0 {
      SaneRunCovers(ws, steps, n - 1);
      SaneLosesNone(ws[n - 1], steps[n - 1]);
      StepCoversIff(ws[n - 1], steps[n - 1]);
      StepBehind(ws[n - 1], steps[n - 1]);
    }
  }

  /** No lost timer wake-up: with a monotone clock and no wrapping sums, in every reachable state, if the
      worker holds a deadline and an armed timer is earlier, then a tickle byte is in the pipe or an
      inserter is about to write one. */
  lemma NoLostWakeup(ws: seq<Wake>, steps: seq<Step>, n: nat, k: Key)
    requires WakeRun(ws, steps) && n <= |steps|
    requires forall i {:trigger steps[i]} :: 0 <= i < n ==> Sane(ws[i], steps[i])
    requires ws[n].phase.Holding? && k in ws[n].tm.order && Earlier(k, ws[n].phase)
    ensures Signalled(ws[n])
  {
    SaneRunCovers(ws, steps, n);
  }

  // ---------------------------------------------------------------- a run that loses

  lemma Extend(ws: seq<Wake>, steps: seq<Step>, a: Step) returns (ws': seq<Wake>, steps': seq<Step>)
    requires WakeRun(ws, steps) && Valid(ws[|steps|].tm) && CanStep(ws[|steps|], a)
    ensures WakeRun(ws', steps') && ws' == ws + [Do(ws[|steps|], a)] && steps' == steps + [a]
  {
    ws', steps' := ws + [Do(ws[|steps|], a)], steps + [a];
    forall i | 0 <= i < |steps'|
      ensures Valid(ws'[i].tm) && CanStep(ws'[i], steps'[i]) && ws'[i + 1] == Do(ws'[i], steps'[i])
    {
      if i < |steps| {
        assert steps'[i] == steps[i] && ws'[i] == ws[i] && ws'[i + 1] == ws[i + 1];
      }
    }
  }

  /** One timer, armed for `next`, that nobody announces. */
  function OneTimer(now: nat, id: Id, ms: nat, next: nat, phase: Phase): Wake {
    Wake(State(map[id := Rec(ms, next, true, false, true)], [Key(next, id)], false, 0), now, phase, 0, 0, 0)
  }

  /** While the worker is busy, a timer is added; nobody is idle to be told. */
  lemma AddsOne(id: Id, ms: nat) returns (ws: seq<Wake>, steps: seq<Step>)
    requires ms < WRAP
    ensures steps == [Add(0, id, ms, true, false), LookIdle] && WakeRun(ws, steps)
    ensures var w := OneTimer(0, id, ms, ms, Busy); ws[2] == w.(tm := w.tm.(tickled := true)) && Valid(ws[2].tm)
  {
    ws, steps := [Begin(0)], [];
    NoWrap(0 + ms);
    AddKeeps(ws[0].tm, 0, id, ms, true, false);
    ws, steps := Extend(ws, steps, Add(0, id, ms, true, false));
    assert ws[1].tm.order == [Key(ms, id)];
    ws, steps := Extend(ws, steps, LookIdle);
  }

  /** The worker goes idle with one timer armed, and holds its deadline. */
  lemma HoldsOne(id: Id, ms: nat) returns (ws: seq<Wake>, steps: seq<Step>)
    requires ms < WRAP
    ensures steps == [Add(0, id, ms, true, false), LookIdle, Enter, GetNext] && WakeRun(ws, steps)
    ensures ws[4] == OneTimer(0, id, ms, ms, Holding(0, ms))
  {
    ws, steps := AddsOne(id, ms);
    ws, steps := Extend(ws, steps, Enter);
    ws, steps := Extend(ws, steps, GetNext);
  }

  /** It happens when the sum wraps: the worker holds a deadline, the clock moves on, and a `refresh` whose sum
      wraps puts the timer before it without telling anybody. */
  lemma WrappingRefreshLoses(id: Id, ms: nat, time: nat) returns (ws: seq<Wake>, steps: seq<Step>)
    requires 0 < time < WRAP && 0 < ms < WRAP && WRAP <= time + ms
    ensures steps == [Add(0, id, ms, true, false), LookIdle, Enter, GetNext, Tick(time), Refresh(id)]
    ensures WakeRun(ws, steps) && CanStep(ws[5], Refresh(id)) && Loses(ws[5], Refresh(id))
    ensures var w := ws[6]; var k := Key(time + ms - WRAP, id);
            w.phase == Holding(0, ms) && k in w.tm.order && Earlier(k, w.phase) && !Signalled(w)
  {
    ws, steps := HoldsOne(id, ms);
    var w := OneTimer(0, id, ms, ms, Holding(0, ms));
    OneTimerValid(w, id, ms);
    ws, steps := Extend(ws, steps, Tick(time));
    WrapsTo(time, ms);
    RefreshKeeps(ws[5].tm, time, id);
    RefreshMembers(ws[5].tm, time, id);
    ws, steps := Extend(ws, steps, Refresh(id));
  }

  lemma OneTimerValid(w: Wake, id: Id, ms: nat)
    requires w == OneTimer(0, id, ms, ms, Holding(0, ms))
    ensures Valid(w.tm)
  {}

  lemma WrapsTo(time: nat, ms: nat)
    requires time < WRAP && ms < WRAP && WRAP <= time + ms
    ensures W(time + ms) == time + ms - WRAP
  {}

  /** The state after the inserters alone have moved as far as they can towards one byte. */
  ghost function Delivered(w: Wake): Wake
    requires Valid(w.tm)
  {
    if w.bytes > 0 then w
    else if CanStep(w, WriteByte) then Do(w, WriteByte)
    else if CanStep(w, LookIdle) then
      var w1 := Do(w, LookIdle);
      if CanStep(w1, WriteByte) then Do(w1, WriteByte) else w1
    else w
  }

  /** A signal becomes a byte by the inserters' own next steps, with no help from the idle worker. */
  lemma SignalArrives(w: Wake)
    requires Valid(w.tm) && !w.phase.Busy?
    ensures Signalled(w) <==> Delivered(w).bytes > 0
    ensures Delivered(w).phase == w.phase && Delivered(w).tm == w.tm
  {}

  // ---------------------------------------------------------------- the epoll timeout

  /** The C conversion of an unsigned 64-bit value to a 32-bit `int`. */
  function ToInt32(x: nat): int {
    var m := x % 0x1_0000_0000;
    if m < 0x8000_0000 then m else m - 0x1_0000_0000
  }

  /** The value `idle` passes to `epoll_wait`; a negative one waits without limit. */
  function EpollTimeout(next: nat): int {
    if next != FOREVER then (if ToInt32(next) > 5000 then 5000 else ToInt32(next)) else 5000
  }

  /** The wait is bounded and never longer than asked exactly when the truncated value is not negative;
      otherwise (a timer about 25 days away, say) the worker waits without limit. */
  lemma EpollTimeoutIff(next: nat)
    requires next < WRAP
    ensures 0 <= EpollTimeout(next) <= 5000 && EpollTimeout(next) <= next
            <==> next == FOREVER || next % 0x1_0000_0000 < 0x8000_0000
    ensures next < 0x8000_0000 || next == FOREVER ==> EpollTimeout(next) == if next < 5000 then next else 5000
    ensures EpollTimeout(0x8000_0000) < 0
  {}
}
