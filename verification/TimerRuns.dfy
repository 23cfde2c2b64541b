/**
  Whole runs of the timer manager: any interleaving of its locked operations by any threads. Every
  operation carries the clock value it read, so the clock may do anything unless a lemma says
  otherwise. `log` lists the callbacks handed out by `listExpiredCb`, oldest first.
 */
module TimerRuns {
  import opened Timers

  datatype Op =
    | AddOp(now: nat, id: Id, ms: nat, hasCb: bool, recurring: bool)
    | CancelOp(id: Id)
    | RefreshOp(now: nat, id: Id)
    | ResetOp(now: nat, id: Id, ms: nat, fromNow: bool)
    | NextOp(now: nat)
    | ExpireOp(now: nat)

  /** A callback handed out: whose, at which clock reading, with which interval in force. */
  datatype Fired = Fired(id: Id, at: nat, ms: nat)

  /** `cancelled[id]` is the length of the log when `cancel` on `id` succeeded; `clock` is the largest
      clock reading so far. */
  datatype World = World(tm: State, log: seq<Fired>, cancelled: map<Id, nat>, clock: nat)

  function Start(now: nat): World {
    World(State(map[], [], false, now), [], map[], now)
  }

  /** A new timer has a new address; the others act on an existing timer. */
  predicate Enabled(w: World, op: Op) {
    match op
    case AddOp(_, id, _, _, _) => id !in w.tm.recs
    case CancelOp(id) => id in w.tm.recs
    case RefreshOp(_, id) => id in w.tm.recs
    case ResetOp(_, id, _, _) => id in w.tm.recs
    case NextOp(_) => true
    case ExpireOp(_) => true
  }

  function Later(a: nat, b: nat): nat {
    if a < b then b else a
  }

  function Entry(s: State, now: nat, k: Key): Fired {
    Fired(k.id, now, if k.id in s.recs then s.recs[k.id].ms else 0)
  }

  function Entries(s: State, now: nat, due: seq<Key>): seq<Fired> {
    seq(|due|, i requires 0 <= i < |due| => Entry(s, now, due[i]))
  }

  ghost function Step(w: World, op: Op): World
    requires Valid(w.tm) && Enabled(w, op)
  {
    match op
    case AddOp(now, id, ms, hasCb, recurring) =>
      w.(tm := Add(w.tm, now, id, ms, hasCb, recurring).0, clock := Later(w.clock, now))
    case CancelOp(id) =>
      var (tm, ok) := Cancel(w.tm, id);
      w.(tm := tm, cancelled := if ok then w.cancelled[id := |w.log|] else w.cancelled)
    case RefreshOp(now, id) => w.(tm := Refresh(w.tm, now, id).0, clock := Later(w.clock, now))
    case ResetOp(now, id, ms, fromNow) =>
      w.(tm := Reset(w.tm, now, id, ms, fromNow).0, clock := Later(w.clock, now))
    case NextOp(now) => w.(tm := NextTimer(w.tm, now).0)
    case ExpireOp(now) =>
      var (tm, due) := ListExpired(w.tm, now);
      w.(tm := tm, log := w.log + Entries(w.tm, now, due), clock := Later(w.clock, now))
  }

  /** `ws` are the states of a run of `ops` from a fresh manager. */
  ghost predicate Run(ws: seq<World>, ops: seq<Op>) {
    && |ws| == |ops| + 1 && ws[0] == Start(ws[0].clock)
    && forall i {:trigger ops[i]} :: 0 <= i < |ops| ==>
         Valid(ws[i].tm) && Enabled(ws[i], ops[i]) && ws[i + 1] == Step(ws[i], ops[i])
  }

  // ---------------------------------------------------------------- structure

  /** A one-shot timer in the log is spent. */
  ghost predicate SpentOnce(w: World) {
    && (forall i :: 0 <= i < |w.log| ==> w.log[i].id in w.tm.recs)
    && (forall i :: 0 <= i < |w.log| && !w.tm.recs[w.log[i].id].recurring ==>
          !InSet(w.tm, w.log[i].id) && !w.tm.recs[w.log[i].id].armed)
    && (forall i, j :: 0 <= i < j < |w.log| && w.log[i].id == w.log[j].id ==> w.tm.recs[w.log[i].id].recurring)
  }

  /** A cancelled timer stays out of the set and is not logged after the cancel. */
  ghost predicate SilentAfterCancel(w: World) {
    forall id :: id in w.cancelled ==>
      && id in w.tm.recs && !w.tm.recs[id].armed && !InSet(w.tm, id) && w.cancelled[id] <= |w.log|
      && forall k :: w.cancelled[id] <= k < |w.log| ==> w.log[k].id != id
  }

  ghost predicate Inv(w: World) {
    Valid(w.tm) && SpentOnce(w) && SilentAfterCancel(w)
  }

  /** How one operation may change a timer: a spent or cancelled timer never comes back. */
  ghost predicate Gentle(s: State, t: State) {
    && s.recs.Keys <= t.recs.Keys
    && forall x :: x in s.recs ==>
         && t.recs[x].recurring == s.recs[x].recurring
         && (!s.recs[x].armed ==> !t.recs[x].armed)
         && (!s.recs[x].armed && !InSet(s, x) ==> !InSet(t, x))
  }

  lemma StepIsGentle(w: World, op: Op)
    requires Valid(w.tm) && Enabled(w, op)
    ensures Valid(Step(w, op).tm) && Gentle(w.tm, Step(w, op).tm)
  {
    match op
    case AddOp(now, id, ms, hasCb, recurring) =>
      AddIsGentle(w.tm, now, id, ms, hasCb, recurring);
    case CancelOp(id) => CancelKeeps(w.tm, id);
    case RefreshOp(now, id) => RefreshKeeps(w.tm, now, id);
    case ResetOp(now, id, ms, fromNow) => ResetKeeps(w.tm, now, id, ms, fromNow);
    case NextOp(now) => TickledIrrelevant(w.tm, false);
    case ExpireOp(now) => ExpireIsGentle(w.tm, now);
  }

  lemma AddIsGentle(s: State, now: nat, id: Id, ms: nat, hasCb: bool, recurring: bool)
    requires Valid(s) && id !in s.recs
    ensures var t := Add(s, now, id, ms, hasCb, recurring).0; Valid(t) && Gentle(s, t)
  {
    AddKeeps(s, now, id, ms, hasCb, recurring);
    InsertMembers(s.order, Key(W(now + ms), id));
  }

  lemma ExpireIsGentle(s: State, now: nat)
    requires Valid(s)
    ensures Valid(ListExpired(s, now).0) && Gentle(s, ListExpired(s, now).0)
  {
    ExpiryIsExact(s, now);
  }

  lemma QuietStep(w: World, w': World)
    requires Inv(w) && Valid(w'.tm) && Gentle(w.tm, w'.tm) && w'.log == w.log && w'.cancelled == w.cancelled
    ensures Inv(w')
  {}

  lemma CancelStep(w: World, id: Id)
    requires Inv(w) && id in w.tm.recs
    ensures Inv(Step(w, CancelOp(id)))
  {
    CancelKeeps(w.tm, id);
    StepIsGentle(w, CancelOp(id));
  }

  /** What an expiry does, without how: `due` were distinct members of the set, and each timer's
      record and membership afterwards. */
  ghost predicate ExpiredTo(s: State, now: nat, due: seq<Key>, t: State) {
    && Valid(t) && t.recs.Keys == s.recs.Keys
    && (forall i :: 0 <= i < |due| ==> due[i].id in s.recs && InSet(s, due[i].id) && s.recs[due[i].id].next == due[i].next)
    && (forall i, j :: 0 <= i < j < |due| ==> due[i].id != due[j].id)
    && (forall x :: x in s.recs && x !in Ids(due) ==> t.recs[x] == s.recs[x] && (InSet(t, x) <==> InSet(s, x)))
    && (forall i :: 0 <= i < |due| ==>
          && t.recs[due[i].id] == AfterFire(s.recs[due[i].id], now)
          && (InSet(t, due[i].id) <==> s.recs[due[i].id].recurring))
  }

  lemma ExpiryGoesTo(s: State, now: nat)
    requires Valid(s)
    ensures ExpiredTo(s, now, ListExpired(s, now).1, ListExpired(s, now).0)
  {
    ExpiryIsExact(s, now);
    var due := ListExpired(s, now).1;
    forall i | 0 <= i < |due| ensures due[i].id in Ids(due) && due[i] in s.order {
      assert due[i] in due;
    }
    forall i, j | 0 <= i < j < |due| ensures due[i].id != due[j].id {
      assert due[i] in s.order && due[j] in s.order;
      assert Less(due[i], due[j]);
    }
  }

  /** The log entries an expiry appends. */
  ghost predicate Appended(w: World, now: nat, due: seq<Key>, w': World) {
    && |w'.log| == |w.log| + |due|
    && (forall i :: 0 <= i < |w.log| ==> w'.log[i] == w.log[i])
    && (forall i :: |w.log| <= i < |w'.log| ==> w'.log[i] == Entry(w.tm, now, due[i - |w.log|]))
  }

  lemma ExpireSpends(w: World, now: nat, due: seq<Key>, w': World)
    requires Inv(w) && ExpiredTo(w.tm, now, due, w'.tm) && Appended(w, now, due, w')
    ensures SpentOnce(w')
  {
    var n := |w.log|;
    forall i | 0 <= i < |w'.log|
      ensures w'.log[i].id in w.tm.recs
      ensures w.tm.recs[w'.log[i].id].recurring == w'.tm.recs[w'.log[i].id].recurring
      ensures !w.tm.recs[w'.log[i].id].recurring ==>
                !InSet(w'.tm, w'.log[i].id) && !w'.tm.recs[w'.log[i].id].armed
    {
      if i >= n {
        assert due[i - n].id == w'.log[i].id;
      } else {
        assert w'.log[i] == w.log[i];
        LogRecord(w, now, due, w'.tm, w.log[i].id);
      }
    }
    forall i, j | 0 <= i < j < |w'.log| && w'.log[i].id == w'.log[j].id
      ensures w'.tm.recs[w'.log[i].id].recurring
    {
      if j >= n && i < n {
        assert due[j - n].id == w.log[i].id;
      }
    }
  }

  /** A timer's record after an expiry, in either case. */
  lemma LogRecord(w: World, now: nat, due: seq<Key>, t: State, x: Id)
    requires Inv(w) && ExpiredTo(w.tm, now, due, t) && x in w.tm.recs
    ensures t.recs[x] == w.tm.recs[x] || t.recs[x] == AfterFire(w.tm.recs[x], now)
    ensures !InSet(w.tm, x) ==> t.recs[x] == w.tm.recs[x] && !InSet(t, x)
  {
    if x in Ids(due) {
      var k :| k in due && k.id == x;
      var i :| 0 <= i < |due| && due[i] == k;
    }
  }

  lemma ExpireSilent(w: World, now: nat, due: seq<Key>, w': World)
    requires Inv(w) && ExpiredTo(w.tm, now, due, w'.tm) && Appended(w, now, due, w') && w'.cancelled == w.cancelled
    ensures SilentAfterCancel(w')
  {
    forall id | id in w.cancelled
      ensures && id in w'.tm.recs && !w'.tm.recs[id].armed && !InSet(w'.tm, id) && w.cancelled[id] <= |w'.log|
              && forall k :: w.cancelled[id] <= k < |w'.log| ==> w'.log[k].id != id
    {
      LogRecord(w, now, due, w'.tm, id);
      forall k | w.cancelled[id] <= k < |w'.log| ensures w'.log[k].id != id {
        if k >= |w.log| {
          assert due[k - |w.log|].id == w'.log[k].id;
        }
      }
    }
  }

  lemma EntriesAppended(w: World, now: nat, due: seq<Key>, w': World)
    requires w'.log == w.log + Entries(w.tm, now, due)
    ensures Appended(w, now, due, w')
  {}

  lemma ExpireLogs(w: World, now: nat)
    requires Valid(w.tm)
    ensures var due, w' := ListExpired(w.tm, now).1, Step(w, ExpireOp(now));
            && ExpiredTo(w.tm, now, due, w'.tm) && Appended(w, now, due, w')
            && w'.cancelled == w.cancelled && w'.clock == Later(w.clock, now)
  {
    ExpiryGoesTo(w.tm, now);
    EntriesAppended(w, now, ListExpired(w.tm, now).1, Step(w, ExpireOp(now)));
  }

  lemma ExpireStep(w: World, now: nat)
    requires Inv(w)
    ensures Inv(Step(w, ExpireOp(now)))
  {
    ExpireLogs(w, now);
    var due, w' := ListExpired(w.tm, now).1, Step(w, ExpireOp(now));
    ExpireSpends(w, now, due, w');
    ExpireSilent(w, now, due, w');
  }

  lemma {:induction false} RunKeeps(ws: seq<World>, ops: seq<Op>, n: nat)
    requires Run(ws, ops) && n <= |ops|
    ensures Inv(ws[n])
  {
    if n > 0 {
      RunKeeps(ws, ops, n - 1);
      var w, op := ws[n - 1], ops[n - 1];
      StepKeeps(w, op);
    }
  }

  lemma StepKeeps(w: World, op: Op)
    requires Inv(w) && Enabled(w, op)
    ensures Inv(Step(w, op))
  {
    StepIsGentle(w, op);
    if op.CancelOp? {
      CancelStep(w, op.id);
    } else if op.ExpireOp? {
      ExpireStep(w, op.now);
    } else {
      QuietStep(w, Step(w, op));
    }
  }

  /** In every reachable state: a timer built with a callback is in the set exactly while the callback
      is set; a one-shot timer was handed out at most once; and nothing was handed out for a timer
      after `cancel` on it succeeded. The clock is unconstrained. */
  lemma TimersAreExact(ws: seq<World>, ops: seq<Op>, n: nat)
    requires Run(ws, ops) && n <= |ops|
    ensures var w := ws[n];
            && (forall x :: x in w.tm.recs && w.tm.recs[x].hadCb ==> (InSet(w.tm, x) <==> w.tm.recs[x].armed))
            && (forall i, j :: 0 <= i < j < |w.log| && w.log[i].id == w.log[j].id ==>
                  w.log[i].id in w.tm.recs && w.tm.recs[w.log[i].id].recurring)
            && (forall x, k :: x in w.cancelled && w.cancelled[x] <= k < |w.log| ==> w.log[k].id != x)
  {
    RunKeeps(ws, ops, n);
  }

  // ---------------------------------------------------------------- spacing

  /** Nothing wraps, refreshes and resets read a clock that is not behind earlier readings, and expiry
      sees no rollback. An expiry may still act on a slightly stale reading. */
  ghost predicate Sane(w: World, op: Op) {
    match op
    case AddOp(now, _, ms, _, _) => now + ms < WRAP
    case CancelOp(_) => true
    case RefreshOp(now, id) => id in w.tm.recs && w.clock <= now && now + w.tm.recs[id].ms < WRAP
    case ResetOp(now, id, ms, fromNow) =>
      && id in w.tm.recs && w.clock <= now
      && (if fromNow then now else StartOf(w.tm.recs[id])) + ms < WRAP
    case NextOp(_) => true
    case ExpireOp(now) =>
      && !Rollover(w.tm.previous, now)
      && forall x :: x in w.tm.recs ==> now + w.tm.recs[x].ms < WRAP
  }

  /** Every recurring timer's deadline is at least its interval after each of its past firings. */
  ghost predicate Spaced(w: World) {
    && (forall x :: x in w.tm.recs ==> w.tm.recs[x].ms <= w.tm.recs[x].next < WRAP)
    && (forall i :: 0 <= i < |w.log| ==> w.log[i].at <= w.clock && w.log[i].id in w.tm.recs)
    && (forall i :: 0 <= i < |w.log| ==> NextIsAhead(w.tm, w.log[i]))
    && (forall i, j :: 0 <= i < j < |w.log| ==> Apart(w.log[i], w.log[j]))
  }

  predicate NextIsAhead(tm: State, e: Fired) {
    e.id in tm.recs && (tm.recs[e.id].recurring ==> tm.recs[e.id].next >= e.at + tm.recs[e.id].ms)
  }

  predicate Apart(e: Fired, e': Fired) {
    e.id == e'.id ==> e'.at >= e.at + e'.ms
  }

  lemma StartIs(r: Rec)
    requires r.ms <= r.next < WRAP
    ensures StartOf(r) == r.next - r.ms
  {}

  lemma NoWrap(x: nat)
    requires x < WRAP
    ensures W(x) == x
  {}

  /** Changing the record of one timer keeps the spacing if its new deadline is far enough from its
      past firings. */
  lemma SpacedUpdate(w: World, w': World, id: Id, r: Rec)
    requires Spaced(w) && w'.log == w.log && w.clock <= w'.clock
    requires w'.tm.recs == w.tm.recs[id := r] && r.ms <= r.next < WRAP
    requires id in w.tm.recs ==> r.recurring == w.tm.recs[id].recurring
    requires forall i :: 0 <= i < |w.log| && w.log[i].id == id && r.recurring ==> r.next >= w.log[i].at + r.ms
    ensures Spaced(w')
  {}

  lemma SpacedSame(w: World, w': World)
    requires Spaced(w) && w'.log == w.log && w.clock <= w'.clock && w'.tm.recs == w.tm.recs
    ensures Spaced(w')
  {}

  lemma SpacedRefresh(w: World, now: nat, id: Id)
    requires Inv(w) && Spaced(w) && Enabled(w, RefreshOp(now, id)) && Sane(w, RefreshOp(now, id))
    ensures Spaced(Step(w, RefreshOp(now, id)))
  {
    var w', r := Step(w, RefreshOp(now, id)), w.tm.recs[id];
    RefreshKeeps(w.tm, now, id);
    NoWrap(now + r.ms);
    if r.armed {
      SpacedUpdate(w, w', id, RefreshRec(r, now));
    } else {
      SpacedSame(w, w');
    }
  }

  lemma ResetNext(r: Rec, now: nat, ms: nat, fromNow: bool, start: nat)
    requires r.ms <= r.next < WRAP && start == (if fromNow then now else r.next - r.ms) && start + ms < WRAP
    ensures ResetRec(r, now, ms, fromNow) == r.(ms := ms, next := start + ms)
  {
    StartIs(r);
    NoWrap(start + ms);
  }

  lemma SpacedReset(w: World, now: nat, id: Id, ms: nat, fromNow: bool)
    requires Inv(w) && Spaced(w) && id in w.tm.recs && Sane(w, ResetOp(now, id, ms, fromNow))
    ensures Spaced(Step(w, ResetOp(now, id, ms, fromNow)))
  {
    var w', r := Step(w, ResetOp(now, id, ms, fromNow)), w.tm.recs[id];
    ResetKeeps(w.tm, now, id, ms, fromNow);
    StartIs(r);
    var start := if fromNow then now else r.next - r.ms;
    ResetNext(r, now, ms, fromNow, start);
    if r.armed && !(ms == r.ms && !fromNow) {
      SpacedUpdate(w, w', id, r.(ms := ms, next := start + ms));
    } else {
      SpacedSame(w, w');
    }
  }

  lemma SpacedQuiet(w: World, op: Op)
    requires Inv(w) && Spaced(w) && Enabled(w, op) && Sane(w, op) && !op.ExpireOp?
    ensures Spaced(Step(w, op))
  {
    match op
    case AddOp(now, id, ms, hasCb, recurring) =>
      NoWrap(now + ms);
      SpacedUpdate(w, Step(w, op), id, Rec(ms, W(now + ms), hasCb, recurring, hasCb));
    case CancelOp(id) =>
      if w.tm.recs[id].armed {
        SpacedUpdate(w, Step(w, op), id, w.tm.recs[id].(armed := false));
      }
    case RefreshOp(now, id) => SpacedRefresh(w, now, id);
    case ResetOp(now, id, ms, fromNow) => SpacedReset(w, now, id, ms, fromNow);
    case NextOp(now) => SpacedSame(w, Step(w, op));
  }

  /** A timer handed out without a rollback is due: its deadline is not after the reading. */
  lemma DueIsDue(s: State, now: nat)
    requires Valid(s) && !Rollover(s.previous, now)
    ensures forall i :: 0 <= i < |ListExpired(s, now).1| ==> ListExpired(s, now).1[i].next <= now
  {
    ExpiryIsExact(s, now);
    var due := ListExpired(s, now).1;
    forall i | 0 <= i < |due| ensures due[i].next <= now {
      assert due[i] in due;
    }
  }

  /** What an expiry may do to a record: keep it, or move a due deadline one interval past `now`. */
  predicate NotEarlier(r: Rec, r': Rec) {
    && r'.ms == r.ms <= r'.next < WRAP && r'.recurring == r.recurring
    && (r.recurring ==> r'.next >= r.next)
  }

  lemma FiredLater(r: Rec, now: nat)
    requires r.ms <= r.next < WRAP && r.next <= now && now + r.ms < WRAP
    ensures NotEarlier(r, AfterFire(r, now))
  {
    NoWrap(now + r.ms);
  }

  lemma SpacedRecords(w: World, now: nat, due: seq<Key>, t: State, x: Id)
    requires Inv(w) && Spaced(w) && ExpiredTo(w.tm, now, due, t) && x in w.tm.recs && now + w.tm.recs[x].ms < WRAP
    requires forall i :: 0 <= i < |due| ==> due[i].next <= now
    ensures x in t.recs && NotEarlier(w.tm.recs[x], t.recs[x])
  {
    LogRecord(w, now, due, t, x);
    if x in Ids(due) {
      var k :| k in due && k.id == x;
      var i :| 0 <= i < |due| && due[i] == k;
      FiredLater(w.tm.recs[x], now);
    }
  }

  /** Log entry `i` is a firing at `now` of a timer that was due; a recurring one is one interval ahead. */
  ghost predicate FiresAt(w: World, now: nat, w': World, i: nat) {
    i < |w'.log| && var e := w'.log[i];
    && e.at == now && e.id in w.tm.recs && e.id in w'.tm.recs && e.ms == w.tm.recs[e.id].ms && w.tm.recs[e.id].next <= now
    && (w.tm.recs[e.id].recurring ==> w'.tm.recs[e.id].next == now + w.tm.recs[e.id].ms)
  }

  lemma NewEntry(w: World, now: nat, due: seq<Key>, w': World, i: nat)
    requires ExpiredTo(w.tm, now, due, w'.tm) && Appended(w, now, due, w') && |w.log| <= i < |w'.log|
    requires forall j :: 0 <= j < |due| ==> due[j].next <= now
    requires forall x :: x in w.tm.recs ==> now + w.tm.recs[x].ms < WRAP
    ensures FiresAt(w, now, w', i)
  {
    var k := due[i - |w.log|];
    NoWrap(now + w.tm.recs[k.id].ms);
  }

  /** What an expiry without rollback does, as far as spacing goes. */
  ghost predicate Fires(w: World, now: nat, due: seq<Key>, w': World) {
    && ExpiredTo(w.tm, now, due, w'.tm) && Appended(w, now, due, w') && w'.clock == Later(w.clock, now)
    && (forall i :: 0 <= i < |due| ==> due[i].next <= now)
    && (forall x :: x in w.tm.recs ==> now + w.tm.recs[x].ms < WRAP)
  }

  lemma FiringKeepsAhead(w: World, now: nat, due: seq<Key>, w': World, i: nat)
    requires Inv(w) && Spaced(w) && Fires(w, now, due, w') && i < |w'.log|
    ensures NextIsAhead(w'.tm, w'.log[i])
  {
    if i < |w.log| {
      assert NextIsAhead(w.tm, w.log[i]);
      SpacedRecords(w, now, due, w'.tm, w.log[i].id);
    } else {
      NewEntry(w, now, due, w', i);
      SpacedRecords(w, now, due, w'.tm, w'.log[i].id);
    }
  }

  lemma FiringKeepsApart(w: World, now: nat, due: seq<Key>, w': World, i: nat, j: nat)
    requires Inv(w) && Spaced(w) && Fires(w, now, due, w') && i < j < |w'.log|
    ensures Apart(w'.log[i], w'.log[j])
  {
    var n := |w.log|;
    if j < n {
      assert Apart(w.log[i], w.log[j]);
    } else {
      NewEntry(w, now, due, w', j);
      if i < n && w.log[i].id == w'.log[j].id {
        assert NextIsAhead(w.tm, w.log[i]);
        assert InSet(w.tm, due[j - n].id);
      }
    }
  }

  lemma SpacedFiring(w: World, now: nat, due: seq<Key>, w': World)
    requires Inv(w) && Spaced(w) && Fires(w, now, due, w')
    ensures Spaced(w')
  {
    forall x | x in w.tm.recs ensures x in w'.tm.recs && NotEarlier(w.tm.recs[x], w'.tm.recs[x]) {
      SpacedRecords(w, now, due, w'.tm, x);
    }
    forall i | 0 <= i < |w'.log| ensures NextIsAhead(w'.tm, w'.log[i]) && w'.log[i].at <= w'.clock {
      FiringKeepsAhead(w, now, due, w', i);
      if i >= |w.log| {
        NewEntry(w, now, due, w', i);
      }
    }
    forall i, j | 0 <= i < j < |w'.log| ensures Apart(w'.log[i], w'.log[j]) {
      FiringKeepsApart(w, now, due, w', i, j);
    }
  }

  lemma SpacedExpire(w: World, now: nat)
    requires Inv(w) && Spaced(w) && Sane(w, ExpireOp(now))
    ensures Spaced(Step(w, ExpireOp(now)))
  {
    ExpireLogs(w, now);
    DueIsDue(w.tm, now);
    SpacedFiring(w, now, ListExpired(w.tm, now).1, Step(w, ExpireOp(now)));
  }

  ghost predicate SaneRun(ws: seq<World>, ops: seq<Op>) {
    Run(ws, ops) && forall i {:trigger ops[i]} :: 0 <= i < |ops| ==> Sane(ws[i], ops[i])
  }

  lemma {:induction false} SaneRunKeeps(ws: seq<World>, ops: seq<Op>, n: nat)
    requires SaneRun(ws, ops) && n <= |ops|
    ensures Spaced(ws[n])
  {
    if n > 0 {
      SaneRunKeeps(ws, ops, n - 1);
      RunKeeps(ws, ops, n - 1);
      var op := ops[n - 1];
      if op.ExpireOp? {
        SpacedExpire(ws[n - 1], op.now);
      } else {
        SpacedQuiet(ws[n - 1], op);
      }
    }
  }

  /** Under such a clock, two firings of one timer are at least as far apart as the interval in force
      at the later one, through any refreshes and resets in between. */
  lemma FiringsAreSpaced(ws: seq<World>, ops: seq<Op>, n: nat, i: nat, j: nat)
    requires SaneRun(ws, ops) && n <= |ops| && i < j < |ws[n].log|
    requires ws[n].log[i].id == ws[n].log[j].id
    ensures ws[n].log[j].at >= ws[n].log[i].at + ws[n].log[j].ms
  {
    SaneRunKeeps(ws, ops, n);
  }

  /** The sums that set a deadline put it one interval ahead exactly when they do not wrap; otherwise
      the timer is due at once. */
  lemma DeadlineAheadIff(r: Rec, now: nat)
    requires r.ms < WRAP && now < WRAP
    ensures RefreshRec(r, now).next == now + r.ms <==> now + r.ms < WRAP
    ensures now + r.ms >= WRAP ==> RefreshRec(r, now).next < now
  {}
}
