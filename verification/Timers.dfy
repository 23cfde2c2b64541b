/**
  `Timer` and `TimerManager` (chat/timer.cc). `m_timers` is a `std::set` ordered by deadline and,
  for equal deadlines, by address; here it is the sorted sequence of its keys. A timer's address
  is its id. All 64-bit sums and differences wrap as in the source.
 */
module Timers {

  type Id = nat

  const WRAP := 0x1_0000_0000_0000_0000
  const FOREVER := WRAP - 1
  const HOUR := 60 * 60 * 1000

  function W(x: int): (r: nat)
    ensures r < WRAP
  {
    x % WRAP
  }

  /** One timer: interval, deadline, whether `m_cb` is still set, whether it recurs, and whether it
      was constructed with a callback. */
  datatype Rec = Rec(ms: nat, next: nat, armed: bool, recurring: bool, hadCb: bool)

  datatype Key = Key(next: nat, id: Id)

  // ---------------------------------------------------------------- the ordered set

  /** The comparator, on two non-null timers. */
  predicate Less(a: Key, b: Key) {
    a.next < b.next || (a.next == b.next && a.id < b.id)
  }

  ghost predicate Sorted(s: seq<Key>) {
    forall i, j :: 0 <= i < j < |s| ==> Less(s[i], s[j])
  }

  function Insert(s: seq<Key>, k: Key): seq<Key> {
    if s == [] || Less(k, s[0]) then [k] + s else [s[0]] + Insert(s[1..], k)
  }

  function Erase(s: seq<Key>, k: Key): seq<Key> {
    if s == [] then [] else if s[0] == k then s[1..] else [s[0]] + Erase(s[1..], k)
  }

  lemma {:induction false} InsertMembers(s: seq<Key>, k: Key)
    ensures forall x :: x in Insert(s, k) <==> x in s || x == k
  {
    if s != [] && !Less(k, s[0]) {
      InsertMembers(s[1..], k);
      assert s == [s[0]] + s[1..];
    }
  }

  lemma {:induction false} InsertSorted(s: seq<Key>, k: Key)
    requires Sorted(s) && k !in s
    ensures Sorted(Insert(s, k))
  {
    if s != [] && !Less(k, s[0]) {
      InsertSorted(s[1..], k);
      InsertMembers(s[1..], k);
      var r := Insert(s[1..], k);
      forall i | 0 <= i < |r| ensures Less(s[0], r[i]) {
        assert r[i] in r;
        assert r[i] in s[1..] || r[i] == k;
      }
    }
  }

  lemma {:induction false} EraseMembers(s: seq<Key>, k: Key)
    requires Sorted(s)
    ensures forall x :: x in Erase(s, k) <==> x in s && x != k
    ensures Sorted(Erase(s, k))
  {
    if s != [] {
      assert s == [s[0]] + s[1..];
      if s[0] == k {
        assert k !in s[1..];
      } else {
        EraseMembers(s[1..], k);
        var r := Erase(s[1..], k);
        forall i | 0 <= i < |r| ensures Less(s[0], r[i]) {
          assert r[i] in r;
          assert r[i] in s[1..];
        }
      }
    }
  }

  /** How many leading keys are due at `now`. */
  function Cut(s: seq<Key>, now: nat): (n: nat)
    ensures n <= |s|
  {
    if s == [] || s[0].next > now then 0 else 1 + Cut(s[1..], now)
  }

  lemma {:induction false} CutSplits(s: seq<Key>, now: nat)
    requires Sorted(s)
    ensures forall i :: 0 <= i < |s| ==> (s[i].next <= now <==> i < Cut(s, now))
  {
    if s != [] {
      if s[0].next <= now {
        CutSplits(s[1..], now);
        forall i | 0 <= i < |s| ensures s[i].next <= now <==> i < Cut(s, now) {
          if i > 0 {
            assert s[i] == s[1..][i - 1];
          }
        }
      } else {
        forall i | 0 <= i < |s| ensures s[i].next > now {
          if i > 0 {
            assert Less(s[0], s[i]);
          }
        }
      }
    }
  }

  // ---------------------------------------------------------------- state

  datatype State = State(recs: map<Id, Rec>, order: seq<Key>, tickled: bool, previous: nat)

  predicate InSet(s: State, id: Id) {
    id in s.recs && Key(s.recs[id].next, id) in s.order
  }

  /** Set order is strict, every key in the set is its timer's current deadline, and a timer built
      with a callback is in the set exactly while its callback is set. */
  ghost predicate Valid(s: State) {
    && Sorted(s.order)
    && (forall k :: k in s.order ==> k.id in s.recs && s.recs[k.id].next == k.next)
    && (forall id :: id in s.recs && s.recs[id].hadCb ==> (s.recs[id].armed <==> InSet(s, id)))
    && (forall id :: id in s.recs && !s.recs[id].hadCb ==> !s.recs[id].armed)
  }

  /** Change an interval or deadline: allowed only for a timer outside the set. */
  function Rekey(s: State, id: Id, ms: nat, next: nat): State
    requires id in s.recs && !InSet(s, id)
  {
    s.(recs := s.recs[id := s.recs[id].(ms := ms, next := next)])
  }

  function Remove(s: State, id: Id): State
    requires id in s.recs
  {
    s.(order := Erase(s.order, Key(s.recs[id].next, id)))
  }

  /** The private `addTimer`: insert, and report whether the caller must tickle. */
  function Put(s: State, id: Id): (State, bool)
    requires id in s.recs
  {
    var order := Insert(s.order, Key(s.recs[id].next, id));
    var front := order[0].id == id && !s.tickled;
    (s.(order := order, tickled := s.tickled || front), front)
  }

  // ---------------------------------------------------------------- operations

  function Add(s: State, now: nat, id: Id, ms: nat, hasCb: bool, recurring: bool): (State, bool)
    requires id !in s.recs
  {
    Put(s.(recs := s.recs[id := Rec(ms, W(now + ms), hasCb, recurring, hasCb)]), id)
  }

  function Cancel(s: State, id: Id): (State, bool)
    requires id in s.recs
  {
    if s.recs[id].armed then
      (Remove(s, id).(recs := s.recs[id := s.recs[id].(armed := false)]), true)
    else (s, false)
  }

  lemma RemoveLeaves(s: State, id: Id)
    requires Valid(s) && id in s.recs
    ensures !InSet(Remove(s, id), id)
  {
    EraseMembers(s.order, Key(s.recs[id].next, id));
  }

  function RefreshRec(r: Rec, now: nat): Rec {
    r.(next := W(now + r.ms))
  }

  /** `refresh` re-inserts directly and never asks for a tickle. */
  ghost function Refresh(s: State, now: nat, id: Id): (State, bool)
    requires Valid(s) && id in s.recs
  {
    if !s.recs[id].armed then (s, false)
    else
      var r := RefreshRec(s.recs[id], now);
      RemoveLeaves(s, id);
      var s1 := Rekey(Remove(s, id), id, r.ms, r.next);
      (s1.(order := Insert(s1.order, Key(r.next, id))), true)
  }

  /** The start of the current period, as `reset` computes it. */
  function StartOf(r: Rec): nat {
    W(r.next - r.ms)
  }

  /** The record after a `reset` that takes effect. */
  function ResetRec(r: Rec, now: nat, ms: nat, fromNow: bool): Rec {
    var start := if fromNow then now else StartOf(r);
    r.(ms := ms, next := W(start + ms))
  }

  /** `reset`: the new state, the result, and whether the caller must tickle. */
  ghost function Reset(s: State, now: nat, id: Id, ms: nat, fromNow: bool): (State, bool, bool)
    requires Valid(s) && id in s.recs
  {
    var r := s.recs[id];
    if ms == r.ms && !fromNow then (s, true, false)
    else if !r.armed then (s, false, false)
    else
      RemoveLeaves(s, id);
      var (t, front) := Put(Rekey(Remove(s, id), id, ms, ResetRec(r, now, ms, fromNow).next), id);
      (t, true, front)
  }

  /** `getNextTimer`: milliseconds to the earliest deadline, 0 if due, the maximum if none. */
  function NextTimer(s: State, now: nat): (r: (State, nat))
  {
    var s' := s.(tickled := false);
    if s.order == [] then (s', FOREVER)
    else if now >= s.order[0].next then (s', 0)
    else (s', s.order[0].next - now)
  }

  ghost predicate AnyDue(s: State, now: nat) {
    exists x :: InSet(s, x) && s.recs[x].next <= now
  }

  /** What `getNextTimer` answers: 0 exactly when some timer of the set is due; otherwise the time from now to
      the least deadline of the set, and the maximum for an empty set. */
  lemma NextTimerIs(s: State, now: nat)
    requires Valid(s)
    ensures var wait := NextTimer(s, now).1;
            && (wait == 0 <==> AnyDue(s, now))
            && (!AnyDue(s, now) ==> forall x :: InSet(s, x) ==> now + wait <= s.recs[x].next)
            && (!AnyDue(s, now) && s.order != [] ==> exists x :: InSet(s, x) && s.recs[x].next == now + wait)
            && ((forall x :: !InSet(s, x)) ==> wait == 0xFFFF_FFFF_FFFF_FFFF)
  {
    if s.order != [] {
      var k := s.order[0];
      assert k in s.order && InSet(s, k.id);
      forall x | InSet(s, x) ensures k.next <= s.recs[x].next {
        var i :| 0 <= i < |s.order| && s.order[i] == Key(s.recs[x].next, x);
        assert i > 0 ==> Less(s.order[0], s.order[i]);
      }
    }
  }

  /** `detectClockRollover`: the subtraction wraps for clocks within the first hour. */
  predicate Rollover(previous: nat, now: nat) {
    now < previous && now < W(previous - HOUR)
  }

  lemma RolloverIsAnHourBack(previous: nat, now: nat)
    requires previous < WRAP
    ensures previous >= 3_600_000 ==> (Rollover(previous, now) <==> now + 3_600_000 < previous)
    ensures previous < 3_600_000 ==> (Rollover(previous, now) <==> now < previous)
  {}

  /** Hand out one expired timer: recurring ones are re-inserted, others lose their callback. */
  function Fire(s: State, now: nat, id: Id): State
    requires id in s.recs && !InSet(s, id)
  {
    if s.recs[id].recurring then
      var next := W(now + s.recs[id].ms);
      var s1 := Rekey(s, id, s.recs[id].ms, next);
      s1.(order := Insert(s1.order, Key(next, id)))
    else
      s.(recs := s.recs[id := s.recs[id].(armed := false)])
  }

  predicate Ready(s: State, due: seq<Key>) {
    && (forall i :: 0 <= i < |due| ==> due[i].id in s.recs && !InSet(s, due[i].id))
    && (forall i, j :: 0 <= i < j < |due| ==> due[i].id != due[j].id)
  }

  lemma FireFrame(s: State, now: nat, id: Id)
    requires id in s.recs && !InSet(s, id)
    ensures Fire(s, now, id).recs.Keys == s.recs.Keys
    ensures forall x :: x in s.recs && x != id ==>
              Fire(s, now, id).recs[x] == s.recs[x] && (InSet(Fire(s, now, id), x) <==> InSet(s, x))
  {
    if s.recs[id].recurring {
      InsertMembers(s.order, Key(W(now + s.recs[id].ms), id));
    }
  }

  lemma ReadyStep(s: State, now: nat, due: seq<Key>)
    requires due != [] && Ready(s, due)
    ensures Ready(Fire(s, now, due[0].id), due[1..])
  {
    FireFrame(s, now, due[0].id);
  }

  ghost function FireAll(s: State, now: nat, due: seq<Key>): State
    requires Ready(s, due)
    decreases |due|
  {
    if due == [] then s
    else
      ReadyStep(s, now, due);
      FireAll(Fire(s, now, due[0].id), now, due[1..])
  }

  /** How many keys `listExpiredCb` takes. */
  function Due(s: State, now: nat): (n: nat)
    ensures n <= |s.order|
  {
    if Rollover(s.previous, now) then |s.order| else Cut(s.order, now)
  }

  lemma DueReady(s: State, n: nat)
    requires Valid(s) && n <= |s.order|
    ensures Ready(s.(order := s.order[n..]), s.order[..n])
  {
    var t := s.(order := s.order[n..]);
    forall i | 0 <= i < n ensures s.order[i].id in s.recs && !InSet(t, s.order[i].id) {
      var k := s.order[i];
      assert k in s.order;
      assert forall j :: n <= j < |s.order| ==> Less(k, s.order[j]);
    }
    forall i, j | 0 <= i < j < n ensures s.order[i].id != s.order[j].id {
      assert s.order[i] in s.order && s.order[j] in s.order;
      assert Less(s.order[i], s.order[j]);
    }
  }

  /** `listExpiredCb`: the new state and the keys handed out, in order. An empty set returns before
      the clock is looked at. */
  ghost function ListExpired(s: State, now: nat): (State, seq<Key>)
    requires Valid(s)
  {
    if s.order == [] then (s, [])
    else
      var n := Due(s, now);
      DueReady(s, n);
      (FireAll(s.(order := s.order[n..], previous := now), now, s.order[..n]), s.order[..n])
  }

  // ---------------------------------------------------------------- what every operation keeps

  /** Valid, except that the timers `out` are outside the set whatever their callback. */
  ghost predicate ValidBut(s: State, out: set<Id>) {
    && Sorted(s.order)
    && (forall k :: k in s.order ==> k.id in s.recs && s.recs[k.id].next == k.next)
    && (forall id :: id in s.recs && s.recs[id].hadCb && id !in out ==> (s.recs[id].armed <==> InSet(s, id)))
    && (forall id :: id in s.recs && !s.recs[id].hadCb ==> !s.recs[id].armed)
    && (forall id :: id in out ==> id in s.recs && !InSet(s, id) && (s.recs[id].hadCb ==> s.recs[id].armed))
  }

  lemma InsertKeeps(s: State, id: Id, out: set<Id>)
    requires ValidBut(s, out) && id in out
    ensures ValidBut(s.(order := Insert(s.order, Key(s.recs[id].next, id))), out - {id})
  {
    var k := Key(s.recs[id].next, id);
    InsertSorted(s.order, k);
    InsertMembers(s.order, k);
  }

  /** Give a timer outside the set a new interval and deadline and insert it. */
  function Reinsert(s: State, id: Id, r: Rec): State
    requires id in s.recs
  {
    s.(recs := s.recs[id := r], order := Insert(s.order, Key(r.next, id)))
  }

  lemma ReinsertKeeps(s: State, id: Id, r: Rec, out: set<Id>)
    requires ValidBut(s, out) && id in out
    requires r.armed == s.recs[id].armed && r.hadCb == s.recs[id].hadCb
    ensures ValidBut(Reinsert(s, id, r), out - {id})
    ensures forall x :: x in s.recs ==> (InSet(Reinsert(s, id, r), x) <==> x == id || InSet(s, x))
  {
    var s1 := s.(recs := s.recs[id := r]);
    assert forall k :: k in s.order ==> k.id != id;
    assert ValidBut(s1, out);
    InsertKeeps(s1, id, out);
    InsertMembers(s.order, Key(r.next, id));
  }

  lemma RemoveKeeps(s: State, id: Id)
    requires Valid(s) && id in s.recs && s.recs[id].armed
    ensures ValidBut(Remove(s, id), {id})
    ensures forall x :: x in s.recs ==> (InSet(Remove(s, id), x) <==> x != id && InSet(s, x))
  {
    EraseMembers(s.order, Key(s.recs[id].next, id));
  }

  lemma AddKeeps(s: State, now: nat, id: Id, ms: nat, hasCb: bool, recurring: bool)
    requires Valid(s) && id !in s.recs
    ensures Valid(Add(s, now, id, ms, hasCb, recurring).0)
    ensures InSet(Add(s, now, id, ms, hasCb, recurring).0, id)
  {
    var s1 := s.(recs := s.recs[id := Rec(ms, W(now + ms), hasCb, recurring, hasCb)]);
    assert Key(W(now + ms), id) !in s.order;
    assert ValidBut(s1, {id});
    InsertKeeps(s1, id, {id});
    InsertMembers(s1.order, Key(W(now + ms), id));
  }

  /** A successful `cancel` found its entry, took it out, and left every other timer alone. */
  lemma CancelKeeps(s: State, id: Id)
    requires Valid(s) && id in s.recs
    ensures Valid(Cancel(s, id).0)
    ensures Cancel(s, id).1 ==> InSet(s, id) && !InSet(Cancel(s, id).0, id) && !Cancel(s, id).0.recs[id].armed
    ensures forall x :: x in s.recs && x != id ==>
              Cancel(s, id).0.recs[x] == s.recs[x] && (InSet(Cancel(s, id).0, x) <==> InSet(s, x))
  {
    EraseMembers(s.order, Key(s.recs[id].next, id));
  }

  lemma RefreshKeeps(s: State, now: nat, id: Id)
    requires Valid(s) && id in s.recs
    ensures Valid(Refresh(s, now, id).0)
    ensures var t := Refresh(s, now, id).0;
            && t.recs == (if s.recs[id].armed then s.recs[id := RefreshRec(s.recs[id], now)] else s.recs)
            && forall x :: x in s.recs ==> (InSet(t, x) <==> InSet(s, x))
  {
    if s.recs[id].armed {
      RemoveKeeps(s, id);
      ReinsertKeeps(Remove(s, id), id, RefreshRec(s.recs[id], now), {id});
      assert {id} - {id} == {};
      assert Refresh(s, now, id).0 == Reinsert(Remove(s, id), id, RefreshRec(s.recs[id], now));
    }
  }

  lemma ResetKeeps(s: State, now: nat, id: Id, ms: nat, fromNow: bool)
    requires Valid(s) && id in s.recs
    ensures Valid(Reset(s, now, id, ms, fromNow).0)
    ensures var t := Reset(s, now, id, ms, fromNow).0;
            && t.recs == (if s.recs[id].armed && !(ms == s.recs[id].ms && !fromNow)
                          then s.recs[id := ResetRec(s.recs[id], now, ms, fromNow)] else s.recs)
            && forall x :: x in s.recs ==> (InSet(t, x) <==> InSet(s, x))
  {
    var r := s.recs[id];
    if r.armed && !(ms == r.ms && !fromNow) {
      var r' := ResetRec(r, now, ms, fromNow);
      RemoveKeeps(s, id);
      ReinsertKeeps(Remove(s, id), id, r', {id});
      assert {id} - {id} == {};
      var t, u := Reset(s, now, id, ms, fromNow).0, Reinsert(Remove(s, id), id, r');
      assert t == u.(tickled := t.tickled);
      TickledIrrelevant(u, t.tickled);
    }
  }

  lemma TickledIrrelevant(s: State, tickled: bool)
    ensures Valid(s) ==> Valid(s.(tickled := tickled))
    ensures forall x :: InSet(s.(tickled := tickled), x) <==> InSet(s, x)
  {}

  // ---------------------------------------------------------------- expiry is exact

  ghost function Ids(due: seq<Key>): set<Id> {
    set k | k in due :: k.id
  }

  /** What handing out a timer does to its record. */
  function AfterFire(r: Rec, now: nat): Rec {
    if r.recurring then r.(next := W(now + r.ms)) else r.(armed := false)
  }

  lemma FireKeeps(s: State, now: nat, id: Id, out: set<Id>)
    requires ValidBut(s, out) && id in out
    ensures ValidBut(Fire(s, now, id), out - {id})
    ensures Fire(s, now, id).recs == s.recs[id := AfterFire(s.recs[id], now)]
    ensures InSet(Fire(s, now, id), id) <==> s.recs[id].recurring
  {
    if s.recs[id].recurring {
      ReinsertKeeps(s, id, AfterFire(s.recs[id], now), out);
      assert Fire(s, now, id) == Reinsert(s, id, AfterFire(s.recs[id], now));
    }
  }

  lemma {:induction false} FireAllEffect(s: State, now: nat, due: seq<Key>)
    requires Ready(s, due) && ValidBut(s, Ids(due))
    ensures Valid(FireAll(s, now, due)) && FireAll(s, now, due).recs.Keys == s.recs.Keys
    ensures var t := FireAll(s, now, due);
            forall x :: x in s.recs ==>
              && t.recs[x] == (if x in Ids(due) then AfterFire(s.recs[x], now) else s.recs[x])
              && (InSet(t, x) <==> if x in Ids(due) then s.recs[x].recurring else InSet(s, x))
    ensures FireAll(s, now, due).tickled == s.tickled && FireAll(s, now, due).previous == s.previous
    decreases |due|
  {
    if due != [] {
      var id, rest := due[0].id, due[1..];
      assert due[0] in due;
      FireKeeps(s, now, id, Ids(due));
      FireFrame(s, now, id);
      ReadyStep(s, now, due);
      assert Ids(due) - {id} == Ids(rest) by {
        assert due == [due[0]] + rest;
        assert id !in Ids(rest);
      }
      FireAllEffect(Fire(s, now, id), now, rest);
    }
  }

  lemma TakeKeeps(s: State, n: nat, previous: nat)
    requires Valid(s) && n <= |s.order|
    ensures ValidBut(s.(order := s.order[n..], previous := previous), Ids(s.order[..n]))
    ensures forall x :: x in s.recs && x !in Ids(s.order[..n]) ==>
              (InSet(s.(order := s.order[n..], previous := previous), x) <==> InSet(s, x))
  {
    var t := s.(order := s.order[n..], previous := previous);
    DueReady(s, n);
    assert s.order == s.order[..n] + s.order[n..];
    forall x | x in Ids(s.order[..n]) ensures x in t.recs && !InSet(t, x) && (s.recs[x].hadCb ==> s.recs[x].armed) {
      var k :| k in s.order[..n] && k.id == x;
      assert k in s.order && InSet(s, x);
    }
  }

  /** The keys handed out are the due ones, in order. */
  lemma DueIsExact(s: State, now: nat)
    requires Valid(s)
    ensures var due := ListExpired(s, now).1;
            Sorted(due) && forall k :: k in due <==> k in s.order && (Rollover(s.previous, now) || k.next <= now)
  {
    if s.order != [] {
      CutSplits(s.order, now);
    }
  }

  ghost predicate ExpiredRec(s: State, now: nat, due: seq<Key>, t: State, x: Id)
    requires x in s.recs && x in t.recs
  {
    && t.recs[x] == (if x in Ids(due) then AfterFire(s.recs[x], now) else s.recs[x])
    && (InSet(t, x) <==> if x in Ids(due) then s.recs[x].recurring else InSet(s, x))
  }

  lemma ExpiryEffect(s: State, now: nat)
    requires Valid(s)
    ensures var (t, due) := ListExpired(s, now);
            && Valid(t) && t.recs.Keys == s.recs.Keys
            && forall x :: x in s.recs ==> ExpiredRec(s, now, due, t, x)
  {
    if s.order != [] {
      var n := Due(s, now);
      DueReady(s, n);
      TakeKeeps(s, n, now);
      FireAllEffect(s.(order := s.order[n..], previous := now), now, s.order[..n]);
    }
  }

  /** `next` is `ms` after `start`, as a 64-bit sum. */
  predicate After(next: nat, start: int, ms: nat) {
    next < WRAP && (next - start - ms) % WRAP == 0
  }

  /** A new timer is due one interval after the clock reading. */
  lemma AddDeadline(s: State, now: nat, id: Id, ms: nat, hasCb: bool, recurring: bool)
    requires Valid(s) && id !in s.recs
    ensures var r := Add(s, now, id, ms, hasCb, recurring).0.recs[id];
            r.ms == ms && After(r.next, now, ms) && r.recurring == recurring && (r.armed <==> hasCb)
  {
    WrapIs(now, ms);
  }

  /** So is a refreshed one. */
  lemma RefreshDeadline(s: State, now: nat, id: Id)
    requires Valid(s) && id in s.recs && s.recs[id].armed
    ensures var r := Refresh(s, now, id).0.recs;
            r == s.recs[id := s.recs[id].(next := r[id].next)] && After(r[id].next, now, s.recs[id].ms)
  {
    RefreshKeeps(s, now, id);
    WrapIs(now, s.recs[id].ms);
  }

  /** A timer that is reset takes its new interval from the clock reading or, if asked to keep it, from the start
      of its present period. */
  lemma ResetDeadline(s: State, now: nat, id: Id, ms: nat, fromNow: bool)
    requires Valid(s) && id in s.recs && s.recs[id].armed && (fromNow || ms != s.recs[id].ms)
    ensures var r := Reset(s, now, id, ms, fromNow).0.recs;
            && r == s.recs[id := s.recs[id].(ms := ms, next := r[id].next)]
            && After(r[id].next, if fromNow then now else s.recs[id].next - s.recs[id].ms, ms)
  {
    ResetKeeps(s, now, id, ms, fromNow);
    WrapIs(now, ms);
    StartWraps(s.recs[id].next - s.recs[id].ms, ms);
  }

  /** A recurring timer that is handed out is due again one interval after the clock reading. */
  lemma ExpireDeadline(s: State, now: nat, id: Id)
    requires Valid(s) && id in Ids(ListExpired(s, now).1)
    ensures var r := ListExpired(s, now).0.recs;
            && id in s.recs && id in r
            && (s.recs[id].recurring ==> r[id] == s.recs[id].(next := r[id].next) && After(r[id].next, now, s.recs[id].ms))
            && (!s.recs[id].recurring ==> r[id] == s.recs[id].(armed := false))
  {
    ExpiryIsExact(s, now);
    var (t, due) := ListExpired(s, now);
    assert id in s.recs;
    assert ExpiredRec(s, now, due, t, id);
    WrapIs(now, s.recs[id].ms);
  }

  lemma WrapIs(start: nat, ms: nat)
    ensures After(W(start + ms), start, ms)
  {}

  lemma StartWraps(start: int, ms: nat)
    ensures After(W(W(start) + ms), start, ms)
  {}

  /** `listExpiredCb` hands out exactly the timers due at `now` (all of them on a rollback), earliest
      deadline first; afterwards recurring ones are armed one interval after `now`, one-shot ones
      have lost their callback, and no other timer changed. */
  lemma ExpiryIsExact(s: State, now: nat)
    requires Valid(s)
    ensures var (t, due) := ListExpired(s, now);
            && Valid(t) && Sorted(due) && t.recs.Keys == s.recs.Keys
            && (forall k :: k in due <==> k in s.order && (Rollover(s.previous, now) || k.next <= now))
            && (forall x :: x in s.recs ==> ExpiredRec(s, now, due, t, x))
  {
    DueIsExact(s, now);
    ExpiryEffect(s, now);
  }
}
