/** The mutable `TimerManager` of chat/timer.cc, each method proved against module `Timers`. */
module TimerManagers {
  import opened Timers

  lemma {:induction false} EraseAt(s: seq<Key>, i: nat)
    requires i < |s| && forall j :: 0 <= j < i ==> s[j] != s[i]
    ensures Erase(s, s[i]) == s[..i] + s[i + 1..]
  {
    if i > 0 {
      EraseAt(s[1..], i - 1);
    }
  }

  lemma {:induction false} CutIs(s: seq<Key>, now: nat, n: nat)
    requires n <= |s|
    requires (forall i :: 0 <= i < n ==> s[i].next <= now) && (n < |s| ==> s[n].next > now)
    ensures Cut(s, now) == n
  {
    if n > 0 {
      CutIs(s[1..], now, n - 1);
    }
  }

  /** Firing the rest, `due`, from `s` gives `all`. */
  ghost predicate Firing(s: State, now: nat, due: seq<Key>, all: State) {
    Ready(s, due) && FireAll(s, now, due) == all
  }

  lemma FiringNext(s: State, now: nat, due: seq<Key>, all: State)
    requires Firing(s, now, due, all) && due != []
    ensures due[0].id in s.recs && !InSet(s, due[0].id) && Firing(Fire(s, now, due[0].id), now, due[1..], all)
  {
    ReadyStep(s, now, due);
  }

  class TimerManager {
    var recs: map<Id, Rec>
    var order: seq<Key>
    var tickled: bool
    var previous: nat

    ghost function View(): (s: State)
      reads this
    {
      State(recs, order, tickled, previous)
    }

    constructor (now: nat)
      ensures Valid(View()) && View() == State(map[], [], false, now)
    {
      recs, order, tickled, previous := map[], [], false, now;
    }

    /** `m_timers.find`: its index, or the size for `end()`. */
    method Find(k: Key) returns (i: nat)
      ensures i <= |order| && (i < |order| <==> k in order)
      ensures i < |order| ==> order[i] == k && forall j :: 0 <= j < i ==> order[j] != k
    {
      i := 0;
      while i < |order| && order[i] != k
        invariant i <= |order|
        invariant forall j :: 0 <= j < i ==> order[j] != k
      {
        i := i + 1;
      }
    }

    /** `Timer::cancel`; the entry to erase is always found. */
    method CancelTimer(id: Id) returns (ok: bool)
      requires Valid(View()) && id in recs
      modifies this
      ensures Valid(View())
      ensures (View(), ok) == Cancel(old(View()), id)
    {
      CancelKeeps(View(), id);
      if recs[id].armed {
        assert InSet(View(), id);
        var it := Find(Key(recs[id].next, id));
        EraseAt(order, it);
        order := order[..it] + order[it + 1..];
        recs := recs[id := recs[id].(armed := false)];
        return true;
      }
      ok := false;
    }

    /** `Timer::refresh`: the `find` cannot fail, so the second early return is never taken. */
    method RefreshTimer(id: Id, now: nat) returns (ok: bool)
      requires Valid(View()) && id in recs
      modifies this
      ensures Valid(View())
      ensures (View(), ok) == Refresh(old(View()), now, id)
    {
      RefreshKeeps(View(), now, id);
      if !recs[id].armed {
        return false;
      }
      assert InSet(View(), id);
      var it := Find(Key(recs[id].next, id));
      if it == |order| {
        return false;
      }
      EraseAt(order, it);
      order := order[..it] + order[it + 1..];
      recs := recs[id := RefreshRec(recs[id], now)];
      order := Insert(order, Key(recs[id].next, id));
      ok := true;
    }

    /** `Timer::reset`; `front` says whether `onTimerInsertedAtFront` is called. */
    method ResetTimer(id: Id, now: nat, ms: nat, fromNow: bool) returns (ok: bool, front: bool)
      requires Valid(View()) && id in recs
      modifies this
      ensures Valid(View())
      ensures (View(), ok, front) == Reset(old(View()), now, id, ms, fromNow)
    {
      ResetKeeps(View(), now, id, ms, fromNow);
      if ms == recs[id].ms && !fromNow {
        return true, false;
      }
      if !recs[id].armed {
        return false, false;
      }
      assert InSet(View(), id);
      var it := Find(Key(recs[id].next, id));
      if it == |order| {
        return false, false;
      }
      EraseAt(order, it);
      order := order[..it] + order[it + 1..];
      recs := recs[id := ResetRec(recs[id], now, ms, fromNow)];
      front := AddLocked(id);
      ok := true;
    }

    /** The private `addTimer`, under the write lock. */
    method AddLocked(id: Id) returns (front: bool)
      requires id in recs
      modifies this`order, this`tickled
      ensures (View(), front) == Put(old(View()), id)
    {
      var k := Key(recs[id].next, id);
      order := Insert(order, k);
      front := order[0].id == id && !tickled;
      if front {
        tickled := true;
      }
    }

    method AddTimer(now: nat, id: Id, ms: nat, hasCb: bool, recurring: bool) returns (front: bool)
      requires Valid(View()) && id !in recs
      modifies this
      ensures Valid(View())
      ensures (View(), front) == Add(old(View()), now, id, ms, hasCb, recurring)
    {
      AddKeeps(View(), now, id, ms, hasCb, recurring);
      recs := recs[id := Rec(ms, W(now + ms), hasCb, recurring, hasCb)];
      front := AddLocked(id);
    }

    method GetNextTimer(now: nat) returns (timeout: nat)
      modifies this`tickled
      ensures (View(), timeout) == NextTimer(old(View()), now)
    {
      tickled := false;
      if |order| == 0 {
        return FOREVER;
      }
      if now >= order[0].next {
        return 0;
      }
      timeout := order[0].next - now;
    }

    /** `lower_bound` of the probe timer, then past every key equal to `now`. The probe's address
        does not matter. */
    method ExpiredEnd(now: nat, probe: Id) returns (it: nat)
      requires Valid(View())
      ensures it == Cut(order, now)
    {
      it := 0;
      while it < |order| && Less(order[it], Key(now, probe))
        invariant it <= |order|
        invariant forall i :: 0 <= i < it ==> order[i].next <= now
      {
        it := it + 1;
      }
      while it < |order| && order[it].next == now
        invariant it <= |order|
        invariant forall i :: 0 <= i < it ==> order[i].next <= now
        invariant it < |order| ==> order[it].next >= now
      {
        assert it + 1 < |order| ==> Less(order[it], order[it + 1]);
        it := it + 1;
      }
      CutIs(order, now, it);
    }

    method ListExpiredCb(now: nat, probe: Id) returns (cbs: seq<Key>)
      requires Valid(View())
      modifies this
      ensures Valid(View())
      ensures (View(), cbs) == ListExpired(old(View()), now)
    {
      cbs := [];
      if |order| == 0 {
        return;
      }
      ExpiryIsExact(View(), now);
      var rollover := Rollover(previous, now);
      var n := ExpiredEnd(now, probe);
      if rollover {
        n := |order|;
      }
      DueReady(View(), n);
      var expired := order[..n];
      order, previous := order[n..], now;
      cbs := expired;
      FireEach(expired, now);
    }

    /** The loop over the expired timers. */
    method FireEach(expired: seq<Key>, now: nat)
      requires Ready(View(), expired)
      modifies this`recs, this`order
      ensures View() == FireAll(old(View()), now, expired)
    {
      var i := 0;
      ghost var all := FireAll(View(), now, expired);
      assert expired[0..] == expired;
      while i < |expired|
        invariant 0 <= i <= |expired|
        invariant Firing(View(), now, expired[i..], all)
      {
        FiringNext(View(), now, expired[i..], all);
        assert expired[i..][1..] == expired[i + 1..];
        FireOne(expired[i].id, now);
        i := i + 1;
      }
    }

    /** One turn of that loop. */
    method FireOne(id: Id, now: nat)
      requires id in recs && !InSet(View(), id)
      modifies this`recs, this`order
      ensures View() == Fire(old(View()), now, id)
    {
      if recs[id].recurring {
        recs := recs[id := recs[id].(next := W(now + recs[id].ms))];
        order := Insert(order, Key(recs[id].next, id));
      } else {
        recs := recs[id := recs[id].(armed := false)];
      }
    }
  }
}
