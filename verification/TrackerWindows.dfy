/**
  `Tracker` (chat/util.cc): a ring of one bucket per second and dimension, cleared one second ahead by
  a timer, against the plain log of the increments. Bucket values are 64-bit and wrap; keys and the
  interval are 32-bit.
 */
module TrackerWindows {

  const WRAP32 := 0x1_0000_0000
  const WRAP64 := 0x1_0000_0000_0000_0000
  const HALF64 := 0x8000_0000_0000_0000
  const HALF32 := 0x8000_0000

  // ---------------------------------------------------------------- 64-bit sums

  function Wrap(x: int): (r: int)
    ensures -HALF64 <= r < HALF64
  {
    (x + HALF64) % WRAP64 - HALF64
  }

  /** Wrapping inside a sum does not matter to the wrapped sum. */
  lemma WrapInside(x: int, y: int)
    ensures Wrap(Wrap(x) + y) == Wrap(x + y)
  {
    var q := (x + HALF64) / WRAP64;
    assert Wrap(x) == x - q * WRAP64;
    assert (x + y + HALF64 - q * WRAP64) % WRAP64 == (x + y + HALF64) % WRAP64;
  }

  lemma WrapBoth(x: int, y: int)
    ensures Wrap(Wrap(x) + Wrap(y)) == Wrap(x + y)
  {
    WrapInside(x, Wrap(y));
    WrapInside(y, x);
  }

  // ---------------------------------------------------------------- the ring

  /** `interval` buckets for each of `dims` dimensions, row after row. */
  datatype Ring = Ring(interval: nat, dims: nat, cells: seq<int>)

  ghost predicate Shaped(g: Ring) {
    g.interval > 0 && |g.cells| == g.dims * g.interval < HALF32
  }

  ghost predicate Valid(g: Ring) {
    Shaped(g) && forall k :: 0 <= k < |g.cells| ==> Wrap(g.cells[k]) == g.cells[k]
  }

  /** The bucket of dimension `i` for second `s`. */
  function Slot(interval: nat, i: nat, s: int): (k: int)
    requires interval > 0
  {
    i * interval + s % interval
  }

  lemma SlotInRange(interval: nat, dims: nat, i: nat, s: int)
    requires interval > 0 && i < dims
    ensures 0 <= Slot(interval, i, s) < dims * interval
  {
    assert (i + 1) * interval <= dims * interval;
  }

  lemma SlotsDiffer(interval: nat, i: nat, s: int, j: nat, u: int)
    requires interval > 0 && (i != j || s % interval != u % interval)
    ensures Slot(interval, i, s) != Slot(interval, j, u)
  {
    if i < j {
      assert (i + 1) * interval <= j * interval;
    } else if j < i {
      assert (j + 1) * interval <= i * interval;
    }
  }

  lemma Multiples(d: int, n: nat)
    ensures d >= 1 ==> d * n >= n
    ensures d <= -1 ==> d * n <= 0 - n
  {
    if d >= 1 {
      assert (d - 1) * n >= 0;
    } else if d <= -1 {
      assert (-d - 1) * n >= 0;
    }
  }

  /** Seconds less than an interval apart use different buckets. */
  lemma NearSecondsDiffer(interval: nat, s: int, u: int)
    requires 0 < u - s < interval
    ensures s % interval != u % interval
  {
    var d := u / interval - s / interval;
    if s % interval == u % interval {
      Difference(interval, s, u);
      Multiples(d, interval);
    }
  }

  lemma Difference(interval: nat, s: int, u: int)
    requires interval > 0
    ensures u - s == (u / interval - s / interval) * interval + u % interval - s % interval
  {}

  lemma RemainderIs(interval: nat, q: int, r: nat)
    requires r < interval
    ensures (q * interval + r) % interval == r
  {
    var x := q * interval + r;
    Multiples(x / interval - q, interval);
    assert (x / interval - q) * interval == r - x % interval;
  }

  lemma SameSecondOneTurnBack(interval: nat, s: int)
    requires interval > 0
    ensures (s - interval) % interval == s % interval
  {
    var a := s / interval;
    assert s - interval == (a - 1) * interval + s % interval;
    RemainderIs(interval, a - 1, s % interval);
  }

  // ---------------------------------------------------------------- operations

  /** The index `inc` and `dec` compute: the product of two 32-bit values wraps. */
  function Index(interval: nat, key: nat, now: nat): int
    requires interval > 0
  {
    (key * interval) % WRAP32 + now % interval
  }

  function Bump(g: Ring, key: nat, now: nat, v: int): Ring
    requires g.interval > 0
  {
    var k := Index(g.interval, key, now);
    if 0 <= k < |g.cells| then g.(cells := g.cells[k := Wrap(g.cells[k] + v)]) else g
  }

  function Bumped(g: Ring, key: nat, now: nat, v: int): int
    requires g.interval > 0
  {
    var k := Index(g.interval, key, now);
    if 0 <= k < |g.cells| then Wrap(g.cells[k] + v) else 0
  }

  /** The answer of `inc` and `dec` is the value that the bucket has afterwards, or 0 where there is none. */
  lemma BumpedIsAfter(g: Ring, key: nat, now: nat, v: int)
    requires Valid(g)
    ensures var k := (key * g.interval) % 0x1_0000_0000 + now % g.interval;
            Bumped(g, key, now, v) == if k < g.dims * g.interval then Bump(g, key, now, v).cells[k] else 0
  {}

  lemma IndexOfDim(g: Ring, key: nat, now: nat)
    requires Valid(g) && key < g.dims
    ensures Index(g.interval, key, now) == Slot(g.interval, key, now)
    ensures 0 <= Index(g.interval, key, now) < |g.cells|
  {
    SlotInRange(g.interval, g.dims, key, now);
    assert key * g.interval <= g.dims * g.interval;
    assert 0 <= key * g.interval;
  }

  /** `onTimer` clears the bucket of the next second in the first `n` rows. */
  function Clear(cells: seq<int>, interval: nat, n: nat, now: nat): (r: seq<int>)
    requires interval > 0
    ensures |r| == |cells|
  {
    if n == 0 then cells
    else
      var r := Clear(cells, interval, n - 1, now);
      var k := Slot(interval, n - 1, now + 1);
      if 0 <= k < |r| then r[k := 0] else r
  }

  lemma {:induction false} ClearAt(cells: seq<int>, interval: nat, n: nat, now: nat, i: nat, s: int)
    requires interval > 0 && 0 <= Slot(interval, i, s) < |cells|
    ensures Clear(cells, interval, n, now)[Slot(interval, i, s)] ==
              if i < n && s % interval == (now + 1) % interval then 0 else cells[Slot(interval, i, s)]
  {
    if n > 0 {
      ClearAt(cells, interval, n - 1, now, i, s);
      if i != n - 1 || s % interval != (now + 1) % interval {
        SlotsDiffer(interval, i, s, n - 1, now + 1);
      }
    }
  }

  lemma {:induction false} ClearKeepsWrapped(cells: seq<int>, interval: nat, n: nat, now: nat)
    requires interval > 0
    requires forall k :: 0 <= k < |cells| ==> Wrap(cells[k]) == cells[k]
    ensures forall k :: 0 <= k < |cells| ==> Wrap(Clear(cells, interval, n, now)[k]) == Clear(cells, interval, n, now)[k]
  {
    if n > 0 {
      ClearKeepsWrapped(cells, interval, n - 1, now);
    }
  }

  /** What `toDurationData` adds up for dimension `i` when the clock reads `now`. */
  function Total(g: Ring, i: nat, now: int, d: nat): int
    requires g.interval > 0
  {
    if d == 0 then 0
    else
      var k := Slot(g.interval, i, now - 1 - (d - 1));
      Wrap(Total(g, i, now, d - 1) + (if 0 <= k < |g.cells| then g.cells[k] else 0))
  }

  // ---------------------------------------------------------------- the log

  /** One increment that took effect; a decrement is a negative one. */
  datatype Entry = Entry(time: nat, key: nat, v: int)

  function SumAt(log: seq<Entry>, key: nat, s: int): int {
    if log == [] then 0
    else
      var e := log[|log| - 1];
      SumAt(log[..|log| - 1], key, s) + (if e.key == key && e.time == s then e.v else 0)
  }

  /** Everything logged for `key` in the `d` seconds before second `now`. */
  function SumOver(log: seq<Entry>, key: nat, now: int, d: nat): int {
    if d == 0 then 0 else SumOver(log, key, now, d - 1) + SumAt(log, key, now - 1 - (d - 1))
  }

  function InRange(log: seq<Entry>, key: nat, from: int, to: int): int {
    if log == [] then 0
    else
      var e := log[|log| - 1];
      InRange(log[..|log| - 1], key, from, to) + (if e.key == key && from <= e.time < to then e.v else 0)
  }

  /** Summing second by second is summing the entries of those seconds. */
  lemma {:induction false} SumOverIsRange(log: seq<Entry>, key: nat, now: int, d: nat)
    ensures SumOver(log, key, now, d) == InRange(log, key, now - d, now)
  {
    if d == 0 {
      EmptyRange(log, key, now);
    } else {
      SumOverIsRange(log, key, now, d - 1);
      SplitRange(log, key, now - d, now);
    }
  }

  lemma {:induction false} EmptyRange(log: seq<Entry>, key: nat, now: int)
    ensures InRange(log, key, now, now) == 0
  {
    if log != [] {
      EmptyRange(log[..|log| - 1], key, now);
    }
  }

  lemma {:induction false} SplitRange(log: seq<Entry>, key: nat, from: int, to: int)
    requires from < to
    ensures InRange(log, key, from, to) == SumAt(log, key, from) + InRange(log, key, from + 1, to)
  {
    if log != [] {
      SplitRange(log[..|log| - 1], key, from, to);
    }
  }

  lemma {:induction false} NothingLater(log: seq<Entry>, key: nat, s: int)
    requires forall k :: 0 <= k < |log| ==> log[k].time < s
    ensures SumAt(log, key, s) == 0
  {
    if log != [] {
      NothingLater(log[..|log| - 1], key, s);
    }
  }

  // ---------------------------------------------------------------- runs

  /** `second` is the last clock reading; `ahead` says that the bucket of the next second is clear, which
      each `onTimer` makes so. `noise` is the ring of what stray keys added to each bucket since it was last
      cleared. */
  datatype World = World(ring: Ring, noise: Ring, log: seq<Entry>, second: nat, ahead: bool)

  /** `Bump` stands for `inc` and, with a negated value, `dec`. */
  datatype Op = BumpOp(now: nat, key: nat, v: int) | TimerOp(now: nat)

  /** The clock stands still or moves to the next second, the latter only after the timer ran. */
  predicate OnTime(w: World, now: nat) {
    now == w.second || (now == w.second + 1 && w.ahead)
  }

  /** A key without a dimension reaches no bucket. */
  predicate NoStray(g: Ring, key: nat, now: nat)
    requires g.interval > 0
  {
    key < g.dims || Index(g.interval, key, now) >= |g.cells|
  }

  predicate Can(w: World, op: Op) {
    w.ring.interval > 0 && w.noise.interval > 0 && OnTime(w, op.now)
  }

  function Advance(w: World, now: nat): World {
    if now == w.second then w else w.(second := now, ahead := false)
  }

  function Do(w: World, op: Op): World
    requires Can(w, op)
  {
    var w1 := Advance(w, op.now);
    match op
    case BumpOp(now, key, v) => if key < w1.ring.dims then BumpedWorld(w1, key, v) else StrayedWorld(w1, key, v)
    case TimerOp(now) => w1.(ring := Cleared(w1.ring, now), noise := Cleared(w1.noise, now), ahead := true)
  }

  /** The world after an increment of a dimension in the current second. */
  function BumpedWorld(w: World, key: nat, v: int): World
    requires w.ring.interval > 0
  {
    w.(ring := Bump(w.ring, key, w.second, v), log := w.log + [Entry(w.second, key, v)])
  }

  /** The world after an increment of a key without a dimension. */
  function StrayedWorld(w: World, key: nat, v: int): World
    requires w.ring.interval > 0 && w.noise.interval > 0
  {
    w.(ring := Bump(w.ring, key, w.second, v), noise := Stain(w.noise, key, w.second, v))
  }

  /** The same bucket, without wrap-around. */
  function Stain(g: Ring, key: nat, now: nat, v: int): Ring
    requires g.interval > 0
  {
    var k := Index(g.interval, key, now);
    if 0 <= k < |g.cells| then g.(cells := g.cells[k := g.cells[k] + v]) else g
  }

  function Cleared(g: Ring, now: nat): Ring
    requires g.interval > 0
  {
    g.(cells := Clear(g.cells, g.interval, g.dims, now))
  }

  function CellAt(g: Ring, i: nat, s: int): int
    requires g.interval > 0
  {
    var k := Slot(g.interval, i, s);
    if 0 <= k < |g.cells| then g.cells[k] else 0
  }

  /** The buckets of the last `interval - 1` seconds, the current one included, hold their sums and noise. */
  ghost predicate Window(w: World)
    requires w.ring.interval > 0 && w.noise.interval > 0
  {
    forall i: nat, s: int :: i < w.ring.dims && w.second - w.ring.interval + 2 <= s <= w.second ==>
      WindowAt(w, i, s)
  }

  ghost predicate WindowAt(w: World, i: nat, s: int)
    requires w.ring.interval > 0 && w.noise.interval > 0
  {
    CellAt(w.ring, i, s) == Wrap(SumAt(w.log, i, s) + CellAt(w.noise, i, s))
  }

  /** The remaining bucket holds the oldest second's sum until the timer clears it for the next one. */
  ghost predicate Edge(w: World)
    requires w.ring.interval > 0 && w.noise.interval > 0
  {
    forall i: nat :: i < w.ring.dims ==> EdgeAt(w, i)
  }

  ghost predicate EdgeAt(w: World, i: nat)
    requires w.ring.interval > 0 && w.noise.interval > 0
  {
    CellAt(w.ring, i, w.second + 1) ==
      Wrap((if w.ahead then 0 else SumAt(w.log, i, w.second + 1 - w.ring.interval)) + CellAt(w.noise, i, w.second + 1))
  }

  ghost predicate Past(w: World) {
    forall k :: 0 <= k < |w.log| ==> w.log[k].time <= w.second
  }

  ghost predicate Inv(w: World) {
    && Valid(w.ring) && w.ring.interval >= 2 && Shaped(w.noise)
    && w.noise.interval == w.ring.interval && w.noise.dims == w.ring.dims
    && Past(w) && Window(w) && Edge(w)
  }

  lemma AdvanceKeeps(w: World, now: nat)
    requires Inv(w) && OnTime(w, now)
    ensures Inv(Advance(w, now))
  {
    if now != w.second {
      var w' := Advance(w, now);
      forall i: nat, s: int | i < w.ring.dims && now - w.ring.interval + 2 <= s <= now
        ensures WindowAt(w', i, s)
      {
        if s == now {
          assert EdgeAt(w, i);
          NothingLater(w.log, i, now);
        } else {
          assert WindowAt(w, i, s);
        }
      }
      forall i: nat | i < w.ring.dims ensures EdgeAt(w', i) {
        SameSecondOneTurnBack(w.ring.interval, now + 1);
        assert WindowAt(w, i, now + 1 - w.ring.interval);
      }
    }
  }

  lemma TimerCell(g: Ring, now: nat, i: nat, s: int)
    requires Shaped(g) && i < g.dims
    ensures CellAt(Cleared(g, now), i, s) ==
              if s % g.interval == (now + 1) % g.interval then 0 else CellAt(g, i, s)
  {
    SlotInRange(g.interval, g.dims, i, s);
    ClearAt(g.cells, g.interval, g.dims, now, i, s);
  }

  lemma TimerKeeps(w: World)
    requires Inv(w)
    ensures Inv(w.(ring := Cleared(w.ring, w.second), noise := Cleared(w.noise, w.second), ahead := true))
  {
    var w' := w.(ring := Cleared(w.ring, w.second), noise := Cleared(w.noise, w.second), ahead := true);
    ClearKeepsWrapped(w.ring.cells, w.ring.interval, w.ring.dims, w.second);
    forall i: nat, s: int | i < w.ring.dims && w.second - w.ring.interval + 2 <= s <= w.second ensures WindowAt(w', i, s) {
      TimerCell(w.ring, w.second, i, s);
      TimerCell(w.noise, w.second, i, s);
      NearSecondsDiffer(w.ring.interval, s, w.second + 1);
      assert WindowAt(w, i, s);
    }
    forall i: nat | i < w.ring.dims ensures EdgeAt(w', i) {
      TimerCell(w.ring, w.second, i, w.second + 1);
      TimerCell(w.noise, w.second, i, w.second + 1);
      assert Wrap(0) == 0;
    }
  }

  /** An increment of a dimension changes its current bucket and no other. */
  lemma BumpCell(g: Ring, key: nat, now: nat, v: int, i: nat, s: int)
    requires Valid(g) && i < g.dims && key < g.dims
    ensures CellAt(Bump(g, key, now, v), i, s) ==
              if i == key && s % g.interval == now % g.interval then Wrap(CellAt(g, key, now) + v) else CellAt(g, i, s)
  {
    SlotInRange(g.interval, g.dims, i, s);
    IndexOfDim(g, key, now);
    if i != key || s % g.interval != now % g.interval {
      SlotsDiffer(g.interval, i, s, key, now);
    }
  }

  lemma BumpKeepsWrapped(g: Ring, key: nat, now: nat, v: int)
    requires Valid(g)
    ensures Valid(Bump(g, key, now, v))
  {
    var k := Index(g.interval, key, now);
    if 0 <= k < |g.cells| {
      WrapInside(g.cells[k] + v, 0);
    }
  }

  lemma LogGrows(w: World, key: nat, v: int, i: nat, s: int)
    requires w.ring.interval > 0
    ensures SumAt(BumpedWorld(w, key, v).log, i, s) == SumAt(w.log, i, s) + (if i == key && s == w.second then v else 0)
  {
    var log := BumpedWorld(w, key, v).log;
    assert log[..|log| - 1] == w.log;
  }

  lemma BumpWindow(w: World, key: nat, v: int, i: nat, s: int)
    requires Inv(w) && key < w.ring.dims && i < w.ring.dims
    requires w.second - w.ring.interval + 2 <= s <= w.second
    ensures WindowAt(BumpedWorld(w, key, v), i, s)
  {
    assert WindowAt(w, i, s);
    LogGrows(w, key, v, i, s);
    BumpCell(w.ring, key, w.second, v, i, s);
    if s < w.second {
      NearSecondsDiffer(w.ring.interval, s, w.second);
    } else {
      WrapInside(SumAt(w.log, i, s) + CellAt(w.noise, i, s), v);
    }
  }

  lemma BumpEdge(w: World, key: nat, v: int, i: nat)
    requires Inv(w) && key < w.ring.dims && i < w.ring.dims
    ensures EdgeAt(BumpedWorld(w, key, v), i)
  {
    assert EdgeAt(w, i);
    LogGrows(w, key, v, i, w.second + 1 - w.ring.interval);
    BumpCell(w.ring, key, w.second, v, i, w.second + 1);
    NearSecondsDiffer(w.ring.interval, w.second, w.second + 1);
  }

  lemma BumpKeeps(w: World, key: nat, v: int)
    requires Inv(w) && key < w.ring.dims
    ensures Inv(BumpedWorld(w, key, v))
  {
    var w' := BumpedWorld(w, key, v);
    BumpKeepsWrapped(w.ring, key, w.second, v);
    forall i: nat, s: int | i < w.ring.dims && w.second - w.ring.interval + 2 <= s <= w.second ensures WindowAt(w', i, s) {
      BumpWindow(w, key, v, i, s);
    }
    forall i: nat | i < w.ring.dims ensures EdgeAt(w', i) {
      BumpEdge(w, key, v, i);
    }
  }

  /** A stray increment adds the same to a bucket and to its noise. */
  lemma StrayCell(w: World, key: nat, v: int, i: nat, s: int) returns (d: int)
    requires Inv(w) && i < w.ring.dims
    ensures var w' := StrayedWorld(w, key, v);
            && CellAt(w'.noise, i, s) == CellAt(w.noise, i, s) + d
            && (d == 0 ==> CellAt(w'.ring, i, s) == CellAt(w.ring, i, s))
            && CellAt(w'.ring, i, s) == Wrap(CellAt(w.ring, i, s) + d)
  {
    var k := Slot(w.ring.interval, i, s);
    SlotInRange(w.ring.interval, w.ring.dims, i, s);
    assert Wrap(w.ring.cells[k]) == w.ring.cells[k];
    d := if k == Index(w.ring.interval, key, w.second) then v else 0;
  }

  lemma StrayWindow(w: World, key: nat, v: int, i: nat, s: int)
    requires Inv(w) && i < w.ring.dims && w.second - w.ring.interval + 2 <= s <= w.second
    ensures WindowAt(StrayedWorld(w, key, v), i, s)
  {
    assert WindowAt(w, i, s);
    var d := StrayCell(w, key, v, i, s);
    WrapInside(SumAt(w.log, i, s) + CellAt(w.noise, i, s), d);
  }

  lemma StrayEdge(w: World, key: nat, v: int, i: nat)
    requires Inv(w) && i < w.ring.dims
    ensures EdgeAt(StrayedWorld(w, key, v), i)
  {
    assert EdgeAt(w, i);
    var d := StrayCell(w, key, v, i, w.second + 1);
    var base := if w.ahead then 0 else SumAt(w.log, i, w.second + 1 - w.ring.interval);
    AddsInside(CellAt(w.ring, i, w.second + 1), base, CellAt(w.noise, i, w.second + 1), d);
  }

  lemma AddsInside(cell: int, x: int, y: int, d: int)
    requires cell == Wrap(x + y)
    ensures Wrap(cell + d) == Wrap(x + (y + d))
  {
    WrapInside(x + y, d);
    assert x + y + d == x + (y + d);
  }

  lemma StrayKeeps(w: World, key: nat, v: int)
    requires Inv(w)
    ensures Inv(StrayedWorld(w, key, v))
  {
    var w' := StrayedWorld(w, key, v);
    BumpKeepsWrapped(w.ring, key, w.second, v);
    forall i: nat, s: int | i < w.ring.dims && w.second - w.ring.interval + 2 <= s <= w.second ensures WindowAt(w', i, s) {
      StrayWindow(w, key, v, i, s);
    }
    forall i: nat | i < w.ring.dims ensures EdgeAt(w', i) {
      StrayEdge(w, key, v, i);
    }
  }

  lemma StepKeeps(w: World, op: Op)
    requires Inv(w) && Can(w, op)
    ensures Inv(Do(w, op))
  {
    AdvanceKeeps(w, op.now);
    var w1 := Advance(w, op.now);
    match op
    case BumpOp(now, key, v) =>
      if key < w.ring.dims {
        BumpKeeps(w1, key, v);
      } else {
        StrayKeeps(w1, key, v);
      }
    case TimerOp(now) => TimerKeeps(w1);
  }

  function Begin(interval: nat, dims: nat, now: nat): World {
    var zero := Ring(interval, dims, seq(interval * dims, _ => 0));
    World(zero, zero, [], now, true)
  }

  ghost predicate Runs(w: World, ops: seq<Op>)
    decreases |ops|
  {
    ops == [] || (Can(w, ops[0]) && Runs(Do(w, ops[0]), ops[1..]))
  }

  ghost function End(w: World, ops: seq<Op>): World
    requires Runs(w, ops)
    decreases |ops|
  {
    if ops == [] then w else End(Do(w, ops[0]), ops[1..])
  }

  lemma {:induction false} RunKeeps(w: World, ops: seq<Op>)
    requires Inv(w) && Runs(w, ops)
    ensures Inv(End(w, ops))
    decreases |ops|
  {
    if ops != [] {
      StepKeeps(w, ops[0]);
      RunKeeps(Do(w, ops[0]), ops[1..]);
    }
  }

  lemma {:induction false} BeginIsInv(interval: nat, dims: nat, now: nat)
    requires interval >= 2 && interval * dims < HALF32
    ensures Inv(Begin(interval, dims, now))
  {
    assert Wrap(0) == 0;
    assert interval * dims == dims * interval;
  }

  // ---------------------------------------------------------------- the window agrees with the log

  /** What stray keys left in the buckets of the `d` seconds before second `now`. */
  function NoiseOver(g: Ring, i: nat, now: int, d: nat): int
    requires g.interval > 0
  {
    if d == 0 then 0 else NoiseOver(g, i, now, d - 1) + CellAt(g, i, now - 1 - (d - 1))
  }

  lemma {:induction false} TotalIsSum(w: World, i: nat, d: nat)
    requires Inv(w) && i < w.ring.dims && d + 2 <= w.ring.interval
    ensures Total(w.ring, i, w.second, d) == Wrap(SumOver(w.log, i, w.second, d) + NoiseOver(w.noise, i, w.second, d))
  {
    if d == 0 {
      assert Wrap(0) == 0;
    } else {
      TotalIsSum(w, i, d - 1);
      var s := w.second - 1 - (d - 1);
      assert WindowAt(w, i, s);
      WrapBoth(SumOver(w.log, i, w.second, d - 1) + NoiseOver(w.noise, i, w.second, d - 1),
               SumAt(w.log, i, s) + CellAt(w.noise, i, s));
    }
  }

  /**
    The sliding window and the log: after any run in which the timer clears a bucket in every second, a query
    in the current or the next second for up to `interval - 2` seconds adds up, as a 64-bit sum, what was
    logged in the last `d` complete seconds and what stray keys left in their buckets. So it agrees with
    the log if and only if the latter is 0 modulo 2^64.
   */
  lemma WindowAgreesIff(interval: nat, dims: nat, start: nat, ops: seq<Op>, now: nat, i: nat, d: nat)
    requires interval >= 2 && interval * dims < HALF32 && Runs(Begin(interval, dims, start), ops)
    requires OnTime(End(Begin(interval, dims, start), ops), now)
    requires i < dims && d + 2 <= interval
    ensures var w := End(Begin(interval, dims, start), ops);
            && w.ring.interval == interval == w.noise.interval
            && var log, noise := InRange(w.log, i, now - d, now), NoiseOver(w.noise, i, now, d);
               && Total(w.ring, i, now, d) == Wrap(log + noise)
               && (Total(w.ring, i, now, d) == Wrap(log) <==> Wrap(noise) == 0)
  {
    var w0 := Begin(interval, dims, start);
    BeginIsInv(interval, dims, start);
    RunKeeps(w0, ops);
    RunShape(w0, ops);
    var w := End(w0, ops);
    AdvanceKeeps(w, now);
    TotalIsSum(Advance(w, now), i, d);
    SumOverIsRange(w.log, i, now, d);
    WrapMoves(InRange(w.log, i, now - d, now), NoiseOver(w.noise, i, now, d));
  }

  // ---------------------------------------------------------------- no stray keys, no noise

  /** No increment of the run has a key that strays into a bucket. */
  ghost predicate NoneStrays(w: World, ops: seq<Op>)
    requires Runs(w, ops)
    decreases |ops|
  {
    ops == [] || ((ops[0].BumpOp? ==> NoStray(w.ring, ops[0].key, ops[0].now)) && NoneStrays(Do(w, ops[0]), ops[1..]))
  }

  ghost predicate Silent(w: World) {
    && w.noise.interval == w.ring.interval && |w.noise.cells| == |w.ring.cells|
    && forall k :: 0 <= k < |w.noise.cells| ==> w.noise.cells[k] == 0
  }

  lemma {:induction false} ClearKeepsZero(cells: seq<int>, interval: nat, n: nat, now: nat)
    requires interval > 0 && forall k :: 0 <= k < |cells| ==> cells[k] == 0
    ensures forall k :: 0 <= k < |cells| ==> Clear(cells, interval, n, now)[k] == 0
  {
    if n > 0 {
      ClearKeepsZero(cells, interval, n - 1, now);
    }
  }

  lemma StepSilent(w: World, op: Op)
    requires Silent(w) && Can(w, op) && (op.BumpOp? ==> NoStray(w.ring, op.key, op.now))
    ensures Silent(Do(w, op))
  {
    if op.TimerOp? {
      ClearKeepsZero(w.noise.cells, w.noise.interval, w.noise.dims, op.now);
    }
  }

  lemma {:induction false} RunSilent(w: World, ops: seq<Op>)
    requires Silent(w) && Runs(w, ops) && NoneStrays(w, ops)
    ensures Silent(End(w, ops))
    decreases |ops|
  {
    if ops != [] {
      StepSilent(w, ops[0]);
      RunSilent(Do(w, ops[0]), ops[1..]);
    }
  }

  lemma {:induction false} SilentIsZero(g: Ring, i: nat, now: int, d: nat)
    requires g.interval > 0 && forall k :: 0 <= k < |g.cells| ==> g.cells[k] == 0
    ensures NoiseOver(g, i, now, d) == 0
  {
    if d > 0 {
      SilentIsZero(g, i, now, d - 1);
    }
  }

  /** The sliding window agrees with the log in every run without stray keys. */
  lemma WindowAgrees(interval: nat, dims: nat, start: nat, ops: seq<Op>, now: nat, i: nat, d: nat)
    requires interval >= 2 && interval * dims < HALF32
    requires Runs(Begin(interval, dims, start), ops) && NoneStrays(Begin(interval, dims, start), ops)
    requires OnTime(End(Begin(interval, dims, start), ops), now)
    requires i < dims && d + 2 <= interval
    ensures var w := End(Begin(interval, dims, start), ops);
            w.ring.interval == interval && Total(w.ring, i, now, d) == Wrap(InRange(w.log, i, now - d, now))
  {
    WindowAgreesIff(interval, dims, start, ops, now, i, d);
    RunSilent(Begin(interval, dims, start), ops);
    SilentIsZero(End(Begin(interval, dims, start), ops).noise, i, now, d);
    assert Wrap(0) == 0;
  }

  lemma {:induction false} RunShape(w: World, ops: seq<Op>)
    requires Runs(w, ops)
    ensures End(w, ops).ring.interval == w.ring.interval && End(w, ops).ring.dims == w.ring.dims
    ensures End(w, ops).noise.interval == w.noise.interval
    decreases |ops|
  {
    if ops != [] {
      RunShape(Do(w, ops[0]), ops[1..]);
    }
  }

  /** One second more, `interval - 1`: the answer is right exactly when the timer has not run in the current
      second yet, or the second it has already cleared summed to 0. */
  lemma OneMoreIff(w: World, i: nat)
    requires Inv(w) && i < w.ring.dims
    ensures var d := w.ring.interval - 1;
            Total(w.ring, i, w.second, d) == Wrap(SumOver(w.log, i, w.second, d) + NoiseOver(w.noise, i, w.second, d)) <==>
            (w.ahead ==> Wrap(SumAt(w.log, i, w.second - d)) == 0)
  {
    var d := w.ring.interval - 1;
    TotalIsSum(w, i, d - 1);
    EdgeBuckets(w, i);
    var x := SumOver(w.log, i, w.second, d - 1) + NoiseOver(w.noise, i, w.second, d - 1);
    LastBucket(w.ahead, x, SumAt(w.log, i, w.second - d), CellAt(w.noise, i, w.second - d));
  }

  /** The oldest bucket but one is that of the next second. */
  lemma EdgeBuckets(w: World, i: nat)
    requires Inv(w) && i < w.ring.dims
    ensures var s := w.second - (w.ring.interval - 1);
            CellAt(w.ring, i, s) == Wrap((if w.ahead then 0 else SumAt(w.log, i, s)) + CellAt(w.noise, i, s))
  {
    assert EdgeAt(w, i);
    SameSecondOneTurnBack(w.ring.interval, w.second + 1);
  }

  lemma LastBucket(ahead: bool, x: int, y: int, z: int)
    ensures Wrap(Wrap(x) + Wrap((if ahead then 0 else y) + z)) == Wrap(x + y + z) <==> (ahead ==> Wrap(y) == 0)
  {
    if ahead {
      WrapBoth(x, z);
      WrapMoves(x + z, y);
    } else {
      WrapBoth(x, y + z);
    }
  }

  lemma WrapMoves(x: int, y: int)
    ensures Wrap(x) == Wrap(x + y) <==> Wrap(y) == 0
  {
    WrapInside(x + y, -x);
    WrapInside(x, -x);
    WrapInside(y, x);
  }

  // ---------------------------------------------------------------- keys without a dimension

  /** A key outside the dimensions changes a bucket exactly when the 32-bit product wraps back into the
      buffer, and then it is another dimension's bucket. */
  lemma StrayKeyIff(g: Ring, key: nat, now: nat, v: int)
    requires Valid(g) && g.dims <= key && -HALF64 <= v < HALF64 && v != 0
    ensures Bump(g, key, now, v) != g <==> (key * g.interval) % WRAP32 + now % g.interval < g.dims * g.interval
  {
    var k := Index(g.interval, key, now);
    if 0 <= k < |g.cells| {
      WrapMoves(g.cells[k], v);
      assert Wrap(v) == v;
    }
  }

  /** With the default interval of 60 and one dimension, key 71582789 bumps a bucket of dimension 0. */
  lemma StrayKeyExample(g: Ring)
    requires Valid(g) && g.interval == 60 && g.dims == 1
    ensures Bump(g, 71582789, 60, 1) != g
  {
    StrayKeyIff(g, 71582789, 60, 1);
  }
}
