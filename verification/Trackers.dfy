/** The `Tracker` object (chat/util.cc): its bucket array is updated in place. The clock reading of each
    call is a parameter, and a reading is at least as large as the window asked for. */
module Trackers {
  import opened TrackerWindows

  function Digits(n: nat): string {
    var d := [('0' as int + n % 10) as char];
    if n < 10 then d else Digits(n / 10) + d
  }

  /** The number that a decimal numeral stands for. */
  function Number(s: string): int {
    if s == "" then 0 else 10 * Number(s[..|s| - 1]) + (s[|s| - 1] as int - '0' as int)
  }

  /** `to_string`: decimal digits that stand for `n`, with no zero in front. */
  lemma {:induction false} DigitsAre(n: nat)
    ensures Number(Digits(n)) == n && |Digits(n)| > 0 && (n > 0 ==> Digits(n)[0] != '0')
    ensures forall i :: 0 <= i < |Digits(n)| ==> '0' <= Digits(n)[i] <= '9'
  {
    if n >= 10 {
      DigitsAre(n / 10);
      assert Digits(n)[..|Digits(n)| - 1] == Digits(n / 10);
    } else {
      assert Digits(n)[..0] == "";
    }
  }

  function Label(name: string, d: nat, withTime: bool): string {
    if withTime then name + "." + Digits(d) else name
  }

  lemma LabelsDiffer(a: string, b: string, d: nat, withTime: bool)
    requires Label(a, d, withTime) == Label(b, d, withTime)
    ensures a == b
  {
    if withTime {
      var x, y := a + ("." + Digits(d)), b + ("." + Digits(d));
      assert Label(a, d, withTime) == x && Label(b, d, withTime) == y;
      assert |x| == |y|;
      assert a == x[..|a|] && b == y[..|b|];
    }
  }

  /** The last of the named dimensions with its name; an earlier one's entry is overwritten. */
  predicate LastNamed(names: seq<string>, n: nat, i: nat) {
    i < n <= |names| && names[i] != "" && forall j :: i < j < n ==> names[j] != names[i]
  }

  /** `toDurationData` for the first `rows` dimensions. */
  function DurationData(data: map<string, int>, g: Ring, names: seq<string>, now: nat, d: nat, withTime: bool, rows: nat): map<string, int>
    requires g.interval > 0 && rows <= |names|
  {
    if rows == 0 then data
    else
      var r := DurationData(data, g, names, now, d, withTime, rows - 1);
      if names[rows - 1] == "" then r else r[Label(names[rows - 1], d, withTime) := Total(g, rows - 1, now, d)]
  }

  /** Each named dimension gets its own window total. */
  lemma {:induction false} DurationDataAt(data: map<string, int>, g: Ring, names: seq<string>, now: nat, d: nat, withTime: bool, rows: nat, i: nat)
    requires g.interval > 0 && LastNamed(names, rows, i)
    ensures var out := DurationData(data, g, names, now, d, withTime, rows);
            var l := Label(names[i], d, withTime);
            l in out && out[l] == Total(g, i, now, d)
  {
    if i < rows - 1 {
      DurationDataAt(data, g, names, now, d, withTime, rows - 1, i);
      if names[rows - 1] != "" && Label(names[rows - 1], d, withTime) == Label(names[i], d, withTime) {
        LabelsDiffer(names[rows - 1], names[i], d, withTime);
      }
    }
  }

  /** Nothing else in the map changes. */
  lemma {:induction false} DurationDataElse(data: map<string, int>, g: Ring, names: seq<string>, now: nat, d: nat, withTime: bool, rows: nat, l: string)
    requires g.interval > 0 && rows <= |names|
    requires forall i :: 0 <= i < rows && names[i] != "" ==> Label(names[i], d, withTime) != l
    ensures var out := DurationData(data, g, names, now, d, withTime, rows);
            (l in out <==> l in data) && (l in data ==> out[l] == data[l])
  {
    if rows > 0 {
      DurationDataElse(data, g, names, now, d, withTime, rows - 1, l);
    }
  }

  /** The first `n` prefix totals of one row, put under the windows asked for. */
  function RowData(data: map<string, int>, g: Ring, name: string, i: nat, now: nat, times: set<nat>, n: nat): map<string, int>
    requires g.interval > 0
  {
    if n == 0 then data
    else
      var r := RowData(data, g, name, i, now, times, n - 1);
      if n in times then r[Label(name, n, true) := Total(g, i, now, n)] else r
  }

  /** `toData` for the first `rows` dimensions. */
  function AllData(data: map<string, int>, g: Ring, names: seq<string>, now: nat, times: set<nat>, rows: nat): map<string, int>
    requires g.interval > 0 && rows <= |names|
  {
    if rows == 0 then data
    else
      var i := rows - 1;
      var r := AllData(data, g, names, now, times, i);
      if names[i] == "" then r else OneRow(r, g, names[i], i, now, times)
  }

  // ---------------------------------------------------------------- what `toData` gives

  lemma {:induction false} DigitsHaveNoDot(n: nat)
    ensures |Digits(n)| > 0 && forall k :: 0 <= k < |Digits(n)| ==> Digits(n)[k] != '.'
  {
    if n >= 10 {
      DigitsHaveNoDot(n / 10);
    }
  }

  lemma {:induction false} DigitsDiffer(n: nat, m: nat)
    requires Digits(n) == Digits(m)
    ensures n == m
    decreases n + m
  {
    var a, b := Digits(n), Digits(m);
    assert a[|a| - 1] == ('0' as int + n % 10) as char && b[|b| - 1] == ('0' as int + m % 10) as char;
    assert a[..|a| - 1] == (if n < 10 then "" else Digits(n / 10));
    assert b[..|b| - 1] == (if m < 10 then "" else Digits(m / 10));
    DigitsHaveNoDot(n / 10);
    DigitsHaveNoDot(m / 10);
    if n >= 10 && m >= 10 {
      DigitsDiffer(n / 10, m / 10);
    }
  }

  lemma DotEndsName(a: string, x: string, k: nat)
    requires (forall j :: 0 <= j < |x| ==> x[j] != '.') && |a| <= k < |a| + 1 + |x|
    ensures (a + "." + x)[k] == '.' <==> k == |a|
  {
    if k > |a| {
      assert (a + "." + x)[k] == x[k - |a| - 1];
    }
  }

  /** The last dot of a label ends the name. */
  lemma LastDot(a: string, x: string, b: string, y: string)
    requires a + "." + x == b + "." + y
    requires (forall k :: 0 <= k < |x| ==> x[k] != '.') && (forall k :: 0 <= k < |y| ==> y[k] != '.')
    ensures a == b && x == y
  {
    var l, m := a + "." + x, b + "." + y;
    var k := if |a| <= |b| then |b| else |a|;
    DotEndsName(a, x, k);
    DotEndsName(b, y, k);
    assert l[..|a|] == a && m[..|b|] == b && l[|a| + 1..] == x && m[|b| + 1..] == y;
  }

  lemma WindowLabelsDiffer(a: string, n: nat, b: string, m: nat)
    requires Label(a, n, true) == Label(b, m, true)
    ensures a == b && n == m
  {
    DigitsHaveNoDot(n);
    DigitsHaveNoDot(m);
    LastDot(a, Digits(n), b, Digits(m));
    DigitsDiffer(n, m);
  }

  /** The windows `toData` reports: those asked for, or the whole interval if none was. */
  predicate Asked(times: set<nat>, interval: nat, n: nat) {
    if times == {} then n == interval else 1 <= n <= interval && n in times
  }

  lemma {:induction false} RowDataAt(data: map<string, int>, g: Ring, name: string, i: nat, now: nat, times: set<nat>, n: nat, d: nat)
    requires g.interval > 0 && 1 <= d <= n && d in times
    ensures var l := Label(name, d, true); var out := RowData(data, g, name, i, now, times, n);
            l in out && out[l] == Total(g, i, now, d)
  {
    if d < n {
      RowDataAt(data, g, name, i, now, times, n - 1, d);
      if Label(name, n, true) == Label(name, d, true) {
        WindowLabelsDiffer(name, n, name, d);
      }
    }
  }

  lemma {:induction false} RowDataElse(data: map<string, int>, g: Ring, name: string, i: nat, now: nat, times: set<nat>, n: nat, l: string)
    requires g.interval > 0 && forall d :: 1 <= d <= n && d in times ==> Label(name, d, true) != l
    ensures var out := RowData(data, g, name, i, now, times, n); (l in out <==> l in data) && (l in data ==> out[l] == data[l])
  {
    if n > 0 {
      RowDataElse(data, g, name, i, now, times, n - 1, l);
    }
  }

  /** `toData` for one named dimension. */
  function OneRow(data: map<string, int>, g: Ring, name: string, i: nat, now: nat, times: set<nat>): map<string, int>
    requires g.interval > 0
  {
    var r := RowData(data, g, name, i, now, times, g.interval);
    if times == {} then r[Label(name, g.interval, true) := Total(g, i, now, g.interval)] else r
  }

  lemma OneRowAt(data: map<string, int>, g: Ring, name: string, i: nat, now: nat, times: set<nat>, d: nat)
    requires g.interval > 0 && Asked(times, g.interval, d)
    ensures var l := Label(name, d, true); var out := OneRow(data, g, name, i, now, times);
            l in out && out[l] == Total(g, i, now, d)
  {
    if times != {} {
      RowDataAt(data, g, name, i, now, times, g.interval, d);
    }
  }

  lemma OneRowElse(data: map<string, int>, g: Ring, name: string, i: nat, now: nat, times: set<nat>, l: string)
    requires g.interval > 0 && forall d :: Asked(times, g.interval, d) ==> Label(name, d, true) != l
    ensures var out := OneRow(data, g, name, i, now, times); (l in out <==> l in data) && (l in data ==> out[l] == data[l])
  {
    forall d | 1 <= d <= g.interval && d in times ensures Label(name, d, true) != l {
      assert Asked(times, g.interval, d);
    }
    RowDataElse(data, g, name, i, now, times, g.interval, l);
    assert times == {} ==> Asked(times, g.interval, g.interval);
  }

  /** Each named dimension gets, for every window asked for, its own total over that window. */
  lemma {:induction false} AllDataAt(data: map<string, int>, g: Ring, names: seq<string>, now: nat, times: set<nat>, rows: nat, i: nat, d: nat)
    requires g.interval > 0 && LastNamed(names, rows, i) && Asked(times, g.interval, d)
    ensures var out := AllData(data, g, names, now, times, rows); var l := Label(names[i], d, true);
            l in out && out[l] == Total(g, i, now, d)
  {
    var j := rows - 1;
    var r := AllData(data, g, names, now, times, j);
    if i == j {
      OneRowAt(r, g, names[j], j, now, times, d);
    } else {
      AllDataAt(data, g, names, now, times, j, i, d);
      if names[j] != "" {
        forall m | Asked(times, g.interval, m) ensures Label(names[j], m, true) != Label(names[i], d, true) {
          if Label(names[j], m, true) == Label(names[i], d, true) {
            WindowLabelsDiffer(names[j], m, names[i], d);
          }
        }
        OneRowElse(r, g, names[j], j, now, times, Label(names[i], d, true));
      }
    }
  }

  /** Nothing else in the map changes. */
  lemma {:induction false} AllDataElse(data: map<string, int>, g: Ring, names: seq<string>, now: nat, times: set<nat>, rows: nat, l: string)
    requires g.interval > 0 && rows <= |names|
    requires forall i, d :: 0 <= i < rows && names[i] != "" && Asked(times, g.interval, d) ==> Label(names[i], d, true) != l
    ensures var out := AllData(data, g, names, now, times, rows); (l in out <==> l in data) && (l in data ==> out[l] == data[l])
  {
    if rows > 0 {
      var j := rows - 1;
      AllDataElse(data, g, names, now, times, j, l);
      if names[j] != "" {
        OneRowElse(AllData(data, g, names, now, times, j), g, names[j], j, now, times, l);
      }
    }
  }

  /** A cell of a valid ring is where the loops look for it. */
  lemma CellIs(g: Ring, i: nat, s: nat)
    requires Valid(g) && i < g.dims
    ensures 0 <= i * g.interval + s % g.interval < |g.cells|
    ensures Slot(g.interval, i, s) == i * g.interval + s % g.interval
  {
    SlotInRange(g.interval, g.dims, i, s);
  }

  class Tracker {
    const names: seq<string>
    const interval: nat
    const datas: array<int>

    ghost function View(): Ring
      reads this, datas
    {
      Ring(interval, |names|, datas[..])
    }

    ghost predicate Ok()
      reads this, datas
    {
      Valid(View())
    }

    /** `start` without the timer: one zeroed bucket per second and dimension. */
    constructor (names: seq<string>, interval: nat)
      requires interval > 0 && |names| * interval < HALF32
      ensures Ok() && fresh(datas) && this.names == names && this.interval == interval
      ensures forall k :: 0 <= k < datas.Length ==> datas[k] == 0
    {
      this.names, this.interval := names, interval;
      datas := new int[|names| * interval](_ => 0);
      new;
      assert Wrap(0) == 0;
    }

    method Inc(key: nat, now: nat, v: int) returns (r: int)
      requires Ok() && key < WRAP32
      modifies datas
      ensures Ok() && View() == Bump(old(View()), key, now, v) && r == Bumped(old(View()), key, now, v)
    {
      BumpKeepsWrapped(View(), key, now, v);
      var idx := key * interval % WRAP32 + now % interval;
      if 0 <= idx < datas.Length {
        datas[idx] := Wrap(datas[idx] + v);
        return datas[idx];
      }
      return 0;
    }

    method Dec(key: nat, now: nat, v: int) returns (r: int)
      requires Ok() && key < WRAP32
      modifies datas
      ensures Ok() && View() == Bump(old(View()), key, now, -v) && r == Bumped(old(View()), key, now, -v)
    {
      BumpKeepsWrapped(View(), key, now, -v);
      var idx := key * interval % WRAP32 + now % interval;
      if 0 <= idx < datas.Length {
        datas[idx] := Wrap(datas[idx] - v);
        return datas[idx];
      }
      return 0;
    }

    method OnTimer(now: nat)
      requires Ok()
      modifies datas
      ensures Ok() && View() == old(View()).(cells := Clear(old(datas[..]), interval, |names|, now))
    {
      ghost var cells := datas[..];
      ClearKeepsWrapped(cells, interval, |names|, now);
      var offset := (now + 1) % interval;
      var i := 0;
      while i < |names|
        invariant 0 <= i <= |names|
        invariant datas[..] == Clear(cells, interval, i, now)
      {
        CellIs(old(View()), i, now + 1);
        datas[i * interval + offset] := 0;
        i := i + 1;
      }
    }

    method ToDurationData(data: map<string, int>, now: nat, duration: nat, withTime: bool) returns (out: map<string, int>)
      requires Ok() && (duration <= now || interval <= now)
      ensures duration <= interval ==> out == DurationData(data, View(), names, now, duration, withTime, |names|)
      ensures duration > interval ==> out == DurationData(data, View(), names, now, interval, withTime, |names|)
    {
      var d := if duration > interval then interval else duration;
      out := data;
      var i := 0;
      while i < |names|
        invariant 0 <= i <= |names| && out == DurationData(data, View(), names, now, d, withTime, i)
      {
        if names[i] != "" {
          var total := RowTotal(i, now, d);
          out := out[Label(names[i], d, withTime) := total];
        }
        i := i + 1;
      }
    }

    /** The inner loop of `toDurationData`. */
    method RowTotal(i: nat, now: nat, d: nat) returns (total: int)
      requires Ok() && i < |names| && d <= now
      ensures total == Total(View(), i, now, d)
    {
      total := 0;
      var n := 0;
      while n < d
        invariant 0 <= n <= d && total == Total(View(), i, now, n)
      {
        CellIs(View(), i, now - 1 - n);
        total := Wrap(total + datas[i * interval + (now - 1 - n) % interval]);
        n := n + 1;
      }
    }

    /** The inner loop of `toData`: every prefix total asked for, and the total of the whole row. */
    method Row(data: map<string, int>, i: nat, now: nat, times: set<nat>) returns (out: map<string, int>, total: int)
      requires Ok() && i < |names| && interval <= now
      ensures out == RowData(data, View(), names[i], i, now, times, interval)
      ensures total == Total(View(), i, now, interval)
    {
      out, total := data, 0;
      var n := 0;
      while n < interval
        invariant 0 <= n <= interval && total == Total(View(), i, now, n)
        invariant out == RowData(data, View(), names[i], i, now, times, n)
      {
        CellIs(View(), i, now - 1 - n);
        total := Wrap(total + datas[i * interval + (now - 1 - n) % interval]);
        n := n + 1;
        if n in times {
          out := out[Label(names[i], n, true) := total];
        }
      }
    }

    method ToData(data: map<string, int>, now: nat, times: set<nat>) returns (out: map<string, int>)
      requires Ok() && interval <= now
      ensures out == AllData(data, View(), names, now, times, |names|)
    {
      out := data;
      var i := 0;
      while i < |names|
        invariant 0 <= i <= |names| && out == AllData(data, View(), names, now, times, i)
      {
        if names[i] != "" {
          var total;
          out, total := Row(out, i, now, times);
          if times == {} {
            out := out[Label(names[i], interval, true) := total];
          }
        }
        i := i + 1;
      }
    }
  }
}
