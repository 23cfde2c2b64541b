/**
  Sequences of mixed values written to and read back from a buffer, on the flat view:
  the exact condition under which `read*` undoes `write*`.
 */
module Records {
  import opened FlatBuffer
  import opened Codec

  datatype Prefix = F16 | F32 | F64 | Vint

  datatype Value =
    | Fixed(w: nat, n: nat)
    | Uvar(bits: nat, n: nat)
    | Zig32(x: bv32)
    | Zig64(y: bv64)
    | Str(prefix: Prefix, s: seq<Byte>)

  datatype Kind = KFixed(w: nat) | KUvar(bits: nat) | KZig32 | KZig64 | KStr(prefix: Prefix)

  function KindOf(v: Value): Kind {
    match v
    case Fixed(w, _) => KFixed(w)
    case Uvar(bits, _) => KUvar(bits)
    case Zig32(_) => KZig32
    case Zig64(_) => KZig64
    case Str(p, _) => KStr(p)
  }

  function Schema(vs: seq<Value>): seq<Kind> {
    if vs == [] then [] else [KindOf(vs[0])] + Schema(vs[1..])
  }

  /** The widths the source offers, and values (string lengths) that fit them. */
  ghost predicate InRange(v: Value) {
    match v
    case Fixed(w, n) => w in {1, 2, 4, 8} && n < Limit(w)
    case Uvar(bits, n) => bits in {32, 64} && n < Limit(bits / 8)
    case Zig32(_) => true
    case Zig64(_) => true
    case Str(p, s) => |s| < PrefixLimit(p)
  }

  const LIMIT8 := 0x100
  const LIMIT16 := 0x1_0000
  const LIMIT32 := 0x1_0000_0000
  const LIMIT64 := 0x1_0000_0000_0000_0000

  /** The number of values an unsigned integer of `w` bytes takes. */
  function Limit(w: nat): nat {
    if w == 1 then LIMIT8 else if w == 2 then LIMIT16 else if w == 4 then LIMIT32 else LIMIT64
  }

  lemma LimitIsPow2(w: nat)
    requires w in {1, 2, 4, 8}
    ensures Limit(w) == Pow2(8 * w)
  {
    Pow2Small();
    Pow2Square(8, LIMIT8);
    Pow2Square(16, LIMIT16);
    Pow2Square(32, LIMIT32);
  }

  lemma Pow2Square(i: nat, a: nat)
    requires Pow2(i) == a
    ensures Pow2(2 * i) == a * a
  {
    Pow2Add(i, i);
  }

  function PrefixWidth(p: Prefix): (w: nat)
    ensures w in {2, 4, 8}
  {
    match p
    case F16 => 2
    case F32 => 4
    case F64 => 8
    case Vint => 8
  }

  function PrefixLimit(p: Prefix): (m: nat)
    ensures m > 0
  {
    Limit(PrefixWidth(p))
  }

  // ---------------------------------------------------------------- writing

  /** The length prefix; the source narrows the length to the prefix type. */
  function PrefixBytes(host: Endian, e: Endian, p: Prefix, len: nat): (s: seq<Byte>)
    ensures |s| > 0
  {
    if p.Vint? then VarintBytes(len % LIMIT64)
    else FixedBytes(host, e, len % PrefixLimit(p), PrefixWidth(p))
  }

  function Encode(host: Endian, e: Endian, v: Value): seq<Byte> {
    match v
    case Fixed(w, n) => FixedBytes(host, e, n, w)
    case Uvar(_, n) => VarintBytes(n)
    case Zig32(x) => VarintBytes(EncodeZigzag32(x) as nat)
    case Zig64(y) => VarintBytes(EncodeZigzag64(y) as nat)
    case Str(p, s) => PrefixBytes(host, e, p, |s|) + s
  }

  function EncodeAll(host: Endian, e: Endian, vs: seq<Value>): seq<Byte> {
    if vs == [] then [] else Encode(host, e, vs[0]) + EncodeAll(host, e, vs[1..])
  }

  // ---------------------------------------------------------------- the bytes on the wire

  lemma FixedIsBytes(host: Endian, e: Endian, n: nat, w: nat)
    requires w in {1, 2, 4, 8} && n < Limit(w)
    ensures AreBytes(FixedBytes(host, e, n, w), n, e)
  {
    LimitIsPow2(w);
    FixedLayout(host, e, n, w);
  }

  /** `b` is the length of `s` in `w` bytes and then `s`. */
  ghost predicate Prefixed(b: seq<Byte>, w: nat, e: Endian, s: seq<Byte>) {
    |b| == w + |s| && AreBytes(b[..w], |s|, e) && b[w..] == s
  }

  lemma FixedPrefix(host: Endian, e: Endian, w: nat, s: seq<Byte>)
    requires w in {2, 4, 8} && |s| < Limit(w)
    ensures Prefixed(FixedBytes(host, e, |s| % Limit(w), w) + s, w, e, s)
  {
    var b := FixedBytes(host, e, |s|, w);
    SmallMod(|s|, Limit(w));
    FixedIsBytes(host, e, |s|, w);
    assert (b + s)[..w] == b && (b + s)[w..] == s;
  }

  /** A string on the wire: its length in 2, 4 or 8 bytes of the wanted order, or in base-128 groups, and then
      its bytes. */
  lemma StringLayout(host: Endian, e: Endian, s: seq<Byte>)
    ensures |s| < 0x1_0000 ==> Prefixed(Encode(host, e, Str(F16, s)), 2, e, s)
    ensures |s| < 0x1_0000_0000 ==> Prefixed(Encode(host, e, Str(F32, s)), 4, e, s)
    ensures |s| < 0x1_0000_0000_0000_0000 ==> Prefixed(Encode(host, e, Str(F64, s)), 8, e, s)
    ensures |s| < 0x1_0000_0000_0000_0000 ==>
              var b := Encode(host, e, Str(Vint, s));
              |b| > |s| && AreGroups(b[..|b| - |s|], |s|) && b[|b| - |s|..] == s
  {
    if |s| < 0x1_0000 { FixedPrefix(host, e, 2, s); }
    if |s| < 0x1_0000_0000 { FixedPrefix(host, e, 4, s); }
    if |s| < 0x1_0000_0000_0000_0000 {
      FixedPrefix(host, e, 8, s);
      VarintLayout(|s|);
      var g := VarintBytes(|s|);
      SmallMod(|s|, LIMIT64);
      assert (g + s)[..|g|] == g && (g + s)[|g|..] == s;
    }
  }

  /** An integer on the wire: as many bytes as its width, or base-128 groups, of the zigzag number if signed. */
  lemma NumberLayout(host: Endian, e: Endian, v: Value)
    requires InRange(v)
    ensures match v
            case Fixed(w, n) => |Encode(host, e, v)| == w && AreBytes(Encode(host, e, v), n, e)
            case Uvar(_, n) => AreGroups(Encode(host, e, v), n)
            case Zig32(x) => AreGroups(Encode(host, e, v), EncodeZigzag32(x) as nat)
            case Zig64(y) => AreGroups(Encode(host, e, v), EncodeZigzag64(y) as nat)
            case Str(_, _) => true
  {
    match v
    case Fixed(w, n) => FixedIsBytes(host, e, n, w);
    case Uvar(_, n) => VarintLayout(n);
    case Zig32(x) => VarintLayout(EncodeZigzag32(x) as nat);
    case Zig64(y) => VarintLayout(EncodeZigzag64(y) as nat);
    case Str(_, _) =>
  }

  // ---------------------------------------------------------------- reading

  function FlatReadFixed(host: Endian, e: Endian, f: Flat, w: nat): (r: Got<nat>)
    requires WellFormed(f)
    ensures WellFormed(r.after)
  {
    match FlatRead(f, w)
    case Fault(why, g) => Fault(why, g)
    case Got(s, g) => Got(FixedValue(host, e, s), g)
  }

  /** The decoding loop: at most one byte per started group of seven bits, bits beyond the width
      shifted out. A failure leaves the cursor behind the bytes already taken. */
  function FlatReadVarint(f: Flat, bits: nat, i: nat, acc: nat): (r: Got<nat>)
    requires WellFormed(f)
    ensures WellFormed(r.after)
    decreases f.size - f.pos
  {
    if i >= bits then Got(acc, f)
    else
      match FlatRead(f, 1)
      case Fault(why, g) => Fault(why, g)
      case Got(s, g) =>
        if s[0] < 0x80 then Got(Or(acc, s[0] * Pow2(i) % Pow2(bits)), g)
        else FlatReadVarint(g, bits, i + 7, Or(acc, s[0] % 128 * Pow2(i) % Pow2(bits)))
  }

  /** The integer a value of this kind starts with: the value itself or a string's length. */
  function FlatReadNumber(host: Endian, e: Endian, f: Flat, k: Kind): (r: Got<nat>)
    requires WellFormed(f)
    ensures WellFormed(r.after)
  {
    match k
    case KFixed(w) => FlatReadFixed(host, e, f, w)
    case KUvar(bits) => FlatReadVarint(f, bits, 0, 0)
    case KZig32 => FlatReadVarint(f, 32, 0, 0)
    case KZig64 => FlatReadVarint(f, 64, 0, 0)
    case KStr(p) =>
      if p.Vint? then FlatReadVarint(f, 64, 0, 0) else FlatReadFixed(host, e, f, PrefixWidth(p))
  }

  function ToBv32(n: nat): bv32 {
    if n < LIMIT32 then n as bv32 else 0
  }

  function ToBv64(n: nat): bv64 {
    if n < LIMIT64 then n as bv64 else 0
  }

  /** The value an integer stands for; for a string the bytes come separately. */
  function ValueOf(k: Kind, n: nat, s: seq<Byte>): Value {
    match k
    case KFixed(w) => Fixed(w, n)
    case KUvar(bits) => Uvar(bits, n)
    case KZig32 => Zig32(DecodeZigzag32(ToBv32(n)))
    case KZig64 => Zig64(DecodeZigzag64(ToBv64(n)))
    case KStr(p) => Str(p, s)
  }

  function FlatReadValue(host: Endian, e: Endian, f: Flat, k: Kind): (r: Got<Value>)
    requires WellFormed(f)
    ensures WellFormed(r.after)
  {
    match FlatReadNumber(host, e, f, k)
    case Fault(why, g) => Fault(why, g)
    case Got(n, g) =>
      if !k.KStr? then Got(ValueOf(k, n, []), g)
      else
        match FlatRead(g, n)
        case Fault(why, h) => Fault(why, h)
        case Got(s, h) => Got(ValueOf(k, n, s), h)
  }

  function FlatReadAll(host: Endian, e: Endian, f: Flat, ks: seq<Kind>): (r: Got<seq<Value>>)
    requires WellFormed(f)
    ensures WellFormed(r.after)
    decreases |ks|, f.size
  {
    if ks == [] then Got([], f)
    else
      match FlatReadValue(host, e, f, ks[0])
      case Fault(why, g) => Fault(why, g)
      case Got(v, g) =>
        match FlatReadAll(host, e, g, ks[1..])
        case Fault(why, h) => Fault(why, h)
        case Got(vs, h) => Got([v] + vs, h)
  }

  // ---------------------------------------------------------------- reading back one value

  /** The bytes `s` are the next unread ones. */
  ghost predicate HoldsAt(f: Flat, s: seq<Byte>) {
    WellFormed(f) && f.pos + |s| <= f.size && f.mem[f.pos..f.pos + |s|] == s
  }

  function Past(f: Flat, n: nat): Flat {
    f.(pos := f.pos + n)
  }

  lemma HoldsSplit(f: Flat, s: seq<Byte>, t: seq<Byte>)
    requires HoldsAt(f, s + t)
    ensures HoldsAt(f, s) && HoldsAt(Past(f, |s|), t)
  {
    var m := f.mem[f.pos..f.pos + |s + t|];
    assert m[..|s|] == s && m[|s|..] == t;
  }

  lemma FixedBack(host: Endian, e: Endian, f: Flat, n: nat, w: nat)
    requires w in {1, 2, 4, 8} && n < Limit(w) && HoldsAt(f, FixedBytes(host, e, n, w))
    ensures FlatReadFixed(host, e, f, w) == Got(n, Past(f, w))
  {
    LimitIsPow2(w);
    FixedRoundTrip(host, e, n, w);
  }

  lemma {:induction false} Pow2Monotone(i: nat, j: nat)
    requires i <= j
    ensures Pow2(i) <= Pow2(j)
  {
    if i < j {
      Pow2Monotone(i, j - 1);
    }
  }

  lemma ProductMonotone(a: nat, b: nat, c: nat)
    requires a <= b
    ensures a * c <= b * c
  {}

  lemma SmallMod(a: nat, m: nat)
    requires a < m
    ensures a % m == a
  {}

  lemma SplitProduct(v: nat, p: nat)
    ensures v * p == v / 128 * (128 * p) + v % 128 * p
  {
    var q, r := v / 128, v % 128;
    assert v == 128 * q + r;
    assert (128 * q + r) * p == 128 * q * p + r * p;
    assert 128 * q * p == q * (128 * p);
  }

  /** One step of the decoding loop adds seven more bits of `v`. */
  lemma VarintStep(v: nat, i: nat, bits: nat, acc: nat)
    requires acc < Pow2(i) && acc + v * Pow2(i) < Pow2(bits)
    ensures Or(acc, v % 128 * Pow2(i) % Pow2(bits)) == acc + v % 128 * Pow2(i)
    ensures acc + v % 128 * Pow2(i) < Pow2(i + 7)
    ensures acc + v % 128 * Pow2(i) + v / 128 * Pow2(i + 7) == acc + v * Pow2(i)
  {
    var p := Pow2(i);
    Pow2Seven(i);
    ProductMonotone(v % 128, v, p);
    SmallMod(v % 128 * p, Pow2(bits));
    OrIsPlus(acc, v % 128, i);
    ProductMonotone(v % 128, 127, p);
    SplitProduct(v, p);
  }

  lemma MoreGroups(v: nat, i: nat, bits: nat)
    requires v >= 128 && v * Pow2(i) < Pow2(bits)
    ensures i + 7 < bits
  {
    ProductMonotone(128, v, Pow2(i));
    Pow2Seven(i);
    if i + 7 >= bits {
      Pow2Monotone(bits, i + 7);
    }
  }

  /** What the decoding loop does with the next byte `c`. */
  lemma ReadVarintByte(f: Flat, c: Byte, bits: nat, i: nat, acc: nat)
    requires HoldsAt(f, [c]) && i < bits
    ensures FlatReadVarint(f, bits, i, acc) ==
            if c < 0x80 then Got(Or(acc, c * Pow2(i) % Pow2(bits)), Past(f, 1))
            else FlatReadVarint(Past(f, 1), bits, i + 7, Or(acc, c % 128 * Pow2(i) % Pow2(bits)))
  {
    assert FlatRead(f, 1) == Got([c], Past(f, 1));
  }

  lemma VarintLast(f: Flat, v: nat, bits: nat, i: nat, acc: nat)
    requires v < 128 && HoldsAt(f, [v])
    requires i < bits && acc < Pow2(i) && acc + v * Pow2(i) < Pow2(bits)
    ensures FlatReadVarint(f, bits, i, acc) == Got(acc + v * Pow2(i), Past(f, 1))
  {
    VarintStep(v, i, bits, acc);
    ReadVarintByte(f, v, bits, i, acc);
  }

  lemma VarintMore(f: Flat, v: nat, bits: nat, i: nat, acc: nat)
    requires v >= 128 && HoldsAt(f, [v % 128 + 128])
    requires i < bits && acc < Pow2(i) && acc + v * Pow2(i) < Pow2(bits)
    ensures FlatReadVarint(f, bits, i, acc) == FlatReadVarint(Past(f, 1), bits, i + 7, acc + v % 128 * Pow2(i))
  {
    VarintStep(v, i, bits, acc);
    LowSeven(v % 128);
    ReadVarintByte(f, v % 128 + 128, bits, i, acc);
  }

  lemma LowSeven(x: nat)
    requires x < 128
    ensures (x + 128) % 128 == x
  {}

  lemma {:induction false} VarintBack(f: Flat, v: nat, bits: nat, i: nat, acc: nat, total: nat)
    requires HoldsAt(f, VarintBytes(v))
    requires i < bits && acc < Pow2(i) && total == acc + v * Pow2(i) && total < Pow2(bits)
    ensures FlatReadVarint(f, bits, i, acc) == Got(total, Past(f, |VarintBytes(v)|))
    decreases v
  {
    if v < 128 {
      VarintLast(f, v, bits, i, acc);
    } else {
      HoldsSplit(f, [v % 128 + 128], VarintBytes(v / 128));
      VarintMore(f, v, bits, i, acc);
      VarintStep(v, i, bits, acc);
      MoreGroups(v, i, bits);
      VarintBack(Past(f, 1), v / 128, bits, i + 7, acc + v % 128 * Pow2(i), total);
    }
  }

  lemma VarintBackWhole(f: Flat, v: nat, bits: nat)
    requires bits in {32, 64} && v < Limit(bits / 8) && HoldsAt(f, VarintBytes(v))
    ensures FlatReadVarint(f, bits, 0, 0) == Got(v, Past(f, |VarintBytes(v)|))
  {
    LimitIsPow2(bits / 8);
    assert Pow2(0) == 1;
    VarintBack(f, v, bits, 0, 0, v);
  }

  /** The leading integer of an encoded value. */
  function NumberOf(v: Value): nat {
    match v
    case Fixed(_, n) => n
    case Uvar(_, n) => n
    case Zig32(x) => EncodeZigzag32(x) as nat
    case Zig64(y) => EncodeZigzag64(y) as nat
    case Str(_, s) => |s|
  }

  function NumberBytes(host: Endian, e: Endian, v: Value): seq<Byte> {
    if v.Str? then PrefixBytes(host, e, v.prefix, |v.s|) else Encode(host, e, v)
  }

  lemma PrefixBack(host: Endian, e: Endian, f: Flat, p: Prefix, len: nat)
    requires len < PrefixLimit(p) && HoldsAt(f, PrefixBytes(host, e, p, len))
    ensures FlatReadNumber(host, e, f, KStr(p)) == Got(len, Past(f, |PrefixBytes(host, e, p, len)|))
  {
    SmallMod(len, PrefixLimit(p));
    if p.Vint? {
      VarintBackWhole(f, len, 64);
    } else {
      FixedBack(host, e, f, len, PrefixWidth(p));
    }
  }

  lemma NumberBack(host: Endian, e: Endian, f: Flat, v: Value)
    requires InRange(v) && HoldsAt(f, NumberBytes(host, e, v))
    ensures FlatReadNumber(host, e, f, KindOf(v)) == Got(NumberOf(v), Past(f, |NumberBytes(host, e, v)|))
  {
    match v
    case Fixed(w, n) => FixedBack(host, e, f, n, w);
    case Uvar(bits, n) => VarintBackWhole(f, n, bits);
    case Zig32(x) => Zig32Back(f, x);
    case Zig64(y) => Zig64Back(f, y);
    case Str(p, s) => PrefixBack(host, e, f, p, |s|);
  }

  lemma Zig32Back(f: Flat, x: bv32)
    requires HoldsAt(f, VarintBytes(EncodeZigzag32(x) as nat))
    ensures var n := EncodeZigzag32(x) as nat; FlatReadVarint(f, 32, 0, 0) == Got(n, Past(f, |VarintBytes(n)|))
  {
    FromBv32(EncodeZigzag32(x));
    VarintBackWhole(f, EncodeZigzag32(x) as nat, 32);
  }

  lemma Zig64Back(f: Flat, y: bv64)
    requires HoldsAt(f, VarintBytes(EncodeZigzag64(y) as nat))
    ensures var n := EncodeZigzag64(y) as nat; FlatReadVarint(f, 64, 0, 0) == Got(n, Past(f, |VarintBytes(n)|))
  {
    FromBv64(EncodeZigzag64(y));
    VarintBackWhole(f, EncodeZigzag64(y) as nat, 64);
  }

  lemma FromBv32(x: bv32)
    ensures (x as nat) < LIMIT32 && ToBv32(x as nat) == x
  {}

  lemma FromBv64(x: bv64)
    ensures (x as nat) < LIMIT64 && ToBv64(x as nat) == x
  {}

  lemma ValueOfNumber(v: Value)
    ensures ValueOf(KindOf(v), NumberOf(v), if v.Str? then v.s else []) == v
  {
    if v.Zig32? {
      FromBv32(EncodeZigzag32(v.x));
      Zigzag32RoundTrip(v.x);
    } else if v.Zig64? {
      FromBv64(EncodeZigzag64(v.y));
      Zigzag64RoundTrip(v.y);
    }
  }

  /** Reading an empty string whose body sits exactly at capacity follows the null cursor. */
  ghost predicate EmptyAtCapacity(host: Endian, e: Endian, f: Flat, v: Value) {
    v.Str? && v.s == [] && f.pos + |Encode(host, e, v)| == |f.mem|
  }

  lemma BodyBack(f: Flat, s: seq<Byte>)
    requires HoldsAt(f, s)
    ensures FlatRead(f, |s|) ==
            if s == [] && f.pos == |f.mem| then Got<seq<Byte>>.Fault(NullCursor, f) else Got(s, Past(f, |s|))
  {}

  /** Reading back one value, and the only way it can fail. */
  lemma ValueBack(host: Endian, e: Endian, f: Flat, v: Value)
    requires InRange(v) && HoldsAt(f, Encode(host, e, v))
    ensures FlatReadValue(host, e, f, KindOf(v)) ==
            if EmptyAtCapacity(host, e, f, v) then Got<Value>.Fault(NullCursor, Past(f, |Encode(host, e, v)|))
            else Got(v, Past(f, |Encode(host, e, v)|))
  {
    ValueOfNumber(v);
    if v.Str? {
      var pre := PrefixBytes(host, e, v.prefix, |v.s|);
      HoldsSplit(f, pre, v.s);
      PrefixBack(host, e, f, v.prefix, |v.s|);
      BodyBack(Past(f, |pre|), v.s);
    } else {
      NumberBack(host, e, f, v);
    }
  }

  // ---------------------------------------------------------------- reading back a list

  ghost predicate AllInRange(vs: seq<Value>) {
    forall i :: 0 <= i < |vs| ==> InRange(vs[i])
  }

  /** The list ends in an empty string. */
  predicate EndsEmpty(vs: seq<Value>) {
    vs != [] && vs[|vs| - 1].Str? && vs[|vs| - 1].s == []
  }

  lemma EncodeNonEmpty(host: Endian, e: Endian, v: Value)
    requires InRange(v)
    ensures |Encode(host, e, v)| > 0
  {}

  /** The list reader after its first value. */
  lemma ReadAllCons(host: Endian, e: Endian, f: Flat, v: Value, rest: seq<Value>)
    requires WellFormed(f)
    ensures var r := FlatReadValue(host, e, f, KindOf(v));
            FlatReadAll(host, e, f, Schema([v] + rest)) ==
            if r.Fault? then Got<seq<Value>>.Fault(r.why, r.after)
            else
              var q := FlatReadAll(host, e, r.after, Schema(rest));
              if q.Fault? then q else Got([r.value] + q.value, q.after)
  {
    assert ([v] + rest)[1..] == rest;
    assert Schema([v] + rest)[1..] == Schema(rest);
  }

  /** A list that holds its reading position's next bytes, and the only way reading it can fail. */
  ghost predicate ListReads(host: Endian, e: Endian, f: Flat, vs: seq<Value>)
    requires WellFormed(f)
  {
    var n := |EncodeAll(host, e, vs)|;
    FlatReadAll(host, e, f, Schema(vs)) ==
    if EndsEmpty(vs) && f.pos + n == |f.mem| then Got<seq<Value>>.Fault(NullCursor, Past(f, n))
    else Got(vs, Past(f, n))
  }

  lemma {:induction false} ListBack(host: Endian, e: Endian, f: Flat, vs: seq<Value>)
    requires AllInRange(vs) && HoldsAt(f, EncodeAll(host, e, vs))
    ensures ListReads(host, e, f, vs)
    decreases |vs|
  {
    if vs != [] {
      var v, rest := vs[0], vs[1..];
      HoldsSplit(f, Encode(host, e, v), EncodeAll(host, e, rest));
      ValueBack(host, e, f, v);
      ListBack(host, e, Past(f, |Encode(host, e, v)|), rest);
      RestNonEmpty(host, e, rest);
      ListStep(host, e, f, v, rest, |Encode(host, e, v)|, |EncodeAll(host, e, rest)|);
      assert vs == [v] + rest;
    }
  }

  lemma EncodeAllCons(host: Endian, e: Endian, v: Value, rest: seq<Value>)
    ensures EncodeAll(host, e, [v] + rest) == Encode(host, e, v) + EncodeAll(host, e, rest)
    ensures EndsEmpty([v] + rest) <==> if rest == [] then v.Str? && v.s == [] else EndsEmpty(rest)
  {
    assert ([v] + rest)[1..] == rest;
    assert rest != [] ==> ([v] + rest)[|rest|] == rest[|rest| - 1];
  }

  /** The list reader after a first value of `n` bytes, with `k` bytes to come. */
  lemma ListStep(host: Endian, e: Endian, f: Flat, v: Value, rest: seq<Value>, n: nat, k: nat)
    requires WellFormed(f) && n == |Encode(host, e, v)| && k == |EncodeAll(host, e, rest)|
    requires FlatReadValue(host, e, f, KindOf(v)) ==
             if EmptyAtCapacity(host, e, f, v) then Got<Value>.Fault(NullCursor, Past(f, n)) else Got(v, Past(f, n))
    requires WellFormed(Past(f, n)) && ListReads(host, e, Past(f, n), rest)
    requires rest != [] ==> k > 0 && f.pos + n + k <= |f.mem|
    ensures ListReads(host, e, f, [v] + rest)
  {
    ReadAllCons(host, e, f, v, rest);
    EncodeAllCons(host, e, v, rest);
    if rest == [] {
      LastReads(host, e, f, v, n);
    }
  }

  lemma LastReads(host: Endian, e: Endian, f: Flat, v: Value, n: nat)
    requires WellFormed(f) && n == |Encode(host, e, v)| && WellFormed(Past(f, n))
    ensures EncodeAll(host, e, []) == [] && FlatReadAll(host, e, Past(f, n), Schema([])) == Got([], Past(f, n))
    ensures [v] + [] == [v]
  {}

  lemma RestNonEmpty(host: Endian, e: Endian, vs: seq<Value>)
    requires AllInRange(vs)
    ensures vs != [] ==> |EncodeAll(host, e, vs)| > 0
  {
    if vs != [] {
      EncodeNonEmpty(host, e, vs[0]);
    }
  }

  /** Past the old capacity a write leaves no spare cell exactly when it ends on a chunk boundary. */
  lemma EndsAtCapacity(b: nat, chunks: nat, f: Flat, s: seq<Byte>, g: Flat)
    requires b > 0 && WellFormed(f) && |f.mem| == Off(chunks, b) && WriteStep(b, f, s, g)
    ensures g.pos == |g.mem| <==> g.pos >= |f.mem| && g.pos % b == 0
  {
    var k := GrownIsLeast(b, chunks, f.pos, |s|);
    if g.pos == |g.mem| {
      DivIs(g.pos, k, 0, b);
    } else if g.pos >= |f.mem| {
      if k > chunks {
        DivIs(g.pos, k - 1, g.pos - Off(k - 1, b), b);
      }
    }
  }

  lemma RewoundHolds(b: nat, f: Flat, s: seq<Byte>, g: Flat)
    requires b > 0 && WellFormed(f) && WriteStep(b, f, s, g)
    ensures HoldsAt(FlatSeek(g, f.pos), s) && Past(FlatSeek(g, f.pos), |s|) == g
  {}

  // ---------------------------------------------------------------- runs of writes

  /** `fs` are the buffers before, between and after writing the values `vs` one by one. */
  ghost predicate WriteRun(host: Endian, e: Endian, b: nat, chunks: nat, vs: seq<Value>, fs: seq<Flat>) {
    && b > 0 && |fs| == |vs| + 1 && WellFormed(fs[0]) && |fs[0].mem| == Off(chunks, b)
    && forall i {:trigger vs[i]} :: 0 <= i < |vs| ==>
         WellFormed(fs[i]) && WriteStep(b, fs[i], Encode(host, e, vs[i]), fs[i + 1])
  }

  lemma Associate(x: seq<Byte>, y: seq<Byte>, z: seq<Byte>)
    ensures x + (y + z) == (x + y) + z
  {}

  lemma {:induction false} EncodeAllAppend(host: Endian, e: Endian, vs: seq<Value>, v: Value)
    ensures EncodeAll(host, e, vs + [v]) == EncodeAll(host, e, vs) + Encode(host, e, v)
  {
    if vs == [] {
      assert vs + [v] == [v];
      assert EncodeAll(host, e, [v][1..]) == [];
    } else {
      EncodeAllAppend(host, e, vs[1..], v);
      assert (vs + [v])[0] == vs[0] && (vs + [v])[1..] == vs[1..] + [v];
      Associate(Encode(host, e, vs[0]), EncodeAll(host, e, vs[1..]), Encode(host, e, v));
    }
  }

  lemma WriteMore(host: Endian, e: Endian, b: nat, chunks: nat, f: Flat, vs: seq<Value>, g: Flat, v: Value, h: Flat)
    requires b > 0 && WellFormed(f) && |f.mem| == Off(chunks, b)
    requires WriteStep(b, f, EncodeAll(host, e, vs), g) && WriteStep(b, g, Encode(host, e, v), h)
    ensures WriteStep(b, f, EncodeAll(host, e, vs + [v]), h)
  {
    WriteTwice(b, chunks, f, EncodeAll(host, e, vs), g, Encode(host, e, v), h);
    EncodeAllAppend(host, e, vs, v);
  }

  /** Any number of value writes is one write of their encodings. */
  lemma {:induction false} RunIsOneWrite(host: Endian, e: Endian, b: nat, chunks: nat, vs: seq<Value>, fs: seq<Flat>, n: nat)
    requires WriteRun(host, e, b, chunks, vs, fs) && n <= |vs|
    ensures WriteStep(b, fs[0], EncodeAll(host, e, vs[..n]), fs[n])
  {
    if n > 0 {
      RunIsOneWrite(host, e, b, chunks, vs, fs, n - 1);
      var v := vs[n - 1];
      WriteMore(host, e, b, chunks, fs[0], vs[..n - 1], fs[n - 1], v, fs[n]);
      PrefixNext(vs, n);
    }
  }

  lemma PrefixNext(vs: seq<Value>, n: nat)
    requires 0 < n <= |vs|
    ensures vs[..n - 1] + [vs[n - 1]] == vs[..n]
  {}

  /**
    The record round trip: write any list of in-range values one after the other at the cursor, move
    the cursor back to where it was, and read with the same schema. The same list comes back and the
    cursor is at the end, unless the list ends in an empty string and the writes ended on a chunk
    boundary at or past the old capacity. `fs` are the buffers of the run; `b` is the chunk size.
   */
  lemma RecordRoundTrip(host: Endian, e: Endian, b: nat, chunks: nat, vs: seq<Value>, fs: seq<Flat>)
    requires WriteRun(host, e, b, chunks, vs, fs) && AllInRange(vs)
    ensures ReadsBack(host, e, fs[|vs|], fs[0].pos, vs) <==> !EmptyOnBoundary(b, fs[0], vs, fs[|vs|].pos)
  {
    RunIsOneWrite(host, e, b, chunks, vs, fs, |vs|);
    assert vs[..|vs|] == vs;
    OneWriteRoundTrip(host, e, b, chunks, fs[0], vs, fs[|vs|]);
  }

  lemma OneWriteRoundTrip(host: Endian, e: Endian, b: nat, chunks: nat, f: Flat, vs: seq<Value>, g: Flat)
    requires b > 0 && WellFormed(f) && |f.mem| == Off(chunks, b) && AllInRange(vs)
    requires WriteStep(b, f, EncodeAll(host, e, vs), g)
    ensures ReadsBack(host, e, g, f.pos, vs) <==> !EmptyOnBoundary(b, f, vs, g.pos)
  {
    RewoundHolds(b, f, EncodeAll(host, e, vs), g);
    EndsAtCapacity(b, chunks, f, EncodeAll(host, e, vs), g);
    RoundTripFrom(host, e, g, f.pos, vs);
  }

  /** Moving the cursor back to `start` and reading with the schema of `vs` returns `vs` and ends
      exactly where the cursor is now. */
  ghost predicate ReadsBack(host: Endian, e: Endian, g: Flat, start: nat, vs: seq<Value>) {
    && start <= |g.mem| && WellFormed(FlatSeek(g, start))
    && FlatReadAll(host, e, FlatSeek(g, start), Schema(vs)) == Got(vs, g)
  }

  /** The list ends in an empty string and its encoding ends, at `end`, on a chunk boundary at or
      past the capacity there was. */
  predicate EmptyOnBoundary(b: nat, f: Flat, vs: seq<Value>, end: nat)
    requires b > 0
  {
    EndsEmpty(vs) && end >= |f.mem| && end % b == 0
  }

  lemma RoundTripFrom(host: Endian, e: Endian, g: Flat, start: nat, vs: seq<Value>)
    requires start <= |g.mem| && AllInRange(vs) && HoldsAt(FlatSeek(g, start), EncodeAll(host, e, vs))
    requires Past(FlatSeek(g, start), |EncodeAll(host, e, vs)|) == g
    ensures ReadsBack(host, e, g, start, vs) <==> !(EndsEmpty(vs) && g.pos == |g.mem|)
  {
    ListBack(host, e, FlatSeek(g, start), vs);
  }

  /** The excluded case happens: in a fresh buffer of two-byte chunks, writing an empty
      16-bit-prefixed string and reading it back follows the null cursor. */
  lemma EmptyStringAtCapacityFails(host: Endian, e: Endian, f: Flat, g: Flat)
    requires |f.mem| == 2 && f.size == 0 && f.pos == 0
    requires WriteStep(2, f, EncodeAll(host, e, [Str(F16, [])]), g)
    ensures FlatReadAll(host, e, FlatSeek(g, 0), Schema([Str(F16, [])])) == Got<seq<Value>>.Fault(NullCursor, g)
  {
    var vs := [Str(F16, [])];
    assert EncodeAll(host, e, vs[1..]) == [];
    assert |EncodeAll(host, e, vs)| == 2;
    assert |g.mem| == 2;
    assert HoldsAt(FlatSeek(g, 0), EncodeAll(host, e, vs));
    ListBack(host, e, FlatSeek(g, 0), vs);
  }
}
