/** The message classes of chat/protocol.cc: `serializeToByteArray`, `parseFromByteArray` and when the
    second undoes the first. */
module Messages {
  import opened FlatBuffer
  import opened Codec
  import opened Records
  import opened ByteArrays
  import opened BufferCodec

  datatype Message =
    | Request(sn: nat, cmd: nat)
    | Response(sn: nat, cmd: nat, result: nat, text: seq<Byte>)
    | Notify(notify: nat)

  /** The 32-bit fields are in range; a text is short enough for its length prefix. */
  predicate Fits(m: Message) {
    match m
    case Request(sn, cmd) => sn < LIMIT32 && cmd < LIMIT32
    case Response(sn, cmd, result, text) => sn < LIMIT32 && cmd < LIMIT32 && result < LIMIT32 && |text| < LIMIT32
    case Notify(notify) => notify < LIMIT32
  }

  /** The type byte. */
  function TypeOf(m: Message): nat {
    match m
    case Request(_, _) => 1
    case Response(_, _, _, _) => 2
    case Notify(_) => 3
  }

  /** The fields behind the type byte. */
  function Fields(m: Message): seq<Value> {
    match m
    case Request(sn, cmd) => [Fixed(4, sn), Fixed(4, cmd)]
    case Response(sn, cmd, result, text) => [Fixed(4, sn), Fixed(4, cmd), Fixed(4, result), Str(F32, text)]
    case Notify(notify) => [Fixed(4, notify)]
  }

  function Values(m: Message): seq<Value> {
    [Fixed(1, TypeOf(m))] + Fields(m)
  }

  lemma ValuesInRange(m: Message)
    requires Fits(m)
    ensures AllInRange(Values(m)) && AllInRange(Fields(m))
  {}

  // ---------------------------------------------------------------- the bytes on the wire

  /** Bytes `i` to `i + 3` are the 32-bit number `n`. */
  ghost predicate FieldAt(b: seq<Byte>, i: nat, e: Endian, n: nat) {
    i + 4 <= |b| && AreBytes(b[i..i + 4], n, e)
  }

  /** A 32-bit field and what follows it. */
  lemma FieldFirst(host: Endian, e: Endian, n: nat, rest: seq<Byte>)
    requires n < LIMIT32
    ensures var b := Encode(host, e, Fixed(4, n)) + rest; FieldAt(b, 0, e, n) && b[4..] == rest
  {
    FixedIsBytes(host, e, n, 4);
    var x := Encode(host, e, Fixed(4, n));
    assert (x + rest)[0..4] == x && (x + rest)[4..] == rest;
  }

  lemma FieldLater(b: seq<Byte>, i: nat, k: nat, e: Endian, n: nat)
    requires k <= |b| && FieldAt(b[k..], i, e, n)
    ensures FieldAt(b, k + i, e, n)
  {
    assert b[k..][i..i + 4] == b[k + i..k + i + 4];
  }

  lemma TypeFirst(host: Endian, e: Endian, t: nat, rest: seq<Byte>)
    requires t < 256
    ensures var b := Encode(host, e, Fixed(1, t)) + rest; b[0] == t && b[1..] == rest
  {
    FixedIsBytes(host, e, t, 1);
    var x := Encode(host, e, Fixed(1, t));
    assert x[0] == Digit256(t, 0);
    assert (x + rest)[1..] == rest;
  }

  lemma TwoFields(host: Endian, e: Endian, m: nat, n: nat, rest: seq<Value>)
    requires m < LIMIT32 && n < LIMIT32
    ensures var b := EncodeAll(host, e, [Fixed(4, m), Fixed(4, n)] + rest);
            FieldAt(b, 0, e, m) && FieldAt(b, 4, e, n) && b[8..] == EncodeAll(host, e, rest)
  {
    var vs := [Fixed(4, m), Fixed(4, n)] + rest;
    assert vs == [Fixed(4, m)] + ([Fixed(4, n)] + rest);
    EncodeAllCons(host, e, Fixed(4, m), [Fixed(4, n)] + rest);
    EncodeAllCons(host, e, Fixed(4, n), rest);
    var b, c := EncodeAll(host, e, vs), EncodeAll(host, e, [Fixed(4, n)] + rest);
    FieldFirst(host, e, m, c);
    FieldFirst(host, e, n, EncodeAll(host, e, rest));
    FieldLater(b, 0, 4, e, n);
    assert b[8..] == b[4..][4..];
  }

  /** A message on the wire: its type in one byte, then each field at its offset, and a text behind its length. */
  lemma MessageLayout(host: Endian, e: Endian, m: Message)
    requires Fits(m)
    ensures var b := EncodeAll(host, e, Values(m));
            match m
            case Request(sn, cmd) => |b| == 9 && b[0] == 1 && FieldAt(b, 1, e, sn) && FieldAt(b, 5, e, cmd)
            case Response(sn, cmd, result, text) =>
              && |b| == 17 + |text| && b[0] == 2
              && FieldAt(b, 1, e, sn) && FieldAt(b, 5, e, cmd) && FieldAt(b, 9, e, result) && FieldAt(b, 13, e, |text|)
              && b[17..] == text
            case Notify(notify) => |b| == 5 && b[0] == 3 && FieldAt(b, 1, e, notify)
  {
    var b, rest := EncodeAll(host, e, Values(m)), EncodeAll(host, e, Fields(m));
    EncodeAllCons(host, e, Fixed(1, TypeOf(m)), Fields(m));
    TypeFirst(host, e, TypeOf(m), rest);
    match m
    case Request(sn, cmd) =>
      assert Fields(m) == [Fixed(4, sn), Fixed(4, cmd)] + [];
      TwoFields(host, e, sn, cmd, []);
      FieldLater(b, 0, 1, e, sn);
      FieldLater(b, 4, 1, e, cmd);
    case Response(sn, cmd, result, text) => ResponseLayout(host, e, m, rest); ResponseShifted(b, rest, e, m);
    case Notify(notify) =>
      assert Fields(m) == [Fixed(4, notify)] + [];
      EncodeAllCons(host, e, Fixed(4, notify), []);
      FieldFirst(host, e, notify, []);
      FieldLater(b, 0, 1, e, notify);
  }

  ghost predicate ResponseAt(b: seq<Byte>, k: nat, e: Endian, m: Message)
    requires m.Response?
  {
    && |b| == k + 16 + |m.text|
    && FieldAt(b, k, e, m.sn) && FieldAt(b, k + 4, e, m.cmd) && FieldAt(b, k + 8, e, m.result) && FieldAt(b, k + 12, e, |m.text|)
    && b[k + 16..] == m.text
  }

  lemma EncodeOne(host: Endian, e: Endian, v: Value)
    ensures EncodeAll(host, e, [v]) == Encode(host, e, v)
  {
    assert [v] == [v] + [];
    EncodeAllCons(host, e, v, []);
  }

  lemma TextAlone(host: Endian, e: Endian, text: seq<Byte>)
    requires |text| < LIMIT32
    ensures var b := EncodeAll(host, e, [Str(F32, text)]); FieldAt(b, 0, e, |text|) && b[4..] == text
  {
    EncodeOne(host, e, Str(F32, text));
    StringLayout(host, e, text);
    var b := Encode(host, e, Str(F32, text));
    assert b[0..4] == b[..4];
  }

  lemma ResultAndText(host: Endian, e: Endian, result: nat, text: seq<Byte>)
    requires result < LIMIT32 && |text| < LIMIT32
    ensures var b := EncodeAll(host, e, [Fixed(4, result), Str(F32, text)]);
            FieldAt(b, 0, e, result) && FieldAt(b, 4, e, |text|) && b[8..] == text
  {
    var last := [Str(F32, text)];
    assert [Fixed(4, result), Str(F32, text)] == [Fixed(4, result)] + last;
    EncodeAllCons(host, e, Fixed(4, result), last);
    TextAlone(host, e, text);
    FieldFirst(host, e, result, EncodeAll(host, e, last));
    var b := EncodeAll(host, e, [Fixed(4, result)] + last);
    FieldLater(b, 0, 4, e, |text|);
    assert b[8..] == b[4..][4..];
  }

  lemma ResponseLayout(host: Endian, e: Endian, m: Message, b: seq<Byte>)
    requires m.Response? && Fits(m) && b == EncodeAll(host, e, Fields(m))
    ensures ResponseAt(b, 0, e, m)
  {
    var tail := [Fixed(4, m.result), Str(F32, m.text)];
    assert Fields(m) == [Fixed(4, m.sn), Fixed(4, m.cmd)] + tail;
    TwoFields(host, e, m.sn, m.cmd, tail);
    ResultAndText(host, e, m.result, m.text);
    FieldLater(b, 0, 8, e, m.result);
    FieldLater(b, 4, 8, e, |m.text|);
    assert b[16..] == b[8..][8..];
  }

  lemma ResponseShifted(b: seq<Byte>, rest: seq<Byte>, e: Endian, m: Message)
    requires m.Response? && ResponseAt(rest, 0, e, m) && |b| > 0 && b[1..] == rest
    ensures ResponseAt(b, 1, e, m)
  {
    FieldLater(b, 0, 1, e, m.sn);
    FieldLater(b, 4, 1, e, m.cmd);
    FieldLater(b, 8, 1, e, m.result);
    FieldLater(b, 12, 1, e, |m.text|);
    assert b[17..] == rest[16..];
  }

  // ---------------------------------------------------------------- serialize

  /** From `f`, the values `vs` were written and nothing else. */
  ghost predicate Wrote(host: Endian, e: Endian, b: nat, f: Flat, vs: seq<Value>, g: Flat) {
    b > 0 && WellFormed(f) && WriteStep(b, f, EncodeAll(host, e, vs), g)
  }

  lemma WroteNothing(host: Endian, e: Endian, b: nat, f: Flat)
    requires b > 0 && WellFormed(f)
    ensures Wrote(host, e, b, f, [], f)
  {}

  lemma WroteMore(host: Endian, e: Endian, b: nat, chunks: nat, f: Flat, vs: seq<Value>, g: Flat, v: Value, h: Flat)
    requires Wrote(host, e, b, f, vs, g) && |f.mem| == Off(chunks, b) && WriteStep(b, g, Encode(host, e, v), h)
    ensures Wrote(host, e, b, f, vs + [v], h)
  {
    WriteMore(host, e, b, chunks, f, vs, g, v, h);
  }

  /** One more field behind the values written since `f`. */
  method WriteOne(ba: ByteArray, host: Endian, e: Endian, ghost f: Flat, ghost chunks: nat, ghost vs: seq<Value>, v: Value)
    requires ba.Valid() && InRange(v) && |f.mem| == Off(chunks, ba.baseSize)
    requires Wrote(host, e, ba.baseSize, f, vs, ba.View())
    modifies ba.Repr
    ensures ba.Valid() && fresh(ba.Repr - old(ba.Repr))
    ensures Wrote(host, e, ba.baseSize, f, vs + [v], ba.View())
  {
    ghost var g := ba.View();
    WriteValue(ba, host, e, v);
    WroteMore(host, e, ba.baseSize, chunks, f, vs, g, v, ba.View());
  }

  method WriteTwo(ba: ByteArray, host: Endian, e: Endian, ghost f: Flat, ghost chunks: nat, ghost vs: seq<Value>, v: Value, u: Value)
    requires ba.Valid() && InRange(v) && InRange(u) && |f.mem| == Off(chunks, ba.baseSize)
    requires Wrote(host, e, ba.baseSize, f, vs, ba.View())
    modifies ba.Repr
    ensures ba.Valid() && fresh(ba.Repr - old(ba.Repr))
    ensures Wrote(host, e, ba.baseSize, f, vs + [v, u], ba.View())
  {
    WriteOne(ba, host, e, f, chunks, vs, v);
    WriteOne(ba, host, e, f, chunks, vs + [v], u);
    assert vs + [v] + [u] == vs + [v, u];
  }

  /** `serializeToByteArray`: the type byte and the fields, in order. */
  method SerializeRequest(ba: ByteArray, host: Endian, e: Endian, m: Message)
    requires ba.Valid() && Fits(m) && m.Request?
    modifies ba.Repr
    ensures ba.Valid() && fresh(ba.Repr - old(ba.Repr))
    ensures Wrote(host, e, ba.baseSize, old(ba.View()), Values(m), ba.View())
  {
    ghost var f, chunks := ba.View(), |ba.nodes|;
    WroteNothing(host, e, ba.baseSize, f);
    WriteOne(ba, host, e, f, chunks, [], Fixed(1, 1));
    WriteTwo(ba, host, e, f, chunks, [] + [Fixed(1, 1)], Fixed(4, m.sn), Fixed(4, m.cmd));
    assert [] + [Fixed(1, 1)] + [Fixed(4, m.sn), Fixed(4, m.cmd)] == Values(m);
  }

  method SerializeResponse(ba: ByteArray, host: Endian, e: Endian, m: Message)
    requires ba.Valid() && Fits(m) && m.Response?
    modifies ba.Repr
    ensures ba.Valid() && fresh(ba.Repr - old(ba.Repr))
    ensures Wrote(host, e, ba.baseSize, old(ba.View()), Values(m), ba.View())
  {
    ghost var f, chunks := ba.View(), |ba.nodes|;
    WroteNothing(host, e, ba.baseSize, f);
    WriteOne(ba, host, e, f, chunks, [], Fixed(1, 2));
    WriteFour(ba, host, e, f, chunks, [] + [Fixed(1, 2)], Fixed(4, m.sn), Fixed(4, m.cmd), Fixed(4, m.result), Str(F32, m.text));
    assert [] + [Fixed(1, 2)] + [Fixed(4, m.sn), Fixed(4, m.cmd), Fixed(4, m.result), Str(F32, m.text)] == Values(m);
  }

  method WriteFour(ba: ByteArray, host: Endian, e: Endian, ghost f: Flat, ghost chunks: nat, ghost vs: seq<Value>,
                   v: Value, u: Value, x: Value, y: Value)
    requires ba.Valid() && InRange(v) && InRange(u) && InRange(x) && InRange(y) && |f.mem| == Off(chunks, ba.baseSize)
    requires Wrote(host, e, ba.baseSize, f, vs, ba.View())
    modifies ba.Repr
    ensures ba.Valid() && fresh(ba.Repr - old(ba.Repr))
    ensures Wrote(host, e, ba.baseSize, f, vs + [v, u, x, y], ba.View())
  {
    WriteTwo(ba, host, e, f, chunks, vs, v, u);
    WriteTwo(ba, host, e, f, chunks, vs + [v, u], x, y);
    assert vs + [v, u] + [x, y] == vs + [v, u, x, y];
  }

  method SerializeNotify(ba: ByteArray, host: Endian, e: Endian, m: Message)
    requires ba.Valid() && Fits(m) && m.Notify?
    modifies ba.Repr
    ensures ba.Valid() && fresh(ba.Repr - old(ba.Repr))
    ensures Wrote(host, e, ba.baseSize, old(ba.View()), Values(m), ba.View())
  {
    ghost var f, chunks := ba.View(), |ba.nodes|;
    WroteNothing(host, e, ba.baseSize, f);
    WriteTwo(ba, host, e, f, chunks, [], Fixed(1, 3), Fixed(4, m.notify));
    assert [] + [Fixed(1, 3), Fixed(4, m.notify)] == Values(m);
  }

  // ---------------------------------------------------------------- parse

  /** The kinds that the parser of a type reads, in order. */
  function Kinds(t: nat): seq<Kind> {
    if t == 1 then [KFixed(4), KFixed(4)]
    else if t == 2 then [KFixed(4), KFixed(4), KFixed(4), KStr(F32)]
    else [KFixed(4)]
  }

  /** The message of type `t` with these fields. */
  function FromFields(t: nat, vs: seq<Value>): (r: Outcome<Message>) {
    if t == 1 && |vs| == 2 && vs[0].Fixed? && vs[1].Fixed? then Ok(Request(vs[0].n, vs[1].n))
    else if t == 2 && |vs| == 4 && vs[0].Fixed? && vs[1].Fixed? && vs[2].Fixed? && vs[3].Str? then
      Ok(Response(vs[0].n, vs[1].n, vs[2].n, vs[3].s))
    else if t == 3 && |vs| == 1 && vs[0].Fixed? then Ok(Notify(vs[0].n))
    else Fail(OutOfRange)
  }

  lemma FieldsBack(m: Message)
    ensures FromFields(TypeOf(m), Fields(m)) == Ok(m)
  {}

  lemma FieldsSchema(m: Message)
    ensures Schema(Fields(m)) == Kinds(TypeOf(m))
  {
    match m
    case Request(sn, cmd) => SchemaOne(Fixed(4, sn), [Fixed(4, cmd)]); SchemaOne(Fixed(4, cmd), []);
    case Response(sn, cmd, result, text) =>
      SchemaOne(Fixed(4, sn), [Fixed(4, cmd), Fixed(4, result), Str(F32, text)]);
      SchemaOne(Fixed(4, cmd), [Fixed(4, result), Str(F32, text)]);
      SchemaOne(Fixed(4, result), [Str(F32, text)]);
      SchemaOne(Str(F32, text), []);
    case Notify(notify) => SchemaOne(Fixed(4, notify), []);
  }

  lemma SchemaOne(v: Value, rest: seq<Value>)
    ensures Schema([v] + rest) == [KindOf(v)] + Schema(rest)
  {
    assert ([v] + rest)[1..] == rest;
  }

  /** Fields of the right kinds make up one message only. */
  lemma OnlyFields(m: Message, vs: seq<Value>)
    requires Schema(vs) == Kinds(TypeOf(m)) && FromFields(TypeOf(m), vs) == Ok(m)
    ensures vs == Fields(m)
  {
    var ks := Kinds(TypeOf(m));
    forall i | 0 <= i < |vs| ensures |vs| == |ks| && KindOf(vs[i]) == ks[i] {
      SchemaAt(vs, i);
    }
  }

  lemma {:induction false} SchemaAt(vs: seq<Value>, i: nat)
    requires i < |vs|
    ensures |Schema(vs)| == |vs| && Schema(vs)[i] == KindOf(vs[i])
  {
    if |vs| > 1 {
      SchemaAt(vs[1..], if i == 0 then 0 else i - 1);
    }
  }

  lemma {:induction false} ReadsItsKinds(host: Endian, e: Endian, f: Flat, ks: seq<Kind>)
    requires WellFormed(f) && FlatReadAll(host, e, f, ks).Got?
    ensures Schema(FlatReadAll(host, e, f, ks).value) == ks
    decreases |ks|
  {
    if ks != [] {
      var one := FlatReadValue(host, e, f, ks[0]);
      ReadAllUnfold(host, e, f, ks);
      ReadsItsKinds(host, e, one.after, ks[1..]);
      ReadsItsKind(host, e, f, ks[0]);
      SchemaOne(one.value, FlatReadAll(host, e, one.after, ks[1..]).value);
      assert ks == [ks[0]] + ks[1..];
    }
  }

  lemma ReadAllUnfold(host: Endian, e: Endian, f: Flat, ks: seq<Kind>)
    requires WellFormed(f) && ks != [] && FlatReadAll(host, e, f, ks).Got?
    ensures var one := FlatReadValue(host, e, f, ks[0]);
            && one.Got? && FlatReadAll(host, e, one.after, ks[1..]).Got?
            && FlatReadAll(host, e, f, ks).value == [one.value] + FlatReadAll(host, e, one.after, ks[1..]).value
  {}

  /** `parseFromByteArray` of a message of type `t` on the flat buffer. */
  function ParseFlat(host: Endian, e: Endian, f: Flat, t: nat): (r: Got<Message>)
    requires WellFormed(f)
  {
    match FlatReadAll(host, e, f, Kinds(t))
    case Fault(why, g) => Fault(why, g)
    case Got(vs, g) => Pack(FromFields(t, vs), g)
  }

  /** The values `done` and then whatever `rest` holds. */
  function Then(done: seq<Value>, rest: Got<seq<Value>>): Got<seq<Value>> {
    match rest
    case Fault(why, g) => Fault(why, g)
    case Got(vs, g) => Got(done + vs, g)
  }

  lemma ThenNext(host: Endian, e: Endian, f: Flat, done: seq<Value>, ks: seq<Kind>)
    requires WellFormed(f) && ks != []
    ensures var one := FlatReadValue(host, e, f, ks[0]);
            Then(done, FlatReadAll(host, e, f, ks)) ==
              if one.Fault? then Got<seq<Value>>.Fault(one.why, one.after)
              else Then(done + [one.value], FlatReadAll(host, e, one.after, ks[1..]))
  {
    var one := FlatReadValue(host, e, f, ks[0]);
    if one.Got? {
      var rest := FlatReadAll(host, e, one.after, ks[1..]);
      if rest.Got? {
        assert done + ([one.value] + rest.value) == done + [one.value] + rest.value;
      }
    }
  }

  /** The values read so far and those still to be read make up `all`. */
  ghost predicate Reading(host: Endian, e: Endian, all: Got<seq<Value>>, done: seq<Value>, f: Flat, ks: seq<Kind>) {
    WellFormed(f) && Then(done, FlatReadAll(host, e, f, ks)) == all
  }

  lemma ReadingAll(host: Endian, e: Endian, f: Flat, ks: seq<Kind>)
    requires WellFormed(f)
    ensures Reading(host, e, FlatReadAll(host, e, f, ks), [], f, ks)
  {
    var all := FlatReadAll(host, e, f, ks);
    if all.Got? {
      assert [] + all.value == all.value;
    }
  }

  lemma ReadingDone(host: Endian, e: Endian, all: Got<seq<Value>>, done: seq<Value>, f: Flat)
    requires Reading(host, e, all, done, f, [])
    ensures all == Got(done, f)
  {
    assert done + [] == done;
  }

  lemma ReadingNext(host: Endian, e: Endian, all: Got<seq<Value>>, done: seq<Value>, f: Flat, k: Kind, ks: seq<Kind>)
    requires Reading(host, e, all, done, f, [k] + ks)
    ensures var one := FlatReadValue(host, e, f, k);
            if one.Fault? then all == Got<seq<Value>>.Fault(one.why, one.after)
            else Reading(host, e, all, done + [one.value], one.after, ks)
  {
    assert ([k] + ks)[1..] == ks;
    ThenNext(host, e, f, done, [k] + ks);
  }

  /** The next field. */
  method ReadOne(ba: ByteArray, host: Endian, e: Endian, ghost all: Got<seq<Value>>, ghost done: seq<Value>, k: Kind, ghost ks: seq<Kind>)
    returns (r: Outcome<Value>)
    requires ba.Valid() && KindOk(k) && Reading(host, e, all, done, ba.View(), [k] + ks)
    modifies ba`position, ba`cur, ba`index
    ensures ba.Valid()
    ensures r.Ok? ==> Reading(host, e, all, done + [r.value], ba.View(), ks) && KindOf(r.value) == k
    ensures r.Fail? ==> all == Got<seq<Value>>.Fault(r.why, ba.View())
  {
    ReadingNext(host, e, all, done, ba.View(), k, ks);
    ReadsItsKind(host, e, ba.View(), k);
    r := ReadValue(ba, host, e, k);
  }

  lemma ReadsItsKind(host: Endian, e: Endian, f: Flat, k: Kind)
    requires WellFormed(f)
    ensures FlatReadValue(host, e, f, k).Got? ==> KindOf(FlatReadValue(host, e, f, k).value) == k
  {}

  /** A 32-bit field and one more of kind `k`. */
  method ReadTwo(ba: ByteArray, host: Endian, e: Endian, ghost all: Got<seq<Value>>, ghost done: seq<Value>, k: Kind, ghost ks: seq<Kind>)
    returns (n: nat, r: Outcome<Value>)
    requires ba.Valid() && KindOk(k) && Reading(host, e, all, done, ba.View(), [KFixed(4), k] + ks)
    modifies ba`position, ba`cur, ba`index
    ensures ba.Valid()
    ensures r.Ok? ==> Reading(host, e, all, done + [Fixed(4, n), r.value], ba.View(), ks) && KindOf(r.value) == k
    ensures r.Fail? ==> all == Got<seq<Value>>.Fault(r.why, ba.View())
  {
    assert [KFixed(4), k] + ks == [KFixed(4)] + ([k] + ks);
    var first := ReadOne(ba, host, e, all, done, KFixed(4), [k] + ks);
    if first.Fail? { return 0, first; }
    n := first.value.n;
    r := ReadOne(ba, host, e, all, done + [first.value], k, ks);
    assert r.Ok? ==> done + [first.value] + [r.value] == done + [Fixed(4, n), r.value];
  }

  method ParseRequest(ba: ByteArray, host: Endian, e: Endian) returns (r: Outcome<Message>)
    requires ba.Valid()
    modifies ba`position, ba`cur, ba`index
    ensures ba.Valid()
    ensures Pack(r, ba.View()) == ParseFlat(host, e, old(ba.View()), 1)
  {
    ghost var all := FlatReadAll(host, e, ba.View(), Kinds(1));
    ReadingAll(host, e, ba.View(), Kinds(1));
    assert Kinds(1) == [KFixed(4), KFixed(4)] + [];
    var sn, cmd := ReadTwo(ba, host, e, all, [], KFixed(4), []);
    if cmd.Fail? { return Fail(cmd.why); }
    ReadingDone(host, e, all, [] + [Fixed(4, sn), cmd.value], ba.View());
    return Ok(Request(sn, cmd.value.n));
  }

  method ParseResponse(ba: ByteArray, host: Endian, e: Endian) returns (r: Outcome<Message>)
    requires ba.Valid()
    modifies ba`position, ba`cur, ba`index
    ensures ba.Valid()
    ensures Pack(r, ba.View()) == ParseFlat(host, e, old(ba.View()), 2)
  {
    ghost var all := FlatReadAll(host, e, ba.View(), Kinds(2));
    ReadingAll(host, e, ba.View(), Kinds(2));
    ghost var tail := [KFixed(4), KStr(F32)] + [];
    assert Kinds(2) == [KFixed(4), KFixed(4)] + tail;
    var sn, cmd := ReadTwo(ba, host, e, all, [], KFixed(4), tail);
    if cmd.Fail? { return Fail(cmd.why); }
    r := ParseResult(ba, host, e, all, sn, cmd.value);
  }

  /** The last two fields of a response. */
  method ParseResult(ba: ByteArray, host: Endian, e: Endian, ghost all: Got<seq<Value>>, sn: nat, cmd: Value) returns (r: Outcome<Message>)
    requires ba.Valid() && KindOf(cmd) == KFixed(4)
    requires Reading(host, e, all, [] + [Fixed(4, sn), cmd], ba.View(), [KFixed(4), KStr(F32)] + [])
    modifies ba`position, ba`cur, ba`index
    ensures ba.Valid()
    ensures r.Fail? ==> all == Got<seq<Value>>.Fault(r.why, ba.View())
    ensures r.Ok? ==> exists vs :: all == Got(vs, ba.View()) && FromFields(2, vs) == r
  {
    ghost var head := [] + [Fixed(4, sn), cmd];
    var result, text := ReadTwo(ba, host, e, all, head, KStr(F32), []);
    if text.Fail? { return Fail(text.why); }
    ReadingDone(host, e, all, head + [Fixed(4, result), text.value], ba.View());
    r := ResponseOf(sn, cmd, result, text.value, head);
  }

  /** The response that its four fields make up. */
  method ResponseOf(sn: nat, cmd: Value, result: nat, text: Value, ghost head: seq<Value>) returns (r: Outcome<Message>)
    requires head == [Fixed(4, sn), cmd] && KindOf(cmd) == KFixed(4) && KindOf(text) == KStr(F32)
    ensures r == FromFields(2, head + [Fixed(4, result), text])
  {
    r := Ok(Response(sn, cmd.n, result, text.s));
  }

  method ParseNotify(ba: ByteArray, host: Endian, e: Endian) returns (r: Outcome<Message>)
    requires ba.Valid()
    modifies ba`position, ba`cur, ba`index
    ensures ba.Valid()
    ensures Pack(r, ba.View()) == ParseFlat(host, e, old(ba.View()), 3)
  {
    ghost var all := FlatReadAll(host, e, ba.View(), Kinds(3));
    ReadingAll(host, e, ba.View(), Kinds(3));
    assert Kinds(3) == [KFixed(4)] + [];
    var notify := ReadOne(ba, host, e, all, [], KFixed(4), []);
    if notify.Fail? { return Fail(notify.why); }
    ReadingDone(host, e, all, [] + [notify.value], ba.View());
    return Ok(Notify(notify.value.n));
  }

  // ---------------------------------------------------------------- round trip

  /** Reading the type byte and then parsing gives `m` back and stops where the writer stopped. */
  ghost predicate ComesBack(host: Endian, e: Endian, f: Flat, m: Message, g: Flat)
    requires WellFormed(f)
  {
    var t := FlatReadFixed(host, e, f, 1);
    t.Got? && t.value == TypeOf(m) && ParseFlat(host, e, t.after, TypeOf(m)) == Got(m, g)
  }

  lemma BackIffList(host: Endian, e: Endian, f: Flat, m: Message, g: Flat)
    requires WellFormed(f)
    ensures ComesBack(host, e, f, m, g) <==> FlatReadAll(host, e, f, Schema(Values(m))) == Got(Values(m), g)
  {
    var type0 := Fixed(1, TypeOf(m));
    ReadAllCons(host, e, f, type0, Fields(m));
    FieldsSchema(m);
    var t := FlatReadFixed(host, e, f, 1);
    if t.Got? {
      FieldsIff(host, e, t.after, m, g);
      var rest := FlatReadAll(host, e, t.after, Kinds(TypeOf(m)));
      if rest.Got? {
        HeadTail(Fixed(1, t.value), rest.value, type0, Fields(m));
      }
    }
  }

  lemma FieldsIff(host: Endian, e: Endian, f: Flat, m: Message, g: Flat)
    requires WellFormed(f)
    ensures ParseFlat(host, e, f, TypeOf(m)) == Got(m, g) <==> FlatReadAll(host, e, f, Kinds(TypeOf(m))) == Got(Fields(m), g)
  {
    FieldsBack(m);
    var r := FlatReadAll(host, e, f, Kinds(TypeOf(m)));
    if r.Got? && FromFields(TypeOf(m), r.value) == Ok(m) {
      ReadsItsKinds(host, e, f, Kinds(TypeOf(m)));
      OnlyFields(m, r.value);
    }
  }

  lemma HeadTail(v: Value, vs: seq<Value>, u: Value, us: seq<Value>)
    ensures [v] + vs == [u] + us <==> v == u && vs == us
  {
    if [v] + vs == [u] + us {
      assert ([v] + vs)[0] == v && ([u] + us)[0] == u;
      assert ([v] + vs)[1..] == vs && ([u] + us)[1..] == us;
    }
  }

  /** Serialized at the cursor of any buffer, then parsed from where it started, a message is unchanged,
      unless it is a response with an empty text whose encoding ends on a chunk boundary at or past the
      capacity there was. */
  lemma MessageRoundTrip(host: Endian, e: Endian, b: nat, chunks: nat, f: Flat, m: Message, g: Flat)
    requires b > 0 && WellFormed(f) && |f.mem| == Off(chunks, b) && Fits(m)
    requires WriteStep(b, f, EncodeAll(host, e, Values(m)), g)
    ensures f.pos <= |g.mem| && WellFormed(FlatSeek(g, f.pos))
    ensures ComesBack(host, e, FlatSeek(g, f.pos), m, g) <==>
              !(m.Response? && m.text == [] && g.pos >= |f.mem| && g.pos % b == 0)
  {
    ValuesInRange(m);
    OneWriteRoundTrip(host, e, b, chunks, f, Values(m), g);
    BackIffList(host, e, FlatSeek(g, f.pos), m, g);
  }
}
