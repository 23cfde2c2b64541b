/**
  The typed `write*`/`read*` methods of chat/bytearray.cc, proved against the flat record codec.
 */
module BufferCodec {
  import opened FlatBuffer
  import opened Codec
  import opened Records
  import opened ByteArrays

  /** `writeFint8` ... `writeFuint64`: a signed value is passed as its bit pattern. */
  method WriteFixed(ba: ByteArray, host: Endian, e: Endian, v: nat, w: nat)
    requires ba.Valid()
    modifies ba.Repr
    ensures ba.Valid() && fresh(ba.Repr - old(ba.Repr)) && old(ba.nodes) <= ba.nodes
    ensures WriteStep(ba.baseSize, old(ba.View()), Encode(host, e, Fixed(w, v)), ba.View())
  {
    ba.Write(FixedBytes(host, e, v, w));
  }

  method ReadFixed(ba: ByteArray, host: Endian, e: Endian, w: nat) returns (r: Outcome<nat>)
    requires ba.Valid()
    modifies ba`position, ba`cur, ba`index
    ensures ba.Valid()
    ensures Pack(r, ba.View()) == FlatReadFixed(host, e, old(ba.View()), w)
  {
    var s := ba.Read(w);
    match s
    case Ok(bytes) => r := Ok(FixedValue(host, e, bytes));
    case Fail(why) => r := Fail(why);
  }

  lemma VarintFits(v: nat, bits: nat)
    requires bits in {32, 64} && v < Limit(bits / 8)
    ensures |VarintBytes(v)| <= if bits == 32 then 5 else 10
  {
    LimitIsPow2(bits / 8);
    Pow2Monotone(bits, if bits == 32 then 35 else 70);
    VarintLength(v, if bits == 32 then 5 else 10);
  }

  /** `writeUint32`/`writeUint64`: the digits are staged in a 5- or 10-byte scratch buffer. */
  method WriteVarint(ba: ByteArray, v: nat, bits: nat)
    requires ba.Valid() && bits in {32, 64} && v < Limit(bits / 8)
    modifies ba.Repr
    ensures ba.Valid() && fresh(ba.Repr - old(ba.Repr)) && old(ba.nodes) <= ba.nodes
    ensures WriteStep(ba.baseSize, old(ba.View()), VarintBytes(v), ba.View())
  {
    var digits := StageVarint(v, bits);
    ba.Write(digits);
  }

  lemma VarintNext(done: seq<Byte>, value: nat)
    requires value >= 0x80
    ensures done + VarintBytes(value) == (done + [value % 128 + 128]) + VarintBytes(value / 128)
    ensures |VarintBytes(value)| >= 2
  {
    assert VarintBytes(value) == [value % 128 + 128] + VarintBytes(value / 128);
  }

  method StageVarint(v: nat, bits: nat) returns (digits: seq<Byte>)
    requires bits in {32, 64} && v < Limit(bits / 8)
    ensures digits == VarintBytes(v)
    ensures |digits| <= if bits == 32 then 5 else 10
  {
    VarintFits(v, bits);
    var tmp := new Byte[if bits == 32 then 5 else 10];
    var i, value := 0, v;
    ghost var done: seq<Byte> := [];
    while value >= 0x80
      invariant 0 <= i <= tmp.Length && done == tmp[..i]
      invariant VarintBytes(v) == done + VarintBytes(value)
      decreases value
    {
      VarintNext(done, value);
      tmp[i] := value % 128 + 128;
      done := done + [value % 128 + 128];
      i, value := i + 1, value / 128;
    }
    tmp[i] := value;
    i := i + 1;
    digits := tmp[..i];
  }

  method ReadVarint(ba: ByteArray, bits: nat) returns (r: Outcome<nat>)
    requires ba.Valid() && bits in {32, 64}
    modifies ba`position, ba`cur, ba`index
    ensures ba.Valid()
    ensures Pack(r, ba.View()) == FlatReadVarint(old(ba.View()), bits, 0, 0)
  {
    var result: nat := 0;
    var i: nat := 0;
    while i < bits
      invariant ba.Valid()
      invariant FlatReadVarint(old(ba.View()), bits, 0, 0) == FlatReadVarint(ba.View(), bits, i, result)
      decreases bits - i
    {
      var s := ba.Read(1);
      match s {
        case Fail(why) => return Fail(why);
        case Ok(bytes) =>
          var b := bytes[0];
          if b < 0x80 {
            result := Or(result, b * Pow2(i) % Pow2(bits));
            return Ok(result);
          }
          result := Or(result, b % 128 * Pow2(i) % Pow2(bits));
      }
      i := i + 7;
    }
    r := Ok(result);
  }

  /** `writeInt32`, the value given as its two's complement pattern. */
  method WriteInt32(ba: ByteArray, host: Endian, e: Endian, x: bv32)
    requires ba.Valid()
    modifies ba.Repr
    ensures ba.Valid() && fresh(ba.Repr - old(ba.Repr)) && old(ba.nodes) <= ba.nodes
    ensures WriteStep(ba.baseSize, old(ba.View()), Encode(host, e, Zig32(x)), ba.View())
  {
    FromBv32(EncodeZigzag32(x));
    WriteVarint(ba, EncodeZigzag32(x) as nat, 32);
  }

  method WriteInt64(ba: ByteArray, host: Endian, e: Endian, y: bv64)
    requires ba.Valid()
    modifies ba.Repr
    ensures ba.Valid() && fresh(ba.Repr - old(ba.Repr)) && old(ba.nodes) <= ba.nodes
    ensures WriteStep(ba.baseSize, old(ba.View()), Encode(host, e, Zig64(y)), ba.View())
  {
    FromBv64(EncodeZigzag64(y));
    WriteVarint(ba, EncodeZigzag64(y) as nat, 64);
  }

  method WritePrefix(ba: ByteArray, host: Endian, e: Endian, p: Prefix, len: nat)
    requires ba.Valid()
    modifies ba.Repr
    ensures ba.Valid() && fresh(ba.Repr - old(ba.Repr))
    ensures WriteStep(ba.baseSize, old(ba.View()), PrefixBytes(host, e, p, len), ba.View())
  {
    if p.Vint? {
      WriteVarint(ba, len % LIMIT64, 64);
    } else {
      WriteFixed(ba, host, e, len % PrefixLimit(p), PrefixWidth(p));
    }
  }

  /** `writeStringF16/F32/F64/Vint`: the prefix, then the bytes. */
  method WriteString(ba: ByteArray, host: Endian, e: Endian, p: Prefix, s: seq<Byte>)
    requires ba.Valid()
    modifies ba.Repr
    ensures ba.Valid() && fresh(ba.Repr - old(ba.Repr))
    ensures WriteStep(ba.baseSize, old(ba.View()), PrefixBytes(host, e, p, |s|) + s, ba.View())
  {
    WritePrefix(ba, host, e, p, |s|);
    ghost var g := ba.View();
    ba.Write(s);
    WriteTwice(ba.baseSize, |old(ba.nodes)|, old(ba.View()), PrefixBytes(host, e, p, |s|), g, s, ba.View());
  }

  // ---------------------------------------------------------------- any value

  ghost predicate KindOk(k: Kind) {
    k.KUvar? ==> k.bits in {32, 64}
  }

  /** The writer for a value's kind. */
  method WriteValue(ba: ByteArray, host: Endian, e: Endian, v: Value)
    requires ba.Valid() && InRange(v)
    modifies ba.Repr
    ensures ba.Valid() && fresh(ba.Repr - old(ba.Repr))
    ensures WriteStep(ba.baseSize, old(ba.View()), Encode(host, e, v), ba.View())
  {
    match v
    case Fixed(w, n) => WriteFixed(ba, host, e, n, w);
    case Uvar(bits, n) => WriteVarint(ba, n, bits);
    case Zig32(x) => WriteInt32(ba, host, e, x);
    case Zig64(y) => WriteInt64(ba, host, e, y);
    case Str(p, t) => WriteString(ba, host, e, p, t);
  }

  /** The integer that a value of kind `k` starts with. */
  method ReadNumber(ba: ByteArray, host: Endian, e: Endian, k: Kind) returns (r: Outcome<nat>)
    requires ba.Valid() && KindOk(k)
    modifies ba`position, ba`cur, ba`index
    ensures ba.Valid()
    ensures Pack(r, ba.View()) == FlatReadNumber(host, e, old(ba.View()), k)
  {
    match k
    case KFixed(w) => r := ReadFixed(ba, host, e, w);
    case KUvar(bits) => r := ReadVarint(ba, bits);
    case KZig32 => r := ReadVarint(ba, 32);
    case KZig64 => r := ReadVarint(ba, 64);
    case KStr(p) =>
      if p.Vint? {
        r := ReadVarint(ba, 64);
      } else {
        r := ReadFixed(ba, host, e, PrefixWidth(p));
      }
  }

  /** The reader for a kind. */
  method ReadValue(ba: ByteArray, host: Endian, e: Endian, k: Kind) returns (r: Outcome<Value>)
    requires ba.Valid() && KindOk(k)
    modifies ba`position, ba`cur, ba`index
    ensures ba.Valid()
    ensures Pack(r, ba.View()) == FlatReadValue(host, e, old(ba.View()), k)
  {
    var number := ReadNumber(ba, host, e, k);
    if number.Fail? {
      return Fail(number.why);
    }
    if !k.KStr? {
      return Ok(ValueOf(k, number.value, []));
    }
    var body := ba.Read(number.value);
    if body.Fail? {
      return Fail(body.why);
    }
    return Ok(ValueOf(k, number.value, body.value));
  }
}
