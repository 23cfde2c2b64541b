/**
  The value encodings of chat/bytearray.cc over bytes: fixed-width integers in either byte order,
  unsigned LEB128 varints (section 7.6 of DWARF 4), zigzag, and length-prefixed strings.
 */
module Codec {
  import opened FlatBuffer

  datatype Endian = Little | Big

  function Pow2(i: nat): (p: nat)
    ensures p > 0
  {
    if i == 0 then 1 else 2 * Pow2(i - 1)
  }

  // ---------------------------------------------------------------- fixed width

  /** The `w` bytes of `v`, least significant first. */
  function LittleBytes(v: nat, w: nat): (s: seq<Byte>)
    ensures |s| == w
    decreases w, v
  {
    if w == 0 then [] else [v % 256] + LittleBytes(v / 256, w - 1)
  }

  function LittleValue(s: seq<Byte>): nat {
    if s == [] then 0 else s[0] + 256 * LittleValue(s[1..])
  }

  function Reverse(s: seq<Byte>): (r: seq<Byte>)
    ensures |r| == |s|
  {
    if s == [] then [] else Reverse(s[1..]) + [s[0]]
  }

  /** How an integer lies in the memory of a machine with byte order `host`. */
  function HostBytes(host: Endian, v: nat, w: nat): (s: seq<Byte>)
    ensures |s| == w
  {
    if host == Little then LittleBytes(v, w) else Reverse(LittleBytes(v, w))
  }

  function HostValue(host: Endian, s: seq<Byte>): nat {
    if host == Little then LittleValue(s) else LittleValue(Reverse(s))
  }

  /** `byteswap`: the integer with the bytes of `v` in the opposite order. */
  function Swap(v: nat, w: nat): nat {
    LittleValue(Reverse(LittleBytes(v, w)))
  }

  /** `writeFuintN`: swap when the wanted order is not the machine's, then copy the memory. */
  function FixedBytes(host: Endian, want: Endian, v: nat, w: nat): (s: seq<Byte>)
    ensures |s| == w
  {
    HostBytes(host, if want != host then Swap(v, w) else v, w)
  }

  /** `readFuintN`: copy into memory, then swap when the orders differ. */
  function FixedValue(host: Endian, want: Endian, s: seq<Byte>): nat {
    var v := HostValue(host, s);
    if want == host then v else Swap(v, |s|)
  }

  lemma {:induction false} LittleValueBound(s: seq<Byte>)
    ensures LittleValue(s) < Pow2(8 * |s|)
  {
    if s != [] {
      LittleValueBound(s[1..]);
      Pow2Byte(|s|);
    }
  }

  lemma {:induction false} Pow2Add(i: nat, j: nat)
    ensures Pow2(i + j) == Pow2(i) * Pow2(j)
  {
    if i > 0 {
      Pow2Add(i - 1, j);
    }
  }

  lemma Pow2Small()
    ensures Pow2(7) == 128 && Pow2(8) == 256
  {
    assert Pow2(3) == 8;
    assert Pow2(5) == 32;
  }

  lemma Pow2Byte(w: nat)
    requires w > 0
    ensures Pow2(8 * w) == 256 * Pow2(8 * (w - 1))
  {
    Pow2Small();
    Pow2Add(8, 8 * (w - 1));
  }

  lemma {:induction false} LittleOfBytes(v: nat, w: nat)
    requires v < Pow2(8 * w)
    ensures LittleValue(LittleBytes(v, w)) == v
  {
    if w > 0 {
      Pow2Byte(w);
      LittleOfBytes(v / 256, w - 1);
      assert LittleBytes(v, w)[1..] == LittleBytes(v / 256, w - 1);
    }
  }

  lemma DigitSplit(d: Byte, x: nat)
    ensures (d + 256 * x) % 256 == d && (d + 256 * x) / 256 == x
  {}

  lemma {:induction false} BytesOfLittle(s: seq<Byte>)
    ensures LittleBytes(LittleValue(s), |s|) == s
  {
    if s != [] {
      BytesOfLittle(s[1..]);
      DigitSplit(s[0], LittleValue(s[1..]));
    }
  }

  lemma {:induction false} ReverseAppend(s: seq<Byte>, b: Byte)
    ensures Reverse(s + [b]) == [b] + Reverse(s)
  {
    if s != [] {
      ReverseAppend(s[1..], b);
      assert (s + [b])[1..] == s[1..] + [b];
    }
  }

  lemma {:induction false} ReverseTwice(s: seq<Byte>)
    ensures Reverse(Reverse(s)) == s
  {
    if s != [] {
      ReverseTwice(s[1..]);
      ReverseAppend(Reverse(s[1..]), s[0]);
    }
  }

  /** The bytes on the wire depend only on the wanted order, never on the machine. */
  lemma FixedIsPortable(host: Endian, want: Endian, v: nat, w: nat)
    requires v < Pow2(8 * w)
    ensures FixedBytes(host, want, v, w) == if want == Little then LittleBytes(v, w) else Reverse(LittleBytes(v, w))
  {
    var s := LittleBytes(v, w);
    BytesOfLittle(Reverse(s));
    ReverseTwice(s);
  }

  lemma FixedRoundTrip(host: Endian, want: Endian, v: nat, w: nat)
    requires v < Pow2(8 * w)
    ensures FixedValue(host, want, FixedBytes(host, want, v, w)) == v
  {
    var s := LittleBytes(v, w);
    FixedIsPortable(host, want, v, w);
    ReverseTwice(s);
    LittleOfBytes(v, w);
    if want != host {
      BytesOfLittle(Reverse(s));
    }
  }

  /** Digit `i` of `v` to base 256, counted from the least significant. */
  function Digit256(v: nat, i: nat): (d: Byte)
  {
    if i == 0 then v % 256 else Digit256(v / 256, i - 1)
  }

  /** Digit `i` of `v` to base 128. */
  function Digit128(v: nat, i: nat): (d: nat)
    ensures d < 128
  {
    if i == 0 then v % 128 else Digit128(v / 128, i - 1)
  }

  /** `s` are the base-256 digits of `v`, all of them, in the given order. */
  ghost predicate AreBytes(s: seq<Byte>, v: nat, want: Endian) {
    && v < Pow2(8 * |s|)
    && forall i :: 0 <= i < |s| ==> s[if want == Little then i else |s| - 1 - i] == Digit256(v, i)
  }

  lemma {:induction false} LittleDigit(v: nat, w: nat, i: nat)
    requires i < w
    ensures LittleBytes(v, w)[i] == Digit256(v, i)
    decreases w
  {
    if i > 0 {
      LittleDigit(v / 256, w - 1, i - 1);
    }
  }

  lemma {:induction false} ReverseAt(s: seq<Byte>, i: nat)
    requires i < |s|
    ensures Reverse(s)[|s| - 1 - i] == s[i]
  {
    if i > 0 {
      ReverseAt(s[1..], i - 1);
    }
  }

  /** On the wire a fixed-width integer is its base-256 digits, least significant first in little-endian order
      and last in big-endian order, whatever the machine. */
  lemma FixedLayout(host: Endian, want: Endian, v: nat, w: nat)
    requires v < Pow2(8 * w)
    ensures AreBytes(FixedBytes(host, want, v, w), v, want)
  {
    FixedIsPortable(host, want, v, w);
    forall i | 0 <= i < w ensures FixedBytes(host, want, v, w)[if want == Little then i else w - 1 - i] == Digit256(v, i) {
      LittleDigit(v, w, i);
      ReverseAt(LittleBytes(v, w), i);
    }
  }

  // ---------------------------------------------------------------- varint

  /** The encoding loop of `writeUint32`/`writeUint64`. */
  function VarintBytes(v: nat): (s: seq<Byte>)
    ensures |s| > 0
  {
    if v >= 0x80 then [v % 128 + 128] + VarintBytes(v / 128) else [v]
  }

  /** Bitwise or of naturals. */
  function Or(a: nat, b: nat): nat {
    if a == 0 && b == 0 then 0
    else (if a % 2 == 1 || b % 2 == 1 then 1 else 0) + 2 * Or(a / 2, b / 2)
  }

  lemma {:induction false} OrZero(b: nat)
    ensures Or(0, b) == b
  {
    if b > 0 {
      OrZero(b / 2);
    }
  }

  /** Or-ing in bits above all set ones is addition. */
  lemma {:induction false} OrIsPlus(a: nat, b: nat, i: nat)
    requires a < Pow2(i)
    ensures Or(a, b * Pow2(i)) == a + b * Pow2(i)
  {
    if i == 0 {
      OrZero(b);
    } else {
      var c := b * Pow2(i - 1);
      assert b * Pow2(i) == 2 * c;
      OrIsPlus(a / 2, b, i - 1);
    }
  }

  lemma Pow2Seven(i: nat)
    ensures Pow2(i + 7) == 128 * Pow2(i)
  {
    Pow2Small();
    Pow2Add(7, i);
  }

  /** A `bits`-wide value never needs more than `ceil(bits / 7)` bytes: 5 or 10. */
  lemma {:induction false} VarintLength(v: nat, k: nat)
    requires k > 0 && v < Pow2(7 * k)
    ensures |VarintBytes(v)| <= k
  {
    if v >= 0x80 {
      Pow2Seven(7 * (k - 1));
      if k == 1 {
        assert Pow2(0) == 1;
      } else {
        VarintLength(v / 128, k - 1);
      }
    }
  }

  /** `s` are the base-128 digits of `v`, least significant first and none too many, each but the last with its
      top bit set. */
  ghost predicate AreGroups(s: seq<Byte>, v: nat) {
    && s != [] && v < Pow2(7 * |s|) && (|s| > 1 ==> v >= Pow2(7 * (|s| - 1)))
    && forall i :: 0 <= i < |s| ==> s[i] == Digit128(v, i) + if i < |s| - 1 then 128 else 0
  }

  lemma {:induction false} VarintLayout(v: nat)
    ensures AreGroups(VarintBytes(v), v)
    decreases v
  {
    Pow2Small();
    var s := VarintBytes(v);
    if v < 0x80 {
      assert s == [v];
    } else {
      var t := VarintBytes(v / 128);
      VarintLayout(v / 128);
      Pow2Seven(7 * |t|);
      Pow2Seven(7 * (|t| - 1));
      forall i | 0 <= i < |s| ensures s[i] == Digit128(v, i) + if i < |s| - 1 then 128 else 0 {
        assert i > 0 ==> s[i] == t[i - 1];
      }
    }
  }

  // ---------------------------------------------------------------- zigzag

  function EncodeZigzag32(v: bv32): bv32 {
    if v >= 0x8000_0000 then (0 - v) * 2 - 1 else v * 2
  }

  function DecodeZigzag32(v: bv32): bv32 {
    (v >> 1) ^ (0 - (v & 1))
  }

  function EncodeZigzag64(v: bv64): bv64 {
    if v >= 0x8000_0000_0000_0000 then (0 - v) * 2 - 1 else v * 2
  }

  function DecodeZigzag64(v: bv64): bv64 {
    (v >> 1) ^ (0 - (v & 1))
  }

  lemma Negative32(v: bv32)
    requires v >= 0x8000_0000
    ensures ((0 - v) * 2 - 1) >> 1 == !v && ((0 - v) * 2 - 1) & 1 == 1
  {}

  lemma Positive32(v: bv32)
    requires v < 0x8000_0000
    ensures (v * 2) >> 1 == v && (v * 2) & 1 == 0
  {}

  lemma Xor32(v: bv32)
    ensures (!v) ^ (0 - 1) == v && v ^ (0 - 0) == v
  {}

  lemma Negative64(v: bv64)
    requires v >= 0x8000_0000_0000_0000
    ensures ((0 - v) * 2 - 1) >> 1 == !v && ((0 - v) * 2 - 1) & 1 == 1
  {}

  lemma Positive64(v: bv64)
    requires v < 0x8000_0000_0000_0000
    ensures (v * 2) >> 1 == v && (v * 2) & 1 == 0
  {}

  lemma Xor64(v: bv64)
    ensures (!v) ^ (0 - 1) == v && v ^ (0 - 0) == v
  {}

  /** Zigzag is a bijection on 32-bit patterns, the most negative one included. */
  lemma Zigzag32RoundTrip(v: bv32)
    ensures DecodeZigzag32(EncodeZigzag32(v)) == v
  {
    Xor32(v);
    if v >= 0x8000_0000 {
      Negative32(v);
    } else {
      Positive32(v);
    }
  }

  lemma Zigzag64RoundTrip(v: bv64)
    ensures DecodeZigzag64(EncodeZigzag64(v)) == v
  {
    Xor64(v);
    if v >= 0x8000_0000_0000_0000 {
      Negative64(v);
    } else {
      Positive64(v);
    }
  }

  lemma Doubles32(v: bv32)
    requires v < 0x8000_0000
    ensures EncodeZigzag32(v) as bv64 == 2 * (v as bv64)
  {}

  lemma Odd32(v: bv32)
    requires v >= 0x8000_0000
    ensures EncodeZigzag32(v) as bv64 == 2 * (0x1_0000_0000 - v as bv64) - 1
  {}

  lemma Doubles64(v: bv64)
    requires v < 0x8000_0000_0000_0000
    ensures EncodeZigzag64(v) as bv66 == 2 * (v as bv66)
  {}

  lemma Odd64(v: bv64)
    requires v >= 0x8000_0000_0000_0000
    ensures EncodeZigzag64(v) as bv66 == 2 * (0x1_0000_0000_0000_0000 - v as bv66) - 1
  {}

  /** Signed n goes to 2n, and to -2n - 1 when negative: in arithmetic wide enough for both, where the pattern of
      a negative n is n + 2^32. */
  lemma Zigzag32Doubles(v: bv32)
    ensures v < 0x8000_0000 ==> EncodeZigzag32(v) as bv64 == 2 * (v as bv64)
    ensures v >= 0x8000_0000 ==> EncodeZigzag32(v) as bv64 == 2 * (0x1_0000_0000 - v as bv64) - 1
  {
    if v < 0x8000_0000 {
      Doubles32(v);
    } else {
      Odd32(v);
    }
  }

  /** The same for 64 bits. */
  lemma Zigzag64Doubles(v: bv64)
    ensures v < 0x8000_0000_0000_0000 ==> EncodeZigzag64(v) as bv66 == 2 * (v as bv66)
    ensures v >= 0x8000_0000_0000_0000 ==> EncodeZigzag64(v) as bv66 == 2 * (0x1_0000_0000_0000_0000 - v as bv66) - 1
  {
    if v < 0x8000_0000_0000_0000 {
      Doubles64(v);
    } else {
      Odd64(v);
    }
  }

  lemma Zigzag32Onto(u: bv32)
    ensures EncodeZigzag32(DecodeZigzag32(u)) == u
  {}

  lemma Zigzag64Onto(u: bv64)
    ensures EncodeZigzag64(DecodeZigzag64(u)) == u
  {}
}
