/**
  `base64encode` and `base64decode` (chat/util.cc) against the bit regrouping of sections 4 and 5 of
  RFC 4648.
 */
module Base64 {
  import opened Options
  import opened FlatBuffer
  import opened Characters

  const PAD: Byte := 61

  type Sextet = x: int | 0 <= x < 64

  // ---------------------------------------------------------------- the alphabets

  /** The 64 characters; the last two differ in the URL-safe alphabet. */
  function Digit(url: bool, v: Sextet): Byte {
    if v < 26 then 65 + v
    else if v < 52 then 97 + v - 26
    else if v < 62 then 48 + v - 52
    else if v == 62 then (if url then 45 else 43)
    else if url then 95 else 47
  }

  function Value(url: bool, c: Byte): Option<Sextet> {
    if 65 <= c <= 90 then Some(c - 65)
    else if 97 <= c <= 122 then Some(c - 97 + 26)
    else if 48 <= c <= 57 then Some(c - 48 + 52)
    else if c == (if url then 45 else 43) then Some(62)
    else if c == (if url then 95 else 47) then Some(63)
    else None
  }

  lemma ValueOfDigit(url: bool, v: Sextet)
    ensures Value(url, Digit(url, v)) == Some(v) && Digit(url, v) != PAD
  {}

  lemma DigitOfValue(url: bool, c: Byte)
    ensures Value(url, c).Some? ==> Digit(url, Value(url, c).value) == c && c != PAD
  {}

  /** The table that the encoder indexes. */
  function Alphabet(url: bool): (s: string)
    ensures |s| == 64
  {
    LETTERS + SMALL + NUMERALS + if url then "-_" else "+/"
  }

  /** A digit is its place in the table; a character has the place it stands at, or no value. */
  lemma AlphabetIs(url: bool, v: Sextet, c: Byte)
    ensures Digit(url, v) == Alphabet(url)[v] as int
    ensures Value(url, c) == Some(v) <==> Alphabet(url)[v] as int == c
    ensures Value(url, c).Some? ==> Alphabet(url)[Value(url, c).value] as int == c
  {
    Consecutive();
    ValueOfDigit(url, v);
    DigitOfValue(url, c);
    AlphabetAt(url, v);
    if Value(url, c).Some? {
      AlphabetAt(url, Value(url, c).value);
    }
  }

  lemma AlphabetAt(url: bool, v: Sextet)
    ensures Alphabet(url)[v] as int == Digit(url, v)
  {
    Consecutive();
    var s := LETTERS + SMALL + NUMERALS;
    assert v < 62 ==> Alphabet(url)[v] == s[v];
  }

  // ---------------------------------------------------------------- the regrouping

  /** The four sextets of three bytes, and back. */
  function S0(a: Byte): Sextet { a / 4 }
  function S1(a: Byte, b: Byte): Sextet { a % 4 * 16 + b / 16 }
  function S2(b: Byte, c: Byte): Sextet { b % 16 * 4 + c / 64 }
  function S3(c: Byte): Sextet { c % 64 }

  function B0(t: Sextet, u: Sextet): Byte { t * 4 + u / 16 }
  function B1(u: Sextet, v: Sextet): Byte { u % 16 * 16 + v / 4 }
  function B2(v: Sextet, w: Sextet): Byte { v % 4 * 64 + w }

  lemma BytesBack(a: Byte, b: Byte, c: Byte)
    ensures B0(S0(a), S1(a, b)) == a && B1(S1(a, b), S2(b, c)) == b && B2(S2(b, c), S3(c)) == c
  {
    assert S1(a, b) / 16 == a % 4 && S1(a, b) % 16 == b / 16;
    assert S2(b, c) / 4 == b % 16 && S2(b, c) % 4 == c / 64;
  }

  lemma SextetsBack(t: Sextet, u: Sextet, v: Sextet, w: Sextet)
    ensures S0(B0(t, u)) == t && S1(B0(t, u), B1(u, v)) == u && S2(B1(u, v), B2(v, w)) == v && S3(B2(v, w)) == w
  {
    assert B0(t, u) / 4 == t && B0(t, u) % 4 == u / 16;
    assert B1(u, v) / 16 == u % 16 && B1(u, v) % 16 == v / 4;
    assert B2(v, w) / 64 == v % 4;
  }

  /** With the sextets after it cut off, the last sextet keeps its high bits only. */
  lemma CutSextets(t: Sextet, u: Sextet, v: Sextet)
    ensures S0(B0(t, u)) == t && (S1(B0(t, u), 0) == u <==> u % 16 == 0)
    ensures S1(B0(t, u), B1(u, v)) == u && (S2(B1(u, v), 0) == v <==> v % 4 == 0)
  {
    assert B0(t, u) / 4 == t && B0(t, u) % 4 == u / 16;
    assert B1(u, v) / 16 == u % 16 && B1(u, v) % 16 == v / 4;
  }

  function Encode(url: bool, x: seq<Byte>): seq<Byte> {
    if |x| == 0 then []
    else if |x| <= 2 then Tail(url, x)
    else Quad(url, x[0], x[1], x[2]) + Encode(url, x[3..])
  }

  /** Four characters for each started group of three bytes. */
  lemma {:induction false} EncodeLength(url: bool, x: seq<Byte>)
    ensures |Encode(url, x)| == 4 * CeilDiv(|x|, 3)
  {
    ThreeMore(|x|);
    if |x| > 2 {
      EncodeLength(url, x[3..]);
    }
  }

  lemma ThreeMore(n: nat)
    ensures n >= 3 ==> CeilDiv(n, 3) == CeilDiv(n - 3, 3) + 1
    ensures n == 0 ==> CeilDiv(n, 3) == 0
    ensures n == 1 || n == 2 ==> CeilDiv(n, 3) == 1
  {}

  function Quad(url: bool, a: Byte, b: Byte, c: Byte): (q: seq<Byte>)
    ensures |q| == 4
  {
    [Digit(url, S0(a)), Digit(url, S1(a, b)), Digit(url, S2(b, c)), Digit(url, S3(c))]
  }

  function Tail(url: bool, x: seq<Byte>): (q: seq<Byte>)
    requires 1 <= |x| <= 2
    ensures |q| == 4
  {
    if |x| == 1 then [Digit(url, S0(x[0])), Digit(url, S1(x[0], 0)), PAD, PAD]
    else [Digit(url, S0(x[0])), Digit(url, S1(x[0], x[1])), Digit(url, S2(x[1], 0)), PAD]
  }

  /** The bytes of one group of four characters: three, or fewer when the group ends in padding. */
  function Group(url: bool, a: Byte, b: Byte, c: Byte, d: Byte): (r: Option<seq<Byte>>)
    ensures r.Some? ==> 1 <= |r.value| <= 3
  {
    var t, u, v, w := Value(url, a), Value(url, b), Value(url, c), Value(url, d);
    if t.None? || u.None? then None
    else if c == PAD && d == PAD then Some([B0(t.value, u.value)])
    else if v.None? then None
    else if d == PAD then Some([B0(t.value, u.value), B1(u.value, v.value)])
    else if w.None? then None
    else Some([B0(t.value, u.value), B1(u.value, v.value), B2(v.value, w.value)])
  }

  function Before(b: seq<Byte>, r: Option<seq<Byte>>): Option<seq<Byte>> {
    if r.None? then None else Some(b + r.value)
  }

  /** Padding is allowed in the last group only. */
  function Decode(url: bool, s: seq<Byte>): Option<seq<Byte>> {
    if s == [] then Some([])
    else if |s| < 4 then None
    else
      var g := Group(url, s[0], s[1], s[2], s[3]);
      if g.None? || (|g.value| < 3 && |s| > 4) then None
      else Before(g.value, Decode(url, s[4..]))
  }

  /** What the source returns: an empty string for malformed input. */
  function Decoded(url: bool, s: seq<Byte>): seq<Byte> {
    var r := Decode(url, s);
    if r.Some? then r.value else []
  }

  // ---------------------------------------------------------------- round trip

  lemma QuadBack(url: bool, a: Byte, b: Byte, c: Byte)
    ensures var q := Quad(url, a, b, c); Group(url, q[0], q[1], q[2], q[3]) == Some([a, b, c])
  {
    ValueOfDigit(url, S0(a));
    ValueOfDigit(url, S1(a, b));
    ValueOfDigit(url, S2(b, c));
    ValueOfDigit(url, S3(c));
    BytesBack(a, b, c);
  }

  lemma Tail1Back(url: bool, a: Byte)
    ensures Group(url, Digit(url, S0(a)), Digit(url, S1(a, 0)), PAD, PAD) == Some([a])
  {
    ValueOfDigit(url, S0(a));
    ValueOfDigit(url, S1(a, 0));
    BytesBack(a, 0, 0);
    GroupOfOne(url, Digit(url, S0(a)), Digit(url, S1(a, 0)), S0(a), S1(a, 0));
  }

  lemma GroupOfOne(url: bool, a: Byte, b: Byte, t: Sextet, u: Sextet)
    requires Value(url, a) == Some(t) && Value(url, b) == Some(u)
    ensures Group(url, a, b, PAD, PAD) == Some([B0(t, u)])
  {}

  lemma Tail2Back(url: bool, a: Byte, b: Byte)
    ensures Group(url, Digit(url, S0(a)), Digit(url, S1(a, b)), Digit(url, S2(b, 0)), PAD) == Some([a, b])
  {
    ValueOfDigit(url, S0(a));
    ValueOfDigit(url, S1(a, b));
    ValueOfDigit(url, S2(b, 0));
    BytesBack(a, b, 0);
  }

  lemma DecodeFirst(url: bool, q: seq<Byte>, rest: seq<Byte>)
    requires |q| == 4
    ensures var g := Group(url, q[0], q[1], q[2], q[3]);
            g.Some? && (|g.value| == 3 || rest == []) ==> Decode(url, q + rest) == Before(g.value, Decode(url, rest))
  {
    assert (q + rest)[4..] == rest;
  }

  /** Decoding undoes encoding, in either alphabet. */
  lemma {:induction false} RoundTrip(url: bool, x: seq<Byte>)
    ensures Decode(url, Encode(url, x)) == Some(x)
  {
    if |x| == 1 {
      Tail1Back(url, x[0]);
      DecodeFirst(url, Tail(url, x), []);
      assert Tail(url, x) + [] == Encode(url, x) && [x[0]] + [] == x;
    } else if |x| == 2 {
      Tail2Back(url, x[0], x[1]);
      DecodeFirst(url, Tail(url, x), []);
      assert Tail(url, x) + [] == Encode(url, x) && [x[0], x[1]] + [] == x;
    } else if |x| >= 3 {
      var q, rest := Quad(url, x[0], x[1], x[2]), Encode(url, x[3..]);
      QuadBack(url, x[0], x[1], x[2]);
      RoundTrip(url, x[3..]);
      DecodeFirst(url, q, rest);
      assert x == [x[0], x[1], x[2]] + x[3..];
    }
  }

  // ---------------------------------------------------------------- what decodes

  /** A multiple of four characters of the alphabet, but for at most two pads at the end. */
  ghost predicate WellPadded(url: bool, s: seq<Byte>, pads: nat) {
    && |s| % 4 == 0 && pads <= 2 && pads <= |s|
    && (forall i :: 0 <= i < |s| - pads ==> Value(url, s[i]).Some?)
    && (forall i :: |s| - pads <= i < |s| ==> s[i] == PAD)
  }

  lemma OneGroup(url: bool, s: seq<Byte>, pads: nat)
    requires |s| == 4
    ensures WellPadded(url, s, pads) <==>
              var g := Group(url, s[0], s[1], s[2], s[3]); g.Some? && |g.value| + pads == 3
  {}

  /** How much a decoding and its pads make up. */
  predicate Yields(url: bool, s: seq<Byte>, pads: nat) {
    var r := Decode(url, s);
    r.Some? && |r.value| + pads == |s| / 4 * 3
  }

  lemma YieldsMore(url: bool, s: seq<Byte>, pads: nat)
    requires |s| > 4
    ensures var g := Group(url, s[0], s[1], s[2], s[3]);
            Yields(url, s, pads) <==> g.Some? && |g.value| == 3 && Yields(url, s[4..], pads)
  {
    assert |s| / 4 == |s[4..]| / 4 + 1;
  }

  lemma YieldsOne(url: bool, s: seq<Byte>, pads: nat)
    requires |s| == 4
    ensures var g := Group(url, s[0], s[1], s[2], s[3]);
            Yields(url, s, pads) <==> g.Some? && |g.value| + pads == 3
  {
    assert Decode(url, s[4..]) == Some([]);
  }

  /** Input decodes exactly when it is well-formed, three bytes a group less one for each pad. */
  lemma {:induction false} DecodesIff(url: bool, s: seq<Byte>, pads: nat)
    ensures WellPadded(url, s, pads) <==> Yields(url, s, pads)
  {
    if |s| > 4 {
      DecodesIff(url, s[4..], pads);
      MoreGroups(url, s, pads);
      YieldsMore(url, s, pads);
    } else if |s| == 4 {
      OneGroup(url, s, pads);
      YieldsOne(url, s, pads);
    }
  }

  lemma MoreGroups(url: bool, s: seq<Byte>, pads: nat)
    requires |s| > 4
    ensures WellPadded(url, s, pads) <==> WellPadded(url, s[..4], 0) && WellPadded(url, s[4..], pads)
    ensures WellPadded(url, s[..4], 0) <==>
              var g := Group(url, s[0], s[1], s[2], s[3]); g.Some? && |g.value| == 3
  {
    OneGroup(url, s[..4], 0);
    if WellPadded(url, s[..4], 0) && WellPadded(url, s[4..], pads) {
      forall i | 0 <= i < |s| - pads ensures Value(url, s[i]).Some? {
        assert i < 4 ==> s[i] == s[..4][i];
        assert i >= 4 ==> s[i] == s[4..][i - 4];
      }
    }
    if WellPadded(url, s, pads) {
      forall i | 0 <= i < |s| - 4 - pads ensures Value(url, s[4..][i]).Some? {
        assert s[4..][i] == s[i + 4];
      }
    }
  }

  /** A non-empty answer of the decoder means well-formed input, and tells its length and pads. */
  lemma NonEmptyMeansWellFormed(url: bool, s: seq<Byte>)
    requires Decoded(url, s) != []
    ensures |s| % 4 == 0 && exists pads: nat :: WellPadded(url, s, pads) && |Decoded(url, s)| + pads == |s| / 4 * 3
  {
    DecodeBound(url, s);
    var pads: nat := |s| / 4 * 3 - |Decoded(url, s)|;
    DecodesIff(url, s, pads);
  }

  lemma {:induction false} DecodeBound(url: bool, s: seq<Byte>)
    ensures Decode(url, s).Some? ==> |Decode(url, s).value| <= |s| / 4 * 3
  {
    if |s| >= 4 && Decode(url, s).Some? {
      DecodeRest(url, s);
      DecodeBound(url, s[4..]);
      Quarter(|s|);
    }
  }

  lemma Quarter(n: nat)
    requires n >= 4
    ensures (n - 4) / 4 + 1 == n / 4
  {}

  lemma DecodeRest(url: bool, s: seq<Byte>)
    requires |s| >= 4 && Decode(url, s).Some?
    ensures Decode(url, s[4..]).Some? && |Decode(url, s).value| <= 3 + |Decode(url, s[4..]).value|
  {}

  // ---------------------------------------------------------------- canonical input

  /** The bits of the last character that padding leaves unused are 0. */
  predicate CanonicalGroup(url: bool, b: Byte, c: Byte, d: Byte) {
    && (c == PAD && Value(url, b).Some? ==> Value(url, b).value % 16 == 0)
    && (c != PAD && d == PAD && Value(url, c).Some? ==> Value(url, c).value % 4 == 0)
  }

  predicate Canonical(url: bool, s: seq<Byte>) {
    |s| < 4 || CanonicalGroup(url, s[|s| - 3], s[|s| - 2], s[|s| - 1])
  }

  lemma GroupBack(url: bool, a: Byte, b: Byte, c: Byte, d: Byte)
    requires Group(url, a, b, c, d).Some?
    ensures var x := Group(url, a, b, c, d).value;
            && (|x| == 3 ==> CanonicalGroup(url, b, c, d) && Quad(url, x[0], x[1], x[2]) == [a, b, c, d])
            && (|x| < 3 ==> (Tail(url, x) == [a, b, c, d] <==> CanonicalGroup(url, b, c, d)))
  {
    DigitOfValue(url, a);
    DigitOfValue(url, b);
    DigitOfValue(url, c);
    DigitOfValue(url, d);
    var x := Group(url, a, b, c, d).value;
    var t, u := Value(url, a).value, Value(url, b).value;
    if |x| == 1 {
      CutSextets(t, u, 0);
      SameDigit(url, S1(x[0], 0), u);
    } else {
      var v := Value(url, c).value;
      CutSextets(t, u, v);
      if |x| == 2 {
        SameDigit(url, S2(x[1], 0), v);
      } else {
        SextetsBack(t, u, v, Value(url, d).value);
      }
    }
  }

  lemma SameDigit(url: bool, u: Sextet, v: Sextet)
    ensures Digit(url, u) == Digit(url, v) <==> u == v
  {
    ValueOfDigit(url, u);
    ValueOfDigit(url, v);
  }

  /** Encoding undoes decoding exactly on input whose unused bits are 0. */
  lemma {:induction false} EncodeBackIff(url: bool, s: seq<Byte>)
    requires Decode(url, s).Some?
    ensures Encode(url, Decode(url, s).value) == s <==> Canonical(url, s)
  {
    if |s| >= 4 {
      var g := Group(url, s[0], s[1], s[2], s[3]).value;
      GroupBack(url, s[0], s[1], s[2], s[3]);
      if |s| > 4 {
        EncodeBackIff(url, s[4..]);
        DecodesTo4(url, s[4..]);
        OneMoreQuad(url, g, Decode(url, s[4..]).value, s);
      } else {
        assert s == [s[0], s[1], s[2], s[3]] && s[4..] == [];
      }
    }
  }

  lemma OneMoreQuad(url: bool, g: seq<Byte>, rest: seq<Byte>, s: seq<Byte>)
    requires |g| == 3 && |s| > 4 && Quad(url, g[0], g[1], g[2]) == [s[0], s[1], s[2], s[3]]
    ensures Encode(url, g + rest) == s <==> Encode(url, rest) == s[4..]
  {
    assert (g + rest)[3..] == rest;
    assert s == [s[0], s[1], s[2], s[3]] + s[4..];
    assert ([s[0], s[1], s[2], s[3]] + Encode(url, rest))[4..] == Encode(url, rest);
  }

  lemma DecodesTo4(url: bool, s: seq<Byte>)
    requires Decode(url, s).Some? && s != []
    ensures |s| >= 4
  {}

  // ---------------------------------------------------------------- the loops

  lemma Pack3(a: Byte, b: Byte, c: Byte, p: nat)
    requires p == (a * 256 + b) * 256 + c
    ensures p / 0x40000 == S0(a) && p / 0x1000 % 64 == S1(a, b) && p / 64 % 64 == S2(b, c) && p % 64 == S3(c)
  {
    HighLow(a, 4);
    HighLow(b, 16);
    HighLow(c, 64);
    Sextets4(S0(a), S1(a, b), S2(b, c), S3(c), p);
  }

  lemma Sextets4(t: Sextet, u: Sextet, v: Sextet, w: Sextet, p: nat)
    requires p == 0x40000 * t + 0x1000 * u + 0x40 * v + w
    ensures p / 0x40000 == t && p / 0x1000 % 64 == u && p / 64 % 64 == v && p % 64 == w
  {
    assert p / 64 == 0x1000 * t + 64 * u + v;
    assert p / 0x1000 == 64 * t + u;
  }

  /** Character `v` of the table. */
  function Char(url: bool, v: Sextet): int {
    Alphabet(url)[v] as int
  }

  /** Three bytes are the four base-64 digits of their 24-bit number; one or two bytes are followed by zero bits,
      and the digits that hold none of their bits are pads. */
  lemma GroupIs(url: bool, a: Byte, b: Byte, c: Byte)
    ensures var n := (a * 256 + b) * 256 + c;
            Encode(url, [a, b, c]) == [Char(url, n / 0x40000), Char(url, n / 0x1000 % 64), Char(url, n / 64 % 64), Char(url, n % 64)]
    ensures var n := (a * 256 + b) * 256;
            Encode(url, [a, b]) == [Char(url, n / 0x40000), Char(url, n / 0x1000 % 64), Char(url, n / 64 % 64), '=' as int]
    ensures var n := a * 256 * 256;
            Encode(url, [a]) == [Char(url, n / 0x40000), Char(url, n / 0x1000 % 64), '=' as int, '=' as int]
  {
    forall v: Sextet ensures Digit(url, v) == Char(url, v) {
      AlphabetAt(url, v);
    }
    Pack3(a, b, c, (a * 256 + b) * 256 + c);
    Pack3(a, b, 0, (a * 256 + b) * 256);
    Pack3(a, 0, 0, a * 256 * 256);
    assert Encode(url, [a, b, c]) == Quad(url, a, b, c) + Encode(url, []);
  }

  /** Whole groups are encoded one by one. */
  lemma {:induction false} EncodeJoins(url: bool, x: seq<Byte>, y: seq<Byte>)
    requires |x| % 3 == 0
    ensures Encode(url, x + y) == Encode(url, x) + Encode(url, y)
  {
    if x == [] {
      assert x + y == y;
    } else {
      EncodeJoins(url, x[3..], y);
      assert (x + y)[3..] == x[3..] + y;
    }
  }

  function Zero(x: seq<Byte>, i: nat): int {
    if i < |x| then x[i] else 0
  }

  /** The encoding loop's shifts: at most three bytes in, and zeroes up to 24 bits. */
  method Pack(data: seq<Byte>, from: nat) returns (packed: nat, to: nat, padding: nat)
    requires from < |data|
    ensures to == (if from + 3 < |data| then from + 3 else |data|) && padding == 3 - (to - from)
    ensures packed == (Zero(data, from) * 256 + Zero(data, from + 1)) * 256 + Zero(data, from + 2)
  {
    packed, to := 0, from;
    var i := 0;
    while i < 3 && to < |data|
      invariant 0 <= i <= 3 && to == from + i <= |data|
      invariant i == 0 ==> packed == 0
      invariant i == 1 ==> packed == Zero(data, from)
      invariant i == 2 ==> packed == Zero(data, from) * 256 + Zero(data, from + 1)
      invariant i == 3 ==> packed == (Zero(data, from) * 256 + Zero(data, from + 1)) * 256 + Zero(data, from + 2)
    {
      packed := packed * 256 + data[to];
      i, to := i + 1, to + 1;
    }
    padding := if i == 2 then 1 else if i == 1 then 2 else 0;
    while i < 3
      invariant 3 - padding <= i <= 3
      invariant i == 1 ==> packed == Zero(data, from)
      invariant i == 2 ==> packed == Zero(data, from) * 256 + Zero(data, from + 1)
      invariant i == 3 ==> packed == (Zero(data, from) * 256 + Zero(data, from + 1)) * 256 + Zero(data, from + 2)
    {
      packed, i := packed * 256, i + 1;
    }
  }

  /** The first group of an encoding. */
  function Front(url: bool, x: seq<Byte>): (q: seq<Byte>)
    requires |x| > 0
    ensures |q| == 4
  {
    if |x| <= 2 then Tail(url, x) else Quad(url, x[0], x[1], x[2])
  }

  lemma EncodeFront(url: bool, x: seq<Byte>, n: nat)
    requires |x| > 0 && n == (if |x| >= 3 then 3 else |x|)
    ensures Encode(url, x) == Front(url, x) + Encode(url, x[n..])
  {}

  lemma EncodeNext(url: bool, data: seq<Byte>, ptr: nat, to: nat, done: seq<Byte>)
    requires ptr < |data| && to == (if ptr + 3 < |data| then ptr + 3 else |data|)
    ensures done + Encode(url, data[ptr..]) == (done + Front(url, data[ptr..])) + Encode(url, data[to..])
  {
    EncodeFront(url, data[ptr..], to - ptr);
    assert data[ptr..][to - ptr..] == data[to..];
  }

  /** The characters the encoding loop appends for one group. */
  method EmitQuad(data: seq<Byte>, url: bool, from: nat, packed: nat, padding: nat) returns (quad: seq<Byte>)
    requires from < |data| && padding == (if from + 3 <= |data| then 0 else 3 - (|data| - from))
    requires packed == (Zero(data, from) * 256 + Zero(data, from + 1)) * 256 + Zero(data, from + 2)
    ensures quad == Front(url, data[from..])
  {
    Pack3(data[from], Zero(data, from + 1), Zero(data, from + 2), packed);
    quad := [Digit(url, packed / 0x40000), Digit(url, packed / 0x1000 % 64)];
    if padding != 2 {
      quad := quad + [Digit(url, packed / 64 % 64)];
    }
    if padding == 0 {
      quad := quad + [Digit(url, packed % 64)];
    }
    quad := quad + seq(padding, _ => PAD);
  }

  method Base64Encode(data: seq<Byte>, url: bool) returns (ret: seq<Byte>)
    ensures ret == Encode(url, data)
  {
    ret := [];
    var ptr := 0;
    while ptr < |data|
      invariant 0 <= ptr <= |data| && ret + Encode(url, data[ptr..]) == Encode(url, data)
    {
      var packed, to, padding := Pack(data, ptr);
      var quad := EmitQuad(data, url, ptr, packed, padding);
      EncodeNext(url, data, ptr, to, ret);
      ret, ptr := ret + quad, to;
    }
  }

  // ---------------------------------------------------------------- the decoder's loops

  datatype Quartet = Bad | Read(padding: nat, packed: nat)

  function Join(packed: nat, v: Sextet): nat {
    packed * 64 + v
  }

  /** A character of a group: six more bits, or a pad that only pads may follow. */
  function Feed(url: bool, q: Quartet, c: Byte): Quartet {
    if q.Bad? then Bad
    else if c == PAD then Read(q.padding + 1, Join(q.packed, 0))
    else if q.padding > 0 || Value(url, c).None? then Bad
    else Read(0, Join(q.packed, Value(url, c).value))
  }

  function FeedAll(url: bool, s: seq<Byte>, from: nat, n: nat): Quartet
    requires from + n <= |s|
  {
    if n == 0 then Read(0, 0) else Feed(url, FeedAll(url, s, from, n - 1), s[from + n - 1])
  }

  lemma {:induction false} BadStaysBad(url: bool, s: seq<Byte>, from: nat, n: nat, m: nat)
    requires from + m <= |s| && n <= m && FeedAll(url, s, from, n).Bad?
    ensures FeedAll(url, s, from, m).Bad?
  {
    if n < m {
      BadStaysBad(url, s, from, n, m - 1);
    }
  }

  lemma Feed4(url: bool, s: seq<Byte>, from: nat)
    requires from + 4 <= |s|
    ensures FeedAll(url, s, from, 4) ==
              Feed(url, Feed(url, Feed(url, Feed(url, Read(0, 0), s[from]), s[from + 1]), s[from + 2]), s[from + 3])
  {
    assert FeedAll(url, s, from, 1) == Feed(url, FeedAll(url, s, from, 0), s[from]);
    assert FeedAll(url, s, from, 2) == Feed(url, FeedAll(url, s, from, 1), s[from + 1]);
    assert FeedAll(url, s, from, 3) == Feed(url, FeedAll(url, s, from, 2), s[from + 2]);
  }

  function Unpacked(padding: nat, packed: nat): seq<Byte> {
    [packed / 0x10000 % 256] + (if padding != 2 then [packed / 256 % 256] else []) + (if padding == 0 then [packed % 256] else [])
  }

  lemma Unpack(t: Sextet, u: Sextet, v: Sextet, w: Sextet, p: nat)
    requires p == Join(Join(Join(Join(0, t), u), v), w)
    ensures p / 0x10000 % 256 == B0(t, u) && p / 256 % 256 == B1(u, v) && p % 256 == B2(v, w)
  {
    HighLow(u, 16);
    HighLow(v, 4);
    Bytes3(B0(t, u), B1(u, v), B2(v, w), p);
  }

  lemma HighLow(x: nat, n: nat)
    requires n > 0
    ensures x == n * (x / n) + x % n
  {}

  lemma Bytes3(x: Byte, y: Byte, z: Byte, p: nat)
    requires p == 0x10000 * x + 0x100 * y + z
    ensures p / 0x10000 % 256 == x && p / 256 % 256 == y && p % 256 == z
  {
    assert p / 256 == 256 * x + y;
  }

  lemma UnpackAll(t: Sextet, u: Sextet, v: Sextet, w: Sextet)
    ensures var p := Join(Join(Join(Join(0, t), u), v), w);
            && Unpacked(0, p) == [B0(t, u), B1(u, v), B2(v, w)]
            && Unpacked(1, p) == [B0(t, u), B1(u, v)]
            && Unpacked(2, p) == [B0(t, u)]
  {
    Unpack(t, u, v, w, Join(Join(Join(Join(0, t), u), v), w));
  }

  /** A group decodes when at most two pads were read, and its bytes are the packed bits. */
  lemma FeedGroup(url: bool, a: Byte, b: Byte, c: Byte, d: Byte)
    ensures var q := Feed(url, Feed(url, Feed(url, Feed(url, Read(0, 0), a), b), c), d);
            Group(url, a, b, c, d) ==
              if q.Bad? || q.padding > 2 then None else Some(Unpacked(q.padding, q.packed))
  {
    var t, u, v, w := Value(url, a), Value(url, b), Value(url, c), Value(url, d);
    if t.Some? && u.Some? {
      if c == PAD {
        UnpackAll(t.value, u.value, 0, 0);
      } else if v.Some? {
        if d == PAD {
          UnpackAll(t.value, u.value, v.value, 0);
        } else if w.Some? {
          UnpackAll(t.value, u.value, v.value, w.value);
        }
      }
    }
  }

  /** Write the bytes of a group behind the first `w`. */
  method Emit(buffer: array<Byte>, w: nat, padding: nat, packed: nat) returns (w': nat)
    requires padding <= 2 && w + 3 - padding <= buffer.Length
    modifies buffer
    ensures w' == w + 3 - padding && buffer[..w'] == old(buffer[..w]) + Unpacked(padding, packed)
  {
    buffer[w], w' := packed / 0x10000 % 256, w + 1;
    if padding != 2 {
      buffer[w'] := packed / 256 % 256;
      w' := w' + 1;
    }
    if padding == 0 {
      buffer[w'] := packed % 256;
      w' := w' + 1;
    }
  }

  lemma BeforeTwice(a: seq<Byte>, b: seq<Byte>, r: Option<seq<Byte>>)
    ensures Before(a, Before(b, r)) == Before(a + b, r) && Before([], r) == r
  {
    if r.Some? {
      assert a + (b + r.value) == a + b + r.value && [] + r.value == r.value;
    }
  }

  /** `base64decode`: the result buffer has room for every byte written; any malformed group makes the
      answer empty. */
  method Base64Decode(src: seq<Byte>, url: bool) returns (result: seq<Byte>)
    ensures result == Decoded(url, src)
  {
    var buffer := new Byte[|src| * 3 / 4](_ => 0);
    var w, ptr := 0, 0;
    BeforeTwice([], [], Decode(url, src));
    while ptr < |src|
      invariant 0 <= ptr <= |src| && ptr % 4 == 0 && 4 * w <= 3 * ptr
      invariant Decode(url, src) == Before(buffer[..w], Decode(url, src[ptr..]))
    {
      var q, to := ReadGroup(src, url, ptr);
      if q.Bad? || to - ptr != 4 || (q.padding > 0 && to != |src|) || q.padding > 2 {
        return [];
      }
      BeforeTwice(buffer[..w], Unpacked(q.padding, q.packed), Decode(url, src[to..]));
      w := Emit(buffer, w, q.padding, q.packed);
      ptr := to;
    }
    result := buffer[..w];
  }

  method ReadGroup(src: seq<Byte>, url: bool, from: nat) returns (q: Quartet, to: nat)
    requires from < |src|
    ensures q.Bad? ==> Decode(url, src[from..]).None?
    ensures !q.Bad? ==> to == (if from + 4 <= |src| then from + 4 else |src|)
    ensures !q.Bad? && to - from < 4 ==> Decode(url, src[from..]).None?
    ensures !q.Bad? && to - from == 4 && ((q.padding > 0 && to != |src|) || q.padding > 2) ==> Decode(url, src[from..]).None?
    ensures !q.Bad? && to - from == 4 && !(q.padding > 0 && to != |src|) && q.padding <= 2 ==>
              Decode(url, src[from..]) == Before(Unpacked(q.padding, q.packed), Decode(url, src[to..]))
  {
    q, to := Read(0, 0), from;
    var i := 0;
    while i < 4 && to < |src|
      invariant 0 <= i <= 4 && to == from + i <= |src|
      invariant !q.Bad? && q == FeedAll(url, src, from, i)
    {
      q := Feed(url, q, src[to]);
      if q.Bad? {
        GroupAt(src, url, from, i + 1);
        return;
      }
      i, to := i + 1, to + 1;
    }
    if i == 4 {
      GroupAt(src, url, from, 4);
    }
  }

  lemma GroupAt(src: seq<Byte>, url: bool, from: nat, n: nat)
    requires from + n <= |src| && 1 <= n <= 4
    ensures FeedAll(url, src, from, n).Bad? ==> Decode(url, src[from..]).None?
    ensures var q := FeedAll(url, src, from, n);
            n == 4 && !q.Bad? ==>
              if q.padding > 2 || (q.padding > 0 && from + 4 != |src|) then Decode(url, src[from..]).None?
              else Decode(url, src[from..]) == Before(Unpacked(q.padding, q.packed), Decode(url, src[from + 4..]))
  {
    var s := src[from..];
    if |s| >= 4 {
      Feed4(url, src, from);
      FeedGroup(url, s[0], s[1], s[2], s[3]);
      assert s[4..] == src[from + 4..];
      if FeedAll(url, src, from, n).Bad? {
        BadStaysBad(url, src, from, n, 4);
      }
    }
  }
}
