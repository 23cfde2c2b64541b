/**
  `StringUtil::UrlEncode` and `UrlDecode` (chat/util.cc): percent-encoding of section 2.1 of RFC 3986 on
  bytes, with `=` also left as it is and, by flag, a space written as `+`.
 */
module UrlCodec {
  import opened FlatBuffer
  import opened Characters

  const SPACE: Byte := 32
  const PERCENT: Byte := 37
  const AMP: Byte := 38
  const PLUS: Byte := 43
  const EQUALS: Byte := 61

  /** `uri_chars`: letters, digits, `-`, `.`, `_`, `~` and `=`. */
  predicate Unreserved(c: Byte) {
    c == 45 || c == 46 || 48 <= c <= 57 || c == EQUALS || 65 <= c <= 90 || c == 95 || 97 <= c <= 122 || c == 126
  }

  type Nibble = x: int | 0 <= x < 16

  function Hex(v: Nibble): Byte {
    if v < 10 then 48 + v else 65 + v - 10
  }

  predicate IsHex(c: Byte) {
    48 <= c <= 57 || 65 <= c <= 70 || 97 <= c <= 102
  }

  function HexValue(c: Byte): Nibble
    requires IsHex(c)
  {
    if c <= 57 then c - 48 else if c <= 70 then c - 65 + 10 else c - 97 + 10
  }

  function FromHex(a: Byte, b: Byte): Byte
    requires IsHex(a) && IsHex(b)
  {
    HexValue(a) * 16 + HexValue(b)
  }

  // ---------------------------------------------------------------- character by character

  function EncodeByte(c: Byte, plus: bool): seq<Byte> {
    if Unreserved(c) then [c]
    else if c == SPACE && plus then [PLUS]
    else [PERCENT, Hex(c / 16), Hex(c % 16)]
  }

  function Encode(s: seq<Byte>, plus: bool): seq<Byte> {
    if s == [] then [] else EncodeByte(s[0], plus) + Encode(s[1..], plus)
  }

  predicate Escape(s: seq<Byte>) {
    |s| >= 3 && s[0] == PERCENT && IsHex(s[1]) && IsHex(s[2])
  }

  /** Anything that is not a complete escape stands for itself. */
  function Decode(s: seq<Byte>, plus: bool): seq<Byte> {
    if s == [] then []
    else if s[0] == PLUS && plus then [SPACE] + Decode(s[1..], plus)
    else if Escape(s) then [FromHex(s[1], s[2])] + Decode(s[3..], plus)
    else [s[0]] + Decode(s[1..], plus)
  }

  // ---------------------------------------------------------------- the characters

  predicate Among(c: Byte, s: string) {
    exists i :: 0 <= i < |s| && s[i] as int == c
  }

  lemma AmongEach(c: Byte)
    ensures Among(c, LETTERS) <==> 65 <= c <= 90
    ensures Among(c, SMALL) <==> 97 <= c <= 122
    ensures Among(c, NUMERALS) <==> 48 <= c <= 57
  {
    Consecutive();
    if 65 <= c <= 90 { assert LETTERS[c - 65] as int == c; }
    if 97 <= c <= 122 { assert SMALL[c - 97] as int == c; }
    if 48 <= c <= 57 { assert NUMERALS[c - 48] as int == c; }
  }

  lemma AmongSigns(c: Byte)
    ensures Among(c, "-._~=") <==> c in {45, 46, 95, 126, 61}
  {
    var s := "-._~=";
    assert s[0] as int == 45 && s[1] as int == 46 && s[2] as int == 95 && s[3] as int == 126 && s[4] as int == 61;
  }

  /** What is left as it is. */
  lemma UnreservedIs(c: Byte)
    ensures Unreserved(c) <==> Among(c, LETTERS) || Among(c, SMALL) || Among(c, NUMERALS) || Among(c, "-._~=")
  {
    AmongEach(c);
    AmongSigns(c);
  }

  /** Digits are written in upper case and read in either. */
  lemma HexIs(v: Nibble, c: Byte)
    ensures Hex(v) == "0123456789ABCDEF"[v] as int
    ensures IsHex(c) <==> Among(c, "0123456789ABCDEF") || Among(c, "abcdef")
    ensures IsHex("0123456789ABCDEF"[v] as int) && HexValue("0123456789ABCDEF"[v] as int) == v
    ensures v >= 10 ==> IsHex("abcdef"[v - 10] as int) && HexValue("abcdef"[v - 10] as int) == v
  {
    var upper, lower := "0123456789ABCDEF", "abcdef";
    assert forall i :: 0 <= i < 16 ==> upper[i] as int == if i < 10 then 48 + i else 55 + i;
    assert forall i :: 0 <= i < 6 ==> lower[i] as int == 97 + i;
    if 48 <= c <= 57 { assert upper[c - 48] as int == c; }
    if 65 <= c <= 70 { assert upper[c - 55] as int == c; }
    if 97 <= c <= 102 { assert lower[c - 97] as int == c; }
  }

  /** A byte is written as itself, as `+`, or as `%` and its two digits; these are read back in any case. */
  lemma EscapesAre(c: Byte, plus: bool)
    ensures Encode([c], plus) ==
              if Unreserved(c) then [c] else if c == ' ' as int && plus then ['+' as int]
              else ['%' as int, "0123456789ABCDEF"[c / 16] as int, "0123456789ABCDEF"[c % 16] as int]
  {
    HexIs(c / 16, 0);
    HexIs(c % 16, 0);
    assert Encode([c], plus) == EncodeByte(c, plus) + Encode([], plus);
  }

  /** `%` and two hexadecimal digits at `i`. */
  predicate EscapeAt(s: seq<Byte>, i: nat) {
    i + 2 < |s| && s[i] == '%' as int && IsHex(s[i + 1]) && IsHex(s[i + 2])
  }

  /** No complete escape, and no `+` that stands for a space. */
  ghost predicate Untouched(s: seq<Byte>, plus: bool) {
    && (forall i :: 0 <= i < |s| ==> !EscapeAt(s, i))
    && (plus ==> forall i :: 0 <= i < |s| ==> s[i] != '+' as int)
  }

  lemma {:induction false} DecodeShortens(s: seq<Byte>, plus: bool)
    ensures |Decode(s, plus)| <= |s|
    decreases |s|
  {
    if s != [] {
      DecodeShortens(if Escape(s) && !(s[0] == PLUS && plus) then s[3..] else s[1..], plus);
    }
  }

  lemma UntouchedTail(s: seq<Byte>, plus: bool)
    requires s != []
    ensures Untouched(s, plus) <==> Untouched(s[1..], plus) && !EscapeAt(s, 0) && !(plus && s[0] == PLUS)
  {
    var t := s[1..];
    assert forall i :: 0 <= i < |t| ==> (EscapeAt(t, i) <==> EscapeAt(s, i + 1)) && t[i] == s[i + 1];
    if Untouched(t, plus) && !EscapeAt(s, 0) && !(plus && s[0] == PLUS) {
      forall i | 0 <= i < |s| ensures !EscapeAt(s, i) && (plus ==> s[i] != '+' as int) {
        if i > 0 {
          assert !EscapeAt(t, i - 1) && t[i - 1] == s[i];
        }
      }
    }
    if Untouched(s, plus) {
      forall i | 0 <= i < |t| ensures !EscapeAt(t, i) && (plus ==> t[i] != '+' as int) {
        assert !EscapeAt(s, i + 1);
      }
    }
  }

  /** Decoding leaves a text alone exactly when it has no complete escape and no `+` to be read as a space;
      incomplete escapes stay as they are. */
  lemma {:induction false} DecodeKeepsIff(s: seq<Byte>, plus: bool)
    ensures Decode(s, plus) == s <==> Untouched(s, plus)
    decreases |s|
  {
    if s != [] {
      UntouchedTail(s, plus);
      if s[0] == PLUS && plus {
        assert Decode(s, plus)[0] == SPACE;
      } else if Escape(s) {
        DecodeShortens(s[3..], plus);
      } else {
        DecodeKeepsIff(s[1..], plus);
        assert s == [s[0]] + s[1..];
        assert Decode(s, plus)[1..] == Decode(s[1..], plus);
      }
    }
  }

  // ---------------------------------------------------------------- round trips

  lemma HexBack(c: Byte)
    ensures IsHex(Hex(c / 16)) && IsHex(Hex(c % 16)) && FromHex(Hex(c / 16), Hex(c % 16)) == c
  {}

  /** What one byte comes back as when the two sides may disagree about `+`. */
  function Echo(c: Byte, p: bool, q: bool): Byte {
    if c == SPACE && p && !q then PLUS else c
  }

  function EchoAll(s: seq<Byte>, p: bool, q: bool): seq<Byte> {
    if s == [] then [] else [Echo(s[0], p, q)] + EchoAll(s[1..], p, q)
  }

  lemma ByteBack(c: Byte, p: bool, q: bool, rest: seq<Byte>)
    ensures Decode(EncodeByte(c, p) + rest, q) == [Echo(c, p, q)] + Decode(rest, q)
  {
    var e := EncodeByte(c, p);
    assert (e + rest)[|e|..] == rest;
    HexBack(c);
  }

  lemma {:induction false} DecodeEncode(s: seq<Byte>, p: bool, q: bool)
    ensures Decode(Encode(s, p), q) == EchoAll(s, p, q)
  {
    if s != [] {
      ByteBack(s[0], p, q, Encode(s[1..], p));
      DecodeEncode(s[1..], p, q);
    }
  }

  lemma {:induction false} EchoIff(s: seq<Byte>, p: bool, q: bool)
    ensures EchoAll(s, p, q) == s <==> !p || q || SPACE !in s
  {
    if s != [] {
      EchoIff(s[1..], p, q);
      assert s == [s[0]] + s[1..];
      assert EchoAll(s, p, q)[1..] == EchoAll(s[1..], p, q);
    }
  }

  /** Decoding with flag `q` undoes encoding with flag `p` exactly when the decoder reads every `+` the
      encoder wrote; with equal flags, always. */
  lemma RoundTripIff(s: seq<Byte>, p: bool, q: bool)
    ensures Decode(Encode(s, p), q) == s <==> !p || q || SPACE !in s
    ensures p == q ==> Decode(Encode(s, p), q) == s
  {
    DecodeEncode(s, p, q);
    EchoIff(s, p, q);
  }

  /** The only characters an encoding contains. */
  predicate Plain(c: Byte) {
    Unreserved(c) || c == PERCENT || c == PLUS
  }

  lemma {:induction false} EncodingIsPlain(s: seq<Byte>, p: bool)
    ensures forall i :: 0 <= i < |Encode(s, p)| ==> Plain(Encode(s, p)[i])
  {
    if s != [] {
      EncodingIsPlain(s[1..], p);
      ByteIsPlain(s[0], p);
    }
  }

  lemma ByteIsPlain(c: Byte, p: bool)
    ensures forall i :: 0 <= i < |EncodeByte(c, p)| ==> Plain(EncodeByte(c, p)[i])
  {}

  // ---------------------------------------------------------------- the lazily copying loops

  datatype Copy = NotYet | Started(text: seq<Byte>)

  /** What the copy stands for after `i` bytes: until it starts, the input itself. */
  function Written(copy: Copy, s: seq<Byte>, i: nat): seq<Byte>
    requires i <= |s|
  {
    match copy
    case NotYet => s[..i]
    case Started(text) => text
  }

  lemma EncodeNext(s: seq<Byte>, i: nat, plus: bool, done: seq<Byte>)
    requires i < |s|
    ensures done + Encode(s[i..], plus) == (done + EncodeByte(s[i], plus)) + Encode(s[i + 1..], plus)
  {
    assert s[i..][1..] == s[i + 1..];
  }

  method UrlEncode(str: seq<Byte>, plus: bool) returns (r: seq<Byte>)
    ensures r == Encode(str, plus)
  {
    var ss: Copy := NotYet;
    var c := 0;
    while c < |str|
      invariant 0 <= c <= |str|
      invariant Written(ss, str, c) + Encode(str[c..], plus) == Encode(str, plus)
    {
      EncodeNext(str, c, plus, Written(ss, str, c));
      ss := EncodeChar(str, plus, ss, c);
      c := c + 1;
    }
    r := if ss.NotYet? then str else ss.text;
    assert Written(ss, str, c) == r;
  }

  /** One turn of the encoding loop: the copy starts at the first byte that is escaped. */
  method EncodeChar(str: seq<Byte>, plus: bool, copy: Copy, c: nat) returns (ss: Copy)
    requires c < |str|
    ensures Written(ss, str, c + 1) == Written(copy, str, c) + EncodeByte(str[c], plus)
  {
    ss := copy;
    if !Unreserved(str[c]) {
      var text := if ss.NotYet? then str[..c] else ss.text;
      if str[c] == SPACE && plus {
        return Started(text + [PLUS]);
      }
      ss := Started(text + [PERCENT] + [Hex(str[c] / 16)] + [Hex(str[c] % 16)]);
      assert ss.text == text + EncodeByte(str[c], plus);
    } else if ss.Started? {
      ss := Started(ss.text + [str[c]]);
    } else {
      assert str[..c + 1] == str[..c] + [str[c]];
    }
  }

  /** The first step of decoding `s` and how many bytes it uses. */
  function DecodeOne(s: seq<Byte>, plus: bool): (r: (Byte, nat))
    requires s != []
    ensures 1 <= r.1 <= |s|
  {
    if s[0] == PLUS && plus then (SPACE, 1) else if Escape(s) then (FromHex(s[1], s[2]), 3) else (s[0], 1)
  }

  lemma DecodeNext(s: seq<Byte>, i: nat, plus: bool, done: seq<Byte>)
    requires i < |s|
    ensures var (b, n) := DecodeOne(s[i..], plus);
            done + Decode(s[i..], plus) == (done + [b]) + Decode(s[i + n..], plus)
  {
    var (b, n) := DecodeOne(s[i..], plus);
    DecodeUnfold(s[i..], plus);
    assert s[i..][n..] == s[i + n..];
    assert done + ([b] + Decode(s[i + n..], plus)) == (done + [b]) + Decode(s[i + n..], plus);
  }

  lemma DecodeUnfold(t: seq<Byte>, plus: bool)
    requires t != []
    ensures var (b, n) := DecodeOne(t, plus); Decode(t, plus) == [b] + Decode(t[n..], plus)
  {}

  method UrlDecode(str: seq<Byte>, plus: bool) returns (r: seq<Byte>)
    ensures r == Decode(str, plus)
  {
    var ss: Copy := NotYet;
    var c := 0;
    while c < |str|
      invariant 0 <= c <= |str|
      invariant Written(ss, str, c) + Decode(str[c..], plus) == Decode(str, plus)
    {
      DecodeNext(str, c, plus, Written(ss, str, c));
      ss, c := DecodeChar(str, plus, ss, c);
    }
    r := if ss.NotYet? then str else ss.text;
    assert Written(ss, str, c) == r;
  }

  /** One turn of the decoding loop: the copy starts at the first byte that changes. */
  method DecodeChar(str: seq<Byte>, plus: bool, copy: Copy, c: nat) returns (ss: Copy, next: nat)
    requires c < |str|
    ensures var (b, n) := DecodeOne(str[c..], plus);
            next == c + n && Written(ss, str, next) == Written(copy, str, c) + [b]
  {
    ss := copy;
    if str[c] == PLUS && plus {
      var text := if ss.NotYet? then str[..c] else ss.text;
      return Started(text + [SPACE]), c + 1;
    }
    if str[c] == PERCENT && c + 2 < |str| && IsHex(str[c + 1]) && IsHex(str[c + 2]) {
      var text := if ss.NotYet? then str[..c] else ss.text;
      assert Escape(str[c..]);
      return Started(text + [FromHex(str[c + 1], str[c + 2])]), c + 3;
    }
    if ss.Started? {
      return Started(ss.text + [str[c]]), c + 1;
    }
    assert str[..c + 1] == str[..c] + [str[c]];
    return ss, c + 1;
  }
}
