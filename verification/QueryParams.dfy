/**
  `PARSE_PARAM` (chat/http/http.cc) as `initQueryParam` uses it: keys are taken as they are, values are
  URL-decoded with `+` for a space, and the first of several keys that differ only in case wins.
 */
module QueryParams {
  import opened FlatBuffer
  import opened UrlCodec
  import opened Characters

  /** The first position of `c` in `s` from `i` on, or the length. */
  function Find(s: seq<Byte>, c: Byte, i: nat): (k: nat)
    requires i <= |s|
    ensures i <= k <= |s|
    ensures k < |s| ==> s[k] == c
    ensures forall j :: i <= j < k ==> s[j] != c
    decreases |s| - i
  {
    if i == |s| || s[i] == c then i else Find(s, c, i + 1)
  }

  lemma FindIs(s: seq<Byte>, c: Byte, i: nat, k: nat)
    requires i <= k <= |s| && (k < |s| ==> s[k] == c) && forall j :: i <= j < k ==> s[j] != c
    ensures Find(s, c, i) == k
  {}

  // ---------------------------------------------------------------- the parameter map

  function Lower(c: Byte): Byte {
    if 65 <= c <= 90 then c + 32 else c
  }

  /** `strcasecmp` compares up to the first NUL and without case. */
  function Fold(key: seq<Byte>): seq<Byte> {
    if key == [] || key[0] == 0 then [] else [Lower(key[0])] + Fold(key[1..])
  }

  /** The same letter, in either case, or the same byte. */
  predicate SameLetter(c: Byte, d: Byte) {
    c == d || exists i :: 0 <= i < 26 && Pair(i, c, d)
  }

  predicate Pair(i: nat, c: Byte, d: Byte)
    requires i < 26
  {
    (LETTERS[i] as int == c && SMALL[i] as int == d) || (LETTERS[i] as int == d && SMALL[i] as int == c)
  }

  lemma LowerIs(c: Byte, d: Byte)
    ensures Lower(c) == Lower(d) <==> SameLetter(c, d)
  {
    Consecutive();
    if 65 <= c <= 90 && d == c + 32 { assert Pair(c - 65, c, d); }
    if 65 <= d <= 90 && c == d + 32 { assert Pair(d - 65, c, d); }
  }

  /** Up to the first NUL. */
  function Visible(key: seq<Byte>): (s: seq<Byte>)
    ensures |s| <= |key| && 0 !in s && s == key[..|s|] && (|s| < |key| ==> key[|s|] == 0)
  {
    if key == [] || key[0] == 0 then [] else [key[0]] + Visible(key[1..])
  }

  lemma {:induction false} FoldAt(key: seq<Byte>, i: nat)
    ensures |Fold(key)| == |Visible(key)|
    ensures i < |Fold(key)| ==> Fold(key)[i] == Lower(Visible(key)[i])
  {
    if key != [] && key[0] != 0 {
      FoldAt(key[1..], if i > 0 then i - 1 else 0);
    }
  }

  /** Two keys are one to the map exactly when, up to their first NULs, they agree letter by letter in either case. */
  lemma SameKeyIff(a: seq<Byte>, b: seq<Byte>)
    ensures Fold(a) == Fold(b) <==>
              |Visible(a)| == |Visible(b)| && forall i :: 0 <= i < |Visible(a)| ==> SameLetter(Visible(a)[i], Visible(b)[i])
  {
    FoldAt(a, 0);
    FoldAt(b, 0);
    if |Visible(a)| == |Visible(b)| {
      forall i | 0 <= i < |Visible(a)| ensures Fold(a)[i] == Fold(b)[i] <==> SameLetter(Visible(a)[i], Visible(b)[i]) {
        FoldAt(a, i);
        FoldAt(b, i);
        LowerIs(Visible(a)[i], Visible(b)[i]);
      }
    }
  }

  datatype Param = Param(key: seq<Byte>, value: seq<Byte>)

  /** The map, by folded key. */
  type Params = map<seq<Byte>, Param>

  /** `map::insert` keeps what is there. */
  function Insert(m: Params, p: Param): Params {
    if Fold(p.key) in m then m else m[Fold(p.key) := p]
  }

  function InsertAll(m: Params, ps: seq<Param>): Params
    decreases |ps|
  {
    if ps == [] then m else InsertAll(Insert(m, ps[0]), ps[1..])
  }

  /** The first pair with a given folded key, and the keys there are. */
  ghost predicate FirstWins(m: Params, ps: seq<Param>) {
    && (forall i :: 0 <= i < |ps| ==> Fold(ps[i].key) in m)
    && (forall f :: f in m ==> exists i :: IsFirst(ps, i, f) && m[f] == ps[i])
  }

  predicate IsFirst(ps: seq<Param>, i: int, f: seq<Byte>) {
    && 0 <= i < |ps| && Fold(ps[i].key) == f
    && forall j :: 0 <= j < i ==> Fold(ps[j].key) != f
  }

  lemma {:induction false} InsertAllAppends(m: Params, a: seq<Param>, b: seq<Param>)
    ensures InsertAll(m, a + b) == InsertAll(InsertAll(m, a), b)
    decreases |a|
  {
    if a == [] {
      assert a + b == b;
    } else {
      assert (a + b)[1..] == a[1..] + b;
      InsertAllAppends(Insert(m, a[0]), a[1..], b);
    }
  }

  lemma {:induction false} InsertAllIsFirstWins(ps: seq<Param>)
    ensures FirstWins(InsertAll(map[], ps), ps)
    decreases |ps|
  {
    if ps != [] {
      var front, last := ps[..|ps| - 1], ps[|ps| - 1];
      var m := InsertAll(map[], front);
      InsertAllIsFirstWins(front);
      assert ps == front + [last];
      InsertAllAppends(map[], front, [last]);
      assert InsertAll(m, [last]) == Insert(m, last) by {
        assert [last][1..] == [];
      }
      LastInsert(m, front, last);
    }
  }

  lemma LastInsert(m: Params, front: seq<Param>, last: Param)
    requires FirstWins(m, front)
    ensures FirstWins(Insert(m, last), front + [last])
  {
    var ps, m' := front + [last], Insert(m, last);
    forall f | f in m' ensures exists i :: IsFirst(ps, i, f) && m'[f] == ps[i] {
      if f in m {
        var i :| IsFirst(front, i, f) && m[f] == front[i];
        assert IsFirst(ps, i, f) && m'[f] == ps[i];
      } else {
        assert IsFirst(ps, |front|, f) && m'[f] == ps[|front|];
      }
    }
  }

  // ---------------------------------------------------------------- parsing

  /** Where the next `=` is from `pos` on, and the next `&` after it. */
  function KeyEnd(s: seq<Byte>, pos: nat): (k: nat)
    requires pos <= |s|
    ensures pos <= k <= |s|
  {
    Find(s, EQUALS, pos)
  }

  function ValueEnd(s: seq<Byte>, k: nat): (a: nat)
    requires k < |s| && s[k] == EQUALS
    ensures k < a <= |s|
  {
    Find(s, AMP, k)
  }

  datatype PairList = Nil | Cons(head: Param, tail: PairList)

  /** The pairs of key and raw value in `s` from `pos` on: a key reaches to the next `=`, a value to the
      next `&` after that. */
  function Pairs(s: seq<Byte>, pos: nat): PairList
    requires pos <= |s|
    decreases |s| - pos
  {
    var k := KeyEnd(s, pos);
    if k == |s| then Nil else Cons(Param(s[pos..k], s[k + 1..ValueEnd(s, k)]), MorePairs(s, ValueEnd(s, k)))
  }

  /** The pairs after a value that ends at `a`. */
  function MorePairs(s: seq<Byte>, a: nat): PairList
    requires a <= |s|
    decreases |s| - a
  {
    if a == |s| then Nil else Pairs(s, a + 1)
  }

  function DecodeValue(p: Param): Param {
    p.(value := Decode(p.value, true))
  }

  function DecodeValues(ps: PairList): seq<Param> {
    match ps
    case Nil => []
    case Cons(p, rest) => [DecodeValue(p)] + DecodeValues(rest)
  }

  /** The map so far and the pairs still to come make up the whole answer. */
  ghost predicate OnTrack(m: Params, all: Params, rest: PairList) {
    InsertAll(m, DecodeValues(rest)) == all
  }

  lemma TrackNext(m: Params, all: Params, p: Param, ps: PairList)
    requires OnTrack(m, all, Cons(p, ps))
    ensures OnTrack(Insert(m, DecodeValue(p)), all, ps)
  {
    assert ([DecodeValue(p)] + DecodeValues(ps))[1..] == DecodeValues(ps);
  }

  /** What one turn of the loop keeps, and where the last one leaves off. */
  lemma Turn(m: Params, all: Params, str: seq<Byte>, last: nat, key: nat, a: nat, m': Params)
    requires last <= |str| && key == KeyEnd(str, last) && key < |str| && a == ValueEnd(str, key)
    requires OnTrack(m, all, Pairs(str, last))
    requires m' == Insert(m, Param(str[last..key], Decode(str[key + 1..a], true)))
    ensures if a == |str| then m' == all else OnTrack(m', all, Pairs(str, a + 1))
  {
    TrackNext(m, all, Param(str[last..key], str[key + 1..a]), MorePairs(str, a));
  }

  lemma NoMore(m: Params, all: Params, str: seq<Byte>, last: nat)
    requires last <= |str| && KeyEnd(str, last) == |str| && OnTrack(m, all, Pairs(str, last))
    ensures m == all
  {}

  /** The whole answer for `str`, on top of `params`. */
  function Parsed(params: Params, str: seq<Byte>, pos: nat): Params
    requires pos <= |str|
  {
    InsertAll(params, DecodeValues(Pairs(str, pos)))
  }

  method ParseParam(str: seq<Byte>, params: Params) returns (m: Params)
    ensures m == Parsed(params, str, 0)
  {
    m := params;
    var pos, more := 0, true;
    ghost var all := Parsed(params, str, pos);
    while more
      invariant 0 <= pos <= |str|
      invariant if more then OnTrack(m, all, Pairs(str, pos)) else m == all
      decreases more, |str| - pos
    {
      pos, more, m := OneParam(str, pos, m, all);
    }
  }

  /** One turn of the loop; `more` is false where the source breaks out of it. */
  method OneParam(str: seq<Byte>, last: nat, params: Params, ghost all: Params) returns (pos: nat, more: bool, m: Params)
    requires last <= |str| && OnTrack(params, all, Pairs(str, last))
    ensures last <= pos <= |str|
    ensures if more then last < pos && OnTrack(m, all, Pairs(str, pos)) else m == all
  {
    m := params;
    pos := Find(str, EQUALS, last);
    if pos == |str| {
      NoMore(m, all, str, last);
      return pos, false, m;
    }
    var key := pos;
    pos := Find(str, AMP, pos);
    var value := UrlDecode(str[key + 1..pos], true);
    m := Insert(m, Param(str[last..key], value));
    Turn(params, all, str, last, key, pos, m);
    if pos == |str| {
      return pos, false, m;
    }
    return pos + 1, true, m;
  }

  // ---------------------------------------------------------------- what comes before does not matter

  ghost predicate Shifted(s: seq<Byte>, t: seq<Byte>, d: nat) {
    |s| == d + |t| && forall j :: 0 <= j < |t| ==> t[j] == s[d + j]
  }

  lemma FindShift(s: seq<Byte>, t: seq<Byte>, c: Byte, d: nat, i: nat)
    requires Shifted(s, t, d) && i <= |t|
    ensures Find(s, c, d + i) == d + Find(t, c, i)
  {
    var k := Find(t, c, i);
    forall j | d + i <= j < d + k ensures s[j] != c {
      assert t[j - d] == s[j];
    }
    FindIs(s, c, d + i, d + k);
  }

  lemma SliceShift(s: seq<Byte>, t: seq<Byte>, d: nat, x: nat, y: nat)
    requires Shifted(s, t, d) && x <= y <= |t|
    ensures t[x..y] == s[d + x..d + y]
  {}

  /** From `i` on, `t` has the same next key and value as `s` has `d` further on, or neither has one. */
  ghost predicate SameTurn(s: seq<Byte>, t: seq<Byte>, d: nat, i: nat)
    requires |s| == d + |t| && i <= |t|
  {
    var k, k' := KeyEnd(t, i), KeyEnd(s, d + i);
    && k' == d + k
    && (k < |t| ==>
          var a, a' := ValueEnd(t, k), ValueEnd(s, k');
          a' == d + a && s[d + i..k'] == t[i..k] && s[k' + 1..a'] == t[k + 1..a])
  }

  ghost predicate SameTurns(s: seq<Byte>, t: seq<Byte>, d: nat) {
    |s| == d + |t| && forall i: nat :: i <= |t| ==> SameTurn(s, t, d, i)
  }

  lemma TurnShift(s: seq<Byte>, t: seq<Byte>, d: nat, i: nat)
    requires Shifted(s, t, d) && i <= |t|
    ensures SameTurn(s, t, d, i)
  {
    FindShift(s, t, EQUALS, d, i);
    var k := KeyEnd(t, i);
    if k < |t| {
      FindShift(s, t, AMP, d, k);
      SliceShift(s, t, d, i, k);
      SliceShift(s, t, d, k + 1, ValueEnd(t, k));
    }
  }

  lemma {:induction false} PairsShift(s: seq<Byte>, t: seq<Byte>, d: nat, i: nat)
    requires SameTurns(s, t, d) && i <= |t|
    ensures Pairs(s, d + i) == Pairs(t, i)
    decreases |t| - i
  {
    assert SameTurn(s, t, d, i);
    var k := KeyEnd(t, i);
    if k < |t| {
      var a := ValueEnd(t, k);
      if a < |t| {
        PairsShift(s, t, d, a + 1);
        assert d + (a + 1) == d + a + 1;
      }
    }
  }

  lemma SuffixPairs(s: seq<Byte>, t: seq<Byte>, d: nat)
    requires Shifted(s, t, d)
    ensures Pairs(s, d) == Pairs(t, 0)
  {
    forall i: nat | i <= |t| ensures SameTurn(s, t, d, i) {
      TurnShift(s, t, d, i);
    }
    PairsShift(s, t, d, 0);
  }

  // ---------------------------------------------------------------- what parsing recovers

  /** `key=UrlEncode(value)`, joined by `&`. */
  function Query(ps: seq<Param>, plus: bool): seq<Byte>
    decreases |ps|
  {
    if ps == [] then []
    else
      var one := ps[0].key + [EQUALS] + Encode(ps[0].value, plus);
      if |ps| == 1 then one else one + [AMP] + Query(ps[1..], plus)
  }

  lemma QueryIs(p: Param, q: Param, plus: bool)
    ensures Query([p, q], plus) ==
              p.key + ['=' as int] + Encode(p.value, plus) + ['&' as int] + q.key + ['=' as int] + Encode(q.value, plus)
  {
    assert [p, q][1..] == [q];
  }

  function Encoded(ps: seq<Param>, plus: bool): PairList {
    if ps == [] then Nil else Cons(Param(ps[0].key, Encode(ps[0].value, plus)), Encoded(ps[1..], plus))
  }

  ghost predicate NoEquals(ps: seq<Param>) {
    forall i :: 0 <= i < |ps| ==> EQUALS !in ps[i].key
  }

  /** A value has no `&`, so it ends where the next pair begins. */
  lemma LastPair(key: seq<Byte>, value: seq<Byte>)
    requires EQUALS !in key && AMP !in value
    ensures Pairs(key + [EQUALS] + value, 0) == Cons(Param(key, value), Nil)
  {
    var s := key + [EQUALS] + value;
    FindIs(s, EQUALS, 0, |key|);
    FindIs(s, AMP, |key|, |s|);
    assert s[0..|key|] == key && s[|key| + 1..|s|] == value;
  }

  lemma FirstPair(key: seq<Byte>, value: seq<Byte>, rest: seq<Byte>)
    requires EQUALS !in key && AMP !in value
    ensures Pairs(key + [EQUALS] + value + [AMP] + rest, 0) == Cons(Param(key, value), Pairs(rest, 0))
  {
    var n := |key| + 1 + |value|;
    var t := key + [EQUALS] + value + [AMP] + rest;
    FirstPairIn(t, key, value);
    RestPairs(key + [EQUALS] + value + [AMP], rest);
    PairsAre(t, key, value, rest, n + 1);
  }

  /** The first pair in `t` is `key` and `value`, with a `&` behind. */
  ghost predicate StartsWith(t: seq<Byte>, key: seq<Byte>, value: seq<Byte>) {
    var n := |key| + 1 + |value|;
    && n < |t| && KeyEnd(t, 0) == |key| && ValueEnd(t, |key|) == n
    && t[0..|key|] == key && t[|key| + 1..n] == value
  }

  lemma PairsAre(t: seq<Byte>, key: seq<Byte>, value: seq<Byte>, rest: seq<Byte>, next: nat)
    requires StartsWith(t, key, value) && next == |key| + 1 + |value| + 1 && Pairs(t, next) == Pairs(rest, 0)
    ensures Pairs(t, 0) == Cons(Param(key, value), Pairs(rest, 0))
  {}

  lemma RestPairs(front: seq<Byte>, rest: seq<Byte>)
    ensures Pairs(front + rest, |front|) == Pairs(rest, 0)
  {
    SuffixPairs(front + rest, rest, |front|);
  }

  lemma FirstPairIn(t: seq<Byte>, key: seq<Byte>, value: seq<Byte>)
    requires EQUALS !in key && AMP !in value
    requires |key| + 1 + |value| < |t| && key + [EQUALS] + value + [AMP] <= t
    ensures StartsWith(t, key, value)
  {
    var f := key + [EQUALS] + value + [AMP];
    assert forall j :: 0 <= j < |f| ==> t[j] == f[j];
    FindIs(t, EQUALS, 0, |key|);
    FindIs(t, AMP, |key|, |key| + 1 + |value|);
  }

  /** A key with `=` in it is cut there. */
  lemma CutKey(key: seq<Byte>, rest: seq<Byte>)
    requires EQUALS in key
    ensures var ps := Pairs(key + [EQUALS] + rest, 0); ps.Cons? && |ps.head.key| < |key|
  {
    var s := key + [EQUALS] + rest;
    var k := Find(key, EQUALS, 0);
    FindIs(s, EQUALS, 0, k);
  }

  lemma NoAmp(v: seq<Byte>, plus: bool)
    ensures AMP !in Encode(v, plus)
  {
    EncodingIsPlain(v, plus);
  }

  lemma {:induction false} PairsIff(ps: seq<Param>, plus: bool)
    ensures Pairs(Query(ps, plus), 0) == Encoded(ps, plus) <==> NoEquals(ps)
    decreases |ps|
  {
    if ps != [] {
      var p, v := ps[0], Encode(ps[0].value, plus);
      NoAmp(p.value, plus);
      if EQUALS in p.key {
        HeadCut(ps, plus);
      } else {
        if |ps| == 1 {
          LastPair(p.key, v);
        } else {
          FirstPair(p.key, v, Query(ps[1..], plus));
          PairsIff(ps[1..], plus);
          TailNoEquals(ps);
        }
      }
    }
  }

  lemma HeadCut(ps: seq<Param>, plus: bool)
    requires ps != [] && EQUALS in ps[0].key
    ensures Pairs(Query(ps, plus), 0) != Encoded(ps, plus) && !NoEquals(ps)
  {
    var key, v := ps[0].key, Encode(ps[0].value, plus);
    var rest := if |ps| == 1 then v else v + [AMP] + Query(ps[1..], plus);
    CutKey(key, rest);
    if |ps| > 1 {
      Regroup(key, v, Query(ps[1..], plus));
    }
  }

  lemma Regroup(key: seq<Byte>, v: seq<Byte>, q: seq<Byte>)
    ensures key + [EQUALS] + v + [AMP] + q == key + [EQUALS] + (v + [AMP] + q)
  {}

  lemma TailNoEquals(ps: seq<Param>)
    requires ps != [] && EQUALS !in ps[0].key
    ensures NoEquals(ps) <==> NoEquals(ps[1..])
  {
    if NoEquals(ps[1..]) {
      forall i | 0 <= i < |ps| ensures EQUALS !in ps[i].key {
        assert i > 0 ==> ps[i] == ps[1..][i - 1];
      }
    }
  }

  lemma {:induction false} ValuesBack(ps: seq<Param>, plus: bool)
    ensures DecodeValues(Encoded(ps, plus)) == ps
  {
    if ps != [] {
      ValuesBack(ps[1..], plus);
      RoundTripIff(ps[0].value, plus, true);
    }
  }

  /** Parsing a query built from pairs whose keys have no `=` (a `&` does no harm) yields, for each key up
      to case, the first pair, and no other key. */
  lemma QueryKeepsFirst(ps: seq<Param>, plus: bool)
    requires NoEquals(ps)
    ensures FirstWins(Parsed(map[], Query(ps, plus), 0), ps)
  {
    PairsIff(ps, plus);
    ValuesBack(ps, plus);
    InsertAllIsFirstWins(ps);
  }

  ghost predicate Recovered(m: Params, ps: seq<Param>) {
    && (forall i :: 0 <= i < |ps| ==> Fold(ps[i].key) in m && m[Fold(ps[i].key)] == ps[i])
    && (forall f :: f in m ==> exists i :: 0 <= i < |ps| && Fold(ps[i].key) == f)
  }

  /** Pairs whose keys agree up to case are the same pair. */
  ghost predicate Consistent(ps: seq<Param>) {
    forall i, j :: 0 <= i < j < |ps| && Fold(ps[i].key) == Fold(ps[j].key) ==> ps[i] == ps[j]
  }

  lemma FirstIsRecovered(m: Params, ps: seq<Param>)
    requires FirstWins(m, ps) && Consistent(ps)
    ensures Recovered(m, ps)
  {
    forall i | 0 <= i < |ps| ensures m[Fold(ps[i].key)] == ps[i] {
      var k :| IsFirst(ps, k, Fold(ps[i].key)) && m[Fold(ps[i].key)] == ps[k];
    }
    forall f | f in m ensures exists i :: 0 <= i < |ps| && Fold(ps[i].key) == f {
      var k :| IsFirst(ps, k, f) && m[f] == ps[k];
    }
  }

  /** Every pair is recovered exactly when no two different pairs have the same key up to case. */
  lemma RecoveredIff(ps: seq<Param>, plus: bool)
    requires NoEquals(ps)
    ensures Recovered(Parsed(map[], Query(ps, plus), 0), ps) <==> Consistent(ps)
  {
    QueryKeepsFirst(ps, plus);
    if Consistent(ps) {
      FirstIsRecovered(Parsed(map[], Query(ps, plus), 0), ps);
    }
  }
}
