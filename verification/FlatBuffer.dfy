/**
  The flat view of a `ByteArray`: one byte sequence `mem` (its length is the capacity),
  the number of valid bytes `size`, and the cursor `pos`.

  The linked list of chunks in module `ByteArrays` is proved to behave like this value.
 */
module FlatBuffer {

  type Byte = x: int | 0 <= x < 256

  datatype Flat = Flat(mem: seq<Byte>, size: nat, pos: nat)

  ghost predicate WellFormed(f: Flat) {
    f.pos <= f.size <= |f.mem|
  }

  /** What a read of the source can do: deliver bytes, throw `std::out_of_range`, or follow a
      null cursor (undefined behaviour in the source, an explicit outcome here). */
  datatype Fault = OutOfRange | NullCursor

  datatype Outcome<+T> = Ok(value: T) | Fail(why: Fault)

  /** An outcome together with the buffer it leaves behind. */
  datatype Got<+T> = Got(value: T, after: Flat) | Fault(why: Fault, after: Flat)

  function Pack<T>(r: Outcome<T>, after: Flat): Got<T> {
    match r
    case Ok(v) => Got(v, after)
    case Fail(w) => Got<T>.Fault(w, after)
  }

  function Max(a: int, b: int): int {
    if a < b then b else a
  }

  // ---------------------------------------------------------------- splicing

  function Splice(m: seq<Byte>, at: nat, s: seq<Byte>): seq<Byte>
    requires at + |s| <= |m|
  {
    m[..at] + s + m[at + |s|..]
  }

  lemma SpliceTwice(m: seq<Byte>, at: nat, s: seq<Byte>, t: seq<Byte>)
    requires at + |s| + |t| <= |m|
    ensures Splice(Splice(m, at, s), at + |s|, t) == Splice(m, at, s + t)
  {
    assert Splice(m, at, s)[..at + |s|] == m[..at] + s;
    assert Splice(m, at, s)[at + |s| + |t|..] == m[at + |s| + |t|..];
  }

  lemma SliceJoin(m: seq<Byte>, a: nat, b: nat, c: nat)
    requires a <= b <= c <= |m|
    ensures m[a..b] + m[b..c] == m[a..c]
  {}

  // ---------------------------------------------------------------- capacity

  /** The offset of chunk `i`: `i * b`, written as repeated addition. */
  function Off(i: nat, b: nat): nat {
    if i == 0 then 0 else Off(i - 1, b) + b
  }

  lemma {:induction false} OffIsProduct(i: nat, b: nat)
    ensures Off(i, b) == i * b
  {
    if i > 0 {
      OffIsProduct(i - 1, b);
      assert i * b == (i - 1) * b + b;
    }
  }

  lemma {:induction false} OffAdd(i: nat, j: nat, b: nat)
    ensures Off(i + j, b) == Off(i, b) + Off(j, b)
  {
    if j > 0 {
      OffAdd(i, j - 1, b);
    }
  }

  lemma {:induction false} OffApart(i: nat, j: nat, b: nat)
    requires i < j
    ensures Off(i, b) + b <= Off(j, b)
  {
    if i + 1 < j {
      OffApart(i, j - 1, b);
    }
  }

  /** Division with remainder, through `Off`. */
  lemma DivIs(p: nat, q: nat, r: nat, b: nat)
    requires b > 0 && p == Off(q, b) + r && r < b
    ensures p / b == q && p % b == r
  {
    var q' := p / b;
    OffIsProduct(q', b);
    assert p == q' * b + p % b;
    if q < q' { OffApart(q, q', b); }
    if q' < q { OffApart(q', q, b); }
  }

  function CeilDiv(n: nat, b: nat): nat
    requires b > 0
  {
    (n + b - 1) / b
  }

  lemma CeilDivBounds(n: nat, b: nat)
    requires b > 0
    ensures n <= Off(CeilDiv(n, b), b) < n + b
  {
    var q := CeilDiv(n, b);
    OffIsProduct(q, b);
    assert n + b - 1 == q * b + (n + b - 1) % b;
  }

  /** The capacity after `addCapacity(n)` at position `pos`: whole chunks are appended. */
  function GrownCapacity(b: nat, cap: nat, pos: nat, n: nat): nat
    requires b > 0 && pos <= cap
  {
    if cap - pos >= n then cap else cap + Off(CeilDiv(n - (cap - pos), b), b)
  }

  /** `k` is the least number of whole chunks, at least `chunks`, that holds `end` bytes. */
  ghost predicate LeastChunks(b: nat, chunks: nat, end: nat, k: nat) {
    && chunks <= k && end <= Off(k, b)
    && (chunks < k ==> end > Off(k - 1, b))
  }

  lemma LeastIsUnique(b: nat, chunks: nat, end: nat, k: nat, k': nat)
    requires b > 0 && LeastChunks(b, chunks, end, k) && LeastChunks(b, chunks, end, k')
    ensures k == k'
  {
    if k < k' - 1 { OffApart(k, k' - 1, b); }
    if k' < k - 1 { OffApart(k', k - 1, b); }
  }

  /** A growing write ends with the least number of whole chunks that holds its last byte. */
  lemma GrownIsLeast(b: nat, chunks: nat, pos: nat, n: nat) returns (k: nat)
    requires b > 0 && pos <= Off(chunks, b)
    ensures GrownCapacity(b, Off(chunks, b), pos, n) == Off(k, b)
    ensures LeastChunks(b, chunks, pos + n, k)
  {
    var cap := Off(chunks, b);
    if cap - pos >= n {
      k := chunks;
    } else {
      var m := CeilDiv(n - (cap - pos), b);
      CeilDivBounds(n - (cap - pos), b);
      OffAdd(chunks, m, b);
      k := chunks + m;
    }
  }

  lemma LeastTwice(b: nat, chunks: nat, mid: nat, end: nat, k1: nat, k2: nat)
    requires LeastChunks(b, chunks, mid, k1) && LeastChunks(b, k1, end, k2) && mid <= end
    ensures LeastChunks(b, chunks, end, k2)
  {}

  /** The capacity does not depend on how the bytes were split into writes. */
  lemma GrownTwice(b: nat, chunks: nat, pos: nat, n: nat, m: nat)
    requires b > 0 && pos <= Off(chunks, b)
    ensures pos + n <= GrownCapacity(b, Off(chunks, b), pos, n)
    ensures GrownCapacity(b, GrownCapacity(b, Off(chunks, b), pos, n), pos + n, m)
            == GrownCapacity(b, Off(chunks, b), pos, n + m)
  {
    var k1 := GrownIsLeast(b, chunks, pos, n);
    var k2 := GrownIsLeast(b, k1, pos + n, m);
    var k := GrownIsLeast(b, chunks, pos, n + m);
    LeastTwice(b, chunks, pos + n, pos + n + m, k1, k2);
    LeastIsUnique(b, chunks, pos + n + m, k2, k);
  }

  // ---------------------------------------------------------------- operations

  /** `write`: `buf` lands at the cursor, everything outside it that existed is kept. Bytes in
      freshly allocated chunks past the cursor are unspecified, so this is a relation. */
  ghost predicate WriteStep(b: nat, f: Flat, buf: seq<Byte>, g: Flat)
    requires b > 0 && WellFormed(f)
  {
    && |g.mem| == GrownCapacity(b, |f.mem|, f.pos, |buf|)
    && g.pos == f.pos + |buf| && g.size == Max(f.size, g.pos)
    && g.pos <= |g.mem| && |f.mem| <= |g.mem|
    && g.mem[..f.pos] == f.mem[..f.pos]
    && g.mem[f.pos..g.pos] == buf
    && (g.pos <= |f.mem| ==> g.mem[g.pos..|f.mem|] == f.mem[g.pos..])
  }

  lemma GrownHolds(b: nat, cap: nat, pos: nat, n: nat)
    requires b > 0 && pos <= cap
    ensures cap <= GrownCapacity(b, cap, pos, n) && pos + n <= GrownCapacity(b, cap, pos, n)
  {
    if cap - pos < n {
      CeilDivBounds(n - (cap - pos), b);
    }
  }

  /** Growing and then splicing is a write. */
  lemma SpliceIsWrite(b: nat, f: Flat, grown: seq<Byte>, buf: seq<Byte>, g: Flat)
    requires b > 0 && WellFormed(f) && f.mem <= grown
    requires |grown| == GrownCapacity(b, |f.mem|, f.pos, |buf|) && f.pos + |buf| <= |grown|
    requires g.pos == f.pos + |buf| && g.size == Max(f.size, g.pos) && g.mem == Splice(grown, f.pos, buf)
    ensures WriteStep(b, f, buf, g)
  {
    assert grown[..f.pos] == f.mem[..f.pos];
    if g.pos <= |f.mem| {
      SpliceKeepsRest(grown, f.pos, buf, |f.mem|);
      assert grown[..|f.mem|] == f.mem;
      assert grown[g.pos..|f.mem|] == grown[..|f.mem|][g.pos..];
    }
  }

  lemma SpliceKeepsRest(m: seq<Byte>, at: nat, s: seq<Byte>, to: nat)
    requires at + |s| <= to <= |m|
    ensures Splice(m, at, s)[at + |s|..to] == m[at + |s|..to]
  {}

  lemma WriteNothing(b: nat, f: Flat)
    requires b > 0 && WellFormed(f)
    ensures WriteStep(b, f, [], f)
  {}

  lemma TakeMore(s: seq<Byte>, i: nat, j: nat)
    requires i <= j <= |s|
    ensures s[..i] + s[i..j] == s[..j]
  {}

  /** Two writes in a row are one write of the concatenation. */
  lemma WriteTwice(b: nat, chunks: nat, f: Flat, x: seq<Byte>, g: Flat, y: seq<Byte>, h: Flat)
    requires b > 0 && WellFormed(f) && |f.mem| == Off(chunks, b)
    requires WriteStep(b, f, x, g) && WriteStep(b, g, y, h)
    ensures WriteStep(b, f, x + y, h)
  {
    GrownTwice(b, chunks, f.pos, |x|, |y|);
    SubSlice(h.mem, g.mem, 0, g.pos, 0, f.pos);
    SubSlice(h.mem, g.mem, 0, g.pos, f.pos, g.pos);
    SliceJoin(h.mem, f.pos, g.pos, h.pos);
    if h.pos <= |f.mem| {
      SubSlice(h.mem, g.mem, h.pos, |g.mem|, h.pos, |f.mem|);
      SubSlice(g.mem, f.mem, g.pos, |f.mem|, h.pos, |f.mem|);
    }
  }

  /** Equal slices have equal parts. */
  lemma SubSlice(a: seq<Byte>, b: seq<Byte>, from: nat, to: nat, lo: nat, hi: nat)
    requires from <= lo <= hi <= to && to <= |a| && to <= |b| && a[from..to] == b[from..to]
    ensures a[lo..hi] == b[lo..hi]
  {
    forall i | lo <= i < hi ensures a[i] == b[i] {
      assert a[from..to][i - from] == a[i] && b[from..to][i - from] == b[i];
    }
  }

  /** `read`: the bounds test comes first, then the cursor is dereferenced even for no bytes. */
  function FlatRead(f: Flat, n: nat): (r: Got<seq<Byte>>)
    requires WellFormed(f)
    ensures WellFormed(r.after)
    ensures r.Got? ==> |r.value| == n && r.after == f.(pos := f.pos + n)
    ensures r.Fault? ==> r.after == f
  {
    if n > f.size - f.pos then Fault(OutOfRange, f)
    else if f.pos == |f.mem| then Fault(NullCursor, f)
    else Got(f.mem[f.pos..f.pos + n], f.(pos := f.pos + n))
  }

  /** `setPosition` within capacity: moving past the data extends it. */
  function FlatSeek(f: Flat, v: nat): Flat
    requires v <= |f.mem|
  {
    f.(pos := v, size := Max(f.size, v))
  }

  /** After seeking to `v` and back to `p`, the data reaches to `v` or as far as before, and a read gives exactly
      the bytes from `p` on, unless `p` is at capacity. */
  lemma SeekReads(f: Flat, v: nat, p: nat, n: nat)
    requires WellFormed(f) && p <= v <= |f.mem|
    ensures var r := FlatRead(FlatSeek(FlatSeek(f, v), p), n);
            && (r.Got? <==> (p + n <= v || p + n <= f.size) && p < |f.mem|)
            && (r.Got? ==> r.value == f.mem[p..p + n] && r.after.pos == p + n && r.after.mem == f.mem)
  {}
}
