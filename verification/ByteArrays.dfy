/**
  `ByteArray` (chat/bytearray.cc): a singly linked list of equally sized chunks, a cursor node,
  and byte counters. Every method is proved against the flat buffer of module `FlatBuffer`.
 */
module ByteArrays {
  import opened FlatBuffer

  class Node {
    const ptr: array<Byte>
    var next: Node?

    constructor (size: nat)
      ensures fresh(ptr) && ptr.Length == size && next == null
    {
      ptr := new Byte[size];
      next := null;
    }

    constructor Over(data: array<Byte>)
      ensures ptr == data && next == null
    {
      ptr := data;
      next := null;
    }
  }

  /** One piece handed to `readv`/`writev`: `len` cells of a chunk starting at `off`. */
  datatype Iov = Iov(base: array<Byte>, off: nat, len: nat)

  class ByteArray {
    const baseSize: nat
    var position: nat
    var capacity: nat
    var size: nat
    var root: Node
    var cur: Node?
    ghost var nodes: seq<Node>
    ghost var mem: seq<Byte>
    ghost var index: nat
    ghost var Repr: set<object>

    ghost predicate Linked()
      reads this, Repr
    {
      && this in Repr && baseSize > 0
      && |nodes| > 0 && root == nodes[0]
      && (forall i {:trigger nodes[i]} :: 0 <= i < |nodes| ==>
            nodes[i] in Repr && nodes[i].ptr in Repr && nodes[i].ptr.Length == baseSize)
      && (forall i {:trigger nodes[i].next} :: 0 <= i < |nodes| ==>
            nodes[i].next == (if i + 1 < |nodes| then nodes[i + 1] else null))
      && (forall i, j {:trigger nodes[i], nodes[j]} :: 0 <= i < j < |nodes| ==> nodes[i] != nodes[j] && nodes[i].ptr != nodes[j].ptr)
      && capacity == Off(|nodes|, baseSize) == |mem|
    }

    /** Cell `j` of chunk `i` holds byte `i * baseSize + j` of the flat memory. */
    ghost predicate Tiled()
      requires Linked()
      reads this, Repr
    {
      forall i, j {:trigger nodes[i].ptr[j]} :: 0 <= i < |nodes| && 0 <= j < baseSize ==>
        nodes[i].ptr[j] == At(mem, Off(i, baseSize) + j)
    }

    /** The cursor node holds the byte at `position`; it is null exactly at capacity. */
    ghost predicate Valid()
      reads this, Repr
      ensures Valid() ==> this in Repr
    {
      && Linked() && Tiled()
      && position <= size <= capacity
      && CursorAt(index)
    }

    /** The cursor is in chunk `k`, or one past the last chunk. */
    ghost predicate CursorAt(k: nat)
      requires Linked()
      reads this, Repr
    {
      && k <= |nodes|
      && Off(k, baseSize) <= position
      && (k < |nodes| ==> position < Off(k, baseSize) + baseSize && cur == nodes[k])
      && (k == |nodes| ==> position == capacity && cur == null)
    }

    /** In a valid buffer the cursor is null exactly at capacity and otherwise is node
        `position / baseSize`, at offset `position % baseSize`. */
    lemma CursorIsQuotient()
      requires Linked() && CursorAt(index)
      ensures cur == null <==> position == capacity
      ensures cur != null ==>
        && position / baseSize == index < |nodes| && cur == nodes[index]
        && position % baseSize == position - Off(index, baseSize)
    {
      if index < |nodes| {
        OffApart(index, |nodes|, baseSize);
        DivIs(position, index, position - Off(index, baseSize), baseSize);
      }
    }

    ghost function View(): (f: Flat)
      reads this
    {
      Flat(mem, size, position)
    }

    constructor (base: nat)
      requires base > 0
      ensures Valid() && fresh(Repr)
      ensures baseSize == base && |nodes| == 1
      ensures View().pos == 0 && View().size == 0 && |mem| == base
    {
      baseSize, position, capacity, size := base, 0, base, 0;
      var n := new Node(base);
      root, cur := n, n;
      nodes, mem, index, Repr := [n], n.ptr[..], 0, {this, n, n.ptr};
      new;
    }

    /** A view over caller-owned storage: writes within its length land in `data` itself. */
    constructor Over(data: array<Byte>)
      requires data.Length > 0
      ensures Valid() && fresh(Repr - {data})
      ensures baseSize == data.Length && |nodes| == 1 && nodes[0].ptr == data
      ensures View() == Flat(data[..], data.Length, 0)
    {
      baseSize, position, capacity, size := data.Length, 0, data.Length, data.Length;
      var n := new Node.Over(data);
      root, cur := n, n;
      nodes, mem, index, Repr := [n], data[..], 0, {this, n, data};
      new;
    }

    // -------------------------------------------------------------- capacity

    method AddCapacity(n: nat)
      requires Valid()
      modifies Repr
      ensures Valid() && fresh(Repr - old(Repr))
      ensures old(nodes) <= nodes && old(mem) <= mem
      ensures |mem| == GrownCapacity(baseSize, |old(mem)|, old(position), n)
      ensures position == old(position) && size == old(size) && root == old(root)
      ensures n > 0 ==> cur != null
    {
      if n == 0 { return; }
      var oldCap := capacity - position;
      if oldCap >= n { return; }
      var count := CeilDiv(n - oldCap, baseSize);
      CeilDivBounds(n - oldCap, baseSize);
      OffAdd(|nodes|, count, baseSize);
      Grow(count, oldCap == 0);
    }

    /** Append `count` chunks; a cursor that was past the end moves onto the first of them. */
    method Grow(count: nat, atEnd: bool)
      requires Valid() && count > 0 && (atEnd <==> position == capacity)
      modifies Repr
      ensures Valid() && fresh(Repr - old(Repr)) && cur != null
      ensures old(nodes) <= nodes && old(mem) <= mem && |nodes| == |old(nodes)| + count
      ensures position == old(position) && size == old(size) && root == old(root)
    {
      CursorIsQuotient();
      var tmp := Tail();
      var first := AppendChunks(tmp, count);
      if atEnd {
        cur := first;
      }
    }

    method Tail() returns (tmp: Node)
      requires Linked()
      ensures tmp == nodes[|nodes| - 1]
    {
      tmp := root;
      ghost var k: nat := 0;
      while tmp.next != null
        invariant 0 <= k < |nodes| && tmp == nodes[k]
        decreases |nodes| - k
      {
        assert nodes[k].next != null;
        tmp := tmp.next;
        k := k + 1;
      }
      assert nodes[k].next == null;
    }

    method AppendChunks(tail: Node, count: nat) returns (first: Node?)
      requires Linked() && Tiled() && tail == nodes[|nodes| - 1] && position <= size <= capacity
      modifies tail`next, this`nodes, this`mem, this`Repr, this`capacity
      ensures Linked() && Tiled() && fresh(Repr - old(Repr)) && old(Repr) <= Repr
      ensures old(nodes) <= nodes && old(mem) <= mem && |nodes| == |old(nodes)| + count
      ensures count > 0 ==> first == nodes[|old(nodes)|]
    {
      first := null;
      var tmp := tail;
      var i := 0;
      while i < count
        invariant 0 <= i <= count && |nodes| == |old(nodes)| + i
        invariant Linked() && Tiled() && fresh(Repr - old(Repr)) && old(Repr) <= Repr
        invariant tmp == nodes[|nodes| - 1] && (i > 0 ==> fresh(tmp)) && (i == 0 ==> tmp == tail)
        invariant old(nodes) <= nodes && old(mem) <= mem
        invariant first == (if i == 0 then null else nodes[|old(nodes)|])
        invariant position <= size <= capacity
      {
        var chunk := new Node(baseSize);
        Append(tmp, chunk);
        if first == null {
          first := tmp.next;
        }
        tmp := tmp.next;
        i := i + 1;
      }
    }

    /** Link one fresh chunk behind the tail. */
    method Append(tail: Node, n: Node)
      requires Linked() && Tiled() && tail == nodes[|nodes| - 1]
      requires n !in Repr && n.ptr !in Repr && n.ptr.Length == baseSize && n.next == null
      requires position <= size <= capacity
      modifies tail`next, this`nodes, this`mem, this`Repr, this`capacity
      ensures Linked() && Tiled()
      ensures nodes == old(nodes) + [n] && Repr == old(Repr) + {n, n.ptr}
      ensures tail.next == n
      ensures mem == old(mem) + n.ptr[..]
    {
      tail.next := n;
      capacity := capacity + baseSize;
      ghost var c := |nodes|;
      nodes, Repr, mem := nodes + [n], Repr + {n, n.ptr}, mem + n.ptr[..];
      forall i, j | 0 <= i < |nodes| && 0 <= j < baseSize
        ensures nodes[i].ptr[j] == At(mem, Off(i, baseSize) + j)
      {
        if i < c {
          OffApart(i, c, baseSize);
          assert nodes[i].ptr[j] == old(nodes[i].ptr[j]);
        }
      }
    }

    // -------------------------------------------------------------- write

    method Write(buf: seq<Byte>)
      requires Valid()
      modifies Repr
      ensures Valid() && fresh(Repr - old(Repr))
      ensures old(nodes) <= nodes && root == old(root)
      ensures WriteStep(baseSize, old(View()), buf, View())
    {
      if |buf| == 0 {
        WriteNothing(baseSize, View());
        return;
      }
      AddCapacity(|buf|);
      ghost var grown := mem;
      GrownHolds(baseSize, |old(mem)|, position, |buf|);
      Fill(buf);
      SpliceIsWrite(baseSize, old(View()), grown, buf, View());
    }

    /** `write` once there is room: copy, then extend the size. */
    method Fill(buf: seq<Byte>)
      requires Valid() && |buf| > 0 && position + |buf| <= |mem|
      modifies this`mem, this`position, this`cur, this`index, this`size, set n | n in nodes :: n.ptr
      ensures Valid() && position == old(position) + |buf| && size == Max(old(size), position)
      ensures mem == Splice(old(mem), old(position), buf)
    {
      CopyAll(buf);
      if position > size {
        size := position;
      }
    }

    /** The copy loop of `write`, once there is room. */
    method CopyAll(buf: seq<Byte>)
      requires Valid() && |buf| > 0 && position + |buf| <= |mem|
      modifies this`mem, this`position, this`cur, this`index, set n | n in nodes :: n.ptr
      ensures Linked() && Tiled() && CursorAt(index)
      ensures position == old(position) + |buf|
      ensures mem == Splice(old(mem), old(position), buf)
    {
      var n: nat := |buf|;
      CursorIsQuotient();
      var npos := position % baseSize;
      var ncap := cur.ptr.Length - npos;
      var bpos: nat := 0;
      assert Splice(mem, position, buf[..0]) == mem;
      while n > 0
        invariant bpos + n == |buf|
        invariant Linked() && Tiled() && CursorAt(index)
        invariant position == old(position) + bpos && |mem| == |old(mem)|
        invariant mem == Splice(old(mem), old(position), buf[..bpos])
        invariant n > 0 ==> npos == position - Off(index, baseSize) && ncap == baseSize - npos
        decreases n
      {
        var take := if ncap >= n then n else ncap;
        CopyPart(buf, bpos, take, npos, old(mem), old(position));
        bpos := bpos + take;
        n := n - take;
        if n > 0 {
          ncap := cur.ptr.Length;
          npos := 0;
        }
      }
      assert buf[..bpos] == buf;
    }

    /** One `memcpy` of `write`: the next `take` bytes, into the current chunk. */
    method CopyPart(buf: seq<Byte>, bpos: nat, take: nat, npos: nat, ghost mem0: seq<Byte>, ghost start: nat)
      requires Linked() && Tiled() && CursorAt(index) && cur != null
      requires npos == position - Off(index, baseSize) && 0 < take && npos + take <= baseSize && bpos + take <= |buf|
      requires position == start + bpos && start + bpos + take <= |mem0| && mem == Splice(mem0, start, buf[..bpos])
      modifies this`mem, this`position, this`cur, this`index, cur.ptr
      ensures Linked() && Tiled() && CursorAt(index)
      ensures mem == Splice(mem0, start, buf[..bpos + take])
      ensures position == old(position) + take
      ensures npos + take == baseSize ==> Off(index, baseSize) == position
    {
      Put(npos, buf[bpos..bpos + take], mem0, start, buf[..bpos]);
      TakeMore(buf, bpos, bpos + take);
    }

    /** Move the cursor `take` bytes on, to the next node exactly when this chunk is used up. */
    method Advance(npos: nat, take: nat)
      requires Linked() && CursorAt(index) && cur != null
      requires npos == position - Off(index, baseSize) && 0 < take && npos + take <= baseSize
      modifies this`position, this`cur, this`index
      ensures CursorAt(index)
      ensures position == old(position) + take
      ensures index == if old(position) + take == Off(old(index), baseSize) + baseSize
                       then old(index) + 1 else old(index)
    {
      assert nodes[index].next == if index + 1 < |nodes| then nodes[index + 1] else null;
      if cur.ptr.Length == npos + take {
        cur := cur.next;
        index := index + 1;
      }
      position := position + take;
    }

    /** Copy `s` into the current chunk, extending the part `done` of a write begun at `start`. */
    method Put(npos: nat, s: seq<Byte>, ghost mem0: seq<Byte>, ghost start: nat, ghost done: seq<Byte>)
      requires Linked() && Tiled() && CursorAt(index) && cur != null
      requires npos == position - Off(index, baseSize) && 0 < |s| && npos + |s| <= baseSize
      requires position == start + |done| && start + |done| + |s| <= |mem0| && mem == Splice(mem0, start, done)
      modifies this`mem, this`position, this`cur, this`index, cur.ptr
      ensures Linked() && Tiled() && CursorAt(index)
      ensures mem == Splice(mem0, start, done + s)
      ensures position == old(position) + |s|
      ensures npos + |s| == baseSize ==> Off(index, baseSize) == position
    {
      OffApart(index, |nodes|, baseSize);
      CopyIn(index, npos, s);
      SpliceTwice(mem0, start, done, s);
      Advance(npos, |s|);
    }

    /** `memcpy` of `s` to `c[npos..]`. */
    method CopyCells(c: array<Byte>, npos: nat, s: seq<Byte>)
      requires npos + |s| <= c.Length
      modifies c
      ensures forall j :: 0 <= j < c.Length ==> c[j] == if npos <= j < npos + |s| then s[j - npos] else old(c[j])
    {
      forall j | 0 <= j < |s| {
        c[npos + j] := s[j];
      }
    }

    /** `memcpy` into chunk `k` at `npos`. */
    method CopyIn(ghost k: nat, npos: nat, s: seq<Byte>)
      requires Linked() && Tiled() && k < |nodes| && cur == nodes[k] && npos + |s| <= baseSize
      requires Off(k, baseSize) + baseSize <= |mem|
      modifies this`mem, nodes[k].ptr
      ensures Linked() && Tiled()
      ensures mem == Splice(old(mem), Off(k, baseSize) + npos, s)
    {
      var c := cur.ptr;
      CopyCells(c, npos, s);
      mem := Splice(mem, Off(k, baseSize) + npos, s);
      forall i, j | 0 <= i < |nodes| && 0 <= j < baseSize
        ensures nodes[i].ptr[j] == At(mem, Off(i, baseSize) + j)
      {
        OffApart(i, |nodes|, baseSize);
        assert i != k ==> nodes[i].ptr != c && nodes[i].ptr[j] == old(nodes[i].ptr[j]);
        assert i == k ==> nodes[i].ptr[j] == if npos <= j < npos + |s| then s[j - npos] else old(nodes[i].ptr[j]);
        CellAfterSplice(baseSize, old(mem), k, npos, s, i, j);
      }
    }

    // -------------------------------------------------------------- read

    method Read(n: nat) returns (r: Outcome<seq<Byte>>)
      requires Valid()
      modifies this`position, this`cur, this`index
      ensures Valid()
      ensures Pack(r, View()) == FlatRead(old(View()), n)
    {
      if n > size - position {
        return Fail(OutOfRange);
      }
      CursorIsQuotient();
      if cur == null {
        return Fail(NullCursor);
      }
      var out := CopyOut(n);
      r := Ok(out);
    }

    /** The copy loop of `read`. */
    method CopyOut(n: nat) returns (out: seq<Byte>)
      requires Valid() && cur != null && n <= size - position
      modifies this`position, this`cur, this`index
      ensures Valid() && position == old(position) + n && out == mem[old(position)..position]
    {
      CursorIsQuotient();
      var npos := position % baseSize;
      var ncap := cur.ptr.Length - npos;
      var left: nat := n;
      out := [];
      while left > 0
        invariant |out| + left == n
        invariant CursorAt(index)
        invariant position == old(position) + |out|
        invariant out == mem[old(position)..position]
        invariant left > 0 ==> npos == position - Off(index, baseSize) && ncap == baseSize - npos
        decreases left
      {
        var take := if ncap >= left then left else ncap;
        out := GetAfter(out, old(position), npos, take);
        left := left - take;
        if left > 0 {
          ncap := cur.ptr.Length;
          npos := 0;
        }
      }
    }

    /** What has been copied since `from`, and `take` bytes more. */
    method GetAfter(out: seq<Byte>, ghost from: nat, npos: nat, take: nat) returns (out': seq<Byte>)
      requires Linked() && Tiled() && CursorAt(index) && cur != null
      requires npos == position - Off(index, baseSize) && 0 < take && npos + take <= baseSize
      requires from <= position <= |mem| && out == mem[from..position]
      modifies this`position, this`cur, this`index
      ensures CursorAt(index)
      ensures position == old(position) + take <= |mem|
      ensures out' == mem[from..position]
      ensures npos + take == baseSize ==> Off(index, baseSize) == position
    {
      var part := Get(npos, take);
      SliceJoin(mem, from, old(position), position);
      out' := out + part;
    }

    /** Copy `take` bytes out of the current chunk. */
    method Get(npos: nat, take: nat) returns (part: seq<Byte>)
      requires Linked() && Tiled() && CursorAt(index) && cur != null
      requires npos == position - Off(index, baseSize) && 0 < take && npos + take <= baseSize
      modifies this`position, this`cur, this`index
      ensures CursorAt(index)
      ensures position == old(position) + take && position <= |mem|
      ensures part == mem[old(position)..position]
      ensures npos + take == baseSize ==> Off(index, baseSize) == position
    {
      ChunkSlice(index, npos, take);
      part := cur.ptr[npos..npos + take];
      Advance(npos, take);
    }

    /** A run of cells inside chunk `k` is a run of the flat memory. */
    lemma ChunkSlice(k: nat, npos: nat, take: nat)
      requires Linked() && Tiled() && k < |nodes| && npos + take <= baseSize
      ensures Off(k, baseSize) + npos + take <= |mem|
      ensures nodes[k].ptr[npos..npos + take] == mem[Off(k, baseSize) + npos..Off(k, baseSize) + npos + take]
    {
      OffApart(k, |nodes|, baseSize);
      var part := nodes[k].ptr[npos..npos + take];
      forall j | 0 <= j < take ensures part[j] == mem[Off(k, baseSize) + npos + j] {
        assert part[j] == nodes[k].ptr[npos + j];
      }
    }

    /** Appending cells of chunk `k` extends a slice of the flat memory. */
    lemma ChunkAppends(k: nat, npos: nat, take: nat, from: nat, at: nat)
      requires Linked() && Tiled() && k < |nodes| && npos + take <= baseSize
      requires at == Off(k, baseSize) + npos && from <= at
      ensures at + take <= |mem| && mem[from..at] + nodes[k].ptr[npos..npos + take] == mem[from..at + take]
    {
      ChunkSlice(k, npos, take);
      SliceJoin(mem, from, at, at + take);
    }

    /** `toString`: the unread bytes, without moving the cursor. */
    method ToString() returns (s: seq<Byte>)
      requires Valid()
      ensures s == mem[position..size]
    {
      var left: nat := size - position;
      s := [];
      if left == 0 {
        return;
      }
      CursorIsQuotient();
      ghost var k: nat := index;
      ghost var at := position;
      var c: Node := cur;
      var npos: nat := position % baseSize;
      var ncap: nat := c.ptr.Length - npos;
      while left > ncap
        invariant at + left == size && s == mem[position..at]
        invariant k < |nodes| && c == nodes[k] && npos < baseSize
        invariant Off(k, baseSize) + npos == at && ncap == baseSize - npos
        decreases left
      {
        ChunkAppends(k, npos, ncap, position, at);
        s := s + c.ptr[npos..npos + ncap];
        left, at := left - ncap, at + ncap;
        NextChunk(k, at);
        c, k := c.next, k + 1;
        ncap, npos := c.ptr.Length, 0;
      }
      ChunkAppends(k, npos, left, position, at);
      s := s + c.ptr[npos..npos + left];
    }

    /** A position at the end of chunk `k` but below capacity is in chunk `k + 1`. */
    lemma NextChunk(k: nat, p: nat)
      requires Linked() && k < |nodes| && p == Off(k, baseSize) + baseSize && p < capacity
      ensures k + 1 < |nodes| && nodes[k].next == nodes[k + 1] && Off(k + 1, baseSize) == p
    {
      assert Off(k + 1, baseSize) == p;
    }

    // -------------------------------------------------------------- seek and clear

    /** `setPosition`: false when the source throws. */
    method SetPosition(v: nat) returns (ok: bool)
      requires Valid()
      modifies this`position, this`size, this`cur, this`index
      ensures Valid()
      ensures ok <==> v <= |mem|
      ensures View() == if v <= |mem| then FlatSeek(old(View()), v) else old(View())
    {
      if v > capacity {
        return false;
      }
      position := v;
      if position > size {
        size := position;
      }
      PlaceCursor();
      ok := true;
    }

    /** Point the cursor at the chunk of `position`. */
    method PlaceCursor()
      requires Linked() && position <= capacity
      modifies this`cur, this`index
      ensures CursorAt(index)
    {
      ghost var k;
      cur, k := Locate(position);
      index := k;
    }

    /** Walk from the root to the chunk of byte `v`. */
    method Locate(v: nat) returns (c: Node?, ghost k: nat)
      requires Linked() && v <= capacity
      ensures k <= |nodes| && Off(k, baseSize) <= v
      ensures k < |nodes| ==> v < Off(k, baseSize) + baseSize && c == nodes[k]
      ensures k == |nodes| ==> v == capacity && c == null
    {
      var left: nat := v;
      c, k := root, 0;
      while left > c.ptr.Length
        invariant k < |nodes| && c == nodes[k]
        invariant Off(k, baseSize) + left == v
        decreases left
      {
        NextChunk(k, Off(k, baseSize) + baseSize);
        left := left - c.ptr.Length;
        c := c.next;
        k := k + 1;
      }
      if left == c.ptr.Length {
        assert nodes[k].next == if k + 1 < |nodes| then nodes[k + 1] else null;
        c, k := c.next, k + 1;
      }
    }

    /** `clear`: only the first chunk is kept. */
    method Clear()
      requires Valid()
      modifies Repr
      ensures Valid() && Repr == old(Repr)
      ensures View() == Flat(old(mem)[..baseSize], 0, 0)
    {
      OffApart(0, |nodes|, baseSize);
      position, size, capacity := 0, 0, baseSize;
      cur := root;
      root.next := null;
      nodes, mem, index := [root], mem[..baseSize], 0;
    }

    // -------------------------------------------------------------- scatter/gather

    /** The piece loop shared by `getReadBuffers` and `getWriteBuffers`. `at[i]` is the flat
        position of piece `i` and `ks[i]` its chunk. */
    method Pieces(n: nat) returns (iovs: seq<Iov>, ghost at: seq<nat>, ghost ks: seq<nat>)
      requires Linked() && CursorAt(index) && 0 < n && position + n <= capacity
      ensures Covers(nodes, baseSize, iovs, at, ks, position, position + n)
    {
      var left: nat := n;
      CursorIsQuotient();
      ghost var k: nat := index;
      ghost var p := position;
      var c: Node := cur;
      var npos: nat := position % baseSize;
      var ncap: nat := c.ptr.Length - npos;
      iovs, at, ks := [], [position], [];
      while left > ncap
        invariant 0 < left && p + left == position + n && Covers(nodes, baseSize, iovs, at, ks, position, p)
        invariant k < |nodes| && c == nodes[k] && npos < baseSize
        invariant Off(k, baseSize) + npos == p && ncap == baseSize - npos
        decreases left
      {
        CoversMore(nodes, baseSize, iovs, at, ks, position, p, k, npos, ncap);
        iovs, at, ks := iovs + [Iov(c.ptr, npos, ncap)], at + [p + ncap], ks + [k];
        left, p := left - ncap, p + ncap;
        NextChunk(k, p);
        c, k := c.next, k + 1;
        ncap, npos := c.ptr.Length, 0;
      }
      CoversMore(nodes, baseSize, iovs, at, ks, position, p, k, npos, left);
      iovs, at, ks := iovs + [Iov(c.ptr, npos, left)], at + [p + left], ks + [k];
    }

    /** The pieces address exactly the unread bytes, at most `len` of them. */
    method GetReadBuffers(len: nat) returns (iovs: seq<Iov>, n: nat, ghost at: seq<nat>, ghost ks: seq<nat>)
      requires Valid()
      ensures n == if len > size - position then size - position else len
      ensures Covers(nodes, baseSize, iovs, at, ks, position, position + n)
      ensures Gather(iovs) == mem[position..position + n]
    {
      n := if len > size - position then size - position else len;
      if n == 0 {
        assert mem[position..position] == [];
        return [], 0, [position], [];
      }
      iovs, at, ks := Pieces(n);
      GatherIsFlat(iovs, at, ks, position, position + n, |iovs|);
      assert iovs[..|iovs|] == iovs;
    }

    /** The pieces address exactly the next `len` cells, after growing to hold them. */
    method GetWriteBuffers(len: nat) returns (iovs: seq<Iov>, n: nat, ghost at: seq<nat>, ghost ks: seq<nat>)
      requires Valid()
      modifies Repr
      ensures Valid() && fresh(Repr - old(Repr))
      ensures n == len && position == old(position) && size == old(size)
      ensures old(mem) <= mem && |mem| == GrownCapacity(baseSize, |old(mem)|, position, len)
      ensures Covers(nodes, baseSize, iovs, at, ks, position, position + n)
    {
      if len == 0 {
        return [], 0, [position], [];
      }
      GrownHolds(baseSize, |mem|, position, len);
      AddCapacity(len);
      n := len;
      iovs, at, ks := Pieces(n);
    }

    lemma PieceIsFlat(io: Iov, k: nat, p: nat, q: nat)
      requires Linked() && Tiled() && k < |nodes| && io.base == nodes[k].ptr && io.off + io.len <= baseSize
      requires p == Off(k, baseSize) + io.off && q == p + io.len
      ensures q <= |mem| && Cells(io) == mem[p..q]
    {
      ChunkSlice(k, io.off, io.len);
    }

    /** Reading the first `m` pieces in order yields a prefix of the flat range. */
    lemma {:induction false} GatherIsFlat(iovs: seq<Iov>, at: seq<nat>, ks: seq<nat>, from: nat, to: nat, m: nat)
      requires Linked() && Tiled() && Covers(nodes, baseSize, iovs, at, ks, from, to) && from <= |mem|
      requires m <= |iovs|
      ensures from <= at[m] <= |mem| && Gather(iovs[..m]) == mem[from..at[m]]
      decreases m
    {
      if m > 0 {
        GatherIsFlat(iovs, at, ks, from, to, m - 1);
        PieceIsFlat(iovs[m - 1], ks[m - 1], at[m - 1], at[m]);
        SliceJoin(mem, from, at[m - 1], at[m]);
        assert iovs[..m][..m - 1] == iovs[..m - 1] && iovs[..m][m - 1] == iovs[m - 1];
      }
    }
  }

  /** `iovs` addresses exactly the cells `from .. to` of the flat memory laid over the chunks `ns`,
      in order; piece `i` is non-empty and lies inside chunk `ks[i]`. */
  ghost predicate Covers(ns: seq<Node>, b: nat, iovs: seq<Iov>, at: seq<nat>, ks: seq<nat>, from: nat, to: nat)
  {
    && |at| == |iovs| + 1 && |ks| == |iovs| && at[0] == from && at[|iovs|] == to
    && forall i {:trigger iovs[i]} :: 0 <= i < |iovs| ==>
         && 0 < iovs[i].len && iovs[i].off + iovs[i].len <= b
         && ks[i] < |ns| && iovs[i].base == ns[ks[i]].ptr
         && at[i] == Off(ks[i], b) + iovs[i].off && at[i + 1] == at[i] + iovs[i].len
  }

  lemma CoversMore(ns: seq<Node>, b: nat, iovs: seq<Iov>, at: seq<nat>, ks: seq<nat>, from: nat, to: nat,
                   k: nat, npos: nat, len: nat)
    requires Covers(ns, b, iovs, at, ks, from, to)
    requires k < |ns| && Off(k, b) + npos == to && 0 < len && npos + len <= b
    ensures Covers(ns, b, iovs + [Iov(ns[k].ptr, npos, len)], at + [to + len], ks + [k], from, to + len)
  {
    var iovs', at', ks' := iovs + [Iov(ns[k].ptr, npos, len)], at + [to + len], ks + [k];
    forall i | 0 <= i < |iovs'|
      ensures
        && 0 < iovs'[i].len && iovs'[i].off + iovs'[i].len <= b
        && ks'[i] < |ns| && iovs'[i].base == ns[ks'[i]].ptr
        && at'[i] == Off(ks'[i], b) + iovs'[i].off && at'[i + 1] == at'[i] + iovs'[i].len
    {
      if i < |iovs| {
        assert iovs'[i] == iovs[i];
      }
    }
  }

  ghost function Cells(io: Iov): seq<Byte>
    reads io.base
  {
    if io.off + io.len <= io.base.Length then io.base[io.off..io.off + io.len] else []
  }

  ghost function Gather(iovs: seq<Iov>): seq<Byte>
    reads set io | io in iovs :: io.base
  {
    if iovs == [] then []
    else
      Gather(iovs[..|iovs| - 1]) + Cells(iovs[|iovs| - 1])
  }

  // ---------------------------------------------------------------- index arithmetic

  ghost function At(m: seq<Byte>, i: int): int
  {
    if 0 <= i < |m| then m[i] else -1
  }

  /** What cell `j` of chunk `i` must hold after a splice into chunk `k`. */
  lemma CellAfterSplice(b: nat, m: seq<Byte>, k: nat, npos: nat, s: seq<Byte>, i: nat, j: nat)
    requires npos + |s| <= b && j < b && Off(k, b) + b <= |m| && Off(i, b) + b <= |m|
    ensures At(Splice(m, Off(k, b) + npos, s), Off(i, b) + j) ==
              if i == k && npos <= j < npos + |s| then s[j - npos] else At(m, Off(i, b) + j)
  {
    if i < k { OffApart(i, k, b); }
    if k < i { OffApart(k, i, b); }
    SpliceAt(m, Off(k, b) + npos, s, Off(i, b) + j);
  }

  lemma SpliceAt(m: seq<Byte>, at: nat, s: seq<Byte>, i: nat)
    requires at + |s| <= |m| && i < |m|
    ensures Splice(m, at, s)[i] == if at <= i < at + |s| then s[i - at] else m[i]
  {}
}
