/**
  The Length-Prefixed-Message of the "gRPC over HTTP/2" protocol document, as written by
  `GrpcMessage::packData(false)` and `EncodeGrpcBody`, read by `DecodeGrpcBody`, and reassembled
  from data frames by `GrpcStream::recvMessageData`. Uncompressed messages only.
 */
module GrpcFraming {
  import opened FlatBuffer
  import opened Codec
  import opened Records
  import opened ByteArrays
  import opened BufferCodec

  /** A zero flag byte, the length as four big-endian bytes, the data. */
  function Frame(host: Endian, data: seq<Byte>): seq<Byte> {
    FrameHead(host, |data|) + data
  }

  function FrameHead(host: Endian, len: nat): (s: seq<Byte>)
    ensures |s| == 5
  {
    FixedBytes(host, Big, 0, 1) + FixedBytes(host, Big, len % LIMIT32, 4)
  }

  method WriteHead(ba: ByteArray, host: Endian, len: nat)
    requires ba.Valid()
    modifies ba.Repr
    ensures ba.Valid() && fresh(ba.Repr - old(ba.Repr)) && old(ba.nodes) <= ba.nodes
    ensures WriteStep(ba.baseSize, old(ba.View()), FrameHead(host, len), ba.View())
  {
    WriteFixed(ba, host, Big, 0, 1);
    ghost var g := ba.View();
    WriteFixed(ba, host, Big, len % LIMIT32, 4);
    WriteTwice(ba.baseSize, |old(ba.nodes)|, old(ba.View()), FixedBytes(host, Big, 0, 1), g,
               FixedBytes(host, Big, len % LIMIT32, 4), ba.View());
  }

  method WriteFrame(ba: ByteArray, host: Endian, data: seq<Byte>)
    requires ba.Valid()
    modifies ba.Repr
    ensures ba.Valid() && fresh(ba.Repr - old(ba.Repr)) && old(ba.nodes) <= ba.nodes
    ensures WriteStep(ba.baseSize, old(ba.View()), Frame(host, data), ba.View())
  {
    WriteHead(ba, host, |data|);
    ghost var g := ba.View();
    ba.Write(data);
    WriteTwice(ba.baseSize, |old(ba.nodes)|, old(ba.View()), FrameHead(host, |data|), g, data, ba.View());
  }

  /** `GrpcMessage::packData(false)`: through a chain of 4096-byte chunks. */
  method PackData(host: Endian, data: seq<Byte>) returns (ba: ByteArray)
    ensures ba.Valid() && fresh(ba.Repr)
    ensures ba.position == ba.size == |Frame(host, data)|
    ensures ba.mem[..ba.size] == Frame(host, data)
  {
    ba := new ByteArray(4096);
    WriteFrame(ba, host, data);
  }

  /** `EncodeGrpcBody(data, body, false)`: in place, through a view over the resized body. */
  method EncodeGrpcBody(host: Endian, data: seq<Byte>) returns (body: array<Byte>)
    ensures fresh(body) && body[..] == Frame(host, data)
  {
    body := new Byte[|data| + 5];
    var ba := new ByteArray.Over(body);
    WriteFrame(ba, host, data);
    InPlace(ba, body);
  }

  /** While no chunk was appended, the caller's storage is the whole memory. */
  lemma InPlace(ba: ByteArray, body: array<Byte>)
    requires ba.Valid() && |ba.mem| == ba.baseSize == body.Length && ba.nodes[0].ptr == body
    ensures body[..] == ba.mem
  {
    forall j | 0 <= j < body.Length ensures body[j] == ba.mem[j] {
      assert ba.nodes[0].ptr[j] == At(ba.mem, Off(0, ba.baseSize) + j);
    }
  }

  // ---------------------------------------------------------------- decoding

  datatype Decoded = Plain(length: nat, data: seq<Byte>) | Compressed(length: nat) | Bad

  /** What a body decodes to, on plain bytes. */
  function ParseBody(host: Endian, body: seq<Byte>): Decoded {
    if |body| < 5 then Bad
    else
      var length := FixedValue(host, Big, body[1..5]);
      if FixedValue(host, Big, body[..1]) != 0 then Compressed(length) else Plain(length, body[5..])
  }

  /** A view over the storage of a string. */
  method Over(body: seq<Byte>) returns (ba: ByteArray)
    requires body != []
    ensures ba.Valid() && fresh(ba) && ba.View() == Flat(body, |body|, 0)
  {
    var store := new Byte[|body|](i requires 0 <= i < |body| => body[i]);
    assert store[..] == body;
    ba := new ByteArray.Over(store);
  }

  /** `DecodeGrpcBody`; a compressed body stops before the inflater, which is not modelled. */
  method DecodeGrpcBody(host: Endian, body: seq<Byte>) returns (r: Decoded)
    ensures r == ParseBody(host, body)
  {
    if |body| == 0 {
      // a view over no storage throws on its first read
      return Bad;
    }
    var ba := Over(body);
    var flag := ReadFixed(ba, host, Big, 1);
    if flag.Fail? {
      return Bad;
    }
    assert body[0..1] == body[..1];
    var length := ReadFixed(ba, host, Big, 4);
    if length.Fail? {
      return Bad;
    }
    if flag.value != 0 {
      return Compressed(length.value);
    }
    var data := ba.ToString();
    assert body[5..|body|] == body[5..];
    r := Plain(length.value, data);
  }

  lemma FrameParts(host: Endian, data: seq<Byte>)
    requires |data| < LIMIT32
    ensures FixedValue(host, Big, FrameHead(host, |data|)[..1]) == 0
    ensures FixedValue(host, Big, FrameHead(host, |data|)[1..5]) == |data|
  {
    LimitIsPow2(1);
    LimitIsPow2(4);
    SmallMod(|data|, LIMIT32);
    FixedRoundTrip(host, Big, 0, 1);
    FixedRoundTrip(host, Big, |data|, 4);
    var s := FrameHead(host, |data|);
    assert s[..1] == FixedBytes(host, Big, 0, 1);
    assert s[1..5] == FixedBytes(host, Big, |data|, 4);
  }

  /** Decoding inverts both encoders. */
  lemma FrameDecodes(host: Endian, data: seq<Byte>)
    requires |data| < LIMIT32
    ensures ParseBody(host, Frame(host, data)) == Plain(|data|, data)
  {
    FrameParts(host, data);
    var s, h := Frame(host, data), FrameHead(host, |data|);
    assert s[..1] == h[..1] && s[1..5] == h[1..5] && s[5..] == data;
  }

  /** On the wire the frame is flag 0 and the big-endian length, on any machine. */
  lemma FrameIsPortable(host: Endian, data: seq<Byte>)
    requires |data| < LIMIT32
    ensures var b := Frame(host, data);
            |b| == 5 + |data| && b[0] == 0 && AreBytes(b[1..5], |data|, Big) && b[5..] == data
  {
    LimitIsPow2(1);
    SmallMod(|data|, LIMIT32);
    FlagByte(host);
    FixedIsBytes(host, Big, |data|, 4);
    var b, n := Frame(host, data), FixedBytes(host, Big, |data|, 4);
    assert b == [0] + n + data;
    assert b[1..5] == n && b[5..] == data;
  }

  lemma FlagByte(host: Endian)
    ensures FixedBytes(host, Big, 0, 1) == [0]
  {
    LimitIsPow2(1);
    FixedIsPortable(host, Big, 0, 1);
    var s := LittleBytes(0, 1);
    assert s[1..] == [] && s[0] == 0;
    assert Reverse(s) == Reverse([]) + [0];
  }

  // ---------------------------------------------------------------- reassembly

  datatype Received = Nothing | Data(bytes: seq<Byte>) | Gzip(bytes: seq<Byte>)

  /** Append whole frames until at least `length` bytes are there. */
  function Collect(rt: seq<Byte>, length: nat, frames: seq<seq<Byte>>): Received
    decreases |frames|
  {
    if |rt| >= length then Data(rt)
    else if frames == [] then Nothing
    else Collect(rt + frames[0], length, frames[1..])
  }

  function Reassemble(host: Endian, frames: seq<seq<Byte>>): Received {
    if frames == [] then Nothing
    else
      match ParseBody(host, frames[0])
      case Bad => Nothing
      case Plain(length, data) => Collect(data, length, frames[1..])
      case Compressed(length) =>
        match Collect(frames[0][5..], length, frames[1..])
        case Data(bytes) => Gzip(bytes)
        case other => other
  }

  /** `recvMessageData` over the frames the stream will deliver; an exhausted stream gives null. */
  method RecvMessageData(host: Endian, frames: seq<seq<Byte>>) returns (r: Received)
    ensures r == Reassemble(host, frames)
  {
    if |frames| == 0 {
      return Nothing;
    }
    if |frames[0]| == 0 {
      return Nothing;
    }
    var head := DecodeGrpcBody(host, frames[0]);
    if head.Bad? {
      return Nothing;
    }
    var length, rt := head.length, frames[0][5..];
    var i := 1;
    while |rt| < length
      invariant 1 <= i <= |frames|
      invariant Collect(frames[0][5..], length, frames[1..]) == Collect(rt, length, frames[i..])
      decreases |frames| - i
    {
      if i == |frames| {
        return Nothing;
      }
      assert frames[i..][1..] == frames[i + 1..];
      rt := rt + frames[i];
      i := i + 1;
    }
    r := if head.Compressed? then Gzip(rt) else Data(rt);
  }

  lemma ByteValue(host: Endian, c: Byte)
    ensures FixedValue(host, Big, [c]) == c
  {
    LimitIsPow2(1);
    FixedIsBytes(host, Big, c, 1);
    FixedRoundTrip(host, Big, c, 1);
    assert FixedBytes(host, Big, c, 1) == [c] by {
      assert FixedBytes(host, Big, c, 1)[0] == Digit256(c, 0);
    }
  }

  lemma {:induction false} CollectsEnough(rt: seq<Byte>, length: nat, frames: seq<seq<Byte>>)
    ensures Collect(rt, length, frames).Nothing? || (Collect(rt, length, frames).Data? && |Collect(rt, length, frames).bytes| >= length)
    decreases |frames|
  {
    if |rt| < length && frames != [] {
      CollectsEnough(rt + frames[0], length, frames[1..]);
    }
  }

  /** What is received is marked as compressed exactly when the flag byte is not 0. */
  lemma FlagDecides(host: Endian, frames: seq<seq<Byte>>)
    ensures !Reassemble(host, frames).Nothing? ==>
              && frames != [] && |frames[0]| >= 5
              && (Reassemble(host, frames).Gzip? <==> frames[0][0] != 0)
  {
    if frames != [] && |frames[0]| >= 5 {
      var x := frames[0];
      ByteValue(host, x[0]);
      assert x[..1] == [x[0]];
      CollectsEnough(x[5..], FixedValue(host, Big, x[1..5]), frames[1..]);
    }
  }

  function Flatten(frames: seq<seq<Byte>>): seq<Byte> {
    if frames == [] then [] else frames[0] + Flatten(frames[1..])
  }

  /** Some number of leading frames makes up exactly `s`. */
  ghost predicate BoundaryAt(frames: seq<seq<Byte>>, s: seq<Byte>)
  {
    exists j :: 0 <= j <= |frames| && Flatten(frames[..j]) == s
  }

  lemma BoundaryStep(frames: seq<seq<Byte>>, s: seq<Byte>)
    requires frames != [] && frames[0] <= s && s != []
    ensures BoundaryAt(frames, s) <==> BoundaryAt(frames[1..], s[|frames[0]|..])
  {
    var x, rest := frames[0], frames[1..];
    if BoundaryAt(frames, s) {
      var j :| 0 <= j <= |frames| && Flatten(frames[..j]) == s;
      assert frames[..j][1..] == rest[..j - 1];
      assert Flatten(rest[..j - 1]) == s[|x|..];
    }
    if BoundaryAt(rest, s[|x|..]) {
      var j :| 0 <= j <= |rest| && Flatten(rest[..j]) == s[|x|..];
      assert frames[..j + 1][1..] == rest[..j];
      assert Flatten(frames[..j + 1]) == x + s[|x|..] == s;
    }
  }

  /** No boundary strictly inside the first frame. */
  lemma NoBoundaryInside(frames: seq<seq<Byte>>, s: seq<Byte>)
    requires frames != [] && 0 < |s| < |frames[0]|
    ensures !BoundaryAt(frames, s)
  {
    forall j | 0 <= j <= |frames| ensures Flatten(frames[..j]) != s {
      if j > 0 {
        assert frames[..j][0] == frames[0];
      }
    }
  }

  /** Collecting what is still missing (`s`) succeeds exactly when frames end where it ends. */
  lemma {:induction false} CollectIff(rt: seq<Byte>, s: seq<Byte>, frames: seq<seq<Byte>>)
    requires s <= Flatten(frames)
    ensures Collect(rt, |rt| + |s|, frames) == Data(rt + s) <==> BoundaryAt(frames, s)
    decreases |frames|
  {
    if s == [] {
      assert Flatten(frames[..0]) == s && rt + s == rt;
    } else {
      var x := frames[0];
      var length := |rt| + |s|;
      if |x| > |s| {
        NoBoundaryInside(frames, s);
        assert Collect(rt, length, frames) == Collect(rt + x, length, frames[1..]) == Data(rt + x);
      } else {
        var s' := s[|x|..];
        assert x == Flatten(frames)[..|x|] == s[..|x|];
        assert s' <= Flatten(frames[1..]);
        BoundaryStep(frames, s);
        CollectIff(rt + x, s', frames[1..]);
        assert rt + x + s' == rt + s;
      }
    }
  }

  /**
    Reassembly: when the stream starts with the frame of `data`, however it was cut, the received
    message is `data` exactly when the first data frame holds the five-byte header and the message
    ends on a data-frame boundary.
   */
  lemma ReassemblyIff(host: Endian, data: seq<Byte>, frames: seq<seq<Byte>>)
    requires |data| < LIMIT32 && Frame(host, data) <= Flatten(frames)
    ensures Reassemble(host, frames) == Data(data)
            <==> |frames[0]| >= 5 && BoundaryAt(frames, Frame(host, data))
  {
    var x, s := frames[0], Frame(host, data);
    if |x| >= 5 {
      FrameParts(host, data);
      HeadOfFirst(host, data, frames);
      var length := |data|;
      assert Reassemble(host, frames) == Collect(x[5..], length, frames[1..]);
      if |x| > |s| {
        NoBoundaryInside(frames, s);
        assert |x[5..]| > length;
      } else {
        RestOfFirst(host, data, frames);
        BoundaryStep(frames, s);
        CollectIff(x[5..], s[|x|..], frames[1..]);
      }
    }
  }

  lemma HeadOfFirst(host: Endian, data: seq<Byte>, frames: seq<seq<Byte>>)
    requires frames != [] && Frame(host, data) <= Flatten(frames) && |frames[0]| >= 5
    ensures frames[0][..1] == FrameHead(host, |data|)[..1] && frames[0][1..5] == FrameHead(host, |data|)[1..5]
  {
    assert frames[0][..5] == Flatten(frames)[..5] == Frame(host, data)[..5] == FrameHead(host, |data|);
    assert frames[0][..1] == frames[0][..5][..1] && frames[0][1..5] == frames[0][..5][1..5];
  }

  lemma RestOfFirst(host: Endian, data: seq<Byte>, frames: seq<seq<Byte>>)
    requires frames != [] && Frame(host, data) <= Flatten(frames) && 5 <= |frames[0]| <= |Frame(host, data)|
    ensures frames[0] <= Frame(host, data)
    ensures Frame(host, data)[|frames[0]|..] <= Flatten(frames[1..])
    ensures frames[0][5..] + Frame(host, data)[|frames[0]|..] == data
  {
    var x, s := frames[0], Frame(host, data);
    assert x == Flatten(frames)[..|x|] == s[..|x|];
    assert Flatten(frames)[|x|..] == Flatten(frames[1..]);
    assert data == s[5..];
  }
}
