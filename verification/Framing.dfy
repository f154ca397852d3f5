/**
 Length-prefixed frames over a byte stream that arrives in arbitrary pieces.
 */
module Framing {
  import opened Arithmetic

  newtype byte = b: int | 0 <= b < 256

  const HEADER_SIZE := 4
  const MAX_LENGTH := 0xFFFF_FFFF

  datatype Failure = BadLimit | InvalidFrameLength | PeerDisconnected

  datatype Received = Payload(bytes: seq<byte>) | Failed(why: Failure)

  /** A received frame and the bytes left in the stream. */
  datatype Read = Read(frame: Received, rest: seq<byte>)

  // ----- the header -----

  function Header(n: nat): (header: seq<byte>)
    requires n <= MAX_LENGTH
    ensures |header| == HEADER_SIZE
  {
    [(n / 0x100_0000) as byte, (n / 0x1_0000 % 0x100) as byte, (n / 0x100 % 0x100) as byte, (n % 0x100) as byte]
  }

  function Length(header: seq<byte>): (n: nat)
    requires |header| == HEADER_SIZE
    ensures n <= MAX_LENGTH
  {
    ((header[0] as int * 0x100 + header[1] as int) * 0x100 + header[2] as int) * 0x100 + header[3] as int
  }

  lemma LengthOfHeader(n: nat)
    requires n <= MAX_LENGTH
    ensures Length(Header(n)) == n
  {
    assert n / 0x1_0000 / 0x100 == n / 0x100_0000;
    assert n / 0x100 / 0x100 == n / 0x1_0000;
  }

  lemma Digits(b0: nat, b1: nat, b2: nat, b3: nat)
    requires b0 < 0x100 && b1 < 0x100 && b2 < 0x100 && b3 < 0x100
    ensures var n := ((b0 * 0x100 + b1) * 0x100 + b2) * 0x100 + b3;
            n / 0x100_0000 == b0 && n / 0x1_0000 % 0x100 == b1 && n / 0x100 % 0x100 == b2 && n % 0x100 == b3
  {
    var n := ((b0 * 0x100 + b1) * 0x100 + b2) * 0x100 + b3;
    DivModUnique(n, 0x100, (b0 * 0x100 + b1) * 0x100 + b2, b3);
    DivModUnique(n, 0x1_0000, b0 * 0x100 + b1, b2 * 0x100 + b3);
    DivModUnique(n, 0x100_0000, b0, (b1 * 0x100 + b2) * 0x100 + b3);
    DivModUnique((b0 * 0x100 + b1) * 0x100 + b2, 0x100, b0 * 0x100 + b1, b2);
    DivModUnique(b0 * 0x100 + b1, 0x100, b0, b1);
  }

  /** No two headers stand for the same length. */
  lemma HeaderOfLength(header: seq<byte>)
    requires |header| == HEADER_SIZE
    ensures Header(Length(header)) == header
  {
    Digits(header[0] as int, header[1] as int, header[2] as int, header[3] as int);
  }

  /** Longer payloads have later headers, byte by byte from the first: the high byte comes first. */
  lemma HeadersAreOrdered(m: nat, n: nat)
    requires m < n <= MAX_LENGTH
    ensures exists i :: 0 <= i < HEADER_SIZE && Header(m)[..i] == Header(n)[..i] && Header(m)[i] < Header(n)[i]
  {
    var a, b := Header(m), Header(n);
    LengthOfHeader(m);
    LengthOfHeader(n);
    hide Header;
    if a[0] != b[0] {
      assert a[..0] == b[..0] && a[0] < b[0];
    } else if a[1] != b[1] {
      assert a[..1] == b[..1] && a[1] < b[1];
    } else if a[2] != b[2] {
      assert a[..2] == b[..2] && a[2] < b[2];
    } else {
      assert a[..3] == b[..3] && a[3] < b[3];
    }
  }

  // ----- one frame -----

  predicate ValidLimit(limit: int) { 0 < limit <= MAX_LENGTH }

  function PackFrame(payload: seq<byte>, limit: int): Received {
    if !ValidLimit(limit) then Failed(BadLimit)
    else if payload == [] || |payload| > limit then Failed(InvalidFrameLength)
    else Payload(Header(|payload|) + payload)
  }

  function ReadExact(stream: seq<byte>, size: nat): Read {
    if |stream| < size then Read(Failed(PeerDisconnected), [])
    else Read(Payload(stream[..size]), stream[size..])
  }

  function ReadFrame(stream: seq<byte>, limit: int): Read {
    if !ValidLimit(limit) then Read(Failed(BadLimit), stream)
    else
      var header := ReadExact(stream, HEADER_SIZE);
      if header.frame.Failed? then header
      else
        var length := Length(header.frame.bytes);
        if length == 0 || length > limit then Read(Failed(InvalidFrameLength), header.rest)
        else ReadExact(header.rest, length)
  }

  lemma FrameRoundTrip(payload: seq<byte>, limit: int, after: seq<byte>)
    requires PackFrame(payload, limit).Payload?
    ensures ReadFrame(PackFrame(payload, limit).bytes + after, limit) == Read(Payload(payload), after)
  {
    var header := Header(|payload|);
    var stream := header + payload + after;
    LengthOfHeader(|payload|);
    hide Header, Length;
    assert stream[..HEADER_SIZE] == header;
    assert stream[HEADER_SIZE..] == payload + after;
    assert (payload + after)[..|payload|] == payload && (payload + after)[|payload|..] == after;
  }

  /** Only a packed frame is ever read: what arrives as a payload stood in the stream as that frame. */
  lemma ReadIsPacked(stream: seq<byte>, limit: int)
    requires ReadFrame(stream, limit).frame.Payload?
    ensures var read := ReadFrame(stream, limit);
            PackFrame(read.frame.bytes, limit).Payload? && stream == PackFrame(read.frame.bytes, limit).bytes + read.rest
  {
    var header := ReadExact(stream, HEADER_SIZE);
    HeaderOfLength(header.frame.bytes);
    hide Header, Length;
    assert stream == header.frame.bytes + header.rest;
  }

  // ----- many frames -----

  predicate Sendable(payloads: seq<seq<byte>>, limit: int) {
    forall i | 0 <= i < |payloads| :: PackFrame(payloads[i], limit).Payload?
  }

  function Stream(payloads: seq<seq<byte>>, limit: int): seq<byte>
    requires Sendable(payloads, limit)
  {
    if payloads == [] then [] else PackFrame(payloads[0], limit).bytes + Stream(payloads[1..], limit)
  }

  /** The payloads of the first n receives, up to the first failure. */
  function ReadFrames(stream: seq<byte>, limit: int, n: nat): seq<seq<byte>> {
    if n == 0 then []
    else
      var read := ReadFrame(stream, limit);
      if read.frame.Failed? then [] else [read.frame.bytes] + ReadFrames(read.rest, limit, n - 1)
  }

  lemma {:induction false} FramesRoundTrip(payloads: seq<seq<byte>>, limit: int)
    requires Sendable(payloads, limit)
    ensures ReadFrames(Stream(payloads, limit), limit, |payloads|) == payloads
  {
    if payloads != [] {
      FrameRoundTrip(payloads[0], limit, Stream(payloads[1..], limit));
      hide ReadFrame, PackFrame;
      FramesRoundTrip(payloads[1..], limit);
    }
  }

  lemma ReadNext(payload: seq<byte>, limit: int, after: seq<byte>, n: nat)
    requires n > 0 && PackFrame(payload, limit).Payload?
    ensures ReadFrames(PackFrame(payload, limit).bytes + after, limit, n) == [payload] + ReadFrames(after, limit, n - 1)
  {
    FrameRoundTrip(payload, limit, after);
    hide ReadFrame, PackFrame;
  }

  lemma ReadNothing(stream: seq<byte>, limit: int, n: nat)
    requires ReadFrame(stream, limit).frame.Failed?
    ensures ReadFrames(stream, limit, n) == []
  {
    hide ReadFrame;
  }

  lemma CutConcat(first: seq<byte>, later: seq<byte>, cut: nat)
    requires cut <= |first + later|
    ensures (first + later)[..cut] == if cut < |first| then first[..cut] else first + later[..cut - |first|]
  {
  }

  lemma StreamUnfolds(payloads: seq<seq<byte>>, limit: int)
    requires Sendable(payloads, limit) && payloads != []
    ensures PackFrame(payloads[0], limit).Payload? && Sendable(payloads[1..], limit)
    ensures Stream(payloads, limit) == PackFrame(payloads[0], limit).bytes + Stream(payloads[1..], limit)
  {
    hide PackFrame;
  }

  /** A cut stream either ends inside the first frame, or holds it and a cut of the rest. */
  lemma CutStream(payloads: seq<seq<byte>>, limit: int, cut: nat, n: nat)
    requires Sendable(payloads, limit) && payloads != [] && n > 0 && cut <= |Stream(payloads, limit)|
    ensures PackFrame(payloads[0], limit).Payload? && Sendable(payloads[1..], limit)
    ensures var size := |PackFrame(payloads[0], limit).bytes|;
            var got := ReadFrames(Stream(payloads, limit)[..cut], limit, n);
            if cut < size then got == []
            else cut - size <= |Stream(payloads[1..], limit)|
                 && got == [payloads[0]] + ReadFrames(Stream(payloads[1..], limit)[..cut - size], limit, n - 1)
  {
    StreamUnfolds(payloads, limit);
    hide *;
    var first := PackFrame(payloads[0], limit).bytes;
    var later := Stream(payloads[1..], limit);
    CutConcat(first, later, cut);
    if cut < |first| {
      CutFrameFails(payloads[0], limit, cut);
      ReadNothing(first[..cut], limit, n);
    } else {
      ReadNext(payloads[0], limit, later[..cut - |first|], n);
    }
  }

  lemma EmptyStream(limit: int, n: nat)
    ensures ReadFrames([], limit, n) == []
  {
  }

  /** How many of the frames lie wholly inside the first `cut` bytes of their stream. */
  function FramesWithin(payloads: seq<seq<byte>>, limit: int, cut: nat): (m: nat)
    requires Sendable(payloads, limit)
    ensures m <= |payloads|
  {
    if payloads == [] then 0
    else
      var size := |PackFrame(payloads[0], limit).bytes|;
      if cut < size then 0 else 1 + FramesWithin(payloads[1..], limit, cut - size)
  }

  /** They end inside the cut, and the next one does not. */
  lemma {:induction false} FramesWithinExact(payloads: seq<seq<byte>>, limit: int, cut: nat)
    requires Sendable(payloads, limit)
    ensures var m := FramesWithin(payloads, limit, cut);
            && |Stream(payloads[..m], limit)| <= cut
            && (m < |payloads| ==> cut < |Stream(payloads[..m + 1], limit)|)
  {
    if payloads != [] {
      StreamUnfolds(payloads, limit);
      hide PackFrame;
      var size := |PackFrame(payloads[0], limit).bytes|;
      if cut >= size {
        FramesWithinExact(payloads[1..], limit, cut - size);
        var m := FramesWithin(payloads[1..], limit, cut - size);
        assert payloads[..m + 1][1..] == payloads[1..][..m];
        assert m + 1 < |payloads| ==> payloads[..m + 2][1..] == payloads[1..][..m + 1];
      } else {
        assert payloads[..1][1..] == [];
        assert Stream([], limit) == [];
      }
    }
  }

  /** A stream cut anywhere gives exactly the frames wholly before the cut, however many are asked for. */
  lemma {:induction false} CutStreamsGivePrefixes(payloads: seq<seq<byte>>, limit: int, cut: nat, n: nat)
    requires Sendable(payloads, limit) && cut <= |Stream(payloads, limit)|
    ensures ReadFrames(Stream(payloads, limit)[..cut], limit, n) == payloads[..Min(n, FramesWithin(payloads, limit, cut))]
  {
    hide ReadFrame, PackFrame, Sendable;
    if payloads == [] {
      assert Stream(payloads, limit)[..cut] == [];
      EmptyStream(limit, n);
    } else if n > 0 {
      CutStream(payloads, limit, cut, n);
      var size := |PackFrame(payloads[0], limit).bytes|;
      if cut >= size {
        hide Stream, ReadFrames;
        CutStreamsGivePrefixes(payloads[1..], limit, cut - size, n - 1);
        var m := Min(n - 1, FramesWithin(payloads[1..], limit, cut - size));
        assert [payloads[0]] + payloads[1..][..m] == payloads[..m + 1];
      }
    }
  }

  lemma CutFrameFails(payload: seq<byte>, limit: int, cut: nat)
    requires PackFrame(payload, limit).Payload? && cut < |PackFrame(payload, limit).bytes|
    ensures ReadFrame(PackFrame(payload, limit).bytes[..cut], limit).frame == Failed(PeerDisconnected)
  {
    var header := Header(|payload|);
    var stream := (header + payload)[..cut];
    LengthOfHeader(|payload|);
    hide Header, Length;
    if cut >= HEADER_SIZE {
      assert stream[..HEADER_SIZE] == header;
    }
  }

  // ----- the socket -----

  /** A connected socket: the bytes still to come, and how many each receive may deliver. */
  class Connection {
    var incoming: seq<byte>
    var pieces: seq<nat>

    constructor (incoming: seq<byte>, pieces: seq<nat>)
      ensures this.incoming == incoming && this.pieces == pieces
    {
      this.incoming, this.pieces := incoming, pieces;
    }

    /** Any non-empty piece of what was asked for, or nothing once the peer has closed. */
    method Recv(size: nat) returns (chunk: seq<byte>)
      requires size > 0
      modifies this
      ensures |chunk| <= size && chunk <= old(incoming) && incoming == old(incoming)[|chunk|..]
      ensures chunk == [] <==> old(incoming) == []
    {
      var most := if size < |incoming| then size else |incoming|;
      var piece := most;
      if pieces != [] {
        if 0 < pieces[0] < most {
          piece := pieces[0];
        }
        pieces := pieces[1..];
      }
      chunk := incoming[..piece];
      incoming := incoming[piece..];
    }

    /** However the bytes arrive, exactly `size` of them are taken. */
    method RecvExact(size: nat) returns (r: Received)
      modifies this
      ensures Read(r, incoming) == ReadExact(old(incoming), size)
    {
      var chunks := [];
      while |chunks| < size
        invariant |chunks| <= size && chunks + incoming == old(incoming)
        decreases size - |chunks|
      {
        var chunk := Recv(size - |chunks|);
        if chunk == [] {
          return Failed(PeerDisconnected);
        }
        chunks := chunks + chunk;
      }
      r := Payload(chunks);
    }

    method ReceiveFrame(limit: int) returns (r: Received)
      modifies this
      ensures Read(r, incoming) == ReadFrame(old(incoming), limit)
    {
      if !ValidLimit(limit) {
        return Failed(BadLimit);
      }
      r := RecvExact(HEADER_SIZE);
      if r.Failed? {
        return;
      }
      var length := Length(r.bytes);
      if length == 0 || length > limit {
        return Failed(InvalidFrameLength);
      }
      r := RecvExact(length);
    }

    /** Receive until `count` frames have come or one fails. */
    method ReceiveFrames(limit: int, count: nat) returns (payloads: seq<seq<byte>>)
      modifies this
      ensures payloads == ReadFrames(old(incoming), limit, count)
    {
      hide ReadFrame;
      payloads := [];
      var n := 0;
      while n < count
        invariant n <= count
        invariant payloads + ReadFrames(incoming, limit, count - n) == ReadFrames(old(incoming), limit, count)
      {
        ghost var before := incoming;
        var r := ReceiveFrame(limit);
        if r.Failed? {
          return;
        }
        payloads := payloads + [r.bytes];
        n := n + 1;
      }
    }
  }
}
