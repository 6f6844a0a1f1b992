/** The shell session's frame codec: type (1 byte), length (4 bytes, big-endian), payload. */
module Frames {
  import opened Common
  import opened Streams

  const PAYLOAD_LIMIT: nat := 64 * 1024
  const HEADER_SIZE: nat := 5
  const DATA: Byte := 0
  const RESIZE: Byte := 1
  const EXIT: Byte := 2

  datatype Frame = Frame(kind: Byte, payload: seq<Byte>)

  predicate Fits(f: Frame) {
    |f.payload| <= PAYLOAD_LIMIT
  }

  predicate AllFit(frames: seq<Frame>) {
    forall i :: 0 <= i < |frames| ==> Fits(frames[i])
  }

  function BigEndian32(n: nat): seq<Byte>
    requires n < 0x1_0000_0000
  {
    [n / 0x100_0000, n / 0x1_0000 % 0x100, n / 0x100 % 0x100, n % 0x100]
  }

  function FromBigEndian32(b: seq<Byte>): nat
    requires |b| == 4
  {
    (b[0] as int) * 0x100_0000 + (b[1] as int) * 0x1_0000 + (b[2] as int) * 0x100 + b[3]
  }

  lemma BigEndianRoundTrip(n: nat)
    requires n < 0x1_0000_0000
    ensures FromBigEndian32(BigEndian32(n)) == n
  {
    assert n / 0x1_0000 == n / 0x100_0000 * 0x100 + n / 0x1_0000 % 0x100;
    assert n / 0x100 == n / 0x1_0000 * 0x100 + n / 0x100 % 0x100;
  }

  lemma BigEndianOnto(b: seq<Byte>)
    requires |b| == 4
    ensures FromBigEndian32(b) < 0x1_0000_0000 && BigEndian32(FromBigEndian32(b)) == b
  {
    var n := FromBigEndian32(b);
    assert n / 0x100 == (b[0] as int) * 0x1_0000 + (b[1] as int) * 0x100 + b[2];
    assert n / 0x1_0000 == (b[0] as int) * 0x100 + b[1];
  }

  function Header(f: Frame): (h: seq<Byte>)
    requires Fits(f)
    ensures |h| == HEADER_SIZE
  {
    [f.kind] + BigEndian32(|f.payload|)
  }

  function Encode(f: Frame): seq<Byte>
    requires Fits(f)
  {
    Header(f) + f.payload
  }

  function EncodeAll(frames: seq<Frame>): seq<Byte>
    requires AllFit(frames)
  {
    if frames == [] then [] else Encode(frames[0]) + EncodeAll(frames[1..])
  }

  datatype Decoded =
    | Good(frame: Frame, rest: seq<Byte>)
    | Bad(failure: Failure, rest: seq<Byte>)

  /** What reading one frame off a stream must give, and what it leaves unread. */
  function Decode(stream: seq<Byte>, ending: Ending): Decoded {
    if |stream| < HEADER_SIZE then Bad(Short(|stream|, ending), [])
    else
      var length := FromBigEndian32(stream[1..HEADER_SIZE]);
      if length > PAYLOAD_LIMIT then Bad(FrameTooLarge, stream[HEADER_SIZE..])
      else if |stream| < HEADER_SIZE + length then Bad(Short(|stream| - HEADER_SIZE, ending), [])
      else Good(Frame(stream[0], stream[HEADER_SIZE..HEADER_SIZE + length]), stream[HEADER_SIZE + length..])
  }

  datatype Frames = Frames(frames: seq<Frame>, failure: Failure)

  /** Every frame a stream holds before the first thing that is not one, and why it stops there. */
  function DecodeAll(stream: seq<Byte>, ending: Ending): (all: Frames)
    ensures AllFit(all.frames)
    decreases |stream|
  {
    match Decode(stream, ending)
    case Bad(failure, _) => Frames([], failure)
    case Good(frame, rest) =>
      var more := DecodeAll(rest, ending);
      Frames([frame] + more.frames, more.failure)
  }

  /** Reads one frame. Neither the frame nor what is left unread depends on how reads were chunked,
      and the payload is not read, nor its buffer made, before its length is known to be allowed. */
  method ReadFrame(reader: BufferedReader) returns (result: Result<Frame, Failure>)
    requires reader.Valid()
    modifies reader, reader.buffer, reader.source`pending
    ensures reader.Valid()
    ensures match Decode(old(reader.Pending()), reader.source.ending)
            case Good(frame, rest) => result == Ok(frame) && reader.Pending() == rest
            case Bad(failure, rest) => result == Err(failure) && reader.Pending() == rest
  {
    ghost var stream := reader.Pending();
    var header := new Byte[HEADER_SIZE];
    var failure := reader.ReadFull(header);
    if failure.Some? {
      return Err(failure.value);
    }
    var length := FromBigEndian32(header[1..]);
    assert header[1..] == stream[1..HEADER_SIZE];
    if length > PAYLOAD_LIMIT {
      return Err(FrameTooLarge);
    }
    var payload := new Byte[length];
    var kind := header[0];
    assert kind == stream[0];
    failure := reader.ReadFull(payload);
    if failure.Some? {
      return Err(failure.value);
    }
    assert stream[HEADER_SIZE..][..length] == stream[HEADER_SIZE..HEADER_SIZE + length];
    return Ok(Frame(kind, payload[..]));
  }

  /** Writes one frame, header first. A refused frame leaves no byte behind; a failed write leaves
      a proper prefix of the encoding. */
  method WriteFrame(writer: Sink, kind: Byte, payload: seq<Byte>) returns (failure: Option<Failure>)
    modifies writer
    ensures var f := Frame(kind, payload);
      if !Fits(f) then failure == Some(FrameTooLarge) && writer.written == old(writer.written)
      else if failure.None? then writer.written == old(writer.written) + Encode(f)
      else failure == Some(Broken) && old(writer.written) <= writer.written < old(writer.written) + Encode(f)
  {
    var f := Frame(kind, payload);
    if |payload| > PAYLOAD_LIMIT {
      return Some(FrameTooLarge);
    }
    ghost var before := writer.written;
    assert before + Encode(f) == before + Header(f) + payload;
    var ok := writer.Write(Header(f));
    if ok {
      ok := writer.Write(payload);
    }
    return if ok then None else Some(Broken);
  }

  /** Reading back what was written gives the frame and stops exactly behind it. */
  lemma DecodeEncode(f: Frame, rest: seq<Byte>, ending: Ending)
    requires Fits(f)
    ensures Decode(Encode(f) + rest, ending) == Good(f, rest)
  {
    var stream := Encode(f) + rest;
    assert stream[1..HEADER_SIZE] == BigEndian32(|f.payload|);
    BigEndianRoundTrip(|f.payload|);
    assert stream[HEADER_SIZE..HEADER_SIZE + |f.payload|] == f.payload;
    assert stream[HEADER_SIZE + |f.payload|..] == rest;
  }

  /** A frame is read only off its own encoding: one byte sequence per frame. */
  lemma EncodeDecode(stream: seq<Byte>, ending: Ending)
    ensures match Decode(stream, ending)
            case Good(f, rest) => Fits(f) && stream == Encode(f) + rest
            case Bad(failure, rest) =>
              if failure == FrameTooLarge then |stream| >= HEADER_SIZE && rest == stream[HEADER_SIZE..] else rest == []
  {
    if |stream| >= HEADER_SIZE {
      BigEndianOnto(stream[1..HEADER_SIZE]);
    }
  }

  /** No encoding is a prefix of another one. */
  lemma PrefixFree(f: Frame, g: Frame)
    requires Fits(f) && Fits(g) && Encode(f) <= Encode(g)
    ensures f == g
  {
    var tail := Encode(g)[|Encode(f)|..];
    assert Encode(g) == Encode(f) + tail == Encode(g) + [];
    DecodeEncode(f, tail, EndOfFile);
    DecodeEncode(g, [], EndOfFile);
  }

  /** A torn frame is never read as a frame. At a plain end of file the report says so too, except
      that nothing at all, and a header with no payload byte behind it, both read as a plain end. */
  lemma TornIsRefused(f: Frame, part: seq<Byte>, ending: Ending)
    requires Fits(f) && part < Encode(f)
    ensures Decode(part, ending).Bad?
    ensures Decode(part, ending).failure == if |part| in {0, HEADER_SIZE} then ending else Short(1, ending)
  {
    if |part| >= HEADER_SIZE {
      assert part[1..HEADER_SIZE] == Encode(f)[1..HEADER_SIZE] == BigEndian32(|f.payload|);
      BigEndianRoundTrip(|f.payload|);
    }
  }

  lemma DecodeAllStep(f: Frame, rest: seq<Byte>, ending: Ending)
    requires Fits(f)
    ensures DecodeAll(Encode(f) + rest, ending) ==
            Frames([f] + DecodeAll(rest, ending).frames, DecodeAll(rest, ending).failure)
  {
    DecodeEncode(f, rest, ending);
  }

  /** Decoding a run of encodings gives back the run and goes on with whatever follows it. */
  lemma {:induction false} DecodeEncodeAll(frames: seq<Frame>, tail: seq<Byte>, ending: Ending)
    requires AllFit(frames)
    ensures DecodeAll(EncodeAll(frames) + tail, ending) ==
            Frames(frames + DecodeAll(tail, ending).frames, DecodeAll(tail, ending).failure)
  {
    if frames == [] {
      assert EncodeAll(frames) + tail == tail;
    } else {
      var first, more := frames[0], frames[1..];
      var rest, after := EncodeAll(more) + tail, DecodeAll(tail, ending);
      assert EncodeAll(frames) + tail == Encode(first) + rest;
      calc {
        DecodeAll(Encode(first) + rest, ending);
        { DecodeAllStep(first, rest, ending); }
        Frames([first] + DecodeAll(rest, ending).frames, DecodeAll(rest, ending).failure);
        { DecodeEncodeAll(more, tail, ending); }
        Frames([first] + (more + after.frames), after.failure);
        { assert [first] + (more + after.frames) == frames + after.frames; }
        Frames(frames + after.frames, after.failure);
      }
    }
  }

  /** Nothing is skipped or made up: the frames read are the stream's own leading bytes. */
  lemma {:induction false} DecodeAllIsPrefix(stream: seq<Byte>, ending: Ending)
    ensures EncodeAll(DecodeAll(stream, ending).frames) <= stream
    decreases |stream|
  {
    match Decode(stream, ending)
    case Bad(_, _) =>
    case Good(frame, rest) =>
      EncodeDecode(stream, ending);
      DecodeAllIsPrefix(rest, ending);
      var all := DecodeAll(stream, ending).frames;
      assert all[1..] == DecodeAll(rest, ending).frames;
  }

  lemma {:induction false} EncodeAllAppend(frames: seq<Frame>, more: seq<Frame>)
    requires AllFit(frames + more)
    ensures AllFit(frames)
    ensures AllFit(more)
    ensures EncodeAll(frames + more) == EncodeAll(frames) + EncodeAll(more)
  {
    assert frames == (frames + more)[..|frames|] && more == (frames + more)[|frames|..];
    if frames == [] {
      assert frames + more == more;
    } else {
      assert (frames + more)[1..] == frames[1..] + more;
      EncodeAllAppend(frames[1..], more);
    }
  }

  // ----- On the wire -----

  /** The header byte by byte: the kind, and the length with its most significant byte first. */
  lemma HeaderBytes(f: Frame)
    requires |f.payload| <= 65536
    ensures Fits(f)
    ensures var n := |f.payload|;
      Encode(f) == [f.kind, 0, n / 65536, n / 256 % 256, n % 256] + f.payload
  {
  }

  /** A length above 65536 is refused, whatever follows; one up to it is not. */
  lemma LengthLimit(kind: Byte, a: Byte, b: Byte, c: Byte, d: Byte, rest: seq<Byte>, ending: Ending)
    ensures Decode([kind, a, b, c, d] + rest, ending) == Bad(FrameTooLarge, rest) <==>
            a > 0 || b > 1 || (b == 1 && (c > 0 || d > 0))
  {
    var stream := [kind, a, b, c, d] + rest;
    assert stream[1..HEADER_SIZE] == [a, b, c, d] && stream[HEADER_SIZE..] == rest;
  }
}
