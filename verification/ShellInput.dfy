/** The session's input side: frames from the peer become terminal input and window sizes. */
module ShellInput {
  import opened Common
  import opened Streams
  import opened Frames

  /** What the terminal undergoes, in order: one typed byte or one new window size. */
  datatype TerminalEvent = Typed(b: Byte) | Resized(cols: nat, rows: nat)

  function TypedAll(bytes: seq<Byte>): seq<TerminalEvent> {
    seq(|bytes|, i requires 0 <= i < |bytes| => Typed(bytes[i]))
  }

  function BigEndian16(high: Byte, low: Byte): nat {
    (high as int) * 0x100 + low
  }

  /** The frames a peer may send: terminal bytes, or a window size whose both sides are nonzero. */
  predicate ValidInput(f: Frame) {
    match f.kind
    case 0 => true
    case 1 =>
      && |f.payload| == 4
      && BigEndian16(f.payload[0], f.payload[1]) > 0
      && BigEndian16(f.payload[2], f.payload[3]) > 0
    case _ => false
  }

  function EventsOf(f: Frame): seq<TerminalEvent>
    requires ValidInput(f)
  {
    if f.kind == DATA then TypedAll(f.payload)
    else [Resized(BigEndian16(f.payload[0], f.payload[1]), BigEndian16(f.payload[2], f.payload[3]))]
  }

  /** How many leading frames are valid. */
  function ValidCount(frames: seq<Frame>): (n: nat)
    ensures n <= |frames|
    ensures forall i :: 0 <= i < n ==> ValidInput(frames[i])
    ensures n < |frames| ==> !ValidInput(frames[n])
  {
    if frames == [] || !ValidInput(frames[0]) then 0 else 1 + ValidCount(frames[1..])
  }

  function EventsOfAll(frames: seq<Frame>): seq<TerminalEvent>
    requires forall i :: 0 <= i < |frames| ==> ValidInput(frames[i])
  {
    if frames == [] then [] else EventsOf(frames[0]) + EventsOfAll(frames[1..])
  }

  /** Everything a peer's bytes do to the terminal. */
  function InputEffect(stream: seq<Byte>, ending: Ending): seq<TerminalEvent>
    decreases |stream|
  {
    match Decode(stream, ending)
    case Bad(_, _) => []
    case Good(f, rest) => if ValidInput(f) then EventsOf(f) + InputEffect(rest, ending) else []
  }

  /** It is the effect of the longest valid run of complete frames, and nothing of what follows. */
  lemma {:induction false} InputEffectOfValidRun(stream: seq<Byte>, ending: Ending)
    ensures var frames := DecodeAll(stream, ending).frames;
      InputEffect(stream, ending) == EventsOfAll(frames[..ValidCount(frames)])
    decreases |stream|
  {
    match Decode(stream, ending)
    case Bad(_, _) =>
    case Good(f, rest) =>
      InputEffectOfValidRun(rest, ending);
      var more := DecodeAll(rest, ending).frames;
      var frames := DecodeAll(stream, ending).frames;
      assert frames[1..] == more;
      if ValidInput(f) {
        assert frames[..ValidCount(frames)][1..] == more[..ValidCount(more)];
      }
  }

  /** The child's terminal, which may fail at any time, a write then leaving a part behind. */
  class Terminal {
    ghost var events: seq<TerminalEvent>

    constructor ()
      ensures events == []
    {
      events := [];
    }

    method Write(bytes: seq<Byte>) returns (ok: bool)
      modifies this
      ensures ok ==> events == old(events) + TypedAll(bytes)
      ensures !ok ==> old(events) <= events <= old(events) + TypedAll(bytes)
    {
      ok := *;
      ghost var count: nat := |bytes|;
      if !ok {
        count :| count <= |bytes|;
      }
      events := events + TypedAll(bytes)[..count];
      assert TypedAll(bytes)[..|bytes|] == TypedAll(bytes);
    }

    method SetSize(cols: nat, rows: nat) returns (ok: bool)
      modifies this
      ensures ok ==> events == old(events) + [Resized(cols, rows)]
      ensures !ok ==> events == old(events)
    {
      ok := *;
      if ok {
        events := events + [Resized(cols, rows)];
      }
    }
  }

  /** Why the input side ended: the peer's bytes, or the terminal. */
  datatype InputEnd = PeerFailed | TerminalFailed

  /** Applies one frame. Anything but a valid input frame is the peer's failure and has no effect. */
  method ApplyFrame(frame: Frame, terminal: Terminal) returns (end: Option<InputEnd>)
    modifies terminal
    ensures !ValidInput(frame) ==> end == Some(PeerFailed) && terminal.events == old(terminal.events)
    ensures ValidInput(frame) ==> end in {None, Some(TerminalFailed)}
    ensures end == None ==> terminal.events == old(terminal.events) + EventsOf(frame)
    ensures end == Some(TerminalFailed) ==>
      old(terminal.events) <= terminal.events <= old(terminal.events) + EventsOf(frame)
  {
    if frame.kind == DATA {
      var ok := terminal.Write(frame.payload);
      return if ok then None else Some(TerminalFailed);
    } else if frame.kind == RESIZE {
      if |frame.payload| != 4 {
        return Some(PeerFailed);
      }
      var cols := BigEndian16(frame.payload[0], frame.payload[1]);
      var rows := BigEndian16(frame.payload[2], frame.payload[3]);
      if cols == 0 || rows == 0 {
        return Some(PeerFailed);
      }
      var ok := terminal.SetSize(cols, rows);
      if !ok {
        return Some(TerminalFailed);
      }
      return None;
    } else {
      return Some(PeerFailed);
    }
  }

  /** Runs until the peer's bytes end or stop being valid, which is the peer's failure, or until the
      terminal fails. The terminal undergoes exactly the effect of the valid frames, or, when it
      failed, a leading part of it. */
  method ReadInput(reader: BufferedReader, terminal: Terminal) returns (end: InputEnd)
    requires reader.Valid()
    modifies reader, reader.buffer, reader.source`pending, terminal
    ensures reader.Valid()
    ensures var effect := InputEffect(old(reader.Pending()), reader.source.ending);
      match end
      case PeerFailed => terminal.events == old(terminal.events) + effect
      case TerminalFailed => old(terminal.events) <= terminal.events <= old(terminal.events) + effect
  {
    ghost var before, ending := terminal.events, reader.source.ending;
    ghost var stream := reader.Pending();
    ghost var effect := InputEffect(stream, ending);
    ghost var done, left := [], effect;
    while true
      invariant reader.Valid() && reader.Pending() == stream && reader.source.ending == ending
      invariant left == InputEffect(stream, ending)
      invariant terminal.events == before + done && effect == done + left
      decreases |stream|
    {
      var next := ReadFrame(reader);
      if next.Err? {
        return PeerFailed;
      }
      stream := reader.Pending();
      var stop := ApplyFrame(next.value, terminal);
      if stop == Some(PeerFailed) {
        return PeerFailed;
      }
      ghost var now := EventsOf(next.value);
      assert left == now + InputEffect(stream, ending);
      left := InputEffect(stream, ending);
      Associative(done, now, left);
      Associative(before, done, now);
      done := done + now;
      if stop == Some(TerminalFailed) {
        Associative(before, done, left);
        return TerminalFailed;
      }
    }
  }

  lemma ValidCountIs(frames: seq<Frame>, n: nat)
    requires n <= |frames| && (n < |frames| ==> !ValidInput(frames[n]))
    requires forall i :: 0 <= i < n ==> ValidInput(frames[i])
    ensures ValidCount(frames) == n
  {
  }

  /** Nothing behind the first invalid frame has any effect. */
  lemma NothingAfterInvalid(frames: seq<Frame>, bad: Frame, tail: seq<Byte>, ending: Ending)
    requires AllFit(frames) && Fits(bad) && !ValidInput(bad)
    requires forall i :: 0 <= i < |frames| ==> ValidInput(frames[i])
    ensures InputEffect(EncodeAll(frames) + Encode(bad) + tail, ending) == EventsOfAll(frames)
  {
    var rest := Encode(bad) + tail;
    assert EncodeAll(frames) + Encode(bad) + tail == EncodeAll(frames) + rest;
    InputEffectOfValidRun(EncodeAll(frames) + rest, ending);
    DecodeEncodeAll(frames, rest, ending);
    DecodeAllStep(bad, tail, ending);
    var more := [bad] + DecodeAll(tail, ending).frames;
    ValidCountIs(frames + more, |frames|);
    assert (frames + more)[..|frames|] == frames;
  }

  /** A stream that breaks off has the effect of its complete leading frames alone. */
  lemma NothingOfATornFrame(frames: seq<Frame>, torn: seq<Byte>, f: Frame, ending: Ending)
    requires AllFit(frames) && Fits(f) && torn < Encode(f)
    requires forall i :: 0 <= i < |frames| ==> ValidInput(frames[i])
    ensures InputEffect(EncodeAll(frames) + torn, ending) == EventsOfAll(frames)
  {
    InputEffectOfValidRun(EncodeAll(frames) + torn, ending);
    DecodeEncodeAll(frames, torn, ending);
    TornIsRefused(f, torn, ending);
    assert DecodeAll(torn, ending).frames == [];
    assert frames + [] == frames;
    assert frames[..|frames|] == frames;
  }

  // ----- From the bytes of a frame -----

  /** A resize frame holds the columns and then the rows, either with its more significant byte first. */
  lemma ResizeSets(cols: nat, rows: nat, ending: Ending)
    requires 0 < cols < 0x1_0000 && 0 < rows < 0x1_0000
    ensures InputEffect([1, 0, 0, 0, 4, cols / 0x100, cols % 0x100, rows / 0x100, rows % 0x100], ending) ==
            [Resized(cols, rows)]
  {
    var payload := [cols / 0x100, cols % 0x100, rows / 0x100, rows % 0x100];
    var f := Frame(RESIZE, payload);
    HeaderBytes(f);
    assert [1, 0, 0, 0, 4, cols / 0x100, cols % 0x100, rows / 0x100, rows % 0x100] == Encode(f) + [];
    DecodeEncode(f, [], ending);
    assert InputEffect([], ending) == [];
  }

  /** A data frame types its payload byte for byte. */
  lemma DataTypes(payload: seq<Byte>, ending: Ending)
    requires |payload| <= 65536
    ensures var f := Frame(0, payload);
      Fits(f) && InputEffect(Encode(f), ending) == seq(|payload|, i requires 0 <= i < |payload| => Typed(payload[i]))
  {
    var f := Frame(0, payload);
    assert Encode(f) == Encode(f) + [];
    DecodeEncode(f, [], ending);
    assert InputEffect([], ending) == [];
  }

  /** Which frames a peer may send, by their bytes. */
  lemma ValidInputIs(f: Frame)
    ensures ValidInput(f) <==>
      || f.kind == 0
      || (f.kind == 1 && |f.payload| == 4 &&
          (f.payload[0] != 0 || f.payload[1] != 0) && (f.payload[2] != 0 || f.payload[3] != 0))
  {
  }
}
