/** One agent connection from its request line to its last byte. */
module Connection {
  import opened Common
  import opened Streams
  import opened Frames
  import opened Requests
  import opened Session
  import Relay
  import opened ShellInput

  datatype Rejection = InvalidRequestReason | ConnectionRefusedReason

  /** The replies an agent may give: acceptance, or one closed-set reason. */
  function ReplyText(rejection: Option<Rejection>): (text: string)
    ensures forall i :: 0 <= i < |text| ==> text[i] as int < 128
    ensures '\n' !in text
  {
    match rejection
    case None => "{\"ok\":true}"
    case Some(InvalidRequestReason) => "{\"ok\":false,\"error\":\"invalid_request\"}"
    case Some(ConnectionRefusedReason) => "{\"ok\":false,\"error\":\"connection_refused\"}"
  }

  /** The reasons for which a target may be refused. */
  function Reason(rejection: Rejection): string {
    match rejection
    case InvalidRequestReason => "invalid_request"
    case ConnectionRefusedReason => "connection_refused"
  }

  /** Acceptance, letter by letter. */
  lemma AcceptanceIs()
    ensures ReplyText(None) == ['{', '"', 'o', 'k', '"', ':', 't', 'r', 'u', 'e', '}']
  {
  }

  /** A rejection, piece by piece, with the reason it is for. */
  lemma ReplyNamesReason(rejection: Rejection)
    ensures var text := ReplyText(Some(rejection));
      && |text| == 21 + |Reason(rejection)| + 2 && text[21..21 + |Reason(rejection)|] == Reason(rejection)
      && text[..21] == "{\"ok\":false,\"error\":\"" && text[21 + |Reason(rejection)|..] == "\"}"
  {
    match rejection
    case InvalidRequestReason => InvalidRequestNamed();
    case ConnectionRefusedReason => ConnectionRefusedNamed();
  }

  lemma InvalidRequestNamed()
    ensures var text := ReplyText(Some(InvalidRequestReason));
      && |text| == 38 && |Reason(InvalidRequestReason)| == 15
      && text[21..36] == Reason(InvalidRequestReason)
      && text[..21] == "{\"ok\":false,\"error\":\"" && text[36..] == "\"}"
  {
  }

  lemma ConnectionRefusedNamed()
    ensures var text := ReplyText(Some(ConnectionRefusedReason));
      && |text| == 41 && |Reason(ConnectionRefusedReason)| == 18
      && text[21..39] == Reason(ConnectionRefusedReason)
      && text[..21] == "{\"ok\":false,\"error\":\"" && text[39..] == "\"}"
  {
  }

  function ReplyLine(rejection: Option<Rejection>): seq<Byte> {
    Ascii(ReplyText(rejection)) + [10]
  }

  /** How a connection went: unanswered, rejected, accepted in vain, without a terminal, or through its
      phase, which is a run of the relay or of the session. */
  datatype Phase =
    | Unanswered
    | Rejected(rejection: Rejection)
    | ReplyLost
    | Relaying(port: nat, buffered: seq<Byte>, relay: seq<Relay.Action>)
    | NoTerminal(request: Request)
    | InShell(request: Request, input: seq<Byte>, ending: Ending, session: seq<Action>)

  predicate ValidPhase(phase: Phase) {
    match phase
    case Relaying(_, buffered, relay) => Relay.IsRun(Relay.Init(buffered), relay)
    case InShell(_, input, ending, session) => IsRun(Init(input, ending), session)
    case _ => true
  }

  /** Everything a session has written. */
  function SessionBytes(input: seq<Byte>, ending: Ending, session: seq<Action>): seq<Byte>
    requires IsRun(Init(input, ending), session)
  {
    InitInv(input, ending);
    RunKeeps(Init(input, ending), session);
    Wire(After(Init(input, ending), session))
  }

  /** What the phase writes. */
  function PhaseBytes(phase: Phase): seq<Byte>
    requires ValidPhase(phase)
  {
    match phase
    case Relaying(_, buffered, relay) => Relay.After(Relay.Init(buffered), relay).toPeer.delivered
    case InShell(_, input, ending, session) => SessionBytes(input, ending, session)
    case _ => []
  }

  /** The bytes of a connection, in one of four shapes: nothing, a rejection line or a part of one,
      a part of the acceptance line, or the acceptance line and then the phase's bytes. */
  ghost predicate Grammar(bytes: seq<Byte>, phase: Phase)
    requires ValidPhase(phase)
  {
    match phase
    case Unanswered => bytes == []
    case Rejected(rejection) => bytes <= ReplyLine(Some(rejection))
    case ReplyLost => bytes < ReplyLine(None)
    case _ => bytes == ReplyLine(None) + PhaseBytes(phase)
  }

  /** Which phase a first line leads to. */
  ghost predicate Leads(line: Option<seq<Byte>>, lex: Lexer, phase: Phase)
    requires line.Some? ==> line.value != []
  {
    match phase
    case Unanswered => line == None
    case Rejected(InvalidRequestReason) => line.Some? && LineAnswers(lex, line.value, None)
    case Rejected(ConnectionRefusedReason) =>
      line.Some? && exists r: Request :: r.PortRequest? && LineAnswers(lex, line.value, Some(r))
    case ReplyLost => line.Some? && exists r: Request :: LineAnswers(lex, line.value, Some(r))
    case Relaying(port, _, _) => line.Some? && LineAnswers(lex, line.value, Some(PortRequest(port)))
    case NoTerminal(r) => r.ShellRequest? && line.Some? && LineAnswers(lex, line.value, Some(r))
    case InShell(r, _, _, _) => r.ShellRequest? && line.Some? && LineAnswers(lex, line.value, Some(r))
  }

  /** The phase takes in the bytes behind the request line, in order and from the first on: a relay has
      them arrive behind those already buffered, a session has them as its stream. */
  ghost predicate Feeds(rest: seq<Byte>, ending: Ending, phase: Phase) {
    match phase
    case Relaying(_, buffered, relay) => buffered + Relay.Arrivals(relay, Relay.ToService) <= rest
    case InShell(_, input, end, _) => input == rest && end == ending
    case _ => true
  }

  /** Serves a connection. What its phase takes in starts right behind the request line, with the bytes
      the request reader had already buffered. */
  method Handle(reader: BufferedReader, connection: Sink, lex: Lexer) returns (phase: Phase)
    requires reader.Valid()
    modifies reader, reader.buffer, reader.source`pending, connection
    ensures reader.Valid() && ValidPhase(phase) && !connection.open
    ensures phase.Rejected? && !connection.broken ==>
      connection.written == old(connection.written) + ReplyLine(Some(phase.rejection))
    ensures old(connection.written) <= connection.written
    ensures Grammar(connection.written[|old(connection.written)|..], phase)
    ensures Leads(FirstLine(old(reader.Pending())), lex, phase)
    ensures phase != Unanswered ==>
      Feeds(old(reader.Pending())[|FirstLine(old(reader.Pending())).value|..], reader.source.ending, phase)
  {
    var result := ReadRequest(reader, lex);
    if result.Err? {
      if result.error != InvalidRequest {
        phase := Unanswered;
      } else {
        var _ := connection.Write(ReplyLine(Some(InvalidRequestReason)));
        phase := Rejected(InvalidRequestReason);
      }
    } else {
      match result.value {
        case PortRequest(port) => phase := HandlePort(reader, connection, port);
        case ShellRequest(_, _, _, _) => phase := HandleShell(reader, connection, result.value);
      }
    }
    connection.Close();
  }

  /** Connects to the service and relays. The relay goes on from the reader: the bytes it starts with are
      the buffered ones, and what arrives later comes off the connection. */
  method HandlePort(reader: BufferedReader, connection: Sink, port: nat) returns (phase: Phase)
    requires reader.Valid()
    modifies connection
    ensures ValidPhase(phase)
    ensures phase in {Rejected(ConnectionRefusedReason), ReplyLost} || (phase.Relaying? && phase.port == port)
    ensures phase.Relaying? ==> phase.buffered == reader.buffer[reader.r..reader.w]
    ensures phase.Rejected? && !connection.broken ==>
      connection.written == old(connection.written) + ReplyLine(Some(phase.rejection))
    ensures Feeds(reader.Pending(), reader.source.ending, phase)
    ensures old(connection.written) <= connection.written
    ensures Grammar(connection.written[|old(connection.written)|..], phase)
  {
    var answers: bool := *;
    if !answers {
      var _ := connection.Write(ReplyLine(Some(ConnectionRefusedReason)));
      return Rejected(ConnectionRefusedReason);
    }
    ghost var before := connection.written;
    var ok := connection.Write(ReplyLine(None));
    if !ok {
      LostBytes(before, connection.written);
      return ReplyLost;
    }
    var buffered := reader.buffer[reader.r..reader.w];
    assert Relay.IsRun(Relay.Init(buffered), []) && Relay.Arrivals([], Relay.ToService) <= reader.source.pending;
    var relay: seq<Relay.Action> :|
      && Relay.IsRun(Relay.Init(buffered), relay)
      && Relay.Arrivals(relay, Relay.ToService) <= reader.source.pending;
    phase := Relaying(port, buffered, relay);
    connection.written := connection.written + PhaseBytes(phase);
    AcceptedBytes(before, connection.written, phase);
  }

  lemma AcceptedBytes(before: seq<Byte>, written: seq<Byte>, phase: Phase)
    requires ValidPhase(phase) && (phase.Relaying? || phase.NoTerminal? || phase.InShell?)
    requires written == before + ReplyLine(None) + PhaseBytes(phase)
    ensures before <= written && Grammar(written[|before|..], phase)
  {
    Associative(before, ReplyLine(None), PhaseBytes(phase));
  }

  lemma LostBytes(before: seq<Byte>, written: seq<Byte>)
    requires before <= written < before + ReplyLine(None)
    ensures Grammar(written[|before|..], ReplyLost)
  {
    assert written == (before + ReplyLine(None))[..|written|];
  }

  /** Starts the terminal and runs the session, which reads on where the reader is. */
  method HandleShell(reader: BufferedReader, connection: Sink, request: Request) returns (phase: Phase)
    requires reader.Valid()
    modifies connection
    ensures ValidPhase(phase)
    ensures phase in {ReplyLost, NoTerminal(request)} || (phase.InShell? && phase.request == request)
    ensures Feeds(reader.Pending(), reader.source.ending, phase)
    ensures old(connection.written) <= connection.written
    ensures Grammar(connection.written[|old(connection.written)|..], phase)
  {
    ghost var before := connection.written;
    var ok := connection.Write(ReplyLine(None));
    if !ok {
      LostBytes(before, connection.written);
      return ReplyLost;
    }
    var started: bool := *;
    if !started {
      AcceptedBytes(before, connection.written, NoTerminal(request));
      return NoTerminal(request);
    }
    var input := reader.buffer[reader.r..reader.w] + reader.source.pending;
    assert IsRun(Init(input, reader.source.ending), []);
    var session: seq<Action> :| IsRun(Init(input, reader.source.ending), session);
    phase := InShell(request, input, reader.source.ending, session);
    connection.written := connection.written + PhaseBytes(phase);
    AcceptedBytes(before, connection.written, phase);
  }

  // ----- The input side, byte by byte -----

  const COPY_SIZE: nat := 32 * 1024

  /** One direction of the relay as a copying loop: whatever the chunks, the service gets every byte the
      reader has still to deliver, in order and once, or, when a write fails, leading ones. Copying off a
      buffered reader hands over what it has buffered first and then reads into that same buffer; the
      bytes that reach the service are the same. */
  method CopyInput(reader: BufferedReader, service: Sink) returns (ok: bool)
    requires reader.Valid()
    modifies reader, reader.buffer, reader.source`pending, service
    ensures reader.Valid()
    ensures ok ==> service.written == old(service.written) + old(reader.Pending()) && reader.Pending() == []
    ensures !ok ==> old(service.written) <= service.written < old(service.written) + old(reader.Pending())
  {
    ghost var before, stream := service.written, reader.Pending();
    var chunk := new Byte[COPY_SIZE];
    while true
      invariant reader.Valid() && fresh(chunk) && chunk.Length == COPY_SIZE
      invariant service.written + reader.Pending() == before + stream
      invariant before <= service.written
      decreases |reader.Pending()|
    {
      ghost var rest := reader.Pending();
      var count, report := reader.Read(chunk, 0, chunk.Length);
      assert chunk[..count] == chunk[0..0 + count] == rest[..count];
      assert rest == rest[..count] + reader.Pending();
      Associative(service.written, rest[..count], reader.Pending());
      if count > 0 {
        ok := service.Write(chunk[..count]);
        if !ok {
          return;
        }
      }
      if report.Some? {
        assert service.written + [] == service.written;
        return true;
      }
    }
  }

  /** The input side of a port connection: the request, then everything behind it to the service. */
  method RequestThenRelay(reader: BufferedReader, lex: Lexer, service: Sink)
    returns (result: Result<Request, RequestError>, ok: bool)
    requires reader.Valid()
    modifies reader, reader.buffer, reader.source`pending, service
    ensures result.Err? || !result.value.PortRequest? ==> ok && service.written == old(service.written)
    ensures result.Ok? && result.value.PortRequest? ==>
      && FirstLine(old(reader.Pending())).Some?
      && var line := FirstLine(old(reader.Pending())).value;
      var rest := old(reader.Pending())[|line|..];
      && LineAnswers(lex, line, Some(result.value))
      && if ok then service.written == old(service.written) + rest
         else old(service.written) <= service.written < old(service.written) + rest
  {
    ok := true;
    result := ReadRequest(reader, lex);
    if result.Ok? && result.value.PortRequest? {
      ok := CopyInput(reader, service);
    }
  }

  /** The input side of a shell connection: the request, then frames off the same reader. However the
      bytes were chunked, the terminal undergoes the effect of exactly what follows the first line. */
  method RequestThenInput(reader: BufferedReader, lex: Lexer, terminal: Terminal)
    returns (result: Result<Request, RequestError>, end: Option<InputEnd>)
    requires reader.Valid()
    modifies reader, reader.buffer, reader.source`pending, terminal
    ensures result.Err? || !result.value.ShellRequest? ==> end == None && terminal.events == old(terminal.events)
    ensures result.Ok? && result.value.ShellRequest? ==>
      && FirstLine(old(reader.Pending())).Some?
      && end.Some?
      && var line := FirstLine(old(reader.Pending())).value;
      var effect := InputEffect(old(reader.Pending())[|line|..], reader.source.ending);
      && LineAnswers(lex, line, Some(result.value))
      && (end.value == PeerFailed ==> terminal.events == old(terminal.events) + effect)
      && old(terminal.events) <= terminal.events <= old(terminal.events) + effect
  {
    end := None;
    result := ReadRequest(reader, lex);
    if result.Ok? && result.value.ShellRequest? {
      var e := ReadInput(reader, terminal);
      end := Some(e);
    }
  }

  /** A peer reading a line gets the whole reply and leaves the phase's bytes, and no reply can be
      taken for the beginning of another. */
  lemma RepliesAreLines(rejection: Option<Rejection>, tail: seq<Byte>)
    ensures FirstLine(ReplyLine(rejection) + tail) == Some(ReplyLine(rejection))
    ensures forall other: Option<Rejection> :: ReplyLine(other) <= ReplyLine(rejection) ==> other == rejection
  {
    var line := ReplyLine(rejection);
    var n := |line| - 1;
    assert forall k :: 0 <= k < n ==> (line + tail)[k] == ReplyText(rejection)[k] as int;
    NewlineIs(line + tail, n);
    assert (line + tail)[..n + 1] == line;
    forall other: Option<Rejection> | ReplyLine(other) <= line
      ensures other == rejection
    {
      PrefixReply(other, rejection);
    }
  }

  lemma PrefixReply(other: Option<Rejection>, rejection: Option<Rejection>)
    requires ReplyLine(other) <= ReplyLine(rejection)
    ensures other == rejection
  {
    assert ReplyLine(other)[6] == ReplyLine(rejection)[6];
    if other.Some? && rejection.Some? {
      assert ReplyLine(other)[21] == ReplyLine(rejection)[21];
    }
  }

  /** End to end: off the bytes of an accepted shell connection a peer reads the acceptance line, then
      a leading part of the terminal's output, and, exactly when the session completed, the child's
      own exit status as the last thing. The terminal undergoes a leading part of what the bytes behind
      the request line stand for, and all of it before the session reports the peer's failure. */
  lemma ShellConnectionEndToEnd(bytes: seq<Byte>, rest: seq<Byte>, ending: Ending, phase: Phase, end: Ending)
    requires ValidPhase(phase) && phase.InShell? && Grammar(bytes, phase) && Feeds(rest, ending, phase)
    ensures FirstLine(bytes) == Some(ReplyLine(None))
    ensures var s := After(Init(phase.input, phase.ending), phase.session);
      && s.intake.events <= InputEffect(rest, ending)
      && (s.connectionOpen && s.inputDone == Some(PeerError) ==> s.intake.events == InputEffect(rest, ending))
    ensures var s := After(Init(phase.input, phase.ending), phase.session);
      var got := DecodeAll(bytes[|ReplyLine(None)|..], end);
      && Carried(got.frames) <= s.output
      && (HasExit(got.frames) <==> !s.main.Looping() && s.main.result == Completed)
      && (HasExit(got.frames) ==>
          && s.child.Exited? && got.frames[|got.frames| - 1] == ExitFrame(s.child.status)
          && !HasExit(got.frames[..|got.frames| - 1])
          && Carried(got.frames) == s.output
          && got.failure == end)
  {
    TerminalFollowsStream(phase.input, phase.ending, phase.session);
    PeerSeesOutputThenExit(phase.input, phase.ending, phase.session, end);
    var wire := Wire(After(Init(phase.input, phase.ending), phase.session));
    assert PhaseBytes(phase) == wire;
    RepliesAreLines(None, wire);
    assert bytes == ReplyLine(None) + wire && bytes[|ReplyLine(None)|..] == wire;
  }

  /** End to end for a port: the peer reads the acceptance line and then a leading part of what the
      service sent, and the service gets a leading part of what is behind the request line. */
  lemma PortConnectionEndToEnd(bytes: seq<Byte>, rest: seq<Byte>, ending: Ending, phase: Phase)
    requires ValidPhase(phase) && phase.Relaying? && Grammar(bytes, phase) && Feeds(rest, ending, phase)
    ensures FirstLine(bytes) == Some(ReplyLine(None))
    ensures var s := Relay.After(Relay.Init(phase.buffered), phase.relay);
      && bytes[|ReplyLine(None)|..] == s.toPeer.delivered <= Relay.Arrivals(phase.relay, Relay.ToPeer)
      && s.toService.delivered <= rest
  {
    Relay.RelaySafety(phase.buffered, phase.relay);
    var s := Relay.After(Relay.Init(phase.buffered), phase.relay);
    assert s.toPeer == s.At(Relay.ToPeer) && s.toService == s.At(Relay.ToService);
    assert s.toService.stream[..s.toService.taken] <= s.toService.stream;
    RepliesAreLines(None, s.toPeer.delivered);
    assert bytes[|ReplyLine(None)|..] == s.toPeer.delivered;
  }
}
