/** The shell session as one concurrent protocol: the select loop of `Run`, the goroutine that waits
    for the child, the two that copy terminal input and output, and the child itself. Each action is
    one indivisible step of one of them, so a run is a sequence of actions in any interleaving. */
module Session {
  import opened Common
  import opened Streams
  import opened Frames
  import ShellInput

  datatype Outcome = Completed | PeerError | TerminalError

  /** Where `Run`, and then the deferred calls of `Run` and of its caller, have got to. */
  datatype Main =
    | Selecting
    | WritingHeader(frame: Frame)
    | WritingPayload(frame: Frame)
    | AwaitingGrace(result: Outcome)
    | AwaitingKill(result: Outcome)
    | ClosingSession(result: Outcome)
    | ClosingTerminal(result: Outcome)
    | ClosingConnection(result: Outcome)
    | Closed(result: Outcome)
  {
    /** Still in the loop or in the final write of the exit frame. */
    predicate Looping() {
      Selecting? || WritingHeader? || WritingPayload?
    }

    predicate Writing(kind: Byte) {
      (WritingHeader? || WritingPayload?) && frame.kind == kind
    }

    /** `terminate` has been entered and has not returned. */
    predicate Terminating() {
      AwaitingGrace? || AwaitingKill?
    }
  }

  datatype Reader = Reading | Offering(chunk: seq<Byte>, last: bool) | ReaderGone

  datatype Waiter = Waiting | Reporting(status: Byte) | WaiterGone

  datatype Input = Listening | Answering(end: Outcome) | InputGone

  datatype Child = Running | Exited(status: Byte)

  datatype Signal = Hangup | Kill

  /** The input side: what the peer still sends, how that ends, and what the terminal has undergone. */
  datatype Intake = Intake(stream: seq<Byte>, ending: Ending, events: seq<ShellInput.TerminalEvent>)
  {
    /** The next thing on the stream is a valid input frame. */
    predicate HasInput() {
      var next := Decode(stream, ending);
      next.Good? && ShellInput.ValidInput(next.frame)
    }

    function NextEvents(): seq<ShellInput.TerminalEvent>
      requires HasInput()
    {
      ShellInput.EventsOf(Decode(stream, ending).frame)
    }

    function Applied(): Intake
      requires HasInput()
    {
      Intake(Decode(stream, ending).rest, ending, events + NextEvents())
    }
  }

  datatype State = State(
    main: Main,
    outputOpen: bool,         // `output` is not nil
    awaitingExit: bool,       // `processDone` is not nil
    status: Byte,
    reader: Reader,
    waiter: Waiter,
    input: Input,
    processDone: Option<Byte>,   // the one-slot channels
    inputDone: Option<Outcome>,
    sessionDone: bool,        // the channel `sessionDone` is closed
    terminalOpen: bool,
    connectionOpen: bool,
    child: Child,
    intake: Intake,
    // What has happened so far.
    signals: seq<Signal>,     // sent to the child's process group
    output: seq<Byte>,        // every byte read off the terminal
    outputFailed: bool,       // the terminal has reported a read error
    sent: seq<Frame>,         // frames written completely
    torn: seq<Byte>,          // the written part of an incomplete frame
    reaped: seq<Byte>)        // exit statuses received from the waiter

  function Init(stream: seq<Byte>, ending: Ending): State {
    State(Selecting, true, true, 0, Reading, Waiting, Listening, None, None, false, true, true, Running,
          Intake(stream, ending, []),
          [], [], false, [], [], [])
  }

  /** A step of the select loop, or of the writes it makes. */
  datatype LoopAction =
    | ReceiveInput
    | ReceiveChunk
    | ReceiveOutputClosed
    | ReceiveStatus
    | WriteHeader(count: nat)
    | WritePayload(count: nat)

  /** A step of `terminate`, or one of the deferred calls after it. */
  datatype EndAction =
    | GraceReaps
    | GraceExpires
    | KillReaps
    | CloseSession
    | CloseTerminal
    | CloseConnection

  /** A step of the child or of one of the three helper goroutines. */
  datatype HelperAction =
    | TerminalRead(chunk: seq<Byte>, failed: bool)
    | ReaderSeesDone
    | ChildExits(exitStatus: Byte)
    | WaitReturns
    | ReportStatus
    | InputApplies
    | PeerFails
    | TerminalFails(count: nat)
    | ReportInput

  datatype Action = Loop(loop: LoopAction) | End(end: EndAction) | Helper(helper: HelperAction)

  function ExitFrame(status: Byte): Frame {
    Frame(EXIT, [status])
  }

  predicate LoopEnabled(s: State, a: LoopAction) {
    match a
    case ReceiveInput => s.main.Selecting? && s.inputDone.Some?
    case ReceiveChunk => s.main.Selecting? && s.outputOpen && s.reader.Offering?
    case ReceiveOutputClosed => s.main.Selecting? && s.outputOpen && s.reader.ReaderGone?
    case ReceiveStatus => s.main.Selecting? && s.awaitingExit && s.processDone.Some?
    case WriteHeader(count) => s.main.WritingHeader? && count <= HEADER_SIZE
    case WritePayload(count) => s.main.WritingPayload? && count <= |s.main.frame.payload|
  }

  predicate EndEnabled(s: State, a: EndAction) {
    match a
    case GraceReaps => s.main.AwaitingGrace? && s.processDone.Some?
    case GraceExpires => s.main.AwaitingGrace?
    case KillReaps => s.main.AwaitingKill? && s.processDone.Some?
    case CloseSession => s.main.ClosingSession?
    case CloseTerminal => s.main.ClosingTerminal?
    case CloseConnection => s.main.ClosingConnection?
  }

  predicate HelperEnabled(s: State, a: HelperAction) {
    match a
    // A read gives bytes or an error, perhaps both; on a closed terminal it gives an error.
    case TerminalRead(chunk, failed) =>
      && s.reader.Reading?
      && |chunk| <= PAYLOAD_LIMIT
      && (chunk == [] ==> failed)
      && (!s.terminalOpen ==> chunk == [])
    case ReaderSeesDone => s.reader.Offering? && s.sessionDone
    case ChildExits(_) => s.child.Running?
    case WaitReturns => s.waiter.Waiting? && s.child.Exited?
    case ReportStatus => s.waiter.Reporting? && s.processDone.None?
    // The next frame takes effect on the open terminal.
    case InputApplies => s.input.Listening? && s.terminalOpen && s.intake.HasInput()
    // The stream has ended or goes on with something invalid, or reading it fails on the closed connection.
    case PeerFails => s.input.Listening? && (!s.intake.HasInput() || !s.connectionOpen)
    // The terminal takes only a part of the next frame, and nothing once it is closed.
    case TerminalFails(count) =>
      && s.input.Listening? && s.intake.HasInput()
      && count <= |s.intake.NextEvents()| && (!s.terminalOpen ==> count == 0)
    case ReportInput => s.input.Answering? && s.inputDone.None?
  }

  predicate Enabled(s: State, a: Action) {
    match a
    case Loop(l) => LoopEnabled(s, l)
    case End(e) => EndEnabled(s, e)
    case Helper(h) => HelperEnabled(s, h)
  }

  /** A failed write ends the session; only the loop's own writes have a child left to end first. */
  function WriteFailed(s: State, f: Frame, written: seq<Byte>): State {
    if f.kind == DATA && s.awaitingExit then
      s.(main := AwaitingGrace(PeerError), signals := s.signals + [Hangup], torn := written)
    else
      s.(main := ClosingSession(PeerError), torn := written)
  }

  function ApplyLoop(s: State, a: LoopAction): State
    requires LoopEnabled(s, a)
  {
    match a
    case ReceiveInput =>
      if s.awaitingExit then
        s.(main := AwaitingGrace(s.inputDone.value), inputDone := None, signals := s.signals + [Hangup])
      else
        s.(main := ClosingSession(s.inputDone.value), inputDone := None)
    case ReceiveChunk =>
      s.(main := WritingHeader(Frame(DATA, s.reader.chunk)),
         reader := if s.reader.last then ReaderGone else Reading)
    case ReceiveOutputClosed =>
      s.(outputOpen := false, main := if s.awaitingExit then Selecting else WritingHeader(ExitFrame(s.status)))
    case ReceiveStatus =>
      var v := s.processDone.value;
      s.(status := v, awaitingExit := false, processDone := None, reaped := s.reaped + [v],
         main := if s.outputOpen then Selecting else WritingHeader(ExitFrame(v)))
    case WriteHeader(count) =>
      var f := s.main.frame;
      if !Fits(f) then WriteFailed(s, f, [])
      else if count == HEADER_SIZE then s.(main := WritingPayload(f), torn := Header(f))
      else WriteFailed(s, f, Header(f)[..count])
    case WritePayload(count) =>
      var f := s.main.frame;
      if count < |f.payload| then WriteFailed(s, f, s.torn + f.payload[..count])
      else s.(main := if f.kind == DATA then Selecting else ClosingSession(Completed),
              sent := s.sent + [f], torn := [])
  }

  function ApplyEnd(s: State, a: EndAction): State
    requires EndEnabled(s, a)
  {
    match a
    case GraceReaps =>
      s.(main := ClosingSession(s.main.result), processDone := None, reaped := s.reaped + [s.processDone.value])
    case GraceExpires =>
      s.(main := AwaitingKill(s.main.result), signals := s.signals + [Kill])
    case KillReaps =>
      s.(main := ClosingSession(s.main.result), processDone := None, reaped := s.reaped + [s.processDone.value])
    case CloseSession => s.(main := ClosingTerminal(s.main.result), sessionDone := true)
    case CloseTerminal => s.(main := ClosingConnection(s.main.result), terminalOpen := false)
    case CloseConnection => s.(main := Closed(s.main.result), connectionOpen := false)
  }

  function ApplyHelper(s: State, a: HelperAction): State
    requires HelperEnabled(s, a)
  {
    match a
    case TerminalRead(chunk, failed) =>
      s.(output := s.output + chunk, outputFailed := failed,
         reader := if chunk != [] then Offering(chunk, failed) else ReaderGone)
    case ReaderSeesDone => s.(reader := ReaderGone)
    case ChildExits(v) => s.(child := Exited(v))
    case WaitReturns => s.(waiter := Reporting(s.child.status))
    case ReportStatus => s.(processDone := Some(s.waiter.status), waiter := WaiterGone)
    case InputApplies => s.(intake := s.intake.Applied())
    case PeerFails => s.(input := Answering(PeerError))
    case TerminalFails(count) =>
      s.(input := Answering(TerminalError),
         intake := s.intake.(events := s.intake.events + s.intake.NextEvents()[..count]))
    case ReportInput => s.(inputDone := Some(s.input.end), input := InputGone)
  }

  function Apply(s: State, a: Action): State
    requires Enabled(s, a)
  {
    match a
    case Loop(l) => ApplyLoop(s, l)
    case End(e) => ApplyEnd(s, e)
    case Helper(h) => ApplyHelper(s, h)
  }

  predicate IsRun(s: State, actions: seq<Action>)
    decreases |actions|
  {
    actions == [] || (Enabled(s, actions[0]) && IsRun(Apply(s, actions[0]), actions[1..]))
  }

  function After(s: State, actions: seq<Action>): State
    requires IsRun(s, actions)
    decreases |actions|
  {
    if actions == [] then s else After(Apply(s, actions[0]), actions[1..])
  }

  /** Every byte the session has written to the connection. */
  function Wire(s: State): seq<Byte>
    requires AllFit(s.sent)
  {
    EncodeAll(s.sent) + s.torn
  }

  /** The terminal output a sequence of frames carries. */
  function Carried(frames: seq<Frame>): seq<Byte> {
    if frames == [] then []
    else
      var last := frames[|frames| - 1];
      Carried(frames[..|frames| - 1]) + if last.kind == DATA then last.payload else []
  }

  /** The frames the agent may send: nonempty terminal output, or a one-byte exit status. */
  predicate AgentFrame(f: Frame) {
    && Fits(f)
    && (f.kind == DATA || f.kind == EXIT)
    && (f.kind == DATA ==> f.payload != [])
    && (f.kind == EXIT ==> |f.payload| == 1)
  }

  predicate HasExit(frames: seq<Frame>) {
    exists i :: 0 <= i < |frames| && frames[i].kind == EXIT
  }

  // ----- The invariant -----

  function InHand(s: State): seq<Byte> {
    (if s.main.Writing(DATA) then s.main.frame.payload else []) +
    (if s.reader.Offering? then s.reader.chunk else [])
  }

  ghost predicate Torn(part: seq<Byte>) {
    exists f :: AgentFrame(f) && part < Encode(f)
  }

  /** No output byte is lost, reordered or repeated while the session goes on, and none but
      not yet forwarded ones when it ends early. */
  ghost predicate FlowInv(s: State) {
    && (forall i :: 0 <= i < |s.sent| ==> AgentFrame(s.sent[i]))
    && (forall i :: 0 <= i < |s.sent| && s.sent[i].kind == EXIT ==>
        i == |s.sent| - 1 && !s.main.Looping() && s.main.result == Completed)
    && (s.main.Looping() ==> Carried(s.sent) + InHand(s) == s.output)
    && Carried(s.sent) <= s.output
    && (s.main.WritingHeader? || s.main.WritingPayload? ==> AgentFrame(s.main.frame))
    && (s.main.Selecting? ==> s.outputOpen || s.awaitingExit)
    && (s.main.Writing(DATA) ==> s.outputOpen)
    && (s.main.Writing(EXIT) ==>
        !s.outputOpen && !s.awaitingExit && s.main.frame == ExitFrame(s.status))
    && (s.main.Selecting? || s.main.WritingHeader? ==> s.torn == [])
    && (s.main.WritingPayload? ==> s.torn == Header(s.main.frame))
    && (!s.main.Looping() ==> Torn(s.torn))
    && (!s.main.Looping() && s.main.result == Completed ==>
        && s.torn == []
        && Carried(s.sent) == s.output
        && s.outputFailed && s.reader.ReaderGone?
        && s.sent != [] && s.sent[|s.sent| - 1] == ExitFrame(s.status)
        && s.reaped == [s.status] && s.signals == [])
  }

  /** The order in which things are shut down, and what the output reader may be doing. */
  predicate ShutdownInv(s: State) {
    && (s.sessionDone <==> s.main.ClosingTerminal? || s.main.ClosingConnection? || s.main.Closed?)
    && (s.terminalOpen <==> !(s.main.ClosingConnection? || s.main.Closed?))
    && (s.connectionOpen <==> !s.main.Closed?)
    && (!s.outputOpen ==> s.reader.ReaderGone? && s.outputFailed)
    && (s.reader.ReaderGone? && !s.sessionDone ==> s.outputFailed)
    && (s.reader.Reading? ==> !s.outputFailed)
    && (s.reader.Offering? ==>
        0 < |s.reader.chunk| <= PAYLOAD_LIMIT && s.reader.last == s.outputFailed)
  }

  /** The child's exit status exists once: in the child, the waiter, the channel or `Run`. */
  predicate ReapInv(s: State) {
    && (s.waiter.Waiting? ==> s.processDone == None && s.reaped == [])
    && (s.waiter.Reporting? ==> s.processDone == None && s.reaped == [] && s.child == Exited(s.waiter.status))
    && (s.waiter.WaiterGone? && s.reaped == [] ==> s.child.Exited? && s.processDone == Some(s.child.status))
    && (s.reaped != [] ==> s.waiter.WaiterGone? && s.child.Exited? && s.processDone == None && s.reaped == [s.child.status])
    && (s.main.Looping() ==> (s.awaitingExit <==> s.reaped == []))
    && (s.main.Looping() && !s.awaitingExit ==> s.reaped == [s.status])
    && (s.main.Terminating() ==> s.reaped == [])
    && (!s.main.Looping() && !s.main.Terminating() ==> s.reaped != [])
    && s.signals <= [Hangup, Kill]
    && (s.main.Looping() ==> s.signals == [])
    && (s.main.AwaitingGrace? ==> s.signals == [Hangup])
    && (s.main.AwaitingKill? ==> s.signals == [Hangup, Kill])
  }

  predicate InputInv(s: State) {
    && (!s.input.InputGone? ==> s.inputDone == None)
    && (s.input.InputGone? && s.main.Looping() ==> s.inputDone.Some?)
    && (s.input.Answering? ==> s.input.end != Completed)
    && (s.inputDone.Some? ==> s.inputDone.value != Completed)
  }

  ghost predicate Inv(s: State) {
    FlowInv(s) && ShutdownInv(s) && ReapInv(s) && InputInv(s)
  }

  lemma InitInv(stream: seq<Byte>, ending: Ending)
    ensures Inv(Init(stream, ending))
  {
  }

  lemma CarriedAppend(frames: seq<Frame>, f: Frame)
    ensures Carried(frames + [f]) == Carried(frames) + if f.kind == DATA then f.payload else []
  {
    assert (frames + [f])[..|frames|] == frames;
  }

  lemma TornPart(f: Frame, part: seq<Byte>)
    requires AgentFrame(f) && part < Encode(f)
    ensures Torn(part)
  {
  }

  /** A write changes where the loop is, what was sent, and perhaps the signals, and nothing else. */
  predicate OnlyWrites(s: State, t: State) {
    && t == s.(main := t.main, signals := t.signals, sent := t.sent, torn := t.torn)
    && (|| ((t.main.Looping() || (t.main.ClosingSession? && !s.awaitingExit)) && t.signals == s.signals)
        || (t.main.AwaitingGrace? && s.awaitingExit && t.signals == s.signals + [Hangup]))
  }

  lemma FailureOnlyWrites(s: State, f: Frame, written: seq<Byte>)
    requires f.kind == DATA || !s.awaitingExit
    ensures OnlyWrites(s, WriteFailed(s, f, written))
  {
  }

  lemma WriteOnlyWrites(s: State, a: LoopAction)
    requires Inv(s) && LoopEnabled(s, a) && (a.WriteHeader? || a.WritePayload?)
    ensures OnlyWrites(s, ApplyLoop(s, a))
  {
    var f := s.main.frame;
    match a
    case WriteHeader(count) =>
      FailureOnlyWrites(s, f, Header(f)[..count]);
    case WritePayload(count) =>
      FailureOnlyWrites(s, f, s.torn + f.payload[..count]);
  }

  lemma WriteKeepsShutdown(s: State, a: LoopAction)
    requires Inv(s) && LoopEnabled(s, a) && (a.WriteHeader? || a.WritePayload?)
    ensures ShutdownInv(ApplyLoop(s, a))
  {
    WriteOnlyWrites(s, a);
    ShutdownStays(s, ApplyLoop(s, a));
  }

  lemma ShutdownStays(s: State, t: State)
    requires ShutdownInv(s) && s.main.Looping() && OnlyWrites(s, t)
    ensures ShutdownInv(t)
  {
  }

  lemma ReceiveKeepsShutdown(s: State, a: LoopAction)
    requires Inv(s) && LoopEnabled(s, a) && !a.WriteHeader? && !a.WritePayload?
    ensures ShutdownInv(ApplyLoop(s, a))
  {
  }

  lemma LoopKeepsInput(s: State, a: LoopAction)
    requires Inv(s) && LoopEnabled(s, a)
    ensures InputInv(ApplyLoop(s, a))
  {
  }

  lemma WriteKeepsReap(s: State, a: LoopAction)
    requires Inv(s) && LoopEnabled(s, a) && (a.WriteHeader? || a.WritePayload?)
    ensures ReapInv(ApplyLoop(s, a))
  {
    WriteOnlyWrites(s, a);
    ReapStays(s, ApplyLoop(s, a));
  }

  lemma ReapStays(s: State, t: State)
    requires ReapInv(s) && s.main.Looping() && OnlyWrites(s, t)
    ensures ReapInv(t)
  {
  }

  lemma ReceiveKeepsReap(s: State, a: LoopAction)
    requires Inv(s) && LoopEnabled(s, a) && !a.WriteHeader? && !a.WritePayload?
    ensures ReapInv(ApplyLoop(s, a))
  {
    match a
    case ReceiveInput =>
    case ReceiveChunk =>
    case ReceiveOutputClosed =>
    case ReceiveStatus =>
  }

  lemma HeaderKeepsFlow(s: State, a: LoopAction)
    requires Inv(s) && LoopEnabled(s, a) && a.WriteHeader? && a.count == HEADER_SIZE
    ensures FlowInv(ApplyLoop(s, a))
  {
  }

  lemma TornHeaderKeepsFlow(s: State, a: LoopAction)
    requires Inv(s) && LoopEnabled(s, a) && a.WriteHeader? && a.count < HEADER_SIZE
    ensures FlowInv(ApplyLoop(s, a))
  {
    TornPart(s.main.frame, Header(s.main.frame)[..a.count]);
  }

  lemma OutputKeepsFlow(s: State, a: LoopAction)
    requires Inv(s) && LoopEnabled(s, a) && a.WritePayload? && a.count == |s.main.frame.payload|
    requires s.main.frame.kind == DATA
    ensures FlowInv(ApplyLoop(s, a))
  {
    CarriedAppend(s.sent, s.main.frame);
  }

  lemma ExitKeepsFlow(s: State, a: LoopAction)
    requires Inv(s) && LoopEnabled(s, a) && a.WritePayload? && a.count == |s.main.frame.payload|
    requires s.main.frame.kind == EXIT
    ensures FlowInv(ApplyLoop(s, a))
  {
    var t := ApplyLoop(s, a);
    CarriedAppend(s.sent, s.main.frame);
    TornPart(ExitFrame(0), []);
    assert t.sent == s.sent + [s.main.frame] && t.torn == [];
    assert Carried(t.sent) == Carried(s.sent) == s.output;
  }

  lemma TornPayloadKeepsFlow(s: State, a: LoopAction)
    requires Inv(s) && LoopEnabled(s, a) && a.WritePayload? && a.count < |s.main.frame.payload|
    ensures FlowInv(ApplyLoop(s, a))
  {
    var f := s.main.frame;
    TornPart(f, Header(f) + f.payload[..a.count]);
  }

  lemma ReceiveKeepsFlow(s: State, a: LoopAction)
    requires Inv(s) && LoopEnabled(s, a) && !a.WriteHeader? && !a.WritePayload?
    ensures FlowInv(ApplyLoop(s, a))
  {
    TornPart(ExitFrame(0), []);
  }

  lemma EndKeepsFlow(s: State, a: EndAction)
    requires Inv(s) && EndEnabled(s, a)
    ensures FlowInv(ApplyEnd(s, a))
  {
  }

  lemma EndKeepsOrder(s: State, a: EndAction)
    requires Inv(s) && EndEnabled(s, a)
    ensures ShutdownInv(ApplyEnd(s, a)) && ReapInv(ApplyEnd(s, a)) && InputInv(ApplyEnd(s, a))
  {
  }

  lemma ReaderKeepsFlow(s: State, a: HelperAction)
    requires Inv(s) && HelperEnabled(s, a) && (a.TerminalRead? || a.ReaderSeesDone?)
    ensures FlowInv(ApplyHelper(s, a))
  {
    if a.TerminalRead? {
      var sending := if s.main.Writing(DATA) then s.main.frame.payload else [];
      Associative(Carried(s.sent), sending, a.chunk);
    }
  }

  /** Nothing about the output or the loop has changed. */
  predicate SameFlow(s: State, t: State) {
    && t.main == s.main && t.reader == s.reader && t.outputOpen == s.outputOpen && t.awaitingExit == s.awaitingExit
    && t.status == s.status && t.sent == s.sent && t.torn == s.torn && t.output == s.output
    && t.outputFailed == s.outputFailed && t.reaped == s.reaped && t.signals == s.signals
  }

  lemma OtherLeavesFlow(s: State, a: HelperAction)
    requires HelperEnabled(s, a) && !a.TerminalRead? && !a.ReaderSeesDone?
    ensures SameFlow(s, ApplyHelper(s, a))
  {
    match a
    case ChildExits(_) =>
    case WaitReturns =>
    case ReportStatus =>
    case InputApplies =>
    case PeerFails =>
    case TerminalFails(_) =>
    case ReportInput =>
  }

  lemma OtherKeepsFlow(s: State, a: HelperAction)
    requires Inv(s) && HelperEnabled(s, a) && !a.TerminalRead? && !a.ReaderSeesDone?
    ensures FlowInv(ApplyHelper(s, a))
  {
    OtherLeavesFlow(s, a);
    FlowStays(s, ApplyHelper(s, a));
  }

  lemma FlowStays(s: State, t: State)
    requires FlowInv(s) && SameFlow(s, t)
    ensures FlowInv(t)
  {
  }

  lemma HelperKeepsOrder(s: State, a: HelperAction)
    requires Inv(s) && HelperEnabled(s, a)
    ensures ShutdownInv(ApplyHelper(s, a)) && ReapInv(ApplyHelper(s, a)) && InputInv(ApplyHelper(s, a))
  {
  }

  lemma StepKeeps(s: State, a: Action)
    requires Inv(s) && Enabled(s, a)
    ensures Inv(Apply(s, a))
  {
    match a
    case Loop(l) =>
      LoopKeepsInput(s, l);
      if l.WriteHeader? || l.WritePayload? {
        WriteKeepsShutdown(s, l);
        WriteKeepsReap(s, l);
      } else {
        ReceiveKeepsShutdown(s, l);
        ReceiveKeepsReap(s, l);
      }
      if l.WriteHeader? {
        if l.count == HEADER_SIZE { HeaderKeepsFlow(s, l); } else { TornHeaderKeepsFlow(s, l); }
      } else if l.WritePayload? && l.count == |s.main.frame.payload| {
        if s.main.frame.kind == DATA { OutputKeepsFlow(s, l); } else { ExitKeepsFlow(s, l); }
      } else if l.WritePayload? {
        TornPayloadKeepsFlow(s, l);
      } else {
        ReceiveKeepsFlow(s, l);
      }
    case End(e) =>
      EndKeepsFlow(s, e);
      EndKeepsOrder(s, e);
    case Helper(h) =>
      if h.TerminalRead? || h.ReaderSeesDone? { ReaderKeepsFlow(s, h); } else { OtherKeepsFlow(s, h); }
      HelperKeepsOrder(s, h);
  }

  lemma {:induction false} RunKeeps(s: State, actions: seq<Action>)
    requires Inv(s) && IsRun(s, actions)
    ensures Inv(After(s, actions))
    decreases |actions|
  {
    if actions != [] {
      StepKeeps(s, actions[0]);
      RunKeeps(Apply(s, actions[0]), actions[1..]);
    }
  }

  // ----- Safety over every run -----

  /** Under every interleaving the frames carry, in order, a leading part of what was read off the
      terminal. An exit frame is the last frame, comes only after all output up to the terminal's read
      error, and tells the child's own exit status, the child having had no signal. */
  lemma OutputThenExit(stream: seq<Byte>, ending: Ending, actions: seq<Action>)
    requires IsRun(Init(stream, ending), actions)
    ensures var s := After(Init(stream, ending), actions);
      && (forall i :: 0 <= i < |s.sent| ==> AgentFrame(s.sent[i]))
      && Carried(s.sent) <= s.output
      && (HasExit(s.sent) <==> !s.main.Looping() && s.main.result == Completed)
      && forall i :: 0 <= i < |s.sent| && s.sent[i].kind == EXIT ==>
        && i == |s.sent| - 1
        && s.child.Exited? && s.sent[i] == ExitFrame(s.child.status) && s.reaped == [s.child.status]
        && s.outputFailed && Carried(s.sent) == s.output
        && s.signals == []
  {
    InitInv(stream, ending);
    RunKeeps(Init(stream, ending), actions);
    var s := After(Init(stream, ending), actions);
    if !s.main.Looping() && s.main.result == Completed {
      assert s.sent[|s.sent| - 1].kind == EXIT;
    }
  }

  /** `terminate` runs only while the exit status is still to come, and from the moment `Run` starts
      its deferred calls the status has been received, once, so the child is never left unreaped. */
  lemma ChildReapedOnce(stream: seq<Byte>, ending: Ending, actions: seq<Action>)
    requires IsRun(Init(stream, ending), actions)
    ensures var s := After(Init(stream, ending), actions);
      && |s.reaped| <= 1
      && (s.main.Terminating() ==> s.reaped == [] && (s.waiter.WaiterGone? ==> s.processDone.Some?))
      && (!s.main.Looping() && !s.main.Terminating() ==>
          s.waiter.WaiterGone? && s.child.Exited? && s.reaped == [s.child.status] && s.processDone == None)
      && s.signals <= [Hangup, Kill]
      && (s.main.AwaitingKill? ==> s.signals == [Hangup, Kill])
  {
    InitInv(stream, ending);
    RunKeeps(Init(stream, ending), actions);
  }

  // ----- The input side -----

  /** What the terminal undergoes, against all that the stream stands for: exactly that, once the input
      side has reported the peer's failure with the connection still open, and a leading part always. */
  predicate InputFollows(s: State, total: seq<ShellInput.TerminalEvent>) {
    && (s.input.Listening? ==>
        s.intake.events + ShellInput.InputEffect(s.intake.stream, s.intake.ending) == total)
    && (s.connectionOpen && (s.input == Answering(PeerError) || s.inputDone == Some(PeerError)) ==>
        s.intake.events == total)
    && s.intake.events <= total
  }

  lemma InputStepFollows(s: State, a: HelperAction, total: seq<ShellInput.TerminalEvent>)
    requires InputInv(s) && HelperEnabled(s, a) && InputFollows(s, total)
    ensures InputFollows(ApplyHelper(s, a), total)
  {
    if a.InputApplies? || a.TerminalFails? {
      var i := s.intake;
      var more := ShellInput.InputEffect(Decode(i.stream, i.ending).rest, i.ending);
      assert ShellInput.InputEffect(i.stream, i.ending) == i.NextEvents() + more;
      Associative(i.events, i.NextEvents(), more);
    }
  }

  lemma OtherStepFollows(s: State, a: Action, total: seq<ShellInput.TerminalEvent>)
    requires Inv(s) && Enabled(s, a) && !a.Helper? && InputFollows(s, total)
    ensures InputFollows(Apply(s, a), total)
  {
    match a
    case Loop(l) => if l.WriteHeader? || l.WritePayload? { WriteOnlyWrites(s, l); } else { ReceiveKeepsIntake(s, l); }
    case End(e) => EndKeepsIntake(s, e);
  }

  lemma ReceiveKeepsIntake(s: State, a: LoopAction)
    requires LoopEnabled(s, a) && !a.WriteHeader? && !a.WritePayload?
    ensures var t := ApplyLoop(s, a);
      && t.intake == s.intake && t.input == s.input && t.connectionOpen == s.connectionOpen
      && (t.inputDone == s.inputDone || t.inputDone == None)
  {
    match a
    case ReceiveInput =>
    case ReceiveChunk =>
    case ReceiveOutputClosed =>
    case ReceiveStatus =>
  }

  lemma EndKeepsIntake(s: State, a: EndAction)
    requires EndEnabled(s, a)
    ensures var t := ApplyEnd(s, a);
      && t.intake == s.intake && t.input == s.input && (t.connectionOpen ==> s.connectionOpen)
      && t.inputDone == s.inputDone
  {
    match a
    case GraceReaps =>
    case GraceExpires =>
    case KillReaps =>
    case CloseSession =>
    case CloseTerminal =>
    case CloseConnection =>
  }

  lemma {:induction false} RunFollows(s: State, actions: seq<Action>, total: seq<ShellInput.TerminalEvent>)
    requires Inv(s) && IsRun(s, actions) && InputFollows(s, total)
    ensures InputFollows(After(s, actions), total)
    decreases |actions|
  {
    if actions != [] {
      var a := actions[0];
      StepKeeps(s, a);
      if a.Helper? { InputStepFollows(s, a.helper, total); } else { OtherStepFollows(s, a, total); }
      RunFollows(Apply(s, a), actions[1..], total);
    }
  }

  /** In every run the terminal undergoes a leading part of what the peer's stream stands for, frame by
      frame; and all of it before the input side reports the peer's failure with the connection open. */
  lemma TerminalFollowsStream(stream: seq<Byte>, ending: Ending, actions: seq<Action>)
    requires IsRun(Init(stream, ending), actions)
    ensures InputFollows(After(Init(stream, ending), actions), ShellInput.InputEffect(stream, ending))
  {
    InitInv(stream, ending);
    RunFollows(Init(stream, ending), actions, ShellInput.InputEffect(stream, ending));
  }

  // ----- Signals and results -----

  /** What of a run decides the signals sent and the result reported. */
  datatype Trace = Trace(received: bool, expired: bool, terminalFailed: bool, heard: bool)

  function Seen(t: Trace, a: Action): Trace {
    match a
    case Loop(ReceiveStatus) => t.(received := true)
    case Loop(ReceiveInput) => t.(heard := true)
    case End(GraceExpires) => t.(expired := true)
    case Helper(TerminalFails(_)) => t.(terminalFailed := true)
    case _ => t
  }

  function SeenAll(t: Trace, actions: seq<Action>): Trace
    decreases |actions|
  {
    if actions == [] then t else SeenAll(Seen(t, actions[0]), actions[1..])
  }

  predicate FailsTerminal(a: Action) {
    a.Helper? && a.helper.TerminalFails?
  }

  lemma SeenIs(t: Trace, a: Action)
    ensures Seen(t, a) ==
            Trace(t.received || a == Loop(ReceiveStatus), t.expired || a == End(GraceExpires),
                  t.terminalFailed || FailsTerminal(a), t.heard || a == Loop(ReceiveInput))
  {
  }

  lemma {:induction false} SeenAllIs(t: Trace, actions: seq<Action>)
    ensures SeenAll(t, actions) ==
            Trace(t.received || Loop(ReceiveStatus) in actions, t.expired || End(GraceExpires) in actions,
                  t.terminalFailed || (exists a <- actions :: FailsTerminal(a)), t.heard || Loop(ReceiveInput) in actions)
    decreases |actions|
  {
    if actions != [] {
      var a, rest := actions[0], actions[1..];
      SeenIs(t, a);
      SeenAllIs(Seen(t, a), rest);
      assert actions == [a] + rest;
      assert forall b :: b in actions <==> b == a || b in rest;
      assert (exists b <- actions :: FailsTerminal(b)) <==> FailsTerminal(a) || exists b <- rest :: FailsTerminal(b);
    }
  }

  /** No signal while the loop runs or once it has received the status; otherwise a hang-up, and a kill
      exactly if the grace period expired. */
  predicate SignalsFollow(s: State, t: Trace) {
    && s.signals == (if s.main.Looping() || t.received then [] else [Hangup] + if t.expired then [Kill] else [])
    && (s.main.Looping() ==> !t.expired && (t.received <==> !s.awaitingExit))
    && (s.main.AwaitingGrace? ==> !t.expired && !t.received)
    && (s.main.AwaitingKill? ==> t.expired && !t.received)
    && !(t.received && t.expired)
  }

  /** A session that ended by hearing from its input side reports what that reported; otherwise it
      completed or failed at a write. */
  predicate ResultFollows(s: State, t: Trace) {
    && (s.input.Listening? ==> !t.terminalFailed && !t.heard)
    && (s.input.Answering? ==> !t.heard && s.input.end == if t.terminalFailed then TerminalError else PeerError)
    && (s.inputDone.Some? ==> !t.heard && s.inputDone.value == if t.terminalFailed then TerminalError else PeerError)
    && (s.main.Looping() ==> !t.heard)
    && (t.heard ==> s.input.InputGone?)
    && (!s.main.Looping() ==>
        if t.heard then s.main.result == (if t.terminalFailed then TerminalError else PeerError)
        else s.main.result in {Completed, PeerError})
  }

  lemma WriteTraced(s: State, a: LoopAction, t: Trace)
    requires Inv(s) && LoopEnabled(s, a) && SignalsFollow(s, t) && ResultFollows(s, t)
    requires a.WriteHeader? || a.WritePayload?
    ensures SignalsFollow(ApplyLoop(s, a), t) && ResultFollows(ApplyLoop(s, a), t)
  {
    match a
    case WriteHeader(_) =>
    case WritePayload(_) =>
  }

  lemma ReceiveTraced(s: State, a: LoopAction, t: Trace)
    requires Inv(s) && LoopEnabled(s, a) && SignalsFollow(s, t) && ResultFollows(s, t)
    requires !a.WriteHeader? && !a.WritePayload?
    ensures SignalsFollow(ApplyLoop(s, a), Seen(t, Loop(a))) && ResultFollows(ApplyLoop(s, a), Seen(t, Loop(a)))
  {
    match a
    case ReceiveInput =>
    case ReceiveChunk =>
    case ReceiveOutputClosed =>
    case ReceiveStatus =>
  }

  lemma EndTraced(s: State, a: EndAction, t: Trace)
    requires Inv(s) && EndEnabled(s, a) && SignalsFollow(s, t) && ResultFollows(s, t)
    ensures SignalsFollow(ApplyEnd(s, a), Seen(t, End(a))) && ResultFollows(ApplyEnd(s, a), Seen(t, End(a)))
  {
    match a
    case GraceReaps =>
    case GraceExpires =>
    case KillReaps =>
    case CloseSession =>
    case CloseTerminal =>
    case CloseConnection =>
  }

  lemma HelperLeavesSignals(s: State, a: HelperAction)
    requires HelperEnabled(s, a)
    ensures var t := ApplyHelper(s, a); t.main == s.main && t.signals == s.signals && t.awaitingExit == s.awaitingExit
  {
    match a
    case TerminalRead(_, _) =>
    case ReaderSeesDone =>
    case ChildExits(_) =>
    case WaitReturns =>
    case ReportStatus =>
    case InputApplies =>
    case PeerFails =>
    case TerminalFails(_) =>
    case ReportInput =>
  }

  lemma ReaderTraced(s: State, a: HelperAction, t: Trace)
    requires HelperEnabled(s, a) && (a.TerminalRead? || a.ReaderSeesDone?) && ResultFollows(s, t)
    ensures Seen(t, Helper(a)) == t && ResultFollows(ApplyHelper(s, a), t)
  {
  }

  lemma OtherTraced(s: State, a: HelperAction, t: Trace)
    requires Inv(s) && HelperEnabled(s, a) && ResultFollows(s, t) && !a.TerminalRead? && !a.ReaderSeesDone?
    ensures ResultFollows(ApplyHelper(s, a), Seen(t, Helper(a)))
  {
    match a
    case ChildExits(_) =>
    case WaitReturns =>
    case ReportStatus =>
    case InputApplies =>
    case PeerFails =>
    case TerminalFails(_) =>
    case ReportInput =>
  }

  lemma HelperTraced(s: State, a: HelperAction, t: Trace)
    requires Inv(s) && HelperEnabled(s, a) && SignalsFollow(s, t) && ResultFollows(s, t)
    ensures SignalsFollow(ApplyHelper(s, a), Seen(t, Helper(a))) && ResultFollows(ApplyHelper(s, a), Seen(t, Helper(a)))
  {
    HelperLeavesSignals(s, a);
    if a.TerminalRead? || a.ReaderSeesDone? { ReaderTraced(s, a, t); } else { OtherTraced(s, a, t); }
  }

  lemma {:induction false} RunTraced(s: State, actions: seq<Action>, t: Trace)
    requires Inv(s) && IsRun(s, actions) && SignalsFollow(s, t) && ResultFollows(s, t)
    ensures SignalsFollow(After(s, actions), SeenAll(t, actions)) && ResultFollows(After(s, actions), SeenAll(t, actions))
    decreases |actions|
  {
    if actions != [] {
      var a := actions[0];
      StepKeeps(s, a);
      match a {
        case Loop(l) => if l.WriteHeader? || l.WritePayload? { WriteTraced(s, l, t); } else { ReceiveTraced(s, l, t); }
        case End(e) => EndTraced(s, e, t);
        case Helper(h) => HelperTraced(s, h, t);
      }
      RunTraced(Apply(s, a), actions[1..], Seen(t, a));
    }
  }

  /** Which signals a run sends: none while the loop goes on, and none once the loop has received the exit
      status by itself; otherwise a hang-up, and a kill exactly if the grace period expired before the
      status came. */
  lemma SignalsSent(stream: seq<Byte>, ending: Ending, actions: seq<Action>)
    requires IsRun(Init(stream, ending), actions)
    ensures var s := After(Init(stream, ending), actions);
      && (Kill in s.signals <==> End(GraceExpires) in actions)
      && (Hangup in s.signals <==> !s.main.Looping() && Loop(ReceiveStatus) !in actions)
      && s.signals <= [Hangup, Kill]
  {
    InitInv(stream, ending);
    RunTraced(Init(stream, ending), actions, Trace(false, false, false, false));
    SeenAllIs(Trace(false, false, false, false), actions);
  }

  /** Receiving the exit status, wherever that happens, sends no signal. */
  lemma ReapingSignalsNothing(s: State, a: Action)
    requires Inv(s) && Enabled(s, a) && Apply(s, a).reaped != s.reaped
    ensures Apply(s, a).signals == s.signals
  {
    match a
    case Loop(l) => LoopReaps(s, l);
    case End(e) => EndReaps(s, e);
    case Helper(h) => HelperReapsNothing(s, h);
  }

  lemma LoopReaps(s: State, a: LoopAction)
    requires Inv(s) && LoopEnabled(s, a)
    ensures ApplyLoop(s, a).reaped != s.reaped ==> ApplyLoop(s, a).signals == s.signals
  {
    if a.WriteHeader? || a.WritePayload? { WriteOnlyWrites(s, a); } else { ReceiveReaps(s, a); }
  }

  lemma ReceiveReaps(s: State, a: LoopAction)
    requires LoopEnabled(s, a) && !a.WriteHeader? && !a.WritePayload?
    ensures ApplyLoop(s, a).reaped != s.reaped ==> ApplyLoop(s, a).signals == s.signals
  {
    match a
    case ReceiveInput =>
    case ReceiveChunk =>
    case ReceiveOutputClosed =>
    case ReceiveStatus =>
  }

  lemma EndReaps(s: State, a: EndAction)
    requires EndEnabled(s, a) && ApplyEnd(s, a).reaped != s.reaped
    ensures ApplyEnd(s, a).signals == s.signals
  {
    match a
    case GraceReaps =>
    case GraceExpires =>
    case KillReaps =>
    case CloseSession =>
    case CloseTerminal =>
    case CloseConnection =>
  }

  lemma HelperReapsNothing(s: State, a: HelperAction)
    requires HelperEnabled(s, a)
    ensures ApplyHelper(s, a).reaped == s.reaped
  {
    match a
    case TerminalRead(_, _) =>
    case ReaderSeesDone =>
    case ChildExits(_) =>
    case WaitReturns =>
    case ReportStatus =>
    case InputApplies =>
    case PeerFails =>
    case TerminalFails(_) =>
    case ReportInput =>
  }

  /** What a session that has ended reports: completion with the exit frame sent; the terminal's failure
      when it heard of one from the input side; and otherwise the peer's. */
  lemma ResultReported(stream: seq<Byte>, ending: Ending, actions: seq<Action>)
    requires IsRun(Init(stream, ending), actions) && !After(Init(stream, ending), actions).main.Looping()
    ensures var s := After(Init(stream, ending), actions);
      s.main.result ==
      if HasExit(s.sent) then Completed
      else if Loop(ReceiveInput) in actions && exists a <- actions :: FailsTerminal(a) then TerminalError
      else PeerError
  {
    InitInv(stream, ending);
    RunTraced(Init(stream, ending), actions, Trace(false, false, false, false));
    SeenAllIs(Trace(false, false, false, false), actions);
    OutputThenExit(stream, ending, actions);
  }

  /** A closed terminal is silent: nothing more is read off it, and it undergoes nothing more. */
  lemma ClosedTerminalIsSilent(s: State, a: HelperAction)
    requires HelperEnabled(s, a) && !s.terminalOpen
    ensures ApplyHelper(s, a).output == s.output && ApplyHelper(s, a).intake.events == s.intake.events
  {
    match a
    case TerminalRead(chunk, _) => assert chunk == [];
    case ReaderSeesDone =>
    case ChildExits(_) =>
    case WaitReturns =>
    case ReportStatus =>
    case InputApplies =>
    case PeerFails =>
    case TerminalFails(_) => assert s.intake.NextEvents()[..0] == [];
    case ReportInput =>
  }

  /** Whatever a read of the terminal can give, up to a full buffer, is offered and forwarded as one frame. */
  lemma ChunkIsForwarded(s: State, chunk: seq<Byte>)
    requires Inv(s) && s.main.Selecting? && s.outputOpen && s.reader.Reading? && s.terminalOpen
    requires 1 <= |chunk| <= 65536
    ensures var read := Helper(TerminalRead(chunk, false));
      && Enabled(s, read)
      && var t := Apply(s, read);
      && Enabled(t, Loop(ReceiveChunk)) && Apply(t, Loop(ReceiveChunk)).main == WritingHeader(Frame(0, chunk))
      && Apply(t, Loop(ReceiveChunk)).reader.Reading?
  {
  }

  // ----- One write of a frame -----

  /** What writing a frame may leave behind, all of it on success and a proper part on failure, is what
      one write of the header, perhaps followed by one of the payload, leaves behind here; and the other
      way round. */
  lemma WriteIsSteps(s: State, ok: bool, written: seq<Byte>) returns (actions: seq<Action>)
    requires Inv(s) && s.main.WritingHeader?
    requires if ok then written == Encode(s.main.frame) else written < Encode(s.main.frame)
    ensures IsRun(s, actions) && |actions| <= 2
    ensures var t := After(s, actions);
      && AllFit(s.sent) && AllFit(t.sent) && Wire(t) == Wire(s) + written
      && t.sent == (if ok then s.sent + [s.main.frame] else s.sent)
      && (!ok ==> !t.main.Looping() && t.main.result == PeerError)
  {
    if |written| < HEADER_SIZE {
      actions := [Loop(WriteHeader(|written|))];
      OneStep(s, actions[0]);
      TornHeader(s, written);
    } else {
      var header, payload := WriteHeader(HEADER_SIZE), WritePayload(|written| - HEADER_SIZE);
      actions := [Loop(header), Loop(payload)];
      HeaderThenPayload(s, ok, written);
      TwoSteps(s, Loop(header), Loop(payload));
    }
  }

  lemma OneStep(s: State, a: Action)
    requires Enabled(s, a)
    ensures IsRun(s, [a]) && After(s, [a]) == Apply(s, a)
  {
    var t := Apply(s, a);
    assert [a][1..] == [];
    assert IsRun(t, []) && After(t, []) == t;
  }

  lemma TwoSteps(s: State, first: Action, second: Action)
    requires Enabled(s, first) && Enabled(Apply(s, first), second)
    ensures IsRun(s, [first, second]) && After(s, [first, second]) == Apply(Apply(s, first), second)
  {
    var t := Apply(s, first);
    OneStep(t, second);
    assert [first, second][1..] == [second];
  }

  lemma TornHeader(s: State, written: seq<Byte>)
    requires Inv(s) && s.main.WritingHeader? && written < Encode(s.main.frame) && |written| < HEADER_SIZE
    ensures var t := ApplyLoop(s, WriteHeader(|written|));
      && AllFit(s.sent) && t.sent == s.sent && Wire(t) == Wire(s) + written
      && !t.main.Looping() && t.main.result == PeerError
  {
    var t := ApplyLoop(s, WriteHeader(|written|));
    assert Header(s.main.frame)[..|written|] == written;
    assert s.torn == [] && t.torn == written && t.sent == s.sent;
  }

  lemma HeaderThenPayload(s: State, ok: bool, written: seq<Byte>)
    requires Inv(s) && s.main.WritingHeader? && |written| >= HEADER_SIZE
    requires if ok then written == Encode(s.main.frame) else written < Encode(s.main.frame)
    ensures var middle, payload := ApplyLoop(s, WriteHeader(HEADER_SIZE)), WritePayload(|written| - HEADER_SIZE);
      && LoopEnabled(middle, payload)
      && var t := ApplyLoop(middle, payload);
      && AllFit(s.sent) && AllFit(t.sent) && Wire(t) == Wire(s) + written
      && t.sent == (if ok then s.sent + [s.main.frame] else s.sent)
      && (!ok ==> !t.main.Looping() && t.main.result == PeerError)
  {
    var f, count := s.main.frame, |written| - HEADER_SIZE;
    var middle := ApplyLoop(s, WriteHeader(HEADER_SIZE));
    assert middle.torn == Header(f) && middle.sent == s.sent && middle.main == WritingPayload(f);
    assert written == Header(f) + f.payload[..count];
    assert ok <==> count == |f.payload|;
    var t := ApplyLoop(middle, WritePayload(count));
    if ok {
      OneMoreFrame(s.sent, f);
      assert t.sent == s.sent + [f] && t.torn == [];
      Associative(EncodeAll(s.sent), Header(f), f.payload);
    } else {
      assert t.sent == s.sent && t.torn == written;
    }
  }

  lemma StepsAreWrite(s: State, header: LoopAction, payload: LoopAction)
    requires Inv(s) && s.main.WritingHeader? && header.WriteHeader? && payload.WritePayload?
    requires LoopEnabled(s, header)
    ensures header.count < HEADER_SIZE ==>
      var t := ApplyLoop(s, header);
      t.sent == s.sent && !t.main.Looping() && t.torn < Encode(s.main.frame)
    ensures header.count == HEADER_SIZE && LoopEnabled(ApplyLoop(s, header), payload) ==>
      var t := ApplyLoop(ApplyLoop(s, header), payload);
      if payload.count == |s.main.frame.payload| then t.sent == s.sent + [s.main.frame] && t.torn == []
      else t.sent == s.sent && !t.main.Looping() && t.torn < Encode(s.main.frame)
  {
  }

  // ----- Progress -----

  /** The actions that are sure to happen once possible: every step of the program but a write to an
      open connection, which waits for the peer to read; and of its surroundings that a killed child
      exits and that closed terminals and connections fail reads. */
  predicate Guaranteed(s: State, a: Action) {
    && Enabled(s, a)
    && match a
       case Helper(TerminalRead(_, _)) => !s.terminalOpen
       case Helper(ChildExits(_)) => Kill in s.signals
       case Helper(InputApplies) => false
       case Helper(PeerFails) => !s.connectionOpen
       case Helper(TerminalFails(_)) => false
       case Loop(WriteHeader(_)) => !s.connectionOpen
       case Loop(WritePayload(_)) => !s.connectionOpen
       case _ => true
  }

  ghost predicate CanStep(s: State) {
    exists a :: Guaranteed(s, a)
  }

  /** The session is open and waits only for its surroundings: for the peer, and for the child to
      exit or the terminal to give output, or both. */
  predicate Idle(s: State) {
    && s.main.Selecting?
    && s.input.Listening? && s.connectionOpen
    && (s.awaitingExit ==> s.waiter.Waiting? && s.child.Running?)
    && (s.outputOpen ==> s.reader.Reading? && s.terminalOpen)
  }

  /** A write waits for the peer to read, and everything else waits too: for that write to return, or
      for its surroundings, or it has finished. */
  predicate Stalled(s: State) {
    && (s.main.WritingHeader? || s.main.WritingPayload?) && s.connectionOpen
    && ((s.waiter.Waiting? && s.child.Running?) || s.waiter.WaiterGone?)
    && (s.input.Listening? || s.input.InputGone?)
    && ((s.reader.Reading? && s.terminalOpen) || s.reader.Offering? || s.reader.ReaderGone?)
  }

  predicate AllGone(s: State) {
    s.main.Closed? && s.reader.ReaderGone? && s.waiter.WaiterGone? && s.input.InputGone?
  }

  lemma WritingProgress(s: State)
    requires Inv(s) && (s.main.WritingHeader? || s.main.WritingPayload?) && !Stalled(s)
    ensures CanStep(s)
  {
    if s.input.Answering? {
      assert Guaranteed(s, Helper(ReportInput));
    } else if s.waiter.Reporting? {
      assert Guaranteed(s, Helper(ReportStatus));
    } else {
      assert Guaranteed(s, Helper(WaitReturns));
    }
  }

  lemma MainProgress(s: State)
    requires Inv(s) && !s.main.Closed? && !Idle(s) && !Stalled(s)
    ensures CanStep(s)
  {
    match s.main
    case Selecting =>
      var waiterMoves := match s.waiter
        case Waiting => Helper(WaitReturns)
        case Reporting(_) => Helper(ReportStatus)
        case WaiterGone => Loop(ReceiveStatus);
      var inputMoves := if s.input.Answering? then Helper(ReportInput) else Loop(ReceiveInput);
      var outputMoves := if s.reader.Offering? then Loop(ReceiveChunk) else Loop(ReceiveOutputClosed);
      assert Guaranteed(s, waiterMoves) || Guaranteed(s, inputMoves) || Guaranteed(s, outputMoves);
    case WritingHeader(_) => WritingProgress(s);
    case WritingPayload(_) => WritingProgress(s);
    case AwaitingGrace(_) => assert Guaranteed(s, End(GraceExpires));
    case AwaitingKill(_) =>
      var move := match s.waiter
        case Waiting => if s.child.Running? then Helper(ChildExits(255)) else Helper(WaitReturns)
        case Reporting(_) => Helper(ReportStatus)
        case WaiterGone => End(KillReaps);
      assert Guaranteed(s, move);
    case ClosingSession(_) => assert Guaranteed(s, End(CloseSession));
    case ClosingTerminal(_) => assert Guaranteed(s, End(CloseTerminal));
    case ClosingConnection(_) => assert Guaranteed(s, End(CloseConnection));
  }

  lemma HelperProgress(s: State)
    requires Inv(s) && s.main.Closed? && !AllGone(s)
    ensures CanStep(s)
  {
    if s.reader.Reading? {
      assert Guaranteed(s, Helper(TerminalRead([], true)));
    } else if s.reader.Offering? {
      assert Guaranteed(s, Helper(ReaderSeesDone));
    } else if s.input.Listening? {
      assert Guaranteed(s, Helper(PeerFails));
    } else {
      assert s.inputDone == None;
      assert Guaranteed(s, Helper(ReportInput));
    }
  }

  /** No deadlock: whatever happened, either a step is sure to follow, or the open session waits for
      its surroundings alone, or for the peer to read what it writes, or `Run` has returned and every
      goroutine has finished. */
  lemma NoDeadlock(stream: seq<Byte>, ending: Ending, actions: seq<Action>)
    requires IsRun(Init(stream, ending), actions)
    ensures var s := After(Init(stream, ending), actions); CanStep(s) <==> !Idle(s) && !Stalled(s) && !AllGone(s)
  {
    InitInv(stream, ending);
    RunKeeps(Init(stream, ending), actions);
    var s := After(Init(stream, ending), actions);
    if Idle(s) || Stalled(s) || AllGone(s) {
      WaitingStops(s);
    } else if s.main.Closed? {
      HelperProgress(s);
    } else {
      MainProgress(s);
    }
  }

  lemma WaitingStops(s: State)
    requires Inv(s) && (Idle(s) || Stalled(s) || AllGone(s))
    ensures !CanStep(s)
  {
  }

  // ----- Bounded work -----

  function MainRank(m: Main): nat {
    match m
    case Selecting => 10
    case WritingHeader(f) => if f.kind == DATA then 12 else 9
    case WritingPayload(f) => if f.kind == DATA then 11 else 8
    case AwaitingGrace(_) => 5
    case AwaitingKill(_) => 4
    case ClosingSession(_) => 3
    case ClosingTerminal(_) => 2
    case ClosingConnection(_) => 1
    case Closed(_) => 0
  }

  function HelperRank(s: State): nat {
    (match s.waiter case Waiting => 2 case Reporting(_) => 1 case WaiterGone => 0) +
    (match s.input case Listening => 2 case Answering(_) => 1 case InputGone => 0) +
    (if s.child.Running? then 1 else 0)
  }

  function Rank(s: State): nat {
    MainRank(s.main) + HelperRank(s) +
    (if s.outputOpen then 1 else 0) + (if s.awaitingExit then 1 else 0) +
    (match s.reader case Reading => 4 case Offering(_, last) => if last then 3 else 7 case ReaderGone => 0)
  }

  /** What is left to do once the loop has ended and nobody takes offered output any more. */
  function EndRank(s: State): nat {
    MainRank(s.main) + HelperRank(s) +
    (match s.reader case Reading => 2 case Offering(_, _) => 1 case ReaderGone => 0)
  }

  /** How many steps an event from outside can cause: a chunk of output four, a frame of input one. */
  function Energy(a: Action): nat {
    match a
    case Helper(TerminalRead(_, false)) => 4
    case Helper(InputApplies) => 1
    case _ => 0
  }

  function TotalEnergy(actions: seq<Action>): nat {
    if actions == [] then 0 else Energy(actions[0]) + TotalEnergy(actions[1..])
  }

  lemma RankReceive(s: State, a: LoopAction)
    requires Inv(s) && LoopEnabled(s, a) && !a.WriteHeader? && !a.WritePayload?
    ensures Rank(ApplyLoop(s, a)) < Rank(s)
  {
    match a
    case ReceiveInput =>
    case ReceiveChunk =>
    case ReceiveOutputClosed =>
    case ReceiveStatus =>
  }

  lemma RankWrite(s: State, a: LoopAction)
    requires Inv(s) && LoopEnabled(s, a) && (a.WriteHeader? || a.WritePayload?)
    ensures Rank(ApplyLoop(s, a)) < Rank(s)
  {
    var t := ApplyLoop(s, a);
    assert MainRank(t.main) < MainRank(s.main);
    assert t.reader == s.reader && HelperRank(t) == HelperRank(s);
  }

  lemma RankEnd(s: State, a: EndAction)
    requires EndEnabled(s, a)
    ensures Rank(ApplyEnd(s, a)) < Rank(s) && EndRank(ApplyEnd(s, a)) < EndRank(s)
  {
  }

  lemma RankReader(s: State, a: HelperAction)
    requires HelperEnabled(s, a) && (a.TerminalRead? || a.ReaderSeesDone?)
    ensures Rank(ApplyHelper(s, a)) < Rank(s) + Energy(Helper(a))
  {
    var t := ApplyHelper(s, a);
    assert MainRank(t.main) == MainRank(s.main) && HelperRank(t) == HelperRank(s);
  }

  lemma RankHelper(s: State, a: HelperAction)
    requires HelperEnabled(s, a) && !a.TerminalRead? && !a.ReaderSeesDone?
    ensures Rank(ApplyHelper(s, a)) < Rank(s) + Energy(Helper(a))
  {
    match a
    case ChildExits(_) =>
    case WaitReturns =>
    case ReportStatus =>
    case InputApplies =>
    case PeerFails =>
    case TerminalFails(_) =>
    case ReportInput =>
  }

  lemma EndRankReader(s: State, a: HelperAction)
    requires HelperEnabled(s, a) && (a.TerminalRead? || a.ReaderSeesDone?)
    ensures EndRank(ApplyHelper(s, a)) < EndRank(s)
  {
    var t := ApplyHelper(s, a);
    assert t.main == s.main && HelperRank(t) == HelperRank(s);
  }

  lemma EndRankOther(s: State, a: HelperAction)
    requires HelperEnabled(s, a) && !a.TerminalRead? && !a.ReaderSeesDone?
    ensures if a.InputApplies? then EndRank(ApplyHelper(s, a)) == EndRank(s) else EndRank(ApplyHelper(s, a)) < EndRank(s)
  {
    var t := ApplyHelper(s, a);
    assert t.main == s.main && t.reader == s.reader;
    assert if a.InputApplies? then HelperRank(t) == HelperRank(s) else HelperRank(t) < HelperRank(s);
  }

  lemma RankStep(s: State, a: Action)
    requires Inv(s) && Enabled(s, a)
    ensures Rank(Apply(s, a)) < Rank(s) + Energy(a)
  {
    match a
    case Loop(l) => if l.WriteHeader? || l.WritePayload? { RankWrite(s, l); } else { RankReceive(s, l); }
    case End(e) => RankEnd(s, e);
    case Helper(h) => if h.TerminalRead? || h.ReaderSeesDone? { RankReader(s, h); } else { RankHelper(s, h); }
  }

  /** The session never spins: in every run, from anywhere, the number of steps is bounded by what
      came from outside. From the start the bound is 21 and four per chunk and one per input frame. */
  lemma {:induction false} BoundedWork(s: State, actions: seq<Action>)
    requires Inv(s) && IsRun(s, actions)
    ensures Rank(After(s, actions)) + |actions| <= Rank(s) + TotalEnergy(actions)
    ensures (forall stream, ending :: Rank(Init(stream, ending)) == 21)
    decreases |actions|
  {
    if actions != [] {
      RankStep(s, actions[0]);
      StepKeeps(s, actions[0]);
      BoundedWork(Apply(s, actions[0]), actions[1..]);
    }
  }

  /** What comes from outside is bytes: at least one of output in a chunk, at least five in a frame. */
  lemma StepTakesBytes(s: State, a: Action)
    requires Inv(s) && Enabled(s, a)
    ensures var t := Apply(s, a);
      && 5 * Energy(a) + |t.intake.stream| <= 20 * (|t.output| - |s.output|) + |s.intake.stream|
      && 5 * Applied([a]) + |t.intake.stream| <= |s.intake.stream|
  {
    match a
    case Loop(l) => LoopTakesNothing(s, l);
    case End(e) => EndTakesNothing(s, e);
    case Helper(h) => HelperTakesBytes(s, h);
  }

  lemma LoopTakesNothing(s: State, a: LoopAction)
    requires Inv(s) && LoopEnabled(s, a)
    ensures ApplyLoop(s, a).output == s.output && ApplyLoop(s, a).intake == s.intake
  {
    if a.WriteHeader? || a.WritePayload? { WriteOnlyWrites(s, a); } else { ReceiveTakesNothing(s, a); }
  }

  lemma ReceiveTakesNothing(s: State, a: LoopAction)
    requires LoopEnabled(s, a) && !a.WriteHeader? && !a.WritePayload?
    ensures ApplyLoop(s, a).output == s.output && ApplyLoop(s, a).intake == s.intake
  {
    match a
    case ReceiveInput =>
    case ReceiveChunk =>
    case ReceiveOutputClosed =>
    case ReceiveStatus =>
  }

  lemma EndTakesNothing(s: State, a: EndAction)
    requires EndEnabled(s, a)
    ensures ApplyEnd(s, a).output == s.output && ApplyEnd(s, a).intake == s.intake
  {
    match a
    case GraceReaps =>
    case GraceExpires =>
    case KillReaps =>
    case CloseSession =>
    case CloseTerminal =>
    case CloseConnection =>
  }

  lemma HelperTakesBytes(s: State, a: HelperAction)
    requires HelperEnabled(s, a)
    ensures var t := ApplyHelper(s, a);
      && 5 * Energy(Helper(a)) + |t.intake.stream| <= 20 * (|t.output| - |s.output|) + |s.intake.stream|
      && 5 * Applied([Helper(a)]) + |t.intake.stream| <= |s.intake.stream|
  {
    match a
    case TerminalRead(_, _) =>
    case ReaderSeesDone =>
    case ChildExits(_) =>
    case WaitReturns =>
    case ReportStatus =>
    case InputApplies =>
    case PeerFails =>
    case TerminalFails(_) =>
    case ReportInput =>
  }

  lemma {:induction false} RunTakesBytes(s: State, actions: seq<Action>)
    requires Inv(s) && IsRun(s, actions)
    ensures var t := After(s, actions);
      && 5 * TotalEnergy(actions) + |t.intake.stream| <= 20 * (|t.output| - |s.output|) + |s.intake.stream|
      && 5 * Applied(actions) + |t.intake.stream| <= |s.intake.stream|
    decreases |actions|
  {
    if actions != [] {
      StepTakesBytes(s, actions[0]);
      StepKeeps(s, actions[0]);
      RunTakesBytes(Apply(s, actions[0]), actions[1..]);
    }
  }

  /** The length of any run by bytes alone: 21 steps, four for each byte of output, and one for every
      five bytes the peer sends. */
  lemma BoundedByBytes(stream: seq<Byte>, ending: Ending, actions: seq<Action>)
    requires IsRun(Init(stream, ending), actions)
    ensures 5 * |actions| <= 5 * 21 + 20 * |After(Init(stream, ending), actions).output| + |stream|
  {
    InitInv(stream, ending);
    BoundedWork(Init(stream, ending), actions);
    RunTakesBytes(Init(stream, ending), actions);
  }

  function Applied(actions: seq<Action>): nat {
    if actions == [] then 0 else (if actions[0] == Helper(InputApplies) then 1 else 0) + Applied(actions[1..])
  }

  lemma EndRankStep(s: State, a: Action)
    requires Inv(s) && Enabled(s, a) && !s.main.Looping()
    ensures var t := Apply(s, a);
      && !t.main.Looping() && (!s.terminalOpen ==> !t.terminalOpen)
      && if a == Helper(InputApplies) then s.terminalOpen && EndRank(t) == EndRank(s) else EndRank(t) < EndRank(s)
  {
    match a
    case End(e) => RankEnd(s, e);
    case Helper(h) =>
      if h.TerminalRead? || h.ReaderSeesDone? { EndRankReader(s, h); } else { EndRankOther(s, h); }
  }

  /** Once the loop has ended, whichever side ended it, at most twelve more steps happen besides input
      frames still reaching the open terminal; with the terminal closed there are none of those
      either; and the run stops only when `Run` has returned and no goroutine is left. */
  lemma {:induction false} WindDown(s: State, actions: seq<Action>)
    requires Inv(s) && IsRun(s, actions) && !s.main.Looping()
    ensures var t := After(s, actions);
      && |actions| + EndRank(t) <= EndRank(s) + Applied(actions)
      && EndRank(s) <= 12
      && (!s.terminalOpen ==> Applied(actions) == 0)
      && (!CanStep(t) ==> AllGone(t))
    decreases |actions|
  {
    if actions == [] {
      if !AllGone(s) {
        if s.main.Closed? { HelperProgress(s); } else { MainProgress(s); }
      }
    } else {
      EndRankStep(s, actions[0]);
      StepKeeps(s, actions[0]);
      WindDown(Apply(s, actions[0]), actions[1..]);
    }
  }

  // ----- End to end -----

  lemma PayloadGrowsWire(s: State, a: LoopAction)
    requires Inv(s) && LoopEnabled(s, a) && a.WritePayload?
    ensures AllFit(ApplyLoop(s, a).sent) && Wire(s) <= Wire(ApplyLoop(s, a))
  {
    var f, t := s.main.frame, ApplyLoop(s, a);
    if a.count == |f.payload| {
      OneMoreFrame(s.sent, f);
      assert t.sent == s.sent + [f] && t.torn == [];
    } else {
      assert t.sent == s.sent && t.torn == s.torn + f.payload[..a.count];
    }
  }

  lemma OneMoreFrame(frames: seq<Frame>, f: Frame)
    requires AllFit(frames) && Fits(f)
    ensures AllFit(frames + [f]) && EncodeAll(frames + [f]) == EncodeAll(frames) + Header(f) + f.payload
  {
    EncodeAllAppend(frames, [f]);
    assert EncodeAll([f]) == Encode(f) + EncodeAll([]) == Encode(f);
    Associative(EncodeAll(frames), Header(f), f.payload);
  }

  lemma LoopKeepsSent(s: State, a: LoopAction)
    requires Inv(s) && LoopEnabled(s, a) && !a.WritePayload?
    ensures ApplyLoop(s, a).sent == s.sent && s.torn <= ApplyLoop(s, a).torn
  {
  }

  lemma EndKeepsSent(s: State, a: EndAction)
    requires EndEnabled(s, a)
    ensures ApplyEnd(s, a).sent == s.sent && ApplyEnd(s, a).torn == s.torn
  {
    match a
    case GraceReaps =>
    case GraceExpires =>
    case KillReaps =>
    case CloseSession =>
    case CloseTerminal =>
    case CloseConnection =>
  }

  lemma HelperKeepsSent(s: State, a: HelperAction)
    requires HelperEnabled(s, a)
    ensures ApplyHelper(s, a).sent == s.sent && ApplyHelper(s, a).torn == s.torn
  {
    match a
    case TerminalRead(_, _) =>
    case ReaderSeesDone =>
    case ChildExits(_) =>
    case WaitReturns =>
    case ReportStatus =>
    case InputApplies =>
    case PeerFails =>
    case TerminalFails(_) =>
    case ReportInput =>
  }

  lemma TornGrowsWire(s: State, t: State)
    requires AllFit(s.sent) && t.sent == s.sent && s.torn <= t.torn
    ensures Wire(s) <= Wire(t)
  {
  }

  /** Bytes once written stay written: the wire only grows. */
  lemma WireGrows(s: State, a: Action)
    requires Inv(s) && Enabled(s, a)
    ensures AllFit(s.sent) && AllFit(Apply(s, a).sent) && Wire(s) <= Wire(Apply(s, a))
  {
    if a.Loop? && a.loop.WritePayload? {
      PayloadGrowsWire(s, a.loop);
    } else {
      match a {
        case Loop(l) => LoopKeepsSent(s, l);
        case End(e) => EndKeepsSent(s, e);
        case Helper(h) => HelperKeepsSent(s, h);
      }
      TornGrowsWire(s, Apply(s, a));
    }
  }

  /** Reading frames off everything a session wrote gives exactly the complete frames. */
  lemma ReadBack(s: State, ending: Ending)
    requires Inv(s)
    ensures AllFit(s.sent)
    ensures DecodeAll(Wire(s), ending) ==
            Frames(s.sent, if |s.torn| in {0, HEADER_SIZE} then ending else Short(1, ending))
  {
    var f := if s.main.WritingPayload? then s.main.frame
      else if s.main.Looping() then ExitFrame(0)
      else var f :| AgentFrame(f) && s.torn < Encode(f); f;
    assert AgentFrame(f) && s.torn < Encode(f);
    TornIsRefused(f, s.torn, ending);
    DecodeEncodeAll(s.sent, s.torn, ending);
    assert s.sent + [] == s.sent;
  }

  /** End to end, for every run and every later moment: what a peer decodes is a leading part of the
      terminal's output, and an exit status only if the session completed; then it is the child's own,
      after all of the output, and the stream ends cleanly behind it. */
  lemma PeerSeesOutputThenExit(stream: seq<Byte>, ending: Ending, actions: seq<Action>, end: Ending)
    requires IsRun(Init(stream, ending), actions)
    ensures var s := After(Init(stream, ending), actions);
      && AllFit(s.sent)
      && var got := DecodeAll(Wire(s), end);
      && Carried(got.frames) <= s.output
      && (HasExit(got.frames) <==> !s.main.Looping() && s.main.result == Completed)
      && (HasExit(got.frames) ==>
          && s.child.Exited? && got.frames[|got.frames| - 1] == ExitFrame(s.child.status)
          && !HasExit(got.frames[..|got.frames| - 1])
          && Carried(got.frames) == s.output && s.outputFailed
          && got.failure == end)
  {
    InitInv(stream, ending);
    RunKeeps(Init(stream, ending), actions);
    OutputThenExit(stream, ending, actions);
    var s := After(Init(stream, ending), actions);
    ReadBack(s, end);
    var got := DecodeAll(Wire(s), end);
    assert got.frames == s.sent;
    if HasExit(s.sent) {
      assert s.torn == [] && got.failure == end;
      ExitOnlyLast(s.sent);
    }
  }

  lemma ExitOnlyLast(frames: seq<Frame>)
    requires HasExit(frames) && forall i :: 0 <= i < |frames| && frames[i].kind == EXIT ==> i == |frames| - 1
    ensures frames[|frames| - 1].kind == EXIT && !HasExit(frames[..|frames| - 1])
  {
  }

  /** The exit frame on the wire. */
  lemma ExitFrameBytes(status: Byte)
    ensures Fits(ExitFrame(status)) && Encode(ExitFrame(status)) == [2, 0, 0, 0, 1, status]
  {
    HeaderBytes(ExitFrame(status));
  }

  /** A frame of terminal output on the wire. */
  lemma OutputFrameBytes(f: Frame)
    requires AgentFrame(f) && f.kind != 2
    ensures Encode(f)[0] == 0 && Carried([f]) == f.payload
  {
    HeaderBytes(f);
    assert [f][..0] == [];
  }
}
