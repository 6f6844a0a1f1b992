/** The port relay: two copiers, one for each direction, a completion channel with room for both,
    and the main routine that closes both connections as soon as one copier ends. */
module Relay {
  import opened Common

  datatype Copier = Copying | Writing(chunk: seq<Byte>, last: bool) | Signalling | Ended

  /** One direction: what its source has given so far, how much of that its copier has read, and what
      has been written to its destination. */
  datatype Flow = Flow(stream: seq<Byte>, taken: nat, delivered: seq<Byte>, copier: Copier)

  datatype Side = ToService | ToPeer

  datatype Main = Waiting | ClosingPeer | ClosingService | WaitingAgain | Returned

  datatype State = State(main: Main, signals: nat, toService: Flow, toPeer: Flow, peerOpen: bool, serviceOpen: bool)
  {
    function At(side: Side): Flow {
      if side == ToService then toService else toPeer
    }

    function With(side: Side, flow: Flow): State {
      if side == ToService then this.(toService := flow) else this.(toPeer := flow)
    }

    predicate SourceOpen(side: Side) {
      if side == ToService then peerOpen else serviceOpen
    }

    predicate DestinationOpen(side: Side) {
      if side == ToService then serviceOpen else peerOpen
    }
  }

  const CAPACITY := 2

  /** The bytes the request reader had already buffered are the beginning of the peer's stream. */
  function Init(buffered: seq<Byte>): State {
    State(Waiting, 0, Flow(buffered, 0, [], Copying), Flow([], 0, [], Copying), true, true)
  }

  datatype Action =
    | Arrive(side: Side, bytes: seq<Byte>)
    | Take(side: Side, count: nat, failed: bool)
    | Write(side: Side, count: nat)
    | Signal(side: Side)
    | ReceiveFirst
    | ClosePeer
    | CloseService
    | ReceiveSecond

  predicate Enabled(s: State, a: Action) {
    match a
    case Arrive(side, bytes) => s.SourceOpen(side) && bytes != []
    // A read gives bytes or an error, perhaps both.
    case Take(side, count, failed) =>
      var f := s.At(side);
      f.copier.Copying? && f.taken + count <= |f.stream| && (count == 0 ==> failed)
    // A write to a closed connection takes nothing.
    case Write(side, count) =>
      var f := s.At(side);
      && f.copier.Writing? && count <= |f.copier.chunk|
      && (!s.DestinationOpen(side) ==> count == 0)
    case Signal(side) => s.At(side).copier.Signalling? && s.signals < CAPACITY
    case ReceiveFirst => s.main == Waiting && s.signals > 0
    case ClosePeer => s.main == ClosingPeer
    case CloseService => s.main == ClosingService
    case ReceiveSecond => s.main == WaitingAgain && s.signals > 0
  }

  function Apply(s: State, a: Action): State
    requires Enabled(s, a)
  {
    match a
    case Arrive(side, bytes) =>
      var f := s.At(side);
      s.With(side, f.(stream := f.stream + bytes))
    case Take(side, count, failed) =>
      var f := s.At(side);
      s.With(side, f.(taken := f.taken + count,
                      copier := if count > 0 then Writing(f.stream[f.taken..f.taken + count], failed) else Signalling))
    case Write(side, count) =>
      var f := s.At(side);
      s.With(side, f.(delivered := f.delivered + f.copier.chunk[..count],
                      copier := if count < |f.copier.chunk| || f.copier.last then Signalling else Copying))
    case Signal(side) =>
      s.With(side, s.At(side).(copier := Ended)).(signals := s.signals + 1)
    case ReceiveFirst => s.(main := ClosingPeer, signals := s.signals - 1)
    case ClosePeer => s.(main := ClosingService, peerOpen := false)
    case CloseService => s.(main := WaitingAgain, serviceOpen := false)
    case ReceiveSecond => s.(main := Returned, signals := s.signals - 1)
  }

  predicate IsRun(s: State, actions: seq<Action>)
    decreases |actions|
  {
    actions == [] || (Enabled(s, actions[0]) && IsRun(Apply(s, actions[0]), actions[1..]))
  }

  function After(s: State, actions: seq<Action>): State
    requires IsRun(s, actions)
    decreases |actions|
  {
    if actions == [] then s else After(Apply(s, actions[0]), actions[1..])
  }

  // ----- The invariant -----

  predicate FlowInv(f: Flow) {
    && f.taken <= |f.stream|
    && f.delivered <= f.stream[..f.taken]
    && (f.copier.Copying? ==> f.delivered == f.stream[..f.taken])
    && (f.copier.Writing? ==> f.copier.chunk != [] && f.delivered + f.copier.chunk == f.stream[..f.taken])
  }

  function EndedCount(s: State): nat {
    (if s.toService.copier.Ended? then 1 else 0) + (if s.toPeer.copier.Ended? then 1 else 0)
  }

  function Received(m: Main): nat {
    match m case Waiting => 0 case Returned => 2 case _ => 1
  }

  predicate Inv(s: State, buffered: seq<Byte>) {
    && FlowInv(s.toService) && FlowInv(s.toPeer)
    && s.signals + Received(s.main) == EndedCount(s)
    && (s.peerOpen <==> s.main == Waiting || s.main == ClosingPeer)
    && (s.serviceOpen <==> s.peerOpen || s.main == ClosingService)
    && buffered <= s.toService.stream
  }

  lemma FlowKeeps(s: State, side: Side, a: Action)
    requires FlowInv(s.At(side)) && Enabled(s, a)
    requires (a.Take? || a.Write?) && a.side == side
    ensures FlowInv(Apply(s, a).At(side))
  {
    var f := s.At(side);
    if a.Take? {
      assert f.stream[..f.taken + a.count] == f.stream[..f.taken] + f.stream[f.taken..f.taken + a.count];
      assert f.stream[..f.taken] <= f.stream[..f.taken + a.count];
    } else {
      assert f.delivered + f.copier.chunk[..a.count] <= f.delivered + f.copier.chunk;
      assert f.copier.chunk[..|f.copier.chunk|] == f.copier.chunk;
    }
  }

  lemma StepKeeps(s: State, a: Action, buffered: seq<Byte>)
    requires Inv(s, buffered) && Enabled(s, a)
    ensures Inv(Apply(s, a), buffered)
  {
    if a.Take? || a.Write? {
      FlowKeeps(s, a.side, a);
    }
  }

  lemma {:induction false} RunKeeps(s: State, actions: seq<Action>, buffered: seq<Byte>)
    requires Inv(s, buffered) && IsRun(s, actions)
    ensures Inv(After(s, actions), buffered)
    decreases |actions|
  {
    if actions != [] {
      StepKeeps(s, actions[0], buffered);
      RunKeeps(Apply(s, actions[0]), actions[1..], buffered);
    }
  }

  /** In every run each side receives a leading part of what the other one sent, the bytes buffered
      with the request first. A copier about to signal finds room, and the relay returns only when
      both copiers have ended, after it has closed both connections. */
  lemma RelaySafety(buffered: seq<Byte>, actions: seq<Action>)
    requires IsRun(Init(buffered), actions)
    ensures var s := After(Init(buffered), actions);
      && s.toService.stream == buffered + Arrivals(actions, ToService)
      && s.toPeer.stream == Arrivals(actions, ToPeer)
      && (forall side :: s.At(side).taken <= |s.At(side).stream| &&
                         s.At(side).delivered <= s.At(side).stream[..s.At(side).taken])
      && (forall side :: s.At(side).copier.Signalling? ==> Enabled(s, Signal(side)))
      && (s.main == Returned ==> forall side :: s.At(side).copier.Ended? && !s.SourceOpen(side))
  {
    RunKeeps(Init(buffered), actions, buffered);
    StreamArrives(Init(buffered), actions, ToService);
    StreamArrives(Init(buffered), actions, ToPeer);
  }

  /** What a side has sent in a run. */
  function Arrivals(actions: seq<Action>, side: Side): seq<Byte> {
    if actions == [] then []
    else
      (match actions[0] case Arrive(from, bytes) => (if from == side then bytes else []) case _ => [])
      + Arrivals(actions[1..], side)
  }

  lemma {:induction false} StreamArrives(s: State, actions: seq<Action>, side: Side)
    requires IsRun(s, actions)
    ensures After(s, actions).At(side).stream == s.At(side).stream + Arrivals(actions, side)
    decreases |actions|
  {
    if actions != [] {
      var t := Apply(s, actions[0]);
      StreamArrives(t, actions[1..], side);
      Associative(s.At(side).stream, Arrivals(actions[..1], side), Arrivals(actions[1..], side));
      StreamGrows(s, actions[0], side);
    }
  }

  lemma StreamGrows(s: State, a: Action, side: Side)
    requires Enabled(s, a)
    ensures Apply(s, a).At(side).stream == s.At(side).stream + Arrivals([a], side)
  {
    if a.Arrive? && a.side == side {
      assert Arrivals([a], side) == a.bytes;
    }
  }

  /** A closed connection is silent: no more bytes arrive off it, and none are written to it. */
  lemma ClosedIsSilent(s: State, a: Action)
    requires Enabled(s, a)
    ensures var t := Apply(s, a);
      && (!s.peerOpen ==> t.toService.stream == s.toService.stream && t.toPeer.delivered == s.toPeer.delivered)
      && (!s.serviceOpen ==> t.toPeer.stream == s.toPeer.stream && t.toService.delivered == s.toService.delivered)
  {
    if a.Write? {
      assert s.At(a.side).copier.chunk[..0] == [];
    }
  }

  /** What a copier has read it can write in one piece to an open destination, and then goes on reading,
      unless its source has ended. */
  lemma WritesWhole(s: State, side: Side, buffered: seq<Byte>)
    requires Inv(s, buffered) && s.At(side).copier.Writing? && s.DestinationOpen(side)
    ensures var a := Write(side, |s.At(side).copier.chunk|);
      && Enabled(s, a)
      && var f := Apply(s, a).At(side);
      && f.taken <= |f.stream| && f.delivered == f.stream[..f.taken]
      && f.copier == if s.At(side).copier.last then Signalling else Copying
  {
    FlowKeeps(s, side, Write(side, |s.At(side).copier.chunk|));
    assert s.At(side).copier.chunk[..|s.At(side).copier.chunk|] == s.At(side).copier.chunk;
  }

  // ----- When a copier ends -----

  /** A read of a side that fails, or comes to its end. */
  predicate EndsReading(a: Action, side: Side) {
    a.Take? && a.side == side && a.failed
  }

  /** A write of what was read off a side that takes only a part. */
  predicate WritesShort(s: State, a: Action, side: Side) {
    a.Write? && a.side == side && s.At(side).copier.Writing? && a.count < |s.At(side).copier.chunk|
  }

  /** What has happened to a copier in a run: its source has ended, or a write has come short. */
  datatype Fate = Fate(readEnded: bool, wroteShort: bool)

  function Met(fate: Fate, s: State, a: Action, side: Side): Fate {
    Fate(fate.readEnded || EndsReading(a, side), fate.wroteShort || WritesShort(s, a, side))
  }

  function FateOf(fate: Fate, s: State, actions: seq<Action>, side: Side): Fate
    requires IsRun(s, actions)
    decreases |actions|
  {
    if actions == [] then fate
    else FateOf(Met(fate, s, actions[0], side), Apply(s, actions[0]), actions[1..], side)
  }

  /** A copier copies on until its source ends, writing then what it has read, or a write comes short, and
      no longer; and unless one did, everything it has read has been delivered when it ends. */
  predicate EndFollows(f: Flow, fate: Fate) {
    && f.taken <= |f.stream|
    && (f.copier.Copying? ==> !fate.readEnded && !fate.wroteShort)
    && (f.copier.Writing? ==> (f.copier.last <==> fate.readEnded) && !fate.wroteShort)
    && (f.copier.Signalling? || f.copier.Ended? ==>
        if fate.wroteShort then f.delivered != f.stream[..f.taken]
        else fate.readEnded && f.delivered == f.stream[..f.taken])
  }

  lemma StepEnds(s: State, a: Action, side: Side, fate: Fate, buffered: seq<Byte>)
    requires Inv(s, buffered) && Enabled(s, a) && EndFollows(s.At(side), fate)
    ensures EndFollows(Apply(s, a).At(side), Met(fate, s, a, side))
  {
    StepKeeps(s, a, buffered);
    var f, g := s.At(side), Apply(s, a).At(side);
    if a.Arrive? && a.side == side {
      assert g.stream[..f.taken] == f.stream[..f.taken];
    } else if a.Write? && a.side == side {
      assert f.copier.chunk[..|f.copier.chunk|] == f.copier.chunk;
    }
  }

  lemma {:induction false} RunEnds(s: State, actions: seq<Action>, side: Side, fate: Fate, buffered: seq<Byte>)
    requires Inv(s, buffered) && IsRun(s, actions) && EndFollows(s.At(side), fate)
    ensures EndFollows(After(s, actions).At(side), FateOf(fate, s, actions, side))
    decreases |actions|
  {
    if actions != [] {
      StepEnds(s, actions[0], side, fate, buffered);
      StepKeeps(s, actions[0], buffered);
      RunEnds(Apply(s, actions[0]), actions[1..], side, Met(fate, s, actions[0], side), buffered);
    }
  }

  /** In every run a copier ends just when it must. */
  lemma CopierEnds(buffered: seq<Byte>, actions: seq<Action>, side: Side)
    requires IsRun(Init(buffered), actions)
    ensures EndFollows(After(Init(buffered), actions).At(side),
                       FateOf(Fate(false, false), Init(buffered), actions, side))
  {
    RunEnds(Init(buffered), actions, side, Fate(false, false), buffered);
  }

  // ----- Progress -----

  /** Sure to happen once possible: every step of the program, where a read returns when there are
      bytes or its connection is closed. A write to an open connection waits for that side to read. */
  predicate Guaranteed(s: State, a: Action) {
    && Enabled(s, a)
    && match a
       case Arrive(_, _) => false
       case Take(side, count, failed) =>
         if failed then !s.SourceOpen(side) else s.At(side).taken < |s.At(side).stream|
       case Write(side, _) => !s.DestinationOpen(side)
       case _ => true
  }

  ghost predicate CanStep(s: State) {
    exists a :: Guaranteed(s, a)
  }

  predicate CaughtUp(f: Flow) {
    f.copier.Copying? && f.taken == |f.stream|
  }

  /** A copier waits for bytes that have not come yet, or for its destination to read. */
  predicate Waits(f: Flow) {
    CaughtUp(f) || f.copier.Writing?
  }

  /** Both connections are open and both copiers wait for the outside. */
  predicate Idle(s: State) {
    s.main == Waiting && Waits(s.toService) && Waits(s.toPeer)
  }

  lemma FlowProgress(s: State, side: Side)
    requires Inv(s, []) && !s.At(side).copier.Ended?
    requires CaughtUp(s.At(side)) ==> !s.SourceOpen(side)
    requires s.At(side).copier.Writing? ==> !s.DestinationOpen(side)
    ensures CanStep(s)
  {
    var f := s.At(side);
    var move := match f.copier
      case Copying => if f.taken < |f.stream| then Take(side, 1, false) else Take(side, 0, true)
      case Writing(_, _) => Write(side, 0)
      case _ => Signal(side);
    assert Guaranteed(s, move);
  }

  /** The relay stops only idle or returned. Idle it has delivered everything that arrived, but for what
      a side that does not read keeps it from delivering. */
  lemma NoDeadlock(buffered: seq<Byte>, actions: seq<Action>)
    requires IsRun(Init(buffered), actions)
    ensures var s := After(Init(buffered), actions);
      && (CanStep(s) <==> !Idle(s) && s.main != Returned)
      && (Idle(s) ==> forall side ::
          var f := s.At(side);
          && f.taken <= |f.stream|
          && if f.copier.Writing? then f.delivered + f.copier.chunk == f.stream[..f.taken] else f.delivered == f.stream)
  {
    RunKeeps(Init(buffered), actions, buffered);
    var s := After(Init(buffered), actions);
    if s.main == Waiting && !Idle(s) {
      if s.signals > 0 {
        assert Guaranteed(s, ReceiveFirst);
      } else {
        FlowProgress(s, if Waits(s.toService) then ToPeer else ToService);
      }
    } else if s.main == ClosingPeer {
      assert Guaranteed(s, ClosePeer);
    } else if s.main == ClosingService {
      assert Guaranteed(s, CloseService);
    } else if s.main == WaitingAgain {
      if s.signals > 0 {
        assert Guaranteed(s, ReceiveSecond);
      } else {
        FlowProgress(s, if s.toService.copier.Ended? then ToPeer else ToService);
      }
    }
  }

  function FlowRank(f: Flow): nat
    requires f.taken <= |f.stream|
  {
    3 * (|f.stream| - f.taken) +
    match f.copier case Copying => 2 case Writing(_, _) => 3 case Signalling => 1 case Ended => 0
  }

  function Rank(s: State): nat
    requires s.toService.taken <= |s.toService.stream| && s.toPeer.taken <= |s.toPeer.stream|
  {
    FlowRank(s.toService) + FlowRank(s.toPeer) +
    match s.main
    case Waiting => 4 case ClosingPeer => 3 case ClosingService => 2 case WaitingAgain => 1 case Returned => 0
  }

  function Arrived(actions: seq<Action>): nat {
    if actions == [] then 0
    else (match actions[0] case Arrive(_, bytes) => 3 * |bytes| + 1 case _ => 0) + Arrived(actions[1..])
  }

  lemma RankStep(s: State, a: Action, buffered: seq<Byte>)
    requires Inv(s, buffered) && Enabled(s, a)
    ensures Inv(Apply(s, a), buffered)
    ensures Rank(Apply(s, a)) < Rank(s) + Arrived([a])
    ensures !s.serviceOpen ==> !a.Arrive? && !Apply(s, a).serviceOpen
  {
    StepKeeps(s, a, buffered);
    if a.Arrive? || a.Take? || a.Write? || a.Signal? {
      FlowRankStep(s, a);
    } else {
      MainRankStep(s, a);
    }
  }

  lemma FlowRankStep(s: State, a: Action)
    requires FlowInv(s.toService) && FlowInv(s.toPeer) && Enabled(s, a)
    requires a.Arrive? || a.Take? || a.Write? || a.Signal?
    ensures var t := Apply(s, a); var other := if a.side == ToService then ToPeer else ToService;
      && t.main == s.main && t.At(other) == s.At(other)
      && t.At(a.side).taken <= |t.At(a.side).stream|
      && FlowRank(t.At(a.side)) < FlowRank(s.At(a.side)) + Arrived([a])
  {
  }

  lemma MainRankStep(s: State, a: Action)
    requires FlowInv(s.toService) && FlowInv(s.toPeer) && Enabled(s, a)
    requires !(a.Arrive? || a.Take? || a.Write? || a.Signal?)
    ensures var t := Apply(s, a); t.toService == s.toService && t.toPeer == s.toPeer
    ensures Rank(Apply(s, a)) < Rank(s)
  {
  }

  /** Every run is bounded by the bytes that arrived, and once both connections are closed, which is
      what the first copier to end brings about, nothing more can arrive. */
  lemma {:induction false} BoundedWork(s: State, actions: seq<Action>, buffered: seq<Byte>)
    requires Inv(s, buffered) && IsRun(s, actions)
    ensures Inv(After(s, actions), buffered)
    ensures |actions| + Rank(After(s, actions)) <= Rank(s) + Arrived(actions)
    ensures !s.serviceOpen ==> Arrived(actions) == 0
    decreases |actions|
  {
    if actions != [] {
      RankStep(s, actions[0], buffered);
      assert Arrived([actions[0]]) + Arrived(actions[1..]) == Arrived(actions);
      BoundedWork(Apply(s, actions[0]), actions[1..], buffered);
    }
  }

  /** The length of any run by bytes alone. */
  lemma BoundedByBytes(buffered: seq<Byte>, actions: seq<Action>)
    requires IsRun(Init(buffered), actions)
    ensures |actions| <= 8 + 3 * |buffered| + 4 * (|Arrivals(actions, ToService)| + |Arrivals(actions, ToPeer)|)
  {
    BoundedWork(Init(buffered), actions, buffered);
    ArrivedBytes(Init(buffered), actions);
  }

  lemma {:induction false} ArrivedBytes(s: State, actions: seq<Action>)
    requires IsRun(s, actions)
    ensures Arrived(actions) <= 4 * (|Arrivals(actions, ToService)| + |Arrivals(actions, ToPeer)|)
    decreases |actions|
  {
    if actions != [] {
      ArrivedBytes(Apply(s, actions[0]), actions[1..]);
    }
  }
}
