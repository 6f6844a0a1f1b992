/** What a client workflow has done so far, as a log, and what a create or a restart may do: which event
    may follow which history, and what that gives for every run. */
module Workflow {
  import opened Common
  import opened Options

  // ----- What the server says -----

  datatype Operation = Operation(target: int, failed: bool)

  datatype View = View(
    revision: int,
    desired: string,
    environmentId: string,
    installed: string,
    data: string,
    container: string,
    waiting: bool,
    operation: Option<Operation>,
    failureTarget: Option<int>)

  datatype Outcome = Pending | Working | Succeeded | Failed | Superseded | UnknownOutcome

  /** The revision the view is about has failed. */
  predicate CurrentFailure(v: View) {
    || (v.operation.Some? && v.operation.value.target == v.revision && v.operation.value.failed)
    || (v.failureTarget.Some? && v.failureTarget.value == v.revision)
  }

  /** It has, if the view's operation failed with that revision as its target, or if a failure with that
      target is recorded; an operation or a failure of another revision does not count. */
  lemma CurrentFailureIs(v: View)
    ensures CurrentFailure(v) <==>
            v.operation == Some(Operation(v.revision, true)) || v.failureTarget == Some(v.revision)
  {
  }

  predicate Untroubled(v: View) {
    !v.waiting && !CurrentFailure(v)
  }

  /** What a wait is for. */
  datatype Goal = OperationDone | Allocated | Prepared | Running

  // ----- What happened -----

  datatype Event =
    | Created(stopped: bool, operationId: Option<string>)
    | Viewed(view: Option<View>)
    | Polled(outcome: Option<Outcome>)
    | GaveUp
    | ReadValue(fromStdin: bool, ok: bool)
    | FetchDelivered(source: string, ok: bool)
    | SecretDelivered(name: string, ok: bool)
    | Started(revision: int, operationId: Option<string>)
    | Stopped(revision: int, operationId: Option<string>)
    | Phase(name: string)
    | Ready

  /** What a run has done so far, the latest event last. */
  datatype Log = Empty | Then(before: Log, last: Event)

  predicate Fails(e: Event) {
    match e
    case Created(_, id) => id == None
    case Viewed(view) => view == None
    case Polled(outcome) => outcome !in {Some(Pending), Some(Working), Some(Succeeded)}
    case GaveUp => true
    case ReadValue(_, ok) => !ok
    case FetchDelivered(_, ok) => !ok
    case SecretDelivered(_, ok) => !ok
    case Started(_, id) => id == None
    case Stopped(_, id) => id == None
    case _ => false
  }

  predicate Clean(log: Log) {
    log.Then? ==> Clean(log.before) && !Fails(log.last)
  }

  predicate NoStart(log: Log) {
    log.Then? ==> NoStart(log.before) && !log.last.Started?
  }

  predicate NoReady(log: Log) {
    log.Then? ==> NoReady(log.before) && !log.last.Ready?
  }

  /** No accepted operation is outstanding: after the last lifecycle call one was seen to succeed,
      unless that call named none. */
  predicate Settled(log: Log) {
    match log
    case Empty => true
    case Then(_, Created(_, id)) => id == Some("")
    case Then(_, Started(_, id)) => id == Some("")
    case Then(_, Stopped(_, id)) => id == Some("")
    case Then(before, last) => last == Polled(Some(Succeeded)) || Settled(before)
  }

  predicate EndsFailed(log: Log) {
    log.Then? && Fails(log.last)
  }

  predicate Contains(log: Log, e: Event) {
    log.Then? && (log.last == e || Contains(log.before, e))
  }

  /** One log is a beginning of another. */
  predicate Begins(part: Log, log: Log) {
    part == log || (log.Then? && Begins(part, log.before))
  }

  /** A view shows that a goal has been reached. */
  predicate Meets(v: View, goal: Goal) {
    && Untroubled(v)
    && (match goal
        case OperationDone => false
        case Allocated => v.data == "uninitialized" || v.data == "present"
        case Prepared => v.installed == v.environmentId
        case Running => v.desired == "running" && v.container == "running")
  }

  /** The last event shows that a goal has been reached. */
  predicate Shows(log: Log, goal: Goal) {
    && log.Then?
    && (match log.last
        case Polled(outcome) => goal == OperationDone && outcome == Some(Succeeded)
        case Viewed(Some(v)) => Meets(v, goal)
        case _ => false)
  }

  /** The last event shows that waiting for a goal is pointless. */
  predicate Hopeless(log: Log, goal: Goal) {
    && log.Then?
    && (match log.last
        case Polled(outcome) => outcome !in {Some(Pending), Some(Working), Some(Succeeded)}
        case Viewed(None) => true
        case Viewed(Some(v)) => v.waiting || (goal != OperationDone && CurrentFailure(v))
        case _ => false)
  }

  /** Nothing looked at in between decided about a goal, one way or the other. */
  predicate Undecided(before: Log, log: Log, goal: Goal) {
    || log == before
    || (log.Then? && !Shows(log, goal) && !Hopeless(log, goal) && Undecided(before, log.before, goal))
  }

  lemma {:induction false} UndecidedOn(first: Log, second: Log, third: Log, goal: Goal)
    requires Undecided(first, second, goal) && Undecided(second, third, goal)
    ensures Undecided(first, third, goal)
  {
    if third != second {
      UndecidedOn(first, second, third.before, goal);
    }
  }

  datatype Delivery = Fetch(source: string) | RuntimeSecret(name: string)

  /** The successful deliveries, in order. */
  function Delivered(log: Log): seq<Delivery> {
    match log
    case Empty => []
    case Then(before, FetchDelivered(source, true)) => Delivered(before) + [Fetch(source)]
    case Then(before, SecretDelivered(name, true)) => Delivered(before) + [RuntimeSecret(name)]
    case Then(before, _) => Delivered(before)
  }

  function StdinReads(log: Log): nat {
    match log
    case Empty => 0
    case Then(before, ReadValue(true, _)) => StdinReads(before) + 1
    case Then(before, _) => StdinReads(before)
  }

  /** The phases printed, in order. */
  function Phases(log: Log): seq<string> {
    match log
    case Empty => []
    case Then(before, Phase(name)) => Phases(before) + [name]
    case Then(before, _) => Phases(before)
  }

  predicate Look(e: Event) {
    e.Viewed? || e.Polled?
  }

  /** Only looks were added, and each got an answer to go on with. */
  predicate Extends(before: Log, log: Log) {
    log == before || (log.Then? && Look(log.last) && !Fails(log.last) && Extends(before, log.before))
  }

  /** Looks were added, the last of them perhaps failed, and then the wait was given up. */
  predicate GivesUp(before: Log, log: Log) {
    && log.Then? && log.last == GaveUp
    && (|| Extends(before, log.before)
        || (log.before.Then? && Look(log.before.last) && Extends(before, log.before.before)))
  }

  /** How a wait may go. */
  predicate Waits(before: Log, log: Log, ok: bool) {
    if ok then Extends(before, log) else GivesUp(before, log)
  }

  lemma {:induction false} ExtendsOn(first: Log, second: Log, third: Log)
    requires Extends(first, second) && Extends(second, third)
    ensures Extends(first, third)
  {
    if third != second {
      ExtendsOn(first, second, third.before);
    }
  }

  lemma WaitsOn(first: Log, second: Log, third: Log, ok: bool)
    requires Extends(first, second) && Waits(second, third, ok)
    ensures Waits(first, third, ok)
  {
    if ok {
      ExtendsOn(first, second, third);
    } else if Extends(second, third.before) {
      ExtendsOn(first, second, third.before);
    } else {
      ExtendsOn(first, second, third.before.before);
    }
  }

  lemma {:induction false} ExtendsKeeps(before: Log, log: Log)
    requires Extends(before, log)
    ensures Begins(before, log)
    ensures Clean(before) == Clean(log)
    ensures NoStart(before) == NoStart(log)
    ensures NoReady(before) == NoReady(log)
    ensures Settled(before) ==> Settled(log)
    ensures Delivered(before) == Delivered(log) && Phases(before) == Phases(log)
    ensures forall e :: Contains(before, e) ==> Contains(log, e)
  {
    if log != before {
      ExtendsKeeps(before, log.before);
    }
  }

  lemma {:induction false} BeginsOn(first: Log, second: Log, third: Log)
    requires Begins(first, second) && Begins(second, third)
    ensures Begins(first, third)
  {
    if third != second {
      BeginsOn(first, second, third.before);
    } else if second != first {
      BeginsOn(first, second.before, second.before);
    }
  }

  // ----- Deliveries -----

  function Handover(d: Delivery, ok: bool): Event {
    match d
    case Fetch(source) => FetchDelivered(source, ok)
    case RuntimeSecret(name) => SecretDelivered(name, ok)
  }

  function DeliverOne(before: Log, d: Delivery, stdin: bool): Log {
    Then(Then(before, ReadValue(stdin, true)), Handover(d, true))
  }

  /** One delivery was tried and failed, at reading the value or at handing it over. */
  predicate FailsOn(before: Log, log: Log, d: Delivery, stdin: bool) {
    || log == Then(before, ReadValue(stdin, false))
    || log == Then(Then(before, ReadValue(stdin, true)), Handover(d, false))
  }

  /** The log behind deliveries that all succeeded, in their order. */
  function DeliverThese(before: Log, deliveries: seq<Delivery>, stdin: bool): Log {
    if deliveries == [] then before
    else
      var last := |deliveries| - 1;
      DeliverOne(DeliverThese(before, deliveries[..last], stdin), deliveries[last], stdin)
  }

  /** Leading deliveries succeeded, the next one failed, and nothing followed. */
  ghost predicate FailsAmong(before: Log, log: Log, deliveries: seq<Delivery>, stdin: bool) {
    exists k: nat :: k < |deliveries| && FailsOn(DeliverThese(before, deliveries[..k], stdin), log, deliveries[k], stdin)
  }

  // ----- What a create may do -----

  function Fetches(sources: seq<string>): seq<Delivery> {
    seq(|sources|, i requires 0 <= i < |sources| => Fetch(sources[i]))
  }

  function Secrets(names: seq<string>): seq<Delivery> {
    seq(|names|, i requires 0 <= i < |names| => RuntimeSecret(names[i]))
  }

  function Deliveries(o: CreateOptions): seq<Delivery> {
    Fetches(o.fetchCredentials) + Secrets(o.secretNames)
  }

  /** What there is to deliver: each source's fetch credential, then each named secret, as given. */
  lemma DeliveriesAre(o: CreateOptions)
    ensures |Deliveries(o)| == |o.fetchCredentials| + |o.secretNames|
    ensures forall i :: 0 <= i < |o.fetchCredentials| ==> Deliveries(o)[i] == Fetch(o.fetchCredentials[i])
    ensures forall i :: 0 <= i < |o.secretNames| ==>
              Deliveries(o)[|o.fetchCredentials| + i] == RuntimeSecret(o.secretNames[i])
  {
  }

  /** The phases a create goes through and prints. */
  function CreatePhases(o: CreateOptions): seq<string> {
    PhasesToStart(o) + ["starting"]
  }

  function PhasesToStart(o: CreateOptions): seq<string> {
    PhasesToPrepare(o) + if o.secretNames != [] then ["delivering runtime secrets"] else []
  }

  function PhasesToPrepare(o: CreateOptions): seq<string> {
    ["creating", "preparing"] +
    if o.fetchCredentials != [] then ["delivering fetch credentials", "preparing"] else []
  }

  /** Where each phase comes. */
  lemma PhasesAdvance(o: CreateOptions)
    ensures ["creating"] <= CreatePhases(o) && ["creating", "preparing"] <= CreatePhases(o)
    ensures o.fetchCredentials != [] ==>
      && ["creating", "preparing", "delivering fetch credentials"] <= CreatePhases(o)
      && ["creating", "preparing", "delivering fetch credentials", "preparing"] == PhasesToPrepare(o)
    ensures PhasesToPrepare(o) <= CreatePhases(o) && PhasesToStart(o) <= CreatePhases(o)
    ensures o.fetchCredentials == [] ==> PhasesToPrepare(o) == ["creating", "preparing"]
    ensures o.secretNames == [] ==> PhasesToStart(o) == PhasesToPrepare(o)
    ensures o.secretNames != [] ==> PhasesToStart(o) == PhasesToPrepare(o) + ["delivering runtime secrets"]
  {
    assert CreatePhases(o) == PhasesToPrepare(o) +
      ((if o.secretNames != [] then ["delivering runtime secrets"] else []) + ["starting"]);
  }

  /** The Biot was created, stopped, and its allocation was seen before anything was delivered. */
  ghost predicate AllocatedFirst(log: Log, operationId: string) {
    exists seen: Log ::
      && Contains(seen, Created(true, Some(operationId)))
      && Begins(seen, log) && Shows(seen, Allocated) && Delivered(seen) == []
  }

  /** Preparation has finished: the allocation was seen first, and, after every fetch credential was
      delivered, a view showed the wanted environment installed; without fetch credentials, the create
      operation had succeeded or there was none. */
  ghost predicate PreparationDone(prepared: Log, o: CreateOptions, operationId: string) {
    && AllocatedFirst(prepared, operationId)
    && Delivered(prepared) == Fetches(o.fetchCredentials)
    && Shows(prepared,
             if o.fetchCredentials != [] then Prepared else if operationId != "" then OperationDone else Allocated)
  }

  predicate ReadsRevision(viewed: Log, revision: int) {
    viewed.Then? && viewed.last.Viewed? && viewed.last.view.Some? && viewed.last.view.value.revision == revision
  }

  /** Preparation had finished, and the revision was read after it and before any secret. */
  ghost predicate PreparedAndRead(log: Log, revision: int, o: CreateOptions) {
    exists id: string, prepared: Log, viewed: Log ::
      && PreparationDone(prepared, o, id)
      && ReadsRevision(viewed, revision) && Begins(prepared, viewed.before) && Begins(viewed, log)
      && Delivered(viewed) == Fetches(o.fetchCredentials)
  }

  /** What must have been seen before a delivery may be made. */
  ghost predicate GroundFor(d: Delivery, log: Log, o: CreateOptions) {
    match d
    case Fetch(_) => exists id :: AllocatedFirst(log, id)
    case RuntimeSecret(_) => exists revision :: PreparedAndRead(log, revision, o)
  }

  /** A delivery comes next: it is the one behind those already made, in the order of the options. */
  ghost predicate Due(d: Delivery, log: Log, o: CreateOptions) {
    Delivered(log) + [d] <= Deliveries(o) && GroundFor(d, log, o)
  }

  /** A start may follow what happened before it: none was made yet, every fetch credential and then
      every secret was delivered, each once and in the order of the options, and the revision is the
      one read after preparation and before any secret. */
  ghost predicate StartJustified(before: Log, revision: int, o: CreateOptions) {
    && Deliveries(o) != []
    && NoStart(before)
    && Delivered(before) == Deliveries(o)
    && PreparedAndRead(before, revision, o)
  }

  /** A stop with the given revision took effect: it was accepted, and if it named an operation, that
      operation was last seen to have succeeded. */
  ghost predicate StopTookEffect(log: Log, revision: int) {
    exists id: string, stop: Log ::
      && stop.Then? && stop.last == Stopped(revision, Some(id))
      && Extends(stop, log)
      && if id == "" then log == stop else Shows(log, OperationDone)
  }

  /** What a run is for: creating with options, or restarting a Biot resolved at a revision. */
  datatype Purpose = Creating(options: CreateOptions) | Restarting(resolved: int)

  predicate ValueInHand(log: Log) {
    log.Then? && log.last.ReadValue?
  }

  /** A run stops where it fails, but for giving up the wait that failed; a value that was read is
      handed over at once; and nothing follows readiness. */
  predicate InTime(before: Log, e: Event) {
    && NoReady(before)
    && (if e == GaveUp then before.Then? && Clean(before.before) else Clean(before))
    && (ValueInHand(before) <==> e.FetchDelivered? || e.SecretDelivered?)
  }

  /** Whether an event may follow a history. A create asks first of all for a Biot, a stopped one if
      there is something to deliver, delivers and starts only what is due, and prints its phases in their
      order; it stops nothing. A restart creates and delivers nothing and prints no phase; it stops first,
      and starts with the revision read after the stop took effect. Readiness is announced right after a
      view in which the Biot runs and ought to, with no operation outstanding. */
  ghost predicate Allowed(before: Log, e: Event, p: Purpose) {
    match e
    case Created(stopped, _) =>
      p.Creating? && stopped == (Deliveries(p.options) != []) && before == Then(Empty, Phase("creating"))
    case ReadValue(fromStdin, _) =>
      p.Creating? && fromStdin == p.options.stdin && exists d :: Due(d, before, p.options)
    case FetchDelivered(source, _) => p.Creating? && Due(Fetch(source), before, p.options)
    case SecretDelivered(name, _) => p.Creating? && Due(RuntimeSecret(name), before, p.options)
    case Stopped(revision, _) => p.Restarting? && revision == p.resolved && before == Empty
    case Started(revision, _) =>
      if p.Creating? then StartJustified(before, revision, p.options)
      else NoStart(before) && ReadsRevision(before, revision) && StopTookEffect(before.before, p.resolved)
    case Phase(name) => p.Creating? && Phases(before) + [name] <= CreatePhases(p.options)
    case Ready => Shows(before, Running) && Settled(before) && (p.Restarting? ==> !NoStart(before))
    case _ => true
  }

  /** Every event came in time and was allowed by its history. */
  ghost predicate Safe(log: Log, p: Purpose) {
    log.Then? ==> Safe(log.before, p) && InTime(log.before, log.last) && Allowed(log.before, log.last, p)
  }

  /** A history that a run may go on from: safe, and nothing failed, no value is left to hand over and
      readiness has not been announced. */
  ghost predicate Going(log: Log, p: Purpose) {
    Safe(log, p) && Clean(log) && NoReady(log) && !ValueInHand(log)
  }

  /** A history that ended by failing. */
  ghost predicate Aborted(log: Log, p: Purpose) {
    Safe(log, p) && EndsFailed(log) && NoReady(log)
  }

  lemma {:induction false} GoingExtends(before: Log, log: Log, p: Purpose)
    requires Going(before, p) && Extends(before, log)
    ensures Going(log, p)
  {
    if log != before {
      GoingExtends(before, log.before, p);
    }
  }

  /** A wait keeps a run going, or ends it. */
  lemma GoingWaits(before: Log, log: Log, ok: bool, p: Purpose)
    requires Going(before, p) && Waits(before, log, ok) && log.Then? && (!ok ==> log.before.Then?)
    ensures if ok then Going(log, p) else Aborted(log, p)
  {
    if ok {
      GoingExtends(before, log, p);
    } else if Extends(before, log.before) {
      GoingExtends(before, log.before, p);
    } else {
      GoingExtends(before, log.before.before, p);
    }
  }

  lemma GroundStays(d: Delivery, log: Log, later: Log, o: CreateOptions)
    requires GroundFor(d, log, o) && Begins(log, later)
    ensures GroundFor(d, later, o)
  {
    match d
    case Fetch(_) =>
      var id :| AllocatedFirst(log, id);
      AllocationStays(log, later, id);
    case RuntimeSecret(_) =>
      var revision :| PreparedAndRead(log, revision, o);
      PreparationStays(log, later, revision, o);
  }

  lemma AllocationStays(log: Log, later: Log, id: string)
    requires AllocatedFirst(log, id) && Begins(log, later)
    ensures AllocatedFirst(later, id)
  {
    var seen: Log :| Contains(seen, Created(true, Some(id)))
      && Begins(seen, log) && Shows(seen, Allocated) && Delivered(seen) == [];
    BeginsOn(seen, log, later);
  }

  lemma PreparationStays(log: Log, later: Log, revision: int, o: CreateOptions)
    requires PreparedAndRead(log, revision, o) && Begins(log, later)
    ensures PreparedAndRead(later, revision, o)
  {
    var id: string, prepared: Log, viewed: Log :|
      && PreparationDone(prepared, o, id)
      && ReadsRevision(viewed, revision) && Begins(prepared, viewed.before) && Begins(viewed, log)
      && Delivered(viewed) == Fetches(o.fetchCredentials);
    BeginsOn(viewed, log, later);
  }

  /** Deliveries that are due, made in order, keep a run going. */
  lemma {:induction false} GoingDelivers(before: Log, deliveries: seq<Delivery>, o: CreateOptions)
    requires Going(before, Creating(o)) && Delivered(before) + deliveries <= Deliveries(o)
    requires forall d <- deliveries :: GroundFor(d, before, o)
    ensures var log := DeliverThese(before, deliveries, o.stdin);
      && Going(log, Creating(o)) && Begins(before, log)
      && Delivered(log) == Delivered(before) + deliveries
      && NoStart(log) == NoStart(before) && (Settled(before) ==> Settled(log))
      && Phases(log) == Phases(before)
  {
    if deliveries != [] {
      var last := |deliveries| - 1;
      var front, d := deliveries[..last], deliveries[last];
      assert deliveries == front + [d];
      Associative(Delivered(before), front, [d]);
      GoingDelivers(before, front, o);
      DeliveryKeepsGoing(before, DeliverThese(before, front, o.stdin), d, o);
    }
  }

  lemma DueNow(before: Log, log: Log, d: Delivery, o: CreateOptions)
    requires GroundFor(d, before, o) && Begins(before, log) && Delivered(log) + [d] <= Deliveries(o)
    ensures Due(d, log, o) && Due(d, Then(log, ReadValue(o.stdin, true)), o)
  {
    var read := Then(log, ReadValue(o.stdin, true));
    DueStays(before, log, d, o);
    DueStays(before, read, d, o);
  }

  lemma DueStays(before: Log, log: Log, d: Delivery, o: CreateOptions)
    requires GroundFor(d, before, o) && Begins(before, log) && Delivered(log) + [d] <= Deliveries(o)
    ensures Due(d, log, o)
  {
    GroundStays(d, before, log, o);
  }

  /** Reading the value of a delivery that is due. */
  lemma ValueRead(log: Log, d: Delivery, ok: bool, o: CreateOptions)
    requires Going(log, Creating(o)) && Due(d, log, o)
    ensures var read := Then(log, ReadValue(o.stdin, ok));
      Safe(read, Creating(o)) && NoReady(read) && Clean(read) == ok
  {
  }

  /** Handing over the value that was read. */
  lemma HandedOver(log: Log, d: Delivery, ok: bool, o: CreateOptions)
    requires Safe(log, Creating(o)) && Clean(log) && NoReady(log) && ValueInHand(log) && Due(d, log, o)
    ensures var all := Then(log, Handover(d, ok));
      && (if ok then Going(all, Creating(o)) else Aborted(all, Creating(o)))
      && Delivered(all) == Delivered(log) + if ok then [d] else []
  {
  }

  lemma DeliveryKeepsGoing(before: Log, log: Log, d: Delivery, o: CreateOptions)
    requires Going(log, Creating(o)) && Begins(before, log)
    requires GroundFor(d, before, o) && Delivered(log) + [d] <= Deliveries(o)
    ensures var all := DeliverOne(log, d, o.stdin);
      && Going(all, Creating(o)) && Begins(before, all)
      && Delivered(all) == Delivered(log) + [d]
      && NoStart(all) == NoStart(log) && (Settled(log) ==> Settled(all)) && Phases(all) == Phases(log)
  {
    DueNow(before, log, d, o);
    ValueRead(log, d, true, o);
    HandedOver(Then(log, ReadValue(o.stdin, true)), d, true, o);
  }

  /** Deliveries that are due, made in order until one fails, end a run safely. */
  lemma FailsDelivering(before: Log, log: Log, deliveries: seq<Delivery>, o: CreateOptions)
    requires Going(before, Creating(o)) && Delivered(before) + deliveries <= Deliveries(o)
    requires forall d <- deliveries :: GroundFor(d, before, o)
    requires FailsAmong(before, log, deliveries, o.stdin)
    ensures Aborted(log, Creating(o))
  {
    var k: nat :| k < |deliveries| &&
      FailsOn(DeliverThese(before, deliveries[..k], o.stdin), log, deliveries[k], o.stdin);
    PrefixOn(Delivered(before), deliveries, k, Deliveries(o));
    GoingDelivers(before, deliveries[..k], o);
    FailureEnds(before, DeliverThese(before, deliveries[..k], o.stdin), log, deliveries[k], o);
  }

  lemma FailureEnds(before: Log, log: Log, all: Log, d: Delivery, o: CreateOptions)
    requires Going(log, Creating(o)) && Begins(before, log)
    requires GroundFor(d, before, o) && Delivered(log) + [d] <= Deliveries(o)
    requires FailsOn(log, all, d, o.stdin)
    ensures Aborted(all, Creating(o))
  {
    DueNow(before, log, d, o);
    if all.before == log {
      ValueRead(log, d, false, o);
    } else {
      ValueRead(log, d, true, o);
      HandedOver(all.before, d, false, o);
    }
  }

  lemma PrefixOn<T>(head: seq<T>, tail: seq<T>, k: nat, whole: seq<T>)
    requires k < |tail| && head + tail <= whole
    ensures head + tail[..k] <= whole && (head + tail[..k]) + [tail[k]] <= whole
  {
    assert tail == tail[..k] + [tail[k]] + tail[k + 1..];
  }

  // ----- What every safe run keeps -----

  function Starts(log: Log): nat {
    if log.Empty? then 0 else Starts(log.before) + if log.last.Started? then 1 else 0
  }

  /** A Biot is started at most once in any run. */
  lemma {:induction false} StartedOnce(log: Log, p: Purpose)
    requires Safe(log, p)
    ensures Starts(log) <= 1 && (NoStart(log) <==> Starts(log) == 0)
  {
    if log.Then? {
      StartedOnce(log.before, p);
    }
  }

  /** Once a run has failed in anything it does nothing more, except to give up the wait that failed. */
  lemma {:induction false} NothingAfterFailure(failed: Log, log: Log, p: Purpose)
    requires Safe(log, p) && Begins(failed, log) && !Clean(failed)
    ensures log == failed || log == Then(failed, GaveUp)
  {
    if failed != log {
      NothingAfterFailure(failed, log.before, p);
    }
  }

  /** Whatever becomes of a create, what it delivered is a leading part of the fetch credentials and
      then the secrets, in the order of the options. */
  lemma {:induction false} DeliveredInOrder(log: Log, o: CreateOptions)
    requires Safe(log, Creating(o))
    ensures Delivered(log) <= Deliveries(o)
  {
    if log.Then? {
      DeliveredInOrder(log.before, o);
    }
  }

  /** Whatever becomes of a create, the phases it printed are leading ones of those it goes through. */
  lemma {:induction false} PhasesInOrder(log: Log, o: CreateOptions)
    requires Safe(log, Creating(o))
    ensures Phases(log) <= CreatePhases(o)
  {
    if log.Then? {
      PhasesInOrder(log.before, o);
    }
  }

  /** Nothing follows readiness. */
  lemma {:induction false} ReadyIsLast(part: Log, log: Log, p: Purpose)
    requires Safe(log, p) && part.Then? && part.last == Ready && Begins(part, log)
    ensures part == log
  {
    if part != log {
      ReadyIsLast(part, log.before, p);
    }
  }

  /** No secret is delivered before preparation was seen, nor any fetch credential before the
      allocation was. */
  lemma {:induction false} DeliveredOnGround(log: Log, o: CreateOptions, d: Delivery)
    requires Safe(log, Creating(o)) && d in Delivered(log)
    ensures GroundFor(d, log, o)
  {
    if d in Delivered(log.before) {
      DeliveredOnGround(log.before, o, d);
    }
    GroundStays(d, log.before, log, o);
  }

  /** Standard input is read only with the option for it, and once for each value at most; as long as
      nothing has failed, once for each value delivered and the one in hand. */
  lemma {:induction false} StdinReadsBounded(log: Log, o: CreateOptions)
    requires Safe(log, Creating(o))
    ensures StdinReads(log) <= if o.stdin then |o.fetchCredentials| + |o.secretNames| else 0
    ensures Clean(log) ==>
      StdinReads(log) == if o.stdin then |Delivered(log)| + (if ValueInHand(log) then 1 else 0) else 0
  {
    if log.Then? {
      StdinReadsBounded(log.before, o);
    }
  }

  lemma {:induction false} PlainNeverStarts(log: Log, o: CreateOptions)
    requires Safe(log, Creating(o)) && Deliveries(o) == []
    ensures NoStart(log)
  {
    if log.Then? {
      PlainNeverStarts(log.before, o);
    }
  }

  /** A Biot is asked for stopped exactly if there is something to deliver. */
  lemma {:induction false} CreatedAs(log: Log, o: CreateOptions, stopped: bool, id: Option<string>)
    requires Safe(log, Creating(o)) && Contains(log, Created(stopped, id))
    ensures stopped <==> Deliveries(o) != []
  {
    if log.last != Created(stopped, id) {
      CreatedAs(log.before, o, stopped, id);
    }
  }

  lemma {:induction false} RestartDeliversNothing(log: Log, resolved: int)
    requires Safe(log, Restarting(resolved))
    ensures Delivered(log) == [] && StdinReads(log) == 0
  {
    if log.Then? {
      RestartDeliversNothing(log.before, resolved);
    }
  }
}
