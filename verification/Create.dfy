/** The client's create and restart workflows against a server that may answer anything. */
module Create {
  import opened Common
  import opened Options
  import opened Workflow

  // ----- The client -----

  class Client {
    ghost var log: Log
    var phase: string   // the last phase printed
    var ticks: nat      // polling intervals left before the deadline

    constructor (ticks: nat)
      ensures log == Empty && phase == ""
    {
      log, phase, this.ticks := Empty, "", ticks;
    }

    method GetBiot() returns (view: Option<View>)
      modifies this`log
      ensures log == Then(old(log), Viewed(view))
    {
      view := *;
      log := Then(log, Viewed(view));
    }

    method GetOperation() returns (outcome: Option<Outcome>)
      modifies this`log
      ensures log == Then(old(log), Polled(outcome))
    {
      outcome := *;
      log := Then(log, Polled(outcome));
    }

    /** A lifecycle call; success names an operation, the empty name when nothing had to be done. */
    method CreateBiot(stopped: bool) returns (id: Option<string>)
      modifies this`log
      ensures log == Then(old(log), Created(stopped, id))
    {
      id := *;
      log := Then(log, Created(stopped, id));
    }

    method StartBiot(revision: int) returns (id: Option<string>)
      modifies this`log
      ensures log == Then(old(log), Started(revision, id))
    {
      id := *;
      log := Then(log, Started(revision, id));
    }

    method StopBiot(revision: int) returns (id: Option<string>)
      modifies this`log
      ensures log == Then(old(log), Stopped(revision, id))
    {
      id := *;
      log := Then(log, Stopped(revision, id));
    }

    /** Reads one sensitive value and delivers it. */
    method Deliver(delivery: Delivery, stdin: bool) returns (ok: bool)
      modifies this`log
      ensures if ok then log == DeliverOne(old(log), delivery, stdin) else FailsOn(old(log), log, delivery, stdin)
    {
      ok := *;
      log := Then(log, ReadValue(stdin, ok));
      if ok {
        ok := *;
        log := Then(log, Handover(delivery, ok));
      }
    }

    /** Announces a phase, once while it lasts. */
    method Announce(name: string)
      modifies this`log, this`phase
      ensures phase == name
      ensures log == if name == old(phase) then old(log) else Then(old(log), Phase(name))
    {
      if name != phase {
        phase := name;
        log := Then(log, Phase(name));
      }
    }

    /** One check of a wait, which ends with the first look that decides: the goal is reached, or waiting
        on is pointless. */
    method Check(goal: Goal) returns (done: bool, failed: bool)
      modifies this`log
      ensures log.Then?
      ensures if failed then Extends(old(log), log.before) && Look(log.last) else Extends(old(log), log)
      ensures Undecided(old(log), log.before, goal)
      ensures (done <==> Shows(log, goal)) && (failed <==> Hopeless(log, goal))
      ensures !done && !failed ==> Undecided(old(log), log, goal)
    {
      done, failed := false, false;
      if goal == OperationDone {
        var outcome := GetOperation();
        match outcome {
          case Some(Pending) =>
          case Some(Working) =>
          case Some(Succeeded) => done := true; return;
          case _ => failed := true; return;
        }
        var view := GetBiot();
        failed := view == None || view.value.waiting;
        return;
      }
      var view := GetBiot();
      if view == None || view.value.waiting || CurrentFailure(view.value) {
        failed := true;
        return;
      }
      if goal == Allocated {
        done := view.value.data == "uninitialized" || view.value.data == "present";
      } else if goal == Prepared {
        done := view.value.installed == view.value.environmentId;
      } else {
        done := view.value.desired == "running" && view.value.container == "running";
      }
    }

    /** Checks every interval until the goal is reached, a check fails, or the deadline has passed. It
        stops at the first look that decides. */
    method Wait(goal: Goal) returns (ok: bool)
      modifies this`log, this`ticks
      ensures Waits(old(log), log, ok)
      ensures log.Then? && (!ok ==> log.before.Then?)
      ensures var last := if ok then log else log.before;
        Undecided(old(log), last.before, goal) && (ok <==> Shows(last, goal))
    {
      ghost var before := log;
      while true
        invariant Extends(before, log)
        invariant Undecided(before, log, goal)
        decreases ticks
      {
        ghost var was := log;
        var done, failed := Check(goal);
        UndecidedOn(before, was, log.before, goal);
        if failed {
          ExtendsOn(before, was, log.before);
        } else {
          ExtendsOn(before, was, log);
        }
        var expired: bool := *;
        if !failed && done {
          return true;
        }
        if failed || ticks == 0 || expired {
          log := Then(log, GaveUp);
          return false;
        }
        ticks := ticks - 1;
      }
    }
  }

  // ----- Creating -----

  /** Delivers values one by one, in their order, until one fails. */
  method DeliverAll(client: Client, deliveries: seq<Delivery>, stdin: bool) returns (ok: bool)
    modifies client`log
    ensures if ok then client.log == DeliverThese(old(client.log), deliveries, stdin)
            else FailsAmong(old(client.log), client.log, deliveries, stdin)
  {
    ghost var before := client.log;
    for i := 0 to |deliveries|
      invariant client.log == DeliverThese(before, deliveries[..i], stdin)
    {
      var delivered := client.Deliver(deliveries[i], stdin);
      if !delivered {
        assert FailsOn(DeliverThese(before, deliveries[..i], stdin), client.log, deliveries[i], stdin);
        return false;
      }
      assert deliveries[..i + 1][..i] == deliveries[..i];
    }
    assert deliveries[..|deliveries|] == deliveries;
    return true;
  }

  /** Makes deliveries that are due. */
  method DeliverDue(client: Client, deliveries: seq<Delivery>, o: CreateOptions) returns (ok: bool)
    requires Going(client.log, Creating(o)) && Delivered(client.log) + deliveries <= Deliveries(o)
    requires forall d <- deliveries :: GroundFor(d, client.log, o)
    modifies client`log
    ensures if ok then Going(client.log, Creating(o)) else Aborted(client.log, Creating(o))
    ensures ok ==> Delivered(client.log) == old(Delivered(client.log)) + deliveries
    ensures ok ==> NoStart(client.log) == old(NoStart(client.log)) && Begins(old(client.log), client.log)
    ensures ok ==> Phases(client.log) == old(Phases(client.log))
  {
    ghost var before := client.log;
    ok := DeliverAll(client, deliveries, o.stdin);
    if ok {
      GoingDelivers(before, deliveries, o);
    } else {
      FailsDelivering(before, client.log, deliveries, o);
    }
  }

  /** Prints the next phase of a create. */
  method Print(client: Client, name: string, ghost o: CreateOptions)
    requires Going(client.log, Creating(o)) && name != client.phase
    requires Phases(client.log) + [name] <= CreatePhases(o)
    modifies client`log, client`phase
    ensures client.phase == name && client.log == Then(old(client.log), Phase(name))
    ensures Going(client.log, Creating(o)) && Phases(client.log) == old(Phases(client.log)) + [name]
    ensures Delivered(client.log) == old(Delivered(client.log)) && NoStart(client.log) == old(NoStart(client.log))
    ensures (Settled(client.log) <==> old(Settled(client.log))) && Begins(old(client.log), client.log)
  {
    client.Announce(name);
  }

  method Await(client: Client, goal: Goal, ghost p: Purpose) returns (ok: bool)
    requires Going(client.log, p)
    modifies client`log, client`ticks
    ensures Waits(old(client.log), client.log, ok)
    ensures if ok then Going(client.log, p) && Shows(client.log, goal) else Aborted(client.log, p)
  {
    ghost var before := client.log;
    ok := client.Wait(goal);
    GoingWaits(before, client.log, ok, p);
  }

  /** Waits for an accepted operation, if there is one. */
  method Settle(client: Client, operationId: string, ghost p: Purpose) returns (ok: bool)
    requires Going(client.log, p) && (operationId == "" ==> Settled(client.log))
    modifies client`log, client`ticks
    ensures Waits(old(client.log), client.log, ok)
    ensures if ok then Going(client.log, p) && Settled(client.log) else Aborted(client.log, p)
    ensures ok ==> if operationId == "" then client.log == old(client.log) else Shows(client.log, OperationDone)
  {
    ok := true;
    if operationId != "" {
      ok := Await(client, OperationDone, p);
    }
  }

  /** Whether a run has ended well: readiness is its last event, and nothing failed. */
  predicate Ends(log: Log, ok: bool) {
    if ok then log.Then? && log.last == Ready && Clean(log) else EndsFailed(log)
  }

  /** Waits for a running Biot and announces it. */
  method AwaitRunning(client: Client, ghost p: Purpose) returns (ok: bool)
    requires Going(client.log, p) && Settled(client.log) && (p.Restarting? ==> !NoStart(client.log))
    modifies client
    ensures Safe(client.log, p) && Ends(client.log, ok)
    ensures ok ==> Delivered(client.log) == old(Delivered(client.log)) && NoStart(client.log) == old(NoStart(client.log))
    ensures ok ==> Phases(client.log) == old(Phases(client.log))
  {
    ghost var before := client.log;
    ok := Await(client, Running, p);
    if ok {
      ExtendsKeeps(before, client.log);
      client.log := Then(client.log, Ready);
    }
  }

  /** The phases of a create with credentials until the environment is prepared. */
  method PrepareEnvironment(client: Client, options: CreateOptions, operationId: string) returns (ok: bool)
    requires Going(client.log, Creating(options)) && Contains(client.log, Created(true, Some(operationId)))
    requires Delivered(client.log) == [] && NoStart(client.log)
    requires client.phase == "creating" && Phases(client.log) == ["creating"]
    modifies client
    ensures if ok then Going(client.log, Creating(options)) else Aborted(client.log, Creating(options))
    ensures ok ==> PreparationDone(client.log, options, operationId) && NoStart(client.log)
    ensures ok ==> client.phase == "preparing" && Phases(client.log) == PhasesToPrepare(options)
  {
    PhasesAdvance(options);
    assert ["creating"] + ["preparing"] == ["creating", "preparing"];
    Print(client, "preparing", options);
    ghost var start := client.log;
    ok := Await(client, Allocated, Creating(options));
    if !ok { return; }
    ExtendsKeeps(start, client.log);
    ghost var seen := client.log;
    assert AllocatedFirst(seen, operationId);
    if options.fetchCredentials != [] {
      ok := DeliverFetches(client, options, operationId);
    } else if operationId != "" {
      ok := Settle(client, operationId, Creating(options));
      if ok {
        ExtendsKeeps(seen, client.log);
        AllocationStays(seen, client.log, operationId);
      }
    }
  }

  method DeliverFetches(client: Client, options: CreateOptions, ghost operationId: string) returns (ok: bool)
    requires Going(client.log, Creating(options)) && AllocatedFirst(client.log, operationId)
    requires Delivered(client.log) == [] && NoStart(client.log) && options.fetchCredentials != []
    requires client.phase == "preparing" && Phases(client.log) == ["creating", "preparing"]
    modifies client
    ensures if ok then Going(client.log, Creating(options)) else Aborted(client.log, Creating(options))
    ensures ok ==> Delivered(client.log) == Fetches(options.fetchCredentials) && Shows(client.log, Prepared)
    ensures ok ==> AllocatedFirst(client.log, operationId) && NoStart(client.log)
    ensures ok ==> client.phase == "preparing" && Phases(client.log) == PhasesToPrepare(options)
  {
    ghost var seen := client.log;
    PhasesAdvance(options);
    assert ["creating", "preparing"] + ["delivering fetch credentials"] ==
           ["creating", "preparing", "delivering fetch credentials"];
    Print(client, "delivering fetch credentials", options);
    AllocationStays(seen, client.log, operationId);
    ghost var announced := client.log;
    ok := DeliverDue(client, Fetches(options.fetchCredentials), options);
    if !ok { return; }
    AllocationStays(announced, client.log, operationId);
    assert ["creating", "preparing", "delivering fetch credentials"] + ["preparing"] ==
           ["creating", "preparing", "delivering fetch credentials", "preparing"];
    ghost var delivered := client.log;
    Print(client, "preparing", options);
    AllocationStays(delivered, client.log, operationId);
    ghost var printed := client.log;
    ok := Await(client, Prepared, Creating(options));
    if !ok { return; }
    ExtendsKeeps(printed, client.log);
    AllocationStays(printed, client.log, operationId);
  }

  /** All phases of a create with credentials up to the call that starts the Biot. */
  method Prepare(client: Client, options: CreateOptions, operationId: string) returns (revision: Option<int>)
    requires Deliveries(options) != [] && Going(client.log, Creating(options))
    requires Contains(client.log, Created(true, Some(operationId)))
    requires Delivered(client.log) == [] && NoStart(client.log)
    requires client.phase == "creating" && Phases(client.log) == ["creating"]
    modifies client
    ensures if revision.Some? then Going(client.log, Creating(options)) else Aborted(client.log, Creating(options))
    ensures revision.Some? ==> StartJustified(client.log, revision.value, options)
    ensures revision.Some? ==> client.phase != "starting" && Phases(client.log) == PhasesToStart(options)
  {
    var ok := PrepareEnvironment(client, options, operationId);
    if !ok { return None; }
    ghost var prepared := client.log;
    var view := client.GetBiot();
    if view == None { return None; }
    ghost var viewed := client.log;
    assert PreparedAndRead(viewed, view.value.revision, options);
    ok := DeliverSecrets(client, options, view.value.revision);
    if !ok { return None; }
    return Some(view.value.revision);
  }

  method DeliverSecrets(client: Client, options: CreateOptions, ghost revision: int) returns (ok: bool)
    requires Going(client.log, Creating(options)) && PreparedAndRead(client.log, revision, options)
    requires Delivered(client.log) == Fetches(options.fetchCredentials) && NoStart(client.log)
    requires client.phase == "preparing" && Phases(client.log) == PhasesToPrepare(options)
    modifies client
    ensures if ok then Going(client.log, Creating(options)) else Aborted(client.log, Creating(options))
    ensures ok ==> Delivered(client.log) == Deliveries(options)
    ensures ok ==> PreparedAndRead(client.log, revision, options) && NoStart(client.log)
    ensures ok ==> client.phase != "starting" && Phases(client.log) == PhasesToStart(options)
  {
    ghost var viewed := client.log;
    PhasesAdvance(options);
    if options.secretNames != [] {
      Print(client, "delivering runtime secrets", options);
    }
    PreparationStays(viewed, client.log, revision, options);
    ghost var announced := client.log;
    ok := DeliverDue(client, Secrets(options.secretNames), options);
    if ok { PreparationStays(announced, client.log, revision, options); }
  }

  /** What a create without credentials waits for; the server starts the Biot by itself. */
  method AwaitPlainCreate(client: Client, options: CreateOptions, operationId: string) returns (ok: bool)
    requires Going(client.log, Creating(options)) && (operationId == "" ==> Settled(client.log))
    requires Deliveries(options) == [] && client.phase == "creating" && Phases(client.log) == ["creating"]
    modifies client
    ensures if ok then Going(client.log, Creating(options)) && Settled(client.log)
            else Aborted(client.log, Creating(options))
    ensures ok ==> Delivered(client.log) == old(Delivered(client.log)) && NoStart(client.log) == old(NoStart(client.log))
    ensures ok ==> Phases(client.log) == CreatePhases(options)
  {
    DeliveriesAre(options);
    PhasesAdvance(options);
    assert ["creating"] + ["preparing"] == ["creating", "preparing"];
    Print(client, "preparing", options);
    ghost var printed := client.log;
    ok := Settle(client, operationId, Creating(options));
    if !ok { return; }
    ExtendsKeeps(printed, client.log);
    Print(client, "starting", options);
  }

  /** Prepares, delivers and starts, as a create with credentials must. */
  method StartWithCredentials(client: Client, options: CreateOptions, operationId: string) returns (ok: bool)
    requires Deliveries(options) != [] && Going(client.log, Creating(options))
    requires Contains(client.log, Created(true, Some(operationId)))
    requires Delivered(client.log) == [] && NoStart(client.log)
    requires client.phase == "creating" && Phases(client.log) == ["creating"]
    modifies client
    ensures if ok then Going(client.log, Creating(options)) && Settled(client.log)
            else Aborted(client.log, Creating(options))
    ensures ok ==> Delivered(client.log) == Deliveries(options) && !NoStart(client.log)
    ensures ok ==> Phases(client.log) == CreatePhases(options)
  {
    var revision := Prepare(client, options, operationId);
    if revision == None { return false; }
    var startId := client.StartBiot(revision.value);
    if startId == None { return false; }
    ok := AwaitStart(client, options, startId.value);
  }

  /** Waits for an accepted start. */
  method AwaitStart(client: Client, options: CreateOptions, operationId: string) returns (ok: bool)
    requires Going(client.log, Creating(options)) && (operationId == "" ==> Settled(client.log))
    requires client.phase != "starting" && Phases(client.log) == PhasesToStart(options)
    modifies client
    ensures if ok then Going(client.log, Creating(options)) && Settled(client.log)
            else Aborted(client.log, Creating(options))
    ensures ok ==> Delivered(client.log) == old(Delivered(client.log)) && NoStart(client.log) == old(NoStart(client.log))
    ensures ok ==> Phases(client.log) == CreatePhases(options)
  {
    Print(client, "starting", options);
    ghost var printed := client.log;
    ok := Settle(client, operationId, Creating(options));
    if ok { ExtendsKeeps(printed, client.log); }
  }

  method RunCreate(client: Client, options: CreateOptions) returns (ok: bool)
    requires client.log == Empty && client.phase == "" && ValidOptions(options)
    modifies client
    ensures Safe(client.log, Creating(options)) && Ends(client.log, ok)
    ensures Delivered(client.log) <= Deliveries(options) && (ok ==> Delivered(client.log) == Deliveries(options))
    ensures ok ==> (NoStart(client.log) <==> Deliveries(options) == [])
    ensures forall stopped, id :: Contains(client.log, Created(stopped, id)) ==> (stopped <==> Deliveries(options) != [])
    ensures StdinReads(client.log) <= if options.stdin then 1 else 0
    ensures ok ==> StdinReads(client.log) == if options.stdin then 1 else 0
    ensures Phases(client.log) <= CreatePhases(options) && (ok ==> Phases(client.log) == CreatePhases(options))
  {
    ok := CreateAndStart(client, options);
    if ok {
      ok := AwaitRunning(client, Creating(options));
    }
    DeliveredInOrder(client.log, options);
    DeliveriesAre(options);
    forall stopped, id | Contains(client.log, Created(stopped, id))
      ensures stopped <==> Deliveries(options) != []
    {
      CreatedAs(client.log, options, stopped, id);
    }
    StdinReadsBounded(client.log, options);
    PhasesInOrder(client.log, options);
  }

  method CreateAndStart(client: Client, options: CreateOptions) returns (ok: bool)
    requires client.log == Empty && client.phase == ""
    modifies client
    ensures if ok then Going(client.log, Creating(options)) && Settled(client.log)
            else Aborted(client.log, Creating(options))
    ensures ok ==> Delivered(client.log) == Deliveries(options) && (NoStart(client.log) <==> Deliveries(options) == [])
    ensures ok ==> Phases(client.log) == CreatePhases(options)
  {
    assert Going(Empty, Creating(options));
    PhasesAdvance(options);
    Print(client, "creating", options);
    DeliveriesAre(options);
    var valuesRequired := |options.secretNames| > 0 || |options.fetchCredentials| > 0;
    var id := client.CreateBiot(valuesRequired);
    if id == None { return false; }
    if valuesRequired {
      ok := StartWithCredentials(client, options, id.value);
    } else {
      ok := AwaitPlainCreate(client, options, id.value);
    }
  }

  // ----- Restarting -----

  /** Restarts a Biot resolved at a revision: stop, read the revision again, start, wait. */
  method RunRestart(client: Client, resolved: int) returns (ok: bool)
    requires client.log == Empty
    modifies client
    ensures Safe(client.log, Restarting(resolved)) && Ends(client.log, ok)
    ensures Delivered(client.log) == [] && StdinReads(client.log) == 0
  {
    ok := StopAndStart(client, resolved);
    if ok {
      ok := AwaitRunning(client, Restarting(resolved));
    }
    RestartDeliversNothing(client.log, resolved);
  }

  method StopAndStart(client: Client, resolved: int) returns (ok: bool)
    requires client.log == Empty
    modifies client
    ensures if ok then Going(client.log, Restarting(resolved)) && Settled(client.log)
            else Aborted(client.log, Restarting(resolved))
    ensures ok ==> !NoStart(client.log)
  {
    var stopId := client.StopBiot(resolved);
    if stopId == None { return false; }
    ghost var stop := client.log;
    ok := Settle(client, stopId.value, Restarting(resolved));
    if !ok { return; }
    ExtendsKeeps(stop, client.log);
    assert StopTookEffect(client.log, resolved);
    var view := client.GetBiot();
    if view == None { return false; }
    var startId := client.StartBiot(view.value.revision);
    if startId == None { return false; }
    ghost var start := client.log;
    ok := Settle(client, startId.value, Restarting(resolved));
    if ok { ExtendsKeeps(start, client.log); }
  }
}
