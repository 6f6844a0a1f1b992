/** The loop a bundle generates around each of its programs: restart with a growing delay, and give up
    after too many starts without a healthy run. */
module RestartLoop {
  import opened Common

  const ATTEMPT_LIMIT := 5
  const INITIAL_DELAY := 1
  const MAXIMUM_DELAY := 4
  const HEALTHY_SECONDS := 60
  const EXHAUSTED_STATUS := 70

  /** One start of the program: the status it ended with and how long it ran. */
  datatype Run = Run(status: nat, seconds: nat)

  datatype Policy = Always | OnFailure | Never

  predicate AsksRestart(policy: Policy, run: Run) {
    match policy
    case Always => true
    case OnFailure => run.status != 0
    case Never => false
  }

  predicate Healthy(run: Run) {
    run.seconds >= HEALTHY_SECONDS
  }

  /** `first` is the start that attempts are counted from when the `i`-th run ends: the last healthy
      run up to then, or the very first. */
  predicate CountsFrom(runs: seq<Run>, first: nat, i: nat) {
    && first <= i < |runs|
    && (first == 0 || Healthy(runs[first]))
    && forall k :: first < k <= i ==> !Healthy(runs[k])
  }

  /** The delay after the `n`-th start counted that way. */
  function Delay(n: nat): nat {
    if n == 1 then 1 else if n == 2 then 2 else 4
  }

  /** How a sequence of runs is to be supervised: after each of them but the last the program is
      restarted, with the delay its position gives; the loop ends with the program's own status once
      that asks for no restart, and with a status of its own at the fifth start in a row. */
  ghost predicate Supervised(policy: Policy, runs: seq<Run>, delays: seq<nat>, end: Option<nat>) {
    && |delays| <= |runs|
    && (forall i :: 0 <= i < |delays| ==> Restarted(policy, runs, delays, i))
    && match end
       case None => |delays| == |runs|
       case Some(status) =>
         && |delays| < |runs|
         && var last := |delays|;
            if AsksRestart(policy, runs[last])
            then status == EXHAUSTED_STATUS && exists first: nat :: CountsFrom(runs, first, last) && last - first + 1 == ATTEMPT_LIMIT
            else status == runs[last].status
  }

  ghost predicate Restarted(policy: Policy, runs: seq<Run>, delays: seq<nat>, i: nat)
    requires i < |delays| <= |runs|
  {
    && AsksRestart(policy, runs[i])
    && exists first: nat ::
         CountsFrom(runs, first, i) && i - first + 1 < ATTEMPT_LIMIT && delays[i] == Delay(i - first + 1)
  }

  /** Runs the loop over the outcomes of the program's starts, for as long as there are any. */
  method Supervise(policy: Policy, runs: seq<Run>) returns (delays: seq<nat>, end: Option<nat>)
    ensures Supervised(policy, runs, delays, end)
  {
    delays, end := [], None;
    var attempt := 1;
    ghost var first: nat := 0;
    while |delays| < |runs|
      invariant |delays| <= |runs| && 1 <= attempt <= ATTEMPT_LIMIT
      invariant |delays| == 0 ==> attempt == 1 && first == 0
      invariant |delays| > 0 ==> CountsFrom(runs, first, |delays| - 1) && attempt == |delays| - first + 1
      invariant forall i :: 0 <= i < |delays| ==> Restarted(policy, runs, delays, i)
      decreases |runs| - |delays|
    {
      var run := runs[|delays|];
      if !AsksRestart(policy, run) {
        end := Some(run.status);
        return;
      }
      if run.seconds >= HEALTHY_SECONDS {
        attempt, first := 1, |delays|;
      }
      assert CountsFrom(runs, first, |delays|);
      if attempt >= ATTEMPT_LIMIT {
        end := Some(EXHAUSTED_STATUS);
        return;
      }
      var delay := INITIAL_DELAY * ShiftLeft(attempt - 1);
      if delay > MAXIMUM_DELAY {
        delay := MAXIMUM_DELAY;
      }
      ghost var before := delays;
      assert ShiftLeft(1) == 2 && ShiftLeft(2) == 4 && ShiftLeft(3) == 8;
      delays := delays + [delay];
      forall i | 0 <= i < |delays|
        ensures Restarted(policy, runs, delays, i)
      {
        if i < |before| {
          assert Restarted(policy, runs, before, i);
        }
      }
      attempt := attempt + 1;
    }
  }

  /** Two to the power of `n`, what shifting one to the left by `n` gives. */
  function ShiftLeft(n: nat): nat {
    if n == 0 then 1 else 2 * ShiftLeft(n - 1)
  }

  lemma CountedOnce(runs: seq<Run>, first: nat, other: nat, i: nat)
    requires CountsFrom(runs, first, i) && CountsFrom(runs, other, i)
    ensures first == other
  {
  }

  /** What supervision does is settled by the runs. */
  lemma SupervisedOnce(policy: Policy, runs: seq<Run>, delays: seq<nat>, end: Option<nat>,
                       delays': seq<nat>, end': Option<nat>)
    requires Supervised(policy, runs, delays, end) && Supervised(policy, runs, delays', end')
    ensures delays == delays' && end == end'
  {
    SameLength(policy, runs, delays, end, delays', end');
    SameLength(policy, runs, delays', end', delays, end);
    forall i | 0 <= i < |delays|
      ensures delays[i] == delays'[i]
    {
      assert Restarted(policy, runs, delays, i) && Restarted(policy, runs, delays', i);
      var first: nat :| CountsFrom(runs, first, i) && delays[i] == Delay(i - first + 1);
      var other: nat :| CountsFrom(runs, other, i) && delays'[i] == Delay(i - other + 1);
      CountedOnce(runs, first, other, i);
    }
  }

  lemma SameLength(policy: Policy, runs: seq<Run>, delays: seq<nat>, end: Option<nat>,
                   delays': seq<nat>, end': Option<nat>)
    requires Supervised(policy, runs, delays, end) && Supervised(policy, runs, delays', end')
    ensures |delays'| <= |delays|
  {
    var last := |delays|;
    forall first: nat, other: nat | CountsFrom(runs, first, last) && CountsFrom(runs, other, last)
      ensures first == other
    {
      CountedOnce(runs, first, other, last);
    }
    assert last < |delays'| ==> Restarted(policy, runs, delays', last);
  }

  /** In every five starts in a row, one after the first of them is a healthy run. */
  ghost predicate HealthyRecurs(runs: seq<Run>) {
    forall i: nat :: i + ATTEMPT_LIMIT <= |runs| ==> HealthyWithin(runs, i)
  }

  ghost predicate HealthyWithin(runs: seq<Run>, i: nat)
    requires i + ATTEMPT_LIMIT <= |runs|
  {
    exists k :: i < k < i + ATTEMPT_LIMIT && Healthy(runs[k])
  }

  /** The loop goes on exactly while every run asks for a restart and healthy runs recur. */
  lemma GoesOnWhileHealthy(policy: Policy, runs: seq<Run>, delays: seq<nat>, end: Option<nat>)
    requires Supervised(policy, runs, delays, end)
    ensures end == None <==> (forall i :: 0 <= i < |runs| ==> AsksRestart(policy, runs[i])) && HealthyRecurs(runs)
  {
    if end == None {
      forall i: nat | i + ATTEMPT_LIMIT <= |runs|
        ensures HealthyWithin(runs, i)
      {
        var last := i + ATTEMPT_LIMIT - 1;
        assert Restarted(policy, runs, delays, last);
        var first: nat :| CountsFrom(runs, first, last) && last - first + 1 < ATTEMPT_LIMIT;
        assert i < first < i + ATTEMPT_LIMIT && Healthy(runs[first]);
      }
      forall i | 0 <= i < |runs|
        ensures AsksRestart(policy, runs[i])
      {
        assert Restarted(policy, runs, delays, i);
      }
    } else {
      var last := |delays|;
      if AsksRestart(policy, runs[last]) {
        var first: nat :| CountsFrom(runs, first, last) && last - first + 1 == ATTEMPT_LIMIT;
        assert !HealthyWithin(runs, first);
        assert !HealthyRecurs(runs);
      }
    }
  }

  /** Once the loop has come to a start that attempts are counted from, five starts in a row that each
      ask for a restart, none of the later four healthy, end it at the fifth with the reserved status. */
  lemma FiveStartsExhaust(policy: Policy, runs: seq<Run>, delays: seq<nat>, end: Option<nat>, first: nat)
    requires Supervised(policy, runs, delays, end) && first <= |delays|
    requires CountsFrom(runs, first, first + ATTEMPT_LIMIT - 1)
    requires forall k :: first <= k < first + ATTEMPT_LIMIT ==> AsksRestart(policy, runs[k])
    ensures |delays| == first + ATTEMPT_LIMIT - 1 && end == Some(EXHAUSTED_STATUS)
  {
    var last := first + ATTEMPT_LIMIT - 1;
    if |delays| > last {
      assert Restarted(policy, runs, delays, last);
      var other: nat :| CountsFrom(runs, other, last) && last - other + 1 < ATTEMPT_LIMIT;
      CountedOnce(runs, first, other, last);
    } else {
      var stop := |delays|;
      var other: nat :| CountsFrom(runs, other, stop) && stop - other + 1 == ATTEMPT_LIMIT;
      assert CountsFrom(runs, first, stop);
      CountedOnce(runs, first, other, stop);
    }
  }

  // ----- What each policy comes to -----

  /** This run and the three before it lasted less than a minute each, and there is one more before. */
  predicate FourBehind(runs: seq<Run>, last: nat) {
    4 <= last < |runs| && forall k :: last - 4 < k <= last ==> runs[k].seconds < 60
  }

  /** On failure: every run that was followed by another one had failed, and the loop ends with a run
      that succeeded, or exhausted. */
  lemma OnFailureRestartsFailures(runs: seq<Run>, delays: seq<nat>, end: Option<nat>)
    requires Supervised(OnFailure, runs, delays, end)
    ensures forall i :: 0 <= i < |delays| ==> runs[i].status != 0
    ensures end.Some? ==>
      if runs[|delays|].status == 0 then end == Some(0) else end == Some(70) && FourBehind(runs, |delays|)
  {
    forall i | 0 <= i < |delays|
      ensures runs[i].status != 0
    {
      assert Restarted(OnFailure, runs, delays, i);
    }
  }

  /** Never: the first run is the last, and its status the loop's. */
  lemma NeverRestarts(runs: seq<Run>, delays: seq<nat>, end: Option<nat>)
    requires Supervised(Never, runs, delays, end)
    ensures delays == []
    ensures runs != [] ==> end == Some(runs[0].status)
  {
    assert delays != [] ==> Restarted(Never, runs, delays, 0);
  }

  /** Always: the loop ends only exhausted. */
  lemma AlwaysEndsExhausted(runs: seq<Run>, delays: seq<nat>, end: Option<nat>)
    requires Supervised(Always, runs, delays, end)
    ensures end.Some? ==> end == Some(70) && FourBehind(runs, |delays|)
  {
  }

  /** Every delay by the runs alone: a second behind a run of at least a minute, or behind the very
      first; behind any other run two seconds after a delay of one, and four after that. */
  lemma DelaysGrow(policy: Policy, runs: seq<Run>, delays: seq<nat>, end: Option<nat>, i: nat)
    requires Supervised(policy, runs, delays, end) && i < |delays|
    ensures delays[i] ==
            if i == 0 || runs[i].seconds >= 60 then 1 else if delays[i - 1] == 1 then 2 else 4
  {
    assert Restarted(policy, runs, delays, i);
    var first: nat :| CountsFrom(runs, first, i) && delays[i] == Delay(i - first + 1);
    if i > 0 && runs[i].seconds < 60 {
      assert Restarted(policy, runs, delays, i - 1);
      var other: nat :| CountsFrom(runs, other, i - 1) && delays[i - 1] == Delay(i - 1 - other + 1);
      assert CountsFrom(runs, first, i - 1);
      CountedOnce(runs, first, other, i - 1);
    }
  }

  /** From the first run or one of at least a minute on, four more in a row of less than a minute, all
      five asking for a restart, end the loop at the fifth, and then with status 70. */
  lemma FiveInARow(policy: Policy, runs: seq<Run>, delays: seq<nat>, end: Option<nat>, first: nat)
    requires Supervised(policy, runs, delays, end) && first <= |delays| && first + 5 <= |runs|
    requires first == 0 || runs[first].seconds >= 60
    requires forall k :: first < k < first + 5 ==> runs[k].seconds < 60
    requires forall k :: first <= k < first + 5 ==> policy == Always || (policy == OnFailure && runs[k].status != 0)
    ensures |delays| == first + 4 && end == Some(70)
  {
    assert CountsFrom(runs, first, first + 4);
    FiveStartsExhaust(policy, runs, delays, end, first);
  }
}
