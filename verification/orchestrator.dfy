/** One orchestrator run: goroutines, a counting semaphore, a buffered result channel and a collector. */
module Orchestrator {
  import opened Aggregator
  import opened MultiAgent
  import opened Text

  // ---------- the protocol ----------

  /** Where the goroutine of one task stands. It holds a semaphore slot from Holding to Queued. */
  datatype Phase =
    | Waiting
    | Holding
    | Computed(result: Result)
    | Queued(result: Result)
    | Finished(result: Result)

  datatype Item = Item(index: nat, result: Result)

  datatype Collector = Collecting | Returned | Aborted

  datatype State = State(phases: seq<Phase>, slots: nat, channel: seq<Item>, results: seq<Option<Result>>,
                         received: nat, contextDone: bool, collector: Collector)

  datatype Step =
    | Acquire(i: nat)
    | Finish(i: nat, result: Result)
    | Send(i: nat)
    | Release(i: nat)
    | Receive
    | Return
    | Cancel
    | Abort

  function Init(n: nat): State {
    State(seq(n, i => Waiting), 0, [], seq(n, i => None), 0, false, Collecting)
  }

  predicate Enabled(max: nat, s: State, step: Step) {
    match step
    case Acquire(i) => i < |s.phases| && s.phases[i] == Waiting && s.slots < max
    case Finish(i, _) => i < |s.phases| && s.phases[i] == Holding
    case Send(i) => i < |s.phases| && s.phases[i].Computed? && |s.channel| < |s.phases|
    case Release(i) => i < |s.phases| && s.phases[i].Queued? && s.slots > 0
    case Receive => s.collector == Collecting && s.received < |s.phases| && s.channel != []
    case Return => s.collector == Collecting && s.received == |s.phases|
    case Cancel => !s.contextDone
    case Abort => s.collector == Collecting && s.received < |s.phases| && s.contextDone
  }

  function Apply(s: State, step: Step): State {
    match step
    case Acquire(i) =>
      if i < |s.phases| then s.(phases := s.phases[i := Holding], slots := s.slots + 1) else s
    case Finish(i, r) =>
      if i < |s.phases| then s.(phases := s.phases[i := Computed(r)]) else s
    case Send(i) =>
      if i < |s.phases| && s.phases[i].Computed? then
        s.(phases := s.phases[i := Queued(s.phases[i].result)], channel := s.channel + [Item(i, s.phases[i].result)])
      else s
    case Release(i) =>
      if i < |s.phases| && s.phases[i].Queued? && s.slots > 0 then
        s.(phases := s.phases[i := Finished(s.phases[i].result)], slots := s.slots - 1)
      else s
    case Receive =>
      if s.channel != [] && s.channel[0].index < |s.results| then
        s.(channel := s.channel[1..], results := s.results[s.channel[0].index := Some(s.channel[0].result)],
           received := s.received + 1)
      else s
    case Return => s.(collector := Returned)
    case Cancel => s.(contextDone := true)
    case Abort => s.(collector := Aborted)
  }

  predicate Follows(max: nat, s: State, steps: seq<Step>)
    decreases |steps|
  {
    steps == [] || (Enabled(max, s, steps[0]) && Follows(max, Apply(s, steps[0]), steps[1..]))
  }

  function After(s: State, steps: seq<Step>): State
    decreases |steps|
  {
    if steps == [] then s else After(Apply(s, steps[0]), steps[1..])
  }

  // ---------- what every step keeps ----------

  predicate Active(p: Phase) {
    p.Holding? || p.Computed? || p.Queued?
  }

  predicate Sent(p: Phase) {
    p.Queued? || p.Finished?
  }

  function Weight(p: Phase): int {
    if Active(p) then 1 else 0
  }

  /** Goroutines that hold a slot: the running ones are among them. */
  function Holders(phases: seq<Phase>): (n: nat) {
    if phases == [] then 0 else (if Active(phases[0]) then 1 else 0) + Holders(phases[1..])
  }

  function SentCount(phases: seq<Phase>): (n: nat)
    ensures n <= |phases|
    ensures n == |phases| ==> forall p | p in phases :: Sent(p)
  {
    if phases == [] then 0 else (if Sent(phases[0]) then 1 else 0) + SentCount(phases[1..])
  }

  predicate InChannel(s: State, i: nat) {
    exists k | 0 <= k < |s.channel| :: s.channel[k].index == i
  }

  /** Each queued item is the result of a goroutine that sent it, and has not been received. */
  predicate ItemsOk(s: State)
    requires |s.results| == |s.phases|
  {
    forall k | 0 <= k < |s.channel| ::
      var item := s.channel[k];
      item.index < |s.phases| && Sent(s.phases[item.index]) && s.phases[item.index].result == item.result
      && s.results[item.index] == None
  }

  predicate ItemsDistinct(channel: seq<Item>) {
    forall j, k | 0 <= j < k < |channel| :: channel[j].index != channel[k].index
  }

  /** Each received result is the one its goroutine sent, and nothing sent is lost. */
  predicate ResultsOk(s: State)
    requires |s.results| == |s.phases|
  {
    && (forall i | 0 <= i < |s.phases| :: s.results[i].Some? ==> Sent(s.phases[i]) && s.results[i].value == s.phases[i].result)
    && (forall i | 0 <= i < |s.phases| :: Sent(s.phases[i]) ==> s.results[i].Some? || InChannel(s, i))
  }

  predicate Inv(max: nat, s: State) {
    && |s.results| == |s.phases|
    && s.slots == Holders(s.phases) <= max
    && |s.channel| + s.received == SentCount(s.phases)
    && ItemsOk(s)
    && ItemsDistinct(s.channel)
    && ResultsOk(s)
    && (s.collector == Returned ==> s.received == |s.phases|)
  }

  lemma {:induction false} HoldersUpdate(phases: seq<Phase>, i: nat, p: Phase)
    requires i < |phases|
    ensures Holders(phases[i := p]) ==
            Holders(phases) + (if Active(p) then 1 else 0) - (if Active(phases[i]) then 1 else 0)
    ensures SentCount(phases[i := p]) ==
            SentCount(phases) + (if Sent(p) then 1 else 0) - (if Sent(phases[i]) then 1 else 0)
  {
    if i == 0 {
      assert phases[0 := p][1..] == phases[1..];
    } else {
      assert phases[i := p][1..] == phases[1..][i - 1 := p];
      HoldersUpdate(phases[1..], i - 1, p);
    }
  }

  lemma {:induction false} AllWaiting(n: nat)
    ensures Holders(Init(n).phases) == 0 && SentCount(Init(n).phases) == 0
  {
    if n > 0 {
      assert Init(n).phases[1..] == Init(n - 1).phases;
      AllWaiting(n - 1);
    }
  }

  lemma InitInv(max: nat, n: nat)
    ensures Inv(max, Init(n))
  {
    AllWaiting(n);
  }

  lemma StepInv(max: nat, s: State, step: Step)
    requires Inv(max, s) && Enabled(max, s, step)
    ensures Inv(max, Apply(s, step))
  {
    match step {
      case Acquire(i) => PhaseInv(max, s, i, Holding);
      case Finish(i, r) => PhaseInv(max, s, i, Computed(r));
      case Send(i) => SendInv(max, s, i);
      case Release(i) => PhaseInv(max, s, i, Finished(s.phases[i].result));
      case Receive => ReceiveInv(max, s);
      case Return => ChannelKept(s, Apply(s, step));
      case Cancel => ChannelKept(s, Apply(s, step));
      case Abort => ChannelKept(s, Apply(s, step));
    }
  }

  lemma ChannelKept(s: State, s': State)
    requires s'.channel == s.channel
    ensures forall i :: InChannel(s, i) == InChannel(s', i)
  {
  }

  /** A goroutine moves on without sending. */
  lemma PhaseInv(max: nat, s: State, i: nat, p: Phase)
    requires Inv(max, s) && i < |s.phases| && Sent(p) == Sent(s.phases[i])
    requires Sent(p) ==> p.result == s.phases[i].result
    requires 0 <= s.slots + Weight(p) - Weight(s.phases[i]) <= max
    ensures Inv(max, s.(phases := s.phases[i := p], slots := s.slots + Weight(p) - Weight(s.phases[i])))
  {
    HoldersUpdate(s.phases, i, p);
    var s' := s.(phases := s.phases[i := p], slots := s.slots + Weight(p) - Weight(s.phases[i]));
    ChannelKept(s, s');
    assert forall j | 0 <= j < |s.phases| :: Sent(s'.phases[j]) == Sent(s.phases[j]);
    assert forall j | 0 <= j < |s.phases| && Sent(s.phases[j]) :: s'.phases[j].result == s.phases[j].result;
  }

  lemma SendInv(max: nat, s: State, i: nat)
    requires Inv(max, s) && Enabled(max, s, Send(i))
    ensures Inv(max, Apply(s, Send(i)))
  {
    var s' := Apply(s, Send(i));
    HoldersUpdate(s.phases, i, Queued(s.phases[i].result));
    assert !InChannel(s, i) && s.results[i] == None by {
      assert !Sent(s.phases[i]);
    }
    SendDistinct(s.channel, Item(i, s.phases[i].result));
    SendDelivered(s, i, s');
  }

  lemma SendDistinct(channel: seq<Item>, item: Item)
    requires ItemsDistinct(channel) && forall k | 0 <= k < |channel| :: channel[k].index != item.index
    ensures ItemsDistinct(channel + [item])
  {
  }

  lemma SendDelivered(s: State, i: nat, s': State)
    requires |s'.channel| == |s.channel| + 1 && s'.channel[|s.channel|].index == i
    requires forall k | 0 <= k < |s.channel| :: s'.channel[k] == s.channel[k]
    ensures InChannel(s', i) && forall j :: InChannel(s, j) ==> InChannel(s', j)
  {
    assert s'.channel[|s.channel|].index == i;
    forall j: nat | InChannel(s, j)
      ensures InChannel(s', j)
    {
      var k :| 0 <= k < |s.channel| && s.channel[k].index == j;
      assert s'.channel[k].index == j;
    }
  }

  lemma ReceiveInv(max: nat, s: State)
    requires Inv(max, s) && Enabled(max, s, Receive)
    ensures Inv(max, Apply(s, Receive))
  {
    var s' := Apply(s, Receive);
    assert forall k | 0 <= k < |s'.channel| :: s'.channel[k] == s.channel[k + 1];
    forall j | 0 <= j < |s.phases| && Sent(s'.phases[j])
      ensures s'.results[j].Some? || InChannel(s', j)
    {
      if j != s.channel[0].index && InChannel(s, j) {
        var k :| 0 <= k < |s.channel| && s.channel[k].index == j;
        assert s'.channel[k - 1].index == j;
      }
    }
  }

  lemma {:induction false} RunInv(max: nat, s: State, steps: seq<Step>)
    requires Inv(max, s) && Follows(max, s, steps)
    ensures Inv(max, After(s, steps))
    decreases |steps|
  {
    if steps != [] {
      StepInv(max, s, steps[0]);
      RunInv(max, Apply(s, steps[0]), steps[1..]);
    }
  }

  function Running(phases: seq<Phase>): (n: nat)
    ensures n <= Holders(phases)
  {
    if phases == [] then 0 else (if phases[0] == Holding then 1 else 0) + Running(phases[1..])
  }

  /** In every interleaving, cancelled or not, at most `max` runners are active at once. */
  lemma AtMostMaxRunning(max: nat, n: nat, steps: seq<Step>)
    requires Follows(max, Init(n), steps)
    ensures Running(After(Init(n), steps).phases) <= max
  {
    InitInv(max, n);
    RunInv(max, Init(n), steps);
  }

  // ---------- progress ----------

  function Rank(p: Phase): nat {
    match p case Waiting => 4 case Holding => 3 case Computed(_) => 2 case Queued(_) => 1 case Finished(_) => 0
  }

  function RankSum(phases: seq<Phase>): nat {
    if phases == [] then 0 else Rank(phases[0]) + RankSum(phases[1..])
  }

  function Measure(s: State): nat {
    RankSum(s.phases) + |s.phases| - (if s.received <= |s.phases| then s.received else |s.phases|)
    + (if s.collector == Collecting then 1 else 0) + (if s.contextDone then 0 else 1)
  }

  lemma {:induction false} RankSumUpdate(phases: seq<Phase>, i: nat, p: Phase)
    requires i < |phases|
    ensures RankSum(phases[i := p]) == RankSum(phases) + Rank(p) - Rank(phases[i])
  {
    if i == 0 {
      assert phases[0 := p][1..] == phases[1..];
    } else {
      assert phases[i := p][1..] == phases[1..][i - 1 := p];
      RankSumUpdate(phases[1..], i - 1, p);
    }
  }

  /** Every step, of whatever kind, uses up the measure: no run is infinite. */
  lemma StepLowersMeasure(max: nat, s: State, step: Step)
    requires Inv(max, s) && Enabled(max, s, step)
    ensures Measure(Apply(s, step)) < Measure(s)
  {
    match step {
      case Acquire(i) => RankSumUpdate(s.phases, i, Holding);
      case Finish(i, r) => RankSumUpdate(s.phases, i, Computed(r));
      case Send(i) => RankSumUpdate(s.phases, i, Queued(s.phases[i].result));
      case Release(i) => RankSumUpdate(s.phases, i, Finished(s.phases[i].result));
      case Receive => assert s.channel[0].index < |s.results|;
      case Return =>
      case Cancel =>
      case Abort =>
    }
  }

  /** The collector has stopped and every goroutine has ended. */
  predicate Final(s: State) {
    s.collector != Collecting && forall p | p in s.phases :: p.Finished?
  }

  /** A step of the program itself: not the environment cancelling the context. */
  predicate Own(step: Step) {
    !step.Cancel?
  }

  /** With at least one slot, nothing is ever stuck before the end, even after an abort. */
  lemma Progress(max: nat, s: State, r: Result) returns (step: Step)
    requires max >= 1 && Inv(max, s) && !Final(s)
    ensures Enabled(max, s, step) && Own(step) && !step.Abort? && (step.Finish? ==> step.result == r)
  {
    if i :| 0 <= i < |s.phases| && s.phases[i] == Holding {
      step := Finish(i, r);
    } else if i :| 0 <= i < |s.phases| && s.phases[i].Computed? {
      assert s.phases[i] in s.phases;
      step := Send(i);
    } else if i :| 0 <= i < |s.phases| && s.phases[i].Queued? {
      HoldersUpdate(s.phases, i, Waiting);
      step := Release(i);
    } else if i :| 0 <= i < |s.phases| && s.phases[i] == Waiting {
      NoHolders(s.phases);
      step := Acquire(i);
    } else {
      AllSent(s.phases);
      step := if s.received == |s.phases| then Return else Receive;
    }
  }

  lemma NoHolders(phases: seq<Phase>)
    requires forall i | 0 <= i < |phases| :: !Active(phases[i])
    ensures Holders(phases) == 0
  {
  }

  lemma AllSent(phases: seq<Phase>)
    requires forall i | 0 <= i < |phases| :: Sent(phases[i])
    ensures SentCount(phases) == |phases|
  {
  }

  /** From every reachable state the run can be finished without cancelling it. */
  lemma {:induction false} CanFinish(max: nat, s: State, r: Result) returns (steps: seq<Step>)
    requires max >= 1 && Inv(max, s)
    ensures Follows(max, s, steps) && Final(After(s, steps))
    ensures s.collector != Aborted ==> After(s, steps).collector == Returned
    decreases Measure(s)
  {
    if Final(s) {
      steps := [];
    } else {
      var step := Progress(max, s, r);
      StepInv(max, s, step);
      StepLowersMeasure(max, s, step);
      var rest := CanFinish(max, Apply(s, step), r);
      steps := [step] + rest;
      assert steps[1..] == rest;
    }
  }

  /** Without a slot nothing ever starts: every run only cancels, and may then abort. */
  lemma {:induction false} NoSlotNoStart(s: State, steps: seq<Step>)
    requires s.phases == Init(|s.phases|).phases && s.channel == [] && s.received == 0 && |s.phases| > 0
    requires s.collector != Returned && Follows(0, s, steps)
    ensures After(s, steps).phases == s.phases && After(s, steps).collector != Returned
    decreases |steps|
  {
    if steps != [] {
      NoSlotNoStart(Apply(s, steps[0]), steps[1..]);
    }
  }

  ghost predicate CanReturn(max: nat, n: nat) {
    exists steps :: Follows(max, Init(n), steps) && After(Init(n), steps).collector == Returned
  }

  /** A parallel run of a non-empty plan can return results exactly when it has at least one slot. */
  lemma ReturnsIffSlots(max: nat, n: nat, r: Result)
    requires n > 0
    ensures CanReturn(max, n) <==> max >= 1
  {
    if max >= 1 {
      InitInv(max, n);
      var steps := CanFinish(max, Init(n), r);
    } else {
      forall steps | Follows(max, Init(n), steps)
        ensures After(Init(n), steps).collector != Returned
      {
        NoSlotNoStart(Init(n), steps);
      }
    }
  }

  // ---------- agreement with the sequential form ----------

  /** Every finished runner reported what `runner` makes of its task. */
  predicate Faithful(tasks: seq<Task>, runner: Task -> Result, steps: seq<Step>) {
    forall k | 0 <= k < |steps| :: steps[k].Finish? && steps[k].i < |tasks| ==> steps[k].result == runner(tasks[steps[k].i])
  }

  predicate PhasesFaithful(tasks: seq<Task>, runner: Task -> Result, phases: seq<Phase>) {
    && |phases| == |tasks|
    && forall i | 0 <= i < |tasks| :: !phases[i].Waiting? && !phases[i].Holding? ==> phases[i].result == runner(tasks[i])
  }

  lemma {:induction false} RunFaithful(max: nat, tasks: seq<Task>, runner: Task -> Result, s: State, steps: seq<Step>)
    requires Follows(max, s, steps) && Faithful(tasks, runner, steps) && PhasesFaithful(tasks, runner, s.phases)
    ensures PhasesFaithful(tasks, runner, After(s, steps).phases)
    decreases |steps|
  {
    if steps != [] {
      assert [steps[0]][0] == steps[0];
      StepFaithful(max, tasks, runner, s, steps[0]);
      assert forall k | 0 <= k < |steps[1..]| :: steps[1..][k] == steps[k + 1];
      RunFaithful(max, tasks, runner, Apply(s, steps[0]), steps[1..]);
    }
  }

  lemma StepFaithful(max: nat, tasks: seq<Task>, runner: Task -> Result, s: State, step: Step)
    requires Enabled(max, s, step) && Faithful(tasks, runner, [step]) && PhasesFaithful(tasks, runner, s.phases)
    ensures PhasesFaithful(tasks, runner, Apply(s, step).phases)
  {
    assert [step][0].Finish? ==> step.result == runner(tasks[step.i]);
  }

  /** What the sequential form computes. */
  function SequentialResults(tasks: seq<Task>, runner: Task -> Result): seq<Result> {
    seq(|tasks|, i requires 0 <= i < |tasks| => runner(tasks[i]))
  }

  function Unwrap(results: seq<Option<Result>>): seq<Result>
    requires forall i | 0 <= i < |results| :: results[i].Some?
  {
    seq(|results|, i requires 0 <= i < |results| => results[i].value)
  }

  lemma ReturnedIsComplete(max: nat, s: State)
    requires Inv(max, s) && s.received == |s.phases|
    ensures s.channel == []
    ensures forall i | 0 <= i < |s.results| ::
              s.results[i].Some? && Sent(s.phases[i]) && s.results[i].value == s.phases[i].result
  {
    forall i | 0 <= i < |s.results|
      ensures Sent(s.phases[i]) && s.results[i].Some?
    {
      assert s.phases[i] in s.phases;
      assert !InChannel(s, i);
    }
  }

  /** Every interleaving that returns, returns the results and the aggregate of the sequential form. */
  lemma ParallelAgreesWithSequential(max: nat, tasks: seq<Task>, runner: Task -> Result, steps: seq<Step>)
    requires Follows(max, Init(|tasks|), steps) && Faithful(tasks, runner, steps)
    requires After(Init(|tasks|), steps).collector == Returned
    ensures var s := After(Init(|tasks|), steps);
            && (forall i | 0 <= i < |s.results| :: s.results[i].Some?)
            && Unwrap(s.results) == SequentialResults(tasks, runner)
            && AggregateOf(Unwrap(s.results)) == AggregateOf(SequentialResults(tasks, runner))
  {
    InitInv(max, |tasks|);
    RunInv(max, Init(|tasks|), steps);
    RunFaithful(max, tasks, runner, Init(|tasks|), steps);
    var s := After(Init(|tasks|), steps);
    ReturnedIsComplete(max, s);
    assert Unwrap(s.results) == SequentialResults(tasks, runner);
  }

  // ---------- Run ----------

  datatype RunOutcome =
    | Rejected(error: PolicyError)
    | Panicked
    | Hung
    | Cancelled
    | Ok(results: seq<Result>, aggregate: Aggregate)

  /** Picks an enabled step in every state that is not over, and none only where the program has none of its own left and
      the context is never done; runners report what `runner` says. */
  ghost predicate Scheduler(max: nat, tasks: seq<Task>, runner: Task -> Result, schedule: State -> Option<Step>) {
    forall s | Inv(max, s) && s.collector == Collecting && |s.phases| == |tasks| ::
      match schedule(s)
      case Some(step) => Enabled(max, s, step) && Faithful(tasks, runner, [step])
      case None => forall step | Own(step) :: !Enabled(max, s, step)
  }

  ghost predicate NeverDone(schedule: State -> Option<Step>) {
    forall s :: schedule(s) != Some(Cancel)
  }

  /** A run without slots: nothing has happened but that the context may have ended and the collector left. */
  predicate Idle(n: nat, s: State) {
    s == Init(n).(contextDone := s.contextDone, collector := s.collector) && s.collector != Returned
    && (s.collector == Aborted ==> s.contextDone)
  }

  lemma IdleStep(n: nat, s: State, step: Step)
    requires n > 0 && Idle(n, s) && s.collector == Collecting && Enabled(0, s, step)
    ensures Idle(n, Apply(s, step)) && step == if s.contextDone then Abort else Cancel
  {
  }

  /** The parallel branch under any scheduler. With a slot it ends, with the sequential results unless it was cancelled;
      without one it is cancelled if the context is ever done, and hangs otherwise. */
  method RunParallel(max: nat, tasks: seq<Task>, runner: Task -> Result, schedule: State -> Option<Step>) returns (outcome: RunOutcome)
    requires Scheduler(max, tasks, runner, schedule)
    ensures outcome in [Ok(SequentialResults(tasks, runner), AggregateOf(SequentialResults(tasks, runner))), Cancelled, Hung]
    ensures outcome.Hung? <==> max == 0 && tasks != [] && schedule(Init(|tasks|)) == None
    ensures max == 0 && tasks != [] ==> outcome == if schedule(Init(|tasks|)) == Some(Cancel) then Cancelled else Hung
    ensures outcome.Cancelled? ==> !NeverDone(schedule)
  {
    var s := Init(|tasks|);
    InitInv(max, |tasks|);
    while s.collector == Collecting
      invariant Inv(max, s) && PhasesFaithful(tasks, runner, s.phases)
      invariant max == 0 && tasks != [] ==> Idle(|tasks|, s) && (s.contextDone ==> schedule(Init(|tasks|)) == Some(Cancel))
      invariant NeverDone(schedule) ==> !s.contextDone
      invariant s.collector == Aborted ==> s.contextDone
      decreases Measure(s)
    {
      var next := schedule(s);
      if next == None {
        Stuck(max, s);
        return Hung;
      }
      var step := next.value;
      if max == 0 && tasks != [] {
        IdleStep(|tasks|, s, step);
      }
      StepFaithful(max, tasks, runner, s, step);
      StepInv(max, s, step);
      StepLowersMeasure(max, s, step);
      s := Apply(s, step);
    }
    if s.collector == Aborted {
      return Cancelled;
    }
    ReturnedIsComplete(max, s);
    var results := Unwrap(s.results);
    assert results == SequentialResults(tasks, runner);
    var aggregate := Collect(results);
    return Ok(results, aggregate);
  }

  /** A run in which the program has no step left while collecting has no slots, and its context is not done. */
  lemma Stuck(max: nat, s: State)
    requires Inv(max, s) && s.collector == Collecting && forall step | Own(step) :: !Enabled(max, s, step)
    ensures max == 0 && s.phases != [] && !s.contextDone
  {
    assert !Enabled(max, s, Return);
    assert !Enabled(max, s, Abort);
    if max >= 1 {
      var _ := Progress(max, s, Result("", Skipped, "", [], [], []));
    }
  }

  /** The sequential branch; `done(i)` says whether the context is seen done before task i. */
  method RunSequential(tasks: seq<Task>, runner: Task -> Result, done: nat -> bool) returns (outcome: RunOutcome)
    ensures outcome == Ok(SequentialResults(tasks, runner), AggregateOf(SequentialResults(tasks, runner))) || outcome == Cancelled
    ensures outcome == Cancelled <==> exists i: nat | i < |tasks| :: done(i)
  {
    var results := [];
    for i := 0 to |tasks|
      invariant results == SequentialResults(tasks[..i], runner)
      invariant forall k: nat | k < i :: !done(k)
    {
      if done(i) {
        return Cancelled;
      }
      results := results + [runner(tasks[i])];
    }
    assert tasks[..|tasks|] == tasks;
    var aggregate := Collect(results);
    return Ok(results, aggregate);
  }

  /** Validates, then runs. A parallel plan whose concurrency is negative panics, and one whose concurrency is zero hangs
      unless its context is done: the policy repairs the value only on its own copy. */
  method Run(policy: Policy, plan: Plan, runner: Task -> Result, schedule: State -> Option<Step>, done: nat -> bool)
    returns (outcome: RunOutcome)
    requires plan.mode == Parallel && plan.maxConcurrent >= 0 ==> Scheduler(plan.maxConcurrent, plan.tasks, runner, schedule)
    ensures outcome.Rejected? <==> !Acceptable(policy, plan)
    ensures outcome.Rejected? ==> Justified(policy, plan, outcome.error)
    ensures outcome.Panicked? <==> Acceptable(policy, plan) && plan.mode == Parallel && plan.maxConcurrent < 0
    ensures outcome.Hung? <==> Acceptable(policy, plan) && plan.mode == Parallel && plan.maxConcurrent == 0
                               && schedule(Init(|plan.tasks|)) == None
    ensures outcome.Ok? ==> outcome.results == SequentialResults(plan.tasks, runner)
                            && outcome.aggregate == AggregateOf(outcome.results)
    ensures outcome.Ok? && plan.mode == Parallel ==> plan.maxConcurrent >= 1
    ensures outcome.Cancelled? ==> if plan.mode == Parallel then !NeverDone(schedule) else exists i: nat | i < |plan.tasks| :: done(i)
  {
    var error := Validate(policy, plan);
    if error.Some? {
      return Rejected(error.value);
    }
    if plan.mode == Parallel {
      if plan.maxConcurrent < 0 {
        return Panicked;
      }
      outcome := RunParallel(plan.maxConcurrent, plan.tasks, runner, schedule);
    } else {
      outcome := RunSequential(plan.tasks, runner, done);
    }
  }

  /** Planning and running together get stuck exactly for several tasks that do not write, under a negative policy, or
      under a zero one while the context is never done. */
  method BuildAndRun(policy: Policy, objective: string, tasks: seq<Task>, runner: Task -> Result,
                     schedule: State -> Option<Step>, done: nat -> bool)
    returns (outcome: RunOutcome)
    requires var max := Min(policy.maxConcurrent, |tasks|);
             NoneWrites(tasks) && max >= 0 ==> Scheduler(max, tasks, runner, schedule)
    ensures outcome.Rejected? <==> Blank(objective) || tasks == [] || !TasksAcceptable(tasks)
    ensures outcome.Panicked? <==> !outcome.Rejected? && NoneWrites(tasks) && policy.maxConcurrent < 0
    ensures outcome.Hung? <==> !outcome.Rejected? && NoneWrites(tasks) && policy.maxConcurrent == 0
                               && schedule(Init(|tasks|)) == None
    ensures outcome.Cancelled? ==> if NoneWrites(tasks) then !NeverDone(schedule) else exists i: nat | i < |tasks| :: done(i)
    ensures outcome.Ok? ==> outcome.results == SequentialResults(tasks, runner)
                            && outcome.aggregate == AggregateOf(outcome.results)
  {
    var plan, error := Build(policy, objective, tasks);
    if error.Some? {
      return Rejected(error.value);
    }
    outcome := Run(policy, plan, runner, schedule, done);
  }

  /** Several tasks, none of which writes: what the planner runs in parallel. */
  predicate NoneWrites(tasks: seq<Task>) {
    |tasks| > 1 && forall i | 0 <= i < |tasks| :: tasks[i].writeScopes == []
  }

  // ---------- schedulers and interleavings ----------

  /** Picks these steps, one after the other. */
  ghost predicate Drives(schedule: State -> Option<Step>, s: State, steps: seq<Step>) {
    forall i | 0 <= i < |steps| :: schedule(After(s, steps[..i])) == Some(steps[i])
  }

  /** The step a path takes from a state, if the path comes through it. */
  function OnPath(start: State, steps: seq<Step>, s: State): Option<Step>
    decreases |steps|
  {
    if steps == [] then None
    else if s == start then Some(steps[0])
    else OnPath(Apply(start, steps[0]), steps[1..], s)
  }

  ghost predicate Good(max: nat, tasks: seq<Task>, runner: Task -> Result, s: State, step: Step) {
    Own(step) && Enabled(max, s, step) && Faithful(tasks, runner, [step])
  }

  ghost function Otherwise(max: nat, tasks: seq<Task>, runner: Task -> Result, s: State): Option<Step> {
    if step :| Good(max, tasks, runner, s, step) then Some(step) else None
  }

  /** The schedulers leave no interleaving out: each one is what some scheduler picks. */
  lemma EveryInterleavingScheduled(max: nat, tasks: seq<Task>, runner: Task -> Result, steps: seq<Step>)
    returns (schedule: State -> Option<Step>)
    requires Follows(max, Init(|tasks|), steps) && Faithful(tasks, runner, steps)
    ensures Scheduler(max, tasks, runner, schedule) && Drives(schedule, Init(|tasks|), steps)
  {
    hide Otherwise;
    hide Inv;
    hide Enabled;
    hide Apply;
    hide Init;
    var start := Init(|tasks|);
    schedule := s => if OnPath(start, steps, s).Some? then OnPath(start, steps, s) else Otherwise(max, tasks, runner, s);
    forall s | Inv(max, s) && s.collector == Collecting && |s.phases| == |tasks|
      ensures match schedule(s)
              case Some(step) => Enabled(max, s, step) && Faithful(tasks, runner, [step])
              case None => forall step | Own(step) :: !Enabled(max, s, step)
    {
      OnPathFollows(max, tasks, runner, start, steps, s);
      OtherwiseGood(max, tasks, runner, s);
    }
    InitInv(max, |tasks|);
    forall i | 0 <= i < |steps| ensures schedule(After(start, steps[..i])) == Some(steps[i]) {
      OnPathAt(max, start, steps, i);
    }
  }

  lemma {:induction false} OnPathFollows(max: nat, tasks: seq<Task>, runner: Task -> Result, start: State, steps: seq<Step>, s: State)
    requires Follows(max, start, steps) && Faithful(tasks, runner, steps)
    ensures OnPath(start, steps, s).Some? ==>
              Enabled(max, s, OnPath(start, steps, s).value) && Faithful(tasks, runner, [OnPath(start, steps, s).value])
    decreases |steps|
  {
    hide Enabled;
    hide Apply;
    if steps != [] {
      assert forall k | 0 <= k < |steps[1..]| :: steps[1..][k] == steps[k + 1];
      OnPathFollows(max, tasks, runner, Apply(start, steps[0]), steps[1..], s);
    }
  }

  lemma OtherwiseGood(max: nat, tasks: seq<Task>, runner: Task -> Result, s: State)
    requires |s.phases| == |tasks|
    ensures match Otherwise(max, tasks, runner, s)
            case Some(step) => Enabled(max, s, step) && Faithful(tasks, runner, [step])
            case None => forall step | Own(step) :: !Enabled(max, s, step)
  {
    if Otherwise(max, tasks, runner, s).None? {
      forall step | Own(step) ensures !Enabled(max, s, step) {
        var honest := if step.Finish? && step.i < |tasks| then Finish(step.i, runner(tasks[step.i])) else step;
        assert !Good(max, tasks, runner, s, honest);
      }
    }
  }

  lemma {:induction false} PathLowers(max: nat, s: State, steps: seq<Step>)
    requires Inv(max, s) && Follows(max, s, steps)
    ensures Measure(After(s, steps)) + |steps| <= Measure(s)
    decreases |steps|
  {
    hide Inv;
    hide Enabled;
    hide Apply;
    hide Measure;
    if steps != [] {
      StepInv(max, s, steps[0]);
      StepLowersMeasure(max, s, steps[0]);
      PathLowers(max, Apply(s, steps[0]), steps[1..]);
    }
  }

  /** A path never comes back to a state, because every step lowers the measure. */
  lemma {:induction false} OnPathAt(max: nat, start: State, steps: seq<Step>, i: nat)
    requires Inv(max, start) && Follows(max, start, steps) && i < |steps|
    ensures OnPath(start, steps, After(start, steps[..i])) == Some(steps[i])
    decreases |steps|
  {
    hide Inv;
    hide Enabled;
    hide Apply;
    hide Measure;
    if i > 0 {
      FollowsPrefix(max, start, steps, i);
      PathLowers(max, start, steps[..i]);
      StepInv(max, start, steps[0]);
      OnPathAt(max, Apply(start, steps[0]), steps[1..], i - 1);
      assert steps[..i][1..] == steps[1..][..i - 1];
    }
  }

  lemma {:induction false} FollowsPrefix(max: nat, s: State, steps: seq<Step>, i: nat)
    requires Follows(max, s, steps) && i <= |steps|
    ensures Follows(max, s, steps[..i])
    decreases |steps|
  {
    hide Enabled;
    hide Apply;
    if i > 0 {
      FollowsPrefix(max, Apply(s, steps[0]), steps[1..], i - 1);
      assert steps[..i][1..] == steps[1..][..i - 1];
    }
  }
}
