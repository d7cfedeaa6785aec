/** How a mission or a chain run ends, read off the plan and the answers with the rules written out: the cap,
    the gates, the outcomes. */
module PlanReading {
  import opened Options
  import opened Conditions
  import opened StepMachine
  import opened StepInvariants
  import opened StepGates
  import opened Refinement

  /** How many steps may run: all of a chain, the first `max_steps` of a mission. */
  function Allowed(p: Plan): nat {
    match p
    case ChainPlan(conditions) => |conditions|
    case MissionPlan(hasTool, maxSteps) => if |hasTool| < maxSteps then |hasTool| else maxSteps
  }

  /** The plan itself lets step `i` run: a chain step's condition holds of the result before it, a mission step
      has a tool. */
  predicate PlanAllows(p: Plan, script: seq<Answer>, i: nat)
    requires |script| == Length(p) && i < Length(p)
  {
    match p
    case ChainPlan(conditions) => i == 0 || Holds(conditions[i], script[i - 1].result)
    case MissionPlan(hasTool, _) => hasTool[i]
  }

  predicate Succeeds(p: Plan, script: seq<Answer>, i: nat)
    requires |script| == Length(p) && i < Length(p)
  {
    PlanAllows(p, script, i) && script[i].executable && script[i].prepared && script[i].outcome == JobSuccess
  }

  /** What a step that does not succeed ends as, and what the run ends as. */
  predicate StopsAs(p: Plan, script: seq<Answer>, i: nat, step: StepStatus, run: RunStatus)
    requires |script| == Length(p) && i < Length(p)
  {
    if !PlanAllows(p, script, i) then step == Skipped && run == (if p.ChainPlan? then Completed else Failed)
    else if !script[i].executable || !script[i].prepared then step == Skipped && run == Failed
    else if script[i].outcome == JobCancelled then step == StepCancelled && run == Cancelled
    else step == StepFailed && run == Failed
  }

  function StepAt(e: Ending, from: nat, i: nat): StepStatus
    requires from <= i < from + |e.steps|
  {
    e.steps[i - from]
  }

  /** The steps from `from` up to `k` succeed; then the plan or the cap is exhausted, or step `k` stops the
      run. */
  ghost predicate ReadsAs(p: Plan, script: seq<Answer>, from: nat, k: nat, e: Ending)
    requires |script| == Length(p)
  {
    && from <= k <= Length(p) && |e.steps| == Length(p) - from
    && (forall i | from <= i < k :: Succeeds(p, script, i) && StepAt(e, from, i) == Succeeded)
    && (forall i | k < i < Length(p) :: StepAt(e, from, i) == Pending)
    && (from < k ==> k <= Allowed(p))
    && (if k >= Allowed(p)
        then (k < Length(p) ==> StepAt(e, from, k) == Pending) && e.status == (if k > 0 then Completed else Failed)
        else !Succeeds(p, script, k) && StopsAs(p, script, k, StepAt(e, from, k), e.status))
  }

  lemma {:induction false} InterpreterReads(p: Plan, script: seq<Answer>, from: nat) returns (k: nat)
    requires Answers(p, script) && from <= Length(p)
    ensures ReadsAs(p, script, from, k, Interpret(p, script, from))
    decreases Length(p) - from
  {
    if from < Allowed(p) && Succeeds(p, script, from) {
      k := InterpreterReads(p, script, from + 1);
      SuccessReads(p, script, from, k);
    } else {
      k := from;
      if from < Allowed(p) {
        StopReads(p, script, from);
      }
    }
  }

  lemma SuccessReads(p: Plan, script: seq<Answer>, from: nat, k: nat)
    requires Answers(p, script) && from < Allowed(p) && Succeeds(p, script, from)
    requires ReadsAs(p, script, from + 1, k, Interpret(p, script, from + 1))
    ensures ReadsAs(p, script, from, k, Interpret(p, script, from))
  {
    var e, rest := Interpret(p, script, from), Interpret(p, script, from + 1);
    assert e == AfterJob(p, script, from);
    assert e == Ending([Succeeded] + rest.steps, rest.status);
    forall i | from < i < Length(p)
      ensures StepAt(e, from, i) == StepAt(rest, from + 1, i)
    {
    }
  }

  lemma StopReads(p: Plan, script: seq<Answer>, from: nat)
    requires Answers(p, script) && from < Allowed(p) && !Succeeds(p, script, from)
    ensures ReadsAs(p, script, from, from, Interpret(p, script, from))
  {
    assert script[from] in script;
    var e, rest := Interpret(p, script, from), Repeat(Pending, Length(p) - from - 1);
    if PlanAllows(p, script, from) && script[from].executable && script[from].prepared {
      assert e == AfterJob(p, script, from);
    }
    assert e.steps == [e.steps[0]] + rest;
    forall i | from < i < Length(p)
      ensures StepAt(e, from, i) == Pending
    {
      assert ([e.steps[0]] + rest)[i - from] == rest[i - from - 1];
    }
  }

  /** Every scripted run that reaches a terminal status ends as the plan and the answers say: a number of
      successes, then either the plan or the cap is exhausted or one step stops the run. */
  lemma RunsEndAsThePlanReads(p: Plan, now: int, events: seq<Event>, script: seq<Answer>) returns (k: nat)
    requires Answers(p, script) && AllFollow(Created(p, now), events, script)
    requires Terminal(After(Created(p, now), events).status)
    ensures
      var w := After(Created(p, now), events);
      ReadsAs(p, script, 0, k, Ending(Statuses(w.steps), w.status))
  {
    RunsRefineTheInterpreter(p, now, events, script);
    k := InterpreterReads(p, script, 0);
  }

  /** If every step the plan may run meets good answers, exactly that many steps succeed. */
  lemma GoodAnswersRunEveryAllowedStep(p: Plan, now: int, events: seq<Event>, script: seq<Answer>)
    requires Answers(p, script) && AllFollow(Created(p, now), events, script)
    requires Terminal(After(Created(p, now), events).status)
    requires forall i | 0 <= i < Allowed(p) :: Succeeds(p, script, i)
    ensures
      var w := After(Created(p, now), events);
      && (forall i | 0 <= i < |w.steps| :: w.steps[i].status == if i < Allowed(p) then Succeeded else Pending)
      && w.status == (if Allowed(p) > 0 then Completed else Failed)
  {
    var w := After(Created(p, now), events);
    var k := RunsEndAsThePlanReads(p, now, events, script);
    var e := Ending(Statuses(w.steps), w.status);
    GoodAnswersRead(p, script, k, e);
    forall i | 0 <= i < |w.steps|
      ensures w.steps[i].status == if i < Allowed(p) then Succeeded else Pending
    {
      assert StepAt(e, 0, i) == w.steps[i].status;
    }
  }

  lemma GoodAnswersRead(p: Plan, script: seq<Answer>, k: nat, e: Ending)
    requires Answers(p, script) && ReadsAs(p, script, 0, k, e)
    requires forall i | 0 <= i < Allowed(p) :: Succeeds(p, script, i)
    ensures forall i | 0 <= i < Length(p) :: StepAt(e, 0, i) == if i < Allowed(p) then Succeeded else Pending
    ensures e.status == if Allowed(p) > 0 then Completed else Failed
  {
    assert k >= Allowed(p);
  }

  // ---- The cap in every reachable state ----

  /** A mission ends COMPLETED only when its steps or its cap are exhausted, never runs a step at or beyond the
      cap, and ends FAILED without a failed or skipped step only if nothing could run. */
  lemma MissionsExhaustTheCap(hasTool: seq<bool>, maxSteps: nat, now: int, events: seq<Event>)
    ensures
      var w := After(Created(MissionPlan(hasTool, maxSteps), now), events);
      var k := Front(w.steps);
      && |w.steps| == |hasTool|
      && (w.status == Completed ==> k > 0 && (k == |w.steps| || k >= maxSteps))
      && (w.status == Failed && (k == |w.steps| || w.steps[k].status !in {StepFailed, Skipped}) ==>
            k == 0 && (|w.steps| == 0 || maxSteps == 0))
      && (forall i | maxSteps <= i < |w.steps| :: w.steps[i].jobId == None)
  {
    var p := MissionPlan(hasTool, maxSteps);
    var w := After(Created(p, now), events);
    ReachableInv(p, now, events);
    EveryStepIsExplained(p, now, events);
    forall i | maxSteps <= i < |w.steps|
      ensures w.steps[i].jobId == None
    {
      JobMeansBelowCap(w, i);
    }
  }

  lemma JobMeansBelowCap(w: World, i: nat)
    requires Inv(w) && JobsPassedGates(w) && w.plan.MissionPlan? && i < |w.steps|
    ensures w.steps[i].jobId.Some? ==> i < w.plan.maxSteps
  {
    assert w.steps[i].jobId.Some? ==>
      w.steps[i].jobId.value in w.jobs && w.jobs[w.steps[i].jobId.value].step == i;
  }

  // ---- What single events write ----

  /** A step is skipped for the reason it names: the answers given to that very call, or the plan. */
  lemma SkipSaysWhy(w: World, ev: Event, k: nat)
    requires Inv(w) && k < |w.steps|
    requires w.steps[k].status != Skipped && Apply(w, ev).steps[k].status == Skipped
    ensures ev.Advancing? || ev.Approving? || ev.Sweeping?
    ensures ReasonFits(Apply(w, ev), k, ev.executable, ev.prepared)
  {
    match ev
    case Advancing(e, p, crash) => AdvanceSkips(w, e, p, crash, k);
    case Approving(e, p, crash) =>
      ApproveInv(w);
      AdvanceSkips(Approve(w), e, p, crash, k);
    case Sweeping(_, _, _, _) => SweepSkips(w, ev, k);
    case _ =>
  }

  lemma SweepSkips(w: World, ev: Event, k: nat)
    requires Inv(w) && ev.Sweeping? && k < |w.steps|
    requires w.steps[k].status != Skipped && Apply(w, ev).steps[k].status == Skipped
    ensures ReasonFits(Apply(w, ev), k, ev.executable, ev.prepared)
  {
    var w1 := JobPass(w, ev.stuckAfter);
    JobPassInv(w, ev.stuckAfter);
    assert w1.steps == w.steps && Apply(w, ev) == Nudge(w1, ev.executable, ev.prepared, ev.orchestrationStuckAfter);
    if Stalled(w1, ev.orchestrationStuckAfter) {
      AdvanceSkips(w1, ev.executable, ev.prepared, NoCrash, k);
    }
  }

  /** The reason on step `k` fits the answers of the call. */
  ghost predicate ReasonFits(w: World, k: nat, executable: bool, prepared: bool)
    requires Ordered(w) && k < |w.steps|
  {
    && w.steps[k].reason.Some?
    && (w.steps[k].reason.value == NotExecutable <==> GateOpen(w, k) && !executable)
    && (w.steps[k].reason.value == NotPrepared <==> GateOpen(w, k) && executable && !prepared)
  }

  lemma AdvanceSkips(w: World, executable: bool, prepared: bool, crash: Crash, k: nat)
    requires Inv(w) && w.status != Draft && k < |w.steps|
    requires w.steps[k].status != Skipped && Advance(w, executable, prepared, crash).steps[k].status == Skipped
    ensures ReasonFits(Advance(w, executable, prepared, crash), k, executable, prepared)
  {
    ResolveFreesTheQueue(w);
    ResolveSkipsNothing(w, k);
    SettleSkips(Resolve(w), executable, prepared, k);
  }

  lemma ResolveSkipsNothing(w: World, k: nat)
    requires !InFlight(w) && k < |w.steps| && w.steps[k].status != Skipped
    ensures Resolve(w).steps[k].status != Skipped
  {
  }

  lemma SettleSkips(w: World, executable: bool, prepared: bool, k: nat)
    requires Inv(w) && !Has(w.steps, Queued) && Live(w.status) && k < |w.steps|
    requires w.steps[k].status != Skipped && Settle(w, executable, prepared).steps[k].status == Skipped
    ensures ReasonFits(Settle(w, executable, prepared), k, executable, prepared)
  {
    VerdictFits(w, executable, prepared);
    assert Judge(w, executable, prepared).Skips? && k == Front(w.steps);
    JudgePending(w, executable, prepared);
    PreviousIsResultBefore(w, k);
    var s, reason := Judge(w, executable, prepared).status, Judge(w, executable, prepared).reason;
    SkipKeepsResults(w, k, s, reason);
  }

  ghost predicate FreshJob(w: World, id: nat, now: int) {
    id in w.jobs &&
    var k := w.jobs[id].step;
    && w.jobs[id] == Job(k, JobQueued, None, now, None) && id in w.queue
    && k < |w.steps| && w.steps[k].order == k && w.steps[k].status == Queued && w.steps[k].jobId == Some(id)
  }

  /** A new job is queued for its step, in the queue, and dated now. */
  lemma NewJobIsFresh(w: World, ev: Event, id: nat)
    requires Inv(w) && id in Apply(w, ev).jobs && id !in w.jobs
    ensures FreshJob(Apply(w, ev), id, w.clock)
  {
    match ev
    case Advancing(e, p, crash) => AdvancedJobIsFresh(w, e, p, crash, id);
    case Approving(e, p, crash) =>
      ApproveInv(w);
      AdvancedJobIsFresh(Approve(w), e, p, crash, id);
    case Sweeping(e, p, stuck, _) =>
      JobPassInv(w, stuck);
      AdvancedJobIsFresh(JobPass(w, stuck), e, p, NoCrash, id);
    case _ =>
  }

  lemma AdvancedJobIsFresh(w: World, executable: bool, prepared: bool, crash: Crash, id: nat)
    requires Inv(w) && w.status != Draft && id in Advance(w, executable, prepared, crash).jobs && id !in w.jobs
    ensures FreshJob(Advance(w, executable, prepared, crash), id, w.clock)
  {
    ResolveFreesTheQueue(w);
    SettledJobIsFresh(Resolve(w), executable, prepared, id);
  }

  lemma SettledJobIsFresh(w: World, executable: bool, prepared: bool, id: nat)
    requires Inv(w) && id in Settle(w, executable, prepared).jobs && id !in w.jobs
    ensures FreshJob(Settle(w, executable, prepared), id, w.clock)
  {
  }

  /** A run's end is dated when it happens, and a run is finished iff it is dated. */
  lemma EndIsDated(w: World, ev: Event)
    requires Inv(w)
    ensures Terminal(Apply(w, ev).status) <==> Apply(w, ev).finishedAt.Some?
    ensures !Terminal(w.status) && Terminal(Apply(w, ev).status) ==> Apply(w, ev).finishedAt == Some(w.clock)
  {
    ApplyInv(w, ev);
    match ev
    case Advancing(e, p, crash) => AdvanceDates(w, e, p, crash);
    case Approving(e, p, crash) => AdvanceDates(Approve(w), e, p, crash);
    case Sweeping(e, p, stuck, _) => AdvanceDates(JobPass(w, stuck), e, p, NoCrash);
    case _ =>
  }

  lemma AdvanceDates(w: World, executable: bool, prepared: bool, crash: Crash)
    requires Ordered(w)
    ensures
      var w' := Advance(w, executable, prepared, crash);
      !Terminal(w.status) && Terminal(w'.status) ==> w'.finishedAt == Some(w.clock)
  {
  }

  /** The anchor of a chain run is its creation, that of a mission its approval. */
  lemma {:induction false} AnchorIs(p: Plan, now: int, events: seq<Event>)
    ensures p.ChainPlan? ==> After(Created(p, now), events).anchor == Some(now)
    ensures p.MissionPlan? ==>
      forall ev | Apply(After(Created(p, now), events), ev).anchor != After(Created(p, now), events).anchor ::
        var w := After(Created(p, now), events);
        ev.Approving? && w.status == Draft && Apply(w, ev).anchor == Some(w.clock)
    decreases |events|
  {
    var w := After(Created(p, now), events);
    ReachableInv(p, now, events);
    if events != [] {
      var n := |events| - 1;
      AnchorIs(p, now, events[..n]);
      ReachableInv(p, now, events[..n]);
      AnchorMoves(After(Created(p, now), events[..n]), events[n]);
    }
    forall ev
      ensures Apply(w, ev).anchor != w.anchor ==>
        ev.Approving? && w.status == Draft && Apply(w, ev).anchor == Some(w.clock)
    {
      AnchorMoves(w, ev);
    }
  }

  lemma AnchorMoves(w: World, ev: Event)
    requires Ordered(w)
    ensures Apply(w, ev).anchor == if ev.Approving? && w.status == Draft then Some(w.clock) else w.anchor
  {
  }
}
