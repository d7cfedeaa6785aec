/** Why each step was queued or skipped, readable off every reachable state. */
module StepGates {
  import opened Options
  import opened Conditions
  import opened StepMachine
  import opened StepInvariants

  /** The recorded result of the step before `k`. */
  function ResultBefore(w: World, k: nat): Option<ToolResult>
    requires k <= |w.steps|
  {
    if k > 0 && w.steps[k - 1].jobId.Some? && w.steps[k - 1].jobId.value in w.jobs
    then w.jobs[w.steps[k - 1].jobId.value].result
    else None
  }

  /** What the plan asks for before step `k` may run: a chain step's condition on the result before it, a
      mission step's tool and its place below the cap. */
  predicate GateOpen(w: World, k: nat)
    requires Ordered(w) && k < |w.steps|
  {
    match w.plan
    case ChainPlan(conditions) => k > 0 ==> Holds(conditions[k], ResultBefore(w, k))
    case MissionPlan(hasTool, maxSteps) => hasTool[k] && k < maxSteps
  }

  /** What a skip reason says about the plan and the run. */
  predicate SkipFits(w: World, k: nat, reason: SkipReason)
    requires Ordered(w) && k < |w.steps|
  {
    match reason
    case NoTool => w.status == Failed && w.plan.MissionPlan? && !w.plan.hasTool[k]
    case ConditionNotMet =>
      w.status == Completed && w.plan.ChainPlan? && k > 0 && !Holds(w.plan.conditions[k], ResultBefore(w, k))
    case _ => w.status == Failed && GateOpen(w, k)
  }

  /** A failed run shows why: a failed or skipped step, or a plan without any executable step. */
  ghost predicate FailureShows(w: World)
    requires Ordered(w)
  {
    var k := Front(w.steps);
    w.status == Failed ==>
      (k < |w.steps| && w.steps[k].status in {StepFailed, Skipped})
      || (k == 0 && (|w.steps| == 0 || !WithinCap(w.plan, 0)))
  }

  ghost predicate JobsPassedGates(w: World)
    requires Ordered(w)
  {
    forall id | id in w.jobs && w.jobs[id].step < |w.steps| :: GateOpen(w, w.jobs[id].step)
  }

  ghost predicate SkipsExplained(w: World)
    requires Ordered(w)
  {
    forall k | 0 <= k < |w.steps| && w.steps[k].status == Skipped ::
      w.steps[k].reason.Some? && SkipFits(w, k, w.steps[k].reason.value)
  }

  ghost predicate Gated(w: World) {
    Ordered(w) && JobsPassedGates(w) && SkipsExplained(w) && FailureShows(w)
  }

  // ---- What a later state has to keep ----

  /** Results that some gate has looked at are the same in both states. */
  ghost predicate SameResults(w: World, w': World)
    requires Ordered(w) && Ordered(w')
  {
    && w'.plan == w.plan
    && (forall k | 0 < k < |w.steps| && w.steps[k - 1].status == Succeeded :: ResultBefore(w', k) == ResultBefore(w, k))
  }

  lemma GateStaysOpen(w: World, w': World, k: nat)
    requires Inv(w) && Ordered(w') && SameResults(w, w') && k <= Front(w.steps) && k < |w.steps|
    ensures GateOpen(w', k) <==> GateOpen(w, k)
    ensures ResultBefore(w', k) == ResultBefore(w, k)
  {
    if k > 0 {
      assert w.steps[k - 1].status == Succeeded;
    }
  }

  /** A change that creates no job, skips no step and leaves the run's status alone. */
  lemma QuietChange(w: World, w': World)
    requires Inv(w) && Gated(w) && Ordered(w') && SameResults(w, w')
    requires w'.status == w.status && w'.steps == w.steps
    requires forall id | id in w'.jobs :: id in w.jobs && w'.jobs[id].step == w.jobs[id].step
    ensures Gated(w')
  {
    var front := Front(w.steps);
    forall id | id in w'.jobs && w'.jobs[id].step < |w.steps|
      ensures GateOpen(w', w'.jobs[id].step)
    {
      JobAtFront(w, id);
      GateStaysOpen(w, w', w.jobs[id].step);
    }
    forall k | 0 <= k < |w.steps| && w.steps[k].status == Skipped
      ensures SkipFits(w', k, w.steps[k].reason.value)
    {
      assert k == front;
      GateStaysOpen(w, w', k);
    }
  }

  lemma JobAtFront(w: World, id: nat)
    requires Inv(w) && id in w.jobs
    ensures w.jobs[id].step < |w.steps| && w.jobs[id].step <= Front(w.steps)
  {
    assert w.steps[w.jobs[id].step].jobId == Some(id);
  }

  lemma EndJobKeepsResults(w: World, id: nat, s: JobStatus, result: Option<ToolResult>)
    requires Inv(w) && JobOpen(w, id)
    ensures SameResults(w, EndJob(w, id, s, result))
  {
    forall k | 0 < k < |w.steps| && w.steps[k - 1].status == Succeeded
      ensures ResultBefore(EndJob(w, id, s, result), k) == ResultBefore(w, k)
    {
      var before := w.steps[k - 1].jobId.value;
      assert w.jobs[before].step == k - 1;
    }
  }

  lemma JobPassGated(w: World, stuckAfter: int)
    requires Inv(w) && Gated(w)
    ensures Gated(JobPass(w, stuckAfter))
  {
    QuietChange(w, JobPass(w, stuckAfter));
  }

  // ---- One advance ----

  lemma ResolveGated(w: World)
    requires Inv(w) && Gated(w) && !InFlight(w) && Live(w.status)
    ensures Gated(Resolve(w))
  {
    var w' := Resolve(w);
    ResolveKeepsJobs(w);
    forall id | id in w'.jobs
      ensures GateOpen(w', w'.jobs[id].step)
    {
      JobAtFront(w, id);
      assert ResultBefore(w', w.jobs[id].step) == ResultBefore(w, w.jobs[id].step);
    }
  }

  lemma ResolveKeepsJobs(w: World)
    requires Inv(w) && !InFlight(w) && Live(w.status)
    ensures var w' := Resolve(w);
            Ordered(w') && w'.plan == w.plan && w'.status == w.status && w'.jobs == w.jobs
            && (forall j | 0 <= j <= |w.steps| :: ResultBefore(w', j) == ResultBefore(w, j))
            && (forall j | 0 <= j < |w.steps| :: w'.steps[j].status != Skipped)
  {
    ShapeSearch(w.steps, Front(w.steps));
  }

  lemma PreviousIsResultBefore(w: World, k: nat)
    requires Ordered(w) && k < |w.steps|
    ensures PreviousResult(w, k) == ResultBefore(w, k)
  {
  }

  lemma QueueGated(w: World, k: nat)
    requires Inv(w) && Gated(w) && Live(w.status) && k == Front(w.steps) < |w.steps|
    requires w.steps[k].status == Pending && GateOpen(w, k)
    ensures Gated(QueueAt(w, k))
  {
    var w' := QueueAt(w, k);
    forall j | 0 <= j <= k
      ensures ResultBefore(w', j) == ResultBefore(w, j)
    {
      if j > 0 {
        assert w.steps[j - 1].status == Succeeded;
      }
    }
    forall id | id in w'.jobs
      ensures w'.jobs[id].step < |w.steps| && GateOpen(w', w'.jobs[id].step)
    {
      if id != w.nextId {
        JobAtFront(w, id);
      }
    }
  }

  lemma SkipGated(w: World, k: nat, s: RunStatus, reason: SkipReason)
    requires Inv(w) && Gated(w) && Live(w.status) && k == Front(w.steps) < |w.steps| && w.steps[k].status == Pending
    requires SkipFits(w.(status := s), k, reason)
    ensures Gated(SkipAt(w, k, s, reason))
  {
    var w' := SkipAt(w, k, s, reason);
    SkipKeepsResults(w, k, s, reason);
    ShapeReplace(w.steps, k, w'.steps[k]);
    forall j | 0 <= j < |w.steps| && w'.steps[j].status == Skipped
      ensures j == k
    {
    }
  }

  lemma SkipKeepsResults(w: World, k: nat, s: RunStatus, reason: SkipReason)
    requires Ordered(w) && k < |w.steps|
    ensures forall j | 0 <= j <= |w.steps| :: ResultBefore(SkipAt(w, k, s, reason), j) == ResultBefore(w, j)
  {
  }

  lemma EndGated(w: World, s: RunStatus)
    requires Inv(w) && Gated(w) && !Terminal(w.status)
    requires s == Failed ==> var k := Front(w.steps);
      (k < |w.steps| && w.steps[k].status == StepFailed) || (k == 0 && (|w.steps| == 0 || !WithinCap(w.plan, 0)))
    ensures Gated(Finish(w, s))
  {
    var w' := Finish(w, s);
    forall j | 0 <= j <= |w.steps|
      ensures ResultBefore(w', j) == ResultBefore(w, j)
    {
    }
  }

  lemma SettleGated(w: World, executable: bool, prepared: bool)
    requires Inv(w) && Gated(w) && !Has(w.steps, Queued) && Live(w.status)
    ensures Gated(Settle(w, executable, prepared))
  {
    VerdictFits(w, executable, prepared);
    VerdictExplained(w, executable, prepared);
    match Judge(w, executable, prepared)
    case Ends(s) => EndGated(w, s);
    case Skips(k, s, reason) => SkipGated(w, k, s, reason);
    case Queues(k) => QueueGated(w, k);
  }

  /** The verdict is one the state explains. */
  lemma VerdictExplained(w: World, executable: bool, prepared: bool)
    requires Inv(w) && !Has(w.steps, Queued) && Live(w.status)
    ensures Settleable(w)
    ensures match Judge(w, executable, prepared)
            case Ends(s) => s == Failed ==> var k := Front(w.steps);
              (k < |w.steps| && w.steps[k].status == StepFailed)
              || (k == 0 && (|w.steps| == 0 || !WithinCap(w.plan, 0)))
            case Skips(k, s, reason) => SkipFits(w.(status := s), k, reason)
            case Queues(k) => GateOpen(w, k)
  {
    var k := Front(w.steps);
    ShapeSearch(w.steps, k);
    if k < |w.steps| && w.steps[k].status == Pending {
      JudgePending(w, executable, prepared);
      PreviousIsResultBefore(w, k);
      assert w.steps[k].order == k;
    }
  }

  lemma AdvanceGated(w: World, executable: bool, prepared: bool, crash: Crash)
    requires Inv(w) && Gated(w) && w.status != Draft
    ensures Gated(Advance(w, executable, prepared, crash))
  {
    if !(Terminal(w.status) || InFlight(w) || crash == BeforeFirstCommit) {
      ResolveFreesTheQueue(w);
      ResolveGated(w);
      if crash.NoCrash? {
        SettleGated(Resolve(w), executable, prepared);
      } else {
        QuietChange(Resolve(w), Advance(w, executable, prepared, crash));
      }
    }
  }

  // ---- Every run ----

  lemma ApplyGated(w: World, ev: Event)
    requires Inv(w) && Gated(w)
    ensures Gated(Apply(w, ev))
  {
    match ev
    case Advancing(e, p, crash) =>
      if w.status != Draft {
        AdvanceGated(w, e, p, crash);
      }
    case Approving(_, _, _) => ApprovingGated(w, ev);
    case Cancelling =>
      if !Terminal(w.status) {
        EndGated(w, Cancelled);
      }
    case JobEnding(id, outcome, result) => JobEndingGated(w, ev);
    case EntryLost(_) => QuietChange(w, Apply(w, ev));
    case Ticking(_) => QuietChange(w, Apply(w, ev));
    case Sweeping(_, _, _, _) => SweepGated(w, ev);
  }

  lemma ApprovingGated(w: World, ev: Event)
    requires Inv(w) && Gated(w) && ev.Approving?
    ensures Gated(Apply(w, ev))
  {
    if w.status == Draft {
      ApproveInv(w);
      AdvanceGated(Approve(w), ev.executable, ev.prepared, ev.crash);
    }
  }

  lemma JobEndingGated(w: World, ev: Event)
    requires Inv(w) && Gated(w) && ev.JobEnding?
    ensures Gated(Apply(w, ev))
  {
    if JobOpen(w, ev.id) && JobTerminal(ev.outcome) {
      EndJobKeepsResults(w, ev.id, ev.outcome, ev.result);
      QuietChange(w, EndJob(w, ev.id, ev.outcome, ev.result));
    }
  }

  lemma SweepGated(w: World, ev: Event)
    requires Inv(w) && Gated(w) && ev.Sweeping?
    ensures Gated(Apply(w, ev))
  {
    var w1 := JobPass(w, ev.stuckAfter);
    JobPassInv(w, ev.stuckAfter);
    JobPassGated(w, ev.stuckAfter);
    if Stalled(w1, ev.orchestrationStuckAfter) {
      AdvanceGated(w1, ev.executable, ev.prepared, NoCrash);
    }
  }

  /** In every reachable state each job's step passed its gate (the chain condition holds of the result
      before it, the mission step has a tool and lies below the cap), each skipped step's reason fits the
      plan and the run's status, and a failed run shows why. */
  lemma {:induction false} EveryStepIsExplained(p: Plan, now: int, events: seq<Event>)
    ensures Gated(After(Created(p, now), events))
    decreases |events|
  {
    if events != [] {
      var n := |events| - 1;
      EveryStepIsExplained(p, now, events[..n]);
      ReachableInv(p, now, events[..n]);
      ApplyGated(After(Created(p, now), events[..n]), events[n]);
    }
  }
}
