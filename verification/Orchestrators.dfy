/** The orchestrators as the source writes them: one run's rows as fields, one method per entry point,
    each commit a write of the session's copy back to the fields. Every method is tied to the step
    machine, so what is proved there holds of these bodies. */
module Orchestrators {
  import opened Options
  import opened Conditions
  import opened StepMachine
  import opened StepInvariants

  class RunRecord {
    const plan: Plan
    var status: RunStatus
    var finishedAt: Option<int>
    var anchor: Option<int>
    var steps: seq<Step>
    var jobs: map<nat, Job>
    var nextId: nat
    var queue: set<nat>
    var clock: int

    function State(): World
      reads this
    {
      World(plan, status, finishedAt, anchor, steps, jobs, nextId, queue, clock)
    }

    /** `create_chain_run`: the template's steps are copied one by one, and the run is RUNNING at once. */
    constructor ForChain(conditions: seq<Condition>, now: int)
      ensures State() == Created(ChainPlan(conditions), now)
      ensures status == Running && anchor == Some(now) && finishedAt == None && jobs == map[] && queue == {}
      ensures |steps| == |conditions| && forall k | 0 <= k < |steps| :: steps[k] == Step(k, Pending, None, None)
    {
      plan := ChainPlan(conditions);
      status, finishedAt, anchor := Running, None, Some(now);
      steps, jobs, nextId, queue, clock := [], map[], 0, {}, now;
      new;
      for i := 0 to |conditions|
        invariant plan == ChainPlan(conditions)
        invariant State() == Created(plan, now).(steps := steps)
        invariant |steps| == i && forall k | 0 <= k < i :: steps[k] == Step(k, Pending, None, None)
      {
        steps := steps + [Step(i, Pending, None, None)];
      }
    }

    /** `create_mission`: only the first `maxSteps` proposed steps are stored, and the mission is a DRAFT. */
    constructor ForMission(proposedTools: seq<bool>, maxSteps: nat, now: int)
      ensures
        var kept := if |proposedTools| <= maxSteps then proposedTools else proposedTools[..maxSteps];
        State() == Created(MissionPlan(kept, maxSteps), now)
      ensures status == Draft && anchor == None && finishedAt == None && jobs == map[] && queue == {}
      ensures |steps| == if |proposedTools| <= maxSteps then |proposedTools| else maxSteps
      ensures forall k | 0 <= k < |steps| :: steps[k] == Step(k, Pending, None, None)
    {
      var kept := if |proposedTools| <= maxSteps then proposedTools else proposedTools[..maxSteps];
      plan := MissionPlan(kept, maxSteps);
      status, finishedAt, anchor := Draft, None, None;
      steps, jobs, nextId, queue, clock := [], map[], 0, {}, now;
      new;
      for i := 0 to |kept|
        invariant plan == MissionPlan(kept, maxSteps)
        invariant State() == Created(plan, now).(steps := steps)
        invariant |steps| == i && forall k | 0 <= k < i :: steps[k] == Step(k, Pending, None, None)
      {
        steps := steps + [Step(i, Pending, None, None)];
      }
    }

    /** `_stop_mission` and `_stop_chain_run`. */
    method Stop(s: RunStatus, stepsNow: seq<Step>)
      modifies this`status, this`finishedAt, this`steps
      ensures State() == Finish(old(State()).(steps := stepsNow), s)
    {
      steps := stepsNow;
      status := s;
      finishedAt := Some(clock);
    }

    /** The common tail: add the job row, hand it to the queue, link the step, commit. */
    method Enqueue(k: nat)
      requires k < |steps|
      modifies this
      ensures State() == QueueAt(old(State()), k)
    {
      jobs := jobs[nextId := Job(k, JobQueued, None, clock, None)];
      queue := queue + {nextId};
      steps := steps[k := steps[k].(jobId := Some(nextId), status := Queued)];
      status := Running;
      nextId := nextId + 1;
    }

    /** The first transaction of either advance: false when there is nothing to do yet. */
    method ResolveQueuedStep(crash: Crash) returns (proceed: bool)
      requires Ordered(State()) && !Terminal(status)
      modifies this`steps
      ensures proceed <==> !InFlight(old(State())) && crash != BeforeFirstCommit
      ensures State() == if proceed then Resolve(old(State())) else old(State())
    {
      var q := FirstWith(steps, Queued);
      var session := steps;
      if q < |steps| {
        if steps[q].jobId.None? || steps[q].jobId.value !in jobs || !JobTerminal(jobs[steps[q].jobId.value].status) {
          return false;
        }
        var job := jobs[steps[q].jobId.value];
        if job.status == JobSuccess {
          session := session[q := session[q].(status := Succeeded)];
        } else if job.status == JobCancelled {
          session := session[q := session[q].(status := StepCancelled)];
        } else {
          session := session[q := session[q].(status := StepFailed)];
        }
      }
      if crash == BeforeFirstCommit {
        return false;
      }
      steps := session;
      proceed := true;
    }

    /** The process dies in the second transaction: its writes are rolled back, but an entry already
        handed to the queue stays there. */
    method Die(enqueued: bool)
      modifies this`nextId, this`queue
      ensures State() ==
        if enqueued then old(State()).(nextId := old(nextId) + 1, queue := old(queue) + {old(nextId)}) else old(State())
    {
      if enqueued {
        queue := queue + {nextId};
        nextId := nextId + 1;
      }
    }

    /** `_advance_chain_run_locked`. */
    method AdvanceChainRun(executable: bool, prepared: bool, crash: Crash)
      requires plan.ChainPlan? && Ordered(State())
      modifies this
      ensures State() == Advance(old(State()), executable, prepared, crash)
    {
      if Terminal(status) {
        return;
      }
      var proceed := ResolveQueuedStep(crash);
      if !proceed {
        return;
      }
      if crash.BeforeSecondCommit? {
        Die(crash.enqueued);
        return;
      }
      SettleChainRun(executable, prepared);
    }

    method SettleChainRun(executable: bool, prepared: bool)
      requires plan.ChainPlan? && Ordered(State())
      modifies this
      ensures State() == Settle(old(State()), executable, prepared)
    {
      if Has(steps, StepCancelled) {
        Stop(Cancelled, steps);
        return;
      }
      if Has(steps, StepFailed) {
        Stop(Failed, steps);
        return;
      }
      var k := FirstWith(steps, Pending);
      if k == |steps| {
        Stop(if Has(steps, Succeeded) then Completed else Failed, steps);
        return;
      }
      if steps[k].order > 0 {
        var previous := steps[steps[k].order - 1];
        var result :=
          if previous.jobId.Some? && previous.jobId.value in jobs then jobs[previous.jobId.value].result else None;
        var met := Evaluate(plan.conditions[k], result);
        if !met {
          Stop(Completed, steps[k := steps[k].(status := Skipped, reason := Some(ConditionNotMet))]);
          return;
        }
      }
      if !executable {
        Stop(Failed, steps[k := steps[k].(status := Skipped, reason := Some(NotExecutable))]);
        return;
      }
      if !prepared {
        Stop(Failed, steps[k := steps[k].(status := Skipped, reason := Some(NotPrepared))]);
        return;
      }
      Enqueue(k);
    }

    /** `_advance_mission_locked`. */
    method AdvanceMission(executable: bool, prepared: bool, crash: Crash)
      requires plan.MissionPlan? && Ordered(State())
      modifies this
      ensures State() == Advance(old(State()), executable, prepared, crash)
    {
      if Terminal(status) {
        return;
      }
      var proceed := ResolveQueuedStep(crash);
      if !proceed {
        return;
      }
      if crash.BeforeSecondCommit? {
        Die(crash.enqueued);
        return;
      }
      SettleMission(executable, prepared);
    }

    method SettleMission(executable: bool, prepared: bool)
      requires plan.MissionPlan? && Ordered(State())
      modifies this
      ensures State() == Settle(old(State()), executable, prepared)
    {
      if Has(steps, StepCancelled) {
        Stop(Cancelled, steps);
        return;
      }
      if Has(steps, StepFailed) || Has(steps, Skipped) {
        Stop(Failed, steps);
        return;
      }
      var k := FirstWith(steps, Pending);
      if k == |steps| || steps[k].order >= plan.maxSteps {
        Stop(if Has(steps, Succeeded) then Completed else Failed, steps);
        return;
      }
      if !plan.hasTool[k] {
        Stop(Failed, steps[k := steps[k].(status := Skipped, reason := Some(NoTool))]);
        return;
      }
      if !executable {
        Stop(Failed, steps[k := steps[k].(status := Skipped, reason := Some(NotExecutable))]);
        return;
      }
      if !prepared {
        Stop(Failed, steps[k := steps[k].(status := Skipped, reason := Some(NotPrepared))]);
        return;
      }
      Enqueue(k);
    }

    method AdvanceRun(executable: bool, prepared: bool, crash: Crash)
      requires Ordered(State())
      modifies this
      ensures State() == Advance(old(State()), executable, prepared, crash)
    {
      if plan.ChainPlan? {
        AdvanceChainRun(executable, prepared, crash);
      } else {
        AdvanceMission(executable, prepared, crash);
      }
    }

    /** `approve_mission`: false stands for InvalidMissionStateError. */
    method ApproveMission(executable: bool, prepared: bool, crash: Crash) returns (ok: bool)
      requires plan.MissionPlan? && Ordered(State())
      modifies this
      ensures ok <==> old(status) == Draft
      ensures State() == Apply(old(State()), Approving(executable, prepared, crash))
      ensures ok ==> status != Draft && anchor == Some(clock) && clock == old(clock)
      ensures !ok ==> State() == old(State())
    {
      if status != Draft {
        return false;
      }
      status := Approved;
      anchor := Some(clock);
      AdvanceMission(executable, prepared, crash);
      ok := true;
    }

    /** `cancel_mission` and `cancel_chain_run`: open jobs are left alone. */
    method CancelRun()
      requires Ordered(State())
      modifies this`status, this`finishedAt
      ensures State() == Apply(old(State()), Cancelling)
      ensures if old(status) in {Completed, Failed, Cancelled} then State() == old(State())
              else State() == old(State()).(status := Cancelled, finishedAt := Some(clock))
    {
      if Terminal(status) {
        return;
      }
      status := Cancelled;
      finishedAt := Some(clock);
    }

    /** `reconcile_stuck_jobs`, over the rows of this run, in any order. */
    method ReconcileStuckJobs(stuckAfter: int) returns (reconciled: set<nat>)
      modifies this`jobs
      ensures State() == JobPass(old(State()), stuckAfter)
      ensures reconciled == set id | id in old(jobs) && old(jobs)[id].status !in {JobSuccess, JobFailed, JobCancelled}
                                     && old(jobs)[id].createdAt < clock - stuckAfter && id !in queue
      ensures jobs.Keys == old(jobs).Keys
      ensures forall id | id in jobs ::
        jobs[id] == if id in reconciled then old(jobs)[id].(status := JobFailed, finishedAt := Some(clock))
                    else old(jobs)[id]
    {
      var cutoff := clock - stuckAfter;
      var candidates := set id | id in jobs && !JobTerminal(jobs[id].status) && jobs[id].createdAt < cutoff;
      reconciled := {};
      ghost var before := jobs;
      ghost var w := State();
      var todo := candidates;
      while todo != {}
        invariant todo <= candidates && jobs.Keys == before.Keys
        invariant reconciled <= candidates - todo
        invariant forall id | id in before ::
          (jobs[id] == if id in candidates - todo && id !in queue
                       then before[id].(status := JobFailed, finishedAt := Some(clock)) else before[id])
        invariant forall id | id in candidates - todo :: id in reconciled <==> id !in queue
        decreases todo
      {
        var id :| id in todo;
        todo := todo - {id};
        if id !in queue {
          jobs := jobs[id := jobs[id].(status := JobFailed, finishedAt := Some(clock))];
          reconciled := reconciled + {id};
        }
      }
      assert jobs == JobPass(w, stuckAfter).jobs;
    }

    /** `_mission_last_progress_at` and its chain twin. */
    method LastProgressAt() returns (inFlight: bool, last: Option<int>)
      requires Inv(State())
      ensures inFlight <==> InFlight(State())
      ensures !inFlight ==> last == LastProgress(State())
    {
      ghost var w := State();
      FlightIsAnOpenStep(w);
      var latest: Option<int> := None;
      for i := 0 to |steps|
        invariant latest == LatestFinish(w, i)
        invariant forall k | 0 <= k < i && steps[k].status == Queued :: JobTerminal(jobs[steps[k].jobId.value].status)
      {
        assert LatestFinish(w, i + 1) == Later(latest, FinishTime(w, steps[i]));
        if steps[i].jobId.Some? && steps[i].jobId.value in jobs {
          var job := jobs[steps[i].jobId.value];
          if steps[i].status == Queued && !JobTerminal(job.status) {
            return true, None;
          }
          if job.finishedAt.Some? && (latest.None? || job.finishedAt.value > latest.value) {
            latest := job.finishedAt;
          }
        }
      }
      if latest.Some? {
        return false, latest;
      }
      return false, anchor;
    }

    /** `run_reconciliation_sweep` on this run. */
    method RunSweep(executable: bool, prepared: bool, stuckAfter: int, orchestrationStuckAfter: int)
      requires Inv(State())
      modifies this
      ensures State() == Sweep(old(State()), executable, prepared, stuckAfter, orchestrationStuckAfter)
    {
      JobPassInv(State(), stuckAfter);
      var _ := ReconcileStuckJobs(stuckAfter);
      if !Live(status) {
        return;
      }
      var inFlight, last := LastProgressAt();
      if inFlight || last.None? || last.value >= clock - orchestrationStuckAfter {
        return;
      }
      AdvanceRun(executable, prepared, NoCrash);
    }
  }

  /** A run is in flight exactly when some queued step has an open job. */
  lemma FlightIsAnOpenStep(w: World)
    requires Inv(w)
    ensures InFlight(w) <==>
      exists i ::
        0 <= i < |w.steps| && w.steps[i].status == Queued && !JobTerminal(w.jobs[w.steps[i].jobId.value].status)
  {
    InFlightMeans(w);
  }
}
