/** What the reconciliation sweep promises. */
module Sweeping {
  import opened Options
  import opened Conditions
  import opened StepMachine
  import opened StepInvariants

  /** The sweep does not touch a run whose queued step still has an open job after the job pass. */
  lemma SweepSparesRunningSteps(
    w: World, executable: bool, prepared: bool, stuckAfter: int, orchestrationStuckAfter: int)
    requires Inv(w) && InFlight(JobPass(w, stuckAfter))
    ensures SameRun(w, Sweep(w, executable, prepared, stuckAfter, orchestrationStuckAfter))
    ensures Sweep(w, executable, prepared, stuckAfter, orchestrationStuckAfter).jobs == JobPass(w, stuckAfter).jobs
  {
  }

  /** Not live, or waiting for a job that has not ended. */
  predicate Settled(w: World) { !Live(w.status) || InFlight(w) }

  /** The queued step's job is about to be written off by the job pass. */
  predicate QueuedJobOrphaned(w: World, stuckAfter: int) {
    var q := FirstWith(w.steps, Queued);
    q < |w.steps| && w.steps[q].jobId.Some? && Orphaned(w, w.steps[q].jobId.value, stuckAfter)
  }

  lemma AdvanceSettles(w: World, executable: bool, prepared: bool)
    requires Inv(w) && Live(w.status)
    ensures Settled(Advance(w, executable, prepared, NoCrash))
  {
    if !InFlight(w) {
      ResolveFreesTheQueue(w);
      SettleInv(Resolve(w), executable, prepared);
    }
  }

  lemma {:induction false} LatestFinishBounds(w: World, n: nat)
    requires Timed(w) && n <= |w.steps|
    ensures LatestFinish(w, n).Some? ==> LatestFinish(w, n).value <= w.clock
    ensures forall i | 0 <= i < n && FinishTime(w, w.steps[i]).Some? ::
      LatestFinish(w, n).Some? && FinishTime(w, w.steps[i]).value <= LatestFinish(w, n).value
  {
    if n > 0 {
      LatestFinishBounds(w, n - 1);
    }
  }

  lemma LastProgressIsPast(w: World)
    requires Inv(w) && Live(w.status)
    ensures LastProgress(w).Some? && LastProgress(w).value <= w.clock
  {
    LatestFinishBounds(w, |w.steps|);
  }

  lemma JobPassFlight(w: World, stuckAfter: int)
    requires Inv(w)
    ensures InFlight(JobPass(w, stuckAfter)) <==> InFlight(w) && !QueuedJobOrphaned(w, stuckAfter)
    ensures !InFlight(w) ==> JobPass(w, stuckAfter) == w
  {
    ShapeSearch(w.steps, Front(w.steps));
    if !InFlight(w) {
      assert forall id | id in w.jobs :: !JobOpen(w, id);
      assert JobPass(w, stuckAfter).jobs == w.jobs;
    }
  }

  /** A job written off just now counts as progress just now, so the same sweep does not nudge. */
  lemma WrittenOffIsFresh(w: World, stuckAfter: int, orchestrationStuckAfter: int)
    requires Inv(w) && Live(w.status) && QueuedJobOrphaned(w, stuckAfter) && orchestrationStuckAfter >= 0
    ensures !Stalled(JobPass(w, stuckAfter), orchestrationStuckAfter)
  {
    var w1, q := JobPass(w, stuckAfter), FirstWith(w.steps, Queued);
    JobPassInv(w, stuckAfter);
    LatestFinishBounds(w1, |w1.steps|);
    assert FinishTime(w1, w1.steps[q]) == Some(w.clock);
  }

  function AtTime(w: World, now: int): World {
    w.(clock := now)
  }

  lemma AtTimeInv(w: World, now: int)
    requires Inv(w) && now >= w.clock
    ensures Inv(AtTime(w, now))
  {
  }

  lemma SweepInv(w: World, executable: bool, prepared: bool, stuckAfter: int, orchestrationStuckAfter: int)
    requires Inv(w)
    ensures Inv(Sweep(w, executable, prepared, stuckAfter, orchestrationStuckAfter))
  {
    JobPassInv(w, stuckAfter);
    if Stalled(JobPass(w, stuckAfter), orchestrationStuckAfter) {
      AdvanceInv(JobPass(w, stuckAfter), executable, prepared, NoCrash);
    }
  }

  /** One sweep leaves a run settled if the job pass did, or if it found it stalled. */
  lemma OneSweep(w: World, executable: bool, prepared: bool, stuckAfter: int, orchestrationStuckAfter: int)
    requires Inv(w)
    ensures Settled(Sweep(w, executable, prepared, stuckAfter, orchestrationStuckAfter))
      <==> (Settled(JobPass(w, stuckAfter)) || Stalled(JobPass(w, stuckAfter), orchestrationStuckAfter))
  {
    var w1 := JobPass(w, stuckAfter);
    JobPassInv(w, stuckAfter);
    if Stalled(w1, orchestrationStuckAfter) {
      AdvanceSettles(w1, executable, prepared);
    }
  }

  /** A live run waits for a job without queue entry that is too young to be written off now and old enough
      at `later`. */
  predicate WriteOffComesDue(w: World, stuckAfter: int, later: int) {
    Live(w.status) && !QueuedJobOrphaned(w, stuckAfter) && QueuedJobOrphaned(AtTime(w, later), stuckAfter)
  }

  /** What the second sweep would write off was there before the first one. */
  lemma SecondWriteOff(w: World, e: bool, p: bool, stuckAfter: int, orchestrationStuckAfter: int, now: int)
    requires Inv(w) && orchestrationStuckAfter >= 0 && now >= w.clock
    ensures
      var w1 := AtTime(Sweep(w, e, p, stuckAfter, orchestrationStuckAfter), now);
      Live(w1.status) && QueuedJobOrphaned(w1, stuckAfter) <==> WriteOffComesDue(w, stuckAfter, now)
  {
    var w0 := JobPass(w, stuckAfter);
    JobPassInv(w, stuckAfter);
    JobPassFlight(w, stuckAfter);
    OrphanIsInFlight(AtTime(w, now), stuckAfter);
    if Stalled(w0, orchestrationStuckAfter) {
      NudgedIsNotOrphaned(w0, e, p, stuckAfter, now);
      assert !InFlight(w) || QueuedJobOrphaned(w, stuckAfter);
    } else if InFlight(w) && !QueuedJobOrphaned(w, stuckAfter) {
      SparedJobIsSame(w, stuckAfter);
    } else {
      OrphanIsInFlight(AtTime(w0, now), stuckAfter);
    }
  }

  lemma OrphanIsInFlight(w: World, stuckAfter: int)
    ensures QueuedJobOrphaned(w, stuckAfter) ==> InFlight(w)
  {
  }

  /** A job queued by a nudge is in the queue. */
  lemma NudgedIsNotOrphaned(w: World, e: bool, p: bool, stuckAfter: int, now: int)
    requires Inv(w) && Live(w.status) && !InFlight(w)
    ensures
      var w1 := AtTime(Advance(w, e, p, NoCrash), now);
      !(Live(w1.status) && QueuedJobOrphaned(w1, stuckAfter))
  {
    ResolveFreesTheQueue(w);
    SettledIsNotOrphaned(Resolve(w), e, p, stuckAfter, now);
  }

  lemma SettledIsNotOrphaned(w: World, e: bool, p: bool, stuckAfter: int, now: int)
    requires Inv(w) && Live(w.status) && !Has(w.steps, Queued)
    ensures
      var w1 := AtTime(Settle(w, e, p), now);
      !(Live(w1.status) && QueuedJobOrphaned(w1, stuckAfter))
  {
    ShapeSearch(w.steps, Front(w.steps));
    VerdictFits(w, e, p);
    if Judge(w, e, p).Queues? {
      QueuedJobIsInQueue(w, Front(w.steps), stuckAfter, now);
    }
  }

  lemma QueuedJobIsInQueue(w: World, k: nat, stuckAfter: int, now: int)
    requires Inv(w) && k == Front(w.steps) < |w.steps| && w.steps[k].status == Pending
    ensures !QueuedJobOrphaned(AtTime(QueueAt(w, k), now), stuckAfter)
  {
    var steps := QueueAt(w, k).steps;
    ShapeReplace(w.steps, k, steps[k]);
    ShapeSearch(steps, k);
  }

  /** The job pass leaves the job of a spared step as it is. */
  lemma SparedJobIsSame(w: World, stuckAfter: int)
    requires Inv(w) && InFlight(w) && !QueuedJobOrphaned(w, stuckAfter)
    ensures
      var w0, q := JobPass(w, stuckAfter), FirstWith(w.steps, Queued);
      q < |w.steps| && w.steps[q].jobId.Some? && w.steps[q].jobId.value in w.jobs
      && w0.jobs[w.steps[q].jobId.value] == w.jobs[w.steps[q].jobId.value]
  {
    ShapeSearch(w.steps, Front(w.steps));
    assert FirstWith(w.steps, Queued) < |w.steps|;
  }

  /** Two sweeps further apart than the orchestration threshold, with nothing in between, leave the run
      finished, not started, or waiting for an open job: exactly unless, before the first of them, it waits
      for a job whose queue entry is gone and that only the second one finds old enough to write off. */
  lemma TwoSweepsSettle(
    w: World, e1: bool, p1: bool, e2: bool, p2: bool, stuckAfter: int, orchestrationStuckAfter: int, now: int)
    requires Inv(w) && orchestrationStuckAfter >= 0 && now > w.clock + orchestrationStuckAfter
    ensures
      var w1 := AtTime(Sweep(w, e1, p1, stuckAfter, orchestrationStuckAfter), now);
      Settled(Sweep(w1, e2, p2, stuckAfter, orchestrationStuckAfter)) <==> !WriteOffComesDue(w, stuckAfter, now)
  {
    SecondWriteOff(w, e1, p1, stuckAfter, orchestrationStuckAfter, now);
    var w0 := Sweep(w, e1, p1, stuckAfter, orchestrationStuckAfter);
    SweepInv(w, e1, p1, stuckAfter, orchestrationStuckAfter);
    var w1 := AtTime(w0, now);
    AtTimeInv(w0, now);
    OneSweep(w1, e2, p2, stuckAfter, orchestrationStuckAfter);
    JobPassFlight(w1, stuckAfter);
    if Live(w1.status) {
      if QueuedJobOrphaned(w1, stuckAfter) {
        WrittenOffIsFresh(w1, stuckAfter, orchestrationStuckAfter);
      } else if !InFlight(w1) {
        OldProgressIsStalled(w0, now, orchestrationStuckAfter);
      }
    }
  }

  lemma OldProgressIsStalled(w: World, now: int, orchestrationStuckAfter: int)
    requires Inv(w) && Live(w.status) && !InFlight(w) && now > w.clock + orchestrationStuckAfter
    ensures Stalled(AtTime(w, now), orchestrationStuckAfter)
  {
    LastProgressIsPast(w);
    SameLatest(w, now, |w.steps|);
  }

  lemma {:induction false} SameLatest(w: World, now: int, n: nat)
    requires n <= |w.steps|
    ensures LatestFinish(AtTime(w, now), n) == LatestFinish(w, n)
  {
    if n > 0 {
      SameLatest(w, now, n - 1);
    }
  }

  lemma FailedJobFinishes(w: World, executable: bool, prepared: bool)
    requires Inv(w) && Live(w.status) && FirstWith(w.steps, Queued) < |w.steps|
    requires w.steps[FirstWith(w.steps, Queued)].jobId.Some?
    requires w.jobs[w.steps[FirstWith(w.steps, Queued)].jobId.value].status == JobFailed
    ensures Advance(w, executable, prepared, NoCrash).status == Failed
  {
    FailedJobResolves(w);
    ShapeSearch(Resolve(w).steps, Front(Resolve(w).steps));
  }

  lemma FailedJobResolves(w: World)
    requires Inv(w) && Live(w.status) && FirstWith(w.steps, Queued) < |w.steps|
    requires w.steps[FirstWith(w.steps, Queued)].jobId.Some?
    requires w.jobs[w.steps[FirstWith(w.steps, Queued)].jobId.value].status == JobFailed
    ensures !InFlight(w)
    ensures
      var steps := Resolve(w).steps;
      Shape(steps, Front(steps)) && Front(steps) < |steps| && steps[Front(steps)].status == StepFailed
  {
    var k := Front(w.steps);
    ShapeSearch(w.steps, k);
    ShapeReplace(w.steps, k, w.steps[k].(status := StepFailed));
  }

  /** When the job pass writes off the job a live run was waiting for, that sweep leaves the run live
      with nothing in flight; a further sweep beyond the threshold ends it as FAILED. */
  lemma WrittenOffRunNeedsAnotherSweep(
    w: World, e: bool, p: bool, stuckAfter: int, orchestrationStuckAfter: int, now: int)
    requires Inv(w) && Live(w.status) && QueuedJobOrphaned(w, stuckAfter) && orchestrationStuckAfter >= 0
    requires now > w.clock + orchestrationStuckAfter
    ensures
      var w1 := Sweep(w, e, p, stuckAfter, orchestrationStuckAfter);
      && !Settled(w1)
      && Sweep(AtTime(w1, now), e, p, stuckAfter, orchestrationStuckAfter).status == Failed
  {
    var w1 := JobPass(w, stuckAfter);
    JobPassInv(w, stuckAfter);
    JobPassFlight(w, stuckAfter);
    WrittenOffIsFresh(w, stuckAfter, orchestrationStuckAfter);
    AtTimeInv(w1, now);
    JobPassFlight(AtTime(w1, now), stuckAfter);
    OldProgressIsStalled(w1, now, orchestrationStuckAfter);
    FailedJobFinishes(AtTime(w1, now), e, p);
  }

  // ---- Progress and the nudge, over the job rows ----

  predicate Ended(j: Job) { j.status in {JobSuccess, JobFailed, JobCancelled} }

  ghost predicate SomeEnded(w: World) {
    exists id :: id in w.jobs && Ended(w.jobs[id])
  }

  lemma {:induction false} LatestFinishIsAnEnd(w: World, n: nat)
    requires Inv(w) && n <= |w.steps|
    ensures LatestFinish(w, n).Some? ==>
      exists id :: id in w.jobs && Ended(w.jobs[id]) && w.jobs[id].finishedAt == LatestFinish(w, n)
    ensures forall id | id in w.jobs && Ended(w.jobs[id]) && w.jobs[id].step < n ::
      LatestFinish(w, n).Some? && w.jobs[id].finishedAt.Some? && w.jobs[id].finishedAt.value <= LatestFinish(w, n).value
  {
    if n > 0 {
      LatestFinishIsAnEnd(w, n - 1);
      JobOfStep(w, n - 1);
    }
  }

  /** A step's job and a job's step belong together. */
  lemma JobOfStep(w: World, i: nat)
    requires Inv(w) && i < |w.steps|
    ensures FinishTime(w, w.steps[i]).Some? ==>
      var id := w.steps[i].jobId.value;
      w.steps[i].jobId.Some? && id in w.jobs && Ended(w.jobs[id]) && w.jobs[id].finishedAt == FinishTime(w, w.steps[i])
    ensures forall id | id in w.jobs && w.jobs[id].step == i && Ended(w.jobs[id]) ::
      FinishTime(w, w.steps[i]).Some? && w.jobs[id].finishedAt == FinishTime(w, w.steps[i])
  {
    forall id | id in w.jobs && w.jobs[id].step == i
      ensures w.steps[i].jobId == Some(id)
    {
    }
  }

  /** The last progress of a run is the latest end of any of its jobs, of whatever step, and the anchor only
      while no job has ended. */
  lemma LastProgressIs(w: World)
    requires Inv(w)
    ensures SomeEnded(w) ==>
      && LastProgress(w).Some?
      && (exists id :: id in w.jobs && Ended(w.jobs[id]) && w.jobs[id].finishedAt == LastProgress(w))
      && (forall id | id in w.jobs && Ended(w.jobs[id]) ::
            w.jobs[id].finishedAt.Some? && w.jobs[id].finishedAt.value <= LastProgress(w).value)
    ensures !SomeEnded(w) ==> LastProgress(w) == w.anchor
  {
    LatestFinishIsAnEnd(w, |w.steps|);
  }

  /** Every known activity lies before `cutoff`: all ends of jobs, or the anchor if there is none. */
  ghost predicate QuietSince(w: World, cutoff: int) {
    if SomeEnded(w)
    then forall id | id in w.jobs && Ended(w.jobs[id]) ::
           w.jobs[id].finishedAt.Some? && w.jobs[id].finishedAt.value < cutoff
    else w.anchor.Some? && w.anchor.value < cutoff
  }

  /** A sweep, after its job pass, advances a run exactly if it is live, none of its jobs is open and nothing
      has happened since the threshold; otherwise the job pass is all it does. */
  lemma SweepAdvancesIff(w: World, executable: bool, prepared: bool, stuckAfter: int, orchestrationStuckAfter: int)
    requires Inv(w)
    ensures
      var w1 := JobPass(w, stuckAfter);
      Sweep(w, executable, prepared, stuckAfter, orchestrationStuckAfter) ==
        if w1.status in {Approved, Running} && (forall id | id in w1.jobs :: Ended(w1.jobs[id]))
           && QuietSince(w1, w1.clock - orchestrationStuckAfter)
        then Advance(w1, executable, prepared, NoCrash)
        else w1
  {
    var w1 := JobPass(w, stuckAfter);
    JobPassInv(w, stuckAfter);
    LastProgressIs(w1);
    OpenJobsAreInFlight(w1);
  }

  lemma OpenJobsAreInFlight(w: World)
    requires Inv(w)
    ensures InFlight(w) <==> exists id :: id in w.jobs && !Ended(w.jobs[id])
  {
    InFlightMeans(w);
    if InFlight(w) {
      var id := w.steps[Front(w.steps)].jobId.value;
      assert id in w.jobs && !Ended(w.jobs[id]);
    }
    forall id | id in w.jobs && !Ended(w.jobs[id])
      ensures InFlight(w)
    {
      OpenJobIsAtFront(w, id);
    }
  }

  lemma OpenJobIsAtFront(w: World, id: nat)
    requires Inv(w) && id in w.jobs && !Ended(w.jobs[id])
    ensures var k := Front(w.steps);
            k < |w.steps| && w.steps[k].status == Queued && w.steps[k].jobId == Some(id)
  {
    var k := w.jobs[id].step;
    assert w.steps[k].jobId == Some(id);
    assert w.steps[k].status == Queued;
    assert k == Front(w.steps);
  }

  /** The job pass writes off exactly the queued or running jobs created before the cutoff that the queue does
      not know; it leaves everything else alone. */
  lemma JobPassWritesOff(w: World, stuckAfter: int)
    ensures
      var w1 := JobPass(w, stuckAfter);
      && w1 == w.(jobs := w1.jobs) && w1.jobs.Keys == w.jobs.Keys
      && forall id | id in w.jobs ::
           w1.jobs[id] ==
             if w.jobs[id].status in {JobQueued, JobRunning} && w.jobs[id].createdAt < w.clock - stuckAfter
                && id !in w.queue
             then w.jobs[id].(status := JobFailed, finishedAt := Some(w.clock))
             else w.jobs[id]
  {
    var w1 := JobPass(w, stuckAfter);
    assert w1.jobs.Keys == w.jobs.Keys;
    forall id | id in w.jobs
      ensures JobOpen(w, id) <==> w.jobs[id].status in {JobQueued, JobRunning}
    {
      match w.jobs[id].status
      case JobQueued =>
      case JobRunning =>
      case _ =>
    }
  }

  const OneStep := ChainPlan([Condition(Always, {}, "")])

  /** A one-step chain started at 0 whose job has lost its queue entry, at `now`. */
  function Lost(now: int): World {
    World(OneStep, Running, None, Some(0), [Step(0, Queued, Some(0), None)],
          map[0 := Job(0, JobQueued, None, 0, None)], 1, {}, now)
  }

  lemma LostIsReachable(now: nat)
    ensures
      var queued := Apply(Created(OneStep, 0), Advancing(true, true, NoCrash));
      Apply(Apply(queued, EntryLost(0)), Ticking(now)) == Lost(now)
    ensures Inv(Lost(now))
  {
    FirstCallQueues();
    var w := QueueAt(Created(OneStep, 0), 0);
    assert Apply(w, EntryLost(0)) == Lost(0);
    ApplyInv(w, EntryLost(0));
    ApplyInv(Lost(0), Ticking(now));
  }

  lemma FirstCallQueues()
    ensures var start := Created(OneStep, 0);
            |start.steps| == 1 && Apply(start, Advancing(true, true, NoCrash)) == QueueAt(start, 0)
            && QueueAt(start, 0) == Lost(0).(queue := {0}) && Inv(QueueAt(start, 0))
  {
    var start := Created(OneStep, 0);
    assert start.steps == [Step(0, Pending, None, None)];
    assert FirstWith(start.steps, Pending) == 0 && FirstWith(start.steps, Queued) == 1;
    CreatedInv(OneStep, 0);
    ApplyInv(start, Advancing(true, true, NoCrash));
  }

  /** Concretely: swept at 1000 and at 1900 seconds with the default thresholds of 1800 and 300, that
      run is still live with nothing in flight. */
  lemma TwoSweepsMayNotBeEnough()
    ensures !Settled(Sweep(AtTime(Sweep(Lost(1000), true, true, 1800, 300), 1900), true, true, 1800, 300))
  {
    LostIsReachable(1000);
    var w := Lost(1000);
    assert FirstWith(w.steps, Queued) == 0;
    assert WriteOffComesDue(w, 1800, 1900);
    TwoSweepsSettle(w, true, true, true, true, 1800, 300, 1900);
  }
}
