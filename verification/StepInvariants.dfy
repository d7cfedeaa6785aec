/** What holds of a mission or chain run after any events whatever. */
module StepInvariants {
  import opened Options
  import opened Conditions
  import opened StepMachine

  // ---- The shape of the step list ----

  /** How many steps have succeeded before the first that has not. */
  function Front(steps: seq<Step>): (k: nat)
    ensures k <= |steps|
  {
    if steps == [] || steps[0].status != Succeeded then 0 else 1 + Front(steps[1..])
  }

  /** SUCCESS*, then at most one step in any other state, then PENDING*. */
  ghost predicate Shape(steps: seq<Step>, k: nat) {
    && k <= |steps|
    && (forall i | 0 <= i < k :: steps[i].status == Succeeded)
    && (k < |steps| ==> steps[k].status != Succeeded)
    && (forall i | k < i < |steps| :: steps[i].status == Pending)
  }

  lemma {:induction false} FrontOfShape(steps: seq<Step>, k: nat)
    requires Shape(steps, k)
    ensures Front(steps) == k
  {
    if k > 0 {
      assert forall i | 0 <= i < |steps| - 1 :: steps[1..][i] == steps[i + 1];
      FrontOfShape(steps[1..], k - 1);
    }
  }

  lemma {:induction false} FirstWithIs(steps: seq<Step>, s: StepStatus, i: nat)
    requires i <= |steps| && (forall j | 0 <= j < i :: steps[j].status != s) && (i < |steps| ==> steps[i].status == s)
    ensures FirstWith(steps, s) == i
  {
    if i > 0 {
      assert forall j | 0 <= j < |steps| - 1 :: steps[1..][j] == steps[j + 1];
      FirstWithIs(steps[1..], s, i - 1);
    }
  }

  /** In a well-shaped list the searches of the orchestrators find what they should. */
  lemma ShapeSearch(steps: seq<Step>, k: nat)
    requires Shape(steps, k)
    ensures Front(steps) == k
    ensures FirstWith(steps, Queued) == if k < |steps| && steps[k].status == Queued then k else |steps|
    ensures FirstWith(steps, Pending) == if k < |steps| && steps[k].status != Pending then k + 1 else k
    ensures Has(steps, Succeeded) <==> k > 0
    ensures forall s | s != Pending && s != Succeeded :: Has(steps, s) <==> k < |steps| && steps[k].status == s
  {
    FrontOfShape(steps, k);
    FirstWithIs(steps, Queued, if k < |steps| && steps[k].status == Queued then k else |steps|);
    FirstWithIs(steps, Pending, if k < |steps| && steps[k].status != Pending then k + 1 else k);
    assert k > 0 ==> steps[0].status == Succeeded;
  }

  // ---- The invariant ----

  /** A step has a job exactly when it is neither pending nor skipped, and job rows and steps
      correspond one to one. */
  ghost predicate Linked(w: World) {
    && (forall i | 0 <= i < |w.steps| :: w.steps[i].jobId.Some? <==> w.steps[i].status !in {Pending, Skipped})
    && (forall i | 0 <= i < |w.steps| && w.steps[i].jobId.Some? ::
          w.steps[i].jobId.value in w.jobs && w.jobs[w.steps[i].jobId.value].step == i)
    && (forall id | id in w.jobs ::
          id < w.nextId && w.jobs[id].step < |w.steps| && w.steps[w.jobs[id].step].jobId == Some(id))
  }

  /** A resolved step shows its job's outcome. */
  ghost predicate Matched(w: World) {
    forall id | id in w.jobs && w.jobs[id].step < |w.steps| && w.steps[w.jobs[id].step].status != Queued ::
      JobTerminal(w.jobs[id].status) && Outcome(w.jobs[id].status) == w.steps[w.jobs[id].step].status
  }

  ghost predicate Timed(w: World) {
    && (forall id | id in w.jobs ::
          && w.jobs[id].createdAt <= w.clock
          && (w.jobs[id].finishedAt.Some? <==> JobTerminal(w.jobs[id].status))
          && (w.jobs[id].finishedAt.Some? ==> w.jobs[id].finishedAt.value <= w.clock))
    && (w.anchor.Some? ==> w.anchor.value <= w.clock)
  }

  ghost predicate StatusFits(w: World) {
    var n, k := |w.steps|, Front(w.steps);
    && (w.finishedAt.Some? <==> Terminal(w.status))
    && (Live(w.status) ==> w.anchor.Some?)
    && (w.status in {Draft, Approved} ==>
          w.plan.MissionPlan? && w.jobs == map[] && (n > 0 ==> w.steps[0].status == Pending))
    && (!Terminal(w.status) && k < n ==> w.steps[k].status != Skipped)
    && (w.status == Completed ==> k > 0 && (k < n ==>
          if w.plan.ChainPlan? then w.steps[k].status == Skipped && w.steps[k].reason == Some(ConditionNotMet)
          else w.steps[k].status == Pending && !WithinCap(w.plan, k)))
  }

  ghost predicate Inv(w: World) {
    Ordered(w) && Shape(w.steps, Front(w.steps)) && Linked(w) && Matched(w) && Timed(w) && StatusFits(w)
  }

  lemma CreatedInv(p: Plan, now: int)
    ensures Inv(Created(p, now))
  {
    FrontOfShape(Created(p, now).steps, 0);
  }

  // ---- Preservation ----

  lemma InFlightMeans(w: World)
    requires Inv(w)
    ensures InFlight(w) <==>
      var k := Front(w.steps);
      k < |w.steps| && w.steps[k].status == Queued && !JobTerminal(w.jobs[w.steps[k].jobId.value].status)
  {
    ShapeSearch(w.steps, Front(w.steps));
  }

  lemma ShapeReplace(steps: seq<Step>, k: nat, s: Step)
    requires Shape(steps, k) && k < |steps| && s.status != Pending
    ensures Shape(steps[k := s], if s.status == Succeeded then k + 1 else k)
    ensures Front(steps[k := s]) == if s.status == Succeeded then k + 1 else k
  {
    FrontOfShape(steps[k := s], if s.status == Succeeded then k + 1 else k);
  }

  /** The queued step takes over the outcome of its finished job. */
  function Relabel(w: World, k: nat): World
    requires Ordered(w) && k < |w.steps| && w.steps[k].jobId.Some? && w.steps[k].jobId.value in w.jobs
  {
    w.(steps := w.steps[k := w.steps[k].(status := Outcome(w.jobs[w.steps[k].jobId.value].status))])
  }

  lemma RelabelLinks(w: World, k: nat)
    requires Ordered(w) && Linked(w) && Matched(w)
    requires k < |w.steps| && w.steps[k].status == Queued && JobTerminal(w.jobs[w.steps[k].jobId.value].status)
    ensures Linked(Relabel(w, k)) && Matched(Relabel(w, k))
  {
    var w' := Relabel(w, k);
    assert forall i | 0 <= i < |w.steps| :: w'.steps[i].jobId == w.steps[i].jobId;
  }

  lemma ResolveInv(w: World)
    requires Inv(w) && !InFlight(w) && !Terminal(w.status)
    ensures Inv(Resolve(w)) && !Has(Resolve(w).steps, Queued)
    ensures Resolve(w) == w.(steps := Resolve(w).steps)
  {
    var k, n := Front(w.steps), |w.steps|;
    ShapeSearch(w.steps, k);
    if k < n && w.steps[k].status == Queued {
      RelabelLinks(w, k);
      assert Resolve(w) == Relabel(w, k);
      ShapeReplace(w.steps, k, Resolve(w).steps[k]);
      ShapeSearch(Resolve(w).steps, Front(Resolve(w).steps));
    }
  }

  lemma SkipInv(w: World, k: nat, s: RunStatus, reason: SkipReason)
    requires Inv(w) && k == Front(w.steps) < |w.steps| && w.steps[k].status == Pending
    requires s == Failed || (s == Completed && w.plan.ChainPlan? && k > 0 && reason == ConditionNotMet)
    ensures Inv(SkipAt(w, k, s, reason))
  {
    ShapeReplace(w.steps, k, SkipAt(w, k, s, reason).steps[k]);
    SkipLinks(w, k, s, reason);
  }

  lemma SkipLinks(w: World, k: nat, s: RunStatus, reason: SkipReason)
    requires Ordered(w) && Linked(w) && Matched(w) && k < |w.steps| && w.steps[k].status == Pending
    ensures Linked(SkipAt(w, k, s, reason)) && Matched(SkipAt(w, k, s, reason))
  {
    assert forall i | 0 <= i < |w.steps| :: SkipAt(w, k, s, reason).steps[i].jobId == w.steps[i].jobId;
  }

  lemma QueueLinks(w: World, k: nat)
    requires Ordered(w) && Linked(w) && Matched(w) && k < |w.steps| && w.steps[k].status == Pending
    ensures Linked(QueueAt(w, k)) && Matched(QueueAt(w, k))
  {
    var w' := QueueAt(w, k);
    assert forall i | 0 <= i < |w.steps| && i != k :: w'.steps[i] == w.steps[i];
    forall id | id in w'.jobs
      ensures id < w'.nextId && w'.jobs[id].step < |w'.steps| && w'.steps[w'.jobs[id].step].jobId == Some(id)
    {
      assert id != w.nextId ==> id in w.jobs && w.jobs[id].step != k;
    }
  }

  lemma QueueInv(w: World, k: nat)
    requires Inv(w) && Live(w.status) && k == Front(w.steps) < |w.steps| && w.steps[k].status == Pending
    ensures Inv(QueueAt(w, k)) && InFlight(QueueAt(w, k))
  {
    var w' := QueueAt(w, k);
    QueueLinks(w, k);
    ShapeReplace(w.steps, k, w'.steps[k]);
    ShapeSearch(w'.steps, k);
  }

  /** No job is outstanding and no step has been skipped. */
  ghost predicate Settleable(w: World) {
    var k := Front(w.steps);
    Ordered(w) && Shape(w.steps, k) && (k < |w.steps| ==> w.steps[k].status !in {Queued, Skipped})
  }

  /** What the verdict can be in a well-shaped list. */
  ghost predicate Fits(w: World, v: Verdict) {
    var k, n := Front(w.steps), |w.steps|;
    match v
    case Ends(Completed) =>
      k > 0 && (k < n ==> w.steps[k].status == Pending && w.plan.MissionPlan? && !WithinCap(w.plan, k))
    case Ends(s) => s in {Cancelled, Failed}
    case Skips(j, s, reason) =>
      j == k < n && w.steps[k].status == Pending
      && (s == Failed || (s == Completed && w.plan.ChainPlan? && k > 0 && reason == ConditionNotMet))
    case Queues(j) => j == k < n && w.steps[k].status == Pending
  }

  lemma VerdictFits(w: World, executable: bool, prepared: bool)
    requires Settleable(w)
    ensures Fits(w, Judge(w, executable, prepared))
  {
    ShapeSearch(w.steps, Front(w.steps));
  }

  /** The verdict on a well-shaped list whose next step is pending. */
  lemma JudgePending(w: World, executable: bool, prepared: bool)
    requires Ordered(w) && Shape(w.steps, Front(w.steps))
    requires Front(w.steps) < |w.steps| && w.steps[Front(w.steps)].status == Pending
    ensures
      var k := Front(w.steps);
      Judge(w, executable, prepared) ==
        if !WithinCap(w.plan, k) then Ends(if k > 0 then Completed else Failed)
        else
          match Decide(w.plan, k, PreviousResult(w, k), executable, prepared)
          case Stop(s, reason) => Skips(k, s, reason)
          case Run => Queues(k)
  {
    ShapeSearch(w.steps, Front(w.steps));
  }

  lemma SettleInv(w: World, executable: bool, prepared: bool)
    requires Inv(w) && !Has(w.steps, Queued) && Live(w.status)
    ensures Inv(Settle(w, executable, prepared))
    ensures Terminal(Settle(w, executable, prepared).status) || InFlight(Settle(w, executable, prepared))
  {
    ShapeSearch(w.steps, Front(w.steps));
    VerdictFits(w, executable, prepared);
    match Judge(w, executable, prepared)
    case Ends(s) =>
    case Skips(k, s, reason) => SkipInv(w, k, s, reason);
    case Queues(k) => QueueInv(w, k);
  }

  lemma ResolveFreesTheQueue(w: World)
    requires Inv(w) && !InFlight(w) && Live(w.status)
    ensures Inv(Resolve(w)) && !Has(Resolve(w).steps, Queued) && Live(Resolve(w).status)
  {
    ResolveInv(w);
  }

  lemma AdvanceInv(w: World, executable: bool, prepared: bool, crash: Crash)
    requires Inv(w) && w.status != Draft
    ensures Inv(Advance(w, executable, prepared, crash))
  {
    if !(Terminal(w.status) || InFlight(w) || crash == BeforeFirstCommit) {
      ResolveFreesTheQueue(w);
      if crash.NoCrash? {
        SettleInv(Resolve(w), executable, prepared);
      }
    }
  }

  lemma EndJobInv(w: World, id: nat, s: JobStatus, result: Option<ToolResult>)
    requires Inv(w) && JobOpen(w, id) && JobTerminal(s)
    ensures Inv(EndJob(w, id, s, result))
  {
    var w' := EndJob(w, id, s, result);
    assert w'.jobs.Keys == w.jobs.Keys;
    assert Linked(w');
  }

  lemma JobPassInv(w: World, stuckAfter: int)
    requires Inv(w)
    ensures Inv(JobPass(w, stuckAfter))
  {
    var w' := JobPass(w, stuckAfter);
    assert w'.jobs.Keys == w.jobs.Keys;
    JobPassLinks(w, stuckAfter);
    JobPassTimes(w, stuckAfter);
  }

  lemma JobPassLinks(w: World, stuckAfter: int)
    requires Ordered(w) && Linked(w) && Matched(w)
    ensures Linked(JobPass(w, stuckAfter)) && Matched(JobPass(w, stuckAfter))
  {
    assert JobPass(w, stuckAfter).jobs.Keys == w.jobs.Keys;
  }

  lemma JobPassTimes(w: World, stuckAfter: int)
    requires Timed(w)
    ensures Timed(JobPass(w, stuckAfter))
  {
  }

  lemma ApplyInv(w: World, ev: Event)
    requires Inv(w)
    ensures Inv(Apply(w, ev))
  {
    match ev
    case Advancing(e, p, crash) =>
      if w.status != Draft {
        AdvanceInv(w, e, p, crash);
      }
    case Approving(e, p, crash) =>
      if w.status == Draft {
        AdvanceInv(Approve(w), e, p, crash);
      }
    case Cancelling =>
    case JobEnding(id, outcome, result) =>
      if JobOpen(w, id) && JobTerminal(outcome) {
        EndJobInv(w, id, outcome, result);
      }
    case EntryLost(id) =>
    case Ticking(now) =>
    case Sweeping(_, _, _, _) => SweepingInv(w, ev);
  }

  lemma SweepingInv(w: World, ev: Event)
    requires Inv(w) && ev.Sweeping?
    ensures Inv(Apply(w, ev))
  {
    var w1 := JobPass(w, ev.stuckAfter);
    JobPassInv(w, ev.stuckAfter);
    if Stalled(w1, ev.orchestrationStuckAfter) {
      AdvanceInv(w1, ev.executable, ev.prepared, NoCrash);
    }
  }

  /** The invariant holds after any events, from any plan. */
  lemma {:induction false} ReachableInv(p: Plan, now: int, events: seq<Event>)
    ensures Inv(After(Created(p, now), events))
    decreases |events|
  {
    if events == [] {
      CreatedInv(p, now);
    } else {
      ReachableInv(p, now, events[..|events| - 1]);
      ApplyInv(After(Created(p, now), events[..|events| - 1]), events[|events| - 1]);
    }
  }

  /** In every reachable state: SUCCESS*, at most one step in another state, PENDING*; a job id
      exactly on the steps that reached the queue; one job row per step at most; a completed run has
      at least one success and, for a chain, nothing but a condition that was not met after them. */
  lemma ReachableShape(p: Plan, now: int, events: seq<Event>)
    ensures
      var w := After(Created(p, now), events);
      var k := Front(w.steps);
      && |w.steps| == Length(p)
      && (forall i | 0 <= i < |w.steps| :: w.steps[i].order == i)
      && (forall i | 0 <= i < k :: w.steps[i].status == Succeeded)
      && (forall i | k < i < |w.steps| :: w.steps[i].status == Pending)
      && (forall i | 0 <= i < |w.steps| :: w.steps[i].jobId.Some? <==> w.steps[i].status !in {Pending, Skipped})
      && (forall id, id' | id in w.jobs && id' in w.jobs && w.jobs[id].step == w.jobs[id'].step :: id == id')
      && (w.status == Draft ==> w.jobs == map[])
      && (w.status == Completed ==> k > 0)
      && (w.status == Completed && p.ChainPlan? && k < Length(p) ==>
            w.steps[k].status == Skipped && w.steps[k].reason == Some(ConditionNotMet))
  {
    ReachableInv(p, now, events);
    var w := After(Created(p, now), events);
    forall id, id' | id in w.jobs && id' in w.jobs && w.jobs[id].step == w.jobs[id'].step
      ensures id == id'
    {
      assert w.steps[w.jobs[id].step].jobId == Some(id);
    }
  }

  // ---- What a single event may do ----

  /** A finished run never changes again: neither its status nor any of its steps. */
  lemma TerminalIsFrozen(w: World, ev: Event)
    requires Ordered(w) && Terminal(w.status)
    ensures Terminal(Apply(w, ev).status)
    ensures Apply(w, ev).status == w.status && Apply(w, ev).steps == w.steps && Apply(w, ev).finishedAt == w.finishedAt
  {
  }

  lemma SettleCreates(w: World, executable: bool, prepared: bool, id: nat)
    requires Inv(w) && !Has(w.steps, Queued) && Live(w.status)
    requires id in Settle(w, executable, prepared).jobs && id !in w.jobs
    ensures executable && prepared && Settle(w, executable, prepared).jobs[id].step == Front(w.steps)
  {
    ShapeSearch(w.steps, Front(w.steps));
    VerdictFits(w, executable, prepared);
  }

  lemma AdvanceCreates(w: World, executable: bool, prepared: bool, crash: Crash, id: nat)
    requires Inv(w) && w.status != Draft
    requires id in Advance(w, executable, prepared, crash).jobs && id !in w.jobs
    ensures executable && prepared && Live(w.status)
    ensures Advance(w, executable, prepared, crash).status == Running
  {
    ResolveFreesTheQueue(w);
    SettleCreates(Resolve(w), executable, prepared, id);
  }

  /** Wherever a job row exists, every earlier step has a job that ended in success. */
  lemma PredecessorsSucceeded(w: World, id: nat, i: nat)
    requires Inv(w) && id in w.jobs && i < w.jobs[id].step
    ensures w.steps[i].status == Succeeded && w.steps[i].jobId.Some?
    ensures w.jobs[w.steps[i].jobId.value].status == JobSuccess
  {
    assert w.steps[w.jobs[id].step].jobId == Some(id);
    var before := w.steps[i].jobId.value;
    assert w.jobs[before].step == i;
  }

  /** A job row appears only in a call that found the target executable and the job preparable, on a
      run that is not finished. */
  lemma NewJobIsJustified(w: World, ev: Event, id: nat)
    requires Inv(w) && id in Apply(w, ev).jobs && id !in w.jobs
    ensures ev.Advancing? || ev.Approving? || ev.Sweeping?
    ensures ev.executable && ev.prepared && !Terminal(w.status) && Apply(w, ev).status == Running
  {
    match ev
    case Advancing(e, p, crash) => AdvanceCreates(w, e, p, crash, id);
    case Approving(e, p, crash) =>
      ApproveInv(w);
      AdvanceCreates(Approve(w), e, p, crash, id);
    case Sweeping(e, p, stuck, orchestration) =>
      JobPassInv(w, stuck);
      AdvanceCreates(JobPass(w, stuck), e, p, NoCrash, id);
    case _ =>
  }

  ghost predicate Kept(w: World, w': World, id: nat) {
    id in w.jobs ==>
      && id in w'.jobs && w'.jobs[id].step == w.jobs[id].step
      && (JobTerminal(w.jobs[id].status) ==> w'.jobs[id] == w.jobs[id])
  }

  lemma AdvanceKeepsJobs(w: World, executable: bool, prepared: bool, crash: Crash, id: nat)
    requires Inv(w)
    ensures Kept(w, Advance(w, executable, prepared, crash), id)
  {
    if !Terminal(w.status) && !InFlight(w) {
      SettleKeepsJobs(Resolve(w), executable, prepared, id);
    }
  }

  lemma SettleKeepsJobs(w: World, executable: bool, prepared: bool, id: nat)
    requires Ordered(w) && forall j | j in w.jobs :: j < w.nextId
    ensures Kept(w, Settle(w, executable, prepared), id)
  {
  }

  lemma SweepKeepsJobs(w: World, ev: Event, id: nat)
    requires Inv(w) && ev.Sweeping?
    ensures Kept(w, Apply(w, ev), id)
  {
    var w1 := JobPass(w, ev.stuckAfter);
    JobPassInv(w, ev.stuckAfter);
    AdvanceKeepsJobs(w1, ev.executable, ev.prepared, NoCrash, id);
    JobPassKeepsJobs(w, ev.stuckAfter, id);
  }

  lemma JobPassKeepsJobs(w: World, stuckAfter: int, id: nat)
    ensures Kept(w, JobPass(w, stuckAfter), id)
  {
  }

  /** Job rows are never removed or handed to another step, and an ended job stays as it ended. */
  lemma JobsArePermanent(w: World, ev: Event, id: nat)
    requires Inv(w)
    ensures Kept(w, Apply(w, ev), id)
  {
    match ev
    case Advancing(e, p, crash) => AdvanceKeepsJobs(w, e, p, crash, id);
    case Approving(e, p, crash) =>
      if w.status == Draft {
        ApproveInv(w);
        AdvanceKeepsJobs(Approve(w), e, p, crash, id);
      }
    case Sweeping(_, _, _, _) => SweepKeepsJobs(w, ev, id);
    case _ =>
  }

  lemma ApproveInv(w: World)
    requires Inv(w) && w.status == Draft
    ensures Inv(Approve(w))
  {
  }

  // ---- Progress ----

  function Count(steps: seq<Step>, s: StepStatus): nat {
    if steps == [] then 0 else (if steps[0].status == s then 1 else 0) + Count(steps[1..], s)
  }

  lemma {:induction false} CountUpdate(steps: seq<Step>, i: nat, x: Step, s: StepStatus)
    requires i < |steps|
    ensures Count(steps[i := x], s)
         == Count(steps, s) - (if steps[i].status == s then 1 else 0) + (if x.status == s then 1 else 0)
  {
    if i == 0 {
      assert steps[0 := x][1..] == steps[1..];
    } else {
      assert steps[i := x][1..] == steps[1..][i - 1 := x];
      CountUpdate(steps[1..], i - 1, x, s);
    }
  }

  function Unfinished(w: World): nat { if Terminal(w.status) then 0 else 1 }

  function Effort(w: World): nat { 2 * Count(w.steps, Pending) + Count(w.steps, Queued) + Unfinished(w) }

  /** What bounds the number of effective calls. */
  function Remaining(w: World): nat { Count(w.steps, Pending) + Unfinished(w) }

  predicate SameRun(w: World, w': World) { w.status == w'.status && w.steps == w'.steps }

  lemma ResolveEffort(w: World)
    requires Inv(w) && !InFlight(w) && Live(w.status)
    ensures SameRun(w, Resolve(w)) || Effort(Resolve(w)) < Effort(w)
    ensures Remaining(Resolve(w)) == Remaining(w)
  {
    var k := Front(w.steps);
    ShapeSearch(w.steps, k);
    if k < |w.steps| && w.steps[k].status == Queued {
      CountUpdate(w.steps, k, Resolve(w).steps[k], Pending);
      CountUpdate(w.steps, k, Resolve(w).steps[k], Queued);
    }
  }

  lemma SettleEffort(w: World, executable: bool, prepared: bool)
    requires Inv(w) && !Has(w.steps, Queued) && Live(w.status)
    ensures Effort(Settle(w, executable, prepared)) < Effort(w)
    ensures Remaining(Settle(w, executable, prepared)) < Remaining(w)
  {
    var w' := Settle(w, executable, prepared);
    ShapeSearch(w.steps, Front(w.steps));
    VerdictFits(w, executable, prepared);
    var v := Judge(w, executable, prepared);
    if !v.Ends? {
      CountUpdate(w.steps, v.k, w'.steps[v.k], Pending);
      CountUpdate(w.steps, v.k, w'.steps[v.k], Queued);
    }
  }

  /** A call either leaves the run as it is or strictly lowers 2 * pending + queued + unfinished. */
  lemma AdvanceLowersEffort(w: World, executable: bool, prepared: bool, crash: Crash)
    requires Inv(w) && w.status != Draft
    ensures
      var w' := Advance(w, executable, prepared, crash);
      SameRun(w, w') || Effort(w') < Effort(w)
    ensures
      var w' := Advance(w, executable, prepared, crash);
      Remaining(w') <= Remaining(w) && (crash.NoCrash? && !SameRun(w, w') ==> Remaining(w') < Remaining(w))
  {
    if !(Terminal(w.status) || InFlight(w) || crash == BeforeFirstCommit) {
      ResolveEffort(w);
      ResolveFreesTheQueue(w);
      if crash.NoCrash? {
        SettleEffort(Resolve(w), executable, prepared);
      }
    }
  }

  predicate CrashFreeCall(ev: Event) {
    ev.Sweeping? || ((ev.Advancing? || ev.Approving?) && ev.crash.NoCrash?)
  }

  /** How many crash-free calls among the events changed the run. */
  function EffectiveCalls(w: World, events: seq<Event>): nat
    requires Ordered(w)
    decreases |events|
  {
    if events == [] then 0
    else
      var before, ev := After(w, events[..|events| - 1]), events[|events| - 1];
      EffectiveCalls(w, events[..|events| - 1])
      + if CrashFreeCall(ev) && !SameRun(before, Apply(before, ev)) then 1 else 0
  }

  lemma ApplyRemaining(w: World, ev: Event)
    requires Inv(w)
    ensures Remaining(Apply(w, ev)) <= Remaining(w)
    ensures CrashFreeCall(ev) && !SameRun(w, Apply(w, ev)) ==> Remaining(Apply(w, ev)) < Remaining(w)
  {
    match ev
    case Advancing(e, p, crash) =>
      if w.status != Draft {
        AdvanceLowersEffort(w, e, p, crash);
      }
    case Approving(_, _, _) => ApprovingRemaining(w, ev);
    case Sweeping(_, _, _, _) => SweepRemaining(w, ev);
    case Cancelling =>
    case JobEnding(_, _, _) =>
    case EntryLost(_) =>
    case Ticking(_) =>
  }

  lemma ApprovingRemaining(w: World, ev: Event)
    requires Inv(w) && ev.Approving?
    ensures Remaining(Apply(w, ev)) <= Remaining(w)
    ensures CrashFreeCall(ev) && !SameRun(w, Apply(w, ev)) ==> Remaining(Apply(w, ev)) < Remaining(w)
  {
    if w.status == Draft {
      ApproveInv(w);
      AdvanceLowersEffort(Approve(w), ev.executable, ev.prepared, ev.crash);
      if ev.crash.NoCrash? {
        ApprovedMoves(Approve(w), ev.executable, ev.prepared);
      }
    }
  }

  lemma NudgeRemaining(w: World, executable: bool, prepared: bool, orchestrationStuckAfter: int)
    requires Inv(w)
    ensures
      var w' := Nudge(w, executable, prepared, orchestrationStuckAfter);
      Remaining(w') <= Remaining(w) && (!SameRun(w, w') ==> Remaining(w') < Remaining(w))
  {
    if Stalled(w, orchestrationStuckAfter) {
      AdvanceLowersEffort(w, executable, prepared, NoCrash);
    }
  }

  lemma SweepRemaining(w: World, ev: Event)
    requires Inv(w) && ev.Sweeping?
    ensures Remaining(Apply(w, ev)) <= Remaining(w)
    ensures !SameRun(w, Apply(w, ev)) ==> Remaining(Apply(w, ev)) < Remaining(w)
  {
    var w1 := JobPass(w, ev.stuckAfter);
    JobPassInv(w, ev.stuckAfter);
    NudgeRemaining(w1, ev.executable, ev.prepared, ev.orchestrationStuckAfter);
    assert SameRun(w, w1);
  }

  /** The first call on an approved mission always does something. */
  lemma ApprovedMoves(w: World, executable: bool, prepared: bool)
    requires Inv(w) && w.status == Approved
    ensures Advance(w, executable, prepared, NoCrash).status != Approved
  {
    InFlightMeans(w);
    ResolveFreesTheQueue(w);
    VerdictFits(Resolve(w), executable, prepared);
  }

  lemma {:induction false} EffectiveCallsBounded(w: World, events: seq<Event>)
    requires Inv(w)
    ensures Inv(After(w, events))
    ensures EffectiveCalls(w, events) + Remaining(After(w, events)) <= Remaining(w)
    decreases |events|
  {
    if events != [] {
      var before, ev := After(w, events[..|events| - 1]), events[|events| - 1];
      EffectiveCallsBounded(w, events[..|events| - 1]);
      ApplyInv(before, ev);
      ApplyRemaining(before, ev);
    }
  }

  lemma {:induction false} CountPending(steps: seq<Step>)
    requires forall i | 0 <= i < |steps| :: steps[i].status == Pending
    ensures Count(steps, Pending) == |steps|
  {
    if steps != [] {
      CountPending(steps[1..]);
    }
  }

  /** A plan of n steps needs at most n + 1 effective calls, however many idle or interrupted ones
      are made besides. */
  lemma AtMostOneCallPerStepAndOne(p: Plan, now: int, events: seq<Event>)
    ensures EffectiveCalls(Created(p, now), events) <= Length(p) + 1
  {
    var w := Created(p, now);
    CreatedInv(p, now);
    CountPending(w.steps);
    EffectiveCallsBounded(w, events);
  }
}
