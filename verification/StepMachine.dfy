/** The state one mission or one chain run keeps in the database and in the queue, and what each
    event does to it. Both orchestrators advance the same way; the plan says where they differ. */
module StepMachine {
  import opened Options
  import opened Conditions

  datatype JobStatus = JobQueued | JobRunning | JobSuccess | JobFailed | JobCancelled

  /** `step` records which step a job row was created for. */
  datatype Job = Job(
    step: nat, status: JobStatus, result: Option<ToolResult>, createdAt: int, finishedAt: Option<int>)

  datatype StepStatus = Pending | Skipped | Queued | Succeeded | StepFailed | StepCancelled

  datatype SkipReason = NoTool | ConditionNotMet | NotExecutable | NotPrepared

  datatype Step = Step(order: nat, status: StepStatus, jobId: Option<nat>, reason: Option<SkipReason>)

  datatype RunStatus = Draft | Approved | Running | Completed | Failed | Cancelled

  /** A chain gates each later step on a condition; a mission step may lack a tool and the mission
      carries a cap on executable steps. */
  datatype Plan =
    | ChainPlan(conditions: seq<Condition>)
    | MissionPlan(hasTool: seq<bool>, maxSteps: nat)

  /** `anchor` is `approved_at` for a mission and `created_at` for a chain run. */
  datatype World = World(
    plan: Plan, status: RunStatus, finishedAt: Option<int>, anchor: Option<int>, steps: seq<Step>,
    jobs: map<nat, Job>, nextId: nat, queue: set<nat>, clock: int)

  function Length(p: Plan): nat {
    match p case ChainPlan(c) => |c| case MissionPlan(t, _) => |t|
  }

  predicate JobTerminal(s: JobStatus) { s in {JobSuccess, JobFailed, JobCancelled} }

  predicate Terminal(s: RunStatus) { s in {Completed, Failed, Cancelled} }

  predicate Live(s: RunStatus) { s in {Approved, Running} }

  /** Step `i` carries order `i`, and there is one step per plan entry. */
  predicate Ordered(w: World) {
    |w.steps| == Length(w.plan) && forall i | 0 <= i < |w.steps| :: w.steps[i].order == i
  }

  // ---- One call of advance ----

  /** Where a call can be cut off: before anything is committed, or after the finished step has been
      resolved and committed, possibly with the next job already handed to the queue. */
  datatype Crash = NoCrash | BeforeFirstCommit | BeforeSecondCommit(enqueued: bool)

  datatype Gate = Run | Stop(status: RunStatus, reason: SkipReason)

  function FirstWith(steps: seq<Step>, s: StepStatus): (i: nat)
    ensures i <= |steps|
  {
    if steps == [] then 0 else if steps[0].status == s then 0 else 1 + FirstWith(steps[1..], s)
  }

  predicate Has(steps: seq<Step>, s: StepStatus) {
    exists i | 0 <= i < |steps| :: steps[i].status == s
  }

  /** A queued step whose job has not ended: nothing to do yet. */
  predicate InFlight(w: World) {
    var q := FirstWith(w.steps, Queued);
    q < |w.steps| &&
    !(w.steps[q].jobId.Some? && w.steps[q].jobId.value in w.jobs && JobTerminal(w.jobs[w.steps[q].jobId.value].status))
  }

  function Outcome(s: JobStatus): StepStatus {
    match s case JobSuccess => Succeeded case JobCancelled => StepCancelled case _ => StepFailed
  }

  /** First transaction: the queued step takes over its job's outcome. */
  function Resolve(w: World): (w': World)
    requires !InFlight(w)
    ensures w'.plan == w.plan && w'.clock == w.clock && (Ordered(w) ==> Ordered(w'))
  {
    var q := FirstWith(w.steps, Queued);
    if q < |w.steps| then
      w.(steps := w.steps[q := w.steps[q].(status := Outcome(w.jobs[w.steps[q].jobId.value].status))])
    else w
  }

  function Finish(w: World, s: RunStatus): World {
    w.(status := s, finishedAt := Some(w.clock))
  }

  function SkipAt(w: World, k: nat, s: RunStatus, reason: SkipReason): World
    requires k < |w.steps|
  {
    Finish(w.(steps := w.steps[k := w.steps[k].(status := Skipped, reason := Some(reason))]), s)
  }

  function QueueAt(w: World, k: nat): World
    requires k < |w.steps|
  {
    w.(status := Running,
       steps := w.steps[k := w.steps[k].(status := Queued, jobId := Some(w.nextId))],
       jobs := w.jobs[w.nextId := Job(k, JobQueued, None, w.clock, None)],
       queue := w.queue + {w.nextId},
       nextId := w.nextId + 1)
  }

  /** The result the gate of step `k` looks at. */
  function PreviousResult(w: World, k: nat): Option<ToolResult>
    requires k < |w.steps|
  {
    var before := w.steps[k].order - 1;
    if 0 <= before < |w.steps| && w.steps[before].jobId.Some? && w.steps[before].jobId.value in w.jobs then
      w.jobs[w.steps[before].jobId.value].result
    else None
  }

  function Decide(p: Plan, order: nat, previous: Option<ToolResult>, executable: bool, prepared: bool): (g: Gate)
    requires order < Length(p)
    ensures g.Stop? ==> Terminal(g.status)
  {
    if p.MissionPlan? && !p.hasTool[order] then Stop(Failed, NoTool)
    else if p.ChainPlan? && order > 0 && !Holds(p.conditions[order], previous) then Stop(Completed, ConditionNotMet)
    else if !executable then Stop(Failed, NotExecutable)
    else if !prepared then Stop(Failed, NotPrepared)
    else Run
  }

  predicate WithinCap(p: Plan, order: nat) {
    p.MissionPlan? ==> order < p.maxSteps
  }

  datatype Verdict = Ends(status: RunStatus) | Skips(k: nat, status: RunStatus, reason: SkipReason) | Queues(k: nat)

  /** What the second transaction does: stop the run, or skip or queue the next step. */
  function Judge(w: World, executable: bool, prepared: bool): (v: Verdict)
    requires Ordered(w)
    ensures (!v.Ends? ==> v.k < |w.steps|) && (!v.Queues? ==> Terminal(v.status))
  {
    var k := FirstWith(w.steps, Pending);
    if Has(w.steps, StepCancelled) then Ends(Cancelled)
    else if Has(w.steps, StepFailed) || (w.plan.MissionPlan? && Has(w.steps, Skipped)) then Ends(Failed)
    else if k == |w.steps| || !WithinCap(w.plan, k) then Ends(if Has(w.steps, Succeeded) then Completed else Failed)
    else
      match Decide(w.plan, k, PreviousResult(w, k), executable, prepared)
      case Stop(s, reason) => Skips(k, s, reason)
      case Run => Queues(k)
  }

  function Settle(w: World, executable: bool, prepared: bool): (w': World)
    requires Ordered(w)
    ensures w'.plan == w.plan && w'.clock == w.clock && Ordered(w')
    ensures w'.status != Draft
  {
    match Judge(w, executable, prepared)
    case Ends(s) => Finish(w, s)
    case Skips(k, s, reason) => SkipAt(w, k, s, reason)
    case Queues(k) => QueueAt(w, k)
  }

  /** One call of `_advance_..._locked`, possibly cut off. */
  function Advance(w: World, executable: bool, prepared: bool, crash: Crash): (w': World)
    requires Ordered(w)
    ensures w'.plan == w.plan && w'.clock == w.clock && Ordered(w')
    ensures w.status != Draft ==> w'.status != Draft
  {
    if Terminal(w.status) || InFlight(w) || crash == BeforeFirstCommit then w
    else if crash.NoCrash? then Settle(Resolve(w), executable, prepared)
    else if crash.enqueued then Resolve(w).(nextId := w.nextId + 1, queue := w.queue + {w.nextId})
    else Resolve(w)
  }

  // ---- The other events ----

  predicate JobOpen(w: World, id: nat) {
    id in w.jobs && !JobTerminal(w.jobs[id].status)
  }

  function EndJob(w: World, id: nat, s: JobStatus, result: Option<ToolResult>): World
    requires id in w.jobs
  {
    w.(jobs := w.jobs[id := w.jobs[id].(status := s, result := result, finishedAt := Some(w.clock))],
       queue := w.queue - {id})
  }

  /** No row in the queue, and created too long ago. */
  predicate Orphaned(w: World, id: nat, stuckAfter: int) {
    JobOpen(w, id) && w.jobs[id].createdAt < w.clock - stuckAfter && id !in w.queue
  }

  function JobPass(w: World, stuckAfter: int): World {
    w.(jobs := map id | id in w.jobs ::
         if Orphaned(w, id, stuckAfter) then w.jobs[id].(status := JobFailed, finishedAt := Some(w.clock))
         else w.jobs[id])
  }

  function Later(a: Option<int>, b: Option<int>): Option<int> {
    if a.None? then b else if b.None? || b.value <= a.value then a else b
  }

  function FinishTime(w: World, s: Step): Option<int> {
    if s.jobId.Some? && s.jobId.value in w.jobs then w.jobs[s.jobId.value].finishedAt else None
  }

  function LatestFinish(w: World, n: nat): Option<int>
    requires n <= |w.steps|
  {
    if n == 0 then None else Later(LatestFinish(w, n - 1), FinishTime(w, w.steps[n - 1]))
  }

  /** The last moment of known activity: the latest end of one of the run's jobs, else the anchor. */
  function LastProgress(w: World): Option<int> {
    var latest := LatestFinish(w, |w.steps|);
    if latest.Some? then latest else w.anchor
  }

  predicate Stalled(w: World, orchestrationStuckAfter: int) {
    Live(w.status) && !InFlight(w) && LastProgress(w).Some? && LastProgress(w).value < w.clock - orchestrationStuckAfter
  }

  function Nudge(w: World, executable: bool, prepared: bool, orchestrationStuckAfter: int): (w': World)
    requires Ordered(w)
    ensures w'.plan == w.plan && w'.clock == w.clock && Ordered(w')
  {
    if Stalled(w, orchestrationStuckAfter) then Advance(w, executable, prepared, NoCrash) else w
  }

  /** `run_reconciliation_sweep`, restricted to this run and its jobs. */
  function Sweep(w: World, executable: bool, prepared: bool, stuckAfter: int, orchestrationStuckAfter: int): (w': World)
    requires Ordered(w)
    ensures w'.plan == w.plan && w'.clock == w.clock && Ordered(w')
  {
    Nudge(JobPass(w, stuckAfter), executable, prepared, orchestrationStuckAfter)
  }

  datatype Event =
    | Advancing(executable: bool, prepared: bool, crash: Crash)
    | Approving(executable: bool, prepared: bool, crash: Crash)
    | Cancelling
    | JobEnding(id: nat, outcome: JobStatus, result: Option<ToolResult>)
    | EntryLost(id: nat)
    | Ticking(now: int)
    | Sweeping(executable: bool, prepared: bool, stuckAfter: int, orchestrationStuckAfter: int)

  function Approve(w: World): World {
    w.(status := Approved, anchor := Some(w.clock))
  }

  /** What one event does. An event whose guard fails in the source changes nothing here. */
  function Apply(w: World, ev: Event): (w': World)
    requires Ordered(w)
    ensures w'.plan == w.plan && Ordered(w')
  {
    match ev
    case Advancing(e, p, crash) => if w.status == Draft then w else Advance(w, e, p, crash)
    case Approving(e, p, crash) => if w.status == Draft then Advance(Approve(w), e, p, crash) else w
    case Cancelling => if Terminal(w.status) then w else Finish(w, Cancelled)
    case JobEnding(id, outcome, result) =>
      if JobOpen(w, id) && JobTerminal(outcome) then EndJob(w, id, outcome, result) else w
    case EntryLost(id) => w.(queue := w.queue - {id})
    case Ticking(now) => if now >= w.clock then w.(clock := now) else w
    case Sweeping(e, p, stuck, orchestration) => Sweep(w, e, p, stuck, orchestration)
  }

  /** A mission starts as a draft, a chain run is running from its creation. */
  function Created(p: Plan, now: int): World {
    World(p, if p.MissionPlan? then Draft else Running, None, if p.MissionPlan? then None else Some(now),
          seq(Length(p), i requires 0 <= i < Length(p) => Step(i, Pending, None, None)), map[], 0, {}, now)
  }

  /** Any run: the events in the order in which they happen. */
  function After(w: World, events: seq<Event>): (w': World)
    requires Ordered(w)
    ensures w'.plan == w.plan && Ordered(w')
    decreases |events|
  {
    if events == [] then w else Apply(After(w, events[..|events| - 1]), events[|events| - 1])
  }
}
