/** With the answers of the outside world fixed per step, advancing in any order of polls, job
    endings, crashes and sweeps computes what a plain left-to-right reading of the plan computes. */
module Refinement {
  import opened Options
  import opened Conditions
  import opened StepMachine
  import opened StepInvariants

  /** What the world answers for one step: is the target executable, can the job be prepared, and
      how does the job end. */
  datatype Answer = Answer(executable: bool, prepared: bool, outcome: JobStatus, result: Option<ToolResult>)

  datatype Ending = Ending(steps: seq<StepStatus>, status: RunStatus)

  function Repeat(s: StepStatus, n: nat): seq<StepStatus> {
    seq(n, i => s)
  }

  predicate Answers(p: Plan, script: seq<Answer>) {
    |script| == Length(p) && forall a | a in script :: JobTerminal(a.outcome)
  }

  // ---- The interpreter ----

  /** How the plan ends once step `k` has been handed to a job. */
  function AfterJob(p: Plan, script: seq<Answer>, k: nat): (e: Ending)
    requires |script| == Length(p) && k < Length(p)
    ensures |e.steps| == Length(p) - k
    decreases 2 * (Length(p) - k)
  {
    match script[k].outcome
    case JobSuccess =>
      var rest := Interpret(p, script, k + 1);
      Ending([Succeeded] + rest.steps, rest.status)
    case JobCancelled => Ending([StepCancelled] + Repeat(Pending, Length(p) - k - 1), Cancelled)
    case _ => Ending([StepFailed] + Repeat(Pending, Length(p) - k - 1), Failed)
  }

  /** How the plan ends from step `k` on when all earlier steps succeeded. */
  function Interpret(p: Plan, script: seq<Answer>, k: nat): (e: Ending)
    requires |script| == Length(p) && k <= Length(p)
    ensures |e.steps| == Length(p) - k
    decreases 2 * (Length(p) - k) + 1
  {
    if k == Length(p) || !WithinCap(p, k) then
      Ending(Repeat(Pending, Length(p) - k), if k > 0 then Completed else Failed)
    else
      match Decide(p, k, if k > 0 then script[k - 1].result else None, script[k].executable, script[k].prepared)
      case Stop(s, _) => Ending([Skipped] + Repeat(Pending, Length(p) - k - 1), s)
      case Run => AfterJob(p, script, k)
  }

  // ---- What a state is going to end as ----

  function Statuses(steps: seq<Step>): seq<StepStatus> {
    seq(|steps|, i requires 0 <= i < |steps| => steps[i].status)
  }

  function Continue(k: nat, e: Ending): Ending {
    Ending(Repeat(Succeeded, k) + e.steps, e.status)
  }

  function Denote(w: World, script: seq<Answer>): Ending
    requires Ordered(w) && |script| == Length(w.plan)
  {
    var k := Front(w.steps);
    if Terminal(w.status) then Ending(Statuses(w.steps), w.status)
    else if k < |w.steps| && w.steps[k].status == StepFailed then Ending(Statuses(w.steps), Failed)
    else if k < |w.steps| && w.steps[k].status == StepCancelled then Ending(Statuses(w.steps), Cancelled)
    else if k < |w.steps| && w.steps[k].status == Queued then Continue(k, AfterJob(w.plan, script, k))
    else Continue(k, Interpret(w.plan, script, k))
  }

  /** Ended jobs ended as the script says. */
  ghost predicate JobsFollow(w: World, script: seq<Answer>) {
    forall id | id in w.jobs && JobTerminal(w.jobs[id].status) && w.jobs[id].step < |script| ::
      && w.jobs[id].status == script[w.jobs[id].step].outcome
      && (w.jobs[id].status == JobSuccess ==> w.jobs[id].result == script[w.jobs[id].step].result)
  }

  ghost predicate AnswersGiven(w: World, executable: bool, prepared: bool, script: seq<Answer>) {
    var k := FirstWith(w.steps, Pending);
    k < |w.steps| && k < |script| ==> executable == script[k].executable && prepared == script[k].prepared
  }

  /** The event agrees with the script, as far as it asks for answers, and nobody cancels the run itself. */
  ghost predicate Follows(w: World, ev: Event, script: seq<Answer>) {
    match ev
    case Advancing(e, p, crash) => crash.NoCrash? ==> AnswersGiven(w, e, p, script)
    case Approving(e, p, crash) => crash.NoCrash? ==> AnswersGiven(w, e, p, script)
    case Cancelling => false
    case JobEnding(id, outcome, result) =>
      JobOpen(w, id) && w.jobs[id].step < |script| ==>
        outcome == script[w.jobs[id].step].outcome && result == script[w.jobs[id].step].result
    case Sweeping(e, p, stuck, _) =>
      AnswersGiven(w, e, p, script)
      && forall id | Orphaned(w, id, stuck) && w.jobs[id].step < |script| ::
           script[w.jobs[id].step].outcome == JobFailed
    case _ => true
  }

  lemma ShapeStatuses(steps: seq<Step>, k: nat)
    requires Shape(steps, k)
    ensures k < |steps| ==>
      Statuses(steps) == Repeat(Succeeded, k) + ([steps[k].status] + Repeat(Pending, |steps| - k - 1))
    ensures k == |steps| || steps[k].status == Pending ==>
      Statuses(steps) == Repeat(Succeeded, k) + Repeat(Pending, |steps| - k)
  {
  }

  /** Succeeding at step `k` hands over to the interpreter at step `k + 1`. */
  lemma AfterSuccess(p: Plan, script: seq<Answer>, k: nat)
    requires |script| == Length(p) && k < Length(p) && script[k].outcome == JobSuccess
    ensures Continue(k, AfterJob(p, script, k)) == Continue(k + 1, Interpret(p, script, k + 1))
  {
  }

  lemma RelabelDenotes(w: World, script: seq<Answer>)
    requires Inv(w) && Answers(w.plan, script) && JobsFollow(w, script) && Live(w.status)
    requires Front(w.steps) < |w.steps| && w.steps[Front(w.steps)].status == Queued
    requires JobTerminal(w.jobs[w.steps[Front(w.steps)].jobId.value].status)
    ensures Denote(Relabel(w, Front(w.steps)), script) == Denote(w, script)
  {
    var k := Front(w.steps);
    var w' := Relabel(w, k);
    ShapeReplace(w.steps, k, w'.steps[k]);
    assert w.jobs[w.steps[k].jobId.value].status == script[k].outcome;
    assert Denote(w, script) == Continue(k, AfterJob(w.plan, script, k));
    if script[k].outcome == JobSuccess {
      AfterSuccess(w.plan, script, k);
      assert k + 1 < |w.steps| ==> w'.steps[k + 1].status == Pending;
    } else {
      ShapeStatuses(w'.steps, k);
    }
  }

  lemma ResolveDenotes(w: World, script: seq<Answer>)
    requires Inv(w) && Answers(w.plan, script) && JobsFollow(w, script)
    requires !InFlight(w) && Live(w.status)
    ensures Denote(Resolve(w), script) == Denote(w, script) && JobsFollow(Resolve(w), script)
  {
    ShapeSearch(w.steps, Front(w.steps));
    if FirstWith(w.steps, Queued) < |w.steps| {
      RelabelDenotes(w, script);
    }
  }

  lemma PreviousFollows(w: World, script: seq<Answer>, k: nat)
    requires Inv(w) && Answers(w.plan, script) && JobsFollow(w, script) && k == Front(w.steps) < |w.steps|
    ensures PreviousResult(w, k) == if k > 0 then script[k - 1].result else None
  {
    if k > 0 {
      assert w.steps[k - 1].status == Succeeded;
      var id := w.steps[k - 1].jobId.value;
      assert w.jobs[id].step == k - 1;
    }
  }

  /** The verdict as the interpreter sees it. */
  lemma JudgeFollows(w: World, executable: bool, prepared: bool, script: seq<Answer>)
    requires Inv(w) && Answers(w.plan, script) && JobsFollow(w, script)
    requires !Has(w.steps, Queued) && Live(w.status) && AnswersGiven(w, executable, prepared, script)
    ensures
      var k, n := Front(w.steps), |w.steps|;
      Judge(w, executable, prepared) ==
        if k < n && w.steps[k].status == StepCancelled then Ends(Cancelled)
        else if k < n && w.steps[k].status == StepFailed then Ends(Failed)
        else if k == n || !WithinCap(w.plan, k) then Ends(if k > 0 then Completed else Failed)
        else
          var before := if k > 0 then script[k - 1].result else None;
          match Decide(w.plan, k, before, script[k].executable, script[k].prepared)
          case Stop(s, reason) => Skips(k, s, reason)
          case Run => Queues(k)
  {
    var k, n := Front(w.steps), |w.steps|;
    ShapeSearch(w.steps, k);
    if k < n && w.steps[k].status == Pending {
      PreviousFollows(w, script, k);
      assert w.steps[k].order == k;
      JudgePending(w, executable, prepared);
    }
  }

  lemma SkipDenotes(w: World, script: seq<Answer>, k: nat, s: RunStatus, reason: SkipReason)
    requires Ordered(w) && Shape(w.steps, k) && k < |w.steps| && |script| == Length(w.plan) && Terminal(s)
    ensures Denote(SkipAt(w, k, s, reason), script)
         == Continue(k, Ending([Skipped] + Repeat(Pending, |w.steps| - k - 1), s))
  {
    var w' := SkipAt(w, k, s, reason);
    ShapeReplace(w.steps, k, w'.steps[k]);
    ShapeStatuses(w'.steps, k);
  }

  lemma QueueDenotes(w: World, script: seq<Answer>, k: nat)
    requires Ordered(w) && Shape(w.steps, k) && k < |w.steps| && |script| == Length(w.plan)
    ensures Denote(QueueAt(w, k), script) == Continue(k, AfterJob(w.plan, script, k))
  {
    ShapeReplace(w.steps, k, QueueAt(w, k).steps[k]);
  }

  /** Where a verdict leads. */
  function Leads(w: World, v: Verdict, script: seq<Answer>): Ending
    requires Ordered(w) && |script| == Length(w.plan) && (!v.Ends? ==> v.k < |w.steps|)
  {
    match v
    case Ends(s) => Ending(Statuses(w.steps), s)
    case Skips(k, s, _) => Continue(k, Ending([Skipped] + Repeat(Pending, |w.steps| - k - 1), s))
    case Queues(k) => Continue(k, AfterJob(w.plan, script, k))
  }

  lemma VerdictDenotes(w: World, executable: bool, prepared: bool, script: seq<Answer>)
    requires Inv(w) && Answers(w.plan, script) && JobsFollow(w, script)
    requires !Has(w.steps, Queued) && Live(w.status) && AnswersGiven(w, executable, prepared, script)
    ensures Denote(w, script) == Leads(w, Judge(w, executable, prepared), script)
  {
    ShapeSearch(w.steps, Front(w.steps));
    ShapeStatuses(w.steps, Front(w.steps));
    JudgeFollows(w, executable, prepared, script);
  }

  lemma SettleLeads(w: World, executable: bool, prepared: bool, script: seq<Answer>)
    requires Settleable(w) && |script| == Length(w.plan)
    ensures Denote(Settle(w, executable, prepared), script) == Leads(w, Judge(w, executable, prepared), script)
  {
    VerdictFits(w, executable, prepared);
    match Judge(w, executable, prepared)
    case Ends(s) =>
    case Skips(k, s, reason) => SkipDenotes(w, script, k, s, reason);
    case Queues(k) => QueueDenotes(w, script, k);
  }

  lemma SettleDenotes(w: World, executable: bool, prepared: bool, script: seq<Answer>)
    requires Inv(w) && Answers(w.plan, script) && JobsFollow(w, script)
    requires !Has(w.steps, Queued) && Live(w.status) && AnswersGiven(w, executable, prepared, script)
    ensures Denote(Settle(w, executable, prepared), script) == Denote(w, script)
  {
    ShapeSearch(w.steps, Front(w.steps));
    VerdictDenotes(w, executable, prepared, script);
    SettleLeads(w, executable, prepared, script);
  }

  lemma AdvanceJobsFollow(w: World, executable: bool, prepared: bool, crash: Crash, script: seq<Answer>)
    requires Ordered(w) && JobsFollow(w, script)
    ensures JobsFollow(Advance(w, executable, prepared, crash), script)
  {
    if !Terminal(w.status) && !InFlight(w) {
      SettleJobsFollow(Resolve(w), executable, prepared, script);
    }
  }

  lemma SettleJobsFollow(w: World, executable: bool, prepared: bool, script: seq<Answer>)
    requires Ordered(w) && JobsFollow(w, script)
    ensures JobsFollow(Settle(w, executable, prepared), script)
  {
  }

  lemma CutAdvanceDenotes(w: World, executable: bool, prepared: bool, crash: Crash, script: seq<Answer>)
    requires Inv(w) && Answers(w.plan, script) && JobsFollow(w, script) && !crash.NoCrash?
    ensures Denote(Advance(w, executable, prepared, crash), script) == Denote(w, script)
  {
    if !(Terminal(w.status) || InFlight(w) || crash == BeforeFirstCommit) && w.status != Draft {
      ResolveDenotes(w, script);
    }
  }

  lemma AdvanceDenotes(w: World, executable: bool, prepared: bool, crash: Crash, script: seq<Answer>)
    requires Inv(w) && Answers(w.plan, script) && JobsFollow(w, script) && w.status != Draft
    requires crash.NoCrash? ==> AnswersGiven(w, executable, prepared, script)
    ensures Denote(Advance(w, executable, prepared, crash), script) == Denote(w, script)
  {
    if crash.NoCrash? {
      if !(Terminal(w.status) || InFlight(w)) {
        ResolveDenotes(w, script);
        ResolveFreesTheQueue(w);
        ResolveKeepsAnswers(w, executable, prepared, script);
        SettleDenotes(Resolve(w), executable, prepared, script);
      }
    } else {
      CutAdvanceDenotes(w, executable, prepared, crash, script);
    }
  }

  lemma ResolveKeepsAnswers(w: World, executable: bool, prepared: bool, script: seq<Answer>)
    requires Inv(w) && !InFlight(w) && Live(w.status) && AnswersGiven(w, executable, prepared, script)
    ensures AnswersGiven(Resolve(w), executable, prepared, script)
  {
    var k := Front(w.steps);
    ShapeSearch(w.steps, k);
    if FirstWith(w.steps, Queued) < |w.steps| {
      var s := w.steps[k].(status := Outcome(w.jobs[w.steps[k].jobId.value].status));
      ShapeReplace(w.steps, k, s);
      ShapeSearch(w.steps[k := s], Front(w.steps[k := s]));
      assert Resolve(w).steps == w.steps[k := s];
    }
  }

  lemma JobPassDenotes(w: World, stuckAfter: int, script: seq<Answer>)
    requires Ordered(w) && |script| == Length(w.plan) && JobsFollow(w, script)
    requires forall id | Orphaned(w, id, stuckAfter) && w.jobs[id].step < |script| ::
      script[w.jobs[id].step].outcome == JobFailed
    ensures Denote(JobPass(w, stuckAfter), script) == Denote(w, script) && JobsFollow(JobPass(w, stuckAfter), script)
  {
  }

  lemma SweepDenotes(w: World, ev: Event, script: seq<Answer>)
    requires Inv(w) && Answers(w.plan, script) && JobsFollow(w, script) && Follows(w, ev, script) && ev.Sweeping?
    ensures Denote(Apply(w, ev), script) == Denote(w, script) && JobsFollow(Apply(w, ev), script)
  {
    var w1 := JobPass(w, ev.stuckAfter);
    JobPassInv(w, ev.stuckAfter);
    JobPassDenotes(w, ev.stuckAfter, script);
    if Stalled(w1, ev.orchestrationStuckAfter) {
      AdvanceDenotes(w1, ev.executable, ev.prepared, NoCrash, script);
      AdvanceJobsFollow(w1, ev.executable, ev.prepared, NoCrash, script);
    }
  }

  lemma CallDenotes(w: World, ev: Event, script: seq<Answer>)
    requires Inv(w) && Answers(w.plan, script) && JobsFollow(w, script) && Follows(w, ev, script)
    requires ev.Advancing? || ev.Approving?
    ensures Denote(Apply(w, ev), script) == Denote(w, script) && JobsFollow(Apply(w, ev), script)
  {
    var w1 := if ev.Approving? then Approve(w) else w;
    if ev.Approving? == (w.status == Draft) {
      if ev.Approving? {
        ApproveInv(w);
      }
      AdvanceDenotes(w1, ev.executable, ev.prepared, ev.crash, script);
      AdvanceJobsFollow(w1, ev.executable, ev.prepared, ev.crash, script);
    }
  }

  /** One scripted event changes neither what the run will end as nor the jobs' agreement. */
  lemma ApplyDenotes(w: World, ev: Event, script: seq<Answer>)
    requires Inv(w) && Answers(w.plan, script) && JobsFollow(w, script) && Follows(w, ev, script)
    ensures Denote(Apply(w, ev), script) == Denote(w, script) && JobsFollow(Apply(w, ev), script)
  {
    match ev
    case Advancing(_, _, _) => CallDenotes(w, ev, script);
    case Approving(_, _, _) => CallDenotes(w, ev, script);
    case Sweeping(_, _, _, _) => SweepDenotes(w, ev, script);
    case Cancelling =>
    case JobEnding(id, outcome, result) => EndJobDenotes(w, ev, script);
    case EntryLost(_) =>
    case Ticking(_) =>
  }

  lemma EndJobDenotes(w: World, ev: Event, script: seq<Answer>)
    requires Inv(w) && Answers(w.plan, script) && JobsFollow(w, script) && Follows(w, ev, script) && ev.JobEnding?
    ensures Denote(Apply(w, ev), script) == Denote(w, script) && JobsFollow(Apply(w, ev), script)
  {
  }

  ghost predicate Scripted(w: World, script: seq<Answer>) {
    Inv(w) && Answers(w.plan, script) && JobsFollow(w, script)
  }

  lemma StepDenotes(w: World, ev: Event, script: seq<Answer>)
    requires Scripted(w, script) && Follows(w, ev, script)
    ensures Scripted(Apply(w, ev), script) && Denote(Apply(w, ev), script) == Denote(w, script)
  {
    ApplyInv(w, ev);
    ApplyDenotes(w, ev, script);
  }

  ghost predicate AllFollow(w: World, events: seq<Event>, script: seq<Answer>)
    requires Ordered(w)
    decreases |events|
  {
    events != [] ==>
      var n := |events| - 1;
      AllFollow(w, events[..n], script) && Follows(After(w, events[..n]), events[n], script)
  }

  lemma FollowOneMore(w: World, events: seq<Event>, ev: Event, script: seq<Answer>)
    requires Ordered(w) && AllFollow(w, events, script) && Follows(After(w, events), ev, script)
    ensures AllFollow(w, events + [ev], script)
  {
    var all := events + [ev];
    assert all[..|all| - 1] == events && all[|all| - 1] == ev;
  }

  lemma {:induction false} AfterDenotes(w: World, events: seq<Event>, script: seq<Answer>)
    requires Scripted(w, script) && AllFollow(w, events, script)
    ensures Scripted(After(w, events), script) && Denote(After(w, events), script) == Denote(w, script)
    decreases |events|
  {
    if events != [] {
      var n := |events| - 1;
      AfterDenotes(w, events[..n], script);
      StepDenotes(After(w, events[..n]), events[n], script);
    }
  }

  /** Whatever the interleaving of calls, crashes, job endings and sweeps, a run that reaches a
      terminal status ends with the interpreter's step statuses and run status. */
  lemma RunsRefineTheInterpreter(p: Plan, now: int, events: seq<Event>, script: seq<Answer>)
    requires Answers(p, script) && AllFollow(Created(p, now), events, script)
    ensures
      var w := After(Created(p, now), events);
      Terminal(w.status) ==> Ending(Statuses(w.steps), w.status) == Interpret(p, script, 0)
  {
    var w := Created(p, now);
    CreatedInv(p, now);
    FrontOfShape(w.steps, 0);
    AfterDenotes(w, events, script);
    assert Continue(0, Interpret(p, script, 0)) == Interpret(p, script, 0);
  }

  // ---- Every script can be played to the end ----

  lemma FreeAdvanceMoves(w: World, executable: bool, prepared: bool)
    requires Inv(w) && Live(w.status) && !InFlight(w)
    ensures Effort(Advance(w, executable, prepared, NoCrash)) < Effort(w)
  {
    ResolveEffort(w);
    ResolveFreesTheQueue(w);
    SettleEffort(Resolve(w), executable, prepared);
  }

  /** The next event the script calls for. */
  function Next(w: World, script: seq<Answer>): Event
    requires Ordered(w) && |script| == Length(w.plan)
  {
    var k, q := FirstWith(w.steps, Pending), FirstWith(w.steps, Queued);
    var answer := if k < |script| then script[k] else Answer(true, true, JobSuccess, None);
    if w.status == Draft then Approving(answer.executable, answer.prepared, NoCrash)
    else if q < |w.steps| && w.steps[q].jobId.Some? && InFlight(w) then
      JobEnding(w.steps[q].jobId.value, script[q].outcome, script[q].result)
    else Advancing(answer.executable, answer.prepared, NoCrash)
  }

  ghost function WayToGo(w: World): nat {
    2 * Effort(w) + (if InFlight(w) then 1 else 0) + (if w.status == Draft then 2 else 0)
  }

  lemma StartMoves(w: World, executable: bool, prepared: bool)
    requires Inv(w) && w.status == Draft
    ensures WayToGo(Apply(w, Approving(executable, prepared, NoCrash))) < WayToGo(w)
  {
    ApproveInv(w);
    InFlightMeans(Approve(w));
    FreeAdvanceMoves(Approve(w), executable, prepared);
    AdvanceInv(Approve(w), executable, prepared, NoCrash);
    ApprovedMoves(Approve(w), executable, prepared);
  }

  lemma EndingMoves(w: World, id: nat, outcome: JobStatus, result: Option<ToolResult>)
    requires Inv(w) && InFlight(w) && JobTerminal(outcome)
    requires w.steps[FirstWith(w.steps, Queued)].jobId == Some(id)
    ensures JobOpen(w, id) && w.jobs[id].step == FirstWith(w.steps, Queued)
    ensures WayToGo(EndJob(w, id, outcome, result)) < WayToGo(w)
  {
    InFlightMeans(w);
    ShapeSearch(w.steps, Front(w.steps));
  }

  lemma NextMoves(w: World, script: seq<Answer>)
    requires Scripted(w, script) && !Terminal(w.status)
    ensures Follows(w, Next(w, script), script)
    ensures WayToGo(Apply(w, Next(w, script))) < WayToGo(w)
  {
    var ev, q := Next(w, script), FirstWith(w.steps, Queued);
    InFlightMeans(w);
    ShapeSearch(w.steps, Front(w.steps));
    if w.status == Draft {
      StartMoves(w, ev.executable, ev.prepared);
    } else if InFlight(w) {
      EndingMoves(w, w.steps[q].jobId.value, script[q].outcome, script[q].result);
    } else {
      FreeAdvanceMoves(w, ev.executable, ev.prepared);
    }
  }

  /** Some run follows the script to a terminal status, so the refinement says how every plan ends. */
  lemma ScriptsCanBePlayed(p: Plan, now: int, script: seq<Answer>) returns (events: seq<Event>)
    requires Answers(p, script)
    ensures AllFollow(Created(p, now), events, script) && Terminal(After(Created(p, now), events).status)
    ensures
      var w := After(Created(p, now), events);
      Ending(Statuses(w.steps), w.status) == Interpret(p, script, 0)
  {
    var start := Created(p, now);
    CreatedInv(p, now);
    events := [];
    var w := start;
    while !Terminal(w.status)
      invariant w == After(start, events) && w.plan == p
      invariant Scripted(w, script) && AllFollow(start, events, script)
      decreases WayToGo(w)
    {
      var ev := Next(w, script);
      NextMoves(w, script);
      StepDenotes(w, ev, script);
      assert (events + [ev])[..|events|] == events;
      events := events + [ev];
      w := Apply(w, ev);
    }
    RunsRefineTheInterpreter(p, now, events, script);
  }
}
