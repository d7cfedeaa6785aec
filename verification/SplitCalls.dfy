/** One advance seen as the two transactions it is. The commit after the finished step has been resolved
    releases the row lock, and the caller goes on with the run and the steps as it remembers them. */
module SplitCalls {
  import opened Options
  import opened Conditions
  import opened StepMachine
  import opened StepInvariants
  import opened Refinement

  /** The second transaction of a call that remembers `seen`, on what the database holds by then. Only
      columns the call assigns a new value are written, so a remembered RUNNING is not written again. */
  function Resume(seen: World, w: World, executable: bool, prepared: bool): (w': World)
    requires Ordered(seen) && Ordered(w) && w.plan == seen.plan
    ensures Ordered(w') && w'.plan == w.plan
  {
    match Judge(seen, executable, prepared)
    case Ends(s) => Finish(w, s)
    case Skips(k, s, reason) => SkipAt(w, k, s, reason)
    case Queues(k) => if seen.status == Running then QueueAt(w, k).(status := w.status) else QueueAt(w, k)
  }

  /** A call is between its two commits: the finished step is resolved, nothing is queued. */
  ghost predicate Halfway(seen: World) {
    Inv(seen) && Live(seen.status) && !Has(seen.steps, Queued)
  }

  /** The call that gets to this point is one that found a finished step. */
  lemma FirstCommitIsHalfway(w: World)
    requires Inv(w) && Live(w.status) && !InFlight(w)
    ensures Halfway(Resolve(w))
    ensures Resolve(w) == Advance(w, false, false, BeforeSecondCommit(false))
  {
    ResolveFreesTheQueue(w);
  }

  lemma NothingToResolve(w: World)
    requires Halfway(w)
    ensures !InFlight(w) && Resolve(w) == w
    ensures forall id | id in w.jobs :: !JobOpen(w, id)
  {
    ShapeSearch(w.steps, Front(w.steps));
    InFlightMeans(w);
  }

  // ---- What can fall into the gap ----

  predicate IsCall(ev: Event) { ev.Advancing? || ev.Sweeping? }

  predicate CancelledBy(events: seq<Event>) {
    exists i :: 0 <= i < |events| && events[i].Cancelling?
  }

  predicate NoCalls(events: seq<Event>) {
    forall i | 0 <= i < |events| :: !IsCall(events[i])
  }

  lemma GapEvent(seen: World, w: World, ev: Event)
    requires Halfway(seen) && Inv(w) && w.steps == seen.steps && w.jobs == seen.jobs && w.plan == seen.plan
    requires w.status == seen.status || w.status == Cancelled
    requires !IsCall(ev)
    ensures var w' := Apply(w, ev);
            Inv(w') && w'.steps == seen.steps && w'.jobs == seen.jobs
            && w'.status == (if ev.Cancelling? then Cancelled else w.status)
  {
    ApplyInv(w, ev);
    NothingToResolve(seen);
    if ev.JobEnding? {
      assert !JobOpen(seen, ev.id);
    }
  }

  /** Without another call in between, the steps and the jobs stay as they are, and the run's status changes
      exactly if a cancellation falls into the gap. */
  lemma {:induction false} GapEffect(seen: World, events: seq<Event>)
    requires Halfway(seen) && NoCalls(events)
    ensures var w := After(seen, events);
            Inv(w) && w.steps == seen.steps && w.jobs == seen.jobs
            && w.status == (if CancelledBy(events) then Cancelled else seen.status)
    decreases |events|
  {
    if events != [] {
      var n := |events| - 1;
      GapEffect(seen, events[..n]);
      GapEvent(seen, After(seen, events[..n]), events[n]);
      assert CancelledBy(events) <==> CancelledBy(events[..n]) || events[n].Cancelling?;
    }
  }

  /** If the run and its jobs are as remembered, the second transaction is what one undivided call would do. */
  lemma UndisturbedCallIsAtomic(seen: World, w: World, executable: bool, prepared: bool)
    requires Halfway(seen) && Inv(w) && SameRun(seen, w) && w.jobs == seen.jobs && w.plan == seen.plan
    ensures Resume(seen, w, executable, prepared) == Advance(w, executable, prepared, NoCrash)
  {
    NothingToResolve(w);
    JudgeReads(seen, w, executable, prepared);
    SettledAsRemembered(seen, w, executable, prepared);
  }

  /** The verdict looks at the plan, the steps and the jobs only. */
  lemma JudgeReads(seen: World, w: World, executable: bool, prepared: bool)
    requires Ordered(seen) && Ordered(w) && w.plan == seen.plan && w.steps == seen.steps && w.jobs == seen.jobs
    ensures Judge(w, executable, prepared) == Judge(seen, executable, prepared)
  {
  }

  lemma SettledAsRemembered(seen: World, w: World, executable: bool, prepared: bool)
    requires Ordered(seen) && Ordered(w) && w.plan == seen.plan && w.status == seen.status
    requires Judge(w, executable, prepared) == Judge(seen, executable, prepared)
    ensures Resume(seen, w, executable, prepared) == Settle(w, executable, prepared)
  {
  }

  // ---- A cancellation in the gap ----

  /** What the atomic model promises of a commit: a finished run keeps its status, its steps and its end time,
      and a job appears only on a run that is not finished and is then RUNNING. */
  ghost predicate KeepsPromises(w: World, w': World) {
    && (Terminal(w.status) ==> SameRun(w, w') && w'.finishedAt == w.finishedAt)
    && (forall id | id in w'.jobs && id !in w.jobs :: !Terminal(w.status) && w'.status == Running)
  }

  lemma VerdictOnCancelledStep(seen: World, executable: bool, prepared: bool)
    requires Halfway(seen)
    ensures Judge(seen, executable, prepared) == Ends(Cancelled) <==> Has(seen.steps, StepCancelled)
  {
    ShapeSearch(seen.steps, Front(seen.steps));
    VerdictFits(seen, executable, prepared);
  }

  /** On a run cancelled meanwhile the second transaction still does what it had in mind: it overwrites the
      status, or queues a job on the cancelled run. */
  lemma ResumeOnCancelled(seen: World, w: World, executable: bool, prepared: bool)
    requires Halfway(seen) && Inv(w) && w.steps == seen.steps && w.jobs == seen.jobs && w.plan == seen.plan
    requires w.status == Cancelled
    ensures KeepsPromises(w, Resume(seen, w, executable, prepared)) <==>
      Has(seen.steps, StepCancelled) && w.finishedAt == Some(w.clock)
    ensures !Judge(seen, executable, prepared).Queues? ==>
      Resume(seen, w, executable, prepared).status == Judge(seen, executable, prepared).status
    ensures Judge(seen, executable, prepared).Queues? ==>
      var k, w' := Judge(seen, executable, prepared).k, Resume(seen, w, executable, prepared);
      w.nextId !in w.jobs && w.nextId in w'.jobs && w'.jobs[w.nextId].step == k
      && (seen.status == Running ==> w'.status == Cancelled)
  {
    VerdictOnCancelledStep(seen, executable, prepared);
    VerdictFits(seen, executable, prepared);
    assert w.nextId !in w.jobs;
  }

  /** Exactly when a call keeps its promises although its lock is released half way, with no other call in
      the gap: no cancellation falls into it, or the resolved step was itself cancelled and the clock has not
      moved since the cancellation, whose end time is then written once more. */
  lemma CallKeepsPromisesIff(seen: World, events: seq<Event>, executable: bool, prepared: bool)
    requires Halfway(seen) && NoCalls(events)
    ensures
      var w := After(seen, events);
      KeepsPromises(w, Resume(seen, w, executable, prepared))
      <==> !CancelledBy(events) || (Has(seen.steps, StepCancelled) && w.finishedAt == Some(w.clock))
  {
    var w := After(seen, events);
    GapEffect(seen, events);
    if CancelledBy(events) {
      ResumeOnCancelled(seen, w, executable, prepared);
    } else {
      UndisturbedCallIsAtomic(seen, w, executable, prepared);
      UndisturbedKeepsPromises(w, executable, prepared);
    }
  }

  lemma UndisturbedKeepsPromises(w: World, executable: bool, prepared: bool)
    requires Inv(w) && w.status != Draft
    ensures KeepsPromises(w, Advance(w, executable, prepared, NoCrash))
  {
    forall id | id in Advance(w, executable, prepared, NoCrash).jobs && id !in w.jobs
      ensures !Terminal(w.status) && Advance(w, executable, prepared, NoCrash).status == Running
    {
      AdvanceCreates(w, executable, prepared, NoCrash, id);
    }
  }

  // ---- Another call in the gap ----

  ghost predicate TwoJobsForAStep(w: World) {
    exists i, j :: i in w.jobs && j in w.jobs && i != j && w.jobs[i].step == w.jobs[j].step
  }

  /** A call that means to queue step `k` gives it a second job exactly if, whatever else happened in the
      gap, some other call has queued that step meanwhile. */
  lemma SecondJobIff(seen: World, events: seq<Event>, executable: bool, prepared: bool, k: nat)
    requires Halfway(seen) && Judge(seen, executable, prepared) == Queues(k)
    ensures k < |After(seen, events).steps|
    ensures
      var w := After(seen, events);
      TwoJobsForAStep(Resume(seen, w, executable, prepared)) <==> w.steps[k].jobId.Some?
  {
    var w := After(seen, events);
    RunKeepsInv(seen, events);
    OneMoreJob(w, Resume(seen, w, executable, prepared), Job(k, JobQueued, None, w.clock, None));
  }

  lemma OneMoreJob(w: World, w': World, job: Job)
    requires Inv(w) && w'.jobs == w.jobs[w.nextId := job] && job.step < |w.steps|
    ensures TwoJobsForAStep(w') <==> w.steps[job.step].jobId.Some?
  {
    assert w.nextId !in w.jobs;
    if w.steps[job.step].jobId.Some? {
      var other := w.steps[job.step].jobId.value;
      assert other in w'.jobs && w'.jobs[other].step == w'.jobs[w.nextId].step && other != w.nextId;
    }
  }

  lemma {:induction false} RunKeepsInv(w: World, events: seq<Event>)
    requires Inv(w)
    ensures Inv(After(w, events))
    decreases |events|
  {
    if events != [] {
      RunKeepsInv(w, events[..|events| - 1]);
      ApplyInv(After(w, events[..|events| - 1]), events[|events| - 1]);
    }
  }

  /** And one complete call in the gap that meets the same answers does queue it. */
  lemma OverlappingCallQueuesTwice(seen: World, executable: bool, prepared: bool, k: nat)
    requires Halfway(seen) && Judge(seen, executable, prepared) == Queues(k)
    ensures
      var w := Apply(seen, Advancing(executable, prepared, NoCrash));
      TwoJobsForAStep(Resume(seen, w, executable, prepared))
  {
    var ev := Advancing(executable, prepared, NoCrash);
    NothingToResolve(seen);
    assert Apply(seen, ev) == QueueAt(seen, k);
    assert After(seen, [ev]) == Apply(seen, ev) by {
      assert [ev][..0] == [];
    }
    SecondJobIff(seen, [ev], executable, prepared, k);
  }

  // ---- Whole runs of split calls ----

  /** `call` holds what an open call remembers. */
  datatype Session = Session(world: World, call: Option<World>)

  /** A call that dies may have handed its job to the queue already. */
  datatype Move =
    FirstCommit | SecondCommit(executable: bool, prepared: bool) | Died(enqueued: bool) | Whole(ev: Event)

  ghost predicate Sound(s: Session) {
    && Inv(s.world)
    && (s.call.Some? ==>
          && Halfway(s.call.value) && s.call.value.plan == s.world.plan
          && s.world.steps == s.call.value.steps && s.world.jobs == s.call.value.jobs
          && s.world.status == s.call.value.status)
  }

  /** The moves the assumption of no overlap allows, and no cancellation while a call is open. */
  predicate Allowed(s: Session, m: Move) {
    match m
    case FirstCommit => s.call.None? && Live(s.world.status) && Has(s.world.steps, Queued) && !InFlight(s.world)
    case SecondCommit(_, _) => s.call.Some?
    case Died(_) => s.call.Some?
    case Whole(ev) => s.call.Some? ==> !IsCall(ev) && !ev.Cancelling?
  }

  predicate Fitting(s: Session) {
    Ordered(s.world) && (s.call.Some? ==> Ordered(s.call.value) && s.call.value.plan == s.world.plan)
  }

  function Play(s: Session, m: Move): (s': Session)
    requires Fitting(s)
    ensures Fitting(s') && s'.world.plan == s.world.plan
  {
    match m
    case FirstCommit =>
      if InFlight(s.world) then s else Session(Resolve(s.world), Some(Resolve(s.world)))
    case SecondCommit(e, p) =>
      Session(if s.call.Some? then Resume(s.call.value, s.world, e, p) else s.world, None)
    case Died(enqueued) =>
      var w := s.world;
      Session(if enqueued then w.(nextId := w.nextId + 1, queue := w.queue + {w.nextId}) else w, None)
    case Whole(ev) => Session(Apply(s.world, ev), s.call)
  }

  function PlayAll(s: Session, moves: seq<Move>): (s': Session)
    requires Fitting(s)
    ensures Fitting(s') && s'.world.plan == s.world.plan
    decreases |moves|
  {
    if moves == [] then s else Play(PlayAll(s, moves[..|moves| - 1]), moves[|moves| - 1])
  }

  predicate AllAllowed(s: Session, moves: seq<Move>)
    requires Fitting(s)
    decreases |moves|
  {
    moves != [] ==>
      var n := |moves| - 1;
      AllAllowed(s, moves[..n]) && Allowed(PlayAll(s, moves[..n]), moves[n])
  }

  /** The atomic event a move amounts to. */
  function Atomic(m: Move): Event {
    match m
    case FirstCommit => Advancing(false, false, BeforeSecondCommit(false))
    case SecondCommit(e, p) => Advancing(e, p, NoCrash)
    case Died(enqueued) => Advancing(false, false, BeforeSecondCommit(enqueued))
    case Whole(ev) => ev
  }

  lemma DeathIsAtomic(s: Session, enqueued: bool)
    requires Sound(s) && s.call.Some?
    ensures var w' := Play(s, Died(enqueued)).world;
            w' == Apply(s.world, Advancing(false, false, BeforeSecondCommit(enqueued))) && Inv(w')
  {
    assert Halfway(s.world);
    NothingToResolve(s.world);
    ApplyInv(s.world, Advancing(false, false, BeforeSecondCommit(enqueued)));
  }

  /** Every allowed move does to the run what one atomic event does. */
  lemma MoveIsAtomic(s: Session, m: Move)
    requires Sound(s) && Allowed(s, m)
    ensures Sound(Play(s, m))
    ensures Play(s, m).world == Apply(s.world, Atomic(m))
  {
    match m
    case FirstCommit => FirstCommitIsHalfway(s.world);
    case SecondCommit(e, p) =>
      UndisturbedCallIsAtomic(s.call.value, s.world, e, p);
      ApplyInv(s.world, Atomic(m));
    case Died(enqueued) => DeathIsAtomic(s, enqueued);
    case Whole(ev) =>
      ApplyInv(s.world, ev);
      if s.call.Some? {
        GapEvent(s.call.value, s.world, ev);
      }
  }

  function Atomics(moves: seq<Move>): seq<Event> {
    seq(|moves|, i requires 0 <= i < |moves| => Atomic(moves[i]))
  }

  lemma AtomicsOneMore(moves: seq<Move>)
    requires moves != []
    ensures Atomics(moves) == Atomics(moves[..|moves| - 1]) + [Atomic(moves[|moves| - 1])]
  {
  }

  lemma AfterOneMore(w: World, events: seq<Event>, ev: Event)
    requires Ordered(w)
    ensures After(w, events + [ev]) == Apply(After(w, events), ev)
  {
    var all := events + [ev];
    assert all[..|all| - 1] == events && all[|all| - 1] == ev;
  }

  /** A mission or a chain run as created, with no call open. */
  function Start(p: Plan, now: int): Session {
    Session(Created(p, now), None)
  }

  /** Every run of split calls without overlap and without a cancellation between the two commits of one call
      is a run of the atomic model, move by move: whatever holds of all reachable states holds of it. */
  lemma {:induction false} SplitRunsAreAtomicRuns(p: Plan, now: int, moves: seq<Move>)
    requires AllAllowed(Start(p, now), moves)
    ensures PlayAll(Start(p, now), moves).world == After(Created(p, now), Atomics(moves))
    ensures Sound(PlayAll(Start(p, now), moves))
    decreases |moves|
  {
    if moves == [] {
      CreatedInv(p, now);
    } else {
      var n := |moves| - 1;
      SplitRunsAreAtomicRuns(p, now, moves[..n]);
      MoveIsAtomic(PlayAll(Start(p, now), moves[..n]), moves[n]);
      AtomicsOneMore(moves);
      AfterOneMore(Created(p, now), Atomics(moves[..n]), Atomic(moves[n]));
    }
  }

  /** Each move agrees with the script: second commits and whole calls get its answers, jobs end as it says,
      and nobody cancels the run. */
  ghost predicate MovesFollow(s: Session, moves: seq<Move>, script: seq<Answer>)
    requires Fitting(s)
    decreases |moves|
  {
    moves != [] ==>
      var n := |moves| - 1;
      MovesFollow(s, moves[..n], script) && Follows(PlayAll(s, moves[..n]).world, Atomic(moves[n]), script)
  }

  lemma {:induction false} AtomicsFollow(p: Plan, now: int, moves: seq<Move>, script: seq<Answer>)
    requires AllAllowed(Start(p, now), moves) && MovesFollow(Start(p, now), moves, script)
    ensures AllFollow(Created(p, now), Atomics(moves), script)
    decreases |moves|
  {
    if moves != [] {
      var n := |moves| - 1;
      AtomicsFollow(p, now, moves[..n], script);
      SplitRunsAreAtomicRuns(p, now, moves[..n]);
      AtomicsOneMore(moves);
      FollowOneMore(Created(p, now), Atomics(moves[..n]), Atomic(moves[n]), script);
    }
  }

  /** Divided calls refine the interpreter too: a run of moves that follows a script and reaches a terminal
      status ends with the step statuses and run status of a left-to-right reading of the plan. */
  lemma SplitRunsRefineTheInterpreter(p: Plan, now: int, moves: seq<Move>, script: seq<Answer>)
    requires Answers(p, script)
    requires AllAllowed(Start(p, now), moves) && MovesFollow(Start(p, now), moves, script)
    ensures
      var w := PlayAll(Start(p, now), moves).world;
      Terminal(w.status) ==> Ending(Statuses(w.steps), w.status) == Interpret(p, script, 0)
  {
    AtomicsFollow(p, now, moves, script);
    SplitRunsAreAtomicRuns(p, now, moves);
    RunsRefineTheInterpreter(p, now, Atomics(moves), script);
  }

  // ---- A reachable run in which a cancellation falls into the gap ----

  const TwoSteps := ChainPlan([Condition(Always, {}, ""), Condition(Always, {}, "")])

  /** The first step's job has ended in success and the call has committed that. */
  const Resolved := World(
    TwoSteps, Running, None, Some(0), [Step(0, Succeeded, Some(0), None), Step(1, Pending, None, None)],
    map[0 := Job(0, JobSuccess, None, 0, Some(0))], 1, {}, 0)

  lemma ResolvedIsReachable()
    ensures var queued := Apply(Created(TwoSteps, 0), Advancing(true, true, NoCrash));
            !InFlight(Apply(queued, JobEnding(0, JobSuccess, None)))
            && Resolve(Apply(queued, JobEnding(0, JobSuccess, None))) == Resolved
  {
    var start := Created(TwoSteps, 0);
    assert start.steps == [Step(0, Pending, None, None), Step(1, Pending, None, None)];
    assert FirstWith(start.steps, Pending) == 0 && FirstWith(start.steps, Queued) == 2;
    assert Apply(start, Advancing(true, true, NoCrash)) == QueueAt(start, 0);
    var queued := QueueAt(start, 0);
    assert queued.steps == [Step(0, Queued, Some(0), None), Step(1, Pending, None, None)];
    assert FirstWith(queued.steps, Queued) == 0;
  }

  /** Cancelled in the gap, that run gets a job for its second step all the same. */
  lemma CancelledRunGetsAJob()
    ensures Halfway(Resolved)
    ensures var w := Resume(Resolved, Apply(Resolved, Cancelling), true, true);
            w.status == Cancelled && 1 in w.jobs && w.jobs[1].step == 1 && w.steps[1].status == Queued
  {
    ResolvedIsHalfway();
    assert FirstWith(Resolved.steps, Pending) == 1;
    assert Judge(Resolved, true, true) == Queues(1);
  }

  lemma ResolvedIsHalfway()
    ensures Halfway(Resolved)
  {
    var start := Created(TwoSteps, 0);
    var queued := Apply(start, Advancing(true, true, NoCrash));
    var ended := Apply(queued, JobEnding(0, JobSuccess, None));
    ResolvedIsReachable();
    CreatedInv(TwoSteps, 0);
    ApplyInv(start, Advancing(true, true, NoCrash));
    ApplyInv(queued, JobEnding(0, JobSuccess, None));
    FirstCommitIsHalfway(ended);
  }
}
