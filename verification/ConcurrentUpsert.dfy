/** Any number of sessions upserting findings at once under READ COMMITTED: each statement sees the
    rows committed when it starts, `SELECT ... FOR UPDATE` and an uncommitted insert hold their row to
    the end of the transaction, and the partial unique index makes a second insert wait or fail. */
module ConcurrentUpsert {
  import opened Options
  import opened Findings

  /** Where a session is inside `upsert_finding`; `attempt` counts rounds of its retry loop. */
  datatype Phase =
    | Idle
    | Selecting(o: Observation, attempt: nat)
    | Merging(o: Observation)
    | Inserting(o: Observation, attempt: nat)
    | GaveUp

  /** `own` holds the uncommitted versions of the rows this transaction has locked or inserted, `done`
      the observations it has upserted but not committed. */
  datatype Session = Session(phase: Phase, own: map<string, Finding>, done: map<string, seq<Observation>>)

  /** `log` records, per signature, the observations of committed upserts in commit order. */
  datatype Database = Database(
    rows: map<string, Finding>, log: map<string, seq<Observation>>, sessions: map<nat, Session>)

  datatype Step =
    | Begin(sid: nat, o: Observation)
    | Select(sid: nat)
    | MergeRow(sid: nat)
    | Insert(sid: nat)
    | Commit(sid: nat)
    | Abort(sid: nat)

  const FRESH := Session(Idle, map[], map[])

  function SessionOf(db: Database, sid: nat): Session {
    if sid in db.sessions then db.sessions[sid] else FRESH
  }

  /** Another session's transaction holds the row, committed or being inserted. */
  predicate HeldByOther(db: Database, sid: nat, s: string) {
    exists other | other in db.sessions :: other != sid && s in db.sessions[other].own
  }

  function Logged(m: map<string, seq<Observation>>, s: string): seq<Observation> {
    if s in m then m[s] else []
  }

  function With(db: Database, sid: nat, session: Session): Database {
    db.(sessions := db.sessions[sid := session])
  }

  /** The signature an upsert in progress is about. */
  function Target(p: Phase): Option<string> {
    match p
    case Selecting(o, _) => SignatureOf(o)
    case Merging(o) => SignatureOf(o)
    case Inserting(o, _) => SignatureOf(o)
    case _ => None
  }

  /** Which steps can be taken now; a statement that has to wait cannot. */
  predicate Enabled(db: Database, step: Step) {
    var me := SessionOf(db, step.sid);
    match step
    case Begin(_, o) => me.phase.Idle? && SignatureOf(o).Some?
    case Select(sid) =>
      me.phase.Selecting? && Target(me.phase).Some? &&
      var s := Target(me.phase).value;
      s in me.own || s !in db.rows || !HeldByOther(db, sid, s)
    case MergeRow(_) => me.phase.Merging? && Target(me.phase).Some? && Target(me.phase).value in me.own
    case Insert(sid) =>
      me.phase.Inserting? && Target(me.phase).Some? &&
      (Target(me.phase).value in db.rows || !HeldByOther(db, sid, Target(me.phase).value))
    case Commit(_) => me.phase.Idle?
    case Abort(_) => true
  }

  function Note(session: Session, s: string, o: Observation): map<string, seq<Observation>> {
    session.done[s := Logged(session.done, s) + [o]]
  }

  function Take(db: Database, step: Step): Database
    requires Enabled(db, step)
  {
    var me := SessionOf(db, step.sid);
    match step
    case Begin(sid, o) => With(db, sid, me.(phase := Selecting(o, 0)))
    case Select(sid) =>
      var o, s := me.phase.o, Target(me.phase).value;
      if s in me.own then With(db, sid, me.(phase := Merging(o)))
      else if s in db.rows then
        With(db, sid, Session(Merging(o), me.own[s := db.rows[s]], me.done[s := []]))
      else With(db, sid, me.(phase := Inserting(o, me.phase.attempt)))
    case MergeRow(sid) =>
      var o, s := me.phase.o, Target(me.phase).value;
      With(db, sid, Session(Idle, me.own[s := Merge(me.own[s], o)], Note(me, s, o)))
    case Insert(sid) =>
      var o, s := me.phase.o, Target(me.phase).value;
      if s in db.rows then
        var next := me.phase.attempt + 1;
        if next < MAX_UPSERT_ATTEMPTS then With(db, sid, me.(phase := Selecting(o, next)))
        else With(db, sid, me.(phase := GaveUp))
      else With(db, sid, Session(Idle, me.own[s := Build(o)], Note(me, s, o)))
    case Commit(sid) =>
      Database(
        db.rows + me.own,
        db.log + (map s | s in me.done :: Logged(db.log, s) + me.done[s]),
        db.sessions[sid := FRESH])
    case Abort(sid) => With(db, sid, FRESH)
  }

  function Try(db: Database, step: Step): Database {
    if Enabled(db, step) then Take(db, step) else db
  }

  const EMPTY := Database(map[], map[], map[])

  /** Any schedule of the sessions' statements. */
  function After(steps: seq<Step>): Database {
    if steps == [] then EMPTY else Try(After(steps[..|steps| - 1]), steps[|steps| - 1])
  }

  // ---- The invariant ----

  /** A committed row is the fold of the committed observations of its signature. */
  ghost predicate RowsAreFolds(db: Database) {
    && db.rows.Keys == db.log.Keys
    && (forall s | s in db.rows :: db.log[s] != [] && db.rows[s] == Fold(db.log[s]))
  }

  /** An uncommitted version is the fold of the committed observations and the session's own. */
  ghost predicate OwnIsFold(db: Database, session: Session) {
    && session.own.Keys == session.done.Keys
    && (forall s | s in session.own ::
          Logged(db.log, s) + session.done[s] != [] && session.own[s] == Fold(Logged(db.log, s) + session.done[s]))
  }

  /** Row locks and the unique index keep the sessions apart. */
  ghost predicate Exclusive(db: Database) {
    forall i, j, s |
      i in db.sessions && j in db.sessions && s in db.sessions[i].own && s in db.sessions[j].own :: i == j
  }

  /** The retry loop: a second round starts only after the row has been committed by someone, and an
      insert is only ever tried in the first round. */
  ghost predicate LoopIsShort(db: Database, session: Session) {
    match session.phase
    case Idle => true
    case Selecting(o, a) =>
      SignatureOf(o).Some? && a <= 1 && (a == 1 ==> SignatureOf(o).value in db.rows)
    case Merging(o) => SignatureOf(o).Some? && SignatureOf(o).value in session.own
    case Inserting(o, a) => SignatureOf(o).Some? && a == 0 && SignatureOf(o).value !in session.own
    case GaveUp => false
  }

  ghost predicate SessionFits(db: Database, session: Session) {
    OwnIsFold(db, session) && LoopIsShort(db, session)
  }

  ghost predicate Inv(db: Database) {
    && RowsAreFolds(db) && Exclusive(db)
    && (forall sid | sid in db.sessions :: SessionFits(db, db.sessions[sid]))
  }

  // ---- Preservation ----

  /** A step that only moves one session, taking at most a row nobody else holds. */
  lemma SessionStep(db: Database, sid: nat, session: Session)
    requires Inv(db) && SessionFits(db, session)
    requires forall s | s in session.own :: s in SessionOf(db, sid).own || !HeldByOther(db, sid, s)
    ensures Inv(With(db, sid, session))
  {
    var db' := With(db, sid, session);
    forall i, j, s | i in db'.sessions && j in db'.sessions && s in db'.sessions[i].own && s in db'.sessions[j].own
      ensures i == j
    {
      assert s in SessionOf(db, sid).own ==> sid in db.sessions;
    }
  }

  lemma MergeFolds(log: seq<Observation>, done: seq<Observation>, o: Observation)
    requires log + done != []
    ensures Merge(Fold(log + done), o) == Fold(log + (done + [o]))
  {
    FoldStep(log + done, o);
    assert log + done + [o] == log + (done + [o]);
  }

  /** Writing one more version keeps every version a fold. */
  lemma OwnAfterWrite(db: Database, me: Session, phase: Phase, s: string, f: Finding, d: seq<Observation>)
    requires OwnIsFold(db, me) && Logged(db.log, s) + d != [] && f == Fold(Logged(db.log, s) + d)
    ensures OwnIsFold(db, Session(phase, me.own[s := f], me.done[s := d]))
  {
  }

  lemma LockInv(db: Database, sid: nat)
    requires Inv(db) && Enabled(db, Select(sid))
    requires Target(SessionOf(db, sid).phase).value !in SessionOf(db, sid).own
    requires Target(SessionOf(db, sid).phase).value in db.rows
    ensures Inv(Take(db, Select(sid)))
  {
    var me := SessionOf(db, sid);
    assert SessionFits(db, me);
    var o, s := me.phase.o, Target(me.phase).value;
    assert Logged(db.log, s) + [] == db.log[s];
    OwnAfterWrite(db, me, Merging(o), s, db.rows[s], []);
    SessionStep(db, sid, Session(Merging(o), me.own[s := db.rows[s]], me.done[s := []]));
  }

  lemma SelectInv(db: Database, sid: nat)
    requires Inv(db) && Enabled(db, Select(sid))
    ensures Inv(Take(db, Select(sid)))
  {
    var me := SessionOf(db, sid);
    assert SessionFits(db, me);
    var o, s := me.phase.o, Target(me.phase).value;
    if s in me.own {
      SessionStep(db, sid, me.(phase := Merging(o)));
    } else if s in db.rows {
      LockInv(db, sid);
    } else {
      SessionStep(db, sid, me.(phase := Inserting(o, me.phase.attempt)));
    }
  }

  lemma MergeInv(db: Database, sid: nat)
    requires Inv(db) && Enabled(db, MergeRow(sid))
    ensures Inv(Take(db, MergeRow(sid)))
  {
    var me := SessionOf(db, sid);
    assert SessionFits(db, me);
    var o, s := me.phase.o, Target(me.phase).value;
    MergeFolds(Logged(db.log, s), me.done[s], o);
    OwnAfterWrite(db, me, Idle, s, Merge(me.own[s], o), Logged(me.done, s) + [o]);
    SessionStep(db, sid, Session(Idle, me.own[s := Merge(me.own[s], o)], Note(me, s, o)));
  }

  lemma FirstInsertInv(db: Database, sid: nat)
    requires Inv(db) && Enabled(db, Insert(sid))
    requires Target(SessionOf(db, sid).phase).value !in db.rows
    ensures Inv(Take(db, Insert(sid)))
  {
    var me := SessionOf(db, sid);
    assert SessionFits(db, me);
    var o, s := me.phase.o, Target(me.phase).value;
    assert Logged(me.done, s) + [o] == [o] && Logged(db.log, s) + [o] == [o];
    OwnAfterWrite(db, me, Idle, s, Build(o), [o]);
    SessionStep(db, sid, Session(Idle, me.own[s := Build(o)], Note(me, s, o)));
  }

  /** Whether the versions are folds does not depend on where the session is. */
  lemma SameVersions(db: Database, me: Session, me': Session)
    requires OwnIsFold(db, me) && me'.own == me.own && me'.done == me.done
    ensures OwnIsFold(db, me')
  {
  }

  /** The insert failed on the unique index: the savepoint is gone and the loop goes round. */
  lemma RetryInv(db: Database, sid: nat)
    requires Inv(db) && Enabled(db, Insert(sid))
    requires Target(SessionOf(db, sid).phase).value in db.rows
    ensures Inv(Take(db, Insert(sid)))
  {
    var me := SessionOf(db, sid);
    assert SessionFits(db, me);
    var retrying := Session(Selecting(me.phase.o, 1), me.own, me.done);
    SameVersions(db, me, retrying);
    SessionStep(db, sid, retrying);
    RetryTakesARound(db, sid);
  }

  lemma RetryTakesARound(db: Database, sid: nat)
    requires Enabled(db, Insert(sid)) && LoopIsShort(db, SessionOf(db, sid))
    requires Target(SessionOf(db, sid).phase).value in db.rows
    ensures
      var me := SessionOf(db, sid);
      Take(db, Insert(sid)) == With(db, sid, Session(Selecting(me.phase.o, 1), me.own, me.done))
  {
  }

  lemma InsertInv(db: Database, sid: nat)
    requires Inv(db) && Enabled(db, Insert(sid))
    ensures Inv(Take(db, Insert(sid)))
  {
    if Target(SessionOf(db, sid).phase).value in db.rows {
      RetryInv(db, sid);
    } else {
      FirstInsertInv(db, sid);
    }
  }

  lemma StatementInv(db: Database, step: Step)
    requires Inv(db) && Enabled(db, step) && !step.Commit?
    ensures Inv(Take(db, step))
  {
    var me := SessionOf(db, step.sid);
    assert SessionFits(db, me);
    match step
    case Begin(sid, o) => SessionStep(db, sid, me.(phase := Selecting(o, 0)));
    case Select(sid) => SelectInv(db, sid);
    case MergeRow(sid) => MergeInv(db, sid);
    case Insert(sid) => InsertInv(db, sid);
    case Abort(sid) => SessionStep(db, sid, FRESH);
  }

  /** What a commit leaves behind for one signature. */
  lemma CommittedRow(db: Database, sid: nat, s: string)
    requires Inv(db) && Enabled(db, Commit(sid))
    ensures var db', me := Take(db, Commit(sid)), SessionOf(db, sid);
            if s in me.own
            then s in db'.rows && db'.rows[s] == me.own[s]
                 && s in db'.log && db'.log[s] == Logged(db.log, s) + me.done[s]
            else (s in db'.rows <==> s in db.rows) && Logged(db'.log, s) == Logged(db.log, s)
                 && (s in db'.log <==> s in db.log) && (s in db.rows ==> db'.rows[s] == db.rows[s])
  {
    assert OwnIsFold(db, SessionOf(db, sid));
  }

  lemma CommitRows(db: Database, sid: nat)
    requires Inv(db) && Enabled(db, Commit(sid))
    ensures RowsAreFolds(Take(db, Commit(sid)))
  {
    var db' := Take(db, Commit(sid));
    forall s
      ensures s in db'.rows <==> s in db'.log
      ensures s in db'.rows ==> db'.log[s] != [] && db'.rows[s] == Fold(db'.log[s])
    {
      CommittedRowIsFold(db, sid, s);
    }
  }

  lemma CommittedRowIsFold(db: Database, sid: nat, s: string)
    requires Inv(db) && Enabled(db, Commit(sid))
    ensures var db' := Take(db, Commit(sid));
            (s in db'.rows <==> s in db'.log)
            && (s in db'.rows ==> db'.log[s] != [] && db'.rows[s] == Fold(db'.log[s]))
  {
    CommittedRow(db, sid, s);
    assert RowsAreFolds(db) && OwnIsFold(db, SessionOf(db, sid));
  }

  lemma CommitLeavesOthers(db: Database, sid: nat, other: nat)
    requires Inv(db) && Enabled(db, Commit(sid)) && other in db.sessions && other != sid
    ensures SessionFits(Take(db, Commit(sid)), db.sessions[other])
  {
    var me, db', theirs := SessionOf(db, sid), Take(db, Commit(sid)), db.sessions[other];
    assert SessionFits(db, theirs);
    forall s
      ensures s in theirs.own ==> Logged(db'.log, s) == Logged(db.log, s)
      ensures s in db.rows ==> s in db'.rows
    {
      CommittedRow(db, sid, s);
      assert s in me.own ==> sid in db.sessions;
    }
  }

  lemma CommitInv(db: Database, sid: nat)
    requires Inv(db) && Enabled(db, Commit(sid))
    ensures Inv(Take(db, Commit(sid)))
  {
    CommitRows(db, sid);
    CommitExcludes(db, sid);
    var db' := Take(db, Commit(sid));
    forall other | other in db'.sessions
      ensures SessionFits(db', db'.sessions[other])
    {
      if other != sid {
        CommitLeavesOthers(db, sid, other);
      }
    }
  }

  lemma CommitExcludes(db: Database, sid: nat)
    requires Exclusive(db) && Enabled(db, Commit(sid))
    ensures Exclusive(Take(db, Commit(sid)))
  {
  }

  lemma {:induction false} ScheduleInv(steps: seq<Step>)
    ensures Inv(After(steps))
  {
    if steps != [] {
      ScheduleInv(steps[..|steps| - 1]);
      var db, step := After(steps[..|steps| - 1]), steps[|steps| - 1];
      if Enabled(db, step) {
        if step.Commit? {
          CommitInv(db, step.sid);
        } else {
          StatementInv(db, step);
        }
      }
    }
  }

  // ---- What every schedule guarantees ----

  /** Whatever the interleaving, a signature's committed row is the sequential merge of its committed
      observations in commit order; in particular no upsert is lost or counted twice. */
  lemma InterleavingsAreSerial(steps: seq<Step>, s: string)
    ensures
      var db := After(steps);
      && (s in db.rows <==> s in db.log)
      && (s in db.rows ==> db.log[s] != [] && db.rows[s] == Fold(db.log[s]) && db.rows[s].count == |db.log[s]|)
  {
    ScheduleInv(steps);
    var db := After(steps);
    if s in db.rows {
      FoldCounts(db.log[s]);
    }
  }

  /** The RuntimeError after five attempts is unreachable: no session ever gives up, none starts a third
      round, and one that starts a second round finds the row. */
  lemma RetryAlwaysSucceeds(steps: seq<Step>, sid: nat)
    ensures
      var db := After(steps);
      var p := SessionOf(db, sid).phase;
      && !p.GaveUp?
      && (p.Selecting? ==> p.attempt <= 1)
      && (p.Selecting? && p.attempt == 1 && Enabled(db, Select(sid)) ==>
            SessionOf(Take(db, Select(sid)), sid).phase.Merging?)
  {
    ScheduleInv(steps);
    var db := After(steps);
    assert SessionFits(db, SessionOf(db, sid));
  }

  /** Committed rows stay, and their observation counts never fall. */
  lemma CommittedRowsStay(steps: seq<Step>, step: Step, s: string)
    requires s in After(steps).rows
    ensures s in After(steps + [step]).rows
    ensures After(steps + [step]).rows[s].count >= After(steps).rows[s].count
  {
    InterleavingsAreSerial(steps, s);
    InterleavingsAreSerial(steps + [step], s);
    AfterOneMore(steps, step);
    LogGrows(After(steps), step, s);
  }

  lemma AfterOneMore(steps: seq<Step>, step: Step)
    ensures After(steps + [step]) == Try(After(steps), step)
  {
    var all := steps + [step];
    assert all[..|all| - 1] == steps && all[|all| - 1] == step;
  }

  lemma LogGrows(db: Database, step: Step, s: string)
    requires s in db.rows && s in db.log
    ensures s in Try(db, step).rows && s in Try(db, step).log && |Try(db, step).log[s]| >= |db.log[s]|
  {
  }
}
