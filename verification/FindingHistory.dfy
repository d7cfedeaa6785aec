/** Tables of findings over any mix of observations and status requests. */
module FindingHistory {
  import opened Options
  import opened Lifecycle
  import opened Findings

  datatype Happening = Observed(o: Observation) | StatusRequested(row: nat, to: Status)

  function Next(rows: seq<Finding>, h: Happening): seq<Finding> {
    match h
    case Observed(o) => Upserted(rows, o)
    case StatusRequested(i, to) => StatusChanged(rows, i, to)
  }

  function TableAfter(happenings: seq<Happening>): seq<Finding> {
    if happenings == [] then []
    else Next(TableAfter(happenings[..|happenings| - 1]), happenings[|happenings| - 1])
  }

  lemma {:induction false} TableStaysUnique(happenings: seq<Happening>)
    ensures Unique(TableAfter(happenings))
  {
    if happenings != [] {
      var n := |happenings| - 1;
      TableStaysUnique(happenings[..n]);
      match happenings[n]
      case Observed(o) => UpsertKeepsUnique(TableAfter(happenings[..n]), o);
      case StatusRequested(i, to) =>
    }
  }

  /** A re-observation of a row, in any table that observations and status requests have built: a REMEDIATED or
      FALSE_POSITIVE row becomes REOPENED with exactly one automatic entry appended, any other keeps its status
      and its history; no other row changes. */
  lemma ReobservationReopens(happenings: seq<Happening>, o: Observation, i: nat)
    requires
      var rows := TableAfter(happenings);
      i < |rows| && SignatureOf(o).Some? && rows[i].signature == SignatureOf(o)
    ensures
      var rows, rows' := TableAfter(happenings), TableAfter(happenings + [Observed(o)]);
      && |rows'| == |rows|
      && (rows[i].record.status == Remediated || rows[i].record.status == FalsePositive ==>
            && rows'[i].record.status == Reopened
            && rows'[i].record.history
               == rows[i].record.history + [Entry(rows[i].record.status, Reopened, Automatic)])
      && (rows[i].record.status != Remediated && rows[i].record.status != FalsePositive ==>
            rows'[i].record == rows[i].record)
      && rows'[i].count == rows[i].count + 1
      && (forall j | 0 <= j < |rows| && j != i :: rows'[j] == rows[j])
  {
    var rows := TableAfter(happenings);
    OneMore(happenings, Observed(o));
    TableStaysUnique(happenings);
    IndexOfUnique(rows, SignatureOf(o).value, i);
    ReopeningTable(rows[i].record);
  }

  lemma OneMore(happenings: seq<Happening>, h: Happening)
    ensures TableAfter(happenings + [h]) == Next(TableAfter(happenings), h)
  {
    var all := happenings + [h];
    assert all[..|all| - 1] == happenings && all[|all| - 1] == h;
  }

  /** A first observation adds one row, NEW and without history, and changes no other; one without an asset
      always does. */
  lemma FirstObservationIsNew(happenings: seq<Happening>, o: Observation)
    requires forall f | f in TableAfter(happenings) :: SignatureOf(o).None? || f.signature != SignatureOf(o)
    ensures
      var rows, rows' := TableAfter(happenings), TableAfter(happenings + [Observed(o)]);
      && |rows'| == |rows| + 1 && rows'[..|rows|] == rows
      && rows'[|rows|].record == Record(New, []) && rows'[|rows|].count == 1
      && rows'[|rows|].signature == SignatureOf(o)
    ensures SignatureOf(o).None? <==> o.asset.None?
  {
    OneMore(happenings, Observed(o));
    var rows := TableAfter(happenings);
    if SignatureOf(o).Some? {
      NoRowNoIndex(rows, SignatureOf(o).value);
    }
  }

  lemma NoRowNoIndex(rows: seq<Finding>, signature: string)
    requires forall f | f in rows :: f.signature != Some(signature)
    ensures IndexOf(rows, signature) == |rows|
  {
    assert forall k | 0 <= k < |rows| :: rows[k] in rows;
  }

  /** A status request changes one row's status and history if the transition is valid, and nothing else. */
  lemma RequestChangesOneRow(happenings: seq<Happening>, i: nat, to: Status)
    ensures
      var rows, rows' := TableAfter(happenings), TableAfter(happenings + [StatusRequested(i, to)]);
      && |rows'| == |rows|
      && (forall j | 0 <= j < |rows| && j != i :: rows'[j] == rows[j])
      && (i < |rows| ==>
            && rows'[i] == rows[i].(record := rows'[i].record)
            && if Transition(rows[i].record, to, Manual).Some?
               then rows'[i].record == Record(to, rows[i].record.history + [Entry(rows[i].record.status, to, Manual)])
               else rows'[i].record == rows[i].record)
  {
    OneMore(happenings, StatusRequested(i, to));
  }

  // ---- The replay law for rows ----

  /** What a row's history says: a walk of valid transitions from NEW to its status, automatic entries only
      reopening what was closed, and a human decision to accept a risk only undone by a human. */
  ghost predicate Explains(r: Record) {
    && WalkFrom(New, r.history) && Replay(New, r.history) == r.status
    && (forall e | e in r.history && e.trigger == Automatic ::
          e.from in {Remediated, FalsePositive} && e.to == Reopened)
    && (forall e | e in r.history && e.from == AcceptedRisk :: e.trigger == Manual)
  }

  lemma ExplainsOneMore(r: Record, e: Entry)
    requires Explains(r) && e.from == r.status && e.to in NextStatuses(r.status)
    requires e.trigger == Automatic ==> e.from in {Remediated, FalsePositive} && e.to == Reopened
    ensures Explains(Record(e.to, r.history + [e]))
  {
    WalkExtends(New, r.history, e);
  }

  lemma RecordExplained(r: Record, to: Status)
    requires Explains(r)
    ensures Explains(AutoReopen(r))
    ensures Transition(r, to, Manual).Some? ==> Explains(Transition(r, to, Manual).value)
  {
    ReopeningTable(r);
    if r.status in {Remediated, FalsePositive} {
      ExplainsOneMore(r, Entry(r.status, Reopened, Automatic));
    }
    if to in NextStatuses(r.status) {
      ExplainsOneMore(r, Entry(r.status, to, Manual));
    }
  }

  /** Every row of every table that observations and status requests can build is explained by its history. */
  lemma {:induction false} EveryRowIsExplained(happenings: seq<Happening>)
    ensures forall f | f in TableAfter(happenings) :: Explains(f.record)
  {
    if happenings != [] {
      var n := |happenings| - 1;
      EveryRowIsExplained(happenings[..n]);
      NextIsExplained(TableAfter(happenings[..n]), happenings[n]);
    }
  }

  lemma NextIsExplained(rows: seq<Finding>, h: Happening)
    requires forall f | f in rows :: Explains(f.record)
    ensures forall f | f in Next(rows, h) :: Explains(f.record)
  {
    forall j | 0 <= j < |Next(rows, h)|
      ensures Explains(Next(rows, h)[j].record)
    {
      if j < |rows| {
        assert rows[j] in rows;
        RecordExplained(rows[j].record, if h.StatusRequested? then h.to else New);
      }
    }
  }
}
