/** Which findings' stored columns may be out of date, over any run of synchronisations, criticality
    changes, tool reports and interruptions. */
module Staleness {
  import opened Options
  import opened Text
  import opened Risk
  import opened RiskInputs
  import opened RiskCache

  datatype Event =
    | EpssSync(scores: Option<map<string, real>>, now: int, commits: nat)
    | KevSync(entries: Option<seq<string>>, now: int, commits: nat)
    | NvdSync(answers: map<string, Answer>, limit: nat, now: int, commits: nat)
    | CriticalityChange(asset: string, level: Criticality, commits: nat)
    | ToolReport(hints: seq<Hint>)
    | NewFinding(finding: ScoredFinding)
    | NewJob(job: string, target: Option<string>)
    | NewAsset(asset: string, level: Criticality)

  function After(s: Store, e: Event): Store {
    match e
    case EpssSync(scores, now, commits) => AfterEpss(s, scores, now, commits)
    case KevSync(entries, now, commits) => AfterKev(s, entries, now, commits)
    case NvdSync(answers, limit, now, commits) => AfterNvd(s, answers, limit, now, commits)
    case CriticalityChange(asset, level, commits) => AfterCriticality(s, asset, level, commits)
    case ToolReport(hints) => s.(tables := Seeded(s.tables, hints))
    case NewFinding(f) =>
      if f.job in s.tables.jobs then s.(findings := s.findings + [Refreshed(s.tables, f)]) else s
    case NewJob(job, target) =>
      if job in s.tables.jobs || (target.Some? && target.value !in s.tables.criticality) then s
      else s.(tables := s.tables.(jobs := s.tables.jobs[job := target]))
    case NewAsset(asset, level) =>
      if asset in s.tables.criticality then s
      else s.(tables := s.tables.(criticality := s.tables.criticality[asset := level]))
  }

  function Run(s: Store, es: seq<Event>): Store
    decreases |es|
  {
    if es == [] then s else Run(After(s, es[0]), es[1..])
  }

  /** The foreign keys: a finding's job exists, and so does a job's target asset. */
  ghost predicate References(s: Store) {
    (forall f | f in s.findings :: f.job in s.tables.jobs)
    && (forall j | j in s.tables.jobs ::
          s.tables.jobs[j].Some? ==> s.tables.jobs[j].value in s.tables.criticality)
  }

  /** CVEs and assets whose data changed since the findings that depend on them were last recomputed. */
  datatype Debt = Debt(cves: set<string>, assets: set<string>)

  function Add(d: Debt, cves: seq<string>): Debt {
    d.(cves := d.cves + (set c | c in cves))
  }

  function DebtAfter(s: Store, d: Debt, e: Event): Debt {
    match e
    case EpssSync(scores, now, commits) =>
      if commits == 0 || scores.None? then d
      else if commits == 1 then Add(d, KnownCves(s.findings))
      else d.(cves := {})
    case KevSync(entries, now, commits) =>
      if commits == 0 || entries.None? || !Insertable(s.tables.catalogue, entries.value) then d
      else if commits <= 2 then Add(d, KnownCves(s.findings))
      else d.(cves := {})
    case NvdSync(answers, limit, now, commits) =>
      var updated := Answered(Missing(s, limit), answers);
      if commits == 0 then d
      else if commits == 1 then Add(d, updated)
      else d.(cves := d.cves - (set c | c in updated))
    case CriticalityChange(asset, level, commits) =>
      if commits == 0 || asset !in s.tables.criticality || s.tables.criticality[asset] == level then d
      else if commits == 1 then d.(assets := d.assets + {asset})
      else d.(assets := d.assets - {asset})
    case ToolReport(hints) =>
      d.(cves := d.cves + (set h | h in hints && RowOf(s.tables, h.cve).cvss.None? :: h.cve))
    case NewFinding(_) => d
    case NewJob(_, _) => d
    case NewAsset(_, _) => d
  }

  function DebtOfRun(s: Store, d: Debt, es: seq<Event>): Debt
    decreases |es|
  {
    if es == [] then d else DebtOfRun(After(s, es[0]), DebtAfter(s, d, es[0]), es[1..])
  }

  predicate Owed(t: Tables, f: ScoredFinding, d: Debt) {
    (exists c | c in f.cves :: c in d.cves)
    || (AssetOf(t, f.job).Some? && AssetOf(t, f.job).value in d.assets)
  }

  /** Every finding outside the debt agrees with the tables. */
  ghost predicate Accounted(s: Store, d: Debt) {
    forall f | f in s.findings :: Agrees(s.tables, f) || Owed(s.tables, f, d)
  }

  // ---- What a finding's columns depend on ----

  lemma {:induction false} SameRowsSameHighest(t: Tables, u: Tables, cves: seq<string>)
    requires forall c | c in cves :: RowOf(t, c) == RowOf(u, c)
    ensures HighestCvss(t, cves) == HighestCvss(u, cves) && HighestEpss(t, cves) == HighestEpss(u, cves)
  {
    if cves != [] {
      SameRowsSameHighest(t, u, cves[1..]);
    }
  }

  ghost predicate Indistinguishable(t: Tables, u: Tables, f: ScoredFinding) {
    (forall c | c in f.cves :: RowOf(t, c) == RowOf(u, c))
    && (f.cves == [] || (t.catalogue == u.catalogue && (Kev in t.lastSuccess <==> Kev in u.lastSuccess)))
    && CriticalityOf(t, f.job) == CriticalityOf(u, f.job)
  }

  lemma ColumnsDependOn(t: Tables, u: Tables, f: ScoredFinding)
    requires Indistinguishable(t, u, f)
    ensures Refreshed(t, f) == Refreshed(u, f)
  {
    SameRowsSameHighest(t, u, f.cves);
    assert InputsFor(t, f) == InputsFor(u, f);
  }

  lemma RefreshedAgrees(t: Tables, f: ScoredFinding)
    ensures Agrees(t, Refreshed(t, f))
  {
  }

  // ---- Rows ----

  lemma EpssRows(t: Tables, cves: seq<string>, scores: map<string, real>, c: string)
    ensures RowOf(EpssTables(t, cves, scores), c) ==
      if c in cves then WithEpss(RowOf(t, c), c, scores) else RowOf(t, c)
  {
  }

  lemma NvdRows(t: Tables, cves: seq<string>, answers: map<string, Answer>, c: string)
    ensures RowOf(NvdTables(t, cves, answers), c) ==
      if c in cves && c in answers then WithAnswer(RowOf(t, c), answers[c]) else RowOf(t, c)
  {
  }

  lemma {:induction false} SeededRows(t: Tables, hints: seq<Hint>, c: string)
    ensures Seeded(t, hints) == t.(intel := Seeded(t, hints).intel)
    ensures RowOf(Seeded(t, hints), c).epss == RowOf(t, c).epss
    ensures RowOf(t, c).cvss.Some? ==> RowOf(Seeded(t, hints), c) == RowOf(t, c)
    ensures RowOf(t, c).cvss.None? && (exists h | h in hints :: h.cve == c) <==>
            RowOf(Seeded(t, hints), c) != RowOf(t, c)
    decreases |hints|
  {
    if hints != [] {
      var row := RowOf(t, hints[0].cve);
      var row' := if row.cvss.None? then row.(cvss := Some(hints[0].score)) else row;
      var next := t.(intel := t.intel[hints[0].cve := row']);
      SeededRows(next, hints[1..], c);
      assert hints == [hints[0]] + hints[1..];
    }
  }

  // ---- One event ----

  /** Why finding `f`, now `g`, is accounted for: recomputed, untouched by the change, or owed. */
  ghost predicate Explained(t: Tables, u: Tables, f: ScoredFinding, g: ScoredFinding, d: Debt, d': Debt) {
    g == Refreshed(u, f)
    || (g == f && Indistinguishable(t, u, f) && (Owed(t, f, d) ==> Owed(u, f, d')))
    || Owed(u, g, d')
  }

  lemma ExplainedIsAccounted(t: Tables, u: Tables, f: ScoredFinding, g: ScoredFinding, d: Debt, d': Debt)
    requires Explained(t, u, f, g, d, d') && (Agrees(t, f) || Owed(t, f, d))
    ensures Agrees(u, g) || Owed(u, g, d')
  {
    RefreshedAgrees(u, f);
    if Indistinguishable(t, u, f) {
      ColumnsDependOn(t, u, f);
    }
  }

  lemma AllExplained(s: Store, s': Store, d: Debt, d': Debt)
    requires Accounted(s, d) && |s'.findings| == |s.findings|
    requires forall i | 0 <= i < |s.findings| ::
      Explained(s.tables, s'.tables, s.findings[i], s'.findings[i], d, d')
    ensures Accounted(s', d')
  {
    forall i | 0 <= i < |s'.findings|
      ensures Agrees(s'.tables, s'.findings[i]) || Owed(s'.tables, s'.findings[i], d')
    {
      assert s.findings[i] in s.findings;
      ExplainedIsAccounted(s.tables, s'.tables, s.findings[i], s'.findings[i], d, d');
    }
  }

  lemma MentionedIsOwed(t: Tables, f: ScoredFinding, d: Debt, cves: seq<string>)
    requires Mentions(f, cves)
    ensures Owed(t, f, Add(d, cves))
  {
    var c :| c in f.cves && c in cves;
    assert c in Add(d, cves).cves;
  }

  lemma EpssExplains(s: Store, d: Debt, scores: map<string, real>, now: int, commits: nat, i: nat)
    requires i < |s.findings| && commits > 0
    ensures var s' := AfterEpss(s, Some(scores), now, commits);
            |s'.findings| == |s.findings|
            && Explained(s.tables, s'.tables, s.findings[i], s'.findings[i], d,
                         DebtAfter(s, d, EpssSync(Some(scores), now, commits)))
  {
    var f, cves := s.findings[i], KnownCves(s.findings);
    assert f in s.findings;
    FindingsWithCvesMentionKnown(s.findings, f);
    var s' := AfterEpss(s, Some(scores), now, commits);
    var d' := DebtAfter(s, d, EpssSync(Some(scores), now, commits));
    assert s'.tables.jobs == s.tables.jobs && s'.tables.criticality == s.tables.criticality;
    if f.cves == [] {
      assert s'.findings[i] == f;
      assert Owed(s.tables, f, d) ==> Owed(s'.tables, f, d');
    } else {
      assert Mentions(f, cves) && cves != [];
      MentionedIsOwed(s'.tables, f, d, cves);
      if commits > 1 {
        MarkIsIrrelevant(EpssTables(s.tables, cves, scores), Epss, now, f);
      }
    }
  }

  /** Only the catalogue's first success matters to a finding. */
  lemma MarkIsIrrelevant(t: Tables, source: Source, now: int, f: ScoredFinding)
    requires source != Kev
    ensures Refreshed(t, f) == Refreshed(t.(lastSuccess := t.lastSuccess[source := now]), f)
  {
    ColumnsDependOn(t, t.(lastSuccess := t.lastSuccess[source := now]), f);
  }

  lemma KevExplains(s: Store, d: Debt, entries: seq<string>, now: int, commits: nat, i: nat)
    requires i < |s.findings| && commits > 0 && Insertable(s.tables.catalogue, entries)
    ensures var s' := AfterKev(s, Some(entries), now, commits);
            |s'.findings| == |s.findings|
            && Explained(s.tables, s'.tables, s.findings[i], s'.findings[i], d,
                         DebtAfter(s, d, KevSync(Some(entries), now, commits)))
  {
    var f, cves := s.findings[i], KnownCves(s.findings);
    assert f in s.findings;
    FindingsWithCvesMentionKnown(s.findings, f);
    if f.cves != [] {
      MentionedIsOwed(s.tables, f, d, cves);
    }
  }

  lemma NvdExplains(s: Store, d: Debt, answers: map<string, Answer>, limit: nat, now: int, commits: nat, i: nat)
    requires i < |s.findings| && commits > 0
    ensures var s' := AfterNvd(s, answers, limit, now, commits);
            |s'.findings| == |s.findings|
            && Explained(s.tables, s'.tables, s.findings[i], s'.findings[i], d,
                         DebtAfter(s, d, NvdSync(answers, limit, now, commits)))
  {
    var f, updated := s.findings[i], Answered(Missing(s, limit), answers);
    var s' := AfterNvd(s, answers, limit, now, commits);
    NvdEffect(s, answers, limit, now, commits, i);
    if Mentions(f, updated) {
      MentionedIsOwed(s'.tables, f, d, updated);
    } else if Owed(s.tables, f, d) {
      UnmentionedStaysOwed(s.tables, f, d, updated);
    }
  }

  /** What the CVSS synchronisation does to one finding. */
  lemma NvdEffect(s: Store, answers: map<string, Answer>, limit: nat, now: int, commits: nat, i: nat)
    requires i < |s.findings| && commits > 0
    ensures var s', f := AfterNvd(s, answers, limit, now, commits), s.findings[i];
            |s'.findings| == |s.findings| && s'.tables.jobs == s.tables.jobs
            && if Mentions(f, Answered(Missing(s, limit), answers))
               then s'.findings[i] == if commits == 1 then f else Refreshed(s'.tables, f)
               else s'.findings[i] == f && Indistinguishable(s.tables, s'.tables, f)
  {
    var updated := Answered(Missing(s, limit), answers);
    assert Missing(s, limit) == [] ==> updated == [];
    NvdStoredEffect(s, updated, answers, now, commits, i);
  }

  lemma NvdStoredEffect(
    s: Store, updated: seq<string>, answers: map<string, Answer>, now: int, commits: nat, i: nat)
    requires i < |s.findings| && commits > 0
    ensures var s', f := NvdStored(s, updated, answers, now, commits), s.findings[i];
            |s'.findings| == |s.findings| && s'.tables.jobs == s.tables.jobs
            && if Mentions(f, updated)
               then s'.findings[i] == if commits == 1 then f else Refreshed(s'.tables, f)
               else s'.findings[i] == f && Indistinguishable(s.tables, s'.tables, f)
  {
    var f := s.findings[i];
    if Mentions(f, updated) {
      MarkIsIrrelevant(NvdTables(s.tables, updated, answers), Nvd, now, f);
    } else {
      UnmentionedSeesNoAnswer(s.tables, updated, answers, f);
    }
  }

  lemma UnmentionedSeesNoAnswer(t: Tables, cves: seq<string>, answers: map<string, Answer>, f: ScoredFinding)
    requires !Mentions(f, cves)
    ensures Indistinguishable(t, NvdTables(t, cves, answers), f)
  {
  }

  lemma UnmentionedStaysOwed(t: Tables, f: ScoredFinding, d: Debt, cves: seq<string>)
    requires !Mentions(f, cves) && Owed(t, f, d)
    ensures Owed(t, f, Add(d, cves)) && Owed(t, f, d.(cves := d.cves - (set c | c in cves)))
  {
    if c :| c in f.cves && c in d.cves {
      assert c in (d.cves - (set c | c in cves)) && c in Add(d, cves).cves;
    }
  }

  lemma CriticalityExplains(s: Store, d: Debt, asset: string, level: Criticality, commits: nat, i: nat)
    requires i < |s.findings|
    ensures var s' := AfterCriticality(s, asset, level, commits);
            |s'.findings| == |s.findings|
            && Explained(s.tables, s'.tables, s.findings[i], s'.findings[i], d,
                         DebtAfter(s, d, CriticalityChange(asset, level, commits)))
  {
    var f := s.findings[i];
    var s' := AfterCriticality(s, asset, level, commits);
    if AssetOf(s.tables, f.job) != Some(asset) {
      assert CriticalityOf(s.tables, f.job) == CriticalityOf(s'.tables, f.job);
    }
  }

  lemma ToolReportExplains(s: Store, d: Debt, hints: seq<Hint>, f: ScoredFinding)
    ensures Explained(s.tables, Seeded(s.tables, hints), f, f, d, DebtAfter(s, d, ToolReport(hints)))
  {
    var u, d' := Seeded(s.tables, hints), DebtAfter(s, d, ToolReport(hints));
    SeededRows(s.tables, hints, "");
    if Owed(s.tables, f, d) {
      if c :| c in f.cves && c in d.cves {
        assert c in d'.cves;
      }
    } else if !Owed(u, f, d') {
      forall c | c in f.cves
        ensures RowOf(s.tables, c) == RowOf(u, c)
      {
        SeededRows(s.tables, hints, c);
        assert c !in d'.cves;
      }
    }
  }

  lemma NewRowExplains(s: Store, d: Debt, e: Event, f: ScoredFinding)
    requires References(s) && f in s.findings && (e.NewJob? || e.NewAsset?)
    ensures Explained(s.tables, After(s, e).tables, f, f, d, d)
  {
  }

  lemma EventKeepsReferences(s: Store, e: Event)
    requires References(s)
    ensures References(After(s, e))
  {
    var s' := After(s, e);
    EventKeepsJobs(s, e);
    forall f | f in s'.findings
      ensures f.job in s'.tables.jobs
    {
      var i :| 0 <= i < |s'.findings| && s'.findings[i] == f;
      FindingKeepsJob(s, e, i);
      assert i < |s.findings| ==> s.findings[i] in s.findings;
    }
  }

  lemma EventKeepsJobs(s: Store, e: Event)
    requires References(s)
    ensures var t := After(s, e).tables;
            s.tables.jobs.Keys <= t.jobs.Keys
            && forall j | j in t.jobs :: t.jobs[j].Some? ==> t.jobs[j].value in t.criticality
  {
    if e.ToolReport? {
      SeededRows(s.tables, e.hints, "");
    }
  }

  lemma FindingKeepsJob(s: Store, e: Event, i: nat)
    requires i < |After(s, e).findings|
    ensures if i < |s.findings| then After(s, e).findings[i].job == s.findings[i].job
            else After(s, e).findings[i].job in s.tables.jobs
    ensures |After(s, e).findings| >= |s.findings|
  {
  }

  /** The debt ledger is right after every event, whatever the event and wherever it was interrupted. */
  lemma EventKeepsAccounts(s: Store, d: Debt, e: Event)
    requires References(s) && Accounted(s, d)
    ensures Accounted(After(s, e), DebtAfter(s, d, e))
  {
    match e
    case EpssSync(scores, now, commits) =>
      if commits > 0 && scores.Some? {
        forall i | 0 <= i < |s.findings| {
          EpssExplains(s, d, scores.value, now, commits, i);
        }
        AllExplained(s, After(s, e), d, DebtAfter(s, d, e));
      } else {
        EpssWithoutScores(s, d, e);
      }
    case KevSync(entries, now, commits) =>
      if commits > 0 && entries.Some? && Insertable(s.tables.catalogue, entries.value) {
        forall i | 0 <= i < |s.findings| {
          KevExplains(s, d, entries.value, now, commits, i);
        }
        AllExplained(s, After(s, e), d, DebtAfter(s, d, e));
      }
    case NvdSync(answers, limit, now, commits) =>
      if commits > 0 {
        forall i | 0 <= i < |s.findings| {
          NvdExplains(s, d, answers, limit, now, commits, i);
        }
        AllExplained(s, After(s, e), d, DebtAfter(s, d, e));
      }
    case CriticalityChange(asset, level, commits) =>
      forall i | 0 <= i < |s.findings| {
        CriticalityExplains(s, d, asset, level, commits, i);
      }
      AllExplained(s, After(s, e), d, DebtAfter(s, d, e));
    case ToolReport(hints) =>
      forall i | 0 <= i < |s.findings| {
        ToolReportExplains(s, d, hints, s.findings[i]);
      }
      AllExplained(s, After(s, e), d, DebtAfter(s, d, e));
    case NewFinding(f) =>
      RefreshedAgrees(s.tables, f);
    case NewJob(_, _) => NewRowsKeepAccounts(s, d, e);
    case NewAsset(_, _) => NewRowsKeepAccounts(s, d, e);
  }

  lemma EpssWithoutScores(s: Store, d: Debt, e: Event)
    requires Accounted(s, d) && e.EpssSync? && (e.commits == 0 || e.scores.None?)
    ensures Accounted(After(s, e), DebtAfter(s, d, e))
  {
    forall f | f in s.findings
      ensures Agrees(After(s, e).tables, f) || Owed(After(s, e).tables, f, d)
    {
      MarkKeepsAccount(s.tables, Epss, e.now, f, d);
    }
  }

  lemma MarkKeepsAccount(t: Tables, source: Source, now: int, f: ScoredFinding, d: Debt)
    requires source != Kev && (Agrees(t, f) || Owed(t, f, d))
    ensures var u := t.(lastSuccess := t.lastSuccess[source := now]);
            Agrees(u, f) || Owed(u, f, d)
  {
    MarkIsIrrelevant(t, source, now, f);
  }

  lemma NewRowsKeepAccounts(s: Store, d: Debt, e: Event)
    requires References(s) && Accounted(s, d) && (e.NewJob? || e.NewAsset?)
    ensures Accounted(After(s, e), d)
  {
    forall i | 0 <= i < |s.findings| {
      NewRowExplains(s, d, e, s.findings[i]);
    }
    AllExplained(s, After(s, e), d, d);
  }

  // ---- Whole runs ----

  /** Over every run, each finding outside the debt has the columns a fresh computation would give. */
  lemma {:induction false} RunKeepsAccounts(s: Store, d: Debt, es: seq<Event>)
    requires References(s) && Accounted(s, d)
    ensures References(Run(s, es)) && Accounted(Run(s, es), DebtOfRun(s, d, es))
    decreases |es|
  {
    if es != [] {
      EventKeepsReferences(s, es[0]);
      EventKeepsAccounts(s, d, es[0]);
      RunKeepsAccounts(After(s, es[0]), DebtAfter(s, d, es[0]), es[1..]);
    }
  }

  /** Every commit of the call was reached, and it is not a tool report. */
  predicate Uninterrupted(e: Event) {
    match e
    case EpssSync(_, _, commits) => commits >= 3
    case KevSync(_, _, commits) => commits >= 3
    case NvdSync(_, _, _, commits) => commits >= 3
    case CriticalityChange(_, _, commits) => commits >= 2
    case ToolReport(_) => false
    case NewFinding(_) => true
    case NewJob(_, _) => true
    case NewAsset(_, _) => true
  }

  ghost predicate AllAgree(s: Store) {
    forall f | f in s.findings :: Agrees(s.tables, f)
  }

  ghost predicate AllWithCvesAgree(s: Store) {
    forall f | f in s.findings && f.cves != [] :: Agrees(s.tables, f)
  }

  lemma {:induction false} NoDebtIsRunUp(s: Store, es: seq<Event>)
    requires forall e | e in es :: Uninterrupted(e)
    ensures DebtOfRun(s, Debt({}, {}), es) == Debt({}, {})
    decreases |es|
  {
    if es != [] {
      assert Uninterrupted(es[0]);
      assert DebtAfter(s, Debt({}, {}), es[0]) == Debt({}, {});
      NoDebtIsRunUp(After(s, es[0]), es[1..]);
    }
  }

  /** Synchronisations, failed or not, criticality changes and new rows never make a current cache stale. */
  lemma UninterruptedRunsStayCurrent(s: Store, es: seq<Event>)
    requires References(s) && AllAgree(s) && forall e | e in es :: Uninterrupted(e)
    ensures AllAgree(Run(s, es))
  {
    NoDebtIsRunUp(s, es);
    RunKeepsAccounts(s, Debt({}, {}), es);
    var end := Run(s, es);
    forall f | f in end.findings
      ensures Agrees(end.tables, f)
    {
      assert !Owed(end.tables, f, Debt({}, {}));
    }
  }

  // ---- Catching up from any state ----

  /** Whatever was stale before, an EPSS synchronisation that got past its recomputation leaves every
      finding with a CVE current; nothing is assumed about the state it starts from. */
  lemma EpssSyncCatchesUp(s: Store, scores: map<string, real>, now: int, commits: nat)
    requires commits >= 2
    ensures AllWithCvesAgree(AfterEpss(s, Some(scores), now, commits))
  {
    var s' := AfterEpss(s, Some(scores), now, commits);
    var cves := KnownCves(s.findings);
    forall i | 0 <= i < |s'.findings| && s'.findings[i].cves != []
      ensures Agrees(s'.tables, s'.findings[i])
    {
      var f := s.findings[i];
      assert f in s.findings;
      FindingsWithCvesMentionKnown(s.findings, f);
      assert cves != [];
      MarkIsIrrelevant(EpssTables(s.tables, cves, scores), Epss, now, f);
      RefreshedAgrees(s'.tables, f);
    }
  }

  /** A recorded EPSS success implies agreement, even if the call died on the way: the mark comes last. */
  lemma EpssMarkMeansCurrent(s: Store, scores: Option<map<string, real>>, now: int, commits: nat)
    requires AfterEpss(s, scores, now, commits).tables.lastSuccess != s.tables.lastSuccess
    ensures AllWithCvesAgree(AfterEpss(s, scores, now, commits))
  {
    if KnownCves(s.findings) == [] {
      forall f | f in s.findings && f.cves != []
        ensures false
      {
        FindingsWithCvesMentionKnown(s.findings, f);
      }
    } else if scores.Some? {
      EpssSyncCatchesUp(s, scores.value, now, commits);
    }
  }

  lemma KevSyncCatchesUp(s: Store, entries: seq<string>, now: int, commits: nat)
    requires commits >= 3 && Insertable(s.tables.catalogue, entries)
    ensures AllWithCvesAgree(AfterKev(s, Some(entries), now, commits))
  {
    var s' := AfterKev(s, Some(entries), now, commits);
    forall i | 0 <= i < |s'.findings| && s'.findings[i].cves != []
      ensures Agrees(s'.tables, s'.findings[i])
    {
      RefreshedAgrees(s'.tables, s.findings[i]);
    }
  }

  // ---- What was fetched is what findings show ----

  lemma HighestOnSame(
    cves: seq<string>, p: string -> Option<real>, q: string -> Option<real>, best: Option<real>)
    requires IsHighest(cves, p, best) && forall c | c in cves :: p(c) == q(c)
    ensures IsHighest(cves, q, best)
  {
    if best.Some? {
      var c :| c in cves && p(c) == best;
      assert q(c) == best;
    }
  }

  /** After an EPSS synchronisation a finding shows the largest value among its CVEs: the fetched one, or
      the stored one where nothing was fetched. */
  lemma EpssValuesReachFindings(s: Store, scores: map<string, real>, now: int, commits: nat, i: nat)
    requires commits >= 2 && i < |s.findings| && s.findings[i].cves != []
    ensures var s' := AfterEpss(s, Some(scores), now, commits);
            |s'.findings| == |s.findings|
            && IsHighest(s.findings[i].cves, c => if c in scores then Some(scores[c]) else RowOf(s.tables, c).epss,
                         s'.findings[i].cache.epss)
  {
    var f, cves := s.findings[i], KnownCves(s.findings);
    var u := EpssTables(s.tables, cves, scores);
    assert f in s.findings;
    FindingsWithCvesMentionKnown(s.findings, f);
    assert cves != [];
    EpssIsTheWorst(u, f.cves);
    forall c | c in f.cves
      ensures RowOf(u, c).epss == if c in scores then Some(scores[c]) else RowOf(s.tables, c).epss
    {
      KnownCvesAreTheFindings(s.findings, c);
      EpssRows(s.tables, cves, scores, c);
    }
    HighestOnSame(f.cves, c => RowOf(u, c).epss,
                  c => if c in scores then Some(scores[c]) else RowOf(s.tables, c).epss, HighestEpss(u, f.cves));
  }

  /** After a complete KEV synchronisation a finding shows whether one of its CVEs is in the catalogue. */
  lemma KevEntriesReachFindings(s: Store, entries: seq<string>, now: int, commits: nat, i: nat)
    requires commits >= 3 && Insertable(s.tables.catalogue, entries)
    requires i < |s.findings| && s.findings[i].cves != []
    ensures var s' := AfterKev(s, Some(entries), now, commits);
            |s'.findings| == |s.findings|
            && s'.findings[i].cache.kev == Some(exists c | c in s.findings[i].cves :: c in entries)
  {
    var f := s.findings[i];
    var catalogue := set c | c in entries;
    assert (exists c | c in f.cves :: c in catalogue) <==> (exists c | c in f.cves :: c in entries);
  }

  /** The CVEs some finding names that have no CVSS value. */
  ghost function Unscored(s: Store): set<string> {
    set f, c | f in s.findings && c in f.cves && (c in s.tables.intel ==> s.tables.intel[c].cvss == None) :: c
  }

  /** The CVE is among the first `limit` of them, in sorted order. */
  ghost predicate AskedFor(s: Store, limit: nat, c: string) {
    c in Unscored(s) && |Smaller(Unscored(s), c)| < limit
  }

  ghost function Smaller(cves: set<string>, c: string): set<string> {
    set x | x in cves && Less(x, c)
  }

  lemma UnscoredIs(s: Store, c: string)
    ensures c in Unscored(s) <==> c in Without(KnownCves(s.findings), s.tables)
  {
    WithoutMember(KnownCves(s.findings), s.tables, c);
    KnownCvesAreTheFindings(s.findings, c);
  }

  lemma {:induction false} WithoutAscends(cves: seq<string>, t: Tables)
    requires Ascending(cves)
    ensures Ascending(Without(cves, t))
  {
    if cves != [] {
      WithoutAscends(cves[1..], t);
      forall c | c in Without(cves[1..], t)
        ensures Less(cves[0], c)
      {
        WithoutMember(cves[1..], t, c);
        var i :| 0 < i < |cves| && cves[i] == c;
      }
    }
  }

  ghost function Elements(s: seq<string>): set<string> {
    set x | x in s
  }

  lemma {:induction false} ElementCount(s: seq<string>)
    requires Ascending(s)
    ensures |Elements(s)| == |s|
  {
    if s != [] {
      var before, last := s[..|s| - 1], s[|s| - 1];
      ElementCount(before);
      LastIsNew(s);
      assert s == before + [last];
      assert Elements(s) == Elements(before) + {last};
    }
  }

  lemma LastIsNew(s: seq<string>)
    requires Ascending(s) && s != []
    ensures s[|s| - 1] !in s[..|s| - 1]
  {
    forall i | 0 <= i < |s| - 1
      ensures s[i] != s[|s| - 1]
    {
      LessAsymmetric(s[i], s[|s| - 1]);
    }
  }

  /** In an ascending list what is smaller than an entry is what stands before it. */
  lemma SmallerAreBefore(s: seq<string>, i: nat)
    requires Ascending(s) && i < |s|
    ensures |Smaller(Elements(s), s[i])| == i
  {
    ElementCount(s[..i]);
    forall x
      ensures x in s && Less(x, s[i]) <==> x in s[..i]
    {
      if x in s {
        var j :| 0 <= j < |s| && s[j] == x;
        BeforeIffLess(s, j, i);
      }
    }
    assert Smaller(Elements(s), s[i]) == Elements(s[..i]);
  }

  lemma BeforeIffLess(s: seq<string>, i: nat, j: nat)
    requires Ascending(s) && i < |s| && j < |s|
    ensures Less(s[i], s[j]) <==> i < j
  {
    if Less(s[i], s[j]) {
      LessAsymmetric(s[i], s[j]);
    }
  }

  lemma MissingIsAskedFor(s: Store, limit: nat, c: string)
    ensures c in Missing(s, limit) <==> AskedFor(s, limit, c)
  {
    var unscored := Without(KnownCves(s.findings), s.tables);
    SortedUniqueSorts(CvesOf(s.findings));
    WithoutAscends(KnownCves(s.findings), s.tables);
    forall x
      ensures x in Unscored(s) <==> x in unscored
    {
      UnscoredIs(s, x);
    }
    if c in unscored {
      var i :| 0 <= i < |unscored| && unscored[i] == c;
      SmallerAreBefore(unscored, i);
      assert Unscored(s) == Elements(unscored);
      AmongFirst(unscored, limit, i);
    }
  }

  lemma AmongFirst(s: seq<string>, limit: nat, i: nat)
    requires Ascending(s) && i < |s|
    ensures s[i] in (if |s| <= limit then s else s[..limit]) <==> i < limit || |s| <= limit
  {
    if limit < |s| && s[i] in s[..limit] {
      var j :| 0 <= j < limit && s[j] == s[i];
      BeforeIffLess(s, i, j);
      BeforeIffLess(s, j, i);
    }
  }

  /** The CVSS the database answered for a CVE it was asked about. */
  ghost function FetchedCvss(s: Store, answers: map<string, Answer>, limit: nat, c: string): Option<real> {
    if AskedFor(s, limit, c) && c in answers && answers[c].Cvss? then Some(answers[c].score) else None
  }

  /** What the CVSS synchronisation stores, from its first commit on: the score answered for each CVE without
      one that is among the first `limit` in sorted order, and nothing else. */
  lemma NvdAnswersAreStored(s: Store, answers: map<string, Answer>, limit: nat, now: int, commits: nat, c: string)
    requires commits >= 1
    ensures
      var s', fetched := AfterNvd(s, answers, limit, now, commits), FetchedCvss(s, answers, limit, c);
      && RowOf(s'.tables, c).cvss == (if fetched.Some? then fetched else RowOf(s.tables, c).cvss)
      && RowOf(s'.tables, c).epss == RowOf(s.tables, c).epss
      && s'.tables.catalogue == s.tables.catalogue && s'.tables.jobs == s.tables.jobs
      && s'.tables.criticality == s.tables.criticality
  {
    var missing := Missing(s, limit);
    MissingIsAskedFor(s, limit, c);
    AnsweredMember(missing, answers, c);
    NvdStoredRows(s, Answered(missing, answers), answers, now, commits, c);
    WithoutMember(KnownCves(s.findings), s.tables, c);
  }

  lemma NvdStoredRows(
    s: Store, updated: seq<string>, answers: map<string, Answer>, now: int, commits: nat, c: string)
    requires commits >= 1
    ensures
      var t := NvdStored(s, updated, answers, now, commits).tables;
      && RowOf(t, c) == (if c in updated && c in answers then WithAnswer(RowOf(s.tables, c), answers[c])
                         else RowOf(s.tables, c))
      && t.catalogue == s.tables.catalogue && t.jobs == s.tables.jobs && t.criticality == s.tables.criticality
  {
    NvdRows(s.tables, updated, answers, c);
  }

  /** From its second commit on, every finding that names a CVE it was answered for shows the highest of the
      fetched and the stored values, and no other finding changes. */
  lemma NvdValuesReachFindings(s: Store, answers: map<string, Answer>, limit: nat, now: int, commits: nat, i: nat)
    requires commits >= 2 && i < |s.findings|
    ensures
      var s', f := AfterNvd(s, answers, limit, now, commits), s.findings[i];
      |s'.findings| == |s.findings|
      && if exists c | c in f.cves :: AskedFor(s, limit, c) && c in answers && answers[c] != Unreachable
         then IsHighest(f.cves, c => var fetched := FetchedCvss(s, answers, limit, c);
                                     if fetched.Some? then fetched else RowOf(s.tables, c).cvss,
                        s'.findings[i].cache.cvss)
              && Agrees(s'.tables, s'.findings[i])
         else s'.findings[i] == f
  {
    var s', f := AfterNvd(s, answers, limit, now, commits), s.findings[i];
    var updated := Answered(Missing(s, limit), answers);
    NvdEffect(s, answers, limit, now, commits, i);
    forall c
      ensures c in updated <==> AskedFor(s, limit, c) && c in answers && answers[c] != Unreachable
      ensures RowOf(s'.tables, c).cvss == (var fetched := FetchedCvss(s, answers, limit, c);
                                           if fetched.Some? then fetched else RowOf(s.tables, c).cvss)
    {
      MissingIsAskedFor(s, limit, c);
      AnsweredMember(Missing(s, limit), answers, c);
      NvdAnswersAreStored(s, answers, limit, now, commits, c);
    }
    if Mentions(f, updated) {
      CvssIsTheWorst(s'.tables, f.cves);
      HighestOnSame(f.cves, c => RowOf(s'.tables, c).cvss,
                    c => var fetched := FetchedCvss(s, answers, limit, c);
                         if fetched.Some? then fetched else RowOf(s.tables, c).cvss,
                    HighestCvss(s'.tables, f.cves));
      RefreshedAgrees(s'.tables, f);
    }
  }

  // ---- What is recorded, and criticality ----

  /** An EPSS success is recorded when the call ran to its end, or at once when there was nothing to ask for. */
  lemma EpssSuccessIsRecordedIff(s: Store, scores: Option<map<string, real>>, now: int, commits: nat)
    ensures AfterEpss(s, scores, now, commits).tables.lastSuccess ==
      if commits >= 1 && ((forall f | f in s.findings :: f.cves == []) || (scores.Some? && commits >= 3))
      then s.tables.lastSuccess[Epss := now] else s.tables.lastSuccess
  {
    NoCvesIff(s);
  }

  /** A KEV success is recorded when the catalogue has been stored, before the recomputation. */
  lemma KevSuccessIsRecordedIff(s: Store, entries: Option<seq<string>>, now: int, commits: nat)
    ensures AfterKev(s, entries, now, commits).tables.lastSuccess ==
      if commits >= 2 && entries.Some? && Insertable(s.tables.catalogue, entries.value)
      then s.tables.lastSuccess[Kev := now] else s.tables.lastSuccess
  {
  }

  /** An NVD success is recorded when the call ran to its end and some CVE was answered, or at once when there
      was nothing to ask for. */
  lemma NvdSuccessIsRecordedIff(s: Store, answers: map<string, Answer>, limit: nat, now: int, commits: nat)
    ensures AfterNvd(s, answers, limit, now, commits).tables.lastSuccess ==
      if commits >= 1
         && ((forall c :: !AskedFor(s, limit, c))
             || (commits >= 3 && exists c :: AskedFor(s, limit, c) && c in answers && answers[c] != Unreachable))
      then s.tables.lastSuccess[Nvd := now] else s.tables.lastSuccess
  {
    AskedIff(s, limit, answers);
    var missing := Missing(s, limit);
    if commits >= 1 && missing != [] {
      NvdStoredMark(s, Answered(missing, answers), answers, now, commits);
    }
  }

  lemma NvdStoredMark(s: Store, updated: seq<string>, answers: map<string, Answer>, now: int, commits: nat)
    requires commits >= 1
    ensures NvdStored(s, updated, answers, now, commits).tables.lastSuccess ==
      if commits >= 3 && updated != [] then s.tables.lastSuccess[Nvd := now] else s.tables.lastSuccess
  {
  }

  lemma NoCvesIff(s: Store)
    ensures KnownCves(s.findings) == [] <==> forall f | f in s.findings :: f.cves == []
  {
    forall f | f in s.findings
      ensures f.cves != [] ==> KnownCves(s.findings) != []
    {
      FindingsWithCvesMentionKnown(s.findings, f);
    }
    if KnownCves(s.findings) != [] {
      var c := KnownCves(s.findings)[0];
      assert c in KnownCves(s.findings);
      KnownCvesAreTheFindings(s.findings, c);
    }
  }

  lemma AskedIff(s: Store, limit: nat, answers: map<string, Answer>)
    ensures Missing(s, limit) == [] <==> forall c :: !AskedFor(s, limit, c)
    ensures Answered(Missing(s, limit), answers) == [] <==>
      !exists c :: AskedFor(s, limit, c) && c in answers && answers[c] != Unreachable
  {
    var missing := Missing(s, limit);
    var answered := Answered(missing, answers);
    forall c
      ensures c in missing <==> AskedFor(s, limit, c)
      ensures c in answered <==> AskedFor(s, limit, c) && c in answers && answers[c] != Unreachable
    {
      MissingIsAskedFor(s, limit, c);
      AnsweredMember(missing, answers, c);
    }
    assert missing != [] ==> missing[0] in missing;
    assert answered != [] ==> answered[0] in answered;
  }

  /** What a criticality change does to finding `i`. */
  ghost predicate LevelReaches(s: Store, s': Store, asset: string, level: Criticality, commits: nat, i: nat)
    requires i < |s.findings| == |s'.findings|
  {
    var f, g := s.findings[i], s'.findings[i];
    if commits >= 2 && f.job in s.tables.jobs && s.tables.jobs[f.job] == Some(asset)
    then g == f.(cache := g.cache) && Agrees(s'.tables, g) && InputsFor(s'.tables, f).criticality == Some(level)
    else g == f
  }

  /** A criticality change stores the new level for that asset alone and, from its second commit on, refreshes
      exactly the findings of that asset; nothing happens for an unknown asset or the same level. */
  lemma CriticalityReachesFindings(s: Store, asset: string, level: Criticality, commits: nat)
    ensures
      var s' := AfterCriticality(s, asset, level, commits);
      if commits == 0 || asset !in s.tables.criticality || s.tables.criticality[asset] == level then s' == s
      else
        && s'.tables == s.tables.(criticality := s'.tables.criticality)
        && s'.tables.criticality.Keys == s.tables.criticality.Keys && s'.tables.criticality[asset] == level
        && (forall a | a in s.tables.criticality && a != asset ::
              s'.tables.criticality[a] == s.tables.criticality[a])
        && |s'.findings| == |s.findings|
        && (forall i | 0 <= i < |s.findings| :: LevelReaches(s, s', asset, level, commits, i))
  {
    var s' := AfterCriticality(s, asset, level, commits);
    forall i | 0 <= i < |s.findings| {
      RefreshedAgrees(s'.tables, s.findings[i]);
    }
  }

  /** When the catalogue changes nothing about the finding: its CVEs' listing was known and is the same. */
  predicate ListingKept(t: Tables, f: ScoredFinding, entries: seq<string>) {
    KevStatus(t, f.cves) == Some(exists c | c in f.cves :: c in entries)
  }

  /** A KEV call that recorded its success and died before the recomputation leaves a current finding
      current exactly if the fetched catalogue says about it what was already known. */
  lemma MarkedFindingIsCurrentIff(s: Store, entries: seq<string>, now: int, i: nat)
    requires Insertable(s.tables.catalogue, entries)
    requires i < |s.findings| && s.findings[i].cves != [] && Agrees(s.tables, s.findings[i])
    ensures var s' := AfterKev(s, Some(entries), now, 2);
            |s'.findings| == |s.findings|
            && (Agrees(s'.tables, s'.findings[i]) <==> ListingKept(s.tables, s.findings[i], entries))
  {
    var f, s' := s.findings[i], AfterKev(s, Some(entries), now, 2);
    assert s'.findings[i] == f;
    SameRowsSameHighest(s.tables, s'.tables, f.cves);
    assert KevStatus(s'.tables, f.cves) == Some(exists c | c in f.cves :: c in entries);
  }

  /** Exactly when a newly recorded KEV success implies agreement, in a cache that was current: the call got
      past its recomputation, or the catalogue says nothing new about any finding. */
  lemma KevMarkMeansCurrentIff(s: Store, entries: seq<string>, now: int, commits: nat)
    requires commits >= 2 && Insertable(s.tables.catalogue, entries) && AllWithCvesAgree(s)
    ensures AllWithCvesAgree(AfterKev(s, Some(entries), now, commits)) <==>
      commits >= 3 || forall f | f in s.findings && f.cves != [] :: ListingKept(s.tables, f, entries)
  {
    if commits >= 3 {
      KevSyncCatchesUp(s, entries, now, commits);
    } else {
      var s' := AfterKev(s, Some(entries), now, 2);
      assert s'.findings == s.findings;
      forall f | f in s.findings && f.cves != []
        ensures Agrees(s'.tables, f) <==> ListingKept(s.tables, f, entries)
      {
        var i :| 0 <= i < |s.findings| && s.findings[i] == f;
        MarkedFindingIsCurrentIff(s, entries, now, i);
      }
    }
  }

  /** So a recorded KEV success alone does not imply agreement: a first catalogue that lists a known CVE. */
  lemma KevMarkIsNotEnough()
    ensures exists s: Store, entries: seq<string> ::
      AllAgree(s) && Insertable(s.tables.catalogue, entries)
      && Kev in AfterKev(s, Some(entries), 1, 2).tables.lastSuccess
      && !AllWithCvesAgree(AfterKev(s, Some(entries), 1, 2))
  {
    var t := Tables(map[], {}, map[], map["j" := None], map[]);
    var f := Refreshed(t, ScoredFinding("j", High, HighConfidence, ["a"], Cache(None, None, None, None, None)));
    var s, entries := Store(t, [f]), ["a"];
    var s' := AfterKev(s, Some(entries), 1, 2);
    assert AllAgree(s) && Insertable(t.catalogue, entries);
    assert s'.findings[0] == f && f in s'.findings;
    assert f.cache.kev == None && KevStatus(s'.tables, f.cves).Some?;
    assert !Agrees(s'.tables, f);
    assert !AllWithCvesAgree(s');
  }

  // ---- CVSS values a tool reports ----

  /** A finding that was current stays so through a tool report exactly if its highest CVSS is the same. */
  lemma ToolReportStalesIff(t: Tables, hints: seq<Hint>, f: ScoredFinding)
    requires Agrees(t, f)
    ensures Agrees(Seeded(t, hints), f) <==> HighestCvss(Seeded(t, hints), f.cves) == HighestCvss(t, f.cves)
  {
    var u := Seeded(t, hints);
    SeededRows(t, hints, "");
    forall c | c in f.cves
      ensures RowOf(t, c).epss == RowOf(u, c).epss
    {
      SeededRows(t, hints, c);
    }
    SameEpss(t, u, f.cves);
  }

  lemma {:induction false} SameEpss(t: Tables, u: Tables, cves: seq<string>)
    requires forall c | c in cves :: RowOf(t, c).epss == RowOf(u, c).epss
    ensures HighestEpss(t, cves) == HighestEpss(u, cves)
  {
    if cves != [] {
      SameEpss(t, u, cves[1..]);
    }
  }

  /** The first score a report gives for a CVE. */
  function FirstScore(hints: seq<Hint>, c: string): Option<real> {
    if hints == [] then None
    else if hints[0].cve == c then Some(hints[0].score)
    else FirstScore(hints[1..], c)
  }

  lemma {:induction false} SeededCvss(t: Tables, hints: seq<Hint>, c: string)
    ensures RowOf(Seeded(t, hints), c).cvss ==
      if RowOf(t, c).cvss.Some? then RowOf(t, c).cvss else FirstScore(hints, c)
    decreases |hints|
  {
    if hints != [] {
      var row := RowOf(t, hints[0].cve);
      var row' := if row.cvss.None? then row.(cvss := Some(hints[0].score)) else row;
      SeededCvss(t.(intel := t.intel[hints[0].cve := row']), hints[1..], c);
    }
  }

  /** The report gives a CVE without a CVSS value one above everything known of the finding. */
  predicate Outscores(t: Tables, hints: seq<Hint>, f: ScoredFinding, c: string) {
    var known, score := HighestCvss(t, f.cves), FirstScore(hints, c);
    RowOf(t, c).cvss.None? && score.Some? && (known.None? || score.value > known.value)
  }

  lemma HighestUnchangedIff(t: Tables, hints: seq<Hint>, f: ScoredFinding)
    ensures HighestCvss(Seeded(t, hints), f.cves) == HighestCvss(t, f.cves) <==>
      forall c | c in f.cves :: !Outscores(t, hints, f, c)
  {
    var u := Seeded(t, hints);
    CvssIsTheWorst(t, f.cves);
    CvssIsTheWorst(u, f.cves);
    forall c {
      SeededCvss(t, hints, c);
    }
  }

  /** A finding that was current stays so through a tool report exactly if the report outscores what is known
      of it for none of its CVEs. */
  lemma ToolReportKeepsCurrentIff(t: Tables, hints: seq<Hint>, f: ScoredFinding)
    requires Agrees(t, f)
    ensures Agrees(Seeded(t, hints), f) <==> forall c | c in f.cves :: !Outscores(t, hints, f, c)
  {
    ToolReportStalesIff(t, hints, f);
    HighestUnchangedIff(t, hints, f);
  }

  /** The CVSS synchronisation never revisits such a finding: all of its CVEs have a value already. */
  lemma CvssSyncSkipsSeeded(s: Store, answers: map<string, Answer>, limit: nat, now: int, commits: nat, i: nat)
    requires i < |s.findings| && forall c | c in s.findings[i].cves :: RowOf(s.tables, c).cvss.Some?
    ensures AfterNvd(s, answers, limit, now, commits).findings[i] == s.findings[i]
  {
    var updated := Answered(Missing(s, limit), answers);
    forall c | c in s.findings[i].cves
      ensures c !in updated
    {
      AnsweredMember(Missing(s, limit), answers, c);
      WithoutMember(KnownCves(s.findings), s.tables, c);
    }
  }

  lemma CvssIsKept(s: Store, e: Event, c: string)
    requires RowOf(s.tables, c).cvss.Some?
    ensures RowOf(After(s, e).tables, c).cvss == RowOf(s.tables, c).cvss
  {
    match e
    case NvdSync(answers, limit, now, commits) =>
      var missing := Missing(s, limit);
      AnsweredMember(missing, answers, c);
      WithoutMember(KnownCves(s.findings), s.tables, c);
      NvdRows(s.tables, Answered(missing, answers), answers, c);
    case ToolReport(hints) => SeededRows(s.tables, hints, c);
    case _ =>
  }

  /** The first CVSS value stored for a CVE is never replaced, over any run. */
  lemma {:induction false} KnownCvssIsNeverReplaced(s: Store, es: seq<Event>, c: string)
    requires RowOf(s.tables, c).cvss.Some?
    ensures RowOf(Run(s, es).tables, c).cvss == RowOf(s.tables, c).cvss
    decreases |es|
  {
    if es != [] {
      CvssIsKept(s, es[0], c);
      KnownCvssIsNeverReplaced(After(s, es[0]), es[1..], c);
    }
  }
}
