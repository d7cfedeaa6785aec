/** The materialised risk columns and the synchronisations that keep them current: what each call commits,
    including calls that die between two commits. */
module RiskCache {
  import opened Options
  import opened Text
  import opened Risk
  import opened RiskInputs

  datatype Store = Store(tables: Tables, findings: seq<ScoredFinding>)

  /** What the vulnerability database answered for one CVE. */
  datatype Answer = Unreachable | NoScore | Cvss(score: real)

  datatype Hint = Hint(cve: string, score: real)

  // ---- Recomputation ----

  predicate Mentions(f: ScoredFinding, cves: seq<string>) {
    exists c | c in f.cves :: c in cves
  }

  function RefreshMentioning(t: Tables, fs: seq<ScoredFinding>, cves: seq<string>): seq<ScoredFinding> {
    seq(|fs|, i requires 0 <= i < |fs| => if Mentions(fs[i], cves) then Refreshed(t, fs[i]) else fs[i])
  }

  function RefreshWithCves(t: Tables, fs: seq<ScoredFinding>): seq<ScoredFinding> {
    seq(|fs|, i requires 0 <= i < |fs| => if fs[i].cves != [] then Refreshed(t, fs[i]) else fs[i])
  }

  function RefreshOfAsset(t: Tables, fs: seq<ScoredFinding>, asset: string): seq<ScoredFinding> {
    seq(|fs|, i requires 0 <= i < |fs| =>
      if AssetOf(t, fs[i].job) == Some(asset) then Refreshed(t, fs[i]) else fs[i])
  }

  // ---- Which CVEs are known ----

  function CvesOf(fs: seq<ScoredFinding>): seq<string> {
    if fs == [] then [] else fs[0].cves + CvesOf(fs[1..])
  }

  /** `sorted(known_cve_ids(session))`. */
  function KnownCves(fs: seq<ScoredFinding>): seq<string> {
    SortedUnique(CvesOf(fs))
  }

  lemma {:induction false} CvesOfMember(fs: seq<ScoredFinding>, c: string)
    ensures c in CvesOf(fs) <==> exists f | f in fs :: c in f.cves
  {
    if fs != [] {
      CvesOfMember(fs[1..], c);
      assert fs == [fs[0]] + fs[1..];
      if c in fs[0].cves {
        assert fs[0] in fs;
      }
    }
  }

  lemma KnownCvesAreTheFindings(fs: seq<ScoredFinding>, c: string)
    ensures c in KnownCves(fs) <==> exists f | f in fs :: c in f.cves
  {
    SortedUniqueSorts(CvesOf(fs));
    CvesOfMember(fs, c);
  }

  lemma FindingsWithCvesMentionKnown(fs: seq<ScoredFinding>, f: ScoredFinding)
    requires f in fs
    ensures Mentions(f, KnownCves(fs)) <==> f.cves != []
  {
    if f.cves != [] {
      KnownCvesAreTheFindings(fs, f.cves[0]);
      assert f.cves[0] in f.cves;
    }
  }

  function Without(cves: seq<string>, t: Tables): seq<string> {
    if cves == [] then []
    else (if RowOf(t, cves[0]).cvss.None? then [cves[0]] else []) + Without(cves[1..], t)
  }

  lemma {:induction false} WithoutMember(cves: seq<string>, t: Tables, c: string)
    ensures c in Without(cves, t) <==> c in cves && RowOf(t, c).cvss.None?
  {
    if cves != [] {
      WithoutMember(cves[1..], t, c);
      assert cves == [cves[0]] + cves[1..];
    }
  }

  function Missing(s: Store, limit: nat): seq<string> {
    var missing := Without(KnownCves(s.findings), s.tables);
    if |missing| <= limit then missing else missing[..limit]
  }

  function Answered(cves: seq<string>, answers: map<string, Answer>): seq<string> {
    if cves == [] then []
    else
      (if cves[0] in answers && !answers[cves[0]].Unreachable? then [cves[0]] else []) + Answered(cves[1..], answers)
  }

  lemma {:induction false} AnsweredMember(cves: seq<string>, answers: map<string, Answer>, c: string)
    ensures c in Answered(cves, answers) <==> c in cves && c in answers && !answers[c].Unreachable?
  {
    if cves != [] {
      AnsweredMember(cves[1..], answers, c);
      assert cves == [cves[0]] + cves[1..];
    }
  }

  // ---- The calls as functions on the store ----

  function Succeeded(s: Store, source: Source, now: int): Store {
    s.(tables := s.tables.(lastSuccess := s.tables.lastSuccess[source := now]))
  }

  function WithEpss(row: Intel, cve: string, scores: map<string, real>): Intel {
    if cve in scores then row.(epss := Some(scores[cve])) else row
  }

  function WithAnswer(row: Intel, answer: Answer): Intel {
    if answer.Cvss? then row.(cvss := Some(answer.score)) else row
  }

  function EpssTables(t: Tables, cves: seq<string>, scores: map<string, real>): Tables {
    t.(intel := map c | c in t.intel.Keys + (set x | x in cves) ::
         if c in cves then WithEpss(RowOf(t, c), c, scores) else t.intel[c])
  }

  function NvdTables(t: Tables, cves: seq<string>, answers: map<string, Answer>): Tables {
    t.(intel := map c | c in t.intel.Keys + (set x | x in cves) ::
         if c in cves && c in answers then WithAnswer(RowOf(t, c), answers[c]) else RowOf(t, c))
  }

  /** `sync_epss`; `commits` says after how many of its commits past the first attempt mark it dies. */
  function AfterEpss(s: Store, fetched: Option<map<string, real>>, now: int, commits: nat): Store {
    var cves := KnownCves(s.findings);
    if commits == 0 then s
    else if cves == [] then Succeeded(s, Epss, now)
    else if fetched.None? then s
    else
      var tables := EpssTables(s.tables, cves, fetched.value);
      var recomputed := RefreshMentioning(tables, s.findings, cves);
      if commits == 1 then Store(tables, s.findings)
      else if commits == 2 then Store(tables, recomputed)
      else Succeeded(Store(tables, recomputed), Epss, now)
  }

  /** Rows for ids not stored yet are inserted one per entry, so a repeated new id violates the key. */
  predicate Insertable(catalogue: set<string>, entries: seq<string>) {
    forall i, j | 0 <= i < j < |entries| :: entries[i] == entries[j] ==> entries[i] in catalogue
  }

  /** `sync_cisa_kev`. The success mark is committed before the recomputation. */
  function AfterKev(s: Store, fetched: Option<seq<string>>, now: int, commits: nat): Store {
    if commits == 0 || fetched.None? || !Insertable(s.tables.catalogue, fetched.value) then s
    else
      var replaced := s.(tables := s.tables.(catalogue := set c | c in fetched.value));
      var marked := Succeeded(replaced, Kev, now);
      if commits == 1 then replaced
      else if commits == 2 then marked
      else marked.(findings := RefreshWithCves(marked.tables, s.findings))
  }

  /** `sync_nvd_cvss`: only CVEs still without a CVSS value are asked for. */
  function AfterNvd(s: Store, answers: map<string, Answer>, limit: nat, now: int, commits: nat): Store {
    var missing := Missing(s, limit);
    var updated := Answered(missing, answers);
    if commits == 0 then s
    else if missing == [] then Succeeded(s, Nvd, now)
    else NvdStored(s, updated, answers, now, commits)
  }

  /** The commits that follow once answers have arrived for `updated`. */
  function NvdStored(s: Store, updated: seq<string>, answers: map<string, Answer>, now: int, commits: nat): Store {
    var tables := NvdTables(s.tables, updated, answers);
    var recomputed := RefreshMentioning(tables, s.findings, updated);
    if commits == 1 then Store(tables, s.findings)
    else if commits == 2 || updated == [] then Store(tables, recomputed)
    else Succeeded(Store(tables, recomputed), Nvd, now)
  }

  /** `seed_cvss_from_tool`: the first value in wins. */
  function Seeded(t: Tables, hints: seq<Hint>): Tables
    decreases |hints|
  {
    if hints == [] then t
    else
      var row := RowOf(t, hints[0].cve);
      Seeded(t.(intel := t.intel[hints[0].cve := if row.cvss.None? then row.(cvss := Some(hints[0].score)) else row]),
             hints[1..])
  }

  /** The asset update route: committed first, then the scores are recomputed in a second transaction. */
  function AfterCriticality(s: Store, asset: string, c: Criticality, commits: nat): Store {
    if commits == 0 || asset !in s.tables.criticality || s.tables.criticality[asset] == c then s
    else
      var tables := s.tables.(criticality := s.tables.criticality[asset := c]);
      Store(tables, if commits == 1 then s.findings else RefreshOfAsset(tables, s.findings, asset))
  }

  // ---- The calls as the code makes them ----

  class IntelligenceStore {
    var intel: map<string, Intel>
    var catalogue: set<string>
    var lastSuccess: map<Source, int>
    var jobs: map<string, Option<string>>
    var criticality: map<string, Criticality>
    var findings: seq<ScoredFinding>

    function CurrentTables(): Tables
      reads this
    {
      Tables(intel, catalogue, lastSuccess, jobs, criticality)
    }

    function State(): Store
      reads this
    {
      Store(CurrentTables(), findings)
    }

    method RecalculateFinding(i: nat)
      requires i < |findings|
      modifies this`findings
      ensures findings == old(findings)[i := Refreshed(CurrentTables(), old(findings)[i])]
      ensures Agrees(CurrentTables(), findings[i])
    {
      var inputs := InputsFor(CurrentTables(), findings[i]);
      var result := CalculateRisk(inputs);
      var cache := Cache(inputs.cvss, inputs.epss, inputs.kev, Some(result.score), Some(result.priority));
      findings := findings[i := findings[i].(cache := cache)];
    }

    method RecalculateForCve(cve: string)
      modifies this`findings
      ensures findings == RefreshMentioning(CurrentTables(), old(findings), [cve])
    {
      var i := 0;
      while i < |findings|
        invariant 0 <= i <= |findings| == |old(findings)|
        invariant forall k | 0 <= k < i :: findings[k] == RefreshMentioning(CurrentTables(), old(findings), [cve])[k]
        invariant forall k | i <= k < |findings| :: findings[k] == old(findings)[k]
      {
        if cve in findings[i].cves {
          RecalculateFinding(i);
        }
        i := i + 1;
      }
    }

    method RecalculateAllWithCve()
      modifies this`findings
      ensures findings == RefreshWithCves(CurrentTables(), old(findings))
    {
      var i := 0;
      while i < |findings|
        invariant 0 <= i <= |findings| == |old(findings)|
        invariant forall k | 0 <= k < i :: findings[k] == RefreshWithCves(CurrentTables(), old(findings))[k]
        invariant forall k | i <= k < |findings| :: findings[k] == old(findings)[k]
      {
        if findings[i].cves != [] {
          RecalculateFinding(i);
        }
        i := i + 1;
      }
    }

    method RecalculateForAsset(asset: string)
      modifies this`findings
      ensures findings == RefreshOfAsset(CurrentTables(), old(findings), asset)
    {
      var i := 0;
      while i < |findings|
        invariant 0 <= i <= |findings| == |old(findings)|
        invariant forall k | 0 <= k < i :: findings[k] == RefreshOfAsset(CurrentTables(), old(findings), asset)[k]
        invariant forall k | i <= k < |findings| :: findings[k] == old(findings)[k]
      {
        if AssetOf(CurrentTables(), findings[i].job) == Some(asset) {
          RecalculateFinding(i);
        }
        i := i + 1;
      }
    }

    method RecalculateForCves(cves: seq<string>)
      modifies this`findings
      ensures findings == RefreshMentioning(CurrentTables(), old(findings), cves)
    {
      for i := 0 to |cves|
        invariant findings == RefreshMentioning(CurrentTables(), old(findings), cves[..i])
      {
        RecalculateForCve(cves[i]);
        RefreshTwice(CurrentTables(), old(findings), cves[..i], [cves[i]]);
        assert cves[..i + 1] == cves[..i] + [cves[i]];
      }
      assert cves[..|cves|] == cves;
    }

    method SeedCvss(hints: seq<Hint>) returns (updated: set<string>)
      modifies this`intel
      ensures CurrentTables() == Seeded(old(CurrentTables()), hints)
      ensures updated == set h | h in hints && RowOf(old(CurrentTables()), h.cve).cvss.None? :: h.cve
    {
      updated := {};
      assert hints[0..] == hints;
      for i := 0 to |hints|
        invariant Seeded(CurrentTables(), hints[i..]) == Seeded(old(CurrentTables()), hints)
        invariant updated == set h | h in hints[..i] && RowOf(old(CurrentTables()), h.cve).cvss.None? :: h.cve
        invariant forall c :: RowOf(CurrentTables(), c).cvss.None? <==>
                              RowOf(old(CurrentTables()), c).cvss.None? && c !in updated
      {
        var cve := hints[i].cve;
        var row := RowOf(CurrentTables(), cve);
        assert hints[i..][1..] == hints[i + 1..];
        assert hints[..i + 1] == hints[..i] + [hints[i]];
        if row.cvss.None? {
          row := row.(cvss := Some(hints[i].score));
          updated := updated + {cve};
        }
        intel := intel[cve := row];
      }
      assert hints[..|hints|] == hints;
    }

    method SyncEpss(fetched: Option<map<string, real>>, now: int, commits: nat)
      modifies this
      ensures State() == AfterEpss(old(State()), fetched, now, commits)
    {
      var cves := KnownCves(findings);
      if commits == 0 {
        return;
      }
      if cves == [] {
        lastSuccess := lastSuccess[Epss := now];
        return;
      }
      if fetched.None? {
        return;
      }
      StoreEpss(cves, fetched.value);
      if commits == 1 {
        return;
      }
      RecalculateForCves(cves);
      if commits == 2 {
        return;
      }
      lastSuccess := lastSuccess[Epss := now];
    }

    method StoreEpss(cves: seq<string>, scores: map<string, real>)
      modifies this`intel
      ensures CurrentTables() == EpssTables(old(CurrentTables()), cves, scores)
    {
      ghost var before := CurrentTables();
      EpssTablesOfNone(before, scores);
      for i := 0 to |cves|
        invariant CurrentTables() == EpssTables(before, cves[..i], scores)
      {
        var cve := cves[i];
        var row := RowOf(CurrentTables(), cve);
        assert cves[..i + 1] == cves[..i] + [cve];
        EpssTablesOfAppend(before, cves[..i], cve, scores);
        if cve in scores {
          row := row.(epss := Some(scores[cve]));
        }
        intel := intel[cve := row];
      }
      assert cves[..|cves|] == cves;
    }

    /** False when the insert violates the key: the transaction is rolled back. */
    method ReplaceCatalogue(entries: seq<string>) returns (ok: bool)
      modifies this`catalogue
      ensures ok <==> Insertable(old(catalogue), entries)
      ensures catalogue == if ok then set c | c in entries else old(catalogue)
    {
      var existing := catalogue;
      var seen: set<string> := {};
      var added: set<string> := {};
      for i := 0 to |entries|
        invariant seen == set c | c in entries[..i]
        invariant added == seen - existing
        invariant Insertable(existing, entries[..i])
      {
        var cve := entries[i];
        assert entries[..i + 1] == entries[..i] + [cve];
        if cve in added {
          var k :| 0 <= k < i && entries[k] == cve;
          return false;
        }
        seen := seen + {cve};
        if cve !in existing {
          added := added + {cve};
        }
      }
      assert entries[..|entries|] == entries;
      catalogue := existing + added - (existing - seen);
      ok := true;
    }

    method SyncCisaKev(fetched: Option<seq<string>>, now: int, commits: nat)
      modifies this
      ensures State() == AfterKev(old(State()), fetched, now, commits)
    {
      if commits == 0 || fetched.None? {
        return;
      }
      var ok := ReplaceCatalogue(fetched.value);
      if !ok || commits == 1 {
        return;
      }
      lastSuccess := lastSuccess[Kev := now];
      if commits == 2 {
        return;
      }
      RecalculateAllWithCve();
    }

    method StoreAnswers(missing: seq<string>, answers: map<string, Answer>) returns (updated: seq<string>)
      modifies this`intel
      ensures updated == Answered(missing, answers)
      ensures CurrentTables() == NvdTables(old(CurrentTables()), updated, answers)
    {
      updated := [];
      ghost var before := CurrentTables();
      NvdTablesOfNone(before, answers);
      assert missing[0..] == missing;
      for i := 0 to |missing|
        invariant updated + Answered(missing[i..], answers) == Answered(missing, answers)
        invariant forall c | c in updated :: c in answers
        invariant CurrentTables() == NvdTables(before, updated, answers)
      {
        var cve := missing[i];
        AnsweredFrom(missing, i, answers);
        if cve in answers && !answers[cve].Unreachable? {
          var row := RowOf(CurrentTables(), cve);
          NvdTablesOfAppend(before, updated, cve, answers);
          if answers[cve].Cvss? {
            row := row.(cvss := Some(answers[cve].score));
          }
          intel := intel[cve := row];
          updated := updated + [cve];
        }
      }
    }

    method SyncNvdCvss(answers: map<string, Answer>, limit: nat, now: int, commits: nat)
      modifies this
      ensures State() == AfterNvd(old(State()), answers, limit, now, commits)
    {
      if commits == 0 {
        return;
      }
      var missing := Missing(State(), limit);
      if missing == [] {
        lastSuccess := lastSuccess[Nvd := now];
        return;
      }
      var updated := StoreAnswers(missing, answers);
      if commits == 1 {
        return;
      }
      RecalculateForCves(updated);
      if commits == 2 || updated == [] {
        return;
      }
      lastSuccess := lastSuccess[Nvd := now];
    }

    method ChangeCriticality(asset: string, c: Criticality, commits: nat)
      modifies this
      ensures State() == AfterCriticality(old(State()), asset, c, commits)
    {
      if commits == 0 || asset !in criticality || criticality[asset] == c {
        return;
      }
      criticality := criticality[asset := c];
      if commits == 1 {
        return;
      }
      RecalculateForAsset(asset);
    }
  }

  lemma RefreshTwice(t: Tables, fs: seq<ScoredFinding>, a: seq<string>, b: seq<string>)
    ensures RefreshMentioning(t, RefreshMentioning(t, fs, a), b) == RefreshMentioning(t, fs, a + b)
  {
    var once, twice := RefreshMentioning(t, fs, a), RefreshMentioning(t, fs, a + b);
    forall i | 0 <= i < |fs|
      ensures RefreshMentioning(t, once, b)[i] == twice[i]
    {
      assert Refreshed(t, Refreshed(t, fs[i])) == Refreshed(t, fs[i]);
      assert Mentions(fs[i], a + b) <==> Mentions(fs[i], a) || Mentions(fs[i], b);
    }
  }

  lemma EpssTablesOfNone(t: Tables, scores: map<string, real>)
    ensures EpssTables(t, [], scores) == t
  {
    assert EpssTables(t, [], scores).intel == t.intel;
  }

  lemma EpssTablesOfAppend(t: Tables, cves: seq<string>, c: string, scores: map<string, real>)
    ensures var so := EpssTables(t, cves, scores);
            EpssTables(t, cves + [c], scores) == so.(intel := so.intel[c := WithEpss(RowOf(so, c), c, scores)])
  {
    var so := EpssTables(t, cves, scores);
    assert EpssTables(t, cves + [c], scores).intel == so.intel[c := WithEpss(RowOf(so, c), c, scores)];
  }

  lemma AnsweredFrom(missing: seq<string>, i: nat, answers: map<string, Answer>)
    requires i < |missing|
    ensures
      var answered := missing[i] in answers && !answers[missing[i]].Unreachable?;
      Answered(missing[i..], answers) == (if answered then [missing[i]] else []) + Answered(missing[i + 1..], answers)
  {
    assert missing[i..][1..] == missing[i + 1..];
  }

  lemma NvdTablesOfNone(t: Tables, answers: map<string, Answer>)
    ensures NvdTables(t, [], answers) == t
  {
    assert NvdTables(t, [], answers).intel == t.intel;
  }

  lemma NvdTablesOfAppend(t: Tables, cves: seq<string>, c: string, answers: map<string, Answer>)
    requires c in answers && forall x | x in cves :: x in answers
    ensures var so := NvdTables(t, cves, answers);
            NvdTables(t, cves + [c], answers) == so.(intel := so.intel[c := WithAnswer(RowOf(so, c), answers[c])])
  {
    var so := NvdTables(t, cves, answers);
    assert NvdTables(t, cves + [c], answers).intel == so.intel[c := WithAnswer(RowOf(so, c), answers[c])];
  }
}
