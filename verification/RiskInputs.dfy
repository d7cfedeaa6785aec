/** What the stored intelligence says about one finding: the inputs of its score and its cached columns. */
module RiskInputs {
  import opened Options
  import opened Risk

  datatype Source = Epss | Kev | Nvd

  datatype Intel = Intel(cvss: Option<real>, epss: Option<real>)

  /** `jobs` gives each job its target asset, `lastSuccess` is present once a source has been synchronised. */
  datatype Tables = Tables(
    intel: map<string, Intel>, catalogue: set<string>, lastSuccess: map<Source, int>,
    jobs: map<string, Option<string>>, criticality: map<string, Criticality>)

  /** The materialised columns; all None until first computed. */
  datatype Cache = Cache(
    cvss: Option<real>, epss: Option<real>, kev: Option<bool>, score: Option<int>, priority: Option<Priority>)

  /** The columns of a finding that the score reads and writes. */
  datatype ScoredFinding = ScoredFinding(
    job: string, severity: Severity, confidence: Confidence, cves: seq<string>, cache: Cache)

  function Larger(a: Option<real>, b: Option<real>): Option<real> {
    if a.None? then b else if b.None? || b.value <= a.value then a else b
  }

  function RowOf(t: Tables, cve: string): Intel {
    if cve in t.intel then t.intel[cve] else Intel(None, None)
  }

  function HighestCvss(t: Tables, cves: seq<string>): Option<real> {
    if cves == [] then None else Larger(RowOf(t, cves[0]).cvss, HighestCvss(t, cves[1..]))
  }

  function HighestEpss(t: Tables, cves: seq<string>): Option<real> {
    if cves == [] then None else Larger(RowOf(t, cves[0]).epss, HighestEpss(t, cves[1..]))
  }

  /** Listed only counts once the catalogue has been synchronised. */
  function KevStatus(t: Tables, cves: seq<string>): Option<bool> {
    if cves == [] || Kev !in t.lastSuccess then None else Some(exists c | c in cves :: c in t.catalogue)
  }

  function AssetOf(t: Tables, job: string): Option<string> {
    if job in t.jobs then t.jobs[job] else None
  }

  function CriticalityOf(t: Tables, job: string): Option<Criticality> {
    match AssetOf(t, job)
    case Some(asset) => if asset in t.criticality then Some(t.criticality[asset]) else None
    case None => None
  }

  /** `build_risk_inputs`. */
  function InputsFor(t: Tables, f: ScoredFinding): Inputs {
    Inputs(f.severity, f.confidence, HighestCvss(t, f.cves), HighestEpss(t, f.cves), KevStatus(t, f.cves),
           CriticalityOf(t, f.job))
  }

  function CacheFor(i: Inputs): Cache {
    Cache(i.cvss, i.epss, i.kev, Some(Score(i)), Some(PriorityFor(Score(i))))
  }

  function Refreshed(t: Tables, f: ScoredFinding): ScoredFinding {
    f.(cache := CacheFor(InputsFor(t, f)))
  }

  /** The stored columns equal a fresh computation from the current tables. */
  predicate Agrees(t: Tables, f: ScoredFinding) {
    f == Refreshed(t, f)
  }

  // ---- The worst CVE decides ----

  /** `best` is the largest known value among the CVEs, and unknown only when none is known. */
  predicate IsHighest(cves: seq<string>, pick: string -> Option<real>, best: Option<real>) {
    if best.None? then forall c | c in cves :: pick(c) == None
    else
      (exists c | c in cves :: pick(c) == best)
      && (forall c | c in cves :: pick(c).None? || pick(c).value <= best.value)
  }

  lemma {:induction false} CvssIsTheWorst(t: Tables, cves: seq<string>)
    ensures IsHighest(cves, c => RowOf(t, c).cvss, HighestCvss(t, cves))
  {
    if cves != [] {
      CvssIsTheWorst(t, cves[1..]);
      HighestOfCons(cves, c => RowOf(t, c).cvss, HighestCvss(t, cves[1..]));
    }
  }

  lemma {:induction false} EpssIsTheWorst(t: Tables, cves: seq<string>)
    ensures IsHighest(cves, c => RowOf(t, c).epss, HighestEpss(t, cves))
  {
    if cves != [] {
      EpssIsTheWorst(t, cves[1..]);
      HighestOfCons(cves, c => RowOf(t, c).epss, HighestEpss(t, cves[1..]));
    }
  }

  /** Where each input of a score comes from. The catalogue says nothing about a finding without CVEs, nor
      before its first synchronisation; without an asset, or an asset of known criticality, there is none. */
  lemma InputsRead(t: Tables, f: ScoredFinding)
    ensures
      var i := InputsFor(t, f);
      && i.severity == f.severity && i.confidence == f.confidence
      && IsHighest(f.cves, c => RowOf(t, c).cvss, i.cvss)
      && IsHighest(f.cves, c => RowOf(t, c).epss, i.epss)
      && (i.kev == None <==> |f.cves| == 0 || Kev !in t.lastSuccess)
      && (i.kev.Some? ==> (i.kev.value <==> exists c | c in f.cves :: c in t.catalogue))
      && (forall level :: i.criticality == Some(level) <==>
            exists asset :: f.job in t.jobs && t.jobs[f.job] == Some(asset)
                            && asset in t.criticality && t.criticality[asset] == level)
  {
    CvssIsTheWorst(t, f.cves);
    EpssIsTheWorst(t, f.cves);
  }

  /** What a recomputation leaves in a finding's columns: the signals, the score and its band of twenty. */
  lemma RefreshedColumns(t: Tables, f: ScoredFinding)
    ensures
      var i, g := InputsFor(t, f), Refreshed(t, f);
      && g == ScoredFinding(f.job, f.severity, f.confidence, f.cves, g.cache)
      && IsHighest(f.cves, c => RowOf(t, c).cvss, g.cache.cvss)
      && IsHighest(f.cves, c => RowOf(t, c).epss, g.cache.epss)
      && g.cache.kev == i.kev && g.cache.score == Some(Score(i)) && 0 <= Score(i) <= 100
      && g.cache.priority.Some? && Rank(g.cache.priority.value) == (if Score(i) == 100 then 4 else Score(i) / 20)
  {
    InputsRead(t, f);
    ScoreInRange(InputsFor(t, f));
    BandsPartitionScores(Score(InputsFor(t, f)));
  }

  lemma HighestOfCons(cves: seq<string>, pick: string -> Option<real>, best: Option<real>)
    requires cves != [] && IsHighest(cves[1..], pick, best)
    ensures IsHighest(cves, pick, Larger(pick(cves[0]), best))
  {
    var all := Larger(pick(cves[0]), best);
    assert cves == [cves[0]] + cves[1..];
    if all.Some? {
      if all == pick(cves[0]) {
        assert cves[0] in cves;
      } else {
        var c :| c in cves[1..] && pick(c) == best;
        assert c in cves;
      }
    }
  }

  lemma HighestIsUnique(cves: seq<string>, pick: string -> Option<real>, a: Option<real>, b: Option<real>)
    requires IsHighest(cves, pick, a) && IsHighest(cves, pick, b)
    ensures a == b
  {
  }

  /** The inputs depend on which CVEs a finding names, not on their order or repetition. */
  lemma OrderOfCvesDoesNotMatter(t: Tables, f: ScoredFinding, g: ScoredFinding)
    requires forall c :: c in f.cves <==> c in g.cves
    requires f == g.(cves := f.cves, cache := f.cache)
    ensures InputsFor(t, f) == InputsFor(t, g)
  {
    CvssIsTheWorst(t, f.cves);
    CvssIsTheWorst(t, g.cves);
    HighestIsUnique(f.cves, c => RowOf(t, c).cvss, HighestCvss(t, f.cves), HighestCvss(t, g.cves));
    EpssIsTheWorst(t, f.cves);
    EpssIsTheWorst(t, g.cves);
    HighestIsUnique(f.cves, c => RowOf(t, c).epss, HighestEpss(t, f.cves), HighestEpss(t, g.cves));
    assert f.cves != [] ==> f.cves[0] in g.cves;
    assert g.cves != [] ==> g.cves[0] in f.cves;
  }

  // ---- One more CVE ----

  lemma {:induction false} HighestOfAppend(t: Tables, cves: seq<string>, c: string)
    ensures HighestCvss(t, cves + [c]) == Larger(HighestCvss(t, cves), RowOf(t, c).cvss)
    ensures HighestEpss(t, cves + [c]) == Larger(HighestEpss(t, cves), RowOf(t, c).epss)
  {
    if cves == [] {
      assert [c][1..] == [];
    } else {
      assert (cves + [c])[1..] == cves[1..] + [c];
      HighestOfAppend(t, cves[1..], c);
    }
  }

  /** Adding a CVE never lowers a score unless it makes a signal known that was not: with CVSS and EPSS
      known before, or not known for the new CVE either, it cannot. */
  lemma AddingACveNeverLowers(t: Tables, f: ScoredFinding, c: string)
    requires f.cves != []
    requires HighestCvss(t, f.cves).Some? || RowOf(t, c).cvss.None?
    requires HighestEpss(t, f.cves).Some? || RowOf(t, c).epss.None?
    ensures Score(InputsFor(t, f)) <= Score(InputsFor(t, f.(cves := f.cves + [c])))
  {
    HighestOfAppend(t, f.cves, c);
    WorseNeverScoresLower(InputsFor(t, f), InputsFor(t, f.(cves := f.cves + [c])));
  }

  /** Exactly when one more CVE lowers the raw score and the score: the signals as they are afterwards, weighted,
      pull down when measured from the old raw score, or from the raw score that would just keep the score. */
  lemma AddingACveLowersIff(t: Tables, f: ScoredFinding, c: string)
    ensures
      var before, after := InputsFor(t, f), InputsFor(t, f.(cves := f.cves + [c]));
      && after.cvss == Larger(before.cvss, RowOf(t, c).cvss) && after.epss == Larger(before.epss, RowOf(t, c).epss)
      && (Raw(after) < Raw(before) <==> Deviation(Components(after), Raw(before)) < 0.0)
      && var pull := Deviation(Components(after), Threshold(before, Score(before)));
         Score(after) < Score(before) <==>
           Score(before) > 0 && (pull < 0.0 || (pull == 0.0 && Score(before) % 2 == 1))
  {
    HighestOfAppend(t, f.cves, c);
    var before, after := InputsFor(t, f), InputsFor(t, f.(cves := f.cves + [c]));
    RawIsTheBalancePoint(after, Raw(before));
    ScoreInRange(before);
    ScoreInRange(after);
    assert Threshold(after, Score(before)) == Threshold(before, Score(before));
    if Score(before) > 0 {
      ScoreBelowIff(after, Score(before));
    }
  }

  /** Without that proviso it can: a second CVE, milder in CVSS, that brings the first EPSS value. */
  lemma AddingACveCanLower()
    ensures exists t: Tables, f: ScoredFinding, c: string ::
      f.cves != [] && HighestCvss(t, f.cves).Some? && RowOf(t, c).cvss.Some?
      && Score(InputsFor(t, f.(cves := f.cves + [c]))) < Score(InputsFor(t, f))
  {
    var t := Tables(map["a" := Intel(Some(9.0), None), "b" := Intel(Some(5.0), Some(0.0))], {}, map[], map[], map[]);
    var f := ScoredFinding("j", High, HighConfidence, ["a"], Cache(None, None, None, None, None));
    var g := f.(cves := f.cves + ["b"]);
    assert ["a"][1..] == [];
    assert HighestCvss(t, f.cves) == Some(9.0) && HighestEpss(t, f.cves) == None;
    HighestOfAppend(t, f.cves, "b");
    var before, after := InputsFor(t, f), InputsFor(t, g);
    RawByCases(before);
    RawByCases(after);
    assert Raw(before) == 0.9 && Raw(after) == 0.36 / 0.75;
    assert Product(before) == 0.9 && Product(after) == 0.48;
    assert Score(before) == 90 && Score(after) == 48;
    assert RowOf(t, "b").cvss.Some?;
  }
}
