/** The risk calculator over exact reals: a weighted average of the signals that are known, scaled by
    asset criticality and finding confidence, rounded to 0..100 and sorted into priority bands. */
module Risk {
  import opened Options

  datatype Severity = Info | Low | Medium | High | Critical

  datatype Criticality = LowAsset | MediumAsset | HighAsset | CriticalAsset

  datatype Confidence = LowConfidence | MediumConfidence | HighConfidence

  datatype Priority = InformationalPriority | LowPriority | MediumPriority | HighPriority | CriticalPriority

  /** `kev` is None until the catalogue has been synchronised; `criticality` is None without an asset. */
  datatype Inputs = Inputs(
    severity: Severity, confidence: Confidence, cvss: Option<real>, epss: Option<real>, kev: Option<bool>,
    criticality: Option<Criticality>)

  datatype Component = Component(value: real, weight: real, available: bool)

  datatype Assessment = Assessment(score: int, priority: Priority, components: seq<Component>, raw: real)

  const TECHNICAL_WEIGHT := 0.40
  const EXPLOITATION_WEIGHT := 0.35
  const EXPLOITED_WEIGHT := 0.25

  /** `_PRIORITY_BANDS`, highest first. */
  const BANDS: seq<(int, Priority)> :=
    [(80, CriticalPriority), (60, HighPriority), (40, MediumPriority), (20, LowPriority), (0, InformationalPriority)]

  function Clamp(x: real): real {
    if x < 0.0 then 0.0 else if x > 1.0 then 1.0 else x
  }

  function SeverityFallback(s: Severity): real {
    match s
    case Info => 0.00
    case Low => 0.25
    case Medium => 0.55
    case High => 0.80
    case Critical => 0.95
  }

  function CriticalityMultiplier(c: Option<Criticality>): real {
    match c
    case None => 1.00
    case Some(LowAsset) => 0.85
    case Some(MediumAsset) => 1.00
    case Some(HighAsset) => 1.15
    case Some(CriticalAsset) => 1.30
  }

  function ConfidenceMultiplier(c: Confidence): real {
    match c
    case LowConfidence => 0.60
    case MediumConfidence => 0.85
    case HighConfidence => 1.00
  }

  /** Python's `round` to an integer: to the nearest, ties to the even neighbour. */
  function Round(x: real): int {
    var floor := x.Floor;
    var excess := x - floor as real;
    if excess < 0.5 || (excess == 0.5 && floor % 2 == 0) then floor else floor + 1
  }

  function BandOf(score: int, bands: seq<(int, Priority)>): Priority {
    if bands == [] then InformationalPriority
    else if score >= bands[0].0 then bands[0].1
    else BandOf(score, bands[1..])
  }

  function PriorityFor(score: int): Priority {
    BandOf(score, BANDS)
  }

  function Technical(i: Inputs): real {
    if i.cvss.Some? then Clamp(i.cvss.value / 10.0) else SeverityFallback(i.severity)
  }

  function Components(i: Inputs): seq<Component> {
    [Component(Technical(i), TECHNICAL_WEIGHT, true),
     if i.epss.Some? then Component(Clamp(i.epss.value), EXPLOITATION_WEIGHT, true)
     else Component(0.0, EXPLOITATION_WEIGHT, false),
     if i.kev.Some? then Component(if i.kev.value then 1.0 else 0.0, EXPLOITED_WEIGHT, true)
     else Component(0.0, EXPLOITED_WEIGHT, false)]
  }

  function Available(cs: seq<Component>): seq<Component> {
    if cs == [] then [] else (if cs[0].available then [cs[0]] else []) + Available(cs[1..])
  }

  function TotalWeight(cs: seq<Component>): real {
    if cs == [] then 0.0 else cs[0].weight + TotalWeight(cs[1..])
  }

  function WeightedSum(cs: seq<Component>): real {
    if cs == [] then 0.0 else cs[0].value * cs[0].weight + WeightedSum(cs[1..])
  }

  /** The weighted average of the available components. */
  function Average(cs: seq<Component>): real {
    var available := Available(cs);
    if TotalWeight(available) > 0.0 then WeightedSum(available) / TotalWeight(available) else 0.0
  }

  function Raw(i: Inputs): real {
    Average(Components(i))
  }

  /** The weighted average after the two context multipliers, not yet limited to 0..1. */
  function Product(i: Inputs): real {
    Raw(i) * CriticalityMultiplier(i.criticality) * ConfidenceMultiplier(i.confidence)
  }

  function ScoreOf(product: real): int {
    var rounded := Round(Clamp(product) * 100.0);
    if rounded > 100 then 100 else if rounded < 0 then 0 else rounded
  }

  function Score(i: Inputs): int {
    ScoreOf(Product(i))
  }

  method GatherComponents(i: Inputs) returns (components: seq<Component>)
    ensures components == Components(i)
  {
    components := [];
    var technical;
    if i.cvss.Some? {
      technical := Clamp(i.cvss.value / 10.0);
    } else {
      technical := SeverityFallback(i.severity);
    }
    components := components + [Component(technical, TECHNICAL_WEIGHT, true)];
    assert components == Components(i)[..1];
    if i.epss.Some? {
      components := components + [Component(Clamp(i.epss.value), EXPLOITATION_WEIGHT, true)];
    } else {
      components := components + [Component(0.0, EXPLOITATION_WEIGHT, false)];
    }
    assert components == Components(i)[..2];
    if i.kev.Some? {
      components := components + [Component(if i.kev.value then 1.0 else 0.0, EXPLOITED_WEIGHT, true)];
    } else {
      components := components + [Component(0.0, EXPLOITED_WEIGHT, false)];
    }
    assert components == Components(i)[..3];
  }

  /** `calculate_risk`. */
  method CalculateRisk(i: Inputs) returns (a: Assessment)
    ensures a == Assessment(Score(i), PriorityFor(Score(i)), Components(i), Raw(i))
  {
    var components := GatherComponents(i);
    var raw := Average(components);
    var product := raw * CriticalityMultiplier(i.criticality) * ConfidenceMultiplier(i.confidence);
    assert product == Product(i);
    var score := ScoreOf(product);
    a := Assessment(score, PriorityFor(score), components, raw);
  }

  // ---- Rounding and bands ----

  /** `Round` is the nearest integer, the even one of two equally near. */
  lemma RoundIsNearest(x: real)
    ensures -0.5 <= x - Round(x) as real <= 0.5
    ensures (x - Round(x) as real == 0.5 || x - Round(x) as real == -0.5) ==> Round(x) % 2 == 0
  {
    var floor := x.Floor;
    assert floor as real <= x < floor as real + 1.0;
  }

  lemma RoundMonotone(x: real, y: real)
    requires x <= y
    ensures Round(x) <= Round(y)
  {
    RoundIsNearest(x);
    RoundIsNearest(y);
    assert x.Floor <= y.Floor;
  }

  /** An even threshold is reached exactly from half a unit below it. */
  lemma RoundReaches(x: real, k: int)
    requires k % 2 == 0
    ensures Round(x) >= k <==> x >= k as real - 0.5
  {
    RoundIsNearest(x);
    if Round(x) >= k {
      assert Round(x) as real >= k as real;
    } else {
      assert Round(x) as real <= k as real - 1.0;
    }
  }

  function Rank(p: Priority): nat {
    match p
    case InformationalPriority => 0
    case LowPriority => 1
    case MediumPriority => 2
    case HighPriority => 3
    case CriticalPriority => 4
  }

  /** The bands cut 0..100 into five ranges of twenty points, the last closed at 100. */
  lemma BandsPartitionScores(score: int)
    requires 0 <= score <= 100
    ensures Rank(PriorityFor(score)) == if score == 100 then 4 else score / 20
  {
    var low := [(20, LowPriority), (0, InformationalPriority)];
    var medium := [(40, MediumPriority)] + low;
    var high := [(60, HighPriority)] + medium;
    assert low[1..] == [(0, InformationalPriority)] && medium[1..] == low && high[1..] == medium;
    assert BANDS == [(80, CriticalPriority)] + high && BANDS[1..] == high;
    assert BandOf(score, low[1..]) == InformationalPriority;
    assert BandOf(score, low) == if score >= 20 then LowPriority else InformationalPriority;
    assert BandOf(score, medium) == if score >= 40 then MediumPriority else BandOf(score, low);
    assert BandOf(score, high) == if score >= 60 then HighPriority else BandOf(score, medium);
  }

  // ---- The weighted average ----

  lemma RawByCases(i: Inputs)
    ensures Raw(i) ==
      (Technical(i) * 0.40
       + (if i.epss.Some? then Clamp(i.epss.value) * 0.35 else 0.0)
       + (if i.kev == Some(true) then 0.25 else 0.0))
      / (0.40 + (if i.epss.Some? then 0.35 else 0.0) + (if i.kev.Some? then 0.25 else 0.0))
  {
    var cs := Components(i);
    assert Available(cs[3..]) == [];
    var tail := if i.kev.Some? then [cs[2]] else [];
    assert Available(cs[2..]) == tail;
    var rest := (if i.epss.Some? then [cs[1]] else []) + tail;
    assert cs[1..][0] == cs[1] && cs[1..][1..] == cs[2..];
    assert Available(cs[1..]) == rest;
    assert Available(cs) == [cs[0]] + rest;
    SumsOfTail(tail);
    SumsOfCons(cs[1], tail);
    SumsOfCons(cs[0], rest);
  }

  lemma SumsOfTail(cs: seq<Component>)
    requires |cs| <= 1
    ensures TotalWeight(cs) == if cs == [] then 0.0 else cs[0].weight
    ensures WeightedSum(cs) == if cs == [] then 0.0 else cs[0].value * cs[0].weight
  {
  }

  lemma SumsOfCons(c: Component, cs: seq<Component>)
    ensures TotalWeight([c] + cs) == c.weight + TotalWeight(cs)
    ensures WeightedSum([c] + cs) == c.value * c.weight + WeightedSum(cs)
  {
    assert ([c] + cs)[1..] == cs;
  }

  function Deviation(cs: seq<Component>, centre: real): real {
    if cs == [] then 0.0
    else (if cs[0].available then cs[0].weight * (cs[0].value - centre) else 0.0) + Deviation(cs[1..], centre)
  }

  lemma {:induction false} DeviationIs(cs: seq<Component>, centre: real)
    ensures Deviation(cs, centre) == WeightedSum(Available(cs)) - TotalWeight(Available(cs)) * centre
  {
    if cs != [] {
      DeviationIs(cs[1..], centre);
      assert [] + Available(cs[1..]) == Available(cs[1..]);
      if cs[0].available {
        SumsOfCons(cs[0], Available(cs[1..]));
      }
    }
  }

  /** The raw score is the one point at which the weighted deviations of the known signals cancel; any
      other candidate lies on the side their sum says. An unknown signal has no pull at all. */
  lemma RawIsTheBalancePoint(i: Inputs, centre: real)
    ensures Deviation(Components(i), centre) == 0.0 <==> Raw(i) == centre
    ensures Deviation(Components(i), centre) < 0.0 <==> Raw(i) < centre
  {
    var available := Available(Components(i));
    DeviationIs(Components(i), centre);
    AvailableWeighs(i);
    DivisionOrders(TotalWeight(available), WeightedSum(available), centre);
  }

  lemma DivisionOrders(w: real, s: real, centre: real)
    requires w > 0.0
    ensures s - w * centre == 0.0 <==> s / w == centre
    ensures s - w * centre < 0.0 <==> s / w < centre
  {
    assert s == w * (s / w);
    var gap := s / w - centre;
    assert s - w * centre == w * gap;
    SignOfProduct(w, gap);
  }

  lemma SignOfProduct(w: real, gap: real)
    requires w > 0.0
    ensures w * gap == 0.0 <==> gap == 0.0
    ensures w * gap < 0.0 <==> gap < 0.0
  {
  }

  lemma AvailableWeighs(i: Inputs)
    ensures TotalWeight(Available(Components(i))) >= 0.40
  {
    var cs := Components(i);
    WeightsAreNotNegative(cs[1..]);
    SumsOfCons(cs[0], Available(cs[1..]));
  }

  lemma {:induction false} WeightsAreNotNegative(cs: seq<Component>)
    requires forall c | c in cs :: c.weight >= 0.0
    ensures TotalWeight(Available(cs)) >= 0.0
  {
    if cs != [] {
      WeightsAreNotNegative(cs[1..]);
      assert [] + Available(cs[1..]) == Available(cs[1..]);
      SumsOfCons(cs[0], Available(cs[1..]));
    }
  }

  lemma RawInUnit(i: Inputs)
    ensures 0.0 <= Raw(i) <= 1.0
  {
    RawByCases(i);
    assert 0.0 <= Technical(i) <= 1.0;
  }

  // ---- Range ----

  lemma MultiplyMonotone(a: real, b: real, k: real, l: real)
    requires 0.0 <= a <= b && 0.0 <= k <= l
    ensures 0.0 <= a * k <= b * l
  {
    assert a * k <= b * k && b * k <= b * l;
  }

  lemma ProductInRange(i: Inputs)
    ensures 0.0 <= Product(i) <= 1.3 * ConfidenceMultiplier(i.confidence)
  {
    RawInUnit(i);
    MultiplyMonotone(Raw(i), 1.0, CriticalityMultiplier(i.criticality), 1.3);
    MultiplyMonotone(Raw(i) * CriticalityMultiplier(i.criticality), 1.3,
                     ConfidenceMultiplier(i.confidence), ConfidenceMultiplier(i.confidence));
  }

  /** The score is the nearest integer to a value that is within 0..100 already, so the last clamp never
      acts: the range does not rest on it. */
  lemma ScoreInRange(i: Inputs)
    ensures 0 <= Round(Clamp(Product(i)) * 100.0) <= 100
    ensures Score(i) == Round(Clamp(Product(i)) * 100.0)
  {
    RoundMonotone(0.0, Clamp(Product(i)) * 100.0);
    RoundMonotone(Clamp(Product(i)) * 100.0, 100.0);
    assert Round(0.0) == 0 && Round(100.0) == 100;
  }

  /** Each priority band is a range of the unrounded product. */
  lemma PriorityReadsTheProduct(i: Inputs, band: int)
    requires 0 < band <= 4
    ensures Rank(PriorityFor(Score(i))) >= band <==> Product(i) >= (20 * band) as real / 100.0 - 0.005
  {
    ScoreInRange(i);
    BandsPartitionScores(Score(i));
    RoundReaches(Clamp(Product(i)) * 100.0, 20 * band);
  }

  /** Low confidence keeps every finding out of the critical band, whatever the signals. */
  lemma LowConfidenceIsNeverCritical(i: Inputs)
    requires i.confidence == LowConfidence
    ensures Score(i) <= 78 && Rank(PriorityFor(Score(i))) < 4
  {
    ScoreInRange(i);
    ProductInRange(i);
    RoundMonotone(Clamp(Product(i)) * 100.0, 78.0);
    assert Round(78.0) == 78;
    BandsPartitionScores(Score(i));
  }

  /** The design note's example: CVSS 10, EPSS 0.99999 and a KEV entry, seen with medium confidence. */
  lemma WorkedExample(i: Inputs)
    requires i.cvss == Some(10.0) && i.epss == Some(0.99999) && i.kev == Some(true)
    requires i.confidence == MediumConfidence
    ensures i.criticality == Some(LowAsset) ==> Score(i) == 72 && PriorityFor(Score(i)) == HighPriority
    ensures i.criticality == Some(CriticalAsset) ==> Score(i) == 100 && PriorityFor(Score(i)) == CriticalPriority
  {
    RawByCases(i);
    assert Raw(i) == 0.9999965;
    BandsPartitionScores(72);
    BandsPartitionScores(100);
    if i.criticality == Some(LowAsset) {
      assert Product(i) == 0.9999965 * 0.85 * 0.85;
      assert Score(i) == 72;
    } else if i.criticality == Some(CriticalAsset) {
      assert Product(i) == 0.9999965 * 1.30 * 0.85;
      assert Score(i) == 100;
    }
  }

  /** Exactly when a finding gets the top score. */
  lemma TopScoreIff(i: Inputs)
    ensures Score(i) == 100 <==> Product(i) >= 0.995
  {
    ScoreInRange(i);
    RoundReaches(Clamp(Product(i)) * 100.0, 100);
  }

  /** The top score needs neither EPSS nor the KEV catalogue: with both unknown, a CVSS of 10 seen with
      high confidence reaches it on any asset that is not of low criticality, contrary to the design note. */
  lemma CvssAloneReachesTheTop(i: Inputs)
    requires i.epss == None && i.kev == None && i.confidence == HighConfidence
    requires i.cvss.Some? && i.cvss.value >= 10.0 && i.criticality != Some(LowAsset)
    ensures Score(i) == 100
  {
    RawByCases(i);
    assert Raw(i) == 1.0;
    assert Product(i) == CriticalityMultiplier(i.criticality) * 1.0;
    TopScoreIff(i);
  }

  /** With nothing but its severity known, a finding seen with high confidence scores a fixed number. */
  lemma SeverityAloneScores(i: Inputs)
    requires i.cvss == None && i.epss == None && i.kev == None && i.criticality == None
    requires i.confidence == HighConfidence
    ensures i.severity == Info ==> Score(i) == 0
    ensures i.severity == Low ==> Score(i) == 25
    ensures i.severity == Medium ==> Score(i) == 55
    ensures i.severity == High ==> Score(i) == 80
    ensures i.severity == Critical ==> Score(i) == 95
  {
    RawByCases(i);
    assert Raw(i) == Technical(i);
    assert Product(i) == Technical(i);
    match i.severity
    case Info => WholePercent(0);
    case Low => WholePercent(25);
    case Medium => WholePercent(55);
    case High => WholePercent(80);
    case Critical => WholePercent(95);
  }

  /** A whole percentage is its own score. */
  lemma WholePercent(k: int)
    requires 0 <= k <= 100
    ensures ScoreOf(k as real / 100.0) == k
  {
    var x := k as real / 100.0;
    assert Clamp(x) * 100.0 == k as real;
    RoundIsNearest(k as real);
  }

  /** One of four values; without an asset that of a medium one. */
  function ByCriticality(c: Option<Criticality>, low: int, medium: int, high: int, critical: int): int {
    if c == Some(LowAsset) then low
    else if c == Some(HighAsset) then high
    else if c == Some(CriticalAsset) then critical
    else medium
  }

  /** The two context multipliers, read off the scores of the highest technical signal alone. */
  lemma ContextScores(i: Inputs)
    requires i.cvss.Some? && i.cvss.value >= 10.0 && i.epss == None && i.kev == None
    ensures i.confidence == HighConfidence ==> Score(i) == ByCriticality(i.criticality, 85, 100, 100, 100)
    ensures i.confidence == MediumConfidence ==> Score(i) == ByCriticality(i.criticality, 72, 85, 98, 100)
    ensures i.confidence == LowConfidence ==> Score(i) == ByCriticality(i.criticality, 51, 60, 69, 78)
  {
    RawByCases(i);
    assert Raw(i) == 1.0;
    assert Product(i) == CriticalityMultiplier(i.criticality) * ConfidenceMultiplier(i.confidence);
  }

  /** A signal outside its range counts as the nearer end of the range. */
  lemma SignalsAreLimited(i: Inputs, cvss: real, epss: real)
    ensures cvss < 0.0 ==> Raw(i.(cvss := Some(cvss))) == Raw(i.(cvss := Some(0.0)))
    ensures cvss > 10.0 ==> Raw(i.(cvss := Some(cvss))) == Raw(i.(cvss := Some(10.0)))
    ensures epss < 0.0 ==> Raw(i.(epss := Some(epss))) == Raw(i.(epss := Some(0.0)))
    ensures epss > 1.0 ==> Raw(i.(epss := Some(epss))) == Raw(i.(epss := Some(1.0)))
  {
    RawByCases(i.(cvss := Some(cvss)));
    RawByCases(i.(cvss := Some(0.0)));
    RawByCases(i.(cvss := Some(10.0)));
    RawByCases(i.(epss := Some(epss)));
    RawByCases(i.(epss := Some(0.0)));
    RawByCases(i.(epss := Some(1.0)));
  }

  /** A value rounds below `k` exactly from half a unit below it, that half included if `k` is odd. */
  lemma RoundBelow(x: real, k: int)
    ensures Round(x) < k <==> x < k as real - 0.5 || (x == k as real - 0.5 && k % 2 == 1)
  {
    RoundIsNearest(x);
    if x == k as real - 0.5 {
      assert x.Floor == k - 1;
    }
  }

  /** The product of both multipliers. */
  function Multiplier(i: Inputs): (m: real)
    ensures m > 0.0
  {
    CriticalityMultiplier(i.criticality) * ConfidenceMultiplier(i.confidence)
  }

  /** The raw score from which on the unrounded product reaches half a unit below `k`. */
  function Threshold(i: Inputs, k: int): real {
    (k as real - 0.5) / 100.0 / Multiplier(i)
  }

  lemma ProductAgainst(i: Inputs, k: int)
    ensures Product(i) * 100.0 < k as real - 0.5 <==> Raw(i) < Threshold(i, k)
    ensures Product(i) * 100.0 == k as real - 0.5 <==> Raw(i) == Threshold(i, k)
  {
    var m, c := Multiplier(i), (k as real - 0.5) / 100.0;
    ProductIs(i);
    DivisionOrders(m, c, Raw(i));
  }

  lemma ProductIs(i: Inputs)
    ensures Product(i) == Multiplier(i) * Raw(i)
  {
  }

  /** Exactly when a score is below `k`: measured from the raw score that would just reach `k`, the weighted
      signals pull down, or balance while `k` is odd. */
  lemma ScoreBelowIff(i: Inputs, k: int)
    requires 0 < k <= 100
    ensures
      var pull := Deviation(Components(i), Threshold(i, k));
      Score(i) < k <==> pull < 0.0 || (pull == 0.0 && k % 2 == 1)
  {
    ScoreInRange(i);
    RoundBelow(Clamp(Product(i)) * 100.0, k);
    ProductAgainst(i, k);
    RawIsTheBalancePoint(i, Threshold(i, k));
  }

  // ---- Monotonicity ----

  predicate RealAtMost(a: Option<real>, b: Option<real>) {
    a.Some? == b.Some? && (a.Some? ==> a.value <= b.value)
  }

  predicate BoolAtMost(a: Option<bool>, b: Option<bool>) {
    a.Some? == b.Some? && (a.Some? && a.value ==> b.value)
  }

  function Degree(s: Severity): nat {
    match s
    case Info => 0
    case Low => 1
    case Medium => 2
    case High => 3
    case Critical => 4
  }

  /** A finding without an asset stands where one of medium criticality does. */
  function AssetDegree(c: Option<Criticality>): nat {
    match c
    case None => 1
    case Some(LowAsset) => 0
    case Some(MediumAsset) => 1
    case Some(HighAsset) => 2
    case Some(CriticalAsset) => 3
  }

  function ConfidenceDegree(c: Confidence): nat {
    match c
    case LowConfidence => 0
    case MediumConfidence => 1
    case HighConfidence => 2
  }

  /** Nothing about `a` is worse than about `b`, and the same signals are known. */
  predicate NoWorse(a: Inputs, b: Inputs) {
    Degree(a.severity) <= Degree(b.severity)
    && RealAtMost(a.cvss, b.cvss) && RealAtMost(a.epss, b.epss) && BoolAtMost(a.kev, b.kev)
    && AssetDegree(a.criticality) <= AssetDegree(b.criticality)
    && ConfidenceDegree(a.confidence) <= ConfidenceDegree(b.confidence)
  }

  lemma RawMonotone(a: Inputs, b: Inputs)
    requires NoWorse(a, b)
    ensures Raw(a) <= Raw(b)
  {
    RawByCases(a);
    RawByCases(b);
    assert Technical(a) <= Technical(b);
  }

  lemma ProductDecidesOrder(a: Inputs, b: Inputs)
    requires Product(a) <= Product(b)
    ensures Score(a) <= Score(b) && Rank(PriorityFor(Score(a))) <= Rank(PriorityFor(Score(b)))
  {
    RoundMonotone(Clamp(Product(a)) * 100.0, Clamp(Product(b)) * 100.0);
    BandsPartitionScores(Score(a));
    BandsPartitionScores(Score(b));
  }

  lemma MultipliersFollowDegrees(a: Inputs, b: Inputs)
    ensures AssetDegree(a.criticality) <= AssetDegree(b.criticality) <==>
            CriticalityMultiplier(a.criticality) <= CriticalityMultiplier(b.criticality)
    ensures ConfidenceDegree(a.confidence) <= ConfidenceDegree(b.confidence) <==>
            ConfidenceMultiplier(a.confidence) <= ConfidenceMultiplier(b.confidence)
    ensures CriticalityMultiplier(a.criticality) > 0.0 && ConfidenceMultiplier(a.confidence) > 0.0
  {
  }

  lemma RawDecidesOrder(a: Inputs, b: Inputs)
    requires Raw(a) <= Raw(b) && AssetDegree(a.criticality) <= AssetDegree(b.criticality)
    requires ConfidenceDegree(a.confidence) <= ConfidenceDegree(b.confidence)
    ensures Score(a) <= Score(b) && Rank(PriorityFor(Score(a))) <= Rank(PriorityFor(Score(b)))
  {
    RawInUnit(a);
    MultipliersFollowDegrees(a, b);
    MultiplyMonotone(Raw(a), Raw(b), CriticalityMultiplier(a.criticality), CriticalityMultiplier(b.criticality));
    MultiplyMonotone(Raw(a) * CriticalityMultiplier(a.criticality), Raw(b) * CriticalityMultiplier(b.criticality),
                     ConfidenceMultiplier(a.confidence), ConfidenceMultiplier(b.confidence));
    ProductDecidesOrder(a, b);
  }

  /** The ordering survives the average, the multipliers, the clamp, the rounding and the bands. */
  lemma WorseNeverScoresLower(a: Inputs, b: Inputs)
    requires NoWorse(a, b)
    ensures Score(a) <= Score(b) && Rank(PriorityFor(Score(a))) <= Rank(PriorityFor(Score(b)))
  {
    RawMonotone(a, b);
    RawDecidesOrder(a, b);
  }

  // ---- Learning a missing signal ----

  /** `after` lies between `before` and `value`, strictly inside unless those two are equal. */
  predicate MovesToward(before: real, after: real, value: real) {
    if before < value then before < after < value
    else if before > value then value < after < before
    else after == value
  }

  lemma LearningEpssMovesTowardIt(i: Inputs, epss: real)
    requires i.epss == None
    ensures MovesToward(Raw(i), Raw(i.(epss := Some(epss))), Clamp(epss))
  {
    RawByCases(i);
    RawByCases(i.(epss := Some(epss)));
  }

  lemma LearningKevMovesTowardIt(i: Inputs, kev: bool)
    requires i.kev == None
    ensures MovesToward(Raw(i), Raw(i.(kev := Some(kev))), if kev then 1.0 else 0.0)
  {
    RawByCases(i);
    RawByCases(i.(kev := Some(kev)));
  }

  /** A first catalogue synchronisation never lowers a listed finding and never raises an unlisted one. */
  lemma FirstCatalogueSync(i: Inputs)
    requires i.kev == None
    ensures Score(i.(kev := Some(false))) <= Score(i) <= Score(i.(kev := Some(true)))
  {
    LearningKevMovesTowardIt(i, true);
    LearningKevMovesTowardIt(i, false);
    RawInUnit(i);
    RawDecidesOrder(i, i.(kev := Some(true)));
    RawDecidesOrder(i.(kev := Some(false)), i);
  }

  /** Learning an EPSS value lowers the raw score exactly when it is below what the other signals say. */
  lemma LearningEpssLowersIff(i: Inputs, epss: real)
    requires i.epss == None
    ensures Raw(i.(epss := Some(epss))) < Raw(i) <==> Clamp(epss) < Raw(i)
    ensures Clamp(epss) >= Raw(i) ==> Score(i.(epss := Some(epss))) >= Score(i)
  {
    LearningEpssMovesTowardIt(i, epss);
    if Clamp(epss) >= Raw(i) {
      RawDecidesOrder(i, i.(epss := Some(epss)));
    }
  }
}
