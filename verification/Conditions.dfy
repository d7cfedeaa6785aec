/** The three gating conditions of a chain step, read off the previous step's parsed result. */
module Conditions {
  import opened Options
  import opened Text

  datatype PortObservation = PortObservation(state: Option<string>, port: Option<int>)

  /** The parts of a tool result a condition looks at. */
  datatype ToolResult = ToolResult(
    hosts: seq<seq<PortObservation>>, technologies: set<string>, severities: seq<string>)

  datatype ConditionType = Always | PortOpen | TechnologyDetected | MinSeverity

  datatype Condition = Condition(kind: ConditionType, ports: set<int>, minSeverity: string)

  function SeverityRank(s: string): Option<nat> {
    var l := Lower(s);
    if l == "info" then Some(0)
    else if l == "low" then Some(1)
    else if l == "medium" then Some(2)
    else if l == "high" then Some(3)
    else if l == "critical" then Some(4)
    else None
  }

  predicate WantedOpen(p: PortObservation, wanted: set<int>) {
    p.state == Some("open") && p.port.Some? && p.port.value in wanted
  }

  predicate SomePortOpen(r: ToolResult, wanted: set<int>) {
    exists h, p | h in r.hosts && p in h :: WantedOpen(p, wanted)
  }

  predicate AtLeast(severity: string, threshold: string) {
    SeverityRank(severity).Some? && SeverityRank(threshold).Some?
    && SeverityRank(severity).value >= SeverityRank(threshold).value
  }

  predicate SeverityReached(r: ToolResult, threshold: string) {
    exists s | s in r.severities :: AtLeast(s, threshold)
  }

  /** What a condition means; an absent result meets only the unconditional one. */
  predicate Holds(c: Condition, previous: Option<ToolResult>) {
    c.kind == Always ||
    (previous.Some? &&
     match c.kind
     case Always => true
     case PortOpen => SomePortOpen(previous.value, c.ports)
     case TechnologyDetected => previous.value.technologies != {}
     case MinSeverity => SeverityReached(previous.value, c.minSeverity))
  }

  method FindOpenPort(r: ToolResult, wanted: set<int>) returns (found: bool)
    ensures found <==> SomePortOpen(r, wanted)
  {
    if wanted == {} {
      return false;
    }
    for i := 0 to |r.hosts|
      invariant forall h, p | h in r.hosts[..i] && p in h :: !WantedOpen(p, wanted)
    {
      for j := 0 to |r.hosts[i]|
        invariant forall p | p in r.hosts[i][..j] :: !WantedOpen(p, wanted)
      {
        if WantedOpen(r.hosts[i][j], wanted) {
          assert r.hosts[i] in r.hosts && r.hosts[i][j] in r.hosts[i];
          return true;
        }
      }
    }
    found := false;
  }

  method FindSeverity(r: ToolResult, threshold: string) returns (found: bool)
    ensures found <==> SeverityReached(r, threshold)
  {
    if SeverityRank(threshold).None? {
      return false;
    }
    for i := 0 to |r.severities|
      invariant forall s | s in r.severities[..i] :: !AtLeast(s, threshold)
    {
      if AtLeast(r.severities[i], threshold) {
        return true;
      }
    }
    found := false;
  }

  /** `evaluate_condition`. */
  method Evaluate(c: Condition, previous: Option<ToolResult>) returns (met: bool)
    ensures met <==> Holds(c, previous)
  {
    if c.kind == Always {
      return true;
    }
    if previous.None? {
      return false;
    }
    match c.kind {
      case Always => met := true;
      case PortOpen => met := FindOpenPort(previous.value, c.ports);
      case TechnologyDetected => met := |previous.value.technologies| > 0;
      case MinSeverity => met := FindSeverity(previous.value, c.minSeverity);
    }
  }

  /** The five severities in ascending order, in any case; no other text is one. */
  lemma SeveritiesInOrder(s: string, t: string)
    ensures SeverityRank(s).Some? <==> Lower(s) in {"info", "low", "medium", "high", "critical"}
    ensures AtLeast(s, t) <==>
      || (Lower(t) == "info" && Lower(s) in {"info", "low", "medium", "high", "critical"})
      || (Lower(t) == "low" && Lower(s) in {"low", "medium", "high", "critical"})
      || (Lower(t) == "medium" && Lower(s) in {"medium", "high", "critical"})
      || (Lower(t) == "high" && Lower(s) in {"high", "critical"})
      || (Lower(t) == "critical" && Lower(s) == "critical")
  {
  }

  /** Some host reports one of the wanted ports with the state `open`. */
  ghost predicate ReportsOpenPort(r: ToolResult, wanted: set<int>) {
    exists h, p :: h in r.hosts && p in h && p.state == Some("open") && p.port.Some? && p.port.value in wanted
  }

  /** Each kind of condition in turn; without a result only the first is met. */
  lemma ConditionsMean(c: Condition, previous: Option<ToolResult>)
    ensures c.kind == Always ==> Holds(c, previous)
    ensures c.kind != Always && previous == None ==> !Holds(c, previous)
    ensures c.kind == PortOpen && previous.Some? ==>
      (Holds(c, previous) <==> ReportsOpenPort(previous.value, c.ports))
    ensures c.kind == TechnologyDetected && previous.Some? ==>
      (Holds(c, previous) <==> exists tech :: tech in previous.value.technologies)
    ensures c.kind == MinSeverity && previous.Some? ==>
      (Holds(c, previous) <==> exists s | s in previous.value.severities :: AtLeast(s, c.minSeverity))
  {
    if c.kind == PortOpen && previous.Some? {
      forall p: PortObservation
        ensures WantedOpen(p, c.ports) <==> p.state == Some("open") && p.port.Some? && p.port.value in c.ports
      {
      }
    }
  }
}
