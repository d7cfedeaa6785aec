/** Cross-tool correlation: three fixed rules adding canonical pairs to the relation table. */
module Correlation {
  import opened Options
  import opened Text
  import opened Inventory

  const RULE_NMAP_WHATWEB_PORT := "RULE_NMAP_WHATWEB_PORT"
  const RULE_NMAP_NUCLEI_PORT := "RULE_NMAP_NUCLEI_PORT"
  const RULE_SHARED_TECHNOLOGY := "RULE_SHARED_TECHNOLOGY"
  const MIN_TECHNOLOGY_LENGTH := 3

  /** `sorted((a, b), key=id)`. */
  function CanonicalPair(a: StoredFinding, b: StoredFinding, rule: string): Relation {
    if Less(b.id, a.id) then Relation(b.id, a.id, rule) else Relation(a.id, b.id, rule)
  }

  lemma CanonicalPairSymmetric(a: StoredFinding, b: StoredFinding, rule: string)
    requires a.id != b.id
    ensures CanonicalPair(a, b, rule) == CanonicalPair(b, a, rule)
    ensures Less(CanonicalPair(a, b, rule).left, CanonicalPair(a, b, rule).right)
  {
    LessTotal(a.id, b.id);
    if Less(a.id, b.id) {
      LessAsymmetric(a.id, b.id);
    }
  }

  predicate SamePort(nf: StoredFinding, other: StoredFinding, tool: string) {
    nf.sourceTool == "nmap" && other.sourceTool == tool && OpenPort(nf)
    && other.endpointPort == Field(nf.evidence).port
  }

  predicate SharedTechnology(wf: StoredFinding, other: StoredFinding) {
    wf.sourceTool == "whatweb" && other.sourceTool != "whatweb"
    && Field(wf.evidence).plugin.Some? && |Field(wf.evidence).plugin.value| >= MIN_TECHNOLOGY_LENGTH
    && Contains(Lower(other.title + " " + other.description), Lower(Field(wf.evidence).plugin.value))
  }

  /** The pairs the three rules ask for, stated over the set of findings. */
  ghost predicate Related(findings: seq<StoredFinding>, a: StoredFinding, b: StoredFinding, rule: string) {
    a in findings && b in findings && a.id != b.id &&
    ((rule == RULE_NMAP_WHATWEB_PORT && SamePort(a, b, "whatweb"))
     || (rule == RULE_NMAP_NUCLEI_PORT && SamePort(a, b, "nuclei"))
     || (rule == RULE_SHARED_TECHNOLOGY && SharedTechnology(a, b)))
  }

  ghost predicate Justified(findings: seq<StoredFinding>, r: Relation) {
    exists a, b :: Related(findings, a, b, r.rule) && r == CanonicalPair(a, b, r.rule)
  }

  /** What the three rules ask of an ordered pair. */
  ghost predicate SaysRelated(a: StoredFinding, b: StoredFinding, rule: string) {
    || ((|| (rule == "RULE_NMAP_WHATWEB_PORT" && b.sourceTool == "whatweb")
         || (rule == "RULE_NMAP_NUCLEI_PORT" && b.sourceTool == "nuclei"))
        && a.sourceTool == "nmap" && a.evidence.Some? && a.evidence.value.state == Some("open")
        && a.evidence.value.port.Some? && b.endpointPort == a.evidence.value.port)
    || (rule == "RULE_SHARED_TECHNOLOGY" && a.sourceTool == "whatweb" && b.sourceTool != "whatweb"
        && a.evidence.Some? && a.evidence.value.plugin.Some? && |a.evidence.value.plugin.value| >= 3
        && exists before, after ::
             Lower(b.title + " " + b.description) == before + Lower(a.evidence.value.plugin.value) + after)
  }

  /** A justified relation names two different findings of the list in the order of their ids, one of the rules
      asking for them in either order. */
  lemma JustifiedMeans(findings: seq<StoredFinding>, r: Relation)
    ensures Justified(findings, r) <==>
      Less(r.left, r.right) &&
      exists a, b ::
        a in findings && b in findings && SaysRelated(a, b, r.rule)
        && ((a.id == r.left && b.id == r.right) || (a.id == r.right && b.id == r.left))
  {
    forall a, b
      ensures SaysRelated(a, b, r.rule) && a in findings && b in findings && a.id != b.id <==>
        Related(findings, a, b, r.rule)
    {
      if a.evidence.Some? && a.evidence.value.plugin.Some? {
        ContainsMeans(Lower(b.title + " " + b.description), Lower(a.evidence.value.plugin.value));
      }
    }
    if Justified(findings, r) {
      var a, b :| Related(findings, a, b, r.rule) && r == CanonicalPair(a, b, r.rule);
      CanonicalPairSymmetric(a, b, r.rule);
      assert SaysRelated(a, b, r.rule);
    }
    if Less(r.left, r.right) {
      LessAsymmetric(r.left, r.right);
      forall a, b | Related(findings, a, b, r.rule)
          && ((a.id == r.left && b.id == r.right) || (a.id == r.right && b.id == r.left))
        ensures Justified(findings, r)
      {
      }
    }
  }

  class RelationTable {
    var relations: set<Relation>

    constructor ()
      ensures relations == {}
    {
      relations := {};
    }

    method CreateIfNew(a: StoredFinding, b: StoredFinding, rule: string) returns (created: bool)
      modifies this
      ensures relations == old(relations) + if a.id == b.id then {} else {CanonicalPair(a, b, rule)}
      ensures created <==> a.id != b.id && CanonicalPair(a, b, rule) !in old(relations)
    {
      if a.id == b.id {
        return false;
      }
      var pair := CanonicalPair(a, b, rule);
      if pair in relations {
        return false;
      }
      relations := relations + {pair};
      created := true;
    }

    method CorrelateOpenPortWithTool(findings: seq<StoredFinding>, tool: string, rule: string)
      requires (rule == RULE_NMAP_WHATWEB_PORT && tool == "whatweb")
               || (rule == RULE_NMAP_NUCLEI_PORT && tool == "nuclei")
      modifies this
      ensures old(relations) <= relations
      ensures forall r | r in relations :: r in old(relations) || Justified(findings, r)
      ensures forall a, b | a in findings && b in findings && a.id != b.id && SamePort(a, b, tool) ::
        CanonicalPair(a, b, rule) in relations
    {
      for i := 0 to |findings|
        invariant old(relations) <= relations
        invariant forall r | r in relations :: r in old(relations) || Justified(findings, r)
        invariant forall a, b | a in findings[..i] && b in findings && a.id != b.id && SamePort(a, b, tool) ::
          CanonicalPair(a, b, rule) in relations
      {
        var nf := findings[i];
        if nf.sourceTool == "nmap" && OpenPort(nf) {
          for j := 0 to |findings|
            invariant old(relations) <= relations
            invariant forall r | r in relations :: r in old(relations) || Justified(findings, r)
            invariant forall a, b | a in findings[..i] && b in findings && a.id != b.id && SamePort(a, b, tool) ::
              CanonicalPair(a, b, rule) in relations
            invariant forall b | b in findings[..j] && nf.id != b.id && SamePort(nf, b, tool) ::
              CanonicalPair(nf, b, rule) in relations
          {
            var other := findings[j];
            if other.sourceTool == tool && other.endpointPort == Field(nf.evidence).port {
              assert nf.id != other.id ==> Related(findings, nf, other, rule);
              var _ := CreateIfNew(nf, other, rule);
            }
          }
        }
      }
    }

    method CorrelateSharedTechnology(findings: seq<StoredFinding>)
      modifies this
      ensures old(relations) <= relations
      ensures forall r | r in relations :: r in old(relations) || Justified(findings, r)
      ensures forall a, b | a in findings && b in findings && a.id != b.id && SharedTechnology(a, b) ::
        CanonicalPair(a, b, RULE_SHARED_TECHNOLOGY) in relations
    {
      for i := 0 to |findings|
        invariant old(relations) <= relations
        invariant forall r | r in relations :: r in old(relations) || Justified(findings, r)
        invariant forall a, b | a in findings[..i] && b in findings && a.id != b.id && SharedTechnology(a, b) ::
          CanonicalPair(a, b, RULE_SHARED_TECHNOLOGY) in relations
      {
        var wf := findings[i];
        var plugin := Field(wf.evidence).plugin;
        if wf.sourceTool == "whatweb" && plugin.Some? && |plugin.value| >= MIN_TECHNOLOGY_LENGTH {
          for j := 0 to |findings|
            invariant old(relations) <= relations
            invariant forall r | r in relations :: r in old(relations) || Justified(findings, r)
            invariant forall a, b | a in findings[..i] && b in findings && a.id != b.id && SharedTechnology(a, b) ::
              CanonicalPair(a, b, RULE_SHARED_TECHNOLOGY) in relations
            invariant forall b | b in findings[..j] && wf.id != b.id && SharedTechnology(wf, b) ::
              CanonicalPair(wf, b, RULE_SHARED_TECHNOLOGY) in relations
          {
            var other := findings[j];
            if other.sourceTool != "whatweb"
              && Contains(Lower(other.title + " " + other.description), Lower(plugin.value)) {
              assert wf.id != other.id ==> Related(findings, wf, other, RULE_SHARED_TECHNOLOGY);
              var _ := CreateIfNew(wf, other, RULE_SHARED_TECHNOLOGY);
            }
          }
        }
      }
    }

    /** After a pass the table holds what it held before plus exactly the justified pairs, so a second
        pass adds nothing; canonical tables stay canonical. */
    method CorrelateAssetFindings(findings: seq<StoredFinding>)
      modifies this
      ensures forall r :: r in relations <==> r in old(relations) || Justified(findings, r)
      ensures Canonical(old(relations)) ==> Canonical(relations)
    {
      if |findings| >= 2 {
        CorrelateOpenPortWithTool(findings, "whatweb", RULE_NMAP_WHATWEB_PORT);
        CorrelateOpenPortWithTool(findings, "nuclei", RULE_NMAP_NUCLEI_PORT);
        CorrelateSharedTechnology(findings);
      }
      forall r | Justified(findings, r)
        ensures r in relations && Less(r.left, r.right)
      {
        var a, b :| Related(findings, a, b, r.rule) && r == CanonicalPair(a, b, r.rule);
        CanonicalPairSymmetric(a, b, r.rule);
      }
    }
  }
}
