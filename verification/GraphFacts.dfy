/** The edges the builder derives, relation by relation, with node types, ids, sources and payloads written
    out. */
module GraphFacts {
  import opened Options
  import opened Text
  import opened Inventory
  import opened SecurityGraph
  import opened GraphBuilder

  /** An asset has each of its findings. */
  ghost predicate SaysHasFinding(db: Database, a: Asset, x: Fact) {
    exists f | f in db.findings :: f.assetId == a.id
      && x == Fact(EdgeKey(Node("ASSET", a.id), Node("FINDING", f.id), "HAS_FINDING"), "system", NoPayload)
  }

  /** It exposes each service a port scan found open: `port/protocol`, tcp if the protocol is not given. */
  ghost predicate SaysExposes(db: Database, a: Asset, x: Fact) {
    exists f | f in db.findings :: f.assetId == a.id && ExposedBy(a, f, x)
  }

  ghost predicate ExposedBy(a: Asset, f: StoredFinding, x: Fact) {
    && (f.sourceTool == "nmap" || f.sourceTool == "masscan")
    && f.evidence.Some? && f.evidence.value.state == Some("open") && f.evidence.value.port.Some?
    && var port, given := f.evidence.value.port.value, f.evidence.value.protocol;
       var protocol := if given == None || given == Some("") then "tcp" else given.value;
       x == Fact(EdgeKey(Node("ASSET", a.id), Node("SERVICE", Str(port) + "/" + protocol), "EXPOSES"),
                 f.sourceTool, ServicePayload(port, protocol, f.evidence.value.service))
  }

  /** A finding references each of its CVEs. */
  ghost predicate SaysReferencesCve(db: Database, a: Asset, x: Fact) {
    exists f, c | f in db.findings && c in f.cveIds :: f.assetId == a.id
      && x == Fact(EdgeKey(Node("FINDING", f.id), Node("CVE", c), "REFERENCES_CVE"), f.sourceTool, NoPayload)
  }

  /** An asset uses each technology observed on it. */
  ghost predicate SaysUsesTechnology(db: Database, a: Asset, x: Fact) {
    exists tech | tech in a.technologies ::
      x == Fact(EdgeKey(Node("ASSET", a.id), Node("TECHNOLOGY", tech), "USES_TECHNOLOGY"), "whatweb", NoPayload)
  }

  /** Two findings are related where correlation has stored so and the asset has one of them. */
  ghost predicate SaysFindingsRelated(db: Database, a: Asset, x: Fact) {
    exists r, f | r in db.relations && f in db.findings :: f.assetId == a.id && (r.left == f.id || r.right == f.id)
      && x == Fact(EdgeKey(Node("FINDING", r.left), Node("FINDING", r.right), "RELATED_TO"), "phase16_correlation",
                   RulePayload(r.rule))
  }

  /** Two assets of one project are related, smaller id first, if they share a technology; the edge lists what
      they share, sorted. */
  ghost predicate SaysAssetsRelated(db: Database, a: Asset, x: Fact) {
    exists b, shared | b in db.assets :: SharedBetween(a, b, shared)
      && x == Fact(if Less(b.id, a.id) then EdgeKey(Node("ASSET", b.id), Node("ASSET", a.id), "RELATED_TO")
                   else EdgeKey(Node("ASSET", a.id), Node("ASSET", b.id), "RELATED_TO"),
                   "system", SharedPayload(shared))
  }

  ghost predicate SharedBetween(a: Asset, b: Asset, shared: seq<string>) {
    && b.project == a.project && b.id != a.id && shared != [] && Ascending(shared)
    && (forall tech :: tech in shared <==> tech in a.technologies && tech in b.technologies)
  }

  // ---- The builder's facts are these ----

  lemma FindingFactsRead(a: Asset, f: StoredFinding, x: Fact)
    ensures x in FindingFacts(a, f) <==>
      || x == Fact(EdgeKey(Node("ASSET", a.id), Node("FINDING", f.id), "HAS_FINDING"), "system", NoPayload)
      || ExposedBy(a, f, x)
      || exists c | c in f.cveIds ::
           x == Fact(EdgeKey(Node("FINDING", f.id), Node("CVE", c), "REFERENCES_CVE"), f.sourceTool, NoPayload)
  {
  }

  lemma FindingsFactsRead(db: Database, a: Asset, x: Fact)
    ensures x in FindingsFacts(a, AssetFindings(db, a.id)) <==>
      SaysHasFinding(db, a, x) || SaysExposes(db, a, x) || SaysReferencesCve(db, a, x)
  {
    forall f
      ensures f in AssetFindings(db, a.id) <==> f in db.findings && f.assetId == a.id
      ensures x in FindingFacts(a, f) <==>
        || x == Fact(EdgeKey(Node("ASSET", a.id), Node("FINDING", f.id), "HAS_FINDING"), "system", NoPayload)
        || ExposedBy(a, f, x)
        || exists c | c in f.cveIds ::
             x == Fact(EdgeKey(Node("FINDING", f.id), Node("CVE", c), "REFERENCES_CVE"), f.sourceTool, NoPayload)
    {
      OfAssetMember(db.findings, a.id, f);
      FindingFactsRead(a, f, x);
    }
  }

  lemma RelationFactsRead(db: Database, a: Asset, x: Fact)
    ensures x in RelationFacts(Touching(db, FindingIds(AssetFindings(db, a.id)))) <==> SaysFindingsRelated(db, a, x)
  {
    forall f
      ensures f in AssetFindings(db, a.id) <==> f in db.findings && f.assetId == a.id
    {
      OfAssetMember(db.findings, a.id, f);
    }
    var ids := FindingIds(AssetFindings(db, a.id));
    if x in RelationFacts(Touching(db, ids)) {
      var r :| r in Touching(db, ids) && x == FindingsRelated(r);
      var id := if r.left in ids then r.left else r.right;
      var f :| f in AssetFindings(db, a.id) && f.id == id;
      assert f in db.findings;
    }
    if SaysFindingsRelated(db, a, x) {
      var r, f :| r in db.relations && f in db.findings && f.assetId == a.id && (r.left == f.id || r.right == f.id)
        && x == FindingsRelated(r);
      assert f in AssetFindings(db, a.id) && f.id in ids;
      assert r in Touching(db, ids);
    }
  }

  lemma SharedIs(a: Asset, b: Asset, shared: seq<string>)
    ensures SharedBetween(a, b, shared) <==> Linked(a, b) && shared == Shared(a, b)
  {
    var common := Common(a.technologies, b.technologies);
    SortedUniqueSorts(common);
    forall tech
      ensures tech in Shared(a, b) <==> tech in a.technologies && tech in b.technologies
    {
      CommonMember(a.technologies, b.technologies, tech);
    }
    if SharedBetween(a, b, shared) {
      AscendingIsCanonical(shared, Shared(a, b));
    }
  }

  lemma SiblingFactsRead(db: Database, a: Asset, x: Fact)
    ensures x in SiblingFacts(a, db.assets) <==> SaysAssetsRelated(db, a, x)
  {
    forall b, shared
      ensures SharedBetween(a, b, shared) <==> Linked(a, b) && shared == Shared(a, b)
    {
      SharedIs(a, b, shared);
    }
    if x in SiblingFacts(a, db.assets) {
      var b :| b in db.assets && Linked(a, b) && x == AssetsRelated(a, b);
      assert SharedBetween(a, b, Shared(a, b));
    }
  }

  /** What an asset's rebuild writes, and nothing else. */
  lemma DerivedFactsAre(db: Database, a: Asset, x: Fact)
    ensures x in DerivedFacts(db, a) <==>
      || SaysHasFinding(db, a, x) || SaysExposes(db, a, x) || SaysReferencesCve(db, a, x)
      || SaysUsesTechnology(db, a, x) || SaysFindingsRelated(db, a, x) || SaysAssetsRelated(db, a, x)
  {
    FindingsFactsRead(db, a, x);
    RelationFactsRead(db, a, x);
    SiblingFactsRead(db, a, x);
  }

  /** Relation by relation: what an edge with that label says. */
  lemma EachRelationIs(db: Database, a: Asset, x: Fact)
    requires x in DerivedFacts(db, a)
    ensures x.key.relation == "HAS_FINDING" <==> SaysHasFinding(db, a, x)
    ensures x.key.relation == "EXPOSES" <==> SaysExposes(db, a, x)
    ensures x.key.relation == "REFERENCES_CVE" <==> SaysReferencesCve(db, a, x)
    ensures x.key.relation == "USES_TECHNOLOGY" <==> SaysUsesTechnology(db, a, x)
    ensures x.key.relation == "RELATED_TO" && x.key.source.kind == "FINDING" <==> SaysFindingsRelated(db, a, x)
    ensures x.key.relation == "RELATED_TO" && x.key.source.kind == "ASSET" <==> SaysAssetsRelated(db, a, x)
  {
    DerivedFactsAre(db, a, x);
    RelationsTellApart(db, a, x);
  }

  lemma RelationsTellApart(db: Database, a: Asset, x: Fact)
    ensures SaysHasFinding(db, a, x) ==> x.key.relation == "HAS_FINDING"
    ensures SaysExposes(db, a, x) ==> x.key.relation == "EXPOSES"
    ensures SaysReferencesCve(db, a, x) ==> x.key.relation == "REFERENCES_CVE"
    ensures SaysUsesTechnology(db, a, x) ==> x.key.relation == "USES_TECHNOLOGY"
    ensures SaysFindingsRelated(db, a, x) ==> x.key.relation == "RELATED_TO" && x.key.source.kind == "FINDING"
    ensures SaysAssetsRelated(db, a, x) ==> x.key.relation == "RELATED_TO" && x.key.source.kind == "ASSET"
  {
    assert "HAS_FINDING"[0] == 'H' && "EXPOSES"[0] == 'E' && "USES_TECHNOLOGY"[0] == 'U';
    assert "REFERENCES_CVE"[0] == 'R' && "REFERENCES_CVE"[2] == 'F';
    assert "RELATED_TO"[0] == 'R' && "RELATED_TO"[2] == 'L' && "FINDING"[0] == 'F' && "ASSET"[0] == 'A';
  }

  /** The table after a rebuild has an edge with that label exactly where it had one before or one of these
      facts says so. */
  lemma RebuiltEdgesAre(
    db: Database, a: Asset, before: map<EdgeKey, EdgeRow>, after: map<EdgeKey, EdgeRow>, k: EdgeKey)
    requires Grown(before, after, DerivedFacts(db, a))
    ensures k in after <==>
      || k in before
      || exists x: Fact :: x.key == k
           && (|| SaysHasFinding(db, a, x) || SaysExposes(db, a, x) || SaysReferencesCve(db, a, x)
               || SaysUsesTechnology(db, a, x) || SaysFindingsRelated(db, a, x) || SaysAssetsRelated(db, a, x))
  {
    forall x {
      DerivedFactsAre(db, a, x);
    }
  }
}
