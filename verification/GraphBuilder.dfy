/** Building `graph_edges` from the stored findings, technologies and relations. */
module GraphBuilder {
  import opened Options
  import opened Text
  import opened Inventory
  import opened SecurityGraph

  datatype EdgeKey = EdgeKey(source: Node, target: Node, relation: string)

  datatype Payload =
    | NoPayload
    | ServicePayload(port: int, protocol: string, service: Option<string>)
    | RulePayload(rule: string)
    | SharedPayload(technologies: seq<string>)

  /** What one rule says about an edge. */
  datatype Fact = Fact(key: EdgeKey, origin: string, payload: Payload)

  datatype EdgeRow = EdgeRow(id: nat, origin: string, payload: Payload)

  function AssetNode(id: string): Node { Node("ASSET", id) }

  function FindingNode(id: string): Node { Node("FINDING", id) }

  // ---- The rules, one at a time ----

  function HasFinding(a: Asset, f: StoredFinding): Fact {
    Fact(EdgeKey(AssetNode(a.id), FindingNode(f.id), "HAS_FINDING"), "system", NoPayload)
  }

  predicate ExposesService(f: StoredFinding) {
    f.sourceTool in {"nmap", "masscan"} && OpenPort(f)
  }

  function ProtocolOf(e: Evidence): string {
    if e.protocol.Some? && e.protocol.value != "" then e.protocol.value else "tcp"
  }

  function Exposes(a: Asset, f: StoredFinding): Fact
    requires OpenPort(f)
  {
    var e := Field(f.evidence);
    Fact(EdgeKey(AssetNode(a.id), Node("SERVICE", Str(e.port.value) + "/" + ProtocolOf(e)), "EXPOSES"),
         f.sourceTool, ServicePayload(e.port.value, ProtocolOf(e), e.service))
  }

  function ReferencesCve(f: StoredFinding, cve: string): Fact {
    Fact(EdgeKey(FindingNode(f.id), Node("CVE", cve), "REFERENCES_CVE"), f.sourceTool, NoPayload)
  }

  function UsesTechnology(a: Asset, tech: string): Fact {
    Fact(EdgeKey(AssetNode(a.id), Node("TECHNOLOGY", tech), "USES_TECHNOLOGY"), "whatweb", NoPayload)
  }

  function FindingsRelated(r: Relation): Fact {
    Fact(EdgeKey(FindingNode(r.left), FindingNode(r.right), "RELATED_TO"), "phase16_correlation", RulePayload(r.rule))
  }

  predicate Siblings(a: Asset, b: Asset) {
    a.project == b.project && a.id != b.id
  }

  function Common(s: seq<string>, t: seq<string>): seq<string> {
    if s == [] then [] else (if s[0] in t then [s[0]] else []) + Common(s[1..], t)
  }

  lemma {:induction false} CommonMember(s: seq<string>, t: seq<string>, x: string)
    ensures x in Common(s, t) <==> x in s && x in t
  {
    if s != [] {
      CommonMember(s[1..], t, x);
    }
  }

  function Shared(a: Asset, b: Asset): seq<string> {
    SortedUnique(Common(a.technologies, b.technologies))
  }

  function AssetsRelated(a: Asset, b: Asset): Fact {
    var key :=
      if Less(b.id, a.id) then EdgeKey(AssetNode(b.id), AssetNode(a.id), "RELATED_TO")
      else EdgeKey(AssetNode(a.id), AssetNode(b.id), "RELATED_TO");
    Fact(key, "system", SharedPayload(Shared(a, b)))
  }

  /** The Asset-Asset edge does not depend on which of the two assets is being rebuilt. */
  lemma AssetsRelatedSymmetric(a: Asset, b: Asset)
    requires a.id != b.id
    ensures AssetsRelated(a, b) == AssetsRelated(b, a)
    ensures Less(AssetsRelated(a, b).key.source.id, AssetsRelated(a, b).key.target.id)
  {
    LessTotal(a.id, b.id);
    if Less(a.id, b.id) {
      LessAsymmetric(a.id, b.id);
    }
    forall x
      ensures x in Common(a.technologies, b.technologies) <==> x in Common(b.technologies, a.technologies)
    {
      CommonMember(a.technologies, b.technologies, x);
      CommonMember(b.technologies, a.technologies, x);
    }
    SameSetSameListing(Common(a.technologies, b.technologies), Common(b.technologies, a.technologies));
  }

  // ---- The declarative edge set ----

  function FindingFacts(a: Asset, f: StoredFinding): set<Fact> {
    {HasFinding(a, f)} + ServiceFacts(a, f) + CveFacts(f, f.cveIds)
  }

  function ServiceFacts(a: Asset, f: StoredFinding): set<Fact> {
    if ExposesService(f) then {Exposes(a, f)} else {}
  }

  function CveFacts(f: StoredFinding, cves: seq<string>): set<Fact> {
    set cve | cve in cves :: ReferencesCve(f, cve)
  }

  lemma CveFactsGrow(f: StoredFinding, cves: seq<string>, n: nat)
    requires n < |cves|
    ensures CveFacts(f, cves[..n + 1]) == CveFacts(f, cves[..n]) + {ReferencesCve(f, cves[n])}
  {
    assert cves[..n + 1] == cves[..n] + [cves[n]];
  }

  lemma RelationFactsGrow(relations: set<Relation>, r: Relation)
    ensures RelationFacts(relations + {r}) == RelationFacts(relations) + {FindingsRelated(r)}
  {
  }

  lemma TechnologyFactsGrow(a: Asset, technologies: seq<string>, n: nat)
    requires n < |technologies|
    ensures TechnologyFacts(a, technologies[..n + 1])
         == TechnologyFacts(a, technologies[..n]) + {UsesTechnology(a, technologies[n])}
  {
    assert technologies[..n + 1] == technologies[..n] + [technologies[n]];
  }

  ghost function FindingsFacts(a: Asset, findings: seq<StoredFinding>): set<Fact> {
    set f, fact | f in findings && fact in FindingFacts(a, f) :: fact
  }

  ghost function TechnologyFacts(a: Asset, technologies: seq<string>): set<Fact> {
    set tech | tech in technologies :: UsesTechnology(a, tech)
  }

  ghost function RelationFacts(relations: set<Relation>): set<Fact> {
    set r | r in relations :: FindingsRelated(r)
  }

  function Touching(db: Database, findingIds: set<string>): set<Relation> {
    set r | r in db.relations && (r.left in findingIds || r.right in findingIds)
  }

  predicate Linked(a: Asset, b: Asset) {
    Siblings(a, b) && Shared(a, b) != []
  }

  ghost function SiblingFact(a: Asset, b: Asset): set<Fact> {
    if Linked(a, b) then {AssetsRelated(a, b)} else {}
  }

  ghost function SiblingFacts(a: Asset, others: seq<Asset>): set<Fact> {
    set b | b in others && Linked(a, b) :: AssetsRelated(a, b)
  }

  function FindingIds(findings: seq<StoredFinding>): set<string> {
    set f | f in findings :: f.id
  }

  /** Every edge one asset's findings, technologies, relations and siblings justify. */
  ghost function DerivedFacts(db: Database, a: Asset): set<Fact> {
    var findings := AssetFindings(db, a.id);
    FindingsFacts(a, findings) + TechnologyFacts(a, a.technologies)
    + RelationFacts(Touching(db, FindingIds(findings))) + SiblingFacts(a, db.assets)
  }

  ghost function AllDerivedFacts(db: Database, assets: seq<Asset>): set<Fact> {
    set a, fact | a in assets && fact in DerivedFacts(db, a) :: fact
  }

  /** One round of rebuilding: the data stored at the time and the assets rebuilt. */
  datatype Build = Build(db: Database, order: seq<Asset>)

  ghost function HistoryFacts(history: seq<Build>): set<Fact> {
    set b, fact | b in history && fact in AllDerivedFacts(b.db, b.order) :: fact
  }

  ghost predicate CanonicalHistory(history: seq<Build>) {
    forall b | b in history :: Canonical(b.db.relations)
  }

  ghost predicate About(facts: set<Fact>, k: EdgeKey) {
    exists fact | fact in facts :: fact.key == k
  }

  /** The table gained exactly the edges the facts are about, each of which now says what one of them does;
      existing edges keep their id, and their whole row if no fact is about them. */
  ghost predicate Grown(before: map<EdgeKey, EdgeRow>, after: map<EdgeKey, EdgeRow>, facts: set<Fact>) {
    && (forall k :: k in after <==> k in before || About(facts, k))
    && (forall k | k in after && About(facts, k) :: Fact(k, after[k].origin, after[k].payload) in facts)
    && (forall k | k in before && k in after :: after[k].id == before[k].id)
    && (forall k | k in before && k in after && !About(facts, k) :: after[k] == before[k])
  }

  lemma GrownTwice(
    m0: map<EdgeKey, EdgeRow>, m1: map<EdgeKey, EdgeRow>, m2: map<EdgeKey, EdgeRow>,
    facts: set<Fact>, more: set<Fact>)
    requires Grown(m0, m1, facts) && Grown(m1, m2, more)
    ensures Grown(m0, m2, facts + more)
  {
    forall k
      ensures About(facts + more, k) <==> About(facts, k) || About(more, k)
    {
    }
  }

  lemma SiblingFactsGrow(a: Asset, others: seq<Asset>, n: nat)
    requires n < |others|
    ensures SiblingFacts(a, others[..n + 1]) == SiblingFacts(a, others[..n]) + SiblingFact(a, others[n])
  {
    assert others[..n + 1] == others[..n] + [others[n]];
  }

  lemma NothingGrown(rows: map<EdgeKey, EdgeRow>)
    ensures Grown(rows, rows, {})
  {
  }

  lemma OneFact(before: map<EdgeKey, EdgeRow>, after: map<EdgeKey, EdgeRow>, fact: Fact, id: nat)
    requires after == before[fact.key := EdgeRow(id, fact.origin, fact.payload)]
    requires fact.key in before ==> before[fact.key].id == id
    ensures Grown(before, after, {fact})
  {
    assert About({fact}, fact.key);
  }

  class EdgeStore {
    var rows: map<EdgeKey, EdgeRow>
    var nextId: nat

    ghost predicate Valid()
      reads this
    {
      && (forall k | k in rows :: rows[k].id < nextId)
      && (forall k, k' | k in rows && k' in rows && rows[k].id == rows[k'].id :: k == k')
    }

    constructor ()
      ensures Valid() && rows == map[]
    {
      rows := map[];
      nextId := 0;
    }

    /** `INSERT ... ON CONFLICT (key) DO UPDATE`: the id of an existing edge survives. */
    method Upsert(k: EdgeKey, origin: string, payload: Payload)
      requires Valid()
      modifies this
      ensures Valid() && Grown(old(rows), rows, {Fact(k, origin, payload)})
      ensures rows[k] == EdgeRow(if k in old(rows) then old(rows)[k].id else old(nextId), origin, payload)
    {
      if k in rows {
        rows := rows[k := rows[k].(origin := origin, payload := payload)];
      } else {
        rows := rows[k := EdgeRow(nextId, origin, payload)];
      }
      nextId := nextId + 1;
      OneFact(old(rows), rows, Fact(k, origin, payload), rows[k].id);
    }

    method AddFinding(a: Asset, f: StoredFinding)
      requires Valid()
      modifies this
      ensures Valid() && Grown(old(rows), rows, FindingFacts(a, f))
    {
      Upsert(HasFinding(a, f).key, "system", NoPayload);
      ghost var mid := rows;
      AddService(a, f);
      GrownTwice(old(rows), mid, rows, {HasFinding(a, f)}, ServiceFacts(a, f));
      mid := rows;
      AddCves(f);
      GrownTwice(old(rows), mid, rows, {HasFinding(a, f)} + ServiceFacts(a, f), CveFacts(f, f.cveIds));
    }

    method AddService(a: Asset, f: StoredFinding)
      requires Valid()
      modifies this
      ensures Valid() && Grown(old(rows), rows, ServiceFacts(a, f))
    {
      if f.sourceTool in {"nmap", "masscan"} && OpenPort(f) {
        var e := Field(f.evidence);
        Upsert(Exposes(a, f).key, f.sourceTool, ServicePayload(e.port.value, ProtocolOf(e), e.service));
      }
    }

    method AddCves(f: StoredFinding)
      requires Valid()
      modifies this
      ensures Valid() && Grown(old(rows), rows, CveFacts(f, f.cveIds))
    {
      for j := 0 to |f.cveIds|
        invariant Valid() && Grown(old(rows), rows, CveFacts(f, f.cveIds[..j]))
      {
        ghost var mid := rows;
        Upsert(ReferencesCve(f, f.cveIds[j]).key, f.sourceTool, NoPayload);
        GrownTwice(old(rows), mid, rows, CveFacts(f, f.cveIds[..j]), {ReferencesCve(f, f.cveIds[j])});
        CveFactsGrow(f, f.cveIds, j);
      }
      assert f.cveIds[..|f.cveIds|] == f.cveIds;
    }

    method AddFindings(a: Asset, findings: seq<StoredFinding>)
      requires Valid()
      modifies this
      ensures Valid() && Grown(old(rows), rows, FindingsFacts(a, findings))
    {
      for i := 0 to |findings|
        invariant Valid() && Grown(old(rows), rows, FindingsFacts(a, findings[..i]))
      {
        ghost var mid := rows;
        AddFinding(a, findings[i]);
        GrownTwice(old(rows), mid, rows, FindingsFacts(a, findings[..i]), FindingFacts(a, findings[i]));
        assert findings[..i + 1] == findings[..i] + [findings[i]];
        assert FindingsFacts(a, findings[..i + 1]) == FindingsFacts(a, findings[..i]) + FindingFacts(a, findings[i]);
      }
      assert findings[..|findings|] == findings;
    }

    method AddTechnologies(a: Asset)
      requires Valid()
      modifies this
      ensures Valid() && Grown(old(rows), rows, TechnologyFacts(a, a.technologies))
    {
      for i := 0 to |a.technologies|
        invariant Valid() && Grown(old(rows), rows, TechnologyFacts(a, a.technologies[..i]))
      {
        ghost var mid := rows;
        Upsert(UsesTechnology(a, a.technologies[i]).key, "whatweb", NoPayload);
        ghost var fact := UsesTechnology(a, a.technologies[i]);
        GrownTwice(old(rows), mid, rows, TechnologyFacts(a, a.technologies[..i]), {fact});
        TechnologyFactsGrow(a, a.technologies, i);
      }
      assert a.technologies[..|a.technologies|] == a.technologies;
    }

    /** The relation rows come back in no particular order. */
    method AddRelations(relations: set<Relation>)
      requires Valid()
      modifies this
      ensures Valid() && Grown(old(rows), rows, RelationFacts(relations))
    {
      var todo := relations;
      while todo != {}
        invariant todo <= relations
        invariant Valid() && Grown(old(rows), rows, RelationFacts(relations - todo))
        decreases todo
      {
        var r :| r in todo;
        ghost var mid, before := rows, relations - todo;
        Upsert(FindingsRelated(r).key, "phase16_correlation", RulePayload(r.rule));
        todo := todo - {r};
        assert relations - todo == before + {r};
        GrownTwice(old(rows), mid, rows, RelationFacts(before), {FindingsRelated(r)});
        RelationFactsGrow(before, r);
      }
      assert relations - todo == relations;
    }

    method AddSibling(a: Asset, b: Asset)
      requires Valid()
      modifies this
      ensures Valid() && Grown(old(rows), rows, SiblingFact(a, b))
    {
      NothingGrown(rows);
      if Siblings(a, b) {
        var shared := Shared(a, b);
        if shared != [] {
          Upsert(AssetsRelated(a, b).key, "system", SharedPayload(shared));
        }
      }
    }

    method AddSiblings(db: Database, a: Asset)
      requires Valid()
      modifies this
      ensures Valid() && Grown(old(rows), rows, SiblingFacts(a, db.assets))
    {
      NothingGrown(rows);
      if a.technologies == [] {
        NoTechnologyNoSibling(a, db.assets);
        return;
      }
      for i := 0 to |db.assets|
        invariant Valid() && Grown(old(rows), rows, SiblingFacts(a, db.assets[..i]))
      {
        ghost var mid := rows;
        AddSibling(a, db.assets[i]);
        GrownTwice(old(rows), mid, rows, SiblingFacts(a, db.assets[..i]), SiblingFact(a, db.assets[i]));
        SiblingFactsGrow(a, db.assets, i);
      }
      assert db.assets[..|db.assets|] == db.assets;
    }

    method AddRelationsOf(db: Database, findings: seq<StoredFinding>)
      requires Valid()
      modifies this
      ensures Valid() && Grown(old(rows), rows, RelationFacts(Touching(db, FindingIds(findings))))
    {
      NothingGrown(rows);
      var findingIds := FindingIds(findings);
      if findingIds != {} {
        AddRelations(Touching(db, findingIds));
      }
    }

    /** `build_graph_for_asset`. */
    method BuildForAsset(db: Database, a: Asset)
      requires Valid()
      modifies this
      ensures Valid() && Grown(old(rows), rows, DerivedFacts(db, a))
    {
      var findings := AssetFindings(db, a.id);
      AddFindings(a, findings);
      ghost var m1 := rows;
      AddTechnologies(a);
      ghost var m2 := rows;
      AddRelationsOf(db, findings);
      ghost var m3 := rows;
      AddSiblings(db, a);
      GrownTwice(old(rows), m1, m2, FindingsFacts(a, findings), TechnologyFacts(a, a.technologies));
      ghost var facts := FindingsFacts(a, findings) + TechnologyFacts(a, a.technologies);
      GrownTwice(old(rows), m2, m3, facts, RelationFacts(Touching(db, FindingIds(findings))));
      facts := facts + RelationFacts(Touching(db, FindingIds(findings)));
      GrownTwice(old(rows), m3, rows, facts, SiblingFacts(a, db.assets));
    }

    /** `rebuild_graph` over any list of assets, in any order and with any repetition. */
    method Rebuild(db: Database, order: seq<Asset>)
      requires Valid()
      modifies this
      ensures Valid() && Grown(old(rows), rows, AllDerivedFacts(db, order))
    {
      for i := 0 to |order|
        invariant Valid() && Grown(old(rows), rows, AllDerivedFacts(db, order[..i]))
      {
        ghost var mid := rows;
        BuildForAsset(db, order[i]);
        GrownTwice(old(rows), mid, rows, AllDerivedFacts(db, order[..i]), DerivedFacts(db, order[i]));
        AllDerivedFactsGrow(db, order, i);
      }
      assert order[..|order|] == order;
    }

    /** The table over time: rebuilds of some assets, each over the data stored at that moment. */
    method RebuildOverTime(history: seq<Build>)
      requires Valid()
      modifies this
      ensures Valid() && Grown(old(rows), rows, HistoryFacts(history))
    {
      for i := 0 to |history|
        invariant Valid() && Grown(old(rows), rows, HistoryFacts(history[..i]))
      {
        ghost var mid := rows;
        Rebuild(history[i].db, history[i].order);
        GrownTwice(old(rows), mid, rows, HistoryFacts(history[..i]), AllDerivedFacts(history[i].db, history[i].order));
        HistoryFactsGrow(history, i);
      }
      assert history[..|history|] == history;
    }
  }

  lemma HistoryFactsGrow(history: seq<Build>, n: nat)
    requires n < |history|
    ensures HistoryFacts(history[..n + 1])
         == HistoryFacts(history[..n]) + AllDerivedFacts(history[n].db, history[n].order)
  {
    assert history[..n + 1] == history[..n] + [history[n]];
  }

  lemma NoTechnologyNoSibling(a: Asset, others: seq<Asset>)
    requires a.technologies == []
    ensures SiblingFacts(a, others) == {}
  {
    assert forall b: Asset :: Common(a.technologies, b.technologies) == [];
  }

  lemma AllDerivedFactsGrow(db: Database, order: seq<Asset>, n: nat)
    requires n < |order|
    ensures AllDerivedFacts(db, order[..n + 1]) == AllDerivedFacts(db, order[..n]) + DerivedFacts(db, order[n])
  {
    assert order[..n + 1] == order[..n] + [order[n]];
  }

  // ---- What the built table is like ----

  /** What the edge between two assets says is settled by its key: either asset's rebuild writes the same. */
  lemma AssetEdgeSaysOneThing(db: Database, order: seq<Asset>, x: Fact, y: Fact)
    requires DistinctAssets(db) && forall a | a in order :: a in db.assets
    requires x in AllDerivedFacts(db, order) && y in AllDerivedFacts(db, order) && x.key == y.key
    requires x.key.source.kind == "ASSET" && x.key.target.kind == "ASSET"
    ensures x == y
  {
    var a, b := AssetFactFrom(db, order, x);
    var c, d := AssetFactFrom(db, order, y);
    assert (a.id == c.id && b.id == d.id) || (a.id == d.id && b.id == c.id);
    AssetsRelatedSymmetric(a, b);
  }

  lemma AssetFactFrom(db: Database, order: seq<Asset>, x: Fact) returns (a: Asset, b: Asset)
    requires x in AllDerivedFacts(db, order)
    requires x.key.source.kind == "ASSET" && x.key.target.kind == "ASSET"
    ensures a in order && b in db.assets && a.id != b.id && x == AssetsRelated(a, b)
  {
    a :| a in order && x in DerivedFacts(db, a);
    assert x in SiblingFacts(a, db.assets);
    b :| b in db.assets && Linked(a, b) && x == AssetsRelated(a, b);
  }

  lemma SameAssetsSameFacts(db: Database, order: seq<Asset>, other: seq<Asset>)
    requires forall a :: a in order <==> a in other
    ensures AllDerivedFacts(db, order) == AllDerivedFacts(db, other)
  {
    forall fact
      ensures fact in AllDerivedFacts(db, order) <==> fact in AllDerivedFacts(db, other)
    {
    }
  }

  /** Two rebuilds of the same assets over the same table, in any orders and with any repetition, leave the
      same edges; edges that were there before have the same id in both tables and, if no fact is about them,
      the same row; and an edge between two assets says the same in both. */
  lemma OrderDoesNotMatter(
    db: Database, order: seq<Asset>, other: seq<Asset>,
    before: map<EdgeKey, EdgeRow>, m1: map<EdgeKey, EdgeRow>, m2: map<EdgeKey, EdgeRow>)
    requires DistinctAssets(db) && (forall a | a in order :: a in db.assets)
    requires forall a :: a in order <==> a in other
    requires Grown(before, m1, AllDerivedFacts(db, order)) && Grown(before, m2, AllDerivedFacts(db, other))
    ensures m1.Keys == m2.Keys
    ensures forall k | k in before ::
      m1[k].id == m2[k].id && (About(AllDerivedFacts(db, order), k) || m1[k] == m2[k])
    ensures forall k | About(AllDerivedFacts(db, order), k) && k.source.kind == "ASSET" && k.target.kind == "ASSET" ::
      m1[k].origin == m2[k].origin && m1[k].payload == m2[k].payload
  {
    SameAssetsSameFacts(db, order, other);
    forall k | About(AllDerivedFacts(db, order), k) && k.source.kind == "ASSET" && k.target.kind == "ASSET"
      ensures k in m1 && k in m2 && m1[k].origin == m2[k].origin && m1[k].payload == m2[k].payload
    {
      AssetEdgeSaysOneThing(db, order, Fact(k, m1[k].origin, m1[k].payload), Fact(k, m2[k].origin, m2[k].payload));
    }
  }

  /** Edges between nodes of one kind run from the smaller id to the larger one. */
  ghost predicate Oriented(k: EdgeKey) {
    if k.source.kind == k.target.kind then Less(k.source.id, k.target.id)
    else k.source.kind in {"ASSET", "FINDING"} && k.target.kind in {"FINDING", "SERVICE", "CVE", "TECHNOLOGY"}
  }

  ghost predicate WellOriented(k: EdgeKey) {
    && Oriented(k) && ':' !in k.source.kind && ':' !in k.target.kind
    && (k.source.kind == k.target.kind ==> k.source.kind in {"ASSET", "FINDING"} && k.relation == "RELATED_TO")
  }

  lemma FindingFactsOriented(a: Asset, f: StoredFinding, fact: Fact)
    requires fact in FindingFacts(a, f)
    ensures WellOriented(fact.key)
  {
  }

  lemma DerivedFactsOriented(db: Database, a: Asset, fact: Fact)
    requires Canonical(db.relations) && fact in DerivedFacts(db, a)
    ensures WellOriented(fact.key)
  {
    var findings := AssetFindings(db, a.id);
    if fact in FindingsFacts(a, findings) {
      var f :| f in findings && fact in FindingFacts(a, f);
      FindingFactsOriented(a, f, fact);
    } else if fact in TechnologyFacts(a, a.technologies) {
    } else if fact in RelationFacts(Touching(db, FindingIds(findings))) {
      var r :| r in Touching(db, FindingIds(findings)) && fact == FindingsRelated(r);
    } else {
      var b :| b in db.assets && Linked(a, b) && fact == AssetsRelated(a, b);
      AssetsRelatedSymmetric(a, b);
    }
  }

  /** Built from an empty table over any history of the data, no edge is a self-loop, and a pair of assets or
      of findings is never stored in both directions. */
  lemma BuiltEdgesAreOriented(history: seq<Build>, k: EdgeKey)
    requires CanonicalHistory(history) && About(HistoryFacts(history), k)
    ensures WellOriented(k) && k.source != k.target
    ensures forall k' | About(HistoryFacts(history), k') :: !(k'.source == k.target && k'.target == k.source)
  {
    KeyIsOriented(history, k);
    if k.source.kind == k.target.kind {
      LessAsymmetric(k.source.id, k.target.id);
    }
    forall k' | About(HistoryFacts(history), k')
      ensures !(k'.source == k.target && k'.target == k.source)
    {
      KeyIsOriented(history, k');
    }
  }

  lemma KeyIsOriented(history: seq<Build>, k: EdgeKey)
    requires CanonicalHistory(history) && About(HistoryFacts(history), k)
    ensures WellOriented(k)
  {
    var fact :| fact in HistoryFacts(history) && fact.key == k;
    var b :| b in history && fact in AllDerivedFacts(b.db, b.order);
    var a :| a in b.order && fact in DerivedFacts(b.db, a);
    DerivedFactsOriented(b.db, a, fact);
  }

  /** A scan of the stored rows, in any order. */
  ghost predicate Scan(t: EdgeTable, rows: map<EdgeKey, EdgeRow>) {
    && PrimaryKey(t)
    && (forall e | e in t :: exists k :: k in rows && e == Edge(rows[k].id, k.source, k.target))
    && (forall k | k in rows :: Edge(rows[k].id, k.source, k.target) in t)
  }

  /** So the hypotheses of the traversal theorems hold of every table built from scratch, over time. */
  lemma BuiltTableIsTraversable(history: seq<Build>, rows: map<EdgeKey, EdgeRow>, t: EdgeTable)
    requires CanonicalHistory(history) && Grown(map[], rows, HistoryFacts(history)) && Scan(t, rows)
    ensures PrimaryKey(t) && ColonFreeKinds(t) && forall n :: !LoopAt(t, n)
  {
    forall e | e in t
      ensures ':' !in e.source.kind && ':' !in e.target.kind && e.source != e.target
    {
      var k :| k in rows && e == Edge(rows[k].id, k.source, k.target);
      assert About(HistoryFacts(history), k);
      BuiltEdgesAreOriented(history, k);
    }
  }
}
