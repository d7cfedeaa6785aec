/** The stored rows the correlation rules and the graph builder read. */
module Inventory {
  import opened Options
  import opened Text

  /** The evidence fields that matter here; absent keys are None. */
  datatype Evidence = Evidence(
    state: Option<string>, port: Option<int>, protocol: Option<string>, service: Option<string>, plugin: Option<string>)

  /** The columns of a finding that correlation and the graph read. `endpointPort` is what
      `extract_port_protocol` derives for it; `assetId` is the target of the job that produced it. */
  datatype StoredFinding = StoredFinding(
    id: string, assetId: string, sourceTool: string, title: string, description: string,
    evidence: Option<Evidence>, endpointPort: Option<int>, cveIds: seq<string>)

  datatype Asset = Asset(id: string, project: Option<string>, technologies: seq<string>)

  datatype Relation = Relation(left: string, right: string, rule: string)

  datatype Database = Database(assets: seq<Asset>, findings: seq<StoredFinding>, relations: set<Relation>)

  /** What `_create_relation_if_new` leaves behind: smaller id first, never a pair with itself. */
  ghost predicate Canonical(relations: set<Relation>) {
    forall r | r in relations :: Less(r.left, r.right)
  }

  /** Ids are primary keys. */
  ghost predicate DistinctAssets(db: Database) {
    forall a, b | a in db.assets && b in db.assets && a.id == b.id :: a == b
  }

  function AssetFindings(db: Database, assetId: string): seq<StoredFinding> {
    OfAsset(db.findings, assetId)
  }

  function OfAsset(findings: seq<StoredFinding>, assetId: string): seq<StoredFinding> {
    if findings == [] then []
    else (if findings[0].assetId == assetId then [findings[0]] else []) + OfAsset(findings[1..], assetId)
  }

  lemma {:induction false} OfAssetMember(findings: seq<StoredFinding>, assetId: string, f: StoredFinding)
    ensures f in OfAsset(findings, assetId) <==> f in findings && f.assetId == assetId
  {
    if findings != [] {
      OfAssetMember(findings[1..], assetId, f);
    }
  }

  function Field(e: Option<Evidence>): Evidence {
    if e.Some? then e.value else Evidence(None, None, None, None, None)
  }

  /** An open port with a known number. */
  predicate OpenPort(f: StoredFinding) {
    Field(f.evidence).state == Some("open") && Field(f.evidence).port.Some?
  }
}
