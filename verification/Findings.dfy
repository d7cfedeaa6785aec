/** Deduplication: one row per signature, into which every further observation is merged. */
module Findings {
  import opened Options
  import opened Text
  import Signature
  import Titles
  import opened Lifecycle

  /** One finding as an extractor reports it for one job; empty strings stand for missing texts. */
  datatype Observation = Observation(
    asset: Option<string>, jobId: string, tool: string, title: string, port: Option<int>, protocol: Option<string>,
    rawCveIds: seq<string>, description: string, recommendation: string, evidence: string, at: int)

  datatype Finding = Finding(
    signature: Option<string>, cveIds: seq<string>, firstSeen: int, lastSeen: int, count: nat,
    tools: seq<string>, jobIds: seq<string>, description: string, recommendation: string, evidence: string,
    record: Record)

  function NonEmpty(s: seq<string>): seq<string> {
    if s == [] then [] else (if s[0] != "" then [s[0]] else []) + NonEmpty(s[1..])
  }

  /** `sorted({c.upper() for c in ... if c})`. */
  function Cves(o: Observation): seq<string> {
    Signature.Canonical(NonEmpty(o.rawCveIds))
  }

  function SignatureOf(o: Observation): Option<string> {
    Signature.Key(o.asset, Cves(o), Titles.NormalizeTitle(Lower, o.title), o.port, o.protocol)
  }

  /** `_build_finding`. */
  function Build(o: Observation): Finding {
    Finding(SignatureOf(o), Cves(o), o.at, o.at, 1, [o.tool], [o.jobId], o.description, o.recommendation, o.evidence,
            Record(New, []))
  }

  function AddNew(s: seq<string>, x: string): seq<string> {
    if x in s then s else s + [x]
  }

  /** `_merge_observation`. */
  function Merge(f: Finding, o: Observation): Finding {
    Finding(
      f.signature,
      SortedUnique(f.cveIds + Cves(o)),
      if o.at < f.firstSeen then o.at else f.firstSeen,
      if o.at > f.lastSeen then o.at else f.lastSeen,
      f.count + 1,
      AddNew(f.tools, o.tool),
      AddNew(f.jobIds, o.jobId),
      if o.description != "" then o.description else f.description,
      if o.recommendation != "" then o.recommendation else f.recommendation,
      if o.evidence != "" then o.evidence else f.evidence,
      AutoReopen(f.record))
  }

  /** The row that a non-empty series of observations of one signature produces. */
  function Fold(obs: seq<Observation>): Finding
    requires obs != []
  {
    if |obs| == 1 then Build(obs[0]) else Merge(Fold(obs[..|obs| - 1]), obs[|obs| - 1])
  }

  // ---- The table ----

  function IndexOf(rows: seq<Finding>, signature: string): (i: nat)
    ensures i <= |rows| && (i < |rows| ==> rows[i].signature == Some(signature))
    ensures forall k | 0 <= k < i :: rows[k].signature != Some(signature)
  {
    if rows == [] then 0
    else if rows[0].signature == Some(signature) then 0
    else 1 + IndexOf(rows[1..], signature)
  }

  function Upserted(rows: seq<Finding>, o: Observation): seq<Finding> {
    match SignatureOf(o)
    case None => rows + [Build(o)]
    case Some(s) =>
      var i := IndexOf(rows, s);
      if i < |rows| then rows[i := Merge(rows[i], o)] else rows + [Build(o)]
  }

  /** A status request by a person for row `i`. */
  function StatusChanged(rows: seq<Finding>, i: nat, to: Status): seq<Finding> {
    if i >= |rows| then rows
    else
      match Transition(rows[i].record, to, Manual)
      case Some(r) => rows[i := rows[i].(record := r)]
      case None => rows
  }

  /** The partial unique index on `signature`. */
  ghost predicate Unique(rows: seq<Finding>) {
    forall i, j | 0 <= i < j < |rows| && rows[i].signature.Some? :: rows[i].signature != rows[j].signature
  }

  /** A loaded row, updated in place. */
  class FindingRow {
    const signature: Option<string>
    const lifecycle: FindingStatus
    var cveIds: seq<string>
    var firstSeen: int
    var lastSeen: int
    var count: nat
    var tools: seq<string>
    var jobIds: seq<string>
    var description: string
    var recommendation: string
    var evidence: string

    function Value(): Finding
      reads this, lifecycle
    {
      Finding(signature, cveIds, firstSeen, lastSeen, count, tools, jobIds, description, recommendation, evidence,
              lifecycle.State())
    }

    constructor Load(f: Finding)
      ensures Value() == f && fresh(lifecycle)
    {
      signature, cveIds, firstSeen, lastSeen, count := f.signature, f.cveIds, f.firstSeen, f.lastSeen, f.count;
      tools, jobIds, description, recommendation := f.tools, f.jobIds, f.description, f.recommendation;
      evidence := f.evidence;
      lifecycle := new FindingStatus.Load(f.record);
    }

    /** `_merge_observation`. */
    method MergeObservation(o: Observation)
      modifies this, lifecycle
      ensures Value() == Merge(old(Value()), o)
    {
      Widen(o.at);
      count := count + 1;
      AddSource(o.tool, o.jobId);
      UniteCves(Cves(o));
      TakeTexts(o);
      var _ := lifecycle.MaybeAutoReopen();
    }

    method UniteCves(cves: seq<string>)
      modifies this`cveIds
      ensures cveIds == SortedUnique(old(cveIds) + cves)
    {
      var merged := SortedUnique(cveIds + cves);
      if merged != cveIds {
        cveIds := merged;
      }
    }

    method Widen(at: int)
      modifies this`firstSeen, this`lastSeen
      ensures firstSeen == if at < old(firstSeen) then at else old(firstSeen)
      ensures lastSeen == if at > old(lastSeen) then at else old(lastSeen)
    {
      if at < firstSeen {
        firstSeen := at;
      }
      if at > lastSeen {
        lastSeen := at;
      }
    }

    method AddSource(tool: string, jobId: string)
      modifies this`tools, this`jobIds
      ensures tools == AddNew(old(tools), tool) && jobIds == AddNew(old(jobIds), jobId)
    {
      if tool !in tools {
        tools := tools + [tool];
      }
      if jobId !in jobIds {
        jobIds := jobIds + [jobId];
      }
    }

    /** A known text is never replaced by an empty one. */
    method TakeTexts(o: Observation)
      modifies this`description, this`recommendation, this`evidence
      ensures recommendation == if o.recommendation != "" then o.recommendation else old(recommendation)
      ensures description == if o.description != "" then o.description else old(description)
      ensures evidence == if o.evidence != "" then o.evidence else old(evidence)
    {
      if o.recommendation != "" {
        recommendation := o.recommendation;
      }
      if o.description != "" {
        description := o.description;
      }
      if o.evidence != "" {
        evidence := o.evidence;
      }
    }
  }

  const MAX_UPSERT_ATTEMPTS := 5

  class FindingTable {
    var rows: seq<Finding>

    constructor ()
      ensures rows == []
    {
      rows := [];
    }

    /** `upsert_finding`. In each round other sessions may commit any rows between the locking select and the
        insert (`arrivals`). If one of them has the same signature the insert fails on the unique index and
        the loop goes round. `ok` is false where the source raises RuntimeError, which cannot happen. */
    method Upsert(o: Observation, arrivals: seq<seq<Finding>>) returns (ok: bool)
      requires |arrivals| == MAX_UPSERT_ATTEMPTS
      requires Unique(rows) && Unique(rows + arrivals[0])
      modifies this
      ensures ok && Unique(rows)
      ensures
        var found := SignatureOf(o).Some? && IndexOf(old(rows), SignatureOf(o).value) < |old(rows)|;
        rows == Upserted(if SignatureOf(o).None? || found then old(rows) else old(rows) + arrivals[0], o)
    {
      if SignatureOf(o).None? {
        rows := rows + [Build(o)];
        return true;
      }
      var signature := SignatureOf(o).value;
      for attempt := 0 to MAX_UPSERT_ATTEMPTS
        invariant Unique(rows) && attempt <= 1
        invariant attempt == 0 ==> rows == old(rows)
        invariant attempt == 1 ==> rows == old(rows) + arrivals[0]
        invariant attempt == 1 ==> IndexOf(old(rows), signature) == |old(rows)| && IndexOf(rows, signature) < |rows|
      {
        var i := IndexOf(rows, signature);
        if i < |rows| {
          var row := new FindingRow.Load(rows[i]);
          row.MergeObservation(o);
          rows := rows[i := row.Value()];
          return true;
        }
        rows := rows + arrivals[attempt];
        if IndexOf(rows, signature) == |rows| {
          rows := rows + [Build(o)];
          return true;
        }
      }
      ok := false;
    }

    /** `update_finding_status`: false for an unknown row or a transition that is not valid. */
    method ChangeStatus(i: nat, to: Status) returns (ok: bool)
      modifies this
      ensures rows == StatusChanged(old(rows), i, to)
      ensures ok <==> i < |old(rows)| && Transition(old(rows)[i].record, to, Manual).Some?
    {
      if i >= |rows| {
        return false;
      }
      var row := new FindingRow.Load(rows[i]);
      ok := row.lifecycle.TransitionStatus(to, Manual);
      rows := rows[i := row.Value()];
    }
  }

  // ---- The table built by any series of observations ----

  function TableOf(obs: seq<Observation>): seq<Finding> {
    if obs == [] then [] else Upserted(TableOf(obs[..|obs| - 1]), obs[|obs| - 1])
  }

  /** The observations carrying one signature, in order. */
  function Of(obs: seq<Observation>, signature: string): seq<Observation> {
    if obs == [] then []
    else
      Of(obs[..|obs| - 1], signature)
      + if SignatureOf(obs[|obs| - 1]) == Some(signature) then [obs[|obs| - 1]] else []
  }

  lemma UpsertKeepsUnique(rows: seq<Finding>, o: Observation)
    requires Unique(rows)
    ensures Unique(Upserted(rows, o))
  {
  }

  lemma IndexOfUnique(rows: seq<Finding>, signature: string, i: nat)
    requires Unique(rows) && i < |rows| && rows[i].signature == Some(signature)
    ensures IndexOf(rows, signature) == i
  {
  }

  /** What one upsert does to the row of any signature. */
  lemma UpsertAtSignature(rows: seq<Finding>, o: Observation, signature: string)
    requires Unique(rows)
    ensures
      var i, rows' := IndexOf(rows, signature), Upserted(rows, o);
      var i' := IndexOf(rows', signature);
      if SignatureOf(o) == Some(signature) then
        i' < |rows'| && rows'[i'] == if i < |rows| then Merge(rows[i], o) else Build(o)
      else if i < |rows| then i' < |rows'| && rows'[i'] == rows[i]
      else i' == |rows'|
  {
    UpsertKeepsUnique(rows, o);
    var i, rows' := IndexOf(rows, signature), Upserted(rows, o);
    if SignatureOf(o) == Some(signature) || i < |rows| {
      IndexOfUnique(rows', signature, i);
    }
  }

  lemma {:induction false} TableIsUnique(obs: seq<Observation>)
    ensures Unique(TableOf(obs))
  {
    if obs != [] {
      TableIsUnique(obs[..|obs| - 1]);
      UpsertKeepsUnique(TableOf(obs[..|obs| - 1]), obs[|obs| - 1]);
    }
  }

  lemma FoldStep(before: seq<Observation>, o: Observation)
    requires before != []
    ensures Fold(before + [o]) == Merge(Fold(before), o)
  {
    assert (before + [o])[..|before|] == before;
  }

  /** Exactly one row per signature ever observed, and it is the fold of that signature's observations. */
  lemma {:induction false} OneRowPerSignature(obs: seq<Observation>, signature: string)
    ensures Unique(TableOf(obs))
    ensures IndexOf(TableOf(obs), signature) < |TableOf(obs)| <==> Of(obs, signature) != []
    ensures Of(obs, signature) != [] ==> TableOf(obs)[IndexOf(TableOf(obs), signature)] == Fold(Of(obs, signature))
  {
    TableIsUnique(obs);
    if obs != [] {
      var n := |obs| - 1;
      var before, o := Of(obs[..n], signature), obs[n];
      OneRowPerSignature(obs[..n], signature);
      UpsertAtSignature(TableOf(obs[..n]), o, signature);
      if SignatureOf(o) == Some(signature) {
        if before != [] {
          FoldStep(before, o);
        } else {
          assert Of(obs, signature) == [o];
        }
      } else {
        assert Of(obs, signature) == before;
      }
    }
  }

  function TotalCount(rows: seq<Finding>): nat {
    if rows == [] then 0 else rows[0].count + TotalCount(rows[1..])
  }

  lemma {:induction false} TotalCountUpdate(rows: seq<Finding>, i: nat, f: Finding)
    requires i < |rows|
    ensures TotalCount(rows[i := f]) == TotalCount(rows) - rows[i].count + f.count
  {
    if i == 0 {
      assert rows[0 := f][1..] == rows[1..];
    } else {
      assert rows[i := f][1..] == rows[1..][i - 1 := f];
      TotalCountUpdate(rows[1..], i - 1, f);
    }
  }

  lemma {:induction false} TotalCountAppend(rows: seq<Finding>, f: Finding)
    ensures TotalCount(rows + [f]) == TotalCount(rows) + f.count
  {
    if rows != [] {
      assert (rows + [f])[1..] == rows[1..] + [f];
      TotalCountAppend(rows[1..], f);
    }
  }

  /** Conservation: the observation counts over all rows add up to the number of upserts. */
  lemma {:induction false} CountsAddUp(obs: seq<Observation>)
    ensures TotalCount(TableOf(obs)) == |obs|
  {
    if obs != [] {
      var n := |obs| - 1;
      var rows, o := TableOf(obs[..n]), obs[n];
      CountsAddUp(obs[..n]);
      TotalCountAppend(rows, Build(o));
      if SignatureOf(o).Some? && IndexOf(rows, SignatureOf(o).value) < |rows| {
        var i := IndexOf(rows, SignatureOf(o).value);
        TotalCountUpdate(rows, i, Merge(rows[i], o));
      }
    }
  }

  // ---- What the fold accumulates ----

  function FirstIndex(s: seq<string>, x: string): nat
    requires x in s
  {
    if s[0] == x then 0 else 1 + FirstIndex(s[1..], x)
  }

  /** `r` lists the elements of `s` once each, in the order of their first occurrence. */
  ghost predicate FirstOccurrences(s: seq<string>, r: seq<string>) {
    && (forall x :: x in r <==> x in s)
    && (forall i, j | 0 <= i < j < |r| :: r[i] in s && r[j] in s && FirstIndex(s, r[i]) < FirstIndex(s, r[j]))
  }

  lemma {:induction false} FirstIndexAppend(s: seq<string>, y: string, x: string)
    requires x in s + [y]
    ensures FirstIndex(s + [y], x) == if x in s then FirstIndex(s, x) else |s|
    ensures x in s ==> FirstIndex(s, x) < |s|
  {
    if s != [] && s[0] != x {
      assert (s + [y])[1..] == s[1..] + [y];
      FirstIndexAppend(s[1..], y, x);
    }
  }

  lemma AddNewFirstOccurrences(s: seq<string>, r: seq<string>, y: string)
    requires FirstOccurrences(s, r)
    ensures FirstOccurrences(s + [y], AddNew(r, y))
  {
    var s', r' := s + [y], AddNew(r, y);
    forall i, j | 0 <= i < j < |r'|
      ensures r'[i] in s' && r'[j] in s' && FirstIndex(s', r'[i]) < FirstIndex(s', r'[j])
    {
      assert r'[i] in r';
      assert r'[j] in r';
      FirstIndexAppend(s, y, r'[i]);
      FirstIndexAppend(s, y, r'[j]);
    }
  }

  function Tools(obs: seq<Observation>): seq<string> {
    seq(|obs|, i requires 0 <= i < |obs| => obs[i].tool)
  }

  function JobIds(obs: seq<Observation>): seq<string> {
    seq(|obs|, i requires 0 <= i < |obs| => obs[i].jobId)
  }

  lemma {:induction false} FoldCounts(obs: seq<Observation>)
    requires obs != []
    ensures Fold(obs).signature == SignatureOf(obs[0]) && Fold(obs).count == |obs|
    ensures Fold(obs).record == Record(New, [])
  {
    if |obs| > 1 {
      FoldCounts(obs[..|obs| - 1]);
    }
  }

  ghost predicate Earliest(obs: seq<Observation>, t: int) {
    (forall o | o in obs :: t <= o.at) && (exists o | o in obs :: o.at == t)
  }

  ghost predicate Latest(obs: seq<Observation>, t: int) {
    (forall o | o in obs :: o.at <= t) && (exists o | o in obs :: o.at == t)
  }

  lemma {:induction false} FoldBounds(obs: seq<Observation>)
    requires obs != []
    ensures Earliest(obs, Fold(obs).firstSeen) && Latest(obs, Fold(obs).lastSeen)
  {
    var n := |obs| - 1;
    if n == 0 {
      assert obs[0] in obs;
    } else {
      var before, o := obs[..n], obs[n];
      FoldBounds(before);
      assert obs == before + [o];
      var first :| first in before && first.at == Fold(before).firstSeen;
      var last :| last in before && last.at == Fold(before).lastSeen;
      assert first in obs && last in obs && o in obs;
    }
  }

  lemma {:induction false} FoldLists(obs: seq<Observation>)
    requires obs != []
    ensures FirstOccurrences(Tools(obs), Fold(obs).tools) && FirstOccurrences(JobIds(obs), Fold(obs).jobIds)
  {
    var n := |obs| - 1;
    if n == 0 {
      assert Tools(obs) == [obs[0].tool] && JobIds(obs) == [obs[0].jobId];
    } else {
      var before, o := obs[..n], obs[n];
      FoldLists(before);
      assert Tools(obs) == Tools(before) + [o.tool] && JobIds(obs) == JobIds(before) + [o.jobId];
      AddNewFirstOccurrences(Tools(before), Fold(before).tools, o.tool);
      AddNewFirstOccurrences(JobIds(before), Fold(before).jobIds, o.jobId);
    }
  }

  /** The row of a signature in any table built by upserts: as many observations as were made, the
      earliest and the latest moment, tools and jobs once each by first occurrence, status still NEW. */
  lemma RowAccumulates(obs: seq<Observation>, signature: string)
    requires Of(obs, signature) != []
    ensures
      var mine, i := Of(obs, signature), IndexOf(TableOf(obs), signature);
      && i < |TableOf(obs)|
      && var f := TableOf(obs)[i];
      && f.count == |mine|
      && Earliest(mine, f.firstSeen) && Latest(mine, f.lastSeen)
      && FirstOccurrences(Tools(mine), f.tools) && FirstOccurrences(JobIds(mine), f.jobIds)
      && f.record == Record(New, [])
  {
    OneRowPerSignature(obs, signature);
    FoldCounts(Of(obs, signature));
    FoldBounds(Of(obs, signature));
    FoldLists(Of(obs, signature));
  }

  /** The last text that is not empty, or the empty text if all are. */
  ghost predicate LatestText(obs: seq<Observation>, pick: Observation -> string, text: string) {
    if text == "" then forall o | o in obs :: pick(o) == ""
    else exists i :: 0 <= i < |obs| && pick(obs[i]) == text && forall j | i < j < |obs| :: pick(obs[j]) == ""
  }

  lemma LatestTextNext(obs: seq<Observation>, o: Observation, pick: Observation -> string, text: string)
    requires LatestText(obs, pick, text)
    ensures LatestText(obs + [o], pick, if pick(o) != "" then pick(o) else text)
  {
    if pick(o) != "" {
      assert (obs + [o])[|obs|] == o;
    } else if text != "" {
      var i :| 0 <= i < |obs| && pick(obs[i]) == text && forall j | i < j < |obs| :: pick(obs[j]) == "";
      assert (obs + [o])[i] == obs[i];
    }
  }

  /** A row shows the latest known description, recommendation and evidence of its observations. */
  lemma {:induction false} FoldTexts(obs: seq<Observation>)
    requires obs != []
    ensures LatestText(obs, (x: Observation) => x.description, Fold(obs).description)
    ensures LatestText(obs, (x: Observation) => x.recommendation, Fold(obs).recommendation)
    ensures LatestText(obs, (x: Observation) => x.evidence, Fold(obs).evidence)
  {
    if |obs| == 1 {
      FirstTexts(obs[0]);
      assert obs == [obs[0]];
    } else {
      var n := |obs| - 1;
      FoldTexts(obs[..n]);
      NextTexts(obs[..n], obs[n], Fold(obs[..n]));
      assert obs == obs[..n] + [obs[n]];
    }
  }

  lemma FirstTexts(o: Observation)
    ensures LatestText([o], (x: Observation) => x.description, Build(o).description)
    ensures LatestText([o], (x: Observation) => x.recommendation, Build(o).recommendation)
    ensures LatestText([o], (x: Observation) => x.evidence, Build(o).evidence)
  {
    assert [o][0] == o;
  }

  lemma NextTexts(obs: seq<Observation>, o: Observation, f: Finding)
    requires LatestText(obs, (x: Observation) => x.description, f.description)
    requires LatestText(obs, (x: Observation) => x.recommendation, f.recommendation)
    requires LatestText(obs, (x: Observation) => x.evidence, f.evidence)
    ensures LatestText(obs + [o], (x: Observation) => x.description, Merge(f, o).description)
    ensures LatestText(obs + [o], (x: Observation) => x.recommendation, Merge(f, o).recommendation)
    ensures LatestText(obs + [o], (x: Observation) => x.evidence, Merge(f, o).evidence)
  {
    LatestTextNext(obs, o, (x: Observation) => x.description, f.description);
    LatestTextNext(obs, o, (x: Observation) => x.recommendation, f.recommendation);
    LatestTextNext(obs, o, (x: Observation) => x.evidence, f.evidence);
  }

  /** The CVEs of an observation: the non-empty ids reported, in upper case, sorted and once each. */
  lemma CvesAre(o: Observation, c: string)
    ensures c in Cves(o) <==> exists raw | raw in o.rawCveIds :: raw != "" && Upper(raw) == c
    ensures Ascending(Cves(o))
  {
    var given := NonEmpty(o.rawCveIds);
    Signature.CanonicalAscends(given);
    Signature.CanonicalMember(given, c);
    NonEmptyMember(o.rawCveIds);
    if raw :| raw in o.rawCveIds && raw != "" && Upper(raw) == c {
      assert raw in given;
      var i :| 0 <= i < |given| && given[i] == raw;
    }
    if i :| 0 <= i < |given| && Upper(given[i]) == c {
      assert given[i] in given;
    }
  }

  lemma {:induction false} NonEmptyMember(s: seq<string>)
    ensures forall x :: x in NonEmpty(s) <==> x in s && x != ""
  {
    if s != [] {
      NonEmptyMember(s[1..]);
      assert s == [s[0]] + s[1..];
    }
  }

  // ---- Order does not matter ----

  /** What one signature's observations keep of the multiplicity of an observation. */
  ghost predicate KeptCount(obs: seq<Observation>, mine: seq<Observation>, o: Observation, keep: bool) {
    multiset(mine)[o] == if keep then multiset(obs)[o] else 0
  }

  lemma {:induction false} OfCounts(obs: seq<Observation>, signature: string, o: Observation)
    ensures KeptCount(obs, Of(obs, signature), o, SignatureOf(o) == Some(signature))
  {
    if obs != [] {
      var n := |obs| - 1;
      OfCounts(obs[..n], signature, o);
      OfOneMore(obs[..n], obs[n], signature);
      CountOneMore(obs[..n], Of(obs[..n], signature), obs[n], o,
                   SignatureOf(obs[n]) == Some(signature), SignatureOf(o) == Some(signature));
      assert obs[..n] + [obs[n]] == obs;
    }
  }

  lemma OfOneMore(obs: seq<Observation>, x: Observation, signature: string)
    ensures Of(obs + [x], signature) ==
      if SignatureOf(x) == Some(signature) then Of(obs, signature) + [x] else Of(obs, signature)
  {
    var all := obs + [x];
    assert all[..|all| - 1] == obs && all[|all| - 1] == x;
  }

  lemma CountOneMore(
    obs: seq<Observation>, kept: seq<Observation>, x: Observation, o: Observation, keepX: bool, keepO: bool)
    requires x == o ==> keepX == keepO
    requires KeptCount(obs, kept, o, keepO)
    ensures KeptCount(obs + [x], if keepX then kept + [x] else kept, o, keepO)
  {
  }

  lemma SameObservations(obs: seq<Observation>, obs': seq<Observation>, signature: string)
    requires multiset(obs) == multiset(obs')
    ensures multiset(Of(obs, signature)) == multiset(Of(obs', signature))
  {
    forall o
      ensures multiset(Of(obs, signature))[o] == multiset(Of(obs', signature))[o]
    {
      OfCounts(obs, signature, o);
      OfCounts(obs', signature, o);
    }
  }

  lemma SameMembers(a: seq<Observation>, b: seq<Observation>)
    requires multiset(a) == multiset(b)
    ensures |a| == |b| && forall o :: o in a <==> o in b
  {
    assert |a| == |multiset(a)| && |b| == |multiset(b)|;
    assert forall o :: o in a <==> o in multiset(a);
    assert forall o :: o in b <==> o in multiset(b);
  }

  lemma ToolsMember(obs: seq<Observation>, x: string)
    ensures x in Tools(obs) <==> exists o | o in obs :: o.tool == x
    ensures x in JobIds(obs) <==> exists o | o in obs :: o.jobId == x
  {
    if x in Tools(obs) {
      var i :| 0 <= i < |obs| && Tools(obs)[i] == x;
      assert obs[i] in obs;
    }
    if x in JobIds(obs) {
      var i :| 0 <= i < |obs| && JobIds(obs)[i] == x;
      assert obs[i] in obs;
    }
    if o :| o in obs && o.tool == x {
      var i :| 0 <= i < |obs| && obs[i] == o;
      assert Tools(obs)[i] == x;
    }
    if o :| o in obs && o.jobId == x {
      var i :| 0 <= i < |obs| && obs[i] == o;
      assert JobIds(obs)[i] == x;
    }
  }

  /** Reordering the observations changes no count, no bound and no set of tools or jobs. */
  lemma OrderDoesNotMatter(obs: seq<Observation>, obs': seq<Observation>, signature: string)
    requires multiset(obs) == multiset(obs') && Of(obs, signature) != []
    ensures Of(obs', signature) != []
    ensures
      var f, f' := Fold(Of(obs, signature)), Fold(Of(obs', signature));
      && f.count == f'.count && f.firstSeen == f'.firstSeen && f.lastSeen == f'.lastSeen
      && (forall x :: x in f.tools <==> x in f'.tools) && (forall x :: x in f.jobIds <==> x in f'.jobIds)
  {
    var a, b := Of(obs, signature), Of(obs', signature);
    SameObservations(obs, obs', signature);
    SameMembers(a, b);
    FoldCounts(a);
    FoldCounts(b);
    FoldBounds(a);
    FoldBounds(b);
    FoldLists(a);
    FoldLists(b);
    forall x
      ensures x in Tools(a) <==> x in Tools(b)
      ensures x in JobIds(a) <==> x in JobIds(b)
    {
      ToolsMember(a, x);
      ToolsMember(b, x);
    }
  }

  // ---- The CVE list never changes ----

  /** What the identity key relies on: separators do not occur inside the parts. */
  ghost predicate WellFormed(o: Observation) {
    && (o.asset.Some? ==> '|' !in o.asset.value)
    && Signature.Free(Cves(o), ',')
    && '|' !in Signature.OrEmpty(o.protocol)
  }

  lemma UpperTwice(s: string)
    ensures Upper(Upper(s)) == Upper(s)
  {
  }

  lemma CvesAreUpper(o: Observation, c: string)
    ensures c in Cves(o) <==> Signature.Names(Cves(o), c)
  {
    forall x | x in Cves(o)
      ensures Upper(x) == x
    {
      Signature.CanonicalMember(NonEmpty(o.rawCveIds), x);
      var i :| 0 <= i < |NonEmpty(o.rawCveIds)| && Upper(NonEmpty(o.rawCveIds)[i]) == x;
      UpperTwice(NonEmpty(o.rawCveIds)[i]);
    }
  }

  /** Two observations land in one row exactly when they name the same asset and the same CVEs or, naming
      none, have the same words in their titles, case aside, and the same port and protocol. */
  lemma OneRowMeansOneFinding(o: Observation, o': Observation)
    requires WellFormed(o) && WellFormed(o') && o.asset.Some? && o'.asset.Some?
    ensures SignatureOf(o) == SignatureOf(o') <==>
      && o.asset == o'.asset && Cves(o) == Cves(o')
      && (Cves(o) == [] ==>
            && Titles.Words(Lower(o.title)) == Titles.Words(Lower(o'.title))
            && o.port == o'.port && Signature.OrEmpty(o.protocol) == Signature.OrEmpty(o'.protocol))
  {
    Signature.SignatureIsIdentity(
      o.asset.value, Cves(o), Titles.NormalizeTitle(Lower, o.title), o.port, o.protocol,
      o'.asset.value, Cves(o'), Titles.NormalizeTitle(Lower, o'.title), o'.port, o'.protocol);
    Titles.AsciiLowerIsWordWise();
    Titles.SameTitleIffSameWords(Lower, o.title, o'.title);
    SameCvesSameList(o, o');
  }

  lemma SameCvesSameList(o: Observation, o': Observation)
    ensures Signature.SameCves(Cves(o), Cves(o')) <==> Cves(o) == Cves(o')
  {
    if Signature.SameCves(Cves(o), Cves(o')) {
      forall c
        ensures c in Cves(o) <==> c in Cves(o')
      {
        CvesAreUpper(o, c);
        CvesAreUpper(o', c);
      }
      Signature.CanonicalAscends(NonEmpty(o.rawCveIds));
      Signature.CanonicalAscends(NonEmpty(o'.rawCveIds));
      AscendingIsCanonical(Cves(o), Cves(o'));
    }
  }

  /** Observations of one signature name the same CVEs. */
  lemma SameSignatureSameCves(o: Observation, o': Observation)
    requires WellFormed(o) && WellFormed(o') && SignatureOf(o).Some? && SignatureOf(o) == SignatureOf(o')
    ensures Cves(o) == Cves(o')
  {
    OneRowMeansOneFinding(o, o');
  }

  lemma MergedCves(cves: seq<string>)
    requires Ascending(cves)
    ensures SortedUnique(cves + cves) == cves
  {
    SameSetSameListing(cves + cves, cves);
    SortedListingIsFixed(cves);
  }

  lemma {:induction false} FoldCves(obs: seq<Observation>, signature: string)
    requires obs != [] && forall o | o in obs :: WellFormed(o) && SignatureOf(o) == Some(signature)
    ensures Fold(obs).cveIds == Cves(obs[0])
  {
    var n := |obs| - 1;
    if n > 0 {
      FoldCves(obs[..n], signature);
      assert obs[0] in obs && obs[n] in obs;
      SameSignatureSameCves(obs[0], obs[n]);
      Signature.CanonicalAscends(NonEmpty(obs[0].rawCveIds));
      MergedCves(Cves(obs[0]));
    }
  }

  lemma {:induction false} OfMembers(obs: seq<Observation>, signature: string)
    ensures forall o | o in Of(obs, signature) :: o in obs && SignatureOf(o) == Some(signature)
  {
    if obs != [] {
      OfMembers(obs[..|obs| - 1], signature);
    }
  }

  /** In a table built by upserts a further observation never changes a row's CVE list: the branch
      guarded by `cve_ids_changed` is dead. */
  lemma CveIdsNeverChange(obs: seq<Observation>, o: Observation)
    requires (forall x | x in obs :: WellFormed(x)) && WellFormed(o) && SignatureOf(o).Some?
    requires IndexOf(TableOf(obs), SignatureOf(o).value) < |TableOf(obs)|
    ensures
      var row := TableOf(obs)[IndexOf(TableOf(obs), SignatureOf(o).value)];
      Merge(row, o).cveIds == row.cveIds
  {
    var signature := SignatureOf(o).value;
    var mine := Of(obs, signature);
    OneRowPerSignature(obs, signature);
    OfMembers(obs, signature);
    FoldCves(mine, signature);
    assert mine[0] in mine;
    SameSignatureSameCves(mine[0], o);
    Signature.CanonicalAscends(NonEmpty(o.rawCveIds));
    MergedCves(Cves(o));
  }
}
