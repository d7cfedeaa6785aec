/** The nmap and whatweb comparisons as patches between two results. */
module DiffEngine {
  import opened Options
  import opened Text
  import opened Patches

  datatype ChangeType =
    | PortOpened | PortClosed | ServiceChanged
    | TechnologyAdded | TechnologyChanged | TechnologyRemoved | HttpChanged

  datatype Change = Change(kind: ChangeType, field: string, oldValue: Option<string>, newValue: Option<string>)

  ghost predicate DistinctFields(changes: seq<Change>) {
    forall i, j | 0 <= i < j < |changes| :: changes[i].field != changes[j].field
  }

  /** The same change seen from the other side. */
  function Inverse(c: Change): Change {
    var kind :=
      match c.kind
      case PortOpened => PortClosed
      case PortClosed => PortOpened
      case TechnologyAdded => TechnologyRemoved
      case TechnologyRemoved => TechnologyAdded
      case k => k;
    Change(kind, c.field, c.newValue, c.oldValue)
  }

  // ---- nmap ----

  datatype PortKey = PortKey(protocol: string, number: int)

  datatype Port = Port(state: Option<string>, service: Option<string>, product: Option<string>, version: Option<string>)

  /** One reported port; a number that cannot be read as an integer is None and the port is skipped. */
  datatype RawPort = RawPort(protocol: string, number: Option<int>, port: Port)

  type PortMap = map<PortKey, Port>

  function WithPort(m: PortMap, p: RawPort): PortMap {
    if p.number.Some? then m[PortKey(p.protocol, p.number.value) := p.port] else m
  }

  /** The entries of all hosts in the order in which they are read. */
  function Entries(hosts: seq<seq<RawPort>>): seq<RawPort> {
    if hosts == [] then [] else Entries(hosts[..|hosts| - 1]) + hosts[|hosts| - 1]
  }

  function Collect(entries: seq<RawPort>): PortMap {
    if entries == [] then map[] else WithPort(Collect(entries[..|entries| - 1]), entries[|entries| - 1])
  }

  /** The ports of all hosts in one map. */
  function PortsOf(hosts: seq<seq<RawPort>>): PortMap {
    Collect(Entries(hosts))
  }

  predicate Reports(p: RawPort, k: PortKey) {
    p.number == Some(k.number) && p.protocol == k.protocol
  }

  /** Entry `i` is the last one for `k`. */
  ghost predicate LastReport(entries: seq<RawPort>, k: PortKey, i: int) {
    0 <= i < |entries| && Reports(entries[i], k) && forall j | i < j < |entries| :: !Reports(entries[j], k)
  }

  /** A port is in the map iff some entry with a readable number reports it, with the data of the last one. */
  ghost predicate LastReportsWin(entries: seq<RawPort>, m: PortMap) {
    forall k ::
      if k in m then exists i :: LastReport(entries, k, i) && m[k] == entries[i].port
      else forall i | 0 <= i < |entries| :: !Reports(entries[i], k)
  }

  lemma {:induction false} CollectAt(entries: seq<RawPort>, k: PortKey)
    ensures
      var m := Collect(entries);
      if k in m then exists i :: LastReport(entries, k, i) && m[k] == entries[i].port
      else forall i | 0 <= i < |entries| :: !Reports(entries[i], k)
  {
    if entries != [] {
      var n := |entries| - 1;
      var before := Collect(entries[..n]);
      CollectAt(entries[..n], k);
      if Reports(entries[n], k) {
        assert LastReport(entries, k, n);
      } else if k in before {
        var i :| LastReport(entries[..n], k, i) && before[k] == entries[..n][i].port;
        assert LastReport(entries, k, i);
      }
    }
  }

  /** The rule that the last report wins settles the map. */
  lemma LastReportsSettleTheMap(hosts: seq<seq<RawPort>>, m: PortMap)
    ensures LastReportsWin(Entries(hosts), m) <==> m == PortsOf(hosts)
  {
    forall k {
      CollectAt(Entries(hosts), k);
    }
    assert LastReportsWin(Entries(hosts), PortsOf(hosts));
    if LastReportsWin(Entries(hosts), m) {
      forall k
        ensures k in m <==> k in PortsOf(hosts)
        ensures k in m && k in PortsOf(hosts) ==> m[k] == PortsOf(hosts)[k]
      {
        SameLastReport(Entries(hosts), m, PortsOf(hosts), k);
      }
    }
  }

  lemma SameLastReport(entries: seq<RawPort>, m: PortMap, m': PortMap, k: PortKey)
    requires LastReportsWin(entries, m) && LastReportsWin(entries, m')
    ensures k in m <==> k in m'
    ensures k in m && k in m' ==> m[k] == m'[k]
  {
    if k in m && k in m' {
      var i :| LastReport(entries, k, i) && m[k] == entries[i].port;
      var j :| LastReport(entries, k, j) && m'[k] == entries[j].port;
      assert i == j;
    }
  }

  lemma CollectNext(before: seq<RawPort>, host: seq<RawPort>, j: nat)
    requires j < |host|
    ensures Collect(before + host[..j + 1]) == WithPort(Collect(before + host[..j]), host[j])
  {
    var all := before + host[..j + 1];
    assert all[..|all| - 1] == before + host[..j] && all[|all| - 1] == host[j];
  }

  method AddHost(m: PortMap, ghost before: seq<RawPort>, host: seq<RawPort>) returns (ports: PortMap)
    requires m == Collect(before)
    ensures ports == Collect(before + host)
  {
    ports := m;
    assert before + host[..0] == before;
    for j := 0 to |host|
      invariant ports == Collect(before + host[..j])
    {
      CollectNext(before, host, j);
      var p := host[j];
      if p.number.Some? {
        ports := ports[PortKey(p.protocol, p.number.value) := p.port];
      }
    }
    assert host[..|host|] == host;
  }

  /** `_nmap_port_map`. */
  method BuildPortMap(hosts: seq<seq<RawPort>>) returns (ports: PortMap)
    ensures LastReportsWin(Entries(hosts), ports)
    ensures ports == PortsOf(hosts)
  {
    ports := map[];
    for i := 0 to |hosts|
      invariant ports == Collect(Entries(hosts[..i]))
    {
      ports := AddHost(ports, Entries(hosts[..i]), hosts[i]);
      assert hosts[..i + 1][..i] == hosts[..i];
    }
    assert hosts[..|hosts|] == hosts;
    LastReportsSettleTheMap(hosts, ports);
  }

  predicate Open(m: PortMap, k: PortKey) {
    k in m && m[k].state == Some("open")
  }

  function OpenPorts(m: PortMap): set<PortKey> {
    set k | k in m && Open(m, k)
  }

  datatype Service = Service(service: Option<string>, product: Option<string>, version: Option<string>)

  function ServiceOf(p: Port): Service { Service(p.service, p.product, p.version) }

  /** The open ports with what runs on them. */
  function OpenView(m: PortMap): map<PortKey, Service> {
    map k | k in m && Open(m, k) :: ServiceOf(m[k])
  }

  function FieldOf(k: PortKey): string {
    "port:" + Str(k.number) + "/" + k.protocol
  }

  lemma FieldInjective(k: PortKey, k': PortKey)
    ensures FieldOf(k) == FieldOf(k') <==> k == k'
  {
    if FieldOf(k) == FieldOf(k') {
      StrChars(k.number);
      StrChars(k'.number);
      assert FieldOf(k)[5..] == Str(k.number) + "/" + k.protocol;
      assert FieldOf(k')[5..] == Str(k'.number) + "/" + k'.protocol;
      SplitFirst(Str(k.number), k.protocol, Str(k'.number), k'.protocol, '/');
      StrInjective(k.number, k'.number);
    }
  }

  /** Python's `x or default` on an optional text. */
  function Or(x: Option<string>, default: string): string {
    if x.Some? && x.value != "" then x.value else default
  }

  function Spaced(parts: seq<Option<string>>): string {
    if parts == [] then ""
    else
      var rest := Spaced(parts[1..]);
      var head := Or(parts[0], "");
      if head == "" then rest else if rest == "" then head else head + " " + rest
  }

  /** The joined description, None when nothing is known. */
  function Describe(p: Port): Option<string> {
    var s := Spaced([p.service, p.product, p.version]);
    if s == "" then None else Some(s)
  }

  /** The one change a port calls for, if any. */
  function PortChange(before: PortMap, after: PortMap, k: PortKey): Option<Change> {
    if Open(after, k) && !Open(before, k) then
      Some(Change(PortOpened, FieldOf(k), None, Some(Or(after[k].service, "open"))))
    else if Open(before, k) && !Open(after, k) then
      Some(Change(PortClosed, FieldOf(k), Some(Or(before[k].service, "open")), None))
    else if Open(before, k) && Open(after, k) && ServiceOf(before[k]) != ServiceOf(after[k]) then
      Some(Change(ServiceChanged, FieldOf(k), Describe(before[k]), Describe(after[k])))
    else None
  }

  /** Exactly the changes the ports call for, one per port. */
  ghost predicate NmapDiff(before: PortMap, after: PortMap, changes: seq<Change>) {
    && DistinctFields(changes)
    && (forall c | c in changes :: exists k :: PortChange(before, after, k) == Some(c))
    && (forall k | PortChange(before, after, k).Some? :: PortChange(before, after, k).value in changes)
  }

  /** The list under construction: the change of each port in `keys`, in turn. */
  ghost predicate Collected(before: PortMap, after: PortMap, keys: seq<PortKey>, changes: seq<Change>) {
    && |keys| == |changes|
    && (forall i, j | 0 <= i < j < |keys| :: keys[i] != keys[j])
    && (forall i | 0 <= i < |keys| :: PortChange(before, after, keys[i]) == Some(changes[i]))
  }

  lemma CollectOne(before: PortMap, after: PortMap, keys: seq<PortKey>, changes: seq<Change>, k: PortKey, c: Change)
    requires Collected(before, after, keys, changes) && k !in keys && PortChange(before, after, k) == Some(c)
    ensures Collected(before, after, keys + [k], changes + [c])
  {
  }

  lemma CollectedAll(before: PortMap, after: PortMap, keys: seq<PortKey>, changes: seq<Change>)
    requires Collected(before, after, keys, changes)
    requires forall k | PortChange(before, after, k).Some? :: k in keys
    ensures NmapDiff(before, after, changes)
  {
    forall i, j | 0 <= i < j < |changes|
      ensures changes[i].field != changes[j].field
    {
      FieldInjective(keys[i], keys[j]);
    }
    forall c | c in changes
      ensures exists k :: PortChange(before, after, k) == Some(c)
    {
      var i :| 0 <= i < |changes| && changes[i] == c;
      assert PortChange(before, after, keys[i]) == Some(c);
    }
    forall k | PortChange(before, after, k).Some?
      ensures PortChange(before, after, k).value in changes
    {
      var i :| 0 <= i < |keys| && keys[i] == k;
      assert changes[i] == PortChange(before, after, k).value;
    }
  }

  /** `diff_nmap`. */
  method DiffNmap(beforeHosts: seq<seq<RawPort>>, afterHosts: seq<seq<RawPort>>) returns (changes: seq<Change>)
    ensures NmapDiff(PortsOf(beforeHosts), PortsOf(afterHosts), changes)
  {
    var before := BuildPortMap(beforeHosts);
    var after := BuildPortMap(afterHosts);
    changes := DiffPorts(before, after);
  }

  /** The two loops of `diff_nmap`; the dictionaries are walked in an order left open here. */
  method DiffPorts(before: PortMap, after: PortMap) returns (changes: seq<Change>)
    ensures NmapDiff(before, after, changes)
  {
    changes := [];
    ghost var keys: seq<PortKey> := [];
    var todo := after.Keys;
    while todo != {}
      invariant todo <= after.Keys && Collected(before, after, keys, changes)
      invariant forall k | k in keys :: k in after.Keys - todo
      invariant forall k | k in after.Keys - todo && Open(after, k) && PortChange(before, after, k).Some? :: k in keys
      invariant forall k | k in keys :: Open(after, k)
      decreases todo
    {
      var k :| k in todo;
      todo := todo - {k};
      var port := after[k];
      var wasOpen, isOpen := k in before && before[k].state == Some("open"), port.state == Some("open");
      if isOpen && !wasOpen {
        var c := Change(PortOpened, FieldOf(k), None, Some(Or(port.service, "open")));
        CollectOne(before, after, keys, changes, k, c);
        changes, keys := changes + [c], keys + [k];
      } else if isOpen && wasOpen {
        if ServiceOf(before[k]) != ServiceOf(port) {
          var c := Change(ServiceChanged, FieldOf(k), Describe(before[k]), Describe(port));
          CollectOne(before, after, keys, changes, k, c);
          changes, keys := changes + [c], keys + [k];
        }
      }
    }
    todo := before.Keys;
    while todo != {}
      invariant todo <= before.Keys && Collected(before, after, keys, changes)
      invariant forall k | k in keys && !Open(after, k) :: k in before.Keys - todo
      invariant forall k | Open(after, k) && PortChange(before, after, k).Some? :: k in keys
      invariant forall k | k in before.Keys - todo && PortChange(before, after, k).Some? :: k in keys
      decreases todo
    {
      var k :| k in todo;
      todo := todo - {k};
      if before[k].state == Some("open") && !(k in after && after[k].state == Some("open")) {
        var c := Change(PortClosed, FieldOf(k), Some(Or(before[k].service, "open")), None);
        CollectOne(before, after, keys, changes, k, c);
        changes, keys := changes + [c], keys + [k];
      }
    }
    CollectedAll(before, after, keys, changes);
  }

  /** The open ports as a keyed state, under the text a change carries in `field`. */
  function OpenFields(m: PortMap): map<string, bool> {
    map k | k in m && Open(m, k) :: FieldOf(k) := true
  }

  /** Ports opened and closed, read off the changes as edits; a changed service moves no port. */
  function PortEdits(changes: seq<Change>): seq<Edit<bool>> {
    if changes == [] then []
    else
      var c := changes[|changes| - 1];
      PortEdits(changes[..|changes| - 1])
      + (if c.kind == PortOpened then [Edit(c.field, Some(true))]
         else if c.kind == PortClosed then [Edit(c.field, None)]
         else [])
  }

  lemma OpenFieldsSameAsPorts(m: PortMap, m': PortMap)
    ensures OpenFields(m) == OpenFields(m') <==> OpenPorts(m) == OpenPorts(m')
  {
    if OpenFields(m) == OpenFields(m') {
      forall k
        ensures k in OpenPorts(m) <==> k in OpenPorts(m')
      {
        OpenField(m, k);
        OpenField(m', k);
      }
    }
    if OpenPorts(m) == OpenPorts(m') {
      forall k
        ensures Open(m, k) <==> Open(m', k)
      {
        assert k in OpenPorts(m) <==> k in OpenPorts(m');
      }
    }
  }

  lemma OpenField(m: PortMap, k: PortKey)
    ensures FieldOf(k) in OpenFields(m) <==> Open(m, k)
  {
    if FieldOf(k) in OpenFields(m) {
      var k' :| k' in m && Open(m, k') && FieldOf(k') == FieldOf(k);
      FieldInjective(k, k');
    }
  }

  lemma {:induction false} PortEditMember(changes: seq<Change>, e: Edit<bool>)
    ensures e in PortEdits(changes) <==>
      exists c | c in changes :: c.field == e.key
        && ((c.kind == PortOpened && e.value == Some(true)) || (c.kind == PortClosed && e.value == None))
  {
    if changes != [] {
      var n := |changes| - 1;
      PortEditMember(changes[..n], e);
      assert changes == changes[..n] + [changes[n]];
    }
  }

  lemma {:induction false} PortEditsDistinct(changes: seq<Change>)
    requires DistinctFields(changes)
    ensures DistinctKeys(PortEdits(changes))
  {
    if changes != [] {
      var n := |changes| - 1;
      PortEditsDistinct(changes[..n]);
      forall i | 0 <= i < |PortEdits(changes[..n])|
        ensures PortEdits(changes[..n])[i].key != changes[n].field
      {
        PortEditMember(changes[..n], PortEdits(changes[..n])[i]);
      }
    }
  }

  /** The nmap changes are a faithful patch of the set of open ports. */
  lemma NmapPatch(before: PortMap, after: PortMap, changes: seq<Change>)
    requires NmapDiff(before, after, changes)
    ensures Faithful(OpenFields(before), OpenFields(after), PortEdits(changes))
  {
    var edits := PortEdits(changes);
    PortEditsDistinct(changes);
    forall i | 0 <= i < |edits|
      ensures edits[i].value == Lookup(OpenFields(after), edits[i].key)
    {
      PortEditCarriesAfter(before, after, changes, edits[i]);
    }
    forall f | Lookup(OpenFields(before), f) != Lookup(OpenFields(after), f)
      ensures Edited(edits, f)
    {
      ChangedFieldIsEdited(before, after, changes, f);
    }
  }

  lemma PortEditCarriesAfter(before: PortMap, after: PortMap, changes: seq<Change>, e: Edit<bool>)
    requires NmapDiff(before, after, changes) && e in PortEdits(changes)
    ensures e.value == Lookup(OpenFields(after), e.key)
  {
    PortEditMember(changes, e);
    var c :| c in changes && c.field == e.key
      && ((c.kind == PortOpened && e.value == Some(true)) || (c.kind == PortClosed && e.value == None));
    var k :| PortChange(before, after, k) == Some(c);
    KindTells(before, after, k, c);
    OpenField(after, k);
  }

  lemma KindTells(before: PortMap, after: PortMap, k: PortKey, c: Change)
    requires PortChange(before, after, k) == Some(c)
    ensures c.field == FieldOf(k)
    ensures (c.kind == PortOpened ==> Open(after, k)) && (c.kind == PortClosed ==> !Open(after, k))
  {
  }

  lemma ChangedFieldIsEdited(before: PortMap, after: PortMap, changes: seq<Change>, f: string)
    requires NmapDiff(before, after, changes) && (f in OpenFields(before)) != (f in OpenFields(after))
    ensures Edited(PortEdits(changes), f)
  {
    var k := ChangedPort(before, after, f);
    var c := PortChange(before, after, k).value;
    var e := Edit(f, if Open(after, k) then Some(true) else None);
    PortEditMember(changes, e);
    var i :| 0 <= i < |PortEdits(changes)| && PortEdits(changes)[i] == e;
  }

  lemma ChangedPort(before: PortMap, after: PortMap, f: string) returns (k: PortKey)
    requires (f in OpenFields(before)) != (f in OpenFields(after))
    ensures FieldOf(k) == f && Open(before, k) != Open(after, k)
  {
    if f in OpenFields(before) {
      k :| k in before && Open(before, k) && FieldOf(k) == f;
      OpenField(after, k);
    } else {
      k :| k in after && Open(after, k) && FieldOf(k) == f;
      OpenField(before, k);
    }
  }

  /** Replaying the port changes of any series of scans over the first one's open ports gives the last
      one's open ports exactly. */
  lemma NmapDiffsTelescope(results: seq<seq<seq<RawPort>>>, diffs: seq<seq<Change>>)
    requires |results| == |diffs| + 1
    requires forall i | 0 <= i < |diffs| :: NmapDiff(PortsOf(results[i]), PortsOf(results[i + 1]), diffs[i])
    ensures
      var patches := seq(|diffs|, i requires 0 <= i < |diffs| => PortEdits(diffs[i]));
      Replay(OpenFields(PortsOf(results[0])), Concat(patches)) == OpenFields(PortsOf(results[|diffs|]))
  {
    var patches := seq(|diffs|, i requires 0 <= i < |diffs| => PortEdits(diffs[i]));
    var states := seq(|results|, i requires 0 <= i < |results| => OpenFields(PortsOf(results[i])));
    forall i | 0 <= i < |patches|
      ensures Faithful(states[i], states[i + 1], patches[i])
    {
      NmapPatch(PortsOf(results[i]), PortsOf(results[i + 1]), diffs[i]);
    }
    PatchesTelescope(states, patches);
  }

  /** Nothing is reported exactly when the same services run on the same open ports. */
  lemma NmapDiffEmptyIffSameView(before: PortMap, after: PortMap, changes: seq<Change>)
    requires NmapDiff(before, after, changes)
    ensures changes == [] <==> OpenView(before) == OpenView(after)
  {
    if changes == [] {
      forall k
        ensures Open(before, k) <==> Open(after, k)
        ensures Open(before, k) ==> ServiceOf(before[k]) == ServiceOf(after[k])
      {
        assert PortChange(before, after, k).None?;
      }
      assert OpenView(before).Keys == OpenView(after).Keys;
    } else {
      var c := changes[0];
      assert c in changes;
      var k :| PortChange(before, after, k) == Some(c);
      assert Open(before, k) <==> k in OpenView(before);
      assert Open(after, k) <==> k in OpenView(after);
    }
  }

  /** Comparing the other way round reports the inverse of every change. */
  lemma NmapDiffInverse(before: PortMap, after: PortMap, changes: seq<Change>, back: seq<Change>, c: Change)
    requires NmapDiff(before, after, changes) && NmapDiff(after, before, back)
    ensures c in changes <==> Inverse(c) in back
  {
    if c in changes {
      InverseIsReported(before, after, changes, back, c);
    }
    if Inverse(c) in back {
      InverseIsReported(after, before, back, changes, Inverse(c));
      assert Inverse(Inverse(c)) == c;
    }
  }

  lemma InverseIsReported(before: PortMap, after: PortMap, changes: seq<Change>, back: seq<Change>, c: Change)
    requires NmapDiff(before, after, changes) && NmapDiff(after, before, back) && c in changes
    ensures Inverse(c) in back
  {
    var k :| PortChange(before, after, k) == Some(c);
    InversePort(before, after, k, c);
  }

  lemma InversePort(before: PortMap, after: PortMap, k: PortKey, c: Change)
    requires PortChange(before, after, k) == Some(c)
    ensures PortChange(after, before, k) == Some(Inverse(c))
  {
  }

  /** What an nmap event says of one port: its kind, the field naming the port, the values before and after. */
  ghost predicate SaysOfPort(before: PortMap, after: PortMap, k: PortKey, c: Change) {
    var wasOpen := k in before && before[k].state == Some("open");
    var nowOpen := k in after && after[k].state == Some("open");
    && c.field == "port:" + Str(k.number) + "/" + k.protocol
    && (|| (!wasOpen && nowOpen && c.kind == PortOpened && c.oldValue == None && c.newValue == Some(NameOf(after[k])))
        || (wasOpen && !nowOpen && c.kind == PortClosed && c.oldValue == Some(NameOf(before[k])) && c.newValue == None)
        || (wasOpen && nowOpen && c.kind == ServiceChanged
            && (before[k].service, before[k].product, before[k].version)
               != (after[k].service, after[k].product, after[k].version)
            && c.oldValue == Describe(before[k]) && c.newValue == Describe(after[k])))
  }

  /** The events of an nmap diff are those the ports' states, services, products and versions call for. */
  lemma NmapEventsAre(before: PortMap, after: PortMap, changes: seq<Change>, c: Change)
    requires NmapDiff(before, after, changes)
    ensures c in changes <==> exists k: PortKey :: SaysOfPort(before, after, k, c)
  {
    forall k: PortKey
      ensures PortChange(before, after, k) == Some(c) <==> SaysOfPort(before, after, k, c)
    {
      assert c == Change(c.kind, c.field, c.oldValue, c.newValue);
    }
  }

  /** The service's name, or `open` if it has none. */
  function NameOf(p: Port): string {
    if p.service == None || p.service == Some("") then "open" else p.service.value
  }

  /** A description is what is known of service, product and version, in that order, separated by blanks. */
  lemma DescriptionsAre(p: Port)
    ensures
      var known := (x: Option<string>) => x.Some? && x.value != "";
      var s, r, v := known(p.service), known(p.product), known(p.version);
      && (Describe(p) == None <==> !s && !r && !v)
      && (s && !r && !v ==> Describe(p) == p.service)
      && (!s && r && !v ==> Describe(p) == p.product)
      && (!s && !r && v ==> Describe(p) == p.version)
      && (s && r && !v ==> Describe(p) == Some(p.service.value + " " + p.product.value))
      && (s && !r && v ==> Describe(p) == Some(p.service.value + " " + p.version.value))
      && (!s && r && v ==> Describe(p) == Some(p.product.value + " " + p.version.value))
      && (s && r && v ==> Describe(p) == Some(p.service.value + " " + (p.product.value + " " + p.version.value)))
  {
    assert [p.service, p.product, p.version][1..] == [p.product, p.version];
    assert [p.product, p.version][1..] == [p.version] && [p.version][1..] == [];
    assert Spaced([p.version]) == Or(p.version, "");
    assert Spaced([p.product, p.version]) ==
      if Or(p.product, "") == "" then Or(p.version, "")
      else if Or(p.version, "") == "" then Or(p.product, "")
      else Or(p.product, "") + " " + Or(p.version, "");
  }

  // ---- whatweb ----

  /** One reported page: its plugins, already summarised, and the HTTP status if known. */
  datatype PageResult = PageResult(plugins: map<string, string>, httpStatus: Option<int>)

  /** `_whatweb_plugin_map`: a later page wins. */
  function PluginsOf(pages: seq<PageResult>): map<string, string> {
    if pages == [] then map[] else PluginsOf(pages[..|pages| - 1]) + pages[|pages| - 1].plugins
  }

  /** `_whatweb_http_status`: that of the first page. */
  function StatusOf(pages: seq<PageResult>): Option<string> {
    if pages != [] && pages[0].httpStatus.Some? then Some(Str(pages[0].httpStatus.value)) else None
  }

  /** Page `i` is the last one that names the plugin. */
  ghost predicate LastPage(pages: seq<PageResult>, name: string, i: int) {
    0 <= i < |pages| && name in pages[i].plugins && forall j | i < j < |pages| :: name !in pages[j].plugins
  }

  /** A plugin is in the map iff some page names it, with the summary of the last such page. */
  ghost predicate LastPagesWin(pages: seq<PageResult>, m: map<string, string>) {
    forall name ::
      if name in m then exists i :: LastPage(pages, name, i) && m[name] == pages[i].plugins[name]
      else forall i | 0 <= i < |pages| :: name !in pages[i].plugins
  }

  lemma {:induction false} PluginsOfAt(pages: seq<PageResult>, name: string)
    ensures
      var m := PluginsOf(pages);
      if name in m then exists i :: LastPage(pages, name, i) && m[name] == pages[i].plugins[name]
      else forall i | 0 <= i < |pages| :: name !in pages[i].plugins
  {
    if pages != [] {
      var n := |pages| - 1;
      var before := PluginsOf(pages[..n]);
      PluginsOfAt(pages[..n], name);
      if name in pages[n].plugins {
        assert LastPage(pages, name, n);
      } else if name in before {
        var i :| LastPage(pages[..n], name, i) && before[name] == pages[..n][i].plugins[name];
        assert LastPage(pages, name, i);
      }
    }
  }

  /** The rule that the last page wins settles the map. */
  lemma LastPagesSettleTheMap(pages: seq<PageResult>, m: map<string, string>)
    ensures LastPagesWin(pages, m) <==> m == PluginsOf(pages)
  {
    forall name {
      PluginsOfAt(pages, name);
    }
    assert LastPagesWin(pages, PluginsOf(pages));
    if LastPagesWin(pages, m) {
      forall name
        ensures name in m <==> name in PluginsOf(pages)
        ensures name in m && name in PluginsOf(pages) ==> m[name] == PluginsOf(pages)[name]
      {
        SameLastPage(pages, m, PluginsOf(pages), name);
      }
    }
  }

  lemma SameLastPage(pages: seq<PageResult>, m: map<string, string>, m': map<string, string>, name: string)
    requires LastPagesWin(pages, m) && LastPagesWin(pages, m')
    ensures name in m <==> name in m'
    ensures name in m && name in m' ==> m[name] == m'[name]
  {
    if name in m && name in m' {
      var i :| LastPage(pages, name, i) && m[name] == pages[i].plugins[name];
      var j :| LastPage(pages, name, j) && m'[name] == pages[j].plugins[name];
      assert i == j;
    }
  }

  method BuildPluginMap(pages: seq<PageResult>) returns (plugins: map<string, string>)
    ensures LastPagesWin(pages, plugins)
    ensures plugins == PluginsOf(pages)
  {
    plugins := map[];
    for i := 0 to |pages|
      invariant plugins == PluginsOf(pages[..i])
    {
      assert pages[..i + 1][..i] == pages[..i];
      plugins := plugins + pages[i].plugins;
    }
    assert pages[..|pages|] == pages;
    LastPagesSettleTheMap(pages, plugins);
  }

  const TECHNOLOGY := "technology:"
  const HTTP_STATUS := "http_status"

  function PluginChange(before: map<string, string>, after: map<string, string>, name: string): Option<Change> {
    if name in after && name !in before then
      Some(Change(TechnologyAdded, TECHNOLOGY + name, None, Some(after[name])))
    else if name in before && name !in after then
      Some(Change(TechnologyRemoved, TECHNOLOGY + name, Some(before[name]), None))
    else if name in before && name in after && before[name] != after[name] then
      Some(Change(TechnologyChanged, TECHNOLOGY + name, Some(before[name]), Some(after[name])))
    else None
  }

  function StatusChange(before: Option<string>, after: Option<string>): seq<Change> {
    if before.Some? && after.Some? && before != after then [Change(HttpChanged, HTTP_STATUS, before, after)] else []
  }

  /** The changes of the plugins in `names`, in turn. */
  ghost predicate PluginsCollected(
    before: map<string, string>, after: map<string, string>, names: seq<string>, changes: seq<Change>)
  {
    && |names| == |changes|
    && (forall i, j | 0 <= i < j < |names| :: names[i] != names[j])
    && (forall i | 0 <= i < |names| :: PluginChange(before, after, names[i]) == Some(changes[i]))
  }

  /** The plugin changes, one per plugin that differs, then the status change if there is one. */
  ghost predicate WhatwebDiff(
    before: map<string, string>, after: map<string, string>, from: Option<string>, into: Option<string>,
    changes: seq<Change>)
  {
    exists names: seq<string>, plugins: seq<Change> ::
      && PluginsCollected(before, after, names, plugins)
      && (forall n | PluginChange(before, after, n).Some? :: n in names)
      && changes == plugins + StatusChange(from, into)
  }

  lemma CollectPlugin(
    before: map<string, string>, after: map<string, string>, names: seq<string>, changes: seq<Change>, name: string,
    c: Change)
    requires PluginsCollected(before, after, names, changes) && name !in names
    requires PluginChange(before, after, name) == Some(c)
    ensures PluginsCollected(before, after, names + [name], changes + [c])
  {
  }

  /** The first two loops of `diff_whatweb`; the dictionaries are walked in an order left open here. */
  method DiffPlugins(before: map<string, string>, after: map<string, string>)
    returns (changes: seq<Change>, ghost names: seq<string>)
    ensures PluginsCollected(before, after, names, changes)
    ensures forall n | PluginChange(before, after, n).Some? :: n in names
  {
    changes := [];
    names := [];
    var todo := after.Keys;
    while todo != {}
      invariant todo <= after.Keys && PluginsCollected(before, after, names, changes)
      invariant forall n | n in names :: n in after.Keys - todo
      invariant forall n | n in after.Keys - todo && PluginChange(before, after, n).Some? :: n in names
      decreases todo
    {
      var name :| name in todo;
      todo := todo - {name};
      if name !in before {
        var c := Change(TechnologyAdded, TECHNOLOGY + name, None, Some(after[name]));
        CollectPlugin(before, after, names, changes, name, c);
        changes, names := changes + [c], names + [name];
      } else if before[name] != after[name] {
        var c := Change(TechnologyChanged, TECHNOLOGY + name, Some(before[name]), Some(after[name]));
        CollectPlugin(before, after, names, changes, name, c);
        changes, names := changes + [c], names + [name];
      }
    }
    todo := before.Keys;
    while todo != {}
      invariant todo <= before.Keys && PluginsCollected(before, after, names, changes)
      invariant forall n | n in names && n !in after :: n in before.Keys - todo
      invariant forall n | n in after && PluginChange(before, after, n).Some? :: n in names
      invariant forall n | n in before.Keys - todo && PluginChange(before, after, n).Some? :: n in names
      decreases todo
    {
      var name :| name in todo;
      todo := todo - {name};
      if name !in after {
        var c := Change(TechnologyRemoved, TECHNOLOGY + name, Some(before[name]), None);
        CollectPlugin(before, after, names, changes, name, c);
        changes, names := changes + [c], names + [name];
      }
    }
  }

  /** `diff_whatweb`. */
  method DiffWhatweb(beforePages: seq<PageResult>, afterPages: seq<PageResult>) returns (changes: seq<Change>)
    ensures WhatwebDiff(
      PluginsOf(beforePages), PluginsOf(afterPages), StatusOf(beforePages), StatusOf(afterPages), changes)
  {
    var before := BuildPluginMap(beforePages);
    var after := BuildPluginMap(afterPages);
    ghost var names;
    changes, names := DiffPlugins(before, after);
    ghost var plugins := changes;
    var from, into := StatusOf(beforePages), StatusOf(afterPages);
    if from.Some? && into.Some? && from != into {
      changes := changes + [Change(HttpChanged, HTTP_STATUS, from, into)];
    }
    assert changes == plugins + StatusChange(from, into);
  }

  /** A technology change read as an edit of the plugin map, keyed by what follows the prefix. */
  function PluginEdits(changes: seq<Change>): seq<Edit<string>> {
    if changes == [] then []
    else
      var c := changes[|changes| - 1];
      PluginEdits(changes[..|changes| - 1])
      + (if TECHNOLOGY <= c.field then [Edit(c.field[|TECHNOLOGY|..], c.newValue)] else [])
  }

  lemma {:induction false} EditsOfPlugins(
    before: map<string, string>, after: map<string, string>, names: seq<string>, changes: seq<Change>)
    requires PluginsCollected(before, after, names, changes)
    ensures |PluginEdits(changes)| == |names|
    ensures forall i | 0 <= i < |names| :: PluginEdits(changes)[i] == Edit(names[i], Lookup(after, names[i]))
  {
    if changes != [] {
      var n := |changes| - 1;
      EditsOfPlugins(before, after, names[..n], changes[..n]);
      assert changes[n].field == TECHNOLOGY + names[n];
      assert changes[n].field[|TECHNOLOGY|..] == names[n];
    }
  }

  lemma StatusIsNoPlugin(changes: seq<Change>, from: Option<string>, into: Option<string>)
    ensures PluginEdits(changes + StatusChange(from, into)) == PluginEdits(changes)
  {
    var s := StatusChange(from, into);
    if s == [] {
      assert changes + s == changes;
    } else {
      assert (changes + s)[..|changes|] == changes;
      assert HTTP_STATUS[0] != TECHNOLOGY[0];
    }
  }

  lemma PluginsPatch(
    before: map<string, string>, after: map<string, string>, names: seq<string>, changes: seq<Change>)
    requires PluginsCollected(before, after, names, changes)
    requires forall n | PluginChange(before, after, n).Some? :: n in names
    ensures Faithful(before, after, PluginEdits(changes))
  {
    EditsOfPlugins(before, after, names, changes);
    var edits := PluginEdits(changes);
    forall n | Lookup(before, n) != Lookup(after, n)
      ensures Edited(edits, n)
    {
      assert PluginChange(before, after, n).Some?;
      var i :| 0 <= i < |names| && names[i] == n;
      assert edits[i].key == n;
    }
  }

  /** The whatweb changes are a faithful patch of the plugin map. */
  lemma WhatwebPatch(
    before: map<string, string>, after: map<string, string>, from: Option<string>, into: Option<string>,
    changes: seq<Change>)
    requires WhatwebDiff(before, after, from, into, changes)
    ensures Faithful(before, after, PluginEdits(changes))
  {
    var names: seq<string>, plugins: seq<Change> :|
      && PluginsCollected(before, after, names, plugins)
      && (forall n | PluginChange(before, after, n).Some? :: n in names)
      && changes == plugins + StatusChange(from, into);
    StatusIsNoPlugin(plugins, from, into);
    PluginsPatch(before, after, names, plugins);
  }

  /** Replaying the changes of any series of whatweb results over the first plugin map gives the last
      one exactly. */
  lemma WhatwebDiffsTelescope(results: seq<seq<PageResult>>, diffs: seq<seq<Change>>)
    requires |results| == |diffs| + 1
    requires forall i | 0 <= i < |diffs| ::
      WhatwebDiff(
        PluginsOf(results[i]), PluginsOf(results[i + 1]), StatusOf(results[i]), StatusOf(results[i + 1]), diffs[i])
    ensures
      var patches := seq(|diffs|, i requires 0 <= i < |diffs| => PluginEdits(diffs[i]));
      Replay(PluginsOf(results[0]), Concat(patches)) == PluginsOf(results[|diffs|])
  {
    var patches := seq(|diffs|, i requires 0 <= i < |diffs| => PluginEdits(diffs[i]));
    var states := seq(|results|, i requires 0 <= i < |results| => PluginsOf(results[i]));
    forall i | 0 <= i < |patches|
      ensures Faithful(states[i], states[i + 1], patches[i])
    {
      WhatwebPatch(states[i], states[i + 1], StatusOf(results[i]), StatusOf(results[i + 1]), diffs[i]);
    }
    PatchesTelescope(states, patches);
  }

  /** The status after the changes, starting from `s`. */
  function ReplayStatus(s: Option<string>, changes: seq<Change>): Option<string> {
    if changes == [] then s
    else
      var c := changes[|changes| - 1];
      if c.field == HTTP_STATUS then c.newValue else ReplayStatus(s, changes[..|changes| - 1])
  }

  lemma {:induction false} PluginsLeaveStatus(
    before: map<string, string>, after: map<string, string>, names: seq<string>, changes: seq<Change>,
    s: Option<string>)
    requires PluginsCollected(before, after, names, changes)
    ensures ReplayStatus(s, changes) == s
  {
    if changes != [] {
      var n := |changes| - 1;
      PluginsLeaveStatus(before, after, names[..n], changes[..n], s);
      assert changes[n].field[0] == 't' && HTTP_STATUS[0] == 'h';
    }
  }

  /** The HTTP status is not always recoverable: the changes carry it over exactly when it is known on
      both sides or did not change. */
  lemma StatusIsCarriedIffKnown(
    before: map<string, string>, after: map<string, string>, from: Option<string>, into: Option<string>,
    changes: seq<Change>)
    requires WhatwebDiff(before, after, from, into, changes)
    ensures ReplayStatus(from, changes) == into <==> (from.Some? && into.Some?) || from == into
  {
    var names: seq<string>, plugins: seq<Change> :|
      && PluginsCollected(before, after, names, plugins)
      && (forall n | PluginChange(before, after, n).Some? :: n in names)
      && changes == plugins + StatusChange(from, into);
    PluginsLeaveStatus(before, after, names, plugins, from);
    if StatusChange(from, into) == [] {
      assert changes == plugins;
    }
  }

  lemma WhatwebMember(
    before: map<string, string>, after: map<string, string>, from: Option<string>, into: Option<string>,
    changes: seq<Change>, c: Change)
    requires WhatwebDiff(before, after, from, into, changes)
    ensures c in changes <==> (exists n :: PluginChange(before, after, n) == Some(c)) || c in StatusChange(from, into)
  {
    var names: seq<string>, plugins: seq<Change> :|
      && PluginsCollected(before, after, names, plugins)
      && (forall n | PluginChange(before, after, n).Some? :: n in names)
      && changes == plugins + StatusChange(from, into);
    if c in plugins {
      var i :| 0 <= i < |plugins| && plugins[i] == c;
      assert PluginChange(before, after, names[i]) == Some(c);
    }
    if n :| PluginChange(before, after, n) == Some(c) {
      var i :| 0 <= i < |names| && names[i] == n;
      assert plugins[i] == c;
    }
  }

  /** Comparing the other way round reports the inverse of every change. */
  lemma WhatwebDiffInverse(
    before: map<string, string>, after: map<string, string>, from: Option<string>, into: Option<string>,
    changes: seq<Change>, back: seq<Change>, c: Change)
    requires WhatwebDiff(before, after, from, into, changes) && WhatwebDiff(after, before, into, from, back)
    ensures c in changes <==> Inverse(c) in back
  {
    WhatwebMember(before, after, from, into, changes, c);
    WhatwebMember(after, before, into, from, back, Inverse(c));
    InverseStatus(from, into, c);
    if n :| PluginChange(before, after, n) == Some(c) {
      InversePlugin(before, after, n, c);
    }
    if n :| PluginChange(after, before, n) == Some(Inverse(c)) {
      InversePlugin(after, before, n, Inverse(c));
    }
  }

  lemma InversePlugin(before: map<string, string>, after: map<string, string>, n: string, c: Change)
    requires PluginChange(before, after, n) == Some(c)
    ensures PluginChange(after, before, n) == Some(Inverse(c))
  {
  }

  lemma InverseStatus(from: Option<string>, into: Option<string>, c: Change)
    ensures c in StatusChange(from, into) <==> Inverse(c) in StatusChange(into, from)
  {
  }

  /** The events of a whatweb diff: technologies by name with their summaries, and the status of the first
      page where both sides have one and they differ. */
  lemma WhatwebEventsAre(
    beforePages: seq<PageResult>, afterPages: seq<PageResult>, changes: seq<Change>, c: Change)
    requires WhatwebDiff(
      PluginsOf(beforePages), PluginsOf(afterPages), StatusOf(beforePages), StatusOf(afterPages), changes)
    ensures
      var before, after := PluginsOf(beforePages), PluginsOf(afterPages);
      c in changes <==>
        || (exists n :: c.field == "technology:" + n &&
              (|| (n !in before && n in after && c.kind == TechnologyAdded
                   && c.oldValue == None && c.newValue == Some(after[n]))
               || (n in before && n !in after && c.kind == TechnologyRemoved
                   && c.oldValue == Some(before[n]) && c.newValue == None)
               || (n in before && n in after && before[n] != after[n] && c.kind == TechnologyChanged
                   && c.oldValue == Some(before[n]) && c.newValue == Some(after[n]))))
        || (c.field == "http_status" && c.kind == HttpChanged
            && beforePages != [] && afterPages != []
            && beforePages[0].httpStatus.Some? && afterPages[0].httpStatus.Some?
            && beforePages[0].httpStatus != afterPages[0].httpStatus
            && c.oldValue == Some(Str(beforePages[0].httpStatus.value))
            && c.newValue == Some(Str(afterPages[0].httpStatus.value)))
  {
    var before, after := PluginsOf(beforePages), PluginsOf(afterPages);
    WhatwebMember(before, after, StatusOf(beforePages), StatusOf(afterPages), changes, c);
    forall n
      ensures PluginChange(before, after, n) == Some(c) <==>
        c.field == "technology:" + n &&
          (|| (n !in before && n in after && c.kind == TechnologyAdded
               && c.oldValue == None && c.newValue == Some(after[n]))
           || (n in before && n !in after && c.kind == TechnologyRemoved
               && c.oldValue == Some(before[n]) && c.newValue == None)
           || (n in before && n in after && before[n] != after[n] && c.kind == TechnologyChanged
               && c.oldValue == Some(before[n]) && c.newValue == Some(after[n])))
    {
      assert c == Change(c.kind, c.field, c.oldValue, c.newValue);
    }
    StatusEventIs(beforePages, afterPages, c);
  }

  lemma StatusEventIs(beforePages: seq<PageResult>, afterPages: seq<PageResult>, c: Change)
    ensures c in StatusChange(StatusOf(beforePages), StatusOf(afterPages)) <==>
      && c.field == "http_status" && c.kind == HttpChanged
      && beforePages != [] && afterPages != []
      && beforePages[0].httpStatus.Some? && afterPages[0].httpStatus.Some?
      && beforePages[0].httpStatus != afterPages[0].httpStatus
      && c.oldValue == Some(Str(beforePages[0].httpStatus.value))
      && c.newValue == Some(Str(afterPages[0].httpStatus.value))
  {
    if beforePages != [] && afterPages != [] && beforePages[0].httpStatus.Some? && afterPages[0].httpStatus.Some? {
      StrInjective(beforePages[0].httpStatus.value, afterPages[0].httpStatus.value);
    }
    assert c == Change(c.kind, c.field, c.oldValue, c.newValue);
  }
}
