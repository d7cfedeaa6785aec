/** The identity of a finding: the text that is hashed into its signature. */
module Signature {
  import opened Options
  import opened Text

  function Join(parts: seq<string>, separator: char): string {
    if parts == [] then ""
    else if |parts| == 1 then parts[0]
    else parts[0] + [separator] + Join(parts[1..], separator)
  }

  /** `sorted({c.upper() for c in cve_ids})`. */
  function Canonical(cveIds: seq<string>): seq<string> {
    SortedUnique(seq(|cveIds|, i requires 0 <= i < |cveIds| => Upper(cveIds[i])))
  }

  function PortText(port: Option<int>): string {
    if port.Some? then Str(port.value) else ""
  }

  function OrEmpty(s: Option<string>): string {
    if s.Some? then s.value else ""
  }

  function CveKey(asset: string, cveIds: seq<string>): string {
    Join(["cve", asset, Join(Canonical(cveIds), ',')], '|')
  }

  function GenericKey(asset: string, title: string, port: Option<int>, protocol: Option<string>): string {
    Join(["generic", asset, title, PortText(port), OrEmpty(protocol)], '|')
  }

  /** The signature before hashing; SHA-256 is taken to be injective, so this stands for it. */
  function Key(asset: Option<string>, cveIds: seq<string>, title: string, port: Option<int>, protocol: Option<string>):
    Option<string>
  {
    if asset.None? then None
    else if cveIds != [] then Some(CveKey(asset.value, cveIds))
    else Some(GenericKey(asset.value, title, port, protocol))
  }

  // ---- Taking keys apart again ----

  ghost predicate Free(parts: seq<string>, separator: char) {
    forall s | s in parts :: separator !in s
  }

  lemma {:induction false} JoinCommas(parts: seq<string>, separator: char)
    requires Free(parts, separator)
    ensures |parts| <= 1 ==> separator !in Join(parts, separator)
    ensures |parts| > 1 ==> separator in Join(parts, separator)
  {
    if |parts| > 1 {
      assert Join(parts, separator)[|parts[0]|] == separator;
    }
  }

  lemma {:induction false} JoinInjective(a: seq<string>, b: seq<string>, separator: char)
    requires a != [] && b != [] && Free(a, separator) && Free(b, separator)
    requires Join(a, separator) == Join(b, separator)
    ensures a == b
  {
    JoinCommas(a, separator);
    JoinCommas(b, separator);
    if |a| > 1 && |b| > 1 {
      SplitFirst(a[0], Join(a[1..], separator), b[0], Join(b[1..], separator), separator);
      JoinInjective(a[1..], b[1..], separator);
      assert a == [a[0]] + a[1..] && b == [b[0]] + b[1..];
    }
  }

  lemma JoinCons(x: string, rest: seq<string>, separator: char)
    requires rest != []
    ensures Join([x] + rest, separator) == x + [separator] + Join(rest, separator)
  {
    assert ([x] + rest)[1..] == rest;
  }

  lemma CveKeyParts(asset: string, cveIds: seq<string>)
    ensures CveKey(asset, cveIds) == "cve" + "|" + (asset + "|" + Join(Canonical(cveIds), ','))
  {
    var list := Join(Canonical(cveIds), ',');
    JoinCons(asset, [list], '|');
    JoinCons("cve", [asset, list], '|');
    assert ["cve", asset, list] == ["cve"] + [asset, list] && [asset, list] == [asset] + [list];
  }

  lemma GenericKeyParts(asset: string, title: string, port: Option<int>, protocol: Option<string>)
    ensures GenericKey(asset, title, port, protocol)
         == "generic" + "|" + (asset + "|" + (title + "|" + PortText(port) + "|" + OrEmpty(protocol)))
  {
    var p, q := PortText(port), OrEmpty(protocol);
    JoinCons(p, [q], '|');
    JoinCons(title, [p, q], '|');
    JoinCons(asset, [title, p, q], '|');
    JoinCons("generic", [asset, title, p, q], '|');
    assert [p, q] == [p] + [q] && [title, p, q] == [title] + [p, q];
    assert [asset, title, p, q] == [asset] + [title, p, q];
    assert ["generic", asset, title, p, q] == ["generic"] + [asset, title, p, q];
    assert title + "|" + (p + "|" + q) == title + "|" + p + "|" + q;
  }

  ghost predicate Names(cveIds: seq<string>, c: string) {
    exists i :: 0 <= i < |cveIds| && Upper(cveIds[i]) == c
  }

  ghost predicate SameCves(a: seq<string>, b: seq<string>) {
    forall c :: Names(a, c) <==> Names(b, c)
  }

  lemma CanonicalMember(cveIds: seq<string>, c: string)
    ensures c in Canonical(cveIds) <==> Names(cveIds, c)
  {
    var up := seq(|cveIds|, i requires 0 <= i < |cveIds| => Upper(cveIds[i]));
    SortedUniqueSorts(up);
    if c in up {
      var i :| 0 <= i < |up| && up[i] == c;
      assert Upper(cveIds[i]) == c;
    }
    if i :| 0 <= i < |cveIds| && Upper(cveIds[i]) == c {
      assert up[i] == c;
    }
  }

  lemma CanonicalAscends(cveIds: seq<string>)
    ensures Ascending(Canonical(cveIds))
  {
    SortedUniqueSorts(seq(|cveIds|, i requires 0 <= i < |cveIds| => Upper(cveIds[i])));
  }

  lemma CanonicalIffSameCves(a: seq<string>, b: seq<string>)
    ensures Canonical(a) == Canonical(b) <==> SameCves(a, b)
  {
    forall c
      ensures c in Canonical(a) <==> Names(a, c)
      ensures c in Canonical(b) <==> Names(b, c)
    {
      CanonicalMember(a, c);
      CanonicalMember(b, c);
    }
    if SameCves(a, b) {
      CanonicalAscends(a);
      CanonicalAscends(b);
      AscendingIsCanonical(Canonical(a), Canonical(b));
    } else {
      var c :| Names(a, c) != Names(b, c);
      assert (c in Canonical(a)) != (c in Canonical(b));
    }
  }

  lemma CanonicalFree(cveIds: seq<string>)
    requires Free(cveIds, ',')
    ensures Free(Canonical(cveIds), ',') && (cveIds != [] ==> Canonical(cveIds) != [])
  {
    forall c | c in Canonical(cveIds)
      ensures ',' !in c
    {
      CanonicalMember(cveIds, c);
      var i :| 0 <= i < |cveIds| && Upper(cveIds[i]) == c;
      assert cveIds[i] in cveIds;
      assert forall k | 0 <= k < |c| :: c[k] == ',' ==> cveIds[i][k] == ',';
    }
    if cveIds != [] {
      CanonicalMember(cveIds, Upper(cveIds[0]));
    }
  }

  // ---- Injectivity ----

  lemma CveKeysAgree(a: string, cves: seq<string>, b: string, others: seq<string>)
    requires '|' !in a && '|' !in b && Free(cves, ',') && Free(others, ',') && cves != [] && others != []
    ensures CveKey(a, cves) == CveKey(b, others) <==> a == b && SameCves(cves, others)
  {
    CveKeyParts(a, cves);
    CveKeyParts(b, others);
    CanonicalIffSameCves(cves, others);
    if CveKey(a, cves) == CveKey(b, others) {
      var x, y := Join(Canonical(cves), ','), Join(Canonical(others), ',');
      SplitFirst("cve", a + "|" + x, "cve", b + "|" + y, '|');
      SplitFirst(a, x, b, y, '|');
      CanonicalFree(cves);
      CanonicalFree(others);
      JoinInjective(Canonical(cves), Canonical(others), ',');
    }
  }

  lemma PortTextInjective(p: Option<int>, q: Option<int>)
    ensures PortText(p) == PortText(q) <==> p == q
    ensures '|' !in PortText(p)
  {
    if p.Some? { StrChars(p.value); }
    if q.Some? { StrChars(q.value); }
    if p.Some? && q.Some? { StrInjective(p.value, q.value); }
  }

  /** Titles may contain the separator: the port and the protocol are read off the right-hand end. */
  lemma GenericKeysAgree(
    a: string, title: string, port: Option<int>, protocol: Option<string>,
    b: string, title': string, port': Option<int>, protocol': Option<string>)
    requires '|' !in a && '|' !in b && '|' !in OrEmpty(protocol) && '|' !in OrEmpty(protocol')
    ensures GenericKey(a, title, port, protocol) == GenericKey(b, title', port', protocol')
      <==> a == b && title == title' && port == port' && OrEmpty(protocol) == OrEmpty(protocol')
  {
    GenericKeyParts(a, title, port, protocol);
    GenericKeyParts(b, title', port', protocol');
    PortTextInjective(port, port');
    PortTextInjective(port', port);
    if GenericKey(a, title, port, protocol) == GenericKey(b, title', port', protocol') {
      var x, y := title + "|" + PortText(port), title' + "|" + PortText(port');
      var p, q := OrEmpty(protocol), OrEmpty(protocol');
      SplitFirst("generic", a + "|" + (x + "|" + p), "generic", b + "|" + (y + "|" + q), '|');
      SplitFirst(a, x + "|" + p, b, y + "|" + q, '|');
      SplitLast(x, p, y, q, '|');
      SplitLast(title, PortText(port), title', PortText(port'), '|');
    }
  }

  lemma TiersApart(
    a: string, cves: seq<string>, b: string, title: string, port: Option<int>, protocol: Option<string>)
    ensures CveKey(a, cves) != GenericKey(b, title, port, protocol)
  {
    CveKeyParts(a, cves);
    GenericKeyParts(b, title, port, protocol);
    assert CveKey(a, cves)[0] == 'c' && GenericKey(b, title, port, protocol)[0] == 'g';
  }

  /** The identity of an observation on a known asset. */
  ghost predicate SameIdentity(
    a: string, cves: seq<string>, title: string, port: Option<int>, protocol: Option<string>,
    b: string, cves': seq<string>, title': string, port': Option<int>, protocol': Option<string>)
  {
    a == b && (cves == [] <==> cves' == [])
    && (cves != [] ==> SameCves(cves, cves'))
    && (cves == [] ==> title == title' && port == port' && OrEmpty(protocol) == OrEmpty(protocol'))
  }

  /** Two observations have one signature exactly when they name the same asset and the same set of
      CVEs, or the same asset, title, port and protocol when neither names a CVE. */
  lemma SignatureIsIdentity(
    a: string, cves: seq<string>, title: string, port: Option<int>, protocol: Option<string>,
    b: string, cves': seq<string>, title': string, port': Option<int>, protocol': Option<string>)
    requires '|' !in a && '|' !in b && Free(cves, ',') && Free(cves', ',')
    requires '|' !in OrEmpty(protocol) && '|' !in OrEmpty(protocol')
    ensures Key(Some(a), cves, title, port, protocol) == Key(Some(b), cves', title', port', protocol')
      <==> SameIdentity(a, cves, title, port, protocol, b, cves', title', port', protocol')
  {
    if cves != [] && cves' != [] {
      CveKeysAgree(a, cves, b, cves');
    } else if cves != [] {
      TiersApart(a, cves, b, title', port', protocol');
    } else if cves' != [] {
      TiersApart(b, cves', a, title, port, protocol);
    } else {
      GenericKeysAgree(a, title, port, protocol, b, title', port', protocol');
    }
  }

  lemma CommaCollides()
    ensures CveKey("a", ["X,Y"]) == CveKey("a", ["X", "Y"])
    ensures Names(["X,Y"], "X,Y") && !Names(["X", "Y"], "X,Y")
  {
    CanonicalOfUpper(["X,Y"]);
    CanonicalOfUpper(["X", "Y"]);
    assert ["X", "Y"][1..] == ["Y"];
    assert Join(["X", "Y"], ',') == "X" + [','] + Join(["Y"], ',');
    assert Upper(["X,Y"][0]) == "X,Y";
    forall i | 0 <= i < 2
      ensures Upper(["X", "Y"][i]) != "X,Y"
    {
      assert |Upper(["X", "Y"][i])| == 1;
    }
  }

  lemma CanonicalOfUpper(cveIds: seq<string>)
    requires Ascending(cveIds) && forall i | 0 <= i < |cveIds| :: Upper(cveIds[i]) == cveIds[i]
    ensures Canonical(cveIds) == cveIds
  {
    assert seq(|cveIds|, i requires 0 <= i < |cveIds| => Upper(cveIds[i])) == cveIds;
    SortedListingIsFixed(cveIds);
  }

  lemma ProtocolSeparatorCollides()
    ensures GenericKey("a", "t", None, Some("80|tcp")) == GenericKey("a", "t|", Some(80), Some("tcp"))
  {
    GenericKeyParts("a", "t", None, Some("80|tcp"));
    GenericKeyParts("a", "t|", Some(80), Some("tcp"));
    PortTextOfEighty();
    SameTail(PortText(None), PortText(Some(80)));
  }

  lemma PortTextOfEighty()
    ensures PortText(Some(80)) == "80" && PortText(None) == ""
  {
    assert Digits(8) == "8";
  }

  lemma SameTail(none: string, eighty: string)
    requires none == "" && eighty == "80"
    ensures "t" + "|" + none + "|" + "80|tcp" == "t|" + "|" + eighty + "|" + "tcp"
  {
  }

  /** Without the assumptions on CVE ids and on protocols different findings can share a signature. */
  lemma SeparatorsInsidePartsCollide()
    ensures CveKey("a", ["X,Y"]) == CveKey("a", ["X", "Y"]) && !SameCves(["X,Y"], ["X", "Y"])
    ensures GenericKey("a", "t", None, Some("80|tcp")) == GenericKey("a", "t|", Some(80), Some("tcp"))
  {
    CommaCollides();
    ProtocolSeparatorCollides();
  }

  // ---- Exactly which keys are equal ----

  /** Python's `s.split(separator)`. */
  function Split(s: string, separator: char): (parts: seq<string>)
    ensures parts != []
  {
    if s == [] then [""]
    else
      var rest := Split(s[1..], separator);
      if s[0] == separator then [""] + rest else [[s[0]] + rest[0]] + rest[1..]
  }

  /** The parts, each split once more at the separator. */
  function Pieces(parts: seq<string>, separator: char): seq<string> {
    if parts == [] then [] else Split(parts[0], separator) + Pieces(parts[1..], separator)
  }

  lemma {:induction false} SplitAppend(a: string, b: string, separator: char)
    ensures Split(a + [separator] + b, separator) == Split(a, separator) + Split(b, separator)
  {
    var s := a + [separator] + b;
    if a == [] {
      assert s[1..] == b;
    } else {
      assert s[1..] == a[1..] + [separator] + b;
      SplitAppend(a[1..], b, separator);
    }
  }

  lemma {:induction false} SplitJoin(parts: seq<string>, separator: char)
    requires parts != []
    ensures Split(Join(parts, separator), separator) == Pieces(parts, separator)
  {
    if |parts| == 1 {
      assert Pieces(parts[1..], separator) == [];
    } else {
      SplitJoin(parts[1..], separator);
      SplitAppend(parts[0], Join(parts[1..], separator), separator);
    }
  }

  lemma {:induction false} JoinSplit(s: string, separator: char)
    ensures Join(Split(s, separator), separator) == s
  {
    if s != [] {
      JoinSplit(s[1..], separator);
      var rest := Split(s[1..], separator);
      if s[0] == separator {
        JoinCons("", rest, separator);
      } else if |rest| > 1 {
        JoinCons([s[0]] + rest[0], rest[1..], separator);
        JoinCons(rest[0], rest[1..], separator);
        assert rest == [rest[0]] + rest[1..];
      }
    }
  }

  /** Two lists join to one text exactly when they split into the same pieces. */
  lemma JoinsAgreeIff(a: seq<string>, b: seq<string>, separator: char)
    requires a != [] && b != []
    ensures Join(a, separator) == Join(b, separator) <==> Pieces(a, separator) == Pieces(b, separator)
  {
    SplitJoin(a, separator);
    SplitJoin(b, separator);
    JoinSplit(Join(a, separator), separator);
    JoinSplit(Join(b, separator), separator);
  }

  /** With no assumption on the CVE ids: two CVE keys are equal exactly when the sorted ids split at commas
      into the same pieces. */
  lemma CveKeysEqualIff(a: string, cves: seq<string>, b: string, others: seq<string>)
    requires '|' !in a && '|' !in b && cves != [] && others != []
    ensures CveKey(a, cves) == CveKey(b, others) <==>
      a == b && Pieces(Canonical(cves), ',') == Pieces(Canonical(others), ',')
  {
    CveKeyParts(a, cves);
    CveKeyParts(b, others);
    CanonicalMember(cves, Upper(cves[0]));
    CanonicalMember(others, Upper(others[0]));
    JoinsAgreeIff(Canonical(cves), Canonical(others), ',');
    var x, y := Join(Canonical(cves), ','), Join(Canonical(others), ',');
    if CveKey(a, cves) == CveKey(b, others) {
      SplitFirst("cve", a + "|" + x, "cve", b + "|" + y, '|');
      SplitFirst(a, x, b, y, '|');
    }
  }

  /** With no assumption on titles and protocols: two generic keys are equal exactly when title, port and
      protocol split at the bars into the same pieces. */
  lemma GenericKeysEqualIff(
    a: string, title: string, port: Option<int>, protocol: Option<string>,
    b: string, title': string, port': Option<int>, protocol': Option<string>)
    requires '|' !in a && '|' !in b
    ensures GenericKey(a, title, port, protocol) == GenericKey(b, title', port', protocol') <==>
      && a == b
      && Pieces([title, PortText(port), OrEmpty(protocol)], '|')
         == Pieces([title', PortText(port'), OrEmpty(protocol')], '|')
  {
    var p, q := [title, PortText(port), OrEmpty(protocol)], [title', PortText(port'), OrEmpty(protocol')];
    JoinsAgreeIff(p, q, '|');
    GenericKeySplits(a, p);
    GenericKeySplits(b, q);
    if GenericKey(a, title, port, protocol) == GenericKey(b, title', port', protocol') {
      SplitFirst("generic", a + "|" + Join(p, '|'), "generic", b + "|" + Join(q, '|'), '|');
      SplitFirst(a, Join(p, '|'), b, Join(q, '|'), '|');
    }
  }

  lemma GenericKeySplits(asset: string, rest: seq<string>)
    requires |rest| == 3
    ensures Join(["generic", asset, rest[0], rest[1], rest[2]], '|')
         == "generic" + "|" + (asset + "|" + Join(rest, '|'))
  {
    JoinCons(asset, rest, '|');
    JoinCons("generic", [asset] + rest, '|');
    assert ["generic"] + ([asset] + rest) == ["generic", asset, rest[0], rest[1], rest[2]];
  }
}
