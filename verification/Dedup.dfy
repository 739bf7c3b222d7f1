/** What two share links with one canonical form, and hence one hash, have in common. */
module Dedup {
  import opened Basics
  import opened Strings
  import opened Links
  import opened CanonicalForm
  import opened QueryKeys
  import opened ShareLink

  // ---- trimming an accepted line twice changes nothing ----

  lemma {:induction false} TrimRightEnds(s: string)
    ensures TrimRightSpace(s) != "" ==> !IsSpace(TrimRightSpace(s)[|TrimRightSpace(s)| - 1])
    ensures TrimRightSpace(s) <= s
    ensures s != "" && !IsSpace(s[0]) ==> TrimRightSpace(s) != ""
    decreases |s|
  {
    if s != "" && IsSpace(s[|s| - 1]) {
      TrimRightEnds(s[..|s| - 1]);
    }
  }

  /** Text without outer white space or byte order mark. */
  predicate Trimmed(s: string) {
    s != "" && !IsSpace(s[0]) && s[0] != BOM_START && !IsSpace(s[|s| - 1])
  }

  lemma TrimmedStays(s: string)
    requires Trimmed(s)
    ensures Trim(s) == s
  {
    assert BOM[0] == BOM_START && BOM_NBSP[0] == BOM_START;
    assert !HasPrefix(s, BOM) && !HasPrefix(s, BOM_NBSP);
  }

  /** The scheme names of share links consist of lower-case letters and digits. */
  lemma KnownSchemeStart(scheme: string)
    requires ProtocolOf(scheme).Some?
    ensures scheme != "" && 'a' <= scheme[0] <= 'z'
  {
  }

  lemma KnownLineTrimmed(line: string)
    requires Index(Trim(line), DELIMITER) >= 0
    requires ProtocolOf(ToLower(Trim(line)[..Index(Trim(line), DELIMITER)])).Some?
    ensures Trimmed(Trim(line))
  {
    var s := Trim(line);
    var i := Index(s, DELIMITER);
    KnownSchemeStart(ToLower(s[..i]));
    assert ToLower(s[..i])[0] == LowerChar(s[0]);
    TrimRightEnds(TrimLeftSpace(TrimPrefix(TrimPrefix(line, BOM), BOM_NBSP)));
  }

  // ---- the lookups of two queries with the same pairs ----

  /** For these keys, equal keys carry equal values, so the order of the pairs does not matter. */
  ghost predicate KeysDecide(parts: seq<string>, keys: set<string>) {
    forall p, q :: p in parts && q in parts && PairOf(p).0 == PairOf(q).0 && PairOf(p).0 in keys ==>
                     PairOf(p).1 == PairOf(q).1
  }

  lemma FirstMatchIsSome(parts: seq<string>, k: string)
    requires k in FirstMatches(Pairs(parts))
    ensures exists p :: p in parts && PairOf(p) == (k, FirstMatches(Pairs(parts))[k])
  {
    var v := FirstMatches(Pairs(parts))[k];
    FirstMatchesAreFirst(Pairs(parts), k);
    assert FirstMatch(Pairs(parts), k, v);
    var i :| 0 <= i < |parts| && Pairs(parts)[i] == (k, v);
    assert parts[i] in parts;
  }

  lemma KeyHasMatch(parts: seq<string>, p: string)
    requires p in parts
    ensures PairOf(p).0 in FirstMatches(Pairs(parts))
  {
    var i :| 0 <= i < |parts| && parts[i] == p;
    assert Pairs(parts)[i].0 == PairOf(p).0;
  }

  lemma MatchesIncluded(a: seq<string>, b: seq<string>, keys: set<string>, k: string)
    requires multiset(a) == multiset(b) && KeysDecide(a, keys) && k in keys && k in FirstMatches(Pairs(a))
    ensures k in FirstMatches(Pairs(b)) && FirstMatches(Pairs(b))[k] == FirstMatches(Pairs(a))[k]
  {
    FirstMatchIsSome(a, k);
    var p :| p in a && PairOf(p) == (k, FirstMatches(Pairs(a))[k]);
    assert p in multiset(b);
    KeyHasMatch(b, p);
    FirstMatchIsSome(b, k);
    var q :| q in b && PairOf(q) == (k, FirstMatches(Pairs(b))[k]);
    assert q in multiset(a);
  }

  /** All orders of the pairs answer alike for the keys whose pairs agree. */
  lemma SameLookups(a: seq<string>, b: seq<string>, keys: set<string>)
    requires multiset(a) == multiset(b) && KeysDecide(a, keys)
    ensures SameOn(FirstMatches(Pairs(a)), FirstMatches(Pairs(b)), keys)
  {
    KeysDecideSame(a, b, keys);
    AllMatchesIncluded(a, b, keys);
    AllMatchesIncluded(b, a, keys);
  }

  lemma KeysDecideSame(a: seq<string>, b: seq<string>, keys: set<string>)
    requires multiset(a) == multiset(b) && KeysDecide(a, keys)
    ensures KeysDecide(b, keys)
  {
    forall p | p in b ensures p in a {
      assert p in multiset(b);
    }
  }

  lemma AllMatchesIncluded(a: seq<string>, b: seq<string>, keys: set<string>)
    requires multiset(a) == multiset(b) && KeysDecide(a, keys)
    ensures forall k :: k in keys && k in FirstMatches(Pairs(a)) ==>
              k in FirstMatches(Pairs(b)) && FirstMatches(Pairs(b))[k] == FirstMatches(Pairs(a))[k]
  {
    var m, n := FirstMatches(Pairs(a)), FirstMatches(Pairs(b));
    forall k | k in keys && k in m ensures k in n && n[k] == m[k] {
      MatchesIncluded(a, b, keys, k);
    }
  }

  // ---- the outbound as a function of the split link ----

  function LookupOf(l: Link): Lookup {
    FirstMatches(Pairs(QueryParts(l.query)))
  }

  /** What the builders make of a split link when the server is called `host`. */
  function BuildAt(l: Link, host: string): Result<Built, LinkError>
    requires ProtocolOf(l.scheme).Some?
  {
    match PortNumber(l.port)
    case Err(e) => Err(e)
    case Ok(port) => BuildParsed(ProtocolOf(l.scheme).value, l.scheme, l.userinfo, LookupOf(l), host, port)
  }

  /** A link whose builder reads it through ParseCommon alone. */
  predicate PlainForm(l: Link) {
    ProtocolOf(l.scheme).Some? && l.scheme != "vmess" && (ProtocolOf(l.scheme) == Some("ss") ==> l.userinfo != "")
  }

  /** What ParseCommon makes of a split link. */
  function CommonFrom(l: Link): Result<Parsed, LinkError> {
    match PortNumber(l.port)
    case Err(e) => Err(e)
    case Ok(port) => Ok(Parsed(l.userinfo, Unbracket(l.host), port, Pairs(QueryParts(l.query))))
  }

  lemma CommonOfLink(l: Link, body: string)
    requires SplitLink(l.scheme, body) == Ok(l)
    ensures ParseCommon(body) == CommonFrom(l)
    ensures CommonFrom(l).Ok? ==> CommonFrom(l).value.userinfo == l.userinfo
  {
  }

  function BuildFrom(proto: string, scheme: string, common: Result<Parsed, LinkError>): Result<Built, LinkError> {
    match common
    case Err(e) => Err(e)
    case Ok(p) => BuildParsed(proto, scheme, p.userinfo, FirstMatches(p.pairs), p.host, p.port)
  }

  lemma BuildOfCommon(lib: Lib, proto: string, scheme: string, body: string)
    requires proto != "vmess"
    requires proto == "ss" && ParseCommon(body).Ok? ==> ParseCommon(body).value.userinfo != ""
    ensures Build(lib, proto, scheme, body) == BuildFrom(proto, scheme, ParseCommon(body))
  {
  }

  lemma BuildAtCommon(l: Link)
    requires ProtocolOf(l.scheme).Some?
    ensures BuildAt(l, Unbracket(l.host)) == BuildFrom(ProtocolOf(l.scheme).value, l.scheme, CommonFrom(l))
  {
  }

  lemma BuildOfLink(lib: Lib, l: Link, body: string)
    requires SplitLink(l.scheme, body) == Ok(l) && PlainForm(l)
    ensures Build(lib, ProtocolOf(l.scheme).value, l.scheme, body) == BuildAt(l, Unbracket(l.host))
  {
    hide SplitLink, ParseCommon, CommonFrom, Build, BuildAt, BuildFrom;
    CommonOfLink(l, body);
    BuildOfCommon(lib, ProtocolOf(l.scheme).value, l.scheme, body);
    BuildAtCommon(l);
  }

  /** The outcome of parsing a line, beyond the name of the node. */
  predicate LineGives(r: Result<Option<Node>, LinkError>, uri: string, uriHash: string, proto: string,
                      built: Result<Built, LinkError>)
  {
    match built
    case Err(e) => r == Err(e)
    case Ok(b) =>
      && r.Ok? && r.value.Some?
      && r.value.value == NodeFrom(uri, uriHash, proto, b, r.value.value.name)
  }

  /** The scheme of a line and the text behind its delimiter. */
  function SchemeOf(s: string): string
    requires Index(s, DELIMITER) >= 0
  {
    ToLower(s[..Index(s, DELIMITER)])
  }

  function RestOf(s: string): string
    requires Index(s, DELIMITER) >= 0
  {
    s[Index(s, DELIMITER) + 3..]
  }

  /** A line of a known scheme is parsed by its builder and hashed by its canonical form. */
  lemma ParseLineSteps(lib: Lib, line: string)
    requires Index(Trim(line), DELIMITER) >= 0 && ProtocolOf(SchemeOf(Trim(line))).Some?
    requires Canonical(lib, line).Ok?
    ensures var s := Trim(line);
            LineGives(ParseLine(lib, line), s, lib.hash(Canonical(lib, line).value), ProtocolOf(SchemeOf(s)).value,
                      Build(lib, ProtocolOf(SchemeOf(s)).value, SchemeOf(s), CutFragment(RestOf(s))))
    ensures ParseLine(lib, line).Ok? ==> ParseLine(lib, line).value.value.name == NameOf(RestOf(Trim(line)))
  {
    var s := Trim(line);
    KnownLineTrimmed(line);
    TrimmedStays(s);
    assert Canonical(lib, s) == Canonical(lib, line);
  }

  lemma SplitOfLine(line: string)
    requires LinkOf(line).Ok?
    ensures var s := Trim(line);
            && Index(s, DELIMITER) >= 0
            && SplitLink(SchemeOf(s), CutFragment(RestOf(s))) == LinkOf(line)
            && LinkOf(line).value.scheme == SchemeOf(s)
  {
    var s := Trim(line);
    SplitLinkScheme(SchemeOf(s), CutFragment(RestOf(s)));
  }

  /** An accepted plain-form line, in terms of its split link. */
  lemma ParseLineOfLink(lib: Lib, line: string)
    requires Accepted(line) && PlainForm(LinkOf(line).value)
    ensures Canonical(lib, line).Ok?
    ensures var l := LinkOf(line).value;
            LineGives(ParseLine(lib, line), Trim(line), lib.hash(Canonical(lib, line).value),
                      ProtocolOf(l.scheme).value, BuildAt(l, Unbracket(l.host)))
  {
    CanonicalOfAccepted(lib, line);
    SplitOfLine(line);
    ParseLineSteps(lib, line);
    hide Build, BuildAt;
    BuildOfLink(lib, LinkOf(line).value, CutFragment(RestOf(Trim(line))));
  }

  lemma DefaultSocksPort()
    ensures PortNumber("1080") == Ok(1080)
  {
    assert "1080"[..3] == "108" && "108"[..2] == "10" && "10"[..1] == "1" && "1"[..0] == "";
    assert DecimalValue("1") == 1;
    assert DecimalValue("10") == 10;
    assert DecimalValue("108") == 108;
    assert DecimalValue("1080") == 1080;
  }

  lemma SocksPorts(userinfo: string, q: Lookup, host: string)
    ensures BuildParsed("socks", "socks", userinfo, q, host, 0) == BuildParsed("socks", "socks", userinfo, q, host, 1080)
  {
  }

  lemma OnlySocksStrips(scheme: string, p1: string, p2: string)
    requires ProtocolOf(scheme).Some? && StripDefault(scheme, p1) == StripDefault(scheme, p2) && p1 != p2
    ensures scheme == "socks" && ((p1 == "" && p2 == "1080") || (p1 == "1080" && p2 == ""))
  {
  }

  /** Stripping the default port and restoring it by the scheme come to the same outbound. */
  lemma PortsAgree(l: Link, port: string, host: string)
    requires ProtocolOf(l.scheme).Some? && StripDefault(l.scheme, l.port) == StripDefault(l.scheme, port)
    ensures BuildAt(l, host) == BuildAt(l.(port := port), host)
  {
    if l.port != port {
      OnlySocksStrips(l.scheme, l.port, port);
      DefaultSocksPort();
      SocksPorts(l.userinfo, LookupOf(l), host);
    }
  }

  /** Only the pairs with keys that the builder reads matter. */
  lemma BuildAtReadKeys(a: Link, b: Link, host: string)
    requires ProtocolOf(a.scheme).Some? && a.scheme != "vmess"
    requires a.scheme == b.scheme && a.userinfo == b.userinfo && a.port == b.port
    requires SameOn(LookupOf(a), LookupOf(b), ReadKeys(ProtocolOf(a.scheme).value))
    ensures BuildAt(a, host) == BuildAt(b, host)
  {
    hide SameOn, BuildParsed, ReadKeys, LookupOf;
    if PortNumber(a.port).Ok? {
      ReadKeysDecide(ProtocolOf(a.scheme).value, a.scheme, a.userinfo, LookupOf(a), LookupOf(b), host,
                     PortNumber(a.port).value);
    }
  }

  /** Links with the same parts build the same outbounds, as long as the pairs that the builder reads
      do not depend on their order. */
  lemma SamePartsBuildSame(a: Link, b: Link, host: string)
    requires SameParts(a, b) && ProtocolOf(a.scheme).Some? && a.scheme != "vmess"
    requires KeysDecide(QueryParts(a.query), ReadKeys(ProtocolOf(a.scheme).value))
    ensures BuildAt(a, host) == BuildAt(b, host)
  {
    SameLookups(QueryParts(a.query), QueryParts(b.query), ReadKeys(ProtocolOf(a.scheme).value));
    hide BuildAt, QueryParts, FirstMatches, ReadKeys, KeysDecide;
    PortsAgree(a, b.port, host);
    BuildAtReadKeys(a.(port := b.port), b, host);
  }

  /** The server name only fills in host fields. */
  lemma HostDoesNotDecide(l: Link, h1: string, h2: string)
    requires ProtocolOf(l.scheme).Some?
    ensures BuildAt(l, h1).Ok? == BuildAt(l, h2).Ok?
    ensures BuildAt(l, h1).Ok? ==>
      && BuildAt(l, h1).value.transport == BuildAt(l, h2).value.transport
      && BuildAt(l, h1).value.port == BuildAt(l, h2).value.port
      && BuildAt(l, h1).value.host == h1
  {
    if PortNumber(l.port).Ok? {
      ParsedHostDoesNotDecide(
        ProtocolOf(l.scheme).value, l.scheme, l.userinfo, LookupOf(l), h1, h2, PortNumber(l.port).value);
    }
  }

  lemma ParsedHostDoesNotDecide(
      proto: string, scheme: string, userinfo: string, q: Lookup, h1: string, h2: string, port: int)
    ensures var a, b := BuildParsed(proto, scheme, userinfo, q, h1, port), BuildParsed(proto, scheme, userinfo, q, h2, port);
            && a.Ok? == b.Ok?
            && (a.Ok? ==> a.value.transport == b.value.transport && a.value.port == b.value.port && a.value.host == h1)
  {
  }

  lemma UnbracketLower(a: string, b: string)
    requires ToLower(a) == ToLower(b)
    ensures ToLower(Unbracket(a)) == ToLower(Unbracket(b))
  {
    SuffixLower(a, b);
    PrefixLower(TrimSuffix(a, "]"), TrimSuffix(b, "]"));
  }

  lemma SuffixLower(a: string, b: string)
    requires ToLower(a) == ToLower(b)
    ensures ToLower(TrimSuffix(a, "]")) == ToLower(TrimSuffix(b, "]"))
  {
    assert |a| == |ToLower(a)| == |b|;
    if a != "" {
      var n := |a| - 1;
      assert ToLower(a)[n] == ToLower(b)[n];
      assert a[n..] == [a[n]] && b[n..] == [b[n]];
      assert ToLower(a[..n]) == ToLower(a)[..n] && ToLower(b[..n]) == ToLower(b)[..n];
    }
  }

  lemma PrefixLower(a: string, b: string)
    requires ToLower(a) == ToLower(b)
    ensures ToLower(TrimPrefix(a, "[")) == ToLower(TrimPrefix(b, "["))
  {
    assert |a| == |ToLower(a)| == |b|;
    if a != "" {
      assert ToLower(a)[0] == ToLower(b)[0];
      assert "[" <= a <==> a[0] == '[';
      assert "[" <= b <==> b[0] == '[';
      assert ToLower(a[1..]) == ToLower(a)[1..] && ToLower(b[1..]) == ToLower(b)[1..];
    }
  }

  // ---- main result ----

  predicate SameUpToHostCase(m: Node, n: Node) {
    && m.uriHash == n.uriHash && m.protocol == n.protocol && m.transport == n.transport && m.port == n.port
    && ToLower(m.host) == ToLower(n.host) && (m.host == n.host ==> m.outbound == n.outbound)
  }

  /** The outbound of a node is what its link is built into at the host of the node. */
  predicate OutboundIs(n: Node, l: Link)
    requires ProtocolOf(l.scheme).Some?
  {
    && BuildAt(l, n.host).Ok?
    && n.outbound == Obj(BuildAt(l, n.host).value.out["tag" := Str("probe")])
  }

  /** Two lines with one canonical form, both or neither of which hide a port, are both accepted or both
      rejected; accepted, they give one protocol, transport and port, hosts equal up to letter case,
      and for every spelling of the host the same outbound. */
  lemma DedupPreservesMeaning(lib: Lib, a: string, b: string)
    requires Accepted(a) && Accepted(b) && Canonical(lib, a) == Canonical(lib, b)
    requires PlainForm(LinkOf(a).value) && PlainForm(LinkOf(b).value)
    requires HidesPort(LinkOf(a).value) == HidesPort(LinkOf(b).value)
    requires KeysDecide(QueryParts(LinkOf(a).value.query), ReadKeys(ProtocolOf(LinkOf(a).value.scheme).value))
    ensures forall host :: BuildAt(LinkOf(a).value, host) == BuildAt(LinkOf(b).value, host)
    ensures ParseLine(lib, a).Ok? == ParseLine(lib, b).Ok?
    ensures ParseLine(lib, a).Ok? ==>
      && ParseLine(lib, a).value.Some? && ParseLine(lib, b).value.Some?
      && SameUpToHostCase(ParseLine(lib, a).value.value, ParseLine(lib, b).value.value)
    ensures ParseLine(lib, a).Ok? ==>
      && OutboundIs(ParseLine(lib, a).value.value, LinkOf(a).value)
      && OutboundIs(ParseLine(lib, b).value.value, LinkOf(b).value)
  {
    CanonicalEqualParts(lib, a, b);
    var la, lb := LinkOf(a).value, LinkOf(b).value;
    hide KeysDecide, ReadKeys, HidesPort, QueryParts;
    forall host ensures BuildAt(la, host) == BuildAt(lb, host) {
      SamePartsBuildSame(la, lb, host);
    }
    UnbracketLower(la.host, lb.host);
    HostDoesNotDecide(la, Unbracket(la.host), Unbracket(lb.host));
    HostDoesNotDecide(lb, Unbracket(lb.host), Unbracket(la.host));
    ParseLineOfLink(lib, a);
    ParseLineOfLink(lib, b);
    hide ParseLine, BuildAt, Canonical, LinkOf;
  }
}
