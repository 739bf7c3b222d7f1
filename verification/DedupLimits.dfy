/** Links with one hash that mean different things because a query key repeats: what breaks when
    KeysDecide does, the first guard of DedupPreservesMeaning. */
module DedupLimits {
  import opened Basics
  import opened Strings
  import opened Links
  import opened CanonicalForm
  import opened QueryKeys
  import opened ShareLink
  import opened Dedup
  import opened LinkText

  lemma SchemeWithoutColon(scheme: string)
    requires ':' !in scheme && ToLower(scheme) == scheme
    ensures SchemeText(scheme)
  {
    var t := scheme + DELIMITER;
    assert t[|scheme|..|scheme| + 3] == DELIMITER;
    forall k | 0 <= k < |scheme| ensures !OccursAt(t, DELIMITER, k) {
      DelimiterAt(t, k);
      assert t[k] == scheme[k];
    }
    IndexIsFirst(t, DELIMITER, |scheme|);
  }

  /** Links with the same normal form, written as lines, share their canonical form. */
  lemma LinesMerge(lib: Lib, a: string, m: Link)
    requires Accepted(a) && Writable(m) && m.scheme == LinkOf(a).value.scheme
    requires Print(Normalise(m)) == Print(Normalise(LinkOf(a).value))
    ensures LinkOf(LineOf(m)) == Ok(m) && Accepted(LineOf(m)) && Canonical(lib, LineOf(m)) == Canonical(lib, a)
  {
    LineReads(m);
    CanonicalOfAccepted(lib, a);
    CanonicalOfAccepted(lib, LineOf(m));
  }

  // ---- the hypotheses of the theorem can be met ----

  /** Links that differ only in the letter case of the host. */
  lemma SameButHostCase(lib: Lib, a: string, b: string, n: Link, m: Link)
    requires LinkOf(a) == Ok(n) && LinkOf(b) == Ok(m) && n.scheme != "vmess"
    requires m == n.(host := m.host) && ToLower(n.host) == ToLower(m.host)
    ensures Canonical(lib, a) == Canonical(lib, b)
  {
    hide LinkOf, Canonical, QueryParts, ToLower;
    CanonicalEqualParts(lib, a, b);
  }

  lemma ShortLink(n: Link, c: char)
    requires n == Link("vless", "u", [c], "", "", "") && c in "hH"
    ensures LinkOf(FullText(n)) == Ok(n)
  {
    SchemeWithoutColon("vless");
    assert FullText(n)[|FullText(n)| - 1] == ':';
    hide LinkOf;
    PlainTextReads(n);
  }

  /** Two different links that meet every hypothesis of DedupPreservesMeaning: `vless://u@h:` and
      `vless://u@H:`. */
  lemma HostCaseExample(lib: Lib) returns (n: Link, m: Link)
    ensures n != m && LinkOf(FullText(n)) == Ok(n) && LinkOf(FullText(m)) == Ok(m)
    ensures Canonical(lib, FullText(n)) == Canonical(lib, FullText(m))
    ensures PlainForm(n) && PlainForm(m) && !HidesPort(n) && !HidesPort(m)
    ensures KeysDecide(QueryParts(n.query), ReadKeys("vless"))
  {
    hide LinkOf, Canonical, FullText, Writable, Index;
    n := Link("vless", "u", "h", "", "", "");
    m := n.(host := "H");
    ShortLink(n, 'h');
    ShortLink(m, 'H');
    assert ToLower("H") == "h" == ToLower("h");
    SameButHostCase(lib, FullText(n), FullText(m), n, m);
  }

  // ---- a key carried through verbatim ----

  lemma VlessFlow(userinfo: string, q: Lookup, host: string, port: int)
    ensures var out := BuildVless(userinfo, q, host, port).out;
            ("flow" in out <==> Raw(q, "flow") != "") && ("flow" in out ==> out["flow"] == Str(Raw(q, "flow")))
  {
    hide Decoded, Raw, TlsFull, TransportBlock, MapTransport;
  }

  /** An accepted line whose outbound shows this flow. */
  predicate ShowsFlow(r: Result<Option<Node>, LinkError>, uriHash: string, flow: string) {
    && r.Ok? && r.value.Some? && r.value.value.uriHash == uriHash && r.value.value.outbound.Obj?
    && HasFlow(r.value.value.outbound.fields, flow)
  }

  predicate HasFlow(out: Fields, flow: string) {
    ("flow" in out <==> flow != "") && ("flow" in out ==> out["flow"] == Str(flow))
  }

  lemma VlessAt(l: Link, host: string)
    requires l.scheme == "vless"
    ensures BuildAt(l, host).Ok? <==> PortNumber(l.port).Ok?
    ensures BuildAt(l, host).Ok? ==> HasFlow(BuildAt(l, host).value.out, Raw(LookupOf(l), "flow"))
  {
    hide BuildVless, Raw, LookupOf, ApplyPort, PortNumber;
    if PortNumber(l.port).Ok? {
      VlessFlow(l.userinfo, LookupOf(l), host, ApplyPort("vless", PortNumber(l.port).value, 443));
    }
  }

  lemma GivenFlow(r: Result<Option<Node>, LinkError>, uri: string, uriHash: string, built: Result<Built, LinkError>, flow: string)
    requires LineGives(r, uri, uriHash, "vless", built)
    requires built.Ok? ==> HasFlow(built.value.out, flow)
    ensures if built.Ok? then ShowsFlow(r, uriHash, flow) else r.Err?
  {
  }

  /** A vless line is accepted exactly when its port is one; then its outbound shows the first flow. */
  lemma VlessNode(lib: Lib, a: string)
    requires Accepted(a) && LinkOf(a).value.scheme == "vless"
    ensures var l := LinkOf(a).value;
            if PortNumber(l.port).Ok? then
              && Canonical(lib, a).Ok?
              && ShowsFlow(ParseLine(lib, a), lib.hash(Canonical(lib, a).value), Raw(LookupOf(l), "flow"))
            else ParseLine(lib, a).Err?
  {
    hide ParseLine, Canonical, LinkOf, BuildAt, LookupOf, Raw, PortNumber, LineGives, ShowsFlow, HasFlow, Trim, Unbracket;
    var l := LinkOf(a).value;
    ParseLineOfLink(lib, a);
    VlessAt(l, Unbracket(l.host));
    GivenFlow(ParseLine(lib, a), Trim(a), lib.hash(Canonical(lib, a).value), BuildAt(l, Unbracket(l.host)),
              Raw(LookupOf(l), "flow"));
  }

  /** Two accepted vless lines with one canonical form whose first flows differ. */
  predicate FlowTwins(lib: Lib, a: string, b: string) {
    && Accepted(a) && LinkOf(a).value.scheme == "vless" && Accepted(b) && LinkOf(b).value.scheme == "vless"
    && Canonical(lib, a) == Canonical(lib, b)
    && PortNumber(LinkOf(a).value.port).Ok? && PortNumber(LinkOf(b).value.port).Ok?
    && Raw(LookupOf(LinkOf(a).value), "flow") != Raw(LookupOf(LinkOf(b).value), "flow")
  }

  /** One hash and different outbounds. */
  predicate Confused(r: Result<Option<Node>, LinkError>, s: Result<Option<Node>, LinkError>) {
    && r.Ok? && r.value.Some? && s.Ok? && s.value.Some?
    && r.value.value.uriHash == s.value.value.uriHash && r.value.value.outbound != s.value.value.outbound
  }

  lemma FlowsConfuse(r: Result<Option<Node>, LinkError>, s: Result<Option<Node>, LinkError>, uriHash: string, f: string, g: string)
    requires ShowsFlow(r, uriHash, f) && ShowsFlow(s, uriHash, g) && f != g
    ensures Confused(r, s)
  {
  }

  /** Vless lines that share a hash and differ in the first flow are different outbounds, whatever
      else they hold. */
  lemma FlowDecides(lib: Lib, a: string, b: string)
    requires FlowTwins(lib, a, b)
    ensures Confused(ParseLine(lib, a), ParseLine(lib, b))
  {
    hide ParseLine, Canonical, LinkOf, LookupOf, Raw, PortNumber, ShowsFlow, Confused;
    VlessNode(lib, a);
    VlessNode(lib, b);
    FlowsConfuse(ParseLine(lib, a), ParseLine(lib, b), lib.hash(Canonical(lib, a).value),
                 Raw(LookupOf(LinkOf(a).value), "flow"), Raw(LookupOf(LinkOf(b).value), "flow"));
  }

  // ---- putting another pair first ----

  lemma FirstOf(x: string, rest: seq<string>)
    ensures var m := FirstMatches(Pairs([x] + rest)); PairOf(x).0 in m && m[PairOf(x).0] == PairOf(x).1
  {
    var pairs := Pairs([x] + rest);
    assert pairs[0] == PairOf(x);
    assert FirstMatch(pairs, PairOf(x).0, PairOf(x).1);
    FirstMatchesAreFirst(pairs, PairOf(x).0);
  }

  lemma JoinedParts(parts: seq<string>)
    requires parts != [] && forall p <- parts :: p != "" && '&' !in p
    ensures QueryParts(Join(parts, '&')) == parts
  {
    SplitOfJoin(parts, '&');
    NonEmptyId(parts);
  }

  /** The pairs of a query with one of them moved to the front: the same canonical query, another first. */
  lemma MovedToFront(query: string, x: string) returns (moved: string)
    requires x in QueryParts(query) && '#' !in query
    ensures CanonicalQuery(moved) == CanonicalQuery(query) && '#' !in moved
    ensures multiset(QueryParts(moved)) == multiset(QueryParts(query))
    ensures var m := FirstMatches(Pairs(QueryParts(moved))); PairOf(x).0 in m && m[PairOf(x).0] == PairOf(x).1
  {
    var parts := QueryParts(query);
    var i :| 0 <= i < |parts| && parts[i] == x;
    var rest := parts[..i] + parts[i + 1..];
    assert parts == parts[..i] + [x] + parts[i + 1..];
    forall p <- [x] + rest ensures p != "" && '&' !in p && '#' !in p {
      assert p in parts;
      SplitLacks(query, '&', '#');
    }
    moved := Join([x] + rest, '&');
    JoinedParts([x] + rest);
    JoinLacks([x] + rest, '&', '#');
    FirstOf(x, rest);
    CanonicalQueryEqual(moved, query);
  }

  /** Every accepted vless line with two different flows has a twin of the same hash and another
      outbound: it is enough to move one pair to the front, whatever the other pairs are. */
  lemma RepeatedFlow(lib: Lib, a: string, x: string, y: string) returns (b: string)
    requires Accepted(a) && LinkOf(a).value.scheme == "vless" && ParseLine(lib, a).Ok?
    requires var parts := QueryParts(LinkOf(a).value.query); x in parts && y in parts
    requires PairOf(x).0 == PairOf(y).0 == "flow" && PairOf(x).1 != PairOf(y).1
    ensures Canonical(lib, b) == Canonical(lib, a) && Confused(ParseLine(lib, a), ParseLine(lib, b))
  {
    hide ParseLine, Canonical, LinkOf, PortNumber, ShowsFlow, Confused, LineOf, PairOf, QueryParts, Writable;
    var l := LinkOf(a).value;
    var front := if Raw(LookupOf(l), "flow") == PairOf(x).1 then y else x;
    AcceptedWritable(a);
    VlessNode(lib, a);
    b := FlowTwin(lib, a, l, front);
    FlowDecides(lib, a, b);
  }

  lemma FlowTwin(lib: Lib, a: string, l: Link, x: string) returns (b: string)
    requires Accepted(a) && LinkOf(a) == Ok(l) && l.scheme == "vless" && Writable(l) && PortNumber(l.port).Ok?
    requires x in QueryParts(l.query) && PairOf(x).0 == "flow" && Raw(LookupOf(l), "flow") != PairOf(x).1
    ensures FlowTwins(lib, a, b)
  {
    var moved := MovedToFront(l.query, x);
    var m := l.(query := moved);
    assert Raw(LookupOf(m), "flow") == PairOf(x).1;
    hide Canonical, LinkOf, PortNumber, Raw, LookupOf, LineOf, PairOf, QueryParts, CanonicalQuery, ToLower;
    b := LineOf(m);
    LinesMerge(lib, a, m);
  }

  function FlowPair(v: string): string {
    "flow" + "=" + v
  }

  function FlowLink(v: string, w: string): Link {
    Link("vless", "u", "h", "", "", FlowPair(v) + "&" + FlowPair(w))
  }

  /** `vless://u@h:?flow=v&flow=w` and `vless://u@h:?flow=w&flow=v`: one hash, two outbounds. */
  lemma RepeatedFlowExample(lib: Lib, v: string, w: string)
    requires v != w && PlainValue(v) && PlainValue(w)
    ensures var a, b := FullText(FlowLink(v, w)), FullText(FlowLink(w, v));
            Canonical(lib, a) == Canonical(lib, b) && Confused(ParseLine(lib, a), ParseLine(lib, b))
  {
    hide FullText, ParseLine, Canonical, Confused, LinkOf, PairOf, QueryParts, Writable, FlowPair, PlainValue;
    var a, b := FullText(FlowLink(v, w)), FullText(FlowLink(w, v));
    FlowPairIs(v);
    FlowPairIs(w);
    ExampleReads(FlowLink(v, w), FlowPair(v), FlowPair(w));
    ExampleReads(FlowLink(w, v), FlowPair(w), FlowPair(v));
    FlowsSwapped(lib, a, b, FlowLink(v, w), FlowLink(w, v), FlowPair(v), FlowPair(w));
    FlowDecides(lib, a, b);
  }

  predicate PlainValue(v: string) {
    v != "" && '&' !in v && '#' !in v && !IsSpace(v[|v| - 1])
  }

  lemma FlowPairIs(v: string)
    requires PlainValue(v)
    ensures PairOf(FlowPair(v)) == ("flow", v) && PlainValue(FlowPair(v))
  {
    PairOfText("flow", v);
  }

  lemma ExampleReads(n: Link, p: string, q: string)
    requires n == Link("vless", "u", "h", "", "", p + "&" + q)
    requires PlainValue(p) && PlainValue(q)
    ensures LinkOf(FullText(n)) == Ok(n) && QueryParts(n.query) == [p] + [q]
  {
    SchemeWithoutColon("vless");
    TwoPairs(p, q);
    assert FullText(n)[|FullText(n)| - 1] == q[|q| - 1];
    hide QueryParts, LinkOf;
    PlainTextReads(n);
  }

  lemma FlowsSwapped(lib: Lib, a: string, b: string, n: Link, m: Link, p: string, q: string)
    requires LinkOf(a) == Ok(n) && LinkOf(b) == Ok(m) && n.scheme == "vless" && n.port == ""
    requires m == n.(query := m.query)
    requires QueryParts(n.query) == [p] + [q] && QueryParts(m.query) == [q] + [p]
    requires PairOf(p).0 == PairOf(q).0 == "flow" && PairOf(p).1 != PairOf(q).1
    ensures FlowTwins(lib, a, b)
  {
    hide LinkOf, Canonical, PairOf, QueryParts;
    FirstOf(p, [q]);
    FirstOf(q, [p]);
    assert Raw(LookupOf(n), "flow") == PairOf(p).1 && Raw(LookupOf(m), "flow") == PairOf(q).1;
    hide Raw, LookupOf;
    assert multiset([p] + [q]) == multiset([q] + [p]);
    SameUpToQueryOrder(lib, a, b, n, m);
  }

  /** Links that differ only in the order of their pairs. */
  lemma SameUpToQueryOrder(lib: Lib, a: string, b: string, n: Link, m: Link)
    requires LinkOf(a) == Ok(n) && LinkOf(b) == Ok(m) && n.scheme != "vmess"
    requires m == n.(query := m.query) && multiset(QueryParts(n.query)) == multiset(QueryParts(m.query))
    ensures Canonical(lib, a) == Canonical(lib, b)
  {
    hide LinkOf, Canonical, QueryParts;
    CanonicalEqualParts(lib, a, b);
  }

  lemma TwoPairs(p: string, q: string)
    requires p != "" && q != "" && '&' !in p && '&' !in q
    ensures QueryParts(p + "&" + q) == [p] + [q]
  {
    assert Join([q], '&') == q;
    assert Join([p] + [q], '&') == p + "&" + q;
    JoinedParts([p] + [q]);
  }

  lemma PairOfText(k: string, v: string)
    requires '=' !in k
    ensures PairOf(k + "=" + v) == (k, v)
  {
    var t := k + "=" + v;
    IndexByteIs(t, '=', |k|);
    assert t[..|k|] == k && t[|k| + 1..] == v;
  }
}
