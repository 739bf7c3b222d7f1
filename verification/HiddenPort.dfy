/** Bare hosts that hide a port: which links share a hash with a link of another host, and that they
    mean different servers. */
module HiddenPort {
  import opened Basics
  import opened Strings
  import opened Links
  import opened CanonicalForm
  import opened ShareLink
  import opened Dedup
  import opened LinkText
  import opened DedupLimits

  predicate SameHostPort(a: Link, b: Link) {
    ToLower(a.host) == ToLower(b.host) && StripDefault(a.scheme, a.port) == StripDefault(b.scheme, b.port)
  }

  /** The guard of the canonical form: a bare host and a port behind it, or a port hidden in it. */
  predicate Ambiguous(l: Link) {
    !Bracketed(l.host) && (StripDefault(l.scheme, l.port) != "" || HidesPort(l))
  }

  // ---- the other way to write an ambiguous link ----

  lemma LowerHostPort(h: string, y: string)
    requires IsDigits(y)
    ensures ToLower(h + ":" + y) == ToLower(h) + ":" + y
  {
    assert h + ":" + y == h + (":" + y);
    ToLowerConcat(h, ":" + y);
    ToLowerConcat(":", y);
    LowerDigits(y);
  }

  /** Another host and port with the same joint text. */
  lemma Rehosted(n: Link, host: string, port: string)
    requires Writable(n) && Normalise(n) == n && HostPortShape(host, port)
    requires ToLower(host) == host && StripDefault(n.scheme, port) == port
    requires HostPortText(host, port) == HostPortText(n.host, n.port)
    ensures var m := n.(host := host, port := port); Writable(m) && Print(Normalise(m)) == Print(n)
  {
    hide ToLower, CanonicalQuery, SchemeText, RestText, StripDefault, HostPortText;
    assert Normalise(n.(host := host, port := port)) == n.(host := host, port := port);
  }

  lemma NormalFacts(n: Link)
    requires Writable(n) && Normalise(n) == n
    ensures ToLower(n.host) == n.host && StripDefault(n.scheme, n.port) == n.port && HostPortShape(n.host, n.port)
  {
    hide CanonicalQuery, ToLower, SchemeText;
  }

  lemma HiddenParts(scheme: string, host: string) returns (h: string, y: string)
    requires HostPortShape(host, "") && !Bracketed(host) && ':' in host && IsDigits(AfterColon(host))
    ensures y == AfterColon(host) && host == h + ":" + y && HostPortShape(h, y)
  {
    y := AfterColon(host);
    h := host[..|host| - |y| - 1];
    SplitHidden(scheme, host);
    SplitHostPortShape(host);
    hide SplitHostPort;
    ColonSplits(host, h, y);
  }

  /** A hidden port taken out of the host. */
  lemma TakenOut(n: Link) returns (m: Link)
    requires Writable(n) && Normalise(n) == n && HidesPort(n)
    ensures Writable(m) && m == n.(host := m.host, port := m.port) && Print(Normalise(m)) == Print(n)
    ensures |m.host| < |n.host| && !HidesPort(m)
  {
    hide Print, Normalise, Writable, ToLower, LastIndexByte, SplitHostPort, Index, AfterColon, CanonicalQuery;
    NormalFacts(n);
    var h, y := HiddenParts(n.scheme, n.host);
    assert y != DefaultPort(n.scheme);
    LowerPrefix(h, n.host);
    m := n.(host := h, port := y);
    Rehosted(n, h, y);
  }

  /** A port put into the host, behind which the link's own port is left empty. */
  lemma PutIn(n: Link) returns (m: Link)
    requires Writable(n) && Normalise(n) == n && !Bracketed(n.host) && n.port != ""
    ensures Writable(m) && m == n.(host := m.host, port := m.port) && Print(Normalise(m)) == Print(n)
    ensures |m.host| > |n.host| && HidesPort(m)
  {
    hide Print, Normalise, Writable, ToLower, LastIndexByte, SplitHostPort, Index, CanonicalQuery, HidesPort, StripDefault;
    var host := n.host + ":" + n.port;
    NormalFacts(n);
    LowerHostPort(n.host, n.port);
    JoinedShape(n.host, n.port);
    JoinedHides(n);
    m := n.(host := host, port := "");
    Rehosted(n, host, "");
  }

  lemma JoinedHides(n: Link)
    requires !Bracketed(n.host) && IsDigits(n.port) && StripDefault(n.scheme, n.port) == n.port
    ensures HidesPort(n.(host := n.host + ":" + n.port, port := "")) && StripDefault(n.scheme, "") == ""
  {
    hide LastIndexByte;
    DigitsHaveNoColon(n.port);
    LastColon(n.host, n.port);
    assert (n.host + ":" + n.port)[|n.host|] == ':';
  }

  lemma JoinedShape(host: string, port: string)
    requires HostPortShape(host, port) && !Bracketed(host) && port != ""
    ensures var t := host + ":" + port; HostPortShape(t, "") && !Bracketed(t) && ':' in t
  {
    var t := host + ":" + port;
    assert t[|host|] == ':';
  }

  lemma NormalisedWritable(l: Link)
    requires Writable(l)
    ensures Writable(Normalise(l)) && Normalise(Normalise(l)) == Normalise(l)
    ensures HidesPort(Normalise(l)) == HidesPort(l) && Bracketed(Normalise(l).host) == Bracketed(l.host)
    ensures Ambiguous(Normalise(l)) == Ambiguous(l)
  {
    NormalisedShape(l);
    NormaliseTwice(l);
    HidesPortNormalised(l);
    LowerKeepsHostShape(l.host, l.port);
    hide CanonicalQuery, ToLower, HidesPort, Bracketed, Shape;
  }

  /** An ambiguous link, written the other way. */
  lemma OtherWay(l: Link) returns (m: Link)
    requires Writable(l) && Ambiguous(l)
    ensures Writable(m) && m.scheme == l.scheme && m.userinfo == l.userinfo && Print(Normalise(m)) == Print(Normalise(l))
    ensures !SameHostPort(l, m) && HidesPort(m) != HidesPort(l)
  {
    var n := Normalise(l);
    NormalisedWritable(l);
    if HidesPort(l) {
      m := TakenOut(n);
    } else {
      m := PutIn(n);
    }
    assert |ToLower(m.host)| == |m.host| != |n.host| == |ToLower(l.host)|;
  }

  // ---- exactly which links share their hash with another host ----

  /** `b` has the canonical form of `a`, and another host or another port modulo the default. */
  predicate SharesHash(lib: Lib, a: string, b: string)
    requires Accepted(a)
  {
    Accepted(b) && Canonical(lib, a) == Canonical(lib, b) && !SameHostPort(LinkOf(a).value, LinkOf(b).value)
  }

  lemma SharedAmbiguous(lib: Lib, a: string, b: string)
    requires Accepted(a) && SharesHash(lib, a, b)
    ensures HidesPort(LinkOf(a).value) != HidesPort(LinkOf(b).value) && Ambiguous(LinkOf(a).value)
  {
    var la, lb := LinkOf(a).value, LinkOf(b).value;
    CanonicalEqualParts(lib, a, b);
    assert HidesPort(la) != HidesPort(lb);
    if HidesPort(lb) {
      AcceptedWritable(a);
      AcceptedWritable(b);
      CanonicalOfAccepted(lib, a);
      CanonicalOfAccepted(lib, b);
      HiddenTextOf(la, lb);
    }
  }

  /** What prints like a link that hides a port, without hiding one, has a bare host and a port. */
  lemma HiddenTextOf(l: Link, m: Link)
    requires Writable(l) && Writable(m) && Print(Normalise(l)) == Print(Normalise(m)) && HidesPort(m) && !HidesPort(l)
    ensures Ambiguous(l)
  {
    NormalisedWritable(l);
    NormalisedWritable(m);
    NormalisedShape(l);
    NormalisedShape(m);
    PrintInjective(Normalise(l), Normalise(m));
    ReadingChanges(Normalise(l));
    ReadingChanges(Normalise(m));
    SameTextSameReading(Normalise(l), Normalise(m));
    hide Print, Reading, CanonicalQuery, ToLower, SchemeText, LastIndexByte, AfterColon;
    var n := Normalise(m);
    assert HostPortText(n.host, n.port) == n.host && !Bracketed(n.host);
    assert Normalise(l).port != "";
  }

  /** Of all accepted links, exactly those with a bare host and a port, given or hidden, share their
      hash with a link of another host or port: `scheme://h:y` and `scheme://h:y:`. */
  lemma SharesHashIff(lib: Lib, a: string)
    requires Accepted(a)
    ensures (exists b :: SharesHash(lib, a, b)) <==> Ambiguous(LinkOf(a).value)
  {
    var l := LinkOf(a).value;
    if b :| SharesHash(lib, a, b) {
      SharedAmbiguous(lib, a, b);
    } else if Ambiguous(l) {
      var b := SharesHashWith(lib, a);
    }
  }

  lemma SharesHashWith(lib: Lib, a: string) returns (b: string)
    requires Accepted(a) && Ambiguous(LinkOf(a).value)
    ensures SharesHash(lib, a, b)
  {
    hide Canonical, Ambiguous, Writable, LineOf, SameHostPort, Print;
    var l := LinkOf(a).value;
    AcceptedWritable(a);
    var m := OtherWay(l);
    LinesMerge(lib, a, m);
    b := LineOf(m);
  }

  // ---- and that they are different servers ----

  lemma HiddenHostStays(l: Link)
    requires Shape(l) && HidesPort(l)
    ensures Unbracket(l.host) == l.host
  {
    var y := AfterColon(l.host);
    assert y == l.host[|l.host| - |y|..];
    assert l.host[|l.host| - 1] == y[|y| - 1] && IsDigit(y[|y| - 1]);
  }

  lemma UnbracketShrinks(host: string)
    ensures |Unbracket(host)| <= |host|
  {
  }

  lemma HiddenHostLonger(l: Link, m: Link)
    requires Writable(l) && Writable(m) && Print(Normalise(l)) == Print(Normalise(m)) && HidesPort(m) && !HidesPort(l)
    ensures |Unbracket(l.host)| < |Unbracket(m.host)|
  {
    HiddenHostStays(m);
    UnbracketShrinks(l.host);
    NormalisedWritable(l);
    NormalisedWritable(m);
    NormalisedShape(l);
    NormalisedShape(m);
    PrintInjective(Normalise(l), Normalise(m));
    HiddenTextOf(l, m);
    hide Print, CanonicalQuery, SchemeText, LastIndexByte, AfterColon, Unbracket;
    assert |Normalise(l).host| == |l.host| && |Normalise(m).host| == |m.host|;
  }

  /** Two links of one hash name the same server exactly when both hide a port or neither does. */
  lemma ServersDiffer(lib: Lib, a: string, b: string)
    requires Accepted(a) && Accepted(b) && Canonical(lib, a) == Canonical(lib, b)
    requires PlainForm(LinkOf(a).value) && PlainForm(LinkOf(b).value)
    requires ParseLine(lib, a).Ok? && ParseLine(lib, b).Ok?
    ensures ParseLine(lib, a).value.Some? && ParseLine(lib, b).value.Some?
    ensures ToLower(ParseLine(lib, a).value.value.host) == ToLower(ParseLine(lib, b).value.value.host)
            <==> HidesPort(LinkOf(a).value) == HidesPort(LinkOf(b).value)
  {
    hide ParseLine, LinkOf, Canonical, BuildAt, Unbracket, HidesPort, Writable, PlainForm;
    var la, lb := LinkOf(a).value, LinkOf(b).value;
    NodeHost(lib, a);
    NodeHost(lib, b);
    AcceptedWritable(a);
    AcceptedWritable(b);
    CanonicalOfAccepted(lib, a);
    CanonicalOfAccepted(lib, b);
    CanonicalEqualParts(lib, a, b);
    if HidesPort(la) == HidesPort(lb) {
      UnbracketLower(la.host, lb.host);
    } else if HidesPort(la) {
      HiddenHostLonger(lb, la);
      assert |ToLower(Unbracket(la.host))| == |Unbracket(la.host)|;
    } else {
      HiddenHostLonger(la, lb);
      assert |ToLower(Unbracket(la.host))| == |Unbracket(la.host)|;
    }
  }

  lemma NodeHost(lib: Lib, a: string)
    requires Accepted(a) && PlainForm(LinkOf(a).value) && ParseLine(lib, a).Ok?
    ensures ParseLine(lib, a).value.Some?
    ensures ParseLine(lib, a).value.value.host == Unbracket(LinkOf(a).value.host)
  {
    hide ParseLine, Canonical, BuildAt, Unbracket;
    var l := LinkOf(a).value;
    ParseLineOfLink(lib, a);
    HostDoesNotDecide(l, Unbracket(l.host), Unbracket(l.host));
  }

  // ---- an example ----

  lemma ShortText(n: Link)
    requires n == Link("vless", "u", "h:81", "", "", "") || n == Link("vless", "u", "h", "81", "", "")
    ensures LinkOf(FullText(n)) == Ok(n)
  {
    SchemeWithoutColon("vless");
    assert FullText(n)[|FullText(n)| - 1] in ":1";
    hide LinkOf;
    PlainTextReads(n);
  }

  /** `vless://u@h:81:` and `vless://u@h:81`: one hash, two servers. */
  lemma HiddenPortExample(lib: Lib) returns (n: Link, m: Link)
    ensures n == Link("vless", "u", "h:81", "", "", "") && m == Link("vless", "u", "h", "81", "", "")
    ensures LinkOf(FullText(n)) == Ok(n) && LinkOf(FullText(m)) == Ok(m)
    ensures SharesHash(lib, FullText(n), FullText(m))
  {
    hide LinkOf, Canonical, FullText;
    n := Link("vless", "u", "h:81", "", "", "");
    m := Link("vless", "u", "h", "81", "", "");
    ShortText(n);
    ShortText(m);
    assert HostPortText("h", "81") == "h:81" == HostPortText("h:81", "");
    assert ToLower("h") == "h" && ToLower("h:81") == "h:81";
    assert StripDefault("vless", "81") == "81" && StripDefault("vless", "") == "";
    CanonicalOfAccepted(lib, FullText(n));
    CanonicalOfAccepted(lib, FullText(m));
  }

  // ---- the ports that are dropped ----

  /** A port is dropped exactly when it is 80 for http, 443 for https or 1080 for socks. */
  lemma DroppedPorts(lib: Lib, a: string, b: string)
    requires Accepted(a) && Accepted(b) && LinkOf(b).value == LinkOf(a).value.(port := "")
    requires var l := LinkOf(a).value; l.port != "" && (Bracketed(l.host) || ':' !in l.host)
    ensures Canonical(lib, a) == Canonical(lib, b) <==>
            (LinkOf(a).value.scheme, LinkOf(a).value.port) in {("http", "80"), ("https", "443"), ("socks", "1080")}
  {
    hide LinkOf, Canonical, ToLower, QueryParts, AfterColon, HidesPort, StripDefault;
    CanonicalEqualParts(lib, a, b);
    NothingHidden(LinkOf(a).value);
    NothingHidden(LinkOf(b).value);
    StripsOnly(LinkOf(a).value.scheme, LinkOf(a).value.port);
  }

  lemma NothingHidden(l: Link)
    requires Bracketed(l.host) || ':' !in l.host
    ensures !HidesPort(l)
  {
  }

  lemma StripsOnly(scheme: string, port: string)
    requires port != ""
    ensures StripDefault(scheme, port) == StripDefault(scheme, "") <==>
            (scheme, port) in {("http", "80"), ("https", "443"), ("socks", "1080")}
  {
  }
}
