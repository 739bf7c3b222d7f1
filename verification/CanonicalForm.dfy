/** When two links share a canonical form, and when the canonical form is its own. */
module CanonicalForm {
  import opened Basics
  import opened Strings
  import opened Links

  // ---- the printed text determines its parts ----

  lemma {:induction false} SplitAuthorityIs(auth: string, tail: string)
    requires '/' !in auth && '?' !in auth && EndsAuthority(tail)
    ensures SplitAuthority(auth + tail) == (auth, tail)
  {
    if auth == "" {
      assert auth + tail == tail;
    } else {
      assert (auth + tail)[0] == auth[0] && auth[0] in auth;
      assert (auth + tail)[1..] == auth[1..] + tail;
      SplitAuthorityIs(auth[1..], tail);
      assert auth == [auth[0]] + auth[1..];
    }
  }

  lemma SplitUserinfoIs(userinfo: string, hostPort: string)
    requires '@' !in hostPort
    ensures SplitUserinfo((if userinfo != "" then userinfo + "@" else "") + hostPort) == (userinfo, hostPort)
  {
    if userinfo != "" {
      var auth := userinfo + "@" + hostPort;
      assert auth[|userinfo| + 1..] == hostPort && auth[..|userinfo|] == userinfo;
      LastIndexByteIs(auth, '@', |userinfo|);
    } else {
      assert "" + hostPort == hostPort;
    }
  }

  lemma SplitPathQueryIs(path: string, query: string)
    requires '?' !in path
    ensures SplitPathQuery(path + (if query != "" then "?" + query else "")) == (path, query)
  {
    if query != "" {
      var tail := path + ("?" + query);
      assert tail[..|path|] == path && tail[|path|] == '?' && tail[|path| + 1..] == query;
      IndexByteIs(tail, '?', |path|);
    } else {
      assert path + "" == path;
    }
  }

  lemma RestTextSplits(userinfo: string, hostPort: string, path: string, query: string)
    requires AuthorityText(userinfo) && AuthorityText(hostPort) && '@' !in hostPort && PathShape(path)
    ensures var (auth, tail) := SplitAuthority(RestText(userinfo, hostPort, path, query));
            SplitUserinfo(auth) == (userinfo, hostPort) && SplitPathQuery(tail) == (path, query)
  {
    var auth := (if userinfo != "" then userinfo + "@" else "") + hostPort;
    var tail := path + (if query != "" then "?" + query else "");
    assert RestText(userinfo, hostPort, path, query) == auth + tail;
    SplitAuthorityIs(auth, tail);
    SplitUserinfoIs(userinfo, hostPort);
    SplitPathQueryIs(path, query);
  }

  lemma DelimiterAt(s: string, k: int)
    ensures OccursAt(s, DELIMITER, k) <==> 0 <= k <= |s| - 3 && s[k] == ':' && s[k + 1] == '/' && s[k + 2] == '/'
  {
    if 0 <= k <= |s| - 3 {
      assert s[k..k + 3] == [s[k], s[k + 1], s[k + 2]];
      assert DELIMITER == [':', '/', '/'];
    }
  }

  /** The scheme delimiter is found at the same place after lower-casing the scheme. */
  lemma DelimiterStays(scheme: string, rest: string, rest': string)
    requires Index(scheme + DELIMITER + rest, DELIMITER) == |scheme|
    ensures Index(ToLower(scheme) + DELIMITER + rest', DELIMITER) == |scheme|
  {
    var s, t := scheme + DELIMITER + rest, ToLower(scheme) + DELIMITER + rest';
    assert t[|scheme|..|scheme| + 3] == DELIMITER;
    forall k | 0 <= k < |scheme| ensures !OccursAt(t, DELIMITER, k) {
      assert !OccursAt(s, DELIMITER, k);
      DelimiterAt(s, k);
      DelimiterAt(t, k);
    }
    IndexIsFirst(t, DELIMITER, |scheme|);
  }

  lemma FirstDelimiter(scheme: string, rest: string, rest': string)
    requires Index(scheme + DELIMITER + rest, DELIMITER) == |scheme|
    ensures Index(scheme + DELIMITER + rest', DELIMITER) == |scheme|
  {
    var s, t := scheme + DELIMITER + rest, scheme + DELIMITER + rest';
    assert t[|scheme|..|scheme| + 3] == DELIMITER;
    forall k | 0 <= k < |scheme| ensures !OccursAt(t, DELIMITER, k) {
      assert !OccursAt(s, DELIMITER, k);
      assert s[k..k + 3] == t[k..k + 3];
    }
    IndexIsFirst(t, DELIMITER, |scheme|);
  }

  /** A scheme as Canonical prints it. */
  predicate SchemeText(scheme: string) {
    Index(scheme + DELIMITER, DELIMITER) == |scheme| && ToLower(scheme) == scheme
  }

  datatype Parts = Parts(scheme: string, userinfo: string, hostPort: string, path: string, query: string)

  /** The parts of a canonical text, split as Canonical splits its input. */
  function PartsOf(text: string): Parts
    requires Index(text, DELIMITER) >= 0
  {
    var i := Index(text, DELIMITER);
    var (auth, tail) := SplitAuthority(CutFragment(text[i + 3..]));
    var (userinfo, hostPort) := SplitUserinfo(auth);
    var (path, query) := SplitPathQuery(tail);
    Parts(text[..i], userinfo, hostPort, path, query)
  }

  /** Splitting a printed link gives back what was printed. */
  lemma PrintSplits(n: Link)
    requires Shape(n) && SchemeText(n.scheme)
    ensures Index(Print(n), DELIMITER) == |n.scheme|
    ensures PartsOf(Print(n)) == Parts(n.scheme, n.userinfo, HostPortText(n.host, n.port), n.path, n.query)
  {
    var hostPort := HostPortText(n.host, n.port);
    var rest := RestText(n.userinfo, hostPort, n.path, n.query);
    TextSplits(n.scheme, rest);
    RestTextSplits(n.userinfo, hostPort, n.path, n.query);
    assert '#' !in rest;
    hide SplitAuthority, SplitUserinfo, SplitPathQuery, RestText;
  }

  lemma TextSplits(scheme: string, rest: string)
    requires SchemeText(scheme)
    ensures var text := scheme + DELIMITER + rest;
            Index(text, DELIMITER) == |scheme| && text[..|scheme|] == scheme && text[|scheme| + 3..] == rest
  {
    assert scheme + DELIMITER + "" == scheme + DELIMITER;
    FirstDelimiter(scheme, "", rest);
  }

  // ---- what the host and port of a canonical text say ----

  /** How a reader of canonical text takes its host and port. */
  function ReadHostPort(scheme: string, text: string): (string, string) {
    if Bracketed(text) then
      (match SplitHostPort(text) case Ok(hp) => hp case Err(_) => (text, ""))
    else
      var c := LastIndexByte(text, ':');
      if c >= 0 && IsDigits(text[c + 1..]) && text[c + 1..] != DefaultPort(scheme)
      then (text[..c], text[c + 1..]) else (text, "")
  }

  /** The link that the canonical text of `n` is read as. It differs from `n` only when a host
      without brackets contains a colon and its port was absent or dropped. */
  function Reading(n: Link): Link {
    var (host, port) := ReadHostPort(n.scheme, HostPortText(n.host, n.port));
    n.(host := host, port := port)
  }

  /** The guard for a port that can be told apart from the host. */
  predicate PlainHost(l: Link) {
    Bracketed(l.host) || ':' !in l.host || StripDefault(l.scheme, l.port) != ""
  }

  /** What follows the last colon of a bare host. */
  function AfterColon(host: string): string {
    host[LastIndexByte(host, ':') + 1..]
  }

  /** A bare host that ends like a host with a port, on a link whose own port is absent or dropped. */
  predicate HidesPort(l: Link) {
    !PlainHost(l) && IsDigits(AfterColon(l.host)) && AfterColon(l.host) != DefaultPort(l.scheme)
  }

  /** A text of a host and a port: an address in brackets with anything behind a colon, or a bare host with
      digits or nothing behind its last one. */
  predicate HostAndPort(s: string, host: string, port: string) {
    if Bracketed(s) then
      && Bracketed(host) && host[|host| - 1] == ']' && ']' !in host[..|host| - 1]
      && ((s == host && port == "") || s == host + ":" + port)
    else if ':' in s then s == host + ":" + port && ':' !in port && (port == "" || IsDigits(port))
    else s == host && port == ""
  }

  /** Exactly these texts are accepted, and they are split where they should be. */
  lemma HostPortIff(s: string, host: string, port: string)
    ensures SplitHostPort(s) == Ok((host, port)) <==> HostAndPort(s, host, port)
  {
    if Bracketed(s) {
      BracketedIff(s, host, port);
    } else {
      BareIff(s, host, port);
    }
  }

  lemma BracketedIff(s: string, host: string, port: string)
    requires Bracketed(s)
    ensures SplitHostPort(s) == Ok((host, port)) <==> HostAndPort(s, host, port)
  {
    hide IndexByte;
    if HostAndPort(s, host, port) {
      var n := |host| - 1;
      assert s[..n] == host[..n] && s[n] == ']';
      IndexByteIs(s, ']', n);
      assert s[..n + 1] == host;
      assert s[n + 1..] == if s == host then "" else ":" + port;
    }
  }

  lemma BareIff(s: string, host: string, port: string)
    requires !Bracketed(s)
    ensures SplitHostPort(s) == Ok((host, port)) <==> HostAndPort(s, host, port)
  {
    hide LastIndexByte;
    var c := LastIndexByte(s, ':');
    if HostAndPort(s, host, port) && ':' in s {
      LastColon(host, port);
    } else if c >= 0 {
      assert s == s[..c] + ":" + s[c + 1..];
    }
  }

  lemma BracketedReads(host: string, port: string)
    requires HostPortShape(host, port) && Bracketed(host)
    ensures SplitHostPort(HostPortText(host, port)) == Ok((host, port))
  {
    var t := HostPortText(host, port);
    var end := |host| - 1;
    assert t[..end] == host[..end] && t[end] == ']';
    IndexByteIs(t, ']', end);
    assert t[..end + 1] == host;
    assert t[end + 1..] == if port != "" then ":" + port else "";
  }

  lemma LastColon(host: string, port: string)
    requires ':' !in port
    ensures LastIndexByte(host + ":" + port, ':') == |host|
    ensures (host + ":" + port)[..|host|] == host && (host + ":" + port)[|host| + 1..] == port
  {
    hide LastIndexByte;
    var t := host + ":" + port;
    assert t[|host| + 1..] == port && t[|host|] == ':';
    LastIndexByteIs(t, ':', |host|);
  }

  lemma DigitsHaveNoColon(port: string)
    requires IsDigits(port)
    ensures ':' !in port
  {
  }

  /** The reading of a host and port that keep apart. */
  lemma ReadPlain(scheme: string, host: string, port: string)
    requires HostPortShape(host, port)
    requires Bracketed(host) || ':' !in host || port != ""
    requires StripDefault(scheme, port) == port
    ensures ReadHostPort(scheme, HostPortText(host, port)) == (host, port)
  {
    if Bracketed(host) {
      BracketedReads(host, port);
    } else if port != "" {
      ReadBarePort(scheme, host, port);
    } else {
      ReadBare(scheme, host);
    }
  }

  lemma ReadBarePort(scheme: string, host: string, port: string)
    requires !Bracketed(host) && IsDigits(port) && port != "" && port != DefaultPort(scheme)
    ensures ReadHostPort(scheme, HostPortText(host, port)) == (host, port)
  {
    var t := host + ":" + port;
    assert HostPortText(host, port) == t && !Bracketed(t);
    DigitsHaveNoColon(port);
    LastColon(host, port);
    ReadAtColon(scheme, t, |host|);
  }

  lemma ReadAtColon(scheme: string, t: string, c: nat)
    requires !Bracketed(t) && LastIndexByte(t, ':') == c < |t|
    requires IsDigits(t[c + 1..]) && t[c + 1..] != DefaultPort(scheme)
    ensures ReadHostPort(scheme, t) == (t[..c], t[c + 1..])
  {
  }

  lemma ReadBare(scheme: string, host: string)
    requires !Bracketed(host) && ':' !in host
    ensures ReadHostPort(scheme, HostPortText(host, "")) == (host, "")
  {
    assert HostPortText(host, "") == host;
  }

  lemma ReadingOfPlain(n: Link)
    requires Shape(n) && PlainHost(n) && StripDefault(n.scheme, n.port) == n.port
    ensures Reading(n) == n
  {
    ReadPlain(n.scheme, n.host, n.port);
  }

  lemma ReadPrints(scheme: string, host: string, port: string)
    requires HostPortShape(host, port)
    ensures var hp := ReadHostPort(scheme, HostPortText(host, port));
            HostPortText(hp.0, hp.1) == HostPortText(host, port)
  {
    if Bracketed(host) {
      BracketedReads(host, port);
    } else {
      BareReadPrints(scheme, HostPortText(host, port));
    }
  }

  lemma BareReadPrints(scheme: string, t: string)
    requires !Bracketed(t)
    ensures var hp := ReadHostPort(scheme, t); HostPortText(hp.0, hp.1) == t
  {
    var c := LastIndexByte(t, ':');
    if c >= 0 {
      assert t == t[..c] + ":" + t[c + 1..];
    }
  }

  lemma ReadingPrints(n: Link)
    requires Shape(n)
    ensures HostPortText(Reading(n).host, Reading(n).port) == HostPortText(n.host, n.port)
  {
    ReadPrints(n.scheme, n.host, n.port);
  }

  // ---- normalised links ----

  lemma SchemeShape(s: string, i: nat)
    requires Index(s, DELIMITER) == i
    ensures Index(ToLower(s[..i]) + DELIMITER, DELIMITER) == i
  {
    assert s == s[..i] + DELIMITER + s[i + 3..];
    DelimiterStays(s[..i], s[i + 3..], "");
    assert ToLower(s[..i]) + DELIMITER + "" == ToLower(s[..i]) + DELIMITER;
  }

  lemma SplitLinkScheme(scheme: string, rest: string)
    ensures SplitLink(scheme, rest).Ok? ==> SplitLink(scheme, rest).value.scheme == scheme
  {
  }

  lemma LinkOfShape(raw: string)
    requires LinkOf(raw).Ok?
    ensures Shape(LinkOf(raw).value) && SchemeText(LinkOf(raw).value.scheme)
  {
    var s := Trim(raw);
    var i := Index(s, DELIMITER);
    var scheme, body := ToLower(s[..i]), CutFragment(s[i + 3..]);
    assert LinkOf(raw) == SplitLink(scheme, body);
    LoweredScheme(s, i);
    SplitLinkShape(scheme, body);
    SplitLinkScheme(scheme, body);
  }

  lemma LoweredScheme(s: string, i: nat)
    requires Index(s, DELIMITER) == i
    ensures SchemeText(ToLower(s[..i]))
  {
    SchemeShape(s, i);
    ToLowerTwice(s[..i]);
  }

  lemma LowerKeepsHostShape(host: string, port: string)
    requires HostPortShape(host, port)
    ensures HostPortShape(ToLower(host), port) && Bracketed(ToLower(host)) == Bracketed(host)
    ensures ':' in ToLower(host) <==> ':' in host
  {
    ToLowerKeepsByte(host, '/');
    ToLowerKeepsByte(host, '?');
    ToLowerKeepsByte(host, '#');
    ToLowerKeepsByte(host, '@');
    ToLowerKeepsByte(host, ':');
    if Bracketed(host) {
      ToLowerKeepsByte(host[..|host| - 1], ']');
      assert ToLower(host)[..|host| - 1] == ToLower(host[..|host| - 1]);
    }
  }

  lemma CanonicalQueryParts(query: string)
    ensures QueryParts(CanonicalQuery(query)) == SortStrings(QueryParts(query))
  {
    var parts := SortStrings(QueryParts(query));
    SortMembers(QueryParts(query));
    if parts == [] {
      assert QueryParts("") == [];
    } else {
      assert forall p <- parts :: p in QueryParts(query) && '&' !in p && p != "";
      SplitOfJoin(parts, '&');
      NonEmptyId(parts);
    }
  }

  lemma CanonicalQueryShape(query: string)
    requires '#' !in query
    ensures '#' !in CanonicalQuery(query)
  {
    SplitLacks(query, '&', '#');
    SortMembers(QueryParts(query));
    JoinLacks(SortStrings(QueryParts(query)), '&', '#');
  }

  /** Two queries have one canonical form exactly when they hold the same non-empty pairs. */
  lemma CanonicalQueryEqual(q1: string, q2: string)
    ensures CanonicalQuery(q1) == CanonicalQuery(q2)
            <==> multiset(QueryParts(q1)) == multiset(QueryParts(q2))
  {
    CanonicalQueryParts(q1);
    CanonicalQueryParts(q2);
    SortSame(QueryParts(q1), QueryParts(q2));
  }

  lemma CanonicalQueryTwice(query: string)
    ensures CanonicalQuery(CanonicalQuery(query)) == CanonicalQuery(query)
  {
    CanonicalQueryParts(query);
    SortSame(QueryParts(CanonicalQuery(query)), QueryParts(query));
  }

  lemma SortedQueryEqual(q1: string, q2: string)
    ensures CanonicalQuery(q1) == CanonicalQuery(q2)
            <==> multiset(QueryParts(CanonicalQuery(q1))) == multiset(QueryParts(CanonicalQuery(q2)))
  {
    CanonicalQueryEqual(CanonicalQuery(q1), CanonicalQuery(q2));
    CanonicalQueryTwice(q1);
    CanonicalQueryTwice(q2);
  }

  lemma NormalisedShape(l: Link)
    requires Shape(l)
    ensures Shape(Normalise(l))
    ensures StripDefault(l.scheme, Normalise(l).port) == Normalise(l).port
    ensures PlainHost(Normalise(l)) == PlainHost(l)
  {
    LowerKeepsHostShape(l.host, l.port);
    CanonicalQueryShape(l.query);
  }

  // ---- main results ----

  /** Equal in scheme, userinfo, host, port, path and in the bag of non-empty query pairs. */
  predicate SameLink(a: Link, b: Link) {
    && a.scheme == b.scheme && a.userinfo == b.userinfo && a.host == b.host && a.port == b.port
    && a.path == b.path && multiset(QueryParts(a.query)) == multiset(QueryParts(b.query))
  }

  /** Printed links agree exactly when everything but the colon between host and port agrees. */
  lemma PrintInjective(m: Link, n: Link)
    requires Shape(m) && SchemeText(m.scheme) && Shape(n) && SchemeText(n.scheme)
    ensures Print(m) == Print(n) <==>
      && m.scheme == n.scheme && m.userinfo == n.userinfo && m.path == n.path && m.query == n.query
      && HostPortText(m.host, m.port) == HostPortText(n.host, n.port)
  {
    PrintSplits(m);
    PrintSplits(n);
  }

  lemma SameTextSameReading(m: Link, n: Link)
    requires Shape(m) && Shape(n) && m.scheme == n.scheme
    ensures HostPortText(m.host, m.port) == HostPortText(n.host, n.port)
            <==> Reading(m).host == Reading(n).host && Reading(m).port == Reading(n).port
  {
    ReadingPrints(m);
    ReadingPrints(n);
  }

  /** Canonical-form theorem, for all links that are not vmess: the canonical forms agree
      exactly when the readings of the two normalised links are the same link. */
  lemma CanonicalEqual(lib: Lib, a: string, b: string)
    requires Accepted(a) && Accepted(b)
    ensures Canonical(lib, a) == Canonical(lib, b)
            <==> SameLink(Reading(Normalise(LinkOf(a).value)), Reading(Normalise(LinkOf(b).value)))
  {
    LinkOfShape(a);
    LinkOfShape(b);
    CanonicalOfAccepted(lib, a);
    CanonicalOfAccepted(lib, b);
    PrintedEqual(LinkOf(a).value, LinkOf(b).value);
  }

  lemma PrintedEqual(a: Link, b: Link)
    requires Shape(a) && SchemeText(a.scheme) && Shape(b) && SchemeText(b.scheme)
    ensures Print(Normalise(a)) == Print(Normalise(b))
            <==> SameLink(Reading(Normalise(a)), Reading(Normalise(b)))
  {
    NormalisedShape(a);
    NormalisedShape(b);
    PrintInjective(Normalise(a), Normalise(b));
    if a.scheme == b.scheme {
      SameTextSameReading(Normalise(a), Normalise(b));
    }
    SortedQueryEqual(a.query, b.query);
  }

  /** A normalised link is read back as itself exactly when its host hides no port; otherwise the
      hidden port is split off. */
  lemma ReadingChanges(n: Link)
    requires Shape(n) && StripDefault(n.scheme, n.port) == n.port
    ensures Reading(n) == n <==> !HidesPort(n)
    ensures HidesPort(n) ==>
      && n.port == "" && Reading(n).port != "" && n.host == Reading(n).host + ":" + Reading(n).port
  {
    if PlainHost(n) {
      ReadingOfPlain(n);
    } else {
      var t, c := n.host, LastIndexByte(n.host, ':');
      assert HostPortText(n.host, n.port) == t && !Bracketed(t) && c >= 0;
      assert t == t[..c] + ":" + t[c + 1..];
      hide LastIndexByte, Bracketed;
      if HidesPort(n) {
        assert Reading(n) == n.(host := t[..c], port := t[c + 1..]);
      } else {
        assert Reading(n) == n.(host := t, port := "");
      }
    }
  }

  lemma HidesPortNormalised(l: Link)
    requires Shape(l)
    ensures HidesPort(Normalise(l)) == HidesPort(l)
  {
    NormalisedShape(l);
    if !PlainHost(l) {
      LowerAfterColon(l.host);
      LowerDigits(AfterColon(l.host));
    }
  }

  /** Equal in everything the canonical form is meant to keep. */
  predicate SameParts(a: Link, b: Link) {
    && a.scheme == b.scheme && a.userinfo == b.userinfo && ToLower(a.host) == ToLower(b.host)
    && StripDefault(a.scheme, a.port) == StripDefault(b.scheme, b.port)
    && a.path == b.path && multiset(QueryParts(a.query)) == multiset(QueryParts(b.query))
  }

  /** The same in terms of the links as written: the parts agree exactly when the canonical forms
      agree and both hosts hide a port or neither does. */
  lemma CanonicalEqualParts(lib: Lib, a: string, b: string)
    requires Accepted(a) && Accepted(b)
    ensures var la, lb := LinkOf(a).value, LinkOf(b).value;
            Canonical(lib, a) == Canonical(lib, b) && HidesPort(la) == HidesPort(lb) <==> SameParts(la, lb)
  {
    LinkOfShape(a);
    LinkOfShape(b);
    CanonicalOfAccepted(lib, a);
    CanonicalOfAccepted(lib, b);
    PrintedEqualParts(LinkOf(a).value, LinkOf(b).value);
  }

  lemma PrintedEqualParts(a: Link, b: Link)
    requires Shape(a) && SchemeText(a.scheme) && Shape(b) && SchemeText(b.scheme)
    ensures Print(Normalise(a)) == Print(Normalise(b)) && HidesPort(a) == HidesPort(b) <==> SameParts(a, b)
  {
    var m, n := Normalise(a), Normalise(b);
    NormalisedShape(a);
    NormalisedShape(b);
    HidesPortNormalised(a);
    HidesPortNormalised(b);
    CanonicalQueryEqual(a.query, b.query);
    PrintInjective(m, n);
    assert SameParts(a, b) <==>
             && m.scheme == n.scheme && m.userinfo == n.userinfo && m.host == n.host && m.port == n.port
             && m.path == n.path && m.query == n.query;
    hide Print, CanonicalQuery, ToLower, QueryParts, Shape, SchemeText;
    if m.scheme == n.scheme && HidesPort(m) == HidesPort(n) {
      SameTextSameHost(m, n);
    }
  }

  lemma SameTextSameHost(m: Link, n: Link)
    requires Shape(m) && StripDefault(m.scheme, m.port) == m.port
    requires Shape(n) && StripDefault(n.scheme, n.port) == n.port
    requires m.scheme == n.scheme && HidesPort(m) == HidesPort(n)
    ensures HostPortText(m.host, m.port) == HostPortText(n.host, n.port) <==> m.host == n.host && m.port == n.port
  {
    ReadingChanges(m);
    ReadingChanges(n);
    SameTextSameReading(m, n);
    hide Reading;
    if HidesPort(m) {
      assert HostPortText(m.host, m.port) == m.host && HostPortText(n.host, n.port) == n.host;
    }
  }

  // ---- the canonical form as an input ----

  /** A host whose text, printed without a port, is split back without loss: either no port can be
      mistaken, or the mistaken one is printed again. */
  predicate SettledHost(l: Link) {
    PlainHost(l) || HidesPort(l)
  }

  lemma LinkOfCanonicalText(n: Link)
    requires Shape(n) && SchemeText(n.scheme) && Trim(Print(n)) == Print(n)
    ensures LinkOf(Print(n)) ==
      match SplitHostPort(HostPortText(n.host, n.port))
      case Err(e) => Err(e)
      case Ok((host, port)) => Ok(n.(host := host, port := port))
  {
    PrintSplits(n);
  }

  lemma SplitBare(host: string, port: string)
    requires !Bracketed(host) && IsDigits(port)
    ensures SplitHostPort(host + ":" + port) == Ok((host, port))
  {
    DigitsHaveNoColon(port);
    LastColon(host, port);
    assert !Bracketed(host + ":" + port);
  }

  lemma SplitPlain(host: string, port: string)
    requires HostPortShape(host, port)
    requires Bracketed(host) || ':' !in host || port != ""
    ensures SplitHostPort(HostPortText(host, port)) == Ok((host, port))
  {
    if Bracketed(host) {
      BracketedReads(host, port);
    } else if port != "" {
      assert HostPortText(host, port) == host + ":" + port;
      SplitBare(host, port);
    } else {
      assert HostPortText(host, port) == host;
    }
  }

  lemma NormaliseTwice(l: Link)
    requires Shape(l)
    ensures Normalise(Normalise(l)) == Normalise(l)
  {
    ToLowerTwice(l.host);
    CanonicalQueryTwice(l.query);
  }

  lemma LowerDigits(s: string)
    ensures IsDigits(ToLower(s)) == IsDigits(s)
    ensures IsDigits(s) ==> ToLower(s) == s
  {
    assert forall i :: 0 <= i < |s| ==> IsDigit(ToLower(s)[i]) == IsDigit(s[i]);
    if IsDigits(s) {
      assert forall i :: 0 <= i < |s| ==> IsDigit(s[i]) && ToLower(s)[i] == s[i];
    }
  }

  lemma LowerAfterColon(host: string)
    requires ':' in host
    ensures AfterColon(ToLower(host)) == ToLower(AfterColon(host))
  {
    var c := LastIndexByte(host, ':');
    ToLowerKeepsByte(host[c + 1..], ':');
    assert ToLower(host)[c + 1..] == ToLower(host[c + 1..]);
    LastIndexByteIs(ToLower(host), ':', c);
  }

  /** Reading back the text of a bare host that hides a port. */
  lemma SplitHidden(scheme: string, host: string)
    requires HostPortShape(host, "") && !Bracketed(host) && ':' in host
    ensures var y := AfterColon(host);
            SplitHostPort(host) ==
              if y == "" || IsDigits(y) then Ok((host[..|host| - |y| - 1], y)) else Err(InvalidPort)
  {
  }

  /** Normalising the split of a bare host that hides a port prints the same text exactly when
      the port is one that canonical forms keep. */
  lemma HiddenPortText(scheme: string, h: string, y: string)
    ensures HostPortText(h, StripDefault(scheme, y)) == h + ":" + y <==> y != "" && y != DefaultPort(scheme)
  {
    assert |h + ":" + y| > |h|;
  }

  lemma HiddenPortReprints(n: Link, h: string, y: string)
    requires Shape(n) && SchemeText(n.scheme) && !PlainHost(n) && Normalise(n) == n
    requires y == AfterColon(n.host) && n.host == h + ":" + y && (y == "" || IsDigits(y))
    requires HostPortShape(h, y)
    ensures Print(Normalise(n.(host := h, port := y))) == Print(n) <==> SettledHost(n)
  {
    var m := n.(host := h, port := y);
    assert HostPortText(n.host, n.port) == n.host;
    NormalisedShape(m);
    LowerPrefix(h, n.host);
    PrintInjective(Normalise(m), n);
    HiddenPortText(n.scheme, h, y);
  }

  lemma LowerPrefix(h: string, s: string)
    requires h <= s && ToLower(s) == s
    ensures ToLower(h) == h
  {
    assert forall i :: 0 <= i < |h| ==> h[i] == s[i] && ToLower(s)[i] == LowerChar(s[i]);
  }

  /** The canonical form of a link is its own canonical form exactly when the host is settled
      (given that outer white space and byte order marks do not interfere). */
  lemma TrimmedIdempotent(lib: Lib, raw: string)
    requires Accepted(raw)
    requires Trim(Canonical(lib, raw).value) == Canonical(lib, raw).value
    ensures Canonical(lib, Canonical(lib, raw).value) == Canonical(lib, raw) <==> SettledHost(LinkOf(raw).value)
  {
    CanonicalOfAccepted(lib, raw);
    LinkOfShape(raw);
    var l := LinkOf(raw).value;
    NormalisedShape(l);
    NormaliseTwice(l);
    NormalisedSettled(l);
    PrintSplits(Normalise(l));
    LinkOfCanonicalText(Normalise(l));
    if PlainHost(l) {
      SplitPlain(Normalise(l).host, Normalise(l).port);
      CanonicalOfAccepted(lib, Print(Normalise(l)));
    } else {
      HiddenPort(lib, Normalise(l));
    }
  }

  lemma NormalisedSettled(l: Link)
    requires Shape(l)
    ensures SettledHost(Normalise(l)) == SettledHost(l)
  {
    NormalisedShape(l);
    HidesPortNormalised(l);
  }

  /** Reading canonical text back, after the scheme delimiter has been found. */
  lemma CanonicalOfText(lib: Lib, n: Link)
    requires Shape(n) && SchemeText(n.scheme) && n.scheme != "vmess" && Trim(Print(n)) == Print(n)
    ensures Canonical(lib, Print(n)) ==
      match LinkOf(Print(n)) case Err(e) => Err(e) case Ok(m) => Ok(Print(Normalise(m)))
  {
    PrintSplits(n);
    ReadText(lib, n.scheme, Print(n));
  }

  lemma ReadText(lib: Lib, scheme: string, text: string)
    requires SchemeText(scheme) && scheme != "vmess" && Trim(text) == text
    requires Index(text, DELIMITER) == |scheme| && text[..|scheme|] == scheme
    ensures Canonical(lib, text) ==
      match LinkOf(text) case Err(e) => Err(e) case Ok(m) => Ok(Print(Normalise(m)))
  {
  }

  lemma HiddenPort(lib: Lib, n: Link)
    requires Shape(n) && SchemeText(n.scheme) && n.scheme != "vmess" && Trim(Print(n)) == Print(n)
    requires !PlainHost(n) && Normalise(n) == n
    ensures Canonical(lib, Print(n)) == Ok(Print(n)) <==> SettledHost(n)
  {
    CanonicalOfText(lib, n);
    LinkOfCanonicalText(n);
    assert HostPortText(n.host, n.port) == n.host;
    HiddenPortOutcome(n, LinkOf(Print(n)), Canonical(lib, Print(n)));
  }

  lemma HiddenPortOutcome(n: Link, link: Result<Link, LinkError>, canonical: Result<string, LinkError>)
    requires Shape(n) && SchemeText(n.scheme) && !PlainHost(n) && Normalise(n) == n
    requires link == match SplitHostPort(n.host)
                     case Err(e) => Err(e)
                     case Ok((host, port)) => Ok(n.(host := host, port := port))
    requires canonical == match link case Err(e) => Err(e) case Ok(m) => Ok(Print(Normalise(m)))
    ensures canonical == Ok(Print(n)) <==> SettledHost(n)
  {
    hide Print, Normalise, LastIndexByte, Index, SplitHostPort;
    var y := AfterColon(n.host);
    SplitHidden(n.scheme, n.host);
    if y == "" || IsDigits(y) {
      HiddenPortSplit(n, n.host[..|n.host| - |y| - 1], y);
    }
  }

  lemma HiddenPortSplit(n: Link, h: string, y: string)
    requires Shape(n) && SchemeText(n.scheme) && !PlainHost(n) && Normalise(n) == n
    requires y == AfterColon(n.host) && (y == "" || IsDigits(y))
    requires |h| + |y| + 1 == |n.host| && h == n.host[..|h|]
    ensures Print(Normalise(n.(host := h, port := y))) == Print(n) <==> SettledHost(n)
  {
    SplitHidden(n.scheme, n.host);
    SplitHostPortShape(n.host);
    ColonSplits(n.host, h, y);
    HiddenPortReprints(n, h, y);
  }

  lemma ColonSplits(host: string, h: string, y: string)
    requires ':' in host && y == AfterColon(host)
    requires |h| + |y| + 1 == |host| && h == host[..|h|]
    ensures host == h + ":" + y
  {
    assert host[|h|] == ':';
  }
}
