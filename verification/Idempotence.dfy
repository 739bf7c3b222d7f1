/** When a canonical form is its own canonical form. */
module Idempotence {
  import opened Basics
  import opened Strings
  import opened Links
  import opened CanonicalForm
  import opened Dedup
  import opened LinkText
  import opened RoundTrip

  // ---- canonical forms are never longer than what they came from ----

  function Total(parts: seq<string>): nat {
    if parts == [] then 0 else |parts[0]| + Total(parts[1..])
  }

  lemma {:induction false} InsertTotal(x: string, ss: seq<string>)
    requires Sorted(ss)
    ensures Total(Insert(x, ss)) == |x| + Total(ss) && |Insert(x, ss)| == |ss| + 1
  {
    if ss == [] || Leq(x, ss[0]) {
      assert ([x] + ss)[1..] == ss;
    } else {
      InsertTotal(x, ss[1..]);
      assert ([ss[0]] + Insert(x, ss[1..]))[1..] == Insert(x, ss[1..]);
    }
  }

  lemma {:induction false} SortTotal(ss: seq<string>)
    ensures Total(SortStrings(ss)) == Total(ss) && |SortStrings(ss)| == |ss|
  {
    if ss != [] {
      SortTotal(ss[1..]);
      InsertTotal(ss[0], SortStrings(ss[1..]));
    }
  }

  lemma {:induction false} NonEmptyTotal(ss: seq<string>)
    ensures Total(NonEmpty(ss)) == Total(ss) && |NonEmpty(ss)| <= |ss|
  {
    if ss != [] {
      NonEmptyTotal(ss[1..]);
    }
  }

  lemma {:induction false} JoinLength(ss: seq<string>, c: char)
    ensures |Join(ss, c)| == Total(ss) + if ss == [] then 0 else |ss| - 1
  {
    if |ss| == 1 {
      assert ss[1..] == [];
    } else if ss != [] {
      JoinLength(ss[1..], c);
    }
  }

  lemma QueryShrinks(query: string)
    ensures |CanonicalQuery(query)| <= |query|
  {
    var parts := Split(query, '&');
    JoinOfSplit(query, '&');
    JoinLength(parts, '&');
    NonEmptyTotal(parts);
    SortTotal(NonEmpty(parts));
    JoinLength(SortStrings(NonEmpty(parts)), '&');
  }

  lemma HostPortShrinks(s: string)
    requires SplitHostPort(s).Ok?
    ensures |HostPortText(SplitHostPort(s).value.0, SplitHostPort(s).value.1)| <= |s|
  {
  }

  lemma LinkShrinks(scheme: string, body: string)
    requires SplitLink(scheme, body).Ok?
    ensures var l := SplitLink(scheme, body).value;
            |RestText(l.userinfo, HostPortText(l.host, l.port), l.path, l.query)| <= |body|
  {
    var (auth, tail) := SplitAuthority(body);
    HostPortShrinks(SplitUserinfo(auth).1);
  }

  lemma NormaliseShrinks(l: Link)
    ensures var n := Normalise(l);
            |RestText(n.userinfo, HostPortText(n.host, n.port), n.path, n.query)|
            <= |RestText(l.userinfo, HostPortText(l.host, l.port), l.path, l.query)|
  {
    QueryShrinks(l.query);
  }

  lemma CanonicalLength(lib: Lib, raw: string)
    requires Accepted(raw)
    ensures Canonical(lib, raw).Ok? && |Canonical(lib, raw).value| <= |Trim(raw)|
  {
    hide SplitLink, LinkOf, CanonicalQuery, StripDefault, Canonical, SplitHostPort, CutFragment, Index, ToLower, RestText, Trim;
    var s := Trim(raw);
    CanonicalOfAccepted(lib, raw);
    SplitOfLine(raw);
    LinkShrinks(SchemeOf(s), CutFragment(RestOf(s)));
    NormaliseShrinks(LinkOf(raw).value);
    PartsLength(LinkOf(raw).value.scheme, s);
  }

  lemma PartsLength(scheme: string, s: string)
    requires Index(s, DELIMITER) >= 0 && scheme == SchemeOf(s)
    ensures |scheme| + 3 + |CutFragment(RestOf(s))| <= |s|
  {
    assert |ToLower(s[..Index(s, DELIMITER)])| == Index(s, DELIMITER);
  }

  // ---- texts that Trim changes ----

  lemma TrimShortens(s: string)
    ensures |Trim(s)| <= |s| && (|Trim(s)| == |s| ==> Trim(s) == s)
  {
    TrimPart(s);
  }

  lemma TrimKeepsStart(s: string)
    requires s != "" && !IsSpace(s[0]) && s[0] != BOM_START
    ensures Trim(s) <= s
  {
    assert BOM[0] == BOM_START && BOM_NBSP[0] == BOM_START;
    assert !HasPrefix(s, BOM) && !HasPrefix(s, BOM_NBSP);
    TrimRightEnds(s);
  }

  /** No text read as a vmess link is its own canonical form. */
  lemma VmessNeverFixed(lib: Lib, c: string)
    requires var s := Trim(c); Index(s, DELIMITER) >= 0 && SchemeOf(s) == "vmess"
    ensures Canonical(lib, c) != Ok(c)
  {
    var s := Trim(c);
    if Canonical(lib, c) == Ok(c) {
      VmessCanonicalStart(lib, s, RestOf(s));
      TrimKeepsStart(c);
    }
  }

  lemma VmessCanonicalStart(lib: Lib, s: string, rest: string)
    ensures var c := CanonicalVmess(lib, s, rest); |c| > 5 && c[0] in "ov" && c[5] in "e|"
  {
  }

  /** A text that Trim changes is not its own canonical form, for that comes out shorter. */
  lemma UntrimmedNotFixed(lib: Lib, c: string)
    requires Trim(c) != c
    ensures Canonical(lib, c) != Ok(c)
  {
    var s := Trim(c);
    TrimShortens(c);
    if Index(s, DELIMITER) >= 0 && SchemeOf(s) == "vmess" {
      VmessNeverFixed(lib, c);
    } else if Canonical(lib, c).Ok? {
      OthersAccepted(lib, c);
      hide LinkOf, Canonical;
      CanonicalLength(lib, c);
    }
  }

  lemma OthersAccepted(lib: Lib, c: string)
    requires Canonical(lib, c).Ok? && Index(Trim(c), DELIMITER) >= 0 && SchemeOf(Trim(c)) != "vmess"
    ensures Accepted(c)
  {
    var s := Trim(c);
    var scheme, body := SchemeOf(s), CutFragment(RestOf(s));
    SplitLinkScheme(scheme, body);
    hide SplitLink, Print, Normalise, CanonicalVmess, Trim, CutFragment, Index, ToLower;
    assert LinkOf(c) == SplitLink(scheme, body);
  }

  // ---- canonical forms that Trim leaves alone ----

  /** The last part that the canonical form prints. */
  function LastPart(l: Link): string {
    if CanonicalQuery(l.query) != "" then CanonicalQuery(l.query)
    else if l.path != "" then l.path
    else if StripDefault(l.scheme, l.port) != "" then l.port
    else l.host
  }

  /** No byte order mark is left in front of the scheme, and the last part printed does not end in
      white space. */
  predicate CleanEnds(l: Link) {
    !HasPrefix(l.scheme, BOM) && (LastPart(l) != "" ==> !IsSpace(LastPart(l)[|LastPart(l)| - 1]))
  }

  lemma TrimFixed(c: string)
    requires c != "" && !IsSpace(c[0])
    ensures Trim(c) == c <==> !HasPrefix(c, BOM) && !IsSpace(c[|c| - 1])
  {
    if HasPrefix(c, BOM) {
      TrimmedRestShorter(c[3..]);
    } else {
      assert !HasPrefix(c, BOM_NBSP) by {
        assert BOM_NBSP[..3] == BOM;
      }
      assert Trim(c) == TrimRightSpace(c);
      TrimRightEnds(c);
    }
  }

  lemma TrimmedRestShorter(s: string)
    ensures |TrimSpace(TrimPrefix(s, BOM_NBSP))| <= |s|
  {
    var t := TrimPrefix(s, BOM_NBSP);
    TrimLeftSuffix(t);
    TrimRightEnds(TrimLeftSpace(t));
  }

  lemma SchemeHoldsBom(scheme: string, rest: string)
    ensures HasPrefix(scheme + DELIMITER + rest, BOM) <==> HasPrefix(scheme, BOM)
  {
    var t := scheme + DELIMITER + rest;
    if |scheme| < 3 {
      assert t[|scheme|] == ':' != BOM[|scheme|];
    } else {
      assert t[..3] == scheme[..3];
    }
  }

  /** The last byte of a printed link. */
  lemma PrintEnds(l: Link)
    ensures var t := Print(Normalise(l));
            t != "" && (IsSpace(t[|t| - 1]) <==> LastPart(l) != "" && IsSpace(LastPart(l)[|LastPart(l)| - 1]))
  {
    var n := Normalise(l);
    hide CanonicalQuery, DefaultPort;
    var t := Print(n);
    if n.query != "" {
      assert t[|t| - 1] == n.query[|n.query| - 1];
    } else if n.path != "" {
      assert t[|t| - 1] == n.path[|n.path| - 1];
    } else if n.port != "" {
      assert t[|t| - 1] == n.port[|n.port| - 1] == l.port[|l.port| - 1];
    } else if n.host != "" {
      assert t[|t| - 1] == n.host[|n.host| - 1] == LowerChar(l.host[|l.host| - 1]);
    } else if n.userinfo != "" {
      assert t[|t| - 1] == '@';
    } else {
      assert t[|t| - 1] == '/';
    }
  }

  /** What Trim leaves alone, told from the link. */
  lemma TrimmedIff(lib: Lib, raw: string)
    requires Accepted(raw)
    ensures var c := Canonical(lib, raw).value; Trim(c) == c <==> CleanEnds(LinkOf(raw).value)
  {
    hide LinkOf, Canonical, Trim, LastPart;
    var l := LinkOf(raw).value;
    CanonicalOfAccepted(lib, raw);
    AcceptedWritable(raw);
    var n := Normalise(l);
    SchemeHoldsBom(n.scheme, RestText(n.userinfo, HostPortText(n.host, n.port), n.path, n.query));
    PrintEnds(l);
    assert Print(n)[0] == if n.scheme == "" then ':' else n.scheme[0];
    TrimFixed(Print(n));
  }

  /** The canonical form of a link is its own canonical form exactly when its ends are clean and its
      host is settled. */
  lemma CanonicalIdempotent(lib: Lib, raw: string)
    requires Accepted(raw)
    ensures var c, l := Canonical(lib, raw).value, LinkOf(raw).value;
            Canonical(lib, c) == Ok(c) <==> CleanEnds(l) && SettledHost(l)
  {
    hide LinkOf, Canonical, Trim, CleanEnds, SettledHost;
    CanonicalOfAccepted(lib, raw);
    var c := Canonical(lib, raw).value;
    TrimmedIff(lib, raw);
    if Trim(c) == c {
      TrimmedIdempotent(lib, raw);
    } else {
      UntrimmedNotFixed(lib, c);
    }
  }
}
