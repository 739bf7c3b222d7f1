/** ParseMany keeps the first line of each hash, and gives back what was published. */
module RoundTrip {
  import opened Basics
  import opened Strings
  import opened Base64
  import opened Links
  import opened CanonicalForm
  import opened ShareLink
  import opened Dedup
  import opened Subscription
  import opened Url

  // ---- the first line of each hash ----

  /** Line `i` gave a node and no earlier line gave one with its hash. */
  predicate FirstOfHash(found: seq<Option<Node>>, i: nat) {
    && i < |found| && found[i].Some?
    && forall j :: 0 <= j < i && found[j].Some? ==> found[j].value.uriHash != found[i].value.uriHash
  }

  /** `nodes` are the nodes of exactly the first lines of each hash, in input order. */
  ghost predicate KeepsFirst(found: seq<Option<Node>>, nodes: seq<Node>, at: seq<nat>) {
    && |at| == |nodes|
    && (forall k :: 0 <= k < |at| ==> FirstOfHash(found, at[k]) && found[at[k]] == Some(nodes[k]))
    && (forall k, l :: 0 <= k < l < |at| ==> at[k] < at[l])
    && (forall i: nat :: FirstOfHash(found, i) ==> i in at)
  }

  lemma {:induction false} HashesAreThoseOfLines(found: seq<Option<Node>>, h: string)
    ensures HasHash(Collected(found), h)
            <==> exists i :: 0 <= i < |found| && found[i].Some? && found[i].value.uriHash == h
  {
    if found != [] {
      var last := |found| - 1;
      var init := found[..last];
      HashesAreThoseOfLines(init, h);
      if found[last].Some? {
        AddedHash(Collected(init), found[last].value);
      }
      assert (exists i :: 0 <= i < |init| && init[i].Some? && init[i].value.uriHash == h)
             || (found[last].Some? && found[last].value.uriHash == h)
             <==> exists i :: 0 <= i < |found| && found[i].Some? && found[i].value.uriHash == h by {
        if i :| 0 <= i < |init| && init[i].Some? && init[i].value.uriHash == h {
          assert found[i] == init[i];
        }
      }
    }
  }

  /** ParseMany keeps exactly the first accepted line of each hash, in input order. */
  lemma {:induction false} CollectedKeepsFirst(found: seq<Option<Node>>) returns (at: seq<nat>)
    ensures KeepsFirst(found, Collected(found), at)
  {
    if found == [] {
      at := [];
    } else {
      var last := |found| - 1;
      var init := found[..last];
      at := CollectedKeepsFirst(init);
      if found[last].Some? {
        HashesAreThoseOfLines(init, found[last].value.uriHash);
      }
      KeepsFirstStep(found, Collected(init), at);
      if FirstOfHash(found, last) {
        at := at + [last];
      }
    }
  }

  lemma KeepsFirstStep(found: seq<Option<Node>>, nodes: seq<Node>, at: seq<nat>)
    requires found != [] && KeepsFirst(found[..|found| - 1], nodes, at)
    ensures var last := |found| - 1;
            if FirstOfHash(found, last) then KeepsFirst(found, nodes + [found[last].value], at + [last])
            else KeepsFirst(found, nodes, at)
  {
    var last := |found| - 1;
    var init := found[..last];
    forall i: nat | i < last ensures FirstOfHash(found, i) <==> FirstOfHash(init, i) {
    }
    if FirstOfHash(found, last) {
      var after := at + [last];
      forall i: nat | FirstOfHash(found, i) ensures i in after {
        assert i < last ==> i in at;
        assert after[|at|] == last;
      }
    }
  }

  predicate DistinctHashes(nodes: seq<Node>) {
    forall i, j :: 0 <= i < j < |nodes| ==> nodes[i].uriHash != nodes[j].uriHash
  }

  lemma {:induction false} CollectedDistinct(found: seq<Option<Node>>)
    ensures DistinctHashes(Collected(found))
  {
    if found != [] {
      CollectedDistinct(found[..|found| - 1]);
    }
  }

  /** Lines with accepted links of distinct hashes are all kept. */
  lemma {:induction false} CollectedAll(found: seq<Option<Node>>, nodes: seq<Node>)
    requires |found| == |nodes| && DistinctHashes(nodes)
    requires forall i :: 0 <= i < |found| ==> found[i] == Some(nodes[i])
    ensures Collected(found) == nodes
  {
    if found != [] {
      var last := |found| - 1;
      CollectedAll(found[..last], nodes[..last]);
      assert nodes == nodes[..last] + [nodes[last]];
    }
  }

  // ---- nodes as they are stored ----

  /** A node as ParseMany returns it: its own link is one line that parses to it. */
  predicate Stored(lib: Lib, n: Node) {
    NodeOf(lib, n.uri) == Some(n) && '\n' !in n.uri && IsBytes(n.uri)
  }

  lemma {:induction false} TrimLeftSuffix(s: string)
    ensures exists k :: 0 <= k <= |s| && TrimLeftSpace(s) == s[k..]
  {
    if s != "" && IsSpace(s[0]) {
      TrimLeftSuffix(s[1..]);
      var k :| 0 <= k <= |s| - 1 && TrimLeftSpace(s[1..]) == s[1..][k..];
      assert s[1..][k..] == s[k + 1..];
    } else {
      assert s == s[0..];
    }
  }

  /** `t` is a contiguous part of `s`. */
  ghost predicate PartOf(t: string, s: string) {
    exists i, j :: 0 <= i <= j <= |s| && t == s[i..j]
  }

  lemma SliceOfSlice(s: string, i: nat, j: nat, k: nat, l: nat)
    requires i <= j <= |s| && k <= l <= j - i
    ensures s[i..j][k..l] == s[i + k..i + l]
  {
    var t := s[i..j];
    assert forall x :: 0 <= x < l - k ==> t[k..l][x] == s[i + (k + x)];
  }

  lemma PartOfPart(u: string, t: string, s: string)
    requires PartOf(u, t) && PartOf(t, s)
    ensures PartOf(u, s)
  {
    var i, j :| 0 <= i <= j <= |s| && t == s[i..j];
    var k, l :| 0 <= k <= l <= |t| && u == t[k..l];
    SliceOfSlice(s, i, j, k, l);
  }

  lemma PrefixPart(s: string, p: string)
    ensures PartOf(TrimPrefix(s, p), s)
  {
    var t := TrimPrefix(s, p);
    assert t == s[|s| - |t|..|s|];
  }

  lemma SpacePart(s: string)
    ensures PartOf(TrimSpace(s), s)
  {
    TrimLeftSuffix(s);
    var k :| 0 <= k <= |s| && TrimLeftSpace(s) == s[k..];
    TrimRightEnds(TrimLeftSpace(s));
    assert TrimSpace(s) == s[k..k + |TrimSpace(s)|];
  }

  lemma TrimPart(s: string)
    ensures PartOf(Trim(s), s)
  {
    var p := TrimPrefix(s, BOM);
    var q := TrimPrefix(p, BOM_NBSP);
    PrefixPart(s, BOM);
    PrefixPart(p, BOM_NBSP);
    SpacePart(q);
    PartOfPart(q, p, s);
    PartOfPart(TrimSpace(q), q, s);
  }

  lemma AcceptedLine(lib: Lib, line: string)
    requires NodeOf(lib, line).Some?
    ensures NodeOf(lib, line).value.uri == Trim(line)
    ensures Trimmed(Trim(line)) && KnownScheme(Trim(line))
  {
    KnownLineTrimmed(line);
  }

  /** A link of one of the share-link schemes. */
  predicate KnownScheme(s: string) {
    Index(s, DELIMITER) >= 0 && ProtocolOf(SchemeOf(s)).Some?
  }

  /** An accepted line has a canonical form. */
  lemma AcceptedCanonical(lib: Lib, s: string)
    requires Trim(s) == s && ParseTrimmed(lib, s).Ok? && ParseTrimmed(lib, s).value.Some?
    ensures Canonical(lib, s).Ok?
  {
  }

  lemma ReparseUri(lib: Lib, line: string)
    requires NodeOf(lib, line).Some?
    ensures NodeOf(lib, Trim(line)) == NodeOf(lib, line)
  {
    AcceptedLine(lib, line);
    TrimmedStays(Trim(line));
  }

  lemma {:induction false} TrimCRPrefix(s: string)
    ensures TrimRightCR(s) <= s
    decreases |s|
  {
    if s != "" && s[|s| - 1] == '\r' { TrimCRPrefix(s[..|s| - 1]); }
  }

  /** Every node parsed from a line of bytes is stored as one line that parses to it. */
  lemma StoredFromLine(lib: Lib, line: string)
    requires NodeOf(lib, line).Some? && '\n' !in line && IsBytes(line)
    ensures Stored(lib, NodeOf(lib, line).value)
  {
    hide NodeOf, Trim, Trimmed, KnownScheme;
    AcceptedLine(lib, line);
    TrimPart(line);
    ReparseUri(lib, line);
  }

  // ---- renaming the fragment ----

  /** A vmess link whose payload is not base64 of an acceptable JSON object. */
  predicate Opaque(lib: Lib, uri: string)
    requires Index(uri, DELIMITER) >= 0
  {
    SchemeOf(uri) == "vmess" && DecodeVmess(lib, CutFragment(RestOf(uri))).None?
  }

  /** Two trimmed links that differ only in their fragment. */
  predicate SameBody(s: string, t: string) {
    && Trim(s) == s != "" && Trim(t) == t != "" && Index(s, DELIMITER) >= 0 && Index(t, DELIMITER) >= 0
    && SchemeOf(s) == SchemeOf(t) && CutFragment(RestOf(s)) == CutFragment(RestOf(t))
  }

  /** A new fragment never changes the canonical form, except that an opaque vmess link is
      kept whole, fragment included. */
  lemma FragmentIgnored(lib: Lib, s: string, t: string)
    requires SameBody(s, t)
    ensures Canonical(lib, s) == Canonical(lib, t) <==> !Opaque(lib, s) || s == t
  {
    if Opaque(lib, s) {
      OpaqueKeptWhole(lib, s);
      OpaqueKeptWhole(lib, t);
      assert ("opaque|" + s)[7..] == s && ("opaque|" + t)[7..] == t;
    } else {
      BodyDecides(lib, s, t);
    }
  }

  lemma OpaqueKeptWhole(lib: Lib, s: string)
    requires Trim(s) == s != "" && Index(s, DELIMITER) >= 0 && Opaque(lib, s)
    ensures Canonical(lib, s) == Ok("opaque|" + s)
  {
  }

  lemma BodyDecides(lib: Lib, s: string, t: string)
    requires SameBody(s, t) && !Opaque(lib, s)
    ensures Canonical(lib, s) == Canonical(lib, t)
  {
  }

  lemma FragmentCut(body: string, fragment: string)
    requires '#' !in body
    ensures CutFragment(body + "#" + fragment) == body
    ensures NameOf(body + "#" + fragment) == (match QueryUnescape(fragment) case Some(name) => name case None => "")
  {
    var rest := body + "#" + fragment;
    IndexByteIs(rest, '#', |body|);
    assert rest[..|body|] == body && rest[|body| + 1..] == fragment;
  }

  /** The schemes of share links contain no `#`. */
  lemma KnownSchemeText(scheme: string)
    requires ProtocolOf(scheme).Some?
    ensures '#' !in scheme
  {
  }

  lemma SchemeHasNoHash(s: string)
    requires Index(s, DELIMITER) >= 0 && ProtocolOf(SchemeOf(s)).Some?
    ensures '#' !in s[..Index(s, DELIMITER)]
  {
    KnownSchemeText(SchemeOf(s));
    ToLowerKeepsByte(s[..Index(s, DELIMITER)], '#');
  }

  lemma CutFragmentAt(head: string, rest: string)
    requires '#' !in head
    ensures CutFragment(head + rest) == head + CutFragment(rest)
  {
    var j := IndexByte(rest, '#');
    if j >= 0 {
      assert (head + rest)[..|head| + j] == head + rest[..j];
      IndexByteIs(head + rest, '#', |head| + j);
    }
  }

  lemma DelimiterParts(s: string)
    requires Index(s, DELIMITER) >= 0
    ensures s == s[..Index(s, DELIMITER)] + DELIMITER + RestOf(s)
  {
  }

  lemma CutFragmentOf(s: string)
    requires KnownScheme(s)
    ensures CutFragment(s) == s[..Index(s, DELIMITER)] + DELIMITER + CutFragment(RestOf(s))
  {
    SchemeHasNoHash(s);
    DelimiterParts(s);
    CutFragmentAt(s[..Index(s, DELIMITER)] + DELIMITER, RestOf(s));
  }

  /** The text that replaces the rest of a link when it is renamed. */
  function RenamedRest(uri: string, t: Tag): string
    requires TagBytes(t) && KnownScheme(uri)
  {
    LabelBytes(t);
    CutFragment(RestOf(uri)) + "#" + QueryEscape(Label(t))
  }

  lemma Regrouped(head: string, delimiter: string, body: string, name: string)
    ensures (head + delimiter + body) + "#" + name == head + delimiter + (body + "#" + name)
  {
  }

  lemma RenamedText(uri: string, t: Tag)
    requires TagBytes(t) && KnownScheme(uri)
    ensures RenameFragment(uri, t) == uri[..Index(uri, DELIMITER)] + DELIMITER + RenamedRest(uri, t)
  {
    LabelBytes(t);
    var head, body, name := uri[..Index(uri, DELIMITER)], CutFragment(RestOf(uri)), QueryEscape(Label(t));
    CutFragmentOf(uri);
    Regrouped(head, DELIMITER, body, name);
  }

  lemma RestReplaced(uri: string, rest: string)
    requires Index(uri, DELIMITER) >= 0
    ensures var line := uri[..Index(uri, DELIMITER)] + DELIMITER + rest;
            Index(line, DELIMITER) == Index(uri, DELIMITER) && SchemeOf(line) == SchemeOf(uri) && RestOf(line) == rest
  {
    DelimiterParts(uri);
    FirstDelimiter(uri[..Index(uri, DELIMITER)], RestOf(uri), rest);
  }

  lemma RenamedTrimmed(uri: string, t: Tag)
    requires TagBytes(t) && Trimmed(uri) && KnownScheme(uri)
    ensures Trimmed(RenameFragment(uri, t))
  {
    LabelBytes(t);
    EscapedText(Label(t));
    KnownSchemeStart(SchemeOf(uri));
    RenamedText(uri, t);
    StartsAndEnds(uri[..Index(uri, DELIMITER)] + DELIMITER, CutFragment(RestOf(uri)) + "#", QueryEscape(Label(t)));
  }

  lemma StartsAndEnds(head: string, middle: string, esc: string)
    requires head != "" && !IsSpace(head[0]) && head[0] != BOM_START
    requires esc != "" && forall c <- esc :: EscapedByte(c)
    ensures Trimmed(head + (middle + esc))
  {
    var last := esc[|esc| - 1];
    assert last in esc;
  }

  /** Renaming keeps scheme and body and only sets the name. */
  lemma RenamedBody(uri: string, t: Tag)
    requires TagBytes(t) && Trimmed(uri) && KnownScheme(uri)
    ensures var line := RenameFragment(uri, t);
            KnownScheme(line) && SameBody(uri, line) && NameOf(RestOf(line)) == Label(t)
  {
    RenamedText(uri, t);
    RestReplaced(uri, RenamedRest(uri, t));
    RenamedTrimmed(uri, t);
    TrimmedStays(uri);
    TrimmedStays(RenameFragment(uri, t));
    LabelBytes(t);
    FragmentCut(CutFragment(RestOf(uri)), QueryEscape(Label(t)));
    UnescapeInvertsEscape(Label(t));
  }

  /** Two links with one body and one canonical form give the same node, apart from link and name. */
  lemma SameBodySameNode(lib: Lib, s: string, t: string)
    requires SameBody(s, t) && KnownScheme(s) && Canonical(lib, s) == Canonical(lib, t)
    requires NodeOf(lib, s).Some?
    ensures NodeOf(lib, t) == Some(NodeOf(lib, s).value.(uri := t, name := NameOf(RestOf(t))))
  {
    AcceptedCanonical(lib, s);
    ParseLineSteps(lib, s);
    ParseLineSteps(lib, t);
  }

  /** Renaming a stored node that is not opaque vmess changes its link and its name, nothing else. */
  lemma RenameParses(lib: Lib, n: Node, t: Tag)
    requires TagBytes(t) && Stored(lib, n)
    requires KnownScheme(n.uri) && !Opaque(lib, n.uri)
    ensures NodeOf(lib, RenameFragment(n.uri, t)) == Some(Published(n, t))
  {
    AcceptedLine(lib, n.uri);
    RenamedBody(n.uri, t);
    FragmentIgnored(lib, n.uri, RenameFragment(n.uri, t));
    SameBodySameNode(lib, n.uri, RenameFragment(n.uri, t));
  }

  /** A published node as a subscriber reads it. */
  function Published(n: Node, t: Tag): Node
    requires TagBytes(t)
  {
    n.(uri := RenameFragment(n.uri, t), name := Label(t))
  }

  // ---- lines of a text ----

  /** A line that survives splitting and the removal of carriage returns. */
  predicate CleanLine(line: string) {
    '\n' !in line && (line == "" || line[|line| - 1] != '\r')
  }

  lemma LinesOfText(lines: seq<string>)
    requires lines != [] && forall l <- lines :: CleanLine(l)
    requires PlainBody(Join(lines, '\n')) == Join(lines, '\n')
    ensures LinesOf(Join(lines, '\n')) == lines
  {
    SplitOfJoin(lines, '\n');
    forall i | 0 <= i < |lines| ensures TrimRightCR(lines[i]) == lines[i] {
      assert CleanLine(lines[i]);
    }
  }

  lemma {:induction false} JoinStarts(lines: seq<string>, c: char)
    requires lines != [] && lines[0] != ""
    ensures lines[0] <= Join(lines, c) && Join(lines, c)[0] == lines[0][0]
  {
  }

  lemma {:induction false} JoinEnds(lines: seq<string>, c: char)
    requires lines != [] && lines[|lines| - 1] != ""
    ensures |Join(lines, c)| >= |lines[|lines| - 1]|
    ensures var t, l := Join(lines, c), lines[|lines| - 1];
            t != "" && t[|t| - 1] == l[|l| - 1]
  {
    if |lines| > 1 {
      JoinEnds(lines[1..], c);
    }
  }

  lemma SameEndsTrimmed(s: string, first: string, last: string)
    requires Trimmed(first) && Trimmed(last) && s != ""
    requires s[0] == first[0] && s[|s| - 1] == last[|last| - 1]
    ensures Trimmed(s)
  {
  }

  lemma TrimmedJoin(lines: seq<string>, first: string, last: string)
    requires lines != [] && first == lines[0] && last == lines[|lines| - 1]
    requires Trimmed(first) && Trimmed(last)
    ensures Trimmed(Join(lines, '\n')) && first <= Join(lines, '\n')
  {
    var body := Join(lines, '\n');
    JoinStarts(lines, '\n');
    JoinEnds(lines, '\n');
    SameEndsTrimmed(body, first, last);
  }

  /** A text of links is not mistaken for base64. */
  lemma LinksAreNotBase64(lines: seq<string>)
    requires lines != [] && forall i :: 0 <= i < |lines| ==> Trimmed(lines[i]) && Index(lines[i], DELIMITER) >= 0
    ensures PlainBody(Join(lines, '\n')) == Join(lines, '\n')
  {
    TrimmedJoin(lines, lines[0], lines[|lines| - 1]);
    DelimiterOfPrefix(lines[0], Join(lines, '\n'));
    TextIsNotBase64(Join(lines, '\n'));
  }

  lemma DelimiterOfPrefix(p: string, t: string)
    requires p <= t && Index(p, DELIMITER) >= 0
    ensures Index(t, DELIMITER) >= 0
  {
    var i := Index(p, DELIMITER);
    assert t[i..i + 3] == p[i..i + 3];
    assert OccursAt(t, DELIMITER, i);
  }

  lemma TextIsNotBase64(t: string)
    requires Trimmed(t) && Index(t, DELIMITER) >= 0
    ensures PlainBody(t) == t
  {
    assert TrimSpace(t) == t;
  }

  // ---- main results ----

  function Uris(nodes: seq<Node>): (uris: seq<string>)
    ensures |uris| == |nodes| && forall i :: 0 <= i < |nodes| ==> uris[i] == nodes[i].uri
  {
    seq(|nodes|, i requires 0 <= i < |nodes| => nodes[i].uri)
  }

  lemma EmptyBody(lib: Lib)
    ensures Collected(NodesOf(lib, LinesOf(""))) == []
  {
    assert LinesOf("") == [""];
    assert Trim("") == "";
    assert NodesOf(lib, [""]) == [None];
    assert NodesOf(lib, [""])[..0] == [];
  }

  lemma LineHasNoBreak(body: string, i: nat)
    requires i < |LinesOf(body)|
    ensures '\n' !in LinesOf(body)[i]
  {
    var part := Split(PlainBody(body), '\n')[i];
    assert '\n' !in part;
    TrimCRPrefix(part);
  }

  /** The link of a node from a line without line breaks is a clean line that parses to the node. */
  lemma UriOfLine(lib: Lib, line: string)
    requires NodeOf(lib, line).Some? && '\n' !in line
    ensures var n := NodeOf(lib, line).value;
            NodeOf(lib, n.uri) == Some(n) && CleanLine(n.uri) && Trimmed(n.uri) && Index(n.uri, DELIMITER) >= 0
  {
    AcceptedLine(lib, line);
    ReparseUri(lib, line);
    TrimPart(line);
  }

  lemma KeptUris(lib: Lib, body: string, k: nat)
    requires k < |Collected(NodesOf(lib, LinesOf(body)))|
    ensures var n := Collected(NodesOf(lib, LinesOf(body)))[k];
            NodeOf(lib, n.uri) == Some(n) && CleanLine(n.uri) && Trimmed(n.uri) && Index(n.uri, DELIMITER) >= 0
  {
    var found := NodesOf(lib, LinesOf(body));
    var at := CollectedKeepsFirst(found);
    assert FirstOfHash(found, at[k]);
    LineHasNoBreak(body, at[k]);
    UriOfLine(lib, LinesOf(body)[at[k]]);
  }

  /** Parsing the links of an own result, one per line, returns the same nodes. */
  lemma ReparseOwnOutput(lib: Lib, body: string)
    ensures var nodes := Collected(NodesOf(lib, LinesOf(body)));
            Collected(NodesOf(lib, LinesOf(Join(Uris(nodes), '\n')))) == nodes
  {
    var nodes := Collected(NodesOf(lib, LinesOf(body)));
    var uris := Uris(nodes);
    if nodes == [] {
      EmptyBody(lib);
    } else {
      forall k | 0 <= k < |nodes|
        ensures NodeOf(lib, uris[k]) == Some(nodes[k])
        ensures CleanLine(uris[k]) && Trimmed(uris[k]) && Index(uris[k], DELIMITER) >= 0
      {
        KeptUris(lib, body, k);
      }
      LinksAreNotBase64(uris);
      LinesOfText(uris);
      CollectedDistinct(NodesOf(lib, LinesOf(body)));
      CollectedAll(NodesOf(lib, uris), nodes);
    }
  }

  /** An encoded body is recognised and decoded. */
  lemma EncodedBodyDecodes(text: string)
    requires IsBytes(text) && text != ""
    ensures PlainBody(Encode(Std, text)) == text
  {
    EncodedLooksEncoded(text);
    DecodeInvertsEncode(Std, text, PadLength(|text|));
  }

  lemma EncodedLooksEncoded(text: string)
    requires IsBytes(text) && text != ""
    ensures IsProbablyBase64(Encode(Std, text))
  {
    var e := Encode(Std, text);
    EncodeRawAlphabet(Std, text);
    assert forall c <- e :: LooksEncoded(c) && c != ':' && c != ' ' && !('\t' <= c <= '\r');
    assert e[0] in e && e[|e| - 1] in e;
    assert TrimSpace(e) == e;
    NoColonNoDelimiter(e);
  }

  lemma NoColonNoDelimiter(s: string)
    requires ':' !in s
    ensures Index(s, DELIMITER) < 0
  {
    DelimiterAt(s, Index(s, DELIMITER));
  }

  function PublishedNodes(nodes: seq<Node>, tags: seq<Tag>): (r: seq<Node>)
    requires |tags| == |nodes| && forall i :: 0 <= i < |tags| ==> TagBytes(tags[i])
    ensures |r| == |nodes| && forall i :: 0 <= i < |nodes| ==> r[i] == Published(nodes[i], tags[i])
  {
    seq(|nodes|, i requires 0 <= i < |nodes| => Published(nodes[i], tags[i]))
  }

  lemma EscapedBytes(s: string)
    requires IsBytes(s)
    ensures IsBytes(QueryEscape(s)) && '\n' !in QueryEscape(s)
  {
    EscapedText(s);
    var esc := QueryEscape(s);
    forall i | 0 <= i < |esc| ensures esc[i] as int < 256 {
      assert esc[i] in esc;
    }
  }

  lemma RenamedLineClean(uri: string, t: Tag)
    requires TagBytes(t) && Trimmed(uri) && KnownScheme(uri) && '\n' !in uri && IsBytes(uri)
    ensures CleanLine(RenameFragment(uri, t)) && IsBytes(RenameFragment(uri, t)) && RenameFragment(uri, t) != ""
  {
    RenamedTrimmed(uri, t);
    LabelBytes(t);
    EscapedBytes(Label(t));
  }

  /** A stored node, published, is one clean line that parses to the published node. */
  lemma PublishedLine(lib: Lib, n: Node, t: Tag)
    requires TagBytes(t) && Stored(lib, n) && KnownScheme(n.uri) && !Opaque(lib, n.uri)
    ensures var line := RenameFragment(n.uri, t);
            NodeOf(lib, line) == Some(Published(n, t)) && CleanLine(line) && IsBytes(line) && line != ""
  {
    AcceptedLine(lib, n.uri);
    RenamedLineClean(n.uri, t);
    RenameParses(lib, n, t);
  }

  lemma {:induction false} JoinBytes(lines: seq<string>)
    requires lines != [] && forall i :: 0 <= i < |lines| ==> IsBytes(lines[i]) && lines[i] != ""
    ensures IsBytes(Join(lines, '\n')) && Join(lines, '\n') != ""
  {
    if |lines| > 1 {
      JoinBytes(lines[1..]);
    }
  }

  /** The lines of an encoded text of clean lines. */
  lemma EncodedLines(lines: seq<string>)
    requires lines != []
    requires forall i :: 0 <= i < |lines| ==> CleanLine(lines[i]) && IsBytes(lines[i]) && lines[i] != ""
    ensures IsBytes(Join(lines, '\n')) && LinesOf(Encode(Std, Join(lines, '\n'))) == lines
  {
    hide Encode, Join, PlainBody;
    var body := Join(lines, '\n');
    JoinBytes(lines);
    EncodedBodyDecodes(body);
    assert Split(body, '\n') == lines by {
      forall l <- lines ensures '\n' !in l {
        assert CleanLine(l);
      }
      SplitOfJoin(lines, '\n');
    }
    forall i | 0 <= i < |lines| ensures TrimRightCR(lines[i]) == lines[i] {
      assert CleanLine(lines[i]);
    }
  }

  lemma PublishedKeepHashes(nodes: seq<Node>, tags: seq<Tag>)
    requires |tags| == |nodes| && forall i :: 0 <= i < |tags| ==> TagBytes(tags[i])
    requires DistinctHashes(nodes)
    ensures DistinctHashes(PublishedNodes(nodes, tags))
  {
  }

  /** The text that BodyOf encodes for a list of nodes. */
  function PublishedText(nodes: seq<Node>, tags: seq<Tag>): string
    requires |tags| == |nodes| && forall i :: 0 <= i < |tags| ==> TagBytes(tags[i])
  {
    Join(RenamedLines(Uris(nodes), tags), '\n')
  }

  /** Every published line parses to its published node. */
  lemma PublishedLines(lib: Lib, nodes: seq<Node>, tags: seq<Tag>)
    requires |tags| == |nodes| && forall i :: 0 <= i < |tags| ==> TagBytes(tags[i])
    requires forall i :: 0 <= i < |nodes| ==>
      Stored(lib, nodes[i]) && KnownScheme(nodes[i].uri) && !Opaque(lib, nodes[i].uri)
    ensures var lines := RenamedLines(Uris(nodes), tags);
            && (forall i :: 0 <= i < |nodes| ==> NodeOf(lib, lines[i]) == Some(PublishedNodes(nodes, tags)[i]))
            && (forall i :: 0 <= i < |nodes| ==> CleanLine(lines[i]) && IsBytes(lines[i]) && lines[i] != "")
  {
    var lines, published := RenamedLines(Uris(nodes), tags), PublishedNodes(nodes, tags);
    forall i | 0 <= i < |nodes|
      ensures NodeOf(lib, lines[i]) == Some(published[i])
      ensures CleanLine(lines[i]) && IsBytes(lines[i]) && lines[i] != ""
    {
      PublishedLine(lib, nodes[i], tags[i]);
    }
  }

  lemma CollectedPublished(lib: Lib, lines: seq<string>, nodes: seq<Node>)
    requires |lines| == |nodes| && DistinctHashes(nodes)
    requires forall i :: 0 <= i < |lines| ==> NodeOf(lib, lines[i]) == Some(nodes[i])
    ensures Collected(NodesOf(lib, lines)) == nodes
  {
    CollectedAll(NodesOf(lib, lines), nodes);
  }

  /** What is published has distinct hashes and can be told from opaque vmess. */
  predicate Publishable(lib: Lib, nodes: seq<Node>) {
    && DistinctHashes(nodes)
    && forall i :: 0 <= i < |nodes| ==>
         Stored(lib, nodes[i]) && KnownScheme(nodes[i].uri) && !Opaque(lib, nodes[i].uri)
  }

  lemma PublishedBody(lib: Lib, nodes: seq<Node>, tags: seq<Tag>)
    requires nodes != []
    requires |tags| == |nodes| && forall i :: 0 <= i < |tags| ==> TagBytes(tags[i])
    requires Publishable(lib, nodes)
    ensures IsBytes(PublishedText(nodes, tags))
    ensures LinesOf(Encode(Std, PublishedText(nodes, tags))) == RenamedLines(Uris(nodes), tags)
  {
    PublishedLines(lib, nodes, tags);
    EncodedLines(RenamedLines(Uris(nodes), tags));
  }

  lemma PublishedCollected(lib: Lib, nodes: seq<Node>, tags: seq<Tag>)
    requires |tags| == |nodes| && forall i :: 0 <= i < |tags| ==> TagBytes(tags[i])
    requires Publishable(lib, nodes)
    ensures Collected(NodesOf(lib, RenamedLines(Uris(nodes), tags))) == PublishedNodes(nodes, tags)
  {
    PublishedLines(lib, nodes, tags);
    PublishedKeepHashes(nodes, tags);
    CollectedPublished(lib, RenamedLines(Uris(nodes), tags), PublishedNodes(nodes, tags));
  }

  lemma NothingPublished(lib: Lib, nodes: seq<Node>, tags: seq<Tag>)
    requires nodes == [] && tags == []
    ensures IsBytes(PublishedText(nodes, tags))
    ensures Collected(NodesOf(lib, LinesOf(Encode(Std, PublishedText(nodes, tags))))) == PublishedNodes(nodes, tags)
  {
    assert PublishedText(nodes, tags) == "" && Encode(Std, "") == "";
    EmptyBody(lib);
  }

  /** Publishing stored nodes of distinct hashes and parsing the published body gives the same
      nodes in the same order, with new links and names: hash, protocol, transport, host, port and
      outbound are untouched. */
  lemma SubscriptionRoundTrip(lib: Lib, nodes: seq<Node>, tags: seq<Tag>)
    requires |tags| == |nodes| && forall i :: 0 <= i < |tags| ==> TagBytes(tags[i])
    requires Publishable(lib, nodes)
    ensures IsBytes(PublishedText(nodes, tags))
    ensures Collected(NodesOf(lib, LinesOf(Encode(Std, PublishedText(nodes, tags))))) == PublishedNodes(nodes, tags)
  {
    if nodes == [] {
      NothingPublished(lib, nodes, tags);
    } else {
      PublishedBody(lib, nodes, tags);
      PublishedCollected(lib, nodes, tags);
    }
  }

  lemma {:induction false} SplitBytes(s: string, c: char)
    requires IsBytes(s)
    ensures forall p <- Split(s, c) :: IsBytes(p)
    decreases |s|
  {
    var i := IndexByte(s, c);
    if i >= 0 {
      SplitBytes(s[i + 1..], c);
    }
  }

  lemma LineBytes(body: string, i: nat)
    requires IsBytes(body) && i < |LinesOf(body)|
    ensures IsBytes(LinesOf(body)[i])
  {
    DecodedBytes(body);
    var parts := Split(PlainBody(body), '\n');
    SplitBytes(PlainBody(body), '\n');
    assert IsBytes(parts[i]);
    TrimCRPrefix(parts[i]);
  }

  lemma KeptStored(lib: Lib, body: string, k: nat)
    requires IsBytes(body) && k < |Collected(NodesOf(lib, LinesOf(body)))|
    ensures var n := Collected(NodesOf(lib, LinesOf(body)))[k]; Stored(lib, n) && KnownScheme(n.uri)
  {
    var found := NodesOf(lib, LinesOf(body));
    var at := CollectedKeepsFirst(found);
    assert FirstOfHash(found, at[k]);
    LineHasNoBreak(body, at[k]);
    LineBytes(body, at[k]);
    StoredFromLine(lib, LinesOf(body)[at[k]]);
    AcceptedLine(lib, LinesOf(body)[at[k]]);
  }

  /** From one subscription to the next: whatever bytes ParseMany was fed, publishing its nodes
      and parsing the published body gives the same nodes again, renamed. */
  lemma FetchPublishFetch(lib: Lib, body: string, tags: seq<Tag>)
    requires IsBytes(body)
    requires var nodes := Collected(NodesOf(lib, LinesOf(body)));
             && |tags| == |nodes| && (forall i :: 0 <= i < |tags| ==> TagBytes(tags[i]))
             && forall i :: 0 <= i < |nodes| ==> KnownScheme(nodes[i].uri) ==> !Opaque(lib, nodes[i].uri)
    ensures var nodes := Collected(NodesOf(lib, LinesOf(body)));
            && IsBytes(PublishedText(nodes, tags))
            && Collected(NodesOf(lib, LinesOf(Encode(Std, PublishedText(nodes, tags))))) == PublishedNodes(nodes, tags)
  {
    var nodes := Collected(NodesOf(lib, LinesOf(body)));
    CollectedDistinct(NodesOf(lib, LinesOf(body)));
    forall k | 0 <= k < |nodes| ensures Stored(lib, nodes[k]) && KnownScheme(nodes[k].uri) {
      KeptStored(lib, body, k);
    }
    SubscriptionRoundTrip(lib, nodes, tags);
  }
}
