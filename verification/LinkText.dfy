/** Every split link is the split of some line, whatever its parts contain. */
module LinkText {
  import opened Basics
  import opened Strings
  import opened Links
  import opened CanonicalForm
  import opened Dedup

  /** What a split link satisfies beyond its shape: trimming left no white space at the start. */
  predicate Writable(l: Link) {
    Shape(l) && SchemeText(l.scheme) && (l.scheme == "" || !IsSpace(l.scheme[0]))
  }

  lemma AcceptedWritable(raw: string)
    requires LinkOf(raw).Ok?
    ensures Writable(LinkOf(raw).value)
  {
    LinkOfShape(raw);
    SplitOfLine(raw);
    var s := Trim(raw);
    TrimmedStart(raw);
    assert LinkOf(raw).value.scheme == ToLower(s[..Index(s, DELIMITER)]);
  }

  lemma {:induction false} LeftTrimmedStart(s: string)
    ensures TrimLeftSpace(s) != "" ==> !IsSpace(TrimLeftSpace(s)[0])
    decreases |s|
  {
    if s != "" && IsSpace(s[0]) {
      LeftTrimmedStart(s[1..]);
    }
  }

  lemma TrimmedStart(raw: string)
    ensures Trim(raw) != "" ==> !IsSpace(Trim(raw)[0])
  {
    var s := TrimPrefix(TrimPrefix(raw, BOM), BOM_NBSP);
    LeftTrimmedStart(s);
    TrimRightEnds(TrimLeftSpace(s));
  }

  // ---- writing a link ----

  /** Host and port such that no port is mistaken: a bare host always gets its colon. */
  function FullHostPort(l: Link): string {
    if Bracketed(l.host) then HostPortText(l.host, l.port) else l.host + ":" + l.port
  }

  function FullText(l: Link): string {
    l.scheme + DELIMITER + RestText(l.userinfo, FullHostPort(l), l.path, l.query)
  }

  /** A line whose ends survive Trim. */
  function LineOf(l: Link): string {
    BOM + (BOM_NBSP + (FullText(l) + "#"))
  }

  lemma FullHostPortSplits(l: Link)
    requires Shape(l)
    ensures SplitHostPort(FullHostPort(l)) == Ok((l.host, l.port))
    ensures AuthorityText(FullHostPort(l)) && '@' !in FullHostPort(l)
  {
    if Bracketed(l.host) {
      BracketedReads(l.host, l.port);
    } else if l.port == "" {
      LastColon(l.host, "");
      assert !Bracketed(l.host + ":");
    } else {
      SplitBare(l.host, l.port);
    }
  }

  lemma CutAt(rest: string)
    requires '#' !in rest
    ensures CutFragment(rest + "#") == rest && CutFragment(rest) == rest
  {
    IndexByteIs(rest + "#", '#', |rest|);
  }

  lemma FullTextParts(l: Link)
    requires Writable(l)
    ensures var rest := RestText(l.userinfo, FullHostPort(l), l.path, l.query);
            '#' !in rest && SplitLink(l.scheme, rest) == Ok(l)
  {
    FullHostPortSplits(l);
    RestTextSplits(l.userinfo, FullHostPort(l), l.path, l.query);
    assert '#' !in RestText(l.userinfo, FullHostPort(l), l.path, l.query);
    hide SplitAuthority, SplitUserinfo, SplitPathQuery, SplitHostPort, RestText, FullHostPort;
  }

  /** A text that is left as the link's after trimming is read as the link. */
  lemma TextReads(l: Link, raw: string)
    requires Writable(l) && (Trim(raw) == FullText(l) || Trim(raw) == FullText(l) + "#")
    ensures LinkOf(raw) == Ok(l)
  {
    var rest := RestText(l.userinfo, FullHostPort(l), l.path, l.query);
    FullTextParts(l);
    CutAt(rest);
    TextSplits(l.scheme, rest);
    TextSplits(l.scheme, rest + "#");
    Regrouped(l.scheme, rest);
    hide SplitLink, RestText, CutFragment, Trim, Index, FullHostPort;
  }

  lemma Regrouped(scheme: string, rest: string)
    ensures (scheme + DELIMITER + rest) + "#" == scheme + DELIMITER + (rest + "#")
  {
  }

  lemma LineTrims(l: Link)
    requires Writable(l)
    ensures Trim(LineOf(l)) == FullText(l) + "#"
  {
    var t := FullText(l) + "#";
    PrefixTrims(BOM, BOM_NBSP + t);
    PrefixTrims(BOM_NBSP, t);
    assert t[0] == if l.scheme == "" then ':' else l.scheme[0];
    assert t[|t| - 1] == '#';
    hide FullText;
  }

  lemma PrefixTrims(p: string, s: string)
    ensures TrimPrefix(p + s, p) == s
  {
    assert (p + s)[|p|..] == s;
  }

  /** Every well-shaped link is read from some line. */
  lemma LineReads(l: Link)
    requires Writable(l)
    ensures LinkOf(LineOf(l)) == Ok(l)
  {
    LineTrims(l);
    TextReads(l, LineOf(l));
  }

  /** The same from the plain text, where Trim has nothing to take. */
  lemma PlainTextReads(l: Link)
    requires Writable(l) && Trimmed(FullText(l))
    ensures LinkOf(FullText(l)) == Ok(l)
  {
    TrimmedStays(FullText(l));
    TextReads(l, FullText(l));
  }

  // ---- what Trim takes ----

  /** Blank, tab, line feed, vertical tab, form feed, carriage return. */
  predicate Blank(s: string) {
    forall c <- s :: c in " \t\n\U{0B}\U{0C}\r"
  }

  lemma {:induction false} LeftBlank(pre: string, s: string)
    requires Blank(pre) && s != "" && !IsSpace(s[0])
    ensures TrimLeftSpace(pre + s) == s
  {
    if pre == "" {
      assert pre + s == s;
    } else {
      assert pre[0] in pre && pre == [pre[0]] + pre[1..];
      assert (pre + s)[1..] == pre[1..] + s;
      LeftBlank(pre[1..], s);
    }
  }

  lemma {:induction false} RightBlank(s: string, post: string)
    requires Blank(post) && s != "" && !IsSpace(s[|s| - 1])
    ensures TrimRightSpace(s + post) == s
    decreases |post|
  {
    if post == "" {
      assert s + post == s;
    } else {
      var n := |post| - 1;
      assert post[n] in post;
      assert (s + post)[..|s + post| - 1] == s + post[..n];
      assert forall c <- post[..n] :: c in post;
      RightBlank(s, post[..n]);
    }
  }

  /** White space around a link and a byte order mark before it are not part of it. */
  lemma TrimTakes(pre: string, s: string, post: string)
    requires Blank(pre) && Blank(post) && Trimmed(s)
    ensures Trim(pre + (s + post)) == s && Trim(BOM + (pre + (s + post))) == s
  {
    var t := pre + (s + post);
    assert (s + post)[0] == s[0];
    LeftBlank(pre, s + post);
    RightBlank(s, post);
    assert t[0] != BOM_START by {
      if pre != "" {
        assert t[0] == pre[0] && pre[0] in pre;
      } else {
        assert t[0] == s[0];
      }
    }
    assert BOM[0] == BOM_START && BOM_NBSP[0] == BOM_START;
    assert !HasPrefix(t, BOM) && !HasPrefix(t, BOM_NBSP);
    PrefixTrims(BOM, t);
  }
}
