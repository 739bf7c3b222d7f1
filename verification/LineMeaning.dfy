/** From a line to its node: which lines are accepted, and what the node says. */
module LineMeaning {
  import opened Basics
  import opened Strings
  import opened Base64
  import opened Links
  import opened Url
  import opened CanonicalForm
  import opened ShareLink
  import opened Dedup
  import opened Meaning

  const SHARE_SCHEMES := {
    "vless", "vmess", "ss", "shadowsocks", "trojan", "hysteria2", "hy2", "socks", "socks5", "socks4", "anytls", "tuic",
    "hysteria"}

  // ---- readings ----

  /** The first value under a key, as it stands and with its escapes resolved if they can be. */
  lemma FirstValue(l: Link, k: string)
    ensures k in LookupOf(l) <==> exists part <- QueryParts(l.query) :: PairOf(part).0 == k
    ensures k in LookupOf(l) ==> FirstMatch(Pairs(QueryParts(l.query)), k, LookupOf(l)[k])
    ensures k in LookupOf(l) ==> Raw(LookupOf(l), k) == LookupOf(l)[k]
    ensures k !in LookupOf(l) ==> Raw(LookupOf(l), k) == "" == Decoded(LookupOf(l), k)
    ensures DecodesTo(Raw(LookupOf(l), k), Decoded(LookupOf(l), k))
  {
    var parts := QueryParts(l.query);
    FirstMatchesAreFirst(Pairs(parts), k);
    if part :| part in parts && PairOf(part).0 == k {
      KeyHasMatch(parts, part);
    }
    if k in LookupOf(l) {
      FirstMatchIsSome(parts, k);
    }
    hide FirstMatches;
  }

  /** `dec` is the text with its escapes resolved, or the text itself if they cannot be. */
  predicate DecodesTo(text: string, dec: string) {
    QueryUnescape(text) == Some(dec) || (QueryUnescape(text).None? && dec == text)
  }

  lemma UnescapedIs(text: string)
    ensures DecodesTo(text, UnescapeOrRaw(text))
  {
  }

  /** A password that was escaped comes out as it was. */
  lemma PasswordRoundTrip(password: string)
    requires IsBytes(password)
    ensures UnescapeOrRaw(QueryEscape(password)) == password
  {
    UnescapeInvertsEscape(password);
  }

  lemma {:induction false} QuantaChars(a: Alphabet, s: string)
    ensures DecodeQuanta(a, s).Some? ==> forall c <- s :: InAlphabet(a, c) || c == '='
  {
    if |s| >= 4 {
      QuantaChars(a, s[4..]);
      assert s == [s[0], s[1], s[2], s[3]] + s[4..];
    }
  }

  lemma {:induction false} ColonSkips(s: string)
    requires ':' in s
    ensures ':' in SkipBreaks(s)
  {
    if s[0] != ':' {
      ColonSkips(s[1..]);
    }
  }

  /** A text with a colon is never base64, so a secret with one is plain, and any other is encoded. */
  lemma ColonIsPlain(text: string)
    requires ':' in text
    ensures B64Decode(text).None?
  {
    var padded := if |text| % 4 != 0 then text + Pad(4 - |text| % 4) else text;
    ColonSkips(padded);
    QuantaChars(Std, SkipBreaks(padded));
    QuantaChars(Url, SkipBreaks(padded));
  }

  /** Method and password are recovered from their plain form and from base64 in either alphabet, with any
      part of the padding; nothing else may be read from either. */
  lemma SecretRoundTrip(a: Alphabet, method_: string, password: string, kept: nat, other: (string, string))
    requires method_ != "" && ':' !in method_ && IsBytes(method_ + ":" + password)
    requires kept <= PadLength(|method_ + ":" + password|)
    ensures SecretSays(EncodeRaw(a, method_ + ":" + password) + Pad(kept), other) <==> other == (method_, password)
    ensures SecretSays(method_ + ":" + password, other) <==> other == (method_, password)
  {
    var text := method_ + ":" + password;
    hide B64Decode, EncodeRaw;
    DecodeInvertsEncode(a, text, kept);
    ColonIsPlain(text);
    var ui := EncodeRaw(a, text) + Pad(kept);
    assert SecretEncoded(ui, (method_, password));
    assert Parted(text, method_, password);
    if SecretSays(ui, other) {
      SecretOnce(ui, other, (method_, password));
    }
    if SecretSays(text, other) {
      SecretOnce(text, other, (method_, password));
    }
  }

  /** A signed decimal of 64 bits. */
  predicate Spells(text: string, v: int) {
    && MIN_INT <= v <= MAX_INT
    && var digits := if HasPrefix(text, "-") || HasPrefix(text, "+") then text[1..] else text;
       IsDigits(digits) && (if HasPrefix(text, "-") then -v else v) == DecimalValue(digits)
  }

  /** The number that a text spells, white space around it aside, or else the default. */
  lemma NumberIs(text: string, default: int)
    ensures (exists v :: Spells(TrimSpace(text), v) && AtoiOr(text, default) == v)
            || ((forall v :: !Spells(TrimSpace(text), v)) && AtoiOr(text, default) == default)
  {
    hide DecimalValue, TrimSpace;
    match Atoi(TrimSpace(text))
    case Number(v) => assert Spells(TrimSpace(text), v);
    case _ =>
  }

  // ---- host and port ----

  /** The host without its brackets; behind a bare host a stray closing bracket is dropped. */
  predicate HostSays(text: string, host: string) {
    if Bracketed(text) then text == "[" + host + "]"
    else if HasSuffix(text, "]") then text == host + "]"
    else text == host
  }

  /** The port given, from 1 to 65535 with at most a plus sign before it, or the one of the scheme. */
  predicate PortSays(scheme: string, text: string, port: int) {
    if text == "" then
      port == SchemePort(scheme)
    else
      0 < port < 65536 && Spells(text, port)
  }

  predicate PortUsable(text: string) {
    text == "" || exists port :: 0 < port < 65536 && Spells(text, port)
  }

  lemma UnbracketSays(l: Link)
    requires Shape(l)
    ensures HostSays(l.host, Unbracket(l.host))
  {
    if Bracketed(l.host) {
      var n := |l.host| - 1;
      assert l.host[n..] == "]" && l.host[..n] == TrimSuffix(l.host, "]");
      assert l.host == "[" + l.host[1..n] + "]";
    }
  }

  lemma PortNumberSays(text: string)
    ensures PortNumber(text).Ok? <==> PortUsable(text)
    ensures text != "" && PortNumber(text).Ok? ==> 0 < PortNumber(text).value < 65536 && Spells(text, PortNumber(text).value)
    ensures text == "" ==> PortNumber(text) == Ok(0)
  {
    hide DecimalValue;
    if text != "" && PortNumber(text).Ok? {
      assert Spells(text, PortNumber(text).value);
    }
    if text != "" && PortUsable(text) {
      var port :| 0 < port < 65536 && Spells(text, port);
      assert Atoi(text) == Number(port);
    }
  }

  // ---- the node ----

  /** What protocol and outbound say, by the scheme. */
  ghost predicate FieldsSay(scheme: string, userinfo: string, q: Lookup, proto: string, b: Built) {
    if scheme == "vless" then proto == "vless" && VlessSays(userinfo, q, b)
    else if scheme in {"ss", "shadowsocks"} then proto == "ss" && ShadowsocksSays(userinfo, b)
    else if scheme == "trojan" then proto == "trojan" && TrojanSays(userinfo, q, b)
    else if scheme in {"hysteria2", "hy2"} then proto == "hysteria2" && Hysteria2Says(userinfo, q, b)
    else if scheme in {"socks", "socks5", "socks4"} then proto == "socks" && SocksSays(scheme, userinfo, b)
    else if scheme == "anytls" then proto == "anytls" && AnyTLSSays(userinfo, q, b)
    else if scheme == "tuic" then proto == "tuic" && TUICSays(userinfo, q, b)
    else proto == "hysteria" && HysteriaSays(userinfo, q, b)
  }

  /** What a node says about the link it was built from. */
  ghost predicate BuiltSays(l: Link, proto: string, b: Built) {
    && HostSays(l.host, b.host) && PortSays(l.scheme, l.port, b.port)
    && FieldsSay(l.scheme, l.userinfo, LookupOf(l), proto, b)
  }

  /** The credentials without which there is no node. */
  ghost predicate HasCredentials(scheme: string, userinfo: string, q: Lookup) {
    && (scheme in {"ss", "shadowsocks"} ==>
          exists secret :: SecretSays(userinfo, secret) && secret.0 != "" && secret.1 != "")
    && (scheme == "tuic" ==> OrElse(Decoded(q, "uuid"), UserOf(userinfo)) != "")
  }

  /** What a link must offer to be accepted. */
  ghost predicate Usable(l: Link) {
    PortUsable(l.port) && HasCredentials(l.scheme, l.userinfo, LookupOf(l))
  }

  ghost predicate NodeSays(l: Link, n: Node) {
    && n.outbound.Obj? && Field(n.outbound.fields, "tag", true, Str("probe"))
    && BuiltSays(l, n.protocol, Built(n.transport, n.host, n.port, n.outbound.fields - {"tag"}))
  }

  /** Which schemes there are, and the protocol of each. */
  lemma SchemeTable(scheme: string)
    ensures ProtocolOf(scheme).Some? <==> scheme in SHARE_SCHEMES
    ensures scheme in SHARE_SCHEMES ==> ProtocolOf(scheme) == Some(
              if scheme in {"ss", "shadowsocks"} then "ss"
              else if scheme in {"hysteria2", "hy2"} then "hysteria2"
              else if scheme in {"socks", "socks5", "socks4"} then "socks"
              else scheme)
  {
  }

  /** The port of a scheme, whether it has an entry of its own or is left to its builder. */
  function SchemePort(scheme: string): int {
    if scheme in {"ss", "shadowsocks"} then 8388 else if scheme in {"socks", "socks5", "socks4"} then 1080 else 443
  }

  lemma FallbackIs(scheme: string)
    requires scheme in SHARE_SCHEMES
    ensures FallbackPort(scheme, SchemePort(scheme)) == SchemePort(scheme)
  {
  }

  lemma AppliedPortSays(scheme: string, text: string)
    requires scheme in SHARE_SCHEMES && PortNumber(text).Ok?
    ensures PortSays(scheme, text, ApplyPort(scheme, PortNumber(text).value, SchemePort(scheme)))
  {
    PortNumberSays(text);
    FallbackIs(scheme);
    hide PortNumber, Spells, FallbackPort;
  }

  /** The builder that the scheme selects says what it should. */
  lemma ParsedSays(scheme: string, userinfo: string, q: Lookup, host: string, port: int)
    requires scheme in SHARE_SCHEMES && scheme != "vmess" && ProtocolOf(scheme).Some?
    ensures var r := BuildParsed(ProtocolOf(scheme).value, scheme, userinfo, q, host, port);
            && (r.Ok? <==> HasCredentials(scheme, userinfo, q))
            && (r.Ok? ==> FieldsSay(scheme, userinfo, q, ProtocolOf(scheme).value, r.value))
  {
    SchemeTable(scheme);
    hide ProtocolOf, ApplyPort, SplitSecret, OrElse, Decoded;
    hide VlessSays, TrojanSays, Hysteria2Says, SocksSays, AnyTLSSays, TUICSays, HysteriaSays, ShadowsocksSays, SecretSays;
    hide BuildVless, BuildTrojan, BuildHysteria2, BuildSocks, BuildAnyTLS, BuildTUIC, BuildHysteria, BuildShadowsocks;
    var p := ApplyPort(scheme, port, 443);
    VlessMeans(userinfo, q, host, p);
    ShadowsocksMeans(userinfo, host, ApplyPort(scheme, port, 8388));
    TrojanMeans(userinfo, q, host, p);
    Hysteria2Means(userinfo, q, host, p);
    SocksMeans(scheme, userinfo, host, ApplyPort(scheme, port, 1080));
    AnyTLSMeans(userinfo, q, host, p);
    TUICMeans(userinfo, q, host, p);
    HysteriaMeans(userinfo, q, host, p);
  }

  lemma ParsedHostPort(scheme: string, userinfo: string, q: Lookup, host: string, port: int)
    requires scheme in SHARE_SCHEMES && scheme != "vmess" && ProtocolOf(scheme).Some?
    requires BuildParsed(ProtocolOf(scheme).value, scheme, userinfo, q, host, port).Ok?
    ensures var b := BuildParsed(ProtocolOf(scheme).value, scheme, userinfo, q, host, port).value;
            b.host == host && b.port == ApplyPort(scheme, port, SchemePort(scheme))
  {
    SchemeTable(scheme);
    hide ProtocolOf, FallbackPort;
    hide Decoded, Raw, TlsBase, TlsFull, FirstNonEmpty, Cut, UnescapeOrRaw, AtoiOr, SplitSecret, MapTransport, Header, With;
  }

  /** An accepted link is built into what it says, and it is accepted exactly when it is usable. */
  lemma LinkMeans(l: Link)
    requires Shape(l) && l.scheme in SHARE_SCHEMES && l.scheme != "vmess" && ProtocolOf(l.scheme).Some?
    ensures var r := BuildAt(l, Unbracket(l.host));
            && (r.Ok? <==> Usable(l))
            && (r.Ok? ==> BuiltSays(l, ProtocolOf(l.scheme).value, r.value))
  {
    UnbracketSays(l);
    PortNumberSays(l.port);
    var q, host := LookupOf(l), Unbracket(l.host);
    hide FieldsSay, HasCredentials, BuildParsed, PortUsable, PortSays, HostSays, PortNumber, LookupOf, Unbracket, Shape;
    if PortNumber(l.port).Ok? {
      var port := PortNumber(l.port).value;
      AppliedPortSays(l.scheme, l.port);
      ParsedSays(l.scheme, l.userinfo, q, host, port);
      var proto := ProtocolOf(l.scheme).value;
      if BuildParsed(proto, l.scheme, l.userinfo, q, host, port).Ok? {
        ParsedHostPort(l.scheme, l.userinfo, q, host, port);
      }
    }
  }

  lemma NodeOfBuilt(uri: string, uriHash: string, proto: string, b: Built, name: string)
    requires "tag" !in b.out
    ensures var n := NodeFrom(uri, uriHash, proto, b, name);
            && n.outbound.Obj? && Field(n.outbound.fields, "tag", true, Str("probe"))
            && Built(n.transport, n.host, n.port, n.outbound.fields - {"tag"}) == b
  {
    assert b.out["tag" := Str("probe")] - {"tag"} == b.out;
  }

  lemma FieldsHaveNoTag(scheme: string, userinfo: string, q: Lookup, proto: string, b: Built)
    requires FieldsSay(scheme, userinfo, q, proto, b)
    ensures "tag" !in b.out
  {
    hide Field, PlainTlsSays, FullTlsSays, StreamSays, HeaderSays, SecretSays, Decoded, OrElse, UnescapeOrRaw, AtoiOr, Cut;
  }

  /** An accepted link of any scheme but vmess and any form but legacy shadowsocks, from line to node: it
      gives a node exactly when it is usable, and the node says what the link says. */
  lemma NodeMeans(lib: Lib, line: string)
    requires Accepted(line)
    requires var l := LinkOf(line).value;
             l.scheme in SHARE_SCHEMES && (l.scheme in {"ss", "shadowsocks"} ==> l.userinfo != "")
    ensures ParseLine(lib, line).Ok? <==> Usable(LinkOf(line).value)
    ensures ParseLine(lib, line).Ok? ==>
      && ParseLine(lib, line).value.Some? && NodeSays(LinkOf(line).value, ParseLine(lib, line).value.value)
      && ParseLine(lib, line).value.value.uri == Trim(line)
      && Canonical(lib, line).Ok? && ParseLine(lib, line).value.value.uriHash == lib.hash(Canonical(lib, line).value)
  {
    var l := LinkOf(line).value;
    LinkOfShape(line);
    SchemeTable(l.scheme);
    assert PlainForm(l);
    LinkMeans(l);
    hide ParseLine, Canonical, LinkOf, BuildAt, Usable, FieldsSay, Unbracket, HostSays, PortSays, LookupOf, Trim;
    ParseLineOfLink(lib, line);
    var r := BuildAt(l, Unbracket(l.host));
    if r.Ok? {
      var n := ParseLine(lib, line).value.value;
      var proto := ProtocolOf(l.scheme).value;
      FieldsHaveNoTag(l.scheme, l.userinfo, LookupOf(l), proto, r.value);
      NodeOfBuilt(Trim(line), lib.hash(Canonical(lib, line).value), proto, r.value, n.name);
    }
  }

  /** Every other line: blank ones give nothing, and what is no share link is told apart from one that
      fails to parse. */
  lemma OtherLines(lib: Lib, line: string)
    ensures Trim(line) == "" <==> ParseLine(lib, line) == Ok(None)
    ensures var s := Trim(line);
            s != "" && (Index(s, DELIMITER) < 0 || SchemeOf(s) !in SHARE_SCHEMES) ==>
            ParseLine(lib, line) == Err(NotShareLink)
  {
    hide Build, CanonicalOfTrimmed, NameOf, CutFragment, Index, Trim;
    var s := Trim(line);
    if s != "" && Index(s, DELIMITER) >= 0 {
      SchemeTable(SchemeOf(s));
      hide ProtocolOf;
    }
  }
}
