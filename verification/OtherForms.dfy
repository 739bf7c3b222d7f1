/** What the outbounds of vmess and legacy shadowsocks links say. */
module OtherForms {
  import opened Basics
  import opened Strings
  import opened Base64
  import opened Links
  import opened CanonicalForm
  import opened ShareLink
  import opened Dedup
  import opened Meaning
  import opened LineMeaning
  import opened MeaningIsComplete

  // ---- vmess ----

  /** The integer a text spells, as close as 64 bits allow, or zero. */
  predicate SpellsNear(text: string, v: int) {
    var digits := if HasPrefix(text, "-") || HasPrefix(text, "+") then text[1..] else text;
    if !IsDigits(digits) then v == 0
    else
      var exact: int := if HasPrefix(text, "-") then -(DecimalValue(digits) as int) else DecimalValue(digits);
      v == if exact > MAX_INT then MAX_INT else if exact < MIN_INT then MIN_INT else exact
  }

  predicate VmessTlsSays(tls: Json, v: Vmess) {
    && tls.Obj? && tls.fields.Keys <= {"enabled", "server_name", "alpn"}
    && Field(tls.fields, "enabled", true, Bool(true))
    && Field(tls.fields, "server_name", true, Str(OrElse(v.sni, OrElse(v.host, v.add))))
    && AlpnSays(tls.fields, v.alpn)
  }

  /** What an outbound says about a vmess record; the path doubles as the service name. */
  predicate VmessSays(v: Vmess, b: Built) {
    && v.add != "" && v.id != "" && b.port != 0
    && HeaderSays(b, "vmess") && b.host == v.add && SpellsNear(v.port, b.port)
    && b.out.Keys <= {"type", "server", "server_port", "uuid", "security", "alter_id", "tls", "transport"}
    && Field(b.out, "uuid", true, Str(v.id)) && Field(b.out, "security", true, Str(OrElse(v.scy, "auto")))
    && Field(b.out, "alter_id", true, Num(AtoiOr(v.aid, 0)))
    && ("tls" in b.out <==> HasPrefix(ToLower(v.tls), "tls"))
    && ("tls" in b.out ==> VmessTlsSays(b.out["tls"], v))
    && StreamSays(b, v.net, v.path, v.host, v.path)
  }

  predicate VmessUsable(v: Vmess) {
    v.add != "" && v.id != "" && !SpellsNear(v.port, 0)
  }

  lemma NearIs(text: string)
    ensures forall v :: SpellsNear(text, v) <==> v == AtoiIgnoringError(text)
  {
    hide DecimalValue;
  }

  function VmessTls(v: Vmess): Json {
    var t1: Fields := map["enabled" := Bool(true), "server_name" := Str(FirstNonEmpty([v.sni, v.host, v.add]))];
    Obj(With(t1, v.alpn != "", "alpn", StrArr(Split(v.alpn, ','))))
  }

  lemma VmessTlsMeans(v: Vmess)
    ensures VmessTlsSays(VmessTls(v), v)
  {
    NamesInOrder(v.sni, v.host, v.add);
    StrArrLists(v.alpn);
    assert "enabled" != "server_name" && "enabled" != "alpn" && "server_name" != "alpn";
    hide FirstNonEmpty, OrElse, StrArr, ListOf, Split;
  }

  function VmessHeader(v: Vmess, port: int): Fields {
    Header("vmess", v.add, port)["uuid" := Str(v.id)]
      ["security" := Str(if v.scy == "" then "auto" else v.scy)]["alter_id" := Num(AtoiOr(v.aid, 0))]
  }

  lemma VmessStart(v: Vmess, port: int)
    ensures var o1 := VmessHeader(v, port);
            && o1.Keys == {"type", "server", "server_port", "uuid", "security", "alter_id"}
            && HeaderSays(Built("", v.add, port, o1), "vmess") && Field(o1, "uuid", true, Str(v.id))
            && Field(o1, "security", true, Str(OrElse(v.scy, "auto"))) && Field(o1, "alter_id", true, Num(AtoiOr(v.aid, 0)))
            && "tls" !in o1 && "transport" !in o1
  {
    hide AtoiOr;
    assert "type" != "server" && "type" != "server_port" && "server" != "server_port";
    assert "security" !in {"type", "server", "server_port", "uuid"};
    assert "alter_id" !in {"type", "server", "server_port", "uuid", "security"};
    assert "uuid" !in {"type", "server", "server_port"};
  }

  lemma VmessEnd(v: Vmess, b: Built, o1: Fields, secure: bool, tls: Json)
    requires o1.Keys == {"type", "server", "server_port", "uuid", "security", "alter_id"}
    requires "tls" !in o1 && "transport" !in o1
    requires b.transport == MapTransport(v.net)
    requires b.out == WithTransport(With(o1, secure, "tls", tls), TransportBlock(b.transport, v.path, v.host, v.path))
    ensures StreamSays(b, v.net, v.path, v.host, v.path) && Field(b.out, "tls", secure, tls)
    ensures b.out.Keys <= o1.Keys + {"tls", "transport"}
    ensures forall k :: k in o1 ==> k in b.out && b.out[k] == o1[k]
  {
    hide With, WithTransport, MapTransport, TransportBlock, TransportSays, BlockSays;
    MapTransportSays(v.net);
    SaidKinds(b.transport, v.net);
    TransportBlockSays(b.transport, v.path, v.host, v.path);
    WithSays(o1, secure, "tls", tls);
    assert "tls" != "transport";
    TransportAdded(With(o1, secure, "tls", tls), TransportBlock(b.transport, v.path, v.host, v.path));
  }

  lemma VmessChain(v: Vmess)
    ensures BuildVmessFields(v).Ok? <==> VmessUsable(v)
    ensures BuildVmessFields(v).Ok? ==>
      var b := BuildVmessFields(v).value;
      && b.host == v.add && b.transport == MapTransport(v.net) && b.port != 0 && SpellsNear(v.port, b.port)
      && b.out == WithTransport(With(VmessHeader(v, b.port), HasPrefix(ToLower(v.tls), "tls"), "tls", VmessTls(v)),
                                TransportBlock(b.transport, v.path, v.host, v.path))
  {
    NearIs(v.port);
    hide SpellsNear, Header, AtoiOr, AtoiIgnoringError, FirstNonEmpty, StrArr, MapTransport, TransportBlock,
         ToLower, HasPrefix;
  }

  /** A record is usable exactly when it has an address, an id and a port other than zero, and is then built
      into what it says. */
  lemma VmessMeans(v: Vmess)
    ensures BuildVmessFields(v).Ok? <==> VmessUsable(v)
    ensures BuildVmessFields(v).Ok? ==> VmessSays(v, BuildVmessFields(v).value)
  {
    hide VmessSays, SpellsNear, AtoiOr, MapTransport, TransportBlock, ToLower, HasPrefix, BuildVmessFields, With,
         WithTransport, VmessHeader, VmessTls;
    VmessChain(v);
    if BuildVmessFields(v).Ok? {
      var b := BuildVmessFields(v).value;
      VmessAssembled(v, b);
    }
  }

  lemma VmessAssembled(v: Vmess, b: Built)
    requires v.add != "" && v.id != "" && b.port != 0 && SpellsNear(v.port, b.port)
    requires b.host == v.add && b.transport == MapTransport(v.net)
    requires b.out == WithTransport(With(VmessHeader(v, b.port), HasPrefix(ToLower(v.tls), "tls"), "tls", VmessTls(v)),
                                    TransportBlock(b.transport, v.path, v.host, v.path))
    ensures VmessSays(v, b)
  {
    hide SpellsNear, AtoiOr, OrElse, MapTransport, TransportBlock, ToLower, HasPrefix, VmessTlsSays, StreamSays, With,
         WithTransport, Header, HeaderSays;
    var o1 := VmessHeader(v, b.port);
    VmessStart(v, b.port);
    VmessTlsMeans(v);
    hide VmessTls;
    VmessEnd(v, b, o1, HasPrefix(ToLower(v.tls), "tls"), VmessTls(v));
    hide VmessHeader;
    HeaderKept(v.add, b.port, o1, b, "vmess");
  }

  lemma HeaderKept(host: string, port: int, o1: Fields, b: Built, kind: string)
    requires HeaderSays(Built("", host, port, o1), kind) && b.host == host && b.port == port
    requires forall k :: k in o1 ==> k in b.out && b.out[k] == o1[k]
    ensures HeaderSays(b, kind)
  {
  }

  /** What the record says is all there is. */
  lemma VmessOnce(v: Vmess, b: Built, c: Built)
    requires VmessSays(v, b) && VmessSays(v, c)
    ensures b == c
  {
    hide HeaderSays, StreamSays, SpellsNear, AtoiOr, OrElse, ToLower, HasPrefix, VmessTlsSays;
    NearOnce(v.port, b.port, c.port);
    HeaderOnce(b, c, "vmess");
    StreamOnce(b, c, v.net, v.path, v.host, v.path);
    if "tls" in b.out {
      VmessTlsOnce(b.out["tls"], c.out["tls"], v);
    }
    assert SameAt(b.out, c.out, "tls") && SameAt(b.out, c.out, "uuid") && SameAt(b.out, c.out, "security");
    assert SameAt(b.out, c.out, "alter_id");
    SameFields(b.out, c.out, {"type", "server", "server_port", "uuid", "security", "alter_id", "tls", "transport"});
  }

  lemma NearOnce(text: string, a: int, b: int)
    requires SpellsNear(text, a) && SpellsNear(text, b)
    ensures a == b
  {
    hide DecimalValue;
  }

  lemma VmessTlsOnce(a: Json, b: Json, v: Vmess)
    requires VmessTlsSays(a, v) && VmessTlsSays(b, v)
    ensures a == b
  {
    hide ListOf, OrElse;
    if v.alpn != "" {
      ListOnce(a.fields["alpn"], b.fields["alpn"], v.alpn);
    }
    assert SameAt(a.fields, b.fields, "enabled") && SameAt(a.fields, b.fields, "server_name");
    assert SameAt(a.fields, b.fields, "alpn");
    SameFields(a.fields, b.fields, {"enabled", "server_name", "alpn"});
  }

  /** The record a payload stands for: base64 of JSON, or failing that JSON as it is. */
  predicate RecordOf(lib: Lib, payload: string, v: Vmess) {
    if DecodeVmess(lib, payload).Some? then DecodeVmess(lib, payload) == Some(v) else lib.vmessFromBytes(payload) == Some(v)
  }

  /** The payload of a line: what stands between the delimiter and the fragment. */
  function PayloadOf(line: string): string
    requires Index(Trim(line), DELIMITER) >= 0
  {
    CutFragment(RestOf(Trim(line)))
  }

  predicate HasScheme(line: string, schemes: set<string>) {
    Index(Trim(line), DELIMITER) >= 0 && SchemeOf(Trim(line)) in schemes
  }

  lemma NodeOfSays(proto: string, b: Built, n: Node)
    requires "tag" !in b.out && n == NodeFrom(n.uri, n.uriHash, proto, b, n.name)
    ensures n.protocol == proto && n.outbound.Obj? && Field(n.outbound.fields, "tag", true, Str("probe"))
    ensures Built(n.transport, n.host, n.port, n.outbound.fields - {"tag"}) == b
  {
    NodeOfBuilt(n.uri, n.uriHash, proto, b, n.name);
  }

  lemma VmessBuildMeans(lib: Lib, payload: string)
    ensures BuildVmess(lib, payload).Ok? <==> exists v :: RecordOf(lib, payload, v) && VmessUsable(v)
    ensures BuildVmess(lib, payload).Ok? ==>
      && "tag" !in BuildVmess(lib, payload).value.out
      && exists v :: RecordOf(lib, payload, v) && VmessSays(v, BuildVmess(lib, payload).value)
  {
    hide DecodeVmess, BuildVmessFields, VmessUsable, VmessSays;
    var decoded := match DecodeVmess(lib, payload) case Some(v) => Some(v) case None => lib.vmessFromBytes(payload);
    if decoded.Some? {
      var v := decoded.value;
      assert RecordOf(lib, payload, v);
      VmessMeans(v);
      if BuildVmessFields(v).Ok? {
        NoVmessTag(v, BuildVmessFields(v).value);
      }
    }
  }

  lemma VmessLineBuilt(lib: Lib, line: string)
    requires HasScheme(line, {"vmess"})
    ensures Canonical(lib, line).Ok?
    ensures LineGives(ParseLine(lib, line), Trim(line), lib.hash(Canonical(lib, line).value), "vmess",
                      BuildVmess(lib, PayloadOf(line)))
  {
    SchemeTable("vmess");
    hide BuildVmess, CanonicalVmess, ParseCommon, ProtocolOf, ParseLine;
    ParseLineSteps(lib, line);
  }

  /** A vmess line gives a node exactly when its payload stands for a usable record, and the node says what
      the record says. */
  lemma VmessLineMeans(lib: Lib, line: string)
    requires HasScheme(line, {"vmess"})
    ensures ParseLine(lib, line).Ok? <==> exists v :: RecordOf(lib, PayloadOf(line), v) && VmessUsable(v)
    ensures ParseLine(lib, line).Ok? ==>
      && ParseLine(lib, line).value.Some?
      && var n := ParseLine(lib, line).value.value;
      && n.protocol == "vmess" && n.outbound.Obj? && Field(n.outbound.fields, "tag", true, Str("probe"))
      && exists v :: RecordOf(lib, PayloadOf(line), v)
                  && VmessSays(v, Built(n.transport, n.host, n.port, n.outbound.fields - {"tag"}))
  {
    hide ParseLine, Canonical, BuildVmess, VmessUsable, VmessSays, RecordOf, PayloadOf, Field;
    VmessLineBuilt(lib, line);
    VmessBuildMeans(lib, PayloadOf(line));
    if ParseLine(lib, line).Ok? {
      NodeOfSays("vmess", BuildVmess(lib, PayloadOf(line)).value, ParseLine(lib, line).value.value);
    }
  }

  lemma NoVmessTag(v: Vmess, b: Built)
    requires VmessSays(v, b)
    ensures "tag" !in b.out
  {
    hide HeaderSays, StreamSays, Field, VmessTlsSays, SpellsNear;
  }

  // ---- legacy shadowsocks ----

  /** The text behind `ss://` in base64: the secret up to its last at sign, then host and port. */
  datatype Legacy = Legacy(secret: string, hostPort: string, host: string, port: string)

  predicate LegacyIs(text: string, p: Legacy) {
    text == p.secret + "@" + p.hostPort && '@' !in p.hostPort && SplitHostPort(p.hostPort) == Ok((p.host, p.port))
  }

  /** A port that is missing, zero or no number at all is the scheme's. */
  ghost predicate LegacySays(scheme: string, p: Legacy, b: Built) {
    && HostSays(p.host, b.host) && ShadowsocksSays(p.secret, b)
    && b.port == (if AtoiOr(p.port, 0) == 0 then SchemePort(scheme) else AtoiOr(p.port, 0))
  }

  ghost predicate LegacyUsable(body: string, p: Legacy) {
    && B64Decode(body).Some? && LegacyIs(B64Decode(body).value, p)
    && exists secret :: SecretSays(p.secret, secret) && secret.0 != "" && secret.1 != ""
  }

  lemma LegacyHostSays(right: string, hostText: string, portText: string)
    requires SplitHostPort(right) == Ok((hostText, portText))
    ensures HostSays(hostText, Unbracket(hostText))
  {
    if Bracketed(hostText) {
      var n := |hostText| - 1;
      assert hostText[n] == ']';
      assert hostText == "[" + hostText[1..n] + "]";
    }
  }

  function PartsAt(text: string, at: nat): Legacy
    requires at < |text| && SplitHostPort(text[at + 1..]).Ok?
  {
    var (host, port) := SplitHostPort(text[at + 1..]).value;
    Legacy(text[..at], text[at + 1..], host, port)
  }

  lemma LastAt(text: string)
    ensures var at := LastIndexByte(text, '@'); at >= 0 ==> at < |text| && '@' !in text[at + 1..] && text[at] == '@'
  {
  }

  lemma LegacyParts(text: string)
    ensures var at := LastIndexByte(text, '@');
            && (at >= 0 && SplitHostPort(text[at + 1..]).Ok? ==> LegacyIs(text, PartsAt(text, at)))
            && forall p :: LegacyIs(text, p) ==> at >= 0 && SplitHostPort(text[at + 1..]).Ok? && p == PartsAt(text, at)
  {
    hide SplitHostPort, LastIndexByte;
    LastAt(text);
    var at := LastIndexByte(text, '@');
    if at >= 0 && SplitHostPort(text[at + 1..]).Ok? {
      assert text == text[..at] + "@" + text[at + 1..];
      var p := PartsAt(text, at);
      assert p.secret == text[..at] && p.hostPort == text[at + 1..];
      assert SplitHostPort(p.hostPort).value == (p.host, p.port);
      assert '@' !in p.hostPort;
      assert text == p.secret + "@" + p.hostPort;
      assert LegacyIs(text, p);
    }
    forall p | LegacyIs(text, p)
      ensures at >= 0 && SplitHostPort(text[at + 1..]).Ok? && p == PartsAt(text, at)
    {
      assert text[..|p.secret|] == p.secret && text[|p.secret|] == '@' && text[|p.secret| + 1..] == p.hostPort;
      LastIndexByteIs(text, '@', |p.secret|);
    }
  }

  lemma AuthWithoutUser(s: string)
    requires '@' !in s
    ensures SplitAuth(s) == match SplitHostPort(s) case Err(e) => Err(e) case Ok((h, p)) => Ok(("", h, p))
  {
    hide SplitHostPort;
  }

  /** The builder in terms of those parts. */
  lemma LegacyBuilt(scheme: string, body: string)
    requires B64Decode(body).Some?
    ensures var text := B64Decode(body).value;
            var at := LastIndexByte(text, '@');
            if at >= 0 && SplitHostPort(text[at + 1..]).Ok? then
              var p := PartsAt(text, at);
              BuildLegacyShadowsocks(scheme, body) ==
              BuildShadowsocks(SplitSecret(p.secret), Unbracket(p.host), ApplyPort(scheme, AtoiOr(p.port, 0), 8388))
            else
              BuildLegacyShadowsocks(scheme, body).Err?
  {
    hide B64Decode, SplitHostPort, SplitAuth, SplitSecret, AtoiOr, Unbracket, BuildShadowsocks, ApplyPort, LastIndexByte;
    var text := B64Decode(body).value;
    var at := LastIndexByte(text, '@');
    if at >= 0 {
      AuthWithoutUser(text[at + 1..]);
    }
  }

  predicate HasParts(text: string) {
    var at := LastIndexByte(text, '@');
    at >= 0 && SplitHostPort(text[at + 1..]).Ok?
  }

  lemma LegacyMeans(scheme: string, body: string)
    requires scheme in {"ss", "shadowsocks"}
    ensures BuildLegacyShadowsocks(scheme, body).Ok? <==> exists p :: LegacyUsable(body, p)
    ensures BuildLegacyShadowsocks(scheme, body).Ok? ==>
              exists p :: LegacyUsable(body, p) && LegacySays(scheme, p, BuildLegacyShadowsocks(scheme, body).value)
  {
    hide B64Decode, SplitHostPort, LastIndexByte, LegacyIs, LegacySays, SplitSecret, ApplyPort, AtoiOr, Unbracket,
         SecretSays, BuildShadowsocks;
    if B64Decode(body).Some? {
      var text := B64Decode(body).value;
      LegacyParts(text);
      LegacyBuilt(scheme, body);
      hide BuildLegacyShadowsocks;
      if HasParts(text) {
        var p := PartsAt(text, LastIndexByte(text, '@'));
        PartsMean(scheme, body, p);
        hide PartsAt;
        assert forall o :: LegacyUsable(body, o) ==> o == p;
      }
    }
  }

  lemma PartsMean(scheme: string, body: string, p: Legacy)
    requires scheme in {"ss", "shadowsocks"} && B64Decode(body).Some? && LegacyIs(B64Decode(body).value, p)
    ensures var r := BuildShadowsocks(SplitSecret(p.secret), Unbracket(p.host), ApplyPort(scheme, AtoiOr(p.port, 0), 8388));
            && (r.Ok? <==> LegacyUsable(body, p)) && (r.Ok? ==> LegacySays(scheme, p, r.value))
  {
    var port := ApplyPort(scheme, AtoiOr(p.port, 0), 8388);
    LegacyHostSays(p.hostPort, p.host, p.port);
    FallbackIs(scheme);
    ShadowsocksMeans(p.secret, Unbracket(p.host), port);
    ShadowsocksBuilt(SplitSecret(p.secret), Unbracket(p.host), port);
    hide B64Decode, SplitHostPort, ShadowsocksSays, HostSays, SecretSays, SplitSecret, AtoiOr, Unbracket, FallbackPort,
         BuildShadowsocks, LegacyIs;
  }

  lemma ShadowsocksBuilt(secret: (string, string), host: string, port: int)
    ensures var r := BuildShadowsocks(secret, host, port); r.Ok? ==> r.value.host == host && r.value.port == port
  {
  }

  /** A payload has one reading, and that leaves nothing of the outbound open. */
  lemma LegacyOnce(scheme: string, body: string, p: Legacy, q: Legacy, b: Built, c: Built)
    requires LegacyUsable(body, p) && LegacyUsable(body, q) && LegacySays(scheme, p, b) && LegacySays(scheme, q, c)
    ensures p == q && b == c
  {
    hide B64Decode, SplitHostPort, ShadowsocksSays, HostSays, SecretSays, AtoiOr, LegacyIs, PartsAt;
    LegacyParts(B64Decode(body).value);
    HostOnce(p.host, b.host, c.host);
    ShadowsocksOnce(p.secret, b, c);
  }

  /** A legacy shadowsocks line, one without userinfo, gives a node exactly when its port is usable as it
      stands and its payload is base64 of a usable text; the node says what that text says. */
  lemma LegacyLineMeans(lib: Lib, line: string)
    requires Accepted(line)
    requires var l := LinkOf(line).value; l.scheme in {"ss", "shadowsocks"} && l.userinfo == ""
    ensures Index(Trim(line), DELIMITER) >= 0
    ensures ParseLine(lib, line).Ok? <==>
            PortUsable(LinkOf(line).value.port) && exists p :: LegacyUsable(PayloadOf(line), p)
    ensures ParseLine(lib, line).Ok? ==>
      && ParseLine(lib, line).value.Some?
      && var n := ParseLine(lib, line).value.value;
      && n.protocol == "ss" && n.outbound.Obj? && Field(n.outbound.fields, "tag", true, Str("probe"))
      && exists p :: LegacyUsable(PayloadOf(line), p) &&
           LegacySays(LinkOf(line).value.scheme, p, Built(n.transport, n.host, n.port, n.outbound.fields - {"tag"}))
  {
    var l := LinkOf(line).value;
    LegacyLineBuilt(lib, line);
    PortNumberSays(l.port);
    LegacyMeans(l.scheme, PayloadOf(line));
    hide ParseLine, Canonical, LinkOf, PayloadOf, LegacyUsable, LegacySays, PortUsable, PortNumber, Trim, Index, Field;
    if ParseLine(lib, line).Ok? {
      var b := BuildLegacyShadowsocks(l.scheme, PayloadOf(line)).value;
      hide BuildLegacyShadowsocks;
      var p :| LegacyUsable(PayloadOf(line), p) && LegacySays(l.scheme, p, b);
      NoLegacyTag(l.scheme, p, b);
      NodeOfSays("ss", b, ParseLine(lib, line).value.value);
    }
  }

  lemma NoLegacyTag(scheme: string, p: Legacy, b: Built)
    requires LegacySays(scheme, p, b)
    ensures "tag" !in b.out
  {
    hide HeaderSays, SecretSays, Field, HostSays, AtoiOr;
  }

  lemma LegacyLineBuilt(lib: Lib, line: string)
    requires Accepted(line)
    requires var l := LinkOf(line).value; l.scheme in {"ss", "shadowsocks"} && l.userinfo == ""
    ensures Canonical(lib, line).Ok? && Index(Trim(line), DELIMITER) >= 0
    ensures var l := LinkOf(line).value;
            if PortNumber(l.port).Ok? then
              LineGives(ParseLine(lib, line), Trim(line), lib.hash(Canonical(lib, line).value), "ss",
                        BuildLegacyShadowsocks(l.scheme, PayloadOf(line)))
            else ParseLine(lib, line).Err?
  {
    var l := LinkOf(line).value;
    SchemeTable(l.scheme);
    CanonicalOfAccepted(lib, line);
    SplitOfLine(line);
    CommonOfLink(l, PayloadOf(line));
    hide ParseLine, Canonical, LinkOf, BuildLegacyShadowsocks, ParseCommon, Trim, Index, CutFragment, ProtocolOf, SplitLink, BuildParsed;
    ParseLineSteps(lib, line);
  }
}
