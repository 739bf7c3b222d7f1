/** What every outbound says about its node, whichever builder made it. */
module Outbound {
  import opened Basics
  import opened Strings
  import opened Base64
  import opened Links
  import opened ShareLink
  import opened Dedup

  /** The transports that sing-box is told about; "quic" and "kcp" leave no trace. */
  const BLOCKS := {"ws", "grpc", "httpupgrade", "xhttp", "http"}

  const TRANSPORTS := BLOCKS + {"tcp", "quic", "kcp"}

  /** The name sing-box has for a protocol. */
  function KindOf(proto: string): string {
    if proto == "ss" then "shadowsocks" else proto
  }

  /** The fields every outbound of a protocol has beyond type, server and server_port. */
  function OwnFields(proto: string): set<string> {
    if proto == "vless" then {"uuid"}
    else if proto == "vmess" then {"uuid", "security", "alter_id"}
    else if proto == "ss" then {"method", "password"}
    else if proto == "trojan" then {"password"}
    else if proto == "hysteria2" then {"password", "tls"}
    else if proto == "socks" then {"version"}
    else if proto == "anytls" then {"password"}
    else if proto == "tuic" then {"uuid", "password", "congestion_control", "tls"}
    else {"auth", "up_mbps", "down_mbps", "tls"}
  }

  /** The fields it may have. */
  function MoreFields(proto: string): set<string> {
    if proto == "vless" then {"flow", "packet_encoding", "tls", "transport"}
    else if proto == "vmess" then {"tls", "transport"}
    else if proto == "trojan" then {"tls", "transport"}
    else if proto == "hysteria2" then {"obfs", "up_mbps", "down_mbps"}
    else if proto == "socks" then {"username", "password"}
    else if proto == "anytls" then {"tls"}
    else {}
  }

  const HEADER := {"type", "server", "server_port"}

  /** All required fields and no unknown one; credentials of other protocols never leak in. */
  predicate HasFieldsOf(proto: string, out: Fields) {
    && HEADER + OwnFields(proto) <= out.Keys
    && out.Keys <= HEADER + OwnFields(proto) + MoreFields(proto)
  }

  /** TLS is switched on and names a server whenever the node has one. */
  predicate NamesServer(out: Fields, host: string) {
    "tls" in out ==> IsTls(out["tls"], host)
  }

  predicate IsTls(tls: Json, host: string) {
    && tls.Obj? && "enabled" in tls.fields && tls.fields["enabled"] == Bool(true)
    && "server_name" in tls.fields && tls.fields["server_name"].Str?
    && (host != "" ==> tls.fields["server_name"].s != "")
  }

  /** The outbound is one of its protocol, names the node's own server and port, and has a transport
      block exactly for the node's own transport. */
  predicate Agrees(proto: string, b: Built) {
    && HasFieldsOf(proto, b.out) && NamesServer(b.out, b.host)
    && "type" in b.out && b.out["type"] == Str(KindOf(proto))
    && "server" in b.out && b.out["server"] == Str(b.host)
    && "server_port" in b.out && b.out["server_port"] == Num(b.port)
    && b.transport in TRANSPORTS
    && ("transport" in b.out <==> b.transport in BLOCKS)
    && ("transport" in b.out ==> IsBlock(b.out["transport"], b.transport))
  }

  predicate IsBlock(block: Json, transport: string) {
    block.Obj? && "type" in block.fields && block.fields["type"] == Str(transport)
  }

  lemma BlockOf(transport: string, path: string, hostHeader: string, service: string)
    requires transport in TRANSPORTS
    ensures var t := TransportBlock(transport, path, hostHeader, service);
            (t.Some? <==> transport in BLOCKS) && (t.Some? ==> IsBlock(t.value, transport))
  {
  }

  lemma MappedTransport(t: string)
    ensures MapTransport(t) in TRANSPORTS
  {
  }

  lemma {:induction false} LastCounts(vals: seq<string>)
    requires vals != [] && vals[|vals| - 1] != ""
    ensures FirstNonEmpty(vals) != ""
  {
    if |vals| > 1 {
      LastCounts(vals[1..]);
    }
  }

  /** A TLS block whose server name falls back on the host. */
  lemma TlsBaseNames(q: Lookup, names: seq<string>, host: string)
    requires names != [] && names[|names| - 1] == host
    ensures IsTls(Obj(TlsBase(q, FirstNonEmpty(names))), host)
  {
    if host != "" {
      LastCounts(names);
    }
  }

  lemma TlsFullNames(q: Lookup, host: string)
    ensures IsTls(Obj(TlsFull(q, host)), host)
  {
    TlsBaseNames(q, [Decoded(q, "sni"), Decoded(q, "host"), host], host);
    hide TlsBase, FirstNonEmpty, Decoded, StrArr;
  }

  lemma VlessFields(userinfo: string, q: Lookup, host: string, port: int)
    ensures HasFieldsOf("vless", BuildVless(userinfo, q, host, port).out)
    ensures NamesServer(BuildVless(userinfo, q, host, port).out, host)
  {
    TlsFullNames(q, host);
    hide MapTransport, TransportBlock, TlsFull, Decoded, Raw, UnescapeOrRaw;
  }

  lemma VlessAgrees(userinfo: string, q: Lookup, host: string, port: int)
    ensures Agrees("vless", BuildVless(userinfo, q, host, port))
  {
    hide MapTransport, TransportBlock, TlsFull, Decoded, Raw, UnescapeOrRaw, HasFieldsOf, NamesServer;
    VlessFields(userinfo, q, host, port);
    var transport := MapTransport(Decoded(q, "type"));
    MappedTransport(Decoded(q, "type"));
    BlockOf(transport, Raw(q, "path"), Raw(q, "host"), Raw(q, "serviceName"));
  }
  lemma TrojanFields(userinfo: string, q: Lookup, host: string, port: int)
    ensures HasFieldsOf("trojan", BuildTrojan(userinfo, q, host, port).out)
    ensures NamesServer(BuildTrojan(userinfo, q, host, port).out, host)
  {
    TlsFullNames(q, host);
    hide MapTransport, TransportBlock, TlsFull, Decoded, Raw, UnescapeOrRaw;
  }

  lemma TrojanAgrees(userinfo: string, q: Lookup, host: string, port: int)
    ensures Agrees("trojan", BuildTrojan(userinfo, q, host, port))
  {
    hide MapTransport, TransportBlock, TlsFull, Decoded, Raw, UnescapeOrRaw, HasFieldsOf, NamesServer;
    TrojanFields(userinfo, q, host, port);
    var transport := MapTransport(Decoded(q, "type"));
    MappedTransport(Decoded(q, "type"));
    BlockOf(transport, Raw(q, "path"), Raw(q, "host"), Raw(q, "serviceName"));
  }
  lemma Hysteria2Fields(userinfo: string, q: Lookup, host: string, port: int)
    ensures HasFieldsOf("hysteria2", BuildHysteria2(userinfo, q, host, port).out)
  {
    hide TlsBase, FirstNonEmpty, Decoded, AtoiOr, UnescapeOrRaw, StrArr;
  }

  lemma Hysteria2Names(userinfo: string, q: Lookup, host: string, port: int)
    ensures NamesServer(BuildHysteria2(userinfo, q, host, port).out, host)
  {
    TlsBaseNames(q, [Decoded(q, "sni"), host], host);
    hide TlsBase, FirstNonEmpty, Decoded, AtoiOr, UnescapeOrRaw, StrArr;
  }

  lemma Hysteria2Agrees(userinfo: string, q: Lookup, host: string, port: int)
    ensures Agrees("hysteria2", BuildHysteria2(userinfo, q, host, port))
  {
    hide TlsBase, FirstNonEmpty, Decoded, AtoiOr, UnescapeOrRaw, StrArr, HasFieldsOf, NamesServer;
    Hysteria2Fields(userinfo, q, host, port);
    Hysteria2Names(userinfo, q, host, port);
  }
  lemma SocksAgrees(scheme: string, userinfo: string, host: string, port: int)
    ensures Agrees("socks", BuildSocks(scheme, userinfo, host, port))
  {
    hide Cut, UnescapeOrRaw;
  }

  lemma AnyTLSFields(userinfo: string, q: Lookup, host: string, port: int)
    ensures HasFieldsOf("anytls", BuildAnyTLS(userinfo, q, host, port).out)
  {
    hide TlsBase, FirstNonEmpty, Decoded, UnescapeOrRaw, StrArr;
  }

  lemma AnyTLSNames(userinfo: string, q: Lookup, host: string, port: int)
    ensures NamesServer(BuildAnyTLS(userinfo, q, host, port).out, host)
  {
    TlsBaseNames(q, [Decoded(q, "sni"), host], host);
    hide TlsBase, FirstNonEmpty, Decoded, UnescapeOrRaw, StrArr;
  }

  lemma AnyTLSAgrees(userinfo: string, q: Lookup, host: string, port: int)
    ensures Agrees("anytls", BuildAnyTLS(userinfo, q, host, port))
  {
    hide TlsBase, FirstNonEmpty, Decoded, UnescapeOrRaw, StrArr, HasFieldsOf, NamesServer;
    AnyTLSFields(userinfo, q, host, port);
    AnyTLSNames(userinfo, q, host, port);
  }
  lemma TUICFields(userinfo: string, q: Lookup, host: string, port: int)
    requires BuildTUIC(userinfo, q, host, port).Ok?
    ensures HasFieldsOf("tuic", BuildTUIC(userinfo, q, host, port).value.out)
  {
    hide TlsBase, FirstNonEmpty, Decoded, Cut, StrArr;
  }

  lemma TUICNames(userinfo: string, q: Lookup, host: string, port: int)
    requires BuildTUIC(userinfo, q, host, port).Ok?
    ensures NamesServer(BuildTUIC(userinfo, q, host, port).value.out, host)
  {
    TlsBaseNames(q, [Decoded(q, "sni"), host], host);
    hide TlsBase, FirstNonEmpty, Decoded, Cut, StrArr;
  }

  lemma TUICAgrees(userinfo: string, q: Lookup, host: string, port: int)
    requires BuildTUIC(userinfo, q, host, port).Ok?
    ensures Agrees("tuic", BuildTUIC(userinfo, q, host, port).value)
  {
    hide TlsBase, FirstNonEmpty, Decoded, Cut, StrArr, HasFieldsOf, NamesServer;
    TUICFields(userinfo, q, host, port);
    TUICNames(userinfo, q, host, port);
  }
  lemma HysteriaFields(userinfo: string, q: Lookup, host: string, port: int)
    ensures HasFieldsOf("hysteria", BuildHysteria(userinfo, q, host, port).out)
  {
    hide TlsBase, FirstNonEmpty, Decoded, AtoiOr, UnescapeOrRaw, StrArr;
  }

  lemma HysteriaNames(userinfo: string, q: Lookup, host: string, port: int)
    ensures NamesServer(BuildHysteria(userinfo, q, host, port).out, host)
  {
    TlsBaseNames(q, [Decoded(q, "peer"), Decoded(q, "sni"), host], host);
    hide TlsBase, FirstNonEmpty, Decoded, AtoiOr, UnescapeOrRaw, StrArr;
  }

  lemma HysteriaAgrees(userinfo: string, q: Lookup, host: string, port: int)
    ensures Agrees("hysteria", BuildHysteria(userinfo, q, host, port))
  {
    hide TlsBase, FirstNonEmpty, Decoded, AtoiOr, UnescapeOrRaw, StrArr, HasFieldsOf, NamesServer;
    HysteriaFields(userinfo, q, host, port);
    HysteriaNames(userinfo, q, host, port);
  }
  lemma ParsedAgrees(proto: string, scheme: string, userinfo: string, q: Lookup, host: string, port: int)
    requires ProtocolOf(scheme) == Some(proto) && proto != "vmess"
    requires BuildParsed(proto, scheme, userinfo, q, host, port).Ok?
    ensures Agrees(proto, BuildParsed(proto, scheme, userinfo, q, host, port).value)
  {
    hide Agrees, SplitSecret, ApplyPort, BuildVless, BuildTrojan, BuildHysteria2, BuildSocks, BuildAnyTLS, BuildTUIC,
         BuildHysteria, BuildShadowsocks;
    var p := ApplyPort(scheme, port, 443);
    if proto == "vless" {
      VlessAgrees(userinfo, q, host, p);
    } else if proto == "ss" {
      ShadowsocksAgrees(SplitSecret(userinfo), host, ApplyPort(scheme, port, 8388));
    } else if proto == "trojan" {
      TrojanAgrees(userinfo, q, host, p);
    } else if proto == "hysteria2" {
      Hysteria2Agrees(userinfo, q, host, p);
    } else if proto == "socks" {
      SocksAgrees(scheme, userinfo, host, ApplyPort(scheme, port, 1080));
    } else if proto == "anytls" {
      AnyTLSAgrees(userinfo, q, host, p);
    } else if proto == "tuic" {
      TUICAgrees(userinfo, q, host, p);
    } else {
      HysteriaAgrees(userinfo, q, host, p);
    }
  }

  lemma VmessNames(v: Vmess)
    ensures v.add != "" ==> FirstNonEmpty([v.sni, v.host, v.add]) != ""
  {
    if v.add != "" {
      LastCounts([v.sni, v.host, v.add]);
    }
  }

  lemma VmessAgrees(v: Vmess)
    requires BuildVmessFields(v).Ok?
    ensures Agrees("vmess", BuildVmessFields(v).value)
  {
    VmessNames(v);
    hide MapTransport, TransportBlock, AtoiIgnoringError, AtoiOr, FirstNonEmpty, StrArr, ToLower, HasPrefix;
    MappedTransport(v.net);
    BlockOf(MapTransport(v.net), v.path, v.host, v.path);
  }

  lemma ShadowsocksAgrees(secret: (string, string), host: string, port: int)
    requires BuildShadowsocks(secret, host, port).Ok?
    ensures Agrees("ss", BuildShadowsocks(secret, host, port).value)
  {
  }

  lemma BuildAgrees(lib: Lib, proto: string, scheme: string, body: string)
    requires ProtocolOf(scheme) == Some(proto) && Build(lib, proto, scheme, body).Ok?
    ensures Agrees(proto, Build(lib, proto, scheme, body).value)
  {
    hide BuildVmessFields, BuildLegacyShadowsocks, BuildParsed, ParseCommon, DecodeVmess, Agrees;
    if proto == "vmess" {
      var decoded := match DecodeVmess(lib, body) case Some(v) => Some(v) case None => lib.vmessFromBytes(body);
      VmessAgrees(decoded.value);
    } else {
      var p := ParseCommon(body).value;
      if proto == "ss" && p.userinfo == "" {
        LegacyAgrees(scheme, body);
      } else {
        ParsedAgrees(proto, scheme, p.userinfo, FirstMatches(p.pairs), p.host, p.port);
      }
    }
  }

  lemma LegacyAgrees(scheme: string, body: string)
    requires BuildLegacyShadowsocks(scheme, body).Ok?
    ensures Agrees("ss", BuildLegacyShadowsocks(scheme, body).value)
  {
    hide Agrees, B64Decode, SplitAuth, SplitSecret, Unbracket, ApplyPort, AtoiOr, LastIndexByte, BuildShadowsocks;
    var s := B64Decode(body).value;
    var at := LastIndexByte(s, '@');
    var (_, host, portText) := SplitAuth(s[at + 1..]).value;
    ShadowsocksAgrees(SplitSecret(s[..at]), Unbracket(host), ApplyPort(scheme, AtoiOr(portText, 0), 8388));
  }

  /** A node whose outbound, but for its tag, is one of its protocol and names its own server, port and
      transport. */
  predicate NodeAgreesWith(n: Node) {
    && n.outbound.Obj? && "tag" in n.outbound.fields && n.outbound.fields["tag"] == Str("probe")
    && Agrees(n.protocol, Built(n.transport, n.host, n.port, n.outbound.fields - {"tag"}))
  }

  lemma NoTag(proto: string, out: Fields)
    requires HasFieldsOf(proto, out)
    ensures "tag" !in out && out["tag" := Str("probe")] - {"tag"} == out
  {
  }

  lemma TaggedAgrees(uri: string, uriHash: string, proto: string, b: Built, name: string)
    requires Agrees(proto, b)
    ensures NodeAgreesWith(NodeFrom(uri, uriHash, proto, b, name))
  {
    hide HasFieldsOf, NamesServer;
    NoTag(proto, b.out);
    hide Agrees;
    assert Built(b.transport, b.host, b.port, b.out) == b;
  }

  /** Whichever builder made it, every node agrees with its outbound. */
  lemma NodeAgrees(lib: Lib, line: string)
    requires ParseLine(lib, line).Ok? && ParseLine(lib, line).value.Some?
    ensures NodeAgreesWith(ParseLine(lib, line).value.value)
  {
    hide Build, Canonical, NameOf, CutFragment, Index, NodeAgreesWith, Agrees, NodeFrom;
    var s := Trim(line);
    var scheme, rest := SchemeOf(s), RestOf(s);
    var proto := ProtocolOf(scheme).value;
    var built := Build(lib, proto, scheme, CutFragment(rest));
    BuildAgrees(lib, proto, scheme, CutFragment(rest));
    TaggedAgrees(s, lib.hash(Canonical(lib, s).value), proto, built.value, NameOf(rest));
  }

  /** A node from any other link than vmess and legacy shadowsocks has a real port, whether or not the
      link gave one. */
  lemma PortInRange(lib: Lib, line: string)
    requires Accepted(line) && PlainForm(LinkOf(line).value) && ParseLine(lib, line).Ok?
    ensures ParseLine(lib, line).value.Some? && 0 < ParseLine(lib, line).value.value.port < 65536
  {
    hide ParseLine, BuildAt, Canonical;
    var l := LinkOf(line).value;
    ParseLineOfLink(lib, line);
    BuildAtPort(l, Unbracket(l.host));
  }

  lemma BuildAtPort(l: Link, host: string)
    requires ProtocolOf(l.scheme).Some? && BuildAt(l, host).Ok?
    ensures 0 < BuildAt(l, host).value.port < 65536
  {
    AppliedPort(l.scheme, PortNumber(l.port).value);
    ParsedPort(ProtocolOf(l.scheme).value, l.scheme, l.userinfo, LookupOf(l), host, PortNumber(l.port).value);
  }

  lemma AppliedPort(scheme: string, port: int)
    requires 0 <= port < 65536
    ensures forall fallback :: 0 < fallback < 65536 ==> 0 < ApplyPort(scheme, port, fallback) < 65536
  {
  }

  lemma ParsedPort(proto: string, scheme: string, userinfo: string, q: Lookup, host: string, port: int)
    requires BuildParsed(proto, scheme, userinfo, q, host, port).Ok? && 0 <= port < 65536
    ensures 0 < BuildParsed(proto, scheme, userinfo, q, host, port).value.port < 65536
  {
    hide TlsBase, TlsFull, FirstNonEmpty, Decoded, Raw, AtoiOr, UnescapeOrRaw, Cut, SplitSecret, MapTransport;
    AppliedPort(scheme, port);
  }
}
