/** The builders as the source writes them: each fills in the node it is given and a map for the
    outbound, step by step. Together they refine ParseLine. */
module Builders {
  import opened Basics
  import opened Strings
  import opened Base64
  import opened Links
  import opened ShareLink
  import opened Dedup

  /** The node under construction, as far as the builders touch it. */
  class Draft {
    var transport: string
    var host: string
    var port: int

    constructor ()
      ensures transport == "tcp"
    {
      transport, host, port := "tcp", "", 0;
    }

    method TakePort(scheme: string, p: Parsed, fallback: int)
      modifies this
      ensures transport == old(transport) && host == p.host && port == ApplyPort(scheme, p.port, fallback)
    {
      host := p.host;
      port := p.port;
      if port == 0 {
        port := FallbackPort(scheme, fallback);
      }
    }
  }

  /** The outbound returned and the node filled in are those of the specification. */
  predicate Made(r: Result<Fields, LinkError>, transport: string, host: string, port: int, spec: Result<Built, LinkError>) {
    match spec
    case Err(e) => r == Err(e)
    case Ok(b) => r == Ok(b.out) && transport == b.transport && host == b.host && port == b.port
  }

  method MakeTls(q: Lookup, serverName: string) returns (tls: Fields)
    ensures tls == TlsBase(q, serverName)
  {
    tls := map["enabled" := Bool(true), "server_name" := Str(serverName)];
    if Insecure(q) {
      tls := tls["insecure" := Bool(true)];
    }
  }

  method MakeFullTls(q: Lookup, host: string) returns (tls: Fields)
    ensures tls == TlsFull(q, host)
  {
    tls := MakeTls(q, FirstNonEmpty([Decoded(q, "sni"), Decoded(q, "host"), host]));
    var alpn := Decoded(q, "alpn");
    if alpn != "" {
      tls := tls["alpn" := StrArr(Split(alpn, ','))];
    }
    var fp := Decoded(q, "fp");
    if fp != "" {
      tls := tls["utls" := Obj(map["enabled" := Bool(true), "fingerprint" := Str(fp)])];
    }
  }

  method MakeVless(scheme: string, body: string, n: Draft) returns (r: Result<Fields, LinkError>)
    modifies n
    ensures Made(r, n.transport, n.host, n.port, BuildFrom("vless", scheme, ParseCommon(body)))
  {
    hide ParseCommon, ApplyPort, TlsFull, Decoded, MapTransport, TransportBlock, FirstMatches;
    var common := ParseCommon(body);
    if common.Err? {
      return Err(common.error);
    }
    var p := common.value;
    var q := FirstMatches(p.pairs);
    n.TakePort(scheme, p, 443);
    var out := map["type" := Str("vless"), "server" := Str(n.host), "server_port" := Num(n.port), "uuid" := Str(p.userinfo)];
    if Raw(q, "flow") != "" {
      out := out["flow" := Str(Raw(q, "flow"))];
    }
    if Decoded(q, "packetEncoding") == "xudp" {
      out := out["packet_encoding" := Str("xudp")];
    }
    var security := Decoded(q, "security");
    n.transport := MapTransport(Decoded(q, "type"));
    if security == "tls" || security == "reality" {
      var tls := MakeFullTls(q, n.host);
      if security == "reality" {
        var reality := map["enabled" := Bool(true)];
        if "pbk" in q {
          reality := reality["public_key" := Str(Raw(q, "pbk"))];
        }
        if "sid" in q {
          reality := reality["short_id" := Str(Raw(q, "sid"))];
        }
        tls := tls["reality" := Obj(reality)];
      }
      out := out["tls" := Obj(tls)];
    }
    var block := QueryTransport(n.transport, q);
    if block.Some? {
      out := out["transport" := block.value];
    }
    return Ok(out);
  }

  method MakeTrojan(scheme: string, body: string, n: Draft) returns (r: Result<Fields, LinkError>)
    modifies n
    ensures Made(r, n.transport, n.host, n.port, BuildFrom("trojan", scheme, ParseCommon(body)))
  {
    hide ParseCommon, ApplyPort, TlsFull, Decoded, MapTransport, TransportBlock, FirstMatches, UnescapeOrRaw;
    var common := ParseCommon(body);
    if common.Err? {
      return Err(common.error);
    }
    var p := common.value;
    var q := FirstMatches(p.pairs);
    n.TakePort(scheme, p, 443);
    var out := map[
      "type" := Str("trojan"), "server" := Str(n.host), "server_port" := Num(n.port),
      "password" := Str(UnescapeOrRaw(p.userinfo))];
    n.transport := MapTransport(Decoded(q, "type"));
    if Decoded(q, "security") != "none" {
      var tls := MakeFullTls(q, n.host);
      out := out["tls" := Obj(tls)];
    }
    var block := QueryTransport(n.transport, q);
    if block.Some? {
      out := out["transport" := block.value];
    }
    return Ok(out);
  }

  method MakeHysteria2(scheme: string, body: string, n: Draft) returns (r: Result<Fields, LinkError>)
    modifies n
    ensures Made(r, n.transport, n.host, n.port, BuildFrom("hysteria2", scheme, ParseCommon(body)))
  {
    hide ParseCommon, ApplyPort, TlsBase, Decoded, FirstMatches, UnescapeOrRaw, FirstNonEmpty, AtoiOr;
    var common := ParseCommon(body);
    if common.Err? {
      return Err(common.error);
    }
    var p := common.value;
    var q := FirstMatches(p.pairs);
    n.TakePort(scheme, p, 443);
    n.transport := "quic";
    var out := map[
      "type" := Str("hysteria2"), "server" := Str(n.host), "server_port" := Num(n.port),
      "password" := Str(UnescapeOrRaw(p.userinfo))];
    var tls := MakeTls(q, FirstNonEmpty([Decoded(q, "sni"), n.host]));
    out := out["tls" := Obj(tls)];
    var obfs := Decoded(q, "obfs-password");
    if obfs != "" {
      out := out["obfs" := Obj(map["type" := Str("salamander"), "password" := Str(obfs)])];
    }
    var up := AtoiOr(Decoded(q, "upmbps"), 0);
    if up > 0 {
      out := out["up_mbps" := Num(up)];
    }
    var down := AtoiOr(Decoded(q, "downmbps"), 0);
    if down > 0 {
      out := out["down_mbps" := Num(down)];
    }
    return Ok(out);
  }

  method MakeSocks(scheme: string, body: string, n: Draft) returns (r: Result<Fields, LinkError>)
    requires n.transport == "tcp"
    modifies n
    ensures Made(r, n.transport, n.host, n.port, BuildFrom("socks", scheme, ParseCommon(body)))
  {
    hide ParseCommon, ApplyPort, FirstMatches, UnescapeOrRaw;
    var common := ParseCommon(body);
    if common.Err? {
      return Err(common.error);
    }
    var p := common.value;
    n.TakePort(scheme, p, 1080);
    var version := if scheme == "socks4" then "4" else "5";
    var out := map[
      "type" := Str("socks"), "server" := Str(n.host), "server_port" := Num(n.port), "version" := Str(version)];
    if p.userinfo != "" {
      var ui := UnescapeOrRaw(p.userinfo);
      var (u, pw, found) := Cut(ui, ':');
      if found {
        out := out["username" := Str(u)];
        out := out["password" := Str(pw)];
      } else {
        out := out["username" := Str(ui)];
      }
    }
    return Ok(out);
  }

  method MakeAnyTLS(scheme: string, body: string, n: Draft) returns (r: Result<Fields, LinkError>)
    requires n.transport == "tcp"
    modifies n
    ensures Made(r, n.transport, n.host, n.port, BuildFrom("anytls", scheme, ParseCommon(body)))
  {
    hide ParseCommon, ApplyPort, TlsBase, Decoded, FirstMatches, UnescapeOrRaw, FirstNonEmpty;
    var common := ParseCommon(body);
    if common.Err? {
      return Err(common.error);
    }
    var p := common.value;
    var q := FirstMatches(p.pairs);
    n.TakePort(scheme, p, 443);
    var out := map[
      "type" := Str("anytls"), "server" := Str(n.host), "server_port" := Num(n.port),
      "password" := Str(UnescapeOrRaw(p.userinfo))];
    if Decoded(q, "security") != "none" {
      var tls := MakeTls(q, FirstNonEmpty([Decoded(q, "sni"), n.host]));
      out := out["tls" := Obj(tls)];
    }
    return Ok(out);
  }

  /** TLS for the protocols over QUIC: the ALPN is fixed, and `insecure` is set afterwards. */
  method MakeQuicTls(q: Lookup, serverName: string) returns (tls: Fields)
    ensures tls == TlsBase(q, serverName)["alpn" := StrArr(["h3"])]
  {
    tls := map["enabled" := Bool(true), "alpn" := StrArr(["h3"]), "server_name" := Str(serverName)];
    if Insecure(q) {
      tls := tls["insecure" := Bool(true)];
    }
    assert tls == TlsBase(q, serverName)["alpn" := StrArr(["h3"])];
  }

  method MakeTUIC(scheme: string, body: string, n: Draft) returns (r: Result<Fields, LinkError>)
    modifies n
    ensures Made(r, n.transport, n.host, n.port, BuildFrom("tuic", scheme, ParseCommon(body)))
  {
    hide ParseCommon, ApplyPort, TlsBase, Decoded, FirstMatches, UnescapeOrRaw, FirstNonEmpty, StrArr;
    var common := ParseCommon(body);
    if common.Err? {
      return Err(common.error);
    }
    var p := common.value;
    var q := FirstMatches(p.pairs);
    n.TakePort(scheme, p, 443);
    n.transport := "quic";
    var (user, pass, _) := Cut(p.userinfo, ':');
    var uuid := FirstNonEmpty([Decoded(q, "uuid"), user]);
    var password := FirstNonEmpty([Decoded(q, "password"), pass]);
    if uuid == "" {
      return Err(MissingField);
    }
    var cc := FirstNonEmpty([Decoded(q, "congestion_control"), "bbr"]);
    var tls := MakeQuicTls(q, FirstNonEmpty([Decoded(q, "sni"), n.host]));
    return Ok(map[
      "type" := Str("tuic"), "server" := Str(n.host), "server_port" := Num(n.port), "uuid" := Str(uuid),
      "password" := Str(password), "congestion_control" := Str(cc), "tls" := Obj(tls)]);
  }

  method MakeHysteria(scheme: string, body: string, n: Draft) returns (r: Result<Fields, LinkError>)
    modifies n
    ensures Made(r, n.transport, n.host, n.port, BuildFrom("hysteria", scheme, ParseCommon(body)))
  {
    hide ParseCommon, ApplyPort, TlsBase, Decoded, FirstMatches, UnescapeOrRaw, FirstNonEmpty, StrArr, AtoiOr;
    var common := ParseCommon(body);
    if common.Err? {
      return Err(common.error);
    }
    var p := common.value;
    var q := FirstMatches(p.pairs);
    n.TakePort(scheme, p, 443);
    n.transport := "quic";
    var auth := FirstNonEmpty([Decoded(q, "auth"), UnescapeOrRaw(p.userinfo)]);
    var tls := MakeQuicTls(q, FirstNonEmpty([Decoded(q, "peer"), Decoded(q, "sni"), n.host]));
    return Ok(map[
      "type" := Str("hysteria"), "server" := Str(n.host), "server_port" := Num(n.port), "auth" := Str(auth),
      "up_mbps" := Num(AtoiOr(Decoded(q, "upmbps"), 100)), "down_mbps" := Num(AtoiOr(Decoded(q, "downmbps"), 100)),
      "tls" := Obj(tls)]);
  }

  method MakeShadowsocks(lib: Lib, scheme: string, body: string, n: Draft) returns (r: Result<Fields, LinkError>)
    requires n.transport == "tcp"
    modifies n
    ensures Made(r, n.transport, n.host, n.port, Build(lib, "ss", scheme, body))
  {
    hide ParseCommon, ApplyPort, FirstMatches, SplitSecret, B64Decode, SplitAuth, Unbracket, AtoiOr, LastIndexByte;
    var common := ParseCommon(body);
    if common.Err? {
      return Err(common.error);
    }
    var p := common.value;
    var secret: (string, string);
    if p.userinfo != "" {
      secret := SplitSecret(p.userinfo);
      n.TakePort(scheme, p, 8388);
    } else {
      var decoded := B64Decode(body);
      if decoded.None? {
        return Err(BadPayload);
      }
      var s := decoded.value;
      var at := LastIndexByte(s, '@');
      if at < 0 {
        return Err(BadPayload);
      }
      secret := SplitSecret(s[..at]);
      var auth := SplitAuth(s[at + 1..]);
      if auth.Err? {
        return Err(auth.error);
      }
      var (_, host, portText) := auth.value;
      n.TakePort(scheme, p.(host := Unbracket(host), port := AtoiOr(portText, 0)), 8388);
    }
    if secret.0 == "" || secret.1 == "" {
      return Err(MissingField);
    }
    return Ok(map[
      "type" := Str("shadowsocks"), "server" := Str(n.host), "server_port" := Num(n.port),
      "method" := Str(secret.0), "password" := Str(secret.1)]);
  }

  method MakeVmess(lib: Lib, payload: string, n: Draft) returns (r: Result<Fields, LinkError>)
    modifies n
    ensures Made(r, n.transport, n.host, n.port, BuildVmess(lib, payload))
  {
    hide DecodeVmess, AtoiIgnoringError, AtoiOr, MapTransport, TransportBlock, FirstNonEmpty, StrArr, ToLower, HasPrefix;
    var decoded := DecodeVmess(lib, payload);
    if decoded.None? {
      decoded := lib.vmessFromBytes(payload);
    }
    if decoded.None? {
      return Err(BadPayload);
    }
    var v := decoded.value;
    var port := AtoiIgnoringError(v.port);
    if v.add == "" || v.id == "" || port == 0 {
      return Err(MissingField);
    }
    n.host := v.add;
    n.port := port;
    var security := v.scy;
    if security == "" {
      security := "auto";
    }
    var out := map[
      "type" := Str("vmess"), "server" := Str(v.add), "server_port" := Num(port), "uuid" := Str(v.id),
      "security" := Str(security), "alter_id" := Num(AtoiOr(v.aid, 0))];
    n.transport := MapTransport(v.net);
    if HasPrefix(ToLower(v.tls), "tls") {
      var tls := map["enabled" := Bool(true), "server_name" := Str(FirstNonEmpty([v.sni, v.host, v.add]))];
      if v.alpn != "" {
        tls := tls["alpn" := StrArr(Split(v.alpn, ','))];
      }
      out := out["tls" := Obj(tls)];
    }
    var block := TransportBlock(n.transport, v.path, v.host, v.path);
    if block.Some? {
      out := out["transport" := block.value];
    }
    return Ok(out);
  }

  /** `parseByProto` up to the tag: every protocol goes to its builder. */
  method MakeByProtocol(lib: Lib, proto: string, scheme: string, body: string, n: Draft)
      returns (r: Result<Fields, LinkError>)
    requires ProtocolOf(scheme) == Some(proto) && n.transport == "tcp"
    modifies n
    ensures Made(r, n.transport, n.host, n.port, Build(lib, proto, scheme, body))
  {
    OthersBuildFrom(lib, proto, scheme, body);
    hide Build, BuildFrom, BuildVmess, ParseCommon, Made;
    if proto == "vless" {
      r := MakeVless(scheme, body, n);
    } else if proto == "vmess" {
      r := MakeVmess(lib, body, n);
    } else if proto == "ss" {
      r := MakeShadowsocks(lib, scheme, body, n);
    } else if proto == "trojan" {
      r := MakeTrojan(scheme, body, n);
    } else if proto == "hysteria2" {
      r := MakeHysteria2(scheme, body, n);
    } else if proto == "socks" {
      r := MakeSocks(scheme, body, n);
    } else if proto == "anytls" {
      r := MakeAnyTLS(scheme, body, n);
    } else if proto == "tuic" {
      r := MakeTUIC(scheme, body, n);
    } else {
      r := MakeHysteria(scheme, body, n);
    }
  }

  lemma OthersBuildFrom(lib: Lib, proto: string, scheme: string, body: string)
    ensures proto == "vmess" ==> Build(lib, proto, scheme, body) == BuildVmess(lib, body)
    ensures proto != "vmess" && proto != "ss" ==>
              Build(lib, proto, scheme, body) == BuildFrom(proto, scheme, ParseCommon(body))
  {
    hide BuildVmess, BuildParsed, BuildLegacyShadowsocks, ParseCommon;
  }

  /** `ParseLine` step by step refines its specification. */
  method ParseShareLink(lib: Lib, line: string) returns (r: Result<Option<Node>, LinkError>)
    ensures r == ParseLine(lib, line)
  {
    hide Build, CanonicalOfTrimmed, NameOf, CutFragment, Index, Trim, ProtocolOf;
    var s := Trim(line);
    if s == "" {
      return Ok(None);
    }
    var i := Index(s, DELIMITER);
    if i < 0 {
      return Err(NotShareLink);
    }
    var scheme, rest := ToLower(s[..i]), s[i + 3..];
    var proto := ProtocolOf(scheme);
    if proto.None? {
      return Err(NotShareLink);
    }
    var n := new Draft();
    var out := MakeByProtocol(lib, proto.value, scheme, CutFragment(rest), n);
    if out.Err? {
      return Err(out.error);
    }
    var outbound := out.value["tag" := Str("probe")];
    var name := NameOf(rest);
    var canonical := Canonical(lib, s);
    if canonical.Err? {
      return Err(canonical.error);
    }
    return Ok(Some(Node(s, lib.hash(canonical.value), proto.value, n.transport, n.host, n.port, name, Obj(outbound))));
  }
}
