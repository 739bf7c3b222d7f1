/** The description of a node leaves nothing open: a link has one outbound. */
module MeaningIsComplete {
  import opened Basics
  import opened Strings
  import opened Links
  import opened ShareLink
  import opened Dedup
  import opened Meaning
  import opened LineMeaning

  // ---- fields ----

  predicate SameAt(m: Fields, n: Fields, k: string) {
    (k in m <==> k in n) && (k in m ==> m[k] == n[k])
  }

  lemma SameFields(m: Fields, n: Fields, keys: set<string>)
    requires m.Keys <= keys && n.Keys <= keys && forall k :: k in keys ==> SameAt(m, n, k)
    ensures m == n
  {
    assert forall k :: k in m ==> k in keys && SameAt(m, n, k);
    assert forall k :: k in n ==> k in keys && SameAt(m, n, k);
  }

  lemma FieldOnce(m: Fields, n: Fields, k: string, present: bool, v: Json)
    requires Field(m, k, present, v) && Field(n, k, present, v)
    ensures SameAt(m, n, k)
  {
  }

  lemma ListOnce(a: Json, b: Json, text: string)
    requires ListOf(a, text) && ListOf(b, text)
    ensures a == b
  {
    var p := seq(|a.items|, i requires 0 <= i < |a.items| => (if a.items[i].Str? then a.items[i].s else ""));
    var q := seq(|b.items|, i requires 0 <= i < |b.items| => (if b.items[i].Str? then b.items[i].s else ""));
    SplitOfJoin(p, ',');
    SplitOfJoin(q, ',');
    assert |p| == |q|;
    forall i | 0 <= i < |a.items| ensures a.items[i] == b.items[i] {
      assert p[i] == q[i] && a.items[i] in a.items && b.items[i] in b.items;
    }
  }

  // ---- TLS and transport ----

  lemma TlsOnce(m: Fields, n: Fields, q: Lookup, name: string)
    requires TlsSays(m, q, name) && TlsSays(n, q, name)
    ensures SameAt(m, n, "enabled") && SameAt(m, n, "server_name") && SameAt(m, n, "insecure")
  {
  }

  lemma RealityOnce(m: Fields, n: Fields, q: Lookup)
    requires RealitySays(m, q) && RealitySays(n, q)
    ensures m == n
  {
    hide Raw;
    assert SameAt(m, n, "enabled") && SameAt(m, n, "public_key") && SameAt(m, n, "short_id");
    SameFields(m, n, {"enabled", "public_key", "short_id"});
  }

  lemma FullTlsOnce(m: Fields, n: Fields, q: Lookup, host: string, reality: bool)
    requires FullTlsSays(m, q, host, reality) && FullTlsSays(n, q, host, reality)
    ensures m == n
  {
    hide Raw, Decoded, OrElse, ListOf, TlsSays, RealitySays;
    TlsOnce(m, n, q, OrElse(Decoded(q, "sni"), OrElse(Decoded(q, "host"), host)));
    if Decoded(q, "alpn") != "" {
      ListOnce(m["alpn"], n["alpn"], Decoded(q, "alpn"));
    }
    if reality {
      RealityOnce(m["reality"].fields, n["reality"].fields, q);
    }
    assert SameAt(m, n, "alpn") && SameAt(m, n, "utls") && SameAt(m, n, "reality");
    SameFields(m, n, {"enabled", "server_name", "insecure", "alpn", "utls", "reality"});
  }

  lemma PlainTlsOnce(a: Json, b: Json, q: Lookup, name: string, alpn: Option<Json>)
    requires PlainTlsSays(a, q, name, alpn) && PlainTlsSays(b, q, name, alpn)
    ensures a == b
  {
    hide Raw, Decoded;
    TlsOnce(a.fields, b.fields, q, name);
    assert SameAt(a.fields, b.fields, "alpn");
    SameFields(a.fields, b.fields, {"enabled", "server_name", "insecure", "alpn"});
  }

  lemma TransportOnce(a: string, b: string, spelled: string)
    requires TransportSays(a, spelled) && TransportSays(b, spelled)
    ensures a == b
  {
    hide ToLower;
  }

  lemma BlockOnce(m: Fields, n: Fields, kind: string, path: string, hostHeader: string, service: string)
    requires BlockSays(m, kind, path, hostHeader, service) && BlockSays(n, kind, path, hostHeader, service)
    ensures m == n
  {
    assert SameAt(m, n, "type") && SameAt(m, n, "path") && SameAt(m, n, "service_name");
    assert SameAt(m, n, "headers") && SameAt(m, n, "host");
    SameFields(m, n, {"type", "path", "service_name", "headers", "host"});
  }

  lemma StreamOnce(b: Built, c: Built, spelled: string, path: string, hostHeader: string, service: string)
    requires StreamSays(b, spelled, path, hostHeader, service) && StreamSays(c, spelled, path, hostHeader, service)
    ensures b.transport == c.transport && SameAt(b.out, c.out, "transport")
  {
    hide TransportSays, BlockSays;
    TransportOnce(b.transport, c.transport, spelled);
    if "transport" in b.out {
      BlockOnce(b.out["transport"].fields, c.out["transport"].fields, b.transport, path, hostHeader, service);
    }
  }

  lemma HeaderOnce(b: Built, c: Built, kind: string)
    requires HeaderSays(b, kind) && HeaderSays(c, kind) && b.host == c.host && b.port == c.port
    ensures SameAt(b.out, c.out, "type") && SameAt(b.out, c.out, "server") && SameAt(b.out, c.out, "server_port")
  {
  }

  // ---- the protocols ----

  lemma VlessOnce(userinfo: string, q: Lookup, b: Built, c: Built)
    requires VlessSays(userinfo, q, b) && VlessSays(userinfo, q, c) && b.host == c.host && b.port == c.port
    ensures b == c
  {
    hide Raw, Decoded, HeaderSays, FullTlsSays, StreamSays;
    HeaderOnce(b, c, "vless");
    StreamOnce(b, c, Decoded(q, "type"), Raw(q, "path"), Raw(q, "host"), Raw(q, "serviceName"));
    if "tls" in b.out {
      FullTlsOnce(b.out["tls"].fields, c.out["tls"].fields, q, b.host, Decoded(q, "security") == "reality");
    }
    assert SameAt(b.out, c.out, "tls") && SameAt(b.out, c.out, "uuid");
    assert SameAt(b.out, c.out, "flow") && SameAt(b.out, c.out, "packet_encoding");
    SameFields(b.out, c.out, {"type", "server", "server_port", "uuid", "flow", "packet_encoding", "tls", "transport"});
  }

  lemma TrojanOnce(userinfo: string, q: Lookup, b: Built, c: Built)
    requires TrojanSays(userinfo, q, b) && TrojanSays(userinfo, q, c) && b.host == c.host && b.port == c.port
    ensures b == c
  {
    hide Raw, Decoded, HeaderSays, FullTlsSays, StreamSays, UnescapeOrRaw;
    HeaderOnce(b, c, "trojan");
    StreamOnce(b, c, Decoded(q, "type"), Raw(q, "path"), Raw(q, "host"), Raw(q, "serviceName"));
    if "tls" in b.out {
      FullTlsOnce(b.out["tls"].fields, c.out["tls"].fields, q, b.host, false);
    }
    assert SameAt(b.out, c.out, "tls") && SameAt(b.out, c.out, "password");
    SameFields(b.out, c.out, {"type", "server", "server_port", "password", "tls", "transport"});
  }

  lemma Hysteria2Once(userinfo: string, q: Lookup, b: Built, c: Built)
    requires Hysteria2Says(userinfo, q, b) && Hysteria2Says(userinfo, q, c) && b.host == c.host && b.port == c.port
    ensures b == c
  {
    hide Raw, Decoded, HeaderSays, PlainTlsSays, UnescapeOrRaw, AtoiOr, OrElse;
    HeaderOnce(b, c, "hysteria2");
    PlainTlsOnce(b.out["tls"], c.out["tls"], q, OrElse(Decoded(q, "sni"), b.host), None);
    assert SameAt(b.out, c.out, "tls") && SameAt(b.out, c.out, "password") && SameAt(b.out, c.out, "obfs");
    assert SameAt(b.out, c.out, "up_mbps") && SameAt(b.out, c.out, "down_mbps");
    SameFields(b.out, c.out, {"type", "server", "server_port", "password", "tls", "obfs", "up_mbps", "down_mbps"});
  }

  lemma SocksOnce(scheme: string, userinfo: string, b: Built, c: Built)
    requires SocksSays(scheme, userinfo, b) && SocksSays(scheme, userinfo, c) && b.host == c.host && b.port == c.port
    ensures b == c
  {
    hide HeaderSays, UnescapeOrRaw, Cut;
    HeaderOnce(b, c, "socks");
    assert SameAt(b.out, c.out, "version") && SameAt(b.out, c.out, "username") && SameAt(b.out, c.out, "password");
    SameFields(b.out, c.out, {"type", "server", "server_port", "version", "username", "password"});
  }

  lemma AnyTLSOnce(userinfo: string, q: Lookup, b: Built, c: Built)
    requires AnyTLSSays(userinfo, q, b) && AnyTLSSays(userinfo, q, c) && b.host == c.host && b.port == c.port
    ensures b == c
  {
    hide Raw, Decoded, HeaderSays, PlainTlsSays, UnescapeOrRaw, OrElse;
    HeaderOnce(b, c, "anytls");
    if "tls" in b.out {
      PlainTlsOnce(b.out["tls"], c.out["tls"], q, OrElse(Decoded(q, "sni"), b.host), None);
    }
    assert SameAt(b.out, c.out, "tls") && SameAt(b.out, c.out, "password");
    SameFields(b.out, c.out, {"type", "server", "server_port", "password", "tls"});
  }

  lemma TUICOnce(userinfo: string, q: Lookup, b: Built, c: Built)
    requires TUICSays(userinfo, q, b) && TUICSays(userinfo, q, c) && b.host == c.host && b.port == c.port
    ensures b == c
  {
    hide Raw, Decoded, HeaderSays, PlainTlsSays, OrElse, Cut;
    HeaderOnce(b, c, "tuic");
    PlainTlsOnce(b.out["tls"], c.out["tls"], q, OrElse(Decoded(q, "sni"), b.host), Some(H3));
    assert SameAt(b.out, c.out, "tls") && SameAt(b.out, c.out, "password") && SameAt(b.out, c.out, "uuid");
    assert SameAt(b.out, c.out, "congestion_control");
    SameFields(b.out, c.out, {"type", "server", "server_port", "uuid", "password", "congestion_control", "tls"});
  }

  lemma HysteriaOnce(userinfo: string, q: Lookup, b: Built, c: Built)
    requires HysteriaSays(userinfo, q, b) && HysteriaSays(userinfo, q, c) && b.host == c.host && b.port == c.port
    ensures b == c
  {
    hide Raw, Decoded, HeaderSays, PlainTlsSays, OrElse, UnescapeOrRaw, AtoiOr;
    HeaderOnce(b, c, "hysteria");
    PlainTlsOnce(b.out["tls"], c.out["tls"], q, OrElse(Decoded(q, "peer"), OrElse(Decoded(q, "sni"), b.host)), Some(H3));
    assert SameAt(b.out, c.out, "tls") && SameAt(b.out, c.out, "auth");
    assert SameAt(b.out, c.out, "up_mbps") && SameAt(b.out, c.out, "down_mbps");
    SameFields(b.out, c.out, {"type", "server", "server_port", "auth", "up_mbps", "down_mbps", "tls"});
  }

  lemma ShadowsocksOnce(ui: string, b: Built, c: Built)
    requires ShadowsocksSays(ui, b) && ShadowsocksSays(ui, c) && b.host == c.host && b.port == c.port
    ensures b == c
  {
    hide HeaderSays, SecretSays;
    HeaderOnce(b, c, "shadowsocks");
    var s: (string, string) :| SecretSays(ui, s) && Field(b.out, "method", true, Str(s.0)) && Field(b.out, "password", true, Str(s.1));
    var t: (string, string) :| SecretSays(ui, t) && Field(c.out, "method", true, Str(t.0)) && Field(c.out, "password", true, Str(t.1));
    SecretOnce(ui, s, t);
    assert s == t;
    FieldOnce(b.out, c.out, "method", true, Str(s.0));
    FieldOnce(b.out, c.out, "password", true, Str(s.1));
    SameFields(b.out, c.out, {"type", "server", "server_port", "method", "password"});
  }

  // ---- the node ----

  lemma FieldsOnce(scheme: string, userinfo: string, q: Lookup, p: string, b: Built, r: string, c: Built)
    requires FieldsSay(scheme, userinfo, q, p, b) && FieldsSay(scheme, userinfo, q, r, c)
    requires b.host == c.host && b.port == c.port
    ensures p == r && b == c
  {
    hide VlessSays, TrojanSays, Hysteria2Says, SocksSays, AnyTLSSays, TUICSays, HysteriaSays, ShadowsocksSays;
    if scheme == "vless" {
      VlessOnce(userinfo, q, b, c);
    } else if scheme in {"ss", "shadowsocks"} {
      ShadowsocksOnce(userinfo, b, c);
    } else if scheme == "trojan" {
      TrojanOnce(userinfo, q, b, c);
    } else if scheme in {"hysteria2", "hy2"} {
      Hysteria2Once(userinfo, q, b, c);
    } else if scheme in {"socks", "socks5", "socks4"} {
      SocksOnce(scheme, userinfo, b, c);
    } else if scheme == "anytls" {
      AnyTLSOnce(userinfo, q, b, c);
    } else if scheme == "tuic" {
      TUICOnce(userinfo, q, b, c);
    } else {
      HysteriaOnce(userinfo, q, b, c);
    }
  }

  lemma HostOnce(text: string, a: string, b: string)
    requires HostSays(text, a) && HostSays(text, b)
    ensures a == b
  {
    if Bracketed(text) {
      assert a == text[1..|text| - 1] == b;
    } else if HasSuffix(text, "]") {
      assert a == text[..|text| - 1] == b;
    }
  }

  /** Whatever a node says that says what the link says, it says it all: two such nodes have one protocol,
      transport, host, port and outbound. So the description pins down every field. */
  lemma NodeOnce(l: Link, m: Node, n: Node)
    requires NodeSays(l, m) && NodeSays(l, n)
    ensures m.protocol == n.protocol && m.transport == n.transport && m.host == n.host && m.port == n.port
    ensures m.outbound == n.outbound
  {
    hide FieldsSay, HostSays, Spells, LookupOf;
    HostOnce(l.host, m.host, n.host);
    PortOnce(l.scheme, l.port, m.port, n.port);
    var b := Built(m.transport, m.host, m.port, m.outbound.fields - {"tag"});
    var c := Built(n.transport, n.host, n.port, n.outbound.fields - {"tag"});
    FieldsOnce(l.scheme, l.userinfo, LookupOf(l), m.protocol, b, n.protocol, c);
    var f, g := m.outbound.fields, n.outbound.fields;
    assert f == (f - {"tag"})["tag" := Str("probe")] && g == (g - {"tag"})["tag" := Str("probe")];
  }

  lemma PortOnce(scheme: string, text: string, a: int, b: int)
    requires PortSays(scheme, text, a) && PortSays(scheme, text, b)
    ensures a == b
  {
    hide DecimalValue;
  }
}
