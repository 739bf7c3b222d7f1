/** What an outbound says, field by field, in terms of the link it was parsed from. */
module Meaning {
  import opened Basics
  import opened Strings
  import opened Base64
  import opened Links
  import opened Url
  import opened ShareLink
  import opened Dedup

  // ---- fields ----

  /** The field is there exactly when it should be, and then has this value. */
  predicate Field(out: Fields, k: string, present: bool, v: Json) {
    (k in out <==> present) && (present ==> out[k] == v)
  }

  function OrElse(a: string, b: string): string {
    if a != "" then a else b
  }

  /** The list of the comma-separated parts of a text. */
  predicate ListOf(j: Json, text: string) {
    && j.Arr? && (forall e <- j.items :: e.Str?)
    && var parts := seq(|j.items|, i requires 0 <= i < |j.items| => (if j.items[i].Str? then j.items[i].s else ""));
    parts != [] && Join(parts, ',') == text && forall p <- parts :: ',' !in p
  }

  // ---- TLS ----

  predicate TlsSays(tls: Fields, q: Lookup, name: string) {
    && Field(tls, "enabled", true, Bool(true)) && Field(tls, "server_name", true, Str(name))
    && Field(tls, "insecure",
             Raw(q, "insecure") in {"1", "true"} || Raw(q, "allowInsecure") in {"1", "true"}, Bool(true))
  }

  predicate AlpnSays(tls: Fields, alpn: string) {
    ("alpn" in tls <==> alpn != "") && (alpn != "" ==> ListOf(tls["alpn"], alpn))
  }

  predicate RealitySays(reality: Fields, q: Lookup) {
    && reality.Keys <= {"enabled", "public_key", "short_id"}
    && Field(reality, "enabled", true, Bool(true))
    && Field(reality, "public_key", "pbk" in q, Str(Raw(q, "pbk")))
    && Field(reality, "short_id", "sid" in q, Str(Raw(q, "sid")))
  }

  /** The TLS block of vless and trojan. */
  predicate FullTlsSays(tls: Fields, q: Lookup, host: string, reality: bool) {
    && tls.Keys <= {"enabled", "server_name", "insecure", "alpn", "utls", "reality"}
    && TlsSays(tls, q, OrElse(Decoded(q, "sni"), OrElse(Decoded(q, "host"), host)))
    && AlpnSays(tls, Decoded(q, "alpn"))
    && Field(tls, "utls", Decoded(q, "fp") != "",
             Obj(map["enabled" := Bool(true), "fingerprint" := Str(Decoded(q, "fp"))]))
    && ("reality" in tls <==> reality)
    && (reality ==> tls["reality"].Obj? && RealitySays(tls["reality"].fields, q))
  }

  lemma FirstOr(a: string, rest: seq<string>)
    ensures FirstNonEmpty([a] + rest) == OrElse(a, FirstNonEmpty(rest))
  {
    assert ([a] + rest)[1..] == rest;
  }

  lemma NamesInOrder(a: string, b: string, c: string)
    ensures FirstNonEmpty([a, b]) == OrElse(a, b)
    ensures FirstNonEmpty([a, b, c]) == OrElse(a, OrElse(b, c))
  {
    FirstOr(c, []);
    FirstOr(b, []);
    FirstOr(b, [c]);
    FirstOr(a, [b]);
    FirstOr(a, [b, c]);
    assert [c] + [] == [c] && [b] + [] == [b] && [b] + [c] == [b, c];
    assert [a] + [b] == [a, b] && [a] + [b, c] == [a, b, c];
    hide FirstNonEmpty;
  }

  lemma TlsBaseSays(q: Lookup, name: string)
    ensures TlsSays(TlsBase(q, name), q, name)
    ensures TlsBase(q, name).Keys <= {"enabled", "server_name", "insecure"}
  {
    hide Raw;
    assert "enabled" != "server_name" && "enabled" != "insecure" && "server_name" != "insecure";
  }

  lemma StrArrLists(text: string)
    ensures ListOf(StrArr(Split(text, ',')), text)
  {
    JoinOfSplit(text, ',');
    var parts := Split(text, ',');
    var items := StrArr(parts).items;
    assert seq(|items|, i requires 0 <= i < |items| => (if items[i].Str? then items[i].s else "")) == parts;
  }

  lemma TlsFullSays(q: Lookup, host: string)
    ensures FullTlsSays(TlsFull(q, host), q, host, false)
  {
    var name := OrElse(Decoded(q, "sni"), OrElse(Decoded(q, "host"), host));
    NamesInOrder(Decoded(q, "sni"), Decoded(q, "host"), host);
    TlsBaseSays(q, name);
    StrArrLists(Decoded(q, "alpn"));
    hide TlsBase, FirstNonEmpty, OrElse, Decoded, Raw, StrArr, ListOf;
  }

  // ---- transport ----

  /** The transport that a spelling stands for. */
  predicate TransportSays(transport: string, spelled: string) {
    var t := ToLower(spelled);
    && (transport == "ws" <==> t in {"ws", "websocket"})
    && (transport == "grpc" <==> t == "grpc")
    && (transport == "quic" <==> t == "quic")
    && (transport == "httpupgrade" <==> t == "httpupgrade")
    && (transport == "xhttp" <==> t in {"xhttp", "splithttp"})
    && (transport == "http" <==> t in {"http", "h2", "http2"})
    && (transport == "kcp" <==> t == "kcp")
    && transport in {"ws", "grpc", "quic", "httpupgrade", "xhttp", "http", "kcp", "tcp"}
  }

  predicate BlockSays(block: Fields, kind: string, path: string, hostHeader: string, service: string) {
    && block.Keys <= {"type", "path", "service_name", "headers", "host"}
    && Field(block, "type", true, Str(kind))
    && Field(block, "path", kind != "grpc" && path != "", Str(path))
    && Field(block, "service_name", kind == "grpc" && service != "", Str(service))
    && Field(block, "headers", kind == "ws" && hostHeader != "", Obj(map["Host" := Str(hostHeader)]))
    && Field(block, "host", kind in {"httpupgrade", "xhttp", "http"} && hostHeader != "",
             if kind == "http" then Arr([Str(hostHeader)]) else Str(hostHeader))
  }

  /** The transport of the node, and the block for it unless it needs none. */
  predicate StreamSays(b: Built, spelled: string, path: string, hostHeader: string, service: string) {
    && TransportSays(b.transport, spelled)
    && ("transport" in b.out <==> b.transport !in {"tcp", "quic", "kcp"})
    && ("transport" in b.out ==>
          b.out["transport"].Obj? && BlockSays(b.out["transport"].fields, b.transport, path, hostHeader, service))
  }

  lemma MapTransportSays(spelled: string)
    ensures TransportSays(MapTransport(spelled), spelled)
  {
  }

  predicate BlockIs(block: Option<Json>, kind: string, path: string, hostHeader: string, service: string) {
    && (block.Some? <==> kind !in {"tcp", "quic", "kcp"})
    && (block.Some? ==> block.value.Obj? && BlockSays(block.value.fields, kind, path, hostHeader, service))
  }

  lemma TransportBlockSays(kind: string, path: string, hostHeader: string, service: string)
    requires kind in {"ws", "grpc", "quic", "httpupgrade", "xhttp", "http", "kcp", "tcp"}
    ensures BlockIs(TransportBlock(kind, path, hostHeader, service), kind, path, hostHeader, service)
  {
  }

  // ---- credentials ----

  /** The text up to its first colon and the text behind it. */
  predicate Parted(text: string, left: string, right: string) {
    if ':' in text then text == left + ":" + right && ':' !in left else left == text && right == ""
  }

  /** Base64 of method and password. */
  predicate SecretEncoded(ui: string, secret: (string, string)) {
    && B64Decode(ui).Some? && B64Decode(ui).value == secret.0 + ":" + secret.1
    && secret.0 != "" && ':' !in secret.0
  }

  /** Method and password, encoded or plain; without a colon there is no method. */
  ghost predicate SecretSays(ui: string, secret: (string, string)) {
    || SecretEncoded(ui, secret)
    || ((forall other :: !SecretEncoded(ui, other)) &&
        if ':' in ui then Parted(ui, secret.0, secret.1) else secret == ("", ui))
  }

  function UserOf(ui: string): string { Cut(ui, ':').0 }

  function PassOf(ui: string): string { Cut(ui, ':').1 }

  lemma CutParts(s: string)
    ensures Parted(s, Cut(s, ':').0, Cut(s, ':').1) && (Cut(s, ':').2 <==> ':' in s)
  {
  }

  lemma PartedIs(text: string, a: string, b: string)
    requires Parted(text, a, b)
    ensures (a, b) == if ':' in text then (text[..IndexByte(text, ':')], text[IndexByte(text, ':') + 1..]) else (text, "")
  {
    if ':' in text {
      assert text[..|a|] == a && text[|a|] == ':' && text[|a| + 1..] == b;
      IndexByteIs(text, ':', |a|);
    }
  }

  lemma PartedOnce(text: string, a: string, b: string, c: string, d: string)
    requires Parted(text, a, b) && Parted(text, c, d)
    ensures a == c && b == d
  {
    PartedIs(text, a, b);
    PartedIs(text, c, d);
  }

  lemma SecretOnce(ui: string, a: (string, string), b: (string, string))
    requires SecretSays(ui, a) && SecretSays(ui, b)
    ensures a == b
  {
    hide B64Decode;
    if SecretEncoded(ui, a) {
      assert SecretEncoded(ui, b);
      PartedOnce(B64Decode(ui).value, a.0, a.1, b.0, b.1);
    } else if ':' in ui {
      PartedOnce(ui, a.0, a.1, b.0, b.1);
    }
  }

  lemma EncodedIsCut(ui: string, dec: string, secret: (string, string))
    requires B64Decode(ui) == Some(dec)
    ensures SecretEncoded(ui, secret) <==> ':' in dec && secret.0 != "" && secret == (Cut(dec, ':').0, Cut(dec, ':').1)
  {
    hide B64Decode, Cut, IndexByte;
    CutParts(dec);
    if SecretEncoded(ui, secret) {
      assert ':' in dec;
      PartedOnce(dec, secret.0, secret.1, Cut(dec, ':').0, Cut(dec, ':').1);
    }
  }

  lemma SplitSecretSays(ui: string)
    ensures SecretSays(ui, SplitSecret(ui))
  {
    hide B64Decode, Cut;
    CutParts(ui);
    if B64Decode(ui).Some? {
      var dec := B64Decode(ui).value;
      CutParts(dec);
      forall other: (string, string)
        ensures SecretEncoded(ui, other) <==> ':' in dec && other.0 != "" && other == (Cut(dec, ':').0, Cut(dec, ':').1)
      {
        EncodedIsCut(ui, dec, other);
      }
    }
    hide SecretEncoded, Parted;
  }

  // ---- the protocols ----

  predicate HeaderSays(b: Built, kind: string) {
    && Field(b.out, "type", true, Str(kind)) && Field(b.out, "server", true, Str(b.host))
    && Field(b.out, "server_port", true, Num(b.port))
  }

  /** A TLS block without the fields of the shared one. */
  predicate PlainTlsSays(tls: Json, q: Lookup, name: string, alpn: Option<Json>) {
    && tls.Obj? && tls.fields.Keys <= {"enabled", "server_name", "insecure", "alpn"}
    && TlsSays(tls.fields, q, name)
    && ("alpn" in tls.fields <==> alpn.Some?) && (alpn.Some? ==> tls.fields["alpn"] == alpn.value)
  }

  predicate VlessSays(userinfo: string, q: Lookup, b: Built) {
    var security := Decoded(q, "security");
    && HeaderSays(b, "vless")
    && b.out.Keys <= {"type", "server", "server_port", "uuid", "flow", "packet_encoding", "tls", "transport"}
    && Field(b.out, "uuid", true, Str(userinfo))
    && Field(b.out, "flow", Raw(q, "flow") != "", Str(Raw(q, "flow")))
    && Field(b.out, "packet_encoding", Decoded(q, "packetEncoding") == "xudp", Str("xudp"))
    && ("tls" in b.out <==> security == "tls" || security == "reality")
    && ("tls" in b.out ==> b.out["tls"].Obj? && FullTlsSays(b.out["tls"].fields, q, b.host, security == "reality"))
    && StreamSays(b, Decoded(q, "type"), Raw(q, "path"), Raw(q, "host"), Raw(q, "serviceName"))
  }

  predicate TrojanSays(userinfo: string, q: Lookup, b: Built) {
    && HeaderSays(b, "trojan")
    && b.out.Keys <= {"type", "server", "server_port", "password", "tls", "transport"}
    && Field(b.out, "password", true, Str(UnescapeOrRaw(userinfo)))
    && ("tls" in b.out <==> Decoded(q, "security") != "none")
    && ("tls" in b.out ==> b.out["tls"].Obj? && FullTlsSays(b.out["tls"].fields, q, b.host, false))
    && StreamSays(b, Decoded(q, "type"), Raw(q, "path"), Raw(q, "host"), Raw(q, "serviceName"))
  }

  predicate Hysteria2Says(userinfo: string, q: Lookup, b: Built) {
    && HeaderSays(b, "hysteria2") && b.transport == "quic"
    && b.out.Keys <= {"type", "server", "server_port", "password", "tls", "obfs", "up_mbps", "down_mbps"}
    && Field(b.out, "password", true, Str(UnescapeOrRaw(userinfo)))
    && "tls" in b.out && PlainTlsSays(b.out["tls"], q, OrElse(Decoded(q, "sni"), b.host), None)
    && Field(b.out, "obfs", Decoded(q, "obfs-password") != "",
             Obj(map["type" := Str("salamander"), "password" := Str(Decoded(q, "obfs-password"))]))
    && Field(b.out, "up_mbps", AtoiOr(Decoded(q, "upmbps"), 0) > 0, Num(AtoiOr(Decoded(q, "upmbps"), 0)))
    && Field(b.out, "down_mbps", AtoiOr(Decoded(q, "downmbps"), 0) > 0, Num(AtoiOr(Decoded(q, "downmbps"), 0)))
  }

  predicate SocksSays(scheme: string, userinfo: string, b: Built) {
    && HeaderSays(b, "socks") && b.transport == "tcp"
    && b.out.Keys <= {"type", "server", "server_port", "version", "username", "password"}
    && Field(b.out, "version", true, Str(if scheme == "socks4" then "4" else "5"))
    && Field(b.out, "username", userinfo != "", Str(UserOf(UnescapeOrRaw(userinfo))))
    && Field(b.out, "password", userinfo != "" && ':' in UnescapeOrRaw(userinfo), Str(PassOf(UnescapeOrRaw(userinfo))))
  }

  predicate AnyTLSSays(userinfo: string, q: Lookup, b: Built) {
    && HeaderSays(b, "anytls") && b.transport == "tcp"
    && b.out.Keys <= {"type", "server", "server_port", "password", "tls"}
    && Field(b.out, "password", true, Str(UnescapeOrRaw(userinfo)))
    && ("tls" in b.out <==> Decoded(q, "security") != "none")
    && ("tls" in b.out ==> PlainTlsSays(b.out["tls"], q, OrElse(Decoded(q, "sni"), b.host), None))
  }

  const H3 := Arr([Str("h3")])

  /** User and password come from the query first and from the userinfo, as it stands, second. */
  predicate TUICSays(userinfo: string, q: Lookup, b: Built) {
    && HeaderSays(b, "tuic") && b.transport == "quic"
    && b.out.Keys <= {"type", "server", "server_port", "uuid", "password", "congestion_control", "tls"}
    && OrElse(Decoded(q, "uuid"), UserOf(userinfo)) != ""
    && Field(b.out, "uuid", true, Str(OrElse(Decoded(q, "uuid"), UserOf(userinfo))))
    && Field(b.out, "password", true, Str(OrElse(Decoded(q, "password"), PassOf(userinfo))))
    && Field(b.out, "congestion_control", true, Str(OrElse(Decoded(q, "congestion_control"), "bbr")))
    && "tls" in b.out && PlainTlsSays(b.out["tls"], q, OrElse(Decoded(q, "sni"), b.host), Some(H3))
  }

  predicate HysteriaSays(userinfo: string, q: Lookup, b: Built) {
    && HeaderSays(b, "hysteria") && b.transport == "quic"
    && b.out.Keys <= {"type", "server", "server_port", "auth", "up_mbps", "down_mbps", "tls"}
    && Field(b.out, "auth", true, Str(OrElse(Decoded(q, "auth"), UnescapeOrRaw(userinfo))))
    && Field(b.out, "up_mbps", true, Num(AtoiOr(Decoded(q, "upmbps"), 100)))
    && Field(b.out, "down_mbps", true, Num(AtoiOr(Decoded(q, "downmbps"), 100)))
    && "tls" in b.out
    && PlainTlsSays(b.out["tls"], q, OrElse(Decoded(q, "peer"), OrElse(Decoded(q, "sni"), b.host)), Some(H3))
  }

  /** Neither method nor password is empty. */
  ghost predicate ShadowsocksSays(ui: string, b: Built) {
    && HeaderSays(b, "shadowsocks") && b.transport == "tcp"
    && b.out.Keys <= {"type", "server", "server_port", "method", "password"}
    && exists secret: (string, string) ::
         && SecretSays(ui, secret) && secret.0 != "" && secret.1 != ""
         && Field(b.out, "method", true, Str(secret.0)) && Field(b.out, "password", true, Str(secret.1))
  }

  // ---- what each builder makes ----

  /** A field added under a key of its own. */
  lemma WithSays(m: Fields, present: bool, k: string, v: Json)
    requires k !in m
    ensures var out := With(m, present, k, v);
            && Field(out, k, present, v) && out.Keys == m.Keys + (if present then {k} else {})
            && forall j :: j in m ==> j in out && out[j] == m[j]
  {
  }

  function RealityOf(q: Lookup): Fields {
    With(With(map["enabled" := Bool(true)], "pbk" in q, "public_key", Str(Raw(q, "pbk"))),
         "sid" in q, "short_id", Str(Raw(q, "sid")))
  }

  lemma RealityMeans(q: Lookup)
    ensures RealitySays(RealityOf(q), q)
  {
    hide Raw;
    assert "enabled" != "public_key" && "enabled" != "short_id" && "public_key" != "short_id";
  }

  lemma RealityTlsSays(tls: Fields, q: Lookup, host: string, reality: bool)
    requires FullTlsSays(tls, q, host, false)
    ensures FullTlsSays(With(tls, reality, "reality", Obj(RealityOf(q))), q, host, reality)
  {
    RealityMeans(q);
    hide RealityOf, RealitySays, Raw, Decoded, OrElse, ListOf;
  }

  /** Header and credential, with the optional fields of vless and trojan behind them. */
  function Chain(o1: Fields, flow: bool, f: Json, xudp: bool, x: Json, secure: bool, tls: Json, block: Option<Json>): Fields {
    WithTransport(With(With(With(o1, flow, "flow", f), xudp, "packet_encoding", x), secure, "tls", tls), block)
  }

  lemma ChainKeys(o1: Fields, k: string)
    requires o1.Keys == {"type", "server", "server_port", k} && k in {"uuid", "password"}
    ensures "flow" !in o1 && "packet_encoding" !in o1 && "tls" !in o1 && "transport" !in o1
    ensures "packet_encoding" != "flow" && "tls" !in {"flow", "packet_encoding"}
    ensures "transport" !in {"flow", "packet_encoding", "tls"}
  {
  }

  lemma TransportAdded(m: Fields, block: Option<Json>)
    requires "transport" !in m
    ensures var out := WithTransport(m, block);
            && ("transport" in out <==> block.Some?) && (block.Some? ==> out["transport"] == block.value)
            && out.Keys == m.Keys + (if block.Some? then {"transport"} else {})
            && forall j :: j in m ==> j in out && out[j] == m[j]
  {
  }

  lemma TwoAdded(m: Fields, p: bool, k: string, v: Json, p': bool, k': string, v': Json)
    requires k !in m && k' !in m && k' != k
    ensures var out := With(With(m, p, k, v), p', k', v');
            && Field(out, k, p, v) && Field(out, k', p', v')
            && out.Keys <= m.Keys + {k, k'} && forall j :: j in m ==> j in out && out[j] == m[j]
  {
  }

  lemma ChainSays(
      o1: Fields, k: string, flow: bool, f: Json, xudp: bool, x: Json, secure: bool, tls: Json, block: Option<Json>)
    requires o1.Keys == {"type", "server", "server_port", k} && k in {"uuid", "password"}
    ensures var out := Chain(o1, flow, f, xudp, x, secure, tls, block);
            && Field(out, "flow", flow, f) && Field(out, "packet_encoding", xudp, x) && Field(out, "tls", secure, tls)
            && ("transport" in out <==> block.Some?) && (block.Some? ==> out["transport"] == block.value)
            && out.Keys <= o1.Keys + {"flow", "packet_encoding", "tls", "transport"}
            && forall j :: j in o1 ==> j in out && out[j] == o1[j]
  {
    ChainKeys(o1, k);
    FourAdded(o1, "flow", flow, f, "packet_encoding", xudp, x, "tls", secure, tls, block);
  }

  lemma FourAdded(m: Fields, a: string, p: bool, v: Json, b: string, q: bool, w: Json, c: string, r: bool, x: Json, block: Option<Json>)
    requires a !in m && b !in m && c !in m && "transport" !in m && a != b && a != c && b != c
    requires "transport" !in {a, b, c}
    ensures var out := WithTransport(With(With(With(m, p, a, v), q, b, w), r, c, x), block);
            && Field(out, a, p, v) && Field(out, b, q, w) && Field(out, c, r, x)
            && ("transport" in out <==> block.Some?) && (block.Some? ==> out["transport"] == block.value)
            && out.Keys <= m.Keys + {a, b, c, "transport"}
            && forall j :: j in m ==> j in out && out[j] == m[j]
  {
    hide With, WithTransport;
    TwoAdded(m, p, a, v, q, b, w);
    var o3 := With(With(m, p, a, v), q, b, w);
    WithSays(o3, r, c, x);
    TransportAdded(With(o3, r, c, x), block);
  }

  lemma StartSays(kind: string, host: string, port: int, k: string, v: Json)
    requires k !in {"type", "server", "server_port"}
    ensures var o1 := Header(kind, host, port)[k := v];
            && HeaderSays(Built("", host, port, o1), kind) && Field(o1, k, true, v)
            && o1.Keys == {"type", "server", "server_port", k}
  {
    assert "type" != "server" && "type" != "server_port" && "server" != "server_port";
  }

  /** What start, TLS and transport have in common for vless and trojan. */
  lemma StreamedSays(
      kind: string, k: string, v: Json, o1: Fields, b: Built, flow: bool, f: Json, xudp: bool, x: Json, secure: bool,
      tls: Json, spelled: string, path: string, hostHeader: string, service: string)
    requires HeaderSays(Built("", b.host, b.port, o1), kind) && Field(o1, k, true, v)
    requires o1.Keys == {"type", "server", "server_port", k} && k in {"uuid", "password"}
    requires b.transport == MapTransport(spelled)
    requires b.out == Chain(o1, flow, f, xudp, x, secure, tls, TransportBlock(b.transport, path, hostHeader, service))
    ensures HeaderSays(b, kind) && Field(b.out, k, true, v)
    ensures Field(b.out, "flow", flow, f) && Field(b.out, "packet_encoding", xudp, x) && Field(b.out, "tls", secure, tls)
    ensures b.out.Keys <= {"type", "server", "server_port", k, "flow", "packet_encoding", "tls", "transport"}
    ensures StreamSays(b, spelled, path, hostHeader, service)
  {
    hide Chain, MapTransport, TransportBlock, BlockSays, TransportSays;
    MapTransportSays(spelled);
    SaidKinds(b.transport, spelled);
    TransportBlockSays(b.transport, path, hostHeader, service);
    ChainSays(o1, k, flow, f, xudp, x, secure, tls, TransportBlock(b.transport, path, hostHeader, service));
  }

  lemma SaidKinds(kind: string, spelled: string)
    requires TransportSays(kind, spelled)
    ensures kind in {"ws", "grpc", "quic", "httpupgrade", "xhttp", "http", "kcp", "tcp"}
  {
  }

  lemma VlessChain(userinfo: string, q: Lookup, host: string, port: int)
    ensures var security := Decoded(q, "security");
            BuildVless(userinfo, q, host, port).out ==
            Chain(Header("vless", host, port)["uuid" := Str(userinfo)], Raw(q, "flow") != "", Str(Raw(q, "flow")),
                  Decoded(q, "packetEncoding") == "xudp", Str("xudp"), security == "tls" || security == "reality",
                  Obj(With(TlsFull(q, host), security == "reality", "reality", Obj(RealityOf(q)))),
                  QueryTransport(MapTransport(Decoded(q, "type")), q))
  {
    hide TlsFull, Decoded, Raw, MapTransport, TransportBlock, Header;
  }

  lemma VlessMeans(userinfo: string, q: Lookup, host: string, port: int)
    ensures VlessSays(userinfo, q, BuildVless(userinfo, q, host, port))
  {
    hide BuildVless, TlsFull, Decoded, Raw, MapTransport, TransportBlock, FullTlsSays, Header, HeaderSays, StreamSays,
         Chain, With, Field;
    var b := BuildVless(userinfo, q, host, port);
    var security := Decoded(q, "security");
    var tls := With(TlsFull(q, host), security == "reality", "reality", Obj(RealityOf(q)));
    TlsFullSays(q, host);
    RealityTlsSays(TlsFull(q, host), q, host, security == "reality");
    VlessChain(userinfo, q, host, port);
    VlessBuilt(userinfo, q, host, port);
    assert "uuid" !in {"type", "server", "server_port"};
    StartSays("vless", host, port, "uuid", Str(userinfo));
    StreamedSays("vless", "uuid", Str(userinfo), Header("vless", host, port)["uuid" := Str(userinfo)], b,
                 Raw(q, "flow") != "", Str(Raw(q, "flow")), Decoded(q, "packetEncoding") == "xudp", Str("xudp"),
                 security == "tls" || security == "reality", Obj(tls),
                 Decoded(q, "type"), Raw(q, "path"), Raw(q, "host"), Raw(q, "serviceName"));
    FieldHas(b.out, "tls", security == "tls" || security == "reality", Obj(tls));
  }

  lemma FieldHas(out: Fields, k: string, present: bool, v: Json)
    requires Field(out, k, present, v)
    ensures (k in out <==> present) && (present ==> out[k] == v)
  {
  }

  lemma VlessBuilt(userinfo: string, q: Lookup, host: string, port: int)
    ensures var b := BuildVless(userinfo, q, host, port);
            b.transport == MapTransport(Decoded(q, "type")) && b.host == host && b.port == port
  {
  }

  lemma TrojanChain(userinfo: string, q: Lookup, host: string, port: int)
    ensures var b := BuildTrojan(userinfo, q, host, port);
            && b.transport == MapTransport(Decoded(q, "type")) && b.host == host && b.port == port
            && b.out ==
               Chain(Header("trojan", host, port)["password" := Str(UnescapeOrRaw(userinfo))], false, Str(""), false, Str(""),
                     Decoded(q, "security") != "none", Obj(TlsFull(q, host)),
                     QueryTransport(MapTransport(Decoded(q, "type")), q))
  {
    hide TlsFull, Decoded, Raw, MapTransport, TransportBlock, Header, UnescapeOrRaw;
  }

  lemma TrojanMeans(userinfo: string, q: Lookup, host: string, port: int)
    ensures TrojanSays(userinfo, q, BuildTrojan(userinfo, q, host, port))
  {
    hide BuildTrojan, TlsFull, Decoded, Raw, MapTransport, TransportBlock, FullTlsSays, Header, HeaderSays, StreamSays,
         Chain, With, UnescapeOrRaw;
    var b := BuildTrojan(userinfo, q, host, port);
    TlsFullSays(q, host);
    TrojanChain(userinfo, q, host, port);
    assert "password" !in {"type", "server", "server_port"};
    StartSays("trojan", host, port, "password", Str(UnescapeOrRaw(userinfo)));
    StreamedSays("trojan", "password", Str(UnescapeOrRaw(userinfo)),
                 Header("trojan", host, port)["password" := Str(UnescapeOrRaw(userinfo))], b,
                 false, Str(""), false, Str(""), Decoded(q, "security") != "none", Obj(TlsFull(q, host)),
                 Decoded(q, "type"), Raw(q, "path"), Raw(q, "host"), Raw(q, "serviceName"));
  }

  lemma BaseTlsSays(q: Lookup, name: string)
    ensures PlainTlsSays(Obj(TlsBase(q, name)), q, name, None)
    ensures PlainTlsSays(Obj(TlsBase(q, name)["alpn" := StrArr(["h3"])]), q, name, Some(H3))
  {
    TlsBaseSays(q, name);
    assert StrArr(["h3"]) == H3;
    assert "alpn" != "enabled" && "alpn" != "server_name" && "alpn" != "insecure";
    hide TlsBase, Raw;
  }

  lemma Hysteria2Means(userinfo: string, q: Lookup, host: string, port: int)
    ensures Hysteria2Says(userinfo, q, BuildHysteria2(userinfo, q, host, port))
  {
    NamesInOrder(Decoded(q, "sni"), host, "");
    BaseTlsSays(q, OrElse(Decoded(q, "sni"), host));
    hide TlsBase, Decoded, PlainTlsSays, FirstNonEmpty, OrElse, UnescapeOrRaw, AtoiOr;
  }

  lemma SocksMeans(scheme: string, userinfo: string, host: string, port: int)
    ensures SocksSays(scheme, userinfo, BuildSocks(scheme, userinfo, host, port))
  {
    CutParts(UnescapeOrRaw(userinfo));
    hide UnescapeOrRaw, Cut;
  }

  lemma AnyTLSMeans(userinfo: string, q: Lookup, host: string, port: int)
    ensures AnyTLSSays(userinfo, q, BuildAnyTLS(userinfo, q, host, port))
  {
    NamesInOrder(Decoded(q, "sni"), host, "");
    BaseTlsSays(q, OrElse(Decoded(q, "sni"), host));
    hide TlsBase, Decoded, PlainTlsSays, FirstNonEmpty, OrElse, UnescapeOrRaw;
  }

  lemma TUICMeans(userinfo: string, q: Lookup, host: string, port: int)
    ensures BuildTUIC(userinfo, q, host, port).Ok? <==> OrElse(Decoded(q, "uuid"), UserOf(userinfo)) != ""
    ensures BuildTUIC(userinfo, q, host, port).Ok? ==> TUICSays(userinfo, q, BuildTUIC(userinfo, q, host, port).value)
  {
    NamesInOrder(Decoded(q, "uuid"), UserOf(userinfo), "");
    NamesInOrder(Decoded(q, "password"), PassOf(userinfo), "");
    NamesInOrder(Decoded(q, "congestion_control"), "bbr", "");
    NamesInOrder(Decoded(q, "sni"), host, "");
    BaseTlsSays(q, OrElse(Decoded(q, "sni"), host));
    hide TlsBase, Decoded, PlainTlsSays, FirstNonEmpty, OrElse, Cut, StrArr;
  }

  lemma HysteriaMeans(userinfo: string, q: Lookup, host: string, port: int)
    ensures HysteriaSays(userinfo, q, BuildHysteria(userinfo, q, host, port))
  {
    NamesInOrder(Decoded(q, "auth"), UnescapeOrRaw(userinfo), "");
    NamesInOrder(Decoded(q, "peer"), Decoded(q, "sni"), host);
    BaseTlsSays(q, OrElse(Decoded(q, "peer"), OrElse(Decoded(q, "sni"), host)));
    hide TlsBase, Decoded, PlainTlsSays, FirstNonEmpty, OrElse, UnescapeOrRaw, AtoiOr, StrArr;
  }

  lemma ShadowsocksMeans(ui: string, host: string, port: int)
    ensures var r := BuildShadowsocks(SplitSecret(ui), host, port);
            && (r.Ok? <==> exists secret :: SecretSays(ui, secret) && secret.0 != "" && secret.1 != "")
            && (r.Ok? ==> ShadowsocksSays(ui, r.value))
  {
    hide SecretSays, SplitSecret;
    SplitSecretSays(ui);
    forall secret | SecretSays(ui, secret) ensures secret == SplitSecret(ui) {
      SecretOnce(ui, secret, SplitSecret(ui));
    }
    var secret := SplitSecret(ui);
    if secret.0 != "" && secret.1 != "" {
      SecretBuilt(secret, host, port);
    }
  }

  lemma SecretBuilt(secret: (string, string), host: string, port: int)
    requires secret.0 != "" && secret.1 != ""
    ensures var r := BuildShadowsocks(secret, host, port);
            && r.Ok? && HeaderSays(r.value, "shadowsocks") && r.value.transport == "tcp"
            && r.value.out.Keys <= {"type", "server", "server_port", "method", "password"}
            && Field(r.value.out, "method", true, Str(secret.0)) && Field(r.value.out, "password", true, Str(secret.1))
  {
    assert "type" != "server" && "type" != "server_port" && "server" != "server_port" && "method" != "password";
    assert "method" !in {"type", "server", "server_port"} && "password" !in {"type", "server", "server_port"};
  }
}
