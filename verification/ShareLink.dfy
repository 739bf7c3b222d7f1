/** From one subscription line to a node record with its sing-box outbound
    (proxies/internal/parse/parse.go). */
module ShareLink {
  import opened Basics
  import opened Strings
  import opened Base64
  import opened Links
  import opened Url

  /** The outbound as a JSON value; `json.Marshal` prints equal values equally. */
  datatype Json =
    | Str(s: string) | Num(n: int) | Bool(b: bool)
    | Arr(items: seq<Json>) | Obj(fields: map<string, Json>)

  datatype Node = Node(uri: string, uriHash: string, protocol: string, transport: string,
                       host: string, port: int, name: string, outbound: Json)

  /** `port` is 0 when the link carries none; `host` has its brackets stripped. */
  datatype Parsed = Parsed(userinfo: string, host: string, port: int, pairs: seq<(string, string)>)

  type Lookup = map<string, string>

  // ---- query parameters ----

  function Cut(s: string, c: char): (r: (string, string, bool))
    ensures r.2 ==> s == r.0 + [c] + r.1
    ensures !r.2 ==> r.0 == s && r.1 == ""
    ensures c !in r.0
  {
    var i := IndexByte(s, c);
    if i >= 0 then (s[..i], s[i + 1..], true) else (s, "", false)
  }

  function PairOf(part: string): (string, string) {
    var (k, v, _) := Cut(part, '=');
    (k, v)
  }

  function Pairs(parts: seq<string>): (r: seq<(string, string)>)
    ensures |r| == |parts|
    ensures forall i :: 0 <= i < |parts| ==> r[i] == PairOf(parts[i])
  {
    seq(|parts|, i requires 0 <= i < |parts| => PairOf(parts[i]))
  }

  /** The loop of `parseCommon` over the raw query. */
  method CollectPairs(rawQuery: string) returns (pairs: seq<(string, string)>)
    ensures pairs == Pairs(QueryParts(rawQuery))
  {
    var parts := Split(rawQuery, '&');
    pairs := [];
    for i := 0 to |parts|
      invariant pairs == Pairs(NonEmpty(parts[..i]))
    {
      assert parts[..i + 1] == parts[..i] + [parts[i]];
      NonEmptySnoc(parts[..i], parts[i]);
      if parts[i] == "" {
        continue;
      }
      var (k, v, _) := Cut(parts[i], '=');
      pairs := pairs + [(k, v)];
    }
    assert parts[..|parts|] == parts;
  }

  /** The first pair with key `k` carries `v`. */
  ghost predicate FirstMatch(pairs: seq<(string, string)>, k: string, v: string) {
    exists i :: 0 <= i < |pairs| && pairs[i] == (k, v) && forall j :: 0 <= j < i ==> pairs[j].0 != k
  }

  /** `orderedPairs.get` */
  method Get(pairs: seq<(string, string)>, k: string) returns (r: Option<string>)
    ensures r.Some? ==> FirstMatch(pairs, k, r.value)
    ensures r.None? <==> forall p <- pairs :: p.0 != k
    ensures r == if k in FirstMatches(pairs) then Some(FirstMatches(pairs)[k]) else None
  {
    FirstMatchesAreFirst(pairs, k);
    for i := 0 to |pairs|
      invariant forall j :: 0 <= j < i ==> pairs[j].0 != k
    {
      if pairs[i].0 == k {
        assert FirstMatch(pairs, k, pairs[i].1);
        return Some(pairs[i].1);
      }
    }
    return None;
  }

  /** Everything `orderedPairs.get` can answer, as a map. */
  function FirstMatches(pairs: seq<(string, string)>): (m: Lookup)
    ensures forall k :: k in m <==> exists i :: 0 <= i < |pairs| && pairs[i].0 == k
  {
    if pairs == [] then map[]
    else
      assert pairs == [pairs[0]] + pairs[1..];
      FirstMatches(pairs[1..])[pairs[0].0 := pairs[0].1]
  }

  lemma {:induction false} FirstMatchesAreFirst(pairs: seq<(string, string)>, k: string)
    ensures forall v :: FirstMatch(pairs, k, v) <==> k in FirstMatches(pairs) && FirstMatches(pairs)[k] == v
  {
    if pairs != [] {
      var rest := pairs[1..];
      FirstMatchesAreFirst(rest, k);
      forall v ensures FirstMatch(pairs, k, v) <==> k in FirstMatches(pairs) && FirstMatches(pairs)[k] == v {
        if pairs[0].0 == k {
          assert FirstMatch(pairs, k, pairs[0].1);
        } else {
          if FirstMatch(rest, k, v) {
            var i :| 0 <= i < |rest| && rest[i] == (k, v) && forall j :: 0 <= j < i ==> rest[j].0 != k;
            assert pairs[i + 1] == (k, v);
            assert forall j :: 0 < j < i + 1 ==> pairs[j] == rest[j - 1];
          }
          if FirstMatch(pairs, k, v) {
            var i :| 0 <= i < |pairs| && pairs[i] == (k, v) && forall j :: 0 <= j < i ==> pairs[j].0 != k;
            assert rest[i - 1] == (k, v);
            assert forall j :: 0 <= j < i - 1 ==> rest[j] == pairs[j + 1];
          }
        }
      }
    }
  }

  function Raw(q: Lookup, k: string): string {
    if k in q then q[k] else ""
  }

  function UnescapeOrRaw(s: string): string {
    match QueryUnescape(s) case Some(u) => u case None => s
  }

  /** `getDecoded` */
  function Decoded(q: Lookup, k: string): string {
    UnescapeOrRaw(Raw(q, k))
  }

  predicate Insecure(q: Lookup) {
    var v, v2 := Raw(q, "insecure"), Raw(q, "allowInsecure");
    v == "1" || v == "true" || v2 == "1" || v2 == "true"
  }

  function FirstNonEmpty(vals: seq<string>): string {
    if vals == [] then "" else if vals[0] != "" then vals[0] else FirstNonEmpty(vals[1..])
  }

  // ---- the common part of a link ----

  function PortNumber(text: string): Result<int, LinkError> {
    if text == "" then Ok(0)
    else
      match Atoi(text)
      case Number(v) => if 0 < v < 65536 then Ok(v) else Err(BadPort)
      case _ => Err(BadPort)
  }

  function Unbracket(host: string): string {
    TrimPrefix(TrimSuffix(host, "]"), "[")
  }

  /** `parseCommon`, on the link text with its fragment already cut. */
  function ParseCommon(body: string): Result<Parsed, LinkError> {
    var (auth, tail) := SplitAuthority(body);
    var (_, rawQuery) := SplitPathQuery(tail);
    match SplitAuth(auth)
    case Err(e) => Err(e)
    case Ok((userinfo, host, portText)) =>
      match PortNumber(portText)
      case Err(e) => Err(e)
      case Ok(port) => Ok(Parsed(userinfo, Unbracket(host), port, Pairs(QueryParts(rawQuery))))
  }

  function FallbackPort(scheme: string, fallback: int): int {
    if scheme == "ss" then 8388
    else if scheme in {"vmess", "vless", "trojan", "hysteria2", "tuic", "hysteria", "anytls"} then 443
    else if scheme in {"socks", "socks5", "socks4"} then 1080
    else fallback
  }

  function ApplyPort(scheme: string, port: int, fallback: int): int {
    if port == 0 then FallbackPort(scheme, fallback) else port
  }

  // ---- outbounds ----

  /** What a builder settles about a node. */
  datatype Built = Built(transport: string, host: string, port: int, out: map<string, Json>)

  type Fields = map<string, Json>

  function With(m: Fields, present: bool, k: string, v: Json): Fields {
    if present then m[k := v] else m
  }

  function Header(kind: string, host: string, port: int): Fields {
    map["type" := Str(kind), "server" := Str(host), "server_port" := Num(port)]
  }

  function StrArr(parts: seq<string>): Json {
    Arr(seq(|parts|, i requires 0 <= i < |parts| => Str(parts[i])))
  }

  function MapTransport(t: string): string {
    var l := ToLower(t);
    if l in {"ws", "websocket"} then "ws"
    else if l == "grpc" then "grpc"
    else if l == "quic" then "quic"
    else if l == "httpupgrade" then "httpupgrade"
    else if l in {"xhttp", "splithttp"} then "xhttp"
    else if l in {"http", "h2", "http2"} then "http"
    else if l == "kcp" then "kcp"
    else "tcp"
  }

  function TransportBlock(transport: string, path: string, hostHeader: string, service: string): Option<Json> {
    if transport == "ws" then
      var t := With(map["type" := Str("ws")], path != "", "path", Str(path));
      Some(Obj(With(t, hostHeader != "", "headers", Obj(map["Host" := Str(hostHeader)]))))
    else if transport == "grpc" then
      Some(Obj(With(map["type" := Str("grpc")], service != "", "service_name", Str(service))))
    else if transport in {"httpupgrade", "xhttp", "splithttp"} then
      var kind := if transport == "httpupgrade" then "httpupgrade" else "xhttp";
      var t := With(map["type" := Str(kind)], path != "", "path", Str(path));
      Some(Obj(With(t, hostHeader != "", "host", Str(hostHeader))))
    else if transport in {"http", "h2"} then
      var t := With(map["type" := Str("http")], path != "", "path", Str(path));
      Some(Obj(With(t, hostHeader != "", "host", Arr([Str(hostHeader)]))))
    else None
  }

  function WithTransport(out: Fields, block: Option<Json>): Fields {
    match block case Some(t) => out["transport" := t] case None => out
  }

  /** `buildTransport`: the raw query values, not decoded. */
  function QueryTransport(transport: string, q: Lookup): Option<Json> {
    TransportBlock(transport, Raw(q, "path"), Raw(q, "host"), Raw(q, "serviceName"))
  }

  function TlsBase(q: Lookup, serverName: string): Fields {
    With(map["enabled" := Bool(true), "server_name" := Str(serverName)], Insecure(q), "insecure", Bool(true))
  }

  /** The TLS block shared by vless and trojan. */
  function TlsFull(q: Lookup, host: string): Fields {
    var base := TlsBase(q, FirstNonEmpty([Decoded(q, "sni"), Decoded(q, "host"), host]));
    var alpn, fp := Decoded(q, "alpn"), Decoded(q, "fp");
    var t := With(base, alpn != "", "alpn", StrArr(Split(alpn, ',')));
    With(t, fp != "", "utls", Obj(map["enabled" := Bool(true), "fingerprint" := Str(fp)]))
  }

  function BuildVless(userinfo: string, q: Lookup, host: string, port: int): Built {
    var security := Decoded(q, "security");
    var transport := MapTransport(Decoded(q, "type"));
    var o1 := Header("vless", host, port)["uuid" := Str(userinfo)];
    var o2 := With(o1, Raw(q, "flow") != "", "flow", Str(Raw(q, "flow")));
    var o3 := With(o2, Decoded(q, "packetEncoding") == "xudp", "packet_encoding", Str("xudp"));
    var r1: Fields := map["enabled" := Bool(true)];
    var r2 := With(r1, "pbk" in q, "public_key", Str(Raw(q, "pbk")));
    var reality := With(r2, "sid" in q, "short_id", Str(Raw(q, "sid")));
    var tls := With(TlsFull(q, host), security == "reality", "reality", Obj(reality));
    var o4 := With(o3, security == "tls" || security == "reality", "tls", Obj(tls));
    Built(transport, host, port, WithTransport(o4, QueryTransport(transport, q)))
  }

  function BuildTrojan(userinfo: string, q: Lookup, host: string, port: int): Built {
    var transport := MapTransport(Decoded(q, "type"));
    var o1 := Header("trojan", host, port)["password" := Str(UnescapeOrRaw(userinfo))];
    var o2 := With(o1, Decoded(q, "security") != "none", "tls", Obj(TlsFull(q, host)));
    Built(transport, host, port, WithTransport(o2, QueryTransport(transport, q)))
  }

  function AtoiOr(s: string, def: int): int {
    match Atoi(TrimSpace(s)) case Number(v) => v case _ => def
  }

  function BuildHysteria2(userinfo: string, q: Lookup, host: string, port: int): Built {
    var tls := TlsBase(q, FirstNonEmpty([Decoded(q, "sni"), host]));
    var obfs := Decoded(q, "obfs-password");
    var up, down := AtoiOr(Decoded(q, "upmbps"), 0), AtoiOr(Decoded(q, "downmbps"), 0);
    var o1 := Header("hysteria2", host, port)["password" := Str(UnescapeOrRaw(userinfo))]["tls" := Obj(tls)];
    var o2 := With(o1, obfs != "", "obfs", Obj(map["type" := Str("salamander"), "password" := Str(obfs)]));
    var o3 := With(o2, up > 0, "up_mbps", Num(up));
    Built("quic", host, port, With(o3, down > 0, "down_mbps", Num(down)))
  }

  function BuildSocks(scheme: string, userinfo: string, host: string, port: int): Built {
    var version := if scheme == "socks4" then "4" else "5";
    var o1 := Header("socks", host, port)["version" := Str(version)];
    if userinfo == "" then Built("tcp", host, port, o1)
    else
      var ui := UnescapeOrRaw(userinfo);
      var (u, pw, found) := Cut(ui, ':');
      Built("tcp", host, port,
            if found then o1["username" := Str(u)]["password" := Str(pw)] else o1["username" := Str(ui)])
  }

  function BuildAnyTLS(userinfo: string, q: Lookup, host: string, port: int): Built {
    var tls := TlsBase(q, FirstNonEmpty([Decoded(q, "sni"), host]));
    var o1 := Header("anytls", host, port)["password" := Str(UnescapeOrRaw(userinfo))];
    Built("tcp", host, port, With(o1, Decoded(q, "security") != "none", "tls", Obj(tls)))
  }

  function BuildTUIC(userinfo: string, q: Lookup, host: string, port: int): Result<Built, LinkError> {
    var (user, pass, _) := Cut(userinfo, ':');
    var uuid := FirstNonEmpty([Decoded(q, "uuid"), user]);
    var password := FirstNonEmpty([Decoded(q, "password"), pass]);
    if uuid == "" then Err(MissingField)
    else
      var cc := FirstNonEmpty([Decoded(q, "congestion_control"), "bbr"]);
      var tls := TlsBase(q, FirstNonEmpty([Decoded(q, "sni"), host]))["alpn" := StrArr(["h3"])];
      Ok(Built("quic", host, port,
               Header("tuic", host, port)["uuid" := Str(uuid)]["password" := Str(password)]
                 ["congestion_control" := Str(cc)]["tls" := Obj(tls)]))
  }

  function BuildHysteria(userinfo: string, q: Lookup, host: string, port: int): Built {
    var auth := FirstNonEmpty([Decoded(q, "auth"), UnescapeOrRaw(userinfo)]);
    var name := FirstNonEmpty([Decoded(q, "peer"), Decoded(q, "sni"), host]);
    var tls := TlsBase(q, name)["alpn" := StrArr(["h3"])];
    Built("quic", host, port,
          Header("hysteria", host, port)["auth" := Str(auth)]
            ["up_mbps" := Num(AtoiOr(Decoded(q, "upmbps"), 100))]
            ["down_mbps" := Num(AtoiOr(Decoded(q, "downmbps"), 100))]["tls" := Obj(tls)])
  }

  /** `splitUserInfoSecret`: base64 of method:password, or the plain form. */
  function SplitSecret(ui: string): (string, string) {
    var plain := (var (m, p, found) := Cut(ui, ':'); if found then (m, p) else ("", ui));
    match B64Decode(ui)
    case None => plain
    case Some(dec) =>
      var (m, p, found) := Cut(dec, ':');
      if found && m != "" then (m, p) else plain
  }

  function BuildShadowsocks(secret: (string, string), host: string, port: int): Result<Built, LinkError> {
    if secret.0 == "" || secret.1 == "" then Err(MissingField)
    else
      Ok(Built("tcp", host, port,
               Header("shadowsocks", host, port)["method" := Str(secret.0)]["password" := Str(secret.1)]))
  }

  /** The legacy form: everything after the scheme is base64 of method:password@host:port. */
  function BuildLegacyShadowsocks(scheme: string, body: string): Result<Built, LinkError> {
    match B64Decode(body)
    case None => Err(BadPayload)
    case Some(s) =>
      var at := LastIndexByte(s, '@');
      if at < 0 then Err(BadPayload)
      else
        match SplitAuth(s[at + 1..])
        case Err(e) => Err(e)
        case Ok((_, host, portText)) =>
          BuildShadowsocks(SplitSecret(s[..at]), Unbracket(host), ApplyPort(scheme, AtoiOr(portText, 0), 8388))
  }

  /** The builders that read the link through ParseCommon alone. */
  function BuildParsed(proto: string, scheme: string, userinfo: string, q: Lookup, host: string, port: int)
    : Result<Built, LinkError>
  {
    if proto == "vless" then Ok(BuildVless(userinfo, q, host, ApplyPort(scheme, port, 443)))
    else if proto == "ss" then BuildShadowsocks(SplitSecret(userinfo), host, ApplyPort(scheme, port, 8388))
    else if proto == "trojan" then Ok(BuildTrojan(userinfo, q, host, ApplyPort(scheme, port, 443)))
    else if proto == "hysteria2" then Ok(BuildHysteria2(userinfo, q, host, ApplyPort(scheme, port, 443)))
    else if proto == "socks" then Ok(BuildSocks(scheme, userinfo, host, ApplyPort(scheme, port, 1080)))
    else if proto == "anytls" then Ok(BuildAnyTLS(userinfo, q, host, ApplyPort(scheme, port, 443)))
    else if proto == "tuic" then BuildTUIC(userinfo, q, host, ApplyPort(scheme, port, 443))
    else Ok(BuildHysteria(userinfo, q, host, ApplyPort(scheme, port, 443)))
  }

  function AtoiIgnoringError(s: string): int {
    match Atoi(s) case Number(v) => v case Range(c) => c case Syntax => 0
  }

  function BuildVmessFields(v: Vmess): Result<Built, LinkError> {
    var port := AtoiIgnoringError(v.port);
    if v.add == "" || v.id == "" || port == 0 then Err(MissingField)
    else
      var security := if v.scy == "" then "auto" else v.scy;
      var transport := MapTransport(v.net);
      var t1: Fields := map["enabled" := Bool(true), "server_name" := Str(FirstNonEmpty([v.sni, v.host, v.add]))];
      var tls := With(t1, v.alpn != "", "alpn", StrArr(Split(v.alpn, ',')));
      var o1 := Header("vmess", v.add, port)["uuid" := Str(v.id)]["security" := Str(security)]
                  ["alter_id" := Num(AtoiOr(v.aid, 0))];
      var o2 := With(o1, HasPrefix(ToLower(v.tls), "tls"), "tls", Obj(tls));
      Ok(Built(transport, v.add, port, WithTransport(o2, TransportBlock(transport, v.path, v.host, v.path))))
  }

  /** The payload as base64 of JSON, or as plain JSON. */
  function BuildVmess(lib: Lib, payload: string): Result<Built, LinkError> {
    var decoded := match DecodeVmess(lib, payload)
                   case Some(v) => Some(v)
                   case None => lib.vmessFromBytes(payload);
    match decoded
    case None => Err(BadPayload)
    case Some(v) => BuildVmessFields(v)
  }

  function ProtocolOf(scheme: string): Option<string> {
    if scheme in {"vless", "vmess", "ss", "trojan", "hysteria2", "socks", "anytls", "tuic", "hysteria"} then Some(scheme)
    else if scheme == "shadowsocks" then Some("ss")
    else if scheme == "hy2" then Some("hysteria2")
    else if scheme in {"socks5", "socks4"} then Some("socks")
    else None
  }

  /** `parseByProto` up to the tag, on the link text with its fragment cut. */
  function Build(lib: Lib, proto: string, scheme: string, body: string): Result<Built, LinkError> {
    if proto == "vmess" then BuildVmess(lib, body)
    else
      match ParseCommon(body)
      case Err(e) => Err(e)
      case Ok(p) =>
        if proto == "ss" && p.userinfo == "" then BuildLegacyShadowsocks(scheme, body)
        else BuildParsed(proto, scheme, p.userinfo, FirstMatches(p.pairs), p.host, p.port)
  }

  function NameOf(rest: string): string {
    var j := IndexByte(rest, '#');
    if j < 0 then ""
    else match QueryUnescape(rest[j + 1..]) case Some(name) => name case None => ""
  }

  function NodeFrom(uri: string, uriHash: string, proto: string, b: Built, name: string): Node {
    Node(uri, uriHash, proto, b.transport, b.host, b.port, name, Obj(b.out["tag" := Str("probe")]))
  }

  /** `ParseLine`: no node for a blank line, an error for anything but an accepted link. */
  function ParseLine(lib: Lib, line: string): Result<Option<Node>, LinkError> {
    ParseTrimmed(lib, Trim(line))
  }

  function ParseTrimmed(lib: Lib, s: string): Result<Option<Node>, LinkError> {
    if s == "" then Ok(None)
    else
      var i := Index(s, DELIMITER);
      if i < 0 then Err(NotShareLink)
      else
        var scheme, rest := ToLower(s[..i]), s[i + 3..];
        match ProtocolOf(scheme)
        case None => Err(NotShareLink)
        case Some(proto) =>
          match Build(lib, proto, scheme, CutFragment(rest))
          case Err(e) => Err(e)
          case Ok(b) =>
            match Canonical(lib, s)
            case Err(e) => Err(e)
            case Ok(canonical) =>
              Ok(Some(NodeFrom(s, lib.hash(canonical), proto, b, NameOf(rest))))
  }
}
