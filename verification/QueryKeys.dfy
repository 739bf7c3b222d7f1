/** Which query keys each builder reads, and that it reads no other. */
module QueryKeys {
  import opened Basics
  import opened Strings
  import opened Links
  import opened ShareLink

  /** The keys whose first values settle an outbound of this protocol. */
  function ReadKeys(proto: string): set<string> {
    if proto == "vless" then
      {"flow", "packetEncoding", "security", "type", "sni", "host", "alpn", "fp", "insecure", "allowInsecure",
       "pbk", "sid", "path", "serviceName"}
    else if proto == "trojan" then
      {"security", "type", "sni", "host", "alpn", "fp", "insecure", "allowInsecure", "path", "serviceName"}
    else if proto == "hysteria2" then {"sni", "insecure", "allowInsecure", "obfs-password", "upmbps", "downmbps"}
    else if proto == "anytls" then {"sni", "insecure", "allowInsecure", "security"}
    else if proto == "tuic" then {"uuid", "password", "congestion_control", "sni", "insecure", "allowInsecure"}
    else if proto == "hysteria" then {"auth", "peer", "sni", "insecure", "allowInsecure", "upmbps", "downmbps"}
    else {}
  }

  /** Two lookups that answer alike for these keys. */
  ghost predicate SameOn(q: Lookup, r: Lookup, keys: set<string>) {
    forall k :: k in keys ==> (k in q <==> k in r) && (k in q ==> q[k] == r[k])
  }

  lemma SameAnswer(q: Lookup, r: Lookup, keys: set<string>, k: string)
    requires SameOn(q, r, keys) && k in keys
    ensures (k in q <==> k in r) && Raw(q, k) == Raw(r, k) && Decoded(q, k) == Decoded(r, k)
  {
  }

  lemma SameInsecure(q: Lookup, r: Lookup, keys: set<string>)
    requires SameOn(q, r, keys) && "insecure" in keys && "allowInsecure" in keys
    ensures Insecure(q) == Insecure(r)
  {
    SameAnswer(q, r, keys, "insecure");
    SameAnswer(q, r, keys, "allowInsecure");
    hide Raw;
  }

  lemma SameTlsFull(q: Lookup, r: Lookup, keys: set<string>, host: string)
    requires SameOn(q, r, keys)
    requires "insecure" in keys && "allowInsecure" in keys && "sni" in keys && "host" in keys
    requires "alpn" in keys && "fp" in keys
    ensures TlsFull(q, host) == TlsFull(r, host)
  {
    SameInsecure(q, r, keys);
    SameAnswer(q, r, keys, "sni");
    SameAnswer(q, r, keys, "host");
    SameAnswer(q, r, keys, "alpn");
    SameAnswer(q, r, keys, "fp");
    hide Decoded, Raw, Insecure, FirstNonEmpty, StrArr;
  }

  lemma SameTransport(q: Lookup, r: Lookup, keys: set<string>, transport: string)
    requires SameOn(q, r, keys) && "path" in keys && "host" in keys && "serviceName" in keys
    ensures QueryTransport(transport, q) == QueryTransport(transport, r)
  {
    SameAnswer(q, r, keys, "path");
    SameAnswer(q, r, keys, "host");
    SameAnswer(q, r, keys, "serviceName");
    hide Raw, TransportBlock;
  }

  lemma SameVless(q: Lookup, r: Lookup, userinfo: string, host: string, port: int)
    requires SameOn(q, r, ReadKeys("vless"))
    ensures BuildVless(userinfo, q, host, port) == BuildVless(userinfo, r, host, port)
  {
    var keys := ReadKeys("vless");
    SameAnswer(q, r, keys, "flow");
    SameAnswer(q, r, keys, "packetEncoding");
    SameAnswer(q, r, keys, "security");
    SameAnswer(q, r, keys, "type");
    SameAnswer(q, r, keys, "pbk");
    SameAnswer(q, r, keys, "sid");
    SameTlsFull(q, r, keys, host);
    SameTransport(q, r, keys, MapTransport(Decoded(q, "type")));
    hide SameOn, ReadKeys, Decoded, Raw, TlsFull, QueryTransport, MapTransport;
  }

  lemma SameTrojan(q: Lookup, r: Lookup, userinfo: string, host: string, port: int)
    requires SameOn(q, r, ReadKeys("trojan"))
    ensures BuildTrojan(userinfo, q, host, port) == BuildTrojan(userinfo, r, host, port)
  {
    var keys := ReadKeys("trojan");
    SameAnswer(q, r, keys, "security");
    SameAnswer(q, r, keys, "type");
    SameTlsFull(q, r, keys, host);
    SameTransport(q, r, keys, MapTransport(Decoded(q, "type")));
    hide SameOn, ReadKeys, Decoded, Raw, TlsFull, QueryTransport, MapTransport, UnescapeOrRaw;
  }

  lemma SameHysteria2(q: Lookup, r: Lookup, userinfo: string, host: string, port: int)
    requires SameOn(q, r, ReadKeys("hysteria2"))
    ensures BuildHysteria2(userinfo, q, host, port) == BuildHysteria2(userinfo, r, host, port)
  {
    var keys := ReadKeys("hysteria2");
    SameInsecure(q, r, keys);
    SameAnswer(q, r, keys, "sni");
    SameAnswer(q, r, keys, "obfs-password");
    SameAnswer(q, r, keys, "upmbps");
    SameAnswer(q, r, keys, "downmbps");
    hide SameOn, ReadKeys, Decoded, Raw, Insecure, FirstNonEmpty, UnescapeOrRaw, AtoiOr;
  }

  lemma SameAnyTLS(q: Lookup, r: Lookup, userinfo: string, host: string, port: int)
    requires SameOn(q, r, ReadKeys("anytls"))
    ensures BuildAnyTLS(userinfo, q, host, port) == BuildAnyTLS(userinfo, r, host, port)
  {
    var keys := ReadKeys("anytls");
    SameInsecure(q, r, keys);
    SameAnswer(q, r, keys, "sni");
    SameAnswer(q, r, keys, "security");
    hide SameOn, ReadKeys, Decoded, Raw, Insecure, FirstNonEmpty, UnescapeOrRaw;
  }

  lemma SameTUIC(q: Lookup, r: Lookup, userinfo: string, host: string, port: int)
    requires SameOn(q, r, ReadKeys("tuic"))
    ensures BuildTUIC(userinfo, q, host, port) == BuildTUIC(userinfo, r, host, port)
  {
    var keys := ReadKeys("tuic");
    SameInsecure(q, r, keys);
    SameAnswer(q, r, keys, "sni");
    SameAnswer(q, r, keys, "uuid");
    SameAnswer(q, r, keys, "password");
    SameAnswer(q, r, keys, "congestion_control");
    hide SameOn, ReadKeys, Decoded, Raw, Insecure, FirstNonEmpty, StrArr;
  }

  lemma SameHysteria(q: Lookup, r: Lookup, userinfo: string, host: string, port: int)
    requires SameOn(q, r, ReadKeys("hysteria"))
    ensures BuildHysteria(userinfo, q, host, port) == BuildHysteria(userinfo, r, host, port)
  {
    var keys := ReadKeys("hysteria");
    SameInsecure(q, r, keys);
    SameAnswer(q, r, keys, "sni");
    SameAnswer(q, r, keys, "auth");
    SameAnswer(q, r, keys, "peer");
    SameAnswer(q, r, keys, "upmbps");
    SameAnswer(q, r, keys, "downmbps");
    hide SameOn, ReadKeys, Decoded, Raw, Insecure, FirstNonEmpty, UnescapeOrRaw, AtoiOr, StrArr;
  }

  /** Lookups that answer alike for the keys of the protocol build the same outbound. */
  lemma ReadKeysDecide(proto: string, scheme: string, userinfo: string, q: Lookup, r: Lookup, host: string, port: int)
    requires ProtocolOf(scheme) == Some(proto) && proto != "vmess" && SameOn(q, r, ReadKeys(proto))
    ensures BuildParsed(proto, scheme, userinfo, q, host, port) == BuildParsed(proto, scheme, userinfo, r, host, port)
  {
    hide SameOn, BuildVless, BuildTrojan, BuildHysteria2, BuildAnyTLS, BuildTUIC, BuildHysteria, BuildSocks,
         BuildShadowsocks, SplitSecret, ApplyPort;
    var p := ApplyPort(scheme, port, 443);
    if proto == "vless" {
      SameVless(q, r, userinfo, host, p);
    } else if proto == "trojan" {
      SameTrojan(q, r, userinfo, host, p);
    } else if proto == "hysteria2" {
      SameHysteria2(q, r, userinfo, host, p);
    } else if proto == "anytls" {
      SameAnyTLS(q, r, userinfo, host, p);
    } else if proto == "tuic" {
      SameTUIC(q, r, userinfo, host, p);
    } else if proto == "hysteria" {
      SameHysteria(q, r, userinfo, host, p);
    }
  }
}
