/** The canonical form of a share link (proxies/internal/parse/parse.go, ARCHITECTURE.md
    section 14.2): the splitters, the normalisation and the printer. */
module Links {
  import opened Basics
  import opened Strings
  import opened Base64

  datatype LinkError =
    | EmptyUri | MissingDelimiter | UnterminatedIPv6 | JunkAfterIPv6 | InvalidPort
    | NotShareLink | BadPort | BadPayload | MissingField

  /** What the vmess JSON payload carries; absent fields are empty strings. */
  datatype Vmess = Vmess(
    v: string, add: string, port: string, id: string, aid: string, net: string,
    path: string, host: string, tls: string, sni: string, alpn: string, scy: string)

  /** The library calls whose inner workings stay open: JSON decoding of a vmess payload
      and SHA-256 of a canonical string. */
  datatype Lib = Lib(vmessFromBytes: string -> Option<Vmess>, hash: string -> string)

  /** A link without its fragment; `host` keeps the brackets of an IPv6 address. */
  datatype Link = Link(scheme: string, userinfo: string, host: string, port: string,
                       path: string, query: string)

  const BOM_START := '\U{EF}'
  const BOM := "\U{EF}\U{BB}\U{BF}"
  const BOM_NBSP := BOM + "\U{C2}\U{A0}"
  const DELIMITER := "://"

  function Trim(s: string): string {
    TrimSpace(TrimPrefix(TrimPrefix(s, BOM), BOM_NBSP))
  }

  // ---- splitters ----

  predicate EndsAuthority(t: string) {
    t == "" || t[0] == '/' || t[0] == '?'
  }

  function SplitAuthority(rest: string): (r: (string, string))
    ensures r.0 + r.1 == rest
    ensures '/' !in r.0 && '?' !in r.0 && EndsAuthority(r.1)
  {
    if EndsAuthority(rest) then ("", rest)
    else
      var (auth, tail) := SplitAuthority(rest[1..]);
      ([rest[0]] + auth, tail)
  }

  function SplitPathQuery(tail: string): (r: (string, string))
    ensures '?' !in r.0
    ensures tail == r.0 + (if '?' in tail then "?" + r.1 else "")
    ensures '?' !in tail ==> r.1 == ""
  {
    var j := IndexByte(tail, '?');
    if j >= 0 then (tail[..j], tail[j + 1..]) else (tail, "")
  }

  /** Userinfo reaches to the last `@`. */
  function SplitUserinfo(auth: string): (r: (string, string))
    ensures '@' !in r.1
    ensures auth == (if '@' in auth then r.0 + "@" else "") + r.1
    ensures '@' !in auth ==> r.0 == ""
  {
    var at := LastIndexByte(auth, '@');
    if at >= 0 then (auth[..at], auth[at + 1..]) else ("", auth)
  }

  predicate Bracketed(s: string) {
    s != "" && s[0] == '['
  }

  function SplitHostPort(s: string): Result<(string, string), LinkError> {
    if Bracketed(s) then
      var end := IndexByte(s, ']');
      if end < 0 then Err(UnterminatedIPv6)
      else
        var rest := s[end + 1..];
        if HasPrefix(rest, ":") then Ok((s[..end + 1], rest[1..]))
        else if rest != "" then Err(JunkAfterIPv6)
        else Ok((s[..end + 1], ""))
    else
      var c := LastIndexByte(s, ':');
      var (host, port) := if c >= 0 then (s[..c], s[c + 1..]) else (s, "");
      if port != "" && !IsDigits(port) then Err(InvalidPort) else Ok((host, port))
  }

  /** `splitAuth`: userinfo, host and port of an authority. */
  function SplitAuth(auth: string): Result<(string, string, string), LinkError> {
    var (userinfo, hostPort) := SplitUserinfo(auth);
    match SplitHostPort(hostPort)
    case Err(e) => Err(e)
    case Ok((host, port)) => Ok((userinfo, host, port))
  }

  function CutFragment(rest: string): (r: string)
    ensures '#' !in r
    ensures r <= rest
    ensures '#' !in rest ==> r == rest
  {
    var j := IndexByte(rest, '#');
    if j >= 0 then rest[..j] else rest
  }

  function SplitLink(scheme: string, rest: string): Result<Link, LinkError> {
    var (auth, tail) := SplitAuthority(rest);
    var (path, query) := SplitPathQuery(tail);
    match SplitAuth(auth)
    case Err(e) => Err(e)
    case Ok((userinfo, host, port)) => Ok(Link(scheme, userinfo, host, port, path, query))
  }

  // ---- normalisation and printing ----

  /** The only default ports that the canonical form drops. */
  function DefaultPort(scheme: string): string {
    if scheme == "http" then "80"
    else if scheme == "https" then "443"
    else if scheme == "socks" then "1080"
    else ""
  }

  function StripDefault(scheme: string, port: string): string {
    if port == DefaultPort(scheme) then "" else port
  }

  function QueryParts(query: string): seq<string> {
    NonEmpty(Split(query, '&'))
  }

  /** What SortQuery computes. */
  function CanonicalQuery(query: string): string {
    Join(SortStrings(QueryParts(query)), '&')
  }

  method SortQuery(rawQuery: string) returns (q: string)
    ensures q == CanonicalQuery(rawQuery)
  {
    if rawQuery == "" {
      return "";
    }
    var parts := Split(rawQuery, '&');
    var kept: seq<string> := [];
    for i := 0 to |parts|
      invariant kept == NonEmpty(parts[..i])
    {
      assert parts[..i + 1] == parts[..i] + [parts[i]];
      NonEmptySnoc(parts[..i], parts[i]);
      if parts[i] != "" {
        kept := kept + [parts[i]];
      }
    }
    assert parts[..|parts|] == parts;
    kept := SortStrings(kept);
    q := Join(kept, '&');
  }

  function Normalise(l: Link): Link {
    l.(host := ToLower(l.host), port := StripDefault(l.scheme, l.port), query := CanonicalQuery(l.query))
  }

  function HostPortText(host: string, port: string): string {
    host + (if port != "" then ":" + port else "")
  }

  /** Everything after the scheme delimiter. */
  function RestText(userinfo: string, hostPort: string, path: string, query: string): string {
    (if userinfo != "" then userinfo + "@" else "") + hostPort + path
    + (if query != "" then "?" + query else "")
  }

  function Print(l: Link): string {
    l.scheme + DELIMITER + RestText(l.userinfo, HostPortText(l.host, l.port), l.path, l.query)
  }

  function CanonicalVmess(lib: Lib, raw: string, rest: string): string {
    match DecodeVmess(lib, CutFragment(rest))
    case None => "opaque|" + raw
    case Some(v) =>
      Join(["vmess", v.v, ToLower(v.add), v.port, v.id, v.net, v.path, v.host, v.tls, v.sni, v.alpn, v.scy], '|')
  }

  function DecodeVmess(lib: Lib, payload: string): Option<Vmess> {
    match B64Decode(payload)
    case None => None
    case Some(b) => lib.vmessFromBytes(b)
  }

  function Canonical(lib: Lib, raw: string): Result<string, LinkError> {
    CanonicalOfTrimmed(lib, Trim(raw))
  }

  function CanonicalOfTrimmed(lib: Lib, s: string): Result<string, LinkError> {
    if s == "" then Err(EmptyUri)
    else
      var i := Index(s, DELIMITER);
      if i < 0 then Err(MissingDelimiter)
      else
        var scheme, rest := ToLower(s[..i]), s[i + 3..];
        if scheme == "vmess" then Ok(CanonicalVmess(lib, s, rest))
        else
          match SplitLink(scheme, CutFragment(rest))
          case Err(e) => Err(e)
          case Ok(l) => Ok(Print(Normalise(l)))
  }

  /** The parts of a link that does not use the vmess scheme. */
  function LinkOf(raw: string): Result<Link, LinkError> {
    var s := Trim(raw);
    if s == "" then Err(EmptyUri)
    else
      var i := Index(s, DELIMITER);
      if i < 0 then Err(MissingDelimiter)
      else SplitLink(ToLower(s[..i]), CutFragment(s[i + 3..]))
  }

  /** A link that Canonical accepts and does not treat as vmess. */
  predicate Accepted(raw: string) {
    LinkOf(raw).Ok? && LinkOf(raw).value.scheme != "vmess"
  }

  lemma CanonicalOfAccepted(lib: Lib, raw: string)
    requires Accepted(raw)
    ensures Canonical(lib, raw) == Ok(Print(Normalise(LinkOf(raw).value)))
  {
  }

  // ---- the shape of split links ----

  predicate AuthorityText(s: string) {
    '/' !in s && '?' !in s && '#' !in s
  }

  predicate HostPortShape(host: string, port: string) {
    && AuthorityText(host) && AuthorityText(port) && '@' !in host && '@' !in port
    && if Bracketed(host) then
         host[|host| - 1] == ']' && ']' !in host[..|host| - 1]
       else
         port == "" || IsDigits(port)
  }

  predicate PathShape(path: string) {
    '?' !in path && '#' !in path && (path == "" || path[0] == '/')
  }

  /** What every split link looks like. */
  predicate Shape(l: Link) {
    AuthorityText(l.userinfo) && HostPortShape(l.host, l.port) && PathShape(l.path) && '#' !in l.query
  }

  lemma SplitHostPortShape(s: string)
    requires SplitHostPort(s).Ok?
    requires AuthorityText(s) && '@' !in s
    ensures HostPortShape(SplitHostPort(s).value.0, SplitHostPort(s).value.1)
  {
    var (host, port) := SplitHostPort(s).value;
    if Bracketed(s) {
      var end := IndexByte(s, ']');
      assert host[..|host| - 1] == s[..end];
    }
    assert forall c <- host :: c in s;
    assert forall c <- port :: c in s;
  }

  lemma AuthorityShape(rest: string)
    requires '#' !in rest
    ensures AuthorityText(SplitAuthority(rest).0) && '#' !in SplitAuthority(rest).1
  {
    var r := SplitAuthority(rest);
    assert forall c <- r.0 :: c in rest;
    assert forall c <- r.1 :: c in rest;
  }

  lemma UserinfoShape(auth: string)
    requires AuthorityText(auth)
    ensures AuthorityText(SplitUserinfo(auth).0)
    ensures AuthorityText(SplitUserinfo(auth).1) && '@' !in SplitUserinfo(auth).1
  {
    var r := SplitUserinfo(auth);
    assert forall c <- r.0 :: c in auth;
    assert forall c <- r.1 :: c in auth;
  }

  lemma PathQueryShape(tail: string)
    requires EndsAuthority(tail) && '#' !in tail
    ensures PathShape(SplitPathQuery(tail).0) && '#' !in SplitPathQuery(tail).1
  {
    var r := SplitPathQuery(tail);
    assert forall c <- r.0 :: c in tail;
    assert forall c <- r.1 :: c in tail;
    if r.0 != "" {
      assert r.0[0] == tail[0];
    }
  }

  lemma SplitLinkShape(scheme: string, rest: string)
    requires '#' !in rest && SplitLink(scheme, rest).Ok?
    ensures Shape(SplitLink(scheme, rest).value)
  {
    var (auth, tail) := SplitAuthority(rest);
    AuthorityShape(rest);
    UserinfoShape(auth);
    SplitHostPortShape(SplitUserinfo(auth).1);
    PathQueryShape(tail);
  }
}
