/** Legacy shadowsocks links: base64 of method:password@host:port stands where the host is expected. */
module LegacyLinks {
  import opened Basics
  import opened Strings
  import opened Base64
  import opened Links
  import opened CanonicalForm
  import opened ShareLink
  import opened Dedup
  import opened LinkText
  import opened DedupLimits

  predicate Base64Text(p: string) {
    forall c <- p :: 'A' <= c <= 'Z' || 'a' <= c <= 'z' || '0' <= c <= '9' || c in "+/-_="
  }

  /** The line `ss://` with this payload. */
  function LegacyLine(p: string): string {
    "ss" + DELIMITER + p
  }

  /** The part of a payload that Canonical takes for the host, and the part it takes for a path. */
  function Head(p: string): string { SplitAuthority(p).0 }

  function Tail(p: string): string { SplitAuthority(p).1 }

  function LegacyOf(p: string): Link {
    Link("ss", "", Head(p), "", Tail(p), "")
  }

  lemma LegacyReads(p: string)
    requires p != "" && Base64Text(p)
    ensures Accepted(LegacyLine(p)) && LinkOf(LegacyLine(p)) == Ok(LegacyOf(p)) && ':' !in Head(p)
  {
    var n := LegacyOf(p);
    LegacyShape(p);
    SchemeWithoutColon("ss");
    LegacyText(p);
    hide LinkOf, SplitAuthority, Index, Print, Head, Tail, SplitHostPort, Trim, Trimmed, Base64Text;
    TrimmedStays(Print(n));
    LinkOfCanonicalText(n);
    SplitPlain(n.host, n.port);
  }

  lemma LegacyText(p: string)
    requires p != "" && Base64Text(p)
    ensures Print(LegacyOf(p)) == LegacyLine(p) && Trimmed(LegacyLine(p))
  {
    hide Base64Text, SplitAuthority;
    assert RestText("", HostPortText(Head(p), ""), Tail(p), "") == p;
    hide RestText, Head, Tail;
    LastByte(p);
    assert LegacyLine(p)[0] == 's' && LegacyLine(p)[|LegacyLine(p)| - 1] == p[|p| - 1];
  }

  lemma LastByte(p: string)
    requires p != "" && Base64Text(p)
    ensures !IsSpace(p[|p| - 1])
  {
    assert p[|p| - 1] in p;
  }

  lemma PartLacks(p: string, c: char)
    requires c !in p
    ensures c !in Head(p) && c !in Tail(p)
  {
    assert forall d <- Head(p) :: d in p;
    assert forall d <- Tail(p) :: d in p;
  }

  lemma OtherBytes(p: string, c: char)
    requires Base64Text(p) && c in ":@?#["
    ensures c !in p
  {
  }

  lemma LegacyShape(p: string)
    requires Base64Text(p)
    ensures Shape(LegacyOf(p)) && ':' !in Head(p) && !Bracketed(Head(p))
  {
    OtherBytes(p, ':');
    OtherBytes(p, '@');
    OtherBytes(p, '?');
    OtherBytes(p, '#');
    OtherBytes(p, '[');
    PartLacks(p, ':');
    PartLacks(p, '@');
    PartLacks(p, '?');
    PartLacks(p, '#');
    PartLacks(p, '[');
    hide Base64Text;
  }

  /** The payload up to its first slash is hashed without regard to letter case, and the rest with it,
      although base64 distinguishes case everywhere. */
  lemma LegacyShadowsocksFoldsCase(lib: Lib, p: string, q: string)
    requires p != "" && Base64Text(p) && q != "" && Base64Text(q)
    ensures Canonical(lib, LegacyLine(p)) == Canonical(lib, LegacyLine(q))
            <==> ToLower(Head(p)) == ToLower(Head(q)) && Tail(p) == Tail(q)
  {
    LegacyReads(p);
    LegacyReads(q);
    hide LinkOf, Canonical, Head, Tail, ToLower;
    CanonicalEqualParts(lib, LegacyLine(p), LegacyLine(q));
  }

  // ---- an example ----

  /** What a payload with this one-letter password encodes: `m:p@h:888`. */
  function Secret(pw: char): string {
    ['m', ':', pw] + (['@', 'h', ':'] + ['8', '8', '8'])
  }

  function Payload(pw: char): string
    requires pw in "pV"
  {
    EncodeRaw(Std, Secret(pw))
  }

  lemma RawStep(x: char, y: char, z: char, rest: string)
    requires (x as int) < 256 && (y as int) < 256 && (z as int) < 256 && IsBytes(rest)
    ensures IsBytes([x, y, z] + rest)
    ensures EncodeRaw(Std, [x, y, z] + rest) == QuantumChars(Std, x as int, y as int, z as int) + EncodeRaw(Std, rest)
  {
    hide QuantumChars;
    assert ([x, y, z] + rest)[3..] == rest;
  }

  lemma FirstQuanta()
    ensures QuantumChars(Std, 'm' as int, ':' as int, 'p' as int) == "bTpw"
    ensures QuantumChars(Std, 'm' as int, ':' as int, 'V' as int) == "bTpW"
  {
  }

  lemma LastQuanta()
    ensures QuantumChars(Std, '@' as int, 'h' as int, ':' as int) == "QGg6"
    ensures QuantumChars(Std, '8' as int, '8' as int, '8' as int) == "ODg4"
  {
  }

  lemma PayloadText(pw: char)
    requires pw in "pV"
    ensures Payload(pw) == (if pw == 'p' then "bTpw" else "bTpW") + ("QGg6" + "ODg4")
  {
    FirstQuanta();
    LastQuanta();
    hide QuantumChars;
    RawStep('m', ':', pw, ['@', 'h', ':'] + ['8', '8', '8']);
    RawStep('@', 'h', ':', ['8', '8', '8']);
    RawStep('8', '8', '8', []);
    hide EncodeRaw;
    assert ['8', '8', '8'] + [] == ['8', '8', '8'];
    assert EncodeRaw(Std, []) == [];
  }

  lemma ColonFails(a: Alphabet, s: string)
    requires |s| == 4 && s[1] == ':'
    ensures DecodeQuanta(a, s) == None
  {
  }

  /** The secret itself is not taken for base64. */
  lemma SecretSplits(pw: char)
    requires pw in "pV"
    ensures SplitSecret(['m', ':', pw]) == (['m'], [pw])
  {
    var ui := ['m', ':', pw];
    var padded := ui + Pad(1);
    SkipBreaksId(padded);
    ColonFails(Std, padded);
    ColonFails(Url, padded);
    IndexByteIs(ui, ':', 1);
    hide DecodeQuanta, SkipBreaks, IndexByte;
    assert ui[..1] == ['m'] && ui[2..] == [pw];
  }

  lemma SecretParts(pw: char)
    requires pw in "pV"
    ensures LastIndexByte(Secret(pw), '@') == 3
    ensures Secret(pw)[..3] == ['m', ':', pw] && Secret(pw)[4..] == ['h'] + ":" + ['8', '8', '8']
  {
    assert '@' !in Secret(pw)[4..];
    LastIndexByteIs(Secret(pw), '@', 3);
  }

  lemma ServerParts()
    ensures SplitAuth(['h'] + ":" + ['8', '8', '8']) == Ok(("", ['h'], ['8', '8', '8']))
  {
    var t := ['h'] + ":" + ['8', '8', '8'];
    assert '@' !in t;
    SplitBare(['h'], ['8', '8', '8']);
    hide SplitHostPort;
    assert SplitUserinfo(t) == ("", t);
  }

  lemma LegacyBuilt(pw: char, p: string)
    requires pw in "pV" && B64Decode(p) == Some(Secret(pw))
    ensures BuildLegacyShadowsocks("ss", p).Ok?
    ensures var out := BuildLegacyShadowsocks("ss", p).value.out; "password" in out && out["password"] == Str([pw])
  {
    hide B64Decode, SplitSecret, SplitAuth, AtoiOr, Unbracket, ApplyPort, Secret, LastIndexByte, BuildShadowsocks;
    SecretParts(pw);
    ServerParts();
    SecretSplits(pw);
    var port := ApplyPort("ss", AtoiOr(['8', '8', '8'], 0), 8388);
    SecretShown((['m'], [pw]), Unbracket(['h']), port);
  }

  lemma SecretShown(secret: (string, string), host: string, port: int)
    requires secret.0 != "" && secret.1 != ""
    ensures BuildShadowsocks(secret, host, port).Ok?
    ensures var out := BuildShadowsocks(secret, host, port).value.out;
            "password" in out && out["password"] == Str(secret.1)
  {
  }

  /** How ParseLine cuts the line up. */
  lemma LineParts(p: string)
    requires p != "" && Base64Text(p)
    ensures var line := LegacyLine(p);
            Trim(line) == line && Index(line, DELIMITER) == 2 && SchemeOf(line) == "ss" && CutFragment(RestOf(line)) == p
  {
    var line := LegacyLine(p);
    assert p[|p| - 1] in p;
    TrimmedStays(line);
    SchemeWithoutColon("ss");
    TextSplits("ss", p);
    OtherBytes(p, '#');
    hide Trim, Index;
  }

  lemma LegacyBuild(lib: Lib, pw: char, p: string)
    requires pw in "pV" && p != "" && Base64Text(p) && B64Decode(p) == Some(Secret(pw))
    ensures Build(lib, "ss", "ss", p) == BuildLegacyShadowsocks("ss", p)
  {
    LegacyReads(p);
    LineParts(p);
    SplitOfLine(LegacyLine(p));
    hide LinkOf, SplitLink, ParseCommon, Trim, Index, BuildLegacyShadowsocks, Base64Text, B64Decode, CutFragment;
    CommonOfLink(LegacyOf(p), p);
  }

  /** An accepted line whose outbound shows this password. */
  predicate ShowsPassword(r: Result<Option<Node>, LinkError>, uriHash: string, password: string) {
    && r.Ok? && r.value.Some? && r.value.value.uriHash == uriHash && r.value.value.outbound.Obj?
    && "password" in r.value.value.outbound.fields && r.value.value.outbound.fields["password"] == Str(password)
  }

  lemma GivenPassword(
      r: Result<Option<Node>, LinkError>, uri: string, uriHash: string, built: Result<Built, LinkError>, password: string)
    requires LineGives(r, uri, uriHash, "ss", built) && built.Ok?
    requires "password" in built.value.out && built.value.out["password"] == Str(password)
    ensures ShowsPassword(r, uriHash, password)
  {
  }

  lemma LegacyNode(lib: Lib, pw: char, p: string)
    requires pw in "pV" && p != "" && Base64Text(p) && B64Decode(p) == Some(Secret(pw))
    ensures Canonical(lib, LegacyLine(p)).Ok?
    ensures ShowsPassword(ParseLine(lib, LegacyLine(p)), lib.hash(Canonical(lib, LegacyLine(p)).value), [pw])
  {
    var line := LegacyLine(p);
    LegacyReads(p);
    CanonicalOfAccepted(lib, line);
    LineParts(p);
    hide ParseLine, Canonical, Build, LinkOf, BuildLegacyShadowsocks, Trim, Index, B64Decode, Base64Text, LineGives,
         ShowsPassword, Print, SchemeOf, RestOf, CutFragment;
    ParseLineSteps(lib, line);
    LegacyBuild(lib, pw, p);
    LegacyBuilt(pw, p);
    GivenPassword(ParseLine(lib, line), line, lib.hash(Canonical(lib, line).value), BuildLegacyShadowsocks("ss", p), [pw]);
  }

  lemma PayloadDecodes(pw: char)
    requires pw in "pV"
    ensures B64Decode(Payload(pw)) == Some(Secret(pw))
  {
    assert IsBytes(Secret(pw)) && Secret(pw) != "";
    hide B64Decode, EncodeRaw, Secret;
    DecodeInvertsEncode(Std, Secret(pw), 0);
    assert Payload(pw) + Pad(0) == Payload(pw);
  }

  lemma PayloadFolds(pw: char)
    requires pw in "pV"
    ensures Payload(pw) != "" && Base64Text(Payload(pw)) && '/' !in Payload(pw)
    ensures ToLower(Payload(pw)) == "btpw" + ToLower("QGg6" + "ODg4")
  {
    PayloadText(pw);
    hide Payload, EncodeRaw, Base64Text, ToLower;
    var first := if pw == 'p' then "bTpw" else "bTpW";
    FirstQuantum(pw);
    SlashFree();
    SlashFreeConcat("QGg6", "ODg4");
    SlashFreeConcat(first, "QGg6" + "ODg4");
    ToLowerConcat(first, "QGg6" + "ODg4");
  }

  predicate SlashFreeText(p: string) {
    Base64Text(p) && '/' !in p
  }

  lemma SlashFree()
    ensures SlashFreeText("bTpw") && SlashFreeText("bTpW") && SlashFreeText("QGg6") && SlashFreeText("ODg4")
  {
  }

  lemma SlashFreeConcat(a: string, b: string)
    requires SlashFreeText(a) && SlashFreeText(b)
    ensures SlashFreeText(a + b)
  {
    forall c <- a + b ensures c in a || c in b {
    }
  }

  lemma FirstQuantum(pw: char)
    ensures ToLower(if pw == 'p' then "bTpw" else "bTpW") == "btpw"
  {
  }

  lemma WholeHead(p: string)
    requires '/' !in p && Base64Text(p)
    ensures Head(p) == p && Tail(p) == ""
  {
    PartLacks(p, '/');
    OtherBytes(p, '?');
    PartLacks(p, '?');
  }

  lemma PasswordsConfuse(r: Result<Option<Node>, LinkError>, s: Result<Option<Node>, LinkError>, uriHash: string, v: string, w: string)
    requires ShowsPassword(r, uriHash, v) && ShowsPassword(s, uriHash, w) && v != w
    ensures Confused(r, s)
  {
  }

  /** `ss://bTpwQGg6ODg4` and `ss://bTpWQGg6ODg4`, for `m:p@h:888` and `m:V@h:888`: one hash, two
      passwords. */
  lemma LegacyExample(lib: Lib)
    ensures var a, b := LegacyLine(Payload('p')), LegacyLine(Payload('V'));
            Canonical(lib, a) == Canonical(lib, b) && Confused(ParseLine(lib, a), ParseLine(lib, b))
  {
    var p, q := Payload('p'), Payload('V');
    PayloadDecodes('p');
    PayloadDecodes('V');
    PayloadFolds('p');
    PayloadFolds('V');
    hide ParseLine, Canonical, Payload, B64Decode, Base64Text, ToLower, Secret, ShowsPassword, Confused, Head, Tail;
    WholeHead(p);
    WholeHead(q);
    LegacyShadowsocksFoldsCase(lib, p, q);
    LegacyNode(lib, 'p', p);
    LegacyNode(lib, 'V', q);
    PasswordsConfuse(ParseLine(lib, LegacyLine(p)), ParseLine(lib, LegacyLine(q)),
                     lib.hash(Canonical(lib, LegacyLine(p)).value), ['p'], ['V']);
  }
}
