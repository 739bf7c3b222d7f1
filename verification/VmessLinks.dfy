/** Which vmess links share a hash, and what they then have in common. */
module VmessLinks {
  import opened Basics
  import opened Strings
  import opened Links
  import opened ShareLink
  import opened Dedup
  import opened DedupLimits
  import opened Meaning
  import opened LineMeaning
  import opened MeaningIsComplete
  import opened OtherForms

  // ---- the hashed fields ----

  /** A line of scheme vmess whose payload decodes to the record. */
  predicate Carries(lib: Lib, line: string, v: Vmess) {
    var s := Trim(line);
    Index(s, DELIMITER) >= 0 && SchemeOf(s) == "vmess" && DecodeVmess(lib, CutFragment(RestOf(s))) == Some(v)
  }

  /** A line of scheme vmess whose payload does not decode. */
  predicate CarriesNone(lib: Lib, line: string) {
    var s := Trim(line);
    Index(s, DELIMITER) >= 0 && SchemeOf(s) == "vmess" && DecodeVmess(lib, CutFragment(RestOf(s))).None?
  }

  /** The two records are one server to the hash: all fields agree but `aid`, which is not hashed, and
      the letter case of the address. */
  predicate SameHashed(v: Vmess, w: Vmess) {
    && v.v == w.v && ToLower(v.add) == ToLower(w.add) && v.port == w.port && v.id == w.id && v.net == w.net
    && v.path == w.path && v.host == w.host && v.tls == w.tls && v.sni == w.sni && v.alpn == w.alpn && v.scy == w.scy
  }

  /** No hashed field contains the separator. */
  predicate Separable(v: Vmess) {
    && '|' !in v.v && '|' !in v.add && '|' !in v.port && '|' !in v.id && '|' !in v.net && '|' !in v.path
    && '|' !in v.host && '|' !in v.tls && '|' !in v.sni && '|' !in v.alpn && '|' !in v.scy
  }

  function HashedFields(v: Vmess): seq<string> {
    ["vmess", v.v, ToLower(v.add), v.port, v.id, v.net, v.path, v.host, v.tls, v.sni, v.alpn, v.scy]
  }

  lemma CarriedCanonical(lib: Lib, line: string, v: Vmess)
    requires Carries(lib, line, v)
    ensures Canonical(lib, line) == Ok(Join(HashedFields(v), '|'))
  {
  }

  lemma FieldsSeparate(v: Vmess)
    requires Separable(v)
    ensures Split(Join(HashedFields(v), '|'), '|') == HashedFields(v)
  {
    ToLowerKeepsByte(v.add, '|');
    SplitOfJoin(HashedFields(v), '|');
  }

  /** Links whose records keep clear of the separator share a hash exactly when their hashed fields agree. */
  lemma VmessCanonicalEqual(lib: Lib, a: string, b: string, v: Vmess, w: Vmess)
    requires Carries(lib, a, v) && Carries(lib, b, w) && Separable(v) && Separable(w)
    ensures Canonical(lib, a) == Canonical(lib, b) <==> SameHashed(v, w)
  {
    CarriedCanonical(lib, a, v);
    CarriedCanonical(lib, b, w);
    FieldsSeparate(v);
    FieldsSeparate(w);
    hide Canonical, Carries, Join;
    var f, g := HashedFields(v), HashedFields(w);
    if f == g {
      assert f[1] == g[1] && f[2] == g[2] && f[3] == g[3] && f[4] == g[4] && f[5] == g[5] && f[6] == g[6];
      assert f[7] == g[7] && f[8] == g[8] && f[9] == g[9] && f[10] == g[10] && f[11] == g[11];
    }
  }

  // ---- what they have in common ----

  /** Nodes of one hash are one server: same transport and port, hosts equal up to case, and for one spelling
      of the address the same outbound but for the alter id, which the hash leaves out. */
  predicate SameServer(b: Built, c: Built) {
    && b.transport == c.transport && b.port == c.port && ToLower(b.host) == ToLower(c.host)
    && (b.host == c.host ==> b.out - {"alter_id"} == c.out - {"alter_id"})
  }

  lemma AlterIdFree(v: Vmess, b: Built, aid: string)
    requires VmessSays(v, b)
    ensures VmessSays(v.(aid := aid), b.(out := b.out["alter_id" := Num(AtoiOr(aid, 0))]))
  {
    hide StreamSays, SpellsNear, AtoiOr, ToLower, HasPrefix, OrElse;
    var out := b.out["alter_id" := Num(AtoiOr(aid, 0))];
    assert "alter_id" !in {"type", "server", "server_port", "uuid", "security", "tls", "transport"};
    StreamKept(b, b.(out := out), v);
  }

  lemma StreamKept(b: Built, c: Built, v: Vmess)
    requires StreamSays(b, v.net, v.path, v.host, v.path) && b.transport == c.transport
    requires ("transport" in b.out <==> "transport" in c.out)
    requires "transport" in b.out ==> b.out["transport"] == c.out["transport"]
    ensures StreamSays(c, v.net, v.path, v.host, v.path)
  {
    hide TransportSays, BlockSays;
  }

  lemma SameHashedServer(v: Vmess, w: Vmess, b: Built, c: Built)
    requires SameHashed(v, w) && VmessSays(v, b) && VmessSays(w, c)
    ensures SameServer(b, c)
    ensures b.host == c.host ==> (b.out == c.out <==> AtoiOr(v.aid, 0) == AtoiOr(w.aid, 0))
  {
    TransportOnce(b.transport, c.transport, v.net);
    NearOnce(v.port, b.port, c.port);
    if b.host == c.host {
      assert w == v.(aid := w.aid);
      AlterIdFree(v, b, w.aid);
      VmessOnce(w, b.(out := b.out["alter_id" := Num(AtoiOr(w.aid, 0))]), c);
      AlterIds(v, w, b, c);
    }
  }

  lemma AlterIds(v: Vmess, w: Vmess, b: Built, c: Built)
    requires VmessSays(v, b) && c.out == b.out["alter_id" := Num(AtoiOr(w.aid, 0))]
    ensures b.out - {"alter_id"} == c.out - {"alter_id"}
    ensures b.out == c.out <==> AtoiOr(v.aid, 0) == AtoiOr(w.aid, 0)
  {
    hide AtoiOr, StreamSays, HeaderSays;
    assert b.out["alter_id"] == Num(AtoiOr(v.aid, 0)) && c.out["alter_id"] == Num(AtoiOr(w.aid, 0));
    assert "alter_id" in b.out;
  }

  /** The part of a node that its outbound and its columns carry. */
  function BuiltOf(n: Node): Built
    requires n.outbound.Obj?
  {
    Built(n.transport, n.host, n.port, n.outbound.fields - {"tag"})
  }

  lemma CarriesScheme(lib: Lib, line: string, v: Vmess)
    requires Carries(lib, line, v)
    ensures HasScheme(line, {"vmess"})
  {
  }

  lemma CarriedNode(lib: Lib, line: string, v: Vmess)
    requires Carries(lib, line, v)
    ensures ParseLine(lib, line).Ok? <==> VmessUsable(v)
    ensures ParseLine(lib, line).Ok? ==>
      && ParseLine(lib, line).value.Some? && ParseLine(lib, line).value.value.outbound.Obj?
      && var n := ParseLine(lib, line).value.value;
      && VmessSays(v, BuiltOf(n)) && n.outbound.fields == BuiltOf(n).out["tag" := Str("probe")]
  {
    hide ParseLine, VmessUsable, VmessSays;
    assert forall w :: RecordOf(lib, PayloadOf(line), w) <==> w == v;
    VmessLineMeans(lib, line);
    hide RecordOf, Carries;
    if ParseLine(lib, line).Ok? {
      var f := ParseLine(lib, line).value.value.outbound.fields;
      assert f == (f - {"tag"})["tag" := Str("probe")];
    }
  }

  /** Two vmess links of one hash are both accepted or both rejected, and accepted they are one server. */
  lemma VmessDedup(lib: Lib, a: string, b: string, v: Vmess, w: Vmess)
    requires Carries(lib, a, v) && Carries(lib, b, w) && Separable(v) && Separable(w)
    requires Canonical(lib, a) == Canonical(lib, b)
    ensures ParseLine(lib, a).Ok? == ParseLine(lib, b).Ok?
    ensures ParseLine(lib, a).Ok? ==>
      && ParseLine(lib, a).value.Some? && ParseLine(lib, b).value.Some?
      && var (m, n) := (ParseLine(lib, a).value.value, ParseLine(lib, b).value.value);
      && m.outbound.Obj? && n.outbound.Obj? && SameServer(BuiltOf(m), BuiltOf(n))
      && (m.host == n.host ==> (m.outbound == n.outbound <==> AtoiOr(v.aid, 0) == AtoiOr(w.aid, 0)))
  {
    VmessCanonicalEqual(lib, a, b, v, w);
    SameUsable(v, w);
    CarriedNode(lib, a, v);
    CarriedNode(lib, b, w);
    hide ParseLine, Canonical, Carries, Separable, VmessUsable, VmessSays, SameHashed, SameServer;
    if ParseLine(lib, a).Ok? {
      var m, n := ParseLine(lib, a).value.value, ParseLine(lib, b).value.value;
      SameHashedServer(v, w, BuiltOf(m), BuiltOf(n));
      assert BuiltOf(m).out == m.outbound.fields - {"tag"} && BuiltOf(n).out == n.outbound.fields - {"tag"};
    }
  }

  lemma SameUsable(v: Vmess, w: Vmess)
    requires SameHashed(v, w)
    ensures VmessUsable(v) <==> VmessUsable(w)
  {
    hide SpellsNear;
    assert |ToLower(v.add)| == |ToLower(w.add)|;
  }

  // ---- where the separator merges two servers ----

  lemma {:induction false} JoinShift(before: seq<string>, x: string, y: string, z: string, after: seq<string>)
    requires before != []
    ensures Join(before + [x + "|" + y, z] + after, '|') == Join(before + [x, y + "|" + z] + after, '|')
  {
    var l, r := [x + "|" + y, z] + after, [x, y + "|" + z] + after;
    assert before + [x + "|" + y, z] + after == before + l && before + [x, y + "|" + z] + after == before + r;
    ShiftedEqual(x, y, z, after);
    JoinBefore(before, l, r);
  }

  lemma ShiftedEqual(x: string, y: string, z: string, after: seq<string>)
    ensures Join([x + "|" + y, z] + after, '|') == Join([x, y + "|" + z] + after, '|')
  {
    var l, r := [z] + after, [y + "|" + z] + after;
    assert [x + "|" + y, z] + after == [x + "|" + y] + l && [x, y + "|" + z] + after == [x] + r;
    JoinStep(x + "|" + y, l, '|');
    JoinStep(x, r, '|');
    assert Join(r, '|') == y + "|" + Join(l, '|') by {
      if after == [] {
        assert l == [z] && r == [y + "|" + z];
      } else {
        JoinStep(z, after, '|');
        JoinStep(y + "|" + z, after, '|');
      }
    }
  }

  lemma {:induction false} JoinBefore(before: seq<string>, l: seq<string>, r: seq<string>)
    requires l != [] && r != [] && Join(l, '|') == Join(r, '|')
    ensures Join(before + l, '|') == Join(before + r, '|')
  {
    if before == [] {
      assert before + l == l && before + r == r;
    } else {
      JoinBefore(before[1..], l, r);
      assert before + l == [before[0]] + (before[1..] + l) && before + r == [before[0]] + (before[1..] + r);
      JoinStep(before[0], before[1..] + l, '|');
      JoinStep(before[0], before[1..] + r, '|');
    }
  }

  /** A separator inside an id: whatever the other fields are, two usable records with different ids share a
      hash and are different outbounds. */
  lemma SeparatorConfuses(lib: Lib, a: string, b: string, v: Vmess, p: string, q: string, r: string)
    requires Carries(lib, a, v.(id := p + "|" + q, net := r)) && Carries(lib, b, v.(id := p, net := q + "|" + r))
    requires p != "" && v.add != "" && !SpellsNear(v.port, 0)
    ensures Canonical(lib, a) == Canonical(lib, b) && Confused(ParseLine(lib, a), ParseLine(lib, b))
  {
    var x, y := v.(id := p + "|" + q, net := r), v.(id := p, net := q + "|" + r);
    CarriedCanonical(lib, a, x);
    CarriedCanonical(lib, b, y);
    hide Canonical, ParseLine, Carries, Join, VmessSays, SpellsNear, HashedFields;
    FieldsShift(v, p, q, r);
    CarriedNode(lib, a, x);
    CarriedNode(lib, b, y);
    CarriesScheme(lib, a, x);
    CarriesScheme(lib, b, y);
    SameHash(lib, a, b);
    IdsDiffer(x, y, ParseLine(lib, a).value.value, ParseLine(lib, b).value.value);
  }

  lemma FieldsShift(v: Vmess, p: string, q: string, r: string)
    ensures Join(HashedFields(v.(id := p + "|" + q, net := r)), '|') == Join(HashedFields(v.(id := p, net := q + "|" + r)), '|')
  {
    var before, after := ["vmess", v.v, ToLower(v.add), v.port], [v.path, v.host, v.tls, v.sni, v.alpn, v.scy];
    assert HashedFields(v.(id := p + "|" + q, net := r)) == before + [p + "|" + q, r] + after;
    assert HashedFields(v.(id := p, net := q + "|" + r)) == before + [p, q + "|" + r] + after;
    hide HashedFields;
    JoinShift(before, p, q, r, after);
  }

  lemma IdsDiffer(v: Vmess, w: Vmess, m: Node, n: Node)
    requires m.outbound.Obj? && n.outbound.Obj? && VmessSays(v, BuiltOf(m)) && VmessSays(w, BuiltOf(n)) && v.id != w.id
    ensures m.outbound != n.outbound
  {
    hide StreamSays, HeaderSays, SpellsNear, VmessTlsSays;
    assert BuiltOf(m).out["uuid"] == Str(v.id) && BuiltOf(n).out["uuid"] == Str(w.id);
  }

  lemma SameHash(lib: Lib, a: string, b: string)
    requires Canonical(lib, a) == Canonical(lib, b)
    requires HasScheme(a, {"vmess"}) && ParseLine(lib, a).Ok? && ParseLine(lib, a).value.Some?
    requires HasScheme(b, {"vmess"}) && ParseLine(lib, b).Ok? && ParseLine(lib, b).value.Some?
    ensures ParseLine(lib, a).value.value.uriHash == ParseLine(lib, b).value.value.uriHash
  {
    VmessLineBuilt(lib, a);
    VmessLineBuilt(lib, b);
    hide ParseLine, Canonical, BuildVmess, HasScheme;
  }

  // ---- and who shares no hash with them ----

  lemma OpaqueCanonical(lib: Lib, a: string)
    requires CarriesNone(lib, a)
    ensures Canonical(lib, a) == Ok("opaque|" + Trim(a))
  {
    hide DecodeVmess, CutFragment, Trim, Index;
  }

  /** A payload that does not decode leaves the whole trimmed line as the hashed text: such links share a hash
      with no decoded one, and with each other only if they are one text. */
  lemma OpaqueApart(lib: Lib, a: string, b: string, w: Vmess)
    requires CarriesNone(lib, a)
    ensures CarriesNone(lib, b) ==> (Canonical(lib, a) == Canonical(lib, b) <==> Trim(a) == Trim(b))
    ensures Carries(lib, b, w) ==> Canonical(lib, a) != Canonical(lib, b)
  {
    OpaqueCanonical(lib, a);
    hide Canonical, Carries, CarriesNone, Trim, Join, HashedFields;
    if CarriesNone(lib, b) {
      OpaqueCanonical(lib, b);
      assert ("opaque|" + Trim(a))[7..] == Trim(a) && ("opaque|" + Trim(b))[7..] == Trim(b);
    }
    if Carries(lib, b, w) {
      CarriedCanonical(lib, b, w);
      DecodedStarts(w);
      assert ("opaque|" + Trim(a))[0] == 'o';
    }
  }

  lemma VmessStarts(lib: Lib, a: string)
    requires HasScheme(a, {"vmess"})
    ensures Canonical(lib, a).Ok?
    ensures var text := Canonical(lib, a).value; |text| > 6 && (text[0] == 'o' || (text[0] == 'v' && text[1] == 'm'))
  {
    var decoded := DecodeVmess(lib, PayloadOf(a));
    hide DecodeVmess, CutFragment, Trim, Index;
    if decoded.Some? {
      CarriedCanonical(lib, a, decoded.value);
      DecodedStarts(decoded.value);
    } else {
      assert Canonical(lib, a) == Ok("opaque|" + Trim(a));
    }
  }

  lemma DecodedStarts(v: Vmess)
    ensures "vmess|" < Join(HashedFields(v), '|')
  {
    var rest := HashedFields(v)[1..];
    assert HashedFields(v) == ["vmess"] + rest;
    JoinStep("vmess", rest, '|');
    JoinStep(rest[0], rest[1..], '|');
    assert rest == [rest[0]] + rest[1..];
  }

  /** No vmess link shares a hash with a link of another scheme. */
  lemma VmessApart(lib: Lib, a: string, b: string)
    requires HasScheme(a, {"vmess"}) && Accepted(b) && LinkOf(b).value.scheme in SHARE_SCHEMES
    ensures Canonical(lib, a) != Canonical(lib, b)
  {
    hide LinkOf, HasScheme, Canonical, ToLower, CanonicalQuery, StripDefault, RestText;
    VmessStarts(lib, a);
    CanonicalOfAccepted(lib, b);
    var l := Normalise(LinkOf(b).value);
    assert l.scheme + DELIMITER <= Print(l);
    StartsApart(l.scheme, Print(l), Canonical(lib, a).value);
  }

  lemma StartsApart(scheme: string, other: string, text: string)
    requires scheme in SHARE_SCHEMES - {"vmess"} && scheme + DELIMITER <= other
    requires |text| > 6 && (text[0] == 'o' || (text[0] == 'v' && text[1] == 'm'))
    ensures other != text
  {
    assert other[0] == scheme[0] && other[1] == (scheme + DELIMITER)[1];
  }
}
