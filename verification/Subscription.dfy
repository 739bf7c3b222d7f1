/** Whole subscriptions: reading them (proxies/internal/parse/parse.go) and writing them
    (proxies/cmd/coordinator/publish.go). */
module Subscription {
  import opened Basics
  import opened Strings
  import opened Base64
  import opened Links
  import opened ShareLink
  import opened Url

  // ---- reading ----

  predicate LooksEncoded(c: char) {
    'A' <= c <= 'Z' || 'a' <= c <= 'z' || '0' <= c <= '9' || c in "+/-_=\n\r"
  }

  predicate IsProbablyBase64(body: string) {
    var s := TrimSpace(body);
    s != "" && Index(s, DELIMITER) < 0 && forall c <- s :: LooksEncoded(c)
  }

  function PlainBody(body: string): string {
    if IsProbablyBase64(body) then
      match B64Decode(body) case Some(dec) => dec case None => body
    else body
  }

  function LinesOf(body: string): seq<string> {
    var parts := Split(PlainBody(body), '\n');
    seq(|parts|, i requires 0 <= i < |parts| => TrimRightCR(parts[i]))
  }

  predicate HasHash(nodes: seq<Node>, h: string) {
    exists i :: 0 <= i < |nodes| && nodes[i].uriHash == h
  }

  /** The nodes that a list of parsed lines leaves: one for each hash. */
  function Collected(found: seq<Option<Node>>): seq<Node> {
    if found == [] then []
    else
      var before := Collected(found[..|found| - 1]);
      match found[|found| - 1]
      case Some(n) => if HasHash(before, n.uriHash) then before else before + [n]
      case None => before
  }

  /** A rejected line and a blank line leave no node. */
  function NodeOf(lib: Lib, line: string): Option<Node> {
    match ParseLine(lib, line) case Ok(Some(n)) => Some(n) case _ => None
  }

  function NodesOf(lib: Lib, lines: seq<string>): (found: seq<Option<Node>>)
    ensures |found| == |lines| && forall i :: 0 <= i < |lines| ==> found[i] == NodeOf(lib, lines[i])
  {
    seq(|lines|, i requires 0 <= i < |lines| => NodeOf(lib, lines[i]))
  }

  lemma CollectedStep(found: seq<Option<Node>>, i: nat)
    requires i < |found|
    ensures var before := Collected(found[..i]);
            Collected(found[..i + 1]) ==
              match found[i]
              case Some(n) => if HasHash(before, n.uriHash) then before else before + [n]
              case None => before
  {
    assert found[..i + 1][..i] == found[..i];
  }

  method ParseMany(lib: Lib, body: string) returns (nodes: seq<Node>)
    ensures nodes == Collected(NodesOf(lib, LinesOf(body)))
  {
    nodes := [];
    var seen: set<string> := {};
    var text := body;
    if IsProbablyBase64(body) {
      match B64Decode(body) {
        case Some(dec) => text := dec;
        case None =>
      }
    }
    var parts := Split(text, '\n');
    ghost var found := NodesOf(lib, LinesOf(body));
    for i := 0 to |parts|
      invariant nodes == Collected(found[..i])
      invariant forall h :: h in seen <==> HasHash(nodes, h)
    {
      var line := TrimRightCR(parts[i]);
      var r := NodeOf(lib, line);
      assert r == found[i];
      CollectedStep(found, i);
      match r {
        case Some(n) =>
          if n.uriHash !in seen {
            AddedHash(nodes, n);
            seen := seen + {n.uriHash};
            nodes := nodes + [n];
          }
        case None =>
      }
    }
    assert found[..|parts|] == found;
  }

  lemma AddedHash(nodes: seq<Node>, n: Node)
    ensures forall h :: HasHash(nodes + [n], h) <==> HasHash(nodes, h) || h == n.uriHash
  {
    forall h ensures HasHash(nodes + [n], h) <==> HasHash(nodes, h) || h == n.uriHash {
      assert (nodes + [n])[|nodes|] == n;
      if HasHash(nodes, h) {
        var i :| 0 <= i < |nodes| && nodes[i].uriHash == h;
        assert (nodes + [n])[i].uriHash == h;
      }
    }
  }

  // ---- writing ----

  function Decimal(v: nat): string {
    if v < 10 then [('0' as int + v) as char] else Decimal(v / 10) + [('0' as int + v % 10) as char]
  }

  /** Latency in a node name; `?` when none was recorded. */
  function LatencyText(v: int): string {
    if v <= 0 then "?" else Decimal(v)
  }

  function Deref(p: Option<string>, def: string): string {
    match p case Some(s) => if s == "" then def else s case None => def
  }

  /** What the published name of a node is made of. */
  datatype Tag = Tag(cc: Option<string>, city: Option<string>, latencyMs: int, bestClass: string)

  function Label(t: Tag): string {
    Deref(t.cc, "XX") + "-" + Deref(t.city, "Unknown") + "-" + LatencyText(t.latencyMs) + "ms-" + t.bestClass
  }

  predicate TagBytes(t: Tag) {
    IsBytes(Deref(t.cc, "XX")) && IsBytes(Deref(t.city, "Unknown")) && IsBytes(t.bestClass)
  }

  lemma {:induction false} DecimalBytes(v: nat)
    ensures IsBytes(Decimal(v)) && Decimal(v) != ""
  {
    if v >= 10 { DecimalBytes(v / 10); }
  }

  lemma LabelBytes(t: Tag)
    requires TagBytes(t)
    ensures IsBytes(Label(t)) && Label(t) != ""
  {
    if t.latencyMs > 0 { DecimalBytes(t.latencyMs); }
  }

  function RenameFragment(uri: string, t: Tag): string
    requires TagBytes(t)
  {
    LabelBytes(t);
    CutFragment(uri) + "#" + QueryEscape(Label(t))
  }

  /** The lines of a published list (the loop of `publishVersion`). */
  function RenamedLines(uris: seq<string>, tags: seq<Tag>): (lines: seq<string>)
    requires |tags| == |uris| && forall i :: 0 <= i < |tags| ==> TagBytes(tags[i])
    ensures |lines| == |uris|
    ensures forall i :: 0 <= i < |uris| ==> lines[i] == RenameFragment(uris[i], tags[i])
  {
    seq(|uris|, i requires 0 <= i < |uris| => RenameFragment(uris[i], tags[i]))
  }

  method BodyOf(uris: seq<string>, tags: seq<Tag>) returns (body: string)
    requires |tags| == |uris| && forall i :: 0 <= i < |tags| ==> TagBytes(tags[i])
    requires IsBytes(Join(RenamedLines(uris, tags), '\n'))
    ensures body == Encode(Std, Join(RenamedLines(uris, tags), '\n'))
  {
    hide RenameFragment, Encode, Join;
    var lines: seq<string> := [];
    for i := 0 to |uris|
      invariant |lines| == i
      invariant forall j :: 0 <= j < i ==> lines[j] == RenameFragment(uris[j], tags[j])
    {
      lines := lines + [RenameFragment(uris[i], tags[i])];
    }
    assert lines == RenamedLines(uris, tags);
    body := Encode(Std, Join(lines, '\n'));
  }

  // ---- names ----

  lemma {:induction false} DecimalReads(v: nat)
    ensures IsDigits(Decimal(v)) && DecimalValue(Decimal(v)) == v
  {
    var d := Decimal(v);
    if v < 10 {
      assert d[..0] == "" && DecimalValue(d[..0]) == 0;
    } else {
      DecimalReads(v / 10);
      assert d[..|d| - 1] == Decimal(v / 10);
    }
  }

  /** The part that shows the latency. */
  predicate ShowsLatency(part: string, latencyMs: int) {
    && |part| > 2 && part[|part| - 2..] == "ms"
    && var number := part[..|part| - 2];
       if latencyMs <= 0 then number == "?" else IsDigits(number) && DecimalValue(number) == latencyMs
  }

  predicate ShowsOr(part: string, given: Option<string>, default: string) {
    part == if given.None? || given.value == "" then default else given.value
  }

  /** A published name is read back part by part: country, city, latency in milliseconds and class. */
  lemma LabelReads(t: Tag)
    requires '-' !in Deref(t.cc, "XX") && '-' !in Deref(t.city, "Unknown") && '-' !in t.bestClass
    ensures var parts := Split(Label(t), '-');
            && |parts| == 4 && ShowsOr(parts[0], t.cc, "XX") && ShowsOr(parts[1], t.city, "Unknown")
            && ShowsLatency(parts[2], t.latencyMs) && parts[3] == t.bestClass
  {
    var latency := LatencyText(t.latencyMs) + "ms";
    var parts := [Deref(t.cc, "XX"), Deref(t.city, "Unknown"), latency, t.bestClass];
    if t.latencyMs > 0 {
      DecimalReads(t.latencyMs);
      NoDash(Decimal(t.latencyMs));
    }
    assert latency[..|latency| - 2] == LatencyText(t.latencyMs) && latency[|latency| - 2..] == "ms";
    assert '-' !in latency;
    LabelJoins(t);
    hide Label, Deref, LatencyText, Split, Join;
    SplitOfJoin(parts, '-');
  }

  lemma NoDash(digits: string)
    requires IsDigits(digits)
    ensures '-' !in digits
  {
  }

  lemma LabelJoins(t: Tag)
    ensures Label(t) ==
            Join([Deref(t.cc, "XX"), Deref(t.city, "Unknown"), LatencyText(t.latencyMs) + "ms", t.bestClass], '-')
  {
    hide Deref, LatencyText, Join;
    var a, b, c, d := Deref(t.cc, "XX"), Deref(t.city, "Unknown"), LatencyText(t.latencyMs) + "ms", t.bestClass;
    assert [a, b, c, d] == [a] + [b, c, d] && [b, c, d] == [b] + [c, d] && [c, d] == [c] + [d];
    JoinStep(a, [b, c, d], '-');
    JoinStep(b, [c, d], '-');
    JoinStep(c, [d], '-');
    JoinOne(d);
    assert Label(t) == a + "-" + (b + "-" + (c + "-" + d));
  }

  lemma JoinOne(d: string)
    ensures Join([d], '-') == d
  {
  }
}
