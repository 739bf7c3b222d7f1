/** The parts of Go's `strings` and `sort` packages that the link parser relies on.
    A Go string is modelled as a `string` with one `char` per byte. */
module Strings {
  import opened Basics

  /** First position of `c`, or -1 (`strings.IndexByte`). */
  function IndexByte(s: string, c: char): (i: int)
    ensures -1 <= i < |s|
    ensures i < 0 <==> c !in s
    ensures i >= 0 ==> s[i] == c && c !in s[..i]
  {
    if s == [] then -1
    else if s[0] == c then 0
    else
      var j := IndexByte(s[1..], c);
      assert s == [s[0]] + s[1..];
      assert j >= 0 ==> s[..j + 1] == [s[0]] + s[1..][..j];
      if j < 0 then -1 else j + 1
  }

  /** Last position of `c`, or -1 (`strings.LastIndexByte`). */
  function LastIndexByte(s: string, c: char): (i: int)
    ensures -1 <= i < |s|
    ensures i < 0 <==> c !in s
    ensures i >= 0 ==> s[i] == c && c !in s[i + 1..]
  {
    if s == [] then -1
    else
      var n := |s| - 1;
      assert s == s[..n] + [s[n]];
      if s[n] == c then n
      else
        var j := LastIndexByte(s[..n], c);
        assert j >= 0 ==> s[j + 1..] == s[..n][j + 1..] + [s[n]];
        j
  }

  /** `sub` occurs in `s` at position `k`. */
  predicate OccursAt(s: string, sub: string, k: int) {
    0 <= k <= |s| - |sub| && s[k..k + |sub|] == sub
  }

  /** First occurrence of `sub`, or -1 (`strings.Index`). */
  function Index(s: string, sub: string): (i: int)
    ensures i >= -1
    ensures i >= 0 ==> OccursAt(s, sub, i)
    ensures i >= 0 ==> forall k :: 0 <= k < i ==> !OccursAt(s, sub, k)
    ensures i < 0 ==> forall k :: !OccursAt(s, sub, k)
  {
    if |s| < |sub| then -1
    else if s[..|sub|] == sub then 0
    else
      var j := Index(s[1..], sub);
      assert forall k :: OccursAt(s, sub, k) ==> k > 0 && OccursAt(s[1..], sub, k - 1);
      if j < 0 then -1 else j + 1
  }

  lemma IndexIsFirst(s: string, sub: string, i: int)
    requires OccursAt(s, sub, i)
    requires forall k :: 0 <= k < i ==> !OccursAt(s, sub, k)
    ensures Index(s, sub) == i
  {
    var _ := Index(s, sub);
  }

  lemma AbsentFromSlice(s: string, lo: nat, hi: nat, c: char)
    requires lo <= hi <= |s| && c !in s[lo..hi]
    ensures forall k :: lo <= k < hi ==> s[k] != c
  {
    forall k | lo <= k < hi ensures s[k] != c {
      assert s[k] == s[lo..hi][k - lo];
    }
  }

  /** The only position of `c` whose prefix is free of `c` is the one IndexByte finds. */
  lemma IndexByteIs(s: string, c: char, i: int)
    requires 0 <= i < |s| && s[i] == c && c !in s[..i]
    ensures IndexByte(s, c) == i
  {
    var j := IndexByte(s, c);
    AbsentFromSlice(s, 0, i, c);
    AbsentFromSlice(s, 0, j, c);
  }

  lemma LastIndexByteIs(s: string, c: char, i: int)
    requires 0 <= i < |s| && s[i] == c && c !in s[i + 1..]
    ensures LastIndexByte(s, c) == i
  {
    var j := LastIndexByte(s, c);
    AbsentFromSlice(s, i + 1, |s|, c);
    AbsentFromSlice(s, j + 1, |s|, c);
  }

  predicate HasPrefix(s: string, p: string) { p <= s }

  predicate HasSuffix(s: string, p: string) { |p| <= |s| && s[|s| - |p|..] == p }

  function TrimPrefix(s: string, p: string): string {
    if HasPrefix(s, p) then s[|p|..] else s
  }

  function TrimSuffix(s: string, p: string): string {
    if HasSuffix(s, p) then s[..|s| - |p|] else s
  }

  /** ASCII letter case, as `strings.ToLower` on ASCII input. */
  function LowerChar(c: char): char {
    if 'A' <= c <= 'Z' then (c as int + 32) as char else c
  }

  function ToLower(s: string): (r: string)
    ensures |r| == |s|
    ensures forall i :: 0 <= i < |s| ==> r[i] == LowerChar(s[i])
  {
    seq(|s|, i requires 0 <= i < |s| => LowerChar(s[i]))
  }

  lemma ToLowerConcat(a: string, b: string)
    ensures ToLower(a + b) == ToLower(a) + ToLower(b)
  {
  }

  lemma ToLowerTwice(s: string)
    ensures ToLower(ToLower(s)) == ToLower(s)
  {
  }

  /** A character that is not a lower-case letter has no second preimage under LowerChar. */
  lemma ToLowerKeepsByte(s: string, c: char)
    requires !('a' <= c <= 'z') && !('A' <= c <= 'Z')
    ensures c in ToLower(s) <==> c in s
  {
    if c in s {
      var i :| 0 <= i < |s| && s[i] == c;
      assert ToLower(s)[i] == c;
    }
    if c in ToLower(s) {
      var i :| 0 <= i < |s| && ToLower(s)[i] == c;
      assert s[i] == c;
    }
  }

  /** ASCII white space, as `strings.TrimSpace` on ASCII input. */
  predicate IsSpace(c: char) {
    c == ' ' || '\t' <= c <= '\r'
  }

  function TrimLeftSpace(s: string): string {
    if s != [] && IsSpace(s[0]) then TrimLeftSpace(s[1..]) else s
  }

  function TrimRightSpace(s: string): string {
    if s != [] && IsSpace(s[|s| - 1]) then TrimRightSpace(s[..|s| - 1]) else s
  }

  function TrimSpace(s: string): string {
    TrimRightSpace(TrimLeftSpace(s))
  }

  /** `strings.TrimRight(s, "\r")`. */
  function TrimRightCR(s: string): string {
    if s != [] && s[|s| - 1] == '\r' then TrimRightCR(s[..|s| - 1]) else s
  }

  /** `strings.Split(s, c)` for a one-byte separator. */
  function Split(s: string, c: char): (parts: seq<string>)
    ensures parts != []
    ensures forall p <- parts :: c !in p
    decreases |s|
  {
    var i := IndexByte(s, c);
    if i < 0 then [s] else [s[..i]] + Split(s[i + 1..], c)
  }

  /** `strings.Join(parts, c)` for a one-byte separator. */
  function Join(parts: seq<string>, c: char): string {
    if parts == [] then ""
    else if |parts| == 1 then parts[0]
    else parts[0] + [c] + Join(parts[1..], c)
  }

  lemma SplitStep(p: string, rest: string, c: char)
    requires c !in p
    ensures Split(p + [c] + rest, c) == [p] + Split(rest, c)
  {
    var s := p + [c] + rest;
    assert s[..|p|] == p && s[|p|] == c && s[|p| + 1..] == rest;
    IndexByteIs(s, c, |p|);
  }

  lemma {:induction false} SplitOfJoin(parts: seq<string>, c: char)
    requires parts != []
    requires forall p <- parts :: c !in p
    ensures Split(Join(parts, c), c) == parts
  {
    if |parts| == 1 {
      assert parts == [parts[0]];
    } else {
      assert forall p <- parts[1..] :: p in parts;
      SplitOfJoin(parts[1..], c);
      SplitStep(parts[0], Join(parts[1..], c), c);
      assert parts == [parts[0]] + parts[1..];
    }
  }

  lemma JoinStep(p: string, rest: seq<string>, c: char)
    requires rest != []
    ensures Join([p] + rest, c) == p + [c] + Join(rest, c)
  {
    assert ([p] + rest)[1..] == rest;
  }

  lemma {:induction false} JoinOfSplit(s: string, c: char)
    ensures Join(Split(s, c), c) == s
    decreases |s|
  {
    var i := IndexByte(s, c);
    if i >= 0 {
      var rest := Split(s[i + 1..], c);
      JoinOfSplit(s[i + 1..], c);
      JoinStep(s[..i], rest, c);
      assert s == s[..i] + [c] + s[i + 1..];
    }
  }

  /** Bytes other than the separator come from some part. */
  lemma {:induction false} JoinLacks(parts: seq<string>, c: char, d: char)
    requires c != d
    requires forall p <- parts :: d !in p
    ensures d !in Join(parts, c)
  {
    if |parts| > 1 {
      JoinLacks(parts[1..], c, d);
    }
  }

  lemma {:induction false} SplitLacks(s: string, c: char, d: char)
    requires d !in s
    ensures forall p <- Split(s, c) :: d !in p
    decreases |s|
  {
    var i := IndexByte(s, c);
    if i >= 0 {
      SplitLacks(s[i + 1..], c, d);
    }
  }

  /** The non-empty strings of a list, in order. */
  function NonEmpty(parts: seq<string>): (kept: seq<string>)
    ensures forall p <- kept :: p != "" && p in parts
  {
    if parts == [] then []
    else if parts[0] == "" then NonEmpty(parts[1..])
    else [parts[0]] + NonEmpty(parts[1..])
  }

  lemma {:induction false} NonEmptySnoc(parts: seq<string>, p: string)
    ensures NonEmpty(parts + [p]) == NonEmpty(parts) + (if p == "" then [] else [p])
  {
    if parts == [] {
    } else {
      assert (parts + [p])[1..] == parts[1..] + [p];
      NonEmptySnoc(parts[1..], p);
    }
  }

  lemma {:induction false} NonEmptyId(parts: seq<string>)
    requires forall p <- parts :: p != ""
    ensures NonEmpty(parts) == parts
  {
    if parts != [] {
      assert forall p <- parts[1..] :: p in parts;
      assert parts[0] in parts;
      NonEmptyId(parts[1..]);
      assert parts == [parts[0]] + parts[1..];
    }
  }

  // ---- sort.Strings ----

  /** Go's `<=` on strings: lexicographic by byte. */
  predicate Leq(a: string, b: string) {
    a == [] || (b != [] && (a[0] < b[0] || (a[0] == b[0] && Leq(a[1..], b[1..]))))
  }

  /** The order by the first byte that differs; a text comes before its extensions. */
  lemma {:induction false} LeqIff(a: string, b: string)
    ensures Leq(a, b) <==> a <= b || exists i :: 0 <= i < |a| && i < |b| && a[..i] == b[..i] && a[i] < b[i]
  {
    if a != [] && b != [] {
      LeqIff(a[1..], b[1..]);
      LeqSteps(a, b);
    }
  }

  lemma LeqSteps(a: string, b: string)
    requires a != [] && b != []
    ensures a <= b <==> a[0] == b[0] && a[1..] <= b[1..]
    ensures (exists i :: 0 <= i < |a| && i < |b| && a[..i] == b[..i] && a[i] < b[i]) <==>
            a[0] < b[0] || (a[0] == b[0] && exists i :: 0 <= i < |a[1..]| && i < |b[1..]| &&
                                              a[1..][..i] == b[1..][..i] && a[1..][i] < b[1..][i])
  {
    assert a == [a[0]] + a[1..] && b == [b[0]] + b[1..];
    if a[0] < b[0] {
      assert a[..0] == b[..0] && a[0] < b[0];
    }
    if a[0] == b[0] {
      if i :| 0 <= i < |a[1..]| && i < |b[1..]| && a[1..][..i] == b[1..][..i] && a[1..][i] < b[1..][i] {
        assert a[..i + 1] == [a[0]] + a[1..][..i] && b[..i + 1] == [b[0]] + b[1..][..i];
        assert a[..i + 1] == b[..i + 1] && a[i + 1] < b[i + 1];
      }
    }
    if i :| 0 <= i < |a| && i < |b| && a[..i] == b[..i] && a[i] < b[i] {
      if i > 0 {
        assert a[..i][0] == b[..i][0];
        assert a[1..][..i - 1] == a[..i][1..] && b[1..][..i - 1] == b[..i][1..];
        assert a[1..][..i - 1] == b[1..][..i - 1] && a[1..][i - 1] < b[1..][i - 1];
      }
    }
  }

  lemma {:induction false} LeqTotal(a: string, b: string)
    ensures Leq(a, b) || Leq(b, a)
  {
    if a != [] && b != [] {
      LeqTotal(a[1..], b[1..]);
    }
  }

  lemma {:induction false} LeqTransitive(a: string, b: string, c: string)
    requires Leq(a, b) && Leq(b, c)
    ensures Leq(a, c)
  {
    if a != [] && a[0] == b[0] && b[0] == c[0] {
      LeqTransitive(a[1..], b[1..], c[1..]);
    }
  }

  lemma {:induction false} LeqAntisymmetric(a: string, b: string)
    requires Leq(a, b) && Leq(b, a)
    ensures a == b
  {
    if a != [] {
      LeqAntisymmetric(a[1..], b[1..]);
      assert a == [a[0]] + a[1..] && b == [b[0]] + b[1..];
    }
  }

  predicate Sorted(ss: seq<string>) {
    forall i, j :: 0 <= i < j < |ss| ==> Leq(ss[i], ss[j])
  }

  function Insert(x: string, ss: seq<string>): (r: seq<string>)
    requires Sorted(ss)
    ensures Sorted(r) && multiset(r) == multiset(ss) + multiset{x}
  {
    if ss == [] then [x]
    else if Leq(x, ss[0]) then
      assert forall k :: 0 <= k < |ss| ==> Leq(x, ss[k]) by {
        forall k | 0 <= k < |ss| ensures Leq(x, ss[k]) {
          if k > 0 { LeqTransitive(x, ss[0], ss[k]); }
        }
      }
      [x] + ss
    else
      var rest := Insert(x, ss[1..]);
      assert Sorted([ss[0]] + rest) by {
        LeqTotal(x, ss[0]);
        forall k | 0 <= k < |rest| ensures Leq(ss[0], rest[k]) {
          assert rest[k] in multiset(rest);
          assert rest[k] == x || rest[k] in ss[1..];
        }
      }
      assert ss == [ss[0]] + ss[1..];
      [ss[0]] + rest
  }

  /** The result of `sort.Strings`: the sorted arrangement of `ss`, unique by SortedUnique. */
  function SortStrings(ss: seq<string>): (r: seq<string>)
    ensures Sorted(r) && multiset(r) == multiset(ss)
  {
    if ss == [] then []
    else
      assert ss == [ss[0]] + ss[1..];
      Insert(ss[0], SortStrings(ss[1..]))
  }

  lemma SortedHeads(a: seq<string>, b: seq<string>)
    requires Sorted(a) && Sorted(b) && a != [] && b != []
    requires a[0] in b && b[0] in a
    ensures a[0] == b[0]
  {
    var i :| 0 <= i < |b| && b[i] == a[0];
    var j :| 0 <= j < |a| && a[j] == b[0];
    if i > 0 && j > 0 {
      LeqAntisymmetric(a[0], b[0]);
    }
  }

  lemma TailMultiset(a: seq<string>)
    requires a != []
    ensures multiset(a[1..]) == multiset(a) - multiset{a[0]}
  {
    assert a == [a[0]] + a[1..];
  }

  lemma {:induction false} SortedUnique(a: seq<string>, b: seq<string>)
    requires Sorted(a) && Sorted(b) && multiset(a) == multiset(b)
    ensures a == b
  {
    assert |multiset(a)| == |a| && |multiset(b)| == |b|;
    if a != [] {
      assert a[0] in multiset(b) && b[0] in multiset(a);
      SortedHeads(a, b);
      TailMultiset(a);
      TailMultiset(b);
      SortedUnique(a[1..], b[1..]);
      assert a == [a[0]] + a[1..] && b == [b[0]] + b[1..];
    }
  }

  lemma SortSame(a: seq<string>, b: seq<string>)
    ensures SortStrings(a) == SortStrings(b) <==> multiset(a) == multiset(b)
  {
    if multiset(a) == multiset(b) {
      SortedUnique(SortStrings(a), SortStrings(b));
    }
  }

  lemma SortMembers(ss: seq<string>)
    ensures forall p :: p in SortStrings(ss) <==> p in ss
    ensures |SortStrings(ss)| == |ss|
  {
    assert |multiset(SortStrings(ss))| == |multiset(ss)|;
    forall p ensures p in SortStrings(ss) <==> p in ss {
      assert p in SortStrings(ss) <==> p in multiset(SortStrings(ss));
      assert p in ss <==> p in multiset(ss);
    }
  }

  // ---- numbers ----

  predicate IsDigit(c: char) { '0' <= c <= '9' }

  predicate IsDigits(s: string) {
    s != "" && forall i :: 0 <= i < |s| ==> IsDigit(s[i])
  }

  function DecimalValue(s: string): nat
    requires forall i :: 0 <= i < |s| ==> IsDigit(s[i])
  {
    if s == "" then 0
    else
      assert IsDigit(s[|s| - 1]);
      10 * DecimalValue(s[..|s| - 1]) + (s[|s| - 1] as int - '0' as int)
  }

  const MAX_INT := 0x7fff_ffff_ffff_ffff
  const MIN_INT := -0x8000_0000_0000_0000

  datatype Number = Syntax | Range(clamped: int) | Number(value: int)

  /** `strconv.Atoi` on a 64-bit platform: optional sign, then decimal digits. */
  function Atoi(s: string): Number {
    var negative := HasPrefix(s, "-");
    var digits := if negative || HasPrefix(s, "+") then s[1..] else s;
    if !IsDigits(digits) then Syntax
    else
      var magnitude: int := DecimalValue(digits);
      var v := if negative then -magnitude else magnitude;
      if v > MAX_INT then Range(MAX_INT)
      else if v < MIN_INT then Range(MIN_INT)
      else Number(v)
  }
}
