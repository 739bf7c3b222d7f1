/** Subscription bodies in base64 that is broken into lines, or ends in a line break. */
module LineBreaks {
  import opened Basics
  import opened Strings
  import opened Base64
  import opened Links
  import opened ShareLink
  import opened Subscription
  import opened RoundTrip

  // ---- base64 with line breaks ----

  /** The line breaks in a text: what the decoder skips. */
  function Breaks(s: string): (n: int) {
    |s| - |SkipBreaks(s)|
  }

  lemma {:induction false} SkipConcat(s: string, t: string)
    ensures SkipBreaks(s + t) == SkipBreaks(s) + SkipBreaks(t)
  {
    if s == "" {
      assert s + t == t;
    } else {
      assert (s + t)[1..] == s[1..] + t;
      SkipConcat(s[1..], t);
    }
  }

  /** Only whole quanta decode. */
  lemma {:induction false} QuantaLength(a: Alphabet, s: string)
    ensures DecodeQuanta(a, s).Some? ==> |s| % 4 == 0
  {
    if |s| >= 4 {
      QuantaLength(a, s[4..]);
    }
  }

  /** Characters of the alphabet up to at most two signs. */
  predicate QuantaText(a: Alphabet, s: string, signs: nat) {
    && signs <= 2 && signs <= |s| && s[|s| - signs..] == Pad(signs)
    && forall c <- s[..|s| - signs] :: InAlphabet(a, c)
  }

  /** Exactly such texts of whole quanta decode. */
  lemma {:induction false} QuantaIff(a: Alphabet, s: string)
    ensures DecodeQuanta(a, s).Some? <==> |s| % 4 == 0 && exists signs :: QuantaText(a, s, signs)
  {
    if s == "" {
      assert QuantaText(a, s, 0);
    } else if |s| == 4 {
      LastQuantumIff(a, s);
    } else if |s| > 4 {
      QuantaIff(a, s[4..]);
      FirstQuantumDecodes(a, s);
      QuantaLength(a, s);
      hide DecodeQuanta, InAlphabet, QuantaText;
      forall signs: nat | |s| >= 8
        ensures QuantaText(a, s, signs) <==>
                InAlphabet(a, s[0]) && InAlphabet(a, s[1]) && InAlphabet(a, s[2]) && InAlphabet(a, s[3])
                && QuantaText(a, s[4..], signs)
      {
        FirstQuantumText(a, s, signs);
      }
    }
  }

  lemma LastQuantumIff(a: Alphabet, s: string)
    requires |s| == 4
    ensures DecodeQuanta(a, s).Some? <==> exists signs :: QuantaText(a, s, signs)
  {
    assert s[4..] == "" && s == [s[0], s[1], s[2], s[3]];
    SignIsNone(a);
    if DecodeQuanta(a, s).Some? {
      if InAlphabet(a, s[3]) {
        assert QuantaText(a, s, 0);
      } else if InAlphabet(a, s[2]) {
        assert QuantaText(a, s, 1);
      } else {
        assert QuantaText(a, s, 2);
      }
    }
    if signs: nat :| QuantaText(a, s, signs) {
      LastQuantumDecodes(a, s, signs);
    }
  }

  lemma SignIsNone(a: Alphabet)
    ensures !InAlphabet(a, '=')
  {
  }

  lemma LastQuantumDecodes(a: Alphabet, s: string, signs: nat)
    requires |s| == 4 && QuantaText(a, s, signs)
    ensures DecodeQuanta(a, s).Some?
  {
    var t := s[..|s| - signs];
    assert forall i :: 0 <= i < |t| ==> s[i] == t[i] && t[i] in t && InAlphabet(a, s[i]);
    SignIsNone(a);
    if signs == 0 {
      assert s[4..] == "" && InAlphabet(a, s[2]) && InAlphabet(a, s[3]);
    } else if signs == 1 {
      assert InAlphabet(a, s[2]) && s[3..][0] == s[3] == '=';
    } else {
      assert signs == 2 && Pad(2) == "==";
      assert s[2..] == "==" && s[2..][0] == s[2] == '=';
    }
  }

  lemma FirstQuantumDecodes(a: Alphabet, s: string)
    requires |s| > 4
    ensures DecodeQuanta(a, s).Some? <==>
            InAlphabet(a, s[0]) && InAlphabet(a, s[1]) && InAlphabet(a, s[2]) && InAlphabet(a, s[3])
            && DecodeQuanta(a, s[4..]).Some?
  {
    assert s[2..] != "==";
  }

  lemma FirstQuantumText(a: Alphabet, s: string, signs: nat)
    requires |s| >= 8
    ensures QuantaText(a, s, signs) <==>
            InAlphabet(a, s[0]) && InAlphabet(a, s[1]) && InAlphabet(a, s[2]) && InAlphabet(a, s[3])
            && QuantaText(a, s[4..], signs)
  {
    hide InAlphabet;
    if signs <= 2 {
      var t, u := s[..|s| - signs], s[4..][..|s[4..]| - signs];
      assert t == [s[0], s[1], s[2], s[3]] + u;
      assert s[|s| - signs..] == s[4..][|s[4..]| - signs..];
    }
  }

  /** The signs that complete a text to a multiple of four. */
  function Missing(s: string): nat {
    if |s| % 4 != 0 then 4 - |s| % 4 else 0
  }

  function Padded(s: string): string {
    if |s| % 4 != 0 then s + Pad(4 - |s| % 4) else s
  }

  lemma DecodePadded(s: string)
    requires s != ""
    ensures B64Decode(s) == match DecodeQuanta(Std, SkipBreaks(Padded(s)))
                            case Some(b) => Some(b) case None => DecodeQuanta(Url, SkipBreaks(Padded(s)))
  {
  }

  lemma PadSum(k: nat, p: nat)
    ensures Pad(k) + Pad(p) == Pad(k + p) && SkipBreaks(Pad(p)) == Pad(p)
  {
    SkipBreaksId(Pad(p));
  }

  lemma PaddedIs(s: string)
    ensures Padded(s) == s + Pad(Missing(s)) && (|s| + Missing(s)) % 4 == 0
  {
    assert s + Pad(0) == s;
  }

  lemma SkipPadded(s: string, raw: string, kept: nat)
    requires SkipBreaks(s) == raw + Pad(kept)
    ensures SkipBreaks(Padded(s)) == raw + Pad(kept + Missing(s))
  {
    hide SkipBreaks, Padded, Missing, Pad;
    var p := Missing(s);
    PaddedIs(s);
    PadSum(kept, p);
    SkipConcat(s, Pad(p));
    assert raw + Pad(kept) + Pad(p) == raw + (Pad(kept) + Pad(p));
  }

  /** The appended signs are counted from the length with its line breaks, so they complete the encoding
      exactly when the breaks do not disturb the count. */
  lemma BreaksDecodeIff(a: Alphabet, text: string, kept: nat, body: string)
    requires IsBytes(text) && text != "" && kept <= PadLength(|text|)
    requires SkipBreaks(body) == EncodeRaw(a, text) + Pad(kept)
    ensures B64Decode(body) == if Breaks(body) % 4 == 0 then Some(text) else None
  {
    RawNotEmpty(a, text);
    SignsComplete(a, text, kept, body);
    hide EncodeRaw, DecodeQuanta, Padded, B64Decode, SkipBreaks, Missing, PadLength, Pad;
    NotEmpty(body);
    DecodePadded(body);
    SkipPadded(body, EncodeRaw(a, text), kept);
    var whole := Breaks(body) % 4 == 0;
    hide Breaks;
    EitherAlphabet(a, text, kept + Missing(body), whole);
  }

  lemma SignsComplete(a: Alphabet, text: string, kept: nat, body: string)
    requires IsBytes(text) && kept <= PadLength(|text|) && SkipBreaks(body) == EncodeRaw(a, text) + Pad(kept)
    ensures if Breaks(body) % 4 == 0 then kept + Missing(body) == PadLength(|text|)
            else |EncodeRaw(a, text) + Pad(kept + Missing(body))| % 4 != 0
  {
    hide EncodeRaw, SkipBreaks, Missing, PadLength, RawLength, Pad, Padded;
    PaddedIs(body);
    MissingFew(body);
    EncodeRawLength(a, text);
    RawLengthMod(|text|);
    Completes(|EncodeRaw(a, text)|, |text|, kept, Missing(body), |body|);
  }

  /** An encoding with its padding decodes, and one of another length does not. */
  lemma EitherAlphabet(a: Alphabet, text: string, signs: nat, complete: bool)
    requires IsBytes(text) && text != ""
    requires if complete then signs == PadLength(|text|) else |EncodeRaw(a, text) + Pad(signs)| % 4 != 0
    ensures var e := EncodeRaw(a, text) + Pad(signs);
            (match DecodeQuanta(Std, e) case Some(b) => Some(b) case None => DecodeQuanta(Url, e))
            == if complete then Some(text) else None
  {
    hide EncodeRaw, DecodeQuanta, PadLength;
    var e := EncodeRaw(a, text) + Pad(signs);
    if complete {
      assert e == Encode(a, text);
      QuantaInvert(a, text);
      if a == Url && DecodeQuanta(Std, e).Some? {
        StdOnUrlText(e);
      }
    } else {
      QuantaLength(Std, e);
      QuantaLength(Url, e);
    }
  }

  lemma MissingFew(s: string)
    ensures Missing(s) < 4
  {
  }

  lemma NotEmpty(body: string)
    requires SkipBreaks(body) != ""
    ensures body != ""
  {
  }

  lemma Completes(raw: nat, n: nat, kept: nat, p: nat, length: nat)
    requires (raw + PadLength(n)) % 4 == 0 && kept <= PadLength(n) && p < 4 && (length + p) % 4 == 0
    ensures (length - (raw + kept)) % 4 == 0 ==> kept + p == PadLength(n)
    ensures (length - (raw + kept)) % 4 != 0 ==> (raw + kept + p) % 4 != 0
  {
  }

  // ---- what is read from such a body ----

  function TextLines(text: string): seq<string> {
    var parts := Split(text, '\n');
    seq(|parts|, i requires 0 <= i < |parts| => TrimRightCR(parts[i]))
  }

  predicate IsBreak(c: char) { c == '\n' || c == '\r' }

  lemma {:induction false} SkipKeeps(s: string, c: char)
    requires c in s && !IsBreak(c)
    ensures c in SkipBreaks(s)
  {
    if s[0] != c {
      SkipKeeps(s[1..], c);
    }
  }

  lemma WrappedChars(a: Alphabet, text: string, kept: nat, body: string)
    requires IsBytes(text) && SkipBreaks(body) == EncodeRaw(a, text) + Pad(kept)
    ensures forall c <- body :: LooksEncoded(c)
    ensures forall c <- body :: IsSpace(c) ==> IsBreak(c)
  {
    EncodeRawAlphabet(a, text);
    forall c <- body ensures LooksEncoded(c) && (IsSpace(c) ==> IsBreak(c)) {
      if !IsBreak(c) {
        SkipKeeps(body, c);
        assert c in EncodeRaw(a, text) || c in Pad(kept);
      }
    }
  }

  lemma WrappedLooksEncoded(a: Alphabet, text: string, kept: nat, body: string)
    requires IsBytes(text) && text != "" && SkipBreaks(body) == EncodeRaw(a, text) + Pad(kept)
    ensures IsProbablyBase64(body) && ':' !in body
  {
    hide TrimSpace, Index, EncodeRaw;
    WrappedChars(a, text, kept, body);
    SpacePart(body);
    var i, j :| 0 <= i <= j <= |body| && TrimSpace(body) == body[i..j];
    assert forall c <- TrimSpace(body) :: c in body;
    assert ':' !in body;
    NoColonNoDelimiter(TrimSpace(body));
    RawNotEmpty(a, text);
    var c := SkipBreaks(body)[0];
    NotSpace(a, text, kept, c);
    SkipFrom(body, c);
    TrimKeeps(body, c);
  }

  lemma RawNotEmpty(a: Alphabet, text: string)
    requires IsBytes(text) && text != ""
    ensures EncodeRaw(a, text) != ""
  {
  }

  lemma NotSpace(a: Alphabet, text: string, kept: nat, c: char)
    requires IsBytes(text) && c in EncodeRaw(a, text) + Pad(kept)
    ensures !IsSpace(c)
  {
    EncodeRawAlphabet(a, text);
  }

  lemma {:induction false} SkipFrom(s: string, c: char)
    requires c in SkipBreaks(s)
    ensures c in s
  {
    if s[0] != c {
      SkipFrom(s[1..], c);
    }
  }

  lemma {:induction false} TrimLeftKeeps(s: string, c: char)
    requires c in s && !IsSpace(c)
    ensures c in TrimLeftSpace(s)
  {
    if IsSpace(s[0]) {
      TrimLeftKeeps(s[1..], c);
    }
  }

  lemma {:induction false} TrimRightKeeps(s: string, c: char)
    requires c in s && !IsSpace(c)
    ensures c in TrimRightSpace(s)
    decreases |s|
  {
    if IsSpace(s[|s| - 1]) {
      TrimRightKeeps(s[..|s| - 1], c);
    }
  }

  lemma TrimKeeps(s: string, c: char)
    requires c in s && !IsSpace(c)
    ensures c in TrimSpace(s) && TrimSpace(s) != ""
  {
    TrimLeftKeeps(s, c);
    TrimRightKeeps(TrimLeftSpace(s), c);
  }

  lemma {:induction false} NoNodes(found: seq<Option<Node>>)
    requires forall i :: 0 <= i < |found| ==> found[i] == None
    ensures Collected(found) == []
  {
    if found != [] {
      NoNodes(found[..|found| - 1]);
    }
  }

  lemma NoColonNoNode(lib: Lib, line: string)
    requires ':' !in line
    ensures NodeOf(lib, line) == None
  {
    TrimPart(line);
    hide Trim, Index, Build, Canonical, PartOf;
    PartLacks(Trim(line), line, ':');
    NoColonNoDelimiter(Trim(line));
  }

  lemma PartLacks(t: string, s: string, c: char)
    requires PartOf(t, s) && c !in s
    ensures c !in t
  {
    var i, j :| 0 <= i <= j <= |s| && t == s[i..j];
  }

  /** A text without a colon holds no link. */
  lemma NoColonNothing(lib: Lib, text: string)
    requires ':' !in text
    ensures Collected(NodesOf(lib, TextLines(text))) == []
  {
    hide NodeOf, Collected;
    SplitLacks(text, '\n', ':');
    var lines := TextLines(text);
    forall i | 0 <= i < |lines| ensures NodeOf(lib, lines[i]) == None {
      var part := Split(text, '\n')[i];
      assert ':' !in part;
      TrimCRPrefix(part);
      assert ':' !in lines[i];
      NoColonNoNode(lib, lines[i]);
    }
    NoNodes(NodesOf(lib, lines));
  }

  /** Base64 in either alphabet, with any part of its padding and any line breaks in it: if the number of
      its line breaks is a multiple of four, the body is read as what it encodes, and otherwise it is read
      as nothing at all. */
  lemma WrappedBodyReads(lib: Lib, a: Alphabet, text: string, kept: nat, body: string)
    requires IsBytes(text) && text != "" && kept <= PadLength(|text|)
    requires SkipBreaks(body) == EncodeRaw(a, text) + Pad(kept)
    ensures Collected(NodesOf(lib, LinesOf(body))) ==
            if Breaks(body) % 4 == 0 then Collected(NodesOf(lib, TextLines(text))) else []
  {
    BreaksDecodeIff(a, text, kept, body);
    WrappedLooksEncoded(a, text, kept, body);
    hide EncodeRaw, SkipBreaks, B64Decode, IsProbablyBase64, Collected;
    if Breaks(body) % 4 == 0 {
      assert LinesOf(body) == TextLines(text);
    } else {
      assert LinesOf(body) == TextLines(body);
      NoColonNothing(lib, body);
    }
  }

  lemma BreakAdded(e: string)
    requires '\r' !in e && '\n' !in e
    ensures SkipBreaks(e + "\n") == e && Breaks(e + "\n") == 1
  {
    SkipBreaksId(e);
    SkipConcat(e, "\n");
    assert SkipBreaks("\n") == "" by {
      assert "\n"[1..] == "";
    }
    assert e + "" == e;
  }

  /** One line break at the end of a published body, and a reader finds nothing in it. */
  lemma FinalBreakLosesAll(lib: Lib, text: string)
    requires IsBytes(text) && text != ""
    ensures Collected(NodesOf(lib, LinesOf(Encode(Std, text) + "\n"))) == []
  {
    hide EncodeRaw, SkipBreaks, LinesOf, Collected, Breaks, PadLength, NodesOf;
    EncodeHasNoBreaks(Std, text);
    BreakAdded(Encode(Std, text));
    WrappedBodyReads(lib, Std, text, PadLength(|text|), Encode(Std, text) + "\n");
  }
}
