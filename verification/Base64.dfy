/** RFC 4648 sections 4 and 5, Go's decoder for them, and the tolerant `b64Decode`
    of proxies/internal/parse/parse.go. */
module Base64 {
  import opened Basics

  datatype Alphabet = Std | Url

  /** Every character stands for one byte. */
  predicate IsBytes(s: string) {
    forall i :: 0 <= i < |s| ==> s[i] as int < 256
  }

  function EncodeChar(a: Alphabet, v: nat): char
    requires v < 64
  {
    if v < 26 then ('A' as int + v) as char
    else if v < 52 then ('a' as int + (v - 26)) as char
    else if v < 62 then ('0' as int + (v - 52)) as char
    else if v == 62 then (if a.Std? then '+' else '-')
    else (if a.Std? then '/' else '_')
  }

  function DecodeChar(a: Alphabet, c: char): (r: Option<nat>)
    ensures r.Some? ==> r.value < 64
  {
    if 'A' <= c <= 'Z' then Some(c as int - 'A' as int)
    else if 'a' <= c <= 'z' then Some(c as int - 'a' as int + 26)
    else if '0' <= c <= '9' then Some(c as int - '0' as int + 52)
    else if c == (if a.Std? then '+' else '-') then Some(62)
    else if c == (if a.Std? then '/' else '_') then Some(63)
    else None
  }

  lemma DecodeCharInverts(a: Alphabet, v: nat)
    requires v < 64
    ensures DecodeChar(a, EncodeChar(a, v)) == Some(v)
    ensures EncodeChar(a, v) !in "=\r\n"
  {
  }

  /** A character stands for a sextet in an alphabet exactly when the sextet is written so. */
  lemma DecodeCharIff(a: Alphabet, c: char, v: nat)
    ensures DecodeChar(a, c) == Some(v) <==> v < 64 && c == EncodeChar(a, v)
  {
  }

  // The four sextets of a quantum of three octets, and the octets of a quantum of sextets.

  function Sextets(x: nat, y: nat, z: nat): (q: (nat, nat, nat, nat))
    requires x < 256 && y < 256 && z < 256
    ensures q.0 < 64 && q.1 < 64 && q.2 < 64 && q.3 < 64
  {
    (x / 4, x % 4 * 16 + y / 16, y % 16 * 4 + z / 64, z % 64)
  }

  function Octets(p: nat, q: nat, r: nat, t: nat): (o: (nat, nat, nat))
    requires p < 64 && q < 64 && r < 64 && t < 64
    ensures o.0 < 256 && o.1 < 256 && o.2 < 256
  {
    (p * 4 + q / 16, q % 16 * 16 + r / 4, r % 4 * 64 + t)
  }

  lemma OctetsInvertSextets(x: nat, y: nat, z: nat)
    requires x < 256 && y < 256 && z < 256
    ensures var q := Sextets(x, y, z); Octets(q.0, q.1, q.2, q.3) == (x, y, z)
  {
    ComeApart(x, y, 4, 16);
    ComeApart(y, z, 16, 64);
    assert z == z / 64 * 64 + z % 64;
  }

  /** The low part of one octet and the high part of the next, packed into a sextet, come apart. */
  lemma ComeApart(x: nat, y: nat, low: nat, high: nat)
    requires (low == 4 && high == 16) || (low == 16 && high == 64)
    requires y < 256
    ensures var s := x % low * (64 / low) + y / high;
            && s / (64 / low) == x % low && s % (64 / low) == y / high
            && x / low * low + x % low == x
  {
    assert y / high < 64 / low;
  }

  /** The characters of one whole quantum. */
  function QuantumChars(a: Alphabet, x: nat, y: nat, z: nat): (e: string)
    requires x < 256 && y < 256 && z < 256
    ensures |e| == 4
    ensures var q := Sextets(x, y, z);
            && DecodeChar(a, e[0]) == Some(q.0) && DecodeChar(a, e[1]) == Some(q.1)
            && DecodeChar(a, e[2]) == Some(q.2) && DecodeChar(a, e[3]) == Some(q.3)
  {
    var q := Sextets(x, y, z);
    DecodeCharInverts(a, q.0); DecodeCharInverts(a, q.1);
    DecodeCharInverts(a, q.2); DecodeCharInverts(a, q.3);
    [EncodeChar(a, q.0), EncodeChar(a, q.1), EncodeChar(a, q.2), EncodeChar(a, q.3)]
  }

  /** Number of `=` signs that complete the last quantum of an encoding of `n` bytes. */
  function PadLength(n: nat): nat {
    (3 - n % 3) % 3
  }

  /** RFC 4648 encoding without the trailing `=` signs. */
  function EncodeRaw(a: Alphabet, b: string): (e: string)
    requires IsBytes(b)
    ensures b == "" <==> e == ""
  {
    if b == "" then ""
    else if |b| == 1 then QuantumChars(a, b[0] as int, 0, 0)[..2]
    else if |b| == 2 then QuantumChars(a, b[0] as int, b[1] as int, 0)[..3]
    else QuantumChars(a, b[0] as int, b[1] as int, b[2] as int) + EncodeRaw(a, b[3..])
  }

  function RawLength(n: nat): nat {
    if n == 0 then 0 else if n < 3 then n + 1 else 4 + RawLength(n - 3)
  }

  lemma {:induction false} RawLengthMod(n: nat)
    ensures (RawLength(n) + PadLength(n)) % 4 == 0
  {
    if n >= 3 {
      RawLengthMod(n - 3);
      assert PadLength(n - 3) == PadLength(n);
    }
  }

  lemma {:induction false} EncodeRawLength(a: Alphabet, b: string)
    requires IsBytes(b)
    ensures |EncodeRaw(a, b)| == RawLength(|b|)
  {
    if |b| >= 3 {
      EncodeRawLength(a, b[3..]);
    }
  }

  function Pad(k: nat): (p: string)
    ensures |p| == k
  {
    seq(k, _ => '=')
  }

  /** RFC 4648 encoding with padding (`EncodeToString`). */
  function Encode(a: Alphabet, b: string): string
    requires IsBytes(b)
  {
    EncodeRaw(a, b) + Pad(PadLength(|b|))
  }

  /** Go's decoder skips carriage returns and line feeds wherever they stand. */
  function SkipBreaks(s: string): string {
    if s == "" then ""
    else if s[0] == '\r' || s[0] == '\n' then SkipBreaks(s[1..])
    else [s[0]] + SkipBreaks(s[1..])
  }

  /** Go's padded, non-strict decoder on input without line breaks: whole quanta, of which
      only the last may end in one or two `=`; the unused low bits of that one are ignored. */
  function DecodeQuanta(a: Alphabet, s: string): Option<string>
  {
    if s == "" then Some("")
    else if |s| < 4 then None
    else
      match (DecodeChar(a, s[0]), DecodeChar(a, s[1]), DecodeChar(a, s[2]), DecodeChar(a, s[3]))
      case (Some(p), Some(q), Some(r), Some(t)) =>
        (match DecodeQuanta(a, s[4..])
         case None => None
         case Some(rest) =>
           var o := Octets(p, q, r, t);
           Some([o.0 as char, o.1 as char, o.2 as char] + rest))
      case (Some(p), Some(q), Some(r), None) =>
        if s[3] == '=' && |s| == 4 then
          var o := Octets(p, q, r, 0);
          Some([o.0 as char, o.1 as char])
        else None
      case (Some(p), Some(q), None, _) =>
        if s[2..] == "==" then Some([Octets(p, q, 0, 0).0 as char]) else None
      case _ => None
  }

  function DecodeString(a: Alphabet, s: string): Option<string> {
    DecodeQuanta(a, SkipBreaks(s))
  }

  /** `b64Decode`: pad to a multiple of four, try the standard alphabet, then the URL-safe one. */
  function B64Decode(s: string): Option<string> {
    if s == "" then None
    else
      var padded := if |s| % 4 != 0 then s + Pad(4 - |s| % 4) else s;
      match DecodeString(Std, padded)
      case Some(b) => Some(b)
      case None => DecodeString(Url, padded)
  }

  lemma {:induction false} SkipBreaksId(s: string)
    requires '\r' !in s && '\n' !in s
    ensures SkipBreaks(s) == s
  {
    if s != "" {
      assert s == [s[0]] + s[1..];
      SkipBreaksId(s[1..]);
    }
  }

  /** The characters of an encoding. */
  predicate InAlphabet(a: Alphabet, c: char) {
    DecodeChar(a, c).Some?
  }

  lemma {:induction false} DecodeQuantaBytes(a: Alphabet, s: string)
    ensures DecodeQuanta(a, s).Some? ==> IsBytes(DecodeQuanta(a, s).value)
  {
    if |s| >= 4 {
      DecodeQuantaBytes(a, s[4..]);
    }
  }

  lemma DecodedBytes(s: string)
    ensures B64Decode(s).Some? ==> IsBytes(B64Decode(s).value)
  {
    var padded := if |s| % 4 != 0 then s + Pad(4 - |s| % 4) else s;
    DecodeQuantaBytes(Std, SkipBreaks(padded));
    DecodeQuantaBytes(Url, SkipBreaks(padded));
  }

  lemma {:induction false} EncodeRawAlphabet(a: Alphabet, b: string)
    requires IsBytes(b)
    ensures forall c <- EncodeRaw(a, b) :: InAlphabet(a, c)
  {
    if |b| > 2 {
      EncodeRawAlphabet(a, b[3..]);
    }
  }

  lemma EncodeHasNoBreaks(a: Alphabet, b: string)
    requires IsBytes(b)
    ensures '\r' !in Encode(a, b) && '\n' !in Encode(a, b)
  {
    EncodeRawAlphabet(a, b);
  }

  lemma QuantumStep(a: Alphabet, quantum: string, rest: string, p: nat, q: nat, r: nat, t: nat)
    requires |quantum| == 4
    requires DecodeChar(a, quantum[0]) == Some(p) && DecodeChar(a, quantum[1]) == Some(q)
    requires DecodeChar(a, quantum[2]) == Some(r) && DecodeChar(a, quantum[3]) == Some(t)
    requires DecodeQuanta(a, rest).Some?
    ensures var o := Octets(p, q, r, t);
            DecodeQuanta(a, quantum + rest)
            == Some([o.0 as char, o.1 as char, o.2 as char] + DecodeQuanta(a, rest).value)
  {
    var s := quantum + rest;
    assert s[0] == quantum[0] && s[1] == quantum[1] && s[2] == quantum[2] && s[3] == quantum[3];
    assert s[4..] == rest;
  }

  lemma Regroup(a: string, b: string, c: string)
    ensures a + b + c == a + (b + c)
  {
  }

  lemma EncodeStep(a: Alphabet, b: string)
    requires IsBytes(b) && |b| >= 3
    ensures Encode(a, b) == QuantumChars(a, b[0] as int, b[1] as int, b[2] as int) + Encode(a, b[3..])
  {
    hide QuantumChars, EncodeRaw, Pad, PadLength;
    EncodeRawStep(a, b);
    PadLengthStep(|b|);
    Regroup(QuantumChars(a, b[0] as int, b[1] as int, b[2] as int), EncodeRaw(a, b[3..]), Pad(PadLength(|b|)));
  }

  lemma EncodeRawStep(a: Alphabet, b: string)
    requires IsBytes(b) && |b| >= 3
    ensures EncodeRaw(a, b) == QuantumChars(a, b[0] as int, b[1] as int, b[2] as int) + EncodeRaw(a, b[3..])
  {
    hide QuantumChars, Sextets, DecodeChar;
  }

  lemma PadLengthStep(n: nat)
    requires n >= 3
    ensures PadLength(n) == PadLength(n - 3)
  {
  }

  lemma WholeQuantum(a: Alphabet, b: string)
    requires IsBytes(b) && |b| >= 3
    requires DecodeQuanta(a, Encode(a, b[3..])) == Some(b[3..])
    ensures DecodeQuanta(a, Encode(a, b)) == Some(b)
  {
    var x, y, z := b[0] as int, b[1] as int, b[2] as int;
    var q := Sextets(x, y, z);
    QuantumStep(a, QuantumChars(a, x, y, z), Encode(a, b[3..]), q.0, q.1, q.2, q.3);
    OctetsInvertSextets(x, y, z);
    EncodeStep(a, b);
    assert b == [b[0], b[1], b[2]] + b[3..];
  }

  /** A final quantum with two padding characters. */
  lemma DecodeTwo(a: Alphabet, e: string, p: nat, q: nat)
    requires |e| == 4 && DecodeChar(a, e[0]) == Some(p) && DecodeChar(a, e[1]) == Some(q) && e[2] == e[3] == '='
    ensures DecodeQuanta(a, e) == Some([Octets(p, q, 0, 0).0 as char])
  {
    hide Octets;
    assert e[2..] == "==";
  }

  /** A final quantum with one padding character. */
  lemma DecodeThree(a: Alphabet, e: string, p: nat, q: nat, r: nat)
    requires |e| == 4 && DecodeChar(a, e[0]) == Some(p) && DecodeChar(a, e[1]) == Some(q)
    requires DecodeChar(a, e[2]) == Some(r) && e[3] == '='
    ensures var o := Octets(p, q, r, 0); DecodeQuanta(a, e) == Some([o.0 as char, o.1 as char])
  {
    hide Octets;
  }

  lemma EncodeShort(a: Alphabet, b: string)
    requires IsBytes(b) && 1 <= |b| <= 2
    ensures var quantum := QuantumChars(a, b[0] as int, if |b| == 2 then b[1] as int else 0, 0);
            Encode(a, b) == [quantum[0], quantum[1], if |b| == 2 then quantum[2] else '=', '=']
  {
    hide QuantumChars;
    var quantum := QuantumChars(a, b[0] as int, if |b| == 2 then b[1] as int else 0, 0);
    assert EncodeRaw(a, b) == quantum[..|b| + 1] && PadLength(|b|) == 3 - |b|;
    hide EncodeRaw, PadLength;
    PaddedQuantum(quantum, |b|);
  }

  lemma PaddedQuantum(quantum: string, n: nat)
    requires |quantum| == 4 && 1 <= n <= 2
    ensures quantum[..n + 1] + Pad(3 - n) == [quantum[0], quantum[1], if n == 2 then quantum[2] else '=', '=']
  {
  }

  lemma LastOctet(a: Alphabet, b: string)
    requires IsBytes(b) && |b| == 1
    ensures DecodeQuanta(a, Encode(a, b)) == Some(b)
  {
    hide DecodeQuanta, Encode, QuantumChars, DecodeChar;
    var q := Sextets(b[0] as int, 0, 0);
    EncodeShort(a, b);
    DecodeTwo(a, Encode(a, b), q.0, q.1);
    OctetsInvertSextets(b[0] as int, 0, 0);
    assert b == [b[0]];
  }

  lemma LastTwoOctets(a: Alphabet, b: string)
    requires IsBytes(b) && |b| == 2
    ensures DecodeQuanta(a, Encode(a, b)) == Some(b)
  {
    hide DecodeQuanta, Encode, QuantumChars, DecodeChar;
    var x, y := b[0] as int, b[1] as int;
    var q := Sextets(x, y, 0);
    EncodeShort(a, b);
    DecodeThree(a, Encode(a, b), q.0, q.1, q.2);
    OctetsInvertSextets(x, y, 0);
    assert b == [b[0], b[1]];
  }

  lemma {:induction false} QuantaInvert(a: Alphabet, b: string)
    requires IsBytes(b)
    ensures DecodeQuanta(a, Encode(a, b)) == Some(b)
  {
    if |b| >= 3 {
      QuantaInvert(a, b[3..]);
      WholeQuantum(a, b);
    } else if |b| == 2 {
      LastTwoOctets(a, b);
    } else if |b| == 1 {
      LastOctet(a, b);
    }
  }

  lemma BothAlphabets(c: char)
    ensures DecodeChar(Std, c).Some? && DecodeChar(Url, c).Some? ==> DecodeChar(Std, c) == DecodeChar(Url, c)
  {
  }

  /** Decoding URL-safe text with the standard alphabet either fails or agrees: the two
      alphabets differ only in characters that the other one lacks. */
  lemma {:induction false} StdOnUrlText(s: string)
    requires DecodeQuanta(Std, s).Some? && DecodeQuanta(Url, s).Some?
    ensures DecodeQuanta(Std, s) == DecodeQuanta(Url, s)
  {
    if |s| >= 4 {
      BothAlphabets(s[0]);
      BothAlphabets(s[1]);
      BothAlphabets(s[2]);
      BothAlphabets(s[3]);
    }
    if |s| > 4 {
      StdOnUrlText(s[4..]);
    }
  }

  /** `b64Decode` recovers every byte string from either RFC 4648 encoding of it, whatever
      part of the padding was dropped, exactly when the byte string is not empty. */
  lemma DecodeInvertsEncode(a: Alphabet, b: string, kept: nat)
    requires IsBytes(b)
    requires kept <= PadLength(|b|)
    ensures B64Decode(EncodeRaw(a, b) + Pad(kept)) == Some(b) <==> b != ""
  {
    var s := EncodeRaw(a, b) + Pad(kept);
    if b == "" {
      assert s == "";
    } else {
      PaddingRestored(a, b, kept);
      DecodesWhenPadded(a, b, s);
    }
  }

  lemma DecodesWhenPadded(a: Alphabet, b: string, s: string)
    requires IsBytes(b) && s != ""
    requires (if |s| % 4 != 0 then s + Pad(4 - |s| % 4) else s) == Encode(a, b)
    ensures B64Decode(s) == Some(b)
  {
    EncodeHasNoBreaks(a, b);
    SkipBreaksId(Encode(a, b));
    QuantaInvert(a, b);
    AlphabetChoice(a, Encode(a, b), b);
  }

  /** Trying the standard alphabet first never changes the outcome. */
  lemma AlphabetChoice(a: Alphabet, e: string, b: string)
    requires DecodeString(a, e) == Some(b)
    ensures DecodeString(Std, e) == Some(b) || (DecodeString(Std, e).None? && DecodeString(Url, e) == Some(b))
  {
    if a == Url && DecodeString(Std, e).Some? {
      StdOnUrlText(SkipBreaks(e));
    }
  }

  lemma PaddingRestored(a: Alphabet, b: string, kept: nat)
    requires IsBytes(b) && kept <= PadLength(|b|)
    ensures var s := EncodeRaw(a, b) + Pad(kept);
            (if |s| % 4 != 0 then s + Pad(4 - |s| % 4) else s) == Encode(a, b)
  {
    hide EncodeRaw;
    EncodeRawLength(a, b);
    RawLengthMod(|b|);
    var raw := EncodeRaw(a, b);
    PaddingCompletes(|raw|, |b|, kept);
    assert raw + Pad(kept) + Pad(PadLength(|b|) - kept) == raw + Pad(PadLength(|b|));
  }

  /** Padding to a multiple of four restores exactly the signs that were dropped. */
  lemma PaddingCompletes(raw: nat, n: nat, kept: nat)
    requires (raw + PadLength(n)) % 4 == 0 && kept <= PadLength(n)
    ensures (raw + kept) % 4 != 0 ==> 4 - (raw + kept) % 4 == PadLength(n) - kept
    ensures (raw + kept) % 4 == 0 ==> PadLength(n) == kept
  {
  }
}
