/** `url.QueryEscape` and `url.QueryUnescape`, used for node names and query values. */
module Url {
  import opened Basics
  import opened Base64
  import opened Strings

  predicate Unreserved(c: char) {
    'A' <= c <= 'Z' || 'a' <= c <= 'z' || '0' <= c <= '9' || c in "-_.~"
  }

  function HexDigit(v: nat): char
    requires v < 16
  {
    if v < 10 then ('0' as int + v) as char else ('A' as int + (v - 10)) as char
  }

  function UnHex(c: char): (r: Option<nat>)
    ensures r.Some? ==> r.value < 16
  {
    if '0' <= c <= '9' then Some(c as int - '0' as int)
    else if 'A' <= c <= 'F' then Some(c as int - 'A' as int + 10)
    else if 'a' <= c <= 'f' then Some(c as int - 'a' as int + 10)
    else None
  }

  function EscapeByte(c: char): (e: string)
    requires c as int < 256
    ensures e != ""
  {
    if c == ' ' then "+"
    else if Unreserved(c) then [c]
    else ['%', HexDigit(c as int / 16), HexDigit(c as int % 16)]
  }

  function QueryEscape(s: string): string
    requires IsBytes(s)
  {
    if s == "" then "" else EscapeByte(s[0]) + QueryEscape(s[1..])
  }

  function QueryUnescape(s: string): Option<string> {
    if s == "" then Some("")
    else if s[0] == '%' then
      if |s| < 3 || UnHex(s[1]).None? || UnHex(s[2]).None? then None
      else
        (match QueryUnescape(s[3..])
         case None => None
         case Some(rest) => Some([(UnHex(s[1]).value * 16 + UnHex(s[2]).value) as char] + rest))
    else
      match QueryUnescape(s[1..])
      case None => None
      case Some(rest) => Some([if s[0] == '+' then ' ' else s[0]] + rest)
  }

  lemma UnescapeStep(c: char, e: string)
    requires c as int < 256
    ensures QueryUnescape(EscapeByte(c) + e)
            == (match QueryUnescape(e) case None => None case Some(rest) => Some([c] + rest))
  {
    var p := EscapeByte(c);
    var s := p + e;
    assert s[|p|..] == e;
    assert s[0] == p[0];
    if |p| == 3 {
      assert s[1] == p[1] && s[2] == p[2];
      assert UnHex(p[1]) == Some(c as int / 16) && UnHex(p[2]) == Some(c as int % 16);
    }
  }

  lemma {:induction false} UnescapeInvertsEscape(s: string)
    requires IsBytes(s)
    ensures QueryUnescape(QueryEscape(s)) == Some(s)
  {
    if s != "" {
      UnescapeInvertsEscape(s[1..]);
      UnescapeStep(s[0], QueryEscape(s[1..]));
      assert s == [s[0]] + s[1..];
    }
  }

  /** A byte that can occur in escaped text: printable ASCII, and none that delimits a link. */
  predicate EscapedByte(c: char) {
    Unreserved(c) || c == '+' || c == '%'
  }

  lemma {:induction false} EscapedText(s: string)
    requires IsBytes(s)
    ensures forall c <- QueryEscape(s) :: EscapedByte(c)
    ensures QueryEscape(s) == "" <==> s == ""
  {
    if s != "" {
      EscapedText(s[1..]);
      assert forall c <- EscapeByte(s[0]) :: EscapedByte(c);
    }
  }

  /** The value of a hexadecimal digit of either case. */
  predicate HexOf(c: char, v: int) {
    if v < 10 then 0 <= v && c as int == '0' as int + v
    else v < 16 && (c as int == 'a' as int + (v - 10) || c as int == 'A' as int + (v - 10))
  }

  /** `e` spells `s`: every byte as itself, as two hexadecimal digits of either case behind a percent sign,
      or, if it is a blank, as a plus. */
  ghost predicate Spelled(e: string, s: string) {
    if e == "" then s == ""
    else if e[0] == '%' then
      && |e| >= 3 && s != ""
      && (exists hi, lo :: HexOf(e[1], hi) && HexOf(e[2], lo) && s[0] as int == 16 * hi + lo)
      && Spelled(e[3..], s[1..])
    else
      s != "" && s[0] == (if e[0] == '+' then ' ' else e[0]) && Spelled(e[1..], s[1..])
  }

  lemma UnHexIs(c: char)
    ensures forall v :: HexOf(c, v) <==> UnHex(c).Some? && UnHex(c).value == v
  {
  }

  /** A text is unescaped to what it spells, and to nothing exactly when it spells nothing. */
  lemma {:induction false} UnescapeIff(e: string, s: string)
    ensures QueryUnescape(e) == Some(s) <==> Spelled(e, s)
  {
    if e != "" && s != "" {
      assert s == [s[0]] + s[1..];
      if e[0] == '%' {
        if |e| >= 3 {
          UnescapeIff(e[3..], s[1..]);
          UnHexIs(e[1]);
          UnHexIs(e[2]);
          if UnHex(e[1]).Some? && UnHex(e[2]).Some? {
            assert HexOf(e[1], UnHex(e[1]).value) && HexOf(e[2], UnHex(e[2]).value);
          }
        }
      } else {
        UnescapeIff(e[1..], s[1..]);
      }
    }
  }
}
