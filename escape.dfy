/**
 * CGI.escape, used to put a Base64 signature into a URL path segment:
 * letters, digits and "_.-~" stay, a space becomes "+", and every other
 * character becomes "%XX" per byte of its UTF-8 encoding (upper-case hex).
 */
module Escape {

  predicate Unreserved(c: char) {
    'a' <= c <= 'z' || 'A' <= c <= 'Z' || '0' <= c <= '9' || c == '_' || c == '.' || c == '-' || c == '~'
  }

  /** The UTF-8 bytes of a character. */
  function Utf8(c: char): (bs: seq<nat>)
    ensures 1 <= |bs| <= 4
    ensures forall i :: 0 <= i < |bs| ==> bs[i] < 256
    ensures c as int < 0x80 ==> bs == [c as int]
  {
    var n := c as int;
    if n < 0x80 then [n]
    else if n < 0x800 then [0xC0 + n / 64, 0x80 + n % 64]
    else if n < 0x10000 then [0xE0 + n / 4096, 0x80 + (n / 64) % 64, 0x80 + n % 64]
    else [0xF0 + n / 262144, 0x80 + (n / 4096) % 64, 0x80 + (n / 64) % 64, 0x80 + n % 64]
  }

  function HexChar(d: nat): (c: char)
    requires d < 16
  {
    if d < 10 then ('0' as int + d) as char else ('A' as int + d - 10) as char
  }

  predicate IsHexChar(c: char) {
    '0' <= c <= '9' || 'A' <= c <= 'F' || 'a' <= c <= 'f'
  }

  function HexValue(c: char): (d: nat)
    requires IsHexChar(c)
    ensures d < 16
  {
    if '0' <= c <= '9' then c as int - '0' as int
    else if 'A' <= c <= 'F' then c as int - 'A' as int + 10
    else c as int - 'a' as int + 10
  }

  function PercentBytes(bs: seq<nat>): string
    requires forall i :: 0 <= i < |bs| ==> bs[i] < 256
  {
    if bs == [] then "" else ['%', HexChar(bs[0] / 16), HexChar(bs[0] % 16)] + PercentBytes(bs[1..])
  }

  function EscapeChar(c: char): string {
    if Unreserved(c) then [c] else if c == ' ' then "+" else PercentBytes(Utf8(c))
  }

  /** CGI.escape. */
  function CgiEscape(s: string): string {
    if s == [] then "" else EscapeChar(s[0]) + CgiEscape(s[1..])
  }

  /** CGI.unescape on ASCII results: "+" is a space, "%XX" the character with that code. */
  function CgiUnescape(s: string): string {
    if s == [] then ""
    else if s[0] == '%' && |s| >= 3 && IsHexChar(s[1]) && IsHexChar(s[2]) then
      [(16 * HexValue(s[1]) + HexValue(s[2])) as char] + CgiUnescape(s[3..])
    else if s[0] == '+' then " " + CgiUnescape(s[1..])
    else [s[0]] + CgiUnescape(s[1..])
  }

  predicate IsAscii(s: string) {
    forall i :: 0 <= i < |s| ==> s[i] as int < 0x80
  }

  lemma HexRoundTrip(d: nat)
    requires d < 16
    ensures IsHexChar(HexChar(d)) && HexValue(HexChar(d)) == d
  {
  }

  lemma UnescapeEscapeChar(c: char, rest: string)
    requires c as int < 0x80
    ensures CgiUnescape(EscapeChar(c) + rest) == [c] + CgiUnescape(rest)
  {
    if !Unreserved(c) && c != ' ' {
      var n := c as int;
      HexRoundTrip(n / 16);
      HexRoundTrip(n % 16);
      var e := ['%', HexChar(n / 16), HexChar(n % 16)];
      assert PercentBytes(Utf8(c)) == e;
      assert (e + rest)[3..] == rest;
    } else if c == ' ' {
      assert ("+" + rest)[1..] == rest;
    } else {
      assert ([c] + rest)[1..] == rest;
    }
  }

  /** Unescaping an escaped ASCII string gives it back. */
  lemma {:induction false} UnescapeEscape(s: string)
    requires IsAscii(s)
    ensures CgiUnescape(CgiEscape(s)) == s
  {
    if s != [] {
      UnescapeEscape(s[1..]);
      UnescapeEscapeChar(s[0], CgiEscape(s[1..]));
    }
  }

  /** An escaped string has no "/": it is always a single URL path segment. */
  lemma {:induction false} EscapedHasNoSlash(s: string)
    ensures forall i :: 0 <= i < |CgiEscape(s)| ==> CgiEscape(s)[i] != '/'
  {
    if s != [] {
      EscapedHasNoSlash(s[1..]);
      PercentBytesNoSlash(Utf8(s[0]));
    }
  }

  lemma {:induction false} PercentBytesNoSlash(bs: seq<nat>)
    requires forall i :: 0 <= i < |bs| ==> bs[i] < 256
    ensures forall i :: 0 <= i < |PercentBytes(bs)| ==> PercentBytes(bs)[i] != '/'
  {
    if bs != [] {
      PercentBytesNoSlash(bs[1..]);
    }
  }

  /** The three Base64 characters that are not unreserved. */
  lemma Base64Specials()
    ensures CgiEscape("+") == "%2B" && CgiEscape("/") == "%2F" && CgiEscape("=") == "%3D"
  {
    assert PercentBytes([43]) == ['%', HexChar(2), HexChar(11)];
    assert PercentBytes([47]) == ['%', HexChar(2), HexChar(15)];
    assert PercentBytes([61]) == ['%', HexChar(3), HexChar(13)];
    assert CgiEscape("+") == EscapeChar('+') + CgiEscape("");
    assert CgiEscape("/") == EscapeChar('/') + CgiEscape("");
    assert CgiEscape("=") == EscapeChar('=') + CgiEscape("");
  }
}
