/** The canonical name of an authenticated peer: percent-encoded provider, issuer and subject. */
module PrincipalName {
  import opened Base
  import opened ExternalUrl
  import UrlPath

  predicate Unreserved(c: char) {
    Digit(c) || 'a' <= c <= 'z' || 'A' <= c <= 'Z' || c == '-' || c == '.' || c == '_' || c == '~'
  }

  function HexDigit(n: nat): char
    requires n < 16
  {
    if n < 10 then n as char + '0' else (n - 10) as char + 'A'
  }

  function Escaped(byte: Byte): string {
    if byte < 128 && Unreserved(byte as char) then [byte as char] else ['%', HexDigit(byte / 16), HexDigit(byte % 16)]
  }

  function Percent(value: Bytes): string {
    if value == [] then "" else Escaped(value[0]) + Percent(value[1..])
  }

  function CanonicalPrincipal(provider: Bytes, issuer: Bytes, subject: Bytes): string {
    "peer" + ("/" + (Percent(provider) + ("/" + (Percent(issuer) + ("/" + Percent(subject))))))
  }

  method PercentLoop(value: Bytes) returns (out: string)
    ensures out == Percent(value)
  {
    hide Escaped;
    out := "";
    var i := 0;
    while i < |value|
      invariant 0 <= i <= |value|
      invariant out + Percent(value[i..]) == Percent(value)
    {
      assert value[i..][1..] == value[i + 1..];
      out := out + Escaped(value[i]);
      i := i + 1;
    }
  }

  lemma HexDigitInjective(a: nat, b: nat)
    requires a < 16 && b < 16 && HexDigit(a) == HexDigit(b)
    ensures a == b
  {
  }

  /** The first octet and what follows it are told by the text alone. */
  lemma EscapedSplits(a: Byte, x: string, b: Byte, y: string)
    requires Escaped(a) + x == Escaped(b) + y
    ensures a == b && x == y
  {
    var w := Escaped(a) + x;
    assert w[0] == Escaped(a)[0] == Escaped(b)[0];
    assert x == w[|Escaped(a)|..] && y == w[|Escaped(b)|..];
    if w[0] == '%' {
      assert w[1] == HexDigit(a / 16) == HexDigit(b / 16) && w[2] == HexDigit(a % 16) == HexDigit(b % 16);
      HexDigitInjective(a / 16, b / 16);
      HexDigitInjective(a % 16, b % 16);
    }
  }

  lemma {:induction false} PercentInjective(a: Bytes, b: Bytes)
    requires Percent(a) == Percent(b)
    ensures a == b
  {
    hide Escaped;
    if a != [] && b != [] {
      EscapedSplits(a[0], Percent(a[1..]), b[0], Percent(b[1..]));
      PercentInjective(a[1..], b[1..]);
      assert a == [a[0]] + a[1..] && b == [b[0]] + b[1..];
    } else {
      NeverEmpty();
    }
  }

  lemma NeverEmpty()
    ensures forall byte: Byte :: Escaped(byte) != ""
  {
  }

  /** A hexadecimal digit in capitals. */
  function HexValue(c: char): int {
    var k := c as int;
    if 48 <= k <= 57 then k - 48 else if 65 <= k <= 70 then k - 55 else -1
  }

  /** Percent-decoding (RFC 3986 section 2.1). */
  function Decoded(text: string): seq<int> {
    if text == "" then []
    else if text[0] == '%' && |text| >= 3 then [16 * HexValue(text[1]) + HexValue(text[2])] + Decoded(text[3..])
    else [text[0] as int] + Decoded(text[1..])
  }

  /** Letters, digits and four marks stand for themselves (RFC 3986 section 2.3). */
  predicate Plain(byte: Byte) {
    48 <= byte <= 57 || 65 <= byte <= 90 || 97 <= byte <= 122 || byte in {45, 46, 95, 126}
  }

  lemma HexReads(digit: nat)
    requires digit < 16
    ensures HexValue(HexDigit(digit)) == digit
  {
  }

  lemma EscapedIs(byte: Byte)
    ensures if Plain(byte) then Escaped(byte) == [byte as char] && byte as char != '%' && (byte as char) as int == byte
            else |Escaped(byte)| == 3 && Escaped(byte)[0] == '%'
                 && 16 * HexValue(Escaped(byte)[1]) + HexValue(Escaped(byte)[2]) == byte
  {
    HexReads(byte / 16);
    HexReads(byte % 16);
  }

  /** Decoding gives back the octets, and only those that may stand for themselves do. */
  lemma {:induction false} PercentDecodes(value: Bytes)
    ensures |Decoded(Percent(value))| == |value| <= |Percent(value)|
    ensures forall i | 0 <= i < |value| :: Decoded(Percent(value))[i] == value[i]
    ensures (forall byte <- value :: Plain(byte)) <==> |Percent(value)| == |value|
  {
    hide Plain, Escaped, HexValue;
    if value != [] {
      var head, tail := Escaped(value[0]), Percent(value[1..]);
      PercentDecodes(value[1..]);
      EscapedIs(value[0]);
      assert value == [value[0]] + value[1..];
      assert (head + tail)[|head|..] == tail;
      assert Decoded(head + tail) == [value[0]] + Decoded(tail);
    }
  }

  lemma {:induction false} PercentPlain(value: Bytes)
    ensures '/' !in Percent(value)
  {
    if value != [] {
      PercentPlain(value[1..]);
      assert '/' !in Escaped(value[0]);
    }
  }

  /** Two peers share a canonical name only if provider, issuer and subject are all the same. */
  lemma PrincipalInjective(p: Bytes, i: Bytes, s: Bytes, q: Bytes, j: Bytes, t: Bytes)
    ensures CanonicalPrincipal(p, i, s) == CanonicalPrincipal(q, j, t) <==> p == q && i == j && s == t
  {
    PrincipalSegments(p, i, s);
    PrincipalSegments(q, j, t);
    hide UrlPath.Segments, Percent;
    if CanonicalPrincipal(p, i, s) == CanonicalPrincipal(q, j, t) {
      var a, b := ["peer", Percent(p), Percent(i), Percent(s)], ["peer", Percent(q), Percent(j), Percent(t)];
      assert a[1] == b[1] && a[2] == b[2] && a[3] == b[3];
      PercentInjective(p, q);
      PercentInjective(i, j);
      PercentInjective(s, t);
    }
  }

  lemma PrincipalSegments(p: Bytes, i: Bytes, s: Bytes)
    ensures UrlPath.Segments(CanonicalPrincipal(p, i, s)) == ["peer", Percent(p), Percent(i), Percent(s)]
  {
    PercentPlain(p);
    PercentPlain(i);
    PercentPlain(s);
    hide Percent, UrlPath.Segments;
    FourSegments("peer", Percent(p), Percent(i), Percent(s));
  }

  lemma FourSegments(a: string, b: string, c: string, d: string)
    requires '/' !in a && '/' !in b && '/' !in c && '/' !in d
    ensures UrlPath.Segments(a + ("/" + (b + ("/" + (c + ("/" + d)))))) == [a, b, c, d]
  {
    hide UrlPath.Segments;
    UrlPath.SegmentsCons(d, "");
    UrlPath.SegmentsCons(c, d);
    UrlPath.SegmentsCons(b, c + ("/" + d));
    UrlPath.SegmentsCons(a, b + ("/" + (c + ("/" + d))));
  }
}
