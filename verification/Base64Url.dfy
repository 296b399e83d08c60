/** Unpadded base64url (RFC 4648 section 5), its decoder, and the strict decoder grants use. */
module Base64Url {
  import opened Base

  /** The alphabet table, by its five ranges. */
  function CharOf(v: nat): char
    requires v < 64
  {
    if v < 26 then 'A' + v as char
    else if v < 52 then 'a' + (v - 26) as char
    else if v < 62 then '0' + (v - 52) as char
    else if v == 62 then '-'
    else '_'
  }

  function ValueOf(c: char): int {
    if 'A' <= c <= 'Z' then c as int - 'A' as int
    else if 'a' <= c <= 'z' then c as int - 'a' as int + 26
    else if '0' <= c <= '9' then c as int - '0' as int + 52
    else if c == '-' then 62
    else if c == '_' then 63
    else -1
  }

  lemma CharValue(v: nat)
    requires v < 64
    ensures ValueOf(CharOf(v)) == v && CharOf(v) != '='
  {
  }

  lemma ValueChar(c: char)
    requires ValueOf(c) >= 0
    ensures ValueOf(c) < 64 && CharOf(ValueOf(c)) == c
  {
  }

  predicate InAlphabet(text: string) {
    forall c <- text :: ValueOf(c) >= 0
  }

  /** The four characters of three octets; a group of one or two octets keeps the first two or three. */
  function Quad(a: Byte, b: Byte, c: Byte): string {
    [CharOf(a / 4), CharOf(a % 4 * 16 + b / 16), CharOf(b % 16 * 4 + c / 64), CharOf(c % 64)]
  }

  function Encode(b: Bytes): string {
    if b == [] then ""
    else if |b| == 1 then Quad(b[0], 0, 0)[..2]
    else if |b| == 2 then Quad(b[0], b[1], 0)[..3]
    else Quad(b[0], b[1], b[2]) + Encode(b[3..])
  }

  lemma Div64(p: nat, r: nat)
    requires r < 64
    ensures (64 * p + r) / 64 == p && (64 * p + r) % 64 == r
  {
  }

  lemma Div4096(p: nat, r: nat)
    requires r < 0x1000
    ensures (0x1000 * p + r) / 0x1000 == p
  {
  }

  lemma Div18(p: nat, r: nat)
    requires r < 0x40000
    ensures (0x40000 * p + r) / 0x40000 == p
  {
  }

  function Bits24(a: Byte, b: Byte, c: Byte): (n: nat)
    ensures n < 0x100_0000
  {
    (a as int) * 0x10000 + (b as int) * 0x100 + c as int
  }

  /** The shifts of the 24-bit word pick the same sextets. */
  lemma Sextets(a: Byte, b: Byte, c: Byte)
    ensures var n := Bits24(a, b, c);
      && n / 0x40000 == a / 4 && n / 0x1000 % 64 == a % 4 * 16 + b / 16
      && n / 64 % 64 == b % 16 * 4 + c / 64 && n % 64 == c % 64
  {
    var n: int := Bits24(a, b, c);
    var (p, q, r) := (a as int / 4, a as int % 4 * 16 + b as int / 16, b as int % 16 * 4 + c as int / 64);
    assert n == 0x40000 * p + 0x1000 * q + 64 * r + c as int % 64;
    Div18(p, 0x1000 * q + 64 * r + c as int % 64);
    Div4096(64 * p + q, 64 * r + c as int % 64);
    Div64(0x1000 * p + 64 * q + r, c as int % 64);
    Div64(p, q);
    Div64(64 * p + q, r);
  }

  lemma LoopQuad(a: Byte, b: Byte, c: Byte)
    ensures var n := Bits24(a, b, c);
      Quad(a, b, c) == [CharOf(n / 0x40000), CharOf(n / 0x1000 % 64), CharOf(n / 64 % 64), CharOf(n % 64)]
  {
    hide CharOf;
    Sextets(a, b, c);
  }

  method EncodeLoop(data: Bytes) returns (out: string)
    ensures out == Encode(data)
  {
    hide CharOf, Quad, Bits24;
    out := "";
    var i := 0;
    while i + 3 <= |data|
      invariant 0 <= i <= |data|
      invariant out + Encode(data[i..]) == Encode(data)
    {
      var n := Bits24(data[i], data[i + 1], data[i + 2]);
      LoopQuad(data[i], data[i + 1], data[i + 2]);
      assert data[i..][3..] == data[i + 3..];
      out := out + [CharOf(n / 0x40000), CharOf(n / 0x1000 % 64), CharOf(n / 64 % 64), CharOf(n % 64)];
      i := i + 3;
    }
    if i + 1 == |data| {
      var n := Bits24(data[i], 0, 0);
      LoopQuad(data[i], 0, 0);
      out := out + [CharOf(n / 0x40000), CharOf(n / 0x1000 % 64)];
    } else if i + 2 == |data| {
      var n := Bits24(data[i], data[i + 1], 0);
      LoopQuad(data[i], data[i + 1], 0);
      out := out + [CharOf(n / 0x40000), CharOf(n / 0x1000 % 64), CharOf(n / 64 % 64)];
    }
  }

  // ---- Decoding --------------------------------------------------------------------------------------

  function Unpadded(s: string): string {
    if s != "" && s[|s| - 1] == '=' then Unpadded(s[..|s| - 1]) else s
  }

  predicate Phase(left: nat, bits: nat) {
    (bits == 0 && left == 0) || (bits == 2 && left < 4) || (bits == 4 && left < 16) || (bits == 6 && left < 64)
  }

  /** The octet that `left` (of `bits` bits) and the next six bits complete, and the bits over. */
  function Step(left: nat, bits: nat, v: nat): (r: (Bytes, nat, nat))
    requires Phase(left, bits) && v < 64
    ensures Phase(r.1, r.2)
  {
    var n := left * 64 + v;
    if bits == 0 then ([], n, 6)
    else if bits == 2 then ([n], 0, 0)
    else if bits == 4 then ([n / 4], n % 4, 2)
    else ([n / 16], n % 16, 4)
  }

  function DecodeFrom(text: string, left: nat, bits: nat): Option<Bytes>
    requires Phase(left, bits)
    decreases text
  {
    if text == "" then Some([])
    else if ValueOf(text[0]) < 0 then None
    else
      var (octets, left', bits') := Step(left, bits, ValueOf(text[0]));
      var rest := DecodeFrom(text[1..], left', bits');
      if rest.None? then None else Some(octets + rest.value)
  }

  function Decode(s: string): Option<Bytes> {
    var text := Unpadded(s);
    if |text| % 4 == 1 then None else DecodeFrom(text, 0, 0)
  }

  function Pow2(bits: nat): nat {
    if bits == 0 then 1 else if bits == 2 then 4 else if bits == 4 then 16 else 64
  }

  lemma Mod4(u: nat, y: nat)
    ensures (4 * u + y) % 4 == y % 4 && (4 * u + y) / 4 == u + y / 4
  {
  }

  lemma Mod16(u: nat, y: nat)
    ensures (16 * u + y) % 16 == y % 16 && (16 * u + y) / 16 == u + y / 16
  {
  }

  lemma Mod64(u: nat, y: nat)
    ensures (64 * u + y) % 64 == y % 64
  {
  }

  lemma Mod256(u: nat, y: nat)
    ensures (256 * u + y) % 256 == y % 256
  {
  }

  lemma Wrapped(x: nat)
    ensures var y := x % TWO_32;
      y % 64 == x % 64 && y % 16 == x % 16 && y % 4 == x % 4
      && y % 256 == x % 256 && y / 4 % 256 == x / 4 % 256 && y / 16 % 256 == x / 16 % 256
  {
    var t, y := x / TWO_32, x % TWO_32;
    assert x == TWO_32 * t + y;
    Mod64(0x400_0000 * t, y);
    Mod16(0x1000_0000 * t, y);
    Mod4(0x4000_0000 * t, y);
    Mod256(0x100_0000 * t, y);
    Mod256(0x40_0000 * t, y / 4);
    Mod256(0x10_0000 * t, y / 16);
  }

  /** The accumulator may wrap: only its `bits` low bits are ever looked at again. */
  lemma WrapIsHarmless(acc: nat, bits: nat, v: nat)
    requires v < 64 && (bits == 0 || bits == 2 || bits == 4 || bits == 6)
    ensures Phase(acc % Pow2(bits), bits)
    ensures var acc' := (acc * 64 + v) % TWO_32;
      Step(acc % Pow2(bits), bits, v)
        == if bits == 0 then ([], acc' % 64, 6)
           else ([acc' / Pow2(bits - 2) % 256], acc' % Pow2(bits - 2), bits - 2)
  {
    var x := acc * 64 + v;
    Wrapped(x);
    if bits == 0 {
      Mod64(acc, v);
    } else if bits == 2 {
      Low2(acc, v);
    } else if bits == 4 {
      Low4(acc, v);
    } else {
      Low6(acc, v);
    }
  }

  lemma Low2(acc: nat, v: nat)
    requires v < 64
    ensures (acc * 64 + v) % 256 == acc % 4 * 64 + v
  {
    assert acc * 64 + v == 256 * (acc / 4) + (acc % 4 * 64 + v);
    Mod256(acc / 4, acc % 4 * 64 + v);
  }

  lemma Low4(acc: nat, v: nat)
    requires v < 64
    ensures (acc * 64 + v) / 4 % 256 == (acc % 16 * 64 + v) / 4
    ensures (acc * 64 + v) % 4 == (acc % 16 * 64 + v) % 4
  {
    var low := acc % 16 * 64 + v;
    assert acc * 64 + v == 4 * (256 * (acc / 16)) + low;
    Mod4(256 * (acc / 16), low);
    Mod256(acc / 16, low / 4);
  }

  lemma Low6(acc: nat, v: nat)
    requires v < 64
    ensures (acc * 64 + v) / 16 % 256 == (acc % 64 * 64 + v) / 16
    ensures (acc * 64 + v) % 16 == (acc % 64 * 64 + v) % 16
  {
    var low := acc % 64 * 64 + v;
    assert low < 4096 && acc * 64 + v == 16 * (256 * (acc / 64)) + low;
    Mod16(256 * (acc / 64), low);
    Mod256(acc / 64, low / 16);
  }

  function Behind(out: Bytes, rest: Option<Bytes>): Option<Bytes> {
    if rest.None? then None else Some(out + rest.value)
  }

  lemma BehindNothing(rest: Option<Bytes>)
    ensures Behind([], rest) == rest
  {
    if rest.Some? {
      assert [] + rest.value == rest.value;
    }
  }

  /** One iteration of the accumulator loop, on its own variables. */
  lemma DecodeUnrolls(text: string, i: nat, acc: nat, bits: nat, out: Bytes)
    requires i < |text| && (bits == 0 || bits == 2 || bits == 4 || bits == 6) && ValueOf(text[i]) >= 0
    requires Phase(acc % Pow2(bits), bits)
    ensures var acc' := (acc * 64 + ValueOf(text[i])) % TWO_32;
      && (bits == 0 ==> Phase(acc' % 64, 6) && Behind(out, DecodeFrom(text[i..], acc % Pow2(bits), bits))
                          == Behind(out, DecodeFrom(text[i + 1..], acc' % 64, 6)))
      && (bits > 0 ==>
            && Phase(acc' % Pow2(bits - 2), bits - 2)
            && Behind(out, DecodeFrom(text[i..], acc % Pow2(bits), bits))
               == Behind(out + [acc' / Pow2(bits - 2) % 256],
                         DecodeFrom(text[i + 1..], acc' % Pow2(bits - 2), bits - 2)))
  {
    ValueChar(text[i]);
    WrapIsHarmless(acc, bits, ValueOf(text[i]));
    assert text[i..][1..] == text[i + 1..];
    hide Step, Pow2, ValueOf;
    var (octets, left, more) := Step(acc % Pow2(bits), bits, ValueOf(text[i]));
    var rest := DecodeFrom(text[i + 1..], left, more);
    if rest.Some? {
      assert out + (octets + rest.value) == (out + octets) + rest.value;
      assert out + [] == out;
    }
  }

  method DecodeLoop(s: string) returns (r: Option<Bytes>)
    ensures r == Decode(s)
  {
    var text := s;
    while text != "" && text[|text| - 1] == '='
      invariant Unpadded(text) == Unpadded(s)
      decreases |text|
    {
      text := text[..|text| - 1];
    }
    assert text == Unpadded(s);
    if |text| % 4 == 1 {
      return None;
    }
    var out: Bytes := [];
    var acc: nat := 0;
    var bits: nat := 0;
    var i := 0;
    while i < |text|
      invariant 0 <= i <= |text| && acc < TWO_32 && (bits == 0 || bits == 2 || bits == 4 || bits == 6)
      invariant Phase(acc % Pow2(bits), bits)
      invariant Behind(out, DecodeFrom(text[i..], acc % Pow2(bits), bits)) == Behind([], DecodeFrom(text, 0, 0))
    {
      hide Phase, Step, ValueOf;
      var v := ValueOf(text[i]);
      if v < 0 {
        return None;
      }
      DecodeUnrolls(text, i, acc, bits, out);
      acc := (acc * 64 + v) % TWO_32;
      bits := bits + 6;
      if bits >= 8 {
        bits := bits - 8;
        out := out + [acc / Pow2(bits) % 256];
      }
      i := i + 1;
    }
    assert text[i..] == "" && out + [] == out;
    BehindNothing(DecodeFrom(text, 0, 0));
    return Some(out);
  }

  // ---- Strict decoding ---------------------------------------------------------------------------

  /** `b64url_strict`: decode, and refuse any spelling but the one the encoder writes. */
  function Strict(text: string): Option<Bytes> {
    if text == "" || !InAlphabet(text) || |text| % 4 == 1 then None
    else
      var raw := Decode(text);
      if raw.None? || Encode(raw.value) != text then None else raw
  }

  lemma DecodeOctet(text: string, left: nat, bits: nat)
    requires Phase(left, bits) && text != "" && ValueOf(text[0]) >= 0
    ensures var (octets, left', bits') := Step(left, bits, ValueOf(text[0]));
      DecodeFrom(text, left, bits) == Behind(octets, DecodeFrom(text[1..], left', bits'))
  {
  }

  lemma DecodeFour(v: nat, w: nat, x: nat, y: nat, rest: string)
    requires v < 64 && w < 64 && x < 64 && y < 64
    ensures DecodeFrom([CharOf(v), CharOf(w), CharOf(x), CharOf(y)] + rest, 0, 0)
         == Behind([v * 4 + w / 16, w % 16 * 16 + x / 4, x % 4 * 64 + y], DecodeFrom(rest, 0, 0))
  {
    CharValue(v);
    CharValue(w);
    CharValue(x);
    CharValue(y);
    hide CharOf, ValueOf;
    var text := [CharOf(v), CharOf(w), CharOf(x), CharOf(y)] + rest;
    DecodeTail(text, v, w, x);
    DecodeOctet(text[3..], x % 4, 2);
    assert text[3..][1..] == rest && text[3..][0] == CharOf(y);
    var d := DecodeFrom(rest, 0, 0);
    if d.Some? {
      assert [v * 4 + w / 16, w % 16 * 16 + x / 4] + ([x % 4 * 64 + y] + d.value)
          == [v * 4 + w / 16, w % 16 * 16 + x / 4, x % 4 * 64 + y] + d.value;
    }
  }

  lemma Recombined(a: Byte, b: Byte, c: Byte)
    ensures var v, w, x, y := a as int / 4, a as int % 4 * 16 + b as int / 16, b as int % 16 * 4 + c as int / 64,
                        c as int % 64;
      v * 4 + w / 16 == a as int && w % 16 * 16 + x / 4 == b as int && x % 4 * 64 + y == c as int
  {
  }

  /** Four characters give their three octets back and leave no bits over. */
  lemma DecodeQuad(a: Byte, b: Byte, c: Byte, rest: string)
    ensures DecodeFrom(Quad(a, b, c) + rest, 0, 0) == Behind([a, b, c], DecodeFrom(rest, 0, 0))
  {
    hide CharOf, ValueOf, DecodeFrom, Behind;
    DecodeFour(a / 4, a % 4 * 16 + b / 16, b % 16 * 4 + c / 64, c % 64, rest);
    Recombined(a, b, c);
  }

  /** So do two for one octet, and three for two. */
  lemma DecodeShort(a: Byte, b: Byte)
    ensures DecodeFrom(Quad(a, 0, 0)[..2], 0, 0) == Some([a])
    ensures DecodeFrom(Quad(a, b, 0)[..3], 0, 0) == Some([a, b])
  {
    hide DecodeFrom;
    var v, w, x := a / 4, a % 4 * 16 + b / 16, b % 16 * 4;
    CharValue(v);
    CharValue(w);
    CharValue(x);
    CharValue(a % 4 * 16);
    hide CharOf, ValueOf;
    var two, three := Quad(a, 0, 0)[..2], Quad(a, b, 0)[..3];
    assert two == [CharOf(v), CharOf(a % 4 * 16)] && two[2..] == "";
    assert three == [CharOf(v), CharOf(w), CharOf(x)] && three[3..] == "";
    DecodePair(two, v, a % 4 * 16);
    DecodeTail(three, v, w, x);
    DecodeNothing(0, 4);
    DecodeNothing(0, 2);
    assert a % 4 * 16 % 16 == 0 && x % 4 == 0;
    assert [a] + [] == [a] && [a, b] + [] == [a, b];
  }

  lemma DecodePair(text: string, v: nat, w: nat)
    requires |text| >= 2 && v < 64 && w < 64 && ValueOf(text[0]) == v && ValueOf(text[1]) == w
    ensures DecodeFrom(text, 0, 0) == Behind([v * 4 + w / 16], DecodeFrom(text[2..], w % 16, 4))
  {
    DecodeOctet(text, 0, 0);
    DecodeOctet(text[1..], v, 6);
    assert text[1..][1..] == text[2..];
    BehindNothing(DecodeFrom(text[1..], v, 6));
  }

  lemma DecodeTail(text: string, v: nat, w: nat, x: nat)
    requires |text| >= 3 && v < 64 && w < 64 && x < 64
    requires ValueOf(text[0]) == v && ValueOf(text[1]) == w && ValueOf(text[2]) == x
    ensures DecodeFrom(text, 0, 0) == Behind([v * 4 + w / 16, w % 16 * 16 + x / 4], DecodeFrom(text[3..], x % 4, 2))
  {
    DecodePair(text, v, w);
    DecodeOctet(text[2..], w % 16, 4);
    assert text[2..][1..] == text[3..];
    var d := DecodeFrom(text[3..], x % 4, 2);
    if d.Some? {
      assert [v * 4 + w / 16] + ([w % 16 * 16 + x / 4] + d.value) == [v * 4 + w / 16, w % 16 * 16 + x / 4] + d.value;
    }
  }

  lemma {:induction false} EncodeShape(b: Bytes)
    ensures InAlphabet(Encode(b)) && |Encode(b)| % 4 != 1
    ensures Encode(b) == "" <==> b == []
    decreases |b|
  {
    hide CharOf, ValueOf, Quad;
    if b != [] {
      QuadInAlphabet(b[0], if |b| > 1 then b[1] else 0, if |b| > 2 then b[2] else 0);
      if |b| > 2 {
        EncodeShape(b[3..]);
      }
    }
  }

  lemma QuadInAlphabet(a: Byte, b: Byte, c: Byte)
    ensures InAlphabet(Quad(a, b, c)) && |Quad(a, b, c)| == 4
  {
    CharValue(a / 4);
    CharValue(a % 4 * 16 + b / 16);
    CharValue(b % 16 * 4 + c / 64);
    CharValue(c % 64);
    hide CharOf, ValueOf;
  }

  lemma AlphabetUnpadded(text: string)
    requires InAlphabet(text)
    ensures Unpadded(text) == text
  {
    if text != "" {
      assert ValueOf(text[|text| - 1]) >= 0;
    }
  }

  lemma {:induction false} DecodeFromEncode(b: Bytes)
    ensures DecodeFrom(Encode(b), 0, 0) == Some(b)
    decreases |b|
  {
    hide CharOf, ValueOf, Quad, Step, DecodeFrom;
    if b == [] {
      DecodeNothing(0, 0);
    } else {
      var a, c, d := b[0], if |b| > 1 then b[1] else 0, if |b| > 2 then b[2] else 0;
      if |b| > 2 {
        DecodeQuad(a, c, d, Encode(b[3..]));
        DecodeFromEncode(b[3..]);
        assert b == [a, c, d] + b[3..];
      } else {
        DecodeShort(a, c);
        assert b == if |b| == 1 then [a] else [a, c];
      }
    }
  }

  lemma DecodeNothing(left: nat, bits: nat)
    requires Phase(left, bits)
    ensures DecodeFrom("", left, bits) == Some([])
  {
  }

  /** Decoding inverts encoding, for all bytes. */
  lemma RoundTrip(b: Bytes)
    ensures Decode(Encode(b)) == Some(b)
  {
    hide DecodeFrom, Encode, Unpadded;
    EncodeShape(b);
    AlphabetUnpadded(Encode(b));
    DecodeFromEncode(b);
  }

  /** The strict decoder accepts exactly the encodings of non-empty byte strings, each as what it encodes. */
  lemma StrictAcceptsEncodings(text: string, b: Bytes)
    ensures Strict(text) == Some(b) <==> b != [] && text == Encode(b)
  {
    hide Decode, Encode;
    EncodeShape(b);
    RoundTrip(b);
  }

  // ---- Canonical spelling, without mentioning the encoder ------------------------------------------

  /** Section 3.5 of RFC 4648: the bits that fill up the last character are zero. */
  predicate ZeroPadBits(text: string)
    requires InAlphabet(text)
  {
    && (|text| % 4 == 2 ==> ValueOf(text[|text| - 1]) % 16 == 0)
    && (|text| % 4 == 3 ==> ValueOf(text[|text| - 1]) % 4 == 0)
  }

  lemma QuadOf(v: nat, w: nat, x: nat, y: nat)
    requires v < 64 && w < 64 && x < 64 && y < 64
    ensures Quad(v * 4 + w / 16, w % 16 * 16 + x / 4, x % 4 * 64 + y) == [CharOf(v), CharOf(w), CharOf(x), CharOf(y)]
  {
    hide CharOf;
    DivMod(4, v, w / 16);
    DivMod(16, w % 16, x / 4);
    DivMod(64, x % 4, y);
  }

  lemma DivMod(k: nat, p: nat, r: nat)
    requires (k == 4 || k == 16 || k == 64) && r < k
    ensures (p * k + r) / k == p && (p * k + r) % k == r
  {
  }

  lemma EncodeThree(a: Byte, b: Byte, c: Byte, rest: Bytes)
    ensures Encode([a, b, c] + rest) == Quad(a, b, c) + Encode(rest)
  {
    hide Quad;
    assert ([a, b, c] + rest)[3..] == rest;
  }

  lemma CanonicalTail(text: string)
    requires InAlphabet(text) && 2 <= |text| < 4 && ZeroPadBits(text)
    ensures DecodeFrom(text, 0, 0).Some? && Encode(DecodeFrom(text, 0, 0).value) == text
  {
    hide CharOf, Step, DecodeFrom, Quad;
    Spelled(text);
    hide ValueOf;
    var v, w := ValueOf(text[0]), ValueOf(text[1]);
    if |text| == 2 {
      QuadOf(v, w, 0, 0);
      assert text[2..] == "";
      DecodePair(text, v, w);
      DecodeNothing(0, 4);
    } else {
      var x := ValueOf(text[2]);
      QuadOf(v, w, x, 0);
      assert text[3..] == "";
      DecodeTail(text, v, w, x);
      DecodeNothing(0, 2);
    }
  }

  lemma Spelled(text: string)
    requires InAlphabet(text)
    ensures forall i | 0 <= i < |text| :: 0 <= ValueOf(text[i]) < 64 && CharOf(ValueOf(text[i])) == text[i]
  {
  }

  /** Every text in the alphabet with zero fill bits is the encoding of what it decodes to. */
  lemma {:induction false} CanonicalIsEncoding(text: string)
    requires InAlphabet(text) && |text| % 4 != 1 && ZeroPadBits(text)
    ensures DecodeFrom(text, 0, 0).Some? && Encode(DecodeFrom(text, 0, 0).value) == text
    decreases |text|
  {
    hide CharOf, Step, DecodeFrom, Quad, Encode;
    if text == "" {
      assert Encode([]) == "" by {
        EncodeShape([]);
      }
      DecodeNothing(0, 0);
    } else if |text| < 4 {
      CanonicalTail(text);
    } else {
      Spelled(text);
      hide ValueOf;
      var v, w, x, y := ValueOf(text[0]), ValueOf(text[1]), ValueOf(text[2]), ValueOf(text[3]);
      var tail := text[4..];
      QuadOf(v, w, x, y);
      DecodeFour(v, w, x, y, tail);
      assert text == [CharOf(v), CharOf(w), CharOf(x), CharOf(y)] + tail;
      assert forall c <- tail :: c in text;
      assert tail != "" ==> tail[|tail| - 1] == text[|text| - 1];
      CanonicalIsEncoding(tail);
      EncodeThree(v * 4 + w / 16, w % 16 * 16 + x / 4, x % 4 * 64 + y, DecodeFrom(tail, 0, 0).value);
    }
  }

  lemma PadBitsBehind(quad: string, rest: string)
    requires |quad| == 4 && InAlphabet(rest) && ZeroPadBits(rest) && InAlphabet(quad + rest)
    ensures ZeroPadBits(quad + rest)
  {
    hide InAlphabet, ValueOf;
    assert rest != "" ==> (quad + rest)[|quad + rest| - 1] == rest[|rest| - 1];
  }

  lemma {:induction false} EncodingIsCanonical(b: Bytes)
    ensures InAlphabet(Encode(b)) && ZeroPadBits(Encode(b))
    decreases |b|
  {
    EncodeShape(b);
    hide InAlphabet;
    if |b| == 1 {
      CharValue(b[0] % 4 * 16);
      hide CharOf, ValueOf;
      assert Encode(b)[1] == CharOf(b[0] % 4 * 16);
    } else if |b| == 2 {
      CharValue(b[1] % 16 * 4);
      hide CharOf, ValueOf;
      assert Encode(b)[2] == CharOf(b[1] % 16 * 4);
    } else if |b| >= 3 {
      EncodingIsCanonical(b[3..]);
      hide CharOf, ValueOf;
      PadBitsBehind(Quad(b[0], b[1], b[2]), Encode(b[3..]));
    }
  }

  /** So a grant has exactly one spelling: non-empty, in the alphabet, a possible length, zero fill bits. */
  lemma StrictIffCanonical(text: string)
    ensures Strict(text).Some? <==> text != "" && InAlphabet(text) && |text| % 4 != 1 && ZeroPadBits(text)
  {
    hide Encode, DecodeFrom, Unpadded, ZeroPadBits;
    if text != "" && InAlphabet(text) && |text| % 4 != 1 {
      AlphabetUnpadded(text);
      if ZeroPadBits(text) {
        CanonicalIsEncoding(text);
      }
      if Strict(text).Some? {
        EncodingIsCanonical(Strict(text).value);
      }
    }
  }
}
