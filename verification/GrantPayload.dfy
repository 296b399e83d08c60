/** The byte codec of a sealed grant's claims, and the reader that parses it. */
module GrantPayload {
  import opened Base
  import Utf8

  const MAX_FIELD := 0xFFFF

  type I64 = n: int | -0x8000_0000_0000_0000 <= n < 0x8000_0000_0000_0000

  datatype Claims = Claims(
    grantId: Bytes,
    principal: Bytes,
    scopes: seq<Bytes>,
    purpose: Bytes,
    issuedAt: I64,
    expiresAt: I64)

  /** What the reader accepts as text; the format itself does not depend on it. */
  type TextRule = Bytes -> bool

  function Utf8Rule(): TextRule {
    text => Utf8.Valid(text)
  }

  predicate TextsOk(ok: TextRule, c: Claims) {
    ok(c.grantId) && ok(c.principal) && ok(c.purpose) && forall s <- c.scopes :: ok(s)
  }

  predicate Encodable(c: Claims) {
    && |c.scopes| <= MAX_FIELD && |c.grantId| <= MAX_FIELD && |c.principal| <= MAX_FIELD && |c.purpose| <= MAX_FIELD
    && forall s <- c.scopes :: |s| <= MAX_FIELD
  }

  // ---- Writing ---------------------------------------------------------------------------------------

  /** The low `k` octets of `n`, least significant first. */
  function Little(n: nat, k: nat): Bytes {
    if k == 0 then [] else [n % 256] + Little(n / 256, k - 1)
  }

  function Unsigned(n: I64): (u: nat)
    ensures u < TWO_64
  {
    if n < 0 then n + TWO_64 else n
  }

  function Signed(u: nat): I64
    requires u < TWO_64
  {
    if u < TWO_63 then u else u - TWO_64
  }

  function I64Bytes(n: I64): Bytes {
    Little(Unsigned(n), 8)
  }

  function TextBytes(text: Bytes): Bytes {
    Little(|text|, 2) + text
  }

  function TextsBytes(texts: seq<Bytes>): Bytes {
    if texts == [] then [] else TextBytes(texts[0]) + TextsBytes(texts[1..])
  }

  /** The payload; a field or a list longer than its count can say is an argument error. */
  function Encode(c: Claims): Option<Bytes> {
    if !Encodable(c) then None
    else
      Some(I64Bytes(c.issuedAt) + (I64Bytes(c.expiresAt) + (TextBytes(c.grantId) + (TextBytes(c.principal)
           + (TextBytes(c.purpose) + (Little(|c.scopes|, 2) + TextsBytes(c.scopes)))))))
  }

  // ---- Reading ---------------------------------------------------------------------------------------

  function FromLittle(b: Bytes): nat {
    if b == [] then 0 else b[0] as int + 256 * FromLittle(b[1..])
  }

  /** A parser's result: what it read and what is left. */
  datatype Read<T> = Short | Read(value: T, rest: Bytes)

  function TakeN(b: Bytes, n: nat): Read<Bytes> {
    if n > |b| then Short else Read(b[..n], b[n..])
  }

  function ReadU16(b: Bytes): Read<nat> {
    var r := TakeN(b, 2);
    if r.Short? then Short else Read(FromLittle(r.value), r.rest)
  }

  lemma {:induction false} FromLittleBound(b: Bytes)
    ensures FromLittle(b) < Power(|b|)
  {
    if b != [] {
      FromLittleBound(b[1..]);
    }
  }

  function Power(k: nat): (p: nat)
    ensures p > 0
  {
    if k == 0 then 1 else 256 * Power(k - 1)
  }

  lemma PowerEight()
    ensures Power(8) == TWO_64 && Power(2) == 0x10000
  {
    assert Power(4) == 0x1_0000_0000;
  }

  function ReadI64(b: Bytes): Read<I64> {
    var r := TakeN(b, 8);
    if r.Short? then Short
    else
      FromLittleBound(r.value);
      PowerEight();
      Read(Signed(FromLittle(r.value)), r.rest)
  }

  function ReadText(ok: TextRule, b: Bytes): Read<Bytes> {
    var n := ReadU16(b);
    if n.Short? then Short
    else
      var r := TakeN(n.rest, n.value);
      if r.Short? || !ok(r.value) then Short else r
  }

  function ReadTexts(ok: TextRule, b: Bytes, count: nat): Read<seq<Bytes>>
    decreases count
  {
    if count == 0 then Read([], b)
    else
      var first := ReadText(ok, b);
      if first.Short? then Short
      else
        var more := ReadTexts(ok, first.rest, count - 1);
        if more.Short? then Short else Read([first.value] + more.value, more.rest)
  }

  function Decode(ok: TextRule, b: Bytes): Option<Claims> {
    var issued := ReadI64(b);
    if issued.Short? then None
    else
      var expires := ReadI64(issued.rest);
      if expires.Short? then None
      else
        var id := ReadText(ok, expires.rest);
        if id.Short? then None
        else
          var principal := ReadText(ok, id.rest);
          if principal.Short? then None
          else
            var purpose := ReadText(ok, principal.rest);
            if purpose.Short? then None
            else
              var count := ReadU16(purpose.rest);
              if count.Short? then None
              else
                var scopes := ReadTexts(ok, count.rest, count.value);
                if scopes.Short? || scopes.rest != [] then None
                else Some(Claims(id.value, principal.value, scopes.value, purpose.value, issued.value, expires.value))
  }

  // ---- The writers and the reader as the source has them --------------------------------------------

  method PutI64(out: Bytes, value: I64) returns (r: Bytes)
    ensures r == out + I64Bytes(value)
  {
    r := out;
    var bits := Unsigned(value);
    var shift := 0;
    while shift < 8
      invariant 0 <= shift <= 8
      invariant r + Little(bits, 8 - shift) == out + I64Bytes(value)
    {
      r := r + [bits % 256];
      bits := bits / 256;
      shift := shift + 1;
    }
  }

  method EncodePayload(c: Claims) returns (r: Option<Bytes>)
    ensures r == Encode(c)
  {
    hide I64Bytes, TextBytes, Little;
    if !Encodable(c) {
      return None;
    }
    var out := PutI64([], c.issuedAt);
    out := PutI64(out, c.expiresAt);
    out := out + TextBytes(c.grantId) + TextBytes(c.principal) + TextBytes(c.purpose) + Little(|c.scopes|, 2);
    var i := 0;
    ghost var head := out;
    while i < |c.scopes|
      invariant 0 <= i <= |c.scopes|
      invariant out + TextsBytes(c.scopes[i..]) == head + TextsBytes(c.scopes)
    {
      assert c.scopes[i..][1..] == c.scopes[i + 1..];
      out := out + TextBytes(c.scopes[i]);
      i := i + 1;
    }
    assert c.scopes[i..] == [] && out + [] == out;
    Regroup(I64Bytes(c.issuedAt), I64Bytes(c.expiresAt), TextBytes(c.grantId), TextBytes(c.principal),
            TextBytes(c.purpose), Little(|c.scopes|, 2), TextsBytes(c.scopes));
    return Some(out);
  }

  lemma Regroup(a: Bytes, b: Bytes, c: Bytes, d: Bytes, e: Bytes, f: Bytes, g: Bytes)
    ensures [] + a + b + c + d + e + f + g == a + (b + (c + (d + (e + (f + g)))))
  {
  }

  class PayloadReader {
    const payload: Bytes
    var pos: nat

    ghost predicate Valid()
      reads this
    {
      pos <= |payload|
    }

    ghost function Rest(): Bytes
      reads this
      requires Valid()
    {
      payload[pos..]
    }

    constructor (payload: Bytes)
      ensures this.payload == payload && Valid() && Rest() == payload
    {
      this.payload := payload;
      pos := 0;
    }

    method Take(n: nat) returns (r: Option<Bytes>)
      requires Valid()
      modifies this
      ensures Valid()
      ensures match TakeN(old(Rest()), n)
              case Short => r.None? && Rest() == old(Rest())
              case Read(value, rest) => r == Some(value) && Rest() == rest
    {
      if n > |payload| - pos {
        return None;
      }
      r := Some(payload[pos..pos + n]);
      assert payload[pos..][..n] == payload[pos..pos + n] && payload[pos..][n..] == payload[pos + n..];
      pos := pos + n;
    }

    method U16() returns (r: Option<nat>)
      requires Valid()
      modifies this
      ensures Valid()
      ensures match ReadU16(old(Rest()))
              case Short => r.None?
              case Read(value, rest) => r == Some(value) && Rest() == rest
    {
      var raw := Take(2);
      if raw.None? {
        return None;
      }
      assert raw.value[1..][1..] == [] && FromLittle(raw.value[1..]) == raw.value[1] as int;
      return Some(raw.value[0] as int + 256 * raw.value[1] as int);
    }

    method NextI64() returns (r: Option<I64>)
      requires Valid()
      modifies this
      ensures Valid()
      ensures match ReadI64(old(Rest()))
              case Short => r.None?
              case Read(value, rest) => r == Some(value) && Rest() == rest
    {
      var raw := Take(8);
      if raw.None? {
        return None;
      }
      var bytes := raw.value;
      var bits: nat := 0;
      var i: nat := 8;
      while i > 0
        invariant i <= 8
        invariant bits == FromLittle(bytes[i..])
      {
        i := i - 1;
        assert bytes[i..][1..] == bytes[i + 1..];
        bits := bits * 256 + bytes[i] as int;
      }
      FromLittleBound(bytes);
      PowerEight();
      assert bytes[0..] == bytes;
      return Some(Signed(bits));
    }

    method Text(ok: TextRule) returns (r: Option<Bytes>)
      requires Valid()
      modifies this
      ensures Valid()
      ensures match ReadText(ok, old(Rest()))
              case Short => r.None?
              case Read(value, rest) => r == Some(value) && Rest() == rest
    {
      var length := U16();
      if length.None? {
        return None;
      }
      r := Take(length.value);
      if r.Some? && !ok(r.value) {
        return None;
      }
    }

    method Texts(ok: TextRule, count: nat) returns (r: Option<seq<Bytes>>)
      requires Valid()
      modifies this
      ensures Valid()
      ensures match ReadTexts(ok, old(Rest()), count)
              case Short => r.None?
              case Read(value, rest) => r == Some(value) && Rest() == rest
    {
      hide ReadText;
      var texts: seq<Bytes> := [];
      var i: nat := 0;
      PrefixedNothing(ReadTexts(ok, Rest(), count));
      while i < count
        invariant i <= count && Valid()
        invariant ReadTexts(ok, old(Rest()), count) == Prefixed(texts, ReadTexts(ok, Rest(), count - i))
      {
        PrefixedStep(ok, texts, Rest(), count - i);
        var text := Text(ok);
        if text.None? {
          return None;
        }
        texts := texts + [text.value];
        i := i + 1;
      }
      assert texts + [] == texts;
      return Some(texts);
    }

    method Done() returns (done: bool)
      requires Valid()
      ensures done == (Rest() == [])
    {
      return pos == |payload|;
    }
  }

  method DecodePayload(payload: Bytes) returns (r: Option<Claims>)
    ensures r == Decode(Utf8Rule(), payload)
  {
    hide ReadI64, ReadText, ReadU16, ReadTexts, Utf8Rule;
    var ok := Utf8Rule();
    var reader := new PayloadReader(payload);
    var issued := reader.NextI64();
    if issued.None? {
      return None;
    }
    var expires := reader.NextI64();
    if expires.None? {
      return None;
    }
    var id := reader.Text(ok);
    if id.None? {
      return None;
    }
    var principal := reader.Text(ok);
    if principal.None? {
      return None;
    }
    var purpose := reader.Text(ok);
    if purpose.None? {
      return None;
    }
    var count := reader.U16();
    if count.None? {
      return None;
    }
    var scopes := reader.Texts(ok, count.value);
    if scopes.None? {
      return None;
    }
    var done := reader.Done();
    if !done {
      return None;
    }
    return Some(Claims(id.value, principal.value, scopes.value, purpose.value, issued.value, expires.value));
  }

  function Prefixed(texts: seq<Bytes>, more: Read<seq<Bytes>>): Read<seq<Bytes>> {
    if more.Short? then Short else Read(texts + more.value, more.rest)
  }

  lemma PrefixedNothing(more: Read<seq<Bytes>>)
    ensures Prefixed([], more) == more
  {
    if more.Read? {
      assert [] + more.value == more.value;
    }
  }

  lemma PrefixedStep(ok: TextRule, texts: seq<Bytes>, b: Bytes, count: nat)
    requires count > 0
    ensures Prefixed(texts, ReadTexts(ok, b, count))
         == match ReadText(ok, b)
            case Short => Short
            case Read(value, rest) => Prefixed(texts + [value], ReadTexts(ok, rest, count - 1))
  {
    hide ReadText;
    var first := ReadText(ok, b);
    if first.Read? {
      var more := ReadTexts(ok, first.rest, count - 1);
      if more.Read? {
        assert texts + ([first.value] + more.value) == (texts + [first.value]) + more.value;
      }
    }
  }

  // ---- Each inverts the other ------------------------------------------------------------------------

  lemma {:induction false} LittleReads(n: nat, k: nat)
    requires n < Power(k)
    ensures |Little(n, k)| == k && FromLittle(Little(n, k)) == n
  {
    if k > 0 {
      LittleReads(n / 256, k - 1);
    }
  }

  lemma {:induction false} LittleWrites(b: Bytes)
    ensures Little(FromLittle(b), |b|) == b
  {
    if b != [] {
      LittleWrites(b[1..]);
      Shift(b[0], FromLittle(b[1..]));
    }
  }

  lemma TakeAppend(a: Bytes, b: Bytes)
    ensures TakeN(a + b, |a|) == Read(a, b)
  {
  }

  lemma U16Reads(n: nat, rest: Bytes)
    requires n <= MAX_FIELD
    ensures ReadU16(Little(n, 2) + rest) == Read(n, rest)
  {
    hide Little, FromLittle, TakeN;
    PowerEight();
    LittleReads(n, 2);
    TakeAppend(Little(n, 2), rest);
  }

  lemma U16Writes(b: Bytes)
    requires ReadU16(b).Read?
    ensures ReadU16(b).value <= MAX_FIELD && b == Little(ReadU16(b).value, 2) + ReadU16(b).rest
  {
    LittleWrites(b[..2]);
    FromLittleBound(b[..2]);
    PowerEight();
    hide Little, FromLittle;
  }

  lemma I64Reads(n: I64, rest: Bytes)
    ensures ReadI64(I64Bytes(n) + rest) == Read(n, rest)
  {
    hide Little, FromLittle, TakeN;
    PowerEight();
    LittleReads(Unsigned(n), 8);
    TakeAppend(I64Bytes(n), rest);
  }

  lemma I64Writes(b: Bytes)
    requires ReadI64(b).Read?
    ensures b == I64Bytes(ReadI64(b).value) + ReadI64(b).rest
  {
    LittleWrites(b[..8]);
    FromLittleBound(b[..8]);
    PowerEight();
    hide Little, FromLittle;
  }

  lemma TextReads(ok: TextRule, text: Bytes, rest: Bytes)
    requires |text| <= MAX_FIELD
    ensures ReadText(ok, TextBytes(text) + rest) == if ok(text) then Read(text, rest) else Short
  {
    hide ReadU16, Little;
    U16Reads(|text|, text + rest);
    assert TextBytes(text) + rest == Little(|text|, 2) + (text + rest);
    TakeAppend(text, rest);
  }

  lemma TextWrites(ok: TextRule, b: Bytes)
    requires ReadText(ok, b).Read?
    ensures var r := ReadText(ok, b);
      |r.value| <= MAX_FIELD && ok(r.value) && b == TextBytes(r.value) + r.rest
  {
    hide ReadU16, Little;
    U16Writes(b);
    var n := ReadU16(b);
    assert n.rest == n.rest[..n.value] + n.rest[n.value..];
  }

  lemma {:induction false} TextsRead(ok: TextRule, texts: seq<Bytes>, rest: Bytes)
    requires forall t <- texts :: |t| <= MAX_FIELD
    ensures ReadTexts(ok, TextsBytes(texts) + rest, |texts|)
         == if forall t <- texts :: ok(t) then Read(texts, rest) else Short
  {
    hide ReadText, TextBytes;
    if texts == [] {
      assert TextsBytes(texts) + rest == rest;
    } else {
      var more := TextsBytes(texts[1..]) + rest;
      assert TextsBytes(texts) + rest == TextBytes(texts[0]) + more;
      TextReads(ok, texts[0], more);
      TextsRead(ok, texts[1..], rest);
      assert texts == [texts[0]] + texts[1..];
      assert (forall t <- texts :: ok(t)) <==> ok(texts[0]) && forall t <- texts[1..] :: ok(t);
    }
  }

  lemma {:induction false} TextsWrite(ok: TextRule, b: Bytes, count: nat)
    requires ReadTexts(ok, b, count).Read?
    ensures var r := ReadTexts(ok, b, count);
      |r.value| == count && (forall t <- r.value :: |t| <= MAX_FIELD && ok(t)) && b == TextsBytes(r.value) + r.rest
    decreases count
  {
    hide ReadText, TextBytes;
    if count > 0 {
      TextWrites(ok, b);
      var first := ReadText(ok, b);
      TextsWrite(ok, first.rest, count - 1);
      var more := ReadTexts(ok, first.rest, count - 1);
      assert ([first.value] + more.value)[1..] == more.value;
      Assoc(TextBytes(first.value), TextsBytes(more.value), more.rest);
    }
  }

  lemma DecodeReads(ok: TextRule, c: Claims)
    requires Encodable(c)
    ensures Decode(ok, Encode(c).value) == if TextsOk(ok, c) then Some(c) else None
  {
    hide ReadI64, ReadText, ReadU16, ReadTexts, I64Bytes, TextBytes, TextsBytes, Little;
    var tail := TextsBytes(c.scopes);
    var counted := Little(|c.scopes|, 2) + tail;
    var purposed := TextBytes(c.purpose) + counted;
    var principaled := TextBytes(c.principal) + purposed;
    var identified := TextBytes(c.grantId) + principaled;
    I64Reads(c.issuedAt, I64Bytes(c.expiresAt) + identified);
    I64Reads(c.expiresAt, identified);
    TextReads(ok, c.grantId, principaled);
    TextReads(ok, c.principal, purposed);
    TextReads(ok, c.purpose, counted);
    U16Reads(|c.scopes|, tail);
    TextsRead(ok, c.scopes, []);
    assert tail + [] == tail;
  }

  lemma DecodeWrites(ok: TextRule, b: Bytes)
    requires Decode(ok, b).Some?
    ensures var c := Decode(ok, b).value;
      TextsOk(ok, c) && Encode(c) == Some(b)
  {
    hide ReadI64, ReadText, ReadU16, ReadTexts, I64Bytes, TextBytes, TextsBytes, Little;
    I64Writes(b);
    var issued := ReadI64(b);
    I64Writes(issued.rest);
    var expires := ReadI64(issued.rest);
    TextWrites(ok, expires.rest);
    var id := ReadText(ok, expires.rest);
    TextWrites(ok, id.rest);
    var principal := ReadText(ok, id.rest);
    TextWrites(ok, principal.rest);
    var purpose := ReadText(ok, principal.rest);
    U16Writes(purpose.rest);
    var count := ReadU16(purpose.rest);
    TextsWrite(ok, count.rest, count.value);
    var scopes := ReadTexts(ok, count.rest, count.value);
    assert TextsBytes(scopes.value) + [] == TextsBytes(scopes.value);
  }

  /**
    The decoder accepts a payload as some claims exactly when the encoder writes those claims so and
    their texts are UTF-8.
   */
  lemma DecodeInvertsEncode(b: Bytes, c: Claims)
    ensures Decode(Utf8Rule(), b) == Some(c) <==> Encode(c) == Some(b) && TextsOk(Utf8Rule(), c)
  {
    hide Decode, TextsOk;
    if Encode(c) == Some(b) {
      DecodeReads(Utf8Rule(), c);
    }
    if Decode(Utf8Rule(), b) == Some(c) {
      DecodeWrites(Utf8Rule(), b);
    }
  }

  /** Different claims are never written alike, whatever their texts. */
  lemma EncodeInjective(c: Claims, d: Claims)
    requires Encode(c).Some? && Encode(c) == Encode(d)
    ensures c == d
  {
    hide Decode;
    DecodeReads(_ => true, c);
    DecodeReads(_ => true, d);
  }
}
