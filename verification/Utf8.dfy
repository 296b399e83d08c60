/** UTF-8 acceptance: the index loop against the definition in section 4 of RFC 3629. */
module Utf8 {
  import opened Base

  /** A Unicode scalar value. */
  predicate Scalar(u: nat) {
    u <= 0x10FFFF && !(0xD800 <= u <= 0xDFFF)
  }

  function EncodeScalar(u: nat): Bytes
    requires Scalar(u)
  {
    if u < 0x80 then [u]
    else if u < 0x800 then [0xC0 + u / 64, 0x80 + u % 64]
    else if u < 0x10000 then [0xE0 + u / 4096, 0x80 + u / 64 % 64, 0x80 + u % 64]
    else [0xF0 + u / 262144, 0x80 + u / 4096 % 64, 0x80 + u / 64 % 64, 0x80 + u % 64]
  }

  function EncodeAll(us: seq<nat>): Bytes
    requires forall u <- us :: Scalar(u)
  {
    if us == [] then [] else EncodeScalar(us[0]) + EncodeAll(us[1..])
  }

  ghost predicate IsUtf8(b: Bytes) {
    exists us: seq<nat> :: (forall u <- us :: Scalar(u)) && b == EncodeAll(us)
  }

  // ---- The loop -----------------------------------------------------------------------------------

  /** How many continuation octets a lead octet announces; `None` for one that leads nothing. */
  function Continuations(first: Byte): Option<nat> {
    if first < 0x80 then Some(0)
    else if 0xC0 <= first < 0xE0 then Some(1)
    else if 0xE0 <= first < 0xF0 then Some(2)
    else if 0xF0 <= first < 0xF8 then Some(3)
    else None
  }

  function LeadBits(first: Byte): nat {
    if first < 0x80 then first
    else if 0xC0 <= first < 0xE0 then first - 0xC0
    else if 0xE0 <= first < 0xF0 then first - 0xE0
    else if 0xF0 <= first then first - 0xF0
    else 0
  }

  predicate IsContinuation(byte: Byte) {
    0x80 <= byte < 0xC0
  }

  /** `code` with the next `k` continuation octets shifted in, if they are continuation octets. */
  function Gather(b: Bytes, code: nat, k: nat): Option<nat>
    requires k <= |b|
    decreases k
  {
    if k == 0 then Some(code)
    else if !IsContinuation(b[0]) then None
    else Gather(b[1..], code * 64 + (b[0] - 0x80), k - 1)
  }

  /** The shortest form, and a scalar value. */
  predicate Allowed(continuations: nat, code: nat) {
    && !(continuations == 1 && code < 0x80)
    && !(continuations == 2 && code < 0x800)
    && !(continuations == 3 && code < 0x10000)
    && Scalar(code)
  }

  /** One turn of the loop: the scalar at the front and how many octets it takes. */
  function Front(b: Bytes): (r: Option<(nat, nat)>)
    requires b != []
    ensures r.Some? ==> 0 < r.value.1 <= |b|
  {
    var k := Continuations(b[0]);
    if k.None? || k.value > |b| - 1 then None
    else
      var code := Gather(b[1..], LeadBits(b[0]), k.value);
      if code.None? || (k.value > 0 && !Allowed(k.value, code.value)) then None else Some((code.value, k.value + 1))
  }

  predicate Valid(b: Bytes)
    decreases |b|
  {
    b == [] || (Front(b).Some? && Valid(b[Front(b).value.1..]))
  }

  /** The inner loop: shift `continuation` octets in from position `start`. */
  method ShiftIn(value: Bytes, start: nat, lead: nat, continuation: nat) returns (code: Option<nat>)
    requires start + continuation <= |value|
    ensures code == Gather(value[start..], lead, continuation)
  {
    var acc: nat := lead;
    var i, n := start, 0;
    while n < continuation
      invariant 0 <= n <= continuation && i == start + n
      invariant Gather(value[i..], acc, continuation - n) == Gather(value[start..], lead, continuation)
    {
      if !IsContinuation(value[i]) {
        return None;
      }
      assert value[i..][1..] == value[i + 1..];
      acc := acc * 64 + (value[i] as int - 0x80);
      i := i + 1;
      n := n + 1;
    }
    return Some(acc);
  }

  method ValidUtf8(value: Bytes) returns (ok: bool)
    ensures ok <==> IsUtf8(value)
  {
    ValidIffUtf8(value);
    hide IsUtf8, Gather, Allowed, LeadBits, Continuations;
    var i := 0;
    while i < |value|
      invariant 0 <= i <= |value|
      invariant Valid(value) <==> Valid(value[i..])
    {
      ghost var rest := value[i..];
      var first := value[i];
      assert rest[1..] == value[i + 1..];
      if first < 0x80 {
        AsciiFront(rest);
        i := i + 1;
        continue;
      }
      LongLead(first);
      var announced := Continuations(first);
      if announced.None? {
        return false;
      }
      var continuation := announced.value;
      if i + 1 + continuation > |value| {
        return false;
      }
      var code := ShiftIn(value, i + 1, LeadBits(first), continuation);
      if code.None? || !Allowed(continuation, code.value) {
        return false;
      }
      assert rest[continuation + 1..] == value[i + 1 + continuation..];
      i := i + 1 + continuation;
    }
    return true;
  }

  lemma LongLead(first: Byte)
    requires first >= 0x80
    ensures Continuations(first) != Some(0)
  {
  }

  lemma AsciiFront(b: Bytes)
    requires b != [] && b[0] < 0x80
    ensures Front(b) == Some((b[0] as nat, 1))
  {
  }

  // ---- The loop accepts exactly the definition ----------------------------------------------------

  lemma Rebuilt(u: nat)
    ensures u / 64 * 64 + u % 64 == u && u / 4096 * 64 + u / 64 % 64 == u / 64
        && u / 262144 * 64 + u / 4096 % 64 == u / 4096
  {
  }

  /** The front of an encoding is the encoding of the front. */
  lemma FrontOfEncoding(u: nat, rest: Bytes)
    requires Scalar(u)
    ensures EncodeScalar(u) + rest != []
    ensures Front(EncodeScalar(u) + rest) == Some((u, |EncodeScalar(u)|))
  {
    Rebuilt(u);
    var b := EncodeScalar(u) + rest;
    if 0x80 <= u < 0x800 {
      GatherOne(b[1..], u / 64);
    } else if 0x800 <= u < 0x10000 {
      GatherTwo(b[1..], u / 4096);
    } else if 0x10000 <= u {
      FrontOfLong(u, rest);
    }
  }

  lemma FrontOfLong(u: nat, rest: Bytes)
    requires Scalar(u) && u >= 0x10000
    ensures Front(EncodeScalar(u) + rest) == Some((u, 4))
  {
    Rebuilt(u);
    var b := EncodeScalar(u) + rest;
    GatherThree(b[1..], u / 262144);
  }

  lemma GatherOne(b: Bytes, code: nat)
    requires |b| >= 1
    ensures Gather(b, code, 1) == if IsContinuation(b[0]) then Some(code * 64 + (b[0] - 0x80)) else None
  {
    assert Gather(b[1..], code * 64 + 0, 0) == Some(code * 64 + 0);
  }

  lemma GatherTwo(b: Bytes, code: nat)
    requires |b| >= 2
    ensures Gather(b, code, 2)
         == if IsContinuation(b[0]) && IsContinuation(b[1])
            then Some((code * 64 + (b[0] - 0x80)) * 64 + (b[1] - 0x80)) else None
  {
  }

  lemma GatherThree(b: Bytes, code: nat)
    requires |b| >= 3
    ensures Gather(b, code, 3)
         == if IsContinuation(b[0]) && IsContinuation(b[1]) && IsContinuation(b[2])
            then Some(((code * 64 + (b[0] - 0x80)) * 64 + (b[1] - 0x80)) * 64 + (b[2] - 0x80)) else None
  {
  }

  /** What a turn of the loop accepts is one scalar's encoding. */
  lemma FrontEncodes(b: Bytes)
    requires b != [] && Front(b).Some?
    ensures Scalar(Front(b).value.0) && EncodeScalar(Front(b).value.0) == b[..Front(b).value.1]
  {
    var k := Continuations(b[0]).value;
    if k == 1 {
      GatherOne(b[1..], LeadBits(b[0]));
      Digits2(LeadBits(b[0]), b[1] - 0x80);
    } else if k == 2 {
      ThreeEncode(b);
    } else if k == 3 {
      FourEncode(b);
    }
  }

  lemma ThreeEncode(b: Bytes)
    requires b != [] && Front(b).Some? && Continuations(b[0]) == Some(2)
    ensures Scalar(Front(b).value.0) && EncodeScalar(Front(b).value.0) == b[..3]
  {
    GatherTwo(b[1..], LeadBits(b[0]));
    hide Gather;
    Digits3(LeadBits(b[0]), b[1] - 0x80, b[2] - 0x80);
  }

  lemma FourEncode(b: Bytes)
    requires b != [] && Front(b).Some? && Continuations(b[0]) == Some(3)
    ensures Scalar(Front(b).value.0) && EncodeScalar(Front(b).value.0) == b[..4]
  {
    GatherThree(b[1..], LeadBits(b[0]));
    hide Gather;
    Digits4(LeadBits(b[0]), b[1] - 0x80, b[2] - 0x80, b[3] - 0x80);
  }

  lemma Digits2(a: nat, b: nat)
    requires b < 64
    ensures (a * 64 + b) / 64 == a && (a * 64 + b) % 64 == b
  {
  }

  lemma Digits3(a: nat, b: nat, c: nat)
    requires b < 64 && c < 64
    ensures var n := (a * 64 + b) * 64 + c;
      n / 4096 == a && n / 64 % 64 == b && n % 64 == c
  {
    Digits2(a * 64 + b, c);
    Digits2(a, b);
  }

  lemma Digits4(a: nat, b: nat, c: nat, d: nat)
    requires b < 64 && c < 64 && d < 64
    ensures var n := ((a * 64 + b) * 64 + c) * 64 + d;
      n / 262144 == a && n / 4096 % 64 == b && n / 64 % 64 == c && n % 64 == d
  {
    Digits2((a * 64 + b) * 64 + c, d);
    Digits3(a * 64 + b, c, d);
    Digits2(a, b);
  }

  lemma {:induction false} EncodingsAreValid(us: seq<nat>)
    requires forall u <- us :: Scalar(u)
    ensures Valid(EncodeAll(us))
  {
    hide Front, EncodeScalar;
    if us != [] {
      var rest := EncodeAll(us[1..]);
      FrontOfEncoding(us[0], rest);
      EncodingsAreValid(us[1..]);
      assert (EncodeScalar(us[0]) + rest)[|EncodeScalar(us[0])|..] == rest;
    }
  }

  lemma {:induction false} ValidIsEncoding(b: Bytes) returns (us: seq<nat>)
    requires Valid(b)
    ensures (forall u <- us :: Scalar(u)) && b == EncodeAll(us)
    decreases |b|
  {
    hide Front, EncodeScalar, Scalar;
    us := [];
    if b != [] {
      FrontEncodes(b);
      var (u, k) := Front(b).value;
      var rest := ValidIsEncoding(b[k..]);
      us := [u] + rest;
      assert us[1..] == rest && b == b[..k] + b[k..];
    }
  }

  lemma ValidIffUtf8(b: Bytes)
    ensures Valid(b) <==> IsUtf8(b)
  {
    if Valid(b) {
      var us := ValidIsEncoding(b);
    }
    if IsUtf8(b) {
      var us: seq<nat> :| (forall u <- us :: Scalar(u)) && b == EncodeAll(us);
      EncodingsAreValid(us);
    }
  }

  /** No text has two readings. */
  lemma {:induction false} EncodingUnique(us: seq<nat>, vs: seq<nat>)
    requires (forall u <- us :: Scalar(u)) && (forall v <- vs :: Scalar(v)) && EncodeAll(us) == EncodeAll(vs)
    ensures us == vs
  {
    hide Front, EncodeScalar, Scalar;
    if us != [] {
      FrontOfEncoding(us[0], EncodeAll(us[1..]));
    }
    if vs != [] {
      FrontOfEncoding(vs[0], EncodeAll(vs[1..]));
    }
    if us != [] && vs != [] {
      var b := EncodeAll(us);
      assert us[0] == vs[0];
      assert EncodeAll(us[1..]) == b[|EncodeScalar(us[0])|..] == EncodeAll(vs[1..]);
      EncodingUnique(us[1..], vs[1..]);
      assert us == [us[0]] + us[1..] && vs == [vs[0]] + vs[1..];
    }
  }
}
