/**
  Sealed grants: minting and verifying a token over an ideal AEAD.

  The AEAD is a ledger of everything ever sealed: opening succeeds exactly on what was sealed,
  under the same key and associated data.  Key ids are a function of the key, eight octets long.
 */
module Grants {
  import opened Base
  import B64 = Base64Url
  import P = GrantPayload

  type Key = Bytes

  const PREFIX := "vgig1."
  const AAD_DOMAIN := "vgi_rpc.grant.v1\0"
  const KID_BYTES := 8
  const ENVELOPE_VERSION: Byte := 1
  const MAX_TOKEN_CHARS := 4096

  type KidOf = Key -> Bytes

  datatype Keys = Keys(keys: seq<Key>, audience: Bytes, maxTtl: P.I64, skew: P.I64)

  datatype Seal = Seal(key: Key, aad: Bytes, plaintext: Bytes)

  type Ledger = map<Bytes, Seal>

  /** `now` in seconds; a real stands for the double. */
  datatype Request = Request(
    principal: Bytes,
    scopes: seq<Bytes>,
    purpose: Bytes,
    ttl: P.I64,
    grantId: Bytes,
    now: P.I64)

  datatype Minted = Minted(token: string, claims: P.Claims)

  datatype Error =
    | NotAGrant
    | TooLong
    | NotCanonical
    | UnknownKey
    | NotVerified
    | BadPayload
    | NoPrincipal
    | Lifetime
    | NotYet
    | Expired

  datatype Verdict = Accepted(claims: P.Claims) | Rejected(error: Error)

  function Octets(s: string): Bytes
    requires forall i | 0 <= i < |s| :: s[i] as int < 256
  {
    if s == "" then [] else [s[0] as int] + Octets(s[1..])
  }

  function Aad(keys: Keys, kid: Bytes): Bytes {
    Octets(AAD_DOMAIN) + kid + keys.audience
  }

  ghost predicate LawfulKid(kidOf: KidOf) {
    forall k :: |kidOf(k)| == KID_BYTES
  }

  /** What `GrantKeys::validate` insists on. */
  predicate Validated(kidOf: KidOf, keys: Keys) {
    && keys.keys != []
    && (forall i, j | 0 <= i < j < |keys.keys| :: kidOf(keys.keys[i]) != kidOf(keys.keys[j]))
    && keys.maxTtl > 0 && keys.skew >= 0 && |keys.audience| <= P.MAX_FIELD
  }

  function Min(a: int, b: int): int {
    if a < b then a else b
  }

  /** The claims a request mints; adding the lifetime must not overflow, which the source leaves undefined. */
  function ClaimsOf(keys: Keys, r: Request): P.Claims
    requires r.now + Min(r.ttl, keys.maxTtl) < TWO_63 && r.ttl > 0 && keys.maxTtl > 0
  {
    P.Claims(r.grantId, r.principal, r.scopes, r.purpose, r.now, r.now + Min(r.ttl, keys.maxTtl))
  }

  function Raw(kid: Bytes, sealed: Bytes): Bytes {
    kid + [ENVELOPE_VERSION] + sealed
  }

  function TokenOf(kid: Bytes, sealed: Bytes): string {
    PREFIX + B64.Encode(Raw(kid, sealed))
  }

  /** `sealed` is what the AEAD answered; it is fresh, or a repeat of the very same seal. */
  predicate MaySeal(ledger: Ledger, sealed: Bytes, seal: Seal) {
    sealed !in ledger || ledger[sealed] == seal
  }

  function Open(ledger: Ledger, key: Key, sealed: Bytes, aad: Bytes): Option<Bytes> {
    if sealed in ledger && ledger[sealed].key == key && ledger[sealed].aad == aad
    then Some(ledger[sealed].plaintext) else None
  }

  predicate Mintable(keys: Keys, r: Request) {
    keys.keys != [] && r.ttl > 0 && keys.maxTtl > 0 && r.now + Min(r.ttl, keys.maxTtl) < TWO_63
  }

  function SealOf(kidOf: KidOf, keys: Keys, payload: Bytes): Seal
    requires keys.keys != []
  {
    Seal(keys.keys[0], Aad(keys, kidOf(keys.keys[0])), payload)
  }

  /** The primary key seals; `None` is an argument error. */
  function Mint(kidOf: KidOf, keys: Keys, r: Request, sealed: Bytes): Option<Minted>
    requires Mintable(keys, r)
  {
    var claims := ClaimsOf(keys, r);
    if P.Encode(claims).None? then None else Some(Minted(TokenOf(kidOf(keys.keys[0]), sealed), claims))
  }

  function FindKey(kidOf: KidOf, keys: seq<Key>, kid: Bytes): Option<Key> {
    if keys == [] then None
    else if kidOf(keys[0]) == kid then Some(keys[0])
    else FindKey(kidOf, keys[1..], kid)
  }

  /** The unsigned subtraction, as the source writes it. */
  function UnsignedLifetime(c: P.Claims): nat {
    (P.Unsigned(c.expiresAt) - P.Unsigned(c.issuedAt)) % TWO_64
  }

  /** After a token opened: what its claims and the clock must satisfy. */
  function Judge(keys: Keys, c: P.Claims, now: real): Verdict {
    if c.principal == [] then Rejected(NoPrincipal)
    else if c.expiresAt <= c.issuedAt || UnsignedLifetime(c) > P.Unsigned(keys.maxTtl) then Rejected(Lifetime)
    else if c.issuedAt as real > now + keys.skew as real then Rejected(NotYet)
    else if now >= c.expiresAt as real + keys.skew as real then Rejected(Expired)
    else Accepted(c)
  }

  function Verify(kidOf: KidOf, ledger: Ledger, keys: Keys, token: string, now: real): Verdict {
    if !(PREFIX <= token) then Rejected(NotAGrant)
    else if |token| > MAX_TOKEN_CHARS then Rejected(TooLong)
    else
      var raw := B64.Strict(token[|PREFIX|..]);
      if raw.None? then Rejected(NotCanonical)
      else
        var kid := if |raw.value| < KID_BYTES then raw.value else raw.value[..KID_BYTES];
        var envelope := if |raw.value| > KID_BYTES then raw.value[KID_BYTES..] else [];
        var key := FindKey(kidOf, keys.keys, kid);
        if key.None? then Rejected(UnknownKey)
        else if envelope == [] || envelope[0] != ENVELOPE_VERSION then Rejected(NotVerified)
        else
          var payload := Open(ledger, key.value, envelope[1..], Aad(keys, kid));
          if payload.None? then Rejected(NotVerified)
          else
            var claims := P.Decode(P.Utf8Rule(), payload.value);
            if claims.None? then Rejected(BadPayload) else Judge(keys, claims.value, now)
  }

  method FindKeyLoop(kidOf: KidOf, keys: seq<Key>, kid: Bytes) returns (key: Option<Key>)
    ensures key == FindKey(kidOf, keys, kid)
  {
    var i := 0;
    while i < |keys|
      invariant 0 <= i <= |keys|
      invariant FindKey(kidOf, keys[i..], kid) == FindKey(kidOf, keys, kid)
    {
      assert keys[i..][1..] == keys[i + 1..];
      if kidOf(keys[i]) == kid {
        return Some(keys[i]);
      }
      i := i + 1;
    }
    return None;
  }

  method StrictDecode(text: string) returns (r: Option<Bytes>)
    ensures r == B64.Strict(text)
  {
    hide B64.Decode, B64.Encode;
    if text == "" || !B64.InAlphabet(text) || |text| % 4 == 1 {
      return None;
    }
    r := B64.DecodeLoop(text);
    if r.Some? {
      var again := B64.EncodeLoop(r.value);
      if again != text {
        return None;
      }
    }
  }

  method VerifyGrantToken(kidOf: KidOf, ledger: Ledger, keys: Keys, token: string, now: real) returns (v: Verdict)
    ensures v == Verify(kidOf, ledger, keys, token, now)
  {
    hide B64.Strict, FindKey, P.Decode, Octets;
    if !(PREFIX <= token) {
      return Rejected(NotAGrant);
    }
    if |token| > MAX_TOKEN_CHARS {
      return Rejected(TooLong);
    }
    var raw := StrictDecode(token[|PREFIX|..]);
    if raw.None? {
      return Rejected(NotCanonical);
    }
    var kid := if |raw.value| < KID_BYTES then raw.value else raw.value[..KID_BYTES];
    var envelope := if |raw.value| > KID_BYTES then raw.value[KID_BYTES..] else [];
    var key := FindKeyLoop(kidOf, keys.keys, kid);
    if key.None? {
      return Rejected(UnknownKey);
    }
    if envelope == [] || envelope[0] != ENVELOPE_VERSION {
      return Rejected(NotVerified);
    }
    var payload := Open(ledger, key.value, envelope[1..], Aad(keys, kid));
    if payload.None? {
      return Rejected(NotVerified);
    }
    var claims := P.DecodePayload(payload.value);
    if claims.None? {
      return Rejected(BadPayload);
    }
    return Judge(keys, claims.value, now);
  }

  // ---- Lifetime -------------------------------------------------------------------------------------

  /** Past the ordering check the unsigned subtraction is the true difference, for all 64-bit pairs. */
  lemma LifetimeIsDifference(c: P.Claims)
    requires c.expiresAt > c.issuedAt
    ensures UnsignedLifetime(c) == c.expiresAt - c.issuedAt
  {
  }

  /** Inside the window the verifier allows. */
  predicate InWindow(keys: Keys, c: P.Claims, now: real) {
    c.issuedAt as real <= now + keys.skew as real && now < c.expiresAt as real + keys.skew as real
  }

  lemma JudgeMeaning(keys: Keys, c: P.Claims, now: real)
    requires keys.maxTtl > 0
    ensures Judge(keys, c, now) == Accepted(c)
       <==> c.principal != [] && 0 < c.expiresAt - c.issuedAt <= keys.maxTtl && InWindow(keys, c, now)
    ensures Judge(keys, c, now).Accepted? ==> Judge(keys, c, now) == Accepted(c)
  {
  }

  /** Why opened claims are refused: the first of four conditions that fails, in this order. */
  lemma JudgeReasons(keys: Keys, c: P.Claims, now: real)
    requires keys.maxTtl > 0
    ensures var v := Judge(keys, c, now);
      var named, lasts := c.principal != [], 0 < c.expiresAt - c.issuedAt <= keys.maxTtl;
      && (v == Rejected(NoPrincipal) <==> !named)
      && (v == Rejected(Lifetime) <==> named && !lasts)
      && (v == Rejected(NotYet) <==> named && lasts && now < (c.issuedAt - keys.skew) as real)
      && (v == Rejected(Expired) <==>
            named && lasts && now >= (c.issuedAt - keys.skew) as real && now >= (c.expiresAt + keys.skew) as real)
  {
  }

  /** The texts that are grants at all: the prefix, and behind it the canonical encoding of something, not too long. */
  lemma TokenReasons(kidOf: KidOf, ledger: Ledger, keys: Keys, token: string, now: real)
    ensures var v := Verify(kidOf, ledger, keys, token, now);
      var grant := |token| >= 6 && token[..6] == "vgig1.";
      && (v == Rejected(NotAGrant) <==> !grant)
      && (v == Rejected(TooLong) <==> grant && |token| > 4096)
      && (v == Rejected(NotCanonical) <==>
            grant && |token| <= 4096 && forall raw: Bytes | raw != [] :: B64.Encode(raw) != token[6..])
  {
    hide B64.Strict, B64.Encode, FindKey, P.Decode, Judge, Octets;
    if |token| >= 6 && token[..6] == "vgig1." {
      CanonicalIff(token[6..]);
      JudgeErrors(keys, now);
      assert PREFIX == "vgig1." && token[|PREFIX|..] == token[6..];
    }
  }

  lemma CanonicalIff(text: string)
    ensures B64.Strict(text).None? <==> forall raw: Bytes | raw != [] :: B64.Encode(raw) != text
  {
    hide B64.Strict, B64.Encode;
    if B64.Strict(text).Some? {
      var raw: Bytes := B64.Strict(text).value;
      B64.StrictAcceptsEncodings(text, raw);
      assert raw != [] && B64.Encode(raw) == text;
    } else {
      forall raw: Bytes | raw != []
        ensures B64.Encode(raw) != text
      {
        B64.StrictAcceptsEncodings(text, raw);
      }
    }
  }

  lemma JudgeErrors(keys: Keys, now: real)
    ensures forall c ::
              Judge(keys, c, now).Rejected? ==> Judge(keys, c, now).error in {NoPrincipal, Lifetime, NotYet, Expired}
  {
  }

  /** What becomes of such a text, by the octets it encodes: the id of a held key, the version, what that key sealed. */
  lemma SealReasons(kidOf: KidOf, ledger: Ledger, keys: Keys, raw: Bytes, now: real)
    requires LawfulKid(kidOf) && Validated(kidOf, keys)
    requires raw != [] && |B64.Encode(raw)| <= 4090
    ensures var v := Verify(kidOf, ledger, keys, "vgig1." + B64.Encode(raw), now);
      && ((forall k <- keys.keys :: !(kidOf(k) <= raw)) ==> v == Rejected(UnknownKey))
      && (forall k <- keys.keys | kidOf(k) <= raw ::
            if |raw| == 8 || raw[8] != 1 || raw[9..] !in ledger || ledger[raw[9..]].key != k
               || ledger[raw[9..]].aad != Aad(keys, kidOf(k))
            then v == Rejected(NotVerified)
            else
              var claims := P.Decode(P.Utf8Rule(), ledger[raw[9..]].plaintext);
              v == if claims.None? then Rejected(BadPayload) else Judge(keys, claims.value, now))
  {
    var text := B64.Encode(raw);
    var token := "vgig1." + text;
    B64.StrictAcceptsEncodings(text, raw);
    hide B64.Strict, B64.Encode, FindKey, P.Decode, Judge, Octets, Validated;
    assert token[|PREFIX|..] == text;
    var kid := if |raw| < KID_BYTES then raw else raw[..KID_BYTES];
    FoundKeyIsHeld(kidOf, keys.keys, kid);
    forall k <- keys.keys | kidOf(k) <= raw
      ensures FindKey(kidOf, keys.keys, kid) == Some(k) && kid == kidOf(k)
    {
      assert |kidOf(k)| == KID_BYTES && raw[..KID_BYTES] == kidOf(k);
      FindsValidated(kidOf, keys, k);
    }
    assert |raw| > 8 ==> raw[8..][1..] == raw[9..];
  }

  lemma FindsValidated(kidOf: KidOf, keys: Keys, key: Key)
    requires Validated(kidOf, keys) && key in keys.keys
    ensures FindKey(kidOf, keys.keys, kidOf(key)) == Some(key)
  {
    FindsHeldKey(kidOf, keys.keys, key);
  }

  /** A mint says what it was asked to say, from now on, for as long as it was asked to or as it may at most. */
  lemma MintedClaims(kidOf: KidOf, keys: Keys, r: Request, sealed: Bytes)
    requires Mintable(keys, r) && Mint(kidOf, keys, r, sealed).Some?
    ensures var c := Mint(kidOf, keys, r, sealed).value.claims;
      && c.grantId == r.grantId && c.principal == r.principal && c.scopes == r.scopes && c.purpose == r.purpose
      && c.issuedAt == r.now && c.expiresAt - c.issuedAt <= r.ttl && c.expiresAt - c.issuedAt <= keys.maxTtl
      && (c.expiresAt - c.issuedAt == r.ttl || c.expiresAt - c.issuedAt == keys.maxTtl)
  {
  }

  // ---- A minted token verifies to its own claims, exactly when it should -----------------------------

  lemma {:induction false} FindsHeldKey(kidOf: KidOf, keys: seq<Key>, key: Key)
    requires key in keys
    requires forall i, j | 0 <= i < j < |keys| :: kidOf(keys[i]) != kidOf(keys[j])
    ensures FindKey(kidOf, keys, kidOf(key)) == Some(key)
  {
    if keys[0] != key {
      var j :| 0 <= j < |keys| && keys[j] == key;
      assert kidOf(keys[0]) != kidOf(keys[j]);
      FindsHeldKey(kidOf, keys[1..], key);
    }
  }

  lemma {:induction false} FoundKeyIsHeld(kidOf: KidOf, keys: seq<Key>, kid: Bytes)
    ensures FindKey(kidOf, keys, kid).Some? ==>
              FindKey(kidOf, keys, kid).value in keys && kidOf(FindKey(kidOf, keys, kid).value) == kid
  {
    if keys != [] {
      FoundKeyIsHeld(kidOf, keys[1..], kid);
    }
  }

  lemma TokenParts(kid: Bytes, sealed: Bytes)
    requires |kid| == KID_BYTES
    ensures PREFIX <= TokenOf(kid, sealed) && B64.Strict(TokenOf(kid, sealed)[|PREFIX|..]) == Some(Raw(kid, sealed))
    ensures var raw := Raw(kid, sealed);
      |raw| > KID_BYTES && raw[..KID_BYTES] == kid && raw[KID_BYTES..] == [ENVELOPE_VERSION] + sealed
      && raw[KID_BYTES..][1..] == sealed
  {
    var raw := Raw(kid, sealed);
    hide B64.Strict, B64.Encode;
    assert TokenOf(kid, sealed)[|PREFIX|..] == B64.Encode(raw);
    B64.StrictAcceptsEncodings(B64.Encode(raw), raw);
  }

  /** A minted token presented to a verifier that still holds its key, under distinct ids and the same audience. */
  ghost predicate Presented(kidOf: KidOf, keys: Keys, r: Request, sealed: Bytes, ledger: Ledger, at: Keys) {
    && LawfulKid(kidOf) && Mintable(keys, r) && Mint(kidOf, keys, r, sealed).Some?
    && sealed in ledger && ledger[sealed] == SealOf(kidOf, keys, P.Encode(ClaimsOf(keys, r)).value)
    && Validated(kidOf, at) && keys.keys[0] in at.keys && at.audience == keys.audience
  }

  lemma MintedOpens(kidOf: KidOf, keys: Keys, r: Request, sealed: Bytes, ledger: Ledger, at: Keys, now: real)
    requires Presented(kidOf, keys, r, sealed, ledger, at)
    ensures var m := Mint(kidOf, keys, r, sealed).value;
      Verify(kidOf, ledger, at, m.token, now)
        == if |m.token| > MAX_TOKEN_CHARS then Rejected(TooLong)
           else if !P.TextsOk(P.Utf8Rule(), m.claims) then Rejected(BadPayload)
           else Judge(at, m.claims, now)
  {
    var key := keys.keys[0];
    FindsHeldKey(kidOf, at.keys, key);
    P.DecodeReads(P.Utf8Rule(), ClaimsOf(keys, r));
    TokenParts(kidOf(key), sealed);
    hide P.Decode, P.Encode, P.TextsOk, P.Utf8Rule, Judge, FindKey, TokenOf, Raw, B64.Strict, Octets;
  }

  /**
    It verifies to its own claims exactly when its texts are UTF-8, it names a principal, it is not
    too long, its lifetime is within the verifier's maximum, and the clock is inside the window.
   */
  lemma MintedVerifies(kidOf: KidOf, keys: Keys, r: Request, sealed: Bytes, ledger: Ledger, at: Keys, now: real)
    requires Presented(kidOf, keys, r, sealed, ledger, at)
    ensures var m := Mint(kidOf, keys, r, sealed).value;
      Verify(kidOf, ledger, at, m.token, now) == Accepted(m.claims)
      <==> P.TextsOk(P.Utf8Rule(), m.claims) && r.principal != [] && |m.token| <= MAX_TOKEN_CHARS
           && Min(r.ttl, keys.maxTtl) <= at.maxTtl && InWindow(at, m.claims, now)
  {
    hide Verify, Judge, P.TextsOk, P.Utf8Rule, P.Encode, TokenOf, InWindow;
    MintedOpens(kidOf, keys, r, sealed, ledger, at, now);
    JudgeMeaning(at, ClaimsOf(keys, r), now);
  }

  lemma NobodyEncodes()
    ensures P.Encode(P.Claims([], [], [], [], 0, 60)).Some?
  {
  }

  /** It can fail: a grant of nobody is minted and presented as it should be, and refused at any time. */
  lemma MintedCanBeRefused(kidOf: KidOf, key: Key, sealed: Bytes, now: real)
    requires LawfulKid(kidOf)
    ensures var keys, r := Keys([key], [], 60, 0), Request([], [], [], 60, [], 0);
      && Mintable(keys, r) && Mint(kidOf, keys, r, sealed).Some?
      && var ledger := map[sealed := SealOf(kidOf, keys, P.Encode(ClaimsOf(keys, r)).value)];
      && Presented(kidOf, keys, r, sealed, ledger, keys)
      && var m := Mint(kidOf, keys, r, sealed).value;
         Verify(kidOf, ledger, keys, m.token, now) != Accepted(m.claims)
  {
    hide Verify, P.TextsOk, P.Utf8Rule, P.Encode, TokenOf, SealOf, InWindow;
    var keys, r := Keys([key], [], 60, 0), Request([], [], [], 60, [], 0);
    NobodyEncodes();
    var ledger := map[sealed := SealOf(kidOf, keys, P.Encode(ClaimsOf(keys, r)).value)];
    MintedVerifies(kidOf, keys, r, sealed, ledger, keys, now);
  }

  // ---- Nothing else verifies ----------------------------------------------------------------------------

  /** One grant ever minted: under which keys, from what, sealed as what. */
  datatype Mintage = Mintage(keys: Keys, request: Request, sealed: Bytes)

  ghost predicate Issued(kidOf: KidOf, m: Mintage) {
    Mintable(m.keys, m.request) && Mint(kidOf, m.keys, m.request, m.sealed).Some?
  }

  function SealIn(kidOf: KidOf, m: Mintage): Seal
    requires Mintable(m.keys, m.request) && Mint(kidOf, m.keys, m.request, m.sealed).Some?
  {
    SealOf(kidOf, m.keys, P.Encode(ClaimsOf(m.keys, m.request)).value)
  }

  /** The ledger after a run of mints; each seals something fresh or repeats itself. */
  ghost predicate LedgerOf(kidOf: KidOf, run: seq<Mintage>, ledger: Ledger) {
    && (forall m <- run :: Issued(kidOf, m) && m.sealed in ledger && ledger[m.sealed] == SealIn(kidOf, m))
    && (forall sealed | sealed in ledger :: exists m :: m in run && m.sealed == sealed)
  }

  /** Minting on keeps the ledger one of the run, whatever fresh seal the AEAD answers with. */
  lemma MintExtends(kidOf: KidOf, run: seq<Mintage>, ledger: Ledger, m: Mintage)
    requires LedgerOf(kidOf, run, ledger) && Issued(kidOf, m) && MaySeal(ledger, m.sealed, SealIn(kidOf, m))
    ensures LedgerOf(kidOf, run + [m], ledger[m.sealed := SealIn(kidOf, m)])
  {
    hide Mint, Mintable, SealIn;
    var after := ledger[m.sealed := SealIn(kidOf, m)];
    forall sealed | sealed in after ensures exists k :: k in run + [m] && k.sealed == sealed {
      if sealed == m.sealed {
        assert m in run + [m];
      } else {
        var k :| k in run && k.sealed == sealed;
        assert k in run + [m];
      }
    }
  }

  lemma AadSplits(a: Keys, kidA: Bytes, b: Keys, kidB: Bytes)
    requires |kidA| == |kidB| && Aad(a, kidA) == Aad(b, kidB)
    ensures kidA == kidB && a.audience == b.audience
  {
    hide Octets;
    var d, w := |Octets(AAD_DOMAIN)|, Aad(a, kidA);
    assert kidA == w[d..d + |kidA|] && kidB == w[d..d + |kidA|];
    assert a.audience == w[d + |kidA|..] && b.audience == w[d + |kidA|..];
  }

  /**
    Over every run of mints, a verifier that accepts a token accepts character for character one that
    was minted, under a key it holds and for its own audience, and returns that grant's own claims.
   */
  lemma OnlyMintedVerify(kidOf: KidOf, run: seq<Mintage>, ledger: Ledger, at: Keys, token: string, now: real)
    requires LawfulKid(kidOf) && LedgerOf(kidOf, run, ledger)
    requires Verify(kidOf, ledger, at, token, now).Accepted?
    ensures exists m :: m in run && Issued(kidOf, m)
              && Mint(kidOf, m.keys, m.request, m.sealed)
                  == Some(Minted(token, Verify(kidOf, ledger, at, token, now).claims))
              && m.keys.keys[0] in at.keys && m.keys.audience == at.audience
  {
    hide Octets, B64.Strict, P.Decode, P.Encode, Verify, Aad, FindKey, P.Utf8Rule;
    var kid, sealed, claims := AcceptedParts(kidOf, ledger, at, token, now);
    var m :| m in run && m.sealed == sealed;
    assert Issued(kidOf, m);
    var theirs := m.keys.keys[0];
    AadSplits(at, kid, m.keys, kidOf(theirs));
    B64.StrictAcceptsEncodings(token[|PREFIX|..], Raw(kid, sealed));
    assert token == PREFIX + token[|PREFIX|..];
    P.DecodeWrites(P.Utf8Rule(), ledger[sealed].plaintext);
    P.EncodeInjective(ClaimsOf(m.keys, m.request), claims);
  }

  /** What an accepted token is made of. */
  lemma AcceptedParts(kidOf: KidOf, ledger: Ledger, at: Keys, token: string, now: real)
    returns (kid: Bytes, sealed: Bytes, claims: P.Claims)
    requires LawfulKid(kidOf) && Verify(kidOf, ledger, at, token, now).Accepted?
    ensures PREFIX <= token && |kid| == KID_BYTES && B64.Strict(token[|PREFIX|..]) == Some(Raw(kid, sealed))
    ensures sealed in ledger && ledger[sealed].aad == Aad(at, kid)
    ensures ledger[sealed].key in at.keys && kidOf(ledger[sealed].key) == kid
    ensures P.Decode(P.Utf8Rule(), ledger[sealed].plaintext) == Some(claims)
    ensures Verify(kidOf, ledger, at, token, now).claims == claims
  {
    hide Octets, B64.Strict, P.Decode, P.Utf8Rule, Aad, FindKey;
    var raw := B64.Strict(token[|PREFIX|..]).value;
    kid := if |raw| < KID_BYTES then raw else raw[..KID_BYTES];
    var envelope := raw[KID_BYTES..];
    sealed := envelope[1..];
    FoundKeyIsHeld(kidOf, at.keys, kid);
    claims := P.Decode(P.Utf8Rule(), ledger[sealed].plaintext).value;
    assert raw == Raw(kid, sealed);
  }
}
