/**
  What `PeerEvidenceSet::binding_digest` feeds its hash, and that the bytes determine everything
  they are meant to bind although no count of providers or rows is ever written.

  Text is a sequence of octets held as characters.
 */
module EvidenceDigest {
  import opened Base
  import opened Order

  datatype Status =
    | Off
    | NotApplicable
    | Available
    | Unavailable
    | PermissionDenied
    | NoMatch
    | Invalid
    | UntrustedProxy
  datatype Assurance = CryptographicPeer | LocalDaemon | ConfiguredProxy
  datatype SubjectKind = User | TaggedNode | Workload | Endpoint | Unknown
  datatype Stability = Stable | Login | NoStability

  /** `attributes` and `capabilities` are the canonical JSON texts of the two objects. */
  datatype Identity = Identity(
    provider: string,
    issuer: string,
    subjectKey: Option<string>,
    assurance: Assurance,
    evidenceSource: string,
    transport: string,
    subjectKind: SubjectKind,
    stability: Stability,
    verified: bool,
    capabilitiesVerified: bool,
    attributes: string,
    capabilities: string)

  datatype Evidence = Evidence(statuses: map<string, Status>, identities: seq<Identity>)

  datatype Auth = Auth(domain: string, principal: Option<string>)

  function StatusText(s: Status): string {
    match s
    case Off => "off"
    case NotApplicable => "not_applicable"
    case Available => "available"
    case Unavailable => "unavailable"
    case PermissionDenied => "permission_denied"
    case NoMatch => "no_match"
    case Invalid => "invalid"
    case UntrustedProxy => "untrusted_proxy"
  }

  function AssuranceText(a: Assurance): string {
    match a
    case CryptographicPeer => "cryptographic_peer"
    case LocalDaemon => "local_daemon"
    case ConfiguredProxy => "configured_proxy"
  }

  function KindText(k: SubjectKind): string {
    match k
    case User => "user"
    case TaggedNode => "tagged_node"
    case Workload => "workload"
    case Endpoint => "endpoint"
    case Unknown => "unknown"
  }

  function StabilityText(s: Stability): string {
    match s
    case Stable => "stable"
    case Login => "login"
    case NoStability => "none"
  }

  function Or(s: Option<string>): string {
    if s.Some? then s.value else ""
  }

  function Flag(b: bool): string {
    if b then "true" else "false"
  }

  /** The words of the format, which every peer that computes the digest must spell alike. */
  lemma Spellings()
    ensures [StatusText(Off), StatusText(NotApplicable), StatusText(Available), StatusText(Unavailable),
             StatusText(PermissionDenied), StatusText(NoMatch), StatusText(Invalid), StatusText(UntrustedProxy)]
         == ["off", "not_applicable", "available", "unavailable",
             "permission_denied", "no_match", "invalid", "untrusted_proxy"]
    ensures [AssuranceText(CryptographicPeer), AssuranceText(LocalDaemon), AssuranceText(ConfiguredProxy)]
         == ["cryptographic_peer", "local_daemon", "configured_proxy"]
    ensures [KindText(User), KindText(TaggedNode), KindText(Workload), KindText(Endpoint), KindText(Unknown)]
         == ["user", "tagged_node", "workload", "endpoint", "unknown"]
    ensures [StabilityText(Stable), StabilityText(Login), StabilityText(NoStability)] == ["stable", "login", "none"]
    ensures [Flag(true), Flag(false)] == ["true", "false"]
  {
  }

  type Row = seq<string>

  function RowOf(i: Identity): Row {
    [i.provider, i.issuer, Or(i.subjectKey), AssuranceText(i.assurance), i.evidenceSource, i.transport,
     KindText(i.subjectKind), StabilityText(i.stability), Flag(i.verified), Flag(i.capabilitiesVerified),
     "", "", i.attributes, i.capabilities]
  }

  function StatusOf(e: Evidence, provider: string): Status {
    if provider in e.statuses then e.statuses[provider] else Off
  }

  /** The rows of one provider in the order its identities were collected. */
  function RowsOf(ids: seq<Identity>, provider: string): seq<Row> {
    if ids == [] then []
    else (if ids[0].provider == provider then [RowOf(ids[0])] else []) + RowsOf(ids[1..], provider)
  }

  function Concat<T>(parts: seq<seq<T>>): seq<T> {
    if parts == [] then [] else parts[0] + Concat(parts[1..])
  }

  datatype Section = Section(provider: string, status: Status, rows: seq<Row>)

  function SectionFields(s: Section): seq<string> {
    [s.provider, StatusText(s.status)] + Concat(s.rows)
  }

  function SectionOf(e: Evidence, provider: string): Section {
    Section(provider, StatusOf(e, provider), Sort(RowLess(), RowsOf(e.identities, provider)))
  }

  function Sections(e: Evidence, selected: seq<string>): seq<Section> {
    if selected == [] then [] else [SectionOf(e, selected[0])] + Sections(e, selected[1..])
  }

  function AllFields(sections: seq<Section>): seq<string> {
    if sections == [] then [] else SectionFields(sections[0]) + AllFields(sections[1..])
  }

  function AuthFields(auth: Option<Auth>): seq<string> {
    if auth.None? then [] else ["application_auth", auth.value.domain, Or(auth.value.principal)]
  }

  /** Everything fed to the hash, field by field. */
  function Fields(e: Evidence, providers: seq<string>, auth: Option<Auth>): seq<string> {
    AllFields(Sections(e, Selected(StringLess(), providers))) + AuthFields(auth)
  }

  /** `n` in `k` octets, most significant first. */
  function BigEndian(n: nat, k: nat): string {
    if k == 0 then "" else BigEndian(n / 256, k - 1) + [(n % 256) as char]
  }

  function Framed(field: string): string {
    BigEndian(|field|, 8) + field
  }

  function Frame(fields: seq<string>): string {
    if fields == [] then "" else Framed(fields[0]) + Frame(fields[1..])
  }

  /** The bytes hashed by `binding_digest`. */
  function Preimage(e: Evidence, providers: seq<string>, auth: Option<Auth>): string {
    Frame(Fields(e, providers, auth))
  }

  /** Every text in the evidence fits a 64-bit length, as any text in memory does. */
  ghost predicate Fits(fields: seq<string>) {
    forall f <- fields :: |f| < TWO_64
  }

  // ---- The loops that feed the hash ------------------------------------------------------------

  /** `add_field`: the length octets are filled in from the last, then the field follows. */
  method AddField(fed: string, field: string) returns (r: string)
    requires |field| < TWO_64
    ensures r == fed + Framed(field)
  {
    var length := new char[8](_ => '\0');
    var size: nat := |field|;
    var left: nat := 8;
    while left > 0
      invariant 0 <= left <= 8
      invariant BigEndian(size, left) + length[left..] == BigEndian(|field|, 8)
    {
      ghost var done := length[left..];
      left := left - 1;
      length[left] := (size % 256) as char;
      assert length[left..] == [(size % 256) as char] + done;
      Carry(size, left, done);
      size := size / 256;
    }
    assert length[0..] == length[..];
    r := fed + length[..] + field;
  }

  lemma Carry(n: nat, k: nat, tail: string)
    ensures BigEndian(n, k + 1) + tail == BigEndian(n / 256, k) + ([(n % 256) as char] + tail)
  {
  }

  method AddFields(fed: string, fields: seq<string>) returns (r: string)
    requires Fits(fields)
    ensures r == fed + Frame(fields)
  {
    hide Framed;
    r := fed;
    var i := 0;
    assert fields[0..] == fields;
    while i < |fields|
      invariant 0 <= i <= |fields|
      invariant r + Frame(fields[i..]) == fed + Frame(fields)
    {
      var rest := fields[i + 1..];
      assert fields[i..][1..] == rest;
      Assoc(r, Framed(fields[i]), Frame(rest));
      r := AddField(r, fields[i]);
      i := i + 1;
    }
  }

  lemma {:induction false} FrameAppend(a: seq<string>, b: seq<string>)
    ensures Frame(a + b) == Frame(a) + Frame(b)
  {
    hide Framed;
    if a == [] {
      assert a + b == b;
    } else {
      FrameAppend(a[1..], b);
      var ab := a + b;
      assert ab[0] == a[0] && ab[1..] == a[1..] + b;
      Assoc(Framed(a[0]), Frame(a[1..]), Frame(b));
    }
  }

  lemma FitsParts(a: seq<string>, b: seq<string>)
    ensures Fits(a + b) <==> Fits(a) && Fits(b)
  {
    assert forall f <- a :: f in a + b;
    assert forall f <- b :: f in a + b;
  }

  method BindingPreimage(e: Evidence, providers: seq<string>, auth: Option<Auth>) returns (fed: string)
    requires Fits(Fields(e, providers, auth))
    ensures fed == Preimage(e, providers, auth)
  {
    hide Frame, Fits, SectionFields, SectionOf, AuthFields;
    var selected := Selected(StringLess(), providers);
    ghost var all := AllFields(Sections(e, selected));
    FrameAppend(all, AuthFields(auth));
    FitsParts(all, AuthFields(auth));
    FrameNothing();
    fed := "";
    var i := 0;
    while i < |selected|
      invariant 0 <= i <= |selected|
      invariant Fits(AllFields(Sections(e, selected[i..])))
      invariant fed + Frame(AllFields(Sections(e, selected[i..]))) == Frame(all)
    {
      ghost var rest := AllFields(Sections(e, selected[i + 1..]));
      assert selected[i..][1..] == selected[i + 1..];
      var fields := SectionFields(SectionOf(e, selected[i]));
      FrameAppend(fields, rest);
      FitsParts(fields, rest);
      Assoc(fed, Frame(fields), Frame(rest));
      fed := AddFields(fed, fields);
      i := i + 1;
    }
    fed := AddFields(fed, AuthFields(auth));
  }

  lemma FrameNothing()
    ensures Frame([]) == "" && AllFields([]) == [] && Fits([])
  {
  }

  // ---- The bytes determine the fields ------------------------------------------------------------

  function Power(k: nat): (p: nat)
    ensures p > 0
  {
    if k == 0 then 1 else 256 * Power(k - 1)
  }

  function FromBigEndian(s: string): nat {
    if s == "" then 0 else 256 * FromBigEndian(s[..|s| - 1]) + s[|s| - 1] as int
  }

  lemma {:induction false} BigEndianReads(n: nat, k: nat)
    requires n < Power(k)
    ensures |BigEndian(n, k)| == k && FromBigEndian(BigEndian(n, k)) == n
  {
    if k > 0 {
      BigEndianReads(n / 256, k - 1);
      assert BigEndian(n, k)[..k - 1] == BigEndian(n / 256, k - 1);
    }
  }

  lemma FramedLength(field: string)
    requires |field| < TWO_64
    ensures |Framed(field)| == 8 + |field| && FromBigEndian(Framed(field)[..8]) == |field|
  {
    assert Power(8) == TWO_64 by {
      assert Power(4) == 0x1_0000_0000;
    }
    BigEndianReads(|field|, 8);
    assert Framed(field)[..8] == BigEndian(|field|, 8);
  }

  /** Framing is uniquely decodable: equal bytes, equal fields. */
  lemma {:induction false} FrameInjective(a: seq<string>, b: seq<string>)
    requires Fits(a) && Fits(b) && Frame(a) == Frame(b)
    ensures a == b
  {
    hide Framed, FromBigEndian, BigEndian;
    if a != [] {
      FramedLength(a[0]);
    }
    if b != [] {
      FramedLength(b[0]);
    }
    if a != [] && b != [] {
      SplitEqual(a[0], Frame(a[1..]), b[0], Frame(b[1..]));
      FrameInjective(a[1..], b[1..]);
      assert a == [a[0]] + a[1..] && b == [b[0]] + b[1..];
    }
  }

  lemma SplitEqual(f: string, x: string, g: string, y: string)
    requires |f| < TWO_64 && |g| < TWO_64 && Framed(f) + x == Framed(g) + y
    ensures f == g && x == y
  {
    hide FromBigEndian;
    FramedLength(f);
    FramedLength(g);
    var w := Framed(f) + x;
    assert w[..8] == Framed(f)[..8] && w[..8] == Framed(g)[..8];
    assert Framed(f) == w[..8 + |f|] && Framed(g) == w[..8 + |f|];
    assert x == w[8 + |f|..] && y == w[8 + |f|..];
    assert f == Framed(f)[8..] && g == Framed(g)[8..] by {
      assert |BigEndian(|f|, 8)| == |BigEndian(|g|, 8)| == 8 by {
        hide Framed;
        BigEndianLength(|f|, 8);
        BigEndianLength(|g|, 8);
      }
    }
  }

  lemma {:induction false} BigEndianLength(n: nat, k: nat)
    ensures |BigEndian(n, k)| == k
  {
    if k > 0 {
      BigEndianLength(n / 256, k - 1);
    }
  }

  // ---- The fields determine the sections ---------------------------------------------------------

  lemma StatusTextInjective(a: Status, b: Status)
    requires StatusText(a) == StatusText(b)
    ensures a == b
  {
    assert |StatusText(a)| == |StatusText(b)|;
  }

  /** Rows are fourteen fields, the first of them their provider. */
  ghost predicate RowsFor(rows: seq<Row>, provider: string) {
    forall r <- rows :: |r| == 14 && r[0] == provider
  }

  /** What follows a section: nothing, or a section of another provider. */
  ghost predicate NotOf(fields: seq<string>, provider: string) {
    fields == [] || fields[0] != provider
  }

  lemma SplitAt<T>(a: seq<T>, x: seq<T>, b: seq<T>, y: seq<T>)
    requires |a| == |b| && a + x == b + y
    ensures a == b && x == y
  {
    var w := a + x;
    assert a == w[..|a|] && b == w[..|a|] && x == w[|a|..] && y == w[|a|..];
  }

  lemma ConcatHead(rows: seq<Row>, x: seq<string>)
    requires rows != []
    ensures Concat(rows) + x == rows[0] + (Concat(rows[1..]) + x)
  {
  }

  lemma {:induction false} RowsSplit(a: seq<Row>, b: seq<Row>, provider: string, x: seq<string>, y: seq<string>)
    requires RowsFor(a, provider) && RowsFor(b, provider) && NotOf(x, provider) && NotOf(y, provider)
    requires Concat(a) + x == Concat(b) + y
    ensures a == b && x == y
  {
    hide Concat;
    ConcatNothing(x);
    ConcatNothing(y);
    if a != [] {
      ConcatHead(a, x);
      assert (Concat(a) + x)[0] == a[0][0];
    }
    if b != [] {
      ConcatHead(b, y);
      assert (Concat(b) + y)[0] == b[0][0];
    }
    if a != [] && b != [] {
      SplitAt(a[0], Concat(a[1..]) + x, b[0], Concat(b[1..]) + y);
      RowsSplit(a[1..], b[1..], provider, x, y);
      assert a == [a[0]] + a[1..] && b == [b[0]] + b[1..];
    }
  }

  lemma ConcatNothing(x: seq<string>)
    ensures Concat<string>([]) + x == x
  {
  }

  ghost predicate WellFormed(sections: seq<Section>) {
    && (forall s <- sections :: RowsFor(s.rows, s.provider))
    && (forall i | 0 <= i < |sections| - 1 :: sections[i].provider != sections[i + 1].provider)
  }

  lemma SectionHead(s: seq<Section>)
    requires s != []
    ensures AllFields(s) == [s[0].provider, StatusText(s[0].status)] + (Concat(s[0].rows) + AllFields(s[1..]))
  {
    hide Concat, StatusText;
  }

  lemma {:induction false} SectionsSplit(a: seq<Section>, b: seq<Section>)
    requires WellFormed(a) && WellFormed(b) && AllFields(a) == AllFields(b)
    ensures a == b
  {
    hide AllFields, Concat, StatusText, NotOf;
    NoSections();
    if a != [] {
      SectionHead(a);
      RestNotOf(a);
    }
    if b != [] {
      SectionHead(b);
      RestNotOf(b);
    }
    if a != [] && b != [] {
      var h, k := [a[0].provider, StatusText(a[0].status)], [b[0].provider, StatusText(b[0].status)];
      SplitAt(h, Concat(a[0].rows) + AllFields(a[1..]), k, Concat(b[0].rows) + AllFields(b[1..]));
      assert h[0] == k[0] && h[1] == k[1];
      StatusTextInjective(a[0].status, b[0].status);
      RowsSplit(a[0].rows, b[0].rows, a[0].provider, AllFields(a[1..]), AllFields(b[1..]));
      SectionsSplit(a[1..], b[1..]);
      assert a == [a[0]] + a[1..] && b == [b[0]] + b[1..];
    }
  }

  lemma NoSections()
    ensures AllFields([]) == []
  {
  }

  lemma RestNotOf(s: seq<Section>)
    requires WellFormed(s) && s != []
    ensures NotOf(AllFields(s[1..]), s[0].provider) && WellFormed(s[1..])
  {
  }

  lemma {:induction false} AllFieldsEven(sections: seq<Section>)
    requires forall s <- sections :: RowsFor(s.rows, s.provider)
    ensures |AllFields(sections)| % 2 == 0
  {
    hide SectionFields, RowsFor;
    if sections != [] {
      SectionEven(sections[0]);
      AllFieldsEven(sections[1..]);
    }
  }

  lemma SectionEven(s: Section)
    requires RowsFor(s.rows, s.provider)
    ensures |SectionFields(s)| % 2 == 0
  {
    hide Concat, StatusText;
    ConcatEven(s.rows, s.provider);
  }

  lemma {:induction false} ConcatEven(rows: seq<Row>, provider: string)
    requires RowsFor(rows, provider)
    ensures |Concat(rows)| % 2 == 0
  {
    if rows != [] {
      ConcatEven(rows[1..], provider);
    }
  }

  /** Application auth is told by parity: without it the number of fields is even, with it odd. */
  lemma AuthSplit(a: seq<Section>, b: seq<Section>, f: Option<Auth>, g: Option<Auth>)
    requires WellFormed(a) && WellFormed(b)
    requires AllFields(a) + AuthFields(f) == AllFields(b) + AuthFields(g)
    ensures AllFields(a) == AllFields(b) && AuthFields(f) == AuthFields(g)
  {
    hide AllFields, RowsFor, AuthFields;
    AllFieldsEven(a);
    AllFieldsEven(b);
    AuthCount(f);
    AuthCount(g);
    var n, m := |AllFields(a)|, |AllFields(b)|;
    assert n + |AuthFields(f)| == m + |AuthFields(g)| by {
      assert |AllFields(a) + AuthFields(f)| == |AllFields(b) + AuthFields(g)|;
    }
    SplitAt(AllFields(a), AuthFields(f), AllFields(b), AuthFields(g));
  }

  lemma AuthCount(auth: Option<Auth>)
    ensures |AuthFields(auth)| == if auth.Some? then 3 else 0
  {
  }

  // ---- What is bound ---------------------------------------------------------------------------------

  lemma {:induction false} RowsOfAreFor(ids: seq<Identity>, provider: string)
    ensures RowsFor(RowsOf(ids, provider), provider)
  {
    if ids != [] {
      RowsOfAreFor(ids[1..], provider);
    }
  }

  lemma SectionOfFor(e: Evidence, provider: string)
    ensures RowsFor(SectionOf(e, provider).rows, provider)
    ensures multiset(SectionOf(e, provider).rows) == multiset(RowsOf(e.identities, provider))
  {
    hide RowOf;
    var rows := RowsOf(e.identities, provider);
    RowsOfAreFor(e.identities, provider);
    OrdersAreTotal();
    SortSorts(RowLess(), rows);
    assert forall r <- SectionOf(e, provider).rows :: r in multiset(rows);
  }

  lemma {:induction false} SectionsAt(e: Evidence, selected: seq<string>)
    ensures |Sections(e, selected)| == |selected|
    ensures forall i | 0 <= i < |selected| :: Sections(e, selected)[i] == SectionOf(e, selected[i])
  {
    if selected != [] {
      SectionsAt(e, selected[1..]);
    }
  }

  lemma SectionsWellFormed(e: Evidence, providers: seq<string>)
    ensures WellFormed(Sections(e, Selected(StringLess(), providers)))
  {
    hide RowOf, SectionOf, LexLess;
    var selected := Selected(StringLess(), providers);
    OrdersAreTotal();
    SelectedSelects(StringLess(), providers);
    SectionsAt(e, selected);
    forall i | 0 <= i < |selected| ensures RowsFor(SectionOf(e, selected[i]).rows, SectionOf(e, selected[i]).provider) {
      SectionOfFor(e, selected[i]);
      SectionProvider(e, selected[i]);
    }
    forall i | 0 <= i < |selected| - 1
      ensures SectionOf(e, selected[i]).provider != SectionOf(e, selected[i + 1]).provider
    {
      SectionProvider(e, selected[i]);
      SectionProvider(e, selected[i + 1]);
    }
  }

  lemma SectionProvider(e: Evidence, provider: string)
    ensures SectionOf(e, provider).provider == provider && SectionOf(e, provider).status == StatusOf(e, provider)
  {
  }

  ghost predicate SameProviders(p: seq<string>, q: seq<string>) {
    forall name :: name in p <==> name in q
  }

  /** The same status and the same rows, in any order, for every selected provider. */
  ghost predicate SameEvidence(e: Evidence, f: Evidence, providers: seq<string>) {
    forall p <- providers ::
      StatusOf(e, p) == StatusOf(f, p) && multiset(RowsOf(e.identities, p)) == multiset(RowsOf(f.identities, p))
  }

  /** Two digests with and without application auth never agree; an absent principal is bound as an empty one. */
  ghost predicate SameAuth(a: Option<Auth>, b: Option<Auth>) {
    && a.Some? == b.Some?
    && (a.Some? ==> a.value.domain == b.value.domain && Or(a.value.principal) == Or(b.value.principal))
  }

  lemma SectionEqual(e: Evidence, f: Evidence, provider: string)
    ensures SectionOf(e, provider) == SectionOf(f, provider) <==> SameEvidence(e, f, [provider])
  {
    hide RowOf, LexLess;
    var a, b := RowsOf(e.identities, provider), RowsOf(f.identities, provider);
    OrdersAreTotal();
    SortSorts(RowLess(), a);
    SortSorts(RowLess(), b);
    if multiset(a) == multiset(b) {
      AscendingUnique(RowLess(), Sort(RowLess(), a), Sort(RowLess(), b));
    }
    assert SameEvidence(e, f, [provider]) <==>
        StatusOf(e, provider) == StatusOf(f, provider) && multiset(a) == multiset(b) by {
      assert provider in [provider];
    }
  }

  /**
    The preimage is uniquely decodable and order-free: two preimages are equal exactly when they
    select the same providers, with the same statuses and the same rows, and bind the same auth.
   */
  lemma PreimageBinds(e: Evidence, p: seq<string>, a: Option<Auth>, f: Evidence, q: seq<string>, b: Option<Auth>)
    requires Fits(Fields(e, p, a)) && Fits(Fields(f, q, b))
    ensures Preimage(e, p, a) == Preimage(f, q, b) <==> SameProviders(p, q) && SameEvidence(e, f, p) && SameAuth(a, b)
  {
    hide Frame, Fits, AllFields, LexLess, SameEvidence, SectionOf;
    var x, y := Selected(StringLess(), p), Selected(StringLess(), q);
    SectionsWellFormed(e, p);
    SectionsWellFormed(f, q);
    SectionsAt(e, x);
    SectionsAt(f, y);
    OrdersAreTotal();
    SelectedSelects(StringLess(), p);
    SelectedSelects(StringLess(), q);
    if Preimage(e, p, a) == Preimage(f, q, b) {
      FrameInjective(Fields(e, p, a), Fields(f, q, b));
      AuthSplit(Sections(e, x), Sections(f, y), a, b);
      SectionsSplit(Sections(e, x), Sections(f, y));
      forall i | 0 <= i < |x| ensures x[i] == y[i] {
        SectionProvider(e, x[i]);
        SectionProvider(f, y[i]);
      }
      assert x == y;
      SectionsAgree(e, f, x);
      EvidenceOver(e, f, x, p);
    }
    if SameProviders(p, q) && SameEvidence(e, f, p) && SameAuth(a, b) {
      StrictlyAscendingUnique(StringLess(), x, y);
      EvidenceOver(e, f, p, x);
      SectionsAgree(e, f, x);
    }
  }

  lemma EvidenceOver(e: Evidence, f: Evidence, p: seq<string>, q: seq<string>)
    requires SameEvidence(e, f, p) && forall name :: name in p <==> name in q
    ensures SameEvidence(e, f, q)
  {
  }

  lemma {:induction false} SectionsAgree(e: Evidence, f: Evidence, selected: seq<string>)
    ensures Sections(e, selected) == Sections(f, selected) <==> SameEvidence(e, f, selected)
  {
    hide SectionOf;
    if selected != [] {
      SectionEqual(e, f, selected[0]);
      SectionsAgree(e, f, selected[1..]);
      SameEvidenceSplits(e, f, selected);
      var a, b := Sections(e, selected), Sections(f, selected);
      assert a[1..] == Sections(e, selected[1..]) && b[1..] == Sections(f, selected[1..]);
    }
  }

  lemma SameEvidenceSplits(e: Evidence, f: Evidence, selected: seq<string>)
    requires selected != []
    ensures SameEvidence(e, f, selected) <==> SameEvidence(e, f, [selected[0]]) && SameEvidence(e, f, selected[1..])
  {
  }

  /** A row tells everything about an identity but an absent subject key from an empty one, and its addresses. */
  lemma RowTells(i: Identity, j: Identity)
    ensures RowOf(i) == RowOf(j) <==>
              i.(subjectKey := Some(Or(i.subjectKey))) == j.(subjectKey := Some(Or(j.subjectKey)))
  {
  }

  // ---- Order-freeness of the evidence itself ------------------------------------------------------------

  /** Reordering the identities leaves every provider's rows the same, up to order. */
  lemma {:induction false} RowsReordered(a: seq<Identity>, b: seq<Identity>, provider: string)
    requires multiset(a) == multiset(b)
    ensures multiset(RowsOf(a, provider)) == multiset(RowsOf(b, provider))
  {
    hide RowOf, RowsOf;
    if a == [] {
      assert |multiset(b)| == 0;
      assert b == [];
    } else {
      var k := Occurrence(a, b);
      var x, y := b[..k], b[k + 1..];
      RowsReordered(a[1..], x + y, provider);
      RowsWithout(a, [], a[1..], provider);
      assert [] + a[1..] == a[1..];
      RowsWithout(b, x, y, provider);
      assert multiset(RowsOf([a[0]], provider)) + multiset(RowsOf(a[1..], provider))
          == multiset(RowsOf([b[k]], provider)) + multiset(RowsOf(x + y, provider));
    }
  }

  /** The first identity's place in a reordering, and that the rests are reorderings too. */
  lemma Occurrence<T>(a: seq<T>, b: seq<T>) returns (k: nat)
    requires a != [] && multiset(a) == multiset(b)
    ensures k < |b| && b[k] == a[0] && multiset(a[1..]) == multiset(b[..k] + b[k + 1..])
  {
    k := IndexIn(a[0], a, b);
    MultisetWithout(a, 0);
    MultisetWithout(b, k);
    assert a[..0] + a[1..] == a[1..];
  }

  lemma IndexIn<T>(x: T, a: seq<T>, b: seq<T>) returns (k: nat)
    requires x in a && multiset(a) == multiset(b)
    ensures k < |b| && b[k] == x
  {
    assert x in multiset(a);
    k :| k < |b| && b[k] == x;
  }

  lemma MultisetWithout<T>(a: seq<T>, k: nat)
    requires k < |a|
    ensures multiset(a[..k] + a[k + 1..]) == multiset(a) - multiset{a[k]}
  {
    assert a == a[..k] + ([a[k]] + a[k + 1..]);
  }

  lemma RowsWithout(ids: seq<Identity>, x: seq<Identity>, y: seq<Identity>, provider: string)
    requires |ids| == |x| + 1 + |y| && ids == x + ([ids[|x|]] + y)
    ensures multiset(RowsOf(ids, provider))
         == multiset(RowsOf([ids[|x|]], provider)) + multiset(RowsOf(x + y, provider))
  {
    hide RowsOf;
    RowsOfAppend(x, [ids[|x|]] + y, provider);
    RowsOfAppend([ids[|x|]], y, provider);
    RowsOfAppend(x, y, provider);
  }

  lemma {:induction false} RowsOfAppend(a: seq<Identity>, b: seq<Identity>, provider: string)
    ensures RowsOf(a + b, provider) == RowsOf(a, provider) + RowsOf(b, provider)
  {
    hide RowOf;
    if a == [] {
      assert a + b == b;
    } else {
      RowsOfAppend(a[1..], b, provider);
      var ab := a + b;
      assert ab[0] == a[0] && ab[1..] == a[1..] + b;
      Assoc(if a[0].provider == provider then [RowOf(a[0])] else [], RowsOf(a[1..], provider), RowsOf(b, provider));
    }
  }

  /** Permuting or repeating the provider list, or reordering the identities, leaves the preimage as it was. */
  lemma OrderFree(e: Evidence, f: Evidence, p: seq<string>, q: seq<string>, auth: Option<Auth>)
    requires Fits(Fields(e, p, auth)) && Fits(Fields(f, q, auth))
    requires e.statuses == f.statuses && multiset(e.identities) == multiset(f.identities) && SameProviders(p, q)
    ensures Preimage(e, p, auth) == Preimage(f, q, auth)
  {
    hide Preimage, Fits, Fields, RowsOf;
    forall name | name in p ensures multiset(RowsOf(e.identities, name)) == multiset(RowsOf(f.identities, name)) {
      RowsReordered(e.identities, f.identities, name);
    }
    PreimageBinds(e, p, auth, f, q, auth);
  }
}
