/**
  External URLs: the parser, the printer, path normalization and redirects within an origin.

  A URL is a sequence of octets held as characters.  Putting an IPv6 literal into its canonical
  spelling is the operating system's business and enters as a function.
 */
module ExternalUrl {
  import opened Base

  datatype Url = Url(scheme: string, host: string, port: nat, explicitPort: bool, ipv6: bool, pathAndQuery: string)

  /** `None` for what is not an IPv6 address. */
  type Canon = string -> Option<string>

  predicate HexColonDot(c: char) {
    '0' <= c <= '9' || 'a' <= c <= 'f' || c == ':' || c == '.'
  }

  /** A canonical spelling is its own canonical spelling, in lower-case hex, colons and dots. */
  ghost predicate Lawful(canon: Canon) {
    forall h | canon(h).Some? ::
      canon(h).value != "" && canon(canon(h).value) == canon(h) && forall c <- canon(h).value :: HexColonDot(c)
  }

  predicate Forbidden(c: char) {
    c as int <= 0x20 || c as int == 0x7f || c == '\\'
  }

  /** No forbidden character and no fragment. */
  predicate CleanText(s: string) {
    forall c <- s :: !Forbidden(c) && c != '#'
  }

  predicate Digit(c: char) {
    '0' <= c <= '9'
  }

  predicate HostChar(c: char) {
    Digit(c) || 'a' <= c <= 'z' || 'A' <= c <= 'Z' || c == '-' || c == '.'
  }

  // ---- Searching ------------------------------------------------------------------------------------

  /** The first position of a character, or the length. */
  function Find(s: string, c: char): (i: nat)
    ensures i <= |s| && (forall k | 0 <= k < i :: s[k] != c) && (i < |s| ==> s[i] == c)
  {
    if s == "" || s[0] == c then 0 else 1 + Find(s[1..], c)
  }

  predicate EndsAuthority(c: char) {
    c == '/' || c == '?'
  }

  function AuthorityEnd(s: string): (i: nat)
    ensures i <= |s| && (forall k | 0 <= k < i :: !EndsAuthority(s[k])) && (i < |s| ==> EndsAuthority(s[i]))
  {
    if s == "" || EndsAuthority(s[0]) then 0 else 1 + AuthorityEnd(s[1..])
  }

  /** The first position of the scheme separator, or nothing. */
  function SchemeEnd(s: string): (i: Option<nat>)
    ensures i.Some? ==> i.value + 3 <= |s|
  {
    if |s| < 3 then None
    else if s[0] == ':' && s[1] == '/' && s[2] == '/' then Some(0)
    else
      var rest := SchemeEnd(s[1..]);
      if rest.None? then None else Some(1 + rest.value)
  }

  // ---- Numbers ----------------------------------------------------------------------------------------

  function Decimal(n: nat): string {
    if n < 10 then [n as char + '0'] else Decimal(n / 10) + [(n % 10) as char + '0']
  }

  function FromDecimal(s: string): nat
    requires forall c <- s :: Digit(c)
  {
    if s == "" then 0 else assert Digit(s[|s| - 1]); 10 * FromDecimal(s[..|s| - 1]) + (s[|s| - 1] as int - '0' as int)
  }

  function ParsePort(s: string): Option<nat> {
    if s == "" || exists c <- s :: !Digit(c) then None
    else if 1 <= FromDecimal(s) <= 65535 then Some(FromDecimal(s))
    else None
  }

  lemma {:induction false} DecimalReads(n: nat)
    ensures Decimal(n) != "" && (forall c <- Decimal(n) :: Digit(c)) && FromDecimal(Decimal(n)) == n
  {
    if n >= 10 {
      DecimalReads(n / 10);
      assert Decimal(n)[..|Decimal(n)| - 1] == Decimal(n / 10);
    } else {
      assert Decimal(n)[..0] == "";
    }
  }

  // ---- Printing --------------------------------------------------------------------------------------

  function DefaultPort(scheme: string): nat {
    if scheme == "https" then 443 else 80
  }

  function Authority(u: Url): string {
    (if u.ipv6 then ['['] + (u.host + [']']) else u.host)
    + if u.explicitPort || u.port != DefaultPort(u.scheme) then [':'] + Decimal(u.port) else ""
  }

  function Origin(u: Url): string {
    u.scheme + ("://" + Authority(u))
  }

  function Full(u: Url): string {
    Origin(u) + u.pathAndQuery
  }

  // ---- Parsing ---------------------------------------------------------------------------------------

  function StripDots(host: string): string {
    if host != "" && host[|host| - 1] == '.' then StripDots(host[..|host| - 1]) else host
  }

  predicate DoubleDot(host: string) {
    exists i | 0 <= i < |host| - 1 :: host[i] == '.' && host[i + 1] == '.'
  }

  predicate ValidName(host: string) {
    && 0 < |host| <= 253 && host[0] != '.' && host[|host| - 1] != '.' && !DoubleDot(host)
    && forall c <- host :: HostChar(c)
  }

  /** Host text, port text if there is a colon for one, and whether the host was bracketed. */
  datatype Split = Split(host: string, port: Option<string>, ipv6: bool)

  function SplitAuthority(authority: string): Option<Split>
    requires authority != ""
  {
    if authority[0] == '[' then
      var close := Find(authority, ']');
      if close == |authority| || close == 1 then None
      else if close + 1 == |authority| then Some(Split(authority[1..close], None, true))
      else if authority[close + 1] != ':' then None
      else Some(Split(authority[1..close], Some(authority[close + 2..]), true))
    else
      var colon := Find(authority, ':');
      if colon == |authority| then Some(Split(authority, None, false))
      else if ':' in authority[colon + 1..] then None
      else Some(Split(authority[..colon], Some(authority[colon + 1..]), false))
  }

  function ParseHost(canon: Canon, text: string, ipv6: bool): Option<string> {
    var lowered := Lower(text);
    if ipv6 then
      if '%' in lowered then None else canon(lowered)
    else
      var host := StripDots(lowered);
      if ValidName(host) then Some(host) else None
  }

  function ParseAuthority(canon: Canon, scheme: string, authority: string): Option<Url> {
    if authority == "" || '@' in authority then None
    else
      var split := SplitAuthority(authority);
      if split.None? then None
      else
        var host := ParseHost(canon, split.value.host, split.value.ipv6);
        if host.None? then None
        else if split.value.port.None? then
          Some(Url(scheme, host.value, DefaultPort(scheme), false, split.value.ipv6, "/"))
        else
          var port := ParsePort(split.value.port.value);
          if port.None? then None else Some(Url(scheme, host.value, port.value, true, split.value.ipv6, "/"))
  }

  function PathOf(rest: string): string {
    if rest == "" then "/" else if rest[0] == '?' then "/" + rest else rest
  }

  function Parse(canon: Canon, url: string): Option<Url> {
    if url == "" || !CleanText(url) || SchemeEnd(url).None? then None
    else
      var at := SchemeEnd(url).value;
      var scheme := Lower(url[..at]);
      if scheme != "https" && scheme != "http" then None
      else
        var after := url[at + 3..];
        var end := AuthorityEnd(after);
        var parsed := ParseAuthority(canon, scheme, after[..end]);
        if parsed.None? then None else Some(parsed.value.(pathAndQuery := PathOf(after[end..])))
  }

  // ---- What a parsed URL looks like --------------------------------------------------------------------

  predicate PathText(path: string) {
    path != "" && path[0] == '/' && CleanText(path)
  }

  ghost predicate Parsed(canon: Canon, u: Url) {
    && (u.scheme == "https" || u.scheme == "http")
    && (if u.ipv6 then canon(u.host) == Some(u.host) else ValidName(u.host) && Lower(u.host) == u.host)
    && 1 <= u.port <= 65535 && (u.explicitPort || u.port == DefaultPort(u.scheme))
    && PathText(u.pathAndQuery)
  }

  lemma {:induction false} LowerTwice(s: string)
    ensures Lower(Lower(s)) == Lower(s) && |Lower(s)| == |s|
  {
    if s != "" {
      LowerTwice(s[1..]);
      assert Lower(s)[1..] == Lower(s[1..]);
    }
  }

  lemma {:induction false} LowerTake(s: string, k: nat)
    requires k <= |s|
    ensures |Lower(s)| == |s| && Lower(s)[..k] == Lower(s[..k])
  {
    LowerTwice(s);
    if k > 0 {
      LowerTake(s[1..], k - 1);
      assert s[..k][1..] == s[1..][..k - 1];
      assert Lower(s)[..k] == [LowerChar(s[0])] + Lower(s[1..])[..k - 1];
    } else {
      assert s[..0] == "";
    }
  }

  lemma {:induction false} StripDotsTakes(host: string)
    ensures |StripDots(host)| <= |host| && StripDots(host) == host[..|StripDots(host)|]
  {
    if host != "" && host[|host| - 1] == '.' {
      StripDotsTakes(host[..|host| - 1]);
    } else {
      assert host[..|host|] == host;
    }
  }

  lemma ParseHostResult(canon: Canon, text: string, ipv6: bool)
    requires Lawful(canon) && ParseHost(canon, text, ipv6).Some?
    ensures var h := ParseHost(canon, text, ipv6).value;
      if ipv6 then canon(h) == Some(h) else ValidName(h) && Lower(h) == h
  {
    hide ValidName;
    if !ipv6 {
      var lowered := Lower(text);
      StripDotsTakes(lowered);
      LowerTwice(text);
      LowerTake(lowered, |StripDots(lowered)|);
    }
  }

  lemma AuthorityResult(canon: Canon, scheme: string, authority: string, path: string)
    requires Lawful(canon) && (scheme == "https" || scheme == "http") && PathText(path)
    ensures var u := ParseAuthority(canon, scheme, authority); u.Some? ==> Parsed(canon, u.value.(pathAndQuery := path))
  {
    hide ParseHost, SplitAuthority, ValidName, Lower, PathText;
    if authority != "" && SplitAuthority(authority).Some? {
      var split := SplitAuthority(authority).value;
      if ParseHost(canon, split.host, split.ipv6).Some? {
        ParseHostResult(canon, split.host, split.ipv6);
      }
    }
  }

  lemma ParseResult(canon: Canon, url: string)
    requires Lawful(canon) && Parse(canon, url).Some?
    ensures Parsed(canon, Parse(canon, url).value)
  {
    hide ParseAuthority, Parsed, PathText, CleanText, Lower;
    var at := SchemeEnd(url).value;
    var after := url[at + 3..];
    var end := AuthorityEnd(after);
    var rest := after[end..];
    PathOfRest(url, rest, |url| - |rest|);
    AuthorityResult(canon, Lower(url[..at]), after[..end], PathOf(rest));
  }

  lemma PathOfRest(url: string, rest: string, at: nat)
    requires CleanText(url) && at <= |url| && rest == url[at..] && (rest != "" ==> EndsAuthority(rest[0]))
    ensures PathText(PathOf(rest))
  {
    assert forall c <- rest :: c in url;
  }

  // ---- Printing and parsing -------------------------------------------------------------------------

  lemma {:induction false} SchemeFound(s: string, rest: string)
    requires ':' !in s
    ensures SchemeEnd(s + ("://" + rest)) == Some(|s|)
  {
    var u := s + ("://" + rest);
    if s == "" {
      assert u == "://" + rest;
    } else {
      assert u[1..] == s[1..] + ("://" + rest);
      SchemeFound(s[1..], rest);
    }
  }

  lemma {:induction false} AuthorityFound(a: string, path: string)
    requires (forall c <- a :: !EndsAuthority(c)) && (path == "" || EndsAuthority(path[0]))
    ensures AuthorityEnd(a + path) == |a|
  {
    if a == "" {
      assert a + path == path;
    } else {
      assert (a + path)[1..] == a[1..] + path;
      AuthorityFound(a[1..], path);
    }
  }

  lemma {:induction false} FindFound(a: string, c: char, rest: string)
    requires c !in a
    ensures Find(a + ([c] + rest), c) == |a| && Find(a, c) == |a|
  {
    if a == "" {
      assert a + ([c] + rest) == [c] + rest;
    } else {
      assert (a + ([c] + rest))[1..] == a[1..] + ([c] + rest);
      FindFound(a[1..], c, rest);
    }
  }

  lemma PortReads(port: nat)
    requires 1 <= port <= 65535
    ensures ParsePort(Decimal(port)) == Some(port)
  {
    DecimalReads(port);
  }

  function Suffix(port: Option<string>): string {
    if port.Some? then [':'] + port.value else ""
  }

  lemma SplitBracketed(host: string, port: Option<string>)
    requires host != "" && ']' !in host
    ensures var a := (['['] + (host + [']'])) + Suffix(port);
      a != "" && SplitAuthority(a) == Some(Split(host, port, true))
  {
    var a := (['['] + (host + [']'])) + Suffix(port);
    FindFound(['['] + host, ']', Suffix(port));
    hide Find;
    assert a == (['['] + host) + ([']'] + Suffix(port));
    assert a[1..|host| + 1] == host && a[|host| + 2..] == Suffix(port);
    assert port.Some? ==> a[|host| + 3..] == port.value;
  }

  lemma SplitNamed(host: string, port: Option<string>)
    requires host != "" && ':' !in host && host[0] != '[' && (port.Some? ==> ':' !in port.value)
    ensures var a := host + Suffix(port);
      a != "" && SplitAuthority(a) == Some(Split(host, port, false))
  {
    if port.Some? {
      SplitNamedPort(host, port.value);
    } else {
      FindFound(host, ':', "");
      hide Find;
      assert host + "" == host;
    }
  }

  lemma SplitNamedPort(host: string, port: string)
    requires host != "" && ':' !in host && host[0] != '[' && ':' !in port
    ensures var a := host + ([':'] + port);
      a != "" && SplitAuthority(a) == Some(Split(host, Some(port), false))
  {
    FindFound(host, ':', port);
    hide Find;
    var a := host + ([':'] + port);
    assert a[0] == host[0] && a[..|host|] == host && a[|host| + 1..] == port;
  }

  /** The printed authority splits into what it was printed from. */
  lemma AuthoritySplits(canon: Canon, u: Url)
    requires Lawful(canon) && Parsed(canon, u)
    ensures Authority(u) != ""
    ensures SplitAuthority(Authority(u))
         == Some(Split(u.host, if u.explicitPort then Some(Decimal(u.port)) else None, u.ipv6))
  {
    HostChars(canon, u);
    DecimalReads(u.port);
    hide Decimal, ValidName, CleanText, SplitAuthority, Lawful;
    var port := if u.explicitPort then Some(Decimal(u.port)) else None;
    assert Authority(u) == (if u.ipv6 then ['['] + (u.host + [']']) else u.host) + Suffix(port);
    if u.ipv6 {
      SplitBracketed(u.host, port);
    } else {
      SplitNamed(u.host, port);
    }
  }

  /** No host character means anything to the parser. */
  lemma HostChars(canon: Canon, u: Url)
    requires Lawful(canon) && Parsed(canon, u)
    ensures u.host != "" && ']' !in u.host && '@' !in u.host && '/' !in u.host && '?' !in u.host && '%' !in u.host
    ensures !u.ipv6 ==> ':' !in u.host && u.host[0] != '['
    ensures CleanText(u.host)
  {
    if u.ipv6 {
      assert canon(u.host).Some?;
    } else {
      assert u.host[0] in u.host;
    }
  }

  lemma {:induction false} LowerFixed(s: string)
    requires forall c <- s :: HexColonDot(c)
    ensures Lower(s) == s
  {
    if s != "" {
      assert s[0] in s && forall c <- s[1..] :: c in s;
      LowerFixed(s[1..]);
    }
  }

  lemma HostReads(canon: Canon, u: Url)
    requires Lawful(canon) && Parsed(canon, u)
    ensures ParseHost(canon, u.host, u.ipv6) == Some(u.host)
  {
    if u.ipv6 {
      assert canon(u.host).Some?;
      HostChars(canon, u);
      LowerFixed(u.host);
    }
  }

  lemma AuthorityReads(canon: Canon, u: Url)
    requires Lawful(canon) && Parsed(canon, u)
    ensures ParseAuthority(canon, u.scheme, Authority(u)) == Some(u.(pathAndQuery := "/"))
    ensures CleanText(Authority(u)) && forall c <- Authority(u) :: !EndsAuthority(c)
  {
    AuthoritySplits(canon, u);
    HostReads(canon, u);
    PortReads(u.port);
    AuthorityChars(canon, u);
    hide SplitAuthority, ParseHost, ParsePort, Authority, ValidName;
  }

  lemma AuthorityChars(canon: Canon, u: Url)
    requires Lawful(canon) && Parsed(canon, u)
    ensures CleanText(Authority(u)) && '@' !in Authority(u) && forall c <- Authority(u) :: !EndsAuthority(c)
  {
    HostChars(canon, u);
    DecimalReads(u.port);
    hide Decimal, ValidName;
    var digits := Decimal(u.port);
    forall c | c in Authority(u) ensures !Forbidden(c) && c != '#' && c != '@' && !EndsAuthority(c) {
      assert c in u.host || c in digits || c == '[' || c == ']' || c == ':';
    }
  }

  lemma CleanConcat(a: string, b: string)
    ensures CleanText(a + b) <==> CleanText(a) && CleanText(b)
  {
    assert forall c <- a :: c in a + b;
    assert forall c <- b :: c in a + b;
  }

  /** The scanner takes a printed URL apart at the seams it was printed with. */
  lemma PrintedSeams(scheme: string, authority: string, path: string)
    requires (scheme == "https" || scheme == "http") && PathText(path)
    requires CleanText(authority) && forall c <- authority :: !EndsAuthority(c)
    ensures var url := scheme + ("://" + authority) + path;
      && CleanText(url) && SchemeEnd(url) == Some(|scheme|) && Lower(url[..|scheme|]) == scheme
      && url[|scheme| + 3..] == authority + path
      && AuthorityEnd(authority + path) == |authority|
  {
    var after := authority + path;
    SchemeLower(scheme);
    SchemeFound(scheme, after);
    AuthorityFound(authority, path);
    SeparatorClean();
    hide Lower, SchemeEnd, AuthorityEnd, EndsAuthority;
    CleanConcat(authority, path);
    CleanConcat("://", after);
    CleanConcat(scheme, "://" + after);
    hide CleanText;
    Assoc(scheme, "://" + authority, path);
    Assoc("://", authority, path);
    Sliced(scheme, "://", after);
  }

  lemma SeparatorClean()
    ensures CleanText("://") && |"://"| == 3
  {
  }

  lemma Sliced(a: string, b: string, c: string)
    ensures (a + (b + c))[..|a|] == a && (a + (b + c))[|a| + |b|..] == c
  {
  }

  lemma ParseParts(canon: Canon, scheme: string, authority: string, path: string)
    requires (scheme == "https" || scheme == "http") && PathText(path)
    requires CleanText(authority) && forall c <- authority :: !EndsAuthority(c)
    ensures var parsed := ParseAuthority(canon, scheme, authority);
      Parse(canon, scheme + ("://" + authority) + path)
        == if parsed.None? then None else Some(parsed.value.(pathAndQuery := path))
  {
    PrintedSeams(scheme, authority, path);
    hide ParseAuthority, Lower, SchemeEnd, AuthorityEnd, CleanText, EndsAuthority;
    var after := authority + path;
    assert after[..|authority|] == authority && after[|authority|..] == path;
  }

  /** On any path, what an origin prints parses back to that origin and that path. */
  lemma PrintedParses(canon: Canon, u: Url, path: string)
    requires Lawful(canon) && Parsed(canon, u) && PathText(path)
    ensures Parse(canon, Origin(u) + path) == Some(u.(pathAndQuery := path))
  {
    AuthorityReads(canon, u);
    hide ParseAuthority, Authority, ValidName, Lower, CleanText, EndsAuthority, Parse, PathText;
    ParseParts(canon, u.scheme, Authority(u), path);
  }

  lemma SchemeLower(scheme: string)
    requires scheme == "https" || scheme == "http"
    ensures Lower(scheme) == scheme && ':' !in scheme && CleanText(scheme)
  {
    forall c | c in scheme ensures 'a' <= c <= 'z' {}
    LowerLetters(scheme);
  }

  lemma {:induction false} LowerLetters(s: string)
    requires forall c <- s :: 'a' <= c <= 'z'
    ensures Lower(s) == s
  {
    if s != "" {
      assert s[0] in s && forall c <- s[1..] :: c in s;
      LowerLetters(s[1..]);
    }
  }

  /** Parsing what was printed from a parsed URL changes nothing. */
  lemma ParseIsFixpoint(canon: Canon, url: string)
    requires Lawful(canon) && Parse(canon, url).Some?
    ensures Parse(canon, Full(Parse(canon, url).value)) == Parse(canon, url)
  {
    ParseResult(canon, url);
    hide Parse, Origin;
    var u := Parse(canon, url).value;
    PrintedParses(canon, u, u.pathAndQuery);
  }
}
