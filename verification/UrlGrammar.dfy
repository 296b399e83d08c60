/** Which texts are external URLs, and of what: a grammar, against the parser's searches and cuts. */
module UrlGrammar {
  import opened Base
  import opened ExternalUrl

  // ---- Host names --------------------------------------------------------------------------------------

  /** What stands between the separators, empty pieces included. */
  function Pieces(s: string, separator: char): (pieces: seq<string>)
    ensures pieces != []
  {
    if s == "" then [""]
    else
      var rest := Pieces(s[1..], separator);
      if s[0] == separator then [""] + rest else [[s[0]] + rest[0]] + rest[1..]
  }

  /** ASCII: the hyphen, digits, capitals, small letters. */
  predicate LabelChar(c: char) {
    var k := c as int;
    k == 45 || 48 <= k <= 57 || 65 <= k <= 90 || 97 <= k <= 122
  }

  predicate Label(g: string) {
    g != "" && forall c <- g :: LabelChar(c)
  }

  /** Labels joined by dots, 253 characters at most. */
  predicate HostName(host: string) {
    |host| <= 253 && forall g <- Pieces(host, '.') :: Label(g)
  }

  lemma LabelChars(c: char)
    ensures LabelChar(c) <==> HostChar(c) && c != '.'
  {
  }

  /** Neither end is a dot and no two dots meet. */
  predicate Dotted(host: string) {
    && host != "" && host[0] != '.' && host[|host| - 1] != '.' && !DoubleDot(host)
    && forall c <- host :: HostChar(c)
  }

  lemma DottedCons(host: string)
    requires host != ""
    ensures var c, rest := host[0], host[1..];
      Dotted(host) <==>
        && HostChar(c) && c != '.'
        && (rest == "" || (if rest[0] == '.' then Dotted(rest[1..]) else Dotted(rest)))
  {
    var c, rest := host[0], host[1..];
    assert host == [c] + rest;
    assert forall i | 0 < i < |host| :: host[i] == rest[i - 1];
    if rest != "" {
      var tail := rest[1..];
      assert rest == [rest[0]] + tail;
      assert forall i | 0 < i < |rest| :: rest[i] == tail[i - 1];
      if rest[0] == '.' {
        if Dotted(host) {
          assert |tail| > 0 by {
            assert host[|host| - 1] == rest[|rest| - 1];
          }
          DottedParts(host, tail, 2);
        }
        if c != '.' && Dotted(tail) {
          DoubleDotFrom(host, tail);
        }
      } else {
        if Dotted(host) {
          DottedParts(host, rest, 1);
        }
        if c != '.' && Dotted(rest) {
          DoubleDotCons(host, rest);
        }
      }
    }
  }

  lemma DottedParts(host: string, tail: string, k: nat)
    requires Dotted(host) && 0 < k < |host| && tail == host[k..] && tail != ""
    requires host[k - 1] == '.' || host[k] != '.'
    ensures Dotted(tail)
  {
    assert tail[|tail| - 1] == host[|host| - 1] && tail[0] == host[k];
    var last := k - 1;
    assert !(host[last] == '.' && host[last + 1] == '.');
    forall i | 0 <= i < |tail| - 1
      ensures !(tail[i] == '.' && tail[i + 1] == '.')
    {
      var j := k + i;
      assert tail[i] == host[j] && tail[i + 1] == host[j + 1] && 0 <= j < |host| - 1;
    }
    assert forall c <- tail :: c in host;
  }

  lemma DoubleDotCons(host: string, rest: string)
    requires host != "" && host[0] != '.' && rest == host[1..] && !DoubleDot(rest)
    ensures !DoubleDot(host)
  {
    forall i | 0 <= i < |host| - 1
      ensures !(host[i] == '.' && host[i + 1] == '.')
    {
      if i > 0 {
        var j := i - 1;
        assert rest[j] == host[i] && rest[j + 1] == host[i + 1] && 0 <= j < |rest| - 1;
      }
    }
  }

  lemma DoubleDotFrom(host: string, tail: string)
    requires |host| > 2 && host[0] != '.' && tail == host[2..] && tail[0] != '.' && !DoubleDot(tail)
    ensures !DoubleDot(host)
  {
    assert tail[0] == host[2];
    forall i | 0 <= i < |host| - 1
      ensures !(host[i] == '.' && host[i + 1] == '.')
    {
      if i > 1 {
        var j := i - 2;
        assert tail[j] == host[i] && tail[j + 1] == host[i + 1] && 0 <= j < |tail| - 1;
      }
    }
  }

  lemma PieceSplit(pieces: seq<string>)
    requires pieces != []
    ensures (forall g <- pieces :: Label(g)) <==> Label(pieces[0]) && forall g <- pieces[1..] :: Label(g)
  {
    assert pieces == [pieces[0]] + pieces[1..];
  }

  lemma LabelCons(c: char, g: string)
    ensures Label([c] + g) <==> LabelChar(c) && (g == "" || Label(g))
  {
    assert forall x :: x in [c] + g <==> x == c || x in g;
  }

  lemma {:induction false} PiecesLabels(host: string)
    ensures (forall g <- Pieces(host, '.') :: Label(g)) <==> Dotted(host)
    decreases |host|
  {
    hide Label, LabelChar, Dotted, HostChar;
    var pieces := Pieces(host, '.');
    PieceSplit(pieces);
    EmptyLabel();
    if host != "" {
      var rest := host[1..];
      var after := Pieces(rest, '.');
      LabelChars(host[0]);
      DottedCons(host);
      LabelCons(host[0], after[0]);
      PieceSplit(after);
      if host[0] != '.' {
        assert pieces[1..] == after[1..];
        if rest != "" {
          if rest[0] == '.' {
            assert after[1..] == Pieces(rest[1..], '.');
            PiecesLabels(rest[1..]);
          } else {
            assert after[0] != "";
            PiecesLabels(rest);
          }
        }
      }
    }
  }

  lemma EmptyLabel()
    ensures !Label("") && !Dotted("")
  {
  }

  lemma HostNameIff(host: string)
    ensures HostName(host) <==> ValidName(host)
  {
    PiecesLabels(host);
    hide Pieces;
  }

  // ---- Spellings ---------------------------------------------------------------------------------------

  /** How a URL is written: `host` without its brackets, `port` without its colon, `rest` all behind the authority. */
  datatype Spelling = Spelling(scheme: string, bracketed: bool, host: string, port: Option<string>, rest: string)

  function Written(x: Spelling): string {
    (if x.bracketed then ['['] + (x.host + [']']) else x.host) + Suffix(x.port)
  }

  function Text(x: Spelling): string {
    x.scheme + ("://" + (Written(x) + x.rest))
  }

  /** A name may be written in capitals, with dots behind it. */
  ghost predicate Names(text: string, host: string) {
    HostName(host) && host <= Lower(text) && forall i | |host| <= i < |Lower(text)| :: Lower(text)[i] == '.'
  }

  predicate PortOf(scheme: string, port: Option<string>, u: Url) {
    match port
    case None => !u.explicitPort && u.port == (if scheme == "https" then 443 else 80)
    case Some(digits) =>
      && u.explicitPort && digits != "" && (forall c <- digits :: c in "0123456789")
      && (forall c <- digits :: Digit(c)) && u.port == FromDecimal(digits) && 0 < u.port < 65536
  }

  predicate RestOf(rest: string, path: string) {
    || (rest == "" && path == "/")
    || (rest != "" && rest[0] == '/' && path == rest)
    || (rest != "" && rest[0] == '?' && path == "/" + rest)
  }

  predicate Printable(s: string) {
    forall c <- s :: c as int > 32 && c as int != 127 && c != '\\' && c != '#'
  }

  ghost predicate Denotes(canon: Canon, x: Spelling, u: Url) {
    && Printable(Text(x)) && u.scheme == Lower(x.scheme) && (u.scheme == "http" || u.scheme == "https")
    && '@' !in x.host && '/' !in x.host && '?' !in x.host
    && u.ipv6 == x.bracketed
    && (if x.bracketed then x.host != "" && ']' !in x.host && '%' !in x.host && canon(Lower(x.host)) == Some(u.host)
        else Names(x.host, u.host))
    && PortOf(u.scheme, x.port, u) && RestOf(x.rest, u.pathAndQuery)
  }

  lemma DigitIn(c: char)
    ensures c in "0123456789" <==> Digit(c)
  {
    if Digit(c) {
      assert "0123456789"[c as int - '0' as int] == c;
    }
  }

  lemma PrintableIff(s: string)
    ensures Printable(s) <==> CleanText(s)
  {
  }

  lemma {:induction false} LowerKeeps(s: string)
    ensures |Lower(s)| == |s| && forall i | 0 <= i < |s| :: Lower(s)[i] == LowerChar(s[i])
  {
    if s != "" {
      LowerKeeps(s[1..]);
    }
  }

  // ---- Reading ------------------------------------------------------------------------------------------

  lemma {:induction false} StripsDots(text: string, host: string)
    requires host != "" && host[|host| - 1] != '.' && host <= text
    requires forall i | |host| <= i < |text| :: text[i] == '.'
    ensures StripDots(text) == host
    decreases |text|
  {
    if |host| < |text| {
      assert text[|text| - 1] == '.';
      StripsDots(text[..|text| - 1], host);
    } else {
      assert text == host;
    }
  }

  lemma {:induction false} StripDotsLeaves(text: string)
    ensures var host := StripDots(text);
      && host <= text && (forall i | |host| <= i < |text| :: text[i] == '.')
    decreases |text|
  {
    if text != "" && text[|text| - 1] == '.' {
      StripDotsLeaves(text[..|text| - 1]);
    }
  }

  lemma HostIff(canon: Canon, text: string, bracketed: bool, host: string)
    ensures ParseHost(canon, text, bracketed) == Some(host) <==>
              if bracketed then '%' !in text && canon(Lower(text)) == Some(host) else Names(text, host)
  {
    var lowered := Lower(text);
    LowerKeeps(text);
    if bracketed {
      assert '%' in lowered <==> '%' in text by {
        if '%' in text {
          var i :| 0 <= i < |text| && text[i] == '%';
          assert lowered[i] == '%';
        }
        if '%' in lowered {
          var i :| 0 <= i < |lowered| && lowered[i] == '%';
          assert text[i] == '%';
        }
      }
    } else {
      HostNameIff(host);
      HostNameIff(StripDots(lowered));
      hide HostName;
      StripDotsLeaves(lowered);
      if Names(text, host) {
        StripsDots(lowered, host);
      }
    }
  }

  lemma PortIff(scheme: string, digits: string, u: Url)
    ensures PortOf(scheme, Some(digits), u) <==> u.explicitPort && ParsePort(digits) == Some(u.port)
  {
    forall c | c in digits
      ensures c in "0123456789" <==> Digit(c)
    {
      DigitIn(c);
    }
  }

  lemma {:induction false} SchemeSplits(url: string)
    ensures match SchemeEnd(url)
      case None => true
      case Some(at) => at + 3 <= |url| && url == url[..at] + ("://" + url[at + 3..])
    decreases |url|
  {
    if |url| >= 3 {
      if url[0] == ':' && url[1] == '/' && url[2] == '/' {
        assert url == url[..0] + ("://" + url[3..]);
      } else {
        SchemeSplits(url[1..]);
        if SchemeEnd(url[1..]).Some? {
          SplitsLater(url, SchemeEnd(url[1..]).value);
        }
      }
    }
  }

  lemma SplitsLater(url: string, at: nat)
    requires url != "" && at + 3 <= |url[1..]| && url[1..] == url[1..][..at] + ("://" + url[1..][at + 3..])
    ensures url == url[..at + 1] + ("://" + url[at + 4..])
  {
    var rest := url[1..];
    assert rest[..at] == url[1..at + 1] && rest[at + 3..] == url[at + 4..];
    assert url == [url[0]] + rest && url[..at + 1] == [url[0]] + rest[..at];
    Assoc([url[0]], rest[..at], "://" + rest[at + 3..]);
  }

  /** An authority comes apart into host and port exactly if it is written from them. */
  lemma SplitIff(authority: string, host: string, port: Option<string>, bracketed: bool)
    requires authority != "" && host != ""
    ensures SplitAuthority(authority) == Some(Split(host, port, bracketed)) <==>
              && authority == (if bracketed then ['['] + (host + [']']) else host) + Suffix(port)
              && (if bracketed then ']' !in host
                  else ':' !in host && host[0] != '[' && (port.Some? ==> ':' !in port.value))
  {
    if bracketed {
      if ']' !in host {
        SplitBracketed(host, port);
      }
    } else {
      if ':' !in host && host[0] != '[' && (port.Some? ==> ':' !in port.value) {
        SplitNamed(host, port);
      }
    }
    if SplitAuthority(authority).Some? {
      SplitShape(authority);
    }
  }

  lemma SplitShape(authority: string)
    requires authority != "" && SplitAuthority(authority).Some?
    ensures var x := SplitAuthority(authority).value;
      && authority == (if x.ipv6 then ['['] + (x.host + [']']) else x.host) + Suffix(x.port)
      && (if x.ipv6 then ']' !in x.host
          else ':' !in x.host && (x.host != "" ==> x.host[0] != '[') && (x.port.Some? ==> ':' !in x.port.value))
  {
    if authority[0] == '[' {
      BracketShape(authority);
    } else {
      NameShape(authority);
    }
  }

  lemma BracketShape(authority: string)
    requires authority != "" && SplitAuthority(authority).Some? && authority[0] == '['
    ensures var x := SplitAuthority(authority).value;
      x.ipv6 && authority == (['['] + (x.host + [']'])) + Suffix(x.port) && ']' !in x.host
  {
    var close := Find(authority, ']');
    hide Find;
    var front, back := authority[..close + 1], authority[close + 1..];
    assert authority == front + back;
    assert front == ['['] + (authority[1..close] + [']']);
    if back != "" {
      assert back == [':'] + authority[close + 2..];
    }
  }

  lemma NameShape(authority: string)
    requires authority != "" && SplitAuthority(authority).Some? && authority[0] != '['
    ensures var x := SplitAuthority(authority).value;
      && !x.ipv6 && authority == x.host + Suffix(x.port)
      && ':' !in x.host && (x.host != "" ==> x.host[0] != '[') && (x.port.Some? ==> ':' !in x.port.value)
  {
    var colon := Find(authority, ':');
    hide Find;
    if colon < |authority| {
      assert authority == authority[..colon] + ([':'] + authority[colon + 1..]);
    } else {
      assert authority + "" == authority;
    }
  }

  lemma RestIff(rest: string, path: string)
    requires rest == "" || EndsAuthority(rest[0])
    ensures RestOf(rest, path) <==> path == PathOf(rest)
  {
  }

  /** The authority of this host and port, and nothing else, denotes them. */
  lemma AuthorityIff(canon: Canon, scheme: string, authority: string, x: Spelling, u: Url)
    requires scheme == "http" || scheme == "https"
    requires x.host != "" && authority == Written(x) && authority != ""
    requires (if x.bracketed then ']' !in x.host else ':' !in x.host && x.host[0] != '[')
    requires x.port.Some? ==> ':' !in x.port.value || x.bracketed
    ensures ParseAuthority(canon, scheme, authority) == Some(u.(pathAndQuery := "/")) <==>
              && '@' !in authority && u.scheme == scheme && u.ipv6 == x.bracketed
              && (if x.bracketed then '%' !in x.host && canon(Lower(x.host)) == Some(u.host) else Names(x.host, u.host))
              && PortOf(scheme, x.port, u)
  {
    hide SplitAuthority, ParseHost, ParsePort, Names, Lower, FromDecimal;
    SplitIff(authority, x.host, x.port, x.bracketed);
    HostIff(canon, x.host, x.bracketed, u.host);
    if x.port.Some? {
      PortIff(scheme, x.port.value, u);
      hide PortOf;
    }
  }

  lemma NamedChars(text: string, host: string)
    requires Names(text, host)
    ensures text != "" && text[0] != '[' && ':' !in text
  {
    HostNameIff(host);
    LowerKeeps(text);
    forall i | 0 <= i < |text|
      ensures text[i] != ':' && text[i] != '['
    {
      assert Lower(text)[i] == if i < |host| then host[i] else '.';
      assert i < |host| ==> host[i] in host;
    }
  }

  lemma DigitsPlain(digits: string)
    requires forall c <- digits :: Digit(c)
    ensures ':' !in digits && '@' !in digits && '/' !in digits && '?' !in digits
  {
  }

  lemma PortPlain(x: Spelling, u: Url)
    requires PortOf(u.scheme, x.port, u)
    ensures x.port.Some? ==> forall c <- x.port.value :: Digit(c)
  {
  }

  lemma WrittenChars(x: Spelling)
    requires '@' !in x.host && '/' !in x.host && '?' !in x.host
    requires x.port.Some? ==> forall c <- x.port.value :: Digit(c)
    ensures '@' !in Written(x) && forall c <- Written(x) :: !EndsAuthority(c)
  {
    forall c | c in Written(x)
      ensures c in x.host || c == '[' || c == ']' || c == ':' || (x.port.Some? && c in x.port.value)
    {
    }
  }

  lemma SchemePlain(written: string)
    requires Lower(written) == "http" || Lower(written) == "https"
    ensures ':' !in written
  {
    LowerKeeps(written);
    forall i | 0 <= i < |written|
      ensures written[i] != ':'
    {
      assert Lower(written)[i] == LowerChar(written[i]);
      assert ':' !in "http" && ':' !in "https";
      assert Lower(written)[i] in Lower(written);
    }
  }

  /** What the parser looks for in a written URL is where it was written. */
  lemma Seams(x: Spelling, path: string)
    requires ':' !in x.scheme && (forall c <- Written(x) :: !EndsAuthority(c)) && RestOf(x.rest, path)
    ensures var text, at := Text(x), |x.scheme|;
      && SchemeEnd(text) == Some(at) && text[..at] == x.scheme && text[at + 3..] == Written(x) + x.rest
      && AuthorityEnd(Written(x) + x.rest) == |Written(x)| && path == PathOf(x.rest) && text != ""
  {
    hide Written;
    SchemeFound(x.scheme, Written(x) + x.rest);
    AuthorityFound(Written(x), x.rest);
    RestIff(x.rest, path);
    hide SchemeEnd, AuthorityEnd, EndsAuthority;
    Sliced(x.scheme, "://", Written(x) + x.rest);
  }

  lemma SpellingParses(canon: Canon, x: Spelling, u: Url)
    requires Denotes(canon, x, u)
    ensures Parse(canon, Text(x)) == Some(u)
  {
    hide Parse, ParseAuthority, Written, Printable, CleanText, PortOf, Names, Lower, EndsAuthority, RestOf, Text;
    PrintableIff(Text(x));
    SchemePlain(x.scheme);
    PortPlain(x, u);
    if x.port.Some? {
      DigitsPlain(x.port.value);
    }
    if !x.bracketed {
      NamedChars(x.host, u.host);
    }
    WrittenChars(x);
    WrittenSome(x);
    Seams(x, u.pathAndQuery);
    AuthorityIff(canon, u.scheme, Written(x), x, u);
    ParseAt(canon, Text(x), x.scheme, Written(x), x.rest);
  }

  lemma WrittenSome(x: Spelling)
    requires x.host != ""
    ensures Written(x) != ""
  {
  }

  lemma ParseAt(canon: Canon, text: string, scheme: string, authority: string, rest: string)
    requires text != "" && SchemeEnd(text) == Some(|scheme|) && |scheme| + 3 <= |text| && text[..|scheme|] == scheme
    requires text[|scheme| + 3..] == authority + rest && AuthorityEnd(authority + rest) == |authority|
    ensures var parsed := ParseAuthority(canon, Lower(scheme), authority);
      Parse(canon, text) ==
        if !CleanText(text) || (Lower(scheme) != "http" && Lower(scheme) != "https") || parsed.None? then None
        else Some(parsed.value.(pathAndQuery := PathOf(rest)))
  {
    hide ParseAuthority, CleanText, Lower, SchemeEnd, AuthorityEnd, PathOf;
    var after := authority + rest;
    assert after[..|authority|] == authority && after[|authority|..] == rest;
  }

  lemma SplitPlain(canon: Canon, scheme: string, authority: string)
    requires ParseAuthority(canon, scheme, authority).Some?
    ensures authority != "" && SplitAuthority(authority).Some? && SplitAuthority(authority).value.host != ""
    ensures '@' !in authority
  {
    var split := SplitAuthority(authority).value;
    assert Lower("") == "" && StripDots("") == "";
  }

  lemma PathSet(canon: Canon, scheme: string, authority: string)
    ensures ParseAuthority(canon, scheme, authority).Some? ==>
              ParseAuthority(canon, scheme, authority).value.pathAndQuery == "/"
  {
  }

  /** Where the parser cuts a text that it accepts. */
  lemma CutsAt(canon: Canon, text: string) returns (scheme: string, authority: string, rest: string)
    requires Parse(canon, text).Some?
    ensures text == scheme + ("://" + (authority + rest)) && CleanText(text)
    ensures Lower(scheme) == "http" || Lower(scheme) == "https"
    ensures (forall c <- authority :: !EndsAuthority(c)) && (rest == "" || EndsAuthority(rest[0]))
    ensures ParseAuthority(canon, Lower(scheme), authority).Some?
    ensures Parse(canon, text) ==
              Some(ParseAuthority(canon, Lower(scheme), authority).value.(pathAndQuery := PathOf(rest)))
  {
    var at := SchemeEnd(text).value;
    var after := text[at + 3..];
    var end := AuthorityEnd(after);
    scheme, authority, rest := text[..at], after[..end], after[end..];
    SchemeSplits(text);
    assert after == authority + rest;
    hide SchemeEnd, AuthorityEnd, ParseAuthority, Lower, CleanText, EndsAuthority, PathOf;
  }

  lemma Respelled(canon: Canon, text: string) returns (x: Spelling)
    requires Parse(canon, text).Some?
    ensures Text(x) == text && Denotes(canon, x, Parse(canon, text).value)
  {
    hide Parse, ParseAuthority, PortOf, Names, Lower, Printable, CleanText, RestOf, EndsAuthority;
    hide SplitAuthority, PathOf;
    hide Written;
    var u := Parse(canon, text).value;
    var scheme, authority, rest := CutsAt(canon, text);
    SplitPlain(canon, Lower(scheme), authority);
    SplitShape(authority);
    PathSet(canon, Lower(scheme), authority);
    var split := SplitAuthority(authority).value;
    x := Spelling(scheme, split.ipv6, split.host, split.port, rest);
    WrittenIs(x);
    PrintableIff(text);
    RestIff(rest, u.pathAndQuery);
    HostWithin(x, authority);
    AuthorityIff(canon, Lower(scheme), authority, x, u);
  }

  lemma WrittenIs(x: Spelling)
    ensures Written(x) == (if x.bracketed then ['['] + (x.host + [']']) else x.host) + Suffix(x.port)
  {
  }

  lemma HostWithin(x: Spelling, authority: string)
    requires authority == Written(x) && '@' !in authority
    requires forall c <- authority :: !EndsAuthority(c)
    ensures '@' !in x.host && '/' !in x.host && '?' !in x.host
  {
    forall c | c in x.host
      ensures c in authority && !EndsAuthority(c)
    {
      assert c in Written(x);
    }
  }

  /**
    The parser accepts exactly the texts the grammar writes, and each as exactly the URL the grammar
    says it denotes.
   */
  lemma ParseIff(canon: Canon, text: string, u: Url)
    ensures Parse(canon, text) == Some(u) <==> exists x :: Text(x) == text && Denotes(canon, x, u)
  {
    hide Parse, Denotes, Text;
    if Parse(canon, text) == Some(u) {
      var x := Respelled(canon, text);
      assert Text(x) == text && Denotes(canon, x, u);
    }
    if x :| Text(x) == text && Denotes(canon, x, u) {
      SpellingParses(canon, x, u);
    }
  }
}
