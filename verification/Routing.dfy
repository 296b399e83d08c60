/** The paths the HTTP client prints against the server's prefix stripping and router. */
module Routing {
  import opened Base
  import opened ExternalUrl
  import UrlPath

  datatype Suffix = Unary | Init | Exchange

  datatype Target = Application | Reflection | Identity | Reserved

  datatype Route =
    | Routed(target: Target, protocol: string, method_: string, suffix: Suffix)
    | NotFound
    | NotSupported

  /** Which protocols a server hosts; reflection is always there, identity may be. */
  datatype Server = Server(protocols: set<string>, reflection: string, identity: string, hostsIdentity: bool)

  function SuffixText(s: Suffix): string {
    match s
    case Unary => ""
    case Init => "/init"
    case Exchange => "/exchange"
  }

  predicate IsReserved(name: string) {
    |name| > 4 && name[..2] == "__" && name[|name| - 2..] == "__"
  }

  predicate Letter(c: char) {
    'a' <= c <= 'z' || 'A' <= c <= 'Z'
  }

  predicate IsProtocolName(name: string) {
    0 < |name| <= 255 && (Letter(name[0]) || name[0] == '_')
    && forall c <- name[1..] :: Letter(c) || Digit(c) || c == '_' || c == '.'
  }

  /** A non-empty segment that needs no escaping in a URL path. */
  predicate UrlSafe(name: string) {
    name != "" && forall c <- name :: Letter(c) || Digit(c) || c == '-' || c == '.' || c == '_' || c == '~'
  }

  // ---- The client's paths ----------------------------------------------------------------------------

  function StripSlashes(prefix: string): string {
    if |prefix| > 1 && prefix[|prefix| - 1] == '/' then StripSlashes(prefix[..|prefix| - 1]) else prefix
  }

  /** How the client spells a configured prefix: a leading slash, and none at the end. */
  function ClientPrefix(configured: string): string {
    StripSlashes(if configured != "" && configured[0] != '/' then "/" + configured else configured)
  }

  method NormalizePrefix(configured: string) returns (prefix: string)
    ensures prefix == ClientPrefix(configured)
  {
    prefix := configured;
    if prefix != "" && prefix[0] != '/' {
      prefix := "/" + prefix;
    }
    while |prefix| > 1 && prefix[|prefix| - 1] == '/'
      invariant StripSlashes(prefix) == ClientPrefix(configured)
      decreases |prefix|
    {
      prefix := prefix[..|prefix| - 1];
    }
  }

  function Printed(prefix: string): string {
    if prefix == "/" then "" else prefix
  }

  /** `method_path`; `None` where it refuses an application method without a protocol. */
  function MethodPath(prefix: string, protocol: string, method_: string, suffix: Suffix): (path: string)
    requires IsReserved(method_) || protocol != ""
  {
    Printed(prefix) + (['/'] + Flat(protocol, method_, suffix))
  }

  /** A reserved method stays flat; any other stands under its protocol. */
  function Flat(protocol: string, method_: string, suffix: Suffix): string {
    if IsReserved(method_) then method_ + SuffixText(suffix) else protocol + ("/" + (method_ + SuffixText(suffix)))
  }

  lemma BarePath(protocol: string, method_: string, suffix: Suffix)
    requires IsReserved(method_) || protocol != ""
    ensures MethodPath("", protocol, method_, suffix) == ['/'] + Flat(protocol, method_, suffix)
    ensures MethodPath("", protocol, method_, suffix)[1..] == Flat(protocol, method_, suffix)
  {
    hide Flat;
    assert Printed("") == "";
  }

  // ---- The server's router --------------------------------------------------------------------------

  function StripPrefix(prefix: string, path: string): string {
    if prefix != "" && prefix <= path then
      var rest := path[|prefix|..];
      if rest == "" then "/" else if rest[0] == '/' then rest else path
    else path
  }

  function SuffixAt(segments: seq<string>, index: nat): Option<Suffix> {
    if index >= |segments| then Some(Unary)
    else if index + 1 != |segments| then None
    else if segments[index] == "init" then Some(Init)
    else if segments[index] == "exchange" then Some(Exchange)
    else None
  }

  function TargetOf(server: Server, protocol: string): Option<Target> {
    if protocol == server.reflection then Some(Reflection)
    else if protocol == server.identity && server.hostsIdentity then Some(Identity)
    else if protocol in server.protocols then Some(Application)
    else None
  }

  /** `route_path` on the segments of a path without its leading slash. */
  function RouteSegments(server: Server, segments: seq<string>): Route {
    if segments == [] || segments[0] == "" then NotFound
    else if IsReserved(segments[0]) then
      var suffix := SuffixAt(segments, 1);
      if suffix.None? then NotFound else Routed(Reserved, "", segments[0], suffix.value)
    else if |segments| < 2 || segments[1] == "" then NotFound
    else if '%' in segments[0] || !IsProtocolName(segments[0]) then NotFound
    else
      var suffix := SuffixAt(segments, 2);
      if suffix.None? then NotFound
      else
        var target := TargetOf(server, segments[0]);
        if target.None? then NotSupported else Routed(target.value, segments[0], segments[1], suffix.value)
  }

  /** What the server makes of a raw target path. */
  function Serve(server: Server, prefix: string, path: string): Route {
    var stripped := StripPrefix(prefix, path);
    var flat := if stripped != "" && stripped[0] == '/' then stripped[1..] else stripped;
    RouteSegments(server, UrlPath.Segments(flat))
  }

  method SplitPath(path: string) returns (segments: seq<string>)
    ensures segments == UrlPath.Segments(path)
  {
    hide UrlPath.Segments, Find;
    segments := [];
    var start := 0;
    assert path[0..] == path;
    while true
      invariant 0 <= start <= |path|
      invariant segments + UrlPath.Segments(path[start..]) == UrlPath.Segments(path)
      decreases |path| - start
    {
      var rest := path[start..];
      var slash := Find(rest, '/');
      UrlPath.SegmentsAt(rest);
      var segment := path[start..start + slash];
      assert segment == rest[..slash];
      if slash == |rest| {
        assert segment == rest;
        segments := segments + [segment];
        return;
      }
      assert rest[slash + 1..] == path[start + slash + 1..];
      Assoc(segments, [segment], UrlPath.Segments(rest[slash + 1..]));
      segments := segments + [segment];
      start := start + slash + 1;
    }
  }

  // ---- Printing and routing -------------------------------------------------------------------------

  /** The segments a method's route is printed from. */
  function RouteParts(protocol: string, method_: string, suffix: Suffix): seq<string> {
    (if IsReserved(method_) then [method_] else [protocol] + [method_]) + SuffixWords(suffix)
  }

  function SuffixWords(suffix: Suffix): seq<string> {
    match suffix
    case Unary => []
    case Init => ["init"]
    case Exchange => ["exchange"]
  }

  /** What the printed parts mean to a server. */
  function Meaning(server: Server, protocol: string, method_: string, suffix: Suffix): Route {
    if IsReserved(method_) then Routed(Reserved, "", method_, suffix)
    else
      var target := TargetOf(server, protocol);
      if target.None? then NotSupported else Routed(target.value, protocol, method_, suffix)
  }

  predicate Callable(protocol: string, method_: string) {
    UrlSafe(method_) && (IsReserved(method_) || (IsProtocolName(protocol) && !IsReserved(protocol)))
  }

  lemma NoSlash(name: string)
    requires UrlSafe(name) || IsProtocolName(name)
    ensures name != "" && '/' !in name && '%' !in name
  {
    assert name[0] in name && name == [name[0]] + name[1..];
  }

  lemma WordSegments(name: string, word: string)
    requires '/' !in name && '/' !in word
    ensures UrlPath.Segments(name + ("/" + word)) == [name, word] && UrlPath.Segments(name) == [name]
  {
    UrlPath.SegmentsCons(name, word);
    UrlPath.SegmentsCons(word, "");
    hide UrlPath.Segments;
  }

  lemma SuffixSegments(method_: string, suffix: Suffix)
    requires '/' !in method_
    ensures UrlPath.Segments(method_ + SuffixText(suffix))
         == [method_] + SuffixWords(suffix)
  {
    hide UrlPath.Segments;
    match suffix
    case Unary =>
      WordSegments(method_, "");
      assert method_ + "" == method_;
    case Init => WordSegments(method_, "init");
      assert "/" + "init" == "/init";
    case Exchange => WordSegments(method_, "exchange");
      assert "/" + "exchange" == "/exchange";
  }

  /** A bare printed path splits into exactly its parts. */
  lemma PartsSplit(protocol: string, method_: string, suffix: Suffix)
    requires Callable(protocol, method_)
    ensures UrlPath.Segments(MethodPath("", protocol, method_, suffix)[1..]) == RouteParts(protocol, method_, suffix)
  {
    NoSlash(method_);
    SuffixSegments(method_, suffix);
    if !IsReserved(method_) {
      NoSlash(protocol);
      UrlPath.SegmentsCons(protocol, method_ + SuffixText(suffix));
    }
    hide SuffixText, SuffixWords, UrlPath.Segments, UrlSafe, IsProtocolName, IsReserved, MethodPath;
    BarePath(protocol, method_, suffix);
    Assoc([protocol], [method_], SuffixWords(suffix));
  }

  lemma PartsRoute(server: Server, protocol: string, method_: string, suffix: Suffix)
    requires Callable(protocol, method_)
    ensures RouteSegments(server, RouteParts(protocol, method_, suffix)) == Meaning(server, protocol, method_, suffix)
  {
    NoSlash(method_);
    if !IsReserved(method_) {
      NoSlash(protocol);
    }
    hide UrlSafe, IsProtocolName, TargetOf;
  }

  /** The shape `ClientPrefix` gives a prefix: nothing, a slash, or a path from the root that does not end in one. */
  predicate PrefixShape(prefix: string) {
    prefix == "" || (prefix[0] == '/' && (prefix == "/" || prefix[|prefix| - 1] != '/'))
  }

  lemma {:induction false} StripSlashesShape(prefix: string)
    requires prefix == "" || prefix[0] == '/'
    ensures var s := StripSlashes(prefix);
      && PrefixShape(s) && s <= prefix && (forall i | |s| <= i < |prefix| :: prefix[i] == '/')
      && (prefix != "" ==> s != "")
    decreases |prefix|
  {
    if |prefix| > 1 && prefix[|prefix| - 1] == '/' {
      StripSlashesShape(prefix[..|prefix| - 1]);
    }
  }

  /** Behind a leading slash the configured prefix is kept up to its trailing ones, and one slash in any case. */
  lemma ClientPrefixShape(configured: string)
    ensures var s, led := ClientPrefix(configured),
                          if configured == "" || configured[0] == '/' then configured else "/" + configured;
      && PrefixShape(s) && s <= led && (forall i | |s| <= i < |led| :: led[i] == '/')
      && (configured != "" ==> s != "")
  {
    StripSlashesShape(if configured != "" && configured[0] != '/' then "/" + configured else configured);
  }

  lemma StripsPrinted(prefix: string, bare: string)
    requires PrefixShape(prefix) && |bare| > 1 && bare[0] == '/' && bare[1] != '/'
    ensures StripPrefix(prefix, Printed(prefix) + bare) == bare
  {
  }

  lemma BareStarts(protocol: string, method_: string, suffix: Suffix)
    requires Callable(protocol, method_)
    ensures IsReserved(method_) || protocol != ""
    ensures var bare := MethodPath("", protocol, method_, suffix);
      |bare| > 1 && bare[0] == '/' && bare[1] != '/'
    ensures forall prefix ::
              MethodPath(prefix, protocol, method_, suffix)
                == Printed(prefix) + MethodPath("", protocol, method_, suffix)
  {
  }

  /** With equal prefixes the router recovers the protocol, the method and the suffix that the client printed. */
  lemma RouteInvertsPath(server: Server, configured: string, protocol: string, method_: string, suffix: Suffix)
    requires Callable(protocol, method_)
    ensures IsReserved(method_) || protocol != ""
    ensures var prefix := ClientPrefix(configured);
      Serve(server, prefix, MethodPath(prefix, protocol, method_, suffix)) == Meaning(server, protocol, method_, suffix)
  {
    var prefix := ClientPrefix(configured);
    ClientPrefixShape(configured);
    BareStarts(protocol, method_, suffix);
    PartsSplit(protocol, method_, suffix);
    PartsRoute(server, protocol, method_, suffix);
    StripsPrinted(prefix, MethodPath("", protocol, method_, suffix));
    hide UrlPath.Segments, RouteSegments, RouteParts, Meaning, Callable, ClientPrefix, MethodPath;
    hide StripPrefix, Printed, IsReserved;
  }

  /** Two calls share a path only if they are the same, or of one reserved method under two protocols. */
  lemma PathsDistinct(configured: string, p: string, m: string, s: Suffix, q: string, n: string, t: Suffix)
    requires Callable(p, m) && Callable(q, n)
    ensures (IsReserved(m) || p != "") && (IsReserved(n) || q != "")
    ensures MethodPath(ClientPrefix(configured), p, m, s) == MethodPath(ClientPrefix(configured), q, n, t)
       <==> m == n && s == t && (IsReserved(m) || p == q)
  {
    var server := Server({p, q}, "", "", false);
    RouteInvertsPath(server, configured, p, m, s);
    RouteInvertsPath(server, configured, q, n, t);
    hide Serve, Callable, IsReserved, Printed;
  }

  // ---- What the router routes -----------------------------------------------------------------------------

  /** Two underscores, something, two underscores. */
  ghost predicate Enclosed(name: string) {
    exists inner :: inner != "" && name == "__" + (inner + "__")
  }

  lemma EnclosedIff(name: string)
    ensures Enclosed(name) <==> IsReserved(name)
  {
    if IsReserved(name) {
      var inner := name[2..|name| - 2];
      assert name == name[..2] + (inner + name[|name| - 2..]);
    }
    if inner :| inner != "" && name == "__" + (inner + "__") {
      assert name[..2] == "__" && name[|name| - 2..] == "__";
    }
  }

  /** A letter or underscore first, then letters, digits, underscores and dots; 255 characters at most. */
  predicate ProtocolText(name: string) {
    && 0 < |name| < 256
    && forall i | 0 <= i < |name| ::
         var k := name[i] as int;
         65 <= k <= 90 || 97 <= k <= 122 || k == 95 || (i > 0 && (48 <= k <= 57 || k == 46))
  }

  lemma ProtocolIff(name: string)
    ensures ProtocolText(name) <==> IsProtocolName(name)
  {
    if name != "" {
      assert forall i | 0 < i < |name| :: name[i] == name[1..][i - 1];
      if IsProtocolName(name) {
        forall i | 0 < i < |name|
          ensures Letter(name[i]) || Digit(name[i]) || name[i] == '_' || name[i] == '.'
        {
          assert name[1..][i - 1] in name[1..];
        }
      }
      if ProtocolText(name) {
        forall c | c in name[1..]
          ensures Letter(c) || Digit(c) || c == '_' || c == '.'
        {
          var j :| 0 <= j < |name[1..]| && name[1..][j] == c;
          assert name[j + 1] == c;
        }
      }
    }
  }

  /** Which protocol a server reaches under a name: reflection before identity before its applications. */
  ghost predicate Reaches(server: Server, name: string, target: Target) {
    match target
    case Reflection => name == server.reflection
    case Identity => name != server.reflection && server.hostsIdentity && name == server.identity
    case Application =>
      name != server.reflection && !(server.hostsIdentity && name == server.identity) && name in server.protocols
    case Reserved => false
  }

  lemma ReachesIff(server: Server, name: string, target: Target)
    ensures TargetOf(server, name) == Some(target) <==> Reaches(server, name, target)
  {
  }

  /**
    The router routes exactly the segments that some call is printed as: a reserved method alone, or a
    method under a protocol that the server reaches, each with one of the three suffixes.
   */
  lemma RoutedIff(server: Server, segments: seq<string>, target: Target, protocol: string, method_: string,
                  suffix: Suffix)
    ensures RouteSegments(server, segments) == Routed(target, protocol, method_, suffix) <==>
              if target == Reserved then
                protocol == "" && Enclosed(method_) && segments == [method_] + SuffixWords(suffix)
              else
                && ProtocolText(protocol) && !Enclosed(protocol) && method_ != ""
                && Reaches(server, protocol, target) && segments == [protocol, method_] + SuffixWords(suffix)
  {
    hide IsProtocolName, ProtocolText, TargetOf, Reaches, IsReserved, Enclosed;
    EnclosedIff(method_);
    EnclosedIff(protocol);
    ProtocolIff(protocol);
    ReachesIff(server, protocol, target);
    if segments != [] {
      EnclosedIff(segments[0]);
      SuffixIs(segments, 1, suffix);
      if IsProtocolName(segments[0]) {
        NoSlash(segments[0]);
      }
      if |segments| >= 2 {
        SuffixIs(segments, 2, suffix);
        assert segments[..2] == [segments[0], segments[1]];
      }
      assert segments[..1] == [segments[0]];
    }
    ReservedTarget(server, protocol);
    EmptyName();
  }

  lemma EmptyName()
    ensures !IsReserved("") && !IsProtocolName("")
  {
  }

  lemma ReservedTarget(server: Server, protocol: string)
    ensures TargetOf(server, protocol) != Some(Reserved)
  {
  }

  lemma SuffixIs(segments: seq<string>, index: nat, suffix: Suffix)
    requires index <= |segments|
    ensures SuffixAt(segments, index) == Some(suffix) <==> segments == segments[..index] + SuffixWords(suffix)
  {
    if segments == segments[..index] + SuffixWords(suffix) {
      assert segments[index..] == SuffixWords(suffix);
    }
    if SuffixAt(segments, index) == Some(suffix) {
      if index < |segments| {
        assert segments == segments[..index] + [segments[index]];
      }
    }
  }

  // ---- Bare paths on a server with a prefix ------------------------------------------------------------

  /** The prefix ends at a segment boundary of the path, so stripping it cuts the path. */
  predicate Under(prefix: string, path: string) {
    prefix != "" && prefix <= path && (|prefix| == |path| || path[|prefix|] == '/')
  }

  lemma {:induction false} SegmentsCount(a: string, b: string)
    ensures |UrlPath.Segments(a + ("/" + b))| == |UrlPath.Segments(a)| + |UrlPath.Segments(b)|
    ensures |UrlPath.Segments(a)| > 0
    decreases |a|
  {
    var i := Find(a, '/');
    UrlPath.SegmentsAt(a);
    hide UrlPath.Segments;
    if i == |a| {
      UrlPath.SegmentsCons(a, b);
    } else {
      var g, rest := a[..i], a[i + 1..];
      SegmentsCount(rest, b);
      UrlPath.SegmentsCons(g, rest + ("/" + b));
      assert a + ("/" + b) == g + ("/" + (rest + ("/" + b)));
    }
  }

  /** A route that resolved used up as many segments as it is printed from. */
  lemma RouteUsesAll(server: Server, segments: seq<string>, protocol: string, method_: string, suffix: Suffix)
    requires Meaning(server, protocol, method_, suffix).Routed?
    requires RouteSegments(server, segments) == Meaning(server, protocol, method_, suffix)
    ensures |segments| == |RouteParts(protocol, method_, suffix)|
  {
    hide IsProtocolName, TargetOf, IsReserved;
  }

  /**
    On a server with a prefix, a bare path that names something hosted works exactly when the prefix
    does not cut it.
   */
  lemma BarePathIff(server: Server, prefix: string, protocol: string, method_: string, suffix: Suffix)
    requires Callable(protocol, method_) && PrefixShape(prefix)
    requires Meaning(server, protocol, method_, suffix).Routed?
    ensures IsReserved(method_) || protocol != ""
    ensures var bare := MethodPath("", protocol, method_, suffix);
      Serve(server, prefix, bare) == Meaning(server, protocol, method_, suffix) <==> !Under(prefix, bare)
  {
    BareStarts(protocol, method_, suffix);
    PartsSplit(protocol, method_, suffix);
    PartsRoute(server, protocol, method_, suffix);
    hide MethodPath, Callable, Meaning, RouteParts, RouteSegments, UrlPath.Segments, IsReserved;
    hide Serve, CutSegments, Under;
    var bare := MethodPath("", protocol, method_, suffix);
    WholePath(server, prefix, bare);
    if Under(prefix, bare) {
      CutPath(server, prefix, bare);
      var cut := CutSegments(prefix, bare);
      if Serve(server, prefix, bare) == Meaning(server, protocol, method_, suffix) {
        RouteUsesAll(server, cut, protocol, method_, suffix);
        assert false;
      }
    }
  }

  lemma WholePath(server: Server, prefix: string, bare: string)
    requires bare != "" && bare[0] == '/'
    ensures !Under(prefix, bare) ==> Serve(server, prefix, bare) == RouteSegments(server, UrlPath.Segments(bare[1..]))
  {
    hide RouteSegments, UrlPath.Segments;
  }

  /** What the router is left with of a path its prefix cuts. */
  function CutSegments(prefix: string, bare: string): seq<string>
    requires Under(prefix, bare)
  {
    var rest := bare[|prefix|..];
    UrlPath.Segments(if rest == "" then "" else rest[1..])
  }

  lemma CutPath(server: Server, prefix: string, bare: string)
    requires Under(prefix, bare) && PrefixShape(prefix) && |bare| > 1 && bare[0] == '/' && bare[1] != '/'
    ensures Serve(server, prefix, bare) == RouteSegments(server, CutSegments(prefix, bare))
    ensures |CutSegments(prefix, bare)| < |UrlPath.Segments(bare[1..])|
        || !RouteSegments(server, CutSegments(prefix, bare)).Routed?
  {
    var rest := bare[|prefix|..];
    if rest == "" {
      UrlPath.SegmentsAt("");
      assert ['/'][1..] == "";
    } else {
      hide UrlPath.Segments, RouteSegments;
      CutCount(prefix, bare);
    }
  }

  lemma CutCount(prefix: string, bare: string)
    requires Under(prefix, bare) && |prefix| < |bare| && bare[0] == '/'
    ensures |UrlPath.Segments(bare[|prefix| + 1..])| < |UrlPath.Segments(bare[1..])|
  {
    hide UrlPath.Segments;
    var a, b := prefix[1..], bare[|prefix| + 1..];
    assert bare == prefix + bare[|prefix|..] && bare[|prefix|..] == ['/'] + b;
    assert bare[1..] == a + ("/" + b);
    SegmentsCount(a, b);
  }

  // ---- The scope of a stream -----------------------------------------------------------------------

  /** `stream_aad`: the identity that opened a stream and the protocol it was routed to. */
  function StreamScope(identity: string, protocol: string): string {
    identity + (['\U{001F}'] + protocol)
  }

  /** A scope tells identity and protocol apart, whatever the identity holds: no protocol name has the separator. */
  lemma ScopeBinds(a: string, p: string, b: string, q: string)
    requires (p == "" || IsProtocolName(p)) && (q == "" || IsProtocolName(q))
    ensures StreamScope(a, p) == StreamScope(b, q) <==> a == b && p == q
  {
    NoSeparator(p);
    NoSeparator(q);
    hide IsProtocolName;
    var w := StreamScope(a, p);
    if w == StreamScope(b, q) {
      var i, j := |a|, |b|;
      assert w[i] == '\U{001F}' && w[j] == '\U{001F}';
      assert w[i + 1..] == p && w[j + 1..] == q;
      forall k | i < k < |w| ensures w[k] in p {
        assert w[k] == p[k - i - 1];
      }
      forall k | j < k < |w| ensures w[k] in q {
        assert w[k] == q[k - j - 1];
      }
      assert a == w[..i] && b == w[..j];
    }
  }

  lemma NoSeparator(p: string)
    requires p == "" || IsProtocolName(p)
    ensures '\U{001F}' !in p
  {
    assert p != "" ==> p == [p[0]] + p[1..];
  }
}
