/**
  What a normalized path is, without walking it: which segments of a path survive, and where a
  relative redirect leads.
 */
module PathMeaning {
  import opened Base
  import opened ExternalUrl
  import opened UrlPath

  predicate Proper(g: string) {
    g != "" && g != "." && g != ".."
  }

  /** How many of the segments name a directory to go down to. */
  function Downs(segments: seq<string>): nat {
    if segments == [] then 0 else (if Proper(segments[0]) then 1 else 0) + Downs(segments[1..])
  }

  /** How many of the segments lead up again. */
  function Ups(segments: seq<string>): nat {
    if segments == [] then 0 else (if segments[0] == ".." then 1 else 0) + Ups(segments[1..])
  }

  /** The path never leaves the directory it is in when these segments begin. */
  ghost predicate StaysBelow(segments: seq<string>) {
    forall k | 0 <= k <= |segments| :: Ups(segments[..k]) <= Downs(segments[..k])
  }

  /** The segments that name a directory the path does not leave again. */
  ghost function Survivors(segments: seq<string>): seq<string> {
    if segments == [] then []
    else (if Proper(segments[0]) && StaysBelow(segments[1..]) then [segments[0]] else []) + Survivors(segments[1..])
  }

  /** How many levels above its start a path gets. */
  function Climb(segments: seq<string>): nat {
    if segments == [] then 0
    else
      var rest := Climb(segments[1..]);
      if segments[0] == ".." then 1 + rest
      else if Proper(segments[0]) then (if rest > 0 then rest - 1 else 0)
      else rest
  }

  lemma CountCons(g: string, rest: seq<string>, k: nat)
    requires k <= |rest|
    ensures ([g] + rest)[..k + 1] == [g] + rest[..k]
    ensures Ups([g] + rest[..k]) == (if g == ".." then 1 else 0) + Ups(rest[..k])
    ensures Downs([g] + rest[..k]) == (if Proper(g) then 1 else 0) + Downs(rest[..k])
  {
    assert ([g] + rest[..k])[1..] == rest[..k];
  }

  /** From `above` levels up, a path stays below its top iff it does not climb higher than that. */
  lemma {:induction false} ClimbIff(segments: seq<string>, above: nat)
    ensures Climb(segments) <= above <==>
              forall k | 0 <= k <= |segments| :: Ups(segments[..k]) <= Downs(segments[..k]) + above
  {
    if segments == [] {
      assert segments[..0] == [];
    } else {
      hide Ups, Downs;
      var g, rest := segments[0], segments[1..];
      assert segments == [g] + rest;
      var up, down := if g == ".." then 1 else 0, if Proper(g) then 1 else 0;
      Nothing();
      if above + down >= up {
        ClimbIff(rest, above + down - up);
        forall k | 0 <= k <= |rest|
          ensures Ups(segments[..k + 1]) <= Downs(segments[..k + 1]) + above
             <==> Ups(rest[..k]) <= Downs(rest[..k]) + (above + down - up)
        {
          CountCons(g, rest, k);
        }
        assert segments[..0] == [];
        if Climb(segments) <= above {
          forall k | 0 <= k <= |segments|
            ensures Ups(segments[..k]) <= Downs(segments[..k]) + above
          {
            if k > 0 {
              assert Ups(rest[..k - 1]) <= Downs(rest[..k - 1]) + (above + down - up);
            }
          }
        } else {
          var k :| 0 <= k <= |rest| && Ups(rest[..k]) > Downs(rest[..k]) + (above + down - up);
          assert Ups(segments[..k + 1]) > Downs(segments[..k + 1]) + above;
        }
      } else {
        CountCons(g, rest, 0);
        assert rest[..0] == [];
        assert Ups(segments[..1]) > Downs(segments[..1]) + above;
      }
    }
  }

  lemma Nothing()
    ensures Ups([]) == 0 && Downs([]) == 0
  {
  }

  /** What is left of a stack after so many levels of it are given up. */
  function Cut(at: seq<string>, levels: nat): seq<string> {
    at[..if levels <= |at| then |at| - levels else 0]
  }

  lemma CutStep(at: seq<string>, g: string, levels: nat)
    ensures levels == 0 ==> Cut(at + [g], 0) == at + [g] && Cut(at, 0) == at
    ensures levels > 0 ==> Cut(at + [g], levels) == Cut(at, levels - 1)
    ensures Cut(Walk(at, ".."), levels) == Cut(at, levels + 1)
  {
    var down := at + [g];
    assert levels == 0 ==> down[..|down|] == down && at[..|at|] == at;
    assert levels > 0 ==> var n := if levels <= |down| then |down| - levels else 0; down[..n] == at[..n];
    if at != [] {
      var up := at[..|at| - 1];
      var n := if levels <= |up| then |up| - levels else 0;
      assert up[..n] == at[..n];
    }
  }

  lemma {:induction false} WalkIs(at: seq<string>, segments: seq<string>)
    ensures WalkAll(at, segments) == Cut(at, Climb(segments)) + Survivors(segments)
    decreases segments
  {
    hide Cut, StaysBelow;
    if segments == [] {
      CutStep(at, "", 0);
      assert at + [] == at;
    } else {
      var g, rest := segments[0], segments[1..];
      WalkIs(Walk(at, g), rest);
      BelowIff(rest);
      CutStep(at, g, Climb(rest));
      assert (at + [g]) + Survivors(rest) == at + ([g] + Survivors(rest));
      assert [] + Survivors(rest) == Survivors(rest);
    }
  }

  lemma BelowIff(segments: seq<string>)
    ensures StaysBelow(segments) <==> Climb(segments) == 0
  {
    hide Ups, Downs, Climb;
    ClimbIff(segments, 0);
    StaysIff(segments);
  }

  lemma StaysIff(segments: seq<string>)
    ensures StaysBelow(segments) <==>
              forall k | 0 <= k <= |segments| :: Ups(segments[..k]) <= Downs(segments[..k]) + 0
  {
  }

  /** The path part of the text. */
  function Head(path: string): string {
    path[..Find(path, '?')]
  }

  /** What a path with these surviving segments looks like, split at its slashes. */
  function Spelled(kept: seq<string>, slash: bool): seq<string> {
    [""] + (if kept == [] then [""] else kept) + (if slash then [""] else [])
  }

  /**
    The normalized path consists of exactly the segments that survive, in order, behind one slash, and
    ends in a slash iff the path did; the query is kept.
   */
  lemma NormalizeIs(path: string)
    ensures var n, head := Normalize(path), Head(path);
      && Segments(Head(n)) == Spelled(Survivors(Segments(head)), |head| > 1 && head[|head| - 1] == '/')
      && n == Head(n) + path[|head|..]
  {
    hide Survivors, Find, Segments, WalkAll, Join, Normalize, Kept;
    var n, head := Normalize(path), Head(path);
    NormalizeParts(path);
    NormalPathShape(head);
    WalkIs([], Segments(head));
    var kept := WalkAll([], Segments(head));
    assert kept == Survivors(Segments(head));
    NormalSplits(kept, |head| > 1 && head[|head| - 1] == '/');
    assert n == Head(n) + n[|Head(n)|..];
  }

  lemma NormalSplits(kept: seq<string>, slash: bool)
    requires AllKept(kept)
    ensures Segments("/" + (Join(kept) + if slash then "/" else "")) == Spelled(kept, slash)
  {
    hide Segments, Join;
    var rest := Join(kept) + if slash then "/" else "";
    SegmentsCons("", rest);
    assert "/" + rest == "" + ("/" + rest);
    if kept == [] {
      JoinNothing();
      SegmentsCons("", "");
      assert "" + ("/" + "") == "/" && "" + "/" == "/" && "" + "" == "";
    } else {
      SegmentsOfJoin(kept, slash);
      Assoc([""], kept, if slash then [""] else []);
    }
  }

  /** A text is told by what stands between its slashes. */
  lemma {:induction false} SegmentsTell(a: string, b: string)
    requires Segments(a) == Segments(b)
    ensures a == b
    decreases |a|
  {
    SegmentsAt(a);
    SegmentsAt(b);
    var i, j := Find(a, '/'), Find(b, '/');
    SegmentsSome(a);
    SegmentsSome(b);
    hide Segments, Find;
    if i == |a| {
      assert a[..|a|] == a && b[..|b|] == b;
    } else {
      assert Segments(a)[1..] == Segments(a[i + 1..]) && Segments(b)[1..] == Segments(b[j + 1..]);
      SegmentsTell(a[i + 1..], b[j + 1..]);
      assert a == a[..i] + (['/'] + a[i + 1..]) && b == b[..j] + (['/'] + b[j + 1..]);
    }
  }

  lemma SegmentsSome(s: string)
    ensures |Segments(s)| >= 1 && Segments(s)[0] == s[..Find(s, '/')]
    ensures |Segments(s)| == 1 <==> Find(s, '/') == |s|
  {
    var i := Find(s, '/');
    assert s[..|s|] == s;
    if i < |s| {
      SegmentsMany(s[i + 1..]);
    }
  }

  lemma SegmentsMany(s: string)
    ensures |Segments(s)| >= 1
  {
  }

  // ---- Redirects ------------------------------------------------------------------------------------

  lemma {:induction false} SegmentsJoined(a: string, b: string)
    ensures Segments(a + ("/" + b)) == Segments(a) + Segments(b)
    decreases |a|
  {
    var i := Find(a, '/');
    SegmentsAt(a);
    hide Segments;
    if i == |a| {
      SegmentsCons(a, b);
    } else {
      hide Find;
      var g, rest := a[..i], a[i + 1..];
      SegmentsJoined(rest, b);
      SegmentsCons(g, rest + ("/" + b));
      Regrouped(a, i, b);
      Assoc([g], Segments(rest), Segments(b));
    }
  }

  lemma Regrouped(a: string, i: nat, b: string)
    requires i < |a| && a[i] == '/'
    ensures a + ("/" + b) == a[..i] + ("/" + (a[i + 1..] + ("/" + b)))
  {
    var g, rest := a[..i], a[i + 1..];
    assert a == g + ("/" + rest);
    Assoc(g, "/" + rest, "/" + b);
    Assoc("/", rest, "/" + b);
  }

  /** A path is its directory and a last segment. */
  lemma {:induction false} DirectoryIs(path: string) returns (dir: string, last: string)
    requires '/' in path
    ensures Directory(path) == dir + "/" && path == dir + ("/" + last) && '/' !in last
  {
    var n := |path| - 1;
    if path[n] == '/' {
      dir, last := path[..n], "";
    } else {
      var front;
      dir, front := DirectoryIs(path[..n]);
      last := front + [path[n]];
      assert path == path[..n] + [path[n]] && path[..n] == dir + ("/" + front);
    }
  }

  lemma HeadTakes(s: string)
    ensures Head(s) <= s
  {
  }

  /** The head of a text is all of it, or what comes before its first question mark. */
  lemma HeadOf(head: string, query: string)
    requires '?' !in head && (query == "" || query[0] == '?')
    ensures Head(head + query) == head
  {
    FindFound(head, '?', if query == "" then "" else query[1..]);
    hide Find;
    if query == "" {
      assert head + query == head && head[..|head|] == head;
    } else {
      assert query == ['?'] + query[1..];
      assert (head + query)[..|head|] == head;
    }
  }

  lemma HeadOfJoined(dir: string, location: string)
    requires '?' !in dir
    ensures Head(dir + location) == dir + Head(location)
  {
    var q := Find(location, '?');
    var path, query := location[..q], location[q..];
    assert location == path + query;
    hide Find;
    HeadOf(dir + path, query);
    Assoc(dir, path, query);
  }

  /**
    A relative redirect replaces the last segment of the path it is met on by its own path, whose `..`
    lead up from there, and its own query replaces the old one.
   */
  lemma RelativeLeads(base: Url, location: string)
    requires PathText(base.pathAndQuery) && location != "" && location[0] != '/' && location[0] != '?'
    ensures var t, here, path := Target(base, location), Segments(Head(base.pathAndQuery)), Head(location);
      && path != "" && here != []
      && Segments(Head(t)) ==
           Spelled(Survivors(here[..|here| - 1] + Segments(path)), path[|path| - 1] == '/')
      && t == Head(t) + location[|path|..]
  {
    var part := PathPart(base.pathAndQuery);
    assert part[0] == '/';
    var dir, last := DirectoryIs(part);
    HeadFirst(location);
    HeadPlain(base.pathAndQuery, dir, last);
    SegmentsJoined(dir, last);
    SegmentsCons(last, "");
    HeadTakes(location);
    var path, query := Head(location), location[|Head(location)|..];
    hide Segments, Survivors, Find, Normalize, Directory, Spelled, Head;
    assert path + query == location;
    UnderDirectory(dir, path, query);
    var here := Segments(Head(base.pathAndQuery));
    assert here[..|here| - 1] == Segments(dir);
    assert Target(base, location) == Normalize((dir + "/") + location) by {
      TargetThere(base, location, dir);
    }
  }

  lemma TargetThere(base: Url, location: string, dir: string)
    requires location != "" && location[0] != '/' && location[0] != '?'
    requires Directory(PathPart(base.pathAndQuery)) == dir + "/"
    ensures Target(base, location) == Normalize((dir + "/") + location)
  {
    hide Normalize, Directory, PathPart;
  }

  lemma UnderDirectory(dir: string, path: string, query: string)
    requires '?' !in dir + "/" && path != "" && Head(path + query) == path
    ensures var n := Normalize((dir + "/") + (path + query));
      && Segments(Head(n)) == Spelled(Survivors(Segments(dir) + Segments(path)), path[|path| - 1] == '/')
      && n == Head(n) + query
  {
    hide Segments, Survivors, Normalize, Spelled, Head, Find;
    var base := dir + "/";
    HeadOfJoined(base, path + query);
    SegmentsJoined(dir, path);
    Assoc(dir, "/", path);
    Assoc(base, path, query);
    NormalizeParted(base + (path + query), base + path, query);
    LastOf(base, path);
  }

  lemma LastOf(a: string, b: string)
    requires a != "" && b != ""
    ensures |a + b| > 1 && (a + b)[|a + b| - 1] == b[|b| - 1]
  {
  }

  lemma NormalizeParted(path: string, head: string, query: string)
    requires path == head + query && Head(path) == head
    ensures var n := Normalize(path);
      && Segments(Head(n)) == Spelled(Survivors(Segments(head)), |head| > 1 && head[|head| - 1] == '/')
      && n == Head(n) + query
  {
    hide Segments, Survivors, Normalize, Spelled, Head;
    NormalizeIs(path);
    assert path[|head|..] == query;
  }

  lemma HeadPlain(path: string, dir: string, last: string)
    requires PathPart(path) == dir + ("/" + last)
    ensures '?' !in dir + "/" && Head(path) == dir + ("/" + last)
  {
    forall c | c in dir + "/"
      ensures c != '?'
    {
      assert c in PathPart(path);
    }
  }

  lemma HeadFirst(location: string)
    requires location != "" && location[0] != '?'
    ensures Head(location) != ""
  {
  }

  /** A redirect to a query alone keeps the path; one that starts with a slash is itself the path. */
  lemma RootedLeads(base: Url, location: string)
    requires location != "" && (location[0] == '?' || location[0] == '/')
    ensures location[0] == '?' ==> Target(base, location) == Head(base.pathAndQuery) + location
    ensures location[0] == '/' ==>
              var t, path := Target(base, location), Head(location);
              && Segments(Head(t)) ==
                   Spelled(Survivors(Segments(path)), |path| > 1 && path[|path| - 1] == '/')
              && t == Head(t) + location[|path|..]
  {
    hide Segments, Survivors, Normalize, Spelled;
    NormalizeIs(location);
  }

  /**
    A redirect is refused exactly when it is empty, unclean or has a fragment; one that names another
    authority behind two slashes leads there under the same scheme, one with a scheme wherever it says.
   */
  lemma RedirectLeads(canon: Canon, base: Url, to: Url, path: string)
    requires Lawful(canon) && Parsed(canon, to) && PathText(path)
    ensures Resolve(base, Origin(to) + path) == Some(Origin(to) + path)
    ensures Parse(canon, Origin(to) + path) == Some(to.(pathAndQuery := path))
    ensures to.scheme == base.scheme && SchemeEnd("//" + (Authority(to) + path)).None? ==>
              Resolve(base, "//" + (Authority(to) + path)) == Some(Origin(to) + path)
  {
    FullClean(canon, to, path);
    PrintedParses(canon, to, path);
    Rooted(to.scheme, Authority(to), path);
    hide Parse, Parsed, SchemeEnd, CleanText, Target, Authority;
  }

  lemma Rooted(scheme: string, authority: string, path: string)
    ensures var location := "//" + (authority + path);
      && |location| > 1 && location[0] == '/' && location[1] == '/'
      && scheme + (":" + location) == (scheme + ("://" + authority)) + path
  {
    assert ":" + "//" == "://";
    Assoc(":", "//", authority + path);
    Assoc(scheme, "://" + authority, path);
    Assoc("://", authority, path);
  }

  lemma FullClean(canon: Canon, u: Url, path: string)
    requires Lawful(canon) && Parsed(canon, u) && PathText(path)
    ensures CleanText(Origin(u) + path) && SchemeEnd(Origin(u) + path).Some? && Origin(u) + path != ""
    ensures CleanText("//" + (Authority(u) + path))
  {
    AuthorityReads(canon, u);
    hide ParseAuthority, Authority, ValidName, Lawful, AuthorityEnd, Lower;
    OriginClean(u.scheme, Authority(u), path);
  }

  lemma OriginClean(scheme: string, authority: string, path: string)
    requires (scheme == "https" || scheme == "http") && PathText(path)
    requires CleanText(authority) && forall c <- authority :: !EndsAuthority(c)
    ensures var text := scheme + ("://" + authority) + path; CleanText(text) && SchemeEnd(text).Some? && text != ""
    ensures CleanText("//" + (authority + path))
  {
    PrintedSeams(scheme, authority, path);
    SlashesClean();
    hide EndsAuthority, SchemeEnd, AuthorityEnd, Lower;
    CleanConcat(authority, path);
    CleanConcat("//", authority + path);
  }

  lemma SlashesClean()
    ensures CleanText("//")
  {
  }

  lemma RefusedIff(base: Url, location: string)
    ensures Resolve(base, location).None? <==>
              location == "" || exists c <- location :: c as int <= 32 || c == '\U{007F}' || c == '\\' || c == '#'
  {
  }
}
