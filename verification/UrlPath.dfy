/** Path normalization, and redirects that stay within an origin. */
module UrlPath {
  import opened Base
  import opened ExternalUrl

  /** What stands between the slashes, empty pieces included. */
  function Segments(s: string): seq<string>
    decreases |s|
  {
    var i := Find(s, '/');
    if i == |s| then [s] else [s[..i]] + Segments(s[i + 1..])
  }

  /** One segment met on the way down a path. */
  function Walk(at: seq<string>, segment: string): seq<string> {
    if segment == "" || segment == "." then at
    else if segment == ".." then (if at == [] then at else at[..|at| - 1])
    else at + [segment]
  }

  function WalkAll(at: seq<string>, segments: seq<string>): seq<string>
    decreases segments
  {
    if segments == [] then at else WalkAll(Walk(at, segments[0]), segments[1..])
  }

  function Join(segments: seq<string>): string {
    if segments == [] then ""
    else if |segments| == 1 then segments[0]
    else segments[0] + ("/" + Join(segments[1..]))
  }

  function TrailingSlash(path: string): string {
    if |path| > 1 && path[|path| - 1] == '/' then "/" else ""
  }

  function NormalPath(path: string): string {
    "/" + (Join(WalkAll([], Segments(path))) + TrailingSlash(path))
  }

  /** `normalize_path`: the path part is normalized, the query rides along. */
  function Normalize(path: string): string {
    var query := Find(path, '?');
    NormalPath(path[..query]) + path[query..]
  }

  method NormalizePath(path: string) returns (normalized: string)
    ensures normalized == Normalize(path)
  {
    hide Walk, Find, TrailingSlash;
    var query := Find(path, '?');
    var suffix := path[query..];
    var head := path[..query];
    var segments: seq<string> := [];
    var input := head;
    ghost var goal := WalkAll([], Segments(head));
    while true
      invariant WalkAll(segments, Segments(input)) == goal
      decreases |input|
    {
      var slash := Find(input, '/');
      var segment := input[..slash];
      WalkFirst(segments, input);
      segments := Walk(segments, segment);
      if slash == |input| {
        break;
      }
      input := input[slash + 1..];
    }
    var joined := JoinLoop(segments);
    normalized := "/" + joined + TrailingSlash(head) + suffix;
    assert "/" + joined + TrailingSlash(head) == "/" + (joined + TrailingSlash(head));
  }

  lemma WalkFirst(at: seq<string>, s: string)
    ensures var i := Find(s, '/');
      WalkAll(at, Segments(s)) == if i == |s| then Walk(at, s[..i]) else WalkAll(Walk(at, s[..i]), Segments(s[i + 1..]))
  {
    hide Walk, Find;
    var i := Find(s, '/');
    if i == |s| {
      assert s[..i] == s && [s][1..] == [];
    } else {
      assert ([s[..i]] + Segments(s[i + 1..]))[1..] == Segments(s[i + 1..]);
    }
  }

  /** What is still to be joined from segment `i` on, its separator included. */
  function Joint(segments: seq<string>, i: nat): string
    requires i <= |segments|
  {
    if i == |segments| then "" else (if i > 0 then "/" else "") + Join(segments[i..])
  }

  lemma JointStep(segments: seq<string>, i: nat)
    requires i < |segments|
    ensures Joint(segments, i) == (if i > 0 then "/" else "") + (segments[i] + Joint(segments, i + 1))
  {
    assert segments[i..][1..] == segments[i + 1..] && segments[i] + "" == segments[i];
  }

  method JoinLoop(segments: seq<string>) returns (joined: string)
    ensures joined == Join(segments)
  {
    hide Join;
    joined := "";
    var i := 0;
    assert segments[0..] == segments;
    JoinNothing();
    while i < |segments|
      invariant 0 <= i <= |segments|
      invariant joined + Joint(segments, i) == Join(segments)
    {
      JointStep(segments, i);
      Assoc(joined, if i > 0 then "/" else "", segments[i] + Joint(segments, i + 1));
      if i > 0 {
        joined := joined + "/";
      }
      Assoc(joined, segments[i], Joint(segments, i + 1));
      joined := joined + segments[i];
      i := i + 1;
    }
  }

  // ---- What normalization leaves --------------------------------------------------------------------

  /** A segment worth keeping. */
  predicate Kept(segment: string) {
    segment != "" && segment != "." && segment != ".." && '/' !in segment && '?' !in segment
  }

  predicate AllKept(segments: seq<string>) {
    forall s <- segments :: Kept(s)
  }

  lemma {:induction false} SegmentsPlain(s: string)
    requires '?' !in s
    ensures Segments(s) != [] && forall g <- Segments(s) :: '/' !in g && '?' !in g
    decreases |s|
  {
    var i := Find(s, '/');
    if i < |s| {
      SegmentsPlain(s[i + 1..]);
      assert '/' !in s[..i] && '?' !in s[..i];
    }
  }

  lemma {:induction false} WalkKeeps(at: seq<string>, segments: seq<string>)
    requires AllKept(at) && forall g <- segments :: '/' !in g && '?' !in g
    ensures AllKept(WalkAll(at, segments))
    decreases segments
  {
    if segments != [] {
      assert segments[0] in segments && forall g <- segments[1..] :: g in segments;
      assert at != [] ==> forall g <- at[..|at| - 1] :: g in at;
      WalkKeeps(Walk(at, segments[0]), segments[1..]);
    }
  }

  lemma {:induction false} WalkKept(at: seq<string>, segments: seq<string>)
    requires AllKept(segments)
    ensures WalkAll(at, segments) == at + segments
    decreases segments
  {
    if segments != [] {
      assert Kept(segments[0]) && forall g <- segments[1..] :: g in segments;
      WalkKept(at + [segments[0]], segments[1..]);
      assert (at + [segments[0]]) + segments[1..] == at + segments;
    }
  }

  lemma {:induction false} WalkAppend(at: seq<string>, a: seq<string>, b: seq<string>)
    ensures WalkAll(at, a + b) == WalkAll(WalkAll(at, a), b)
    decreases a
  {
    hide Walk;
    if a == [] {
      assert a + b == b;
    } else {
      assert (a + b)[1..] == a[1..] + b;
      WalkAppend(Walk(at, a[0]), a[1..], b);
    }
  }

  lemma SegmentsCons(g: string, rest: string)
    requires '/' !in g
    ensures Segments(g + ("/" + rest)) == [g] + Segments(rest)
    ensures Segments(g) == [g]
  {
    FindFound(g, '/', rest);
    hide Find;
    var s := g + (['/'] + rest);
    assert s == g + ("/" + rest) && s[..|g|] == g && s[|g| + 1..] == rest;
    SegmentsAt(s);
    SegmentsAt(g);
    hide Segments;
  }

  lemma SegmentsAt(s: string)
    ensures var i := Find(s, '/');
      Segments(s) == if i == |s| then [s] else [s[..i]] + Segments(s[i + 1..])
  {
    hide Find;
  }

  lemma {:induction false} SegmentsOfJoin(segments: seq<string>, slash: bool)
    requires segments != [] && AllKept(segments)
    ensures Segments(Join(segments) + if slash then "/" else "") == segments + if slash then [""] else []
  {
    hide Segments;
    var g, tail := segments[0], if slash then "/" else "";
    assert Kept(g) && segments == [g] + segments[1..];
    if |segments| == 1 {
      SegmentsCons(g, "");
      SegmentsCons("", "");
      assert g + "" == g && g + ("/" + "") == g + "/";
    } else {
      assert forall x <- segments[1..] :: x in segments;
      var rest := Join(segments[1..]) + tail;
      SegmentsOfJoin(segments[1..], slash);
      SegmentsCons(g, rest);
      assert Join(segments) + tail == g + ("/" + rest);
    }
  }

  /** The pieces of a normalized path: nothing, its segments, and nothing again after a trailing slash. */
  lemma SegmentsOfNormal(segments: seq<string>, slash: bool)
    requires AllKept(segments)
    ensures var n := "/" + (Join(segments) + if slash then "/" else "");
      && (forall g <- Segments(n) :: g == "" || g in segments)
      && WalkAll([], Segments(n)) == segments
  {
    hide Segments, WalkAll, Join;
    var tail := if slash then "/" else "";
    var rest := Join(segments) + tail;
    var n := "/" + rest;
    SegmentsCons("", rest);
    assert n == "" + ("/" + rest);
    EmptyWalks([], segments);
    if segments == [] {
      JoinNothing();
      SegmentsCons("", "");
      assert rest == tail && "" + ("/" + "") == "/";
      assert Segments(n) == if slash then ["", "", ""] else ["", ""];
    } else {
      SegmentsOfJoin(segments, slash);
      WalkAppend([], [""] + segments, if slash then [""] else []);
      WalkAppend([], [""], segments);
      assert WalkAll([], [""] + segments) == segments;
      assert [""] + (segments + if slash then [""] else []) == ([""] + segments) + if slash then [""] else [];
    }
  }

  lemma JoinNothing()
    ensures Join([]) == ""
  {
  }

  lemma EmptyWalks(at: seq<string>, segments: seq<string>)
    requires AllKept(segments)
    ensures WalkAll(at, [""]) == at && WalkAll(at, []) == at && WalkAll(at, ["", ""]) == at
        && WalkAll(at, ["", "", ""]) == at
    ensures WalkAll(segments, [""]) == segments && WalkAll(segments, []) == segments
    ensures WalkAll([], segments) == segments
  {
    WalkKept([], segments);
    assert [""][1..] == [] && ["", ""][1..] == [""] && ["", "", ""][1..] == ["", ""];
    assert [] + segments == segments;
  }

  lemma {:induction false} JoinPlain(segments: seq<string>)
    requires AllKept(segments)
    ensures '?' !in Join(segments)
    ensures segments != [] ==> Join(segments) != "" && Join(segments)[|Join(segments)| - 1] != '/'
  {
    if segments != [] {
      assert Kept(segments[0]) && forall x <- segments[1..] :: x in segments;
      JoinPlain(segments[1..]);
    }
  }

  lemma NormalPathShape(path: string)
    requires '?' !in path
    ensures AllKept(WalkAll([], Segments(path)))
    ensures '?' !in NormalPath(path) && TrailingSlash(NormalPath(path)) == TrailingSlash(path)
  {
    SegmentsPlain(path);
    WalkKeeps([], Segments(path));
    hide Segments, WalkAll, Kept;
    var segments := WalkAll([], Segments(path));
    JoinPlain(segments);
    JoinNothing();
    hide Join;
    var joined, tail := Join(segments), TrailingSlash(path);
    var n := "/" + (joined + tail);
    assert |tail| == 1 ==> n[|n| - 1] == '/';
    assert |tail| == 0 && joined != "" ==> n[|n| - 1] == joined[|joined| - 1];
  }

  /** Normalizing leaves no `.` and no `..` segment. */
  lemma NoDotSegments(path: string)
    ensures var n := Normalize(path);
      forall g <- Segments(n[..Find(n, '?')]) :: g != "." && g != ".."
  {
    var head := path[..Find(path, '?')];
    NormalizeParts(path);
    NormalPathShape(head);
    hide Normalize, Find, Segments, Join, WalkAll;
    var segments := WalkAll([], Segments(head));
    SegmentsOfNormal(segments, TrailingSlash(head) == "/");
    var n := Normalize(path);
    assert n[..Find(n, '?')] == "/" + (Join(segments) + if TrailingSlash(head) == "/" then "/" else "");
    forall g | g in Segments(n[..Find(n, '?')]) ensures g != "." && g != ".." {
      assert g == "" || Kept(g);
    }
  }

  /** The normalized path and the query come apart where they were put together: the query is kept verbatim. */
  lemma NormalizeParts(path: string)
    ensures var n := Normalize(path);
      && n[..Find(n, '?')] == NormalPath(path[..Find(path, '?')])
      && n[Find(n, '?')..] == path[Find(path, '?')..]
  {
    var q := Find(path, '?');
    var head, query := path[..q], path[q..];
    NormalPathShape(head);
    hide NormalPath;
    var p := NormalPath(head);
    if query == "" {
      FindFound(p, '?', "");
      assert p + query == p;
    } else {
      FindFound(p, '?', query[1..]);
      assert query == ['?'] + query[1..];
    }
  }

  /** Normalizing twice is normalizing once. */
  lemma NormalizeIdempotent(path: string)
    ensures Normalize(Normalize(path)) == Normalize(path)
  {
    NormalizeParts(path);
    var head := path[..Find(path, '?')];
    NormalPathIdempotent(head);
    hide NormalPath, Find;
  }

  lemma NormalPathIdempotent(path: string)
    requires '?' !in path
    ensures NormalPath(NormalPath(path)) == NormalPath(path)
  {
    NormalPathShape(path);
    hide Segments, WalkAll, Join, AllKept;
    SegmentsOfNormal(WalkAll([], Segments(path)), TrailingSlash(path) == "/");
  }

  // ---- Redirects ------------------------------------------------------------------------------------

  /** Up to and including the last slash. */
  function Directory(path: string): string {
    if path == "" || path[|path| - 1] == '/' then path else Directory(path[..|path| - 1])
  }

  function PathPart(path: string): string {
    path[..Find(path, '?')]
  }

  /** `resolve_redirect`; `None` for a target that is empty, has a forbidden character or a fragment. */
  function Resolve(base: Url, location: string): Option<string> {
    if location == "" || !CleanText(location) then None
    else if SchemeEnd(location).Some? then Some(location)
    else if |location| > 1 && location[0] == '/' && location[1] == '/' then Some(base.scheme + (":" + location))
    else Some(Origin(base) + Target(base, location))
  }

  /** Where a relative redirect leads within the origin. */
  function Target(base: Url, location: string): string
    requires location != ""
  {
    if location[0] == '/' then Normalize(location)
    else if location[0] == '?' then PathPart(base.pathAndQuery) + location
    else
      var dir := Directory(PathPart(base.pathAndQuery));
      Normalize((if dir == "" then "/" else dir) + location)
  }

  lemma {:induction false} SegmentsClean(s: string)
    requires CleanText(s)
    ensures forall g <- Segments(s) :: CleanText(g)
    decreases |s|
  {
    var i := Find(s, '/');
    if i < |s| {
      assert s == s[..i] + s[i..] && s == s[..i + 1] + s[i + 1..];
      CleanConcat(s[..i], s[i..]);
      CleanConcat(s[..i + 1], s[i + 1..]);
      SegmentsClean(s[i + 1..]);
    }
  }

  lemma {:induction false} WalkClean(at: seq<string>, segments: seq<string>)
    requires (forall g <- at :: CleanText(g)) && (forall g <- segments :: CleanText(g))
    ensures forall g <- WalkAll(at, segments) :: CleanText(g)
    decreases segments
  {
    hide CleanText;
    if segments != [] {
      assert segments[0] in segments && forall g <- segments[1..] :: g in segments;
      assert at != [] ==> forall g <- at[..|at| - 1] :: g in at;
      WalkClean(Walk(at, segments[0]), segments[1..]);
    }
  }

  lemma {:induction false} JoinClean(segments: seq<string>)
    requires forall g <- segments :: CleanText(g)
    ensures CleanText(Join(segments))
  {
    if segments != [] {
      assert segments[0] in segments && forall g <- segments[1..] :: g in segments;
      JoinClean(segments[1..]);
      CleanConcat("/", Join(segments[1..]));
      CleanConcat(segments[0], "/" + Join(segments[1..]));
    }
  }

  lemma NormalizePathText(path: string)
    requires CleanText(path)
    ensures PathText(Normalize(path))
  {
    var q := Find(path, '?');
    var head := path[..q];
    assert path == head + path[q..];
    CleanConcat(head, path[q..]);
    SegmentsClean(head);
    WalkClean([], Segments(head));
    var joined := Join(WalkAll([], Segments(head)));
    JoinClean(WalkAll([], Segments(head)));
    hide Segments, WalkAll, Join, Find;
    assert CleanText(TrailingSlash(head)) && CleanText("/");
    CleanConcat(joined, TrailingSlash(head));
    CleanConcat("/", joined + TrailingSlash(head));
    CleanConcat(NormalPath(head), path[q..]);
  }

  lemma {:induction false} DirectoryTakes(path: string)
    ensures |Directory(path)| <= |path| && Directory(path) == path[..|Directory(path)|]
  {
    if path != "" && path[|path| - 1] != '/' {
      DirectoryTakes(path[..|path| - 1]);
    } else {
      assert path[..|path|] == path;
    }
  }

  lemma TargetIsPath(base: Url, location: string)
    requires PathText(base.pathAndQuery) && location != "" && CleanText(location)
    ensures PathText(Target(base, location))
  {
    var path := base.pathAndQuery;
    var part := PathPart(path);
    var dir := Directory(part);
    DirectoryTakes(part);
    assert path == part + path[|part|..] && part == dir + part[|dir|..];
    CleanConcat(part, path[|part|..]);
    CleanConcat(dir, part[|dir|..]);
    CleanConcat(part, location);
    CleanConcat(if dir == "" then "/" else dir, location);
    hide Normalize, Directory, CleanText;
    if location[0] == '/' {
      NormalizePathText(location);
    } else if location[0] != '?' {
      assert CleanText("/") by {
        CleanSlash();
      }
      NormalizePathText((if dir == "" then "/" else dir) + location);
    }
  }

  lemma CleanSlash()
    ensures CleanText("/")
  {
  }

  /** A redirect that names no authority of its own leads back to the same scheme, host and port. */
  lemma RelativeRedirectKeepsOrigin(canon: Canon, base: Url, location: string)
    requires Lawful(canon) && Parsed(canon, base)
    requires location != "" && CleanText(location) && SchemeEnd(location).None?
    requires !(|location| > 1 && location[0] == '/' && location[1] == '/')
    ensures Resolve(base, location).Some?
    ensures Parse(canon, Resolve(base, location).value) == Some(base.(pathAndQuery := Target(base, location)))
  {
    TargetIsPath(base, location);
    PrintedParses(canon, base, Target(base, location));
    hide Target, Parse, Origin;
  }
}
