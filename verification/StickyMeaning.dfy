/**
  What a sticky view carries, read off the responses it committed: the last token it was given, and of
  every echo name the last value, since it was last told to forget.
 */
module StickyMeaning {
  import opened Base
  import opened StickySession

  /** What a change tells the view, piece by piece. */
  datatype Event = Forget | Token(text: string) | Entry(name: string, value: string)

  function Entries(headers: seq<Header>): seq<Event> {
    if headers == [] then []
    else
      var lowered := Lower(headers[0].name);
      (if "vgi-echo-" <= lowered then [Entry(lowered[9..], headers[0].value)] else []) + Entries(headers[1..])
  }

  function Told(r: Response): seq<Event> {
    (if r.token == "" then [] else [Token(r.token)]) + Entries(r.headers) + (if r.close then [Forget] else [])
  }

  function Events(changes: seq<Change>): seq<Event> {
    if changes == [] then []
    else
      var last := changes[|changes| - 1];
      Events(changes[..|changes| - 1]) + if last.Clear? then [Forget] else Told(last.from)
  }

  // ---- What they leave -----------------------------------------------------------------------------------

  /** Nothing after `i` concerns the token. */
  ghost predicate LastWord(events: seq<Event>, i: int) {
    0 <= i < |events| && !events[i].Entry? && forall j | i < j < |events| :: events[j].Entry?
  }

  /** The token is the last one given, none if the view was told to forget since, and the seed's if neither happened. */
  ghost predicate TokenIs(seed: Option<string>, events: seq<Event>, token: Option<string>) {
    && (forall i | LastWord(events, i) :: token == if events[i].Token? then Some(events[i].text) else None)
    && ((forall e <- events :: e.Entry?) ==> token == seed)
  }

  /** An entry given at `i`, and its name not again nor everything forgotten since. */
  ghost predicate Stands(events: seq<Event>, i: int, h: Header) {
    && 0 <= i < |events| && events[i] == Entry(h.name, h.value)
    && forall j | i < j < |events| :: !events[j].Forget? && !(events[j].Entry? && events[j].name == h.name)
  }

  /** Nothing was forgotten, and nothing replaced this name in any spelling. */
  ghost predicate Untouched(events: seq<Event>, h: Header) {
    forall e <- events :: !e.Forget? && !(e.Entry? && e.name == Lower(h.name))
  }

  ghost predicate EchoIs(seed: Echo, events: seq<Event>, echo: Echo) {
    forall h :: h in echo <==> (exists i :: Stands(events, i, h)) || (h in seed && Untouched(events, h))
  }

  ghost predicate Means(seed: Carried, events: seq<Event>, c: Carried) {
    TokenIs(seed.token, events, c.token) && EchoIs(seed.echo, events, c.echo)
  }

  /** Names are given in lower case. */
  ghost predicate Lowered(events: seq<Event>) {
    forall e <- events :: e.Entry? ==> Lower(e.name) == e.name
  }

  // ---- One event after another -----------------------------------------------------------------------------

  lemma {:induction false} LowerAgain(s: string)
    ensures Lower(Lower(s)) == Lower(s)
  {
    if s != "" {
      LowerAgain(s[1..]);
      assert Lower(s)[1..] == Lower(s[1..]);
    }
  }

  lemma {:induction false} LowerFrom(s: string, k: nat)
    requires k <= |s|
    ensures Lower(s)[k..] == Lower(s[k..])
  {
    if k > 0 {
      LowerFrom(s[1..], k - 1);
      assert s[k..] == s[1..][k - 1..] && Lower(s)[k..] == Lower(s)[1..][k - 1..];
      assert Lower(s)[1..] == Lower(s[1..]);
    }
  }

  lemma TokenNext(seed: Option<string>, events: seq<Event>, token: Option<string>, e: Event)
    requires TokenIs(seed, events, token)
    ensures TokenIs(seed, events + [e], match e case Forget => None case Token(text) => Some(text) case Entry(_,
        _) => token)
  {
    var all := events + [e];
    assert all[|events|] == e && forall i | 0 <= i < |events| :: all[i] == events[i];
    forall i | LastWord(all, i)
      ensures if e.Entry? then LastWord(events, i) else i == |events|
    {
      assert i < |events| ==> all[|events|].Entry?;
    }
    if forall x <- all :: x.Entry? {
      assert forall x <- events :: x in all;
      assert e in all;
    }
  }

  lemma StandsNext(events: seq<Event>, e: Event, h: Header)
    ensures (exists i :: Stands(events + [e], i, h)) <==>
              || e == Entry(h.name, h.value)
              || (!e.Forget? && !(e.Entry? && e.name == h.name) && exists i :: Stands(events, i, h))
    ensures Untouched(events + [e], h) <==>
              Untouched(events, h) && !e.Forget? && !(e.Entry? && e.name == Lower(h.name))
  {
    var all := events + [e];
    assert all[|events|] == e && forall i | 0 <= i < |events| :: all[i] == events[i];
    if i :| Stands(all, i, h) {
      assert i < |events| ==> Stands(events, i, h);
    }
    if e == Entry(h.name, h.value) {
      assert Stands(all, |events|, h);
    } else if i :| Stands(events, i, h) && !e.Forget? && !(e.Entry? && e.name == h.name) {
      assert Stands(all, i, h);
    }
    assert forall x :: x in all <==> x in events || x == e;
  }

  lemma EchoNext(seed: Echo, events: seq<Event>, echo: Echo, n: string, v: string)
    requires EchoIs(seed, events, echo) && Lowered(events) && Lower(n) == n
    ensures EchoIs(seed, events + [Entry(n, v)], Put(echo, Header(n, v)))
    ensures Lowered(events + [Entry(n, v)])
  {
    var h, e := Header(n, v), Entry(n, v);
    WithoutKeeps(echo, Lower(n));
    forall g
      ensures g in Put(echo, h) <==>
                (exists i :: Stands(events + [e], i, g)) || (g in seed && Untouched(events + [e], g))
    {
      StandsNext(events, e, g);
      assert g in Put(echo, h) <==> g == h || (g in echo && Lower(g.name) != n);
      if i :| Stands(events, i, g) {
        assert events[i] in events;
      }
    }
  }

  lemma {:induction false} EntriesMean(ok: Policy, seed: Echo, events: seq<Event>, echo: Echo, headers: seq<Header>)
    requires EchoIs(seed, events, echo) && Lowered(events) && StageEcho(ok, echo, headers).Some?
    ensures EchoIs(seed, events + Entries(headers), StageEcho(ok, echo, headers).value)
    ensures Lowered(events + Entries(headers))
    decreases headers
  {
    hide EchoIs, Lowered, Put, Admissible;
    if headers == [] {
      assert events + [] == events;
    } else {
      EchoName(headers[0]);
      var rest := Entries(headers[1..]);
      if IsEcho(headers[0].name) {
        var h := Replayed(headers[0]);
        EchoNext(seed, events, echo, h.name, h.value);
        EntriesMean(ok, seed, events + [Entry(h.name, h.value)], Put(echo, h), headers[1..]);
        Assoc(events, [Entry(h.name, h.value)], rest);
      } else {
        EntriesMean(ok, seed, events, echo, headers[1..]);
        assert [] + rest == rest;
      }
    }
  }

  lemma EchoName(h: Header)
    ensures IsEcho(h.name) <==> "vgi-echo-" <= Lower(h.name)
    ensures IsEcho(h.name) ==>
              && Replayed(h) == Header(Lower(h.name)[9..], h.value)
              && Lower(Lower(h.name)[9..]) == Lower(h.name)[9..]
  {
    assert |ECHO_PREFIX| == 9;
    if |h.name| >= 9 {
      LowerFrom(h.name, 9);
      LowerAgain(h.name[9..]);
    }
  }

  lemma {:induction false} EntriesAreEntries(headers: seq<Header>)
    ensures forall e <- Entries(headers) :: e.Entry?
  {
    if headers != [] {
      EntriesAreEntries(headers[1..]);
    }
  }

  lemma {:induction false} TokenAcross(seed: Option<string>, events: seq<Event>, token: Option<string>,
                                       entries: seq<Event>)
    requires TokenIs(seed, events, token) && forall e <- entries :: e.Entry?
    ensures TokenIs(seed, events + entries, token)
    decreases |entries|
  {
    hide TokenIs;
    if entries == [] {
      assert events + entries == events;
    } else {
      assert entries[0] in entries && forall e <- entries[1..] :: e in entries;
      TokenNext(seed, events, token, entries[0]);
      TokenAcross(seed, events + [entries[0]], token, entries[1..]);
      assert events + entries == events + [entries[0]] + entries[1..];
    }
  }

  /** A token by itself changes no entry. */
  lemma EchoPast(seed: Echo, events: seq<Event>, echo: Echo, text: string)
    requires EchoIs(seed, events, echo) && Lowered(events)
    ensures EchoIs(seed, events + [Token(text)], echo) && Lowered(events + [Token(text)])
  {
    forall h
      ensures h in echo <==>
                (exists i :: Stands(events + [Token(text)], i, h))
                    || (h in seed && Untouched(events + [Token(text)], h))
    {
      StandsNext(events, Token(text), h);
    }
  }

  lemma EchoForgotten(seed: Echo, events: seq<Event>)
    requires Lowered(events)
    ensures EchoIs(seed, events + [Forget], []) && Lowered(events + [Forget])
  {
    forall h
      ensures h !in [] && !(exists i :: Stands(events + [Forget], i, h)) && !Untouched(events + [Forget], h)
    {
      StandsNext(events, Forget, h);
    }
    assert forall e <- events + [Forget] :: e in events || e == Forget;
  }

  lemma Forgets(seed: Carried, events: seq<Event>, c: Carried)
    requires Means(seed, events, c) && Lowered(events)
    ensures Means(seed, events + [Forget], Carried(None, [])) && Lowered(events + [Forget])
  {
    hide TokenIs, EchoIs, Lowered;
    TokenNext(seed.token, events, c.token, Forget);
    EchoForgotten(seed.echo, events);
  }

  /** Staging a response tells the view just what the response says. */
  lemma StageMeans(ok: Policy, seed: Carried, events: seq<Event>, c: Carried, r: Response)
    requires Means(seed, events, c) && Lowered(events) && Stage(ok, c, r).Some?
    ensures Means(seed, events + Told(r), Stage(ok, c, r).value) && Lowered(events + Told(r))
  {
    hide TokenIs, EchoIs, Lowered, StageEcho, Entries, Bounded;
    var first: seq<Event> := if r.token == "" then [] else [Token(r.token)];
    var token := if r.token == "" then c.token else Some(r.token);
    var entries := Entries(r.headers);
    if r.token == "" {
      assert events + first == events;
    } else {
      TokenNext(seed.token, events, c.token, Token(r.token));
      EchoPast(seed.echo, events, c.echo, r.token);
    }
    EntriesMean(ok, seed.echo, events + first, c.echo, r.headers);
    EntriesAreEntries(r.headers);
    TokenAcross(seed.token, events + first, token, entries);
    var told := events + first + entries;
    var staged := Carried(token, StageEcho(ok, c.echo, r.headers).value);
    if r.close {
      Forgets(seed, told, staged);
      assert events + Told(r) == told + [Forget];
    } else {
      assert events + Told(r) == told;
    }
  }

  lemma StartMeans(seed: Carried)
    ensures Means(seed, [], seed) && Lowered([])
  {
  }

  lemma {:induction false} FoldMeans(ok: Policy, seed: Carried, changes: seq<Change>)
    requires Fold(ok, seed, changes).Some?
    ensures Means(seed, Events(changes), Fold(ok, seed, changes).value) && Lowered(Events(changes))
    decreases |changes|
  {
    hide Means, Lowered, Stage, Told;
    if changes == [] {
      StartMeans(seed);
    } else {
      var before := changes[..|changes| - 1];
      FoldMeans(ok, seed, before);
      var c := Fold(ok, seed, before).value;
      match changes[|changes| - 1]
      case Clear => Forgets(seed, Events(before), c);
      case Commit(from) => StageMeans(ok, seed, Events(before), c, from);
    }
  }

  /**
    Over every run, what the view carries, and what every request that left carried, is the last token
    and the last value of every echo name among the changes committed by then.
   */
  lemma CarriesTheLastWord(ok: Policy, run: seq<State>, i: nat)
    requires Run(ok, run) && i < |run|
    ensures Means(run[i].seed, Events(run[i].changes), run[i].carried)
    ensures forall r <- run[i].requests ::
              r.version <= |run[i].changes| && Means(run[i].seed, Events(run[i].changes[..r.version]), r.carried)
  {
    hide Means, Events, Fold;
    Serialized(ok, run, i);
    FoldMeans(ok, run[i].seed, run[i].changes);
    forall r | r in run[i].requests
      ensures r.version <= |run[i].changes| && Means(run[i].seed, Events(run[i].changes[..r.version]), r.carried)
    {
      FoldMeans(ok, run[i].seed, run[i].changes[..r.version]);
    }
  }

  // ---- What cannot be staged -------------------------------------------------------------------------------

  /** A response header that may be echoed: short enough, accepted by the transport, and no credential. */
  predicate Echoable(ok: Policy, h: Header)
    requires "vgi-echo-" <= Lower(h.name)
  {
    var name := Lower(h.name)[9..];
    && |name| <= 1024 && |h.value| <= 8192 && ok(Header(name, h.value))
    && name != "authorization" && name != "cookie" && name != "proxy-authorization"
  }

  lemma {:induction false} StageEchoIff(ok: Policy, echo: Echo, headers: seq<Header>)
    ensures StageEcho(ok, echo, headers).Some? <==>
              forall h <- headers :: "vgi-echo-" <= Lower(h.name) ==> Echoable(ok, h)
    decreases headers
  {
    hide Put;
    if headers != [] {
      var h := headers[0];
      EchoName(h);
      assert forall g :: g in headers <==> g == h || g in headers[1..];
      if IsEcho(h.name) {
        StageEchoIff(ok, Put(echo, Replayed(h)), headers[1..]);
      } else {
        StageEchoIff(ok, echo, headers[1..]);
      }
    }
  }

  /** The octets of all names and values. */
  lemma {:induction false} Octets(a: Echo, b: Echo)
    ensures ByteCount([]) == 0 && ByteCount(a + b) == ByteCount(a) + ByteCount(b)
    ensures forall h :: ByteCount([h]) == |h.name| + |h.value|
  {
    if a == [] {
      assert a + b == b;
    } else {
      Octets(a[1..], b);
      assert (a + b)[1..] == a[1..] + b;
    }
  }

  /** Staging fails exactly for a bad token, a header that may not be echoed, or a budget that would be left. */
  lemma StageIff(ok: Policy, c: Carried, r: Response)
    ensures Stage(ok, c, r).Some? <==>
              && |r.token| <= 8192 && '\r' !in r.token && '\n' !in r.token
              && (forall h <- r.headers :: "vgi-echo-" <= Lower(h.name) ==> Echoable(ok, h))
              && StageEcho(ok, c.echo, r.headers).Some?
              && var echo := StageEcho(ok, c.echo, r.headers).value;
              && |echo| <= 100 && ByteCount(echo) <= 65536
              && forall h <- echo :: |h.name| <= 1024 && |h.value| <= 8192
  {
    hide StageEcho, Echoable;
    StageEchoIff(ok, c.echo, r.headers);
  }
}
