/**
  One sticky session view of the HTTP client: how a response stages the next token and echo headers,
  and a state machine of any number of requests, a detach and closes interleaved on the view.
 */
module StickySession {
  import opened Base

  const MAX_NAMES := 100
  const MAX_BYTES := 64 * 1024
  const MAX_NAME := 1024
  const MAX_VALUE := 8192
  const ECHO_PREFIX := "vgi-echo-"

  datatype Header = Header(name: string, value: string)

  /** `Echo` holds every name once. */
  type Echo = seq<Header>

  datatype Carried = Carried(token: Option<string>, echo: Echo)

  /**
    What a response turned out to be: one that decodes to a result or a remote error, one that does
    not decode, a 413 answered by a resend, a 401 or 403, one that is not Arrow, a cancel's reply,
    which nobody decodes, or a capability reply.
   */
  datatype Kind =
    | Result
    | RemoteError
    | Undecodable
    | TooLarge
    | Denied
    | Foreign
    | Unread
    | Capabilities(status: nat)

  /** A result, a remote error, or a 2xx capability reply. */
  predicate Commits(k: Kind) {
    k.Result? || k.RemoteError? || (k.Capabilities? && 200 <= k.status < 300)
  }

  /** `retried` is a response the retry loop or the uncompressed resend puts aside for another attempt. */
  datatype Response = Response(kind: Kind, retried: bool, token: string, headers: seq<Header>, close: bool)

  /** Names and values the transport accepts at all, credentials included. */
  type Policy = Header -> bool

  predicate Credential(name: string) {
    Lower(name) == "authorization" || Lower(name) == "cookie" || Lower(name) == "proxy-authorization"
  }

  function ByteCount(echo: Echo): nat {
    if echo == [] then 0 else |echo[0].name| + |echo[0].value| + ByteCount(echo[1..])
  }

  predicate FieldsFit(echo: Echo) {
    forall h <- echo :: |h.name| <= MAX_NAME && |h.value| <= MAX_VALUE
  }

  /** The bound a view's echo headers never leave. */
  predicate Bounded(echo: Echo) {
    |echo| <= MAX_NAMES && ByteCount(echo) <= MAX_BYTES && FieldsFit(echo)
  }

  predicate Distinct(echo: Echo) {
    forall i, j | 0 <= i < j < |echo| :: echo[i].name != echo[j].name
  }

  function Without(echo: Echo, lowered: string): Echo {
    if echo == [] then []
    else (if Lower(echo[0].name) == lowered then [] else [echo[0]]) + Without(echo[1..], lowered)
  }

  /** Replace whatever is held under this name in any spelling. */
  function Put(echo: Echo, h: Header): Echo {
    Without(echo, Lower(h.name)) + [h]
  }

  predicate IsEcho(name: string) {
    |name| >= |ECHO_PREFIX| && Lower(name)[..|ECHO_PREFIX|] == ECHO_PREFIX
  }

  function Replayed(h: Header): Header
    requires IsEcho(h.name)
  {
    Header(Lower(h.name[|ECHO_PREFIX|..]), h.value)
  }

  predicate Admissible(ok: Policy, h: Header) {
    |h.name| <= MAX_NAME && |h.value| <= MAX_VALUE && ok(h) && !Credential(h.name)
  }

  function StageEcho(ok: Policy, echo: Echo, headers: seq<Header>): Option<Echo>
    decreases headers
  {
    if headers == [] then Some(echo)
    else if !IsEcho(headers[0].name) then StageEcho(ok, echo, headers[1..])
    else
      var h := Replayed(headers[0]);
      if !Admissible(ok, h) then None else StageEcho(ok, Put(echo, h), headers[1..])
  }

  predicate TokenFits(token: string) {
    |token| <= MAX_VALUE && '\r' !in token && '\n' !in token
  }

  /** What a response makes of what the view carries; `None` is a protocol error. */
  function Stage(ok: Policy, c: Carried, r: Response): Option<Carried> {
    if r.token != "" && !TokenFits(r.token) then None
    else
      var echo := StageEcho(ok, c.echo, r.headers);
      if echo.None? || !Bounded(echo.value) then None
      else if r.close then Some(Carried(None, []))
      else Some(Carried(if r.token != "" then Some(r.token) else c.token, echo.value))
  }

  lemma {:induction false} WithoutKeeps(echo: Echo, lowered: string)
    ensures forall h :: h in Without(echo, lowered) <==> h in echo && Lower(h.name) != lowered
    ensures Distinct(echo) ==> Distinct(Without(echo, lowered))
  {
    if echo != [] {
      WithoutKeeps(echo[1..], lowered);
      var rest := Without(echo[1..], lowered);
      assert echo == [echo[0]] + echo[1..];
      if Distinct(echo) && Lower(echo[0].name) != lowered {
        assert Distinct(echo[1..]);
        forall j | 0 <= j < |rest| ensures rest[j].name != echo[0].name {
          assert rest[j] in echo[1..];
        }
      }
    }
  }

  /** A name that two headers spell differently is held once, with the later value. */
  lemma PutReplaces(echo: Echo, h: Header)
    requires Distinct(echo)
    ensures Distinct(Put(echo, h)) && h in Put(echo, h)
    ensures forall g :: g in Put(echo, h) <==> g == h || (g in echo && Lower(g.name) != Lower(h.name))
  {
    WithoutKeeps(echo, Lower(h.name));
    var rest := Without(echo, Lower(h.name));
    forall i | 0 <= i < |rest| ensures rest[i].name != h.name {
      assert rest[i] in rest;
    }
  }

  lemma {:induction false} StageEchoKeeps(ok: Policy, echo: Echo, headers: seq<Header>)
    requires Distinct(echo)
    ensures StageEcho(ok, echo, headers).Some? ==> Distinct(StageEcho(ok, echo, headers).value)
    decreases headers
  {
    if headers != [] {
      if IsEcho(headers[0].name) {
        PutReplaces(echo, Replayed(headers[0]));
        StageEchoKeeps(ok, Put(echo, Replayed(headers[0])), headers[1..]);
      } else {
        StageEchoKeeps(ok, echo, headers[1..]);
      }
    }
  }

  /** Whatever is staged is within bounds, and its echo headers are a proper map. */
  lemma StageKeeps(ok: Policy, c: Carried, r: Response)
    requires Distinct(c.echo)
    ensures Stage(ok, c, r).Some? ==> Bounded(Stage(ok, c, r).value.echo) && Distinct(Stage(ok, c, r).value.echo)
  {
    StageEchoKeeps(ok, c.echo, r.headers);
  }

  // ---- Requests interleaved on one view ---------------------------------------------------------------

  type Tid = nat

  datatype Pc =
    | Idle
    // An RPC or a capability request; `late` remembers that the view was closed when it started.
    | Waiting(late: bool)
    | Holding(staged: Option<Carried>, from: Option<Response>, late: bool)
    | Committing(update: Carried, source: Response)
    // A close that has set the flag and is waiting for the lock.
    | Closing

  /** What changed what the view carries, in order. */
  datatype Change = Commit(from: Response) | Clear

  datatype Request = Request(tid: Tid, carried: Carried, late: bool, version: nat)

  /** A response that reached its commit, and whether the view was still open there. */
  datatype Decoded = Decoded(response: Response, open: bool)

  /**
    `seed`, `changes`, `requests`, `came` and `decoded` are history; no step consults them.  `came` are
    the responses that came back and could be staged, in order, and `decoded` those that reached a commit.
   */
  datatype State = State(
    carried: Carried,
    closed: bool,
    lock: Option<Tid>,
    pcs: seq<Pc>,
    seed: Carried,
    changes: seq<Change>,
    requests: seq<Request>,
    came: seq<Response>,
    decoded: seq<Decoded>)

  datatype Step =
    | Start
    | Enter
    // One attempt: the request leaves and a response comes back, or none does.
    | Attempt(response: Option<Response>)
    // The response is decoded and about to be committed.
    | Accept
    // Every other way out: no reply, or one of a kind that does not commit.
    | GiveUp
    | Write
    | Detach
    | Shut
    | Sweep
    | Abandon

  function Goto(s: State, t: Tid, pc: Pc): State
    requires t < |s.pcs|
  {
    s.(pcs := s.pcs[t := pc])
  }

  function Leave(s: State, t: Tid): State
    requires t < |s.pcs|
  {
    Goto(s, t, Idle).(lock := None)
  }

  function Wipe(s: State): State {
    s.(carried := Carried(None, []), changes := s.changes + [Clear])
  }

  /** A request that holds a response of a committing kind. */
  predicate Owes(pc: Pc) {
    pc.Holding? && pc.from.Some? && Commits(pc.from.value.kind)
  }

  predicate Enabled(s: State, t: Tid, step: Step)
    requires t < |s.pcs|
  {
    match step
    case Start => s.pcs[t].Idle?
    case Enter => s.pcs[t].Waiting? && s.lock.None?
    case Attempt(_) => s.pcs[t].Holding? && s.pcs[t].from.None?
    case Accept => s.pcs[t].Holding? && s.pcs[t].staged.Some? && Owes(s.pcs[t])
    case GiveUp => s.pcs[t].Holding? && !Owes(s.pcs[t])
    case Write => s.pcs[t].Committing?
    case Detach => s.pcs[t].Idle? && s.lock.None?
    case Shut => s.pcs[t].Idle?
    case Sweep => s.pcs[t].Closing? && s.lock.None?
    case Abandon => s.pcs[t].Closing?
  }

  function Take(ok: Policy, s: State, t: Tid, step: Step): State
    requires t < |s.pcs| && Enabled(s, t, step)
  {
    match step
    case Start => Goto(s, t, Waiting(s.closed))
    case Enter =>
      if s.closed then Goto(s, t, Idle) else Goto(s, t, Holding(None, None, s.pcs[t].late)).(lock := Some(t))
    case Attempt(response) =>
      var sent := s.(requests := s.requests + [Request(t, s.carried, s.pcs[t].late, |s.changes|)]);
      if response.None? then Goto(sent, t, Holding(None, None, s.pcs[t].late))
      else
        var staged := Stage(ok, s.carried, response.value);
        if staged.None? then Leave(sent, t)
        else
          var back := sent.(came := s.came + [response.value]);
          if response.value.retried then Goto(back, t, Holding(None, None, s.pcs[t].late))
          else Goto(back, t, Holding(staged, response, s.pcs[t].late))
    case Accept =>
      var noted := s.(decoded := s.decoded + [Decoded(s.pcs[t].from.value, !s.closed)]);
      if s.closed then Leave(noted, t) else Goto(noted, t, Committing(s.pcs[t].staged.value, s.pcs[t].from.value))
    case GiveUp => Leave(s, t)
    case Write =>
      Leave(s.(carried := s.pcs[t].update, changes := s.changes + [Commit(s.pcs[t].source)]), t)
    case Detach => Wipe(s).(closed := true)
    case Shut => if s.closed then s else Goto(s, t, Closing).(closed := true)
    case Sweep => Goto(Wipe(s), t, Idle)
    case Abandon => Goto(s, t, Idle)
  }

  ghost predicate Initial(s: State) {
    && s.carried == s.seed && Bounded(s.seed.echo) && Distinct(s.seed.echo)
    && !s.closed && s.lock.None? && s.changes == [] && s.requests == []
    && s.came == [] && s.decoded == []
    && forall t: Tid | t < |s.pcs| :: s.pcs[t] == Idle
  }

  ghost predicate Next(ok: Policy, s: State, s': State) {
    exists t: Tid, step: Step :: t < |s.pcs| && Enabled(s, t, step) && s' == Take(ok, s, t, step)
  }

  /** The serial meaning: apply the changes one after the other, each to what the ones before left. */
  function Fold(ok: Policy, seed: Carried, changes: seq<Change>): Option<Carried> {
    if changes == [] then Some(seed)
    else
      var before := Fold(ok, seed, changes[..|changes| - 1]);
      if before.None? then None
      else
        match changes[|changes| - 1]
        case Clear => Some(Carried(None, []))
        case Commit(from) => Stage(ok, before.value, from)
  }

  ghost predicate ThreadOk(ok: Policy, s: State, t: Tid)
    requires t < |s.pcs|
  {
    var pc := s.pcs[t];
    && ((pc.Holding? || pc.Committing?) <==> s.lock == Some(t))
    && (pc.Waiting? && pc.late ==> s.closed)
    && (pc.Holding? ==> !pc.late && pc.staged.Some? == pc.from.Some?)
    && (pc.Holding? && pc.staged.Some? ==> Stage(ok, s.carried, pc.from.value) == pc.staged)
    && (pc.Committing? ==> Commits(pc.source.kind) && Stage(ok, s.carried, pc.source) == Some(pc.update))
  }

  ghost predicate RequestOk(ok: Policy, s: State, r: Request) {
    && !r.late && r.version <= |s.changes|
    && Fold(ok, s.seed, s.changes[..r.version]) == Some(r.carried)
  }

  /** The response the holder of the lock still has to decode, and the one it is about to write. */
  function InFlight(s: State): seq<Response> {
    if s.lock.Some? && s.lock.value < |s.pcs| && Owes(s.pcs[s.lock.value]) then [s.pcs[s.lock.value].from.value] else []
  }

  function Writing(s: State): seq<Response> {
    if s.lock.Some? && s.lock.value < |s.pcs| && s.pcs[s.lock.value].Committing?
    then [s.pcs[s.lock.value].source] else []
  }

  function Responses(decoded: seq<Decoded>): seq<Response> {
    if decoded == [] then [] else [decoded[0].response] + Responses(decoded[1..])
  }

  /** The responses decoded while the view was open. */
  function Opened(decoded: seq<Decoded>): seq<Response> {
    if decoded == [] then [] else (if decoded[0].open then [decoded[0].response] else []) + Opened(decoded[1..])
  }

  /** The responses that were committed. */
  function Committed(changes: seq<Change>): seq<Response> {
    if changes == [] then [] else (if changes[0].Commit? then [changes[0].from] else []) + Committed(changes[1..])
  }

  lemma {:induction false} DecodedSnoc(decoded: seq<Decoded>, d: Decoded)
    ensures Responses(decoded + [d]) == Responses(decoded) + [d.response]
    ensures Opened(decoded + [d]) == Opened(decoded) + if d.open then [d.response] else []
  {
    if decoded != [] {
      assert (decoded + [d])[1..] == decoded[1..] + [d];
      DecodedSnoc(decoded[1..], d);
    } else {
      assert [] + [d] == [d] && [d][1..] == [];
    }
  }

  lemma {:induction false} CommittedSnoc(changes: seq<Change>, c: Change)
    ensures Committed(changes + [c]) == Committed(changes) + if c.Commit? then [c.from] else []
  {
    if changes != [] {
      assert (changes + [c])[1..] == changes[1..] + [c];
      CommittedSnoc(changes[1..], c);
    } else {
      assert [] + [c] == [c] && [c][1..] == [];
    }
  }

  /** The responses that have to be committed: results, remote errors and capabilities with a 2xx status, for good. */
  function Standing(came: seq<Response>): seq<Response> {
    if came == [] then []
    else
      var r := came[0];
      var stands := !r.retried && (r.kind.Result? || r.kind.RemoteError?
          || (r.kind.Capabilities? && r.kind.status / 100 == 2));
      (if stands then [r] else []) + Standing(came[1..])
  }

  lemma {:induction false} StandingSnoc(came: seq<Response>, r: Response)
    ensures Standing(came + [r]) == Standing(came) + if !r.retried && Commits(r.kind) then [r] else []
  {
    if came != [] {
      assert (came + [r])[1..] == came[1..] + [r];
      StandingSnoc(came[1..], r);
    } else {
      assert [] + [r] == [r] && [r][1..] == [];
    }
  }

  /** Nothing that came back is lost: it is decoded or about to be, and committed if it was decoded on an open view. */
  ghost predicate HistoryOk(s: State) {
    && Standing(s.came) == Responses(s.decoded) + InFlight(s)
    && Opened(s.decoded) == Committed(s.changes) + Writing(s)
  }

  ghost predicate CarriedOk(ok: Policy, s: State) {
    && Fold(ok, s.seed, s.changes) == Some(s.carried)
    && Bounded(s.carried.echo) && Distinct(s.carried.echo)
    && (forall c <- s.changes :: c.Commit? ==> Commits(c.from.kind))
    && (s.lock.Some? ==> s.lock.value < |s.pcs|)
  }

  ghost predicate Inv(ok: Policy, s: State) {
    && CarriedOk(ok, s) && HistoryOk(s)
    && (forall t: Tid | t < |s.pcs| :: ThreadOk(ok, s, t))
    && (forall r <- s.requests :: RequestOk(ok, s, r))
  }

  lemma FoldOne(ok: Policy, seed: Carried, changes: seq<Change>, change: Change)
    requires Fold(ok, seed, changes).Some?
    ensures Fold(ok, seed, changes + [change])
         == match change
            case Clear => Some(Carried(None, []))
            case Commit(from) => Stage(ok, Fold(ok, seed, changes).value, from)
  {
    assert (changes + [change])[..|changes + [change]| - 1] == changes;
  }

  lemma RequestsKeep(ok: Policy, s: State, s': State, r: Request)
    requires RequestOk(ok, s, r) && s'.seed == s.seed && s.changes <= s'.changes
    ensures RequestOk(ok, s', r)
  {
    assert s'.changes[..r.version] == s.changes[..r.version];
  }

  lemma StepKeeps(ok: Policy, s: State, t: Tid, step: Step)
    requires Inv(ok, s) && t < |s.pcs| && Enabled(s, t, step)
    ensures Inv(ok, Take(ok, s, t, step))
  {
    hide Inv, Take, Enabled, ThreadOk;
    CarriedKeeps(ok, s, t, step);
    HistoryKeeps(ok, s, t, step);
    RequestsStay(ok, s, t, step);
    ThreadsKeep(ok, s, t, step);
    Assemble(ok, Take(ok, s, t, step));
  }

  lemma Assemble(ok: Policy, s: State)
    requires CarriedOk(ok, s) && HistoryOk(s)
    requires (forall t: Tid | t < |s.pcs| :: ThreadOk(ok, s, t)) && (forall r <- s.requests :: RequestOk(ok, s, r))
    ensures Inv(ok, s)
  {
  }

  lemma CarriedKeeps(ok: Policy, s: State, t: Tid, step: Step)
    requires Inv(ok, s) && t < |s.pcs| && Enabled(s, t, step)
    ensures CarriedOk(ok, Take(ok, s, t, step))
  {
    hide Stage, Bounded, Distinct, Fold, RequestOk;
    assert ThreadOk(ok, s, t);
    EmptyOk();
    match step {
      case Write =>
        FoldOne(ok, s.seed, s.changes, Commit(s.pcs[t].source));
        StageKeeps(ok, s.carried, s.pcs[t].source);
      case Detach => FoldOne(ok, s.seed, s.changes, Clear);
      case Sweep => FoldOne(ok, s.seed, s.changes, Clear);
      case _ =>
    }
  }

  lemma HistoryKeeps(ok: Policy, s: State, t: Tid, step: Step)
    requires Inv(ok, s) && t < |s.pcs| && Enabled(s, t, step)
    ensures HistoryOk(Take(ok, s, t, step))
  {
    hide Stage, Bounded, Distinct, Fold, RequestOk, Responses, Opened, Committed, Standing;
    assert ThreadOk(ok, s, t);
    match step {
      case Attempt(response) =>
        if response.Some? {
          StandingSnoc(s.came, response.value);
        }
      case Accept => DecodedSnoc(s.decoded, Decoded(s.pcs[t].from.value, !s.closed));
      case Write => CommittedSnoc(s.changes, Commit(s.pcs[t].source));
      case Detach => CommittedSnoc(s.changes, Clear);
      case Sweep => CommittedSnoc(s.changes, Clear);
      case _ =>
    }
  }

  lemma RequestsStay(ok: Policy, s: State, t: Tid, step: Step)
    requires Inv(ok, s) && t < |s.pcs| && Enabled(s, t, step)
    ensures forall r <- Take(ok, s, t, step).requests :: RequestOk(ok, Take(ok, s, t, step), r)
  {
    hide Stage, Bounded, Distinct, Fold, RequestOk;
    var s' := Take(ok, s, t, step);
    assert ThreadOk(ok, s, t);
    NowOk(ok, s, t);
    forall r | r in s'.requests ensures RequestOk(ok, s', r) {
      RequestsKeep(ok, s, s', r);
    }
  }

  lemma ThreadsKeep(ok: Policy, s: State, t: Tid, step: Step)
    requires Inv(ok, s) && t < |s.pcs| && Enabled(s, t, step)
    ensures forall u: Tid | u < |Take(ok, s, t, step).pcs| :: ThreadOk(ok, Take(ok, s, t, step), u)
  {
    hide Stage, Bounded, Distinct, Fold, RequestOk;
    var s' := Take(ok, s, t, step);
    assert ThreadOk(ok, s, t);
    forall u: Tid | u < |s'.pcs| ensures ThreadOk(ok, s', u) {
      assert ThreadOk(ok, s, u);
    }
  }

  lemma EmptyOk()
    ensures Bounded([]) && Distinct([])
  {
  }

  lemma NowOk(ok: Policy, s: State, t: Tid)
    requires Fold(ok, s.seed, s.changes) == Some(s.carried)
    ensures RequestOk(ok, s, Request(t, s.carried, false, |s.changes|))
  {
    assert s.changes[..|s.changes|] == s.changes;
  }

  // ---- Every run -------------------------------------------------------------------------------------

  ghost predicate Run(ok: Policy, run: seq<State>) {
    && run != [] && Initial(run[0])
    && forall i | 0 <= i < |run| - 1 :: Next(ok, run[i], run[i + 1])
  }

  lemma {:induction false} RunKeeps(ok: Policy, run: seq<State>, i: nat)
    requires Run(ok, run) && i < |run|
    ensures Inv(ok, run[i])
  {
    if i > 0 {
      RunKeeps(ok, run, i - 1);
      hide Inv, Enabled, Take;
      assert Next(ok, run[i - 1], run[i]);
      var t: Tid, step: Step :| t < |run[i - 1].pcs| && Enabled(run[i - 1], t, step)
          && run[i] == Take(ok, run[i - 1], t, step);
      StepKeeps(ok, run[i - 1], t, step);
    }
  }

  /**
    Sticky state is transactional and serialized: at every moment of every run, what the view
    carries is the fold, in lock order, of accepted results, remote errors and 2xx capability replies
    only, and within bounds; every request that left carried one such state whole, and started before
    the view was closed.
   */
  lemma Serialized(ok: Policy, run: seq<State>, i: nat)
    requires Run(ok, run) && i < |run|
    ensures Fold(ok, run[i].seed, run[i].changes) == Some(run[i].carried)
    ensures forall c <- run[i].changes :: c.Commit? ==> Commits(c.from.kind)
    ensures run[i].lock.None? ==>
              Standing(run[i].came) == Responses(run[i].decoded) && Committed(run[i].changes) == Opened(run[i].decoded)
    ensures Bounded(run[i].carried.echo) && Distinct(run[i].carried.echo)
    ensures forall r <- run[i].requests ::
              !r.late && r.version <= |run[i].changes|
                  && Fold(ok, run[i].seed, run[i].changes[..r.version]) == Some(r.carried)
  {
    RunKeeps(ok, run, i);
    forall r | r in run[i].requests
      ensures !r.late && r.version <= |run[i].changes|
          && Fold(ok, run[i].seed, run[i].changes[..r.version]) == Some(r.carried)
    {
      assert RequestOk(ok, run[i], r);
    }
  }

  /** Closed, and no request is still on its way through. */
  predicate Sealed(s: State) {
    s.closed && s.lock.None?
  }

  lemma SealedStep(ok: Policy, s: State, t: Tid, step: Step)
    requires Inv(ok, s) && Sealed(s) && t < |s.pcs| && Enabled(s, t, step)
    ensures var s' := Take(ok, s, t, step);
      Sealed(s') && s'.requests == s.requests && (s'.carried == s.carried || s'.carried == Carried(None, []))
  {
    hide Stage, Fold, RequestOk;
    assert ThreadOk(ok, s, t);
  }

  /** Once a view is closed and idle no request is ever sent on it again, and a token that was dropped stays dropped. */
  lemma {:induction false} SealedForever(ok: Policy, run: seq<State>, i: nat, j: nat)
    requires Run(ok, run) && i <= j < |run| && Sealed(run[i])
    ensures Sealed(run[j]) && run[j].requests == run[i].requests
    ensures run[i].carried == Carried(None, []) ==> run[j].carried == Carried(None, [])
  {
    if i < j {
      SealedForever(ok, run, i, j - 1);
      RunKeeps(ok, run, j - 1);
      hide Inv, Enabled, Take;
      assert Next(ok, run[j - 1], run[j]);
      var t: Tid, step: Step :| t < |run[j - 1].pcs| && Enabled(run[j - 1], t, step)
          && run[j] == Take(ok, run[j - 1], t, step);
      SealedStep(ok, run[j - 1], t, step);
    }
  }

  /** After a detach, whatever was under way around it, no request is ever sent on the view and it carries nothing. */
  lemma DetachIsFinal(ok: Policy, run: seq<State>, i: nat, j: nat, t: Tid)
    requires Run(ok, run) && i < j < |run| && t < |run[i].pcs|
    requires Enabled(run[i], t, Detach) && run[i + 1] == Take(ok, run[i], t, Detach)
    ensures run[j].requests == run[i].requests && run[j].carried == Carried(None, []) && run[j].closed
  {
    SealedForever(ok, run, i + 1, j);
  }

  // ---- Closing ----------------------------------------------------------------------------------------

  /**
    From `s` to `s'` only the request that held the lock has sent anything, and nothing was decoded
    in time to be committed.
   */
  ghost predicate ClosedSince(s: State, s': State) {
    && s'.closed && (s'.lock == s.lock || s'.lock.None?)
    && s.requests <= s'.requests && (forall r <- s'.requests[|s.requests|..] :: s.lock == Some(r.tid))
    && Opened(s'.decoded) == Opened(s.decoded)
  }

  lemma ClosedStep(ok: Policy, s: State, t: Tid, step: Step)
    requires Inv(ok, s) && s.closed && t < |s.pcs| && Enabled(s, t, step)
    ensures ClosedSince(s, Take(ok, s, t, step))
  {
    hide Stage, Fold, RequestOk, Opened;
    assert ThreadOk(ok, s, t);
    if step.Accept? {
      DecodedSnoc(s.decoded, Decoded(s.pcs[t].from.value, !s.closed));
    }
  }

  lemma NextClosed(ok: Policy, s: State, s': State)
    requires Inv(ok, s) && s.closed && Next(ok, s, s')
    ensures ClosedSince(s, s')
  {
    hide Inv, Enabled, Take, ClosedSince;
    var t: Tid, step: Step :| t < |s.pcs| && Enabled(s, t, step) && s' == Take(ok, s, t, step);
    ClosedStep(ok, s, t, step);
  }

  lemma ClosedStill(a: State, b: State, c: State)
    requires ClosedSince(a, b) && ClosedSince(b, c)
    ensures ClosedSince(a, c)
  {
    hide Opened;
    assert c.requests[|a.requests|..] == b.requests[|a.requests|..] + c.requests[|b.requests|..];
  }

  lemma ClosedNow(s: State)
    requires s.closed
    ensures ClosedSince(s, s)
  {
  }

  /**
    A close takes effect at once: from the step that raises the flag on, the view stays closed, only
    the request that held the lock then ever sends again, and nothing decoded after it is committed.
   */
  lemma {:induction false} CloseIsFinal(ok: Policy, run: seq<State>, i: nat, j: nat)
    requires Run(ok, run) && i <= j < |run| && run[i].closed
    ensures ClosedSince(run[i], run[j])
  {
    hide Inv, Next, ClosedSince, Initial;
    ClosedNow(run[i]);
    if i < j {
      CloseIsFinal(ok, run, i, j - 1);
      RunKeeps(ok, run, j - 1);
      StaysClosed(run[i], run[j - 1]);
      NextClosed(ok, run[j - 1], run[j]);
      ClosedStill(run[i], run[j - 1], run[j]);
    }
  }

  lemma StaysClosed(s: State, s': State)
    requires ClosedSince(s, s')
    ensures s'.closed
  {
  }

  lemma ShutCloses(ok: Policy, s: State, t: Tid, step: Step)
    requires t < |s.pcs| && Enabled(s, t, step) && (step.Shut? || step.Detach?)
    ensures Take(ok, s, t, step).closed
  {
  }

  /** A close that gets the lock leaves nothing carried, for good, and so does a detach. */
  lemma SweepIsFinal(ok: Policy, run: seq<State>, i: nat, j: nat, t: Tid)
    requires Run(ok, run) && i < j < |run| && t < |run[i].pcs|
    requires Enabled(run[i], t, Sweep) && run[i + 1] == Take(ok, run[i], t, Sweep)
    ensures run[j].requests == run[i].requests && run[j].carried == Carried(None, []) && run[j].closed
  {
    ClosingIsClosed(ok, run, i, t);
    SealedForever(ok, run, i + 1, j);
  }

  ghost predicate ClosersOk(s: State) {
    forall t: Tid | t < |s.pcs| && s.pcs[t].Closing? :: s.closed
  }

  /** A close that waits for the lock has raised the flag. */
  lemma {:induction false} ClosingIsClosed(ok: Policy, run: seq<State>, i: nat, t: Tid)
    requires Run(ok, run) && i < |run| && t < |run[i].pcs| && run[i].pcs[t].Closing?
    ensures run[i].closed
    decreases i
  {
    ClosersStay(ok, run, i);
  }

  lemma {:induction false} ClosersStay(ok: Policy, run: seq<State>, i: nat)
    requires Run(ok, run) && i < |run|
    ensures ClosersOk(run[i])
    decreases i
  {
    if i > 0 {
      ClosersStay(ok, run, i - 1);
      RunKeeps(ok, run, i - 1);
      assert Next(ok, run[i - 1], run[i]);
      var t: Tid, step: Step :| t < |run[i - 1].pcs| && Enabled(run[i - 1], t, step)
          && run[i] == Take(ok, run[i - 1], t, step);
      ClosersStep(ok, run[i - 1], t, step);
    }
  }

  lemma ClosersStep(ok: Policy, s: State, t: Tid, step: Step)
    requires ClosersOk(s) && t < |s.pcs| && Enabled(s, t, step)
    ensures ClosersOk(Take(ok, s, t, step))
  {
    hide Stage;
  }

  /**
    One step moves one thread: an attempt, and nothing else, sends a request, with what is carried just
    then; every way out of a request or a close ends it, and leaves the lock with nobody.
   */
  lemma StepIsLocal(ok: Policy, s: State, t: Tid, step: Step)
    requires t < |s.pcs| && Enabled(s, t, step)
    ensures var s' := Take(ok, s, t, step);
      && |s'.pcs| == |s.pcs| && (forall u: Tid | u < |s.pcs| && u != t :: s'.pcs[u] == s.pcs[u])
      && (!step.Attempt? ==> s'.requests == s.requests)
      && (step.Attempt? ==>
            exists sent :: s'.requests == s.requests + [sent] && sent.carried == s.carried && sent.tid == t)
      && (step.GiveUp? || step.Write? || step.Sweep? || step.Abandon? || step.Detach? ==> s'.pcs[t].Idle?)
      && (step.GiveUp? || step.Write? ==> s'.lock.None?)
      && (s'.pcs[t].Idle? && s'.lock == Some(t) ==> s.pcs[t].Idle? || s.pcs[t].Waiting? || s.pcs[t].Closing?)
  {
    hide Stage;
    if step.Attempt? {
      var sent := Request(t, s.carried, s.pcs[t].late, |s.changes|);
      assert Take(ok, s, t, step).requests == s.requests + [sent];
    }
  }

  /**
    While the view is open and its lock free, a request of any idle thread can go all the way: what its
    response makes of what is carried is carried then, and thread and lock are free again.
   */
  lemma RequestGoesThrough(ok: Policy, s: State, t: Tid, r: Response)
    requires t < |s.pcs| && s.pcs[t].Idle? && s.lock.None? && !s.closed
    requires Stage(ok, s.carried, r).Some? && Commits(r.kind) && !r.retried
    ensures exists run: seq<State> ::
              && |run| == 6 && run[0] == s && (forall i | 0 < i < |run| :: Next(ok, run[i - 1], run[i]))
              && run[5].carried == Stage(ok, s.carried, r).value && run[5].pcs == s.pcs && run[5].lock.None?
              && |run[5].requests| == |s.requests| + 1
  {
    hide Stage;
    var a := Take(ok, s, t, Start);
    var b := Take(ok, a, t, Enter);
    var c := Take(ok, b, t, Attempt(Some(r)));
    var d := Take(ok, c, t, Accept);
    var e := Take(ok, d, t, Write);
    assert e.pcs == s.pcs;
    assert Next(ok, s, a) && Next(ok, a, b) && Next(ok, b, c) && Next(ok, c, d) && Next(ok, d, e);
    var run := [s, a, b, c, d, e];
    assert run[0] == s && run[1] == a && run[2] == b && run[3] == c && run[4] == d && run[5] == e;
  }

  /** An idle thread can always close the view, and once the lock is free it can drop what is carried. */
  lemma CloseGoesThrough(ok: Policy, s: State, t: Tid)
    requires t < |s.pcs| && s.pcs[t].Idle? && !s.closed
    ensures Enabled(s, t, Shut)
    ensures var shut := Take(ok, s, t, Shut);
      && shut.closed && shut.carried == s.carried && Enabled(shut, t, Abandon)
      && (s.lock.None? ==> Enabled(shut, t, Sweep) && Take(ok, shut, t, Sweep).carried == Carried(None, []))
    ensures s.lock.None? ==>
              Enabled(s, t, Step.Detach) && Take(ok, s, t, Step.Detach).closed
              && Take(ok, s, t, Step.Detach).carried == Carried(None, [])
  {
  }

  /** Nobody waits for nobody: while a request or a close is under way, one of them has a step to take. */
  lemma NoDeadlock(ok: Policy, run: seq<State>, i: nat, t: Tid)
    requires Run(ok, run) && i < |run| && t < |run[i].pcs| && !run[i].pcs[t].Idle?
    ensures exists u: Tid, step: Step ::
              u < |run[i].pcs| && !run[i].pcs[u].Idle? && !step.Start? && Enabled(run[i], u, step)
  {
    RunKeeps(ok, run, i);
    var s := run[i];
    var u := if s.pcs[t].Waiting? && s.lock.Some? then s.lock.value else t;
    assert ThreadOk(ok, s, t) && ThreadOk(ok, s, u);
    var step := match s.pcs[u]
      case Idle => Start
      case Waiting(_) => Enter
      case Holding(_, _, _) => if Owes(s.pcs[u]) then Accept else GiveUp
      case Committing(_, _) => Write
      case Closing => Abandon;
    assert Enabled(s, u, step);
  }
}
