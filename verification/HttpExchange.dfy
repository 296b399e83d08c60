/**
  An exchange stream end to end: a session of `HttpPost` on the client's side, the turns of
  `HttpTurns` on the server's, and between them a front that refuses what it will not read and a wire
  that loses requests and replies.
 */
module HttpExchange {
  import opened Base
  import opened Wire
  import opened Framing
  import opened FramingLaws
  import opened ProducerLaws
  import H = HttpStream
  import P = HttpPost
  import T = HttpTurns

  /** What becomes of one attempt on its way; `Rejected` is any answer given before the server's front. */
  datatype Fate =
    | Halted
    | Dropped
    | Rejected(status: nat, arrow: bool)
    | ReplyLost
    | Delivered

  /**
    The server and its front, and, by the number of attempts made so far, everything that is not the
    client's doing.
   */
  datatype World = World(
    server: T.Config,
    zstd: bool,
    requestCap: Option<nat>,
    fate: nat -> Fate,
    advert: nat -> P.Advert,
    discover: nat -> Option<P.Advert>,
    upload: nat -> P.Upload,
    envs: nat -> T.Env,
    ms: nat -> string)

  /** Who calls: its configuration and what it sends beside the cursor. */
  datatype Caller = Caller(cfg: P.Config, scope: string, token: Option<T.CallToken>, limit: Option<nat>)

  /** A session's operation, and whether its input is what the server's stream expects. */
  datatype Request = Request(op: P.Op, fits: bool)

  datatype System = System(client: P.Client, session: P.Session, server: T.State, attempts: nat)

  /** `got` is the batch an exchange returned, `runs` how often the server ran a turn for the operation. */
  datatype Outcome = Outcome(system: System, got: Option<Batch>, runs: nat)

  function Asked(who: Caller, x: System, r: Request): T.Continuation {
    T.Continuation(x.session.cursor, who.scope, who.token, r.op.Cancel?, r.fits, who.limit)
  }

  /** The front answers 415 and 413 itself; what it lets in is dispatched. */
  function Front(w: World, b: P.Body): Option<nat> {
    if b.compressed && !w.zstd then Some(415)
    else if w.requestCap.Some? && b.size > w.requestCap.value then Some(413)
    else None
  }

  function Attempt(w: World, s: T.State, req: T.Continuation, n: nat, b: P.Body): P.Wire {
    match w.fate(n)
    case Halted => P.Halted
    case Dropped => P.Lost(true, false, P.NO_NEWS)
    case Rejected(status, arrow) => P.Answered(status, arrow, false, w.advert(n))
    case ReplyLost => P.Lost(true, Front(w, b).None?, w.advert(n))
    case Delivered =>
      match Front(w, b)
      case Some(status) => P.Answered(status, false, false, w.advert(n))
      case None =>
        var status := T.Continue(w.server, s, req, w.envs(n)).reply.status;
        P.Answered(status, status != 500, true, w.advert(n))
  }

  /** What the client makes of the reply to attempt `n`. */
  function Read(w: World, s: T.State, req: T.Continuation, n: nat): Answer {
    ExchangeAnswer(H.Reading(w.server, T.Continue(w.server, s, req, w.envs(n)), w.ms(n), EXCHANGE_TURN))
  }

  /** The cursor of the turn that the last of `m` attempts brought back, if it brought one. */
  function TurnAt(w: World, s: T.State, req: T.Continuation, m: nat): Option<string> {
    if m > 0 && w.fate(m - 1).Delivered? && Read(w, s, req, m - 1).Output?
    then Some(Read(w, s, req, m - 1).cursor) else None
  }

  /** The outside world of one operation, as a posting client meets it. */
  function Outside(w: World, s: T.State, req: T.Continuation): P.Env {
    P.Env((n: nat, b: P.Body) => Attempt(w, s, req, n, b), w.discover, w.upload, (m: nat) => TurnAt(w, s, req, m))
  }

  /** One operation: the client's own step, and at the server the turn that it dispatched. */
  function Perform(who: Caller, w: World, x: System, r: Request): Outcome {
    var req := Asked(who, x, r);
    var step := P.Operate(who.cfg, x.client, x.session, Outside(w, x.server, req), x.attempts, r.op);
    var n := x.attempts + |step.sent|;
    var runs := P.Dispatches(step.sent);
    var server := if runs > 0 && n > 0 then T.Continue(w.server, x.server, req, w.envs(n - 1)).state else x.server;
    var got := if r.op.Exchange? && step.ok && n > 0 && Read(w, x.server, req, n - 1).Output?
               then Some(Read(w, x.server, req, n - 1).value) else None;
    Outcome(System(step.client, step.session, server, n), got, runs)
  }

  function Play(who: Caller, w: World, x: System, requests: seq<Request>): (r: seq<Outcome>)
    ensures |r| == |requests|
    decreases |requests|
  {
    if requests == [] then []
    else
      var o := Perform(who, w, x, requests[0]);
      [o] + Play(who, w, o.system, requests[1..])
  }

  /** The batches a run of operations returned to its caller, in order. */
  function Answers(outcomes: seq<Outcome>): seq<Batch> {
    if outcomes == [] then []
    else (if outcomes[0].got.Some? then [outcomes[0].got.value] else []) + Answers(outcomes[1..])
  }

  function Runs(outcomes: seq<Outcome>): nat {
    if outcomes == [] then 0 else outcomes[0].runs + Runs(outcomes[1..])
  }

  function Last(x: System, outcomes: seq<Outcome>): System {
    if outcomes == [] then x else outcomes[|outcomes| - 1].system
  }

  // ---- One turn ----------------------------------------------------------------------------------

  /** The data of an exchange turn; one without data comes out as an empty batch. */
  function OutputOf(e: T.Emission): Batch {
    if e.Raised? || DataIn(e.batches) == [] then Batch(0, 0, []) else DataIn(e.batches)[0]
  }

  /** The same as the client is handed it. */
  function Given(cfg: T.Config, url: string, ms: string, cursor: string, e: T.Emission): Batch {
    if e.Emitted? && DataIn(e.batches) != [] && Stores(cfg.codec, cfg.policy, StampAll(e.batches, cursor))
    then Resolved(OutputOf(e), url, ms) else OutputOf(e)
  }

  /** The server can deliver this turn: nothing fails and no cap or limit is met. */
  predicate Deliverable(cfg: T.Config, limit: Option<nat>, env: T.Env, cursor: string, script: seq<T.Emission>) {
    && script != [] && script[0].Emitted? && !script[0].finish && !env.writeFails
    && var sent := ExchangeTurn(cfg.codec, cfg.policy, map[], env.url, script[0].batches, cursor);
    && !T.OverCap(cfg, sent.bytes)
    && !T.OverLimit(cfg, sent.wire, limit)
  }

  function Before(batches: seq<Batch>): seq<Batch> {
    if batches == [] || !IsLogBatch(batches[0]) then [] else [batches[0]] + Before(batches[1..])
  }

  function Behind(batches: seq<Batch>): seq<Batch> {
    if batches == [] then []
    else if IsLogBatch(batches[0]) then Behind(batches[1..])
    else batches[1..]
  }

  lemma NoDataLeft(batches: seq<Batch>)
    requires (forall b <- batches :: CleanLog(b) || CleanData(b)) && DataIn(batches) == []
    ensures forall b <- batches :: CleanLog(b)
  {
    if batches != [] {
      JudgeClean(batches[0], UNARY, false);
      NoDataLeft(batches[1..]);
    }
  }

  /** A clean turn with data is one batch of it between logs. */
  lemma SplitsAround(batches: seq<Batch>)
    requires (forall b <- batches :: CleanLog(b) || CleanData(b)) && |DataIn(batches)| == 1
    ensures var t := Turn(Before(batches), DataIn(batches)[0], Behind(batches)); t.Clean() && t.Batches() == batches
  {
    JudgeClean(batches[0], UNARY, false);
    if IsLogBatch(batches[0]) {
      SplitsAround(batches[1..]);
    } else {
      NoDataLeft(batches[1..]);
    }
  }

  /** Whatever a clean exchange turn emits, the client reads its output and its cursor back. */
  lemma TurnAnswers(cfg: T.Config, store: Store, env: T.Env, ms: string, cursor: string, e: T.Emission)
    requires Lawful(cfg.codec) && e.Emitted? && CleanEmission(e.batches)
    ensures var sent := ExchangeTurn(cfg.codec, cfg.policy, store, env.url, e.batches, cursor);
      var d := Decode(Resolver(true, cfg.codec, sent.store, ms), sent.wire, EXCHANGE_TURN, false);
      && ExchangeAnswer(d).Output?
      && ExchangeAnswer(d).value == Given(cfg, env.url, ms, cursor, e)
      && ExchangeAnswer(d).cursor == cursor
  {
    hide Decode, ExchangeTurn, ExternalizeCycle, Stores, StampAll, ExchangeAnswer, Resolved;
    var bs := e.batches;
    var sent := ExchangeTurn(cfg.codec, cfg.policy, store, env.url, bs, cursor);
    var r := Resolver(true, cfg.codec, sent.store, ms);
    if DataIn(bs) == [] {
      NoDataLeft(bs);
      DatalessTurnReadsAsEmptyBatch(r, cfg.codec, cfg.policy, store, env.url, bs, cursor);
    } else {
      SplitsAround(bs);
      var t := Turn(Before(bs), DataIn(bs)[0], Behind(bs));
      StoresIff(cfg.codec, cfg.policy, store, env.url, StampAll(bs, cursor));
      if Stores(cfg.codec, cfg.policy, StampAll(bs, cursor)) {
        StoredExchangeIsFaithful(r, cfg.codec, cfg.policy, store, env.url, t, cursor);
      } else {
        InlineExchangeIsFaithful(r, cfg.codec, cfg.policy, store, env.url, t, cursor);
      }
    }
  }

  lemma Undelivered(cfg: T.Config, s: T.State, cursor: string, stream: T.Session, fits: bool, env: T.Env,
                    limit: Option<nat>)
    requires !(fits && Deliverable(cfg, limit, env, cursor, stream.script))
    ensures var t := T.ExchangeContinue(cfg, s, cursor, stream, fits, env, limit);
      t.reply.errorMark && cursor !in t.state.streams
  {
    hide ExternalizeCycle, StampAll, T.OverLimit, T.OverCap;
    var e := T.NextEmission(stream);
    if e.Emitted? {
      T.StoreIndependent(cfg.codec, cfg.policy, s.store, map[], env.url, StampAll(e.batches, cursor));
    }
  }

  lemma DeliveredTurn(cfg: T.Config, s: T.State, cursor: string, stream: T.Session, env: T.Env, limit: Option<nat>)
    requires Deliverable(cfg, limit, env, cursor, stream.script)
    ensures var t := T.ExchangeContinue(cfg, s, cursor, stream, true, env, limit);
      var sent := ExchangeTurn(cfg.codec, cfg.policy, s.store, env.url, stream.script[0].batches, cursor);
      && t.reply == T.Reply(200, false, sent.wire) && t.state.store == sent.store
      && cursor in t.state.streams && t.state.streams[cursor] == stream.(script := stream.script[1..])
  {
    hide ExternalizeCycle, StampAll, T.OverLimit, T.OverCap, T.Failed;
    T.StoreIndependent(cfg.codec, cfg.policy, s.store, map[], env.url, StampAll(stream.script[0].batches, cursor));
  }

  /** A deliverable turn is answered with its output and moves its stream on by one; any other fails and ends it. */
  lemma ExchangeReads(cfg: T.Config, s: T.State, cursor: string, stream: T.Session, fits: bool, env: T.Env,
                      limit: Option<nat>, ms: string)
    requires Lawful(cfg.codec) && CleanTurns(stream.script)
    ensures var t := T.ExchangeContinue(cfg, s, cursor, stream, fits, env, limit);
      var a := ExchangeAnswer(H.Reading(cfg, t, ms, EXCHANGE_TURN));
      if fits && Deliverable(cfg, limit, env, cursor, stream.script) then
        && a.Output? && a.value == Given(cfg, env.url, ms, cursor, stream.script[0]) && a.cursor == cursor
        && cursor in t.state.streams && t.state.streams[cursor] == stream.(script := stream.script[1..])
      else a.Failure? && cursor !in t.state.streams
  {
    hide Decode, ExchangeTurn, T.ExchangeContinue, CleanEmission, Lawful, Given;
    if fits && Deliverable(cfg, limit, env, cursor, stream.script) {
      DeliveredTurn(cfg, s, cursor, stream, env, limit);
      assert stream.script[0] in stream.script;
      TurnAnswers(cfg, s.store, env, ms, cursor, stream.script[0]);
    } else {
      Undelivered(cfg, s, cursor, stream, fits, env, limit);
    }
  }

  // ---- One operation -----------------------------------------------------------------------------

  /** `cursor` names a live exchange stream of a clean handler, open to this caller. */
  ghost predicate Linked(who: Caller, w: World, s: T.State, cursor: string, stream: T.Session) {
    && Lawful(w.server.codec) && cursor != "" && cursor in s.streams && s.streams[cursor] == stream
    && stream.isExchange && stream.aad == who.scope && CleanTurns(stream.script)
    && (w.server.callStateCache || who.token == Some(T.CallToken(stream.method_, cursor, who.scope)))
  }

  predicate Fits(who: Caller, w: World, cursor: string, stream: T.Session, n: nat) {
    Deliverable(w.server, T.MinLimit(T.Limit(w.server, who.limit), stream.limit), w.envs(n), cursor, stream.script)
  }

  /** What a linked stream makes of a request, and its caller of the reply. */
  lemma LinkedTurn(who: Caller, w: World, x: System, r: Request, cursor: string, stream: T.Session, n: nat)
    requires Linked(who, w, x.server, cursor, stream) && x.session.cursor == cursor
    ensures var req := Asked(who, x, r);
      var t := T.Continue(w.server, x.server, req, w.envs(n)).state;
      if !r.op.Cancel? && r.fits && Fits(who, w, cursor, stream, n) then
        && Linked(who, w, t, cursor, stream.(script := stream.script[1..]))
        && var a := Read(w, x.server, req, n);
           && a.Output? && a.cursor == cursor
           && a.value == Given(w.server, w.envs(n).url, w.ms(n), cursor, stream.script[0])
      else cursor !in t.streams && (r.op.Exchange? ==> !Read(w, x.server, req, n).Output?)
  {
    hide T.ExchangeContinue, T.ProducerContinue, Deliverable, H.Reading, Given, Lawful;
    var limit := T.MinLimit(T.Limit(w.server, who.limit), stream.limit);
    ExchangeReads(w.server, x.server, cursor, stream, r.fits, w.envs(n), limit, w.ms(n));
    if Fits(who, w, cursor, stream, n) {
      TailIsClean(w.server, limit, w.envs(n), cursor, stream.script);
    }
  }

  lemma TailIsClean(cfg: T.Config, limit: Option<nat>, env: T.Env, cursor: string, script: seq<T.Emission>)
    requires Deliverable(cfg, limit, env, cursor, script)
    ensures script != [] && script[0].Emitted? && (CleanTurns(script) ==> CleanTurns(script[1..]))
  {
  }

  lemma ReplyStatus(cfg: T.Config, s: T.State, req: T.Continuation, env: T.Env)
    ensures var t := T.Continue(cfg, s, req, env); t.reply.status in {200, 400, 500}
  {
    hide ExchangeTurn, ProducerTurn, T.OverCap, T.OverLimit, T.ErrorBatch;
  }

  /** What the front answers itself it does not dispatch, and no turn is answered with those statuses. */
  lemma OutsideIsLawful(w: World, s: T.State, req: T.Continuation)
    ensures P.Lawful(Outside(w, s, req))
  {
    hide T.Continue;
    forall n: nat, b: P.Body
      ensures var v := Attempt(w, s, req, n, b); P.Refused(v) ==> !P.Dispatched(v)
    {
      ReplyStatus(w.server, s, req, w.envs(n));
    }
  }

  lemma DispatchesLast(sent: seq<P.Sent>)
    requires sent != [] && P.Dispatched(sent[|sent| - 1].wire)
    ensures P.Dispatches(sent) > 0
  {
    if |sent| > 1 {
      DispatchesLast(sent[1..]);
    }
  }

  /** A call is dispatched by its last attempt or not at all, and a usable reply is that of a turn or of nobody's. */
  lemma CallRuns(cfg: P.Config, c: P.Client, w: World, s: T.State, req: T.Continuation, n: nat, size: nat)
    ensures var o := P.Post(cfg, c, Outside(w, s, req), n, size, 1);
      var m := n + |o.sent|;
      && P.Dispatches(o.sent) <= 1
      && (P.Dispatches(o.sent) == 1 ==> m > 0)
      && (o.reply.Got? && TurnAt(w, s, req, m).Some? ==> P.Dispatches(o.sent) == 1)
  {
    hide P.Post, T.Continue, Read, Front;
    var env := Outside(w, s, req);
    var o := P.Post(cfg, c, env, n, size, 1);
    OutsideIsLawful(w, s, req);
    P.PostShape(cfg, c, env, n, size, 1);
    P.PostDispatchesOnce(cfg, c, env, n, size);
    if o.reply.Got? && TurnAt(w, s, req, n + |o.sent|).Some? {
      DispatchesLast(o.sent);
    }
  }

  lemma OneOperation(who: Caller, w: World, x: System, r: Request, cursor: string, stream: T.Session)
    requires Linked(who, w, x.server, cursor, stream) && x.session.Open() && x.session.cursor == cursor
    ensures var o := Perform(who, w, x, r);
      var n := o.system.attempts;
      var rest := stream.(script := stream.script[if stream.script == [] then 0 else 1..]);
      if o.got.Some? then
        && n > 0 && r.op.Exchange? && r.fits && Fits(who, w, cursor, stream, n - 1)
        && o.got.value == Given(w.server, w.envs(n - 1).url, w.ms(n - 1), cursor, stream.script[0])
        && o.runs == 1 && o.system.session.Open() && o.system.session.cursor == cursor
        && Linked(who, w, o.system.server, cursor, rest)
      else if o.system.session.Open() then
        o.runs == 0 && o.system.server == x.server && o.system.session.cursor == cursor
      else if o.runs == 0 then o.system.server == x.server
      else
        && o.runs == 1
        && (cursor in o.system.server.streams ==> stream.script != [] && o.system.server.streams[cursor] == rest)
  {
    hide P.Post, T.Continue, Read, Deliverable, Given, Attempt, P.Dispatches;
    var req := Asked(who, x, r);
    var o := Perform(who, w, x, r);
    if r.op.Close? {
      NothingRuns();
    } else {
      CallRuns(who.cfg, x.client, w, x.server, req, x.attempts, r.op.size);
      NothingRuns();
      if o.system.attempts > 0 {
        var n := o.system.attempts - 1;
        LinkedTurn(who, w, x, r, cursor, stream, n);
        if Fits(who, w, cursor, stream, n) {
          var limit := T.MinLimit(T.Limit(w.server, who.limit), stream.limit);
          TailIsClean(w.server, limit, w.envs(n), cursor, stream.script);
        }
      }
    }
  }

  lemma NothingRuns()
    ensures P.Dispatches([]) == 0
  {
  }

  // ---- Every run ---------------------------------------------------------------------------------

  /** A session that is not open runs nothing and returns nothing. */
  lemma {:induction false} ShutRunsNothing(who: Caller, w: World, x: System, requests: seq<Request>)
    requires !x.session.Open()
    ensures var run := Play(who, w, x, requests);
      Answers(run) == [] && Runs(run) == 0 && Last(x, run).server == x.server && !Last(x, run).session.Open()
    decreases |requests|
  {
    hide Perform, Last;
    LastNext(x, x, []);
    if requests != [] {
      var o := Perform(who, w, x, requests[0]);
      ShutStep(who, w, x, requests[0]);
      ShutRunsNothing(who, w, o.system, requests[1..]);
      PlayNext(who, w, x, requests);
    }
  }

  lemma ShutStep(who: Caller, w: World, x: System, r: Request)
    requires !x.session.Open()
    ensures var o := Perform(who, w, x, r);
      o.got.None? && o.runs == 0 && o.system.server == x.server && !o.system.session.Open()
  {
    hide P.Post, T.Continue, Read;
    NothingRuns();
  }

  lemma LastNext(x: System, y: System, rest: seq<Outcome>)
    ensures Last(x, []) == x
    ensures forall o: Outcome | o.system == y :: Last(x, [o] + rest) == Last(y, rest)
  {
  }

  lemma PlayNext(who: Caller, w: World, x: System, requests: seq<Request>)
    requires requests != []
    ensures var o := Perform(who, w, x, requests[0]);
      var run, rest := Play(who, w, x, requests), Play(who, w, o.system, requests[1..]);
      && Answers(run) == (if o.got.Some? then [o.got.value] else []) + Answers(rest)
      && Runs(run) == o.runs + Runs(rest)
      && Last(x, run) == Last(o.system, rest)
  {
    hide Perform;
    var o := Perform(who, w, x, requests[0]);
    var rest := Play(who, w, o.system, requests[1..]);
    assert ([o] + rest)[0] == o && ([o] + rest)[1..] == rest;
  }

  /** A batch is the output of a turn as it was emitted, or as storage returned it. */
  ghost predicate Answering(cfg: T.Config, got: Batch, e: T.Emission) {
    && e.Emitted?
    && H.ComesFrom(got, OutputOf(e))
    && (!cfg.policy.hasStorage || cfg.policy.threshold < 0 ==> got == OutputOf(e))
  }

  /**
    Where a stream and its session stand after `|got|` answers: they are the outputs of as many turns
    from the front of the script; the session, if it can still send, is exactly that far; and the
    server, if it still has the stream, is that far or one turn further, and has run no more than that.
   */
  ghost predicate Stands(w: World, y: System, cursor: string, stream: T.Session, got: seq<Batch>, runs: nat) {
    var k := |got|;
    && k <= |stream.script| && k <= runs <= k + 1
    && (forall i | 0 <= i < k :: Answering(w.server, got[i], stream.script[i]))
    && (y.session.Open() ==> runs == k && y.session.cursor == cursor && cursor in y.server.streams)
    && (cursor in y.server.streams ==>
          || y.server.streams[cursor] == stream.(script := stream.script[k..])
          || (&& runs == k + 1 <= |stream.script|
              && y.server.streams[cursor] == stream.(script := stream.script[k + 1..])))
  }

  lemma GivenAnswers(cfg: T.Config, url: string, ms: string, cursor: string, e: T.Emission)
    requires e.Emitted?
    ensures Answering(cfg, Given(cfg, url, ms, cursor, e), e)
  {
    hide Resolved, StampAll, DataIn;
  }

  lemma StandsCons(w: World, y: System, cursor: string, stream: T.Session, first: Batch, got: seq<Batch>, runs: nat)
    requires stream.script != [] && Answering(w.server, first, stream.script[0])
    requires Stands(w, y, cursor, stream.(script := stream.script[1..]), got, runs)
    ensures Stands(w, y, cursor, stream, [first] + got, runs + 1)
  {
    hide Answering;
    var all, rest := stream.script, stream.script[1..];
    var k := |got|;
    assert rest[k..] == all[k + 1..];
    assert k < |rest| ==> rest[k + 1..] == all[k + 2..];
    forall i | 0 <= i < k + 1
      ensures Answering(w.server, ([first] + got)[i], all[i])
    {
      if i > 0 {
        assert ([first] + got)[i] == got[i - 1] && all[i] == rest[i - 1];
      }
    }
  }

  /**
    Exactly-once answers over every run of operations, whatever the front refuses and the wire loses:
    the `k` exchanges that returned got the outputs of the stream's first `k` turns, in order; the
    server ran `k` of them, or `k + 1` if one operation ended in doubt, and then nothing is sent any more.
   */
  lemma {:induction false} ExchangesAreInStep(who: Caller, w: World, x: System, requests: seq<Request>,
                                              cursor: string, stream: T.Session)
    requires Linked(who, w, x.server, cursor, stream) && x.session.Open() && x.session.cursor == cursor
    ensures var run := Play(who, w, x, requests);
      Stands(w, Last(x, run), cursor, stream, Answers(run), Runs(run))
    decreases |requests|
  {
    hide Perform, Linked, Fits, Given, Answering, Last;
    LastNext(x, x, []);
    assert stream.script[0..] == stream.script;
    StillLinked(who, w, x.server, cursor, stream);
    if requests != [] {
      var o := Perform(who, w, x, requests[0]);
      PlayNext(who, w, x, requests);
      OneOperation(who, w, x, requests[0], cursor, stream);
      if o.got.Some? {
        var n := o.system.attempts - 1;
        FitsEmits(who, w, cursor, stream, n);
        GivenAnswers(w.server, w.envs(n).url, w.ms(n), cursor, stream.script[0]);
        ExchangesAreInStep(who, w, o.system, requests[1..], cursor, stream.(script := stream.script[1..]));
        var rest := Play(who, w, o.system, requests[1..]);
        StandsCons(w, Last(o.system, rest), cursor, stream, o.got.value, Answers(rest), Runs(rest));
      } else if o.system.session.Open() {
        ExchangesAreInStep(who, w, o.system, requests[1..], cursor, stream);
      } else {
        ShutRunsNothing(who, w, o.system, requests[1..]);
      }
    }
  }

  lemma StillLinked(who: Caller, w: World, s: T.State, cursor: string, stream: T.Session)
    requires Linked(who, w, s, cursor, stream)
    ensures cursor in s.streams && s.streams[cursor] == stream
  {
  }

  lemma FitsEmits(who: Caller, w: World, cursor: string, stream: T.Session, n: nat)
    requires Fits(who, w, cursor, stream, n)
    ensures stream.script != [] && stream.script[0].Emitted?
  {
  }

  // ---- A wire that loses nothing -------------------------------------------------------------------

  /** The front may refuse, but everything is delivered and every upload succeeds, small enough to be let in. */
  ghost predicate Healthy(who: Caller, w: World, c: P.Client) {
    && c.fetched && c.uploads && who.cfg.external && 200 !in who.cfg.statuses && 413 !in who.cfg.statuses
    && (forall n :: w.fate(n) == Delivered)
    && (forall n :: w.advert(n) == P.NO_NEWS)
    && forall n :: w.upload(n).Uploaded? && w.upload(n).advert == P.NO_NEWS
                   && w.upload(n).size <= P.Min(P.Min(who.cfg.maxRequest, c.cap), w.requestCap)
  }

  predicate IsExchange(r: Request) {
    r.op.Exchange? && r.op.valid && r.op.encodes && r.fits
  }

  lemma ExchangeStatus(cfg: T.Config, s: T.State, cursor: string, stream: T.Session, fits: bool, env: T.Env,
                       limit: Option<nat>)
    ensures T.ExchangeContinue(cfg, s, cursor, stream, fits, env, limit).reply.status == 200
  {
    hide ExchangeTurn, T.OverCap, T.OverLimit, T.ErrorBatch;
  }

  lemma OutsideIsWilling(who: Caller, w: World, x: System, r: Request, cursor: string, stream: T.Session)
    requires Linked(who, w, x.server, cursor, stream) && x.session.cursor == cursor
    requires Healthy(who, w, x.client) && !r.op.Cancel?
    ensures P.Willing(Outside(w, x.server, Asked(who, x, r)), 0, w.zstd, w.requestCap)
  {
    hide T.ExchangeContinue, T.ProducerContinue;
    forall n: nat
      ensures T.Continue(w.server, x.server, Asked(who, x, r), w.envs(n)).reply.status == 200
    {
      var limit := T.MinLimit(T.Limit(w.server, who.limit), stream.limit);
      ExchangeStatus(w.server, x.server, cursor, stream, r.fits, w.envs(n), limit);
    }
  }

  lemma HealthyStep(who: Caller, w: World, x: System, r: Request, cursor: string, stream: T.Session)
    requires Linked(who, w, x.server, cursor, stream) && x.session.Open() && x.session.cursor == cursor
    requires Healthy(who, w, x.client) && IsExchange(r) && forall n :: Fits(who, w, cursor, stream, n)
    ensures var o := Perform(who, w, x, r); o.got.Some? && Healthy(who, w, o.system.client)
  {
    hide P.Post, T.Continue, Read, Fits, Given, P.Willing, P.Busy, Attempt;
    var req := Asked(who, x, r);
    var env := Outside(w, x.server, req);
    OutsideIsWilling(who, w, x, r, cursor, stream);
    P.StaysWilling(who.cfg, env, 0, x.attempts, w.zstd, w.requestCap);
    P.CallGetsThrough(who.cfg, x.client, env, x.attempts, 0, r.op.size, 1, w.zstd, w.requestCap);
    NothingRuns();
    var n := x.attempts + |P.Post(who.cfg, x.client, env, x.attempts, r.op.size, 1).sent|;
    LinkedTurn(who, w, x, r, cursor, stream, n - 1);
  }

  /**
    Then every exchange that the stream has a turn for is answered, through every 415 and 413, and
    the session goes on.
   */
  lemma {:induction false} EveryExchangeIsAnswered(who: Caller, w: World, x: System, requests: seq<Request>,
                                                   cursor: string, stream: T.Session)
    requires Linked(who, w, x.server, cursor, stream) && x.session.Open() && x.session.cursor == cursor
    requires Healthy(who, w, x.client) && |requests| <= |stream.script| && forall r <- requests :: IsExchange(r)
    requires forall i, n | 0 <= i < |requests| :: Fits(who, w, cursor, stream.(script := stream.script[i..]), n)
    ensures var run := Play(who, w, x, requests);
      |Answers(run)| == |requests| == Runs(run) && Last(x, run).session.Open()
    decreases |requests|
  {
    hide Perform, Linked, Fits, Given, Last, Healthy, IsExchange;
    LastNext(x, x, []);
    if requests != [] {
      var o := Perform(who, w, x, requests[0]);
      PlayNext(who, w, x, requests);
      assert stream.script[0..] == stream.script;
      HealthyStep(who, w, x, requests[0], cursor, stream);
      OneOperation(who, w, x, requests[0], cursor, stream);
      var rest := stream.(script := stream.script[1..]);
      forall i, n | 0 <= i < |requests| - 1
        ensures Fits(who, w, cursor, rest.(script := rest.script[i..]), n)
      {
        assert rest.script[i..] == stream.script[i + 1..];
      }
      EveryExchangeIsAnswered(who, w, o.system, requests[1..], cursor, rest);
    }
  }
}
