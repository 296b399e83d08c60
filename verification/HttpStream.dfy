/**
  Both ends of a producer stream over HTTP, as the objects they are: a server that updates its
  registry turn by turn, and a client session whose `tick` turns replies back into a stream.
 */
module HttpStream {
  import opened Base
  import opened Wire
  import opened Framing
  import opened FramingLaws
  import opened HttpTurns
  import opened ProducerLaws

  class HttpServer {
    const cfg: Config
    /** What this worker's key opens a call token to. */
    const opens: string -> Option<CallToken>
    var streams: map<string, Session>
    var store: Store

    ghost function Now(): State
      reads this
    {
      State(streams, store)
    }

    constructor (cfg: Config, opens: string -> Option<CallToken>)
      ensures this.cfg == cfg && this.opens == opens && Now() == State(map[], map[])
    {
      this.cfg, this.opens := cfg, opens;
      streams, store := map[], map[];
    }

    method Fail(cursor: string, message: string) returns (reply: Reply, record: Record)
      modifies this`streams
      ensures Turned(Now(), reply, Some(record)) == Failed(old(Now()), cursor, message)
    {
      streams := streams - {cursor};
      return ErrorReply(message), Record(true, false, -1);
    }

    /** Both caps, then the reply; a terminal turn erases its stream only now. */
    method Finish(cursor: string, sent: Sent, limit: Option<nat>, live: bool) returns (reply: Reply, record: Record)
      modifies this
      ensures Turned(Now(), reply, Some(record))
           == Deliver(cfg, old(Now()).(store := sent.store), cursor, sent, limit, live)
    {
      store := sent.store;
      if OverCap(cfg, sent.bytes) {
        reply, record := Fail(cursor, "externalised payload over cap");
        return;
      }
      record := Record(false, false, if live then |cursor| else -1);
      if OverLimit(cfg, sent.wire, limit) {
        reply, record := Fail(cursor, "ResponseTooLargeError");
        return;
      }
      if !live {
        streams := streams - {cursor};
      }
      reply := Reply(200, false, sent.wire);
    }

    method ExchangeDispatch(cursor: string, sess: Session, inputFits: bool, env: Env, limit: Option<nat>)
      returns (reply: Reply, record: Record)
      modifies this
      ensures Turned(Now(), reply, Some(record))
           == ExchangeContinue(cfg, old(Now()), cursor, sess, inputFits, env, limit)
    {
      if !inputFits {
        reply, record := Fail(cursor, "input schema mismatch");
        return;
      }
      var e := NextEmission(sess);
      streams := streams[cursor := Advance(sess)];
      if e.Raised? || e.finish {
        reply, record := Fail(cursor, if e.Raised? then e.message else "finish() is not allowed on exchange streams");
        return;
      }
      if env.writeFails {
        reply, record := Fail(cursor, "write failed");
        return;
      }
      var sent := ExchangeTurn(cfg.codec, cfg.policy, store, env.url, e.batches, cursor);
      reply, record := Finish(cursor, sent, limit, true);
    }

    method ProducerDispatch(cursor: string, sess: Session, lead: seq<Batch>, control: Batch, env: Env,
                            limit: Option<nat>)
      returns (reply: Reply, record: Record)
      modifies this
      ensures Turned(Now(), reply, Some(record))
           == ProducerContinue(cfg, old(Now()), cursor, sess, lead, control, env, limit)
    {
      var e := NextEmission(sess);
      streams := streams[cursor := Advance(sess)];
      if env.writeFails {
        reply, record := Fail(cursor, "write failed");
        return;
      }
      if e.Raised? {
        var wire := lead + [ErrorBatch(e.message)];
        if OverLimit(cfg, wire, limit) {
          reply, record := Fail(cursor, "ResponseTooLargeError");
          return;
        }
        streams := streams - {cursor};
        return Reply(200, true, wire), Record(true, false, -1);
      }
      var sent := ProducerTurn(cfg.codec, cfg.policy, store, env.url, e.batches, if e.finish then [] else [control]);
      reply, record := Finish(cursor, sent.(wire := lead + sent.wire), limit, !e.finish);
    }

    method HandleContinuation(req: Continuation, env: Env) returns (reply: Reply, record: Option<Record>)
      modifies this
      ensures Turned(Now(), reply, record) == Continue(cfg, old(Now()), req, env)
    {
      if req.cursor == "" || req.cursor !in streams {
        return Refusal(), None;
      }
      var sess := streams[req.cursor];
      if sess.aad != req.scope {
        return Refusal(), None;
      }
      var limit := MinLimit(Limit(cfg, req.limit), sess.limit);
      if !cfg.callStateCache && !TokenResolves(req, sess) {
        return Refusal(), None;
      }
      var r: Record;
      if req.cancel {
        streams := streams - {req.cursor};
        if env.writeFails {
          return Reply(500, false, []), Some(Record(true, true, -1));
        }
        if OverLimit(cfg, [], limit) {
          return ErrorReply("ResponseTooLargeError"), Some(Record(true, true, -1));
        }
        return Reply(200, false, []), Some(Record(false, true, -1));
      }
      if sess.isExchange {
        reply, r := ExchangeDispatch(req.cursor, sess, req.inputFits, env, limit);
      } else {
        reply, r := ProducerDispatch(req.cursor, sess, [], CursorBatch(req.cursor), env, limit);
      }
      record := Some(r);
    }

    method HandleInit(open: Opening, cursor: string, callToken: string, env: Env)
      returns (reply: Reply, record: Option<Record>)
      modifies this
      ensures Turned(Now(), reply, record) == Init(cfg, old(Now()), open, cursor, callToken, env)
    {
      if open.stream.None? {
        return ErrorReply("factory"), Some(Record(true, false, -1));
      }
      var sess := Registered(cfg, open, open.stream.value);
      var control := InitBatch(cursor, callToken);
      var r: Record;
      if sess.isExchange {
        streams := streams[cursor := sess];
        if env.writeFails {
          reply, r := Fail(cursor, "write failed");
        } else {
          reply, r := Finish(cursor, Sent(open.logs + [control], store, 0), sess.limit, true);
        }
      } else {
        reply, r := ProducerDispatch(cursor, sess, open.logs, control, env, sess.limit);
      }
      record := Some(r);
    }
  }

  /** A decoded reply: an error mark or a non-2xx status fails even a body that decodes. */
  function Accept(d: Decoded, reply: Reply): Decoded {
    if d.fault.None? && (reply.errorMark || reply.status < 200 || reply.status >= 300)
    then d.(fault := Some(ProtocolError)) else d
  }

  datatype Tick = Delivered(value: Batch) | Ended | Threw

  /**
    Per turn of a run, counted by what the script has left: how it goes at the server, and the time
    the client stamps.
   */
  datatype Run = Run(envs: nat -> Env, ms: nat -> string)

  /** The data a script still has to emit, up to its first failure or its finish. */
  function Emits(script: seq<Emission>): seq<Batch> {
    if script == [] || script[0].Raised? then []
    else DataIn(script[0].batches) + if script[0].finish then [] else Emits(script[1..])
  }

  /** The same as its client is handed it. */
  function Handed(cfg: Config, run: Run, script: seq<Emission>): seq<Batch> {
    if script == [] || script[0].Raised? then []
    else
      var n := |script|;
      Received(cfg.codec, cfg.policy, run.envs(n).url, run.ms(n), script[0].batches)
        + if script[0].finish then [] else Handed(cfg, run, script[1..])
  }

  /** A batch is handed over as it was emitted, or as storage returned it. */
  ghost predicate ComesFrom(got: Batch, emitted: Batch) {
    got == emitted || exists url, ms :: got == Resolved(emitted, url, ms)
  }

  /** Batch for batch, what is handed over is what was emitted; without storage it is the same list. */
  lemma {:induction false} HandedIsEmitted(cfg: Config, run: Run, script: seq<Emission>)
    requires CleanTurns(script)
    ensures |Handed(cfg, run, script)| == |Emits(script)|
    ensures forall i | 0 <= i < |Emits(script)| :: ComesFrom(Handed(cfg, run, script)[i], Emits(script)[i])
    ensures !cfg.policy.hasStorage || cfg.policy.threshold < 0 ==> Handed(cfg, run, script) == Emits(script)
  {
    hide ComesFrom, Received, DataIn, CleanEmission;
    if script != [] && script[0].Emitted? {
      var n := |script|;
      assert script[0] in script;
      OneReceived(cfg, run.envs(n).url, run.ms(n), script[0].batches);
      HandedIsEmitted(cfg, run, script[1..]);
    }
  }

  lemma OneReceived(cfg: Config, url: string, ms: string, batches: seq<Batch>)
    requires CleanEmission(batches)
    ensures var got := Received(cfg.codec, cfg.policy, url, ms, batches);
      && |got| == |DataIn(batches)| <= 1
      && forall i | 0 <= i < |got| :: ComesFrom(got[i], DataIn(batches)[i])
  {
  }

  /** The head of a script is a turn that its server can deliver: nothing fails and no cap or limit is met. */
  predicate TurnFits(cfg: Config, limit: Option<nat>, env: Env, lead: seq<Batch>, script: seq<Emission>,
                     control: Batch) {
    && script != [] && script[0].Emitted? && !env.writeFails
    && var e := script[0];
    && var sent := ProducerTurn(cfg.codec, cfg.policy, map[], env.url, e.batches, if e.finish then [] else [control]);
    && !OverCap(cfg, sent.bytes)
    && !OverLimit(cfg, lead + sent.wire, limit)
  }

  /** So is every turn of a script up to its finish, behind a cursor. */
  predicate RunFits(cfg: Config, limit: Option<nat>, run: Run, cursor: string, script: seq<Emission>) {
    && TurnFits(cfg, limit, run.envs(|script|), [], script, CursorBatch(cursor))
    && (script[0].finish || RunFits(cfg, limit, run, cursor, script[1..]))
  }

  /** The client's reading of a server turn. */
  function Reading(cfg: Config, t: Turned, ms: string, shape: Shape): Decoded {
    Accept(Decode(Resolver(true, cfg.codec, t.state.store, ms), t.reply.wire, shape, false), t.reply)
  }

  /**
    A producer turn that fits is read as its data and nothing else, with the control batch iff the
    stream goes on, which has then moved on by that one turn.  One that does not fit is read as a
    failure, and the stream is gone.
   */
  ghost predicate ReadsTurn(cursor: string, sess: Session, control: Batch, data: seq<Batch>, fits: bool, t: Turned,
                            d: Decoded) {
    if !fits then d.fault.Some? && cursor !in t.state.streams
    else
      && d.fault.None? && sess.script != [] && sess.script[0].Emitted?
      && d.data == data == Stripped(data) && |data| <= 1
      && if sess.script[0].finish then d.control == [] && cursor !in t.state.streams
         else d.control == [control] && cursor in t.state.streams && t.state.streams[cursor] == Advance(sess)
  }

  /** What the client is handed of the next turn of a stream. */
  function NextData(cfg: Config, url: string, ms: string, script: seq<Emission>): seq<Batch> {
    if script == [] || script[0].Raised? then [] else Received(cfg.codec, cfg.policy, url, ms, script[0].batches)
  }

  lemma UnfitTurn(cfg: Config, s: State, cursor: string, sess: Session, lead: seq<Batch>, control: Batch,
                  env: Env, limit: Option<nat>)
    requires !TurnFits(cfg, limit, env, lead, sess.script, control)
    ensures var t := ProducerContinue(cfg, s, cursor, sess, lead, control, env, limit);
      t.reply.errorMark && cursor !in t.state.streams
  {
    hide ExternalizeCycle, OverLimit, OverCap, ErrorBatch;
    var e := NextEmission(sess);
    if e.Emitted? {
      StoreIndependent(cfg.codec, cfg.policy, s.store, map[], env.url, e.batches);
    }
  }

  lemma FitTurn(cfg: Config, s: State, cursor: string, sess: Session, lead: seq<Batch>, control: Batch,
                env: Env, limit: Option<nat>)
    requires TurnFits(cfg, limit, env, lead, sess.script, control)
    ensures var t := ProducerContinue(cfg, s, cursor, sess, lead, control, env, limit);
      var e := sess.script[0];
      var sent := ProducerTurn(cfg.codec, cfg.policy, s.store, env.url, e.batches, if e.finish then [] else [control]);
      && t.reply == Reply(200, false, lead + sent.wire) && t.state.store == sent.store
      && (cursor in t.state.streams <==> !e.finish)
      && (!e.finish ==> t.state.streams[cursor] == Advance(sess))
  {
    hide ExternalizeCycle, OverLimit, OverCap, Failed;
    StoreIndependent(cfg.codec, cfg.policy, s.store, map[], env.url, sess.script[0].batches);
  }

  lemma ProducerReads(cfg: Config, s: State, cursor: string, sess: Session, lead: seq<Batch>, control: Batch,
                      env: Env, limit: Option<nat>, ms: string, shape: Shape)
    requires Lawful(cfg.codec) && CleanTurns(sess.script) && (forall b <- lead :: CleanLog(b)) && IsControl(control)
    requires shape == PRODUCER_TURN || shape == STREAM_INIT
    ensures var t := ProducerContinue(cfg, s, cursor, sess, lead, control, env, limit);
      ReadsTurn(cursor, sess, control, NextData(cfg, env.url, ms, sess.script),
                TurnFits(cfg, limit, env, lead, sess.script, control), t, Reading(cfg, t, ms, shape))
  {
    hide Decode, Stripped, DataIn, LogsIn, Received, ProducerTurn, ProducerContinue, CleanEmission;
    hide IsControl, Lawful, CleanLog;
    if !TurnFits(cfg, limit, env, lead, sess.script, control) {
      UnfitTurn(cfg, s, cursor, sess, lead, control, env, limit);
    } else {
      FitTurn(cfg, s, cursor, sess, lead, control, env, limit);
      var e := sess.script[0];
      assert e in sess.script;
      var tail := if e.finish then [] else [control];
      var sent := ProducerTurn(cfg.codec, cfg.policy, s.store, env.url, e.batches, tail);
      var r := Resolver(true, cfg.codec, sent.store, ms);
      WireReads(r, cfg.codec, cfg.policy, s.store, env.url, lead, e.batches, tail, shape);
      OneReceived(cfg, env.url, ms, e.batches);
    }
  }

  /** A continuation that is not refused is read as the turn of its own stream, and touches no other. */
  lemma ContinuationReads(cfg: Config, s: State, req: Continuation, env: Env, ms: string)
    requires Lawful(cfg.codec) && req.cursor != "" && req.cursor in s.streams && !req.cancel
    requires var sess := s.streams[req.cursor];
      !sess.isExchange && sess.aad == req.scope && TokenResolves(req, sess) && CleanTurns(sess.script)
    ensures var t := Continue(cfg, s, req, env);
      var sess := s.streams[req.cursor];
      var control := CursorBatch(req.cursor);
      var fits := TurnFits(cfg, MinLimit(Limit(cfg, req.limit), sess.limit), env, [], sess.script, control);
      && ReadsTurn(req.cursor, sess, control, NextData(cfg, env.url, ms, sess.script), fits, t,
          Reading(cfg, t, ms, PRODUCER_TURN))
      && OthersKept(s, t.state, req.cursor)
  {
    hide Decode, ReadsTurn, TurnFits, NextData, ProducerContinue, CursorBatch, Alike;
    var sess := s.streams[req.cursor];
    var limit := MinLimit(Limit(cfg, req.limit), sess.limit);
    ControlKeys(req.cursor, "");
    ProducerReads(cfg, s, req.cursor, sess, [], CursorBatch(req.cursor), env, limit, ms, PRODUCER_TURN);
    TurnKeepsOthers(cfg, s, Arrival(Next(req), env));
  }

  lemma TurnKeepsOthers(cfg: Config, s: State, a: Arrival)
    ensures OthersKept(s, Handle(cfg, s, a).state, a.request.Cursor())
  {
    hide Handle, OthersKept;
    SameTurn(cfg, s, s, a);
  }

  /** `/init` runs the producer's first turn, so its reply reads as that turn behind the init logs. */
  lemma InitReads(cfg: Config, s: State, open: Opening, cursor: string, callToken: string, env: Env, ms: string)
    requires Lawful(cfg.codec) && open.stream.Some? && !open.stream.value.isExchange
    requires CleanTurns(open.stream.value.script) && forall b <- open.logs :: CleanLog(b)
    ensures var t := Init(cfg, s, open, cursor, callToken, env);
      var sess := Registered(cfg, open, open.stream.value);
      var control := InitBatch(cursor, callToken);
      var fits := TurnFits(cfg, Limit(cfg, open.limit), env, open.logs, sess.script, control);
      && ReadsTurn(cursor, sess, control, NextData(cfg, env.url, ms, sess.script), fits, t,
          Reading(cfg, t, ms, STREAM_INIT))
      && OthersKept(s, t.state, cursor)
  {
    hide Decode, ReadsTurn, TurnFits, NextData, ProducerContinue, InitBatch, Alike;
    var sess := Registered(cfg, open, open.stream.value);
    ControlKeys(cursor, callToken);
    ProducerReads(cfg, s, cursor, sess, open.logs, InitBatch(cursor, callToken), env, sess.limit, ms, STREAM_INIT);
    TurnKeepsOthers(cfg, s, Arrival(Start(open, cursor, callToken), env));
  }

  /** One turn moves the head of what a script hands over into what its client holds. */
  lemma TurnMoves(cfg: Config, run: Run, script: seq<Emission>)
    requires script != [] && script[0].Emitted?
    ensures var n := |script|;
      Handed(cfg, run, script)
        == NextData(cfg, run.envs(n).url, run.ms(n), script)
           + if script[0].finish then [] else Handed(cfg, run, script[1..])
    ensures CleanTurns(script) ==> CleanTurns(script[1..])
  {
  }

  /** Whether the rest of a script fits does not change by running the turn in front of it. */
  lemma FitsMoves(cfg: Config, limit: Option<nat>, run: Run, cursor: string, script: seq<Emission>)
    ensures var fits := TurnFits(cfg, limit, run.envs(|script|), [], script, CursorBatch(cursor));
      RunFits(cfg, limit, run, cursor, script) <==>
        fits && (script[0].finish || RunFits(cfg, limit, run, cursor, script[1..]))
  {
  }

  /** The call state after `control`: the last one it carries, or the one before it. */
  function ControlCallState(control: seq<Batch>, before: string): string {
    if control == [] then before
    else
      var last := Value(control[|control| - 1].md, CallStateB64);
      if last != "" then last else ControlCallState(control[..|control| - 1], before)
  }

  class HttpStreamSession {
    const server: HttpServer
    const method_: string
    const scope: string
    /** The response size the client says it accepts, on every request. */
    const limit: Option<nat>
    var pending: seq<Batch>
    var cursor: string
    var callState: string
    var isFinished: bool
    var isClosed: bool

    /** The server still has a stream for this session to continue. */
    predicate Live()
      reads this
    {
      !isFinished && cursor != ""
    }

    /** A live session's cursor names its own producer stream, of a handler that leaves the framing alone. */
    ghost predicate Linked()
      reads this, server
    {
      && Lawful(server.cfg.codec)
      && (Live() ==>
            && cursor in server.streams
            && var sess := server.streams[cursor];
            && !sess.isExchange && sess.aad == scope && sess.method_ == method_
            && server.opens(callState) == Some(CallToken(method_, cursor, scope))
            && CleanTurns(sess.script))
    }

    /** Everything the session has yet to hand over, held here or still to be produced. */
    ghost function Future(run: Run): seq<Batch>
      reads this, server
      requires Linked()
    {
      pending + if Live() then Handed(server.cfg, run, server.streams[cursor].script) else []
    }

    /** Every turn still to come is delivered. */
    ghost predicate Fits(run: Run)
      reads this, server
      requires Linked()
    {
      Live() ==>
        var sess := server.streams[cursor];
        RunFits(server.cfg, MinLimit(Limit(server.cfg, limit), sess.limit), run, cursor, sess.script)
    }

    ghost function TurnsLeft(): nat
      reads this, server
      requires Linked()
    {
      if Live() then 1 + |server.streams[cursor].script| else 0
    }

    constructor (server: HttpServer, method_: string, scope: string, limit: Option<nat>)
      ensures this.server == server && this.method_ == method_ && this.scope == scope && this.limit == limit
      ensures pending == [] && cursor == "" && callState == "" && !isFinished && !isClosed
    {
      this.server, this.method_, this.scope, this.limit := server, method_, scope, limit;
      pending, cursor, callState := [], "", "";
      isFinished, isClosed := false, false;
    }

    /** `update_controls`: the last tokens win, and a reply without a cursor finishes the stream. */
    method UpdateControls(control: seq<Batch>)
      modifies this`cursor, this`callState, this`isFinished
      ensures cursor == ControlCursor(control)
      ensures callState == ControlCallState(control, old(callState))
      ensures isFinished == (old(isFinished) || cursor == "")
    {
      cursor := "";
      var i := 0;
      while i < |control|
        invariant 0 <= i <= |control|
        invariant cursor == ControlCursor(control[..i])
        invariant callState == ControlCallState(control[..i], old(callState))
        invariant isFinished == old(isFinished)
      {
        var next := Value(control[i].md, StateB64);
        assert control[..i + 1][..i] == control[..i];
        if next != "" {
          cursor := next;
        }
        var call := Value(control[i].md, CallStateB64);
        if call != "" {
          callState := call;
        }
        i := i + 1;
      }
      assert control[..i] == control;
      if cursor == "" {
        isFinished := true;
      }
    }

    method Absorb(data: seq<Batch>)
      modifies this`pending
      ensures pending == old(pending) + Stripped(data)
    {
      var i := 0;
      while i < |data|
        invariant 0 <= i <= |data|
        invariant old(pending) + Stripped(data) == pending + Stripped(data[i..])
      {
        assert data[i..][1..] == data[i + 1..];
        pending := pending + [data[i].(md := StripTransport(data[i].md))];
        i := i + 1;
      }
    }

    /** One turn of the loop: post the cursor, decode the reply, keep its data and its tokens. */
    method Pull(run: Run) returns (ok: bool)
      requires Linked() && Live() && pending == []
      modifies this, server
      ensures isClosed == old(isClosed)
      ensures ok ==> Linked() && Future(run) == old(Future(run)) && TurnsLeft() < old(TurnsLeft())
      ensures ok && Live() ==> cursor == old(cursor)
      ensures ok ==> Fits(run) == old(Fits(run))
      ensures !ok ==> !old(Fits(run))
      ensures !ok || !Live() ==> old(cursor) !in server.streams
      ensures OthersKept(old(server.Now()), server.Now(), old(cursor))
    {
      hide Decode, Continue, CleanTurns, Handed, NextData, TurnFits, Stripped, CursorBatch;
      hide ControlCursor, ControlCallState, Lawful;
      hide OthersKept, RunFits, Accept, Limit, MinLimit;
      ghost var before := server.Now();
      var sess := server.streams[cursor];
      var req := Continuation(cursor, scope, server.opens(callState), false, true, limit);
      var n := |sess.script|;
      var reply, record := server.HandleContinuation(req, run.envs(n));
      var resolver := Resolver(true, server.cfg.codec, server.store, run.ms(n));
      var decoded := DecodeResponse(resolver, reply.wire, PRODUCER_TURN);
      decoded := Accept(decoded, reply);
      ContinuationReads(server.cfg, before, req, run.envs(n), run.ms(n));
      if decoded.fault.Some? || |decoded.data| > 1 {
        FitsMoves(server.cfg, MinLimit(Limit(server.cfg, limit), sess.limit), run, cursor, sess.script);
        return false;
      }
      TurnMoves(server.cfg, run, sess.script);
      ControlCursorOfOne(cursor);
      CallStateKept(cursor, callState);
      FitsMoves(server.cfg, MinLimit(Limit(server.cfg, limit), sess.limit), run, cursor, sess.script);
      Absorb(decoded.data);
      UpdateControls(decoded.control);
      assert [] + Handed(server.cfg, run, sess.script) == Handed(server.cfg, run, sess.script);
      ok := true;
    }

    method Tick(run: Run) returns (r: Tick)
      requires Linked()
      modifies this, server
      ensures r.Threw? || Linked()
      ensures r.Delivered? ==> old(Future(run)) == [r.value] + Future(run) && Fits(run) == old(Fits(run))
      ensures r.Ended? ==> old(Future(run)) == [] == Future(run) && isFinished && old(Fits(run))
      ensures r.Threw? ==> old(isClosed) || !old(Fits(run))
      ensures r.Delivered? && Live() ==> cursor == old(cursor)
      ensures !old(isClosed) && old(Live()) && !(r.Delivered? && Live()) ==> old(cursor) !in server.streams
      ensures old(isClosed) ==> r == Threw && server.Now() == old(server.Now())
      ensures isClosed == old(isClosed)
      ensures !old(Live()) ==> server.Now() == old(server.Now()) && !Live()
      ensures OthersKept(old(server.Now()), server.Now(), old(cursor))
    {
      hide Handed, CleanTurns, RunFits, Lawful;
      if isClosed {
        return Threw;
      }
      while true
        invariant Linked() && Future(run) == old(Future(run)) && Fits(run) == old(Fits(run))
        invariant isClosed == old(isClosed)
        invariant Live() ==> cursor == old(cursor)
        invariant !Live() && old(Live()) ==> old(cursor) !in server.streams
        invariant !old(Live()) ==> server.Now() == old(server.Now()) && !Live()
        invariant OthersKept(old(server.Now()), server.Now(), old(cursor))
        decreases TurnsLeft()
      {
        if pending != [] {
          var value := pending[0];
          Assoc([value], pending[1..], if Live() then Handed(server.cfg, run, server.streams[cursor].script) else []);
          assert pending == [value] + pending[1..];
          pending := pending[1..];
          return Delivered(value);
        }
        if isFinished || cursor == "" {
          isFinished := true;
          return Ended;
        }
        var ok := Pull(run);
        if !ok {
          return Threw;
        }
      }
    }

    /**
      The caller's loop: `tick` until it says the stream is over.  What it collects is exactly what
      was left to hand over, once each and in order, and it gets to the end of it exactly when every
      turn left is delivered.  Either way the server is left without the stream, and with every other.
     */
    method ReadAll(run: Run) returns (values: seq<Batch>, last: Tick)
      requires Linked()
      modifies this, server
      ensures values <= old(Future(run))
      ensures last.Ended? ==> values == old(Future(run))
      ensures last.Ended? <==> !old(isClosed) && old(Fits(run))
      ensures !last.Delivered?
      ensures !old(isClosed) && old(Live()) ==> old(cursor) !in server.streams
      ensures !old(Live()) ==> server.Now() == old(server.Now())
      ensures OthersKept(old(server.Now()), server.Now(), old(cursor))
    {
      hide Handed, CleanTurns, RunFits, Lawful;
      values := [];
      last := Tick(run);
      while last.Delivered?
        invariant last.Threw? || Linked()
        invariant last.Delivered? ==> old(Future(run)) == values + ([last.value] + Future(run))
        invariant last.Delivered? ==> Fits(run) == old(Fits(run))
        invariant last.Ended? ==> old(Future(run)) == values && old(Fits(run)) && !old(isClosed)
        invariant last.Threw? ==> old(isClosed) || !old(Fits(run))
        invariant values <= old(Future(run))
        invariant isClosed == old(isClosed)
        invariant last.Delivered? && Live() ==> cursor == old(cursor) && old(Live())
        invariant !old(Live()) ==> server.Now() == old(server.Now())
        invariant !old(isClosed) && old(Live()) && !(last.Delivered? && Live()) ==> old(cursor) !in server.streams
        invariant OthersKept(old(server.Now()), server.Now(), old(cursor))
        decreases last.Delivered?, if last.Delivered? then |Future(run)| else 0
      {
        ghost var rest := Future(run);
        Assoc(values, [last.value], rest);
        values := values + [last.value];
        last := Tick(run);
      }
    }
  }

  lemma CallStateKept(cursor: string, before: string)
    ensures ControlCallState([CursorBatch(cursor)], before) == before && ControlCallState([], before) == before
  {
    ControlKeys(cursor, "");
  }

  lemma InitControl(cursor: string, callToken: string)
    requires cursor != "" && callToken != ""
    ensures ControlCursor([InitBatch(cursor, callToken)]) == cursor && ControlCursor([]) == ""
    ensures ControlCallState([InitBatch(cursor, callToken)], "") == callToken
  {
    ControlKeys(cursor, callToken);
  }

  /** What a stream's client is to be given, and whether every turn of it can be: the first one rides on `/init`. */
  predicate StreamFits(cfg: Config, open: Opening, cursor: string, callToken: string, run: Run, script: seq<Emission>) {
    var limit := Limit(cfg, open.limit);
    && TurnFits(cfg, limit, run.envs(|script|), open.logs, script, InitBatch(cursor, callToken))
    && (script[0].finish || RunFits(cfg, limit, run, cursor, script[1..]))
  }

  /** `open_producer`: the stream's first turn has run by the time the session exists. */
  method OpenProducer(server: HttpServer, open: Opening, cursor: string, callToken: string, run: Run)
    returns (session: HttpStreamSession, ok: bool)
    requires Lawful(server.cfg.codec) && open.stream.Some? && !open.stream.value.isExchange
    requires CleanTurns(open.stream.value.script) && forall b <- open.logs :: CleanLog(b)
    requires cursor != "" && callToken != "" && cursor !in server.streams
    requires server.opens(callToken) == Some(CallToken(open.method_, cursor, open.scope))
    modifies server
    ensures fresh(session) && session.server == server && !session.isClosed
    ensures var script := open.stream.value.script;
      && (ok <==> TurnFits(server.cfg, Limit(server.cfg, open.limit), run.envs(|script|), open.logs, script,
                           InitBatch(cursor, callToken)))
      && (ok ==> session.Linked() && session.Future(run) == Handed(server.cfg, run, script))
      && (StreamFits(server.cfg, open, cursor, callToken, run, script) <==> ok && session.Fits(run))
      && (if ok && session.Live() then session.cursor == cursor else cursor !in server.streams)
    ensures OthersKept(old(server.Now()), server.Now(), cursor)
  {
    hide Decode, Init, CleanTurns, Handed, NextData, TurnFits, RunFits, Stripped, InitBatch;
    hide ControlCursor, ControlCallState, Lawful;
    hide OthersKept, Accept, Limit;
    ghost var before := server.Now();
    session := new HttpStreamSession(server, open.method_, open.scope, open.limit);
    var sess := open.stream.value;
    var n := |sess.script|;
    var reply, record := server.HandleInit(open, cursor, callToken, run.envs(n));
    var decoded := DecodeResponse(Resolver(true, server.cfg.codec, server.store, run.ms(n)), reply.wire, STREAM_INIT);
    decoded := Accept(decoded, reply);
    InitReads(server.cfg, before, open, cursor, callToken, run.envs(n), run.ms(n));
    if decoded.fault.Some? || |decoded.data| > 1 {
      return session, false;
    }
    TurnMoves(server.cfg, run, sess.script);
    InitControl(cursor, callToken);
    session.Absorb(decoded.data);
    session.UpdateControls(decoded.control);
    ok := true;
  }

  /**
    Opening a producer stream and reading it to its end.  The client collects a prefix of what the
    producer emits, batch for batch and in order; it gets all of it, and is told so, exactly when no
    turn fails or is over a cap or limit; and without storage every batch is the very one emitted.
    However it ends, the server's registry is what it was.
   */
  method ReadStream(server: HttpServer, open: Opening, cursor: string, callToken: string, run: Run)
    returns (values: seq<Batch>, ended: bool)
    requires Lawful(server.cfg.codec) && open.stream.Some? && !open.stream.value.isExchange
    requires CleanTurns(open.stream.value.script) && forall b <- open.logs :: CleanLog(b)
    requires cursor != "" && callToken != "" && cursor !in server.streams
    requires server.opens(callToken) == Some(CallToken(open.method_, cursor, open.scope))
    modifies server
    ensures var script := open.stream.value.script;
      && (ended <==> StreamFits(server.cfg, open, cursor, callToken, run, script))
      && |values| <= |Emits(script)|
      && (ended ==> |values| == |Emits(script)|)
      && (forall i | 0 <= i < |values| :: ComesFrom(values[i], Emits(script)[i]))
      && (!server.cfg.policy.hasStorage || server.cfg.policy.threshold < 0 ==> values <= Emits(script))
    ensures server.streams == old(server.streams)
  {
    hide CleanTurns, Handed, Emits, StreamFits, TurnFits, RunFits, Lawful, ComesFrom;
    ghost var script := open.stream.value.script;
    HandedIsEmitted(server.cfg, run, script);
    var session, ok := OpenProducer(server, open, cursor, callToken, run);
    if !ok {
      return [], false;
    }
    var last: Tick;
    values, last := session.ReadAll(run);
    ended := last.Ended?;
  }
}
