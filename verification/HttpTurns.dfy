/**
  One HTTP stream turn on the server: `/init`, a continuation, or a cancel, from the registry and
  the request to the new registry, the reply and the access record.

  A stream state is the script of what its `process` calls will do, in order; a script that has run
  out raises.  Whether an upload or an IPC write fails during a turn is part of the turn's `Env`.
 */
module HttpTurns {
  import opened Base
  import opened Wire
  import opened Framing

  /** What one `process` call does: emit batches and perhaps finish, or raise. */
  datatype Emission = Emitted(batches: seq<Batch>, finish: bool) | Raised(message: string)

  /** A live stream of the registry. */
  datatype Session = Session(
    script: seq<Emission>,
    isExchange: bool,
    method_: string,
    aad: string,
    limit: Option<nat>)

  /** Server configuration; a negative cap on uploads is no cap. */
  datatype Config = Config(
    codec: Codec,
    policy: Policy,
    externalCap: int,
    responseCap: Option<nat>,
    callStateCache: bool)

  datatype State = State(streams: map<string, Session>, store: Store)

  /** What the worker's key opens a call token to. */
  datatype CallToken = CallToken(method_: string, cursor: string, scope: string)

  /** `limit` is the response size this request's client says it accepts. */
  datatype Continuation = Continuation(
    cursor: string,
    scope: string,
    callToken: Option<CallToken>,
    cancel: bool,
    inputFits: bool,
    limit: Option<nat>)

  datatype Opening = Opening(
    method_: string,
    scope: string,
    logs: seq<Batch>,
    stream: Option<Session>,
    limit: Option<nat>)

  /** `url` names this turn's upload, `writeFails` says that it or an IPC write raises. */
  datatype Env = Env(url: string, writeFails: bool)

  datatype Reply = Reply(status: nat, errorMark: bool, wire: seq<Batch>)

  /** `stateBytes` is -1 when unset. */
  datatype Record = Record(failed: bool, cancelled: bool, stateBytes: int)

  datatype Turned = Turned(state: State, reply: Reply, record: Option<Record>)

  function ErrorBatch(message: string): Batch {
    Batch(0, 0, [Field(LogLevel, "EXCEPTION"), Field(LogMessage, message)])
  }

  function ErrorReply(message: string): Reply {
    Reply(200, true, [ErrorBatch(message)])
  }

  function Refusal(): Reply {
    Reply(400, true, [ErrorBatch("ProtocolError")])
  }

  /** The sentinel of an `/init` reply: both tokens on one batch. */
  function InitBatch(cursor: string, callToken: string): Batch {
    Batch(0, 0, [Field(StateB64, cursor), Field(CallStateB64, callToken)])
  }

  function MinLimit(a: Option<nat>, b: Option<nat>): Option<nat> {
    if a.Some? && b.Some? then Some(if a.value < b.value then a.value else b.value)
    else if a.Some? then a
    else b
  }

  /** The smaller of the server's own cap and what the client accepts. */
  function Limit(cfg: Config, accepted: Option<nat>): Option<nat> {
    MinLimit(cfg.responseCap, accepted)
  }

  predicate OverLimit(cfg: Config, wire: seq<Batch>, limit: Option<nat>) {
    limit.Some? && |cfg.codec.ipc(wire)| > limit.value
  }

  predicate OverCap(cfg: Config, bytes: nat) {
    cfg.externalCap >= 0 && bytes > cfg.externalCap
  }

  function Drop(s: State, cursor: string): State {
    s.(streams := s.streams - {cursor})
  }

  function Failed(s: State, cursor: string, message: string): Turned {
    Turned(Drop(s, cursor), ErrorReply(message), Some(Record(true, false, -1)))
  }

  /** The next `process` call of a stream and the stream after it. */
  function NextEmission(sess: Session): Emission {
    if sess.script == [] then Raised("exhausted") else sess.script[0]
  }

  function Advance(sess: Session): Session {
    if sess.script == [] then sess else sess.(script := sess.script[1..])
  }

  /** The exits behind a body that was built: both caps, then the ordinary reply. */
  function Deliver(cfg: Config, s: State, cursor: string, sent: Sent, limit: Option<nat>, live: bool): Turned {
    if OverCap(cfg, sent.bytes) then Failed(s, cursor, "externalised payload over cap")
    else if OverLimit(cfg, sent.wire, limit) then Failed(s, cursor, "ResponseTooLargeError")
    else
      Turned(if live then s else Drop(s, cursor), Reply(200, false, sent.wire),
             Some(Record(false, false, if live then |cursor| else -1)))
  }

  /** A producer turn whose handler raised answers with the exception, unless even that is over the limit. */
  function RaisedTurn(cfg: Config, s: State, cursor: string, wire: seq<Batch>, limit: Option<nat>): Turned {
    if OverLimit(cfg, wire, limit) then Failed(s, cursor, "ResponseTooLargeError")
    else Turned(Drop(s, cursor), Reply(200, true, wire), Some(Record(true, false, -1)))
  }

  /** The empty reply to a cancel is written outside any handler: if that fails, the answer is a bare 500. */
  function CancelTurn(cfg: Config, s: State, cursor: string, env: Env, limit: Option<nat>): Turned {
    if env.writeFails then Turned(Drop(s, cursor), Reply(500, false, []), Some(Record(true, true, -1)))
    else if OverLimit(cfg, [], limit)
    then Turned(Drop(s, cursor), ErrorReply("ResponseTooLargeError"), Some(Record(true, true, -1)))
    else Turned(Drop(s, cursor), Reply(200, false, []), Some(Record(false, true, -1)))
  }

  function ExchangeContinue(cfg: Config, s: State, cursor: string, sess: Session, inputFits: bool, env: Env,
                            limit: Option<nat>): Turned {
    if !inputFits then Failed(s, cursor, "input schema mismatch")
    else
      var e := NextEmission(sess);
      var s1 := s.(streams := s.streams[cursor := Advance(sess)]);
      if e.Raised? || e.finish then
        Failed(s1, cursor, if e.Raised? then e.message else "finish() is not allowed on exchange streams")
      else if env.writeFails then Failed(s1, cursor, "write failed")
      else
        var sent := ExchangeTurn(cfg.codec, cfg.policy, s1.store, env.url, e.batches, cursor);
        Deliver(cfg, s1.(store := sent.store), cursor, sent, limit, true)
  }

  /** One producer turn behind `lead`, the init logs; an unfinished one ends with `control`. */
  function ProducerContinue(cfg: Config, s: State, cursor: string, sess: Session, lead: seq<Batch>, control: Batch,
                            env: Env, limit: Option<nat>): Turned {
    var e := NextEmission(sess);
    var s1 := s.(streams := s.streams[cursor := Advance(sess)]);
    if env.writeFails then Failed(s1, cursor, "write failed")
    else if e.Raised? then RaisedTurn(cfg, s1, cursor, lead + [ErrorBatch(e.message)], limit)
    else
      var sent := ProducerTurn(cfg.codec, cfg.policy, s1.store, env.url, e.batches, if e.finish then [] else [control]);
      Deliver(cfg, s1.(store := sent.store), cursor, sent.(wire := lead + sent.wire), limit, !e.finish)
  }

  predicate TokenResolves(req: Continuation, sess: Session) {
    && req.callToken.Some?
    && req.callToken.value == CallToken(sess.method_, req.cursor, req.scope)
  }

  /** The refusals before a continuation becomes a turn: unknown cursor, another scope, no call token. */
  predicate Refused(cfg: Config, s: State, req: Continuation) {
    || req.cursor == ""
    || req.cursor !in s.streams
    || s.streams[req.cursor].aad != req.scope
    || (!cfg.callStateCache && !TokenResolves(req, s.streams[req.cursor]))
  }

  /** A continuation that was let in, on the stream it was let in to. */
  function Dispatch(cfg: Config, s: State, sess: Session, req: Continuation, env: Env): Turned {
    var limit := MinLimit(Limit(cfg, req.limit), sess.limit);
    if req.cancel then CancelTurn(cfg, s, req.cursor, env, limit)
    else if sess.isExchange then ExchangeContinue(cfg, s, req.cursor, sess, req.inputFits, env, limit)
    else ProducerContinue(cfg, s, req.cursor, sess, [], CursorBatch(req.cursor), env, limit)
  }

  function Continue(cfg: Config, s: State, req: Continuation, env: Env): Turned {
    if Refused(cfg, s, req) then Turned(s, Refusal(), None)
    else Dispatch(cfg, s, s.streams[req.cursor], req, env)
  }

  /** What the registry keeps of a stream beside what its factory made. */
  function Registered(cfg: Config, open: Opening, stream: Session): Session {
    stream.(method_ := open.method_, aad := open.scope, limit := Limit(cfg, open.limit))
  }

  /** `/init` with the cursor and call token it minted; a factory that raises opens nothing. */
  function Init(cfg: Config, s: State, open: Opening, cursor: string, callToken: string, env: Env): Turned {
    if open.stream.None? then Turned(s, ErrorReply("factory"), Some(Record(true, false, -1)))
    else
      var sess := Registered(cfg, open, open.stream.value);
      var control := InitBatch(cursor, callToken);
      if sess.isExchange then
        var s1 := s.(streams := s.streams[cursor := sess]);
        if env.writeFails then Failed(s1, cursor, "write failed")
        else Deliver(cfg, s1, cursor, Sent(open.logs + [control], s.store, 0), sess.limit, true)
      else ProducerContinue(cfg, s, cursor, sess, open.logs, control, env, sess.limit)
  }

  // ---- Token, registry and record agree ------------------------------------------------------

  /** The batches a client can see of a wire: the wire's own, and what is stored behind its pointers. */
  function Behind(c: Codec, store: Store, b: Batch): seq<Batch> {
    var url := Value(b.md, Location);
    if !Has(b.md, Location) || url !in store then []
    else
      var o := store[url];
      var raw := if o.zstd then c.unzip(o.body) else Some(o.body);
      if raw.None? || c.read(raw.value).None? then [] else c.read(raw.value).value
  }

  ghost predicate Carries(c: Codec, store: Store, wire: seq<Batch>, cursor: string) {
    exists b <- wire ::
      Value(b.md, StateB64) == cursor || exists x <- Behind(c, store, b) :: Value(x.md, StateB64) == cursor
  }

  /** Registered, carried without an error mark: both or neither. */
  ghost predicate Agrees(cfg: Config, t: Turned, cursor: string) {
    cursor in t.state.streams <==> Carries(cfg.codec, t.state.store, t.reply.wire, cursor) && !t.reply.errorMark
  }

  /**
    What a dispatched turn always leaves: a record that tells size and failure, and a live cursor in
    the client's hands.
   */
  ghost predicate Accounted(cfg: Config, t: Turned, cursor: string) {
    && t.record.Some?
    && t.record.value.stateBytes == (if cursor in t.state.streams then |cursor| else -1)
    && (t.record.value.failed <==> t.reply.errorMark || t.reply.status == 500)
    && (cursor in t.state.streams ==> Carries(cfg.codec, t.state.store, t.reply.wire, cursor) && !t.reply.errorMark)
  }

  /** Every other stream is left as it was. */
  ghost predicate OthersKept(s: State, t: State, cursor: string) {
    forall c | c != cursor :: (c in s.streams <==> c in t.streams) && (c in s.streams ==> t.streams[c] == s.streams[c])
  }

  /** A producer's last turn is delivered. */
  predicate Finishes(cfg: Config, store: Store, e: Emission, lead: seq<Batch>, env: Env, limit: Option<nat>) {
    && !env.writeFails && e.Emitted? && e.finish
    && var sent := ProducerTurn(cfg.codec, cfg.policy, store, env.url, e.batches, []);
    && !OverCap(cfg, sent.bytes) && !OverLimit(cfg, lead + sent.wire, limit)
  }

  /** The batches a handler gave a turn show the cursor themselves, in the open or behind a pointer of their own. */
  ghost predicate Shows(cfg: Config, store: Store, url: string, lead: seq<Batch>, batches: seq<Batch>, cursor: string) {
    var e := ExternalizeCycle(cfg.codec, cfg.policy, store, url, batches);
    || Carries(cfg.codec, e.store, lead, cursor)
    || if e.pointer.Some? then exists b <- batches :: Value(b.md, StateB64) == cursor
       else Carries(cfg.codec, store, batches, cursor)
  }

  /** The one way a client is shown a cursor that is no longer registered. */
  ghost predicate Leaks(cfg: Config, s: State, cursor: string, sess: Session, lead: seq<Batch>, env: Env,
                        limit: Option<nat>) {
    var e := NextEmission(sess);
    Finishes(cfg, s.store, e, lead, env, limit) && Shows(cfg, s.store, env.url, lead, e.batches, cursor)
  }

  lemma DeliverAgrees(cfg: Config, s: State, cursor: string, sent: Sent, limit: Option<nat>, live: bool)
    requires cursor in s.streams && cursor != ""
    requires live ==> Carries(cfg.codec, s.store, sent.wire, cursor)
    ensures var t := Deliver(cfg, s, cursor, sent, limit, live);
      && Accounted(cfg, t, cursor) && OthersKept(s, t.state, cursor)
      && !t.record.value.cancelled && t.reply.status == 200
      && (Agrees(cfg, t, cursor) <==>
            || live || OverCap(cfg, sent.bytes) || OverLimit(cfg, sent.wire, limit)
            || !Carries(cfg.codec, s.store, sent.wire, cursor))
  {
    hide Carries;
  }

  /** What externalization puts on the wire in place of `batches` shows a client the cursors it uploaded. */
  lemma PointerCarries(c: Codec, policy: Policy, store: Store, url: string, batches: seq<Batch>, cursor: string)
    requires Lawful(c) && cursor != ""
    requires ExternalizeCycle(c, policy, store, url, batches).pointer.Some?
    ensures var e := ExternalizeCycle(c, policy, store, url, batches);
      Carries(c, e.store, [Batch(0, 0, e.pointer.value)], cursor) <==>
        exists b <- batches :: Value(b.md, StateB64) == cursor
  {
  }

  lemma CarriesAppend(c: Codec, store: Store, a: seq<Batch>, b: seq<Batch>, cursor: string)
    ensures Carries(c, store, a + b, cursor) <==> Carries(c, store, a, cursor) || Carries(c, store, b, cursor)
  {
    assert forall x :: x in a + b <==> x in a || x in b;
  }

  lemma ControlCarries(c: Codec, store: Store, cursor: string, token: string)
    requires cursor != ""
    ensures Carries(c, store, [CursorBatch(cursor)], cursor) && Carries(c, store, [InitBatch(cursor, token)], cursor)
    ensures !Carries(c, store, [], cursor)
  {
    assert CursorBatch(cursor) in [CursorBatch(cursor)] && InitBatch(cursor, token) in [InitBatch(cursor, token)];
  }

  /** Stamping leaves the last batch with the cursor if it has rows, whatever its handler had put there. */
  lemma LastStamped(batches: seq<Batch>, cursor: string)
    requires batches != [] && batches[|batches| - 1].rows > 0
    ensures exists b <- StampAll(batches, cursor) :: Value(b.md, StateB64) == cursor
  {
    var stamped := StampAll(batches, cursor);
    if |batches| == 1 {
      var b := batches[0];
      var f := CursorField(cursor);
      assert [f][1..] == [];
      assert Merge(b.md, [f]) == Merge(Erase(b.md, StateB64) + [f], [f][1..]);
      EraseHas(b.md, StateB64);
      ValueAppend(Erase(b.md, StateB64), [f], StateB64);
      assert stamped[0] in stamped;
    } else {
      LastStamped(batches[1..], cursor);
      var b :| b in StampAll(batches[1..], cursor) && Value(b.md, StateB64) == cursor;
      assert b in stamped;
    }
  }

  lemma ExchangeWireCarries(cfg: Config, store: Store, url: string, batches: seq<Batch>, cursor: string)
    requires Lawful(cfg.codec) && cursor != ""
    ensures var sent := ExchangeTurn(cfg.codec, cfg.policy, store, url, batches, cursor);
      Carries(cfg.codec, sent.store, sent.wire, cursor)
  {
    hide Lawful, StampAll;
    var stamped := StampAll(batches, cursor);
    var e := ExternalizeCycle(cfg.codec, cfg.policy, store, url, stamped);
    var body := if e.pointer.Some? then [Batch(0, 0, e.pointer.value)] else stamped;
    var trailing := batches == [] || batches[|batches| - 1].rows == 0;
    CarriesAppend(cfg.codec, e.store, body, if trailing then [CursorBatch(cursor)] else [], cursor);
    ControlCarries(cfg.codec, e.store, cursor, "");
    if !trailing {
      LastStamped(batches, cursor);
      if e.pointer.Some? {
        PointerCarries(cfg.codec, cfg.policy, store, url, stamped, cursor);
      }
    }
  }

  lemma ProducerWireCarries(cfg: Config, store: Store, url: string, lead: seq<Batch>, batches: seq<Batch>,
                            control: seq<Batch>, cursor: string)
    requires Lawful(cfg.codec) && cursor != ""
    ensures var sent := ProducerTurn(cfg.codec, cfg.policy, store, url, batches, control);
      Carries(cfg.codec, sent.store, lead + sent.wire, cursor) <==>
        Shows(cfg, store, url, lead, batches, cursor) || Carries(cfg.codec, sent.store, control, cursor)
  {
    hide Lawful, Carries;
    var e := ExternalizeCycle(cfg.codec, cfg.policy, store, url, batches);
    var body := if e.pointer.Some? then [Batch(0, 0, e.pointer.value)] else batches;
    CarriesAppend(cfg.codec, e.store, lead, body + control, cursor);
    CarriesAppend(cfg.codec, e.store, body, control, cursor);
    if e.pointer.Some? {
      PointerCarries(cfg.codec, cfg.policy, store, url, batches, cursor);
    }
  }

  lemma ProducerAgrees(cfg: Config, s: State, cursor: string, sess: Session, lead: seq<Batch>, control: Batch,
                       env: Env, limit: Option<nat>)
    requires Lawful(cfg.codec) && cursor != ""
    requires forall store :: Carries(cfg.codec, store, [control], cursor)
    ensures var t := ProducerContinue(cfg, s, cursor, sess, lead, control, env, limit);
      && Accounted(cfg, t, cursor) && OthersKept(s, t.state, cursor)
      && !t.record.value.cancelled && t.reply.status == 200
      && (Agrees(cfg, t, cursor) <==> !Leaks(cfg, s, cursor, sess, lead, env, limit))
  {
    hide Lawful, Carries, Shows, ExternalizeCycle;
    var e := NextEmission(sess);
    var s1 := s.(streams := s.streams[cursor := Advance(sess)]);
    if !env.writeFails && e.Emitted? {
      var tail := if e.finish then [] else [control];
      var sent := ProducerTurn(cfg.codec, cfg.policy, s.store, env.url, e.batches, tail);
      ProducerWireCarries(cfg, s.store, env.url, lead, e.batches, tail, cursor);
      ControlCarries(cfg.codec, sent.store, cursor, "");
      assert Carries(cfg.codec, sent.store, [control], cursor);
      DeliverAgrees(cfg, s1.(store := sent.store), cursor, sent.(wire := lead + sent.wire), limit, !e.finish);
    }
  }

  /**
    After every dispatched turn the access record tells the cursor's size iff it is registered, a
    registered cursor was carried without an error mark, and no other stream changed.  A cursor that
    is not registered was not carried either, unless a producer's delivered last turn shows it itself.
   */
  lemma ContinueAgrees(cfg: Config, s: State, req: Continuation, env: Env)
    requires Lawful(cfg.codec) && !Refused(cfg, s, req)
    ensures var t := Continue(cfg, s, req, env);
      var sess := s.streams[req.cursor];
      && Accounted(cfg, t, req.cursor) && OthersKept(s, t.state, req.cursor)
      && (t.record.value.cancelled <==> req.cancel)
      && t.reply.status == (if req.cancel && env.writeFails then 500 else 200)
      && (t.reply.status == 500 ==> t.reply.wire == [] && !t.reply.errorMark)
      && (Agrees(cfg, t, req.cursor) <==>
            req.cancel || sess.isExchange
            || !Leaks(cfg, s, req.cursor, sess, [], env, MinLimit(Limit(cfg, req.limit), sess.limit)))
  {
    hide Lawful, Carries, Leaks, ExchangeTurn, ProducerContinue, Deliver, CursorBatch;
    var cursor := req.cursor;
    var sess := s.streams[cursor];
    var limit := MinLimit(Limit(cfg, req.limit), sess.limit);
    if req.cancel {
      ControlCarries(cfg.codec, s.store, cursor, "");
    } else if sess.isExchange {
      var e := NextEmission(sess);
      if req.inputFits && e.Emitted? && !e.finish && !env.writeFails {
        var s1 := s.(streams := s.streams[cursor := Advance(sess)]);
        var sent := ExchangeTurn(cfg.codec, cfg.policy, s.store, env.url, e.batches, cursor);
        ExchangeWireCarries(cfg, s.store, env.url, e.batches, cursor);
        DeliverAgrees(cfg, s1.(store := sent.store), cursor, sent, limit, true);
      }
    } else {
      forall store
        ensures Carries(cfg.codec, store, [CursorBatch(cursor)], cursor)
      {
        ControlCarries(cfg.codec, store, cursor, "");
      }
      ProducerAgrees(cfg, s, cursor, sess, [], CursorBatch(cursor), env, limit);
    }
  }

  /** The same of `/init`, whose cursor is freshly minted. */
  lemma InitAgrees(cfg: Config, s: State, open: Opening, cursor: string, callToken: string, env: Env)
    requires Lawful(cfg.codec) && cursor != "" && cursor !in s.streams
    ensures var t := Init(cfg, s, open, cursor, callToken, env);
      && Accounted(cfg, t, cursor) && OthersKept(s, t.state, cursor)
      && !t.record.value.cancelled && t.reply.status == 200
      && (Agrees(cfg, t, cursor) <==>
            open.stream.None? || open.stream.value.isExchange
            || !Leaks(cfg, s, cursor, Registered(cfg, open, open.stream.value), open.logs, env, Limit(cfg, open.limit)))
  {
    hide Lawful, Carries, Leaks, ProducerContinue, Deliver, InitBatch;
    forall store
      ensures Carries(cfg.codec, store, [InitBatch(cursor, callToken)], cursor)
    {
      ControlCarries(cfg.codec, store, cursor, callToken);
    }
    if open.stream.Some? {
      var sess := Registered(cfg, open, open.stream.value);
      var control := InitBatch(cursor, callToken);
      if sess.isExchange {
        CarriesAppend(cfg.codec, s.store, open.logs, [control], cursor);
        if !env.writeFails {
          var sent := Sent(open.logs + [control], s.store, 0);
          DeliverAgrees(cfg, s.(streams := s.streams[cursor := sess]), cursor, sent, sess.limit, true);
        }
      } else {
        ProducerAgrees(cfg, s, cursor, sess, open.logs, control, env, sess.limit);
      }
    }
  }

  /** It can happen: a producer whose last batch names its own cursor, on a server without storage or caps. */
  lemma ProducerCanShowItsCursor(codec: Codec)
    requires Lawful(codec)
    ensures var last := Emitted([Batch(1, 7, [Field(StateB64, "c")])], true);
      var cfg := Config(codec, Policy(false, -1, false), -1, None, true);
      var s := State(map["c" := Session([last], false, "m", "a", None)], map[]);
      var t := Continue(cfg, s, Continuation("c", "a", None, false, true, None), Env("u", false));
      "c" !in t.state.streams && !t.reply.errorMark && Carries(codec, t.state.store, t.reply.wire, "c")
  {
  }

  /** A batch whose handler left cursors and pointers to the framework. */
  predicate Plain(b: Batch) {
    !Has(b.md, StateB64) && !Has(b.md, Location)
  }

  lemma PlainShowsNothing(c: Codec, store: Store, batches: seq<Batch>, cursor: string)
    requires cursor != "" && forall b <- batches :: Plain(b)
    ensures !Carries(c, store, batches, cursor)
    ensures forall b <- batches :: Value(b.md, StateB64) != cursor
  {
    forall b <- batches
      ensures Value(b.md, StateB64) != cursor && Behind(c, store, b) == []
    {
      assert Plain(b);
    }
  }

  /** Handlers that do so leak nothing. */
  lemma PlainHandlersLeakNothing(cfg: Config, s: State, cursor: string, sess: Session, lead: seq<Batch>, env: Env,
                                 limit: Option<nat>)
    requires cursor != "" && (forall b <- lead :: Plain(b))
    requires forall e <- sess.script | e.Emitted? :: forall b <- e.batches :: Plain(b)
    ensures !Leaks(cfg, s, cursor, sess, lead, env, limit)
  {
    hide ExternalizeCycle, Finishes, Carries, Plain;
    var e := NextEmission(sess);
    if Finishes(cfg, s.store, e, lead, env, limit) {
      FinishesEmits(cfg, s.store, e, lead, env, limit);
      assert sess.script != [] && e in sess.script;
      PlainShowsNothing(cfg.codec, s.store, e.batches, cursor);
      var stored := ExternalizeCycle(cfg.codec, cfg.policy, s.store, env.url, e.batches).store;
      PlainShowsNothing(cfg.codec, stored, lead, cursor);
    }
  }

  lemma FinishesEmits(cfg: Config, store: Store, e: Emission, lead: seq<Batch>, env: Env, limit: Option<nat>)
    requires Finishes(cfg, store, e, lead, env, limit)
    ensures e.Emitted?
  {
  }

  // ---- Runs of requests --------------------------------------------------------------------------

  datatype Request =
    | Start(open: Opening, cursor: string, callToken: string)
    | Next(continuation: Continuation)
  {
    function Cursor(): string {
      if Start? then cursor else continuation.cursor
    }
  }

  /** One request and how its turn goes. */
  datatype Arrival = Arrival(request: Request, env: Env)

  function Handle(cfg: Config, s: State, a: Arrival): Turned {
    match a.request
    case Start(open, cursor, callToken) => Init(cfg, s, open, cursor, callToken, a.env)
    case Next(continuation) => Continue(cfg, s, continuation, a.env)
  }

  /** The turns of a run, in the order they arrived. */
  function Turns(cfg: Config, s: State, arrivals: seq<Arrival>): (r: seq<Turned>)
    ensures |r| == |arrivals|
    decreases |arrivals|
  {
    if arrivals == [] then []
    else
      var t := Handle(cfg, s, arrivals[0]);
      [t] + Turns(cfg, t.state, arrivals[1..])
  }

  function Final(s: State, turns: seq<Turned>): State {
    if turns == [] then s else turns[|turns| - 1].state
  }

  /** The turns that were not refused: those that filed a record. */
  function Recorded(turns: seq<Turned>): seq<Turned> {
    if turns == [] then []
    else (if turns[0].record.Some? then [turns[0]] else []) + Recorded(turns[1..])
  }

  function Heard(cfg: Config, s: State, arrivals: seq<Arrival>): seq<Arrival>
    decreases |arrivals|
  {
    if arrivals == [] then []
    else
      var a := arrivals[0];
      (if a.request.Next? && Refused(cfg, s, a.request.continuation) then [] else [a])
        + Heard(cfg, Handle(cfg, s, a).state, arrivals[1..])
  }

  /** A continuation is refused with 400 exactly when it files no record, and then it changes nothing. */
  lemma RefusedChangesNothing(cfg: Config, s: State, req: Continuation, env: Env)
    ensures Refused(cfg, s, req) <==> Continue(cfg, s, req, env).record.None?
    ensures Refused(cfg, s, req) ==> Continue(cfg, s, req, env) == Turned(s, Refusal(), None)
    ensures var r := Refusal();
      && r.status == 400 && r.errorMark && |r.wire| == 1 && r.wire[0].rows == 0
      && Value(r.wire[0].md, LogLevel) == "EXCEPTION" && Value(r.wire[0].md, LogMessage) == "ProtocolError"
  {
  }

  /**
    Refused requests are invisible: a run answers, records and ends as if they had never been sent,
    and files one record for every other request.
   */
  lemma {:induction false} RefusedAreInvisible(cfg: Config, s: State, arrivals: seq<Arrival>)
    ensures Turns(cfg, s, Heard(cfg, s, arrivals)) == Recorded(Turns(cfg, s, arrivals))
    ensures Final(s, Turns(cfg, s, Heard(cfg, s, arrivals))) == Final(s, Turns(cfg, s, arrivals))
    decreases |arrivals|
  {
    hide Handle, Refused, Final;
    if arrivals != [] {
      var a := arrivals[0];
      var t := Handle(cfg, s, a);
      var rest := Heard(cfg, t.state, arrivals[1..]);
      var turns := Turns(cfg, t.state, arrivals[1..]);
      RefusedAreInvisible(cfg, t.state, arrivals[1..]);
      HeardIsRecorded(cfg, s, a);
      assert ([t] + turns)[0] == t && ([t] + turns)[1..] == turns;
      FinalNext(s, t, turns);
      if t.record.None? {
        assert [] + rest == rest && [] + Recorded(turns) == Recorded(turns);
      } else {
        assert ([a] + rest)[0] == a && ([a] + rest)[1..] == rest;
        FinalNext(s, t, Turns(cfg, t.state, rest));
      }
    }
  }

  lemma FinalNext(s: State, t: Turned, turns: seq<Turned>)
    ensures Final(s, [t] + turns) == Final(t.state, turns)
  {
  }

  lemma HeardIsRecorded(cfg: Config, s: State, a: Arrival)
    ensures var refused := a.request.Next? && Refused(cfg, s, a.request.continuation);
      && (refused <==> Handle(cfg, s, a).record.None?)
      && (refused ==> Handle(cfg, s, a).state == s)
  {
    hide ExchangeTurn, ProducerTurn, Refused;
    if a.request.Next? {
      RefusedChangesNothing(cfg, s, a.request.continuation, a.env);
    }
  }

  /** The requests of a run that name one stream, and the turns they got. */
  function Only(arrivals: seq<Arrival>, cursor: string): seq<Arrival> {
    if arrivals == [] then []
    else (if arrivals[0].request.Cursor() == cursor then [arrivals[0]] else []) + Only(arrivals[1..], cursor)
  }

  datatype Answered = Answered(reply: Reply, record: Option<Record>)

  function AnswersTo(cfg: Config, s: State, arrivals: seq<Arrival>, cursor: string): seq<Answered>
    decreases |arrivals|
  {
    if arrivals == [] then []
    else
      var t := Handle(cfg, s, arrivals[0]);
      (if arrivals[0].request.Cursor() == cursor then [Answered(t.reply, t.record)] else [])
        + AnswersTo(cfg, t.state, arrivals[1..], cursor)
  }

  predicate SameAt(s: State, t: State, cursor: string) {
    (cursor in s.streams <==> cursor in t.streams) && (cursor in s.streams ==> s.streams[cursor] == t.streams[cursor])
  }

  /** Two turns from states that agree on a stream answer alike, leave states that agree on it, and touch no other. */
  ghost predicate Alike(s: State, x: Turned, y: Turned, cursor: string) {
    x.reply == y.reply && x.record == y.record && SameAt(x.state, y.state, cursor) && OthersKept(s, x.state, cursor)
  }

  lemma UpdatedAlike(s: State, t: State, cursor: string, sess: Session, m: Store, n: Store)
    ensures SameAt(State(s.streams[cursor := sess], m), State(t.streams[cursor := sess], n), cursor)
    ensures OthersKept(s, State(s.streams[cursor := sess], m), cursor)
  {
  }

  lemma FailedAlike(s: State, s1: State, t1: State, cursor: string, message: string)
    requires SameAt(s1, t1, cursor) && OthersKept(s, s1, cursor)
    ensures Alike(s, Failed(s1, cursor, message), Failed(t1, cursor, message), cursor)
  {
  }

  lemma RaisedAlike(cfg: Config, s: State, s1: State, t1: State, cursor: string, wire: seq<Batch>, limit: Option<nat>)
    requires SameAt(s1, t1, cursor) && OthersKept(s, s1, cursor)
    ensures Alike(s, RaisedTurn(cfg, s1, cursor, wire, limit), RaisedTurn(cfg, t1, cursor, wire, limit), cursor)
  {
    hide Failed;
    if OverLimit(cfg, wire, limit) {
      FailedAlike(s, s1, t1, cursor, "ResponseTooLargeError");
    }
  }

  lemma DeliverAlike(cfg: Config, s: State, s1: State, t1: State, cursor: string, x: Sent, y: Sent,
                     limit: Option<nat>, live: bool)
    requires SameAt(s1, t1, cursor) && OthersKept(s, s1, cursor) && x.wire == y.wire && x.bytes == y.bytes
    ensures Alike(s, Deliver(cfg, s1, cursor, x, limit, live), Deliver(cfg, t1, cursor, y, limit, live), cursor)
  {
    hide Failed;
    if OverCap(cfg, x.bytes) {
      FailedAlike(s, s1, t1, cursor, "externalised payload over cap");
    } else if OverLimit(cfg, x.wire, limit) {
      FailedAlike(s, s1, t1, cursor, "ResponseTooLargeError");
    }
  }

  lemma CancelAlike(cfg: Config, s: State, t: State, cursor: string, env: Env, limit: Option<nat>)
    ensures Alike(s, CancelTurn(cfg, s, cursor, env, limit), CancelTurn(cfg, t, cursor, env, limit), cursor)
  {
  }

  /** What is stored already changes neither what a turn uploads nor what it sends. */
  lemma StoreIndependent(c: Codec, policy: Policy, s: Store, t: Store, url: string, batches: seq<Batch>)
    ensures var x, y := ExternalizeCycle(c, policy, s, url, batches), ExternalizeCycle(c, policy, t, url, batches);
      x.pointer == y.pointer && x.bytes == y.bytes
  {
    hide IsDataType, Upload;
  }

  lemma ExchangeAlike(cfg: Config, s: State, t: State, cursor: string, sess: Session, fits: bool, env: Env,
                      limit: Option<nat>)
    requires SameAt(s, t, cursor)
    ensures Alike(s, ExchangeContinue(cfg, s, cursor, sess, fits, env, limit),
                  ExchangeContinue(cfg, t, cursor, sess, fits, env, limit), cursor)
  {
    hide Deliver, ExternalizeCycle, StampAll, Failed, SameAt, OthersKept, Alike;
    var e := NextEmission(sess);
    var s1, t1 := s.(streams := s.streams[cursor := Advance(sess)]), t.(streams := t.streams[cursor := Advance(sess)]);
    UpdatedAlike(s, t, cursor, Advance(sess), s.store, t.store);
    if !fits {
      UnchangedKept(s, cursor);
      FailedAlike(s, s, t, cursor, "input schema mismatch");
    } else if e.Raised? || e.finish {
      FailedAlike(s, s1, t1, cursor, if e.Raised? then e.message else "finish() is not allowed on exchange streams");
    } else if env.writeFails {
      FailedAlike(s, s1, t1, cursor, "write failed");
    } else {
      StoreIndependent(cfg.codec, cfg.policy, s.store, t.store, env.url, StampAll(e.batches, cursor));
      var x := ExchangeTurn(cfg.codec, cfg.policy, s.store, env.url, e.batches, cursor);
      var y := ExchangeTurn(cfg.codec, cfg.policy, t.store, env.url, e.batches, cursor);
      UpdatedAlike(s, t, cursor, Advance(sess), x.store, y.store);
      DeliverAlike(cfg, s, s1.(store := x.store), t1.(store := y.store), cursor, x, y, limit, true);
    }
  }

  lemma UnchangedKept(s: State, cursor: string)
    ensures OthersKept(s, s, cursor)
  {
  }

  lemma ProducerAlike(cfg: Config, s: State, t: State, cursor: string, sess: Session, lead: seq<Batch>, control: Batch,
                      env: Env, limit: Option<nat>)
    ensures Alike(s, ProducerContinue(cfg, s, cursor, sess, lead, control, env, limit),
                  ProducerContinue(cfg, t, cursor, sess, lead, control, env, limit), cursor)
  {
    hide Deliver, RaisedTurn, ExternalizeCycle, Failed, SameAt, OthersKept, Alike;
    var e := NextEmission(sess);
    var s1, t1 := s.(streams := s.streams[cursor := Advance(sess)]), t.(streams := t.streams[cursor := Advance(sess)]);
    UpdatedAlike(s, t, cursor, Advance(sess), s.store, t.store);
    if env.writeFails {
      FailedAlike(s, s1, t1, cursor, "write failed");
    } else if e.Raised? {
      RaisedAlike(cfg, s, s1, t1, cursor, lead + [ErrorBatch(e.message)], limit);
    } else {
      var tail := if e.finish then [] else [control];
      StoreIndependent(cfg.codec, cfg.policy, s.store, t.store, env.url, e.batches);
      var x := ProducerTurn(cfg.codec, cfg.policy, s.store, env.url, e.batches, tail);
      var y := ProducerTurn(cfg.codec, cfg.policy, t.store, env.url, e.batches, tail);
      UpdatedAlike(s, t, cursor, Advance(sess), x.store, y.store);
      DeliverAlike(cfg, s, s1.(store := x.store), t1.(store := y.store), cursor,
                   x.(wire := lead + x.wire), y.(wire := lead + y.wire), limit, !e.finish);
    }
  }

  /** What a turn leaves stored depends on its stream and on what was stored, on no other stream. */
  lemma DispatchStore(cfg: Config, s: State, t: State, sess: Session, req: Continuation, env: Env)
    requires s.store == t.store
    ensures Dispatch(cfg, s, sess, req, env).state.store == Dispatch(cfg, t, sess, req, env).state.store
  {
    hide ExchangeTurn, ProducerTurn, OverCap, OverLimit, ErrorReply, ErrorBatch, CursorBatch;
  }

  lemma InitStore(cfg: Config, s: State, t: State, open: Opening, cursor: string, callToken: string, env: Env)
    requires s.store == t.store
    ensures Init(cfg, s, open, cursor, callToken, env).state.store
        == Init(cfg, t, open, cursor, callToken, env).state.store
  {
    hide ExchangeTurn, ProducerTurn, OverCap, OverLimit, ErrorReply, ErrorBatch, InitBatch;
  }

  lemma InitAlike(cfg: Config, s: State, t: State, open: Opening, cursor: string, callToken: string, env: Env)
    requires SameAt(s, t, cursor)
    ensures Alike(s, Init(cfg, s, open, cursor, callToken, env), Init(cfg, t, open, cursor, callToken, env), cursor)
  {
    hide ProducerContinue, Deliver, Failed, InitBatch, ErrorReply, SameAt, OthersKept;
    UnchangedKept(s, cursor);
    if open.stream.Some? {
      hide Alike;
      var sess := Registered(cfg, open, open.stream.value);
      var control := InitBatch(cursor, callToken);
      var s1, t1 := s.(streams := s.streams[cursor := sess]), t.(streams := t.streams[cursor := sess]);
      var wire := open.logs + [control];
      UpdatedAlike(s, t, cursor, sess, s.store, t.store);
      FailedAlike(s, s1, t1, cursor, "write failed");
      DeliverAlike(cfg, s, s1, t1, cursor, Sent(wire, s.store, 0), Sent(wire, t.store, 0), sess.limit, true);
      ProducerAlike(cfg, s, t, cursor, sess, open.logs, control, env, sess.limit);
    }
  }

  lemma DispatchAlike(cfg: Config, s: State, t: State, sess: Session, req: Continuation, env: Env)
    requires SameAt(s, t, req.cursor)
    ensures Alike(s, Dispatch(cfg, s, sess, req, env), Dispatch(cfg, t, sess, req, env), req.cursor)
  {
    hide ExchangeContinue, ProducerContinue, CancelTurn, CursorBatch, Alike, SameAt;
    var limit := MinLimit(Limit(cfg, req.limit), sess.limit);
    CancelAlike(cfg, s, t, req.cursor, env, limit);
    ExchangeAlike(cfg, s, t, req.cursor, sess, req.inputFits, env, limit);
    ProducerAlike(cfg, s, t, req.cursor, sess, [], CursorBatch(req.cursor), env, limit);
  }

  lemma ContinueAlike(cfg: Config, s: State, t: State, req: Continuation, env: Env)
    requires SameAt(s, t, req.cursor)
    ensures Alike(s, Continue(cfg, s, req, env), Continue(cfg, t, req, env), req.cursor)
  {
    hide Dispatch, Refusal, OthersKept;
    UnchangedKept(s, req.cursor);
    if !Refused(cfg, s, req) {
      DispatchAlike(cfg, s, t, s.streams[req.cursor], req, env);
    }
  }

  /** A turn's answer and its effect on its own stream depend on that stream alone, and it touches no other. */
  lemma SameTurn(cfg: Config, s: State, t: State, a: Arrival)
    requires SameAt(s, t, a.request.Cursor())
    ensures Alike(s, Handle(cfg, s, a), Handle(cfg, t, a), a.request.Cursor())
  {
    hide Init, Continue, Alike, SameAt;
    match a.request
    case Start(open, cursor, callToken) => InitAlike(cfg, s, t, open, cursor, callToken, a.env);
    case Next(continuation) => ContinueAlike(cfg, s, t, continuation, a.env);
  }

  /** Streams do not interfere: what the requests to one are answered in a run, they are answered without the others. */
  lemma {:induction false} StreamsDoNotInterfere(cfg: Config, s: State, t: State, arrivals: seq<Arrival>,
                                                 cursor: string)
    requires SameAt(s, t, cursor)
    ensures AnswersTo(cfg, s, arrivals, cursor) == AnswersTo(cfg, t, Only(arrivals, cursor), cursor)
    decreases |arrivals|
  {
    hide Handle;
    if arrivals != [] {
      var a := arrivals[0];
      var rest := Only(arrivals[1..], cursor);
      if a.request.Cursor() == cursor {
        SameTurn(cfg, s, t, a);
        StreamsDoNotInterfere(cfg, Handle(cfg, s, a).state, Handle(cfg, t, a).state, arrivals[1..], cursor);
        assert Only(arrivals, cursor) == [a] + rest;
        assert ([a] + rest)[0] == a && ([a] + rest)[1..] == rest;
      } else {
        SameTurn(cfg, s, s, a);
        StreamsDoNotInterfere(cfg, Handle(cfg, s, a).state, t, arrivals[1..], cursor);
        assert [] + rest == rest;
        assert [] + AnswersTo(cfg, Handle(cfg, s, a).state, arrivals[1..], cursor)
            == AnswersTo(cfg, Handle(cfg, s, a).state, arrivals[1..], cursor);
      }
    }
  }
}
