/**
  What a delivered reply may weigh, and that every reply that weighs no more is delivered: the
  server's own cap, the limit the request announces, the one its stream was opened under, and the cap
  on uploads, each on its own.
 */
module TurnLimits {
  import opened Base
  import opened Wire
  import opened Framing
  import opened ProducerLaws
  import opened HttpTurns

  /** A body no longer than a limit, if there is one. */
  ghost predicate Within(c: Codec, wire: seq<Batch>, limit: Option<nat>) {
    forall most: nat | limit == Some(most) :: |c.ipc(wire)| <= most
  }

  ghost predicate WithinAll(cfg: Config, wire: seq<Batch>, asked: Option<nat>, initial: Option<nat>) {
    Within(cfg.codec, wire, cfg.responseCap) && Within(cfg.codec, wire, asked) && Within(cfg.codec, wire, initial)
  }

  /** What a turn uploads of these batches, if it uploads anything, is no larger than the cap. */
  ghost predicate Affordable(cfg: Config, batches: seq<Batch>) {
    cfg.externalCap >= 0 && Stores(cfg.codec, cfg.policy, batches) ==>
      |Upload(cfg.codec, cfg.policy, cfg.codec.ipc(batches)).body| <= cfg.externalCap
  }

  predicate Delivered(t: Turned) {
    t.reply.status == 200 && !t.reply.errorMark
  }

  /** A body meets the least of two limits iff it meets both. */
  lemma LeastLimit(cfg: Config, wire: seq<Batch>, a: Option<nat>, b: Option<nat>)
    ensures !OverLimit(cfg, wire, MinLimit(a, b)) <==> Within(cfg.codec, wire, a) && Within(cfg.codec, wire, b)
    ensures Within(cfg.codec, wire, MinLimit(a, b)) <==> Within(cfg.codec, wire, a) && Within(cfg.codec, wire, b)
  {
  }

  lemma ContinuationLimit(cfg: Config, wire: seq<Batch>, asked: Option<nat>, initial: Option<nat>)
    ensures !OverLimit(cfg, wire, MinLimit(Limit(cfg, asked), initial)) <==> WithinAll(cfg, wire, asked, initial)
  {
    LeastLimit(cfg, wire, Limit(cfg, asked), initial);
    LeastLimit(cfg, wire, cfg.responseCap, asked);
  }

  /** A turn stores one object at most, under its own name, and a delivered one none above the cap. */
  ghost predicate Uploads(cfg: Config, before: Store, after: Store, url: string, delivered: bool) {
    || after == before
    || exists o: Object :: after == before[url := o]
        && (delivered && cfg.externalCap >= 0 ==> |o.body| <= cfg.externalCap)
  }

  lemma UploadCap(cfg: Config, store: Store, url: string, batches: seq<Batch>)
    ensures var e := ExternalizeCycle(cfg.codec, cfg.policy, store, url, batches);
      && (!OverCap(cfg, e.bytes) <==> Affordable(cfg, batches))
      && Uploads(cfg, store, e.store, url, !OverCap(cfg, e.bytes)) && Uploads(cfg, store, e.store, url, false)
  {
    hide IsDataType;
    var o := Upload(cfg.codec, cfg.policy, cfg.codec.ipc(batches));
    if Stores(cfg.codec, cfg.policy, batches) {
      assert ExternalizeCycle(cfg.codec, cfg.policy, store, url, batches).store == store[url := o];
    }
  }

  lemma NothingUploaded(cfg: Config, store: Store, url: string)
    ensures forall delivered :: Uploads(cfg, store, store, url, delivered)
  {
  }

  /** Whether a turn that was let in can be delivered, and with what body. */
  ghost predicate Deliverable(cfg: Config, cursor: string, sess: Session, req: Continuation, env: Env,
                              wire: seq<Batch>) {
    && !env.writeFails
    && WithinAll(cfg, wire, req.limit, sess.limit)
    && if req.cancel then wire == []
       else
         && sess.script != [] && sess.script[0].Emitted?
         && var e := sess.script[0];
         if sess.isExchange then
           && req.inputFits && !e.finish
           && wire == ExchangeTurn(cfg.codec, cfg.policy, map[], env.url, e.batches, cursor).wire
           && Affordable(cfg, StampAll(e.batches, cursor))
         else
           && wire == ProducerTurn(cfg.codec, cfg.policy, map[], env.url, e.batches,
                                   if e.finish then [] else [CursorBatch(cursor)]).wire
           && Affordable(cfg, e.batches)
  }

  lemma CancelDelivers(cfg: Config, s: State, sess: Session, req: Continuation, env: Env)
    requires req.cancel
    ensures var t := Dispatch(cfg, s, sess, req, env);
      && (forall wire :: Delivered(t) && t.reply.wire == wire <==> Deliverable(cfg, req.cursor, sess, req, env, wire))
      && t.state.store == s.store
  {
    NothingUploaded(cfg, s.store, env.url);
    ContinuationLimit(cfg, [], req.limit, sess.limit);
  }

  lemma ExchangeDelivers(cfg: Config, s: State, sess: Session, req: Continuation, env: Env)
    requires !req.cancel && sess.isExchange
    ensures var t := Dispatch(cfg, s, sess, req, env);
      && (forall wire :: Delivered(t) && t.reply.wire == wire <==> Deliverable(cfg, req.cursor, sess, req, env, wire))
      && Uploads(cfg, s.store, t.state.store, env.url, Delivered(t))
  {
    hide StampAll, ExternalizeCycle, Stores, Upload, Uploads, Within, OverLimit, OverCap, MinLimit, ErrorBatch;
    NothingUploaded(cfg, s.store, env.url);
    var e := NextEmission(sess);
    if e.Emitted? {
      var stamped := StampAll(e.batches, req.cursor);
      StoreIndependent(cfg.codec, cfg.policy, s.store, map[], env.url, stamped);
      UploadCap(cfg, s.store, env.url, stamped);
      ContinuationLimit(cfg, ExchangeTurn(cfg.codec, cfg.policy, map[], env.url, e.batches, req.cursor).wire,
                        req.limit, sess.limit);
    }
  }

  lemma ProducerDelivers(cfg: Config, s: State, sess: Session, req: Continuation, env: Env)
    requires !req.cancel && !sess.isExchange
    ensures var t := Dispatch(cfg, s, sess, req, env);
      && (forall wire :: Delivered(t) && t.reply.wire == wire <==> Deliverable(cfg, req.cursor, sess, req, env, wire))
      && Uploads(cfg, s.store, t.state.store, env.url, Delivered(t))
  {
    hide ExternalizeCycle, Stores, Upload, Uploads, Within, OverLimit, OverCap, MinLimit, ErrorBatch, CursorBatch;
    NothingUploaded(cfg, s.store, env.url);
    var e := NextEmission(sess);
    if e.Emitted? {
      var tail := if e.finish then [] else [CursorBatch(req.cursor)];
      StoreIndependent(cfg.codec, cfg.policy, s.store, map[], env.url, e.batches);
      UploadCap(cfg, s.store, env.url, e.batches);
      var wire := ProducerTurn(cfg.codec, cfg.policy, map[], env.url, e.batches, tail).wire;
      assert [] + wire == wire;
      ContinuationLimit(cfg, wire, req.limit, sess.limit);
    }
  }

  /**
    A continuation that was let in is delivered exactly when its handler emitted it, nothing failed,
    its body is within the server's cap, the limit it announces and the limit its stream was opened
    under, and its upload is within the cap on uploads; and then that body is the reply.
   */
  lemma DispatchDelivers(cfg: Config, s: State, sess: Session, req: Continuation, env: Env)
    ensures var t := Dispatch(cfg, s, sess, req, env);
      && (forall wire :: Delivered(t) && t.reply.wire == wire <==> Deliverable(cfg, req.cursor, sess, req, env, wire))
      && Uploads(cfg, s.store, t.state.store, env.url, Delivered(t))
  {
    hide Dispatch, Deliverable, Delivered;
    if req.cancel {
      CancelDelivers(cfg, s, sess, req, env);
    } else if sess.isExchange {
      ExchangeDelivers(cfg, s, sess, req, env);
    } else {
      ProducerDelivers(cfg, s, sess, req, env);
    }
  }

  /**
    A body that only a limit stands against is replaced by one exception batch that says so, and the
    stream is gone.
   */
  lemma TooLargeIsTold(cfg: Config, s: State, sess: Session, req: Continuation, env: Env, wire: seq<Batch>)
    requires Deliverable(cfg.(responseCap := None), req.cursor, sess.(limit := None), req.(limit := None), env, wire)
    requires !WithinAll(cfg, wire, req.limit, sess.limit)
    ensures var t := Dispatch(cfg, s, sess, req, env);
      && t.reply.status == 200 && t.reply.errorMark && req.cursor !in t.state.streams
      && |t.reply.wire| == 1 && t.reply.wire[0].rows == 0
      && Value(t.reply.wire[0].md, LogLevel) == "EXCEPTION"
      && Value(t.reply.wire[0].md, LogMessage) == "ResponseTooLargeError"
  {
    hide StampAll, ExternalizeCycle, Stores, Upload, Uploads, Within, OverLimit, OverCap, MinLimit, CursorBatch;
    ContinuationLimit(cfg, wire, req.limit, sess.limit);
    if !req.cancel {
      var e := sess.script[0];
      var batches := if sess.isExchange then StampAll(e.batches, req.cursor) else e.batches;
      StoreIndependent(cfg.codec, cfg.policy, s.store, map[], env.url, batches);
      UploadCap(cfg, s.store, env.url, batches);
      assert [] + wire == wire;
    }
  }

  /** The same of `/init`: an exchange answers with its tokens, a producer with its first turn, both behind the logs. */
  ghost predicate Openable(cfg: Config, open: Opening, cursor: string, callToken: string, env: Env, wire: seq<Batch>) {
    && open.stream.Some? && !env.writeFails
    && Within(cfg.codec, wire, cfg.responseCap) && Within(cfg.codec, wire, open.limit)
    && var control := InitBatch(cursor, callToken);
       if open.stream.value.isExchange then wire == open.logs + [control]
       else
         && open.stream.value.script != [] && open.stream.value.script[0].Emitted?
         && var e := open.stream.value.script[0];
         && wire == open.logs + ProducerTurn(cfg.codec, cfg.policy, map[], env.url, e.batches,
                                             if e.finish then [] else [control]).wire
         && Affordable(cfg, e.batches)
  }

  lemma InitDelivers(cfg: Config, s: State, open: Opening, cursor: string, callToken: string, env: Env)
    ensures var t := Init(cfg, s, open, cursor, callToken, env);
      && (forall wire :: Delivered(t) && t.reply.wire == wire <==> Openable(cfg, open, cursor, callToken, env, wire))
      && Uploads(cfg, s.store, t.state.store, env.url, Delivered(t))
      && (cursor in t.state.streams && open.stream.Some? ==> t.state.streams[cursor].limit == Limit(cfg, open.limit))
  {
    hide ExternalizeCycle, Stores, Upload, Uploads, Within, OverLimit, MinLimit, ErrorBatch, InitBatch;
    NothingUploaded(cfg, s.store, env.url);
    if open.stream.Some? {
      var control := InitBatch(cursor, callToken);
      if open.stream.value.isExchange {
        LeastLimit(cfg, open.logs + [control], cfg.responseCap, open.limit);
      } else {
        var e := NextEmission(open.stream.value);
        if e.Emitted? {
          hide OverCap;
          var tail := if e.finish then [] else [control];
          StoreIndependent(cfg.codec, cfg.policy, s.store, map[], env.url, e.batches);
          UploadCap(cfg, s.store, env.url, e.batches);
          var wire := open.logs + ProducerTurn(cfg.codec, cfg.policy, map[], env.url, e.batches, tail).wire;
          LeastLimit(cfg, wire, cfg.responseCap, open.limit);
        }
      }
    }
  }

  // ---- Every run -----------------------------------------------------------------------------------------

  /** The state in which request `k` of a run arrives. */
  function Before(cfg: Config, s: State, arrivals: seq<Arrival>, k: nat): State
    requires k <= |arrivals|
    decreases k
  {
    if k == 0 then s else Before(cfg, Handle(cfg, s, arrivals[0]).state, arrivals[1..], k - 1)
  }

  lemma {:induction false} TurnOf(cfg: Config, s: State, arrivals: seq<Arrival>, k: nat)
    requires k < |arrivals|
    ensures Turns(cfg, s, arrivals)[k] == Handle(cfg, Before(cfg, s, arrivals, k), arrivals[k])
    decreases k
  {
    hide Handle;
    if k > 0 {
      TurnOf(cfg, Handle(cfg, s, arrivals[0]).state, arrivals[1..], k - 1);
    }
  }

  lemma {:induction false} BeforeNext(cfg: Config, s: State, arrivals: seq<Arrival>, k: nat)
    requires k < |arrivals|
    ensures Before(cfg, s, arrivals, k + 1) == Handle(cfg, Before(cfg, s, arrivals, k), arrivals[k]).state
    decreases k
  {
    hide Handle;
    if k > 0 {
      BeforeNext(cfg, Handle(cfg, s, arrivals[0]).state, arrivals[1..], k - 1);
    }
  }

  /** The limit that a request's client announces. */
  function Announced(r: Request): Option<nat> {
    match r
    case Start(open, _, _) => open.limit
    case Next(continuation) => continuation.limit
  }

  /**
    In every run, whatever is delivered is within the server's cap and its own client's limit, and
    uploads within theirs.
   */
  lemma EveryReplyIsWithin(cfg: Config, s: State, arrivals: seq<Arrival>, k: nat)
    requires k < |arrivals|
    ensures var t := Turns(cfg, s, arrivals)[k];
      && (Delivered(t) ==>
            && Within(cfg.codec, t.reply.wire, cfg.responseCap)
            && Within(cfg.codec, t.reply.wire, Announced(arrivals[k].request)))
      && Uploads(cfg, Before(cfg, s, arrivals, k).store, t.state.store, arrivals[k].env.url, Delivered(t))
  {
    hide Turns, Before, Init, Dispatch, Within, Uploads, Refused;
    TurnOf(cfg, s, arrivals, k);
    var at, a := Before(cfg, s, arrivals, k), arrivals[k];
    var t := Turns(cfg, s, arrivals)[k];
    match a.request {
      case Start(open, cursor, callToken) =>
        InitDelivers(cfg, at, open, cursor, callToken, a.env);
        assert Delivered(t) ==> Openable(cfg, open, cursor, callToken, a.env, t.reply.wire);
      case Next(req) =>
        NothingUploaded(cfg, at.store, a.env.url);
        if !Refused(cfg, at, req) {
          StreamThere(cfg, at, req);
          DispatchDelivers(cfg, at, at.streams[req.cursor], req, a.env);
          assert Delivered(t) ==> Deliverable(cfg, req.cursor, at.streams[req.cursor], req, a.env, t.reply.wire);
        }
    }
  }

  lemma StreamThere(cfg: Config, s: State, req: Continuation)
    requires !Refused(cfg, s, req)
    ensures req.cursor in s.streams
  {
  }

  lemma TurnKeepsLimit(cfg: Config, s: State, a: Arrival, c: string)
    requires !(a.request.Start? && a.request.Cursor() == c)
    ensures var t := Handle(cfg, s, a).state;
      c in t.streams ==> c in s.streams && t.streams[c].limit == s.streams[c].limit
  {
    if a.request.Cursor() == c {
      hide ExchangeTurn, ProducerTurn, OverCap, OverLimit, ErrorReply, ErrorBatch, CursorBatch, Refusal;
    } else {
      hide Handle;
      SameTurn(cfg, s, s, a);
    }
  }

  lemma {:induction false} LimitStays(cfg: Config, s: State, arrivals: seq<Arrival>, i: nat, k: nat, c: string)
    requires i <= k <= |arrivals|
    requires forall j | i <= j < k :: !(arrivals[j].request.Start? && arrivals[j].request.Cursor() == c)
    requires c in Before(cfg, s, arrivals, k).streams
    ensures c in Before(cfg, s, arrivals, i).streams
    ensures Before(cfg, s, arrivals, k).streams[c].limit == Before(cfg, s, arrivals, i).streams[c].limit
    decreases k
  {
    hide Before, Handle;
    if i < k {
      BeforeNext(cfg, s, arrivals, k - 1);
      TurnKeepsLimit(cfg, Before(cfg, s, arrivals, k - 1), arrivals[k - 1], c);
      LimitStays(cfg, s, arrivals, i, k - 1, c);
    }
  }

  /**
    A continuation may tighten the limits its stream was opened under and never raises them: in every
    run, one that is let in is delivered exactly when it meets the server's cap, its own limit and the
    one announced by the `/init` that minted its cursor, however many requests lie between.
   */
  lemma OpeningLimitBinds(cfg: Config, s: State, arrivals: seq<Arrival>, i: nat, k: nat)
    requires i < k < |arrivals| && arrivals[i].request.Start? && arrivals[k].request.Next?
    requires var c := arrivals[i].request.Cursor();
      && arrivals[k].request.Cursor() == c
      && forall j | i < j < k :: !(arrivals[j].request.Start? && arrivals[j].request.Cursor() == c)
    requires arrivals[i].request.open.stream.Some?
    requires !Refused(cfg, Before(cfg, s, arrivals, k), arrivals[k].request.continuation)
    ensures var req := arrivals[k].request.continuation;
      && req.cursor in Before(cfg, s, arrivals, k).streams
      && var sess := Before(cfg, s, arrivals, k).streams[req.cursor].(limit := arrivals[i].request.open.limit);
      && var t := Turns(cfg, s, arrivals)[k];
      forall wire :: Delivered(t) && t.reply.wire == wire
          <==> Deliverable(cfg, req.cursor, sess, req, arrivals[k].env, wire)
  {
    hide Turns, Before, Init, Dispatch, Within, Uploads, Refused, Limit;
    var start, req, env := arrivals[i].request, arrivals[k].request.continuation, arrivals[k].env;
    var at := Before(cfg, s, arrivals, k);
    TurnOf(cfg, s, arrivals, k);
    StreamThere(cfg, at, req);
    LimitStays(cfg, s, arrivals, i + 1, k, req.cursor);
    BeforeNext(cfg, s, arrivals, i);
    InitDelivers(cfg, Before(cfg, s, arrivals, i), start.open, start.cursor, start.callToken, arrivals[i].env);
    DispatchDelivers(cfg, at, at.streams[req.cursor], req, env);
    var sess := at.streams[req.cursor];
    forall wire
      ensures Deliverable(cfg, req.cursor, sess, req, env, wire)
         <==> Deliverable(cfg, req.cursor, sess.(limit := start.open.limit), req, env, wire)
    {
      SplitLimit(cfg, wire, start.open.limit);
    }
  }

  lemma SplitLimit(cfg: Config, wire: seq<Batch>, limit: Option<nat>)
    ensures Within(cfg.codec, wire, Limit(cfg, limit)) <==>
              Within(cfg.codec, wire, cfg.responseCap) && Within(cfg.codec, wire, limit)
  {
    LeastLimit(cfg, wire, cfg.responseCap, limit);
  }
}
