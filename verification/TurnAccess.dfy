/** Who may continue a stream: only who opened it, and with its call token where the server keeps no copy. */
module TurnAccess {
  import opened Base
  import opened Framing
  import opened HttpTurns
  import TurnLimits

  /** A stream in the registry was opened under this scope, for this method, by request `i`. */
  predicate OpenedBy(a: Arrival, cursor: string, sess: Session) {
    && a.request.Start? && a.request.cursor == cursor && a.request.open.stream.Some?
    && sess.aad == a.request.open.scope && sess.method_ == a.request.open.method_
    && sess.isExchange == a.request.open.stream.value.isExchange
  }

  predicate SameOwner(a: Session, b: Session) {
    a.aad == b.aad && a.method_ == b.method_ && a.isExchange == b.isExchange
  }

  lemma DispatchKeepsOwner(cfg: Config, s: State, sess: Session, req: Continuation, env: Env)
    ensures var t := Dispatch(cfg, s, sess, req, env).state;
      req.cursor in t.streams ==>
        SameOwner(t.streams[req.cursor], sess) ||
        (req.cursor in s.streams && t.streams[req.cursor] == s.streams[req.cursor])
  {
    hide ExchangeTurn, ProducerTurn, OverCap, OverLimit, ErrorReply, ErrorBatch, CursorBatch;
  }

  lemma InitOwns(cfg: Config, s: State, open: Opening, cursor: string, callToken: string, env: Env)
    ensures var t := Init(cfg, s, open, cursor, callToken, env).state;
      cursor in t.streams ==>
        if open.stream.Some? then SameOwner(t.streams[cursor], Registered(cfg, open, open.stream.value))
        else cursor in s.streams && t.streams[cursor] == s.streams[cursor]
  {
    hide ExchangeTurn, ProducerTurn, OverCap, OverLimit, ErrorReply, ErrorBatch, InitBatch;
  }

  /** A turn keeps who opened its stream, and what kind it is. */
  lemma TurnKeepsOwner(cfg: Config, s: State, a: Arrival, c: string)
    ensures var t := Handle(cfg, s, a).state;
      c in t.streams ==> OpenedBy(a, c, t.streams[c]) || (c in s.streams && SameOwner(t.streams[c], s.streams[c]))
  {
    if a.request.Cursor() == c {
      hide Init, Dispatch, Refusal, Refused;
      match a.request
      case Start(open, _, callToken) => InitOwns(cfg, s, open, c, callToken, a.env);
      case Next(req) =>
        if !Refused(cfg, s, req) {
          TurnLimits.StreamThere(cfg, s, req);
          DispatchKeepsOwner(cfg, s, s.streams[c], req, a.env);
        }
    } else {
      hide Handle;
      SameTurn(cfg, s, s, a);
    }
  }

  lemma {:induction false} OpenedSomewhere(cfg: Config, arrivals: seq<Arrival>, k: nat, c: string)
    requires k <= |arrivals|
    requires c in TurnLimits.Before(cfg, State(map[], map[]), arrivals, k).streams
    ensures exists i :: 0 <= i < k &&
              OpenedBy(arrivals[i], c, TurnLimits.Before(cfg, State(map[], map[]), arrivals, k).streams[c])
    decreases k
  {
    var s0 := State(map[], map[]);
    if k > 0 {
      hide Handle, TurnLimits.Before;
      TurnLimits.BeforeNext(cfg, s0, arrivals, k - 1);
      var s, t := TurnLimits.Before(cfg, s0, arrivals, k - 1), TurnLimits.Before(cfg, s0, arrivals, k);
      TurnKeepsOwner(cfg, s, arrivals[k - 1], c);
      if OpenedBy(arrivals[k - 1], c, t.streams[c]) {
      } else {
        OpenedSomewhere(cfg, arrivals, k - 1, c);
        var i :| 0 <= i < k - 1 && OpenedBy(arrivals[i], c, s.streams[c]);
        assert OpenedBy(arrivals[i], c, t.streams[c]);
      }
    }
  }

  /**
    In every run, a continuation becomes a turn only if some request before it opened a stream under
    its cursor and under its own scope, and, where the server does not remember calls, only with the
    call token of that very method, cursor and scope.
   */
  lemma OnlyTheOpenerContinues(cfg: Config, arrivals: seq<Arrival>, k: nat)
    requires k < |arrivals| && arrivals[k].request.Next?
    requires Turns(cfg, State(map[], map[]), arrivals)[k].record.Some?
    ensures var req := arrivals[k].request.continuation;
      exists i :: 0 <= i < k && arrivals[i].request.Start? && arrivals[i].request.cursor == req.cursor != ""
        && arrivals[i].request.open.stream.Some? && arrivals[i].request.open.scope == req.scope
        && (cfg.callStateCache ||
            req.callToken == Some(CallToken(arrivals[i].request.open.method_, req.cursor, req.scope)))
  {
    hide Turns, TurnLimits.Before, Continue;
    var s0 := State(map[], map[]);
    var at, req := TurnLimits.Before(cfg, s0, arrivals, k), arrivals[k].request.continuation;
    TurnLimits.TurnOf(cfg, s0, arrivals, k);
    RefusedChangesNothing(cfg, at, req, arrivals[k].env);
    assert !Refused(cfg, at, req);
    OpenedSomewhere(cfg, arrivals, k, req.cursor);
  }

  /** Every other one is refused, and one that meets all this on a live stream is not. */
  lemma RefusedIff(cfg: Config, s: State, req: Continuation)
    ensures var live := req.cursor != "" && req.cursor in s.streams;
      Refused(cfg, s, req) <==>
        !(&& live && s.streams[req.cursor].aad == req.scope
          && (cfg.callStateCache ||
              req.callToken == Some(CallToken(s.streams[req.cursor].method_, req.cursor, req.scope))))
  {
  }
}
