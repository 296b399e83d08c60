/** What went wrong at the server is what the client throws: its message, behind the logs before it. */
module RemoteErrors {
  import opened Base
  import opened Wire
  import opened Framing
  import opened FramingLaws
  import opened HttpTurns
  import opened HttpStream
  import TurnLimits

  /** A batch that carries an exception with this message. */
  ghost predicate Carries(b: Batch, message: string) {
    && b.rows == 0 && !Has(b.md, Location)
    && Has(b.md, LogLevel) && Value(b.md, LogLevel) == "EXCEPTION"
    && Has(b.md, LogMessage) && Value(b.md, LogMessage) == message
  }

  /** Decoding stops at the first exception: the logs before it stay, and nothing behind it is read. */
  lemma ExceptionDecodes(r: Resolver, logs: seq<Batch>, b: Batch, rest: seq<Batch>, shape: Shape, message: string)
    requires (forall l <- logs :: CleanLog(l)) && Carries(b, message)
    ensures Decode(r, logs + ([b] + rest), shape, false) == Decoded(logs, [], [], Some(RemoteError(message)))
  {
    DecodeLogs(r, logs, shape, false);
    assert DecodeOne(r, b, shape, false) == Decoded([], [], [], Some(RemoteError(message)));
    hide DecodeOne, CleanLog, Carries;
    assert ([b] + rest)[0] == b;
    DecodeAppend(r, logs, [b] + rest, shape, false);
  }

  lemma ErrorBatchCarries(message: string)
    ensures Carries(ErrorBatch(message), message)
  {
    var md := ErrorBatch(message).md;
    HasCons(md);
    assert md[1..] == [Field(LogMessage, message)];
    HasCons(md[1..]);
  }

  /** A reply that is an exception behind clean logs is read as that exception. */
  lemma ReplyReads(cfg: Config, t: Turned, ms: string, shape: Shape, logs: seq<Batch>, message: string)
    requires t.reply.wire == logs + [ErrorBatch(message)] && forall l <- logs :: CleanLog(l)
    ensures Reading(cfg, t, ms, shape) == Decoded(logs, [], [], Some(RemoteError(message)))
  {
    hide Decode, CleanLog, ErrorBatch;
    ErrorBatchCarries(message);
    var b := ErrorBatch(message);
    assert [b] + [] == [b];
    ExceptionDecodes(Resolver(true, cfg.codec, t.state.store, ms), logs, b, [], shape, message);
  }

  lemma FailureReads(cfg: Config, s: State, cursor: string, ms: string, shape: Shape, message: string)
    ensures Reading(cfg, Failed(s, cursor, message), ms, shape) == Decoded([], [], [], Some(RemoteError(message)))
  {
    hide Decode, ErrorBatch;
    assert [] + [ErrorBatch(message)] == [ErrorBatch(message)];
    ReplyReads(cfg, Failed(s, cursor, message), ms, shape, [], message);
  }

  /** The exception of a producer's handler reaches its client, unless even that is too long a reply. */
  lemma ProducerExceptionReads(cfg: Config, s: State, sess: Session, req: Continuation, env: Env, ms: string)
    requires !req.cancel && !sess.isExchange && !env.writeFails
    requires sess.script != [] && sess.script[0].Raised?
    ensures var m := sess.script[0].message;
      var t := Dispatch(cfg, s, sess, req, env);
      Reading(cfg, t, ms, PRODUCER_TURN)
        == Decoded([], [], [], Some(RemoteError(
             if TurnLimits.WithinAll(cfg, [ErrorBatch(m)], req.limit, sess.limit) then m else "ResponseTooLargeError")))
  {
    hide Reading, ErrorBatch, OverLimit, TurnLimits.Within;
    var m := sess.script[0].message;
    var t := Dispatch(cfg, s, sess, req, env);
    assert [] + [ErrorBatch(m)] == [ErrorBatch(m)];
    TurnLimits.ContinuationLimit(cfg, [ErrorBatch(m)], req.limit, sess.limit);
    if TurnLimits.WithinAll(cfg, [ErrorBatch(m)], req.limit, sess.limit) {
      ReplyReads(cfg, t, ms, PRODUCER_TURN, [], m);
    } else {
      var s1 := s.(streams := s.streams[req.cursor := Advance(sess)]);
      FailureReads(cfg, s1, req.cursor, ms, PRODUCER_TURN, "ResponseTooLargeError");
    }
  }

  /** So does that of its first turn, behind the init logs. */
  lemma InitExceptionReads(cfg: Config, s: State, open: Opening, cursor: string, callToken: string, env: Env,
                           ms: string)
    requires open.stream.Some? && !open.stream.value.isExchange && !env.writeFails
    requires open.stream.value.script != [] && open.stream.value.script[0].Raised? && forall l <- open.logs ::
        CleanLog(l)
    ensures var m := open.stream.value.script[0].message;
      var t := Init(cfg, s, open, cursor, callToken, env);
      var wire := open.logs + [ErrorBatch(m)];
      Reading(cfg, t, ms, STREAM_INIT)
        == if TurnLimits.Within(cfg.codec, wire, cfg.responseCap) && TurnLimits.Within(cfg.codec, wire, open.limit)
           then Decoded(open.logs, [], [], Some(RemoteError(m)))
           else Decoded([], [], [], Some(RemoteError("ResponseTooLargeError")))
  {
    hide Reading, ErrorBatch, OverLimit, TurnLimits.Within, CleanLog;
    var m := open.stream.value.script[0].message;
    var wire := open.logs + [ErrorBatch(m)];
    TurnLimits.LeastLimit(cfg, wire, cfg.responseCap, open.limit);
    if OverLimit(cfg, wire, Limit(cfg, open.limit)) {
      var sess := Registered(cfg, open, open.stream.value);
      var s1 := s.(streams := s.streams[cursor := Advance(sess)]);
      FailureReads(cfg, s1, cursor, ms, STREAM_INIT, "ResponseTooLargeError");
    } else {
      ReplyReads(cfg, Init(cfg, s, open, cursor, callToken, env), ms, STREAM_INIT, open.logs, m);
    }
  }

  /** And that of an exchange, which answers with nothing but the exception. */
  lemma ExchangeExceptionReads(cfg: Config, s: State, sess: Session, req: Continuation, env: Env, ms: string)
    requires !req.cancel && sess.isExchange && req.inputFits
    requires sess.script != [] && sess.script[0].Raised?
    ensures ExchangeAnswer(Reading(cfg, Dispatch(cfg, s, sess, req, env), ms, EXCHANGE_TURN))
         == Failure([], RemoteError(sess.script[0].message))
  {
    hide Reading, ErrorBatch;
    var s1 := s.(streams := s.streams[req.cursor := Advance(sess)]);
    FailureReads(cfg, s1, req.cursor, ms, EXCHANGE_TURN, sess.script[0].message);
  }
}
