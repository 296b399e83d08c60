/**
  The turns of `HttpTurns` run by the threads of `StreamRegistry`: any number of requests at once,
  each locking, revalidating, running, settling and unlocking as it goes.

  Every run is one of `StreamRegistry`, with the requests, the streams' states and the answers added.
  A thread takes its stream's state in hand when it calls into it, answers from that, and writes it
  back when the call ends; an upload is stored there too, which no step of the server reads.  No step
  looks at the sequential run that the answers are compared with.
 */
module ConcurrentTurns {
  import opened Base
  import opened Framing
  import R = StreamRegistry
  import T = HttpTurns

  /**
    The request a thread is working on.  `held` is the stream's state as the thread found it when it
    called into it, and `since` is how many requests were answered when this one arrived.
   */
  datatype Job =
    | Free
    | Asks(req: T.Continuation, env: T.Env, since: nat, held: Option<T.Session>)
    | Opens(open: T.Opening, callToken: string, env: T.Env, since: nat)

  /** An answered request. */
  datatype Done = Done(tid: R.Tid, since: nat, arrival: T.Arrival, answer: T.Answered)

  /** `asked` counts the requests of each thread and `done` lists the answered ones; both are history. */
  datatype System = System(
    r: R.State,
    sessions: map<R.Sid, T.Session>,
    store: Store,
    jobs: seq<Job>,
    asked: seq<nat>,
    done: seq<Done>)

  /**
    What a step takes from outside: a request that arrives, or a cursor minted for a stream that
    never gets registered.
   */
  datatype Input = Nothing | Request(job: Job) | Mint(cursor: string)

  // ---- The streams as a request would find them one at a time -----------------------------------------

  /** Registered, handed out, and not ended: a stream whose last turn has ended is only still to be erased. */
  ghost predicate Resumable(s: R.State, c: string) {
    c in s.registry && c in s.handed && s.registry[c] in s.events && !R.Over(s.events[s.registry[c]])
  }

  ghost predicate Live(x: System, c: string) {
    Resumable(x.r, c) && x.r.registry[c] in x.sessions
  }

  ghost function View(x: System): T.State {
    T.State(map c | c in x.r.registry && Live(x, c) :: x.sessions[x.r.registry[c]], x.store)
  }

  // ---- Steps --------------------------------------------------------------------------------------------

  ghost predicate Sized(x: System) {
    |x.jobs| == |x.asked| == |x.r.pcs|
  }

  /** The state as a thread sees it from inside a call: its own stream, and the store. */
  function Inside(x: System, c: string, sess: T.Session): T.State {
    T.State(map[c := sess], x.store)
  }

  /** A request refused before it becomes a turn. */
  function Rejection(x: System): T.Turned {
    T.Turned(T.State(map[], x.store), T.Refusal(), None)
  }

  /** A call into a stream whose state the thread has in hand. */
  function Called(cfg: T.Config, x: System, job: Job, sess: T.Session): T.Turned
    requires job.Asks?
  {
    T.Dispatch(cfg, Inside(x, job.req.cursor, sess), sess, job.req, job.env)
  }

  /** An `/init`, which no other stream has a part in. */
  function Started(cfg: T.Config, x: System, job: Job, cursor: string): T.Turned
    requires job.Opens?
  {
    T.Init(cfg, T.State(map[], x.store), job.open, cursor, job.callToken, job.env)
  }

  predicate Admits(cfg: T.Config, sess: T.Session, req: T.Continuation) {
    sess.aad == req.scope && (cfg.callStateCache || T.TokenResolves(req, sess))
  }

  /** An exchange turn whose input the stream's schema does not take. */
  predicate Misfit(sess: T.Session, req: T.Continuation) {
    !req.cancel && sess.isExchange && !req.inputFits
  }

  /** A producer that goes on after its first turn. */
  predicate GoesOn(stream: T.Session) {
    T.NextEmission(stream).Emitted? && !T.NextEmission(stream).finish
  }

  predicate Fresh(x: System, input: Input) {
    input.Mint? && input.cursor != "" && input.cursor !in x.r.owner
  }

  ghost predicate Allowed(cfg: T.Config, x: System, t: R.Tid, step: R.Step, input: Input)
    requires Sized(x) && t < |x.r.pcs|
  {
    && R.Enabled(x.r, t, step)
    && var pc, job := x.r.pcs[t], x.jobs[t];
    match step
    case Lookup(c, cancel) =>
      && input.Request? && input.job.Asks? && input.job.since == |x.done|
      && input.job.req.cursor == c && input.job.req.cancel == cancel
    case NoStream =>
      input.Request? && input.job.Opens? && input.job.since == |x.done| && input.job.open.stream.None?
    case Create(_, producer) =>
      && input.Request? && input.job.Opens? && input.job.since == |x.done|
      && input.job.open.stream.Some? && producer == !input.job.open.stream.value.isExchange
    case Revalidate(admitted) =>
      job.Asks? && pc.sid in x.sessions && admitted == Admits(cfg, x.sessions[pc.sid], job.req)
    case Begin => job.Asks? && pc.sid in x.sessions && !Misfit(x.sessions[pc.sid], job.req)
    case RefuseInput => job.Asks? && pc.sid in x.sessions && Misfit(x.sessions[pc.sid], job.req)
    case End(verdict) =>
      && job.Asks? && job.held.Some? && pc.sid in x.sessions
      && (verdict == R.Goes <==> pc.c in Called(cfg, x, job, job.held.value).state.streams)
    case FirstTurn(verdict) =>
      && job.Opens? && job.open.stream.Some? && pc.sid in x.sessions
      && (pc.producer ==> (verdict == R.Goes <==> GoesOn(job.open.stream.value)))
      && (verdict != R.Goes ==> Fresh(x, input))
    case Register(c) => c != ""
    case Reply => job.Opens? && pc.c in Started(cfg, x, job, pc.c).state.streams
    case Undo => job.Opens? && pc.c !in Started(cfg, x, job, pc.c).state.streams
    case Abandon => job.Opens? && job.env.writeFails && Fresh(x, input)
    case Lock => true
    case Settle => true
    case Unlock => true
  }

  function Arrive(x: System, t: R.Tid, job: Job): System
    requires t < |x.jobs| == |x.asked|
  {
    x.(jobs := x.jobs[t := job], asked := x.asked[t := x.asked[t] + 1])
  }

  function Answer(x: System, t: R.Tid, request: T.Request, env: T.Env, turned: T.Turned): System
    requires t < |x.jobs| && !x.jobs[t].Free?
  {
    var entry := Done(t, x.jobs[t].since, T.Arrival(request, env), T.Answered(turned.reply, turned.record));
    x.(store := turned.state.store, done := x.done + [entry])
  }

  function AnswerAsk(x: System, t: R.Tid, turned: T.Turned): System
    requires t < |x.jobs| && x.jobs[t].Asks?
  {
    Answer(x, t, T.Next(x.jobs[t].req), x.jobs[t].env, turned)
  }

  function AnswerOpen(cfg: T.Config, x: System, t: R.Tid, cursor: string): System
    requires t < |x.jobs| && x.jobs[t].Opens?
  {
    var job := x.jobs[t];
    Answer(x, t, T.Start(job.open, cursor, job.callToken), job.env, Started(cfg, x, job, cursor))
  }

  /** The end of a call: the answer goes out and the stream's state is written back, if the stream goes on. */
  function EndCall(cfg: T.Config, x: System, t: R.Tid, sid: R.Sid): System
    requires t < |x.jobs| && x.jobs[t].Asks? && x.jobs[t].held.Some?
  {
    var c := x.jobs[t].req.cursor;
    var turned := Called(cfg, x, x.jobs[t], x.jobs[t].held.value);
    AnswerAsk(x, t, turned).(sessions :=
      if c in turned.state.streams then x.sessions[sid := turned.state.streams[c]] else x.sessions)
  }

  function Progress(x: System, sid: R.Sid): map<R.Sid, T.Session>
    requires sid in x.sessions
  {
    x.sessions[sid := T.Advance(x.sessions[sid])]
  }

  ghost function Do(cfg: T.Config, x: System, t: R.Tid, step: R.Step, input: Input): System
    requires Sized(x) && t < |x.r.pcs| && Allowed(cfg, x, t, step, input)
  {
    var pc, job := x.r.pcs[t], x.jobs[t];
    var r := R.Take(x.r, t, step);
    match step
    case Lookup(c, _) =>
      var y := Arrive(x, t, input.job);
      if c in x.r.registry then y.(r := r) else AnswerAsk(y, t, Rejection(x)).(r := r)
    case NoStream => AnswerOpen(cfg, Arrive(x, t, input.job), t, "").(r := r)
    case Create(sid, _) =>
      var sess := T.Registered(cfg, input.job.open, input.job.open.stream.value);
      Arrive(x, t, input.job).(r := r, sessions := x.sessions[sid := sess])
    case Revalidate(_) => if r.pcs[t].Vetted? then x.(r := r) else AnswerAsk(x, t, Rejection(x)).(r := r)
    case RefuseInput => AnswerAsk(x, t, Called(cfg, x, job, x.sessions[pc.sid])).(r := r)
    case Begin => x.(r := r, jobs := x.jobs[t := job.(held := Some(x.sessions[pc.sid]))])
    case End(_) => EndCall(cfg, x, t, pc.sid).(r := r)
    case FirstTurn(verdict) =>
      if verdict != R.Goes then AnswerOpen(cfg, x, t, input.cursor).(r := r)
      else x.(r := r, sessions := if pc.producer then Progress(x, pc.sid) else x.sessions)
    case Reply => AnswerOpen(cfg, x, t, pc.c).(r := r)
    case Undo => AnswerOpen(cfg, x, t, pc.c).(r := r)
    case Abandon => AnswerOpen(cfg, x, t, input.cursor).(r := r)
    case Lock => x.(r := r)
    case Settle => x.(r := r)
    case Unlock => x.(r := r)
    case Register(_) => x.(r := r)
  }

  ghost predicate Moves(cfg: T.Config, x: System, t: R.Tid, step: R.Step, input: Input, y: System) {
    Sized(x) && t < |x.r.pcs| && Allowed(cfg, x, t, step, input) && y == Do(cfg, x, t, step, input)
  }

  ghost predicate Next(cfg: T.Config, x: System, y: System) {
    exists t: R.Tid, step: R.Step, input: Input :: Moves(cfg, x, t, step, input, y)
  }

  const EMPTY := T.State(map[], map[])

  ghost predicate Initial(x: System) {
    && Sized(x) && R.Initial(x.r) && View(x) == EMPTY && x.sessions == map[] && x.done == []
    && forall t | 0 <= t < |x.asked| :: x.asked[t] == 0
  }

  // ---- What a turn does to the streams ------------------------------------------------------------------

  lemma CallEnds(cfg: T.Config, s: T.State, sess: T.Session, req: T.Continuation, env: T.Env)
    requires req.cancel || Misfit(sess, req)
    ensures req.cursor !in T.Dispatch(cfg, s, sess, req, env).state.streams
  {
    hide ExchangeTurn, ProducerTurn, T.OverCap, T.OverLimit, T.ErrorReply, T.ErrorBatch;
  }

  /** The stream as `/init` leaves it in the registry. */
  function Begun(cfg: T.Config, open: T.Opening, stream: T.Session): T.Session {
    var sess := T.Registered(cfg, open, stream);
    if stream.isExchange then sess else T.Advance(sess)
  }

  lemma InitEffect(cfg: T.Config, s: T.State, open: T.Opening, cursor: string, callToken: string, env: T.Env)
    requires cursor !in s.streams
    ensures var t := T.Init(cfg, s, open, cursor, callToken, env).state;
      && T.OthersKept(s, t, cursor)
      && (open.stream.None? || env.writeFails ==> cursor !in t.streams)
      && (open.stream.Some? && !open.stream.value.isExchange && !GoesOn(open.stream.value) ==> cursor !in t.streams)
      && (cursor in t.streams ==> t.streams[cursor] == Begun(cfg, open, open.stream.value))
  {
    hide ExchangeTurn, ProducerTurn, T.OverCap, T.OverLimit, T.ErrorReply, T.ErrorBatch;
  }

  // ---- The invariant --------------------------------------------------------------------------------------

  function Arrivals(done: seq<Done>): seq<T.Arrival> {
    seq(|done|, i requires 0 <= i < |done| => done[i].arrival)
  }

  /**
    The answered requests, run one at a time in the order of their answers, are answered so and
    leave these streams.
   */
  ghost predicate InOrder(cfg: T.Config, x: System) {
    var turns := T.Turns(cfg, EMPTY, Arrivals(x.done));
    && (forall k | 0 <= k < |x.done| :: x.done[k].answer == T.Answered(turns[k].reply, turns[k].record))
    && T.Final(EMPTY, turns) == View(x)
  }

  function Count(done: seq<Done>, t: R.Tid): nat {
    if done == [] then 0 else (if done[|done| - 1].tid == t then 1 else 0) + Count(done[..|done| - 1], t)
  }

  /** A request that has arrived and not been answered. */
  predicate Pending(pc: R.Pc) {
    pc.Waiting? || pc.Locked? || pc.Vetted? || pc.Running? || pc.Opens()
  }

  ghost predicate CountOk(x: System, t: R.Tid)
    requires Sized(x) && t < |x.r.pcs|
  {
    Count(x.done, t) + (if Pending(x.r.pcs[t]) then 1 else 0) == x.asked[t]
  }

  ghost predicate JobOk(cfg: T.Config, x: System, t: R.Tid)
    requires Sized(x) && t < |x.r.pcs|
  {
    var pc, job := x.r.pcs[t], x.jobs[t];
    && (pc.Continues() ==> job.Asks? && job.since <= |x.done| && job.req.cursor == pc.c)
    && (pc.Waiting? || pc.Locked? || pc.Vetted? || pc.Running? ==> job.req.cancel == pc.cancel)
    && (pc.Vetted? || pc.Running? ==> pc.sid in x.sessions && Admits(cfg, x.sessions[pc.sid], job.req))
    && (pc.Running? ==> job.held == Some(x.sessions[pc.sid]))
    && (pc.Opens() ==>
          && job.Opens? && job.since <= |x.done| && job.open.stream.Some? && pc.sid in x.sessions
          && x.sessions[pc.sid] == (if pc.Opening? then T.Registered(cfg, job.open, job.open.stream.value)
                                    else Begun(cfg, job.open, job.open.stream.value)))
    && (pc.Opening? ==> pc.producer == !job.open.stream.value.isExchange)
  }

  /** Everything but the answers. */
  ghost predicate Sound(cfg: T.Config, x: System) {
    && Sized(x) && R.Inv(x.r) && x.sessions.Keys == x.r.events.Keys && "" !in x.r.owner
    && forall t: R.Tid | t < |x.r.pcs| :: JobOk(cfg, x, t)
  }

  ghost predicate Accounted(cfg: T.Config, x: System) {
    && Sized(x) && InOrder(cfg, x)
    && (forall t: R.Tid | t < |x.r.pcs| :: CountOk(x, t))
    && forall k | 0 <= k < |x.done| :: x.done[k].since <= k
  }

  // ---- Each step keeps what threads know -------------------------------------------------------------------

  lemma TakeMovesOne(s: R.State, t: R.Tid, step: R.Step)
    requires t < |s.pcs| && R.Enabled(s, t, step)
    ensures var r := R.Take(s, t, step);
      |r.pcs| == |s.pcs| && forall u: R.Tid | u < |s.pcs| && u != t :: r.pcs[u] == s.pcs[u]
  {
  }

  lemma OtherJob(cfg: T.Config, x: System, y: System, t: R.Tid, sid: R.Sid, u: R.Tid)
    requires Sound(cfg, x) && Sized(y) && |y.r.pcs| == |x.r.pcs| && t < |x.r.pcs| && u < |x.r.pcs| && t != u
    requires y.r.pcs[u] == x.r.pcs[u] && y.jobs[u] == x.jobs[u] && |x.done| <= |y.done|
    requires forall k | k in x.sessions && k != sid :: k in y.sessions && y.sessions[k] == x.sessions[k]
    requires sid in x.sessions ==>
               || y.sessions == x.sessions
               || ((x.r.pcs[t].Holds() || x.r.pcs[t].Opens()) && x.r.pcs[t].sid == sid)
    ensures JobOk(cfg, y, u)
  {
    hide R.Inv, Admits, Begun, T.Registered;
    assert JobOk(cfg, x, u);
    var pc := x.r.pcs[u];
    if !pc.Idle? {
      R.Known(x.r, u);
      if pc.sid == sid && y.sessions != x.sessions {
        R.Alone(x.r, t, u);
      }
    }
  }

  /** Where `step` puts a session, if anywhere. */
  function Touched(x: System, t: R.Tid, step: R.Step): R.Sid
    requires t < |x.r.pcs|
  {
    match step
    case Create(sid, _) => sid
    case _ => if x.r.pcs[t].Idle? then 0 else x.r.pcs[t].sid
  }

  lemma MoveTakes(cfg: T.Config, x: System, t: R.Tid, step: R.Step, input: Input, y: System)
    requires Moves(cfg, x, t, step, input, y)
    ensures Sized(x) && t < |x.r.pcs| && R.Enabled(x.r, t, step) && y.r == R.Take(x.r, t, step)
  {
    hide T.Dispatch, T.Init, View, Admits, Misfit, GoesOn, Fresh, T.Registered, T.Advance, R.Take, R.Enabled;
  }

  lemma MoveSessions(cfg: T.Config, x: System, t: R.Tid, step: R.Step, input: Input, y: System)
    requires Moves(cfg, x, t, step, input, y)
    ensures x.done <= y.done && |y.jobs| == |x.jobs| && |y.asked| == |x.asked|
    ensures forall u | 0 <= u < |x.jobs| && u != t :: y.jobs[u] == x.jobs[u]
    ensures !step.Lookup? && !step.NoStream? && !step.Create? && !step.Begin? ==> y.jobs == x.jobs
    ensures step.Begin? ==>
              && t < |x.jobs| && t < |x.r.pcs| && x.jobs[t].Asks? && x.r.pcs[t].Vetted? && x.r.pcs[t].sid in x.sessions
              && y.jobs == x.jobs[t := x.jobs[t].(held := Some(x.sessions[x.r.pcs[t].sid]))]
    ensures !step.Create? && !step.End? && !step.FirstTurn? ==> y.sessions == x.sessions
    ensures forall k | k in x.sessions && k != Touched(x, t, step) :: k in y.sessions && y.sessions[k] == x.sessions[k]
    ensures y.sessions.Keys == x.sessions.Keys + if step.Create? then {step.sid} else {}
  {
    hide T.Dispatch, T.Init, View, Admits, Misfit, GoesOn, Fresh, T.Registered, T.Advance, R.Take;
  }

  /** What a thread knows after a step: of a request that arrives, of a continuation, of an `/init`. */
  lemma OwnArrival(cfg: T.Config, x: System, t: R.Tid, step: R.Step, input: Input, y: System)
    requires Sound(cfg, x) && Moves(cfg, x, t, step, input, y) && Sized(y) && t < |y.r.pcs|
    requires step.Lookup? || step.NoStream? || step.Create?
    ensures JobOk(cfg, y, t)
  {
    hide T.Dispatch, T.Init, View, Admits, Misfit, GoesOn, Fresh, T.Registered, T.Advance, R.Inv, Sound;
    SoundJob(cfg, x, t);
  }

  lemma OwnAsk(cfg: T.Config, x: System, t: R.Tid, step: R.Step, input: Input, y: System)
    requires Sound(cfg, x) && Moves(cfg, x, t, step, input, y) && Sized(y) && t < |y.r.pcs|
    requires x.r.pcs[t].Continues()
    ensures JobOk(cfg, y, t)
  {
    hide Moves, Sound, Admits, R.Take, R.Enabled;
    MoveTakes(cfg, x, t, step, input, y);
    SoundJob(cfg, x, t);
    MoveSessions(cfg, x, t, step, input, y);
    AskPc(x.r, t, step);
    Admitted(cfg, x, t, step, input, y);
  }

  /** The way of a continuation: it keeps its stream and its kind, and is vetted only by an admission. */
  lemma AskPc(s: R.State, t: R.Tid, step: R.Step)
    requires t < |s.pcs| && R.Enabled(s, t, step) && s.pcs[t].Continues()
    ensures var pc, next := s.pcs[t], R.Take(s, t, step).pcs[t];
      && !next.Opens() && !step.Lookup? && !step.NoStream? && !step.Create?
      && (next.Continues() ==> next.c == pc.c && next.sid == pc.sid)
      && (next.Waiting? || next.Locked? || next.Vetted? || next.Running? ==>
            (pc.Waiting? || pc.Locked? || pc.Vetted? || pc.Running?) && next.cancel == pc.cancel && !step.End?
                && !step.FirstTurn?)
      && (next.Vetted? ==> step == R.Revalidate(true))
      && (next.Running? <==> step.Begin?) && (step.Begin? ==> pc.Vetted?)
  {
  }

  lemma Admitted(cfg: T.Config, x: System, t: R.Tid, step: R.Step, input: Input, y: System)
    requires Moves(cfg, x, t, step, input, y)
    ensures step.Revalidate? ==>
              && x.jobs[t].Asks? && x.r.pcs[t].Locked? && x.r.pcs[t].sid in x.sessions
              && step.admitted == Admits(cfg, x.sessions[x.r.pcs[t].sid], x.jobs[t].req)
  {
    hide T.Dispatch, T.Init, View, Misfit, GoesOn, Fresh, Do, Admits;
  }

  lemma OwnOpen(cfg: T.Config, x: System, t: R.Tid, step: R.Step, input: Input, y: System)
    requires Sound(cfg, x) && Moves(cfg, x, t, step, input, y) && Sized(y) && t < |y.r.pcs|
    requires x.r.pcs[t].Opens()
    ensures JobOk(cfg, y, t)
  {
    hide Moves, Sound, R.Take, R.Enabled, T.Registered, T.Advance;
    MoveTakes(cfg, x, t, step, input, y);
    SoundJob(cfg, x, t);
    MoveSessions(cfg, x, t, step, input, y);
    OpenPc(x.r, t, step);
    FirstSession(cfg, x, t, step, input, y);
  }

  /** The way of an `/init`: it keeps its stream, and is past its first turn once that has gone on. */
  lemma OpenPc(s: R.State, t: R.Tid, step: R.Step)
    requires t < |s.pcs| && R.Enabled(s, t, step) && s.pcs[t].Opens()
    ensures var pc, next := s.pcs[t], R.Take(s, t, step).pcs[t];
      && !next.Continues() && !next.Opening? && !step.Lookup? && !step.NoStream? && !step.Create? && !step.End?
      && (next.Opens() ==> next.sid == pc.sid)
      && (pc.Opening? ==> step.FirstTurn? && (next.Opens() <==> step.verdict == R.Goes))
      && (!pc.Opening? ==> !step.FirstTurn?) && !step.Begin?
  {
  }

  lemma FirstSession(cfg: T.Config, x: System, t: R.Tid, step: R.Step, input: Input, y: System)
    requires Moves(cfg, x, t, step, input, y)
    ensures step.FirstTurn? && step.verdict == R.Goes ==>
              && x.r.pcs[t].Opening? && x.r.pcs[t].sid in x.sessions
              && y.sessions == if x.r.pcs[t].producer then Progress(x, x.r.pcs[t].sid) else x.sessions
  {
    hide T.Dispatch, T.Init, View, Admits, Misfit, GoesOn, Fresh, R.Take, Progress;
  }

  lemma SoundJob(cfg: T.Config, x: System, t: R.Tid)
    requires Sound(cfg, x) && t < |x.r.pcs|
    ensures JobOk(cfg, x, t)
  {
  }

  /** The registry's side of a step, as the streams' states need it. */
  lemma MoverOwns(s: R.State, t: R.Tid, step: R.Step)
    requires t < |s.pcs| && R.Enabled(s, t, step)
    ensures R.Take(s, t, step).owner.Keys == s.owner.Keys + if step.Register? then {step.c} else {}
    ensures step.Create? ==> step.sid !in s.events && s.pcs[t].Idle?
    ensures step.End? || step.FirstTurn? ==> s.pcs[t].Holds() || s.pcs[t].Opens()
    ensures step.Lookup? || step.NoStream? || step.Create? || s.pcs[t].Continues() || s.pcs[t].Opens()
  {
  }

  lemma EventsKeys(s: R.State, t: R.Tid, step: R.Step)
    requires R.Inv(s) && t < |s.pcs| && R.Enabled(s, t, step)
    ensures R.Take(s, t, step).events.Keys == s.events.Keys + if step.Create? then {step.sid} else {}
  {
    hide R.Inv;
    if !s.pcs[t].Idle? {
      R.Known(s, t);
    }
  }

  lemma CursorNamed(cfg: T.Config, x: System, t: R.Tid, step: R.Step, input: Input, y: System)
    requires Moves(cfg, x, t, step, input, y)
    ensures step.Register? ==> step.c != ""
  {
  }

  lemma SoundKeeps(cfg: T.Config, x: System, t: R.Tid, step: R.Step, input: Input, y: System)
    requires Sound(cfg, x) && Moves(cfg, x, t, step, input, y)
    ensures Sound(cfg, y)
  {
    hide R.Inv, R.Enabled, R.Take, Moves, JobOk;
    MoveTakes(cfg, x, t, step, input, y);
    MoveSessions(cfg, x, t, step, input, y);
    CursorNamed(cfg, x, t, step, input, y);
    R.StepKeeps(x.r, t, step);
    EventsKeys(x.r, t, step);
    TakeMovesOne(x.r, t, step);
    MoverOwns(x.r, t, step);
    if step.Lookup? || step.NoStream? || step.Create? {
      OwnArrival(cfg, x, t, step, input, y);
    } else if x.r.pcs[t].Continues() {
      OwnAsk(cfg, x, t, step, input, y);
    } else {
      OwnOpen(cfg, x, t, step, input, y);
    }
    forall u: R.Tid | u < |y.r.pcs| && u != t
      ensures JobOk(cfg, y, u)
    {
      OtherJob(cfg, x, y, t, Touched(x, t, step), u);
    }
  }

  // ---- Each step changes the streams as its answer says ------------------------------------------------------

  /** The cursor a step is about, if it is about one. */
  function Named(s: R.State, t: R.Tid, step: R.Step): string
    requires t < |s.pcs|
  {
    var pc := s.pcs[t];
    if step.Register? then step.c else if pc.Continues() || pc.Opened? then pc.c else ""
  }

  /** Everything about another cursor stays. */
  lemma ElsewhereStays(s: R.State, t: R.Tid, step: R.Step, d: string)
    requires R.Inv(s) && t < |s.pcs| && R.Enabled(s, t, step) && d != Named(s, t, step)
    ensures var r := R.Take(s, t, step);
      && (d in s.registry <==> d in r.registry) && (d in s.handed <==> d in r.handed)
      && (d in s.registry ==>
            && r.registry[d] == s.registry[d] && s.registry[d] in s.events && s.registry[d] in r.events
            && r.events[s.registry[d]] == s.events[s.registry[d]]
            && (step.Create? ==> step.sid != s.registry[d])
            && (step.End? || step.FirstTurn? ==> s.pcs[t].sid != s.registry[d]))
  {
    hide R.LocksOk, R.OpenersOk, R.StreamOk;
    assert R.ThreadOk(s, t);
  }

  ghost predicate SameAt(x: System, y: System, d: string) {
    && (Live(x, d) <==> Live(y, d))
    && (Live(x, d) ==> x.sessions[x.r.registry[d]] == y.sessions[y.r.registry[d]])
  }

  lemma ElsewhereSame(cfg: T.Config, x: System, t: R.Tid, step: R.Step, input: Input, y: System, d: string)
    requires Sound(cfg, x) && Moves(cfg, x, t, step, input, y) && Sound(cfg, y) && d != Named(x.r, t, step)
    ensures SameAt(x, y, d)
  {
    hide Moves, R.Inv, R.Enabled, R.Take, R.Over, JobOk;
    MoveTakes(cfg, x, t, step, input, y);
    MoveSessions(cfg, x, t, step, input, y);
    MoverOwns(x.r, t, step);
    ElsewhereStays(x.r, t, step, d);
  }

  lemma AskLive(s: R.State, t: R.Tid, step: R.Step)
    requires R.Inv(s) && t < |s.pcs| && R.Enabled(s, t, step) && s.pcs[t].Continues()
    ensures var c, r := Named(s, t, step), R.Take(s, t, step);
      && (step.RefuseInput? || step.End? ==>
            Resumable(s, c) && s.registry[c] == s.pcs[t].sid && (Resumable(r, c) <==> step == R.End(R.Goes)))
      && (step.Revalidate? ==> (Resumable(s, c) <==> c in s.registry && s.registry[c] == s.pcs[t].sid))
      && (!step.RefuseInput? && !step.End? ==> (Resumable(s, c) <==> Resumable(r, c)))
      && (Resumable(s, c) && Resumable(r, c) ==> r.registry[c] == s.registry[c])
  {
    hide R.Safe, R.LocksOk, R.OpenersOk;
    assert R.ThreadOk(s, t);
    if s.pcs[t].Locked? && R.Registered(s, s.pcs[t].c, s.pcs[t].sid) {
      R.LiveIsReady(s, t);
    }
  }

  /** What a step does to the liveness of its own cursor. */
  lemma HereLive(s: R.State, t: R.Tid, step: R.Step)
    requires R.Inv(s) && t < |s.pcs| && R.Enabled(s, t, step)
    requires s.pcs[t].Continues() || s.pcs[t].Opened? || step.Register?
    ensures var c, r := Named(s, t, step), R.Take(s, t, step);
      && (step.RefuseInput? || step.End? ==>
            Resumable(s, c) && s.registry[c] == s.pcs[t].sid && (Resumable(r, c) <==> step == R.End(R.Goes)))
      && (step.Reply? ==> !Resumable(s, c) && Resumable(r, c) && r.registry[c] == s.pcs[t].sid)
      && (step.Register? || step.Undo? ==> !Resumable(s, c))
      && (step.Revalidate? ==> (Resumable(s, c) <==> c in s.registry && s.registry[c] == s.pcs[t].sid))
      && (!step.RefuseInput? && !step.End? && !step.Reply? ==> (Resumable(s, c) <==> Resumable(r, c)))
      && (Resumable(s, c) && Resumable(r, c) ==> r.registry[c] == s.registry[c])
  {
    if s.pcs[t].Continues() {
      hide Resumable, R.Inv, R.Take;
      AskLive(s, t, step);
    } else {
      hide R.Safe, R.LocksOk, R.OpenersOk;
      assert R.ThreadOk(s, t);
    }
  }

  lemma SoundCursors(cfg: T.Config, x: System, c: string)
    requires Sound(cfg, x) && c !in x.r.owner
    ensures !Live(x, c)
  {
  }

  lemma SameViews(x: System, y: System)
    requires forall d :: SameAt(x, y, d)
    ensures View(x).streams == View(y).streams
  {
    hide R.Over;
    var a, b := View(x).streams, View(y).streams;
    forall d
      ensures (d in a <==> d in b) && (d in a ==> a[d] == b[d])
    {
      assert SameAt(x, y, d);
    }
  }

  /** Only a refused input, the end of a turn and a reply change the streams. */
  lemma ViewStays(cfg: T.Config, x: System, t: R.Tid, step: R.Step, input: Input, y: System)
    requires Sound(cfg, x) && Moves(cfg, x, t, step, input, y) && Sound(cfg, y)
    requires !step.RefuseInput? && !step.End? && !step.Reply?
    ensures View(y).streams == View(x).streams
  {
    hide Moves, R.Inv, R.Enabled, R.Take, Resumable, View, JobOk;
    MoveTakes(cfg, x, t, step, input, y);
    MoveSessions(cfg, x, t, step, input, y);
    MoverOwns(x.r, t, step);
    var c := Named(x.r, t, step);
    forall d
      ensures SameAt(x, y, d)
    {
      if d != c {
        ElsewhereSame(cfg, x, t, step, input, y, d);
      } else if x.r.pcs[t].Continues() || x.r.pcs[t].Opened? || step.Register? {
        HereLive(x.r, t, step);
        HereSame(cfg, x, t, step, input, y);
      } else {
        SoundCursors(cfg, x, "");
        SoundCursors(cfg, y, "");
      }
    }
    SameViews(x, y);
  }

  lemma HereSame(cfg: T.Config, x: System, t: R.Tid, step: R.Step, input: Input, y: System)
    requires Sound(cfg, x) && Moves(cfg, x, t, step, input, y) && Sound(cfg, y)
    requires x.r.pcs[t].Continues() || x.r.pcs[t].Opened? || step.Register?
    requires !step.RefuseInput? && !step.End? && !step.Reply?
    ensures SameAt(x, y, Named(x.r, t, step))
  {
    hide Moves, R.Inv, R.Enabled, R.Take, R.Over, JobOk, Named;
    MoveTakes(cfg, x, t, step, input, y);
    MoveSessions(cfg, x, t, step, input, y);
    HereLive(x.r, t, step);
    NotAnInit(x.r, t, step);
  }

  lemma NotAnInit(s: R.State, t: R.Tid, step: R.Step)
    requires t < |s.pcs| && R.Enabled(s, t, step)
    requires s.pcs[t].Continues() || s.pcs[t].Opened? || step.Register?
    ensures !step.Create? && !step.FirstTurn?
  {
  }

  // ---- Each answer is the sequential one -------------------------------------------------------------------

  /** `t` gets its answer, and the uploads of the turn are stored. */
  ghost predicate AnswersWith(x: System, y: System, t: R.Tid, since: nat, arrival: T.Arrival, turned: T.Turned) {
    && y.store == turned.state.store
    && y.done == x.done + [Done(t, since, arrival, T.Answered(turned.reply, turned.record))]
  }

  /** The steps that answer nobody. */
  ghost predicate Quiet(s: R.State, t: R.Tid, step: R.Step)
    requires t < |s.pcs| && R.Enabled(s, t, step)
  {
    match step
    case Lookup(c, _) => c in s.registry
    case Revalidate(_) => R.Take(s, t, step).pcs[t].Vetted?
    case FirstTurn(verdict) => verdict == R.Goes
    case _ => !step.NoStream? && !step.RefuseInput? && !step.End? && !step.Reply? && !step.Undo? && !step.Abandon?
  }

  predicate Asking(step: R.Step) {
    step.Lookup? || step.Revalidate? || step.RefuseInput? || step.End?
  }

  function JobOf(x: System, t: R.Tid, step: R.Step, input: Input): Job
    requires t < |x.jobs|
  {
    if (step.Lookup? || step.NoStream?) && input.Request? then input.job else x.jobs[t]
  }

  lemma QuietMove(cfg: T.Config, x: System, t: R.Tid, step: R.Step, input: Input, y: System)
    requires Moves(cfg, x, t, step, input, y) && R.Enabled(x.r, t, step) && Quiet(x.r, t, step)
    ensures y.done == x.done && y.store == x.store
  {
    hide T.Dispatch, T.Init, View, Admits, Misfit, GoesOn, Fresh, T.Registered, T.Advance, R.Take, R.Enabled;
  }

  lemma RejectMove(cfg: T.Config, x: System, t: R.Tid, step: R.Step, input: Input, y: System)
    requires Moves(cfg, x, t, step, input, y) && R.Enabled(x.r, t, step) && !Quiet(x.r, t, step)
    requires t < |x.jobs| && (step.Lookup? || step.Revalidate?)
    ensures var job := JobOf(x, t, step, input);
      job.Asks? && AnswersWith(x, y, t, job.since, T.Arrival(T.Next(job.req), job.env), Rejection(x))
  {
    hide T.Dispatch, T.Init, T.Refusal, View, Admits, Misfit, GoesOn, Fresh, T.Registered, R.Take, R.Enabled;
  }

  /** What a call answers and writes back comes from the state its thread holds. */
  lemma CallMove(cfg: T.Config, x: System, t: R.Tid, step: R.Step, input: Input, y: System)
    requires Moves(cfg, x, t, step, input, y) && t < |x.jobs| && t < |x.r.pcs| && JobOk(cfg, x, t)
    requires R.Enabled(x.r, t, step) && (step.RefuseInput? || step.End?)
    ensures var pc, job := x.r.pcs[t], x.jobs[t];
      && job.Asks? && job.req.cursor == pc.c && pc.sid in x.sessions
      && var sess := x.sessions[pc.sid];
      && var turned := Called(cfg, x, job, sess);
      && AnswersWith(x, y, t, job.since, T.Arrival(T.Next(job.req), job.env), turned)
      && Admits(cfg, sess, job.req)
      && (step.RefuseInput? ==> Misfit(sess, job.req) && y.sessions == x.sessions)
      && (step.End? ==>
            && (step.verdict == R.Goes <==> pc.c in turned.state.streams)
            && (pc.c in turned.state.streams ==> y.sessions == x.sessions[pc.sid := turned.state.streams[pc.c]]))
  {
    hide T.Dispatch, T.Init, View, Admits, Misfit, GoesOn, Fresh, T.Registered, R.Take, Called;
  }

  /** The cursor that `/init` minted, or would have. */
  function Minted(s: R.State, t: R.Tid, step: R.Step, input: Input): string
    requires t < |s.pcs|
  {
    if s.pcs[t].Opened? then s.pcs[t].c else if input.Mint? then input.cursor else ""
  }

  lemma OpenMove(cfg: T.Config, x: System, t: R.Tid, step: R.Step, input: Input, y: System)
    requires Moves(cfg, x, t, step, input, y) && R.Enabled(x.r, t, step) && !Quiet(x.r, t, step) && !Asking(step)
    requires t < |x.jobs|
    ensures var job, cursor := JobOf(x, t, step, input), Minted(x.r, t, step, input);
      && job.Opens?
      && AnswersWith(x, y, t, job.since, T.Arrival(T.Start(job.open, cursor, job.callToken), job.env),
                     Started(cfg, x, job, cursor))
  {
    hide T.Dispatch, T.Init, View, Admits, Misfit, GoesOn, T.Registered, T.Advance, R.Take;
  }

  lemma AskRefused(cfg: T.Config, x: System, t: R.Tid, step: R.Step, input: Input, y: System)
    requires Sound(cfg, x) && Moves(cfg, x, t, step, input, y)
    requires R.Enabled(x.r, t, step) && !Quiet(x.r, t, step) && (step.Lookup? || step.Revalidate?)
    ensures var job := JobOf(x, t, step, input); job.Asks? && T.Refused(cfg, View(x), job.req)
  {
    hide Do, R.Over, T.Dispatch, T.Init;
    SoundJob(cfg, x, t);
    if step.Revalidate? {
      HereLive(x.r, t, step);
    }
  }

  /**
    A thread inside a stream is in the live state that the sequential run has of it: so say its lock
    and its revalidation.
   */
  lemma AskAdmitted(cfg: T.Config, x: System, t: R.Tid, step: R.Step, input: Input, y: System)
    requires Sound(cfg, x) && Moves(cfg, x, t, step, input, y)
    requires R.Enabled(x.r, t, step) && (step.RefuseInput? || step.End?)
    ensures var pc, job := x.r.pcs[t], x.jobs[t];
      && job.Asks? && job.req.cursor == pc.c && !T.Refused(cfg, View(x), job.req)
      && pc.sid in x.sessions && View(x).streams[pc.c] == x.sessions[pc.sid]
  {
    hide Do, R.Over, T.Dispatch, T.Init;
    SoundJob(cfg, x, t);
    HereLive(x.r, t, step);
    SoundCursors(cfg, x, "");
  }

  /** So the turn that the thread ran is the sequential one, to its answer, its stream and its uploads. */
  lemma CallIsTurn(cfg: T.Config, x: System, job: Job, sess: T.Session)
    requires job.Asks? && !T.Refused(cfg, View(x), job.req) && View(x).streams[job.req.cursor] == sess
    ensures var local, turned := Called(cfg, x, job, sess), T.Continue(cfg, View(x), job.req, job.env);
      && local.reply == turned.reply && local.record == turned.record && local.state.store == turned.state.store
      && T.SameAt(turned.state, local.state, job.req.cursor)
      && T.OthersKept(View(x), turned.state, job.req.cursor)
  {
    hide T.Dispatch, Live;
    var c, s := job.req.cursor, Inside(x, job.req.cursor, sess);
    T.DispatchAlike(cfg, View(x), s, sess, job.req, job.env);
    T.DispatchStore(cfg, View(x), s, sess, job.req, job.env);
  }

  lemma CallAnswers(cfg: T.Config, x: System, t: R.Tid, step: R.Step, input: Input, y: System)
    requires Sound(cfg, x) && Moves(cfg, x, t, step, input, y) && Sound(cfg, y)
    requires R.Enabled(x.r, t, step) && (step.RefuseInput? || step.End?)
    ensures var job := x.jobs[t];
      && job.Asks?
      && var turned := T.Continue(cfg, View(x), job.req, job.env);
      && AnswersWith(x, y, t, job.since, T.Arrival(T.Next(job.req), job.env), turned)
      && View(y).streams == turned.state.streams
  {
    hide Moves, R.Inv, R.Take, R.Over, T.Dispatch, T.Continue, T.Refused, Misfit, JobOk, Called;
    MoveTakes(cfg, x, t, step, input, y);
    SoundJob(cfg, x, t);
    AskAdmitted(cfg, x, t, step, input, y);
    CallMove(cfg, x, t, step, input, y);
    HereLive(x.r, t, step);
    var c, job, sess := x.r.pcs[t].c, x.jobs[t], x.sessions[x.r.pcs[t].sid];
    CallIsTurn(cfg, x, job, sess);
    if step.RefuseInput? {
      CalledEnds(cfg, x, job, sess);
    }
    var a, b := View(y).streams, T.Continue(cfg, View(x), job.req, job.env).state.streams;
    forall d
      ensures (d in a <==> d in b) && (d in a ==> a[d] == b[d])
    {
      if d != c {
        ElsewhereSame(cfg, x, t, step, input, y, d);
      }
    }
  }

  lemma CalledEnds(cfg: T.Config, x: System, job: Job, sess: T.Session)
    requires job.Asks? && (job.req.cancel || Misfit(sess, job.req))
    ensures job.req.cursor !in Called(cfg, x, job, sess).state.streams
  {
    CallEnds(cfg, Inside(x, job.req.cursor, sess), sess, job.req, job.env);
  }

  /**
    A step that answers a continuation gives the sequential answer and leaves the streams that the
    sequential turn does.
   */
  lemma AskAnswers(cfg: T.Config, x: System, t: R.Tid, step: R.Step, input: Input, y: System)
    requires Sound(cfg, x) && Moves(cfg, x, t, step, input, y) && Sound(cfg, y)
    requires R.Enabled(x.r, t, step) && !Quiet(x.r, t, step) && Asking(step)
    ensures var job := JobOf(x, t, step, input);
      && job.Asks?
      && var turned := T.Continue(cfg, View(x), job.req, job.env);
      && AnswersWith(x, y, t, job.since, T.Arrival(T.Next(job.req), job.env), turned)
      && View(y).streams == turned.state.streams
  {
    hide Moves, R.Inv, R.Take, T.Continue, T.Refused, Live, JobOk;
    MoveTakes(cfg, x, t, step, input, y);
    if step.Lookup? || step.Revalidate? {
      ViewStays(cfg, x, t, step, input, y);
      AskRefused(cfg, x, t, step, input, y);
      RejectMove(cfg, x, t, step, input, y);
      var job := JobOf(x, t, step, input);
      T.RefusedChangesNothing(cfg, View(x), job.req, job.env);
    } else {
      CallAnswers(cfg, x, t, step, input, y);
    }
  }

  // The same of the steps that answer an `/init`.

  lemma OpenFacts(cfg: T.Config, x: System, t: R.Tid, step: R.Step, input: Input, y: System)
    requires Sound(cfg, x) && Moves(cfg, x, t, step, input, y)
    requires R.Enabled(x.r, t, step) && !Quiet(x.r, t, step) && !Asking(step)
    ensures var job, c := JobOf(x, t, step, input), Minted(x.r, t, step, input);
      && job.Opens? && !Live(x, c)
      && (step.NoStream? ==> job.open.stream.None?)
      && (step.FirstTurn? ==>
            job.open.stream.Some? && !job.open.stream.value.isExchange && !GoesOn(job.open.stream.value))
      && (step.Abandon? ==> job.env.writeFails)
      && (step.Undo? || step.Reply? ==>
            && x.r.pcs[t].Opened? && c == Named(x.r, t, step) && job.open.stream.Some?
            && x.r.pcs[t].sid in x.sessions && y.sessions == x.sessions
            && x.sessions[x.r.pcs[t].sid] == Begun(cfg, job.open, job.open.stream.value)
            && (step.Reply? <==> c in Started(cfg, x, job, c).state.streams))
  {
    hide T.Dispatch, T.Init, View, Admits, Misfit, GoesOn, T.Registered, T.Advance, R.Inv, R.Over, Begun, Sound, Live;
    SoundJob(cfg, x, t);
    SoundSized(cfg, x);
    NotMinted(cfg, x, t, step, input);
  }

  lemma SoundSized(cfg: T.Config, x: System)
    requires Sound(cfg, x)
    ensures Sized(x) && R.Inv(x.r)
  {
  }

  lemma NotMinted(cfg: T.Config, x: System, t: R.Tid, step: R.Step, input: Input)
    requires Sound(cfg, x) && t < |x.r.pcs| && R.Enabled(x.r, t, step)
    ensures x.r.pcs[t].Opened? ==> !Live(x, x.r.pcs[t].c)
    ensures !x.r.pcs[t].Opened? && (input.Mint? ==> Fresh(x, input)) ==> !Live(x, Minted(x.r, t, step, input))
  {
    hide R.Over;
    assert x.r.pcs[t].Opened? ==> R.ThreadOk(x.r, t);
  }

  /** An `/init` run on its own is the sequential one. */
  lemma StartIsTurn(cfg: T.Config, x: System, job: Job, c: string)
    requires job.Opens? && !Live(x, c)
    ensures var local, turned := Started(cfg, x, job, c), T.Init(cfg, View(x), job.open, c, job.callToken, job.env);
      && local.reply == turned.reply && local.record == turned.record && local.state.store == turned.state.store
      && T.SameAt(turned.state, local.state, c)
  {
    hide T.Init, Live;
    var s := T.State(map[], x.store);
    T.InitAlike(cfg, View(x), s, job.open, c, job.callToken, job.env);
    T.InitStore(cfg, View(x), s, job.open, c, job.callToken, job.env);
  }

  lemma OpenAnswers(cfg: T.Config, x: System, t: R.Tid, step: R.Step, input: Input, y: System)
    requires Sound(cfg, x) && Moves(cfg, x, t, step, input, y) && Sound(cfg, y)
    requires R.Enabled(x.r, t, step) && !Quiet(x.r, t, step) && !Asking(step)
    ensures var job, c := JobOf(x, t, step, input), Minted(x.r, t, step, input);
      && job.Opens?
      && var turned := T.Init(cfg, View(x), job.open, c, job.callToken, job.env);
      && AnswersWith(x, y, t, job.since, T.Arrival(T.Start(job.open, c, job.callToken), job.env), turned)
      && View(y).streams == turned.state.streams
  {
    hide Moves, R.Inv, R.Take, R.Over, T.Init, Begun, GoesOn, JobOk, Quiet, Started;
    MoveTakes(cfg, x, t, step, input, y);
    OpenFacts(cfg, x, t, step, input, y);
    OpenMove(cfg, x, t, step, input, y);
    var job, c := JobOf(x, t, step, input), Minted(x.r, t, step, input);
    StartIsTurn(cfg, x, job, c);
    InitEffect(cfg, View(x), job.open, c, job.callToken, job.env);
    var a, b := View(y).streams, T.Init(cfg, View(x), job.open, c, job.callToken, job.env).state.streams;
    if step.Reply? {
      HereLive(x.r, t, step);
      forall d
        ensures (d in a <==> d in b) && (d in a ==> a[d] == b[d])
      {
        if d != c {
          ElsewhereSame(cfg, x, t, step, input, y, d);
        }
      }
    } else {
      ViewStays(cfg, x, t, step, input, y);
      NotAsking(x.r, t, step);
      forall d
        ensures (d in a <==> d in b) && (d in a ==> a[d] == b[d])
      {
      }
    }
  }

  lemma NotAsking(s: R.State, t: R.Tid, step: R.Step)
    requires t < |s.pcs| && R.Enabled(s, t, step) && !Quiet(s, t, step) && !Asking(step)
    ensures step.NoStream? || step.FirstTurn? || step.Reply? || step.Undo? || step.Abandon?
  {
  }

  lemma SequenceGrows(cfg: T.Config, s: T.State, arrivals: seq<T.Arrival>, last: T.Arrival)
    ensures T.Turns(cfg, s, arrivals + [last])
         == T.Turns(cfg, s, arrivals) + [T.Handle(cfg, T.Final(s, T.Turns(cfg, s, arrivals)), last)]
    decreases |arrivals|
  {
    hide T.Handle;
    if arrivals == [] {
      assert arrivals + [last] == [last] && [last][1..] == [];
    } else {
      var t := T.Handle(cfg, s, arrivals[0]);
      assert (arrivals + [last])[1..] == arrivals[1..] + [last];
      SequenceGrows(cfg, t.state, arrivals[1..], last);
      T.FinalNext(s, t, T.Turns(cfg, t.state, arrivals[1..]));
    }
  }

  /** An answer that is the sequential one of the next request keeps the whole history in order. */
  lemma InOrderGrows(cfg: T.Config, x: System, y: System, t: R.Tid, since: nat, arrival: T.Arrival)
    requires InOrder(cfg, x) && AnswersWith(x, y, t, since, arrival, T.Handle(cfg, View(x), arrival))
    requires View(y).streams == T.Handle(cfg, View(x), arrival).state.streams
    ensures InOrder(cfg, y)
  {
    hide T.Handle, Live;
    assert Arrivals(y.done) == Arrivals(x.done) + [arrival];
    SequenceGrows(cfg, EMPTY, Arrivals(x.done), arrival);
  }

  lemma InOrderStays(cfg: T.Config, x: System, y: System)
    requires InOrder(cfg, x) && y.done == x.done && y.store == x.store && View(y).streams == View(x).streams
    ensures InOrder(cfg, y)
  {
    hide Live;
  }

  lemma InOrderKeeps(cfg: T.Config, x: System, t: R.Tid, step: R.Step, input: Input, y: System)
    requires Sound(cfg, x) && InOrder(cfg, x) && Moves(cfg, x, t, step, input, y) && Sound(cfg, y)
    ensures InOrder(cfg, y)
  {
    hide Moves, Sound, InOrder, View, Quiet, R.Take, R.Enabled, T.Continue, T.Init;
    SoundSized(cfg, x);
    MoveTakes(cfg, x, t, step, input, y);
    if Quiet(x.r, t, step) {
      QuietMove(cfg, x, t, step, input, y);
      QuietStays(x.r, t, step);
      ViewStays(cfg, x, t, step, input, y);
      InOrderStays(cfg, x, y);
    } else {
      var job := JobOf(x, t, step, input);
      if Asking(step) {
        AskAnswers(cfg, x, t, step, input, y);
        InOrderGrows(cfg, x, y, t, job.since, T.Arrival(T.Next(job.req), job.env));
      } else {
        var c := Minted(x.r, t, step, input);
        OpenAnswers(cfg, x, t, step, input, y);
        InOrderGrows(cfg, x, y, t, job.since, T.Arrival(T.Start(job.open, c, job.callToken), job.env));
      }
    }
  }

  lemma QuietStays(s: R.State, t: R.Tid, step: R.Step)
    requires t < |s.pcs| && R.Enabled(s, t, step) && Quiet(s, t, step)
    ensures !step.RefuseInput? && !step.End? && !step.Reply?
  {
  }

  // ---- Every request is answered once ------------------------------------------------------------------------

  predicate Arriving(step: R.Step) {
    step.Lookup? || step.NoStream? || step.Create?
  }

  lemma MovePending(s: R.State, t: R.Tid, step: R.Step)
    requires t < |s.pcs| && R.Enabled(s, t, step)
    ensures var before, after := Pending(s.pcs[t]), |R.Take(s, t, step).pcs| == |s.pcs|
        && Pending(R.Take(s, t, step).pcs[t]);
      if Arriving(step) then !before && (after <==> Quiet(s, t, step))
      else if Quiet(s, t, step) then before == after else before && !after
  {
  }

  lemma MoveAsked(cfg: T.Config, x: System, t: R.Tid, step: R.Step, input: Input, y: System)
    requires Moves(cfg, x, t, step, input, y) && t < |x.asked|
    ensures y.asked == if Arriving(step) then x.asked[t := x.asked[t] + 1] else x.asked
    ensures step.Lookup? || step.NoStream? ==> input.Request? && !input.job.Free? && input.job.since == |x.done|
  {
    hide T.Dispatch, T.Init, View, Admits, Misfit, GoesOn, Fresh, T.Registered, T.Advance, R.Take, R.Enabled;
  }

  lemma CountSnoc(done: seq<Done>, e: Done, t: R.Tid)
    ensures Count(done + [e], t) == Count(done, t) + if e.tid == t then 1 else 0
  {
    assert (done + [e])[..|done|] == done;
  }

  lemma CountsKeep(cfg: T.Config, x: System, t: R.Tid, step: R.Step, input: Input, y: System)
    requires Sound(cfg, x) && Accounted(cfg, x) && Moves(cfg, x, t, step, input, y) && Sound(cfg, y)
    ensures forall u: R.Tid | u < |y.r.pcs| :: CountOk(y, u)
    ensures forall k | 0 <= k < |y.done| :: y.done[k].since <= k
  {
    hide Moves, Sound, InOrder, Quiet, R.Take, R.Enabled, T.Dispatch, T.Init, View, Count, Pending;
    SoundSized(cfg, x);
    SoundSized(cfg, y);
    MoveTakes(cfg, x, t, step, input, y);
    MovePending(x.r, t, step);
    MoveAsked(cfg, x, t, step, input, y);
    TakeMovesOne(x.r, t, step);
    if Quiet(x.r, t, step) {
      QuietMove(cfg, x, t, step, input, y);
    } else {
      Entered(cfg, x, t, step, input, y);
    }
    forall u: R.Tid | u < |y.r.pcs|
      ensures CountOk(y, u)
    {
      assert CountOk(x, u);
      if !Quiet(x.r, t, step) {
        CountSnoc(x.done, y.done[|x.done|], u);
      }
    }
  }

  lemma Entered(cfg: T.Config, x: System, t: R.Tid, step: R.Step, input: Input, y: System)
    requires Sound(cfg, x) && Moves(cfg, x, t, step, input, y) && R.Enabled(x.r, t, step) && !Quiet(x.r, t, step)
    ensures |y.done| == |x.done| + 1 && y.done == x.done + [y.done[|x.done|]]
    ensures y.done[|x.done|].tid == t && y.done[|x.done|].since <= |x.done|
  {
    hide Moves, R.Inv, T.Dispatch, T.Init, View, Live, R.Take;
    MoveTakes(cfg, x, t, step, input, y);
    SoundJob(cfg, x, t);
    MoveAsked(cfg, x, t, step, input, y);
    if step.Lookup? || step.Revalidate? {
      RejectMove(cfg, x, t, step, input, y);
    } else if Asking(step) {
      CallMove(cfg, x, t, step, input, y);
    } else {
      OpenMove(cfg, x, t, step, input, y);
    }
  }

  // ---- Every run ---------------------------------------------------------------------------------------------

  ghost predicate Run(cfg: T.Config, run: seq<System>) {
    && run != [] && Initial(run[0])
    && forall i | 0 <= i < |run| - 1 :: Next(cfg, run[i], run[i + 1])
  }

  lemma InitialKeeps(cfg: T.Config, x: System)
    requires Initial(x)
    ensures Sound(cfg, x) && Accounted(cfg, x)
  {
  }

  lemma NextKeeps(cfg: T.Config, x: System, y: System)
    requires Sound(cfg, x) && Accounted(cfg, x) && Next(cfg, x, y)
    ensures Sound(cfg, y) && Accounted(cfg, y)
  {
    hide Moves, Sound, InOrder, CountOk;
    var t: R.Tid, step: R.Step, input: Input :| Moves(cfg, x, t, step, input, y);
    SoundKeeps(cfg, x, t, step, input, y);
    InOrderKeeps(cfg, x, t, step, input, y);
    CountsKeep(cfg, x, t, step, input, y);
    SoundSized(cfg, y);
  }

  lemma {:induction false} RunKeeps(cfg: T.Config, run: seq<System>, i: nat)
    requires Run(cfg, run) && i < |run|
    ensures Sound(cfg, run[i]) && Accounted(cfg, run[i])
    decreases i
  {
    hide Sound, Accounted, Next, Initial;
    if i == 0 {
      InitialKeeps(cfg, run[0]);
    } else {
      RunKeeps(cfg, run, i - 1);
      NextKeeps(cfg, run[i - 1], run[i]);
    }
  }

  function Registries(run: seq<System>): seq<R.State> {
    seq(|run|, i requires 0 <= i < |run| => run[i].r)
  }

  /** Every run is a run of the registry's threads, so what holds of those holds here. */
  lemma RunsTheRegistry(cfg: T.Config, run: seq<System>)
    requires Run(cfg, run)
    ensures R.Run(Registries(run))
  {
    hide Moves, R.Take, R.Enabled;
    var states := Registries(run);
    forall i | 0 <= i < |states| - 1
      ensures R.Next(states[i], states[i + 1])
    {
      assert Next(cfg, run[i], run[i + 1]);
      var t: R.Tid, step: R.Step, input: Input :| Moves(cfg, run[i], t, step, input, run[i + 1]);
      MoveTakes(cfg, run[i], t, step, input, run[i + 1]);
    }
  }

  /**
    The server is linearizable.  At every moment of every interleaving, the answers and records that
    the threads have given, each from the stream state it held, are those of the same requests run one
    at a time, in the order of the answers; that run leaves the streams and the store as they are;
    every request that is not still under way has been answered exactly once; and none is put before
    one that was answered before it arrived.
   */
  lemma Linearizable(cfg: T.Config, run: seq<System>, i: nat)
    requires Run(cfg, run) && i < |run|
    ensures var x := run[i];
      var turns := T.Turns(cfg, EMPTY, Arrivals(x.done));
      && (forall k | 0 <= k < |x.done| ::
            x.done[k].answer == T.Answered(turns[k].reply, turns[k].record) && x.done[k].since <= k)
      && T.Final(EMPTY, turns) == View(x)
      && |x.asked| == |x.r.pcs|
      && forall t: R.Tid | t < |x.asked| ::
           Count(x.done, t) + (if Pending(x.r.pcs[t]) then 1 else 0) == x.asked[t]
  {
    hide T.Turns, T.Final, View, Count, Pending;
    RunKeeps(cfg, run, i);
    forall t: R.Tid | t < |run[i].asked|
      ensures Count(run[i].done, t) + (if Pending(run[i].r.pcs[t]) then 1 else 0) == run[i].asked[t]
    {
      assert CountOk(run[i], t);
    }
  }

  /** Between turns the registry holds, of the cursors handed out, just the streams of the sequential run. */
  lemma RegistryIsSequential(cfg: T.Config, run: seq<System>, i: nat, c: string)
    requires Run(cfg, run) && i < |run| && c in run[i].r.handed
    ensures c in run[i].r.owner
    ensures run[i].r.owner[c] !in run[i].r.lock ==>
              (c in run[i].r.registry <==> c in T.Final(EMPTY, T.Turns(cfg, EMPTY, Arrivals(run[i].done))).streams)
  {
    hide T.Turns, T.Final, R.Over, R.Safe;
    RunKeeps(cfg, run, i);
    var x := run[i];
    if x.r.owner[c] !in x.r.lock {
      assert R.StreamOk(x.r, x.r.owner[c]);
    }
  }

  /** The answers given to the requests that name one stream. */
  function AnswersOf(done: seq<Done>, cursor: string): seq<T.Answered> {
    if done == [] then []
    else (if done[0].arrival.request.Cursor() == cursor then [done[0].answer] else []) + AnswersOf(done[1..], cursor)
  }

  lemma {:induction false} AnswersMatch(cfg: T.Config, s: T.State, done: seq<Done>, cursor: string)
    requires var turns := T.Turns(cfg, s, Arrivals(done));
      forall k | 0 <= k < |done| :: done[k].answer == T.Answered(turns[k].reply, turns[k].record)
    ensures AnswersOf(done, cursor) == T.AnswersTo(cfg, s, Arrivals(done), cursor)
    decreases |done|
  {
    hide T.Handle;
    if done != [] {
      var t := T.Handle(cfg, s, done[0].arrival);
      assert Arrivals(done)[1..] == Arrivals(done[1..]);
      var turns, rest := T.Turns(cfg, s, Arrivals(done)), T.Turns(cfg, t.state, Arrivals(done[1..]));
      assert turns == [t] + rest;
      forall k | 0 <= k < |done| - 1
        ensures done[1..][k].answer == T.Answered(rest[k].reply, rest[k].record)
      {
        assert turns[k + 1] == rest[k] && done[k + 1] == done[1..][k];
      }
      assert done[0].answer == T.Answered(turns[0].reply, turns[0].record);
      AnswersMatch(cfg, t.state, done[1..], cursor);
    }
  }

  /** Even interleaved, a stream's requests are answered as if no other stream were ever asked for anything. */
  lemma ConcurrentStreamsDoNotInterfere(cfg: T.Config, run: seq<System>, i: nat, cursor: string)
    requires Run(cfg, run) && i < |run|
    ensures AnswersOf(run[i].done, cursor)
         == T.AnswersTo(cfg, EMPTY, T.Only(Arrivals(run[i].done), cursor), cursor)
  {
    hide T.Turns, T.AnswersTo, T.Only, View, Count, Pending;
    Linearizable(cfg, run, i);
    AnswersMatch(cfg, EMPTY, run[i].done, cursor);
    T.StreamsDoNotInterfere(cfg, EMPTY, EMPTY, Arrivals(run[i].done), cursor);
  }

  /** A step that a request under way can take when nobody holds its stream's lock, or it does. */
  ghost function NextStep(cfg: T.Config, x: System, u: R.Tid, unused: string): R.Step
    requires Sound(cfg, x) && u < |x.r.pcs| && !x.r.pcs[u].Idle?
  {
    var pc, job := x.r.pcs[u], x.jobs[u];
    assert JobOk(cfg, x, u) && R.ThreadOk(x.r, u);
    match pc
    case Waiting(_, _, _) => R.Lock
    case Locked(_, sid, _) => R.Revalidate(Admits(cfg, x.sessions[sid], job.req))
    case Vetted(_, sid, _) => if Misfit(x.sessions[sid], job.req) then R.RefuseInput else R.Begin
    case Running(c, _, cancel) =>
      R.End(if c in Called(cfg, x, job, job.held.value).state.streams then R.Goes else if cancel then R.Cancels
          else R.Raises)
    case Ran(_, _, _) => R.Settle
    case Leaving(_, _) => R.Unlock
    case Opening(_, producer) =>
      R.FirstTurn(if producer && !GoesOn(job.open.stream.value) then R.Finishes else R.Goes)
    case Minting(_) => R.Register(unused)
    case Opened(c, _) => if c in Started(cfg, x, job, c).state.streams then R.Reply else R.Undo
    case Idle => R.NoStream
  }

  lemma NextStepAllowed(cfg: T.Config, x: System, u: R.Tid, unused: string)
    requires Sound(cfg, x) && u < |x.r.pcs| && !x.r.pcs[u].Idle? && unused != "" && unused !in x.r.owner
    requires x.r.pcs[u].Waiting? ==> x.r.pcs[u].sid !in x.r.lock
    ensures Allowed(cfg, x, u, NextStep(cfg, x, u, unused), Mint(unused))
  {
    hide T.Dispatch, T.Init, R.Over, Admits, GoesOn, View;
    assert JobOk(cfg, x, u) && R.ThreadOk(x.r, u);
    if x.r.pcs[u].Running? && x.r.pcs[u].cancel {
      CalledEnds(cfg, x, x.jobs[u], x.jobs[u].held.value);
    }
  }

  /** However far the requests have got, somebody who is under way can go on, whatever its turn comes to. */
  lemma NoRequestIsStuck(cfg: T.Config, run: seq<System>, i: nat, t: R.Tid)
    requires Run(cfg, run) && i < |run| && t < |run[i].r.pcs| && !run[i].r.pcs[t].Idle?
    ensures Sized(run[i])
    ensures exists u: R.Tid, step: R.Step, input: Input ::
              u < |run[i].r.pcs| && !run[i].r.pcs[u].Idle? && Allowed(cfg, run[i], u, step, input)
  {
    hide Allowed, R.Over, R.Safe, NextStep;
    RunKeeps(cfg, run, i);
    var x := run[i];
    var u := if x.r.pcs[t].Waiting? && x.r.pcs[t].sid in x.r.lock then x.r.lock[x.r.pcs[t].sid] else t;
    var unused := R.Unused(x.r.owner.Keys);
    NextStepAllowed(cfg, x, u, unused);
  }
}
