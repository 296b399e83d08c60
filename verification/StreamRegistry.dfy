/**
  The server's stream registry under any interleaving of any number of requests.

  A state machine over atomic steps: each request is a thread that looks its cursor up, takes the
  stream's dispatch lock, revalidates, calls into the stream state, settles the registry and
  unlocks; `/init` runs a producer's first turn before the stream is registered at all.  Requests
  carry cursors that some reply handed out, or strings no stream is registered under.
 */
module StreamRegistry {

  type Tid = nat
  type Cursor = string
  type Sid = nat

  /** How a turn ended; only `Goes` leaves the stream resumable. */
  datatype Verdict = Goes | Finishes | Raises | Cancels | Overflows

  /** What happened to one stream state: calls into it, and `Dropped` for a turn that gave it up without one. */
  datatype Event =
    | Began(tid: Tid, cancel: bool)
    | Ended(tid: Tid, verdict: Verdict)
    | Dropped(tid: Tid)
  {
    predicate Terminal() {
      Dropped? || (Ended? && verdict != Goes)
    }
  }

  datatype Pc =
    | Idle
    // A continuation or a cancel, from the lookup to the unlock.
    | Waiting(c: Cursor, sid: Sid, cancel: bool)
    | Locked(c: Cursor, sid: Sid, cancel: bool)
    | Vetted(c: Cursor, sid: Sid, cancel: bool)
    | Running(c: Cursor, sid: Sid, cancel: bool)
    | Ran(c: Cursor, sid: Sid, verdict: Verdict)
    | Leaving(c: Cursor, sid: Sid)
    // An init, from the factory to the reply.
    | Opening(sid: Sid, producer: bool)
    | Minting(sid: Sid)
    | Opened(c: Cursor, sid: Sid)
  {
    predicate Holds() {
      Locked? || Vetted? || Running? || Ran? || Leaving?
    }

    predicate Opens() {
      Opening? || Minting? || Opened?
    }

    predicate Continues() {
      Waiting? || Holds()
    }
  }

  /**
    `owner` remembers for every cursor ever minted the stream it was minted for, and `events` what
    happened to every stream state; neither is consulted by a step.
   */
  datatype State = State(
    registry: map<Cursor, Sid>,
    lock: map<Sid, Tid>,
    pcs: seq<Pc>,
    handed: set<Cursor>,
    owner: map<Cursor, Sid>,
    events: map<Sid, seq<Event>>)

  function Goto(s: State, t: Tid, pc: Pc): State
    requires t < |s.pcs|
  {
    s.(pcs := s.pcs[t := pc])
  }

  function Note(s: State, sid: Sid, e: Event): State {
    s.(events := s.events[sid := (if sid in s.events then s.events[sid] else []) + [e]])
  }

  datatype Step =
    | Lookup(c: Cursor, cancel: bool)
    | Lock
    | Revalidate(admitted: bool)
    | Begin
    | RefuseInput
    | End(verdict: Verdict)
    | Settle
    | Unlock
    | Create(sid: Sid, producer: bool)
    | FirstTurn(verdict: Verdict)
    | Register(c: Cursor)
    | Reply
    | Abandon
    | Undo
    | NoStream

  /** When thread `t` may take `step`. */
  ghost predicate Enabled(s: State, t: Tid, step: Step)
    requires t < |s.pcs|
  {
    var pc := s.pcs[t];
    match step
    case Lookup(c, cancel) => pc.Idle? && (c in s.handed || c !in s.registry)
    case Lock => pc.Waiting? && pc.sid !in s.lock
    case Revalidate(_) => pc.Locked?
    case Begin => pc.Vetted?
    case RefuseInput => pc.Vetted? && !pc.cancel
    case End(v) => pc.Running? && (v == Cancels <==> pc.cancel)
    case Settle => pc.Ran?
    case Unlock => pc.Leaving?
    case Create(sid, _) => pc.Idle? && sid !in s.events
    case FirstTurn(v) => pc.Opening? && v != Cancels && v != Overflows && (!pc.producer ==> v == Goes)
    case Register(c) => pc.Minting? && c !in s.owner
    case Reply => pc.Opened?
    case Abandon => pc.Minting?
    case Undo => pc.Opened?
    case NoStream => pc.Idle?
  }

  /** What the step does. */
  function Take(s: State, t: Tid, step: Step): State
    requires t < |s.pcs| && Enabled(s, t, step)
  {
    var pc := s.pcs[t];
    match step
    case Lookup(c, cancel) => if c in s.registry then Goto(s, t, Waiting(c, s.registry[c], cancel)) else s
    case Lock => Goto(s.(lock := s.lock[pc.sid := t]), t, Locked(pc.c, pc.sid, pc.cancel))
    case Revalidate(admitted) =>
      if pc.c in s.registry && s.registry[pc.c] == pc.sid && admitted
      then Goto(s, t, Vetted(pc.c, pc.sid, pc.cancel)) else Goto(s, t, Leaving(pc.c, pc.sid))
    case Begin => Note(Goto(s, t, Running(pc.c, pc.sid, pc.cancel)), pc.sid, Began(t, pc.cancel))
    case RefuseInput => Note(Goto(s, t, Ran(pc.c, pc.sid, Raises)), pc.sid, Dropped(t))
    case End(v) => Note(Goto(s, t, Ran(pc.c, pc.sid, v)), pc.sid, Ended(t, v))
    case Settle =>
      if pc.verdict != Goes && pc.c in s.registry && s.registry[pc.c] == pc.sid
      then Goto(s.(registry := s.registry - {pc.c}), t, Leaving(pc.c, pc.sid)) else Goto(s, t, Leaving(pc.c, pc.sid))
    case Unlock => Goto(s.(lock := s.lock - {pc.sid}), t, Idle)
    case Create(sid, producer) =>
      Goto(s.(events := s.events[sid := if producer then [Began(t, false)] else []]), t, Opening(sid, producer))
    case FirstTurn(v) =>
      var next := if v == Goes then Minting(pc.sid) else Idle;
      if pc.producer then Note(Goto(s, t, next), pc.sid, Ended(t, v)) else Goto(s, t, next)
    case Register(c) =>
      Goto(s.(registry := s.registry[c := pc.sid], owner := s.owner[c := pc.sid]), t, Opened(c, pc.sid))
    case Reply => Goto(s.(handed := s.handed + {pc.c}), t, Idle)
    case Abandon => Note(Goto(s, t, Idle), pc.sid, Dropped(t))
    case Undo => Note(Goto(s.(registry := s.registry - {pc.c}), t, Idle), pc.sid, Dropped(t))
    // A factory that raises opens nothing.
    case NoStream => s
  }

  ghost predicate Next(s: State, s': State) {
    exists t: Tid, step: Step :: t < |s.pcs| && Enabled(s, t, step) && s' == Take(s, t, step)
  }

  ghost predicate Initial(s: State) {
    && s.registry == map[] && s.lock == map[] && s.handed == {} && s.owner == map[] && s.events == map[]
    && forall t: Tid | t < |s.pcs| :: s.pcs[t] == Idle
  }

  // ---- Safety of one stream's history ----------------------------------------------------------

  /**
    Calls never overlap: whoever enters the state leaves it before anything else happens to it.  A
    cancel call is the only one that ends in a cancel, and nothing follows a terminal event.
   */
  ghost predicate Safe(h: seq<Event>) {
    forall i | 0 <= i < |h| :: SafeAt(h, i)
  }

  ghost predicate SafeAt(h: seq<Event>, i: nat)
    requires i < |h|
  {
    && (h[i].Began? ==> i == |h| - 1 || (h[i + 1].Ended? && h[i + 1].tid == h[i].tid))
    && (h[i].Ended? ==>
          && i > 0 && h[i - 1].Began? && h[i - 1].tid == h[i].tid
          && (h[i].verdict == Cancels <==> h[i - 1].cancel))
    && (h[i].Terminal() ==> i == |h| - 1)
  }

  predicate Cancelling(e: Event) {
    e.Began? && e.cancel
  }

  ghost predicate CancelsOnce(h: seq<Event>) {
    forall k: nat, m: nat | k < |h| && m < |h| && Cancelling(h[k]) && Cancelling(h[m]) :: k == m
  }

  lemma SafeCancelsOnce(h: seq<Event>)
    requires Safe(h)
    ensures CancelsOnce(h)
  {
    forall k: nat | k < |h| && Cancelling(h[k]) ensures k + 2 >= |h| {
      assert SafeAt(h, k) && (k + 1 < |h| ==> SafeAt(h, k + 1));
    }
    forall k: nat | k + 1 < |h| && Cancelling(h[k]) ensures h[k + 1].Ended? {
      assert SafeAt(h, k);
    }
  }

  ghost predicate Busy(h: seq<Event>) {
    h != [] && h[|h| - 1].Began?
  }

  ghost predicate Over(h: seq<Event>) {
    h != [] && h[|h| - 1].Terminal()
  }

  /** Appending an event that fits the last one keeps a history safe. */
  lemma SafeSnoc(h: seq<Event>, e: Event)
    requires Safe(h) && !Over(h)
    requires e.Ended? <==> Busy(h)
    requires e.Ended? ==> h[|h| - 1].tid == e.tid && (e.verdict == Cancels <==> h[|h| - 1].cancel)
    ensures Safe(h + [e])
  {
    var g := h + [e];
    forall i: nat | i < |g| ensures SafeAt(g, i) {
      if i < |h| {
        assert SafeAt(h, i);
      }
    }
  }

  lemma SafeBegin(h: seq<Event>, t: Tid, cancel: bool)
    requires Safe(h) && !Busy(h) && !Over(h)
    ensures Safe(h + [Began(t, cancel)])
  {
    SafeSnoc(h, Began(t, cancel));
  }

  lemma SafeEnd(h: seq<Event>, t: Tid, v: Verdict)
    requires Safe(h) && Busy(h) && h[|h| - 1].tid == t && (v == Cancels <==> h[|h| - 1].cancel)
    ensures Safe(h + [Ended(t, v)])
  {
    SafeSnoc(h, Ended(t, v));
  }

  lemma SafeDrop(h: seq<Event>, t: Tid)
    requires Safe(h) && !Busy(h) && !Over(h)
    ensures Safe(h + [Dropped(t)])
  {
    SafeSnoc(h, Dropped(t));
  }

  // ---- The invariant -----------------------------------------------------------------------------

  /** The cursor-to-stream map is one-to-one and never forgets; the registry is the live part of it. */
  ghost predicate CursorsOk(s: State) {
    && (forall c | c in s.registry :: c in s.owner && s.owner[c] == s.registry[c])
    && (forall c | c in s.handed :: c in s.owner)
    && (forall c | c in s.owner :: s.owner[c] in s.events)
    && (forall c, d | c in s.owner && d in s.owner && s.owner[c] == s.owner[d] :: c == d)
  }

  ghost predicate LocksOk(s: State) {
    && (forall sid | sid in s.lock ::
          s.lock[sid] < |s.pcs| && s.pcs[s.lock[sid]].Holds() && s.pcs[s.lock[sid]].sid == sid)
    && (forall t: Tid | t < |s.pcs| && s.pcs[t].Holds() :: s.pcs[t].sid in s.lock && s.lock[s.pcs[t].sid] == t)
  }

  ghost predicate Registered(s: State, c: Cursor, sid: Sid) {
    c in s.registry && s.registry[c] == sid
  }

  ghost predicate ThreadOk(s: State, t: Tid)
    requires t < |s.pcs|
  {
    var pc := s.pcs[t];
    && (pc.Continues() ==> pc.c in s.handed && pc.c in s.owner && s.owner[pc.c] == pc.sid && pc.sid in s.events)
    && (pc.Vetted? ==> Registered(s, pc.c, pc.sid) && !Busy(s.events[pc.sid]) && !Over(s.events[pc.sid]))
    && (pc.Running? ==> Registered(s, pc.c, pc.sid) && Busy(s.events[pc.sid])
                        && s.events[pc.sid][|s.events[pc.sid]| - 1] == Began(t, pc.cancel))
    && (pc.Ran? ==> Registered(s, pc.c, pc.sid) && (Over(s.events[pc.sid]) <==> pc.verdict != Goes))
    && (pc.Opening? ==> pc.sid in s.events && s.events[pc.sid] == if pc.producer then [Began(t, false)] else [])
    && (pc.Minting? ==> pc.sid in s.events && !Busy(s.events[pc.sid]) && !Over(s.events[pc.sid]))
    && (pc.Opening? || pc.Minting? ==> forall c | c in s.owner :: s.owner[c] != pc.sid)
    && (pc.Opened? ==>
          && Registered(s, pc.c, pc.sid) && pc.sid in s.events && pc.c !in s.handed
          && !Busy(s.events[pc.sid]) && !Over(s.events[pc.sid]))
  }

  /** No two inits open the same stream. */
  ghost predicate OpenersOk(s: State) {
    forall t: Tid, u: Tid | t < |s.pcs| && u < |s.pcs| && t != u ::
      s.pcs[t].Opens() && s.pcs[u].Opens() ==> s.pcs[t].sid != s.pcs[u].sid
  }

  /** A stream is registered iff its history is not over, except between a turn's end and its settling. */
  ghost predicate StreamOk(s: State, sid: Sid)
    requires sid in s.events
  {
    && Safe(s.events[sid])
    && (Busy(s.events[sid]) ==>
          var t := s.events[sid][|s.events[sid]| - 1].tid;
          t < |s.pcs| && (s.pcs[t].Running? || s.pcs[t].Opening?) && s.pcs[t].sid == sid)
    && (forall c | c in s.owner && s.owner[c] == sid ::
          Registered(s, c, sid) <==> (!Over(s.events[sid]) || Settling(s, sid)))
  }

  /** Some turn on `sid` has ended terminally and still holds the lock. */
  ghost predicate Settling(s: State, sid: Sid) {
    sid in s.lock && s.lock[sid] < |s.pcs| && s.pcs[s.lock[sid]].Ran? && s.pcs[s.lock[sid]].verdict != Goes
  }

  ghost predicate Inv(s: State) {
    && CursorsOk(s)
    && LocksOk(s)
    && OpenersOk(s)
    && (forall t: Tid | t < |s.pcs| :: ThreadOk(s, t))
    && (forall sid | sid in s.events :: StreamOk(s, sid))
  }

  // ---- Each step keeps it --------------------------------------------------------------------------

  /** While a request holds or opens a stream, every other request on that stream is still waiting. */
  lemma Alone(s: State, t: Tid, u: Tid)
    requires Inv(s) && t < |s.pcs| && u < |s.pcs| && t != u
    requires s.pcs[t].Holds() || s.pcs[t].Opens()
    requires !s.pcs[u].Idle? && s.pcs[t].sid == s.pcs[u].sid
    ensures s.pcs[u].Waiting?
  {
    hide Safe, Busy, Over, StreamOk;
    assert ThreadOk(s, t) && ThreadOk(s, u);
  }

  /** A stream found registered under its lock has a state nobody is in and nobody has ended. */
  lemma LiveIsReady(s: State, t: Tid)
    requires Inv(s) && t < |s.pcs| && s.pcs[t].Locked? && Registered(s, s.pcs[t].c, s.pcs[t].sid)
    ensures s.pcs[t].sid in s.events && !Busy(s.events[s.pcs[t].sid]) && !Over(s.events[s.pcs[t].sid])
  {
    hide Safe, Over;
    var sid := s.pcs[t].sid;
    assert ThreadOk(s, t);
    assert StreamOk(s, sid);
    forall u: Tid | u < |s.pcs| && u != t && !s.pcs[u].Idle? && s.pcs[u].sid == sid ensures s.pcs[u].Waiting? {
      Alone(s, t, u);
    }
  }

  /** `s'` differs from `s` at thread `t` and stream `x` only. */
  ghost predicate Local(s: State, s': State, t: Tid, x: Sid) {
    && t < |s.pcs| && |s'.pcs| == |s.pcs|
    && (forall u: Tid | u < |s.pcs| && u != t :: s'.pcs[u] == s.pcs[u])
    && s.events.Keys <= s'.events.Keys <= s.events.Keys + {x}
    && (forall sid | sid in s.events && sid != x :: s'.events[sid] == s.events[sid])
    && (forall sid | sid != x :: (sid in s.lock <==> sid in s'.lock) && (sid in s.lock ==> s.lock[sid] == s'.lock[sid]))
    && s.owner.Keys <= s'.owner.Keys && s.handed <= s'.handed
    && (forall c | c in s'.owner :: if c in s.owner then s'.owner[c] == s.owner[c] else s'.owner[c] == x)
    && (forall c | c in s'.handed && c !in s.handed :: c in s'.owner && s'.owner[c] == x)
    && (forall c, sid | sid != x :: Registered(s, c, sid) <==> Registered(s', c, sid))
  }

  lemma OtherThread(s: State, s': State, t: Tid, x: Sid, u: Tid)
    requires Inv(s) && Local(s, s', t, x) && u < |s.pcs| && u != t
    requires !s.pcs[u].Idle? && s.pcs[u].sid == x ==> s.pcs[u].Waiting?
    ensures ThreadOk(s', u)
  {
    hide Safe, Busy, Over, StreamOk, LocksOk, OpenersOk;
    assert ThreadOk(s, u);
  }

  lemma OtherStream(s: State, s': State, t: Tid, x: Sid, sid: Sid)
    requires Inv(s) && Local(s, s', t, x) && sid in s.events && sid != x
    requires s.pcs[t].Idle? || s.pcs[t].sid == x
    ensures StreamOk(s', sid)
  {
    hide Safe, Over, OpenersOk, ThreadOk;
    assert StreamOk(s, sid);
    assert Settling(s, sid) <==> Settling(s', sid);
  }

  lemma Known(s: State, u: Tid)
    requires Inv(s) && u < |s.pcs| && !s.pcs[u].Idle?
    ensures s.pcs[u].sid in s.events
  {
    assert ThreadOk(s, u);
  }

  /** So a step need only account for its own thread and its own stream. */
  lemma LocalKeeps(s: State, s': State, t: Tid, x: Sid)
    requires Inv(s) && Local(s, s', t, x)
    requires if s.pcs[t].Idle? then x !in s.events else (s.pcs[t].Holds() || s.pcs[t].Opens()) && s.pcs[t].sid == x
    requires CursorsOk(s') && LocksOk(s') && OpenersOk(s')
    requires ThreadOk(s', t) && (x in s'.events ==> StreamOk(s', x))
    ensures Inv(s')
  {
    hide Safe, Busy, Over, StreamOk, LocksOk, CursorsOk, OpenersOk;
    forall u: Tid | u < |s'.pcs| && u != t ensures ThreadOk(s', u) {
      if !s.pcs[u].Idle? && s.pcs[u].sid == x {
        if s.pcs[t].Idle? {
          Known(s, u);
          assert false;
        }
        Alone(s, t, u);
      }
      OtherThread(s, s', t, x, u);
    }
    forall sid | sid in s'.events && sid != x ensures StreamOk(s', sid) {
      OtherStream(s, s', t, x, sid);
    }
  }

  /** A step within a turn: cursors and locks stay, at most `x` is unregistered, and `x` gains an event. */
  ghost predicate Within(s: State, s': State, t: Tid, x: Sid) {
    && t < |s.pcs| && (s.pcs[t].Holds() || s.pcs[t].Opens()) && s.pcs[t].sid == x
    && |s'.pcs| == |s.pcs| && s'.pcs == s.pcs[t := s'.pcs[t]]
    && s'.pcs[t].Holds() == s.pcs[t].Holds()
    && (!s'.pcs[t].Idle? ==> s'.pcs[t].sid == x)
    && (s'.pcs[t].Opens() ==> s.pcs[t].Opens())
    && s'.owner == s.owner && s'.lock == s.lock && s'.handed == s.handed
    && x in s.events && x in s'.events && s'.events == s.events[x := s'.events[x]]
    && (s'.registry == s.registry || exists c :: Registered(s, c, x) && s'.registry == s.registry - {c})
  }

  lemma WithinKeepsCursors(s: State, s': State, t: Tid, x: Sid)
    requires Inv(s) && Within(s, s', t, x)
    ensures CursorsOk(s') && Local(s, s', t, x)
  {
    hide StreamOk, LocksOk, OpenersOk, ThreadOk;
  }

  lemma WithinKeeps(s: State, s': State, t: Tid, x: Sid)
    requires Inv(s) && Within(s, s', t, x)
    requires ThreadOk(s', t) && StreamOk(s', x)
    ensures Inv(s')
  {
    hide StreamOk, ThreadOk, CursorsOk;
    WithinKeepsCursors(s, s', t, x);
    LocalKeeps(s, s', t, x);
  }

  /** A step of `t` that touches no history and no registration, between two states outside every stream. */
  ghost predicate Outside(s: State, s': State, t: Tid) {
    && t < |s.pcs| && |s'.pcs| == |s.pcs|
    && (forall u: Tid | u < |s.pcs| && u != t :: s'.pcs[u] == s.pcs[u])
    && s'.events == s.events && s'.owner == s.owner && s'.registry == s.registry && s.handed <= s'.handed
    && !s.pcs[t].Running? && !s.pcs[t].Opening? && !s'.pcs[t].Running? && !s'.pcs[t].Opening?
    && (forall u: Tid | u < |s.pcs| && u != t && s.pcs[u].Opened? :: s.pcs[u].c !in s'.handed)
    && (forall sid :: Settling(s, sid) <==> Settling(s', sid))
  }

  lemma BystandersStay(s: State, s': State, t: Tid)
    requires Inv(s) && Outside(s, s', t)
    ensures forall u: Tid | u < |s'.pcs| && u != t :: ThreadOk(s', u)
    ensures forall sid | sid in s'.events :: StreamOk(s', sid)
  {
    forall u: Tid | u < |s'.pcs| && u != t ensures ThreadOk(s', u) {
      BystanderThread(s, s', t, u);
    }
    forall sid | sid in s'.events ensures StreamOk(s', sid) {
      BystanderStream(s, s', t, sid);
    }
  }

  lemma OpenedUnhanded(s: State)
    requires Inv(s)
    ensures forall u: Tid | u < |s.pcs| && s.pcs[u].Opened? ::
              s.pcs[u].c !in s.handed && Registered(s, s.pcs[u].c, s.pcs[u].sid)
  {
    forall u: Tid | u < |s.pcs| && s.pcs[u].Opened?
      ensures s.pcs[u].c !in s.handed && Registered(s, s.pcs[u].c, s.pcs[u].sid)
    {
      assert ThreadOk(s, u);
    }
  }

  lemma BystanderThread(s: State, s': State, t: Tid, u: Tid)
    requires Inv(s) && Outside(s, s', t) && u < |s.pcs| && u != t
    ensures ThreadOk(s', u)
  {
    hide Safe, Busy, Over, StreamOk, LocksOk, OpenersOk, CursorsOk;
    assert ThreadOk(s, u);
  }

  lemma BystanderStream(s: State, s': State, t: Tid, sid: Sid)
    requires Inv(s) && Outside(s, s', t) && sid in s.events
    ensures StreamOk(s', sid)
  {
    hide Safe, Over, LocksOk, OpenersOk, CursorsOk, ThreadOk, Settling;
    assert StreamOk(s, sid);
  }

  lemma OpeningIsSafe(t: Tid)
    ensures Safe([]) && Safe([Began(t, false)])
    ensures !Busy([]) && Busy([Began(t, false)]) && !Over([]) && !Over([Began(t, false)])
  {
  }

  lemma LookupKeeps(s: State, t: Tid, c: Cursor, cancel: bool)
    requires Inv(s) && t < |s.pcs| && Enabled(s, t, Lookup(c, cancel))
    ensures Inv(Take(s, t, Lookup(c, cancel)))
  {
    hide Safe, Over, Busy, StreamOk;
    var s' := Take(s, t, Lookup(c, cancel));
    assert ThreadOk(s, t);
    OpenedUnhanded(s);
    BystandersStay(s, s', t);
  }

  lemma LockKeeps(s: State, t: Tid)
    requires Inv(s) && t < |s.pcs| && Enabled(s, t, Lock)
    ensures Inv(Take(s, t, Lock))
  {
    hide Safe, Over, Busy, StreamOk;
    var s' := Take(s, t, Lock);
    assert ThreadOk(s, t);
    OpenedUnhanded(s);
    BystandersStay(s, s', t);
  }

  lemma RevalidateKeeps(s: State, t: Tid, admitted: bool)
    requires Inv(s) && t < |s.pcs| && Enabled(s, t, Revalidate(admitted))
    ensures Inv(Take(s, t, Revalidate(admitted)))
  {
    hide Safe, OpenersOk;
    var s', x := Take(s, t, Revalidate(admitted)), s.pcs[t].sid;
    assert ThreadOk(s, t) && StreamOk(s, x);
    if s'.pcs[t].Vetted? {
      LiveIsReady(s, t);
    }
    WithinKeeps(s, s', t, x);
  }

  lemma BeginKeeps(s: State, t: Tid)
    requires Inv(s) && t < |s.pcs| && Enabled(s, t, Begin)
    ensures Inv(Take(s, t, Begin))
  {
    hide Safe, OpenersOk;
    var s', x := Take(s, t, Begin), s.pcs[t].sid;
    assert ThreadOk(s, t) && StreamOk(s, x);
    SafeBegin(s.events[x], t, s.pcs[t].cancel);
    WithinKeeps(s, s', t, x);
  }

  lemma RefuseInputKeeps(s: State, t: Tid)
    requires Inv(s) && t < |s.pcs| && Enabled(s, t, RefuseInput)
    ensures Inv(Take(s, t, RefuseInput))
  {
    hide Safe, OpenersOk;
    var s', x := Take(s, t, RefuseInput), s.pcs[t].sid;
    assert ThreadOk(s, t) && StreamOk(s, x);
    SafeDrop(s.events[x], t);
    WithinKeeps(s, s', t, x);
  }

  lemma EndKeeps(s: State, t: Tid, verdict: Verdict)
    requires Inv(s) && t < |s.pcs| && Enabled(s, t, End(verdict))
    ensures Inv(Take(s, t, End(verdict)))
  {
    hide Safe, OpenersOk;
    var s', x := Take(s, t, End(verdict)), s.pcs[t].sid;
    assert ThreadOk(s, t) && StreamOk(s, x);
    SafeEnd(s.events[x], t, verdict);
    WithinKeeps(s, s', t, x);
  }

  lemma SettleKeeps(s: State, t: Tid)
    requires Inv(s) && t < |s.pcs| && Enabled(s, t, Settle)
    ensures Inv(Take(s, t, Settle))
  {
    hide Safe, OpenersOk;
    var s', x := Take(s, t, Settle), s.pcs[t].sid;
    assert ThreadOk(s, t) && StreamOk(s, x);
    WithinKeeps(s, s', t, x);
  }

  lemma UnlockKeeps(s: State, t: Tid)
    requires Inv(s) && t < |s.pcs| && Enabled(s, t, Unlock)
    ensures Inv(Take(s, t, Unlock))
  {
    hide Safe, Over, Busy, StreamOk;
    var s' := Take(s, t, Unlock);
    assert ThreadOk(s, t);
    OpenedUnhanded(s);
    BystandersStay(s, s', t);
  }

  lemma CreateKeepsOpeners(s: State, t: Tid, sid: Sid, producer: bool)
    requires Inv(s) && t < |s.pcs| && Enabled(s, t, Create(sid, producer))
    ensures OpenersOk(Take(s, t, Create(sid, producer))) && LocksOk(Take(s, t, Create(sid, producer)))
  {
    hide StreamOk, CursorsOk, ThreadOk;
    forall u: Tid | u < |s.pcs| && !s.pcs[u].Idle? ensures s.pcs[u].sid in s.events {
      Known(s, u);
    }
  }

  lemma CreateKeeps(s: State, t: Tid, sid: Sid, producer: bool)
    requires Inv(s) && t < |s.pcs| && Enabled(s, t, Create(sid, producer))
    ensures Inv(Take(s, t, Create(sid, producer)))
  {
    hide Safe, Busy, Over, OpenersOk, LocksOk;
    var s' := Take(s, t, Create(sid, producer));
    assert s'.events[sid] == [] || s'.events[sid] == [Began(t, false)];
    OpeningIsSafe(t);
    CreateKeepsOpeners(s, t, sid, producer);
    LocalKeeps(s, s', t, sid);
  }

  lemma FirstTurnKeeps(s: State, t: Tid, verdict: Verdict)
    requires Inv(s) && t < |s.pcs| && Enabled(s, t, FirstTurn(verdict))
    ensures Inv(Take(s, t, FirstTurn(verdict)))
  {
    hide Safe, OpenersOk;
    var s', x := Take(s, t, FirstTurn(verdict)), s.pcs[t].sid;
    assert ThreadOk(s, t) && StreamOk(s, x);
    if s.pcs[t].producer {
      SafeEnd(s.events[x], t, verdict);
    }
    WithinKeeps(s, s', t, x);
  }

  lemma RegisterKeepsOpeners(s: State, t: Tid, c: Cursor)
    requires Inv(s) && t < |s.pcs| && Enabled(s, t, Register(c))
    ensures OpenersOk(Take(s, t, Register(c))) && LocksOk(Take(s, t, Register(c)))
  {
    hide StreamOk, CursorsOk, ThreadOk;
  }

  lemma RegisterKeepsCursors(s: State, t: Tid, c: Cursor)
    requires Inv(s) && t < |s.pcs| && Enabled(s, t, Register(c))
    ensures c !in s.handed && CursorsOk(Take(s, t, Register(c))) && Local(s, Take(s, t, Register(c)), t, s.pcs[t].sid)
  {
    hide StreamOk, LocksOk, OpenersOk;
    assert ThreadOk(s, t);
  }

  lemma RegisterKeeps(s: State, t: Tid, c: Cursor)
    requires Inv(s) && t < |s.pcs| && Enabled(s, t, Register(c))
    ensures Inv(Take(s, t, Register(c)))
  {
    hide Safe, Busy, Over, OpenersOk, LocksOk, CursorsOk;
    var s', x := Take(s, t, Register(c)), s.pcs[t].sid;
    assert ThreadOk(s, t) && StreamOk(s, x);
    RegisterKeepsOpeners(s, t, c);
    RegisterKeepsCursors(s, t, c);
    LocalKeeps(s, s', t, x);
  }

  lemma ReplyKeeps(s: State, t: Tid)
    requires Inv(s) && t < |s.pcs| && Enabled(s, t, Reply)
    ensures Inv(Take(s, t, Reply))
  {
    hide Safe, Over, Busy, StreamOk;
    var s' := Take(s, t, Reply);
    assert ThreadOk(s, t);
    OpenedUnhanded(s);
    BystandersStay(s, s', t);
  }

  lemma AbandonKeeps(s: State, t: Tid)
    requires Inv(s) && t < |s.pcs| && Enabled(s, t, Abandon)
    ensures Inv(Take(s, t, Abandon))
  {
    hide Safe, OpenersOk;
    var s', x := Take(s, t, Abandon), s.pcs[t].sid;
    assert ThreadOk(s, t) && StreamOk(s, x);
    SafeDrop(s.events[x], t);
    WithinKeeps(s, s', t, x);
  }

  lemma UndoKeeps(s: State, t: Tid)
    requires Inv(s) && t < |s.pcs| && Enabled(s, t, Undo)
    ensures Inv(Take(s, t, Undo))
  {
    hide Safe, OpenersOk;
    var s', x := Take(s, t, Undo), s.pcs[t].sid;
    assert ThreadOk(s, t) && StreamOk(s, x);
    SafeDrop(s.events[x], t);
    forall u: Tid | u < |s.pcs| && u != t && !s.pcs[u].Idle? && s.pcs[u].sid == x ensures s.pcs[u].Waiting? {
      Alone(s, t, u);
    }
    assert !Settling(s', x);
    WithinKeeps(s, s', t, x);
  }

  lemma NoStreamKeeps(s: State, t: Tid)
    requires Inv(s) && t < |s.pcs| && Enabled(s, t, NoStream)
    ensures Inv(Take(s, t, NoStream))
  {
    hide Inv;
  }

  lemma StepKeeps(s: State, t: Tid, step: Step)
    requires Inv(s) && t < |s.pcs| && Enabled(s, t, step)
    ensures Inv(Take(s, t, step))
  {
    hide Inv, Enabled, Take;
    match step
    case Lookup(c, cancel) => LookupKeeps(s, t, c, cancel);
    case Lock => LockKeeps(s, t);
    case Revalidate(admitted) => RevalidateKeeps(s, t, admitted);
    case Begin => BeginKeeps(s, t);
    case RefuseInput => RefuseInputKeeps(s, t);
    case End(verdict) => EndKeeps(s, t, verdict);
    case Settle => SettleKeeps(s, t);
    case Unlock => UnlockKeeps(s, t);
    case Create(sid, producer) => CreateKeeps(s, t, sid, producer);
    case FirstTurn(verdict) => FirstTurnKeeps(s, t, verdict);
    case Register(c) => RegisterKeeps(s, t, c);
    case Reply => ReplyKeeps(s, t);
    case Abandon => AbandonKeeps(s, t);
    case Undo => UndoKeeps(s, t);
    case NoStream => NoStreamKeeps(s, t);
  }

  // ---- Every run -----------------------------------------------------------------------------------

  /** A finite run: any requests, interleaved in any way. */
  ghost predicate Run(run: seq<State>) {
    && run != [] && Initial(run[0])
    && forall i | 0 <= i < |run| - 1 :: Next(run[i], run[i + 1])
  }

  lemma NextKeeps(s: State, s': State)
    requires Inv(s) && Next(s, s')
    ensures Inv(s')
  {
    hide Inv, Enabled, Take;
    var t: Tid, step: Step :| t < |s.pcs| && Enabled(s, t, step) && s' == Take(s, t, step);
    StepKeeps(s, t, step);
  }

  lemma {:induction false} RunKeeps(run: seq<State>, i: nat)
    requires Run(run) && i < |run|
    ensures Inv(run[i])
    decreases i
  {
    if i > 0 {
      RunKeeps(run, i - 1);
      hide Inv, Next;
      NextKeeps(run[i - 1], run[i]);
    }
  }

  lemma StepGrows(s: State, t: Tid, step: Step, sid: Sid)
    requires t < |s.pcs| && Enabled(s, t, step) && sid in s.events
    ensures sid in Take(s, t, step).events && s.events[sid] <= Take(s, t, step).events[sid]
  {
  }

  lemma NextGrows(s: State, s': State, sid: Sid)
    requires Next(s, s') && sid in s.events
    ensures sid in s'.events && s.events[sid] <= s'.events[sid]
  {
    hide Enabled, Take;
    var t: Tid, step: Step :| t < |s.pcs| && Enabled(s, t, step) && s' == Take(s, t, step);
    StepGrows(s, t, step, sid);
  }

  lemma RunStep(run: seq<State>, i: nat)
    requires Run(run) && i + 1 < |run|
    ensures Next(run[i], run[i + 1])
  {
  }

  lemma PrefixTransitive(a: seq<Event>, b: seq<Event>, c: seq<Event>)
    requires a <= b && b <= c
    ensures a <= c
  {
  }

  /** Whatever happened to a stream stays in its history. */
  lemma {:induction false} HistoriesGrow(run: seq<State>, i: nat, j: nat, sid: Sid)
    requires Run(run) && i <= j < |run| && sid in run[i].events
    ensures sid in run[j].events && run[i].events[sid] <= run[j].events[sid]
    decreases j
  {
    hide Next;
    if i < j {
      HistoriesGrow(run, i, j - 1, sid);
      RunStep(run, j - 1);
      NextGrows(run[j - 1], run[j], sid);
      PrefixTransitive(run[i].events[sid], run[j - 1].events[sid], run[j].events[sid]);
    }
  }

  /**
    In every run: calls into one stream's state never overlap, `on_cancel` is entered at most once,
    and after the first finish, exception, cancel or cap overflow nothing ever touches the state again.
   */
  lemma EveryRunIsSafe(run: seq<State>, i: nat, j: nat, sid: Sid)
    requires Run(run) && i <= j < |run| && sid in run[i].events
    ensures sid in run[j].events && Safe(run[j].events[sid])
    ensures CancelsOnce(run[j].events[sid])
    ensures Over(run[i].events[sid]) ==> run[j].events[sid] == run[i].events[sid]
  {
    HistoriesGrow(run, i, j, sid);
    RunKeeps(run, j);
    var h := run[j].events[sid];
    assert StreamOk(run[j], sid);
    if Over(run[i].events[sid]) {
      assert SafeAt(h, |run[i].events[sid]| - 1);
    }
    SafeCancelsOnce(h);
  }

  predicate Inside(pc: Pc, sid: Sid) {
    (pc.Running? || pc.Opening?) && pc.sid == sid
  }

  /** At every moment of every run at most one thread is inside a stream's state. */
  lemma OneThreadInside(run: seq<State>, i: nat, t: Tid, u: Tid, sid: Sid)
    requires Run(run) && i < |run| && t < |run[i].pcs| && u < |run[i].pcs|
    requires Inside(run[i].pcs[t], sid) && Inside(run[i].pcs[u], sid)
    ensures t == u
  {
    RunKeeps(run, i);
    if t != u {
      Alone(run[i], t, u);
      assert false;
    }
  }

  /**
    Between turns the registry is exactly the set of streams whose history is not over: no live
    stream is lost and no dead one stays resumable.
   */
  lemma RegisteredIffLive(run: seq<State>, i: nat, c: Cursor)
    requires Run(run) && i < |run| && c in run[i].owner
    requires run[i].owner[c] !in run[i].lock
    ensures run[i].owner[c] in run[i].events
    ensures c in run[i].registry <==> !Over(run[i].events[run[i].owner[c]])
  {
    RunKeeps(run, i);
    var s := run[i];
    assert StreamOk(s, s.owner[c]);
  }

  /** There is always a cursor nobody minted yet. */
  lemma {:induction false} Unused(minted: set<Cursor>) returns (c: Cursor)
    ensures c != "" && forall d | d in minted :: |d| < |c|
  {
    if minted == {} {
      c := "c";
    } else {
      var some :| some in minted;
      var rest := Unused(minted - {some});
      c := if |rest| <= |some| then some + ['c'] else rest;
      assert forall d | d in minted :: d == some || d in minted - {some};
    }
  }

  /** No set of requests can block each other: whoever waits, somebody can take a step of an accepted request. */
  lemma NoDeadlock(run: seq<State>, i: nat, t: Tid)
    requires Run(run) && i < |run| && t < |run[i].pcs| && !run[i].pcs[t].Idle?
    ensures exists u: Tid, step: Step :: u < |run[i].pcs| && !run[i].pcs[u].Idle? && Enabled(run[i], u, step)
  {
    RunKeeps(run, i);
    var s := run[i];
    var u := if s.pcs[t].Waiting? && s.pcs[t].sid in s.lock then s.lock[s.pcs[t].sid] else t;
    var unused := Unused(s.owner.Keys);
    var step := match s.pcs[u] {
      case Idle => Lock
      case Waiting(_, _, _) => Lock
      case Locked(_, _, _) => Revalidate(true)
      case Vetted(_, _, _) => Begin
      case Running(_, _, cancel) => End(if cancel then Cancels else Goes)
      case Ran(_, _, _) => Settle
      case Leaving(_, _) => Unlock
      case Opening(_, _) => FirstTurn(Goes)
      case Minting(_) => Register(unused)
      case Opened(_, _) => Reply
    };
    assert Enabled(s, u, step);
  }
}
