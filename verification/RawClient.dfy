/**
  The raw lockstep client: one byte-stream connection, at most one call at a time, and stream
  objects that hold the connection's reservation until they hand it back or abort it.

  Every I/O step may fail.  The failures are a schedule, `faults`: the n-th I/O step fails iff the
  n-th entry is true, and a schedule that has run out never fails.  What the peer will send on the
  call's output substream is the finite sequence `frames`, followed by its end-of-stream mark.
  All theorems quantify over both.
 */
module RawClient {

  /** One batch of the output substream, by the class the client gives it. */
  datatype Frame =
    | Log(parses: bool)
    | Data(value: nat)
    | ShmPointer(value: nat, resolves: bool)
    | ExternalPointer(value: nat, resolves: bool)
    | Exception
    | StateToken

  /** The client-to-server substream of the current call. */
  datatype Side = Unopened | Open | Shut

  /** The wire of the current call and the faults still to come. */
  datatype Wire = Wire(faults: seq<bool>, input: Side, reading: bool, frames: seq<Frame>, atEnd: bool) {
    /** Nothing of this call is left on the connection in either direction. */
    predicate Clean() {
      input == Shut && atEnd
    }
  }

  /** An attempted I/O step. */
  datatype Did = Did(ok: bool, w: Wire)

  datatype Read = Got(frame: Frame) | Eos | Failed

  datatype Received = Received(read: Read, w: Wire)

  /** What a stream operation tells its caller. */
  datatype Outcome = Value(value: nat) | NoMore | Fine | Remote | Error | Misuse

  /** The flags of one stream object. */
  datatype Flags = Flags(cancelled: bool, finished: bool, closed: bool, released: bool)

  /** One `release_call`: was the wire clean? */
  datatype Handback = Handback(clean: bool)

  /** A stream object together with the connection it lives on. */
  datatype World = World(active: bool, dead: bool, wire: Wire, s: Flags, trace: seq<Handback>)

  datatype Result = Result(outcome: Outcome, x: World)

  const NEW_FLAGS := Flags(false, false, false, false)

  // ---- I/O steps -------------------------------------------------------------------------

  function Io(w: Wire): Did {
    if w.faults == [] then Did(true, w) else Did(!w.faults[0], w.(faults := w.faults[1..]))
  }

  function OpenWriter(w: Wire): Did {
    if w.input != Unopened then Did(true, w)
    else
      var d := Io(w);
      if d.ok then Did(true, d.w.(input := Open)) else d
  }

  /** Write one batch and flush it. */
  function WriteFlush(w: Wire): Did {
    var d := Io(w);
    if d.ok then Io(d.w) else d
  }

  /** Open the input substream if need be, then write one batch and flush it. */
  function SendBatch(w: Wire): Did {
    var d := OpenWriter(w);
    if d.ok then WriteFlush(d.w) else d
  }

  function CloseWriter(w: Wire): Did {
    var d := Io(w);
    if d.ok then Did(true, d.w.(input := Shut)) else d
  }

  function OpenReader(w: Wire): Did {
    if w.reading then Did(true, w)
    else
      var d := Io(w);
      if d.ok then Did(true, d.w.(reading := true)) else d
  }

  function ReadNext(w: Wire): Received {
    var d := Io(w);
    if !d.ok then Received(Failed, d.w)
    else if w.frames == [] then Received(Eos, d.w.(atEnd := true))
    else Received(Got(w.frames[0]), d.w.(frames := w.frames[1..]))
  }

  /** Reads to the end of the substream, or to the first failed read, and does not say which. */
  function DrainReader(w: Wire): Wire
    decreases |w.frames|
  {
    var r := ReadNext(w);
    if r.read.Got? then DrainReader(r.w) else r.w
  }

  // ---- Stream operations -----------------------------------------------------------------

  function Abort(x: World): World {
    x.(active := false, dead := true, s := x.s.(closed := true, released := true))
  }

  function Release(x: World): World {
    if x.s.released then x
    else x.(active := false, s := x.s.(released := true),
            trace := x.trace + [Handback(x.wire.Clean())])
  }

  /** The read loop after the reader is open: skips logs, stops at the first data or failure. */
  function ReadLoop(x: World): Result
    decreases |x.wire.frames|
  {
    var r := ReadNext(x.wire);
    var y := x.(wire := r.w);
    match r.read
    case Failed => Result(Error, Abort(y))
    case Eos => Result(NoMore, y.(s := y.s.(finished := true)))
    case Got(Log(parses)) => if parses then ReadLoop(y) else Result(Error, Abort(y))
    case Got(Data(v)) => Result(Value(v), y)
    case Got(ShmPointer(v, resolves)) => if resolves then Result(Value(v), y) else Result(Error, Abort(y))
    case Got(ExternalPointer(v, resolves)) => if resolves then Result(Value(v), y) else Result(Error, Abort(y))
    case Got(StateToken) => Result(Error, Abort(y))
    case Got(Exception) =>
      Result(Remote, y.(wire := DrainReader(r.w), s := y.s.(finished := true)))
  }

  lemma ReadLoopStep(x: World)
    ensures var r := ReadNext(x.wire);
      var y := x.(wire := r.w);
      ReadLoop(x) == match r.read
        case Eos => Result(NoMore, y.(s := y.s.(finished := true)))
        case Got(Log(true)) => ReadLoop(y)
        case Got(Data(v)) => Result(Value(v), y)
        case Got(ShmPointer(v, true)) => Result(Value(v), y)
        case Got(ExternalPointer(v, true)) => Result(Value(v), y)
        case Got(Exception) => Result(Remote, y.(wire := DrainReader(r.w), s := y.s.(finished := true)))
        case _ => Result(Error, Abort(y))
  {
  }

  function ReadNextData(x: World): Result {
    var d := OpenReader(x.wire);
    if d.ok then ReadLoop(x.(wire := d.w)) else Result(Error, Abort(x.(wire := d.w)))
  }

  /** `tick` and `exchange` after their argument checks: send one batch, read one answer. */
  function Turn(x: World): Result {
    if x.s.cancelled || x.s.closed then Result(Misuse, x)
    else if x.s.finished then Result(NoMore, x)
    else
      var d := SendBatch(x.wire);
      if d.ok then ReadNextData(x.(wire := d.w)) else Result(Error, Abort(x.(wire := d.w)))
  }

  /** Reads the output substream to its end; a remote exception on the way is reported last. */
  function DrainLoop(x: World, pending: bool): Result
    decreases |x.wire.frames|
  {
    var r := ReadNext(x.wire);
    var y := x.(wire := r.w);
    match r.read
    case Failed => Result(Error, y)
    case Eos => Result(if pending then Remote else Fine, y.(s := y.s.(finished := true)))
    case Got(f) =>
      if f == Log(false) then Result(Error, y)
      else if f.ShmPointer? && !f.resolves then Result(Error, y)
      else DrainLoop(y, pending || f.Exception?)
  }

  function DrainOutput(x: World): Result {
    var d := OpenReader(x.wire);
    if d.ok then DrainLoop(x.(wire := d.w), false) else Result(Error, x.(wire := d.w))
  }

  /** Close the input substream, opening an empty one first if the stream never sent a batch. */
  function FinishInput(w: Wire): Did {
    var d := OpenWriter(w);
    if d.ok then CloseWriter(d.w) else d
  }

  function Close(x: World): Result {
    if x.s.closed then Result(Fine, Release(x))
    else
      var y := x.(s := x.s.(closed := true));
      var d := FinishInput(y.wire);
      if !d.ok then Result(Error, Abort(y.(wire := d.w)))
      else
        var r := DrainOutput(y.(wire := d.w));
        if r.outcome.Fine? then Result(Fine, Release(r.x)) else Result(r.outcome, Abort(r.x))
  }

  function Cancel(x: World): Result {
    if x.s.cancelled || x.s.closed then Result(Fine, Release(x.(s := x.s.(cancelled := true))))
    else if x.s.finished then
      var y := x.(s := x.s.(cancelled := true, closed := true));
      var d := FinishInput(y.wire);
      if d.ok then Result(Fine, Release(y.(wire := d.w))) else Result(Error, Abort(y.(wire := d.w)))
    else
      CancelLive(x)
  }

  /** The stream has not finished: send the cancel mark, then drain the answer and shut the input. */
  function CancelLive(x: World): Result {
    var gone := x.(s := x.s.(cancelled := true));
    var d := SendBatch(x.wire);
    if d.ok then DrainAndShut(gone.(wire := d.w)) else Result(Error, Abort(gone.(wire := d.w)))
  }

  function DrainAndShut(x: World): Result {
    var r := DrainOutput(x);
    if !r.outcome.Fine? then Result(r.outcome, Abort(r.x))
    else
      var c := CloseWriter(r.x.wire);
      if c.ok then Result(Fine, Release(r.x.(wire := c.w, s := r.x.s.(closed := true))))
      else Result(Error, Abort(r.x.(wire := c.w)))
  }

  /** Destruction never drains: a stream that is not closed takes its connection with it. */
  function Destroy(x: World): World {
    if x.s.closed then x else Abort(x)
  }

  // ---- One stream: what every operation keeps ----------------------------------------------

  datatype StreamOp = DoTurn | DoCancel | DoClose | DoDestroy

  function Apply(x: World, op: StreamOp): World {
    match op
    case DoTurn => Turn(x).x
    case DoCancel => Cancel(x).x
    case DoClose => Close(x).x
    case DoDestroy => Destroy(x)
  }

  /** Holds between operations: an unreleased stream owns a usable connection and its input is not shut. */
  ghost predicate Inv(x: World) {
    && x.s.released == x.s.closed
    && (x.s.cancelled ==> x.s.closed)
    && (!x.s.released ==> x.active && !x.dead && x.wire.input != Shut && (!x.s.finished ==> !x.wire.atEnd))
  }

  // ---- The drain after a remote exception ----------------------------------------------------

  /** None of the next reads fails, up to and including the one that finds the end of the substream. */
  ghost predicate ReadsSucceed(w: Wire) {
    forall i | 0 <= i <= |w.frames| && i < |w.faults| :: !w.faults[i]
  }

  /** The drain ignores a failed read, so it reaches the end exactly when no read of it is due to fail. */
  lemma {:induction false} DrainReachesEnd(w: Wire)
    requires !w.atEnd
    ensures DrainReader(w).input == w.input
    ensures DrainReader(w).atEnd <==> ReadsSucceed(w)
    decreases |w.frames|
  {
    var r := ReadNext(w);
    if r.read.Got? {
      DrainReachesEnd(r.w);
      assert forall i | 0 < i < |w.faults| :: w.faults[i] == w.faults[1..][i - 1];
      if ReadsSucceed(r.w) {
        forall i | 0 <= i <= |w.frames| && i < |w.faults| ensures !w.faults[i] {
          assert i > 0 ==> !r.w.faults[i - 1];
        }
      }
      if ReadsSucceed(w) {
        forall i | 0 <= i <= |r.w.frames| && i < |r.w.faults| ensures !r.w.faults[i] {
          assert !w.faults[i + 1];
        }
      }
    }
  }

  /** The wire right after a turn has read a remote exception, before it drains. */
  function ExceptionRead(w: Wire): Wire
    decreases |w.frames|
  {
    var r := ReadNext(w);
    if r.read == Got(Log(true)) then ExceptionRead(r.w) else r.w
  }

  function AfterException(x: World): Wire {
    ExceptionRead(OpenReader(SendBatch(x.wire).w).w)
  }

  lemma ReadLoopKeeps(x: World)
    requires !x.s.closed && !x.s.finished && x.active && !x.dead && !x.wire.atEnd
    ensures var r := ReadLoop(x);
      && r.x.trace == x.trace && r.x.wire.input == x.wire.input && r.x.s.cancelled == x.s.cancelled
      && r.x.s.released == (x.s.released || r.x.dead) && r.x.s.closed == r.x.dead
      && r.x.active == !r.x.dead
      && (!r.x.dead ==> r.x.s.finished == (r.outcome.NoMore? || r.outcome.Remote?))
      && (!r.x.dead && !r.outcome.Remote? ==> r.x.s.finished == r.x.wire.atEnd)
      && (r.outcome.Remote? ==> (r.x.wire.atEnd <==> ReadsSucceed(ExceptionRead(x.wire))))
      && (r.outcome.Error? <==> r.x.dead)
    decreases |x.wire.frames|
  {
    hide ReadsSucceed;
    var r := ReadNext(x.wire);
    if r.read == Got(Log(true)) {
      ReadLoopKeeps(x.(wire := r.w));
    } else if r.read == Got(Exception) {
      DrainReachesEnd(r.w);
    }
  }

  lemma DrainReaderKeeps(w: Wire)
    ensures DrainReader(w).input == w.input
    decreases |w.frames|
  {
    var r := ReadNext(w);
    if r.read.Got? {
      DrainReaderKeeps(r.w);
    }
  }

  lemma DrainLoopKeeps(x: World, pending: bool)
    ensures var r := DrainLoop(x, pending);
      && r.x == x.(wire := r.x.wire, s := r.x.s) && r.x.s == x.s.(finished := r.x.s.finished)
      && (x.s.finished ==> r.x.s.finished)
      && r.x.wire.input == x.wire.input
      && (r.outcome.Fine? || r.outcome.Remote? || r.outcome.Error?)
      && (r.outcome.Fine? ==> r.x.wire.atEnd)
      && (r.outcome.Fine? ==> !pending)
    decreases |x.wire.frames|
  {
    var r := ReadNext(x.wire);
    if r.read.Got? {
      DrainLoopKeeps(x.(wire := r.w), pending || r.read.frame.Exception?);
    }
  }

  /**
    A turn hands nothing back and gives its reservation up only by taking the connection down.  It
    leaves the output unread to the end only behind a remote exception, and there exactly when a
    read of the drain was due to fail.
   */
  lemma TurnKeeps(x: World)
    requires Inv(x)
    ensures Inv(Turn(x).x) && Turn(x).x.trace == x.trace
    ensures !x.s.released && Turn(x).x.s.released ==> Turn(x).x.dead && !Turn(x).x.active
    ensures Turn(x).outcome.Error? ==> Turn(x).x.dead && Turn(x).x.s.released
    ensures !x.s.released && Turn(x).x.s.released ==> Turn(x).outcome.Error?
    ensures x.s.released || x.s.finished ==> Turn(x).x == x && !Turn(x).outcome.Remote?
    ensures !x.s.finished && !Turn(x).x.s.released ==>
              var y := Turn(x).x;
              && y.s.finished == (Turn(x).outcome.NoMore? || Turn(x).outcome.Remote?)
              && (y.s.finished ==>
                    (y.wire.atEnd <==> (Turn(x).outcome.Remote? ==> ReadsSucceed(AfterException(x)))))
  {
    hide ReadsSucceed, ExceptionRead;
    if !x.s.closed && !x.s.finished {
      var d := SendBatch(x.wire);
      var o := OpenReader(d.w);
      if d.ok && o.ok {
        ReadLoopKeeps(x.(wire := o.w));
      }
    }
  }

  /**
    `close()` gives the connection back exactly when it succeeds on a stream that still holds it,
    and then the wire is clean, whatever a drain before it had left unread; otherwise it takes the
    connection down.
   */
  lemma CloseHandsBackClean(x: World)
    requires Inv(x)
    ensures Inv(Close(x).x)
    ensures x.s.released ==> Close(x).x == x
    ensures !x.s.released ==> Close(x).x.s.released && !Close(x).x.active
    ensures !x.s.released && Close(x).outcome.Fine? ==>
              !Close(x).x.dead && Close(x).x.trace == x.trace + [Handback(true)]
    ensures !x.s.released && !Close(x).outcome.Fine? ==> Close(x).x.dead && Close(x).x.trace == x.trace
  {
    if !x.s.closed {
      var y := x.(s := x.s.(closed := true));
      var d := FinishInput(y.wire);
      var o := OpenReader(d.w);
      DrainLoopKeeps(y.(wire := o.w), false);
    }
  }

  /** `cancel()` likewise, except that on a stream that has finished it only shuts the input and reads no more. */
  lemma CancelKeeps(x: World)
    requires Inv(x)
    ensures Inv(Cancel(x).x) && Cancel(x).x.s.cancelled
    ensures x.s.released ==> Cancel(x).x == x.(s := x.s.(cancelled := true))
    ensures !x.s.released ==> Cancel(x).x.s.released && !Cancel(x).x.active
    ensures !x.s.released && Cancel(x).outcome.Fine? ==>
              !Cancel(x).x.dead && Cancel(x).x.trace == x.trace + [Handback(x.s.finished ==> x.wire.atEnd)]
    ensures !x.s.released && !Cancel(x).outcome.Fine? ==> Cancel(x).x.dead && Cancel(x).x.trace == x.trace
  {
    if !x.s.closed && !x.s.finished {
      var gone := x.(s := x.s.(cancelled := true));
      var o := OpenReader(SendBatch(x.wire).w);
      DrainLoopKeeps(gone.(wire := o.w), false);
    }
  }

  /**
    What `cancel()` hands back: a clean wire if the stream had not finished or had ended by itself;
    after a turn that threw a remote exception, a clean wire exactly when no read of the drain that
    followed the exception was due to fail.
   */
  lemma CancelHandsBack(x: World)
    requires Inv(x) && !x.s.released && !x.s.finished
    ensures Cancel(x).outcome.Fine? ==> Cancel(x).x.trace == x.trace + [Handback(true)]
    ensures var t := Turn(x);
      && (t.outcome.NoMore? && Cancel(t.x).outcome.Fine? ==> Cancel(t.x).x.trace == x.trace + [Handback(true)])
      && (t.outcome.Remote? && Cancel(t.x).outcome.Fine? ==>
            Cancel(t.x).x.trace == x.trace + [Handback(ReadsSucceed(AfterException(x)))])
  {
    hide ReadsSucceed, AfterException, Cancel, Turn;
    TurnKeeps(x);
    CancelKeeps(x);
    CancelKeeps(Turn(x).x);
  }

  /** The failing family is inhabited: an exception, one failed read behind it, then `cancel()`. */
  lemma CancelCanHandBackDirtyWire()
    ensures var w := Wire([false, false, false, false, false, true], Unopened, false, [Exception, Data(7)], false);
      var x := World(true, false, w, NEW_FLAGS, []);
      Cancel(Turn(x).x).x.trace == [Handback(false)] && !Cancel(Turn(x).x).x.dead
  {
  }

  /** The data the client can still reach: what precedes the first batch that ends or breaks the stream. */
  function Reachable(frames: seq<Frame>): (values: seq<nat>) {
    if frames == [] then []
    else
      match frames[0]
      case Log(true) => Reachable(frames[1..])
      case Data(v) => [v] + Reachable(frames[1..])
      case ShmPointer(v, true) => [v] + Reachable(frames[1..])
      case ExternalPointer(v, true) => [v] + Reachable(frames[1..])
      case _ => []
  }

  /** Each successful turn hands over the next reachable value, and the stream ends only when none is left. */
  lemma TurnDelivers(x: World)
    requires !x.s.cancelled && !x.s.closed && !x.s.finished
    ensures var r := Turn(x);
      && (r.outcome.Value? ==> Reachable(x.wire.frames) == [r.outcome.value] + Reachable(r.x.wire.frames))
      && (r.outcome.NoMore? || r.outcome.Remote? ==> Reachable(x.wire.frames) == [])
      && (r.outcome.NoMore? ==> r.x.wire.atEnd)
  {
    var d := SendBatch(x.wire);
    var o := OpenReader(d.w);
    if d.ok && o.ok {
      ReadLoopDelivers(x.(wire := o.w));
    }
  }

  lemma ReadLoopDelivers(x: World)
    ensures var r := ReadLoop(x);
      && (r.outcome.Value? ==> Reachable(x.wire.frames) == [r.outcome.value] + Reachable(r.x.wire.frames))
      && (r.outcome.NoMore? || r.outcome.Remote? ==> Reachable(x.wire.frames) == [])
      && (r.outcome.NoMore? ==> r.x.wire.atEnd)
    decreases |x.wire.frames|
  {
    var r := ReadNext(x.wire);
    if r.read == Got(Log(true)) {
      ReadLoopDelivers(x.(wire := r.w));
    }
  }

  // ---- One connection: every run of calls and streams --------------------------------------

  /** A connection, the wire of its current call, and every stream object it ever had. */
  datatype Conn = Conn(active: bool, dead: bool, wire: Wire, streams: seq<Flags>, trace: seq<Handback>)

  datatype Header = NoHeader | Header(frames: seq<Frame>)

  datatype Op =
    | CallUnary(answer: seq<Frame>)
    | OpenStream(header: Header, answer: seq<Frame>)
    | OnStream(index: nat, op: StreamOp)

  /** `read_substream` reads the whole substream before it looks at any batch of it. */
  function ReadWhole(w: Wire): Wire {
    var d := OpenReader(w);
    if d.ok then DrainReader(d.w) else d.w
  }

  /** What the batches of a whole substream amount to: one data batch, an exception, or an error. */
  function Judge(frames: seq<Frame>, data: Outcome): Outcome
    requires data.Value? || data.NoMore?
  {
    if frames == [] then (if data.Value? then data else Error)
    else
      match frames[0]
      case Log(parses) => if parses then Judge(frames[1..], data) else Error
      case Exception => Remote
      case StateToken => Error
      case Data(v) => if data.Value? then Error else Judge(frames[1..], Value(v))
      case ShmPointer(v, ok) => if data.Value? || !ok then Error else Judge(frames[1..], Value(v))
      case ExternalPointer(v, ok) => if data.Value? || !ok then Error else Judge(frames[1..], Value(v))
  }

  /** The request substream is written whole and flushed; `frames` is what the peer will answer. */
  function WriteRequest(faults: seq<bool>, frames: seq<Frame>): Did {
    var d := WriteFlush(Wire(faults, Unopened, false, frames, false));
    if d.ok then Did(true, d.w.(input := Shut)) else d
  }

  function Down(c: Conn, w: Wire): Conn {
    c.(active := false, dead := true, wire := w)
  }

  /** A call without a stream ends: its reservation is released on whatever wire is left. */
  function HandBackCall(c: Conn, w: Wire): Conn {
    c.(active := false, wire := w, trace := c.trace + [Handback(w.Clean())])
  }

  function Call(c: Conn, answer: seq<Frame>): Conn {
    var d := WriteRequest(c.wire.faults, answer);
    var w := ReadWhole(d.w);
    if !d.ok then Down(c, d.w)
    else if !w.atEnd || Judge(answer, NoMore).Error? then Down(c, w)
    else HandBackCall(c, w)
  }

  /** A factory error in the header substream: complete the empty input substream, then release. */
  function FailOpen(c: Conn, w: Wire): Conn {
    var d := FinishInput(w.(input := Unopened));
    var e := Io(d.w);
    if d.ok && e.ok then HandBackCall(c, e.w) else Down(c, if d.ok then e.w else d.w)
  }

  function StartStream(c: Conn, faults: seq<bool>, answer: seq<Frame>): Conn {
    c.(active := true, wire := Wire(faults, Unopened, false, answer, false), streams := c.streams + [NEW_FLAGS])
  }

  function OpenOn(c: Conn, header: Header, answer: seq<Frame>): Conn {
    match header
    case NoHeader =>
      var d := WriteRequest(c.wire.faults, []);
      if d.ok then StartStream(c, d.w.faults, answer) else Down(c, d.w)
    case Header(frames) =>
      var d := WriteRequest(c.wire.faults, frames);
      var w := ReadWhole(d.w);
      var verdict := Judge(frames, NoMore);
      if !d.ok then Down(c, d.w)
      else if !w.atEnd || verdict.Error? then Down(c, w)
      else if verdict.Remote? then FailOpen(c, w)
      else StartStream(c, w.faults, answer)
  }

  function View(c: Conn, i: nat): World
    requires i < |c.streams|
  {
    World(c.active, c.dead, c.wire, c.streams[i], c.trace)
  }

  function Put(c: Conn, i: nat, x: World): Conn
    requires i < |c.streams|
  {
    Conn(x.active, x.dead, x.wire, c.streams[i := x.s], x.trace)
  }

  /** One operation; a call on a busy or closed connection is refused and changes nothing. */
  function Do(c: Conn, op: Op): Conn {
    match op
    case CallUnary(answer) => if c.dead || c.active then c else Call(c, answer)
    case OpenStream(header, answer) => if c.dead || c.active then c else OpenOn(c, header, answer)
    case OnStream(i, sop) => if i < |c.streams| then Put(c, i, Apply(View(c, i), sop)) else c
  }

  function Run(c: Conn, ops: seq<Op>): Conn
    decreases |ops|
  {
    if ops == [] then c else Run(Do(c, ops[0]), ops[1..])
  }

  function Fresh(faults: seq<bool>): Conn {
    Conn(false, false, Wire(faults, Unopened, false, [], false), [], [])
  }

  /** At most one stream holds the connection, it is sound, and the connection is reserved iff one does. */
  ghost predicate ConnInv(c: Conn) {
    && (forall i | 0 <= i < |c.streams| :: Inv(View(c, i)))
    && (forall i, j | 0 <= i < |c.streams| && 0 <= j < |c.streams| ::
          !c.streams[i].released && !c.streams[j].released ==> i == j)
    && (c.active ==> exists i | 0 <= i < |c.streams| :: !c.streams[i].released)
  }

  /** What one stream operation does to the connection, in the terms the run invariants need. */
  lemma ApplyKeeps(x: World, op: StreamOp)
    requires Inv(x)
    ensures var y := Apply(x, op);
      && Inv(y)
      && (x.s.released ==> y == x.(s := x.s.(cancelled := y.s.cancelled)))
      && (!x.s.released ==> y.active == !y.s.released)
      && (!op.DoTurn? ==> y.s.released)
      && y.trace == x.trace
           + if x.s.released then []
             else if op.DoClose? && Close(x).outcome.Fine? then [Handback(true)]
             else if op.DoCancel? && Cancel(x).outcome.Fine? then [Handback(x.s.finished ==> x.wire.atEnd)]
             else []
  {
    hide Turn, Close, Cancel, ReadsSucceed, AfterException;
    TurnKeeps(x);
    CloseHandsBackClean(x);
    CancelKeeps(x);
    assert x.trace + [] == x.trace;
  }

  lemma DoKeeps(c: Conn, op: Op)
    requires ConnInv(c)
    ensures ConnInv(Do(c, op))
  {
    if op.OnStream? && op.index < |c.streams| {
      ApplyKeeps(View(c, op.index), op.op);
      OnStreamKeeps(c, op.index, op.op);
    } else if !op.OnStream? && !c.dead && !c.active {
      match op {
        case CallUnary(answer) => CallHandsBackClean(c, answer);
        case OpenStream(header, answer) => OpenHandsBackClean(c, header, answer);
      }
      IdleKeeps(c, Do(c, op));
    }
  }

  lemma OnStreamKeeps(c: Conn, i: nat, op: StreamOp)
    requires ConnInv(c) && i < |c.streams|
    ensures ConnInv(Put(c, i, Apply(View(c, i), op)))
  {
    hide Apply, Close, Cancel;
    var x := View(c, i);
    var y := Apply(x, op);
    ApplyKeeps(x, op);
    var d := Put(c, i, y);
    forall k | 0 <= k < |d.streams|
      ensures Inv(View(d, k))
    {
      assert Inv(View(c, k));
      if k != i && !x.s.released {
        assert c.streams[k].released;
      }
    }
    if y.active {
      if x.s.released {
        var k :| 0 <= k < |c.streams| && !c.streams[k].released;
        assert !d.streams[k].released;
      } else {
        assert !d.streams[i].released;
      }
    }
  }

  /** How an operation that is not on a stream may change an idle connection. */
  ghost predicate IdleStep(c: Conn, d: Conn) {
    || (d.streams == c.streams && !d.active && d.trace == c.trace)
    || (d.streams == c.streams && !d.active && !d.dead && d.trace == c.trace + [Handback(true)])
    || (d.streams == c.streams + [NEW_FLAGS] && d.active && !d.dead && d.trace == c.trace
        && d.wire.input == Unopened && !d.wire.atEnd)
  }

  lemma IdleKeeps(c: Conn, d: Conn)
    requires ConnInv(c) && !c.dead && !c.active && IdleStep(c, d)
    ensures ConnInv(d)
  {
    forall i | 0 <= i < |c.streams|
      ensures c.streams[i].released && d.streams[i] == c.streams[i] && Inv(View(d, i))
    {
      assert Inv(View(c, i));
    }
    if d.active {
      assert Inv(View(d, |c.streams|));
      assert !d.streams[|c.streams|].released;
    }
  }

  /** A unary call releases its reservation only with its request written and its answer read to the end. */
  lemma CallHandsBackClean(c: Conn, answer: seq<Frame>)
    requires !c.dead && !c.active
    ensures IdleStep(c, Call(c, answer))
  {
    var r := WriteRequest(c.wire.faults, answer);
    DrainReaderKeeps(OpenReader(r.w).w);
  }

  /** So does an open that fails in its header; one that succeeds leaves the new stream holding the connection. */
  lemma OpenHandsBackClean(c: Conn, header: Header, answer: seq<Frame>)
    requires !c.dead && !c.active
    ensures IdleStep(c, OpenOn(c, header, answer))
  {
    if header.Header? {
      var r := WriteRequest(c.wire.faults, header.frames);
      DrainReaderKeeps(OpenReader(r.w).w);
      if ReadWhole(r.w).atEnd {
        FailOpenIsClean(c, ReadWhole(r.w));
      }
    }
  }

  lemma FailOpenIsClean(c: Conn, w: Wire)
    requires !c.dead && !c.active && w.atEnd
    ensures IdleStep(c, FailOpen(c, w))
  {
  }

  /**
    Over every run of calls and streams and every fault schedule the connection is reserved iff a
    stream still holds it, and at most one does.
   */
  lemma {:induction false} RunKeeps(c: Conn, ops: seq<Op>)
    requires ConnInv(c)
    ensures ConnInv(Run(c, ops))
    decreases |ops|
  {
    if ops != [] {
      DoKeeps(c, ops[0]);
      RunKeeps(Do(c, ops[0]), ops[1..]);
    }
  }

  // ---- Which runs hand back only clean wires ---------------------------------------------------

  /** The streams whose turn has thrown a remote exception. */
  function Threw(c: Conn, op: Op, threw: set<nat>): set<nat> {
    if op.OnStream? && op.op.DoTurn? && op.index < |c.streams| && Turn(View(c, op.index)).outcome.Remote?
    then threw + {op.index} else threw
  }

  /** Those of them where a read of the drain behind the exception was due to fail. */
  ghost function LeftUnread(c: Conn, op: Op, unread: set<nat>): set<nat> {
    if && op.OnStream? && op.op.DoTurn? && op.index < |c.streams| && Turn(View(c, op.index)).outcome.Remote?
       && !ReadsSucceed(AfterException(View(c, op.index)))
    then unread + {op.index} else unread
  }

  /** A run that never cancels a stream after one of its turns threw a remote exception. */
  predicate Careful(c: Conn, ops: seq<Op>, threw: set<nat>)
    decreases |ops|
  {
    ops == []
    || (&& !(ops[0].OnStream? && ops[0].op.DoCancel? && ops[0].index in threw)
        && Careful(Do(c, ops[0]), ops[1..], Threw(c, ops[0], threw)))
  }

  /** A successful cancel of a live stream whose drain met a failed read. */
  predicate DirtyStep(c: Conn, op: Op, unread: set<nat>) {
    && op.OnStream? && op.op.DoCancel? && op.index < |c.streams| && op.index in unread
    && !c.streams[op.index].released && Cancel(View(c, op.index)).outcome.Fine?
  }

  ghost predicate Dirties(c: Conn, ops: seq<Op>, unread: set<nat>)
    decreases |ops|
  {
    ops != [] && (DirtyStep(c, ops[0], unread) || Dirties(Do(c, ops[0]), ops[1..], LeftUnread(c, ops[0], unread)))
  }

  /** `unread` says of the stream that holds the connection whether its output was left unread when it finished. */
  ghost predicate Tracks(c: Conn, unread: set<nat>) {
    && (forall i <- unread :: i < |c.streams| && c.streams[i].finished)
    && (forall i | 0 <= i < |c.streams| && !c.streams[i].released && c.streams[i].finished ::
          i in unread <==> !c.wire.atEnd)
  }

  lemma StepTracks(c: Conn, op: Op, unread: set<nat>)
    requires ConnInv(c) && Tracks(c, unread)
    ensures Tracks(Do(c, op), LeftUnread(c, op, unread))
    ensures c.trace <= Do(c, op).trace
    ensures (forall h <- Do(c, op).trace :: h.clean) <==> (forall h <- c.trace :: h.clean) && !DirtyStep(c, op, unread)
  {
    hide Turn, Close, Cancel, Call, OpenOn, ReadsSucceed, AfterException;
    if op.OnStream? && op.index < |c.streams| {
      var x := View(c, op.index);
      assert Inv(x);
      ApplyKeeps(x, op.op);
      TurnKeeps(x);
      StreamStepTracks(c, op.index, op.op, unread);
    } else if !op.OnStream? && !c.dead && !c.active {
      match op {
        case CallUnary(answer) => CallHandsBackClean(c, answer);
        case OpenStream(header, answer) => OpenHandsBackClean(c, header, answer);
      }
      IdleTracks(c, Do(c, op), unread);
    }
  }

  lemma StreamStepTracks(c: Conn, i: nat, op: StreamOp, unread: set<nat>)
    requires ConnInv(c) && Tracks(c, unread) && i < |c.streams|
    ensures var d := Put(c, i, Apply(View(c, i), op));
      && Tracks(d, LeftUnread(c, OnStream(i, op), unread)) && c.trace <= d.trace
      && ((forall h <- d.trace :: h.clean) <==>
            (forall h <- c.trace :: h.clean) && !DirtyStep(c, OnStream(i, op), unread))
  {
    hide Turn, Close, Cancel, ReadsSucceed, AfterException;
    var x := View(c, i);
    assert Inv(x);
    ApplyKeeps(x, op);
    TurnKeeps(x);
    FinishedStays(x, op);
    if !x.s.released {
      assert forall k | 0 <= k < |c.streams| && k != i :: c.streams[k].released;
    }
  }

  lemma FinishedStays(x: World, op: StreamOp)
    requires Inv(x)
    ensures x.s.finished ==> Apply(x, op).s.finished
  {
    if !x.s.closed {
      var y := x.(s := x.s.(closed := true));
      DrainLoopKeeps(y.(wire := OpenReader(FinishInput(y.wire).w).w), false);
    }
  }

  lemma IdleTracks(c: Conn, d: Conn, unread: set<nat>)
    requires ConnInv(c) && Tracks(c, unread) && !c.dead && !c.active && IdleStep(c, d)
    ensures Tracks(d, unread) && c.trace <= d.trace
    ensures (forall h <- d.trace :: h.clean) <==> (forall h <- c.trace :: h.clean)
  {
    forall i | 0 <= i < |c.streams| ensures c.streams[i].released {
      assert Inv(View(c, i));
    }
  }

  lemma {:induction false} RunCleanIff(c: Conn, ops: seq<Op>, unread: set<nat>)
    requires ConnInv(c) && Tracks(c, unread)
    ensures (forall h <- Run(c, ops).trace :: h.clean) <==> (forall h <- c.trace :: h.clean) && !Dirties(c, ops, unread)
    decreases |ops|
  {
    hide ConnInv, Tracks, DirtyStep, LeftUnread, Do;
    if ops != [] {
      StepTracks(c, ops[0], unread);
      DoKeeps(c, ops[0]);
      RunCleanIff(Do(c, ops[0]), ops[1..], LeftUnread(c, ops[0], unread));
    }
  }

  lemma {:induction false} CarefulIsClean(c: Conn, ops: seq<Op>, threw: set<nat>, unread: set<nat>)
    requires Careful(c, ops, threw) && unread <= threw
    ensures !Dirties(c, ops, unread)
    decreases |ops|
  {
    hide ReadsSucceed, AfterException, Do;
    if ops != [] {
      CarefulIsClean(Do(c, ops[0]), ops[1..], Threw(c, ops[0], threw), LeftUnread(c, ops[0], unread));
    }
  }

  /**
    Over every run of calls and streams and every fault schedule: the connection is reserved iff a
    stream still holds it and at most one does; every handback is clean unless the run cancelled a
    stream behind whose remote exception a read was due to fail; and a caller who never cancels a
    stream after its turn threw a remote exception has every handback clean.
   */
  lemma EveryRunIsSafe(faults: seq<bool>, ops: seq<Op>)
    ensures var c := Run(Fresh(faults), ops);
      && ConnInv(c)
      && ((forall h <- c.trace :: h.clean) <==> !Dirties(Fresh(faults), ops, {}))
      && (Careful(Fresh(faults), ops, {}) ==> forall h <- c.trace :: h.clean)
  {
    var c := Fresh(faults);
    assert ConnInv(c) && Tracks(c, {}) && c.trace == [];
    RunKeeps(c, ops);
    RunCleanIff(c, ops, {});
    if Careful(c, ops, {}) {
      CarefulIsClean(c, ops, {}, {});
    }
  }

  /**
    A stream that has given its connection up can never release or abort a later call: after any
    run, whatever is done to it leaves the reservation, the wire, the faults and all other streams
    exactly as they were.
   */
  lemma ReleasedStreamIsInert(faults: seq<bool>, ops: seq<Op>, i: nat, op: StreamOp)
    requires var c := Run(Fresh(faults), ops); i < |c.streams| && c.streams[i].released
    ensures var c := Run(Fresh(faults), ops);
      var d := Do(c, OnStream(i, op));
      && d == c.(streams := d.streams)
      && |d.streams| == |c.streams|
      && (forall k | 0 <= k < |c.streams| && k != i :: d.streams[k] == c.streams[k])
      && d.streams[i] == c.streams[i].(cancelled := d.streams[i].cancelled)
  {
    EveryRunIsSafe(faults, ops);
    var c := Run(Fresh(faults), ops);
    ApplyKeeps(View(c, i), op);
  }
}
