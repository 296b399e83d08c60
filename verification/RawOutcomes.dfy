/**
  Exactly when the operations of the raw client succeed: which I/O steps each takes, and which batches
  it stumbles over, read off the fault schedule and the frames before it starts.
 */
module RawOutcomes {
  import opened Base
  import opened RawClient

  // ---- Schedules ---------------------------------------------------------------------------------------

  /** None of the next `n` I/O steps is due to fail. */
  ghost predicate Clear(faults: seq<bool>, n: nat) {
    forall i | 0 <= i < n && i < |faults| :: !faults[i]
  }

  function Drop(faults: seq<bool>, n: nat): seq<bool> {
    if n <= |faults| then faults[n..] else []
  }

  lemma ClearSplit(faults: seq<bool>, k: nat, m: nat)
    ensures Clear(faults, k + m) <==> Clear(faults, k) && Clear(Drop(faults, k), m)
    ensures Drop(Drop(faults, k), m) == Drop(faults, k + m)
  {
    if Clear(faults, k) && Clear(Drop(faults, k), m) {
      forall i | 0 <= i < k + m && i < |faults|
        ensures !faults[i]
      {
        if i >= k {
          assert Drop(faults, k)[i - k] == faults[i];
        }
      }
    }
    if Clear(faults, k + m) {
      forall i | 0 <= i < m && i < |Drop(faults, k)|
        ensures !Drop(faults, k)[i]
      {
        assert Drop(faults, k)[i] == faults[k + i];
      }
    }
  }

  /** `d` is what `n` I/O steps make of `w`, and apart from the schedule `w'` is what they aim at. */
  ghost predicate Took(w: Wire, d: Did, n: nat, w': Wire) {
    && (d.ok <==> Clear(w.faults, n))
    && (d.ok ==> d.w == w'.(faults := Drop(w.faults, n)))
  }

  lemma TookThen(w: Wire, d: Did, k: nat, v: Wire, e: Did, m: nat, u: Wire)
    requires Took(w, d, k, v) && Took(d.w, e, m, u)
    ensures Took(w, if d.ok then e else d, k + m, u)
  {
    ClearSplit(w.faults, k, m);
  }

  function WriterSteps(w: Wire): nat {
    if w.input == Unopened then 1 else 0
  }

  function ReaderSteps(w: Wire): nat {
    if w.reading then 0 else 1
  }

  function Opened(w: Wire): Wire {
    if w.input == Unopened then w.(input := Open) else w
  }

  lemma IoTakes(w: Wire)
    ensures Took(w, Io(w), 1, w)
  {
  }

  lemma OpenWriterTakes(w: Wire)
    ensures Took(w, OpenWriter(w), WriterSteps(w), Opened(w))
  {
  }

  lemma WriteFlushTakes(w: Wire)
    ensures Took(w, WriteFlush(w), 2, w)
  {
    IoTakes(w);
    IoTakes(Io(w).w);
    TookThen(w, Io(w), 1, w, Io(Io(w).w), 1, Io(w).w);
  }

  lemma SendTakes(w: Wire)
    ensures Took(w, SendBatch(w), WriterSteps(w) + 2, Opened(w))
  {
    OpenWriterTakes(w);
    var d := OpenWriter(w);
    WriteFlushTakes(d.w);
    TookThen(w, d, WriterSteps(w), Opened(w), WriteFlush(d.w), 2, d.w);
  }

  lemma CloseWriterTakes(w: Wire)
    ensures Took(w, CloseWriter(w), 1, w.(input := Shut))
  {
  }

  lemma FinishInputTakes(w: Wire)
    ensures Took(w, FinishInput(w), WriterSteps(w) + 1, w.(input := Shut))
  {
    OpenWriterTakes(w);
    var d := OpenWriter(w);
    CloseWriterTakes(d.w);
    TookThen(w, d, WriterSteps(w), Opened(w), CloseWriter(d.w), 1, d.w.(input := Shut));
  }

  lemma OpenReaderTakes(w: Wire)
    ensures Took(w, OpenReader(w), ReaderSteps(w), w.(reading := true))
  {
  }

  // ---- The drain ---------------------------------------------------------------------------------------

  /** What a drain reads past: logs that parse and pointers that resolve, or need not be resolved. */
  predicate Drainable(frames: seq<Frame>) {
    forall f <- frames :: f != Log(false) && !(f.ShmPointer? && !f.resolves)
  }

  predicate Throws(frames: seq<Frame>) {
    exists f <- frames :: f.Exception?
  }

  lemma {:induction false} DrainEnds(x: World, pending: bool)
    ensures var r, n := DrainLoop(x, pending), |x.wire.frames| + 1;
      && (r.outcome.Fine? || r.outcome.Remote? <==> Clear(x.wire.faults, n) && Drainable(x.wire.frames))
      && (r.outcome.Remote? ==> pending || Throws(x.wire.frames))
      && (r.outcome.Fine? ==> !pending && !Throws(x.wire.frames))
      && (r.outcome.Fine? ==>
            r.x.wire.faults == Drop(x.wire.faults, n) && r.x.s == x.s.(finished := true) && r.x.wire.frames == [])
    decreases |x.wire.frames|
  {
    hide Drainable, Throws, Clear, Drop;
    var r, frames := ReadNext(x.wire), x.wire.frames;
    NextTakes(x.wire);
    FramesSplit(frames);
    if r.read.Got? {
      DrainEnds(x.(wire := r.w), pending || frames[0].Exception?);
    }
  }

  /** A read takes one step, and leaves the rest of the schedule for the rest of the frames. */
  lemma NextTakes(w: Wire)
    ensures var r := ReadNext(w);
      && (r.read.Failed? <==> !Clear(w.faults, 1)) && (r.read.Eos? ==> w.frames == [])
      && (r.read.Failed? ==> !Clear(w.faults, |w.frames| + 1))
      && (!r.read.Failed? ==>
            && r.w.frames == (if w.frames == [] then [] else w.frames[1..])
            && (Clear(w.faults, |w.frames| + 1) <==> Clear(r.w.faults, |w.frames|))
            && Drop(r.w.faults, |w.frames|) == Drop(w.faults, |w.frames| + 1))
      && (r.read.Eos? ==> Clear(w.faults, |w.frames| + 1) && r.w.faults == Drop(w.faults, |w.frames| + 1))
  {
    IoTakes(w);
    ClearSplit(w.faults, 1, |w.frames|);
  }

  lemma FramesSplit(frames: seq<Frame>)
    ensures Drainable([]) && !Throws([])
    ensures frames != [] ==>
              && (Drainable(frames) <==> Drainable([frames[0]]) && Drainable(frames[1..]))
              && (Throws(frames) <==> frames[0].Exception? || Throws(frames[1..]))
    ensures frames != [] ==>
              var f := frames[0]; Drainable([f]) <==> f != Log(false) && !(f.ShmPointer? && !f.resolves)
  {
    if frames != [] {
      assert forall f :: f in frames <==> f == frames[0] || f in frames[1..];
      assert frames[0] in [frames[0]];
    }
  }

  lemma DrainOutputEnds(x: World)
    ensures var r, n := DrainOutput(x), ReaderSteps(x.wire) + |x.wire.frames| + 1;
      && (r.outcome.Fine? || r.outcome.Remote? || r.outcome.Error?)
      && (r.outcome.Fine? <==> Clear(x.wire.faults, n) && Drainable(x.wire.frames) && !Throws(x.wire.frames))
      && (r.outcome.Remote? <==> Clear(x.wire.faults, n) && Drainable(x.wire.frames) && Throws(x.wire.frames))
      && (r.outcome.Fine? ==> r.x.wire.faults == Drop(x.wire.faults, n))
  {
    hide DrainLoop, Drainable, Throws, Clear;
    OpenReaderTakes(x.wire);
    var d := OpenReader(x.wire);
    ClearSplit(x.wire.faults, ReaderSteps(x.wire), |x.wire.frames| + 1);
    if d.ok {
      DrainEnds(x.(wire := d.w), false);
      DrainLoopKeeps(x.(wire := d.w), false);
    }
  }

  // ---- close, cancel -----------------------------------------------------------------------------------

  function CloseSteps(w: Wire): nat {
    WriterSteps(w) + 1 + ReaderSteps(w) + |w.frames| + 1
  }

  /**
    `close()` succeeds, and then hands the connection back clean, exactly when none of its steps is due
    to fail and nothing left to read is an unparsable log, an unresolvable pointer or an exception; it
    reports a remote exception exactly when that is all that is wrong.
   */
  lemma CloseSucceedsIff(x: World)
    requires Inv(x) && !x.s.released
    ensures var fine := Clear(x.wire.faults, CloseSteps(x.wire)) && Drainable(x.wire.frames);
      && (Close(x).outcome.Fine? <==> fine && !Throws(x.wire.frames))
      && (Close(x).outcome.Remote? <==> fine && Throws(x.wire.frames))
      && (Close(x).outcome.Fine? ==>
            && Close(x).x.trace == x.trace + [Handback(true)] && !Close(x).x.dead
            && Close(x).x.wire.faults == Drop(x.wire.faults, CloseSteps(x.wire)))
      && (!Close(x).outcome.Fine? ==> Close(x).x.trace == x.trace && Close(x).x.dead)
  {
    hide DrainOutput, Drainable, Throws, Clear;
    CloseHandsBackClean(x);
    var y := x.(s := x.s.(closed := true));
    FinishInputTakes(x.wire);
    var d := FinishInput(x.wire);
    ClearSplit(x.wire.faults, WriterSteps(x.wire) + 1, ReaderSteps(x.wire) + |x.wire.frames| + 1);
    DrainOutputEnds(y.(wire := d.w));
  }

  function CancelSteps(w: Wire): nat {
    WriterSteps(w) + 2 + ReaderSteps(w) + |w.frames| + 1
  }

  lemma CancelLiveIff(x: World)
    ensures var r := CancelLive(x);
      && (r.outcome.Fine? <==>
            Clear(x.wire.faults, CancelSteps(x.wire) + 1) && Drainable(x.wire.frames) && !Throws(x.wire.frames))
      && (r.outcome.Remote? <==>
            Clear(x.wire.faults, CancelSteps(x.wire)) && Drainable(x.wire.frames) && Throws(x.wire.frames))
      && (r.outcome.Fine? ==> r.x.wire.faults == Drop(x.wire.faults, CancelSteps(x.wire) + 1))
  {
    hide SendBatch, DrainOutput, Drainable, Throws, Clear, Drop;
    var gone := x.(s := x.s.(cancelled := true));
    SendTakes(x.wire);
    var d := SendBatch(x.wire);
    ClearSplit(x.wire.faults, WriterSteps(x.wire) + 2, ReaderSteps(x.wire) + |x.wire.frames| + 1);
    ClearSplit(x.wire.faults, CancelSteps(x.wire), 1);
    DrainOutputEnds(gone.(wire := d.w));
    var r := DrainOutput(gone.(wire := d.w));
    CloseWriterTakes(r.x.wire);
  }

  /** `cancel()` likewise, of a stream that goes on; of one that has finished it only shuts the input. */
  lemma CancelSucceedsIff(x: World)
    requires Inv(x) && !x.s.released
    ensures var r := Cancel(x);
      && (x.s.finished ==>
            && (r.outcome.Fine? <==> Clear(x.wire.faults, WriterSteps(x.wire) + 1))
            && (r.outcome.Fine? || r.outcome.Error?))
      && (!x.s.finished ==>
            && (r.outcome.Fine? <==> && Clear(x.wire.faults, CancelSteps(x.wire) + 1)
                                     && Drainable(x.wire.frames) && !Throws(x.wire.frames))
            && (r.outcome.Remote? <==> && Clear(x.wire.faults, CancelSteps(x.wire))
                                       && Drainable(x.wire.frames) && Throws(x.wire.frames)))
      && (r.outcome.Fine? ==>
            && !r.x.dead && r.x.trace == x.trace + [Handback(x.s.finished ==> x.wire.atEnd)]
            && r.x.wire.faults == Drop(x.wire.faults, if x.s.finished then WriterSteps(x.wire) + 1
                                                      else CancelSteps(x.wire) + 1))
      && (!r.outcome.Fine? ==> r.x.trace == x.trace && r.x.dead)
  {
    hide CancelLive, Drainable, Throws, Clear;
    CancelKeeps(x);
    if x.s.finished {
      FinishInputTakes(x.wire);
    } else {
      CancelLiveIff(x);
    }
  }

  // ---- tick and exchange -------------------------------------------------------------------------------

  /** The first `k` frames are logs, and no more. */
  predicate LogsFirst(frames: seq<Frame>, k: nat) {
    && k <= |frames| && (forall i | 0 <= i < k :: frames[i] == Log(true))
    && (k < |frames| ==> frames[k] != Log(true))
  }

  /** What a turn makes of the first batch that is not a log, if it gets there. */
  function Verdict(frames: seq<Frame>, k: nat): Outcome
    requires k <= |frames|
  {
    if k == |frames| then NoMore
    else
      match frames[k]
      case Data(v) => Value(v)
      case ShmPointer(v, resolves) => if resolves then Value(v) else Error
      case ExternalPointer(v, resolves) => if resolves then Value(v) else Error
      case Exception => Remote
      case Log(_) => Error
      case StateToken => Error
  }

  lemma {:induction false} ReadLoopEnds(x: World, k: nat)
    requires LogsFirst(x.wire.frames, k)
    ensures ReadLoop(x).outcome == if Clear(x.wire.faults, k + 1) then Verdict(x.wire.frames, k) else Error
    decreases k
  {
    var r := ReadNext(x.wire);
    ClearSplit(x.wire.faults, 1, k);
    if k > 0 && r.read.Got? {
      assert x.wire.frames[0] == Log(true);
      ReadLoopEnds(x.(wire := r.w), k - 1);
      assert k < |x.wire.frames| ==> x.wire.frames[1..][k - 1] == x.wire.frames[k];
    }
  }

  function TurnSteps(w: Wire, k: nat): nat {
    WriterSteps(w) + 2 + ReaderSteps(w) + k + 1
  }

  /**
    A turn returns exactly what the first batch behind the leading logs says, if none of the steps up
    to it is due to fail: a value, the end, a remote exception; and an error otherwise.
   */
  lemma TurnSucceedsIff(x: World, k: nat)
    requires Inv(x) && !x.s.released && !x.s.finished && LogsFirst(x.wire.frames, k)
    ensures Turn(x).outcome == if Clear(x.wire.faults, TurnSteps(x.wire, k)) then Verdict(x.wire.frames, k) else Error
  {
    hide ReadLoop, Clear;
    SendTakes(x.wire);
    var d := SendBatch(x.wire);
    ClearSplit(x.wire.faults, WriterSteps(x.wire) + 2, ReaderSteps(x.wire) + k + 1);
    OpenReaderTakes(d.w);
    var o := OpenReader(d.w);
    ClearSplit(d.w.faults, ReaderSteps(d.w), k + 1);
    if d.ok && o.ok {
      ReadLoopEnds(x.(wire := o.w), k);
    }
  }

  // ---- Unary calls and opens -----------------------------------------------------------------------------

  predicate Bad(f: Frame) {
    f == Log(false) || f.StateToken? || (f.ShmPointer? && !f.resolves) || (f.ExternalPointer? && !f.resolves)
  }

  predicate Carries(f: Frame) {
    f.Data? || f.ShmPointer? || f.ExternalPointer?
  }

  /** How many batches of a substream carry data. */
  function DataCount(frames: seq<Frame>): nat {
    if frames == [] then 0 else (if Carries(frames[0]) then 1 else 0) + DataCount(frames[1..])
  }

  /** The first `e` frames are the whole substream, or all of it before its first exception. */
  predicate UpToException(frames: seq<Frame>, e: nat) {
    && e <= |frames| && (forall i | 0 <= i < e :: !frames[i].Exception?)
    && (e < |frames| ==> frames[e].Exception?)
  }

  /** A substream is one data batch among logs, or an exception with at most that before it; all else is an error. */
  lemma {:induction false} JudgeIff(frames: seq<Frame>, e: nat, data: Outcome)
    requires UpToException(frames, e) && (data.Value? || data.NoMore?)
    ensures var had := DataCount(frames[..e]) + if data.Value? then 1 else 0;
      var bad := exists i :: 0 <= i < e && Bad(frames[i]);
      && (Judge(frames, data).Remote? <==> e < |frames| && !bad && had <= 1)
      && (Judge(frames, data).Value? <==> e == |frames| && !bad && had == 1)
      && (Judge(frames, data).Value? || Judge(frames, data).Remote? || Judge(frames, data).Error?)
    decreases |frames|
  {
    if e > 0 {
      var f, rest := frames[0], frames[1..];
      assert frames[..e][0] == f && frames[..e][1..] == rest[..e - 1];
      assert e < |frames| ==> rest[e - 1] == frames[e];
      assert (exists i :: 0 <= i < e && Bad(frames[i])) <==> Bad(f) || exists i :: 0 <= i < e - 1 && Bad(rest[i]) by {
        if j :| 0 <= j < e && Bad(frames[j]) {
          assert j > 0 ==> Bad(rest[j - 1]);
        }
        if j :| 0 <= j < e - 1 && Bad(rest[j]) {
          assert Bad(frames[j + 1]);
        }
      }
      JudgeIff(rest, e - 1, data);
      if Carries(f) {
        JudgeIff(rest, e - 1, Value(f.value));
      }
    } else {
      assert frames[..0] == [];
    }
  }

  lemma {:induction false} DrainReaderEnds(w: Wire)
    ensures DrainReader(w).atEnd <==> w.atEnd || Clear(w.faults, |w.frames| + 1)
    ensures Clear(w.faults, |w.frames| + 1) ==>
              DrainReader(w) == w.(faults := Drop(w.faults, |w.frames| + 1), frames := [], atEnd := true)
    decreases |w.frames|
  {
    var r := ReadNext(w);
    ClearSplit(w.faults, 1, |w.frames|);
    if r.read.Got? {
      DrainReaderEnds(r.w);
    }
  }

  /** Request out, answer in: what an exchange of whole substreams takes. */
  lemma RoundTrip(faults: seq<bool>, frames: seq<Frame>)
    ensures var d := WriteRequest(faults, frames);
      var w := ReadWhole(d.w);
      && (d.ok && w.atEnd <==> Clear(faults, |frames| + 4))
      && (d.ok ==> d.w.input == Shut && !d.w.atEnd)
      && (Clear(faults, |frames| + 4) ==> w == Wire(Drop(faults, |frames| + 4), Shut, true, [], true))
  {
    hide DrainReader, Clear;
    var w0 := Wire(faults, Unopened, false, frames, false);
    WriteFlushTakes(w0);
    var d := WriteRequest(faults, frames);
    ClearSplit(faults, 2, |frames| + 2);
    OpenReaderTakes(d.w);
    var o := OpenReader(d.w);
    ClearSplit(d.w.faults, 1, |frames| + 1);
    DrainReaderEnds(o.w);
  }

  /** One data batch among logs, or an exception with at most that before it. */
  ghost predicate WellFormed(frames: seq<Frame>, e: nat)
    requires e <= |frames|
  {
    && (forall i | 0 <= i < e :: !Bad(frames[i]))
    && if e == |frames| then DataCount(frames) == 1 else DataCount(frames[..e]) <= 1
  }

  lemma JudgeWellFormed(frames: seq<Frame>, e: nat)
    requires UpToException(frames, e)
    ensures var verdict := Judge(frames, NoMore);
      && (verdict.Value? <==> WellFormed(frames, e) && e == |frames|)
      && (verdict.Remote? <==> WellFormed(frames, e) && e < |frames|)
      && (verdict.Value? || verdict.Remote? || verdict.Error?)
  {
    JudgeIff(frames, e, NoMore);
    assert frames[..|frames|] == frames;
  }

  /**
    A unary call ends in a clean handback, a remote exception included, exactly when no step is due to
    fail and its answer is well formed; otherwise the connection is down.
   */
  lemma CallSucceedsIff(c: Conn, answer: seq<Frame>, e: nat)
    requires !c.dead && !c.active && UpToException(answer, e)
    ensures var d := Call(c, answer);
      if Clear(c.wire.faults, |answer| + 4) && WellFormed(answer, e)
      then
        && d.trace == c.trace + [Handback(true)] && !d.dead && !d.active
        && d.wire.faults == Drop(c.wire.faults, |answer| + 4)
      else d.trace == c.trace && d.dead && !d.active
  {
    hide WriteRequest, ReadWhole, Judge, Clear, WellFormed;
    RoundTrip(c.wire.faults, answer);
    JudgeWellFormed(answer, e);
  }

  /**
    An open gives a stream exactly when its request goes out, and with a header also when that comes
    back whole with one batch; a header that throws hands the connection back clean, if its three
    further steps succeed; anything else takes the connection down.
   */
  lemma OpenSucceedsIff(c: Conn, header: Header, answer: seq<Frame>, e: nat)
    requires !c.dead && !c.active && (header.Header? ==> UpToException(header.frames, e))
    ensures var d := OpenOn(c, header, answer);
      var steps := if header.NoHeader? then 2 else |header.frames| + 4;
      if Clear(c.wire.faults, steps) && (header.Header? ==> WellFormed(header.frames, e) && e == |header.frames|) then
        && d.active && !d.dead && d.trace == c.trace && d.streams == c.streams + [NEW_FLAGS]
        && d.wire == Wire(Drop(c.wire.faults, steps), Unopened, false, answer, false)
      else if header.Header? && Clear(c.wire.faults, steps + 3) && WellFormed(header.frames, e)
          && e < |header.frames| then
        && !d.active && !d.dead && d.trace == c.trace + [Handback(true)] && d.streams == c.streams
        && d.wire.faults == Drop(c.wire.faults, steps + 3)
      else !d.active && d.dead && d.trace == c.trace && d.streams == c.streams
  {
    hide Judge, Clear, WellFormed;
    match header
    case NoHeader =>
      WriteFlushTakes(Wire(c.wire.faults, Unopened, false, [], false));
    case Header(frames) =>
      hide WriteRequest, ReadWhole;
      RoundTrip(c.wire.faults, frames);
      JudgeWellFormed(frames, e);
      var w := ReadWhole(WriteRequest(c.wire.faults, frames).w);
      if w.atEnd {
        FailOpenSteps(c, w);
      }
      ClearSplit(c.wire.faults, |frames| + 4, 3);
  }

  lemma FailOpenSteps(c: Conn, w: Wire)
    requires !c.dead && !c.active && w.atEnd
    ensures var d := FailOpen(c, w);
      if Clear(w.faults, 3) then
        && !d.active && !d.dead && d.trace == c.trace + [Handback(true)] && d.streams == c.streams
        && d.wire.faults == Drop(w.faults, 3)
      else !d.active && d.dead && d.trace == c.trace && d.streams == c.streams
  {
    var w0 := w.(input := Unopened);
    FinishInputTakes(w0);
    IoTakes(FinishInput(w0).w);
    ClearSplit(w.faults, 2, 1);
  }

  // ---- Connections without faults -------------------------------------------------------------------------

  function Calls(answers: seq<seq<Frame>>): seq<Op> {
    if answers == [] then [] else [CallUnary(answers[0])] + Calls(answers[1..])
  }

  ghost predicate Answer(frames: seq<Frame>) {
    exists e: nat :: UpToException(frames, e) && WellFormed(frames, e)
  }

  /** A connection that meets no fault serves any number of calls, remote exceptions among them, one after another. */
  lemma {:induction false} FaultlessCalls(c: Conn, answers: seq<seq<Frame>>)
    requires !c.dead && !c.active && c.wire.faults == [] && forall a <- answers :: Answer(a)
    ensures var d := Run(c, Calls(answers));
      !d.dead && !d.active && d.trace == c.trace + seq(|answers|, _ => Handback(true))
    decreases |answers|
  {
    if answers != [] {
      hide Call, WellFormed;
      assert answers[0] in answers && Answer(answers[0]);
      var e: nat :| UpToException(answers[0], e) && WellFormed(answers[0], e);
      CallSucceedsIff(c, answers[0], e);
      var d := Do(c, CallUnary(answers[0]));
      assert Calls(answers)[0] == CallUnary(answers[0]) && Calls(answers)[1..] == Calls(answers[1..]);
      FaultlessCalls(d, answers[1..]);
      var n := |answers|;
      assert [Handback(true)] + seq(n - 1, _ => Handback(true)) == seq(n, _ => Handback(true));
      Assoc(c.trace, [Handback(true)], seq(n - 1, _ => Handback(true)));
    } else {
      assert c.trace + seq(0, _ => Handback(true)) == c.trace;
    }
  }

  /** A new connection is one of those. */
  lemma FreshServes(answers: seq<seq<Frame>>)
    requires forall a <- answers :: Answer(a)
    ensures |Run(Fresh([]), Calls(answers)).trace| == |answers| && !Run(Fresh([]), Calls(answers)).dead
  {
    hide Run;
    FaultlessCalls(Fresh([]), answers);
  }
}
