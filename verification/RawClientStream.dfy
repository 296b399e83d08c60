/**
  The raw client's two objects as the program has them: a connection whose reservation and wire are
  updated in place, and a stream object with four flags whose methods loop over the wire.  Each
  method is proved to do exactly what its specification in `RawClient` says.
 */
module RawClientStream {
  import S = RawClient

  class Connection {
    var active: bool
    var closed: bool
    var wire: S.Wire
    ghost var trace: seq<S.Handback>

    constructor (faults: seq<bool>)
      ensures !active && !closed && trace == [] && wire == S.Wire(faults, S.Unopened, false, [], false)
    {
      active, closed := false, false;
      wire := S.Wire(faults, S.Unopened, false, [], false);
      trace := [];
    }

    method Io() returns (ok: bool)
      modifies this`wire
      ensures S.Did(ok, wire) == S.Io(old(wire))
    {
      ok := wire.faults == [] || !wire.faults[0];
      if wire.faults != [] {
        wire := wire.(faults := wire.faults[1..]);
      }
    }

    method OpenWriter() returns (ok: bool)
      modifies this`wire
      ensures S.Did(ok, wire) == S.OpenWriter(old(wire))
    {
      ok := true;
      if wire.input == S.Unopened {
        ok := Io();
        if ok {
          wire := wire.(input := S.Open);
        }
      }
    }

    method WriteFlush() returns (ok: bool)
      modifies this`wire
      ensures S.Did(ok, wire) == S.WriteFlush(old(wire))
    {
      ok := Io();
      if ok {
        ok := Io();
      }
    }

    method SendBatch() returns (ok: bool)
      modifies this`wire
      ensures S.Did(ok, wire) == S.SendBatch(old(wire))
    {
      ok := OpenWriter();
      if ok {
        ok := WriteFlush();
      }
    }

    method CloseWriter() returns (ok: bool)
      modifies this`wire
      ensures S.Did(ok, wire) == S.CloseWriter(old(wire))
    {
      ok := Io();
      if ok {
        wire := wire.(input := S.Shut);
      }
    }

    method OpenReader() returns (ok: bool)
      modifies this`wire
      ensures S.Did(ok, wire) == S.OpenReader(old(wire))
    {
      ok := true;
      if !wire.reading {
        ok := Io();
        if ok {
          wire := wire.(reading := true);
        }
      }
    }

    method ReadNext() returns (r: S.Read)
      modifies this`wire
      ensures S.Received(r, wire) == S.ReadNext(old(wire))
    {
      var ok := Io();
      if !ok {
        r := S.Failed;
      } else if wire.frames == [] {
        r := S.Eos;
        wire := wire.(atEnd := true);
      } else {
        r := S.Got(wire.frames[0]);
        wire := wire.(frames := wire.frames[1..]);
      }
    }

    method DrainReader()
      modifies this`wire
      ensures wire == S.DrainReader(old(wire))
    {
      var r := ReadNext();
      while r.Got?
        invariant S.DrainReader(old(wire)) == if r.Got? then S.DrainReader(wire) else wire
        decreases |wire.frames|, r.Got?
      {
        r := ReadNext();
      }
    }

    method AbortTransport()
      modifies this`active, this`closed
      ensures closed && !active
    {
      closed, active := true, false;
    }

    method ReleaseCall()
      modifies this`active, this`trace
      ensures !active && trace == old(trace) + [S.Handback(wire.Clean())]
    {
      active := false;
      trace := trace + [S.Handback(wire.Clean())];
    }
  }

  class Stream {
    const client: Connection
    var cancelled: bool
    var finished: bool
    var closed: bool
    var released: bool

    ghost function State(): S.World
      reads this, client
    {
      S.World(client.active, client.closed, client.wire,
              S.Flags(cancelled, finished, closed, released), client.trace)
    }

    constructor (client: Connection)
      ensures this.client == client
      ensures State() == S.World(client.active, client.closed, client.wire, S.NEW_FLAGS, client.trace)
    {
      this.client := client;
      cancelled, finished, closed, released := false, false, false, false;
    }

    method Abort()
      modifies this, client
      ensures State() == S.Abort(old(State()))
    {
      closed, released := true, true;
      client.AbortTransport();
    }

    method Release()
      modifies this, client
      ensures State() == S.Release(old(State()))
    {
      if !released {
        released := true;
        client.ReleaseCall();
      }
    }

    method ReadNextData() returns (o: S.Outcome)
      modifies this, client
      ensures S.Result(o, State()) == S.ReadNextData(old(State()))
    {
      hide S.DrainReader, S.ReadLoop;
      var ok := client.OpenReader();
      if !ok {
        Abort();
        return S.Error;
      }
      ghost var start := State();
      while true
        invariant S.ReadLoop(State()) == S.ReadLoop(start)
        decreases |client.wire.frames|
      {
        S.ReadLoopStep(State());
        var r := client.ReadNext();
        match r
        case Got(Log(true)) =>
        case Got(Data(v)) => return S.Value(v);
        case Got(ShmPointer(v, true)) => return S.Value(v);
        case Got(ExternalPointer(v, true)) => return S.Value(v);
        case Eos =>
          finished := true;
          return S.NoMore;
        case Got(Exception) =>
          finished := true;
          client.DrainReader();
          return S.Remote;
        case _ =>
          Abort();
          return S.Error;
      }
    }

    /** The common body of `tick` and `exchange`. */
    method Turn() returns (o: S.Outcome)
      modifies this, client
      ensures S.Result(o, State()) == S.Turn(old(State()))
    {
      if cancelled || closed {
        return S.Misuse;
      }
      if finished {
        return S.NoMore;
      }
      var ok := client.SendBatch();
      if !ok {
        Abort();
        return S.Error;
      }
      o := ReadNextData();
    }

    method DrainOutput() returns (o: S.Outcome)
      modifies this, client
      ensures S.Result(o, State()) == S.DrainOutput(old(State()))
    {
      var ok := client.OpenReader();
      if !ok {
        return S.Error;
      }
      ghost var start := State();
      var pending := false;
      while true
        invariant S.DrainLoop(State(), pending) == S.DrainLoop(start, false)
        decreases |client.wire.frames|
      {
        var r := client.ReadNext();
        match r
        case Failed => return S.Error;
        case Eos =>
          finished := true;
          return if pending then S.Remote else S.Fine;
        case Got(Log(false)) => return S.Error;
        case Got(ShmPointer(_, false)) => return S.Error;
        case Got(f) => pending := pending || f.Exception?;
      }
    }

    method FinishInput() returns (ok: bool)
      modifies client`wire
      ensures S.Did(ok, client.wire) == S.FinishInput(old(client.wire))
    {
      ok := client.OpenWriter();
      if ok {
        ok := client.CloseWriter();
      }
    }

    method Cancel() returns (o: S.Outcome)
      modifies this, client
      ensures S.Result(o, State()) == S.Cancel(old(State()))
    {
      if cancelled || closed {
        cancelled := true;
        Release();
        return S.Fine;
      }
      if finished {
        cancelled, closed := true, true;
        var ok := FinishInput();
        if ok {
          Release();
          return S.Fine;
        }
        Abort();
        return S.Error;
      }
      o := CancelLive();
    }

    /** Cancelling a stream that has not finished: send the mark, drain the answer, shut the input. */
    method CancelLive() returns (o: S.Outcome)
      modifies this, client
      ensures S.Result(o, State()) == S.CancelLive(old(State()))
    {
      cancelled := true;
      var ok := client.SendBatch();
      if !ok {
        Abort();
        return S.Error;
      }
      o := DrainAndShut();
    }

    method DrainAndShut() returns (o: S.Outcome)
      modifies this, client
      ensures S.Result(o, State()) == S.DrainAndShut(old(State()))
    {
      o := DrainOutput();
      if o.Fine? {
        var ok := client.CloseWriter();
        if ok {
          closed := true;
          Release();
          return S.Fine;
        }
        o := S.Error;
      }
      Abort();
    }

    method Close() returns (o: S.Outcome)
      modifies this, client
      ensures S.Result(o, State()) == S.Close(old(State()))
    {
      if closed {
        Release();
        return S.Fine;
      }
      closed := true;
      var ok := FinishInput();
      if !ok {
        Abort();
        return S.Error;
      }
      o := DrainOutput();
      if o.Fine? {
        Release();
      } else {
        Abort();
      }
    }

    method Destroy()
      modifies this, client
      ensures State() == S.Destroy(old(State()))
    {
      if !closed {
        Abort();
      }
    }
  }
}
