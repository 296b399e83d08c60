/** The sticky view's state as the object the source updates, proved equal to `StickySession`. */
module StickySessionState {
  import opened Base
  import opened StickySession

  /** The erase loop: drop every spelling of a name. */
  method EraseName(echo: Echo, lowered: string) returns (r: Echo)
    ensures r == Without(echo, lowered)
  {
    r := [];
    var i := 0;
    while i < |echo|
      invariant 0 <= i <= |echo|
      invariant r + Without(echo[i..], lowered) == Without(echo, lowered)
    {
      assert echo[i..][1..] == echo[i + 1..];
      if Lower(echo[i].name) != lowered {
        r := r + [echo[i]];
      }
      i := i + 1;
    }
  }

  /** The size loop: stops at the first field that does not fit in what is left of the budget. */
  method WithinBudget(echo: Echo) returns (fits: bool)
    ensures fits == (ByteCount(echo) <= MAX_BYTES && FieldsFit(echo))
  {
    var bytes := 0;
    var i := 0;
    while i < |echo|
      invariant 0 <= i <= |echo|
      invariant bytes + ByteCount(echo[i..]) == ByteCount(echo) && bytes <= MAX_BYTES
      invariant FieldsFit(echo[..i])
    {
      assert echo[i..][1..] == echo[i + 1..];
      var h := echo[i];
      if |h.name| > MAX_NAME || |h.value| > MAX_VALUE || |h.name| > MAX_BYTES - bytes {
        assert h in echo;
        return false;
      }
      bytes := bytes + |h.name|;
      if |h.value| > MAX_BYTES - bytes {
        return false;
      }
      bytes := bytes + |h.value|;
      assert echo[..i + 1] == echo[..i] + [h];
      i := i + 1;
    }
    assert echo[..i] == echo;
    return true;
  }

  class HttpStickySessionState {
    var token: Option<string>
    var echoHeaders: Echo
    var locallyClosed: bool

    function Now(): Carried
      reads this
    {
      Carried(token, echoHeaders)
    }

    constructor (token: Option<string>, echoHeaders: Echo)
      ensures Now() == Carried(token, echoHeaders) && !locallyClosed
    {
      this.token, this.echoHeaders, locallyClosed := token, echoHeaders, false;
    }

    /** Staging reads the view and changes nothing. */
    method StageResponse(ok: Policy, r: Response) returns (update: Option<Carried>)
      ensures update == Stage(ok, Now(), r)
    {
      var nextToken := token;
      var nextEcho := echoHeaders;
      if r.token != "" {
        if !TokenFits(r.token) {
          return None;
        }
        nextToken := Some(r.token);
      }
      var i := 0;
      while i < |r.headers|
        invariant 0 <= i <= |r.headers|
        invariant StageEcho(ok, nextEcho, r.headers[i..]) == StageEcho(ok, echoHeaders, r.headers)
      {
        assert r.headers[i..][1..] == r.headers[i + 1..];
        if IsEcho(r.headers[i].name) {
          var h := Replayed(r.headers[i]);
          if !Admissible(ok, h) {
            return None;
          }
          var kept := EraseName(nextEcho, Lower(h.name));
          nextEcho := kept + [h];
        }
        i := i + 1;
      }
      var fits := WithinBudget(nextEcho);
      if !fits || |nextEcho| > MAX_NAMES {
        return None;
      }
      if r.close {
        nextToken, nextEcho := None, [];
      }
      return Some(Carried(nextToken, nextEcho));
    }

    /** Refused once the view is closed. */
    method Commit(update: Carried) returns (done: bool)
      modifies this
      ensures done == !old(locallyClosed) && locallyClosed == old(locallyClosed)
      ensures Now() == if done then update else old(Now())
    {
      if locallyClosed {
        return false;
      }
      token, echoHeaders := update.token, update.echo;
      return true;
    }

    method Detach() returns (detached: Option<string>)
      modifies this
      ensures detached == old(token) && Now() == Carried(None, []) && locallyClosed
    {
      detached := token;
      token, echoHeaders, locallyClosed := None, [], true;
    }

    /**
      The flag goes up at once; what is carried is dropped, and its token deleted, only if the lock
      comes free in time.
     */
    method Close(lockFree: bool) returns (delete: Option<Carried>)
      modifies this
      ensures locallyClosed
      ensures var sweeps := !old(locallyClosed) && lockFree;
        && Now() == (if sweeps then Carried(None, []) else old(Now()))
        && delete == if sweeps && old(token).Some? then Some(old(Now())) else None
    {
      if locallyClosed {
        return None;
      }
      locallyClosed := true;
      if !lockFree {
        return None;
      }
      delete := if token.Some? then Some(Carried(token, echoHeaders)) else None;
      token, echoHeaders := None, [];
    }
  }
}
