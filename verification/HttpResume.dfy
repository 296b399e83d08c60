/**
  Resume tokens of a producer stream: their byte form, and that the token handed out with a batch
  resumes right behind it, against a peer whose cursors are immutable.
 */
module HttpResume {
  import opened Base

  // ---- The token's bytes --------------------------------------------------------------------------

  /** A little-endian 32-bit length, the cursor, the call state. */
  function Pack(cursor: Bytes, call: Bytes): Option<Bytes> {
    var size := |cursor|;
    if size >= TWO_32 then None
    else Some([size % 256, size / 0x100 % 256, size / 0x10000 % 256, size / 0x1000000] + cursor + call)
  }

  function Unpack(token: Bytes): Option<(Bytes, Bytes)> {
    if |token| < 4 then None
    else
      var size: int := (token[0] as int) + (token[1] as int) * 0x100 + (token[2] as int) * 0x10000
          + (token[3] as int) * 0x1000000;
      if size + 4 > |token| then None else Some((token[4..4 + size], token[4 + size..]))
  }

  lemma Digits(size: nat)
    requires size < TWO_32
    ensures size
         == size % 256 + size / 0x100 % 256 * 0x100 + size / 0x10000 % 256 * 0x10000 + size / 0x1000000 * 0x1000000
    ensures size / 0x1000000 < 256
  {
    assert size / 0x10000 == size / 0x100 / 256 && size / 0x1000000 == size / 0x10000 / 256;
  }

  lemma DigitsBack(a: nat, b: nat, c: nat, d: nat)
    requires a < 256 && b < 256 && c < 256 && d < 256
    ensures var size := a + b * 0x100 + c * 0x10000 + d * 0x1000000;
      size < TWO_32 && size % 256 == a && size / 0x100 % 256 == b && size / 0x10000 % 256 == c && size / 0x1000000 == d
  {
    Shift(a, b + c * 0x100 + d * 0x10000);
    Shift(b, c + d * 0x100);
    Shift(c, d);
    var size := a + b * 0x100 + c * 0x10000 + d * 0x1000000;
    assert size / 0x10000 == size / 0x100 / 256 && size / 0x1000000 == size / 0x10000 / 256;
  }

  lemma UnpackPack(cursor: Bytes, call: Bytes)
    ensures Pack(cursor, call).Some? <==> |cursor| < TWO_32
    ensures Pack(cursor, call).Some? ==> Unpack(Pack(cursor, call).value) == Some((cursor, call))
  {
    if |cursor| < TWO_32 {
      var size := |cursor|;
      Digits(size);
      var token := Pack(cursor, call).value;
      assert token[4..4 + size] == cursor && token[4 + size..] == call;
    }
  }

  lemma PackUnpack(token: Bytes)
    requires Unpack(token).Some?
    ensures Pack(Unpack(token).value.0, Unpack(token).value.1) == Some(token)
  {
    DigitsBack(token[0], token[1], token[2], token[3]);
    var (cursor, call) := Unpack(token).value;
    assert token == [token[0], token[1], token[2], token[3]] + cursor + call;
  }

  /** Packing and unpacking are mutual inverses. */
  lemma TokensAreExact(token: Bytes, cursor: Bytes, call: Bytes)
    ensures Pack(cursor, call) == Some(token) <==> Unpack(token) == Some((cursor, call)) && |cursor| < TWO_32
  {
    hide Pack, Unpack;
    UnpackPack(cursor, call);
    if Unpack(token).Some? {
      PackUnpack(token);
    }
  }

  // ---- A peer with immutable cursors ---------------------------------------------------------------

  /** One reply: at most one batch, the cursor to go on with, and a call state if it carries one. */
  datatype Turn<B> = Turn(data: Option<B>, cursor: Bytes, call: Bytes)

  /** Asked twice with the same tokens, the peer answers the same. */
  type Peer<!B> = (Bytes, Bytes) -> Turn<B>

  function NextCall<B>(call: Bytes, turn: Turn<B>): Bytes {
    if turn.call != [] then turn.call else call
  }

  /** The turns the peer plays from these tokens to the end of the stream. */
  ghost predicate Plays<B>(peer: Peer<B>, cursor: Bytes, call: Bytes, turns: seq<Turn<B>>)
    decreases turns
  {
    if turns == [] then cursor == []
    else
      && 0 < |cursor| < TWO_32 && turns[0] == peer(cursor, call)
      && Plays(peer, turns[0].cursor, NextCall(call, turns[0]), turns[1..])
  }

  function Data<B>(turns: seq<Turn<B>>): seq<B> {
    if turns == [] then [] else (if turns[0].data.Some? then [turns[0].data.value] else []) + Data(turns[1..])
  }

  /** Every turn is asked for with the cursor of the one before it and the last call state there was. */
  lemma {:induction false} PlaysInTurn<B>(peer: Peer<B>, cursor: Bytes, call: Bytes, turns: seq<Turn<B>>, k: nat,
                                          j: nat)
    requires Plays(peer, cursor, call, turns) && j <= k < |turns|
    requires (j > 0 ==> turns[j - 1].call != []) && forall i | j <= i < k :: turns[i].call == []
    ensures turns[k] == peer(if k == 0 then cursor else turns[k - 1].cursor, if j == 0 then call else turns[j - 1].call)
    decreases k
  {
    if k > 0 {
      var rest := turns[1..];
      assert forall i | 0 < i < |turns| :: turns[i] == rest[i - 1];
      PlaysInTurn(peer, turns[0].cursor, NextCall(call, turns[0]), rest, k - 1, if j == 0 then 0 else j - 1);
    }
  }

  /** What is left of a stream is a function of the tokens alone. */
  lemma {:induction false} PlaysOnce<B>(peer: Peer<B>, cursor: Bytes, call: Bytes, a: seq<Turn<B>>, b: seq<Turn<B>>)
    requires Plays(peer, cursor, call, a) && Plays(peer, cursor, call, b)
    ensures a == b
    decreases a
  {
    if a != [] && b != [] {
      PlaysOnce(peer, a[0].cursor, NextCall(call, a[0]), a[1..], b[1..]);
      assert a == [a[0]] + a[1..] && b == [b[0]] + b[1..];
    }
  }

  /** These tokens lead to exactly these batches. */
  ghost predicate LeadsTo<B(!new)>(peer: Peer<B>, cursor: Bytes, call: Bytes, batches: seq<B>) {
    exists turns: seq<Turn<B>> :: Plays(peer, cursor, call, turns) && Data(turns) == batches
  }

  /** What token `k` promises: the batches after batch `k`. */
  ghost predicate Resumes<B(!new)>(peer: Peer<B>, token: Option<Bytes>, later: seq<B>) {
    if token.None? then later == []
    else Unpack(token.value).Some? && Unpack(token.value).value.0 != []
         && LeadsTo(peer, Unpack(token.value).value.0, Unpack(token.value).value.1, later)
  }

  lemma PlaysTurn<B>(peer: Peer<B>, cursor: Bytes, call: Bytes, turns: seq<Turn<B>>)
    requires Plays(peer, cursor, call, turns)
    ensures cursor == [] ==> turns == [] && Data(turns) == []
    ensures cursor != [] ==>
              var turn := peer(cursor, call);
              && turns != [] && |cursor| < TWO_32 && Plays(peer, turn.cursor, NextCall(call, turn), turns[1..])
              && Data(turns) == (if turn.data.Some? then [turn.data.value] else []) + Data(turns[1..])
  {
  }

  // ---- The client session ------------------------------------------------------------------------------

  class ResumableStream<B(!new)> {
    const peer: Peer<B>
    var pending: seq<B>
    var cursor: Bytes
    var callState: Bytes
    var isFinished: bool
    var isClosed: bool

    /** What the session will still hand over, played out as `turns`. */
    ghost predicate Has(turns: seq<Turn<B>>)
      reads this
    {
      !isClosed && (isFinished ==> cursor == []) && Plays(peer, cursor, callState, turns)
    }

    /** A session as `open_producer` leaves it. */
    constructor (peer: Peer<B>, pending: seq<B>, cursor: Bytes, callState: Bytes)
      ensures this.peer == peer && this.pending == pending && this.cursor == cursor && this.callState == callState
      ensures isFinished == (cursor == []) && !isClosed
    {
      this.peer, this.pending, this.cursor, this.callState := peer, pending, cursor, callState;
      isFinished, isClosed := cursor == [], false;
    }

    method UpdateControls(turn: Turn<B>)
      modifies this`cursor, this`callState, this`isFinished
      ensures cursor == turn.cursor && callState == NextCall(old(callState), turn)
      ensures isFinished == (old(isFinished) || cursor == [])
    {
      cursor := turn.cursor;
      if turn.call != [] {
        callState := turn.call;
      }
      if cursor == [] {
        isFinished := true;
      }
    }

    method Tick(ghost turns: seq<Turn<B>>) returns (value: Option<B>, ghost rest: seq<Turn<B>>)
      requires Has(turns)
      modifies this
      ensures Has(rest)
      ensures match value
              case None => old(pending) + Data(turns) == [] && pending + Data(rest) == []
              case Some(v) => old(pending) + Data(turns) == [v] + (pending + Data(rest))
      ensures old(|pending|) <= 1 ==> pending == []
      ensures old(|pending|) <= 1 && value.Some? ==> Data(rest) == (old(pending) + Data(turns))[1..]
    {
      hide Plays, Data;
      rest := turns;
      while true
        invariant Has(rest) && pending + Data(rest) == old(pending) + Data(turns)
        invariant old(|pending|) <= 1 ==> |pending| <= 1
        decreases |rest|, |pending|
      {
        if pending != [] {
          value := Some(pending[0]);
          ghost var all := pending + Data(rest);
          assert all == [pending[0]] + (pending[1..] + Data(rest));
          assert pending[1..] == [] ==> [] + Data(rest) == all[1..];
          pending := pending[1..];
          return;
        }
        PlaysTurn(peer, cursor, callState, rest);
        if isFinished || cursor == [] {
          isFinished := true;
          return None, rest;
        }
        var turn := peer(cursor, callState);
        if turn.data.Some? {
          pending := pending + [turn.data.value];
        }
        UpdateControls(turn);
        rest := rest[1..];
      }
    }

    /** A batch with the token that resumes behind it; no token means it was the last. */
    method NextWithToken(ghost turns: seq<Turn<B>>)
      returns (value: Option<B>, token: Option<Bytes>, ghost rest: seq<Turn<B>>)
      requires Has(turns) && |pending| <= 1
      modifies this
      ensures Has(rest) && pending == []
      ensures value.None? <==> old(pending) + Data(turns) == []
      ensures value.Some? ==> old(pending) + Data(turns) == [value.value] + Data(rest)
      ensures value.None? ==> token.None? && Data(rest) == []
      ensures value.Some? ==> Resumes(peer, token, Data(rest))
    {
      hide Plays, Data;
      value, rest := Tick(turns);
      PlaysTurn(peer, cursor, callState, rest);
      assert [] + Data(rest) == Data(rest);
      token := None;
      if value.Some? && cursor != [] {
        UnpackPack(cursor, callState);
        hide Pack, Unpack;
        token := Pack(cursor, callState);
      }
    }

    /** `seek_to_token`; a malformed token or an empty cursor is an argument error and changes nothing. */
    method SeekToToken(token: Bytes) returns (ok: bool)
      modifies this
      ensures ok == (!old(isClosed) && Unpack(token).Some? && Unpack(token).value.0 != [])
      ensures ok ==> pending == [] && Some((cursor, callState)) == Unpack(token) && !isFinished && !isClosed
      ensures !ok ==> pending == old(pending) && cursor == old(cursor) && callState == old(callState)
                      && isFinished == old(isFinished) && isClosed == old(isClosed)
    {
      if isClosed {
        return false;
      }
      var parts := Unpack(token);
      if parts.None? || parts.value.0 == [] {
        return false;
      }
      pending := [];
      cursor, callState := parts.value.0, parts.value.1;
      isFinished := false;
      return true;
    }
  }

  /** Everything a session hands over from here on. */
  method Drain<B(!new)>(session: ResumableStream<B>, ghost turns: seq<Turn<B>>) returns (batches: seq<B>)
    requires session.Has(turns)
    modifies session
    ensures batches == old(session.pending) + Data(turns)
  {
    hide Plays, Data;
    batches := [];
    ghost var rest := turns;
    ghost var all := session.pending + Data(turns);
    while true
      invariant session.Has(rest) && batches + (session.pending + Data(rest)) == all
      decreases |session.pending + Data(rest)|
    {
      var value;
      value, rest := session.Tick(rest);
      if value.None? {
        return;
      }
      batches := batches + [value.value];
    }
  }

  /**
    Read a whole stream with tokens: every token resumes exactly behind the batch it came with,
    across data-less turns.
   */
  method ReadWithTokens<B(!new)>(session: ResumableStream<B>, ghost turns: seq<Turn<B>>)
    returns (batches: seq<B>, tokens: seq<Option<Bytes>>)
    requires session.Has(turns) && |session.pending| <= 1
    modifies session
    ensures batches == old(session.pending) + Data(turns) && |tokens| == |batches|
    ensures forall k | 0 <= k < |batches| :: Resumes(session.peer, tokens[k], batches[k + 1..])
  {
    hide Plays, Data, Resumes, Unpack;
    batches, tokens := [], [];
    ghost var rest := turns;
    ghost var all := session.pending + Data(turns);
    while true
      invariant session.Has(rest) && |session.pending| <= 1
      invariant batches + (session.pending + Data(rest)) == all && |tokens| == |batches|
      invariant forall k | 0 <= k < |batches| :: Resumes(session.peer, tokens[k], all[k + 1..])
      decreases |session.pending + Data(rest)|
    {
      var value, token;
      ghost var ahead := session.pending + Data(rest);
      value, token, rest := session.NextWithToken(rest);
      if value.None? {
        return;
      }
      assert all == batches + [value.value] + Data(rest);
      assert all[|batches| + 1..] == Data(rest);
      assert session.pending + Data(rest) == Data(rest);
      batches := batches + [value.value];
      tokens := tokens + [token];
    }
  }

  /** Seeking to a token, or resuming from it in a new session, yields exactly the batches it promises. */
  method SeekAndDrain<B(!new)>(session: ResumableStream<B>, token: Bytes, ghost later: seq<B>) returns (batches: seq<B>)
    requires !session.isClosed && Resumes(session.peer, Some(token), later)
    modifies session
    ensures batches == later
  {
    var ok := session.SeekToToken(token);
    ghost var turns: seq<Turn<B>> :| Plays(session.peer, session.cursor, session.callState, turns)
        && Data(turns) == later;
    batches := Drain(session, turns);
    assert [] + later == later;
  }

  method ResumeAndDrain<B(!new)>(peer: Peer<B>, token: Bytes, ghost later: seq<B>) returns (batches: seq<B>)
    requires Resumes(peer, Some(token), later)
    ensures batches == later
  {
    var parts := Unpack(token).value;
    var session := new ResumableStream(peer, [], parts.0, parts.1);
    ghost var turns: seq<Turn<B>> :| Plays(peer, parts.0, parts.1, turns) && Data(turns) == later;
    batches := Drain(session, turns);
    assert [] + later == later;
  }

  /** A token never promises two different things. */
  lemma ResumesOneWay<B(!new)>(peer: Peer<B>, token: Option<Bytes>, a: seq<B>, b: seq<B>)
    requires Resumes(peer, token, a) && Resumes(peer, token, b)
    ensures a == b
  {
    if token.Some? {
      var (cursor, call) := Unpack(token.value).value;
      var x: seq<Turn<B>> :| Plays(peer, cursor, call, x) && Data(x) == a;
      var y: seq<Turn<B>> :| Plays(peer, cursor, call, y) && Data(y) == b;
      PlaysOnce(peer, cursor, call, x, y);
    }
  }
}
