/**
  What one logical call puts on the wire first, when its reply reaches the caller, and what an
  operation of a session makes of it.
 */
module PostOutcomes {
  import opened Base
  import opened HttpPost

  // ---- Discovery ---------------------------------------------------------------------------------------

  /** The first contact decides: what the server does not promise is not used, and its cap replaces a known one. */
  ghost predicate Promised(c: Client, a: Advert, d: Client) {
    && d.fetched
    && (d.compress <==> c.compress && a.zstd == Some(true))
    && (d.uploads <==> a.uploads == Some(true))
    && d.cap == (match a.cap case Some(_) => a.cap case None => c.cap)
  }

  /** Nothing is sent before the server's capabilities are known, and then all is as if they had been. */
  lemma DiscoveryFirst(cfg: Config, c: Client, env: Env, n: nat, size: nat, attempts: nat)
    requires attempts > 0 && !c.fetched
    ensures var o := Post(cfg, c, env, n, size, attempts);
      match env.discover(n)
      case None => o.sent == [] && o.reply.Failed? && o.client == c
      case Some(a) => exists d :: Promised(c, a, d) && o == Post(cfg, d, env, n, size, attempts)
  {
    hide PostInline;
    if env.discover(n).Some? {
      var d := Discovered(c, env.discover(n).value);
      assert Promised(c, env.discover(n).value, d);
    }
  }

  // ---- What goes out first -----------------------------------------------------------------------------

  ghost predicate Fits(cfg: Config, size: nat, cap: Option<nat>) {
    size <= cfg.maxRequest && forall most: nat | cap == Some(most) :: size <= most
  }

  /** The attempts of the first round are all of the body the client would send. */
  lemma RoundsStart(cfg: Config, c: Client, env: Env, n: nat, size: nat, external: bool, attempts: nat)
    requires attempts > 0
    ensures var o := Rounds(cfg, c, env, n, size, external, attempts);
      var body := Body(size, c.compress, external);
      o.sent != [] && o.sent[0] == Sent(body, env.wire(n, body))
  {
    hide Send;
    SendShape(cfg, c, env, n, Body(size, c.compress, external), attempts);
  }

  lemma InlineStart(cfg: Config, c: Client, env: Env, n: nat, size: nat, external: bool, attempts: nat)
    requires attempts > 0 && c.fetched
    ensures var o := PostInline(cfg, c, env, n, size, external, attempts);
      var body := Body(size, c.compress, external);
      if Fits(cfg, size, c.cap) then o.sent != [] && o.sent[0] == Sent(body, env.wire(n, body))
      else o == Outcome(c, [], Failed)
  {
    hide Rounds;
    RoundsStart(cfg, c, env, n, size, external, attempts);
  }

  /**
    A body within the client's own limit and the server's cap goes out as it is; a larger one only as a
    pointer to an upload, if both sides allow uploads, the upload succeeds and the pointer fits what is
    known of the server by then; otherwise nothing goes out and the call fails.
   */
  lemma FirstSent(cfg: Config, c: Client, env: Env, n: nat, size: nat, attempts: nat)
    requires attempts > 0 && c.fetched
    ensures var o, up := Post(cfg, c, env, n, size, attempts), env.upload(n);
      if Fits(cfg, size, c.cap) then
        var body := Body(size, c.compress, false);
        o.sent != [] && o.sent[0] == Sent(body, env.wire(n, body))
      else if cfg.external && c.uploads && up.Uploaded? && Fits(cfg, up.size, LastCap(c.cap, [up.advert])) then
        var body := Body(up.size, c.compress && up.advert.zstd != Some(false), true);
        o.sent != [] && o.sent[0] == Sent(body, env.wire(n, body))
      else o.sent == [] && o.reply.Failed?
  {
    hide PostInline, Fits;
    InlineStart(cfg, c, env, n, size, false, attempts);
    FitsIff(cfg, size, c.cap);
    var up := env.upload(n);
    if up.Uploaded? {
      var d := Learn(c, up.advert);
      assert d.cap == LastCap(c.cap, [up.advert]) by {
        assert [up.advert][..0] == [];
      }
      InlineStart(cfg, d, env, n, up.size, true, attempts);
    }
  }

  lemma FitsIff(cfg: Config, size: nat, cap: Option<nat>)
    ensures Fits(cfg, size, cap) <==> !(size > Min(cfg.maxRequest, cap))
  {
  }

  // ---- What comes back ---------------------------------------------------------------------------------

  /** A complete Arrow reply with any status, success or error, other than a refused credential. */
  predicate Complete(w: Wire) {
    w.Answered? && w.arrow && w.status != 401 && w.status != 403
  }

  lemma InlineReply(cfg: Config, c: Client, env: Env, n: nat, size: nat, external: bool, attempts: nat)
    requires attempts > 0
    ensures var o := PostInline(cfg, c, env, n, size, external, attempts);
      && (o.reply.Got? ==>
            && o.sent != []
            && var w := o.sent[|o.sent| - 1].wire;
            && w.Answered? && w.status == o.reply.status && w.arrow == o.reply.arrow
            && (Complete(w) || (w.status == 413 && cfg.external)))
      && (o.sent != [] && Complete(o.sent[|o.sent| - 1].wire) ==> o.reply.Got?)
      && (cfg.external && o.sent != [] ==>
            var w := o.sent[|o.sent| - 1].wire;
            w.Answered? && w.status == 413 ==> o.reply.Got?)
  {
    hide Rounds, InRounds;
    if c.fetched || env.discover(n).Some? {
      var d := if c.fetched then c else Discovered(c, env.discover(n).value);
      RoundsShape(cfg, d, env, n, size, external, attempts);
    }
  }

  /**
    The caller gets a reply only if the last attempt brought a complete one, and then that one; and it
    gets every complete one, but for a 413 whose body could go out as an upload and did not.
   */
  lemma ReplyIsLast(cfg: Config, c: Client, env: Env, n: nat, size: nat, attempts: nat)
    requires attempts > 0
    ensures var o := Post(cfg, c, env, n, size, attempts);
      && (o.reply.Got? ==>
            && o.sent != []
            && var w := o.sent[|o.sent| - 1].wire;
            Complete(w) && o.reply == Got(w.status, true))
      && (o.sent != [] && Complete(o.sent[|o.sent| - 1].wire) ==>
            o.reply.Got? || (o.sent[|o.sent| - 1].wire.status == 413 && cfg.external))
  {
    hide PostInline, Complete;
    if c.fetched || env.discover(n).Some? {
      var d := if c.fetched then c else Discovered(c, env.discover(n).value);
      InlineReply(cfg, d, env, n, size, false, attempts);
      var first := PostInline(cfg, d, env, n, size, false, attempts);
      var up, again := env.upload(n), env.upload(n + |first.sent|);
      if up.Uploaded? {
        InlineReply(cfg, Learn(d, up.advert), env, n, up.size, true, attempts);
      }
      if again.Uploaded? {
        InlineReply(cfg, Learn(first.client, again.advert), env, n + |first.sent|, again.size, true, attempts);
      }
      CompleteMeans();
    }
  }

  lemma CompleteMeans()
    ensures forall w :: Complete(w) ==> w.Answered? && w.arrow
    ensures forall w: Wire :: w.Answered? && w.arrow && w.status == 413 ==> Complete(w)
  {
  }

  // ---- Sessions ----------------------------------------------------------------------------------------

  /**
    An exchange posts once, over one logical call without retries, and leaves its session able to go on
    exactly when a complete reply names the next cursor; a stream session also succeeds, for the last
    time, with a reply that names none.  An input that is refused leaves the session as it is.
   */
  lemma ExchangeOutcome(cfg: Config, c: Client, s: Session, env: Env, n: nat, valid: bool, encodes: bool, size: nat)
    ensures var r := Operate(cfg, c, s, env, n, Exchange(valid, encodes, size));
      if !s.Open() || !valid then r == Step(c, s, [], false)
      else if !encodes then r.client == c && r.sent == [] && !r.ok && (r.session.Open() <==> s.Exchanging?)
                            && r.session.cursor == s.cursor
      else
        var o := Post(cfg, c, env, n, size, 1);
        var turn := if o.reply.Got? then env.turn(n + |o.sent|) else None;
        && r.client == o.client && r.sent == o.sent && (r.session.Exchanging? <==> s.Exchanging?)
        && (r.session.Open() <==> turn.Some? && turn.value != "")
        && (r.session.Open() ==> Some(r.session.cursor) == turn)
        && (r.ok <==> r.session.Open() || (s.Streaming? && turn == Some("")))
  {
    hide Post;
  }

  /** `cancel()` never reports a failure, posts the cursor of an open session once, and leaves none open. */
  lemma CancelOutcome(cfg: Config, c: Client, s: Session, env: Env, n: nat, encodes: bool, size: nat)
    ensures var r := Operate(cfg, c, s, env, n, Cancel(encodes, size));
      && r.ok && !r.session.Open() && (r.session.Exchanging? <==> s.Exchanging?)
      && r.sent == (if s.Open() && encodes && (s.Streaming? ==> s.cursor != "") then Post(cfg, c, env, n, size, 1).sent
                    else [])
      && r.client == (if s.Open() && encodes && (s.Streaming? ==> s.cursor != "")
                      then Post(cfg, c, env, n, size, 1).client else c)
  {
    hide Post;
  }

  /** `close()` of a session posts nothing. */
  lemma CloseOutcome(cfg: Config, c: Client, s: Session, env: Env, n: nat)
    ensures var r := Operate(cfg, c, s, env, n, Close);
      r.ok && r.sent == [] && r.client == c && !r.session.Open() && (r.session.Exchanging? <==> s.Exchanging?)
  {
  }
}
