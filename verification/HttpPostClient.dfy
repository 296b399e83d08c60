/** The posting client and its sessions as the objects the source writes, proved equal to `HttpPost`. */
module HttpPostClient {
  import opened Base
  import opened HttpPost

  class HttpClient {
    const cfg: Config
    var compress: bool
    var cap: Option<nat>
    var uploads: bool
    var fetched: bool
    /** Every attempt made so far; its length is the position in the outside world's script. */
    var log: seq<Sent>

    function Now(): Client
      reads this
    {
      Client(compress, cap, uploads, fetched)
    }

    constructor (cfg: Config, compressing: bool)
      ensures this.cfg == cfg && Now() == Client(compressing, None, false, false) && log == []
    {
      this.cfg := cfg;
      compress, cap, uploads, fetched, log := compressing, None, false, false, [];
    }

    method Harvest(a: Advert)
      modifies this`compress, this`cap, this`uploads
      ensures Now() == Learn(old(Now()), a)
    {
      if a.cap.Some? {
        cap := a.cap;
      }
      if a.uploads.Some? {
        uploads := a.uploads.value;
      }
      if a.zstd == Some(false) {
        compress := false;
      }
    }

    method Capabilities(env: Env) returns (ok: bool)
      modifies this`compress, this`cap, this`uploads, this`fetched
      ensures ok == (old(fetched) || env.discover(|log|).Some?)
      ensures Now() == if old(fetched) || !ok then old(Now()) else Discovered(old(Now()), env.discover(|log|).value)
    {
      if fetched {
        return true;
      }
      match env.discover(|log|)
      case None =>
        return false;
      case Some(a) =>
        uploads := a.uploads == Some(true);
        if a.cap.Some? {
          cap := a.cap;
        }
        if a.zstd != Some(true) {
          compress := false;
        }
        fetched := true;
        return true;
    }

    /** The retry loop of one round. */
    method SendRound(env: Env, body: Body, attempts: nat) returns (reply: Reply)
      requires attempts > 0
      modifies this`compress, this`cap, this`uploads, this`log
      ensures Outcome(Now(), log, reply)
           == Behind(old(log), Send(cfg, old(Now()), env, |old(log)|, body, attempts))
    {
      hide Send, Learn, Again;
      var attempt := 0;
      while true
        invariant attempt < attempts
        invariant Behind(log, Send(cfg, Now(), env, |log|, body, attempts - attempt))
               == Behind(old(log), Send(cfg, old(Now()), env, |old(log)|, body, attempts))
        decreases attempts - attempt
      {
        var w := env.wire(|log|, body);
        SendUnrolls(cfg, Now(), env, log, body, attempts - attempt);
        log := log + [Sent(body, w)];
        if !w.Halted? {
          Harvest(w.advert);
        }
        if attempt + 1 >= attempts || !Again(cfg, w) {
          return ReplyOf(w);
        }
        attempt := attempt + 1;
      }
    }

    method Inline(env: Env, size: nat, external: bool, attempts: nat) returns (reply: Reply)
      requires attempts > 0
      modifies this
      ensures Outcome(Now(), log, reply)
           == Behind(old(log), PostInline(cfg, old(Now()), env, |old(log)|, size, external, attempts))
    {
      hide Send;
      var known := Capabilities(env);
      if !known || size > Min(cfg.maxRequest, cap) {
        return Failed;
      }
      var compressedAttempt := compress;
      reply := SendRound(env, Body(size, compressedAttempt, external), attempts);
      if reply.Got? && reply.status == 415 && compressedAttempt {
        compress := false;
        reply := SendRound(env, Body(size, false, external), attempts);
      }
      if reply.Got? && !Usable(cfg, reply.status, reply.arrow) {
        reply := Failed;
      }
    }

    /** `externalize_request`: upload the body, learning what the upload's own replies advertise. */
    method Externalize(env: Env) returns (pointed: Option<nat>)
      modifies this`compress, this`cap, this`uploads
      ensures Now() == Learn(old(Now()), env.upload(|log|).advert)
      ensures pointed == match env.upload(|log|) case NotUploaded(_) => None case Uploaded(size, _) => Some(size)
    {
      var up := env.upload(|log|);
      Harvest(up.advert);
      pointed := if up.Uploaded? then Some(up.size) else None;
    }

    method PostCall(env: Env, size: nat, attempts: nat) returns (reply: Reply)
      requires attempts > 0
      modifies this
      ensures Outcome(Now(), log, reply)
           == Behind(old(log), Post(cfg, old(Now()), env, |old(log)|, size, attempts))
    {
      hide PostInline, Usable, Learn, Discovered;
      var known := Capabilities(env);
      if !known {
        return Failed;
      }
      var externalized := false;
      var bodySize := size;
      if size > Min(cfg.maxRequest, cap) && cfg.external && uploads {
        var pointed := Externalize(env);
        if pointed.None? {
          return Failed;
        }
        bodySize, externalized := pointed.value, true;
      }
      reply := Inline(env, bodySize, externalized, attempts);
      if reply.Got? && reply.status == 413 && !externalized && cfg.external && uploads {
        var pointed := Externalize(env);
        if pointed.None? {
          return Failed;
        }
        reply := Inline(env, pointed.value, true, attempts);
      }
      if reply.Got? && reply.status == 413 && !reply.arrow {
        reply := Failed;
      }
    }
  }

  class HttpExchangeSession {
    const client: HttpClient
    var cursor: string
    var isActive: bool

    function Now(): Session
      reads this
    {
      Exchanging(cursor, isActive)
    }

    constructor (client: HttpClient, cursor: string)
      ensures this.client == client && Now() == Exchanging(cursor, true)
    {
      this.client, this.cursor, isActive := client, cursor, true;
    }

    method Exchange(env: Env, valid: bool, encodes: bool, size: nat) returns (ok: bool)
      modifies this, client
      ensures Step(client.Now(), Now(), client.log, ok)
           == var r := Operate(client.cfg, old(client.Now()), old(Now()), env, |old(client.log)|,
               Op.Exchange(valid, encodes, size));
              r.(sent := old(client.log) + r.sent)
    {
      hide Post;
      if !isActive || !valid || !encodes {
        return false;
      }
      isActive := false;
      var reply := client.PostCall(env, size, 1);
      if reply.Failed? {
        return false;
      }
      var turn := env.turn(|client.log|);
      if turn.None? || turn.value == "" {
        return false;
      }
      cursor, isActive := turn.value, true;
      return true;
    }

    method Cancel(env: Env, encodes: bool, size: nat)
      modifies this, client
      ensures Step(client.Now(), Now(), client.log, true)
           == var r := Operate(client.cfg, old(client.Now()), old(Now()), env, |old(client.log)|,
               Op.Cancel(encodes, size));
              r.(sent := old(client.log) + r.sent)
    {
      hide Post;
      if !isActive {
        return;
      }
      isActive := false;
      if encodes {
        var _ := client.PostCall(env, size, 1);
      }
    }

    method Close()
      modifies this
      ensures Now() == Retired(old(Now()))
    {
      isActive := false;
    }
  }

  /** A typed stream session in its exchange role. */
  class ExchangeStream {
    const client: HttpClient
    var cursor: string
    var isFinished: bool
    var isClosed: bool

    function Now(): Session
      reads this
    {
      Streaming(cursor, isFinished, isClosed)
    }

    constructor (client: HttpClient, cursor: string)
      ensures this.client == client && Now() == Streaming(cursor, false, false)
    {
      this.client, this.cursor, isFinished, isClosed := client, cursor, false, false;
    }

    method Exchange(env: Env, valid: bool, encodes: bool, size: nat) returns (ok: bool)
      modifies this, client
      ensures Step(client.Now(), Now(), client.log, ok)
           == var r := Operate(client.cfg, old(client.Now()), old(Now()), env, |old(client.log)|,
               Op.Exchange(valid, encodes, size));
              r.(sent := old(client.log) + r.sent)
    {
      hide Post;
      if isClosed || isFinished || !valid {
        return false;
      }
      isClosed := true;
      if !encodes {
        return false;
      }
      var reply := client.PostCall(env, size, 1);
      if reply.Failed? {
        return false;
      }
      var turn := env.turn(|client.log|);
      if turn.None? {
        return false;
      }
      cursor := turn.value;
      isFinished := cursor == "";
      isClosed := false;
      return true;
    }

    method Close()
      modifies this
      ensures Now() == Retired(old(Now()))
    {
      isClosed := true;
    }

    method Cancel(env: Env, encodes: bool, size: nat)
      modifies this, client
      ensures Step(client.Now(), Now(), client.log, true)
           == var r := Operate(client.cfg, old(client.Now()), old(Now()), env, |old(client.log)|,
               Op.Cancel(encodes, size));
              r.(sent := old(client.log) + r.sent)
    {
      hide Post;
      if !isClosed && !isFinished && cursor != "" && encodes {
        var _ := client.PostCall(env, size, 1);
      }
      Close();
    }
  }
}
