/**
  How the HTTP client sends one logical call: retries, the uncompressed resend after a 415, the
  externalized resend after a 413, and the sessions that post a stream's cursor through it.

  Specification functions and laws; the classes that run the loops are in `HttpPostClient`.
 */
module HttpPost {
  import opened Base

  /** What a reply's headers say about the server; an absent header says nothing. */
  datatype Advert = Advert(zstd: Option<bool>, cap: Option<nat>, uploads: Option<bool>)

  /**
    What became of one attempt.  `Halted` is a deadline, a stop or an encoding failure before any
    byte left; `Lost` is every failure after that, whether or not the server ran the method.
   */
  datatype Wire =
    | Halted
    | Lost(retry: bool, dispatched: bool, advert: Advert)
    | Answered(status: nat, arrow: bool, dispatched: bool, advert: Advert)

  /** The server refuses a body by size or by encoding before it dispatches anything. */
  predicate Refused(w: Wire) {
    w.Answered? && (w.status == 413 || w.status == 415)
  }

  predicate Dispatched(w: Wire) {
    !w.Halted? && w.dispatched
  }

  /**
    What is put on the wire: the size it is capped by, whether it is compressed, whether it only
    points at an upload.
   */
  datatype Body = Body(size: nat, compressed: bool, external: bool)

  datatype Upload = NotUploaded(advert: Advert) | Uploaded(size: nat, advert: Advert)

  /** The outside world, indexed by how many attempts the client has made so far. */
  datatype Env = Env(
    wire: (nat, Body) -> Wire,
    discover: nat -> Option<Advert>,
    upload: nat -> Upload,
    turn: nat -> Option<string>)

  ghost predicate Lawful(env: Env) {
    forall n, b :: Refused(env.wire(n, b)) ==> !Dispatched(env.wire(n, b))
  }

  datatype Config = Config(maxRequest: nat, external: bool, statuses: set<nat>)

  datatype Client = Client(compress: bool, cap: Option<nat>, uploads: bool, fetched: bool)

  datatype Sent = Sent(body: Body, wire: Wire)

  datatype Reply = Got(status: nat, arrow: bool) | Failed

  datatype Outcome = Outcome(client: Client, sent: seq<Sent>, reply: Reply)

  function Min(a: nat, b: Option<nat>): nat {
    if b.Some? && b.value < a then b.value else a
  }

  function Or<T>(a: Option<T>, b: Option<T>): Option<T> {
    if a.Some? then a else b
  }

  function Learn(c: Client, a: Advert): Client {
    c.(compress := c.compress && a.zstd != Some(false),
       cap := Or(a.cap, c.cap),
       uploads := if a.uploads.Some? then a.uploads.value else c.uploads)
  }

  function Discovered(c: Client, a: Advert): Client {
    Client(c.compress && a.zstd == Some(true), Or(a.cap, c.cap), a.uploads == Some(true), true)
  }

  predicate Again(cfg: Config, w: Wire) {
    match w
    case Halted => false
    case Lost(retry, _, _) => retry
    case Answered(status, _, _, _) => status != 415 && status in cfg.statuses
  }

  function After(c: Client, w: Wire): Client {
    if w.Halted? then c else Learn(c, w.advert)
  }

  function ReplyOf(w: Wire): Reply {
    if w.Answered? then Got(w.status, w.arrow) else Failed
  }

  /** The retry loop with `left` attempts to go. */
  function Send(cfg: Config, c: Client, env: Env, n: nat, body: Body, left: nat): Outcome
    requires left > 0
    decreases left
  {
    var w := env.wire(n, body);
    if left > 1 && Again(cfg, w) then
      var o := Send(cfg, After(c, w), env, n + 1, body, left - 1);
      o.(sent := [Sent(body, w)] + o.sent)
    else
      Outcome(After(c, w), [Sent(body, w)], ReplyOf(w))
  }

  /** The caller of `post_inline` sees 2xx Arrow replies, Arrow errors, and a bare 413 when it can externalize. */
  predicate Usable(cfg: Config, status: nat, arrow: bool) {
    if status == 401 || status == 403 then false
    else if status < 200 || status >= 300 then (status == 413 && cfg.external) || arrow
    else arrow
  }

  /** A compressed body that comes back 415 is sent again uncompressed, and nothing is compressed after that. */
  function Rounds(cfg: Config, c: Client, env: Env, n: nat, size: nat, external: bool, attempts: nat): Outcome
    requires attempts > 0
  {
    var first := Send(cfg, c, env, n, Body(size, c.compress, external), attempts);
    if first.reply.Got? && first.reply.status == 415 && c.compress then
      var off := first.client.(compress := false);
      var second := Send(cfg, off, env, n + |first.sent|, Body(size, false, external), attempts);
      second.(sent := first.sent + second.sent)
    else first
  }

  function PostInline(cfg: Config, c: Client, env: Env, n: nat, size: nat, external: bool, attempts: nat): Outcome
    requires attempts > 0
  {
    if !c.fetched && env.discover(n).None? then Outcome(c, [], Failed)
    else
      var c := if c.fetched then c else Discovered(c, env.discover(n).value);
      if size > Min(cfg.maxRequest, c.cap) then Outcome(c, [], Failed)
      else
        var o := Rounds(cfg, c, env, n, size, external, attempts);
        if o.reply.Got? && !Usable(cfg, o.reply.status, o.reply.arrow) then o.(reply := Failed) else o
  }

  /** A call whose body is too large to send, or came back 413, is sent as a pointer to an upload, once. */
  function Post(cfg: Config, c: Client, env: Env, n: nat, size: nat, attempts: nat): Outcome
    requires attempts > 0
  {
    if !c.fetched && env.discover(n).None? then Outcome(c, [], Failed)
    else
      var c := if c.fetched then c else Discovered(c, env.discover(n).value);
      if size > Min(cfg.maxRequest, c.cap) && cfg.external && c.uploads then
        match env.upload(n)
        case NotUploaded(a) => Outcome(Learn(c, a), [], Failed)
        case Uploaded(pointed, a) => Barred(PostInline(cfg, Learn(c, a), env, n, pointed, true, attempts))
      else
        var first := PostInline(cfg, c, env, n, size, false, attempts);
        if first.reply.Got? && first.reply.status == 413 && cfg.external && first.client.uploads then
          match env.upload(n + |first.sent|)
          case NotUploaded(a) => Outcome(Learn(first.client, a), first.sent, Failed)
          case Uploaded(pointed, a) =>
            var sent := |first.sent|;
            var second := Barred(PostInline(cfg, Learn(first.client, a), env, n + sent, pointed, true, attempts));
            second.(sent := first.sent + second.sent)
        else Barred(first)
  }

  /** A 413 that is not an Arrow error ends the call. */
  function Barred(o: Outcome): Outcome {
    if o.reply.Got? && o.reply.status == 413 && !o.reply.arrow then o.(reply := Failed) else o
  }

  /** The same outcome behind what was sent before. */
  function Behind(log: seq<Sent>, o: Outcome): Outcome {
    o.(sent := log + o.sent)
  }

  lemma SendUnrolls(cfg: Config, c: Client, env: Env, log: seq<Sent>, body: Body, left: nat)
    requires left > 0
    ensures var w := env.wire(|log|, body);
      Behind(log, Send(cfg, c, env, |log|, body, left))
        == if left > 1 && Again(cfg, w)
           then Behind(log + [Sent(body, w)], Send(cfg, After(c, w), env, |log| + 1, body, left - 1))
           else Outcome(After(c, w), log + [Sent(body, w)], ReplyOf(w))
  {
  }

  // ---- How often a call is posted, and run --------------------------------------------------------

  function Posts(sent: seq<Sent>): nat {
    if sent == [] then 0 else (if sent[0].wire.Halted? then 0 else 1) + Posts(sent[1..])
  }

  function Dispatches(sent: seq<Sent>): nat {
    if sent == [] then 0 else (if Dispatched(sent[0].wire) then 1 else 0) + Dispatches(sent[1..])
  }

  lemma {:induction false} PostsAtMost(sent: seq<Sent>)
    ensures Posts(sent) <= |sent|
  {
    if sent != [] {
      PostsAtMost(sent[1..]);
    }
  }

  /** Every attempt but the last was refused before dispatch. */
  predicate Refusals(sent: seq<Sent>) {
    forall i | 0 <= i < |sent| - 1 :: Refused(sent[i].wire)
  }

  lemma {:induction false} RefusalsDispatchOnce(sent: seq<Sent>)
    requires Refusals(sent) && forall s <- sent :: Refused(s.wire) ==> !Dispatched(s.wire)
    ensures Dispatches(sent) <= 1
    ensures Dispatches(sent) == 1 ==> Dispatched(sent[|sent| - 1].wire) && !Refused(sent[|sent| - 1].wire)
  {
    if |sent| > 1 {
      assert Refused(sent[0].wire);
      RefusalsDispatchOnce(sent[1..]);
    }
  }

  ghost predicate FromEnv(sent: seq<Sent>, env: Env, n: nat) {
    forall i | 0 <= i < |sent| :: sent[i].wire == env.wire(n + i, sent[i].body)
  }

  lemma AfterKeepsOff(c: Client, w: Wire)
    ensures After(c, w).compress ==> c.compress
  {
  }

  /** What the attempts of one retry loop look like. */
  ghost predicate Shaped(cfg: Config, env: Env, n: nat, body: Body, left: nat, sent: seq<Sent>) {
    && 1 <= |sent| <= left && FromEnv(sent, env, n)
    && (forall s <- sent :: s.body == body)
    && (forall i | 0 <= i < |sent| - 1 :: Again(cfg, sent[i].wire))
    && (|sent| < left ==> !Again(cfg, sent[|sent| - 1].wire))
  }

  lemma ShapedCons(cfg: Config, env: Env, n: nat, body: Body, left: nat, first: Sent, rest: seq<Sent>)
    requires left > 0 && Shaped(cfg, env, n + 1, body, left - 1, rest)
    requires first == Sent(body, env.wire(n, body)) && Again(cfg, first.wire)
    ensures Shaped(cfg, env, n, body, left, [first] + rest)
  {
  }

  lemma {:induction false} SendShape(cfg: Config, c: Client, env: Env, n: nat, body: Body, left: nat)
    requires left > 0
    ensures var o := Send(cfg, c, env, n, body, left);
      && Shaped(cfg, env, n, body, left, o.sent)
      && o.reply == ReplyOf(o.sent[|o.sent| - 1].wire)
      && (o.client.compress ==> c.compress)
    decreases left
  {
    var w := env.wire(n, body);
    hide After;
    AfterKeepsOff(c, w);
    if left > 1 && Again(cfg, w) {
      hide Shaped;
      SendShape(cfg, After(c, w), env, n + 1, body, left - 1);
      var rest := Send(cfg, After(c, w), env, n + 1, body, left - 1);
      ShapedCons(cfg, env, n, body, left, Sent(body, w), rest.sent);
      ShapedSome(cfg, env, n + 1, body, left - 1, rest.sent);
    }
  }

  lemma ShapedSome(cfg: Config, env: Env, n: nat, body: Body, left: nat, sent: seq<Sent>)
    requires Shaped(cfg, env, n, body, left, sent)
    ensures sent != []
  {
  }

  predicate Unsupported(w: Wire) {
    w.Answered? && w.status == 415
  }

  /**
    The first `k` attempts are one retry loop over the body as the client would send it.  If they
    end in a 415 to a compressed body the others are one more over the uncompressed body, and nothing
    is compressed from then on; if they do not, there are no others.
   */
  ghost predicate InRounds(cfg: Config, c: Client, env: Env, n: nat, size: nat, external: bool, attempts: nat,
                           o: Outcome, k: nat) {
    && 0 < k <= |o.sent|
    && Shaped(cfg, env, n, Body(size, c.compress, external), attempts, o.sent[..k])
    && if c.compress && Unsupported(o.sent[k - 1].wire)
       then Shaped(cfg, env, n + k, Body(size, false, external), attempts, o.sent[k..]) && !o.client.compress
       else k == |o.sent|
  }

  lemma RoundsShape(cfg: Config, c: Client, env: Env, n: nat, size: nat, external: bool, attempts: nat)
    requires attempts > 0
    ensures var o := Rounds(cfg, c, env, n, size, external, attempts);
      && (exists k :: InRounds(cfg, c, env, n, size, external, attempts, o, k))
      && o.sent != [] && o.reply == ReplyOf(o.sent[|o.sent| - 1].wire)
      && (o.client.compress ==> c.compress)
  {
    hide Send, Shaped;
    var body, plain := Body(size, c.compress, external), Body(size, false, external);
    var first := Send(cfg, c, env, n, body, attempts);
    var k := |first.sent|;
    var off := first.client.(compress := false);
    var second := Send(cfg, off, env, n + k, plain, attempts);
    SendShape(cfg, c, env, n, body, attempts);
    SendShape(cfg, off, env, n + k, plain, attempts);
    ShapedSome(cfg, env, n, body, attempts, first.sent);
    ShapedSome(cfg, env, n + k, plain, attempts, second.sent);
    var o := Rounds(cfg, c, env, n, size, external, attempts);
    assert o.sent[..k] == first.sent && (k < |o.sent| ==> o.sent[k..] == second.sent);
    assert InRounds(cfg, c, env, n, size, external, attempts, o, k);
  }

  lemma RoundsBounds(cfg: Config, c: Client, env: Env, n: nat, size: nat, external: bool, attempts: nat,
                     o: Outcome, k: nat)
    requires InRounds(cfg, c, env, n, size, external, attempts, o, k)
    ensures FromEnv(o.sent, env, n)
    ensures |o.sent| <= attempts || (|o.sent| <= attempts + attempts && c.compress && !o.client.compress)
    ensures attempts == 1 ==> Refusals(o.sent)
  {
    var a, b := o.sent[..k], o.sent[k..];
    assert o.sent == a + b;
    if k < |o.sent| {
      forall i | 0 <= i < |o.sent|
        ensures o.sent[i].wire == env.wire(n + i, o.sent[i].body)
      {
        if i < k {
          assert o.sent[i] == a[i];
        } else {
          assert o.sent[i] == b[i - k];
        }
      }
    }
  }

  /** One inline post: at most two rounds, the second only uncompressed and after a 415 to a compressed body. */
  lemma PostInlineShape(cfg: Config, c: Client, env: Env, n: nat, size: nat, external: bool, attempts: nat)
    requires attempts > 0
    ensures var o := PostInline(cfg, c, env, n, size, external, attempts);
      && FromEnv(o.sent, env, n)
      && (|o.sent| <= attempts || (|o.sent| <= attempts + attempts && c.compress && !o.client.compress))
      && (o.client.compress ==> c.compress)
      && (attempts == 1 ==> Refusals(o.sent))
      && (o.reply.Got? ==>
            && o.sent != [] && o.reply == ReplyOf(o.sent[|o.sent| - 1].wire)
            && Usable(cfg, o.reply.status, o.reply.arrow))
  {
    hide Rounds, Refusals, FromEnv, Usable, InRounds;
    if c.fetched || env.discover(n).Some? {
      var d := if c.fetched then c else Discovered(c, env.discover(n).value);
      RoundsShape(cfg, d, env, n, size, external, attempts);
      var o := Rounds(cfg, d, env, n, size, external, attempts);
      var k :| InRounds(cfg, d, env, n, size, external, attempts, o, k);
      RoundsBounds(cfg, d, env, n, size, external, attempts, o, k);
    }
    EmptyShape(env, n);
  }

  lemma EmptyShape(env: Env, n: nat)
    ensures FromEnv([], env, n) && Refusals([])
  {
  }

  lemma Joined(first: seq<Sent>, second: seq<Sent>, env: Env, n: nat)
    requires first != [] && Refused(first[|first| - 1].wire)
    requires FromEnv(first, env, n) && FromEnv(second, env, n + |first|)
    ensures FromEnv(first + second, env, n)
    ensures Refusals(first) && Refusals(second) ==> Refusals(first + second)
  {
  }

  /**
    One logical call, whatever the network does: it is posted at most three times per attempt it is
    allowed, and when it is allowed one attempt every post but the last was refused undispatched.
   */
  lemma PostShape(cfg: Config, c: Client, env: Env, n: nat, size: nat, attempts: nat)
    requires attempts > 0
    ensures var o := Post(cfg, c, env, n, size, attempts);
      && FromEnv(o.sent, env, n)
      && |o.sent| <= 3 * attempts
      && (attempts == 1 ==> Refusals(o.sent))
      && (o.reply.Got? ==> o.sent != [] && o.reply == ReplyOf(o.sent[|o.sent| - 1].wire) && o.reply.arrow)
  {
    hide PostInline, Refusals, FromEnv;
    EmptyShape(env, n);
    if c.fetched || env.discover(n).Some? {
      var d := if c.fetched then c else Discovered(c, env.discover(n).value);
      PostInlineShape(cfg, d, env, n, size, false, attempts);
      var first := PostInline(cfg, d, env, n, size, false, attempts);
      var up := env.upload(n);
      if up.Uploaded? {
        PostInlineShape(cfg, Learn(d, up.advert), env, n, up.size, true, attempts);
      }
      var again := env.upload(n + |first.sent|);
      if again.Uploaded? {
        PostInlineShape(cfg, Learn(first.client, again.advert), env, n + |first.sent|, again.size, true, attempts);
        if first.reply.Got? && first.reply.status == 413 {
          var m := n + |first.sent|;
          var second := PostInline(cfg, Learn(first.client, again.advert), env, m, again.size, true, attempts);
          Joined(first.sent, second.sent, env, n);
        }
      }
    }
  }

  lemma PostBound(cfg: Config, c: Client, env: Env, n: nat, size: nat, attempts: nat)
    requires attempts > 0
    ensures Posts(Post(cfg, c, env, n, size, attempts).sent) <= 3 * attempts
  {
    PostShape(cfg, c, env, n, size, attempts);
    PostsAtMost(Post(cfg, c, env, n, size, attempts).sent);
  }

  /** A call that is not retried is run at most once by a server that refuses before it dispatches. */
  lemma PostDispatchesOnce(cfg: Config, c: Client, env: Env, n: nat, size: nat)
    requires Lawful(env)
    ensures Dispatches(Post(cfg, c, env, n, size, 1).sent) <= 1
  {
    PostShape(cfg, c, env, n, size, 1);
    RefusalsDispatchOnce(Post(cfg, c, env, n, size, 1).sent);
  }

  predicate TooLarge(size: nat, limit: Option<nat>) {
    limit.Some? && size > limit.value
  }

  const NO_NEWS := Advert(None, None, None)

  // ---- Retries -------------------------------------------------------------------------------------

  /** Loss or answer that a caller who allows retries is told to try again behind. */
  predicate Passing(cfg: Config, w: Wire) {
    || (w.Lost? && w.retry)
    || (w.Answered? && w.status in cfg.statuses && w.status != 415)
  }

  /** What the adverts of a run of replies leave known: of each thing, what was last said of it. */
  predicate Known(before: Client, adverts: seq<Advert>, after: Client) {
    && after.cap == LastCap(before.cap, adverts)
    && after.uploads == LastUploads(before.uploads, adverts)
    && (after.compress <==> before.compress && forall a <- adverts :: a.zstd != Some(false))
    && after.fetched == before.fetched
  }

  function LastCap(before: Option<nat>, adverts: seq<Advert>): Option<nat> {
    if adverts == [] then before
    else if adverts[|adverts| - 1].cap.Some? then adverts[|adverts| - 1].cap
    else LastCap(before, adverts[..|adverts| - 1])
  }

  function LastUploads(before: bool, adverts: seq<Advert>): bool {
    if adverts == [] then before
    else if adverts[|adverts| - 1].uploads.Some? then adverts[|adverts| - 1].uploads.value
    else LastUploads(before, adverts[..|adverts| - 1])
  }

  /** What the first `k` attempts from `n` brought back of the server's headers. */
  function Heard(env: Env, n: nat, body: Body, k: nat): seq<Advert> {
    if k == 0 then []
    else
      var w := env.wire(n + k - 1, body);
      Heard(env, n, body, k - 1) + if w.Halted? then [] else [w.advert]
  }

  lemma KnownOne(c: Client, w: Wire)
    ensures Known(c, if w.Halted? then [] else [w.advert], After(c, w))
  {
    if !w.Halted? {
      var one := [w.advert];
      assert one[..|one| - 1] == [] && one[|one| - 1] == w.advert;
      assert forall a <- one :: a == w.advert;
      assert w.advert in one;
      var d := After(c, w);
      assert d.cap == LastCap(c.cap, one);
      assert d.uploads == LastUploads(c.uploads, one);
      assert d.compress <==> c.compress && forall a <- one :: a.zstd != Some(false);
    }
  }

  lemma {:induction false} LastAfter(cap: Option<nat>, uploads: bool, a: Advert, rest: seq<Advert>)
    ensures LastCap(cap, [a] + rest) == LastCap(LastCap(cap, [a]), rest)
    ensures LastUploads(uploads, [a] + rest) == LastUploads(LastUploads(uploads, [a]), rest)
    decreases |rest|
  {
    if rest == [] {
      assert [a] + rest == [a];
    } else {
      var all, init := [a] + rest, rest[..|rest| - 1];
      assert all[..|all| - 1] == [a] + init && all[|all| - 1] == rest[|rest| - 1];
      LastAfter(cap, uploads, a, init);
    }
  }

  lemma KnownThen(c: Client, d: Client, e: Client, w: Wire, rest: seq<Advert>)
    requires d == After(c, w) && Known(d, rest, e)
    ensures Known(c, (if w.Halted? then [] else [w.advert]) + rest, e)
  {
    KnownOne(c, w);
    if w.Halted? {
      assert [] + rest == rest;
    } else {
      LastAfter(c.cap, c.uploads, w.advert, rest);
      var all := [w.advert] + rest;
      assert w.advert == all[0] && all[1..] == rest;
      assert (forall a <- all :: a.zstd != Some(false))
          <==> w.advert.zstd != Some(false) && forall a <- rest :: a.zstd != Some(false) by {
        assert forall a :: a in all <==> a == w.advert || a in rest;
      }
    }
  }

  lemma {:induction false} HeardFrom(env: Env, n: nat, body: Body, k: nat)
    requires k > 0
    ensures var w := env.wire(n, body);
      Heard(env, n, body, k) == (if w.Halted? then [] else [w.advert]) + Heard(env, n + 1, body, k - 1)
    decreases k
  {
    var w := env.wire(n, body);
    var one: seq<Advert> := if w.Halted? then [] else [w.advert];
    if k == 1 {
      assert Heard(env, n, body, 0) == [] && [] + one == one && one + [] == one;
    } else {
      var v := env.wire(n + k - 1, body);
      var last: seq<Advert> := if v.Halted? then [] else [v.advert];
      HeardFrom(env, n, body, k - 1);
      Assoc(one, Heard(env, n + 1, body, k - 2), last);
    }
  }

  /**
    The retry loop tries again exactly behind what may be retried: if the first `k` attempts are so
    and attempt `k` is not, or is the last one allowed, it makes `k + 1` attempts, answers as the last
    did, and has learnt what every reply said of the server.
   */
  lemma {:induction false} SendRetries(cfg: Config, c: Client, env: Env, n: nat, body: Body, left: nat, k: nat)
    requires k < left && (forall j | n <= j < n + k :: Passing(cfg, env.wire(j, body)))
    requires k + 1 == left || !Passing(cfg, env.wire(n + k, body))
    ensures var o := Send(cfg, c, env, n, body, left);
      var last := env.wire(n + k, body);
      && |o.sent| == k + 1
      && (forall i | 0 <= i <= k :: o.sent[i] == Sent(body, env.wire(n + i, body)))
      && o.reply == (match last case Answered(status, arrow, _, _) => Got(status, arrow) case _ => Failed)
      && Known(c, Heard(env, n, body, k + 1), o.client)
    decreases k
  {
    hide After, Known, Heard;
    var w := env.wire(n, body);
    HeardFrom(env, n, body, k + 1);
    if k == 0 {
      KnownOne(c, w);
      HeardNothing(env, n + 1, body);
    } else {
      assert Passing(cfg, w);
      SendRetries(cfg, After(c, w), env, n + 1, body, left - 1, k - 1);
      var o := Send(cfg, After(c, w), env, n + 1, body, left - 1);
      KnownThen(c, After(c, w), o.client, w, Heard(env, n + 1, body, k));
      forall i | 0 <= i <= k
        ensures ([Sent(body, w)] + o.sent)[i] == Sent(body, env.wire(n + i, body))
      {
        if i > 0 {
          assert o.sent[i - 1] == Sent(body, env.wire(n + 1 + (i - 1), body));
        }
      }
    }
  }

  lemma HeardNothing(env: Env, n: nat, body: Body)
    ensures Heard(env, n, body, 0) == [] && forall s: seq<Advert> :: s + [] == s
  {
  }

  /**
    From its attempt `from` on, a server that refuses what it must, compressed bodies or bodies that
    are too large, and answers everything else.
   */
  ghost predicate Willing(env: Env, from: nat, zstd: bool, limit: Option<nat>) {
    && (forall n, b | n >= from :: env.wire(n, b)
          == if b.compressed && !zstd then Answered(415, false, false, NO_NEWS)
             else if limit.Some? && b.size > limit.value then Answered(413, false, false, NO_NEWS)
             else Answered(200, true, true, NO_NEWS))
    && (forall n :: env.upload(n).Uploaded? && env.upload(n).advert == NO_NEWS)
  }

  /** Until then it is too busy to run anything, and says nothing of itself: every attempt may be tried again. */
  ghost predicate Busy(cfg: Config, env: Env, n: nat, from: nat) {
    forall j, b | n <= j < from ::
      Passing(cfg, env.wire(j, b)) && !Dispatched(env.wire(j, b)) && env.wire(j, b).advert == NO_NEWS
  }

  lemma {:induction false} NoNewsIsNothing(c: Client, adverts: seq<Advert>, d: Client)
    requires Known(c, adverts, d) && forall a <- adverts :: a == NO_NEWS
    ensures d == c
  {
    LastOfNoNews(c.cap, c.uploads, adverts);
  }

  lemma {:induction false} LastOfNoNews(cap: Option<nat>, uploads: bool, adverts: seq<Advert>)
    requires forall a <- adverts :: a == NO_NEWS
    ensures LastCap(cap, adverts) == cap && LastUploads(uploads, adverts) == uploads
    decreases |adverts|
  {
    if adverts != [] {
      var init := adverts[..|adverts| - 1];
      assert adverts[|adverts| - 1] in adverts && forall a <- init :: a in adverts;
      LastOfNoNews(cap, uploads, init);
    }
  }

  lemma {:induction false} HeardNoNews(env: Env, n: nat, body: Body, k: nat)
    requires forall j | n <= j < n + k :: !env.wire(j, body).Halted? ==> env.wire(j, body).advert == NO_NEWS
    ensures forall a <- Heard(env, n, body, k) :: a == NO_NEWS
    decreases k
  {
    if k > 0 {
      HeardNoNews(env, n, body, k - 1);
    }
  }

  lemma {:induction false} OnlyLastDispatched(sent: seq<Sent>)
    requires sent != [] && forall i | 0 <= i < |sent| - 1 :: !Dispatched(sent[i].wire)
    ensures Dispatches(sent) == if Dispatched(sent[|sent| - 1].wire) then 1 else 0
  {
    if |sent| > 1 {
      OnlyLastDispatched(sent[1..]);
    }
  }

  /** One loop against such a server ends with the first answer that it gives of its own. */
  lemma LoopGetsThrough(cfg: Config, c: Client, env: Env, n: nat, busy: nat, body: Body, attempts: nat,
                        zstd: bool, limit: Option<nat>)
    requires busy < attempts && Busy(cfg, env, n, n + busy) && Willing(env, n + busy, zstd, limit)
    requires 200 !in cfg.statuses && 413 !in cfg.statuses
    ensures var o := Send(cfg, c, env, n, body, attempts);
      && |o.sent| == busy + 1 && o.client == c
      && o.reply == (if body.compressed && !zstd then Got(415, false)
                     else if TooLarge(body.size, limit) then Got(413, false) else Got(200, true))
      && Dispatches(o.sent) == (if o.reply == Got(200, true) then 1 else 0)
  {
    hide Send, Dispatches, Known, Heard;
    SendRetries(cfg, c, env, n, body, attempts, busy);
    var o := Send(cfg, c, env, n, body, attempts);
    HeardNoNews(env, n, body, busy + 1);
    NoNewsIsNothing(c, Heard(env, n, body, busy + 1), o.client);
    forall i | 0 <= i < |o.sent| - 1
      ensures !Dispatched(o.sent[i].wire)
    {
      assert o.sent[i] == Sent(body, env.wire(n + i, body));
    }
    assert o.sent[busy] == Sent(body, env.wire(n + busy, body));
    OnlyLastDispatched(o.sent);
  }

  lemma RoundsGetThrough(cfg: Config, c: Client, env: Env, n: nat, busy: nat, size: nat, external: bool, attempts: nat,
                         zstd: bool, limit: Option<nat>)
    requires busy < attempts && Busy(cfg, env, n, n + busy) && Willing(env, n + busy, zstd, limit)
    requires 200 !in cfg.statuses && 413 !in cfg.statuses
    ensures var o := Rounds(cfg, c, env, n, size, external, attempts);
      && o.reply == (if TooLarge(size, limit) then Got(413, false) else Got(200, true))
      && o.client == c.(compress := c.compress && zstd)
      && Dispatches(o.sent) == (if TooLarge(size, limit) then 0 else 1)
      && |o.sent| > busy
  {
    hide Send, Dispatches, Busy, Willing;
    var body, plain := Body(size, c.compress, external), Body(size, false, external);
    LoopGetsThrough(cfg, c, env, n, busy, body, attempts, zstd, limit);
    var m := n + busy + 1;
    StaysWilling(cfg, env, n + busy, m, zstd, limit);
    LoopGetsThrough(cfg, c.(compress := false), env, m, 0, plain, attempts, zstd, limit);
    DispatchesAppend(Send(cfg, c, env, n, body, attempts).sent,
                     Send(cfg, c.(compress := false), env, m, plain, attempts).sent);
  }

  lemma StaysWilling(cfg: Config, env: Env, from: nat, m: nat, zstd: bool, limit: Option<nat>)
    requires Willing(env, from, zstd, limit) && from <= m
    ensures Willing(env, m, zstd, limit) && Busy(cfg, env, m, m + 0)
  {
  }

  /**
    Whatever such a server refuses, and however often it is too busy first, one call gets through to
    it and is run once, if its attempts outlast the server's busy ones.
   */
  lemma CallGetsThrough(cfg: Config, c: Client, env: Env, n: nat, busy: nat, size: nat, attempts: nat, zstd: bool,
                        limit: Option<nat>)
    requires busy < attempts && Busy(cfg, env, n, n + busy) && Willing(env, n + busy, zstd, limit)
    requires 200 !in cfg.statuses && 413 !in cfg.statuses
    requires c.fetched && c.uploads && cfg.external
    requires forall k :: env.upload(k).Uploaded? ==> env.upload(k).size <= Min(Min(cfg.maxRequest, c.cap), limit)
    ensures var o := Post(cfg, c, env, n, size, attempts);
      && o.reply == Got(200, true) && Dispatches(o.sent) == 1
      && o.client == c.(compress := c.compress && zstd)
  {
    hide Rounds, Busy;
    var first := Rounds(cfg, c, env, n, size, false, attempts);
    RoundsGetThrough(cfg, c, env, n, busy, size, false, attempts, zstd, limit);
    RoundsGetThrough(cfg, c, env, n, busy, env.upload(n).size, true, attempts, zstd, limit);
    var m := n + |first.sent|;
    StaysWilling(cfg, env, n + busy, m, zstd, limit);
    RoundsGetThrough(cfg, first.client, env, m, 0, env.upload(m).size, true, attempts, zstd, limit);
    DispatchesAppend(first.sent, Rounds(cfg, first.client, env, m, env.upload(m).size, true, attempts).sent);
  }

  lemma {:induction false} DispatchesAppend(a: seq<Sent>, b: seq<Sent>)
    ensures Dispatches(a + b) == Dispatches(a) + Dispatches(b)
  {
    if a == [] {
      assert a + b == b;
    } else {
      assert (a + b)[1..] == a[1..] + b;
      DispatchesAppend(a[1..], b);
    }
  }

  // ---- Sessions -------------------------------------------------------------------------------------

  /** An exchange session, or a typed stream session in its exchange role: what it holds between operations. */
  datatype Session =
    | Exchanging(cursor: string, active: bool)
    | Streaming(cursor: string, finished: bool, closed: bool)
  {
    /** May this session still put its cursor on the wire? */
    predicate Open() {
      if Exchanging? then active else !finished && !closed
    }
  }

  /** `valid` is an input that is present and fits the schema, `encodes` one that fits the request cap. */
  datatype Op = Exchange(valid: bool, encodes: bool, size: nat) | Cancel(encodes: bool, size: nat) | Close

  datatype Step = Step(client: Client, session: Session, sent: seq<Sent>, ok: bool)

  /** The session from the moment it commits to sending: retired until a complete reply revives it. */
  function Retired(s: Session): Session {
    if s.Exchanging? then s.(active := false) else s.(closed := true)
  }

  /** A complete reply: `Some(cursor)` is one data batch with its cursor, `Some("")` a turn without a cursor. */
  function Revived(s: Session, turn: Option<string>): Session {
    match turn
    case None => Retired(s)
    case Some(next) =>
      if s.Exchanging? then (if next == "" then Retired(s) else Exchanging(next, true))
      else Streaming(next, next == "", false)
  }

  function Operate(cfg: Config, c: Client, s: Session, env: Env, n: nat, op: Op): Step {
    match op
    case Exchange(valid, encodes, size) =>
      if !s.Open() || !valid then Step(c, s, [], false)
      else if !encodes then Step(c, if s.Exchanging? then s else Retired(s), [], false)
      else
        var o := Post(cfg, c, env, n, size, 1);
        var turn := if o.reply.Got? then env.turn(n + |o.sent|) else None;
        Step(o.client, Revived(s, turn), o.sent, Revived(s, turn) != Retired(s))
    case Cancel(encodes, size) =>
      if !s.Open() || (s.Streaming? && s.cursor == "") then Step(c, if s.Exchanging? then s else Retired(s), [], true)
      else if !encodes then Step(c, Retired(s), [], true)
      else
        var o := Post(cfg, c, env, n, size, 1);
        Step(o.client, Retired(s), o.sent, true)
    case Close => Step(c, Retired(s), [], true)
  }

  /** One operation dispatches at most one turn, and only a complete reply leaves the session able to send again. */
  lemma OperateOnce(cfg: Config, c: Client, s: Session, env: Env, n: nat, op: Op)
    requires Lawful(env)
    ensures var r := Operate(cfg, c, s, env, n, op);
      && Dispatches(r.sent) <= 1
      && (!s.Open() ==> r.sent == [] && !r.session.Open())
      && (r.sent != [] && r.session.Open() ==> r.ok && op.Exchange? && r.sent[|r.sent| - 1].wire.Answered?)
  {
    hide Post;
    match op
    case Exchange(_, _, size) => PostDispatchesOnce(cfg, c, env, n, size); PostShape(cfg, c, env, n, size, 1);
    case Cancel(_, size) => PostDispatchesOnce(cfg, c, env, n, size);
    case Close =>
  }

  /** Everything a session posts over a run of operations, operation by operation. */
  function Run(cfg: Config, c: Client, s: Session, env: Env, n: nat, ops: seq<Op>): seq<Step>
    decreases ops
  {
    if ops == [] then []
    else
      var r := Operate(cfg, c, s, env, n, ops[0]);
      [r] + Run(cfg, r.client, r.session, env, n + |r.sent|, ops[1..])
  }

  /** A session that cannot send never does again. */
  lemma {:induction false} ShutStaysShut(cfg: Config, c: Client, s: Session, env: Env, n: nat, ops: seq<Op>)
    requires Lawful(env) && !s.Open()
    ensures |Run(cfg, c, s, env, n, ops)| == |ops|
    ensures forall r <- Run(cfg, c, s, env, n, ops) :: r.sent == [] && !r.session.Open()
    decreases ops
  {
    hide Operate;
    if ops != [] {
      OperateOnce(cfg, c, s, env, n, ops[0]);
      var r := Operate(cfg, c, s, env, n, ops[0]);
      ShutStaysShut(cfg, r.client, r.session, env, n + |r.sent|, ops[1..]);
    }
  }

  /** It posted, and no complete turn came back. */
  predicate Ambiguous(op: Op, r: Step) {
    r.sent != [] && !(r.ok && op.Exchange?)
  }

  ghost predicate SafeRun(ops: seq<Op>, run: seq<Step>) {
    && |run| == |ops|
    && (forall r <- run :: Dispatches(r.sent) <= 1)
    && (forall i, j :: 0 <= i < j < |run| && Ambiguous(ops[i], run[i]) ==> run[j].sent == [])
  }

  lemma SafeCons(op: Op, r: Step, ops: seq<Op>, rest: seq<Step>)
    requires SafeRun(ops, rest) && Dispatches(r.sent) <= 1
    requires Ambiguous(op, r) ==> forall x <- rest :: x.sent == []
    ensures SafeRun([op] + ops, [r] + rest)
  {
    hide Dispatches, Ambiguous;
    var all, run := [op] + ops, [r] + rest;
    assert forall k | 0 < k < |run| :: run[k] == rest[k - 1] && all[k] == ops[k - 1];
    forall i, j | 0 <= i < j < |run| && Ambiguous(all[i], run[i]) ensures run[j].sent == [] {
      assert run[j] in rest;
      if i > 0 {
        assert Ambiguous(ops[i - 1], rest[i - 1]) && rest[j - 1] == run[j];
      }
    }
  }

  /**
    At-most-once exchange, over every run of operations and every pattern of lost replies, 415 and
    413: one operation dispatches at most one turn, and after an operation that posted without
    getting a complete turn back, the session's cursor is never posted again.
   */
  lemma {:induction false} AtMostOnce(cfg: Config, c: Client, s: Session, env: Env, n: nat, ops: seq<Op>)
    requires Lawful(env)
    ensures SafeRun(ops, Run(cfg, c, s, env, n, ops))
    decreases ops
  {
    hide Operate, Dispatches, Lawful, SafeRun;
    if ops == [] {
      NothingIsSafe();
    } else {
      OperateOnce(cfg, c, s, env, n, ops[0]);
      var r := Operate(cfg, c, s, env, n, ops[0]);
      AtMostOnce(cfg, r.client, r.session, env, n + |r.sent|, ops[1..]);
      if !r.session.Open() {
        ShutStaysShut(cfg, r.client, r.session, env, n + |r.sent|, ops[1..]);
      }
      SafeCons(ops[0], r, ops[1..], Run(cfg, r.client, r.session, env, n + |r.sent|, ops[1..]));
      assert ops == [ops[0]] + ops[1..];
    }
  }

  lemma NothingIsSafe()
    ensures SafeRun([], [])
  {
  }
}
