/** What a turn means survives its framing: decoding inverts encoding, inline and through storage. */
module FramingLaws {
  import opened Base
  import opened Wire
  import opened Framing

  // ---- Metadata ----------------------------------------------------------------------------

  predicate NoDup(md: Metadata) {
    forall i, j | 0 <= i < j < |md| :: md[i].key != md[j].key
  }

  lemma MergeSplit(acc: Metadata, a: Metadata, b: Metadata)
    ensures Merge(acc, a + b) == Merge(Merge(acc, a), b)
    decreases |a|
  {
    if a == [] {
      assert a + b == b;
    } else {
      assert (a + b)[1..] == a[1..] + b;
      MergeSplit(Erase(acc, a[0].key) + [a[0]], a[1..], b);
    }
  }

  lemma MergeOne(md: Metadata, f: Field)
    ensures Merge(md, [f]) == Erase(md, f.key) + [f]
  {
    assert [f][1..] == [];
    assert Merge(md, [f]) == Merge(Erase(md, f.key) + [f], [f][1..]);
  }

  lemma MergeHas(acc: Metadata, md: Metadata, key: Key)
    ensures Has(Merge(acc, md), key) <==> Has(acc, key) || Has(md, key)
    decreases |md|
  {
    if md != [] {
      EraseHas(acc, md[0].key);
      HasAppend(Erase(acc, md[0].key), [md[0]]);
      HasCons([md[0]]);
      HasCons(md);
      MergeHas(Erase(acc, md[0].key) + [md[0]], md[1..], key);
    }
  }

  lemma NoDupHead(md: Metadata)
    requires md != [] && NoDup(md)
    ensures NoDup(md[1..]) && !Has(md[1..], md[0].key)
  {
  }

  lemma EraseKeepsNoDup(md: Metadata, key: Key)
    requires NoDup(md)
    ensures NoDup(Erase(md, key))
  {
    if md != [] {
      NoDupHead(md);
      EraseKeepsNoDup(md[1..], key);
      EraseHas(md[1..], key);
      EraseHas(md[1..], md[0].key);
    }
  }

  lemma MergeIsNoDup(acc: Metadata, md: Metadata)
    requires NoDup(acc)
    ensures NoDup(Merge(acc, md))
    decreases |md|
  {
    if md != [] {
      EraseKeepsNoDup(acc, md[0].key);
      EraseHas(acc, md[0].key);
      MergeIsNoDup(Erase(acc, md[0].key) + [md[0]], md[1..]);
    }
  }

  lemma FirstIsNew(acc: Metadata, md: Metadata)
    requires NoDup(acc + md) && md != []
    ensures !Has(acc, md[0].key)
  {
    forall i | 0 <= i < |acc|
      ensures acc[i].key != md[0].key
    {
      assert (acc + md)[i] == acc[i] && (acc + md)[|acc|] == md[0];
    }
  }

  lemma {:induction false} MergeDistinct(acc: Metadata, md: Metadata)
    requires NoDup(acc + md)
    ensures Merge(acc, md) == acc + md
    decreases |md|
  {
    if md == [] {
      assert acc + md == acc;
    } else {
      hide NoDup, Has, Erase;
      FirstIsNew(acc, md);
      EraseHas(acc, md[0].key);
      assert acc + [md[0]] + md[1..] == acc + md;
      MergeDistinct(acc + [md[0]], md[1..]);
    }
  }

  /** Re-merging a list from nothing collapses repeated keys, so it is the identity iff there are none. */
  lemma MergeFromNothing(md: Metadata)
    ensures Merge([], md) == md <==> NoDup(md)
  {
    MergeIsNoDup([], md);
    assert [] + md == md;
    if NoDup(md) {
      MergeDistinct([], md);
    }
  }

  lemma DropLocationAbsent(md: Metadata)
    requires forall k | IsLocation(k) :: !Has(md, k)
    ensures DropLocation(md) == md
  {
  }

  // ---- Turns -------------------------------------------------------------------------------

  /** A log batch as the framework writes it; `EXCEPTION` is the level of an error, not of a log. */
  predicate CleanLog(b: Batch) {
    IsLogBatch(b) && !IsException(b) && !Has(b.md, Location)
  }

  predicate IsFraming(k: Key) {
    !k.App?
  }

  /** A handler's data batch: any row count and any metadata of its own. */
  ghost predicate CleanData(b: Batch) {
    forall k | IsFraming(k) :: !Has(b.md, k)
  }

  /** One turn with its data batch, and the logs emitted before and after it. */
  datatype Turn = Turn(before: seq<Batch>, data: Batch, after: seq<Batch>) {
    function Batches(): seq<Batch> {
      before + [data] + after
    }

    function Logs(): seq<Batch> {
      before + after
    }

    ghost predicate Clean() {
      && (forall b <- before :: CleanLog(b))
      && (forall b <- after :: CleanLog(b))
      && CleanData(data)
    }
  }

  lemma {:induction false} DecodeAppend(r: Resolver, a: seq<Batch>, b: seq<Batch>, shape: Shape, saw: bool)
    ensures Decode(r, a + b, shape, saw)
         == Then(Decode(r, a, shape, saw), Decode(r, b, shape, saw || Decode(r, a, shape, saw).data != []))
  {
    hide DecodeOne;
    if a == [] {
      assert a + b == b;
    } else {
      assert (a + b)[1..] == a[1..] + b;
      var one := DecodeOne(r, a[0], shape, saw);
      var saw' := saw || one.data != [];
      DecodeAppend(r, a[1..], b, shape, saw');
      var da := Decode(r, a[1..], shape, saw');
      ThenAssociates(one, da, Decode(r, b, shape, saw' || da.data != []));
    }
  }

  lemma DecodeSingle(r: Resolver, b: Batch, shape: Shape, saw: bool)
    ensures Decode(r, [b], shape, saw) == DecodeOne(r, b, shape, saw)
  {
    hide DecodeOne;
    assert [b][1..] == [];
  }

  lemma DecodeLogs(r: Resolver, logs: seq<Batch>, shape: Shape, saw: bool)
    requires forall b <- logs :: CleanLog(b)
    ensures Decode(r, logs, shape, saw) == Decoded(logs, [], [], None)
  {
    if logs != [] {
      assert CleanLog(logs[0]);
      assert DecodeOne(r, logs[0], shape, saw) == Decoded([logs[0]], [], [], None);
      DecodeLogs(r, logs[1..], shape, saw);
      assert [logs[0]] + logs[1..] == logs;
    }
  }

  lemma StampLogs(logs: seq<Batch>, cursor: string)
    requires forall b <- logs :: CleanLog(b)
    ensures StampAll(logs, cursor) == logs
  {
    if logs != [] {
      assert CleanLog(logs[0]);
      StampLogs(logs[1..], cursor);
    }
  }

  lemma StampAppend(a: seq<Batch>, b: seq<Batch>, cursor: string)
    ensures StampAll(a + b, cursor) == StampAll(a, cursor) + StampAll(b, cursor)
  {
    if a == [] {
      assert a + b == b;
    } else {
      assert (a + b)[1..] == a[1..] + b;
      StampAppend(a[1..], b, cursor);
    }
  }

  lemma StampTurn(t: Turn, cursor: string)
    requires t.Clean()
    ensures StampAll(t.Batches(), cursor) == Turn(t.before, Stamp(t.data, cursor), t.after).Batches()
  {
    StampLogs(t.before, cursor);
    StampLogs(t.after, cursor);
    StampAppend(t.before + [t.data], t.after, cursor);
    StampAppend(t.before, [t.data], cursor);
    assert StampAll([t.data], cursor) == [Stamp(t.data, cursor)];
  }

  /** A stamped batch carries its own metadata and then the cursor, whose value a reader gets back. */
  lemma StampedData(d: Batch, cursor: string)
    requires CleanData(d)
    ensures Stamp(d, cursor).md == if d.rows > 0 then d.md + [CursorField(cursor)] else d.md
    ensures forall k | IsFraming(k) && k != StateB64 :: !Has(Stamp(d, cursor).md, k)
    ensures Value(Stamp(d, cursor).md, StateB64) == if d.rows > 0 then cursor else ""
    ensures Has(Stamp(d, cursor).md, StateB64) <==> d.rows > 0
    ensures StripTransport(Stamp(d, cursor).md) == d.md
  {
    assert IsFraming(StateB64) && IsFraming(CallStateB64);
    EraseHas(d.md, StateB64);
    var f := CursorField(cursor);
    HasAppend(d.md, [f]);
    HasCons([f]);
    ValueAppend(d.md, [f], StateB64);
    EraseFirstAbsent(d.md, StateB64);
    EraseFirstAbsent(d.md, CallStateB64);
    EraseFirstOfLast(d.md, f);
    MergeOne(d.md, f);
  }

  lemma FramingKeys()
    ensures IsFraming(LogLevel) && IsFraming(LogMessage) && IsFraming(Location) && IsFraming(ShmOffset)
    ensures IsFraming(StreamState) && IsFraming(StateB64) && IsFraming(CallStateB64)
    ensures IsFraming(LocationSha256) && IsFraming(LocationSource) && IsFraming(LocationFetchMs)
  {
  }

  lemma DecodeCursorBatch(r: Resolver, cursor: string, saw: bool)
    ensures DecodeOne(r, CursorBatch(cursor), EXCHANGE_TURN, true) == Decoded([], [], [CursorBatch(cursor)], None)
    ensures DecodeOne(r, CursorBatch(cursor), EXCHANGE_TURN, false) == Decoded([], [CursorBatch(cursor)], [], None)
    ensures DecodeOne(r, CursorBatch(cursor), PRODUCER_TURN, saw) == Decoded([], [], [CursorBatch(cursor)], None)
    ensures DecodeOne(r, CursorBatch(cursor), STREAM_INIT, saw) == Decoded([], [], [CursorBatch(cursor)], None)
  {
    var md := CursorBatch(cursor).md;
    HasCons(md);
    assert md[1..] == [];
  }

  /** Inline, the data batch itself is what the client reads. */
  lemma DecodeInlineTurn(r: Resolver, t: Turn, cursor: string)
    requires t.Clean()
    ensures Decode(r, StampAll(t.Batches(), cursor), EXCHANGE_TURN, false)
         == Decoded(t.Logs(), [Stamp(t.data, cursor)], [], None)
  {
    hide DecodeOne, CleanLog, CleanData, Stamp, Decode, StampAll;
    StampTurn(t, cursor);
    var d := Stamp(t.data, cursor);
    DecodeStampedData(r, t.data, cursor);
    DecodeAppend(r, t.before + [d], t.after, EXCHANGE_TURN, false);
    DecodeAppend(r, t.before, [d], EXCHANGE_TURN, false);
    DecodeSingle(r, d, EXCHANGE_TURN, false);
    DecodeLogs(r, t.before, EXCHANGE_TURN, false);
    DecodeLogs(r, t.after, EXCHANGE_TURN, true);
  }

  lemma DecodeStampedData(r: Resolver, d: Batch, cursor: string)
    requires CleanData(d)
    ensures DecodeOne(r, Stamp(d, cursor), EXCHANGE_TURN, false) == Decoded([], [Stamp(d, cursor)], [], None)
  {
    StampedData(d, cursor);
    FramingKeys();
  }

  lemma ControlCursorOfOne(cursor: string)
    ensures ControlCursor([CursorBatch(cursor)]) == cursor && ControlCursor([]) == ""
  {
  }

  /** What `exchange()` reads of any decoding that ends like an exchange turn's does. */
  lemma AnswerOf(logs: seq<Batch>, v: Batch, cursor: string, trailing: bool)
    requires var own := Value(v.md, StateB64); own == cursor || (own == "" && trailing)
    ensures ExchangeAnswer(Decoded(logs, [v], if trailing then [CursorBatch(cursor)] else [], None))
         == Output(logs, v.(md := StripTransport(v.md)), cursor)
  {
    ControlCursorOfOne(cursor);
  }

  /** The trailing cursor batch, when there is one, follows the data and reads as a control batch. */
  lemma DecodeTrailing(r: Resolver, body: seq<Batch>, cursor: string, trailing: bool, d: Decoded)
    requires Decode(r, body, EXCHANGE_TURN, false) == d && d.data != [] && d.control == [] && d.fault.None?
    ensures Decode(r, body + if trailing then [CursorBatch(cursor)] else [], EXCHANGE_TURN, false)
         == d.(control := if trailing then [CursorBatch(cursor)] else [])
  {
    hide DecodeOne;
    var tail := if trailing then [CursorBatch(cursor)] else [];
    DecodeAppend(r, body, tail, EXCHANGE_TURN, false);
    DecodeSingle(r, CursorBatch(cursor), EXCHANGE_TURN, true);
    DecodeCursorBatch(r, cursor, true);
  }

  /** The server leaves a trailing cursor batch whenever the data batch could not be stamped. */
  lemma TrailingCovers(t: Turn)
    requires t.Clean()
    ensures var bs := t.Batches(); bs != [] && (t.data.rows > 0 || bs[|bs| - 1].rows == 0)
  {
    var bs := t.Batches();
    if t.after != [] {
      assert bs[|bs| - 1] == t.after[|t.after| - 1];
      assert CleanLog(t.after[|t.after| - 1]);
    }
  }

  /**
    Framing preserves an exchange turn: for any row count and any metadata of the handler's own, the
    client reads back the same logs in order, the same data batch and the same cursor.
   */
  lemma InlineExchangeIsFaithful(r: Resolver, c: Codec, policy: Policy, store: Store, url: string, t: Turn,
                                 cursor: string)
    requires t.Clean()
    requires ExternalizeCycle(c, policy, store, url, StampAll(t.Batches(), cursor)).pointer.None?
    ensures var sent := ExchangeTurn(c, policy, store, url, t.Batches(), cursor);
      ExchangeAnswer(Decode(r, sent.wire, EXCHANGE_TURN, false))
        == Output(t.Logs(), t.data, cursor)
  {
    hide DecodeOne;
    var bs := t.Batches();
    var trailing := bs == [] || bs[|bs| - 1].rows == 0;
    var d := Stamp(t.data, cursor);
    DecodeInlineTurn(r, t, cursor);
    DecodeTrailing(r, StampAll(bs, cursor), cursor, trailing, Decoded(t.Logs(), [d], [], None));
    TrailingCovers(t);
    StampedData(t.data, cursor);
    AnswerOf(t.Logs(), d, cursor, trailing);
  }

  // ---- Through storage ---------------------------------------------------------------------

  lemma ScanLogsThen(logs: seq<Batch>, rest: seq<Batch>)
    requires forall b <- logs :: CleanLog(b)
    ensures ScanPayload(logs + rest) == var p := ScanPayload(rest); p.(logs := logs + p.logs)
  {
    if logs == [] {
      assert logs + rest == rest;
    } else {
      assert CleanLog(logs[0]);
      assert (logs + rest)[1..] == logs[1..] + rest;
      ScanLogsThen(logs[1..], rest);
    }
  }

  lemma ScanTurn(before: seq<Batch>, d: Batch, after: seq<Batch>)
    requires (forall b <- before :: CleanLog(b)) && (forall b <- after :: CleanLog(b))
    requires !Has(d.md, Location) && !Has(d.md, LogLevel)
    ensures ScanPayload(before + [d] + after) == Payload(before + after, [d], true)
  {
    assert after + [] == after;
    ScanLogsThen(after, []);
    ScanLogsThen(before, [d] + after);
    assert before + [d] + after == before + ([d] + after);
    assert ([d] + after)[1..] == after;
  }

  /** The client's view of an externalized batch: the handler's metadata re-merged, and the reader's provenance. */
  function Resolved(d: Batch, url: string, ms: string): Batch {
    d.(md := Merge([], d.md) + Provenance(url, ms))
  }

  lemma MergeResolutionOf(url: string, sha: string, ms: string, inner: Metadata)
    requires forall k | IsLocation(k) :: !Has(inner, k)
    ensures MergeResolution([Field(Location, url), Field(LocationSha256, sha)], inner, url, ms)
         == Merge([], inner) + Provenance(url, ms)
  {
    var outer := [Field(Location, url), Field(LocationSha256, sha)];
    assert outer[1..] == [Field(LocationSha256, sha)] && outer[1..][1..] == [];
    assert DropLocation(outer) == DropLocation(outer[1..]) == DropLocation(outer[1..][1..]) == [];
    DropLocationAbsent(inner);
    var m := Merge([], inner);
    assert IsLocation(LocationSource) && IsLocation(LocationFetchMs);
    MergeHas([], inner, LocationSource);
    MergeHas([], inner, LocationFetchMs);
    EraseHas(m, LocationSource);
    EraseHas(m, LocationFetchMs);
  }

  /** Storage returns the very bytes that were hashed, whether or not they were compressed on the way. */
  lemma FetchReturnsUpload(c: Codec, policy: Policy, r: Resolver, url: string, raw: Bytes)
    requires Lawful(c) && r.codec == c && url in r.store && r.store[url] == Upload(c, policy, raw)
    ensures Fetch(r, url, c.sha(raw)) == Some(raw)
  {
  }

  lemma PointerMetadata(url: string, sha: string)
    ensures var md := [Field(Location, url), Field(LocationSha256, sha)];
      && Has(md, Location) && !Has(md, LogLevel)
      && Value(md, Location) == url && Value(md, LocationSha256) == sha
  {
  }

  /** The client finds in a pointer exactly the turn that was uploaded behind it. */
  lemma ResolvesToTurn(r: Resolver, c: Codec, policy: Policy, before: seq<Batch>, d: Batch, after: seq<Batch>,
                       url: string)
    requires Lawful(c) && r.enabled && r.codec == c
    requires (forall b <- before :: CleanLog(b)) && (forall b <- after :: CleanLog(b))
    requires (forall k | IsLocation(k) :: !Has(d.md, k)) && !Has(d.md, LogLevel)
    requires url in r.store && r.store[url] == Upload(c, policy, c.ipc(before + [d] + after))
    ensures var raw := c.ipc(before + [d] + after);
      Resolve(r, Batch(0, 0, [Field(Location, url), Field(LocationSha256, c.sha(raw))]))
        == Resolution(before + after, Some(Resolved(d, url, r.ms)))
  {
    var batches := before + [d] + after;
    var raw := c.ipc(batches);
    PointerMetadata(url, c.sha(raw));
    FetchReturnsUpload(c, policy, r, url, raw);
    assert c.read(raw) == Some(batches);
    assert IsLocation(Location);
    ScanTurn(before, d, after);
    MergeResolutionOf(url, c.sha(raw), r.ms, d.md);
  }

  function Provenance(url: string, ms: string): Metadata {
    [Field(LocationSource, url), Field(LocationFetchMs, ms)]
  }

  lemma ProvenanceKeys(url: string, ms: string)
    ensures forall k :: Has(Provenance(url, ms), k) <==> k == LocationSource || k == LocationFetchMs
    ensures Value(Provenance(url, ms), StateB64) == ""
  {
    var prov := Provenance(url, ms);
    assert prov[1..] == [Field(LocationFetchMs, ms)];
    HasCons(prov);
    HasCons(prov[1..]);
  }

  /** The resolved metadata in its three parts: the handler's, the cursor if it was stamped, the provenance. */
  lemma ResolvedParts(d: Batch, cursor: string, url: string, ms: string)
    requires CleanData(d)
    ensures !Has(Merge([], d.md), StateB64)
    ensures Resolved(Stamp(d, cursor), url, ms).md
         == (if d.rows > 0 then Merge([], d.md) + [CursorField(cursor)] else Merge([], d.md)) + Provenance(url, ms)
  {
    StampedData(d, cursor);
    FramingKeys();
    MergeHas([], d.md, StateB64);
    if d.rows > 0 {
      var f := CursorField(cursor);
      MergeSplit([], d.md, [f]);
      MergeOne(Merge([], d.md), f);
      EraseHas(Merge([], d.md), StateB64);
    }
  }

  lemma NotInResolved(d: Batch, cursor: string, url: string, ms: string, key: Key)
    requires CleanData(d) && IsFraming(key) && key != StateB64 && key != LocationSource && key != LocationFetchMs
    ensures !Has(Resolved(Stamp(d, cursor), url, ms).md, key)
  {
    StampedData(d, cursor);
    MergeHas([], Stamp(d, cursor).md, key);
    HasAppend(Merge([], Stamp(d, cursor).md), Provenance(url, ms));
    ProvenanceKeys(url, ms);
  }

  /** After resolution a clean batch keeps its place: it is data, and its cursor is where it was. */
  lemma ResolvedData(d: Batch, cursor: string, url: string, ms: string)
    requires CleanData(d)
    ensures var v := Resolved(Stamp(d, cursor), url, ms);
      && Value(v.md, StateB64) == (if d.rows > 0 then cursor else "")
      && StripTransport(v.md) == Resolved(d, url, ms).md
      && Judge(v, EXCHANGE_TURN, false) == AsData
  {
    var prov := Provenance(url, ms);
    var m := Merge([], d.md);
    var f := CursorField(cursor);
    var v := Resolved(Stamp(d, cursor), url, ms);
    ResolvedParts(d, cursor, url, ms);
    ProvenanceKeys(url, ms);
    FramingKeys();
    MergeHas([], d.md, CallStateB64);
    StripResolved(m, f, prov, d.rows > 0);
    ValueAppend(if d.rows > 0 then m + [f] else m, prov, StateB64);
    ValueAppend(m, [f], StateB64);
    HasAppend(m, [f]);
    HasCons([f]);
    NotInResolved(d, cursor, url, ms, LogLevel);
    NotInResolved(d, cursor, url, ms, Location);
    NotInResolved(d, cursor, url, ms, ShmOffset);
    NotInResolved(d, cursor, url, ms, StreamState);
  }

  lemma StripResolved(m: Metadata, f: Field, prov: Metadata, stamped: bool)
    requires f.key == StateB64 && !Has(m, StateB64) && !Has(m, CallStateB64)
    requires !Has(prov, StateB64) && !Has(prov, CallStateB64)
    ensures StripTransport((if stamped then m + [f] else m) + prov) == m + prov
  {
    HasAppend(m, prov);
    EraseFirstAbsent(m + prov, StateB64);
    EraseFirstAbsent(m + prov, CallStateB64);
    if stamped {
      EraseFirstMiddle(m, f, prov);
    }
  }

  lemma EraseFirstMiddle(a: Metadata, f: Field, b: Metadata)
    requires !Has(a, f.key)
    ensures EraseFirst(a + [f] + b, f.key) == a + b
  {
    if a == [] {
      assert a + [f] + b == [f] + b;
      assert a + b == b;
    } else {
      HasCons(a);
      assert (a + [f] + b)[1..] == a[1..] + [f] + b;
      EraseFirstMiddle(a[1..], f, b);
    }
  }

  /**
    The externalized form decodes to the same logs, the same rows and the same cursor as the inline
    one; the handler's metadata comes back re-merged and followed by the two provenance keys.
   */
  lemma StoredExchangeIsFaithful(r: Resolver, c: Codec, policy: Policy, store: Store, url: string, t: Turn,
                                 cursor: string)
    requires t.Clean() && Lawful(c) && r.enabled && r.codec == c
    requires ExternalizeCycle(c, policy, store, url, StampAll(t.Batches(), cursor)).pointer.Some?
    requires r.store == ExchangeTurn(c, policy, store, url, t.Batches(), cursor).store
    ensures var sent := ExchangeTurn(c, policy, store, url, t.Batches(), cursor);
      ExchangeAnswer(Decode(r, sent.wire, EXCHANGE_TURN, false))
        == Output(t.Logs(), Resolved(t.data, url, r.ms), cursor)
  {
    hide DecodeOne;
    var bs := t.Batches();
    var trailing := bs == [] || bs[|bs| - 1].rows == 0;
    var d := Stamp(t.data, cursor);
    var v := Resolved(d, url, r.ms);
    var stamped := StampAll(bs, cursor);
    StampTurn(t, cursor);
    var ptr := Batch(0, 0, [Field(Location, url), Field(LocationSha256, c.sha(c.ipc(stamped)))]);
    DecodePointer(r, c, policy, t, cursor, url, ptr);
    DecodeSingle(r, ptr, EXCHANGE_TURN, false);
    DecodeTrailing(r, [ptr], cursor, trailing, Decoded(t.Logs(), [v], [], None));
    TrailingCovers(t);
    ResolvedData(t.data, cursor, url, r.ms);
    AnswerOf(t.Logs(), v, cursor, trailing);
  }

  lemma DecodePointer(r: Resolver, c: Codec, policy: Policy, t: Turn, cursor: string, url: string, ptr: Batch)
    requires t.Clean() && Lawful(c) && r.enabled && r.codec == c
    requires var raw := c.ipc(StampAll(t.Batches(), cursor));
      && url in r.store && r.store[url] == Upload(c, policy, raw)
      && ptr == Batch(0, 0, [Field(Location, url), Field(LocationSha256, c.sha(raw))])
    ensures DecodeOne(r, ptr, EXCHANGE_TURN, false)
         == Decoded(t.Logs(), [Resolved(Stamp(t.data, cursor), url, r.ms)], [], None)
  {
    hide StampAll, Upload, Resolve, Merge, Resolved, CleanLog;
    var d := Stamp(t.data, cursor);
    StampTurn(t, cursor);
    StampedData(t.data, cursor);
    FramingKeys();
    ResolvesToTurn(r, c, policy, t.before, d, t.after, url);
    ResolvedData(t.data, cursor, url, r.ms);
  }

  /**
    Up to the two provenance keys the externalized batch is the inline one exactly when the handler
    gave no key twice: of a repeated key, storage keeps only the last value.
   */
  lemma StorageCollapsesRepeatedKeys(d: Batch, url: string, ms: string)
    ensures Resolved(d, url, ms).md == d.md + Provenance(url, ms) <==> NoDup(d.md)
  {
    var prov := Provenance(url, ms);
    MergeFromNothing(d.md);
    var m := Merge([], d.md);
    if m + prov == d.md + prov {
      assert |m| == |d.md|;
      assert m == (m + prov)[..|m|] == (d.md + prov)[..|m|] == d.md;
    }
  }

  /** The two forms then disagree on what a reader sees: inline the first value, stored the last. */
  lemma RepeatedKeyReadsDifferently(a: string, b: string)
    requires a != b
    ensures var d := Batch(1, 0, [Field(App("k"), a), Field(App("k"), b)]);
      CleanData(d) && Value(d.md, App("k")) == a && Value(Merge([], d.md), App("k")) == b
  {
    var md := [Field(App("k"), a), Field(App("k"), b)];
    HasCons(md);
    HasCons(md[1..]);
    MergeSplit([], [md[0]], [md[1]]);
    assert md == [md[0]] + [md[1]];
    MergeOne([], md[0]);
    assert Erase([], App("k")) + [md[0]] == [md[0]];
    MergeOne([md[0]], md[1]);
    assert [md[0]][1..] == [];
    assert Merge([], md) == [md[1]];
  }

  /**
    A turn that emitted no data batch is the one framing does not preserve: its cursor batch comes
    before any data, so the client takes it for an empty data batch.
   */
  lemma DatalessTurnReadsAsEmptyBatch(r: Resolver, c: Codec, policy: Policy, store: Store, url: string,
                                      logs: seq<Batch>, cursor: string)
    requires forall b <- logs :: CleanLog(b)
    ensures ExchangeAnswer(Decode(r, ExchangeTurn(c, policy, store, url, logs, cursor).wire, EXCHANGE_TURN, false))
         == Output(logs, Batch(0, 0, []), cursor)
  {
    hide DecodeOne;
    DatalessWire(c, policy, store, url, logs, cursor);
    DecodeLogs(r, logs, EXCHANGE_TURN, false);
    DecodeAppend(r, logs, [CursorBatch(cursor)], EXCHANGE_TURN, false);
    DecodeSingle(r, CursorBatch(cursor), EXCHANGE_TURN, false);
    DecodeCursorBatch(r, cursor, false);
    assert logs + [] == logs;
    StripCursorBatch(cursor);
  }

  lemma StripCursorBatch(cursor: string)
    ensures var md := CursorBatch(cursor).md; Value(md, StateB64) == cursor && StripTransport(md) == []
  {
    assert CursorBatch(cursor).md == [CursorField(cursor)];
    assert EraseFirst([CursorField(cursor)], StateB64) == [];
  }

  lemma DatalessWire(c: Codec, policy: Policy, store: Store, url: string, logs: seq<Batch>, cursor: string)
    requires forall b <- logs :: CleanLog(b)
    ensures ExchangeTurn(c, policy, store, url, logs, cursor).wire == logs + [CursorBatch(cursor)]
  {
    StampLogs(logs, cursor);
    assert forall b <- logs :: CleanLog(b) && !IsDataType(b);
    assert logs != [] ==> CleanLog(logs[|logs| - 1]);
  }

  // ---- What a pointer may resolve to -------------------------------------------------------------

  /** What a stored object holds, unpacked. */
  function Contents(c: Codec, o: Object): Option<Bytes> {
    if o.zstd then c.unzip(o.body) else Some(o.body)
  }

  /** No pointer and no exception. */
  predicate Acceptable(b: Batch) {
    !Has(b.md, Location) && !(IsLogBatch(b) && Value(b.md, LogLevel) == "EXCEPTION")
  }

  /** Acceptable batches, all of them logs but the one at `at`. */
  ghost predicate OneAmongLogs(batches: seq<Batch>, at: int) {
    && 0 <= at < |batches|
    && (forall b <- batches :: Acceptable(b))
    && forall i | 0 <= i < |batches| :: IsLogBatch(batches[i]) <==> i != at
  }

  /**
    What stands behind a pointer: an object of that name, whose unpacked bytes have the digest that the
    pointer tells, if it tells one, and are one stream of logs and one data batch.
   */
  ghost predicate Genuine(r: Resolver, ptr: Batch, batches: seq<Batch>, at: int) {
    && r.enabled && ptr.rows == 0 && !Has(ptr.md, LogLevel)
    && var url, sha := Value(ptr.md, Location), Value(ptr.md, LocationSha256);
    && url in r.store
    && var raw := Contents(r.codec, r.store[url]);
    && raw.Some? && (sha == "" || r.codec.sha(raw.value) == sha) && r.codec.read(raw.value) == Some(batches)
    && OneAmongLogs(batches, at)
  }

  lemma ScanStep(batches: seq<Batch>)
    requires batches != []
    ensures var b, rest := batches[0], ScanPayload(batches[1..]);
      ScanPayload(batches)
        == if !Acceptable(b) then Payload([], [], false)
           else if IsLogBatch(b) then rest.(logs := [b] + rest.logs) else rest.(data := [b] + rest.data)
  {
  }

  lemma {:induction false} ScanIff(batches: seq<Batch>)
    ensures var p := ScanPayload(batches);
      && (p.ok <==> forall b <- batches :: Acceptable(b))
      && (p.ok ==> (p.data == [] <==> forall b <- batches :: IsLogBatch(b)))
      && (p.ok && p.data == [] ==> p.logs == batches)
  {
    if batches != [] {
      hide ScanPayload, Acceptable, IsLogBatch;
      ScanStep(batches);
      ScanIff(batches[1..]);
      assert forall b :: b in batches <==> b == batches[0] || b in batches[1..];
      assert batches == [batches[0]] + batches[1..];
    }
  }

  lemma {:induction false} ScanFinds(batches: seq<Batch>)
    requires ScanPayload(batches).ok && |ScanPayload(batches).data| == 1
    ensures exists at :: OneAmongLogs(batches, at)
  {
    hide Acceptable, IsLogBatch;
    ScanIff(batches);
    var b, rest := batches[0], batches[1..];
    ScanStep(batches);
    hide ScanPayload;
    if IsLogBatch(b) {
      ScanFinds(rest);
      var at :| OneAmongLogs(rest, at);
      forall i | 0 <= i < |batches|
        ensures IsLogBatch(batches[i]) <==> i != at + 1
      {
        assert i > 0 ==> batches[i] == rest[i - 1];
      }
      assert OneAmongLogs(batches, at + 1);
    } else {
      ScanIff(rest);
      assert ScanPayload(rest).data == [];
      forall i | 0 <= i < |batches|
        ensures IsLogBatch(batches[i]) <==> i != 0
      {
        assert i > 0 ==> batches[i] in rest;
      }
      assert OneAmongLogs(batches, 0);
    }
  }

  lemma {:induction false} ScanOne(batches: seq<Batch>, at: int)
    requires OneAmongLogs(batches, at)
    ensures ScanPayload(batches) == Payload(batches[..at] + batches[at + 1..], [batches[at]], true)
    decreases at
  {
    hide ScanPayload, Acceptable, IsLogBatch;
    ScanStep(batches);
    ScanIff(batches);
    var b, rest := batches[0], batches[1..];
    forall i | 0 <= i < |rest|
      ensures rest[i] == batches[i + 1] && batches[i + 1] in batches
    {
    }
    if at == 0 {
      ScanIff(rest);
      assert batches[..0] + batches[1..] == rest;
    } else {
      ScanOne(rest, at - 1);
      assert batches[..at] + batches[at + 1..] == [b] + (rest[..at - 1] + rest[at..]);
    }
  }

  /**
    A pointer is resolved exactly when a genuine upload stands behind it, and then to that upload's
    logs and data batch; one that is not is a protocol error.
   */
  lemma PointerResolvesIff(r: Resolver, ptr: Batch, shape: Shape, saw: bool)
    requires Has(ptr.md, Location)
    ensures (exists batches: seq<Batch>, at: int :: Genuine(r, ptr, batches, at)) <==> Resolve(r, ptr).batch.Some?
    ensures forall batches: seq<Batch>, at: int | Genuine(r, ptr, batches, at) ::
              Resolve(r, ptr) == Resolution(batches[..at] + batches[at + 1..],
                Some(batches[at].(md := MergeResolution(ptr.md, batches[at].md, Value(ptr.md, Location), r.ms))))
    ensures Resolve(r, ptr).batch.None? ==>
              DecodeOne(r, ptr, shape, saw) == Decoded(Resolve(r, ptr).logs, [], [], Some(ProtocolError))
  {
    hide MergeResolution, ScanPayload, Acceptable, IsLogBatch;
    var url, sha := Value(ptr.md, Location), Value(ptr.md, LocationSha256);
    var payload := Fetch(r, url, sha);
    if r.enabled && ptr.rows == 0 && !Has(ptr.md, LogLevel) && payload.Some? && r.codec.read(payload.value).Some? {
      var batches := r.codec.read(payload.value).value;
      if Resolve(r, ptr).batch.Some? {
        ScanFinds(batches);
        var at :| OneAmongLogs(batches, at);
        assert Genuine(r, ptr, batches, at);
      }
      forall at: int | OneAmongLogs(batches, at)
        ensures ScanPayload(batches) == Payload(batches[..at] + batches[at + 1..], [batches[at]], true)
      {
        ScanOne(batches, at);
      }
    }
  }

  /**
    What no reply may hold: a pointer behind a pointer, shared memory, an older protocol's token, a
    cursor out of place.
   */
  /** A log or an exception: no rows, a level and a message. */
  predicate Says(b: Batch) {
    b.rows == 0 && Has(b.md, LogLevel) && Has(b.md, LogMessage)
  }

  /**
    A turn goes to storage exactly if it may, one batch of it is data, and its IPC form reaches the
    threshold; what is counted is the body stored, which unpacks to that form.
   */
  lemma ExternalizesIff(c: Codec, policy: Policy, store: Store, url: string, batches: seq<Batch>)
    requires Lawful(c)
    ensures var e := ExternalizeCycle(c, policy, store, url, batches);
      if policy.hasStorage && 0 <= policy.threshold <= |c.ipc(batches)| && exists b <- batches :: !Says(b) then
        && e.pointer.Some? && Value(e.pointer.value, Location) == url
        && Value(e.pointer.value, LocationSha256) == c.sha(c.ipc(batches))
        && exists o :: e.store == store[url := o] && e.bytes == |o.body|
                       && (if o.zstd then policy.compress && c.unzip(o.body) == Some(c.ipc(batches))
                           else o.body == c.ipc(batches))
      else e.pointer.None? && e.store == store && e.bytes == 0
  {
    assert forall b :: Says(b) <==> !IsDataType(b);
    var e := ExternalizeCycle(c, policy, store, url, batches);
    if e.pointer.Some? {
      assert e.store == store[url := Upload(c, policy, c.ipc(batches))];
    }
  }

  predicate OutOfPlace(b: Batch, shape: Shape) {
    || Has(b.md, Location) || Has(b.md, ShmOffset) || Has(b.md, StreamState)
    || (Has(b.md, StateB64) && (shape == UNARY || (shape != EXCHANGE_TURN && b.rows > 0)))
  }

  /** Each kind of batch is read as what it is, whatever the reply. */
  lemma JudgeIff(b: Batch, shape: Shape, saw: bool)
    ensures var v, log := Judge(b, shape, saw), b.rows == 0 && Has(b.md, LogLevel) && Has(b.md, LogMessage);
      && (v.AsRemote? <==> log && Value(b.md, LogLevel) == "EXCEPTION")
      && (v.AsRemote? ==> v.message == Value(b.md, LogMessage))
      && (v.AsLog? <==> log && Value(b.md, LogLevel) != "EXCEPTION")
      && (v.AsBad? <==> !log && OutOfPlace(b, shape))
      && (v.AsControl? <==> && !log && !OutOfPlace(b, shape) && Has(b.md, StateB64) && b.rows == 0
                            && (shape == EXCHANGE_TURN ==> saw))
      && (v.AsBad? && !Has(b.md, Location) ==> forall r: Resolver ::
          DecodeOne(r, b, shape, saw).fault == Some(ProtocolError))
  {
  }
}
