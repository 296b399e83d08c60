/** What the client reads of a producer turn, inline or through storage. */
module ProducerLaws {
  import opened Base
  import opened Wire
  import opened Framing
  import opened FramingLaws
  import opened HttpTurns

  /** A turn of any shape the framework and a well-behaved handler give: logs, and at most one data batch. */
  ghost predicate CleanEmission(batches: seq<Batch>) {
    && (forall b <- batches :: CleanLog(b) || CleanData(b))
    && |DataIn(batches)| <= 1
  }

  ghost predicate CleanTurns(script: seq<Emission>) {
    forall e <- script :: e.Emitted? ==> CleanEmission(e.batches)
  }

  function DataIn(batches: seq<Batch>): seq<Batch> {
    if batches == [] then []
    else if IsLogBatch(batches[0]) then DataIn(batches[1..])
    else [batches[0]] + DataIn(batches[1..])
  }

  function LogsIn(batches: seq<Batch>): seq<Batch> {
    if batches == [] then []
    else if IsLogBatch(batches[0]) then [batches[0]] + LogsIn(batches[1..])
    else LogsIn(batches[1..])
  }

  /** The turn goes to storage whole, and one pointer travels in its place. */
  predicate Stores(c: Codec, policy: Policy, batches: seq<Batch>) {
    && policy.hasStorage && 0 <= policy.threshold
    && (exists b <- batches :: IsDataType(b))
    && policy.threshold <= |c.ipc(batches)|
  }

  /**
    A turn's data as its client is handed it: the very batches that were emitted, or, of a turn that
    went through storage, the one fetched back from `url`.
   */
  function Received(c: Codec, policy: Policy, url: string, ms: string, batches: seq<Batch>): (r: seq<Batch>)
    ensures !Stores(c, policy, batches) ==> r == DataIn(batches)
  {
    var data := DataIn(batches);
    if Stores(c, policy, batches) && data != [] then [Resolved(data[0], url, ms)] else data
  }

  lemma JudgeClean(b: Batch, shape: Shape, saw: bool)
    ensures CleanLog(b) ==> Judge(b, shape, saw) == AsLog && IsLogBatch(b) && !Has(b.md, Location)
    ensures CleanData(b) ==> Judge(b, shape, saw) == AsData && !IsLogBatch(b) && !Has(b.md, Location)
    ensures CleanData(b) ==> StripTransport(b.md) == b.md
  {
    FramingKeys();
    if CleanData(b) {
      EraseFirstAbsent(b.md, StateB64);
      EraseFirstAbsent(b.md, CallStateB64);
    }
  }

  lemma DecodeOneClean(r: Resolver, b: Batch, shape: Shape, saw: bool)
    requires CleanLog(b) || CleanData(b)
    ensures DecodeOne(r, b, shape, saw)
         == if IsLogBatch(b) then Decoded([b], [], [], None) else Decoded([], [b], [], None)
  {
    JudgeClean(b, shape, saw);
  }

  lemma DecodeClean(r: Resolver, batches: seq<Batch>, shape: Shape, saw: bool)
    requires forall b <- batches :: CleanLog(b) || CleanData(b)
    ensures Decode(r, batches, shape, saw) == Decoded(LogsIn(batches), DataIn(batches), [], None)
  {
    hide DecodeOne, CleanLog, CleanData, IsLogBatch;
    if batches != [] {
      var b := batches[0];
      assert CleanLog(b) || CleanData(b);
      DecodeOneClean(r, b, shape, saw);
      DecodeClean(r, batches[1..], shape, saw || DecodeOne(r, b, shape, saw).data != []);
    }
  }

  lemma ScanClean(batches: seq<Batch>)
    requires forall b <- batches :: CleanLog(b) || CleanData(b)
    ensures ScanPayload(batches) == Payload(LogsIn(batches), DataIn(batches), true)
    ensures forall d <- DataIn(batches) :: CleanData(d)
  {
    if batches != [] {
      var b := batches[0];
      assert CleanLog(b) || CleanData(b);
      JudgeClean(b, UNARY, false);
      ScanClean(batches[1..]);
    }
  }

  lemma StripClean(d: Batch, url: string, ms: string, shape: Shape)
    requires CleanData(d)
    ensures var v := Resolved(d, url, ms); Judge(v, shape, false) == AsData && StripTransport(v.md) == v.md
  {
    FramingKeys();
    var m := Merge([], d.md);
    var keys := {LogLevel, Location, ShmOffset, StreamState, StateB64, CallStateB64};
    ProvenanceKeys(url, ms);
    HasAppend(m, Provenance(url, ms));
    forall k <- keys
      ensures !Has(Resolved(d, url, ms).md, k)
    {
      assert IsFraming(k);
      MergeHas([], d.md, k);
    }
    EraseFirstAbsent(Resolved(d, url, ms).md, StateB64);
    EraseFirstAbsent(Resolved(d, url, ms).md, CallStateB64);
  }

  /** A turn with data that goes to storage always has exactly one data batch. */
  lemma UploadedHasData(batches: seq<Batch>)
    requires CleanEmission(batches) && exists b <- batches :: IsDataType(b)
    ensures |DataIn(batches)| == 1
  {
  }

  /** The data the client appends to `pending`. */
  function Stripped(batches: seq<Batch>): seq<Batch> {
    if batches == [] then []
    else [batches[0].(md := StripTransport(batches[0].md))] + Stripped(batches[1..])
  }

  lemma StrippedClean(batches: seq<Batch>)
    requires forall b <- batches :: StripTransport(b.md) == b.md
    ensures Stripped(batches) == batches
  {
  }

  /** A batch that was stamped with a cursor is handed over as its handler made it. */
  lemma StrippedStamped(batch: Batch, cursor: string, rest: seq<Batch>)
    requires CleanData(batch)
    ensures Stripped([Stamp(batch, cursor)] + rest) == [batch] + Stripped(rest)
  {
    StampedData(batch, cursor);
    assert ([Stamp(batch, cursor)] + rest)[1..] == rest;
  }

  /** What the client makes of a turn: the same logs, and its data as received. */
  ghost predicate ReadsAs(d: Decoded, batches: seq<Batch>, data: seq<Batch>) {
    && d.fault.None? && d.control == []
    && d.logs == LogsIn(batches)
    && d.data == data == Stripped(data)
  }

  lemma StoresIff(c: Codec, policy: Policy, store: Store, url: string, batches: seq<Batch>)
    ensures ExternalizeCycle(c, policy, store, url, batches).pointer.Some? <==> Stores(c, policy, batches)
  {
  }

  lemma TurnReads(r: Resolver, c: Codec, policy: Policy, store: Store, url: string, batches: seq<Batch>, shape: Shape)
    requires Lawful(c) && r.enabled && r.codec == c && CleanEmission(batches)
    requires r.store == ProducerTurn(c, policy, store, url, batches, []).store
    ensures ReadsAs(Decode(r, ProducerTurn(c, policy, store, url, batches, []).wire, shape, false),
                    batches, Received(c, policy, url, r.ms, batches))
  {
    StoresIff(c, policy, store, url, batches);
    if Stores(c, policy, batches) {
      StoredTurnReads(r, c, policy, store, url, batches, shape);
    } else {
      hide DecodeOne, Decode, Stores;
      assert batches + [] == batches;
      ScanClean(batches);
      DecodeClean(r, batches, shape, false);
      forall b <- DataIn(batches)
        ensures StripTransport(b.md) == b.md
      {
        JudgeClean(b, shape, false);
      }
      StrippedClean(DataIn(batches));
    }
  }

  lemma StoredTurnReads(r: Resolver, c: Codec, policy: Policy, store: Store, url: string, batches: seq<Batch>,
                        shape: Shape)
    requires Lawful(c) && r.enabled && r.codec == c && CleanEmission(batches) && Stores(c, policy, batches)
    requires r.store == ProducerTurn(c, policy, store, url, batches, []).store
    ensures ReadsAs(Decode(r, ProducerTurn(c, policy, store, url, batches, []).wire, shape, false),
                    batches, Received(c, policy, url, r.ms, batches))
  {
    hide DecodeOne, Decode, Resolved, Judge, StripTransport, LogsIn, Lawful;
    var ptr := Batch(0, 0, ExternalizeCycle(c, policy, store, url, batches).pointer.value);
    UploadedHasData(batches);
    ScanClean(batches);
    var d := DataIn(batches)[0];
    assert [ptr] + [] == [ptr];
    PointerReads(r, c, policy, batches, d, url, ptr, shape);
    DecodeSingle(r, ptr, shape, false);
    StripClean(d, url, r.ms, shape);
    assert Stripped([Resolved(d, url, r.ms)]) == [Resolved(d, url, r.ms)];
  }

  lemma PointerReads(r: Resolver, c: Codec, policy: Policy, batches: seq<Batch>, d: Batch, url: string, ptr: Batch,
                     shape: Shape)
    requires Lawful(c) && r.enabled && r.codec == c && CleanEmission(batches) && DataIn(batches) == [d]
    requires url in r.store && r.store[url] == Upload(c, policy, c.ipc(batches))
    requires ptr == Batch(0, 0, [Field(Location, url), Field(LocationSha256, c.sha(c.ipc(batches)))])
    ensures DecodeOne(r, ptr, shape, false) == Decoded(LogsIn(batches), [Resolved(d, url, r.ms)], [], None)
  {
    var raw := c.ipc(batches);
    ScanClean(batches);
    assert CleanData(d);
    PointerMetadata(url, c.sha(raw));
    FetchReturnsUpload(c, policy, r, url, raw);
    assert c.read(raw) == Some(batches);
    FramingKeys();
    MergeResolutionOf(url, c.sha(raw), r.ms, d.md);
    StripClean(d, url, r.ms, shape);
  }

  // ---- The control batch behind a turn ---------------------------------------------------------

  /** A batch of tokens only. */
  ghost predicate IsControl(b: Batch) {
    b.rows == 0 && Has(b.md, StateB64) && forall k :: Has(b.md, k) ==> k == StateB64 || k == CallStateB64
  }

  lemma DecodeControl(r: Resolver, b: Batch, shape: Shape, saw: bool)
    requires shape == PRODUCER_TURN || shape == STREAM_INIT
    requires IsControl(b)
    ensures Decode(r, [b], shape, saw) == Decoded([], [], [b], None)
  {
    assert [b][1..] == [];
  }

  lemma ControlKeys(cursor: string, token: string)
    ensures IsControl(CursorBatch(cursor)) && IsControl(InitBatch(cursor, token))
    ensures Value(CursorBatch(cursor).md, StateB64) == cursor && Value(CursorBatch(cursor).md, CallStateB64) == ""
    ensures Value(InitBatch(cursor, token).md, StateB64) == cursor
    ensures Value(InitBatch(cursor, token).md, CallStateB64) == token
  {
    var a := CursorBatch(cursor).md;
    HasCons(a);
    assert a[1..] == [];
    var b := InitBatch(cursor, token).md;
    HasCons(b);
    assert b[1..] == [Field(CallStateB64, token)];
    HasCons(b[1..]);
  }

  /** Logs in front, the turn, and its control batch if it has one, are read apart again. */
  lemma WireReads(r: Resolver, c: Codec, policy: Policy, store: Store, url: string,
                  lead: seq<Batch>, batches: seq<Batch>, control: seq<Batch>, shape: Shape)
    requires Lawful(c) && r.enabled && r.codec == c && CleanEmission(batches) && (forall b <- lead :: CleanLog(b))
    requires r.store == ProducerTurn(c, policy, store, url, batches, control).store
    requires shape == PRODUCER_TURN || shape == STREAM_INIT
    requires control == [] || (|control| == 1 && IsControl(control[0]))
    ensures var d := Decode(r, lead + ProducerTurn(c, policy, store, url, batches, control).wire, shape, false);
      var data := Received(c, policy, url, r.ms, batches);
      d == Decoded(lead + LogsIn(batches), data, control, None) && Stripped(data) == data
  {
    hide DecodeOne, Judge, Decode, DataIn, LogsIn, Received, Stripped, ExternalizeCycle;
    var body := ProducerTurn(c, policy, store, url, batches, []).wire;
    assert ProducerTurn(c, policy, store, url, batches, control).wire == body + control;
    TurnReads(r, c, policy, store, url, batches, shape);
    var t := Decode(r, body, shape, false);
    var whole := Decoded(t.logs, t.data, control, None);
    DecodeAppend(r, body, control, shape, false);
    if control == [] {
      assert Decode(r, body + control, shape, false) == whole;
    } else {
      DecodeControl(r, control[0], shape, t.data != []);
      assert control == [control[0]];
      assert Decode(r, body + control, shape, false) == whole;
    }
    DecodeLogs(r, lead, shape, false);
    DecodeAppend(r, lead, body + control, shape, false);
    assert Decode(r, lead + (body + control), shape, false) == whole.(logs := lead + t.logs);
  }
}
