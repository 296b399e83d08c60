/**
  The codec between the two ends of an HTTP stream turn.

  The server stamps its cursor on the data batch, or sends it on a batch of its own, or uploads the
  whole turn and sends one pointer batch in its place.  The client reads whichever form arrives.
  The serializer, the compressor, the digest and the storage are parameters, tied together only by
  `Lawful`.
 */
module Framing {
  import opened Base
  import opened Wire

  /** Arrow IPC bytes, zstd and SHA-256, as functions. `zip` may fail, and the upload then stays plain. */
  datatype Codec = Codec(
    ipc: seq<Batch> -> Bytes,
    read: Bytes -> Option<seq<Batch>>,
    zip: Bytes -> Option<Bytes>,
    unzip: Bytes -> Option<Bytes>,
    sha: Bytes -> string)

  ghost predicate Lawful(c: Codec) {
    && (forall bs :: c.read(c.ipc(bs)) == Some(bs))
    && (forall b :: c.zip(b).Some? ==> c.unzip(c.zip(b).value) == Some(b))
  }

  /** One stored object and its content encoding. */
  datatype Object = Object(zstd: bool, body: Bytes)

  type Store = map<string, Object>

  // ---- Server ------------------------------------------------------------------------------

  datatype Policy = Policy(hasStorage: bool, threshold: int, compress: bool)

  datatype Externalized = Externalized(pointer: Option<Metadata>, store: Store, bytes: nat)

  /** Neither a log nor an exception. */
  predicate IsDataType(b: Batch) {
    b.rows > 0 || !Has(b.md, LogLevel) || !Has(b.md, LogMessage)
  }

  /** The digest is of the bytes before compression. */
  function Upload(c: Codec, policy: Policy, raw: Bytes): Object {
    if policy.compress && c.zip(raw).Some? then Object(true, c.zip(raw).value) else Object(false, raw)
  }

  /** `url` is the name the storage gives the upload, if there is one. */
  function ExternalizeCycle(c: Codec, policy: Policy, store: Store, url: string, batches: seq<Batch>): Externalized {
    if !policy.hasStorage || policy.threshold < 0 || batches == [] then Externalized(None, store, 0)
    else if !(exists b <- batches :: IsDataType(b)) then Externalized(None, store, 0)
    else
      var cycle := c.ipc(batches);
      if |cycle| < policy.threshold then Externalized(None, store, 0)
      else
        var o := Upload(c, policy, cycle);
        Externalized(Some([Field(Location, url), Field(LocationSha256, c.sha(cycle))]), store[url := o], |o.body|)
  }

  function CursorField(cursor: string): Field {
    Field(StateB64, cursor)
  }

  function Stamp(b: Batch, cursor: string): Batch {
    if b.rows > 0 then b.(md := Merge(b.md, [CursorField(cursor)])) else b
  }

  function StampAll(batches: seq<Batch>, cursor: string): seq<Batch> {
    if batches == [] then [] else [Stamp(batches[0], cursor)] + StampAll(batches[1..], cursor)
  }

  /** Of a single field the two ways of merging make the same. */
  lemma OneFieldOnto(md: Metadata, f: Field)
    ensures MergeOnto(md, [f]) == Merge(md, [f])
  {
    assert [f][1..] == [] && Erase([], f.key) == [];
    assert Merge(md, [f]) == Merge(Erase(md, f.key) + [f], [f][1..]);
  }

  /** The loop that puts the cursor on every batch with rows. */
  method StampBatches(batches: seq<Batch>, cursor: string) returns (stamped: seq<Batch>)
    ensures stamped == StampAll(batches, cursor)
  {
    hide Merge;
    stamped := [];
    var i := 0;
    assert batches[0..] == batches;
    while i < |batches|
      invariant 0 <= i <= |batches|
      invariant stamped + StampAll(batches[i..], cursor) == StampAll(batches, cursor)
    {
      var rest := batches[i + 1..];
      assert batches[i..][1..] == rest;
      Assoc(stamped, [Stamp(batches[i], cursor)], StampAll(rest, cursor));
      var b := batches[i];
      if b.rows > 0 {
        OneFieldOnto(b.md, CursorField(cursor));
        var merged := MergeMetadata(b.md, [CursorField(cursor)]);
        b := b.(md := merged);
      }
      stamped := stamped + [b];
      i := i + 1;
    }
  }

  function CursorBatch(cursor: string): Batch {
    Batch(0, 0, [CursorField(cursor)])
  }

  datatype Sent = Sent(wire: seq<Batch>, store: Store, bytes: nat)

  function ExchangeTurn(c: Codec, policy: Policy, store: Store, url: string, batches: seq<Batch>,
                        cursor: string): Sent {
    var stamped := StampAll(batches, cursor);
    var trailing := batches == [] || batches[|batches| - 1].rows == 0;
    var e := ExternalizeCycle(c, policy, store, url, stamped);
    var body := if e.pointer.Some? then [Batch(0, 0, e.pointer.value)] else stamped;
    Sent(body + if trailing then [CursorBatch(cursor)] else [], e.store, e.bytes)
  }

  /**
    A producer turn never stamps: an unfinished one ends with the cursor, or at `/init` both tokens,
    on its own batch.
   */
  function ProducerTurn(c: Codec, policy: Policy, store: Store, url: string, batches: seq<Batch>,
                        control: seq<Batch>): Sent {
    var e := ExternalizeCycle(c, policy, store, url, batches);
    Sent((if e.pointer.Some? then [Batch(0, 0, e.pointer.value)] else batches) + control, e.store, e.bytes)
  }

  // ---- Client ------------------------------------------------------------------------------

  datatype Shape = UNARY | EXCHANGE_INIT | EXCHANGE_TURN | STREAM_INIT | PRODUCER_TURN

  datatype Fault = RemoteError(message: string) | ProtocolError

  datatype Decoded = Decoded(logs: seq<Batch>, data: seq<Batch>, control: seq<Batch>, fault: Option<Fault>)

  /** What the client resolves pointers with; `ms` is the elapsed time it stamps. */
  datatype Resolver = Resolver(enabled: bool, codec: Codec, store: Store, ms: string)

  predicate IsLocation(k: Key) {
    k == Location || k == LocationSha256 || k == LocationSource || k == LocationFetchMs
  }

  function DropLocation(md: Metadata): Metadata {
    if md == [] then []
    else if IsLocation(md[0].key) then DropLocation(md[1..])
    else [md[0]] + DropLocation(md[1..])
  }

  /** The pointer's metadata, then the fetched batch's with precedence, then the reader's provenance. */
  function MergeResolution(outer: Metadata, inner: Metadata, url: string, ms: string): Metadata {
    var both := Merge(DropLocation(outer), DropLocation(inner));
    Erase(Erase(both, LocationSource), LocationFetchMs)
      + [Field(LocationSource, url), Field(LocationFetchMs, ms)]
  }

  /** The two copying loops and the erasures of `merge_resolution_metadata`. */
  method MergeResolutionMetadata(outer: Metadata, inner: Metadata, url: string, ms: string) returns (result: Metadata)
    ensures result == MergeResolution(outer, inner, url, ms)
  {
    hide Merge, Erase;
    result := [];
    var i := 0;
    while i < |outer|
      invariant 0 <= i <= |outer|
      invariant result + DropLocation(outer[i..]) == DropLocation(outer)
    {
      assert outer[i..][1..] == outer[i + 1..];
      if !IsLocation(outer[i].key) {
        result := result + [outer[i]];
      }
      i := i + 1;
    }
    assert result == DropLocation(outer);
    MergeNothing(result);
    i := 0;
    while i < |inner|
      invariant 0 <= i <= |inner|
      invariant Merge(result, DropLocation(inner[i..])) == Merge(DropLocation(outer), DropLocation(inner))
    {
      assert inner[i..][1..] == inner[i + 1..];
      if !IsLocation(inner[i].key) {
        MergeHead(result, inner[i], DropLocation(inner[i + 1..]));
        result := EraseKey(result, inner[i].key);
        result := result + [inner[i]];
      }
      i := i + 1;
    }
    MergeNothing(result);
    result := EraseKey(result, LocationSource);
    result := EraseKey(result, LocationFetchMs);
    result := result + [Field(LocationSource, url), Field(LocationFetchMs, ms)];
  }

  lemma MergeNothing(md: Metadata)
    ensures Merge(md, []) == md
  {
  }

  lemma MergeHead(md: Metadata, f: Field, rest: Metadata)
    ensures Merge(md, [f] + rest) == Merge(Erase(md, f.key) + [f], rest)
  {
    assert ([f] + rest)[1..] == rest;
  }

  function Fetch(r: Resolver, url: string, checksum: string): Option<Bytes> {
    if url !in r.store then None
    else
      var o := r.store[url];
      var decoded := if o.zstd then r.codec.unzip(o.body) else Some(o.body);
      if decoded.None? || (checksum != "" && r.codec.sha(decoded.value) != checksum) then None else decoded
  }

  datatype Payload = Payload(logs: seq<Batch>, data: seq<Batch>, ok: bool)

  predicate IsLogBatch(b: Batch) {
    b.rows == 0 && Has(b.md, LogLevel) && Has(b.md, LogMessage)
  }

  predicate IsException(b: Batch) {
    Value(b.md, LogLevel) == "EXCEPTION"
  }

  function ScanPayload(batches: seq<Batch>): Payload {
    if batches == [] then Payload([], [], true)
    else
      var b := batches[0];
      if Has(b.md, Location) || (IsLogBatch(b) && IsException(b)) then Payload([], [], false)
      else
        var rest := ScanPayload(batches[1..]);
        if IsLogBatch(b) then rest.(logs := [b] + rest.logs) else rest.(data := [b] + rest.data)
  }

  datatype Resolution = Resolution(logs: seq<Batch>, batch: Option<Batch>)

  function ResolvePointer(r: Resolver, ptr: Batch): Resolution {
    if ptr.rows != 0 || Has(ptr.md, LogLevel) then Resolution([], None)
    else
      var url := Value(ptr.md, Location);
      var payload := Fetch(r, url, Value(ptr.md, LocationSha256));
      if payload.None? then Resolution([], None)
      else
        var contents := r.codec.read(payload.value);
        if contents.None? then Resolution([], None)
        else
          var scan := ScanPayload(contents.value);
          if !scan.ok || |scan.data| != 1 then Resolution(scan.logs, None)
          else
            var d := scan.data[0];
            Resolution(scan.logs, Some(d.(md := MergeResolution(ptr.md, d.md, url, r.ms))))
  }

  datatype Verdict = AsLog | AsRemote(message: string) | AsBad | AsControl | AsData

  /** How a batch that is not, or no longer, a pointer is read; `saw` says a data batch came before it. */
  function Judge(b: Batch, shape: Shape, saw: bool): Verdict {
    var cursor := Has(b.md, StateB64);
    if IsLogBatch(b) then
      if IsException(b) then AsRemote(Value(b.md, LogMessage)) else AsLog
    else if Has(b.md, Location) || Has(b.md, ShmOffset) || Has(b.md, StreamState) then AsBad
    else if cursor && (shape == EXCHANGE_INIT || shape == STREAM_INIT || shape == PRODUCER_TURN) then
      if b.rows == 0 then AsControl else AsBad
    else if cursor && shape == UNARY then AsBad
    else if cursor && b.rows == 0 && saw && shape == EXCHANGE_TURN then AsControl
    else AsData
  }

  function Resolve(r: Resolver, b: Batch): Resolution {
    if !Has(b.md, Location) then Resolution([], Some(b))
    else if !r.enabled then Resolution([], None)
    else ResolvePointer(r, b)
  }

  const NOTHING := Decoded([], [], [], None)

  /** What one batch of the wire contributes. */
  function DecodeOne(r: Resolver, wire: Batch, shape: Shape, saw: bool): Decoded {
    var res := Resolve(r, wire);
    if res.batch.None? then Decoded(res.logs, [], [], Some(ProtocolError))
    else
      var b := res.batch.value;
      match Judge(b, shape, saw)
      case AsRemote(message) => Decoded(res.logs, [], [], Some(RemoteError(message)))
      case AsBad => Decoded(res.logs, [], [], Some(ProtocolError))
      case AsLog => Decoded(res.logs + [b], [], [], None)
      case AsControl => Decoded(res.logs, [], [b], None)
      case AsData => Decoded(res.logs, [b], [], None)
  }

  /** `a`, and after it `b` unless `a` stopped the decoding. */
  function Then(a: Decoded, b: Decoded): Decoded {
    if a.fault.Some? then a
    else Decoded(a.logs + b.logs, a.data + b.data, a.control + b.control, b.fault)
  }

  function Decode(r: Resolver, batches: seq<Batch>, shape: Shape, saw: bool): Decoded {
    if batches == [] then NOTHING
    else
      var one := DecodeOne(r, batches[0], shape, saw);
      Then(one, Decode(r, batches[1..], shape, saw || one.data != []))
  }

  lemma DecodeNext(r: Resolver, batches: seq<Batch>, i: nat, shape: Shape, saw: bool, before: Decoded)
    requires i < |batches|
    ensures var one := DecodeOne(r, batches[i], shape, saw);
      Then(before, Decode(r, batches[i..], shape, saw))
        == Then(Then(before, one), Decode(r, batches[i + 1..], shape, saw || one.data != []))
  {
    assert batches[i..][1..] == batches[i + 1..];
    var one := DecodeOne(r, batches[i], shape, saw);
    ThenAssociates(before, one, Decode(r, batches[i + 1..], shape, saw || one.data != []));
  }

  lemma ThenAssociates(a: Decoded, b: Decoded, c: Decoded)
    ensures Then(Then(a, b), c) == Then(a, Then(b, c))
    ensures Then(NOTHING, c) == c && Then(a, NOTHING) == a
  {
  }

  /** `decode_response` over one stream, as the loop it is. */
  method DecodeResponse(r: Resolver, batches: seq<Batch>, shape: Shape) returns (decoded: Decoded)
    ensures decoded == Decode(r, batches, shape, false)
  {
    hide DecodeOne;
    decoded := NOTHING;
    var saw := false;
    var i := 0;
    while i < |batches|
      invariant 0 <= i <= |batches|
      invariant Decode(r, batches, shape, false) == Then(decoded, Decode(r, batches[i..], shape, saw))
      invariant decoded.fault.None?
    {
      var one := DecodeOne(r, batches[i], shape, saw);
      DecodeNext(r, batches, i, shape, saw, decoded);
      decoded := Then(decoded, one);
      if decoded.fault.Some? {
        return;
      }
      saw := saw || one.data != [];
      i := i + 1;
    }
  }

  /** The last cursor on any control batch, or empty. */
  function ControlCursor(control: seq<Batch>): string {
    if control == [] then ""
    else
      var last := Value(control[|control| - 1].md, StateB64);
      if last != "" then last else ControlCursor(control[..|control| - 1])
  }

  function StripTransport(md: Metadata): Metadata {
    EraseFirst(EraseFirst(md, StateB64), CallStateB64)
  }

  datatype Answer =
    | Output(logs: seq<Batch>, value: Batch, cursor: string)
    | Finished(logs: seq<Batch>)
    | Failure(logs: seq<Batch>, fault: Fault)

  /** What `exchange()` makes of a decoded turn. */
  function ExchangeAnswer(d: Decoded): Answer {
    if d.fault.Some? then Failure(d.logs, d.fault.value)
    else if d.data == [] then Finished(d.logs)
    else if |d.data| != 1 then Failure(d.logs, ProtocolError)
    else
      var v := d.data[0];
      var own := Value(v.md, StateB64);
      Output(d.logs, v.(md := StripTransport(v.md)), if own != "" then own else ControlCursor(d.control))
  }
}
