/**
  Record batches as the RPC wire sees them: a row count, an opaque identity for the columns, and a
  list of key-value metadata in which a key may repeat and a reader takes the first occurrence.
 */
module Wire {

  /** The framework's metadata keys that some reader branches on; all others are `App`. */
  datatype Key =
    | LogLevel
    | LogMessage
    | Location
    | LocationSha256
    | LocationSource
    | LocationFetchMs
    | ShmOffset
    | StreamState
    | StateB64
    | CallStateB64
    | App(name: string)

  datatype Field = Field(key: Key, value: string)

  type Metadata = seq<Field>

  datatype Batch = Batch(rows: nat, content: nat, md: Metadata)

  predicate Has(md: Metadata, key: Key) {
    exists i | 0 <= i < |md| :: md[i].key == key
  }

  /** The value of the first occurrence, or the empty string. */
  function Value(md: Metadata, key: Key): (v: string)
    ensures !Has(md, key) ==> v == ""
  {
    if md == [] then ""
    else if md[0].key == key then md[0].value
    else
      assert forall i | 0 <= i < |md[1..]| :: md[1..][i] == md[i + 1];
      Value(md[1..], key)
  }

  /** Removes every occurrence of `key`. */
  function Erase(md: Metadata, key: Key): Metadata {
    if md == [] then []
    else if md[0].key == key then Erase(md[1..], key)
    else [md[0]] + Erase(md[1..], key)
  }

  /** `Erase` leaves no occurrence of `key`, loses no other key, and keeps what lacks `key` as it is. */
  lemma EraseHas(md: Metadata, key: Key)
    ensures !Has(Erase(md, key), key)
    ensures forall k | k != key :: Has(Erase(md, key), k) == Has(md, k)
    ensures !Has(md, key) ==> Erase(md, key) == md
  {
    if md != [] {
      EraseHas(md[1..], key);
      HasCons(md);
      HasAppend([md[0]], Erase(md[1..], key));
      HasCons([md[0]]);
    }
  }

  lemma HasCons(md: Metadata)
    requires md != []
    ensures forall k :: Has(md, k) <==> md[0].key == k || Has(md[1..], k)
  {
  }

  lemma HasAppend(a: Metadata, b: Metadata)
    ensures forall k :: Has(a + b, k) <==> Has(a, k) || Has(b, k)
  {
    forall k
      ensures Has(a + b, k) <==> Has(a, k) || Has(b, k)
    {
      if Has(a, k) {
        var i :| 0 <= i < |a| && a[i].key == k;
        assert (a + b)[i].key == k;
      }
      if Has(b, k) {
        var i :| 0 <= i < |b| && b[i].key == k;
        assert (a + b)[|a| + i].key == k;
      }
    }
  }

  lemma ValueAppend(a: Metadata, b: Metadata, key: Key)
    ensures Value(a + b, key) == if Has(a, key) then Value(a, key) else Value(b, key)
  {
    if a == [] {
      assert a + b == b;
    } else {
      assert (a + b)[1..] == a[1..] + b;
      HasCons(a);
      ValueAppend(a[1..], b, key);
    }
  }

  lemma {:induction false} EraseAt(md: Metadata, i: nat)
    requires i < |md|
    ensures Erase(md[..i] + md[i + 1..], md[i].key) == Erase(md, md[i].key)
  {
    var less := md[..i] + md[i + 1..];
    if i == 0 {
      assert less == md[1..];
    } else {
      assert less[0] == md[0];
      assert less[1..] == md[1..][..i - 1] + md[1..][i..];
      EraseAt(md[1..], i - 1);
    }
  }

  /** Removes the first occurrence of `key` only. */
  function EraseFirst(md: Metadata, key: Key): Metadata {
    if md == [] then []
    else if md[0].key == key then md[1..]
    else [md[0]] + EraseFirst(md[1..], key)
  }

  lemma EraseFirstAbsent(md: Metadata, key: Key)
    requires !Has(md, key)
    ensures EraseFirst(md, key) == md
  {
  }

  lemma EraseFirstOfLast(md: Metadata, f: Field)
    requires !Has(md, f.key)
    ensures EraseFirst(md + [f], f.key) == md
  {
    if md == [] {
      assert md + [f] == [f];
    } else {
      HasCons(md);
      assert (md + [f])[1..] == md[1..] + [f];
      EraseFirstOfLast(md[1..], f);
    }
  }

  /** Folds `extra` in one field at a time: every older occurrence of its key goes, then it is appended. */
  function Merge(md: Metadata, extra: Metadata): Metadata
    decreases |extra|
  {
    if extra == [] then md else Merge(Erase(md, extra[0].key) + [extra[0]], extra[1..])
  }

  /** Metadata folded into a batch's own; a batch without any takes the extra list as it stands. */
  function MergeOnto(md: Metadata, extra: Metadata): Metadata {
    if md == [] then extra else Merge(md, extra)
  }

  /** `merge_metadata`, as the loop it is. */
  method MergeMetadata(md: Metadata, extra: Metadata) returns (merged: Metadata)
    ensures merged == MergeOnto(md, extra)
  {
    if md == [] {
      return extra;
    }
    merged := md;
    var i := 0;
    while i < |extra|
      invariant 0 <= i <= |extra|
      invariant Merge(md, extra) == Merge(merged, extra[i..])
    {
      assert extra[i..][1..] == extra[i + 1..];
      merged := EraseKey(merged, extra[i].key);
      merged := merged + [extra[i]];
      i := i + 1;
    }
  }

  /** Deletes the first occurrence of `key` until there is none. */
  method EraseKey(md: Metadata, key: Key) returns (r: Metadata)
    ensures r == Erase(md, key)
  {
    r := md;
    var i := FindKey(r, key);
    while i >= 0
      invariant Erase(r, key) == Erase(md, key)
      invariant -1 <= i < |r|
      invariant i >= 0 ==> r[i].key == key
      invariant i < 0 ==> !Has(r, key)
      decreases |r|
    {
      EraseAt(r, i);
      r := r[..i] + r[i + 1..];
      i := FindKey(r, key);
    }
    EraseHas(r, key);
  }

  method FindKey(md: Metadata, key: Key) returns (i: int)
    ensures -1 <= i < |md|
    ensures i >= 0 ==> md[i].key == key && forall j | 0 <= j < i :: md[j].key != key
    ensures i < 0 <==> !Has(md, key)
  {
    i := 0;
    while i < |md|
      invariant 0 <= i <= |md|
      invariant forall j | 0 <= j < i :: md[j].key != key
    {
      if md[i].key == key {
        return;
      }
      i := i + 1;
    }
    i := -1;
  }
}
