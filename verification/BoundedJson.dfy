/**
  The bounded JSON reader: a SAX stack machine against its recursive meaning on trees, and the
  recursive validator of parsed values beside it.
 */
module BoundedJson {
  import opened Base
  import Utf8

  datatype Json =
    | Null
    | Boolean(b: bool)
    | Integer(i: int)
    | Float(finite: bool)
    | Text(text: Bytes)
    | Array(items: seq<Json>)
    | Object(members: seq<Member>)

  datatype Member = Member(key: Bytes, value: Json)

  datatype Event =
    | Scalar
    | Number(finite: bool)
    | Str(text: Bytes)
    | StartObject
    | Key(key: Bytes)
    | EndObject
    | StartArray
    | EndArray

  datatype Limits = Limits(depth: nat, values: nat)

  // ---- The event sequence of a tree ----------------------------------------------------------------

  function Events(t: Json): seq<Event>
    decreases t
  {
    match t
    case Null => [Scalar]
    case Boolean(_) => [Scalar]
    case Integer(_) => [Scalar]
    case Float(finite) => [Number(finite)]
    case Text(text) => [Str(text)]
    case Array(items) => [StartArray] + ItemEvents(items) + [EndArray]
    case Object(members) => [StartObject] + MemberEvents(members) + [EndObject]
  }

  function ItemEvents(items: seq<Json>): seq<Event>
    decreases items
  {
    if items == [] then [] else Events(items[0]) + ItemEvents(items[1..])
  }

  function MemberEvents(members: seq<Member>): seq<Event>
    decreases members
  {
    if members == [] then [] else [Key(members[0].key)] + Events(members[0].value) + MemberEvents(members[1..])
  }

  // ---- The machine -----------------------------------------------------------------------------------

  /** `stack` has an entry per open container: the keys seen so far of an object, nothing for an array. */
  datatype State = State(values: nat, stack: seq<Option<set<Bytes>>>)

  function Value(l: Limits, s: State): Option<State> {
    if s.values + 1 <= l.values then Some(s.(values := s.values + 1)) else None
  }

  function Open(l: Limits, s: State, entry: Option<set<Bytes>>): Option<State> {
    if Value(l, s).None? || |s.stack| + 1 > l.depth then None
    else Some(State(s.values + 1, s.stack + [entry]))
  }

  function Pop(s: State): Option<State> {
    if s.stack == [] then None else Some(s.(stack := s.stack[..|s.stack| - 1]))
  }

  function Handle(l: Limits, s: State, e: Event): Option<State> {
    match e
    case Scalar => Value(l, s)
    case Number(finite) => if finite then Value(l, s) else None
    case Str(text) => if Utf8.Valid(text) then Value(l, s) else None
    case StartObject => Open(l, s, Some({}))
    case Key(key) =>
      if Utf8.Valid(key) && s.stack != [] && s.stack[|s.stack| - 1].Some? && key !in s.stack[|s.stack| - 1].value
      then Some(s.(stack := s.stack[|s.stack| - 1 := Some(s.stack[|s.stack| - 1].value + {key})])) else None
    case EndObject => Pop(s)
    case StartArray => Open(l, s, None)
    case EndArray => Pop(s)
  }

  function Feed(l: Limits, s: State, events: seq<Event>): Option<State>
    decreases events
  {
    if events == [] then Some(s)
    else
      var next := Handle(l, s, events[0]);
      if next.None? then None else Feed(l, next.value, events[1..])
  }

  class BoundedJsonSax {
    const limits: Limits
    var values: nat
    var stack: seq<Option<set<Bytes>>>

    function Now(): State
      reads this
    {
      State(values, stack)
    }

    constructor (limits: Limits)
      ensures this.limits == limits && Now() == State(0, [])
    {
      this.limits := limits;
      values, stack := 0, [];
    }

    method CountValue() returns (ok: bool)
      modifies this`values
      ensures values == old(values) + 1
      ensures ok == Value(limits, old(Now())).Some?
    {
      values := values + 1;
      ok := values <= limits.values;
    }

    method Push(entry: Option<set<Bytes>>) returns (ok: bool)
      modifies this
      ensures ok == Open(limits, old(Now()), entry).Some?
      ensures ok ==> Now() == Open(limits, old(Now()), entry).value
    {
      ok := CountValue();
      if !ok || |stack| + 1 > limits.depth {
        return false;
      }
      stack := stack + [entry];
    }

    method KeySeen(key: Bytes) returns (ok: bool)
      modifies this`stack
      ensures ok == Handle(limits, old(Now()), Key(key)).Some?
      ensures ok ==> Now() == Handle(limits, old(Now()), Key(key)).value
    {
      hide Utf8.Valid;
      Utf8.ValidIffUtf8(key);
      var text := Utf8.ValidUtf8(key);
      if !text || stack == [] || stack[|stack| - 1].None? || key in stack[|stack| - 1].value {
        return false;
      }
      stack := stack[|stack| - 1 := Some(stack[|stack| - 1].value + {key})];
      return true;
    }

    method Leave() returns (ok: bool)
      modifies this`stack
      ensures ok == Pop(old(Now())).Some?
      ensures ok ==> Now() == Pop(old(Now())).value
    {
      if stack == [] {
        return false;
      }
      stack := stack[..|stack| - 1];
      return true;
    }

    /** What the parser calls for each event; it stops at the first refusal. */
    method On(e: Event) returns (ok: bool)
      modifies this
      ensures ok == Handle(limits, old(Now()), e).Some?
      ensures ok ==> Now() == Handle(limits, old(Now()), e).value
    {
      hide Utf8.Valid;
      match e
      case Scalar => ok := CountValue();
      case Number(finite) =>
        if !finite {
          return false;
        }
        ok := CountValue();
      case Str(text) =>
        Utf8.ValidIffUtf8(text);
        var valid := Utf8.ValidUtf8(text);
        if !valid {
          return false;
        }
        ok := CountValue();
      case StartObject => ok := Push(Some({}));
      case Key(key) => ok := KeySeen(key);
      case EndObject => ok := Leave();
      case StartArray => ok := Push(None);
      case EndArray => ok := Leave();
    }
  }

  method SaxParse(limits: Limits, events: seq<Event>) returns (ok: bool)
    ensures ok == Feed(limits, State(0, []), events).Some?
  {
    hide Handle;
    var sax := new BoundedJsonSax(limits);
    var i := 0;
    while i < |events|
      invariant 0 <= i <= |events| && sax.limits == limits
      invariant Feed(limits, State(0, []), events) == Feed(limits, sax.Now(), events[i..])
    {
      assert events[i..][1..] == events[i + 1..];
      ok := sax.On(events[i]);
      if !ok {
        return;
      }
      i := i + 1;
    }
    return true;
  }

  // ---- The recursive meaning -----------------------------------------------------------------------

  function Max(a: nat, b: nat): nat {
    if a > b then a else b
  }

  /** How deep containers nest. */
  function Depth(t: Json): nat
    decreases t
  {
    match t
    case Array(items) => 1 + ItemsDepth(items)
    case Object(members) => 1 + MembersDepth(members)
    case _ => 0
  }

  function ItemsDepth(items: seq<Json>): nat
    decreases items
  {
    if items == [] then 0 else Max(Depth(items[0]), ItemsDepth(items[1..]))
  }

  function MembersDepth(members: seq<Member>): nat
    decreases members
  {
    if members == [] then 0 else Max(Depth(members[0].value), MembersDepth(members[1..]))
  }

  /** How many values there are, containers included. */
  function Count(t: Json): (n: nat)
    ensures n > 0
    decreases t
  {
    match t
    case Array(items) => 1 + ItemsCount(items)
    case Object(members) => 1 + MembersCount(members)
    case _ => 1
  }

  function ItemsCount(items: seq<Json>): nat
    decreases items
  {
    if items == [] then 0 else Count(items[0]) + ItemsCount(items[1..])
  }

  function MembersCount(members: seq<Member>): nat
    decreases members
  {
    if members == [] then 0 else Count(members[0].value) + MembersCount(members[1..])
  }

  /** Strings and keys are UTF-8 and floats finite. */
  predicate TextOk(t: Json)
    decreases t
  {
    match t
    case Float(finite) => finite
    case Text(text) => Utf8.Valid(text)
    case Array(items) => ItemsTextOk(items)
    case Object(members) => MembersTextOk(members)
    case _ => true
  }

  predicate ItemsTextOk(items: seq<Json>)
    decreases items
  {
    items == [] || (TextOk(items[0]) && ItemsTextOk(items[1..]))
  }

  predicate MembersTextOk(members: seq<Member>)
    decreases members
  {
    members == [] || (Utf8.Valid(members[0].key) && TextOk(members[0].value) && MembersTextOk(members[1..]))
  }

  /** No object names a key twice, nor any key in `seen`. */
  predicate KeysDistinct(t: Json)
    decreases t
  {
    match t
    case Array(items) => ItemsDistinct(items)
    case Object(members) => MembersDistinct(members, {})
    case _ => true
  }

  predicate ItemsDistinct(items: seq<Json>)
    decreases items
  {
    items == [] || (KeysDistinct(items[0]) && ItemsDistinct(items[1..]))
  }

  predicate MembersDistinct(members: seq<Member>, seen: set<Bytes>)
    decreases members
  {
    members == []
    || (members[0].key !in seen && KeysDistinct(members[0].value)
        && MembersDistinct(members[1..], seen + {members[0].key}))
  }

  function KeysOf(members: seq<Member>): set<Bytes> {
    if members == [] then {} else {members[0].key} + KeysOf(members[1..])
  }

  // ---- The machine means the recursion -------------------------------------------------------------

  lemma {:induction false} FeedAppend(l: Limits, s: State, a: seq<Event>, b: seq<Event>)
    ensures Feed(l, s, a + b) == if Feed(l, s, a).None? then None else Feed(l, Feed(l, s, a).value, b)
    decreases a
  {
    hide Handle;
    if a == [] {
      assert a + b == b;
    } else {
      assert (a + b)[1..] == a[1..] + b;
      var next := Handle(l, s, a[0]);
      if next.Some? {
        FeedAppend(l, next.value, a[1..], b);
      }
    }
  }

  lemma FeedOne(l: Limits, s: State, e: Event)
    ensures Feed(l, s, [e]) == Handle(l, s, e)
  {
  }

  predicate Fits(l: Limits, s: State, count: nat, depth: nat) {
    s.values + count <= l.values && (depth > 0 ==> |s.stack| + depth <= l.depth)
  }

  lemma {:induction false} FeedTree(l: Limits, s: State, t: Json)
    ensures Feed(l, s, Events(t))
         == if Fits(l, s, Count(t), Depth(t)) && TextOk(t) && KeysDistinct(t)
            then Some(s.(values := s.values + Count(t))) else None
    decreases t, 0
  {
    match t
    case Array(items) => FeedArray(l, s, items);
    case Object(members) => FeedObject(l, s, members);
    case _ =>
      hide Utf8.Valid;
      FeedOne(l, s, Events(t)[0]);
  }

  /** A container's events: it opens, its contents are fed, it closes. */
  lemma FeedBracketed(l: Limits, s: State, start: Event, inner: seq<Event>, end: Event)
    ensures Feed(l, s, [start] + inner + [end])
         == match Handle(l, s, start)
            case None => None
            case Some(open) =>
              match Feed(l, open, inner)
              case None => None
              case Some(full) => Handle(l, full, end)
  {
    hide Handle;
    FeedAppend(l, s, [start] + inner, [end]);
    FeedAppend(l, s, [start], inner);
    FeedOne(l, s, start);
    var open := Handle(l, s, start);
    if open.Some? && Feed(l, open.value, inner).Some? {
      FeedOne(l, Feed(l, open.value, inner).value, end);
    }
  }

  lemma {:induction false} FeedArray(l: Limits, s: State, items: seq<Json>)
    ensures Feed(l, s, Events(Array(items)))
         == if Fits(l, s, 1 + ItemsCount(items), 1 + ItemsDepth(items)) && ItemsTextOk(items) && ItemsDistinct(items)
            then Some(s.(values := s.values + 1 + ItemsCount(items))) else None
    decreases items, 1
  {
    FeedBracketed(l, s, StartArray, ItemEvents(items), EndArray);
    FeedItems(l, State(s.values + 1, s.stack + [None]), items);
    NoItems();
    hide ItemsTextOk, ItemsDistinct, ItemsCount, ItemsDepth, Feed;
    assert (s.stack + [None])[..|s.stack|] == s.stack;
  }

  lemma NoItems()
    ensures ItemsTextOk([]) && ItemsDistinct([]) && ItemsCount([]) == 0 && ItemsDepth([]) == 0
  {
  }

  lemma {:induction false} FeedItems(l: Limits, s: State, items: seq<Json>)
    ensures Feed(l, s, ItemEvents(items))
         == if s.values + ItemsCount(items) <= l.values || items == [] then
              if (ItemsDepth(items) > 0 ==> |s.stack| + ItemsDepth(items) <= l.depth) && ItemsTextOk(items)
                  && ItemsDistinct(items)
              then Some(s.(values := s.values + ItemsCount(items))) else None
            else None
    decreases items, 0
  {
    if items != [] {
      FeedAppend(l, s, Events(items[0]), ItemEvents(items[1..]));
      FeedTree(l, s, items[0]);
      hide Events, TextOk, KeysDistinct, Depth, Count;
      FeedItems(l, s.(values := s.values + Count(items[0])), items[1..]);
    }
  }

  lemma PopPushed(values: nat, stack: seq<Option<set<Bytes>>>, entry: Option<set<Bytes>>)
    ensures Pop(State(values, stack + [entry])) == Some(State(values, stack))
  {
    assert (stack + [entry])[..|stack|] == stack;
  }

  lemma NoMembers()
    ensures MembersTextOk([]) && MembersDistinct([], {}) && MembersCount([]) == 0 && MembersDepth([]) == 0
        && KeysOf([]) == {}
  {
  }

  lemma {:induction false} FeedObject(l: Limits, s: State, members: seq<Member>)
    ensures Feed(l, s, Events(Object(members)))
         == if Fits(l, s, 1 + MembersCount(members), 1 + MembersDepth(members)) && MembersTextOk(members)
             && MembersDistinct(members, {})
            then Some(s.(values := s.values + 1 + MembersCount(members))) else None
    decreases members, 1
  {
    FeedBracketed(l, s, StartObject, MemberEvents(members), EndObject);
    FeedMembers(l, State(s.values + 1, s.stack), members, {});
    NoMembers();
    hide MembersTextOk, MembersDistinct, MembersCount, MembersDepth, KeysOf, Feed;
    PopPushed(s.values + 1 + MembersCount(members), s.stack, Some({} + KeysOf(members)));
    PopPushed(s.values + 1, s.stack, Some({}));
    hide Pop;
  }

  /** What members fed into an object that has `seen` some keys must leave. */
  function MembersFed(l: Limits, s: State, members: seq<Member>, seen: set<Bytes>): Option<State> {
    if members == [] then Some(s.(stack := s.stack + [Some(seen)]))
    else if && s.values + MembersCount(members) <= l.values
            && (MembersDepth(members) > 0 ==> |s.stack| + 1 + MembersDepth(members) <= l.depth)
            && MembersTextOk(members) && MembersDistinct(members, seen)
    then Some(State(s.values + MembersCount(members), s.stack + [Some(seen + KeysOf(members))]))
    else None
  }

  /** The first member fits and what it leaves feeds the others, or nothing does. */
  lemma MembersFedHead(l: Limits, s: State, members: seq<Member>, seen: set<Bytes>)
    requires members != []
    ensures var key, value := members[0].key, members[0].value;
      MembersFed(l, s, members, seen)
        == if MemberFits(l, s, key, value, seen)
           then MembersFed(l, s.(values := s.values + Count(value)), members[1..], seen + {key}) else None
  {
    hide TextOk, KeysDistinct, Depth, Count, Utf8.Valid;
    var rest := members[1..];
    assert (seen + {members[0].key}) + KeysOf(rest) == seen + KeysOf(members);
    if rest == [] {
      assert seen + {members[0].key} == seen + KeysOf(members);
      assert MembersCount(rest) == 0 && MembersDepth(rest) == 0 && MembersTextOk(rest)
          && MembersDistinct(rest, seen + {members[0].key});
    }
  }

  predicate MemberFits(l: Limits, s: State, key: Bytes, value: Json, seen: set<Bytes>) {
    && Utf8.Valid(key) && key !in seen
    && s.values + Count(value) <= l.values && (Depth(value) > 0 ==> |s.stack| + 1 + Depth(value) <= l.depth)
    && TextOk(value) && KeysDistinct(value)
  }

  lemma {:induction false} FeedMembers(l: Limits, s: State, members: seq<Member>, seen: set<Bytes>)
    ensures Feed(l, s.(stack := s.stack + [Some(seen)]), MemberEvents(members)) == MembersFed(l, s, members, seen)
    decreases members, 0
  {
    if members != [] {
      var key, value := members[0].key, members[0].value;
      FeedAppend(l, s.(stack := s.stack + [Some(seen)]), [Key(key)] + Events(value), MemberEvents(members[1..]));
      FeedMember(l, s, key, value, seen);
      MembersFedHead(l, s, members, seen);
      hide Events, MemberFits, MembersFed, Handle, Feed;
      FeedMembers(l, s.(values := s.values + Count(value)), members[1..], seen + {key});
    }
  }

  lemma {:induction false} FeedMember(l: Limits, s: State, key: Bytes, value: Json, seen: set<Bytes>)
    ensures Feed(l, s.(stack := s.stack + [Some(seen)]), [Key(key)] + Events(value))
         == if MemberFits(l, s, key, value, seen)
            then Some(State(s.values + Count(value), s.stack + [Some(seen + {key})])) else None
    decreases value, 1
  {
    var open := s.(stack := s.stack + [Some(seen)]);
    hide Utf8.Valid, Events;
    FeedAppend(l, open, [Key(key)], Events(value));
    FeedOne(l, open, Key(key));
    assert open.stack[|s.stack| := Some(seen + {key})] == s.stack + [Some(seen + {key})];
    FeedTree(l, s.(stack := s.stack + [Some(seen + {key})]), value);
  }

  /** The machine accepts a tree's events exactly when the tree is within limits, clean and free of repeated keys. */
  lemma SaxMeans(l: Limits, t: Json)
    ensures Feed(l, State(0, []), Events(t)).Some?
       <==> Depth(t) <= l.depth && Count(t) <= l.values && TextOk(t) && KeysDistinct(t)
  {
    FeedTree(l, State(0, []), t);
  }

  // ---- The validator of parsed values ----------------------------------------------------------------

  /** `validate_json`: the running count, or `None` where it throws. */
  function Validate(l: Limits, t: Json, depth: nat, count: nat): Option<nat>
    decreases t
  {
    if depth > l.depth || count + 1 > l.values then None
    else
      match t
      case Text(text) => if Utf8.Valid(text) then Some(count + 1) else None
      case Float(finite) => if finite then Some(count + 1) else None
      case Array(items) => ValidateItems(l, items, depth + 1, count + 1)
      case Object(members) => ValidateMembers(l, members, depth + 1, count + 1)
      case _ => Some(count + 1)
  }

  function ValidateItems(l: Limits, items: seq<Json>, depth: nat, count: nat): Option<nat>
    decreases items
  {
    if items == [] then Some(count)
    else
      var next := Validate(l, items[0], depth, count);
      if next.None? then None else ValidateItems(l, items[1..], depth, next.value)
  }

  function ValidateMembers(l: Limits, members: seq<Member>, depth: nat, count: nat): Option<nat>
    decreases members
  {
    if members == [] then Some(count)
    else if !Utf8.Valid(members[0].key) then None
    else
      var next := Validate(l, members[0].value, depth, count);
      if next.None? then None else ValidateMembers(l, members[1..], depth, next.value)
  }

  /** How deep any value sits, the root at depth one: here a scalar counts as a level. */
  function Levels(t: Json): (n: nat)
    ensures n > 0
    decreases t
  {
    match t
    case Array(items) => 1 + ItemsLevels(items)
    case Object(members) => 1 + MembersLevels(members)
    case _ => 1
  }

  function ItemsLevels(items: seq<Json>): (n: nat)
    ensures n == 0 <==> items == []
    decreases items
  {
    if items == [] then 0 else Max(Levels(items[0]), ItemsLevels(items[1..]))
  }

  function MembersLevels(members: seq<Member>): (n: nat)
    ensures n == 0 <==> members == []
    decreases members
  {
    if members == [] then 0 else Max(Levels(members[0].value), MembersLevels(members[1..]))
  }

  lemma {:induction false} ValidateCounts(l: Limits, t: Json, depth: nat, count: nat)
    requires depth > 0
    ensures Validate(l, t, depth, count)
         == if depth - 1 + Levels(t) <= l.depth && count + Count(t) <= l.values && TextOk(t)
            then Some(count + Count(t)) else None
    decreases t
  {
    hide Utf8.Valid;
    match t
    case Array(items) => ValidateItemsCounts(l, items, depth + 1, count + 1);
    case Object(members) => ValidateMembersCounts(l, members, depth + 1, count + 1);
    case _ =>
  }

  lemma {:induction false} ValidateItemsCounts(l: Limits, items: seq<Json>, depth: nat, count: nat)
    requires depth > 0
    ensures ValidateItems(l, items, depth, count)
         == if items == [] || (depth - 1 + ItemsLevels(items) <= l.depth && count + ItemsCount(items) <= l.values
             && ItemsTextOk(items))
            then Some(count + ItemsCount(items)) else None
    decreases items
  {
    if items != [] {
      ValidateCounts(l, items[0], depth, count);
      hide Validate, TextOk, Levels, Count;
      ValidateItemsCounts(l, items[1..], depth, count + Count(items[0]));
      assert items[1..] == [] ==> ItemsCount(items[1..]) == 0 && ItemsTextOk(items[1..]);
    }
  }

  lemma {:induction false} ValidateMembersCounts(l: Limits, members: seq<Member>, depth: nat, count: nat)
    requires depth > 0
    ensures ValidateMembers(l, members, depth, count)
         == if members == [] || (depth - 1 + MembersLevels(members) <= l.depth
             && count + MembersCount(members) <= l.values && MembersTextOk(members))
            then Some(count + MembersCount(members)) else None
    decreases members
  {
    if members != [] {
      ValidateCounts(l, members[0].value, depth, count);
      hide Validate, TextOk, Levels, Count, Utf8.Valid;
      ValidateMembersCounts(l, members[1..], depth, count + Count(members[0].value));
      assert members[1..] == [] ==> MembersCount(members[1..]) == 0 && MembersTextOk(members[1..]);
    }
  }

  lemma {:induction false} LevelsAboveDepth(t: Json)
    ensures Depth(t) <= Levels(t) <= Depth(t) + 1
    decreases t
  {
    match t
    case Array(items) => ItemsLevelsAbove(items);
    case Object(members) => MembersLevelsAbove(members);
    case _ =>
  }

  lemma {:induction false} ItemsLevelsAbove(items: seq<Json>)
    ensures ItemsDepth(items) <= ItemsLevels(items) <= ItemsDepth(items) + 1
    decreases items
  {
    if items != [] {
      LevelsAboveDepth(items[0]);
      ItemsLevelsAbove(items[1..]);
    }
  }

  lemma {:induction false} MembersLevelsAbove(members: seq<Member>)
    ensures MembersDepth(members) <= MembersLevels(members) <= MembersDepth(members) + 1
    decreases members
  {
    if members != [] {
      LevelsAboveDepth(members[0].value);
      MembersLevelsAbove(members[1..]);
    }
  }

  /**
    At equal limits the reader accepts whatever the validator does, given distinct keys; conversely
    the validator accepts what the reader did exactly when no scalar sits one level below the limit.
   */
  lemma ReaderCoversValidator(l: Limits, t: Json)
    ensures Validate(l, t, 1, 0).Some? && KeysDistinct(t)
       <==> Feed(l, State(0, []), Events(t)).Some? && Levels(t) <= l.depth
  {
    hide Feed, Events, Validate;
    SaxMeans(l, t);
    ValidateCounts(l, t, 1, 0);
    LevelsAboveDepth(t);
  }

  function Nested(n: nat): Json {
    if n == 0 then Null else Array([Nested(n - 1)])
  }

  lemma {:induction false} NestedShape(n: nat)
    ensures Depth(Nested(n)) == n && Levels(Nested(n)) == n + 1 && Count(Nested(n)) == n + 1
    ensures TextOk(Nested(n)) && KeysDistinct(Nested(n))
  {
    if n > 0 {
      NestedShape(n - 1);
      var items := [Nested(n - 1)];
      assert items[1..] == [] && ItemsDepth(items) == n - 1 && ItemsLevels(items) == n && ItemsCount(items) == n;
      assert ItemsTextOk(items) && ItemsDistinct(items);
    }
  }

  /** The two disagree on a scalar in as many arrays as the limit allows. */
  lemma ReaderIsLaxerByOneLevel(l: Limits)
    requires l.values > l.depth
    ensures Feed(l, State(0, []), Events(Nested(l.depth))).Some? && Validate(l, Nested(l.depth), 1, 0).None?
  {
    hide Feed, Events, Validate;
    NestedShape(l.depth);
    SaxMeans(l, Nested(l.depth));
    ValidateCounts(l, Nested(l.depth), 1, 0);
  }
}
