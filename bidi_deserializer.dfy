/**
 * The WebDriver BiDi value deserializer of puppeteer (bidi/Deserializer.js):
 * it turns a `script.RemoteValue` of the WebDriver BiDi protocol ("The script
 * Module" of the W3C WebDriver BiDi specification) into a JavaScript value.
 *
 * Host values are modelled by JsValue. Sets are kept as sequences in
 * insertion order without repeats, objects and maps as sequences of entries
 * in insertion order with distinct keys; membership is datatype equality.
 */
module BidiDeserializer {
  import opened Wrappers

  // ---------------------------------------------------------------------
  // Protocol values
  // ---------------------------------------------------------------------

  /** The `value` of a `number` RemoteValue: a special-number string or a plain number. */
  datatype NumberField = NumberString(text: string) | NumberLiteral(literal: real)

  /**
   * A `script.RemoteValue`, one constructor per `type` the deserializer
   * handles; OtherValue stands for every other `type` (symbol, function,
   * node, window, ...).
   */
  datatype RemoteValue =
    | ArrayValue(elements: MaybeValues)
    | SetValue(elements: MaybeValues)
    | ObjectValue(tuples: MaybeTuples)
    | MapValue(tuples: MaybeTuples)
    | PromiseValue
    | RegExpValue(pattern: string, flags: Option<string>)
    | DateValue(date: string)
    | UndefinedValue
    | NullValue
    | NumberValue(number: NumberField)
    | BigIntValue(digits: string)
    | BooleanValue(flag: bool)
    | StringValue(text: string)
    | OtherValue(typeName: string)

  /** The optional `value` of an array or set: absent, or the serialized elements. */
  datatype MaybeValues = MissingValues | Values(items: seq<RemoteValue>)

  /** The optional `value` of an object or map: absent, or the serialized pairs. */
  datatype MaybeTuples = MissingTuples | TupleList(list: seq<Tuple>)

  /** The key of a serialized key/value pair: a plain string or a serialized value. */
  datatype TupleKey = StringKey(name: string) | ValueKey(remote: RemoteValue)

  /** A `[serializedKey, serializedValue]` pair of an object or map. */
  datatype Tuple = Tuple(key: TupleKey, value: RemoteValue)

  // ---------------------------------------------------------------------
  // Host values
  // ---------------------------------------------------------------------

  /** A JavaScript number: a finite value, or one of the four values JSON cannot carry. */
  datatype JsNumber = Finite(value: real) | NegativeZero | NaN | Infinity | NegativeInfinity

  /** A JavaScript value as the deserializer builds it; RegExp, Date and BigInt stay opaque. */
  datatype JsValue =
    | JsUndefined
    | JsNull
    | JsBoolean(flag: bool)
    | JsNum(number: JsNumber)
    | JsString(text: string)
    | JsArray(elements: seq<JsValue>)
    | JsSet(members: seq<JsValue>)
    | JsObject(properties: seq<Entry>)
    | JsMap(entries: seq<Entry>)
    | JsRegExp(pattern: string, flags: Option<string>)
    | JsDate(date: string)
    | JsBigInt(digits: string)

  /** A key/value pair of an object or a map. */
  datatype Entry = Entry(key: JsValue, value: JsValue)

  // ---------------------------------------------------------------------
  // Numbers (Deserializer.js, lines 24-37)
  // ---------------------------------------------------------------------

  /** The four strings the protocol uses for numbers JSON cannot carry. */
  predicate IsSpecialNumber(s: string)
  {
    s == "-0" || s == "NaN" || s == "Infinity" || s == "-Infinity"
  }

  /**
   * `deserializeNumber`: the special strings become their numbers; any other
   * value is returned as it is, so a plain number stays that number and any
   * other string stays a string.
   */
  function DeserializeNumber(v: NumberField): (r: JsValue)
    ensures r.JsNum? <==> v.NumberLiteral? || IsSpecialNumber(v.text)
    ensures v.NumberLiteral? ==> r == JsNum(Finite(v.literal))
    ensures !r.JsNum? ==> r == JsString(v.text)
  {
    match v
    case NumberLiteral(n) => JsNum(Finite(n))
    case NumberString(s) =>
      if s == "-0" then JsNum(NegativeZero)
      else if s == "NaN" then JsNum(NaN)
      else if s == "Infinity" then JsNum(Infinity)
      else if s == "-Infinity" then JsNum(NegativeInfinity)
      else JsString(s)
  }

  /** How a protocol peer writes a number: the four special values as strings, others as literals. */
  function SerializeNumber(n: JsNumber): (v: NumberField)
    ensures v.NumberString? ==> IsSpecialNumber(v.text)
  {
    match n
    case Finite(x) => NumberLiteral(x)
    case NegativeZero => NumberString("-0")
    case NaN => NumberString("NaN")
    case Infinity => NumberString("Infinity")
    case NegativeInfinity => NumberString("-Infinity")
  }

  /** Every number survives being written by a peer and read back. */
  lemma NumberRoundTrip(n: JsNumber)
    ensures DeserializeNumber(SerializeNumber(n)) == JsNum(n)
  {
  }

  // ---------------------------------------------------------------------
  // Sets: `reduce` with `acc.add(x)` (lines 44-47)
  // ---------------------------------------------------------------------

  /** `Set.prototype.add`: a new member goes at the end, a present one changes nothing. */
  function SetAdd(acc: seq<JsValue>, x: JsValue): seq<JsValue>
  {
    if x in acc then acc else acc + [x]
  }

  /** The left fold of SetAdd over xs, starting from acc. */
  function FoldSet(acc: seq<JsValue>, xs: seq<JsValue>): seq<JsValue>
    decreases |xs|
  {
    if xs == [] then acc else FoldSet(SetAdd(acc, xs[0]), xs[1..])
  }

  /**
   * Folding adds exactly the elements of xs, keeps the existing members in
   * front and in place, and introduces no repeats.
   */
  lemma {:induction false} FoldSetMembers(acc: seq<JsValue>, xs: seq<JsValue>)
    ensures forall y :: y in FoldSet(acc, xs) <==> y in acc || y in xs
    ensures acc <= FoldSet(acc, xs)
    ensures NoRepeats(acc) ==> NoRepeats(FoldSet(acc, xs))
    decreases |xs|
  {
    if xs != [] {
      FoldSetMembers(SetAdd(acc, xs[0]), xs[1..]);
      assert forall y :: y in xs <==> y == xs[0] || y in xs[1..];
    }
  }

  /** In a sequence without repeats, the first element of the second part is not in the first part. */
  lemma FreshHead<T>(a: seq<T>, b: seq<T>)
    requires NoRepeats(a + b) && b != []
    ensures b[0] !in a
  {
    var s := a + b;
    forall i | 0 <= i < |a|
      ensures a[i] != b[0]
    {
      assert a[i] == s[i] && b[0] == s[|a|];
    }
  }

  /** Folding elements that are all new and distinct appends them in order. */
  lemma {:induction false} FoldSetOfDistinct(acc: seq<JsValue>, xs: seq<JsValue>)
    requires NoRepeats(acc + xs)
    ensures FoldSet(acc, xs) == acc + xs
    decreases |xs|
  {
    if xs != [] {
      FreshHead(acc, xs);
      assert (acc + [xs[0]]) + xs[1..] == acc + xs;
      FoldSetOfDistinct(acc + [xs[0]], xs[1..]);
    }
  }

  /**
   * The elements of xs that occur nowhere before in xs, in order: a reference
   * for the members of a `Set` filled from xs, stated without the fold.
   */
  function FirstOccurrences(xs: seq<JsValue>): seq<JsValue>
    decreases |xs|
  {
    if xs == [] then []
    else
      var init := xs[..|xs| - 1];
      FirstOccurrences(init) + (if xs[|xs| - 1] in init then [] else [xs[|xs| - 1]])
  }

  /** Adding one more element at the end is one more `add`. */
  lemma {:induction false} FoldSetSnoc(acc: seq<JsValue>, xs: seq<JsValue>, y: JsValue)
    ensures FoldSet(acc, xs + [y]) == SetAdd(FoldSet(acc, xs), y)
    decreases |xs|
  {
    if xs == [] {
      assert xs + [y] == [y];
    } else {
      assert (xs + [y])[0] == xs[0] && (xs + [y])[1..] == xs[1..] + [y];
      FoldSetSnoc(SetAdd(acc, xs[0]), xs[1..], y);
    }
  }

  /** Folding `add` from an empty Set keeps exactly the first occurrences, in order. */
  lemma {:induction false} FoldSetIsFirstOccurrences(xs: seq<JsValue>)
    ensures FoldSet([], xs) == FirstOccurrences(xs)
    decreases |xs|
  {
    if xs != [] {
      var init, y := xs[..|xs| - 1], xs[|xs| - 1];
      assert xs == init + [y];
      FoldSetIsFirstOccurrences(init);
      FoldSetSnoc([], init, y);
      FoldSetMembers([], init);
    }
  }

  // ---------------------------------------------------------------------
  // Objects and maps: `reduce` with `acc[key] = value` / `acc.set(key, value)` (lines 48-58)
  // ---------------------------------------------------------------------

  /** The keys of the entries, in order. */
  function Keys(s: seq<Entry>): seq<JsValue>
  {
    seq(|s|, i requires 0 <= i < |s| => s[i].key)
  }

  /** The value stored under key k: that of the first entry with key k. */
  function Lookup(s: seq<Entry>, k: JsValue): Option<JsValue>
  {
    if s == [] then None else if s[0].key == k then Some(s[0].value) else Lookup(s[1..], k)
  }

  /**
   * Assigning an entry: an entry with the same key is overwritten where it
   * stands, otherwise the entry goes at the end.
   */
  function Put(acc: seq<Entry>, e: Entry): seq<Entry>
  {
    if acc == [] then [e]
    else if acc[0].key == e.key then [e] + acc[1..]
    else [acc[0]] + Put(acc[1..], e)
  }

  /** The left fold of Put over es, starting from acc. */
  function FoldEntries(acc: seq<Entry>, es: seq<Entry>): seq<Entry>
    decreases |es|
  {
    if es == [] then acc else FoldEntries(Put(acc, es[0]), es[1..])
  }

  /** Reference definition: the value of the last entry of es with key k. */
  function LastAssigned(es: seq<Entry>, k: JsValue): Option<JsValue>
  {
    if es == [] then None
    else if es[|es| - 1].key == k then Some(es[|es| - 1].value)
    else LastAssigned(es[..|es| - 1], k)
  }

  lemma KeysConcat(a: seq<Entry>, b: seq<Entry>)
    ensures Keys(a + b) == Keys(a) + Keys(b)
  {
    assert |Keys(a + b)| == |Keys(a) + Keys(b)|;
    forall i | 0 <= i < |a + b|
      ensures Keys(a + b)[i] == (Keys(a) + Keys(b))[i]
    {
    }
  }

  /** Put changes the key sequence exactly as SetAdd would. */
  lemma {:induction false} PutKeys(acc: seq<Entry>, e: Entry)
    ensures Keys(Put(acc, e)) == SetAdd(Keys(acc), e.key)
  {
    if acc != [] {
      PutKeys(acc[1..], e);
      assert Keys(acc) == [acc[0].key] + Keys(acc[1..]);
      if acc[0].key != e.key {
        assert Keys(Put(acc, e)) == [acc[0].key] + Keys(Put(acc[1..], e));
      }
    }
  }

  /** After Put, key e.key maps to e.value and every other key is untouched. */
  lemma {:induction false} PutLookup(acc: seq<Entry>, e: Entry, k: JsValue)
    ensures Lookup(Put(acc, e), k) == if k == e.key then Some(e.value) else Lookup(acc, k)
  {
    if acc != [] && acc[0].key != e.key {
      PutLookup(acc[1..], e, k);
      assert Put(acc, e)[1..] == Put(acc[1..], e);
    }
  }

  /** Put of a new key appends the entry. */
  lemma {:induction false} PutFresh(acc: seq<Entry>, e: Entry)
    requires e.key !in Keys(acc)
    ensures Put(acc, e) == acc + [e]
  {
    if acc != [] {
      assert acc[0].key == Keys(acc)[0];
      assert Keys(acc[1..]) == Keys(acc)[1..];
      PutFresh(acc[1..], e);
      assert acc == [acc[0]] + acc[1..];
    }
  }

  /** Prepending an entry only matters for its key when the rest never assigns it. */
  lemma {:induction false} LastAssignedCons(e: Entry, rest: seq<Entry>, k: JsValue)
    ensures LastAssigned([e] + rest, k) ==
            if LastAssigned(rest, k).Some? then LastAssigned(rest, k)
            else if e.key == k then Some(e.value) else None
    decreases |rest|
  {
    var s := [e] + rest;
    if rest != [] {
      assert s[|s| - 1] == rest[|rest| - 1];
      assert s[..|s| - 1] == [e] + rest[..|rest| - 1];
      LastAssignedCons(e, rest[..|rest| - 1], k);
    }
  }

  /** The key order of a fold is the first-occurrence order of the keys, as for a Set. */
  lemma {:induction false} FoldEntriesKeys(acc: seq<Entry>, es: seq<Entry>)
    ensures Keys(FoldEntries(acc, es)) == FoldSet(Keys(acc), Keys(es))
    decreases |es|
  {
    if es != [] {
      var ks := Keys(es);
      calc {
        Keys(FoldEntries(acc, es));
        Keys(FoldEntries(Put(acc, es[0]), es[1..]));
        { FoldEntriesKeys(Put(acc, es[0]), es[1..]); }
        FoldSet(Keys(Put(acc, es[0])), Keys(es[1..]));
        { PutKeys(acc, es[0]); }
        FoldSet(SetAdd(Keys(acc), es[0].key), Keys(es[1..]));
        { assert ks[0] == es[0].key && ks[1..] == Keys(es[1..]); }
        FoldSet(Keys(acc), ks);
      }
    }
  }

  /** Later assignments win: each key holds the value of its last entry in es, else its value in acc. */
  lemma {:induction false} FoldEntriesLookup(acc: seq<Entry>, es: seq<Entry>, k: JsValue)
    ensures Lookup(FoldEntries(acc, es), k) ==
            if LastAssigned(es, k).Some? then LastAssigned(es, k) else Lookup(acc, k)
    decreases |es|
  {
    if es != [] {
      FoldEntriesLookup(Put(acc, es[0]), es[1..], k);
      PutLookup(acc, es[0], k);
      assert es == [es[0]] + es[1..];
      LastAssignedCons(es[0], es[1..], k);
    }
  }

  /** Folding entries whose keys are all new and distinct appends them in order. */
  lemma {:induction false} FoldEntriesOfDistinct(acc: seq<Entry>, es: seq<Entry>)
    requires NoRepeats(Keys(acc) + Keys(es))
    ensures FoldEntries(acc, es) == acc + es
    decreases |es|
  {
    if es != [] {
      FreshHead(Keys(acc), Keys(es));
      PutFresh(acc, es[0]);
      KeysConcat(acc, [es[0]]);
      KeysConcat([es[0]], es[1..]);
      assert es == [es[0]] + es[1..];
      assert Keys(acc + [es[0]]) + Keys(es[1..]) == Keys(acc) + Keys(es);
      FoldEntriesOfDistinct(acc + [es[0]], es[1..]);
    }
  }

  // ---------------------------------------------------------------------
  // The deserializer (lines 38-94)
  // ---------------------------------------------------------------------

  /**
   * `deserializeLocalValue`: arrays map element by element, sets, objects and
   * maps fold their deserialized elements or tuples left to right, leaves
   * translate directly, and an unsupported type gives undefined. A missing
   * `value` of an array, set, object or map gives undefined.
   */
  function DeserializeLocalValue(v: RemoteValue): JsValue
    decreases v, 1
  {
    match v
    case ArrayValue(MissingValues) => JsUndefined
    case ArrayValue(Values(items)) => JsArray(DeserializeAll(items))
    case SetValue(MissingValues) => JsUndefined
    case SetValue(Values(items)) => JsSet(FoldSet([], DeserializeAll(items)))
    case ObjectValue(MissingTuples) => JsUndefined
    case ObjectValue(TupleList(tuples)) => JsObject(FoldEntries([], DeserializeTuples(tuples)))
    case MapValue(MissingTuples) => JsUndefined
    case MapValue(TupleList(tuples)) => JsMap(FoldEntries([], DeserializeTuples(tuples)))
    case PromiseValue => JsObject([])
    case RegExpValue(pattern, flags) => JsRegExp(pattern, flags)
    case DateValue(date) => JsDate(date)
    case UndefinedValue => JsUndefined
    case NullValue => JsNull
    case NumberValue(number) => DeserializeNumber(number)
    case BigIntValue(digits) => JsBigInt(digits)
    case BooleanValue(flag) => JsBoolean(flag)
    case StringValue(text) => JsString(text)
    case OtherValue(_) => JsUndefined
  }

  /** `value.map(deserializeLocalValue)`: element i of the result is element i deserialized. */
  function DeserializeAll(items: seq<RemoteValue>): (r: seq<JsValue>)
    ensures |r| == |items|
    ensures forall i :: 0 <= i < |items| ==> r[i] == DeserializeLocalValue(items[i])
    decreases items, 0
  {
    if items == [] then []
    else [DeserializeLocalValue(items[0])] + DeserializeAll(items[1..])
  }

  /** Each tuple deserialized, in order. */
  function DeserializeTuples(tuples: seq<Tuple>): (r: seq<Entry>)
    ensures |r| == |tuples|
    ensures forall i :: 0 <= i < |tuples| ==> r[i] == DeserializeTuple(tuples[i])
    decreases tuples, 0
  {
    if tuples == [] then []
    else [DeserializeTuple(tuples[0])] + DeserializeTuples(tuples[1..])
  }

  /** `deserializeTuple` (lines 81-87): a string key stays as it is, any other key is deserialized; so is the value. */
  function DeserializeTuple(t: Tuple): (e: Entry)
    ensures e.value == DeserializeLocalValue(t.value)
    ensures t.key.StringKey? ==> e.key == JsString(t.key.name)
    ensures t.key.ValueKey? ==> e.key == DeserializeLocalValue(t.key.remote)
    decreases t, 0
  {
    var key := match t.key
      case StringKey(name) => JsString(name)
      case ValueKey(remote) => DeserializeLocalValue(remote);
    Entry(key, DeserializeLocalValue(t.value))
  }

  /** `deserialize` (lines 88-94): an absent result gives undefined. */
  function Deserialize(result: Option<RemoteValue>): JsValue
  {
    match result
    case None => JsUndefined
    case Some(v) => DeserializeLocalValue(v)
  }

  // ---------------------------------------------------------------------
  // What the deserializer promises
  // ---------------------------------------------------------------------

  /** A deserialized array keeps the length and order of its input, element by element. */
  lemma ArrayElements(items: seq<RemoteValue>)
    ensures var r := DeserializeLocalValue(ArrayValue(Values(items)));
            && r.JsArray?
            && |r.elements| == |items|
            && forall i :: 0 <= i < |items| ==> r.elements[i] == DeserializeLocalValue(items[i])
  {
  }

  /** An array, set, object or map without a `value` deserializes to undefined. */
  lemma MissingValueIsUndefined()
    ensures DeserializeLocalValue(ArrayValue(MissingValues)) == JsUndefined
    ensures DeserializeLocalValue(SetValue(MissingValues)) == JsUndefined
    ensures DeserializeLocalValue(ObjectValue(MissingTuples)) == JsUndefined
    ensures DeserializeLocalValue(MapValue(MissingTuples)) == JsUndefined
  {
  }

  /**
   * The leaves: a promise is an empty object, undefined and null are
   * themselves, strings and booleans keep their value, numbers go through
   * DeserializeNumber, and any other type is undefined.
   */
  lemma LeafValues(text: string, flag: bool, number: NumberField, typeName: string)
    ensures DeserializeLocalValue(PromiseValue) == JsObject([])
    ensures DeserializeLocalValue(UndefinedValue) == JsUndefined
    ensures DeserializeLocalValue(NullValue) == JsNull
    ensures DeserializeLocalValue(StringValue(text)) == JsString(text)
    ensures DeserializeLocalValue(BooleanValue(flag)) == JsBoolean(flag)
    ensures DeserializeLocalValue(NumberValue(number)) == DeserializeNumber(number)
    ensures DeserializeLocalValue(OtherValue(typeName)) == JsUndefined
  {
  }

  /** A Set filled from xs holds each element of xs once, at its first occurrence. */
  lemma FoldSetFromEmpty(xs: seq<JsValue>)
    ensures FoldSet([], xs) == FirstOccurrences(xs)
    ensures NoRepeats(FoldSet([], xs))
    ensures forall y :: y in FoldSet([], xs) <==> y in xs
  {
    FoldSetMembers([], xs);
    FoldSetIsFirstOccurrences(xs);
  }

  /** A deserialized set holds exactly the deserialized elements, each once, in first-occurrence order. */
  lemma SetMembers(items: seq<RemoteValue>)
    ensures var r := DeserializeLocalValue(SetValue(Values(items)));
            && r.JsSet?
            && r.members == FirstOccurrences(DeserializeAll(items))
            && NoRepeats(r.members)
            && (forall y :: y in r.members <==> exists i :: 0 <= i < |items| && y == DeserializeLocalValue(items[i]))
  {
    var xs := DeserializeAll(items);
    assert DeserializeLocalValue(SetValue(Values(items))) == JsSet(FoldSet([], xs));
    FoldSetFromEmpty(xs);
    forall y | y in xs
      ensures exists i :: 0 <= i < |items| && y == DeserializeLocalValue(items[i])
    {
      var i :| 0 <= i < |xs| && xs[i] == y;
    }
  }

  /**
   * A deserialized object and a deserialized map of the same tuples hold the
   * same entries: each key once, in first-occurrence order, with the value of
   * the last tuple that names it.
   */
  lemma EntriesFold(tuples: seq<Tuple>)
    ensures var es := DeserializeTuples(tuples);
            var obj := DeserializeLocalValue(ObjectValue(TupleList(tuples)));
            var m := DeserializeLocalValue(MapValue(TupleList(tuples)));
            && obj.JsObject? && m.JsMap? && obj.properties == m.entries
            && NoRepeats(Keys(obj.properties))
            && Keys(obj.properties) == FirstOccurrences(Keys(es))
            && forall k :: Lookup(obj.properties, k) == LastAssigned(es, k)
  {
    var es := DeserializeTuples(tuples);
    FoldEntriesKeys([], es);
    FoldSetFromEmpty(Keys(es));
    forall k
      ensures Lookup(FoldEntries([], es), k) == LastAssigned(es, k)
    {
      FoldEntriesLookup([], es, k);
    }
  }

  // ---------------------------------------------------------------------
  // A reference serializer, and the round trip
  // ---------------------------------------------------------------------

  /** A host value a peer can send: sets without repeats, objects and maps with distinct keys, all the way down. */
  ghost predicate WellFormed(x: JsValue)
    decreases x, 2
  {
    match x
    case JsArray(xs) => AllWellFormed(xs)
    case JsSet(xs) => NoRepeats(xs) && AllWellFormed(xs)
    case JsObject(es) => EntriesWellFormed(es)
    case JsMap(es) => EntriesWellFormed(es)
    case _ => true
  }

  ghost predicate AllWellFormed(xs: seq<JsValue>)
    decreases xs, 0
  {
    forall i :: 0 <= i < |xs| ==> WellFormed(xs[i])
  }

  ghost predicate EntriesWellFormed(es: seq<Entry>)
    decreases es, 1
  {
    NoRepeats(Keys(es)) && EntriesWellFormedFrom(es)
  }

  ghost predicate EntriesWellFormedFrom(es: seq<Entry>)
    decreases es, 0
  {
    forall i :: 0 <= i < |es| ==> EntryWellFormed(es[i])
  }

  ghost predicate EntryWellFormed(e: Entry)
    decreases e, 1
  {
    WellFormed(e.key) && WellFormed(e.value)
  }

  /** How a peer writes a host value as a RemoteValue; string keys travel as plain strings. */
  function Serialize(x: JsValue): (v: RemoteValue)
    ensures !v.OtherValue?
    decreases x, 2
  {
    match x
    case JsUndefined => UndefinedValue
    case JsNull => NullValue
    case JsBoolean(b) => BooleanValue(b)
    case JsNum(n) => NumberValue(SerializeNumber(n))
    case JsString(s) => StringValue(s)
    case JsArray(xs) => ArrayValue(Values(SerializeAll(xs)))
    case JsSet(xs) => SetValue(Values(SerializeAll(xs)))
    case JsObject(es) => ObjectValue(TupleList(SerializeEntries(es)))
    case JsMap(es) => MapValue(TupleList(SerializeEntries(es)))
    case JsRegExp(pattern, flags) => RegExpValue(pattern, flags)
    case JsDate(date) => DateValue(date)
    case JsBigInt(digits) => BigIntValue(digits)
  }

  function SerializeAll(xs: seq<JsValue>): (r: seq<RemoteValue>)
    ensures |r| == |xs| && forall i :: 0 <= i < |xs| ==> r[i] == Serialize(xs[i])
    decreases xs, 0
  {
    if xs == [] then [] else [Serialize(xs[0])] + SerializeAll(xs[1..])
  }

  function SerializeEntries(es: seq<Entry>): (r: seq<Tuple>)
    ensures |r| == |es| && forall i :: 0 <= i < |es| ==> r[i] == SerializeEntry(es[i])
    decreases es, 0
  {
    if es == [] then [] else [SerializeEntry(es[0])] + SerializeEntries(es[1..])
  }

  function SerializeEntry(e: Entry): Tuple
    decreases e, 1
  {
    var key := if e.key.JsString? then StringKey(e.key.text) else ValueKey(Serialize(e.key));
    Tuple(key, Serialize(e.value))
  }

  /** Every well-formed host value survives being serialized and deserialized. */
  lemma {:induction false} RoundTrip(x: JsValue)
    requires WellFormed(x)
    ensures DeserializeLocalValue(Serialize(x)) == x
    decreases x, 2
  {
    match x
    case JsArray(xs) =>
      RoundTripArray(xs);
    case JsSet(xs) =>
      RoundTripSet(xs);
    case JsObject(es) =>
      RoundTripObject(es);
    case JsMap(es) =>
      RoundTripMap(es);
    case JsNum(n) =>
      NumberRoundTrip(n);
    case _ =>
  }

  lemma {:induction false} RoundTripArray(xs: seq<JsValue>)
    requires AllWellFormed(xs)
    ensures DeserializeLocalValue(Serialize(JsArray(xs))) == JsArray(xs)
    decreases JsArray(xs), 1
  {
    RoundTripAll(xs);
  }

  lemma {:induction false} RoundTripSet(xs: seq<JsValue>)
    requires NoRepeats(xs) && AllWellFormed(xs)
    ensures DeserializeLocalValue(Serialize(JsSet(xs))) == JsSet(xs)
    decreases JsSet(xs), 1
  {
    RoundTripAll(xs);
    RefoldSet(xs);
  }

  lemma {:induction false} RoundTripObject(es: seq<Entry>)
    requires EntriesWellFormed(es)
    ensures DeserializeLocalValue(Serialize(JsObject(es))) == JsObject(es)
    decreases JsObject(es), 1
  {
    RoundTripEntries(es);
    RefoldEntries(es);
  }

  lemma {:induction false} RoundTripMap(es: seq<Entry>)
    requires EntriesWellFormed(es)
    ensures DeserializeLocalValue(Serialize(JsMap(es))) == JsMap(es)
    decreases JsMap(es), 1
  {
    RoundTripEntries(es);
    RefoldEntries(es);
  }

  /** Folding a sequence without repeats into an empty set gives the sequence back. */
  lemma RefoldSet(xs: seq<JsValue>)
    requires NoRepeats(xs)
    ensures FoldSet([], xs) == xs
  {
    assert [] + xs == xs;
    FoldSetOfDistinct([], xs);
  }

  /** Folding entries with distinct keys into an empty object or map gives the entries back. */
  lemma RefoldEntries(es: seq<Entry>)
    requires NoRepeats(Keys(es))
    ensures FoldEntries([], es) == es
  {
    assert Keys([]) + Keys(es) == Keys(es);
    FoldEntriesOfDistinct([], es);
  }

  lemma {:induction false} RoundTripAll(xs: seq<JsValue>)
    requires AllWellFormed(xs)
    ensures DeserializeAll(SerializeAll(xs)) == xs
    decreases xs, 0
  {
    var r := DeserializeAll(SerializeAll(xs));
    forall i | 0 <= i < |xs|
      ensures r[i] == xs[i]
    {
      RoundTrip(xs[i]);
    }
  }

  lemma {:induction false} RoundTripEntries(es: seq<Entry>)
    requires EntriesWellFormedFrom(es)
    ensures DeserializeTuples(SerializeEntries(es)) == es
    decreases es, 0
  {
    var r := DeserializeTuples(SerializeEntries(es));
    forall i | 0 <= i < |es|
      ensures r[i] == es[i]
    {
      RoundTripEntry(es[i]);
    }
  }

  lemma {:induction false} RoundTripEntry(e: Entry)
    requires EntryWellFormed(e)
    ensures DeserializeTuple(SerializeEntry(e)) == e
    decreases e, 1
  {
    RoundTrip(e.key);
    RoundTrip(e.value);
  }

  /** `deserialize` of a present result is the value a peer serialized; an absent one is undefined. */
  lemma DeserializeRoundTrip(x: JsValue)
    requires WellFormed(x)
    ensures Deserialize(Some(Serialize(x))) == x
    ensures Deserialize(None) == JsUndefined
  {
    RoundTrip(x);
  }
}
