/**
 * The patch operations of the error-sink generation: bound to one location (an element
 * of a list, a member of a generic dictionary, a property of a plain object), they
 * report what goes wrong to an optional error sink and carry on, and throw a
 * `JsonPatchException` only when no sink was given. Values are converted by a JSON
 * round trip.
 *
 * Each operation is specified by a function giving its `Effect`: the state it leaves,
 * the errors it hands to the sink, and how it ends.
 */
module PatchOperations {
  import opened Values
  import opened Collections
  import opened Numbers
  import opened ConversionResultProvider
  import opened ResultHelper
  import opened ExpandoExtensions

  /** The effect of a call: the state it leaves behind (also when it throws part-way),
      the errors handed to the sink, and how the call ends. */
  datatype Effect<S> = Effect(state: S, logged: seq<PatchError>, outcome: Outcome)

  /** What `LogError` does with an error: hand it to the sink, or throw it when there
      is none. The state is left as it is. */
  function Logged<S>(state: S, hasSink: bool, error: PatchError): (e: Effect<S>)
    ensures e.state == state
    ensures hasSink <==> e.outcome == Pass
    ensures hasSink ==> e.logged == [error]
    ensures !hasSink ==> e.logged == [] && e.outcome == Fail(JsonPatchException(error))
  {
    if hasSink then Effect(state, [error], Pass) else Effect(state, [], Fail(JsonPatchException(error)))
  }

  /** `LogError`. */
  method LogError(sink: ErrorLogger?, error: PatchError) returns (outcome: Outcome)
    modifies sink
    ensures outcome == Logged(0, sink != null, error).outcome
    ensures sink != null ==> sink.errors == old(sink.errors) + Logged(0, true, error).logged
  {
    if sink != null {
      sink.errors := sink.errors + [error];
      return Pass;
    }
    return Fail(JsonPatchException(error));
  }

  // ======== ArrayPatchOperation ========

  /** An operation on one position of a list, the position given by the last segment
      of the path: a number or `-`. */
  class ArrayPatchOperation {
    const list: Obj
    const propertyName: string
    const sink: ErrorLogger?
    const path: string
    const operation: Operation
    /** The `T` of the `IList<T>` the list implements, or `object` when there is none. */
    const listTypeArgument: TypeTag

    constructor(list: Obj, propertyName: string, sink: ErrorLogger?, path: string, operation: Operation)
      ensures this.list == list && this.propertyName == propertyName && this.sink == sink
      ensures this.path == path && this.operation == operation
      ensures this.listTypeArgument == if list.listTypeArgument.Some? then list.listTypeArgument.value else ObjectType
    {
      this.list := list;
      this.propertyName := propertyName;
      this.sink := sink;
      this.path := path;
      this.operation := operation;
      this.listTypeArgument := if list.listTypeArgument.Some? then list.listTypeArgument.value else ObjectType;
    }

    function Error(message: Message): PatchError {
      PatchError(Ref(list), operation, message)
    }

    /** The effect of a call on the list that may throw. */
    function Mutated(items: seq<Value>, r: Result<seq<Value>>): (e: Effect<seq<Value>>)
      ensures e.logged == []
    {
      match r
      case Success(items') => Effect(items', [], Pass)
      case Failure(x) => Effect(items, [], Fail(x))
    }

    /** The effect of `Add(value)` on the elements. */
    function AddEffect(rt: Runtime, items: seq<Value>, value: Value): Effect<seq<Value>> {
      var conversionResult := ConvertObjectToType(rt, value, listTypeArgument);
      if !conversionResult.canBeConverted then
        Logged(items, sink != null, Error(InvalidValueForProperty(value, path)))
      else
        var v := conversionResult.convertedInstance;
        if propertyName == "-" then Mutated(items, ListAdd(list.isArray, items, v))
        else match TryParseInt32(propertyName)
          case Some(position) =>
            if position == |items| then Mutated(items, ListAdd(list.isArray, items, v))
            else if 0 <= position < |items| then Mutated(items, ListInsert(list.isArray, items, position, v))
            else Logged(items, sink != null, Error(InvalidIndexForArrayProperty(operation.op, path)))
          case None => Effect(items, [], Fail(InvalidOperationException("Cannot add into array")))
    }

    /** The effect of `Remove()` on the elements. */
    function RemoveEffect(items: seq<Value>): Effect<seq<Value>> {
      if propertyName == "-" then Mutated(items, ListRemoveAt(list.isArray, items, |items| - 1))
      else match TryParseInt32(propertyName)
        case Some(position) =>
          if 0 <= position < |items| then Mutated(items, ListRemoveAt(list.isArray, items, position))
          else Logged(items, sink != null, Error(InvalidIndexForArrayProperty(operation.op, path)))
        case None => Effect(items, [], Fail(InvalidOperationException("Cannot remove from array")))
    }

    /** The effect of `Replace(value)`: `Remove()` and then, unless it threw,
        `Add(value)`. */
    function ReplaceEffect(rt: Runtime, items: seq<Value>, value: Value): Effect<seq<Value>> {
      var removed := RemoveEffect(items);
      if removed.outcome.Fail? then removed
      else
        var added := AddEffect(rt, removed.state, value);
        Effect(added.state, removed.logged + added.logged, added.outcome)
    }

    /** What `Get()` returns: the indexer at any integer position, `-` included only
        in that it is not one. A text that is not an integer reports position 0, the
        value `int.TryParse` leaves behind when it fails. */
    function GetResult(items: seq<Value>): Result<Value> {
      match TryParseInt32(propertyName)
      case Some(position) => ListGet(list.isArray, items, position)
      case None => Failure(InvalidOperationException("Position 0 is out of the range"))
    }

    /** Applies an effect's state and outcome through the list's own calls. */
    method ApplyList(r: Result<seq<Value>>) returns (outcome: Outcome)
      modifies list
      ensures list.items == Mutated(old(list.items), r).state
      ensures outcome == Mutated(old(list.items), r).outcome
      ensures unchanged(list`entries) && unchanged(list`fieldValues)
    {
      if r.Failure? {
        return Fail(r.exception);
      }
      list.items := r.value;
      return Pass;
    }

    method Add(rt: Runtime, value: Value) returns (outcome: Outcome)
      modifies list, sink
      ensures list.items == AddEffect(rt, old(list.items), value).state
      ensures outcome == AddEffect(rt, old(list.items), value).outcome
      ensures sink != null ==> sink.errors == old(sink.errors) + AddEffect(rt, old(list.items), value).logged
      ensures unchanged(list`entries) && unchanged(list`fieldValues)
    {
      var conversionResult := ConvertObjectToType(rt, value, listTypeArgument);
      if !conversionResult.canBeConverted {
        outcome := LogError(sink, Error(InvalidValueForProperty(value, path)));
        return;
      }
      var v := conversionResult.convertedInstance;
      if propertyName == "-" {
        outcome := ApplyList(ListAdd(list.isArray, list.items, v));
      } else {
        var parsed := TryParseInt32(propertyName);
        if parsed.Some? {
          var position := parsed.value;
          if position == |list.items| {
            outcome := ApplyList(ListAdd(list.isArray, list.items, v));
          } else if 0 <= position < |list.items| {
            outcome := ApplyList(ListInsert(list.isArray, list.items, position, v));
          } else {
            outcome := LogError(sink, Error(InvalidIndexForArrayProperty(operation.op, path)));
          }
        } else {
          outcome := Fail(InvalidOperationException("Cannot add into array"));
        }
      }
    }

    method Remove() returns (outcome: Outcome)
      modifies list, sink
      ensures list.items == RemoveEffect(old(list.items)).state
      ensures outcome == RemoveEffect(old(list.items)).outcome
      ensures sink != null ==> sink.errors == old(sink.errors) + RemoveEffect(old(list.items)).logged
      ensures unchanged(list`entries) && unchanged(list`fieldValues)
    {
      if propertyName == "-" {
        outcome := ApplyList(ListRemoveAt(list.isArray, list.items, |list.items| - 1));
      } else {
        var parsed := TryParseInt32(propertyName);
        if parsed.Some? {
          var position := parsed.value;
          if 0 <= position < |list.items| {
            outcome := ApplyList(ListRemoveAt(list.isArray, list.items, position));
          } else {
            outcome := LogError(sink, Error(InvalidIndexForArrayProperty(operation.op, path)));
          }
        } else {
          outcome := Fail(InvalidOperationException("Cannot remove from array"));
        }
      }
    }

    method Replace(rt: Runtime, value: Value) returns (outcome: Outcome)
      modifies list, sink
      ensures list.items == ReplaceEffect(rt, old(list.items), value).state
      ensures outcome == ReplaceEffect(rt, old(list.items), value).outcome
      ensures sink != null ==> sink.errors == old(sink.errors) + ReplaceEffect(rt, old(list.items), value).logged
      ensures unchanged(list`entries) && unchanged(list`fieldValues)
    {
      outcome := Remove();
      if outcome.Fail? {
        return;
      }
      outcome := Add(rt, value);
    }

    method Get() returns (r: Result<Value>)
      ensures r == GetResult(list.items)
      ensures r.Success? ==> r.value in list.items
    {
      var parsed := TryParseInt32(propertyName);
      if parsed.Some? {
        return ListGet(list.isArray, list.items, parsed.value);
      }
      return Failure(InvalidOperationException("Position 0 is out of the range"));
    }

    // ---- properties ----

    /** An element added at a position, the position of the end included, is what
        `Get` then reads there, and removing at that position restores the list. */
    lemma AddThenGetAndRemove(rt: Runtime, items: seq<Value>, value: Value, position: int)
      requires !list.isArray
      requires TryParseInt32(propertyName) == Some(position) && 0 <= position <= |items|
      requires ConvertObjectToType(rt, value, listTypeArgument).canBeConverted
      ensures AddEffect(rt, items, value) ==
                Effect(InsertAt(items, position, rt.jsonRoundTrip(value, listTypeArgument).value), [], Pass)
      ensures GetResult(AddEffect(rt, items, value).state) == Success(rt.jsonRoundTrip(value, listTypeArgument).value)
      ensures RemoveEffect(AddEffect(rt, items, value).state) == Effect(items, [], Pass)
    {
      var v := rt.jsonRoundTrip(value, listTypeArgument).value;
      TryParseNotEndOfList();
      if position == |items| {
        assert InsertAt(items, position, v) == items + [v];
      }
      RemoveInsertedAt(items, position, v);
    }

    /** Replacing the element at a position inside the list with a value that converts
        overwrites it in place: the removal and the re-insertion cancel out, whether the
        position is the last one (re-added at the end) or not (inserted back). */
    lemma {:induction false} ReplaceAtPositionOverwrites(rt: Runtime, items: seq<Value>, value: Value, position: int)
      requires !list.isArray
      requires TryParseInt32(propertyName) == Some(position) && 0 <= position < |items|
      requires ConvertObjectToType(rt, value, listTypeArgument).canBeConverted
      ensures ReplaceEffect(rt, items, value) ==
                Effect(items[position := rt.jsonRoundTrip(value, listTypeArgument).value], [], Pass)
    {
      TryParseNotEndOfList();
      var v := rt.jsonRoundTrip(value, listTypeArgument).value;
      var removed := RemoveAt(items, position);
      assert RemoveEffect(items) == Effect(removed, [], Pass);
      var expected := items[position := v];
      if position == |removed| {
        assert removed + [v] == expected;
      } else {
        assert InsertAt(removed, position, v) == expected;
      }
    }

    /** `Replace` is not atomic: with a value that does not convert, the element is
        removed and the error is reported only afterwards, so the element is lost. */
    lemma ReplaceWithUnconvertibleValueDropsElement(rt: Runtime, items: seq<Value>, value: Value, position: int)
      requires !list.isArray
      requires TryParseInt32(propertyName) == Some(position) && 0 <= position < |items|
      requires !ConvertObjectToType(rt, value, listTypeArgument).canBeConverted
      ensures ReplaceEffect(rt, items, value).state == RemoveAt(items, position)
      ensures ReplaceEffect(rt, items, value).outcome ==
                if sink != null then Pass else Fail(JsonPatchException(Error(InvalidValueForProperty(value, path))))
    {
      TryParseNotEndOfList();
    }

    /** Replacing at the position just past the end, with a sink: the removal reports an
        invalid index, and the addition that follows then appends the value. */
    lemma ReplaceAtCountAppends(rt: Runtime, items: seq<Value>, value: Value)
      requires !list.isArray && sink != null
      requires TryParseInt32(propertyName) == Some(|items|)
      requires ConvertObjectToType(rt, value, listTypeArgument).canBeConverted
      ensures ReplaceEffect(rt, items, value) ==
                Effect(items + [rt.jsonRoundTrip(value, listTypeArgument).value],
                       [Error(InvalidIndexForArrayProperty(operation.op, path))], Pass)
    {
      TryParseNotEndOfList();
    }

    /** Positions outside `0..Count` are reported to the sink and change nothing; a text
        that is not a position is not reported but thrown. */
    lemma InvalidPositions(rt: Runtime, items: seq<Value>, value: Value)
      requires propertyName != "-"
      ensures TryParseInt32(propertyName).Some? && !(0 <= TryParseInt32(propertyName).value <= |items|)
                && ConvertObjectToType(rt, value, listTypeArgument).canBeConverted ==>
                AddEffect(rt, items, value) ==
                  Logged(items, sink != null, Error(InvalidIndexForArrayProperty(operation.op, path)))
      ensures TryParseInt32(propertyName).None? ==>
                RemoveEffect(items) == Effect(items, [], Fail(InvalidOperationException("Cannot remove from array")))
                && GetResult(items).Failure?
    {
    }
  }

  /** `-` is not an integer, so it never reaches the numeric branches. */
  lemma TryParseNotEndOfList()
    ensures TryParseInt32("-").None?
  {
    NotNumbers();
  }

  // ======== DictionaryWrapper ========

  /** `default(T)` when the value is not a `T`, the value itself when it is. Null is
      never a `T`, so it becomes the default too. */
  function CastTo(rt: Runtime, value: Value, t: TypeTag): (r: Value)
    ensures IsInstanceOf(rt, value, t) ==> r == value
    ensures !IsInstanceOf(rt, value, t) ==> r == DefaultValue(rt, t)
  {
    if IsInstanceOf(rt, value, t) then value else DefaultValue(rt, t)
  }

  /** A view of an `IDictionary<string, TValue>` whose keys are looked up ignoring
      case. When `TValue` is `object`, writing over an existing member converts the
      value to the type of the value it replaces. */
  class DictionaryWrapper {
    const targetDictionary: Obj
    /** Keys are strings and values are of type `object`. */
    const useDynamic: bool

    predicate Valid() {
      useDynamic <==> targetDictionary.valueType == ObjectType
    }

    constructor(targetDictionary: Obj)
      ensures this.targetDictionary == targetDictionary
      ensures Valid()
    {
      this.targetDictionary := targetDictionary;
      this.useDynamic := targetDictionary.valueType == ObjectType;
    }

    /** What `GetValue(key)` returns: the generic indexer at the stored key, throwing
        for an absent one. */
    function GetValueResult(entries: Entries, key: string): Result<Value> {
      match Lookup(entries, KeyFor(entries, key), targetDictionary.ignoreCase)
      case Some(v) => Success(v)
      case None => Failure(KeyNotFoundException)
    }

    /** The members after `SetValue(key, value)`, or the exception it throws. */
    function SetValueResult(rt: Runtime, entries: Entries, key: string, value: Value): Result<Entries> {
      var k := KeyFor(entries, key);
      if useDynamic && HasKey(entries, k, targetDictionary.ignoreCase) then
        var currentValue := Lookup(entries, k, targetDictionary.ignoreCase).value;
        if currentValue == Null then Failure(NullReferenceException)
        else
          var result := ConvertObjectToType(rt, value, TypeOf(currentValue));
          Success(Put(entries, k, CastTo(rt, result.convertedInstance, targetDictionary.valueType),
                      targetDictionary.ignoreCase))
      else Success(Put(entries, k, CastTo(rt, value, targetDictionary.valueType), targetDictionary.ignoreCase))
    }

    /** The members after `RemoveValue(key)`. */
    function RemoveValueResult(entries: Entries, key: string): Entries {
      Delete(entries, KeyFor(entries, key), targetDictionary.ignoreCase)
    }

    /** What `ContainsKey(key)` returns. */
    function ContainsKeyResult(entries: Entries, key: string): bool {
      HasKey(entries, KeyFor(entries, key), targetDictionary.ignoreCase)
    }

    method GetValue(key: string) returns (r: Result<Value>)
      ensures r == GetValueResult(targetDictionary.entries, key)
    {
      var k := GetKeyUsingCaseInsensitiveSearch(targetDictionary, key);
      var found := Lookup(targetDictionary.entries, k, targetDictionary.ignoreCase);
      if found.None? {
        return Failure(KeyNotFoundException);
      }
      return Success(found.value);
    }

    method ContainsKey(key: string) returns (found: bool)
      ensures found == ContainsKeyResult(targetDictionary.entries, key)
      ensures found <==> HasKey(targetDictionary.entries, key, true)
    {
      var k := GetKeyUsingCaseInsensitiveSearch(targetDictionary, key);
      found := HasKey(targetDictionary.entries, k, targetDictionary.ignoreCase);
      KeyForPresence(targetDictionary.entries, key, targetDictionary.ignoreCase);
    }

    method SetValue(rt: Runtime, key: string, value: Value) returns (outcome: Outcome)
      modifies targetDictionary
      ensures SetValueResult(rt, old(targetDictionary.entries), key, value).Success? ==>
                outcome == Pass
                && targetDictionary.entries == SetValueResult(rt, old(targetDictionary.entries), key, value).value
      ensures SetValueResult(rt, old(targetDictionary.entries), key, value).Failure? ==>
                outcome == Fail(NullReferenceException) && targetDictionary.entries == old(targetDictionary.entries)
      ensures unchanged(targetDictionary`items) && unchanged(targetDictionary`fieldValues)
    {
      var k := GetKeyUsingCaseInsensitiveSearch(targetDictionary, key);
      KeyForIsIdempotent(targetDictionary.entries, key);
      var contains := ContainsKey(k);
      if useDynamic && contains {
        KeyForPresence(targetDictionary.entries, key, targetDictionary.ignoreCase);
        var currentValue := GetValue(k);
        if currentValue.value == Null {
          return Fail(NullReferenceException);
        }
        var result := ConvertObjectToType(rt, value, TypeOf(currentValue.value));
        targetDictionary.entries := Put(targetDictionary.entries, k,
          CastTo(rt, result.convertedInstance, targetDictionary.valueType), targetDictionary.ignoreCase);
        return Pass;
      }
      KeyForPresence(targetDictionary.entries, key, targetDictionary.ignoreCase);
      targetDictionary.entries := Put(targetDictionary.entries, k,
        CastTo(rt, value, targetDictionary.valueType), targetDictionary.ignoreCase);
      return Pass;
    }

    method RemoveValue(key: string)
      modifies targetDictionary
      ensures targetDictionary.entries == RemoveValueResult(old(targetDictionary.entries), key)
      ensures unchanged(targetDictionary`items) && unchanged(targetDictionary`fieldValues)
    {
      var k := GetKeyUsingCaseInsensitiveSearch(targetDictionary, key);
      targetDictionary.entries := Delete(targetDictionary.entries, k, targetDictionary.ignoreCase);
    }

    // ---- properties ----

    /** After a successful `SetValue` the key is present and reads back the value
        stored: the value itself when it is a `TValue`, or (over a non-null member of a
        dictionary of objects) the value re-encoded as the type of the old value. */
    lemma {:induction false} SetThenGet(rt: Runtime, entries: Entries, key: string, value: Value)
      requires Distinct(entries, targetDictionary.ignoreCase)
      requires SetValueResult(rt, entries, key, value).Success?
      ensures ContainsKeyResult(SetValueResult(rt, entries, key, value).value, key)
      ensures !(useDynamic && HasKey(entries, key, true)) ==>
                GetValueResult(SetValueResult(rt, entries, key, value).value, key) ==
                  Success(CastTo(rt, value, targetDictionary.valueType))
    {
      var ic := targetDictionary.ignoreCase;
      var k := KeyFor(entries, key);
      KeyForPresence(entries, key, ic);
      var stored := if useDynamic && HasKey(entries, k, ic) then
        CastTo(rt, ConvertObjectToType(rt, value, TypeOf(Lookup(entries, k, ic).value)).convertedInstance,
               targetDictionary.valueType)
      else CastTo(rt, value, targetDictionary.valueType);
      KeyForAfterPut(entries, key, stored, ic);
    }

    /** Over a member that holds null, a dictionary of objects cannot take the type of
        the old value and throws. */
    lemma SetOverNullMemberThrows(rt: Runtime, entries: Entries, key: string, value: Value)
      requires useDynamic
      requires Lookup(entries, KeyFor(entries, key), targetDictionary.ignoreCase) == Some(Null)
      ensures SetValueResult(rt, entries, key, value) == Failure(NullReferenceException)
    {
    }

    /** Over a non-null member of a dictionary of objects, a value that cannot be
        re-encoded as the type of the old value does not fail: null is stored. */
    lemma SetWithFailedConversionStoresNull(rt: Runtime, entries: Entries, key: string, value: Value)
      requires Valid() && useDynamic
      requires Lookup(entries, KeyFor(entries, key), targetDictionary.ignoreCase).Some?
      requires Lookup(entries, KeyFor(entries, key), targetDictionary.ignoreCase).value != Null
      requires rt.jsonRoundTrip(value, TypeOf(Lookup(entries, KeyFor(entries, key), targetDictionary.ignoreCase).value)).None?
      ensures SetValueResult(rt, entries, key, value) ==
                Success(Put(entries, KeyFor(entries, key), Null, targetDictionary.ignoreCase))
    {
      assert !IsInstanceOf(rt, Null, targetDictionary.valueType);
      assert !IsNonNullableValueType(ObjectType);
    }

    /** In a dictionary whose comparer ignores case, removing a key leaves no member
        the key can find. */
    lemma {:induction false} RemoveThenAbsent(entries: Entries, key: string)
      requires targetDictionary.ignoreCase
      requires Distinct(entries, true)
      ensures !ContainsKeyResult(RemoveValueResult(entries, key), key)
      ensures GetValueResult(RemoveValueResult(entries, key), key) == Failure(KeyNotFoundException)
    {
      var k := KeyFor(entries, key);
      var e' := Delete(entries, k, true);
      DeleteSemantics(entries, k, true);
      KeyForPresence(e', key, true);
      KeyForPresence(entries, key, true);
    }
  }

  /** Overwriting an existing member keeps every stored key. */
  lemma {:induction false} SameKeysAfterPut(entries: Entries, key: string, v: Value, ignoreCase: bool)
    requires HasKey(entries, key, ignoreCase)
    ensures Keys(Put(entries, key, v, ignoreCase)) == Keys(entries)
  {
    var e' := Put(entries, key, v, ignoreCase);
    assert forall m :: 0 <= m < |e'| ==> Keys(e')[m] == Keys(entries)[m];
  }

  /** After writing under the key a case-insensitive search returned, the same search
      finds the member written, whose value is the one stored. */
  lemma {:induction false} KeyForAfterPut(entries: Entries, key: string, v: Value, ignoreCase: bool)
    requires Distinct(entries, ignoreCase)
    ensures Lookup(Put(entries, KeyFor(entries, key), v, ignoreCase),
                   KeyFor(Put(entries, KeyFor(entries, key), v, ignoreCase), key), ignoreCase) == Some(v)
  {
    var k := KeyFor(entries, key);
    var e' := Put(entries, k, v, ignoreCase);
    PutSemantics(entries, k, v, ignoreCase);
    if HasKey(entries, k, ignoreCase) {
      SameKeysAfterPut(entries, k, v, ignoreCase);
      assert forall m :: 0 <= m < |e'| ==> e'[m].0 == entries[m].0;
      SameKeysIndexOf(entries, e', key, true);
      assert KeyFor(e', key) == k;
    } else {
      KeyForPresence(entries, key, ignoreCase);
      assert !HasKey(entries, key, true);
      IndexOfIs(e', key, true, |entries|);
      assert KeyFor(e', key) == key;
      assert k == key;
    }
  }

  // ======== DictionaryPatchOperation ========

  /** An operation on one member of a generic dictionary, through its wrapper. */
  class DictionaryPatchOperation {
    const wrapper: DictionaryWrapper
    const propertyName: string
    const sink: ErrorLogger?
    const path: string
    const operation: Operation

    constructor(wrapper: DictionaryWrapper, propertyName: string, sink: ErrorLogger?, path: string, operation: Operation)
      ensures this.wrapper == wrapper && this.propertyName == propertyName && this.sink == sink
      ensures this.path == path && this.operation == operation
    {
      this.wrapper := wrapper;
      this.propertyName := propertyName;
      this.sink := sink;
      this.path := path;
      this.operation := operation;
    }

    /** The effect of `Remove()`: an absent key is reported, and when the report does
        not throw the removal goes ahead anyway. */
    function RemoveEffect(entries: Entries): Effect<Entries> {
      if !wrapper.ContainsKeyResult(entries, propertyName) then
        var reported := Logged(entries, sink != null,
          PatchError(Ref(wrapper.targetDictionary), operation, CannotPerformOperation("remove", path)));
        if reported.outcome.Fail? then reported
        else Effect(wrapper.RemoveValueResult(entries, propertyName), reported.logged, Pass)
      else Effect(wrapper.RemoveValueResult(entries, propertyName), [], Pass)
    }

    /** `Add(value)`, which is also `Replace(value)`. */
    method Add(rt: Runtime, value: Value) returns (outcome: Outcome)
      modifies wrapper.targetDictionary
      ensures wrapper.SetValueResult(rt, old(wrapper.targetDictionary.entries), propertyName, value).Success? ==>
                outcome == Pass && wrapper.targetDictionary.entries ==
                  wrapper.SetValueResult(rt, old(wrapper.targetDictionary.entries), propertyName, value).value
      ensures wrapper.SetValueResult(rt, old(wrapper.targetDictionary.entries), propertyName, value).Failure? ==>
                outcome == Fail(NullReferenceException) && wrapper.targetDictionary.entries == old(wrapper.targetDictionary.entries)
      ensures unchanged(wrapper.targetDictionary`items) && unchanged(wrapper.targetDictionary`fieldValues)
    {
      outcome := wrapper.SetValue(rt, propertyName, value);
    }

    method Replace(rt: Runtime, value: Value) returns (outcome: Outcome)
      modifies wrapper.targetDictionary
      ensures wrapper.SetValueResult(rt, old(wrapper.targetDictionary.entries), propertyName, value).Success? ==>
                outcome == Pass && wrapper.targetDictionary.entries ==
                  wrapper.SetValueResult(rt, old(wrapper.targetDictionary.entries), propertyName, value).value
      ensures wrapper.SetValueResult(rt, old(wrapper.targetDictionary.entries), propertyName, value).Failure? ==>
                outcome == Fail(NullReferenceException) && wrapper.targetDictionary.entries == old(wrapper.targetDictionary.entries)
      ensures unchanged(wrapper.targetDictionary`items) && unchanged(wrapper.targetDictionary`fieldValues)
    {
      outcome := wrapper.SetValue(rt, propertyName, value);
    }

    method Get() returns (r: Result<Value>)
      ensures r == wrapper.GetValueResult(wrapper.targetDictionary.entries, propertyName)
    {
      r := wrapper.GetValue(propertyName);
    }

    method Remove() returns (outcome: Outcome)
      modifies wrapper.targetDictionary, sink
      ensures wrapper.targetDictionary.entries == RemoveEffect(old(wrapper.targetDictionary.entries)).state
      ensures outcome == RemoveEffect(old(wrapper.targetDictionary.entries)).outcome
      ensures sink != null ==> sink.errors == old(sink.errors) + RemoveEffect(old(wrapper.targetDictionary.entries)).logged
      ensures unchanged(wrapper.targetDictionary`items) && unchanged(wrapper.targetDictionary`fieldValues)
    {
      var contains := wrapper.ContainsKey(propertyName);
      if !contains {
        outcome := LogError(sink, PatchError(Ref(wrapper.targetDictionary), operation, CannotPerformOperation("remove", path)));
        if outcome.Fail? {
          return;
        }
      }
      wrapper.RemoveValue(propertyName);
      outcome := Pass;
    }

    /** Removing an absent key changes nothing: with a sink it is only reported, without
        one it throws. */
    lemma RemoveAbsentKey(entries: Entries)
      requires !HasKey(entries, propertyName, true)
      ensures RemoveEffect(entries).state == entries
      ensures RemoveEffect(entries).outcome ==
                if sink != null then Pass
                else Fail(JsonPatchException(PatchError(Ref(wrapper.targetDictionary), operation,
                  CannotPerformOperation("remove", path))))
    {
      KeyForPresence(entries, propertyName, wrapper.targetDictionary.ignoreCase);
    }
  }

  // ======== PocoPatchOperation ========

  /** An operation on one property of a plain object, the `propertyIndex`-th of its
      contract. */
  class PocoPatchOperation {
    const target: Obj
    const propertyIndex: nat
    const sink: ErrorLogger?
    const path: string
    const operation: Operation

    predicate Valid() {
      target.contract.ObjectContract? && propertyIndex < |target.contract.properties|
    }

    function Property(): Property
      requires Valid()
    {
      target.contract.properties[propertyIndex]
    }

    constructor(target: Obj, propertyIndex: nat, sink: ErrorLogger?, path: string, operation: Operation)
      ensures this.target == target && this.propertyIndex == propertyIndex && this.sink == sink
      ensures this.path == path && this.operation == operation
    {
      this.target := target;
      this.propertyIndex := propertyIndex;
      this.sink := sink;
      this.path := path;
      this.operation := operation;
    }

    function Error(message: Message): PatchError {
      PatchError(Ref(target), operation, message)
    }

    /** The effect of `Add(value)`: the conversion is checked before writability. */
    function AddEffect(rt: Runtime, fieldValues: seq<Value>, value: Value): Effect<seq<Value>>
      requires Valid() && |fieldValues| == |target.contract.properties|
    {
      var conversionResult := ConvertObjectToType(rt, value, Property().propertyType);
      if !conversionResult.canBeConverted then
        Logged(fieldValues, sink != null, Error(InvalidValueForProperty(value, path)))
      else if !Property().writable then
        Logged(fieldValues, sink != null, Error(CannotUpdateProperty(path)))
      else Effect(fieldValues[propertyIndex := conversionResult.convertedInstance], [], Pass)
    }

    /** The effect of `Replace(value)`: like `Add`, without the writability check. */
    function ReplaceEffect(rt: Runtime, fieldValues: seq<Value>, value: Value): Effect<seq<Value>>
      requires Valid() && |fieldValues| == |target.contract.properties|
    {
      var conversionResult := ConvertObjectToType(rt, value, Property().propertyType);
      if !conversionResult.canBeConverted then
        Logged(fieldValues, sink != null, Error(InvalidValueForProperty(value, path)))
      else Effect(fieldValues[propertyIndex := conversionResult.convertedInstance], [], Pass)
    }

    /** The effect of `Remove()`: the property is reset to the default of its type. */
    function RemoveEffect(rt: Runtime, fieldValues: seq<Value>): Effect<seq<Value>>
      requires Valid() && |fieldValues| == |target.contract.properties|
    {
      if !Property().writable then Logged(fieldValues, sink != null, Error(CannotUpdateProperty(path)))
      else Effect(fieldValues[propertyIndex := DefaultValue(rt, Property().propertyType)], [], Pass)
    }

    /** What `Get()` returns: a property that is not readable is reported, and when the
        report does not throw its value is read anyway. */
    function GetEffect(fieldValues: seq<Value>): Effect<Option<Value>>
      requires Valid() && |fieldValues| == |target.contract.properties|
    {
      if !Property().readable then
        var reported := Logged(None, sink != null, Error(CannotReadProperty(path)));
        if reported.outcome.Fail? then reported
        else Effect(Some(fieldValues[propertyIndex]), reported.logged, Pass)
      else Effect(Some(fieldValues[propertyIndex]), [], Pass)
    }

    method Add(rt: Runtime, value: Value) returns (outcome: Outcome)
      requires Valid() && target.Valid()
      modifies target, sink
      ensures target.fieldValues == AddEffect(rt, old(target.fieldValues), value).state
      ensures outcome == AddEffect(rt, old(target.fieldValues), value).outcome
      ensures sink != null ==> sink.errors == old(sink.errors) + AddEffect(rt, old(target.fieldValues), value).logged
      ensures unchanged(target`entries) && unchanged(target`items)
    {
      var conversionResult := ConvertObjectToType(rt, value, Property().propertyType);
      if !conversionResult.canBeConverted {
        outcome := LogError(sink, Error(InvalidValueForProperty(value, path)));
        return;
      }
      if !Property().writable {
        outcome := LogError(sink, Error(CannotUpdateProperty(path)));
        return;
      }
      target.fieldValues := target.fieldValues[propertyIndex := conversionResult.convertedInstance];
      outcome := Pass;
    }

    method Replace(rt: Runtime, value: Value) returns (outcome: Outcome)
      requires Valid() && target.Valid()
      modifies target, sink
      ensures target.fieldValues == ReplaceEffect(rt, old(target.fieldValues), value).state
      ensures outcome == ReplaceEffect(rt, old(target.fieldValues), value).outcome
      ensures sink != null ==> sink.errors == old(sink.errors) + ReplaceEffect(rt, old(target.fieldValues), value).logged
      ensures unchanged(target`entries) && unchanged(target`items)
    {
      var conversionResult := ConvertObjectToType(rt, value, Property().propertyType);
      if !conversionResult.canBeConverted {
        outcome := LogError(sink, Error(InvalidValueForProperty(value, path)));
        return;
      }
      target.fieldValues := target.fieldValues[propertyIndex := conversionResult.convertedInstance];
      outcome := Pass;
    }

    method Remove(rt: Runtime) returns (outcome: Outcome)
      requires Valid() && target.Valid()
      modifies target, sink
      ensures target.fieldValues == RemoveEffect(rt, old(target.fieldValues)).state
      ensures outcome == RemoveEffect(rt, old(target.fieldValues)).outcome
      ensures sink != null ==> sink.errors == old(sink.errors) + RemoveEffect(rt, old(target.fieldValues)).logged
      ensures unchanged(target`entries) && unchanged(target`items)
    {
      if !Property().writable {
        outcome := LogError(sink, Error(CannotUpdateProperty(path)));
        return;
      }
      var value := Null;
      if Property().propertyType.isValueType && !Property().propertyType.isNullableOfT {
        value := rt.createInstance(Property().propertyType);
      }
      target.fieldValues := target.fieldValues[propertyIndex := value];
      outcome := Pass;
    }

    method Get() returns (r: Result<Value>)
      requires Valid() && target.Valid()
      modifies sink
      ensures GetEffect(target.fieldValues).outcome.Pass? ==> r == Success(GetEffect(target.fieldValues).state.value)
      ensures GetEffect(target.fieldValues).outcome.Fail? ==> r == Failure(GetEffect(target.fieldValues).outcome.exception)
      ensures sink != null ==> sink.errors == old(sink.errors) + GetEffect(target.fieldValues).logged
    {
      if !Property().readable {
        var outcome := LogError(sink, Error(CannotReadProperty(path)));
        if outcome.Fail? {
          return Failure(outcome.exception);
        }
      }
      return Success(target.fieldValues[propertyIndex]);
    }

    // ---- properties ----

    /** A value that converts is stored by `Add` on a writable property and by `Replace`
        on any property; one that does not is reported and changes nothing, before
        writability is considered. */
    lemma WriteEffects(rt: Runtime, fieldValues: seq<Value>, value: Value)
      requires Valid() && |fieldValues| == |target.contract.properties|
      ensures ConvertObjectToType(rt, value, Property().propertyType).canBeConverted ==>
                ReplaceEffect(rt, fieldValues, value).state ==
                  fieldValues[propertyIndex := rt.jsonRoundTrip(value, Property().propertyType).value]
      ensures ConvertObjectToType(rt, value, Property().propertyType).canBeConverted && Property().writable ==>
                AddEffect(rt, fieldValues, value) == ReplaceEffect(rt, fieldValues, value)
      ensures !ConvertObjectToType(rt, value, Property().propertyType).canBeConverted ==>
                AddEffect(rt, fieldValues, value) ==
                  Logged(fieldValues, sink != null, Error(InvalidValueForProperty(value, path)))
                && ReplaceEffect(rt, fieldValues, value) == AddEffect(rt, fieldValues, value)
    {
    }

    /** A readable property reads back what a write stored, and the default of its type
        after `Remove`. */
    lemma WriteThenGet(rt: Runtime, fieldValues: seq<Value>, value: Value)
      requires Valid() && |fieldValues| == |target.contract.properties| && Property().readable
      ensures ReplaceEffect(rt, fieldValues, value).outcome.Pass? &&
              ConvertObjectToType(rt, value, Property().propertyType).canBeConverted ==>
                GetEffect(ReplaceEffect(rt, fieldValues, value).state).state ==
                  Some(rt.jsonRoundTrip(value, Property().propertyType).value)
      ensures Property().writable ==>
                GetEffect(RemoveEffect(rt, fieldValues).state).state == Some(DefaultValue(rt, Property().propertyType))
    {
    }

    /** Reading a property that is not readable, with a sink, reports it and still
        returns the value. */
    lemma GetUnreadableWithSink(fieldValues: seq<Value>)
      requires Valid() && |fieldValues| == |target.contract.properties|
      requires !Property().readable && sink != null
      ensures GetEffect(fieldValues) ==
                Effect(Some(fieldValues[propertyIndex]), [Error(CannotReadProperty(path))], Pass)
    {
    }
  }
}
