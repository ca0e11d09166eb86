/**
 * The patch objects handed out by the tree analyzer: each is bound to one location (an
 * element of a list, a member of an expando, a property of a plain object) and applies
 * get, add, remove and replace there, throwing a `JsonPatchException` when it cannot.
 *
 * The effect of each operation is specified by a function on the state it touches;
 * each method is proved to produce that effect, and the functions are related to each
 * other by the lemmas at the end of each section.
 */
module PatchObjects {
  import opened Values
  import opened Collections
  import opened Numbers
  import opened Positions
  import opened ConversionResultProvider
  import opened ExpandoExtensions
  import opened Properties

  /** An `IPatchObject`. `PatchDictionaryObject` is not part of this model: the
      dictionary and the segment it is made on stand for it. */
  datatype PatchObject =
    | DictionaryPatch(dictionary: Value, segment: string)
    | ExpandoPatch(expando: PatchExpandoObject)
    | ListPatch(list: PatchListObject)
    | PocoPatch(poco: PatchPocoObject)

  // ======== PatchListObject ========

  /** Why `new PatchListObject(list, segment, operation)` throws, or `None` when it
      does not: a missing list, a fixed-size array, a list that implements no
      `IList<T>`, a segment that is not a position, a position outside the list. */
  function ListObjectRejection(list: Obj?, segment: string, operation: Operation): Option<Exception>
    reads list
  {
    if list == null then Some(ArgumentNullException)
    else if list.isArray then
      Some(JsonPatchException(PatchError(Ref(list), operation, PatchNotSupportedForArrays(list.runtimeType.name))))
    else if list.listTypeArgument.None? then
      Some(JsonPatchException(PatchError(Ref(list), operation,
        PatchNotSupportedForNonGenericLists(list.runtimeType.name))))
    else match GetPositionInfo(segment, |list.items|).kind
      case Invalid =>
        Some(JsonPatchException(PatchError(Ref(list), operation,
          InvalidPathForArrayProperty(operation.op, operation.path))))
      case OutOfBounds =>
        Some(JsonPatchException(PatchError(Ref(list), operation,
          InvalidIndexForArrayProperty(operation.op, operation.path))))
      case _ => None
  }

  /** A patch object for one position of a generic list. The position is classified
      once, when the object is made, against the list as it was then. */
  class PatchListObject {
    const list: Obj
    const pathSegment: string
    const operation: Operation
    const genericListTypeArgument: TypeTag
    const positionInfo: PositionInfo

    /** What the constructor guarantees once its checks have passed. */
    predicate Valid() {
      && !list.isArray
      && list.listTypeArgument == Some(genericListTypeArgument)
      && IsUsable(positionInfo)
      && (positionInfo.kind == Index ==> positionInfo.index >= 0)
    }

    constructor Init(list: Obj, pathSegment: string, operation: Operation,
                     genericListTypeArgument: TypeTag, positionInfo: PositionInfo)
      ensures this.list == list && this.pathSegment == pathSegment && this.operation == operation
      ensures this.genericListTypeArgument == genericListTypeArgument
      ensures this.positionInfo == positionInfo
    {
      this.list := list;
      this.pathSegment := pathSegment;
      this.operation := operation;
      this.genericListTypeArgument := genericListTypeArgument;
      this.positionInfo := positionInfo;
    }

    /** `new PatchListObject(list, segment, operation)`. */
    static method Create(list: Obj?, pathSegment: string, operation: Operation)
      returns (r: Result<PatchListObject>)
      ensures r.Failure? <==> ListObjectRejection(list, pathSegment, operation).Some?
      ensures r.Failure? ==> Some(r.exception) == ListObjectRejection(list, pathSegment, operation)
      ensures r.Success? ==> r.value.Valid() && r.value.list == list && r.value.operation == operation
      ensures r.Success? ==> r.value.positionInfo == GetPositionInfo(pathSegment, |list.items|)
      ensures r.Success? ==> Some(r.value.genericListTypeArgument) == list.listTypeArgument
    {
      if list == null {
        return Failure(ArgumentNullException);
      }
      if list.isArray {
        return Failure(JsonPatchException(PatchError(Ref(list), operation,
          PatchNotSupportedForArrays(list.runtimeType.name))));
      }
      if list.listTypeArgument.None? {
        return Failure(JsonPatchException(PatchError(Ref(list), operation,
          PatchNotSupportedForNonGenericLists(list.runtimeType.name))));
      }
      var typeArgument := list.listTypeArgument.value;
      var positionInfo := GetPositionInfo(pathSegment, |list.items|);
      if positionInfo.kind == Invalid {
        return Failure(JsonPatchException(PatchError(Ref(list), operation,
          InvalidPathForArrayProperty(operation.op, operation.path))));
      } else if positionInfo.kind == OutOfBounds {
        return Failure(JsonPatchException(PatchError(Ref(list), operation,
          InvalidIndexForArrayProperty(operation.op, operation.path))));
      }
      PositionInfoMeaning(pathSegment, |list.items|);
      var handle := new PatchListObject.Init(list, pathSegment, operation, typeArgument, positionInfo);
      return Success(handle);
    }

    /** `ConvertValue`: the value converted to the element type, or the exception
        reporting that it does not convert. */
    function ConvertValue(rt: Runtime, value: Value): (r: Result<Value>)
      ensures r.Failure? <==> !ConvertTo(rt, value, genericListTypeArgument).canBeConverted
      ensures r.Failure? ==>
                r.exception == JsonPatchException(PatchError(Ref(list), operation, InvalidValueForProperty(value, operation.path)))
      ensures r.Success? ==> r.value == ConvertTo(rt, value, genericListTypeArgument).convertedInstance
    {
      var conversionResult := ConvertTo(rt, value, genericListTypeArgument);
      if !conversionResult.canBeConverted then
        Failure(JsonPatchException(PatchError(Ref(list), operation, InvalidValueForProperty(value, operation.path))))
      else Success(conversionResult.convertedInstance)
    }

    /** The elements after `Add(value)`, or the exception it throws. */
    function AddResult(rt: Runtime, items: seq<Value>, value: Value): Result<seq<Value>> {
      match ConvertValue(rt, value)
      case Failure(e) => Failure(e)
      case Success(v) =>
        if positionInfo.kind == EndOfList then ListAdd(list.isArray, items, v)
        else ListInsert(list.isArray, items, positionInfo.index, v)
    }

    /** The elements after `Remove()`, or the exception it throws. */
    function RemoveResult(items: seq<Value>): Result<seq<Value>> {
      if positionInfo.kind == EndOfList then ListRemoveAt(list.isArray, items, |items| - 1)
      else ListRemoveAt(list.isArray, items, positionInfo.index)
    }

    /** The elements after `Replace(value)`, or the exception it throws. */
    function ReplaceResult(rt: Runtime, items: seq<Value>, value: Value): Result<seq<Value>> {
      match ConvertValue(rt, value)
      case Failure(e) => Failure(e)
      case Success(v) =>
        if positionInfo.kind == EndOfList then ListSet(list.isArray, items, |items| - 1, v)
        else ListSet(list.isArray, items, positionInfo.index, v)
    }

    /** The value `Get()` returns, or the exception it throws. */
    function GetResult(items: seq<Value>): Result<Value> {
      if positionInfo.kind == EndOfList then ListGet(list.isArray, items, |items| - 1)
      else ListGet(list.isArray, items, positionInfo.index)
    }

    method Add(rt: Runtime, value: Value) returns (outcome: Outcome)
      modifies list
      ensures AddResult(rt, old(list.items), value).Success? ==>
                outcome == Pass && list.items == AddResult(rt, old(list.items), value).value
      ensures AddResult(rt, old(list.items), value).Failure? ==>
                outcome == Fail(AddResult(rt, old(list.items), value).exception) && list.items == old(list.items)
      ensures unchanged(list`entries) && unchanged(list`fieldValues)
    {
      var converted := ConvertValue(rt, value);
      if converted.Failure? {
        return Fail(converted.exception);
      }
      var updated: Result<seq<Value>>;
      if positionInfo.kind == EndOfList {
        updated := ListAdd(list.isArray, list.items, converted.value);
      } else {
        updated := ListInsert(list.isArray, list.items, positionInfo.index, converted.value);
      }
      if updated.Failure? {
        return Fail(updated.exception);
      }
      list.items := updated.value;
      return Pass;
    }

    method Remove() returns (outcome: Outcome)
      modifies list
      ensures RemoveResult(old(list.items)).Success? ==>
                outcome == Pass && list.items == RemoveResult(old(list.items)).value
      ensures RemoveResult(old(list.items)).Failure? ==>
                outcome == Fail(RemoveResult(old(list.items)).exception) && list.items == old(list.items)
      ensures unchanged(list`entries) && unchanged(list`fieldValues)
    {
      var updated: Result<seq<Value>>;
      if positionInfo.kind == EndOfList {
        updated := ListRemoveAt(list.isArray, list.items, |list.items| - 1);
      } else {
        updated := ListRemoveAt(list.isArray, list.items, positionInfo.index);
      }
      if updated.Failure? {
        return Fail(updated.exception);
      }
      list.items := updated.value;
      return Pass;
    }

    method Replace(rt: Runtime, value: Value) returns (outcome: Outcome)
      modifies list
      ensures ReplaceResult(rt, old(list.items), value).Success? ==>
                outcome == Pass && list.items == ReplaceResult(rt, old(list.items), value).value
      ensures ReplaceResult(rt, old(list.items), value).Failure? ==>
                outcome == Fail(ReplaceResult(rt, old(list.items), value).exception) && list.items == old(list.items)
      ensures unchanged(list`entries) && unchanged(list`fieldValues)
    {
      var converted := ConvertValue(rt, value);
      if converted.Failure? {
        return Fail(converted.exception);
      }
      var updated: Result<seq<Value>>;
      if positionInfo.kind == EndOfList {
        updated := ListSet(list.isArray, list.items, |list.items| - 1, converted.value);
      } else {
        updated := ListSet(list.isArray, list.items, positionInfo.index, converted.value);
      }
      if updated.Failure? {
        return Fail(updated.exception);
      }
      list.items := updated.value;
      return Pass;
    }

    method Get() returns (r: Result<Value>)
      ensures r == GetResult(list.items)
      ensures r.Success? ==> r.value in list.items
    {
      if positionInfo.kind == EndOfList {
        r := ListGet(list.isArray, list.items, |list.items| - 1);
      } else {
        r := ListGet(list.isArray, list.items, positionInfo.index);
      }
    }

    // ---- properties ----

    /** Removing at the position where a value was just added restores the list; an
        addition at the end is undone by removing the last element. */
    lemma AddThenRemoveRestores(rt: Runtime, items: seq<Value>, value: Value)
      requires Valid()
      requires AddResult(rt, items, value).Success?
      ensures RemoveResult(AddResult(rt, items, value).value) == Success(items)
    {
      var v := ConvertValue(rt, value).value;
      if positionInfo.kind == EndOfList {
        assert InsertAt(items, |items|, v) == items + [v];
        RemoveInsertedAt(items, |items|, v);
      } else {
        ListInsertThenRemoveAt(list.isArray, items, positionInfo.index, v);
      }
    }

    /** What `Add` or `Replace` stored is what `Get` then returns. */
    lemma WriteThenGet(rt: Runtime, items: seq<Value>, value: Value)
      requires Valid()
      ensures AddResult(rt, items, value).Success? ==>
                GetResult(AddResult(rt, items, value).value) == Success(ConvertValue(rt, value).value)
      ensures ReplaceResult(rt, items, value).Success? ==>
                GetResult(ReplaceResult(rt, items, value).value) == Success(ConvertValue(rt, value).value)
    {
    }

    /** `Add` grows the list by one, `Remove` shrinks it by one, `Replace` keeps its
        length, and a value that does not convert changes nothing. */
    lemma LengthEffects(rt: Runtime, items: seq<Value>, value: Value)
      requires Valid()
      ensures AddResult(rt, items, value).Success? ==> |AddResult(rt, items, value).value| == |items| + 1
      ensures RemoveResult(items).Success? ==> |RemoveResult(items).value| == |items| - 1
      ensures ReplaceResult(rt, items, value).Success? ==> |ReplaceResult(rt, items, value).value| == |items|
      ensures !ConvertTo(rt, value, genericListTypeArgument).canBeConverted ==>
                AddResult(rt, items, value).Failure? && ReplaceResult(rt, items, value).Failure?
    {
    }

    /** On an empty list `-` has no last element: `Get`, `Remove` and `Replace` throw
        `ArgumentOutOfRangeException`. */
    lemma EndOfEmptyList(rt: Runtime, value: Value)
      requires Valid() && positionInfo.kind == EndOfList
      ensures GetResult([]) == Failure(ArgumentOutOfRangeException)
      ensures RemoveResult([]) == Failure(ArgumentOutOfRangeException)
      ensures ConvertValue(rt, value).Success? ==> ReplaceResult(rt, [], value) == Failure(ArgumentOutOfRangeException)
    {
    }

    /** A position classified when the object was made can go stale: once the list has
        shrunk below it, `Get` throws. */
    lemma StalePosition(items: seq<Value>)
      requires Valid() && positionInfo.kind == Index && |items| <= positionInfo.index
      ensures GetResult(items) == Failure(ArgumentOutOfRangeException)
    {
    }
  }

  /** Arrays, non-generic lists, non-positions and positions outside the list are
      refused when the patch object is made, in that order; appending is spelled `-`
      only, the text of the current length is refused as out of bounds. */
  lemma ListObjectRejectionCases(list: Obj, operation: Operation)
    requires !list.isArray && list.listTypeArgument.Some?
    requires |list.items| <= Int32Max
    ensures ListObjectRejection(list, FormatInt(|list.items|), operation) ==
              Some(JsonPatchException(PatchError(Ref(list), operation,
                InvalidIndexForArrayProperty(operation.op, operation.path))))
    ensures ListObjectRejection(list, "-", operation).None?
    ensures ListObjectRejection(list, "blah", operation) ==
              Some(JsonPatchException(PatchError(Ref(list), operation,
                InvalidPathForArrayProperty(operation.op, operation.path))))
  {
    CountIsOutOfBounds(|list.items|);
    NotNumbers();
  }

  // ======== PatchExpandoObject ========

  /** A patch object for one member of an expando. The key is resolved once, when the
      object is made: the stored key that equals the requested name ignoring case, or
      the name itself. The members are compared ordinally, as an expando does. */
  class PatchExpandoObject {
    const dictionary: Obj
    const operation: Operation
    const key: string

    constructor Init(dictionary: Obj, operation: Operation, key: string)
      ensures this.dictionary == dictionary && this.operation == operation && this.key == key
    {
      this.dictionary := dictionary;
      this.operation := operation;
      this.key := key;
    }

    /** `new PatchExpandoObject(target, propertyName, operation)`. */
    static method Create(target: Obj?, propertyName: string, operation: Operation)
      returns (r: Result<PatchExpandoObject>)
      ensures target == null <==> r.Failure?
      ensures r.Failure? ==> r.exception == ArgumentNullException
      ensures r.Success? ==> r.value.dictionary == target && r.value.operation == operation
      ensures r.Success? ==> r.value.key == KeyFor(target.entries, propertyName)
    {
      if target == null {
        return Failure(ArgumentNullException);
      }
      var key := GetKeyUsingCaseInsensitiveSearch(target, propertyName);
      var handle := new PatchExpandoObject.Init(target, operation, key);
      return Success(handle);
    }

    /** The exception `VerifyKeyExists` throws. */
    function TargetNotFound(): Exception {
      JsonPatchException(PatchError(Ref(dictionary), operation,
        TargetLocationNotFound(operation.op, operation.path)))
    }

    method Add(rt: Runtime, value: Value)
      modifies dictionary
      ensures dictionary.entries == AddAtKey(rt, old(dictionary.entries), key, value)
      ensures unchanged(dictionary`items) && unchanged(dictionary`fieldValues)
    {
      var v := value;
      var currentValue := Lookup(dictionary.entries, key, false);
      if currentValue.Some? {
        if currentValue.value != Null {
          var currentValueType := TypeOf(currentValue.value);
          var conversionResult := ConvertTo(rt, v, currentValueType);
          if conversionResult.canBeConverted {
            v := conversionResult.convertedInstance;
          }
        }
      }
      dictionary.entries := Put(dictionary.entries, key, v, false);
    }

    method Get() returns (r: Result<Value>)
      ensures r == GetAtKey(dictionary.entries, key)
    {
      var found := Lookup(dictionary.entries, key, false);
      if found.Some? {
        return Success(found.value);
      }
      return Failure(KeyNotFoundException);
    }

    method Remove() returns (outcome: Outcome)
      modifies dictionary
      ensures RemoveAtKey(old(dictionary.entries), key).Some? ==>
                outcome == Pass && dictionary.entries == RemoveAtKey(old(dictionary.entries), key).value
      ensures RemoveAtKey(old(dictionary.entries), key).None? ==>
                outcome == Fail(TargetNotFound()) && dictionary.entries == old(dictionary.entries)
      ensures unchanged(dictionary`items) && unchanged(dictionary`fieldValues)
    {
      if !HasKey(dictionary.entries, key, false) {
        return Fail(TargetNotFound());
      }
      dictionary.entries := Delete(dictionary.entries, key, false);
      return Pass;
    }

    method Replace(rt: Runtime, value: Value) returns (outcome: Outcome)
      modifies dictionary
      ensures ReplaceAtKey(rt, old(dictionary.entries), key, value).Some? ==>
                outcome == Pass && dictionary.entries == ReplaceAtKey(rt, old(dictionary.entries), key, value).value
      ensures ReplaceAtKey(rt, old(dictionary.entries), key, value).None? ==>
                outcome == Fail(TargetNotFound()) && dictionary.entries == old(dictionary.entries)
      ensures unchanged(dictionary`items) && unchanged(dictionary`fieldValues)
    {
      if !HasKey(dictionary.entries, key, false) {
        return Fail(TargetNotFound());
      }
      Add(rt, value);
      return Pass;
    }
  }

  // ======== PatchPocoObject ========

  /** Why `new PatchPocoObject(target, property, operation)` throws: a missing target. */
  function PocoObjectRejection(target: Obj?): Option<Exception> {
    if target == null then Some(ArgumentNullException) else None
  }

  /** A patch object for one property of a plain object, the property being the
      `propertyIndex`-th of the object's contract. */
  class PatchPocoObject {
    const target: Obj
    const propertyIndex: nat
    const operation: Operation

    predicate Valid() {
      target.contract.ObjectContract? && propertyIndex < |target.contract.properties|
    }

    /** The descriptor of the property. */
    function Property(): Property
      requires Valid()
    {
      target.contract.properties[propertyIndex]
    }

    constructor Init(target: Obj, propertyIndex: nat, operation: Operation)
      ensures this.target == target && this.propertyIndex == propertyIndex && this.operation == operation
    {
      this.target := target;
      this.propertyIndex := propertyIndex;
      this.operation := operation;
    }

    /** `new PatchPocoObject(target, property, operation)`. */
    static method Create(target: Obj?, propertyIndex: nat, operation: Operation)
      returns (r: Result<PatchPocoObject>)
      ensures r.Failure? <==> PocoObjectRejection(target).Some?
      ensures r.Failure? ==> r.exception == ArgumentNullException
      ensures r.Success? ==> r.value.target == target && r.value.propertyIndex == propertyIndex
      ensures r.Success? ==> r.value.operation == operation
    {
      if target == null {
        return Failure(ArgumentNullException);
      }
      var handle := new PatchPocoObject.Init(target, propertyIndex, operation);
      return Success(handle);
    }

    /** The exception `EnsureWritableProperty` throws. */
    function NotWritable(): Exception {
      JsonPatchException(PatchError(Ref(target), operation, CannotUpdateProperty(operation.path)))
    }

    /** The property values after `Add(value)` or `Replace(value)`: the property must be
        writable (checked first) and the value must convert to its type. */
    function SetResult(rt: Runtime, fieldValues: seq<Value>, value: Value): Result<seq<Value>>
      requires Valid() && |fieldValues| == |target.contract.properties|
    {
      if !Property().writable then Failure(NotWritable())
      else
        var conversionResult := ConvertTo(rt, value, Property().propertyType);
        if !conversionResult.canBeConverted then
          Failure(JsonPatchException(PatchError(Ref(target), operation,
            InvalidValueForProperty(value, operation.path))))
        else Success(fieldValues[propertyIndex := conversionResult.convertedInstance])
    }

    /** The property values after `Remove()`: the property is reset to the default of
        its type. */
    function RemoveResult(rt: Runtime, fieldValues: seq<Value>): Result<seq<Value>>
      requires Valid() && |fieldValues| == |target.contract.properties|
    {
      if !Property().writable then Failure(NotWritable())
      else Success(fieldValues[propertyIndex := DefaultValue(rt, Property().propertyType)])
    }

    /** What `Get()` returns. */
    function GetResult(fieldValues: seq<Value>): Result<Value>
      requires Valid() && |fieldValues| == |target.contract.properties|
    {
      if !Property().readable then
        Failure(JsonPatchException(PatchError(Ref(target), operation, CannotReadProperty(operation.path))))
      else Success(fieldValues[propertyIndex])
    }

    method Add(rt: Runtime, value: Value) returns (outcome: Outcome)
      requires Valid() && target.Valid()
      modifies target
      ensures SetResult(rt, old(target.fieldValues), value).Success? ==>
                outcome == Pass && target.fieldValues == SetResult(rt, old(target.fieldValues), value).value
      ensures SetResult(rt, old(target.fieldValues), value).Failure? ==>
                outcome == Fail(SetResult(rt, old(target.fieldValues), value).exception)
                && target.fieldValues == old(target.fieldValues)
      ensures unchanged(target`entries) && unchanged(target`items)
    {
      if !Property().writable {
        return Fail(NotWritable());
      }
      var conversionResult := ConvertTo(rt, value, Property().propertyType);
      if !conversionResult.canBeConverted {
        return Fail(JsonPatchException(PatchError(Ref(target), operation,
          InvalidValueForProperty(value, operation.path))));
      }
      target.fieldValues := target.fieldValues[propertyIndex := conversionResult.convertedInstance];
      return Pass;
    }

    method Replace(rt: Runtime, value: Value) returns (outcome: Outcome)
      requires Valid() && target.Valid()
      modifies target
      ensures SetResult(rt, old(target.fieldValues), value).Success? ==>
                outcome == Pass && target.fieldValues == SetResult(rt, old(target.fieldValues), value).value
      ensures SetResult(rt, old(target.fieldValues), value).Failure? ==>
                outcome == Fail(SetResult(rt, old(target.fieldValues), value).exception)
                && target.fieldValues == old(target.fieldValues)
      ensures unchanged(target`entries) && unchanged(target`items)
    {
      outcome := Add(rt, value);
    }

    method Remove(rt: Runtime) returns (outcome: Outcome)
      requires Valid() && target.Valid()
      modifies target
      ensures RemoveResult(rt, old(target.fieldValues)).Success? ==>
                outcome == Pass && target.fieldValues == RemoveResult(rt, old(target.fieldValues)).value
      ensures RemoveResult(rt, old(target.fieldValues)).Failure? ==>
                outcome == Fail(NotWritable()) && target.fieldValues == old(target.fieldValues)
      ensures unchanged(target`entries) && unchanged(target`items)
    {
      if !Property().writable {
        return Fail(NotWritable());
      }
      var value := Null;
      if Property().propertyType.isValueType && !Property().propertyType.isNullableOfT {
        value := rt.createInstance(Property().propertyType);
      }
      target.fieldValues := target.fieldValues[propertyIndex := value];
      return Pass;
    }

    method Get() returns (r: Result<Value>)
      requires Valid() && target.Valid()
      ensures r == GetResult(target.fieldValues)
    {
      if !Property().readable {
        return Failure(JsonPatchException(PatchError(Ref(target), operation, CannotReadProperty(operation.path))));
      }
      return Success(target.fieldValues[propertyIndex]);
    }

    // ---- properties ----

    /** A readable property reads back what `Add` stored and, after `Remove`, the default
        of its type; the other properties are untouched. */
    lemma WriteThenGet(rt: Runtime, fieldValues: seq<Value>, value: Value)
      requires Valid() && |fieldValues| == |target.contract.properties| && Property().readable
      ensures SetResult(rt, fieldValues, value).Success? ==>
                GetResult(SetResult(rt, fieldValues, value).value) ==
                  Success(ConvertTo(rt, value, Property().propertyType).convertedInstance)
      ensures RemoveResult(rt, fieldValues).Success? ==>
                GetResult(RemoveResult(rt, fieldValues).value) == Success(DefaultValue(rt, Property().propertyType))
      ensures SetResult(rt, fieldValues, value).Success? ==>
                forall j :: 0 <= j < |fieldValues| && j != propertyIndex ==>
                  SetResult(rt, fieldValues, value).value[j] == fieldValues[j]
    {
    }

    /** The writability check comes before the conversion: a read-only property reports
        that it cannot be updated even for a value that does not convert. */
    lemma WritabilityCheckedFirst(rt: Runtime, fieldValues: seq<Value>, value: Value)
      requires Valid() && |fieldValues| == |target.contract.properties| && !Property().writable
      ensures SetResult(rt, fieldValues, value) == Failure(NotWritable())
      ensures RemoveResult(rt, fieldValues) == Failure(NotWritable())
    {
    }
  }
}
