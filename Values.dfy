/**
 * The runtime world the patch engine works on: runtime types, values, the objects of
 * the graph being patched, case-insensitive string comparison, the exceptions the
 * engine raises and the foreign services (type tests, JSON re-encoding, default
 * construction) it calls into.
 */
module Values {

  datatype Option<T> = None | Some(value: T)

  /** A runtime type, reduced to what the engine asks of it. `isNullableOfT` is true for
      the closed `Nullable<>` types, which are value types whose default is null. */
  datatype TypeTag = TypeTag(name: string, isValueType: bool, isNullableOfT: bool)

  /** A value type that is not a `Nullable<>`: null does not fit into it and its
      default is a constructed zero value. */
  predicate IsNonNullableValueType(t: TypeTag) {
    t.isValueType && !t.isNullableOfT
  }

  const ObjectType: TypeTag := TypeTag("System.Object", false, false)

  /** A property descriptor handed out by the contract resolver for a type. */
  datatype Property = Property(name: string, readable: bool, writable: bool, propertyType: TypeTag)

  /** What the contract resolver makes of a type: an object contract listing the
      properties, or any other kind of contract (primitive, dynamic, array, ...). */
  datatype Contract = ObjectContract(properties: seq<Property>) | OtherContract

  /** A runtime value: null, a scalar (number, string, ...) of some type, or a reference
      to an object of the graph. */
  datatype Value = Null | Scalar(scalarType: TypeTag, text: string) | Ref(obj: Obj)

  /** The members of a dictionary in enumeration order. */
  type Entries = seq<(string, Value)>

  /** An object of the graph being patched. The flags say which container interfaces its
      runtime type implements; an object can implement several. The mutable facets hold
      the state that the interfaces expose: the members of a dictionary or expando, the
      elements of a list, the values of the properties of a plain object. */
  class Obj {
    const runtimeType: TypeTag
    const isExpando: bool
    const isDictionary: bool
    /** Whether the type implements the generic `IDictionary<,>`. */
    const isGenericDictionary: bool
    const isList: bool
    const isArray: bool
    /** The `T` of the `IList<T>` the type implements, if any. */
    const listTypeArgument: Option<TypeTag>
    /** Whether the dictionary's key comparer ignores case. */
    const ignoreCase: bool
    /** The `TValue` of the dictionary. */
    const valueType: TypeTag
    const contract: Contract
    var entries: Entries
    var items: seq<Value>
    var fieldValues: seq<Value>

    /** The state every well-formed object is in: an expando is a sealed type with an
        ordinal member dictionary from strings to objects and no other container
        interface, an array is a list,
        no two keys of a dictionary are equal under its comparer, and an object
        contract has one value per property. */
    ghost predicate Valid()
      reads this
    {
      && (isExpando ==> !ignoreCase && isGenericDictionary && valueType == ObjectType && !isDictionary && !isList && contract == OtherContract)
      && (isArray ==> isList)
      && Distinct(entries, ignoreCase)
      && (contract.ObjectContract? ==> |fieldValues| == |contract.properties|)
    }
  }

  /** A set of objects that holds every object its members, elements and property
      values refer to: the part of the heap a walk along a path can reach. */
  ghost predicate Closed(graph: set<Obj>)
    reads graph
  {
    forall o | o in graph ::
      && (forall i | 0 <= i < |o.entries| :: Holds(graph, o.entries[i].1))
      && (forall i | 0 <= i < |o.items| :: Holds(graph, o.items[i]))
      && (forall i | 0 <= i < |o.fieldValues| :: Holds(graph, o.fieldValues[i]))
  }

  /** The value is null, a scalar, or a reference into the graph. */
  ghost predicate Holds(graph: set<Obj>, v: Value) {
    v.Ref? ==> v.obj in graph
  }

  /** `value.GetType()`. */
  function TypeOf(v: Value): TypeTag
    requires v != Null
  {
    match v
    case Scalar(t, _) => t
    case Ref(o) => o.runtimeType
  }

  /** What the contract resolver returns for the runtime type of a value. */
  function ContractOf(v: Value): Contract
    requires v != Null
  {
    match v
    case Scalar(_, _) => OtherContract
    case Ref(o) => o.contract
  }

  /** The services of the .NET runtime and of Newtonsoft.Json that the engine calls but
      that are not part of this model. A re-encoding that throws is `None`. */
  datatype Runtime = Runtime(
    /** `to.IsAssignableFrom(from)` */
    assignable: (TypeTag, TypeTag) -> bool,
    /** `JToken.FromObject(v).ToObject(t)` (and `JArray`/`JObject.ToObject(t)`) */
    tokenConvert: (Value, TypeTag) -> Option<Value>,
    /** `JsonConvert.DeserializeObject(JsonConvert.SerializeObject(v), t)` */
    jsonRoundTrip: (Value, TypeTag) -> Option<Value>,
    /** `Activator.CreateInstance(t)` for a value type */
    createInstance: TypeTag -> Value)

  /** `default(T)`, which is also what setting a property to "nothing" stores: the
      constructed zero value for a non-nullable value type, null otherwise. */
  function DefaultValue(rt: Runtime, t: TypeTag): Value {
    if IsNonNullableValueType(t) then rt.createInstance(t) else Null
  }

  /** `value is T`: non-null and of a type assignable to `T`. */
  predicate IsInstanceOf(rt: Runtime, v: Value, t: TypeTag) {
    v != Null && rt.assignable(t, TypeOf(v))
  }

  /** A value that can be stored where a `t` is expected: null where null is allowed,
      otherwise a value of a type assignable to `t`. */
  predicate FitsType(rt: Runtime, v: Value, t: TypeTag) {
    if v == Null then !IsNonNullableValueType(t) else rt.assignable(t, TypeOf(v))
  }

  // ---- case-insensitive comparison (StringComparison.OrdinalIgnoreCase) ----

  function ToLowerAscii(c: char): char {
    if 'A' <= c <= 'Z' then (c as int + 32) as char else c
  }

  /** `string.Equals(a, b, StringComparison.OrdinalIgnoreCase)`, with case folding
      restricted to ASCII letters. */
  predicate EqualsIgnoreCase(a: string, b: string) {
    |a| == |b| && forall i :: 0 <= i < |a| ==> ToLowerAscii(a[i]) == ToLowerAscii(b[i])
  }

  /** Key equality under a dictionary's comparer. */
  predicate KeyEq(ignoreCase: bool, a: string, b: string) {
    if ignoreCase then EqualsIgnoreCase(a, b) else a == b
  }

  /** No two keys equal under the comparer. */
  predicate Distinct(entries: Entries, ignoreCase: bool) {
    forall i, j :: 0 <= i < j < |entries| ==> !KeyEq(ignoreCase, entries[i].0, entries[j].0)
  }

  // ---- operations, errors and exceptions ----

  /** The operation being applied: its name (`add`, `remove`, ...) and its path. */
  datatype Operation = Operation(op: string, path: string)

  /** The error messages of the engine, with the arguments they are formatted with. */
  datatype Message =
    | PatchNotSupportedForArrays(typeName: string)
    | PatchNotSupportedForNonGenericLists(typeName: string)
    | InvalidPathForArrayProperty(op: string, path: string)
    | InvalidIndexForArrayProperty(op: string, path: string)
    | InvalidValueForProperty(value: Value, path: string)
    | TargetLocationNotFound(op: string, path: string)
    | CannotPerformOperation(op: string, path: string)
    | CannotReadProperty(path: string)
    | CannotUpdateProperty(path: string)
    | Text(text: string)

  /** A `JsonPatchError`: the object affected, the operation and the message. */
  datatype PatchError = PatchError(affectedObject: Value, operation: Operation, message: Message)

  /** The exceptions the engine raises or lets escape from the collections it drives. */
  datatype Exception =
    | JsonPatchException(error: PatchError)
    | InvalidOperationException(text: string)
    | ArgumentException
    | ArgumentNullException
    | ArgumentOutOfRangeException
    | IndexOutOfRangeException
    | KeyNotFoundException
    | NullReferenceException
    | NotSupportedException
    | FormatException
    | OverflowException

  /** The end of a call that returns nothing: normal completion or an exception. */
  datatype Outcome = Pass | Fail(exception: Exception)

  /** The end of a call that returns a value. */
  datatype Result<T> = Success(value: T) | Failure(exception: Exception)

  /** An error sink (`Action<JsonPatchError>`) that records what it is given. */
  class ErrorLogger {
    var errors: seq<PatchError>
  }
}
