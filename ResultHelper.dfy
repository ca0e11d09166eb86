/**
 * Helpers shared by the error-sink patch operations: recognising a generic dictionary,
 * converting a value by a JSON round trip, and fetching an element of an enumerable by
 * position.
 */
module ResultHelper {
  import opened Values
  import opened ConversionResultProvider

  /** `IsDictionary`: whether the runtime type of the target implements the generic
      `IDictionary<,>` interface (the source returns that interface type, or null). */
  predicate IsDictionary(target: Value)
    requires target != Null
  {
    target.Ref? && target.obj.isGenericDictionary
  }

  /** `ConvertObjectToType`: serialise the value to JSON and deserialise it as
      `typeToConvertTo`; any exception becomes a failed conversion. */
  function ConvertObjectToType(rt: Runtime, value: Value, typeToConvertTo: TypeTag): (r: ConversionResult)
    ensures r.canBeConverted <==> rt.jsonRoundTrip(value, typeToConvertTo).Some?
    ensures r.canBeConverted ==> r.convertedInstance == rt.jsonRoundTrip(value, typeToConvertTo).value
    ensures !r.canBeConverted ==> r.convertedInstance == Null
  {
    match rt.jsonRoundTrip(value, typeToConvertTo)
    case Some(o) => ConversionResult(true, o)
    case None => ConversionResult(false, Null)
  }

  /** The elements an object yields when enumerated, for the enumerables of this model:
      the elements of a list. */
  function Enumeration(target: Value): Option<seq<Value>>
    reads if target.Ref? then {target.obj} else {}
  {
    if target.Ref? && target.obj.isList then Some(target.obj.items) else None
  }

  /** `GetElementAtFromObject` as written: the guard admits a position equal to the
      number of elements, where `ElementAt` throws. */
  function GetElementAtFromObject(target: Value, numericValue: int): (r: Result<Value>)
    reads if target.Ref? then {target.obj} else {}
  {
    if numericValue > -1 then
      match Enumeration(target)
      case Some(indexable) =>
        if |indexable| >= numericValue then
          if numericValue < |indexable| then Success(indexable[numericValue])
          else Failure(ArgumentOutOfRangeException)
        else Success(Null)
      case None => Success(Null)
    else Success(Null)
  }

  /** The element at a position of an enumerable, or null for a position it does not
      have (or a target that is not enumerable): what the guard above evidently means. */
  function ElementAtOrNull(target: Value, index: int): (r: Value)
    reads if target.Ref? then {target.obj} else {}
    ensures (Enumeration(target).Some? && 0 <= index < |Enumeration(target).value|) ==>
              r == Enumeration(target).value[index]
    ensures !(Enumeration(target).Some? && 0 <= index < |Enumeration(target).value|) ==> r == Null
  {
    match Enumeration(target)
    case Some(items) => if 0 <= index < |items| then items[index] else Null
    case None => Null
  }

  // ---- properties ----

  /** The guard as written throws for the position just past the last element: a list
      of two elements asked for its element at 2. */
  lemma GetElementAtFromObjectThrowsAtCount(target: Value)
    requires Enumeration(target).Some?
    ensures GetElementAtFromObject(target, |Enumeration(target).value|) == Failure(ArgumentOutOfRangeException)
  {
  }

  /** Everywhere else the helper as written agrees with the corrected one. */
  lemma {:induction false} GetElementAtFromObjectElsewhereCorrect(target: Value, n: int)
    requires Enumeration(target).None? || n != |Enumeration(target).value|
    ensures GetElementAtFromObject(target, n) == Success(ElementAtOrNull(target, n))
  {
  }
}
