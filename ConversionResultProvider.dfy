/**
 * Converting a patch value to the type of its destination, the way the patch objects
 * and adapters do before storing it: null is kept unless the destination is a
 * non-nullable value type, a value already of the destination type is kept as is, and
 * anything else is re-encoded through JSON tokens, which may fail.
 */
module ConversionResultProvider {
  import opened Values

  /** `ConversionResult`: whether the value could be converted, and the converted value
      (null when it could not). */
  datatype ConversionResult = ConversionResult(canBeConverted: bool, convertedInstance: Value)

  /** `ConversionResultProvider.ConvertTo`. */
  function ConvertTo(rt: Runtime, value: Value, typeToConvertTo: TypeTag): (r: ConversionResult)
    ensures !r.canBeConverted ==> r.convertedInstance == Null
    ensures value == Null ==> r.convertedInstance == Null
    ensures value == Null ==> (r.canBeConverted <==> !IsNonNullableValueType(typeToConvertTo))
    ensures IsInstanceOf(rt, value, typeToConvertTo) ==> r == ConversionResult(true, value)
    ensures value != Null && !rt.assignable(typeToConvertTo, TypeOf(value)) ==>
              (r.canBeConverted <==> rt.tokenConvert(value, typeToConvertTo).Some?)
  {
    if value == Null then
      if !typeToConvertTo.isNullableOfT && typeToConvertTo.isValueType then ConversionResult(false, Null)
      else ConversionResult(true, Null)
    else if rt.assignable(typeToConvertTo, TypeOf(value)) then ConversionResult(true, value)
    else match rt.tokenConvert(value, typeToConvertTo)
      case Some(converted) => ConversionResult(true, converted)
      case None => ConversionResult(false, Null)
  }

  /** When the token conversion of the value delivers what it is asked for, a
      successful conversion yields a value that fits the destination type. */
  lemma ConvertToFits(rt: Runtime, value: Value, t: TypeTag)
    requires rt.tokenConvert(value, t).Some? ==> FitsType(rt, rt.tokenConvert(value, t).value, t)
    requires ConvertTo(rt, value, t).canBeConverted
    ensures FitsType(rt, ConvertTo(rt, value, t).convertedInstance, t)
  {
  }

  /** Converting a converted value to the same type again changes nothing. */
  lemma ConvertToIsIdempotent(rt: Runtime, value: Value, t: TypeTag)
    requires rt.tokenConvert(value, t).Some? ==> FitsType(rt, rt.tokenConvert(value, t).value, t)
    requires ConvertTo(rt, value, t).canBeConverted
    ensures ConvertTo(rt, ConvertTo(rt, value, t).convertedInstance, t) == ConvertTo(rt, value, t)
  {
    ConvertToFits(rt, value, t);
  }
}
