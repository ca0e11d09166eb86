/**
 * The properties of a plain object, as its object contract describes them, and the
 * case-insensitive lookup of a property by the name a path segment gives.
 */
module Properties {
  import opened Values

  /** `Properties.FirstOrDefault(p => string.Equals(p.PropertyName, name,
      StringComparison.OrdinalIgnoreCase))`, as the position of the property. */
  function FindProperty(properties: seq<Property>, name: string): (r: Option<nat>)
    ensures r.Some? ==> r.value < |properties| && EqualsIgnoreCase(properties[r.value].name, name)
    ensures r.Some? ==> forall j :: 0 <= j < r.value ==> !EqualsIgnoreCase(properties[j].name, name)
    ensures r.None? <==> forall j :: 0 <= j < |properties| ==> !EqualsIgnoreCase(properties[j].name, name)
  {
    if |properties| == 0 then None
    else if EqualsIgnoreCase(properties[0].name, name) then Some(0)
    else match FindProperty(properties[1..], name)
      case None => None
      case Some(i) => Some(i + 1)
  }

  /** The property of the target that a segment names: the target must have an object
      contract, and the first property whose name equals the segment ignoring case is
      taken. */
  function ResolveProperty(target: Value, name: string): (r: Option<nat>)
    requires target != Null
    ensures r.Some? <==>
      ContractOf(target).ObjectContract? && FindProperty(ContractOf(target).properties, name).Some?
    ensures r.Some? ==> r == FindProperty(ContractOf(target).properties, name)
  {
    match ContractOf(target)
    case ObjectContract(properties) => FindProperty(properties, name)
    case OtherContract => None
  }

  /** The value a plain object holds for its `i`-th property (`ValueProvider.GetValue`).
      A well-formed object holds one value per property; for any other the value is
      taken to be null. */
  function PropertyValue(o: Obj, i: nat): (v: Value)
    reads o
    ensures i < |o.fieldValues| ==> v == o.fieldValues[i]
  {
    if i < |o.fieldValues| then o.fieldValues[i] else Null
  }

  /** Names that differ only in ASCII case find the same property. */
  lemma {:induction false} FindPropertyIgnoresCase(properties: seq<Property>, a: string, b: string)
    requires EqualsIgnoreCase(a, b)
    ensures FindProperty(properties, a) == FindProperty(properties, b)
  {
    if |properties| > 0 {
      var n := properties[0].name;
      if EqualsIgnoreCase(n, a) {
        assert EqualsIgnoreCase(n, b);
      } else {
        FindPropertyIgnoresCase(properties[1..], a, b);
      }
    }
  }
}
