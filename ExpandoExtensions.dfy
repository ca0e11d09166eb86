/**
 * The case-insensitive helpers over an `IDictionary<string, object>` (the member
 * dictionary of an expando object). Each walks the members in enumeration order and
 * acts on the first one whose key equals the requested key ignoring case.
 */
module ExpandoExtensions {
  import opened Values
  import opened Collections
  import opened ConversionResultProvider

  // ---- what the helpers compute, on the members ----

  /** The value of the first member whose key equals `key` ignoring case; an
      `ArgumentException` (key not found) when there is none. */
  function ValueIgnoringCase(entries: Entries, key: string): Result<Value> {
    match IndexOf(entries, key, true)
    case None => Failure(ArgumentException)
    case Some(i) => Success(entries[i].1)
  }

  /** The members after storing `value` in the first member whose key equals `key`
      ignoring case; unchanged when there is none (nothing is added). */
  function SetIgnoringCase(entries: Entries, key: string, value: Value): Entries {
    match IndexOf(entries, key, true)
    case None => entries
    case Some(i) => entries[i := (entries[i].0, value)]
  }

  /** The value an expando stores when `newValue` is written under `key`: when the key
      already holds a non-null value, `newValue` converted to that value's runtime type
      if it converts, otherwise `newValue` unchanged. */
  function ConvertToExistingType(rt: Runtime, entries: Entries, key: string, newValue: Value): (v: Value)
    ensures Lookup(entries, key, false).None? || Lookup(entries, key, false) == Some(Null) ==> v == newValue
    ensures var e := Lookup(entries, key, false);
      e.Some? && e.value != Null ==>
        v == (if ConvertTo(rt, newValue, TypeOf(e.value)).canBeConverted
              then ConvertTo(rt, newValue, TypeOf(e.value)).convertedInstance else newValue)
    ensures var e := Lookup(entries, key, false);
      e.Some? && e.value != Null && IsInstanceOf(rt, newValue, TypeOf(e.value)) ==> v == newValue
  {
    match Lookup(entries, key, false)
    case Some(existingValue) =>
      if existingValue != Null then
        var conversion := ConvertTo(rt, newValue, TypeOf(existingValue));
        if conversion.canBeConverted then conversion.convertedInstance else newValue
      else newValue
    case None => newValue
  }

  // ---- a member handle: one key of an expando, resolved once ----

  /** The members after `dictionary[key] = value` through an expando handle: the key
      holds the value converted to the type of the value it held (see
      `ConvertToExistingType`); an absent key is added. */
  function AddAtKey(rt: Runtime, entries: Entries, key: string, value: Value): Entries {
    Put(entries, key, ConvertToExistingType(rt, entries, key, value), false)
  }

  /** The members after removing the key, or `None` when the key is absent. */
  function RemoveAtKey(entries: Entries, key: string): Option<Entries> {
    if !HasKey(entries, key, false) then None else Some(Delete(entries, key, false))
  }

  /** The members after replacing the value of the key, or `None` when it is absent. */
  function ReplaceAtKey(rt: Runtime, entries: Entries, key: string, value: Value): Option<Entries> {
    if !HasKey(entries, key, false) then None else Some(AddAtKey(rt, entries, key, value))
  }

  /** `dictionary[key]`: the generic indexer throws for an absent key. */
  function GetAtKey(entries: Entries, key: string): Result<Value> {
    match Lookup(entries, key, false)
    case Some(v) => Success(v)
    case None => Failure(KeyNotFoundException)
  }

  // ---- the helpers ----

  /** `SetValueForCaseInsensitiveKey`: finds the first member whose key equals `key`
      ignoring case and assigns `value` through the dictionary's indexer under the
      stored key. */
  method SetValueForCaseInsensitiveKey(d: Obj, key: string, value: Value)
    modifies d
    ensures d.entries == SetIgnoringCase(old(d.entries), key, value)
    ensures unchanged(d`items) && unchanged(d`fieldValues)
  {
    var i := 0;
    while i < |d.entries|
      invariant 0 <= i <= |d.entries|
      invariant d.entries == old(d.entries)
      invariant forall j :: 0 <= j < i ==> !EqualsIgnoreCase(d.entries[j].0, key)
    {
      var storedKey := d.entries[i].0;
      if EqualsIgnoreCase(storedKey, key) {
        IndexOfIs(d.entries, key, true, i);
        KeyForPresence(d.entries, key, d.ignoreCase);
        if d.ignoreCase {
          KeyForInIgnoreCaseDictionary(d.entries, key);
        } else {
          KeyForFindsSameMember(d.entries, key);
        }
        d.entries := Put(d.entries, storedKey, value, d.ignoreCase);
        return;
      }
      i := i + 1;
    }
  }

  /** `RemoveValueForCaseInsensitiveKey`: finds the stored key of the first member
      whose key equals `key` ignoring case and removes it from the dictionary. */
  method RemoveValueForCaseInsensitiveKey(d: Obj, key: string)
    modifies d
    ensures d.entries == Delete(old(d.entries), key, true)
    ensures unchanged(d`items) && unchanged(d`fieldValues)
  {
    var realKey: Option<string> := None;
    var i := 0;
    while i < |d.entries|
      invariant 0 <= i <= |d.entries|
      invariant forall j :: 0 <= j < i ==> !EqualsIgnoreCase(d.entries[j].0, key)
      invariant realKey.None?
    {
      if EqualsIgnoreCase(d.entries[i].0, key) {
        IndexOfIs(d.entries, key, true, i);
        realKey := Some(d.entries[i].0);
        break;
      }
      i := i + 1;
    }
    if realKey.Some? {
      if d.ignoreCase {
        KeyForInIgnoreCaseDictionary(d.entries, key);
      } else {
        KeyForFindsSameMember(d.entries, key);
      }
      d.entries := Delete(d.entries, realKey.value, d.ignoreCase);
    }
  }

  /** `GetValueForCaseInsensitiveKey`. */
  method GetValueForCaseInsensitiveKey(d: Obj, key: string) returns (r: Result<Value>)
    ensures r == ValueIgnoringCase(d.entries, key)
  {
    var i := 0;
    while i < |d.entries|
      invariant 0 <= i <= |d.entries|
      invariant forall j :: 0 <= j < i ==> !EqualsIgnoreCase(d.entries[j].0, key)
    {
      if EqualsIgnoreCase(d.entries[i].0, key) {
        IndexOfIs(d.entries, key, true, i);
        return Success(d.entries[i].1);
      }
      i := i + 1;
    }
    return Failure(ArgumentException);
  }

  /** `ContainsCaseInsensitiveKey`. */
  method ContainsCaseInsensitiveKey(d: Obj, key: string) returns (found: bool)
    ensures found <==> exists j :: 0 <= j < |d.entries| && EqualsIgnoreCase(d.entries[j].0, key)
    ensures found == HasKey(d.entries, key, true)
  {
    var i := 0;
    while i < |d.entries|
      invariant 0 <= i <= |d.entries|
      invariant forall j :: 0 <= j < i ==> !EqualsIgnoreCase(d.entries[j].0, key)
    {
      if EqualsIgnoreCase(d.entries[i].0, key) {
        return true;
      }
      i := i + 1;
    }
    return false;
  }

  /** `GetKeyUsingCaseInsensitiveSearch`. */
  method GetKeyUsingCaseInsensitiveSearch(d: Obj, key: string) returns (k: string)
    ensures k == KeyFor(d.entries, key)
  {
    var i := 0;
    while i < |d.entries|
      invariant 0 <= i <= |d.entries|
      invariant forall j :: 0 <= j < i ==> !EqualsIgnoreCase(key, d.entries[j].0)
    {
      var keyInDictionary := d.entries[i].0;
      if EqualsIgnoreCase(key, keyInDictionary) {
        EqualsIgnoreCaseSymmetric(key, keyInDictionary);
        IndexOfIs(d.entries, key, true, i);
        return keyInDictionary;
      }
      i := i + 1;
    }
    forall j | 0 <= j < |d.entries|
      ensures !KeyEq(true, d.entries[j].0, key)
    {
      if EqualsIgnoreCase(d.entries[j].0, key) {
        EqualsIgnoreCaseSymmetric(d.entries[j].0, key);
      }
    }
    return key;
  }

  // ---- properties ----

  /** Reading succeeds exactly when some key equals `key` ignoring case, and then reads
      the value of such a member. */
  lemma ValueIgnoringCaseSucceedsIffPresent(entries: Entries, key: string)
    ensures ValueIgnoringCase(entries, key).Success? <==> HasKey(entries, key, true)
    ensures ValueIgnoringCase(entries, key).Success? ==>
              exists j :: 0 <= j < |entries| && EqualsIgnoreCase(entries[j].0, key)
                          && entries[j].1 == ValueIgnoringCase(entries, key).value
    ensures ValueIgnoringCase(entries, key).Failure? ==>
              ValueIgnoringCase(entries, key).exception == ArgumentException
  {
  }

  /** Setting never adds or renames a member; when some key equals `key` ignoring case,
      reading back with the same key gives the value just set, and every other member
      keeps its value. */
  lemma {:induction false} SetIgnoringCaseSemantics(entries: Entries, key: string, value: Value)
    ensures Keys(SetIgnoringCase(entries, key, value)) == Keys(entries)
    ensures HasKey(entries, key, true) ==>
              ValueIgnoringCase(SetIgnoringCase(entries, key, value), key) == Success(value)
    ensures !HasKey(entries, key, true) ==> SetIgnoringCase(entries, key, value) == entries
    ensures forall j :: 0 <= j < |entries| && Some(j) != IndexOf(entries, key, true) ==>
              SetIgnoringCase(entries, key, value)[j] == entries[j]
  {
    var e' := SetIgnoringCase(entries, key, value);
    assert |e'| == |entries| && forall m :: 0 <= m < |e'| ==> e'[m].0 == entries[m].0;
    SameKeysIndexOf(entries, e', key, true);
  }

  /** An ordinal dictionary may hold keys that differ only in case; removing ignoring
      case then removes only the first of them, and the key stays reachable. */
  lemma RemoveIgnoringCaseKeepsLaterCaseVariant(v1: Value, v2: Value)
    ensures Delete([("name", v1), ("Name", v2)], "NAME", true) == [("Name", v2)]
    ensures HasKey(Delete([("name", v1), ("Name", v2)], "NAME", true), "NAME", true)
  {
    var e: Entries := [("name", v1), ("Name", v2)];
    assert EqualsIgnoreCase("name", "NAME");
    assert EqualsIgnoreCase("Name", "NAME");
    IndexOfIs(e, "NAME", true, 0);
    IndexOfIs([("Name", v2)], "NAME", true, 0);
  }

  /** After an add the key reads back the stored value and every other key is
      unchanged; after a removal the key is gone and every other key is unchanged;
      replacing needs the key and then adds. */
  lemma {:induction false} MemberHandleSemantics(rt: Runtime, entries: Entries, key: string, value: Value)
    requires Distinct(entries, false)
    ensures GetAtKey(AddAtKey(rt, entries, key, value), key) == Success(ConvertToExistingType(rt, entries, key, value))
    ensures forall k :: k != key ==> Lookup(AddAtKey(rt, entries, key, value), k, false) == Lookup(entries, k, false)
    ensures RemoveAtKey(entries, key).Some? <==> HasKey(entries, key, false)
    ensures RemoveAtKey(entries, key).Some? ==> GetAtKey(RemoveAtKey(entries, key).value, key) == Failure(KeyNotFoundException)
    ensures RemoveAtKey(entries, key).Some? ==>
              forall k :: k != key ==> Lookup(RemoveAtKey(entries, key).value, k, false) == Lookup(entries, k, false)
    ensures ReplaceAtKey(rt, entries, key, value) ==
              if HasKey(entries, key, false) then Some(AddAtKey(rt, entries, key, value)) else None
  {
    PutSemantics(entries, key, ConvertToExistingType(rt, entries, key, value), false);
    DeleteSemantics(entries, key, false);
  }

  /** Adding under the key resolved from a name adds a member only when no key equals
      the name ignoring case; otherwise it overwrites the member found, keeping every
      stored key. */
  lemma {:induction false} AddAtResolvedKey(rt: Runtime, entries: Entries, name: string, value: Value)
    ensures HasKey(entries, name, true) ==> Keys(AddAtKey(rt, entries, KeyFor(entries, name), value)) == Keys(entries)
    ensures !HasKey(entries, name, true) ==>
              AddAtKey(rt, entries, KeyFor(entries, name), value) == entries + [(name, value)]
  {
    var key := KeyFor(entries, name);
    KeyForPresence(entries, name, false);
    var e' := AddAtKey(rt, entries, key, value);
    if HasKey(entries, name, true) {
      var i := IndexOf(entries, key, false).value;
      assert e' == entries[i := (entries[i].0, ConvertToExistingType(rt, entries, key, value))];
      assert forall m :: 0 <= m < |e'| ==> Keys(e')[m] == Keys(entries)[m];
    }
  }
}
