/**
 * The collections the engine drives, as values: the members of a dictionary (an ordered
 * sequence of key/value pairs whose keys are distinct under the dictionary's comparer)
 * and the elements of a list. The handles of the engine mutate the facets of an `Obj`
 * by assigning the results of these functions.
 */
module Collections {
  import opened Values

  // ---- properties of the case-insensitive comparison ----

  lemma EqualsIgnoreCaseReflexive(a: string)
    ensures EqualsIgnoreCase(a, a)
  {
  }

  lemma EqualsIgnoreCaseSymmetric(a: string, b: string)
    requires EqualsIgnoreCase(a, b)
    ensures EqualsIgnoreCase(b, a)
  {
  }

  lemma EqualsIgnoreCaseTransitive(a: string, b: string, c: string)
    requires EqualsIgnoreCase(a, b) && EqualsIgnoreCase(b, c)
    ensures EqualsIgnoreCase(a, c)
  {
  }

  // ---- dictionary members ----

  /** The position of the first member whose key equals `key` under the comparer
      (the order a `foreach` over the dictionary visits its members). */
  function IndexOf(entries: Entries, key: string, ignoreCase: bool): (r: Option<nat>)
    ensures r.Some? ==> r.value < |entries| && KeyEq(ignoreCase, entries[r.value].0, key)
    ensures r.Some? ==> forall j :: 0 <= j < r.value ==> !KeyEq(ignoreCase, entries[j].0, key)
    ensures r.None? <==> forall j :: 0 <= j < |entries| ==> !KeyEq(ignoreCase, entries[j].0, key)
  {
    if |entries| == 0 then None
    else if KeyEq(ignoreCase, entries[0].0, key) then Some(0)
    else match IndexOf(entries[1..], key, ignoreCase)
      case None => None
      case Some(i) => Some(i + 1)
  }

  /** `ContainsKey(key)` under the comparer. */
  predicate HasKey(entries: Entries, key: string, ignoreCase: bool) {
    IndexOf(entries, key, ignoreCase).Some?
  }

  /** The value stored under `key`, if any. */
  function Lookup(entries: Entries, key: string, ignoreCase: bool): (r: Option<Value>)
    ensures r.Some? <==> HasKey(entries, key, ignoreCase)
    ensures r.Some? ==> exists i :: 0 <= i < |entries| && entries[i] == (entries[i].0, r.value)
                                    && KeyEq(ignoreCase, entries[i].0, key)
  {
    match IndexOf(entries, key, ignoreCase)
    case None => None
    case Some(i) => Some(entries[i].1)
  }

  /** `dictionary[key] = value`: overwrites the value of the member whose key equals
      `key` (the stored key is kept), or appends a new member. */
  function Put(entries: Entries, key: string, value: Value, ignoreCase: bool): Entries {
    match IndexOf(entries, key, ignoreCase)
    case None => entries + [(key, value)]
    case Some(i) => entries[i := (entries[i].0, value)]
  }

  /** `dictionary.Remove(key)`: drops the member whose key equals `key`, if any. */
  function Delete(entries: Entries, key: string, ignoreCase: bool): Entries {
    match IndexOf(entries, key, ignoreCase)
    case None => entries
    case Some(i) => entries[..i] + entries[i + 1..]
  }

  /** The keys of the members. */
  function Keys(entries: Entries): (ks: seq<string>)
    ensures |ks| == |entries|
    ensures forall i :: 0 <= i < |entries| ==> ks[i] == entries[i].0
  {
    if |entries| == 0 then [] else [entries[0].0] + Keys(entries[1..])
  }

  lemma KeyEqSymmetric(ignoreCase: bool, a: string, b: string)
    requires KeyEq(ignoreCase, a, b)
    ensures KeyEq(ignoreCase, b, a)
  {
    if ignoreCase {
      EqualsIgnoreCaseSymmetric(a, b);
    }
  }

  lemma KeyEqTransitive(ignoreCase: bool, a: string, b: string, c: string)
    requires KeyEq(ignoreCase, a, b) && KeyEq(ignoreCase, b, c)
    ensures KeyEq(ignoreCase, a, c)
  {
    if ignoreCase {
      EqualsIgnoreCaseTransitive(a, b, c);
    }
  }

  /** In a dictionary whose keys are distinct, the member found for `key` is the only
      member whose key equals `key`. */
  lemma {:induction false} IndexOfUnique(entries: Entries, key: string, ignoreCase: bool, j: int)
    requires Distinct(entries, ignoreCase)
    requires 0 <= j < |entries| && KeyEq(ignoreCase, entries[j].0, key)
    ensures IndexOf(entries, key, ignoreCase) == Some(j)
  {
    var r := IndexOf(entries, key, ignoreCase);
    var i := r.value;
    if i < j {
      KeyEqSymmetric(ignoreCase, entries[j].0, key);
      KeyEqTransitive(ignoreCase, entries[i].0, key, entries[j].0);
      assert false;
    }
  }

  /** After `dictionary[key] = value` the key maps to the value, every key that does
      not equal `key` maps to what it mapped to before, and the keys stay distinct. */
  lemma {:induction false} PutSemantics(entries: Entries, key: string, value: Value, ignoreCase: bool)
    requires Distinct(entries, ignoreCase)
    ensures Distinct(Put(entries, key, value, ignoreCase), ignoreCase)
    ensures Lookup(Put(entries, key, value, ignoreCase), key, ignoreCase) == Some(value)
    ensures forall k :: !KeyEq(ignoreCase, k, key) ==>
              Lookup(Put(entries, key, value, ignoreCase), k, ignoreCase) == Lookup(entries, k, ignoreCase)
  {
    var e' := Put(entries, key, value, ignoreCase);
    match IndexOf(entries, key, ignoreCase)
    case None =>
      IndexOfUnique(e', key, ignoreCase, |entries|);
      forall k | !KeyEq(ignoreCase, k, key)
        ensures Lookup(e', k, ignoreCase) == Lookup(entries, k, ignoreCase)
      {
        PrefixIndexOf(entries, (key, value), k, ignoreCase);
      }
    case Some(i) =>
      assert forall m :: 0 <= m < |e'| ==> e'[m].0 == entries[m].0;
      IndexOfUnique(e', key, ignoreCase, i);
      forall k | !KeyEq(ignoreCase, k, key)
        ensures Lookup(e', k, ignoreCase) == Lookup(entries, k, ignoreCase)
      {
        SameKeysIndexOf(entries, e', k, ignoreCase);
        var r := IndexOf(entries, k, ignoreCase);
        if r.Some? && r.value == i {
          KeyEqSymmetric(ignoreCase, entries[i].0, k);
          KeyEqTransitive(ignoreCase, k, entries[i].0, key);
          assert false;
        }
      }
  }

  /** After `dictionary.Remove(key)` no key equals `key`, every other key maps to
      what it mapped to before, and the keys stay distinct. */
  lemma {:induction false} DeleteSemantics(entries: Entries, key: string, ignoreCase: bool)
    requires Distinct(entries, ignoreCase)
    ensures Distinct(Delete(entries, key, ignoreCase), ignoreCase)
    ensures !HasKey(Delete(entries, key, ignoreCase), key, ignoreCase)
    ensures forall k :: !KeyEq(ignoreCase, k, key) ==>
              Lookup(Delete(entries, key, ignoreCase), k, ignoreCase) == Lookup(entries, k, ignoreCase)
    ensures |Delete(entries, key, ignoreCase)| == |entries| - (if HasKey(entries, key, ignoreCase) then 1 else 0)
  {
    match IndexOf(entries, key, ignoreCase)
    case None =>
    case Some(i) =>
      RemoveAtShifts(entries, i, ignoreCase);
      DeletedKeyIsGone(entries, key, ignoreCase, i);
      forall k | !KeyEq(ignoreCase, k, key)
        ensures Lookup(entries[..i] + entries[i + 1..], k, ignoreCase) == Lookup(entries, k, ignoreCase)
      {
        OtherKeySurvives(entries, key, k, ignoreCase, i);
      }
  }

  /** Removing the member at `i` shifts the later members down by one and keeps the
      keys distinct. */
  lemma RemoveAtShifts(entries: Entries, i: nat, ignoreCase: bool)
    requires Distinct(entries, ignoreCase) && i < |entries|
    ensures var e' := entries[..i] + entries[i + 1..];
      && |e'| == |entries| - 1
      && (forall m :: 0 <= m < |e'| ==> e'[m] == entries[if m < i then m else m + 1])
      && Distinct(e', ignoreCase)
  {
    var e' := entries[..i] + entries[i + 1..];
    assert forall m :: 0 <= m < |e'| ==> e'[m] == entries[if m < i then m else m + 1];
  }

  lemma DeletedKeyIsGone(entries: Entries, key: string, ignoreCase: bool, i: nat)
    requires Distinct(entries, ignoreCase) && IndexOf(entries, key, ignoreCase) == Some(i)
    ensures !HasKey(entries[..i] + entries[i + 1..], key, ignoreCase)
  {
    var e' := entries[..i] + entries[i + 1..];
    RemoveAtShifts(entries, i, ignoreCase);
    if HasKey(e', key, ignoreCase) {
      var m := IndexOf(e', key, ignoreCase).value;
      IndexOfUnique(entries, key, ignoreCase, if m < i then m else m + 1);
      assert false;
    }
  }

  lemma OtherKeySurvives(entries: Entries, key: string, k: string, ignoreCase: bool, i: nat)
    requires Distinct(entries, ignoreCase) && IndexOf(entries, key, ignoreCase) == Some(i)
    requires !KeyEq(ignoreCase, k, key)
    ensures Lookup(entries[..i] + entries[i + 1..], k, ignoreCase) == Lookup(entries, k, ignoreCase)
  {
    var e' := entries[..i] + entries[i + 1..];
    RemoveAtShifts(entries, i, ignoreCase);
    var r := IndexOf(entries, k, ignoreCase);
    if r.Some? {
      if r.value == i {
        KeyEqSymmetric(ignoreCase, entries[i].0, k);
        KeyEqTransitive(ignoreCase, k, entries[i].0, key);
        assert false;
      }
      var m := if r.value < i then r.value else r.value - 1;
      assert e'[m] == entries[r.value];
      IndexOfUnique(e', k, ignoreCase, m);
    }
  }

  /** The first member whose key equals `key` is the one found. */
  lemma IndexOfIs(entries: Entries, key: string, ignoreCase: bool, i: nat)
    requires i < |entries| && KeyEq(ignoreCase, entries[i].0, key)
    requires forall j :: 0 <= j < i ==> !KeyEq(ignoreCase, entries[j].0, key)
    ensures IndexOf(entries, key, ignoreCase) == Some(i)
  {
  }

  /** Appending a member does not change where an existing key is found. */
  lemma {:induction false} PrefixIndexOf(entries: Entries, last: (string, Value), k: string, ignoreCase: bool)
    requires !KeyEq(ignoreCase, last.0, k)
    ensures IndexOf(entries + [last], k, ignoreCase) == IndexOf(entries, k, ignoreCase)
  {
    if |entries| == 0 {
    } else {
      assert (entries + [last])[1..] == entries[1..] + [last];
      PrefixIndexOf(entries[1..], last, k, ignoreCase);
    }
  }

  /** The search only looks at keys. */
  lemma {:induction false} SameKeysIndexOf(a: Entries, b: Entries, k: string, ignoreCase: bool)
    requires |a| == |b| && forall m :: 0 <= m < |a| ==> a[m].0 == b[m].0
    ensures IndexOf(a, k, ignoreCase) == IndexOf(b, k, ignoreCase)
  {
    if |a| > 0 {
      SameKeysIndexOf(a[1..], b[1..], k, ignoreCase);
    }
  }

  // ---- case-insensitive key search ----

  /** The stored key that equals `key` ignoring case, the first one met, or `key`
      itself when there is none. */
  function KeyFor(entries: Entries, key: string): (k: string)
    ensures EqualsIgnoreCase(k, key)
    ensures HasKey(entries, key, true) ==> k in Keys(entries)
    ensures HasKey(entries, key, true) ==> k == entries[IndexOf(entries, key, true).value].0
    ensures !HasKey(entries, key, true) ==> k == key
  {
    match IndexOf(entries, key, true)
    case None => key
    case Some(i) => assert Keys(entries)[i] == entries[i].0; entries[i].0
  }

  /** Looking the key found by a case-insensitive search up in an ordinal dictionary
      finds the same member as the case-insensitive search. */
  lemma {:induction false} KeyForFindsSameMember(entries: Entries, key: string)
    requires HasKey(entries, key, true)
    ensures IndexOf(entries, KeyFor(entries, key), false) == IndexOf(entries, key, true)
  {
    var i := IndexOf(entries, key, true).value;
    var k := entries[i].0;
    forall j | 0 <= j < i
      ensures !KeyEq(false, entries[j].0, k)
    {
      assert !KeyEq(true, entries[j].0, key);
    }
    IndexOfIs(entries, k, false, i);
  }

  /** A dictionary whose comparer ignores case finds the stored key for itself. */
  lemma {:induction false} KeyForInIgnoreCaseDictionary(entries: Entries, key: string)
    ensures IndexOf(entries, KeyFor(entries, key), true) == IndexOf(entries, key, true)
  {
    var k := KeyFor(entries, key);
    var r := IndexOf(entries, k, true);
    var s := IndexOf(entries, key, true);
    if r.Some? && (s.None? || r.value < s.value) {
      EqualsIgnoreCaseTransitive(entries[r.value].0, k, key);
      assert false;
    }
    if s.Some? && (r.None? || s.value < r.value) {
      EqualsIgnoreCaseSymmetric(k, key);
      EqualsIgnoreCaseTransitive(entries[s.value].0, key, k);
      assert false;
    }
  }

  /** Searching again for the key a case-insensitive search returned finds the same
      key. */
  lemma KeyForIsIdempotent(entries: Entries, key: string)
    ensures KeyFor(entries, KeyFor(entries, key)) == KeyFor(entries, key)
  {
    KeyForInIgnoreCaseDictionary(entries, key);
  }

  /** Whether the key found by the case-insensitive search is in the dictionary under
      the dictionary's own comparer: exactly when some key equals `key` ignoring case. */
  lemma {:induction false} KeyForPresence(entries: Entries, key: string, ignoreCase: bool)
    ensures HasKey(entries, KeyFor(entries, key), ignoreCase) <==> HasKey(entries, key, true)
  {
    if ignoreCase {
      KeyForInIgnoreCaseDictionary(entries, key);
    } else if HasKey(entries, key, true) {
      KeyForFindsSameMember(entries, key);
    } else if HasKey(entries, key, false) {
      var i := IndexOf(entries, key, false).value;
      EqualsIgnoreCaseReflexive(key);
      assert false;
    }
  }

  // ---- the non-generic IDictionary interface over the members ----

  /** The getter of the non-generic `IDictionary` indexer: null for an absent key. */
  function NonGenericGet(entries: Entries, key: string, ignoreCase: bool): (v: Value)
    ensures Lookup(entries, key, ignoreCase).Some? ==> v == Lookup(entries, key, ignoreCase).value
    ensures Lookup(entries, key, ignoreCase).None? ==> v == Null
  {
    match Lookup(entries, key, ignoreCase)
    case Some(v) => v
    case None => Null
  }

  /** The setter of the non-generic `IDictionary` indexer of a dictionary whose values
      are `valueType`s: null where that type does not take it, and a value of another
      type, are refused. */
  function NonGenericSet(rt: Runtime, valueType: TypeTag, entries: Entries, key: string, value: Value,
                         ignoreCase: bool): (r: Result<Entries>)
    ensures r.Success? <==> FitsType(rt, value, valueType)
    ensures r.Success? ==> r.value == Put(entries, key, value, ignoreCase)
  {
    if value == Null && IsNonNullableValueType(valueType) then Failure(ArgumentNullException)
    else if value != Null && !rt.assignable(valueType, TypeOf(value)) then Failure(ArgumentException)
    else Success(Put(entries, key, value, ignoreCase))
  }

  // ---- list elements ----

  /** `list.Insert(index, value)` on the elements. */
  function InsertAt(s: seq<Value>, index: nat, v: Value): (r: seq<Value>)
    requires index <= |s|
    ensures |r| == |s| + 1 && r[index] == v
    ensures forall i :: 0 <= i < index ==> r[i] == s[i]
    ensures forall i :: index < i < |r| ==> r[i] == s[i - 1]
  {
    s[..index] + [v] + s[index..]
  }

  /** `list.RemoveAt(index)` on the elements. */
  function RemoveAt(s: seq<Value>, index: nat): (r: seq<Value>)
    requires index < |s|
    ensures |r| == |s| - 1
    ensures forall i :: 0 <= i < index ==> r[i] == s[i]
    ensures forall i :: index <= i < |r| ==> r[i] == s[i + 1]
  {
    s[..index] + s[index + 1..]
  }

  /** Removing what was just inserted gives back the elements. */
  lemma RemoveInsertedAt(s: seq<Value>, index: nat, v: Value)
    requires index <= |s|
    ensures RemoveAt(InsertAt(s, index, v), index) == s
  {
  }

  /** Re-inserting what was just removed gives back the elements. */
  lemma InsertRemovedAt(s: seq<Value>, index: nat)
    requires index < |s|
    ensures InsertAt(RemoveAt(s, index), index, s[index]) == s
  {
  }

  // ---- the non-generic IList interface over the elements ----

  /** `IList.Add`: fixed-size arrays refuse it. */
  function ListAdd(isArray: bool, items: seq<Value>, v: Value): Result<seq<Value>> {
    if isArray then Failure(NotSupportedException) else Success(items + [v])
  }

  /** `IList.Insert`: positions from 0 to the count are accepted. */
  function ListInsert(isArray: bool, items: seq<Value>, index: int, v: Value): Result<seq<Value>> {
    if isArray then Failure(NotSupportedException)
    else if index < 0 || index > |items| then Failure(ArgumentOutOfRangeException)
    else Success(InsertAt(items, index, v))
  }

  /** `IList.RemoveAt`. */
  function ListRemoveAt(isArray: bool, items: seq<Value>, index: int): Result<seq<Value>> {
    if isArray then Failure(NotSupportedException)
    else if index < 0 || index >= |items| then Failure(ArgumentOutOfRangeException)
    else Success(RemoveAt(items, index))
  }

  /** The exception the indexer of a list throws for a position outside it. */
  function OutOfRange(isArray: bool): Exception {
    if isArray then IndexOutOfRangeException else ArgumentOutOfRangeException
  }

  /** The getter of `IList`'s indexer. */
  function ListGet(isArray: bool, items: seq<Value>, index: int): Result<Value> {
    if 0 <= index < |items| then Success(items[index]) else Failure(OutOfRange(isArray))
  }

  /** The setter of `IList`'s indexer. */
  function ListSet(isArray: bool, items: seq<Value>, index: int, v: Value): Result<seq<Value>> {
    if 0 <= index < |items| then Success(items[index := v]) else Failure(OutOfRange(isArray))
  }

  /** Reading back an element just written gives it; the others are unchanged. */
  lemma ListSetThenGet(isArray: bool, items: seq<Value>, index: int, v: Value, j: int)
    requires ListSet(isArray, items, index, v).Success?
    ensures ListGet(isArray, ListSet(isArray, items, index, v).value, index) == Success(v)
    ensures j != index ==>
              ListGet(isArray, ListSet(isArray, items, index, v).value, j) == ListGet(isArray, items, j)
  {
  }

  /** Removing an element just inserted at a position restores the elements. */
  lemma {:induction false} ListInsertThenRemoveAt(isArray: bool, items: seq<Value>, index: int, v: Value)
    requires ListInsert(isArray, items, index, v).Success?
    ensures ListRemoveAt(isArray, ListInsert(isArray, items, index, v).value, index) == Success(items)
  {
    RemoveInsertedAt(items, index, v);
  }
}
