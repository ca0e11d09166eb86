/**
 * The adapters of the visitor generation: `DictionaryAdapter` over a non-generic
 * dictionary, and `ExpandoObjectAdapter`, a handle on one member of an expando object
 * whose key is resolved once, when the handle is made.
 */
module Adapters {
  import opened Values
  import opened Collections
  import opened ConversionResultProvider
  import opened ExpandoExtensions

  // ======== DictionaryAdapter ========

  class DictionaryAdapter {
    /** `Add`: `dictionary[segment] = value`, which overwrites a present key and
        inserts an absent one; the indexer throws for a value the dictionary's value
        type does not admit. */
    static method Add(rt: Runtime, dictionary: Obj, segment: string, value: Value) returns (outcome: Outcome)
      requires dictionary.isDictionary
      modifies dictionary
      ensures var set_ := NonGenericSet(rt, dictionary.valueType, old(dictionary.entries), segment, value, dictionary.ignoreCase);
        && (set_.Success? ==> outcome == Pass && dictionary.entries == set_.value)
        && (set_.Failure? ==> outcome == Fail(set_.exception) && dictionary.entries == old(dictionary.entries))
      ensures unchanged(dictionary`items) && unchanged(dictionary`fieldValues)
    {
      var updated := NonGenericSet(rt, dictionary.valueType, dictionary.entries, segment, value, dictionary.ignoreCase);
      if updated.Failure? {
        return Fail(updated.exception);
      }
      dictionary.entries := updated.value;
      return Pass;
    }

    /** `TryTraverse`: `true` with the stored value when the dictionary contains the
        segment under its own comparer, `false` with null otherwise. */
    static function TryTraverse(dictionary: Obj, segment: string): (r: (bool, Value))
      reads dictionary
      ensures r.0 <==> HasKey(dictionary.entries, segment, dictionary.ignoreCase)
      ensures r.0 ==> Lookup(dictionary.entries, segment, dictionary.ignoreCase) == Some(r.1)
      ensures !r.0 ==> r.1 == Null
    {
      match Lookup(dictionary.entries, segment, dictionary.ignoreCase)
      case Some(v) => (true, v)
      case None => (false, Null)
    }

    /** What `Add` makes of the members: on a present key the count is unchanged, on
        an absent one the pair is appended; the segment then reads back the value and
        no other key changes. */
    static lemma {:induction false} AddSemantics(rt: Runtime, dictionary: Obj, entries: Entries, segment: string, value: Value)
      requires Distinct(entries, dictionary.ignoreCase)
      requires FitsType(rt, value, dictionary.valueType)
      ensures var r := NonGenericSet(rt, dictionary.valueType, entries, segment, value, dictionary.ignoreCase);
        && r.Success?
        && |r.value| == (if HasKey(entries, segment, dictionary.ignoreCase) then |entries| else |entries| + 1)
        && (!HasKey(entries, segment, dictionary.ignoreCase) ==> r.value == entries + [(segment, value)])
        && Lookup(r.value, segment, dictionary.ignoreCase) == Some(value)
        && (forall k :: !KeyEq(dictionary.ignoreCase, k, segment) ==>
              Lookup(r.value, k, dictionary.ignoreCase) == Lookup(entries, k, dictionary.ignoreCase))
    {
      PutSemantics(entries, segment, value, dictionary.ignoreCase);
    }
  }

  // ======== ExpandoObjectAdapter ========

  /** A handle on the member `key` of an expando object, with the operation it serves. */
  class ExpandoObjectAdapter {
    const dictionary: Obj
    const operation: Operation
    const key: string

    constructor Init(dictionary: Obj, operation: Operation, key: string)
      ensures this.dictionary == dictionary && this.operation == operation && this.key == key
    {
      this.dictionary := dictionary;
      this.operation := operation;
      this.key := key;
    }

    /** `new ExpandoObjectAdapter(targetObject, propertyName, operation)`: a null target
        is rejected; the key is the stored key equal to the name ignoring case, or the
        name itself. */
    static method Create(targetObject: Obj?, propertyName: string, operation: Operation)
      returns (r: Result<ExpandoObjectAdapter>)
      ensures targetObject == null <==> r == Failure(ArgumentNullException)
      ensures r.Success? ==> r.value.dictionary == targetObject && r.value.operation == operation
      ensures r.Success? ==> r.value.key == KeyFor(targetObject.entries, propertyName)
    {
      if targetObject == null {
        return Failure(ArgumentNullException);
      }
      var key := GetKeyUsingCaseInsensitiveSearch(targetObject, propertyName);
      var adapter := new ExpandoObjectAdapter.Init(targetObject, operation, key);
      return Success(adapter);
    }

    /** The exception `VerifyKeyExists` throws. */
    function TargetNotFound(): Exception {
      JsonPatchException(PatchError(Ref(dictionary), operation,
        TargetLocationNotFound(operation.op, operation.path)))
    }

    method Add(rt: Runtime, value: Value)
      modifies dictionary
      ensures dictionary.entries == AddAtKey(rt, old(dictionary.entries), key, value)
      ensures unchanged(dictionary`items) && unchanged(dictionary`fieldValues)
    {
      dictionary.entries := Put(dictionary.entries, key, ConvertToExistingType(rt, dictionary.entries, key, value), false);
    }

    /** `Get`: `_dictionary[_key]`, which throws for an absent key. */
    method Get() returns (r: Result<Value>)
      ensures r == GetAtKey(dictionary.entries, key)
      ensures r.Success? <==> HasKey(dictionary.entries, key, false)
    {
      if !HasKey(dictionary.entries, key, false) {
        return Failure(KeyNotFoundException);
      }
      return Success(Lookup(dictionary.entries, key, false).value);
    }

    /** `VerifyKeyExists`. */
    method VerifyKeyExists() returns (outcome: Outcome)
      ensures outcome == Pass <==> HasKey(dictionary.entries, key, false)
      ensures outcome != Pass ==> outcome == Fail(TargetNotFound())
    {
      if !HasKey(dictionary.entries, key, false) {
        return Fail(TargetNotFound());
      }
      return Pass;
    }

    method Remove() returns (outcome: Outcome)
      modifies dictionary
      ensures RemoveAtKey(old(dictionary.entries), key).Some? ==>
                outcome == Pass && dictionary.entries == RemoveAtKey(old(dictionary.entries), key).value
      ensures RemoveAtKey(old(dictionary.entries), key).None? ==>
                outcome == Fail(TargetNotFound()) && dictionary.entries == old(dictionary.entries)
      ensures unchanged(dictionary`items) && unchanged(dictionary`fieldValues)
    {
      outcome := VerifyKeyExists();
      if outcome != Pass {
        return;
      }
      dictionary.entries := Delete(dictionary.entries, key, false);
    }

    method Replace(rt: Runtime, value: Value) returns (outcome: Outcome)
      modifies dictionary
      ensures ReplaceAtKey(rt, old(dictionary.entries), key, value).Some? ==>
                outcome == Pass && dictionary.entries == ReplaceAtKey(rt, old(dictionary.entries), key, value).value
      ensures ReplaceAtKey(rt, old(dictionary.entries), key, value).None? ==>
                outcome == Fail(TargetNotFound()) && dictionary.entries == old(dictionary.entries)
      ensures unchanged(dictionary`items) && unchanged(dictionary`fieldValues)
    {
      outcome := VerifyKeyExists();
      if outcome != Pass {
        return;
      }
      dictionary.entries := Put(dictionary.entries, key, ConvertToExistingType(rt, dictionary.entries, key, value), false);
    }
  }
}
