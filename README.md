# JSON Patch location engine

This project models the part of Microsoft.AspNetCore.JsonPatch that finds the
location a JSON Patch operation addresses. It walks a `/`-separated path through an
in-memory object graph. At the addressed slot it applies add, remove, replace or get.
The slot can be a member of an `ExpandoObject`, an entry of a dictionary, an element
of a list, or a property of a plain object.

The repository holds four generations of this engine. The model keeps them apart:

- **Analyzer** (`ObjectTreeAnalyzer`, `PatchObjects`): `ObjectTreeAnalyzer.Analyze`
  walks the path. It then builds a `PatchListObject`, `PatchExpandoObject` or
  `PatchPocoObject` handle for the last segment.
- **Visitor chain and adapters** (`VisitorChain`, `OlderVisitors`, `Adapters`):
  `ObjectVisitor.GetAdapter` asks the expando, dictionary, list and plain-object
  visitors in that order. The older `DictionaryObjectVisitor`, `ExpandoObjectVisitor`
  and `ListObjectVisitor` make one step each. `DictionaryAdapter` and
  `ExpandoObjectAdapter` act on the slot.
- **Single-file engine** (`ObjectVisitor2`): a `Visit` loop and four nested `Try*`
  adapters that refuse with a message instead of throwing.
- **Error sink** (`PatchOperations`): `ArrayPatchOperation`,
  `DictionaryPatchOperation` and `PocoPatchOperation` report errors to an optional
  sink. They throw only when no sink is given. `DictionaryWrapper` sits underneath the
  dictionary operation.

The shared modules are these:

- `Values`: the object graph and the runtime oracles. One class `Obj` has interface
  flags, type data and three mutable facets: `entries` for dictionary and expando
  members, in enumeration order; `items` for list elements; and `fieldValues` for
  plain-object properties.
- `Collections`: .NET dictionary and list behaviour over these facets.
- `Numbers`: `int.TryParse` and `Convert.ToInt32`.
- `Paths`: path splitting, `PathSegment` and `OperationContext`.
- `Positions`: list-position classification.
- `Properties`: case-insensitive property lookup.
- `ExpandoExtensions`, `ConversionResultProvider` and `ResultHelper`: the source files
  of the same names.

Some source code works by changing state. That code is modelled as classes and
methods. Each method is proved against a function of the old state, and the
properties the source promises are proved about those functions as lemmas. A walk
follows references from object to object, so it is specified over a ghost set of
objects that is closed under those references.

Some behaviour of the code deserves a note:

- `ObjectVisitor.cs` asks an expando visitor first. The repository's
  `ExpandoObjectVisitor.cs` is a one-step visitor of the older generation, so the
  chain's expando step is modelled after the order in `ObjectVisitor.cs`.
- `OperationContext.cs` has no `MoveToNextPathSegment` or `CurrentSegment`. Both are
  modelled as a cursor over the split path, as `ObjectVisitor.cs` and the visitors use
  them.
- For `"-"` on an empty list, `PatchListObject` and the `ListAdapter` throw
  `ArgumentOutOfRangeException`. The model states these exceptions instead of
  assuming the list is non-empty. Likewise, `DictionaryWrapper.SetValue` over a null
  member throws `NullReferenceException`, and the model states that.

## Model

| member | source | states |
|---|---|---|
| Numbers.TryParseFormatInt | src/Microsoft.AspNetCore.JsonPatch/Internal/PatchListObject.cs:138-161 | the decimal text of an integer parses back to that integer exactly when it fits in 32 bits, and fails otherwise |
| Numbers.ConvertAgreesWithTryParse | src/Microsoft.AspNetCore.JsonPatch/Internal/ObjectTreeAnalyzer.cs:85 | `Convert.ToInt32` succeeds exactly when `int.TryParse` does and gives the same number; it fails with `FormatException` on non-numbers and `OverflowException` past 32 bits |
| Numbers.SeveralTextsForOneIndex | src/Microsoft.AspNetCore.JsonPatch/Internal/PatchListObject.cs:138-161 | `"1"`, `"01"` and `"+1"` all denote position 1 |
| Numbers.NotNumbers | src/Microsoft.AspNetCore.JsonPatch/Internal/PatchListObject.cs:138-161 | `"-"`, `""`, `"_"`, `"blah"` and `"1a"` are not integers |
| Numbers.JustPastInt32 | src/Microsoft.AspNetCore.JsonPatch/Internal/ObjectTreeAnalyzer.cs:85 | `"2147483648"` is an integer, but `int.TryParse` fails on it and `Convert.ToInt32` overflows |
| Paths.SplitPath | src/Microsoft.AspNetCore.JsonPatch/Internal/OperationContext.cs:23 | every segment of a split path is non-empty and holds no `/` |
| Paths.SplitJoin | src/Microsoft.AspNetCore.JsonPatch/Internal/OperationContext.cs:23 | joining segments with `/` and splitting again gives the same segments back |
| Paths.SplitIsIdempotent | src/Microsoft.AspNetCore.JsonPatch/Internal/ObjectTreeAnalyzer.cs:24 | re-joining and re-splitting a split path changes nothing |
| Paths.OnlySlashes | src/Microsoft.AspNetCore.JsonPatch/Internal/ObjectTreeAnalyzer.cs:24 | a path of slashes only, the empty path included, has no segments |
| Paths.ExtraSlashesIgnored | src/Microsoft.AspNetCore.JsonPatch/Internal/OperationContext.cs:23 | leading, trailing and doubled slashes produce no segment: `/a//b/` and `a/b` both give `a`, `b` |
| Paths.SegmentAt | src/Microsoft.AspNetCore.JsonPatch/Internal/PathSegment.cs:8-16 | a segment keeps its text, and it is final exactly when it is the last one |
| Paths.OperationContext.constructor | src/Microsoft.AspNetCore.JsonPatch/Internal/OperationContext.cs:16-29 | the context holds the split path, the operation and the target, and the cursor starts before the first segment |
| Paths.OperationContext.TryGetSegment | src/Microsoft.AspNetCore.JsonPatch/Internal/OperationContext.cs:35-47 | while segments remain, it yields the next segment, final exactly when it is the last, and advances the cursor by one; once they run out it yields nothing and leaves the cursor alone |
| Paths.OperationContext.MoveToNextPathSegment | src/Microsoft.AspNetCore.JsonPatch/Internal/ObjectVisitor.cs:25 | it moves the cursor on by one exactly when another segment remains |
| Paths.OperationContext.CurrentSegment | src/Microsoft.AspNetCore.JsonPatch/Internal/ListVisitor.cs:21 | the segment under the cursor, final exactly when it is the last |
| Paths.OperationContext.SetNewTargetObject | src/Microsoft.AspNetCore.JsonPatch/Internal/OperationContext.cs:49-52 | only the target changes; the path, operation and cursor stay as they were |
| Positions.GetPositionInfo | src/Microsoft.AspNetCore.JsonPatch/Internal/PatchListObject.cs:138-161 | a position classified as an index lies inside the list |
| Positions.PositionInfoMeaning | src/Microsoft.AspNetCore.JsonPatch/Internal/PatchListObject.cs:138-161 | `-` is the end of the list; a 32-bit integer inside the list is an index; any other 32-bit integer is out of bounds; everything else is invalid (each an if-and-only-if) |
| Positions.PositionOfFormattedIndex | src/Microsoft.AspNetCore.JsonPatch/Internal/ObjectVisitor2.cs:464-487 | the text of a 32-bit integer is classified by where that integer falls: an index inside the list, out of bounds otherwise |
| Positions.CountIsOutOfBounds | src/Microsoft.AspNetCore.JsonPatch/Internal/ObjectVisitor2.cs:464-487 | the position equal to the length is out of bounds, even for add |
| Positions.PositionsOnTwoElements | src/Microsoft.AspNetCore.JsonPatch/Internal/ObjectVisitor2.cs:464-487 | on a list of two: `-1`, `-2`, `2` and `3` are out of bounds, `_` and `blah` are invalid, `0` is index 0, and `-` is the end of the list |
| Properties.FindProperty | src/Microsoft.AspNetCore.JsonPatch/Internal/ObjectVisitor2.cs:637-655 | the first property whose name equals the segment ignoring case; nothing exactly when no property matches |
| Properties.ResolveProperty | src/Microsoft.AspNetCore.JsonPatch/Internal/PocoVisitor.cs:18-20 | a property is found exactly when the target has an object contract with a property of that name, ignoring case, and it is the first such |
| Properties.FindPropertyIgnoresCase | src/Microsoft.AspNetCore.JsonPatch/Internal/ObjectTreeAnalyzer.cs:92-123 | names that differ only in case find the same property |
| Collections.IndexOf | src/Microsoft.AspNetCore.JsonPatch/Internal/DictionaryWrapper.cs:71-89 | the first entry whose key matches under the dictionary's comparer; nothing exactly when no key matches |
| Collections.PutSemantics | src/Microsoft.AspNetCore.JsonPatch/Internal/DictionaryAdapter.cs:11-17 | setting a key keeps the keys distinct, makes the key read back the new value, and leaves every other key's value unchanged |
| Collections.DeleteSemantics | src/Microsoft.AspNetCore.JsonPatch/Internal/DictionaryWrapper.cs:54-58 | removing a key keeps the keys distinct and leaves the key absent, leaves every other key unchanged, and shrinks the dictionary by one exactly when the key was there |
| Collections.KeyFor | src/Microsoft.AspNetCore.JsonPatch/Internal/ExpandoObjectDictionaryExtensions.cs:77-89 | the resolved key equals the argument ignoring case; when some stored key matches ignoring case it is the first such stored key, and otherwise it is the argument unchanged |
| Collections.KeyForFindsSameMember | src/Microsoft.AspNetCore.JsonPatch/Internal/ExpandoObjectDictionaryExtensions.cs:77-89 | an exact lookup of the resolved key finds the same entry as the case-insensitive search |
| Collections.KeyForPresence | src/Microsoft.AspNetCore.JsonPatch/Internal/ExpandoObjectDictionaryExtensions.cs:62-89 | under either comparer, the resolved key is present exactly when the argument matches a stored key ignoring case |
| Collections.KeyForIsIdempotent | src/Microsoft.AspNetCore.JsonPatch/Internal/DictionaryWrapper.cs:71-89 | resolving an already resolved key gives it back |
| Collections.KeyForInIgnoreCaseDictionary | src/Microsoft.AspNetCore.JsonPatch/Internal/DictionaryWrapper.cs:71-89 | under a case-insensitive comparer, the resolved key finds the same entry as the argument |
| Collections.NonGenericGet | src/Microsoft.AspNetCore.JsonPatch/Internal/ObjectVisitor2.cs:87-94 | the non-generic dictionary indexer gives the stored value of a present key, and null for a missing one |
| Collections.NonGenericSet | src/Microsoft.AspNetCore.JsonPatch/Internal/DictionaryAdapter.cs:11-17 | the non-generic indexer stores the value exactly when it fits the value type, and otherwise throws |
| Collections.RemoveInsertedAt | src/Microsoft.AspNetCore.JsonPatch/Internal/PatchListObject.cs:80-102 | removing at the position just inserted at restores the list |
| Collections.InsertRemovedAt | src/Microsoft.AspNetCore.JsonPatch/Internal/PatchListObject.cs:92-102 | inserting a removed element back at its position restores the list |
| Collections.ListSetThenGet | src/Microsoft.AspNetCore.JsonPatch/Internal/PatchListObject.cs:104-126 | after a successful indexed write the position reads back the value, and every other position is unchanged |
| Collections.ListInsertThenRemoveAt | src/Microsoft.AspNetCore.JsonPatch/Internal/ArrayPatchOperation.cs:62-65 | a successful `Insert` followed by `RemoveAt` at the same position restores the list |
| ConversionResultProvider.ConvertTo | src/Microsoft.AspNetCore.JsonPatch/Internal/ConversionResultProvider.cs:12-50 | null converts exactly to types that are not non-nullable value types; an instance of the target type converts to itself; a failed conversion carries null; any other value converts exactly when its JSON round trip does |
| ConversionResultProvider.ConvertToFits | src/Microsoft.AspNetCore.JsonPatch/Internal/ConversionResultProvider.cs:12-50 | a successful conversion yields a value that fits the target type |
| ConversionResultProvider.ConvertToIsIdempotent | src/Microsoft.AspNetCore.JsonPatch/Internal/ConversionResultProvider.cs:24-27 | converting an already converted value again changes nothing |
| ResultHelper.ConvertObjectToType | src/Microsoft.AspNetCore.JsonPatch/Internal/ResultHelper.cs:22-34 | conversion succeeds exactly when the JSON round trip does and carries its value; a failure carries null and never throws |
| ResultHelper.ElementAtOrNull | src/Microsoft.AspNetCore.JsonPatch/Internal/ObjectTreeAnalyzer.cs:139-147 | the element at the index when the target is enumerable and the index is inside it; null otherwise |
| ResultHelper.GetElementAtFromObjectThrowsAtCount | src/Microsoft.AspNetCore.JsonPatch/Internal/ResultHelper.cs:46-48 | at an index equal to the element count the helper throws `ArgumentOutOfRangeException` instead of answering null |
| ResultHelper.GetElementAtFromObjectElsewhereCorrect | src/Microsoft.AspNetCore.JsonPatch/Internal/ResultHelper.cs:36-58 | at every other index, negative ones and non-enumerable targets included, the helper answers what `ElementAtOrNull` does |
| ExpandoExtensions.ConvertToExistingType | src/Microsoft.AspNetCore.JsonPatch/Internal/ExpandoObjectAdapter.cs:76-91 | the new value is converted to the type of the existing non-null value when that works; otherwise it is stored raw |
| ExpandoExtensions.SetValueForCaseInsensitiveKey | src/Microsoft.AspNetCore.JsonPatch/Internal/ExpandoObjectDictionaryExtensions.cs:12-25 | the members become the case-insensitive set of the old ones, and nothing but the members changes |
| ExpandoExtensions.RemoveValueForCaseInsensitiveKey | src/Microsoft.AspNetCore.JsonPatch/Internal/ExpandoObjectDictionaryExtensions.cs:27-45 | the members become the old ones without the first case-insensitive match, and nothing but the members changes |
| ExpandoExtensions.GetValueForCaseInsensitiveKey | src/Microsoft.AspNetCore.JsonPatch/Internal/ExpandoObjectDictionaryExtensions.cs:47-60 | the value of the first case-insensitive match, or the failure for no match |
| ExpandoExtensions.ContainsCaseInsensitiveKey | src/Microsoft.AspNetCore.JsonPatch/Internal/ExpandoObjectDictionaryExtensions.cs:62-75 | true exactly when some stored key equals the argument ignoring case |
| ExpandoExtensions.GetKeyUsingCaseInsensitiveSearch | src/Microsoft.AspNetCore.JsonPatch/Internal/ExpandoObjectDictionaryExtensions.cs:77-89 | the first stored key equal to the argument ignoring case, otherwise the argument |
| ExpandoExtensions.ValueIgnoringCaseSucceedsIffPresent | src/Microsoft.AspNetCore.JsonPatch/Internal/ExpandoObjectDictionaryExtensions.cs:47-60 | the get succeeds exactly when a key matches ignoring case, with the first match's value, and fails with `ArgumentException` otherwise |
| ExpandoExtensions.SetIgnoringCaseSemantics | src/Microsoft.AspNetCore.JsonPatch/Internal/ExpandoObjectDictionaryExtensions.cs:12-25 | the set keeps every key and its casing, overwrites only the first match, and changes nothing when no key matches |
| ExpandoExtensions.RemoveIgnoringCaseKeepsLaterCaseVariant | src/Microsoft.AspNetCore.JsonPatch/Internal/ExpandoObjectDictionaryExtensions.cs:27-45 | with members `name` and `Name`, removing `NAME` deletes only `name`, so `NAME` still matches afterwards |
| ExpandoExtensions.MemberHandleSemantics | src/Microsoft.AspNetCore.JsonPatch/Internal/ExpandoObjectAdapter.cs:38-74 | add makes the key read back the converted value and leaves other keys alone; remove succeeds exactly when the key is present, and the key is gone afterwards; replace is remove then add |
| ExpandoExtensions.AddAtResolvedKey | src/Microsoft.AspNetCore.JsonPatch/Internal/PatchExpandoObject.cs:32-53 | add under the resolved key keeps the key set when a case variant exists, and otherwise inserts the name as given |
| Adapters.DictionaryAdapter.Add | src/Microsoft.AspNetCore.JsonPatch/Internal/DictionaryAdapter.cs:11-17 | the dictionary becomes the indexer's set of the old one, or the call throws and the dictionary is unchanged; nothing else changes |
| Adapters.DictionaryAdapter.TryTraverse | src/Microsoft.AspNetCore.JsonPatch/Internal/DictionaryAdapter.cs:19-33 | true with the stored value exactly when the key is present under the dictionary's own comparer; false with null otherwise |
| Adapters.DictionaryAdapter.AddSemantics | src/Microsoft.AspNetCore.JsonPatch/Internal/DictionaryAdapter.cs:11-17 | a fitting value is stored and reads back, and other keys are unchanged; the count is unchanged for an existing key and grows by one otherwise |
| Adapters.ExpandoObjectAdapter.Create | src/Microsoft.AspNetCore.JsonPatch/Internal/ExpandoObjectAdapter.cs:18-36 | a null target throws `ArgumentNullException`; otherwise the handle holds the target, the operation and the case-insensitively resolved key |
| Adapters.ExpandoObjectAdapter.Add | src/Microsoft.AspNetCore.JsonPatch/Internal/ExpandoObjectAdapter.cs:38-42 | the member at the key becomes the value converted to the existing value's type, or is inserted; only the members change |
| Adapters.ExpandoObjectAdapter.Get | src/Microsoft.AspNetCore.JsonPatch/Internal/ExpandoObjectAdapter.cs:44-47 | the value at the key, succeeding exactly when the key is present |
| Adapters.ExpandoObjectAdapter.VerifyKeyExists | src/Microsoft.AspNetCore.JsonPatch/Internal/ExpandoObjectAdapter.cs:65-74 | passes exactly when the key is present, and otherwise raises target-location-not-found |
| Adapters.ExpandoObjectAdapter.Remove | src/Microsoft.AspNetCore.JsonPatch/Internal/ExpandoObjectAdapter.cs:49-55 | deletes the key when present; otherwise it raises target-location-not-found and the members are unchanged |
| Adapters.ExpandoObjectAdapter.Replace | src/Microsoft.AspNetCore.JsonPatch/Internal/ExpandoObjectAdapter.cs:57-63 | stores the converted value at a present key; otherwise it raises target-location-not-found and the members are unchanged |
| PatchObjects.PatchListObject.Create | src/Microsoft.AspNetCore.JsonPatch/Internal/PatchListObject.cs:21-78 | it fails exactly when the target is null, an array or a non-generic list, or the position is invalid or out of bounds, with the matching exception; otherwise the handle holds the list, its element type and the position classified once |
| PatchObjects.ListObjectRejectionCases | src/Microsoft.AspNetCore.JsonPatch/Internal/PatchListObject.cs:64-77 | a position equal to the length raises invalid-index, `-` is accepted, and a non-number raises invalid-path |
| PatchObjects.PatchListObject.ConvertValue | src/Microsoft.AspNetCore.JsonPatch/Internal/PatchListObject.cs:128-136 | it fails with invalid-value exactly when the value does not convert to the element type; otherwise it gives the converted value |
| PatchObjects.PatchListObject.Add | src/Microsoft.AspNetCore.JsonPatch/Internal/PatchListObject.cs:80-90 | the list becomes the converted value inserted at the position or appended for `-`; on a conversion failure the list is unchanged; only the list changes |
| PatchObjects.PatchListObject.Remove | src/Microsoft.AspNetCore.JsonPatch/Internal/PatchListObject.cs:92-102 | the element at the position, or the last for `-`, is removed, or the list is unchanged and the call throws |
| PatchObjects.PatchListObject.Replace | src/Microsoft.AspNetCore.JsonPatch/Internal/PatchListObject.cs:104-114 | the element at the position, or the last for `-`, is overwritten with the converted value, or the list is unchanged and the call throws |
| PatchObjects.PatchListObject.Get | src/Microsoft.AspNetCore.JsonPatch/Internal/PatchListObject.cs:116-126 | the element at the position, or the last for `-`; a value returned is an element of the list |
| PatchObjects.PatchListObject.AddThenRemoveRestores | src/Microsoft.AspNetCore.JsonPatch/Internal/PatchListObject.cs:80-102 | removing after a successful add restores the list |
| PatchObjects.PatchListObject.WriteThenGet | src/Microsoft.AspNetCore.JsonPatch/Internal/PatchListObject.cs:80-126 | after a successful add or replace, get returns the converted value |
| PatchObjects.PatchListObject.LengthEffects | src/Microsoft.AspNetCore.JsonPatch/Internal/PatchListObject.cs:80-136 | add grows the list by one, remove shrinks it by one, and replace keeps its length; an unconvertible value makes add and replace fail with invalid-value |
| PatchObjects.PatchListObject.EndOfEmptyList | src/Microsoft.AspNetCore.JsonPatch/Internal/PatchListObject.cs:92-126 | on an empty list, get, remove and replace at `-` throw `ArgumentOutOfRangeException` |
| PatchObjects.PatchListObject.StalePosition | src/Microsoft.AspNetCore.JsonPatch/Internal/PatchListObject.cs:116-126 | a position classified when the handle was made throws once the list has shrunk below it |
| PatchObjects.PatchExpandoObject.Create | src/Microsoft.AspNetCore.JsonPatch/Internal/PatchExpandoObject.cs:15-33 | it fails with `ArgumentNullException` exactly when the target is null; otherwise the handle holds the target, the operation and the resolved key |
| PatchObjects.PatchExpandoObject.Add | src/Microsoft.AspNetCore.JsonPatch/Internal/PatchExpandoObject.cs:35-53 | the member at the key becomes the value converted to the existing value's type, or is inserted; only the members change |
| PatchObjects.PatchExpandoObject.Get | src/Microsoft.AspNetCore.JsonPatch/Internal/PatchExpandoObject.cs:55-58 | the value at the key, or `KeyNotFoundException` |
| PatchObjects.PatchExpandoObject.Remove | src/Microsoft.AspNetCore.JsonPatch/Internal/PatchExpandoObject.cs:60-66 | deletes the key when present; otherwise it raises target-location-not-found and the members are unchanged |
| PatchObjects.PatchExpandoObject.Replace | src/Microsoft.AspNetCore.JsonPatch/Internal/PatchExpandoObject.cs:68-87 | stores the converted value at a present key; otherwise it raises target-location-not-found and the members are unchanged |
| PatchObjects.PatchPocoObject.Create | src/Microsoft.AspNetCore.JsonPatch/Internal/PatchPocoObject.cs:18-36 | it fails with `ArgumentNullException` exactly when the target is null; otherwise the handle holds the target, the property and the operation |
| PatchObjects.PatchPocoObject.Add | src/Microsoft.AspNetCore.JsonPatch/Internal/PatchPocoObject.cs:38-42 | the property becomes the converted value; a read-only property or an unconvertible value throws and leaves the properties unchanged |
| PatchObjects.PatchPocoObject.Replace | src/Microsoft.AspNetCore.JsonPatch/Internal/PatchPocoObject.cs:70-74 | the same state change and errors as add |
| PatchObjects.PatchPocoObject.Remove | src/Microsoft.AspNetCore.JsonPatch/Internal/PatchPocoObject.cs:56-68 | the property is reset to the default of its type; a read-only property throws and leaves the properties unchanged |
| PatchObjects.PatchPocoObject.Get | src/Microsoft.AspNetCore.JsonPatch/Internal/PatchPocoObject.cs:44-54 | the property's value, or cannot-read-property for an unreadable property |
| PatchObjects.PatchPocoObject.WriteThenGet | src/Microsoft.AspNetCore.JsonPatch/Internal/PatchPocoObject.cs:38-74 | a readable property reads back the converted value after add or replace, and its type's default after remove; the other properties keep their values |
| PatchObjects.PatchPocoObject.WritabilityCheckedFirst | src/Microsoft.AspNetCore.JsonPatch/Internal/PatchPocoObject.cs:76-85 | on a read-only property, add, replace and remove fail with cannot-update-property whatever the value |
| PatchOperations.Logged | src/Microsoft.AspNetCore.JsonPatch/Internal/ArrayPatchOperation.cs:153-165 | with a sink the error is handed to it and the call goes on; without one the error is thrown; the state is untouched |
| PatchOperations.LogError | src/Microsoft.AspNetCore.JsonPatch/Internal/ArrayPatchOperation.cs:153-165 | the sink gets exactly the error appended when there is one; otherwise the outcome is the thrown `JsonPatchException` |
| PatchOperations.ArrayPatchOperation.constructor | src/Microsoft.AspNetCore.JsonPatch/Internal/ArrayPatchOperation.cs:23-38 | the operation holds the list, segment, sink, path and operation, and the element type of the list (`object` when it has none) |
| PatchOperations.ArrayPatchOperation.Add | src/Microsoft.AspNetCore.JsonPatch/Internal/ArrayPatchOperation.cs:40-77 | the list, the errors logged and the outcome are those of the add effect: convert first, append for `-` or the length, insert inside, and otherwise report invalid-index or throw for a non-number |
| PatchOperations.ArrayPatchOperation.Remove | src/Microsoft.AspNetCore.JsonPatch/Internal/ArrayPatchOperation.cs:79-105 | the list, the errors logged and the outcome are those of the remove effect: last element for `-`, element p inside, and invalid-index otherwise |
| PatchOperations.ArrayPatchOperation.Replace | src/Microsoft.AspNetCore.JsonPatch/Internal/ArrayPatchOperation.cs:107-111 | the list, the errors logged and the outcome are those of remove followed by add |
| PatchOperations.ArrayPatchOperation.Get | src/Microsoft.AspNetCore.JsonPatch/Internal/ArrayPatchOperation.cs:142-151 | the element at the position, and a value returned is an element of the list |
| PatchOperations.ArrayPatchOperation.AddThenGetAndRemove | src/Microsoft.AspNetCore.JsonPatch/Internal/ArrayPatchOperation.cs:40-151 | an add at a position up to the length inserts the converted value there without logging anything; get reads it back, and remove restores the list |
| PatchOperations.ArrayPatchOperation.ReplaceAtPositionOverwrites | src/Microsoft.AspNetCore.JsonPatch/Internal/ArrayPatchOperation.cs:107-111 | replace inside the list with a convertible value overwrites that element and logs nothing |
| PatchOperations.ArrayPatchOperation.ReplaceWithUnconvertibleValueDropsElement | src/Microsoft.AspNetCore.JsonPatch/Internal/ArrayPatchOperation.cs:107-111 | replace with an unconvertible value removes the element and does not put it back, then reports invalid-value |
| PatchOperations.ArrayPatchOperation.ReplaceAtCountAppends | src/Microsoft.AspNetCore.JsonPatch/Internal/ArrayPatchOperation.cs:107-111 | with a sink, replace at the length logs invalid-index for the remove and then appends the value |
| PatchOperations.ArrayPatchOperation.InvalidPositions | src/Microsoft.AspNetCore.JsonPatch/Internal/ArrayPatchOperation.cs:40-105 | an integer outside the list leaves it unchanged and logs or throws invalid-index; a non-number throws `InvalidOperationException` on add |
| PatchOperations.TryParseNotEndOfList | src/Microsoft.AspNetCore.JsonPatch/Internal/ArrayPatchOperation.cs:49-52 | `-` is not an integer, so it takes the end-of-list branch only |
| PatchOperations.CastTo | src/Microsoft.AspNetCore.JsonPatch/Internal/DictionaryWrapper.cs:66-69 | an instance of the type is kept; anything else becomes the type's default |
| PatchOperations.DictionaryWrapper.constructor | src/Microsoft.AspNetCore.JsonPatch/Internal/DictionaryWrapper.cs:15-23 | the wrapper holds the dictionary |
| PatchOperations.DictionaryWrapper.GetValue | src/Microsoft.AspNetCore.JsonPatch/Internal/DictionaryWrapper.cs:32-36 | the value at the resolved key, or `KeyNotFoundException` |
| PatchOperations.DictionaryWrapper.ContainsKey | src/Microsoft.AspNetCore.JsonPatch/Internal/DictionaryWrapper.cs:60-64 | true exactly when some stored key equals the key ignoring case |
| PatchOperations.DictionaryWrapper.SetValue | src/Microsoft.AspNetCore.JsonPatch/Internal/DictionaryWrapper.cs:38-52 | the dictionary becomes the set result at the resolved key, or it is unchanged and the call throws; nothing else changes |
| PatchOperations.DictionaryWrapper.RemoveValue | src/Microsoft.AspNetCore.JsonPatch/Internal/DictionaryWrapper.cs:54-58 | the entry at the resolved key is removed, and nothing happens when it is absent |
| PatchOperations.DictionaryWrapper.SetThenGet | src/Microsoft.AspNetCore.JsonPatch/Internal/DictionaryWrapper.cs:38-52 | after a set the key is contained, and it reads back the value cast to the value type unless the string-to-object path converted it |
| PatchOperations.DictionaryWrapper.SetOverNullMemberThrows | src/Microsoft.AspNetCore.JsonPatch/Internal/DictionaryWrapper.cs:42-49 | on the string-to-object path, setting over a null member throws `NullReferenceException` |
| PatchOperations.DictionaryWrapper.SetWithFailedConversionStoresNull | src/Microsoft.AspNetCore.JsonPatch/Internal/DictionaryWrapper.cs:42-49 | on the string-to-object path, a value that does not convert to the existing member's type is stored as null |
| PatchOperations.DictionaryWrapper.RemoveThenAbsent | src/Microsoft.AspNetCore.JsonPatch/Internal/DictionaryWrapper.cs:54-64 | after a remove the key is not contained and get throws `KeyNotFoundException` |
| PatchOperations.SameKeysAfterPut | src/Microsoft.AspNetCore.JsonPatch/Internal/DictionaryWrapper.cs:42-49 | setting an existing key keeps every key and its casing |
| PatchOperations.KeyForAfterPut | src/Microsoft.AspNetCore.JsonPatch/Internal/DictionaryWrapper.cs:38-52 | after a set at the resolved key, the resolved key reads back the value |
| PatchOperations.DictionaryPatchOperation.constructor | src/Microsoft.AspNetCore.JsonPatch/Internal/DictionaryPatchOperation.cs:18-30 | the operation holds the wrapper, key, sink, path and operation |
| PatchOperations.DictionaryPatchOperation.Add | src/Microsoft.AspNetCore.JsonPatch/Internal/DictionaryPatchOperation.cs:32-35 | the dictionary and outcome are those of the wrapper's set: the new entries and a pass when the set succeeds, and a `NullReferenceException` with the entries unchanged when it throws over a null member |
| PatchOperations.DictionaryPatchOperation.Replace | src/Microsoft.AspNetCore.JsonPatch/Internal/DictionaryPatchOperation.cs:51-54 | the same as add: no existence check, so a missing key is inserted; the wrapper's `NullReferenceException` over a null member comes back with the entries unchanged |
| PatchOperations.DictionaryPatchOperation.Get | src/Microsoft.AspNetCore.JsonPatch/Internal/DictionaryPatchOperation.cs:37-40 | the wrapper's get of the same key |
| PatchOperations.DictionaryPatchOperation.Remove | src/Microsoft.AspNetCore.JsonPatch/Internal/DictionaryPatchOperation.cs:42-49 | the dictionary, the errors logged and the outcome of the remove effect: a missing key reports cannot-perform and, with a sink, then removes nothing; a present key is removed |
| PatchOperations.DictionaryPatchOperation.RemoveAbsentKey | src/Microsoft.AspNetCore.JsonPatch/Internal/DictionaryPatchOperation.cs:42-49 | removing a missing key leaves the dictionary as it is and logs or throws cannot-perform |
| PatchOperations.PocoPatchOperation.constructor | src/Microsoft.AspNetCore.JsonPatch/Internal/PocoPatchOperation.cs:21-35 | the operation holds the target, property, sink, path and operation |
| PatchOperations.PocoPatchOperation.Add | src/Microsoft.AspNetCore.JsonPatch/Internal/PocoPatchOperation.cs:37-53 | the properties, errors logged and outcome of the add effect: invalid-value before not-writable, and the property is written only when neither applies |
| PatchOperations.PocoPatchOperation.Replace | src/Microsoft.AspNetCore.JsonPatch/Internal/PocoPatchOperation.cs:84-94 | the properties, errors logged and outcome of the replace effect: only convertibility is checked |
| PatchOperations.PocoPatchOperation.Remove | src/Microsoft.AspNetCore.JsonPatch/Internal/PocoPatchOperation.cs:65-82 | the properties, errors logged and outcome of the remove effect: a writable property is reset to its type's default |
| PatchOperations.PocoPatchOperation.Get | src/Microsoft.AspNetCore.JsonPatch/Internal/PocoPatchOperation.cs:55-63 | the value or the thrown error of the get effect, and the sink gets its logged errors |
| PatchOperations.PocoPatchOperation.WriteEffects | src/Microsoft.AspNetCore.JsonPatch/Internal/PocoPatchOperation.cs:37-94 | replace writes any convertible value even to a read-only property; add writes only to a writable one; an unconvertible value reports invalid-value and writes nothing |
| PatchOperations.PocoPatchOperation.WriteThenGet | src/Microsoft.AspNetCore.JsonPatch/Internal/PocoPatchOperation.cs:37-94 | a readable property reads back the converted value after a successful replace, and after a successful add when writable |
| PatchOperations.PocoPatchOperation.GetUnreadableWithSink | src/Microsoft.AspNetCore.JsonPatch/Internal/PocoPatchOperation.cs:55-63 | with a sink, get on an unreadable property logs cannot-read-property and still returns the value |
| ObjectVisitor2.SelectAdapter | src/Microsoft.AspNetCore.JsonPatch/Internal/ObjectVisitor2.cs:54-72 | expando before dictionary, dictionary before list, list before plain object, each an if-and-only-if over the target's kind |
| ObjectVisitor2.Visit | src/Microsoft.AspNetCore.JsonPatch/Internal/ObjectVisitor2.cs:28-52 | a null target is not visited; otherwise the outcome is the walk over all segments but the last |
| ObjectVisitor2.VisitStep | src/Microsoft.AspNetCore.JsonPatch/Internal/ObjectVisitor2.cs:38-51 | each non-final segment is traversed with the adapter selected for the current target; the walk goes on from the value reached, and stops at the first failed traversal |
| ObjectVisitor2.VisitedAdapterFitsTarget | src/Microsoft.AspNetCore.JsonPatch/Internal/ObjectVisitor2.cs:28-72 | a successful visit answers the adapter that selection picks for the final target |
| ObjectVisitor2.VisitIgnoresLastSegment | src/Microsoft.AspNetCore.JsonPatch/Internal/ObjectVisitor2.cs:38-51 | the last segment never affects the walk |
| ObjectVisitor2.DictionaryAdapter.TryAdd | src/Microsoft.AspNetCore.JsonPatch/Internal/ObjectVisitor2.cs:76-85 | the dictionary becomes the indexer's set; only the entries change |
| ObjectVisitor2.DictionaryAdapter.TryGet | src/Microsoft.AspNetCore.JsonPatch/Internal/ObjectVisitor2.cs:87-94 | the stored value, or null for a missing key |
| ObjectVisitor2.DictionaryAdapter.TryRemove | src/Microsoft.AspNetCore.JsonPatch/Internal/ObjectVisitor2.cs:96-109 | a present key is removed; a missing one is refused with the dictionary unchanged |
| ObjectVisitor2.DictionaryAdapter.TryReplace | src/Microsoft.AspNetCore.JsonPatch/Internal/ObjectVisitor2.cs:111-124 | a present key is overwritten; a missing one is refused with the dictionary unchanged |
| ObjectVisitor2.DictionaryAdapter.TryTraverse | src/Microsoft.AspNetCore.JsonPatch/Internal/ObjectVisitor2.cs:126-145 | reaches the stored value exactly when the target is a dictionary holding the key, and never throws |
| ObjectVisitor2.DictionaryAdapter.Semantics | src/Microsoft.AspNetCore.JsonPatch/Internal/ObjectVisitor2.cs:76-124 | add always succeeds and reads back, leaves other keys alone, and grows the count only for a new key; remove leaves the key absent; remove and replace of a missing key are refused |
| ObjectVisitor2.ExpandoObjectAdapter.TryAdd | src/Microsoft.AspNetCore.JsonPatch/Internal/ObjectVisitor2.cs:150-160 | always succeeds; the member at the resolved key becomes the converted value |
| ObjectVisitor2.ExpandoObjectAdapter.TryGet | src/Microsoft.AspNetCore.JsonPatch/Internal/ObjectVisitor2.cs:162-170 | the value at the resolved key, or the missing-key exception |
| ObjectVisitor2.ExpandoObjectAdapter.TryRemove | src/Microsoft.AspNetCore.JsonPatch/Internal/ObjectVisitor2.cs:172-186 | a present key is removed; a missing one is refused with the members unchanged |
| ObjectVisitor2.ExpandoObjectAdapter.TryReplace | src/Microsoft.AspNetCore.JsonPatch/Internal/ObjectVisitor2.cs:188-202 | a present key is overwritten with the converted value; a missing one is refused with the members unchanged |
| ObjectVisitor2.ExpandoObjectAdapter.TryTraverse | src/Microsoft.AspNetCore.JsonPatch/Internal/ObjectVisitor2.cs:204-224 | reaches a member only through a generic string-to-object dictionary, at the case-insensitive match, and never throws |
| ObjectVisitor2.ExpandoObjectAdapter.TraversesValidExpando | src/Microsoft.AspNetCore.JsonPatch/Internal/ObjectVisitor2.cs:204-224 | on an `ExpandoObject` the traversal succeeds exactly when a member matches the segment ignoring case |
| ObjectVisitor2.ListAdapter.ListTypeArgument | src/Microsoft.AspNetCore.JsonPatch/Internal/ObjectVisitor2.cs:417-443 | the element type exactly when the list is generic and not an array; never throws |
| ObjectVisitor2.ListAdapter.ValidatePosition | src/Microsoft.AspNetCore.JsonPatch/Internal/ObjectVisitor2.cs:445-462 | no message exactly when the position is an index or the end of the list |
| ObjectVisitor2.ListAdapter.Checked | src/Microsoft.AspNetCore.JsonPatch/Internal/ObjectVisitor2.cs:246-279 | the element type is checked before the position, and both pass exactly when the list is generic and the position usable |
| ObjectVisitor2.ListAdapter.TryAdd | src/Microsoft.AspNetCore.JsonPatch/Internal/ObjectVisitor2.cs:246-279 | the list becomes the add attempt's result, or it is unchanged on refusal; only the list changes |
| ObjectVisitor2.ListAdapter.TryGet | src/Microsoft.AspNetCore.JsonPatch/Internal/ObjectVisitor2.cs:281-310 | the get attempt: the element at the position or the last for `-`, or a refusal |
| ObjectVisitor2.ListAdapter.TryRemove | src/Microsoft.AspNetCore.JsonPatch/Internal/ObjectVisitor2.cs:312-339 | the list becomes the remove attempt's result, or it is unchanged on refusal |
| ObjectVisitor2.ListAdapter.TryReplace | src/Microsoft.AspNetCore.JsonPatch/Internal/ObjectVisitor2.cs:341-374 | the list becomes the replace attempt's result, or it is unchanged on refusal |
| ObjectVisitor2.ListAdapter.TryTraverse | src/Microsoft.AspNetCore.JsonPatch/Internal/ObjectVisitor2.cs:376-400 | a non-list is not found; a list is entered exactly at an integer inside it; anything else throws instead of answering false |
| ObjectVisitor2.ListAdapter.AddThenGetAndRemove | src/Microsoft.AspNetCore.JsonPatch/Internal/ObjectVisitor2.cs:246-339 | a successful add grows the list by one with the converted value at the position, or at the end for `-`; removing there restores the list |
| ObjectVisitor2.ListAdapter.AddAtCountRefused | src/Microsoft.AspNetCore.JsonPatch/Internal/ObjectVisitor2.cs:246-279 | add at the position equal to the length is refused as an invalid index |
| ObjectVisitor2.ListAdapter.ReplaceKeepsLength | src/Microsoft.AspNetCore.JsonPatch/Internal/ObjectVisitor2.cs:341-374 | a successful replace keeps the length and writes the converted value at the position, or at the last element for `-` |
| ObjectVisitor2.PocoAdapter.TryAdd | src/Microsoft.AspNetCore.JsonPatch/Internal/ObjectVisitor2.cs:512-538 | the properties become the write attempt's result, or they are unchanged on refusal |
| ObjectVisitor2.PocoAdapter.TryReplace | src/Microsoft.AspNetCore.JsonPatch/Internal/ObjectVisitor2.cs:590-616 | the same as add |
| ObjectVisitor2.PocoAdapter.TryRemove | src/Microsoft.AspNetCore.JsonPatch/Internal/ObjectVisitor2.cs:562-588 | the property is reset to its type's default, or the properties are unchanged on refusal |
| ObjectVisitor2.PocoAdapter.TryGet | src/Microsoft.AspNetCore.JsonPatch/Internal/ObjectVisitor2.cs:540-560 | the get attempt: the property's value, or a refusal for a missing or unreadable property |
| ObjectVisitor2.PocoAdapter.TryTraverse | src/Microsoft.AspNetCore.JsonPatch/Internal/ObjectVisitor2.cs:618-635 | reaches the property's value exactly when the target has a property of that name ignoring case; never throws |
| ObjectVisitor2.PocoAdapter.CheckOrder | src/Microsoft.AspNetCore.JsonPatch/Internal/ObjectVisitor2.cs:512-588 | a missing property is refused before a read-only one, and a read-only one before an unconvertible value |
| ObjectVisitor2.PocoAdapter.WriteThenGet | src/Microsoft.AspNetCore.JsonPatch/Internal/ObjectVisitor2.cs:512-616 | a readable property reads back the converted value after a write and its type's default after a remove; the other properties keep their values |
| VisitorChain.NullOnlyWhenExhausted | src/Microsoft.AspNetCore.JsonPatch/Internal/ObjectVisitor.cs:23-37 | the chain answers no adapter exactly when no segment is left |
| VisitorChain.DispatchNeverNull | src/Microsoft.AspNetCore.JsonPatch/Internal/PocoVisitor.cs:13-42 | once a segment is taken, some visitor answers, because the plain-object visitor never answers null |
| VisitorChain.StepNullOnlyWhenUnhandled | src/Microsoft.AspNetCore.JsonPatch/Internal/ObjectVisitor.cs:27-34 | a visitor answers null only for a target of a kind it does not handle |
| VisitorChain.FinalSegmentAdapter | src/Microsoft.AspNetCore.JsonPatch/Internal/ObjectVisitor.cs:16-37 | for one segment: an expando, a dictionary or a list gets its own adapter in that order, without an existence check; null throws; any other object can only get a plain-object adapter |
| VisitorChain.ExpandoMissReachesPocoVisitor | src/Microsoft.AspNetCore.JsonPatch/Internal/ObjectVisitor.cs:16-20 | an expando that lacks the member is passed on to the later visitors instead of failing |
| VisitorChain.IntermediateErrors | src/Microsoft.AspNetCore.JsonPatch/Internal/ListVisitor.cs:11-48 | on a non-final segment, a missing dictionary key throws cannot-perform; for a list, a non-number throws invalid-path and an integer outside it throws invalid-index |
| VisitorChain.ObjectVisitor.GetAdapter | src/Microsoft.AspNetCore.JsonPatch/Internal/ObjectVisitor.cs:23-37 | the answer, the final target and the cursor are those of the chain's walk from the context |
| VisitorChain.ObjectVisitor.AskInTurn | src/Microsoft.AspNetCore.JsonPatch/Internal/ObjectVisitor.cs:27-34 | the visitors are asked in order, and the first answer that is not null is taken |
| VisitorChain.ObjectVisitor.Ask | src/Microsoft.AspNetCore.JsonPatch/Internal/ObjectVisitor.cs:30 | asks one visitor and gives its answer and the context it leaves |
| VisitorChain.ExpandoObjectVisitor.GetAdapter | src/Microsoft.AspNetCore.JsonPatch/Internal/ObjectVisitor.cs:17 | the expando step of the chain: an adapter on the final segment, a descent on a present member, and null otherwise |
| VisitorChain.DictionaryVisitor.GetAdapter | src/Microsoft.AspNetCore.JsonPatch/Internal/DictionaryVisitor.cs:11-40 | null for a non-dictionary; an adapter on the final segment; a descent and re-dispatch on a present key; cannot-perform on a missing key |
| VisitorChain.ListVisitor.GetAdapter | src/Microsoft.AspNetCore.JsonPatch/Internal/ListVisitor.cs:11-48 | null for a non-list; an adapter on the final segment; invalid-path for a non-number; invalid-index outside the list; a descent into the element otherwise |
| VisitorChain.PocoVisitor.GetAdapter | src/Microsoft.AspNetCore.JsonPatch/Internal/PocoVisitor.cs:13-42 | an adapter for the property on the final segment; a descent into its value otherwise; cannot-perform without an object contract or the property; never null |
| OlderVisitors.DictionaryObjectVisitor.Visit | src/Microsoft.AspNetCore.JsonPatch/Internal/DictionaryObjectVisitor.cs:10-39 | the cursor moves to the next segment; the result is no patch object when the segments are exhausted or the key is missing, a dictionary patch object on the final segment, and a descent to the stored value otherwise |
| OlderVisitors.ExpandoObjectVisitor.Visit | src/Microsoft.AspNetCore.JsonPatch/Internal/ExpandoObjectVisitor.cs:11-36 | the cursor moves on; the result is an expando patch object on the final segment, holding the resolved key, a case-insensitive descent on a present member, and no patch object on a miss |
| OlderVisitors.ListObjectVisitor.Visit | src/Microsoft.AspNetCore.JsonPatch/Internal/ListObjectVisitor.cs:12-52 | the cursor moves on; the result is a list patch object on the final segment, or its rejection; invalid-path for a non-number; invalid-index outside the list; a descent into the element otherwise |
| OlderVisitors.DictionaryGenerationsDiffer | src/Microsoft.AspNetCore.JsonPatch/Internal/DictionaryObjectVisitor.cs:29-38 | on a present key the older visitor and the chain descend to the same value; on a missing key the older one answers no patch object where the chain throws cannot-perform |
| OlderVisitors.ExpandoGenerationsAgree | src/Microsoft.AspNetCore.JsonPatch/Internal/ExpandoObjectVisitor.cs:26-35 | the older expando visitor stops exactly when the chain's expando step answers null, and both descend to the same member |
| OlderVisitors.ListGenerationsAgree | src/Microsoft.AspNetCore.JsonPatch/Internal/ListObjectVisitor.cs:30-50 | the older list visitor throws exactly when the chain does, with the same exception, and both descend to the same element |
| OlderVisitors.ListFinalSegmentCheckedEarly | src/Microsoft.AspNetCore.JsonPatch/Internal/ListObjectVisitor.cs:24-27 | an invalid last segment is rejected by the older visitor when the handle is made, but the chain still hands out an adapter |
| ObjectTreeAnalyzer.Analyze | src/Microsoft.AspNetCore.JsonPatch/Internal/ObjectTreeAnalyzer.cs:16-132 | the patch object, or the exception, is exactly what the walk over the split path gives |
| ObjectTreeAnalyzer.AnalyzeSegment | src/Microsoft.AspNetCore.JsonPatch/Internal/ObjectTreeAnalyzer.cs:32-124 | one turn of the loop: go on to the next target, leave the loop, or return; each choice is the one the walk makes |
| ObjectTreeAnalyzer.MadeOnFinalSegment | src/Microsoft.AspNetCore.JsonPatch/Internal/ObjectTreeAnalyzer.cs:36-123 | a patch object is made only for the last segment of a non-empty path, on its text, and a property is the one whose name matches it ignoring case |
| ObjectTreeAnalyzer.StopsAtMissingStep | src/Microsoft.AspNetCore.JsonPatch/Internal/ObjectTreeAnalyzer.cs:27-129 | a null target, a missing dictionary or expando key, or a missing property on a non-final segment ends in cannot-perform naming the full path |
| ObjectTreeAnalyzer.NullElementIsInvalidIndex | src/Microsoft.AspNetCore.JsonPatch/Internal/ObjectTreeAnalyzer.cs:85-89 | on a non-final list segment, an index outside the list, or one whose element is null, raises invalid-index |
| ObjectTreeAnalyzer.FinalSegmentAgreesWithChain | src/Microsoft.AspNetCore.JsonPatch/Internal/ObjectTreeAnalyzer.cs:36-73 | the analyzer asks about a dictionary before an expando and the chain in the other order; on well-formed objects both pick the same kind of location for one segment |

## Left out

- Newtonsoft re-encoding (`JToken`, `JObject`, `JsonConvert` round trips), `IsAssignableFrom` and `Activator.CreateInstance` are foreign library calls. They are oracles in the `Runtime` parameter.
- Reflection is replaced by type tags, interface flags and property descriptors on `Obj`. This covers `IsArray`, `ClosedGenericMatcher`, `GetIListTypeArgument`, `IsGenericListType`, `ResultHelper.IsDictionary`, `ResolveContract` and `ValueProvider`. A value provider that throws is not modelled.
- Message text from the resource strings is not modelled. Errors are a message-kind datatype carrying the operation name and the path. The contract type name after "Uncrecognized contract:" is not part of this model.
- `int.TryParse` culture and whitespace handling is not modelled. The parser accepts an optional sign and decimal digits within 32 bits.
- Case-insensitive comparison is an ASCII fold. Culture-aware folding of other characters is not modelled.
- Dictionary keys are strings. `DictionaryWrapper`'s path for non-string keys, which converts the key through JSON, is not modelled.
- A .NET `Dictionary` may reuse the slot of a removed entry. The model appends new keys at the end, so enumeration order after a remove-then-add may differ.
- Null key or segment arguments (`ArgumentNullException` for a null property name or operation) are not modelled, because strings are never null here. Null targets are modelled.
- `InvalidCastException` from casting the target to the visitor's own kind is not modelled. Each older visitor requires its target to be null or of its kind, which excludes scalars; the adapters take an `Obj` reference, so no scalar reaches them, and `DictionaryAdapter` also requires a dictionary.
- `ParsedPath` and `JsonPatchContext` are not part of this model. `ObjectVisitor2.Visit` takes the split segments directly.
- `PatchDictionaryObject` is not part of this model. The analyzer's dictionary result is the `DictionaryPatch` descriptor of the target and segment.
- The older generation's `ObjectVisitor.Visit` is not part of this model. A descent by an older visitor is reported as `Revisit` with the context moved to the new target.
- The `DictionaryAdapter`, `ListAdapter` and `PocoAdapter` constructors that the chain's visitors call are not part of this model. The chain answers with a descriptor of the adapter's kind, target and segment.
- Enumerables other than lists are not modelled in `ResultHelper.GetElementAtFromObject`. `Enumeration` gives the elements of a list, and nothing for anything else.
- `InvalidResult`, `ExceptionHelper` and the `IAdapter`, `IPatchObject`, `IPatchOperation` and `IDictionaryWrapper` interfaces carry no behaviour.
- Move, copy, test and patch-document parsing are not in these sources.
- JSON Pointer `~0`/`~1` unescaping (section 4 of RFC 6901) is not modelled, because the code only splits on `/`.
- `PathSegment.ToString` and the implicit conversion to string are the datatype's `value` field.
- Concurrency is not modelled, because the engine is sequential.

## Findings

| source | as written | input that shows it | evidently intended | confidence | as-written member | corrected member |
|---|---|---|---|---|---|---|
| src/Microsoft.AspNetCore.JsonPatch/Internal/ResultHelper.cs:46-48 | the guard `Count() >= index` lets an index equal to the element count through to `ElementAt`, which throws `ArgumentOutOfRangeException` | a list of two elements and index 2 | null for every index outside the elements, as the analyzer's own copy does (ObjectTreeAnalyzer.cs:139-147) | not executed | ResultHelper.GetElementAtFromObjectThrowsAtCount | ResultHelper.ElementAtOrNull |
