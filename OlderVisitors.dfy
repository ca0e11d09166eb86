/**
 * The patch-object generation's visitors: `DictionaryObjectVisitor`,
 * `ExpandoObjectVisitor` and `ListObjectVisitor`. Each takes the next segment from the
 * operation context; at the final segment it makes the patch object for its kind of
 * target, before it it moves the context to the child the segment names and hands it
 * back to `ObjectVisitor.Visit`, and otherwise it answers null or throws.
 *
 * `ObjectVisitor.Visit`, which picks the visitor by the target's type and which the
 * visitors call after descending, is not part of this model: a descent is reported as
 * `Revisit`, with the context left on the child.
 */
module OlderVisitors {
  import opened Values
  import opened Collections
  import opened Numbers
  import opened ExpandoExtensions
  import opened Paths
  import opened PatchObjects
  import opened Positions
  import VisitorChain

  /** What one visit decides, as a function of the target and the cursor. */
  datatype Step =
    | Stop                       // null: no segment left, or nothing to descend into
    | Make(segment: PathSegment) // the patch object for the final segment
    | Descend(child: Value)      // move to the child and visit again
    | Raise(exception: Exception)

  /** What a visitor returns: null, a patch object, or an exception; `Revisit` is the
      descent, whose result is `ObjectVisitor.Visit`'s. */
  datatype Visited =
    | NoPatchObject
    | Made(patch: PatchObject)
    | Revisit
    | Threw(exception: Exception)

  /** The object a target refers to, or null. */
  function ObjOf(target: Value): (o: Obj?)
    ensures o != null <==> target.Ref?
    ensures o != null ==> o == target.obj
  {
    if target.Ref? then target.obj else null
  }

  /** The targets a visitor is handed: null, or an object the cast to its kind
      succeeds on. A scalar is neither, so the cast would throw before anything else. */
  predicate IsDictionaryOrNull(target: Value) { target.Null? || (target.Ref? && target.obj.isDictionary) }
  predicate IsExpandoOrNull(target: Value) { target.Null? || (target.Ref? && target.obj.isExpando) }
  predicate IsListOrNull(target: Value) { target.Null? || (target.Ref? && target.obj.isList) }

  // ======== the decisions ========

  /** `DictionaryObjectVisitor.Visit`: the key is the segment's text; a missing key is
      not an error, and a null dictionary fails at the lookup. */
  function DictionaryObjectStep(target: Value, segments: seq<string>, index: int): Step
    requires -1 <= index < |segments|
    reads if target.Ref? then {target.obj} else {}
  {
    if index + 1 >= |segments| then Stop
    else
      var segment := SegmentAt(segments, index + 1);
      if segment.isFinal then Make(segment)
      else if target.Null? || target.Scalar? then Raise(NullReferenceException)
      else if HasKey(target.obj.entries, segment.value, target.obj.ignoreCase) then
        Descend(NonGenericGet(target.obj.entries, segment.value, target.obj.ignoreCase))
      else Stop
  }

  /** `ExpandoObjectVisitor.Visit`: members are matched ignoring case; a missing member
      is not an error. */
  function ExpandoObjectStep(target: Value, segments: seq<string>, index: int): Step
    requires -1 <= index < |segments|
    reads if target.Ref? then {target.obj} else {}
  {
    if index + 1 >= |segments| then Stop
    else
      var segment := SegmentAt(segments, index + 1);
      if segment.isFinal then
        (if target.Ref? then Make(segment) else Raise(ArgumentNullException))
      else if !target.Ref? then Raise(NullReferenceException)
      else if HasKey(target.obj.entries, segment.value, true) then
        Descend(ValueIgnoringCase(target.obj.entries, segment.value).value)
      else Stop
  }

  /** `ListObjectVisitor.Visit`: the final segment is checked when the patch object is
      made; an earlier segment must be an integer and a position of the list. */
  function ListObjectStep(target: Value, segments: seq<string>, index: int, operation: Operation): Step
    requires -1 <= index < |segments|
    reads if target.Ref? then {target.obj} else {}
  {
    if index + 1 >= |segments| then Stop
    else
      var segment := SegmentAt(segments, index + 1);
      if segment.isFinal then
        (match ListObjectRejection(ObjOf(target), segment.value, operation)
         case Some(e) => Raise(e)
         case None => Make(segment))
      else match TryParseInt32(segment.value)
        case None =>
          Raise(JsonPatchException(PatchError(target, operation,
            InvalidPathForArrayProperty(operation.op, operation.path))))
        case Some(position) =>
          if !target.Ref? then Raise(NullReferenceException)
          else if position < 0 || position >= |target.obj.items| then
            Raise(JsonPatchException(PatchError(target, operation,
              InvalidIndexForArrayProperty(operation.op, operation.path))))
          else Descend(target.obj.items[position])
  }

  /** Where a visit leaves the cursor: on the next segment when there is one. */
  function NextIndex(segments: seq<string>, index: int): int {
    if index + 1 < |segments| then index + 1 else index
  }

  // ======== the visitors ========

  class DictionaryObjectVisitor {
    static method Visit(context: OperationContext) returns (r: Visited)
      requires context.Valid() && IsDictionaryOrNull(context.target)
      modifies context`index, context`target
      ensures context.Valid() && context.index == NextIndex(context.segments, old(context.index))
      ensures var step := DictionaryObjectStep(old(context.target), context.segments, old(context.index));
        && (step.Stop? ==> r == NoPatchObject && context.target == old(context.target))
        && (step.Make? ==> r == Made(DictionaryPatch(context.target, step.segment.value)) && context.target == old(context.target))
        && (step.Descend? ==> r == Revisit && context.target == step.child)
        && (step.Raise? ==> r == Threw(step.exception) && context.target == old(context.target))
    {
      var pathSegment := context.TryGetSegment();
      if pathSegment.None? {
        return NoPatchObject;
      }
      var segment := pathSegment.value;
      var key := segment.value;
      if segment.isFinal {
        return Made(DictionaryPatch(context.target, segment.value));
      }
      if !context.target.Ref? {
        return Threw(NullReferenceException);
      }
      var dictionary := context.target.obj;
      if HasKey(dictionary.entries, key, dictionary.ignoreCase) {
        var newTargetObject := NonGenericGet(dictionary.entries, key, dictionary.ignoreCase);
        context.SetNewTargetObject(newTargetObject);
        return Revisit;
      }
      return NoPatchObject;
    }
  }

  class ExpandoObjectVisitor {
    static method Visit(context: OperationContext) returns (r: Visited)
      requires context.Valid() && IsExpandoOrNull(context.target)
      modifies context`index, context`target
      ensures context.Valid() && context.index == NextIndex(context.segments, old(context.index))
      ensures var step := ExpandoObjectStep(old(context.target), context.segments, old(context.index));
        && (step.Stop? ==> r == NoPatchObject && context.target == old(context.target))
        && (step.Make? ==> (
              && context.target == old(context.target) && context.target.Ref? && r.Made? && r.patch.ExpandoPatch?
              && r.patch.expando.dictionary == context.target.obj && r.patch.expando.operation == context.operation
              && r.patch.expando.key == KeyFor(context.target.obj.entries, step.segment.value)))
        && (step.Descend? ==> r == Revisit && context.target == step.child)
        && (step.Raise? ==> r == Threw(step.exception) && context.target == old(context.target))
    {
      var pathSegment := context.TryGetSegment();
      if pathSegment.None? {
        return NoPatchObject;
      }
      var segment := pathSegment.value;
      if segment.isFinal {
        var made := PatchExpandoObject.Create(ObjOf(context.target), segment.value, context.operation);
        if made.Failure? {
          return Threw(made.exception);
        }
        return Made(ExpandoPatch(made.value));
      }
      if !context.target.Ref? {
        return Threw(NullReferenceException);
      }
      var dictionary := context.target.obj;
      var found := ContainsCaseInsensitiveKey(dictionary, segment.value);
      if found {
        var newTargetObject := GetValueForCaseInsensitiveKey(dictionary, segment.value);
        ValueIgnoringCaseSucceedsIffPresent(dictionary.entries, segment.value);
        context.SetNewTargetObject(newTargetObject.value);
        return Revisit;
      }
      return NoPatchObject;
    }
  }

  class ListObjectVisitor {
    static method Visit(context: OperationContext) returns (r: Visited)
      requires context.Valid() && IsListOrNull(context.target)
      modifies context`index, context`target
      ensures context.Valid() && context.index == NextIndex(context.segments, old(context.index))
      ensures var step := ListObjectStep(old(context.target), context.segments, old(context.index), context.operation);
        && (step.Stop? ==> r == NoPatchObject && context.target == old(context.target))
        && (step.Make? ==> (
              && context.target == old(context.target) && context.target.Ref? && r.Made? && r.patch.ListPatch? && r.patch.list.Valid()
              && r.patch.list.list == context.target.obj && r.patch.list.operation == context.operation
              && r.patch.list.positionInfo == GetPositionInfo(step.segment.value, |context.target.obj.items|)))
        && (step.Descend? ==> r == Revisit && context.target == step.child)
        && (step.Raise? ==> r == Threw(step.exception) && context.target == old(context.target))
    {
      var pathSegment := context.TryGetSegment();
      if pathSegment.None? {
        return NoPatchObject;
      }
      var segment := pathSegment.value;
      if segment.isFinal {
        var made := PatchListObject.Create(ObjOf(context.target), segment.value, context.operation);
        if made.Failure? {
          return Threw(made.exception);
        }
        return Made(ListPatch(made.value));
      }
      var index := TryParseInt32(segment.value);
      if index.None? {
        return Threw(JsonPatchException(PatchError(context.target, context.operation,
          InvalidPathForArrayProperty(context.operation.op, context.operation.path))));
      }
      if !context.target.Ref? {
        return Threw(NullReferenceException);
      }
      var list := context.target.obj;
      if index.value < 0 || index.value >= |list.items| {
        return Threw(JsonPatchException(PatchError(context.target, context.operation,
          InvalidIndexForArrayProperty(context.operation.op, context.operation.path))));
      }
      context.SetNewTargetObject(list.items[index.value]);
      return Revisit;
    }
  }

  // ======== this generation against the visitor chain ========

  /** Before the final segment both dictionary visitors follow a present key to the
      same child; on a missing key this generation answers null where the chain's
      `DictionaryVisitor` throws. */
  lemma DictionaryGenerationsDiffer(graph: set<Obj>, o: Obj, segments: seq<string>, i: int, operation: Operation)
    requires Closed(graph) && o in graph && o.isDictionary
    requires 0 <= i < |segments| - 1
    ensures var older := DictionaryObjectStep(Ref(o), segments, i - 1);
      var newer := VisitorChain.VisitorStep(graph, VisitorChain.DictionaryVisitor, Ref(o), segments, i, operation);
      && (HasKey(o.entries, segments[i], o.ignoreCase) ==>
            older.Descend? && newer == VisitorChain.GetAdapterFrom(graph, older.child, segments, i, operation))
      && (!HasKey(o.entries, segments[i], o.ignoreCase) ==>
            older == Stop && newer.result == VisitorChain.Thrown(VisitorChain.CannotPerform(Ref(o), operation)))
  {
    if HasKey(o.entries, segments[i], o.ignoreCase) {
      VisitorChain.InGraphAt(graph, o, IndexOf(o.entries, segments[i], o.ignoreCase).value);
    }
  }

  /** Before the final segment the expando visitors agree: both follow a member matched
      ignoring case to the same child, and both answer null for a missing one. */
  lemma ExpandoGenerationsAgree(graph: set<Obj>, o: Obj, segments: seq<string>, i: int, operation: Operation)
    requires Closed(graph) && o in graph && o.isExpando
    requires 0 <= i < |segments| - 1
    ensures var older := ExpandoObjectStep(Ref(o), segments, i - 1);
      var newer := VisitorChain.VisitorStep(graph, VisitorChain.ExpandoVisitor, Ref(o), segments, i, operation);
      && (older == Stop <==> newer.result.NoAdapter?)
      && (older.Descend? ==> newer == VisitorChain.GetAdapterFrom(graph, older.child, segments, i, operation))
  {
    if HasKey(o.entries, segments[i], true) {
      VisitorChain.InGraphAt(graph, o, IndexOf(o.entries, segments[i], true).value);
      VisitorChain.NullOnlyWhenExhausted(graph, ValueIgnoringCase(o.entries, segments[i]).value, segments, i, operation);
    }
  }

  /** Before the final segment the list visitors agree: the same exception for a
      segment that is not an integer or not a position, and the same child otherwise. */
  lemma ListGenerationsAgree(graph: set<Obj>, o: Obj, segments: seq<string>, i: int, operation: Operation)
    requires Closed(graph) && o in graph && o.isList
    requires 0 <= i < |segments| - 1
    ensures var older := ListObjectStep(Ref(o), segments, i - 1, operation);
      var newer := VisitorChain.VisitorStep(graph, VisitorChain.ListVisitor, Ref(o), segments, i, operation);
      && (older.Raise? <==> newer.result.Thrown? && newer.target == Ref(o) && newer.index == i)
      && (older.Raise? ==> newer.result == VisitorChain.Thrown(older.exception))
      && (older.Descend? ==> newer == VisitorChain.GetAdapterFrom(graph, older.child, segments, i, operation))
  {
    var position := TryParseInt32(segments[i]);
    if position.Some? && 0 <= position.value < |o.items| {
      VisitorChain.InGraphAt(graph, o, position.value);
      VisitorChain.NullOnlyWhenExhausted(graph, o.items[position.value], segments, i, operation);
      VisitorChain.DispatchNeverNull(graph, o.items[position.value], segments, i + 1, operation, 0);
    }
  }

  /** At the final segment this generation checks the position when it makes the patch
      object, so a segment that is not a position fails at once; the chain's
      `ListVisitor` builds its adapter whatever the segment and leaves the check to the
      operation. */
  lemma ListFinalSegmentCheckedEarly(graph: set<Obj>, o: Obj, segments: seq<string>, operation: Operation)
    requires Closed(graph) && o in graph && o.isList && !o.isArray && o.listTypeArgument.Some?
    requires |segments| >= 1 && GetPositionInfo(segments[|segments| - 1], |o.items|).kind == Invalid
    ensures ListObjectStep(Ref(o), segments, |segments| - 2, operation) ==
              Raise(JsonPatchException(PatchError(Ref(o), operation, InvalidPathForArrayProperty(operation.op, operation.path))))
    ensures VisitorChain.VisitorStep(graph, VisitorChain.ListVisitor, Ref(o), segments, |segments| - 1, operation).result ==
              VisitorChain.Found(VisitorChain.ListAdapterFor(o, segments[|segments| - 1]))
  {
  }
}
