/**
 * The analyzer generation: `ObjectTreeAnalyzer.Analyze` walks the segments of a path
 * from the root object, asking of each target in turn whether it is a non-generic
 * dictionary, an expando, a list or a plain object, and makes the patch object for the
 * final segment; a walk that stops early ends in `CannotPerformOperation` naming the
 * object it stopped at.
 *
 * The walk follows references from one object to the next, so its specification is
 * stated over a set of objects closed under those references (`Closed`); the walk
 * changes none of them.
 */
module ObjectTreeAnalyzer {
  import opened Values
  import opened Collections
  import opened Numbers
  import opened Positions
  import opened ExpandoExtensions
  import opened Properties
  import opened Paths
  import opened PatchObjects
  import opened ResultHelper
  import VisitorChain

  /** Where the analysis ends: what the patch object is made on, or the exception. */
  datatype Analysis =
    | DictionaryAt(dictionary: Obj, segment: string)
    | ExpandoAt(expando: Obj, segment: string)
    | ListAt(list: Obj, segment: string)
    | PocoAt(target: Obj, propertyIndex: nat)
    | Raised(exception: Exception)

  /** The exception of a walk that found nothing to patch, naming where it stopped. */
  function CannotPerform(target: Value, operation: Operation, path: string): Exception {
    JsonPatchException(PatchError(target, operation, CannotPerformOperation(operation.op, path)))
  }

  /** The message `InvalidOperationException` carries for a target with no object
      contract (the name of the contract's type is not part of this model). */
  const UnrecognizedContract: string := "Uncrecognized contract:"

  /** The walk from the segment at `i` on, with `target` the object reached so far. */
  ghost function AnalyzeFrom(graph: set<Obj>, target: Value, segments: seq<string>, i: nat,
                             path: string, operation: Operation): Analysis
    requires Closed(graph) && Holds(graph, target) && i <= |segments|
    reads graph
    decreases |segments| - i
  {
    if i == |segments| || target == Null then Raised(CannotPerform(target, operation, path))
    else
      var segment := segments[i];
      var isFinal := i == |segments| - 1;
      if target.Ref? && target.obj.isDictionary then
        var o := target.obj;
        if isFinal then DictionaryAt(o, segment)
        else if HasKey(o.entries, segment, o.ignoreCase) then
          VisitorChain.InGraphAt(graph, o, IndexOf(o.entries, segment, o.ignoreCase).value);
          AnalyzeFrom(graph, NonGenericGet(o.entries, segment, o.ignoreCase), segments, i + 1, path, operation)
        else Raised(CannotPerform(target, operation, path))
      else if target.Ref? && target.obj.isExpando then
        var o := target.obj;
        if isFinal then ExpandoAt(o, segment)
        else if HasKey(o.entries, segment, true) then
          VisitorChain.InGraphAt(graph, o, IndexOf(o.entries, segment, true).value);
          AnalyzeFrom(graph, ValueIgnoringCase(o.entries, segment).value, segments, i + 1, path, operation)
        else Raised(CannotPerform(target, operation, path))
      else if target.Ref? && target.obj.isList then
        var o := target.obj;
        if isFinal then
          (match ListObjectRejection(o, segment, operation)
           case Some(e) => Raised(e)
           case None => ListAt(o, segment))
        else (match ConvertToInt32(segment)
          case Failure(e) => Raised(e)
          case Success(n) =>
            var element := ElementAtOrNull(target, n);
            if element == Null then
              Raised(JsonPatchException(PatchError(Null, operation, InvalidIndexForArrayProperty(operation.op, path))))
            else
              VisitorChain.InGraphAt(graph, o, n);
              AnalyzeFrom(graph, element, segments, i + 1, path, operation))
      else if target.Scalar? || target.obj.contract.OtherContract? then
        Raised(InvalidOperationException(UnrecognizedContract))
      else
        var o := target.obj;
        match FindProperty(o.contract.properties, segment)
        case None => Raised(CannotPerform(target, operation, path))
        case Some(p) =>
          if isFinal then PocoAt(o, p)
          else
            VisitorChain.InGraphAt(graph, o, p);
            AnalyzeFrom(graph, PropertyValue(o, p), segments, i + 1, path, operation)
  }

  /** `r` is the patch object, or the exception, that the analysis `a` describes. */
  predicate Realizes(r: Result<PatchObject>, a: Analysis, operation: Operation)
    reads if a.ExpandoAt? then {a.expando} else if a.ListAt? then {a.list} else {}
  {
    match a
    case Raised(e) => r == Failure(e)
    case DictionaryAt(dictionary, segment) => r == Success(DictionaryPatch(Ref(dictionary), segment))
    case ExpandoAt(expando, segment) =>
      && r.Success? && r.value.ExpandoPatch?
      && r.value.expando.dictionary == expando && r.value.expando.operation == operation
      && r.value.expando.key == KeyFor(expando.entries, segment)
    case ListAt(list, segment) =>
      && r.Success? && r.value.ListPatch? && r.value.list.Valid()
      && r.value.list.list == list && r.value.list.operation == operation
      && r.value.list.positionInfo == GetPositionInfo(segment, |list.items|)
    case PocoAt(target, propertyIndex) =>
      && r.Success? && r.value.PocoPatch?
      && r.value.poco.target == target && r.value.poco.propertyIndex == propertyIndex
      && r.value.poco.operation == operation
  }

  /** How one turn of the loop in `Analyze` ends: on to the next target, out of the
      loop, or out of the method. */
  datatype Turn = Continue(next: Value) | Break | Return(r: Result<PatchObject>)

  /** `Analyze`: the patch object for the location the path names in the tree rooted
      at `targetObject`, or the exception that ends the walk. */
  method Analyze(ghost graph: set<Obj>, targetObject: Value, path: string, operation: Operation)
    returns (r: Result<PatchObject>)
    requires Closed(graph) && Holds(graph, targetObject)
    ensures Realizes(r, AnalyzeFrom(graph, targetObject, SplitPath(path), 0, path, operation), operation)
  {
    var pathSegments := SplitPath(path);
    ghost var spec := AnalyzeFrom(graph, targetObject, pathSegments, 0, path, operation);
    var target := targetObject;
    var i := 0;
    while i < |pathSegments|
      invariant 0 <= i <= |pathSegments| && Holds(graph, target)
      invariant AnalyzeFrom(graph, target, pathSegments, i, path, operation) == spec
      decreases |pathSegments| - i
    {
      if target == Null {
        break;
      }
      var turn := AnalyzeSegment(graph, target, pathSegments, i, path, operation);
      if turn.Return? {
        return turn.r;
      } else if turn.Break? {
        break;
      }
      target := turn.next;
      i := i + 1;
    }
    assert spec == Raised(CannotPerform(target, operation, path));
    return Failure(CannotPerform(target, operation, path));
  }

  /** The body of the loop in `Analyze` for the segment at `i`, on a target that is not
      null. */
  method AnalyzeSegment(ghost graph: set<Obj>, target: Value, pathSegments: seq<string>, i: nat,
                        path: string, operation: Operation) returns (turn: Turn)
    requires Closed(graph) && Holds(graph, target) && target != Null && i < |pathSegments|
    ensures turn.Return? ==> Realizes(turn.r, AnalyzeFrom(graph, target, pathSegments, i, path, operation), operation)
    ensures turn.Break? ==>
              AnalyzeFrom(graph, target, pathSegments, i, path, operation) == Raised(CannotPerform(target, operation, path))
    ensures turn.Continue? ==> (
              && Holds(graph, turn.next) && i + 1 < |pathSegments|
              && AnalyzeFrom(graph, turn.next, pathSegments, i + 1, path, operation) ==
                   AnalyzeFrom(graph, target, pathSegments, i, path, operation))
  {
    var currentPathSegment := pathSegments[i];
    var isFinal := i == |pathSegments| - 1;
    if target.Ref? && target.obj.isDictionary {
      var dictionary := target.obj;
      if isFinal {
        return Return(Success(DictionaryPatch(target, currentPathSegment)));
      } else if HasKey(dictionary.entries, currentPathSegment, dictionary.ignoreCase) {
        VisitorChain.InGraphAt(graph, dictionary, IndexOf(dictionary.entries, currentPathSegment, dictionary.ignoreCase).value);
        return Continue(NonGenericGet(dictionary.entries, currentPathSegment, dictionary.ignoreCase));
      }
      return Break;
    } else if target.Ref? && target.obj.isExpando {
      var expandoObject := target.obj;
      if isFinal {
        var made := PatchExpandoObject.Create(expandoObject, currentPathSegment, operation);
        return Return(Success(ExpandoPatch(made.value)));
      }
      var found := ContainsCaseInsensitiveKey(expandoObject, currentPathSegment);
      if found {
        var value := GetValueForCaseInsensitiveKey(expandoObject, currentPathSegment);
        ValueIgnoringCaseSucceedsIffPresent(expandoObject.entries, currentPathSegment);
        VisitorChain.InGraphAt(graph, expandoObject, IndexOf(expandoObject.entries, currentPathSegment, true).value);
        return Continue(value.value);
      }
      return Break;
    } else if target.Ref? && target.obj.isList {
      var list := target.obj;
      if isFinal {
        var made := PatchListObject.Create(list, currentPathSegment, operation);
        if made.Failure? {
          return Return(Failure(made.exception));
        }
        return Return(Success(ListPatch(made.value)));
      }
      var index := ConvertToInt32(currentPathSegment);
      if index.Failure? {
        return Return(Failure(index.exception));
      }
      var element := ElementAtOrNull(target, index.value);
      if element == Null {
        return Return(Failure(JsonPatchException(PatchError(element, operation,
          InvalidIndexForArrayProperty(operation.op, path)))));
      }
      VisitorChain.InGraphAt(graph, list, index.value);
      return Continue(element);
    }
    if target.Scalar? || target.obj.contract.OtherContract? {
      return Return(Failure(InvalidOperationException(UnrecognizedContract)));
    }
    var poco := target.obj;
    var pocoProperty := FindProperty(poco.contract.properties, currentPathSegment);
    if pocoProperty.None? {
      return Break;
    }
    if isFinal {
      var made := PatchPocoObject.Create(poco, pocoProperty.value, operation);
      return Return(Success(PocoPatch(made.value)));
    }
    VisitorChain.InGraphAt(graph, poco, pocoProperty.value);
    return Continue(PropertyValue(poco, pocoProperty.value));
  }

  // ======== what the walk does ========

  /** A patch object is made only for the last segment of the path, and the segment it
      is made on is that segment's text. */
  lemma {:induction false} MadeOnFinalSegment(graph: set<Obj>, target: Value, segments: seq<string>, i: nat,
                                              path: string, operation: Operation)
    requires Closed(graph) && Holds(graph, target) && i <= |segments|
    ensures var a := AnalyzeFrom(graph, target, segments, i, path, operation);
      && (a.DictionaryAt? || a.ExpandoAt? || a.ListAt? || a.PocoAt? ==> |segments| > 0)
      && (a.DictionaryAt? ==> a.segment == segments[|segments| - 1])
      && (a.ExpandoAt? ==> a.segment == segments[|segments| - 1])
      && (a.ListAt? ==> a.segment == segments[|segments| - 1])
      && (a.PocoAt? ==> a.target.contract.ObjectContract? && a.propertyIndex < |a.target.contract.properties|
                        && EqualsIgnoreCase(a.target.contract.properties[a.propertyIndex].name, segments[|segments| - 1]))
    decreases |segments| - i
  {
    if i < |segments| && target != Null && i < |segments| - 1 {
      var segment := segments[i];
      if target.Ref? && target.obj.isDictionary {
        var o := target.obj;
        if HasKey(o.entries, segment, o.ignoreCase) {
          VisitorChain.InGraphAt(graph, o, IndexOf(o.entries, segment, o.ignoreCase).value);
          MadeOnFinalSegment(graph, NonGenericGet(o.entries, segment, o.ignoreCase), segments, i + 1, path, operation);
        }
      } else if target.Ref? && target.obj.isExpando {
        var o := target.obj;
        if HasKey(o.entries, segment, true) {
          VisitorChain.InGraphAt(graph, o, IndexOf(o.entries, segment, true).value);
          MadeOnFinalSegment(graph, ValueIgnoringCase(o.entries, segment).value, segments, i + 1, path, operation);
        }
      } else if target.Ref? && target.obj.isList {
        var o := target.obj;
        if ConvertToInt32(segment).Success? {
          var element := ElementAtOrNull(target, ConvertToInt32(segment).value);
          if element != Null {
            VisitorChain.InGraphAt(graph, o, ConvertToInt32(segment).value);
            MadeOnFinalSegment(graph, element, segments, i + 1, path, operation);
          }
        }
      } else if target.Ref? && target.obj.contract.ObjectContract? {
        var o := target.obj;
        var p := FindProperty(o.contract.properties, segment);
        if p.Some? {
          VisitorChain.InGraphAt(graph, o, p.value);
          MadeOnFinalSegment(graph, PropertyValue(o, p.value), segments, i + 1, path, operation);
        }
      }
    }
  }

  /** A walk that stops before the end reports the object it stopped at: a null it
      reached, a dictionary without the key, an expando without the member, a plain
      object without the property. */
  lemma StopsAtMissingStep(graph: set<Obj>, o: Obj, segments: seq<string>, i: nat, path: string, operation: Operation)
    requires Closed(graph) && o in graph && i < |segments| - 1
    ensures AnalyzeFrom(graph, Null, segments, i, path, operation) == Raised(CannotPerform(Null, operation, path))
    ensures o.isDictionary && !HasKey(o.entries, segments[i], o.ignoreCase) ==>
              AnalyzeFrom(graph, Ref(o), segments, i, path, operation) == Raised(CannotPerform(Ref(o), operation, path))
    ensures !o.isDictionary && o.isExpando && !HasKey(o.entries, segments[i], true) ==>
              AnalyzeFrom(graph, Ref(o), segments, i, path, operation) == Raised(CannotPerform(Ref(o), operation, path))
    ensures !o.isDictionary && !o.isExpando && !o.isList && o.contract.ObjectContract? &&
            FindProperty(o.contract.properties, segments[i]).None? ==>
              AnalyzeFrom(graph, Ref(o), segments, i, path, operation) == Raised(CannotPerform(Ref(o), operation, path))
  {
  }

  /** A list element that is null is reported as an invalid index, with no affected
      object, exactly as a position outside the list is. */
  lemma NullElementIsInvalidIndex(graph: set<Obj>, o: Obj, segments: seq<string>, i: nat, path: string, operation: Operation)
    requires Closed(graph) && o in graph && !o.isDictionary && !o.isExpando && o.isList
    requires i < |segments| - 1 && ConvertToInt32(segments[i]).Success?
    requires var n := ConvertToInt32(segments[i]).value; !(0 <= n < |o.items|) || o.items[n] == Null
    ensures AnalyzeFrom(graph, Ref(o), segments, i, path, operation) ==
              Raised(JsonPatchException(PatchError(Null, operation, InvalidIndexForArrayProperty(operation.op, path))))
  {
  }

  /** The analyzer asks about a dictionary before an expando and the visitor chain asks
      in the other order; on well-formed objects, where an expando is never a
      non-generic dictionary, both pick the same kind of patch location for a path of
      one segment. */
  lemma FinalSegmentAgreesWithChain(graph: set<Obj>, o: Obj, segment: string, path: string, operation: Operation)
    requires Closed(graph) && o in graph && o.Valid()
    ensures var a := AnalyzeFrom(graph, Ref(o), [segment], 0, path, operation);
      var c := VisitorChain.GetAdapterFrom(graph, Ref(o), [segment], -1, operation).result;
      && (a == ExpandoAt(o, segment) <==> c == VisitorChain.Found(VisitorChain.ExpandoAdapterFor(o, segment)))
      && (a == DictionaryAt(o, segment) <==> c == VisitorChain.Found(VisitorChain.DictionaryAdapterFor(o, segment)))
  {
    VisitorChain.FinalSegmentAdapter(graph, Ref(o), [segment], operation);
  }
}
