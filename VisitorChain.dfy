/**
 * The visitor generation: `ObjectVisitor.GetAdapter` moves the cursor of an operation
 * context to the next segment and asks its visitors, in a fixed order, for an adapter;
 * a visitor that does not handle the current target answers null, and one that does
 * either builds the adapter at the final segment or moves the context to the child
 * the segment names and starts the chain again.
 *
 * The walk follows references from one object to the next, so its specification is
 * stated over a set of objects closed under those references (`Closed`), and the
 * walk changes nothing in it: only the cursor and the target of the context move.
 */
module VisitorChain {
  import opened Values
  import opened Collections
  import opened Numbers
  import opened ExpandoExtensions
  import opened Properties
  import opened Paths

  /** The visitors of the chain. */
  datatype VisitorKind = ExpandoVisitor | DictionaryVisitor | ListVisitor | PocoVisitor

  /** The order the chain asks its visitors in. */
  const Visitors: seq<VisitorKind> := [ExpandoVisitor, DictionaryVisitor, ListVisitor, PocoVisitor]

  /** The adapter a visitor builds for the final segment, with what it is built on. */
  datatype AdapterFor =
    | ExpandoAdapterFor(expando: Obj, segment: string)
    | DictionaryAdapterFor(dictionary: Obj, segment: string)
    | ListAdapterFor(list: Obj, segment: string)
    | PocoAdapterFor(target: Value, propertyIndex: nat)

  /** What `GetAdapter` returns: an adapter, null, or an exception. */
  datatype ChainResult = Found(adapter: AdapterFor) | NoAdapter | Thrown(exception: Exception)

  /** A result together with where the context is left: its target and its cursor. */
  datatype ChainState = ChainState(result: ChainResult, target: Value, index: int)

  /** The exception of a segment the walk cannot follow. */
  function CannotPerform(target: Value, operation: Operation): Exception {
    JsonPatchException(PatchError(target, operation, CannotPerformOperation(operation.op, operation.path)))
  }

  // ======== the walk, as functions ========

  /** `ObjectVisitor.GetAdapter` with the context on `target` and the cursor at
      `index`. */
  ghost function GetAdapterFrom(graph: set<Obj>, target: Value, segments: seq<string>, index: int, operation: Operation): (s: ChainState)
    requires Closed(graph) && Holds(graph, target) && -1 <= index < |segments|
    reads graph
    ensures index <= s.index < |segments| && Holds(graph, s.target)
    decreases |segments| - index, 0, 0
  {
    if index + 1 < |segments| then DispatchFrom(graph, target, segments, index + 1, operation, 0)
    else ChainState(NoAdapter, target, index)
  }

  /** The visitors from the `k`-th on, asked about the segment at `i`; when they all
      answer null the chain moves on to the next segment. */
  ghost function DispatchFrom(graph: set<Obj>, target: Value, segments: seq<string>, i: int, operation: Operation, k: nat): (s: ChainState)
    requires Closed(graph) && Holds(graph, target) && 0 <= i < |segments| && k <= |Visitors|
    reads graph
    ensures i <= s.index < |segments| && Holds(graph, s.target)
    decreases |segments| - i, 1, |Visitors| - k
  {
    if k == |Visitors| then GetAdapterFrom(graph, target, segments, i, operation)
    else
      var s := VisitorStep(graph, Visitors[k], target, segments, i, operation);
      if s.result.NoAdapter? then DispatchFrom(graph, s.target, segments, s.index, operation, k + 1)
      else s
  }

  /** One visitor's `GetAdapter` at the segment at `i`. */
  ghost function VisitorStep(graph: set<Obj>, kind: VisitorKind, target: Value, segments: seq<string>, i: int, operation: Operation): (s: ChainState)
    requires Closed(graph) && Holds(graph, target) && 0 <= i < |segments|
    reads graph
    ensures i <= s.index < |segments| && Holds(graph, s.target)
    decreases |segments| - i, 1, 0
  {
    var segment := segments[i];
    var isFinal := i == |segments| - 1;
    match kind
    case ExpandoVisitor =>
      if !(target.Ref? && target.obj.isExpando) then ChainState(NoAdapter, target, i)
      else if isFinal then ChainState(Found(ExpandoAdapterFor(target.obj, segment)), target, i)
      else if HasKey(target.obj.entries, segment, true) then
        var next := ValueIgnoringCase(target.obj.entries, segment).value;
        InGraphAt(graph, target.obj, IndexOf(target.obj.entries, segment, true).value);
        GetAdapterFrom(graph, next, segments, i, operation)
      else ChainState(NoAdapter, target, i)
    case DictionaryVisitor =>
      if !(target.Ref? && target.obj.isDictionary) then ChainState(NoAdapter, target, i)
      else if isFinal then ChainState(Found(DictionaryAdapterFor(target.obj, segment)), target, i)
      else if HasKey(target.obj.entries, segment, target.obj.ignoreCase) then
        var next := NonGenericGet(target.obj.entries, segment, target.obj.ignoreCase);
        InGraphAt(graph, target.obj, IndexOf(target.obj.entries, segment, target.obj.ignoreCase).value);
        GetAdapterFrom(graph, next, segments, i, operation)
      else ChainState(Thrown(CannotPerform(target, operation)), target, i)
    case ListVisitor =>
      if !(target.Ref? && target.obj.isList) then ChainState(NoAdapter, target, i)
      else if isFinal then ChainState(Found(ListAdapterFor(target.obj, segment)), target, i)
      else (match TryParseInt32(segment)
        case None =>
          ChainState(Thrown(JsonPatchException(PatchError(target, operation,
            InvalidPathForArrayProperty(operation.op, operation.path)))), target, i)
        case Some(index) =>
          if index < 0 || index >= |target.obj.items| then
            ChainState(Thrown(JsonPatchException(PatchError(target, operation,
              InvalidIndexForArrayProperty(operation.op, operation.path)))), target, i)
          else GetAdapterFrom(graph, target.obj.items[index], segments, i, operation))
    case PocoVisitor =>
      if target == Null then ChainState(Thrown(NullReferenceException), target, i)
      else match ResolveProperty(target, segment)
        case None => ChainState(Thrown(CannotPerform(target, operation)), target, i)
        case Some(p) =>
          if isFinal then ChainState(Found(PocoAdapterFor(target, p)), target, i)
          else GetAdapterFrom(graph, PropertyValue(target.obj, p), segments, i, operation)
  }

  /** The values an object of a closed graph holds are in the graph. */
  lemma InGraphAt(graph: set<Obj>, o: Obj, j: nat)
    requires Closed(graph) && o in graph
    ensures j < |o.entries| ==> Holds(graph, o.entries[j].1)
    ensures j < |o.items| ==> Holds(graph, o.items[j])
    ensures Holds(graph, PropertyValue(o, j))
  {
  }

  // ======== what the walk does ========

  /** The chain answers null exactly when there is no segment left to move to: the
      plain-object visitor, last in the chain, never answers null, and a descent
      always has a segment after it. */
  lemma {:induction false} NullOnlyWhenExhausted(graph: set<Obj>, target: Value, segments: seq<string>, index: int, operation: Operation)
    requires Closed(graph) && Holds(graph, target) && -1 <= index < |segments|
    ensures GetAdapterFrom(graph, target, segments, index, operation).result.NoAdapter? <==> index + 1 >= |segments|
    decreases |segments| - index, 0, 0
  {
    if index + 1 < |segments| {
      DispatchNeverNull(graph, target, segments, index + 1, operation, 0);
    }
  }

  lemma {:induction false} DispatchNeverNull(graph: set<Obj>, target: Value, segments: seq<string>, i: int, operation: Operation, k: nat)
    requires Closed(graph) && Holds(graph, target) && 0 <= i < |segments| && k < |Visitors|
    ensures !DispatchFrom(graph, target, segments, i, operation, k).result.NoAdapter?
    decreases |segments| - i, 1, |Visitors| - k
  {
    var s := VisitorStep(graph, Visitors[k], target, segments, i, operation);
    StepNullOnlyWhenUnhandled(graph, Visitors[k], target, segments, i, operation);
    if s.result.NoAdapter? {
      DispatchNeverNull(graph, s.target, segments, s.index, operation, k + 1);
    }
  }

  /** A visitor answers null only without moving the context, and the plain-object
      visitor never does. */
  lemma {:induction false} StepNullOnlyWhenUnhandled(graph: set<Obj>, kind: VisitorKind, target: Value, segments: seq<string>, i: int, operation: Operation)
    requires Closed(graph) && Holds(graph, target) && 0 <= i < |segments|
    ensures var s := VisitorStep(graph, kind, target, segments, i, operation);
      s.result.NoAdapter? ==> kind != PocoVisitor && s.target == target && s.index == i
    decreases |segments| - i, 1, 0
  {
    var segment := segments[i];
    if i < |segments| - 1 {
      match kind
      case ExpandoVisitor =>
        if target.Ref? && target.obj.isExpando && HasKey(target.obj.entries, segment, true) {
          InGraphAt(graph, target.obj, IndexOf(target.obj.entries, segment, true).value);
          NullOnlyWhenExhausted(graph, ValueIgnoringCase(target.obj.entries, segment).value, segments, i, operation);
        }
      case DictionaryVisitor =>
        if target.Ref? && target.obj.isDictionary && HasKey(target.obj.entries, segment, target.obj.ignoreCase) {
          InGraphAt(graph, target.obj, IndexOf(target.obj.entries, segment, target.obj.ignoreCase).value);
          NullOnlyWhenExhausted(graph, NonGenericGet(target.obj.entries, segment, target.obj.ignoreCase), segments, i, operation);
        }
      case ListVisitor =>
        if target.Ref? && target.obj.isList && TryParseInt32(segment).Some? {
          var index := TryParseInt32(segment).value;
          if 0 <= index < |target.obj.items| {
            InGraphAt(graph, target.obj, index);
            NullOnlyWhenExhausted(graph, target.obj.items[index], segments, i, operation);
          }
        }
      case PocoVisitor =>
        if target != Null && ResolveProperty(target, segment).Some? {
          var p := ResolveProperty(target, segment).value;
          InGraphAt(graph, target.obj, p);
          NullOnlyWhenExhausted(graph, PropertyValue(target.obj, p), segments, i, operation);
        }
    }
  }

  /** At the final segment the first visitor that handles the target builds the
      adapter: an expando before a dictionary, a dictionary before a list, a list
      before a plain object; the dictionary and list adapters are built whether or not
      the key or position exists. */
  lemma FinalSegmentAdapter(graph: set<Obj>, target: Value, segments: seq<string>, operation: Operation)
    requires Closed(graph) && Holds(graph, target) && |segments| == 1
    ensures var r := GetAdapterFrom(graph, target, segments, -1, operation).result;
      && (target.Ref? && target.obj.isExpando ==> r == Found(ExpandoAdapterFor(target.obj, segments[0])))
      && (target.Ref? && !target.obj.isExpando && target.obj.isDictionary ==>
            r == Found(DictionaryAdapterFor(target.obj, segments[0])))
      && (target.Ref? && !target.obj.isExpando && !target.obj.isDictionary && target.obj.isList ==>
            r == Found(ListAdapterFor(target.obj, segments[0])))
      && (target == Null ==> r == Thrown(NullReferenceException))
      && (target.Ref? && !target.obj.isExpando && !target.obj.isDictionary && !target.obj.isList ==>
            (r.Found? ==> r.adapter.PocoAdapterFor?))
  {
    assert Visitors[0] == ExpandoVisitor && Visitors[1] == DictionaryVisitor;
    assert Visitors[2] == ListVisitor && Visitors[3] == PocoVisitor;
    var d := DispatchFrom(graph, target, segments, 0, operation, 0);
    assert GetAdapterFrom(graph, target, segments, -1, operation) == d;
    var s0 := VisitorStep(graph, ExpandoVisitor, target, segments, 0, operation);
    if target.Ref? && target.obj.isExpando {
      assert s0 == ChainState(Found(ExpandoAdapterFor(target.obj, segments[0])), target, 0);
      return;
    }
    assert s0 == ChainState(NoAdapter, target, 0);
    assert d == DispatchFrom(graph, target, segments, 0, operation, 1);
    var s1 := VisitorStep(graph, DictionaryVisitor, target, segments, 0, operation);
    if target.Ref? && target.obj.isDictionary {
      assert s1 == ChainState(Found(DictionaryAdapterFor(target.obj, segments[0])), target, 0);
      return;
    }
    assert s1 == ChainState(NoAdapter, target, 0);
    assert d == DispatchFrom(graph, target, segments, 0, operation, 2);
    var s2 := VisitorStep(graph, ListVisitor, target, segments, 0, operation);
    if target.Ref? && target.obj.isList {
      assert s2 == ChainState(Found(ListAdapterFor(target.obj, segments[0])), target, 0);
      return;
    }
    assert s2 == ChainState(NoAdapter, target, 0);
    assert d == DispatchFrom(graph, target, segments, 0, operation, 3);
    StepNullOnlyWhenUnhandled(graph, PocoVisitor, target, segments, 0, operation);
    assert d == VisitorStep(graph, PocoVisitor, target, segments, 0, operation);
  }

  /** A member an expando does not hold is not an error of the expando visitor: the
      chain passes the expando on to the plain-object visitor, which has no object
      contract for it and reports that the operation cannot be performed. */
  lemma ExpandoMissReachesPocoVisitor(graph: set<Obj>, expando: Obj, segments: seq<string>, i: int, operation: Operation)
    requires Closed(graph) && expando in graph && expando.Valid() && expando.isExpando
    requires 0 <= i < |segments| - 1 && !HasKey(expando.entries, segments[i], true)
    ensures DispatchFrom(graph, Ref(expando), segments, i, operation, 0) ==
              ChainState(Thrown(CannotPerform(Ref(expando), operation)), Ref(expando), i)
  {
    var t := Ref(expando);
    assert Visitors[0] == ExpandoVisitor && Visitors[1] == DictionaryVisitor;
    assert Visitors[2] == ListVisitor && Visitors[3] == PocoVisitor;
    assert VisitorStep(graph, PocoVisitor, t, segments, i, operation) ==
             ChainState(Thrown(CannotPerform(t, operation)), t, i);
    assert DispatchFrom(graph, t, segments, i, operation, 3) == ChainState(Thrown(CannotPerform(t, operation)), t, i);
    assert DispatchFrom(graph, t, segments, i, operation, 2) == DispatchFrom(graph, t, segments, i, operation, 3);
    assert DispatchFrom(graph, t, segments, i, operation, 1) == DispatchFrom(graph, t, segments, i, operation, 2);
  }

  /** A missing dictionary key before the final segment, and a list segment that is
      not an integer or out of range, end the walk with an error naming the operation
      and its path. */
  lemma IntermediateErrors(graph: set<Obj>, o: Obj, segments: seq<string>, i: int, operation: Operation)
    requires Closed(graph) && o in graph && !o.isExpando
    requires 0 <= i < |segments| - 1
    ensures o.isDictionary && !HasKey(o.entries, segments[i], o.ignoreCase) ==>
              DispatchFrom(graph, Ref(o), segments, i, operation, 0).result == Thrown(CannotPerform(Ref(o), operation))
    ensures !o.isDictionary && o.isList && TryParseInt32(segments[i]).None? ==>
              DispatchFrom(graph, Ref(o), segments, i, operation, 0).result ==
                Thrown(JsonPatchException(PatchError(Ref(o), operation, InvalidPathForArrayProperty(operation.op, operation.path))))
    ensures !o.isDictionary && o.isList && TryParseInt32(segments[i]).Some? &&
            !(0 <= TryParseInt32(segments[i]).value < |o.items|) ==>
              DispatchFrom(graph, Ref(o), segments, i, operation, 0).result ==
                Thrown(JsonPatchException(PatchError(Ref(o), operation, InvalidIndexForArrayProperty(operation.op, operation.path))))
  {
    var t := Ref(o);
    assert Visitors[0] == ExpandoVisitor && Visitors[1] == DictionaryVisitor && Visitors[2] == ListVisitor;
    var d := DispatchFrom(graph, t, segments, i, operation, 0);
    assert VisitorStep(graph, ExpandoVisitor, t, segments, i, operation) == ChainState(NoAdapter, t, i);
    assert d == DispatchFrom(graph, t, segments, i, operation, 1);
    if o.isDictionary {
      if !HasKey(o.entries, segments[i], o.ignoreCase) {
        assert VisitorStep(graph, DictionaryVisitor, t, segments, i, operation).result == Thrown(CannotPerform(t, operation));
      }
      return;
    }
    assert VisitorStep(graph, DictionaryVisitor, t, segments, i, operation) == ChainState(NoAdapter, t, i);
    assert d == DispatchFrom(graph, t, segments, i, operation, 2);
    if o.isList {
      var step := VisitorStep(graph, ListVisitor, t, segments, i, operation);
      if TryParseInt32(segments[i]).None? {
        assert step.result == Thrown(JsonPatchException(PatchError(t, operation, InvalidPathForArrayProperty(operation.op, operation.path))));
      } else if !(0 <= TryParseInt32(segments[i]).value < |o.items|) {
        assert step.result == Thrown(JsonPatchException(PatchError(t, operation, InvalidIndexForArrayProperty(operation.op, operation.path))));
      }
    }
  }

  // ======== the walk, as the chain runs it ========

  class ObjectVisitor {
    /** `GetAdapter`: while the cursor can move to another segment, ask every visitor
        in turn and return the first adapter; null once the segments run out. */
    static method GetAdapter(ghost graph: set<Obj>, context: OperationContext) returns (r: ChainResult)
      requires context.Valid() && Closed(graph) && Holds(graph, context.target)
      modifies context`index, context`target
      ensures context.Valid() && Holds(graph, context.target)
      ensures ChainState(r, context.target, context.index) ==
                GetAdapterFrom(graph, old(context.target), context.segments, old(context.index), context.operation)
      decreases |context.segments| - context.index, 0, 0
    {
      ghost var spec := GetAdapterFrom(graph, context.target, context.segments, context.index, context.operation);
      var moved := context.MoveToNextPathSegment();
      while moved
        invariant context.Valid() && Holds(graph, context.target)
        invariant context.index >= old(context.index)
        invariant moved ==> context.index > old(context.index)
        invariant moved ==> spec == DispatchFrom(graph, context.target, context.segments, context.index, context.operation, 0)
        invariant !moved ==> spec == ChainState(NoAdapter, context.target, context.index)
        decreases |context.segments| - context.index + (if moved then 1 else 0)
      {
        r := AskInTurn(graph, context);
        if !r.NoAdapter? {
          return;
        }
        moved := context.MoveToNextPathSegment();
      }
      return NoAdapter;
    }

    /** The `for` over the visitors: the first answer that is not null. */
    static method AskInTurn(ghost graph: set<Obj>, context: OperationContext) returns (r: ChainResult)
      requires context.Valid() && 0 <= context.index && Closed(graph) && Holds(graph, context.target)
      modifies context`index, context`target
      ensures context.Valid() && Holds(graph, context.target) && context.index >= old(context.index)
      ensures !r.NoAdapter? ==>
                (ChainState(r, context.target, context.index) ==
                 DispatchFrom(graph, old(context.target), context.segments, old(context.index), context.operation, 0))
      ensures r.NoAdapter? ==>
                (DispatchFrom(graph, old(context.target), context.segments, old(context.index), context.operation, 0) ==
                 GetAdapterFrom(graph, context.target, context.segments, context.index, context.operation))
      decreases |context.segments| - context.index, 1, 2
    {
      ghost var spec := DispatchFrom(graph, context.target, context.segments, context.index, context.operation, 0);
      var k := 0;
      while k < |Visitors|
        invariant 0 <= k <= |Visitors|
        invariant context.Valid() && Holds(graph, context.target)
        invariant context.index >= old(context.index)
        invariant spec == DispatchFrom(graph, context.target, context.segments, context.index, context.operation, k)
        decreases |Visitors| - k
      {
        r := Ask(graph, Visitors[k], context);
        if !r.NoAdapter? {
          return;
        }
        k := k + 1;
      }
      r := NoAdapter;
    }

    /** `visitors[i].GetAdapter(context)`. */
    static method Ask(ghost graph: set<Obj>, kind: VisitorKind, context: OperationContext) returns (r: ChainResult)
      requires context.Valid() && 0 <= context.index && Closed(graph) && Holds(graph, context.target)
      modifies context`index, context`target
      ensures context.Valid() && Holds(graph, context.target)
      ensures ChainState(r, context.target, context.index) ==
                VisitorStep(graph, kind, old(context.target), context.segments, old(context.index), context.operation)
      decreases |context.segments| - context.index, 1, 1
    {
      match kind
      case ExpandoVisitor => r := ExpandoObjectVisitor.GetAdapter(graph, context);
      case DictionaryVisitor => r := DictionaryVisitor.GetAdapter(graph, context);
      case ListVisitor => r := ListVisitor.GetAdapter(graph, context);
      case PocoVisitor => r := PocoVisitor.GetAdapter(graph, context);
    }
  }

  /** The expando step of the chain: null for anything but an expando and for a key it
      does not hold under a case-insensitive search. */
  class ExpandoObjectVisitor {
    static method GetAdapter(ghost graph: set<Obj>, context: OperationContext) returns (r: ChainResult)
      requires context.Valid() && 0 <= context.index && Closed(graph) && Holds(graph, context.target)
      modifies context`index, context`target
      ensures context.Valid() && Holds(graph, context.target)
      ensures ChainState(r, context.target, context.index) ==
                VisitorStep(graph, ExpandoVisitor, old(context.target), context.segments, old(context.index), context.operation)
      decreases |context.segments| - context.index, 1, 0
    {
      var target := context.target;
      if !(target.Ref? && target.obj.isExpando) {
        return NoAdapter;
      }
      var segment := context.CurrentSegment();
      if segment.isFinal {
        return Found(ExpandoAdapterFor(target.obj, segment.value));
      }
      var contains := ContainsCaseInsensitiveKey(target.obj, segment.value);
      if !contains {
        return NoAdapter;
      }
      var newTargetObject := GetValueForCaseInsensitiveKey(target.obj, segment.value);
      InGraphAt(graph, target.obj, IndexOf(target.obj.entries, segment.value, true).value);
      context.SetNewTargetObject(newTargetObject.value);
      r := ObjectVisitor.GetAdapter(graph, context);
    }
  }

  class DictionaryVisitor {
    /** `GetAdapter`: null for anything but a non-generic dictionary; the adapter at
        the final segment, present or not; the member's value otherwise, and an error
        when the dictionary does not contain the segment. */
    static method GetAdapter(ghost graph: set<Obj>, context: OperationContext) returns (r: ChainResult)
      requires context.Valid() && 0 <= context.index && Closed(graph) && Holds(graph, context.target)
      modifies context`index, context`target
      ensures context.Valid() && Holds(graph, context.target)
      ensures ChainState(r, context.target, context.index) ==
                VisitorStep(graph, DictionaryVisitor, old(context.target), context.segments, old(context.index), context.operation)
      decreases |context.segments| - context.index, 1, 0
    {
      var target := context.target;
      if !(target.Ref? && target.obj.isDictionary) {
        return NoAdapter;
      }
      var dictionary := target.obj;
      var currentSegment := context.CurrentSegment();
      if currentSegment.isFinal {
        return Found(DictionaryAdapterFor(dictionary, currentSegment.value));
      } else if HasKey(dictionary.entries, currentSegment.value, dictionary.ignoreCase) {
        var newTargetObject := NonGenericGet(dictionary.entries, currentSegment.value, dictionary.ignoreCase);
        InGraphAt(graph, dictionary, IndexOf(dictionary.entries, currentSegment.value, dictionary.ignoreCase).value);
        context.SetNewTargetObject(newTargetObject);
        r := ObjectVisitor.GetAdapter(graph, context);
        return;
      }
      return Thrown(CannotPerform(target, context.operation));
    }
  }

  class ListVisitor {
    /** `GetAdapter`: null for anything but a list; the adapter at the final segment;
        the element at an integer position inside the list otherwise, and an error for
        a segment that is not an integer or is out of range. */
    static method GetAdapter(ghost graph: set<Obj>, context: OperationContext) returns (r: ChainResult)
      requires context.Valid() && 0 <= context.index && Closed(graph) && Holds(graph, context.target)
      modifies context`index, context`target
      ensures context.Valid() && Holds(graph, context.target)
      ensures ChainState(r, context.target, context.index) ==
                VisitorStep(graph, ListVisitor, old(context.target), context.segments, old(context.index), context.operation)
      decreases |context.segments| - context.index, 1, 0
    {
      var target := context.target;
      if !(target.Ref? && target.obj.isList) {
        return NoAdapter;
      }
      var list := target.obj;
      var currentSegment := context.CurrentSegment();
      if currentSegment.isFinal {
        return Found(ListAdapterFor(list, currentSegment.value));
      }
      var index := TryParseInt32(currentSegment.value);
      if index.None? {
        return Thrown(JsonPatchException(PatchError(target, context.operation,
          InvalidPathForArrayProperty(context.operation.op, context.operation.path))));
      }
      if index.value < 0 || index.value >= |list.items| {
        return Thrown(JsonPatchException(PatchError(target, context.operation,
          InvalidIndexForArrayProperty(context.operation.op, context.operation.path))));
      }
      InGraphAt(graph, list, index.value);
      context.SetNewTargetObject(list.items[index.value]);
      r := ObjectVisitor.GetAdapter(graph, context);
    }
  }

  class PocoVisitor {
    /** `GetAdapter`: the property the segment names ignoring case, as the adapter at
        the final segment or as the next target otherwise; an error when the target has
        no object contract or no such property. It never answers null. */
    static method GetAdapter(ghost graph: set<Obj>, context: OperationContext) returns (r: ChainResult)
      requires context.Valid() && 0 <= context.index && Closed(graph) && Holds(graph, context.target)
      modifies context`index, context`target
      ensures context.Valid() && Holds(graph, context.target)
      ensures ChainState(r, context.target, context.index) ==
                VisitorStep(graph, PocoVisitor, old(context.target), context.segments, old(context.index), context.operation)
      decreases |context.segments| - context.index, 1, 0
    {
      var target := context.target;
      if target == Null {
        return Thrown(NullReferenceException);
      }
      var currentSegment := context.CurrentSegment();
      var pocoProperty := ResolveProperty(target, currentSegment.value);
      if pocoProperty.Some? {
        if currentSegment.isFinal {
          return Found(PocoAdapterFor(target, pocoProperty.value));
        }
        var newTargetObject := PropertyValue(target.obj, pocoProperty.value);
        InGraphAt(graph, target.obj, pocoProperty.value);
        context.SetNewTargetObject(newTargetObject);
        r := ObjectVisitor.GetAdapter(graph, context);
        return;
      }
      return Thrown(CannotPerform(target, context.operation));
    }
  }
}
