/**
 * The single-file engine: `Visit` follows all segments of the path but the last,
 * choosing an adapter for each object it reaches, and hands back the adapter of the
 * last object; the adapters then add, get, remove or replace at the last segment.
 * Adapters report a refusal with a message rather than throwing.
 */
module ObjectVisitor2 {
  import opened Values
  import opened Collections
  import opened Numbers
  import opened Positions
  import opened ConversionResultProvider
  import opened ExpandoExtensions
  import opened Properties

  /** Which of the four adapters handles an object. */
  datatype AdapterKind = ExpandoKind | DictionaryKind | ListKind | PocoKind

  /** How an adapter call ends: with a result, refused with a message, or with an
      exception escaping from the container it drives. */
  datatype Attempt<T> = Done(value: T) | Refused(message: Message) | Raised(exception: Exception)

  /** How a `TryTraverse` call ends: the next object, `false`, or an exception. */
  datatype Traversal = Reached(next: Value) | NotFound | Threw(exception: Exception)

  function FromResult<T>(r: Result<T>): (a: Attempt<T>)
    ensures a.Done? <==> r.Success?
    ensures r.Success? ==> a.value == r.value
    ensures r.Failure? ==> a == Raised(r.exception)
  {
    match r
    case Success(v) => Done(v)
    case Failure(x) => Raised(x)
  }

  /** The answer of an adapter call that changes a container: success, or the refusal
      or exception of the attempt. */
  function Ack<T>(a: Attempt<T>): (r: Attempt<()>)
    ensures r.Done? <==> a.Done?
    ensures a.Refused? ==> r == Refused(a.message)
    ensures a.Raised? ==> r == Raised(a.exception)
  {
    match a
    case Done(_) => Done(())
    case Refused(m) => Refused(m)
    case Raised(x) => Raised(x)
  }

  /** `SelectAdapater`: expandos first, then non-generic dictionaries, then lists, and
      everything else (null included) as a plain object. */
  function SelectAdapter(target: Value): (kind: AdapterKind)
    ensures kind == ExpandoKind <==> target.Ref? && target.obj.isExpando
    ensures kind == DictionaryKind <==> target.Ref? && !target.obj.isExpando && target.obj.isDictionary
    ensures kind == ListKind <==>
              target.Ref? && !target.obj.isExpando && !target.obj.isDictionary && target.obj.isList
    ensures kind == PocoKind <==>
              !(target.Ref? && (target.obj.isExpando || target.obj.isDictionary || target.obj.isList))
  {
    if target.Ref? && target.obj.isExpando then ExpandoKind
    else if target.Ref? && target.obj.isDictionary then DictionaryKind
    else if target.Ref? && target.obj.isList then ListKind
    else PocoKind
  }

  /** `adapter.TryTraverse(target, segment, ...)`. */
  function TryTraverse(kind: AdapterKind, target: Value, segment: string): Traversal
    reads if target.Ref? then {target.obj} else {}
  {
    match kind
    case ExpandoKind => ExpandoObjectAdapter.TryTraverse(target, segment)
    case DictionaryKind => DictionaryAdapter.TryTraverse(target, segment)
    case ListKind => ListAdapter.TryTraverse(target, segment)
    case PocoKind => PocoAdapter.TryTraverse(target, segment)
  }

  // ======== Visit ========

  /** How `Visit` ends: `true` with the object reached and its adapter, `false` with the
      object where the walk stopped, or an exception from a traversal. */
  datatype VisitResult = Visited(target: Value, adapter: AdapterKind) | NotVisited(target: Value)
                       | VisitThrew(exception: Exception)

  /** The walk from the `i`-th segment on: every segment but the last is traversed. */
  ghost function VisitFrom(target: Value, segments: seq<string>, i: nat): VisitResult
    reads *
    decreases |segments| - i
  {
    if i + 1 >= |segments| then Visited(target, SelectAdapter(target))
    else match TryTraverse(SelectAdapter(target), target, segments[i])
      case Reached(next) => VisitFrom(next, segments, i + 1)
      case NotFound => NotVisited(target)
      case Threw(x) => VisitThrew(x)
  }

  /** `Visit(ref target, out adapter)` over the segments of the parsed path. */
  method Visit(target: Value, segments: seq<string>) returns (r: VisitResult)
    ensures target == Null ==> r == NotVisited(Null)
    ensures target != Null ==> r == VisitFrom(target, segments, 0)
  {
    if target == Null {
      return NotVisited(Null);
    }
    var current := target;
    var adapter := SelectAdapter(current);
    var i := 0;
    while i + 1 < |segments|
      invariant adapter == SelectAdapter(current)
      invariant VisitFrom(current, segments, i) == VisitFrom(target, segments, 0)
      decreases |segments| - i
    {
      var step := TryTraverse(adapter, current, segments[i]);
      VisitStep(current, segments, i);
      if step.NotFound? {
        return NotVisited(current);
      } else if step.Threw? {
        return VisitThrew(step.exception);
      }
      current := step.next;
      adapter := SelectAdapter(current);
      i := i + 1;
    }
    return Visited(current, adapter);
  }

  /** One step of the walk. */
  lemma VisitStep(target: Value, segments: seq<string>, i: nat)
    requires i + 1 < |segments|
    ensures var t := TryTraverse(SelectAdapter(target), target, segments[i]);
      VisitFrom(target, segments, i) ==
        match t
        case Reached(next) => VisitFrom(next, segments, i + 1)
        case NotFound => NotVisited(target)
        case Threw(x) => VisitThrew(x)
  {
  }

  /** The adapter handed back is always the one selected for the object reached. */
  lemma {:induction false} VisitedAdapterFitsTarget(target: Value, segments: seq<string>, i: nat)
    ensures VisitFrom(target, segments, i).Visited? ==>
              VisitFrom(target, segments, i).adapter == SelectAdapter(VisitFrom(target, segments, i).target)
    decreases |segments| - i
  {
    if i + 1 < |segments| {
      match TryTraverse(SelectAdapter(target), target, segments[i])
      case Reached(next) => VisitedAdapterFitsTarget(next, segments, i + 1);
      case NotFound =>
      case Threw(_) =>
    }
  }

  /** The last segment is never traversed: the walk is the same whatever it is. */
  lemma {:induction false} VisitIgnoresLastSegment(target: Value, segments: seq<string>, x: string, y: string, i: nat)
    requires i <= |segments|
    ensures VisitFrom(target, segments + [x], i) == VisitFrom(target, segments + [y], i)
    decreases |segments| - i
  {
    if i < |segments| {
      assert (segments + [x])[i] == segments[i] == (segments + [y])[i];
      match TryTraverse(SelectAdapter(target), target, segments[i])
      case Reached(next) => VisitIgnoresLastSegment(next, segments, x, y, i + 1);
      case NotFound =>
      case Threw(_) =>
    }
  }

  // ======== DictionaryAdapter: a non-generic IDictionary ========

  class DictionaryAdapter {
    /** The members after `TryAdd`: the key is set whether present or not. */
    static function AddAttempt(rt: Runtime, o: Obj, entries: Entries, segment: string, value: Value): Attempt<Entries> {
      FromResult(NonGenericSet(rt, o.valueType, entries, segment, value, o.ignoreCase))
    }

    /** The members after `TryRemove`; an absent key is refused. */
    static function RemoveAttempt(o: Obj, entries: Entries, segment: string): Attempt<Entries> {
      if !HasKey(entries, segment, o.ignoreCase) then Refused(TargetLocationNotFound("Remove", segment))
      else Done(Delete(entries, segment, o.ignoreCase))
    }

    /** The members after `TryReplace`; an absent key is refused. */
    static function ReplaceAttempt(rt: Runtime, o: Obj, entries: Entries, segment: string, value: Value): Attempt<Entries> {
      if !HasKey(entries, segment, o.ignoreCase) then Refused(TargetLocationNotFound("Replace", segment))
      else FromResult(NonGenericSet(rt, o.valueType, entries, segment, value, o.ignoreCase))
    }

    static method TryAdd(rt: Runtime, target: Obj, segment: string, value: Value) returns (r: Attempt<()>)
      requires target.isDictionary
      modifies target
      ensures var a := AddAttempt(rt, target, old(target.entries), segment, value);
        r == Ack(a) && target.entries == (if a.Done? then a.value else old(target.entries))
      ensures unchanged(target`items) && unchanged(target`fieldValues)
    {
      var updated := NonGenericSet(rt, target.valueType, target.entries, segment, value, target.ignoreCase);
      if updated.Failure? {
        return Raised(updated.exception);
      }
      target.entries := updated.value;
      return Done(());
    }

    static method TryGet(target: Obj, segment: string) returns (r: Attempt<Value>)
      requires target.isDictionary
      ensures r == Done(NonGenericGet(target.entries, segment, target.ignoreCase))
    {
      return Done(NonGenericGet(target.entries, segment, target.ignoreCase));
    }

    static method TryRemove(target: Obj, segment: string) returns (r: Attempt<()>)
      requires target.isDictionary
      modifies target
      ensures var a := RemoveAttempt(target, old(target.entries), segment);
        r == Ack(a) && target.entries == (if a.Done? then a.value else old(target.entries))
      ensures unchanged(target`items) && unchanged(target`fieldValues)
    {
      if !HasKey(target.entries, segment, target.ignoreCase) {
        return Refused(TargetLocationNotFound("Remove", segment));
      }
      target.entries := Delete(target.entries, segment, target.ignoreCase);
      return Done(());
    }

    static method TryReplace(rt: Runtime, target: Obj, segment: string, value: Value) returns (r: Attempt<()>)
      requires target.isDictionary
      modifies target
      ensures var a := ReplaceAttempt(rt, target, old(target.entries), segment, value);
        r == Ack(a) && target.entries == (if a.Done? then a.value else old(target.entries))
      ensures unchanged(target`items) && unchanged(target`fieldValues)
    {
      if !HasKey(target.entries, segment, target.ignoreCase) {
        return Refused(TargetLocationNotFound("Replace", segment));
      }
      var updated := NonGenericSet(rt, target.valueType, target.entries, segment, value, target.ignoreCase);
      if updated.Failure? {
        return Raised(updated.exception);
      }
      target.entries := updated.value;
      return Done(());
    }

    /** `TryTraverse`: the value of the member the segment names, under the
        dictionary's own comparer. */
    static function TryTraverse(target: Value, segment: string): (t: Traversal)
      reads if target.Ref? then {target.obj} else {}
      ensures t.Reached? <==> target.Ref? && target.obj.isDictionary && HasKey(target.obj.entries, segment, target.obj.ignoreCase)
      ensures t.Reached? ==> Some(t.next) == Lookup(target.obj.entries, segment, target.obj.ignoreCase)
      ensures !t.Threw?
    {
      if !(target.Ref? && target.obj.isDictionary) then NotFound
      else match Lookup(target.obj.entries, segment, target.obj.ignoreCase)
        case Some(v) => Reached(v)
        case None => NotFound
    }

    /** Adding sets the key and keeps every other member; removing and replacing are
        refused for an absent key and change nothing. */
    static lemma {:induction false} Semantics(rt: Runtime, o: Obj, entries: Entries, segment: string, value: Value)
      requires Distinct(entries, o.ignoreCase) && FitsType(rt, value, o.valueType)
      ensures AddAttempt(rt, o, entries, segment, value).Done?
      ensures NonGenericGet(AddAttempt(rt, o, entries, segment, value).value, segment, o.ignoreCase) == value
      ensures forall k :: !KeyEq(o.ignoreCase, k, segment) ==>
                Lookup(AddAttempt(rt, o, entries, segment, value).value, k, o.ignoreCase) == Lookup(entries, k, o.ignoreCase)
      ensures |AddAttempt(rt, o, entries, segment, value).value| ==
                if HasKey(entries, segment, o.ignoreCase) then |entries| else |entries| + 1
      ensures RemoveAttempt(o, entries, segment).Done? ==>
                NonGenericGet(RemoveAttempt(o, entries, segment).value, segment, o.ignoreCase) == Null
      ensures !HasKey(entries, segment, o.ignoreCase) ==>
                RemoveAttempt(o, entries, segment) == Refused(TargetLocationNotFound("Remove", segment))
                && ReplaceAttempt(rt, o, entries, segment, value) == Refused(TargetLocationNotFound("Replace", segment))
    {
      PutSemantics(entries, segment, value, o.ignoreCase);
      DeleteSemantics(entries, segment, o.ignoreCase);
    }
  }

  // ======== ExpandoObjectAdapter ========

  class ExpandoObjectAdapter {
    static method TryAdd(rt: Runtime, target: Obj, segment: string, value: Value) returns (r: Attempt<()>)
      requires target.isExpando
      modifies target
      ensures r == Done(())
      ensures target.entries == AddAtKey(rt, old(target.entries), KeyFor(old(target.entries), segment), value)
      ensures unchanged(target`items) && unchanged(target`fieldValues)
    {
      var key := GetKeyUsingCaseInsensitiveSearch(target, segment);
      target.entries := Put(target.entries, key, ConvertToExistingType(rt, target.entries, key, value), false);
      return Done(());
    }

    static method TryGet(target: Obj, segment: string) returns (r: Attempt<Value>)
      requires target.isExpando
      ensures r == FromResult(GetAtKey(target.entries, KeyFor(target.entries, segment)))
    {
      var key := GetKeyUsingCaseInsensitiveSearch(target, segment);
      var found := Lookup(target.entries, key, false);
      if found.None? {
        return Raised(KeyNotFoundException);
      }
      return Done(found.value);
    }

    static method TryRemove(target: Obj, segment: string) returns (r: Attempt<()>)
      requires target.isExpando
      modifies target
      ensures var removed := RemoveAtKey(old(target.entries), KeyFor(old(target.entries), segment));
        && (removed.Some? ==> r == Done(()) && target.entries == removed.value)
        && (removed.None? ==> r == Refused(TargetLocationNotFound("Remove", segment))
                              && target.entries == old(target.entries))
      ensures unchanged(target`items) && unchanged(target`fieldValues)
    {
      var key := GetKeyUsingCaseInsensitiveSearch(target, segment);
      if !HasKey(target.entries, key, false) {
        return Refused(TargetLocationNotFound("Remove", segment));
      }
      target.entries := Delete(target.entries, key, false);
      return Done(());
    }

    static method TryReplace(rt: Runtime, target: Obj, segment: string, value: Value) returns (r: Attempt<()>)
      requires target.isExpando
      modifies target
      ensures var replaced := ReplaceAtKey(rt, old(target.entries), KeyFor(old(target.entries), segment), value);
        && (replaced.Some? ==> r == Done(()) && target.entries == replaced.value)
        && (replaced.None? ==> r == Refused(TargetLocationNotFound("Replace", segment))
                               && target.entries == old(target.entries))
      ensures unchanged(target`items) && unchanged(target`fieldValues)
    {
      var key := GetKeyUsingCaseInsensitiveSearch(target, segment);
      if !HasKey(target.entries, key, false) {
        return Refused(TargetLocationNotFound("Replace", segment));
      }
      target.entries := Put(target.entries, key, ConvertToExistingType(rt, target.entries, key, value), false);
      return Done(());
    }

    /** `TryTraverse`: an `IDictionary<string, object>` is entered at the member whose
        key the case-insensitive search returns, if the dictionary has it. */
    static function TryTraverse(target: Value, segment: string): (t: Traversal)
      reads if target.Ref? then {target.obj} else {}
      ensures t.Reached? ==> target.Ref? && target.obj.isGenericDictionary
      ensures target.Ref? && target.obj.isGenericDictionary && target.obj.valueType == ObjectType ==>
                (t.Reached? <==> HasKey(target.obj.entries, segment, true))
      ensures t.Reached? ==>
                Some(t.next) == Lookup(target.obj.entries, KeyFor(target.obj.entries, segment), target.obj.ignoreCase)
      ensures !t.Threw?
    {
      if !(target.Ref? && target.obj.isGenericDictionary && target.obj.valueType == ObjectType) then NotFound
      else
        KeyForPresence(target.obj.entries, segment, target.obj.ignoreCase);
        match Lookup(target.obj.entries, KeyFor(target.obj.entries, segment), target.obj.ignoreCase)
        case Some(v) => Reached(v)
        case None => NotFound
    }

    /** On a well-formed expando the type test always passes: the walk enters it exactly
        at a member whose name matches ignoring case. */
    static lemma TraversesValidExpando(target: Value, segment: string)
      requires target.Ref? && target.obj.isExpando && target.obj.Valid()
      ensures TryTraverse(target, segment).Reached? <==> HasKey(target.obj.entries, segment, true)
    {
    }
  }

  // ======== ListAdapter ========

  class ListAdapter {
    /** `TryGetListTypeArgument`: arrays and lists that implement no `IList<T>` are
        refused. */
    static function ListTypeArgument(o: Obj): (r: Attempt<TypeTag>)
      ensures r.Done? <==> !o.isArray && o.listTypeArgument.Some?
      ensures r.Done? ==> Some(r.value) == o.listTypeArgument
      ensures !r.Raised?
    {
      if o.isArray then Refused(Text("Patch not supported for arrays"))
      else match o.listTypeArgument
        case None => Refused(Text("Patch not supported for non-generic lists"))
        case Some(t) => Done(t)
    }

    /** `TryValidatePosition`: the message for a position that is not usable. */
    static function ValidatePosition(p: PositionInfo): (m: Option<Message>)
      ensures m.None? <==> IsUsable(p)
    {
      match p.kind
      case Invalid => Some(Text("Invalid value for array property"))
      case OutOfBounds => Some(Text("Invalid index for array property"))
      case _ => None
    }

    /** The checks every call runs first, in order: the element type, then the position.
        The element type and the position they admit. */
    static function Checked(o: Obj, items: seq<Value>, segment: string): (r: Attempt<(TypeTag, PositionInfo)>)
      ensures r.Done? ==> r.value.1 == GetPositionInfo(segment, |items|) && IsUsable(r.value.1)
      ensures r.Done? ==> Some(r.value.0) == o.listTypeArgument
      ensures r.Done? <==> ListTypeArgument(o).Done? && IsUsable(GetPositionInfo(segment, |items|))
      ensures !r.Raised?
    {
      match ListTypeArgument(o)
      case Done(t) =>
        var p := GetPositionInfo(segment, |items|);
        (match ValidatePosition(p)
         case Some(m) => Refused(m)
         case None => Done((t, p)))
      case Refused(m) => Refused(m)
      case Raised(x) => Raised(x)
    }

    /** The elements after `TryAdd`: checks, then the conversion, then append or insert. */
    static function AddAttempt(rt: Runtime, o: Obj, items: seq<Value>, segment: string, value: Value): Attempt<seq<Value>> {
      match Checked(o, items, segment)
      case Done((t, p)) =>
        var conversionResult := ConvertTo(rt, value, t);
        if !conversionResult.canBeConverted then Refused(Text("Invalid value for property"))
        else if p.kind == EndOfList then Done(items + [conversionResult.convertedInstance])
        else Done(InsertAt(items, p.index, conversionResult.convertedInstance))
      case Refused(m) => Refused(m)
      case Raised(x) => Raised(x)
    }

    /** What `TryGet` returns; `-` on an empty list has no last element. */
    static function GetAttempt(o: Obj, items: seq<Value>, segment: string): Attempt<Value> {
      match Checked(o, items, segment)
      case Done((_, p)) =>
        if p.kind == EndOfList then
          if |items| == 0 then Raised(ArgumentOutOfRangeException) else Done(items[|items| - 1])
        else Done(items[p.index])
      case Refused(m) => Refused(m)
      case Raised(x) => Raised(x)
    }

    /** The elements after `TryRemove`. */
    static function RemoveAttempt(o: Obj, items: seq<Value>, segment: string): Attempt<seq<Value>> {
      match Checked(o, items, segment)
      case Done((_, p)) =>
        if p.kind == EndOfList then
          if |items| == 0 then Raised(ArgumentOutOfRangeException) else Done(RemoveAt(items, |items| - 1))
        else Done(RemoveAt(items, p.index))
      case Refused(m) => Refused(m)
      case Raised(x) => Raised(x)
    }

    /** The elements after `TryReplace`: checks, then the conversion, then the write. */
    static function ReplaceAttempt(rt: Runtime, o: Obj, items: seq<Value>, segment: string, value: Value): Attempt<seq<Value>> {
      match Checked(o, items, segment)
      case Done((t, p)) =>
        var conversionResult := ConvertTo(rt, value, t);
        if !conversionResult.canBeConverted then Refused(Text("Invalid value for property"))
        else if p.kind == EndOfList then
          if |items| == 0 then Raised(ArgumentOutOfRangeException)
          else Done(items[|items| - 1 := conversionResult.convertedInstance])
        else Done(items[p.index := conversionResult.convertedInstance])
      case Refused(m) => Refused(m)
      case Raised(x) => Raised(x)
    }

    static method TryAdd(rt: Runtime, target: Obj, segment: string, value: Value) returns (r: Attempt<()>)
      requires target.isList
      modifies target
      ensures var a := AddAttempt(rt, target, old(target.items), segment, value);
        r == Ack(a) && target.items == (if a.Done? then a.value else old(target.items))
      ensures unchanged(target`entries) && unchanged(target`fieldValues)
    {
      var checked := Checked(target, target.items, segment);
      if !checked.Done? {
        return Ack(checked);
      }
      var (typeArgument, positionInfo) := checked.value;
      var conversionResult := ConvertTo(rt, value, typeArgument);
      if !conversionResult.canBeConverted {
        return Refused(Text("Invalid value for property"));
      }
      if positionInfo.kind == EndOfList {
        target.items := target.items + [conversionResult.convertedInstance];
      } else {
        target.items := InsertAt(target.items, positionInfo.index, conversionResult.convertedInstance);
      }
      return Done(());
    }

    static method TryGet(target: Obj, segment: string) returns (r: Attempt<Value>)
      requires target.isList
      ensures r == GetAttempt(target, target.items, segment)
    {
      var checked := Checked(target, target.items, segment);
      if !checked.Done? {
        return Refused(checked.message);
      }
      var positionInfo := checked.value.1;
      if positionInfo.kind == EndOfList {
        if |target.items| == 0 {
          return Raised(ArgumentOutOfRangeException);
        }
        return Done(target.items[|target.items| - 1]);
      }
      return Done(target.items[positionInfo.index]);
    }

    static method TryRemove(target: Obj, segment: string) returns (r: Attempt<()>)
      requires target.isList
      modifies target
      ensures var a := RemoveAttempt(target, old(target.items), segment);
        r == Ack(a) && target.items == (if a.Done? then a.value else old(target.items))
      ensures unchanged(target`entries) && unchanged(target`fieldValues)
    {
      var checked := Checked(target, target.items, segment);
      if !checked.Done? {
        return Ack(checked);
      }
      var positionInfo := checked.value.1;
      if positionInfo.kind == EndOfList {
        if |target.items| == 0 {
          return Raised(ArgumentOutOfRangeException);
        }
        target.items := RemoveAt(target.items, |target.items| - 1);
      } else {
        target.items := RemoveAt(target.items, positionInfo.index);
      }
      return Done(());
    }

    static method TryReplace(rt: Runtime, target: Obj, segment: string, value: Value) returns (r: Attempt<()>)
      requires target.isList
      modifies target
      ensures var a := ReplaceAttempt(rt, target, old(target.items), segment, value);
        r == Ack(a) && target.items == (if a.Done? then a.value else old(target.items))
      ensures unchanged(target`entries) && unchanged(target`fieldValues)
    {
      var checked := Checked(target, target.items, segment);
      if !checked.Done? {
        return Ack(checked);
      }
      var (typeArgument, positionInfo) := checked.value;
      var conversionResult := ConvertTo(rt, value, typeArgument);
      if !conversionResult.canBeConverted {
        return Refused(Text("Invalid value for property"));
      }
      if positionInfo.kind == EndOfList {
        if |target.items| == 0 {
          return Raised(ArgumentOutOfRangeException);
        }
        target.items := target.items[|target.items| - 1 := conversionResult.convertedInstance];
      } else {
        target.items := target.items[positionInfo.index := conversionResult.convertedInstance];
      }
      return Done(());
    }

    /** `TryTraverse`: any list, arrays included, is entered at an integer position
        inside it; anything else throws rather than answering `false`. */
    static function TryTraverse(target: Value, segment: string): (t: Traversal)
      reads if target.Ref? then {target.obj} else {}
      ensures t.NotFound? <==> !(target.Ref? && target.obj.isList)
      ensures t.Reached? <==> target.Ref? && target.obj.isList && TryParseInt32(segment).Some?
                              && 0 <= TryParseInt32(segment).value < |target.obj.items|
      ensures t.Reached? ==> t.next == target.obj.items[TryParseInt32(segment).value]
    {
      if !(target.Ref? && target.obj.isList) then NotFound
      else match TryParseInt32(segment)
        case None => Threw(InvalidOperationException("Invalid value for array property"))
        case Some(index) =>
          if index < 0 || index >= |target.obj.items| then Threw(InvalidOperationException("Invalid index for array property"))
          else Reached(target.obj.items[index])
    }

    /** A successful add grows the list by one at the position, the end for `-`; getting
        there gives the converted value and removing there restores the list. */
    static lemma AddThenGetAndRemove(rt: Runtime, o: Obj, items: seq<Value>, segment: string, value: Value)
      requires AddAttempt(rt, o, items, segment, value).Done?
      ensures var items' := AddAttempt(rt, o, items, segment, value).value;
        var p := GetPositionInfo(segment, |items|);
        var i := if p.kind == EndOfList then |items| else p.index;
        && |items'| == |items| + 1
        && items'[i] == ConvertTo(rt, value, o.listTypeArgument.value).convertedInstance
        && RemoveAt(items', i) == items
    {
      var p := GetPositionInfo(segment, |items|);
      var v := ConvertTo(rt, value, o.listTypeArgument.value).convertedInstance;
      if p.kind == EndOfList {
        assert InsertAt(items, |items|, v) == items + [v];
        RemoveInsertedAt(items, |items|, v);
      } else {
        RemoveInsertedAt(items, p.index, v);
      }
    }

    /** Add, unlike the error-sink list operation, refuses the position just past the
        end: appending is spelled `-` only. */
    static lemma AddAtCountRefused(rt: Runtime, o: Obj, items: seq<Value>, value: Value)
      requires ListTypeArgument(o).Done? && |items| <= Int32Max
      ensures AddAttempt(rt, o, items, FormatInt(|items|), value) == Refused(Text("Invalid index for array property"))
    {
      CountIsOutOfBounds(|items|);
    }

    /** Replace keeps the length and writes the converted value at the position. */
    static lemma ReplaceKeepsLength(rt: Runtime, o: Obj, items: seq<Value>, segment: string, value: Value)
      requires ReplaceAttempt(rt, o, items, segment, value).Done?
      ensures |ReplaceAttempt(rt, o, items, segment, value).value| == |items|
      ensures var p := GetPositionInfo(segment, |items|);
        var i := if p.kind == EndOfList then |items| - 1 else p.index;
        0 <= i < |items| && ReplaceAttempt(rt, o, items, segment, value).value[i] ==
          ConvertTo(rt, value, o.listTypeArgument.value).convertedInstance
    {
    }
  }

  // ======== PocoAdapter ========

  class PocoAdapter {
    /** The well-formedness the plain-object calls rely on: one value per property. */
    static predicate HasFieldValues(target: Value, fieldValues: seq<Value>) {
      target.Ref? && target.obj.contract.ObjectContract? ==> |fieldValues| == |target.obj.contract.properties|
    }

    /** The elements after `TryAdd` or `TryReplace`: the property must exist, be
        writable, and take the converted value, in that order. A null target has no
        runtime type to look the property up on. */
    static function WriteAttempt(rt: Runtime, target: Value, fieldValues: seq<Value>, segment: string, value: Value): Attempt<seq<Value>>
      requires HasFieldValues(target, fieldValues)
    {
      if target == Null then Raised(NullReferenceException)
      else match ResolveProperty(target, segment)
        case None => Refused(Text("Property not found"))
        case Some(i) =>
          var property := ContractOf(target).properties[i];
          if !property.writable then Refused(Text("Property not writable"))
          else
            var conversionResult := ConvertTo(rt, value, property.propertyType);
            if !conversionResult.canBeConverted then Refused(Text("invalid value for property"))
            else Done(fieldValues[i := conversionResult.convertedInstance])
    }

    /** The elements after `TryRemove`: the property is reset to the default of its
        type. */
    static function RemoveAttempt(rt: Runtime, target: Value, fieldValues: seq<Value>, segment: string): Attempt<seq<Value>>
      requires HasFieldValues(target, fieldValues)
    {
      if target == Null then Raised(NullReferenceException)
      else match ResolveProperty(target, segment)
        case None => Refused(Text("Property not found"))
        case Some(i) =>
          var property := ContractOf(target).properties[i];
          if !property.writable then Refused(Text("Property not writable"))
          else Done(fieldValues[i := DefaultValue(rt, property.propertyType)])
    }

    /** What `TryGet` returns. */
    static function GetAttempt(target: Value, fieldValues: seq<Value>, segment: string): Attempt<Value>
      requires HasFieldValues(target, fieldValues)
    {
      if target == Null then Raised(NullReferenceException)
      else match ResolveProperty(target, segment)
        case None => Refused(Text("Property not found"))
        case Some(i) =>
          if !ContractOf(target).properties[i].readable then Refused(Text("Property not readable"))
          else Done(fieldValues[i])
    }

    /** The state of the target: the property values of an object, nothing otherwise. */
    static function FieldValues(target: Value): seq<Value>
      reads if target.Ref? then {target.obj} else {}
    {
      if target.Ref? then target.obj.fieldValues else []
    }

    static method TryAdd(rt: Runtime, target: Value, segment: string, value: Value) returns (r: Attempt<()>)
      requires target.Ref? ==> target.obj.Valid()
      modifies if target.Ref? then {target.obj} else {}
      ensures var a := WriteAttempt(rt, target, old(FieldValues(target)), segment, value);
        r == Ack(a) && FieldValues(target) == (if a.Done? then a.value else old(FieldValues(target)))
      ensures target.Ref? ==> unchanged(target.obj`entries) && unchanged(target.obj`items)
    {
      r := Write(rt, target, segment, value);
    }

    static method TryReplace(rt: Runtime, target: Value, segment: string, value: Value) returns (r: Attempt<()>)
      requires target.Ref? ==> target.obj.Valid()
      modifies if target.Ref? then {target.obj} else {}
      ensures var a := WriteAttempt(rt, target, old(FieldValues(target)), segment, value);
        r == Ack(a) && FieldValues(target) == (if a.Done? then a.value else old(FieldValues(target)))
      ensures target.Ref? ==> unchanged(target.obj`entries) && unchanged(target.obj`items)
    {
      r := Write(rt, target, segment, value);
    }

    /** The body `TryAdd` and `TryReplace` share. */
    static method Write(rt: Runtime, target: Value, segment: string, value: Value) returns (r: Attempt<()>)
      requires target.Ref? ==> target.obj.Valid()
      modifies if target.Ref? then {target.obj} else {}
      ensures var a := WriteAttempt(rt, target, old(FieldValues(target)), segment, value);
        r == Ack(a) && FieldValues(target) == (if a.Done? then a.value else old(FieldValues(target)))
      ensures target.Ref? ==> unchanged(target.obj`entries) && unchanged(target.obj`items)
    {
      if target == Null {
        return Raised(NullReferenceException);
      }
      var found := ResolveProperty(target, segment);
      if found.None? {
        return Refused(Text("Property not found"));
      }
      var property := ContractOf(target).properties[found.value];
      if !property.writable {
        return Refused(Text("Property not writable"));
      }
      var conversionResult := ConvertTo(rt, value, property.propertyType);
      if !conversionResult.canBeConverted {
        return Refused(Text("invalid value for property"));
      }
      target.obj.fieldValues := target.obj.fieldValues[found.value := conversionResult.convertedInstance];
      return Done(());
    }

    static method TryRemove(rt: Runtime, target: Value, segment: string) returns (r: Attempt<()>)
      requires target.Ref? ==> target.obj.Valid()
      modifies if target.Ref? then {target.obj} else {}
      ensures var a := RemoveAttempt(rt, target, old(FieldValues(target)), segment);
        r == Ack(a) && FieldValues(target) == (if a.Done? then a.value else old(FieldValues(target)))
      ensures target.Ref? ==> unchanged(target.obj`entries) && unchanged(target.obj`items)
    {
      if target == Null {
        return Raised(NullReferenceException);
      }
      var found := ResolveProperty(target, segment);
      if found.None? {
        return Refused(Text("Property not found"));
      }
      var property := ContractOf(target).properties[found.value];
      if !property.writable {
        return Refused(Text("Property not writable"));
      }
      var value := Null;
      if property.propertyType.isValueType && !property.propertyType.isNullableOfT {
        value := rt.createInstance(property.propertyType);
      }
      target.obj.fieldValues := target.obj.fieldValues[found.value := value];
      return Done(());
    }

    static method TryGet(target: Value, segment: string) returns (r: Attempt<Value>)
      requires target.Ref? ==> target.obj.Valid()
      ensures r == GetAttempt(target, FieldValues(target), segment)
    {
      if target == Null {
        return Raised(NullReferenceException);
      }
      var found := ResolveProperty(target, segment);
      if found.None? {
        return Refused(Text("Property not found"));
      }
      if !ContractOf(target).properties[found.value].readable {
        return Refused(Text("Property not readable"));
      }
      return Done(target.obj.fieldValues[found.value]);
    }

    /** `TryTraverse`: the value of the property the segment names. */
    static function TryTraverse(target: Value, segment: string): (t: Traversal)
      reads if target.Ref? then {target.obj} else {}
      ensures t.Reached? <==> target != Null && ResolveProperty(target, segment).Some?
      ensures t.Reached? ==> t.next == PropertyValue(target.obj, ResolveProperty(target, segment).value)
      ensures !t.Threw?
    {
      if target == Null then NotFound
      else match ResolveProperty(target, segment)
        case Some(i) => Reached(PropertyValue(target.obj, i))
        case None => NotFound
    }

    /** The refusals come in a fixed order: a missing property, then a read-only one,
        then a value that does not convert. */
    static lemma CheckOrder(rt: Runtime, target: Value, fieldValues: seq<Value>, segment: string, value: Value)
      requires HasFieldValues(target, fieldValues) && target != Null
      ensures ResolveProperty(target, segment).None? ==>
                WriteAttempt(rt, target, fieldValues, segment, value) == Refused(Text("Property not found"))
                && RemoveAttempt(rt, target, fieldValues, segment) == Refused(Text("Property not found"))
      ensures ResolveProperty(target, segment).Some? &&
              !ContractOf(target).properties[ResolveProperty(target, segment).value].writable ==>
                WriteAttempt(rt, target, fieldValues, segment, value) == Refused(Text("Property not writable"))
                && RemoveAttempt(rt, target, fieldValues, segment) == Refused(Text("Property not writable"))
    {
    }

    /** A readable property reads back what a write stored, and the default of its type
        after a removal; the other properties keep their values. */
    static lemma WriteThenGet(rt: Runtime, target: Value, fieldValues: seq<Value>, segment: string, value: Value)
      requires HasFieldValues(target, fieldValues) && target != Null
      requires ResolveProperty(target, segment).Some?
      requires ContractOf(target).properties[ResolveProperty(target, segment).value].readable
      ensures WriteAttempt(rt, target, fieldValues, segment, value).Done? ==>
                GetAttempt(target, WriteAttempt(rt, target, fieldValues, segment, value).value, segment) ==
                  Done(ConvertTo(rt, value, ContractOf(target).properties[ResolveProperty(target, segment).value].propertyType).convertedInstance)
      ensures RemoveAttempt(rt, target, fieldValues, segment).Done? ==>
                GetAttempt(target, RemoveAttempt(rt, target, fieldValues, segment).value, segment) ==
                  Done(DefaultValue(rt, ContractOf(target).properties[ResolveProperty(target, segment).value].propertyType))
      ensures WriteAttempt(rt, target, fieldValues, segment, value).Done? ==>
                forall j :: 0 <= j < |fieldValues| && j != ResolveProperty(target, segment).value ==>
                  WriteAttempt(rt, target, fieldValues, segment, value).value[j] == fieldValues[j]
    {
    }
  }
}
