/**
 * How the last segment of a path addresses a position in a list: `-` names the end of
 * the list, an integer inside the list names that element, an integer outside it is out
 * of bounds, and anything else is not a position at all.
 */
module Positions {
  import opened Values
  import opened Numbers

  datatype PositionType = Index | EndOfList | Invalid | OutOfBounds

  datatype PositionInfo = PositionInfo(kind: PositionType, index: int)

  /** `GetPositionInfo`: the classification of `segment` against a list of `count`
      elements. */
  function GetPositionInfo(segment: string, count: nat): (p: PositionInfo)
    ensures p.kind == Index ==> 0 <= p.index < count
  {
    if segment == "-" then PositionInfo(EndOfList, -1)
    else match TryParseInt32(segment)
      case Some(position) =>
        if 0 <= position < count then PositionInfo(Index, position)
        else PositionInfo(OutOfBounds, position)
      case None => PositionInfo(Invalid, -1)
  }

  /** A position is usable when it names an element or the end of the list. */
  predicate IsUsable(p: PositionInfo) {
    p.kind == Index || p.kind == EndOfList
  }

  // ---- properties ----

  /** The classification is exhaustive and exact: an `Index` lies inside the list and
      is the integer the segment spells; `EndOfList` is exactly `-`; `OutOfBounds` is a
      32-bit integer outside the list; `Invalid` is everything that is not a 32-bit
      integer. */
  lemma PositionInfoMeaning(segment: string, count: nat)
    ensures var p := GetPositionInfo(segment, count);
      && (p.kind == EndOfList <==> segment == "-")
      && (p.kind == Index <==>
            segment != "-" && TryParseInt32(segment).Some? && 0 <= TryParseInt32(segment).value < count)
      && (p.kind == Index ==> 0 <= p.index < count && TryParseInt32(segment) == Some(p.index))
      && (p.kind == OutOfBounds ==>
            TryParseInt32(segment) == Some(p.index) && (p.index < 0 || p.index >= count))
      && (p.kind == Invalid <==> segment != "-" && TryParseInt32(segment).None?)
  {
    NotNumbers();
  }

  /** The text of an index addresses that index: inside the list it is the element,
      outside (including exactly at the end) it is out of bounds. */
  lemma {:induction false} PositionOfFormattedIndex(i: int, count: nat)
    requires IsInt32(i)
    ensures GetPositionInfo(FormatInt(i), count) ==
              if 0 <= i < count then PositionInfo(Index, i) else PositionInfo(OutOfBounds, i)
  {
    TryParseFormatInt(i);
    if FormatInt(i) == "-" {
      NotNumbers();
      assert false;
    }
  }

  /** Appending is spelled `-`: the text of the current length is out of bounds. */
  lemma CountIsOutOfBounds(count: nat)
    requires count <= Int32Max
    ensures GetPositionInfo(FormatInt(count), count).kind == OutOfBounds
  {
    PositionOfFormattedIndex(count, count);
  }

  /** The positions exercised against a list of two elements: negative and past-the-end
      integers are out of bounds, `_` and `blah` are not positions. */
  lemma PositionsOnTwoElements()
    ensures GetPositionInfo("-1", 2).kind == OutOfBounds
    ensures GetPositionInfo("-2", 2).kind == OutOfBounds
    ensures GetPositionInfo("2", 2).kind == OutOfBounds
    ensures GetPositionInfo("3", 2).kind == OutOfBounds
    ensures GetPositionInfo("_", 2).kind == Invalid
    ensures GetPositionInfo("blah", 2).kind == Invalid
    ensures GetPositionInfo("0", 2) == PositionInfo(Index, 0)
    ensures GetPositionInfo("-", 2) == PositionInfo(EndOfList, -1)
  {
    PositionOfFormattedIndex(-1, 2);
    PositionOfFormattedIndex(-2, 2);
    PositionOfFormattedIndex(2, 2);
    PositionOfFormattedIndex(3, 2);
    PositionOfFormattedIndex(0, 2);
    NotNumbers();
  }
}
