/**
 * Paths and the cursor over their segments. A path is split at every `/` and the empty
 * pieces are dropped, so leading, trailing and doubled slashes are insignificant.
 * `OperationContext` walks the segments one at a time while the visitors move its
 * target object down the graph.
 */
module Paths {
  import opened Values

  /** The length of the text up to the first `/`. */
  function TokenLength(s: string): (n: nat)
    ensures n <= |s|
    ensures forall i :: 0 <= i < n ==> s[i] != '/'
    ensures n < |s| ==> s[n] == '/'
  {
    if |s| == 0 || s[0] == '/' then 0 else 1 + TokenLength(s[1..])
  }

  /** `path.Split(new[] { '/' }, StringSplitOptions.RemoveEmptyEntries)`. */
  function SplitPath(s: string): (segments: seq<string>)
    ensures forall i :: 0 <= i < |segments| ==> IsSegment(segments[i])
    decreases |s|
  {
    if |s| == 0 then []
    else if s[0] == '/' then SplitPath(s[1..])
    else
      var n := TokenLength(s);
      [s[..n]] + SplitPath(s[n..])
  }

  /** What a split can produce: a non-empty text without `/`. */
  predicate IsSegment(t: string) {
    |t| > 0 && forall i :: 0 <= i < |t| ==> t[i] != '/'
  }

  /** The path `/s0/s1/...` made of the segments. */
  function JoinPath(segments: seq<string>): string {
    if |segments| == 0 then "" else "/" + segments[0] + JoinPath(segments[1..])
  }

  // ---- properties of splitting ----

  lemma {:induction false} TokenLengthOfSegment(t: string, rest: string)
    requires IsSegment(t)
    requires |rest| == 0 || rest[0] == '/'
    ensures TokenLength(t + rest) == |t|
  {
    if |t| > 1 {
      assert (t + rest)[1..] == t[1..] + rest;
      TokenLengthOfSegment(t[1..], rest);
    }
  }

  /** Splitting the path made of well-formed segments gives the segments back. */
  lemma {:induction false} SplitJoin(segments: seq<string>)
    requires forall i :: 0 <= i < |segments| ==> IsSegment(segments[i])
    ensures SplitPath(JoinPath(segments)) == segments
  {
    if |segments| > 0 {
      var t := segments[0];
      var rest := JoinPath(segments[1..]);
      var s := "/" + t + rest;
      assert s[1..] == t + rest;
      TokenLengthOfSegment(t, rest);
      assert (t + rest)[..|t|] == t;
      assert (t + rest)[|t|..] == rest;
      SplitJoin(segments[1..]);
    }
  }

  /** Writing out a split path canonically and splitting it again changes nothing. */
  lemma SplitIsIdempotent(path: string)
    ensures SplitPath(JoinPath(SplitPath(path))) == SplitPath(path)
  {
    SplitJoin(SplitPath(path));
  }

  /** A path made only of slashes has no segments. */
  lemma {:induction false} OnlySlashes(path: string)
    requires forall i :: 0 <= i < |path| ==> path[i] == '/'
    ensures SplitPath(path) == []
  {
    if |path| > 0 {
      OnlySlashes(path[1..]);
    }
  }

  /** Doubled and trailing slashes are insignificant. */
  lemma ExtraSlashesIgnored()
    ensures SplitPath("/a//b/") == ["a", "b"]
    ensures SplitPath("a/b") == ["a", "b"]
  {
    OnlySlashes("/");
    assert TokenLength("b/") == 1;
    assert "b/"[..1] == "b" && "b/"[1..] == "/";
    assert SplitPath("b/") == ["b"];
    assert "/b/"[1..] == "b/";
    assert SplitPath("/b/") == ["b"];
    assert "//b/"[1..] == "/b/";
    assert SplitPath("//b/") == ["b"];
    assert TokenLength("a//b/") == 1;
    assert "a//b/"[..1] == "a" && "a//b/"[1..] == "//b/";
    assert SplitPath("a//b/") == ["a", "b"];
    assert "/a//b/"[1..] == "a//b/";
    SplitJoin(["a", "b"]);
    assert JoinPath(["a", "b"]) == "/a/b";
    assert "/a/b"[1..] == "a/b";
  }

  // ---- segments and the cursor ----

  /** `PathSegment`: a segment's text and whether it is the last of its path. Its
      `ToString`, and the implicit conversion to string, is the text. */
  datatype PathSegment = PathSegment(value: string, isFinal: bool)

  /** The segment at `index` of a split path, as the cursor hands it out. */
  function SegmentAt(segments: seq<string>, index: nat): (s: PathSegment)
    requires index < |segments|
    ensures s.value == segments[index]
    ensures s.isFinal <==> index == |segments| - 1
  {
    PathSegment(segments[index], index == |segments| - 1)
  }

  /** `OperationContext`: the path being followed, its segments, the operation, the
      position of the cursor (-1 before the first segment) and the current target. */
  class OperationContext {
    const path: string
    const segments: seq<string>
    const operation: Operation
    var index: int
    var target: Value

    ghost predicate Valid()
      reads this
    {
      segments == SplitPath(path) && -1 <= index < |segments|
    }

    constructor(path: string, target: Value, operation: Operation)
      ensures Valid()
      ensures this.path == path && this.segments == SplitPath(path)
      ensures this.operation == operation
      ensures this.index == -1 && this.target == target
    {
      this.path := path;
      this.segments := SplitPath(path);
      this.operation := operation;
      this.index := -1;
      this.target := target;
    }

    /** `TryGetSegment`: advances to the next segment and hands it out, or reports that
        the path is exhausted (the out parameter then holds `default(PathSegment)`,
        here `None`). */
    method TryGetSegment() returns (segment: Option<PathSegment>)
      requires Valid()
      modifies this`index
      ensures Valid()
      ensures old(index) + 1 < |segments| ==>
                index == old(index) + 1 && segment == Some(SegmentAt(segments, index))
      ensures old(index) + 1 >= |segments| ==> index == old(index) && segment == None
    {
      if index + 1 < |segments| {
        index := index + 1;
        var isFinalSegment := index == |segments| - 1;
        segment := Some(PathSegment(segments[index], isFinalSegment));
      } else {
        segment := None;
      }
    }

    /** `MoveToNextPathSegment`: the same advance without handing out the segment; the
        visitor chain reads it through `CurrentSegment` afterwards. */
    method MoveToNextPathSegment() returns (moved: bool)
      requires Valid()
      modifies this`index
      ensures Valid()
      ensures moved <==> old(index) + 1 < |segments|
      ensures index == if moved then old(index) + 1 else old(index)
    {
      if index + 1 < |segments| {
        index := index + 1;
        moved := true;
      } else {
        moved := false;
      }
    }

    /** `CurrentSegment`: the segment the cursor is on. */
    function CurrentSegment(): (s: PathSegment)
      reads this
      requires Valid() && 0 <= index
      ensures s == SegmentAt(segments, index)
    {
      PathSegment(segments[index], index == |segments| - 1)
    }

    /** `SetNewTargetObject`. */
    method SetNewTargetObject(newTargetObject: Value)
      modifies this`target
      ensures target == newTargetObject
    {
      target := newTargetObject;
    }
  }
}
