/**
 * Putting other lines in the place of those under a path: when they are the
 * same lines in another order, the tree changes there and nowhere else.
 */
module OutlineSplice {
  import opened Wrappers
  import opened Outline
  import opened OutlinePaths

  /** Lines with `region` in place of the lines from `lo` to `hi`. */
  function Spliced(ls: seq<Line>, r: Region, region: seq<Line>): seq<Line>
    requires r.lo <= r.hi <= |ls|
  {
    ls[..r.lo] + region + ls[r.hi..]
  }

  /** `region` fills the same rows as the lines from `lo` to `hi` and has no line that is not among them. */
  predicate Rearranges(ls: seq<Line>, r: Region, region: seq<Line>) {
    r.lo <= r.hi <= |ls| && |region| == r.hi - r.lo
    && forall i :: 0 <= i < |region| ==> region[i] in ls[r.lo..r.hi]
  }

  /** Splicing inside the middle of three pieces leaves the other two alone. */
  lemma SpliceMiddle(x: seq<Line>, y: seq<Line>, z: seq<Line>, q: Region, region: seq<Line>)
    requires q.lo <= q.hi <= |y|
    requires Rearranges(x + y + z, Region(q.lo + |x|, q.hi + |x|), region)
    ensures Rearranges(y, q, region)
    ensures Spliced(x + y + z, Region(q.lo + |x|, q.hi + |x|), region) == x + Spliced(y, q, region) + z
  {
    var ls := x + y + z;
    assert ls[q.lo + |x|..q.hi + |x|] == y[q.lo..q.hi];
    assert ls[..q.lo + |x|] == x + y[..q.lo];
    assert ls[q.hi + |x|..] == y[q.hi..] + z;
  }

  /** A splice keeps the number of lines, and each of its lines comes from the same row or the region replaced. */
  lemma SpliceFrom(ls: seq<Line>, q: Region, region: seq<Line>)
    requires Rearranges(ls, q, region)
    ensures |Spliced(ls, q, region)| == |ls|
    ensures forall i :: 0 <= i < |ls| ==> Spliced(ls, q, region)[i] in ls
    ensures forall i :: 0 <= i < |ls| && (i < q.lo || q.hi <= i) ==> Spliced(ls, q, region)[i] == ls[i]
  {
    var out := Spliced(ls, q, region);
    forall i | q.lo <= i < q.hi ensures out[i] in ls {
      assert out[i] == region[i - q.lo];
      var k :| 0 <= k < q.hi - q.lo && ls[q.lo..q.hi][k] == out[i];
      assert ls[q.lo + k] == out[i];
    }
  }

  /** `out` reads as `ls` does, but for the children under `path`, which stand in the same rows. */
  predicate Replaces(ls: seq<Line>, path: seq<string>, out: seq<Line>, kids: seq<Node>) {
    Forest(out) == ReplaceAt(Forest(ls), path, kids) && Locate(out, path) == Locate(ls, path)
  }

  /**
   * Replacing the lines under a path by the same lines in another order
   * replaces the children there and nothing else.
   */
  lemma {:induction false} SpliceReplaces(ls: seq<Line>, path: seq<string>, region: seq<Line>)
    requires Locate(ls, path).Some? && Rearranges(ls, Locate(ls, path).value, region)
    ensures Replaces(ls, path, Spliced(ls, Locate(ls, path).value, region), Forest(region))
    decreases |ls|
  {
    if path == [] {
      assert Spliced(ls, Locate(ls, path).value, region) == region;
    } else if ls == [] {
      LocateEmpty(path);
    } else if !ls[0].Content? {
      assert ls == [ls[0]] + ls[1..];
      SpliceUnderSkip(ls[0], ls[1..], path, region);
      SpliceReplaces(ls[1..], path, region);
      ReplaceSkip(ls[0], ls[1..], path, Spliced(ls[1..], Locate(ls[1..], path).value, region), Forest(region));
    } else {
      var value, rest := CutFirst(ls);
      if KeyOf(ls[0]) == path[0] {
        SpliceUnderValue(ls[0], value, rest, path, region);
        SpliceReplaces(value, path[1..], region);
        ReplaceInside(ls[0], value, rest, path, Locate(value, path[1..]).value, region);
      } else {
        SpliceUnderRest(ls[0], value, rest, path, region);
        SpliceReplaces(rest, path, region);
        ReplaceBelow(ls[0], value, rest, path, Locate(rest, path).value, region);
      }
    }
  }

  /** Where a splice under a path falls when the document starts with a data-free line ... */
  lemma SpliceUnderSkip(line: Line, rest: seq<Line>, path: seq<string>, region: seq<Line>)
    requires path != [] && !line.Content?
    requires Locate([line] + rest, path).Some?
    requires Rearranges([line] + rest, Locate([line] + rest, path).value, region)
    ensures Locate(rest, path).Some? && Rearranges(rest, Locate(rest, path).value, region)
    ensures Spliced([line] + rest, Locate([line] + rest, path).value, region)
         == [line] + Spliced(rest, Locate(rest, path).value, region)
  {
    hide Locate;
    LocateSkip(line, rest, path);
    var q := Locate(rest, path).value;
    SpliceLast([line], rest, q, region);
  }

  /** ... with the key the path goes through ... */
  lemma SpliceUnderValue(head: Line, value: seq<Line>, rest: seq<Line>, path: seq<string>, region: seq<Line>)
    requires path != [] && KeyOf(head) == path[0]
    requires head.Content? && AllUnder(value, Depth(head)) && Ends(rest, Depth(head))
    requires Locate([head] + value + rest, path).Some?
    requires Rearranges([head] + value + rest, Locate([head] + value + rest, path).value, region)
    ensures Locate(value, path[1..]).Some? && Rearranges(value, Locate(value, path[1..]).value, region)
    ensures Spliced([head] + value + rest, Locate([head] + value + rest, path).value, region)
         == [head] + Spliced(value, Locate(value, path[1..]).value, region) + rest
  {
    hide Locate;
    LocateFirst(head, value, rest, path);
    SpliceMiddle([head], value, rest, Locate(value, path[1..]).value, region);
  }

  /** ... and with another key. */
  lemma SpliceUnderRest(head: Line, value: seq<Line>, rest: seq<Line>, path: seq<string>, region: seq<Line>)
    requires path != [] && KeyOf(head) != path[0]
    requires head.Content? && AllUnder(value, Depth(head)) && Ends(rest, Depth(head))
    requires Locate([head] + value + rest, path).Some?
    requires Rearranges([head] + value + rest, Locate([head] + value + rest, path).value, region)
    ensures Locate(rest, path).Some? && Rearranges(rest, Locate(rest, path).value, region)
    ensures Spliced([head] + value + rest, Locate([head] + value + rest, path).value, region)
         == [head] + value + Spliced(rest, Locate(rest, path).value, region)
  {
    hide Locate;
    LocateFirst(head, value, rest, path);
    SpliceLast([head] + value, rest, Locate(rest, path).value, region);
  }

  lemma SpliceLast(x: seq<Line>, y: seq<Line>, q: Region, region: seq<Line>)
    requires q.lo <= q.hi <= |y|
    requires Rearranges(x + y, Region(q.lo + |x|, q.hi + |x|), region)
    ensures Rearranges(y, q, region)
    ensures Spliced(x + y, Region(q.lo + |x|, q.hi + |x|), region) == x + Spliced(y, q, region)
  {
    assert x + y == x + y + [];
    SpliceMiddle(x, y, [], q, region);
    assert x + Spliced(y, q, region) + [] == x + Spliced(y, q, region);
  }

  lemma LocateEmpty(path: seq<string>)
    requires path != []
    ensures Locate([], path) == None
  {
  }

  lemma ReplaceSkip(line: Line, rest: seq<Line>, path: seq<string>, changed: seq<Line>, kids: seq<Node>)
    requires path != [] && !line.Content? && Replaces(rest, path, changed, kids)
    ensures Replaces([line] + rest, path, [line] + changed, kids)
  {
    SkipLine(line, rest);
    SkipLine(line, changed);
    LocateSkip(line, rest, path);
    LocateSkip(line, changed, path);
  }

  lemma ReplaceInside(head: Line, value: seq<Line>, rest: seq<Line>, path: seq<string>, q: Region, region: seq<Line>)
    requires head.Content? && AllUnder(value, Depth(head)) && Ends(rest, Depth(head))
    requires path != [] && KeyOf(head) == path[0]
    requires Rearranges(value, q, region)
    requires Replaces(value, path[1..], Spliced(value, q, region), Forest(region))
    ensures Replaces([head] + value + rest, path, [head] + Spliced(value, q, region) + rest, Forest(region))
  {
    hide Forest;
    hide Locate;
    var moved := Spliced(value, q, region);
    SpliceFrom(value, q, region);
    assert AllUnder(moved, Depth(head));
    FirstNode(head, value, rest);
    FirstNode(head, moved, rest);
    LocateFirst(head, value, rest, path);
    LocateFirst(head, moved, rest, path);
  }

  lemma ReplaceBelow(head: Line, value: seq<Line>, rest: seq<Line>, path: seq<string>, q: Region, region: seq<Line>)
    requires head.Content? && AllUnder(value, Depth(head)) && Ends(rest, Depth(head))
    requires path != [] && KeyOf(head) != path[0]
    requires 0 < q.lo && Rearranges(rest, q, region)
    requires Replaces(rest, path, Spliced(rest, q, region), Forest(region))
    ensures Replaces([head] + value + rest, path, [head] + value + Spliced(rest, q, region), Forest(region))
  {
    hide Forest;
    hide Locate;
    var changed := Spliced(rest, q, region);
    SpliceFrom(rest, q, region);
    assert Ends(changed, Depth(head));
    FirstNode(head, value, rest);
    FirstNode(head, value, changed);
    LocateFirst(head, value, rest, path);
    LocateFirst(head, value, changed, path);
  }
}
