/**
 * Where a path of keys leads, in the tree and in the lines it is read from.
 */
module OutlinePaths {
  import opened Wrappers
  import opened Outline

  /** The children of the node reached by a path of keys. */
  function KidsAt(f: seq<Node>, path: seq<string>): Option<seq<Node>>
    decreases |path|, |f|
  {
    if path == [] then Some(f)
    else if f == [] then None
    else if KeyOf(f[0].line) == path[0] then KidsAt(f[0].kids, path[1..])
    else KidsAt(f[1..], path)
  }

  /** The same forest with other children at that node. */
  function ReplaceAt(f: seq<Node>, path: seq<string>, kids: seq<Node>): seq<Node>
    decreases |path|, |f|
  {
    if path == [] then kids
    else if f == [] then []
    else if KeyOf(f[0].line) == path[0] then
      [Node(f[0].line, ReplaceAt(f[0].kids, path[1..], kids))] + f[1..]
    else [f[0]] + ReplaceAt(f[1..], path, kids)
  }

  datatype Region = Region(lo: nat, hi: nat)

  function Shift(r: Option<Region>, n: nat): Option<Region> {
    if r.Some? then Some(Region(r.value.lo + n, r.value.hi + n)) else None
  }

  /** The lines that hold the children of the node at a path. */
  function Locate(ls: seq<Line>, path: seq<string>): (r: Option<Region>)
    ensures r.Some? ==> r.value.lo <= r.value.hi <= |ls|
    ensures r.Some? && path != [] ==> 0 < r.value.lo
    decreases |ls|
  {
    if path == [] then Some(Region(0, |ls|))
    else if ls == [] then None
    else if !ls[0].Content? then Shift(Locate(ls[1..], path), 1)
    else
      var e := Stop(ls, 1, |ls|, Depth(ls[0]));
      if KeyOf(ls[0]) == path[0] then Shift(Locate(ls[1..e], path[1..]), 1)
      else Shift(Locate(ls[e..], path), e)
  }

  lemma LocateFirst(head: Line, value: seq<Line>, rest: seq<Line>, path: seq<string>)
    requires path != [] && head.Content? && AllUnder(value, Depth(head)) && Ends(rest, Depth(head))
    ensures Locate([head] + value + rest, path)
         == if KeyOf(head) == path[0] then Shift(Locate(value, path[1..]), 1)
            else Shift(Locate(rest, path), 1 + |value|)
  {
    var ls := [head] + value + rest;
    var e := 1 + |value|;
    assert forall k :: 1 <= k < e ==> ls[k] == value[k - 1];
    StopIs(ls, 1, Depth(head), e);
    assert ls[1..e] == value && ls[e..] == rest;
  }

  lemma LocateSkip(line: Line, rest: seq<Line>, path: seq<string>)
    requires path != [] && !line.Content?
    ensures Locate([line] + rest, path) == Shift(Locate(rest, path), 1)
  {
    assert ([line] + rest)[1..] == rest;
  }

  /** A region of the middle one of three pieces. */
  lemma MiddleSlice(x: seq<Line>, y: seq<Line>, z: seq<Line>, q: Region)
    requires q.lo <= q.hi <= |y|
    ensures (x + y + z)[q.lo + |x|..q.hi + |x|] == y[q.lo..q.hi]
  {
  }

  /** Rows and tree agree on what a path names. */
  predicate Agrees(ls: seq<Line>, path: seq<string>) {
    var r := Locate(ls, path);
    KidsAt(Forest(ls), path) == if r.Some? then Some(Forest(ls[r.value.lo..r.value.hi])) else None
  }

  lemma {:induction false} LocateKids(ls: seq<Line>, path: seq<string>)
    ensures Agrees(ls, path)
    decreases |ls|
  {
    if path == [] {
      assert ls[0..|ls|] == ls;
    } else if ls == [] {
    } else if !ls[0].Content? {
      LocateKids(ls[1..], path);
      AgreesSkip(ls[0], ls[1..], path);
      assert ls == [ls[0]] + ls[1..];
    } else {
      var value, rest := CutFirst(ls);
      if KeyOf(ls[0]) == path[0] {
        LocateKids(value, path[1..]);
      } else {
        LocateKids(rest, path);
      }
      AgreesFirst(ls[0], value, rest, path);
    }
  }

  lemma AgreesSkip(line: Line, rest: seq<Line>, path: seq<string>)
    requires path != [] && !line.Content? && Agrees(rest, path)
    ensures Agrees([line] + rest, path)
  {
    hide Forest;
    hide Locate;
    SkipLine(line, rest);
    LocateSkip(line, rest, path);
    var r := Locate(rest, path);
    assert [line] + rest + [] == [line] + rest;
    if r.Some? { MiddleSlice([line], rest, [], r.value); }
  }

  lemma AgreesFirst(head: Line, value: seq<Line>, rest: seq<Line>, path: seq<string>)
    requires path != [] && head.Content? && AllUnder(value, Depth(head)) && Ends(rest, Depth(head))
    requires if KeyOf(head) == path[0] then Agrees(value, path[1..]) else Agrees(rest, path)
    ensures Agrees([head] + value + rest, path)
  {
    hide Forest;
    hide Locate;
    FirstNode(head, value, rest);
    LocateFirst(head, value, rest, path);
    if KeyOf(head) == path[0] {
      var r := Locate(value, path[1..]);
      if r.Some? { MiddleSlice([head], value, rest, r.value); }
    } else {
      var r := Locate(rest, path);
      assert [head] + value + rest + [] == [head] + value + rest;
      if r.Some? { MiddleSlice([head] + value, rest, [], r.value); }
    }
  }

  /** What stands around a located region: its key above it, and below it nothing deeper than that key. */
  ghost predicate Edges(ls: seq<Line>, r: Region) {
    0 < r.lo <= r.hi <= |ls| && ls[r.lo - 1].Content?
    && (forall i :: r.lo <= i < r.hi ==> Under(ls[i], Depth(ls[r.lo - 1])))
    && (r.hi < |ls| ==> !Under(ls[r.hi], Depth(ls[r.lo - 1])))
  }

  lemma EdgesShift(ls: seq<Line>, a: nat, q: Region)
    requires a <= |ls| && Edges(ls[a..], q)
    ensures Edges(ls, Region(q.lo + a, q.hi + a))
  {
    assert forall i :: a <= i < |ls| ==> ls[i] == ls[a..][i - a];
  }

  ghost predicate Edged(ls: seq<Line>, path: seq<string>) {
    path != [] && Locate(ls, path).Some? ==> Edges(ls, Locate(ls, path).value)
  }

  lemma {:induction false} LocateEdges(ls: seq<Line>, path: seq<string>)
    ensures Edged(ls, path)
    decreases |ls|
  {
    if ls != [] && path != [] {
      var e := if ls[0].Content? then Stop(ls, 1, |ls|, Depth(ls[0])) else 1;
      LocateEdges(ls[e..], path);
      LocateEdges(ls[1..e], path[1..]);
      hide Edged;
      if ls[0].Content? && KeyOf(ls[0]) == path[0] {
        LocateInside(ls, path, e);
        EdgedInside(ls, path, e);
      } else {
        LocateBelow(ls, path, e);
        EdgedBelow(ls, path, e);
      }
    }
  }

  lemma LocateBelow(ls: seq<Line>, path: seq<string>, e: nat)
    requires ls != [] && path != [] && (ls[0].Content? ==> KeyOf(ls[0]) != path[0])
    requires e == if ls[0].Content? then Stop(ls, 1, |ls|, Depth(ls[0])) else 1
    ensures Locate(ls, path) == Shift(Locate(ls[e..], path), e)
  {
    hide Shift;
    hide Stop;
  }

  lemma LocateInside(ls: seq<Line>, path: seq<string>, e: nat)
    requires ls != [] && path != [] && ls[0].Content? && KeyOf(ls[0]) == path[0]
    requires e == Stop(ls, 1, |ls|, Depth(ls[0]))
    ensures Locate(ls, path) == Shift(Locate(ls[1..e], path[1..]), 1)
    ensures path[1..] == [] ==> Locate(ls[1..e], path[1..]) == Some(Region(0, e - 1))
  {
    hide Shift;
    hide Stop;
  }

  lemma EdgedBelow(ls: seq<Line>, path: seq<string>, e: nat)
    requires e <= |ls| && Locate(ls, path) == Shift(Locate(ls[e..], path), e)
    requires Edged(ls[e..], path)
    ensures Edged(ls, path)
  {
    hide Edges;
    hide Locate;
    var r := Locate(ls[e..], path);
    if path != [] && r.Some? { EdgesShift(ls, e, r.value); }
  }

  lemma EdgedInside(ls: seq<Line>, path: seq<string>, e: nat)
    requires ls != [] && path != [] && ls[0].Content?
    requires e == Stop(ls, 1, |ls|, Depth(ls[0])) && Edged(ls[1..e], path[1..])
    requires Locate(ls, path) == Shift(Locate(ls[1..e], path[1..]), 1)
    requires path[1..] == [] ==> Locate(ls[1..e], path[1..]) == Some(Region(0, e - 1))
    ensures Edged(ls, path)
  {
    var inner, below := ls[1..e], path[1..];
    var r := Locate(inner, below);
    hide Edges;
    hide Locate;
    if below == [] {
      EdgesHead(ls, e);
    } else if r.Some? {
      EdgesInner(ls, e, r.value);
    }
    EdgedFrom(ls, path, Shift(r, 1));
  }

  lemma EdgedFrom(ls: seq<Line>, path: seq<string>, r: Option<Region>)
    requires Locate(ls, path) == r && (r.Some? ==> Edges(ls, r.value))
    ensures Edged(ls, path)
  {
    hide Edges;
    hide Locate;
  }

  lemma EdgesHead(ls: seq<Line>, e: nat)
    requires ls != [] && ls[0].Content? && e == Stop(ls, 1, |ls|, Depth(ls[0]))
    ensures Edges(ls, Region(1, e))
  {
  }

  lemma EdgesInner(ls: seq<Line>, e: nat, q: Region)
    requires 1 <= e <= |ls| && ls[0].Content? && Edges(ls[1..e], q)
    requires forall i :: 1 <= i < e ==> Under(ls[i], Depth(ls[0]))
    requires e < |ls| ==> !Under(ls[e], Depth(ls[0]))
    ensures Edges(ls, Region(q.lo + 1, q.hi + 1))
  {
    assert forall i :: 1 <= i < e ==> ls[i] == ls[1..e][i - 1];
    assert Under(ls[q.lo], Depth(ls[0]));
  }
}
