/**
 * `_apply_order` of `formatter.py`: the top level, every service and every
 * labels mapping are put in canonical order one after the other, each step on
 * the text the previous one left and each under a guard of its own.
 */
module ApplyOrder {
  import opened Wrappers
  import opened Outline
  import opened OutlinePaths
  import opened KeyOrder
  import opened Reorder
  import opened ReorderMeaning

  /** One reorder: the mapping's path, the sort key of its keys, and the rule it applies. */
  datatype Step = Step(path: seq<string>, rank: string -> Rank, rule: string)

  // -- what the parser reports ---------------------------------------------------

  function HeadLines(f: seq<Node>): (r: seq<Line>)
    ensures |r| == |f| && forall i :: 0 <= i < |f| ==> r[i] == f[i].line
  {
    seq(|f|, i requires 0 <= i < |f| => f[i].line)
  }

  /** The lines of the keys of the node at a path, in their order. */
  function LinesAt(f: seq<Node>, path: seq<string>): Option<seq<Line>> {
    var kids := KidsAt(f, path);
    if kids.Some? then Some(HeadLines(kids.value)) else None
  }

  predicate IsKey(line: Line) { line.Content? && !line.item }

  /** A block mapping: at least one key, and no sequence item among them. */
  predicate IsMapping(keys: seq<Line>) {
    keys != [] && forall i :: 0 <= i < |keys| ==> IsKey(keys[i])
  }

  const MERGE_KEY := "<<"

  predicate IsMerged(keys: seq<Line>) {
    exists i :: 0 <= i < |keys| && KeyOf(keys[i]) == MERGE_KEY
  }

  function Ranks(rank: string -> Rank, keys: seq<Line>): (r: seq<Rank>)
    ensures |r| == |keys| && forall i :: 0 <= i < |keys| ==> r[i] == rank(KeyOf(keys[i]))
  {
    seq(|keys|, i requires 0 <= i < |keys| => rank(KeyOf(keys[i])))
  }

  function LinesIn(lines: seq<Line>, rows: seq<nat>): (r: seq<Line>)
    requires InText(lines, rows)
    ensures |r| == |rows| && forall i :: 0 <= i < |rows| ==> r[i] == lines[rows[i]]
  {
    seq(|rows|, i requires 0 <= i < |rows| => lines[rows[i]])
  }

  function Columns(keys: seq<Line>): (r: seq<nat>)
    ensures |r| == |keys| && forall i :: 0 <= i < |keys| ==> r[i] == if keys[i].Content? then keys[i].indent else 0
  {
    seq(|keys|, i requires 0 <= i < |keys| => if keys[i].Content? then keys[i].indent else 0)
  }

  /** `reorder_mapping(text, path, sort_key)`; anything but a mapping is returned as it is. */
  function ReorderAt(lines: seq<Line>, step: Step): Option<seq<Line>> {
    var at := Locate(lines, step.path);
    if at.None? then Some(lines)
    else
      HeadsOpenNodes(lines, at.value.lo, at.value.hi);
      var rows := Heads(lines, at.value.lo, at.value.hi);
      var keys := LinesIn(lines, rows);
      if !IsMapping(keys) then Some(lines)
      else Reordered(lines, step.path != [], rows, Columns(keys), Ranks(step.rank, keys), IsMerged(keys))
  }

  type Guard = (seq<Line>, seq<Line>) -> bool

  /** The steps in turn: the lines left, and the rules that could not be applied. */
  function Applied(lines: seq<Line>, steps: seq<Step>, same: Guard): (seq<Line>, seq<string>)
    decreases |steps|
  {
    if steps == [] then (lines, [])
    else
      var reordered := ReorderAt(lines, steps[0]);
      if reordered.None? || !same(lines, reordered.value) then
        var (out, skipped) := Applied(lines, steps[1..], same);
        (out, [steps[0].rule] + skipped)
      else Applied(reordered.value, steps[1..], same)
  }

  /** `_apply_order`, as the source's loop. */
  method RunSteps(text: seq<Line>, steps: seq<Step>, same: Guard) returns (lines: seq<Line>, skipped: seq<string>)
    ensures (lines, skipped) == Applied(text, steps, same)
  {
    hide ReorderAt;
    lines, skipped := text, [];
    assert steps[0..] == steps;
    assert [] + Applied(text, steps, same).1 == Applied(text, steps, same).1;
    for i := 0 to |steps|
      invariant Applied(text, steps, same)
             == (Applied(lines, steps[i..], same).0, skipped + Applied(lines, steps[i..], same).1)
    {
      var reordered := ReorderAt(lines, steps[i]);
      ghost var rest := Applied(lines, steps[i..], same);
      assert steps[i..][1..] == steps[i + 1..];
      if reordered.None? || !same(lines, reordered.value) {
        ghost var before := skipped;
        skipped := skipped + [steps[i].rule];
        assert before + rest.1 == skipped + Applied(lines, steps[i + 1..], same).1;
        continue;
      }
      lines := reordered.value;
    }
    assert skipped + [] == skipped;
  }

  // -- one step, seen in the document ----------------------------------------------

  /** The keys of a mapping in canonical order; a mapping that merges another keeps its own. */
  function Sorted(rank: string -> Rank, keys: seq<Line>): seq<Line> {
    if !IsMapping(keys) || IsMerged(keys) then keys
    else
      StableOrderSorts(Ranks(rank, keys));
      Pick(keys, StableOrder(Ranks(rank, keys)))
  }

  function SortedAt(f: seq<Node>, step: Step): Option<seq<Line>> {
    var keys := LinesAt(f, step.path);
    if keys.Some? then Some(Sorted(step.rank, keys.value)) else None
  }

  /** `out` reads as `lines` does, with the children under `path` picked in some order. */
  ghost predicate Permutes(lines: seq<Line>, path: seq<string>, out: seq<Line>) {
    out == lines || exists order :: PermutesBy(lines, path, out, order)
  }

  ghost predicate PermutesBy(lines: seq<Line>, path: seq<string>, out: seq<Line>, order: seq<nat>) {
    var kids := KidsAt(Forest(lines), path);
    kids.Some? && IsOrder(order, |kids.value|)
    && Forest(out) == ReplaceAt(Forest(lines), path, Pick(kids.value, order))
  }

  lemma RowsAreKeys(lines: seq<Line>, path: seq<string>)
    requires Locate(lines, path).Some?
    ensures var r := Locate(lines, path).value; var rows := Heads(lines, r.lo, r.hi);
      InText(lines, rows) && LinesAt(Forest(lines), path) == Some(LinesIn(lines, rows))
  {
    var r := Locate(lines, path).value;
    var rows := Heads(lines, r.lo, r.hi);
    LocateKids(lines, path);
    HeadNodes(lines, r.lo, r.hi);
    var f := Forest(lines[r.lo..r.hi]);
    assert HeadLines(f) == LinesIn(lines, rows);
  }

  /** Where the formatter does not give up, the mapping at the path is in canonical order and nothing else moved. */
  lemma StepSorts(lines: seq<Line>, step: Step)
    requires ReorderAt(lines, step).Some?
    ensures var out := ReorderAt(lines, step).value;
      Permutes(lines, step.path, out) && LinesAt(Forest(out), step.path) == SortedAt(Forest(lines), step)
  {
    var at := Locate(lines, step.path);
    LocateKids(lines, step.path);
    if at.Some? {
      RowsAreKeys(lines, step.path);
      var rows := Heads(lines, at.value.lo, at.value.hi);
      var keys := LinesIn(lines, rows);
      if IsMapping(keys) && !IsMerged(keys) {
        StableOrderSorts(Ranks(step.rank, keys));
        MappingSorts(lines, step, rows, keys);
      }
    }
  }

  lemma MappingSorts(lines: seq<Line>, step: Step, rows: seq<nat>, keys: seq<Line>)
    requires Locate(lines, step.path).Some? && InText(lines, rows) && keys == LinesIn(lines, rows)
    requires var r := Locate(lines, step.path).value; rows == Heads(lines, r.lo, r.hi)
    requires LinesAt(Forest(lines), step.path) == Some(keys)
    requires IsMapping(keys) && !IsMerged(keys)
    requires IsOrder(StableOrder(Ranks(step.rank, keys)), |keys|)
    requires ReorderAt(lines, step).Some?
    ensures var out := ReorderAt(lines, step).value;
      Permutes(lines, step.path, out) && LinesAt(Forest(out), step.path) == Some(Sorted(step.rank, keys))
  {
    hide Forest;
    hide Moved;
    hide Locate;
    hide Heads;
    hide StableOrder;
    var columns, ranks := Columns(keys), Ranks(step.rank, keys);
    var order := StableOrder(ranks);
    var out := ReorderAt(lines, step).value;
    assert Some(out) == Reordered(lines, step.path != [], rows, columns, ranks, false);
    if |rows| < 2 || order == Identity(|rows|) {
      if |rows| < 2 { OrderBounds(order, |rows|); assert order == Identity(|rows|); }
      PickIdentity(keys);
    } else {
      var k := Keys(step.path != [], rows, columns[0]);
      assert Reported(lines, step.path, k);
      assert out == Moved(lines, k, order);
      MoveReordersKeys(lines, step.path, k, order);
      var kids := KidsAt(Forest(lines), step.path).value;
      assert PermutesBy(lines, step.path, out, order);
      ReplacedKids(Forest(lines), step.path, Pick(kids, order));
      assert HeadLines(Pick(kids, order)) == Pick(keys, order);
    }
  }

  // -- a replacement seen from elsewhere in the document -----------------------------

  predicate DistinctKeys(f: seq<Node>) {
    forall i, j :: 0 <= i < j < |f| ==> KeyOf(f[i].line) != KeyOf(f[j].line)
  }

  lemma {:induction false} ReplacedKids(f: seq<Node>, path: seq<string>, kids: seq<Node>)
    requires KidsAt(f, path).Some?
    ensures KidsAt(ReplaceAt(f, path, kids), path) == Some(kids)
    decreases |path|, |f|
  {
    if path == [] {
    } else if KeyOf(f[0].line) == path[0] {
      ReplacedKids(f[0].kids, path[1..], kids);
    } else {
      ReplacedKids(f[1..], path, kids);
    }
  }

  /** Looking a key up is looking at the first node that writes it. */
  lemma {:induction false} LookUp(f: seq<Node>, path: seq<string>, i: nat)
    requires path != [] && i < |f| && KeyOf(f[i].line) == path[0]
    requires forall j :: 0 <= j < i ==> KeyOf(f[j].line) != path[0]
    ensures KidsAt(f, path) == KidsAt(f[i].kids, path[1..])
    decreases i
  {
    if i > 0 { LookUp(f[1..], path, i - 1); }
  }

  lemma {:induction false} LookUpNone(f: seq<Node>, path: seq<string>)
    requires path != [] && forall j :: 0 <= j < |f| ==> KeyOf(f[j].line) != path[0]
    ensures KidsAt(f, path) == None
    decreases |f|
  {
    if f != [] { LookUpNone(f[1..], path); }
  }

  /** When keys are distinct, the order in which they stand does not matter to a lookup. */
  lemma LookUpPermuted(f: seq<Node>, order: seq<nat>, path: seq<string>)
    requires path != [] && DistinctKeys(f) && IsOrder(order, |f|)
    ensures KidsAt(Pick(f, order), path) == KidsAt(f, path)
  {
    var g := Pick(f, order);
    PickPermutes(f, order);
    if i :| 0 <= i < |f| && KeyOf(f[i].line) == path[0] {
      LookUp(f, path, i);
      assert f[i] in multiset(g);
      var j :| 0 <= j < |g| && g[j] == f[i];
      forall k | 0 <= k < j ensures KeyOf(g[k].line) != path[0] {
        if KeyOf(g[k].line) == path[0] {
          assert order[k] == i by { assert f[order[k]] == g[k]; }
          assert order[j] == i by { assert f[order[j]] == g[j]; }
          OrderDistinct(order, |f|, k, j);
        }
      }
      LookUp(g, path, j);
    } else {
      LookUpNone(f, path);
      LookUpNone(g, path);
    }
  }

  lemma Twice<T>(s: seq<T>, i: nat, j: nat)
    requires i < j < |s| && s[i] == s[j]
    ensures multiset(s)[s[i]] >= 2
  {
    assert s == s[..i] + [s[i]] + s[i + 1..j] + [s[j]] + s[j + 1..];
  }

  lemma OrderDistinct(order: seq<nat>, n: nat, i: nat, j: nat)
    requires IsOrder(order, n) && i < j < |order|
    ensures order[i] != order[j]
  {
    OrderBounds(order, n);
    var id, x := Identity(n), order[i];
    assert id == id[..x] + [x] + id[x + 1..];
    assert multiset(id)[x] == 1;
    if order[i] == order[j] {
      Twice(order, i, j);
    }
  }

  lemma UnderHead(head: Node, kids: seq<Node>, rest: seq<Node>, other: seq<string>)
    requires other != [] && other[0] == KeyOf(head.line) ==> LinesAt(kids, other[1..]) == LinesAt(head.kids, other[1..])
    ensures LinesAt([Node(head.line, kids)] + rest, other) == LinesAt([head] + rest, other)
  {
    var f, g := [head] + rest, [Node(head.line, kids)] + rest;
    assert f[1..] == rest && g[1..] == rest;
    if other == [] { assert HeadLines(g) == HeadLines(f); }
  }

  lemma BelowHead(head: Node, rest: seq<Node>, g: seq<Node>, other: seq<string>)
    requires LinesAt(g, other) == LinesAt(rest, other)
    ensures LinesAt([head] + g, other) == LinesAt([head] + rest, other)
  {
    assert ([head] + g)[1..] == g && ([head] + rest)[1..] == rest;
    if other == [] {
      assert KidsAt(g, []) == Some(g) && KidsAt(rest, []) == Some(rest);
      assert HeadLines([head] + g) == [head.line] + HeadLines(g);
      assert HeadLines([head] + rest) == [head.line] + HeadLines(rest);
    }
  }

  /** Reordering one mapping leaves the keys of every other mapping as they were. */
  lemma {:induction false} ElsewhereSame(f: seq<Node>, path: seq<string>, order: seq<nat>, other: seq<string>)
    requires KidsAt(f, path).Some? && other != path
    requires DistinctKeys(KidsAt(f, path).value) && IsOrder(order, |KidsAt(f, path).value|)
    ensures LinesAt(ReplaceAt(f, path, Pick(KidsAt(f, path).value, order)), other) == LinesAt(f, other)
    decreases |path|, |f|
  {
    var kids := Pick(KidsAt(f, path).value, order);
    if path == [] {
      LookUpPermuted(f, order, other);
    } else {
      hide LinesAt;
      hide DistinctKeys;
      assert f == [f[0]] + f[1..];
      if KeyOf(f[0].line) == path[0] {
        if other != [] && other[0] == path[0] {
          assert other == [other[0]] + other[1..] && path == [path[0]] + path[1..];
          ElsewhereSame(f[0].kids, path[1..], order, other[1..]);
        }
        UnderHead(f[0], ReplaceAt(f[0].kids, path[1..], kids), f[1..], other);
      } else {
        ElsewhereSame(f[1..], path, order, other);
        BelowHead(f[0], f[1..], ReplaceAt(f[1..], path, kids), other);
      }
    }
  }

  // -- all the steps -------------------------------------------------------------------

  /** Keys are written once in each mapping that a step may reorder. */
  predicate KeysOnce(f: seq<Node>, steps: seq<Step>) {
    forall i :: 0 <= i < |steps| ==>
      var keys := LinesAt(f, steps[i].path);
      keys.Some? ==> DistinctLines(keys.value)
  }

  predicate DistinctLines(keys: seq<Line>) {
    forall i, j :: 0 <= i < j < |keys| ==> KeyOf(keys[i]) != KeyOf(keys[j])
  }

  predicate DistinctPaths(steps: seq<Step>) {
    forall i, j :: 0 <= i < j < |steps| ==> steps[i].path != steps[j].path
  }

  lemma SortedDistinct(rank: string -> Rank, keys: seq<Line>)
    requires DistinctLines(keys)
    ensures DistinctLines(Sorted(rank, keys))
  {
    if IsMapping(keys) && !IsMerged(keys) {
      var order := StableOrder(Ranks(rank, keys));
      StableOrderSorts(Ranks(rank, keys));
      forall i, j | 0 <= i < j < |keys|
        ensures KeyOf(Pick(keys, order)[i]) != KeyOf(Pick(keys, order)[j])
      {
        OrderDistinct(order, |keys|, i, j);
      }
    }
  }

  /** After one step: sorted at its path, untouched at every other. */
  lemma StepEffect(lines: seq<Line>, step: Step, other: seq<string>)
    requires ReorderAt(lines, step).Some? && KeysOnce(Forest(lines), [step])
    ensures var out := ReorderAt(lines, step).value;
      LinesAt(Forest(out), other)
      == if other == step.path then SortedAt(Forest(lines), step) else LinesAt(Forest(lines), other)
  {
    hide ReorderAt;
    hide Forest;
    StepSorts(lines, step);
    var out, f := ReorderAt(lines, step).value, Forest(lines);
    if other != step.path && out != lines {
      var order :| PermutesBy(lines, step.path, out, order);
      var kids := KidsAt(f, step.path).value;
      assert [step][0] == step;
      assert DistinctLines(HeadLines(kids));
      assert DistinctKeys(kids);
      ElsewhereSame(f, step.path, order, other);
    }
  }

  lemma KeysStayOnce(lines: seq<Line>, steps: seq<Step>)
    requires steps != [] && ReorderAt(lines, steps[0]).Some? && KeysOnce(Forest(lines), steps)
    ensures KeysOnce(Forest(ReorderAt(lines, steps[0]).value), steps[1..])
  {
    hide ReorderAt;
    hide Forest;
    hide LinesAt;
    hide Sorted;
    hide DistinctLines;
    var out, f := ReorderAt(lines, steps[0]).value, Forest(lines);
    assert KeysOnce(f, [steps[0]]);
    forall i | 0 <= i < |steps[1..]|
      ensures var keys := LinesAt(Forest(out), steps[1..][i].path); keys.Some? ==> DistinctLines(keys.value)
    {
      assert steps[1..][i] == steps[i + 1];
      StepEffect(lines, steps[0], steps[i + 1].path);
      var was := LinesAt(f, steps[0].path);
      if was.Some? { SortedDistinct(steps[0].rank, was.value); }
    }
  }

  /** The steps touch only the mappings they name. */
  lemma {:induction false} OthersKept(lines: seq<Line>, steps: seq<Step>, same: Guard, other: seq<string>)
    requires KeysOnce(Forest(lines), steps)
    requires forall i :: 0 <= i < |steps| ==> steps[i].path != other
    ensures LinesAt(Forest(Applied(lines, steps, same).0), other) == LinesAt(Forest(lines), other)
    decreases |steps|
  {
    if steps != [] {
      hide Forest;
      hide ReorderAt;
      hide LinesAt;
      hide DistinctLines;
      var reordered := ReorderAt(lines, steps[0]);
      assert forall i :: 0 <= i < |steps[1..]| ==> steps[1..][i] == steps[i + 1];
      if reordered.None? || !same(lines, reordered.value) {
        OthersKept(lines, steps[1..], same, other);
      } else {
        assert KeysOnce(Forest(lines), [steps[0]]);
        StepEffect(lines, steps[0], other);
        KeysStayOnce(lines, steps);
        OthersKept(reordered.value, steps[1..], same, other);
      }
    }
  }

  /**
   * Every mapping that a step names, under a rule that is not skipped, ends up
   * in its canonical order at the same time: each holds the stable sort of the
   * keys it had at the start, so a later step undoes no earlier one and ties
   * keep their order.
   */
  lemma {:induction false} AllSorted(lines: seq<Line>, steps: seq<Step>, same: Guard, i: nat)
    requires KeysOnce(Forest(lines), steps) && DistinctPaths(steps)
    requires i < |steps| && steps[i].rule !in Applied(lines, steps, same).1
    ensures LinesAt(Forest(Applied(lines, steps, same).0), steps[i].path) == SortedAt(Forest(lines), steps[i])
    decreases |steps|
  {
    hide Forest;
    hide ReorderAt;
    hide LinesAt;
    hide DistinctLines;
    hide Sorted;
    var reordered, rest := ReorderAt(lines, steps[0]), steps[1..];
    assert forall j :: 0 <= j < |rest| ==> rest[j] == steps[j + 1];
    if reordered.None? || !same(lines, reordered.value) {
      assert Applied(lines, steps, same).1 == [steps[0].rule] + Applied(lines, rest, same).1;
      assert steps[0].rule in Applied(lines, steps, same).1;
      AllSorted(lines, rest, same, i - 1);
    } else {
      var next := reordered.value;
      assert KeysOnce(Forest(lines), [steps[0]]);
      StepEffect(lines, steps[0], steps[i].path);
      KeysStayOnce(lines, steps);
      if i == 0 {
        OthersKept(next, rest, same, steps[0].path);
      } else {
        AllSorted(next, rest, same, i - 1);
      }
    }
  }

  /** A sorted mapping is left alone. */
  lemma SortedIsFixed(rank: string -> Rank, keys: seq<Line>)
    requires IsMapping(keys) && !IsMerged(keys)
    ensures var ranks := Ranks(rank, Sorted(rank, keys)); StableOrder(ranks) == Identity(|ranks|)
  {
    var ranks := Ranks(rank, keys);
    StableOrderSorts(ranks);
    SortedStays(Ranks(rank, Sorted(rank, keys)));
  }

  lemma SortedStepIdle(lines: seq<Line>, step: Step, keys: seq<Line>)
    requires LinesAt(Forest(lines), step.path) == Some(Sorted(step.rank, keys))
    ensures ReorderAt(lines, step) == Some(lines)
  {
    LocateKids(lines, step.path);
    RowsAreKeys(lines, step.path);
    hide Forest;
    hide StableOrder;
    if IsMapping(keys) && !IsMerged(keys) { SortedIsFixed(step.rank, keys); }
  }

  /** Running the same steps on their own result changes nothing and skips nothing. */
  lemma {:induction false} AppliedTwice(lines: seq<Line>, steps: seq<Step>, same: Guard, todo: nat)
    requires KeysOnce(Forest(lines), steps) && DistinctPaths(steps)
    requires Applied(lines, steps, same).1 == [] && todo <= |steps|
    requires var out := Applied(lines, steps, same).0; same(out, out)
    ensures var out := Applied(lines, steps, same).0;
      Applied(out, steps[|steps| - todo..], same) == (out, [])
    decreases todo
  {
    if todo > 0 {
      var out, i := Applied(lines, steps, same).0, |steps| - todo;
      AllSorted(lines, steps, same, i);
      LocateKids(out, steps[i].path);
      if LinesAt(Forest(out), steps[i].path).Some? {
        SortedStepIdle(out, steps[i], LinesAt(Forest(lines), steps[i].path).value);
      }
      AppliedTwice(lines, steps, same, todo - 1);
      assert steps[i..][1..] == steps[i + 1..];
    }
  }
}
