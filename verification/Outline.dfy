/**
 * How the lines of a block-style YAML document nest. Blank lines and comment
 * lines carry no data; every other line opens a node whose children are the
 * deeper lines below it. A `- ` item stands half a level below a key at the
 * same column, since YAML lets a sequence sit at its key's own indentation.
 *
 * The reader is independent of the formatter: it is the yardstick against
 * which moving lines is measured. Each line keeps its line boundary.
 */
module Outline {
  /** One physical line: its text, line boundary included, and what a reader sees of it. */
  datatype Line =
    | Blank(text: string)
    | Comment(text: string, indent: nat)
    | Content(text: string, indent: nat, item: bool, key: string)

  function Depth(line: Line): nat
    requires line.Content?
  {
    2 * line.indent + if line.item then 1 else 0
  }

  function KeyOf(line: Line): string {
    if line.Content? then line.key else ""
  }

  // -- the tree --------------------------------------------------------------

  datatype Node = Node(line: Line, kids: seq<Node>)

  /** A line that does not end the value of a key at depth `d`. */
  predicate Under(line: Line, d: nat) { line.Content? ==> Depth(line) > d }

  /** The row at which the value of a key at depth `d` ends, when its lines start at row `i` and end by `end`. */
  function Stop(ls: seq<Line>, i: nat, end: nat, d: nat): (e: nat)
    requires i <= end <= |ls|
    ensures i <= e <= end
    ensures forall k :: i <= k < e ==> Under(ls[k], d)
    ensures e < end ==> !Under(ls[e], d)
    decreases end - i
  {
    if i == end || !Under(ls[i], d) then i else Stop(ls, i + 1, end, d)
  }

  function Forest(ls: seq<Line>): seq<Node>
    decreases |ls|
  {
    if ls == [] then []
    else if !ls[0].Content? then Forest(ls[1..])
    else
      var e := Stop(ls, 1, |ls|, Depth(ls[0]));
      [Node(ls[0], Forest(ls[1..e]))] + Forest(ls[e..])
  }

  /** The row `e` is where `Stop` says when it looks like it. */
  lemma {:induction false} StopIs(ls: seq<Line>, i: nat, d: nat, e: nat)
    requires i <= e <= |ls|
    requires forall k :: i <= k < e ==> Under(ls[k], d)
    requires e < |ls| ==> !Under(ls[e], d)
    ensures Stop(ls, i, |ls|, d) == e
  {
  }

  predicate NoContent(ls: seq<Line>) {
    forall i :: 0 <= i < |ls| ==> !ls[i].Content?
  }

  lemma {:induction false} NoContentEmpty(ls: seq<Line>)
    requires NoContent(ls)
    ensures Forest(ls) == []
    decreases |ls|
  {
    if ls != [] { NoContentEmpty(ls[1..]); }
  }

  predicate AllUnder(ls: seq<Line>, d: nat) {
    forall i :: 0 <= i < |ls| ==> Under(ls[i], d)
  }

  /** `rest` is not part of the value of a key at depth `d`. */
  predicate Ends(rest: seq<Line>, d: nat) {
    rest == [] || !Under(rest[0], d)
  }

  /** A key line, its value, and what follows: the first node and the rest. */
  lemma FirstNode(head: Line, value: seq<Line>, rest: seq<Line>)
    requires head.Content? && AllUnder(value, Depth(head)) && Ends(rest, Depth(head))
    ensures Forest([head] + value + rest) == [Node(head, Forest(value))] + Forest(rest)
  {
    var ls := [head] + value + rest;
    var e := 1 + |value|;
    assert forall k :: 1 <= k < e ==> ls[k] == value[k - 1];
    StopIs(ls, 1, Depth(head), e);
    assert ls[1..e] == value && ls[e..] == rest;
  }

  /** Every list of lines that opens with a key line has that shape. */
  lemma CutFirst(ls: seq<Line>) returns (value: seq<Line>, rest: seq<Line>)
    requires ls != [] && ls[0].Content?
    ensures ls == [ls[0]] + value + rest
    ensures AllUnder(value, Depth(ls[0])) && Ends(rest, Depth(ls[0]))
    ensures Forest(ls) == [Node(ls[0], Forest(value))] + Forest(rest)
  {
    var e := Stop(ls, 1, |ls|, Depth(ls[0]));
    value, rest := ls[1..e], ls[e..];
    FirstNode(ls[0], value, rest);
    assert ls == [ls[0]] + value + rest;
  }

  lemma ForestEmpty()
    ensures Forest([]) == []
  {
  }

  lemma SkipLine(line: Line, rest: seq<Line>)
    requires !line.Content?
    ensures Forest([line] + rest) == Forest(rest)
  {
    assert ([line] + rest)[1..] == rest;
  }

  /** Lines without data do not change what is read, at the end ... */
  lemma {:induction false} ForestTrailing(a: seq<Line>, x: seq<Line>)
    requires NoContent(x)
    ensures Forest(a + x) == Forest(a)
    decreases |a|
  {
    hide Forest;
    hide Depth;
    if a == [] {
      assert a + x == x;
      NoContentEmpty(x);
      ForestEmpty();
    } else if !a[0].Content? {
      ForestTrailing(a[1..], x);
      SkipLine(a[0], a[1..]);
      SkipLine(a[0], a[1..] + x);
      assert a == [a[0]] + a[1..] && a + x == [a[0]] + (a[1..] + x);
    } else {
      var value, rest := CutFirst(a);
      if rest == [] {
        ForestTrailing(value, x);
        FirstNode(a[0], value + x, []);
        assert a + x == [a[0]] + (value + x) + [];
      } else {
        ForestTrailing(rest, x);
        FirstNode(a[0], value, rest + x);
        assert a + x == [a[0]] + value + (rest + x);
      }
    }
  }

  /** ... and at the start. */
  lemma {:induction false} ForestLeading(x: seq<Line>, a: seq<Line>)
    requires NoContent(x)
    ensures Forest(x + a) == Forest(a)
    decreases |x|
  {
    if x == [] {
      assert x + a == a;
    } else {
      assert (x + a)[1..] == x[1..] + a;
      ForestLeading(x[1..], a);
    }
  }

  /**
   * Which of two lines with data is below the other: a deeper one, and a `- `
   * item in the column of a key, which YAML takes for that key's value.
   */
  lemma TwoLines(a: Line, b: Line)
    requires a.Content? && b.Content?
    ensures Forest([a, b]) ==
      if b.indent > a.indent || (b.indent == a.indent && b.item && !a.item) then [Node(a, [Node(b, [])])]
      else [Node(a, []), Node(b, [])]
  {
    ForestEmpty();
    FirstNode(b, [], []);
    assert [b] + [] + [] == [b] && [Node(b, [])] + [] == [Node(b, [])];
    if Depth(b) > Depth(a) {
      FirstNode(a, [b], []);
      hide Forest;
      assert [a] + [b] + [] == [a, b] && [Node(a, Forest([b]))] + [] == [Node(a, Forest([b]))];
    } else {
      FirstNode(a, [], [b]);
      hide Forest;
      assert [a] + [] + [b] == [a, b];
    }
  }

  // -- the rows of a mapping ---------------------------------------------------

  /** The rows of the lines from `base` to `end` of a document that open the nodes read there. */
  function Heads(doc: seq<Line>, base: nat, end: nat): seq<nat>
    requires base <= end <= |doc|
    decreases end - base
  {
    if base == end then []
    else if !doc[base].Content? then Heads(doc, base + 1, end)
    else [base] + Heads(doc, Stop(doc, base + 1, end, Depth(doc[base])), end)
  }

  function NextRow(rows: seq<nat>, i: nat, end: nat): nat
    requires i < |rows|
  {
    if i + 1 < |rows| then rows[i + 1] else end
  }

  /** A node opens at `row`, and the lines up to `next` are its value. */
  predicate NodeRows(doc: seq<Line>, row: nat, next: nat) {
    row < next <= |doc| && doc[row].Content?
    && forall k :: row < k < next ==> Under(doc[k], Depth(doc[row]))
  }

  function NodeAt(doc: seq<Line>, row: nat, next: nat): Node
    requires row < next <= |doc|
  {
    Node(doc[row], Forest(doc[row + 1..next]))
  }

  /** The rows cut the lines from `base` to `end` into data-free lines and then nodes. */
  ghost predicate OpenNodes(doc: seq<Line>, base: nat, end: nat, rows: seq<nat>) {
    base <= end <= |doc|
    && (forall k :: base <= k < (if rows == [] then end else rows[0]) ==> k < |doc| && !doc[k].Content?)
    && (forall i :: 0 <= i < |rows| ==> base <= rows[i] < NextRow(rows, i, end) <= end)
    && (forall i :: 0 <= i < |rows| ==> NodeRows(doc, rows[i], NextRow(rows, i, end)))
  }

  lemma {:induction false} HeadsOpenNodes(doc: seq<Line>, base: nat, end: nat)
    requires base <= end <= |doc|
    ensures OpenNodes(doc, base, end, Heads(doc, base, end))
    decreases end - base
  {
    hide OpenNodes;
    if base == end {
      NoOpenNodes(doc, base);
    } else if !doc[base].Content? {
      HeadsOpenNodes(doc, base + 1, end);
      SkipOpenNodes(doc, base, end, Heads(doc, base + 1, end));
    } else {
      var e := Stop(doc, base + 1, end, Depth(doc[base]));
      HeadsOpenNodes(doc, e, end);
      ConsOpenNodes(doc, base, e, end, Heads(doc, e, end));
    }
  }

  lemma NoOpenNodes(doc: seq<Line>, base: nat)
    requires base <= |doc|
    ensures OpenNodes(doc, base, base, [])
  {
  }

  lemma SkipOpenNodes(doc: seq<Line>, base: nat, end: nat, rows: seq<nat>)
    requires base < end <= |doc| && !doc[base].Content? && OpenNodes(doc, base + 1, end, rows)
    ensures OpenNodes(doc, base, end, rows)
  {
    hide NodeRows;
    hide NextRow;
  }

  lemma ConsOpenNodes(doc: seq<Line>, base: nat, e: nat, end: nat, rest: seq<nat>)
    requires base < e <= end <= |doc| && NodeRows(doc, base, e)
    requires e < end ==> doc[e].Content?
    requires OpenNodes(doc, e, end, rest)
    ensures OpenNodes(doc, base, end, [base] + rest)
    ensures NextRow([base] + rest, 0, end) == e
  {
    hide NodeRows;
    assert NextRow([base] + rest, 0, end) == e;
    NextRowCons(base, rest, end);
  }

  lemma NextRowCons(base: nat, rest: seq<nat>, end: nat)
    ensures forall i :: 0 < i <= |rest| ==>
      ([base] + rest)[i] == rest[i - 1] && NextRow([base] + rest, i, end) == NextRow(rest, i - 1, end)
  {
  }

  /** Node `i` of the forest is the one that row `i` opens. */
  predicate Reads(doc: seq<Line>, end: nat, rows: seq<nat>, f: seq<Node>) {
    |f| == |rows|
    && forall i :: 0 <= i < |rows| ==>
         rows[i] < NextRow(rows, i, end) <= |doc| && f[i] == NodeAt(doc, rows[i], NextRow(rows, i, end))
  }

  /** Each row opens one node, which holds the lines up to the next row. */
  lemma {:induction false} HeadNodes(doc: seq<Line>, base: nat, end: nat)
    requires base <= end <= |doc|
    ensures OpenNodes(doc, base, end, Heads(doc, base, end))
    ensures Reads(doc, end, Heads(doc, base, end), Forest(doc[base..end]))
    decreases end - base
  {
    HeadsOpenNodes(doc, base, end);
    if base == end {
    } else if !doc[base].Content? {
      assert doc[base..end][1..] == doc[base + 1..end];
      HeadNodes(doc, base + 1, end);
    } else {
      var e := Stop(doc, base + 1, end, Depth(doc[base]));
      HeadNodes(doc, e, end);
      ConsHeadNodes(doc, base, e, end, Heads(doc, e, end));
    }
  }

  lemma ConsHeadNodes(doc: seq<Line>, base: nat, e: nat, end: nat, rest: seq<nat>)
    requires base < e <= end <= |doc| && NodeRows(doc, base, e)
    requires e < end ==> !Under(doc[e], Depth(doc[base]))
    requires OpenNodes(doc, e, end, rest)
    requires Reads(doc, end, rest, Forest(doc[e..end]))
    ensures Reads(doc, end, [base] + rest, Forest(doc[base..end]))
  {
    FirstOfForest(doc, base, e, end);
    hide Forest;
    hide NodeAt;
    ConsOpenNodes(doc, base, e, end, rest);
    hide NodeRows;
    ReadsCons(doc, base, e, end, rest, Forest(doc[e..end]));
  }

  lemma FirstOfForest(doc: seq<Line>, base: nat, e: nat, end: nat)
    requires base < e <= end <= |doc| && NodeRows(doc, base, e)
    requires e < end ==> !Under(doc[e], Depth(doc[base]))
    ensures Forest(doc[base..end]) == [NodeAt(doc, base, e)] + Forest(doc[e..end])
  {
    hide Forest;
    var value := doc[base + 1..e];
    FirstNode(doc[base], value, doc[e..end]);
    assert doc[base..end] == [doc[base]] + value + doc[e..end];
  }

  lemma ReadsCons(doc: seq<Line>, base: nat, e: nat, end: nat, rest: seq<nat>, f: seq<Node>)
    requires base < e <= |doc| && NextRow([base] + rest, 0, end) == e
    requires Reads(doc, end, rest, f)
    ensures Reads(doc, end, [base] + rest, [NodeAt(doc, base, e)] + f)
  {
    hide NodeAt;
    NextRowCons(base, rest, end);
    var rows, g := [base] + rest, [NodeAt(doc, base, e)] + f;
    forall i | 0 <= i < |rows|
      ensures rows[i] < NextRow(rows, i, end) <= |doc| && g[i] == NodeAt(doc, rows[i], NextRow(rows, i, end))
    {
      if i > 0 {
        assert rows[i] == rest[i - 1] && g[i] == f[i - 1] && NextRow(rows, i, end) == NextRow(rest, i - 1, end);
      }
    }
  }
}
