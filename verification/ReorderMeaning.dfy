/**
 * Moving lines is moving keys: when the rows and columns given to
 * `reorder_mapping` are those of the mapping at a path, the document read from
 * the new lines is the old one with the children at that path in the new order.
 */
module ReorderMeaning {
  import opened Wrappers
  import opened Outline
  import opened OutlinePaths
  import opened OutlineSplice
  import opened Reorder

  /** `k` is what a YAML parser reports for the block mapping at `path`. */
  predicate Reported(lines: seq<Line>, path: seq<string>, k: Keys) {
    var at := Locate(lines, path);
    at.Some? && k.nested == (path != []) && k.rows != []
    && k.rows == Heads(lines, at.value.lo, at.value.hi)
    && InText(lines, k.rows)
    && forall i :: 0 <= i < |k.rows| ==> KeyLine(lines[k.rows[i]], k.column)
  }

  predicate KeyLine(line: Line, column: nat) {
    line.Content? && line.indent == column && !line.item
  }

  // -- the scans stay inside the mapping and stop at data -------------------------

  lemma ReportedRows(lines: seq<Line>, path: seq<string>, k: Keys)
    requires Reported(lines, path, k)
    ensures var r := Locate(lines, path).value;
      OpenNodes(lines, r.lo, r.hi, k.rows) && Reads(lines, r.hi, k.rows, Forest(lines[r.lo..r.hi]))
    ensures Rowed(lines, k)
  {
    var r := Locate(lines, path).value;
    HeadNodes(lines, r.lo, r.hi);
    assert forall i :: 0 <= i < |k.rows| - 1 ==> NextRow(k.rows, i, r.hi) == k.rows[i + 1];
  }

  lemma {:induction false} ScanEndIs(lines: seq<Line>, i: nat, column: nat, e: nat)
    requires i <= e <= |lines|
    requires forall k :: i <= k < e ==> lines[k].Content? ==> lines[k].indent >= column
    requires e < |lines| ==> lines[e].Content? && lines[e].indent < column
    ensures ScanEnd(lines, i, column) == e
  {
  }

  /** The scan for the end finds exactly the end of the mapping. */
  lemma EndIsRegionEnd(lines: seq<Line>, path: seq<string>, k: Keys)
    requires Reported(lines, path, k) && Rowed(lines, k)
    ensures End(lines, k) == Locate(lines, path).value.hi
  {
    var r := Locate(lines, path).value;
    ReportedRows(lines, path, k);
    if path == [] {
    } else {
      LocateEdges(lines, path);
      var last := |k.rows| - 1;
      assert NodeRows(lines, k.rows[last], NextRow(k.rows, last, r.hi));
      assert Under(lines[k.rows[0]], Depth(lines[r.lo - 1])) by {
        assert r.lo <= k.rows[0] < NextRow(k.rows, 0, r.hi) <= r.hi;
      }
      ScanEndIs(lines, Last(k) + 1, k.column, r.hi);
    }
  }

  /** The block of the first key starts inside the mapping, after its own key's line. */
  lemma StartInRegion(lines: seq<Line>, path: seq<string>, k: Keys)
    requires Reported(lines, path, k) && Rowed(lines, k)
    ensures Locate(lines, path).value.lo <= Start(lines, k, 0)
  {
    var r := Locate(lines, path).value;
    ReportedRows(lines, path, k);
    assert r.lo <= k.rows[0] < NextRow(k.rows, 0, r.hi);
    if path != [] {
      LocateEdges(lines, path);
      assert lines[r.lo - 1].Content?;
    }
  }

  // -- each block reads as its key's node -----------------------------------------

  /** A block whose lead carries no data and whose body reads as one node, opened at column depth `d`. */
  predicate Holds(b: Block, node: Node, d: nat) {
    NoContent(b.separator) && NoContent(b.comment)
    && b.body != [] && b.body[0].Content? && Depth(b.body[0]) == d
    && AllUnder(b.body[1..], d) && node == Node(b.body[0], Forest(b.body[1..]))
  }

  lemma BlockHolds(lines: seq<Line>, k: Keys, i: nat, hi: nat, kids: seq<Node>)
    requires Rowed(lines, k) && i < |k.rows| && End(lines, k) == hi <= |lines|
    requires forall j :: 0 <= j < |k.rows| ==> KeyLine(lines[k.rows[j]], k.column)
    requires NodeRows(lines, k.rows[i], NextRow(k.rows, i, hi))
    requires Reads(lines, hi, k.rows, kids)
    ensures Holds(BlockOf(lines, k, i), kids[i], 2 * k.column)
  {
    hide Forest;
    hide Start;
    hide Split;
    hide Stops;
    BlockOrder(lines, k, i);
    LeadIsLoose(lines, k, i);
    BodyStops(lines, k, i, hi);
    BodyReads(lines, k.rows[i], Stops(lines, k, i), NextRow(k.rows, i, hi));
    hide NodeRows;
    hide NextRow;
    hide NoContent;
    hide AllUnder;
  }

  lemma BodyReads(lines: seq<Line>, row: nat, stop: nat, next: nat)
    requires row < stop <= next <= |lines| && NodeRows(lines, row, next) && NoContent(lines[stop..next])
    ensures var body := lines[row..stop];
      body[0] == lines[row] && AllUnder(body[1..], Depth(lines[row]))
      && NodeAt(lines, row, next) == Node(body[0], Forest(body[1..]))
  {
    hide Forest;
    ForestTrailing(lines[row + 1..stop], lines[stop..next]);
    assert lines[row + 1..next] == lines[row + 1..stop] + lines[stop..next];
    assert lines[row..stop][1..] == lines[row + 1..stop];
  }

  lemma LeadIsLoose(lines: seq<Line>, k: Keys, i: nat)
    requires Rowed(lines, k) && i < |k.rows|
    ensures NoContent(BlockOf(lines, k, i).separator) && NoContent(BlockOf(lines, k, i).comment)
  {
    BlockOrder(lines, k, i);
    assert forall j :: Start(lines, k, i) <= j < k.rows[i] ==> !lines[j].Content?;
  }

  lemma BodyStops(lines: seq<Line>, k: Keys, i: nat, hi: nat)
    requires Rowed(lines, k) && i < |k.rows| && End(lines, k) == hi <= |lines|
    ensures Stops(lines, k, i) <= NextRow(k.rows, i, hi) <= |lines|
    ensures NoContent(lines[Stops(lines, k, i)..NextRow(k.rows, i, hi)])
  {
    BlockOrder(lines, k, i);
    var stop, next := Stops(lines, k, i), NextRow(k.rows, i, hi);
    forall j | stop <= j < next ensures !lines[j].Content? {
      assert Loose(lines[j], k.column);
    }
  }

  // -- the blocks put together -------------------------------------------------------

  /** A list of lines that starts, after data-free lines, at depth `d`. */
  predicate Opens(ls: seq<Line>, x: seq<Line>, y: seq<Line>, d: nat) {
    ls == x + y && NoContent(x) && (y == [] || (y[0].Content? && Depth(y[0]) == d))
  }

  /** Whatever blocks stand in the slots, the nodes read are theirs, slot by slot. */
  lemma {:induction false} AssembleReads(slots: seq<Block>, moved: seq<Block>, kids: seq<Node>, d: nat)
    returns (x: seq<Line>, y: seq<Line>)
    requires |slots| == |moved| == |kids|
    requires forall i :: 0 <= i < |slots| ==> NoContent(slots[i].separator)
    requires forall i :: 0 <= i < |moved| ==> Holds(moved[i], kids[i], d)
    ensures Opens(Assemble(slots, moved), x, y, d)
    ensures Forest(Assemble(slots, moved)) == kids
  {
    if slots == [] {
      x, y := [], [];
    } else {
      var x1, y1 := AssembleReads(slots[1..], moved[1..], kids[1..], d);
      var b, rest := moved[0], Assemble(slots[1..], moved[1..]);
      x, y := OneMore(slots[0].separator, b, rest, x1, y1, kids[0], d);
      assert Assemble(slots, moved) == slots[0].separator + (b.comment + b.body) + rest;
      assert kids == [kids[0]] + kids[1..];
    }
  }

  lemma OneMore(separator: seq<Line>, b: Block, rest: seq<Line>, x1: seq<Line>, y1: seq<Line>, kid: Node, d: nat)
    returns (x: seq<Line>, y: seq<Line>)
    requires NoContent(separator) && Holds(b, kid, d) && Opens(rest, x1, y1, d)
    ensures Opens(separator + (b.comment + b.body) + rest, x, y, d)
    ensures Forest(separator + (b.comment + b.body) + rest) == [kid] + Forest(rest)
  {
    hide Forest;
    x, y := separator + b.comment, b.body + rest;
    assert separator + (b.comment + b.body) + rest == x + y;
    ForestLeading(x, y);
    var head, value := b.body[0], b.body[1..];
    assert y == [head] + (value + x1) + y1;
    FirstNode(head, value + x1, y1);
    ForestTrailing(value, x1);
    ForestLeading(x1, y1);
  }

  // -- main result ---------------------------------------------------------------------

  /** The lines of the mapping after the move, between the lines that stay. */
  function NewRegion(lines: seq<Line>, r: Region, k: Keys, order: seq<nat>): seq<Line>
    requires Rowed(lines, k) && IsOrder(order, |k.rows|)
    requires r.lo <= Start(lines, k, 0) && Tail(lines, k) <= r.hi <= |lines|
  {
    lines[r.lo..Start(lines, k, 0)] + Assemble(Blocks(lines, k), Pick(Blocks(lines, k), order))
    + lines[Tail(lines, k)..r.hi]
  }

  /**
   * The document read from the moved lines is the old document with the
   * children of the mapping at `path` in the new order and nothing else
   * changed; the mapping stays in the same rows.
   */
  lemma MoveReordersKeys(lines: seq<Line>, path: seq<string>, k: Keys, order: seq<nat>)
    requires Reported(lines, path, k) && Rowed(lines, k) && IsOrder(order, |k.rows|)
    ensures var kids := KidsAt(Forest(lines), path);
      kids.Some? && |kids.value| == |k.rows|
      && Replaces(lines, path, Moved(lines, k, order), Pick(kids.value, order))
  {
    var r := Locate(lines, path).value;
    ReportedRows(lines, path, k);
    EndIsRegionEnd(lines, path, k);
    StartInRegion(lines, path, k);
    LocateKids(lines, path);
    var kids := Forest(lines[r.lo..r.hi]);
    RegionReads(lines, path, k, order);
    var region := NewRegion(lines, r, k, order);
    RegionRearranges(lines, r, k, order);
    SpliceReplaces(lines, path, region);
  }

  lemma RegionRearranges(lines: seq<Line>, r: Region, k: Keys, order: seq<nat>)
    requires Rowed(lines, k) && IsOrder(order, |k.rows|)
    requires r.lo <= Start(lines, k, 0) && Tail(lines, k) <= r.hi <= |lines|
    ensures r.lo <= r.hi
    ensures Rearranges(lines, r, NewRegion(lines, r, k, order))
    ensures Spliced(lines, r, NewRegion(lines, r, k, order)) == Moved(lines, k, order)
  {
    AssemblePermutes(lines, k, order);
    PatchRegion(lines, r, Start(lines, k, 0), Tail(lines, k),
                Assemble(Blocks(lines, k), Pick(Blocks(lines, k), order)));
  }

  lemma PatchRegion(lines: seq<Line>, r: Region, s: nat, t: nat, middle: seq<Line>)
    requires r.lo <= s <= t <= r.hi <= |lines|
    requires multiset(middle) == multiset(lines[s..t])
    ensures Rearranges(lines, r, lines[r.lo..s] + middle + lines[t..r.hi])
    ensures Spliced(lines, r, lines[r.lo..s] + middle + lines[t..r.hi]) == lines[..s] + middle + lines[t..]
  {
    var a, b := lines[r.lo..s], lines[t..r.hi];
    assert lines[r.lo..r.hi] == a + lines[s..t] + b;
    SameLines(a, lines[s..t], middle, b);
    assert lines[..r.lo] + a == lines[..s];
    assert b + lines[r.hi..] == lines[t..];
    assert lines[..r.lo] + (a + middle + b) + lines[r.hi..]
        == (lines[..r.lo] + a) + middle + (b + lines[r.hi..]);
  }

  lemma SameLines(a: seq<Line>, m: seq<Line>, n: seq<Line>, b: seq<Line>)
    requires multiset(n) == multiset(m)
    ensures |a + n + b| == |a + m + b|
    ensures forall i :: 0 <= i < |a + n + b| ==> (a + n + b)[i] in a + m + b
  {
    var new_, was := a + n + b, a + m + b;
    assert |multiset(n)| == |multiset(m)|;
    assert multiset(new_) == multiset(was);
    forall i | 0 <= i < |new_| ensures new_[i] in was {
      assert new_[i] in multiset(new_);
    }
  }

  lemma RegionReads(lines: seq<Line>, path: seq<string>, k: Keys, order: seq<nat>)
    requires Reported(lines, path, k) && Rowed(lines, k) && IsOrder(order, |k.rows|)
    requires var r := Locate(lines, path).value;
      OpenNodes(lines, r.lo, r.hi, k.rows) && Reads(lines, r.hi, k.rows, Forest(lines[r.lo..r.hi]))
    requires End(lines, k) == Locate(lines, path).value.hi
    requires Locate(lines, path).value.lo <= Start(lines, k, 0)
    ensures var r := Locate(lines, path).value; var kids := Forest(lines[r.lo..r.hi]);
      |kids| == |k.rows| && Tail(lines, k) <= r.hi
      && Forest(NewRegion(lines, r, k, order)) == Pick(kids, order)
  {
    hide Forest;
    hide Start;
    hide Tail;
    hide Locate;
    hide Heads;
    var r := Locate(lines, path).value;
    var kids := Forest(lines[r.lo..r.hi]);
    BlocksRead(lines, k, order, r.hi, kids);
    BlockOrder(lines, k, 0);
    BodyStops(lines, k, |k.rows| - 1, r.hi);
    hide Blocks;
    hide Assemble;
    hide Reads;
    AboveFirst(lines, r.lo, r.hi, k.rows, Start(lines, k, 0));
    hide OpenNodes;
    hide NoContent;
    var lead, rest := lines[r.lo..Start(lines, k, 0)], lines[Tail(lines, k)..r.hi];
    Framed(lead, Assemble(Blocks(lines, k), Pick(Blocks(lines, k), order)), rest);
  }

  lemma AboveFirst(lines: seq<Line>, lo: nat, hi: nat, rows: seq<nat>, start: nat)
    requires OpenNodes(lines, lo, hi, rows) && rows != [] && lo <= start <= rows[0] && start <= |lines|
    ensures NoContent(lines[lo..start])
  {
    hide NodeRows;
    hide NextRow;
  }

  lemma Framed(lead: seq<Line>, all: seq<Line>, rest: seq<Line>)
    requires NoContent(lead) && NoContent(rest)
    ensures Forest(lead + all + rest) == Forest(all)
  {
    assert lead + all + rest == lead + (all + rest);
    ForestLeading(lead, all + rest);
    ForestTrailing(all, rest);
  }

  lemma BlocksRead(lines: seq<Line>, k: Keys, order: seq<nat>, hi: nat, kids: seq<Node>)
    requires Rowed(lines, k) && IsOrder(order, |k.rows|) && End(lines, k) == hi <= |lines|
    requires forall j :: 0 <= j < |k.rows| ==> KeyLine(lines[k.rows[j]], k.column)
    requires forall i :: 0 <= i < |k.rows| ==> NodeRows(lines, k.rows[i], NextRow(k.rows, i, hi))
    requires Reads(lines, hi, k.rows, kids)
    ensures Forest(Assemble(Blocks(lines, k), Pick(Blocks(lines, k), order))) == Pick(kids, order)
  {
    var bs, d := Blocks(lines, k), 2 * k.column;
    forall i | 0 <= i < |bs| ensures Holds(bs[i], kids[i], d) { BlockHolds(lines, k, i, hi, kids); }
    hide Forest;
    hide Holds;
    hide BlockOf;
    forall i | 0 <= i < |bs| ensures NoContent(bs[i].separator) { LeadIsLoose(lines, k, i); }
    var x, y := AssembleReads(bs, Pick(bs, order), Pick(kids, order), d);
  }
}
