/**
 * `reorder_mapping` of `formatter.py`: the keys of one block mapping are put in
 * order by moving whole runs of lines. The YAML library gives the row and
 * column of each key; everything else is computed from the lines.
 */
module Reorder {
  import opened Wrappers
  import opened Outline
  import opened KeyOrder

  // -- the scans -------------------------------------------------------------

  /** Between two keys: a blank line, or a comment no deeper than the keys. */
  predicate Loose(line: Line, column: nat) {
    line.Blank? || (line.Comment? && line.indent <= column)
  }

  /** The first content line shallower than the keys, from row `i` on. */
  function ScanEnd(lines: seq<Line>, i: nat, column: nat): (e: nat)
    requires i <= |lines|
    ensures i <= e <= |lines|
    ensures forall k :: i <= k < e ==> lines[k].Content? ==> lines[k].indent >= column
    ensures e < |lines| ==> lines[e].Content? && lines[e].indent < column
    decreases |lines| - i
  {
    if i == |lines| || (lines[i].Content? && lines[i].indent < column) then i
    else ScanEnd(lines, i + 1, column)
  }

  /** Backwards over loose lines, never reaching `floor`. */
  function ScanBack(lines: seq<Line>, floor: nat, from: nat, column: nat): (s: nat)
    requires floor < from <= |lines|
    ensures floor < s <= from
    ensures forall k :: s <= k < from ==> Loose(lines[k], column)
    ensures s - 1 > floor ==> !Loose(lines[s - 1], column)
    decreases from
  {
    if from - 1 > floor && Loose(lines[from - 1], column) then ScanBack(lines, floor, from - 1, column) else from
  }

  /** Backwards over comment lines of any depth. */
  function ScanComments(lines: seq<Line>, from: nat): (s: nat)
    requires from <= |lines|
    ensures s <= from
    ensures forall k :: s <= k < from ==> lines[k].Comment?
    ensures s > 0 ==> !lines[s - 1].Comment?
    decreases from
  {
    if from > 0 && lines[from - 1].Comment? then ScanComments(lines, from - 1) else from
  }

  /** Past the leading blank lines of a stretch. */
  function ScanBlank(lines: seq<Line>, from: nat, stop: nat): (s: nat)
    requires from <= stop <= |lines|
    ensures from <= s <= stop
    ensures forall k :: from <= k < s ==> lines[k].Blank?
    ensures s < stop ==> !lines[s].Blank?
    decreases stop - from
  {
    if from < stop && lines[from].Blank? then ScanBlank(lines, from + 1, stop) else from
  }

  // -- blocks ----------------------------------------------------------------

  /** The keys of one mapping as the YAML library reports them: rows in the text, and their common column. */
  datatype Keys = Keys(nested: bool, rows: seq<nat>, column: nat)

  predicate Increasing(rows: seq<nat>) {
    forall i :: 0 <= i < |rows| - 1 ==> rows[i] < rows[i + 1]
  }

  predicate AllEqual(columns: seq<nat>) {
    forall i :: 0 <= i < |columns| ==> columns[i] == columns[0]
  }

  predicate InText(lines: seq<Line>, rows: seq<nat>) {
    forall i :: 0 <= i < |rows| ==> rows[i] < |lines|
  }

  /** What the scans need: at least one key, each on its own row, in text order. */
  predicate Rowed(lines: seq<Line>, k: Keys) {
    k.rows != [] && Increasing(k.rows) && InText(lines, k.rows)
  }

  function Last(k: Keys): nat
    requires k.rows != []
  {
    k.rows[|k.rows| - 1]
  }

  /** Where the mapping ends. */
  function End(lines: seq<Line>, k: Keys): nat
    requires Rowed(lines, k)
  {
    if k.nested then ScanEnd(lines, Last(k) + 1, k.column) else |lines|
  }

  /** Where the last key's block ends: loose lines before the end stay put. */
  function Tail(lines: seq<Line>, k: Keys): nat
    requires Rowed(lines, k)
  {
    ScanBack(lines, Last(k), End(lines, k), k.column)
  }

  /** Where the block of key `i` starts. */
  function Start(lines: seq<Line>, k: Keys, i: nat): nat
    requires Rowed(lines, k) && i < |k.rows|
  {
    if i > 0 then ScanBack(lines, k.rows[i - 1], k.rows[i], k.column)
    else if k.nested then ScanComments(lines, k.rows[0])
    else k.rows[0]
  }

  function Stops(lines: seq<Line>, k: Keys, i: nat): nat
    requires Rowed(lines, k) && i < |k.rows|
  {
    if i + 1 < |k.rows| then Start(lines, k, i + 1) else Tail(lines, k)
  }

  /** Where the separator of key `i` ends and its comments begin. */
  function Split(lines: seq<Line>, k: Keys, i: nat): nat
    requires Rowed(lines, k) && i < |k.rows|
  {
    var s := Start(lines, k, i);
    if i > 0 && s <= k.rows[i] then ScanBlank(lines, s, k.rows[i]) else s
  }

  datatype Block = Block(separator: seq<Line>, comment: seq<Line>, body: seq<Line>)

  function BlockOf(lines: seq<Line>, k: Keys, i: nat): Block
    requires Rowed(lines, k) && i < |k.rows|
  {
    BlockOrder(lines, k, i);
    Block(lines[Start(lines, k, i)..Split(lines, k, i)],
          lines[Split(lines, k, i)..k.rows[i]],
          lines[k.rows[i]..Stops(lines, k, i)])
  }

  lemma BlockOrder(lines: seq<Line>, k: Keys, i: nat)
    requires Rowed(lines, k) && i < |k.rows|
    ensures Start(lines, k, i) <= Split(lines, k, i) <= k.rows[i] < Stops(lines, k, i) <= |lines|
    ensures i > 0 ==> k.rows[i - 1] < Start(lines, k, i)
  {
  }

  function Blocks(lines: seq<Line>, k: Keys): (bs: seq<Block>)
    requires Rowed(lines, k)
    ensures |bs| == |k.rows|
    ensures forall i :: 0 <= i < |bs| ==> bs[i] == BlockOf(lines, k, i)
  {
    seq(|k.rows|, i requires 0 <= i < |k.rows| => BlockOf(lines, k, i))
  }

  /** Slot after slot: the slot's own separator, then the comment and body of the block put there. */
  function Assemble(slots: seq<Block>, moved: seq<Block>): seq<Line>
    requires |slots| == |moved|
  {
    if slots == [] then []
    else slots[0].separator + (moved[0].comment + moved[0].body) + Assemble(slots[1..], moved[1..])
  }

  function Moved(lines: seq<Line>, k: Keys, order: seq<nat>): seq<Line>
    requires Rowed(lines, k) && IsOrder(order, |k.rows|)
  {
    BlockOrder(lines, k, 0);
    BlockOrder(lines, k, |k.rows| - 1);
    var bs := Blocks(lines, k);
    lines[..Start(lines, k, 0)] + Assemble(bs, Pick(bs, order)) + lines[Tail(lines, k)..]
  }

  /** What `reorder_mapping` returns; `None` leaves the mapping to the escalation. */
  function Reordered(lines: seq<Line>, nested: bool, rows: seq<nat>, columns: seq<nat>, ranks: seq<Rank>, merged: bool)
    : Option<seq<Line>>
    requires |rows| == |columns| == |ranks| && InText(lines, rows)
  {
    StableOrderSorts(ranks);
    var order := StableOrder(ranks);
    if |rows| < 2 || merged || order == Identity(|rows|) then Some(lines)
    else if !AllEqual(columns) || !Increasing(rows) then None
    else Some(Moved(lines, Keys(nested, rows, columns[0]), order))
  }

  // -- the source's loops ------------------------------------------------------

  /** `reorder_mapping`, from the key positions to the new lines. */
  method ReorderMapping(lines: seq<Line>, nested: bool, rows: seq<nat>, columns: seq<nat>, ranks: seq<Rank>, merged: bool)
    returns (result: Option<seq<Line>>)
    requires |rows| == |columns| == |ranks| && InText(lines, rows)
    ensures result == Reordered(lines, nested, rows, columns, ranks, merged)
  {
    StableOrderSorts(ranks);
    if |rows| < 2 || merged {
      return Some(lines);
    }
    var order := StableOrder(ranks);
    if order == Identity(|rows|) {
      return Some(lines);
    }
    if !AllEqual(columns) || !Increasing(rows) {
      return None;
    }
    ghost var k := Keys(nested, rows, columns[0]);
    var tail := FindTail(lines, nested, rows, columns[0]);
    var starts := [];
    for i := 0 to |rows|
      invariant |starts| == i
      invariant forall j :: 0 <= j < i ==> starts[j] == Start(lines, k, j)
    {
      var start := FindStart(lines, nested, rows, columns[0], i);
      starts := starts + [start];
    }
    var blocks := CutBlocks(lines, nested, rows, columns[0], starts, tail);
    var out := JoinBlocks(lines, starts[0], tail, blocks, order, k);
    MovedPermutes(lines, k, order);
    if |out| != |lines| {
      assert false;
    }
    result := Some(out);
  }

  /** The end of the mapping, then back over the loose lines before it. */
  method FindTail(lines: seq<Line>, nested: bool, rows: seq<nat>, column: nat) returns (tail: nat)
    requires Rowed(lines, Keys(nested, rows, column))
    ensures tail == Tail(lines, Keys(nested, rows, column))
  {
    var last := rows[|rows| - 1];
    var end := |lines|;
    if nested {
      end := last + 1;
      while end < |lines| && !(lines[end].Content? && lines[end].indent < column)
        invariant last < end <= |lines|
        invariant ScanEnd(lines, end, column) == ScanEnd(lines, last + 1, column)
      {
        end := end + 1;
      }
    }
    tail := end;
    while tail - 1 > last && Loose(lines[tail - 1], column)
      invariant last < tail <= end
      invariant ScanBack(lines, last, tail, column) == ScanBack(lines, last, end, column)
    {
      tail := tail - 1;
    }
  }

  /** Back from a key over the comments and blank lines that lead it. */
  method FindStart(lines: seq<Line>, nested: bool, rows: seq<nat>, column: nat, i: nat) returns (start: nat)
    requires Rowed(lines, Keys(nested, rows, column)) && i < |rows|
    ensures start == Start(lines, Keys(nested, rows, column), i)
  {
    start := rows[i];
    if i == 0 {
      if nested {
        while start > 0 && lines[start - 1].Comment?
          invariant start <= rows[0]
          invariant ScanComments(lines, start) == ScanComments(lines, rows[0])
        {
          start := start - 1;
        }
      }
    } else {
      while start - 1 > rows[i - 1] && Loose(lines[start - 1], column)
        invariant rows[i - 1] < start <= rows[i]
        invariant ScanBack(lines, rows[i - 1], start, column) == ScanBack(lines, rows[i - 1], rows[i], column)
      {
        start := start - 1;
      }
    }
  }

  /** One block per key: separator, comments, body. */
  method CutBlocks(lines: seq<Line>, nested: bool, rows: seq<nat>, column: nat, starts: seq<nat>, tail: nat)
    returns (blocks: seq<Block>)
    requires Rowed(lines, Keys(nested, rows, column)) && |starts| == |rows|
    requires forall i :: 0 <= i < |rows| ==> starts[i] == Start(lines, Keys(nested, rows, column), i)
    requires tail == Tail(lines, Keys(nested, rows, column))
    ensures blocks == Blocks(lines, Keys(nested, rows, column))
  {
    hide Start;
    hide Tail;
    ghost var k := Keys(nested, rows, column);
    blocks := [];
    for i := 0 to |rows|
      invariant |blocks| == i
      invariant forall j :: 0 <= j < i ==> blocks[j] == BlockOf(lines, k, j)
    {
      BlockOrder(lines, k, i);
      var lead := lines[starts[i]..rows[i]];
      var split := 0;
      if i > 0 {
        split := LeadingBlanks(lines, starts[i], rows[i]);
      }
      var bodyEnd := if i + 1 < |rows| then starts[i + 1] else tail;
      assert starts[i] + split == Split(lines, k, i);
      assert lead[..split] == lines[starts[i]..starts[i] + split];
      assert lead[split..] == lines[starts[i] + split..rows[i]];
      blocks := blocks + [Block(lead[..split], lead[split..], lines[rows[i]..bodyEnd])];
    }
  }

  method LeadingBlanks(lines: seq<Line>, start: nat, row: nat) returns (split: nat)
    requires start <= row < |lines|
    ensures start + split == ScanBlank(lines, start, row)
  {
    split := 0;
    while start + split < row && lines[start + split].Blank?
      invariant start + split <= row
      invariant ScanBlank(lines, start + split, row) == ScanBlank(lines, start, row)
    {
      split := split + 1;
    }
  }

  /** The new text: what precedes the first block, the blocks in their slots, what follows the last. */
  method JoinBlocks(lines: seq<Line>, start: nat, tail: nat, blocks: seq<Block>, order: seq<nat>, ghost k: Keys)
    returns (out: seq<Line>)
    requires Rowed(lines, k) && IsOrder(order, |k.rows|) && blocks == Blocks(lines, k)
    requires start == Start(lines, k, 0) && tail == Tail(lines, k)
    ensures out == Moved(lines, k, order)
  {
    BlockOrder(lines, k, 0);
    BlockOrder(lines, k, |k.rows| - 1);
    out := FillSlots(lines[..start], blocks, order);
    out := out + lines[tail..];
  }

  /** Slot by slot: the separator that was there, then the block that belongs there. */
  method FillSlots(before: seq<Line>, blocks: seq<Block>, order: seq<nat>) returns (out: seq<Line>)
    requires IsOrder(order, |blocks|)
    ensures out == before + Assemble(blocks, Pick(blocks, order))
  {
    OrderBounds(order, |blocks|);
    ghost var moved := Pick(blocks, order);
    hide Assemble;
    AssembleNone();
    out := before;
    for slot := 0 to |order|
      invariant out + Assemble(blocks[slot..], moved[slot..]) == before + Assemble(blocks, moved)
    {
      var separator := blocks[slot].separator;
      var comment, body := blocks[order[slot]].comment, blocks[order[slot]].body;
      AssembleStep(blocks, moved, slot, out);
      out := out + (separator + (comment + body));
    }
    assert blocks[|order|..] == [] && moved[|order|..] == [];
  }

  lemma AssembleNone()
    ensures Assemble([], []) == []
  {
  }

  lemma AssembleStep(slots: seq<Block>, moved: seq<Block>, slot: nat, out: seq<Line>)
    requires slot < |slots| == |moved|
    ensures out + Assemble(slots[slot..], moved[slot..])
         == out + (slots[slot].separator + (moved[slot].comment + moved[slot].body))
            + Assemble(slots[slot + 1..], moved[slot + 1..])
  {
    assert slots[slot..][1..] == slots[slot + 1..] && moved[slot..][1..] == moved[slot + 1..];
  }

  // -- what a block is ---------------------------------------------------------------

  /**
   * A block is its key with exactly what leads it: the separator is the run of
   * blank lines, the comment starts with a comment line, together they are all
   * the loose lines there are above the key, and the body opens with the key.
   */
  lemma BlockShape(lines: seq<Line>, k: Keys, i: nat)
    requires Rowed(lines, k) && 0 < i < |k.rows|
    ensures var b := BlockOf(lines, k, i);
      && (forall j :: 0 <= j < |b.separator| ==> b.separator[j].Blank?)
      && (forall j :: 0 <= j < |b.comment| ==> Loose(b.comment[j], k.column))
      && (b.comment != [] ==> b.comment[0].Comment?)
      && b.body != [] && b.body[0] == lines[k.rows[i]]
    ensures var above := BlockOf(lines, k, i - 1).body; |above| > 1 ==> !Loose(above[|above| - 1], k.column)
  {
    BlockOrder(lines, k, i);
    BlockEnds(lines, k, i);
  }

  lemma BlockEnds(lines: seq<Line>, k: Keys, i: nat)
    requires Rowed(lines, k) && 0 < i < |k.rows|
    ensures var above := BlockOf(lines, k, i - 1).body; |above| > 1 ==> !Loose(above[|above| - 1], k.column)
  {
    BlockOrder(lines, k, i);
    BlockOrder(lines, k, i - 1);
    hide Loose;
    hide ScanBlank;
    var above := BlockOf(lines, k, i - 1).body;
    assert above[|above| - 1] == lines[Start(lines, k, i) - 1];
  }

  /** In the output, slot `j` is its own separator followed by the block put there, comment and body in one run. */
  lemma {:induction false} SlotHolds(slots: seq<Block>, moved: seq<Block>, j: nat)
    requires j < |slots| == |moved|
    ensures Assemble(slots, moved)
         == Assemble(slots[..j], moved[..j])
            + (slots[j].separator + (moved[j].comment + moved[j].body))
            + Assemble(slots[j + 1..], moved[j + 1..])
  {
    if j > 0 {
      SlotHolds(slots[1..], moved[1..], j - 1);
      assert slots[1..][..j - 1] == slots[..j][1..] && moved[1..][..j - 1] == moved[..j][1..];
      assert slots[1..][j..] == slots[j + 1..] && moved[1..][j..] == moved[j + 1..];
    }
  }

  /** A blank line, or a comment that stands no deeper than the keys. */
  predicate Between(line: Line, column: nat) {
    match line
    case Blank(_) => true
    case Comment(_, indent) => indent <= column
    case Content(_, _, _, _) => false
  }

  /**
   * A later key's block goes up to the last line above it that is neither
   * blank nor a comment as shallow as the keys: all of its lines above the key
   * are such, and no line of the text that could belong to it is left out.
   */
  lemma BlockTakesAllAbove(lines: seq<Line>, k: Keys, i: nat)
    requires Rowed(lines, k) && 0 < i < |k.rows|
    ensures var b := BlockOf(lines, k, i); var lead := |b.separator| + |b.comment|; var top := k.rows[i] - lead;
      0 < top && b.separator + b.comment == lines[top..k.rows[i]]
      && (forall j :: top <= j < k.rows[i] ==> Between(lines[j], k.column))
      && (top - 1 == k.rows[i - 1] || !Between(lines[top - 1], k.column))
      && (forall j :: 0 <= j < |b.separator| ==> b.separator[j].Blank?) && (b.comment != [] ==> !b.comment[0].Blank?)
  {
    BlockOrder(lines, k, i);
    var s, m := Start(lines, k, i), Split(lines, k, i);
    assert lines[s..m] + lines[m..k.rows[i]] == lines[s..k.rows[i]];
    hide ScanEnd;
    hide ScanComments;
    hide Stops;
  }

  /** The first key of a nested mapping takes the run of comments above it; at the top level what is above it is the file's header. */
  lemma FirstBlockTakes(lines: seq<Line>, k: Keys)
    requires Rowed(lines, k)
    ensures var b := BlockOf(lines, k, 0); var top := k.rows[0] - |b.comment|;
      b.separator == [] && top >= 0 && b.comment == lines[top..k.rows[0]]
      && (forall j :: 0 <= j < |b.comment| ==> b.comment[j].Comment?)
      && if k.nested then top > 0 ==> !lines[top - 1].Comment? else b.comment == []
  {
    BlockOrder(lines, k, 0);
    hide ScanBack;
    hide ScanEnd;
  }

  /**
   * The last key's block ends with the mapping, short of the blank lines and
   * shallow comments there; a nested mapping ends at the first line with data
   * that is shallower than its keys, the top level with the file.
   */
  lemma LastBlockEnds(lines: seq<Line>, k: Keys) returns (end: nat)
    requires Rowed(lines, k)
    ensures var last := k.rows[|k.rows| - 1]; var tail := last + |BlockOf(lines, k, |k.rows| - 1).body|;
      last < tail <= end <= |lines|
      && (forall j :: tail <= j < end ==> Between(lines[j], k.column))
      && (tail > last + 1 ==> !Between(lines[tail - 1], k.column))
    ensures !k.nested ==> end == |lines|
    ensures k.nested ==>
      (forall j :: k.rows[|k.rows| - 1] < j < end ==> lines[j].Content? ==> lines[j].indent >= k.column)
      && (end < |lines| ==> lines[end].Content? && lines[end].indent < k.column)
  {
    BlockOrder(lines, k, |k.rows| - 1);
    end := End(lines, k);
    hide ScanComments;
    hide ScanBlank;
  }

  /** Lines above the first block and below the last one stay where they are, and nothing is moved when nothing is out of order. */
  lemma EdgesStay(lines: seq<Line>, k: Keys, order: seq<nat>) returns (middle: seq<Line>)
    requires Rowed(lines, k) && IsOrder(order, |k.rows|)
    ensures var first, last := BlockOf(lines, k, 0), BlockOf(lines, k, |k.rows| - 1);
      var top, tail := k.rows[0] - |first.comment|, k.rows[|k.rows| - 1] + |last.body|;
      0 <= top && tail <= |lines| && Moved(lines, k, order) == lines[..top] + middle + lines[tail..]
  {
    assert k.rows != [];
    hide *;
    var last := |k.rows| - 1;
    EdgeRows(lines, k);
    BlockSizes(lines, k, 0);
    BlockSizes(lines, k, last);
    MovedIs(lines, k, order);
    middle := Assemble(Blocks(lines, k), Pick(Blocks(lines, k), order));
  }

  lemma EdgeRows(lines: seq<Line>, k: Keys)
    requires Rowed(lines, k)
    ensures Split(lines, k, 0) == Start(lines, k, 0) && Stops(lines, k, |k.rows| - 1) == Tail(lines, k)
  {
    hide Start;
    hide Tail;
  }

  lemma BlockSizes(lines: seq<Line>, k: Keys, i: nat)
    requires Rowed(lines, k) && i < |k.rows|
    ensures |BlockOf(lines, k, i).comment| == k.rows[i] - Split(lines, k, i)
    ensures |BlockOf(lines, k, i).body| == Stops(lines, k, i) - k.rows[i]
  {
    BlockOrder(lines, k, i);
    hide Split;
    hide Stops;
  }

  lemma MovedIs(lines: seq<Line>, k: Keys, order: seq<nat>)
    requires Rowed(lines, k) && IsOrder(order, |k.rows|)
    ensures Start(lines, k, 0) <= |lines| && Tail(lines, k) <= |lines|
    ensures Moved(lines, k, order)
         == lines[..Start(lines, k, 0)] + Assemble(Blocks(lines, k), Pick(Blocks(lines, k), order)) + lines[Tail(lines, k)..]
  {
    BlockOrder(lines, k, 0);
    BlockOrder(lines, k, |k.rows| - 1);
    hide Start;
    hide Tail;
    hide Assemble;
  }

  // -- no line is lost -----------------------------------------------------------

  function Pieces(bs: seq<Block>): multiset<Line> {
    if bs == [] then multiset{} else multiset(bs[0].comment + bs[0].body) + Pieces(bs[1..])
  }

  function Separators(bs: seq<Block>): multiset<Line> {
    if bs == [] then multiset{} else multiset(bs[0].separator) + Separators(bs[1..])
  }

  lemma {:induction false} AssembleContents(slots: seq<Block>, moved: seq<Block>)
    requires |slots| == |moved|
    ensures multiset(Assemble(slots, moved)) == Separators(slots) + Pieces(moved)
  {
    if slots != [] { AssembleContents(slots[1..], moved[1..]); }
  }

  lemma {:induction false} PiecesAppend(a: seq<Block>, b: seq<Block>)
    ensures Pieces(a + b) == Pieces(a) + Pieces(b)
  {
    if a == [] {
      assert a + b == b;
    } else {
      assert (a + b)[0] == a[0] && (a + b)[1..] == a[1..] + b;
      PiecesAppend(a[1..], b);
    }
  }

  lemma {:induction false} PiecesPermuted(a: seq<Block>, b: seq<Block>)
    requires multiset(a) == multiset(b)
    ensures Pieces(a) == Pieces(b)
  {
    if a == [] {
      assert |multiset(b)| == 0;
    } else {
      var k := HeadInPermutation(a, b);
      assert b == b[..k] + ([b[k]] + b[k + 1..]);
      PiecesPermuted(a[1..], Without(b, k));
      PiecesAppend(b[..k], b[k + 1..]);
      PiecesAppend(b[..k], [b[k]] + b[k + 1..]);
      PiecesAppend([b[k]], b[k + 1..]);
    }
  }

  /** In the input order the blocks tile the lines they were cut from. */
  lemma {:induction false} Tiles(lines: seq<Line>, k: Keys, slot: nat)
    requires Rowed(lines, k) && slot < |k.rows|
    ensures Start(lines, k, slot) <= Tail(lines, k) <= |lines|
    ensures var bs := Blocks(lines, k)[slot..];
      Assemble(bs, bs) == lines[Start(lines, k, slot)..Tail(lines, k)]
    decreases |k.rows| - slot
  {
    hide Start;
    hide Tail;
    hide Split;
    BlockOrder(lines, k, slot);
    var bs := Blocks(lines, k);
    var b := BlockOf(lines, k, slot);
    assert bs[slot] == b;
    assert bs[slot..][1..] == bs[slot + 1..];
    assert b.separator + (b.comment + b.body) == lines[Start(lines, k, slot)..Stops(lines, k, slot)];
    if slot + 1 < |k.rows| {
      Tiles(lines, k, slot + 1);
    } else {
      assert bs[slot + 1..] == [];
    }
  }

  /** The moved blocks hold the lines of the blocks they replace. */
  lemma AssemblePermutes(lines: seq<Line>, k: Keys, order: seq<nat>)
    requires Rowed(lines, k) && IsOrder(order, |k.rows|)
    ensures Start(lines, k, 0) <= Tail(lines, k) <= |lines|
    ensures multiset(Assemble(Blocks(lines, k), Pick(Blocks(lines, k), order)))
         == multiset(lines[Start(lines, k, 0)..Tail(lines, k)])
  {
    var bs := Blocks(lines, k);
    var moved := Pick(bs, order);
    PickPermutes(bs, order);
    PiecesPermuted(moved, bs);
    AssembleContents(bs, moved);
    AssembleContents(bs, bs);
    Tiles(lines, k, 0);
    assert bs[0..] == bs;
  }

  /** Moving blocks permutes the lines, so the source's final length check never fails. */
  lemma MovedPermutes(lines: seq<Line>, k: Keys, order: seq<nat>)
    requires Rowed(lines, k) && IsOrder(order, |k.rows|)
    ensures multiset(Moved(lines, k, order)) == multiset(lines)
    ensures |Moved(lines, k, order)| == |lines|
  {
    AssemblePermutes(lines, k, order);
    Restored(lines, Start(lines, k, 0), Tail(lines, k));
    assert |multiset(Moved(lines, k, order))| == |multiset(lines)|;
  }

  lemma Restored(lines: seq<Line>, a: nat, b: nat)
    requires a <= b <= |lines|
    ensures multiset(lines) == multiset(lines[..a]) + multiset(lines[a..b]) + multiset(lines[b..])
  {
    assert lines == lines[..a] + lines[a..b] + lines[b..];
  }
}
