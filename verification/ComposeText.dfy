/**
 * From text to lines and back. The line predicates are the formatter's own
 * (`_is_blank`, `_is_comment`, `_indent`), so whatever is proved about lines
 * holds of the text they came from.
 */
module ComposeText {
  import opened Wrappers
  import opened Text
  import opened Comments
  import O = Outline
  import P = OutlinePaths
  import opened Reorder
  import opened KeyOrder
  import A = ApplyOrder

  predicate IsBlank(line: string) { Strip(line) == "" }

  predicate IsComment(line: string) {
    var l := LStrip(line);
    l != "" && l[0] == '#'
  }

  /** The number of leading spaces. */
  function Indent(line: string): (n: nat)
    ensures n <= |line|
  {
    if line != "" && line[0] == ' ' then 1 + Indent(line[1..]) else 0
  }

  predicate IsItem(line: string) {
    var n := Indent(line);
    n < |line| && line[n] == '-' && (n + 1 == |line| || IsSpace(line[n + 1]))
  }

  /** What the formatter sees of a line; the key it writes is the YAML library's to say. */
  function Lex(keyOf: string -> string, line: string): O.Line {
    if IsBlank(line) then O.Blank(line)
    else if IsComment(line) then O.Comment(line, Indent(line))
    else O.Content(line, Indent(line), IsItem(line), keyOf(line))
  }

  function Lexer(keyOf: string -> string): string -> O.Line { line => Lex(keyOf, line) }

  function Read(keyOf: string -> string, text: string): seq<O.Line> { Map(Lexer(keyOf), SplitKeep(text)) }

  function Texts(lines: seq<O.Line>): seq<string> { Map((l: O.Line) => l.text, lines) }

  /** `"".join(out)`. */
  function Write(lines: seq<O.Line>): string { Join(Texts(lines)) }

  lemma {:induction false} SpacesBefore(pad: string, line: string)
    requires (forall i :: 0 <= i < |pad| ==> pad[i] == ' ') && line != "" && !IsSpace(line[0])
    ensures Indent(pad + line) == |pad| && LStrip(pad + line) == line
  {
    if pad == "" {
      assert pad + line == line;
    } else {
      assert (pad + line)[1..] == pad[1..] + line;
      SpacesBefore(pad[1..], line);
    }
  }

  lemma {:induction false} OnlySpace(line: string)
    requires forall i :: 0 <= i < |line| ==> IsSpace(line[i])
    ensures LStrip(line) == ""
  {
    if line != "" { OnlySpace(line[1..]); }
  }

  /**
   * A line of white space is blank. Any other is a comment if `#` is the first
   * thing on it, and data otherwise: an item if that is a dash with white
   * space or nothing after it. Its indent is the number of its spaces.
   */
  lemma LinesAre(keyOf: string -> string, pad: string, text: string)
    requires forall i :: 0 <= i < |pad| ==> pad[i] == ' '
    requires text != "" && !IsSpace(text[0])
    ensures var line := pad + text;
      Lex(keyOf, line) ==
        if text[0] == '#' then O.Comment(line, |pad|)
        else O.Content(line, |pad|, text[0] == '-' && (|text| == 1 || IsSpace(text[1])), keyOf(line))
  {
    var line := pad + text;
    SpacesBefore(pad, text);
    assert line[|pad|] == text[0] && (|text| > 1 ==> line[|pad| + 1] == text[1]);
    assert Strip(line) == RStrip(text);
    hide Strip;
    hide IsSpace;
    hide LStrip;
    hide Indent;
  }

  lemma BlankLinesAre(keyOf: string -> string, line: string)
    requires forall i :: 0 <= i < |line| ==> IsSpace(line[i])
    ensures Lex(keyOf, line) == O.Blank(line)
  {
    OnlySpace(line);
  }

  /** Every line, the last one included, ends in a boundary that keeps it apart from the next. */
  predicate Terminated(text: string) {
    forall l :: l in SplitKeep(text) ==> Closed(l)
  }

  /** The dumper's text ends in a line feed; then its lines are terminated exactly if it has no bare `\r`. */
  lemma DumpedIsTerminated(text: string)
    requires text != "" && text[|text| - 1] == '\n'
    ensures Terminated(text) <==> forall i :: 0 <= i < |text| && text[i] == '\r' ==> i + 1 < |text| && text[i + 1] == '\n'
  {
    if NoBareReturn(text) { FeedClosesAll(text); }
    if Terminated(text) { ClosedLinesReturnNone(text); }
  }

  lemma TextsOfRead(keyOf: string -> string, text: string)
    ensures Texts(Read(keyOf, text)) == SplitKeep(text)
  {
    hide Lex;
    forall i | 0 <= i < |SplitKeep(text)| ensures Texts(Read(keyOf, text))[i] == SplitKeep(text)[i] {
      LexText(keyOf, SplitKeep(text)[i]);
    }
  }

  lemma LexText(keyOf: string -> string, line: string)
    ensures Lex(keyOf, line).text == line
  {
  }

  /** Lines in another order are written and read back as they are, and no comment is lost. */
  lemma PermutedTextReads(keyOf: string -> string, text: string, lines: seq<O.Line>)
    requires Terminated(text) && multiset(lines) == multiset(Read(keyOf, text))
    ensures Read(keyOf, Write(lines)) == lines && Terminated(Write(lines))
    ensures CommentsIn(Write(lines)) == CommentsIn(text)
  {
    hide Lex;
    hide CommentsIn;
    var was := Read(keyOf, text);
    MapPermuted((l: O.Line) => l.text, lines, was);
    TextsOfRead(keyOf, text);
    var texts := Texts(lines);
    forall l | l in texts ensures Closed(l) { assert l in multiset(texts); }
    SplitJoin(texts);
    CommentsSurviveReordering(text, texts);
    forall i | 0 <= i < |lines| ensures Lex(keyOf, lines[i].text) == lines[i] {
      assert lines[i] in multiset(was);
      var j :| 0 <= j < |was| && was[j] == lines[i];
      LexText(keyOf, SplitKeep(text)[j]);
    }
  }

  /** A reorder that does not give up permutes the lines. */
  lemma ReorderPermutes(lines: seq<O.Line>, step: A.Step)
    requires A.ReorderAt(lines, step).Some?
    ensures multiset(A.ReorderAt(lines, step).value) == multiset(lines)
  {
    var at := P.Locate(lines, step.path);
    if at.Some? {
      O.HeadsOpenNodes(lines, at.value.lo, at.value.hi);
      var rows := O.Heads(lines, at.value.lo, at.value.hi);
      var keys := A.LinesIn(lines, rows);
      var columns, ranks := A.Columns(keys), A.Ranks(step.rank, keys);
      StableOrderSorts(ranks);
      if A.IsMapping(keys) && Reordered(lines, step.path != [], rows, columns, ranks, A.IsMerged(keys)) != Some(lines) {
        MovedPermutes(lines, Keys(step.path != [], rows, columns[0]), StableOrder(ranks));
      }
    }
  }

  lemma {:induction false} StepsPermute(lines: seq<O.Line>, steps: seq<A.Step>, same: A.Guard)
    ensures multiset(A.Applied(lines, steps, same).0) == multiset(lines)
    decreases |steps|
  {
    hide A.ReorderAt;
    if steps != [] {
      var reordered := A.ReorderAt(lines, steps[0]);
      if reordered.None? || !same(lines, reordered.value) {
        StepsPermute(lines, steps[1..], same);
      } else {
        ReorderPermutes(lines, steps[0]);
        StepsPermute(reordered.value, steps[1..], same);
      }
    }
  }

  /**
   * Every reorder of a text whose lines are all terminated keeps every comment,
   * so the comment half of the formatter's guard never refuses one.
   */
  lemma ReorderKeepsComments(keyOf: string -> string, text: string, step: A.Step)
    requires Terminated(text) && A.ReorderAt(Read(keyOf, text), step).Some?
    ensures CommentsIn(Write(A.ReorderAt(Read(keyOf, text), step).value)) == CommentsIn(text)
  {
    ReorderPermutes(Read(keyOf, text), step);
    PermutedTextReads(keyOf, text, A.ReorderAt(Read(keyOf, text), step).value);
  }

  /** And so do all the steps together, whatever the guard lets through; the text written reads back as those lines. */
  lemma AllStepsKeepComments(keyOf: string -> string, text: string, steps: seq<A.Step>, same: A.Guard)
    requires Terminated(text)
    ensures var out := A.Applied(Read(keyOf, text), steps, same).0;
      CommentsIn(Write(out)) == CommentsIn(text) && Read(keyOf, Write(out)) == out
  {
    StepsPermute(Read(keyOf, text), steps, same);
    PermutedTextReads(keyOf, text, A.Applied(Read(keyOf, text), steps, same).0);
  }
}
