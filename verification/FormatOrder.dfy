/**
 * Which reorders of a file the formatter skips, and what the file looks like
 * then. A reorder never changes what the document says nor its comments, so a
 * guard that asks no more than that accepts every reorder it is offered, and
 * only a mapping whose keys stand in different columns is left as it is.
 */
module FormatOrder {
  import opened Wrappers
  import opened Text
  import opened Comments
  import opened Outline
  import opened OutlinePaths
  import opened KeyOrder
  import opened Reorder
  import opened ApplyOrder
  import opened CanonicalForm
  import opened DataMeaning
  import opened ComposeText
  import Pipeline

  // -- one step ------------------------------------------------------------------------

  /** The mapping is out of order, and its keys stand in more than one column. */
  predicate Refuses(f: seq<Node>, step: Step) {
    var keys := LinesAt(f, step.path);
    keys.Some? && |keys.value| >= 2 && IsMapping(keys.value) && !IsMerged(keys.value)
    && StableOrder(Ranks(step.rank, keys.value)) != Identity(|keys.value|)
    && !AllEqual(Columns(keys.value))
  }

  /** `reorder_mapping` gives up on exactly those mappings. */
  lemma GivesUpExactly(lines: seq<Line>, step: Step)
    ensures ReorderAt(lines, step).None? <==> Refuses(Forest(lines), step)
  {
    LocateKids(lines, step.path);
    var at := Locate(lines, step.path);
    if at.Some? {
      RowsAreKeys(lines, step.path);
      HeadsOpenNodes(lines, at.value.lo, at.value.hi);
      var rows := Heads(lines, at.value.lo, at.value.hi);
      HeadsIncrease(lines, at.value.lo, at.value.hi, rows);
      hide Forest;
      hide Locate;
      hide Heads;
      hide Moved;
      hide StableOrder;
    }
  }

  lemma HeadsIncrease(lines: seq<Line>, lo: nat, hi: nat, rows: seq<nat>)
    requires OpenNodes(lines, lo, hi, rows)
    ensures Increasing(rows)
  {
    hide NodeRows;
    forall i | 0 <= i < |rows| - 1 ensures rows[i] < rows[i + 1] {
      assert rows[i] < NextRow(rows, i, hi);
    }
  }

  // -- all the steps ---------------------------------------------------------------------

  /** The rules of the steps that are refused, in their order. */
  function RefusedRules(f: seq<Node>, steps: seq<Step>): seq<string> {
    if steps == [] then []
    else (if Refuses(f, steps[0]) then [steps[0].rule] else []) + RefusedRules(f, steps[1..])
  }

  lemma {:induction false} RefusedSame(f: seq<Node>, g: seq<Node>, steps: seq<Step>)
    requires forall i :: 0 <= i < |steps| ==> LinesAt(f, steps[i].path) == LinesAt(g, steps[i].path)
    ensures RefusedRules(f, steps) == RefusedRules(g, steps)
  {
    hide LinesAt;
    if steps != [] {
      assert forall i :: 0 <= i < |steps| - 1 ==> steps[1..][i] == steps[i + 1];
      RefusedSame(f, g, steps[1..]);
    }
  }

  /** The document says the same, and no comment is gained or lost. */
  predicate Kept(lines: seq<Line>, out: seq<Line>) {
    SameData(Forest(out), Forest(lines)) && CommentsIn(Write(lines)) == CommentsIn(Write(out))
  }

  /** `a` holds the lines of `was` in some order and says what they say. */
  predicate Rewrites(a: seq<Line>, was: seq<Line>) {
    multiset(a) == multiset(was) && SameData(Forest(a), Forest(was))
  }

  /** Among the rewritings of a text, the guard refuses no change that keeps what `Kept` asks. */
  ghost predicate Accepts(same: Guard, was: seq<Line>) {
    forall a, b :: Rewrites(a, was) && Rewrites(b, was) && Kept(a, b) ==> same(a, b)
  }

  lemma WriteRead(keyOf: string -> string, text: string)
    ensures Write(Read(keyOf, text)) == text
  {
    TextsOfRead(keyOf, text);
    JoinSplit(text);
  }

  /** One reorder of a text, accepted: the lines are those of a text again, and nothing a guard may ask for is lost. */
  lemma StepIsKept(keyOf: string -> string, text: string, step: Step)
    requires Terminated(text) && ReorderAt(Read(keyOf, text), step).Some?
    ensures var lines := Read(keyOf, text); var out := ReorderAt(lines, step).value;
      Kept(lines, out) && Terminated(Write(out)) && Read(keyOf, Write(out)) == out && multiset(out) == multiset(lines)
  {
    var lines := Read(keyOf, text);
    WriteRead(keyOf, text);
    StepKeepsData(lines, step);
    ReorderKeepsComments(keyOf, text, step);
    ReorderPermutes(lines, step);
    PermutedTextReads(keyOf, text, ReorderAt(lines, step).value);
  }

  /** A step of a rewriting is a rewriting. */
  lemma StepRewrites(keyOf: string -> string, text: string, step: Step, was: seq<Line>)
    requires Terminated(text) && Rewrites(Read(keyOf, text), was) && ReorderAt(Read(keyOf, text), step).Some?
    ensures var out := ReorderAt(Read(keyOf, text), step).value;
      Rewrites(out, was) && Terminated(Write(out)) && Read(keyOf, Write(out)) == out
  {
    var lines := Read(keyOf, text);
    StepIsKept(keyOf, text, step);
    var out := ReorderAt(lines, step).value;
    hide ReorderAt;
    hide Forest;
    hide SameData;
    SameDataChains(Forest(out), Forest(lines), Forest(was));
  }

  /** After one step that goes through, the other steps find their mappings as they were. */
  lemma OthersFindTheirs(lines: seq<Line>, steps: seq<Step>)
    requires steps != [] && DistinctPaths(steps) && KeysOnce(Forest(lines), steps) && ReorderAt(lines, steps[0]).Some?
    ensures var out := ReorderAt(lines, steps[0]).value;
      KeysOnce(Forest(out), steps[1..]) && RefusedRules(Forest(out), steps[1..]) == RefusedRules(Forest(lines), steps[1..])
  {
    var out, rest := ReorderAt(lines, steps[0]).value, steps[1..];
    KeysStayOnce(lines, steps);
    hide ReorderAt;
    hide Forest;
    forall i | 0 <= i < |rest| ensures LinesAt(Forest(out), rest[i].path) == LinesAt(Forest(lines), rest[i].path) {
      assert rest[i] == steps[i + 1];
      assert KeysOnce(Forest(lines), [steps[0]]);
      StepEffect(lines, steps[0], rest[i].path);
    }
    RefusedSame(Forest(out), Forest(lines), rest);
  }

  lemma StepsAfter(f: seq<Node>, steps: seq<Step>)
    requires steps != [] && DistinctPaths(steps) && KeysOnce(f, steps)
    ensures DistinctPaths(steps[1..]) && KeysOnce(f, steps[1..])
  {
    hide LinesAt;
    hide DistinctLines;
    assert forall i :: 0 <= i < |steps[1..]| ==> steps[1..][i] == steps[i + 1];
  }

  lemma AcceptedStep(keyOf: string -> string, text: string, step: Step, same: Guard, was: seq<Line>)
    requires Terminated(text) && Accepts(same, was) && Rewrites(Read(keyOf, text), was)
    requires ReorderAt(Read(keyOf, text), step).Some?
    ensures same(Read(keyOf, text), ReorderAt(Read(keyOf, text), step).value)
  {
    StepRewrites(keyOf, text, step, was);
    StepIsKept(keyOf, text, step);
    hide ReorderAt;
    hide Rewrites;
    hide Kept;
    hide Read;
  }

  /** The rules skipped are exactly those of the steps that the file as it was refuses. */
  lemma {:induction false} SkippedExactly(keyOf: string -> string, text: string, steps: seq<Step>, same: Guard, was: seq<Line>)
    requires Terminated(text) && Accepts(same, was) && Rewrites(Read(keyOf, text), was)
    requires KeysOnce(Forest(Read(keyOf, text)), steps) && DistinctPaths(steps)
    ensures Applied(Read(keyOf, text), steps, same).1 == RefusedRules(Forest(Read(keyOf, text)), steps)
    decreases |steps|
  {
    hide ReorderAt;
    hide Rewrites;
    hide Accepts;
    hide Read;
    hide Write;
    hide Terminated;
    hide Forest;
    hide KeysOnce;
    hide DistinctPaths;
    hide Refuses;
    if steps != [] {
      var lines := Read(keyOf, text);
      GivesUpExactly(lines, steps[0]);
      StepsAfter(Forest(lines), steps);
      var reordered := ReorderAt(lines, steps[0]);
      if reordered.None? {
        SkippedExactly(keyOf, text, steps[1..], same, was);
      } else {
        AcceptedStep(keyOf, text, steps[0], same, was);
        StepRewrites(keyOf, text, steps[0], was);
        OthersFindTheirs(lines, steps);
        SkippedExactly(keyOf, Write(reordered.value), steps[1..], same, was);
      }
    }
  }

  lemma {:induction false} NoneRefused(f: seq<Node>, steps: seq<Step>)
    ensures RefusedRules(f, steps) == [] <==> forall i :: 0 <= i < |steps| ==> !Refuses(f, steps[i])
  {
    if steps != [] {
      NoneRefused(f, steps[1..]);
      assert forall i :: 0 < i < |steps| ==> steps[i] == steps[1..][i - 1];
      assert forall i :: 0 <= i < |steps| - 1 ==> steps[1..][i] == steps[i + 1];
      hide Refuses;
    }
  }

  // -- the whole file ------------------------------------------------------------------------

  /** The keys of every mapping that is to be ordered stand in one column. */
  predicate Aligned(f: seq<Node>) {
    forall i :: 0 <= i < |ReorderSteps(f)| ==>
      var keys := LinesAt(f, ReorderSteps(f)[i].path); keys.Some? ==> AllEqual(Columns(keys.value))
  }

  /**
   * Under every guard that asks no more than the same data and the same
   * comments, a file is ordered except for exactly the mappings that are out of
   * order and not aligned.
   */
  lemma SkipsOnlyMisaligned(keyOf: string -> string, text: string, same: Guard)
    requires Terminated(text) && WellKeyed(Forest(Read(keyOf, text))) && Accepts(same, Read(keyOf, text))
    ensures var lines := Read(keyOf, text);
      Ordered(lines, same).1 == RefusedRules(Forest(lines), ReorderSteps(Forest(lines)))
    ensures var lines := Read(keyOf, text);
      Ordered(lines, same).1 == [] <==>
      forall i :: 0 <= i < |ReorderSteps(Forest(lines))| ==> !Refuses(Forest(lines), ReorderSteps(Forest(lines))[i])
  {
    var f := Forest(Read(keyOf, text));
    StepsDistinct(f);
    hide Forest;
    hide ReorderSteps;
    SameDataSelf(f);
    SkippedExactly(keyOf, text, ReorderSteps(f), same, Read(keyOf, text));
    NoneRefused(f, ReorderSteps(f));
  }

  /**
   * So an aligned file is ordered completely: no rule is skipped, the top
   * level, every service and every labels mapping are canonical together, the
   * document says what it said, and doing it again changes nothing.
   */
  lemma AlignedIsOrdered(keyOf: string -> string, text: string, same: Guard)
    requires var f := Forest(Read(keyOf, text)); Terminated(text) && WellKeyed(f) && Aligned(f)
    requires Accepts(same, Read(keyOf, text))
    ensures var lines := Read(keyOf, text); var out := Ordered(lines, same).0;
      Ordered(lines, same).1 == [] && Canonical(Forest(lines), Forest(out)) && Kept(lines, out)
      && Ordered(out, same) == (out, [])
  {
    var lines := Read(keyOf, text);
    var f := Forest(lines);
    var out := Ordered(lines, same).0;
    forall i | 0 <= i < |ReorderSteps(f)| ensures !Refuses(f, ReorderSteps(f)[i]) {
      hide ReorderSteps;
      hide LinesAt;
    }
    SkipsOnlyMisaligned(keyOf, text, same);
    hide Forest;
    hide ReorderSteps;
    hide Refuses;
    OnePassIsCanonical(lines, same);
    WriteRead(keyOf, text);
    AllStepsKeepData(lines, ReorderSteps(f), same);
    AllStepsKeepComments(keyOf, text, ReorderSteps(f), same);
    StepsPermute(lines, ReorderSteps(f), same);
    SameDataSelf(Forest(out));
    hide SameData;
    assert Kept(out, out) && Rewrites(out, lines);
    assert same(out, out);
    SecondPassIdle(lines, same);
  }

  /** The guard that asks for the same data and the same comments is one of those. */
  lemma KeptIsAccepted(was: seq<Line>)
    ensures Accepts(Kept, was)
  {
  }

  /** In particular nothing is assumed of the guard that asks for the same data and the same comments. */
  lemma AlignedUnderKept(keyOf: string -> string, text: string)
    requires var f := Forest(Read(keyOf, text)); Terminated(text) && WellKeyed(f) && Aligned(f)
    ensures var lines := Read(keyOf, text); var out := Ordered(lines, Kept).0;
      Ordered(lines, Kept).1 == [] && Canonical(Forest(lines), Forest(out)) && Ordered(out, Kept) == (out, [])
  {
    KeptIsAccepted(Read(keyOf, text));
    hide Forest;
    hide Accepts;
    AlignedIsOrdered(keyOf, text, Kept);
  }

  // -- the chain of texts and the chain of lines -----------------------------------------------

  /** `reorder_mapping` from text to text. */
  function ReorderText(keyOf: string -> string, text: string, step: Step): Option<string> {
    var out := ReorderAt(Read(keyOf, text), step);
    if out.Some? then Some(Write(out.value)) else None
  }

  /** Tools whose reorder is that of the formatter, under the formatter's own rule names. */
  ghost predicate Formats<P(!new)>(t: Pipeline.Tools<P, Step>, keyOf: string -> string) {
    forall text, step :: t.reorder(text, step) == ReorderText(keyOf, text, step) && t.rule(step) == step.rule
  }

  function GuardOf<P>(t: Pipeline.Tools<P, Step>): Guard {
    (a: seq<Line>, b: seq<Line>) => Pipeline.SameMeaning(t, Write(a), Write(b))
  }

  /** Unless a check raises, the chain of guarded texts is the chain of guarded lines, written out. */
  lemma {:induction false} ChainIsApplied<P(!new)>(t: Pipeline.Tools<P, Step>, keyOf: string -> string, text: string, steps: seq<Step>)
    requires Terminated(text) && Formats(t, keyOf)
    ensures var (lines, skipped) := Applied(Read(keyOf, text), steps, GuardOf(t)); var chain := Pipeline.Chain(t, text, steps);
      chain.Some? ==> chain.value == (Write(lines), skipped)
    decreases |steps|
  {
    WriteRead(keyOf, text);
    if steps != [] {
      var lines, rest := Read(keyOf, text), steps[1..];
      var reordered := ReorderAt(lines, steps[0]);
      assert t.reorder(text, steps[0]) == ReorderText(keyOf, text, steps[0]) && t.rule(steps[0]) == steps[0].rule;
      hide ReorderAt;
      hide Pipeline.Compared;
      if reordered.None? || !GuardOf(t)(lines, reordered.value) {
        ChainIsApplied(t, keyOf, text, rest);
      } else {
        StepIsKept(keyOf, text, steps[0]);
        ChainIsApplied(t, keyOf, Write(reordered.value), rest);
      }
      hide Read;
      hide Write;
    }
  }

  /** Among the rewritings of a text, the projection depends on nothing but what the document says. */
  ghost predicate ReadsData<P(!new)>(t: Pipeline.Tools<P, Step>, was: seq<Line>) {
    forall a, b :: Rewrites(a, was) && Rewrites(b, was) ==> t.project(Write(a)) == t.project(Write(b))
  }

  lemma ComparesQuietly<P>(t: Pipeline.Tools<P, Step>, before: string, after: string)
    requires t.project(before).Means? && t.project(after).Means?
    ensures !Pipeline.Compared(t, before, after).Raised?
  {
  }

  /** With such a projection no check in the chain raises. */
  lemma {:induction false} ChainReturns<P(!new)>(t: Pipeline.Tools<P, Step>, keyOf: string -> string, text: string,
                                                 steps: seq<Step>, was: seq<Line>)
    requires Terminated(text) && Formats(t, keyOf) && ReadsData(t, was) && t.project(Write(was)).Means?
    requires Rewrites(Read(keyOf, text), was)
    ensures Pipeline.Chain(t, text, steps).Some?
    decreases |steps|
  {
    hide Rewrites;
    hide ReorderAt;
    hide Read;
    hide Write;
    hide Terminated;
    hide Pipeline.Compared;
    WriteRead(keyOf, text);
    ProjectsAlike(t, Read(keyOf, text), was);
    if steps != [] {
      var reordered := ReorderAt(Read(keyOf, text), steps[0]);
      assert t.reorder(text, steps[0]) == ReorderText(keyOf, text, steps[0]);
      hide Formats;
      ChainReturns(t, keyOf, text, steps[1..], was);
      if reordered.Some? {
        StepRewrites(keyOf, text, steps[0], was);
        ProjectsAlike(t, reordered.value, was);
        ComparesQuietly(t, text, Write(reordered.value));
        ChainReturns(t, keyOf, Write(reordered.value), steps[1..], was);
      }
    }
  }

  lemma ProjectsAlike<P(!new)>(t: Pipeline.Tools<P, Step>, a: seq<Line>, was: seq<Line>)
    requires ReadsData(t, was) && Rewrites(a, was)
    ensures t.project(Write(a)) == t.project(Write(was))
  {
    SameDataSelf(Forest(was));
    assert Rewrites(was, was);
  }

  /**
   * And the formatter's own guard never refuses a reorder: `_apply_order`
   * skips exactly the rules of the misaligned mappings, and an aligned text
   * comes out ordered in full, for good.
   */
  lemma FormatterSkipsOnlyMisaligned<P(!new)>(t: Pipeline.Tools<P, Step>, keyOf: string -> string, text: string)
    requires Terminated(text) && Formats(t, keyOf) && ReadsData(t, Read(keyOf, text)) && t.project(text).Means?
    requires WellKeyed(Forest(Read(keyOf, text)))
    ensures var lines := Read(keyOf, text); var steps := ReorderSteps(Forest(lines));
      Pipeline.Chain(t, text, steps) == Some((Write(Ordered(lines, GuardOf(t)).0), RefusedRules(Forest(lines), steps)))
    ensures var lines := Read(keyOf, text); var out := Ordered(lines, GuardOf(t)).0;
      Aligned(Forest(lines)) ==> Canonical(Forest(lines), Forest(out)) && Ordered(out, GuardOf(t)) == (out, [])
  {
    var lines := Read(keyOf, text);
    var f := Forest(lines);
    WriteRead(keyOf, text);
    SameDataSelf(f);
    GuardAccepts(t, lines);
    ChainIsApplied(t, keyOf, text, ReorderSteps(f));
    ChainReturns(t, keyOf, text, ReorderSteps(f), lines);
    SkipsOnlyMisaligned(keyOf, text, GuardOf(t));
    hide Forest;
    hide ReorderSteps;
    if Aligned(f) { AlignedIsOrdered(keyOf, text, GuardOf(t)); }
  }

  lemma ComparesAlike<P>(t: Pipeline.Tools<P, Step>, before: string, after: string)
    requires t.project(before).Means? && t.project(after) == t.project(before) && CommentsIn(after) == CommentsIn(before)
    ensures Pipeline.SameMeaning(t, before, after)
  {
    hide CommentsIn;
  }

  lemma GuardAcceptsOne<P(!new)>(t: Pipeline.Tools<P, Step>, was: seq<Line>, a: seq<Line>, b: seq<Line>)
    requires ReadsData(t, was) && t.project(Write(was)).Means?
    requires Rewrites(a, was) && Rewrites(b, was) && Kept(a, b)
    ensures GuardOf(t)(a, b)
  {
    ProjectsAlike(t, a, was);
    ProjectsAlike(t, b, was);
    hide ReadsData;
    hide Rewrites;
    hide SameData;
    hide Forest;
    hide CommentsIn;
    hide Write;
    hide Pipeline.SameMeaning;
    ComparesAlike(t, Write(a), Write(b));
  }

  lemma GuardAccepts<P(!new)>(t: Pipeline.Tools<P, Step>, was: seq<Line>)
    requires ReadsData(t, was) && t.project(Write(was)).Means?
    ensures Accepts(GuardOf(t), was)
  {
    hide ReadsData;
    hide Rewrites;
    hide Kept;
    hide GuardOf;
    hide Write;
    forall a, b | Rewrites(a, was) && Rewrites(b, was) && Kept(a, b) ensures GuardOf(t)(a, b) {
      GuardAcceptsOne(t, was, a, b);
    }
  }

  // -- such projections ----------------------------------------------------------------------------

  /** What a document says, as a projection of its text. */
  function Says(keyOf: string -> string, text: string): (multiset<Data>, seq<Data>) {
    var f := Forest(Read(keyOf, text));
    (Entries(f), Items(f))
  }

  /** Reading all that a document says, and nothing else, is such a projection, */
  lemma SaysReadsData(t: Pipeline.Tools<(multiset<Data>, seq<Data>), Step>, keyOf: string -> string, text: string)
    requires Terminated(text) && forall x :: t.project(x) == Pipeline.Means(Says(keyOf, x))
    ensures ReadsData(t, Read(keyOf, text))
  {
    var was := Read(keyOf, text);
    forall a, b | Rewrites(a, was) && Rewrites(b, was) ensures t.project(Write(a)) == t.project(Write(b)) {
      PermutedTextReads(keyOf, text, a);
      PermutedTextReads(keyOf, text, b);
      hide Forest;
      hide Read;
      hide Write;
    }
  }

  /** and it tells texts apart: any two different lines with data in them say different things. */
  lemma SaysTellsApart(keyOf: string -> string, x: string, y: string)
    requires OneLine(x) && OneLine(y) && x != y && Lex(keyOf, x).Content? && Lex(keyOf, y).Content?
    ensures Says(keyOf, x) != Says(keyOf, y)
  {
    SaysOfOne(keyOf, x);
    SaysOfOne(keyOf, y);
    LexText(keyOf, x);
    LexText(keyOf, y);
    var dx, dy := Data(Lex(keyOf, x), multiset{}, []), Data(Lex(keyOf, y), multiset{}, []);
    hide Lex;
    assert dx != dy && dx in multiset{dx} && dx !in multiset{dy};
  }

  lemma SaysOfOne(keyOf: string -> string, x: string)
    requires OneLine(x) && Lex(keyOf, x).Content?
    ensures var line := Lex(keyOf, x); var d := Data(line, multiset{}, []);
      Says(keyOf, x) == if IsKey(line) then (multiset{d}, []) else (multiset{}, [d])
  {
    var line := Lex(keyOf, x);
    LastLine(x);
    assert Read(keyOf, x) == [line] by {
      hide SplitKeep;
      hide Lex;
    }
    hide Lex;
    hide Read;
    OneNode(line);
    DataOfOne(Node(line, []));
  }

  lemma OneNode(line: Line)
    requires line.Content?
    ensures Forest([line]) == [Node(line, [])]
  {
    FirstNode(line, [], []);
    ForestEmpty();
    assert [line] + [] + [] == [line];
    hide Forest;
  }

  lemma DataOfOne(n: Node)
    requires n.kids == []
    ensures var d := Data(n.line, multiset{}, []);
      Entries([n]) == (if IsKey(n.line) then multiset{d} else multiset{})
      && Items([n]) == if IsKey(n.line) then [] else [d]
  {
    assert [n][1..] == [];
    assert Entries([]) == multiset{} && Items([]) == [];
  }
}
