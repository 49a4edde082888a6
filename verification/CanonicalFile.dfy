/**
 * One pass of `_apply_order`, told path by path: at the top level, in every
 * service and in every labels mapping the keys are the old ones sorted, and
 * every other mapping keeps its own; and for each rule, which files skip it.
 * Nothing here speaks of the steps by which the pass goes about it.
 */
module CanonicalFile {
  import opened Wrappers
  import opened Outline
  import opened KeyOrder
  import opened ApplyOrder
  import opened CanonicalForm
  import opened ComposeText
  import opened FormatOrder

  /** The orders of the rules N-005 and N-006. */
  predicate TopLe(a: string, b: string) { RankLe(TopRank(a), TopRank(b)) }

  predicate ServiceLe(a: string, b: string) { RankLe(KeyRank(SERVICE_KEY_ORDER, a), KeyRank(SERVICE_KEY_ORDER, b)) }

  /** The lines are the keys of a block mapping. */
  predicate Block(keys: seq<Line>) {
    keys != [] && forall i :: 0 <= i < |keys| ==> keys[i].Content? && !keys[i].item
  }

  /** The mapping takes in another one. */
  predicate Merging(keys: seq<Line>) {
    exists i :: 0 <= i < |keys| && KeyOf(keys[i]) == "<<"
  }

  /** `after` is `before` in the given order, with ties as they stood. */
  predicate StableSort(le: (string, string) -> bool, was: seq<Line>, after: seq<Line>, order: seq<nat>) {
    && IsOrder(order, |was|) && after == Pick(was, order)
    && forall i, j :: 0 <= i < j < |after| ==>
         le(KeyOf(after[i]), KeyOf(after[j])) && (le(KeyOf(after[j]), KeyOf(after[i])) ==> order[i] < order[j])
  }

  ghost predicate SortsInto(le: (string, string) -> bool, was: seq<Line>, after: seq<Line>) {
    if Block(was) && !Merging(was) then exists order :: StableSort(le, was, after, order) else after == was
  }

  /** At that path `g` holds the keys of `f`, sorted. */
  ghost predicate PutInOrder(f: seq<Node>, g: seq<Node>, path: seq<string>, le: (string, string) -> bool) {
    var was, after := LinesAt(f, path), LinesAt(g, path);
    was.Some? == after.Some? && (was.Some? ==> SortsInto(le, was.value, after.value))
  }

  predicate BlockAt(f: seq<Node>, path: seq<string>) {
    var keys := LinesAt(f, path);
    keys.Some? && Block(keys.value)
  }

  /** A service of that name is written in the file. */
  ghost predicate Named(f: seq<Node>, n: string) {
    var names := LinesAt(f, ["services"]);
    names.Some? && exists i :: 0 <= i < |names.value| && KeyOf(names.value[i]) == n
  }

  predicate OnceAt(f: seq<Node>, path: seq<string>) {
    var keys := LinesAt(f, path);
    keys.Some? ==> forall i, j :: 0 <= i < j < |keys.value| ==> KeyOf(keys.value[i]) != KeyOf(keys.value[j])
  }

  ghost predicate KeysWrittenOnce(f: seq<Node>) {
    OnceAt(f, []) && OnceAt(f, ["services"])
    && forall n :: OnceAt(f, ["services", n]) && OnceAt(f, ["services", n, "labels"])
  }

  // -- the steps behind it ---------------------------------------------------------------

  /** A step for the service `n`. */
  ghost predicate StepFor(f: seq<Node>, s: Step, n: string) {
    BlockAt(f, ["services", n])
    && (s == ServiceStep(n) || (s == LabelsStep(n) && BlockAt(f, ["services", n, "labels"])))
  }

  lemma {:induction false} ServiceStepsAre(f: seq<Node>, names: seq<Line>, s: Step)
    ensures s in ServiceSteps(f, names) <==> exists i :: 0 <= i < |names| && StepFor(f, s, KeyOf(names[i]))
  {
    if names != [] {
      var n, rest := KeyOf(names[0]), names[1..];
      ServiceStepsAre(f, rest, s);
      assert s in StepsFor(f, n) <==> StepFor(f, s, n);
      hide StepsFor;
      hide StepFor;
      assert forall i :: 0 <= i < |rest| ==> rest[i] == names[i + 1];
      if i :| 0 <= i < |names| && StepFor(f, s, KeyOf(names[i])) {
        if i > 0 { assert StepFor(f, s, KeyOf(rest[i - 1])); }
      }
    }
  }

  lemma StepsAre(f: seq<Node>, s: Step)
    ensures s in ReorderSteps(f) <==> s == RootStep() || exists n :: Named(f, n) && StepFor(f, s, n)
  {
    var names := LinesAt(f, ["services"]);
    if names.Some? {
      ServiceStepsAre(f, names.value, s);
      hide StepFor;
      hide ServiceSteps;
      if n :| Named(f, n) && StepFor(f, s, n) {
        var i :| 0 <= i < |names.value| && KeyOf(names.value[i]) == n;
        assert StepFor(f, s, KeyOf(names.value[i]));
      }
    }
  }

  lemma StepShape(f: seq<Node>, s: Step)
    requires s in ReorderSteps(f)
    ensures s.path == [] || exists n :: s.path == ["services", n] || s.path == ["services", n, "labels"]
    ensures s.rule in {"N-005", "N-006", "N-009"}
  {
    StepsAre(f, s);
    hide ReorderSteps;
    hide BlockAt;
    if s != RootStep() {
      var n :| Named(f, n) && StepFor(f, s, n);
    }
  }

  lemma OnceIsWellKeyed(f: seq<Node>)
    requires KeysWrittenOnce(f)
    ensures WellKeyed(f)
  {
    forall i | 0 <= i < |ReorderSteps(f)| ensures OnceAt(f, ReorderSteps(f)[i].path) {
      StepShape(f, ReorderSteps(f)[i]);
    }
    hide ReorderSteps;
    assert OnceAt(f, ["services"]);
  }

  lemma SortedSorts(step: Step, le: (string, string) -> bool, keys: seq<Line>)
    requires forall a, b :: le(a, b) <==> RankLe(step.rank(a), step.rank(b))
    ensures SortsInto(le, keys, Sorted(step.rank, keys))
  {
    if Block(keys) && !Merging(keys) {
      var ranks := Ranks(step.rank, keys);
      StableOrderSorts(ranks);
      hide StableOrder;
      hide SortedStable;
      hide StableSort;
      RanksSort(step.rank, le, keys, StableOrder(ranks));
    }
  }

  lemma RanksSort(rank: string -> Rank, le: (string, string) -> bool, keys: seq<Line>, order: seq<nat>)
    requires forall a, b :: le(a, b) <==> RankLe(rank(a), rank(b))
    requires IsOrder(order, |keys|) && SortedStable(Ranks(rank, keys), order)
    ensures StableSort(le, keys, Pick(keys, order), order)
  {
    var ranks, after := Ranks(rank, keys), Pick(keys, order);
    OrderBounds(order, |keys|);
    forall i, j | 0 <= i < j < |after|
      ensures le(KeyOf(after[i]), KeyOf(after[j])) && (le(KeyOf(after[j]), KeyOf(after[i])) ==> order[i] < order[j])
    {
      RankLeOrder(ranks[order[i]], ranks[order[j]], ranks[order[i]]);
      hide RankLe;
      hide IsOrder;
    }
  }

  lemma StepPuts(lines: seq<Line>, same: Guard, step: Step, le: (string, string) -> bool)
    requires KeysWrittenOnce(Forest(lines)) && step in ReorderSteps(Forest(lines)) && step.rule !in Ordered(lines, same).1
    requires forall a, b :: le(a, b) <==> RankLe(step.rank(a), step.rank(b))
    ensures PutInOrder(Forest(lines), Forest(Ordered(lines, same).0), step.path, le)
  {
    var f := Forest(lines);
    var steps := ReorderSteps(f);
    OnceIsWellKeyed(f);
    StepsDistinct(f);
    hide Forest;
    hide ReorderSteps;
    var i :| 0 <= i < |steps| && steps[i] == step;
    AllSorted(lines, steps, same, i);
    var keys := LinesAt(f, step.path);
    if keys.Some? { SortedSorts(step, le, keys.value); }
  }

  lemma OthersStay(lines: seq<Line>, same: Guard, path: seq<string>)
    requires KeysWrittenOnce(Forest(lines))
    requires forall s :: s in ReorderSteps(Forest(lines)) ==> s.path != path
    ensures LinesAt(Forest(Ordered(lines, same).0), path) == LinesAt(Forest(lines), path)
  {
    OnceIsWellKeyed(Forest(lines));
    OthersKept(lines, ReorderSteps(Forest(lines)), same, path);
  }

  // -- main results ---------------------------------------------------------------------------

  /** Unless N-005 is skipped, the top level is sorted. */
  lemma TopLevelInOrder(lines: seq<Line>, same: Guard)
    requires KeysWrittenOnce(Forest(lines)) && "N-005" !in Ordered(lines, same).1
    ensures PutInOrder(Forest(lines), Forest(Ordered(lines, same).0), [], TopLe)
  {
    StepsAre(Forest(lines), RootStep());
    StepPuts(lines, same, RootStep(), TopLe);
  }

  /** Unless N-006 is skipped, the keys of every service are sorted. */
  lemma ServicesInOrder(lines: seq<Line>, same: Guard, n: string)
    requires KeysWrittenOnce(Forest(lines)) && "N-006" !in Ordered(lines, same).1 && Named(Forest(lines), n)
    ensures PutInOrder(Forest(lines), Forest(Ordered(lines, same).0), ["services", n], ServiceLe)
  {
    var f := Forest(lines);
    var path := ["services", n];
    if BlockAt(f, path) {
      StepsAre(f, ServiceStep(n));
      StepPuts(lines, same, ServiceStep(n), ServiceLe);
    } else {
      forall s | s in ReorderSteps(f) ensures s.path != path { StepsAre(f, s); }
      OthersStay(lines, same, path);
    }
  }

  /** Unless N-009 is skipped, the labels of every service that is a mapping are in the order of their names. */
  lemma LabelsInOrder(lines: seq<Line>, same: Guard, n: string)
    requires KeysWrittenOnce(Forest(lines)) && "N-009" !in Ordered(lines, same).1
    requires Named(Forest(lines), n) && BlockAt(Forest(lines), ["services", n])
    ensures PutInOrder(Forest(lines), Forest(Ordered(lines, same).0), ["services", n, "labels"], StringLe)
  {
    var f := Forest(lines);
    var path := ["services", n, "labels"];
    if BlockAt(f, path) {
      StepsAre(f, LabelsStep(n));
      StepPuts(lines, same, LabelsStep(n), StringLe);
    } else {
      forall s | s in ReorderSteps(f) ensures s.path != path { StepsAre(f, s); }
      OthersStay(lines, same, path);
    }
  }

  /** Whatever is skipped, no other mapping changes: the order of the services among them. */
  lemma OtherMappingsStay(lines: seq<Line>, same: Guard, path: seq<string>)
    requires KeysWrittenOnce(Forest(lines)) && path != []
    requires forall n :: path != ["services", n] && path != ["services", n, "labels"]
    ensures LinesAt(Forest(Ordered(lines, same).0), path) == LinesAt(Forest(lines), path)
  {
    forall s | s in ReorderSteps(Forest(lines)) ensures s.path != path { StepShape(Forest(lines), s); }
    OthersStay(lines, same, path);
  }

  // -- rules that are skipped ----------------------------------------------------------------------

  lemma {:induction false} SkippedFromSteps(lines: seq<Line>, steps: seq<Step>, same: Guard, rule: string)
    requires rule in Applied(lines, steps, same).1
    ensures exists s :: s in steps && s.rule == rule
    decreases |steps|
  {
    var reordered, rest := ReorderAt(lines, steps[0]), steps[1..];
    hide ReorderAt;
    assert steps == [steps[0]] + rest;
    if rule != steps[0].rule {
      SkippedFromSteps(if reordered.None? || !same(lines, reordered.value) then lines else reordered.value, rest, same, rule);
    }
  }

  /** No other rule is ever skipped. */
  lemma SkippedRules(lines: seq<Line>, same: Guard, rule: string)
    requires rule in Ordered(lines, same).1
    ensures rule in {"N-005", "N-006", "N-009"}
  {
    var f := Forest(lines);
    SkippedFromSteps(lines, ReorderSteps(f), same, rule);
    var s :| s in ReorderSteps(f) && s.rule == rule;
    StepShape(f, s);
  }

  /** The mapping at the path is out of order, and its keys do not stand in one column. */
  predicate OutOfLine(f: seq<Node>, path: seq<string>, le: (string, string) -> bool) {
    var at := LinesAt(f, path);
    at.Some? && Block(at.value) && !Merging(at.value)
    && (exists i, j :: 0 <= i < j < |at.value| && !le(KeyOf(at.value[i]), KeyOf(at.value[j])))
    && exists i, j :: 0 <= i < |at.value| && 0 <= j < |at.value| && at.value[i].indent != at.value[j].indent
  }

  lemma RefusesIs(f: seq<Node>, step: Step, le: (string, string) -> bool)
    requires forall a, b :: le(a, b) <==> RankLe(step.rank(a), step.rank(b))
    ensures Refuses(f, step) <==> OutOfLine(f, step.path, le)
  {
    var at := LinesAt(f, step.path);
    if at.Some? && Block(at.value) && !Merging(at.value) {
      var keys, ranks := at.value, Ranks(step.rank, at.value);
      SortedStays(ranks);
      hide StableOrder;
      hide RankLe;
      assert InOrder(ranks) <==> forall i, j :: 0 <= i < j < |keys| ==> le(KeyOf(keys[i]), KeyOf(keys[j]));
      assert forall i :: 0 <= i < |keys| ==> Columns(keys)[i] == keys[i].indent;
    }
  }

  lemma {:induction false} RefusedFromSteps(f: seq<Node>, steps: seq<Step>, rule: string)
    ensures rule in RefusedRules(f, steps) <==> exists s :: s in steps && s.rule == rule && Refuses(f, s)
  {
    if steps != [] {
      hide Refuses;
      RefusedFromSteps(f, steps[1..], rule);
      assert steps == [steps[0]] + steps[1..];
    }
  }

  /**
   * Under a guard that asks no more than the same data and the same comments,
   * a rule is skipped exactly when one of its mappings is out of line.
   */
  lemma SkippedWhenOutOfLine(keyOf: string -> string, text: string, same: Guard)
    requires Terminated(text) && KeysWrittenOnce(Forest(Read(keyOf, text))) && Accepts(same, Read(keyOf, text))
    ensures var f := Forest(Read(keyOf, text)); "N-005" in Ordered(Read(keyOf, text), same).1 <==> OutOfLine(f, [], TopLe)
    ensures var f := Forest(Read(keyOf, text));
      "N-006" in Ordered(Read(keyOf, text), same).1 <==> exists n :: Named(f, n) && OutOfLine(f, ["services", n], ServiceLe)
    ensures var f := Forest(Read(keyOf, text));
      "N-009" in Ordered(Read(keyOf, text), same).1
      <==> exists n :: Named(f, n) && BlockAt(f, ["services", n]) && OutOfLine(f, ["services", n, "labels"], StringLe)
  {
    var f := Forest(Read(keyOf, text));
    OnceIsWellKeyed(f);
    SkipsOnlyMisaligned(keyOf, text, same);
    hide Forest;
    TopSkipped(f);
    ServicesSkipped(f);
    LabelsSkipped(f);
  }

  lemma TopSkipped(f: seq<Node>)
    ensures "N-005" in RefusedRules(f, ReorderSteps(f)) <==> OutOfLine(f, [], TopLe)
  {
    RefusedFromSteps(f, ReorderSteps(f), "N-005");
    RefusesIs(f, RootStep(), TopLe);
    StepsAre(f, RootStep());
    hide Refuses;
    hide OutOfLine;
    forall s | s in ReorderSteps(f) && s.rule == "N-005" ensures s == RootStep() { StepsAre(f, s); }
  }

  lemma ServicesSkipped(f: seq<Node>)
    ensures "N-006" in RefusedRules(f, ReorderSteps(f))
       <==> exists n :: Named(f, n) && OutOfLine(f, ["services", n], ServiceLe)
  {
    RefusedFromSteps(f, ReorderSteps(f), "N-006");
    forall n ensures Refuses(f, ServiceStep(n)) <==> OutOfLine(f, ["services", n], ServiceLe) {
      RefusesIs(f, ServiceStep(n), ServiceLe);
    }
    forall n | Named(f, n) && BlockAt(f, ["services", n]) ensures ServiceStep(n) in ReorderSteps(f) { StepsAre(f, ServiceStep(n)); }
    forall s | s in ReorderSteps(f) && s.rule == "N-006" ensures exists n :: Named(f, n) && s == ServiceStep(n) {
      StepsAre(f, s);
    }
    hide Refuses;
    hide ReorderSteps;
  }

  lemma LabelsSkipped(f: seq<Node>)
    ensures "N-009" in RefusedRules(f, ReorderSteps(f))
       <==> exists n :: Named(f, n) && BlockAt(f, ["services", n]) && OutOfLine(f, ["services", n, "labels"], StringLe)
  {
    RefusedFromSteps(f, ReorderSteps(f), "N-009");
    forall n ensures Refuses(f, LabelsStep(n)) <==> OutOfLine(f, ["services", n, "labels"], StringLe) {
      RefusesIs(f, LabelsStep(n), StringLe);
    }
    forall n | Named(f, n) && BlockAt(f, ["services", n]) && BlockAt(f, ["services", n, "labels"])
      ensures LabelsStep(n) in ReorderSteps(f)
    {
      StepsAre(f, LabelsStep(n));
    }
    forall s | s in ReorderSteps(f) && s.rule == "N-009"
      ensures exists n :: Named(f, n) && BlockAt(f, ["services", n]) && s == LabelsStep(n)
    {
      StepsAre(f, s);
    }
    hide Refuses;
    hide ReorderSteps;
  }
}
