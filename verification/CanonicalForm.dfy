/**
 * The steps `_reorder_steps` asks for, and what running them all means for a
 * compose file: one pass puts the top level, every service and every labels
 * mapping in canonical order, and a second pass finds nothing to do.
 */
module CanonicalForm {
  import opened Wrappers
  import opened Outline
  import opened KeyOrder
  import opened ApplyOrder

  const SERVICES := "services"
  const LABELS := "labels"

  function RootStep(): Step { Step([], name => TopRank(name), "N-005") }

  function ServiceStep(name: string): Step {
    Step([SERVICES, name], key => KeyRank(SERVICE_KEY_ORDER, key), "N-006")
  }

  function LabelsStep(name: string): Step {
    Step([SERVICES, name, LABELS], key => KeyRank([], key), "N-009")
  }

  predicate MappingAt(f: seq<Node>, path: seq<string>) {
    var keys := LinesAt(f, path);
    keys.Some? && IsMapping(keys.value)
  }

  /** The steps for one service: its own keys, then its labels when they are a mapping. */
  function StepsFor(f: seq<Node>, name: string): seq<Step> {
    if !MappingAt(f, [SERVICES, name]) then []
    else [ServiceStep(name)] + if MappingAt(f, [SERVICES, name, LABELS]) then [LabelsStep(name)] else []
  }

  function ServiceSteps(f: seq<Node>, names: seq<Line>): seq<Step> {
    if names == [] then [] else StepsFor(f, KeyOf(names[0])) + ServiceSteps(f, names[1..])
  }

  /** `_reorder_steps`. */
  function ReorderSteps(f: seq<Node>): seq<Step> {
    var services := LinesAt(f, [SERVICES]);
    [RootStep()] + if services.Some? then ServiceSteps(f, services.value) else []
  }

  /** `_apply_order`, from the text to the text. */
  function Ordered(lines: seq<Line>, same: Guard): (seq<Line>, seq<string>) {
    Applied(lines, ReorderSteps(Forest(lines)), same)
  }

  /** `_apply_order`: the steps are asked for once, then run in turn. */
  method ApplyAllOrders(text: seq<Line>, same: Guard) returns (lines: seq<Line>, skipped: seq<string>)
    ensures (lines, skipped) == Ordered(text, same)
    ensures WellKeyed(Forest(text)) && skipped == [] ==> Canonical(Forest(text), Forest(lines))
    ensures WellKeyed(Forest(text)) && skipped == [] && same(lines, lines) ==> Ordered(lines, same) == (lines, [])
  {
    lines, skipped := RunSteps(text, ReorderSteps(Forest(text)), same);
    if WellKeyed(Forest(text)) && skipped == [] {
      OnePassIsCanonical(text, same);
      if same(lines, lines) { SecondPassIdle(text, same); }
    }
  }

  /** No mapping that is reordered, nor the list of services, writes a key twice. */
  predicate WellKeyed(f: seq<Node>) {
    KeysOnce(f, ReorderSteps(f))
    && var services := LinesAt(f, [SERVICES]); services.Some? ==> DistinctLines(services.value)
  }

  // -- the steps name different mappings ---------------------------------------------

  /** A step of one of the services named. */
  ghost predicate StepOf(s: Step, names: seq<Line>) {
    |s.path| >= 2 && s.path[0] == SERVICES
    && (|s.path| == 2 || (|s.path| == 3 && s.path[2] == LABELS))
    && exists i :: 0 <= i < |names| && KeyOf(names[i]) == s.path[1]
  }

  lemma {:induction false} ServiceStepsDistinct(f: seq<Node>, names: seq<Line>)
    requires DistinctLines(names)
    ensures forall i :: 0 <= i < |ServiceSteps(f, names)| ==> StepOf(ServiceSteps(f, names)[i], names)
    ensures DistinctPaths(ServiceSteps(f, names))
  {
    if names != [] {
      var first, rest := StepsFor(f, KeyOf(names[0])), ServiceSteps(f, names[1..]);
      ServiceStepsDistinct(f, names[1..]);
      FirstSteps(f, names);
      forall i | 0 <= i < |rest| ensures StepOf(rest[i], names) && rest[i].path[1] != KeyOf(names[0]) {
        LaterStep(names, rest[i]);
      }
      hide StepsFor;
      assert ServiceSteps(f, names) == first + rest;
    }
  }

  lemma FirstSteps(f: seq<Node>, names: seq<Line>)
    requires names != []
    ensures var first := StepsFor(f, KeyOf(names[0]));
      DistinctPaths(first) && forall i :: 0 <= i < |first| ==> StepOf(first[i], names) && first[i].path[1] == KeyOf(names[0])
  {
    hide MappingAt;
  }

  lemma LaterStep(names: seq<Line>, s: Step)
    requires names != [] && DistinctLines(names) && StepOf(s, names[1..])
    ensures StepOf(s, names) && s.path[1] != KeyOf(names[0])
  {
    var j :| 0 <= j < |names[1..]| && KeyOf(names[1..][j]) == s.path[1];
    assert KeyOf(names[j + 1]) == s.path[1];
  }

  lemma StepsDistinct(f: seq<Node>)
    requires WellKeyed(f)
    ensures DistinctPaths(ReorderSteps(f))
    ensures forall i :: 0 <= i < |ReorderSteps(f)| ==> ReorderSteps(f)[i].path != [SERVICES]
  {
    var services := LinesAt(f, [SERVICES]);
    if services.Some? {
      ServiceStepsDistinct(f, services.value);
      var rest, all := ServiceSteps(f, services.value), ReorderSteps(f);
      assert all == [RootStep()] + rest;
      forall i, j | 0 <= i < j < |all| ensures all[i].path != all[j].path {
        assert all[j] == rest[j - 1];
        if i > 0 { assert all[i] == rest[i - 1]; }
      }
      forall i | 0 <= i < |all| ensures all[i].path != [SERVICES] {
        if i > 0 { assert all[i] == rest[i - 1]; }
      }
    }
  }

  // -- one pass ------------------------------------------------------------------------

  /** What the file looks like after a pass in which nothing was skipped. */
  predicate Canonical(before: seq<Node>, after: seq<Node>) {
    forall i :: 0 <= i < |ReorderSteps(before)| ==>
      LinesAt(after, ReorderSteps(before)[i].path) == SortedAt(before, ReorderSteps(before)[i])
  }

  /**
   * One pass without a skipped rule leaves the top level, every service and
   * every labels mapping in canonical order together.
   */
  lemma OnePassIsCanonical(lines: seq<Line>, same: Guard)
    requires WellKeyed(Forest(lines)) && Ordered(lines, same).1 == []
    ensures Canonical(Forest(lines), Forest(Ordered(lines, same).0))
  {
    var steps := ReorderSteps(Forest(lines));
    StepsDistinct(Forest(lines));
    hide Forest;
    hide ReorderSteps;
    forall i | 0 <= i < |steps|
      ensures LinesAt(Forest(Ordered(lines, same).0), steps[i].path) == SortedAt(Forest(lines), steps[i])
    {
      AllSorted(lines, steps, same, i);
    }
  }

  // -- a second pass ---------------------------------------------------------------------

  lemma SortedKeepsKind(rank: string -> Rank, keys: seq<Line>)
    ensures IsMapping(Sorted(rank, keys)) == IsMapping(keys)
  {
    if IsMapping(keys) && !IsMerged(keys) {
      StableOrderSorts(Ranks(rank, keys));
      OrderBounds(StableOrder(Ranks(rank, keys)), |keys|);
    }
  }

  /** Mappings stay mappings and everything else stays what it was. */
  lemma KindsKept(lines: seq<Line>, same: Guard, path: seq<string>)
    requires WellKeyed(Forest(lines)) && Ordered(lines, same).1 == []
    ensures MappingAt(Forest(Ordered(lines, same).0), path) == MappingAt(Forest(lines), path)
  {
    var steps := ReorderSteps(Forest(lines));
    StepsDistinct(Forest(lines));
    hide Forest;
    hide ReorderSteps;
    if i :| 0 <= i < |steps| && steps[i].path == path {
      AllSorted(lines, steps, same, i);
      var keys := LinesAt(Forest(lines), path);
      if keys.Some? { SortedKeepsKind(steps[i].rank, keys.value); }
    } else {
      OthersKept(lines, steps, same, path);
    }
  }

  lemma {:induction false} ServiceStepsSame(f: seq<Node>, g: seq<Node>, names: seq<Line>)
    requires forall path :: MappingAt(f, path) == MappingAt(g, path)
    ensures ServiceSteps(f, names) == ServiceSteps(g, names)
  {
    hide MappingAt;
    if names != [] { ServiceStepsSame(f, g, names[1..]); }
  }

  /** A second pass asks for the same steps. */
  lemma StepsSame(lines: seq<Line>, same: Guard)
    requires WellKeyed(Forest(lines)) && Ordered(lines, same).1 == []
    ensures ReorderSteps(Forest(Ordered(lines, same).0)) == ReorderSteps(Forest(lines))
  {
    var f, g := Forest(lines), Forest(Ordered(lines, same).0);
    StepsDistinct(f);
    OthersKept(lines, ReorderSteps(f), same, [SERVICES]);
    forall path ensures MappingAt(f, path) == MappingAt(g, path) { KindsKept(lines, same, path); }
    var services := LinesAt(f, [SERVICES]);
    if services.Some? { ServiceStepsSame(f, g, services.value); }
  }

  /** Ordering an ordered file changes nothing, in any line, and skips no rule. */
  lemma SecondPassIdle(lines: seq<Line>, same: Guard)
    requires WellKeyed(Forest(lines)) && Ordered(lines, same).1 == []
    requires var out := Ordered(lines, same).0; same(out, out)
    ensures Ordered(Ordered(lines, same).0, same) == (Ordered(lines, same).0, [])
  {
    var steps := ReorderSteps(Forest(lines));
    StepsSame(lines, same);
    StepsDistinct(Forest(lines));
    hide Forest;
    hide ReorderSteps;
    AppliedTwice(lines, steps, same, |steps|);
    assert steps[0..] == steps;
  }
}
