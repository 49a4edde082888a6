/**
 * What a document says when the order of a mapping's keys carries no meaning
 * and the order of a sequence's items does (sections 3.2.1.1 and 3.2.2.1 of
 * YAML 1.2.2), and that putting keys in canonical order never changes it,
 * guard or no guard.
 */
module DataMeaning {
  import opened Wrappers
  import opened Outline
  import opened OutlinePaths
  import opened ApplyOrder

  /** A node: its own line, the keys below it in no order, and the items below it in theirs. */
  datatype Data = Data(line: Line, entries: multiset<Data>, items: seq<Data>)

  function Entries(f: seq<Node>): multiset<Data> {
    if f == [] then multiset{}
    else
      (if IsKey(f[0].line) then multiset{Data(f[0].line, Entries(f[0].kids), Items(f[0].kids))} else multiset{})
      + Entries(f[1..])
  }

  function Items(f: seq<Node>): seq<Data> {
    if f == [] then []
    else
      (if IsKey(f[0].line) then [] else [Data(f[0].line, Entries(f[0].kids), Items(f[0].kids))])
      + Items(f[1..])
  }

  function DataOf(n: Node): Data { Data(n.line, Entries(n.kids), Items(n.kids)) }

  predicate SameData(f: seq<Node>, g: seq<Node>) {
    Entries(f) == Entries(g) && Items(f) == Items(g)
  }

  predicate AllKeys(f: seq<Node>) {
    forall i :: 0 <= i < |f| ==> IsKey(f[i].line)
  }

  /** A mapping is the multiset of its entries. */
  lemma {:induction false} KeysOnly(f: seq<Node>)
    requires AllKeys(f)
    ensures Entries(f) == multiset(Map(DataOf, f)) && Items(f) == []
  {
    if f != [] {
      KeysOnly(f[1..]);
      assert Map(DataOf, f) == [DataOf(f[0])] + Map(DataOf, f[1..]);
    }
  }

  /** So its keys can stand in any order. */
  lemma PickedSame(f: seq<Node>, order: seq<nat>)
    requires AllKeys(f) && IsOrder(order, |f|)
    ensures SameData(Pick(f, order), f)
  {
    PickPermutes(f, order);
    MapPermuted(DataOf, Pick(f, order), f);
    KeysOnly(f);
    KeysOnly(Pick(f, order));
  }

  /** Replacing the children of one node by others that say the same changes nothing in the document. */
  lemma {:induction false} ReplacedSame(f: seq<Node>, path: seq<string>, kids: seq<Node>)
    requires KidsAt(f, path).Some? && SameData(kids, KidsAt(f, path).value)
    ensures SameData(ReplaceAt(f, path, kids), f)
    decreases |path|, |f|
  {
    if path != [] {
      var g := ReplaceAt(f, path, kids);
      if KeyOf(f[0].line) == path[0] {
        ReplacedSame(f[0].kids, path[1..], kids);
        assert g[1..] == f[1..];
      } else {
        ReplacedSame(f[1..], path, kids);
        assert g[1..] == ReplaceAt(f[1..], path, kids);
      }
    }
  }

  /** One reorder, whatever its sort key, leaves the document saying what it said. */
  lemma StepKeepsData(lines: seq<Line>, step: Step)
    requires ReorderAt(lines, step).Some?
    ensures SameData(Forest(ReorderAt(lines, step).value), Forest(lines))
  {
    var out := ReorderAt(lines, step).value;
    StepSorts(lines, step);
    if out != lines {
      var order :| PermutesBy(lines, step.path, out, order);
      var kids := KidsAt(Forest(lines), step.path).value;
      LocateKids(lines, step.path);
      RowsAreKeys(lines, step.path);
      hide Forest;
      forall i | 0 <= i < |kids| ensures IsKey(kids[i].line) { assert HeadLines(kids)[i] == kids[i].line; }
      PickedSame(kids, order);
      ReplacedSame(Forest(lines), step.path, Pick(kids, order));
    }
  }

  /** All the reorders together leave the document saying what it said, even under a guard that lets everything through. */
  lemma {:induction false} AllStepsKeepData(lines: seq<Line>, steps: seq<Step>, same: Guard)
    ensures SameData(Forest(Applied(lines, steps, same).0), Forest(lines))
    decreases |steps|
  {
    hide Forest;
    hide SameData;
    if steps != [] {
      var reordered := ReorderAt(lines, steps[0]);
      hide ReorderAt;
      if reordered.Some? { StepKeepsData(lines, steps[0]); }
      if reordered.None? || !same(lines, reordered.value) {
        AllStepsKeepData(lines, steps[1..], same);
      } else {
        AllStepsKeepData(reordered.value, steps[1..], same);
        SameDataChains(Forest(Applied(lines, steps, same).0), Forest(reordered.value), Forest(lines));
      }
    } else {
      SameDataSelf(Forest(lines));
    }
  }

  lemma SameDataSelf(f: seq<Node>)
    ensures SameData(f, f)
  {
  }

  lemma SameDataChains(f: seq<Node>, g: seq<Node>, h: seq<Node>)
    requires SameData(f, g) && SameData(g, h)
    ensures SameData(f, h)
  {
  }
}
