/**
 * The canonical key orders of `rules.py` and the stable sort that
 * `reorder_mapping` asks for. A sort key is a `Rank`, compared as Python
 * compares tuples; names are compared by code point.
 */
module KeyOrder {
  import opened Wrappers

  datatype Rank = Rank(group: nat, place: nat, name: string)

  const TOP_LEVEL_KEY_ORDER := ["services", "volumes", "networks", "configs", "secrets"]
  const SERVICE_KEY_ORDER := [
    "image", "container_name", "restart", "depends_on", "env_file", "environment", "command",
    "entrypoint", "ports", "volumes", "networks", "labels", "healthcheck", "deploy"]

  function IndexOf(order: seq<string>, name: string): (n: nat)
    ensures n <= |order|
    ensures n < |order| ==> order[n] == name
    ensures n == |order| <==> name !in order
  {
    if order == [] || order[0] == name then 0 else 1 + IndexOf(order[1..], name)
  }

  /** `key_sort_key(order)`. */
  function KeyRank(order: seq<string>, name: string): Rank {
    var n := IndexOf(order, name);
    if n < |order| then Rank(n, 0, "") else Rank(n, 0, name)
  }

  predicate IsExtension(name: string) { |name| >= 2 && name[0] == 'x' && name[1] == '-' }

  /** `top_level_sort_key`. */
  function TopRank(name: string): Rank {
    var n := IndexOf(TOP_LEVEL_KEY_ORDER, name);
    if name == "name" then Rank(0, 0, "")
    else if IsExtension(name) then Rank(1, 0, "")
    else if n < |TOP_LEVEL_KEY_ORDER| then Rank(2, n, "")
    else Rank(3, 0, name)
  }

  // -- comparing ranks -------------------------------------------------------

  predicate StringLe(a: string, b: string) {
    a == "" || (b != "" && (a[0] < b[0] || (a[0] == b[0] && StringLe(a[1..], b[1..]))))
  }

  predicate RankLe(a: Rank, b: Rank) {
    a.group < b.group
    || (a.group == b.group && (a.place < b.place || (a.place == b.place && StringLe(a.name, b.name))))
  }

  lemma {:induction false} StringLeOrder(a: string, b: string, c: string)
    ensures StringLe(a, b) || StringLe(b, a)
    ensures StringLe(a, b) && StringLe(b, c) ==> StringLe(a, c)
    ensures StringLe(a, b) && StringLe(b, a) ==> a == b
    decreases |a|
  {
    if a != "" {
      StringLeOrder(a[1..], if b == "" then "" else b[1..], if c == "" then "" else c[1..]);
      if b != "" { assert a == [a[0]] + a[1..] && b == [b[0]] + b[1..]; }
    }
  }

  /** Ranks are totally ordered, so equal ranks are the only ties. */
  lemma RankLeOrder(a: Rank, b: Rank, c: Rank)
    ensures RankLe(a, b) || RankLe(b, a)
    ensures RankLe(a, b) && RankLe(b, c) ==> RankLe(a, c)
    ensures RankLe(a, b) && RankLe(b, a) ==> a == b
  {
    StringLeOrder(a.name, b.name, c.name);
  }

  /** Under the service order a listed key comes before every unlisted one, and no two keys tie. */
  lemma KeyRankTies(order: seq<string>, a: string, b: string)
    ensures KeyRank(order, a) == KeyRank(order, b) ==> a == b
    ensures a in order && b !in order ==> RankLe(KeyRank(order, a), KeyRank(order, b))
  {
  }

  /** At the top level only extension fields tie, so only their order is left to the input. */
  lemma TopRankTies(a: string, b: string)
    requires TopRank(a) == TopRank(b)
    ensures a == b || (IsExtension(a) && IsExtension(b))
  {
  }

  /** Names compare at the first code point in which they differ; a name comes before its extensions. */
  lemma {:induction false} StringLeIs(a: string, b: string)
    ensures StringLe(a, b) <==> a <= b || exists k: nat :: DifferAt(a, b, k)
  {
    if a != "" && b != "" {
      StringLeIs(a[1..], b[1..]);
      assert a == [a[0]] + a[1..] && b == [b[0]] + b[1..];
      if a[0] == b[0] {
        if k: nat :| DifferAt(a[1..], b[1..], k) {
          assert a[..k + 1] == [a[0]] + a[1..][..k] && b[..k + 1] == [b[0]] + b[1..][..k];
          assert DifferAt(a, b, k + 1);
        }
        if k: nat :| DifferAt(a, b, k) { DifferLater(a, b, k); }
      } else {
        assert a[0] < b[0] ==> DifferAt(a, b, 0);
      }
    }
  }

  predicate DifferAt(a: string, b: string, k: nat) {
    k < |a| && k < |b| && a[..k] == b[..k] && a[k] < b[k]
  }

  lemma DifferLater(a: string, b: string, k: nat)
    requires DifferAt(a, b, k) && a[0] == b[0]
    ensures k > 0 && DifferAt(a[1..], b[1..], k - 1)
  {
    assert a[1..][..k - 1] == a[..k][1..] && b[1..][..k - 1] == b[..k][1..];
  }

  lemma {:induction false} IndexOfFirst(order: seq<string>, i: nat)
    requires i < |order| && order[i] !in order[..i]
    ensures IndexOf(order, order[i]) == i
  {
    if i > 0 {
      assert order[0] == order[..i][0];
      assert order[..i] == [order[0]] + order[1..][..i - 1];
      IndexOfFirst(order[1..], i - 1);
    }
  }

  /** Of two listed keys the one listed earlier comes first, and unlisted keys come in the order of their names. */
  lemma ListedOrder(order: seq<string>, i: nat, j: nat, a: string, b: string)
    requires i < j < |order| && order[i] !in order[..i] && order[j] !in order[..j]
    ensures !RankLe(KeyRank(order, order[j]), KeyRank(order, order[i]))
    ensures a !in order && b !in order ==> (RankLe(KeyRank(order, a), KeyRank(order, b)) <==> StringLe(a, b))
  {
    IndexOfFirst(order, i);
    IndexOfFirst(order, j);
    assert order[i] == order[..j][i];
  }

  lemma EachBeforeNext(order: seq<string>, i: nat)
    requires forall j, k :: 0 <= j < k < |order| ==> order[j] != order[k]
    requires i + 1 < |order|
    ensures !RankLe(KeyRank(order, order[i + 1]), KeyRank(order, order[i]))
  {
    ListedOrder(order, i, i + 1, order[0], order[0]);
  }

  /** The fourteen keys of a service that have a place of their own, each strictly before the next and before any other key. */
  lemma ServiceKeysInOrder(order: seq<string>, other: string)
    requires order == [
      "image", "container_name", "restart", "depends_on", "env_file", "environment", "command",
      "entrypoint", "ports", "volumes", "networks", "labels", "healthcheck", "deploy"]
    ensures forall i :: 0 <= i < 13 ==> !RankLe(KeyRank(SERVICE_KEY_ORDER, order[i + 1]), KeyRank(SERVICE_KEY_ORDER, order[i]))
    ensures other !in order ==> !RankLe(KeyRank(SERVICE_KEY_ORDER, other), KeyRank(SERVICE_KEY_ORDER, order[13]))
  {
    ServiceKeysDiffer(order);
    hide IndexOf;
    hide StringLe;
    forall i | 0 <= i < 13 ensures !RankLe(KeyRank(order, order[i + 1]), KeyRank(order, order[i])) {
      hide RankLe;
      hide KeyRank;
      EachBeforeNext(order, i);
    }
    if other !in order { LastBeforeOthers(order, other); }
    hide RankLe;
    hide KeyRank;
  }

  lemma LastBeforeOthers(order: seq<string>, other: string)
    requires order != [] && other !in order
    ensures !RankLe(KeyRank(order, other), KeyRank(order, order[|order| - 1]))
  {
    hide StringLe;
  }

  lemma ServiceKeysDiffer(order: seq<string>)
    requires order == [
      "image", "container_name", "restart", "depends_on", "env_file", "environment", "command",
      "entrypoint", "ports", "volumes", "networks", "labels", "healthcheck", "deploy"]
    ensures forall i, j :: 0 <= i < j < |order| ==> order[i] != order[j]
  {
    var starts := "icrdeecepvnlhd";
    var lengths := [5, 14, 7, 10, 8, 11, 7, 10, 5, 7, 8, 6, 11, 6];
    assert forall i :: 0 <= i < |order| ==> |order[i]| == lengths[i] && order[i][0] == starts[i];
  }

  /** A top-level key with no place of its own. */
  predicate Elsewhere(sections: seq<string>, key: string) {
    key != "name" && !("x-" <= key) && key !in sections
  }

  lemma ExtensionRank(x: string)
    requires "x-" <= x
    ensures TopRank(x) == Rank(1, 0, "")
  {
    assert x[0] == 'x' && x[1] == '-';
  }

  lemma SectionRank(sections: seq<string>, i: nat)
    requires sections == ["services", "volumes", "networks", "configs", "secrets"] && i < 5
    ensures TopRank(sections[i]) == Rank(2, i, "")
  {
    IndexOfFirst(sections, i);
    hide IndexOf;
  }

  lemma OtherRank(sections: seq<string>, a: string)
    requires sections == ["services", "volumes", "networks", "configs", "secrets"] && Elsewhere(sections, a)
    ensures TopRank(a) == Rank(3, 0, a)
  {
    hide IndexOf;
  }

  /** At the top level: `name`, the extension fields as they stand, the five sections in turn, and the rest by name. */
  lemma TopKeysInOrder(sections: seq<string>, name: string, x: string, y: string, a: string, b: string)
    requires sections == ["services", "volumes", "networks", "configs", "secrets"]
    requires name == "name" && "x-" <= x && "x-" <= y && Elsewhere(sections, a) && Elsewhere(sections, b)
    ensures !RankLe(TopRank(x), TopRank(name)) && TopRank(x) == TopRank(y) && !RankLe(TopRank(sections[0]), TopRank(x))
    ensures forall i :: 0 <= i < 4 ==> !RankLe(TopRank(sections[i + 1]), TopRank(sections[i]))
    ensures !RankLe(TopRank(a), TopRank(sections[4]))
    ensures RankLe(TopRank(a), TopRank(b)) <==> StringLe(a, b)
  {
    assert TopRank(name) == Rank(0, 0, "") by { hide IndexOf; }
    ExtensionRank(x);
    ExtensionRank(y);
    forall i | 0 <= i < 5 ensures TopRank(sections[i]) == Rank(2, i, "") { SectionRank(sections, i); }
    OtherRank(sections, a);
    OtherRank(sections, b);
    hide TopRank;
    hide Elsewhere;
  }

  // -- the stable sort -----------------------------------------------------

  /** `sorted(range(len(ranks)), key=ranks.__getitem__)`. */
  function StableOrder(ranks: seq<Rank>): (order: seq<nat>)
    ensures |order| == |ranks|
  {
    if ranks == [] then []
    else
      var n := |ranks| - 1;
      Insert(ranks, StableOrder(ranks[..n]), n)
  }

  /** `k` goes before the first index whose rank is strictly greater. */
  function Insert(ranks: seq<Rank>, order: seq<nat>, k: nat): (r: seq<nat>)
    ensures |r| == |order| + 1
  {
    if order == [] then [k]
    else if order[0] < |ranks| && k < |ranks| && !RankLe(ranks[order[0]], ranks[k]) then [k] + order
    else [order[0]] + Insert(ranks, order[1..], k)
  }

  /** Sorted by rank, and ties in their input order. */
  predicate SortedStable(ranks: seq<Rank>, order: seq<nat>) {
    (forall i :: 0 <= i < |order| ==> order[i] < |ranks|)
    && forall i, j :: 0 <= i < j < |order| ==>
         RankLe(ranks[order[i]], ranks[order[j]])
         && (ranks[order[i]] == ranks[order[j]] ==> order[i] < order[j])
  }

  /** Index `i` may stand before index `j` in a sorted, stable order. */
  predicate MayPrecede(ranks: seq<Rank>, i: nat, j: nat)
    requires i < |ranks| && j < |ranks|
  {
    RankLe(ranks[i], ranks[j]) && (ranks[i] == ranks[j] ==> i < j)
  }

  lemma PrependSorted(ranks: seq<Rank>, k: nat, order: seq<nat>)
    requires k < |ranks| && SortedStable(ranks, order)
    requires forall x :: x in order ==> x < |ranks| && MayPrecede(ranks, k, x)
    ensures SortedStable(ranks, [k] + order)
  {
    var r := [k] + order;
    forall i, j | 0 <= i < j < |r|
      ensures r[i] < |ranks| && r[j] < |ranks| && MayPrecede(ranks, r[i], r[j])
    {
      assert r[j] == order[j - 1] && r[j] in order;
      if i > 0 { assert r[i] == order[i - 1]; }
    }
  }

  lemma {:induction false} InsertContents(ranks: seq<Rank>, order: seq<nat>, k: nat)
    ensures forall x :: x in Insert(ranks, order, k) <==> x == k || x in order
    ensures multiset(Insert(ranks, order, k)) == multiset(order) + multiset{k}
    decreases |order|
  {
    if order != [] {
      assert order == [order[0]] + order[1..];
      InsertContents(ranks, order[1..], k);
    }
  }

  lemma {:induction false} InsertSorted(ranks: seq<Rank>, order: seq<nat>, k: nat)
    requires k < |ranks| && SortedStable(ranks, order)
    requires forall x :: x in order ==> x < k
    ensures SortedStable(ranks, Insert(ranks, order, k))
    decreases |order|
  {
    if order == [] {
    } else if !RankLe(ranks[order[0]], ranks[k]) {
      forall x | x in order ensures x < |ranks| && MayPrecede(ranks, k, x) {
        var j :| 0 <= j < |order| && order[j] == x;
        RankLeOrder(ranks[k], ranks[order[0]], ranks[x]);
        RankLeOrder(ranks[order[0]], ranks[x], ranks[k]);
      }
      PrependSorted(ranks, k, order);
    } else {
      assert forall x :: x in order[1..] ==> x in order;
      assert order[0] in order;
      InsertSorted(ranks, order[1..], k);
      InsertContents(ranks, order[1..], k);
      var rest := Insert(ranks, order[1..], k);
      forall x | x in rest ensures x < |ranks| && MayPrecede(ranks, order[0], x) {
        if x != k {
          var i :| 0 <= i < |order[1..]| && order[1..][i] == x;
          assert order[i + 1] == x;
        }
      }
      PrependSorted(ranks, order[0], rest);
    }
  }

  lemma PrefixSorted(ranks: seq<Rank>, n: nat, order: seq<nat>)
    requires n <= |ranks| && SortedStable(ranks[..n], order)
    ensures SortedStable(ranks, order)
  {
    hide RankLe;
    assert forall i :: 0 <= i < |order| ==> ranks[..n][order[i]] == ranks[order[i]];
  }

  /** The sort returns a permutation of the indices, sorted and stable. */
  lemma {:induction false} StableOrderSorts(ranks: seq<Rank>)
    ensures IsOrder(StableOrder(ranks), |ranks|)
    ensures SortedStable(ranks, StableOrder(ranks))
  {
    if ranks != [] {
      var n := |ranks| - 1;
      var before := StableOrder(ranks[..n]);
      StableOrderSorts(ranks[..n]);
      OrderBounds(before, n);
      PrefixSorted(ranks, n, before);
      hide RankLe;
      InsertSorted(ranks, before, n);
      InsertContents(ranks, before, n);
      assert Identity(n + 1) == Identity(n) + [n];
    }
  }

  predicate InOrder(ranks: seq<Rank>) {
    forall i, j :: 0 <= i < j < |ranks| ==> RankLe(ranks[i], ranks[j])
  }

  lemma {:induction false} InsertLast(ranks: seq<Rank>, order: seq<nat>, k: nat)
    requires k < |ranks| && forall i :: 0 <= i < |order| ==> order[i] < |ranks| && RankLe(ranks[order[i]], ranks[k])
    ensures Insert(ranks, order, k) == order + [k]
  {
    if order != [] { InsertLast(ranks, order[1..], k); }
  }

  /** The sort moves nothing exactly when the keys are already in order. */
  lemma {:induction false} SortedStays(ranks: seq<Rank>)
    ensures StableOrder(ranks) == Identity(|ranks|) <==> InOrder(ranks)
  {
    if InOrder(ranks) && ranks != [] {
      var n := |ranks| - 1;
      SortedStays(ranks[..n]);
      InsertLast(ranks, Identity(n), n);
      assert Identity(n) + [n] == Identity(n + 1);
    }
    StableOrderSorts(ranks);
    if StableOrder(ranks) == Identity(|ranks|) {
      var order := StableOrder(ranks);
      forall i, j | 0 <= i < j < |ranks| ensures RankLe(ranks[i], ranks[j]) {
        assert order[i] == i && order[j] == j;
      }
    }
  }
}
