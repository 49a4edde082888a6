/** The optional value that stands for Python's `None`, and facts about permuted sequences. */
module Wrappers {
  datatype Option<+T> = None | Some(value: T)

  /** `[f(x) for x in s]`. */
  function Map<A, B>(f: A -> B, s: seq<A>): (r: seq<B>)
    ensures |r| == |s|
    ensures forall i :: 0 <= i < |s| ==> r[i] == f(s[i])
  {
    seq(|s|, i requires 0 <= i < |s| => f(s[i]))
  }

  /** Mapping commutes with permuting. */
  lemma {:induction false} MapPermuted<A, B>(f: A -> B, a: seq<A>, b: seq<A>)
    requires multiset(a) == multiset(b)
    ensures multiset(Map(f, a)) == multiset(Map(f, b))
  {
    if a == [] {
      assert |multiset(b)| == 0;
    } else {
      var k := HeadInPermutation(a, b);
      MapPermuted(f, a[1..], Without(b, k));
      var x, y := Map(f, b[..k]), Map(f, b[k + 1..]);
      assert Map(f, Without(b, k)) == x + y;
      assert Map(f, b) == x + [f(b[k])] + y;
      assert Map(f, a) == [f(a[0])] + Map(f, a[1..]);
    }
  }

  /** `b` without the element at `k`. */
  function Without<T>(b: seq<T>, k: nat): (r: seq<T>)
    requires k < |b|
    ensures |r| == |b| - 1
  {
    b[..k] + b[k + 1..]
  }

  /** The head of a sequence stands somewhere in each of its permutations, and the rests are permutations again. */
  lemma HeadInPermutation<T>(a: seq<T>, b: seq<T>) returns (k: nat)
    requires a != [] && multiset(a) == multiset(b)
    ensures k < |b| && b[k] == a[0]
    ensures multiset(a[1..]) == multiset(Without(b, k))
  {
    WithoutIs(a, 0);
    assert Without(a, 0) == a[1..];
    assert a[0] in multiset(b);
    k :| 0 <= k < |b| && b[k] == a[0];
    WithoutIs(b, k);
    hide Without;
  }

  lemma WithoutIs<T>(b: seq<T>, k: nat)
    requires k < |b|
    ensures multiset(Without(b, k)) == multiset(b) - multiset{b[k]}
  {
    var x, y := b[..k], b[k + 1..];
    assert b == x + [b[k]] + y;
    assert multiset(x + [b[k]] + y) == multiset(x) + multiset{b[k]} + multiset(y);
  }

  function Identity(n: nat): (r: seq<nat>)
    ensures |r| == n && forall i :: 0 <= i < n ==> r[i] == i
  {
    seq(n, i requires 0 <= i < n => i)
  }

  /** `order` lists each of `0 .. n - 1` once. */
  predicate IsOrder(order: seq<nat>, n: nat) {
    multiset(order) == multiset(Identity(n))
  }

  lemma OrderBounds(order: seq<nat>, n: nat)
    requires IsOrder(order, n)
    ensures |order| == n && forall i :: 0 <= i < n ==> order[i] < n
    ensures forall x :: x in order <==> 0 <= x < n
  {
    assert |order| == |multiset(order)| == |multiset(Identity(n))| == n;
    forall x ensures x in order <==> 0 <= x < n {
      assert x in order <==> x in multiset(order);
      assert x in Identity(n) <==> x in multiset(Identity(n));
      if 0 <= x < n { assert Identity(n)[x] == x; }
    }
    assert forall i :: 0 <= i < n ==> order[i] in order;
  }

  /** `[s[i] for i in order]`. */
  function Pick<T>(s: seq<T>, order: seq<nat>): (r: seq<T>)
    requires IsOrder(order, |s|)
    ensures |r| == |s| == |order|
    ensures forall i :: 0 <= i < |s| ==> order[i] < |s| && r[i] == s[order[i]]
  {
    OrderBounds(order, |s|);
    seq(|s|, i requires 0 <= i < |s| => s[order[i]])
  }

  lemma PickPermutes<T>(s: seq<T>, order: seq<nat>)
    requires IsOrder(order, |s|)
    ensures multiset(Pick(s, order)) == multiset(s)
  {
    if s != [] {
      var at := (i: nat) => if i < |s| then s[i] else s[0];
      MapPermuted(at, order, Identity(|s|));
      OrderBounds(order, |s|);
      assert Map(at, order) == Pick(s, order);
      assert Map(at, Identity(|s|)) == s;
    } else {
      assert Pick(s, order) == s;
    }
  }

  lemma PickIdentity<T>(s: seq<T>)
    ensures Pick(s, Identity(|s|)) == s
  {
  }
}
