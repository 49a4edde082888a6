/**
 * The abstract protocol behind both approval gates: a latch that one client
 * may take, once. Which client that is, or that nobody is, never changes
 * after the latch has left `Open`.
 */
module Latch {
  datatype Latch = Open | Taken(client: nat) | Shut

  /** One step of any client: nothing happens, or an open latch is taken or shut. */
  predicate Next(a: Latch, b: Latch) { a == b || a.Open? }

  predicate Behaviour(trace: seq<Latch>) {
    forall i :: 0 <= i < |trace| - 1 ==> Next(trace[i], trace[i + 1])
  }

  /** The latch seen at moments 0 to `n` of a run. */
  function TraceOf(n: nat, at: nat -> Latch): (t: seq<Latch>)
    ensures |t| == n + 1 && forall k :: 0 <= k <= n ==> t[k] == at(k)
  {
    seq(n + 1, k requires 0 <= k <= n => at(k))
  }

  /** A run each of whose steps is a step of the latch is a behaviour of it. */
  lemma StepsBehave(n: nat, at: nat -> Latch)
    requires forall k :: 0 <= k < n ==> Next(at(k), at(k + 1))
    ensures Behaviour(TraceOf(n, at))
  {
    hide Next;
    forall k | 0 <= k < n ensures Next(TraceOf(n, at)[k], TraceOf(n, at)[k + 1]) {
      assert Next(at(k), at(k + 1));
    }
  }

  /** Once the latch has left `Open`, it is the same for ever. */
  lemma {:induction false} Settled(trace: seq<Latch>, i: nat, j: nat)
    requires Behaviour(trace) && i <= j < |trace| && !trace[i].Open?
    ensures trace[j] == trace[i]
    decreases j - i
  {
    if i < j { Settled(trace, i, j - 1); }
  }

  /** At most one client ever takes the latch, and a latch that was shut is never taken. */
  lemma TakenOnce(trace: seq<Latch>, i: nat, j: nat)
    requires Behaviour(trace) && i < |trace| && j < |trace| && trace[i].Taken?
    ensures trace[j].Taken? ==> trace[j].client == trace[i].client
    ensures !trace[j].Shut?
  {
    if i <= j { Settled(trace, i, j); } else if !trace[j].Open? { Settled(trace, j, i); }
  }
}
