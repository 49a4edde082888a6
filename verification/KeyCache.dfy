/**
 * The key cache of `auth/verifier.py`: `_key` serves from the cached key set,
 * fetches a new one when it is too old, and fetches early, at a bounded rate,
 * for a key id it does not hold. Calls are serialized by the lock.
 */
module KeyCache {
  import opened Wrappers

  const MIN_REFETCH_SECONDS := 30.0

  type KeySet = map<string, string>

  datatype Result = Served(key: string) | Unknown | Unavailable

  datatype State = State(keys: KeySet, fetchedAt: Option<real>)

  const INIT := State(map[], None)

  /** One call: the key id, the clock, and what a fetch would return now; `None` when it would fail. */
  datatype Call = Call(kid: string, now: real, jwks: Option<KeySet>)

  function Age(s: State, now: real): real
    requires s.fetchedAt.Some?
  {
    now - s.fetchedAt.value
  }

  /** Whether the call goes out to fetch. */
  predicate Fetches(cache: real, s: State, c: Call) {
    s.fetchedAt.None? || Age(s, c.now) >= cache || (c.kid !in s.keys && Age(s, c.now) >= MIN_REFETCH_SECONDS)
  }

  function Answer(keys: KeySet, kid: string): Result {
    if kid in keys then Served(keys[kid]) else Unknown
  }

  function Next(cache: real, s: State, c: Call): State {
    if Fetches(cache, s, c) && c.jwks.Some? then State(c.jwks.value, Some(c.now)) else s
  }

  class TokenVerifier {
    const cacheSeconds: real
    var keys: KeySet
    var fetchedAt: Option<real>

    constructor (cacheSeconds: real)
      ensures this.cacheSeconds == cacheSeconds && State(keys, fetchedAt) == INIT
    {
      this.cacheSeconds, keys, fetchedAt := cacheSeconds, map[], None;
    }

    /** `_key`: a failed fetch raises and leaves the cache as it was. */
    method KeyFor(c: Call) returns (r: Result)
      modifies this
      ensures State(keys, fetchedAt) == Next(cacheSeconds, old(State(keys, fetchedAt)), c)
      ensures r.Unavailable? <==> Fetches(cacheSeconds, old(State(keys, fetchedAt)), c) && c.jwks.None?
      ensures !r.Unavailable? ==> fetchedAt.Some? && r == Answer(keys, c.kid)
    {
      var stale := fetchedAt.None? || c.now - fetchedAt.value >= cacheSeconds;
      var missing := c.kid !in keys;
      var mayRefetch := fetchedAt.None? || c.now - fetchedAt.value >= MIN_REFETCH_SECONDS;
      if stale || (missing && mayRefetch) {
        if c.jwks.None? {
          return Unavailable;
        }
        keys := c.jwks.value;
        fetchedAt := Some(c.now);
      }
      r := if c.kid in keys then Served(keys[c.kid]) else Unknown;
    }
  }

  // -- sequences of calls ---------------------------------------------------------------

  function After(cache: real, calls: seq<Call>): State
    decreases |calls|
  {
    if calls == [] then INIT else Next(cache, After(cache, calls[..|calls| - 1]), calls[|calls| - 1])
  }

  /** The clock never goes back. */
  predicate Monotone(calls: seq<Call>) {
    forall i, j :: 0 <= i <= j < |calls| ==> calls[i].now <= calls[j].now
  }

  /** Call `i` fetched a key set. */
  predicate Fetched(cache: real, calls: seq<Call>, i: nat)
    requires i < |calls|
  {
    Fetches(cache, After(cache, calls[..i]), calls[i]) && calls[i].jwks.Some?
  }

  lemma AfterOne(cache: real, calls: seq<Call>, i: nat)
    requires i < |calls|
    ensures After(cache, calls[..i + 1]) == Next(cache, After(cache, calls[..i]), calls[i])
  {
    assert calls[..i + 1][..i] == calls[..i];
  }

  /** The cache holds the set of the last call that fetched. */
  lemma {:induction false} HeldSince(cache: real, calls: seq<Call>, i: nat, n: nat)
    requires i < n <= |calls| && Fetched(cache, calls, i)
    requires forall k :: i < k < n ==> !Fetched(cache, calls, k)
    ensures After(cache, calls[..n]) == State(calls[i].jwks.value, Some(calls[i].now))
    decreases n
  {
    AfterOne(cache, calls, n - 1);
    if n > i + 1 {
      assert !Fetched(cache, calls, n - 1);
      HeldSince(cache, calls, i, n - 1);
    }
  }

  /** Whatever the cache holds was fetched by some earlier call, and by none since. */
  lemma {:induction false} HeldFrom(cache: real, calls: seq<Call>, n: nat) returns (i: nat)
    requires n <= |calls| && After(cache, calls[..n]).fetchedAt.Some?
    ensures i < n && Fetched(cache, calls, i) && forall k :: i < k < n ==> !Fetched(cache, calls, k)
    ensures After(cache, calls[..n]) == State(calls[i].jwks.value, Some(calls[i].now))
    decreases n
  {
    assert n > 0 by { assert calls[..0] == []; }
    AfterOne(cache, calls, n - 1);
    if Fetched(cache, calls, n - 1) {
      i := n - 1;
    } else {
      i := HeldFrom(cache, calls, n - 1);
    }
  }

  /** After a fetch, no call even tries to fetch before 30 seconds, or the cache lifetime if that is less, have passed. */
  lemma QuietAfterFetch(cache: real, calls: seq<Call>, i: nat, j: nat)
    requires Monotone(calls) && i < j < |calls| && Fetched(cache, calls, i)
    requires forall k :: i < k < j ==> !Fetched(cache, calls, k)
    requires Fetches(cache, After(cache, calls[..j]), calls[j])
    ensures calls[j].now - calls[i].now >= cache || calls[j].now - calls[i].now >= 30.0
  {
    HeldSince(cache, calls, i, j);
  }

  /** The calls that fetched, in order. */
  predicate FetchRun(cache: real, calls: seq<Call>, at: seq<nat>) {
    (forall x :: 0 <= x < |at| ==> at[x] < |calls| && Fetched(cache, calls, at[x]))
    && forall x :: 0 <= x < |at| - 1 ==>
         at[x] < at[x + 1] && forall k :: at[x] < k < at[x + 1] && k < |calls| ==> !Fetched(cache, calls, k)
  }

  /** Successful fetches are at least that far apart, so `n` of them take at least `n - 1` times as long. */
  lemma {:induction false} FetchRate(cache: real, calls: seq<Call>, at: seq<nat>, x: nat, y: nat, least: real)
    requires Monotone(calls) && FetchRun(cache, calls, at) && x <= y < |at|
    requires least <= cache && least <= 30.0
    ensures calls[at[y]].now - calls[at[x]].now >= (y - x) as real * least
    decreases y - x
  {
    if x < y {
      hide Fetched;
      hide Fetches;
      FetchRate(cache, calls, at, x, y - 1, least);
      QuietAfterFetch(cache, calls, at[y - 1], at[y]);
      hide Monotone;
      hide FetchRun;
      OneMore(calls[at[x]].now, calls[at[y - 1]].now, calls[at[y]].now, y - x, least);
    }
  }

  lemma OneMore(first: real, last: real, next: real, n: nat, least: real)
    requires n > 0 && last - first >= (n - 1) as real * least && next - last >= least
    ensures next - first >= n as real * least
  {
    assert (n - 1) as real == n as real - 1.0;
    assert (n as real - 1.0) * least == n as real * least - least;
  }

  /** What the verifier answers on call `i`. */
  function AnswerAt(cache: real, calls: seq<Call>, i: nat): Result
    requires i < |calls|
  {
    if Fetches(cache, After(cache, calls[..i]), calls[i]) && calls[i].jwks.None? then Unavailable
    else Answer(After(cache, calls[..i + 1]).keys, calls[i].kid)
  }

  /**
   * Every key served is in a set fetched by this call or an earlier one, less
   * than the cache lifetime ago when it was an earlier one, and is the key that
   * the set holds under that id; `unknown` is said of an id that is not in it,
   * and only of a set less than 30 seconds old.
   */
  lemma AnswersAreFresh(cache: real, calls: seq<Call>, i: nat) returns (f: nat)
    requires Monotone(calls) && i < |calls| && !AnswerAt(cache, calls, i).Unavailable?
    ensures f <= i && Fetched(cache, calls, f)
    ensures forall k :: AnswerAt(cache, calls, i) == Served(k) <==>
      calls[i].kid in calls[f].jwks.value && k == calls[f].jwks.value[calls[i].kid]
    ensures AnswerAt(cache, calls, i) == Unknown <==> calls[i].kid !in calls[f].jwks.value
    ensures f < i ==> calls[i].now - calls[f].now < cache
    ensures AnswerAt(cache, calls, i) == Unknown ==> calls[i].now - calls[f].now < 30.0
  {
    AfterOne(cache, calls, i);
    f := HeldFrom(cache, calls, i + 1);
    if f < i {
      HeldSince(cache, calls, f, i);
      assert !Fetched(cache, calls, i);
    }
  }

  /** `unavailable` is said exactly when the call has to fetch and the fetch fails: nothing was ever fetched, or too long ago. */
  lemma UnavailableExactly(cache: real, calls: seq<Call>, i: nat)
    requires i < |calls|
    ensures AnswerAt(cache, calls, i) == Unavailable <==>
      var s := After(cache, calls[..i]);
      calls[i].jwks == None
      && (s.fetchedAt == None
          || calls[i].now - s.fetchedAt.value >= cache
          || (calls[i].kid !in s.keys && calls[i].now - s.fetchedAt.value >= 30.0))
  {
  }

  // -- what the bound does not cover ---------------------------------------------------------

  /** Call `i` goes out to fetch, whether or not that succeeds. */
  predicate Attempted(cache: real, calls: seq<Call>, i: nat)
    requires i < |calls|
  {
    Fetches(cache, After(cache, calls[..i]), calls[i])
  }

  /** Calls that fetch nothing leave the cache as it was. */
  lemma {:induction false} NothingHeld(cache: real, calls: seq<Call>, i: nat, n: nat)
    requires i <= n <= |calls| && forall k :: i <= k < n ==> !Fetched(cache, calls, k)
    ensures After(cache, calls[..n]) == After(cache, calls[..i])
    decreases n
  {
    if i < n {
      assert !Fetched(cache, calls, n - 1);
      AfterOne(cache, calls, n - 1);
      NothingHeld(cache, calls, i, n - 1);
    }
  }

  /** The last of the calls from `i` to `n` that fetched. */
  lemma {:induction false} LastFetched(cache: real, calls: seq<Call>, i: nat, n: nat) returns (f: nat)
    requires i < n <= |calls| && exists k :: i <= k < n && Fetched(cache, calls, k)
    ensures i <= f < n && Fetched(cache, calls, f) && forall k :: f < k < n ==> !Fetched(cache, calls, k)
    decreases n
  {
    f := n - 1;
    if !Fetched(cache, calls, n - 1) { f := LastFetched(cache, calls, i, n - 1); }
  }

  /**
   * The bound is on fetches that succeed, not on requests sent. Take any two
   * calls, of any key ids, less than 30 seconds and the cache lifetime apart, the first of which
   * goes out. The second goes out as well exactly when nothing was fetched
   * from the first on and the cache the first one found is empty, too old, or
   * without the second one's key id.
   */
  lemma AttemptsCloseOnlyAfterFailure(cache: real, calls: seq<Call>, i: nat, j: nat)
    requires Monotone(calls) && i < j < |calls| && Attempted(cache, calls, i)
    requires calls[j].now - calls[i].now < cache && calls[j].now - calls[i].now < 30.0
    ensures var s := After(cache, calls[..i]);
      Attempted(cache, calls, j)
      <==> (forall k :: i <= k < j ==> !Fetched(cache, calls, k))
           && (s.fetchedAt.None? || Age(s, calls[j].now) >= cache || calls[j].kid !in s.keys)
  {
    if k :| i <= k < j && Fetched(cache, calls, k) {
      var f := LastFetched(cache, calls, i, j);
      assert calls[i].now <= calls[f].now;
      if Attempted(cache, calls, j) { QuietAfterFetch(cache, calls, f, j); }
    } else {
      NothingHeld(cache, calls, i, j);
    }
  }

  /** In particular a key id that is made up, or asked for again, goes out every time until a fetch succeeds. */
  lemma MadeUpKeysGoOut(cache: real, calls: seq<Call>, i: nat, j: nat)
    requires Monotone(calls) && i < j < |calls| && Attempted(cache, calls, i)
    requires calls[j].now - calls[i].now < cache && calls[j].now - calls[i].now < 30.0
    requires calls[j].kid == calls[i].kid || calls[j].kid !in After(cache, calls[..i]).keys
    ensures Attempted(cache, calls, j) <==> forall k :: i <= k < j ==> !Fetched(cache, calls, k)
  {
    AttemptsCloseOnlyAfterFailure(cache, calls, i, j);
    var s := After(cache, calls[..i]);
    assert calls[i].now <= calls[j].now;
  }

  /** While no fetch succeeds, every call goes out, however many there are and however close together. */
  lemma OutageIsUnbounded(cache: real, calls: seq<Call>, i: nat)
    requires i < |calls| && forall k :: 0 <= k < |calls| ==> calls[k].jwks.None?
    ensures Attempted(cache, calls, i)
  {
    assert calls[..0] == [];
    NothingHeld(cache, calls, 0, i);
  }

  /**
   * A fetch that fails leaves no trace: after it a call goes out exactly if it
   * would have gone out instead, so at once for the same key id and for any
   * that is not in the cache.
   */
  lemma FailedFetchIsRetried(cache: real, s: State, c: Call, again: Call)
    requires Fetches(cache, s, c) && c.jwks.None? && again.now >= c.now
    ensures Fetches(cache, Next(cache, s, c), again) <==> Fetches(cache, s, again)
    ensures again.kid == c.kid || again.kid !in s.keys ==> Fetches(cache, Next(cache, s, c), again)
  {
  }
}
