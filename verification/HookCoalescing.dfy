/**
 * `_pass_complete` of `discovery/engine.py`: the pass-complete hook runs once
 * at a time, and passes that finish while it runs share one further run. The
 * event loop switches tasks only at an `await`, so the code between two awaits
 * is one step: a call up to the hook's first await, and the hook's return up
 * to the next await or the end.
 */
module HookCoalescing {

  /** What has happened, in order; the code keeps no such log. */
  datatype Event = Requested | Started | Ended(ok: bool)

  datatype State = State(pending: bool, locked: bool, log: seq<Event>)

  const INIT := State(false, false, [])

  /** A pass has finished and asks for the hook. */
  function Request(s: State): State {
    if s.locked then State(true, true, s.log + [Requested])
    else State(false, true, s.log + [Requested, Started])
  }

  /** The hook in progress returns, or raises. */
  function Return(s: State, ok: bool): State {
    if s.pending then State(false, true, s.log + [Ended(ok), Started])
    else State(false, false, s.log + [Ended(ok)])
  }

  class PassHook {
    const installed: bool
    var pending: bool
    var locked: bool
    ghost var log: seq<Event>

    constructor (installed: bool)
      ensures this.installed == installed && !pending && !locked && log == []
    {
      this.installed, pending, locked, log := installed, false, false, [];
    }

    /** `_pass_complete`, up to its first `await`. */
    method PassComplete()
      modifies this
      ensures State(pending, locked, log) == if installed then Request(old(State(pending, locked, log))) else old(State(pending, locked, log))
    {
      if !installed {
        return;
      }
      pending := true;
      log := log + [Requested];
      if locked {
        return;
      }
      locked := true;
      EnterLoop();
    }

    /** The loop's test, and the start of another run when it holds; otherwise the lock is released. */
    method EnterLoop()
      modifies this
      ensures pending == false
      ensures locked == (if old(pending) then old(locked) else false)
      ensures log == if old(pending) then old(log) + [Started] else old(log)
    {
      if pending {
        pending := false;
        log := log + [Started];
      } else {
        locked := false;
      }
    }

    /** From the hook's return, an exception included, to the next `await` or the end. */
    method HookReturned(ok: bool)
      requires locked
      modifies this
      ensures State(pending, locked, log) == Return(old(State(pending, locked, log)), ok)
    {
      log := log + [Ended(ok)];
      EnterLoop();
    }
  }

  // -- reading a log -------------------------------------------------------------------

  /** A request has come in since the last run started. */
  predicate Owed(log: seq<Event>) {
    if log == [] then false
    else
      match log[|log| - 1]
      case Requested => true
      case Started => false
      case Ended(_) => Owed(log[..|log| - 1])
  }

  /** Some request has no run that started after it. */
  ghost predicate UnservedRequest(log: seq<Event>) {
    exists i :: 0 <= i < |log| && log[i] == Requested && forall j :: i < j < |log| ==> log[j] != Started
  }

  lemma {:induction false} OwedMeans(log: seq<Event>)
    ensures Owed(log) <==> UnservedRequest(log)
  {
    if log != [] {
      var n := |log| - 1;
      OwedMeans(log[..n]);
      assert forall j :: 0 <= j < n ==> log[..n][j] == log[j];
      if log[n] == Requested {
      } else if log[n] != Started && Owed(log[..n]) {
        var i :| 0 <= i < n && log[..n][i] == Requested && forall j :: i < j < n ==> log[..n][j] != Started;
        assert forall j :: i < j < |log| ==> log[j] != Started;
        assert log[i] == Requested;
      } else if log[n] != Started {
        forall i | 0 <= i < |log| && log[i] == Requested ensures exists j :: i < j < |log| && log[j] == Started {
          assert log[..n][i] == Requested;
          var j :| i < j < n && log[..n][j] == Started;
          assert log[j] == Started;
        }
      }
    }
  }

  /** Runs started and not yet ended. */
  function InProgress(log: seq<Event>): int {
    if log == [] then 0
    else
      InProgress(log[..|log| - 1])
      + match log[|log| - 1]
        case Requested => 0
        case Started => 1
        case Ended(_) => -1
  }

  // -- every run of the protocol ------------------------------------------------------------

  datatype Step = Ask | HookEnds(ok: bool)

  function Next(s: State, step: Step): State {
    match step
    case Ask => Request(s)
    case HookEnds(ok) => if s.locked then Return(s, ok) else s
  }

  function After(steps: seq<Step>): State
    decreases |steps|
  {
    if steps == [] then INIT else Next(After(steps[..|steps| - 1]), steps[|steps| - 1])
  }

  /** What the log says at one of its positions. */
  predicate EntryOk(log: seq<Event>, i: nat)
    requires i < |log|
  {
    match log[i]
    case Requested => InProgress(log[..i]) in {0, 1} && (InProgress(log[..i]) == 0 ==> i + 1 < |log| && log[i + 1] == Started)
    case Started => InProgress(log[..i]) == 0 && Owed(log[..i])
    case Ended(_) => InProgress(log[..i]) == 1 && (Owed(log[..i]) <==> i + 1 < |log| && log[i + 1] == Started)
  }

  ghost predicate Inv(s: State) {
    (s.pending ==> s.locked)
    && (s.locked <==> InProgress(s.log) == 1) && (!s.locked <==> InProgress(s.log) == 0)
    && (s.pending <==> Owed(s.log))
    && forall i :: 0 <= i < |s.log| ==> EntryOk(s.log, i)
  }

  /** Entries of a log stay right when the log grows, unless the last one still waits for its successor. */
  lemma Grows(log: seq<Event>, more: seq<Event>, i: nat)
    requires i < |log| && EntryOk(log, i) && more != []
    requires i == |log| - 1 && log[i].Ended? ==> more[0] != Started
    ensures EntryOk(log + more, i)
  {
    assert (log + more)[..i] == log[..i];
  }

  lemma Append(log: seq<Event>, e: Event)
    ensures InProgress(log + [e]) == InProgress(log) + (match e case Requested => 0 case Started => 1 case Ended(_) => -1)
    ensures Owed(log + [e]) == match e case Requested => true case Started => false case Ended(_) => Owed(log)
  {
    assert (log + [e])[..|log|] == log;
  }

  lemma NextKeeps(s: State, step: Step)
    requires Inv(s)
    ensures Inv(Next(s, step))
  {
    var t := Next(s, step);
    if t != s {
      var more := t.log[|s.log|..];
      assert t.log == s.log + more;
      var mid := s.log + [more[0]];
      Append(s.log, more[0]);
      if |more| == 2 {
        assert t.log == mid + [more[1]];
        Append(mid, more[1]);
        assert t.log[..|s.log| + 1] == mid;
      } else {
        assert t.log == mid;
      }
      assert t.log[..|s.log|] == s.log;
      forall i | 0 <= i < |t.log| ensures EntryOk(t.log, i) {
        if i < |s.log| {
          Grows(s.log, more, i);
        } else if i == |s.log| + 1 {
          assert t.log[i] == more[1];
        } else {
          assert t.log[i] == more[0];
        }
      }
    }
  }

  lemma {:induction false} AlwaysInv(steps: seq<Step>)
    ensures Inv(After(steps))
    decreases |steps|
  {
    if steps != [] {
      AlwaysInv(steps[..|steps| - 1]);
      NextKeeps(After(steps[..|steps| - 1]), steps[|steps| - 1]);
    }
  }

  // -- main results ----------------------------------------------------------------------------

  /** At every await, at most one run is in progress, the lock says which, and a pending request implies the lock is held. */
  lemma OneRunAtATime(steps: seq<Step>)
    ensures var s := After(steps);
      InProgress(s.log) == (if s.locked then 1 else 0) && (s.pending ==> s.locked)
      && (s.pending <==> UnservedRequest(s.log))
  {
    AlwaysInv(steps);
    OwedMeans(After(steps).log);
  }

  /** Every request is followed by a run that starts after it, or is pending under a run in progress. */
  lemma RequestServed(steps: seq<Step>, i: nat)
    requires i < |After(steps).log| && After(steps).log[i] == Requested
    ensures var s := After(steps);
      (exists j :: i < j < |s.log| && s.log[j] == Started) || (s.pending && s.locked)
    ensures var s := After(steps); !s.locked ==> exists j :: i < j < |s.log| && s.log[j] == Started
  {
    AlwaysInv(steps);
    OwedMeans(After(steps).log);
  }

  /**
   * When a run ends, a further run starts at once if a request came in while it
   * ran, and none starts if none did: any number of requests share one run.
   */
  lemma OneFurtherRun(steps: seq<Step>, start: nat, end: nat)
    requires var log := After(steps).log;
      start < end < |log| && log[start] == Started && log[end].Ended? && forall j :: start < j < end ==> log[j] == Requested
    ensures var log := After(steps).log;
      start + 1 < end <==> end + 1 < |log| && log[end + 1] == Started
  {
    AlwaysInv(steps);
    var log := After(steps).log;
    assert EntryOk(log, end);
    var run := log[..end];
    assert run[end - 1] == if start + 1 < end then Requested else Started;
  }

  /** Between the start of a run and its end there is nothing but requests, and no run starts unasked. */
  lemma {:induction false} RunsAreApart(steps: seq<Step>, a: nat, b: nat)
    requires var log := After(steps).log; a < b < |log| && log[a] == Started && log[b] == Started
    ensures var log := After(steps).log;
      (exists e :: a < e < b && log[e].Ended?) && (exists q :: a < q < b && log[q] == Requested)
  {
    AlwaysInv(steps);
    var log := After(steps).log;
    assert EntryOk(log, a) && EntryOk(log, b);
    OwedMeans(log[..b]);
    var q :| 0 <= q < b && log[..b][q] == Requested && forall j :: q < j < b ==> log[..b][j] != Started;
    assert log[q] == Requested;
    assert log[..b][a] == Started;
    assert q > a;
    if forall e :: a < e < b ==> !log[e].Ended? {
      StillRunning(log, a, b);
    }
  }

  lemma {:induction false} StillRunning(log: seq<Event>, a: nat, b: nat)
    requires a < b <= |log| && log[a] == Started && InProgress(log[..a]) == 0
    requires forall e :: a < e < b ==> !log[e].Ended?
    ensures InProgress(log[..b]) >= 1
    decreases b
  {
    assert log[..b][..b - 1] == log[..b - 1];
    if b > a + 1 { StillRunning(log, a, b - 1); }
  }
}
