/**
 * Whole runs of the proposal engine, one operation after another, together
 * with the changes of services that the retry rule looks at.
 */
module ProposalHistory {
  import opened Wrappers
  import opened Proposals

  /** The findings for which the engine keeps at most one proposal open. */
  predicate Deduplicated(f: Finding) { f.AuthConflict? || f.ImageUpdate? || f.Vulnerability? }

  datatype Change = Change(service: nat, at: nat)

  /** The proposals, the change events of services so far, and the clock. */
  datatype State = State(configured: bool, rows: seq<Proposal>, changes: seq<Change>, clock: nat)

  datatype Op =
    | Wait(seconds: nat)
    | ServiceChanged(service: nat)
    | Propose(service: nat, finding: Finding, world: World)
    | NoFix(service: nat, reason: string, world: World)
    | Sync(pr: nat -> PrState)
    | Sweep(conflicts: Conflicts)
    | Auto(service: nat, conflict: bool, stale: bool, world: World)
    | Cancel(at: nat)
    | Other(row: Proposal)   // the normalizer and the adoption flow keep their own proposals

  /** The latest change event of a service. */
  function LatestChange(changes: seq<Change>, service: nat): (r: Option<nat>)
    ensures r.Some? ==> exists i :: 0 <= i < |changes| && changes[i] == Change(service, r.value)
    ensures forall i :: 0 <= i < |changes| && changes[i].service == service ==> r.Some? && changes[i].at <= r.value
  {
    if changes == [] then None
    else
      var n := |changes| - 1;
      var r := LatestChange(changes[..n], service);
      assert r.Some? ==> exists i :: 0 <= i < n && changes[i] == changes[..n][i] && changes[..n][i] == Change(service, r.value);
      if changes[n].service == service && (r.None? || r.value < changes[n].at) then Some(changes[n].at) else r
  }

  function ViewOf(s: State, service: nat, conflict: bool, stale: bool): View {
    View(service, conflict, stale, LatestChange(s.changes, service))
  }

  function Next(s: State, op: Op): State {
    match op
    case Wait(seconds) => s.(clock := s.clock + seconds)
    case ServiceChanged(service) => s.(changes := s.changes + [Change(service, s.clock)])
    case Propose(service, finding, w) =>
      if s.configured && Deduplicated(finding) then
        s.(rows := Proposed(true, s.rows, service, finding, false, w, s.clock))
      else s
    case NoFix(service, reason, w) =>
      if s.configured then s.(rows := NoFixRecorded(true, s.rows, service, reason, w, s.clock)) else s
    case Sync(pr) => if s.configured then s.(rows := Synced(true, pr, s.clock, s.rows)) else s
    case Sweep(conflicts) => s.(rows := Swept(conflicts, s.clock, s.rows))
    case Auto(service, conflict, stale, w) =>
      s.(rows := AutoProposed(s.configured, s.rows, ViewOf(s, service, conflict, stale), w, s.clock))
    case Cancel(row) =>
      if row < |s.rows| then s.(rows := s.rows[row := s.rows[row].(status := Cancelled)]) else s
    case Other(row) =>
      if !Deduplicated(row.finding) then s.(rows := s.rows + [row.(createdAt := s.clock, auto := false)]) else s
  }

  function Start(configured: bool): State { State(configured, [], [], 0) }

  function After(configured: bool, ops: seq<Op>): State
    decreases |ops|
  {
    if ops == [] then Start(configured) else Next(After(configured, ops[..|ops| - 1]), ops[|ops| - 1])
  }

  /** The engine does what the run says, one call at a time; the last kind of row is not its own. */
  method Perform(engine: ProposalEngine, s: State, op: Op)
    requires engine.configured == s.configured && engine.rows == s.rows && !op.Other?
    modifies engine
    ensures engine.rows == Next(s, op).rows
  {
    match op
    case Wait(_) =>
    case ServiceChanged(_) =>
    case Propose(service, finding, w) =>
      if engine.configured && Deduplicated(finding) {
        var _ := engine.OpenProposal(service, finding, false, w, s.clock);
      }
    case NoFix(service, reason, w) => var _ := engine.CreateForVulnerability(service, false, reason, w, s.clock);
    case Sync(pr) => engine.SyncPrStates(pr, s.clock);
    case Sweep(conflicts) => engine.SweepVerifications(conflicts, s.clock);
    case Auto(service, conflict, stale, w) =>
      if engine.configured {
        var turns := [Turn(ViewOf(s, service, conflict, stale), w, s.clock)];
        assert turns[1..] == [];
        engine.AutoCreate(turns);
      }
    case Cancel(i) => engine.Cancel(i);
  }

  // -- what every operation does to a row that is there ------------------------------------

  /** The parts of a proposal that nothing rewrites, and the statuses that nothing undoes. */
  predicate Ages(p: Proposal, q: Proposal) {
    q == p.(status := q.status, resolvedAt := q.resolvedAt)
    && (!p.status.Open? ==> q.status == p.status || q.status.Cancelled?)
    && (q.status.Open? || q.status.Rejected? ==> q.status == p.status)
    && (!p.status.Open? || q.status.Open? ==> q.resolvedAt == p.resolvedAt)
    && (q.status != p.status && !q.status.Cancelled? ==> q.resolvedAt.Some?)
  }

  predicate RowsAge(before: seq<Proposal>, after: seq<Proposal>) {
    |before| <= |after| && forall i :: 0 <= i < |before| ==> Ages(before[i], after[i])
  }

  lemma ClearedAges(configured: bool, rows: seq<Proposal>, service: nat, finding: Finding, w: World, now: nat)
    requires Cleared(configured, rows, service, finding, w, now).Some?
    ensures var t := Cleared(configured, rows, service, finding, w, now).value; |t| == |rows| && RowsAge(rows, t)
  {
  }

  lemma NextAges(s: State, op: Op)
    ensures RowsAge(s.rows, Next(s, op).rows)
    ensures |Next(s, op).rows| <= |s.rows| + 1
  {
    match op
    case Propose(service, finding, w) =>
      if Cleared(true, s.rows, service, finding, w, s.clock).Some? { ClearedAges(true, s.rows, service, finding, w, s.clock); }
    case NoFix(service, reason, w) =>
      if Cleared(true, s.rows, service, Vulnerability, w, s.clock).Some? { ClearedAges(true, s.rows, service, Vulnerability, w, s.clock); }
    case Auto(service, conflict, stale, w) =>
      if Cleared(s.configured, s.rows, service, AuthConflict, w, s.clock).Some? {
        ClearedAges(s.configured, s.rows, service, AuthConflict, w, s.clock);
      }
    case Wait(_) =>
    case ServiceChanged(_) =>
    case Sync(_) =>
    case Sweep(_) =>
    case Cancel(_) =>
    case Other(_) =>
  }

  // -- at most one open proposal ---------------------------------------------------------------

  ghost predicate OneOpen(rows: seq<Proposal>) {
    forall i, j :: 0 <= i < j < |rows| && rows[i].status.Open? && rows[j].status.Open? && Deduplicated(rows[i].finding) ==>
      !(rows[i].service == rows[j].service && rows[i].finding == rows[j].finding)
  }

  lemma AgedOneOpen(before: seq<Proposal>, after: seq<Proposal>)
    requires OneOpen(before) && RowsAge(before, after) && |after| == |before|
    ensures OneOpen(after)
  {
    forall i, j | 0 <= i < j < |after| && after[i].status.Open? && after[j].status.Open? && Deduplicated(after[i].finding)
      ensures !(after[i].service == after[j].service && after[i].finding == after[j].finding)
    {
      assert Ages(before[i], after[i]) && Ages(before[j], after[j]);
    }
  }

  /** With one open proposal at most, retiring it clears the way. */
  lemma ClearedIsClear(configured: bool, rows: seq<Proposal>, service: nat, finding: Finding, w: World, now: nat)
    requires OneOpen(rows) && Deduplicated(finding) && Cleared(configured, rows, service, finding, w, now).Some?
    ensures var t := Cleared(configured, rows, service, finding, w, now).value;
      OneOpen(t) && |t| == |rows| && forall i :: 0 <= i < |t| ==> !IsOpen(t[i], service, finding)
  {
    ClearedAges(configured, rows, service, finding, w, now);
    var t := Cleared(configured, rows, service, finding, w, now).value;
    AgedOneOpen(rows, t);
  }

  lemma ProposedOneOpen(configured: bool, rows: seq<Proposal>, service: nat, finding: Finding, auto: bool, w: World, now: nat)
    requires OneOpen(rows) && Deduplicated(finding)
    ensures OneOpen(Proposed(configured, rows, service, finding, auto, w, now))
  {
    var t := Cleared(configured, rows, service, finding, w, now);
    if t.Some? { ClearedIsClear(configured, rows, service, finding, w, now); }
  }

  lemma NextOneOpen(s: State, op: Op)
    requires OneOpen(s.rows)
    ensures OneOpen(Next(s, op).rows)
  {
    NextAges(s, op);
    match op
    case Propose(service, finding, w) =>
      if Deduplicated(finding) { ProposedOneOpen(true, s.rows, service, finding, false, w, s.clock); }
    case NoFix(service, reason, w) =>
      if Cleared(true, s.rows, service, Vulnerability, w, s.clock).Some? { ClearedIsClear(true, s.rows, service, Vulnerability, w, s.clock); }
    case Auto(service, conflict, stale, w) =>
      ProposedOneOpen(s.configured, s.rows, service, AuthConflict, true, w, s.clock);
    case Other(row) =>
    case Wait(_) =>
    case ServiceChanged(_) =>
    case Sync(_) => AgedOneOpen(s.rows, Next(s, op).rows);
    case Sweep(_) => AgedOneOpen(s.rows, Next(s, op).rows);
    case Cancel(_) => AgedOneOpen(s.rows, Next(s, op).rows);
  }

  /** In any run, at most one proposal is open per service and finding. */
  lemma {:induction false} AtMostOneOpen(configured: bool, ops: seq<Op>)
    ensures OneOpen(After(configured, ops).rows)
    decreases |ops|
  {
    if ops != [] {
      AtMostOneOpen(configured, ops[..|ops| - 1]);
      NextOneOpen(After(configured, ops[..|ops| - 1]), ops[|ops| - 1]);
    }
  }

  /** In any run, a proposal that is no longer open never opens again. */
  lemma {:induction false} NeverReopens(configured: bool, ops: seq<Op>, n: nat, i: nat)
    requires n <= |ops| && i < |After(configured, ops[..n]).rows|
    ensures i < |After(configured, ops).rows|
    ensures Ages(After(configured, ops[..n]).rows[i], After(configured, ops).rows[i])
    decreases |ops| - n
  {
    if n == |ops| {
      assert ops[..n] == ops;
    } else {
      var m := |ops| - 1;
      assert ops[..m][..n] == ops[..n];
      NeverReopens(configured, ops[..m], n, i);
      NextAges(After(configured, ops[..m]), ops[m]);
    }
  }

  // -- how an auth-conflict proposal ends ---------------------------------------------------------

  /** The pull-request states an operation can see. */
  predicate SaysClosed(op: Op, number: nat) {
    match op
    case Propose(_, _, w) => w.pr(number) == PrClosed
    case Auto(_, _, _, w) => w.pr(number) == PrClosed
    case Sync(pr) => pr(number) == PrClosed
    case _ => false
  }

  /**
   * An auth-conflict proposal leaves open only because a sweep saw the conflict
   * cleared, because it was cancelled, or because its pull request was closed
   * unmerged: merging it does not close it.
   */
  lemma ConflictEnds(s: State, op: Op, i: nat)
    requires i < |s.rows| && s.rows[i].finding.AuthConflict? && s.rows[i].status.Open?
    requires !Next(s, op).rows[i].status.Open?
    ensures
      || (op.Sweep? && s.rows[i].service.Some? && op.conflicts(s.rows[i].service.value) == Some(false)
          && Next(s, op).rows[i].status == Verified)
      || (op == Cancel(i) && Next(s, op).rows[i].status == Cancelled)
      || (s.rows[i].pr.Some? && SaysClosed(op, s.rows[i].pr.value) && Next(s, op).rows[i].status == Cancelled)
  {
    NextAges(s, op);
  }

  // -- retries ------------------------------------------------------------------------------------------

  /** A rejection that the scheduler's hook asked for. */
  predicate AutoRejection(p: Proposal, service: nat) {
    Is(p, service, AuthConflict) && p.auto && p.reason.Some?
  }

  /** Nothing happened to a service between two of its proposals: no other proposal, and no change event after the first. */
  ghost predicate NothingBetween(s: State, service: nat, p: nat, q: nat)
    requires p < q < |s.rows|
  {
    (forall r :: 0 <= r < |s.rows| && r != p && r != q && Is(s.rows[r], service, AuthConflict) ==>
       !(s.rows[p].createdAt <= s.rows[r].createdAt <= s.rows[q].createdAt))
    && forall k :: 0 <= k < |s.changes| && s.changes[k].service == service ==>
       !(s.rows[p].createdAt < s.changes[k].at <= s.rows[q].createdAt)
  }

  ghost predicate Spaced(s: State) {
    forall service, p, q ::
      (0 <= p < q < |s.rows| && AutoRejection(s.rows[p], service) && AutoRejection(s.rows[q], service)
       && NothingBetween(s, service, p, q))
      ==> s.rows[q].createdAt as int - s.rows[p].createdAt >= DAY
  }

  /** Times do not run ahead of the clock, and a rejected patch stays rejected unless it is cancelled. */
  ghost predicate Timely(s: State) {
    (forall i :: 0 <= i < |s.rows| ==> s.rows[i].createdAt <= s.clock)
    && (forall i, j :: 0 <= i <= j < |s.rows| ==> s.rows[i].createdAt <= s.rows[j].createdAt)
    && (forall k :: 0 <= k < |s.changes| ==> s.changes[k].at <= s.clock)
    && forall i :: 0 <= i < |s.rows| && s.rows[i].auto && s.rows[i].reason.Some? ==>
         s.rows[i].status.Rejected? || s.rows[i].status.Cancelled?
  }

  /** What an operation adds it dates by the clock, which does not go back. */
  lemma NextDates(s: State, op: Op)
    ensures var t := Next(s, op);
      && s.clock <= t.clock && s.changes <= t.changes
      && (forall k :: |s.changes| <= k < |t.changes| ==> t.changes[k].at == s.clock)
      && (forall i :: |s.rows| <= i < |t.rows| ==>
            t.rows[i].createdAt == s.clock && (t.rows[i].auto && t.rows[i].reason.Some? ==> t.rows[i].status.Rejected?))
  {
  }

  lemma NextTimely(s: State, op: Op)
    requires Timely(s)
    ensures Timely(Next(s, op))
  {
    NextAges(s, op);
    NextDates(s, op);
    hide Next;
    var t := Next(s, op);
    forall i | 0 <= i < |s.rows| ensures t.rows[i].createdAt == s.rows[i].createdAt { assert Ages(s.rows[i], t.rows[i]); }
    forall i | 0 <= i < |s.rows| && t.rows[i].auto && t.rows[i].reason.Some?
      ensures t.rows[i].status.Rejected? || t.rows[i].status.Cancelled?
    {
      assert Ages(s.rows[i], t.rows[i]);
    }
    assert forall k :: 0 <= k < |s.changes| ==> t.changes[k] == s.changes[k];
  }

  /** Earlier pairs stay spaced: later rows and changes only narrow what lies between. */
  lemma OldPairSpaced(s: State, t: State, service: nat, p: nat, q: nat)
    requires Spaced(s) && RowsAge(s.rows, t.rows) && s.changes <= t.changes
    requires p < q < |s.rows| && AutoRejection(t.rows[p], service) && AutoRejection(t.rows[q], service)
    requires NothingBetween(t, service, p, q)
    ensures t.rows[q].createdAt as int - t.rows[p].createdAt >= DAY
  {
    assert Ages(s.rows[p], t.rows[p]) && Ages(s.rows[q], t.rows[q]);
    forall r | 0 <= r < |s.rows| && r != p && r != q && Is(s.rows[r], service, AuthConflict)
      ensures !(s.rows[p].createdAt <= s.rows[r].createdAt <= s.rows[q].createdAt)
    {
      assert Ages(s.rows[r], t.rows[r]);
    }
    assert NothingBetween(s, service, p, q);
  }

  /** A new automatic rejection comes a day after the previous one, or after something has happened. */
  lemma NewPairSpaced(s: State, op: Op, service: nat, p: nat)
    requires Timely(s) && p < |s.rows| && |Next(s, op).rows| == |s.rows| + 1
    requires var t := Next(s, op); var q := |s.rows|;
      AutoRejection(t.rows[p], service) && AutoRejection(t.rows[q], service) && NothingBetween(t, service, p, q)
    ensures Next(s, op).rows[|s.rows|].createdAt as int - Next(s, op).rows[p].createdAt >= DAY
  {
    NextAges(s, op);
    var t, q := Next(s, op), |s.rows|;
    assert Ages(s.rows[p], t.rows[p]);
    assert op.Auto? && op.service == service;
    var v := ViewOf(s, service, op.conflict, op.stale);
    assert ShouldPropose(s.rows, v, s.clock);
    var latest := Latest(s.rows, service, AuthConflict);
    assert latest.Some?;
    var l := latest.value;
    assert l == p by {
      assert Ages(s.rows[l], t.rows[l]);
      assert s.rows[p].createdAt <= s.rows[l].createdAt <= s.clock;
    }
    assert WorthRetrying(v, s.rows[p], s.clock);
  }

  lemma NextSpaced(s: State, op: Op)
    requires Timely(s) && Spaced(s)
    ensures Spaced(Next(s, op))
  {
    NextAges(s, op);
    var t := Next(s, op);
    forall service, p, q | 0 <= p < q < |t.rows| && AutoRejection(t.rows[p], service) && AutoRejection(t.rows[q], service)
      && NothingBetween(t, service, p, q)
      ensures t.rows[q].createdAt as int - t.rows[p].createdAt >= DAY
    {
      if q < |s.rows| { OldPairSpaced(s, t, service, p, q); } else { NewPairSpaced(s, op, service, p); }
    }
  }

  lemma {:induction false} AlwaysSpaced(configured: bool, ops: seq<Op>)
    ensures Timely(After(configured, ops)) && Spaced(After(configured, ops))
    decreases |ops|
  {
    if ops != [] {
      AlwaysSpaced(configured, ops[..|ops| - 1]);
      NextTimely(After(configured, ops[..|ops| - 1]), ops[|ops| - 1]);
      NextSpaced(After(configured, ops[..|ops| - 1]), ops[|ops| - 1]);
    }
  }

  /**
   * In any run, two automatic rejections for one service with nothing between
   * them are at least a day apart.
   */
  lemma RetriesAreADayApart(configured: bool, ops: seq<Op>, service: nat, p: nat, q: nat)
    requires var s := After(configured, ops);
      p < q < |s.rows| && AutoRejection(s.rows[p], service) && AutoRejection(s.rows[q], service)
      && NothingBetween(s, service, p, q)
    ensures var s := After(configured, ops); s.rows[p].createdAt + DAY <= s.rows[q].createdAt
  {
    AlwaysSpaced(configured, ops);
  }
}
