/**
 * The proposal engine (`proposal/engine.py`, `store.py`, `lifecycle.py`):
 * one pull request per finding, retired when it finishes, verified when the
 * conflict clears, and retried at a bounded rate after a rejection. What Git
 * and the patch generator answer is given to each operation as a `World`.
 */
module Proposals {
  import opened Wrappers

  datatype Finding = AuthConflict | Normalization | LegacyAdoption | ImageUpdate | Vulnerability
  datatype Status = Open | Merged | Cancelled | Snoozed | Verified | Rejected

  /** `auto` says that the scheduler's hook asked for it; `reason` is set when a patch is rejected. */
  datatype Proposal = Proposal(
    service: Option<nat>,
    finding: Finding,
    pr: Option<nat>,
    status: Status,
    reason: Option<string>,
    auto: bool,
    createdAt: nat,
    resolvedAt: Option<nat>)

  /** The hosting side's state of a pull request; `Unreadable` when it cannot be read. */
  datatype PrState = PrOpen | PrMerged | PrClosed | Unreadable

  /** `result.ok`, or why the patch was rejected. */
  datatype Generated = Patch | NoPatch(reason: string)

  /** What the outside answers while one proposal is made; `prNumber` is the new PR's number, `None` when Git fails. */
  datatype World = World(
    pr: nat -> PrState,
    target: Option<string>,
    readable: bool,
    generated: Generated,
    dryRun: bool,
    prNumber: Option<nat>)

  datatype Result = Skipped | Failed | WasRejected | DryRun | Opened

  const DAY := 86400

  // -- retiring -----------------------------------------------------------------------

  /** `retire_if_finished`: the status a proposal's pull request gives it, if that is final. */
  function Retirement(configured: bool, pr: nat -> PrState, p: Proposal): Option<Status> {
    if !configured || p.pr.None? || p.pr.value == 0 then None
    else
      match pr(p.pr.value)
      case PrClosed => Some(Cancelled)
      case PrMerged => if p.finding.AuthConflict? then None else Some(Merged)
      case _ => None
  }

  function RetiredRow(configured: bool, pr: nat -> PrState, now: nat, p: Proposal): Proposal {
    var status := Retirement(configured, pr, p);
    if status.Some? then p.(status := status.value, resolvedAt := Some(now)) else p
  }

  function Synced(configured: bool, pr: nat -> PrState, now: nat, rows: seq<Proposal>): seq<Proposal> {
    Map((p: Proposal) => if p.status.Open? then RetiredRow(configured, pr, now, p) else p, rows)
  }

  /** `find_open`: the first open proposal for a service and finding. */
  function FindOpen(rows: seq<Proposal>, service: nat, finding: Finding): (r: Option<nat>)
    ensures r.Some? ==> r.value < |rows| && IsOpen(rows[r.value], service, finding)
    ensures r.None? ==> forall i :: 0 <= i < |rows| ==> !IsOpen(rows[i], service, finding)
  {
    if rows == [] then None
    else if IsOpen(rows[0], service, finding) then Some(0)
    else
      var r := FindOpen(rows[1..], service, finding);
      if r.Some? then Some(r.value + 1) else None
  }

  predicate Is(p: Proposal, service: nat, finding: Finding) {
    p.service == Some(service) && p.finding == finding
  }

  predicate IsOpen(p: Proposal, service: nat, finding: Finding) {
    Is(p, service, finding) && p.status.Open?
  }

  /** `latest`: a most recent proposal for a service and finding, in any status. */
  function Latest(rows: seq<Proposal>, service: nat, finding: Finding): (r: Option<nat>)
    ensures r.Some? ==> r.value < |rows| && Is(rows[r.value], service, finding)
    ensures r.Some? ==>
      forall i :: 0 <= i < |rows| && Is(rows[i], service, finding) ==> rows[i].createdAt <= rows[r.value].createdAt
    ensures r.None? ==> forall i :: 0 <= i < |rows| ==> !Is(rows[i], service, finding)
  {
    if rows == [] then None
    else
      var n := |rows| - 1;
      var r := Latest(rows[..n], service, finding);
      if Is(rows[n], service, finding) && (r.None? || rows[r.value].createdAt < rows[n].createdAt) then Some(n) else r
  }

  // -- making a proposal -----------------------------------------------------------------

  /** The rows after the open proposal for a finding has been asked after; `None` while it still blocks a new one. */
  function Cleared(configured: bool, rows: seq<Proposal>, service: nat, finding: Finding, w: World, now: nat): Option<seq<Proposal>> {
    var existing := FindOpen(rows, service, finding);
    if existing.None? then Some(rows)
    else if Retirement(configured, w.pr, rows[existing.value]).None? then None
    else Some(rows[existing.value := RetiredRow(configured, w.pr, now, rows[existing.value])])
  }

  function NewRow(service: nat, finding: Finding, auto: bool, w: World, now: nat): Option<Proposal> {
    if w.target.None? || !w.readable then None
    else if w.generated.NoPatch? then
      Some(Proposal(Some(service), finding, None, Rejected, Some(w.generated.reason), auto, now, None))
    else if w.dryRun || w.prNumber.None? then None
    else Some(Proposal(Some(service), finding, w.prNumber, Open, None, auto, now, None))
  }

  /** `_open_proposal`. */
  function Proposed(configured: bool, rows: seq<Proposal>, service: nat, finding: Finding, auto: bool, w: World, now: nat)
    : seq<Proposal>
  {
    var cleared := Cleared(configured, rows, service, finding, w, now);
    if cleared.None? then rows
    else
      var row := NewRow(service, finding, auto, w, now);
      if row.Some? then cleared.value + [row.value] else cleared.value
  }

  /** `create_for_vulnerability` without a fixed tag: recorded as rejected, with no pull request. */
  function NoFixRecorded(configured: bool, rows: seq<Proposal>, service: nat, reason: string, w: World, now: nat): seq<Proposal> {
    var cleared := Cleared(configured, rows, service, Vulnerability, w, now);
    if cleared.None? then rows
    else cleared.value + [Proposal(Some(service), Vulnerability, None, Rejected, Some(reason), false, now, None)]
  }

  // -- the scheduler's hook ---------------------------------------------------------------

  /** What the sweep knows of a service: `None` when it no longer exists, else whether it is in conflict. */
  type Conflicts = nat -> Option<bool>

  predicate Verifiable(conflicts: Conflicts, p: Proposal) {
    p.status.Open? && p.finding.AuthConflict? && p.service.Some? && conflicts(p.service.value) == Some(false)
  }

  function Swept(conflicts: Conflicts, now: nat, rows: seq<Proposal>): seq<Proposal> {
    Map((p: Proposal) => if Verifiable(conflicts, p) then p.(status := Verified, resolvedAt := Some(now)) else p, rows)
  }

  /** A service as `_auto_create` sees it; `changedAt` is its latest change event. */
  datatype View = View(service: nat, conflict: bool, stale: bool, changedAt: Option<nat>)

  /** `_rejection_worth_retrying`. */
  predicate WorthRetrying(v: View, rejected: Proposal, now: nat) {
    (v.changedAt.Some? && v.changedAt.value > rejected.createdAt) || now as int - rejected.createdAt >= DAY
  }

  /** Whether `_auto_create` goes on to propose for a service. */
  predicate ShouldPropose(rows: seq<Proposal>, v: View, now: nat) {
    v.conflict && !v.stale && FindOpen(rows, v.service, AuthConflict).None?
    && var latest := Latest(rows, v.service, AuthConflict);
       latest.Some? ==>
         !rows[latest.value].status.Cancelled?
         && (rows[latest.value].status.Rejected? ==> WorthRetrying(v, rows[latest.value], now))
  }

  function AutoProposed(configured: bool, rows: seq<Proposal>, v: View, w: World, now: nat): seq<Proposal> {
    if configured && ShouldPropose(rows, v, now) then Proposed(configured, rows, v.service, AuthConflict, true, w, now) else rows
  }

  /** One service's turn in the loop, with what the outside answers and the clock then. */
  datatype Turn = Turn(view: View, world: World, now: nat)

  function AllProposed(configured: bool, rows: seq<Proposal>, turns: seq<Turn>): seq<Proposal>
    decreases |turns|
  {
    if turns == [] then rows
    else AllProposed(configured, AutoProposed(configured, rows, turns[0].view, turns[0].world, turns[0].now), turns[1..])
  }

  // -- the engine -----------------------------------------------------------------------------

  class ProposalEngine {
    const configured: bool
    var rows: seq<Proposal>

    constructor (configured: bool)
      ensures this.configured == configured && rows == []
    {
      this.configured, rows := configured, [];
    }

    method SetStatus(i: nat, status: Status, resolved: bool, now: nat)
      requires i < |rows|
      modifies this
      ensures rows == old(rows)[i := old(rows)[i].(status := status,
                        resolvedAt := if resolved then Some(now) else old(rows)[i].resolvedAt)]
    {
      var p := rows[i].(status := status);
      if resolved {
        p := p.(resolvedAt := Some(now));
      }
      rows := rows[i := p];
    }

    method RetireIfFinished(i: nat, pr: nat -> PrState, now: nat) returns (retired: bool)
      requires i < |rows|
      modifies this
      ensures retired <==> Retirement(configured, pr, old(rows)[i]).Some?
      ensures rows == old(rows)[i := RetiredRow(configured, pr, now, old(rows)[i])]
    {
      var p := rows[i];
      if !configured || p.pr.None? || p.pr.value == 0 {
        return false;
      }
      var state := pr(p.pr.value);
      if state == PrClosed {
        SetStatus(i, Cancelled, true, now);
      } else if state == PrMerged && p.finding != AuthConflict {
        SetStatus(i, Merged, true, now);
      } else {
        return false;
      }
      return true;
    }

    /** `_open_proposal`. */
    method OpenProposal(service: nat, finding: Finding, auto: bool, w: World, now: nat) returns (r: Result)
      modifies this
      ensures rows == Proposed(configured, old(rows), service, finding, auto, w, now)
      ensures r == Opened ==> rows != [] && IsOpen(rows[|rows| - 1], service, finding) && |rows| == |old(rows)| + 1
      ensures r == Skipped ==> rows == old(rows) && FindOpen(rows, service, finding).Some?
    {
      var existing := FindOpen(rows, service, finding);
      if existing.Some? {
        var retired := RetireIfFinished(existing.value, w.pr, now);
        if !retired {
          return Skipped;
        }
      }
      if w.target.None? || !w.readable {
        return Failed;
      }
      if w.generated.NoPatch? {
        rows := rows + [Proposal(Some(service), finding, None, Rejected, Some(w.generated.reason), auto, now, None)];
        return WasRejected;
      }
      if w.dryRun {
        return DryRun;
      }
      if w.prNumber.None? {
        return Failed;
      }
      rows := rows + [Proposal(Some(service), finding, w.prNumber, Open, None, auto, now, None)];
      return Opened;
    }

    /** `create_for_vulnerability`; `fixed` says whether a fixed tag is known. */
    method CreateForVulnerability(service: nat, fixed: bool, reason: string, w: World, now: nat) returns (r: Result)
      modifies this
      ensures rows ==
        if !configured then old(rows)
        else if fixed then Proposed(configured, old(rows), service, Vulnerability, false, w, now)
        else NoFixRecorded(configured, old(rows), service, reason, w, now)
    {
      if !configured {
        return Failed;
      }
      if !fixed {
        var existing := FindOpen(rows, service, Vulnerability);
        if existing.Some? {
          var retired := RetireIfFinished(existing.value, w.pr, now);
          if !retired {
            return Skipped;
          }
        }
        rows := rows + [Proposal(Some(service), Vulnerability, None, Rejected, Some(reason), false, now, None)];
        return WasRejected;
      }
      r := OpenProposal(service, Vulnerability, false, w, now);
    }

    /** `sync_pr_states`: every open proposal is asked after. */
    method SyncPrStates(pr: nat -> PrState, now: nat)
      modifies this
      ensures rows == if configured then Synced(configured, pr, now, old(rows)) else old(rows)
    {
      if !configured {
        return;
      }
      ghost var before := rows;
      for i := 0 to |rows|
        invariant |rows| == |before|
        invariant forall j :: i <= j < |rows| ==> rows[j] == before[j]
        invariant forall j :: 0 <= j < i ==> rows[j] == Synced(configured, pr, now, before)[j]
      {
        if rows[i].status == Open {
          var _ := RetireIfFinished(i, pr, now);
        }
      }
      assert rows == Synced(configured, pr, now, before);
    }

    /** `sweep_verifications`. */
    method SweepVerifications(conflicts: Conflicts, now: nat)
      modifies this
      ensures rows == Swept(conflicts, now, old(rows))
    {
      ghost var before := rows;
      for i := 0 to |rows|
        invariant |rows| == |before|
        invariant forall j :: i <= j < |rows| ==> rows[j] == before[j]
        invariant forall j :: 0 <= j < i ==> rows[j] == Swept(conflicts, now, before)[j]
      {
        var p := rows[i];
        if p.status != Open || p.finding != AuthConflict || p.service.None? {
          continue;
        }
        var conflict := conflicts(p.service.value);
        if conflict.None? {
          continue;
        }
        if !conflict.value {
          SetStatus(i, Verified, true, now);
        }
      }
      assert rows == Swept(conflicts, now, before);
    }

    /** `_auto_create`, for the services in the order they are listed. */
    method AutoCreate(turns: seq<Turn>)
      requires configured
      modifies this
      ensures rows == AllProposed(configured, old(rows), turns)
    {
      for i := 0 to |turns|
        invariant AllProposed(configured, rows, turns[i..]) == AllProposed(configured, old(rows), turns)
      {
        var v, now := turns[i].view, turns[i].now;
        assert turns[i..][1..] == turns[i + 1..];
        if !v.conflict || v.stale {
          continue;
        }
        var existing := FindOpen(rows, v.service, AuthConflict);
        if existing.Some? {
          continue;
        }
        var latest := Latest(rows, v.service, AuthConflict);
        if latest.Some? && rows[latest.value].status == Cancelled {
          continue;
        }
        if latest.Some? && rows[latest.value].status == Rejected && !WorthRetrying(v, rows[latest.value], now) {
          continue;
        }
        var _ := OpenProposal(v.service, AuthConflict, true, turns[i].world, now);
      }
    }

    /** `cancel`. */
    method Cancel(i: nat)
      modifies this
      ensures rows == if i < |old(rows)| then old(rows)[i := old(rows)[i].(status := Cancelled)] else old(rows)
    {
      if i >= |rows| {
        return;
      }
      SetStatus(i, Cancelled, false, 0);
    }
  }

  // -- what is proposed, and how it ends -------------------------------------------------------

  /**
   * The hook proposes for a service exactly when it is in conflict and not
   * stale, nothing is open for it, and its last proposal, if any, was neither
   * cancelled nor rejected less than a day ago with no change since.
   */
  lemma ProposedForWhen(rows: seq<Proposal>, v: View, now: nat)
    ensures ShouldPropose(rows, v, now) <==>
      v.conflict && !v.stale
      && (forall i :: 0 <= i < |rows| ==>
            !(rows[i].service == Some(v.service) && rows[i].finding == AuthConflict && rows[i].status == Open))
      && match Latest(rows, v.service, AuthConflict)
         case None => true
         case Some(i) =>
           rows[i].status != Cancelled
           && (rows[i].status == Rejected ==>
                 now as int - rows[i].createdAt >= 86400
                 || exists at: nat :: v.changedAt == Some(at) && at > rows[i].createdAt)
  {
  }

  /** Nothing in the way: the service gets an open proposal with the number of its new pull request. */
  lemma ProposalOpens(rows: seq<Proposal>, v: View, w: World, now: nat)
    requires v.conflict && !v.stale && w.target != None && w.readable && w.generated == Patch && !w.dryRun && w.prNumber != None
    requires forall i :: 0 <= i < |rows| && rows[i].service == Some(v.service) && rows[i].finding == AuthConflict ==>
      rows[i].status !in {Open, Cancelled, Rejected}
    ensures AutoProposed(true, rows, v, w, now)
         == rows + [Proposal(Some(v.service), AuthConflict, w.prNumber, Open, None, true, now, None)]
  {
  }

  /** A patch that was rejected is kept as such, without a pull request; no patch, no file or a dry run leaves no trace. */
  lemma ProposalFails(rows: seq<Proposal>, service: nat, finding: Finding, auto: bool, w: World, now: nat)
    requires FindOpen(rows, service, finding) == None
    requires w.target == None || !w.readable || w.generated != Patch || w.dryRun || w.prNumber == None
    ensures Proposed(true, rows, service, finding, auto, w, now) ==
      if w.target != None && w.readable && w.generated != Patch then
        rows + [Proposal(Some(service), finding, None, Rejected, Some(w.generated.reason), auto, now, None)]
      else rows
  {
  }

  /** A closed pull request cancels its proposal; a merged one settles it, unless the conflict has yet to be seen to clear. */
  lemma PullRequestEnds(pr: nat -> PrState, now: nat, p: Proposal)
    requires p.pr.Some? && p.pr.value != 0
    ensures RetiredRow(true, pr, now, p) ==
      if pr(p.pr.value) == PrClosed then p.(status := Cancelled, resolvedAt := Some(now))
      else if pr(p.pr.value) == PrMerged && p.finding != AuthConflict then p.(status := Merged, resolvedAt := Some(now))
      else p
    ensures RetiredRow(false, pr, now, p) == p
  {
  }

  lemma WithoutPullRequestStays(pr: nat -> PrState, now: nat, p: Proposal)
    requires p.pr == None || p.pr == Some(0)
    ensures RetiredRow(true, pr, now, p) == p
  {
  }
}
