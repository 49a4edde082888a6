/**
 * `integrations/dockhand/gate.py`: an action is stored with an `x + y`
 * challenge, and a right answer claims it, once. The class is the store as one
 * caller sees it; `DockhandProtocol` interleaves its steps.
 */
module DockhandGate {
  import opened Wrappers

  datatype Status = Pending | Executing | Executed | Failed | WrongAnswer | Expired

  /** What will run, fixed when the action is requested. */
  datatype Request = Request(kind: string, environment: string, target: string, action: string, pull: bool)

  datatype Row = Row(
    request: Request,
    x: nat,
    y: nat,
    expiresAt: nat,
    status: Status,
    resolvedAt: Option<nat>,
    result: Option<string>)

  datatype Refusal = NotFound | NotPending | TooLate | Incorrect | AlreadyUsed
  datatype Outcome = Claimed(row: Row) | Refused(why: Refusal)

  predicate IsPast(expiresAt: nat, now: nat) { expiresAt < now }

  /** An answer that is not an integer counts as wrong. */
  predicate Correct(row: Row, answer: Option<int>) { answer == Some(row.x + row.y) }

  /** `_resolve`: move a row that is still pending. */
  function Resolved(row: Row, status: Status, now: nat): Row {
    if row.status.Pending? then row.(status := status, resolvedAt := Some(now), result := None) else row
  }

  /** The condition of the claiming UPDATE, on the clock read when it was built. */
  predicate Claimable(row: Row, now: nat) { row.status.Pending? && row.expiresAt > now }

  /** `finish`: only an executing row is touched. */
  function Finished(row: Row, ok: bool, summary: string, now: nat): Row {
    if row.status.Executing? then
      row.(status := if ok then Executed else Failed, resolvedAt := Some(now), result := Some(summary))
    else row
  }

  class DockhandActionGateStore {
    var rows: seq<Row>

    constructor ()
      ensures rows == []
    {
      rows := [];
    }

    /** `request`: nothing runs; the action is stored with a fresh challenge. */
    method RequestAction(request: Request, x: nat, y: nat, expiresAt: nat) returns (id: nat)
      modifies this
      ensures id == |old(rows)|
      ensures rows == old(rows) + [Row(request, x, y, expiresAt, Pending, None, None)]
    {
      id := |rows|;
      rows := rows + [Row(request, x, y, expiresAt, Pending, None, None)];
    }

    /** `_resolve`. */
    method Resolve(id: nat, status: Status, onlyIfUnexpired: bool, now: nat) returns (moved: bool)
      requires id < |rows|
      modifies this
      ensures moved <==> old(rows)[id].status.Pending? && (onlyIfUnexpired ==> old(rows)[id].expiresAt > now)
      ensures rows == if moved then old(rows)[id := Resolved(old(rows)[id], status, now)] else old(rows)
    {
      moved := rows[id].status == Pending && (!onlyIfUnexpired || rows[id].expiresAt > now);
      if moved {
        rows := rows[id := rows[id].(status := status, resolvedAt := Some(now), result := None)];
      }
    }

    /**
     * `confirm`, with nobody else at work; the clock is read for the expiry
     * check and again for the claim. The action is claimed exactly when it is
     * pending, unexpired at both readings and answered correctly; a wrong answer
     * or an expiry closes the challenge, and no other row changes.
     */
    method Confirm(id: nat, answer: Option<int>, seenAt: nat, now: nat) returns (r: Outcome)
      requires seenAt <= now
      modifies this
      ensures |rows| == |old(rows)|
      ensures forall i :: 0 <= i < |rows| && i != id ==> rows[i] == old(rows)[i]
      ensures r.Claimed? <==>
        id < |old(rows)| && old(rows)[id].status == Pending && now < old(rows)[id].expiresAt
        && answer == Some(old(rows)[id].x + old(rows)[id].y)
      ensures r.Claimed? ==>
        r.row == rows[id] && rows[id] == old(rows)[id].(status := Executing, resolvedAt := Some(now), result := None)
      ensures r.Refused? && id < |rows| && old(rows)[id].status == Pending ==>
        if old(rows)[id].expiresAt < seenAt then
          rows[id] == old(rows)[id].(status := Expired, resolvedAt := Some(seenAt), result := None)
        else if answer != Some(old(rows)[id].x + old(rows)[id].y) then
          rows[id] == old(rows)[id].(status := WrongAnswer, resolvedAt := Some(seenAt), result := None)
        else rows[id] == old(rows)[id]
      ensures id < |rows| && !old(rows)[id].status.Pending? ==> rows[id] == old(rows)[id]
    {
      if id >= |rows| {
        return Refused(NotFound);
      }
      var row := rows[id];
      if row.status != Pending {
        return Refused(NotPending);
      }
      if IsPast(row.expiresAt, seenAt) {
        var _ := Resolve(id, Expired, false, seenAt);
        return Refused(TooLate);
      }
      if answer.None? || answer.value != row.x + row.y {
        var _ := Resolve(id, WrongAnswer, false, seenAt);
        return Refused(Incorrect);
      }
      var claimed := Resolve(id, Executing, true, now);
      if !claimed {
        return Refused(AlreadyUsed);
      }
      r := Claimed(rows[id]);
    }

    method Finish(id: nat, ok: bool, summary: string, now: nat)
      modifies this
      ensures rows == if id < |old(rows)| then old(rows)[id := Finished(old(rows)[id], ok, summary, now)] else old(rows)
    {
      if id < |rows| && rows[id].status == Executing {
        rows := rows[id := rows[id].(
          status := if ok then Executed else Failed, resolvedAt := Some(now), result := Some(summary))];
      }
    }

    /** `purge_expired`: exactly the pending challenges past their expiry are closed, and counted. */
    method PurgeExpired(now: nat) returns (expired: nat)
      modifies this
      ensures |rows| == |old(rows)|
      ensures forall i :: 0 <= i < |rows| ==>
        rows[i] == if IsPast(old(rows)[i].expiresAt, now) then Resolved(old(rows)[i], Expired, now) else old(rows)[i]
      ensures expired == |set i | 0 <= i < |rows| && old(rows)[i].status.Pending? && IsPast(old(rows)[i].expiresAt, now)|
    {
      expired := 0;
      ghost var marked: set<int> := {};
      for k := 0 to |rows|
        invariant |rows| == |old(rows)|
        invariant forall i :: k <= i < |rows| ==> rows[i] == old(rows)[i]
        invariant forall i :: 0 <= i < k ==>
          rows[i] == if IsPast(old(rows)[i].expiresAt, now) then Resolved(old(rows)[i], Expired, now) else old(rows)[i]
        invariant marked == set i | 0 <= i < k && old(rows)[i].status.Pending? && IsPast(old(rows)[i].expiresAt, now)
        invariant expired == |marked|
      {
        if rows[k].status == Pending && IsPast(rows[k].expiresAt, now) {
          var moved := Resolve(k, Expired, false, now);
          if moved {
            marked := marked + {k};
            expired := expired + 1;
          }
        }
      }
    }
  }
}
