/**
 * `patching/store.py`: approvals that a click on one of two links resolves, at
 * most once. The class is the store as one caller sees it; `PatchProtocol`
 * takes the same reads and conditional UPDATEs apart into steps of any number
 * of clicks, interleaved in any order with the clock.
 */
module PatchApproval {
  import opened Wrappers

  datatype Status = Pending | Approved | Cancelled | Expired | Executed | Failed | Undelivered
  datatype Action = Approve | Cancel
  datatype TokenState = Valid | Invalid | TokenExpired | Used

  /** Times are clock readings; tokens stand for their hashes. */
  datatype Row = Row(
    approveToken: string,
    cancelToken: string,
    expiresAt: nat,
    status: Status,
    resolvedAt: Option<nat>,
    executedVia: Option<string>,
    detail: Option<string>)

  datatype TokenCheck = TokenCheck(state: TokenState, approval: Option<nat>)

  const MAX_TOKEN_CHARS := 128

  function TokenFor(row: Row, action: Action): string {
    if action.Approve? then row.approveToken else row.cancelToken
  }

  function Target(action: Action): Status {
    if action.Approve? then Approved else Cancelled
  }

  predicate IsPast(expiresAt: nat, now: nat) { expiresAt < now }

  /** The row a token was issued for, by position in the table. */
  function Lookup(rows: seq<Row>, token: string, action: Action): (r: Option<nat>)
    ensures r.Some? ==> r.value < |rows| && TokenFor(rows[r.value], action) == token
    ensures r.None? ==> forall i :: 0 <= i < |rows| ==> TokenFor(rows[i], action) != token
  {
    if rows == [] then None
    else if TokenFor(rows[0], action) == token then Some(0)
    else
      var r := Lookup(rows[1..], token, action);
      if r.Some? then Some(r.value + 1) else None
  }

  /** What `check` makes of the row it read and the clock it read after it. */
  function Classify(row: Row, now: nat): TokenState {
    if row.status.Expired? then TokenExpired
    else if !row.status.Pending? then Used
    else if IsPast(row.expiresAt, now) then TokenExpired
    else Valid
  }

  /** The conditional UPDATE of `consume`. */
  predicate Claimable(row: Row, now: nat) { row.status.Pending? && row.expiresAt > now }

  function Claimed(row: Row, action: Action, now: nat): Row {
    row.(status := Target(action), resolvedAt := Some(now))
  }

  /** The conditional UPDATE of `_expire`. */
  function ExpiredRow(row: Row): Row {
    if row.status.Pending? then row.(status := Expired) else row
  }

  function Recorded(row: Row, status: Status, via: Option<string>, detail: Option<string>, now: nat): Row {
    row.(status := status, executedVia := via, detail := detail,
         resolvedAt := if row.resolvedAt.Some? then row.resolvedAt else Some(now))
  }

  /** The link that approves carries the row's approve token, the link that cancels its cancel token. */
  predicate Opens(token: string, action: Action, row: Row) {
    match action
    case Approve => row.approveToken == token
    case Cancel => row.cancelToken == token
  }

  /** No two links of the table carry the same token. */
  predicate TokensApart(rows: seq<Row>) {
    (forall i :: 0 <= i < |rows| ==> rows[i].approveToken != rows[i].cancelToken)
    && forall i, j :: 0 <= i < |rows| && 0 <= j < |rows| && i != j ==>
         rows[i].approveToken != rows[j].approveToken && rows[i].cancelToken != rows[j].cancelToken
         && rows[i].approveToken != rows[j].cancelToken
  }

  /** A row is found by its own token for that action, and by its other token not at all. */
  lemma LookupFinds(rows: seq<Row>, i: nat)
    requires TokensApart(rows) && i < |rows|
    ensures Lookup(rows, rows[i].approveToken, Approve) == Some(i) && Lookup(rows, rows[i].approveToken, Cancel) == None
    ensures Lookup(rows, rows[i].cancelToken, Cancel) == Some(i) && Lookup(rows, rows[i].cancelToken, Approve) == None
  {
  }

  // -- the store, one call at a time --------------------------------------------------

  class PatchApprovalStore {
    var rows: seq<Row>

    constructor ()
      ensures rows == []
    {
      rows := [];
    }

    /** `check`: read-only. */
    method Check(token: string, action: Action, now: nat) returns (r: TokenCheck)
      ensures r.approval.Some? ==>
        0 < |token| <= 128 && r.approval.value < |rows| && Opens(token, action, rows[r.approval.value])
      ensures r.approval.None? && 0 < |token| <= 128 ==> forall i :: 0 <= i < |rows| ==> !Opens(token, action, rows[i])
      ensures r.state == Invalid <==>
        token == "" || |token| > MAX_TOKEN_CHARS || forall i :: 0 <= i < |rows| ==> TokenFor(rows[i], action) != token
      ensures r.state == Invalid <==> r.approval.None?
      ensures r.approval.Some? ==>
        r.approval.value < |rows| && TokenFor(rows[r.approval.value], action) == token
        && r.approval == Lookup(rows, token, action)
      ensures r.state == Valid <==>
        r.approval.Some? && rows[r.approval.value].status == Pending && now <= rows[r.approval.value].expiresAt
      ensures r.state == Used <==>
        r.approval.Some? && rows[r.approval.value].status !in {Pending, Expired}
    {
      if token == "" || |token| > MAX_TOKEN_CHARS {
        return TokenCheck(Invalid, None);
      }
      var found := Lookup(rows, token, action);
      if found.None? {
        return TokenCheck(Invalid, None);
      }
      var approval := rows[found.value];
      if approval.status == Expired {
        return TokenCheck(TokenExpired, found);
      }
      if approval.status != Pending {
        return TokenCheck(Used, found);
      }
      if IsPast(approval.expiresAt, now) {
        return TokenCheck(TokenExpired, found);
      }
      return TokenCheck(Valid, found);
    }

    method Expire(id: nat)
      requires id < |rows|
      modifies this
      ensures rows == old(rows)[id := ExpiredRow(old(rows)[id])]
    {
      if rows[id].status == Pending {
        rows := rows[id := rows[id].(status := Expired)];
      }
    }

    /**
     * `consume`, with nobody else at work: the clock is read in `check` and again
     * before the UPDATE. A click is answered `valid` exactly when its approval is
     * pending and unexpired at both readings, and then only that row moves.
     */
    method Consume(token: string, action: Action, seenAt: nat, now: nat) returns (r: TokenCheck)
      requires seenAt <= now
      modifies this
      ensures |rows| == |old(rows)|
      ensures r.approval.Some? ==> r.approval.value < |rows|
      ensures r.state == Valid <==>
        token != "" && |token| <= MAX_TOKEN_CHARS
        && var found := Lookup(old(rows), token, action);
           found.Some? && old(rows)[found.value].status == Pending && now < old(rows)[found.value].expiresAt
      ensures r.state == Valid ==>
        r.approval.Some? && Opens(token, action, old(rows)[r.approval.value])
        && rows == old(rows)[r.approval.value := old(rows)[r.approval.value].(
                               status := match action case Approve => Approved case Cancel => Cancelled,
                               resolvedAt := Some(now))]
      ensures TokensApart(old(rows)) ==> forall i :: 0 <= i < |rows| && 0 < |token| <= 128 ==>
        (Opens(token, action, old(rows)[i]) ==>
           r.approval == Some(i)
           && (r.state == Valid <==> old(rows)[i].status == Pending && now < old(rows)[i].expiresAt))
        && (Opens(token, if action == Approve then Cancel else Approve, old(rows)[i]) ==>
              r == TokenCheck(Invalid, None) && rows == old(rows))
      ensures r.state != Valid ==> forall i :: 0 <= i < |rows| ==>
        rows[i] == old(rows)[i]
        || (r.approval == Some(i) && r.state == TokenExpired && old(rows)[i].status == Pending
            && old(rows)[i].expiresAt <= now && rows[i] == ExpiredRow(old(rows)[i]))
      ensures r.state in {Valid, Used} ==> r.approval.Some? && rows[r.approval.value].status != Pending
    {
      r := Check(token, action, seenAt);
      if r.state == TokenExpired && r.approval.Some? {
        Expire(r.approval.value);
      }
      if r.state != Valid || r.approval.None? {
        return;
      }
      var id := r.approval.value;
      var moved := rows[id].status == Pending && rows[id].expiresAt > now;
      if moved {
        rows := rows[id := rows[id].(status := Target(action), resolvedAt := Some(now))];
      }
      if !moved {
        if rows[id].status == Pending {
          Expire(id);
          return TokenCheck(TokenExpired, Some(id));
        }
        return TokenCheck(Used, Some(id));
      }
      return TokenCheck(Valid, Some(id));
    }

    method RecordOutcome(id: nat, status: Status, via: Option<string>, detail: Option<string>, now: nat)
      modifies this
      ensures rows == if id < |old(rows)| then old(rows)[id := Recorded(old(rows)[id], status, via, detail, now)] else old(rows)
    {
      if id >= |rows| {
        return;
      }
      var row := rows[id];
      row := row.(status := status, executedVia := via, detail := detail);
      if row.resolvedAt.None? {
        row := row.(resolvedAt := Some(now));
      }
      rows := rows[id := row];
    }

    /** `purge_expired`: exactly the pending approvals past their expiry are marked, and counted. */
    method PurgeExpired(now: nat) returns (expired: nat)
      modifies this
      ensures |rows| == |old(rows)|
      ensures forall i :: 0 <= i < |rows| ==>
        rows[i] == if IsPast(old(rows)[i].expiresAt, now) then ExpiredRow(old(rows)[i]) else old(rows)[i]
      ensures expired == |set i | 0 <= i < |rows| && rows[i] != old(rows)[i]|
    {
      expired := 0;
      ghost var marked: set<int> := {};
      for k := 0 to |rows|
        invariant |rows| == |old(rows)|
        invariant forall i :: k <= i < |rows| ==> rows[i] == old(rows)[i]
        invariant forall i :: 0 <= i < k ==>
          rows[i] == if IsPast(old(rows)[i].expiresAt, now) then ExpiredRow(old(rows)[i]) else old(rows)[i]
        invariant marked == set i | 0 <= i < k && rows[i] != old(rows)[i]
        invariant expired == |marked|
      {
        if rows[k].status != Pending || !IsPast(rows[k].expiresAt, now) {
          continue;
        }
        rows := rows[k := rows[k].(status := Expired)];
        marked := marked + {k};
        expired := expired + 1;
      }
    }
  }
}
