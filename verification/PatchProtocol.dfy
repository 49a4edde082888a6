/**
 * Any number of Approve and Cancel clicks on any number of approvals,
 * interleaved step by step with each other, with the clock, with new
 * approvals and with outcomes being recorded. Each step is one read, one
 * conditional UPDATE or one clock reading of `consume`, `handle` and
 * `execute_and_report`.
 */
module PatchProtocol {
  import opened Wrappers
  import opened PatchApproval
  import L = Latch

  /** Where one click is. Each state but the last of its line names the step that comes next. */
  datatype Click =
    | Arrived(token: string, action: Action)
    | Looked(id: nat, action: Action, row: Row)               // row read; the clock is next
    | Expiring(id: nat)                                       // found expired: UPDATE to expired is next
    | Claiming(id: nat, action: Action)                       // found valid: the second clock reading is next
    | Updating(id: nat, action: Action, now: nat)             // the conditional UPDATE is next
    | Updated(id: nat, action: Action, now: nat, moved: bool) // the re-read is next
    | Lapsing(id: nat)                                        // still pending: UPDATE to expired is next
    | Answered(approval: Option<nat>, state: TokenState)
    | Won(id: nat, action: Action, now: nat)                  // answered `valid`; the response is next
    | Running(id: nat)                                        // the executor has been started
    | Reported(id: nat)
    | Broken(id: nat)                                         // the response could not be built

  /** Which click moved an approval off `pending`, how, and the clock it had read. */
  datatype Claim = Claim(click: nat, action: Action, now: nat)

  /** The table, the clock and the clicks; `claims` and `runs` record history and are read by no step. */
  datatype State = State(
    rows: seq<Row>,
    clock: nat,
    clicks: seq<Click>,
    claims: map<nat, Claim>,
    runs: seq<nat>)

  datatype Event =
    | Tick(seconds: nat)
    | Create(row: Row)
    | Arrive(token: string, action: Action)
    | Move(click: nat)
    | BreakDown(click: nat)
    | Undeliverable(id: nat)
    | Finish(click: nat, ok: bool, via: Option<string>, detail: Option<string>)

  const INIT := State([], 0, [], map[], [])

  /** A click's next step. */
  function Moved(s: State, c: nat): State
    requires c < |s.clicks|
  {
    match s.clicks[c]
    case Arrived(token, action) =>
      var found := if token == "" || |token| > MAX_TOKEN_CHARS then None else Lookup(s.rows, token, action);
      s.(clicks := s.clicks[c := if found.None? then Answered(None, Invalid)
                                 else Looked(found.value, action, s.rows[found.value])])
    case Looked(id, action, row) =>
      var state := Classify(row, s.clock);
      s.(clicks := s.clicks[c := match state
                                 case Valid => Claiming(id, action)
                                 case TokenExpired => Expiring(id)
                                 case _ => Answered(Some(id), state)])
    case Expiring(id) =>
      if id < |s.rows| then
        s.(rows := s.rows[id := ExpiredRow(s.rows[id])], clicks := s.clicks[c := Answered(Some(id), TokenExpired)])
      else s
    case Claiming(id, action) =>
      s.(clicks := s.clicks[c := Updating(id, action, s.clock)])
    case Updating(id, action, now) =>
      if id < |s.rows| && Claimable(s.rows[id], now) then
        s.(rows := s.rows[id := Claimed(s.rows[id], action, now)],
           clicks := s.clicks[c := Updated(id, action, now, true)],
           claims := s.claims[id := Claim(c, action, now)])
      else s.(clicks := s.clicks[c := Updated(id, action, now, false)])
    case Updated(id, action, now, moved) =>
      s.(clicks := s.clicks[c := if moved then Won(id, action, now)
                                 else if id < |s.rows| && s.rows[id].status.Pending? then Lapsing(id)
                                 else Answered(Some(id), Used)])
    case Lapsing(id) =>
      if id < |s.rows| then
        s.(rows := s.rows[id := ExpiredRow(s.rows[id])], clicks := s.clicks[c := Answered(Some(id), TokenExpired)])
      else s
    case Won(id, action, now) =>
      if action.Approve? then s.(clicks := s.clicks[c := Running(id)], runs := s.runs + [id]) else s
    case _ => s
  }

  function Apply(s: State, e: Event): State {
    match e
    case Tick(seconds) => s.(clock := s.clock + seconds)
    case Create(row) => s.(rows := s.rows + [row.(status := Pending)])
    case Arrive(token, action) => s.(clicks := s.clicks + [Arrived(token, action)])
    case Move(c) => if c < |s.clicks| then Moved(s, c) else s
    case BreakDown(c) =>
      if c < |s.clicks| && s.clicks[c].Won? then s.(clicks := s.clicks[c := Broken(s.clicks[c].id)]) else s
    case Undeliverable(id) =>
      if id < |s.rows| then s.(rows := s.rows[id := Recorded(s.rows[id], Undelivered, None, None, s.clock)]) else s
    case Finish(c, ok, via, detail) =>
      if c < |s.clicks| && s.clicks[c].Running? && s.clicks[c].id < |s.rows| then
        var id := s.clicks[c].id;
        s.(rows := s.rows[id := Recorded(s.rows[id], if ok then Executed else Failed, via, detail, s.clock)],
           clicks := s.clicks[c := Reported(id)])
      else s
  }

  function After(events: seq<Event>): State
    decreases |events|
  {
    if events == [] then INIT else Apply(After(events[..|events| - 1]), events[|events| - 1])
  }

  // -- what every step keeps ---------------------------------------------------------

  /** The click that claimed an approval, in any state after its UPDATE. */
  predicate Holds(k: Click, id: nat, claim: Claim) {
    match k
    case Updated(i, action, now, moved) => moved && i == id && action == claim.action && now == claim.now
    case Won(i, action, now) => i == id && action == claim.action && now == claim.now
    case Running(i) => i == id && claim.action.Approve?
    case Reported(i) => i == id && claim.action.Approve?
    case Broken(i) => i == id
    case _ => false
  }

  predicate Started(k: Click) { k.Running? || k.Reported? }

  /** What one click's state says about the table. */
  predicate ClickOk(s: State, c: nat)
    requires c < |s.clicks|
  {
    match s.clicks[c]
    case Arrived(_, _) => true
    case Looked(id, _, row) => id < |s.rows| && (!row.status.Pending? ==> !s.rows[id].status.Pending?)
    case Expiring(id) => id < |s.rows|
    case Claiming(id, _) => id < |s.rows|
    case Updating(id, _, _) => id < |s.rows|
    case Updated(id, _, _, moved) => id < |s.rows| && (moved ==> id in s.claims && s.claims[id].click == c)
    case Lapsing(id) => id < |s.rows|
    case Answered(id, state) =>
      state != Valid && (state == Used ==> id.Some? && id.value < |s.rows| && !s.rows[id.value].status.Pending?)
    case Won(id, _, _) => id in s.claims && s.claims[id].click == c
    case Running(id) => id in s.claims && s.claims[id].click == c
    case Reported(id) => id in s.claims && s.claims[id].click == c
    case Broken(id) => id in s.claims && s.claims[id].click == c
  }

  predicate ClaimOk(s: State, id: nat)
    requires id in s.claims
  {
    var claim := s.claims[id];
    id < |s.rows| && !s.rows[id].status.Pending? && claim.now < s.rows[id].expiresAt
    && claim.click < |s.clicks| && Holds(s.clicks[claim.click], id, claim)
  }

  ghost predicate Inv(s: State) {
    (forall c :: 0 <= c < |s.clicks| ==> ClickOk(s, c))
    && (forall id :: id in s.claims ==> ClaimOk(s, id))
    && (forall i :: 0 <= i < |s.runs| ==> s.runs[i] in s.claims && Started(s.clicks[s.claims[s.runs[i]].click]))
    && (forall i, j :: 0 <= i < j < |s.runs| ==> s.runs[i] != s.runs[j])
  }

  /** A step that changes one click that holds no claim, and no row. */
  lemma Walks(s: State, c: nat, k: Click)
    requires Inv(s) && c < |s.clicks| && (forall id :: id in s.claims ==> s.claims[id].click != c)
    requires ClickOk(s.(clicks := s.clicks[c := k]), c)
    ensures Inv(s.(clicks := s.clicks[c := k]))
  {
    var t := s.(clicks := s.clicks[c := k]);
    forall d | 0 <= d < |t.clicks| ensures ClickOk(t, d) { if d != c { assert ClickOk(s, d); } }
    forall id | id in t.claims ensures ClaimOk(t, id) { assert ClaimOk(s, id); }
  }

  /** A row may change as long as it does not become pending and keeps its expiry. */
  lemma RowChanges(s: State, id: nat, row: Row)
    requires Inv(s) && id < |s.rows| && row.expiresAt == s.rows[id].expiresAt
    requires !s.rows[id].status.Pending? ==> !row.status.Pending?
    ensures Inv(s.(rows := s.rows[id := row]))
  {
    var t := s.(rows := s.rows[id := row]);
    forall d | 0 <= d < |t.clicks| ensures ClickOk(t, d) { assert ClickOk(s, d); }
    forall i | i in t.claims ensures ClaimOk(t, i) { assert ClaimOk(s, i); }
  }

  lemma NotHolding(s: State, c: nat)
    requires Inv(s) && c < |s.clicks|
    requires s.clicks[c].Arrived? || s.clicks[c].Looked? || s.clicks[c].Expiring? || s.clicks[c].Claiming?
      || s.clicks[c].Updating? || s.clicks[c].Lapsing? || s.clicks[c].Answered? || (s.clicks[c].Updated? && !s.clicks[c].moved)
    ensures forall id :: id in s.claims ==> s.claims[id].click != c
  {
    forall id | id in s.claims ensures s.claims[id].click != c { assert ClaimOk(s, id); }
  }

  lemma ClaimKeeps(s: State, c: nat)
    requires Inv(s) && c < |s.clicks| && s.clicks[c].Updating?
    requires s.clicks[c].id < |s.rows| && Claimable(s.rows[s.clicks[c].id], s.clicks[c].now)
    ensures Inv(Moved(s, c))
  {
    NotHolding(s, c);
    var t, id := Moved(s, c), s.clicks[c].id;
    assert ClickOk(s, c);
    assert forall i :: i in s.claims ==> ClaimOk(s, i);
    assert id !in s.claims;
    forall d | 0 <= d < |t.clicks| ensures ClickOk(t, d) {
      assert ClickOk(s, d);
    }
    forall i | i in t.claims ensures ClaimOk(t, i) {
      if i != id { assert ClaimOk(s, i); }
    }
  }

  /** The holder of a claim moves on to another state that holds it. */
  lemma HolderMoves(s: State, c: nat, k: Click, id: nat)
    requires Inv(s) && c < |s.clicks| && id in s.claims && s.claims[id].click == c
    requires Holds(k, id, s.claims[id]) && (Started(s.clicks[c]) ==> Started(k))
    requires k.Updated? ==> k.moved
    ensures Inv(s.(clicks := s.clicks[c := k]))
  {
    var t := s.(clicks := s.clicks[c := k]);
    assert ClaimOk(s, id);
    forall i | i in t.claims ensures ClaimOk(t, i) {
      assert ClaimOk(s, i);
    }
    forall d | 0 <= d < |t.clicks| ensures ClickOk(t, d) {
      assert ClickOk(s, d);
    }
  }

  lemma RunStarts(s: State, c: nat)
    requires Inv(s) && c < |s.clicks| && s.clicks[c].Won? && s.clicks[c].action.Approve?
    ensures Inv(Moved(s, c))
  {
    var id := s.clicks[c].id;
    assert ClickOk(s, c);
    assert ClaimOk(s, id);
    HolderMoves(s, c, Running(id), id);
    var u, t := s.(clicks := s.clicks[c := Running(id)]), Moved(s, c);
    assert id !in s.runs;
    forall d | 0 <= d < |t.clicks| ensures ClickOk(t, d) { assert ClickOk(u, d); }
    forall i | i in t.claims ensures ClaimOk(t, i) { assert ClaimOk(u, i); }
  }

  lemma MovedKeeps(s: State, c: nat)
    requires Inv(s) && c < |s.clicks|
    ensures Inv(Moved(s, c))
  {
    assert ClickOk(s, c);
    match s.clicks[c]
    case Arrived(token, action) =>
      NotHolding(s, c);
      Walks(s, c, Moved(s, c).clicks[c]);
    case Looked(id, action, row) =>
      NotHolding(s, c);
      Walks(s, c, Moved(s, c).clicks[c]);
    case Expiring(id) =>
      RowChanges(s, id, ExpiredRow(s.rows[id]));
      var t := s.(rows := s.rows[id := ExpiredRow(s.rows[id])]);
      NotHolding(t, c);
      Walks(t, c, Answered(Some(id), TokenExpired));
    case Claiming(id, action) =>
      NotHolding(s, c);
      Walks(s, c, Updating(id, action, s.clock));
    case Updating(id, action, now) =>
      if Claimable(s.rows[id], now) {
        ClaimKeeps(s, c);
      } else {
        NotHolding(s, c);
        Walks(s, c, Updated(id, action, now, false));
      }
    case Updated(id, action, now, moved) =>
      if moved {
        assert ClaimOk(s, id);
        HolderMoves(s, c, Won(id, action, now), id);
      } else {
        NotHolding(s, c);
        Walks(s, c, Moved(s, c).clicks[c]);
      }
    case Lapsing(id) =>
      RowChanges(s, id, ExpiredRow(s.rows[id]));
      var t := s.(rows := s.rows[id := ExpiredRow(s.rows[id])]);
      NotHolding(t, c);
      Walks(t, c, Answered(Some(id), TokenExpired));
    case Won(id, action, now) => if action.Approve? { RunStarts(s, c); }
    case Answered(_, _) =>
    case Running(_) =>
    case Reported(_) =>
    case Broken(_) =>
  }

  lemma ApplyKeeps(s: State, e: Event)
    requires Inv(s)
    ensures Inv(Apply(s, e))
  {
    match e
    case Tick(seconds) => TickKeeps(s, seconds);
    case Create(row) => GrowRows(s, row.(status := Pending));
    case Arrive(token, action) => GrowClicks(s, token, action);
    case Move(c) => if c < |s.clicks| { MovedKeeps(s, c); }
    case BreakDown(c) =>
      if c < |s.clicks| && s.clicks[c].Won? {
        assert ClickOk(s, c);
        assert ClaimOk(s, s.clicks[c].id);
        HolderMoves(s, c, Broken(s.clicks[c].id), s.clicks[c].id);
      }
    case Undeliverable(id) =>
      if id < |s.rows| { RowChanges(s, id, Recorded(s.rows[id], Undelivered, None, None, s.clock)); }
    case Finish(c, ok, via, detail) =>
      if c < |s.clicks| && s.clicks[c].Running? && s.clicks[c].id < |s.rows| {
        var id := s.clicks[c].id;
        assert ClickOk(s, c);
        assert ClaimOk(s, id);
        var row := Recorded(s.rows[id], if ok then Executed else Failed, via, detail, s.clock);
        RowChanges(s, id, row);
        HolderMoves(s.(rows := s.rows[id := row]), c, Reported(id), id);
      }
  }

  lemma TickKeeps(s: State, seconds: nat)
    requires Inv(s)
    ensures Inv(s.(clock := s.clock + seconds))
  {
    var t := s.(clock := s.clock + seconds);
    forall d | 0 <= d < |t.clicks| ensures ClickOk(t, d) { assert ClickOk(s, d); }
    forall i | i in t.claims ensures ClaimOk(t, i) { assert ClaimOk(s, i); }
  }

  lemma GrowRows(s: State, row: Row)
    requires Inv(s)
    ensures Inv(s.(rows := s.rows + [row]))
  {
    var t := s.(rows := s.rows + [row]);
    forall d | 0 <= d < |t.clicks| ensures ClickOk(t, d) { assert ClickOk(s, d); }
    forall i | i in t.claims ensures ClaimOk(t, i) { assert ClaimOk(s, i); }
  }

  lemma GrowClicks(s: State, token: string, action: Action)
    requires Inv(s)
    ensures Inv(s.(clicks := s.clicks + [Arrived(token, action)]))
  {
    var t := s.(clicks := s.clicks + [Arrived(token, action)]);
    forall d | 0 <= d < |t.clicks| ensures ClickOk(t, d) { if d < |s.clicks| { assert ClickOk(s, d); } }
    forall i | i in t.claims ensures ClaimOk(t, i) { assert ClaimOk(s, i); }
  }

  lemma {:induction false} AlwaysInv(events: seq<Event>)
    ensures Inv(After(events))
    decreases |events|
  {
    if events != [] {
      AlwaysInv(events[..|events| - 1]);
      ApplyKeeps(After(events[..|events| - 1]), events[|events| - 1]);
    }
  }

  // -- the approval as a latch ------------------------------------------------------------

  function Abs(s: State, id: nat): L.Latch {
    if id in s.claims then L.Taken(s.claims[id].click)
    else if id < |s.rows| && !s.rows[id].status.Pending? then L.Shut
    else L.Open
  }

  /** Every step of the protocol is a step of the latch, for every approval. */
  lemma RefinesLatch(s: State, e: Event, id: nat)
    requires Inv(s)
    ensures L.Next(Abs(s, id), Abs(Apply(s, e), id))
  {
    if id in s.claims { assert ClaimOk(s, id); }
    if e.Move? && e.click < |s.clicks| && s.clicks[e.click].Updating? {
      assert ClickOk(s, e.click);
      var i := s.clicks[e.click].id;
      if i in s.claims { assert ClaimOk(s, i); }
    }
  }

  // -- main results ---------------------------------------------------------------------------

  /** A click that was answered `valid`. */
  predicate AnsweredValid(k: Click) { k.Won? || k.Running? || k.Reported? || k.Broken? }

  /** Under any interleaving, at most one click per approval is answered `valid`. */
  lemma AtMostOneValid(events: seq<Event>, c: nat, d: nat)
    requires var s := After(events);
      c < |s.clicks| && d < |s.clicks| && AnsweredValid(s.clicks[c]) && AnsweredValid(s.clicks[d])
      && s.clicks[c].id == s.clicks[d].id
    ensures c == d
  {
    AlwaysInv(events);
    var s := After(events);
    assert ClickOk(s, c) && ClickOk(s, d);
  }

  /** The clock the winner had read was strictly before the expiry. */
  lemma WinnerInTime(events: seq<Event>, c: nat)
    requires var s := After(events); c < |s.clicks| && AnsweredValid(s.clicks[c])
    ensures var s := After(events); var id := s.clicks[c].id;
      id in s.claims && id < |s.rows| && s.claims[id].click == c && s.claims[id].now < s.rows[id].expiresAt
      && !s.rows[id].status.Pending?
  {
    AlwaysInv(events);
    var s := After(events);
    assert ClickOk(s, c);
    assert ClaimOk(s, s.clicks[c].id);
  }

  /** `used` is answered only for an approval that is off `pending`, and `Answered` never carries `valid`. */
  lemma UsedIsResolved(events: seq<Event>, c: nat)
    requires var s := After(events); c < |s.clicks| && s.clicks[c].Answered?
    ensures var s := After(events);
      s.clicks[c].state != Valid
      && (s.clicks[c].state == Used ==>
            s.clicks[c].approval.Some? && s.clicks[c].approval.value < |s.rows|
            && !s.rows[s.clicks[c].approval.value].status.Pending?)
  {
    AlwaysInv(events);
    assert ClickOk(After(events), c);
  }

  /** The executor starts at most once per approval, and only for one that an Approve click won. */
  lemma RunsOnce(events: seq<Event>)
    ensures var s := After(events);
      (forall i, j :: 0 <= i < j < |s.runs| ==> s.runs[i] != s.runs[j])
      && forall i :: 0 <= i < |s.runs| ==> s.runs[i] in s.claims && s.claims[s.runs[i]].action == Approve
  {
    AlwaysInv(events);
    var s := After(events);
    forall i | 0 <= i < |s.runs| ensures s.claims[s.runs[i]].action == Approve {
      assert ClaimOk(s, s.runs[i]);
    }
  }

  function Seen(events: seq<Event>, id: nat): nat -> L.Latch {
    (n: nat) => if n <= |events| then Abs(After(events[..n]), id) else L.Open
  }

  lemma StepOfRun(events: seq<Event>, id: nat, n: nat)
    requires n < |events|
    ensures L.Next(Seen(events, id)(n), Seen(events, id)(n + 1))
  {
    var before := events[..n];
    assert events[..n + 1][..n] == before && events[..n + 1][n] == events[n];
    AlwaysInv(before);
    RefinesLatch(After(before), events[n], id);
  }

  /** After `n` events, `c` is a click answered `valid` for `id`. */
  predicate Winner(events: seq<Event>, id: nat, n: nat, c: nat) {
    n <= |events| && c < |After(events[..n]).clicks|
    && AnsweredValid(After(events[..n]).clicks[c]) && After(events[..n]).clicks[c].id == id
  }

  /**
   * Over a whole run each approval behaves as the latch: who resolved it, if
   * anyone, never changes afterwards, and a click answered `valid` at any
   * moment of the run is who took it.
   */
  lemma RunIsLatch(events: seq<Event>, id: nat)
    ensures L.Behaviour(L.TraceOf(|events|, Seen(events, id)))
    ensures forall n: nat, c: nat :: Winner(events, id, n, c) ==> L.TraceOf(|events|, Seen(events, id))[n] == L.Taken(c)
  {
    forall n | 0 <= n < |events| ensures L.Next(Seen(events, id)(n), Seen(events, id)(n + 1)) { StepOfRun(events, id, n); }
    L.StepsBehave(|events|, Seen(events, id));
    forall n: nat, c: nat | Winner(events, id, n, c)
      ensures Seen(events, id)(n) == L.Taken(c)
    {
      AlwaysInv(events[..n]);
      assert ClickOk(After(events[..n]), c);
    }
  }

  /** An approval that was cancelled, or expired unanswered, at some moment of a run is never run after it. */
  lemma ResolvedOtherwiseNeverRuns(events: seq<Event>, n: nat, id: nat)
    requires n <= |events|
    requires var s := After(events[..n]);
      id < |s.rows| && !s.rows[id].status.Pending? && (id in s.claims ==> s.claims[id].action == Cancel)
    ensures id !in After(events).runs
  {
    RunIsLatch(events, id);
    var trace := L.TraceOf(|events|, Seen(events, id));
    L.Settled(trace, n, |events|);
    assert events[..|events|] == events;
    RunsOnce(events);
    var s, t := After(events[..n]), After(events);
    AlwaysInv(events[..n]);
    AlwaysInv(events);
    if id in t.runs {
      assert id in t.claims && id in s.claims;
      ClaimActionStays(events, n, id);
    }
  }

  lemma {:induction false} ClaimActionStays(events: seq<Event>, n: nat, id: nat)
    requires n <= |events| && id in After(events[..n]).claims
    ensures id in After(events).claims && After(events).claims[id] == After(events[..n]).claims[id]
    decreases |events| - n
  {
    if n == |events| {
      assert events[..n] == events;
    } else {
      var s := After(events[..n]);
      AlwaysInv(events[..n]);
      assert ClaimOk(s, id);
      assert events[..n + 1][..n] == events[..n] && events[..n + 1][n] == events[n];
      ClaimStep(s, events[n], id);
      ClaimActionStays(events, n + 1, id);
    }
  }

  lemma ClaimStep(s: State, e: Event, id: nat)
    requires Inv(s) && id in s.claims
    ensures id in Apply(s, e).claims && Apply(s, e).claims[id] == s.claims[id]
  {
    assert ClaimOk(s, id);
  }
}
