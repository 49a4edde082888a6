/**
 * Any number of confirms and expiry purges, interleaved step by step with each
 * other, with the clock and with new requests. Each step is one read, one clock
 * reading or one conditional UPDATE of `confirm`, `purge_expired` and
 * `dockhand_action_confirm`.
 */
module DockhandProtocol {
  import opened Wrappers
  import opened DockhandGate
  import L = Latch

  /** Where one confirm, or one row of a purge, is. */
  datatype Client =
    | Arrived(id: nat, answer: Option<int>)
    | Loaded(id: nat, answer: Option<int>, row: Row)  // row read and pending; the clock is next
    | Closing(id: nat, status: Status)                // refused or purged: UPDATE is next
    | Claiming(id: nat, answer: Option<int>)          // right and in time: the second clock reading is next
    | Updating(id: nat, answer: Option<int>, now: nat) // the claiming UPDATE is next
    | Held(id: nat, answer: Option<int>, now: nat)    // claimed; the re-read is next
    | Returned(id: nat, row: Row)                     // `confirm` has returned this row; the call is next
    | Called(id: nat)                                 // the action ran; `finish` is next
    | Done(id: nat)
    | Refusal(id: nat)

  datatype Claim = Claim(client: nat, answer: Option<int>, now: nat)

  /** An action that ran: the challenge it was stored under, and what was called. */
  datatype Run = Run(id: nat, request: Request)

  /** `requests`, `claims` and `runs` record history and are read by no step. */
  datatype State = State(
    rows: seq<Row>,
    clock: nat,
    clients: seq<Client>,
    requests: seq<Request>,
    claims: map<nat, Claim>,
    runs: seq<Run>)

  datatype Event =
    | Tick(seconds: nat)
    | Ask(request: Request, x: nat, y: nat, expiresAt: nat)
    | Confirm(id: nat, answer: Option<int>)
    | Purge(id: nat)
    | Move(client: nat)
    | Finish(client: nat, ok: bool, summary: string)

  const INIT := State([], 0, [], [], map[], [])

  /** A client's next step. */
  function Moved(s: State, c: nat): State
    requires c < |s.clients|
  {
    match s.clients[c]
    case Arrived(id, answer) =>
      s.(clients := s.clients[c := if id < |s.rows| && s.rows[id].status.Pending? then Loaded(id, answer, s.rows[id])
                                   else Refusal(id)])
    case Loaded(id, answer, row) =>
      s.(clients := s.clients[c := if IsPast(row.expiresAt, s.clock) then Closing(id, Expired)
                                   else if !Correct(row, answer) then Closing(id, WrongAnswer)
                                   else Claiming(id, answer)])
    case Closing(id, status) =>
      if id < |s.rows| then
        s.(rows := s.rows[id := Resolved(s.rows[id], status, s.clock)], clients := s.clients[c := Refusal(id)])
      else s
    case Claiming(id, answer) => s.(clients := s.clients[c := Updating(id, answer, s.clock)])
    case Updating(id, answer, now) =>
      if id < |s.rows| && Claimable(s.rows[id], now) then
        s.(rows := s.rows[id := Resolved(s.rows[id], Executing, now)],
           clients := s.clients[c := Held(id, answer, now)],
           claims := s.claims[id := Claim(c, answer, now)])
      else s.(clients := s.clients[c := Refusal(id)])
    case Held(id, answer, now) =>
      if id < |s.rows| then s.(clients := s.clients[c := Returned(id, s.rows[id])]) else s
    case Returned(id, row) => s.(clients := s.clients[c := Called(id)], runs := s.runs + [Run(id, row.request)])
    case _ => s
  }

  function Apply(s: State, e: Event): State {
    match e
    case Tick(seconds) => s.(clock := s.clock + seconds)
    case Ask(request, x, y, expiresAt) =>
      s.(rows := s.rows + [Row(request, x, y, expiresAt, Pending, None, None)], requests := s.requests + [request])
    case Confirm(id, answer) => s.(clients := s.clients + [Arrived(id, answer)])
    case Purge(id) =>
      if id < |s.rows| && s.rows[id].status.Pending? && IsPast(s.rows[id].expiresAt, s.clock) then
        s.(clients := s.clients + [Closing(id, Expired)])
      else s
    case Move(c) => if c < |s.clients| then Moved(s, c) else s
    case Finish(c, ok, summary) =>
      if c < |s.clients| && s.clients[c].Called? && s.clients[c].id < |s.rows| then
        var id := s.clients[c].id;
        s.(rows := s.rows[id := Finished(s.rows[id], ok, summary, s.clock)], clients := s.clients[c := Done(id)])
      else s
  }

  function After(events: seq<Event>): State
    decreases |events|
  {
    if events == [] then INIT else Apply(After(events[..|events| - 1]), events[|events| - 1])
  }

  // -- what every step keeps ---------------------------------------------------------

  /** The client that has claimed a challenge. */
  predicate Holds(k: Client) { k.Held? || k.Returned? || k.Called? || k.Done? }

  /** The action has been called. */
  predicate Ran(k: Client) { k.Called? || k.Done? }

  predicate ClientOk(s: State, c: nat)
    requires c < |s.clients|
  {
    var k := s.clients[c];
    (Holds(k) ==> k.id in s.claims && s.claims[k.id].client == c)
    && (!k.Arrived? && !k.Refusal? ==> k.id < |s.rows|)
    && (k.Loaded? ==> SameChallenge(k.row, s.rows[k.id]))
    && (k.Closing? ==> k.status == Expired || k.status == WrongAnswer)
    && (k.Claiming? || k.Updating? ==> Correct(s.rows[k.id], k.answer))
    && (k.Returned? ==> k.row.request == s.rows[k.id].request)
  }

  /** The parts of a row that no step changes. */
  predicate SameChallenge(a: Row, b: Row) {
    a.request == b.request && a.x == b.x && a.y == b.y && a.expiresAt == b.expiresAt
  }

  predicate ClaimOk(s: State, id: nat)
    requires id in s.claims
  {
    var claim := s.claims[id];
    id < |s.rows| && s.rows[id].status in {Executing, Executed, Failed}
    && claim.now < s.rows[id].expiresAt && Correct(s.rows[id], claim.answer)
    && claim.client < |s.clients| && Holds(s.clients[claim.client]) && s.clients[claim.client].id == id
    && (s.rows[id].status.Executing? <==> !s.clients[claim.client].Done?)
  }

  predicate RowOk(s: State, id: nat)
    requires id < |s.rows|
  {
    id < |s.requests| && s.rows[id].request == s.requests[id]
    && (s.rows[id].status in {Executing, Executed, Failed} ==> id in s.claims)
  }

  predicate RunOk(s: State, r: Run) {
    r.id in s.claims && r.id < |s.requests| && r.request == s.requests[r.id]
    && s.claims[r.id].client < |s.clients| && Ran(s.clients[s.claims[r.id].client])
  }

  ghost predicate Inv(s: State) {
    (forall c :: 0 <= c < |s.clients| ==> ClientOk(s, c))
    && (forall id :: id in s.claims ==> ClaimOk(s, id))
    && |s.rows| == |s.requests|
    && (forall id :: 0 <= id < |s.rows| ==> RowOk(s, id))
    && (forall i :: 0 <= i < |s.runs| ==> RunOk(s, s.runs[i]))
    && (forall i, j :: 0 <= i < j < |s.runs| ==> s.runs[i].id != s.runs[j].id)
  }

  /** A step of one client that holds no claim and takes none, with perhaps one pending row closed. */
  lemma Walks(s: State, c: nat, k: Client, id: nat, row: Row)
    requires Inv(s) && c < |s.clients| && !Holds(s.clients[c]) && !Holds(k)
    requires id < |s.rows| ==> SameChallenge(row, s.rows[id]) && (row == s.rows[id] || (s.rows[id].status.Pending? && row.status in {Expired, WrongAnswer}))
    requires var t := s.(clients := s.clients[c := k], rows := if id < |s.rows| then s.rows[id := row] else s.rows); ClientOk(t, c)
    ensures Inv(s.(clients := s.clients[c := k], rows := if id < |s.rows| then s.rows[id := row] else s.rows))
  {
    var t := s.(clients := s.clients[c := k], rows := if id < |s.rows| then s.rows[id := row] else s.rows);
    forall d | 0 <= d < |t.clients| ensures ClientOk(t, d) { assert ClientOk(s, d); }
    forall i | i in t.claims ensures ClaimOk(t, i) { assert ClaimOk(s, i); }
    forall i | 0 <= i < |t.rows| ensures RowOk(t, i) { assert RowOk(s, i); }
    forall i | 0 <= i < |t.runs| ensures RunOk(t, t.runs[i]) { assert RunOk(s, s.runs[i]); }
  }

  lemma ClaimKeeps(s: State, c: nat)
    requires Inv(s) && c < |s.clients| && s.clients[c].Updating?
    requires s.clients[c].id < |s.rows| && Claimable(s.rows[s.clients[c].id], s.clients[c].now)
    ensures Inv(Moved(s, c))
  {
    var t, id := Moved(s, c), s.clients[c].id;
    assert ClientOk(s, c);
    assert forall i :: i in s.claims ==> ClaimOk(s, i);
    assert id !in s.claims;
    forall d | 0 <= d < |t.clients| ensures ClientOk(t, d) { assert ClientOk(s, d); }
    forall i | i in t.claims ensures ClaimOk(t, i) { if i != id { assert ClaimOk(s, i); } }
    forall i | 0 <= i < |t.rows| ensures RowOk(t, i) { assert RowOk(s, i); }
    forall i | 0 <= i < |t.runs| ensures RunOk(t, t.runs[i]) { assert RunOk(s, s.runs[i]); }
  }

  /** The client that holds a claim moves on, short of finishing. */
  lemma HolderMoves(s: State, c: nat, k: Client)
    requires Inv(s) && c < |s.clients| && Holds(s.clients[c]) && Holds(k) && k.id == s.clients[c].id
    requires !k.Done? && !s.clients[c].Done? && (Ran(s.clients[c]) ==> Ran(k))
    requires k.Returned? ==> k.id < |s.rows| && k.row.request == s.rows[k.id].request
    ensures Inv(s.(clients := s.clients[c := k]))
  {
    var t := s.(clients := s.clients[c := k]);
    assert ClientOk(s, c);
    forall d | 0 <= d < |t.clients| ensures ClientOk(t, d) { assert ClientOk(s, d); }
    forall i | i in t.claims ensures ClaimOk(t, i) { assert ClaimOk(s, i); }
    forall i | 0 <= i < |t.rows| ensures RowOk(t, i) { assert RowOk(s, i); }
    forall i | 0 <= i < |t.runs| ensures RunOk(t, t.runs[i]) { assert RunOk(s, s.runs[i]); }
  }

  lemma CallKeeps(s: State, c: nat)
    requires Inv(s) && c < |s.clients| && s.clients[c].Returned?
    ensures Inv(Moved(s, c))
  {
    var id := s.clients[c].id;
    assert ClientOk(s, c);
    assert RowOk(s, id);
    assert ClaimOk(s, id);
    HolderMoves(s, c, Called(id));
    var u, t := s.(clients := s.clients[c := Called(id)]), Moved(s, c);
    forall i | 0 <= i < |s.runs| ensures s.runs[i].id != id { assert RunOk(s, s.runs[i]); }
    forall d | 0 <= d < |t.clients| ensures ClientOk(t, d) { assert ClientOk(u, d); }
    forall i | i in t.claims ensures ClaimOk(t, i) { assert ClaimOk(u, i); }
    forall i | 0 <= i < |t.rows| ensures RowOk(t, i) { assert RowOk(u, i); }
    forall i | 0 <= i < |t.runs| ensures RunOk(t, t.runs[i]) { if i < |s.runs| { assert RunOk(u, u.runs[i]); } }
  }

  lemma FinishKeeps(s: State, c: nat, ok: bool, summary: string)
    requires Inv(s) && c < |s.clients| && s.clients[c].Called?
    ensures Inv(Apply(s, Finish(c, ok, summary)))
  {
    var t, id := Apply(s, Finish(c, ok, summary)), s.clients[c].id;
    assert ClientOk(s, c);
    assert ClaimOk(s, id);
    forall d | 0 <= d < |t.clients| ensures ClientOk(t, d) { assert ClientOk(s, d); }
    forall i | i in t.claims ensures ClaimOk(t, i) { assert ClaimOk(s, i); }
    forall i | 0 <= i < |t.rows| ensures RowOk(t, i) { assert RowOk(s, i); }
    forall i | 0 <= i < |t.runs| ensures RunOk(t, t.runs[i]) { assert RunOk(s, s.runs[i]); }
  }

  lemma MovedKeeps(s: State, c: nat)
    requires Inv(s) && c < |s.clients|
    ensures Inv(Moved(s, c))
  {
    assert ClientOk(s, c);
    var same := |s.rows|;
    var nobody := if s.rows != [] then s.rows[0] else Row(Request("", "", "", "", false), 0, 0, 0, Pending, None, None);
    match s.clients[c]
    case Arrived(id, answer) => Walks(s, c, Moved(s, c).clients[c], same, nobody);
    case Loaded(id, answer, row) => Walks(s, c, Moved(s, c).clients[c], same, nobody);
    case Closing(id, status) => Walks(s, c, Refusal(id), id, Resolved(s.rows[id], status, s.clock));
    case Claiming(id, answer) => Walks(s, c, Updating(id, answer, s.clock), same, nobody);
    case Updating(id, answer, now) =>
      if Claimable(s.rows[id], now) { ClaimKeeps(s, c); } else { Walks(s, c, Refusal(id), same, nobody); }
    case Held(id, answer, now) => HolderMoves(s, c, Returned(id, s.rows[id]));
    case Returned(id, row) => CallKeeps(s, c);
    case Called(_) =>
    case Done(_) =>
    case Refusal(_) =>
  }

  /** The clock, new rows and new clients disturb nothing. */
  lemma Grows(s: State, clock: nat, rows: seq<Row>, requests: seq<Request>, clients: seq<Client>)
    requires Inv(s) && |rows| == |requests|
    requires forall i :: 0 <= i < |rows| ==> rows[i].status.Pending? && rows[i].request == requests[i]
    requires forall i :: 0 <= i < |clients| ==>
      clients[i].Arrived? || (clients[i].Closing? && clients[i].status == Expired && clients[i].id < |s.rows|)
    ensures Inv(s.(clock := clock, rows := s.rows + rows, requests := s.requests + requests, clients := s.clients + clients))
  {
    var t := s.(clock := clock, rows := s.rows + rows, requests := s.requests + requests, clients := s.clients + clients);
    forall d | 0 <= d < |t.clients| ensures ClientOk(t, d) { if d < |s.clients| { assert ClientOk(s, d); } }
    forall i | i in t.claims ensures ClaimOk(t, i) { assert ClaimOk(s, i); }
    forall i | 0 <= i < |t.rows| ensures RowOk(t, i) { if i < |s.rows| { assert RowOk(s, i); } }
    forall i | 0 <= i < |t.runs| ensures RunOk(t, t.runs[i]) { assert RunOk(s, s.runs[i]); }
  }

  lemma ApplyKeeps(s: State, e: Event)
    requires Inv(s)
    ensures Inv(Apply(s, e))
  {
    assert s.rows + [] == s.rows && s.requests + [] == s.requests && s.clients + [] == s.clients;
    match e
    case Tick(seconds) => Grows(s, s.clock + seconds, [], [], []);
    case Ask(request, x, y, expiresAt) =>
      Grows(s, s.clock, [Row(request, x, y, expiresAt, Pending, None, None)], [request], []);
    case Confirm(id, answer) => Grows(s, s.clock, [], [], [Arrived(id, answer)]);
    case Purge(id) =>
      if id < |s.rows| { Grows(s, s.clock, [], [], [Closing(id, Expired)]); }
    case Move(c) => if c < |s.clients| { MovedKeeps(s, c); }
    case Finish(c, ok, summary) =>
      if c < |s.clients| && s.clients[c].Called? { FinishKeeps(s, c, ok, summary); }
  }

  lemma {:induction false} AlwaysInv(events: seq<Event>)
    ensures Inv(After(events))
    decreases |events|
  {
    if events != [] {
      AlwaysInv(events[..|events| - 1]);
      ApplyKeeps(After(events[..|events| - 1]), events[|events| - 1]);
    }
  }

  // -- the challenge as a latch ------------------------------------------------------------

  function Abs(s: State, id: nat): L.Latch {
    if id in s.claims then L.Taken(s.claims[id].client)
    else if id < |s.rows| && !s.rows[id].status.Pending? then L.Shut
    else L.Open
  }

  /** Every step of the protocol is a step of the latch, for every challenge. */
  lemma RefinesLatch(s: State, e: Event, id: nat)
    requires Inv(s)
    ensures L.Next(Abs(s, id), Abs(Apply(s, e), id))
  {
    assert forall i :: i in s.claims ==> ClaimOk(s, i);
    assert forall i :: 0 <= i < |s.rows| ==> RowOk(s, i);
    if e.Move? && e.client < |s.clients| { assert ClientOk(s, e.client); }
  }

  function Seen(events: seq<Event>, id: nat): nat -> L.Latch {
    (n: nat) => if n <= |events| then Abs(After(events[..n]), id) else L.Open
  }

  lemma StepOfRun(events: seq<Event>, id: nat, n: nat)
    requires n < |events|
    ensures L.Next(Seen(events, id)(n), Seen(events, id)(n + 1))
  {
    var before := events[..n];
    assert events[..n + 1][..n] == before && events[..n + 1][n] == events[n];
    AlwaysInv(before);
    RefinesLatch(After(before), events[n], id);
  }

  /** After `n` events, `c` is a confirm that returned for `id`. */
  predicate Winner(events: seq<Event>, id: nat, n: nat, c: nat) {
    n <= |events| && c < |After(events[..n]).clients|
    && Holds(After(events[..n]).clients[c]) && After(events[..n]).clients[c].id == id
  }

  /** Over a whole run each challenge behaves as the latch, and a confirm that returned at any moment of it is who took it. */
  lemma RunIsLatch(events: seq<Event>, id: nat)
    ensures L.Behaviour(L.TraceOf(|events|, Seen(events, id)))
    ensures forall n: nat, c: nat :: Winner(events, id, n, c) ==> L.TraceOf(|events|, Seen(events, id))[n] == L.Taken(c)
  {
    forall n | 0 <= n < |events| ensures L.Next(Seen(events, id)(n), Seen(events, id)(n + 1)) { StepOfRun(events, id, n); }
    L.StepsBehave(|events|, Seen(events, id));
    forall n: nat, c: nat | Winner(events, id, n, c)
      ensures Seen(events, id)(n) == L.Taken(c)
    {
      AlwaysInv(events[..n]);
      assert ClientOk(After(events[..n]), c);
    }
  }

  // -- main results ---------------------------------------------------------------------------

  /** At most one confirm of a challenge ever returns. */
  lemma AtMostOneReturns(events: seq<Event>, c: nat, d: nat)
    requires var s := After(events);
      c < |s.clients| && d < |s.clients| && Holds(s.clients[c]) && Holds(s.clients[d]) && s.clients[c].id == s.clients[d].id
    ensures c == d
  {
    AlwaysInv(events);
    assert ClientOk(After(events), c) && ClientOk(After(events), d);
  }

  /** The one that returns answered correctly, and the clock it claimed at was before the expiry. */
  lemma WinnerWasRight(events: seq<Event>, c: nat)
    requires var s := After(events); c < |s.clients| && Holds(s.clients[c])
    ensures var s := After(events); var id := s.clients[c].id;
      id in s.claims && id < |s.rows| && s.claims[id].client == c
      && s.claims[id].now < s.rows[id].expiresAt && s.claims[id].answer == Some(s.rows[id].x + s.rows[id].y)
  {
    AlwaysInv(events);
    assert ClientOk(After(events), c);
    assert ClaimOk(After(events), After(events).clients[c].id);
  }

  /** Each challenge's action runs at most once, and what runs is what was requested under it. */
  lemma RunsTheStoredAction(events: seq<Event>)
    ensures var s := After(events);
      (forall i, j :: 0 <= i < j < |s.runs| ==> s.runs[i].id != s.runs[j].id)
      && forall i :: 0 <= i < |s.runs| ==> s.runs[i].id < |Asked(events)| && s.runs[i].request == Asked(events)[s.runs[i].id]
  {
    AlwaysInv(events);
    RequestsAreAsked(events);
    var s := After(events);
    forall i | 0 <= i < |s.runs|
      ensures s.runs[i].id < |s.requests| && s.runs[i].request == s.requests[s.runs[i].id]
    {
      assert RunOk(s, s.runs[i]);
    }
  }

  /** What was requested in a run, in order. */
  function Asked(events: seq<Event>): seq<Request>
    decreases |events|
  {
    if events == [] then []
    else
      var last := events[|events| - 1];
      Asked(events[..|events| - 1]) + if last.Ask? then [last.request] else []
  }

  /** The requests on record are the ones made, in order: no step rewrites one. */
  lemma {:induction false} RequestsAreAsked(events: seq<Event>)
    ensures After(events).requests == Asked(events)
    decreases |events|
  {
    if events != [] {
      RequestsAreAsked(events[..|events| - 1]);
      RequestsAppendOnly(After(events[..|events| - 1]), events[|events| - 1]);
    }
  }

  lemma RequestsAppendOnly(s: State, e: Event)
    ensures Apply(s, e).requests == s.requests + if e.Ask? then [e.request] else []
  {
    assert s.requests + [] == s.requests;
  }

  /** A challenge closed by a wrong answer or by expiry at some moment never runs, whatever follows. */
  lemma ClosedNeverRuns(events: seq<Event>, n: nat, id: nat, i: nat)
    requires n <= |events| && i < |After(events).runs|
    requires var s := After(events[..n]); id < |s.rows| && s.rows[id].status in {WrongAnswer, Expired}
    ensures After(events).runs[i].id != id
  {
    AlwaysInv(events[..n]);
    AlwaysInv(events);
    RunIsLatch(events, id);
    var s, t := After(events[..n]), After(events);
    assert forall j :: j in s.claims ==> ClaimOk(s, j);
    L.Settled(L.TraceOf(|events|, Seen(events, id)), n, |events|);
    assert events[..|events|] == events;
    assert RunOk(t, t.runs[i]);
  }

  /** `finish` moves a row that is executing and no other. */
  lemma FinishMovesExecutingOnly(s: State, c: nat, ok: bool, summary: string, id: nat)
    requires id < |s.rows| && Apply(s, Finish(c, ok, summary)).rows[id] != s.rows[id]
    ensures s.rows[id].status.Executing? && c < |s.clients| && s.clients[c] == Called(id)
    ensures Apply(s, Finish(c, ok, summary)).rows[id].status == if ok then Executed else Failed
  {
  }

  /** What a confirm makes of the row it read: the sum of the two numbers, in time, is what goes on to the claim. */
  lemma AnswerJudged(s: State, c: nat)
    requires c < |s.clients| && s.clients[c].Loaded?
    ensures var row, id, answer := s.clients[c].row, s.clients[c].id, s.clients[c].answer;
      Moved(s, c) == s.(clients := s.clients[c :=
        if row.expiresAt < s.clock then Closing(id, Expired)
        else if answer == Some(row.x + row.y) then Claiming(id, answer)
        else Closing(id, WrongAnswer)])
  {
  }

  /** The claim goes through exactly for a row that is pending and in time, and a closing that comes too late closes nothing. */
  lemma UpdateIsConditional(s: State, c: nat)
    requires c < |s.clients| && s.clients[c].id < |s.rows|
    ensures var id := s.clients[c].id; var row := s.rows[id];
      s.clients[c].Updating? ==>
        Moved(s, c).rows ==
          if row.status == Pending && s.clients[c].now < row.expiresAt then
            s.rows[id := row.(status := Executing, resolvedAt := Some(s.clients[c].now), result := None)]
          else s.rows
    ensures var id := s.clients[c].id; var row := s.rows[id];
      s.clients[c].Closing? ==>
        Moved(s, c).rows ==
          if row.status == Pending then
            s.rows[id := row.(status := s.clients[c].status, resolvedAt := Some(s.clock), result := None)]
          else s.rows
  {
  }
}
