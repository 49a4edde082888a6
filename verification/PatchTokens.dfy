/**
 * Over whole runs of the approval protocol: what every click does goes back to
 * the token it arrived with. An executor runs only for an approval whose own
 * approve token was clicked, whatever else happens in between.
 */
module PatchTokens {
  import opened Wrappers
  import opened PatchApproval
  import opened PatchProtocol

  /** What the clicks arrived with, in order. */
  function Arrivals(events: seq<Event>): seq<(string, Action)> {
    if events == [] then []
    else
      var last := events[|events| - 1];
      Arrivals(events[..|events| - 1]) + if last.Arrive? then [(last.token, last.action)] else []
  }

  /** The approval was found under that token. */
  predicate Found(s: State, id: nat, token: string, action: Action) {
    id < |s.rows| && 0 < |token| <= 128 && Opens(token, action, s.rows[id])
  }

  /** Whatever the click has got to, it is still about the approval its token opens. */
  predicate Faithful(s: State, k: Click, token: string, action: Action) {
    match k
    case Arrived(t, a) => t == token && a == action
    case Looked(id, a, _) => a == action && Found(s, id, token, action)
    case Expiring(id) => Found(s, id, token, action)
    case Claiming(id, a) => a == action && Found(s, id, token, action)
    case Updating(id, a, _) => a == action && Found(s, id, token, action)
    case Updated(id, a, _, _) => a == action && Found(s, id, token, action)
    case Lapsing(id) => Found(s, id, token, action)
    case Answered(id, _) => id.Some? ==> Found(s, id.value, token, action)
    case Won(id, a, _) => a == action && Found(s, id, token, action)
    case Running(id) => action == Approve && Found(s, id, token, action)
    case Reported(id) => action == Approve && Found(s, id, token, action)
    case Broken(id) => Found(s, id, token, action)
  }

  ghost predicate AllFaithful(s: State, arrivals: seq<(string, Action)>) {
    |s.clicks| == |arrivals|
    && forall c :: 0 <= c < |arrivals| ==> Faithful(s, s.clicks[c], arrivals[c].0, arrivals[c].1)
  }

  /** The tokens of an approval are those it was created with. */
  ghost predicate TokensKept(s: State, t: State) {
    |s.rows| <= |t.rows|
    && forall id :: 0 <= id < |s.rows| ==>
         t.rows[id].approveToken == s.rows[id].approveToken && t.rows[id].cancelToken == s.rows[id].cancelToken
         && t.rows[id].expiresAt == s.rows[id].expiresAt
  }

  lemma StepKeepsTokens(s: State, e: Event)
    ensures TokensKept(s, Apply(s, e))
  {
  }

  lemma FaithfulStays(s: State, t: State, k: Click, token: string, action: Action)
    requires TokensKept(s, t) && Faithful(s, k, token, action)
    ensures Faithful(t, k, token, action)
  {
  }

  /** One click's own step. */
  lemma MoveStaysFaithful(s: State, c: nat, token: string, action: Action)
    requires c < |s.clicks| && Faithful(s, s.clicks[c], token, action)
    ensures Faithful(s, Moved(s, c).clicks[c], token, action)
    ensures |Moved(s, c).clicks| == |s.clicks| && forall d :: 0 <= d < |s.clicks| && d != c ==> Moved(s, c).clicks[d] == s.clicks[d]
  {
  }

  lemma StepStaysFaithful(s: State, e: Event, arrivals: seq<(string, Action)>)
    requires AllFaithful(s, arrivals)
    ensures AllFaithful(Apply(s, e), arrivals + if e.Arrive? then [(e.token, e.action)] else [])
  {
    var t := Apply(s, e);
    StepKeepsTokens(s, e);
    if e.Move? && e.click < |s.clicks| { MoveStaysFaithful(s, e.click, arrivals[e.click].0, arrivals[e.click].1); }
    forall c | 0 <= c < |arrivals| ensures Faithful(t, t.clicks[c], arrivals[c].0, arrivals[c].1) {
      hide Faithful;
      if t.clicks[c] == s.clicks[c] {
        FaithfulStays(s, t, s.clicks[c], arrivals[c].0, arrivals[c].1);
      } else if e.Move? {
        FaithfulStays(s, t, t.clicks[c], arrivals[c].0, arrivals[c].1);
      } else {
        EndsFaithful(s, e, c, arrivals[c].0, arrivals[c].1);
        FaithfulStays(s, t, t.clicks[c], arrivals[c].0, arrivals[c].1);
      }
    }
  }

  lemma EndsFaithful(s: State, e: Event, c: nat, token: string, action: Action)
    requires c < |s.clicks| && Faithful(s, s.clicks[c], token, action) && (e.BreakDown? || e.Finish?)
    requires |Apply(s, e).clicks| == |s.clicks| && Apply(s, e).clicks[c] != s.clicks[c]
    ensures Faithful(s, Apply(s, e).clicks[c], token, action)
  {
  }

  lemma {:induction false} AlwaysFaithful(events: seq<Event>)
    ensures AllFaithful(After(events), Arrivals(events))
    decreases |events|
  {
    if events != [] {
      var before := events[..|events| - 1];
      AlwaysFaithful(before);
      StepStaysFaithful(After(before), events[|events| - 1], Arrivals(before));
      assert events == before + [events[|events| - 1]];
    }
  }

  // -- main results -----------------------------------------------------------------------

  /** In every run, each executor that ran was started by a click that arrived with that approval's approve token. */
  lemma RunsWereApproved(events: seq<Event>, i: nat)
    requires i < |After(events).runs|
    ensures var s := After(events);
      s.runs[i] < |s.rows|
      && exists c: nat :: c < |Arrivals(events)| && Arrivals(events)[c] == (s.rows[s.runs[i]].approveToken, Approve)
                          && c < |s.clicks| && AnsweredValid(s.clicks[c]) && s.clicks[c].id == s.runs[i]
  {
    AlwaysInv(events);
    AlwaysFaithful(events);
    var s := After(events);
    var id := s.runs[i];
    assert ClaimOk(s, id);
    var c := s.claims[id].click;
    assert Faithful(s, s.clicks[c], Arrivals(events)[c].0, Arrivals(events)[c].1);
  }

  /** A click answered `valid` arrived with the token of that approval for that action, and is the only one that was. */
  lemma ValidMeansOwnToken(events: seq<Event>, c: nat)
    requires var s := After(events); c < |s.clicks| && AnsweredValid(s.clicks[c])
    ensures var s := After(events); var id := s.clicks[c].id;
      c < |Arrivals(events)| && id < |s.rows| && Opens(Arrivals(events)[c].0, Arrivals(events)[c].1, s.rows[id])
    ensures var s := After(events);
      TokensApart(s.rows) ==> forall id: nat, action: Action ::
        id < |s.rows| && Opens(Arrivals(events)[c].0, action, s.rows[id]) ==> id == s.clicks[c].id && action == Arrivals(events)[c].1
  {
    AlwaysInv(events);
    AlwaysFaithful(events);
    var s := After(events);
    assert ClickOk(s, c);
    assert Faithful(s, s.clicks[c], Arrivals(events)[c].0, Arrivals(events)[c].1);
  }

  /** A click that arrived with no approval's token for its action never resolves one. */
  lemma StrangersResolveNothing(events: seq<Event>, c: nat)
    requires c < |Arrivals(events)| && c < |After(events).clicks|
    requires forall id :: 0 <= id < |After(events).rows| ==>
      !Opens(Arrivals(events)[c].0, Arrivals(events)[c].1, After(events).rows[id])
    ensures !AnsweredValid(After(events).clicks[c])
    ensures forall id :: id in After(events).claims ==> After(events).claims[id].click != c
  {
    AlwaysInv(events);
    AlwaysFaithful(events);
    var s := After(events);
    assert Faithful(s, s.clicks[c], Arrivals(events)[c].0, Arrivals(events)[c].1);
    forall id | id in s.claims ensures s.claims[id].click != c { assert ClaimOk(s, id); }
    assert ClickOk(s, c);
  }

  /** An approve click leaves its approval approved, a cancel click cancelled, at the moment of its claim. */
  lemma ClaimSetsStatus(s: State, c: nat)
    requires c < |s.clicks| && s.clicks[c].Updating? && s.clicks[c].id < |s.rows|
    ensures var id, action, now := s.clicks[c].id, s.clicks[c].action, s.clicks[c].now; var row := s.rows[id];
      Moved(s, c).rows ==
        if row.status == Pending && now < row.expiresAt then
          s.rows[id := row.(status := match action case Approve => Approved case Cancel => Cancelled, resolvedAt := Some(now))]
        else s.rows
    ensures Moved(s, c).clicks[c].Updated?
      && (Moved(s, c).clicks[c].moved <==> s.rows[s.clicks[c].id].status == Pending && s.clicks[c].now < s.rows[s.clicks[c].id].expiresAt)
  {
  }

  /** What the lookup answers: a token of 1 to 128 characters that opens an approval goes on with it, any other is invalid. */
  lemma LookedUp(s: State, c: nat)
    requires c < |s.clicks| && s.clicks[c].Arrived?
    ensures var token, action, k := s.clicks[c].token, s.clicks[c].action, Moved(s, c).clicks[c];
      if 0 < |token| <= 128 && exists i :: 0 <= i < |s.rows| && Opens(token, action, s.rows[i]) then
        k.Looked? && k.id < |s.rows| && Opens(token, action, s.rows[k.id]) && k == Looked(k.id, action, s.rows[k.id])
      else k == Answered(None, Invalid)
    ensures Moved(s, c) == s.(clicks := s.clicks[c := Moved(s, c).clicks[c]])
  {
  }

  /** What the re-read answers a click whose update moved nothing: it lapsed if the approval is still pending, else it was used. */
  lemma SecondLook(s: State, c: nat)
    requires c < |s.clicks| && s.clicks[c].Updated? && s.clicks[c].id < |s.rows|
    ensures var id, k := s.clicks[c].id, s.clicks[c];
      Moved(s, c) == s.(clicks := s.clicks[c :=
        if k.moved then Won(id, k.action, k.now)
        else if s.rows[id].status == Pending then Lapsing(id)
        else Answered(Some(id), Used)])
  {
  }

  /** What the first look answers: the link still works until its expiry, has lapsed, or was used. */
  lemma FirstLook(s: State, c: nat)
    requires c < |s.clicks| && s.clicks[c].Looked?
    ensures var row, id := s.clicks[c].row, s.clicks[c].id;
      Moved(s, c) == s.(clicks := s.clicks[c :=
        if row.status == Pending && s.clock <= row.expiresAt then Claiming(id, s.clicks[c].action)
        else if row.status == Pending || row.status == Expired then Expiring(id)
        else Answered(Some(id), Used)])
  {
  }

  /** A finished executor records how it ended, and the time of the click stays. */
  lemma FinishRecords(s: State, c: nat, ok: bool, via: Option<string>, detail: Option<string>)
    requires c < |s.clicks| && s.clicks[c].Running? && s.clicks[c].id < |s.rows| && s.rows[s.clicks[c].id].resolvedAt.Some?
    ensures var id := s.clicks[c].id;
      Apply(s, Finish(c, ok, via, detail))
      == s.(rows := s.rows[id := s.rows[id].(status := if ok then Executed else Failed, executedVia := via, detail := detail)],
            clicks := s.clicks[c := Reported(id)])
  {
  }
}
