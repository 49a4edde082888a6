/**
 * What one report, one edit and one pass do to a service, told in the columns
 * themselves: which values a report may bring, which it may not override, and
 * between which two modes the conflict is raised.
 */
module RegistryReports {
  import opened Wrappers
  import opened RegistryModel
  import opened RegistryStore
  import opened RegistryRows
  import opened RegistryHistory
  import opened RegistryConflict

  // -- one report ------------------------------------------------------------------------------

  /** An absent or empty router, slug or host leaves the old one, and a slug pinned by hand stays. */
  lemma ReportNames(s: Service, d: Item)
    ensures Merge(s, d).router == if d.router == None || d.router == Some("") then s.router else d.router
    ensures Merge(s, d).host == if d.host == None || d.host == Some("") then s.host else d.host
    ensures Merge(s, d).slug == if d.slug == None || d.slug == Some("") || s.slugManual then s.slug else d.slug
  {
    hide MergedUrls;
  }

  /** Each source's mode is kept in that source's own column, and a report without a known mode changes none. */
  lemma ReportSetsModes(s: Service, d: Item)
    ensures d.authMode == None || d.authMode == Some(Unknown) ==>
      (Merge(s, d).authMode, Merge(s, d).traefikMode, Merge(s, d).authentikMode) == (s.authMode, s.traefikMode, s.authentikMode)
    ensures d.authMode != None && d.authMode != Some(Unknown) ==>
      Merge(s, d).traefikMode == (if d.source == Traefik then d.authMode else s.traefikMode)
      && Merge(s, d).authentikMode == if d.source == Authentik then d.authMode else s.authentikMode
    ensures d.authMode != None && d.authMode != Some(Unknown) && !(d.source == Traefik && d.authMode == Some(NoAuth)) ==>
      Some(Merge(s, d).authMode) == d.authMode
  {
    hide MergedUrls;
  }

  /**
   * Traefik seeing no middleware leaves the mode alone exactly where Authentik
   * has reported forward auth or an OAuth2 proxy; any other mode it demotes.
   */
  lemma BareReportDemotes(s: Service, d: Item)
    requires d.source == Traefik && d.authMode == Some(NoAuth)
    ensures Merge(s, d).authMode
         == if s.authentikMode == Some(ForwardAuth) || s.authentikMode == Some(Oauth2Proxy) then s.authMode else NoAuth
  {
    hide MergedUrls;
  }

  /** A report with nothing but known URLs leaves the list as it is; otherwise the list becomes the union, each URL once. */
  lemma ReportAddsUrls(s: Service, d: Item)
    ensures (forall u :: u in d.urls ==> u in s.urls) ==> Merge(s, d).urls == s.urls
    ensures forall u :: u in Merge(s, d).urls <==> u in s.urls || u in d.urls
    ensures Merge(s, d).urls == s.urls
         || forall i, j :: 0 <= i < j < |Merge(s, d).urls| ==> Merge(s, d).urls[i] != Merge(s, d).urls[j]
  {
    DedupeSame(s.urls + d.urls);
    hide Dedupe;
  }

  /** New URLs come after the old ones, in the order of the report. */
  lemma NewUrlsLast(s: Service, d: Item)
    requires forall i, j :: 0 <= i < j < |s.urls| + |d.urls| ==> (s.urls + d.urls)[i] != (s.urls + d.urls)[j]
    ensures Merge(s, d).urls == s.urls + d.urls
  {
    DedupeDistinct(s.urls + d.urls);
    MergeColumns(s, d);
    hide Merge;
    hide Dedupe;
    if d.urls == [] {
      assert s.urls + d.urls == s.urls;
    } else {
      NotYetThere(s.urls, d.urls);
    }
  }

  lemma NotYetThere(a: seq<string>, b: seq<string>)
    requires b != [] && forall i, j :: 0 <= i < j < |a| + |b| ==> (a + b)[i] != (a + b)[j]
    ensures !SameUrls(a + b, a)
  {
    assert (a + b)[|a|] == b[0] && b[0] in a + b;
    forall i | 0 <= i < |a| ensures a[i] != b[0] { assert (a + b)[i] == a[i]; }
  }

  lemma {:induction false} DedupeDistinct(xs: seq<string>)
    requires forall i, j :: 0 <= i < j < |xs| ==> xs[i] != xs[j]
    ensures Dedupe(xs) == xs
  {
    if xs != [] { DedupeDistinct(xs[..|xs| - 1]); }
  }

  /** The verdict of a report: on what is then in force once everything is known, else as it was. */
  lemma ReportJudges(s: Service, d: Item)
    ensures var t := Merge(s, d);
      t.conflict ==
        if t.router == None || t.router == Some("") || t.slug == None || t.slug == Some("")
           || t.traefikMode == None || t.authentikMode == None
        then s.conflict
        else t.traefikMode == Some(NoAuth) && (t.authentikMode == Some(ForwardAuth) || t.authentikMode == Some(Oauth2Proxy))
  {
    hide MergedUrls;
  }

  // -- the verdict over whole runs ------------------------------------------------------------------

  /** A service linked on both sides, bare to Traefik and behind a proxy to Authentik. */
  predicate AtOdds(s: Service) {
    s.router != None && s.router != Some("") && s.slug != None && s.slug != Some("")
    && s.traefikMode == Some(NoAuth) && (s.authentikMode == Some(ForwardAuth) || s.authentikMode == Some(Oauth2Proxy))
  }

  /** Services start with a true verdict, and no edit names a column that it depends on. */
  predicate LeavesVerdict(op: Op) {
    match op
    case Add(s, _) => s.conflict == AtOdds(s)
    case Change(_, es, _) =>
      forall k :: 0 <= k < |es| ==> es[k].field !in {Router, Slug, TraefikMode, AuthentikMode, Conflict}
    case _ => true
  }

  /** Then in every run, of any passes and any other edits, the flag is up exactly for the services at odds. */
  lemma FlagMeansAtOdds(hostOf: HostOf, threshold: nat, ops: seq<Op>, i: nat)
    requires forall k :: 0 <= k < |ops| ==> Legal(ops[k]) && LeavesVerdict(ops[k])
    requires i < |Run(hostOf, threshold, ops).reg.services|
    ensures Run(hostOf, threshold, ops).reg.services[i].conflict <==> AtOdds(Run(hostOf, threshold, ops).reg.services[i])
  {
    assert forall k :: 0 <= k < |ops| ==> HandsOff(ops[k]);
    ConflictIsExact(hostOf, threshold, ops);
    hide Run;
  }

  // -- a service first seen ---------------------------------------------------------------------------

  /** A new service holds what the report says of it, */
  lemma FirstReportHolds(id: nat, hints: Hints, d: Item)
    ensures var s := NewService(id, hints, d);
      s.id == id && s.name == d.name && s.host == d.host && s.urls == d.urls && s.router == d.router && s.slug == d.slug
      && s.tags == d.tags && !s.slugManual && !s.conflict && !s.stale
    ensures d.externalId !in hints.enriched ==>
      var s := NewService(id, hints, d);
      s.notes == ""
      && s.displayName == (match d.displayName case None => d.name case Some(n) => if n == "" then d.name else n)
      && s.category == (match d.category case None => OtherCategory case Some(c) => c)
      && s.authMode == (match d.authMode case None => Unknown case Some(m) => m)
  {
  }

  /** with what the reasoning layer was told to fill in, where it did; */
  lemma FirstReportEnriched(id: nat, hints: Hints, d: Item)
    requires d.externalId in hints.enriched
    ensures var s, e := NewService(id, hints, d), hints.enriched[d.externalId];
      (e.displayName != None && e.displayName != Some("") ==> Some(s.displayName) == e.displayName)
      && (e.category != None ==> Some(s.category) == e.category)
      && (e.authMode != None ==> Some(s.authMode) == e.authMode)
      && (e.notes != None ==> Some(s.notes) == e.notes)
    ensures var s, e := NewService(id, hints, d), hints.enriched[d.externalId];
      var plain := NewService(id, NO_HINTS, d);
      (e.displayName == None || e.displayName == Some("") ==> s.displayName == plain.displayName)
      && (e.category == None ==> s.category == plain.category)
      && (e.authMode == None ==> s.authMode == plain.authMode)
      && (e.notes == None ==> s.notes == plain.notes)
  {
  }

  /** and the same report once more changes it exactly where the reasoning layer named another mode than the report. */
  lemma FirstReportSettles(id: nat, hints: Hints, d: Item)
    ensures var s := NewService(id, hints, d);
      Merge(s, d) == s <==> d.authMode == None || d.authMode == Some(Unknown) || d.authMode == Some(s.authMode)
  {
    hide Dedupe;
    DedupeSame(d.urls + d.urls);
  }

  // -- edits by hand --------------------------------------------------------------------------------------

  /** The edit at `k` is the last one that gives the column a value. */
  predicate LastFor(es: seq<Edit>, k: nat, f: Field) {
    k < |es| && es[k].field == f && es[k].value != None
    && forall j :: k < j < |es| ==> es[j].field != f || es[j].value == None
  }

  /** A column ends with the value of its last edit; one that no edit gives a value keeps its own, and `stale` always does. */
  lemma {:induction false} EditsWrite(s: Service, log: seq<Event>, es: seq<Edit>, actor: Actor, f: Field, k: nat)
    requires Typed(es)
    ensures f != Stale && LastFor(es, k, f) ==> Some(Get(Edited(s, log, es, actor).0, f)) == es[k].value
    ensures f == Stale || (forall j :: 0 <= j < |es| ==> es[j].field != f || es[j].value == None) ==>
      Get(Edited(s, log, es, actor).0, f) == Get(s, f)
    decreases |es|
  {
    if es != [] {
      var e, rest := es[0], es[1..];
      assert forall j :: 0 <= j < |rest| ==> rest[j] == es[j + 1];
      EditWrites(s, e, f);
      hide Get;
      hide Set;
      hide Applies;
      hide Fits;
      if Applies(s, e) {
        EditsWrite(Set(s, e.field, e.value.value),
                   log + [Event(s.id, Of(e.field), Get(s, e.field), e.value.value, actor)], rest, actor, f, if k > 0 then k - 1 else 0);
      } else {
        EditsWrite(s, log, rest, actor, f, if k > 0 then k - 1 else 0);
      }
    }
  }

  lemma EditWrites(s: Service, e: Edit, f: Field)
    requires e.value.Some? ==> Fits(e.field, e.value.value)
    ensures Applies(s, e) ==> e.value.Some?
    ensures var t := if Applies(s, e) then Set(s, e.field, e.value.value) else s;
      t.id == s.id && t.name == s.name
      && Get(t, f) == if e.field == f && e.value.Some? && f != Stale then e.value.value else Get(s, f)
  {
    if Applies(s, e) { SetGet(s, e.field, e.value.value, f); }
    hide Get;
    hide Set;
  }

  /** An edit reaches the one service with that id. */
  lemma EditsOne(r: Registry, id: nat, es: seq<Edit>, actor: Actor, i: nat)
    requires Typed(es) && OwnIds(r.services) && i < |r.services|
    ensures var t := UpdatedIn(r, id, es, actor);
      |t.services| == |r.services| && t.rows == r.rows && t.nextId == r.nextId
      && t.services[i] == if r.services[i].id == id then Edited(r.services[i], r.log, es, actor).0 else r.services[i]
  {
    hide Edited;
  }

  /** A deletion takes the one service with that id, and its rows. */
  lemma {:induction false} DeletionTakesOne(r: Registry, id: nat, actor: Actor, s: Service)
    requires OwnIds(r.services)
    ensures s in DeletedIn(r, id, actor).services <==> s in r.services && s.id != id
  {
    var at := ById(r.services, id);
    if at.Some? {
      var i := at.value;
      assert r.services == r.services[..i] + [r.services[i]] + r.services[i + 1..];
    }
  }

  lemma {:induction false} RowsLeft(rows: seq<Row>, id: nat)
    ensures forall row :: row in RowsWithout(rows, id) <==> row in rows && row.service != id
  {
    if rows != [] {
      RowsLeft(rows[1..], id);
      assert rows == [rows[0]] + rows[1..];
    }
  }

  lemma DeletionTakesRows(r: Registry, id: nat, actor: Actor, row: Row)
    requires ById(r.services, id).Some?
    ensures row in DeletedIn(r, id, actor).rows <==> row in r.rows && row.service != id
  {
    RowsLeft(r.rows, id);
  }

  // -- counts of a pass -------------------------------------------------------------------------------------

  /** The services created are counted, and each stands after the ones that were there, under the next ids. */
  lemma {:induction false} PassCounts(hostOf: HostOf, p: Pass, source: Source, hints: Hints, items: seq<Item>)
    ensures var q := TakeAll(hostOf, p, source, hints, items);
      q.created - p.created == |q.reg.services| - |p.reg.services| == q.reg.nextId - p.reg.nextId
      && 0 <= q.changed - p.changed <= |items| - (q.created - p.created)
    decreases |items|
  {
    if items != [] {
      var q := Take(hostOf, p, source, hints, items[0]);
      hide Resolve;
      hide Upserted;
      hide Merge;
      hide NewService;
      hide Changes;
      PassCounts(hostOf, q, source, hints, items[1..]);
    }
  }

  /** The rows that missed are counted one by one. */
  lemma {:induction false} MissingCounted(rows: seq<Row>, source: Source, seen: set<nat>, n: nat)
    requires n <= |rows|
    ensures CountMissing(rows[n..], source, seen)
         == |set k | n <= k < |rows| && rows[k].source == source && rows[k].service !in seen|
    decreases |rows| - n
  {
    var here := set k | n <= k < |rows| && rows[k].source == source && rows[k].service !in seen;
    if n < |rows| {
      MissingCounted(rows, source, seen, n + 1);
      var later := set k | n + 1 <= k < |rows| && rows[k].source == source && rows[k].service !in seen;
      assert rows[n..][0] == rows[n] && rows[n..][1..] == rows[n + 1..];
      assert here == if rows[n].source == source && rows[n].service !in seen then {n as int} + later else later;
    } else {
      assert here == {};
    }
  }

  /** A candidate that matches nothing goes to the service the reasoning layer names, if there is one; else it is new. */
  lemma HintDecides(hostOf: HostOf, services: seq<Service>, hints: Hints, d: Item)
    requires Match(hostOf, services, d) == None
    ensures var m := Resolve(hostOf, services, hints, d);
      m == None <==> d.externalId !in hints.matched || hints.matched[d.externalId] == ""
                     || forall i :: 0 <= i < |services| ==> services[i].name != hints.matched[d.externalId]
    ensures var m := Resolve(hostOf, services, hints, d);
      m.Some? ==> services[m.value].name == hints.matched[d.externalId]
  {
    hide Match;
  }

  lemma MatchDecides(hostOf: HostOf, services: seq<Service>, hints: Hints, d: Item)
    requires Match(hostOf, services, d).Some?
    ensures Resolve(hostOf, services, hints, d) == Match(hostOf, services, d)
  {
    hide Match;
  }
}
