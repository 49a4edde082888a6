/**
 * The auth columns of a service: the conflict flag says exactly what the
 * columns beside it say, and what Traefik and Authentik report of the same
 * service adds up to the same thing in whatever order they report it.
 */
module RegistryConflict {
  import opened Wrappers
  import opened RegistryModel
  import opened RegistryStore
  import opened RegistryHistory

  /** The flag is raised exactly when everything is known and Traefik sees no auth where Authentik enforces it. */
  predicate Exact(s: Service) {
    s.conflict <==> Judged(s) && InConflict(s)
  }

  lemma MergeExact(s: Service, d: Item)
    requires Exact(s)
    ensures Exact(Merge(s, d))
  {
    hide MergedUrls;
  }

  // -- over whole runs ---------------------------------------------------------------------------

  /** The columns the verdict depends on. */
  predicate Decisive(f: Field) {
    f.Router? || f.Slug? || f.TraefikMode? || f.AuthentikMode? || f.Conflict?
  }

  /** No edit by hand touches the verdict or what it depends on, and services start with a true verdict. */
  predicate HandsOff(op: Op) {
    match op
    case Add(s, _) => Exact(s)
    case Change(_, es, _) => forall k :: 0 <= k < |es| ==> !Decisive(es[k].field)
    case Remove(_, _) => true
    case Discover(_, _, _) => true
  }

  ghost predicate AllExact(services: seq<Service>) {
    forall i :: 0 <= i < |services| ==> Exact(services[i])
  }

  lemma NewExact(id: nat, hints: Hints, d: Item)
    ensures Exact(NewService(id, hints, d))
  {
  }

  lemma TakeExact(hostOf: HostOf, p: Pass, source: Source, hints: Hints, d: Item)
    requires AllExact(p.reg.services)
    ensures AllExact(Take(hostOf, p, source, hints, d).reg.services)
  {
    var m := Resolve(hostOf, p.reg.services, hints, d);
    hide Resolve;
    hide Changes;
    hide Upserted;
    NewExact(p.reg.nextId, hints, d);
    if m.Some? { MergeExact(p.reg.services[m.value], d); }
    hide Merge;
    hide NewService;
  }

  lemma {:induction false} TakeAllExact(hostOf: HostOf, p: Pass, source: Source, hints: Hints, items: seq<Item>)
    requires AllExact(p.reg.services)
    ensures AllExact(TakeAll(hostOf, p, source, hints, items).reg.services)
    decreases |items|
  {
    if items != [] {
      TakeExact(hostOf, p, source, hints, items[0]);
      hide Take;
      hide AllExact;
      TakeAllExact(hostOf, Take(hostOf, p, source, hints, items[0]), source, hints, items[1..]);
    }
  }

  lemma {:induction false} MarkFromExact(r: Registry, source: Source, seen: set<nat>, threshold: nat, k: nat)
    requires k <= |r.rows| && AllExact(r.services)
    ensures AllExact(MarkFrom(r, source, seen, threshold, k).services)
    decreases |r.rows| - k
  {
    if k < |r.rows| {
      hide StillSeen;
      assert AllExact(MarkOne(r, source, seen, threshold, k).services);
      assert |MarkOne(r, source, seen, threshold, k).rows| == |r.rows|;
      hide MarkOne;
      hide AllExact;
      MarkFromExact(MarkOne(r, source, seen, threshold, k), source, seen, threshold, k + 1);
    }
  }

  lemma {:induction false} EditedExact(s: Service, log: seq<Event>, es: seq<Edit>, actor: Actor)
    requires Typed(es) && Exact(s) && forall k :: 0 <= k < |es| ==> !Decisive(es[k].field)
    ensures Exact(Edited(s, log, es, actor).0)
    decreases |es|
  {
    if es != [] {
      if Applies(s, es[0]) {
        var f, v := es[0].field, es[0].value.value;
        assert Exact(Set(s, f, v));
        EditedExact(Set(s, f, v), log + [Event(s.id, What.Of(f), Get(s, f), v, actor)], es[1..], actor);
      } else {
        EditedExact(s, log, es[1..], actor);
      }
    }
  }

  lemma ActExact(hostOf: HostOf, threshold: nat, w: World, op: Op)
    requires Legal(op) && HandsOff(op) && AllExact(w.reg.services)
    ensures AllExact(Act(hostOf, threshold, w, op).reg.services)
  {
    match op
    case Add(s, actor) =>
      assert Exact(s.(id := w.reg.nextId));
    case Change(id, es, actor) =>
      var at := ById(w.reg.services, id);
      if at.Some? { EditedExact(w.reg.services[at.value], w.reg.log, es, actor); }
    case Remove(id, actor) =>
    case Discover(source, items, hints) =>
      var p := Taken(hostOf, w.reg, source, hints, items);
      TakeAllExact(hostOf, Pass(w.reg, {}, 0, 0), source, hints, items);
      MarkFromExact(p.reg, source, p.seen, threshold, 0);
  }

  /** After every run without such edits, each flag says exactly what the columns beside it say. */
  lemma {:induction false} ConflictIsExact(hostOf: HostOf, threshold: nat, ops: seq<Op>)
    requires forall k :: 0 <= k < |ops| ==> Legal(ops[k]) && HandsOff(ops[k])
    ensures AllExact(Run(hostOf, threshold, ops).reg.services)
  {
    if ops != [] {
      ConflictIsExact(hostOf, threshold, ops[..|ops| - 1]);
      ActExact(hostOf, threshold, Run(hostOf, threshold, ops[..|ops| - 1]), ops[|ops| - 1]);
    }
  }

  // -- reports in any order -------------------------------------------------------------------------

  function MergeAll(s: Service, ds: seq<Item>): Service {
    if ds == [] then s else Merge(MergeAll(s, ds[..|ds| - 1]), ds[|ds| - 1])
  }

  predicate Bare(d: Item) { d.source == Traefik && d.authMode == Some(NoAuth) }

  predicate Guards(d: Item, mode: AuthMode) { d.source == Authentik && d.authMode == Some(mode) }

  /** The columns both kinds of report are about. */
  function AuthOf(s: Service): (AuthMode, Option<AuthMode>, Option<AuthMode>, bool) {
    (s.authMode, s.traefikMode, s.authentikMode, s.conflict)
  }

  /**
   * Reports of a bare route and of a proxy in front of it, any number of each
   * and in any order: the mode is the proxy's, both observations are kept, and
   * the conflict is raised as soon as the service is linked on both sides.
   */
  lemma {:induction false} ReportsAddUp(s: Service, ds: seq<Item>, mode: AuthMode)
    requires IsProxy(Some(mode)) && Exact(s)
    requires forall k :: 0 <= k < |ds| ==> Bare(ds[k]) || Guards(ds[k], mode)
    ensures var t := MergeAll(s, ds);
      Exact(t)
      && ((exists k :: 0 <= k < |ds| && Bare(ds[k])) ==> t.traefikMode == Some(NoAuth))
      && ((exists k :: 0 <= k < |ds| && Guards(ds[k], mode)) ==> t.authentikMode == Some(mode) && t.authMode == mode)
  {
    if ds != [] {
      var init, d := ds[..|ds| - 1], ds[|ds| - 1];
      ReportsAddUp(s, init, mode);
      var u := MergeAll(s, init);
      MergeExact(u, d);
      assert forall k :: 0 <= k < |ds| - 1 ==> init[k] == ds[k];
      assert (exists k :: 0 <= k < |ds| && Bare(ds[k])) <==> Bare(d) || exists k :: 0 <= k < |init| && Bare(init[k]);
      assert (exists k :: 0 <= k < |ds| && Guards(ds[k], mode)) <==> Guards(d, mode) || exists k :: 0 <= k < |init| && Guards(init[k], mode);
      OneReport(u, d, mode);
      hide Merge;
    }
  }

  lemma OneReport(u: Service, d: Item, mode: AuthMode)
    requires IsProxy(Some(mode)) && (Bare(d) || Guards(d, mode))
    ensures var t := Merge(u, d);
      if Bare(d) then
        t.traefikMode == Some(NoAuth) && t.authentikMode == u.authentikMode
        && (u.authentikMode == Some(mode) ==> t.authMode == u.authMode)
      else t.traefikMode == u.traefikMode && t.authentikMode == Some(mode) && t.authMode == mode
  {
    hide MergedUrls;
  }

  /** Linked to a route and to an application once the reports are in. */
  predicate Linked(s: Service, d: Item, e: Item) {
    (Truthy(d.router) || Truthy(e.router) || Truthy(s.router))
    && (((Truthy(d.slug) || Truthy(e.slug)) && !s.slugManual) || Truthy(s.slug))
  }

  lemma MergeLinks(s: Service, d: Item)
    ensures var t := Merge(s, d);
      (Truthy(t.router) <==> Truthy(d.router) || Truthy(s.router))
      && (Truthy(t.slug) <==> (Truthy(d.slug) && !s.slugManual) || Truthy(s.slug))
      && t.slugManual == s.slugManual
      && (if Judged(t) then t.conflict == InConflict(t) else t.conflict == s.conflict)
  {
    hide MergedUrls;
  }

  lemma BothReports(s: Service, d: Item, e: Item, mode: AuthMode)
    requires IsProxy(Some(mode)) && ((Bare(d) && Guards(e, mode)) || (Guards(d, mode) && Bare(e)))
    ensures AuthOf(Merge(Merge(s, d), e))
         == (mode, Some(NoAuth), Some(mode), if Linked(s, d, e) then true else s.conflict)
  {
    OneReport(s, d, mode);
    OneReport(Merge(s, d), e, mode);
    MergeLinks(s, d);
    MergeLinks(Merge(s, d), e);
    hide Merge;
  }

  /** One report of each kind leaves the same auth columns in either order. */
  lemma OrderDoesNotMatter(s: Service, bare: Item, guarded: Item, mode: AuthMode)
    requires IsProxy(Some(mode)) && Bare(bare) && Guards(guarded, mode)
    ensures AuthOf(Merge(Merge(s, bare), guarded)) == AuthOf(Merge(Merge(s, guarded), bare))
  {
    BothReports(s, bare, guarded, mode);
    BothReports(s, guarded, bare, mode);
    hide Merge;
  }

  /** Once both have been merged, repeating them, however often, changes no auth column. */
  lemma {:induction false} RepeatsAreQuiet(s: Service, bare: Item, guarded: Item, mode: AuthMode, more: seq<Item>)
    requires IsProxy(Some(mode)) && Bare(bare) && Guards(guarded, mode)
    requires forall k :: 0 <= k < |more| ==> more[k] == bare || more[k] == guarded
    ensures var t := Merge(Merge(s, bare), guarded); AuthOf(MergeAll(t, more)) == AuthOf(t)
    ensures Informed(MergeAll(Merge(Merge(s, bare), guarded), more), bare, guarded, mode)
  {
    var t := Merge(Merge(s, bare), guarded);
    if more == [] {
      InformedAtFirst(s, bare, guarded, mode);
    } else {
      RepeatsAreQuiet(s, bare, guarded, mode, more[..|more| - 1]);
      InformedStays(MergeAll(t, more[..|more| - 1]), bare, guarded, mode, more[|more| - 1]);
      hide Merge;
    }
  }

  /** Both reports have been taken in. */
  predicate Informed(s: Service, bare: Item, guarded: Item, mode: AuthMode) {
    && s.traefikMode == Some(NoAuth) && s.authentikMode == Some(mode) && s.authMode == mode
    && (Truthy(bare.router) || Truthy(guarded.router) ==> Truthy(s.router))
    && ((Truthy(bare.slug) || Truthy(guarded.slug)) && !s.slugManual ==> Truthy(s.slug))
    && (Judged(s) ==> s.conflict)
  }

  lemma InformedAtFirst(s: Service, bare: Item, guarded: Item, mode: AuthMode)
    requires IsProxy(Some(mode)) && Bare(bare) && Guards(guarded, mode)
    ensures Informed(Merge(Merge(s, bare), guarded), bare, guarded, mode)
  {
    hide MergedUrls;
  }

  lemma InformedStays(s: Service, bare: Item, guarded: Item, mode: AuthMode, d: Item)
    requires IsProxy(Some(mode)) && Bare(bare) && Guards(guarded, mode) && (d == bare || d == guarded)
    requires Informed(s, bare, guarded, mode)
    ensures Informed(Merge(s, d), bare, guarded, mode) && AuthOf(Merge(s, d)) == AuthOf(s)
  {
    hide MergedUrls;
  }

  /** So none of those reports writes an auth column, or an event about one. */
  lemma RepeatsLogNothing(s: Service, bare: Item, guarded: Item, mode: AuthMode, more: seq<Item>, d: Item)
    requires IsProxy(Some(mode)) && Bare(bare) && Guards(guarded, mode)
    requires (forall k :: 0 <= k < |more| ==> more[k] == bare || more[k] == guarded) && (d == bare || d == guarded)
    ensures var t := MergeAll(Merge(Merge(s, bare), guarded), more);
      forall u :: u in Changes(t, Merge(t, d), ORDER) ==> u.field !in {Mode, TraefikMode, AuthentikMode, Conflict}
  {
    var t := MergeAll(Merge(Merge(s, bare), guarded), more);
    RepeatsAreQuiet(s, bare, guarded, mode, more);
    InformedStays(t, bare, guarded, mode, d);
    hide Merge;
    hide MergeAll;
    hide Changes;
  }

  // -- edits by hand -----------------------------------------------------------------------------------

  /**
   * An edit of a decisive column can leave the flag wrong. The next report of
   * the service puts it right exactly when the service is then linked on both
   * sides with both modes known, or when the flag was down.
   */
  lemma ReportRepairs(s: Service, d: Item)
    ensures Exact(Merge(s, d)) <==> Judged(Merge(s, d)) || !s.conflict
  {
    MergeLinks(s, d);
    hide Merge;
  }

  const CONFLICTED := Service(0, "grafana", "Grafana", App, None, [], Some("grafana@docker"), Some("grafana"), false,
                              ForwardAuth, Some(NoAuth), Some(ForwardAuth), true, [], "", false)

  const UNLINKED := CONFLICTED.(slug := None, conflict := false)

  /** Linking an application by hand, as `service_link_authentik` does, completes a conflict and leaves the flag down. */
  lemma LinkLeavesFlagDown()
    ensures Exact(UNLINKED)
    ensures var s := Edited(UNLINKED, [], [Edit(Slug, Some(Text("grafana"))), Edit(SlugManual, Some(Flag(true)))], By("manual")).0;
      s == CONFLICTED.(slugManual := true, conflict := false) && !Exact(s)
  {
    var link, pin := Edit(Slug, Some(Text("grafana"))), Edit(SlugManual, Some(Flag(true)));
    assert [link, pin][1..] == [pin] && [pin][1..] == [];
    assert Applies(UNLINKED, link);
    assert Applies(Set(UNLINKED, Slug, Text("grafana")), pin);
  }

  /** Correcting Traefik's mode by hand leaves the conflict raised. */
  lemma EditLeavesConflict()
    ensures Exact(CONFLICTED)
    ensures !Exact(Edited(CONFLICTED, [], [Edit(TraefikMode, Some(Auth(ForwardAuth)))], By("manual")).0)
  {
    var es := [Edit(TraefikMode, Some(Auth(ForwardAuth)))];
    assert es[1..] == [];
    assert Applies(CONFLICTED, es[0]);
  }
}
