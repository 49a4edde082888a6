/**
 * A pass repeated at once changes nothing it saw: each candidate finds the
 * service it found before, and has nothing left to tell it.
 */
module RegistrySecondPass {
  import opened Wrappers
  import opened RegistryModel
  import opened RegistryStore

  /** Two candidates that cannot be taken for each other. */
  ghost predicate Apart(hostOf: HostOf, d: Item, e: Item) {
    && d.name != e.name
    && (Truthy(d.router) ==> d.router != e.router)
    && Hosts(hostOf, d.urls) !! Hosts(hostOf, e.urls)
  }

  ghost predicate AllApart(hostOf: HostOf, items: seq<Item>) {
    forall j, k :: 0 <= j < |items| && 0 <= k < |items| && j != k ==> Apart(hostOf, items[j], items[k])
  }

  /** The place of the service a candidate ends up in. */
  function Hit(hostOf: HostOf, services: seq<Service>, d: Item): (i: nat)
    ensures i <= |services|
  {
    var m := Match(hostOf, services, d);
    if m.None? then |services| else m.value
  }

  /** The places the candidates of a pass end up in. */
  function Hits(hostOf: HostOf, p: Pass, source: Source, items: seq<Item>): (at: seq<nat>)
    ensures |at| == |items|
    decreases |items|
  {
    if items == [] then []
    else [Hit(hostOf, p.reg.services, items[0])]
         + Hits(hostOf, Take(hostOf, p, source, NO_HINTS, items[0]), source, items[1..])
  }

  ghost predicate NoRepeat(at: seq<nat>) {
    forall j, k :: 0 <= j < k < |at| ==> at[j] != at[k]
  }

  /** The candidate finds service `i`, and merging it again changes nothing. */
  ghost predicate Settled(hostOf: HostOf, services: seq<Service>, d: Item, i: nat) {
    i < |services| && Match(hostOf, services, d) == Some(i) && Merge(services[i], d) == services[i] && !services[i].stale
  }

  // -- merging twice -------------------------------------------------------------------------

  /** The URLs of a merge are those of the service and of the report. */
  lemma MergedUrlsAre(s: Service, d: Item)
    ensures forall u :: u in MergedUrls(s, d) <==> u in s.urls || u in d.urls
  {
    DedupeSame(s.urls + d.urls);
    hide Dedupe;
  }

  lemma MergedUrlsTwice(s: Service, t: Service, d: Item)
    requires forall u :: u in d.urls ==> u in t.urls
    ensures MergedUrls(t, d) == t.urls
  {
    DedupeSame(t.urls + d.urls);
    hide Dedupe;
  }

  /** Merging a report a second time changes nothing. */
  lemma MergeTwice(s: Service, d: Item, stale: bool)
    ensures var t := Merge(s, d).(stale := stale); Merge(t, d) == t
  {
    var t := Merge(s, d).(stale := stale);
    MergedUrlsAre(s, d);
    assert t.urls == MergedUrls(s, d);
    MergedUrlsTwice(s, t, d);
    hide MergedUrls;
  }

  /** The report a service was created from has nothing to add to it. */
  lemma MergeIntoNew(id: nat, d: Item)
    ensures var t := NewService(id, NO_HINTS, d); Merge(t, d) == t
  {
    var t := NewService(id, NO_HINTS, d);
    MergedUrlsTwice(t, t, d);
    hide MergedUrls;
  }

  // -- finding the same service again ------------------------------------------------------------

  lemma HostsUnion(hostOf: HostOf, urls: seq<string>, a: seq<string>, b: seq<string>)
    requires forall u :: u in urls <==> u in a || u in b
    ensures Hosts(hostOf, urls) == Hosts(hostOf, a) + Hosts(hostOf, b)
  {
  }

  lemma MergeHosts(hostOf: HostOf, s: Service, d: Item)
    ensures Hosts(hostOf, Merge(s, d).urls) == Hosts(hostOf, s.urls) + Hosts(hostOf, d.urls)
  {
    MergedUrlsAre(s, d);
    assert Merge(s, d).urls == MergedUrls(s, d) by { hide MergedUrls; }
    HostsUnion(hostOf, Merge(s, d).urls, s.urls, d.urls);
  }

  lemma NameStays(services: seq<Service>, after: seq<Service>, name: string)
    requires |services| <= |after|
    requires forall j :: 0 <= j < |services| ==> after[j].name == services[j].name
    requires forall j :: |services| <= j < |after| ==> after[j].name != name
    ensures ByName(after, name) == ByName(services, name)
  {
    var x, y := ByName(services, name), ByName(after, name);
    if x.Some? { assert after[x.value].name == name; }
    if y.Some? { assert after[y.value].name == name; }
  }

  lemma NameAt(services: seq<Service>, name: string, i: nat)
    requires i < |services| && services[i].name == name && forall j :: 0 <= j < i ==> services[j].name != name
    ensures ByName(services, name) == Some(i)
  {
    var x := ByName(services, name);
    if x.Some? { assert services[x.value].name == name; }
  }

  lemma RouterAt(services: seq<Service>, router: Option<string>, i: nat)
    requires i < |services| && services[i].router == router && forall j :: 0 <= j < i ==> services[j].router != router
    ensures ByRouter(services, router) == Some(i)
  {
    var x := ByRouter(services, router);
    if x.Some? { assert services[x.value].router == router; }
  }

  lemma RouterNowhere(services: seq<Service>, router: Option<string>)
    requires forall j :: 0 <= j < |services| ==> services[j].router != router
    ensures ByRouter(services, router).None?
  {
  }

  lemma Meets(a: set<string>, b: set<string>)
    ensures a * b != {} <==> !(a !! b)
  {
    if a * b != {} {
      var x :| x in a * b;
      assert x in a && x in b;
    } else {
      assert forall x :: x in a && x in b ==> x in a * b;
    }
  }

  lemma HostAt(hostOf: HostOf, services: seq<Service>, hosts: set<string>, i: nat)
    requires i < |services| && !(hosts !! Hosts(hostOf, services[i].urls))
    requires forall j :: 0 <= j < i ==> hosts !! Hosts(hostOf, services[j].urls)
    ensures ByHost(hostOf, services, hosts) == Some(i)
  {
    hide Hosts;
    forall j | 0 <= j < |services| ensures hosts * Hosts(hostOf, services[j].urls) != {} <==> !(hosts !! Hosts(hostOf, services[j].urls)) {
      Meets(hosts, Hosts(hostOf, services[j].urls));
    }
    var x := ByHost(hostOf, services, hosts);
    if x.Some? { assert hosts * Hosts(hostOf, services[x.value].urls) != {}; }
  }

  /** Why a candidate found service `i`, as facts about the services before it. */
  ghost predicate Finds(hostOf: HostOf, services: seq<Service>, d: Item, i: nat) {
    var hosts := Hosts(hostOf, d.urls);
    i < |services|
    && if services[i].name == d.name then forall j :: 0 <= j < i ==> services[j].name != d.name
       else
         (forall j :: 0 <= j < |services| ==> services[j].name != d.name)
         && if Truthy(d.router) && services[i].router == d.router then
              forall j :: 0 <= j < i ==> services[j].router != d.router
            else
              (Truthy(d.router) ==> forall j :: 0 <= j < |services| ==> services[j].router != d.router)
              && !(hosts !! Hosts(hostOf, services[i].urls))
              && forall j :: 0 <= j < i ==> hosts !! Hosts(hostOf, services[j].urls)
  }

  lemma MatchIsFinds(hostOf: HostOf, services: seq<Service>, d: Item, i: nat)
    ensures Match(hostOf, services, d) == Some(i) <==> Finds(hostOf, services, d, i)
  {
    if Finds(hostOf, services, d, i) {
      FoundMatches(hostOf, services, d, i);
    }
    if Match(hostOf, services, d) == Some(i) {
      MatchedFinds(hostOf, services, d, i);
    }
  }

  lemma MatchedFinds(hostOf: HostOf, services: seq<Service>, d: Item, i: nat)
    requires Match(hostOf, services, d) == Some(i)
    ensures Finds(hostOf, services, d, i)
  {
    var hosts := Hosts(hostOf, d.urls);
    hide Hosts;
    forall j | 0 <= j < |services| ensures hosts * Hosts(hostOf, services[j].urls) != {} <==> !(hosts !! Hosts(hostOf, services[j].urls)) {
      Meets(hosts, Hosts(hostOf, services[j].urls));
    }
    var byName := ByName(services, d.name);
    if byName.None? {
      assert forall j :: 0 <= j < |services| ==> services[j].name != d.name;
      if Truthy(d.router) {
        var byRouter := ByRouter(services, d.router);
        assert byRouter.None? ==> forall j :: 0 <= j < |services| ==> services[j].router != d.router;
      }
    }
  }

  lemma FoundMatches(hostOf: HostOf, services: seq<Service>, d: Item, i: nat)
    requires Finds(hostOf, services, d, i)
    ensures Match(hostOf, services, d) == Some(i)
  {
    var hosts := Hosts(hostOf, d.urls);
    hide Hosts;
    if services[i].name == d.name {
      NameAt(services, d.name, i);
    } else {
      NameStays([], services, d.name);
      if Truthy(d.router) && services[i].router == d.router {
        RouterAt(services, d.router, i);
      } else {
        if Truthy(d.router) { RouterNowhere(services, d.router); }
        assert hosts != {};
        HostAt(hostOf, services, hosts, i);
      }
    }
  }

  /** The candidate finds the service it was merged into, and leaves it nothing to learn. */
  lemma TakeKnownSettles(hostOf: HostOf, services: seq<Service>, d: Item, i: nat)
    requires i < |services| && Match(hostOf, services, d) == Some(i)
    ensures Settled(hostOf, services[i := Merge(services[i], d).(stale := false)], d, i)
  {
    var s := services[i];
    var t := Merge(s, d).(stale := false);
    var after := services[i := t];
    MergeTwice(s, d, false);
    MergeHosts(hostOf, s, d);
    assert t.name == s.name && (Truthy(d.router) ==> t.router == d.router) by { hide MergedUrls; }
    MatchIsFinds(hostOf, services, d, i);
    MatchIsFinds(hostOf, after, d, i);
    hide Merge;
    hide Hosts;
    hide Match;
  }

  lemma TakeNewSettles(hostOf: HostOf, services: seq<Service>, d: Item, id: nat)
    requires Match(hostOf, services, d).None?
    ensures Settled(hostOf, services + [NewService(id, NO_HINTS, d)], d, |services|)
  {
    var after := services + [NewService(id, NO_HINTS, d)];
    MergeIntoNew(id, d);
    assert ByName(services, d.name).None?;
    hide Merge;
    assert after[|services|].name == d.name;
    NameAt(after, d.name, |services|);
  }

  /** A later candidate that is merged elsewhere does not disturb it. */
  lemma SettledBesideKnown(hostOf: HostOf, services: seq<Service>, d: Item, i: nat, e: Item, j: nat)
    requires Settled(hostOf, services, d, i) && Apart(hostOf, d, e) && j < |services| && j != i
    ensures Settled(hostOf, services[j := Merge(services[j], e).(stale := false)], d, i)
  {
    var s := services[j];
    var t := Merge(s, e).(stale := false);
    var after := services[j := t];
    MergeHosts(hostOf, s, e);
    assert t.name == s.name && (t.router == s.router || t.router == e.router) by { hide MergedUrls; }
    MatchIsFinds(hostOf, services, d, i);
    MatchIsFinds(hostOf, after, d, i);
    hide Merge;
    hide Hosts;
    hide Match;
  }

  lemma SettledBesideNew(hostOf: HostOf, services: seq<Service>, d: Item, i: nat, e: Item, id: nat)
    requires Settled(hostOf, services, d, i) && Apart(hostOf, d, e)
    ensures Settled(hostOf, services + [NewService(id, NO_HINTS, e)], d, i)
  {
    var t := NewService(id, NO_HINTS, e);
    var after := services + [t];
    assert t.name == e.name && t.router == e.router && t.urls == e.urls;
    MatchIsFinds(hostOf, services, d, i);
    MatchIsFinds(hostOf, after, d, i);
    hide NewService;
    hide Merge;
    hide Hosts;
    hide Match;
  }

  // -- the first pass ---------------------------------------------------------------------------

  lemma ResolveIsMatch(hostOf: HostOf, services: seq<Service>, d: Item)
    ensures Resolve(hostOf, services, NO_HINTS, d) == Match(hostOf, services, d)
  {
    hide Match;
  }

  /** Taking a candidate settles it and disturbs no candidate that is apart from it. */
  lemma TakeSettles(hostOf: HostOf, p: Pass, source: Source, d: Item)
    ensures var q := Take(hostOf, p, source, NO_HINTS, d); var i := Hit(hostOf, p.reg.services, d);
      Settled(hostOf, q.reg.services, d, i) && q.seen == p.seen + {q.reg.services[i].id}
      && |p.reg.services| <= |q.reg.services|
      && forall j :: 0 <= j < |p.reg.services| ==> q.reg.services[j].id == p.reg.services[j].id
  {
    ResolveIsMatch(hostOf, p.reg.services, d);
    var m := Match(hostOf, p.reg.services, d);
    hide Resolve;
    hide Match;
    hide Changes;
    hide Upserted;
    if m.None? {
      TakeNewSettles(hostOf, p.reg.services, d, p.reg.nextId);
    } else {
      assert m.value < |p.reg.services| by { ResolveIsMatch(hostOf, p.reg.services, d); }
      TakeKnownSettles(hostOf, p.reg.services, d, m.value);
      assert Merge(p.reg.services[m.value], d).id == p.reg.services[m.value].id by { hide MergedUrls; }
      hide Merge;
    }
    hide Settled;
  }

  lemma TakeBeside(hostOf: HostOf, p: Pass, source: Source, e: Item, d: Item, i: nat)
    requires Settled(hostOf, p.reg.services, d, i) && Apart(hostOf, d, e) && Hit(hostOf, p.reg.services, e) != i
    ensures Settled(hostOf, Take(hostOf, p, source, NO_HINTS, e).reg.services, d, i)
  {
    ResolveIsMatch(hostOf, p.reg.services, e);
    var m := Match(hostOf, p.reg.services, e);
    hide Resolve;
    hide Match;
    hide Changes;
    hide Upserted;
    hide Merge;
    if m.None? {
      SettledBesideNew(hostOf, p.reg.services, d, i, e, p.reg.nextId);
    } else {
      SettledBesideKnown(hostOf, p.reg.services, d, i, e, m.value);
    }
    hide Settled;
  }

  /** Candidates none of which ends up in `i`: the first does not, and neither do the others after it. */
  lemma MissesRest(hostOf: HostOf, p: Pass, source: Source, items: seq<Item>, i: nat)
    requires items != [] && forall k :: 0 <= k < |items| ==> Hits(hostOf, p, source, items)[k] != i
    ensures Hit(hostOf, p.reg.services, items[0]) != i
    ensures var q := Take(hostOf, p, source, NO_HINTS, items[0]);
      forall k :: 0 <= k < |items| - 1 ==> Hits(hostOf, q, source, items[1..])[k] != i
  {
    hide Take;
    var at := Hits(hostOf, p, source, items);
    var q := Take(hostOf, p, source, NO_HINTS, items[0]);
    assert at[0] == Hit(hostOf, p.reg.services, items[0]);
    assert forall k :: 0 <= k < |items| - 1 ==> Hits(hostOf, q, source, items[1..])[k] == at[k + 1];
  }

  lemma {:induction false} SettledStays(hostOf: HostOf, p: Pass, source: Source, items: seq<Item>, d: Item, i: nat)
    requires Settled(hostOf, p.reg.services, d, i)
    requires forall k :: 0 <= k < |items| ==> Apart(hostOf, d, items[k])
    requires forall k :: 0 <= k < |items| ==> Hits(hostOf, p, source, items)[k] != i
    ensures var q := TakeAll(hostOf, p, source, NO_HINTS, items);
      Settled(hostOf, q.reg.services, d, i) && q.reg.services[i].id == p.reg.services[i].id && p.seen <= q.seen
    decreases |items|
  {
    if items != [] {
      var q, rest := Take(hostOf, p, source, NO_HINTS, items[0]), items[1..];
      MissesRest(hostOf, p, source, items, i);
      TakeSettles(hostOf, p, source, items[0]);
      TakeBeside(hostOf, p, source, items[0], d, i);
      hide Take;
      hide Apart;
      hide Hits;
      hide Hit;
      hide Match;
      hide Merge;
      assert forall k :: 0 <= k < |rest| ==> rest[k] == items[k + 1];
      SettledStays(hostOf, q, source, rest, d, i);
    }
  }

  /** Every candidate of the pass is settled, in the place it was put, and its service was seen. */
  ghost predicate AllSettled(hostOf: HostOf, services: seq<Service>, items: seq<Item>, at: seq<nat>, seen: set<nat>) {
    |at| == |items|
    && forall k :: 0 <= k < |items| ==> Settled(hostOf, services, items[k], at[k]) && services[at[k]].id in seen
  }

  lemma AllSettledMore(hostOf: HostOf, services: seq<Service>, items: seq<Item>, at: seq<nat>, seen: set<nat>)
    requires items != [] && |at| == |items|
    requires Settled(hostOf, services, items[0], at[0]) && services[at[0]].id in seen
    requires AllSettled(hostOf, services, items[1..], at[1..], seen)
    ensures AllSettled(hostOf, services, items, at, seen)
  {
    hide Match;
    hide Merge;
    forall k | 0 <= k < |items| ensures Settled(hostOf, services, items[k], at[k]) && services[at[k]].id in seen {
      if k > 0 {
        assert items[k] == items[1..][k - 1] && at[k] == at[1..][k - 1];
        assert Settled(hostOf, services, items[1..][k - 1], at[1..][k - 1]);
      }
    }
  }

  lemma HitsFirst(hostOf: HostOf, p: Pass, source: Source, items: seq<Item>)
    requires items != [] && AllApart(hostOf, items) && NoRepeat(Hits(hostOf, p, source, items))
    ensures var at := Hits(hostOf, p, source, items);
      at[0] == Hit(hostOf, p.reg.services, items[0])
      && at[1..] == Hits(hostOf, Take(hostOf, p, source, NO_HINTS, items[0]), source, items[1..])
      && NoRepeat(at[1..]) && forall k :: 0 <= k < |at[1..]| ==> at[1..][k] != at[0]
    ensures AllApart(hostOf, items[1..]) && forall k :: 0 <= k < |items[1..]| ==> Apart(hostOf, items[0], items[1..][k])
  {
    hide Take;
    hide Apart;
    assert forall k :: 0 <= k < |items[1..]| ==> items[1..][k] == items[k + 1];
  }

  lemma {:induction false} PassSettles(hostOf: HostOf, p: Pass, source: Source, items: seq<Item>)
    requires AllApart(hostOf, items) && NoRepeat(Hits(hostOf, p, source, items))
    ensures var q := TakeAll(hostOf, p, source, NO_HINTS, items);
      AllSettled(hostOf, q.reg.services, items, Hits(hostOf, p, source, items), q.seen)
    decreases |items|
  {
    if items != [] {
      var q := Take(hostOf, p, source, NO_HINTS, items[0]);
      var last := TakeAll(hostOf, q, source, NO_HINTS, items[1..]);
      var at := Hits(hostOf, p, source, items);
      HitsFirst(hostOf, p, source, items);
      TakeSettles(hostOf, p, source, items[0]);
      hide Take;
      hide Apart;
      hide AllApart;
      hide NoRepeat;
      hide Hits;
      hide Match;
      hide Merge;
      SettledStays(hostOf, q, source, items[1..], items[0], at[0]);
      assert last == TakeAll(hostOf, p, source, NO_HINTS, items);
      hide TakeAll;
      PassSettles(hostOf, q, source, items[1..]);
      hide AllSettled;
      AllSettledMore(hostOf, last.reg.services, items, at, last.seen);
    }
  }

  // -- the marking ------------------------------------------------------------------------------------

  /** Only the stale flag of services that were not seen may differ. */
  ghost predicate Spares(services: seq<Service>, after: seq<Service>, seen: set<nat>) {
    |after| == |services|
    && forall i :: 0 <= i < |services| ==>
         after[i] == services[i].(stale := after[i].stale) && (services[i].id in seen ==> after[i] == services[i])
  }

  lemma {:induction false} MarkFromSpares(r: Registry, source: Source, seen: set<nat>, threshold: nat, k: nat)
    requires k <= |r.rows|
    ensures var t := MarkFrom(r, source, seen, threshold, k);
      Spares(r.services, t.services, seen) && r.log <= t.log
      && forall j :: |r.log| <= j < |t.log| ==> t.log[j].service !in seen
    decreases |r.rows| - k
  {
    if k < |r.rows| {
      hide StillSeen;
      var u := MarkOne(r, source, seen, threshold, k);
      assert Spares(r.services, u.services, seen);
      assert r.log <= u.log && forall j :: |r.log| <= j < |u.log| ==> u.log[j].service !in seen;
      hide MarkOne;
      MarkFromSpares(u, source, seen, threshold, k + 1);
    }
  }

  lemma SparesMatch(hostOf: HostOf, services: seq<Service>, after: seq<Service>, seen: set<nat>, d: Item, i: nat)
    requires Settled(hostOf, services, d, i) && Spares(services, after, seen) && services[i].id in seen
    ensures Settled(hostOf, after, d, i)
  {
    MatchIsFinds(hostOf, services, d, i);
    MatchIsFinds(hostOf, after, d, i);
    hide Match;
    hide Merge;
    hide Hosts;
  }

  // -- the second pass ----------------------------------------------------------------------------------

  lemma TakeIdle(hostOf: HostOf, p: Pass, source: Source, d: Item, i: nat)
    requires Settled(hostOf, p.reg.services, d, i)
    ensures Hit(hostOf, p.reg.services, d) == i
    ensures var q := Take(hostOf, p, source, NO_HINTS, d);
      q.reg.services == p.reg.services && q.reg.log == p.reg.log && q.created == p.created && q.changed == p.changed
      && q.seen == p.seen + {p.reg.services[i].id}
  {
    ResolveIsMatch(hostOf, p.reg.services, d);
    var s := p.reg.services[i];
    SameNoChanges(s, ORDER);
    hide Resolve;
    hide Match;
    hide Upserted;
    hide Changes;
    hide Merge;
    assert p.reg.services[i := s.(stale := false)] == p.reg.services;
    assert Recorded(s, [], Discovery(source)) == [];
  }

  lemma {:induction false} IdlePass(hostOf: HostOf, p: Pass, source: Source, items: seq<Item>, at: seq<nat>, seen: set<nat>)
    requires AllSettled(hostOf, p.reg.services, items, at, seen)
    ensures Hits(hostOf, p, source, items) == at
    ensures var q := TakeAll(hostOf, p, source, NO_HINTS, items);
      q.reg.services == p.reg.services && q.reg.log == p.reg.log && q.created == p.created && q.changed == p.changed
    decreases |items|
  {
    if items != [] {
      hide Take;
      hide Hit;
      hide AllSettled;
      hide Settled;
      var q := Take(hostOf, p, source, NO_HINTS, items[0]);
      AllSettledRest(hostOf, p.reg.services, items, at, seen);
      TakeIdle(hostOf, p, source, items[0], at[0]);
      IdlePass(hostOf, q, source, items[1..], at[1..], seen);
      assert at == [at[0]] + at[1..];
    }
  }

  lemma AllSettledRest(hostOf: HostOf, services: seq<Service>, items: seq<Item>, at: seq<nat>, seen: set<nat>)
    requires AllSettled(hostOf, services, items, at, seen) && items != []
    ensures |at| > 0 && Settled(hostOf, services, items[0], at[0])
    ensures AllSettled(hostOf, services, items[1..], at[1..], seen)
  {
    hide Match;
    hide Merge;
    assert forall k :: 0 <= k < |items| - 1 ==> items[1..][k] == items[k + 1] && at[1..][k] == at[k + 1];
    assert forall k :: 0 <= k < |items| ==> Settled(hostOf, services, items[k], at[k]);
    forall k | 0 <= k < |items| - 1 ensures Settled(hostOf, services, items[1..][k], at[1..][k]) && services[at[1..][k]].id in seen {
      assert Settled(hostOf, services, items[k + 1], at[k + 1]);
    }
  }

  /**
   * Repeating a pass at once: when its candidates cannot be taken for each
   * other and ended up in different services, each finds the same service
   * again, nothing is created or changed, and the only events the second pass
   * can leave are about services it did not see.
   */
  lemma SecondPassIdle(hostOf: HostOf, r: Registry, source: Source, items: seq<Item>, threshold: nat)
    requires AllApart(hostOf, items) && NoRepeat(Hits(hostOf, Pass(r, {}, 0, 0), source, items))
    ensures var once := Reconciled(hostOf, r, source, NO_HINTS, items, threshold);
      var second := Taken(hostOf, once, source, NO_HINTS, items);
      Hits(hostOf, Pass(once, {}, 0, 0), source, items) == Hits(hostOf, Pass(r, {}, 0, 0), source, items)
      && second.created == 0 && second.changed == 0
      && second.reg.services == once.services && second.reg.log == once.log
    ensures var once := Reconciled(hostOf, r, source, NO_HINTS, items, threshold);
      var seen := Taken(hostOf, once, source, NO_HINTS, items).seen;
      var twice := Reconciled(hostOf, once, source, NO_HINTS, items, threshold);
      once.log <= twice.log && forall j :: |once.log| <= j < |twice.log| ==> twice.log[j].service !in seen
    ensures var once := Reconciled(hostOf, r, source, NO_HINTS, items, threshold);
      var twice := Reconciled(hostOf, once, source, NO_HINTS, items, threshold);
      Spares(once.services, twice.services, Taken(hostOf, once, source, NO_HINTS, items).seen)
  {
    var start := Pass(r, {}, 0, 0);
    var at := Hits(hostOf, start, source, items);
    var first := Taken(hostOf, r, source, NO_HINTS, items);
    var once := Reconciled(hostOf, r, source, NO_HINTS, items, threshold);
    PassSettles(hostOf, start, source, items);
    MarkFromSpares(first.reg, source, first.seen, threshold, 0);
    hide Spares;
    assert AllSettled(hostOf, once.services, items, at, first.seen) by {
      StaysSettled(hostOf, first.reg.services, once.services, items, at, first.seen);
    }
    hide AllSettled;
    IdlePass(hostOf, Pass(once, {}, 0, 0), source, items, at, first.seen);
    var second := Taken(hostOf, once, source, NO_HINTS, items);
    MarkFromSpares(second.reg, source, second.seen, threshold, 0);
  }

  lemma StaysSettled(hostOf: HostOf, services: seq<Service>, after: seq<Service>, items: seq<Item>, at: seq<nat>, seen: set<nat>)
    requires AllSettled(hostOf, services, items, at, seen) && Spares(services, after, seen)
    ensures AllSettled(hostOf, after, items, at, seen)
  {
    hide Match;
    hide Merge;
    forall k | 0 <= k < |items| ensures Settled(hostOf, after, items[k], at[k]) && after[at[k]].id in seen {
      SparesMatch(hostOf, services, after, seen, items[k], at[k]);
    }
  }
}
