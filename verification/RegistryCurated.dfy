/** What a discovery pass may not touch on a service that was there before it. */
module RegistryCurated {
  import opened Wrappers
  import opened RegistryModel
  import opened RegistryStore

  /** `t` is `s` after discovery: curated columns and a slug linked by hand are the same, and no URL is gone. */
  ghost predicate Enriches(s: Service, t: Service) {
    && t.id == s.id && t.name == s.name
    && t.displayName == s.displayName && t.category == s.category && t.tags == s.tags && t.notes == s.notes
    && t.slugManual == s.slugManual
    && (s.slugManual ==> t.slug == s.slug)
    && (forall u :: u in s.urls ==> u in t.urls)
    && (Known(Some(s.authMode)) ==> Known(Some(t.authMode)))
  }

  lemma MergeEnriches(s: Service, d: Item, stale: bool)
    ensures Enriches(s, Merge(s, d).(stale := stale))
  {
    DedupeSame(s.urls + d.urls);
    hide Dedupe;
  }

  lemma {:induction false} TakeAllEnriches(hostOf: HostOf, p: Pass, source: Source, hints: Hints, items: seq<Item>, i: nat)
    requires i < |p.reg.services|
    ensures var q := TakeAll(hostOf, p, source, hints, items);
      i < |q.reg.services| && Enriches(p.reg.services[i], q.reg.services[i])
    decreases |items|
  {
    if items != [] {
      var q := Take(hostOf, p, source, hints, items[0]);
      var m := Resolve(hostOf, p.reg.services, hints, items[0]);
      hide Resolve;
      hide Changes;
      hide Upserted;
      MergeEnriches(p.reg.services[i], items[0], false);
      hide Merge;
      assert Enriches(p.reg.services[i], q.reg.services[i]);
      hide Take;
      TakeAllEnriches(hostOf, q, source, hints, items[1..], i);
    }
  }

  lemma {:induction false} MarkFromEnriches(r: Registry, source: Source, seen: set<nat>, threshold: nat, k: nat, i: nat)
    requires k <= |r.rows| && i < |r.services|
    ensures var t := MarkFrom(r, source, seen, threshold, k);
      |t.services| == |r.services| && Enriches(r.services[i], t.services[i])
    decreases |r.rows| - k
  {
    if k < |r.rows| {
      hide StillSeen;
      assert |MarkOne(r, source, seen, threshold, k).services| == |r.services|;
      assert Enriches(r.services[i], MarkOne(r, source, seen, threshold, k).services[i]);
      MarkFromEnriches(MarkOne(r, source, seen, threshold, k), source, seen, threshold, k + 1, i);
    }
  }

  /** Over a whole pass, whatever it lists and however often it matches the same service. */
  lemma PassEnriches(hostOf: HostOf, r: Registry, source: Source, hints: Hints, items: seq<Item>, threshold: nat, i: nat)
    requires i < |r.services|
    ensures var t := Reconciled(hostOf, r, source, hints, items, threshold);
      i < |t.services| && Enriches(r.services[i], t.services[i])
  {
    TakeAllEnriches(hostOf, Pass(r, {}, 0, 0), source, hints, items, i);
    var p := Taken(hostOf, r, source, hints, items);
    hide Taken;
    MarkFromEnriches(p.reg, source, p.seen, threshold, 0, i);
  }
}
