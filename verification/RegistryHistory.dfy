/**
 * The tables explained by history: over every run of edits and discovery
 * passes, each source's counter is the number of its passes since it last saw
 * the service, and a service is stale exactly when some discovery source has
 * reported it and each one that did has missed it in all of its last passes.
 */
module RegistryHistory {
  import opened Wrappers
  import opened RegistryModel
  import opened RegistryStore
  import opened RegistryRows

  // -- the history of passes ----------------------------------------------------------------

  /** One finished pass: its source and the services it saw. */
  datatype Sweep = Sweep(source: Source, ids: set<nat>)

  ghost predicate EverSeen(sweeps: seq<Sweep>, source: Source, id: nat) {
    exists k :: 0 <= k < |sweeps| && sweeps[k].source == source && id in sweeps[k].ids
  }

  /** The passes of the source since the last one that saw the service. */
  function MissedSince(sweeps: seq<Sweep>, source: Source, id: nat): nat {
    if sweeps == [] then 0
    else
      var last, before := sweeps[|sweeps| - 1], sweeps[..|sweeps| - 1];
      if last.source != source then MissedSince(before, source, id)
      else if id in last.ids then 0
      else MissedSince(before, source, id) + 1
  }

  /** What the passes of one source saw, in order. */
  function Of(sweeps: seq<Sweep>, source: Source): seq<set<nat>> {
    if sweeps == [] then []
    else
      var last, before := sweeps[|sweeps| - 1], Of(sweeps[..|sweeps| - 1], source);
      if last.source == source then before + [last.ids] else before
  }

  /** The source has made `n` passes, and its last `n` all missed the service. */
  ghost predicate LastMissed(sweeps: seq<Sweep>, source: Source, id: nat, n: nat) {
    var own := Of(sweeps, source);
    n <= |own| && forall k :: |own| - n <= k < |own| ==> id !in own[k]
  }

  /** Counting from the last sighting is the same as looking at the last passes. */
  lemma {:induction false} MissedSinceIs(sweeps: seq<Sweep>, source: Source, id: nat, n: nat)
    ensures MissedSince(sweeps, source, id) >= n <==> LastMissed(sweeps, source, id, n)
  {
    if sweeps != [] && n > 0 {
      var last, before := sweeps[|sweeps| - 1], sweeps[..|sweeps| - 1];
      if last.source != source {
        MissedSinceIs(before, source, id, n);
      } else {
        MissedSinceIs(before, source, id, n - 1);
        var own, was := Of(sweeps, source), Of(before, source);
        assert own == was + [last.ids];
        assert forall k :: 0 <= k < |was| ==> own[k] == was[k];
        assert own[|own| - 1] == last.ids;
      }
    }
  }

  /** The counter a row should show in the middle of a pass of `source` that has seen `seen`. */
  ghost function Expected(sweeps: seq<Sweep>, source: Source, seen: set<nat>, src: Source, id: nat): Option<nat> {
    if src == source && id in seen then Some(0)
    else if EverSeen(sweeps, src, id) then Some(MissedSince(sweeps, src, id))
    else None
  }

  lemma SweepCounts(sweeps: seq<Sweep>, source: Source, seen: set<nat>, src: Source, id: nat)
    ensures Expected(sweeps + [Sweep(source, seen)], Manual, {}, src, id)
         == var e := Expected(sweeps, source, seen, src, id);
            if e.Some? && src == source && id !in seen then Some(e.value + 1) else e
  {
    var all := sweeps + [Sweep(source, seen)];
    assert all[..|all| - 1] == sweeps && all[|all| - 1] == Sweep(source, seen);
    assert forall k :: 0 <= k < |sweeps| ==> all[k] == sweeps[k];
    assert EverSeen(all, src, id) <==> EverSeen(sweeps, src, id) || (src == source && id in seen);
  }

  // -- the invariants ------------------------------------------------------------------------

  /** Different services have different ids and names, ids are not reused, and every row belongs to a service. */
  ghost predicate Named(r: Registry) {
    && OwnIds(r.services)
    && (forall i, j :: 0 <= i < j < |r.services| ==> r.services[i].name != r.services[j].name)
    && (forall i :: 0 <= i < |r.services| ==> r.services[i].id < r.nextId)
    && OneRowEach(r.rows)
    && forall row :: row in r.rows ==> Live(r.services, row.service)
  }

  ghost predicate Live(services: seq<Service>, id: nat) {
    exists i :: 0 <= i < |services| && services[i].id == id
  }

  /** Passes only saw services that existed. */
  ghost predicate Bounded(sweeps: seq<Sweep>, seen: set<nat>, nextId: nat) {
    (forall id :: id in seen ==> id < nextId)
    && forall k, id :: 0 <= k < |sweeps| && id in sweeps[k].ids ==> id < nextId
  }

  /** The rows of discovery sources say what the history says. */
  ghost predicate Counted(r: Registry, sweeps: seq<Sweep>, source: Source, seen: set<nat>) {
    forall i, src :: 0 <= i < |r.services| && src != Manual ==>
      View(r.rows, r.services[i].id, src) == Expected(sweeps, source, seen, src, r.services[i].id)
  }

  ghost predicate Flagged(r: Registry, threshold: nat) {
    forall i :: 0 <= i < |r.services| ==> (r.services[i].stale <==> Lost(r.rows, r.services[i].id, threshold))
  }

  ghost predicate Sound(r: Registry, sweeps: seq<Sweep>, source: Source, seen: set<nat>, threshold: nat) {
    Named(r) && Bounded(sweeps, seen, r.nextId) && Counted(r, sweeps, source, seen) && Flagged(r, threshold)
  }

  // -- one candidate -----------------------------------------------------------------------------

  /** What taking a candidate does, whichever branch it takes: service `i` is seen. */
  ghost predicate Takes(p: Pass, q: Pass, source: Source, externalId: string, i: nat) {
    && i < |q.reg.services|
    && q.seen == p.seen + {q.reg.services[i].id}
    && q.reg.rows == Upserted(p.reg.rows, q.reg.services[i].id, source, externalId)
    && !q.reg.services[i].stale
    && (forall j :: 0 <= j < |p.reg.services| && j != i ==> j < |q.reg.services| && q.reg.services[j] == p.reg.services[j])
    && if i < |p.reg.services| then
         |q.reg.services| == |p.reg.services| && q.reg.nextId == p.reg.nextId
         && q.reg.services[i].id == p.reg.services[i].id && q.reg.services[i].name == p.reg.services[i].name
       else
         i == |p.reg.services| && |q.reg.services| == i + 1 && q.reg.nextId == p.reg.nextId + 1
         && q.reg.services[i].id == p.reg.nextId
         && forall j :: 0 <= j < i ==> p.reg.services[j].name != q.reg.services[i].name
  }

  lemma TakeTakes(hostOf: HostOf, p: Pass, source: Source, hints: Hints, d: Item) returns (i: nat)
    ensures Takes(p, Take(hostOf, p, source, hints, d), source, d.externalId, i)
  {
    hide Upserted;
    hide Changes;
    var m := Resolve(hostOf, p.reg.services, hints, d);
    if m.None? {
      i := |p.reg.services|;
      assert ByName(p.reg.services, d.name).None?;
    } else {
      i := m.value;
    }
  }

  lemma TakesNamed(p: Pass, q: Pass, source: Source, externalId: string, i: nat)
    requires Takes(p, q, source, externalId, i) && Named(p.reg)
    ensures Named(q.reg)
  {
    var id := q.reg.services[i].id;
    UpsertedOnce(p.reg.rows, id, source, externalId);
    UpsertedOwners(p.reg.rows, id, source, externalId);
    hide Upserted;
    TakesOwnNames(p, q, source, externalId, i);
    hide OneRowEach;
    hide OwnIds;
    forall row | row in q.reg.rows ensures Live(q.reg.services, row.service) {
      if row.service == id {
        assert q.reg.services[i].id == row.service;
      } else {
        assert Live(p.reg.services, row.service);
        var j :| 0 <= j < |p.reg.services| && p.reg.services[j].id == row.service;
        assert q.reg.services[j].id == row.service;
      }
    }
  }

  lemma TakesOwnNames(p: Pass, q: Pass, source: Source, externalId: string, i: nat)
    requires Takes(p, q, source, externalId, i) && Named(p.reg)
    ensures OwnIds(q.reg.services)
    ensures forall j, k :: 0 <= j < k < |q.reg.services| ==> q.reg.services[j].name != q.reg.services[k].name
    ensures forall j :: 0 <= j < |q.reg.services| ==> q.reg.services[j].id < q.reg.nextId
  {
    hide Upserted;
    hide OneRowEach;
    hide Live;
    assert forall j :: 0 <= j < |p.reg.services| ==>
      q.reg.services[j].id == p.reg.services[j].id && q.reg.services[j].name == p.reg.services[j].name;
  }

  lemma NoRowYet(r: Registry, src: Source)
    requires Named(r)
    ensures View(r.rows, r.nextId, src).None?
  {
    forall k | 0 <= k < |r.rows| ensures r.rows[k].service < r.nextId {
      assert r.rows[k] in r.rows;
    }
  }

  lemma TakesCounted(p: Pass, q: Pass, source: Source, externalId: string, i: nat, sweeps: seq<Sweep>)
    requires Takes(p, q, source, externalId, i) && Named(p.reg) && Named(q.reg)
    requires Bounded(sweeps, p.seen, p.reg.nextId) && Counted(p.reg, sweeps, source, p.seen)
    ensures Bounded(sweeps, q.seen, q.reg.nextId) && Counted(q.reg, sweeps, source, q.seen)
  {
    var id := q.reg.services[i].id;
    UpsertedView(p.reg.rows, id, source, externalId);
    hide Upserted;
    hide View;
    forall j, src | 0 <= j < |q.reg.services| && src != Manual
      ensures View(q.reg.rows, q.reg.services[j].id, src) == Expected(sweeps, source, q.seen, src, q.reg.services[j].id)
    {
      NoRowYet(p.reg, src);
      if j < |p.reg.services| {
        assert q.reg.services[j].id == p.reg.services[j].id;
        assert View(p.reg.rows, p.reg.services[j].id, src) == Expected(sweeps, source, p.seen, src, p.reg.services[j].id);
      }
    }
  }

  lemma TakesFlagged(p: Pass, q: Pass, source: Source, externalId: string, i: nat, threshold: nat)
    requires Takes(p, q, source, externalId, i) && Named(p.reg) && Named(q.reg)
    requires source != Manual && threshold >= 1 && Flagged(p.reg, threshold)
    ensures Flagged(q.reg, threshold)
  {
    var id := q.reg.services[i].id;
    UpsertedView(p.reg.rows, id, source, externalId);
    hide Upserted;
    hide View;
    forall j | 0 <= j < |q.reg.services|
      ensures q.reg.services[j].stale <==> Lost(q.reg.rows, q.reg.services[j].id, threshold)
    {
      if j == i {
        assert View(q.reg.rows, id, source) == Some(0);
      } else {
        assert q.reg.services[j] == p.reg.services[j] && q.reg.services[j].id != id;
      }
    }
  }

  lemma {:induction false} TakeAllSound(hostOf: HostOf, p: Pass, source: Source, hints: Hints, items: seq<Item>,
                                        sweeps: seq<Sweep>, threshold: nat)
    requires source != Manual && threshold >= 1 && Sound(p.reg, sweeps, source, p.seen, threshold)
    ensures var q := TakeAll(hostOf, p, source, hints, items); Sound(q.reg, sweeps, source, q.seen, threshold)
    decreases |items|
  {
    if items != [] {
      var q := Take(hostOf, p, source, hints, items[0]);
      var i := TakeTakes(hostOf, p, source, hints, items[0]);
      TakesNamed(p, q, source, items[0].externalId, i);
      TakesCounted(p, q, source, items[0].externalId, i, sweeps);
      TakesFlagged(p, q, source, items[0].externalId, i, threshold);
      hide Take;
      hide Takes;
      TakeAllSound(hostOf, q, source, hints, items[1..], sweeps, threshold);
    }
  }

  // -- a whole pass ----------------------------------------------------------------------------------

  lemma PassSound(hostOf: HostOf, r: Registry, source: Source, hints: Hints, items: seq<Item>, sweeps: seq<Sweep>, threshold: nat)
    requires source != Manual && threshold >= 1 && Sound(r, sweeps, Manual, {}, threshold)
    ensures var p := Taken(hostOf, r, source, hints, items);
      Sound(Reconciled(hostOf, r, source, hints, items, threshold), sweeps + [Sweep(source, p.seen)], Manual, {}, threshold)
  {
    assert Counted(r, sweeps, source, {}) by {
      forall i, src | 0 <= i < |r.services| && src != Manual
        ensures View(r.rows, r.services[i].id, src) == Expected(sweeps, source, {}, src, r.services[i].id)
      {
        assert Expected(sweeps, source, {}, src, r.services[i].id) == Expected(sweeps, Manual, {}, src, r.services[i].id);
      }
    }
    TakeAllSound(hostOf, Pass(r, {}, 0, 0), source, hints, items, sweeps, threshold);
    var p := Taken(hostOf, r, source, hints, items);
    MarkFromIs(p.reg, p.reg, source, p.seen, threshold, 0);
    MarkedSound(p.reg, MarkFrom(p.reg, source, p.seen, threshold, 0), source, p.seen, sweeps, threshold);
  }

  /** Names, ids and rows are the same up to flags and counters. */
  ghost predicate SameOwners(r: Registry, t: Registry) {
    && t.nextId == r.nextId && |t.services| == |r.services| && |t.rows| == |r.rows|
    && (forall i :: 0 <= i < |r.services| ==> t.services[i].id == r.services[i].id && t.services[i].name == r.services[i].name)
    && forall j :: 0 <= j < |r.rows| ==> t.rows[j].service == r.rows[j].service && t.rows[j].source == r.rows[j].source
  }

  lemma SameOwnersNamed(r: Registry, t: Registry)
    requires Named(r) && SameOwners(r, t)
    ensures Named(t)
  {
    hide Live;
    forall row | row in t.rows ensures Live(t.services, row.service) {
      var j :| 0 <= j < |t.rows| && t.rows[j] == row;
      assert r.rows[j] in r.rows;
      LiveSame(r, t, row.service);
    }
  }

  lemma LiveSame(r: Registry, t: Registry, id: nat)
    requires SameOwners(r, t) && Live(r.services, id)
    ensures Live(t.services, id)
  {
    var i :| 0 <= i < |r.services| && r.services[i].id == id;
    assert t.services[i].id == id;
  }

  lemma MarkedNamed(r: Registry, t: Registry, source: Source, seen: set<nat>, threshold: nat)
    requires Named(r) && Marked(r, t, source, seen, threshold, |r.rows|)
    ensures Named(t)
  {
    assert SameOwners(r, t) by {
      hide Named;
      hide GivenUp;
    }
    hide Marked;
    hide SameOwners;
    hide Named;
    SameOwnersNamed(r, t);
  }

  lemma MarkedCounted(r: Registry, t: Registry, source: Source, seen: set<nat>, sweeps: seq<Sweep>, threshold: nat)
    requires OneRowEach(r.rows) && Counted(r, sweeps, source, seen) && Marked(r, t, source, seen, threshold, |r.rows|)
    ensures Counted(t, sweeps + [Sweep(source, seen)], Manual, {})
  {
    forall i, src | 0 <= i < |t.services| && src != Manual
      ensures View(t.rows, t.services[i].id, src)
           == Expected(sweeps + [Sweep(source, seen)], Manual, {}, src, t.services[i].id)
    {
      assert t.services[i].id == r.services[i].id;
      MarkedView(r.rows, t.rows, source, seen, r.services[i].id, src);
      SweepCounts(sweeps, source, seen, src, t.services[i].id);
      assert View(r.rows, r.services[i].id, src) == Expected(sweeps, source, seen, src, r.services[i].id);
    }
  }

  lemma MarkedSound(r: Registry, t: Registry, source: Source, seen: set<nat>, sweeps: seq<Sweep>, threshold: nat)
    requires source != Manual && Sound(r, sweeps, source, seen, threshold)
    requires Marked(r, t, source, seen, threshold, |r.rows|)
    ensures Sound(t, sweeps + [Sweep(source, seen)], Manual, {}, threshold)
  {
    MarkedNamed(r, t, source, seen, threshold);
    MarkedCounted(r, t, source, seen, sweeps, threshold);
    hide Lost;
    forall i | 0 <= i < |r.services| ensures t.services[i].stale <==> Lost(t.rows, t.services[i].id, threshold) {
      StaleIsLost(r, t, source, seen, threshold, i);
      assert t.services[i].id == r.services[i].id;
    }
    var all := sweeps + [Sweep(source, seen)];
    assert forall k :: 0 <= k < |sweeps| ==> all[k] == sweeps[k];
    assert Bounded(all, {}, t.nextId);
  }

  // -- edits by hand -----------------------------------------------------------------------------------

  lemma LostSame(rows: seq<Row>, others: seq<Row>, id: nat, threshold: nat)
    requires forall src :: src != Manual ==> View(rows, id, src) == View(others, id, src)
    ensures Lost(rows, id, threshold) == Lost(others, id, threshold)
  {
    hide View;
  }

  lemma CreatedNamed(r: Registry, s: Service, actor: Actor)
    requires Named(r) && ByName(r.services, s.name).None?
    ensures Named(CreatedIn(r, s, actor))
  {
    var t := CreatedIn(r, s, actor);
    forall k | 0 <= k < |r.rows| ensures r.rows[k].service < r.nextId { assert r.rows[k] in r.rows; }
    forall w | w in t.rows ensures Live(t.services, w.service) {
      if w in r.rows {
        var i :| 0 <= i < |r.services| && r.services[i].id == w.service;
        assert t.services[i].id == w.service;
      } else {
        assert t.services[|r.services|].id == w.service;
      }
    }
  }

  lemma CreatedSound(r: Registry, s: Service, actor: Actor, sweeps: seq<Sweep>, threshold: nat)
    requires Sound(r, sweeps, Manual, {}, threshold) && !s.stale && ByName(r.services, s.name).None?
    ensures Sound(CreatedIn(r, s, actor), sweeps, Manual, {}, threshold)
  {
    var t := CreatedIn(r, s, actor);
    CreatedNamed(r, s, actor);
    hide Named;
    forall id, src | src != Manual ensures View(t.rows, id, src) == View(r.rows, id, src) {
      ViewTail(r.rows, Row(r.nextId, Manual, s.name, 0), id, src);
    }
    forall src ensures View(r.rows, r.nextId, src).None? { NoRowYet(r, src); }
    hide View;
    forall i, src | 0 <= i < |t.services| && src != Manual
      ensures View(t.rows, t.services[i].id, src) == Expected(sweeps, Manual, {}, src, t.services[i].id)
    {
      if i < |r.services| {
        assert View(r.rows, r.services[i].id, src) == Expected(sweeps, Manual, {}, src, r.services[i].id);
      }
    }
    forall i | 0 <= i < |t.services| ensures t.services[i].stale <==> Lost(t.rows, t.services[i].id, threshold) {
      if i < |r.services| { LostSame(t.rows, r.rows, t.services[i].id, threshold); }
    }
  }

  lemma {:induction false} EditedKeeps(s: Service, log: seq<Event>, es: seq<Edit>, actor: Actor)
    requires Typed(es)
    ensures var t := Edited(s, log, es, actor).0; t.id == s.id && t.name == s.name && t.stale == s.stale
    decreases |es|
  {
    if es != [] {
      if Applies(s, es[0]) {
        var v := es[0].value.value;
        SetGet(s, es[0].field, v, Stale);
        EditedKeeps(Set(s, es[0].field, v), log + [Event(s.id, What.Of(es[0].field), Get(s, es[0].field), v, actor)], es[1..], actor);
      } else {
        EditedKeeps(s, log, es[1..], actor);
      }
    }
  }

  lemma UpdatedSound(r: Registry, id: nat, es: seq<Edit>, actor: Actor, sweeps: seq<Sweep>, threshold: nat)
    requires Sound(r, sweeps, Manual, {}, threshold) && Typed(es)
    ensures Sound(UpdatedIn(r, id, es, actor), sweeps, Manual, {}, threshold)
  {
    var at := ById(r.services, id);
    if at.Some? {
      EditedKeeps(r.services[at.value], r.log, es, actor);
      var t := UpdatedIn(r, id, es, actor);
      SameFaces(r, t, sweeps, threshold);
    }
  }

  /** Only ids, names, stale flags and rows matter to the invariants. */
  lemma SameFaces(r: Registry, t: Registry, sweeps: seq<Sweep>, threshold: nat)
    requires Sound(r, sweeps, Manual, {}, threshold)
    requires t.rows == r.rows && t.nextId == r.nextId && |t.services| == |r.services|
    requires forall i :: 0 <= i < |r.services| ==>
      t.services[i].id == r.services[i].id && t.services[i].name == r.services[i].name && t.services[i].stale == r.services[i].stale
    ensures Sound(t, sweeps, Manual, {}, threshold)
  {
    hide View;
    hide Lost;
    forall row | row in t.rows ensures Live(t.services, row.service) {
      var i :| 0 <= i < |r.services| && r.services[i].id == row.service;
      assert t.services[i].id == row.service;
    }
    forall i, src | 0 <= i < |t.services| && src != Manual
      ensures View(t.rows, t.services[i].id, src) == Expected(sweeps, Manual, {}, src, t.services[i].id)
    {
      assert View(r.rows, r.services[i].id, src) == Expected(sweeps, Manual, {}, src, r.services[i].id);
    }
    forall i | 0 <= i < |t.services| ensures t.services[i].stale <==> Lost(t.rows, t.services[i].id, threshold) {
      assert r.services[i].stale <==> Lost(r.rows, r.services[i].id, threshold);
    }
  }

  lemma DeletedNamed(r: Registry, k: nat, id: nat, actor: Actor)
    requires Named(r) && ById(r.services, id) == Some(k)
    ensures Named(DeletedIn(r, id, actor))
  {
    var t := DeletedIn(r, id, actor);
    WithoutOnce(r.rows, id);
    WithoutRows(r.rows, id);
    hide RowsWithout;
    DeletedOwnNames(r, k, id, actor);
    hide OneRowEach;
    hide OwnIds;
    assert r.services[k].id == id;
    assert forall i :: 0 <= i < |t.services| ==> t.services[i] == r.services[if i < k then i else i + 1];
    forall row | row in t.rows ensures Live(t.services, row.service) {
      var i :| 0 <= i < |r.services| && r.services[i].id == row.service;
      assert t.services[if i < k then i else i - 1].id == row.service;
    }
  }

  lemma DeletedOwnNames(r: Registry, k: nat, id: nat, actor: Actor)
    requires Named(r) && ById(r.services, id) == Some(k)
    ensures var services := DeletedIn(r, id, actor).services;
      OwnIds(services) && (forall i, j :: 0 <= i < j < |services| ==> services[i].name != services[j].name)
      && forall i :: 0 <= i < |services| ==> services[i].id < r.nextId
  {
    hide RowsWithout;
    hide OneRowEach;
    hide Live;
    var services := DeletedIn(r, id, actor).services;
    assert forall i :: 0 <= i < |services| ==> services[i] == r.services[if i < k then i else i + 1];
  }

  /** Each service that is left is the old one, and its rows are too. */
  lemma DeletedKeeps(r: Registry, k: nat, id: nat, actor: Actor, i: nat)
    requires Named(r) && ById(r.services, id) == Some(k) && i < |r.services| - 1
    ensures var t := DeletedIn(r, id, actor); var j := if i < k then i else i + 1;
      |t.services| == |r.services| - 1 && t.services[i] == r.services[j]
      && forall src :: View(t.rows, r.services[j].id, src) == View(r.rows, r.services[j].id, src)
  {
    WithoutView(r.rows, id);
    hide RowsWithout;
    hide View;
  }

  lemma DeletedSound(r: Registry, id: nat, actor: Actor, sweeps: seq<Sweep>, threshold: nat)
    requires Sound(r, sweeps, Manual, {}, threshold)
    ensures Sound(DeletedIn(r, id, actor), sweeps, Manual, {}, threshold)
  {
    var at := ById(r.services, id);
    if at.Some? {
      var t, k := DeletedIn(r, id, actor), at.value;
      DeletedNamed(r, k, id, actor);
      forall i | 0 <= i < |t.services|
        ensures forall src :: src != Manual ==>
          View(t.rows, t.services[i].id, src) == Expected(sweeps, Manual, {}, src, t.services[i].id)
        ensures t.services[i].stale <==> Lost(t.rows, t.services[i].id, threshold)
      {
        DeletedKeeps(r, k, id, actor, i);
        hide View;
        hide RowsWithout;
        hide Expected;
        var j := if i < k then i else i + 1;
        assert r.services[j].stale <==> Lost(r.rows, r.services[j].id, threshold);
        LostSame(t.rows, r.rows, r.services[j].id, threshold);
        hide Lost;
      }
    }
  }

  // -- runs ----------------------------------------------------------------------------------------------

  datatype Op =
    | Add(service: Service, actor: Actor)
    | Change(id: nat, edits: seq<Edit>, actor: Actor)
    | Remove(id: nat, actor: Actor)
    | Discover(source: Source, items: seq<Item>, hints: Hints)

  /** New services are not stale, edits fit their columns, and passes are those of discovery sources. */
  predicate Legal(op: Op) {
    match op
    case Add(s, _) => !s.stale
    case Change(_, es, _) => Typed(es)
    case Remove(_, _) => true
    case Discover(source, _, _) => source != Manual
  }

  datatype World = World(reg: Registry, sweeps: seq<Sweep>)

  /** What the operations of the store do to its tables, and the passes that were made. */
  function Act(hostOf: HostOf, threshold: nat, w: World, op: Op): World
    requires Legal(op)
  {
    match op
    case Add(s, actor) => if ByName(w.reg.services, s.name).Some? then w else w.(reg := CreatedIn(w.reg, s, actor))
    case Change(id, es, actor) => w.(reg := UpdatedIn(w.reg, id, es, actor))
    case Remove(id, actor) => w.(reg := DeletedIn(w.reg, id, actor))
    case Discover(source, items, hints) =>
      World(Reconciled(hostOf, w.reg, source, hints, items, threshold),
            w.sweeps + [Sweep(source, Taken(hostOf, w.reg, source, hints, items).seen)])
  }

  function Run(hostOf: HostOf, threshold: nat, ops: seq<Op>): World
    requires forall k :: 0 <= k < |ops| ==> Legal(ops[k])
  {
    if ops == [] then World(EMPTY, [])
    else Act(hostOf, threshold, Run(hostOf, threshold, ops[..|ops| - 1]), ops[|ops| - 1])
  }

  /** The store does what the run says, one call at a time. */
  method Perform(store: Store, threshold: nat, op: Op, ghost w: World)
    requires Legal(op) && store.Tables() == w.reg
    modifies store
    ensures store.Tables() == Act(store.hostOf, threshold, w, op).reg
  {
    match op
    case Add(s, actor) => var _ := store.CreateService(s, actor);
    case Change(id, es, actor) => var _ := store.UpdateService(id, es, actor);
    case Remove(id, actor) => var _ := store.DeleteService(id, actor);
    case Discover(source, items, hints) => var _ := store.Reconcile(source, items, threshold, hints);
  }

  /** So whatever is done to a new store, its tables are those of the run that the theorems are about. */
  method PerformAll(hostOf: HostOf, threshold: nat, ops: seq<Op>) returns (store: Store)
    requires forall k :: 0 <= k < |ops| ==> Legal(ops[k])
    ensures fresh(store) && store.hostOf == hostOf && store.Tables() == Run(hostOf, threshold, ops).reg
  {
    store := new Store(hostOf);
    hide Act;
    for i := 0 to |ops|
      invariant fresh(store) && store.hostOf == hostOf
      invariant store.Tables() == Run(hostOf, threshold, ops[..i]).reg
    {
      assert ops[..i + 1][..i] == ops[..i];
      Perform(store, threshold, ops[i], Run(hostOf, threshold, ops[..i]));
    }
    assert ops[..|ops|] == ops;
  }

  lemma ActSound(hostOf: HostOf, threshold: nat, w: World, op: Op)
    requires Legal(op) && threshold >= 1 && Sound(w.reg, w.sweeps, Manual, {}, threshold)
    ensures var u := Act(hostOf, threshold, w, op); Sound(u.reg, u.sweeps, Manual, {}, threshold)
  {
    hide Sound;
    hide CreatedIn;
    hide UpdatedIn;
    hide DeletedIn;
    hide Reconciled;
    match op
    case Add(s, actor) => if ByName(w.reg.services, s.name).None? { CreatedSound(w.reg, s, actor, w.sweeps, threshold); }
    case Change(id, es, actor) => UpdatedSound(w.reg, id, es, actor, w.sweeps, threshold);
    case Remove(id, actor) => DeletedSound(w.reg, id, actor, w.sweeps, threshold);
    case Discover(source, items, hints) => PassSound(hostOf, w.reg, source, hints, items, w.sweeps, threshold);
  }

  lemma {:induction false} RunSound(hostOf: HostOf, threshold: nat, ops: seq<Op>)
    requires threshold >= 1 && forall k :: 0 <= k < |ops| ==> Legal(ops[k])
    ensures var w := Run(hostOf, threshold, ops); Sound(w.reg, w.sweeps, Manual, {}, threshold)
  {
    if ops != [] {
      RunSound(hostOf, threshold, ops[..|ops| - 1]);
      ActSound(hostOf, threshold, Run(hostOf, threshold, ops[..|ops| - 1]), ops[|ops| - 1]);
    }
  }

  /**
   * A discovery source has a row for a service exactly when one of its passes
   * saw it, and the row counts the source's passes since the last that did.
   */
  lemma CountersFollowHistory(hostOf: HostOf, threshold: nat, ops: seq<Op>, i: nat, source: Source)
    requires threshold >= 1 && forall k :: 0 <= k < |ops| ==> Legal(ops[k])
    requires i < |Run(hostOf, threshold, ops).reg.services| && source != Manual
    ensures var w := Run(hostOf, threshold, ops); var id := w.reg.services[i].id;
      View(w.reg.rows, id, source) == if EverSeen(w.sweeps, source, id) then Some(MissedSince(w.sweeps, source, id)) else None
  {
    RunSound(hostOf, threshold, ops);
  }

  /**
   * A service is stale exactly when a discovery source has reported it and
   * every one that has missed it in each of its last `threshold` passes.
   */
  lemma StaleFollowsHistory(hostOf: HostOf, threshold: nat, ops: seq<Op>, i: nat)
    requires threshold >= 1 && forall k :: 0 <= k < |ops| ==> Legal(ops[k])
    requires i < |Run(hostOf, threshold, ops).reg.services|
    ensures var w := Run(hostOf, threshold, ops); var s := w.reg.services[i];
      s.stale <==> (exists source :: source != Manual && EverSeen(w.sweeps, source, s.id))
                   && forall source :: source != Manual && EverSeen(w.sweeps, source, s.id) ==>
                        LastMissed(w.sweeps, source, s.id, threshold)
  {
    var w := Run(hostOf, threshold, ops);
    var s := w.reg.services[i];
    RunSound(hostOf, threshold, ops);
    hide Run;
    hide EverSeen;
    hide View;
    forall source | source != Manual
      ensures View(w.reg.rows, s.id, source) == Expected(w.sweeps, Manual, {}, source, s.id)
      ensures MissedSince(w.sweeps, source, s.id) >= threshold <==> LastMissed(w.sweeps, source, s.id, threshold)
    {
      MissedSinceIs(w.sweeps, source, s.id, threshold);
    }
    hide LastMissed;
  }

  /** Names and ids stay distinct, each source keeps at most one row for a service, and no row outlives its service. */
  lemma TablesStayKeyed(hostOf: HostOf, threshold: nat, ops: seq<Op>)
    requires threshold >= 1 && forall k :: 0 <= k < |ops| ==> Legal(ops[k])
    ensures Named(Run(hostOf, threshold, ops).reg)
  {
    RunSound(hostOf, threshold, ops);
  }
}
