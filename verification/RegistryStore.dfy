/**
 * `registry/store.py`: the service table, the provenance rows of each source
 * and the change log, and what create, update, delete and a discovery pass do
 * to them. Every method is tied to a function of the old tables; the later
 * modules reason about those functions over whole runs.
 */
module RegistryStore {
  import opened Wrappers
  import opened RegistryModel

  /** A row of `ServiceSource`. */
  datatype Row = Row(service: nat, source: Source, externalId: string, missed: nat)

  datatype Actor = By(name: string) | Discovery(source: Source)

  datatype What = Created | Deleted | Of(field: Field)

  /** A row of `ChangeEvent`, with the values before they are turned into text. */
  datatype Event = Event(service: nat, what: What, was: Value, becomes: Value, actor: Actor)

  datatype Registry = Registry(services: seq<Service>, rows: seq<Row>, log: seq<Event>, nextId: nat)

  const EMPTY := Registry([], [], [], 0)

  // -- lookups -----------------------------------------------------------------------------

  function First<T>(s: seq<T>, p: T -> bool): (r: Option<nat>)
    ensures r.Some? ==> r.value < |s| && p(s[r.value]) && forall i :: 0 <= i < r.value ==> !p(s[i])
    ensures r.None? ==> forall i :: 0 <= i < |s| ==> !p(s[i])
  {
    if s == [] then None
    else if p(s[0]) then Some(0)
    else
      var r := First(s[1..], p);
      if r.Some? then Some(r.value + 1) else None
  }

  /** The host a URL names, lower-cased; `None` when it names none. */
  type HostOf = string -> Option<string>

  function Hosts(hostOf: HostOf, urls: seq<string>): set<string> {
    set u | u in urls && hostOf(u).Some? :: hostOf(u).value
  }

  /** `_hosts`, as the source's loop. */
  method CollectHosts(hostOf: HostOf, urls: seq<string>) returns (hosts: set<string>)
    ensures hosts == Hosts(hostOf, urls)
  {
    hosts := {};
    for i := 0 to |urls|
      invariant hosts == Hosts(hostOf, urls[..i])
    {
      var parsed := hostOf(urls[i]);
      assert urls[..i + 1] == urls[..i] + [urls[i]];
      if parsed.Some? {
        hosts := hosts + {parsed.value};
      }
    }
    assert urls[..|urls|] == urls;
  }

  function ByName(services: seq<Service>, name: string): Option<nat> {
    First(services, (s: Service) => s.name == name)
  }

  function ByRouter(services: seq<Service>, router: Option<string>): Option<nat> {
    First(services, (s: Service) => s.router == router)
  }

  function ByHost(hostOf: HostOf, services: seq<Service>, hosts: set<string>): Option<nat> {
    First(services, (s: Service) => hosts * Hosts(hostOf, s.urls) != {})
  }

  function ById(services: seq<Service>, id: nat): Option<nat> {
    First(services, (s: Service) => s.id == id)
  }

  /** `match_service`: by name, else by router, else by a shared host. */
  function Match(hostOf: HostOf, services: seq<Service>, d: Item): Option<nat> {
    var byName := ByName(services, d.name);
    if byName.Some? then byName
    else
      var byRouter := if Truthy(d.router) then ByRouter(services, d.router) else None;
      if byRouter.Some? then byRouter
      else if Hosts(hostOf, d.urls) != {} then ByHost(hostOf, services, Hosts(hostOf, d.urls))
      else None
  }

  /** What the reasoning layer may fill in for a new service. */
  datatype Enriched = Enriched(
    displayName: Option<string>,
    category: Option<Category>,
    authMode: Option<AuthMode>,
    notes: Option<string>)

  /** The reasoning layer's answers, asked for before the pass; both maps are empty without it. */
  datatype Hints = Hints(matched: map<string, string>, enriched: map<string, Enriched>)

  const NO_HINTS := Hints(map[], map[])

  /** The service a candidate belongs to, by matching and then by the reasoning layer. */
  function Resolve(hostOf: HostOf, services: seq<Service>, hints: Hints, d: Item): (r: Option<nat>)
    ensures r.Some? ==> r.value < |services|
  {
    var m := Match(hostOf, services, d);
    if m.Some? then m
    else if d.externalId in hints.matched && hints.matched[d.externalId] != "" then
      ByName(services, hints.matched[d.externalId])
    else None
  }

  function NewService(id: nat, hints: Hints, d: Item): Service {
    var e := if d.externalId in hints.enriched then hints.enriched[d.externalId] else Enriched(None, None, None, None);
    Service(
      id, d.name,
      if Truthy(e.displayName) then e.displayName.value else if Truthy(d.displayName) then d.displayName.value else d.name,
      if e.category.Some? then e.category.value else if d.category.Some? then d.category.value else OtherCategory,
      d.host, d.urls, d.router, d.slug, false,
      if e.authMode.Some? then e.authMode.value else if d.authMode.Some? then d.authMode.value else Unknown,
      if d.source.Traefik? && Known(d.authMode) then d.authMode else None,
      if d.source.Authentik? && Known(d.authMode) then d.authMode else None,
      false, d.tags,
      if e.notes.Some? then e.notes.value else "",
      false)
  }

  // -- one candidate of a pass -----------------------------------------------------------------

  function RowOf(rows: seq<Row>, service: nat, source: Source): Option<nat> {
    First(rows, (r: Row) => r.service == service && r.source == source)
  }

  /** `_upsert_source`. */
  function Upserted(rows: seq<Row>, service: nat, source: Source, externalId: string): seq<Row> {
    var k := RowOf(rows, service, source);
    if k.Some? then rows[k.value := rows[k.value].(externalId := externalId, missed := 0)]
    else rows + [Row(service, source, externalId, 0)]
  }

  function Recorded(s: Service, us: seq<Update>, actor: Actor): (es: seq<Event>)
    ensures |es| == |us|
    ensures forall i :: 0 <= i < |us| ==> es[i] == Event(s.id, Of(us[i].field), Get(s, us[i].field), us[i].value, actor)
  {
    Map((u: Update) => Event(s.id, Of(u.field), Get(s, u.field), u.value, actor), us)
  }

  function Revived(s: Service, actor: Actor): seq<Event> {
    if s.stale then [Event(s.id, Of(Stale), Flag(true), Flag(false), actor)] else []
  }

  /** A pass so far: the tables, the services seen, and the counts it reports. */
  datatype Pass = Pass(reg: Registry, seen: set<nat>, created: nat, changed: nat)

  function TakeNew(p: Pass, source: Source, hints: Hints, d: Item): Pass {
    var r := p.reg;
    var s := NewService(r.nextId, hints, d);
    Pass(Registry(r.services + [s], Upserted(r.rows, s.id, source, d.externalId),
                  r.log + [Event(s.id, Created, Absent, Text(s.name), Discovery(source))], r.nextId + 1),
         p.seen + {s.id}, p.created + 1, p.changed)
  }

  function TakeKnown(p: Pass, source: Source, d: Item, i: nat): Pass
    requires i < |p.reg.services|
  {
    var r, s := p.reg, p.reg.services[i];
    var t := Merge(s, d);
    Pass(r.(services := r.services[i := t.(stale := false)],
            rows := Upserted(r.rows, s.id, source, d.externalId),
            log := r.log + Recorded(s, Changes(s, t, ORDER), Discovery(source)) + Revived(s, Discovery(source))),
         p.seen + {s.id}, p.created, if t != s then p.changed + 1 else p.changed)
  }

  function Take(hostOf: HostOf, p: Pass, source: Source, hints: Hints, d: Item): Pass {
    var m := Resolve(hostOf, p.reg.services, hints, d);
    if m.None? then TakeNew(p, source, hints, d) else TakeKnown(p, source, d, m.value)
  }

  function TakeAll(hostOf: HostOf, p: Pass, source: Source, hints: Hints, items: seq<Item>): Pass
    decreases |items|
  {
    if items == [] then p else TakeAll(hostOf, Take(hostOf, p, source, hints, items[0]), source, hints, items[1..])
  }

  // -- the services a pass did not see ------------------------------------------------------------

  /** Some discovery source still sees the service, or saw it too recently. */
  predicate StillSeen(rows: seq<Row>, service: nat, threshold: nat) {
    exists j :: 0 <= j < |rows| && rows[j].service == service && rows[j].source != Manual && rows[j].missed < threshold
  }

  predicate Missing(row: Row, source: Source, seen: set<nat>) {
    row.source == source && row.service !in seen
  }

  function Bumped(row: Row): Row { row.(missed := row.missed + 1) }

  /** One turn of the loop of `_mark_stale`. */
  function MarkOne(r: Registry, source: Source, seen: set<nat>, threshold: nat, k: nat): Registry
    requires k < |r.rows|
  {
    var row := r.rows[k];
    if !Missing(row, source, seen) then r
    else
      var rows := r.rows[k := Bumped(row)];
      var i := ById(r.services, row.service);
      if Bumped(row).missed < threshold || i.None? || r.services[i.value].stale || StillSeen(rows, row.service, threshold) then
        r.(rows := rows)
      else
        r.(rows := rows,
           services := r.services[i.value := r.services[i.value].(stale := true)],
           log := r.log + [Event(row.service, Of(Stale), Flag(false), Flag(true), Discovery(source))])
  }

  function MarkFrom(r: Registry, source: Source, seen: set<nat>, threshold: nat, k: nat): (t: Registry)
    requires k <= |r.rows|
    ensures |t.rows| == |r.rows|
    decreases |r.rows| - k
  {
    if k == |r.rows| then r else MarkFrom(MarkOne(r, source, seen, threshold, k), source, seen, threshold, k + 1)
  }

  function CountMissing(rows: seq<Row>, source: Source, seen: set<nat>): nat {
    if rows == [] then 0 else (if Missing(rows[0], source, seen) then 1 else 0) + CountMissing(rows[1..], source, seen)
  }

  /** `reconcile`: the candidates, then the services that were not seen. */
  function Taken(hostOf: HostOf, r: Registry, source: Source, hints: Hints, items: seq<Item>): Pass {
    TakeAll(hostOf, Pass(r, {}, 0, 0), source, hints, items)
  }

  function Reconciled(hostOf: HostOf, r: Registry, source: Source, hints: Hints, items: seq<Item>, threshold: nat): Registry {
    var p := Taken(hostOf, r, source, hints, items);
    MarkFrom(p.reg, source, p.seen, threshold, 0)
  }

  // -- edits by hand ---------------------------------------------------------------------------------

  function CreatedIn(r: Registry, s: Service, actor: Actor): Registry {
    var added := s.(id := r.nextId);
    Registry(r.services + [added], r.rows + [Row(r.nextId, Manual, s.name, 0)],
             r.log + [Event(r.nextId, Created, Absent, Text(s.name), actor)], r.nextId + 1)
  }

  /** `updates`: a value for a column of that type, or `None`; the columns a caller may name. */
  datatype Edit = Edit(field: Field, value: Option<Value>)

  predicate Typed(es: seq<Edit>) {
    forall i :: 0 <= i < |es| ==> es[i].value.Some? ==> Fits(es[i].field, es[i].value.value)
  }

  /** `_MUTABLE_FIELDS`: every column but `stale`. */
  predicate Mutable(f: Field) { !f.Stale? }

  predicate Applies(s: Service, e: Edit) {
    Mutable(e.field) && e.value.Some? && Get(s, e.field) != e.value.value
  }

  /** The service and the log after the edits. */
  function Edited(s: Service, log: seq<Event>, es: seq<Edit>, actor: Actor): (Service, seq<Event>)
    requires Typed(es)
    decreases |es|
  {
    if es == [] then (s, log)
    else if !Applies(s, es[0]) then Edited(s, log, es[1..], actor)
    else
      Edited(Set(s, es[0].field, es[0].value.value),
             log + [Event(s.id, Of(es[0].field), Get(s, es[0].field), es[0].value.value, actor)], es[1..], actor)
  }

  function UpdatedIn(r: Registry, id: nat, es: seq<Edit>, actor: Actor): Registry
    requires Typed(es)
  {
    var i := ById(r.services, id);
    if i.None? then r
    else
      var (s, log) := Edited(r.services[i.value], r.log, es, actor);
      r.(services := r.services[i.value := s], log := log)
  }

  function RowsWithout(rows: seq<Row>, id: nat): seq<Row> {
    if rows == [] then []
    else if rows[0].service == id then RowsWithout(rows[1..], id)
    else [rows[0]] + RowsWithout(rows[1..], id)
  }

  function DeletedIn(r: Registry, id: nat, actor: Actor): Registry {
    var i := ById(r.services, id);
    if i.None? then r
    else
      Registry(Without(r.services, i.value), RowsWithout(r.rows, id),
               r.log + [Event(id, Deleted, Text(r.services[i.value].name), Absent, actor)], r.nextId)
  }

  // -- the store --------------------------------------------------------------------------------------

  /** What a pass reports. */
  datatype Counts = Counts(seen: nat, created: nat, changed: nat, missing: nat)

  class Store {
    const hostOf: HostOf
    var services: seq<Service>
    var rows: seq<Row>
    var log: seq<Event>
    var nextId: nat

    function Tables(): Registry
      reads this
    {
      Registry(services, rows, log, nextId)
    }

    constructor (hostOf: HostOf)
      ensures this.hostOf == hostOf && Tables() == EMPTY
    {
      this.hostOf, services, rows, log, nextId := hostOf, [], [], [], 0;
    }

    method RecordChange(e: Event)
      modifies this`log
      ensures log == old(log) + [e]
    {
      log := log + [e];
    }

    /** `create_service`; `None` stands for `DuplicateServiceError`. */
    method CreateService(s: Service, actor: Actor) returns (created: Option<Service>)
      modifies this
      ensures created.None? <==> exists i :: 0 <= i < |old(services)| && old(services)[i].name == s.name
      ensures Tables() == if created.None? then old(Tables()) else CreatedIn(old(Tables()), s, actor)
      ensures created.Some? ==> created.value == s.(id := old(nextId))
    {
      if ByName(services, s.name).Some? {
        return None;
      }
      var added := s.(id := nextId);
      services := services + [added];
      rows := rows + [Row(added.id, Manual, s.name, 0)];
      RecordChange(Event(added.id, Created, Absent, Text(s.name), actor));
      nextId := nextId + 1;
      created := Some(added);
    }

    /** `update_service`. */
    method UpdateService(id: nat, updates: seq<Edit>, actor: Actor) returns (found: bool)
      requires Typed(updates)
      modifies this
      ensures found <==> ById(old(services), id).Some?
      ensures Tables() == UpdatedIn(old(Tables()), id, updates, actor)
    {
      var at := ById(services, id);
      if at.None? {
        return false;
      }
      var service := services[at.value];
      ghost var before := service;
      for i := 0 to |updates|
        invariant services == old(services) && rows == old(rows) && nextId == old(nextId)
        invariant service.id == before.id
        invariant Edited(service, log, updates[i..], actor) == Edited(before, old(log), updates, actor)
      {
        assert updates[i..][1..] == updates[i + 1..];
        var field, value := updates[i].field, updates[i].value;
        if !Mutable(field) || value.None? {
          continue;
        }
        var was := Get(service, field);
        if was == value.value {
          continue;
        }
        SetGet(service, field, value.value, field);
        RecordChange(Event(service.id, Of(field), was, value.value, actor));
        service := Set(service, field, value.value);
      }
      services := services[at.value := service];
      found := true;
    }

    /** `delete_service`. */
    method DeleteService(id: nat, actor: Actor) returns (found: bool)
      modifies this
      ensures found <==> ById(old(services), id).Some?
      ensures Tables() == DeletedIn(old(Tables()), id, actor)
    {
      var at := ById(services, id);
      if at.None? {
        return false;
      }
      var kept := [];
      for i := 0 to |rows|
        invariant services == old(services) && rows == old(rows) && log == old(log) && nextId == old(nextId)
        invariant kept + RowsWithout(rows[i..], id) == RowsWithout(rows, id)
      {
        assert rows[i..][1..] == rows[i + 1..];
        if rows[i].service != id {
          kept := kept + [rows[i]];
        }
      }
      rows := kept;
      RecordChange(Event(id, Deleted, Text(services[at.value].name), Absent, actor));
      services := Without(services, at.value);
      found := true;
    }

    /** `_upsert_source`. */
    method UpsertSource(service: nat, source: Source, externalId: string)
      modifies this`rows
      ensures rows == Upserted(old(rows), service, source, externalId)
    {
      var k := RowOf(rows, service, source);
      if k.None? {
        rows := rows + [Row(service, source, externalId, 0)];
      } else {
        var row := rows[k.value];
        row := row.(externalId := externalId);
        row := row.(missed := 0);
        rows := rows[k.value := row];
      }
    }

    /** The branch of `reconcile` for a service that is already there. */
    method TakeExisting(source: Source, d: Item, i: nat) returns (changed: bool)
      requires i < |services|
      modifies this
      ensures nextId == old(nextId) && rows == old(rows)
      ensures var s := old(services)[i]; var t := Merge(s, d);
        services == old(services)[i := t.(stale := false)] && (changed <==> t != s)
        && log == old(log) + Recorded(s, Changes(s, t, ORDER), Discovery(source)) + Revived(s, Discovery(source))
    {
      hide Merge;
      hide Changes;
      var service := services[i];
      ghost var s := service;
      var updates := ProvenanceUpdates(service, d);
      ChangesOnce(s, Merge(s, d), ORDER);
      service := WriteUpdates(service, updates, Discovery(source));
      MergeIsItsUpdates(s, d);
      NoUpdatesNoChange(s, d);
      MergeKeeps(s, d);
      hide ApplyAll;
      hide Recorded;
      changed := updates != [];
      if service.stale {
        service := service.(stale := false);
        RecordChange(Event(service.id, Of(Stale), Flag(true), Flag(false), Discovery(source)));
      }
      services := services[i := service];
    }

    /** `setattr` and a change event for each update. */
    method WriteUpdates(s: Service, updates: seq<Update>, actor: Actor) returns (service: Service)
      requires forall k :: 0 <= k < |updates| ==> Fits(updates[k].field, updates[k].value)
      requires forall j, k :: 0 <= j < k < |updates| ==> updates[j].field != updates[k].field
      modifies this`log
      ensures service == ApplyAll(s, updates) && service.id == s.id
      ensures log == old(log) + Recorded(s, updates, actor)
    {
      service := s;
      for k := 0 to |updates|
        invariant service.id == s.id
        invariant ApplyAll(service, updates[k..]) == ApplyAll(s, updates)
        invariant forall j :: k <= j < |updates| ==> Get(service, updates[j].field) == Get(s, updates[j].field)
        invariant log == old(log) + Recorded(s, updates, actor)[..k]
      {
        assert updates[k..][1..] == updates[k + 1..];
        var field, value := updates[k].field, updates[k].value;
        var was := Get(service, field);
        forall j | k < j < |updates| ensures Get(Set(service, field, value), updates[j].field) == Get(s, updates[j].field) {
          SetGet(service, field, value, updates[j].field);
        }
        SetGet(service, field, value, field);
        service := Set(service, field, value);
        RecordChange(Event(service.id, Of(field), was, value, actor));
      }
      assert Recorded(s, updates, actor)[..|updates|] == Recorded(s, updates, actor);
    }

    /** The loop body of `reconcile`. */
    method TakeItem(source: Source, hints: Hints, d: Item, ghost seen: set<nat>, ghost created: nat, ghost changed: nat)
      returns (id: nat, isNew: bool, more: bool)
      modifies this
      ensures Take(hostOf, Pass(old(Tables()), seen, created, changed), source, hints, d)
           == Pass(Tables(), seen + {id}, if isNew then created + 1 else created,
                   if !isNew && more then changed + 1 else changed)
    {
      hide Merge;
      hide Changes;
      hide Upserted;
      hide Resolve;
      var at := Resolve(hostOf, services, hints, d);
      if at.None? {
        var service := NewService(nextId, hints, d);
        services := services + [service];
        nextId := nextId + 1;
        RecordChange(Event(service.id, Created, Absent, Text(service.name), Discovery(source)));
        id, isNew, more := service.id, true, false;
      } else {
        id, isNew := services[at.value].id, false;
        more := TakeExisting(source, d, at.value);
      }
      UpsertSource(id, source, d.externalId);
    }

    /** `reconcile`. */
    method Reconcile(source: Source, discovered: seq<Item>, threshold: nat, hints: Hints) returns (counts: Counts)
      modifies this
      ensures Tables() == Reconciled(hostOf, old(Tables()), source, hints, discovered, threshold)
      ensures var p := Taken(hostOf, old(Tables()), source, hints, discovered);
        counts == Counts(|discovered|, p.created, p.changed, CountMissing(p.reg.rows, source, p.seen))
    {
      var created, changed := 0, 0;
      var seen: set<nat> := {};
      ghost var start := Pass(Tables(), {}, 0, 0);
      hide Take;
      hide MarkFrom;
      for k := 0 to |discovered|
        invariant TakeAll(hostOf, Pass(Tables(), seen, created, changed), source, hints, discovered[k..])
               == TakeAll(hostOf, start, source, hints, discovered)
      {
        assert discovered[k..][1..] == discovered[k + 1..];
        var item := discovered[k];
        var id, isNew, more := TakeItem(source, hints, item, seen, created, changed);
        if isNew {
          created := created + 1;
        } else if more {
          changed := changed + 1;
        }
        seen := seen + {id};
      }
      var missing := MarkStale(source, seen, threshold);
      counts := Counts(|discovered|, created, changed, missing);
    }

    /** `_mark_stale`. */
    method MarkStale(source: Source, seen: set<nat>, threshold: nat) returns (missing: nat)
      modifies this
      ensures Tables() == MarkFrom(old(Tables()), source, seen, threshold, 0)
      ensures missing == CountMissing(old(rows), source, seen)
    {
      missing := 0;
      ghost var before := Tables();
      assert rows[0..] == rows;
      for k := 0 to |rows|
        invariant |rows| == |before.rows| && forall j :: k <= j < |rows| ==> rows[j] == before.rows[j]
        invariant MarkFrom(Tables(), source, seen, threshold, k) == MarkFrom(before, source, seen, threshold, 0)
        invariant missing + CountMissing(before.rows[k..], source, seen) == CountMissing(before.rows, source, seen)
      {
        ghost var r := Tables();
        assert before.rows[k..][1..] == before.rows[k + 1..];
        if rows[k].source == source && rows[k].service !in seen {
          missing := missing + 1;
          MarkRow(source, seen, threshold, k);
        }
        assert Tables() == MarkOne(r, source, seen, threshold, k);
      }
    }

    /** The body of the loop for a row the pass did not see. */
    method MarkRow(source: Source, ghost seen: set<nat>, threshold: nat, k: nat)
      requires k < |rows| && Missing(rows[k], source, seen)
      modifies this
      ensures Tables() == MarkOne(old(Tables()), source, seen, threshold, k)
      ensures |rows| == |old(rows)| && forall j :: 0 <= j < |rows| && j != k ==> rows[j] == old(rows)[j]
    {
      var row := rows[k].(missed := rows[k].missed + 1);
      rows := rows[k := row];
      if row.missed < threshold {
        return;
      }
      var at := ById(services, row.service);
      if at.None? || services[at.value].stale {
        return;
      }
      if StillSeen(rows, row.service, threshold) {
        return;
      }
      services := services[at.value := services[at.value].(stale := true)];
      RecordChange(Event(services[at.value].id, Of(Stale), Flag(false), Flag(true), Discovery(source)));
    }
  }

  lemma {:induction false} ChangesOnce(s: Service, t: Service, fields: seq<Field>)
    requires Once(fields)
    ensures forall j, k :: 0 <= j < k < |Changes(s, t, fields)| ==>
      Changes(s, t, fields)[j].field != Changes(s, t, fields)[k].field
    ensures forall k :: 0 <= k < |Changes(s, t, fields)| ==> Changes(s, t, fields)[k].field in fields
  {
    hide Get;
    if fields != [] {
      var f, rest := fields[0], fields[1..];
      var more := Changes(s, t, rest);
      ChangesOnce(s, t, rest);
      assert fields == [f] + rest;
      ChangesFirst(s, t, f, rest);
      hide Changes;
      forall x | x in rest ensures x != f && x in fields {
        var k :| 0 <= k < |rest| && rest[k] == x;
        assert fields[k + 1] == x;
      }
      assert forall k :: 0 <= k < |more| ==> more[k].field in rest;
      assert Changes(s, t, fields) == Line(s, t, f) + more;
      assert forall k :: 0 <= k < |Line(s, t, f)| ==> Line(s, t, f)[k].field == f;
    }
  }

  /** A report changes a service exactly when it has updates to write. */
  lemma NoUpdatesNoChange(s: Service, d: Item)
    ensures Changes(s, Merge(s, d), ORDER) == [] <==> Merge(s, d) == s
  {
    MergeIsItsUpdates(s, d);
    if Merge(s, d) == s { SameNoChanges(s, ORDER); }
  }

  lemma {:induction false} SameNoChanges(s: Service, fields: seq<Field>)
    ensures Changes(s, s, fields) == []
  {
    if fields != [] { SameNoChanges(s, fields[1..]); }
  }
}
