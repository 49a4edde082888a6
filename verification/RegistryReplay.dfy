/**
 * The change log replays. Reading a service's events on one column in order,
 * from its value at creation, each event starts from the value the one before
 * left, changes it, and the last leaves the value the service now has.
 */
module RegistryReplay {
  import opened Wrappers
  import opened RegistryModel
  import opened RegistryStore
  import opened RegistryRows
  import opened RegistryHistory

  /**
   * The value of a column after the log, from the value `v`; `None` if some
   * event does not start from the value before it, or changes nothing.
   */
  function Replay(log: seq<Event>, id: nat, f: Field, v: Value): Option<Value> {
    if log == [] then Some(v)
    else
      var e := log[|log| - 1];
      var before := Replay(log[..|log| - 1], id, f, v);
      if before.None? || e.service != id || e.what != What.Of(f) then before
      else if e.was == before.value && e.becomes != e.was then Some(e.becomes)
      else None
  }

  lemma ReplayLast(log: seq<Event>, e: Event, id: nat, f: Field, v: Value)
    ensures var before := Replay(log, id, f, v);
      Replay(log + [e], id, f, v)
        == if before.None? || e.service != id || e.what != What.Of(f) then before
           else if e.was == before.value && e.becomes != e.was then Some(e.becomes) else None
  {
    assert (log + [e])[..|log + [e]| - 1] == log;
  }

  lemma {:induction false} ReplayOthers(log: seq<Event>, more: seq<Event>, id: nat, f: Field, v: Value)
    requires forall k :: 0 <= k < |more| ==> more[k].service != id || more[k].what != What.Of(f)
    ensures Replay(log + more, id, f, v) == Replay(log, id, f, v)
  {
    if more == [] {
      assert log + more == log;
    } else {
      var init, e := more[..|more| - 1], more[|more| - 1];
      ReplayOthers(log, init, id, f, v);
      ReplayLast(log + init, e, id, f, v);
      assert log + more == (log + init) + [e];
    }
  }

  /** The events of a merge, replayed: each column that differs ends with its new value. */
  lemma {:induction false} ReplayRecorded(log: seq<Event>, s: Service, us: seq<Update>, actor: Actor, f: Field, v: Value)
    requires forall j, k :: 0 <= j < k < |us| ==> us[j].field != us[k].field
    requires forall k :: 0 <= k < |us| ==> us[k].value != Get(s, us[k].field)
    requires Replay(log, s.id, f, v) == Some(Get(s, f))
    ensures forall k :: 0 <= k < |us| && us[k].field == f ==>
      Replay(log + Recorded(s, us, actor), s.id, f, v) == Some(us[k].value)
    ensures (forall k :: 0 <= k < |us| ==> us[k].field != f) ==>
      Replay(log + Recorded(s, us, actor), s.id, f, v) == Some(Get(s, f))
    decreases |us|
  {
    hide Get;
    hide Replay;
    var es := Recorded(s, us, actor);
    if us == [] {
      assert log + es == log;
    } else {
      var n := |us| - 1;
      ReplayRecorded(log, s, us[..n], actor, f, v);
      assert Recorded(s, us[..n], actor) == es[..n];
      assert log + es == (log + es[..n]) + [es[n]];
      ReplayLast(log + es[..n], es[n], s.id, f, v);
      assert forall k :: 0 <= k < n ==> us[..n][k] == us[k];
      assert us[n].field == f ==> forall k :: 0 <= k < n ==> us[..n][k].field != f;
    }
  }

  lemma {:induction false} ChangesComplete(s: Service, t: Service, fields: seq<Field>, f: Field)
    requires f in fields && Get(s, f) != Get(t, f)
    ensures exists k :: 0 <= k < |Changes(s, t, fields)| && Changes(s, t, fields)[k].field == f
  {
    hide Get;
    var us := Changes(s, t, fields);
    if f != fields[0] {
      ChangesComplete(s, t, fields[1..], f);
      var more := Changes(s, t, fields[1..]);
      var k :| 0 <= k < |more| && more[k].field == f;
      assert us[|us| - |more| + k] == more[k];
    } else {
      assert us[0].field == f;
    }
  }

  lemma ReplayChanges(log: seq<Event>, s: Service, t: Service, fields: seq<Field>, actor: Actor, f: Field, v: Value)
    requires Once(fields) && (Get(s, f) != Get(t, f) ==> f in fields)
    requires Replay(log, s.id, f, v) == Some(Get(s, f))
    ensures Replay(log + Recorded(s, Changes(s, t, fields), actor), s.id, f, v) == Some(Get(t, f))
  {
    var us := Changes(s, t, fields);
    ChangesOnce(s, t, fields);
    hide Replay;
    hide Get;
    hide Changes;
    ReplayRecorded(log, s, us, actor, f, v);
    if Get(s, f) != Get(t, f) {
      ChangesComplete(s, t, fields, f);
    }
  }

  /** The events a report leaves, replayed: the service after the report. */
  lemma ReplayMerge(log: seq<Event>, s: Service, d: Item, actor: Actor, f: Field, v: Value)
    requires Replay(log, s.id, f, v) == Some(Get(s, f))
    ensures Replay(log + Recorded(s, Changes(s, Merge(s, d), ORDER), actor), s.id, f, v) == Some(Get(Merge(s, d), f))
  {
    if Get(s, f) != Get(Merge(s, d), f) { MergeTouches(s, d, f); }
    hide Merge;
    hide Get;
    ReplayChanges(log, s, Merge(s, d), ORDER, actor, f, v);
  }

  lemma MergeTouches(s: Service, d: Item, f: Field)
    requires Get(s, f) != Get(Merge(s, d), f)
    ensures f in ORDER
  {
    hide Dedupe;
    assert ORDER[0] == Router && ORDER[1] == Slug && ORDER[2] == Mode && ORDER[3] == Host && ORDER[4] == Urls;
    assert ORDER[5] == TraefikMode && ORDER[6] == AuthentikMode && ORDER[7] == Conflict;
  }

  /** The whole of what taking a known service logs. */
  lemma ReplayTaken(log: seq<Event>, s: Service, d: Item, actor: Actor, f: Field, v: Value)
    requires Replay(log, s.id, f, v) == Some(Get(s, f))
    ensures var t := Merge(s, d);
      Replay(log + Recorded(s, Changes(s, t, ORDER), actor) + Revived(s, actor), s.id, f, v)
        == Some(Get(t.(stale := false), f))
  {
    var t := Merge(s, d);
    var more := log + Recorded(s, Changes(s, t, ORDER), actor);
    ReplayMerge(log, s, d, actor, f, v);
    assert t.stale == s.stale && t.id == s.id by { hide Dedupe; }
    hide Merge;
    hide Changes;
    SetGet(t, Stale, Flag(false), f);
    assert Set(t, Stale, Flag(false)) == t.(stale := false);
    if s.stale {
      ReplayLast(more, Event(s.id, What.Of(Stale), Flag(true), Flag(false), actor), s.id, f, v);
    } else {
      assert more + [] == more;
    }
  }

  lemma {:induction false} ReplayEdited(s: Service, log: seq<Event>, es: seq<Edit>, actor: Actor, f: Field, v: Value)
    requires Typed(es) && Replay(log, s.id, f, v) == Some(Get(s, f))
    ensures var (t, after) := Edited(s, log, es, actor);
      Replay(after, s.id, f, v) == Some(Get(t, f)) && log <= after
      && forall k :: |log| <= k < |after| ==> after[k].service == s.id
    decreases |es|
  {
    hide Get;
    hide Set;
    hide Replay;
    if es != [] {
      if Applies(s, es[0]) {
        var field, w := es[0].field, es[0].value.value;
        var e := Event(s.id, What.Of(field), Get(s, field), w, actor);
        SetGet(s, field, w, f);
        ReplayLast(log, e, s.id, f, v);
        ReplayEdited(Set(s, field, w), log + [e], es[1..], actor, f, v);
      } else {
        ReplayEdited(s, log, es[1..], actor, f, v);
      }
    }
  }

  // -- the invariant ----------------------------------------------------------------------------

  /** The service is what the log makes of its birth. */
  ghost predicate Follows(log: seq<Event>, birth: Service, s: Service) {
    forall f :: Replay(log, s.id, f, Get(birth, f)) == Some(Get(s, f))
  }

  /** The log replays for every service ever created, and for those still there it ends at their columns. */
  ghost predicate Logged(r: Registry, births: map<nat, Service>) {
    && (forall i :: 0 <= i < |r.services| ==> r.services[i].id in births && Follows(r.log, births[r.services[i].id], r.services[i]))
    && (forall id :: id in births ==> id < r.nextId)
    && (forall id, f :: id in births ==> Replay(r.log, id, f, Get(births[id], f)).Some?)
    && (forall k :: 0 <= k < |r.log| ==> r.log[k].service < r.nextId)
  }

  /** One service changes, and events on it tell how. */
  ghost predicate Touches(r: Registry, t: Registry, i: nat, es: seq<Event>) {
    && i < |r.services| && |t.services| == |r.services|
    && t.services == r.services[i := t.services[i]] && t.services[i].id == r.services[i].id
    && t.log == r.log + es && t.nextId == r.nextId
    && forall k :: 0 <= k < |es| ==> es[k].service == r.services[i].id
  }

  lemma TouchLogged(r: Registry, t: Registry, i: nat, es: seq<Event>, births: map<nat, Service>)
    requires Logged(r, births) && OwnIds(r.services) && Touches(r, t, i, es)
    requires forall id :: id in births && id == r.services[i].id ==> Follows(t.log, births[id], t.services[i])
    requires r.services[i].id < r.nextId
    ensures Logged(t, births)
  {
    var x := r.services[i].id;
    forall id, f | id in births && id != x ensures Replay(t.log, id, f, Get(births[id], f)) == Replay(r.log, id, f, Get(births[id], f)) {
      ReplayOthers(r.log, es, id, f, Get(births[id], f));
    }
    hide Replay;
    hide Get;
    forall id, f | id in births ensures Replay(t.log, id, f, Get(births[id], f)).Some? {
      if id == x { assert Follows(t.log, births[id], t.services[i]); }
    }
    forall j | 0 <= j < |t.services| ensures t.services[j].id in births && Follows(t.log, births[t.services[j].id], t.services[j]) {
      if j != i {
        var id := r.services[j].id;
        assert id in births && Follows(r.log, births[id], r.services[j]) && id != x;
      }
    }
  }

  /** A new service, with nothing logged but its creation. */
  lemma BornLogged(r: Registry, t: Registry, s: Service, e: Event, births: map<nat, Service>)
    requires Logged(r, births) && s.id == r.nextId && t.nextId == r.nextId + 1
    requires t.services == r.services + [s] && t.log == r.log + [e] && e.what.Created? && e.service == s.id
    ensures Logged(t, births[s.id := s])
  {
    var more := births[s.id := s];
    forall id, f, v ensures Replay(t.log, id, f, v) == Replay(r.log, id, f, v) {
      ReplayLast(r.log, e, id, f, v);
    }
    forall f, v ensures Replay(r.log, s.id, f, v) == Some(v) {
      ReplayOthers([], r.log, s.id, f, v);
      assert [] + r.log == r.log;
    }
    hide Replay;
    hide Get;
    forall j | 0 <= j < |t.services| ensures t.services[j].id in more && Follows(t.log, more[t.services[j].id], t.services[j]) {
      if j < |r.services| {
        var id := r.services[j].id;
        assert id in births && Follows(r.log, births[id], r.services[j]) && id != s.id;
      }
    }
  }

  // -- passes -----------------------------------------------------------------------------------

  /** The services a pass creates, as they were created. */
  function BornIn(hostOf: HostOf, p: Pass, source: Source, hints: Hints, items: seq<Item>): map<nat, Service>
    decreases |items|
  {
    if items == [] then map[]
    else
      var d := items[0];
      var rest := BornIn(hostOf, Take(hostOf, p, source, hints, d), source, hints, items[1..]);
      if Resolve(hostOf, p.reg.services, hints, d).None? then rest[p.reg.nextId := NewService(p.reg.nextId, hints, d)] else rest
  }

  lemma TakeKnownLogged(p: Pass, source: Source, d: Item, i: nat, births: map<nat, Service>)
    requires Logged(p.reg, births) && OwnIds(p.reg.services) && i < |p.reg.services| && p.reg.services[i].id < p.reg.nextId
    ensures Logged(TakeKnown(p, source, d, i).reg, births)
  {
    var r, q := p.reg, TakeKnown(p, source, d, i);
    var s, actor := r.services[i], Discovery(source);
    var es := Recorded(s, Changes(s, Merge(s, d), ORDER), actor) + Revived(s, actor);
    assert q.reg.log == r.log + es;
    assert Merge(s, d).id == s.id by { hide Dedupe; }
    assert q.reg.services == r.services[i := Merge(s, d).(stale := false)];
    forall k | 0 <= k < |es| ensures es[k].service == s.id { hide Changes; }
    forall f ensures Replay(q.reg.log, s.id, f, Get(births[s.id], f)) == Some(Get(q.reg.services[i], f)) {
      hide Merge;
      assert Follows(r.log, births[s.id], s);
      ReplayTaken(r.log, s, d, actor, f, Get(births[s.id], f));
      assert q.reg.log == r.log + Recorded(s, Changes(s, Merge(s, d), ORDER), actor) + Revived(s, actor);
    }
    hide Merge;
    hide Changes;
    hide Replay;
    hide Get;
    hide Upserted;
    TouchLogged(r, q.reg, i, es, births);
  }

  lemma {:induction false} BornAreNew(hostOf: HostOf, p: Pass, source: Source, hints: Hints, items: seq<Item>)
    ensures forall id :: id in BornIn(hostOf, p, source, hints, items) ==> id >= p.reg.nextId
    decreases |items|
  {
    if items != [] {
      hide Resolve;
      hide Upserted;
      hide Changes;
      hide Merge;
      var q := Take(hostOf, p, source, hints, items[0]);
      assert q.reg.nextId >= p.reg.nextId;
      hide Take;
      BornAreNew(hostOf, q, source, hints, items[1..]);
    }
  }

  lemma TakeNewLogged(p: Pass, source: Source, hints: Hints, d: Item, births: map<nat, Service>)
    requires Logged(p.reg, births)
    ensures Logged(TakeNew(p, source, hints, d).reg, births[p.reg.nextId := NewService(p.reg.nextId, hints, d)])
  {
    hide Upserted;
    var s := NewService(p.reg.nextId, hints, d);
    var q := TakeNew(p, source, hints, d);
    hide Logged;
    BornLogged(p.reg, q.reg, s, Event(s.id, Created, Absent, Text(s.name), Discovery(source)), births);
  }

  /** Taking one candidate, with the births it brings. */
  lemma TakeLogged(hostOf: HostOf, p: Pass, source: Source, hints: Hints, d: Item, births: map<nat, Service>)
    returns (more: map<nat, Service>)
    requires Named(p.reg) && Logged(p.reg, births)
    ensures var q := Take(hostOf, p, source, hints, d); Named(q.reg) && Logged(q.reg, more)
    ensures more == if Resolve(hostOf, p.reg.services, hints, d).None?
                    then births[p.reg.nextId := NewService(p.reg.nextId, hints, d)] else births
  {
    var q := Take(hostOf, p, source, hints, d);
    var m := Resolve(hostOf, p.reg.services, hints, d);
    assert Named(q.reg) by {
      var i := TakeTakes(hostOf, p, source, hints, d);
      hide Take;
      hide Named;
      TakesNamed(p, q, source, d.externalId, i);
    }
    assert OwnIds(p.reg.services) && forall i :: 0 <= i < |p.reg.services| ==> p.reg.services[i].id < p.reg.nextId;
    hide Resolve;
    hide Logged;
    hide Named;
    hide TakeNew;
    hide TakeKnown;
    if m.None? {
      TakeNewLogged(p, source, hints, d, births);
      more := births[p.reg.nextId := NewService(p.reg.nextId, hints, d)];
    } else {
      TakeKnownLogged(p, source, d, m.value, births);
      more := births;
    }
  }

  lemma MapMove<K, V>(a: map<K, V>, b: map<K, V>, k: K, v: V)
    requires k !in b
    ensures a + b[k := v] == a[k := v] + b
  {
  }

  lemma NextIdGrows(hostOf: HostOf, p: Pass, source: Source, hints: Hints, d: Item)
    requires Resolve(hostOf, p.reg.services, hints, d).None?
    ensures Take(hostOf, p, source, hints, d).reg.nextId == p.reg.nextId + 1
  {
    hide Resolve;
    hide Upserted;
    hide NewService;
  }

  /** The births of a pass are those of its first candidate and then the others. */
  lemma BornFirst(hostOf: HostOf, p: Pass, source: Source, hints: Hints, items: seq<Item>, births: map<nat, Service>)
    requires items != []
    ensures var q := Take(hostOf, p, source, hints, items[0]);
      births + BornIn(hostOf, p, source, hints, items)
      == (if Resolve(hostOf, p.reg.services, hints, items[0]).None?
          then births[p.reg.nextId := NewService(p.reg.nextId, hints, items[0])] else births)
         + BornIn(hostOf, q, source, hints, items[1..])
  {
    hide Resolve;
    hide NewService;
    var q := Take(hostOf, p, source, hints, items[0]);
    if Resolve(hostOf, p.reg.services, hints, items[0]).None? {
      NextIdGrows(hostOf, p, source, hints, items[0]);
      hide Take;
      BornAreNew(hostOf, q, source, hints, items[1..]);
      MapMove(births, BornIn(hostOf, q, source, hints, items[1..]), p.reg.nextId, NewService(p.reg.nextId, hints, items[0]));
    }
  }

  lemma {:induction false} TakeAllLogged(hostOf: HostOf, p: Pass, source: Source, hints: Hints, items: seq<Item>, births: map<nat, Service>)
    requires Named(p.reg) && Logged(p.reg, births)
    ensures var q := TakeAll(hostOf, p, source, hints, items);
      Named(q.reg) && Logged(q.reg, births + BornIn(hostOf, p, source, hints, items))
    decreases |items|
  {
    hide Named;
    hide Logged;
    hide Take;
    hide Resolve;
    if items == [] {
      assert births + BornIn(hostOf, p, source, hints, items) == births;
    } else {
      var more := TakeLogged(hostOf, p, source, hints, items[0], births);
      BornFirst(hostOf, p, source, hints, items, births);
      TakeAllLogged(hostOf, Take(hostOf, p, source, hints, items[0]), source, hints, items[1..], more);
    }
  }

  lemma MarkOneLogged(r: Registry, source: Source, seen: set<nat>, threshold: nat, k: nat, births: map<nat, Service>)
    requires k < |r.rows| && Logged(r, births) && OwnIds(r.services)
    requires forall i :: 0 <= i < |r.services| ==> r.services[i].id < r.nextId
    ensures var t := MarkOne(r, source, seen, threshold, k);
      Logged(t, births) && OwnIds(t.services) && t.nextId == r.nextId
      && forall i :: 0 <= i < |t.services| ==> t.services[i].id < t.nextId
  {
    hide StillSeen;
    var t := MarkOne(r, source, seen, threshold, k);
    var at := ById(r.services, r.rows[k].service);
    if t.log != r.log {
      var i := at.value;
      var s := r.services[i];
      var e := Event(s.id, What.Of(Stale), Flag(false), Flag(true), Discovery(source));
      assert t.log == r.log + [e] && t.services == r.services[i := s.(stale := true)] && !s.stale;
      forall f ensures Replay(t.log, s.id, f, Get(births[s.id], f)) == Some(Get(t.services[i], f)) {
        assert Follows(r.log, births[s.id], s);
        ReplayLast(r.log, e, s.id, f, Get(births[s.id], f));
        SetGet(s, Stale, Flag(true), f);
      }
      hide Logged;
      hide Replay;
      hide Get;
      TouchLogged(r, t, i, [e], births);
    } else {
      hide Replay;
      assert t.services == r.services;
    }
  }

  lemma {:induction false} MarkFromLogged(r: Registry, source: Source, seen: set<nat>, threshold: nat, k: nat, births: map<nat, Service>)
    requires k <= |r.rows| && Logged(r, births) && OwnIds(r.services)
    requires forall i :: 0 <= i < |r.services| ==> r.services[i].id < r.nextId
    ensures Logged(MarkFrom(r, source, seen, threshold, k), births)
    decreases |r.rows| - k
  {
    if k < |r.rows| {
      MarkOneLogged(r, source, seen, threshold, k, births);
      assert |MarkOne(r, source, seen, threshold, k).rows| == |r.rows|;
      hide MarkOne;
      hide Logged;
      MarkFromLogged(MarkOne(r, source, seen, threshold, k), source, seen, threshold, k + 1, births);
    }
  }

  lemma PassLogged(hostOf: HostOf, r: Registry, source: Source, hints: Hints, items: seq<Item>, threshold: nat, births: map<nat, Service>)
    requires Named(r) && Logged(r, births)
    ensures Logged(Reconciled(hostOf, r, source, hints, items, threshold),
                   births + BornIn(hostOf, Pass(r, {}, 0, 0), source, hints, items))
  {
    var born := births + BornIn(hostOf, Pass(r, {}, 0, 0), source, hints, items);
    TakeAllLogged(hostOf, Pass(r, {}, 0, 0), source, hints, items, births);
    var p := Taken(hostOf, r, source, hints, items);
    hide Logged;
    MarkFromLogged(p.reg, source, p.seen, threshold, 0, born);
  }

  // -- edits by hand, and runs ----------------------------------------------------------------------

  lemma UpdatedLogged(r: Registry, id: nat, es: seq<Edit>, actor: Actor, births: map<nat, Service>)
    requires Named(r) && Logged(r, births) && Typed(es)
    ensures Logged(UpdatedIn(r, id, es, actor), births)
  {
    var at := ById(r.services, id);
    if at.Some? {
      var i := at.value;
      var s := r.services[i];
      var t := UpdatedIn(r, id, es, actor);
      EditedKeeps(s, r.log, es, actor);
      forall f
        ensures Replay(t.log, s.id, f, Get(births[s.id], f)) == Some(Get(t.services[i], f))
        ensures r.log <= t.log && forall k :: |r.log| <= k < |t.log| ==> t.log[k].service == s.id
      {
        assert Follows(r.log, births[s.id], s);
        ReplayEdited(s, r.log, es, actor, f, Get(births[s.id], f));
      }
      hide Replay;
      hide Get;
      hide Edited;
      assert Replay(t.log, s.id, Stale, Get(births[s.id], Stale)) == Some(Get(t.services[i], Stale));
      var more := t.log[|r.log|..];
      assert t.log == r.log + more;
      TouchLogged(r, t, i, more, births);
    }
  }

  lemma DeletedLogged(r: Registry, id: nat, actor: Actor, births: map<nat, Service>)
    requires Named(r) && Logged(r, births)
    ensures Logged(DeletedIn(r, id, actor), births)
  {
    var at := ById(r.services, id);
    if at.Some? {
      var t, k := DeletedIn(r, id, actor), at.value;
      var e := Event(id, Deleted, Text(r.services[k].name), Absent, actor);
      hide RowsWithout;
      forall x, f, v ensures Replay(t.log, x, f, v) == Replay(r.log, x, f, v) {
        ReplayLast(r.log, e, x, f, v);
      }
      hide Replay;
      hide Get;
      forall j | 0 <= j < |t.services| ensures t.services[j].id in births && Follows(t.log, births[t.services[j].id], t.services[j]) {
        var i := if j < k then j else j + 1;
        assert t.services[j] == r.services[i];
        assert Follows(r.log, births[r.services[i].id], r.services[i]);
      }
    }
  }

  /** Every service a run created, as it was created. */
  function Births(hostOf: HostOf, threshold: nat, ops: seq<Op>): map<nat, Service>
    requires forall k :: 0 <= k < |ops| ==> Legal(ops[k])
  {
    if ops == [] then map[]
    else
      var r := Run(hostOf, threshold, ops[..|ops| - 1]).reg;
      var before := Births(hostOf, threshold, ops[..|ops| - 1]);
      match ops[|ops| - 1]
      case Add(s, _) => if ByName(r.services, s.name).Some? then before else before[r.nextId := s.(id := r.nextId)]
      case Discover(source, items, hints) => before + BornIn(hostOf, Pass(r, {}, 0, 0), source, hints, items)
      case _ => before
  }

  lemma CreatedLogged(r: Registry, s: Service, actor: Actor, births: map<nat, Service>)
    requires Logged(r, births)
    ensures Logged(CreatedIn(r, s, actor), births[r.nextId := s.(id := r.nextId)])
  {
    hide Logged;
    BornLogged(r, CreatedIn(r, s, actor), s.(id := r.nextId), Event(r.nextId, Created, Absent, Text(s.name), actor), births);
  }

  lemma {:induction false} RunLogged(hostOf: HostOf, threshold: nat, ops: seq<Op>)
    requires threshold >= 1 && forall k :: 0 <= k < |ops| ==> Legal(ops[k])
    ensures Logged(Run(hostOf, threshold, ops).reg, Births(hostOf, threshold, ops))
  {
    if ops != [] {
      var init := ops[..|ops| - 1];
      RunLogged(hostOf, threshold, init);
      TablesStayKeyed(hostOf, threshold, init);
      var r, births := Run(hostOf, threshold, init).reg, Births(hostOf, threshold, init);
      hide Logged;
      hide Named;
      hide CreatedIn;
      hide UpdatedIn;
      hide DeletedIn;
      hide Reconciled;
      match ops[|ops| - 1]
      case Add(s, actor) => CreatedLogged(r, s, actor, births);
      case Change(id, es, actor) => UpdatedLogged(r, id, es, actor, births);
      case Remove(id, actor) => DeletedLogged(r, id, actor, births);
      case Discover(source, items, hints) => PassLogged(hostOf, r, source, hints, items, threshold, births);
    }
  }

  /**
   * In every run of creations, edits, deletions and passes, for every service
   * and column: the events replay from the value at creation, each starting
   * from what the one before left and changing it, and end at the value the
   * service has now. That holds for the events of deleted services as well.
   */
  lemma LogReplays(hostOf: HostOf, threshold: nat, ops: seq<Op>, f: Field)
    requires threshold >= 1 && forall k :: 0 <= k < |ops| ==> Legal(ops[k])
    ensures var log, births := Run(hostOf, threshold, ops).reg.log, Births(hostOf, threshold, ops);
      forall id :: id in births ==> Replay(log, id, f, Get(births[id], f)).Some?
    ensures var r, births := Run(hostOf, threshold, ops).reg, Births(hostOf, threshold, ops);
      forall s :: s in r.services ==> s.id in births && Replay(r.log, s.id, f, Get(births[s.id], f)) == Some(Get(s, f))
  {
    RunLogged(hostOf, threshold, ops);
    hide Replay;
    hide Run;
    hide Births;
    hide Get;
  }
}
