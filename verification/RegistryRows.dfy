/**
 * What the provenance rows say about a service, source by source, and how
 * each operation on the rows changes that.
 */
module RegistryRows {
  import opened Wrappers
  import opened RegistryModel
  import opened RegistryStore

  /** At most one row for a service and a source. */
  ghost predicate OneRowEach(rows: seq<Row>) {
    forall j, k :: 0 <= j < k < |rows| ==> !(rows[j].service == rows[k].service && rows[j].source == rows[k].source)
  }

  /** The missed passes on record, if the source has a row for the service. */
  function View(rows: seq<Row>, id: nat, source: Source): Option<nat> {
    var k := RowOf(rows, id, source);
    if k.Some? then Some(rows[k.value].missed) else None
  }

  lemma ViewIs(rows: seq<Row>, k: nat)
    requires OneRowEach(rows) && k < |rows|
    ensures View(rows, rows[k].service, rows[k].source) == Some(rows[k].missed)
  {
    var at := RowOf(rows, rows[k].service, rows[k].source);
    assert at.Some?;
  }

  lemma ViewFrom(rows: seq<Row>, id: nat, source: Source) returns (k: nat)
    requires View(rows, id, source).Some?
    ensures k < |rows| && rows[k].service == id && rows[k].source == source && rows[k].missed == View(rows, id, source).value
  {
    k := RowOf(rows, id, source).value;
  }

  /** Every discovery source that has a row has missed the service `threshold` times, and there is one. */
  ghost predicate Lost(rows: seq<Row>, id: nat, threshold: nat) {
    (exists source :: source != Manual && View(rows, id, source).Some?)
    && forall source :: source != Manual && View(rows, id, source).Some? ==> View(rows, id, source).value >= threshold
  }

  lemma StillSeenIs(rows: seq<Row>, id: nat, threshold: nat)
    requires OneRowEach(rows)
    ensures StillSeen(rows, id, threshold)
      <==> exists source :: source != Manual && View(rows, id, source).Some? && View(rows, id, source).value < threshold
  {
    if StillSeen(rows, id, threshold) {
      var j :| 0 <= j < |rows| && rows[j].service == id && rows[j].source != Manual && rows[j].missed < threshold;
      ViewIs(rows, j);
      assert View(rows, id, rows[j].source) == Some(rows[j].missed);
    }
    if source :| source != Manual && View(rows, id, source).Some? && View(rows, id, source).value < threshold {
      var k := ViewFrom(rows, id, source);
    }
  }

  // -- _upsert_source ---------------------------------------------------------------------

  /** After the upsert the source has a row with no missed pass; every other row is as it was. */
  lemma UpsertedView(rows: seq<Row>, service: nat, source: Source, externalId: string)
    requires OneRowEach(rows)
    ensures var after := Upserted(rows, service, source, externalId);
      OneRowEach(after)
      && forall id, src :: View(after, id, src) == if id == service && src == source then Some(0) else View(rows, id, src)
  {
    var after := Upserted(rows, service, source, externalId);
    UpsertedOnce(rows, service, source, externalId);
    forall id, src ensures View(after, id, src) == if id == service && src == source then Some(0) else View(rows, id, src) {
      UpsertedAt(rows, service, source, externalId, id, src);
    }
  }

  /** The owners of the rows: those there were, and the service and source upserted. */
  lemma UpsertedOnce(rows: seq<Row>, service: nat, source: Source, externalId: string)
    requires OneRowEach(rows)
    ensures OneRowEach(Upserted(rows, service, source, externalId))
  {
    var after := Upserted(rows, service, source, externalId);
    assert forall j :: 0 <= j < |rows| ==> after[j].service == rows[j].service && after[j].source == rows[j].source;
  }

  lemma UpsertedAt(rows: seq<Row>, service: nat, source: Source, externalId: string, id: nat, src: Source)
    requires OneRowEach(rows)
    ensures View(Upserted(rows, service, source, externalId), id, src)
         == if id == service && src == source then Some(0) else View(rows, id, src)
  {
    var after := Upserted(rows, service, source, externalId);
    UpsertedOnce(rows, service, source, externalId);
    var at := RowOf(rows, service, source);
    assert after[if at.Some? then at.value else |rows|].(externalId := externalId) == Row(service, source, externalId, 0);
    if View(rows, id, src).Some? {
      var k := ViewFrom(rows, id, src);
      assert after[k].service == id;
    }
    if k :| 0 <= k < |after| && after[k].service == id && after[k].source == src {
      ViewIs(after, k);
      if k < |rows| { ViewIs(rows, k); }
    }
  }

  lemma UpsertedOwners(rows: seq<Row>, service: nat, source: Source, externalId: string)
    ensures forall row :: row in Upserted(rows, service, source, externalId) ==>
      row.service == service || exists was :: was in rows && was.service == row.service
  {
  }

  // -- delete_service ---------------------------------------------------------------------

  /** A deletion removes the service's rows and no others. */
  lemma WithoutView(rows: seq<Row>, service: nat)
    requires OneRowEach(rows)
    ensures OneRowEach(RowsWithout(rows, service))
    ensures forall id, src :: View(RowsWithout(rows, service), id, src) == if id == service then None else View(rows, id, src)
    ensures forall row :: row in RowsWithout(rows, service) <==> row in rows && row.service != service
  {
    WithoutRows(rows, service);
    WithoutOnce(rows, service);
    hide View;
    hide RowsWithout;
    forall id, src ensures View(RowsWithout(rows, service), id, src) == if id == service then None else View(rows, id, src) {
      WithoutAt(rows, service, id, src);
    }
  }

  lemma {:induction false} WithoutRows(rows: seq<Row>, service: nat)
    ensures forall row :: row in RowsWithout(rows, service) <==> row in rows && row.service != service
  {
    if rows != [] {
      WithoutRows(rows[1..], service);
      assert rows == [rows[0]] + rows[1..];
    }
  }

  lemma {:induction false} WithoutOnce(rows: seq<Row>, service: nat)
    requires OneRowEach(rows)
    ensures OneRowEach(RowsWithout(rows, service))
  {
    if rows != [] {
      var head, rest := rows[0], rows[1..];
      assert forall k :: 0 <= k < |rest| ==> rest[k] == rows[k + 1];
      WithoutOnce(rest, service);
      WithoutRows(rest, service);
      var kept := RowsWithout(rest, service);
      forall k | 0 <= k < |kept| ensures !(head.service == kept[k].service && head.source == kept[k].source) {
        assert kept[k] in rest;
        var j :| 0 <= j < |rest| && rest[j] == kept[k];
      }
    }
  }

  lemma {:induction false} WithoutAt(rows: seq<Row>, service: nat, id: nat, src: Source)
    ensures View(RowsWithout(rows, service), id, src) == if id == service then None else View(rows, id, src)
  {
    if rows != [] {
      WithoutAt(rows[1..], service, id, src);
      ViewHead(rows[0], rows[1..], id, src);
      ViewHead(rows[0], RowsWithout(rows[1..], service), id, src);
      assert rows == [rows[0]] + rows[1..];
      hide View;
    }
  }

  lemma ViewHead(head: Row, rest: seq<Row>, id: nat, src: Source)
    ensures View([head] + rest, id, src)
         == if head.service == id && head.source == src then Some(head.missed) else View(rest, id, src)
  {
    assert ([head] + rest)[1..] == rest;
  }

  lemma {:induction false} ViewTail(rows: seq<Row>, row: Row, id: nat, src: Source)
    ensures View(rows + [row], id, src)
         == if View(rows, id, src).Some? then View(rows, id, src)
            else if row.service == id && row.source == src then Some(row.missed) else None
  {
    if rows == [] {
      assert rows + [row] == [row] + [];
      ViewHead(row, [], id, src);
    } else {
      ViewTail(rows[1..], row, id, src);
      assert rows == [rows[0]] + rows[1..] && rows + [row] == [rows[0]] + (rows[1..] + [row]);
      ViewHead(rows[0], rows[1..], id, src);
      ViewHead(rows[0], rows[1..] + [row], id, src);
    }
  }

  // -- _mark_stale --------------------------------------------------------------------------

  /** Different services have different ids. */
  ghost predicate OwnIds(services: seq<Service>) {
    forall i, j :: 0 <= i < j < |services| ==> services[i].id != services[j].id
  }

  /** The rows after the first `k` of them have been looked at. */
  ghost predicate RowsMarked(was: seq<Row>, rows: seq<Row>, source: Source, seen: set<nat>, k: nat) {
    && k <= |was| == |rows|
    && forall j :: 0 <= j < |was| ==>
         rows[j] == if j < k && Missing(was[j], source, seen) then Bumped(was[j]) else was[j]
  }

  /** Row `j` gives its service up: the pass missed it once too often, and no source still sees it. */
  ghost predicate GivesUp(was: seq<Row>, rows: seq<Row>, source: Source, seen: set<nat>, threshold: nat, j: nat)
    requires j < |was|
  {
    Missing(was[j], source, seen) && Bumped(was[j]).missed >= threshold && !StillSeen(rows, was[j].service, threshold)
  }

  ghost predicate GivenUp(was: seq<Row>, rows: seq<Row>, source: Source, seen: set<nat>, threshold: nat, k: nat, id: nat)
    requires k <= |was|
  {
    exists j :: 0 <= j < k && was[j].service == id && GivesUp(was, rows, source, seen, threshold, j)
  }

  /** The tables before the marking, and after its first `k` rows. */
  ghost predicate Marked(r: Registry, t: Registry, source: Source, seen: set<nat>, threshold: nat, k: nat) {
    && RowsMarked(r.rows, t.rows, source, seen, k)
    && t.nextId == r.nextId
    && |t.services| == |r.services|
    && forall i :: 0 <= i < |r.services| ==>
         t.services[i] == r.services[i].(stale :=
           r.services[i].stale || GivenUp(r.rows, t.rows, source, seen, threshold, k, r.services[i].id))
  }

  /** Rows that are done with do not change their verdict when the next row is marked. */
  lemma VerdictStays(was: seq<Row>, rows: seq<Row>, next: seq<Row>, source: Source, seen: set<nat>, threshold: nat, k: nat, j: nat)
    requires OneRowEach(was) && RowsMarked(was, rows, source, seen, k) && RowsMarked(was, next, source, seen, k + 1)
    requires j < k
    ensures GivesUp(was, next, source, seen, threshold, j) == GivesUp(was, rows, source, seen, threshold, j)
  {
    if Missing(was[j], source, seen) {
      assert forall m :: 0 <= m < |was| && was[m].service == was[j].service ==> next[m] == rows[m];
      assert forall m :: 0 <= m < |was| ==> rows[m].service == was[m].service && next[m].service == was[m].service;
    }
  }

  lemma MarkOneStep(r: Registry, t: Registry, source: Source, seen: set<nat>, threshold: nat, k: nat)
    requires OneRowEach(r.rows) && OwnIds(r.services) && k < |r.rows|
    requires Marked(r, t, source, seen, threshold, k)
    ensures Marked(r, MarkOne(t, source, seen, threshold, k), source, seen, threshold, k + 1)
  {
    var u := MarkOne(t, source, seen, threshold, k);
    assert RowsMarked(r.rows, u.rows, source, seen, k + 1);
    forall i | 0 <= i < |r.services|
      ensures u.services[i] == r.services[i].(stale :=
        r.services[i].stale || GivenUp(r.rows, u.rows, source, seen, threshold, k + 1, r.services[i].id))
    {
      MarkOneService(r, t, source, seen, threshold, k, i);
    }
  }

  lemma MarkOneService(r: Registry, t: Registry, source: Source, seen: set<nat>, threshold: nat, k: nat, i: nat)
    requires OneRowEach(r.rows) && OwnIds(r.services) && k < |r.rows| && i < |r.services|
    requires Marked(r, t, source, seen, threshold, k)
    ensures var u := MarkOne(t, source, seen, threshold, k);
      RowsMarked(r.rows, u.rows, source, seen, k + 1) && |u.services| == |r.services| && u.services[i] == r.services[i].(stale :=
        r.services[i].stale || GivenUp(r.rows, u.rows, source, seen, threshold, k + 1, r.services[i].id))
  {
    var u := MarkOne(t, source, seen, threshold, k);
    assert RowsMarked(r.rows, u.rows, source, seen, k + 1);
    assert forall m :: 0 <= m < |r.services| ==> t.services[m].id == r.services[m].id;
    GivenUpNext(r.rows, t.rows, u.rows, source, seen, threshold, k, r.services[i].id);
    MarkOneEffect(t, source, seen, threshold, k, i);
    hide MarkOne;
    hide GivenUp;
    hide StillSeen;
  }

  /** The first `k + 1` rows give a service up when the first `k` do or the next does. */
  lemma GivenUpNext(was: seq<Row>, rows: seq<Row>, next: seq<Row>, source: Source, seen: set<nat>, threshold: nat, k: nat, id: nat)
    requires OneRowEach(was) && RowsMarked(was, rows, source, seen, k) && RowsMarked(was, next, source, seen, k + 1)
    ensures GivenUp(was, next, source, seen, threshold, k + 1, id)
      <==> GivenUp(was, rows, source, seen, threshold, k, id)
           || (was[k].service == id && GivesUp(was, next, source, seen, threshold, k))
  {
    forall j | 0 <= j < k ensures GivesUp(was, next, source, seen, threshold, j) == GivesUp(was, rows, source, seen, threshold, j) {
      VerdictStays(was, rows, next, source, seen, threshold, k, j);
    }
    hide GivesUp;
    hide RowsMarked;
    hide OneRowEach;
  }

  lemma MarkOneEffect(t: Registry, source: Source, seen: set<nat>, threshold: nat, k: nat, i: nat)
    requires OwnIds(t.services) && k < |t.rows| && i < |t.services|
    ensures var u := MarkOne(t, source, seen, threshold, k); var row := t.rows[k];
      |u.services| == |t.services| && u.services[i] == t.services[i].(stale := t.services[i].stale
        || (row.service == t.services[i].id && Missing(row, source, seen) && Bumped(row).missed >= threshold
            && !StillSeen(u.rows, row.service, threshold)))
  {
    hide StillSeen;
  }

  /** Marking, row by row. */
  lemma {:induction false} MarkFromIs(r: Registry, t: Registry, source: Source, seen: set<nat>, threshold: nat, k: nat)
    requires OneRowEach(r.rows) && OwnIds(r.services)
    requires Marked(r, t, source, seen, threshold, k)
    ensures Marked(r, MarkFrom(t, source, seen, threshold, k), source, seen, threshold, |r.rows|)
    decreases |r.rows| - k
  {
    if k < |r.rows| {
      MarkOneStep(r, t, source, seen, threshold, k);
      hide MarkOne;
      hide Marked;
      assert |t.rows| == |MarkOne(t, source, seen, threshold, k).rows| by { assert Marked(r, t, source, seen, threshold, k); }
      MarkFromIs(r, MarkOne(t, source, seen, threshold, k), source, seen, threshold, k + 1);
    }
  }

  /** Marking counts one more missed pass for each row of the source whose service was not seen. */
  lemma MarkedView(was: seq<Row>, rows: seq<Row>, source: Source, seen: set<nat>, id: nat, src: Source)
    requires OneRowEach(was) && RowsMarked(was, rows, source, seen, |was|)
    ensures OneRowEach(rows)
    ensures View(rows, id, src)
         == if View(was, id, src).Some? && src == source && id !in seen then Some(View(was, id, src).value + 1) else View(was, id, src)
  {
    assert forall j :: 0 <= j < |was| ==> rows[j].service == was[j].service && rows[j].source == was[j].source;
    if View(was, id, src).Some? {
      var k := ViewFrom(was, id, src);
      ViewIs(rows, k);
    } else if View(rows, id, src).Some? {
      var k := ViewFrom(rows, id, src);
      ViewIs(was, k);
      assert false;
    }
  }

  /** After marking, a service is stale exactly when every discovery source that reported it has lost it. */
  lemma StaleIsLost(r: Registry, t: Registry, source: Source, seen: set<nat>, threshold: nat, i: nat)
    requires OneRowEach(r.rows) && source != Manual && i < |r.services|
    requires Marked(r, t, source, seen, threshold, |r.rows|)
    requires r.services[i].stale <==> Lost(r.rows, r.services[i].id, threshold)
    ensures t.services[i].stale <==> Lost(t.rows, r.services[i].id, threshold)
  {
    var id := r.services[i].id;
    forall src
      ensures View(t.rows, id, src).Some? <==> View(r.rows, id, src).Some?
      ensures View(r.rows, id, src).Some? ==> View(t.rows, id, src).value >= View(r.rows, id, src).value
    {
      MarkedView(r.rows, t.rows, source, seen, id, src);
    }
    MarkedView(r.rows, t.rows, source, seen, id, source);
    StillSeenIs(t.rows, id, threshold);
    forall j | 0 <= j < |r.rows| && r.rows[j].service == id && GivesUp(r.rows, t.rows, source, seen, threshold, j)
      ensures Lost(t.rows, id, threshold)
    {
      ViewIs(r.rows, j);
      assert View(t.rows, id, source).Some?;
    }
    if !r.services[i].stale && Lost(t.rows, id, threshold) {
      var src :| src != Manual && View(r.rows, id, src).Some? && View(r.rows, id, src).value < threshold;
      MarkedView(r.rows, t.rows, source, seen, id, src);
      var j := ViewFrom(r.rows, id, src);
      assert GivesUp(r.rows, t.rows, source, seen, threshold, j);
    }
  }
}
