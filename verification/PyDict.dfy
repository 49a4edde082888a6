/** A Python `dict`: entries under distinct keys, in the order in which keys were first set. */
module PyDict {
  import opened Wrappers

  datatype Entry<K, V> = Entry(key: K, value: V)

  predicate Distinct<K(==), V>(d: seq<Entry<K, V>>) {
    forall i, j :: 0 <= i < j < |d| ==> d[i].key != d[j].key
  }

  /** `d[key] = value`: an existing key keeps its place. */
  function Put<K(==), V>(d: seq<Entry<K, V>>, key: K, value: V): seq<Entry<K, V>> {
    if d == [] then [Entry(key, value)]
    else if d[0].key == key then [Entry(key, value)] + d[1..]
    else [d[0]] + Put(d[1..], key, value)
  }

  /** `d.get(key)`. */
  function Get<K(==), V>(d: seq<Entry<K, V>>, key: K): Option<V> {
    if d == [] then None else if d[0].key == key then Some(d[0].value) else Get(d[1..], key)
  }

  /** A dictionary built by setting the entries of `es` in turn. */
  function PutAll<K(==), V>(d: seq<Entry<K, V>>, es: seq<Entry<K, V>>): seq<Entry<K, V>>
    decreases |es|
  {
    if es == [] then d else PutAll(Put(d, es[0].key, es[0].value), es[1..])
  }

  /** Setting a key keeps keys distinct, brings in no other entry, and touches no other key. */
  lemma {:induction false} PutSets<K, V>(d: seq<Entry<K, V>>, key: K, value: V)
    requires Distinct(d)
    ensures var r := Put(d, key, value);
      Distinct(r) && Get(r, key) == Some(value) && Entry(key, value) in r
      && forall i :: 0 <= i < |r| ==> r[i] == Entry(key, value) || (r[i] in d && r[i].key != key)
  {
    if d != [] {
      if d[0].key == key {
        forall i | 0 < i < |d| ensures d[i].key != key { assert d[0].key != d[i].key; }
      } else {
        var rest := Put(d[1..], key, value);
        PutSets(d[1..], key, value);
        HeadStays(d, rest, key, value);
      }
    }
  }

  lemma HeadStays<K, V>(d: seq<Entry<K, V>>, rest: seq<Entry<K, V>>, key: K, value: V)
    requires d != [] && Distinct(d) && d[0].key != key && Distinct(rest) && Entry(key, value) in rest
    requires forall i :: 0 <= i < |rest| ==> rest[i] == Entry(key, value) || (rest[i] in d[1..] && rest[i].key != key)
    ensures var r := [d[0]] + rest;
      Distinct(r) && Entry(key, value) in r
      && forall i :: 0 <= i < |r| ==> r[i] == Entry(key, value) || (r[i] in d && r[i].key != key)
  {
    forall i | 0 <= i < |rest| ensures rest[i].key != d[0].key && (rest[i] == Entry(key, value) || rest[i] in d) {
      if rest[i] != Entry(key, value) {
        var j :| 0 <= j < |d[1..]| && d[1..][j] == rest[i];
        assert d[j + 1] == rest[i];
      }
    }
  }

  lemma {:induction false} PutNew<K, V>(d: seq<Entry<K, V>>, key: K, value: V)
    requires forall e :: e in d ==> e.key != key
    ensures Put(d, key, value) == d + [Entry(key, value)]
  {
    if d != [] {
      assert d[0] in d;
      PutNew(d[1..], key, value);
    }
  }

  lemma {:induction false} PutAllDistinct<K, V>(d: seq<Entry<K, V>>, es: seq<Entry<K, V>>)
    requires Distinct(d)
    ensures Distinct(PutAll(d, es))
    decreases |es|
  {
    if es != [] {
      PutSets(d, es[0].key, es[0].value);
      PutAllDistinct(Put(d, es[0].key, es[0].value), es[1..]);
    }
  }

  /** Entries under distinct keys come out as they went in. */
  lemma {:induction false} PutAllNew<K, V>(d: seq<Entry<K, V>>, es: seq<Entry<K, V>>)
    requires Distinct(d + es)
    ensures PutAll(d, es) == d + es
    decreases |es|
  {
    if es == [] {
      assert d + es == d;
    } else {
      var all := d + es;
      assert all[|d|] == es[0];
      forall e | e in d ensures e.key != es[0].key {
        var i :| 0 <= i < |d| && d[i] == e;
        assert all[i] == e;
      }
      PutNew(d, es[0].key, es[0].value);
      assert d + [es[0]] + es[1..] == all;
      PutAllNew(d + [es[0]], es[1..]);
    }
  }

  lemma {:induction false} PutGets<K, V>(d: seq<Entry<K, V>>, key: K, value: V, other: K)
    ensures Get(Put(d, key, value), other) == if other == key then Some(value) else Get(d, other)
  {
    if d != [] && d[0].key != key { PutGets(d[1..], key, value, other); }
  }

  /** The last entry set under a key is the one that is read. */
  lemma {:induction false} LastIsRead<K, V>(d: seq<Entry<K, V>>, es: seq<Entry<K, V>>, key: K, k: nat)
    ensures k < |es| && es[k].key == key && (forall j :: k < j < |es| ==> es[j].key != key) ==>
      Get(PutAll(d, es), key) == Some(es[k].value)
    ensures (forall j :: 0 <= j < |es| ==> es[j].key != key) ==> Get(PutAll(d, es), key) == Get(d, key)
    decreases |es|
  {
    if es != [] {
      var rest := es[1..];
      assert forall j :: 0 <= j < |rest| ==> rest[j] == es[j + 1];
      PutGets(d, es[0].key, es[0].value, key);
      LastIsRead(Put(d, es[0].key, es[0].value), rest, key, if k > 0 then k - 1 else 0);
    }
  }
}
