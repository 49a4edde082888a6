/**
 * What each value under `labels:`, `environment:` and `ports:` becomes, value
 * by value, in the value stage and in the projection: the string that Compose
 * would make of it. Two documents that differ in one such value project to the
 * same thing exactly when Compose makes the same string of both.
 */
module ValueStrings {
  import opened Wrappers
  import opened Text
  import opened PyDict
  import opened Values

  /** The string Compose makes of a value. */
  predicate Says(render: Render, v: Val, s: string) {
    match v
    case Bool(true) => s == "true"
    case Bool(false) => s == "false"
    case Null => s == ""
    case Str(t) => s == t
    case Int(t) => s == t
    case Other(t) => s == t
    case _ => s == render(v)
  }

  /** The string Python makes of it. */
  predicate Prints(render: Render, v: Val, s: string) {
    match v
    case Bool(true) => s == "True"
    case Bool(false) => s == "False"
    case Null => s == "None"
    case _ => Says(render, v, s)
  }

  /** A list entry that Python prints as `key=value`, or as `key` alone. */
  predicate Pair(render: Render, item: Val, key: string, value: Option<string>) {
    '=' !in key && Prints(render, item, if value.Some? then key + "=" + value.value else key)
  }

  predicate Pairs(render: Render, items: seq<Val>, keys: seq<string>, values: seq<Option<string>>) {
    |keys| == |values| == |items| && forall i :: 0 <= i < |items| ==> Pair(render, items[i], keys[i], values[i])
  }

  predicate Different(keys: seq<string>) {
    forall i, j :: 0 <= i < j < |keys| ==> keys[i] != keys[j]
  }

  /** Each comment of the list stands after its entry. */
  predicate Movable(notes: Notes, n: nat) {
    forall i :: i in notes && i < n ==> !notes[i].elsewhere
  }

  lemma PairParts(render: Render, item: Val, key: string, value: Option<string>)
    requires Pair(render, item, key, value)
    ensures var s := ToStr(render, item);
      Key(s) == key && HasSep(s) == value.Some? && (value.Some? ==> Value(s) == value.value)
  {
    if value.Some? {
      PartitionGlue(key, value.value);
    } else {
      assert forall n :: 0 <= n < |key| ==> key[n] in key;
    }
  }

  // -- the value stage ---------------------------------------------------------------------

  /** Labels written as a mapping keep their keys, each with its string. */
  lemma LabelsStaged(render: Render, entries: Fields, notes: Notes, i: nat)
    requires i < |entries|
    ensures var (v, skipped) := StageLabels(render, Dict(entries), notes);
      v.Dict? && |v.entries| == |entries| && skipped == []
      && v.entries[i].key == entries[i].key && v.entries[i].value.Str? && Says(render, entries[i].value, v.entries[i].value.s)
  {
  }

  /** Labels written as a list become a mapping, unless a key is repeated or a comment has nowhere to go. */
  lemma LabelListStaged(render: Render, items: seq<Val>, notes: Notes, keys: seq<string>, values: seq<Option<string>>)
    requires Pairs(render, items, keys, values)
    ensures var (v, skipped) := StageLabels(render, List(items), notes);
      if Different(keys) && Movable(notes, |keys|) then
        skipped == [] && v.Dict? && |v.entries| == |keys|
        && forall i :: 0 <= i < |keys| ==>
             v.entries[i] == Entry(Str(keys[i]), Str(if values[i].Some? then values[i].value else ""))
      else v == List(items) && skipped == ["N-007"]
  {
    var pairs := Map(i => LabelOf(render, i), items);
    forall i | 0 <= i < |items|
      ensures pairs[i] == Entry(Str(keys[i]), Str(if values[i].Some? then values[i].value else ""))
    {
      PairParts(render, items[i], keys[i], values[i]);
    }
    assert Distinct(pairs) <==> Different(keys);
  }

  /** Variables written as a list become a mapping in the same way; a name without `=` keeps no value. */
  lemma VariableListStaged(render: Render, resolve: Resolve, items: seq<Val>, notes: Notes, keys: seq<string>,
                           values: seq<Option<string>>)
    requires Pairs(render, items, keys, values)
    ensures var (v, skipped) := StageEnvironment(render, resolve, List(items), notes);
      if Different(keys) && Movable(notes, |keys|) then
        skipped == [] && v.Dict? && |v.entries| == |keys|
        && forall i :: 0 <= i < |keys| ==>
             v.entries[i] == Entry(Str(keys[i]), if values[i].Some? then Str(values[i].value) else Null)
      else v == List(items) && skipped == ["N-011"]
  {
    var pairs := Map(i => EnvPair(render, resolve, i), items);
    forall i | 0 <= i < |items|
      ensures pairs[i] == Entry(Str(keys[i]), if values[i].Some? then Str(values[i].value) else Null)
    {
      PairParts(render, items[i], keys[i], values[i]);
      EnvValueReadsBack(resolve, Value(ToStr(render, items[i])));
    }
    assert Distinct(pairs) <==> Different(keys);
  }

  /** A port written as a number becomes a string; anything else in the list is left as it is. */
  lemma PortsStaged(render: Render, items: seq<Val>, i: nat)
    requires i < |items|
    ensures var v := StagePorts(render, List(items));
      v.List? && |v.items| == |items|
      && v.items[i] == match items[i] case Int(t) => Str(t) case _ => items[i]
  {
  }

  /** Values of any other kind, and every other field, are left alone. */
  lemma OthersUnstaged(render: Render, resolve: Resolve, notes: Notes, v: Val, e: Entry<Val, Val>)
    ensures !v.List? && !v.Dict? ==> StageLabels(render, v, notes) == (v, [])
    ensures !v.List? ==> StagePorts(render, v) == v && StageEnvironment(render, resolve, v, notes) == (v, [])
    ensures e.key !in {Str("labels"), Str("ports"), Str("environment")} ==> StageField(render, resolve, notes, e) == (e, [])
  {
  }

  /** Each of the three fields goes through its own rule. */
  lemma FieldStaged(render: Render, resolve: Resolve, notes: Notes, x: Entry<Val, Val>)
    ensures StageField(render, resolve, notes, x).0
         == Entry(x.key, if x.key == Str("labels") then StageLabels(render, x.value, notes).0
                         else if x.key == Str("ports") then StagePorts(render, x.value)
                         else if x.key == Str("environment") then StageEnvironment(render, resolve, x.value, notes).0
                         else x.value)
  {
    hide StageLabels;
    hide StagePorts;
    hide StageEnvironment;
  }

  /** In a service that is a mapping every field goes its way, in its place; any other service is left as it is. */
  lemma ServiceStaged(render: Render, resolve: Resolve, notes: DocNotes, e: Entry<Val, Val>, k: nat)
    ensures !e.value.Dict? ==> StageService(render, resolve, notes, e) == e
    ensures e.value.Dict? && k < |e.value.entries| ==>
      var s, x := StageService(render, resolve, notes, e), e.value.entries[k];
      s.key == e.key && s.value.Dict? && |s.value.entries| == |e.value.entries|
      && s.value.entries[k] == StageField(render, resolve, notes.lists(e.key, x.key), x).0
  {
    hide StageField;
  }

  /** That happens to every service, in its place, and to nothing else at the top level. */
  lemma TopStaged(render: Render, resolve: Resolve, notes: DocNotes, top: Fields, i: nat, j: nat)
    requires i < |top| && WithoutVersion(top) == top
    ensures |Staged(render, resolve, notes, top)| == |top|
    ensures top[i].key != Str("services") || !top[i].value.Dict? ==> Staged(render, resolve, notes, top)[i] == top[i]
    ensures top[i].key == Str("services") && top[i].value.Dict? && j < |top[i].value.entries| ==>
      var e, services := Staged(render, resolve, notes, top)[i], top[i].value.entries;
      e.key == Str("services") && e.value.Dict? && |e.value.entries| == |services|
      && e.value.entries[j] == StageService(render, resolve, notes, services[j])
  {
    hide StageService;
  }

  /** Of the top-level entries exactly `version:` is dropped. */
  lemma {:induction false} VersionDropped(top: Fields, e: Entry<Val, Val>, rest: Fields)
    ensures WithoutVersion(top + [e] + rest)
         == WithoutVersion(top) + (if e.key == Str("version") then [] else [e]) + WithoutVersion(rest)
  {
    if top == [] {
      assert top + [e] + rest == [e] + rest;
      WithoutVersionFirst(e, rest);
      assert WithoutVersion(top) == [];
    } else {
      VersionDropped(top[1..], e, rest);
      assert (top + [e] + rest)[1..] == top[1..] + [e] + rest;
    }
  }

  // -- the projection ---------------------------------------------------------------------------

  /** A label is projected to its string, under the string of its key; of entries under one key the last one counts. */
  lemma LabelsProjected(render: Render, entries: Fields, i: nat, key: string)
    requires i < |entries| && Prints(render, entries[i].key, key)
    requires forall j :: i < j < |entries| ==> !Prints(render, entries[j].key, key)
    ensures var p := LabelsAsMapping(render, Dict(entries));
      p.Some? && p.value.Dict? && Distinct(p.value.entries)
      && exists s :: Get(p.value.entries, Str(key)) == Some(Str(s)) && Says(render, entries[i].value, s)
  {
    var es := Map(e => LabelString(render, e), entries);
    PutAllDistinct([], es);
    LastIsRead([], es, Str(key), i);
    assert Says(render, entries[i].value, es[i].value.s);
  }

  /** A variable likewise, except that one without a value stays without. */
  lemma VariablesProjected(render: Render, entries: Fields, i: nat, key: string)
    requires i < |entries| && Prints(render, entries[i].key, key)
    requires forall j :: i < j < |entries| ==> !Prints(render, entries[j].key, key)
    ensures var p := EnvironmentAsMapping(render, Dict(entries));
      p.Some? && p.value.Dict? && Distinct(p.value.entries)
      && if entries[i].value == Null then Get(p.value.entries, Str(key)) == Some(Null)
         else exists s :: Get(p.value.entries, Str(key)) == Some(Str(s)) && Says(render, entries[i].value, s)
  {
    var es := Map(e => VariableString(render, e), entries);
    PutAllDistinct([], es);
    LastIsRead([], es, Str(key), i);
    assert entries[i].value != Null ==> Says(render, entries[i].value, es[i].value.s);
  }

  /** No other key is projected. */
  lemma KeysProjected(render: Render, entries: Fields, key: string)
    requires forall j :: 0 <= j < |entries| ==> !Prints(render, entries[j].key, key)
    ensures Get(LabelsAsMapping(render, Dict(entries)).value.entries, Str(key)) == None
    ensures Get(EnvironmentAsMapping(render, Dict(entries)).value.entries, Str(key)) == None
  {
    LastIsRead([], Map(e => LabelString(render, e), entries), Str(key), 0);
    LastIsRead([], Map(e => VariableString(render, e), entries), Str(key), 0);
  }

  function LabelEntry(key: string, value: Option<string>): Entry<Val, Val> {
    Entry(Str(key), Str(if value.Some? then value.value else ""))
  }

  function VariableEntry(key: string, value: Option<string>): Entry<Val, Val> {
    Entry(Str(key), if value.Some? then Str(value.value) else Null)
  }

  lemma LabelParts(render: Render, item: Val, key: string, value: Option<string>)
    requires Pair(render, item, key, value)
    ensures LabelOf(render, item) == LabelEntry(key, value)
  {
    PairParts(render, item, key, value);
  }

  lemma VariableParts(render: Render, item: Val, key: string, value: Option<string>)
    requires Pair(render, item, key, value)
    ensures VariableOf(render, item) == VariableEntry(key, value)
  {
    PairParts(render, item, key, value);
  }

  /** The list forms are projected by what stands before and after the first `=`. */
  lemma LabelListProjected(render: Render, items: seq<Val>, keys: seq<string>, values: seq<Option<string>>, i: nat)
    requires Pairs(render, items, keys, values) && i < |keys| && forall j :: i < j < |keys| ==> keys[j] != keys[i]
    ensures var p := LabelsAsMapping(render, List(items));
      p.Some? && p.value.Dict?
      && Get(p.value.entries, Str(keys[i])) == Some(Str(if values[i].Some? then values[i].value else ""))
  {
    var es := Map(x => LabelOf(render, x), items);
    forall j | 0 <= j < |items| ensures es[j] == LabelEntry(keys[j], values[j]) { LabelParts(render, items[j], keys[j], values[j]); }
    hide LabelOf;
    hide Pairs;
    hide PutAll;
    hide Get;
    LastIsRead([], es, Str(keys[i]), i);
  }

  lemma VariableListProjected(render: Render, items: seq<Val>, keys: seq<string>, values: seq<Option<string>>, i: nat)
    requires Pairs(render, items, keys, values) && i < |keys| && forall j :: i < j < |keys| ==> keys[j] != keys[i]
    ensures var p := EnvironmentAsMapping(render, List(items));
      p.Some? && p.value.Dict?
      && Get(p.value.entries, Str(keys[i])) == Some(if values[i].Some? then Str(values[i].value) else Null)
  {
    var es := Map(x => VariableOf(render, x), items);
    forall j | 0 <= j < |items| ensures es[j] == VariableEntry(keys[j], values[j]) { VariableParts(render, items[j], keys[j], values[j]); }
    hide VariableOf;
    hide Pairs;
    hide PutAll;
    hide Get;
    LastIsRead([], es, Str(keys[i]), i);
  }

  /** Ports are projected in place: long syntax as it is, anything else as Python prints it. */
  lemma PortsProjected(render: Render, items: seq<Val>, i: nat)
    requires i < |items|
    ensures var p := PortsAsStrings(render, List(items));
      p.Some? && p.value.List? && |p.value.items| == |items|
      && if items[i].Dict? then p.value.items[i] == items[i]
         else p.value.items[i].Str? && Prints(render, items[i], p.value.items[i].s)
  {
  }

  /** A field without a value is projected as an empty one. */
  lemma NothingProjected(render: Render)
    ensures LabelsAsMapping(render, Null) == Some(Dict([])) == EnvironmentAsMapping(render, Null)
    ensures PortsAsStrings(render, Null) == Some(List([]))
  {
  }

  // -- what the projection tells apart ---------------------------------------------------------------

  lemma {:induction false} EachTells(f: Entry<Val, Val> -> Option<Entry<Val, Val>>, es: Fields, k: nat,
                                    x: Entry<Val, Val>, y: Entry<Val, Val>)
    requires k < |es| && Each(f, es[k := x]).Some? && Each(f, es[k := y]).Some?
    ensures f(x).Some? && f(y).Some? && (Each(f, es[k := x]) == Each(f, es[k := y]) <==> f(x) == f(y))
  {
    var a, b := es[k := x], es[k := y];
    if k == 0 {
      assert a[1..] == b[1..];
    } else {
      assert a[1..] == es[1..][k - 1 := x] && b[1..] == es[1..][k - 1 := y];
      EachTells(f, es[1..], k - 1, x, y);
      TailsTell(f(es[0]).value, Each(f, a[1..]).value, Each(f, b[1..]).value);
    }
    if k == 0 { HeadsTell(f(x).value, f(y).value, Each(f, a[1..]).value); }
  }

  lemma TailsTell<T>(x: T, a: seq<T>, b: seq<T>)
    ensures [x] + a == [x] + b <==> a == b
  {
    assert ([x] + a)[1..] == a && ([x] + b)[1..] == b;
  }

  lemma HeadsTell<T>(x: T, y: T, a: seq<T>)
    ensures [x] + a == [y] + a <==> x == y
  {
    assert ([x] + a)[0] == x && ([y] + a)[0] == y;
  }

  lemma Replaced<T>(a: seq<T>, x: T, y: T, b: seq<T>)
    ensures (a + [x] + b)[|a|] == x && (a + [x] + b)[|a| := y] == a + [y] + b
  {
  }

  lemma {:induction false} TopTells(f: Entry<Val, Val> -> Option<Entry<Val, Val>>, top: Fields, k: nat,
                                   x: Entry<Val, Val>, y: Entry<Val, Val>)
    requires k < |top| && x.key != VERSION && y.key != VERSION
    requires Each(f, WithoutVersion(top[k := x])).Some? && Each(f, WithoutVersion(top[k := y])).Some?
    ensures f(x).Some? && f(y).Some?
    ensures Each(f, WithoutVersion(top[k := x])) == Each(f, WithoutVersion(top[k := y])) <==> f(x) == f(y)
  {
    var w, z := WithoutVersion(top[k := x]), WithoutVersion(top[k := y]);
    var n := |WithoutVersion(top[..k])|;
    assert top[k := x] == top[..k] + [x] + top[k + 1..] && top[k := y] == top[..k] + [y] + top[k + 1..];
    VersionDropped(top[..k], x, top[k + 1..]);
    VersionDropped(top[..k], y, top[k + 1..]);
    Replaced(WithoutVersion(top[..k]), x, y, WithoutVersion(top[k + 1..]));
    assert w[n := x] == w;
    hide WithoutVersion;
    hide Each;
    EachTells(f, w, n, x, y);
  }

  /** A service with another value in entry `m` of its field `k`. */
  function InField(service: Val, k: nat, m: nat, v: Val): Val
    requires service.Dict? && k < |service.entries|
    requires service.entries[k].value.Dict? && m < |service.entries[k].value.entries|
  {
    var field := service.entries[k];
    var was := field.value.entries;
    Dict(service.entries[k := Entry(field.key, Dict(was[m := Entry(was[m].key, v)]))])
  }

  /** A document with another value for service `j` in its top-level entry `i`. */
  function InDoc(top: Fields, i: nat, j: nat, service: Val): Val
    requires i < |top| && top[i].value.Dict? && j < |top[i].value.entries|
  {
    var services := top[i].value.entries;
    Dict(top[i := Entry(top[i].key, Dict(services[j := Entry(services[j].key, service)]))])
  }

  /** The keys of a mapping are strings, each written once. */
  predicate StringKeys(es: Fields) {
    Distinct(es) && forall i :: 0 <= i < |es| ==> es[i].key.Str?
  }

  lemma DocTells(render: Render, top: Fields, i: nat, j: nat, s: Val, t: Val)
    requires i < |top| && top[i].key == SERVICES && top[i].value.Dict? && j < |top[i].value.entries|
    requires s.Dict? && t.Dict?
    requires Projection(render, InDoc(top, i, j, s)).Some? && Projection(render, InDoc(top, i, j, t)).Some?
    ensures var key := top[i].value.entries[j].key;
      var x, y := CanonicalService(render, Entry(key, s)), CanonicalService(render, Entry(key, t));
      x.Some? && y.Some?
      && (Projection(render, InDoc(top, i, j, s)) == Projection(render, InDoc(top, i, j, t)) <==> x == y)
  {
    var services := top[i].value.entries;
    var es, gs := services[j := Entry(services[j].key, s)], services[j := Entry(services[j].key, t)];
    var x, y := Entry(SERVICES, Dict(es)), Entry(SERVICES, Dict(gs));
    assert top[i := x][i] == x && top[i := y][i] == y;
    assert IsCompose(Dict(top[i := x])) && IsCompose(Dict(top[i := y]));
    hide CanonicalService;
    TopTells(e => CanonicalTop(render, e), top, i, x, y);
    EachTells(e => CanonicalService(render, e), services, j, Entry(services[j].key, s), Entry(services[j].key, t));
  }

  lemma FieldTells(render: Render, key: Val, fields: Fields, k: nat, v: Val, w: Val)
    requires k < |fields|
    requires CanonicalService(render, Entry(key, Dict(fields[k := Entry(fields[k].key, v)]))).Some?
    requires CanonicalService(render, Entry(key, Dict(fields[k := Entry(fields[k].key, w)]))).Some?
    ensures var x, y := Entry(fields[k].key, v), Entry(fields[k].key, w);
      CanonicalField(render, x).Some? && CanonicalField(render, y).Some?
      && (CanonicalService(render, Entry(key, Dict(fields[k := x]))) == CanonicalService(render, Entry(key, Dict(fields[k := y])))
          <==> CanonicalField(render, x) == CanonicalField(render, y))
  {
    var x, y := Entry(fields[k].key, v), Entry(fields[k].key, w);
    hide CanonicalField;
    EachTells(e => CanonicalField(render, e), fields, k, x, y);
  }

  lemma EntriesTell(es: Fields, m: nat, x: Val, y: Val)
    requires m < |es| && Distinct(es)
    ensures var a, b := es[m := Entry(es[m].key, x)], es[m := Entry(es[m].key, y)];
      PutAll([], a) == PutAll([], b) <==> x == y
  {
    var a, b := es[m := Entry(es[m].key, x)], es[m := Entry(es[m].key, y)];
    PutDistinct(a);
    PutDistinct(b);
    hide Distinct;
    hide PutAll;
    assert a[m] == Entry(es[m].key, x) && b[m] == Entry(es[m].key, y);
  }

  lemma PutDistinct(a: Fields)
    requires Distinct(a)
    ensures PutAll([], a) == a
  {
    assert [] + a == a;
    PutAllNew([], a);
  }

  /** Labels that differ in one value are projected alike exactly when Compose makes the same string of both. */
  lemma LabelsTell(render: Render, es: Fields, m: nat, v: Val, w: Val, a: string, b: string)
    requires m < |es| && StringKeys(es) && Says(render, v, a) && Says(render, w, b)
    ensures var vs, ws := es[m := Entry(es[m].key, v)], es[m := Entry(es[m].key, w)];
      LabelsAsMapping(render, Dict(vs)) == LabelsAsMapping(render, Dict(ws)) <==> a == b
  {
    var shown := (e: Entry<Val, Val>) => LabelString(render, e);
    var ls := Map(shown, es);
    assert Map(shown, es[m := Entry(es[m].key, v)]) == ls[m := Entry(ls[m].key, Str(a))];
    assert Map(shown, es[m := Entry(es[m].key, w)]) == ls[m := Entry(ls[m].key, Str(b))];
    EntriesTell(ls, m, Str(a), Str(b));
  }

  /** What Compose makes of a variable: without a value it stays without. */
  predicate VariableSays(render: Render, v: Val, s: Option<string>) {
    if v == Null then s == None else s.Some? && Says(render, v, s.value)
  }

  lemma VariablesTell(render: Render, es: Fields, m: nat, v: Val, w: Val, a: Option<string>, b: Option<string>)
    requires m < |es| && StringKeys(es) && VariableSays(render, v, a) && VariableSays(render, w, b)
    ensures var vs, ws := es[m := Entry(es[m].key, v)], es[m := Entry(es[m].key, w)];
      EnvironmentAsMapping(render, Dict(vs)) == EnvironmentAsMapping(render, Dict(ws)) <==> a == b
  {
    var shown := (e: Entry<Val, Val>) => VariableString(render, e);
    var vs := Map(shown, es);
    var x, y := if a.Some? then Str(a.value) else Null, if b.Some? then Str(b.value) else Null;
    assert Map(shown, es[m := Entry(es[m].key, v)]) == vs[m := Entry(vs[m].key, x)];
    assert Map(shown, es[m := Entry(es[m].key, w)]) == vs[m := Entry(vs[m].key, y)];
    EntriesTell(vs, m, x, y);
  }

  /**
   * Two documents that differ in the value of one label have the same
   * projection exactly when Compose makes the same string of both values:
   * `true` and `"true"` are the same, `true` and `"false"` are not.
   */
  lemma DocumentsTellLabels(render: Render, top: Fields, i: nat, j: nat, k: nat, m: nat, v: Val, w: Val, a: string, b: string)
    requires i < |top| && top[i].key == Str("services") && top[i].value.Dict? && j < |top[i].value.entries|
    requires var s := top[i].value.entries[j].value;
      s.Dict? && k < |s.entries| && s.entries[k].key == Str("labels") && s.entries[k].value.Dict?
      && m < |s.entries[k].value.entries| && StringKeys(s.entries[k].value.entries)
    requires Says(render, v, a) && Says(render, w, b)
    requires var s := top[i].value.entries[j].value;
      Projection(render, InDoc(top, i, j, InField(s, k, m, v))).Some?
      && Projection(render, InDoc(top, i, j, InField(s, k, m, w))).Some?
    ensures var s := top[i].value.entries[j].value;
      Projection(render, InDoc(top, i, j, InField(s, k, m, v))) == Projection(render, InDoc(top, i, j, InField(s, k, m, w)))
      <==> a == b
  {
    var s := top[i].value.entries[j].value;
    var es := s.entries[k].value.entries;
    var x, y := Dict(es[m := Entry(es[m].key, v)]), Dict(es[m := Entry(es[m].key, w)]);
    hide Projection;
    DocTells(render, top, i, j, InField(s, k, m, v), InField(s, k, m, w));
    hide CanonicalService;
    FieldTells(render, top[i].value.entries[j].key, s.entries, k, x, y);
    LabelsTell(render, es, m, v, w, a, b);
    hide LabelsAsMapping;
    hide StringKeys;
    hide Says;
  }

  /** So do documents that differ in one environment variable, where no value is not the empty string. */
  lemma DocumentsTellVariables(render: Render, top: Fields, i: nat, j: nat, k: nat, m: nat, v: Val, w: Val,
                               a: Option<string>, b: Option<string>)
    requires i < |top| && top[i].key == Str("services") && top[i].value.Dict? && j < |top[i].value.entries|
    requires var s := top[i].value.entries[j].value;
      s.Dict? && k < |s.entries| && s.entries[k].key == Str("environment") && s.entries[k].value.Dict?
      && m < |s.entries[k].value.entries| && StringKeys(s.entries[k].value.entries)
    requires VariableSays(render, v, a) && VariableSays(render, w, b)
    requires var s := top[i].value.entries[j].value;
      Projection(render, InDoc(top, i, j, InField(s, k, m, v))).Some?
      && Projection(render, InDoc(top, i, j, InField(s, k, m, w))).Some?
    ensures var s := top[i].value.entries[j].value;
      Projection(render, InDoc(top, i, j, InField(s, k, m, v))) == Projection(render, InDoc(top, i, j, InField(s, k, m, w)))
      <==> a == b
  {
    var s := top[i].value.entries[j].value;
    var es := s.entries[k].value.entries;
    var x, y := Dict(es[m := Entry(es[m].key, v)]), Dict(es[m := Entry(es[m].key, w)]);
    hide Projection;
    DocTells(render, top, i, j, InField(s, k, m, v), InField(s, k, m, w));
    hide CanonicalService;
    FieldTells(render, top[i].value.entries[j].key, s.entries, k, x, y);
    VariablesTell(render, es, m, v, w, a, b);
    hide EnvironmentAsMapping;
    hide StringKeys;
    hide VariableSays;
  }
}
