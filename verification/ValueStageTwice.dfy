/**
 * The value stage settles: reshaping a reshaped document changes nothing more
 * and skips the same rules again.
 */
module ValueStageTwice {
  import opened Wrappers
  import opened PyDict
  import opened Values

  lemma MapFixed<A, B>(f: A -> B, g: B -> B, s: seq<A>)
    requires forall i :: 0 <= i < |s| ==> g(f(s[i])) == f(s[i])
    ensures Map(g, Map(f, s)) == Map(f, s)
  {
  }

  lemma LabelsTwice(render: Render, v: Val, notes: Notes)
    ensures var once := StageLabels(render, v, notes); StageLabels(render, once.0, notes) == once
  {
    var quote := (e: Entry<Val, Val>) => QuotedLabel(render, e);
    if v.List? {
      MapFixed(quote, quote, Map(i => LabelOf(render, i), v.items));
    } else if v.Dict? {
      MapFixed(quote, quote, v.entries);
    }
  }

  lemma PortsTwice(render: Render, v: Val)
    ensures StagePorts(render, StagePorts(render, v)) == StagePorts(render, v)
  {
    if v.List? { MapFixed(p => StagePort(render, p), p => StagePort(render, p), v.items); }
  }

  lemma EnvironmentTwice(render: Render, resolve: Resolve, v: Val, notes: Notes)
    ensures var once := StageEnvironment(render, resolve, v, notes); StageEnvironment(render, resolve, once.0, notes) == once
  {
  }

  /** One field: its value settles, and so does the rule it could not apply. */
  lemma FieldTwice(render: Render, resolve: Resolve, notes: Notes, e: Entry<Val, Val>)
    ensures var once := StageField(render, resolve, notes, e);
      once.0.key == e.key && StageField(render, resolve, notes, once.0) == once
  {
    LabelsTwice(render, e.value, notes);
    PortsTwice(render, e.value);
    EnvironmentTwice(render, resolve, e.value, notes);
    hide StageLabels;
    hide StagePorts;
    hide StageEnvironment;
  }

  lemma FieldsTwice(render: Render, resolve: Resolve, notes: DocNotes, service: Val, fields: Fields)
    ensures var once := StageFields(render, resolve, notes, service, fields);
      StageFields(render, resolve, notes, service, once) == once
  {
    var stage := (x: Entry<Val, Val>) => StageField(render, resolve, notes.lists(service, x.key), x).0;
    forall i | 0 <= i < |fields| ensures stage(stage(fields[i])) == stage(fields[i]) {
      FieldTwice(render, resolve, notes.lists(service, fields[i].key), fields[i]);
    }
    hide StageField;
    MapFixed(stage, stage, fields);
  }

  lemma {:induction false} SkipsTwice(render: Render, resolve: Resolve, notes: DocNotes, service: Val, fields: Fields, key: Val)
    ensures Skips(render, resolve, notes, service, StageFields(render, resolve, notes, service, fields), key)
         == Skips(render, resolve, notes, service, fields, key)
  {
    hide StageField;
    if fields != [] {
      FieldTwice(render, resolve, notes.lists(service, fields[0].key), fields[0]);
      SkipsTwice(render, resolve, notes, service, fields[1..], key);
      assert StageFields(render, resolve, notes, service, fields)[1..] == StageFields(render, resolve, notes, service, fields[1..]);
    }
  }

  lemma ServiceTwice(render: Render, resolve: Resolve, notes: DocNotes, e: Entry<Val, Val>)
    ensures var once := StageService(render, resolve, notes, e);
      once.key == e.key && StageService(render, resolve, notes, once) == once
  {
    if e.value.Dict? { FieldsTwice(render, resolve, notes, e.key, e.value.entries); }
    hide StageFields;
  }

  lemma {:induction false} SkippedInTwice(render: Render, resolve: Resolve, notes: DocNotes, services: Fields)
    ensures SkippedIn(render, resolve, notes, Map(x => StageService(render, resolve, notes, x), services))
         == SkippedIn(render, resolve, notes, services)
  {
    if services != [] {
      var e := services[0];
      SkippedInTwice(render, resolve, notes, services[1..]);
      if e.value.Dict? {
        SkipsTwice(render, resolve, notes, e.key, e.value.entries, LABELS);
        SkipsTwice(render, resolve, notes, e.key, e.value.entries, ENVIRONMENT);
      }
      hide Skips;
      hide StageFields;
      var staged := Map(x => StageService(render, resolve, notes, x), services);
      assert staged[1..] == Map(x => StageService(render, resolve, notes, x), services[1..]);
      assert staged[0] == StageService(render, resolve, notes, e);
    }
  }

  lemma TopTwice(render: Render, resolve: Resolve, notes: DocNotes, e: Entry<Val, Val>)
    ensures var once := StageTop(render, resolve, notes, e);
      once.key == e.key && StageTop(render, resolve, notes, once) == once
      && SkippedAt(render, resolve, notes, once) == SkippedAt(render, resolve, notes, e)
  {
    if e.key == SERVICES && e.value.Dict? {
      var stage := (x: Entry<Val, Val>) => StageService(render, resolve, notes, x);
      forall i | 0 <= i < |e.value.entries| ensures stage(stage(e.value.entries[i])) == stage(e.value.entries[i]) {
        ServiceTwice(render, resolve, notes, e.value.entries[i]);
      }
      hide StageService;
      MapFixed(stage, stage, e.value.entries);
      SkippedInTwice(render, resolve, notes, e.value.entries);
      hide SkippedIn;
      assert Map(x => StageService(render, resolve, notes, x), e.value.entries) == Map(stage, e.value.entries);
    }
  }

  lemma {:induction false} SkippedTopTwice(render: Render, resolve: Resolve, notes: DocNotes, top: Fields)
    ensures SkippedTop(render, resolve, notes, Map(e => StageTop(render, resolve, notes, e), top))
         == SkippedTop(render, resolve, notes, top)
  {
    hide StageTop;
    hide SkippedAt;
    if top != [] {
      TopTwice(render, resolve, notes, top[0]);
      SkippedTopTwice(render, resolve, notes, top[1..]);
      var staged := Map(e => StageTop(render, resolve, notes, e), top);
      assert staged[1..] == Map(e => StageTop(render, resolve, notes, e), top[1..]);
    }
  }

  /** Reshaping twice is reshaping once, and the second time skips what the first one did. */
  lemma StagedTwice(render: Render, resolve: Resolve, notes: DocNotes, top: Fields)
    ensures var once := Staged(render, resolve, notes, top);
      Staged(render, resolve, notes, once) == once
      && SkippedTop(render, resolve, notes, once)
         == SkippedTop(render, resolve, notes, if notes.version then top else WithoutVersion(top))
  {
    var stage := (e: Entry<Val, Val>) => StageTop(render, resolve, notes, e);
    var kept := if notes.version then top else WithoutVersion(top);
    forall i | 0 <= i < |kept| ensures stage(stage(kept[i])) == stage(kept[i]) { TopTwice(render, resolve, notes, kept[i]); }
    forall i | 0 <= i < |kept| ensures stage(kept[i]).key == kept[i].key { TopTwice(render, resolve, notes, kept[i]); }
    SkippedTopTwice(render, resolve, notes, kept);
    hide StageTop;
    MapFixed(stage, stage, kept);
    WithoutVersionMapped(stage, kept);
    WithoutVersionTwice(top);
    assert Staged(render, resolve, notes, top) == Map(stage, kept);
    assert Staged(render, resolve, notes, Map(stage, kept))
        == Map(stage, if notes.version then Map(stage, kept) else WithoutVersion(Map(stage, kept)));
  }
}
