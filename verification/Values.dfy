/**
 * The value stage of `formatter.py` and the projection of `rules.py` that it
 * must leave alone. A document is the tree a YAML library parses; a mapping
 * keeps the order of its keys, so equality below is finer than Python's.
 */
module Values {
  import opened Wrappers
  import opened Text
  import opened PyDict

  /** `Other` is any scalar that is neither string, integer, boolean nor null; `text` is its `str()`. */
  datatype Val =
    | Null
    | Bool(b: bool)
    | Int(text: string)
    | Str(s: string)
    | Other(text: string)
    | List(items: seq<Val>)
    | Dict(entries: seq<Entry<Val, Val>>)

  type Fields = seq<Entry<Val, Val>>

  const LABELS := Str("labels")
  const PORTS := Str("ports")
  const ENVIRONMENT := Str("environment")
  const SERVICES := Str("services")
  const VERSION := Str("version")

  /** `str()` of a list or mapping. */
  type Render = Val -> string

  /** `str(value)`. */
  function ToStr(render: Render, v: Val): string {
    match v
    case Null => "None"
    case Bool(b) => if b then "True" else "False"
    case Int(text) => text
    case Str(s) => s
    case Other(text) => text
    case List(_) => render(v)
    case Dict(_) => render(v)
  }

  /** `compose_string`: the string Compose makes of a label or environment value. */
  function ComposeString(render: Render, v: Val): string {
    match v
    case Bool(b) => if b then "true" else "false"
    case Null => ""
    case _ => ToStr(render, v)
  }

  // -- the projection ------------------------------------------------------------

  /** `for item in v`; `None` when the value cannot be iterated and Python raises `TypeError`. */
  function Items(v: Val): Option<seq<Val>> {
    match v
    case List(items) => Some(items)
    case Dict(entries) => Some(Map((e: Entry<Val, Val>) => e.key, entries))
    case Str(s) => Some(Map((c: char) => Str([c]), s))
    case _ => None
  }

  /** One label of a list: `key, _, value = str(item).partition("=")`. */
  function LabelOf(render: Render, item: Val): Entry<Val, Val> {
    Entry(Str(Key(ToStr(render, item))), Str(Value(ToStr(render, item))))
  }

  function LabelString(render: Render, e: Entry<Val, Val>): Entry<Val, Val> {
    Entry(Str(ToStr(render, e.key)), Str(ComposeString(render, e.value)))
  }

  /** `_labels_as_mapping`. */
  function LabelsAsMapping(render: Render, v: Val): Option<Val> {
    if v.Null? then Some(Dict([]))
    else if v.Dict? then Some(Dict(PutAll([], Map(e => LabelString(render, e), v.entries))))
    else
      var items := Items(v);
      if items.None? then None else Some(Dict(PutAll([], Map(i => LabelOf(render, i), items.value))))
  }

  function PortString(render: Render, v: Val): Val {
    if v.Dict? then v else Str(ToStr(render, v))
  }

  /** `_ports_as_strings`. */
  function PortsAsStrings(render: Render, v: Val): Option<Val> {
    if v.Null? then Some(List([]))
    else
      var items := Items(v);
      if items.None? then None else Some(List(Map(i => PortString(render, i), items.value)))
  }

  /** One variable of a list: without `=` it has no value. */
  function VariableOf(render: Render, item: Val): Entry<Val, Val> {
    var s := ToStr(render, item);
    Entry(Str(Key(s)), if HasSep(s) then Str(Value(s)) else Null)
  }

  function VariableString(render: Render, e: Entry<Val, Val>): Entry<Val, Val> {
    Entry(Str(ToStr(render, e.key)), if e.value.Null? then Null else Str(ComposeString(render, e.value)))
  }

  /** `_environment_as_mapping`. */
  function EnvironmentAsMapping(render: Render, v: Val): Option<Val> {
    if v.Null? then Some(Dict([]))
    else if v.Dict? then Some(Dict(PutAll([], Map(e => VariableString(render, e), v.entries))))
    else
      var items := Items(v);
      if items.None? then None else Some(Dict(PutAll([], Map(i => VariableOf(render, i), items.value))))
  }

  /** One field of a service. */
  function CanonicalField(render: Render, e: Entry<Val, Val>): Option<Entry<Val, Val>> {
    var v :=
      if e.key == LABELS then LabelsAsMapping(render, e.value)
      else if e.key == PORTS then PortsAsStrings(render, e.value)
      else if e.key == ENVIRONMENT then EnvironmentAsMapping(render, e.value)
      else Some(e.value);
    if v.None? then None else Some(Entry(e.key, v.value))
  }

  /** `[f(e) for e in es]` where `f` may raise. */
  function Each(f: Entry<Val, Val> -> Option<Entry<Val, Val>>, es: Fields): Option<Fields> {
    if es == [] then Some([])
    else
      var first, rest := f(es[0]), Each(f, es[1..]);
      if first.None? || rest.None? then None else Some([first.value] + rest.value)
  }

  /** `_canonical_service`, for a service that is a mapping; any other is left as it is. */
  function CanonicalService(render: Render, e: Entry<Val, Val>): Option<Entry<Val, Val>> {
    if !e.value.Dict? then Some(e)
    else
      var fields := Each(x => CanonicalField(render, x), e.value.entries);
      if fields.None? then None else Some(Entry(e.key, Dict(fields.value)))
  }

  function CanonicalTop(render: Render, e: Entry<Val, Val>): Option<Entry<Val, Val>> {
    if e.key != SERVICES || !e.value.Dict? then Some(e)
    else
      var services := Each(x => CanonicalService(render, x), e.value.entries);
      if services.None? then None else Some(Entry(e.key, Dict(services.value)))
  }

  function WithoutVersion(top: Fields): Fields {
    if top == [] then []
    else if top[0].key == VERSION then WithoutVersion(top[1..])
    else [top[0]] + WithoutVersion(top[1..])
  }

  /** A mapping with a `services:` mapping. */
  predicate IsCompose(doc: Val) {
    doc.Dict? && exists i :: 0 <= i < |doc.entries| && doc.entries[i].key == SERVICES && doc.entries[i].value.Dict?
  }

  /** `canonical_projection`; `None` when it raises. */
  function Projection(render: Render, doc: Val): Option<Val> {
    if !IsCompose(doc) then Some(doc)
    else
      var top := Each(e => CanonicalTop(render, e), WithoutVersion(doc.entries));
      if top.None? then None else Some(Dict(top.value))
  }

  // -- the value stage ---------------------------------------------------------------

  /** The comment the YAML library keeps with a list entry: after it, or somewhere a mapping entry has no slot for. */
  datatype Note = Note(after: Option<string>, elsewhere: bool)
  type Notes = map<nat, Note>

  /** What `_seq_to_map` builds: the entries and the comment that follows each key. */
  datatype Converted = Converted(entries: Fields, after: map<Val, string>)

  predicate Faithful(pairs: Fields, notes: Notes) {
    Distinct(pairs) && forall i :: i in notes && i < |pairs| ==> !notes[i].elsewhere
  }

  /** `_seq_to_map`: `None` for a repeated key or a comment without a slot. */
  function SeqToMap(pairs: Fields, notes: Notes): Option<Converted> {
    if !Faithful(pairs, notes) then None else Some(Converted(pairs, AfterComments(pairs, notes, |pairs|)))
  }

  function AfterComments(pairs: Fields, notes: Notes, n: nat): map<Val, string>
    requires n <= |pairs|
  {
    if n == 0 then map[]
    else
      var m := AfterComments(pairs, notes, n - 1);
      if n - 1 in notes && notes[n - 1].after.Some? then m[pairs[n - 1].key := notes[n - 1].after.value] else m
  }

  /** How a scalar is written: as it stands, or in double quotes. */
  datatype Written = Plain(text: string) | DoubleQuoted(text: string)

  /** A YAML parser's reading of plain text; `None` when it does not parse. */
  type Resolve = string -> Option<Val>

  function ReadBack(resolve: Resolve, w: Written): Option<Val> {
    match w
    case Plain(text) => resolve(text)
    case DoubleQuoted(text) => Some(Str(text))
  }

  /** `_env_value`: quoted when a parser could read it as anything but that string. */
  function EnvValue(resolve: Resolve, value: string): Written {
    if resolve(value) == Some(Str(value)) then Plain(value) else DoubleQuoted(value)
  }

  function EnvPair(render: Render, resolve: Resolve, item: Val): Entry<Val, Val> {
    var s := ToStr(render, item);
    var read := ReadBack(resolve, EnvValue(resolve, Value(s)));
    Entry(Str(Key(s)), if HasSep(s) && read.Some? then read.value else Null)
  }

  function QuotedLabel(render: Render, e: Entry<Val, Val>): Entry<Val, Val> {
    Entry(e.key, Str(ComposeString(render, e.value)))
  }

  /** `_apply_labels` on the value of `labels:`, with the rule it could not apply. */
  function StageLabels(render: Render, v: Val, notes: Notes): (Val, seq<string>) {
    if v.List? then
      var pairs := Map(i => LabelOf(render, i), v.items);
      var converted := SeqToMap(pairs, notes);
      if converted.None? then (v, ["N-007"])
      else (Dict(Map(e => QuotedLabel(render, e), converted.value.entries)), [])
    else if v.Dict? then (Dict(Map(e => QuotedLabel(render, e), v.entries)), [])
    else (v, [])
  }

  function StagePort(render: Render, v: Val): Val {
    if v.Int? || v.Str? then Str(ToStr(render, v)) else v
  }

  /** `_apply_ports` on the value of `ports:`. */
  function StagePorts(render: Render, v: Val): Val {
    if v.List? then List(Map(p => StagePort(render, p), v.items)) else v
  }

  /** `_apply_environment` on the value of `environment:`. */
  function StageEnvironment(render: Render, resolve: Resolve, v: Val, notes: Notes): (Val, seq<string>) {
    if v.List? then
      var pairs := Map(i => EnvPair(render, resolve, i), v.items);
      var converted := SeqToMap(pairs, notes);
      if converted.None? then (v, ["N-011"]) else (Dict(converted.value.entries), [])
    else (v, [])
  }

  /** The comments of the document: on `version:`, and in each service's lists. */
  datatype DocNotes = DocNotes(version: bool, lists: (Val, Val) -> Notes)

  /** What the value stage does to one field of a service, and what it skips. */
  function StageField(render: Render, resolve: Resolve, notes: Notes, e: Entry<Val, Val>): (Entry<Val, Val>, seq<string>) {
    if e.key == LABELS then
      var (v, skipped) := StageLabels(render, e.value, notes);
      (Entry(e.key, v), skipped)
    else if e.key == PORTS then (Entry(e.key, StagePorts(render, e.value)), [])
    else if e.key == ENVIRONMENT then
      var (v, skipped) := StageEnvironment(render, resolve, e.value, notes);
      (Entry(e.key, v), skipped)
    else (e, [])
  }

  function StageFields(render: Render, resolve: Resolve, notes: DocNotes, service: Val, fields: Fields): Fields {
    Map((x: Entry<Val, Val>) => StageField(render, resolve, notes.lists(service, x.key), x).0, fields)
  }

  /** The rules skipped in the fields under one key. */
  function Skips(render: Render, resolve: Resolve, notes: DocNotes, service: Val, fields: Fields, key: Val): seq<string> {
    if fields == [] then []
    else
      (if fields[0].key == key then StageField(render, resolve, notes.lists(service, key), fields[0]).1 else [])
      + Skips(render, resolve, notes, service, fields[1..], key)
  }

  /** All rules skipped: service by service, labels before environment. */
  function SkippedIn(render: Render, resolve: Resolve, notes: DocNotes, services: Fields): seq<string> {
    if services == [] then []
    else
      var e := services[0];
      (if !e.value.Dict? then []
       else Skips(render, resolve, notes, e.key, e.value.entries, LABELS)
            + Skips(render, resolve, notes, e.key, e.value.entries, ENVIRONMENT))
      + SkippedIn(render, resolve, notes, services[1..])
  }

  function SkippedAt(render: Render, resolve: Resolve, notes: DocNotes, e: Entry<Val, Val>): seq<string> {
    if e.key == SERVICES && e.value.Dict? then SkippedIn(render, resolve, notes, e.value.entries) else []
  }

  function SkippedTop(render: Render, resolve: Resolve, notes: DocNotes, top: Fields): seq<string> {
    if top == [] then []
    else SkippedAt(render, resolve, notes, top[0]) + SkippedTop(render, resolve, notes, top[1..])
  }

  /** One service; anything but a mapping is passed over. */
  function StageService(render: Render, resolve: Resolve, notes: DocNotes, e: Entry<Val, Val>): Entry<Val, Val> {
    if !e.value.Dict? then e
    else Entry(e.key, Dict(StageFields(render, resolve, notes, e.key, e.value.entries)))
  }

  function StageTop(render: Render, resolve: Resolve, notes: DocNotes, e: Entry<Val, Val>): Entry<Val, Val> {
    if e.key != SERVICES || !e.value.Dict? then e
    else Entry(e.key, Dict(Map(x => StageService(render, resolve, notes, x), e.value.entries)))
  }

  /** The document after `_apply_values`. */
  function Staged(render: Render, resolve: Resolve, notes: DocNotes, top: Fields): Fields {
    Map(e => StageTop(render, resolve, notes, e), if notes.version then top else WithoutVersion(top))
  }

  /** A parsed compose document, edited in place. */
  class ComposeDoc {
    var top: Fields

    constructor (top: Fields)
      ensures this.top == top
    {
      this.top := top;
    }

    /** `_remove_version`: a comment on the line keeps it. */
    method RemoveVersion(commented: bool) returns (skipped: seq<string>)
      modifies this
      ensures top == if commented then old(top) else WithoutVersion(old(top))
      ensures skipped == if commented && Get(old(top), VERSION).Some? then ["N-004"] else []
    {
      skipped := [];
      VersionAbsent(top);
      if Get(top, VERSION).None? {
        return;
      }
      if commented {
        skipped := ["N-004"];
        return;
      }
      top := WithoutVersion(top);
    }

    /** `_apply_values`: every service of the document, one after the other. */
    method ApplyValues(render: Render, resolve: Resolve, notes: DocNotes) returns (skipped: seq<string>)
      modifies this
      ensures top == Staged(render, resolve, notes, old(top))
      ensures skipped == (if notes.version && Get(old(top), VERSION).Some? then ["N-004"] else [])
                         + SkippedTop(render, resolve, notes, if notes.version then old(top) else WithoutVersion(old(top)))
    {
      skipped := RemoveVersion(notes.version);
      var after, more := ApplyToTop(render, resolve, notes, top);
      top := after;
      skipped := skipped + more;
    }
  }

  /** The search for `services:` among the top-level keys. */
  method ApplyToTop(render: Render, resolve: Resolve, notes: DocNotes, before: Fields)
    returns (after: Fields, skipped: seq<string>)
    ensures after == Map(e => StageTop(render, resolve, notes, e), before)
    ensures skipped == SkippedTop(render, resolve, notes, before)
  {
    hide StageTop;
    hide SkippedAt;
    after, skipped := [], [];
    assert before[0..] == before;
    for i := 0 to |before|
      invariant |after| == i
      invariant forall j :: 0 <= j < i ==> after[j] == StageTop(render, resolve, notes, before[j])
      invariant skipped + SkippedTop(render, resolve, notes, before[i..]) == SkippedTop(render, resolve, notes, before)
    {
      assert before[i..][1..] == before[i + 1..];
      var e, more := ApplyToEntry(render, resolve, notes, before[i]);
      after, skipped := after + [e], skipped + more;
    }
  }

  method ApplyToEntry(render: Render, resolve: Resolve, notes: DocNotes, before: Entry<Val, Val>)
    returns (e: Entry<Val, Val>, skipped: seq<string>)
    ensures e == StageTop(render, resolve, notes, before)
    ensures skipped == SkippedAt(render, resolve, notes, before)
  {
    e, skipped := before, [];
    if e.key == SERVICES && e.value.Dict? {
      var services, more := ApplyToServices(render, resolve, notes, e.value.entries);
      e, skipped := Entry(e.key, Dict(services)), more;
    }
  }

  /** The loop over the services. */
  method ApplyToServices(render: Render, resolve: Resolve, notes: DocNotes, services: Fields)
    returns (after: Fields, skipped: seq<string>)
    ensures after == Map(x => StageService(render, resolve, notes, x), services)
    ensures skipped == SkippedIn(render, resolve, notes, services)
  {
    hide Skips;
    hide StageFields;
    hide SkippedIn;
    NoneSkipped(render, resolve, notes);
    after, skipped := [], [];
    for i := 0 to |services|
      invariant |after| == i
      invariant forall j :: 0 <= j < i ==> after[j] == StageService(render, resolve, notes, services[j])
      invariant skipped + SkippedIn(render, resolve, notes, services[i..]) == SkippedIn(render, resolve, notes, services)
    {
      var service := services[i];
      SkippedStep(render, resolve, notes, services, i);
      if service.value.Dict? {
        var fields, labels, environment := ApplyToFields(render, resolve, notes, service.key, service.value.entries);
        service := Entry(service.key, Dict(fields));
        skipped := skipped + (labels + environment);
      }
      after := after + [service];
    }
    assert services[|services|..] == [];
  }

  lemma NoneSkipped(render: Render, resolve: Resolve, notes: DocNotes)
    ensures SkippedIn(render, resolve, notes, []) == []
  {
  }

  lemma SkippedStep(render: Render, resolve: Resolve, notes: DocNotes, services: Fields, i: nat)
    requires i < |services|
    ensures SkippedIn(render, resolve, notes, services[i..])
         == (if !services[i].value.Dict? then []
             else Skips(render, resolve, notes, services[i].key, services[i].value.entries, LABELS)
                  + Skips(render, resolve, notes, services[i].key, services[i].value.entries, ENVIRONMENT))
            + SkippedIn(render, resolve, notes, services[i + 1..])
  {
    hide Skips;
    assert services[i..][1..] == services[i + 1..];
  }

  /** `_apply_labels`, `_apply_ports` and `_apply_environment` on one service's fields. */
  method ApplyToFields(render: Render, resolve: Resolve, notes: DocNotes, service: Val, before: Fields)
    returns (fields: Fields, labels: seq<string>, environment: seq<string>)
    ensures fields == StageFields(render, resolve, notes, service, before)
    ensures labels == Skips(render, resolve, notes, service, before, LABELS)
    ensures environment == Skips(render, resolve, notes, service, before, ENVIRONMENT)
  {
    hide StageField;
    hide Skips;
    SkipsNone(render, resolve, notes, service);
    fields, labels, environment := [], [], [];
    for k := 0 to |before|
      invariant |fields| == k
      invariant forall j :: 0 <= j < k ==>
        fields[j] == StageField(render, resolve, notes.lists(service, before[j].key), before[j]).0
      invariant labels + Skips(render, resolve, notes, service, before[k..], LABELS)
             == Skips(render, resolve, notes, service, before, LABELS)
      invariant environment + Skips(render, resolve, notes, service, before[k..], ENVIRONMENT)
             == Skips(render, resolve, notes, service, before, ENVIRONMENT)
    {
      var x := before[k];
      SkipsStep(render, resolve, notes, service, before, k, LABELS);
      SkipsStep(render, resolve, notes, service, before, k, ENVIRONMENT);
      var (field, more) := StageField(render, resolve, notes.lists(service, x.key), x);
      fields := fields + [field];
      if x.key == LABELS {
        labels := labels + more;
      } else if x.key == ENVIRONMENT {
        environment := environment + more;
      }
    }
    assert before[|before|..] == [];
  }

  lemma SkipsNone(render: Render, resolve: Resolve, notes: DocNotes, service: Val)
    ensures forall key :: Skips(render, resolve, notes, service, [], key) == []
  {
  }

  lemma SkipsStep(render: Render, resolve: Resolve, notes: DocNotes, service: Val, fields: Fields, k: nat, key: Val)
    requires k < |fields|
    ensures Skips(render, resolve, notes, service, fields[k..], key)
         == (if fields[k].key == key then StageField(render, resolve, notes.lists(service, key), fields[k]).1 else [])
            + Skips(render, resolve, notes, service, fields[k + 1..], key)
  {
    hide StageField;
    assert fields[k..][1..] == fields[k + 1..];
  }

  lemma {:induction false} VersionAbsent(top: Fields)
    ensures Get(top, VERSION).None? ==> WithoutVersion(top) == top
  {
    if top != [] { VersionAbsent(top[1..]); }
  }

  // -- a scalar written is the scalar meant ---------------------------------------------

  /** Whatever the parser does, an environment value written by the formatter reads back as the string it was. */
  lemma EnvValueReadsBack(resolve: Resolve, value: string)
    ensures ReadBack(resolve, EnvValue(resolve, value)) == Some(Str(value))
  {
  }

  /** A list that is converted keeps each entry's comment on the entry that replaces it. */
  lemma {:induction false} CommentsMove(pairs: Fields, notes: Notes, n: nat, i: nat)
    requires i < n <= |pairs| && Distinct(pairs)
    ensures var m := AfterComments(pairs, notes, n);
      && (pairs[i].key in m <==> i in notes && notes[i].after.Some?)
      && (i in notes && notes[i].after.Some? ==> m[pairs[i].key] == notes[i].after.value)
    ensures forall k :: k in AfterComments(pairs, notes, n) ==> exists j :: 0 <= j < n && pairs[j].key == k
  {
    if n > 1 {
      if i < n - 1 {
        CommentsMove(pairs, notes, n - 1, i);
      } else {
        CommentsMove(pairs, notes, n - 1, 0);
      }
    }
  }

  // -- the value stage changes nothing that is projected ----------------------------------

  lemma MapEqual<A, B, C>(f: A -> B, g: A -> C, h: B -> C, s: seq<A>)
    requires forall i :: 0 <= i < |s| ==> h(f(s[i])) == g(s[i])
    ensures Map(h, Map(f, s)) == Map(g, s)
  {
  }

  lemma StageLabelsProjected(render: Render, v: Val, notes: Notes)
    ensures LabelsAsMapping(render, StageLabels(render, v, notes).0) == LabelsAsMapping(render, v)
  {
    var toStr := (e: Entry<Val, Val>) => LabelString(render, e);
    var quote := (e: Entry<Val, Val>) => QuotedLabel(render, e);
    if v.List? {
      var pairs := Map(i => LabelOf(render, i), v.items);
      MapEqual(quote, toStr, toStr, pairs);
      assert Map(toStr, pairs) == pairs;
    } else if v.Dict? {
      MapEqual(quote, toStr, toStr, v.entries);
    }
  }

  lemma StagePortsProjected(render: Render, v: Val)
    ensures PortsAsStrings(render, StagePorts(render, v)) == PortsAsStrings(render, v)
  {
    if v.List? {
      MapEqual(p => StagePort(render, p), p => PortString(render, p), p => PortString(render, p), v.items);
    }
  }

  lemma StageEnvironmentProjected(render: Render, resolve: Resolve, v: Val, notes: Notes)
    ensures EnvironmentAsMapping(render, StageEnvironment(render, resolve, v, notes).0) == EnvironmentAsMapping(render, v)
  {
    if v.List? {
      var pairs := Map(i => EnvPair(render, resolve, i), v.items);
      forall i | 0 <= i < |v.items|
        ensures VariableString(render, EnvPair(render, resolve, v.items[i])) == VariableOf(render, v.items[i])
      {
        EnvValueReadsBack(resolve, Value(ToStr(render, v.items[i])));
      }
      MapEqual(i => EnvPair(render, resolve, i), i => VariableOf(render, i), e => VariableString(render, e), v.items);
    }
  }

  lemma StageFieldProjected(render: Render, resolve: Resolve, notes: Notes, e: Entry<Val, Val>)
    ensures CanonicalField(render, StageField(render, resolve, notes, e).0) == CanonicalField(render, e)
  {
    StageLabelsProjected(render, e.value, notes);
    StagePortsProjected(render, e.value);
    StageEnvironmentProjected(render, resolve, e.value, notes);
    hide LabelsAsMapping;
    hide PortsAsStrings;
    hide EnvironmentAsMapping;
    hide StageLabels;
    hide StagePorts;
    hide StageEnvironment;
  }

  lemma {:induction false} EachMapped(f: Entry<Val, Val> -> Option<Entry<Val, Val>>, stage: Entry<Val, Val> -> Entry<Val, Val>, es: Fields)
    requires forall i :: 0 <= i < |es| ==> f(stage(es[i])) == f(es[i])
    ensures Each(f, Map(stage, es)) == Each(f, es)
  {
    if es != [] {
      EachMapped(f, stage, es[1..]);
      assert Map(stage, es)[1..] == Map(stage, es[1..]);
    }
  }

  lemma StageServiceProjected(render: Render, resolve: Resolve, notes: DocNotes, e: Entry<Val, Val>)
    ensures CanonicalService(render, StageService(render, resolve, notes, e)) == CanonicalService(render, e)
  {
    hide StageField;
    hide CanonicalField;
    if e.value.Dict? {
      forall i | 0 <= i < |e.value.entries| {
        StageFieldProjected(render, resolve, notes.lists(e.key, e.value.entries[i].key), e.value.entries[i]);
      }
      EachMapped(x => CanonicalField(render, x),
                 (x: Entry<Val, Val>) => StageField(render, resolve, notes.lists(e.key, x.key), x).0, e.value.entries);
    }
  }

  lemma StageTopProjected(render: Render, resolve: Resolve, notes: DocNotes, e: Entry<Val, Val>)
    ensures CanonicalTop(render, StageTop(render, resolve, notes, e)) == CanonicalTop(render, e)
  {
    hide StageService;
    hide CanonicalService;
    if e.key == SERVICES && e.value.Dict? {
      forall i | 0 <= i < |e.value.entries| {
        StageServiceProjected(render, resolve, notes, e.value.entries[i]);
      }
      EachMapped(x => CanonicalService(render, x), x => StageService(render, resolve, notes, x), e.value.entries);
    }
  }

  lemma {:induction false} WithoutVersionMapped(stage: Entry<Val, Val> -> Entry<Val, Val>, top: Fields)
    requires forall i :: 0 <= i < |top| ==> stage(top[i]).key == top[i].key
    ensures WithoutVersion(Map(stage, top)) == Map(stage, WithoutVersion(top))
  {
    if top == [] {
      assert Map(stage, top) == [];
    } else {
      var e, rest := top[0], top[1..];
      WithoutVersionMapped(stage, rest);
      WithoutVersionFirst(e, rest);
      WithoutVersionFirst(stage(e), Map(stage, rest));
      hide WithoutVersion;
      assert top == [e] + rest;
      assert Map(stage, top) == [stage(e)] + Map(stage, rest);
      assert Map(stage, [e] + WithoutVersion(rest)) == [stage(e)] + Map(stage, WithoutVersion(rest));
    }
  }

  lemma {:induction false} WithoutVersionTwice(top: Fields)
    ensures WithoutVersion(WithoutVersion(top)) == WithoutVersion(top)
  {
    if top != [] {
      var e, rest := top[0], top[1..];
      WithoutVersionTwice(rest);
      WithoutVersionFirst(e, rest);
      WithoutVersionFirst(e, WithoutVersion(rest));
      hide WithoutVersion;
      assert top == [e] + rest;
    }
  }

  lemma WithoutVersionFirst(e: Entry<Val, Val>, rest: Fields)
    ensures WithoutVersion([e] + rest) == if e.key == VERSION then WithoutVersion(rest) else [e] + WithoutVersion(rest)
  {
    assert ([e] + rest)[1..] == rest;
  }

  lemma {:induction false} VersionIsNotServices(top: Fields)
    ensures IsCompose(Dict(WithoutVersion(top))) == IsCompose(Dict(top))
    ensures forall e :: e in WithoutVersion(top) ==> e in top
  {
    if top != [] {
      VersionIsNotServices(top[1..]);
      ComposeSplit(top);
      if top[0].key != VERSION { ComposeSplit(WithoutVersion(top)); }
    }
  }

  lemma ComposeSplit(top: Fields)
    requires top != []
    ensures IsCompose(Dict(top)) <==> (top[0].key == SERVICES && top[0].value.Dict?) || IsCompose(Dict(top[1..]))
  {
    if IsCompose(Dict(top[1..])) {
      var i :| 0 <= i < |top[1..]| && top[1..][i].key == SERVICES && top[1..][i].value.Dict?;
      assert top[i + 1] == top[1..][i];
    }
    if IsCompose(Dict(top)) {
      var i :| 0 <= i < |top| && top[i].key == SERVICES && top[i].value.Dict?;
      if i > 0 { assert top[1..][i - 1] == top[i]; }
    }
  }

  lemma StagedIsCompose(render: Render, resolve: Resolve, notes: DocNotes, top: Fields)
    ensures IsCompose(Dict(Map(e => StageTop(render, resolve, notes, e), top))) == IsCompose(Dict(top))
  {
    hide StageService;
    var staged := Map(e => StageTop(render, resolve, notes, e), top);
    forall i | 0 <= i < |top|
      ensures staged[i].key == top[i].key && (top[i].key == SERVICES ==> staged[i].value.Dict? == top[i].value.Dict?)
    {
    }
  }

  /**
   * The value stage leaves the projection of every compose document as it is,
   * in every form: lists or mappings, entries without `=`, repeated keys, null
   * and boolean values, long-syntax ports, `version:` kept or dropped, and a
   * projection that raises still raises.
   */
  lemma ValueStagePreservesProjection(render: Render, resolve: Resolve, notes: DocNotes, top: Fields)
    requires IsCompose(Dict(top))
    ensures Projection(render, Dict(Staged(render, resolve, notes, top))) == Projection(render, Dict(top))
  {
    hide StageService;
    hide CanonicalService;
    var kept := if notes.version then top else WithoutVersion(top);
    var stage := (e: Entry<Val, Val>) => StageTop(render, resolve, notes, e);
    VersionIsNotServices(top);
    StagedIsCompose(render, resolve, notes, kept);
    WithoutVersionMapped(stage, kept);
    WithoutVersionMapped(stage, top);
    WithoutVersionTwice(top);
    var all := WithoutVersion(top);
    assert WithoutVersion(kept) == all;
    forall i | 0 <= i < |all| { StageTopProjected(render, resolve, notes, all[i]); }
    EachMapped(e => CanonicalTop(render, e), stage, all);
    assert Staged(render, resolve, notes, top) == Map(stage, kept);
  }

  // -- the projection is a projection --------------------------------------------------------

  predicate StringPairs(es: Fields) {
    forall i :: 0 <= i < |es| ==> es[i].key.Str? && (es[i].value.Str? || es[i].value.Null?)
  }

  lemma {:induction false} PutAllStrings(d: Fields, es: Fields)
    requires StringPairs(d) && StringPairs(es)
    ensures StringPairs(PutAll(d, es))
    decreases |es|
  {
    if es != [] {
      PutStrings(d, es[0].key, es[0].value);
      PutAllStrings(Put(d, es[0].key, es[0].value), es[1..]);
    }
  }

  lemma {:induction false} PutStrings(d: Fields, key: Val, value: Val)
    requires StringPairs(d) && key.Str? && (value.Str? || value.Null?)
    ensures StringPairs(Put(d, key, value))
  {
    if d != [] { PutStrings(d[1..], key, value); }
  }

  /** A dictionary built from string pairs is already in canonical form. */
  lemma SettledPairs(render: Render, es: Fields)
    requires StringPairs(es)
    ensures var d := PutAll([], es); StringPairs(d) && Distinct(d) && PutAll([], d) == d
  {
    PutAllStrings([], es);
    PutAllDistinct([], es);
    var d := PutAll([], es);
    assert [] + d == d;
    PutAllNew([], d);
  }

  predicate StringValues(es: Fields) {
    forall i :: 0 <= i < |es| ==> es[i].value.Str?
  }

  lemma {:induction false} PutAllStringValues(d: Fields, es: Fields)
    requires StringValues(d) && StringValues(es)
    ensures StringValues(PutAll(d, es))
    decreases |es|
  {
    if es != [] {
      PutStringValues(d, es[0].key, es[0].value);
      PutAllStringValues(Put(d, es[0].key, es[0].value), es[1..]);
    }
  }

  lemma {:induction false} PutStringValues(d: Fields, key: Val, value: Val)
    requires StringValues(d) && value.Str?
    ensures StringValues(Put(d, key, value))
  {
    if d != [] { PutStringValues(d[1..], key, value); }
  }

  lemma LabelsSettled(render: Render, v: Val)
    requires LabelsAsMapping(render, v).Some?
    ensures LabelsAsMapping(render, LabelsAsMapping(render, v).value) == LabelsAsMapping(render, v)
  {
    if !v.Null? {
      var es := if v.Dict? then Map(e => LabelString(render, e), v.entries)
                else Map(i => LabelOf(render, i), Items(v).value);
      SettledPairs(render, es);
      PutAllStringValues([], es);
      var d := PutAll([], es);
      assert Map(e => LabelString(render, e), d) == d;
    } else {
      assert Map(e => LabelString(render, e), []) == [];
    }
  }

  lemma PortsSettled(render: Render, v: Val)
    requires PortsAsStrings(render, v).Some?
    ensures PortsAsStrings(render, PortsAsStrings(render, v).value) == PortsAsStrings(render, v)
  {
    if !v.Null? {
      var ps := Map(i => PortString(render, i), Items(v).value);
      assert Map(i => PortString(render, i), ps) == ps;
    } else {
      assert Map(i => PortString(render, i), []) == [];
    }
  }

  lemma EnvironmentSettled(render: Render, v: Val)
    requires EnvironmentAsMapping(render, v).Some?
    ensures EnvironmentAsMapping(render, EnvironmentAsMapping(render, v).value) == EnvironmentAsMapping(render, v)
  {
    if !v.Null? {
      var es := if v.Dict? then Map(e => VariableString(render, e), v.entries)
                else Map(i => VariableOf(render, i), Items(v).value);
      SettledPairs(render, es);
      var d := PutAll([], es);
      assert Map(e => VariableString(render, e), d) == d;
    } else {
      assert Map(e => VariableString(render, e), []) == [];
    }
  }

  lemma FieldSettled(render: Render, e: Entry<Val, Val>)
    requires CanonicalField(render, e).Some?
    ensures CanonicalField(render, CanonicalField(render, e).value) == CanonicalField(render, e)
  {
    if e.key == LABELS { LabelsSettled(render, e.value); }
    else if e.key == PORTS { PortsSettled(render, e.value); }
    else if e.key == ENVIRONMENT { EnvironmentSettled(render, e.value); }
  }

  lemma {:induction false} EachSettled(f: Entry<Val, Val> -> Option<Entry<Val, Val>>, es: Fields)
    requires Each(f, es).Some?
    requires forall i :: 0 <= i < |es| && f(es[i]).Some? ==> f(f(es[i]).value) == f(es[i])
    ensures Each(f, Each(f, es).value) == Each(f, es)
  {
    if es != [] {
      EachSettled(f, es[1..]);
      assert Each(f, es).value[1..] == Each(f, es[1..]).value;
    }
  }

  lemma ServiceSettled(render: Render, e: Entry<Val, Val>)
    requires CanonicalService(render, e).Some?
    ensures CanonicalService(render, CanonicalService(render, e).value) == CanonicalService(render, e)
  {
    hide CanonicalField;
    if e.value.Dict? {
      forall i | 0 <= i < |e.value.entries| && CanonicalField(render, e.value.entries[i]).Some? {
        FieldSettled(render, e.value.entries[i]);
      }
      EachSettled(x => CanonicalField(render, x), e.value.entries);
    }
  }

  lemma TopSettled(render: Render, e: Entry<Val, Val>)
    requires CanonicalTop(render, e).Some?
    ensures CanonicalTop(render, CanonicalTop(render, e).value) == CanonicalTop(render, e)
    ensures CanonicalTop(render, e).value.key == e.key
    ensures e.key == SERVICES ==> CanonicalTop(render, e).value.value.Dict? == e.value.Dict?
  {
    hide CanonicalService;
    if e.key == SERVICES && e.value.Dict? {
      forall i | 0 <= i < |e.value.entries| && CanonicalService(render, e.value.entries[i]).Some? {
        ServiceSettled(render, e.value.entries[i]);
      }
      EachSettled(x => CanonicalService(render, x), e.value.entries);
    }
  }

  lemma {:induction false} EachKeepsKeys(render: Render, es: Fields)
    requires Each(e => CanonicalTop(render, e), es).Some?
    ensures var out := Each(e => CanonicalTop(render, e), es).value;
      |out| == |es| && forall i :: 0 <= i < |es| ==> CanonicalTop(render, es[i]) == Some(out[i])
  {
    hide CanonicalTop;
    if es != [] {
      EachKeepsKeys(render, es[1..]);
    }
  }

  /** Projecting a projection changes nothing. */
  lemma ProjectionIdempotent(render: Render, doc: Val)
    requires Projection(render, doc).Some?
    ensures Projection(render, Projection(render, doc).value) == Projection(render, doc)
  {
    hide CanonicalTop;
    if IsCompose(doc) {
      var all := WithoutVersion(doc.entries);
      var out := Projection(render, doc).value.entries;
      EachKeepsKeys(render, all);
      forall i | 0 <= i < |all|
        ensures CanonicalTop(render, out[i]) == Some(out[i]) && out[i].key == all[i].key
        ensures all[i].key == SERVICES ==> out[i].value.Dict? == all[i].value.Dict?
      {
        TopSettled(render, all[i]);
      }
      VersionIsNotServices(doc.entries);
      NoVersionLeft(doc.entries);
      var s :| 0 <= s < |all| && all[s].key == SERVICES && all[s].value.Dict?;
      assert out[s].key == SERVICES && out[s].value.Dict?;
      NoVersionSame(out);
      EachFixed(render, out);
    }
  }

  lemma {:induction false} NoVersionLeft(top: Fields)
    ensures forall i :: 0 <= i < |WithoutVersion(top)| ==> WithoutVersion(top)[i].key != VERSION
  {
    if top != [] { NoVersionLeft(top[1..]); }
  }

  lemma {:induction false} NoVersionSame(top: Fields)
    requires forall i :: 0 <= i < |top| ==> top[i].key != VERSION
    ensures WithoutVersion(top) == top
  {
    if top != [] { NoVersionSame(top[1..]); }
  }

  lemma {:induction false} EachFixed(render: Render, es: Fields)
    requires forall i :: 0 <= i < |es| ==> CanonicalTop(render, es[i]) == Some(es[i])
    ensures Each(e => CanonicalTop(render, e), es) == Some(es)
  {
    hide CanonicalTop;
    if es != [] {
      EachFixed(render, es[1..]);
      assert [es[0]] + es[1..] == es;
    }
  }

  // -- when the projection raises --------------------------------------------------------------

  predicate Iterable(v: Val) { v.Null? || v.List? || v.Dict? || v.Str? }

  predicate FieldIterates(e: Entry<Val, Val>) {
    e.key in {LABELS, PORTS, ENVIRONMENT} ==> Iterable(e.value)
  }

  predicate ServiceIterates(e: Entry<Val, Val>) {
    e.value.Dict? ==> forall i :: 0 <= i < |e.value.entries| ==> FieldIterates(e.value.entries[i])
  }

  predicate TopIterates(e: Entry<Val, Val>) {
    e.key == SERVICES && e.value.Dict? ==> forall i :: 0 <= i < |e.value.entries| ==> ServiceIterates(e.value.entries[i])
  }

  lemma {:induction false} EachSome(f: Entry<Val, Val> -> Option<Entry<Val, Val>>, es: Fields)
    ensures Each(f, es).Some? <==> forall i :: 0 <= i < |es| ==> f(es[i]).Some?
  {
    if es != [] {
      EachSome(f, es[1..]);
      assert forall i :: 0 < i < |es| ==> es[i] == es[1..][i - 1];
    }
  }

  /**
   * The guard is total on compose documents exactly where no service has a
   * bare number, boolean, date or other scalar that is not a string for its
   * labels, ports or environment; there Python raises `TypeError`, which
   * nothing on the formatter's path catches.
   */
  lemma ProjectionRaises(render: Render, doc: Val)
    requires IsCompose(doc)
    ensures Projection(render, doc).Some?
       <==> forall i :: 0 <= i < |doc.entries| ==> TopIterates(doc.entries[i])
  {
    var all := WithoutVersion(doc.entries);
    EachSome(e => CanonicalTop(render, e), all);
    forall i | 0 <= i < |all| ensures CanonicalTop(render, all[i]).Some? <==> TopIterates(all[i]) {
      TopRaises(render, all[i]);
    }
    VersionIterates(doc.entries);
  }

  const BARE_LABELS := Entry(Str("web"), Dict([Entry(LABELS, Int("5"))]))

  /** A service with `labels: 5`, in any compose document, makes the guard raise. */
  lemma BareLabelsRaise(render: Render, before: Fields, after: Fields)
    ensures var doc := Dict(before + [Entry(SERVICES, Dict([BARE_LABELS]))] + after);
      IsCompose(doc) && Projection(render, doc).None?
  {
    var services := Entry(SERVICES, Dict([BARE_LABELS]));
    var top := before + [services] + after;
    assert top[|before|] == services;
    assert !FieldIterates(BARE_LABELS.value.entries[0]);
    assert !ServiceIterates([BARE_LABELS][0]);
    assert !TopIterates(services);
    ProjectionRaises(render, Dict(top));
  }

  predicate AllIterate(top: Fields) {
    forall i :: 0 <= i < |top| ==> TopIterates(top[i])
  }

  lemma AllIterateSplit(top: Fields)
    requires top != []
    ensures AllIterate(top) <==> TopIterates(top[0]) && AllIterate(top[1..])
  {
    hide TopIterates;
    assert forall i :: 0 < i < |top| ==> top[i] == top[1..][i - 1];
    assert forall i :: 0 <= i < |top[1..]| ==> top[1..][i] == top[i + 1];
  }

  lemma {:induction false} VersionIterates(top: Fields)
    ensures AllIterate(top) <==> AllIterate(WithoutVersion(top))
  {
    hide TopIterates;
    if top != [] {
      VersionIterates(top[1..]);
      NotServicesIterates(top[0]);
      AllIterateSplit(top);
      if top[0].key != VERSION { AllIterateSplit(WithoutVersion(top)); }
    }
  }

  lemma NotServicesIterates(e: Entry<Val, Val>)
    ensures e.key == VERSION ==> TopIterates(e)
  {
  }

  lemma TopRaises(render: Render, e: Entry<Val, Val>)
    ensures CanonicalTop(render, e).Some? <==> TopIterates(e)
  {
    hide CanonicalService;
    hide ServiceIterates;
    if e.key == SERVICES && e.value.Dict? {
      EachSome(x => CanonicalService(render, x), e.value.entries);
      forall i | 0 <= i < |e.value.entries|
        ensures CanonicalService(render, e.value.entries[i]).Some? <==> ServiceIterates(e.value.entries[i])
      {
        ServiceRaises(render, e.value.entries[i]);
      }
    }
  }

  lemma ServiceRaises(render: Render, e: Entry<Val, Val>)
    ensures CanonicalService(render, e).Some? <==> ServiceIterates(e)
  {
    if e.value.Dict? {
      EachSome(x => CanonicalField(render, x), e.value.entries);
      forall i | 0 <= i < |e.value.entries|
        ensures CanonicalField(render, e.value.entries[i]).Some? <==> FieldIterates(e.value.entries[i])
      {
      }
    }
  }
}
