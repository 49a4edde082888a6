/**
 * Services, what a discovery source reports about them, and how one report is
 * matched to a service and merged into it (`registry/reconcile.py`).
 */
module RegistryModel {
  import opened Wrappers

  datatype Source = Manual | Traefik | Docker | Authentik | Dockhand
  datatype AuthMode = NoAuth | ForwardAuth | Oauth2Proxy | Oauth2Oidc | Basic | Internal | Unknown
  datatype Category = Infra | App | Media | Monitoring | Security | OtherCategory

  /** A row of the service table; ids stand for the UUIDs, in order of creation. */
  datatype Service = Service(
    id: nat,
    name: string,
    displayName: string,
    category: Category,
    host: Option<string>,
    urls: seq<string>,
    router: Option<string>,
    slug: Option<string>,
    slugManual: bool,
    authMode: AuthMode,
    traefikMode: Option<AuthMode>,
    authentikMode: Option<AuthMode>,
    conflict: bool,
    tags: seq<string>,
    notes: string,
    stale: bool)

  /** `DiscoveredService`: one candidate of one pass. */
  datatype Item = Item(
    source: Source,
    externalId: string,
    name: string,
    displayName: Option<string>,
    category: Option<Category>,
    host: Option<string>,
    urls: seq<string>,
    router: Option<string>,
    slug: Option<string>,
    authMode: Option<AuthMode>,
    tags: seq<string>)

  // -- columns -------------------------------------------------------------------------

  datatype Field =
    | DisplayName | CategoryOf | Host | Urls | Router | Slug | SlugManual | Mode | TraefikMode | AuthentikMode
    | Conflict | Tags | Notes | Stale

  datatype Value =
    | Absent
    | Text(s: string)
    | Texts(items: seq<string>)
    | Auth(mode: AuthMode)
    | Flag(b: bool)
    | Kind(category: Category)

  function OfText(o: Option<string>): Value { if o.Some? then Text(o.value) else Absent }
  function OfMode(o: Option<AuthMode>): Value { if o.Some? then Auth(o.value) else Absent }
  function ToText(v: Value): Option<string> { if v.Text? then Some(v.s) else None }
  function ToMode(v: Value): Option<AuthMode> { if v.Auth? then Some(v.mode) else None }

  /** `getattr(service, field)`. */
  function Get(s: Service, f: Field): Value {
    match f
    case DisplayName => Text(s.displayName)
    case CategoryOf => Kind(s.category)
    case Host => OfText(s.host)
    case Urls => Texts(s.urls)
    case Router => OfText(s.router)
    case Slug => OfText(s.slug)
    case SlugManual => Flag(s.slugManual)
    case Mode => Auth(s.authMode)
    case TraefikMode => OfMode(s.traefikMode)
    case AuthentikMode => OfMode(s.authentikMode)
    case Conflict => Flag(s.conflict)
    case Tags => Texts(s.tags)
    case Notes => Text(s.notes)
    case Stale => Flag(s.stale)
  }

  /** A value of the column's type. */
  predicate Fits(f: Field, v: Value) {
    match f
    case DisplayName => v.Text?
    case CategoryOf => v.Kind?
    case Host => v.Text? || v.Absent?
    case Urls => v.Texts?
    case Router => v.Text? || v.Absent?
    case Slug => v.Text? || v.Absent?
    case SlugManual => v.Flag?
    case Mode => v.Auth?
    case TraefikMode => v.Auth? || v.Absent?
    case AuthentikMode => v.Auth? || v.Absent?
    case Conflict => v.Flag?
    case Tags => v.Texts?
    case Notes => v.Text?
    case Stale => v.Flag?
  }

  /** `setattr(service, field, value)`. */
  function Set(s: Service, f: Field, v: Value): Service
    requires Fits(f, v)
  {
    match f
    case DisplayName => s.(displayName := v.s)
    case CategoryOf => s.(category := v.category)
    case Host => s.(host := ToText(v))
    case Urls => s.(urls := v.items)
    case Router => s.(router := ToText(v))
    case Slug => s.(slug := ToText(v))
    case SlugManual => s.(slugManual := v.b)
    case Mode => s.(authMode := v.mode)
    case TraefikMode => s.(traefikMode := ToMode(v))
    case AuthentikMode => s.(authentikMode := ToMode(v))
    case Conflict => s.(conflict := v.b)
    case Tags => s.(tags := v.items)
    case Notes => s.(notes := v.s)
    case Stale => s.(stale := v.b)
  }

  /** A column holds what was last written to it, and writing one leaves the others. */
  lemma SetGet(s: Service, f: Field, v: Value, g: Field)
    requires Fits(f, v)
    ensures Get(Set(s, f, v), g) == if f == g then v else Get(s, g)
    ensures Set(s, f, v).id == s.id && Set(s, f, v).name == s.name
  {
  }

  lemma GetFits(s: Service, f: Field)
    ensures Fits(f, Get(s, f))
  {
  }

  // -- merging a report into a service ----------------------------------------------------

  predicate Truthy(o: Option<string>) { o.Some? && o.value != "" }

  predicate IsProxy(m: Option<AuthMode>) { m == Some(ForwardAuth) || m == Some(Oauth2Proxy) }

  /** An auth mode that says something. */
  predicate Known(m: Option<AuthMode>) { m.Some? && m.value != Unknown }

  /** `list(dict.fromkeys(xs))`: first occurrences, in order. */
  function Dedupe(xs: seq<string>): (r: seq<string>) {
    if xs == [] then []
    else
      var before := Dedupe(xs[..|xs| - 1]);
      if xs[|xs| - 1] in before then before else before + [xs[|xs| - 1]]
  }

  lemma {:induction false} DedupeSame(xs: seq<string>)
    ensures forall x :: x in Dedupe(xs) <==> x in xs
    ensures forall i, j :: 0 <= i < j < |Dedupe(xs)| ==> Dedupe(xs)[i] != Dedupe(xs)[j]
  {
    if xs != [] {
      DedupeSame(xs[..|xs| - 1]);
      assert xs == xs[..|xs| - 1] + [xs[|xs| - 1]];
    }
  }

  predicate SameUrls(a: seq<string>, b: seq<string>) {
    (forall u :: u in a ==> u in b) && (forall u :: u in b ==> u in a)
  }

  function MergedUrls(s: Service, d: Item): seq<string> {
    var merged := Dedupe(s.urls + d.urls);
    if d.urls != [] && !SameUrls(merged, s.urls) then merged else s.urls
  }

  /** Traefik seeing no middleware does not override what Authentik enforces. */
  predicate Demoting(s: Service, d: Item) {
    d.source.Traefik? && d.authMode == Some(NoAuth) && IsProxy(s.authentikMode)
  }

  /** The service after the report, before the conflict is judged. */
  function Observed(s: Service, d: Item): Service {
    s.(router := if Truthy(d.router) then d.router else s.router,
       slug := if Truthy(d.slug) && !s.slugManual then d.slug else s.slug,
       authMode := if Known(d.authMode) && !Demoting(s, d) then d.authMode.value else s.authMode,
       host := if Truthy(d.host) then d.host else s.host,
       urls := MergedUrls(s, d),
       traefikMode := if Known(d.authMode) && d.source.Traefik? then d.authMode else s.traefikMode,
       authentikMode := if Known(d.authMode) && d.source.Authentik? then d.authMode else s.authentikMode)
  }

  /** Everything the conflict depends on is known. */
  predicate Judged(s: Service) {
    Truthy(s.router) && Truthy(s.slug) && s.traefikMode.Some? && s.authentikMode.Some?
  }

  predicate InConflict(s: Service) {
    s.traefikMode == Some(NoAuth) && IsProxy(s.authentikMode)
  }

  /** The service after the report. */
  function Merge(s: Service, d: Item): Service {
    var t := Observed(s, d);
    if Judged(t) then t.(conflict := InConflict(t)) else t
  }

  /** The order in which `provenance_updates` lists what it found. */
  const ORDER := [Router, Slug, Mode, Host, Urls, TraefikMode, AuthentikMode, Conflict]

  datatype Update = Update(field: Field, value: Value)

  /** The columns, among `fields`, in which `t` differs from `s`, with the values of `t`. */
  function Changes(s: Service, t: Service, fields: seq<Field>): (us: seq<Update>)
    ensures forall i :: 0 <= i < |us| ==>
      Fits(us[i].field, us[i].value) && us[i].value == Get(t, us[i].field) && us[i].value != Get(s, us[i].field)
  {
    if fields == [] then []
    else (if Get(s, fields[0]) != Get(t, fields[0]) then [Update(fields[0], Get(t, fields[0]))] else [])
         + Changes(s, t, fields[1..])
  }

  /** One candidate line of the dictionary of updates. */
  function Line(s: Service, t: Service, f: Field): seq<Update> {
    if Get(s, f) != Get(t, f) then [Update(f, Get(t, f))] else []
  }

  lemma ChangesFirst(s: Service, t: Service, f: Field, rest: seq<Field>)
    ensures Changes(s, t, [f] + rest) == Line(s, t, f) + Changes(s, t, rest)
  {
    assert ([f] + rest)[1..] == rest;
  }

  lemma OrderUnfolds(s: Service, t: Service)
    ensures Changes(s, t, ORDER)
         == Line(s, t, Router) + (Line(s, t, Slug) + (Line(s, t, Mode) + (Line(s, t, Host) + (Line(s, t, Urls)
            + (Line(s, t, TraefikMode) + (Line(s, t, AuthentikMode) + Line(s, t, Conflict)))))))
  {
    hide Changes;
    hide Line;
    ChangesFirst(s, t, Conflict, []);
    ChangesFirst(s, t, AuthentikMode, [Conflict]);
    ChangesFirst(s, t, TraefikMode, [AuthentikMode, Conflict]);
    ChangesFirst(s, t, Urls, [TraefikMode, AuthentikMode, Conflict]);
    ChangesFirst(s, t, Host, [Urls, TraefikMode, AuthentikMode, Conflict]);
    ChangesFirst(s, t, Mode, [Host, Urls, TraefikMode, AuthentikMode, Conflict]);
    ChangesFirst(s, t, Slug, [Mode, Host, Urls, TraefikMode, AuthentikMode, Conflict]);
    ChangesFirst(s, t, Router, [Slug, Mode, Host, Urls, TraefikMode, AuthentikMode, Conflict]);
    NoChanges(s, t);
    assert [Conflict] == [Conflict] + [] && Line(s, t, Conflict) + [] == Line(s, t, Conflict);
    assert [AuthentikMode, Conflict] == [AuthentikMode] + [Conflict];
    assert [TraefikMode, AuthentikMode, Conflict] == [TraefikMode] + [AuthentikMode, Conflict];
    assert [Urls, TraefikMode, AuthentikMode, Conflict] == [Urls] + [TraefikMode, AuthentikMode, Conflict];
    assert [Host, Urls, TraefikMode, AuthentikMode, Conflict] == [Host] + [Urls, TraefikMode, AuthentikMode, Conflict];
    assert [Mode, Host, Urls, TraefikMode, AuthentikMode, Conflict]
        == [Mode] + [Host, Urls, TraefikMode, AuthentikMode, Conflict];
    assert [Slug, Mode, Host, Urls, TraefikMode, AuthentikMode, Conflict]
        == [Slug] + [Mode, Host, Urls, TraefikMode, AuthentikMode, Conflict];
    assert ORDER == [Router] + [Slug, Mode, Host, Urls, TraefikMode, AuthentikMode, Conflict];
  }

  lemma NoChanges(s: Service, t: Service)
    ensures Changes(s, t, []) == []
  {
  }

  /** `provenance_updates`: the dictionary, filled in the source's order. */
  method ProvenanceUpdates(s: Service, d: Item) returns (updates: seq<Update>)
    ensures updates == Changes(s, Merge(s, d), ORDER)
  {
    var identity, router, slug := IdentityUpdates(s, d);
    var place := PlaceUpdates(s, d);
    var judged := JudgedUpdates(s, d, router, slug);
    updates := identity + place + judged;
    OrderUnfolds(s, Merge(s, d));
    hide Line;
    Regroup(Line(s, Merge(s, d), Router), Line(s, Merge(s, d), Slug), Line(s, Merge(s, d), Mode),
            Line(s, Merge(s, d), Host), Line(s, Merge(s, d), Urls),
            Line(s, Merge(s, d), TraefikMode) + (Line(s, Merge(s, d), AuthentikMode) + Line(s, Merge(s, d), Conflict)));
  }

  lemma Regroup<T>(a: seq<T>, b: seq<T>, c: seq<T>, d: seq<T>, e: seq<T>, f: seq<T>)
    ensures (a + b + c) + (d + e) + f == a + (b + (c + (d + (e + f))))
  {
  }

  /** A report says nothing about these. */
  lemma MergeKeeps(s: Service, d: Item)
    ensures var t := Merge(s, d);
      t.id == s.id && t.name == s.name && t.displayName == s.displayName && t.category == s.category
      && t.slugManual == s.slugManual && t.tags == s.tags && t.notes == s.notes && t.stale == s.stale
  {
    hide MergedUrls;
  }

  lemma MergeColumns(s: Service, d: Item)
    ensures var t := Merge(s, d);
      t.router == (if Truthy(d.router) then d.router else s.router)
      && t.slug == (if Truthy(d.slug) && !s.slugManual then d.slug else s.slug)
      && t.authMode == (if Known(d.authMode) && !Demoting(s, d) then d.authMode.value else s.authMode)
      && t.host == (if Truthy(d.host) then d.host else s.host)
      && t.urls == MergedUrls(s, d)
      && t.traefikMode == (if Known(d.authMode) && d.source.Traefik? then d.authMode else s.traefikMode)
      && t.authentikMode == (if Known(d.authMode) && d.source.Authentik? then d.authMode else s.authentikMode)
      && t.conflict == (if Judged(t) then InConflict(t) else s.conflict)
  {
    hide MergedUrls;
  }

  lemma Lines3(s: Service, t: Service)
    ensures Line(s, t, Router) == if s.router == t.router then [] else [Update(Router, OfText(t.router))]
    ensures Line(s, t, Slug) == if s.slug == t.slug then [] else [Update(Slug, OfText(t.slug))]
    ensures Line(s, t, Mode) == if s.authMode == t.authMode then [] else [Update(Mode, Auth(t.authMode))]
  {
  }

  lemma Lines2(s: Service, t: Service)
    ensures Line(s, t, Host) == if s.host == t.host then [] else [Update(Host, OfText(t.host))]
    ensures Line(s, t, Urls) == if s.urls == t.urls then [] else [Update(Urls, Texts(t.urls))]
  {
  }

  lemma LinesJudged(s: Service, t: Service)
    ensures Line(s, t, TraefikMode) == if s.traefikMode == t.traefikMode then [] else [Update(TraefikMode, OfMode(t.traefikMode))]
    ensures Line(s, t, AuthentikMode)
         == if s.authentikMode == t.authentikMode then [] else [Update(AuthentikMode, OfMode(t.authentikMode))]
    ensures Line(s, t, Conflict) == if s.conflict == t.conflict then [] else [Update(Conflict, Flag(t.conflict))]
  {
  }

  /** Router, slug and auth mode, with the router and slug that are then in force. */
  method IdentityUpdates(s: Service, d: Item) returns (updates: seq<Update>, router: Option<string>, slug: Option<string>)
    ensures var t := Merge(s, d);
      updates == Line(s, t, Router) + Line(s, t, Slug) + Line(s, t, Mode) && router == t.router && slug == t.slug
  {
    ghost var t := Merge(s, d);
    MergeColumns(s, d);
    Lines3(s, t);
    hide Merge;
    hide Line;
    updates, router, slug := [], s.router, s.slug;
    if Truthy(d.router) && d.router != s.router {
      updates, router := updates + [Update(Router, OfText(d.router))], d.router;
    }
    assert updates == Line(s, t, Router);
    if Truthy(d.slug) && d.slug != s.slug && !s.slugManual {
      updates, slug := updates + [Update(Slug, OfText(d.slug))], d.slug;
    }
    assert updates == Line(s, t, Router) + Line(s, t, Slug);
    if d.authMode.Some? && d.authMode.value != Unknown && d.authMode.value != s.authMode {
      var traefikDemoting := d.source == Traefik && d.authMode.value == NoAuth && IsProxy(s.authentikMode);
      if !traefikDemoting {
        updates := updates + [Update(Mode, Auth(d.authMode.value))];
      }
    }
  }

  /** Host and URLs. */
  method PlaceUpdates(s: Service, d: Item) returns (updates: seq<Update>)
    ensures updates == Line(s, Merge(s, d), Host) + Line(s, Merge(s, d), Urls)
  {
    ghost var t := Merge(s, d);
    MergeColumns(s, d);
    Lines2(s, t);
    hide Merge;
    hide Line;
    hide Dedupe;
    updates := [];
    if Truthy(d.host) && d.host != s.host {
      updates := updates + [Update(Host, OfText(d.host))];
    }
    assert updates == Line(s, t, Host);
    if d.urls != [] {
      var merged := Dedupe(s.urls + d.urls);
      if !SameUrls(merged, s.urls) {
        assert merged != s.urls;
        updates := updates + [Update(Urls, Texts(merged))];
      }
    }
  }

  /** The mode this source saw, and the conflict judged by what is then in force. */
  method JudgedUpdates(s: Service, d: Item, router: Option<string>, slug: Option<string>) returns (updates: seq<Update>)
    requires router == Merge(s, d).router && slug == Merge(s, d).slug
    ensures var t := Merge(s, d);
      updates == Line(s, t, TraefikMode) + (Line(s, t, AuthentikMode) + Line(s, t, Conflict))
  {
    ghost var t := Merge(s, d);
    MergeColumns(s, d);
    LinesJudged(s, t);
    hide Merge;
    hide Line;
    updates := [];
    var traefik, authentik := s.traefikMode, s.authentikMode;
    if d.authMode.Some? && d.authMode.value != Unknown {
      if d.source == Traefik && d.authMode != s.traefikMode {
        updates, traefik := updates + [Update(TraefikMode, OfMode(d.authMode))], d.authMode;
      } else if d.source == Authentik && d.authMode != s.authentikMode {
        updates, authentik := updates + [Update(AuthentikMode, OfMode(d.authMode))], d.authMode;
      }
    }
    assert traefik == t.traefikMode && authentik == t.authentikMode;
    assert updates == Line(s, t, TraefikMode) + Line(s, t, AuthentikMode);
    if Truthy(router) && Truthy(slug) && traefik.Some? && authentik.Some? {
      var conflict := traefik == Some(NoAuth) && IsProxy(authentik);
      if conflict != s.conflict {
        updates := updates + [Update(Conflict, Flag(conflict))];
      }
    }
  }

  /** Writing updates one by one. */
  function ApplyAll(s: Service, us: seq<Update>): Service
    requires forall i :: 0 <= i < |us| ==> Fits(us[i].field, us[i].value)
    decreases |us|
  {
    if us == [] then s else ApplyAll(Set(s, us[0].field, us[0].value), us[1..])
  }

  /** Two services that agree on everything but the columns of `fields`. */
  predicate AgreeBeyond(s: Service, t: Service, fields: seq<Field>) {
    s.id == t.id && s.name == t.name && forall g :: g !in fields ==> Get(s, g) == Get(t, g)
  }

  lemma SameColumns(s: Service, t: Service)
    requires AgreeBeyond(s, t, [])
    ensures s == t
  {
    assert forall g :: Get(s, g) == Get(t, g);
    SameCurated(s, t);
    SameObserved(s, t);
    hide Get;
  }

  lemma SameCurated(s: Service, t: Service)
    requires forall g :: Get(s, g) == Get(t, g)
    ensures s.displayName == t.displayName && s.category == t.category && s.tags == t.tags && s.notes == t.notes
    ensures s.slugManual == t.slugManual && s.stale == t.stale && s.conflict == t.conflict
  {
    assert Get(s, DisplayName) == Get(t, DisplayName) && Get(s, CategoryOf) == Get(t, CategoryOf);
    assert Get(s, Tags) == Get(t, Tags) && Get(s, Notes) == Get(t, Notes);
    assert Get(s, SlugManual) == Get(t, SlugManual) && Get(s, Stale) == Get(t, Stale);
    assert Get(s, Conflict) == Get(t, Conflict);
  }

  lemma SameObserved(s: Service, t: Service)
    requires forall g :: Get(s, g) == Get(t, g)
    ensures s.host == t.host && s.urls == t.urls && s.router == t.router && s.slug == t.slug
    ensures s.authMode == t.authMode && s.traefikMode == t.traefikMode && s.authentikMode == t.authentikMode
  {
    assert Get(s, Host) == Get(t, Host) && Get(s, Urls) == Get(t, Urls);
    assert Get(s, Router) == Get(t, Router) && Get(s, Slug) == Get(t, Slug);
    assert Get(s, Mode) == Get(t, Mode);
    assert Get(s, TraefikMode) == Get(t, TraefikMode) && Get(s, AuthentikMode) == Get(t, AuthentikMode);
  }

  predicate Once(fields: seq<Field>) {
    forall i, j :: 0 <= i < j < |fields| ==> fields[i] != fields[j]
  }

  lemma {:induction false} ChangesFrom(s: Service, u: Service, t: Service, fields: seq<Field>)
    requires forall g :: g in fields ==> Get(s, g) == Get(u, g)
    ensures Changes(s, t, fields) == Changes(u, t, fields)
  {
    hide Get;
    if fields != [] { ChangesFrom(s, u, t, fields[1..]); }
  }

  /** Writing the changes from one service to another yields the other. */
  lemma {:induction false} ChangesApply(s: Service, t: Service, fields: seq<Field>)
    requires Once(fields) && AgreeBeyond(s, t, fields)
    ensures ApplyAll(s, Changes(s, t, fields)) == t
    decreases |fields|
  {
    if fields == [] {
      SameColumns(s, t);
    } else {
      var f, rest := fields[0], fields[1..];
      GetFits(t, f);
      var u := Set(s, f, Get(t, f));
      forall g ensures Get(u, g) == if g == f then Get(t, f) else Get(s, g) { SetGet(s, f, Get(t, f), g); }
      SetGet(s, f, Get(t, f), f);
      hide Get;
      hide Set;
      forall g | g !in rest ensures Get(u, g) == Get(t, g) { assert g !in fields || g == f; }
      forall g | g in rest ensures g != f { var i :| 0 <= i < |rest| && rest[i] == g; assert fields[i + 1] == g; }
      ChangesApply(u, t, rest);
      ChangesFrom(s, u, t, rest);
      assert fields == [f] + rest;
      ChangesFirst(s, t, f, rest);
      if Get(s, f) == Get(t, f) {
        SameSet(s, f);
        assert Changes(s, t, fields) == Changes(u, t, rest);
      } else {
        assert Changes(s, t, fields)[1..] == Changes(u, t, rest);
      }
    }
  }

  /** What a report changes, written column by column, is the merge; nothing else is touched. */
  lemma MergeIsItsUpdates(s: Service, d: Item)
    ensures ApplyAll(s, Changes(s, Merge(s, d), ORDER)) == Merge(s, d)
  {
    var t := Merge(s, d);
    forall g | g !in ORDER ensures Get(s, g) == Get(t, g) {
      assert Router in ORDER && Slug in ORDER && Mode in ORDER && Host in ORDER && Urls in ORDER;
      assert TraefikMode in ORDER && AuthentikMode in ORDER && Conflict in ORDER;
    }
    ChangesApply(s, t, ORDER);
  }

  lemma SameSet(s: Service, f: Field)
    requires Fits(f, Get(s, f))
    ensures Set(s, f, Get(s, f)) == s
  {
  }
}
