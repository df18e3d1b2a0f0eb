/**
 * What the inventory lists, surface by surface, and which portal it names for a public field.
 * Models deriveSurfaces and livePublicFields of packages/mcp/src/blast-radius.ts.
 */
module SurfaceText {
  import opened Collections
  import opened Spec
  import opened Strings
  import opened Surfaces
  import BlastRadius
  import Sorting
  import Lex

  // ---------------------------------------------------------------------------
  // Every surface, and no other
  // ---------------------------------------------------------------------------

  lemma {:induction false} TypeTexts(f: Field)
    ensures f.kind == StringType ==> TypeText(f) == "string"
    ensures f.kind == NumberType ==> TypeText(f) == "number"
    ensures f.kind == BooleanType ==> TypeText(f) == "boolean"
    ensures f.kind == DateType ==> TypeText(f) == "date"
    ensures f.kind == EnumType ==> TypeText(f) == "enum"
    ensures f.kind == JsonType ==> TypeText(f) == "json"
    ensures f.kind == FileType ==> TypeText(f) == "file"
  {}

  /** One of a field's surfaces: its column, and its exposure for each way in which it is public. */
  ghost predicate OfField(e: Entity, f: Field, public: PublicFields, s: Surface) {
    var path, key := ResourceName(e.id) + "." + f.name, e.id + ":" + f.id;
    || s == Surface(Column, "column:" + path, "`" + path + "`", Some(TypeText(f) + if f.required then ", required" else ""))
    || (key in public.readable
        && s == Surface(PublicField, "public-field:" + path, "**`" + path + "` is readable by the public internet**",
                        Some("via the `" + public.readable[key] + "` portal")))
    || (key in public.writable
        && s == Surface(PublicWrite, "public-write:" + path, "**`" + path + "` is writable by the public internet**",
                        Some("via the `" + public.writable[key] + "` portal")))
  }

  /** One of an entity's surfaces: its table, its REST payload, its tools, or one of a built field. */
  ghost predicate OfEntity(e: Entity, public: PublicFields, s: Surface) {
    var name, n := ResourceName(e.id), |View(e)|;
    || s == Surface(Table, "table:" + name, "the `" + name + "` table", Some(Decimal(n) + if n == 1 then " column" else " columns"))
    || s == Surface(Rest, "rest:" + name, "`/api/" + name + "` (list, create, update, delete)", Some(SortedNames(View(e))))
    || s == Surface(Tool, "tool:" + name, "MCP: `" + name + "` reachable by `list_records` / `create_record` / \U{2026}", None)
    || exists f :: BuiltField(e, f) && OfField(e, f, public, s)
  }

  /** The accepted-or-all rule: a field, a block, an entity or a page is built when it is accepted, or when nothing beside it is. */
  ghost predicate BuiltField(e: Entity, f: Field) {
    f in e.fields && (f.accepted || forall g :: g in e.fields ==> !g.accepted)
  }

  ghost predicate BuiltBlock(p: Page, b: Block) {
    b in p.blocks && (b.accepted || forall c :: c in p.blocks ==> !c.accepted)
  }

  ghost predicate BuiltEntity(spec: System, e: Entity) {
    e in spec.entities && (e.accepted || forall d :: d in spec.entities ==> !d.accepted)
  }

  ghost predicate BuiltPage(spec: System, p: Page) {
    p in spec.pages && (p.accepted || forall q :: q in spec.pages ==> !q.accepted)
  }

  /** One of a page's surfaces: its route, or one of its built forms, whose inputs are the built fields of its entity. */
  ghost predicate OfPage(entities: seq<Entity>, p: Page, s: Surface) {
    || s == Surface(Route, "route:" + p.route, "the `" + p.route + "` route", Some(p.name))
    || exists b :: && BuiltBlock(p, b) && b.isForm
                   && s == Surface(Form, "form:" + p.route + ":" + b.id, "the form on `" + p.route + "`", Some(Inputs(entities, p)))
  }

  lemma {:induction false} FieldLists(e: Entity, f: Field, public: PublicFields, s: Surface)
    ensures s in FieldSurfaces(e, public)(f) <==> OfField(e, f, public, s)
  {
  }

  lemma {:induction false} EntityIsBuilt(spec: System, e: Entity)
    ensures e in BuiltEntities(spec) <==> BuiltEntity(spec, e)
  {
    AcceptedOrAllSpec(spec.entities, EntityAccepted());
  }

  lemma {:induction false} PageIsBuilt(spec: System, p: Page)
    ensures p in BuiltPages(spec) <==> BuiltPage(spec, p)
  {
    AcceptedOrAllSpec(spec.pages, PageAccepted());
  }

  lemma {:induction false} FieldIsBuilt(e: Entity, f: Field)
    ensures f in View(e) <==> BuiltField(e, f)
  {
    AcceptedOrAllSpec(e.fields, FieldAccepted());
  }

  lemma {:induction false} InThree<T>(a: T, b: T, c: T, rest: seq<T>, x: T)
    ensures x in [a, b, c] + rest <==> x == a || x == b || x == c || x in rest
  {}

  lemma {:induction false} FieldsList(e: Entity, public: PublicFields, s: Surface)
    ensures s in FlatMap(View(e), FieldSurfaces(e, public)) <==> exists f :: BuiltField(e, f) && OfField(e, f, public, s)
  {
    FlatMapMember(View(e), FieldSurfaces(e, public), s);
    forall f
      ensures f in View(e) <==> BuiltField(e, f)
      ensures s in FieldSurfaces(e, public)(f) <==> OfField(e, f, public, s)
    {
      FieldIsBuilt(e, f);
      FieldLists(e, f, public, s);
    }
  }

  lemma {:induction false} EntityLists(e: Entity, public: PublicFields, s: Surface)
    ensures s in EntitySurfaces(public)(e) <==> OfEntity(e, public, s)
  {
    FieldsList(e, public, s);
    InThree(TableSurface(e), RestSurface(e), ToolSurface(e), FlatMap(View(e), FieldSurfaces(e, public)), s);
    ThreeAre(e);
  }

  lemma {:induction false} ThreeAre(e: Entity)
    ensures var name, n := ResourceName(e.id), |View(e)|;
            && TableSurface(e) == Surface(Table, "table:" + name, "the `" + name + "` table", Some(Decimal(n) + if n == 1 then " column" else " columns"))
            && RestSurface(e) == Surface(Rest, "rest:" + name, "`/api/" + name + "` (list, create, update, delete)", Some(SortedNames(View(e))))
            && ToolSurface(e) == Surface(Tool, "tool:" + name, "MCP: `" + name + "` reachable by `list_records` / `create_record` / \U{2026}", None)
  {
  }

  lemma {:induction false} PageLists(entities: seq<Entity>, p: Page, s: Surface)
    ensures s in PageSurfaces(entities)(p) <==> OfPage(entities, p, s)
  {
    var blocks := AcceptedOrAll(p.blocks, BlockAccepted());
    FilterMapMember(blocks, FormSurface(entities, p), s);
    AcceptedOrAllSpec(p.blocks, BlockAccepted());
    assert s in PageSurfaces(entities)(p) <==> s == RouteSurface(p) || s in FilterMap(blocks, FormSurface(entities, p));
  }

  /** A surface of some built entity. */
  ghost predicate OfEntities(spec: System, public: PublicFields, s: Surface) {
    exists e :: BuiltEntity(spec, e) && OfEntity(e, public, s)
  }

  /** A surface of some built page. */
  ghost predicate OfPages(spec: System, s: Surface) {
    exists p :: BuiltPage(spec, p) && OfPage(BuiltEntities(spec), p, s)
  }

  lemma {:induction false} EntitiesList(spec: System, public: PublicFields, s: Surface)
    ensures s in FlatMap(BuiltEntities(spec), EntitySurfaces(public)) <==> OfEntities(spec, public, s)
  {
    FlatMapMember(BuiltEntities(spec), EntitySurfaces(public), s);
    forall e
      ensures e in BuiltEntities(spec) <==> BuiltEntity(spec, e)
      ensures s in EntitySurfaces(public)(e) <==> OfEntity(e, public, s)
    {
      EntityIsBuilt(spec, e);
      EntityLists(e, public, s);
    }
  }

  lemma {:induction false} PagesList(spec: System, s: Surface)
    ensures s in FlatMap(BuiltPages(spec), PageSurfaces(BuiltEntities(spec))) <==> OfPages(spec, s)
  {
    var entities := BuiltEntities(spec);
    FlatMapMember(BuiltPages(spec), PageSurfaces(entities), s);
    forall p
      ensures p in BuiltPages(spec) <==> BuiltPage(spec, p)
      ensures s in PageSurfaces(entities)(p) <==> OfPage(entities, p, s)
    {
      PageIsBuilt(spec, p);
      PageLists(entities, p, s);
    }
  }

  /** The inventory lists exactly the surfaces of the entities and pages that are built: accepted, or all when none is. */
  lemma {:induction false} DerivedIff(spec: System, locale: (string, string) -> bool, s: Surface)
    ensures s in Derive(spec, locale) <==> OfEntities(spec, PublicOf(spec.portals, locale), s) || OfPages(spec, s)
  {
    EntitiesList(spec, PublicOf(spec.portals, locale), s);
    PagesList(spec, s);
  }

  // ---------------------------------------------------------------------------
  // Numbers and lists of names
  // ---------------------------------------------------------------------------

  function ValueOf(digits: string): int {
    if digits == "" then 0 else 10 * ValueOf(digits[..|digits| - 1]) + (digits[|digits| - 1] as int - '0' as int)
  }

  /** A number is written in its decimal digits, without a leading zero. */
  lemma {:induction false} DecimalReads(n: nat)
    ensures Decimal(n) != "" && Digits(Decimal(n)) && ValueOf(Decimal(n)) == n
    ensures n > 0 ==> Decimal(n)[0] != '0'
  {
    OneDigit(n % 10);
    if n < 10 {
      assert Decimal(n)[..0] == "";
    } else {
      DecimalReads(n / 10);
      assert Decimal(n)[..|Decimal(n)| - 1] == Decimal(n / 10);
    }
  }

  lemma {:induction false} OneDigit(d: nat)
    requires d < 10
    ensures "0123456789"[d] as int == '0' as int + d
  {}

  lemma {:induction false} TextIsOrdered(s: seq<string>)
    ensures Sorting.OrderedBy(Sorting.SortBy(s, ByText()), ByText())
  {
    forall a: string, b: string
      ensures ByText()(a, b) ==> !ByText()(b, a)
    {
      if Lex.Less(a, b) {
        Lex.Asymmetric(a, b);
      }
    }
    forall a: string, b: string, c: string | !ByText()(b, a) && !ByText()(c, b)
      ensures !ByText()(c, a)
    {
      NotAfter(a, b, c);
    }
    Sorting.SortByOrdered(s, ByText());
  }

  lemma {:induction false} NotAfter(a: string, b: string, c: string)
    requires !Lex.Less(b, a) && !Lex.Less(c, b)
    ensures !Lex.Less(c, a)
  {
    Lex.Connected(a, b);
    Lex.Connected(b, c);
    if a != b && b != c {
      Lex.Transitive(a, b, c);
      Lex.Asymmetric(a, c);
    } else if a != b {
      Lex.Asymmetric(a, b);
    } else if b != c {
      Lex.Asymmetric(b, c);
    } else {
      Lex.Irreflexive(a);
    }
  }

  lemma {:induction false} LeastFirst(s: seq<string>, t: seq<string>)
    requires s != [] && t != [] && Sorting.OrderedBy(s, ByText()) && t[0] in s
    ensures !Lex.Less(t[0], s[0])
  {
    var j :| 0 <= j < |s| && s[j] == t[0];
    Lex.Irreflexive(s[0]);
    assert j > 0 ==> !ByText()(s[j], s[0]);
  }

  /** A sequence of texts in order is told by what it holds. */
  lemma {:induction false} OrderedSame(s: seq<string>, t: seq<string>)
    requires Sorting.OrderedBy(s, ByText()) && Sorting.OrderedBy(t, ByText()) && multiset(s) == multiset(t)
    ensures s == t
  {
    if s == [] {
      assert |t| == |multiset(t)| == |multiset(s)| == 0;
    } else {
      assert s[0] in multiset(s);
      assert s[0] in t;
      assert t[0] in multiset(t);
      assert t[0] in s;
      LeastFirst(s, t);
      LeastFirst(t, s);
      Lex.Connected(s[0], t[0]);
      assert s == [s[0]] + s[1..] && t == [t[0]] + t[1..];
      RestOrdered(s);
      RestOrdered(t);
      assert multiset(s[1..]) == multiset(s) - multiset{s[0]};
      assert multiset(t[1..]) == multiset(t) - multiset{t[0]};
      OrderedSame(s[1..], t[1..]);
    }
  }

  lemma {:induction false} RestOrdered(s: seq<string>)
    requires s != [] && Sorting.OrderedBy(s, ByText())
    ensures Sorting.OrderedBy(s[1..], ByText())
  {
    forall i, j | 0 <= i < j < |s| - 1
      ensures !ByText()(s[1..][j], s[1..][i])
    {
      assert !ByText()(s[j + 1], s[i + 1]);
    }
  }

  /** A list of fields is shown as its names in order, repeats included, joined by a comma and a space. */
  lemma {:induction false} NamesShown(fields: seq<Field>, names: seq<string>)
    requires multiset(names) == multiset(Map(fields, NameOf()))
    requires forall i, j :: 0 <= i < j < |names| ==> !Lex.Less(names[j], names[i])
    ensures SortedNames(fields) == Join(names, ", ")
  {
    var sorted := Sorting.SortBy(Map(fields, NameOf()), ByText());
    TextIsOrdered(Map(fields, NameOf()));
    assert Sorting.OrderedBy(names, ByText());
    OrderedSame(sorted, names);
  }

  /** A form's inputs are those of the first built entity under its page's id, and none without one. */
  lemma {:induction false} InputsAre(entities: seq<Entity>, p: Page, k: nat)
    ensures k < |entities| && entities[k].id == p.entity && (forall j :: 0 <= j < k ==> entities[j].id != p.entity) ==>
              Inputs(entities, p) == SortedNames(View(entities[k]))
    ensures (forall e :: e in entities ==> e.id != p.entity) ==> Inputs(entities, p) == ""
  {
    FindEntitySpec(entities, p.entity);
    if k < |entities| && entities[k].id == p.entity && forall j :: 0 <= j < k ==> entities[j].id != p.entity {
      FindAt(entities, (e: Entity) => e.id == p.entity, k);
    }
  }

  // ---------------------------------------------------------------------------
  // The portal named
  // ---------------------------------------------------------------------------

  /** A live row for the field: one whose portal's id some accepted, unpaused portal has. */
  ghost predicate Shows(r: Exposed, live: set<string>, key: string, write: bool) {
    r.portalId in live && (r.access != Read <==> write) && FieldKey(r.entity, r.field) == key
  }

  lemma {:induction false} PublicInValue(rows: seq<Exposed>, live: set<string>, key: string, write: bool) returns (k: nat)
    requires var public := PublicIn(rows, live); key in if write then public.writable else public.readable
    ensures k < |rows| && Shows(rows[k], live, key, write) && forall j :: k < j < |rows| ==> !Shows(rows[j], live, key, write)
    ensures var public := PublicIn(rows, live);
            (if write then public.writable else public.readable)[key] == rows[k].portalKey
  {
    var n := |rows| - 1;
    if Shows(rows[n], live, key, write) {
      k := n;
    } else {
      k := PublicInValue(rows[..n], live, key, write);
      assert forall j :: 0 <= j < n ==> rows[..n][j] == rows[j];
    }
  }

  lemma {:induction false} OneWay(locale: (string, string) -> bool, a: string, b: string)
    requires BlastRadius.TotalOrder(locale)
    ensures locale(a, b) <==> a != b && !locale(b, a)
  {
    assert locale(a, b) && locale(b, a) ==> locale(a, a);
  }

  lemma {:induction false} NotBefore(locale: (string, string) -> bool, a: string, b: string, c: string)
    requires BlastRadius.TotalOrder(locale)
    ensures !locale(b, a) && !locale(c, b) ==> !locale(c, a)
    ensures !locale(b, a) && !locale(c, b) && a == c ==> a == b
  {
    OneWay(locale, a, b);
    OneWay(locale, b, c);
    OneWay(locale, a, c);
    assert locale(a, b) && locale(b, c) ==> locale(a, c);
  }

  /** A row no later than another: by portal, then by access, then by field. */
  predicate NoLater(locale: (string, string) -> bool, a: Exposed, b: Exposed) {
    if a.portalKey != b.portalKey then !locale(b.portalKey, a.portalKey)
    else if a.access != b.access then AccessRank(a.access) < AccessRank(b.access)
    else !locale(b.field, a.field)
  }

  lemma {:induction false} NoLaterIff(locale: (string, string) -> bool, a: Exposed, b: Exposed)
    ensures NoLater(locale, a, b) <==> !ByPortal(locale)(b, a)
  {}

  lemma {:induction false} ByPortalSteps(locale: (string, string) -> bool, a: Exposed, b: Exposed, c: Exposed)
    requires BlastRadius.TotalOrder(locale) && !ByPortal(locale)(b, a) && !ByPortal(locale)(c, b)
    ensures !ByPortal(locale)(c, a)
  {
    NoLaterIff(locale, a, b);
    NoLaterIff(locale, b, c);
    NoLaterIff(locale, a, c);
    OneWay(locale, b.portalKey, b.portalKey);
    NotBefore(locale, a.portalKey, b.portalKey, c.portalKey);
    if a.portalKey == c.portalKey {
      assert b.portalKey == a.portalKey;
      NotBefore(locale, a.field, b.field, c.field);
    }
  }

  lemma {:induction false} ByPortalIsWeak(locale: (string, string) -> bool)
    requires BlastRadius.TotalOrder(locale)
    ensures Sorting.StrictWeak(ByPortal(locale))
  {
    var less := ByPortal(locale);
    forall a: Exposed, b: Exposed
      ensures less(a, b) ==> !less(b, a)
    {
      OneWay(locale, a.portalKey, b.portalKey);
      OneWay(locale, a.field, b.field);
      NoLaterIff(locale, a, b);
    }
    forall a: Exposed, b: Exposed, c: Exposed | !less(b, a) && !less(c, b)
      ensures !less(c, a)
    {
      ByPortalSteps(locale, a, b, c);
    }
  }

  /**
   * The portal the inventory names for a public field is, of the portals that publish it under a live id, the one
   * whose key comes last: later rows of the report overwrite earlier ones, and the report is sorted by key.
   */
  lemma {:induction false} LastPortalIsNamed(portals: seq<Portal>, locale: (string, string) -> bool, key: string, write: bool)
    requires BlastRadius.TotalOrder(locale)
    requires var public := PublicOf(portals, locale); key in if write then public.writable else public.readable
    ensures var public := PublicOf(portals, locale);
            var named := (if write then public.writable else public.readable)[key];
            && (exists p :: Publishes(portals, p, key, write) && p.key == named)
            && (forall p :: Publishes(portals, p, key, write) ==> !locale(named, p.key))
  {
    var rows := ExposureReport(portals, locale);
    var k := PublicInValue(rows, LiveIds(portals), key, write);
    PublisherOf(portals, locale, rows[k], key, write);
    forall p | Publishes(portals, p, key, write)
      ensures !locale(rows[k].portalKey, p.key)
    {
      var r := RowOf(portals, locale, p, key, write);
      NoneLater(portals, locale, k, r, key, write);
    }
  }

  /** No row for the field comes after the last one, so none is of a portal with a later key. */
  lemma {:induction false} NoneLater(portals: seq<Portal>, locale: (string, string) -> bool, k: nat, r: Exposed, key: string, write: bool)
    requires BlastRadius.TotalOrder(locale) && k < |ExposureReport(portals, locale)| && r in ExposureReport(portals, locale)
    requires Shows(r, LiveIds(portals), key, write)
    requires forall j :: k < j < |ExposureReport(portals, locale)| ==> !Shows(ExposureReport(portals, locale)[j], LiveIds(portals), key, write)
    ensures !locale(ExposureReport(portals, locale)[k].portalKey, r.portalKey)
  {
    var rows := ExposureReport(portals, locale);
    ByPortalIsWeak(locale);
    Sorting.SortByOrdered(FlatMap(portals, Exposures()), ByPortal(locale));
    var j :| 0 <= j < |rows| && rows[j] == r;
    assert j < k ==> !ByPortal(locale)(rows[k], rows[j]);
    OneWay(locale, r.portalKey, r.portalKey);
  }

  /** A portal that publishes the field, under an id some accepted, unpaused portal has. */
  ghost predicate Publishes(portals: seq<Portal>, p: Portal, key: string, write: bool) {
    p in portals && LiveId(portals, p.id) && if write then Writes(p, key) else Reads(p, key)
  }

  lemma {:induction false} PublisherOf(portals: seq<Portal>, locale: (string, string) -> bool, r: Exposed, key: string, write: bool)
    requires r in ExposureReport(portals, locale) && Shows(r, LiveIds(portals), key, write)
    ensures exists p :: Publishes(portals, p, key, write) && p.key == r.portalKey
  {
    ReportMember(portals, locale, r);
    var p :| p in portals && r in Exposures()(p);
    ExposuresIff(p, r);
    assert Publishes(portals, p, key, write);
  }

  lemma {:induction false} RowOf(portals: seq<Portal>, locale: (string, string) -> bool, p: Portal, key: string, write: bool) returns (r: Exposed)
    requires Publishes(portals, p, key, write)
    ensures r in ExposureReport(portals, locale) && r.portalKey == p.key && Shows(r, LiveIds(portals), key, write)
  {
    if write {
      var w, f :| w in p.writes && f in w.fields && FieldKey(p.entity, f) == key;
      r := Exposed(p.id, p.key, p.entity, f, w.action);
    } else {
      var f :| f in p.readFields && FieldKey(p.entity, f) == key;
      r := Exposed(p.id, p.key, p.entity, f, Read);
    }
    ExposuresIff(p, r);
    ReportMember(portals, locale, r);
  }
}
