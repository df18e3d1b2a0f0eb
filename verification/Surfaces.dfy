/**
 * The inventory of surfaces a spec produces: tables, columns, routes, forms, REST payloads, tools and
 * what the public internet may read or write.
 * Models deriveSurfaces and livePublicFields of packages/mcp/src/blast-radius.ts, over activePortals and
 * portalExposureReport of packages/spec/src/base/portals.ts.
 */
module Surfaces {
  import opened Collections
  import opened Spec
  import opened Strings
  import Sorting
  import Lex

  /** What a spec produces, the kinds that matter most first. */
  datatype Kind = PublicField | PublicWrite | Table | Column | Route | Form | Rest | Tool

  datatype Surface = Surface(kind: Kind, id: string, caption: string, detail: Option<string>)

  datatype Access = Read | Create | Update

  type WriteAction = a: Access | a != Read witness Create

  datatype WriteRule = WriteRule(action: WriteAction, fields: seq<string>)

  datatype Portal = Portal(id: string, key: string, entity: string, readFields: seq<string>, writes: seq<WriteRule>,
                           accepted: bool, paused: bool)

  datatype Block = Block(id: string, isForm: bool, accepted: bool)

  datatype Page = Page(route: string, name: string, entity: string, blocks: seq<Block>, accepted: bool)

  datatype System = System(entities: seq<Entity>, pages: seq<Page>, portals: seq<Portal>)

  // ---------------------------------------------------------------------------
  // Ids
  // ---------------------------------------------------------------------------

  function Prefix(kind: Kind): string {
    match kind
    case PublicField => "public-field:"
    case PublicWrite => "public-write:"
    case Table => "table:"
    case Column => "column:"
    case Route => "route:"
    case Form => "form:"
    case Rest => "rest:"
    case Tool => "tool:"
  }

  /** A surface's id begins with its kind. */
  ghost predicate Kinded(s: Surface) {
    Prefix(s.kind) <= s.id
  }

  ghost predicate AllKinded(surfaces: seq<Surface>) {
    forall i :: 0 <= i < |surfaces| ==> Kinded(surfaces[i])
  }

  lemma {:induction false} KindFromPrefix(a: Kind, b: Kind, id: string)
    requires Prefix(a) <= id && Prefix(b) <= id
    ensures a == b
  {
    var p, q := Prefix(a), Prefix(b);
    assert p[0] == id[0] == q[0] && p[1] == id[1] == q[1];
    if p[0] == 'p' {
      assert p[7] == id[7] == q[7];
    }
  }

  lemma {:induction false} PrefixedSame(k: Kind, x: string, y: string)
    requires Prefix(k) + x == Prefix(k) + y
    ensures x == y
  {
    assert (Prefix(k) + x)[|Prefix(k)|..] == x && (Prefix(k) + y)[|Prefix(k)|..] == y;
  }

  /** Surfaces under one id are of one kind. */
  lemma {:induction false} KindFromId(a: Surface, b: Surface)
    requires Kinded(a) && Kinded(b) && a.id == b.id
    ensures a.kind == b.kind
  {
    KindFromPrefix(a.kind, b.kind, a.id);
  }

  // ---------------------------------------------------------------------------
  // What live portals publish
  // ---------------------------------------------------------------------------

  datatype Exposed = Exposed(portalId: string, portalKey: string, entity: string, field: string, access: Access)

  function ReadRow(p: Portal): string -> Exposed {
    (f: string) => Exposed(p.id, p.key, p.entity, f, Read)
  }

  function WriteRow(p: Portal, action: Access): string -> Exposed {
    (f: string) => Exposed(p.id, p.key, p.entity, f, action)
  }

  function WriteRows(p: Portal): WriteRule -> seq<Exposed> {
    (w: WriteRule) => Map(w.fields, WriteRow(p, w.action))
  }

  function Exposures(): Portal -> seq<Exposed> {
    (p: Portal) => Map(p.readFields, ReadRow(p)) + FlatMap(p.writes, WriteRows(p))
  }

  function AccessRank(a: Access): nat {
    match a case Read => 0 case Create => 1 case Update => 2
  }

  function ByPortal(locale: (string, string) -> bool): (Exposed, Exposed) -> bool {
    (a: Exposed, b: Exposed) =>
      if a.portalKey != b.portalKey then locale(a.portalKey, b.portalKey)
      else if a.access != b.access then AccessRank(a.access) < AccessRank(b.access)
      else locale(a.field, b.field)
  }

  function ExposureReport(portals: seq<Portal>, locale: (string, string) -> bool): seq<Exposed> {
    Sorting.SortBy(FlatMap(portals, Exposures()), ByPortal(locale))
  }

  /** Accepted and not paused: the one collection the accepted-or-all fallback does not apply to. */
  predicate Active(p: Portal) {
    p.accepted && !p.paused
  }

  function LiveIds(portals: seq<Portal>): set<string> {
    set p | p in portals && Active(p) :: p.id
  }

  /** Field keys, `entity:field`, to the key of the portal that publishes them. */
  datatype PublicFields = PublicFields(readable: map<string, string>, writable: map<string, string>)

  function FieldKey(entity: string, field: string): string {
    entity + ":" + field
  }

  function Publish(public: PublicFields, row: Exposed): PublicFields {
    if row.access.Read? then public.(readable := public.readable[FieldKey(row.entity, row.field) := row.portalKey])
    else public.(writable := public.writable[FieldKey(row.entity, row.field) := row.portalKey])
  }

  function PublicIn(rows: seq<Exposed>, live: set<string>): PublicFields {
    if rows == [] then PublicFields(map[], map[])
    else
      var before := PublicIn(rows[..|rows| - 1], live);
      var row := rows[|rows| - 1];
      if row.portalId in live then Publish(before, row) else before
  }

  function PublicOf(portals: seq<Portal>, locale: (string, string) -> bool): PublicFields {
    PublicIn(ExposureReport(portals, locale), LiveIds(portals))
  }

  method LivePublicFields(portals: seq<Portal>, locale: (string, string) -> bool) returns (public: PublicFields)
    ensures public == PublicOf(portals, locale)
  {
    var live := LiveIds(portals);
    var rows := ExposureReport(portals, locale);
    var readable, writable := map[], map[];
    for i := 0 to |rows|
      invariant PublicFields(readable, writable) == PublicIn(rows[..i], live)
    {
      assert rows[..i + 1][..i] == rows[..i];
      var row := rows[i];
      if row.portalId !in live {
        continue;
      }
      if row.access.Read? {
        readable := readable[FieldKey(row.entity, row.field) := row.portalKey];
      } else {
        writable := writable[FieldKey(row.entity, row.field) := row.portalKey];
      }
    }
    assert rows[..|rows|] == rows;
    public := PublicFields(readable, writable);
  }

  lemma {:induction false} PublicInIff(rows: seq<Exposed>, live: set<string>, key: string)
    ensures key in PublicIn(rows, live).readable <==>
              exists r :: r in rows && r.portalId in live && r.access.Read? && FieldKey(r.entity, r.field) == key
    ensures key in PublicIn(rows, live).writable <==>
              exists r :: r in rows && r.portalId in live && !r.access.Read? && FieldKey(r.entity, r.field) == key
  {
    if rows != [] {
      var n := |rows| - 1;
      PublicInIff(rows[..n], live, key);
      assert rows == rows[..n] + [rows[n]];
      assert forall r :: r in rows <==> r in rows[..n] || r == rows[n];
    }
  }

  ghost predicate Reads(p: Portal, key: string) {
    exists f :: f in p.readFields && FieldKey(p.entity, f) == key
  }

  ghost predicate Writes(p: Portal, key: string) {
    exists w, f :: w in p.writes && f in w.fields && FieldKey(p.entity, f) == key
  }

  lemma {:induction false} ExposuresIff(p: Portal, r: Exposed)
    ensures r in Exposures()(p) <==>
              && r.portalId == p.id && r.portalKey == p.key && r.entity == p.entity
              && ((r.access == Read && r.field in p.readFields) || exists w :: w in p.writes && w.action == r.access && r.field in w.fields)
  {
    FlatMapMember(p.writes, WriteRows(p), r);
    MapMember(p.readFields, ReadRow(p), r);
    forall w | w in p.writes
      ensures r in WriteRows(p)(w) <==>
                r.portalId == p.id && r.portalKey == p.key && r.entity == p.entity && w.action == r.access && r.field in w.fields
    {
      MapMember(w.fields, WriteRow(p, w.action), r);
      if r.field in w.fields && r == WriteRow(p, w.action)(r.field) {
        assert r in WriteRows(p)(w);
      }
    }
    if r.field in p.readFields && r == ReadRow(p)(r.field) {
      assert r in Map(p.readFields, ReadRow(p));
    }
  }

  lemma {:induction false} MapMember<A, B>(s: seq<A>, f: A -> B, y: B)
    ensures y in Map(s, f) <==> exists x :: x in s && f(x) == y
  {
    if x :| x in s && f(x) == y {
      var i :| 0 <= i < |s| && s[i] == x;
      assert Map(s, f)[i] == y;
    }
    if y in Map(s, f) {
      var i :| 0 <= i < |s| && Map(s, f)[i] == y;
      assert s[i] in s && f(s[i]) == y;
    }
  }

  lemma {:induction false} ReportMember(portals: seq<Portal>, locale: (string, string) -> bool, r: Exposed)
    ensures r in ExposureReport(portals, locale) <==> exists p :: p in portals && r in Exposures()(p)
  {
    FlatMapMember(portals, Exposures(), r);
    assert r in ExposureReport(portals, locale) <==> r in multiset(ExposureReport(portals, locale));
  }

  /** Some portal with this id is accepted and not paused. */
  ghost predicate LiveId(portals: seq<Portal>, id: string) {
    exists q :: q in portals && q.id == id && q.accepted && !q.paused
  }

  ghost predicate Published(portals: seq<Portal>, key: string, write: bool) {
    exists p :: p in portals && LiveId(portals, p.id) && if write then Writes(p, key) else Reads(p, key)
  }

  ghost predicate Row(rows: seq<Exposed>, live: set<string>, key: string, write: bool) {
    exists r :: r in rows && r.portalId in live && (r.access != Read <==> write) && FieldKey(r.entity, r.field) == key
  }

  lemma {:induction false} PublishedFrom(portals: seq<Portal>, locale: (string, string) -> bool, key: string, write: bool)
    requires Row(ExposureReport(portals, locale), LiveIds(portals), key, write)
    ensures Published(portals, key, write)
  {
    var r :| r in ExposureReport(portals, locale) && r.portalId in LiveIds(portals)
             && (r.access != Read <==> write) && FieldKey(r.entity, r.field) == key;
    ReportMember(portals, locale, r);
    var p :| p in portals && r in Exposures()(p);
    ExposuresIff(p, r);
    assert if write then Writes(p, key) else Reads(p, key);
  }

  lemma {:induction false} PublishedInto(portals: seq<Portal>, locale: (string, string) -> bool, key: string, write: bool)
    requires Published(portals, key, write)
    ensures Row(ExposureReport(portals, locale), LiveIds(portals), key, write)
  {
    var p :| p in portals && LiveId(portals, p.id) && if write then Writes(p, key) else Reads(p, key);
    var r;
    if write {
      var w, f :| w in p.writes && f in w.fields && FieldKey(p.entity, f) == key;
      r := Exposed(p.id, p.key, p.entity, f, w.action);
    } else {
      var f :| f in p.readFields && FieldKey(p.entity, f) == key;
      r := Exposed(p.id, p.key, p.entity, f, Read);
    }
    ExposuresIff(p, r);
    ReportMember(portals, locale, r);
  }

  /**
   * A field is publicly readable exactly when a portal reads it under an id some active portal carries,
   * and writable exactly when one writes it: a suggested or paused portal publishes nothing of its own.
   */
  lemma {:induction false} PublishedIff(portals: seq<Portal>, locale: (string, string) -> bool, key: string)
    ensures key in PublicOf(portals, locale).readable <==> Published(portals, key, false)
    ensures key in PublicOf(portals, locale).writable <==> Published(portals, key, true)
  {
    var live, rows := LiveIds(portals), ExposureReport(portals, locale);
    PublicInIff(rows, live, key);
    forall write: bool
      ensures Published(portals, key, write) <==> Row(rows, live, key, write)
    {
      if Published(portals, key, write) {
        PublishedInto(portals, locale, key, write);
      }
      if Row(rows, live, key, write) {
        PublishedFrom(portals, locale, key, write);
      }
    }
    assert Row(rows, live, key, false) <==> key in PublicIn(rows, live).readable;
    assert Row(rows, live, key, true) <==> key in PublicIn(rows, live).writable;
  }

  // ---------------------------------------------------------------------------
  // The inventory
  // ---------------------------------------------------------------------------

  function Decimal(n: nat): string {
    if n < 10 then ["0123456789"[n]] else Decimal(n / 10) + ["0123456789"[n % 10]]
  }

  function NameOf(): Field -> string { (f: Field) => f.name }

  function ByText(): (string, string) -> bool { (a: string, b: string) => Lex.Less(a, b) }

  function SortedNames(fields: seq<Field>): string {
    Join(Sorting.SortBy(Map(fields, NameOf()), ByText()), ", ")
  }

  function TypeText(field: Field): string {
    match field.kind
    case StringType => "string" case NumberType => "number" case BooleanType => "boolean" case DateType => "date"
    case EnumType => "enum" case JsonType => "json" case FileType => "file"
  }

  function TableSurface(entity: Entity): Surface {
    var n := |View(entity)|;
    Surface(Table, Prefix(Table) + ResourceName(entity.id), "the `" + ResourceName(entity.id) + "` table",
            Some(Decimal(n) + (if n == 1 then " column" else " columns")))
  }

  function RestSurface(entity: Entity): Surface {
    Surface(Rest, Prefix(Rest) + ResourceName(entity.id),
            "`/api/" + ResourceName(entity.id) + "` (list, create, update, delete)", Some(SortedNames(View(entity))))
  }

  function ToolSurface(entity: Entity): Surface {
    Surface(Tool, Prefix(Tool) + ResourceName(entity.id),
            "MCP: `" + ResourceName(entity.id) + "` reachable by `list_records` / `create_record` / \U{2026}", None)
  }

  function ColumnPath(entity: Entity, field: Field): string {
    ResourceName(entity.id) + "." + field.name
  }

  function ColumnSurface(entity: Entity, field: Field): Surface {
    Surface(Column, Prefix(Column) + ColumnPath(entity, field), "`" + ColumnPath(entity, field) + "`",
            Some(TypeText(field) + (if field.required then ", required" else "")))
  }

  function ReadableSurface(entity: Entity, field: Field, portal: string): Surface {
    Surface(PublicField, Prefix(PublicField) + ColumnPath(entity, field),
            "**`" + ColumnPath(entity, field) + "` is readable by the public internet**", Some("via the `" + portal + "` portal"))
  }

  function WritableSurface(entity: Entity, field: Field, portal: string): Surface {
    Surface(PublicWrite, Prefix(PublicWrite) + ColumnPath(entity, field),
            "**`" + ColumnPath(entity, field) + "` is writable by the public internet**", Some("via the `" + portal + "` portal"))
  }

  /** A field's column, and its exposure if it has any. */
  function FieldSurfaces(entity: Entity, public: PublicFields): Field -> seq<Surface> {
    (f: Field) =>
      var key := FieldKey(entity.id, f.id);
      [ColumnSurface(entity, f)]
      + (if key in public.readable then [ReadableSurface(entity, f, public.readable[key])] else [])
      + (if key in public.writable then [WritableSurface(entity, f, public.writable[key])] else [])
  }

  function EntitySurfaces(public: PublicFields): Entity -> seq<Surface> {
    (e: Entity) => [TableSurface(e), RestSurface(e), ToolSurface(e)] + FlatMap(View(e), FieldSurfaces(e, public))
  }

  function BlockAccepted(): Block -> bool { (b: Block) => b.accepted }

  function PageAccepted(): Page -> bool { (p: Page) => p.accepted }

  function Inputs(entities: seq<Entity>, page: Page): string {
    match FindEntity(entities, page.entity) case Some(e) => SortedNames(View(e)) case None => Join([], ", ")
  }

  function FormSurface(entities: seq<Entity>, page: Page): Block -> Option<Surface> {
    (b: Block) =>
      if b.isForm then
        Some(Surface(Form, Prefix(Form) + page.route + ":" + b.id, "the form on `" + page.route + "`", Some(Inputs(entities, page))))
      else None
  }

  function RouteSurface(page: Page): Surface {
    Surface(Route, Prefix(Route) + page.route, "the `" + page.route + "` route", Some(page.name))
  }

  function PageSurfaces(entities: seq<Entity>): Page -> seq<Surface> {
    (p: Page) => [RouteSurface(p)] + FilterMap(AcceptedOrAll(p.blocks, BlockAccepted()), FormSurface(entities, p))
  }

  function BuiltEntities(spec: System): seq<Entity> {
    AcceptedOrAll(spec.entities, EntityAccepted())
  }

  function BuiltPages(spec: System): seq<Page> {
    AcceptedOrAll(spec.pages, PageAccepted())
  }

  function Derive(spec: System, locale: (string, string) -> bool): seq<Surface> {
    FlatMap(BuiltEntities(spec), EntitySurfaces(PublicOf(spec.portals, locale)))
    + FlatMap(BuiltPages(spec), PageSurfaces(BuiltEntities(spec)))
  }

  /** deriveSurfaces, as the loops that push. */
  method DeriveSurfaces(spec: System, locale: (string, string) -> bool) returns (out: seq<Surface>)
    ensures out == Derive(spec, locale)
  {
    var entities := BuiltEntities(spec);
    var public := LivePublicFields(spec.portals, locale);
    var data := DeriveEntities(entities, public);
    var routes := DerivePages(BuiltPages(spec), entities);
    out := data + routes;
  }

  method DeriveEntities(entities: seq<Entity>, public: PublicFields) returns (out: seq<Surface>)
    ensures out == FlatMap(entities, EntitySurfaces(public))
  {
    out := [];
    for i := 0 to |entities|
      invariant out == FlatMap(entities[..i], EntitySurfaces(public))
    {
      FlatMapStep(entities, i, EntitySurfaces(public));
      var fields := DeriveFields(entities[i], public);
      out := out + ([TableSurface(entities[i]), RestSurface(entities[i]), ToolSurface(entities[i])] + fields);
    }
    assert entities[..|entities|] == entities;
  }

  method DeriveFields(entity: Entity, public: PublicFields) returns (out: seq<Surface>)
    ensures out == FlatMap(View(entity), FieldSurfaces(entity, public))
  {
    var fields := View(entity);
    out := [];
    for i := 0 to |fields|
      invariant out == FlatMap(fields[..i], FieldSurfaces(entity, public))
    {
      FlatMapStep(fields, i, FieldSurfaces(entity, public));
      var pushed := DeriveField(entity, fields[i], public);
      out := out + pushed;
    }
    assert fields[..|fields|] == fields;
  }

  method DeriveField(entity: Entity, field: Field, public: PublicFields) returns (out: seq<Surface>)
    ensures out == FieldSurfaces(entity, public)(field)
  {
    var key := FieldKey(entity.id, field.id);
    out := [ColumnSurface(entity, field)];
    if key in public.readable {
      out := out + [ReadableSurface(entity, field, public.readable[key])];
    }
    if key in public.writable {
      out := out + [WritableSurface(entity, field, public.writable[key])];
    }
  }

  method DerivePages(pages: seq<Page>, entities: seq<Entity>) returns (out: seq<Surface>)
    ensures out == FlatMap(pages, PageSurfaces(entities))
  {
    out := [];
    for i := 0 to |pages|
      invariant out == FlatMap(pages[..i], PageSurfaces(entities))
    {
      FlatMapStep(pages, i, PageSurfaces(entities));
      var pushed := DerivePage(pages[i], entities);
      out := out + pushed;
    }
    assert pages[..|pages|] == pages;
  }

  method DerivePage(page: Page, entities: seq<Entity>) returns (out: seq<Surface>)
    ensures out == PageSurfaces(entities)(page)
  {
    var blocks := AcceptedOrAll(page.blocks, BlockAccepted());
    out := [RouteSurface(page)];
    for i := 0 to |blocks|
      invariant out == [RouteSurface(page)] + FilterMap(blocks[..i], FormSurface(entities, page))
    {
      FilterMapStep(blocks, i, FormSurface(entities, page));
      if !blocks[i].isForm {
        continue;
      }
      out := out + [FormSurface(entities, page)(blocks[i]).value];
    }
    assert blocks[..|blocks|] == blocks;
  }

  // --- every derived surface is named after its kind ---

  lemma {:induction false} FieldsKinded(entity: Entity, public: PublicFields, fields: seq<Field>)
    ensures AllKinded(FlatMap(fields, FieldSurfaces(entity, public)))
  {
    if fields != [] {
      FieldsKinded(entity, public, fields[1..]);
      assert AllKinded(FieldSurfaces(entity, public)(fields[0]));
    }
  }

  lemma {:induction false} EntitiesKinded(public: PublicFields, entities: seq<Entity>)
    ensures AllKinded(FlatMap(entities, EntitySurfaces(public)))
  {
    if entities != [] {
      EntitiesKinded(public, entities[1..]);
      EntityKinded(public, entities[0]);
    }
  }

  lemma {:induction false} EntityKinded(public: PublicFields, entity: Entity)
    ensures AllKinded(EntitySurfaces(public)(entity))
  {
    FieldsKinded(entity, public, View(entity));
    assert AllKinded([TableSurface(entity), RestSurface(entity), ToolSurface(entity)]);
  }

  lemma {:induction false} FormsKinded(entities: seq<Entity>, page: Page, blocks: seq<Block>)
    ensures AllKinded(FilterMap(blocks, FormSurface(entities, page)))
  {
    if blocks != [] {
      FormsKinded(entities, page, blocks[1..]);
      assert Prefix(Form) <= Prefix(Form) + page.route + ":" + blocks[0].id;
    }
  }

  lemma {:induction false} PagesKinded(entities: seq<Entity>, pages: seq<Page>)
    ensures AllKinded(FlatMap(pages, PageSurfaces(entities)))
  {
    if pages != [] {
      PagesKinded(entities, pages[1..]);
      FormsKinded(entities, pages[0], AcceptedOrAll(pages[0].blocks, BlockAccepted()));
      assert AllKinded(PageSurfaces(entities)(pages[0]));
    }
  }

  lemma {:induction false} DerivedKinded(spec: System, locale: (string, string) -> bool)
    ensures AllKinded(Derive(spec, locale))
  {
    EntitiesKinded(PublicOf(spec.portals, locale), BuiltEntities(spec));
    PagesKinded(BuiltEntities(spec), BuiltPages(spec));
  }
}
