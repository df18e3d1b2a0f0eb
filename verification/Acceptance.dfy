/**
 * The accepted-or-all rule seen from the inventory: accepting every row of an undecided collection
 * changes nothing, accepting some of its rows stops the others being built.
 * Models the rule stated in packages/mcp/src/blast-radius.ts, over the inventory deriveSurfaces builds.
 */
module Acceptance {
  import opened Collections
  import opened Spec
  import opened Strings
  import opened Surfaces
  import opened BlastRadius

  // ---------------------------------------------------------------------------
  // Rows that differ in nothing but their acceptance
  // ---------------------------------------------------------------------------

  ghost predicate LikeFields(a: seq<Field>, b: seq<Field>) {
    |a| == |b| && forall i :: 0 <= i < |a| ==> b[i] == a[i].(accepted := b[i].accepted)
  }

  ghost predicate LikeBlocks(a: seq<Block>, b: seq<Block>) {
    |a| == |b| && forall i :: 0 <= i < |a| ==> b[i] == a[i].(accepted := b[i].accepted)
  }

  /** Entities that build alike. */
  ghost predicate LikeEntities(a: seq<Entity>, b: seq<Entity>) {
    |a| == |b| && forall i :: 0 <= i < |a| ==> a[i].id == b[i].id && LikeFields(View(a[i]), View(b[i]))
  }

  ghost predicate LikePages(a: seq<Page>, b: seq<Page>) {
    |a| == |b| && forall i :: 0 <= i < |a| ==>
                               && b[i] == a[i].(blocks := b[i].blocks, accepted := b[i].accepted)
                               && LikeBlocks(AcceptedOrAll(a[i].blocks, BlockAccepted()), AcceptedOrAll(b[i].blocks, BlockAccepted()))
  }

  lemma {:induction false} SameField(e: Entity, e': Entity, f: Field, g: Field, public: PublicFields)
    requires e.id == e'.id && g == f.(accepted := g.accepted)
    ensures FieldSurfaces(e, public)(f) == FieldSurfaces(e', public)(g)
  {
    assert ColumnPath(e, f) == ColumnPath(e', g) && FieldKey(e.id, f.id) == FieldKey(e'.id, g.id);
    assert ColumnSurface(e, f) == ColumnSurface(e', g);
  }

  lemma {:induction false} SameFields(e: Entity, e': Entity, a: seq<Field>, b: seq<Field>, public: PublicFields)
    requires e.id == e'.id && LikeFields(a, b)
    ensures FlatMap(a, FieldSurfaces(e, public)) == FlatMap(b, FieldSurfaces(e', public))
  {
    if a != [] {
      SameField(e, e', a[0], b[0], public);
      assert LikeFields(a[1..], b[1..]);
      SameFields(e, e', a[1..], b[1..], public);
    }
  }

  lemma {:induction false} SameNames(a: seq<Field>, b: seq<Field>)
    requires LikeFields(a, b)
    ensures Map(a, NameOf()) == Map(b, NameOf())
  {
    forall i | 0 <= i < |a|
      ensures Map(a, NameOf())[i] == Map(b, NameOf())[i]
    {
      assert b[i] == a[i].(accepted := b[i].accepted);
    }
  }

  lemma {:induction false} SameEntities(a: seq<Entity>, b: seq<Entity>, public: PublicFields)
    requires LikeEntities(a, b)
    ensures FlatMap(a, EntitySurfaces(public)) == FlatMap(b, EntitySurfaces(public))
  {
    if a != [] {
      assert a[0].id == b[0].id && LikeFields(View(a[0]), View(b[0]));
      SameFields(a[0], b[0], View(a[0]), View(b[0]), public);
      SameNames(View(a[0]), View(b[0]));
      assert LikeEntities(a[1..], b[1..]);
      SameEntities(a[1..], b[1..], public);
    }
  }

  lemma {:induction false} SameInputs(a: seq<Entity>, b: seq<Entity>, p: Page, q: Page)
    requires LikeEntities(a, b) && p.entity == q.entity
    ensures Inputs(a, p) == Inputs(b, q)
  {
    if a != [] {
      assert a[0].id == b[0].id && LikeFields(View(a[0]), View(b[0]));
      if a[0].id == p.entity {
        SameNames(View(a[0]), View(b[0]));
      } else {
        assert LikeEntities(a[1..], b[1..]);
        SameInputs(a[1..], b[1..], p, q);
      }
    }
  }

  lemma {:induction false} SameForms(a: seq<Entity>, b: seq<Entity>, p: Page, q: Page, s: seq<Block>, t: seq<Block>)
    requires LikeEntities(a, b) && p.entity == q.entity && p.route == q.route && LikeBlocks(s, t)
    ensures FilterMap(s, FormSurface(a, p)) == FilterMap(t, FormSurface(b, q))
  {
    if s != [] {
      SameInputs(a, b, p, q);
      assert t[0] == s[0].(accepted := t[0].accepted);
      SameForms(a, b, p, q, s[1..], t[1..]);
    }
  }

  lemma {:induction false} SamePages(a: seq<Entity>, b: seq<Entity>, s: seq<Page>, t: seq<Page>)
    requires LikeEntities(a, b) && LikePages(s, t)
    ensures FlatMap(s, PageSurfaces(a)) == FlatMap(t, PageSurfaces(b))
  {
    if s != [] {
      var p, q := s[0], t[0];
      assert LikeBlocks(AcceptedOrAll(p.blocks, BlockAccepted()), AcceptedOrAll(q.blocks, BlockAccepted()));
      SameForms(a, b, p, q, AcceptedOrAll(p.blocks, BlockAccepted()), AcceptedOrAll(q.blocks, BlockAccepted()));
      assert PageSurfaces(a)(p) == PageSurfaces(b)(q);
      assert LikePages(s[1..], t[1..]);
      SamePages(a, b, s[1..], t[1..]);
    }
  }

  // ---------------------------------------------------------------------------
  // Accepting all of an undecided collection
  // ---------------------------------------------------------------------------

  /** A collection in fallback with every row accepted; any other as it is. */
  function Settle<T>(items: seq<T>, isAccepted: T -> bool, accept: T -> T): seq<T> {
    if Filter(items, isAccepted) == [] then Map(items, accept) else items
  }

  function AcceptField(): Field -> Field { (f: Field) => f.(accepted := true) }

  function AcceptBlock(): Block -> Block { (b: Block) => b.(accepted := true) }

  function SettleFields(): Entity -> Entity {
    (e: Entity) => e.(fields := Settle(e.fields, FieldAccepted(), AcceptField()))
  }

  function SettleBlocks(): Page -> Page {
    (p: Page) => p.(blocks := Settle(p.blocks, BlockAccepted(), AcceptBlock()))
  }

  function AcceptEntity(): Entity -> Entity { (e: Entity) => e.(accepted := true) }

  function AcceptPage(): Page -> Page { (p: Page) => p.(accepted := true) }

  /** Every row of every undecided data or page collection accepted. */
  function Settled(spec: System): System {
    spec.(entities := Settle(Map(spec.entities, SettleFields()), EntityAccepted(), AcceptEntity()),
          pages := Settle(Map(spec.pages, SettleBlocks()), PageAccepted(), AcceptPage()))
  }

  /** A row kept, but for its acceptance: raised when nothing in its collection is accepted, and as it was otherwise. */
  ghost predicate FieldsSettled(a: seq<Field>, b: seq<Field>) {
    |a| == |b| && forall i :: 0 <= i < |a| ==> b[i] == a[i].(accepted := a[i].accepted || forall g :: g in a ==> !g.accepted)
  }

  ghost predicate BlocksSettled(a: seq<Block>, b: seq<Block>) {
    |a| == |b| && forall i :: 0 <= i < |a| ==> b[i] == a[i].(accepted := a[i].accepted || forall g :: g in a ==> !g.accepted)
  }

  lemma {:induction false} NoneIff<T>(items: seq<T>, p: T -> bool)
    ensures Filter(items, p) == [] <==> forall x :: x in items ==> !p(x)
  {
    if items != [] {
      NoneIff(items[1..], p);
      assert items == [items[0]] + items[1..] && items[0] in items;
    }
  }

  /** Settling, row by row: each undecided collection is accepted whole, every other is left as it was, and nothing else changes. */
  lemma {:induction false} SettledIs(spec: System)
    ensures var after := Settled(spec);
            && |after.entities| == |spec.entities| && |after.pages| == |spec.pages| && after.portals == spec.portals
            && (forall i :: 0 <= i < |spec.entities| ==>
                  var e, d := spec.entities[i], after.entities[i];
                  && FieldsSettled(e.fields, d.fields)
                  && d == e.(fields := d.fields, accepted := e.accepted || forall x :: x in spec.entities ==> !x.accepted))
            && (forall i :: 0 <= i < |spec.pages| ==>
                  var p, q := spec.pages[i], after.pages[i];
                  && BlocksSettled(p.blocks, q.blocks)
                  && q == p.(blocks := q.blocks, accepted := p.accepted || forall x :: x in spec.pages ==> !x.accepted))
  {
    SettledEntities(spec);
    SettledPages(spec);
  }

  /** Settling a collection, row by row. */
  lemma {:induction false} SettleRows<T>(items: seq<T>, isAccepted: T -> bool, accept: T -> T)
    ensures |Settle(items, isAccepted, accept)| == |items|
    ensures var none := forall x :: x in items ==> !isAccepted(x);
            forall i :: 0 <= i < |items| ==> Settle(items, isAccepted, accept)[i] == if none then accept(items[i]) else items[i]
  {
    NoneIff(items, isAccepted);
  }

  lemma {:induction false} FieldsAreSettled(e: Entity)
    ensures FieldsSettled(e.fields, SettleFields()(e).fields) && SettleFields()(e) == e.(fields := SettleFields()(e).fields)
  {
    SettleRows(e.fields, FieldAccepted(), AcceptField());
    assert forall i :: 0 <= i < |e.fields| ==> e.fields[i] in e.fields;
  }

  lemma {:induction false} BlocksAreSettled(p: Page)
    ensures BlocksSettled(p.blocks, SettleBlocks()(p).blocks) && SettleBlocks()(p) == p.(blocks := SettleBlocks()(p).blocks)
  {
    SettleRows(p.blocks, BlockAccepted(), AcceptBlock());
    assert forall i :: 0 <= i < |p.blocks| ==> p.blocks[i] in p.blocks;
  }

  lemma {:induction false} NoneStays<T>(items: seq<T>, isAccepted: T -> bool, g: T -> T)
    requires forall x :: isAccepted(g(x)) == isAccepted(x)
    ensures (forall x :: x in Map(items, g) ==> !isAccepted(x)) <==> forall x :: x in items ==> !isAccepted(x)
  {
    forall x | x in items
      ensures g(x) in Map(items, g)
    {
      var i :| 0 <= i < |items| && items[i] == x;
      assert Map(items, g)[i] == g(x);
    }
    forall y | y in Map(items, g)
      ensures exists x :: x in items && g(x) == y
    {
      var i :| 0 <= i < |items| && Map(items, g)[i] == y;
      assert items[i] in items;
    }
  }

  lemma {:induction false} SettledEntities(spec: System)
    ensures var after := Settled(spec).entities;
            && |after| == |spec.entities|
            && forall i :: 0 <= i < |spec.entities| ==>
                 && FieldsSettled(spec.entities[i].fields, after[i].fields)
                 && after[i] == spec.entities[i].(fields := after[i].fields,
                                                  accepted := spec.entities[i].accepted || forall x :: x in spec.entities ==> !x.accepted)
  {
    var inner := Map(spec.entities, SettleFields());
    SettleRows(inner, EntityAccepted(), AcceptEntity());
    NoneStays(spec.entities, EntityAccepted(), SettleFields());
    forall i | 0 <= i < |spec.entities|
      ensures FieldsSettled(spec.entities[i].fields, inner[i].fields) && inner[i] == spec.entities[i].(fields := inner[i].fields)
      ensures spec.entities[i] in spec.entities
    {
      FieldsAreSettled(spec.entities[i]);
    }
  }

  lemma {:induction false} SettledPages(spec: System)
    ensures var after := Settled(spec).pages;
            && |after| == |spec.pages|
            && forall i :: 0 <= i < |spec.pages| ==>
                 && BlocksSettled(spec.pages[i].blocks, after[i].blocks)
                 && after[i] == spec.pages[i].(blocks := after[i].blocks,
                                               accepted := spec.pages[i].accepted || forall x :: x in spec.pages ==> !x.accepted)
  {
    var inner := Map(spec.pages, SettleBlocks());
    SettleRows(inner, PageAccepted(), AcceptPage());
    NoneStays(spec.pages, PageAccepted(), SettleBlocks());
    forall i | 0 <= i < |spec.pages|
      ensures BlocksSettled(spec.pages[i].blocks, inner[i].blocks) && inner[i] == spec.pages[i].(blocks := inner[i].blocks)
      ensures spec.pages[i] in spec.pages
    {
      BlocksAreSettled(spec.pages[i]);
    }
  }

  lemma {:induction false} FilterAll<T>(items: seq<T>, p: T -> bool)
    requires forall i :: 0 <= i < |items| ==> p(items[i])
    ensures Filter(items, p) == items
  {
    if items != [] {
      FilterAll(items[1..], p);
    }
  }

  /** Settling a collection shows the same rows, accepted where nothing was. */
  lemma {:induction false} SettleShows<T>(items: seq<T>, isAccepted: T -> bool, accept: T -> T)
    requires forall x :: x in items ==> isAccepted(accept(x))
    ensures AcceptedOrAll(Settle(items, isAccepted, accept), isAccepted)
            == if Filter(items, isAccepted) == [] then Map(items, accept) else AcceptedOrAll(items, isAccepted)
  {
    if Filter(items, isAccepted) == [] {
      FilterAll(Map(items, accept), isAccepted);
    }
  }

  lemma {:induction false} SettledFieldsAlike(e: Entity)
    ensures LikeFields(View(e), View(SettleFields()(e)))
  {
    SettleShows(e.fields, FieldAccepted(), AcceptField());
  }

  lemma {:induction false} SettledBlocksAlike(p: Page)
    ensures LikeBlocks(AcceptedOrAll(p.blocks, BlockAccepted()), AcceptedOrAll(SettleBlocks()(p).blocks, BlockAccepted()))
  {
    SettleShows(p.blocks, BlockAccepted(), AcceptBlock());
  }

  /** A change of row that keeps its acceptance commutes with the rule. */
  lemma {:induction false} FilterMapped<T>(items: seq<T>, isAccepted: T -> bool, g: T -> T)
    requires forall x :: x in items ==> isAccepted(g(x)) == isAccepted(x)
    ensures Filter(Map(items, g), isAccepted) == Map(Filter(items, isAccepted), g)
    ensures AcceptedOrAll(Map(items, g), isAccepted) == Map(AcceptedOrAll(items, isAccepted), g)
  {
    if items != [] {
      FilterMapped(items[1..], isAccepted, g);
      assert Map(items, g)[1..] == Map(items[1..], g);
      assert items[0] in items;
      if isAccepted(items[0]) {
        assert Filter(items, isAccepted)[1..] == Filter(items[1..], isAccepted);
      }
    }
  }

  lemma {:induction false} SettledEntitiesAlike(spec: System)
    ensures LikeEntities(BuiltEntities(spec), BuiltEntities(Settled(spec)))
  {
    var inner := Map(spec.entities, SettleFields());
    FilterMapped(spec.entities, EntityAccepted(), SettleFields());
    SettleShows(inner, EntityAccepted(), AcceptEntity());
    var a, b := BuiltEntities(spec), BuiltEntities(Settled(spec));
    forall i | 0 <= i < |a|
      ensures a[i].id == b[i].id && LikeFields(View(a[i]), View(b[i]))
    {
      SettledFieldsAlike(a[i]);
      assert b[i] == SettleFields()(a[i]).(accepted := b[i].accepted);
    }
  }

  lemma {:induction false} SettledPagesAlike(spec: System)
    ensures LikePages(BuiltPages(spec), BuiltPages(Settled(spec)))
  {
    var inner := Map(spec.pages, SettleBlocks());
    FilterMapped(spec.pages, PageAccepted(), SettleBlocks());
    SettleShows(inner, PageAccepted(), AcceptPage());
    var a, b := BuiltPages(spec), BuiltPages(Settled(spec));
    forall i | 0 <= i < |a|
      ensures b[i] == a[i].(blocks := b[i].blocks, accepted := b[i].accepted)
      ensures LikeBlocks(AcceptedOrAll(a[i].blocks, BlockAccepted()), AcceptedOrAll(b[i].blocks, BlockAccepted()))
    {
      SettledBlocksAlike(a[i]);
      assert b[i] == SettleBlocks()(a[i]).(accepted := b[i].accepted);
    }
  }

  /** Whatever is decided elsewhere, accepting every row of the undecided collections changes no surface. */
  lemma {:induction false} SettlingIsInvisible(spec: System, locale: (string, string) -> bool)
    ensures Derive(Settled(spec), locale) == Derive(spec, locale)
  {
    SettledEntitiesAlike(spec);
    SettledPagesAlike(spec);
    SameEntities(BuiltEntities(spec), BuiltEntities(Settled(spec)), PublicOf(spec.portals, locale));
    SamePages(BuiltEntities(spec), BuiltEntities(Settled(spec)), BuiltPages(spec), BuiltPages(Settled(spec)));
  }

  /** No row of any data or page collection is accepted. */
  ghost predicate Undecided(spec: System) {
    && (forall e :: e in spec.entities ==> !e.accepted && forall f :: f in e.fields ==> !f.accepted)
    && (forall p :: p in spec.pages ==> !p.accepted && forall b :: b in p.blocks ==> !b.accepted)
  }

  function AcceptAllOf(): Entity -> Entity {
    (e: Entity) => e.(fields := Map(e.fields, AcceptField()), accepted := true)
  }

  function AcceptAllOn(): Page -> Page {
    (p: Page) => p.(blocks := Map(p.blocks, AcceptBlock()), accepted := true)
  }

  function AcceptAll(spec: System): System {
    spec.(entities := Map(spec.entities, AcceptAllOf()), pages := Map(spec.pages, AcceptAllOn()))
  }

  lemma {:induction false} FilterNone<T>(items: seq<T>, p: T -> bool)
    requires forall i :: 0 <= i < |items| ==> !p(items[i])
    ensures Filter(items, p) == []
  {
    if items != [] {
      FilterNone(items[1..], p);
    }
  }

  /** Accepting all raises the acceptance of every entity, field, page and block, and changes nothing else. */
  lemma {:induction false} AcceptAllIs(spec: System)
    ensures var after := AcceptAll(spec);
            && |after.entities| == |spec.entities| && |after.pages| == |spec.pages| && after.portals == spec.portals
            && (forall i :: 0 <= i < |spec.entities| ==>
                  var e, d := spec.entities[i], after.entities[i];
                  && d == e.(fields := d.fields, accepted := true) && |d.fields| == |e.fields|
                  && forall j :: 0 <= j < |e.fields| ==> d.fields[j] == e.fields[j].(accepted := true))
            && (forall i :: 0 <= i < |spec.pages| ==>
                  var p, q := spec.pages[i], after.pages[i];
                  && q == p.(blocks := q.blocks, accepted := true) && |q.blocks| == |p.blocks|
                  && forall j :: 0 <= j < |p.blocks| ==> q.blocks[j] == p.blocks[j].(accepted := true))
  {}

  lemma {:induction false} UndecidedSettles(spec: System)
    requires Undecided(spec)
    ensures Settled(spec) == AcceptAll(spec)
  {
    forall i | 0 <= i < |spec.entities|
      ensures SettleFields()(spec.entities[i]) == spec.entities[i].(fields := Map(spec.entities[i].fields, AcceptField()))
      ensures !spec.entities[i].accepted
    {
      assert spec.entities[i] in spec.entities;
      FilterNone(spec.entities[i].fields, FieldAccepted());
    }
    FilterNone(Map(spec.entities, SettleFields()), EntityAccepted());
    assert Settled(spec).entities == AcceptAll(spec).entities;
    forall i | 0 <= i < |spec.pages|
      ensures SettleBlocks()(spec.pages[i]) == spec.pages[i].(blocks := Map(spec.pages[i].blocks, AcceptBlock()))
      ensures !spec.pages[i].accepted
    {
      assert spec.pages[i] in spec.pages;
      FilterNone(spec.pages[i].blocks, BlockAccepted());
    }
    FilterNone(Map(spec.pages, SettleBlocks()), PageAccepted());
    assert Settled(spec).pages == AcceptAll(spec).pages;
  }

  /** On a spec nobody has decided anything in, accepting every row changes no surface. */
  lemma {:induction false} AcceptAllIsInvisible(spec: System, locale: (string, string) -> bool)
    requires Undecided(spec)
    ensures Derive(AcceptAll(spec), locale) == Derive(spec, locale)
  {
    UndecidedSettles(spec);
    SettlingIsInvisible(spec, locale);
  }

  // ---------------------------------------------------------------------------
  // Accepting some of an undecided entity's fields
  // ---------------------------------------------------------------------------

  ghost predicate HasId(surfaces: seq<Surface>, id: string) {
    exists s :: s in surfaces && s.id == id
  }

  /** The ids of one field's surfaces: its column, and its exposure if it has any. */
  ghost predicate FieldHas(e: Entity, f: Field, public: PublicFields, id: string) {
    || id == Prefix(Column) + ColumnPath(e, f)
    || (FieldKey(e.id, f.id) in public.readable && id == Prefix(PublicField) + ColumnPath(e, f))
    || (FieldKey(e.id, f.id) in public.writable && id == Prefix(PublicWrite) + ColumnPath(e, f))
  }

  ghost predicate EntityHas(e: Entity, public: PublicFields, id: string) {
    || id == Prefix(Table) + ResourceName(e.id)
    || id == Prefix(Rest) + ResourceName(e.id)
    || id == Prefix(Tool) + ResourceName(e.id)
    || exists f :: f in View(e) && FieldHas(e, f, public, id)
  }

  ghost predicate PageHas(p: Page, id: string) {
    || id == Prefix(Route) + p.route
    || exists b :: b in AcceptedOrAll(p.blocks, BlockAccepted()) && b.isForm && id == Prefix(Form) + p.route + ":" + b.id
  }

  lemma {:induction false} FieldIds(e: Entity, f: Field, public: PublicFields, id: string)
    ensures HasId(FieldSurfaces(e, public)(f), id) <==> FieldHas(e, f, public, id)
  {
    var surfaces := FieldSurfaces(e, public)(f);
    if FieldHas(e, f, public, id) {
      if id == Prefix(Column) + ColumnPath(e, f) {
        assert surfaces[0].id == id && surfaces[0] in surfaces;
      } else {
        var i :| 0 < i < |surfaces| && surfaces[i].id == id;
        assert surfaces[i] in surfaces;
      }
    }
    if s :| s in surfaces && s.id == id {
      var i :| 0 <= i < |surfaces| && surfaces[i] == s;
    }
  }

  lemma {:induction false} FieldsIds(e: Entity, fields: seq<Field>, public: PublicFields, id: string)
    ensures HasId(FlatMap(fields, FieldSurfaces(e, public)), id) <==> exists f :: f in fields && FieldHas(e, f, public, id)
  {
    if fields != [] {
      FieldsIds(e, fields[1..], public, id);
      FieldIds(e, fields[0], public, id);
      assert forall f :: f in fields <==> f == fields[0] || f in fields[1..];
    }
  }

  lemma {:induction false} EntityIds(e: Entity, public: PublicFields, id: string)
    ensures HasId(EntitySurfaces(public)(e), id) <==> EntityHas(e, public, id)
  {
    FieldsIds(e, View(e), public, id);
  }

  lemma {:induction false} EntitiesIds(entities: seq<Entity>, public: PublicFields, id: string)
    ensures HasId(FlatMap(entities, EntitySurfaces(public)), id) <==> exists e :: e in entities && EntityHas(e, public, id)
  {
    if entities != [] {
      EntitiesIds(entities[1..], public, id);
      EntityIds(entities[0], public, id);
      assert forall e :: e in entities <==> e == entities[0] || e in entities[1..];
    }
  }

  lemma {:induction false} FormIds(entities: seq<Entity>, p: Page, blocks: seq<Block>, id: string)
    ensures HasId(FilterMap(blocks, FormSurface(entities, p)), id) <==>
              exists b :: b in blocks && b.isForm && id == Prefix(Form) + p.route + ":" + b.id
  {
    if blocks != [] {
      FormIds(entities, p, blocks[1..], id);
      var head := match FormSurface(entities, p)(blocks[0]) case None => [] case Some(s) => [s];
      assert FilterMap(blocks, FormSurface(entities, p)) == head + FilterMap(blocks[1..], FormSurface(entities, p));
      assert blocks[0].isForm ==> head[0] in head;
      assert HasId(head, id) <==> blocks[0].isForm && id == Prefix(Form) + p.route + ":" + blocks[0].id;
      assert forall b :: b in blocks <==> b == blocks[0] || b in blocks[1..];
    }
  }

  lemma {:induction false} PageIds(entities: seq<Entity>, p: Page, id: string)
    ensures HasId(PageSurfaces(entities)(p), id) <==> PageHas(p, id)
  {
    var blocks := AcceptedOrAll(p.blocks, BlockAccepted());
    FormIds(entities, p, blocks, id);
    assert RouteSurface(p) in [RouteSurface(p)];
    assert HasId([RouteSurface(p)], id) <==> RouteSurface(p).id == id;
  }

  lemma {:induction false} PagesIds(entities: seq<Entity>, pages: seq<Page>, id: string)
    ensures HasId(FlatMap(pages, PageSurfaces(entities)), id) <==> exists p :: p in pages && PageHas(p, id)
  {
    if pages != [] {
      PagesIds(entities, pages[1..], id);
      PageIds(entities, pages[0], id);
      assert forall q :: q in pages <==> q == pages[0] || q in pages[1..];
    }
  }

  /** What is under an id: an entity's surface or a page's. */
  lemma {:induction false} DerivedIds(spec: System, locale: (string, string) -> bool, id: string)
    ensures HasId(Derive(spec, locale), id) <==>
              || (exists e :: e in BuiltEntities(spec) && EntityHas(e, PublicOf(spec.portals, locale), id))
              || (exists p :: p in BuiltPages(spec) && PageHas(p, id))
  {
    var public := PublicOf(spec.portals, locale);
    EntitiesIds(BuiltEntities(spec), public, id);
    PagesIds(BuiltEntities(spec), BuiltPages(spec), id);
  }

  function AcceptIf(chosen: Field -> bool): Field -> Field {
    (f: Field) => if chosen(f) then f.(accepted := true) else f
  }

  function AcceptIn(target: string, chosen: Field -> bool): Entity -> Entity {
    (e: Entity) => if e.id == target then e.(fields := Map(e.fields, AcceptIf(chosen))) else e
  }

  /** The chosen fields of one entity accepted. */
  function AcceptSome(spec: System, target: string, chosen: Field -> bool): System {
    spec.(entities := Map(spec.entities, AcceptIn(target, chosen)))
  }

  /** Choosing raises the acceptance of the chosen fields of the target, and changes nothing else. */
  lemma {:induction false} AcceptSomeIs(spec: System, target: string, chosen: Field -> bool)
    ensures var after := AcceptSome(spec, target, chosen);
            && |after.entities| == |spec.entities| && after.pages == spec.pages && after.portals == spec.portals
            && forall i :: 0 <= i < |spec.entities| ==>
                 var e, d := spec.entities[i], after.entities[i];
                 && d == e.(fields := d.fields) && |d.fields| == |e.fields|
                 && forall j :: 0 <= j < |e.fields| ==>
                      d.fields[j] == e.fields[j].(accepted := e.fields[j].accepted || (e.id == target && chosen(e.fields[j])))
  {}

  /** Nothing of the entity's is accepted yet, and something is chosen. */
  ghost predicate Choosable(spec: System, target: string, chosen: Field -> bool) {
    forall e :: e in spec.entities && e.id == target ==>
                  (forall f :: f in e.fields ==> !f.accepted) && exists f :: f in e.fields && chosen(f)
  }

  lemma {:induction false} FilterAccepted(fields: seq<Field>, chosen: Field -> bool)
    requires forall f :: f in fields ==> !f.accepted
    ensures Filter(Map(fields, AcceptIf(chosen)), FieldAccepted()) == Map(Filter(fields, chosen), AcceptField())
  {
    if fields != [] {
      assert fields[0] in fields;
      FilterAccepted(fields[1..], chosen);
      assert Map(fields, AcceptIf(chosen))[1..] == Map(fields[1..], AcceptIf(chosen));
      if chosen(fields[0]) {
        assert Filter(fields, chosen)[1..] == Filter(fields[1..], chosen);
      }
    }
  }

  /** Only the chosen fields are still built. */
  lemma {:induction false} ChosenView(e: Entity, target: string, chosen: Field -> bool)
    requires e.id == target && (forall f :: f in e.fields ==> !f.accepted) && exists f :: f in e.fields && chosen(f)
    ensures View(e) == e.fields
    ensures View(AcceptIn(target, chosen)(e)) == Map(Filter(e.fields, chosen), AcceptField())
  {
    FilterNone(e.fields, FieldAccepted());
    FilterAccepted(e.fields, chosen);
    var f :| f in e.fields && chosen(f);
    FilterMember(e.fields, chosen, f);
  }

  ghost predicate DroppedBy(e: Entity, chosen: Field -> bool, public: PublicFields, id: string) {
    exists f :: f in e.fields && !chosen(f) && FieldHas(e, f, public, id)
  }

  /** The surfaces of the target's fields that were not chosen. */
  ghost predicate Dropped(spec: System, target: string, chosen: Field -> bool, public: PublicFields, id: string) {
    exists e :: e in BuiltEntities(spec) && e.id == target && DroppedBy(e, chosen, public, id)
  }

  lemma {:induction false} ChosenIds(e: Entity, target: string, chosen: Field -> bool, public: PublicFields, id: string)
    requires e.id == target && (forall f :: f in e.fields ==> !f.accepted) && exists f :: f in e.fields && chosen(f)
    ensures EntityHas(e, public, id) <==> EntityHas(AcceptIn(target, chosen)(e), public, id) || DroppedBy(e, chosen, public, id)
  {
    var e' := AcceptIn(target, chosen)(e);
    ChosenView(e, target, chosen);
    if f :| f in View(e) && FieldHas(e, f, public, id) {
      if chosen(f) {
        FilterMember(e.fields, chosen, f);
        MapMember(Filter(e.fields, chosen), AcceptField(), AcceptField()(f));
        assert FieldHas(e', AcceptField()(f), public, id);
      } else {
        assert DroppedBy(e, chosen, public, id);
      }
    }
    if g :| g in View(e') && FieldHas(e', g, public, id) {
      MapMember(Filter(e.fields, chosen), AcceptField(), g);
      var f :| f in Filter(e.fields, chosen) && AcceptField()(f) == g;
      FilterMember(e.fields, chosen, f);
      assert f in View(e) && FieldHas(e, f, public, id);
    }
  }

  lemma {:induction false} BuiltAfter(spec: System, target: string, chosen: Field -> bool)
    ensures BuiltEntities(AcceptSome(spec, target, chosen)) == Map(BuiltEntities(spec), AcceptIn(target, chosen))
    ensures BuiltPages(AcceptSome(spec, target, chosen)) == BuiltPages(spec)
    ensures forall e :: e in BuiltEntities(spec) ==> e in spec.entities
  {
    FilterMapped(spec.entities, EntityAccepted(), AcceptIn(target, chosen));
    AcceptedOrAllSpec(spec.entities, EntityAccepted());
  }

  /** An entity's ids before are its ids after, and what was dropped from the target. */
  lemma {:induction false} EntityAfterChoosing(spec: System, target: string, chosen: Field -> bool, public: PublicFields, e: Entity, id: string)
    requires Choosable(spec, target, chosen) && e in BuiltEntities(spec)
    ensures EntityHas(e, public, id) <==>
              EntityHas(AcceptIn(target, chosen)(e), public, id) || (e.id == target && DroppedBy(e, chosen, public, id))
  {
    BuiltAfter(spec, target, chosen);
    if e.id == target {
      ChosenIds(e, target, chosen, public, id);
    }
  }

  lemma {:induction false} IdsKeptOrDropped(spec: System, target: string, chosen: Field -> bool, public: PublicFields, e: Entity, id: string)
    requires Choosable(spec, target, chosen) && e in BuiltEntities(spec) && EntityHas(e, public, id)
    ensures || (exists d :: d in BuiltEntities(AcceptSome(spec, target, chosen)) && EntityHas(d, public, id))
            || Dropped(spec, target, chosen, public, id)
  {
    var g := AcceptIn(target, chosen);
    EntityAfterChoosing(spec, target, chosen, public, e, id);
    BuiltAfter(spec, target, chosen);
    MapMember(BuiltEntities(spec), g, g(e));
  }

  lemma {:induction false} IdsWereThere(spec: System, target: string, chosen: Field -> bool, public: PublicFields, d: Entity, id: string)
    requires Choosable(spec, target, chosen)
    requires d in BuiltEntities(AcceptSome(spec, target, chosen)) && EntityHas(d, public, id)
    ensures exists e :: e in BuiltEntities(spec) && EntityHas(e, public, id)
  {
    BuiltAfter(spec, target, chosen);
    MapMember(BuiltEntities(spec), AcceptIn(target, chosen), d);
    var e :| e in BuiltEntities(spec) && AcceptIn(target, chosen)(e) == d;
    EntityAfterChoosing(spec, target, chosen, public, e, id);
  }

  lemma {:induction false} DroppedWasThere(spec: System, target: string, chosen: Field -> bool, public: PublicFields, id: string)
    requires Choosable(spec, target, chosen) && Dropped(spec, target, chosen, public, id)
    ensures exists e :: e in BuiltEntities(spec) && EntityHas(e, public, id)
  {
    var e :| e in BuiltEntities(spec) && e.id == target && DroppedBy(e, chosen, public, id);
    EntityAfterChoosing(spec, target, chosen, public, e, id);
  }

  /** The ids before are the ids after and the dropped ones. */
  lemma {:induction false} IdsAfterChoosing(spec: System, target: string, chosen: Field -> bool, locale: (string, string) -> bool, id: string)
    requires Choosable(spec, target, chosen)
    ensures HasId(Derive(spec, locale), id) <==>
              || HasId(Derive(AcceptSome(spec, target, chosen), locale), id)
              || Dropped(spec, target, chosen, PublicOf(spec.portals, locale), id)
  {
    var public, after := PublicOf(spec.portals, locale), AcceptSome(spec, target, chosen);
    DerivedIds(spec, locale, id);
    DerivedIds(after, locale, id);
    BuiltAfter(spec, target, chosen);
    if d :| d in BuiltEntities(after) && EntityHas(d, public, id) {
      IdsWereThere(spec, target, chosen, public, d, id);
    }
    if Dropped(spec, target, chosen, public, id) {
      DroppedWasThere(spec, target, chosen, public, id);
    }
    if e :| e in BuiltEntities(spec) && EntityHas(e, public, id) {
      IdsKeptOrDropped(spec, target, chosen, public, e, id);
    }
  }

  lemma {:induction false} RemovedIds(before: seq<Surface>, after: seq<Surface>, locale: (string, string) -> bool, id: string)
    requires AllKinded(before) && AllKinded(after)
    ensures HasId(Diff(before, after, locale).removed, id) <==> HasId(before, id) && !HasId(after, id)
    ensures HasId(Diff(before, after, locale).added, id) <==> HasId(after, id) && !HasId(before, id)
  {
    ByIdIndexed(before);
    ByIdIndexed(after);
    ByIdMember(before, id);
    ByIdMember(after, id);
    DiffIsExact(before, after, locale);
  }

  /**
   * Accepting some fields of an undecided entity adds no surface, and removes those of the other fields
   * that no remaining surface shares an id with.
   */
  lemma {:induction false} ChoosingRemoves(spec: System, target: string, chosen: Field -> bool, locale: (string, string) -> bool, id: string)
    requires Choosable(spec, target, chosen)
    ensures var r := Diff(Derive(spec, locale), Derive(AcceptSome(spec, target, chosen), locale), locale);
            && !HasId(r.added, id)
            && (HasId(r.removed, id) <==> Dropped(spec, target, chosen, PublicOf(spec.portals, locale), id)
                                          && !HasId(Derive(AcceptSome(spec, target, chosen), locale), id))
  {
    DerivedKinded(spec, locale);
    DerivedKinded(AcceptSome(spec, target, chosen), locale);
    RemovedIds(Derive(spec, locale), Derive(AcceptSome(spec, target, chosen), locale), locale, id);
    IdsAfterChoosing(spec, target, chosen, locale, id);
  }

  // --- when the removal is exact ---

  /** Tables have distinct names without dots, and the target's columns have distinct names. */
  ghost predicate CleanNames(spec: System, target: string) {
    && (forall e :: e in BuiltEntities(spec) ==> '.' !in ResourceName(e.id))
    && (forall e, d :: e in BuiltEntities(spec) && d in BuiltEntities(spec) && ResourceName(e.id) == ResourceName(d.id) ==> e == d)
    && (forall e, f, g :: e in BuiltEntities(spec) && e.id == target && f in e.fields && g in e.fields && f.name == g.name ==> f == g)
  }

  /** Two fields' surfaces under one id are surfaces of one column path. */
  lemma {:induction false} SamePath(e: Entity, f: Field, d: Entity, g: Field, public: PublicFields, id: string)
    requires FieldHas(e, f, public, id) && FieldHas(d, g, public, id)
    ensures ColumnPath(e, f) == ColumnPath(d, g)
  {
    var i :| i in {Column, PublicField, PublicWrite} && id == Prefix(i) + ColumnPath(e, f);
    var j :| j in {Column, PublicField, PublicWrite} && id == Prefix(j) + ColumnPath(d, g);
    KindFromPrefix(i, j, id);
    PrefixedSame(i, ColumnPath(e, f), ColumnPath(d, g));
  }

  lemma {:induction false} FieldIdsAreNoOthers(e: Entity, f: Field, d: Entity, p: Page, public: PublicFields, id: string)
    requires FieldHas(e, f, public, id)
    ensures !PageHas(p, id)
    ensures id != Prefix(Table) + ResourceName(d.id) && id != Prefix(Rest) + ResourceName(d.id) && id != Prefix(Tool) + ResourceName(d.id)
  {
    var i :| i in {Column, PublicField, PublicWrite} && Prefix(i) <= id;
    forall k: Kind | Prefix(k) <= id
      ensures k == i
    {
      KindFromPrefix(i, k, id);
    }
    assert !(Prefix(Route) <= id) && !(Prefix(Form) <= id) && !(Prefix(Table) <= id) && !(Prefix(Rest) <= id) && !(Prefix(Tool) <= id);
    forall b: Block
      ensures id != Prefix(Form) + p.route + ":" + b.id
    {
      assert Prefix(Form) <= Prefix(Form) + p.route + ":" + b.id;
    }
  }

  /** With clean names no remaining surface shares an id with a dropped one. */
  lemma {:induction false} DroppedAreGone(spec: System, target: string, chosen: Field -> bool, locale: (string, string) -> bool, id: string)
    requires Choosable(spec, target, chosen) && CleanNames(spec, target)
    requires Dropped(spec, target, chosen, PublicOf(spec.portals, locale), id)
    ensures !HasId(Derive(AcceptSome(spec, target, chosen), locale), id)
  {
    var public := PublicOf(spec.portals, locale);
    var e :| e in BuiltEntities(spec) && e.id == target && DroppedBy(e, chosen, public, id);
    var f :| f in e.fields && !chosen(f) && FieldHas(e, f, public, id);
    DerivedIds(AcceptSome(spec, target, chosen), locale, id);
    NoEntityHas(spec, target, chosen, public, id, e, f);
    forall p: Page
      ensures !PageHas(p, id)
    {
      FieldIdsAreNoOthers(e, f, e, p, public, id);
    }
  }

  lemma {:induction false} NoEntityHas(spec: System, target: string, chosen: Field -> bool, public: PublicFields, id: string, e: Entity, f: Field)
    requires Choosable(spec, target, chosen) && CleanNames(spec, target)
    requires e in BuiltEntities(spec) && e.id == target && f in e.fields && !chosen(f) && FieldHas(e, f, public, id)
    ensures forall d' :: d' in BuiltEntities(AcceptSome(spec, target, chosen)) ==> !EntityHas(d', public, id)
  {
    BuiltAfter(spec, target, chosen);
    forall d' | d' in BuiltEntities(AcceptSome(spec, target, chosen))
      ensures !EntityHas(d', public, id)
    {
      MapMember(BuiltEntities(spec), AcceptIn(target, chosen), d');
      var d :| d in BuiltEntities(spec) && AcceptIn(target, chosen)(d) == d';
      NotTheEntity(spec, target, chosen, public, id, e, f, d);
    }
  }

  lemma {:induction false} NotTheEntity(spec: System, target: string, chosen: Field -> bool, public: PublicFields, id: string, e: Entity, f: Field, d: Entity)
    requires Choosable(spec, target, chosen) && CleanNames(spec, target)
    requires e in BuiltEntities(spec) && e.id == target && f in e.fields && !chosen(f) && FieldHas(e, f, public, id)
    requires d in BuiltEntities(spec)
    ensures !EntityHas(AcceptIn(target, chosen)(d), public, id)
  {
    var d' := AcceptIn(target, chosen)(d);
    FieldIdsAreNoOthers(e, f, d', Page("", "", "", [], false), public, id);
    forall g | g in View(d')
      ensures !FieldHas(d', g, public, id)
    {
      NotTheField(spec, target, chosen, public, id, e, f, d, g);
    }
  }

  lemma {:induction false} NotTheField(spec: System, target: string, chosen: Field -> bool, public: PublicFields, id: string, e: Entity, f: Field, d: Entity, g: Field)
    requires Choosable(spec, target, chosen) && CleanNames(spec, target)
    requires e in BuiltEntities(spec) && e.id == target && f in e.fields && !chosen(f) && FieldHas(e, f, public, id)
    requires d in BuiltEntities(spec) && g in View(AcceptIn(target, chosen)(d))
    ensures !FieldHas(AcceptIn(target, chosen)(d), g, public, id)
  {
    var d' := AcceptIn(target, chosen)(d);
    if FieldHas(d', g, public, id) {
      SamePath(e, f, d', g, public, id);
      SplitAtFirst(ResourceName(e.id), f.name, ResourceName(d'.id), g.name, '.');
      BuiltAfter(spec, target, chosen);
      ChosenView(e, target, chosen);
      MapMember(Filter(e.fields, chosen), AcceptField(), g);
      var h :| h in Filter(e.fields, chosen) && AcceptField()(h) == g;
      FilterMember(e.fields, chosen, h);
      assert false;
    }
  }

  /**
   * Accepting some but not all fields of an undecided entity, under clean names, removes exactly the
   * column and public surfaces of the others.
   */
  lemma {:induction false} ChoosingRemovesExactly(spec: System, target: string, chosen: Field -> bool, locale: (string, string) -> bool, id: string)
    requires Choosable(spec, target, chosen) && CleanNames(spec, target)
    ensures var r := Diff(Derive(spec, locale), Derive(AcceptSome(spec, target, chosen), locale), locale);
            && !HasId(r.added, id)
            && (HasId(r.removed, id) <==> Dropped(spec, target, chosen, PublicOf(spec.portals, locale), id))
  {
    ChoosingRemoves(spec, target, chosen, locale, id);
    if Dropped(spec, target, chosen, PublicOf(spec.portals, locale), id) {
      DroppedAreGone(spec, target, chosen, locale, id);
    }
  }
}
