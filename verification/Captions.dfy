/**
 * What the diff of two specs carries: a derived surface's id fixes its caption, so the diff of two
 * derived inventories takes the one exactly to the other.
 * Models deriveSurfaces and blastRadius of packages/mcp/src/blast-radius.ts together.
 */
module Captions {
  import opened Collections
  import opened Spec
  import opened Strings
  import opened Surfaces
  import opened BlastRadius

  /** The caption of a surface, from its kind and what its id says after the kind. */
  function CaptionOf(kind: Kind, path: string): string {
    match kind
    case PublicField => "**`" + path + "` is readable by the public internet**"
    case PublicWrite => "**`" + path + "` is writable by the public internet**"
    case Table => "the `" + path + "` table"
    case Column => "`" + path + "`"
    case Route => "the `" + path + "` route"
    case Form => "the form on `" + path + "`"
    case Rest => "`/api/" + path + "` (list, create, update, delete)"
    case Tool => "MCP: `" + path + "` reachable by `list_records` / `create_record` / \U{2026}"
  }

  function FormId(route: string, block: string): string {
    Prefix(Form) + route + ":" + block
  }

  /** An id that names one path; a form's names a route and a block. */
  ghost predicate Captioned(s: Surface) {
    !s.kind.Form? ==> exists path :: s.id == Prefix(s.kind) + path && s.caption == CaptionOf(s.kind, path)
  }

  /** Two captioned surfaces of one kind under one id have one caption. */
  lemma {:induction false} IdFixesCaption(a: Surface, b: Surface)
    requires Captioned(a) && Captioned(b) && a.kind == b.kind && a.id == b.id && !a.kind.Form?
    ensures a.caption == b.caption
  {
    var x :| a.id == Prefix(a.kind) + x && a.caption == CaptionOf(a.kind, x);
    var y :| b.id == Prefix(b.kind) + y && b.caption == CaptionOf(b.kind, y);
    PrefixedSame(a.kind, x, y);
  }

  // ---------------------------------------------------------------------------
  // Every derived surface is captioned
  // ---------------------------------------------------------------------------

  lemma {:induction false} FieldCaptioned(e: Entity, public: PublicFields, f: Field, s: Surface)
    requires s in FieldSurfaces(e, public)(f)
    ensures Captioned(s) && !s.kind.Form?
  {
    assert s.id == Prefix(s.kind) + ColumnPath(e, f) && s.caption == CaptionOf(s.kind, ColumnPath(e, f));
  }

  lemma {:induction false} EntityCaptioned(e: Entity, public: PublicFields, s: Surface)
    requires s in EntitySurfaces(public)(e)
    ensures Captioned(s) && !s.kind.Form?
  {
    if s in FlatMap(View(e), FieldSurfaces(e, public)) {
      FlatMapMember(View(e), FieldSurfaces(e, public), s);
      var f :| f in View(e) && s in FieldSurfaces(e, public)(f);
      FieldCaptioned(e, public, f, s);
    } else {
      assert s in [TableSurface(e), RestSurface(e), ToolSurface(e)];
      assert s.id == Prefix(s.kind) + ResourceName(e.id) && s.caption == CaptionOf(s.kind, ResourceName(e.id));
    }
  }

  lemma {:induction false} DataCaptioned(entities: seq<Entity>, public: PublicFields, s: Surface)
    requires s in FlatMap(entities, EntitySurfaces(public))
    ensures Captioned(s) && !s.kind.Form?
  {
    FlatMapMember(entities, EntitySurfaces(public), s);
    var e :| e in entities && s in EntitySurfaces(public)(e);
    EntityCaptioned(e, public, s);
  }

  function FormsOf(p: Page): seq<Block> {
    Filter(AcceptedOrAll(p.blocks, BlockAccepted()), (b: Block) => b.isForm)
  }

  /** A page's surfaces are its route and, for each form on it, one that says the page's route and inputs. */
  lemma {:induction false} PageMember(entities: seq<Entity>, p: Page, s: Surface)
    ensures s in PageSurfaces(entities)(p) <==>
              || s == RouteSurface(p)
              || exists b :: b in FormsOf(p) && s == FormOn(entities, p, b.id)
  {
    var blocks := AcceptedOrAll(p.blocks, BlockAccepted());
    var isForm := (b: Block) => b.isForm;
    var forms := FilterMap(blocks, FormSurface(entities, p));
    FilterMapMember(blocks, FormSurface(entities, p), s);
    assert s in PageSurfaces(entities)(p) <==> s == RouteSurface(p) || s in forms;
    if s in forms {
      var b :| b in blocks && FormSurface(entities, p)(b) == Some(s);
      FilterMember(blocks, isForm, b);
      assert b in FormsOf(p) && s == FormOn(entities, p, b.id);
    }
    if b :| b in FormsOf(p) && s == FormOn(entities, p, b.id) {
      FilterMember(blocks, isForm, b);
      assert FormSurface(entities, p)(b) == Some(s);
    }
  }

  function FormOn(entities: seq<Entity>, p: Page, block: string): Surface {
    Surface(Form, FormId(p.route, block), CaptionOf(Form, p.route), Some(Inputs(entities, p)))
  }

  lemma {:induction false} RouteCaptioned(p: Page)
    ensures Captioned(RouteSurface(p))
  {
    assert RouteSurface(p).id == Prefix(Route) + p.route && RouteSurface(p).caption == CaptionOf(Route, p.route);
  }

  lemma {:induction false} PagesCaptioned(entities: seq<Entity>, pages: seq<Page>, s: Surface)
    requires s in FlatMap(pages, PageSurfaces(entities))
    ensures Captioned(s)
  {
    FlatMapMember(pages, PageSurfaces(entities), s);
    var p :| p in pages && s in PageSurfaces(entities)(p);
    PageMember(entities, p, s);
    RouteCaptioned(p);
  }

  lemma {:induction false} DerivedCaptioned(spec: System, locale: (string, string) -> bool, s: Surface)
    requires s in Derive(spec, locale)
    ensures Captioned(s)
  {
    var public := PublicOf(spec.portals, locale);
    if s in FlatMap(BuiltEntities(spec), EntitySurfaces(public)) {
      DataCaptioned(BuiltEntities(spec), public, s);
    } else {
      PagesCaptioned(BuiltEntities(spec), BuiltPages(spec), s);
    }
  }

  // ---------------------------------------------------------------------------
  // The form an inventory has under an id
  // ---------------------------------------------------------------------------

  ghost predicate HasForm(p: Page, id: string) {
    exists b :: b in FormsOf(p) && id == FormId(p.route, b.id)
  }

  /** The last page with a form under the id: an inventory by id keeps the last surface. */
  ghost function FormPage(pages: seq<Page>, id: string): Option<Page> {
    if pages == [] then None
    else if HasForm(pages[|pages| - 1], id) then Some(pages[|pages| - 1])
    else FormPage(pages[..|pages| - 1], id)
  }

  lemma {:induction false} ByIdAppend(s: seq<Surface>, t: seq<Surface>, id: string)
    ensures id in ById(s + t).at <==> id in ById(s).at || id in ById(t).at
    ensures id in ById(t).at ==> ById(s + t).at[id] == ById(t).at[id]
    ensures id !in ById(t).at && id in ById(s).at ==> ById(s + t).at[id] == ById(s).at[id]
  {
    if t == [] {
      assert s + t == s;
    } else {
      var n := |t| - 1;
      ByIdAppend(s, t[..n], id);
      assert (s + t)[..|s + t| - 1] == s + t[..n] && (s + t)[|s + t| - 1] == t[n];
    }
  }

  lemma {:induction false} ByIdHasId(surfaces: seq<Surface>, id: string)
    ensures id in ById(surfaces).at ==> ById(surfaces).at[id].id == id
  {
    if surfaces != [] {
      ByIdHasId(surfaces[..|surfaces| - 1], id);
    }
  }

  lemma {:induction false} FormIdIsNoRoute(p: Page, id: string)
    requires Prefix(Form) <= id
    ensures RouteSurface(p).id != id
  {
    if RouteSurface(p).id == id {
      KindFromPrefix(Form, Route, id);
    }
  }

  /** One page's surfaces under a form's id. */
  lemma {:induction false} PageAtForm(entities: seq<Entity>, p: Page, id: string)
    requires Prefix(Form) <= id
    ensures var at := ById(PageSurfaces(entities)(p)).at;
            && (id in at <==> HasForm(p, id))
            && (id in at ==> at[id] == Surface(Form, id, CaptionOf(Form, p.route), Some(Inputs(entities, p))))
  {
    var surfaces := PageSurfaces(entities)(p);
    ByIdMember(surfaces, id);
    ByIdHasId(surfaces, id);
    FormIdIsNoRoute(p, id);
    if id in ById(surfaces).at {
      PageMember(entities, p, ById(surfaces).at[id]);
    }
    if b :| b in FormsOf(p) && id == FormId(p.route, b.id) {
      PageMember(entities, p, FormOn(entities, p, b.id));
      assert FormOn(entities, p, b.id) in surfaces;
    }
  }

  lemma {:induction false} PagesAtForm(entities: seq<Entity>, pages: seq<Page>, id: string)
    requires Prefix(Form) <= id
    ensures var at := ById(FlatMap(pages, PageSurfaces(entities))).at;
            match FormPage(pages, id)
            case None => id !in at
            case Some(p) => id in at && at[id] == Surface(Form, id, CaptionOf(Form, p.route), Some(Inputs(entities, p)))
  {
    if pages != [] {
      var n := |pages| - 1;
      PagesAtForm(entities, pages[..n], id);
      PageAtForm(entities, pages[n], id);
      FlatMapStep(pages, n, PageSurfaces(entities));
      assert pages[..n + 1] == pages;
      ByIdAppend(FlatMap(pages[..n], PageSurfaces(entities)), PageSurfaces(entities)(pages[n]), id);
    }
  }

  /** What an inventory holds under a form's id. */
  lemma {:induction false} DerivedAtForm(spec: System, locale: (string, string) -> bool, id: string)
    requires Prefix(Form) <= id
    ensures var at := ById(Derive(spec, locale)).at;
            match FormPage(BuiltPages(spec), id)
            case None => id !in at
            case Some(p) => id in at && at[id] == Surface(Form, id, CaptionOf(Form, p.route), Some(Inputs(BuiltEntities(spec), p)))
  {
    var data := FlatMap(BuiltEntities(spec), EntitySurfaces(PublicOf(spec.portals, locale)));
    ByIdAppend(data, FlatMap(BuiltPages(spec), PageSurfaces(BuiltEntities(spec))), id);
    PagesAtForm(BuiltEntities(spec), BuiltPages(spec), id);
    NoFormInData(BuiltEntities(spec), PublicOf(spec.portals, locale), id);
  }

  lemma {:induction false} NoFormInData(entities: seq<Entity>, public: PublicFields, id: string)
    requires Prefix(Form) <= id
    ensures id !in ById(FlatMap(entities, EntitySurfaces(public))).at
  {
    var data := FlatMap(entities, EntitySurfaces(public));
    ByIdMember(data, id);
    if s :| s in data && s.id == id {
      DataCaptioned(entities, public, s);
      KindFromPrefix(Form, s.kind, id);
    }
  }

  // ---------------------------------------------------------------------------
  // The round trip
  // ---------------------------------------------------------------------------

  /** A form under one id before and after that asks for the same inputs is on the same route. */
  ghost predicate FormsStay(first: System, next: System) {
    forall id :: Prefix(Form) <= id && FormPage(BuiltPages(first), id).Some? && FormPage(BuiltPages(next), id).Some?
                 && Inputs(BuiltEntities(first), FormPage(BuiltPages(first), id).value)
                    == Inputs(BuiltEntities(next), FormPage(BuiltPages(next), id).value) ==>
                   FormPage(BuiltPages(first), id).value.route == FormPage(BuiltPages(next), id).value.route
  }

  lemma {:induction false} SameSurface(first: System, next: System, locale: (string, string) -> bool, id: string)
    requires FormsStay(first, next)
    requires var b, a := ById(Derive(first, locale)).at, ById(Derive(next, locale)).at;
             id in a && id in b && b[id].detail == a[id].detail
    ensures ById(Derive(first, locale)).at[id] == ById(Derive(next, locale)).at[id]
  {
    var before, after := Derive(first, locale), Derive(next, locale);
    var x, y := ById(before).at[id], ById(after).at[id];
    DerivedKinded(first, locale);
    DerivedKinded(next, locale);
    ByIdIndexed(before);
    ByIdIndexed(after);
    KindFromId(x, y);
    if x.kind.Form? {
      DerivedAtForm(first, locale, id);
      DerivedAtForm(next, locale, id);
    } else {
      ByIdMember(before, id);
      ByIdMember(after, id);
      DerivedCaptioned(first, locale, x);
      DerivedCaptioned(next, locale, y);
      IdFixesCaption(x, y);
    }
  }

  lemma {:induction false} MovedFormShows(first: System, next: System, locale: (string, string) -> bool)
    requires !FormsStay(first, next)
    ensures var b, a := ById(Derive(first, locale)).at, ById(Derive(next, locale)).at;
            exists id :: id in a && id in b && b[id].detail == a[id].detail && b[id] != a[id]
  {
    var id :| Prefix(Form) <= id && FormPage(BuiltPages(first), id).Some? && FormPage(BuiltPages(next), id).Some?
              && Inputs(BuiltEntities(first), FormPage(BuiltPages(first), id).value)
                 == Inputs(BuiltEntities(next), FormPage(BuiltPages(next), id).value)
              && FormPage(BuiltPages(first), id).value.route != FormPage(BuiltPages(next), id).value.route;
    DerivedAtForm(first, locale, id);
    DerivedAtForm(next, locale, id);
    CaptionTellsRoute(FormPage(BuiltPages(first), id).value.route, FormPage(BuiltPages(next), id).value.route);
  }

  lemma {:induction false} CaptionTellsRoute(route: string, other: string)
    ensures CaptionOf(Form, route) == CaptionOf(Form, other) ==> route == other
  {
    RouteInCaption(route);
    RouteInCaption(other);
  }

  lemma {:induction false} RouteInCaption(route: string)
    ensures var caption := CaptionOf(Form, route); |caption| >= 14 && caption[13..|caption| - 1] == route
  {
  }

  /**
   * Applying the diff of two specs to what the first produces gives exactly what the second produces,
   * captions included, if and only if no form kept its id and its inputs and changed its route.
   */
  lemma {:induction false} DerivedPatchIsExactIff(first: System, next: System, locale: (string, string) -> bool)
    ensures Patched(ById(Derive(first, locale)).at, Diff(Derive(first, locale), Derive(next, locale), locale)) == ById(Derive(next, locale)).at
            <==> FormsStay(first, next)
  {
    DerivedKinded(first, locale);
    DerivedKinded(next, locale);
    PatchGivesAfter(Derive(first, locale), Derive(next, locale), locale);
    if FormsStay(first, next) {
      var b, a := ById(Derive(first, locale)).at, ById(Derive(next, locale)).at;
      forall id | id in a && id in b && b[id].detail == a[id].detail
        ensures b[id] == a[id]
      {
        SameSurface(first, next, locale, id);
      }
    } else {
      MovedFormShows(first, next, locale);
    }
  }

  /** No form that is built has a colon in its block's id. */
  ghost predicate PlainForms(spec: System) {
    forall p, b :: p in BuiltPages(spec) && b in FormsOf(p) ==> ':' !in b.id
  }

  lemma {:induction false} FormPageHas(pages: seq<Page>, id: string)
    requires FormPage(pages, id).Some?
    ensures FormPage(pages, id).value in pages && HasForm(FormPage(pages, id).value, id)
  {
    if !HasForm(pages[|pages| - 1], id) {
      FormPageHas(pages[..|pages| - 1], id);
    }
  }

  /** So it does between any two specs whose form blocks have no colon in their ids. */
  lemma {:induction false} DerivedPatchIsExact(first: System, next: System, locale: (string, string) -> bool)
    requires PlainForms(first) && PlainForms(next)
    ensures Patched(ById(Derive(first, locale)).at, Diff(Derive(first, locale), Derive(next, locale), locale))
            == ById(Derive(next, locale)).at
  {
    forall id | FormPage(BuiltPages(first), id).Some? && FormPage(BuiltPages(next), id).Some?
      ensures FormPage(BuiltPages(first), id).value.route == FormPage(BuiltPages(next), id).value.route
    {
      FormPageHas(BuiltPages(first), id);
      FormPageHas(BuiltPages(next), id);
      var p, q := FormPage(BuiltPages(first), id).value, FormPage(BuiltPages(next), id).value;
      var x :| x in FormsOf(p) && id == FormId(p.route, x.id);
      var y :| y in FormsOf(q) && id == FormId(q.route, y.id);
      SplitAtLast(Prefix(Form) + p.route, x.id, Prefix(Form) + q.route, y.id, ':');
      PrefixedSame(Form, p.route, q.route);
    }
    DerivedPatchIsExactIff(first, next, locale);
  }

  /** A colon in a block's id lets forms on two routes share an id, under two captions. */
  lemma {:induction false} ColonFormsShareAnId(route: string, block: string, rest: string)
    ensures FormId(route, block + ":" + rest) == FormId(route + ":" + block, rest)
    ensures CaptionOf(Form, route) != CaptionOf(Form, route + ":" + block)
  {
    assert Prefix(Form) + route + ":" + (block + ":" + rest) == Prefix(Form) + (route + ":" + block) + ":" + rest;
    assert |CaptionOf(Form, route)| < |CaptionOf(Form, route + ":" + block)|;
  }

  /** A spec of one page with one form on it. */
  function OneForm(route: string, block: string): System {
    System([], [Page(route, "page", "", [Block(block, true, true)], true)], [])
  }

  function TheForm(route: string, block: string): Surface {
    Surface(Form, FormId(route, block), CaptionOf(Form, route), Some(""))
  }

  lemma {:induction false} AllOfOne<T>(x: T, isAccepted: T -> bool)
    ensures AcceptedOrAll([x], isAccepted) == [x]
  {
    assert [x][1..] == [] && Filter([x][1..], isAccepted) == [];
  }

  lemma {:induction false} OneFormDerived(route: string, block: string, locale: (string, string) -> bool)
    ensures Derive(OneForm(route, block), locale) == [RouteSurface(OneForm(route, block).pages[0]), TheForm(route, block)]
  {
    var spec := OneForm(route, block);
    var p, b := spec.pages[0], spec.pages[0].blocks[0];
    AllOfOne(p, PageAccepted());
    AllOfOne(b, BlockAccepted());
    assert BuiltPages(spec) == [p] && BuiltEntities(spec) == [];
    assert FormSurface([], p)(b) == Some(TheForm(route, block));
    assert [b][1..] == [] && FilterMap([b][1..], FormSurface([], p)) == [];
    assert PageSurfaces([])(p) == [RouteSurface(p), TheForm(route, block)];
    assert [p][1..] == [] && FlatMap([p][1..], PageSurfaces([])) == [];
  }

  lemma {:induction false} OneFormAt(route: string, block: string, locale: (string, string) -> bool)
    ensures var at := ById(Derive(OneForm(route, block), locale)).at;
            FormId(route, block) in at && at[FormId(route, block)] == TheForm(route, block)
  {
    OneFormDerived(route, block, locale);
    var surfaces := Derive(OneForm(route, block), locale);
    assert surfaces[..|surfaces| - 1] == [surfaces[0]];
    assert ById(surfaces) == Put(ById([surfaces[0]]), TheForm(route, block));
  }

  /** Between two such specs that share the form's id the diff does not carry the caption. */
  lemma {:induction false} ColonKeepsOldCaption(route: string, block: string, rest: string, locale: (string, string) -> bool)
    ensures var before, after := Derive(OneForm(route, block + ":" + rest), locale), Derive(OneForm(route + ":" + block, rest), locale);
            Patched(ById(before).at, Diff(before, after, locale)) != ById(after).at
  {
    var first, next := OneForm(route, block + ":" + rest), OneForm(route + ":" + block, rest);
    OneFormAt(route, block + ":" + rest, locale);
    OneFormAt(route + ":" + block, rest, locale);
    ColonFormsShareAnId(route, block, rest);
    DerivedKinded(first, locale);
    DerivedKinded(next, locale);
    PatchGivesAfter(Derive(first, locale), Derive(next, locale), locale);
  }
}
