/**
 * The grounded project a server keeps between requests, re-grounded when its fingerprint changes.
 * Models groundProject and getSprout of apps/web/app/sprout.server.ts, and groundReference,
 * groundedEntityShapes, missingReferenceBundles and schemaFingerprint of apps/web/app/spec-sprout.ts,
 * over packages/spec/src/base/virtual-entities.ts. `JSON.stringify` is any injective text of the shapes
 * without more structure than that; requests are served one after another, as the promise chain does.
 */
module SproutCache {
  import opened Collections
  import opened Spec
  import opened Strings
  import Grounding
  import GroundedPlans

  // ---------------------------------------------------------------------------
  // The grounded shape of a project
  // ---------------------------------------------------------------------------

  datatype Project = Project(entities: seq<Entity>, portals: seq<GroundedPlans.Portal>, live: seq<GroundedPlans.Subscription>,
                             importers: seq<GroundedPlans.Importer>, actions: seq<GroundedPlans.Action>)

  datatype IdType = UuidIds | TextIds

  datatype Reference = Reference(table: string, column: string, displayField: Option<string>, idType: IdType)

  datatype ShapeField = ShapeField(name: string, kind: FieldType, required: bool, options: seq<string>, reference: Option<Reference>)

  datatype Shape = Shape(name: string, fields: seq<ShapeField>, computed: Option<seq<Grounding.ComputedPlan>>,
                         rollups: Option<seq<Grounding.RollupPlan>>, importers: Option<seq<GroundedPlans.ImportPlan>>,
                         portals: Option<seq<GroundedPlans.PortalPlan>>, live: Option<seq<GroundedPlans.LivePlan>>,
                         actions: Option<seq<GroundedPlans.ActionPlan>>)

  const USER_ENTITY_ID := "e-user"

  const AUTH := "auth"

  function TitleFieldOf(entities: seq<Entity>, id: string): Option<string> {
    match FindEntity(entities, id) case None => None case Some(e) => GroundedPlans.PickTitleField(e.fields)
  }

  /** A declared entity wins over the virtual one of the same id, which needs its bundle. */
  function GroundReference(entities: seq<Entity>, reference: string, installed: seq<string>): Option<Reference> {
    if FindEntity(entities, reference).None? && reference == USER_ENTITY_ID then
      if AUTH in installed then Some(Reference("user", "id", Some("name"), TextIds)) else None
    else Some(Reference(ResourceName(reference), "id", TitleFieldOf(entities, reference), UuidIds))
  }

  function GroundField(entities: seq<Entity>, installed: seq<string>): Field -> ShapeField {
    (f: Field) => ShapeField(f.name, f.kind, f.required, f.options,
                             if f.reference == "" then None else GroundReference(entities, f.reference, installed))
  }

  function ShapeOf(project: Project, entities: seq<Entity>, installed: seq<string>): Entity -> Shape {
    (e: Entity) =>
      Shape(ResourceName(e.id), Map(View(e), GroundField(entities, installed)),
            if e.computed == [] then None else Some(FilterMap(AcceptedOrAll(e.computed, ComputedAccepted()), Grounding.ComputedPlanOf(View(e)))),
            if e.rollups == [] then None else Some(FilterMap(AcceptedOrAll(e.rollups, RollupAccepted()), Grounding.RollupPlanOf(entities))),
            GroundedPlans.NonEmpty(FilterMap(GroundedPlans.DeclaredImporters(project.importers, e), GroundedPlans.ImportPlanOf(e))),
            GroundedPlans.NonEmpty(FilterMap(GroundedPlans.DeclaredPortals(project.portals, e), GroundedPlans.PortalPlanOf(e))),
            GroundedPlans.NonEmpty(FilterMap(GroundedPlans.DeclaredChannels(project.live, e), GroundedPlans.LivePlanOf(e))),
            GroundedPlans.NonEmpty(FilterMap(GroundedPlans.DeclaredActions(project.actions, e), GroundedPlans.ActionPlanOf(e))))
  }

  function Built(project: Project): seq<Entity> {
    AcceptedOrAll(project.entities, EntityAccepted())
  }

  function Shapes(project: Project, installed: seq<string>): seq<Shape> {
    Map(Built(project), ShapeOf(project, Built(project), installed))
  }

  /** groundedEntityShapes, through the grounding loops. */
  method GroundedEntityShapes(project: Project, installed: seq<string>) returns (shapes: seq<Shape>)
    ensures shapes == Shapes(project, installed)
  {
    var entities := Built(project);
    shapes := [];
    for i := 0 to |entities|
      invariant shapes == Map(entities[..i], ShapeOf(project, entities, installed))
    {
      MapStep(entities, i, ShapeOf(project, entities, installed));
      var shape := GroundEntity(project, entities, installed, entities[i]);
      shapes := shapes + [shape];
    }
    assert entities[..|entities|] == entities;
  }

  method GroundEntity(project: Project, entities: seq<Entity>, installed: seq<string>, e: Entity) returns (shape: Shape)
    ensures shape == ShapeOf(project, entities, installed)(e)
  {
    var importers := GroundedPlans.GroundImporters(project.importers, e);
    var portals := GroundedPlans.GroundPortals(project.portals, e);
    var live := GroundedPlans.GroundLive(project.live, e);
    var actions := GroundedPlans.GroundActions(project.actions, e);
    var computed, rollups := None, None;
    if e.computed != [] {
      var plans := Grounding.GroundComputed(e);
      computed := Some(plans);
    }
    if e.rollups != [] {
      var plans := Grounding.GroundRollups(entities, e);
      rollups := Some(plans);
    }
    shape := Shape(ResourceName(e.id), Map(View(e), GroundField(entities, installed)), computed, rollups, importers, portals, live, actions);
  }

  /** A reference stays a plain column exactly when it names the virtual user, nothing declared shadows it, and the bundle is missing. */
  lemma {:induction false} ReferenceGroundsIff(entities: seq<Entity>, reference: string, installed: seq<string>)
    ensures GroundReference(entities, reference, installed).None? <==>
              reference == USER_ENTITY_ID && AUTH !in installed && forall e :: e in entities ==> e.id != USER_ENTITY_ID
  {
    FindEntitySpec(entities, reference);
  }

  /**
   * What a reference points at: a declared entity's table and display field, whatever its id; the auth bundle's
   * user table when nothing declared has that id and the bundle is there; the table any other id names.
   */
  lemma {:induction false} ReferenceIs(entities: seq<Entity>, reference: string, installed: seq<string>, k: nat)
    ensures k < |entities| && entities[k].id == reference && (forall j :: 0 <= j < k ==> entities[j].id != reference) ==>
              GroundReference(entities, reference, installed)
              == Some(Reference(ResourceName(reference), "id", GroundedPlans.PickTitleField(entities[k].fields), UuidIds))
    ensures (forall e :: e in entities ==> e.id != reference) && reference == "e-user" && "auth" in installed ==>
              GroundReference(entities, reference, installed) == Some(Reference("user", "id", Some("name"), TextIds))
    ensures (forall e :: e in entities ==> e.id != reference) && reference != "e-user" ==>
              GroundReference(entities, reference, installed) == Some(Reference(ResourceName(reference), "id", None, UuidIds))
  {
    FindEntitySpec(entities, reference);
    if k < |entities| && entities[k].id == reference && forall j :: 0 <= j < k ==> entities[j].id != reference {
      FindAt(entities, (e: Entity) => e.id == reference, k);
    }
  }

  /** There is one shape for each entity that is accepted, or for each entity when none is, in declaration order. */
  lemma {:induction false} ShapesAreOf(project: Project, installed: seq<string>)
    ensures var all := forall e :: e in project.entities ==> !e.accepted;
            && Built(project) == Filter(project.entities, (e: Entity) => e.accepted || all)
            && |Shapes(project, installed)| == |Built(project)|
  {
    var all := forall e :: e in project.entities ==> !e.accepted;
    var built := (e: Entity) => e.accepted || all;
    if all {
      KeptWhole(project.entities, built);
      NoneAccepted(project.entities);
    } else {
      var e :| e in project.entities && e.accepted;
      FilterMember(project.entities, EntityAccepted(), e);
      KeptAlike(project.entities, EntityAccepted(), built);
    }
  }

  lemma {:induction false} KeptWhole<T>(s: seq<T>, p: T -> bool)
    requires forall x :: x in s ==> p(x)
    ensures Filter(s, p) == s
  {
    if s != [] {
      KeptWhole(s[1..], p);
      assert s[0] in s;
    }
  }

  lemma {:induction false} KeptAlike<T>(s: seq<T>, p: T -> bool, q: T -> bool)
    requires forall x :: x in s ==> (p(x) <==> q(x))
    ensures Filter(s, p) == Filter(s, q)
  {
    if s != [] {
      KeptAlike(s[1..], p, q);
      assert s[0] in s;
    }
  }

  lemma {:induction false} NoneAccepted(entities: seq<Entity>)
    requires forall e :: e in entities ==> !e.accepted
    ensures Filter(entities, EntityAccepted()) == []
  {
    if entities != [] {
      NoneAccepted(entities[1..]);
      assert entities[0] in entities;
    }
  }

  /** The shape of each built entity, part by part. */
  lemma {:induction false} ShapeIs(project: Project, installed: seq<string>, k: nat)
    requires k < |Built(project)|
    ensures |Shapes(project, installed)| == |Built(project)|
    ensures var e, shape := Built(project)[k], Shapes(project, installed)[k];
            && shape.name == ResourceName(e.id)
            && |shape.fields| == |View(e)|
            && (forall i :: 0 <= i < |View(e)| ==>
                  && shape.fields[i].name == View(e)[i].name && shape.fields[i].kind == View(e)[i].kind
                  && shape.fields[i].required == View(e)[i].required && shape.fields[i].options == View(e)[i].options
                  && (View(e)[i].reference == "" ==> shape.fields[i].reference == None)
                  && (View(e)[i].reference != "" ==>
                        shape.fields[i].reference == GroundReference(Built(project), View(e)[i].reference, installed)))
            && (shape.computed == None <==> e.computed == []) && (shape.rollups == None <==> e.rollups == [])
            && (shape.computed.Some? ==> forall plan :: plan in shape.computed.value <==>
                  exists c :: c in AcceptedOrAll(e.computed, ComputedAccepted())
                              && Grounding.GroundExpr(View(e), c.expr) == Some(plan.expr) && plan.name == c.name)
            && (shape.rollups.Some? ==> forall plan :: plan in shape.rollups.value <==>
                  exists r :: r in AcceptedOrAll(e.rollups, RollupAccepted()) && Grounding.GroundRollup(Built(project), r) == Some(plan))
  {
    var e, shape := Built(project)[k], Shapes(project, installed)[k];
    if shape.computed.Some? {
      forall plan
        ensures plan in shape.computed.value <==>
                exists c :: c in AcceptedOrAll(e.computed, ComputedAccepted())
                            && Grounding.GroundExpr(View(e), c.expr) == Some(plan.expr) && plan.name == c.name
      {
        FilterMapMember(AcceptedOrAll(e.computed, ComputedAccepted()), Grounding.ComputedPlanOf(View(e)), plan);
      }
    }
    if shape.rollups.Some? {
      forall plan
        ensures plan in shape.rollups.value <==>
                exists r :: r in AcceptedOrAll(e.rollups, RollupAccepted()) && Grounding.GroundRollup(Built(project), r) == Some(plan)
      {
        FilterMapMember(AcceptedOrAll(e.rollups, RollupAccepted()), Grounding.RollupPlanOf(Built(project)), plan);
      }
    }
  }

  /** What an entity's shape serves the outside: the portals, channels, importers and actions that ground over it. */
  lemma {:induction false} ShapeServes(project: Project, installed: seq<string>, k: nat, portal: GroundedPlans.PortalPlan,
                                       live: GroundedPlans.LivePlan, importer: GroundedPlans.ImportPlan, action: GroundedPlans.ActionPlan)
    requires k < |Built(project)|
    ensures var e, shape := Built(project)[k], Shapes(project, installed)[k];
            && (shape.portals.Some? && portal in shape.portals.value <==>
                  exists p :: p in project.portals && p.entityId == e.id && p.accepted && GroundedPlans.GroundPortal(e, p) == Some(portal))
            && (shape.live.Some? && live in shape.live.value <==>
                  exists l :: l in project.live && l.entityId == e.id && (l.accepted || forall x :: x in project.live ==> !x.accepted)
                              && GroundedPlans.GroundChannel(e, l) == Some(live))
            && (shape.importers.Some? && importer in shape.importers.value <==>
                  exists i :: i in project.importers && i.entityId == e.id && GroundedPlans.GroundImporter(e, i) == Some(importer))
            && (shape.actions.Some? && action in shape.actions.value <==>
                  exists a :: a in project.actions && a.entityId == e.id && a.accepted && GroundedPlans.GroundAction(e, a) == Some(action))
  {
    var e := Built(project)[k];
    GroundedPlans.PortalsServed(project.portals, e, portal);
    GroundedPlans.ChannelsServed(project.live, e, live);
    GroundedPlans.ImportersServed(project.importers, e, importer);
    GroundedPlans.ActionsServed(project.actions, e, action);
  }

  /**
   * The registry of a grounding: writes need a session exactly when the auth bundle is installed, and users are a
   * resource exactly when it is and no shape is called `user`; and each shape's rollups stand under its name.
   */
  lemma {:induction false} RegistryIs(shapes: seq<Shape>, installed: seq<string>)
    ensures RegistryOf(shapes, installed).shapes == shapes
    ensures RegistryOf(shapes, installed).writesNeedSession <==> "auth" in installed
    ensures RegistryOf(shapes, installed).usersRegistered <==> "auth" in installed && forall s :: s in shapes ==> s.name != "user"
    ensures |DerivedOf(shapes)| == |shapes| && forall i :: 0 <= i < |shapes| ==> DerivedOf(shapes)[i] == (shapes[i].name, shapes[i].rollups)
  {
    assert forall i :: 0 <= i < |shapes| ==> shapes[i] in shapes;
  }

  /** Bundles shape the grounding only by whether the auth bundle is among them. */
  lemma {:induction false} ShapesSeeOnlyAuth(project: Project, installed: seq<string>, other: seq<string>)
    requires AUTH in installed <==> AUTH in other
    ensures Shapes(project, installed) == Shapes(project, other)
  {
    var entities := Built(project);
    forall i | 0 <= i < |entities|
      ensures Shapes(project, installed)[i] == Shapes(project, other)[i]
    {
      var e := entities[i];
      assert Map(View(e), GroundField(entities, installed)) == Map(View(e), GroundField(entities, other));
    }
  }

  /** The bundles whose absence leaves a reference ungrounded, found by the warning's own walk. */
  method MissingReferenceBundles(project: Project, installed: seq<string>) returns (missing: set<string>)
    ensures missing <= {AUTH}
    ensures AUTH in missing <==>
              exists e, f :: && e in Built(project) && f in View(e) && f.reference != ""
                             && GroundReference(Built(project), f.reference, installed).None?
  {
    var entities := Built(project);
    missing := {};
    for i := 0 to |entities|
      invariant missing <= {AUTH}
      invariant AUTH in missing <==> exists e :: e in entities[..i] && Ungrounded(entities, View(e), installed)
    {
      assert forall e :: e in entities[..i + 1] <==> e in entities[..i] || e == entities[i];
      var found := MissingIn(entities, View(entities[i]), installed);
      if found {
        missing := missing + {AUTH};
      }
    }
    assert entities[..|entities|] == entities;
  }

  ghost predicate Ungrounded(entities: seq<Entity>, fields: seq<Field>, installed: seq<string>) {
    exists f :: f in fields && f.reference != "" && GroundReference(entities, f.reference, installed).None?
  }

  method MissingIn(entities: seq<Entity>, fields: seq<Field>, installed: seq<string>) returns (found: bool)
    ensures found <==> Ungrounded(entities, fields, installed)
  {
    found := false;
    for i := 0 to |fields|
      invariant found <==> Ungrounded(entities, fields[..i], installed)
    {
      assert forall f :: f in fields[..i + 1] <==> f in fields[..i] || f == fields[i];
      var reference := fields[i].reference;
      if reference == "" {
        continue;
      }
      FindEntitySpec(entities, reference);
      if FindEntity(entities, reference).Some? {
        continue;
      }
      if reference == USER_ENTITY_ID && AUTH !in installed {
        found := true;
      }
    }
    assert fields[..|fields|] == fields;
  }

  // ---------------------------------------------------------------------------
  // The fingerprint
  // ---------------------------------------------------------------------------

  /**
   * A text of the shapes: different shapes have different texts, and a text ends where its last bracket
   * closes, so none goes on past a bar as another.
   */
  ghost predicate Delimited(json: seq<Shape> -> string) {
    && (forall a, b :: json(a) == json(b) ==> a == b)
    && (forall a, b :: !(json(a) + "|" <= json(b)))
  }

  function Fingerprint(json: seq<Shape> -> string, shapes: seq<Shape>, installed: seq<string>): string {
    json(shapes) + "|" + Join(installed, ",")
  }

  /** What a bundle slug looks like, as far as the fingerprint cares. */
  ghost predicate Slugs(installed: seq<string>) {
    forall i :: 0 <= i < |installed| ==> installed[i] != "" && ',' !in installed[i]
  }

  lemma {:induction false} JoinedInjective(a: seq<string>, b: seq<string>)
    requires Slugs(a) && Slugs(b) && Join(a, ",") == Join(b, ",")
    ensures a == b
  {
    HasComma(a);
    HasComma(b);
    if |a| > 1 {
      SplitAtFirst(a[0], Join(a[1..], ","), b[0], Join(b[1..], ","), ',');
      JoinedInjective(a[1..], b[1..]);
      assert a == [a[0]] + a[1..] && b == [b[0]] + b[1..];
    }
  }

  lemma {:induction false} HasComma(slugs: seq<string>)
    requires Slugs(slugs)
    ensures ',' in Join(slugs, ",") <==> |slugs| > 1
    ensures Join(slugs, ",") == "" <==> slugs == []
  {
    if |slugs| > 1 {
      assert Join(slugs, ",")[|slugs[0]|] == ',';
    }
  }

  lemma {:induction false} ShorterEnds(a: string, x: string, b: string, y: string)
    requires a + "|" + x == b + "|" + y
    ensures |a| < |b| ==> a + "|" <= b
  {
    var text := a + "|" + x;
    assert a + "|" == text[..|a| + 1];
    assert b == text[..|b|];
  }

  /** Equal fingerprints mean equal shapes and equal joined slugs, whatever the slugs hold. */
  lemma {:induction false} FingerprintTellsShapes(json: seq<Shape> -> string, s: seq<Shape>, i: seq<string>, t: seq<Shape>, j: seq<string>)
    requires Delimited(json) && Fingerprint(json, s, i) == Fingerprint(json, t, j)
    ensures s == t && Join(i, ",") == Join(j, ",")
  {
    var a, b := json(s), json(t);
    var text := a + "|" + Join(i, ",");
    assert text == b + "|" + Join(j, ",");
    ShorterEnds(a, Join(i, ","), b, Join(j, ","));
    ShorterEnds(b, Join(j, ","), a, Join(i, ","));
    assert a == text[..|a|] && b == text[..|b|];
    assert Join(i, ",") == text[|a| + 1..] && Join(j, ",") == text[|b| + 1..];
  }

  // ---------------------------------------------------------------------------
  // The cache
  // ---------------------------------------------------------------------------

  /** What routes look resources up in: the shapes, who may write, and whether users are a resource. */
  datatype Registry = Registry(shapes: seq<Shape>, writesNeedSession: bool, usersRegistered: bool)

  /** What a request is served; handles are numbered in the order they were made. */
  datatype Sprout = Sprout(registry: Registry, derived: seq<(string, Option<seq<Grounding.RollupPlan>>)>, authInstalled: bool,
                           backend: nat, auth: nat, fingerprint: string)

  /** What one request's grounding read from disk. */
  datatype Input = Input(project: Project, installed: seq<string>)

  function RegistryOf(shapes: seq<Shape>, installed: seq<string>): Registry {
    Registry(shapes, AUTH in installed, AUTH in installed && forall i :: 0 <= i < |shapes| ==> shapes[i].name != "user")
  }

  function DerivedOf(shapes: seq<Shape>): seq<(string, Option<seq<Grounding.RollupPlan>>)> {
    Map(shapes, (s: Shape) => (s.name, s.rollups))
  }

  /** A server's process: what it holds, and how often it opened, built and synced. */
  datatype Process = Process(current: Option<Sprout>, openings: nat, builds: nat, synced: nat)

  function Resynced(p: Process, shapes: seq<Shape>, installed: seq<string>, fingerprint: string): (Process, Sprout) {
    var sprout := Sprout(RegistryOf(shapes, installed), DerivedOf(shapes), AUTH in installed,
                         if p.current.Some? then p.current.value.backend else p.openings,
                         if p.current.Some? then p.current.value.auth else p.builds, fingerprint);
    (Process(Some(sprout), if p.current.Some? then p.openings else p.openings + 1,
             if p.current.Some? then p.builds else p.builds + 1, p.synced + 1), sprout)
  }

  function Grounded(json: seq<Shape> -> string, p: Process, input: Input): (Process, Sprout) {
    var shapes := Shapes(input.project, input.installed);
    var fingerprint := Fingerprint(json, shapes, input.installed);
    if p.current.Some? && p.current.value.fingerprint == fingerprint then (p, p.current.value)
    else Resynced(p, shapes, input.installed, fingerprint)
  }

  class Server {
    var current: Option<Sprout>
    var openings: nat
    var builds: nat
    var synced: nat

    constructor ()
      ensures Now() == Process(None, 0, 0, 0)
    {
      current, openings, builds, synced := None, 0, 0, 0;
    }

    ghost function Now(): Process
      reads this
    {
      Process(current, openings, builds, synced)
    }

    /** groundProject, as the promise chain runs it for one request. */
    method GroundProject(json: seq<Shape> -> string, project: Project, installed: seq<string>) returns (sprout: Sprout)
      modifies this
      ensures (Now(), sprout) == Grounded(json, old(Now()), Input(project, installed))
    {
      var shapes := GroundedEntityShapes(project, installed);
      var fingerprint := json(shapes) + "|" + Join(installed, ",");
      if current.Some? && current.value.fingerprint == fingerprint {
        return current.value;
      }
      sprout := Resync(shapes, installed, fingerprint);
    }

    /** The rest of groundProject: the handles are carried, everything else is made anew. */
    method Resync(shapes: seq<Shape>, installed: seq<string>, fingerprint: string) returns (sprout: Sprout)
      modifies this
      ensures (Now(), sprout) == Resynced(old(Now()), shapes, installed, fingerprint)
    {
      var registry := RegistryOf(shapes, installed);
      var backend, auth;
      if current.Some? {
        backend, auth := current.value.backend, current.value.auth;
      } else {
        backend, openings := openings, openings + 1;
        auth, builds := builds, builds + 1;
      }
      synced := synced + 1;
      sprout := Sprout(registry, DerivedOf(shapes), AUTH in installed, backend, auth, fingerprint);
      current := Some(sprout);
    }
  }

  /** What a request grounded from scratch would see, handles aside. */
  ghost predicate Fresh(json: seq<Shape> -> string, input: Input, s: Sprout) {
    var shapes := Shapes(input.project, input.installed);
    && s.registry == RegistryOf(shapes, input.installed)
    && s.derived == DerivedOf(shapes)
    && s.authInstalled == (AUTH in input.installed)
    && s.fingerprint == Fingerprint(json, shapes, input.installed)
  }

  /** The process after `inputs`, one request each. */
  function After(json: seq<Shape> -> string, inputs: seq<Input>): Process {
    if inputs == [] then Process(None, 0, 0, 0)
    else Grounded(json, After(json, inputs[..|inputs| - 1]), inputs[|inputs| - 1]).0
  }

  function Served(json: seq<Shape> -> string, inputs: seq<Input>, k: nat): Sprout
    requires k < |inputs|
  {
    Grounded(json, After(json, inputs[..k]), inputs[k]).1
  }

  /** Nothing is kept before the first request, and one backend and one auth are ever made. */
  lemma {:induction false} HandlesKept(json: seq<Shape> -> string, inputs: seq<Input>)
    ensures var p := After(json, inputs);
            && (p.current.Some? <==> inputs != [])
            && p.openings == (if inputs == [] then 0 else 1) && p.builds == p.openings
            && (p.current.Some? ==> p.current.value.backend == 0 && p.current.value.auth == 0)
  {
    if inputs != [] {
      HandlesKept(json, inputs[..|inputs| - 1]);
    }
  }

  /** What is kept was fresh for some earlier request. */
  lemma {:induction false} KeptWasFresh(json: seq<Shape> -> string, inputs: seq<Input>)
    requires inputs != []
    ensures After(json, inputs).current.Some?
    ensures exists i :: 0 <= i < |inputs| && Fresh(json, inputs[i], After(json, inputs).current.value)
  {
    HandlesKept(json, inputs);
    var n := |inputs| - 1;
    var before, p := After(json, inputs[..n]), After(json, inputs);
    if p.current == before.current {
      HandlesKept(json, inputs[..n]);
      KeptWasFresh(json, inputs[..n]);
      var i :| 0 <= i < n && Fresh(json, inputs[..n][i], p.current.value);
      assert Fresh(json, inputs[i], p.current.value);
    } else {
      assert Fresh(json, inputs[n], p.current.value);
    }
  }

  function FingerprintOf(json: seq<Shape> -> string, input: Input): string {
    Fingerprint(json, Shapes(input.project, input.installed), input.installed)
  }

  /** What is kept carries the last reading's fingerprint, and is what that request was served. */
  lemma {:induction false} KeptIsLast(json: seq<Shape> -> string, inputs: seq<Input>)
    requires inputs != []
    ensures var k := |inputs| - 1;
            After(json, inputs).current == Some(Served(json, inputs, k)) && Served(json, inputs, k).fingerprint == FingerprintOf(json, inputs[k])
  {
  }

  /** One backend is opened and one auth built, whatever is read. */
  lemma {:induction false} OneBackendOneAuth(json: seq<Shape> -> string, inputs: seq<Input>, k: nat)
    requires k < |inputs|
    ensures Served(json, inputs, k).backend == 0 && Served(json, inputs, k).auth == 0
    ensures After(json, inputs[..k + 1]).openings == 1 && After(json, inputs[..k + 1]).builds == 1
  {
    HandlesKept(json, inputs[..k + 1]);
    KeptIsLast(json, inputs[..k + 1]);
    assert inputs[..k + 1][..k] == inputs[..k] && inputs[..k + 1][k] == inputs[k];
  }

  /** Two readings the fingerprint takes for one agree on whether auth is installed. */
  ghost predicate Agree(a: Input, b: Input) {
    Shapes(a.project, a.installed) == Shapes(b.project, b.installed) && Join(a.installed, ",") == Join(b.installed, ",") ==>
      (AUTH in a.installed <==> AUTH in b.installed)
  }

  /** Bundle lists of proper slugs always agree: their joined text tells them apart. */
  lemma {:induction false} SlugsAgree(a: Input, b: Input)
    requires Slugs(a.installed) && Slugs(b.installed)
    ensures Agree(a, b)
  {
    if Join(a.installed, ",") == Join(b.installed, ",") {
      JoinedInjective(a.installed, b.installed);
    }
  }

  /** A process that keeps what is fresh for `a` serves `b` afresh exactly when the two agree. */
  lemma {:induction false} KeptServesIff(json: seq<Shape> -> string, p: Process, a: Input, b: Input)
    requires Delimited(json) && p.current.Some? && Fresh(json, a, p.current.value)
    ensures Fresh(json, b, Grounded(json, p, b).1) <==> Agree(a, b)
  {
    if FingerprintOf(json, a) == FingerprintOf(json, b) {
      TakenForOne(json, a, b);
    }
  }

  /** What a request is served after one that was served afresh. */
  lemma {:induction false} NextFreshIff(json: seq<Shape> -> string, inputs: seq<Input>, k: nat)
    requires 0 < k < |inputs| && Delimited(json)
    requires Fresh(json, inputs[k - 1], Served(json, inputs, k - 1))
    ensures Fresh(json, inputs[k], Served(json, inputs, k)) <==> Agree(inputs[k - 1], inputs[k])
  {
    KeptIsLast(json, inputs[..k]);
    assert inputs[..k][..k - 1] == inputs[..k - 1] && inputs[..k][k - 1] == inputs[k - 1];
    assert After(json, inputs[..k]).current == Some(Served(json, inputs, k - 1));
    KeptServesIff(json, After(json, inputs[..k]), inputs[k - 1], inputs[k]);
  }

  /** Readings under one fingerprint share their shapes and their joined slugs. */
  lemma {:induction false} TakenForOne(json: seq<Shape> -> string, a: Input, b: Input)
    requires Delimited(json) && FingerprintOf(json, a) == FingerprintOf(json, b)
    ensures Shapes(a.project, a.installed) == Shapes(b.project, b.installed) && Join(a.installed, ",") == Join(b.installed, ",")
  {
    FingerprintTellsShapes(json, Shapes(a.project, a.installed), a.installed, Shapes(b.project, b.installed), b.installed);
  }

  ghost predicate AllFresh(json: seq<Shape> -> string, inputs: seq<Input>) {
    forall k :: 0 <= k < |inputs| ==> Fresh(json, inputs[k], Served(json, inputs, k))
  }

  ghost predicate AllAgree(inputs: seq<Input>) {
    forall k :: 0 < k < |inputs| ==> Agree(inputs[k - 1], inputs[k])
  }

  /**
   * In every run of requests and edits between them over readings that agree, each request is served
   * exactly what grounding its own reading from scratch would give.
   */
  lemma {:induction false} CacheAgreesWithFresh(json: seq<Shape> -> string, inputs: seq<Input>, k: nat)
    requires Delimited(json) && k < |inputs| && AllAgree(inputs)
    ensures Fresh(json, inputs[k], Served(json, inputs, k))
  {
    if k == 0 {
      assert inputs[..0] == [];
    } else {
      CacheAgreesWithFresh(json, inputs, k - 1);
      NextFreshIff(json, inputs, k);
    }
  }

  /**
   * Every request of a run is served what grounding its own reading would give exactly when no two
   * readings in a row share their shapes and their joined slugs but not whether auth is installed.
   */
  lemma {:induction false} AllFreshIff(json: seq<Shape> -> string, inputs: seq<Input>)
    requires Delimited(json)
    ensures AllFresh(json, inputs) <==> AllAgree(inputs)
  {
    if AllAgree(inputs) {
      forall k | 0 <= k < |inputs|
        ensures Fresh(json, inputs[k], Served(json, inputs, k))
      {
        CacheAgreesWithFresh(json, inputs, k);
      }
    }
    if AllFresh(json, inputs) {
      forall k | 0 < k < |inputs|
        ensures Agree(inputs[k - 1], inputs[k])
      {
        assert Fresh(json, inputs[k - 1], Served(json, inputs, k - 1));
        NextFreshIff(json, inputs, k);
      }
    }
  }

  /** A request re-syncs nothing exactly when it reads the shapes and the joined slugs the last one read. */
  lemma {:induction false} SameReadingSyncsNothing(json: seq<Shape> -> string, inputs: seq<Input>, input: Input)
    requires inputs != [] && Delimited(json)
    ensures var last := inputs[|inputs| - 1];
            After(json, inputs + [input]).synced
            == After(json, inputs).synced
               + if Shapes(last.project, last.installed) == Shapes(input.project, input.installed) && Join(last.installed, ",") == Join(input.installed, ",")
                 then 0 else 1
  {
    var last := inputs[|inputs| - 1];
    KeptIsLast(json, inputs);
    assert (inputs + [input])[..|inputs|] == inputs;
    if FingerprintOf(json, last) == FingerprintOf(json, input) {
      FingerprintTellsShapes(json, Shapes(last.project, last.installed), last.installed, Shapes(input.project, input.installed), input.installed);
    }
  }

  /** A slug with a comma is read as two: removing it serves a project with auth that has none. */
  lemma {:induction false} CommaSlugsCollide(json: seq<Shape> -> string)
    ensures var empty := Project([], [], [], [], []);
            var inputs := [Input(empty, ["x", "auth"]), Input(empty, ["x,auth"])];
            !Fresh(json, inputs[1], Served(json, inputs, 1)) && Served(json, inputs, 1).authInstalled
  {
    var empty := Project([], [], [], [], []);
    var inputs := [Input(empty, ["x", "auth"]), Input(empty, ["x,auth"])];
    assert ["x", "auth"][1..] == ["auth"];
    assert "x" + "," + "auth" == "x,auth";
    assert Join(["x", "auth"], ",") == "x,auth" == Join(["x,auth"], ",");
    assert Shapes(empty, ["x", "auth"]) == [] == Shapes(empty, ["x,auth"]);
    assert inputs[..1][..0] == [];
    assert inputs[..1][0] == inputs[0];
    assert "auth" in ["x", "auth"] by { assert ["x", "auth"][1] == "auth"; }
    assert "auth" !in ["x,auth"] by { assert |"auth"| != |"x,auth"|; }
  }
}
