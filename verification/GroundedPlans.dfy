/**
 * All-or-nothing grounding of portals, live channels, importers and list actions: field ids become
 * column names, and a declaration that names a missing field is dropped whole.
 * Models groundPortals, groundLive, groundImporters and groundActions of apps/web/app/spec-sprout.ts.
 */
module GroundedPlans {
  import opened Collections
  import opened Spec

  // ---------------------------------------------------------------------------
  // Looking up a field
  // ---------------------------------------------------------------------------

  /** `new Map(fields.map(f => [f.id, f]))`: of two fields with one id the last stays. */
  function ById(view: seq<Field>): map<string, Field> {
    if view == [] then map[] else ById(view[..|view| - 1])[view[|view| - 1].id := view[|view| - 1]]
  }

  lemma {:induction false} ByIdSpec(view: seq<Field>)
    ensures forall id :: id in ById(view) ==> ById(view)[id] in view && ById(view)[id].id == id
    ensures forall f :: f in view ==> f.id in ById(view)
  {
    if view != [] {
      ByIdSpec(view[..|view| - 1]);
      assert view == view[..|view| - 1] + [view[|view| - 1]];
    }
  }

  /** The last field of the view that has the id. */
  ghost predicate LastWith(view: seq<Field>, k: nat, id: string) {
    k < |view| && view[k].id == id && forall j :: k < j < |view| ==> view[j].id != id
  }

  lemma {:induction false} ByIdIsLast(view: seq<Field>, id: string)
    ensures id in ById(view) <==> exists k: nat :: LastWith(view, k, id)
    ensures forall k: nat :: LastWith(view, k, id) ==> id in ById(view) && ById(view)[id] == view[k]
  {
    if view != [] {
      var n := |view| - 1;
      var rest := view[..n];
      ByIdIsLast(rest, id);
      if view[n].id == id {
        assert LastWith(view, n, id);
      } else {
        forall k: nat
          ensures LastWith(view, k, id) <==> LastWith(rest, k, id)
        {
        }
      }
    }
  }

  /** A field id stands for the column of the last field that has it, when that field has a name. */
  lemma {:induction false} ColumnIff(view: seq<Field>, id: string, column: string)
    ensures ColumnOf(view)(id) == Some(column) <==> column != "" && exists k: nat :: LastWith(view, k, id) && view[k].name == column
  {
    ByIdIsLast(view, id);
  }

  /** The column of a field; an empty name reads as a missing one. */
  function ColumnOf(view: seq<Field>): string -> Option<string> {
    (id: string) => if id in ById(view) && ById(view)[id].name != "" then Some(ById(view)[id].name) else None
  }

  /** A field id the runtime can name a column for. */
  predicate Resolves(view: seq<Field>, id: string) {
    ColumnOf(view)(id).Some?
  }

  predicate ResolveAll(view: seq<Field>, ids: seq<string>) {
    forall i :: 0 <= i < |ids| ==> Resolves(view, ids[i])
  }

  /** When every field is named, resolving is being a field of the view. */
  lemma {:induction false} ResolvesIff(view: seq<Field>, id: string)
    requires forall f :: f in view ==> f.name != ""
    ensures Resolves(view, id) <==> exists f :: f in view && f.id == id
  {
    ByIdSpec(view);
  }

  method Columns(view: seq<Field>, ids: seq<string>) returns (out: Option<seq<string>>)
    ensures out == Traverse(ids, ColumnOf(view))
  {
    var names: seq<string> := [];
    var byId := ById(view);
    assert ids[0..] == ids;
    for i := 0 to |ids|
      invariant Traverse(ids, ColumnOf(view)) == Prepend(names, Traverse(ids[i..], ColumnOf(view)))
    {
      if ids[i] !in byId || byId[ids[i]].name == "" {
        return None;
      }
      TraverseStep(ids, i, names, ColumnOf(view));
      names := names + [byId[ids[i]].name];
    }
    assert ids[|ids|..] == [];
    out := Some(names);
  }

  // ---------------------------------------------------------------------------
  // Portals
  // ---------------------------------------------------------------------------

  datatype Audience = Public | TokenHolder | RoleHolder

  datatype PortalScope = RowScope | CollectionScope

  datatype Portal = Portal(key: string, entityId: string, audience: Audience, scope: PortalScope, readFields: seq<string>,
                           filter: Option<RowFilter>, writes: seq<PortalWrite>, paused: bool, accepted: bool)

  datatype PortalWrite = PortalWrite(action: string, fieldIds: seq<string>, rateLimitPerHour: nat)

  datatype PlanWrite = PlanWrite(action: string, fields: seq<string>, rateLimitPerHour: nat)

  datatype ColumnBound = ColumnBound(field: string, equals: Cell)

  datatype PortalPlan = PortalPlan(key: string, resource: string, audience: Audience, scope: PortalScope,
                                   readFields: seq<string>, titleField: Option<string>, writes: seq<PlanWrite>,
                                   filter: Option<ColumnBound>, paused: bool)

  /** A record's display field: a text column that is no reference, `name` first, then `title`. */
  function PickTitleField(fields: seq<Field>): Option<string> {
    var candidates := Filter(fields, (f: Field) => f.kind.StringType? && f.reference == "");
    if Find(candidates, (f: Field) => f.name == "name").Some? then Some("name")
    else if Find(candidates, (f: Field) => f.name == "title").Some? then Some("title")
    else if candidates != [] then Some(candidates[0].name) else None
  }

  function TitleOf(view: seq<Field>, readFields: seq<string>): Option<string> {
    var picked := PickTitleField(Filter(view, (f: Field) => f.name in readFields));
    if picked == Some("") then None else picked
  }

  function GroundWrite(view: seq<Field>): PortalWrite -> Option<PlanWrite> {
    (w: PortalWrite) => match Traverse(w.fieldIds, ColumnOf(view))
      case None => None
      case Some(fields) => Some(PlanWrite(w.action, fields, w.rateLimitPerHour))
  }

  function GroundPortal(entity: Entity, portal: Portal): Option<PortalPlan> {
    var view := View(entity);
    var readFields := Traverse(portal.readFields, ColumnOf(view));
    var writes := Traverse(portal.writes, GroundWrite(view));
    if readFields.None? || readFields.value == [] then None
    else if portal.filter.Some? && !Resolves(view, portal.filter.value.field) then None
    else if portal.filter.None? && portal.scope.CollectionScope? then None
    else if writes.None? then None
    else Some(PortalPlan(portal.key, ResourceName(entity.id), portal.audience, portal.scope, readFields.value,
                         TitleOf(view, readFields.value), writes.value,
                         if portal.filter.None? then None
                         else Some(ColumnBound(ColumnOf(view)(portal.filter.value.field).value, portal.filter.value.equals)),
                         portal.paused))
  }

  function PortalPlanOf(entity: Entity): Portal -> Option<PortalPlan> {
    (p: Portal) => GroundPortal(entity, p)
  }

  /** The portals that may ground over an entity: accepted only, never the fallback. */
  function DeclaredPortals(portals: seq<Portal>, entity: Entity): seq<Portal> {
    Filter(portals, (p: Portal) => p.entityId == entity.id && p.accepted)
  }

  /** What a loop collects, an empty collection being absent. */
  function NonEmpty<T>(plans: seq<T>): Option<seq<T>> {
    if plans == [] then None else Some(plans)
  }

  /** What is served of a list of declarations: the plan of each that grounds, and nothing at all when none does. */
  lemma {:induction false} ServedIff<A, B>(declared: seq<A>, plan: A -> Option<B>, b: B)
    ensures var out := NonEmpty(FilterMap(declared, plan));
            && (out.Some? && b in out.value <==> exists d :: d in declared && plan(d) == Some(b))
            && (out.None? <==> forall d :: d in declared ==> plan(d).None?)
  {
    FilterMapMember(declared, plan, b);
    var out := FilterMap(declared, plan);
    if out == [] {
      forall d | d in declared
        ensures plan(d).None?
      {
        if plan(d).Some? {
          FilterMapMember(declared, plan, plan(d).value);
        }
      }
    } else {
      FilterMapMember(declared, plan, out[0]);
    }
  }

  method GroundWrites(view: seq<Field>, declared: seq<PortalWrite>) returns (out: Option<seq<PlanWrite>>)
    ensures out == Traverse(declared, GroundWrite(view))
  {
    var writes: seq<PlanWrite> := [];
    var dropped := false;
    var i := 0;
    assert declared[0..] == declared;
    while i < |declared|
      invariant 0 <= i <= |declared| && !dropped
      invariant Traverse(declared, GroundWrite(view)) == Prepend(writes, Traverse(declared[i..], GroundWrite(view)))
    {
      var fields := Columns(view, declared[i].fieldIds);
      if fields.None? {
        dropped := true;
        break;
      }
      TraverseStep(declared, i, writes, GroundWrite(view));
      writes := writes + [PlanWrite(declared[i].action, fields.value, declared[i].rateLimitPerHour)];
      i := i + 1;
    }
    if dropped {
      return None;
    }
    assert declared[|declared|..] == [];
    out := Some(writes);
  }

  method GroundPortals(portals: seq<Portal>, entity: Entity) returns (out: Option<seq<PortalPlan>>)
    ensures out == NonEmpty(FilterMap(DeclaredPortals(portals, entity), PortalPlanOf(entity)))
  {
    var declared := DeclaredPortals(portals, entity);
    if declared == [] {
      return None;
    }
    var view := View(entity);
    ghost var plan := PortalPlanOf(entity);
    var plans: seq<PortalPlan> := [];
    var i := 0;
    while i < |declared|
      invariant 0 <= i <= |declared|
      invariant plans == FilterMap(declared[..i], plan)
    {
      FilterMapStep(declared, i, plan);
      var portal := declared[i];
      i := i + 1;
      var readFields := Columns(view, portal.readFields);
      if readFields.None? || readFields.value == [] { continue; }
      var bound: Option<ColumnBound> := None;
      if portal.filter.Some? {
        var field := ColumnOf(view)(portal.filter.value.field);
        if field.None? { continue; }
        bound := Some(ColumnBound(field.value, portal.filter.value.equals));
      } else if portal.scope.CollectionScope? {
        continue;
      }
      var writes := GroundWrites(view, portal.writes);
      if writes.None? { continue; }
      plans := plans + [PortalPlan(portal.key, ResourceName(entity.id), portal.audience, portal.scope, readFields.value,
                                   TitleOf(view, readFields.value), writes.value, bound, portal.paused)];
    }
    assert declared[..|declared|] == declared;
    out := if plans == [] then None else Some(plans);
  }

  /** Everything a portal needs to ground. */
  ghost predicate PortalComplete(entity: Entity, portal: Portal) {
    && portal.readFields != [] && ResolveAll(View(entity), portal.readFields)
    && (portal.filter.Some? ==> Resolves(View(entity), portal.filter.value.field))
    && (portal.scope.CollectionScope? ==> portal.filter.Some?)
    && forall i :: 0 <= i < |portal.writes| ==> ResolveAll(View(entity), portal.writes[i].fieldIds)
  }

  lemma {:induction false} PortalGroundsIff(entity: Entity, portal: Portal)
    ensures GroundPortal(entity, portal).Some? <==> PortalComplete(entity, portal)
  {
    var view := View(entity);
    assert forall w: PortalWrite :: GroundWrite(view)(w).Some? <==> ResolveAll(view, w.fieldIds);
  }

  lemma {:induction false} TitleIsExposed(view: seq<Field>, readFields: seq<string>)
    ensures TitleOf(view, readFields).Some? ==>
              exists f :: f in view && f.name in readFields && Some(f.name) == TitleOf(view, readFields)
                       && f.kind.StringType? && f.reference == ""
  {
    var exposed := (f: Field) => f.name in readFields;
    var text := (f: Field) => f.kind.StringType? && f.reference == "";
    var shown := Filter(view, exposed);
    var candidates := Filter(shown, text);
    forall f | f in candidates
      ensures f in view && f.name in readFields && f.kind.StringType? && f.reference == ""
    {
      FilterMember(shown, text, f);
      FilterMember(view, exposed, f);
    }
    FindSpec(candidates, (f: Field) => f.name == "name");
    FindSpec(candidates, (f: Field) => f.name == "title");
    if TitleOf(view, readFields).Some? {
      var f := if Find(candidates, (f: Field) => f.name == "name").Some? then Find(candidates, (f: Field) => f.name == "name").value
               else if Find(candidates, (f: Field) => f.name == "title").Some? then Find(candidates, (f: Field) => f.name == "title").value
               else candidates[0];
      assert f in candidates && Some(f.name) == TitleOf(view, readFields);
    }
  }

  /** A text field that is no reference. */
  predicate PlainText(f: Field) {
    f.kind == StringType && f.reference == ""
  }

  /**
   * The display field of an entity: `name` if a text field that is no reference is called so, else `title` if
   * one is, else the first such field's name, and none without one.
   */
  lemma {:induction false} PickTitleIs(fields: seq<Field>)
    ensures (exists f :: f in fields && PlainText(f) && f.name == "name") ==> PickTitleField(fields) == Some("name")
    ensures (forall f :: f in fields && PlainText(f) ==> f.name != "name") && (exists f :: f in fields && PlainText(f) && f.name == "title") ==>
              PickTitleField(fields) == Some("title")
    ensures (forall f :: f in fields && PlainText(f) ==> f.name != "name" && f.name != "title") ==>
              && ((forall f :: f in fields ==> !PlainText(f)) ==> PickTitleField(fields) == None)
              && forall k: nat :: (k < |fields| && PlainText(fields[k]) && forall j :: 0 <= j < k ==> !PlainText(fields[j])) ==>
                                    PickTitleField(fields) == Some(fields[k].name)
  {
    var text := (f: Field) => f.kind.StringType? && f.reference == "";
    var candidates := Filter(fields, text);
    forall f
      ensures f in candidates <==> f in fields && PlainText(f)
    {
      FilterMember(fields, text, f);
    }
    FindSpec(candidates, (f: Field) => f.name == "name");
    FindSpec(candidates, (f: Field) => f.name == "title");
    forall k: nat | k < |fields| && PlainText(fields[k]) && forall j :: 0 <= j < k ==> !PlainText(fields[j])
      ensures candidates != [] && candidates[0] == fields[k]
    {
      FirstOf(fields, text, k);
    }
    assert candidates == [] || candidates[0] in candidates;
  }

  /** The exposed text columns: what a title may be picked from. */
  ghost predicate CanTitle(view: seq<Field>, readFields: seq<string>, f: Field) {
    f in view && f.name in readFields && f.kind.StringType? && f.reference == ""
  }

  lemma {:induction false} FirstOf<T>(s: seq<T>, p: T -> bool, k: nat)
    requires k < |s| && p(s[k]) && forall j :: 0 <= j < k ==> !p(s[j])
    ensures Filter(s, p) != [] && Filter(s, p)[0] == s[k]
  {
    if k > 0 {
      FirstOf(s[1..], p, k - 1);
    }
  }

  /**
   * The title column: `name` when an exposed text column is called so, else `title` when one is, else the
   * first exposed text column of the view; none when there is no such column or its name is empty.
   */
  lemma {:induction false} TitleIs(view: seq<Field>, readFields: seq<string>)
    ensures var titled := (name: string) => exists f :: CanTitle(view, readFields, f) && f.name == name;
            && (titled("name") ==> TitleOf(view, readFields) == Some("name"))
            && (!titled("name") && titled("title") ==> TitleOf(view, readFields) == Some("title"))
            && (!titled("name") && !titled("title") ==>
                  && (forall k: nat :: (k < |view| && CanTitle(view, readFields, view[k])
                                        && forall j :: 0 <= j < k ==> !CanTitle(view, readFields, view[j])) ==>
                          TitleOf(view, readFields) == if view[k].name == "" then None else Some(view[k].name))
                  && ((forall f :: !CanTitle(view, readFields, f)) ==> TitleOf(view, readFields) == None))
  {
    var exposed := (f: Field) => f.name in readFields;
    var text := (f: Field) => f.kind.StringType? && f.reference == "";
    var both := (f: Field) => f.name in readFields && f.kind.StringType? && f.reference == "";
    var candidates := Filter(Filter(view, exposed), text);
    FilterTwice(view, exposed, text, both);
    forall f
      ensures f in candidates <==> CanTitle(view, readFields, f)
    {
      FilterMember(view, both, f);
    }
    FindSpec(candidates, (f: Field) => f.name == "name");
    FindSpec(candidates, (f: Field) => f.name == "title");
    forall k: nat | k < |view| && CanTitle(view, readFields, view[k]) && forall j :: 0 <= j < k ==> !CanTitle(view, readFields, view[j])
      ensures candidates != [] && candidates[0] == view[k]
    {
      assert forall j :: 0 <= j < k ==> view[j] in view;
      FirstOf(view, both, k);
    }
    assert candidates == [] || CanTitle(view, readFields, candidates[0]);
  }

  /**
   * A grounded portal: its key, audience, scope and pause as declared, over its entity's resource; every id
   * replaced by its column, in order; a collection has its bound; the
   * title column, when there is one, is a text column of the view among the exposed ones.
   */
  lemma {:induction false} PortalSound(entity: Entity, portal: Portal)
    requires GroundPortal(entity, portal).Some?
    ensures var plan := GroundPortal(entity, portal).value;
            var view := View(entity);
            && plan.key == portal.key && plan.resource == ResourceName(entity.id)
            && plan.audience == portal.audience && plan.scope == portal.scope && plan.paused == portal.paused
            && plan.titleField == TitleOf(view, plan.readFields)
            && |plan.readFields| == |portal.readFields|
            && (forall i :: 0 <= i < |plan.readFields| ==> ColumnOf(view)(portal.readFields[i]) == Some(plan.readFields[i]))
            && (plan.scope.CollectionScope? ==> plan.filter.Some?)
            && (plan.filter.Some? <==> portal.filter.Some?)
            && (plan.filter.Some? ==>
                  && ColumnOf(view)(portal.filter.value.field) == Some(plan.filter.value.field)
                  && plan.filter.value.equals == portal.filter.value.equals)
            && |plan.writes| == |portal.writes|
            && (forall i :: 0 <= i < |plan.writes| ==>
                  && plan.writes[i].action == portal.writes[i].action
                  && plan.writes[i].rateLimitPerHour == portal.writes[i].rateLimitPerHour
                  && |plan.writes[i].fields| == |portal.writes[i].fieldIds|
                  && forall j :: 0 <= j < |plan.writes[i].fields| ==>
                       ColumnOf(view)(portal.writes[i].fieldIds[j]) == Some(plan.writes[i].fields[j]))
            && (plan.titleField.Some? ==>
                  && plan.titleField.value in plan.readFields
                  && exists f :: f in view && f.name == plan.titleField.value && f.kind.StringType? && f.reference == "")
  {
    TitleIsExposed(View(entity), GroundPortal(entity, portal).value.readFields);
  }

  /** The grounded portals are the complete declarations, in declaration order. */
  lemma {:induction false} PortalsKept(portals: seq<Portal>, entity: Entity)
    ensures Map(FilterMap(DeclaredPortals(portals, entity), PortalPlanOf(entity)), (p: PortalPlan) => p.key)
            == Map(Filter(DeclaredPortals(portals, entity), (p: Portal) => PortalComplete(entity, p)), (p: Portal) => p.key)
  {
    forall p | p in DeclaredPortals(portals, entity)
      ensures GroundPortal(entity, p).Some? <==> PortalComplete(entity, p)
    {
      PortalGroundsIff(entity, p);
    }
    KeptInOrder(DeclaredPortals(portals, entity), PortalPlanOf(entity), (p: Portal) => PortalComplete(entity, p),
                (p: Portal) => p.key, (p: PortalPlan) => p.key);
  }

  /** A portal is served exactly when it is accepted, over the entity, and grounds; without one there is no list at all. */
  lemma {:induction false} PortalsServed(declared: seq<Portal>, entity: Entity, plan: PortalPlan)
    ensures var out := NonEmpty(FilterMap(DeclaredPortals(declared, entity), PortalPlanOf(entity)));
            && (out.Some? && plan in out.value <==>
                  exists d :: d in declared && d.entityId == entity.id && d.accepted && GroundPortal(entity, d) == Some(plan))
            && (out.None? <==> forall d :: d in declared && d.entityId == entity.id && d.accepted ==> GroundPortal(entity, d).None?)
  {
    var kept := DeclaredPortals(declared, entity);
    forall d
      ensures d in kept <==> d in declared && d.entityId == entity.id && d.accepted
    {
      FilterMember(declared, (p: Portal) => p.entityId == entity.id && p.accepted, d);
    }
    ServedIff(kept, PortalPlanOf(entity), plan);
    assert forall d :: PortalPlanOf(entity)(d) == GroundPortal(entity, d);
  }

  // ---------------------------------------------------------------------------
  // Live channels
  // ---------------------------------------------------------------------------

  datatype LiveKind = QueryKind | PresenceKind

  datatype LiveScope = LiveRow | LiveFiltered(field: string) | LiveAll

  datatype Subscription = Subscription(key: string, entityId: string, kind: LiveKind, fields: seq<string>, scope: LiveScope,
                                       maxSubscribers: nat, maxMessagesPerMinute: nat, paused: bool, accepted: bool)

  /** A grounded channel: `fields` and a filtered scope name columns. */
  datatype LivePlan = LivePlan(key: string, resource: string, kind: LiveKind, fields: seq<string>, scope: LiveScope,
                               maxSubscribers: nat, maxMessagesPerMinute: nat, paused: bool)

  function GroundScope(view: seq<Field>, scope: LiveScope): Option<LiveScope> {
    if scope.LiveFiltered? then
      match ColumnOf(view)(scope.field) case None => None case Some(column) => Some(LiveFiltered(column))
    else Some(scope)
  }

  function GroundChannel(entity: Entity, sub: Subscription): Option<LivePlan> {
    var fields := Traverse(sub.fields, ColumnOf(View(entity)));
    var scope := GroundScope(View(entity), sub.scope);
    if fields.None? || scope.None? then None
    else Some(LivePlan(sub.key, ResourceName(entity.id), sub.kind, fields.value, scope.value, sub.maxSubscribers,
                       sub.maxMessagesPerMinute, sub.paused))
  }

  function LivePlanOf(entity: Entity): Subscription -> Option<LivePlan> {
    (s: Subscription) => GroundChannel(entity, s)
  }

  /** The channels that may ground over an entity: the accepted-or-all rule is applied before the entity is. */
  function DeclaredChannels(subs: seq<Subscription>, entity: Entity): seq<Subscription> {
    Filter(AcceptedOrAll(subs, (s: Subscription) => s.accepted), (s: Subscription) => s.entityId == entity.id)
  }

  method GroundLive(subs: seq<Subscription>, entity: Entity) returns (out: Option<seq<LivePlan>>)
    ensures out == NonEmpty(FilterMap(DeclaredChannels(subs, entity), LivePlanOf(entity)))
  {
    var declared := DeclaredChannels(subs, entity);
    if declared == [] {
      return None;
    }
    var plans := GroundChannels(declared, entity);
    out := if plans == [] then None else Some(plans);
  }

  /** The loop over an entity's channels. */
  method GroundChannels(declared: seq<Subscription>, entity: Entity) returns (plans: seq<LivePlan>)
    ensures plans == FilterMap(declared, LivePlanOf(entity))
  {
    var view := View(entity);
    plans := [];
    var i := 0;
    while i < |declared|
      invariant 0 <= i <= |declared|
      invariant plans == FilterMap(declared[..i], LivePlanOf(entity))
    {
      var sub := declared[i];
      FilterMapStep(declared, i, LivePlanOf(entity));
      assert LivePlanOf(entity)(sub) == GroundChannel(entity, sub);
      i := i + 1;
      var fields := Columns(view, sub.fields);
      if fields.None? { continue; }
      var scope := sub.scope;
      if sub.scope.LiveFiltered? {
        var field := ColumnOf(view)(sub.scope.field);
        if field.None? { continue; }
        scope := LiveFiltered(field.value);
      }
      assert GroundScope(view, sub.scope) == Some(scope);
      plans := plans + [LivePlan(sub.key, ResourceName(entity.id), sub.kind, fields.value, scope, sub.maxSubscribers,
                                 sub.maxMessagesPerMinute, sub.paused)];
    }
    assert declared[..|declared|] == declared;
  }

  /** Everything a channel needs to ground. */
  ghost predicate ChannelComplete(entity: Entity, sub: Subscription) {
    ResolveAll(View(entity), sub.fields) && (sub.scope.LiveFiltered? ==> Resolves(View(entity), sub.scope.field))
  }

  /**
   * A channel grounds exactly when its columns and its bound resolve; grounded, it is bounded by
   * the column of the declared field, never by less.
   */
  lemma {:induction false} ChannelGroundsIff(entity: Entity, sub: Subscription)
    ensures GroundChannel(entity, sub).Some? <==> ChannelComplete(entity, sub)
    ensures GroundChannel(entity, sub).Some? ==>
            var plan := GroundChannel(entity, sub).value;
            && plan.key == sub.key && plan.resource == ResourceName(entity.id) && plan.kind == sub.kind && plan.paused == sub.paused
            && plan.maxSubscribers == sub.maxSubscribers && plan.maxMessagesPerMinute == sub.maxMessagesPerMinute
            && |plan.fields| == |sub.fields|
            && (forall i :: 0 <= i < |plan.fields| ==> ColumnOf(View(entity))(sub.fields[i]) == Some(plan.fields[i]))
            && (sub.scope.LiveFiltered? <==> plan.scope.LiveFiltered?)
            && (sub.scope.LiveFiltered? ==> ColumnOf(View(entity))(sub.scope.field) == Some(plan.scope.field))
            && (!sub.scope.LiveFiltered? ==> plan.scope == sub.scope)
  {
    assert Traverse(sub.fields, ColumnOf(View(entity))).Some? <==> ResolveAll(View(entity), sub.fields);
  }

  /** The grounded channels are the complete declarations, in declaration order. */
  lemma {:induction false} ChannelsKept(subs: seq<Subscription>, entity: Entity)
    ensures Map(FilterMap(DeclaredChannels(subs, entity), LivePlanOf(entity)), (p: LivePlan) => p.key)
            == Map(Filter(DeclaredChannels(subs, entity), (s: Subscription) => ChannelComplete(entity, s)), (s: Subscription) => s.key)
  {
    forall s | s in DeclaredChannels(subs, entity)
      ensures GroundChannel(entity, s).Some? <==> ChannelComplete(entity, s)
    {
      ChannelGroundsIff(entity, s);
    }
    KeptInOrder(DeclaredChannels(subs, entity), LivePlanOf(entity), (s: Subscription) => ChannelComplete(entity, s),
                (s: Subscription) => s.key, (p: LivePlan) => p.key);
  }

  /** A channel is served exactly when it is over the entity, grounds, and is accepted or no channel of the spec is. */
  lemma {:induction false} ChannelsServed(declared: seq<Subscription>, entity: Entity, plan: LivePlan)
    ensures var out := NonEmpty(FilterMap(DeclaredChannels(declared, entity), LivePlanOf(entity)));
            && (out.Some? && plan in out.value <==>
                  exists d :: d in declared && d.entityId == entity.id && (d.accepted || forall x :: x in declared ==> !x.accepted) && GroundChannel(entity, d) == Some(plan))
            && (out.None? <==> forall d :: d in declared && d.entityId == entity.id && (d.accepted || forall x :: x in declared ==> !x.accepted) ==> GroundChannel(entity, d).None?)
  {
    var kept := DeclaredChannels(declared, entity);
    forall d
      ensures d in kept <==> d in declared && d.entityId == entity.id && (d.accepted || forall x :: x in declared ==> !x.accepted)
    {
      Spec.AcceptedOrAllSpec(declared, (s: Subscription) => s.accepted);
      FilterMember(AcceptedOrAll(declared, (s: Subscription) => s.accepted), (s: Subscription) => s.entityId == entity.id, d);
    }
    ServedIff(kept, LivePlanOf(entity), plan);
    assert forall d :: LivePlanOf(entity)(d) == GroundChannel(entity, d);
  }

  // ---------------------------------------------------------------------------
  // Importers
  // ---------------------------------------------------------------------------

  datatype ImportColumn = ImportColumn(column: string, fieldId: string)

  datatype Importer = Importer(key: string, entityId: string, columns: seq<ImportColumn>, upsertFieldId: Option<string>,
                               maxRows: nat, paused: bool)

  datatype PlanColumn = PlanColumn(column: string, field: string, kind: FieldType)

  datatype ImportPlan = ImportPlan(key: string, resource: string, columns: seq<PlanColumn>, upsertColumn: Option<string>,
                                   maxRows: nat, paused: bool)

  function GroundColumn(view: seq<Field>): ImportColumn -> Option<PlanColumn> {
    (c: ImportColumn) =>
      if c.fieldId in ById(view) then Some(PlanColumn(c.column, ById(view)[c.fieldId].name, ById(view)[c.fieldId].kind)) else None
  }

  function GroundImporter(entity: Entity, importer: Importer): Option<ImportPlan> {
    var view := View(entity);
    var columns := Traverse(importer.columns, GroundColumn(view));
    if columns.None? || columns.value == [] then None
    else if importer.upsertFieldId.Some? && importer.upsertFieldId.value !in ById(view) then None
    else Some(ImportPlan(importer.key, ResourceName(entity.id), columns.value,
                         if importer.upsertFieldId.None? then None else Some(ById(view)[importer.upsertFieldId.value].name),
                         importer.maxRows, importer.paused))
  }

  function ImportPlanOf(entity: Entity): Importer -> Option<ImportPlan> {
    (i: Importer) => GroundImporter(entity, i)
  }

  function DeclaredImporters(importers: seq<Importer>, entity: Entity): seq<Importer> {
    Filter(importers, (i: Importer) => i.entityId == entity.id)
  }

  method GroundImporters(importers: seq<Importer>, entity: Entity) returns (out: Option<seq<ImportPlan>>)
    ensures out == NonEmpty(FilterMap(DeclaredImporters(importers, entity), ImportPlanOf(entity)))
  {
    var declared := DeclaredImporters(importers, entity);
    if declared == [] {
      return None;
    }
    var plans := GroundDeclared(declared, entity);
    out := if plans == [] then None else Some(plans);
  }

  /** The loop over an entity's importers. */
  method GroundDeclared(declared: seq<Importer>, entity: Entity) returns (plans: seq<ImportPlan>)
    ensures plans == FilterMap(declared, ImportPlanOf(entity))
  {
    var byId := ById(View(entity));
    plans := [];
    var i := 0;
    while i < |declared|
      invariant 0 <= i <= |declared|
      invariant plans == FilterMap(declared[..i], ImportPlanOf(entity))
    {
      var importer := declared[i];
      FilterMapStep(declared, i, ImportPlanOf(entity));
      assert ImportPlanOf(entity)(importer) == GroundImporter(entity, importer);
      i := i + 1;
      var columns := ImportColumns(View(entity), importer.columns);
      if columns.None? || columns.value == [] { continue; }
      if importer.upsertFieldId.Some? && importer.upsertFieldId.value !in byId { continue; }
      var upsert := if importer.upsertFieldId.None? then None else Some(byId[importer.upsertFieldId.value].name);
      plans := plans + [ImportPlan(importer.key, ResourceName(entity.id), columns.value, upsert, importer.maxRows, importer.paused)];
    }
    assert declared[..|declared|] == declared;
  }

  /** The loop over an importer's columns: one that names no field drops them all. */
  method ImportColumns(view: seq<Field>, declared: seq<ImportColumn>) returns (out: Option<seq<PlanColumn>>)
    ensures out == Traverse(declared, GroundColumn(view))
  {
    var byId := ById(view);
    var columns: seq<PlanColumn> := [];
    assert declared[0..] == declared;
    for j := 0 to |declared|
      invariant Traverse(declared, GroundColumn(view)) == Prepend(columns, Traverse(declared[j..], GroundColumn(view)))
    {
      var c := declared[j];
      if c.fieldId !in byId {
        return None;
      }
      TraverseStep(declared, j, columns, GroundColumn(view));
      columns := columns + [PlanColumn(c.column, byId[c.fieldId].name, byId[c.fieldId].kind)];
    }
    assert declared[|declared|..] == [];
    out := Some(columns);
  }

  /** Everything an importer needs to ground. */
  ghost predicate ImporterComplete(entity: Entity, importer: Importer) {
    && importer.columns != []
    && (forall i :: 0 <= i < |importer.columns| ==> exists f :: f in View(entity) && f.id == importer.columns[i].fieldId)
    && (importer.upsertFieldId.Some? ==> exists f :: f in View(entity) && f.id == importer.upsertFieldId.value)
  }

  /**
   * An importer grounds exactly when it maps something and every field it names is in the view;
   * grounded, it upserts on the declared key's column or not at all, as declared.
   */
  lemma {:induction false} ImporterGroundsIff(entity: Entity, importer: Importer)
    ensures GroundImporter(entity, importer).Some? <==> ImporterComplete(entity, importer)
    ensures GroundImporter(entity, importer).Some? ==>
            var plan := GroundImporter(entity, importer).value;
            var view := View(entity);
            && plan.key == importer.key && plan.resource == ResourceName(entity.id)
            && plan.maxRows == importer.maxRows && plan.paused == importer.paused
            && |plan.columns| == |importer.columns|
            && (forall i :: 0 <= i < |plan.columns| ==>
                  && plan.columns[i].column == importer.columns[i].column
                  && exists k: nat :: LastWith(view, k, importer.columns[i].fieldId)
                              && view[k].name == plan.columns[i].field && view[k].kind == plan.columns[i].kind)
            && (plan.upsertColumn.Some? <==> importer.upsertFieldId.Some?)
            && (plan.upsertColumn.Some? ==>
                  exists k: nat :: LastWith(view, k, importer.upsertFieldId.value) && view[k].name == plan.upsertColumn.value)
  {
    ByIdSpec(View(entity));
    forall id
      ensures id in ById(View(entity)) ==> exists k: nat :: LastWith(View(entity), k, id) && View(entity)[k] == ById(View(entity))[id]
    {
      ByIdIsLast(View(entity), id);
    }
    var column := GroundColumn(View(entity));
    assert forall i :: 0 <= i < |importer.columns| ==>
      (column(importer.columns[i]).Some? <==> importer.columns[i].fieldId in ById(View(entity)));
  }

  /** The grounded importers are the complete declarations, in declaration order. */
  lemma {:induction false} ImportersKept(importers: seq<Importer>, entity: Entity)
    ensures Map(FilterMap(DeclaredImporters(importers, entity), ImportPlanOf(entity)), (p: ImportPlan) => p.key)
            == Map(Filter(DeclaredImporters(importers, entity), (i: Importer) => ImporterComplete(entity, i)), (i: Importer) => i.key)
  {
    forall i | i in DeclaredImporters(importers, entity)
      ensures GroundImporter(entity, i).Some? <==> ImporterComplete(entity, i)
    {
      ImporterGroundsIff(entity, i);
    }
    KeptInOrder(DeclaredImporters(importers, entity), ImportPlanOf(entity), (i: Importer) => ImporterComplete(entity, i),
                (i: Importer) => i.key, (p: ImportPlan) => p.key);
  }

  /** An importer is served exactly when it is over the entity and grounds. */
  lemma {:induction false} ImportersServed(declared: seq<Importer>, entity: Entity, plan: ImportPlan)
    ensures var out := NonEmpty(FilterMap(DeclaredImporters(declared, entity), ImportPlanOf(entity)));
            && (out.Some? && plan in out.value <==>
                  exists d :: d in declared && d.entityId == entity.id && GroundImporter(entity, d) == Some(plan))
            && (out.None? <==> forall d :: d in declared && d.entityId == entity.id ==> GroundImporter(entity, d).None?)
  {
    var kept := DeclaredImporters(declared, entity);
    forall d
      ensures d in kept <==> d in declared && d.entityId == entity.id
    {
      FilterMember(declared, (i: Importer) => i.entityId == entity.id, d);
    }
    ServedIff(kept, ImportPlanOf(entity), plan);
    assert forall d :: ImportPlanOf(entity)(d) == GroundImporter(entity, d);
  }

  // ---------------------------------------------------------------------------
  // List actions
  // ---------------------------------------------------------------------------

  datatype Assignment = Assignment(fieldId: string, value: Cell)

  /** `writes` lists an action's entries in the order they are enumerated, one per field id. */
  datatype Action = Action(key: string, entityId: string, writes: seq<Assignment>, choose: string, maxSelection: nat, accepted: bool)

  datatype Choice = Choice(column: string, options: seq<string>)

  datatype ActionPlan = ActionPlan(key: string, writes: map<string, Cell>, choose: Option<Choice>, maxSelection: nat)

  /** The columns written: of two entries naming one column the later stays. */
  function WriteSet(byId: map<string, Field>, entries: seq<Assignment>): Option<map<string, Cell>> {
    if entries == [] then Some(map[])
    else
      var last := entries[|entries| - 1];
      match WriteSet(byId, entries[..|entries| - 1])
      case None => None
      case Some(written) => if last.fieldId in byId then Some(written[byId[last.fieldId].name := last.value]) else None
  }

  function GroundChoice(byId: map<string, Field>, choose: string): Option<Option<Choice>> {
    if choose == "" then Some(None)
    else if choose in byId && byId[choose].options != [] then Some(Some(Choice(byId[choose].name, byId[choose].options)))
    else None
  }

  function GroundAction(entity: Entity, action: Action): Option<ActionPlan> {
    var byId := ById(View(entity));
    var writes, choose := WriteSet(byId, action.writes), GroundChoice(byId, action.choose);
    if writes.None? || choose.None? || (writes.value == map[] && choose.value.None?) then None
    else Some(ActionPlan(action.key, writes.value, choose.value, action.maxSelection))
  }

  function ActionPlanOf(entity: Entity): Action -> Option<ActionPlan> {
    (a: Action) => GroundAction(entity, a)
  }

  function DeclaredActions(actions: seq<Action>, entity: Entity): seq<Action> {
    Filter(actions, (a: Action) => a.accepted && a.entityId == entity.id)
  }

  lemma {:induction false} WriteSetStop(byId: map<string, Field>, entries: seq<Assignment>, j: nat)
    requires j <= |entries| && WriteSet(byId, entries[..j]).None?
    ensures WriteSet(byId, entries).None?
    decreases |entries|
  {
    if j < |entries| {
      assert entries[..|entries| - 1][..j] == entries[..j];
      WriteSetStop(byId, entries[..|entries| - 1], j);
    } else {
      assert entries[..j] == entries;
    }
  }

  method GroundEntries(byId: map<string, Field>, entries: seq<Assignment>) returns (out: Option<map<string, Cell>>)
    ensures out == WriteSet(byId, entries)
  {
    var writes: map<string, Cell> := map[];
    var dropped := false;
    var j := 0;
    while j < |entries|
      invariant 0 <= j <= |entries| && !dropped
      invariant WriteSet(byId, entries[..j]) == Some(writes)
    {
      assert entries[..j + 1][..j] == entries[..j] && entries[..j + 1][j] == entries[j];
      if entries[j].fieldId !in byId {
        WriteSetStop(byId, entries, j + 1);
        dropped := true;
        break;
      }
      writes := writes[byId[entries[j].fieldId].name := entries[j].value];
      j := j + 1;
    }
    if dropped {
      return None;
    }
    assert entries[..j] == entries;
    out := Some(writes);
  }

  method GroundActions(actions: seq<Action>, entity: Entity) returns (out: Option<seq<ActionPlan>>)
    ensures out == NonEmpty(FilterMap(DeclaredActions(actions, entity), ActionPlanOf(entity)))
  {
    var declared := DeclaredActions(actions, entity);
    if declared == [] {
      return None;
    }
    var byId := ById(View(entity));
    ghost var plan := ActionPlanOf(entity);
    var plans: seq<ActionPlan> := [];
    var i := 0;
    while i < |declared|
      invariant 0 <= i <= |declared|
      invariant plans == FilterMap(declared[..i], plan)
    {
      FilterMapStep(declared, i, plan);
      var action := declared[i];
      i := i + 1;
      var writes := GroundEntries(byId, action.writes);
      if writes.None? { continue; }
      var choose: Option<Choice> := None;
      if action.choose != "" {
        if action.choose !in byId || byId[action.choose].options == [] { continue; }
        choose := Some(Choice(byId[action.choose].name, byId[action.choose].options));
      }
      if writes.value == map[] && choose.None? { continue; }
      plans := plans + [ActionPlan(action.key, writes.value, choose, action.maxSelection)];
    }
    assert declared[..|declared|] == declared;
    out := if plans == [] then None else Some(plans);
  }

  lemma {:induction false} WriteSetIff(byId: map<string, Field>, entries: seq<Assignment>)
    ensures WriteSet(byId, entries).Some? <==> forall i :: 0 <= i < |entries| ==> entries[i].fieldId in byId
    ensures WriteSet(byId, entries).Some? ==> (WriteSet(byId, entries).value == map[] <==> entries == [])
  {
    if entries != [] {
      var n := |entries| - 1;
      WriteSetIff(byId, entries[..n]);
      assert forall i :: 0 <= i < n ==> entries[i] == entries[..n][i];
      if WriteSet(byId, entries).Some? {
        assert byId[entries[n].fieldId].name in WriteSet(byId, entries).value;
      }
    }
  }

  /** An entry names a column. */
  predicate Names(byId: map<string, Field>, entry: Assignment, column: string) {
    entry.fieldId in byId && byId[entry.fieldId].name == column
  }

  /** The columns written are those some entry names. */
  lemma {:induction false} WriteSetKeys(byId: map<string, Field>, entries: seq<Assignment>, column: string)
    requires WriteSet(byId, entries).Some?
    ensures column in WriteSet(byId, entries).value <==> exists i :: 0 <= i < |entries| && Names(byId, entries[i], column)
  {
    if entries != [] {
      var n := |entries| - 1;
      WriteSetKeys(byId, entries[..n], column);
      if column in WriteSet(byId, entries[..n]).value {
        var i :| 0 <= i < n && Names(byId, entries[..n][i], column);
        assert Names(byId, entries[i], column);
      }
      forall i | 0 <= i < n && Names(byId, entries[i], column)
        ensures column in WriteSet(byId, entries).value
      {
        assert Names(byId, entries[..n][i], column);
      }
    }
  }

  /** An entry no later entry shares its column with is written. */
  lemma {:induction false} WriteSetValue(byId: map<string, Field>, entries: seq<Assignment>, i: nat)
    requires WriteSet(byId, entries).Some? && i < |entries| && entries[i].fieldId in byId
    requires forall j :: i < j < |entries| ==> !Names(byId, entries[j], byId[entries[i].fieldId].name)
    ensures byId[entries[i].fieldId].name in WriteSet(byId, entries).value
    ensures WriteSet(byId, entries).value[byId[entries[i].fieldId].name] == entries[i].value
  {
    var n := |entries| - 1;
    if i < n {
      assert entries[..n][i] == entries[i];
      assert forall j :: i < j < n ==> entries[..n][j] == entries[j];
      WriteSetValue(byId, entries[..n], i);
      assert !Names(byId, entries[n], byId[entries[i].fieldId].name);
    }
  }

  /** Everything an action needs to ground. */
  ghost predicate ActionComplete(entity: Entity, action: Action) {
    && (forall i :: 0 <= i < |action.writes| ==> action.writes[i].fieldId in ById(View(entity)))
    && (action.choose != "" ==> action.choose in ById(View(entity)) && ById(View(entity))[action.choose].options != [])
    && (action.writes != [] || action.choose != "")
  }

  /** An action grounds exactly when every field it writes or offers is in the view and it writes something. */
  lemma {:induction false} ActionGroundsIff(entity: Entity, action: Action)
    ensures GroundAction(entity, action).Some? <==> ActionComplete(entity, action)
  {
    WriteSetIff(ById(View(entity)), action.writes);
  }

  /**
   * A grounded action: its key and cap as declared; the choice it offers is the declared field's column with
   * that field's options, and there is none when none is declared; each column its entries name holds the
   * value of the last entry that names it, and no other column is written.
   */
  lemma {:induction false} ActionSound(entity: Entity, action: Action)
    requires GroundAction(entity, action).Some?
    ensures var plan := GroundAction(entity, action).value;
            var view, byId := View(entity), ById(View(entity));
            && plan.key == action.key && plan.maxSelection == action.maxSelection
            && (plan.choose == None <==> action.choose == "")
            && (action.choose != "" ==>
                  exists k: nat :: LastWith(view, k, action.choose) && plan.choose == Some(Choice(view[k].name, view[k].options)))
            && (forall column :: column in plan.writes <==>
                  exists i :: 0 <= i < |action.writes| && Names(byId, action.writes[i], column))
            && forall i :: 0 <= i < |action.writes| && action.writes[i].fieldId in byId
                           && (forall j :: i < j < |action.writes| ==> !Names(byId, action.writes[j], byId[action.writes[i].fieldId].name)) ==>
                             && byId[action.writes[i].fieldId].name in plan.writes
                             && plan.writes[byId[action.writes[i].fieldId].name] == action.writes[i].value
  {
    var byId := ById(View(entity));
    ByIdIsLast(View(entity), action.choose);
    forall column
      ensures column in WriteSet(byId, action.writes).value <==> exists i :: 0 <= i < |action.writes| && Names(byId, action.writes[i], column)
    {
      WriteSetKeys(byId, action.writes, column);
    }
    forall i | 0 <= i < |action.writes| && action.writes[i].fieldId in byId
               && forall j :: i < j < |action.writes| ==> !Names(byId, action.writes[j], byId[action.writes[i].fieldId].name)
      ensures byId[action.writes[i].fieldId].name in WriteSet(byId, action.writes).value
      ensures WriteSet(byId, action.writes).value[byId[action.writes[i].fieldId].name] == action.writes[i].value
    {
      WriteSetValue(byId, action.writes, i);
    }
  }

  /** The grounded actions are the complete declarations, in declaration order. */
  lemma {:induction false} ActionsKept(actions: seq<Action>, entity: Entity)
    ensures Map(FilterMap(DeclaredActions(actions, entity), ActionPlanOf(entity)), (p: ActionPlan) => p.key)
            == Map(Filter(DeclaredActions(actions, entity), (a: Action) => ActionComplete(entity, a)), (a: Action) => a.key)
  {
    forall a | a in DeclaredActions(actions, entity)
      ensures GroundAction(entity, a).Some? <==> ActionComplete(entity, a)
    {
      ActionGroundsIff(entity, a);
    }
    KeptInOrder(DeclaredActions(actions, entity), ActionPlanOf(entity), (a: Action) => ActionComplete(entity, a),
                (a: Action) => a.key, (p: ActionPlan) => p.key);
  }

  /** An action is served exactly when it is accepted, over the entity, and grounds. */
  lemma {:induction false} ActionsServed(declared: seq<Action>, entity: Entity, plan: ActionPlan)
    ensures var out := NonEmpty(FilterMap(DeclaredActions(declared, entity), ActionPlanOf(entity)));
            && (out.Some? && plan in out.value <==>
                  exists d :: d in declared && d.entityId == entity.id && d.accepted && GroundAction(entity, d) == Some(plan))
            && (out.None? <==> forall d :: d in declared && d.entityId == entity.id && d.accepted ==> GroundAction(entity, d).None?)
  {
    var kept := DeclaredActions(declared, entity);
    forall d
      ensures d in kept <==> d in declared && d.entityId == entity.id && d.accepted
    {
      FilterMember(declared, (a: Action) => a.accepted && a.entityId == entity.id, d);
    }
    ServedIff(kept, ActionPlanOf(entity), plan);
    assert forall d :: ActionPlanOf(entity)(d) == GroundAction(entity, d);
  }

  /** The declared columns are pairwise different. */
  ghost predicate DistinctColumns(byId: map<string, Field>, entries: seq<Assignment>)
    requires forall i :: 0 <= i < |entries| ==> entries[i].fieldId in byId
  {
    forall i, j :: 0 <= i < j < |entries| ==> byId[entries[i].fieldId].name != byId[entries[j].fieldId].name
  }

  lemma {:induction false} WriteSetSize(byId: map<string, Field>, entries: seq<Assignment>)
    requires forall i :: 0 <= i < |entries| ==> entries[i].fieldId in byId
    ensures WriteSet(byId, entries).Some? && |WriteSet(byId, entries).value| <= |entries|
    ensures |WriteSet(byId, entries).value| == |entries| <==> DistinctColumns(byId, entries)
  {
    WriteSetIff(byId, entries);
    if entries != [] {
      var n := |entries| - 1;
      var rest := entries[..n];
      assert forall i :: 0 <= i < n ==> entries[i] == rest[i];
      WriteSetSize(byId, rest);
      var before, column := WriteSet(byId, rest).value, byId[entries[n].fieldId].name;
      WriteSetKeys(byId, rest, column);
      var after := before[column := entries[n].value];
      assert after.Keys == before.Keys + {column};
      assert |after| == |after.Keys| && |before| == |before.Keys|;
      if column in before {
        var i :| 0 <= i < n && Names(byId, rest[i], column);
        assert after.Keys == before.Keys;
        assert byId[entries[i].fieldId].name == byId[entries[n].fieldId].name;
      } else {
        assert forall i :: 0 <= i < n ==> !Names(byId, rest[i], column);
        assert DistinctColumns(byId, rest) <==> DistinctColumns(byId, entries);
      }
    }
  }

  /**
   * A grounded action writes one column per declared entry, with its value, exactly when the
   * declared fields have different column names; otherwise it writes fewer than were declared.
   */
  lemma {:induction false} ActionWritesAllIff(entity: Entity, action: Action)
    requires GroundAction(entity, action).Some?
    ensures var plan := GroundAction(entity, action).value;
            var byId := ById(View(entity));
            && (forall i :: 0 <= i < |action.writes| ==> action.writes[i].fieldId in byId)
            && |plan.writes| <= |action.writes|
            && (|plan.writes| == |action.writes| <==> DistinctColumns(byId, action.writes))
            && (DistinctColumns(byId, action.writes) ==>
                  forall i :: 0 <= i < |action.writes| ==>
                    byId[action.writes[i].fieldId].name in plan.writes && plan.writes[byId[action.writes[i].fieldId].name] == action.writes[i].value)
  {
    var byId := ById(View(entity));
    WriteSetIff(byId, action.writes);
    WriteSetSize(byId, action.writes);
    if DistinctColumns(byId, action.writes) {
      forall i | 0 <= i < |action.writes|
        ensures byId[action.writes[i].fieldId].name in WriteSet(byId, action.writes).value
        ensures WriteSet(byId, action.writes).value[byId[action.writes[i].fieldId].name] == action.writes[i].value
      {
        WriteSetValue(byId, action.writes, i);
      }
    }
  }

  /** Two fields under one name: an action declared over both writes one column. */
  lemma {:induction false} SharedNameWritesPart(action: Action)
    requires action.writes == [Assignment("f-a", Text("closed")), Assignment("f-b", Null)] && action.choose == ""
    ensures var fields := [Field("f-a", "state", StringType, false, "", [], true), Field("f-b", "state", StringType, false, "", [], true)];
            var entity := Entity("e-case", fields, [], [], true);
            GroundAction(entity, action).Some? && |GroundAction(entity, action).value.writes| < |action.writes|
  {
    var a, b := Field("f-a", "state", StringType, false, "", [], true), Field("f-b", "state", StringType, false, "", [], true);
    var fields := [a, b];
    var entity := Entity("e-case", fields, [], [], true);
    assert fields[1..] == [b] && [b][1..] == [];
    assert Filter([b], FieldAccepted()) == [b];
    assert View(entity) == fields;
    assert fields[..1] == [a] && [a][..0] == [];
    assert ById([a]) == map["f-a" := a];
    ActionGroundsIff(entity, action);
    ActionWritesAllIff(entity, action);
    var byId := ById(fields);
    assert byId[action.writes[0].fieldId].name == byId[action.writes[1].fieldId].name;
  }
}
