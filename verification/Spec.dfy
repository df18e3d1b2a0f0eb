/**
 * The part of a platform spec that grounding reads: entities, their fields and derived values,
 * and which rows a person accepted.
 */
module Spec {
  import opened Collections

  datatype FieldType = StringType | NumberType | BooleanType | DateType | EnumType | JsonType | FileType

  datatype Field = Field(id: string, name: string, kind: FieldType, required: bool, reference: string,
                         options: seq<string>, accepted: bool)

  datatype Operator = Plus | Minus | Times | Over

  /** A declared expression: leaves are field ids. `Malformed` is any other JSON. */
  datatype Expr =
    | FieldRef(field: string)
    | Literal(value: Option<real>)
    | Binary(op: Operator, left: Expr, right: Expr)
    | Malformed

  datatype Computed = Computed(id: string, name: string, expr: Expr, accepted: bool)

  datatype Cell = Null | Number(number: real) | Text(text: string) | Flag(on: bool)

  datatype AggFn = Count | CountDistinct | Sum | Avg | Min | Max

  datatype Bucket = Day | Week | Month | Quarter | Year

  datatype Via = NoVia | One(id: string) | Many(ids: seq<string>)

  datatype RowFilter = RowFilter(field: string, equals: Cell)

  datatype GroupBy = GroupBy(field: string, bucket: Option<Bucket>)

  datatype Rollup = Rollup(id: string, name: string, over: string, via: Via, fn: AggFn, field: Option<string>,
                           where: seq<RowFilter>, groupBy: Option<GroupBy>, limit: Option<nat>, accepted: bool)

  datatype Entity = Entity(id: string, fields: seq<Field>, computed: seq<Computed>, rollups: seq<Rollup>, accepted: bool)

  /** Accepted rows when any row is accepted, every row otherwise. */
  function AcceptedOrAll<T>(items: seq<T>, isAccepted: T -> bool): seq<T> {
    var accepted := Filter(items, isAccepted);
    if accepted != [] then accepted else items
  }

  /** The two cases of the rule, told apart by whether anything is accepted. */
  lemma {:induction false} AcceptedOrAllSpec<T>(items: seq<T>, isAccepted: T -> bool)
    ensures forall x :: x in AcceptedOrAll(items, isAccepted) <==>
              x in items && (isAccepted(x) || forall y :: y in items ==> !isAccepted(y))
  {
    var accepted := Filter(items, isAccepted);
    forall x
      ensures x in accepted <==> x in items && isAccepted(x)
    {
      FilterMember(items, isAccepted, x);
    }
    if accepted == [] {
      forall y | y in items
        ensures !isAccepted(y)
      {
        assert y !in accepted;
      }
    } else {
      var y := accepted[0];
      assert y in accepted;
      FilterMember(items, isAccepted, y);
    }
  }

  function FieldAccepted(): Field -> bool { (f: Field) => f.accepted }

  function ComputedAccepted(): Computed -> bool { (c: Computed) => c.accepted }

  function RollupAccepted(): Rollup -> bool { (r: Rollup) => r.accepted }

  function EntityAccepted(): Entity -> bool { (e: Entity) => e.accepted }

  /** The fields the runtime builds. */
  function View(entity: Entity): seq<Field> {
    AcceptedOrAll(entity.fields, FieldAccepted())
  }

  /** What is built: the accepted fields, computed values, rollups and entities of a list, or all of it when none is accepted. */
  lemma {:induction false} BuiltIff(entity: Entity, entities: seq<Entity>, f: Field, c: Computed, r: Rollup, e: Entity)
    ensures f in View(entity) <==> f in entity.fields && (f.accepted || forall g :: g in entity.fields ==> !g.accepted)
    ensures c in AcceptedOrAll(entity.computed, ComputedAccepted()) <==>
              c in entity.computed && (c.accepted || forall d :: d in entity.computed ==> !d.accepted)
    ensures r in AcceptedOrAll(entity.rollups, RollupAccepted()) <==>
              r in entity.rollups && (r.accepted || forall q :: q in entity.rollups ==> !q.accepted)
    ensures e in AcceptedOrAll(entities, EntityAccepted()) <==>
              e in entities && (e.accepted || forall d :: d in entities ==> !d.accepted)
  {
    AcceptedOrAllSpec(entity.fields, FieldAccepted());
    AcceptedOrAllSpec(entity.computed, ComputedAccepted());
    AcceptedOrAllSpec(entity.rollups, RollupAccepted());
    AcceptedOrAllSpec(entities, EntityAccepted());
  }

  function HasId(id: string): Field -> bool { (f: Field) => f.id == id }

  function FindField(fields: seq<Field>, id: string): Option<Field> {
    Find(fields, HasId(id))
  }

  function FindComputed(computed: seq<Computed>, id: string): Option<Computed> {
    Find(computed, (c: Computed) => c.id == id)
  }

  function FindEntity(entities: seq<Entity>, id: string): Option<Entity> {
    Find(entities, (e: Entity) => e.id == id)
  }

  lemma {:induction false} FindFieldSpec(fields: seq<Field>, id: string)
    ensures FindField(fields, id).Some? ==> FindField(fields, id).value in fields && FindField(fields, id).value.id == id
    ensures FindField(fields, id).Some? <==> exists f :: f in fields && f.id == id
  {
    FindSpec(fields, HasId(id));
  }

  lemma {:induction false} FindEntitySpec(entities: seq<Entity>, id: string)
    ensures FindEntity(entities, id).Some? ==> FindEntity(entities, id).value in entities && FindEntity(entities, id).value.id == id
    ensures FindEntity(entities, id).Some? <==> exists e :: e in entities && e.id == id
  {
    FindSpec(entities, (e: Entity) => e.id == id);
  }

  /** `e-order` is served as `order`. */
  function ResourceName(entityId: string): string {
    if |entityId| >= 2 && entityId[..2] == "e-" then entityId[2..] else entityId
  }

  lemma {:induction false} ResourceNames(entityId: string)
    ensures ResourceName("e-" + entityId) == entityId
    ensures (forall rest :: entityId != "e-" + rest) ==> ResourceName(entityId) == entityId
  {
    assert ("e-" + entityId)[..2] == "e-";
    if |entityId| >= 2 && entityId[..2] == "e-" {
      assert entityId == "e-" + entityId[2..];
    }
  }
}
