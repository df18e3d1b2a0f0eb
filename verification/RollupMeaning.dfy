/**
 * What a rollup means, declared and grounded, and when grounding preserves it.
 * Models groundRollups of apps/web/app/spec-sprout.ts against the query
 * packages/maxstack-core/src/sprout/derived.ts builds from a grounded plan.
 *
 * A rollup's meaning is the list of contributions its aggregate ranges over (whose row, under
 * which group key, with which operand) plus the aggregate itself. The groups these make, and their
 * order, are functions of them; which of the groups each owner is then shown is in RollupLimit.
 */
module RollupMeaning {
  import opened Collections
  import opened Spec
  import opened Grounding

  datatype Record = Record(key: Cell, cells: map<string, Cell>)

  /** Rows by entity id with cells by field id, or rows by table with cells by column. */
  type Database = map<string, seq<Record>>

  datatype Value = Row | Stored(cell: Cell) | Derived(number: Option<real>)

  datatype Contribution = Contribution(owner: Option<Cell>, group: Option<Cell>, value: Value)

  datatype Meaning = Meaning(name: string, fn: AggFn, bucket: Option<Option<Bucket>>, limit: Option<nat>,
                             contributions: seq<Contribution>)

  function Rows(db: Database, table: string): seq<Record> {
    if table in db then db[table] else []
  }

  /** `a = b` as a query compares: a null equals nothing. */
  predicate SqlEquals(a: Cell, b: Cell) {
    a == b && !a.Null?
  }

  // ---------------------------------------------------------------------------
  // The grounded plan's query
  // ---------------------------------------------------------------------------

  /** The owner keys a row contributes to: inner joins along the hops, the last hop read as a foreign key. */
  function Owners(db: Database, hops: seq<Hop>, cells: map<string, Cell>): seq<Cell>
    requires hops != []
    decreases |hops|, 0
  {
    var fk := Get(cells, hops[0].column);
    if |hops| == 1 then [fk] else JoinOwners(db, Rows(db, hops[0].table), fk, hops[1..])
  }

  function JoinOwners(db: Database, rows: seq<Record>, fk: Cell, hops: seq<Hop>): seq<Cell>
    requires hops != []
    decreases |hops|, |rows| + 1
  {
    if rows == [] then []
    else (if SqlEquals(rows[0].key, fk) then Owners(db, hops, rows[0].cells) else []) + JoinOwners(db, rows[1..], fk, hops)
  }

  predicate Passes(where: seq<ColumnFilter>, cells: map<string, Cell>) {
    forall i :: 0 <= i < |where| ==> SqlEquals(Get(cells, where[i].column), where[i].equals)
  }

  function Contribute(owners: Option<seq<Cell>>, group: Option<Cell>, value: Value): seq<Contribution> {
    match owners
    case None => [Contribution(None, group, value)]
    case Some(keys) => Map(keys, (k: Cell) => Contribution(Some(k), group, value))
  }

  function PlanValue(plan: RollupPlan, cells: map<string, Cell>, toNumber: Cell -> Option<real>): Value {
    if plan.computed.Some? then Derived(Evaluate(plan.computed.value, cells, toNumber))
    else if plan.column.Some? then Stored(Get(cells, plan.column.value))
    else Row
  }

  function PlanRow(db: Database, plan: RollupPlan, cells: map<string, Cell>, toNumber: Cell -> Option<real>): seq<Contribution>
    requires plan.via.Some? ==> plan.via.value != []
  {
    if !Passes(plan.where, cells) then []
    else Contribute(if plan.via.None? then None else Some(Owners(db, plan.via.value, cells)),
                    if plan.groupBy.None? then None else Some(Get(cells, plan.groupBy.value.column)),
                    PlanValue(plan, cells, toNumber))
  }

  function PlanRows(db: Database, plan: RollupPlan, rows: seq<Record>, toNumber: Cell -> Option<real>): seq<Contribution>
    requires plan.via.Some? ==> plan.via.value != []
  {
    if rows == [] then [] else PlanRow(db, plan, rows[0].cells, toNumber) + PlanRows(db, plan, rows[1..], toNumber)
  }

  function PlanMeaning(db: Database, plan: RollupPlan, toNumber: Cell -> Option<real>): Meaning
    requires plan.via.Some? ==> plan.via.value != []
  {
    Meaning(plan.name, plan.fn, if plan.groupBy.None? then None else Some(plan.groupBy.value.bucket), plan.limit,
            PlanRows(db, plan, Rows(db, plan.over), toNumber))
  }

  // ---------------------------------------------------------------------------
  // The declaration, over every declared entity and field, accepted or not
  // ---------------------------------------------------------------------------

  function DeclaredOwners(all: seq<Entity>, idDb: Database, current: Entity, ids: seq<string>, cells: map<string, Cell>): seq<Cell>
    requires ids != []
    decreases |ids|, 0
  {
    var fk := Get(cells, ids[0]);
    if |ids| == 1 then [fk]
    else match FindField(current.fields, ids[0])
      case None => []
      case Some(f) =>
        match FindEntity(all, f.reference)
        case None => []
        case Some(next) => DeclaredJoin(all, idDb, next, Rows(idDb, next.id), fk, ids[1..])
  }

  function DeclaredJoin(all: seq<Entity>, idDb: Database, current: Entity, rows: seq<Record>, fk: Cell, ids: seq<string>): seq<Cell>
    requires ids != []
    decreases |ids|, |rows| + 1
  {
    if rows == [] then []
    else (if SqlEquals(rows[0].key, fk) then DeclaredOwners(all, idDb, current, ids, rows[0].cells) else [])
         + DeclaredJoin(all, idDb, current, rows[1..], fk, ids)
  }

  predicate DeclaredPasses(where: seq<RowFilter>, cells: map<string, Cell>) {
    forall i :: 0 <= i < |where| ==> SqlEquals(Get(cells, where[i].field), where[i].equals)
  }

  function DeclaredValue(over: Entity, field: Option<string>, cells: map<string, Cell>, toNumber: Cell -> Option<real>): Value {
    match field
    case None => Row
    case Some(id) =>
      if FindField(over.fields, id).Some? then Stored(Get(cells, id))
      else match FindComputed(over.computed, id)
        case None => Row
        case Some(c) => Derived(Denotes(c.expr, cells, toNumber))
  }

  function DeclaredRow(all: seq<Entity>, idDb: Database, over: Entity, rollup: Rollup, cells: map<string, Cell>,
                       toNumber: Cell -> Option<real>): seq<Contribution>
    requires PathOf(rollup.via).Some? ==> PathOf(rollup.via).value != []
  {
    if !DeclaredPasses(rollup.where, cells) then []
    else Contribute(if PathOf(rollup.via).None? then None
                    else Some(DeclaredOwners(all, idDb, over, PathOf(rollup.via).value, cells)),
                    if rollup.groupBy.None? then None else Some(Get(cells, rollup.groupBy.value.field)),
                    DeclaredValue(over, rollup.field, cells, toNumber))
  }

  function DeclaredRows(all: seq<Entity>, idDb: Database, over: Entity, rollup: Rollup, rows: seq<Record>,
                        toNumber: Cell -> Option<real>): seq<Contribution>
    requires PathOf(rollup.via).Some? ==> PathOf(rollup.via).value != []
  {
    if rows == [] then []
    else DeclaredRow(all, idDb, over, rollup, rows[0].cells, toNumber)
         + DeclaredRows(all, idDb, over, rollup, rows[1..], toNumber)
  }

  function DeclaredMeaning(all: seq<Entity>, idDb: Database, over: Entity, rollup: Rollup, toNumber: Cell -> Option<real>): Meaning
    requires PathOf(rollup.via).Some? ==> PathOf(rollup.via).value != []
  {
    Meaning(rollup.name, rollup.fn, if rollup.groupBy.None? then None else Some(rollup.groupBy.value.bucket), rollup.limit,
            DeclaredRows(all, idDb, over, rollup, Rows(idDb, over.id), toNumber))
  }

  // ---------------------------------------------------------------------------
  // The declaration read as a relation
  // ---------------------------------------------------------------------------

  /** A cell a query finds equal to a value: a null is equal to nothing, not even a null. */
  predicate Equal(cells: map<string, Cell>, key: string, value: Cell) {
    key in cells && cells[key] == value && value != Null
  }

  /** Following the path from a row, key by key, one can come to owner `k`. */
  ghost predicate Reaches(all: seq<Entity>, idDb: Database, current: Entity, ids: seq<string>, cells: map<string, Cell>, k: Cell)
    requires ids != []
    decreases |ids|
  {
    if |ids| == 1 then k == if ids[0] in cells then cells[ids[0]] else Null
    else exists f, next, row: Record ::
      && FindField(current.fields, ids[0]) == Some(f) && FindEntity(all, f.reference) == Some(next)
      && row in Rows(idDb, next.id) && Equal(cells, ids[0], row.key)
      && Reaches(all, idDb, next, ids[1..], row.cells, k)
  }

  lemma {:induction false} OwnersReached(all: seq<Entity>, idDb: Database, current: Entity, ids: seq<string>, cells: map<string, Cell>, k: Cell)
    requires ids != []
    ensures k in DeclaredOwners(all, idDb, current, ids, cells) <==> Reaches(all, idDb, current, ids, cells, k)
    decreases |ids|, 0
  {
    if |ids| > 1 {
      var f := FindField(current.fields, ids[0]);
      if f.Some? {
        var next := FindEntity(all, f.value.reference);
        if next.Some? {
          JoinReached(all, idDb, next.value, Rows(idDb, next.value.id), cells, ids, k);
        }
      }
    }
  }

  lemma {:induction false} JoinReached(all: seq<Entity>, idDb: Database, next: Entity, rows: seq<Record>, cells: map<string, Cell>,
                                       ids: seq<string>, k: Cell)
    requires |ids| > 1
    ensures k in DeclaredJoin(all, idDb, next, rows, Get(cells, ids[0]), ids[1..]) <==>
              exists row: Record :: row in rows && Equal(cells, ids[0], row.key) && Reaches(all, idDb, next, ids[1..], row.cells, k)
    decreases |ids|, 0, |rows|
  {
    if rows != [] {
      OwnersReached(all, idDb, next, ids[1..], rows[0].cells, k);
      JoinReached(all, idDb, next, rows[1..], cells, ids, k);
      assert rows == [rows[0]] + rows[1..];
      assert SqlEquals(rows[0].key, Get(cells, ids[0])) <==> Equal(cells, ids[0], rows[0].key);
    }
  }

  /** One row's contribution: it passes every filter, and its owner, group key and value are read off it. */
  ghost predicate Gives(all: seq<Entity>, idDb: Database, over: Entity, rollup: Rollup, record: Record, toNumber: Cell -> Option<real>, c: Contribution)
    requires rollup.via.Many? ==> rollup.via.ids != []
  {
    && (forall i :: 0 <= i < |rollup.where| ==> Equal(record.cells, rollup.where[i].field, rollup.where[i].equals))
    && (match rollup.via
        case NoVia => c.owner == None
        case One(id) => c.owner.Some? && Reaches(all, idDb, over, [id], record.cells, c.owner.value)
        case Many(ids) => c.owner.Some? && Reaches(all, idDb, over, ids, record.cells, c.owner.value))
    && (match rollup.groupBy
        case None => c.group == None
        case Some(g) => c.group == Some(if g.field in record.cells then record.cells[g.field] else Null))
    && c.value == DeclaredValue(over, rollup.field, record.cells, toNumber)
  }

  lemma {:induction false} RowGives(all: seq<Entity>, idDb: Database, over: Entity, rollup: Rollup, record: Record,
                                    toNumber: Cell -> Option<real>, c: Contribution)
    requires rollup.via.Many? ==> rollup.via.ids != []
    ensures c in DeclaredRow(all, idDb, over, rollup, record.cells, toNumber) <==> Gives(all, idDb, over, rollup, record, toNumber, c)
  {
    assert forall i :: 0 <= i < |rollup.where| ==>
      (SqlEquals(Get(record.cells, rollup.where[i].field), rollup.where[i].equals) <==> Equal(record.cells, rollup.where[i].field, rollup.where[i].equals));
    var group := if rollup.groupBy.None? then None else Some(Get(record.cells, rollup.groupBy.value.field));
    var value := DeclaredValue(over, rollup.field, record.cells, toNumber);
    if !rollup.via.NoVia? {
      var keys := DeclaredOwners(all, idDb, over, PathOf(rollup.via).value, record.cells);
      ContributesEach(keys, group, value, c);
      if c.owner.Some? {
        OwnersReached(all, idDb, over, PathOf(rollup.via).value, record.cells, c.owner.value);
      }
    }
  }

  lemma {:induction false} ContributesEach(keys: seq<Cell>, group: Option<Cell>, value: Value, c: Contribution)
    ensures c in Contribute(Some(keys), group, value) <==> c.owner.Some? && c.owner.value in keys && c.group == group && c.value == value
  {
    var given := Contribute(Some(keys), group, value);
    if c in given {
      var i :| 0 <= i < |given| && given[i] == c;
    }
    if c.owner.Some? && c.owner.value in keys && c.group == group && c.value == value {
      var i :| 0 <= i < |keys| && keys[i] == c.owner.value;
      assert given[i] == c;
    }
  }

  lemma {:induction false} RowsGive(all: seq<Entity>, idDb: Database, over: Entity, rollup: Rollup, rows: seq<Record>,
                                    toNumber: Cell -> Option<real>, c: Contribution)
    requires rollup.via.Many? ==> rollup.via.ids != []
    ensures c in DeclaredRows(all, idDb, over, rollup, rows, toNumber) <==>
              exists record: Record :: record in rows && Gives(all, idDb, over, rollup, record, toNumber, c)
  {
    if rows != [] {
      RowGives(all, idDb, over, rollup, rows[0], toNumber, c);
      RowsGive(all, idDb, over, rollup, rows[1..], toNumber, c);
      assert rows == [rows[0]] + rows[1..];
    }
  }

  /**
   * What a declared rollup ranges over: a contribution is made exactly when some record of the entity passes every
   * filter, its path, when there is one, reaches the owner, and the group key and value are the record's own.
   */
  lemma {:induction false} DeclaredContributes(all: seq<Entity>, idDb: Database, over: Entity, rollup: Rollup,
                                               toNumber: Cell -> Option<real>, c: Contribution)
    requires rollup.via.Many? ==> rollup.via.ids != []
    ensures var meaning := DeclaredMeaning(all, idDb, over, rollup, toNumber);
            && meaning.name == rollup.name && meaning.fn == rollup.fn && meaning.limit == rollup.limit
            && (c in meaning.contributions <==>
                  over.id in idDb && exists record: Record :: record in idDb[over.id] && Gives(all, idDb, over, rollup, record, toNumber, c))
  {
    RowsGive(all, idDb, over, rollup, Rows(idDb, over.id), toNumber, c);
  }

  /** The value a row contributes: the row itself, the stored cell of the named field, or what the named computed value denotes. */
  lemma {:induction false} DeclaredValueIs(over: Entity, id: string, cells: map<string, Cell>, toNumber: Cell -> Option<real>)
    ensures DeclaredValue(over, None, cells, toNumber) == Row
    ensures (exists f :: f in over.fields && f.id == id) ==>
              DeclaredValue(over, Some(id), cells, toNumber) == Stored(if id in cells then cells[id] else Null)
    ensures (forall f :: f in over.fields ==> f.id != id) ==>
              forall k: nat :: (k < |over.computed| && over.computed[k].id == id && forall j :: 0 <= j < k ==> over.computed[j].id != id) ==>
                                 DeclaredValue(over, Some(id), cells, toNumber) == Derived(Denotes(over.computed[k].expr, cells, toNumber))
  {
    FindFieldSpec(over.fields, id);
    forall k: nat | k < |over.computed| && over.computed[k].id == id && forall j :: 0 <= j < k ==> over.computed[j].id != id
      ensures FindComputed(over.computed, id) == Some(over.computed[k])
    {
      FindAt(over.computed, (c: Computed) => c.id == id, k);
    }
  }

  // ---------------------------------------------------------------------------
  // A valid spec, and a database that shows it
  // ---------------------------------------------------------------------------

  /** Ids are unique, and every field has a name. */
  ghost predicate Valid(all: seq<Entity>) {
    && (forall e, f :: e in all && f in all && e.id == f.id ==> e == f)
    && (forall e, f, g :: e in all && f in e.fields && g in e.fields && f.id == g.id ==> f == g)
    && (forall e, c, d :: e in all && c in e.computed && d in e.computed && c.id == d.id ==> c == d)
    && (forall e, f, c :: e in all && f in e.fields && c in e.computed ==> f.id != c.id)
    && (forall e, f :: e in all && f in e.fields ==> f.name != "")
  }

  /** An entity's table shows its records, row by row. */
  ghost predicate TableShown(e: Entity, idDb: Database, db: Database) {
    && |Rows(db, ResourceName(e.id))| == |Rows(idDb, e.id)|
    && forall i :: 0 <= i < |Rows(idDb, e.id)| ==>
         && Rows(db, ResourceName(e.id))[i].key == Rows(idDb, e.id)[i].key
         && Shown(View(e), Rows(idDb, e.id)[i].cells, Rows(db, ResourceName(e.id))[i].cells)
  }

  /** The tables show the records of every entity in the view. */
  ghost predicate DbShown(entities: seq<Entity>, idDb: Database, db: Database) {
    forall e :: e in entities ==> TableShown(e, idDb, db)
  }

  /** Every hop but the last lands on an entity of the view. */
  predicate StaysInView(entities: seq<Entity>, current: Entity, ids: seq<string>)
    decreases |ids|
  {
    |ids| <= 1 ||
    match FindField(View(current), ids[0])
    case None => false
    case Some(fk) =>
      match FindEntity(entities, fk.reference)
      case None => false
      case Some(next) => StaysInView(entities, next, ids[1..])
  }

  // ---------------------------------------------------------------------------
  // Hops
  // ---------------------------------------------------------------------------

  /** Grounded hops are a non-empty prefix of the path: the grounding of that prefix, hop for hop. */
  lemma {:induction false} HopsArePrefix(entities: seq<Entity>, current: Entity, ids: seq<string>)
    requires ids != [] && GroundHops(entities, current, ids).Some?
    ensures var hops := GroundHops(entities, current, ids).value;
            && 0 < |hops| <= |ids|
            && GroundHops(entities, current, ids[..|hops|]) == Some(hops)
    decreases |ids|
  {
    var hops := GroundHops(entities, current, ids).value;
    var fk := FindField(View(current), ids[0]).value;
    match FindEntity(entities, fk.reference)
    case None =>
      assert ids[..1][0] == ids[0];
    case Some(next) =>
      if |ids| > 1 {
        HopsArePrefix(entities, next, ids[1..]);
        assert ids[..|hops|][1..] == ids[1..][..|hops| - 1];
      } else {
        assert ids[1..] == [];
        assert ids[..1] == ids;
      }
  }

  /**
   * A grounded rollup, part by part: over, name, aggregate and limit as declared; each filter, and the group
   * key, on the column of the field it names, with its value and its bucket; the first hop through the first
   * field's column to the table it references, and the rest the grounding of the rest from there.
   */
  lemma {:induction false} RollupPlanIs(entities: seq<Entity>, rollup: Rollup)
    requires GroundRollup(entities, rollup).Some?
    ensures var plan := GroundRollup(entities, rollup).value;
            && FindEntity(entities, rollup.over).Some?
            && var view := View(FindEntity(entities, rollup.over).value);
            && plan.name == rollup.name && plan.over == ResourceName(rollup.over) && plan.fn == rollup.fn && plan.limit == rollup.limit
            && |plan.where| == |rollup.where|
            && (forall i :: 0 <= i < |plan.where| ==>
                  && plan.where[i].equals == rollup.where[i].equals
                  && FindField(view, rollup.where[i].field).Some?
                  && plan.where[i].column == FindField(view, rollup.where[i].field).value.name)
            && (plan.groupBy.Some? <==> rollup.groupBy.Some?)
            && (plan.groupBy.Some? ==>
                  && plan.groupBy.value.bucket == rollup.groupBy.value.bucket
                  && FindField(view, rollup.groupBy.value.field).Some?
                  && plan.groupBy.value.column == FindField(view, rollup.groupBy.value.field).value.name)
            && (plan.via == None <==> rollup.via == NoVia)
  {
    WhereColumns(View(FindEntity(entities, rollup.over).value), rollup.where);
  }

  /** What a rollup aggregates: the row, when it names no field; the column of a field of the view, if it has a name; a computed value of the view, inlined. */
  lemma {:induction false} OperandIs(over: Entity, id: string)
    ensures GroundOperand(over, None) == Some(WholeRow)
    ensures var field := FindField(View(over), id);
            field.Some? ==> GroundOperand(over, Some(id)) == Some(if field.value.name == "" then WholeRow else StoredColumn(field.value.name))
    ensures var derived := FindComputed(AcceptedOrAll(over.computed, ComputedAccepted()), id);
            FindField(View(over), id) == None && derived.Some? && GroundExpr(View(over), derived.value.expr).Some? ==>
              GroundOperand(over, Some(id)) == Some(Inlined(GroundExpr(View(over), derived.value.expr).value))
  {}

  lemma {:induction false} WhereColumns(view: seq<Field>, where: seq<RowFilter>)
    requires GroundWhere(view, where).Some?
    ensures var grounded := GroundWhere(view, where).value;
            && |grounded| == |where|
            && forall i :: 0 <= i < |where| ==>
                 && grounded[i].equals == where[i].equals && FindField(view, where[i].field).Some?
                 && grounded[i].column == FindField(view, where[i].field).value.name
  {
    if where != [] {
      WhereColumns(view, where[1..]);
      var grounded := GroundWhere(view, where).value;
      assert grounded[1..] == GroundWhere(view, where[1..]).value;
      assert forall i :: 0 < i < |where| ==> where[i] == where[1..][i - 1] && grounded[i] == grounded[1..][i - 1];
    }
  }

  /** A grounded path, hop by hop. */
  lemma {:induction false} HopsAre(entities: seq<Entity>, current: Entity, ids: seq<string>)
    requires ids != [] && GroundHops(entities, current, ids).Some?
    ensures var hops := GroundHops(entities, current, ids).value;
            && FindField(View(current), ids[0]).Some?
            && var fk := FindField(View(current), ids[0]).value;
            && fk.reference != ""
            && hops != [] && hops[0] == Hop(fk.name, ResourceName(fk.reference))
            && (FindEntity(entities, fk.reference) == None ==> |hops| == 1)
            && (FindEntity(entities, fk.reference).Some? ==>
                  GroundHops(entities, FindEntity(entities, fk.reference).value, ids[1..]) == Some(hops[1..]))
  {}

  /** No hop is lost exactly when every hop but the last lands on an entity of the view. */
  lemma {:induction false} HopsCompleteIff(entities: seq<Entity>, current: Entity, ids: seq<string>)
    requires ids != [] && GroundHops(entities, current, ids).Some?
    ensures |GroundHops(entities, current, ids).value| == |ids| <==> StaysInView(entities, current, ids)
    decreases |ids|
  {
    var fk := FindField(View(current), ids[0]).value;
    match FindEntity(entities, fk.reference)
    case None =>
    case Some(next) =>
      if |ids| > 1 {
        HopsCompleteIff(entities, next, ids[1..]);
      } else {
        assert ids[1..] == [];
      }
  }

  /** A field of the view is the declared field of that id. */
  lemma {:induction false} ViewField(all: seq<Entity>, e: Entity, id: string)
    requires Valid(all) && e in all
    ensures FindField(View(e), id).Some? ==> FindField(e.fields, id) == FindField(View(e), id)
  {
    FindFieldSpec(View(e), id);
    FindFieldSpec(e.fields, id);
    AcceptedOrAllSpec(e.fields, FieldAccepted());
  }

  lemma {:induction false} ViewEntity(all: seq<Entity>, entities: seq<Entity>, id: string)
    requires Valid(all) && forall e :: e in entities ==> e in all
    ensures FindEntity(entities, id).Some? ==> FindEntity(all, id) == FindEntity(entities, id)
  {
    FindEntitySpec(entities, id);
    FindEntitySpec(all, id);
  }

  /** A complete grounded path reaches, from each row, exactly the owners the declared path reaches. */
  lemma {:induction false} OwnersPreserved(all: seq<Entity>, entities: seq<Entity>, idDb: Database, db: Database,
                                           current: Entity, ids: seq<string>, record: map<string, Cell>, cells: map<string, Cell>)
    requires Valid(all) && (forall e :: e in entities ==> e in all) && current in entities
    requires DbShown(entities, idDb, db) && Shown(View(current), record, cells)
    requires ids != [] && GroundHops(entities, current, ids).Some? && StaysInView(entities, current, ids)
    ensures GroundHops(entities, current, ids).value != []
    ensures Owners(db, GroundHops(entities, current, ids).value, cells) == DeclaredOwners(all, idDb, current, ids, record)
    decreases |ids|, 0
  {
    var hops := GroundHops(entities, current, ids).value;
    var fk := FindField(View(current), ids[0]).value;
    FindFieldSpec(View(current), ids[0]);
    assert Get(cells, fk.name) == Get(record, ids[0]);
    ViewField(all, current, ids[0]);
    ViewEntity(all, entities, fk.reference);
    if |ids| == 1 {
      assert ids[1..] == [];
      assert |hops| == 1;
    } else {
      var next := FindEntity(entities, fk.reference).value;
      FindEntitySpec(entities, fk.reference);
      HopsArePrefix(entities, next, ids[1..]);
      assert hops[1..] == GroundHops(entities, next, ids[1..]).value;
      JoinPreserved(all, entities, idDb, db, next, ids[1..], Get(record, ids[0]), 0);
      var idRows, rows := Rows(idDb, next.id), Rows(db, ResourceName(next.id));
      assert idRows[0..] == idRows && rows[0..] == rows;
    }
  }

  lemma {:induction false} JoinPreserved(all: seq<Entity>, entities: seq<Entity>, idDb: Database, db: Database,
                                         current: Entity, ids: seq<string>, fk: Cell, from: nat)
    requires Valid(all) && (forall e :: e in entities ==> e in all) && current in entities
    requires DbShown(entities, idDb, db) && from <= |Rows(idDb, current.id)|
    requires ids != [] && GroundHops(entities, current, ids).Some? && StaysInView(entities, current, ids)
    ensures GroundHops(entities, current, ids).value != []
    ensures JoinOwners(db, Rows(db, ResourceName(current.id))[from..], fk, GroundHops(entities, current, ids).value)
            == DeclaredJoin(all, idDb, current, Rows(idDb, current.id)[from..], fk, ids)
    decreases |ids|, 1, |Rows(idDb, current.id)| - from
  {
    HopsArePrefix(entities, current, ids);
    assert TableShown(current, idDb, db);
    var idRows, rows := Rows(idDb, current.id), Rows(db, ResourceName(current.id));
    if from < |idRows| {
      assert idRows[from..][0] == idRows[from] && idRows[from..][1..] == idRows[from + 1..];
      assert rows[from..][0] == rows[from] && rows[from..][1..] == rows[from + 1..];
      OwnersPreserved(all, entities, idDb, db, current, ids, idRows[from].cells, rows[from].cells);
      JoinPreserved(all, entities, idDb, db, current, ids, fk, from + 1);
    }
  }

  // ---------------------------------------------------------------------------
  // Filters, operand and group key
  // ---------------------------------------------------------------------------

  lemma {:induction false} WherePreserved(view: seq<Field>, where: seq<RowFilter>, record: map<string, Cell>, cells: map<string, Cell>)
    requires GroundWhere(view, where).Some? && Shown(view, record, cells)
    ensures |GroundWhere(view, where).value| == |where|
    ensures Passes(GroundWhere(view, where).value, cells) <==> DeclaredPasses(where, record)
  {
    if where != [] {
      WherePreserved(view, where[1..], record, cells);
      FindFieldSpec(view, where[0].field);
      var grounded := GroundWhere(view, where).value;
      assert grounded[1..] == GroundWhere(view, where[1..]).value;
      assert Passes(grounded, cells) <==> SqlEquals(Get(cells, grounded[0].column), grounded[0].equals) && Passes(grounded[1..], cells) by {
        assert forall i :: 0 < i < |grounded| ==> grounded[i] == grounded[1..][i - 1];
      }
      assert DeclaredPasses(where, record) <==> SqlEquals(Get(record, where[0].field), where[0].equals) && DeclaredPasses(where[1..], record) by {
        assert forall i :: 0 < i < |where| ==> where[i] == where[1..][i - 1];
      }
    }
  }

  function OperandValue(operand: Operand, cells: map<string, Cell>, toNumber: Cell -> Option<real>): Value {
    match operand
    case WholeRow => Row
    case StoredColumn(column) => Stored(Get(cells, column))
    case Inlined(node) => Derived(Evaluate(node, cells, toNumber))
  }

  lemma {:induction false} OperandPreserved(all: seq<Entity>, over: Entity, field: Option<string>,
                                            record: map<string, Cell>, cells: map<string, Cell>, toNumber: Cell -> Option<real>)
    requires Valid(all) && over in all && GroundOperand(over, field).Some? && Shown(View(over), record, cells)
    ensures OperandValue(GroundOperand(over, field).value, cells, toNumber) == DeclaredValue(over, field, record, toNumber)
  {
    if field.Some? {
      var id := field.value;
      ViewField(all, over, id);
      FindFieldSpec(View(over), id);
      FindFieldSpec(over.fields, id);
      if FindField(View(over), id).None? {
        var view := AcceptedOrAll(over.computed, ComputedAccepted());
        FindSpec(view, (c: Computed) => c.id == id);
        FindSpec(over.computed, (c: Computed) => c.id == id);
        AcceptedOrAllSpec(over.computed, ComputedAccepted());
        var c := FindComputed(view, id).value;
        assert c in over.computed && FindComputed(over.computed, id) == Some(c);
        ExprPreserved(View(over), c.expr, record, cells, toNumber);
      }
    }
  }

  // ---------------------------------------------------------------------------
  // The theorem
  // ---------------------------------------------------------------------------

  lemma {:induction false} WhoseRow(all: seq<Entity>, entities: seq<Entity>, idDb: Database, db: Database, over: Entity,
                                    rollup: Rollup, record: map<string, Cell>, cells: map<string, Cell>)
    requires Valid(all) && (forall e :: e in entities ==> e in all) && over in entities
    requires DbShown(entities, idDb, db) && Shown(View(over), record, cells)
    requires FindEntity(entities, rollup.over) == Some(over) && GroundRollup(entities, rollup).Some?
    requires PathOf(rollup.via).Some? ==> PathOf(rollup.via).value != [] && StaysInView(entities, over, PathOf(rollup.via).value)
    ensures var via := GroundRollup(entities, rollup).value.via;
            && (via.Some? <==> PathOf(rollup.via).Some?)
            && (via.Some? ==> via.value != [] && Owners(db, via.value, cells) == DeclaredOwners(all, idDb, over, PathOf(rollup.via).value, record))
  {
    if PathOf(rollup.via).Some? {
      OwnersPreserved(all, entities, idDb, db, over, PathOf(rollup.via).value, record, cells);
    }
  }

  lemma {:induction false} WhatRow(all: seq<Entity>, entities: seq<Entity>, over: Entity, rollup: Rollup, record: map<string, Cell>,
                                   cells: map<string, Cell>, toNumber: Cell -> Option<real>)
    requires Valid(all) && over in all && Shown(View(over), record, cells)
    requires FindEntity(entities, rollup.over) == Some(over) && GroundRollup(entities, rollup).Some?
    ensures var plan := GroundRollup(entities, rollup).value;
            && (Passes(plan.where, cells) <==> DeclaredPasses(rollup.where, record))
            && PlanValue(plan, cells, toNumber) == DeclaredValue(over, rollup.field, record, toNumber)
            && (plan.groupBy.Some? <==> rollup.groupBy.Some?)
            && (plan.groupBy.Some? ==> Get(cells, plan.groupBy.value.column) == Get(record, rollup.groupBy.value.field))
  {
    WherePreserved(View(over), rollup.where, record, cells);
    OperandPreserved(all, over, rollup.field, record, cells, toNumber);
    if rollup.groupBy.Some? {
      FindFieldSpec(View(over), rollup.groupBy.value.field);
    }
  }

  lemma {:induction false} RowPreserved(all: seq<Entity>, entities: seq<Entity>, idDb: Database, db: Database, over: Entity,
                                        rollup: Rollup, record: map<string, Cell>, cells: map<string, Cell>, toNumber: Cell -> Option<real>)
    requires Valid(all) && (forall e :: e in entities ==> e in all) && over in entities
    requires DbShown(entities, idDb, db) && Shown(View(over), record, cells)
    requires FindEntity(entities, rollup.over) == Some(over) && GroundRollup(entities, rollup).Some?
    requires PathOf(rollup.via).Some? ==> PathOf(rollup.via).value != [] && StaysInView(entities, over, PathOf(rollup.via).value)
    ensures var plan := GroundRollup(entities, rollup).value;
            && (plan.via.Some? ==> plan.via.value != [])
            && PlanRow(db, plan, cells, toNumber) == DeclaredRow(all, idDb, over, rollup, record, toNumber)
  {
    WhatRow(all, entities, over, rollup, record, cells, toNumber);
    WhoseRow(all, entities, idDb, db, over, rollup, record, cells);
  }

  lemma {:induction false} RowsPreserved(all: seq<Entity>, entities: seq<Entity>, idDb: Database, db: Database, over: Entity,
                                         rollup: Rollup, from: nat, toNumber: Cell -> Option<real>)
    requires Valid(all) && (forall e :: e in entities ==> e in all) && over in entities && DbShown(entities, idDb, db)
    requires FindEntity(entities, rollup.over) == Some(over) && GroundRollup(entities, rollup).Some?
    requires PathOf(rollup.via).Some? ==> PathOf(rollup.via).value != [] && StaysInView(entities, over, PathOf(rollup.via).value)
    requires from <= |Rows(idDb, over.id)|
    ensures var plan := GroundRollup(entities, rollup).value;
            && (plan.via.Some? ==> plan.via.value != [])
            && PlanRows(db, plan, Rows(db, ResourceName(over.id))[from..], toNumber)
               == DeclaredRows(all, idDb, over, rollup, Rows(idDb, over.id)[from..], toNumber)
    decreases |Rows(idDb, over.id)| - from
  {
    assert TableShown(over, idDb, db);
    var idRows, rows := Rows(idDb, over.id), Rows(db, ResourceName(over.id));
    if from < |idRows| {
      assert idRows[from..][0] == idRows[from] && idRows[from..][1..] == idRows[from + 1..];
      assert rows[from..][0] == rows[from] && rows[from..][1..] == rows[from + 1..];
      RowPreserved(all, entities, idDb, db, over, rollup, idRows[from].cells, rows[from].cells, toNumber);
      RowsPreserved(all, entities, idDb, db, over, rollup, from + 1, toNumber);
    }
  }

  /**
   * Grounding preserves meaning: on every database, a grounded rollup whose path stays in the view
   * aggregates exactly the declared contributions, under the declared aggregate.
   */
  lemma {:induction false} RollupPreserved(all: seq<Entity>, entities: seq<Entity>, idDb: Database, db: Database,
                                           rollup: Rollup, toNumber: Cell -> Option<real>)
    requires Valid(all) && (forall e :: e in entities ==> e in all) && DbShown(entities, idDb, db)
    requires GroundRollup(entities, rollup).Some?
    requires PathOf(rollup.via).Some? ==>
               PathOf(rollup.via).value != [] && StaysInView(entities, FindEntity(entities, rollup.over).value, PathOf(rollup.via).value)
    ensures var plan := GroundRollup(entities, rollup).value;
            && (plan.via.Some? ==> plan.via.value != [])
            && PlanMeaning(db, plan, toNumber)
               == DeclaredMeaning(all, idDb, FindEntity(entities, rollup.over).value, rollup, toNumber)
  {
    var over := FindEntity(entities, rollup.over).value;
    FindEntitySpec(entities, rollup.over);
    RowsPreserved(all, entities, idDb, db, over, rollup, 0, toNumber);
    var idRows, rows := Rows(idDb, over.id), Rows(db, ResourceName(over.id));
    assert idRows[0..] == idRows && rows[0..] == rows;
  }

  /** A computed value of the view, groundable. */
  ghost predicate Computable(over: Entity, id: string) {
    && FindComputed(AcceptedOrAll(over.computed, ComputedAccepted()), id).Some?
    && var expr := FindComputed(AcceptedOrAll(over.computed, ComputedAccepted()), id).value.expr;
       WellFormed(expr) && Leaves(expr) <= Ids(View(over))
  }

  /** A path whose every followed hop is a reference of the view. */
  predicate Walkable(entities: seq<Entity>, current: Entity, ids: seq<string>)
    decreases |ids|
  {
    ids == [] ||
    match FindField(View(current), ids[0])
    case None => false
    case Some(fk) =>
      && fk.reference != ""
      && match FindEntity(entities, fk.reference) case None => true case Some(next) => Walkable(entities, next, ids[1..])
  }

  lemma {:induction false} HopsIff(entities: seq<Entity>, current: Entity, ids: seq<string>)
    ensures GroundHops(entities, current, ids).Some? <==> Walkable(entities, current, ids)
    ensures GroundHops(entities, current, ids) == Some([]) ==> ids == []
    decreases |ids|
  {
    if ids != [] && FindField(View(current), ids[0]).Some? {
      var fk := FindField(View(current), ids[0]).value;
      if FindEntity(entities, fk.reference).Some? {
        HopsIff(entities, FindEntity(entities, fk.reference).value, ids[1..]);
      }
    }
  }

  lemma {:induction false} WhereIff(view: seq<Field>, where: seq<RowFilter>)
    ensures GroundWhere(view, where).Some? <==> forall i :: 0 <= i < |where| ==> where[i].field in Ids(view)
  {
    if where != [] {
      FindFieldSpec(view, where[0].field);
      WhereIff(view, where[1..]);
      if forall i :: 0 <= i < |where[1..]| ==> where[1..][i].field in Ids(view) {
        assert forall i :: 0 < i < |where| ==> where[i] == where[1..][i - 1];
      } else {
        var i :| 0 <= i < |where[1..]| && where[1..][i].field !in Ids(view);
        assert where[i + 1].field !in Ids(view);
      }
    }
  }

  lemma {:induction false} OperandGroundsIff(over: Entity, field: Option<string>)
    ensures GroundOperand(over, field).Some? <==>
              (field.Some? ==> field.value in Ids(View(over)) || Computable(over, field.value))
  {
    if field.Some? {
      FindFieldSpec(View(over), field.value);
      var derived := FindComputed(AcceptedOrAll(over.computed, ComputedAccepted()), field.value);
      if derived.Some? { GroundsIff(View(over), derived.value.expr); }
    }
  }

  /** A rollup grounds exactly when every id it names resolves in the view; otherwise it is dropped whole. */
  lemma {:induction false} RollupGroundsIff(entities: seq<Entity>, rollup: Rollup)
    ensures GroundRollup(entities, rollup).Some? <==>
            && FindEntity(entities, rollup.over).Some?
            && var over := FindEntity(entities, rollup.over).value;
            && (PathOf(rollup.via).Some? ==> PathOf(rollup.via).value != [] && Walkable(entities, over, PathOf(rollup.via).value))
            && (rollup.field.Some? ==> rollup.field.value in Ids(View(over)) || Computable(over, rollup.field.value))
            && (forall i :: 0 <= i < |rollup.where| ==> rollup.where[i].field in Ids(View(over)))
            && (rollup.groupBy.Some? ==> rollup.groupBy.value.field in Ids(View(over)))
  {
    if FindEntity(entities, rollup.over).Some? {
      var over := FindEntity(entities, rollup.over).value;
      if PathOf(rollup.via).Some? { HopsIff(entities, over, PathOf(rollup.via).value); }
      OperandGroundsIff(over, rollup.field);
      WhereIff(View(over), rollup.where);
      if rollup.groupBy.Some? { FindFieldSpec(View(over), rollup.groupBy.value.field); }
    }
  }

  // ---------------------------------------------------------------------------
  // The path that leaves the view
  // ---------------------------------------------------------------------------

  /** Ingredients roll up through recipes to meal plans. */
  function ToRecipe(): Field { Field("f-recipe", "recipeId", StringType, true, "e-recipe", [], true) }

  function ToPlan(): Field { Field("f-plan", "planId", StringType, true, "e-plan", [], true) }

  function Ingredient(): Entity { Entity("e-ingredient", [ToRecipe()], [], [], true) }

  /** The entity in the middle, soft-rejected. */
  function RejectedRecipe(): Entity { Entity("e-recipe", [ToPlan()], [], [], false) }

  lemma {:induction false} CutView()
    ensures AcceptedOrAll([Ingredient(), RejectedRecipe()], EntityAccepted()) == [Ingredient()]
    ensures View(Ingredient()) == [ToRecipe()]
  {
    assert [Ingredient(), RejectedRecipe()][1..] == [RejectedRecipe()] && [RejectedRecipe()][1..] == [];
    assert Filter([RejectedRecipe()], EntityAccepted()) == [];
    assert [ToRecipe()][1..] == [];
    assert Filter([ToRecipe()], FieldAccepted()) == [ToRecipe()];
  }

  /** The recipe's one row carries the ingredient's owner on to its plan. */
  lemma {:induction false} DeclaredPlan(all: seq<Entity>, idDb: Database)
    ensures DeclaredJoin(all, idDb, RejectedRecipe(), [Record(Text("r1"), map["f-plan" := Text("p1")])], Text("r1"), ["f-plan"]) == [Text("p1")]
  {
    var rows := [Record(Text("r1"), map["f-plan" := Text("p1")])];
    assert rows[1..] == [];
    assert DeclaredOwners(all, idDb, RejectedRecipe(), ["f-plan"], rows[0].cells) == [Text("p1")];
    assert DeclaredJoin(all, idDb, RejectedRecipe(), [], Text("r1"), ["f-plan"]) == [];
  }

  /**
   * A two-hop path through an entity that was soft-rejected still grounds, cut to its first hop:
   * an ingredient of recipe r1 in plan p1 is attributed to r1, a key no meal plan has.
   */
  lemma {:induction false} CutPathChangesOwner(idDb: Database, db: Database)
    requires idDb == map["e-recipe" := [Record(Text("r1"), map["f-plan" := Text("p1")])]]
    ensures var all := [Ingredient(), RejectedRecipe()];
            var entities := AcceptedOrAll(all, EntityAccepted());
            var ids := ["f-recipe", "f-plan"];
            && GroundHops(entities, Ingredient(), ids) == Some([Hop("recipeId", "recipe")])
            && Owners(db, [Hop("recipeId", "recipe")], map["recipeId" := Text("r1")]) == [Text("r1")]
            && DeclaredOwners(all, idDb, Ingredient(), ids, map["f-recipe" := Text("r1")]) == [Text("p1")]
  {
    CutView();
    var all := [Ingredient(), RejectedRecipe()];
    FindEntitySpec([Ingredient()], "e-recipe");
    FindEntitySpec(all, "e-recipe");
    assert FindEntity(all, "e-recipe").value == RejectedRecipe();
    assert ResourceName("e-recipe") == "recipe";
    assert ["f-recipe", "f-plan"][1..] == ["f-plan"];
    DeclaredPlan(all, idDb);
  }
}
