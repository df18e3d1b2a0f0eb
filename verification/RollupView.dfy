/**
 * When grounding a rollup preserves its meaning, both ways: exactly when its path stays in the view, or
 * when its filters admit no row at all.
 * Models groundRollups of apps/web/app/spec-sprout.ts against the query
 * packages/maxstack-core/src/sprout/derived.ts builds from a grounded plan.
 */
module RollupView {
  import opened Collections
  import opened Spec
  import opened Grounding
  import opened RollupMeaning

  // ---------------------------------------------------------------------------
  // Databases that show a spec
  // ---------------------------------------------------------------------------

  function ShownRows(view: seq<Field>, rows: seq<Record>): (r: seq<Record>)
    ensures |r| == |rows|
    ensures forall i :: 0 <= i < |rows| ==> r[i] == Record(rows[i].key, NamedCells(view, rows[i].cells))
  {
    if rows == [] then [] else [Record(rows[0].key, NamedCells(view, rows[0].cells))] + ShownRows(view, rows[1..])
  }

  /** The tables a store keeps for the entities of the view. */
  function Tables(entities: seq<Entity>, idDb: Database): Database {
    if entities == [] then map[]
    else Tables(entities[1..], idDb)[ResourceName(entities[0].id) := ShownRows(View(entities[0]), Rows(idDb, entities[0].id))]
  }

  /** Table names differ, and column names within a table. */
  ghost predicate NamesApart(entities: seq<Entity>) {
    && (forall i, j :: 0 <= i < j < |entities| ==> ResourceName(entities[i].id) != ResourceName(entities[j].id))
    && (forall e :: e in entities ==> forall i, j :: 0 <= i < j < |View(e)| ==> View(e)[i].name != View(e)[j].name)
  }

  /** Every database of declared records can be shown when names are apart. */
  lemma {:induction false} TablesShow(entities: seq<Entity>, idDb: Database)
    requires NamesApart(entities)
    ensures DbShown(entities, idDb, Tables(entities, idDb))
  {
    if entities != [] {
      assert forall e :: e in entities[1..] ==> e in entities;
      assert forall i :: 0 <= i < |entities[1..]| ==> entities[1..][i] == entities[i + 1];
      TablesShow(entities[1..], idDb);
      forall e | e in entities
        ensures TableShown(e, idDb, Tables(entities, idDb))
      {
        var i :| 0 <= i < |entities| && entities[i] == e;
        if i == 0 {
          NewTableShows(entities, idDb);
        } else {
          assert entities[1..][i - 1] == e;
          assert TableShown(e, idDb, Tables(entities[1..], idDb));
          assert Rows(Tables(entities, idDb), ResourceName(e.id)) == Rows(Tables(entities[1..], idDb), ResourceName(e.id));
        }
      }
    }
  }

  lemma {:induction false} NewTableShows(entities: seq<Entity>, idDb: Database)
    requires entities != [] && forall i, j :: 0 <= i < j < |View(entities[0])| ==> View(entities[0])[i].name != View(entities[0])[j].name
    ensures TableShown(entities[0], idDb, Tables(entities, idDb))
  {
    var e := entities[0];
    forall k | 0 <= k < |Rows(idDb, e.id)|
      ensures Shown(View(e), Rows(idDb, e.id)[k].cells, NamedCells(View(e), Rows(idDb, e.id)[k].cells))
    {
      NamedCellsShow(View(e), Rows(idDb, e.id)[k].cells);
    }
  }

  // ---------------------------------------------------------------------------
  // The filters
  // ---------------------------------------------------------------------------

  /** What a filter asks of a column; a column it leaves alone holds `k`. */
  function Asked(where: seq<ColumnFilter>, column: string): Cell {
    if where == [] then Text("k")
    else if where[0].column == column then where[0].equals
    else Asked(where[1..], column)
  }

  /** Some row passes: nothing is compared with null, and no column with two values. */
  ghost predicate Satisfiable(where: seq<ColumnFilter>) {
    && (forall i :: 0 <= i < |where| ==> !where[i].equals.Null?)
    && (forall i, j :: 0 <= i < |where| && 0 <= j < |where| && where[i].column == where[j].column ==> where[i].equals == where[j].equals)
  }

  lemma {:induction false} AskedIs(where: seq<ColumnFilter>, column: string)
    requires Satisfiable(where)
    ensures !Asked(where, column).Null?
    ensures forall i :: 0 <= i < |where| && where[i].column == column ==> Asked(where, column) == where[i].equals
  {
    if where != [] && where[0].column != column {
      assert forall i :: 0 <= i < |where[1..]| ==> where[1..][i] == where[i + 1];
      AskedIs(where[1..], column);
      assert forall i :: 0 < i < |where| ==> where[i] == where[1..][i - 1];
    }
  }

  /** Filters nothing satisfies stop every row. */
  lemma {:induction false} UnsatisfiableStops(where: seq<ColumnFilter>, cells: map<string, Cell>)
    ensures Passes(where, cells) ==> Satisfiable(where)
  {
    if Passes(where, cells) {
      forall i | 0 <= i < |where|
        ensures !where[i].equals.Null? && where[i].equals == Get(cells, where[i].column)
      {
        assert SqlEquals(Get(cells, where[i].column), where[i].equals);
      }
    }
  }

  // ---------------------------------------------------------------------------
  // A database on which a cut path shows
  // ---------------------------------------------------------------------------

  /** Column names of the view, and field ids. */
  ghost function Columns(entities: seq<Entity>): set<string> {
    set e, f | e in entities && f in View(e) :: f.name
  }

  ghost function AskedCells(entities: seq<Entity>, where: seq<ColumnFilter>): map<string, Cell> {
    map c | c in Columns(entities) :: Asked(where, c)
  }

  ghost function AskedRecord(e: Entity, where: seq<ColumnFilter>): map<string, Cell> {
    map id | id in Ids(View(e)) && FindField(View(e), id).Some? :: Asked(where, FindField(View(e), id).value.name)
  }

  /** Every value a filtered row holds. */
  function Keys(where: seq<ColumnFilter>): seq<Cell> {
    if where == [] then [Text("k")] else [where[0].equals] + Keys(where[1..])
  }

  lemma {:induction false} AskedIsKey(where: seq<ColumnFilter>, column: string)
    ensures Asked(where, column) in Keys(where)
  {
    if where != [] && where[0].column != column {
      AskedIsKey(where[1..], column);
    }
  }

  function Keyed(keys: seq<Cell>, cells: map<string, Cell>): (r: seq<Record>)
    ensures |r| == |keys| && forall i :: 0 <= i < |r| ==> r[i] == Record(keys[i], cells)
  {
    if keys == [] then [] else [Record(keys[0], cells)] + Keyed(keys[1..], cells)
  }

  /** One row for each key in every entity of the view, and none elsewhere. */
  ghost function FullIds(entities: seq<Entity>, where: seq<ColumnFilter>): Database {
    map id | id in (set e | e in entities :: e.id) && FindEntity(entities, id).Some? ::
      Keyed(Keys(where), AskedRecord(FindEntity(entities, id).value, where))
  }

  ghost function TableNames(entities: seq<Entity>): set<string> {
    set e | e in entities :: ResourceName(e.id)
  }

  ghost function FullTables(entities: seq<Entity>, where: seq<ColumnFilter>): Database {
    map t | t in TableNames(entities) :: Keyed(Keys(where), AskedCells(entities, where))
  }

  lemma {:induction false} FullRows(all: seq<Entity>, entities: seq<Entity>, where: seq<ColumnFilter>, e: Entity)
    requires Valid(all) && (forall d :: d in entities ==> d in all) && e in entities
    ensures Rows(FullIds(entities, where), e.id) == Keyed(Keys(where), AskedRecord(e, where))
    ensures Rows(FullTables(entities, where), ResourceName(e.id)) == Keyed(Keys(where), AskedCells(entities, where))
    ensures Shown(View(e), AskedRecord(e, where), AskedCells(entities, where))
  {
    FindEntitySpec(entities, e.id);
    assert FindEntity(entities, e.id).value in all && e in all;
    forall f | f in View(e)
      ensures Get(AskedCells(entities, where), f.name) == Get(AskedRecord(e, where), f.id)
    {
      FindFieldSpec(View(e), f.id);
      AcceptedOrAllSpec(e.fields, FieldAccepted());
      assert FindField(View(e), f.id) == Some(f);
    }
  }

  lemma {:induction false} FullShown(all: seq<Entity>, entities: seq<Entity>, where: seq<ColumnFilter>)
    requires Valid(all) && forall d :: d in entities ==> d in all
    ensures DbShown(entities, FullIds(entities, where), FullTables(entities, where))
  {
    forall e | e in entities
      ensures TableShown(e, FullIds(entities, where), FullTables(entities, where))
    {
      FullRows(all, entities, where, e);
    }
  }

  /** A join that finds one owning row finds an owner. */
  lemma {:induction false} JoinFinds(db: Database, rows: seq<Record>, fk: Cell, hops: seq<Hop>, i: nat)
    requires hops != [] && i < |rows| && SqlEquals(rows[i].key, fk) && Owners(db, hops, rows[i].cells) != []
    ensures JoinOwners(db, rows, fk, hops) != []
    decreases |rows|
  {
    if i > 0 {
      assert rows[1..][i - 1] == rows[i];
      JoinFinds(db, rows[1..], fk, hops, i - 1);
    }
  }

  /** On the full tables every grounded path reaches an owner. */
  lemma {:induction false} FullOwners(all: seq<Entity>, entities: seq<Entity>, where: seq<ColumnFilter>, current: Entity, ids: seq<string>)
    requires Valid(all) && (forall d :: d in entities ==> d in all) && current in entities && Satisfiable(where)
    requires ids != [] && GroundHops(entities, current, ids).Some?
    ensures GroundHops(entities, current, ids).value != []
    ensures Owners(FullTables(entities, where), GroundHops(entities, current, ids).value, AskedCells(entities, where)) != []
    decreases |ids|
  {
    var db, cells, hops := FullTables(entities, where), AskedCells(entities, where), GroundHops(entities, current, ids).value;
    HopsArePrefix(entities, current, ids);
    var field := FindField(View(current), ids[0]).value;
    FindFieldSpec(View(current), ids[0]);
    var fk := Asked(where, field.name);
    assert Get(cells, field.name) == fk;
    if |hops| > 1 {
      var next := FindEntity(entities, field.reference).value;
      FindEntitySpec(entities, field.reference);
      assert hops[1..] == GroundHops(entities, next, ids[1..]).value;
      FullOwners(all, entities, where, next, ids[1..]);
      FullRows(all, entities, where, next);
      AskedIs(where, field.name);
      AskedIsKey(where, field.name);
      var i :| 0 <= i < |Keys(where)| && Keys(where)[i] == fk;
      JoinFinds(db, Rows(db, hops[0].table), fk, hops[1..], i);
    }
  }

  lemma {:induction false} JoinNowhere(all: seq<Entity>, idDb: Database, current: Entity, rows: seq<Record>, fk: Cell, ids: seq<string>)
    requires ids != [] && forall i :: 0 <= i < |rows| ==> DeclaredOwners(all, idDb, current, ids, rows[i].cells) == []
    ensures DeclaredJoin(all, idDb, current, rows, fk, ids) == []
    decreases |rows|
  {
    if rows != [] {
      JoinNowhere(all, idDb, current, rows[1..], fk, ids);
    }
  }

  /** A path that leaves the view reaches no declared owner there: the entity outside has no rows. */
  lemma {:induction false} NoDeclaredOwners(all: seq<Entity>, entities: seq<Entity>, where: seq<ColumnFilter>, current: Entity,
                                            ids: seq<string>, record: map<string, Cell>)
    requires Valid(all) && (forall d :: d in entities ==> d in all) && current in entities
    requires ids != [] && GroundHops(entities, current, ids).Some? && !StaysInView(entities, current, ids)
    ensures DeclaredOwners(all, FullIds(entities, where), current, ids, record) == []
    decreases |ids|
  {
    var idDb := FullIds(entities, where);
    var field := FindField(View(current), ids[0]).value;
    ViewField(all, current, ids[0]);
    FindEntitySpec(entities, field.reference);
    FindEntitySpec(all, field.reference);
    ViewEntity(all, entities, field.reference);
    if FindEntity(entities, field.reference).Some? {
      var next := FindEntity(entities, field.reference).value;
      forall i | 0 <= i < |Rows(idDb, next.id)|
        ensures DeclaredOwners(all, idDb, next, ids[1..], Rows(idDb, next.id)[i].cells) == []
      {
        NoDeclaredOwners(all, entities, where, next, ids[1..], Rows(idDb, next.id)[i].cells);
      }
      JoinNowhere(all, idDb, next, Rows(idDb, next.id), Get(record, ids[0]), ids[1..]);
    } else if FindEntity(all, field.reference).Some? {
      assert field.reference !in idDb;
    }
  }

  // ---------------------------------------------------------------------------
  // The rollup
  // ---------------------------------------------------------------------------

  /** A grounded rollup's path is not empty. */
  lemma {:induction false} GroundedPath(entities: seq<Entity>, rollup: Rollup)
    requires GroundRollup(entities, rollup).Some?
    ensures FindEntity(entities, rollup.over).Some?
    ensures PathOf(rollup.via).Some? ==> PathOf(rollup.via).value != []
    ensures GroundRollup(entities, rollup).value.via.Some? ==> GroundRollup(entities, rollup).value.via.value != []
  {
    if PathOf(rollup.via).Some? {
      HopsIff(entities, FindEntity(entities, rollup.over).value, PathOf(rollup.via).value);
    }
  }

  /** The grounded rollup aggregates what was declared, on one database. */
  ghost predicate SameMeaning(all: seq<Entity>, entities: seq<Entity>, rollup: Rollup, toNumber: Cell -> Option<real>,
                              idDb: Database, db: Database)
    requires GroundRollup(entities, rollup).Some?
  {
    GroundedPath(entities, rollup);
    PlanMeaning(db, GroundRollup(entities, rollup).value, toNumber)
    == DeclaredMeaning(all, idDb, FindEntity(entities, rollup.over).value, rollup, toNumber)
  }

  /** A rollup without a path, or whose path stays in the view. */
  ghost predicate PathStays(entities: seq<Entity>, rollup: Rollup)
    requires GroundRollup(entities, rollup).Some?
  {
    GroundedPath(entities, rollup);
    PathOf(rollup.via).Some? ==> StaysInView(entities, FindEntity(entities, rollup.over).value, PathOf(rollup.via).value)
  }

  lemma {:induction false} AskedPasses(entities: seq<Entity>, over: Entity, where: seq<RowFilter>)
    requires over in entities && GroundWhere(View(over), where).Some? && Satisfiable(GroundWhere(View(over), where).value)
    ensures Passes(GroundWhere(View(over), where).value, AskedCells(entities, GroundWhere(View(over), where).value))
  {
    var grounded := GroundWhere(View(over), where).value;
    forall i | 0 <= i < |grounded|
      ensures SqlEquals(Get(AskedCells(entities, grounded), grounded[i].column), grounded[i].equals)
    {
      AskedIs(grounded, grounded[i].column);
      FilterColumns(View(over), where, i);
    }
  }

  lemma {:induction false} FilterColumns(view: seq<Field>, where: seq<RowFilter>, i: nat)
    requires GroundWhere(view, where).Some? && i < |GroundWhere(view, where).value|
    ensures exists f :: f in view && f.name == GroundWhere(view, where).value[i].column
  {
    FindFieldSpec(view, where[0].field);
    if i > 0 {
      FilterColumns(view, where[1..], i - 1);
    }
  }

  lemma {:induction false} RowsContribute(db: Database, plan: RollupPlan, rows: seq<Record>, toNumber: Cell -> Option<real>)
    requires plan.via.Some? && plan.via.value != [] && rows != []
    requires Passes(plan.where, rows[0].cells) && Owners(db, plan.via.value, rows[0].cells) != []
    ensures PlanRows(db, plan, rows, toNumber) != []
  {
  }

  lemma {:induction false} RowsContributeNothing(all: seq<Entity>, idDb: Database, over: Entity, rollup: Rollup, rows: seq<Record>,
                                                 toNumber: Cell -> Option<real>)
    requires PathOf(rollup.via).Some? && PathOf(rollup.via).value != []
    requires forall i :: 0 <= i < |rows| ==> DeclaredOwners(all, idDb, over, PathOf(rollup.via).value, rows[i].cells) == []
    ensures DeclaredRows(all, idDb, over, rollup, rows, toNumber) == []
    decreases |rows|
  {
    if rows != [] {
      RowsContributeNothing(all, idDb, over, rollup, rows[1..], toNumber);
    }
  }

  /** A path that leaves the view, under filters some row passes, has a database on which the rollup means something else. */
  lemma {:induction false} LeavingChangesMeaning(all: seq<Entity>, entities: seq<Entity>, rollup: Rollup, toNumber: Cell -> Option<real>)
    returns (idDb: Database, db: Database)
    requires Valid(all) && (forall e :: e in entities ==> e in all)
    requires GroundRollup(entities, rollup).Some? && !PathStays(entities, rollup)
    requires Satisfiable(GroundRollup(entities, rollup).value.where)
    ensures DbShown(entities, idDb, db) && !SameMeaning(all, entities, rollup, toNumber, idDb, db)
  {
    GroundedPath(entities, rollup);
    var plan, over, ids := GroundRollup(entities, rollup).value, FindEntity(entities, rollup.over).value, PathOf(rollup.via).value;
    FindEntitySpec(entities, rollup.over);
    idDb, db := FullIds(entities, plan.where), FullTables(entities, plan.where);
    FullShown(all, entities, plan.where);
    PlanParts(entities, rollup);
    SomethingPlanned(all, entities, plan, over, ids, rollup.where, toNumber);
    NothingDeclared(all, entities, rollup, plan.where, over, toNumber);
  }

  /** What grounding put into a plan. */
  lemma {:induction false} PlanParts(entities: seq<Entity>, rollup: Rollup)
    requires GroundRollup(entities, rollup).Some? && PathOf(rollup.via).Some?
    ensures var plan, over := GroundRollup(entities, rollup).value, FindEntity(entities, rollup.over);
            && over.Some? && over.value in entities && plan.over == ResourceName(over.value.id)
            && GroundHops(entities, over.value, PathOf(rollup.via).value) == plan.via
            && GroundWhere(View(over.value), rollup.where) == Some(plan.where)
  {
    FindEntitySpec(entities, rollup.over);
  }

  lemma {:induction false} SomethingPlanned(all: seq<Entity>, entities: seq<Entity>, plan: RollupPlan, over: Entity, ids: seq<string>,
                                            where: seq<RowFilter>, toNumber: Cell -> Option<real>)
    requires Valid(all) && (forall e :: e in entities ==> e in all) && over in entities && ids != []
    requires plan.over == ResourceName(over.id) && GroundHops(entities, over, ids) == plan.via && plan.via.Some?
    requires GroundWhere(View(over), where) == Some(plan.where) && Satisfiable(plan.where)
    ensures plan.via.value != [] && PlanMeaning(FullTables(entities, plan.where), plan, toNumber).contributions != []
  {
    FullRows(all, entities, plan.where, over);
    FullOwners(all, entities, plan.where, over, ids);
    AskedPasses(entities, over, where);
    RowsContribute(FullTables(entities, plan.where), plan, Rows(FullTables(entities, plan.where), plan.over), toNumber);
  }

  lemma {:induction false} NothingDeclared(all: seq<Entity>, entities: seq<Entity>, rollup: Rollup, where: seq<ColumnFilter>, over: Entity,
                                           toNumber: Cell -> Option<real>)
    requires Valid(all) && (forall e :: e in entities ==> e in all) && over in entities
    requires PathOf(rollup.via).Some? && PathOf(rollup.via).value != []
    requires GroundHops(entities, over, PathOf(rollup.via).value).Some? && !StaysInView(entities, over, PathOf(rollup.via).value)
    ensures DeclaredMeaning(all, FullIds(entities, where), over, rollup, toNumber).contributions == []
  {
    var idDb, ids := FullIds(entities, where), PathOf(rollup.via).value;
    forall i | 0 <= i < |Rows(idDb, over.id)|
      ensures DeclaredOwners(all, idDb, over, ids, Rows(idDb, over.id)[i].cells) == []
    {
      NoDeclaredOwners(all, entities, where, over, ids, Rows(idDb, over.id)[i].cells);
    }
    RowsContributeNothing(all, idDb, over, rollup, Rows(idDb, over.id), toNumber);
  }

  lemma {:induction false} StoppedRows(db: Database, plan: RollupPlan, rows: seq<Record>, toNumber: Cell -> Option<real>)
    requires (plan.via.Some? ==> plan.via.value != []) && !Satisfiable(plan.where)
    ensures PlanRows(db, plan, rows, toNumber) == []
    decreases |rows|
  {
    if rows != [] {
      UnsatisfiableStops(plan.where, rows[0].cells);
      StoppedRows(db, plan, rows[1..], toNumber);
    }
  }

  lemma {:induction false} StoppedRecords(all: seq<Entity>, idDb: Database, over: Entity, rollup: Rollup, rows: seq<Record>,
                                          shown: seq<Record>, toNumber: Cell -> Option<real>)
    requires (PathOf(rollup.via).Some? ==> PathOf(rollup.via).value != [])
    requires GroundWhere(View(over), rollup.where).Some? && !Satisfiable(GroundWhere(View(over), rollup.where).value)
    requires |rows| == |shown| && forall i :: 0 <= i < |rows| ==> Shown(View(over), rows[i].cells, shown[i].cells)
    ensures DeclaredRows(all, idDb, over, rollup, rows, toNumber) == []
    decreases |rows|
  {
    if rows != [] {
      WherePreserved(View(over), rollup.where, rows[0].cells, shown[0].cells);
      UnsatisfiableStops(GroundWhere(View(over), rollup.where).value, shown[0].cells);
      StoppedRecords(all, idDb, over, rollup, rows[1..], shown[1..], toNumber);
    }
  }

  /** Filters no row passes leave nothing to attribute, wrongly or not. */
  lemma {:induction false} NothingToAttribute(all: seq<Entity>, entities: seq<Entity>, rollup: Rollup, toNumber: Cell -> Option<real>,
                                              idDb: Database, db: Database)
    requires DbShown(entities, idDb, db) && GroundRollup(entities, rollup).Some?
    requires !Satisfiable(GroundRollup(entities, rollup).value.where)
    ensures SameMeaning(all, entities, rollup, toNumber, idDb, db)
  {
    GroundedPath(entities, rollup);
    var plan, over := GroundRollup(entities, rollup).value, FindEntity(entities, rollup.over).value;
    FindEntitySpec(entities, rollup.over);
    assert TableShown(over, idDb, db);
    StoppedRows(db, plan, Rows(db, plan.over), toNumber);
    StoppedRecords(all, idDb, over, rollup, Rows(idDb, over.id), Rows(db, plan.over), toNumber);
  }

  /**
   * A grounded rollup means what was declared on every database exactly when its path stays in the view
   * or its filters admit no row.
   */
  lemma {:induction false} RollupPreservedIff(all: seq<Entity>, entities: seq<Entity>, rollup: Rollup, toNumber: Cell -> Option<real>)
    requires Valid(all) && (forall e :: e in entities ==> e in all) && GroundRollup(entities, rollup).Some?
    ensures (forall idDb, db :: DbShown(entities, idDb, db) ==> SameMeaning(all, entities, rollup, toNumber, idDb, db))
            <==> PathStays(entities, rollup) || !Satisfiable(GroundRollup(entities, rollup).value.where)
  {
    GroundedPath(entities, rollup);
    if PathStays(entities, rollup) {
      forall idDb, db | DbShown(entities, idDb, db)
        ensures SameMeaning(all, entities, rollup, toNumber, idDb, db)
      {
        RollupPreserved(all, entities, idDb, db, rollup, toNumber);
      }
    } else if !Satisfiable(GroundRollup(entities, rollup).value.where) {
      forall idDb, db | DbShown(entities, idDb, db)
        ensures SameMeaning(all, entities, rollup, toNumber, idDb, db)
      {
        NothingToAttribute(all, entities, rollup, toNumber, idDb, db);
      }
    } else {
      var idDb, db := LeavingChangesMeaning(all, entities, rollup, toNumber);
    }
  }

  /** An unfiltered rollup is preserved on every database exactly when its path stays in the view. */
  lemma {:induction false} UnfilteredPreservedIff(all: seq<Entity>, entities: seq<Entity>, rollup: Rollup, toNumber: Cell -> Option<real>)
    requires Valid(all) && (forall e :: e in entities ==> e in all) && GroundRollup(entities, rollup).Some? && rollup.where == []
    ensures (forall idDb, db :: DbShown(entities, idDb, db) ==> SameMeaning(all, entities, rollup, toNumber, idDb, db))
            <==> PathStays(entities, rollup)
  {
    RollupPreservedIff(all, entities, rollup, toNumber);
  }
}
