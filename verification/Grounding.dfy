/**
 * Grounding derived values: expressions and rollups written in field ids become plans written in
 * column names. Models groundComputedExpr, groundComputed and groundRollups of
 * apps/web/app/spec-sprout.ts; what a plan means is packages/maxstack-core/src/sprout/derived.ts.
 */
module Grounding {
  import opened Collections
  import opened Spec

  /** A grounded expression: leaves are column names. */
  datatype Node =
    | FieldNode(column: string)
    | LiteralNode(value: real)
    | BinaryNode(op: Operator, left: Node, right: Node)

  datatype ComputedPlan = ComputedPlan(name: string, expr: Node)

  datatype Hop = Hop(column: string, table: string)

  datatype ColumnFilter = ColumnFilter(column: string, equals: Cell)

  datatype GroupColumn = GroupColumn(column: string, bucket: Option<Bucket>)

  datatype RollupPlan = RollupPlan(name: string, over: string, via: Option<seq<Hop>>, fn: AggFn,
                                   column: Option<string>, computed: Option<Node>, where: seq<ColumnFilter>,
                                   groupBy: Option<GroupColumn>, limit: Option<nat>)

  // ---------------------------------------------------------------------------
  // Expressions
  // ---------------------------------------------------------------------------

  function GroundExpr(view: seq<Field>, expr: Expr): Option<Node> {
    match expr
    case Malformed => None
    case Literal(value) => if value.Some? then Some(LiteralNode(value.value)) else None
    case FieldRef(id) =>
      (match FindField(view, id) case Some(f) => Some(FieldNode(f.name)) case None => None)
    case Binary(op, left, right) =>
      var l, r := GroundExpr(view, left), GroundExpr(view, right);
      if l.None? || r.None? then None else Some(BinaryNode(op, l.value, r.value))
  }

  predicate WellFormed(expr: Expr) {
    match expr
    case Malformed => false
    case Literal(value) => value.Some?
    case FieldRef(_) => true
    case Binary(_, left, right) => WellFormed(left) && WellFormed(right)
  }

  function Leaves(expr: Expr): set<string> {
    match expr
    case FieldRef(id) => {id}
    case Binary(_, left, right) => Leaves(left) + Leaves(right)
    case _ => {}
  }

  function Ids(fields: seq<Field>): set<string> {
    set f | f in fields :: f.id
  }

  /** An expression grounds exactly when it is well formed and every leaf is a field of the view. */
  lemma {:induction false} GroundsIff(view: seq<Field>, expr: Expr)
    ensures GroundExpr(view, expr).Some? <==> WellFormed(expr) && Leaves(expr) <= Ids(view)
  {
    match expr
    case FieldRef(id) => FindFieldSpec(view, id);
    case Binary(op, left, right) =>
      GroundsIff(view, left);
      GroundsIff(view, right);
    case _ =>
  }

  function Get(cells: map<string, Cell>, key: string): Cell {
    if key in cells then cells[key] else Null
  }

  /** `cells` shows a record through its columns: each field of the view reads the same under its name. */
  ghost predicate Shown(view: seq<Field>, record: map<string, Cell>, cells: map<string, Cell>) {
    forall f :: f in view ==> Get(cells, f.name) == Get(record, f.id)
  }

  function Arithmetic(op: Operator, left: Option<real>, right: Option<real>): Option<real> {
    if left.None? || right.None? then None
    else match op
      case Plus => Some(left.value + right.value)
      case Minus => Some(left.value - right.value)
      case Times => Some(left.value * right.value)
      case Over => if right.value == 0.0 then None else Some(left.value / right.value)
  }

  /** What the runtime computes on a row keyed by column name. `toNumber` is the host's coercion. */
  function Evaluate(node: Node, cells: map<string, Cell>, toNumber: Cell -> Option<real>): Option<real> {
    match node
    case LiteralNode(value) => Some(value)
    case FieldNode(column) => if Get(cells, column).Null? then None else toNumber(Get(cells, column))
    case BinaryNode(op, left, right) => Arithmetic(op, Evaluate(left, cells, toNumber), Evaluate(right, cells, toNumber))
  }

  /** What the declaration says, on a record keyed by field id. */
  function Denotes(expr: Expr, record: map<string, Cell>, toNumber: Cell -> Option<real>): Option<real> {
    match expr
    case Malformed => None
    case Literal(value) => value
    case FieldRef(id) => if Get(record, id).Null? then None else toNumber(Get(record, id))
    case Binary(op, left, right) => Arithmetic(op, Denotes(left, record, toNumber), Denotes(right, record, toNumber))
  }

  /**
   * What a declared operation denotes: nothing when either side denotes nothing or a division is by zero, and
   * otherwise the sum, difference, product or quotient of the two sides.
   */
  lemma {:induction false} OperationDenotes(op: Operator, left: Expr, right: Expr, record: map<string, Cell>, toNumber: Cell -> Option<real>)
    ensures var l, r := Denotes(left, record, toNumber), Denotes(right, record, toNumber);
            var v := Denotes(Binary(op, left, right), record, toNumber);
            && (v == None <==> l == None || r == None || (op == Over && r.value == 0.0))
            && (v.Some? && op == Plus ==> v.value == l.value + r.value)
            && (v.Some? && op == Minus ==> v.value == l.value - r.value)
            && (v.Some? && op == Times ==> v.value == l.value * r.value)
            && (v.Some? && op == Over ==> v.value == l.value / r.value)
  {}

  /** What a leaf denotes: a literal its value, a field the number its cell coerces to, and nothing when it has none. */
  lemma {:induction false} LeafDenotes(id: string, value: Option<real>, record: map<string, Cell>, toNumber: Cell -> Option<real>)
    ensures Denotes(Literal(value), record, toNumber) == value
    ensures id !in record || record[id] == Null ==> Denotes(FieldRef(id), record, toNumber) == None
    ensures id in record && record[id] != Null ==> Denotes(FieldRef(id), record, toNumber) == toNumber(record[id])
  {}

  /** Grounding preserves an expression's value on every row that shows the record. */
  lemma {:induction false} ExprPreserved(view: seq<Field>, expr: Expr, record: map<string, Cell>,
                                         cells: map<string, Cell>, toNumber: Cell -> Option<real>)
    requires GroundExpr(view, expr).Some? && Shown(view, record, cells)
    ensures Evaluate(GroundExpr(view, expr).value, cells, toNumber) == Denotes(expr, record, toNumber)
  {
    match expr
    case FieldRef(id) => FindFieldSpec(view, id);
    case Binary(op, left, right) =>
      ExprPreserved(view, left, record, cells, toNumber);
      ExprPreserved(view, right, record, cells, toNumber);
    case _ =>
  }

  /** A row keyed by column name. */
  function NamedCells(view: seq<Field>, record: map<string, Cell>): map<string, Cell> {
    if view == [] then map[]
    else NamedCells(view[1..], record)[view[0].name := Get(record, view[0].id)]
  }

  /** Every record can be shown when column names are distinct. */
  lemma {:induction false} NamedCellsShow(view: seq<Field>, record: map<string, Cell>)
    requires forall i, j :: 0 <= i < j < |view| ==> view[i].name != view[j].name
    ensures Shown(view, record, NamedCells(view, record))
  {
    if view != [] {
      NamedCellsShow(view[1..], record);
      forall f | f in view
        ensures Get(NamedCells(view, record), f.name) == Get(record, f.id)
      {
        var i :| 0 <= i < |view| && view[i] == f;
        if i > 0 {
          assert view[1..][i - 1] == f;
        }
      }
    }
  }

  function ComputedPlanOf(view: seq<Field>): Computed -> Option<ComputedPlan> {
    (c: Computed) => match GroundExpr(view, c.expr)
      case None => None
      case Some(node) => Some(ComputedPlan(c.name, node))
  }

  method GroundComputed(entity: Entity) returns (out: seq<ComputedPlan>)
    ensures out == FilterMap(AcceptedOrAll(entity.computed, ComputedAccepted()), ComputedPlanOf(View(entity)))
  {
    var declared := AcceptedOrAll(entity.computed, ComputedAccepted());
    ghost var plan := ComputedPlanOf(View(entity));
    out := [];
    for i := 0 to |declared|
      invariant out == FilterMap(declared[..i], plan)
    {
      FilterMapStep(declared, i, plan);
      var expr := GroundExpr(View(entity), declared[i].expr);
      if expr.Some? {
        out := out + [ComputedPlan(declared[i].name, expr.value)];
      }
    }
    assert declared[..|declared|] == declared;
  }

  // ---------------------------------------------------------------------------
  // Rollups: the plan
  // ---------------------------------------------------------------------------

  function PathOf(via: Via): Option<seq<string>> {
    match via case NoVia => None case One(id) => Some([id]) case Many(ids) => Some(ids)
  }

  /** The hops of a relation path: cut short at the first hop whose target is outside the view. */
  function GroundHops(entities: seq<Entity>, current: Entity, ids: seq<string>): Option<seq<Hop>>
    decreases |ids|
  {
    if ids == [] then Some([])
    else match FindField(View(current), ids[0])
      case None => None
      case Some(fk) =>
        if fk.reference == "" then None
        else
          var hop := Hop(fk.name, ResourceName(fk.reference));
          match FindEntity(entities, fk.reference)
          case None => Some([hop])
          case Some(next) => Prepend([hop], GroundHops(entities, next, ids[1..]))
  }

  function GroundVia(entities: seq<Entity>, over: Entity, via: Via): Option<Option<seq<Hop>>> {
    match PathOf(via)
    case None => Some(None)
    case Some(ids) =>
      match GroundHops(entities, over, ids)
      case None => None
      case Some(hops) => if hops == [] then None else Some(Some(hops))
  }

  function GroundWhere(view: seq<Field>, where: seq<RowFilter>): Option<seq<ColumnFilter>> {
    if where == [] then Some([])
    else match FindField(view, where[0].field)
      case None => None
      case Some(f) => Prepend([ColumnFilter(f.name, where[0].equals)], GroundWhere(view, where[1..]))
  }

  datatype Operand = WholeRow | StoredColumn(column: string) | Inlined(node: Node)

  /** The aggregated value; a column whose name is empty reads as no column. */
  function GroundOperand(over: Entity, field: Option<string>): Option<Operand> {
    match field
    case None => Some(WholeRow)
    case Some(id) =>
      match FindField(View(over), id)
      case Some(f) => Some(if f.name == "" then WholeRow else StoredColumn(f.name))
      case None =>
        match FindComputed(AcceptedOrAll(over.computed, ComputedAccepted()), id)
        case None => None
        case Some(c) => match GroundExpr(View(over), c.expr) case None => None case Some(node) => Some(Inlined(node))
  }

  function GroundGroup(view: seq<Field>, groupBy: Option<GroupBy>): Option<Option<GroupColumn>> {
    match groupBy
    case None => Some(None)
    case Some(g) =>
      match FindField(view, g.field)
      case None => None
      case Some(f) => Some(Some(GroupColumn(f.name, g.bucket)))
  }

  function Assemble(rollup: Rollup, via: Option<seq<Hop>>, operand: Operand, where: seq<ColumnFilter>,
                    groupBy: Option<GroupColumn>): RollupPlan {
    RollupPlan(rollup.name, ResourceName(rollup.over), via, rollup.fn,
               if operand.StoredColumn? then Some(operand.column) else None,
               if operand.Inlined? then Some(operand.node) else None,
               where, groupBy, rollup.limit)
  }

  /** One rollup, whole or not at all. */
  function GroundRollup(entities: seq<Entity>, rollup: Rollup): Option<RollupPlan> {
    match FindEntity(entities, rollup.over)
    case None => None
    case Some(over) =>
      var via := GroundVia(entities, over, rollup.via);
      var operand := GroundOperand(over, rollup.field);
      var where := GroundWhere(View(over), rollup.where);
      var groupBy := GroundGroup(View(over), rollup.groupBy);
      if via.None? || operand.None? || where.None? || groupBy.None? then None
      else Some(Assemble(rollup, via.value, operand.value, where.value, groupBy.value))
  }

  function RollupPlanOf(entities: seq<Entity>): Rollup -> Option<RollupPlan> {
    (r: Rollup) => GroundRollup(entities, r)
  }

  // ---------------------------------------------------------------------------
  // Rollups: the loops
  // ---------------------------------------------------------------------------

  method WalkHops(entities: seq<Entity>, over: Entity, ids: seq<string>) returns (hops: Option<seq<Hop>>)
    ensures hops == GroundHops(entities, over, ids)
  {
    var resolved: seq<Hop> := [];
    var current := over;
    var ok := true;
    var i := 0;
    assert ids[0..] == ids;
    while i < |ids|
      invariant 0 <= i <= |ids| && ok
      invariant GroundHops(entities, over, ids) == Prepend(resolved, GroundHops(entities, current, ids[i..]))
    {
      assert ids[i..][0] == ids[i] && ids[i..][1..] == ids[i + 1..];
      var fk := FindField(View(current), ids[i]);
      if fk.None? || fk.value.reference == "" {
        ok := false;
        break;
      }
      var hop := Hop(fk.value.name, ResourceName(fk.value.reference));
      resolved := resolved + [hop];
      var next := FindEntity(entities, fk.value.reference);
      if next.None? {
        break;
      }
      PrependStep(resolved[..|resolved| - 1], hop, GroundHops(entities, next.value, ids[i + 1..]));
      assert resolved[..|resolved| - 1] + [hop] == resolved;
      current := next.value;
      i := i + 1;
    }
    if !ok {
      return None;
    }
    hops := Some(resolved);
  }

  method WalkFilters(view: seq<Field>, filters: seq<RowFilter>) returns (where: Option<seq<ColumnFilter>>)
    ensures where == GroundWhere(view, filters)
  {
    var grounded: seq<ColumnFilter> := [];
    assert filters[0..] == filters;
    for i := 0 to |filters|
      invariant GroundWhere(view, filters) == Prepend(grounded, GroundWhere(view, filters[i..]))
    {
      assert filters[i..][0] == filters[i] && filters[i..][1..] == filters[i + 1..];
      var target := FindField(view, filters[i].field);
      if target.None? {
        return None;
      }
      PrependStep(grounded, ColumnFilter(target.value.name, filters[i].equals), GroundWhere(view, filters[i + 1..]));
      grounded := grounded + [ColumnFilter(target.value.name, filters[i].equals)];
    }
    where := Some(grounded);
  }

  method GroundRollups(entities: seq<Entity>, entity: Entity) returns (out: seq<RollupPlan>)
    ensures out == FilterMap(AcceptedOrAll(entity.rollups, RollupAccepted()), RollupPlanOf(entities))
  {
    var declared := AcceptedOrAll(entity.rollups, RollupAccepted());
    ghost var plan := RollupPlanOf(entities);
    out := [];
    var i := 0;
    while i < |declared|
      invariant 0 <= i <= |declared|
      invariant out == FilterMap(declared[..i], plan)
    {
      FilterMapStep(declared, i, plan);
      var rollup := declared[i];
      i := i + 1;
      var over := FindEntity(entities, rollup.over);
      if over.None? { continue; }

      var hops: Option<seq<Hop>> := None;
      if PathOf(rollup.via).Some? {
        var resolved := WalkHops(entities, over.value, PathOf(rollup.via).value);
        if resolved.None? || resolved.value == [] { continue; }
        hops := resolved;
      }

      var operand := WholeRow;
      if rollup.field.Some? {
        var stored := FindField(View(over.value), rollup.field.value);
        if stored.Some? {
          operand := if stored.value.name == "" then WholeRow else StoredColumn(stored.value.name);
        } else {
          var derived := FindComputed(AcceptedOrAll(over.value.computed, ComputedAccepted()), rollup.field.value);
          if derived.None? { continue; }
          var node := GroundExpr(View(over.value), derived.value.expr);
          if node.None? { continue; }
          operand := Inlined(node.value);
        }
      }

      var where := WalkFilters(View(over.value), rollup.where);
      if where.None? { continue; }

      var groupBy: Option<GroupColumn> := None;
      if rollup.groupBy.Some? {
        var key := FindField(View(over.value), rollup.groupBy.value.field);
        if key.None? { continue; }
        groupBy := Some(GroupColumn(key.value.name, rollup.groupBy.value.bucket));
      }

      out := out + [Assemble(rollup, hops, operand, where.value, groupBy)];
    }
    assert declared[..|declared|] == declared;
  }
}
