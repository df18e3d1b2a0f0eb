/**
 * Applying a source run's writes. Models applyWritesWith and toColumns of
 * apps/web/app/sources.server.ts over a table read in row order.
 */
module Sources {
  import opened Collections
  import opened Spec

  datatype Entry = Entry(fieldId: string, value: Cell)

  datatype SourceWrite =
    | Update(rowId: nat, values: seq<Entry>)
    | Upsert(matchField: string, matchValue: string, values: seq<Entry>)

  type Cells = map<string, Cell>

  datatype StoredRow = StoredRow(id: nat, cells: Cells)

  /** A resource's rows, the next key the database will hand out, and its columns. */
  datatype Table = Table(rows: seq<StoredRow>, next: nat, columns: set<string>)

  /** What an op is asked to do; a gate (validation, limits, access, hooks) may refuse it with a reason. */
  datatype Op = ListOp(column: string, value: string) | CreateOp(cells: Cells) | UpdateOp(id: nat, cells: Cells)

  type Gate = (Table, Op) -> Option<string>

  datatype Outcome = Done(table: Table) | Refused(reason: string)

  // ---------------------------------------------------------------------------
  // Field ids to columns
  // ---------------------------------------------------------------------------

  /** The column name of each field id: of two fields with one id the last stays. */
  function ColumnsOf(fields: seq<Field>): map<string, string> {
    if fields == [] then map[]
    else ColumnsOf(fields[..|fields| - 1])[fields[|fields| - 1].id := fields[|fields| - 1].name]
  }

  predicate HasColumn(columnOf: map<string, string>, fieldId: string) {
    fieldId in columnOf && columnOf[fieldId] != ""
  }

  /** Values by column; a field the entity no longer has is dropped, a later entry wins. */
  function ColumnValues(columnOf: map<string, string>, values: seq<Entry>): Cells {
    if values == [] then map[]
    else
      var last := values[|values| - 1];
      var rest := ColumnValues(columnOf, values[..|values| - 1]);
      if HasColumn(columnOf, last.fieldId) then rest[columnOf[last.fieldId] := last.value] else rest
  }

  method ToColumns(fields: seq<Field>, values: seq<Entry>) returns (out: Cells)
    ensures out == ColumnValues(ColumnsOf(fields), values)
  {
    var byId := ColumnsOf(fields);
    out := map[];
    for i := 0 to |values|
      invariant out == ColumnValues(byId, values[..i])
    {
      assert values[..i + 1][..i] == values[..i] && values[..i + 1][i] == values[i];
      if HasColumn(byId, values[i].fieldId) {
        out := out[byId[values[i].fieldId] := values[i].value];
      }
    }
    assert values[..|values|] == values;
  }

  // ---------------------------------------------------------------------------
  // The ops
  // ---------------------------------------------------------------------------

  predicate Matches(columns: set<string>, row: StoredRow, column: string, value: string) {
    column !in columns || (column in row.cells && row.cells[column] == Text(value))
  }

  /** The first row a filter admits; a filter on a column the resource does not have admits every row. */
  function FirstMatch(rows: seq<StoredRow>, columns: set<string>, column: string, value: string): (i: Option<nat>)
    ensures i.Some? ==> i.value < |rows| && Matches(columns, rows[i.value], column, value)
    ensures i.Some? ==> forall j :: 0 <= j < i.value ==> !Matches(columns, rows[j], column, value)
    ensures i.None? ==> forall j :: 0 <= j < |rows| ==> !Matches(columns, rows[j], column, value)
  {
    if rows == [] then None
    else if Matches(columns, rows[0], column, value) then Some(0)
    else
      assert forall j :: 0 < j < |rows| ==> rows[j] == rows[1..][j - 1];
      match FirstMatch(rows[1..], columns, column, value)
      case None => None
      case Some(i) => Some(i + 1)
  }

  function IndexOf(rows: seq<StoredRow>, id: nat): (i: Option<nat>)
    ensures i.Some? ==> i.value < |rows| && rows[i.value].id == id
    ensures i.Some? ==> forall j :: 0 <= j < i.value ==> rows[j].id != id
    ensures i.None? ==> forall j :: 0 <= j < |rows| ==> rows[j].id != id
  {
    if rows == [] then None
    else if rows[0].id == id then Some(0)
    else
      assert forall j :: 0 < j < |rows| ==> rows[j] == rows[1..][j - 1];
      match IndexOf(rows[1..], id) case None => None case Some(i) => Some(i + 1)
  }

  /** Validation keeps the columns the resource has. */
  function Known(columns: set<string>, cells: Cells): Cells {
    map c | c in cells && c in columns :: cells[c]
  }

  function OpUpdate(t: Table, gate: Gate, id: nat, cells: Cells): Outcome {
    match gate(t, UpdateOp(id, cells))
    case Some(reason) => Refused(reason)
    case None =>
      var i := IndexOf(t.rows, id);
      if i.None? then Refused("not found")
      else if Known(t.columns, cells) == map[] then Refused("nothing to update")
      else Done(t.(rows := t.rows[i.value := StoredRow(id, t.rows[i.value].cells + Known(t.columns, cells))]))
  }

  function OpCreate(t: Table, gate: Gate, cells: Cells): Outcome {
    match gate(t, CreateOp(cells))
    case Some(reason) => Refused(reason)
    case None => Done(t.(rows := t.rows + [StoredRow(t.next, Known(t.columns, cells))], next := t.next + 1))
  }

  // ---------------------------------------------------------------------------
  // A run
  // ---------------------------------------------------------------------------

  function ApplyOne(t: Table, gate: Gate, columnOf: map<string, string>, write: SourceWrite): Outcome {
    match write
    case Update(rowId, values) => OpUpdate(t, gate, rowId, ColumnValues(columnOf, values))
    case Upsert(matchField, matchValue, values) =>
      if !HasColumn(columnOf, matchField) then Refused("no longer a field")
      else
        var column := columnOf[matchField];
        match gate(t, ListOp(column, matchValue))
        case Some(reason) => Refused(reason)
        case None =>
          match FirstMatch(t.rows, t.columns, column, matchValue)
          case Some(i) => OpUpdate(t, gate, t.rows[i].id, ColumnValues(columnOf, values))
          case None => OpCreate(t, gate, ColumnValues(columnOf, values))
  }

  /** `applied` lists the writes that landed, in order. */
  datatype Ran = Ran(table: Table, failures: seq<string>, applied: seq<SourceWrite>)

  function Run(t: Table, gate: Gate, columnOf: map<string, string>, writes: seq<SourceWrite>): Ran {
    if writes == [] then Ran(t, [], [])
    else
      var n := |writes| - 1;
      var before := Run(t, gate, columnOf, writes[..n]);
      match ApplyOne(before.table, gate, columnOf, writes[n])
      case Done(table) => Ran(table, before.failures, before.applied + [writes[n]])
      case Refused(reason) => Ran(before.table, before.failures + [reason], before.applied)
  }

  /** The stored rows of one resource. */
  class Store {
    var table: Table

    constructor (columns: set<string>)
      ensures table == Table([], 0, columns)
    {
      table := Table([], 0, columns);
    }

    method Write(gate: Gate, columnOf: map<string, string>, fields: seq<Field>, write: SourceWrite) returns (failure: Option<string>)
      requires columnOf == ColumnsOf(fields)
      modifies this
      ensures match ApplyOne(old(table), gate, columnOf, write)
              case Done(t) => table == t && failure == None
              case Refused(reason) => table == old(table) && failure == Some(reason)
    {
      var cells := ToColumns(fields, write.values);
      var outcome;
      if write.Update? {
        outcome := OpUpdate(table, gate, write.rowId, cells);
      } else {
        if write.matchField !in columnOf || columnOf[write.matchField] == "" {
          return Some("no longer a field");
        }
        var column := columnOf[write.matchField];
        var refusal := gate(table, ListOp(column, write.matchValue));
        if refusal.Some? {
          return refusal;
        }
        var existing := FirstMatch(table.rows, table.columns, column, write.matchValue);
        if existing.Some? {
          outcome := OpUpdate(table, gate, table.rows[existing.value].id, cells);
        } else {
          outcome := OpCreate(table, gate, cells);
        }
      }
      match outcome {
        case Done(t) => table := t; failure := None;
        case Refused(reason) => failure := Some(reason);
      }
    }

    /**
     * Per write, never all-or-nothing; the failures are thrown as one summary. `tenantMissing` says the
     * resource is tenant-scoped and the run carries no organization.
     */
    method ApplyWritesWith(gate: Gate, writes: seq<SourceWrite>, fields: seq<Field>, tenantMissing: bool)
      returns (thrown: Option<seq<string>>)
      modifies this
      ensures tenantMissing ==> thrown.Some? && table == old(table)
      ensures !tenantMissing ==>
                var ran := Run(old(table), gate, ColumnsOf(fields), writes);
                table == ran.table && thrown == if ran.failures == [] then None else Some(ran.failures)
    {
      if tenantMissing {
        return Some(["this run carries no organization"]);
      }
      var byId := ColumnsOf(fields);
      var failures: seq<string> := [];
      for i := 0 to |writes|
        invariant var ran := Run(old(table), gate, byId, writes[..i]);
                  table == ran.table && failures == ran.failures
      {
        assert writes[..i + 1][..i] == writes[..i] && writes[..i + 1][i] == writes[i];
        var failure := Write(gate, byId, fields, writes[i]);
        if failure.Some? {
          failures := failures + [failure.value];
        }
      }
      assert writes[..|writes|] == writes;
      if failures != [] {
        return Some(failures);
      }
      thrown := None;
    }
  }

  // ---------------------------------------------------------------------------
  // Partial failure
  // ---------------------------------------------------------------------------

  lemma {:induction false} RunSnoc(t: Table, gate: Gate, columnOf: map<string, string>, writes: seq<SourceWrite>, w: SourceWrite)
    ensures var before := Run(t, gate, columnOf, writes);
            Run(t, gate, columnOf, writes + [w]) ==
            match ApplyOne(before.table, gate, columnOf, w)
            case Done(table) => Ran(table, before.failures, before.applied + [w])
            case Refused(reason) => Ran(before.table, before.failures + [reason], before.applied)
  {
    assert (writes + [w])[..|writes|] == writes;
  }

  /**
   * The table after a run is what the writes that landed would have left on their own, all of them
   * landing; every other write is one failure. So a run throws iff at least one write failed.
   */
  lemma {:induction false} OnlyAppliedWritesCount(t: Table, gate: Gate, columnOf: map<string, string>, writes: seq<SourceWrite>)
    ensures var ran := Run(t, gate, columnOf, writes);
            && Run(t, gate, columnOf, ran.applied) == Ran(ran.table, [], ran.applied)
            && |ran.applied| + |ran.failures| == |writes|
            && (ran.failures == [] ==> ran.applied == writes)
  {
    if writes != [] {
      var n := |writes| - 1;
      OnlyAppliedWritesCount(t, gate, columnOf, writes[..n]);
      assert writes == writes[..n] + [writes[n]];
      RunSnoc(t, gate, columnOf, writes[..n], writes[n]);
      RunSnoc(t, gate, columnOf, Run(t, gate, columnOf, writes[..n]).applied, writes[n]);
    }
  }
}
