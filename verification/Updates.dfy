/**
 * What a single write and a run of updates leave: the cells of a row after its updates are the cells it
 * had and the values the updates carried, run together. Models applyWritesWith and toColumns of
 * apps/web/app/sources.server.ts over the updates an enrichment produces.
 */
module Updates {
  import opened Collections
  import opened Spec
  import opened Sources
  import opened SyncRepeat

  // ---------------------------------------------------------------------------
  // Field ids to columns
  // ---------------------------------------------------------------------------

  /** The column of a field id is the name of the last field that has the id. */
  lemma {:induction false} ColumnsOfAt(fields: seq<Field>, id: string)
    ensures id in ColumnsOf(fields) <==> exists f :: f in fields && f.id == id
    ensures forall k :: 0 <= k < |fields| && fields[k].id == id && (forall j :: k < j < |fields| ==> fields[j].id != id) ==>
                          id in ColumnsOf(fields) && ColumnsOf(fields)[id] == fields[k].name
  {
    if fields != [] {
      var n := |fields| - 1;
      ColumnsOfAt(fields[..n], id);
      assert fields == fields[..n] + [fields[n]];
    }
  }

  /** An entry gives a column its value: its field has that column, and the column has a name. */
  predicate Gives(columnOf: map<string, string>, e: Entry, column: string) {
    e.fieldId in columnOf && columnOf[e.fieldId] == column && column != ""
  }

  lemma {:induction false} ColumnValuesSnoc(columnOf: map<string, string>, rest: seq<Entry>, last: Entry, column: string)
    ensures var before, after := ColumnValues(columnOf, rest), ColumnValues(columnOf, rest + [last]);
            && (column in after <==> column in before || Gives(columnOf, last, column))
            && (Gives(columnOf, last, column) ==> column in after && after[column] == last.value)
            && (column in before && !Gives(columnOf, last, column) ==> column in after && after[column] == before[column])
  {
    assert (rest + [last])[..|rest|] == rest && (rest + [last])[|rest|] == last;
  }

  lemma {:induction false} ColumnGivenIff(columnOf: map<string, string>, values: seq<Entry>, column: string)
    ensures column in ColumnValues(columnOf, values) <==> exists e :: e in values && Gives(columnOf, e, column)
  {
    if values != [] {
      var n := |values| - 1;
      ColumnGivenIff(columnOf, values[..n], column);
      ColumnValuesSnoc(columnOf, values[..n], values[n], column);
      assert values == values[..n] + [values[n]];
    }
  }

  lemma {:induction false} LastGiven(columnOf: map<string, string>, values: seq<Entry>, column: string, k: nat)
    requires k < |values| && Gives(columnOf, values[k], column) && forall j :: k < j < |values| ==> !Gives(columnOf, values[j], column)
    ensures column in ColumnValues(columnOf, values) && ColumnValues(columnOf, values)[column] == values[k].value
  {
    var n := |values| - 1;
    var rest := values[..n];
    ColumnValuesSnoc(columnOf, rest, values[n], column);
    assert values == rest + [values[n]];
    if k < n {
      assert rest[k] == values[k] && forall j :: k < j < n ==> rest[j] == values[j];
      LastGiven(columnOf, rest, column, k);
    }
  }

  /** Values by column: a column is there exactly when some entry gives it a value, and holds the last one given. */
  lemma {:induction false} ColumnValuesAt(columnOf: map<string, string>, values: seq<Entry>, column: string)
    ensures column in ColumnValues(columnOf, values) <==> exists k :: 0 <= k < |values| && Gives(columnOf, values[k], column)
    ensures forall k :: 0 <= k < |values| && Gives(columnOf, values[k], column)
                        && (forall j :: k < j < |values| ==> !Gives(columnOf, values[j], column)) ==>
                          column in ColumnValues(columnOf, values) && ColumnValues(columnOf, values)[column] == values[k].value
  {
    ColumnGivenIff(columnOf, values, column);
    if e :| e in values && Gives(columnOf, e, column) {
      var k :| 0 <= k < |values| && values[k] == e;
      assert Gives(columnOf, values[k], column);
    }
    forall k | 0 <= k < |values| && Gives(columnOf, values[k], column)
               && forall j :: k < j < |values| ==> !Gives(columnOf, values[j], column)
      ensures column in ColumnValues(columnOf, values) && ColumnValues(columnOf, values)[column] == values[k].value
    {
      LastGiven(columnOf, values, column, k);
    }
  }

  lemma {:induction false} ColumnValuesAppend(columnOf: map<string, string>, a: seq<Entry>, b: seq<Entry>)
    ensures ColumnValues(columnOf, a + b) == ColumnValues(columnOf, a) + ColumnValues(columnOf, b)
  {
    if b == [] {
      assert a + b == a;
    } else {
      var n := |b| - 1;
      ColumnValuesAppend(columnOf, a, b[..n]);
      assert (a + b)[..|a + b| - 1] == a + b[..n];
    }
  }

  // ---------------------------------------------------------------------------
  // One write
  // ---------------------------------------------------------------------------

  /**
   * An update asks its gate with the values by column; let through, it is refused when no row has the id or
   * none of its values has a column in the resource, and otherwise lays those values over the row's cells.
   */
  lemma {:induction false} UpdateIsExact(t: Table, gate: Gate, columnOf: map<string, string>, rowId: nat, values: seq<Entry>)
    ensures var cells := ColumnValues(columnOf, values);
            var landing := map c | c in cells && c in t.columns :: cells[c];
            var refusal := gate(t, UpdateOp(rowId, cells));
            var outcome := ApplyOne(t, gate, columnOf, Update(rowId, values));
            && (refusal.Some? ==> outcome == Refused(refusal.value))
            && ((forall i :: 0 <= i < |t.rows| ==> t.rows[i].id != rowId) ==> outcome.Refused?)
            && (landing == map[] ==> outcome.Refused?)
            && forall i :: 0 <= i < |t.rows| && t.rows[i].id == rowId && (forall j :: 0 <= j < i ==> t.rows[j].id != rowId)
                           && refusal.None? && landing != map[] ==>
                             outcome == Done(t.(rows := t.rows[i := StoredRow(rowId, t.rows[i].cells + landing)]))
  {
    var cells := ColumnValues(columnOf, values);
    assert Known(t.columns, cells) == map c | c in cells && c in t.columns :: cells[c];
  }

  /**
   * An update that lands, cell by cell: each column of the resource that its values give anything holds the
   * last value given, and every other cell of the row, and every other row, is as it was.
   */
  lemma {:induction false} UpdateLands(t: Table, gate: Gate, columnOf: map<string, string>, i: nat, values: seq<Entry>, column: string)
    requires Open(gate) && ValidTable(t) && i < |t.rows|
    ensures var outcome := ApplyOne(t, gate, columnOf, Update(t.rows[i].id, values));
            && (outcome.Done? <==> exists k :: 0 <= k < |values| && values[k].fieldId in columnOf
                                     && columnOf[values[k].fieldId] != "" && columnOf[values[k].fieldId] in t.columns)
            && (outcome.Done? ==>
                  var row := outcome.table.rows[i];
                  && outcome.table == t.(rows := t.rows[i := row]) && row.id == t.rows[i].id
                  && (column !in t.columns || (forall k :: 0 <= k < |values| ==> !Gives(columnOf, values[k], column)) ==>
                        Holding(row.cells, column) == Holding(t.rows[i].cells, column))
                  && forall k :: 0 <= k < |values| && column in t.columns && Gives(columnOf, values[k], column)
                                 && (forall j :: k < j < |values| ==> !Gives(columnOf, values[j], column)) ==>
                                   Holding(row.cells, column) == Some(values[k].value))
  {
    var cells := ColumnValues(columnOf, values);
    var landing := map c | c in cells && c in t.columns :: cells[c];
    UpdateIsExact(t, gate, columnOf, t.rows[i].id, values);
    ColumnValuesAt(columnOf, values, column);
    if landing == map[] {
      forall k | 0 <= k < |values| && values[k].fieldId in columnOf && columnOf[values[k].fieldId] != ""
        ensures columnOf[values[k].fieldId] !in t.columns
      {
        ColumnValuesAt(columnOf, values, columnOf[values[k].fieldId]);
        assert Gives(columnOf, values[k], columnOf[values[k].fieldId]);
        assert columnOf[values[k].fieldId] in landing || columnOf[values[k].fieldId] !in t.columns;
      }
    } else {
      var c :| c in landing;
      ColumnValuesAt(columnOf, values, c);
    }
  }

  function Holding(cells: Cells, column: string): Option<Cell> {
    if column in cells then Some(cells[column]) else None
  }

  /**
   * An upsert whose match field has a column asks to list by it; let through, it is an update of the first
   * row the filter admits, by that row's key, and where the filter admits none a row of its own under the next key.
   */
  lemma {:induction false} UpsertIsExact(t: Table, gate: Gate, columnOf: map<string, string>, field: string, v: string, values: seq<Entry>)
    ensures var outcome := ApplyOne(t, gate, columnOf, Upsert(field, v, values));
            var cells := ColumnValues(columnOf, values);
            && (field !in columnOf || columnOf[field] == "" ==> outcome.Refused?)
            && (field in columnOf && columnOf[field] != "" ==>
                  var column := columnOf[field];
                  var refusal, creating := gate(t, ListOp(column, v)), gate(t, CreateOp(cells));
                  && (refusal.Some? ==> outcome == Refused(refusal.value))
                  && (refusal.None? ==>
                        && (forall i :: 0 <= i < |t.rows| && Admitted(t, i, column, v) && (forall j :: 0 <= j < i ==> !Admitted(t, j, column, v)) ==>
                              outcome == ApplyOne(t, gate, columnOf, Update(t.rows[i].id, values)))
                        && ((forall i :: 0 <= i < |t.rows| ==> !Admitted(t, i, column, v)) ==>
                              outcome == if creating.Some? then Refused(creating.value)
                                         else Done(t.(rows := t.rows + [StoredRow(t.next, map c | c in cells && c in t.columns :: cells[c])],
                                                      next := t.next + 1)))))
  {
    if HasColumn(columnOf, field) {
      var column := columnOf[field];
      assert forall i :: 0 <= i < |t.rows| ==> (Admitted(t, i, column, v) <==> Matches(t.columns, t.rows[i], column, v));
      var cells := ColumnValues(columnOf, values);
      assert Known(t.columns, cells) == map c | c in cells && c in t.columns :: cells[c];
    }
  }

  /** A row holds the value in the column, or the resource has no such column. */
  predicate Admitted(t: Table, i: nat, column: string, v: string)
    requires i < |t.rows|
  {
    column !in t.columns || (column in t.rows[i].cells && t.rows[i].cells[column] == Text(v))
  }

  // ---------------------------------------------------------------------------
  // A run of updates
  // ---------------------------------------------------------------------------

  predicate OnlyUpdates(writes: seq<SourceWrite>) {
    forall k :: 0 <= k < |writes| ==> writes[k].Update?
  }

  /** Everything a run's updates carry for one row, in order. */
  function CarriedFor(writes: seq<SourceWrite>, id: nat): seq<Entry> {
    if writes == [] then []
    else
      var last := writes[|writes| - 1];
      CarriedFor(writes[..|writes| - 1], id) + if last.Update? && last.rowId == id then last.values else []
  }

  /** An update of no row, or of nothing the resource has a column for. */
  ghost predicate Idle(t: Table, columnOf: map<string, string>, w: SourceWrite)
    requires w.Update?
  {
    || (forall i :: 0 <= i < |t.rows| ==> t.rows[i].id != w.rowId)
    || forall k :: 0 <= k < |w.values| ==>
                     w.values[k].fieldId in columnOf && columnOf[w.values[k].fieldId] != "" ==> columnOf[w.values[k].fieldId] !in t.columns
  }

  ghost function IdleCount(t: Table, columnOf: map<string, string>, writes: seq<SourceWrite>): nat
    requires OnlyUpdates(writes)
  {
    if writes == [] then 0
    else IdleCount(t, columnOf, writes[..|writes| - 1]) + if Idle(t, columnOf, writes[|writes| - 1]) then 1 else 0
  }

  /** The table after updates that carried these values. */
  ghost predicate Absorbed(t: Table, columnOf: map<string, string>, writes: seq<SourceWrite>, after: Table) {
    && |after.rows| == |t.rows| && after.next == t.next && after.columns == t.columns
    && forall i :: 0 <= i < |t.rows| ==>
                     after.rows[i] == RowAfter(columnOf, t.columns, t.rows[i], CarriedFor(writes, t.rows[i].id))
  }

  /** One more value for a row, laid over what it already absorbed. */
  lemma {:induction false} LaidOver(columnOf: map<string, string>, columns: set<string>, base: Cells, a: seq<Entry>, b: seq<Entry>)
    ensures base + Known(columns, ColumnValues(columnOf, a + b))
            == base + Known(columns, ColumnValues(columnOf, a)) + Known(columns, ColumnValues(columnOf, b))
  {
    ColumnValuesAppend(columnOf, a, b);
    assert Known(columns, ColumnValues(columnOf, a) + ColumnValues(columnOf, b))
           == Known(columns, ColumnValues(columnOf, a)) + Known(columns, ColumnValues(columnOf, b));
  }

  /** A row after updates that carried `values` for it. */
  function RowAfter(columnOf: map<string, string>, columns: set<string>, row: StoredRow, values: seq<Entry>): StoredRow {
    StoredRow(row.id, row.cells + Known(columns, ColumnValues(columnOf, values)))
  }

  lemma {:induction false} RowAbsorbs(columnOf: map<string, string>, columns: set<string>, row: StoredRow, before: seq<SourceWrite>, w: SourceWrite)
    requires w.Update?
    ensures var mid := RowAfter(columnOf, columns, row, CarriedFor(before, row.id));
            RowAfter(columnOf, columns, row, CarriedFor(before + [w], row.id))
            == if w.rowId == row.id then RowAfter(columnOf, columns, mid, w.values) else mid
  {
    assert (before + [w])[..|before|] == before;
    LaidOver(columnOf, columns, row.cells, CarriedFor(before, row.id), w.values);
    assert CarriedFor(before, row.id) + [] == CarriedFor(before, row.id);
  }

  /** What one update does to a table, row by row. */
  lemma {:induction false} UpdateRows(t: Table, gate: Gate, columnOf: map<string, string>, w: SourceWrite)
    requires Open(gate) && ValidTable(t) && w.Update?
    ensures var outcome := ApplyOne(t, gate, columnOf, w);
            var after := if outcome.Done? then outcome.table else t;
            && (outcome.Refused? <==> Idle(t, columnOf, w))
            && |after.rows| == |t.rows| && after.next == t.next && after.columns == t.columns
            && forall i :: 0 <= i < |t.rows| ==>
                 after.rows[i] == if t.rows[i].id == w.rowId then RowAfter(columnOf, t.columns, t.rows[i], w.values) else t.rows[i]
  {
    UpdateIsExact(t, gate, columnOf, w.rowId, w.values);
    if i :| 0 <= i < |t.rows| && t.rows[i].id == w.rowId {
      UpdateLands(t, gate, columnOf, i, w.values, "");
    }
  }

  lemma {:induction false} SameIdleness(t: Table, mid: Table, columnOf: map<string, string>, w: SourceWrite)
    requires w.Update? && |mid.rows| == |t.rows| && mid.columns == t.columns
    requires forall i :: 0 <= i < |t.rows| ==> mid.rows[i].id == t.rows[i].id
    ensures Idle(mid, columnOf, w) <==> Idle(t, columnOf, w)
  {}

  lemma {:induction false} AbsorbsOne(t: Table, columnOf: map<string, string>, before: seq<SourceWrite>, w: SourceWrite, mid: Table, after: Table)
    requires w.Update? && Absorbed(t, columnOf, before, mid)
    requires |after.rows| == |mid.rows| && after.next == mid.next && after.columns == mid.columns
    requires forall i :: 0 <= i < |mid.rows| ==>
               after.rows[i] == if mid.rows[i].id == w.rowId then RowAfter(columnOf, mid.columns, mid.rows[i], w.values) else mid.rows[i]
    ensures Absorbed(t, columnOf, before + [w], after)
  {
    forall i | 0 <= i < |t.rows|
      ensures after.rows[i] == RowAfter(columnOf, t.columns, t.rows[i], CarriedFor(before + [w], t.rows[i].id))
    {
      RowAbsorbs(columnOf, t.columns, t.rows[i], before, w);
    }
  }

  lemma {:induction false} StillValid(t: Table, columnOf: map<string, string>, before: seq<SourceWrite>, mid: Table)
    requires ValidTable(t) && Absorbed(t, columnOf, before, mid)
    ensures ValidTable(mid) && forall i :: 0 <= i < |t.rows| ==> mid.rows[i].id == t.rows[i].id
  {}

  lemma {:induction false} OneMoreUpdate(t: Table, gate: Gate, columnOf: map<string, string>, before: seq<SourceWrite>, w: SourceWrite, mid: Table)
    requires Open(gate) && ValidTable(t) && w.Update? && Absorbed(t, columnOf, before, mid)
    ensures var outcome := ApplyOne(mid, gate, columnOf, w);
            && (outcome.Refused? <==> Idle(t, columnOf, w))
            && Absorbed(t, columnOf, before + [w], if outcome.Done? then outcome.table else mid)
  {
    var outcome := ApplyOne(mid, gate, columnOf, w);
    StillValid(t, columnOf, before, mid);
    SameIdleness(t, mid, columnOf, w);
    UpdateRows(mid, gate, columnOf, w);
    AbsorbsOne(t, columnOf, before, w, mid, if outcome.Done? then outcome.table else mid);
  }

  /**
   * Whatever updates a run is made of, each row ends with the cells it had and, over them, the last value any of
   * its updates gave each column of the resource; no row is created, moved or given another key, and the run
   * fails once for each update that names no row or gives no column of the resource a value.
   */
  lemma {:induction false} UpdatesLand(t: Table, gate: Gate, columnOf: map<string, string>, writes: seq<SourceWrite>)
    requires Open(gate) && ValidTable(t) && OnlyUpdates(writes)
    ensures var ran := Run(t, gate, columnOf, writes);
            && |ran.failures| == IdleCount(t, columnOf, writes)
            && Absorbed(t, columnOf, writes, ran.table)
  {
    if writes == [] {
      assert forall i :: 0 <= i < |t.rows| ==> t.rows[i].cells + map[] == t.rows[i].cells;
      forall i | 0 <= i < |t.rows|
        ensures CarriedFor(writes, t.rows[i].id) == []
      {
      }
    } else {
      var n := |writes| - 1;
      UpdatesLand(t, gate, columnOf, writes[..n]);
      assert writes[..n] + [writes[n]] == writes;
      OneMoreUpdate(t, gate, columnOf, writes[..n], writes[n], Run(t, gate, columnOf, writes[..n]).table);
    }
  }
}
