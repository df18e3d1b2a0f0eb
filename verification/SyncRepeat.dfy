/**
 * A sync is safe to repeat. Models applyWritesWith of apps/web/app/sources.server.ts run twice over
 * the upserts runSync of packages/features/src/sources/service.ts produces: one declared match
 * field, written into every record's values.
 */
module SyncRepeat {
  import opened Collections
  import opened Spec
  import opened Sources

  /** The cells an upsert leaves on its row. */
  function Landing(columnOf: map<string, string>, columns: set<string>, w: SourceWrite): Cells {
    Known(columns, ColumnValues(columnOf, w.values))
  }

  /** An upsert on the match field whose own values carry the match value in the match column. */
  predicate Carries(columnOf: map<string, string>, columns: set<string>, matchField: string, w: SourceWrite) {
    && w.Upsert? && w.matchField == matchField
    && HasColumn(columnOf, matchField) && columnOf[matchField] in columns
    && columnOf[matchField] in ColumnValues(columnOf, w.values)
    && ColumnValues(columnOf, w.values)[columnOf[matchField]] == Text(w.matchValue)
  }

  predicate Batch(columnOf: map<string, string>, columns: set<string>, matchField: string, writes: seq<SourceWrite>) {
    forall i :: 0 <= i < |writes| ==> Carries(columnOf, columns, matchField, writes[i])
  }

  /** A gate that refuses nothing. */
  ghost predicate Open(gate: Gate) {
    forall t, op :: gate(t, op).None?
  }

  /** Primary keys are unique and never handed out twice. */
  ghost predicate ValidTable(t: Table) {
    && (forall i :: 0 <= i < |t.rows| ==> t.rows[i].id < t.next)
    && (forall i, j :: 0 <= i < j < |t.rows| ==> t.rows[i].id != t.rows[j].id)
  }

  ghost predicate HasValue(writes: seq<SourceWrite>, v: string) {
    exists i :: 0 <= i < |writes| && writes[i].Upsert? && writes[i].matchValue == v
  }

  /** The first row holding `v` in the match column. */
  function At(t: Table, column: string, v: string): Option<nat> {
    FirstMatch(t.rows, t.columns, column, v)
  }

  lemma {:induction false} AtIs(t: Table, column: string, v: string, i: nat)
    requires i < |t.rows| && Matches(t.columns, t.rows[i], column, v)
    requires forall j :: 0 <= j < i ==> !Matches(t.columns, t.rows[j], column, v)
    ensures At(t, column, v) == Some(i)
  {}

  lemma {:induction false} AtNone(t: Table, column: string, v: string)
    requires forall j :: 0 <= j < |t.rows| ==> !Matches(t.columns, t.rows[j], column, v)
    ensures At(t, column, v) == None
  {}

  // ---------------------------------------------------------------------------
  // One upsert
  // ---------------------------------------------------------------------------

  /** The table after one upsert that lands. */
  function Upserted(t: Table, columnOf: map<string, string>, column: string, w: SourceWrite): Table
    requires w.Upsert?
  {
    match At(t, column, w.matchValue)
    case Some(i) => t.(rows := t.rows[i := StoredRow(t.rows[i].id, t.rows[i].cells + Landing(columnOf, t.columns, w))])
    case None => t.(rows := t.rows + [StoredRow(t.next, Landing(columnOf, t.columns, w))], next := t.next + 1)
  }

  lemma {:induction false} UpsertLands(t: Table, gate: Gate, columnOf: map<string, string>, matchField: string, w: SourceWrite)
    requires Open(gate) && ValidTable(t) && Carries(columnOf, t.columns, matchField, w)
    ensures ApplyOne(t, gate, columnOf, w) == Done(Upserted(t, columnOf, columnOf[matchField], w))
    ensures ValidTable(Upserted(t, columnOf, columnOf[matchField], w))
  {
    var column := columnOf[matchField];
    var cells := ColumnValues(columnOf, w.values);
    assert column in Known(t.columns, cells);
    var found := At(t, column, w.matchValue);
    if found.Some? {
      assert IndexOf(t.rows, t.rows[found.value].id) == found;
    }
  }

  /** An upsert moves no row in or out of any match but its own. */
  lemma {:induction false} MatchesKept(t: Table, columnOf: map<string, string>, matchField: string, w: SourceWrite, v: string)
    requires Carries(columnOf, t.columns, matchField, w)
    ensures var column := columnOf[matchField];
            At(Upserted(t, columnOf, column, w), column, v) ==
            if v == w.matchValue && At(t, column, v).None? then Some(|t.rows|) else At(t, column, v)
  {
    var column := columnOf[matchField];
    var landing := Landing(columnOf, t.columns, w);
    assert column in landing && landing[column] == Text(w.matchValue);
    var after := Upserted(t, columnOf, column, w);
    forall j | 0 <= j < |t.rows|
      ensures Matches(after.columns, after.rows[j], column, v) <==> Matches(t.columns, t.rows[j], column, v)
    {}
    if At(t, column, v).Some? {
      AtIs(after, column, v, At(t, column, v).value);
    } else if v == w.matchValue {
      AtIs(after, column, v, |t.rows|);
    } else {
      AtNone(after, column, v);
    }
  }

  // ---------------------------------------------------------------------------
  // What a batch does to the cells of one match value
  // ---------------------------------------------------------------------------

  function Fold(cells: Cells, columnOf: map<string, string>, columns: set<string>, writes: seq<SourceWrite>, v: string): Cells {
    if writes == [] then cells
    else
      var n := |writes| - 1;
      var before := Fold(cells, columnOf, columns, writes[..n], v);
      if writes[n].Upsert? && writes[n].matchValue == v then before + Landing(columnOf, columns, writes[n]) else before
  }

  lemma {:induction false} FoldIsMerge(cells: Cells, columnOf: map<string, string>, columns: set<string>, writes: seq<SourceWrite>, v: string)
    ensures Fold(cells, columnOf, columns, writes, v) == cells + Fold(map[], columnOf, columns, writes, v)
  {
    if writes != [] {
      var n := |writes| - 1;
      FoldIsMerge(cells, columnOf, columns, writes[..n], v);
      var done := Fold(map[], columnOf, columns, writes[..n], v);
      var landing := Landing(columnOf, columns, writes[n]);
      assert (cells + done) + landing == cells + (done + landing);
    } else {
      assert cells + map[] == cells;
    }
  }

  lemma {:induction false} FoldTwice(cells: Cells, columnOf: map<string, string>, columns: set<string>, writes: seq<SourceWrite>, v: string)
    ensures var once := Fold(cells, columnOf, columns, writes, v);
            Fold(once, columnOf, columns, writes, v) == once
  {
    var once := Fold(cells, columnOf, columns, writes, v);
    var done := Fold(map[], columnOf, columns, writes, v);
    FoldIsMerge(cells, columnOf, columns, writes, v);
    FoldIsMerge(once, columnOf, columns, writes, v);
    assert (cells + done) + done == cells + done;
  }

  lemma {:induction false} FoldOther(cells: Cells, columnOf: map<string, string>, columns: set<string>, writes: seq<SourceWrite>, v: string)
    requires !HasValue(writes, v)
    ensures Fold(cells, columnOf, columns, writes, v) == cells
  {
    if writes != [] {
      var n := |writes| - 1;
      assert forall i :: 0 <= i < n ==> writes[..n][i] == writes[i];
      FoldOther(cells, columnOf, columns, writes[..n], v);
    }
  }

  // ---------------------------------------------------------------------------
  // The first run
  // ---------------------------------------------------------------------------

  lemma {:induction false} BatchPrefix(columnOf: map<string, string>, columns: set<string>, matchField: string, writes: seq<SourceWrite>)
    requires writes != [] && Batch(columnOf, columns, matchField, writes)
    ensures Batch(columnOf, columns, matchField, writes[..|writes| - 1])
    ensures Carries(columnOf, columns, matchField, writes[|writes| - 1])
  {}

  /** Row cells that have absorbed a batch, over some start. */
  ghost predicate Absorbed(t: Table, columnOf: map<string, string>, column: string, writes: seq<SourceWrite>, v: string) {
    && At(t, column, v).Some?
    && exists base: Cells :: t.rows[At(t, column, v).value].cells == Fold(base, columnOf, t.columns, writes, v)
  }

  /** One more upsert of the batch keeps every match value absorbed. */
  lemma {:induction false} AbsorbStep(t: Table, columnOf: map<string, string>, matchField: string, writes: seq<SourceWrite>,
                                      w: SourceWrite, v: string)
    requires Carries(columnOf, t.columns, matchField, w)
    requires HasValue(writes, v) ==> Absorbed(t, columnOf, columnOf[matchField], writes, v)
    requires HasValue(writes, v) || v == w.matchValue
    ensures Absorbed(Upserted(t, columnOf, columnOf[matchField], w), columnOf, columnOf[matchField], writes + [w], v)
  {
    var column := columnOf[matchField];
    var after := Upserted(t, columnOf, column, w);
    MatchesKept(t, columnOf, matchField, w, v);
    assert (writes + [w])[..|writes|] == writes;
    var base: Cells := map[];
    if HasValue(writes, v) {
      base :| t.rows[At(t, column, v).value].cells == Fold(base, columnOf, t.columns, writes, v);
    } else {
      if At(t, column, v).Some? { base := t.rows[At(t, column, v).value].cells; }
      FoldOther(base, columnOf, t.columns, writes, v);
      assert map[] + Landing(columnOf, t.columns, w) == Landing(columnOf, t.columns, w);
    }
    if v != w.matchValue { DifferentRows(t, columnOf, matchField, w, v); }
    assert after.rows[At(after, column, v).value].cells == Fold(base, columnOf, t.columns, writes + [w], v);
  }

  /** A batch lands whole; afterwards every match value has a row, and that row has absorbed the batch. */
  lemma {:induction false} FirstRun(t: Table, gate: Gate, columnOf: map<string, string>, matchField: string, writes: seq<SourceWrite>)
    requires Open(gate) && ValidTable(t) && Batch(columnOf, t.columns, matchField, writes)
    ensures var ran := Run(t, gate, columnOf, writes);
            && ran.failures == [] && ValidTable(ran.table) && ran.table.columns == t.columns
            && forall v :: HasValue(writes, v) ==> Absorbed(ran.table, columnOf, columnOf[matchField], writes, v)
  {
    if writes != [] {
      var n := |writes| - 1;
      BatchPrefix(columnOf, t.columns, matchField, writes);
      FirstRun(t, gate, columnOf, matchField, writes[..n]);
      var mid := Run(t, gate, columnOf, writes[..n]).table;
      UpsertLands(mid, gate, columnOf, matchField, writes[n]);
      assert writes == writes[..n] + [writes[n]];
      forall v | HasValue(writes, v)
        ensures Absorbed(Run(t, gate, columnOf, writes).table, columnOf, columnOf[matchField], writes, v)
      {
        var i :| 0 <= i < |writes| && writes[i].Upsert? && writes[i].matchValue == v;
        if i < n {
          assert writes[..n][i] == writes[i];
        }
        AbsorbStep(mid, columnOf, matchField, writes[..n], writes[n], v);
      }
    }
  }

  /** An upsert of another value leaves a value's row alone. */
  lemma {:induction false} DifferentRows(t: Table, columnOf: map<string, string>, matchField: string, w: SourceWrite, v: string)
    requires Carries(columnOf, t.columns, matchField, w) && v != w.matchValue && At(t, columnOf[matchField], v).Some?
    ensures var i := At(t, columnOf[matchField], v).value;
            Upserted(t, columnOf, columnOf[matchField], w).rows[i] == t.rows[i]
  {}

  // ---------------------------------------------------------------------------
  // A run over a table that already matches every value
  // ---------------------------------------------------------------------------

  /** Row `i` is the row its own match value finds. */
  predicate Owns(t: Table, column: string, i: nat, v: string)
    requires i < |t.rows|
  {
    column in t.rows[i].cells && t.rows[i].cells[column] == Text(v) && At(t, column, v) == Some(i)
  }

  /** Such a run creates nothing, keeps every row's place and key, and folds each value's writes into its own row. */
  lemma {:induction false} MatchedRun(t: Table, gate: Gate, columnOf: map<string, string>, matchField: string, writes: seq<SourceWrite>)
    requires Open(gate) && ValidTable(t) && Batch(columnOf, t.columns, matchField, writes)
    requires forall v :: HasValue(writes, v) ==> At(t, columnOf[matchField], v).Some?
    ensures var after := Run(t, gate, columnOf, writes).table;
            && ValidTable(after) && after.columns == t.columns && after.next == t.next && |after.rows| == |t.rows|
            && (writes != [] ==> forall v :: At(after, columnOf[matchField], v) == At(t, columnOf[matchField], v))
            && (writes != [] ==>
                  forall i, v :: 0 <= i < |t.rows| && Owns(t, columnOf[matchField], i, v) ==>
                    after.rows[i] == StoredRow(t.rows[i].id, Fold(t.rows[i].cells, columnOf, t.columns, writes, v)))
            && (writes != [] ==>
                  forall i :: 0 <= i < |t.rows| && (forall v :: !Owns(t, columnOf[matchField], i, v)) ==> after.rows[i] == t.rows[i])
  {
    if writes != [] {
      var n := |writes| - 1;
      var w := writes[n];
      var column := columnOf[matchField];
      BatchPrefix(columnOf, t.columns, matchField, writes);
      assert HasValue(writes, w.matchValue);
      forall v | HasValue(writes[..n], v)
        ensures HasValue(writes, v)
      {
        var i :| 0 <= i < n && writes[..n][i].Upsert? && writes[..n][i].matchValue == v;
        assert writes[i].matchValue == v;
      }
      MatchedRun(t, gate, columnOf, matchField, writes[..n]);
      var mid := Run(t, gate, columnOf, writes[..n]).table;
      if n == 0 {
        assert writes[..n] == [] && mid == t;
      }
      UpsertLands(mid, gate, columnOf, matchField, w);
      forall v
        ensures At(Upserted(mid, columnOf, column, w), column, v) == At(t, column, v)
      {
        MatchesKept(mid, columnOf, matchField, w, v);
      }
      var k := At(t, column, w.matchValue).value;
      assert Owns(t, column, k, w.matchValue);
    }
  }

  // ---------------------------------------------------------------------------
  // The theorem
  // ---------------------------------------------------------------------------

  /**
   * Running a sync twice leaves the table the first run left: no row is created, moved or changed by
   * the second, whatever the table held and however often a match value repeats in the batch.
   */
  lemma {:induction false} SyncRepeats(t: Table, gate: Gate, columnOf: map<string, string>, matchField: string, writes: seq<SourceWrite>)
    requires Open(gate) && ValidTable(t) && Batch(columnOf, t.columns, matchField, writes)
    ensures var once := Run(t, gate, columnOf, writes);
            var twice := Run(once.table, gate, columnOf, writes);
            && once.failures == [] && twice.failures == []
            && twice.table == once.table
  {
    if writes != [] {
      assert Carries(columnOf, t.columns, matchField, writes[0]);
      var column := columnOf[matchField];
      FirstRun(t, gate, columnOf, matchField, writes);
      var once := Run(t, gate, columnOf, writes).table;
      forall v | HasValue(writes, v)
        ensures At(once, column, v).Some?
        ensures Fold(once.rows[At(once, column, v).value].cells, columnOf, t.columns, writes, v)
                == once.rows[At(once, column, v).value].cells
      {
        var base :| once.rows[At(once, column, v).value].cells == Fold(base, columnOf, t.columns, writes, v);
        FoldTwice(base, columnOf, t.columns, writes, v);
      }
      MatchedRun(once, gate, columnOf, matchField, writes);
      FirstRun(once, gate, columnOf, matchField, writes);
      var twice := Run(once, gate, columnOf, writes).table;
      forall i | 0 <= i < |once.rows|
        ensures twice.rows[i] == once.rows[i]
      {
        if v :| Owns(once, column, i, v) {
          if !HasValue(writes, v) {
            FoldOther(once.rows[i].cells, columnOf, t.columns, writes, v);
          }
        }
      }
    }
  }

  /**
   * When the entity's column names differ, an upsert whose entries give the match field its match
   * value, once, carries it: what runSync writes.
   */
  lemma {:induction false} DistinctNamesCarry(columnOf: map<string, string>, columns: set<string>, w: SourceWrite, k: nat)
    requires w.Upsert? && HasColumn(columnOf, w.matchField) && columnOf[w.matchField] in columns
    requires forall f, g :: f in columnOf && g in columnOf && columnOf[f] == columnOf[g] ==> f == g
    requires forall i, j :: 0 <= i < j < |w.values| ==> w.values[i].fieldId != w.values[j].fieldId
    requires k < |w.values| && w.values[k] == Entry(w.matchField, Text(w.matchValue))
    ensures Carries(columnOf, columns, w.matchField, w)
  {
    EntryLands(columnOf, w.values, k);
  }

  lemma {:induction false} EntryLands(columnOf: map<string, string>, values: seq<Entry>, k: nat)
    requires k < |values| && HasColumn(columnOf, values[k].fieldId)
    requires forall f, g :: f in columnOf && g in columnOf && columnOf[f] == columnOf[g] ==> f == g
    requires forall i, j :: 0 <= i < j < |values| ==> values[i].fieldId != values[j].fieldId
    ensures columnOf[values[k].fieldId] in ColumnValues(columnOf, values)
    ensures ColumnValues(columnOf, values)[columnOf[values[k].fieldId]] == values[k].value
  {
    var n := |values| - 1;
    if k < n {
      assert values[..n][k] == values[k];
      EntryLands(columnOf, values[..n], k);
    }
  }

  // ---------------------------------------------------------------------------
  // Where it stops holding
  // ---------------------------------------------------------------------------

  /** The cells of two entries whose fields have two columns. */
  lemma {:induction false} TwoEntries(columnOf: map<string, string>, e: Entry, f: Entry)
    requires HasColumn(columnOf, e.fieldId) && HasColumn(columnOf, f.fieldId)
    ensures ColumnValues(columnOf, [e, f]) == map[columnOf[e.fieldId] := e.value, columnOf[f.fieldId] := f.value]
  {
    assert [e, f][..1] == [e] && [e][..0] == [];
    assert ColumnValues(columnOf, [e]) == map[columnOf[e.fieldId] := e.value];
  }

  lemma {:induction false} RunOfTwo(t: Table, gate: Gate, columnOf: map<string, string>, v: SourceWrite, w: SourceWrite,
                                    mid: Table, end: Table)
    requires ApplyOne(t, gate, columnOf, v) == Done(mid) && ApplyOne(mid, gate, columnOf, w) == Done(end)
    ensures Run(t, gate, columnOf, [v, w]).table == end
  {
    assert [v, w][..1] == [v] && [v][..0] == [];
    assert Run(t, gate, columnOf, [v]).table == mid;
  }

  function MixedColumns(): map<string, string> {
    map["f-mail" := "mail", "f-phone" := "phone"]
  }

  function ByMail(): SourceWrite {
    Upsert("f-mail", "a", [Entry("f-mail", Text("a")), Entry("f-phone", Text("1"))])
  }

  function ByPhone(): SourceWrite {
    Upsert("f-phone", "1", [Entry("f-phone", Text("1")), Entry("f-mail", Text("b"))])
  }

  lemma {:induction false} MixedLandings()
    ensures var columns := {"mail", "phone"};
            && Carries(MixedColumns(), columns, "f-mail", ByMail())
            && Carries(MixedColumns(), columns, "f-phone", ByPhone())
            && Landing(MixedColumns(), columns, ByMail()) == map["mail" := Text("a"), "phone" := Text("1")]
            && Landing(MixedColumns(), columns, ByPhone()) == map["mail" := Text("b"), "phone" := Text("1")]
  {
    TwoEntries(MixedColumns(), Entry("f-mail", Text("a")), Entry("f-phone", Text("1")));
    TwoEntries(MixedColumns(), Entry("f-phone", Text("1")), Entry("f-mail", Text("b")));
  }

  /** The row the batch leaves after its first write, and after both. */
  function MailRow(): Table {
    Table([StoredRow(0, map["mail" := Text("a"), "phone" := Text("1")])], 1, {"mail", "phone"})
  }

  function PhoneRow(): Table {
    Table([StoredRow(0, map["mail" := Text("b"), "phone" := Text("1")])], 1, {"mail", "phone"})
  }

  lemma {:induction false} ByMailCreates(gate: Gate)
    requires Open(gate)
    ensures ApplyOne(Table([], 0, {"mail", "phone"}), gate, MixedColumns(), ByMail()) == Done(MailRow())
  {
    MixedLandings();
    UpsertLands(Table([], 0, {"mail", "phone"}), gate, MixedColumns(), "f-mail", ByMail());
  }

  lemma {:induction false} ByPhoneOverwrites(gate: Gate)
    requires Open(gate)
    ensures ApplyOne(MailRow(), gate, MixedColumns(), ByPhone()) == Done(PhoneRow())
  {
    MixedLandings();
    UpsertLands(MailRow(), gate, MixedColumns(), "f-phone", ByPhone());
    AtIs(MailRow(), "phone", "1", 0);
    assert MailRow().rows[0].cells + Landing(MixedColumns(), MailRow().columns, ByPhone()) == PhoneRow().rows[0].cells;
  }

  /**
   * One batch over two match fields is not safe to repeat: the second run creates a row. applyWritesWith
   * takes such a batch; a sync run never produces one, since it writes one collection's id field as the
   * match field of every upsert.
   */
  lemma {:induction false} MixedFieldsRepeatCreates(gate: Gate)
    requires Open(gate)
    ensures var writes := [ByMail(), ByPhone()];
            var once := Run(Table([], 0, {"mail", "phone"}), gate, MixedColumns(), writes).table;
            |Run(once, gate, MixedColumns(), writes).table.rows| > |once.rows|
  {
    ByMailCreates(gate);
    ByPhoneOverwrites(gate);
    RunOfTwo(Table([], 0, {"mail", "phone"}), gate, MixedColumns(), ByMail(), ByPhone(), MailRow(), PhoneRow());
    MixedLandings();
    AtNone(PhoneRow(), "mail", "a");
    UpsertLands(PhoneRow(), gate, MixedColumns(), "f-mail", ByMail());
    var t3 := Upserted(PhoneRow(), MixedColumns(), "mail", ByMail());
    UpsertLands(t3, gate, MixedColumns(), "f-phone", ByPhone());
    RunOfTwo(PhoneRow(), gate, MixedColumns(), ByMail(), ByPhone(), t3, Upserted(t3, MixedColumns(), "phone", ByPhone()));
  }

  // ---------------------------------------------------------------------------
  // Which rows a write can touch
  // ---------------------------------------------------------------------------

  /** A row that holds a value in a column. */
  predicate Holds(row: StoredRow, column: string, v: string) {
    column in row.cells && row.cells[column] == Text(v)
  }

  /** One row is appended, or one row that held `v` gets new cells; everything else stays. */
  ghost predicate TouchesOwnRow(before: Table, after: Table, column: string, v: string) {
    || (|after.rows| == |before.rows| + 1 && after.rows[..|before.rows|] == before.rows)
    || exists i, cells :: 0 <= i < |before.rows| && Holds(before.rows[i], column, v)
                          && after == before.(rows := before.rows[i := StoredRow(before.rows[i].id, cells)])
  }

  /** Whatever an upsert does to a table of these columns, it does to a row of its own. */
  ghost predicate SparesOthers(gate: Gate, columnOf: map<string, string>, columns: set<string>, w: SourceWrite)
    requires w.Upsert? && HasColumn(columnOf, w.matchField)
  {
    forall t :: ValidTable(t) && t.columns == columns && ApplyOne(t, gate, columnOf, w).Done? ==>
      TouchesOwnRow(t, ApplyOne(t, gate, columnOf, w).table, columnOf[w.matchField], w.matchValue)
  }

  lemma {:induction false} KnownColumnSpares(t: Table, gate: Gate, columnOf: map<string, string>, w: SourceWrite)
    requires ValidTable(t) && w.Upsert? && HasColumn(columnOf, w.matchField)
    requires columnOf[w.matchField] in t.columns && ApplyOne(t, gate, columnOf, w).Done?
    ensures TouchesOwnRow(t, ApplyOne(t, gate, columnOf, w).table, columnOf[w.matchField], w.matchValue)
  {
    var column := columnOf[w.matchField];
    var found := FirstMatch(t.rows, t.columns, column, w.matchValue);
    if found.Some? {
      var i := found.value;
      assert IndexOf(t.rows, t.rows[i].id) == Some(i);
      var cells := t.rows[i].cells + Landing(columnOf, t.columns, w);
      assert Holds(t.rows[i], column, w.matchValue);
      assert ApplyOne(t, gate, columnOf, w).table == t.(rows := t.rows[i := StoredRow(t.rows[i].id, cells)]);
    }
  }

  /** A match column the resource does not have matches any row: the first row is overwritten. */
  lemma {:induction false} UnknownMatchColumnHitsFirstRow(t: Table, gate: Gate, columnOf: map<string, string>, w: SourceWrite)
    requires Open(gate) && ValidTable(t) && t.rows != [] && w.Upsert?
    requires HasColumn(columnOf, w.matchField) && columnOf[w.matchField] !in t.columns
    requires Landing(columnOf, t.columns, w) != map[]
    ensures ApplyOne(t, gate, columnOf, w)
            == Done(t.(rows := t.rows[0 := StoredRow(t.rows[0].id, t.rows[0].cells + Landing(columnOf, t.columns, w))]))
  {
    AtIs(t, columnOf[w.matchField], w.matchValue, 0);
  }

  /** A row that holds nothing is overwritten through an unknown match column. */
  lemma {:induction false} UnknownColumnTouchesAnother(gate: Gate, columnOf: map<string, string>, columns: set<string>, w: SourceWrite)
    requires Open(gate) && w.Upsert? && HasColumn(columnOf, w.matchField)
    requires columnOf[w.matchField] !in columns && Landing(columnOf, columns, w) != map[]
    ensures !SparesOthers(gate, columnOf, columns, w)
  {
    var t := Table([StoredRow(0, map[])], 1, columns);
    UnknownMatchColumnHitsFirstRow(t, gate, columnOf, w);
    var outcome := ApplyOne(t, gate, columnOf, w);
    assert ValidTable(t) && outcome.Done? && |outcome.table.rows| == 1;
    assert forall i :: 0 <= i < |t.rows| ==> !Holds(t.rows[i], columnOf[w.matchField], w.matchValue);
    assert !TouchesOwnRow(t, outcome.table, columnOf[w.matchField], w.matchValue);
  }

  /** With no cell to write an upsert cannot change a row; it can only create an empty one. */
  lemma {:induction false} NothingLandsSpares(t: Table, gate: Gate, columnOf: map<string, string>, w: SourceWrite)
    requires ValidTable(t) && w.Upsert? && HasColumn(columnOf, w.matchField)
    requires Landing(columnOf, t.columns, w) == map[] && ApplyOne(t, gate, columnOf, w).Done?
    ensures TouchesOwnRow(t, ApplyOne(t, gate, columnOf, w).table, columnOf[w.matchField], w.matchValue)
  {}

  /**
   * On every table, an upsert that lands updates a row that already held its match value or creates one,
   * exactly when its match column is one of the resource's, or none of its values has a column there.
   */
  lemma {:induction false} UpsertTouchesOwnRowIff(gate: Gate, columnOf: map<string, string>, columns: set<string>, w: SourceWrite)
    requires Open(gate) && w.Upsert? && HasColumn(columnOf, w.matchField)
    ensures SparesOthers(gate, columnOf, columns, w)
            <==> columnOf[w.matchField] in columns || Landing(columnOf, columns, w) == map[]
  {
    if columnOf[w.matchField] in columns || Landing(columnOf, columns, w) == map[] {
      forall t | ValidTable(t) && t.columns == columns && ApplyOne(t, gate, columnOf, w).Done?
        ensures TouchesOwnRow(t, ApplyOne(t, gate, columnOf, w).table, columnOf[w.matchField], w.matchValue)
      {
        if columnOf[w.matchField] in columns {
          KnownColumnSpares(t, gate, columnOf, w);
        } else {
          NothingLandsSpares(t, gate, columnOf, w);
        }
      }
    } else {
      UnknownColumnTouchesAnother(gate, columnOf, columns, w);
    }
  }

  /** A write aimed at a row: its key, or a match value it holds; a match column that is missing aims at every row. */
  predicate Concerns(columnOf: map<string, string>, columns: set<string>, row: StoredRow, w: SourceWrite) {
    match w
    case Update(rowId, _) => rowId == row.id
    case Upsert(matchField, matchValue, _) =>
      HasColumn(columnOf, matchField) && Matches(columns, row, columnOf[matchField], matchValue)
  }

  lemma {:induction false} UpdateSparesRow(t: Table, gate: Gate, id: nat, cells: Cells, i: nat)
    requires ValidTable(t) && i < |t.rows| && t.rows[i].id != id
    ensures match OpUpdate(t, gate, id, cells)
            case Done(after) => ValidTable(after) && after.columns == t.columns && i < |after.rows| && after.rows[i] == t.rows[i]
            case Refused(_) => true
  {}

  lemma {:induction false} WriteSparesRow(t: Table, gate: Gate, columnOf: map<string, string>, w: SourceWrite, i: nat)
    requires ValidTable(t) && i < |t.rows| && !Concerns(columnOf, t.columns, t.rows[i], w)
    ensures match ApplyOne(t, gate, columnOf, w)
            case Done(after) => ValidTable(after) && after.columns == t.columns && i < |after.rows| && after.rows[i] == t.rows[i]
            case Refused(_) => true
  {
    match w {
      case Update(rowId, values) =>
        UpdateSparesRow(t, gate, rowId, ColumnValues(columnOf, values), i);
      case Upsert(matchField, matchValue, values) =>
        if HasColumn(columnOf, matchField) {
          var found := FirstMatch(t.rows, t.columns, columnOf[matchField], matchValue);
          if found.Some? {
            assert found.value != i && t.rows[found.value].id != t.rows[i].id;
            UpdateSparesRow(t, gate, t.rows[found.value].id, ColumnValues(columnOf, values), i);
          }
        }
    }
  }

  /** A run leaves every row none of its writes is aimed at as it was, whatever fails along the way. */
  lemma {:induction false} RunSparesOthers(t: Table, gate: Gate, columnOf: map<string, string>, writes: seq<SourceWrite>, i: nat)
    requires ValidTable(t) && i < |t.rows|
    requires forall w :: w in writes ==> !Concerns(columnOf, t.columns, t.rows[i], w)
    ensures var after := Run(t, gate, columnOf, writes).table;
            ValidTable(after) && after.columns == t.columns && i < |after.rows| && after.rows[i] == t.rows[i]
  {
    if writes != [] {
      var n := |writes| - 1;
      RunSparesOthers(t, gate, columnOf, writes[..n], i);
      WriteSparesRow(Run(t, gate, columnOf, writes[..n]).table, gate, columnOf, writes[n], i);
    }
  }
}
