/**
 * Moving a card on a board. Models apps/web/app/board-move.ts.
 *
 * A move is plain values over the row's own columns; the board is re-read by filtering the
 * rows of a column and sorting them by rank.
 */
module BoardMove {
  import opened Collections
  import opened Rank

  datatype Value = Null | Text(text: string) | Other(printed: string)

  type Row = map<string, Value>

  datatype BoardView = BoardView(move: bool, options: seq<string>, groupField: string, rankField: Option<string>)

  datatype BoardDrop = BoardDrop(value: string, index: int)

  /** `String(row[column])`. */
  function Printed(row: Row, column: string): string {
    if column !in row then "undefined"
    else match row[column] case Null => "null" case Text(t) => t case Other(p) => p
  }

  /** `String(row[column] ?? '')`. */
  function GroupOf(row: Row, column: string): string {
    if column !in row || row[column].Null? then "" else Printed(row, column)
  }

  function RankedOf(row: Row, rankField: string, pk: string): Ranked {
    Ranked(if rankField in row && row[rankField].Text? then Some(row[rankField].text) else None, Printed(row, pk))
  }

  function InColumn(groupField: string, value: string): Row -> bool {
    (r: Row) => GroupOf(r, groupField) == value
  }

  function OtherInColumn(groupField: string, value: string, id: string, pk: string): Row -> bool {
    (r: Row) => Printed(r, pk) != id && GroupOf(r, groupField) == value
  }

  function ToRanked(rankField: string, pk: string): Row -> Ranked {
    (r: Row) => RankedOf(r, rankField, pk)
  }

  /** The rows of a column other than the card `id`, in display order. */
  function Siblings(rows: seq<Row>, view: BoardView, rankField: string, value: string, id: string, pk: string): seq<Ranked> {
    Sort(Map(Filter(rows, OtherInColumn(view.groupField, value, id, pk)), ToRanked(rankField, pk)))
  }

  /** A column of the board as it is drawn. */
  function Column(rows: seq<Row>, view: BoardView, rankField: string, value: string, pk: string): seq<Ranked> {
    Sort(Map(Filter(rows, InColumn(view.groupField, value)), ToRanked(rankField, pk)))
  }

  /** The rank field in force: an empty name is no rank field. */
  function RankFieldOf(view: BoardView): Option<string> {
    if view.rankField == Some("") then None else view.rankField
  }

  lemma {:induction false} RankFieldIs(view: BoardView)
    ensures view.rankField.Some? && view.rankField.value != "" ==> RankFieldOf(view) == view.rankField
    ensures view.rankField == None || view.rankField == Some("") ==> RankFieldOf(view) == None
  {}

  predicate Allowed(view: BoardView, drop: BoardDrop) {
    view.move && drop.value in view.options
  }

  function BoardMoveValues(view: BoardView, row: Row, drop: BoardDrop, rows: seq<Row>, pk: string): Option<map<string, string>> {
    if !Allowed(view, drop) then None
    else
      var from := GroupOf(row, view.groupField);
      var grouped: map<string, string> := if from != drop.value then map[view.groupField := drop.value] else map[];
      var result := match RankFieldOf(view)
        case None => grouped
        case Some(rankField) =>
          var siblings := Siblings(rows, view, rankField, drop.value, Printed(row, pk), pk);
          var here := Position(siblings, RankedOf(row, rankField, pk));
          if from != drop.value || here != drop.index
          then grouped[rankField := RankForDropOf(siblings, drop.index)]
          else grouped;
      if result == map[] then None else Some(result)
  }

  /** What the record's edit route stores for a move. */
  function Apply(row: Row, values: map<string, string>): Row {
    row + map c | c in values :: Text(values[c])
  }

  /** The board is keyed: the group, rank and key columns are three columns, and keys are unique. */
  ghost predicate Keys(view: BoardView, rows: seq<Row>, pk: string) {
    && view.groupField != pk
    && (RankFieldOf(view).Some? ==> RankFieldOf(view).value != view.groupField && RankFieldOf(view).value != pk)
    && (forall i, j :: 0 <= i < j < |rows| ==> Printed(rows[i], pk) != Printed(rows[j], pk))
  }

  /** What a card shows: its group, nothing when the column is empty; its rank, when that is text; and its key. */
  lemma {:induction false} CardIs(row: Row, groupField: string, rankField: string, pk: string, text: string)
    ensures groupField !in row || row[groupField] == Null ==> GroupOf(row, groupField) == ""
    ensures groupField in row && (row[groupField] == Text(text) || row[groupField] == Other(text)) ==> GroupOf(row, groupField) == text
    ensures rankField in row && row[rankField] == Text(text) ==> RankedOf(row, rankField, pk).rank == Some(text)
    ensures rankField !in row || !row[rankField].Text? ==> RankedOf(row, rankField, pk).rank == None
    ensures pk in row && (row[pk] == Text(text) || row[pk] == Other(text)) ==> RankedOf(row, rankField, pk).id == text
    ensures pk !in row ==> RankedOf(row, rankField, pk).id == "undefined"
    ensures pk in row && row[pk] == Null ==> RankedOf(row, rankField, pk).id == "null"
  {}

  /** A column of the board shows exactly the rows whose group is its value, each as often as it is there. */
  lemma {:induction false} ColumnHolds(rows: seq<Row>, view: BoardView, rankField: string, value: string, pk: string)
    ensures multiset(Column(rows, view, rankField, value, pk))
            == multiset(Map(Filter(rows, (r: Row) => GroupOf(r, view.groupField) == value), (r: Row) => RankedOf(r, rankField, pk)))
    ensures Sorted(Column(rows, view, rankField, value, pk))
  {
    var kept := Filter(rows, (r: Row) => GroupOf(r, view.groupField) == value);
    FilterAgree(rows, InColumn(view.groupField, value), (r: Row) => GroupOf(r, view.groupField) == value);
    var cards := Map(kept, ToRanked(rankField, pk));
    assert cards == Map(kept, (r: Row) => RankedOf(r, rankField, pk));
    SortSorted(cards);
  }

  /** Without the board's leave, or for a value the column does not declare, nothing is written. */
  lemma {:induction false} ForbiddenMove(view: BoardView, row: Row, drop: BoardDrop, rows: seq<Row>, pk: string)
    requires !view.move || drop.value !in view.options
    ensures BoardMoveValues(view, row, drop, rows, pk) == None
  {}

  // ---------------------------------------------------------------------------
  // Filters around one row
  // ---------------------------------------------------------------------------

  lemma {:induction false} FilterAround(rows: seq<Row>, i: nat, p: Row -> bool)
    requires i < |rows|
    ensures Filter(rows, p) == Filter(rows[..i], p) + (if p(rows[i]) then [rows[i]] else []) + Filter(rows[i + 1..], p)
  {
    assert rows == rows[..i] + ([rows[i]] + rows[i + 1..]);
    FilterAppend(rows[..i], [rows[i]] + rows[i + 1..], p);
    FilterAppend([rows[i]], rows[i + 1..], p);
  }

  lemma {:induction false} FilterAgree(rows: seq<Row>, p: Row -> bool, q: Row -> bool)
    requires forall r :: r in rows ==> p(r) == q(r)
    ensures Filter(rows, p) == Filter(rows, q)
  {
    if rows != [] {
      FilterAgree(rows[1..], p, q);
    }
  }

  lemma {:induction false} MapMultiset<A, B>(s: seq<A>, c: A, t: seq<A>, f: A -> B)
    ensures multiset(Map(s + [c] + t, f)) == multiset(Map(s + t, f)) + multiset{f(c)}
  {
    var m := Map(s + t, f);
    assert Map(s + [c] + t, f) == m[..|s|] + [f(c)] + m[|s|..];
    assert m == m[..|s|] + m[|s|..];
  }

  /** The other cards of a column come from the rows around the card's own. */
  lemma {:induction false} SiblingsAround(rows: seq<Row>, i: nat, groupField: string, value: string, pk: string)
    requires i < |rows|
    requires forall k, l :: 0 <= k < l < |rows| ==> Printed(rows[k], pk) != Printed(rows[l], pk)
    ensures Filter(rows, OtherInColumn(groupField, value, Printed(rows[i], pk), pk))
            == Filter(rows[..i], InColumn(groupField, value)) + Filter(rows[i + 1..], InColumn(groupField, value))
  {
    var others := OtherInColumn(groupField, value, Printed(rows[i], pk), pk);
    FilterAround(rows, i, others);
    FilterAgree(rows[..i], others, InColumn(groupField, value));
    FilterAgree(rows[i + 1..], others, InColumn(groupField, value));
  }

  /** The cards of a column are those of the rows around row `i`, with its own when it belongs there. */
  lemma {:induction false} ColumnCards(rows: seq<Row>, i: nat, groupField: string, value: string)
    requires i < |rows|
    ensures var inColumn := InColumn(groupField, value);
            var above, below := Filter(rows[..i], inColumn), Filter(rows[i + 1..], inColumn);
            && (GroupOf(rows[i], groupField) == value ==> Filter(rows, inColumn) == above + [rows[i]] + below)
            && (GroupOf(rows[i], groupField) != value ==> Filter(rows, inColumn) == above + below)
  {
    var inColumn := InColumn(groupField, value);
    FilterAround(rows, i, inColumn);
    assert Filter(rows[..i], inColumn) + [] == Filter(rows[..i], inColumn);
  }

  /**
   * A column with the card in it is the column's other cards plus the card; without it, the
   * other cards alone. Only row `i` may differ between `rows` and `after`.
   */
  lemma {:induction false} ColumnAround(rows: seq<Row>, i: nat, card: Row, view: BoardView, rankField: string, value: string, pk: string)
    requires i < |rows| && Printed(card, pk) == Printed(rows[i], pk) && Keys(view, rows, pk)
    ensures var siblings := Siblings(rows, view, rankField, value, Printed(card, pk), pk);
            var after := rows[i := card];
            && (GroupOf(card, view.groupField) != value ==> Column(after, view, rankField, value, pk) == siblings)
            && (GroupOf(card, view.groupField) == value ==>
                  exists cards :: Column(after, view, rankField, value, pk) == Sort(cards)
                               && multiset(cards) == multiset(siblings) + multiset{RankedOf(card, rankField, pk)})
  {
    var inColumn := InColumn(view.groupField, value);
    var ranked := ToRanked(rankField, pk);
    var after := rows[i := card];
    SiblingsAround(rows, i, view.groupField, value, pk);
    ColumnCards(after, i, view.groupField, value);
    assert after[..i] == rows[..i] && after[i + 1..] == rows[i + 1..];
    var above, below := Filter(rows[..i], inColumn), Filter(rows[i + 1..], inColumn);
    if GroupOf(card, view.groupField) == value {
      MapMultiset(above, card, below, ranked);
      var cards := Map(above + [card] + below, ranked);
      assert Column(after, view, rankField, value, pk) == Sort(cards);
    }
  }

  lemma {:induction false} SiblingIds(rows: seq<Row>, view: BoardView, rankField: string, value: string, id: string, pk: string)
    ensures Sorted(Siblings(rows, view, rankField, value, id, pk))
    ensures forall s :: s in Siblings(rows, view, rankField, value, id, pk) ==> s.id != id
  {
    var p := OtherInColumn(view.groupField, value, id, pk);
    var kept := Filter(rows, p);
    var cards := Map(kept, ToRanked(rankField, pk));
    SortSorted(cards);
    forall s | s in Siblings(rows, view, rankField, value, id, pk)
      ensures s.id != id
    {
      assert s in multiset(cards);
      var k :| 0 <= k < |cards| && cards[k] == s;
      FilterMember(rows, p, kept[k]);
    }
  }

  // ---------------------------------------------------------------------------
  // What a move does to the board
  // ---------------------------------------------------------------------------

  /** The siblings a drop is computed against. */
  function Target(view: BoardView, row: Row, drop: BoardDrop, rows: seq<Row>, pk: string): seq<Ranked>
    requires RankFieldOf(view).Some?
  {
    Siblings(rows, view, RankFieldOf(view).value, drop.value, Printed(row, pk), pk)
  }

  /** The card a writing drop leaves in the store. */
  function Moved(view: BoardView, row: Row, drop: BoardDrop, rows: seq<Row>, pk: string): Row
    requires BoardMoveValues(view, row, drop, rows, pk).Some?
  {
    Apply(row, BoardMoveValues(view, row, drop, rows, pk).value)
  }

  /** The values of a writing drop: a new key always, the group column only when it changes. */
  lemma {:induction false} MoveValues(view: BoardView, row: Row, drop: BoardDrop, rows: seq<Row>, pk: string)
    requires RankFieldOf(view).Some? && RankFieldOf(view).value != view.groupField
    requires BoardMoveValues(view, row, drop, rows, pk).Some?
    ensures var values := BoardMoveValues(view, row, drop, rows, pk).value;
            var key := RankForDropOf(Target(view, row, drop, rows, pk), drop.index);
            values == if GroupOf(row, view.groupField) != drop.value
                      then map[view.groupField := drop.value, RankFieldOf(view).value := key]
                      else map[RankFieldOf(view).value := key]
  {
    assert map[view.groupField := drop.value][RankFieldOf(view).value := RankForDropOf(Target(view, row, drop, rows, pk), drop.index)]
        == map[view.groupField := drop.value, RankFieldOf(view).value := RankForDropOf(Target(view, row, drop, rows, pk), drop.index)];
  }

  lemma {:induction false} ApplyAt(row: Row, values: map<string, string>, c: string)
    ensures c in values ==> c in Apply(row, values) && Apply(row, values)[c] == Text(values[c])
    ensures c !in values ==> (c in Apply(row, values) <==> c in row) && (c in row ==> Apply(row, values)[c] == row[c])
  {}

  /** A writing drop touches no column but the group's and the rank's. */
  lemma {:induction false} MovedElsewhere(view: BoardView, row: Row, drop: BoardDrop, rows: seq<Row>, pk: string, c: string)
    requires RankFieldOf(view).Some? && RankFieldOf(view).value != view.groupField
    requires BoardMoveValues(view, row, drop, rows, pk).Some?
    requires c != view.groupField && c != RankFieldOf(view).value
    ensures var card := Moved(view, row, drop, rows, pk);
            (c in card <==> c in row) && (c in card ==> card[c] == row[c])
  {
    MoveValues(view, row, drop, rows, pk);
    ApplyAt(row, BoardMoveValues(view, row, drop, rows, pk).value, c);
  }

  /** A writing drop sets the group and rank columns and nothing else. */
  lemma {:induction false} MovedCard(view: BoardView, row: Row, drop: BoardDrop, rows: seq<Row>, pk: string)
    requires RankFieldOf(view).Some? && RankFieldOf(view).value != view.groupField
    requires view.groupField != pk && RankFieldOf(view).value != pk
    requires BoardMoveValues(view, row, drop, rows, pk).Some?
    ensures var card := Moved(view, row, drop, rows, pk);
            var rankField := RankFieldOf(view).value;
            && Printed(card, pk) == Printed(row, pk)
            && GroupOf(card, view.groupField) == drop.value
            && RankedOf(card, rankField, pk)
               == Ranked(Some(RankForDropOf(Target(view, row, drop, rows, pk), drop.index)), Printed(row, pk))
            && (forall c :: c != view.groupField && c != rankField ==>
                  (c in card <==> c in row) && (c in card ==> card[c] == row[c]))
  {
    var values := BoardMoveValues(view, row, drop, rows, pk).value;
    MoveValues(view, row, drop, rows, pk);
    ApplyAt(row, values, view.groupField);
    ApplyAt(row, values, RankFieldOf(view).value);
    forall c | c != view.groupField && c != RankFieldOf(view).value
      ensures (c in Moved(view, row, drop, rows, pk) <==> c in row) && (c in row ==> Moved(view, row, drop, rows, pk)[c] == row[c])
    {
      MovedElsewhere(view, row, drop, rows, pk, c);
    }
  }

  /** Where among the destination's other cards a writing drop leaves its card. */
  function Stands(view: BoardView, row: Row, drop: BoardDrop, rows: seq<Row>, pk: string): nat
    requires RankFieldOf(view).Some?
  {
    var siblings := Target(view, row, drop, rows, pk);
    Position(siblings, Ranked(Some(RankForDropOf(siblings, drop.index)), Printed(row, pk)))
  }

  /** The destination column after a drop: its other cards in their order, the card where its key puts it. */
  lemma {:induction false} DestinationAfter(view: BoardView, i: nat, drop: BoardDrop, rows: seq<Row>, pk: string)
    requires i < |rows| && Keys(view, rows, pk) && RankFieldOf(view).Some?
    requires BoardMoveValues(view, rows[i], drop, rows, pk).Some?
    ensures var rankField := RankFieldOf(view).value;
            var card := Moved(view, rows[i], drop, rows, pk);
            var siblings := Target(view, rows[i], drop, rows, pk);
            var p := Stands(view, rows[i], drop, rows, pk);
            && p <= |siblings|
            && Column(rows[i := card], view, rankField, drop.value, pk)
               == siblings[..p] + [RankedOf(card, rankField, pk)] + siblings[p..]
  {
    var rankField := RankFieldOf(view).value;
    var row := rows[i];
    var card := Moved(view, row, drop, rows, pk);
    var siblings := Target(view, row, drop, rows, pk);
    MovedCard(view, row, drop, rows, pk);
    SiblingIds(rows, view, rankField, drop.value, Printed(row, pk), pk);
    ColumnAround(rows, i, card, view, rankField, drop.value, pk);
    var cards :| Column(rows[i := card], view, rankField, drop.value, pk) == Sort(cards)
              && multiset(cards) == multiset(siblings) + multiset{RankedOf(card, rankField, pk)};
    DropStands(siblings, RankedOf(card, rankField, pk), cards);
  }

  /** When every sibling's rank is a key or missing, that is the landing position of the index asked for. */
  lemma {:induction false} StandsAtLanding(view: BoardView, row: Row, drop: BoardDrop, rows: seq<Row>, pk: string)
    requires RankFieldOf(view).Some? && WellRanked(Target(view, row, drop, rows, pk))
    ensures Stands(view, row, drop, rows, pk) == Landing(Target(view, row, drop, rows, pk), drop.index)
  {
    SiblingIds(rows, view, RankFieldOf(view).value, drop.value, Printed(row, pk), pk);
    LandingIsPosition(Target(view, row, drop, rows, pk), drop.index, Printed(row, pk));
  }

  /**
   * A drop that writes: the destination column shows its other cards in the order they had, with
   * the card where its new key puts it, which is the landing position of the index asked for when the
   * other cards' ranks are keys or missing; every other column shows its other cards in the order they
   * had; no other row is touched, and no other column of the row.
   */
  lemma {:induction false} CardLands(view: BoardView, i: nat, drop: BoardDrop, rows: seq<Row>, pk: string)
    requires i < |rows| && Keys(view, rows, pk) && RankFieldOf(view).Some?
    requires BoardMoveValues(view, rows[i], drop, rows, pk).Some?
    ensures var rankField := RankFieldOf(view).value;
            var card := Moved(view, rows[i], drop, rows, pk);
            var siblings := Target(view, rows[i], drop, rows, pk);
            var p := Stands(view, rows[i], drop, rows, pk);
            && p <= |siblings|
            && (WellRanked(siblings) ==> p == Landing(siblings, drop.index))
            && Column(rows[i := card], view, rankField, drop.value, pk)
               == siblings[..p] + [RankedOf(card, rankField, pk)] + siblings[p..]
            && (forall value :: value != drop.value ==>
                  Column(rows[i := card], view, rankField, value, pk)
                  == Siblings(rows, view, rankField, value, Printed(rows[i], pk), pk))
            && (forall c :: c != view.groupField && c != rankField ==>
                  (c in card <==> c in rows[i]) && (c in card ==> card[c] == rows[i][c]))
  {
    var rankField := RankFieldOf(view).value;
    var card := Moved(view, rows[i], drop, rows, pk);
    MovedCard(view, rows[i], drop, rows, pk);
    DestinationAfter(view, i, drop, rows, pk);
    if WellRanked(Target(view, rows[i], drop, rows, pk)) {
      StandsAtLanding(view, rows[i], drop, rows, pk);
    }
    forall value | value != drop.value
      ensures Column(rows[i := card], view, rankField, value, pk)
              == Siblings(rows, view, rankField, value, Printed(rows[i], pk), pk)
    {
      ColumnAround(rows, i, card, view, rankField, value, pk);
    }
  }

  /** A column a card belongs to is its other cards with the card at the position counting gives it. */
  lemma {:induction false} ColumnWithCard(view: BoardView, i: nat, rows: seq<Row>, rankField: string, pk: string)
    requires i < |rows| && Keys(view, rows, pk)
    ensures var me := RankedOf(rows[i], rankField, pk);
            var value := GroupOf(rows[i], view.groupField);
            var siblings := Siblings(rows, view, rankField, value, Printed(rows[i], pk), pk);
            var here := Position(siblings, me);
            && here <= |siblings|
            && Column(rows, view, rankField, value, pk) == siblings[..here] + [me] + siblings[here..]
            && (forall s :: s in siblings ==> s != me)
  {
    var me := RankedOf(rows[i], rankField, pk);
    var value := GroupOf(rows[i], view.groupField);
    var siblings := Siblings(rows, view, rankField, value, Printed(rows[i], pk), pk);
    SiblingIds(rows, view, rankField, value, Printed(rows[i], pk), pk);
    CountIsPosition(siblings, me);
    var here := Position(siblings, me);
    assert rows[i := rows[i]] == rows;
    ColumnAround(rows, i, rows[i], view, rankField, value, pk);
    var cards :| Column(rows, view, rankField, value, pk) == Sort(cards)
              && multiset(cards) == multiset(siblings) + multiset{me};
    ResortsAround(siblings, me, here, cards);
  }

  /**
   * An allowed move writes nothing exactly when the card already stands at the asked position of
   * the asked column.
   */
  lemma {:induction false} NullIffAlreadyThere(view: BoardView, i: nat, drop: BoardDrop, rows: seq<Row>, pk: string)
    requires i < |rows| && Keys(view, rows, pk) && view.move && drop.value in view.options
    requires view.rankField.Some? && view.rankField.value != ""
    ensures var rankField := view.rankField.value;
            var column := Column(rows, view, rankField, drop.value, pk);
            BoardMoveValues(view, rows[i], drop, rows, pk).None? <==>
            && GroupOf(rows[i], view.groupField) == drop.value
            && 0 <= drop.index < |column| && column[drop.index] == RankedOf(rows[i], rankField, pk)
  {
    var rankField := RankFieldOf(view).value;
    var row := rows[i];
    NullIffHere(view, row, drop, rows, pk);
    if GroupOf(row, view.groupField) == drop.value {
      ColumnWithCard(view, i, rows, rankField, pk);
      var me := RankedOf(row, rankField, pk);
      var siblings := Target(view, row, drop, rows, pk);
      OnlyAt(siblings, me, Position(siblings, me), drop.index);
    }
  }

  lemma {:induction false} NullIffHere(view: BoardView, row: Row, drop: BoardDrop, rows: seq<Row>, pk: string)
    requires RankFieldOf(view).Some? && Allowed(view, drop)
    ensures BoardMoveValues(view, row, drop, rows, pk).None? <==>
            && GroupOf(row, view.groupField) == drop.value
            && drop.index == Position(Target(view, row, drop, rows, pk), RankedOf(row, RankFieldOf(view).value, pk))
  {
    var rankField := RankFieldOf(view).value;
    var key := RankForDropOf(Target(view, row, drop, rows, pk), drop.index);
    assert rankField in map[rankField := key];
    assert rankField in map[view.groupField := drop.value][rankField := key];
  }

  /**
   * Repeating a drop writes nothing the second time exactly when the first one put the card where it
   * was asked to; over ranks that are keys or missing, exactly when the index was within the keyed
   * cards and not inside a run of equal keys.
   */
  lemma {:induction false} RepeatWritesNothing(view: BoardView, i: nat, drop: BoardDrop, rows: seq<Row>, pk: string)
    requires i < |rows| && Keys(view, rows, pk) && RankFieldOf(view).Some?
    requires BoardMoveValues(view, rows[i], drop, rows, pk).Some?
    ensures var card := Moved(view, rows[i], drop, rows, pk);
            var siblings := Target(view, rows[i], drop, rows, pk);
            var again := BoardMoveValues(view, card, drop, rows[i := card], pk);
            && (again.None? <==> Stands(view, rows[i], drop, rows, pk) == drop.index)
            && (WellRanked(siblings) ==>
                  (again.None? <==>
                   && 0 <= drop.index <= KeyedCount(siblings)
                   && (0 < drop.index < |siblings| ==> siblings[drop.index].rank != siblings[drop.index - 1].rank)))
  {
    var siblings := Target(view, rows[i], drop, rows, pk);
    RepeatIffStands(view, i, drop, rows, pk);
    if WellRanked(siblings) {
      StandsAtLanding(view, rows[i], drop, rows, pk);
      SiblingIds(rows, view, RankFieldOf(view).value, drop.value, Printed(rows[i], pk), pk);
      LandsWhereAsked(siblings, drop.index);
    }
  }

  lemma {:induction false} RepeatIffStands(view: BoardView, i: nat, drop: BoardDrop, rows: seq<Row>, pk: string)
    requires i < |rows| && Keys(view, rows, pk) && RankFieldOf(view).Some?
    requires BoardMoveValues(view, rows[i], drop, rows, pk).Some?
    ensures var card := Moved(view, rows[i], drop, rows, pk);
            BoardMoveValues(view, card, drop, rows[i := card], pk).None? <==> Stands(view, rows[i], drop, rows, pk) == drop.index
  {
    var rankField := RankFieldOf(view).value;
    var card := Moved(view, rows[i], drop, rows, pk);
    var siblings := Target(view, rows[i], drop, rows, pk);
    MovedCard(view, rows[i], drop, rows, pk);
    DestinationAfter(view, i, drop, rows, pk);
    SiblingIds(rows, view, rankField, drop.value, Printed(card, pk), pk);
    KeysKept(view, rows, i, card, pk);
    NullIffAlreadyThere(view, i, drop, rows[i := card], pk);
    OnlyAt(siblings, RankedOf(card, rankField, pk), Stands(view, rows[i], drop, rows, pk), drop.index);
  }

  lemma {:induction false} KeysKept(view: BoardView, rows: seq<Row>, i: nat, card: Row, pk: string)
    requires i < |rows| && Keys(view, rows, pk) && Printed(card, pk) == Printed(rows[i], pk)
    ensures Keys(view, rows[i := card], pk)
  {}

  lemma {:induction false} OnlyAt(s: seq<Ranked>, me: Ranked, p: nat, index: int)
    requires p <= |s| && forall x :: x in s ==> x != me
    ensures var placed := s[..p] + [me] + s[p..];
            (0 <= index < |placed| && placed[index] == me) <==> index == p
  {
    var placed := s[..p] + [me] + s[p..];
    if 0 <= index < |placed| && index != p {
      var k := if index < p then index else index - 1;
      assert placed[index] == s[k] && s[k] in s;
    }
  }

  /** Without a rank field a move writes the group column alone, and nothing when it already holds. */
  lemma {:induction false} UnrankedMove(view: BoardView, row: Row, drop: BoardDrop, rows: seq<Row>, pk: string)
    requires view.rankField == None || view.rankField == Some("")
    ensures BoardMoveValues(view, row, drop, rows, pk) ==
            if view.move && drop.value in view.options && GroupOf(row, view.groupField) != drop.value
            then Some(map[view.groupField := drop.value]) else None
  {
    assert view.groupField in map[view.groupField := drop.value];
  }
}
