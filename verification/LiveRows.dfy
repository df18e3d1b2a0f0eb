/**
 * The client half of a live channel: a row list that follows a stream, and the effect that moves from
 * streaming to polling to stopped.
 * Models apps/web/app/use-live-rows.ts: upsert, the message handler and the second effect of useLiveRows.
 */
module LiveRows {
  import opened Collections

  /** What a row's primary key column holds; strings and numbers never compare equal. */
  datatype Id = Text(text: string) | Number(number: int) | Absent

  datatype Row = Row(id: Id, columns: string)

  datatype Message = RowChanged(id: string, row: Row) | Removed(id: string) | Presence

  // ---------------------------------------------------------------------------
  // The row list
  // ---------------------------------------------------------------------------

  /** The first row under the key. */
  function IndexOf(rows: seq<Row>, id: Id): (at: Option<nat>)
    ensures at.Some? ==> at.value < |rows| && rows[at.value].id == id && forall i :: 0 <= i < at.value ==> rows[i].id != id
    ensures at.None? ==> forall i :: 0 <= i < |rows| ==> rows[i].id != id
  {
    if rows == [] then None
    else if rows[0].id == id then Some(0)
    else match IndexOf(rows[1..], id) case None => None case Some(i) => Some(i + 1)
  }

  function Upsert(rows: seq<Row>, next: Row): seq<Row> {
    match IndexOf(rows, next.id)
    case None => rows + [next]
    case Some(at) => rows[at := next]
  }

  function Other(id: string): Row -> bool {
    (r: Row) => r.id != Text(id)
  }

  function Received(rows: seq<Row>, message: Message): seq<Row> {
    match message
    case RowChanged(_, row) => Upsert(rows, row)
    case Removed(id) => Filter(rows, Other(id))
    case Presence => rows
  }

  function ReceivedAll(rows: seq<Row>, messages: seq<Message>): seq<Row> {
    if messages == [] then rows
    else Received(ReceivedAll(rows, messages[..|messages| - 1]), messages[|messages| - 1])
  }

  ghost predicate UniqueKeys(rows: seq<Row>) {
    forall i, j :: 0 <= i < j < |rows| ==> rows[i].id != rows[j].id
  }

  // --- the keyed map it refines ---

  ghost function Keyed(rows: seq<Row>): map<Id, Row> {
    if rows == [] then map[] else Keyed(rows[..|rows| - 1])[rows[|rows| - 1].id := rows[|rows| - 1]]
  }

  /** Last write wins, by key. */
  ghost function Written(table: map<Id, Row>, message: Message): map<Id, Row> {
    match message
    case RowChanged(_, row) => table[row.id := row]
    case Removed(id) => table - {Text(id)}
    case Presence => table
  }

  ghost function WrittenAll(table: map<Id, Row>, messages: seq<Message>): map<Id, Row> {
    if messages == [] then table
    else Written(WrittenAll(table, messages[..|messages| - 1]), messages[|messages| - 1])
  }

  lemma {:induction false} KeyedHolds(rows: seq<Row>, i: nat)
    requires UniqueKeys(rows) && i < |rows|
    ensures rows[i].id in Keyed(rows) && Keyed(rows)[rows[i].id] == rows[i]
  {
    var n := |rows| - 1;
    if i < n {
      assert rows[..n][i] == rows[i];
      KeyedHolds(rows[..n], i);
      assert rows[i].id != rows[n].id;
    }
  }

  lemma {:induction false} KeyedFrom(rows: seq<Row>, id: Id)
    requires id in Keyed(rows)
    ensures exists i :: 0 <= i < |rows| && rows[i].id == id
  {
    var n := |rows| - 1;
    if id != rows[n].id {
      KeyedFrom(rows[..n], id);
      var i :| 0 <= i < n && rows[..n][i].id == id;
      assert rows[i].id == id;
    }
  }

  lemma {:induction false} KeyedSpec(rows: seq<Row>)
    requires UniqueKeys(rows)
    ensures forall i :: 0 <= i < |rows| ==> rows[i].id in Keyed(rows) && Keyed(rows)[rows[i].id] == rows[i]
    ensures forall id :: id in Keyed(rows) ==> exists i :: 0 <= i < |rows| && rows[i].id == id
  {
    forall i | 0 <= i < |rows|
      ensures rows[i].id in Keyed(rows) && Keyed(rows)[rows[i].id] == rows[i]
    {
      KeyedHolds(rows, i);
    }
    forall id | id in Keyed(rows)
      ensures exists i :: 0 <= i < |rows| && rows[i].id == id
    {
      KeyedFrom(rows, id);
    }
  }

  /** Two lists without repeated keys that hold the same rows have the same table. */
  lemma {:induction false} SameRowsSameTable(rows: seq<Row>, table: map<Id, Row>)
    requires UniqueKeys(rows)
    requires forall i :: 0 <= i < |rows| ==> rows[i].id in table && table[rows[i].id] == rows[i]
    requires forall id :: id in table ==> exists i :: 0 <= i < |rows| && rows[i].id == id
    ensures Keyed(rows) == table
  {
    KeyedSpec(rows);
    forall id | id in table
      ensures id in Keyed(rows) && Keyed(rows)[id] == table[id]
    {
      var i :| 0 <= i < |rows| && rows[i].id == id;
      assert table[rows[i].id] == rows[i];
    }
    forall id | id in Keyed(rows)
      ensures id in table
    {
      var i :| 0 <= i < |rows| && rows[i].id == id;
    }
  }

  lemma {:induction false} UpsertRefines(rows: seq<Row>, next: Row)
    requires UniqueKeys(rows)
    ensures UniqueKeys(Upsert(rows, next))
    ensures Keyed(Upsert(rows, next)) == Keyed(rows)[next.id := next]
  {
    KeyedSpec(rows);
    var after, table := Upsert(rows, next), Keyed(rows)[next.id := next];
    var at := IndexOf(rows, next.id);
    var place := if at.Some? then at.value else |rows|;
    assert after[place] == next;
    forall i | 0 <= i < |after|
      ensures after[i].id in table && table[after[i].id] == after[i]
    {
      assert i != place ==> after[i] == rows[i];
    }
    forall id | id in table
      ensures exists i :: 0 <= i < |after| && after[i].id == id
    {
      if id != next.id {
        var i :| 0 <= i < |rows| && rows[i].id == id;
        assert after[i] == rows[i];
      }
    }
    SameRowsSameTable(after, table);
  }

  /** A changed row takes the place of the row under its key, and stands last when there is none; every other row stays where it is. */
  lemma {:induction false} UpsertPlaces(rows: seq<Row>, next: Row, i: nat)
    requires UniqueKeys(rows)
    ensures i < |rows| && rows[i].id == next.id ==> Upsert(rows, next) == rows[..i] + [next] + rows[i + 1..]
    ensures (forall r :: r in rows ==> r.id != next.id) ==> Upsert(rows, next) == rows + [next]
  {
    assert IndexOf(rows, next.id).Some? ==> rows[IndexOf(rows, next.id).value] in rows;
  }

  lemma {:induction false} FilterUnique(rows: seq<Row>, p: Row -> bool)
    requires UniqueKeys(rows)
    ensures UniqueKeys(Filter(rows, p))
  {
    if rows != [] {
      FilterUnique(rows[1..], p);
      var rest := Filter(rows[1..], p);
      forall j | 0 <= j < |rest|
        ensures rest[j].id != rows[0].id
      {
        FilterMember(rows[1..], p, rest[j]);
        var i :| 0 <= i < |rows[1..]| && rows[1..][i] == rest[j];
        assert rows[i + 1] == rest[j];
      }
    }
  }

  lemma {:induction false} RemoveRefines(rows: seq<Row>, id: string)
    requires UniqueKeys(rows)
    ensures UniqueKeys(Filter(rows, Other(id)))
    ensures Keyed(Filter(rows, Other(id))) == Keyed(rows) - {Text(id)}
  {
    KeyedSpec(rows);
    FilterUnique(rows, Other(id));
    var after, table := Filter(rows, Other(id)), Keyed(rows) - {Text(id)};
    forall i | 0 <= i < |after|
      ensures after[i].id in table && table[after[i].id] == after[i]
    {
      FilterMember(rows, Other(id), after[i]);
      var k :| 0 <= k < |rows| && rows[k] == after[i];
      assert rows[k].id in Keyed(rows);
    }
    forall key | key in table
      ensures exists i :: 0 <= i < |after| && after[i].id == key
    {
      var k :| 0 <= k < |rows| && rows[k].id == key;
      FilterMember(rows, Other(id), rows[k]);
      var i :| 0 <= i < |after| && after[i] == rows[k];
    }
    SameRowsSameTable(after, table);
  }

  /** From a list without repeated keys, every message sequence leaves one, and it is the keyed map's. */
  lemma {:induction false} RowsRefineTable(seed: seq<Row>, messages: seq<Message>)
    requires UniqueKeys(seed)
    ensures UniqueKeys(ReceivedAll(seed, messages))
    ensures Keyed(ReceivedAll(seed, messages)) == WrittenAll(Keyed(seed), messages)
  {
    if messages != [] {
      var n := |messages| - 1;
      RowsRefineTable(seed, messages[..n]);
      match messages[n]
      case RowChanged(_, row) => UpsertRefines(ReceivedAll(seed, messages[..n]), row);
      case Removed(id) => RemoveRefines(ReceivedAll(seed, messages[..n]), id);
      case Presence =>
    }
  }

  // --- what the table says, message by message ---

  predicate Mentions(message: Message, id: Id) {
    match message
    case RowChanged(_, row) => row.id == id
    case Removed(removed) => Text(removed) == id
    case Presence => false
  }

  /** The last message that names the key. */
  function LastWord(messages: seq<Message>, id: Id): (last: Option<nat>)
    ensures last.Some? ==> last.value < |messages| && Mentions(messages[last.value], id)
    ensures forall i :: (if last.Some? then last.value + 1 else 0) <= i < |messages| ==> !Mentions(messages[i], id)
  {
    if messages == [] then None
    else if Mentions(messages[|messages| - 1], id) then Some(|messages| - 1)
    else LastWord(messages[..|messages| - 1], id)
  }

  /**
   * Each key holds its last row message, is absent when the last message that named it was a removal,
   * and otherwise holds what the seed held.
   */
  lemma {:induction false} LastWriteWins(seed: seq<Row>, messages: seq<Message>, id: Id)
    requires UniqueKeys(seed)
    ensures var table := Keyed(ReceivedAll(seed, messages));
            match LastWord(messages, id)
            case None => (id in table <==> id in Keyed(seed)) && (id in table ==> table[id] == Keyed(seed)[id])
            case Some(k) =>
              match messages[k]
              case RowChanged(_, row) => id in table && table[id] == row
              case _ => id !in table
  {
    RowsRefineTable(seed, messages);
    LastWordDecides(Keyed(seed), messages, id);
  }

  lemma {:induction false} LastWordDecides(seed: map<Id, Row>, messages: seq<Message>, id: Id)
    ensures var table := WrittenAll(seed, messages);
            match LastWord(messages, id)
            case None => (id in table <==> id in seed) && (id in table ==> table[id] == seed[id])
            case Some(k) =>
              match messages[k]
              case RowChanged(_, row) => id in table && table[id] == row
              case _ => id !in table
  {
    if messages != [] && !Mentions(messages[|messages| - 1], id) {
      LastWordDecides(seed, messages[..|messages| - 1], id);
    }
  }

  // --- order ---

  function KeyOf(): Row -> Id {
    (r: Row) => r.id
  }

  function Among(keys: set<Id>): Row -> bool {
    (r: Row) => r.id in keys
  }

  lemma {:induction false} UpsertKeepsOrder(rows: seq<Row>, next: Row, kept: set<Id>)
    requires next.id in kept ==> exists i :: 0 <= i < |rows| && rows[i].id == next.id
    ensures Map(Filter(Upsert(rows, next), Among(kept)), KeyOf()) == Map(Filter(rows, Among(kept)), KeyOf())
  {
    match IndexOf(rows, next.id)
    case None =>
      FilterAppend(rows, [next], Among(kept));
      assert [next][1..] == [];
    case Some(at) => ReplaceKeepsOrder(rows, at, next, kept);
  }

  lemma {:induction false} ReplaceKeepsOrder(rows: seq<Row>, at: nat, next: Row, kept: set<Id>)
    requires at < |rows| && rows[at].id == next.id
    ensures Map(Filter(rows[at := next], Among(kept)), KeyOf()) == Map(Filter(rows, Among(kept)), KeyOf())
  {
    var after := rows[at := next];
    if at == 0 {
      assert after[1..] == rows[1..];
    } else {
      assert after[1..] == rows[1..][at - 1 := next];
      ReplaceKeepsOrder(rows[1..], at - 1, next, kept);
    }
  }

  lemma {:induction false} RemoveKeepsOrder(rows: seq<Row>, id: string, kept: set<Id>)
    requires Text(id) !in kept
    ensures Filter(Filter(rows, Other(id)), Among(kept)) == Filter(rows, Among(kept))
  {
    if rows != [] {
      RemoveKeepsOrder(rows[1..], id, kept);
      if rows[0].id != Text(id) {
        assert Filter(rows, Other(id))[1..] == Filter(rows[1..], Other(id));
      }
    }
  }

  /** Seed rows that no message removes keep their places among one another. */
  lemma {:induction false} SurvivorsKeepOrder(seed: seq<Row>, messages: seq<Message>, kept: set<Id>)
    requires UniqueKeys(seed) && kept <= Keyed(seed).Keys
    requires forall i :: 0 <= i < |messages| && messages[i].Removed? ==> Text(messages[i].id) !in kept
    ensures Map(Filter(ReceivedAll(seed, messages), Among(kept)), KeyOf()) == Map(Filter(seed, Among(kept)), KeyOf())
    ensures kept <= Keyed(ReceivedAll(seed, messages)).Keys
  {
    if messages != [] {
      var n := |messages| - 1;
      var rows := ReceivedAll(seed, messages[..n]);
      SurvivorsKeepOrder(seed, messages[..n], kept);
      RowsRefineTable(seed, messages[..n]);
      RowsRefineTable(seed, messages);
      KeyedSpec(rows);
      match messages[n]
      case RowChanged(_, row) => UpsertKeepsOrder(rows, row, kept);
      case Removed(id) => RemoveKeepsOrder(rows, id, kept);
      case Presence =>
    }
  }

  /**
   * A row under a numeric key is never removed: a removal names a string. A channel is declared over a
   * spec entity, whose keys are generated uuids, so no channel sends such a row today; `LastWriteWins`
   * says what holds of every key that is text.
   */
  lemma {:induction false} NumericKeysAreNeverRemoved(seed: seq<Row>, messages: seq<Message>, number: int)
    requires UniqueKeys(seed) && Number(number) in Keyed(seed)
    ensures Number(number) in Keyed(ReceivedAll(seed, messages))
  {
    LastWriteWins(seed, messages, Number(number));
  }
}
