/**
 * The effect behind a live surface: an event stream that gives way to a poll, or stops.
 * Models the second effect of useLiveRows in apps/web/app/use-live-rows.ts, one step for each stretch
 * between awaits: `stopped` is read when a poll's answer arrives, but not again once its body has been read.
 */
module LiveStream {
  import opened Collections
  import opened LiveRows

  /** The surface's state, and the effect's own variables; `fetching` and `reading` count polls in flight. */
  datatype State = State(
    rows: seq<Row>,
    polling: bool,
    closed: Option<string>,
    streaming: bool,
    timer: bool,
    timersStarted: nat,
    stopped: bool,
    fetching: nat,
    reading: nat)

  /** What the effect starts from: whatever the surface showed, a stream, and nothing else. */
  function Subscribed(rows: seq<Row>, polling: bool, closed: Option<string>): State {
    State(rows, polling, closed, true, false, 0, false, 0, 0)
  }

  datatype Event =
    | Message(message: Message)
    | Close(reason: string)
    | Error
    | Tick
    | Answer(ok: bool)
    | Body(rows: seq<Row>)
    | Reseed(rows: seq<Row>)
    | Cleanup

  const REVOKED := "permission-revoked"

  /** A closed stream raises no event, a cleared timer never fires. */
  predicate Enabled(s: State, e: Event) {
    match e
    case Message(_) => s.streaming
    case Close(_) => s.streaming
    case Error => s.streaming
    case Tick => s.timer
    case Answer(_) => s.fetching > 0
    case Body(_) => s.reading > 0
    case Reseed(_) => true
    case Cleanup => true
  }

  function FellBack(s: State, reason: string): State {
    var down := s.(streaming := false);
    if s.stopped || s.timer then down
    else down.(polling := true, closed := if reason == "" then s.closed else Some(reason),
               fetching := s.fetching + 1, timer := true, timersStarted := s.timersStarted + 1)
  }

  function After(s: State, e: Event): State
    requires Enabled(s, e)
  {
    match e
    case Message(message) => s.(rows := Received(s.rows, message))
    case Close(reason) =>
      if reason == REVOKED then s.(stopped := true, streaming := false, polling := false, closed := Some(reason))
      else FellBack(s, reason)
    case Error => s.(polling := true)
    case Tick => s.(fetching := s.fetching + 1)
    case Answer(ok) => s.(fetching := s.fetching - 1, reading := if ok && !s.stopped then s.reading + 1 else s.reading)
    case Body(rows) => s.(reading := s.reading - 1, rows := rows, polling := true)
    case Reseed(rows) => s.(rows := rows)
    case Cleanup => s.(stopped := true, streaming := false, timer := false)
  }

  class Surface {
    var rows: seq<Row>
    var polling: bool
    var closed: Option<string>
    var streaming: bool
    var timer: bool
    var timersStarted: nat
    var stopped: bool
    var fetching: nat
    var reading: nat

    constructor (initial: seq<Row>, wasPolling: bool, wasClosed: Option<string>)
      ensures Now() == Subscribed(initial, wasPolling, wasClosed)
    {
      rows, polling, closed := initial, wasPolling, wasClosed;
      streaming, timer, timersStarted, stopped, fetching, reading := true, false, 0, false, 0, 0;
    }

    ghost function Now(): State
      reads this
    {
      State(rows, polling, closed, streaming, timer, timersStarted, stopped, fetching, reading)
    }

    method OnMessage(message: Message)
      requires Enabled(Now(), Event.Message(message))
      modifies this
      ensures Now() == After(old(Now()), Event.Message(message))
    {
      match message {
        case RowChanged(_, row) => rows := Upsert(rows, row);
        case Removed(id) => rows := Filter(rows, Other(id));
        case Presence =>
      }
    }

    method OnClose(reason: string)
      requires Enabled(Now(), Close(reason))
      modifies this
      ensures Now() == After(old(Now()), Close(reason))
    {
      if reason == REVOKED {
        stopped := true;
        streaming := false;
        polling := false;
        closed := Some(reason);
        return;
      }
      FallBackToPolling(reason);
    }

    method FallBackToPolling(reason: string)
      modifies this
      ensures Now() == FellBack(old(Now()), reason)
    {
      streaming := false;
      if stopped || timer {
        return;
      }
      polling := true;
      if reason != "" {
        closed := Some(reason);
      }
      fetching := fetching + 1;
      timer := true;
      timersStarted := timersStarted + 1;
    }

    method OnError()
      requires Enabled(Now(), Error)
      modifies this
      ensures Now() == After(old(Now()), Error)
    {
      polling := true;
    }

    /** poll, resumed with its response. */
    method OnAnswer(ok: bool)
      requires Enabled(Now(), Answer(ok))
      modifies this
      ensures Now() == After(old(Now()), Answer(ok))
    {
      fetching := fetching - 1;
      if !ok || stopped {
        return;
      }
      reading := reading + 1;
    }

    /** poll, resumed with its body. */
    method OnBody(body: seq<Row>)
      requires Enabled(Now(), Body(body))
      modifies this
      ensures Now() == After(old(Now()), Body(body))
    {
      reading := reading - 1;
      rows := body;
      polling := true;
    }

    method CleanUp()
      modifies this
      ensures Now() == After(old(Now()), Cleanup)
    {
      stopped := true;
      streaming := false;
      if timer {
        timer := false;
      }
    }
  }

  // ---------------------------------------------------------------------------
  // What every event keeps
  // ---------------------------------------------------------------------------

  /** A stream or a poll, never both; one timer at most; a stopped effect holds no stream. */
  ghost predicate Valid(s: State) {
    && (s.timer || s.timersStarted > 0 || s.fetching > 0 || s.reading > 0 ==> !s.streaming)
    && (s.timer ==> s.timersStarted == 1)
    && s.timersStarted <= 1
    && (s.stopped ==> !s.streaming)
    && (!s.streaming && !s.stopped ==> s.timer)
    && (s.fetching > 0 || s.reading > 0 ==> s.timersStarted == 1)
  }

  /** `states` is a run of one effect. */
  ghost predicate IsRun(states: seq<State>, events: seq<Event>) {
    && |states| == |events| + 1
    && states[0] == Subscribed(states[0].rows, states[0].polling, states[0].closed)
    && forall k :: 0 <= k < |events| ==> Enabled(states[k], events[k]) && states[k + 1] == After(states[k], events[k])
  }

  /** Over every event sequence: a poll timer means the stream is closed, and at most one is ever started. */
  lemma {:induction false} EveryRunIsValid(states: seq<State>, events: seq<Event>, k: nat)
    requires IsRun(states, events) && k < |states|
    ensures Valid(states[k])
  {
    if k > 0 {
      EveryRunIsValid(states, events, k - 1);
      assert Enabled(states[k - 1], events[k - 1]);
    }
  }

  /** Nothing can change the rows any more but a new seed. */
  ghost predicate Silent(s: State) {
    s.stopped && !s.streaming && !s.timer && s.fetching == 0 && s.reading == 0
  }

  /** The rows of the last seed in `events`, or `rows` when there is none. */
  function LastSeed(rows: seq<Row>, events: seq<Event>): seq<Row> {
    if events == [] then rows
    else if events[|events| - 1].Reseed? then events[|events| - 1].rows
    else LastSeed(rows, events[..|events| - 1])
  }

  lemma {:induction false} SeedStep(rows: seq<Row>, events: seq<Event>, from: nat, upTo: nat)
    requires from < upTo <= |events|
    ensures LastSeed(rows, events[from..upTo])
            == if events[upTo - 1].Reseed? then events[upTo - 1].rows else LastSeed(rows, events[from..upTo - 1])
  {
    assert events[from..upTo][..upTo - 1 - from] == events[from..upTo - 1];
  }

  lemma {:induction false} SilenceLasts(states: seq<State>, events: seq<Event>, j: nat, k: nat)
    requires IsRun(states, events) && j <= k < |states| && Silent(states[j])
    ensures Silent(states[k]) && states[k].rows == LastSeed(states[j].rows, events[j..k])
    ensures states[k].polling == states[j].polling
    decreases k
  {
    if j < k {
      SilenceLasts(states, events, j, k - 1);
      assert Enabled(states[k - 1], events[k - 1]);
      SeedStep(states[j].rows, events, j, k);
    } else {
      assert events[j..k] == [];
    }
  }

  /** After a revoked permission neither stream nor poll changes the rows again: they are the loader's. */
  lemma {:induction false} RevokedIsFinal(states: seq<State>, events: seq<Event>, j: nat, k: nat)
    requires IsRun(states, events) && j < k < |states| && events[j] == Close("permission-revoked")
    ensures states[k].rows == LastSeed(states[j].rows, events[j + 1..k])
    ensures !states[k].polling && states[k].stopped
  {
    EveryRunIsValid(states, events, j);
    assert Enabled(states[j], events[j]);
    SilenceLasts(states, events, j + 1, k);
  }

  // ---------------------------------------------------------------------------
  // After the surface has moved on
  // ---------------------------------------------------------------------------

  function Bodies(events: seq<Event>): nat {
    if events == [] then 0
    else Bodies(events[..|events| - 1]) + if events[|events| - 1].Body? then 1 else 0
  }

  lemma {:induction false} BodiesStep(events: seq<Event>, from: nat, upTo: nat)
    requires from < upTo <= |events|
    ensures Bodies(events[from..upTo]) == Bodies(events[from..upTo - 1]) + if events[upTo - 1].Body? then 1 else 0
  {
    assert events[from..upTo][..upTo - 1 - from] == events[from..upTo - 1];
  }

  ghost predicate CleanedUp(s: State) {
    s.stopped && !s.streaming && !s.timer
  }

  /** After the cleanup a poll may still be read or dropped, but none gets past its check. */
  lemma {:induction false} CleanedUpStep(s: State, e: Event)
    requires CleanedUp(s) && Enabled(s, e)
    ensures CleanedUp(After(s, e)) && After(s, e).reading + (if e.Body? then 1 else 0) == s.reading
    ensures !e.Body? ==> After(s, e).rows == if e.Reseed? then e.rows else s.rows
  {}

  /**
   * A cleaned-up effect writes rows only for polls that had passed their `stopped` check before it: at
   * most as many as were being read, and none when none was.
   */
  lemma {:induction false} CleanupLeavesReads(states: seq<State>, events: seq<Event>, j: nat, k: nat)
    requires IsRun(states, events) && j < k < |states| && events[j] == Cleanup
    ensures CleanedUp(states[k])
    ensures states[k].reading + Bodies(events[j + 1..k]) == states[j].reading
    ensures Bodies(events[j + 1..k]) == 0 ==> states[k].rows == LastSeed(states[j].rows, events[j + 1..k])
    decreases k
  {
    assert Enabled(states[k - 1], events[k - 1]) && states[k] == After(states[k - 1], events[k - 1]);
    if j + 1 < k {
      CleanupLeavesReads(states, events, j, k - 1);
      ReadsLeft(states[j], states[k - 1], states[k], events, j + 1, k);
    } else {
      assert events[j + 1..k] == [];
    }
  }

  /** One event more after the cleanup. */
  lemma {:induction false} ReadsLeft(start: State, s: State, t: State, events: seq<Event>, from: nat, k: nat)
    requires from < k <= |events| && CleanedUp(s) && Enabled(s, events[k - 1]) && t == After(s, events[k - 1])
    requires s.reading + Bodies(events[from..k - 1]) == start.reading
    requires Bodies(events[from..k - 1]) == 0 ==> s.rows == LastSeed(start.rows, events[from..k - 1])
    ensures CleanedUp(t) && t.reading + Bodies(events[from..k]) == start.reading
    ensures Bodies(events[from..k]) == 0 ==> t.rows == LastSeed(start.rows, events[from..k])
  {
    CleanedUpStep(s, events[k - 1]);
    BodiesStep(events, from, k);
    SeedStep(start.rows, events, from, k);
  }

  /** Such a read does write: the rows of the channel just left replace what the surface shows. */
  lemma {:induction false} CleanupCanBeOvertaken(rows: seq<Row>, stale: seq<Row>, reason: string) returns (states: seq<State>, events: seq<Event>)
    requires reason != REVOKED
    ensures IsRun(states, events) && states[0].rows == rows
    ensures events == [Close(reason), Answer(true), Cleanup, Body(stale)]
    ensures states[4].stopped && states[4].rows == stale
  {
    events := [Close(reason), Answer(true), Cleanup, Body(stale)];
    var a := Subscribed(rows, false, None);
    var b := After(a, Close(reason));
    var c := After(b, Answer(true));
    var d := After(c, Cleanup);
    states := [a, b, c, d, After(d, Body(stale))];
  }

  // ---------------------------------------------------------------------------
  // What the polling flag means
  // ---------------------------------------------------------------------------

  predicate RaisesPolling(e: Event) {
    e.Error? || (e.Close? && e.reason != REVOKED)
  }

  /**
   * The flag is up exactly when it was up to begin with or the stream has failed once, and no permission
   * was revoked: a stream that recovers never lowers it.
   */
  lemma {:induction false} PollingMeansEverFailed(states: seq<State>, events: seq<Event>, k: nat)
    requires IsRun(states, events) && k < |states|
    ensures states[k].polling <==>
              && (states[0].polling || exists i :: 0 <= i < k && RaisesPolling(events[i]))
              && forall i :: 0 <= i < k ==> events[i] != Close(REVOKED)
    ensures states[k].timersStarted > 0 ==> exists i :: 0 <= i < k && RaisesPolling(events[i])
    ensures (states[k].timersStarted > 0 || states[k].streaming) ==> forall i :: 0 <= i < k ==> events[i] != Close(REVOKED)
  {
    if k > 0 {
      PollingMeansEverFailed(states, events, k - 1);
      EveryRunIsValid(states, events, k - 1);
      assert Enabled(states[k - 1], events[k - 1]);
    }
  }

  /** A transport error alone starts no poll: without a stated close the effect polls nothing, flag or no flag. */
  lemma {:induction false} OnlyAStatedClosePolls(states: seq<State>, events: seq<Event>, k: nat)
    requires IsRun(states, events) && k < |states|
    ensures states[k].timersStarted == 1 <==> exists i :: 0 <= i < k && events[i].Close? && events[i].reason != REVOKED
    ensures states[k].timersStarted == 0 ==> states[k].fetching == 0 && states[k].reading == 0
  {
    EveryRunIsValid(states, events, k);
    if k > 0 {
      OnlyAStatedClosePolls(states, events, k - 1);
      EveryRunIsValid(states, events, k - 1);
      assert Enabled(states[k - 1], events[k - 1]);
    }
  }

  /** What a run has been told of why its stream was closed. */
  function Told(events: seq<Event>, before: Option<string>): Option<string> {
    if events == [] then before
    else
      var last := events[|events| - 1];
      if last.Close? && last.reason != "" then Some(last.reason) else Told(events[..|events| - 1], before)
  }

  /** The reason shown is the one the stream's close stated, if it stated one, and a stream is closed once. */
  lemma {:induction false} ClosedTellsWhy(states: seq<State>, events: seq<Event>, k: nat)
    requires IsRun(states, events) && k < |states|
    ensures states[k].closed == Told(events[..k], states[0].closed)
    ensures states[k].streaming ==> forall i :: 0 <= i < k ==> !events[i].Close?
    ensures forall i, j :: 0 <= i < j < k ==> !(events[i].Close? && events[j].Close?)
  {
    if k > 0 {
      ClosedTellsWhy(states, events, k - 1);
      EveryRunIsValid(states, events, k - 1);
      assert Enabled(states[k - 1], events[k - 1]);
      assert events[..k][..k - 1] == events[..k - 1];
    }
  }

  function Count(events: seq<Event>, p: Event -> bool): nat {
    if events == [] then 0 else Count(events[..|events| - 1], p) + if p(events[|events| - 1]) then 1 else 0
  }

  /** Each tick of the timer starts one poll, and falling back starts one at once; each is in flight until it is answered. */
  lemma {:induction false} PollsAreAccounted(states: seq<State>, events: seq<Event>, k: nat)
    requires IsRun(states, events) && k < |states|
    ensures states[k].fetching + Count(events[..k], (e: Event) => e.Answer?)
            == Count(events[..k], (e: Event) => e.Tick?) + Count(events[..k], (e: Event) => e.Close? && e.reason != "permission-revoked")
  {
    if k > 0 {
      PollsAreAccounted(states, events, k - 1);
      EveryRunIsValid(states, events, k - 1);
      assert Enabled(states[k - 1], events[k - 1]);
      assert events[..k][..k - 1] == events[..k - 1] && events[..k][k - 1] == events[k - 1];
    }
  }

  /** An answer is read exactly when it is a success and the effect still runs, and once each. */
  lemma {:induction false} AnswersAreRead(states: seq<State>, events: seq<Event>, k: nat)
    requires IsRun(states, events) && k < |events|
    ensures events[k].Answer? ==> states[k + 1] == states[k].(fetching := states[k + 1].fetching, reading := states[k + 1].reading)
                                  && states[k + 1].reading == states[k].reading + (if events[k].ok && !states[k].stopped then 1 else 0)
    ensures events[k].Body? ==> states[k + 1].reading == states[k].reading - 1 && states[k + 1].rows == events[k].rows && states[k + 1].polling
    ensures !events[k].Answer? && !events[k].Body? ==> states[k + 1].reading == states[k].reading
  {
    assert Enabled(states[k], events[k]);
  }

  // ---------------------------------------------------------------------------
  // The stream's rows
  // ---------------------------------------------------------------------------

  function MessagesOf(events: seq<Event>): seq<LiveRows.Message> {
    if events == [] then []
    else MessagesOf(events[..|events| - 1])
         + if events[|events| - 1].Message? then [events[|events| - 1].message] else []
  }

  /** Rows with the messages of some events laid over them, one after another. */
  function Laid(rows: seq<Row>, events: seq<Event>): seq<Row> {
    if events == [] then rows
    else
      var before, last := Laid(rows, events[..|events| - 1]), events[|events| - 1];
      if last.Message? then Received(before, last.message) else before
  }

  lemma {:induction false} LaidIsReceived(rows: seq<Row>, events: seq<Event>)
    ensures Laid(rows, events) == ReceivedAll(rows, MessagesOf(events))
  {
    if events != [] {
      var n := |events| - 1;
      LaidIsReceived(rows, events[..n]);
      var before := MessagesOf(events[..n]);
      if events[n].Message? {
        ReceivedSnoc(rows, before, events[n].message);
      } else {
        assert before + [] == before;
      }
    }
  }

  lemma {:induction false} ReceivedSnoc(rows: seq<Row>, messages: seq<LiveRows.Message>, message: LiveRows.Message)
    ensures ReceivedAll(rows, messages + [message]) == Received(ReceivedAll(rows, messages), message)
  {
    assert (messages + [message])[..|messages|] == messages;
  }

  lemma {:induction false} LaidSnoc(rows: seq<Row>, events: seq<Event>, from: nat, k: nat)
    requires from < k <= |events|
    ensures var before := Laid(rows, events[from..k - 1]);
            Laid(rows, events[from..k]) == if events[k - 1].Message? then Received(before, events[k - 1].message) else before
  {
    var part := events[from..k];
    assert part[..|part| - 1] == events[from..k - 1] && part[|part| - 1] == events[k - 1];
  }

  lemma {:induction false} RowsAfter(s: State, e: Event)
    requires Enabled(s, e)
    ensures After(s, e).rows == if e.Message? then Received(s.rows, e.message) else if e.Reseed? || e.Body? then e.rows else s.rows
  {}

  lemma {:induction false} RowsLaid(states: seq<State>, events: seq<Event>, j: nat, k: nat)
    requires IsRun(states, events) && j < k < |states| && (events[j].Reseed? || events[j].Body?)
    requires forall i :: j < i < k ==> !events[i].Reseed? && !events[i].Body?
    ensures states[k].rows == Laid(events[j].rows, events[j + 1..k])
    decreases k
  {
    assert Enabled(states[k - 1], events[k - 1]);
    RowsAfter(states[k - 1], events[k - 1]);
    if j + 1 < k {
      RowsLaid(states, events, j, k - 1);
      LaidSnoc(events[j].rows, events, j + 1, k);
    } else {
      assert events[j + 1..k] == [];
    }
  }

  /** Whatever was shown, a new seed and a poll's body replace it, and from then on the stream's messages are laid over them. */
  lemma {:induction false} RowsFollow(states: seq<State>, events: seq<Event>, j: nat, k: nat)
    requires IsRun(states, events) && j < k < |states| && (events[j].Reseed? || events[j].Body?)
    requires forall i :: j < i < k ==> !events[i].Reseed? && !events[i].Body?
    ensures states[k].rows == ReceivedAll(events[j].rows, MessagesOf(events[j + 1..k]))
  {
    RowsLaid(states, events, j, k);
    LaidIsReceived(events[j].rows, events[j + 1..k]);
  }

  /** Until the loader or a poll says otherwise, the surface is the keyed map its stream has written. */
  lemma {:induction false} StreamRowsRefineTable(states: seq<State>, events: seq<Event>, k: nat)
    requires IsRun(states, events) && k < |states| && UniqueKeys(states[0].rows)
    requires forall i :: 0 <= i < k ==> !events[i].Reseed? && !events[i].Body?
    ensures states[k].rows == ReceivedAll(states[0].rows, MessagesOf(events[..k]))
    ensures UniqueKeys(states[k].rows)
    ensures Keyed(states[k].rows) == WrittenAll(Keyed(states[0].rows), MessagesOf(events[..k]))
  {
    StreamRows(states, events, k);
    RowsRefineTable(states[0].rows, MessagesOf(events[..k]));
  }

  lemma {:induction false} StreamRows(states: seq<State>, events: seq<Event>, k: nat)
    requires IsRun(states, events) && k < |states|
    requires forall i :: 0 <= i < k ==> !events[i].Reseed? && !events[i].Body?
    ensures states[k].rows == ReceivedAll(states[0].rows, MessagesOf(events[..k]))
  {
    if k > 0 {
      StreamRows(states, events, k - 1);
      assert Enabled(states[k - 1], events[k - 1]);
      assert events[..k][..k - 1] == events[..k - 1];
      var before := MessagesOf(events[..k - 1]);
      if events[k - 1].Message? {
        var messages := before + [events[k - 1].message];
        assert messages[..|messages| - 1] == before;
      } else {
        assert before + [] == before;
      }
    }
  }
}
