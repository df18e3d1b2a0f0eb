/**
 * Seeds, clears, user writes and crashes in any interleaving: what the manifest may claim, and what a
 * clear may delete.
 * Models the awaits of seedDemoData, recordSeededRows and clearDemoData in apps/web/app/sprout.server.ts:
 * one step for each stretch between two awaits. A manifest being written when the process dies reads as
 * empty afterwards, as readDemoManifest treats any file it cannot parse.
 */
module DemoRuns {
  import opened DemoData

  /** A request in flight; `at` is the version of the manifest it read. */
  datatype Task =
    | Seeding(created: set<Key>)
    | Recording(created: set<Key>, current: set<Key>, at: nat)
    | Clearing(listed: set<Key>, at: nat)

  /**
   * The database, the manifest, how often it has been written or removed, and the requests in flight;
   * `seededEver` is every key a generic seed has created, `reused` those somebody else then created a
   * row under.
   */
  datatype State = State(rows: map<Key, Origin>, manifest: set<Key>, version: nat, tasks: seq<Task>,
                         seededEver: set<Key>, reused: set<Key>)

  datatype Step =
    | BeginSeed
    | SeedRow(task: nat, key: Key)
    | ReadManifest(task: nat)
    | WriteManifest(task: nat)
    | BeginClear
    | DeleteRow(task: nat, key: Key)
    | RemoveManifest(task: nat)
    | Throw(task: nat)
    | Crash(torn: bool)
    | Create(key: Key, origin: Origin)
    | Delete(key: Key)

  predicate Enabled(s: State, step: Step) {
    match step
    case BeginSeed => true
    case SeedRow(t, key) => t < |s.tasks| && s.tasks[t].Seeding? && key !in s.rows
    case ReadManifest(t) => t < |s.tasks| && s.tasks[t].Seeding?
    case WriteManifest(t) => t < |s.tasks| && s.tasks[t].Recording?
    case BeginClear => true
    case DeleteRow(t, key) => t < |s.tasks| && s.tasks[t].Clearing? && key in s.tasks[t].listed
    case RemoveManifest(t) => t < |s.tasks| && s.tasks[t].Clearing? && s.tasks[t].listed == {}
    case Throw(t) => t < |s.tasks|
    case Crash(torn) => torn ==> exists t :: 0 <= t < |s.tasks| && s.tasks[t].Recording?
    case Create(key, origin) => key !in s.rows && !origin.Seeded?
    case Delete(key) => true
  }

  function Ended(tasks: seq<Task>, t: nat): seq<Task>
    requires t < |tasks|
  {
    tasks[..t] + tasks[t + 1..]
  }

  /** The ids among the keys a seed created that the manifest can hold. */
  function Trackable(created: set<Key>): set<Key> {
    set k | k in created && k.id.Text?
  }

  /** What a recording task writes: nothing, when there is nothing to claim. */
  function Next(task: Task): set<Key>
    requires task.Recording?
  {
    task.current + Trackable(task.created)
  }

  function After(s: State, step: Step): State
    requires Enabled(s, step)
  {
    match step
    case BeginSeed => s.(tasks := s.tasks + [Seeding({})])
    case SeedRow(t, key) =>
      s.(rows := s.rows[key := Seeded], tasks := s.tasks[t := Seeding(s.tasks[t].created + {key})], seededEver := s.seededEver + {key})
    case ReadManifest(t) => s.(tasks := s.tasks[t := Recording(s.tasks[t].created, s.manifest, s.version)])
    case WriteManifest(t) =>
      if Next(s.tasks[t]) == {} then s.(tasks := Ended(s.tasks, t))
      else s.(manifest := Next(s.tasks[t]), version := s.version + 1, tasks := Ended(s.tasks, t))
    case BeginClear => s.(tasks := s.tasks + [Clearing(s.manifest, s.version)])
    case DeleteRow(t, key) => s.(rows := s.rows - {key}, tasks := s.tasks[t := s.tasks[t].(listed := s.tasks[t].listed - {key})])
    case RemoveManifest(t) => s.(manifest := {}, version := s.version + 1, tasks := Ended(s.tasks, t))
    case Throw(t) => s.(tasks := Ended(s.tasks, t))
    case Crash(torn) => if torn then s.(tasks := [], manifest := {}, version := s.version + 1) else s.(tasks := [])
    case Create(key, origin) =>
      s.(rows := s.rows[key := origin], reused := if key in s.seededEver then s.reused + {key} else s.reused)
    case Delete(key) => s.(rows := s.rows - {key})
  }

  // ---------------------------------------------------------------------------
  // What every step keeps
  // ---------------------------------------------------------------------------

  ghost predicate OnlySeeded(task: Task, seeded: set<Key>) {
    match task
    case Seeding(created) => created <= seeded
    case Recording(created, current, _) => created <= seeded && current <= seeded
    case Clearing(listed, _) => listed <= seeded
  }

  /** Everything claimed, or about to be, was created by a generic seed. */
  ghost predicate Claims(s: State) {
    s.manifest <= s.seededEver && forall t :: 0 <= t < |s.tasks| ==> OnlySeeded(s.tasks[t], s.seededEver)
  }

  /** A row under a key a seed once created is the seed's, or its key was taken up by somebody else. */
  ghost predicate Owned(s: State) {
    forall k :: k in s.rows && k in s.seededEver ==> s.rows[k].Seeded? || k in s.reused
  }

  lemma {:induction false} StepKeepsClaims(s: State, step: Step)
    requires Claims(s) && Enabled(s, step)
    ensures Claims(After(s, step))
    ensures s.seededEver <= After(s, step).seededEver && s.reused <= After(s, step).reused
  {
    var after := After(s, step);
    match step
    case WriteManifest(t) => assert OnlySeeded(s.tasks[t], s.seededEver);
    case SeedRow(t, key) =>
      forall i | 0 <= i < |after.tasks|
        ensures OnlySeeded(after.tasks[i], after.seededEver)
      {
        assert OnlySeeded(s.tasks[i], s.seededEver);
      }
    case ReadManifest(t) => assert OnlySeeded(s.tasks[t], s.seededEver);
    case DeleteRow(t, key) => assert OnlySeeded(s.tasks[t], s.seededEver);
    case _ =>
  }

  lemma {:induction false} StepKeepsOwned(s: State, step: Step)
    requires Claims(s) && Owned(s) && Enabled(s, step)
    ensures Owned(After(s, step))
  {
  }

  ghost predicate IsRun(states: seq<State>, steps: seq<Step>) {
    && |states| == |steps| + 1
    && states[0].manifest == {} && states[0].tasks == [] && states[0].seededEver == {} && states[0].reused == {}
    && (forall k :: 0 <= k < |steps| ==> Enabled(states[k], steps[k]) && states[k + 1] == After(states[k], steps[k]))
  }

  /** In every run every id in the manifest was created by a generic seed. */
  lemma {:induction false} ManifestClaimsOnlySeeds(states: seq<State>, steps: seq<Step>, k: nat)
    requires IsRun(states, steps) && k < |states|
    ensures Claims(states[k]) && Owned(states[k])
    ensures states[k].manifest <= states[k].seededEver
  {
    if k > 0 {
      ManifestClaimsOnlySeeds(states, steps, k - 1);
      assert Enabled(states[k - 1], steps[k - 1]);
      StepKeepsClaims(states[k - 1], steps[k - 1]);
      StepKeepsOwned(states[k - 1], steps[k - 1]);
    }
  }

  /**
   * In every run a clear deletes only rows a generic seed created, unless somebody had taken up the
   * deleted row's very key for a row of their own.
   */
  lemma {:induction false} ClearSparesUsers(states: seq<State>, steps: seq<Step>, k: nat)
    requires IsRun(states, steps) && k < |steps| && steps[k].DeleteRow?
    ensures var key := steps[k].key; key in states[k].rows ==> states[k].rows[key].Seeded? || key in states[k].reused
  {
    ManifestClaimsOnlySeeds(states, steps, k);
    assert Enabled(states[k], steps[k]);
    assert OnlySeeded(states[k].tasks[steps[k].task], states[k].seededEver);
  }

  /** When no one but a seed creates a row under a key a seed has used, no clear ever deletes anyone else's row. */
  lemma {:induction false} FreshKeysAreSafe(states: seq<State>, steps: seq<Step>, k: nat)
    requires IsRun(states, steps) && k < |steps| && steps[k].DeleteRow?
    requires forall i :: 0 <= i < k && steps[i].Create? ==> steps[i].key !in states[i].seededEver
    ensures steps[k].key in states[k].rows ==> states[k].rows[steps[k].key].Seeded?
  {
    NeverReused(states, steps, k);
    ClearSparesUsers(states, steps, k);
  }

  lemma {:induction false} NeverReused(states: seq<State>, steps: seq<Step>, k: nat)
    requires IsRun(states, steps) && k < |states|
    requires forall i :: 0 <= i < k && steps[i].Create? ==> steps[i].key !in states[i].seededEver
    ensures states[k].reused == {}
  {
    if k > 0 {
      NeverReused(states, steps, k - 1);
      assert Enabled(states[k - 1], steps[k - 1]);
    }
  }

  /** A clear that begins now can delete somebody else's row exactly when the row stands under a key the manifest claims. */
  lemma {:induction false} ClearTakesOthersIff(s: State, key: Key)
    ensures var t, clearing := |s.tasks|, After(s, BeginClear);
            (&& Enabled(clearing, DeleteRow(t, key)) && key in clearing.rows && !clearing.rows[key].Seeded?
             && key !in After(clearing, DeleteRow(t, key)).rows)
            <==> key in s.manifest && key in s.rows && !s.rows[key].Seeded?
  {
  }

  // ---------------------------------------------------------------------------
  // A request nobody interrupts
  // ---------------------------------------------------------------------------

  /** The steps can be taken one after another, and lead to `end`. */
  ghost predicate Leads(s: State, steps: seq<Step>, end: State)
    decreases |steps|
  {
    if steps == [] then s == end else Enabled(s, steps[0]) && Leads(After(s, steps[0]), steps[1..], end)
  }

  lemma {:induction false} LeadsOn(s: State, a: seq<Step>, mid: State, b: seq<Step>, end: State)
    requires Leads(s, a, mid) && Leads(mid, b, end)
    ensures Leads(s, a + b, end)
    decreases |a|
  {
    if a == [] {
      assert a + b == b;
    } else {
      LeadsOn(After(s, a[0]), a[1..], mid, b, end);
      assert (a + b)[1..] == a[1..] + b;
    }
  }

  lemma {:induction false} LeadsFirst(s: State, step: Step, rest: seq<Step>, end: State)
    requires Enabled(s, step) && Leads(After(s, step), rest, end)
    ensures Leads(s, [step] + rest, end)
  {
    assert ([step] + rest)[1..] == rest;
  }

  lemma {:induction false} LeadsOne(s: State, step: Step)
    requires Enabled(s, step)
    ensures Leads(s, [step], After(s, step))
  {
    assert [step][1..] == [];
  }

  function KeysOf(keys: seq<Key>): set<Key> { set k | k in keys }

  function SampleRows(keys: seq<Key>): map<Key, Origin> { map k | k in keys :: Seeded }

  function SeedSteps(t: nat, keys: seq<Key>): seq<Step> { seq(|keys|, i requires 0 <= i < |keys| => SeedRow(t, keys[i])) }

  function DeleteSteps(t: nat, keys: seq<Key>): seq<Step> { seq(|keys|, i requires 0 <= i < |keys| => DeleteRow(t, keys[i])) }

  function SeededBy(s: State, t: nat, keys: seq<Key>): State
    requires t < |s.tasks| && s.tasks[t].Seeding?
  {
    s.(rows := s.rows + SampleRows(keys), tasks := s.tasks[t := Seeding(s.tasks[t].created + KeysOf(keys))],
       seededEver := s.seededEver + KeysOf(keys))
  }

  lemma {:induction false} SeededNone(s: State, t: nat)
    requires t < |s.tasks| && s.tasks[t].Seeding?
    ensures SeededBy(s, t, []) == s
  {
    assert s.rows + SampleRows([]) == s.rows && s.tasks[t].created + KeysOf([]) == s.tasks[t].created;
    assert s.tasks[t := s.tasks[t]] == s.tasks && s.seededEver + KeysOf([]) == s.seededEver;
  }

  lemma {:induction false} SeededOneMore(s: State, t: nat, key: Key, rest: seq<Key>)
    requires t < |s.tasks| && s.tasks[t].Seeding? && key !in s.rows
    ensures SeededBy(After(s, SeedRow(t, key)), t, rest) == SeededBy(s, t, [key] + rest)
  {
    var next := After(s, SeedRow(t, key));
    assert KeysOf([key] + rest) == {key} + KeysOf(rest);
    assert next.rows + SampleRows(rest) == s.rows + SampleRows([key] + rest);
    assert next.tasks[t].created + KeysOf(rest) == s.tasks[t].created + KeysOf([key] + rest);
    assert next.seededEver + KeysOf(rest) == s.seededEver + KeysOf([key] + rest);
  }

  /** Keys that differ, none of them a row's. */
  ghost predicate Unused(s: State, keys: seq<Key>) {
    (forall i, j :: 0 <= i < j < |keys| ==> keys[i] != keys[j]) && forall i :: 0 <= i < |keys| ==> keys[i] !in s.rows
  }

  lemma {:induction false} RestUnused(s: State, t: nat, keys: seq<Key>)
    requires t < |s.tasks| && s.tasks[t].Seeding? && keys != [] && Unused(s, keys)
    ensures Enabled(s, SeedRow(t, keys[0])) && Unused(After(s, SeedRow(t, keys[0])), keys[1..])
  {
    var next := After(s, SeedRow(t, keys[0]));
    forall i | 0 <= i < |keys| - 1
      ensures keys[1..][i] !in next.rows
    {
      assert keys[1..][i] == keys[i + 1] && keys[i + 1] != keys[0];
    }
  }

  lemma {:induction false} FirstSeedStep(t: nat, keys: seq<Key>)
    requires keys != []
    ensures [SeedRow(t, keys[0])] + SeedSteps(t, keys[1..]) == SeedSteps(t, keys)
  {}

  lemma {:induction false} SeedsAll(s: State, t: nat, keys: seq<Key>)
    requires t < |s.tasks| && s.tasks[t].Seeding? && Unused(s, keys)
    ensures Leads(s, SeedSteps(t, keys), SeededBy(s, t, keys))
    decreases |keys|
  {
    if keys == [] {
      SeededNone(s, t);
    } else {
      var key, rest := keys[0], keys[1..];
      RestUnused(s, t, keys);
      SeedsAll(After(s, SeedRow(t, key)), t, rest);
      SeededOneMore(s, t, key, rest);
      assert keys == [key] + rest;
      LeadsFirst(s, SeedRow(t, key), SeedSteps(t, rest), SeededBy(s, t, keys));
      FirstSeedStep(t, keys);
    }
  }

  /**
   * A seed nobody interrupts leaves its rows and claims those the manifest can hold, over everything claimed
   * before; and nothing else changes but how often the manifest was written.
   */
  lemma {:induction false} UninterruptedSeed(s: State, keys: seq<Key>)
    requires Unused(s, keys)
    ensures var t := |s.tasks|;
            var claimed := s.manifest + set k | k in keys && k.id.Text?;
            Leads(s, [BeginSeed] + (SeedSteps(t, keys) + ([ReadManifest(t)] + [WriteManifest(t)])),
                  s.(rows := s.rows + SampleRows(keys), manifest := claimed,
                     version := if claimed == {} then s.version else s.version + 1, seededEver := s.seededEver + KeysOf(keys)))
  {
    var t := |s.tasks|;
    var begun := After(s, BeginSeed);
    var seeded := SeededBy(begun, t, keys);
    SeedsAll(begun, t, keys);
    var end := Recorded(s, keys);
    RecordingEnds(s, keys);
    LeadsOn(begun, SeedSteps(t, keys), seeded, [ReadManifest(t)] + [WriteManifest(t)], end);
    LeadsFirst(s, BeginSeed, SeedSteps(t, keys) + ([ReadManifest(t)] + [WriteManifest(t)]), end);
  }

  /** Where a seed nobody interrupts ends. */
  function Recorded(s: State, keys: seq<Key>): State {
    var claimed := s.manifest + set k | k in keys && k.id.Text?;
    s.(rows := s.rows + SampleRows(keys), manifest := claimed,
       version := if claimed == {} then s.version else s.version + 1, seededEver := s.seededEver + KeysOf(keys))
  }

  lemma {:induction false} RecordingEnds(s: State, keys: seq<Key>)
    ensures var t := |s.tasks|;
            Leads(SeededBy(After(s, BeginSeed), t, keys), [ReadManifest(t)] + [WriteManifest(t)], Recorded(s, keys))
  {
    var t := |s.tasks|;
    var seeded := SeededBy(After(s, BeginSeed), t, keys);
    var read := After(seeded, ReadManifest(t));
    var end := After(read, WriteManifest(t));
    LeadsOne(seeded, ReadManifest(t));
    LeadsOne(read, WriteManifest(t));
    LeadsOn(seeded, [ReadManifest(t)], read, [WriteManifest(t)], end);
    assert Next(read.tasks[t]) == s.manifest + set k | k in keys && k.id.Text?;
    assert Ended(read.tasks, t) == s.tasks;
    assert end == Recorded(s, keys);
  }

  function DeletedBy(s: State, t: nat, keys: seq<Key>): State
    requires t < |s.tasks| && s.tasks[t].Clearing?
  {
    s.(rows := s.rows - KeysOf(keys), tasks := s.tasks[t := s.tasks[t].(listed := {})])
  }

  lemma {:induction false} DeletedNone(s: State, t: nat)
    requires t < |s.tasks| && s.tasks[t].Clearing? && s.tasks[t].listed == {}
    ensures DeletedBy(s, t, []) == s
  {
    assert s.rows - KeysOf([]) == s.rows && s.tasks[t := s.tasks[t].(listed := {})] == s.tasks;
  }

  lemma {:induction false} DeletedOneMore(s: State, t: nat, key: Key, rest: seq<Key>)
    requires t < |s.tasks| && s.tasks[t].Clearing? && key in s.tasks[t].listed
    ensures DeletedBy(After(s, DeleteRow(t, key)), t, rest) == DeletedBy(s, t, [key] + rest)
  {
    var next := After(s, DeleteRow(t, key));
    assert KeysOf([key] + rest) == {key} + KeysOf(rest);
    assert next.rows - KeysOf(rest) == s.rows - KeysOf([key] + rest);
    assert next.tasks[t := next.tasks[t].(listed := {})] == s.tasks[t := s.tasks[t].(listed := {})];
  }

  lemma {:induction false} FirstDeleteStep(t: nat, keys: seq<Key>)
    requires keys != []
    ensures [DeleteRow(t, keys[0])] + DeleteSteps(t, keys[1..]) == DeleteSteps(t, keys)
  {}

  lemma {:induction false} RestListed(keys: seq<Key>)
    requires keys != [] && forall i, j :: 0 <= i < j < |keys| ==> keys[i] != keys[j]
    ensures keys[0] in KeysOf(keys) && KeysOf(keys) - {keys[0]} == KeysOf(keys[1..])
  {
    assert keys == [keys[0]] + keys[1..];
    assert forall k :: k in keys <==> k == keys[0] || k in keys[1..];
  }

  lemma {:induction false} DeletesAll(s: State, t: nat, keys: seq<Key>)
    requires t < |s.tasks| && s.tasks[t].Clearing? && s.tasks[t].listed == KeysOf(keys)
    requires forall i, j :: 0 <= i < j < |keys| ==> keys[i] != keys[j]
    ensures Leads(s, DeleteSteps(t, keys), DeletedBy(s, t, keys))
    decreases |keys|
  {
    if keys == [] {
      DeletedNone(s, t);
    } else {
      var key, rest := keys[0], keys[1..];
      RestListed(keys);
      DeletesAll(After(s, DeleteRow(t, key)), t, rest);
      DeletedOneMore(s, t, key, rest);
      assert keys == [key] + rest;
      LeadsFirst(s, DeleteRow(t, key), DeleteSteps(t, rest), DeletedBy(s, t, keys));
      FirstDeleteStep(t, keys);
    }
  }

  /** A clear nobody interrupts removes the rows the manifest claims and the claims; nothing else changes. */
  lemma {:induction false} UninterruptedClear(s: State, keys: seq<Key>)
    requires s.manifest == KeysOf(keys) && forall i, j :: 0 <= i < j < |keys| ==> keys[i] != keys[j]
    ensures var t := |s.tasks|;
            Leads(s, [BeginClear] + (DeleteSteps(t, keys) + [RemoveManifest(t)]),
                  s.(rows := s.rows - s.manifest, manifest := {}, version := s.version + 1))
  {
    var t := |s.tasks|;
    var begun := After(s, BeginClear);
    DeletesAll(begun, t, keys);
    var deleted := DeletedBy(begun, t, keys);
    LeadsOne(s, BeginClear);
    LeadsOne(deleted, RemoveManifest(t));
    LeadsOn(begun, DeleteSteps(t, keys), deleted, [RemoveManifest(t)], After(deleted, RemoveManifest(t)));
    LeadsOn(s, [BeginClear], begun, DeleteSteps(t, keys) + [RemoveManifest(t)], After(deleted, RemoveManifest(t)));
    assert Ended(deleted.tasks, t) == s.tasks;
  }

  // ---------------------------------------------------------------------------
  // When sample rows stay tracked
  // ---------------------------------------------------------------------------

  /** A sample row the manifest can hold. */
  ghost predicate SampleRow(s: State, k: Key) {
    k in s.rows && s.rows[k].Seeded? && k.id.Text?
  }

  /** Some request but `t` has created the row and not yet finished with it. */
  ghost predicate InFlightBut(tasks: seq<Task>, t: int, k: Key) {
    exists i :: 0 <= i < |tasks| && i != t && !tasks[i].Clearing? && k in tasks[i].created
  }

  ghost predicate InFlight(tasks: seq<Task>, k: Key) {
    InFlightBut(tasks, -1, k)
  }

  /** Every sample row is in the manifest, or on its way there. */
  ghost predicate Tracked(s: State) {
    forall k :: SampleRow(s, k) ==> k in s.manifest || InFlight(s.tasks, k)
  }

  /** What each step must not lose. */
  ghost predicate Harmless(s: State, step: Step)
    requires Enabled(s, step)
  {
    match step
    case WriteManifest(t) =>
      // nothing the manifest gained since it was read would be overwritten
      || Next(s.tasks[t]) == {}
      || forall k :: SampleRow(s, k) && k in s.manifest && k !in Next(s.tasks[t]) ==> InFlightBut(s.tasks, t, k)
    case RemoveManifest(t) =>
      // nothing listed since would be forgotten
      forall k :: SampleRow(s, k) && k in s.manifest ==> InFlightBut(s.tasks, t, k)
    case Throw(t) =>
      // nothing is known to this request alone
      forall k :: SampleRow(s, k) && k !in s.manifest ==> InFlightBut(s.tasks, t, k)
    case Crash(torn) => forall k :: SampleRow(s, k) ==> !torn && k in s.manifest
    case _ => true
  }

  lemma {:induction false} EndedInFlight(tasks: seq<Task>, t: nat, k: Key)
    requires t < |tasks|
    ensures InFlight(Ended(tasks, t), k) <==> InFlightBut(tasks, t, k)
  {
    var ended := Ended(tasks, t);
    if i: int :| 0 <= i < |ended| && !ended[i].Clearing? && k in ended[i].created {
      assert ended[i] == tasks[if i < t then i else i + 1];
    }
    if i: int :| 0 <= i < |tasks| && i != t && !tasks[i].Clearing? && k in tasks[i].created {
      assert ended[if i < t then i else i - 1] == tasks[i];
    }
  }

  lemma {:induction false} InFlightSplit(tasks: seq<Task>, t: nat, k: Key)
    requires t < |tasks|
    ensures InFlight(tasks, k) <==> InFlightBut(tasks, t, k) || (!tasks[t].Clearing? && k in tasks[t].created)
  {
    if !tasks[t].Clearing? && k in tasks[t].created {
      assert t != -1;
    }
  }

  /** A request whose task changes but that still has what it had, and perhaps `added`. */
  lemma {:induction false} UpdatedInFlight(tasks: seq<Task>, t: nat, task: Task, k: Key)
    requires t < |tasks| && (!tasks[t].Clearing? ==> !task.Clearing? && tasks[t].created <= task.created)
    ensures InFlight(tasks, k) ==> InFlight(tasks[t := task], k)
    ensures !task.Clearing? && k in task.created ==> InFlight(tasks[t := task], k)
  {
    var after := tasks[t := task];
    if i: int :| 0 <= i < |tasks| && i != -1 && !tasks[i].Clearing? && k in tasks[i].created {
      assert after[i] == if i == t then task else tasks[i];
    }
    if !task.Clearing? && k in task.created {
      assert after[t] == task;
    }
  }

  lemma {:induction false} AddedInFlight(tasks: seq<Task>, task: Task, k: Key)
    ensures InFlight(tasks, k) ==> InFlight(tasks + [task], k)
  {
    if i: int :| 0 <= i < |tasks| && i != -1 && !tasks[i].Clearing? && k in tasks[i].created {
      assert (tasks + [task])[i] == tasks[i];
    }
  }

  /** The steps that end no request lose track of nothing. */
  lemma {:induction false} GoingOnKeepsTracked(s: State, step: Step)
    requires Tracked(s) && Enabled(s, step)
    requires !step.WriteManifest? && !step.RemoveManifest? && !step.Throw? && !step.Crash?
    ensures Tracked(After(s, step))
  {
    var after := After(s, step);
    forall k | SampleRow(after, k)
      ensures k in after.manifest || InFlight(after.tasks, k)
    {
      match step
      case BeginSeed => AddedInFlight(s.tasks, Seeding({}), k);
      case BeginClear => AddedInFlight(s.tasks, Clearing(s.manifest, s.version), k);
      case SeedRow(t, _) => UpdatedInFlight(s.tasks, t, after.tasks[t], k);
      case ReadManifest(t) => UpdatedInFlight(s.tasks, t, after.tasks[t], k);
      case DeleteRow(t, _) => UpdatedInFlight(s.tasks, t, after.tasks[t], k);
      case _ =>
    }
  }

  lemma {:induction false} EndingTracks(s: State, t: nat, k: Key)
    requires Tracked(s) && t < |s.tasks|
    ensures InFlight(Ended(s.tasks, t), k) <==> InFlightBut(s.tasks, t, k)
    ensures SampleRow(s, k) ==> k in s.manifest || InFlightBut(s.tasks, t, k) || (!s.tasks[t].Clearing? && k in s.tasks[t].created)
  {
    EndedInFlight(s.tasks, t, k);
    InFlightSplit(s.tasks, t, k);
  }

  /** The string keys a request created are what it claims. */
  lemma {:induction false} CreatedIsClaimed(task: Task, k: Key)
    requires task.Recording? && k.id.Text? && k !in Next(task)
    ensures k !in task.created
  {
  }

  lemma {:induction false} WriteKeepsTrackedIff(s: State, t: nat)
    requires Tracked(s) && Enabled(s, WriteManifest(t))
    ensures Tracked(After(s, WriteManifest(t))) <==> Harmless(s, WriteManifest(t))
  {
    var after, task := After(s, WriteManifest(t)), s.tasks[t];
    forall k
      ensures InFlight(after.tasks, k) <==> InFlightBut(s.tasks, t, k)
      ensures SampleRow(after, k) <==> SampleRow(s, k)
      ensures SampleRow(s, k) && k !in Next(task) ==> k in s.manifest || InFlightBut(s.tasks, t, k)
    {
      EndingTracks(s, t, k);
      if SampleRow(s, k) && k !in Next(task) {
        CreatedIsClaimed(task, k);
      }
    }
    if Next(task) != {} && Harmless(s, WriteManifest(t)) {
      forall k | SampleRow(after, k)
        ensures k in after.manifest || InFlight(after.tasks, k)
      {
      }
    }
  }

  lemma {:induction false} RemovalKeepsTrackedIff(s: State, t: nat)
    requires Tracked(s) && Enabled(s, RemoveManifest(t))
    ensures Tracked(After(s, RemoveManifest(t))) <==> Harmless(s, RemoveManifest(t))
  {
    var after := After(s, RemoveManifest(t));
    forall k
      ensures InFlight(after.tasks, k) <==> InFlightBut(s.tasks, t, k)
      ensures SampleRow(after, k) <==> SampleRow(s, k)
      ensures SampleRow(s, k) ==> k in s.manifest || InFlightBut(s.tasks, t, k)
    {
      EndingTracks(s, t, k);
    }
  }

  lemma {:induction false} ThrowKeepsTrackedIff(s: State, t: nat)
    requires Tracked(s) && Enabled(s, Throw(t))
    ensures Tracked(After(s, Throw(t))) <==> Harmless(s, Throw(t))
  {
    var after := After(s, Throw(t));
    forall k
      ensures InFlight(after.tasks, k) <==> InFlightBut(s.tasks, t, k)
      ensures SampleRow(after, k) <==> SampleRow(s, k)
    {
      EndingTracks(s, t, k);
    }
  }

  /**
   * From a state that has lost track of nothing, a step loses track of nothing exactly when: a write of
   * the manifest overwrites nothing it gained since it was read, a removal forgets nothing listed since,
   * a request that throws alone knows of nothing, and a crash finds nothing in flight.
   */
  lemma {:induction false} StepKeepsTrackedIff(s: State, step: Step)
    requires Tracked(s) && Enabled(s, step)
    ensures Tracked(After(s, step)) <==> Harmless(s, step)
  {
    match step
    case WriteManifest(t) => WriteKeepsTrackedIff(s, t);
    case RemoveManifest(t) => RemovalKeepsTrackedIff(s, t);
    case Throw(t) => ThrowKeepsTrackedIff(s, t);
    case Crash(torn) => CrashKeepsTrackedIff(s, torn);
    case _ => GoingOnKeepsTracked(s, step);
  }

  lemma {:induction false} CrashKeepsTrackedIff(s: State, torn: bool)
    requires Tracked(s) && Enabled(s, Crash(torn))
    ensures Tracked(After(s, Crash(torn))) <==> Harmless(s, Crash(torn))
  {
    var after := After(s, Crash(torn));
    forall k
      ensures SampleRow(after, k) <==> SampleRow(s, k)
      ensures !InFlight(after.tasks, k)
    {
    }
  }

  // --- whole runs ---

  /** No request dies, and none writes or removes a manifest that was written or removed since it read it. */
  ghost predicate Undisturbed(s: State, step: Step)
    requires Enabled(s, step)
  {
    match step
    case WriteManifest(t) => s.tasks[t].at == s.version
    case RemoveManifest(t) => s.tasks[t].at == s.version
    case Throw(_) => false
    case Crash(_) => false
    case _ => true
  }

  /** What a request that read the present manifest knows of it. */
  ghost predicate UpToDate(s: State, task: Task) {
    match task
    case Seeding(_) => true
    case Recording(_, current, at) => at <= s.version && (at == s.version ==> current == s.manifest)
    case Clearing(listed, at) =>
      at <= s.version && (at == s.version ==> forall k :: SampleRow(s, k) && k in s.manifest ==> k in listed || InFlight(s.tasks, k))
  }

  ghost predicate AllUpToDate(s: State) {
    forall t :: 0 <= t < |s.tasks| ==> UpToDate(s, s.tasks[t])
  }

  /** An undisturbed step is harmless. */
  lemma {:induction false} UndisturbedIsHarmless(s: State, step: Step)
    requires Tracked(s) && AllUpToDate(s) && Enabled(s, step) && Undisturbed(s, step)
    ensures Harmless(s, step)
  {
    match step
    case WriteManifest(t) => assert UpToDate(s, s.tasks[t]);
    case RemoveManifest(t) =>
      assert UpToDate(s, s.tasks[t]);
      forall k | SampleRow(s, k) && k in s.manifest
        ensures InFlightBut(s.tasks, t, k)
      {
        InFlightSplit(s.tasks, t, k);
      }
    case _ =>
  }

  /** A new version of the manifest is news to everybody. */
  lemma {:induction false} RewrittenUpToDate(s: State, step: Step, t: nat)
    requires AllUpToDate(s) && Enabled(s, step) && t < |s.tasks|
    requires (step == WriteManifest(t) && Next(s.tasks[t]) != {}) || step == RemoveManifest(t)
    ensures AllUpToDate(After(s, step))
  {
    var after := After(s, step);
    forall i | 0 <= i < |after.tasks|
      ensures UpToDate(after, after.tasks[i])
    {
      assert after.tasks[i] == s.tasks[if i < t then i else i + 1];
      assert UpToDate(s, s.tasks[if i < t then i else i + 1]);
    }
  }

  /** A request with nothing to claim leaves the manifest and what others know of it. */
  lemma {:induction false} NothingWrittenUpToDate(s: State, t: nat)
    requires AllUpToDate(s) && Enabled(s, WriteManifest(t)) && Next(s.tasks[t]) == {}
    ensures AllUpToDate(After(s, WriteManifest(t)))
  {
    var after := After(s, WriteManifest(t));
    forall i | 0 <= i < |after.tasks|
      ensures UpToDate(after, after.tasks[i])
    {
      assert after.tasks[i] == s.tasks[if i < t then i else i + 1];
      assert UpToDate(s, s.tasks[if i < t then i else i + 1]);
      forall k | SampleRow(after, k) && InFlight(s.tasks, k)
        ensures InFlight(after.tasks, k)
      {
        EndedInFlight(s.tasks, t, k);
        InFlightSplit(s.tasks, t, k);
        CreatedIsClaimed(s.tasks[t], k);
      }
    }
  }

  /** The steps that end no request and write no manifest. */
  lemma {:induction false} GoingOnUpToDate(s: State, step: Step)
    requires AllUpToDate(s) && Enabled(s, step)
    requires !step.WriteManifest? && !step.RemoveManifest? && !step.Throw? && !step.Crash?
    ensures AllUpToDate(After(s, step))
  {
    var after := After(s, step);
    forall i | 0 <= i < |after.tasks|
      ensures UpToDate(after, after.tasks[i])
    {
      if i < |s.tasks| {
        assert UpToDate(s, s.tasks[i]);
        GoingOnKeepsKnown(s, step, i);
      }
    }
  }

  lemma {:induction false} GoingOnKeepsKnown(s: State, step: Step, i: nat)
    requires Enabled(s, step) && i < |s.tasks| && UpToDate(s, s.tasks[i])
    requires !step.WriteManifest? && !step.RemoveManifest? && !step.Throw? && !step.Crash?
    ensures UpToDate(After(s, step), After(s, step).tasks[i])
  {
    var after := After(s, step);
    forall k | SampleRow(after, k)
      ensures SampleRow(s, k) || InFlight(after.tasks, k)
      ensures InFlight(s.tasks, k) ==> InFlight(after.tasks, k)
    {
      match step
      case BeginSeed => AddedInFlight(s.tasks, Seeding({}), k);
      case BeginClear => AddedInFlight(s.tasks, Clearing(s.manifest, s.version), k);
      case SeedRow(t, _) => UpdatedInFlight(s.tasks, t, after.tasks[t], k);
      case ReadManifest(t) => UpdatedInFlight(s.tasks, t, after.tasks[t], k);
      case DeleteRow(t, _) => UpdatedInFlight(s.tasks, t, after.tasks[t], k);
      case _ =>
    }
  }

  lemma {:induction false} StepUpToDate(s: State, step: Step)
    requires AllUpToDate(s) && Enabled(s, step) && Undisturbed(s, step)
    ensures AllUpToDate(After(s, step))
  {
    match step
    case WriteManifest(t) =>
      if Next(s.tasks[t]) == {} {
        NothingWrittenUpToDate(s, t);
      } else {
        RewrittenUpToDate(s, step, t);
      }
    case RemoveManifest(t) => RewrittenUpToDate(s, step, t);
    case _ => GoingOnUpToDate(s, step);
  }

  /**
   * In every run in which no request dies, and no other manifest write falls between a seed's read and
   * its write or a clear's read and its removal, every sample row stays tracked.
   */
  lemma {:induction false} UndisturbedRunsTrack(states: seq<State>, steps: seq<Step>, k: nat)
    requires IsRun(states, steps) && k < |states| && Tracked(states[0])
    requires forall i :: 0 <= i < k ==> Enabled(states[i], steps[i]) && Undisturbed(states[i], steps[i])
    ensures Tracked(states[k]) && AllUpToDate(states[k])
  {
    if k > 0 {
      UndisturbedRunsTrack(states, steps, k - 1);
      UndisturbedIsHarmless(states[k - 1], steps[k - 1]);
      StepKeepsTrackedIff(states[k - 1], steps[k - 1]);
      StepUpToDate(states[k - 1], steps[k - 1]);
    }
  }

  // ---------------------------------------------------------------------------
  // What interleaving can cost
  // ---------------------------------------------------------------------------

  ghost predicate LeadsTo(s: State, step: Step, t: State) {
    Enabled(s, step) && After(s, step) == t
  }

  /** A seed of one row on an empty project, up to its write. */
  lemma {:induction false} OneSeed(key: Key)
    requires key.id.Text?
    ensures LeadsTo(State(map[], {}, 0, [], {}, {}), BeginSeed, State(map[], {}, 0, [Seeding({})], {}, {}))
    ensures LeadsTo(State(map[], {}, 0, [Seeding({})], {}, {}), SeedRow(0, key), State(map[key := Seeded], {}, 0, [Seeding({key})], {key}, {}))
    ensures LeadsTo(State(map[key := Seeded], {}, 0, [Seeding({key})], {key}, {}), ReadManifest(0),
                    State(map[key := Seeded], {}, 0, [Recording({key}, {}, 0)], {key}, {}))
  {
    assert {} + {key} == {key};
  }

  lemma {:induction false} OneWrite(rows: map<Key, Origin>, manifest: set<Key>, version: nat, key: Key, others: seq<Task>, seeded: set<Key>)
    requires key.id.Text?
    ensures LeadsTo(State(rows, manifest, version, [Recording({key}, {}, 0)] + others, seeded, {}), WriteManifest(0),
                    State(rows, {key}, version + 1, others, seeded, {}))
  {
    assert Trackable({key}) == {key} && {} + {key} == {key};
    assert Ended([Recording({key}, {}, 0)] + others, 0) == others;
  }

  lemma {:induction false} DeletedAndMadeAgain(key: Key)
    ensures LeadsTo(State(map[key := Seeded], {key}, 1, [], {key}, {}), Delete(key), State(map[], {key}, 1, [], {key}, {}))
    ensures LeadsTo(State(map[], {key}, 1, [], {key}, {}), Create(key, Users), State(map[key := Users], {key}, 1, [], {key}, {key}))
  {
    assert map[key := Seeded] - {key} == map[];
    assert {} + {key} == {key};
  }

  lemma {:induction false} ClearedAway(key: Key)
    ensures LeadsTo(State(map[key := Users], {key}, 1, [], {key}, {key}), BeginClear,
                    State(map[key := Users], {key}, 1, [Clearing({key}, 1)], {key}, {key}))
    ensures LeadsTo(State(map[key := Users], {key}, 1, [Clearing({key}, 1)], {key}, {key}), DeleteRow(0, key),
                    State(map[], {key}, 1, [Clearing({}, 1)], {key}, {key}))
  {
    assert map[key := Users] - {key} == map[] && {key} - {key} == {};
  }

  /** A run goes on. */
  lemma {:induction false} RunStep(states: seq<State>, steps: seq<Step>, step: Step, t: State)
    requires IsRun(states, steps) && LeadsTo(states[|steps|], step, t)
    ensures IsRun(states + [t], steps + [step])
  {
    var all, taken := states + [t], steps + [step];
    forall k | 0 <= k < |taken|
      ensures Enabled(all[k], taken[k]) && all[k + 1] == After(all[k], taken[k])
    {
      if k < |steps| {
        assert all[k] == states[k] && all[k + 1] == states[k + 1] && taken[k] == steps[k];
      }
    }
  }

  lemma {:induction false} SeedRun(key: Key) returns (states: seq<State>, steps: seq<Step>)
    requires key.id.Text?
    ensures IsRun(states, steps) && |steps| == 4 && states[4] == State(map[key := Seeded], {key}, 1, [], {key}, {})
  {
    OneSeed(key);
    OneWrite(map[key := Seeded], {}, 0, key, [], {key});
    assert [Recording({key}, {}, 0)] + [] == [Recording({key}, {}, 0)];
    states, steps := [State(map[], {}, 0, [], {}, {})], [];
    RunStep(states, steps, BeginSeed, State(map[], {}, 0, [Seeding({})], {}, {}));
    states, steps := states + [State(map[], {}, 0, [Seeding({})], {}, {})], steps + [BeginSeed];
    RunStep(states, steps, SeedRow(0, key), State(map[key := Seeded], {}, 0, [Seeding({key})], {key}, {}));
    states, steps := states + [State(map[key := Seeded], {}, 0, [Seeding({key})], {key}, {})], steps + [SeedRow(0, key)];
    RunStep(states, steps, ReadManifest(0), State(map[key := Seeded], {}, 0, [Recording({key}, {}, 0)], {key}, {}));
    states, steps := states + [State(map[key := Seeded], {}, 0, [Recording({key}, {}, 0)], {key}, {})], steps + [ReadManifest(0)];
    RunStep(states, steps, WriteManifest(0), State(map[key := Seeded], {key}, 1, [], {key}, {}));
    states, steps := states + [State(map[key := Seeded], {key}, 1, [], {key}, {})], steps + [WriteManifest(0)];
  }

  /**
   * A row somebody made under a deleted sample row's key is the clear's to delete. No op lets a writer
   * choose a key and the store hands none out twice, so nothing the server does makes this run today:
   * what protects the row is where keys come from, as `FreshKeysAreSafe` says, not the manifest.
   */
  lemma {:induction false} ReusedKeyIsCleared(key: Key) returns (states: seq<State>, steps: seq<Step>)
    requires key.id.Text?
    ensures IsRun(states, steps) && |steps| == 8
    ensures steps[7] == DeleteRow(0, key) && key in states[7].rows && states[7].rows[key] == Users && key !in states[8].rows
  {
    states, steps := SeedRun(key);
    DeletedAndMadeAgain(key);
    ClearedAway(key);
    RunStep(states, steps, Delete(key), State(map[], {key}, 1, [], {key}, {}));
    states, steps := states + [State(map[], {key}, 1, [], {key}, {})], steps + [Delete(key)];
    RunStep(states, steps, Create(key, Users), State(map[key := Users], {key}, 1, [], {key}, {key}));
    states, steps := states + [State(map[key := Users], {key}, 1, [], {key}, {key})], steps + [Create(key, Users)];
    RunStep(states, steps, BeginClear, State(map[key := Users], {key}, 1, [Clearing({key}, 1)], {key}, {key}));
    states, steps := states + [State(map[key := Users], {key}, 1, [Clearing({key}, 1)], {key}, {key})], steps + [BeginClear];
    RunStep(states, steps, DeleteRow(0, key), State(map[], {key}, 1, [Clearing({}, 1)], {key}, {key}));
    states, steps := states + [State(map[], {key}, 1, [Clearing({}, 1)], {key}, {key})], steps + [DeleteRow(0, key)];
  }

  lemma {:induction false} BothSeeded(a: Key, b: Key)
    requires a != b
    ensures LeadsTo(State(map[], {}, 0, [], {}, {}), BeginSeed, State(map[], {}, 0, [Seeding({})], {}, {}))
    ensures LeadsTo(State(map[], {}, 0, [Seeding({})], {}, {}), BeginSeed, State(map[], {}, 0, [Seeding({}), Seeding({})], {}, {}))
    ensures LeadsTo(State(map[], {}, 0, [Seeding({}), Seeding({})], {}, {}), SeedRow(0, a),
                    State(map[a := Seeded], {}, 0, [Seeding({a}), Seeding({})], {a}, {}))
    ensures LeadsTo(State(map[a := Seeded], {}, 0, [Seeding({a}), Seeding({})], {a}, {}), SeedRow(1, b),
                    State(map[a := Seeded, b := Seeded], {}, 0, [Seeding({a}), Seeding({b})], {a, b}, {}))
  {
    assert {} + {a} == {a} && {} + {b} == {b} && {a} + {b} == {a, b};
    assert map[a := Seeded][b := Seeded] == map[a := Seeded, b := Seeded];
  }

  lemma {:induction false} BothRead(rows: map<Key, Origin>, a: Key, b: Key, seeded: set<Key>)
    ensures LeadsTo(State(rows, {}, 0, [Seeding({a}), Seeding({b})], seeded, {}), ReadManifest(0),
                    State(rows, {}, 0, [Recording({a}, {}, 0), Seeding({b})], seeded, {}))
    ensures LeadsTo(State(rows, {}, 0, [Recording({a}, {}, 0), Seeding({b})], seeded, {}), ReadManifest(1),
                    State(rows, {}, 0, [Recording({a}, {}, 0), Recording({b}, {}, 0)], seeded, {}))
  {
  }

  lemma {:induction false} TwoSeedsRun(a: Key, b: Key) returns (states: seq<State>, steps: seq<Step>)
    requires a != b
    ensures IsRun(states, steps) && |steps| == 4
    ensures states[4] == State(map[a := Seeded, b := Seeded], {}, 0, [Seeding({a}), Seeding({b})], {a, b}, {})
  {
    BothSeeded(a, b);
    states, steps := [State(map[], {}, 0, [], {}, {})], [];
    RunStep(states, steps, BeginSeed, State(map[], {}, 0, [Seeding({})], {}, {}));
    states, steps := states + [State(map[], {}, 0, [Seeding({})], {}, {})], steps + [BeginSeed];
    RunStep(states, steps, BeginSeed, State(map[], {}, 0, [Seeding({}), Seeding({})], {}, {}));
    states, steps := states + [State(map[], {}, 0, [Seeding({}), Seeding({})], {}, {})], steps + [BeginSeed];
    RunStep(states, steps, SeedRow(0, a), State(map[a := Seeded], {}, 0, [Seeding({a}), Seeding({})], {a}, {}));
    states, steps := states + [State(map[a := Seeded], {}, 0, [Seeding({a}), Seeding({})], {a}, {})], steps + [SeedRow(0, a)];
    var both := State(map[a := Seeded, b := Seeded], {}, 0, [Seeding({a}), Seeding({b})], {a, b}, {});
    RunStep(states, steps, SeedRow(1, b), both);
    states, steps := states + [both], steps + [SeedRow(1, b)];
  }

  /** Two seeds at once: each reads the manifest before the other writes, and one's rows are left untracked. */
  lemma {:induction false} ConcurrentSeedsLoseTrack(a: Key, b: Key) returns (states: seq<State>, steps: seq<Step>)
    requires a.id.Text? && b.id.Text? && a != b
    ensures IsRun(states, steps) && |steps| == 8
    ensures states[8].tasks == [] && states[8].manifest == {b}
    ensures a in states[8].rows && states[8].rows[a] == Seeded
  {
    var both := map[a := Seeded, b := Seeded];
    states, steps := TwoSeedsRun(a, b);
    BothRead(both, a, b, {a, b});
    OneWrite(both, {}, 0, a, [Recording({b}, {}, 0)], {a, b});
    OneWrite(both, {a}, 1, b, [], {a, b});
    assert [Recording({a}, {}, 0)] + [Recording({b}, {}, 0)] == [Recording({a}, {}, 0), Recording({b}, {}, 0)];
    assert [Recording({b}, {}, 0)] + [] == [Recording({b}, {}, 0)];
    RunStep(states, steps, ReadManifest(0), State(both, {}, 0, [Recording({a}, {}, 0), Seeding({b})], {a, b}, {}));
    states, steps := states + [State(both, {}, 0, [Recording({a}, {}, 0), Seeding({b})], {a, b}, {})], steps + [ReadManifest(0)];
    RunStep(states, steps, ReadManifest(1), State(both, {}, 0, [Recording({a}, {}, 0), Recording({b}, {}, 0)], {a, b}, {}));
    states, steps := states + [State(both, {}, 0, [Recording({a}, {}, 0), Recording({b}, {}, 0)], {a, b}, {})], steps + [ReadManifest(1)];
    RunStep(states, steps, WriteManifest(0), State(both, {a}, 1, [Recording({b}, {}, 0)], {a, b}, {}));
    states, steps := states + [State(both, {a}, 1, [Recording({b}, {}, 0)], {a, b}, {})], steps + [WriteManifest(0)];
    RunStep(states, steps, WriteManifest(0), State(both, {b}, 2, [], {a, b}, {}));
    states, steps := states + [State(both, {b}, 2, [], {a, b}, {})], steps + [WriteManifest(0)];
  }
}
