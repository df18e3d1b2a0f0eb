/**
 * One schedule occurrence fanned out over tenants. Models orgsForIdentity of
 * apps/web/app/sprout.server.ts, enqueueSyncsWith and occurrenceForOrg of
 * apps/web/app/sources.server.ts, fanOutRunAs of packages/spec/src/base/schedules.ts and the queue's
 * idempotency of packages/features/src/jobs/service.ts.
 */
module FanOut {
  import opened Collections
  import opened Spec
  import opened Strings

  const MAX_FANOUT_ORGS: nat := 200

  datatype Identity = Service(role: string) | User(userId: string)

  datatype RunAs = RunAs(who: Identity, orgId: Option<string>, eachOrg: bool, maxOrgs: Option<int>)

  datatype Job = Job(sourceKey: string, idempotencyKey: string, runAs: RunAs)

  // ---------------------------------------------------------------------------
  // Which organizations
  // ---------------------------------------------------------------------------

  datatype Orgs = Orgs(orgIds: seq<string>, truncated: bool)

  function Take<T>(s: seq<T>, n: nat): seq<T> {
    if n <= |s| then s[..n] else s
  }

  predicate IsOrgId(c: Cell) {
    c.Text? && c.text != ""
  }

  /** The usable ids of a read, in order. */
  function OrgIds(rows: seq<Cell>): seq<string> {
    if rows == [] then []
    else
      var last := rows[|rows| - 1];
      OrgIds(rows[..|rows| - 1]) + if IsOrgId(last) then [last.text] else []
  }

  /** The same, each id once. */
  function DistinctOrgIds(rows: seq<Cell>): seq<string> {
    if rows == [] then []
    else
      var last := rows[|rows| - 1];
      var rest := DistinctOrgIds(rows[..|rows| - 1]);
      if IsOrgId(last) && last.text !in rest then rest + [last.text] else rest
  }

  /** `orgs` is the organization table's keys and `memberships` the user's rows, in the order they are read. */
  function OrgsOf(who: Identity, orgs: Option<seq<Cell>>, memberships: Option<seq<Cell>>): Orgs {
    var table := if who.Service? then orgs else memberships;
    if table.None? then Orgs([], false)
    else
      var read := Take(table.value, MAX_FANOUT_ORGS + 1);
      var ids := if who.Service? then OrgIds(read) else DistinctOrgIds(read);
      Orgs(Take(ids, MAX_FANOUT_ORGS), |ids| > MAX_FANOUT_ORGS)
  }

  method OrgsForIdentity(who: Identity, orgs: Option<seq<Cell>>, memberships: Option<seq<Cell>>) returns (r: Orgs)
    ensures r == OrgsOf(who, orgs, memberships)
  {
    var ceiling := MAX_FANOUT_ORGS + 1;
    var ids: seq<string> := [];
    if who.Service? {
      if orgs.None? { return Orgs([], false); }
      var rows := Take(orgs.value, ceiling);
      for i := 0 to |rows|
        invariant ids == OrgIds(rows[..i])
      {
        assert rows[..i + 1][..i] == rows[..i] && rows[..i + 1][i] == rows[i];
        if rows[i].Text? && rows[i].text != "" { ids := ids + [rows[i].text]; }
      }
      assert rows[..|rows|] == rows;
    } else {
      if memberships.None? { return Orgs([], false); }
      var rows := Take(memberships.value, ceiling);
      for i := 0 to |rows|
        invariant ids == DistinctOrgIds(rows[..i])
      {
        assert rows[..i + 1][..i] == rows[..i] && rows[..i + 1][i] == rows[i];
        if rows[i].Text? && rows[i].text != "" && rows[i].text !in ids { ids := ids + [rows[i].text]; }
      }
      assert rows[..|rows|] == rows;
    }
    r := Orgs(Take(ids, MAX_FANOUT_ORGS), |ids| > MAX_FANOUT_ORGS);
  }

  lemma {:induction false} OrgIdsSpec(rows: seq<Cell>)
    ensures |OrgIds(rows)| <= |rows|
    ensures forall id :: id in OrgIds(rows) <==> id != "" && Text(id) in rows
    ensures Distinct(rows) ==> Distinct(OrgIds(rows))
    ensures (forall c :: c in rows ==> IsOrgId(c)) ==> |OrgIds(rows)| == |rows|
  {
    if rows != [] {
      var n := |rows| - 1;
      OrgIdsSpec(rows[..n]);
      assert rows == rows[..n] + [rows[n]];
      if Distinct(rows) {
        assert Distinct(rows[..n]);
        assert rows[n] !in rows[..n];
      }
    }
  }

  lemma {:induction false} UsableInOrder(rows: seq<Cell>)
    requires forall c :: c in rows ==> IsOrgId(c)
    ensures |OrgIds(rows)| == |rows| && forall i :: 0 <= i < |rows| ==> rows[i] == Text(OrgIds(rows)[i])
  {
    if rows != [] {
      var n := |rows| - 1;
      UsableInOrder(rows[..n]);
      assert forall i :: 0 <= i < n ==> rows[..n][i] == rows[i];
      assert rows[n] in rows;
    }
  }

  lemma {:induction false} DistinctOrgIdsSpec(rows: seq<Cell>)
    ensures |DistinctOrgIds(rows)| <= |rows|
    ensures forall id :: id in DistinctOrgIds(rows) <==> id != "" && Text(id) in rows
    ensures Distinct(DistinctOrgIds(rows))
  {
    if rows != [] {
      var n := |rows| - 1;
      DistinctOrgIdsSpec(rows[..n]);
      assert rows == rows[..n] + [rows[n]];
    }
  }

  /** With every row a different organization, deduplicating drops nothing. */
  lemma {:induction false} NothingToDedupe(rows: seq<Cell>)
    requires Distinct(rows)
    ensures DistinctOrgIds(rows) == OrgIds(rows)
  {
    if rows != [] {
      var n := |rows| - 1;
      NothingToDedupe(rows[..n]);
      OrgIdsSpec(rows[..n]);
      assert rows[n] !in rows[..n];
    }
  }

  lemma {:induction false} DistinctSize(ids: seq<string>, universe: set<string>)
    requires Distinct(ids) && forall id :: id in ids ==> id in universe
    ensures |ids| <= |universe|
  {
    if ids != [] {
      var n := |ids| - 1;
      assert ids[n] !in ids[..n];
      DistinctSize(ids[..n], universe - {ids[n]});
    }
  }

  /** The organizations a table names. */
  function Named(rows: seq<Cell>): set<string> {
    set c | c in rows && IsOrgId(c) :: c.text
  }

  lemma {:induction false} NamedIs(rows: seq<Cell>, id: string)
    ensures id in Named(rows) <==> id != "" && Text(id) in rows
  {
    assert IsOrgId(Text(id)) <==> id != "";
  }

  /**
   * The enumerated organizations are real, each listed once (a table's keys are unique), at most the
   * bound, and `truncated` is true only when there are more than the bound.
   */
  lemma {:induction false} EnumerationSound(who: Identity, orgs: Option<seq<Cell>>, memberships: Option<seq<Cell>>)
    requires orgs.Some? ==> Distinct(orgs.value)
    ensures var r := OrgsOf(who, orgs, memberships);
            var table := if who.Service? then orgs else memberships;
            && Distinct(r.orgIds) && |r.orgIds| <= MAX_FANOUT_ORGS
            && (table.None? ==> r == Orgs([], false))
            && (table.Some? ==> forall id :: id in r.orgIds ==> id in Named(table.value))
            && (r.truncated ==> table.Some? && |Named(table.value)| > MAX_FANOUT_ORGS)
  {
    var table := if who.Service? then orgs else memberships;
    if table.Some? {
      var read := Take(table.value, MAX_FANOUT_ORGS + 1);
      OrgIdsSpec(read);
      DistinctOrgIdsSpec(read);
      var ids := if who.Service? then OrgIds(read) else DistinctOrgIds(read);
      assert Distinct(ids);
      forall id | id in ids
        ensures id in Named(table.value)
      {
        assert Text(id) in read;
        assert Text(id) in table.value;
      }
      DistinctSize(ids, Named(table.value));
    }
  }

  /**
   * When every row is a different organization with a usable id, the enumeration is complete up to
   * the bound, and `truncated` says exactly that there are more.
   */
  lemma {:induction false} EnumerationExact(who: Identity, orgs: Option<seq<Cell>>, memberships: Option<seq<Cell>>)
    requires var table := if who.Service? then orgs else memberships;
             table.Some? && Distinct(table.value) && forall c :: c in table.value ==> IsOrgId(c)
    ensures var r := OrgsOf(who, orgs, memberships);
            var table := (if who.Service? then orgs else memberships).value;
            && (r.truncated <==> |table| > MAX_FANOUT_ORGS)
            && |r.orgIds| == (if |table| > MAX_FANOUT_ORGS then MAX_FANOUT_ORGS else |table|)
            && (|table| <= MAX_FANOUT_ORGS ==> forall id :: Text(id) in table ==> id in r.orgIds)
            && forall i :: 0 <= i < |r.orgIds| ==> Text(r.orgIds[i]) == table[i]
  {
    var table := (if who.Service? then orgs else memberships).value;
    UsableInOrder(Take(table, MAX_FANOUT_ORGS + 1));
    var read := Take(table, MAX_FANOUT_ORGS + 1);
    OrgIdsSpec(read);
    NothingToDedupe(read);
    if |table| <= MAX_FANOUT_ORGS {
      assert OrgsOf(who, orgs, memberships).orgIds == OrgIds(table);
      forall id | Text(id) in table
        ensures id in OrgIds(table)
      {
        assert IsOrgId(Text(id));
      }
    }
  }

  /** The rows one enumeration reads. */
  function ReadRows(table: seq<Cell>): seq<Cell> {
    Take(table, MAX_FANOUT_ORGS + 1)
  }

  lemma {:induction false} DistinctCounts(ids: seq<string>, names: set<string>)
    requires Distinct(ids) && forall id :: id in ids <==> id in names
    ensures |ids| == |names|
  {
    if ids != [] {
      var n := |ids| - 1;
      assert ids[n] !in ids[..n] && ids[n] in names;
      assert forall id :: id in ids[..n] <==> id in names - {ids[n]} by {
        assert ids == ids[..n] + [ids[n]];
      }
      DistinctCounts(ids[..n], names - {ids[n]});
    }
  }

  /** What the loops collect are the organizations the rows read name, each once. */
  lemma {:induction false} CollectedIsNamed(who: Identity, rows: seq<Cell>)
    requires who.Service? ==> Distinct(rows)
    ensures var ids := if who.Service? then OrgIds(rows) else DistinctOrgIds(rows);
            && (forall id :: id in ids <==> id in Named(rows))
            && |ids| == |Named(rows)|
  {
    var ids := if who.Service? then OrgIds(rows) else DistinctOrgIds(rows);
    OrgIdsSpec(rows);
    DistinctOrgIdsSpec(rows);
    forall id
      ensures id in ids <==> id in Named(rows)
    {
      assert id != "" && Text(id) in rows <==> id in Named(rows);
    }
    DistinctCounts(ids, Named(rows));
  }

  /** Some organization of the table is not enumerated, and nothing says so. */
  ghost predicate HiddenSilently(r: Orgs, table: seq<Cell>) {
    !r.truncated && exists id :: id in Named(table) && id !in r.orgIds
  }

  /**
   * `truncated` says exactly that the rows read name more organizations than the bound; so organizations
   * are lost in silence exactly when the rows read name no more than the bound (memberships repeat, or
   * keys are no usable ids) and some organization is named only after them.
   */
  lemma {:induction false} HiddenSilentlyIff(who: Identity, orgs: Option<seq<Cell>>, memberships: Option<seq<Cell>>)
    requires var table := if who.Service? then orgs else memberships;
             table.Some? && (who.Service? ==> Distinct(table.value))
    ensures var r, table := OrgsOf(who, orgs, memberships), (if who.Service? then orgs else memberships).value;
            && (r.truncated <==> |Named(ReadRows(table))| > MAX_FANOUT_ORGS)
            && (HiddenSilently(r, table) <==>
                  |Named(ReadRows(table))| <= MAX_FANOUT_ORGS && exists id :: id in Named(table) && id !in Named(ReadRows(table)))
  {
    CollectedIsNamed(who, ReadRows((if who.Service? then orgs else memberships).value));
  }

  lemma {:induction false} RepeatedOnce(n: nat, id: string)
    requires n > 0 && id != ""
    ensures DistinctOrgIds(seq(n, _ => Text(id))) == [id]
  {
    var rows := seq(n, _ => Text(id));
    if n > 1 {
      RepeatedOnce(n - 1, id);
      assert rows[..n - 1] == seq(n - 1, _ => Text(id));
    } else {
      assert rows[..0] == [];
    }
  }

  /** A user listed more often than the ceiling in one organization loses the others, with `truncated` false. */
  lemma {:induction false} RepeatedMembershipsHideOrgs(userId: string)
    ensures var memberships := seq(MAX_FANOUT_ORGS + 1, _ => Text("a")) + [Text("b")];
            OrgsOf(User(userId), None, Some(memberships)) == Orgs(["a"], false)
  {
    var memberships := seq(MAX_FANOUT_ORGS + 1, _ => Text("a")) + [Text("b")];
    assert Take(memberships, MAX_FANOUT_ORGS + 1) == seq(MAX_FANOUT_ORGS + 1, _ => Text("a"));
    RepeatedOnce(MAX_FANOUT_ORGS + 1, "a");
  }

  // ---------------------------------------------------------------------------
  // The runs and their keys
  // ---------------------------------------------------------------------------

  function Bound(runAs: RunAs): nat {
    var asked := if runAs.maxOrgs.None? || runAs.maxOrgs.value > MAX_FANOUT_ORGS then MAX_FANOUT_ORGS else runAs.maxOrgs.value;
    if asked < 0 then 0 else asked
  }

  /** One run per organization: the fan-out claim itself is stripped. */
  function FanOutRunAs(runAs: RunAs, orgIds: seq<string>): (r: (seq<RunAs>, nat)) {
    if !runAs.eachOrg then ([], 0)
    else
      var runs := Map(Take(orgIds, Bound(runAs)), (id: string) => RunAs(runAs.who, Some(id), false, None));
      (runs, |orgIds| - |runs|)
  }

  function OccurrenceForOrg(at: string, orgId: string): string {
    at + "#" + orgId
  }

  function SourceJobKey(sourceKey: string, occurrence: string): string {
    "source:" + sourceKey + ":" + occurrence
  }

  /** Within one occurrence a key determines its source and its organization. */
  lemma {:induction false} KeysAreDistinct(k: string, l: string, at: string, a: string, b: string)
    requires ':' !in k && ':' !in l
    requires SourceJobKey(k, OccurrenceForOrg(at, a)) == SourceJobKey(l, OccurrenceForOrg(at, b))
    ensures k == l && a == b
  {
    var x, y := OccurrenceForOrg(at, a), OccurrenceForOrg(at, b);
    assert SourceJobKey(k, x)[7..] == k + ":" + x;
    assert SourceJobKey(l, y)[7..] == l + ":" + y;
    SplitAtFirst(k, x, l, y, ':');
    assert x[|at| + 1..] == a && y[|at| + 1..] == b;
  }

  /** A colon in a source key would let two syncs share a key: the key pattern forbids it. */
  lemma {:induction false} ColonKeysCollide(at: string, orgId: string)
    ensures exists k, l, a, b :: k != l && SourceJobKey(k, OccurrenceForOrg(at, a)) == SourceJobKey(l, OccurrenceForOrg(at, b))
  {
    var l := "crm:" + at + "#x";
    var a := "x:" + at + "#" + orgId;
    assert SourceJobKey("crm", OccurrenceForOrg(at, a)) == SourceJobKey(l, OccurrenceForOrg(at, orgId));
    assert |l| > |"crm"|;
  }

  // ---------------------------------------------------------------------------
  // The queue
  // ---------------------------------------------------------------------------

  predicate Holds(jobs: seq<Job>, key: string) {
    exists i :: 0 <= i < |jobs| && jobs[i].idempotencyKey == key
  }

  function Enqueued(jobs: seq<Job>, job: Job): seq<Job> {
    if Holds(jobs, job.idempotencyKey) then jobs else jobs + [job]
  }

  function EnqueuedAll(jobs: seq<Job>, added: seq<Job>): seq<Job> {
    if added == [] then jobs else Enqueued(EnqueuedAll(jobs, added[..|added| - 1]), added[|added| - 1])
  }

  class JobQueue {
    var jobs: seq<Job>

    constructor ()
      ensures jobs == []
    {
      jobs := [];
    }

    /** Enqueue a job, or leave the one already holding its key. */
    method Enqueue(job: Job)
      modifies this
      ensures jobs == Enqueued(old(jobs), job)
    {
      var found := false;
      for i := 0 to |jobs|
        invariant jobs == old(jobs)
        invariant found <==> Holds(jobs[..i], job.idempotencyKey)
      {
        assert jobs[..i + 1] == jobs[..i] + [jobs[i]];
        found := found || jobs[i].idempotencyKey == job.idempotencyKey;
      }
      assert jobs[..|jobs|] == jobs;
      if !found {
        jobs := jobs + [job];
      }
    }
  }

  /** The job of one source in one organization. */
  function OrgJob(sourceKey: string, at: string): RunAs -> Job {
    (r: RunAs) => Job(sourceKey, SourceJobKey(sourceKey, OccurrenceForOrg(at, if r.orgId.Some? then r.orgId.value else "")), r)
  }

  function FannedOut(sources: seq<string>, at: string, runs: seq<RunAs>): seq<Job> {
    if sources == [] then []
    else FannedOut(sources[..|sources| - 1], at, runs) + Map(runs, OrgJob(sources[|sources| - 1], at))
  }

  /** Every job one occurrence asks for. */
  function Asked(sources: seq<string>, at: string, runAs: RunAs, orgs: Orgs): seq<Job> {
    if !runAs.eachOrg then Map(sources, (key: string) => Job(key, SourceJobKey(key, at), runAs))
    else FannedOut(sources, at, FanOutRunAs(runAs, orgs.orgIds).0)
  }

  lemma {:induction false} EnqueuedAllAppend(jobs: seq<Job>, a: seq<Job>, b: seq<Job>)
    ensures EnqueuedAll(jobs, a + b) == EnqueuedAll(EnqueuedAll(jobs, a), b)
  {
    if b == [] {
      assert a + b == a;
    } else {
      var n := |b| - 1;
      EnqueuedAllAppend(jobs, a, b[..n]);
      assert (a + b)[..|a + b| - 1] == a + b[..n];
    }
  }

  method EnqueueAll(queue: JobQueue, asked: seq<Job>)
    modifies queue
    ensures queue.jobs == EnqueuedAll(old(queue.jobs), asked)
  {
    for i := 0 to |asked|
      invariant queue.jobs == EnqueuedAll(old(queue.jobs), asked[..i])
    {
      assert asked[..i + 1][..i] == asked[..i] && asked[..i + 1][i] == asked[i];
      queue.Enqueue(asked[i]);
    }
    assert asked[..|asked|] == asked;
  }

  /** Enqueue the syncs of one occurrence over the queue, and report how many runs. */
  method EnqueueSyncsWith(queue: JobQueue, sources: seq<string>, at: string, runAs: RunAs, orgs: Orgs) returns (count: nat)
    modifies queue
    ensures queue.jobs == EnqueuedAll(old(queue.jobs), Asked(sources, at, runAs, orgs))
    ensures count == |Asked(sources, at, runAs, orgs)|
  {
    if !runAs.eachOrg {
      EnqueueAll(queue, Map(sources, (key: string) => Job(key, SourceJobKey(key, at), runAs)));
      return |sources|;
    }
    var runs := FanOutRunAs(runAs, orgs.orgIds).0;
    if runs == [] {
      NoRunsNoJobs(sources, at);
      return 0;
    }
    count := EnqueueFannedOut(queue, sources, at, runs);
  }

  /** The loops over sources and runs. */
  method EnqueueFannedOut(queue: JobQueue, sources: seq<string>, at: string, runs: seq<RunAs>) returns (count: nat)
    modifies queue
    ensures queue.jobs == EnqueuedAll(old(queue.jobs), FannedOut(sources, at, runs))
    ensures count == |FannedOut(sources, at, runs)|
  {
    count := 0;
    for i := 0 to |sources|
      invariant queue.jobs == EnqueuedAll(old(queue.jobs), FannedOut(sources[..i], at, runs))
      invariant count == |FannedOut(sources[..i], at, runs)|
    {
      FannedOutStep(sources, at, runs, i);
      var mine := Map(runs, OrgJob(sources[i], at));
      EnqueuedAllAppend(old(queue.jobs), FannedOut(sources[..i], at, runs), mine);
      EnqueueAll(queue, mine);
      count := count + |runs|;
    }
    assert sources[..|sources|] == sources;
  }

  lemma {:induction false} FannedOutStep(sources: seq<string>, at: string, runs: seq<RunAs>, i: nat)
    requires i < |sources|
    ensures FannedOut(sources[..i + 1], at, runs) == FannedOut(sources[..i], at, runs) + Map(runs, OrgJob(sources[i], at))
  {
    assert sources[..i + 1][..i] == sources[..i] && sources[..i + 1][i] == sources[i];
  }

  lemma {:induction false} NoRunsNoJobs(sources: seq<string>, at: string)
    ensures FannedOut(sources, at, []) == []
  {
    if sources != [] {
      NoRunsNoJobs(sources[..|sources| - 1], at);
    }
  }

  // ---------------------------------------------------------------------------
  // One fire
  // ---------------------------------------------------------------------------

  lemma {:induction false} EnqueuedAllHolds(jobs: seq<Job>, added: seq<Job>)
    ensures jobs <= EnqueuedAll(jobs, added)
    ensures |EnqueuedAll(jobs, added)| <= |jobs| + |added|
    ensures forall i :: 0 <= i < |added| ==> Holds(EnqueuedAll(jobs, added), added[i].idempotencyKey)
  {
    if added != [] {
      var n := |added| - 1;
      EnqueuedAllHolds(jobs, added[..n]);
      var mid, after := EnqueuedAll(jobs, added[..n]), EnqueuedAll(jobs, added);
      forall i | 0 <= i < |added|
        ensures Holds(after, added[i].idempotencyKey)
      {
        if i < n {
          assert added[..n][i] == added[i];
          var k :| 0 <= k < |mid| && mid[k].idempotencyKey == added[i].idempotencyKey;
          assert after[k] == mid[k];
        } else if !Holds(mid, added[n].idempotencyKey) {
          assert after[|mid|] == added[n];
        }
      }
    }
  }

  lemma {:induction false} NothingNew(jobs: seq<Job>, added: seq<Job>)
    requires forall i :: 0 <= i < |added| ==> Holds(jobs, added[i].idempotencyKey)
    ensures EnqueuedAll(jobs, added) == jobs
  {
    if added != [] {
      NothingNew(jobs, added[..|added| - 1]);
    }
  }

  /** A re-delivered occurrence enqueues nothing, whatever else the queue holds by then. */
  lemma {:induction false} RedeliveryAddsNothing(jobs: seq<Job>, later: seq<Job>, asked: seq<Job>)
    requires EnqueuedAll(jobs, asked) <= later
    ensures EnqueuedAll(later, asked) == later
  {
    EnqueuedAllHolds(jobs, asked);
    var fired := EnqueuedAll(jobs, asked);
    forall i | 0 <= i < |asked|
      ensures Holds(later, asked[i].idempotencyKey)
    {
      var k :| 0 <= k < |fired| && fired[k].idempotencyKey == asked[i].idempotencyKey;
      assert later[k] == fired[k];
    }
    NothingNew(later, asked);
  }

  lemma {:induction false} AllNew(jobs: seq<Job>, added: seq<Job>)
    requires forall i :: 0 <= i < |added| ==> !Holds(jobs, added[i].idempotencyKey)
    requires forall i, j :: 0 <= i < j < |added| ==> added[i].idempotencyKey != added[j].idempotencyKey
    ensures EnqueuedAll(jobs, added) == jobs + added
  {
    if added != [] {
      var n := |added| - 1;
      AllNew(jobs, added[..n]);
      assert jobs + added[..n] + [added[n]] == jobs + added;
      var before := jobs + added[..n];
      forall k | 0 <= k < |before|
        ensures before[k].idempotencyKey != added[n].idempotencyKey
      {
        assert !Holds(jobs, added[n].idempotencyKey);
        assert before[k] == if k < |jobs| then jobs[k] else added[k - |jobs|];
      }
    }
  }

  lemma {:induction false} FannedOutSize(sources: seq<string>, at: string, runs: seq<RunAs>)
    ensures |FannedOut(sources, at, runs)| == |sources| * |runs|
  {
    if sources != [] {
      var n := |sources| - 1;
      FannedOutSize(sources[..n], at, runs);
      assert |sources| * |runs| == n * |runs| + |runs|;
    }
  }

  /** Every job of a fan-out is some source's, in some run's organization. */
  lemma {:induction false} FannedOutFrom(sources: seq<string>, at: string, runs: seq<RunAs>, k: nat) returns (i: nat, j: nat)
    requires k < |FannedOut(sources, at, runs)|
    ensures i < |sources| && j < |runs| && FannedOut(sources, at, runs)[k] == OrgJob(sources[i], at)(runs[j])
  {
    var n := |sources| - 1;
    var before := FannedOut(sources[..n], at, runs);
    if k < |before| {
      i, j := FannedOutFrom(sources[..n], at, runs, k);
    } else {
      i, j := n, k - |before|;
    }
  }

  /** Every source has a job in every run's organization. */
  lemma {:induction false} FannedOutHas(sources: seq<string>, at: string, runs: seq<RunAs>, i: nat, j: nat)
    requires i < |sources| && j < |runs|
    ensures OrgJob(sources[i], at)(runs[j]) in FannedOut(sources, at, runs)
  {
    InGrid(i, j, |runs|, |sources|);
    FannedOutAt(sources, at, runs, i, j, i * |runs| + j);
  }

  ghost predicate OnePerOrg(runs: seq<RunAs>) {
    && (forall j :: 0 <= j < |runs| ==> runs[j].orgId.Some?)
    && (forall i, j :: 0 <= i < j < |runs| ==> runs[i].orgId != runs[j].orgId)
  }

  /** Different organizations or different sources never share a key. */
  lemma {:induction false} FannedOutDistinct(sources: seq<string>, at: string, runs: seq<RunAs>, k: nat, l: nat)
    requires Distinct(sources) && OnePerOrg(runs) && (forall s :: s in sources ==> ':' !in s)
    requires k < l < |FannedOut(sources, at, runs)|
    ensures FannedOut(sources, at, runs)[k].idempotencyKey != FannedOut(sources, at, runs)[l].idempotencyKey
  {
    var n := |sources| - 1;
    var before, jobs := FannedOut(sources[..n], at, runs), FannedOut(sources, at, runs);
    assert sources[n] in sources;
    if l < |before| {
      FannedOutDistinct(sources[..n], at, runs, k, l);
    } else {
      var b := runs[l - |before|];
      assert jobs[l] == OrgJob(sources[n], at)(b);
      if k < |before| {
        var i, j := FannedOutFrom(sources[..n], at, runs, k);
        assert sources[i] in sources && sources[i] != sources[n];
        OrgJobsDiffer(sources[i], sources[n], at, runs[j], b);
      } else {
        var a := runs[k - |before|];
        assert jobs[k] == OrgJob(sources[n], at)(a);
        OrgJobsDiffer(sources[n], sources[n], at, a, b);
      }
    }
  }

  lemma {:induction false} OrgJobsDiffer(s: string, t: string, at: string, a: RunAs, b: RunAs)
    requires ':' !in s && ':' !in t && a.orgId.Some? && b.orgId.Some? && (s != t || a.orgId != b.orgId)
    ensures OrgJob(s, at)(a).idempotencyKey != OrgJob(t, at)(b).idempotencyKey
  {
    if OrgJob(s, at)(a).idempotencyKey == OrgJob(t, at)(b).idempotencyKey {
      KeysAreDistinct(s, t, at, a.orgId.value, b.orgId.value);
    }
  }

  /** A job of this source acting in this organization and claiming no fan-out of its own. */
  predicate ActsFor(job: Job, sourceKey: string, who: Identity, orgId: string) {
    job.sourceKey == sourceKey && job.runAs == RunAs(who, Some(orgId), false, None)
  }

  /** The organizations a fan-out runs in: the first ones, up to the bound. */
  function Within(runAs: RunAs, orgs: Orgs): seq<string> {
    Take(orgs.orgIds, Bound(runAs))
  }

  lemma {:induction false} RunsWithin(runAs: RunAs, orgs: Orgs)
    requires runAs.eachOrg
    ensures var runs := FanOutRunAs(runAs, orgs.orgIds).0;
            && |runs| == |Within(runAs, orgs)| <= MAX_FANOUT_ORGS
            && (forall j :: 0 <= j < |runs| ==> runs[j] == RunAs(runAs.who, Some(Within(runAs, orgs)[j]), false, None))
            && (Distinct(orgs.orgIds) ==> OnePerOrg(runs))
  {}

  /** A fire asks for sources times organizations jobs, never more than sources times the ceiling. */
  lemma {:induction false} FireIsBounded(sources: seq<string>, at: string, runAs: RunAs, orgs: Orgs)
    requires runAs.eachOrg
    ensures |Asked(sources, at, runAs, orgs)| == |sources| * |Within(runAs, orgs)| <= |sources| * MAX_FANOUT_ORGS
  {
    RunsWithin(runAs, orgs);
    FannedOutSize(sources, at, FanOutRunAs(runAs, orgs.orgIds).0);
    Widest(|sources|, |Within(runAs, orgs)|);
  }

  /** Every source has its job in every organization within the bound. */
  lemma {:induction false} FireCovers(sources: seq<string>, at: string, runAs: RunAs, orgs: Orgs, i: nat, j: nat)
    requires runAs.eachOrg && i < |sources| && j < |Within(runAs, orgs)|
    ensures exists job :: job in Asked(sources, at, runAs, orgs) && ActsFor(job, sources[i], runAs.who, Within(runAs, orgs)[j])
  {
    RunsWithin(runAs, orgs);
    var runs := FanOutRunAs(runAs, orgs.orgIds).0;
    FannedOutHas(sources, at, runs, i, j);
    assert ActsFor(OrgJob(sources[i], at)(runs[j]), sources[i], runAs.who, Within(runAs, orgs)[j]);
  }

  /** A fire asks for no other job: each acts for one source in one organization within the bound. */
  lemma {:induction false} FireAsksNoMore(sources: seq<string>, at: string, runAs: RunAs, orgs: Orgs, k: nat) returns (i: nat, j: nat)
    requires runAs.eachOrg && k < |Asked(sources, at, runAs, orgs)|
    ensures i < |sources| && j < |Within(runAs, orgs)|
    ensures ActsFor(Asked(sources, at, runAs, orgs)[k], sources[i], runAs.who, Within(runAs, orgs)[j])
  {
    RunsWithin(runAs, orgs);
    i, j := FannedOutFrom(sources, at, FanOutRunAs(runAs, orgs.orgIds).0, k);
  }

  /**
   * The jobs of one fire have pairwise distinct keys; on a queue that holds none of them yet they
   * are appended as they are.
   */
  lemma {:induction false} FireKeysDistinct(sources: seq<string>, at: string, runAs: RunAs, orgs: Orgs, jobs: seq<Job>)
    requires runAs.eachOrg && Distinct(sources) && Distinct(orgs.orgIds)
    requires forall s :: s in sources ==> ':' !in s
    ensures var asked := Asked(sources, at, runAs, orgs);
            && (forall k, l :: 0 <= k < l < |asked| ==> asked[k].idempotencyKey != asked[l].idempotencyKey)
            && ((forall k, h :: 0 <= k < |asked| && 0 <= h < |jobs| ==> asked[k].idempotencyKey != jobs[h].idempotencyKey) ==>
                  EnqueuedAll(jobs, asked) == jobs + asked)
  {
    var asked := Asked(sources, at, runAs, orgs);
    var runs := FanOutRunAs(runAs, orgs.orgIds).0;
    RunsWithin(runAs, orgs);
    forall k, l | 0 <= k < l < |asked|
      ensures asked[k].idempotencyKey != asked[l].idempotencyKey
    {
      FannedOutDistinct(sources, at, runs, k, l);
    }
    if forall k, h :: 0 <= k < |asked| && 0 <= h < |jobs| ==> asked[k].idempotencyKey != jobs[h].idempotencyKey {
      AllNew(jobs, asked);
    }
  }

  /** The organizations a fan-out runs in are the first enumerated, in their order. */
  lemma {:induction false} WithinIs(runAs: RunAs, orgs: Orgs)
    ensures var within := Within(runAs, orgs);
            && |within| == (if |orgs.orgIds| <= Bound(runAs) then |orgs.orgIds| else Bound(runAs))
            && forall j :: 0 <= j < |within| ==> within[j] == orgs.orgIds[j]
  {}

  /** The fan-out's bound: what the schedule asks for, never more than the ceiling and never less than none. */
  lemma {:induction false} BoundIs(runAs: RunAs)
    ensures runAs.maxOrgs == None ==> Bound(runAs) == 200
    ensures runAs.maxOrgs.Some? && 0 <= runAs.maxOrgs.value <= 200 ==> Bound(runAs) == runAs.maxOrgs.value
    ensures runAs.maxOrgs.Some? && runAs.maxOrgs.value > 200 ==> Bound(runAs) == 200
    ensures runAs.maxOrgs.Some? && runAs.maxOrgs.value < 0 ==> Bound(runAs) == 0
  {}

  /** Row `i`, column `j` of a grid of `n` rows of `m`. */
  lemma {:induction false} InGrid(i: nat, j: nat, m: nat, n: nat)
    requires i < n && j < m
    ensures 0 <= i * m + j < i * m + m <= n * m
  {
    Scaled(i + 1, n, m);
    assert (i + 1) * m == i * m + m;
  }

  lemma {:induction false} Scaled(a: nat, b: nat, m: nat)
    requires a <= b
    ensures a * m <= b * m
  {}

  lemma {:induction false} SameProduct(i: nat, n: nat, m: nat)
    requires i == n
    ensures i * m == n * m
  {}

  lemma {:induction false} FannedOutAt(sources: seq<string>, at: string, runs: seq<RunAs>, i: nat, j: nat, p: nat)
    requires i < |sources| && j < |runs| && p == i * |runs| + j
    ensures p < |FannedOut(sources, at, runs)| && FannedOut(sources, at, runs)[p] == OrgJob(sources[i], at)(runs[j])
  {
    var n := |sources| - 1;
    var before, mine := FannedOut(sources[..n], at, runs), Map(runs, OrgJob(sources[n], at));
    assert FannedOut(sources, at, runs) == before + mine;
    FannedOutSize(sources[..n], at, runs);
    if i < n {
      InGrid(i, j, |runs|, n);
      FannedOutAt(sources[..n], at, runs, i, j, p);
    } else {
      SameProduct(i, n, |runs|);
      assert FannedOut(sources, at, runs)[p] == mine[j];
    }
  }

  /**
   * A fire over each organization, job by job: source after source, each has one job in each of the first
   * organizations enumerated, in their order and as many as the bound allows, acting as declared within that
   * organization and claiming no fan-out of its own; every other organization enumerated is counted as skipped.
   */
  lemma {:induction false} FireIsExact(sources: seq<string>, at: string, runAs: RunAs, orgs: Orgs, i: nat, j: nat, p: nat)
    requires runAs.eachOrg && i < |sources| && j < |Within(runAs, orgs)| && p == i * |Within(runAs, orgs)| + j
    ensures var asked := Asked(sources, at, runAs, orgs);
            && |asked| == |sources| * |Within(runAs, orgs)| && p < |asked|
            && FanOutRunAs(runAs, orgs.orgIds).1 == |orgs.orgIds| - |Within(runAs, orgs)|
            && asked[p] == Job(sources[i], "source:" + sources[i] + ":" + (at + "#" + orgs.orgIds[j]),
                               RunAs(runAs.who, Some(orgs.orgIds[j]), false, None))
  {
    RunsWithin(runAs, orgs);
    var runs := FanOutRunAs(runAs, orgs.orgIds).0;
    FannedOutSize(sources, at, runs);
    FannedOutAt(sources, at, runs, i, j, p);
  }

  /**
   * A fire that does not fan out asks for one job of each source, in order, run as the schedule declares and
   * keyed on the source and the instant; so two sources never share a key.
   */
  lemma {:induction false} PlainFireIsExact(sources: seq<string>, at: string, runAs: RunAs, orgs: Orgs, jobs: seq<Job>)
    requires !runAs.eachOrg
    ensures FanOutRunAs(runAs, orgs.orgIds) == ([], 0)
    ensures var asked := Asked(sources, at, runAs, orgs);
            && |asked| == |sources|
            && (forall i :: 0 <= i < |sources| ==> asked[i] == Job(sources[i], "source:" + sources[i] + ":" + at, runAs))
            && (Distinct(sources) ==> forall k, l :: 0 <= k < l < |asked| ==> asked[k].idempotencyKey != asked[l].idempotencyKey)
            && (Distinct(sources) && (forall k, h :: 0 <= k < |asked| && 0 <= h < |jobs| ==> asked[k].idempotencyKey != jobs[h].idempotencyKey) ==>
                  EnqueuedAll(jobs, asked) == jobs + asked)
  {
    var asked := Asked(sources, at, runAs, orgs);
    forall k, l | 0 <= k < l < |asked| && Distinct(sources)
      ensures asked[k].idempotencyKey != asked[l].idempotencyKey
    {
      if SourceJobKey(sources[k], at) == SourceJobKey(sources[l], at) {
        PlainKeyTells(sources[k], sources[l], at);
      }
    }
    if Distinct(sources) && forall k, h :: 0 <= k < |asked| && 0 <= h < |jobs| ==> asked[k].idempotencyKey != jobs[h].idempotencyKey {
      AllNew(jobs, asked);
    }
  }

  lemma {:induction false} PlainKeyTells(s: string, t: string, at: string)
    requires SourceJobKey(s, at) == SourceJobKey(t, at)
    ensures s == t
  {
    var a, b := SourceJobKey(s, at), SourceJobKey(t, at);
    assert |s| == |t|;
    assert a[7..7 + |s|] == s && b[7..7 + |t|] == t;
  }

  lemma {:induction false} Widest(n: nat, m: nat)
    requires m <= MAX_FANOUT_ORGS
    ensures n * m <= n * MAX_FANOUT_ORGS
  {}
}
