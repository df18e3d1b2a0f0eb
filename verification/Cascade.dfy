/**
 * The event cascade: a write is audited, the audit sink enqueues jobs, a job's run writes again.
 * Models userForRunAs and enqueueWriteEnrichments of apps/web/app/sources.server.ts, record of
 * packages/maxstack-core/src/sprout/operations.ts, getAuditSink and the worker of getJobQueue in
 * apps/web/app/sprout.server.ts, writeTriggersEnrichment of packages/features/src/sources/queue.ts and
 * the retry budget of packages/features/src/jobs/service.ts. Each write of a run is a step of its own:
 * other writes and other jobs may come between any two.
 */
module Cascade {
  import opened Collections

  datatype Action = Create | Update | Delete

  /** The authority a job borrows. */
  datatype RunAs = ServiceRun(role: string) | UserRun(userId: string)

  /** Who an op runs as; nothing but userForRunAs sets a source key. */
  datatype Identity = Identity(id: string, sourceKey: Option<string>)

  /** A committed op. */
  datatype Op = Op(resource: string, action: Action, resourceId: string)

  datatype Entry = Entry(op: Op, userId: string, sourceKey: Option<string>)

  /** A declared enrich source that is active. */
  datatype Source = Source(key: string, resource: string, onCreate: bool, onUpdate: bool, maxAttempts: nat)

  /** A source's run is an enrichment of a row, or a sync. */
  datatype Job =
    | WebhookJob(entry: Entry, attemptsLeft: nat)
    | RunJob(sourceKey: string, rowId: Option<string>, runAs: RunAs, attemptsLeft: nat)

  /** Whether the queue took what the sink handed it: a dispatch failure never surfaces to the writer. */
  datatype Dispatch = Dispatch(webhook: bool, enrichments: nat)

  datatype Write = Write(op: Op, dispatch: Dispatch)

  /** A claimed run: whom it writes as, and the writes it has still to make. */
  datatype Running = Running(job: Job, who: Identity, todo: seq<Write>)

  /** What a process has audited, what its queue holds and what is running; `enriched` counts enrichments ever enqueued. */
  datatype State = State(audit: seq<Entry>, jobs: seq<Job>, running: seq<Running>, enriched: nat)

  const WEBHOOK_ATTEMPTS: nat := 3

  // ---------------------------------------------------------------------------
  // The stamp
  // ---------------------------------------------------------------------------

  /** userForRunAs: the marker is there exactly when there is a key. */
  function UserForRunAs(runAs: RunAs, sourceKey: string): Identity {
    var marker := if sourceKey == "" then None else Some(sourceKey);
    match runAs
    case ServiceRun(role) => Identity("service:" + role, marker)
    case UserRun(userId) => Identity(userId, marker)
  }

  /** record: what an op's entry says of who wrote it. */
  function Audited(who: Option<Identity>, op: Op): Entry {
    Entry(op, if who.None? then "anonymous" else who.value.id,
          if who.Some? && who.value.sourceKey.Some? && who.value.sourceKey.value != "" then who.value.sourceKey else None)
  }

  /** Whether an entry says a source run wrote it. */
  predicate Marked(entry: Entry) {
    entry.sourceKey.Some? && entry.sourceKey.value != ""
  }

  /** What a run writes is marked with its key, under either kind of authority, exactly when the key is not empty. */
  lemma {:induction false} RunsAreMarkedIff(runAs: RunAs, sourceKey: string, op: Op)
    ensures var entry := Audited(Some(UserForRunAs(runAs, sourceKey)), op);
            && (Marked(entry) <==> sourceKey != "")
            && (Marked(entry) ==> entry.sourceKey == Some(sourceKey))
            && entry.op == op
            && (runAs.UserRun? ==> entry.userId == runAs.userId)
            && (runAs.ServiceRun? ==> entry.userId == "service:" + runAs.role)
  {
  }

  // ---------------------------------------------------------------------------
  // The sink
  // ---------------------------------------------------------------------------

  /** The loop guard: no source run wrote this, and it names a row. */
  predicate WriteTriggersEnrichment(entry: Entry) {
    !Marked(entry) && entry.op.resourceId != ""
  }

  predicate TriggeredBy(source: Source, op: Op) {
    source.resource == op.resource &&
    match op.action case Create => source.onCreate case Update => source.onUpdate case Delete => false
  }

  function EnrichSourcesFor(sources: seq<Source>, op: Op): seq<Source> {
    Filter(sources, (s: Source) => TriggeredBy(s, op))
  }

  /** An enrichment borrows the writer's identity; nobody's write lends none. */
  predicate LendsIdentity(entry: Entry) {
    entry.userId != "" && entry.userId != "anonymous"
  }

  function Enrichment(entry: Entry): Source -> Job {
    (s: Source) => RunJob(s.key, Some(entry.op.resourceId), UserRun(entry.userId), if s.maxAttempts == 0 then 1 else s.maxAttempts)
  }

  /** The enrichments a committed write asks for. */
  function Enrichments(sources: seq<Source>, entry: Entry): seq<Job> {
    if !WriteTriggersEnrichment(entry) || entry.op.action.Delete? || !LendsIdentity(entry) then []
    else Map(EnrichSourcesFor(sources, entry.op), Enrichment(entry))
  }

  function Taken(jobs: seq<Job>, n: nat): seq<Job> {
    if n <= |jobs| then jobs[..n] else jobs
  }

  function Webhook(entry: Entry, dispatch: Dispatch): seq<Job> {
    if dispatch.webhook then [WebhookJob(entry, WEBHOOK_ATTEMPTS)] else []
  }

  function Recorded(s: State, sources: seq<Source>, entry: Entry, dispatch: Dispatch): State {
    var enrichments := Taken(Enrichments(sources, entry), dispatch.enrichments);
    s.(audit := s.audit + [entry], jobs := s.jobs + Webhook(entry, dispatch) + enrichments,
       enriched := s.enriched + |enrichments|)
  }

  /** An op commits: its entry reaches the sink. */
  function Wrote(s: State, sources: seq<Source>, who: Option<Identity>, w: Write): State {
    Recorded(s, sources, Audited(who, w.op), w.dispatch)
  }

  // ---------------------------------------------------------------------------
  // The worker
  // ---------------------------------------------------------------------------

  /** How an attempt ended. */
  datatype Ending = Succeeded | Failed | FailedForGood

  function Without<T>(s: seq<T>, i: nat): seq<T>
    requires i < |s|
  {
    s[..i] + s[i + 1..]
  }

  /** What is left of a job after an attempt: a retry only while the budget lasts. */
  function Retried(job: Job, ending: Ending): seq<Job> {
    if ending.Failed? && job.attemptsLeft > 1 then [job.(attemptsLeft := job.attemptsLeft - 1)] else []
  }

  /** A webhook's attempt writes no row. */
  function Delivered(s: State, i: nat, ending: Ending): State
    requires i < |s.jobs|
  {
    s.(jobs := Without(s.jobs, i) + Retried(s.jobs[i], ending))
  }

  /** A run is claimed under the identity it borrows; `writes` is what it will find to write. */
  function Claimed(s: State, i: nat, writes: seq<Write>): State
    requires i < |s.jobs| && s.jobs[i].RunJob?
  {
    var job := s.jobs[i];
    s.(jobs := Without(s.jobs, i), running := s.running + [Running(job, UserForRunAs(job.runAs, job.sourceKey), writes)])
  }

  /** A run's next write, through the ops and so through the sink. */
  function RunWrote(s: State, r: nat, sources: seq<Source>): State
    requires r < |s.running| && s.running[r].todo != []
  {
    var run := s.running[r];
    Wrote(s.(running := s.running[r := run.(todo := run.todo[1..])]), sources, Some(run.who), run.todo[0])
  }

  /** A run ends, whatever it had still to write. */
  function Finished(s: State, r: nat, ending: Ending): State
    requires r < |s.running|
  {
    s.(jobs := s.jobs + Retried(s.running[r].job, ending), running := Without(s.running, r))
  }

  lemma {:induction false} WithoutMiddle<T>(a: seq<T>, x: T, b: seq<T>)
    ensures Without(a + [x] + b, |a|) == a + b && (a + [x] + b)[|a|] == x
  {}

  /** A run that is claimed leaves the queue and runs under the identity it borrows, with all its writes still to make. */
  lemma {:induction false} ClaimTakes(s: State, a: seq<Job>, job: Job, b: seq<Job>, writes: seq<Write>)
    requires s.jobs == a + [job] + b && job.RunJob?
    ensures var id := match job.runAs case ServiceRun(role) => "service:" + role case UserRun(userId) => userId;
            var who := Identity(id, if job.sourceKey == "" then None else Some(job.sourceKey));
            Claimed(s, |a|, writes) == s.(jobs := a + b, running := s.running + [Running(job, who, writes)])
  {
    WithoutMiddle(a, job, b);
  }

  /** A run that ends, and a webhook's attempt, go, and come back at the end of the queue exactly when they failed with an attempt left. */
  lemma {:induction false} EndsReturn(s: State, a: seq<Running>, run: Running, b: seq<Running>, c: seq<Job>, job: Job, d: seq<Job>, ending: Ending)
    requires s.running == a + [run] + b && s.jobs == c + [job] + d
    ensures var again := if ending == Failed && run.job.attemptsLeft >= 2 then [run.job.(attemptsLeft := run.job.attemptsLeft - 1)] else [];
            Finished(s, |a|, ending) == s.(jobs := s.jobs + again, running := a + b)
    ensures var again := if ending == Failed && job.attemptsLeft >= 2 then [job.(attemptsLeft := job.attemptsLeft - 1)] else [];
            Delivered(s, |c|, ending) == s.(jobs := c + d + again)
  {
    WithoutMiddle(a, run, b);
    WithoutMiddle(c, job, d);
  }

  class EventBus {
    var audit: seq<Entry>
    var jobs: seq<Job>
    var running: seq<Running>
    var enriched: nat

    constructor ()
      ensures Now() == State([], [], [], 0)
    {
      audit, jobs, running, enriched := [], [], [], 0;
    }

    ghost function Now(): State
      reads this
    {
      State(audit, jobs, running, enriched)
    }

    /** The audit sink: the entry is kept, then the bus and the enrichments are told, best effort. */
    method Record(entry: Entry, sources: seq<Source>, dispatch: Dispatch)
      modifies this`audit, this`jobs, this`enriched
      ensures Now() == Recorded(old(Now()), sources, entry, dispatch)
    {
      audit := audit + [entry];
      if dispatch.webhook {
        jobs := jobs + [WebhookJob(entry, WEBHOOK_ATTEMPTS)];
      }
      if (entry.sourceKey.None? || entry.sourceKey.value == "") && entry.op.resourceId != "" {
        EnqueueWriteEnrichments(entry, sources, dispatch.enrichments);
      }
    }

    method EnqueueWriteEnrichments(entry: Entry, sources: seq<Source>, accepted: nat)
      requires WriteTriggersEnrichment(entry)
      modifies this`jobs, this`enriched
      ensures jobs == old(jobs) + Taken(Enrichments(sources, entry), accepted)
      ensures enriched == old(enriched) + |Taken(Enrichments(sources, entry), accepted)|
    {
      if entry.op.action.Delete? {
        return;
      }
      if entry.userId == "" || entry.userId == "anonymous" {
        return;
      }
      var triggered := EnrichSourcesFor(sources, entry.op);
      var asked := Map(triggered, Enrichment(entry));
      var i := 0;
      while i < |triggered| && i < accepted
        invariant 0 <= i <= |triggered| && (accepted <= |triggered| ==> i <= accepted)
        invariant jobs == old(jobs) + asked[..i] && enriched == old(enriched) + i
      {
        assert asked[..i + 1] == asked[..i] + [asked[i]];
        jobs := jobs + [asked[i]];
        enriched := enriched + 1;
        i := i + 1;
      }
      assert asked[..i] == Taken(asked, accepted);
    }

    /** An op's audit: the entry says who wrote. */
    method WriteOp(who: Option<Identity>, w: Write, sources: seq<Source>)
      modifies this`audit, this`jobs, this`enriched
      ensures Now() == Wrote(old(Now()), sources, who, w)
    {
      var userId, sourceKey := "anonymous", None;
      if who.Some? {
        userId := who.value.id;
        if who.value.sourceKey.Some? && who.value.sourceKey.value != "" {
          sourceKey := who.value.sourceKey;
        }
      }
      Record(Entry(w.op, userId, sourceKey), sources, w.dispatch);
    }

    method Deliver(i: nat, ending: Ending)
      requires i < |jobs|
      modifies this`jobs
      ensures Now() == Delivered(old(Now()), i, ending)
    {
      var job := jobs[i];
      jobs := jobs[..i] + jobs[i + 1..];
      if ending == Failed && job.attemptsLeft > 1 {
        jobs := jobs + [job.(attemptsLeft := job.attemptsLeft - 1)];
      }
    }

    method Claim(i: nat, writes: seq<Write>)
      requires i < |jobs| && jobs[i].RunJob?
      modifies this`jobs, this`running
      ensures Now() == Claimed(old(Now()), i, writes)
    {
      var job := jobs[i];
      jobs := jobs[..i] + jobs[i + 1..];
      running := running + [Running(job, UserForRunAs(job.runAs, job.sourceKey), writes)];
    }

    /** The run between two awaits: one write. */
    method RunNextWrite(r: nat, sources: seq<Source>)
      requires r < |running| && running[r].todo != []
      modifies this
      ensures Now() == RunWrote(old(Now()), r, sources)
    {
      var run := running[r];
      running := running[r := run.(todo := run.todo[1..])];
      WriteOp(Some(run.who), run.todo[0], sources);
    }

    method Finish(r: nat, ending: Ending)
      requires r < |running|
      modifies this`jobs, this`running
      ensures Now() == Finished(old(Now()), r, ending)
    {
      var job := running[r].job;
      running := running[..r] + running[r + 1..];
      if ending == Failed && job.attemptsLeft > 1 {
        jobs := jobs + [job.(attemptsLeft := job.attemptsLeft - 1)];
      }
    }
  }

  // ---------------------------------------------------------------------------
  // What a write asks for
  // ---------------------------------------------------------------------------

  /**
   * An entry asks, in declaration order, for one run of each source declared over its resource that has
   * the trigger of its action, as the writer and on the row written; an entry a source run wrote, one that
   * names no row and one whose writer lends no identity ask for none.
   */
  lemma {:induction false} EnrichmentsAreExact(sources: seq<Source>, entry: Entry)
    ensures Enrichments(sources, entry) ==
            if (entry.sourceKey.Some? && entry.sourceKey.value != "") || entry.op.resourceId == ""
               || entry.userId == "" || entry.userId == "anonymous" then []
            else FilterMap(sources, (s: Source) =>
              if s.resource == entry.op.resource && ((entry.op.action == Create && s.onCreate) || (entry.op.action == Update && s.onUpdate))
              then Some(RunJob(s.key, Some(entry.op.resourceId), UserRun(entry.userId), if s.maxAttempts == 0 then 1 else s.maxAttempts))
              else None)
  {
    var asked := (s: Source) =>
      if s.resource == entry.op.resource && ((entry.op.action == Create && s.onCreate) || (entry.op.action == Update && s.onUpdate))
      then Some(RunJob(s.key, Some(entry.op.resourceId), UserRun(entry.userId), if s.maxAttempts == 0 then 1 else s.maxAttempts))
      else None;
    FilterThenMap(sources, (s: Source) => TriggeredBy(s, entry.op), Enrichment(entry), asked);
    if entry.op.action == Delete {
      NothingAsked(sources, asked);
    }
  }

  lemma {:induction false} NothingAsked<A, B>(s: seq<A>, f: A -> Option<B>)
    requires forall x :: f(x) == None
    ensures FilterMap(s, f) == []
  {
    if s != [] {
      NothingAsked(s[1..], f);
    }
  }

  /**
   * A write by a user or by nobody: its entry names the writer and no source, and the queue gains a webhook's
   * job if the bus took it and then the first of the enrichments asked for, as many as the queue took.
   */
  lemma {:induction false} OwnWriteEnqueues(s: State, sources: seq<Source>, who: Option<Identity>, w: Write)
    requires who.Some? ==> who.value.sourceKey.None?
    ensures var after := Wrote(s, sources, who, w);
            var userId := if who.Some? then who.value.id else "anonymous";
            var entry := Entry(w.op, userId, None);
            var asked := if w.op.resourceId == "" || userId == "" || userId == "anonymous" then []
                         else FilterMap(sources, (x: Source) =>
                           if x.resource == w.op.resource && ((w.op.action == Create && x.onCreate) || (w.op.action == Update && x.onUpdate))
                           then Some(RunJob(x.key, Some(w.op.resourceId), UserRun(userId), if x.maxAttempts == 0 then 1 else x.maxAttempts))
                           else None);
            var n := if w.dispatch.enrichments < |asked| then w.dispatch.enrichments else |asked|;
            && after.audit == s.audit + [entry]
            && after.jobs == s.jobs + (if w.dispatch.webhook then [WebhookJob(entry, 3)] else []) + asked[..n]
            && after.enriched == s.enriched + n
            && after.running == s.running
  {
    var entry := Audited(who, w.op);
    EnrichmentsAreExact(sources, entry);
    var asked := Enrichments(sources, entry);
    assert asked[..|asked|] == asked;
  }

  /** Every source over the written resource with the write's trigger has its run asked for, and nothing else is. */
  lemma {:induction false} EnrichedIff(sources: seq<Source>, op: Op, userId: string, job: Job)
    requires op.resourceId != "" && userId != "" && userId != "anonymous"
    ensures job in Enrichments(sources, Entry(op, userId, None)) <==>
              exists s :: s in sources && s.resource == op.resource
                          && (op.action == Create ==> s.onCreate) && (op.action == Update ==> s.onUpdate) && op.action != Delete
                          && job == RunJob(s.key, Some(op.resourceId), UserRun(userId), if s.maxAttempts == 0 then 1 else s.maxAttempts)
  {
    EnrichmentsAreExact(sources, Entry(op, userId, None));
    var asked := (s: Source) =>
      if s.resource == op.resource && ((op.action == Create && s.onCreate) || (op.action == Update && s.onUpdate))
      then Some(RunJob(s.key, Some(op.resourceId), UserRun(userId), if s.maxAttempts == 0 then 1 else s.maxAttempts))
      else None;
    FilterMapMember(sources, asked, job);
  }

  // ---------------------------------------------------------------------------
  // The retry budget
  // ---------------------------------------------------------------------------

  /** One attempt of the job at the end of the queue: a webhook's delivery, or a run that is claimed and ends without a write. */
  function Attempted(s: State, ending: Ending): State
    requires s.jobs != []
  {
    var last := |s.jobs| - 1;
    if s.jobs[last].WebhookJob? then Delivered(s, last, ending)
    else Finished(Claimed(s, last, []), |s.running|, ending)
  }

  /** `n` failed attempts in a row. */
  function FailedAttempts(s: State, n: nat): State
    requires |s.jobs| >= 1
    decreases n
  {
    if n == 0 then s
    else
      var after := Attempted(s, Failed);
      if after.jobs == [] then after else FailedAttempts(after, n - 1)
  }

  lemma {:induction false} AttemptSpendsOne(s: State, rest: seq<Job>, job: Job, ending: Ending)
    requires s.jobs == rest + [job]
    ensures Attempted(s, ending) ==
            s.(jobs := rest + if ending == Failed && job.attemptsLeft >= 2 then [job.(attemptsLeft := job.attemptsLeft - 1)] else [])
  {
    assert Without(s.jobs, |rest|) == rest;
    if job.RunJob? {
      var claimed := Claimed(s, |rest|, []);
      assert Without(claimed.running, |s.running|) == s.running;
    }
  }

  lemma {:induction false} FailedOnce(s: State, after: State, n: nat)
    requires s.jobs != [] && after == Attempted(s, Failed) && n > 0
    ensures FailedAttempts(s, n) == if after.jobs == [] then after else FailedAttempts(after, n - 1)
  {}

  /** A success or a permanent failure ends a job at once, and so does a failure of the last attempt. */
  lemma {:induction false} EndsAtOnce(s: State, rest: seq<Job>, job: Job)
    requires s.jobs == rest + [job]
    ensures Attempted(s, Succeeded) == s.(jobs := rest) && Attempted(s, FailedForGood) == s.(jobs := rest)
    ensures job.attemptsLeft <= 1 ==> Attempted(s, Failed) == s.(jobs := rest)
  {
    AttemptSpendsOne(s, rest, job, Failed);
    AttemptSpendsOne(s, rest, job, Succeeded);
    AttemptSpendsOne(s, rest, job, FailedForGood);
    assert rest + [] == rest;
  }

  /** A job with this much of its budget left. */
  function Left(job: Job, n: nat): Job {
    job.(attemptsLeft := n)
  }

  lemma {:induction false} LeftTwice(job: Job, m: nat, n: nat)
    ensures Left(Left(job, m), n) == Left(job, n) && Left(job, m).attemptsLeft == m && Left(job, job.attemptsLeft) == job
  {}

  lemma {:induction false} FailsOnce(s: State, rest: seq<Job>, job: Job)
    requires s.jobs == rest + [job] && job.attemptsLeft >= 2
    ensures Attempted(s, Failed) == s.(jobs := rest + [Left(job, job.attemptsLeft - 1)])
  {
    AttemptSpendsOne(s, rest, job, Failed);
  }

  lemma {:induction false} StillWaiting(s: State, rest: seq<Job>, job: Job, n: nat)
    requires s.jobs == rest + [job] && n < job.attemptsLeft
    ensures FailedAttempts(s, n) == s.(jobs := rest + [Left(job, job.attemptsLeft - n)])
    decreases n
  {
    LeftTwice(job, 0, 0);
    if n > 0 {
      var next := Left(job, job.attemptsLeft - 1);
      var after := s.(jobs := rest + [next]);
      FailsOnce(s, rest, job);
      FailedOnce(s, after, n);
      LeftTwice(job, job.attemptsLeft - 1, job.attemptsLeft - n);
      StillWaiting(after, rest, next, n - 1);
    }
  }

  /**
   * A job whose attempts all fail is attempted as often as its budget says, and once if the budget says
   * nothing: before its last attempt it is in the queue with the rest of its budget, then it is gone.
   */
  lemma {:induction false} BudgetIsExact(s: State, rest: seq<Job>, job: Job, n: nat)
    requires s.jobs == rest + [job]
    ensures n < job.attemptsLeft ==> FailedAttempts(s, n) == s.(jobs := rest + [job.(attemptsLeft := job.attemptsLeft - n)])
    ensures job.attemptsLeft > 0 ==>
              var last := FailedAttempts(s, job.attemptsLeft - 1);
              last.jobs != [] && Attempted(last, Failed) == s.(jobs := rest)
    ensures job.attemptsLeft == 0 ==> Attempted(s, Failed) == s.(jobs := rest)
  {
    if n < job.attemptsLeft {
      StillWaiting(s, rest, job, n);
    }
    if job.attemptsLeft > 0 {
      StillWaiting(s, rest, job, job.attemptsLeft - 1);
      var last := s.(jobs := rest + [Left(job, 1)]);
      EndsAtOnce(last, rest, Left(job, 1));
    } else {
      EndsAtOnce(s, rest, job);
    }
  }

  // ---------------------------------------------------------------------------
  // Steps
  // ---------------------------------------------------------------------------

  /** A write by anybody but a source run, a run enqueued by a schedule or an operator, or a step of the worker. */
  datatype Step =
    | WriteStep(sources: seq<Source>, who: Option<Identity>, write: Write)
    | EnqueueStep(job: Job)
    | DeliverStep(i: nat, ending: Ending)
    | ClaimStep(i: nat, writes: seq<Write>)
    | RunWriteStep(r: nat, sources: seq<Source>)
    | FinishStep(r: nat, ending: Ending)

  predicate KeysDeclared(sources: seq<Source>) {
    forall k :: 0 <= k < |sources| ==> sources[k].key != ""
  }

  /** Declared keys are not empty, and only a run's identity carries one. */
  predicate Enabled(s: State, step: Step, limit: nat) {
    match step
    case WriteStep(sources, who, _) => (who.Some? ==> who.value.sourceKey.None?) && |sources| <= limit && KeysDeclared(sources)
    case EnqueueStep(job) => job.RunJob? && job.sourceKey != ""
    case DeliverStep(i, _) => i < |s.jobs| && s.jobs[i].WebhookJob?
    case ClaimStep(i, _) => i < |s.jobs| && s.jobs[i].RunJob?
    case RunWriteStep(r, _) => r < |s.running| && s.running[r].todo != []
    case FinishStep(r, _) => r < |s.running|
  }

  function After(s: State, step: Step): State
    requires step.DeliverStep? ==> step.i < |s.jobs|
    requires step.ClaimStep? ==> step.i < |s.jobs| && s.jobs[step.i].RunJob?
    requires step.RunWriteStep? ==> step.r < |s.running| && s.running[step.r].todo != []
    requires step.FinishStep? ==> step.r < |s.running|
  {
    match step
    case WriteStep(sources, who, w) => Wrote(s, sources, who, w)
    case EnqueueStep(job) => s.(jobs := s.jobs + [job])
    case DeliverStep(i, ending) => Delivered(s, i, ending)
    case ClaimStep(i, writes) => Claimed(s, i, writes)
    case RunWriteStep(r, sources) => RunWrote(s, r, sources)
    case FinishStep(r, ending) => Finished(s, r, ending)
  }

  predicate ByWorker(step: Step) {
    !step.WriteStep? && !step.EnqueueStep?
  }

  // ---------------------------------------------------------------------------
  // What every step keeps
  // ---------------------------------------------------------------------------

  predicate KeyedJob(job: Job) {
    job.RunJob? ==> job.sourceKey != ""
  }

  predicate KeyedRun(run: Running) {
    run.job.RunJob? && run.job.sourceKey != "" && run.who == UserForRunAs(run.job.runAs, run.job.sourceKey)
  }

  /** Every pending or running run names its source, and writes as the identity stamped with it. */
  ghost predicate Keyed(s: State) {
    && (forall i :: 0 <= i < |s.jobs| ==> KeyedJob(s.jobs[i]))
    && (forall r :: 0 <= r < |s.running| ==> KeyedRun(s.running[r]))
  }

  /** What a run writes is marked with its source's key and enqueues no enrichment: at most a webhook. */
  lemma {:induction false} RunWritesAreQuiet(s: State, r: nat, sources: seq<Source>)
    requires Keyed(s) && r < |s.running| && s.running[r].todo != []
    ensures var after := RunWrote(s, r, sources);
            var run := s.running[r];
            var entry := Entry(run.todo[0].op, run.who.id, Some(run.job.sourceKey));
            && after == s.(audit := s.audit + [entry], jobs := s.jobs + (if run.todo[0].dispatch.webhook then [WebhookJob(entry, 3)] else []),
                           running := s.running[r := run.(todo := run.todo[1..])])
            && run.job.sourceKey != "" && entry == Audited(Some(run.who), run.todo[0].op)
  {
    var run := s.running[r];
    var entry := Audited(Some(run.who), run.todo[0].op);
    assert KeyedRun(run);
    RunsAreMarkedIff(run.job.runAs, run.job.sourceKey, run.todo[0].op);
    assert Enrichments(sources, entry) == [];
    assert s.jobs + Webhook(entry, run.todo[0].dispatch) + [] == s.jobs + Webhook(entry, run.todo[0].dispatch);
  }

  lemma {:induction false} EnrichmentsAreKeyed(sources: seq<Source>, entry: Entry)
    requires KeysDeclared(sources)
    ensures forall k :: 0 <= k < |Enrichments(sources, entry)| ==>
                          Enrichments(sources, entry)[k].RunJob? && Enrichments(sources, entry)[k].sourceKey != ""
  {
    var triggered := EnrichSourcesFor(sources, entry.op);
    forall k | 0 <= k < |triggered|
      ensures triggered[k].key != ""
    {
      FilterMember(sources, (x: Source) => TriggeredBy(x, entry.op), triggered[k]);
      assert triggered[k] in triggered;
    }
  }

  lemma {:induction false} WriteKeepsKeyed(s: State, sources: seq<Source>, who: Option<Identity>, w: Write)
    requires Keyed(s) && KeysDeclared(sources)
    ensures Keyed(Wrote(s, sources, who, w))
  {
    var entry := Audited(who, w.op);
    EnrichmentsAreKeyed(sources, entry);
    var hooks, taken := Webhook(entry, w.dispatch), Taken(Enrichments(sources, entry), w.dispatch.enrichments);
    var jobs := s.jobs + hooks + taken;
    forall k | 0 <= k < |jobs|
      ensures KeyedJob(jobs[k])
    {
      if k < |s.jobs| {
        assert jobs[k] == s.jobs[k];
      } else if k < |s.jobs| + |hooks| {
        assert jobs[k] == hooks[k - |s.jobs|];
      } else {
        assert jobs[k] == taken[k - |s.jobs| - |hooks|];
      }
    }
  }

  lemma {:induction false} WithoutMember<T>(s: seq<T>, i: nat, k: nat)
    requires i < |s| && k < |Without(s, i)|
    ensures Without(s, i)[k] == if k < i then s[k] else s[k + 1]
  {}

  lemma {:induction false} WorkerKeepsKeyed(s: State, step: Step, limit: nat)
    requires Keyed(s) && Enabled(s, step, limit) && ByWorker(step)
    ensures Keyed(After(s, step))
  {
    match step
    case DeliverStep(i, ending) =>
      forall k | 0 <= k < |Without(s.jobs, i)|
        ensures KeyedJob(Without(s.jobs, i)[k])
      {
        WithoutMember(s.jobs, i, k);
      }
    case ClaimStep(i, writes) =>
      forall k | 0 <= k < |Without(s.jobs, i)|
        ensures KeyedJob(Without(s.jobs, i)[k])
      {
        WithoutMember(s.jobs, i, k);
      }
      assert KeyedJob(s.jobs[i]);
    case RunWriteStep(r, sources) =>
      RunWritesAreQuiet(s, r, sources);
    case FinishStep(r, ending) =>
      forall k | 0 <= k < |Without(s.running, r)|
        ensures KeyedRun(Without(s.running, r)[k])
      {
        WithoutMember(s.running, r, k);
      }
      assert KeyedRun(s.running[r]);
  }

  lemma {:induction false} StepKeepsKeyed(s: State, step: Step, limit: nat)
    requires Keyed(s) && Enabled(s, step, limit)
    ensures Keyed(After(s, step))
  {
    if step.WriteStep? {
      WriteKeepsKeyed(s, step.sources, step.who, step.write);
    } else if ByWorker(step) {
      WorkerKeepsKeyed(s, step, limit);
    }
  }

  // ---------------------------------------------------------------------------
  // The queue drains
  // ---------------------------------------------------------------------------

  function Sum<T>(s: seq<T>, f: T -> nat): nat {
    if s == [] then 0 else f(s[0]) + Sum(s[1..], f)
  }

  lemma {:induction false} SumAppend<T>(a: seq<T>, b: seq<T>, f: T -> nat)
    ensures Sum(a + b, f) == Sum(a, f) + Sum(b, f)
  {
    if a == [] {
      assert a + b == b;
    } else {
      SumAppend(a[1..], b, f);
      assert (a + b)[1..] == a[1..] + b;
    }
  }

  lemma {:induction false} SumOne<T>(x: T, f: T -> nat)
    ensures Sum([x], f) == f(x)
  {
    assert [x][1..] == [];
  }

  lemma {:induction false} SumWithout<T>(s: seq<T>, i: nat, f: T -> nat)
    requires i < |s|
    ensures Sum(s, f) == Sum(Without(s, i), f) + f(s[i])
  {
    assert s == s[..i] + ([s[i]] + s[i + 1..]);
    SumAppend(s[..i], [s[i]] + s[i + 1..], f);
    SumAppend([s[i]], s[i + 1..], f);
    SumAppend(s[..i], s[i + 1..], f);
    SumOne(s[i], f);
  }

  lemma {:induction false} SumUpdate<T>(s: seq<T>, i: nat, x: T, f: T -> nat)
    requires i < |s|
    ensures Sum(s[i := x], f) + f(s[i]) == Sum(s, f) + f(x)
  {
    SumWithout(s, i, f);
    SumWithout(s[i := x], i, f);
    assert Without(s[i := x], i) == Without(s, i);
  }

  /** A run costs a claim and an ending for each attempt. */
  function RunCost(): Job -> nat { (j: Job) => if j.RunJob? then 2 * j.attemptsLeft + 2 else 0 }

  function HookCost(): Job -> nat { (j: Job) => if j.WebhookJob? then j.attemptsLeft + 1 else 0 }

  function RunningCost(): Running -> nat { (r: Running) => 2 * r.job.attemptsLeft + 1 }

  function TodoCost(): Running -> nat { (r: Running) => |r.todo| }

  /** Attempts still owed to runs, pending or running. */
  function OwedRuns(s: State): nat { Sum(s.jobs, RunCost()) + Sum(s.running, RunningCost()) }

  /** Writes the running ones have still to make. */
  function OwedWrites(s: State): nat { Sum(s.running, TodoCost()) }

  /** Attempts still owed to webhooks. */
  function OwedHooks(s: State): nat { Sum(s.jobs, HookCost()) }

  /** The triple falls, read from the left. */
  predicate Spends(s: State, after: State) {
    || OwedRuns(after) < OwedRuns(s)
    || (OwedRuns(after) == OwedRuns(s) && OwedWrites(after) < OwedWrites(s))
    || (OwedRuns(after) == OwedRuns(s) && OwedWrites(after) == OwedWrites(s) && OwedHooks(after) < OwedHooks(s))
  }

  lemma {:induction false} RetriedCosts(job: Job, ending: Ending)
    ensures Sum(Retried(job, ending), RunCost()) <= if job.RunJob? then 2 * job.attemptsLeft else 0
    ensures Sum(Retried(job, ending), HookCost()) <= if job.WebhookJob? then job.attemptsLeft else 0
  {
    var left := Retried(job, ending);
    if left != [] {
      SumOne(left[0], RunCost());
      SumOne(left[0], HookCost());
    }
  }

  lemma {:induction false} DeliverSpends(s: State, i: nat, ending: Ending)
    requires i < |s.jobs| && s.jobs[i].WebhookJob?
    ensures Spends(s, Delivered(s, i, ending))
  {
    RetriedCosts(s.jobs[i], ending);
    SumWithout(s.jobs, i, RunCost());
    SumWithout(s.jobs, i, HookCost());
    SumAppend(Without(s.jobs, i), Retried(s.jobs[i], ending), RunCost());
    SumAppend(Without(s.jobs, i), Retried(s.jobs[i], ending), HookCost());
  }

  lemma {:induction false} ClaimSpends(s: State, i: nat, writes: seq<Write>)
    requires i < |s.jobs| && s.jobs[i].RunJob?
    ensures Spends(s, Claimed(s, i, writes))
  {
    var run := Running(s.jobs[i], UserForRunAs(s.jobs[i].runAs, s.jobs[i].sourceKey), writes);
    SumWithout(s.jobs, i, RunCost());
    SumAppend(s.running, [run], RunningCost());
    SumOne(run, RunningCost());
  }

  lemma {:induction false} RunWriteSpends(s: State, r: nat, sources: seq<Source>)
    requires Keyed(s) && r < |s.running| && s.running[r].todo != []
    ensures Spends(s, RunWrote(s, r, sources))
  {
    RunWritesAreQuiet(s, r, sources);
    var run := s.running[r];
    var hooks := Webhook(Audited(Some(run.who), run.todo[0].op), run.todo[0].dispatch);
    SumUpdate(s.running, r, run.(todo := run.todo[1..]), RunningCost());
    SumUpdate(s.running, r, run.(todo := run.todo[1..]), TodoCost());
    SumAppend(s.jobs, hooks, RunCost());
    if hooks != [] { SumOne(hooks[0], RunCost()); }
  }

  lemma {:induction false} FinishSpends(s: State, r: nat, ending: Ending)
    requires Keyed(s) && r < |s.running|
    ensures Spends(s, Finished(s, r, ending))
  {
    assert KeyedRun(s.running[r]);
    RetriedCosts(s.running[r].job, ending);
    SumWithout(s.running, r, RunningCost());
    SumAppend(s.jobs, Retried(s.running[r].job, ending), RunCost());
  }

  /** Each step of the worker lowers (attempts owed to runs, writes they have still to make, attempts owed to webhooks), and enqueues no enrichment. */
  lemma {:induction false} WorkerSpends(s: State, step: Step, limit: nat)
    requires Keyed(s) && Enabled(s, step, limit) && ByWorker(step)
    ensures Spends(s, After(s, step)) && After(s, step).enriched == s.enriched
  {
    match step
    case DeliverStep(i, ending) => DeliverSpends(s, i, ending);
    case ClaimStep(i, writes) => ClaimSpends(s, i, writes);
    case RunWriteStep(r, sources) => RunWriteSpends(s, r, sources); RunWritesAreQuiet(s, r, sources);
    case FinishStep(r, ending) => FinishSpends(s, r, ending);
  }

  predicate Idle(s: State) {
    s.jobs == [] && s.running == []
  }

  /** What the worker does at one tick: go on with a run or take a job, which one, finding what, ending how. */
  datatype Choice = Choice(resume: bool, pick: nat, writes: seq<Write>, sources: seq<Source>, giveUp: bool, ending: Ending)

  function StepOf(s: State, c: Choice): (step: Step)
    requires !Idle(s)
    ensures Enabled(s, step, 0) && ByWorker(step)
  {
    if s.running != [] && (c.resume || s.jobs == []) then
      var r := c.pick % |s.running|;
      if s.running[r].todo == [] || c.giveUp then FinishStep(r, c.ending) else RunWriteStep(r, c.sources)
    else
      var i := c.pick % |s.jobs|;
      if s.jobs[i].WebhookJob? then DeliverStep(i, c.ending) else ClaimStep(i, c.writes)
  }

  lemma {:induction false} Pick(i: nat, n: nat)
    requires i < n
    ensures i % n == i
  {}

  /** Every step the worker can take is one some choice takes. */
  lemma {:induction false} ChoicesCover(s: State, step: Step, limit: nat) returns (c: Choice)
    requires Enabled(s, step, limit) && ByWorker(step)
    ensures !Idle(s) && StepOf(s, c) == step
  {
    match step
    case DeliverStep(i, ending) =>
      c := Choice(false, i, [], [], false, ending);
      Pick(i, |s.jobs|);
    case ClaimStep(i, writes) =>
      c := Choice(false, i, writes, [], false, Failed);
      Pick(i, |s.jobs|);
    case RunWriteStep(r, sources) =>
      c := Choice(true, r, [], sources, false, Failed);
      Pick(r, |s.running|);
    case FinishStep(r, ending) =>
      c := Choice(true, r, [], [], true, ending);
      Pick(r, |s.running|);
  }

  function Next(s: State, c: Choice): State
    requires !Idle(s)
  {
    After(s, StepOf(s, c))
  }

  /** `n` ticks of the worker on a queue nobody else writes to; an idle tick changes nothing. */
  function Worked(s: State, schedule: nat -> Choice, from: nat, n: nat): State
    decreases n
  {
    if n == 0 || Idle(s) then s else Worked(Next(s, schedule(from)), schedule, from + 1, n - 1)
  }

  lemma {:induction false} NextSpends(s: State, c: Choice)
    requires Keyed(s) && !Idle(s)
    ensures Keyed(Next(s, c)) && Spends(s, Next(s, c)) && Next(s, c).enriched == s.enriched
  {
    WorkerSpends(s, StepOf(s, c), 0);
    WorkerKeepsKeyed(s, StepOf(s, c), 0);
  }

  lemma {:induction false} WorkedStep(s: State, next: State, schedule: nat -> Choice, from: nat, n: nat)
    requires !Idle(s) && next == Next(s, schedule(from))
    ensures Worked(s, schedule, from, n + 1) == Worked(next, schedule, from + 1, n)
  {}

  /**
   * Once users stop writing, the queue drains: whatever order the worker takes jobs in, however many
   * runs it keeps going at once, whatever each finds to write and however its attempts end, some number
   * of ticks leaves nothing pending and nothing running, and no enrichment was enqueued on the way.
   */
  lemma {:induction false} QueueDrains(s: State, schedule: nat -> Choice, from: nat) returns (n: nat)
    requires Keyed(s)
    ensures Idle(Worked(s, schedule, from, n))
    ensures Worked(s, schedule, from, n).enriched == s.enriched
  {
    n := DrainsFrom(s, schedule, from, OwedRuns(s), OwedWrites(s), OwedHooks(s));
  }

  /** `n` ticks leave nothing pending or running, and enqueue no enrichment. */
  ghost predicate DrainedBy(s: State, schedule: nat -> Choice, from: nat, n: nat) {
    Idle(Worked(s, schedule, from, n)) && Worked(s, schedule, from, n).enriched == s.enriched
  }

  lemma {:induction false} DrainsLater(s: State, next: State, schedule: nat -> Choice, from: nat, n: nat)
    requires !Idle(s) && next == Next(s, schedule(from)) && next.enriched == s.enriched && DrainedBy(next, schedule, from + 1, n)
    ensures DrainedBy(s, schedule, from, n + 1)
  {
    WorkedStep(s, next, schedule, from, n);
  }

  lemma {:induction false} DrainsFrom(s: State, schedule: nat -> Choice, from: nat, runs: nat, writes: nat, hooks: nat) returns (n: nat)
    requires Keyed(s) && runs == OwedRuns(s) && writes == OwedWrites(s) && hooks == OwedHooks(s)
    ensures DrainedBy(s, schedule, from, n)
    decreases runs, writes, hooks
  {
    if Idle(s) {
      n := 0;
    } else {
      var next := Next(s, schedule(from));
      NextSpends(s, schedule(from));
      var rest := DrainsFrom(next, schedule, from + 1, OwedRuns(next), OwedWrites(next), OwedHooks(next));
      DrainsLater(s, next, schedule, from, rest);
      n := rest + 1;
    }
  }

  // ---------------------------------------------------------------------------
  // Whole runs
  // ---------------------------------------------------------------------------

  /** `states` is a run from an empty process with at most `limit` enrich sources declared at any time. */
  ghost predicate IsRun(states: seq<State>, steps: seq<Step>, limit: nat) {
    && |states| == |steps| + 1
    && states[0] == State([], [], [], 0)
    && forall k :: 0 <= k < |steps| ==> Enabled(states[k], steps[k], limit) && states[k + 1] == After(states[k], steps[k])
  }

  lemma {:induction false} EveryRunIsKeyed(states: seq<State>, steps: seq<Step>, limit: nat, k: nat)
    requires IsRun(states, steps, limit) && k < |states|
    ensures Keyed(states[k])
  {
    if k > 0 {
      EveryRunIsKeyed(states, steps, limit, k - 1);
      assert Enabled(states[k - 1], steps[k - 1], limit);
      StepKeepsKeyed(states[k - 1], steps[k - 1], limit);
    }
  }

  /** Entries no source run is named on. */
  function Unmarked(audit: seq<Entry>): nat {
    Sum(audit, (e: Entry) => if Marked(e) then 0 else 1)
  }

  /** Writes that no run made. */
  function OwnWrites(steps: seq<Step>): nat {
    Sum(steps, (x: Step) => if x.WriteStep? then 1 else 0)
  }

  lemma {:induction false} UnmarkedSnoc(audit: seq<Entry>, e: Entry)
    ensures Unmarked(audit + [e]) == Unmarked(audit) + if Marked(e) then 0 else 1
  {
    var f := (x: Entry) => if Marked(x) then 0 else 1;
    SumAppend(audit, [e], f);
    SumOne(e, f);
  }

  lemma {:induction false} OwnWritesSnoc(steps: seq<Step>, k: nat)
    requires k < |steps|
    ensures OwnWrites(steps[..k + 1]) == OwnWrites(steps[..k]) + if steps[k].WriteStep? then 1 else 0
  {
    var f := (x: Step) => if x.WriteStep? then 1 else 0;
    assert steps[..k + 1] == steps[..k] + [steps[k]];
    SumAppend(steps[..k], [steps[k]], f);
    SumOne(steps[k], f);
  }

  /** A step's entry, if it audits one, is unmarked exactly when nobody's run wrote it. */
  lemma {:induction false} StepMarks(s: State, step: Step, limit: nat)
    requires Keyed(s) && Enabled(s, step, limit)
    ensures Unmarked(After(s, step).audit) == Unmarked(s.audit) + if step.WriteStep? then 1 else 0
  {
    match step
    case WriteStep(sources, who, w) => UnmarkedSnoc(s.audit, Audited(who, w.op));
    case RunWriteStep(r, sources) =>
      RunWritesAreQuiet(s, r, sources);
      UnmarkedSnoc(s.audit, Audited(Some(s.running[r].who), s.running[r].todo[0].op));
    case EnqueueStep(_) =>
    case DeliverStep(_, _) =>
    case ClaimStep(_, _) =>
    case FinishStep(_, _) =>
  }

  /** In every run the audit tells who wrote: the entries naming no source are exactly as many as the writes no source run made. */
  lemma {:induction false} AuditTellsWho(states: seq<State>, steps: seq<Step>, limit: nat, k: nat)
    requires IsRun(states, steps, limit) && k < |states|
    ensures Unmarked(states[k].audit) == OwnWrites(steps[..k])
  {
    if k > 0 {
      AuditTellsWho(states, steps, limit, k - 1);
      EveryRunIsKeyed(states, steps, limit, k - 1);
      assert Enabled(states[k - 1], steps[k - 1], limit);
      StepMarks(states[k - 1], steps[k - 1], limit);
      OwnWritesSnoc(steps, k - 1);
    }
  }

  lemma {:induction false} FilterShortens<T>(s: seq<T>, p: T -> bool)
    ensures |Filter(s, p)| <= |s|
  {
    if s != [] {
      FilterShortens(s[1..], p);
    }
  }

  /** One write enqueues at most one enrichment per declared source. */
  lemma {:induction false} StepCosts(s: State, step: Step, limit: nat)
    requires Keyed(s) && Enabled(s, step, limit)
    ensures After(s, step).enriched <= s.enriched + if step.WriteStep? then limit else 0
  {
    if step.WriteStep? {
      FilterShortens(step.sources, (x: Source) => TriggeredBy(x, step.write.op));
    } else if ByWorker(step) {
      WorkerSpends(s, step, limit);
    }
  }

  /**
   * In every run the enrichments ever enqueued are at most the writes no source run made times the
   * enrich sources declared: a source's own writes, however they interleave with others, add none.
   */
  lemma {:induction false} EnrichmentsAreBounded(states: seq<State>, steps: seq<Step>, limit: nat, k: nat)
    requires IsRun(states, steps, limit) && k < |states|
    ensures states[k].enriched <= OwnWrites(steps[..k]) * limit
  {
    var enriched := Map(states, (s: State) => s.enriched);
    forall j | 0 <= j < |steps|
      ensures enriched[j + 1] <= enriched[j] + if steps[j].WriteStep? then limit else 0
    {
      RunStepCosts(states, steps, limit, j);
    }
    BoundedSum(enriched, steps, limit, k);
  }

  /** A count that starts at nothing and grows by `limit` at most, and only where nobody's run writes. */
  lemma {:induction false} BoundedSum(enriched: seq<nat>, steps: seq<Step>, limit: nat, k: nat)
    requires |enriched| == |steps| + 1 && enriched[0] == 0 && k <= |steps|
    requires forall j :: 0 <= j < |steps| ==> enriched[j + 1] <= enriched[j] + if steps[j].WriteStep? then limit else 0
    ensures enriched[k] <= OwnWrites(steps[..k]) * limit
  {
    if k > 0 {
      BoundedSum(enriched, steps, limit, k - 1);
      OwnWritesSnoc(steps, k - 1);
      StillBounded(enriched[k - 1], enriched[k], OwnWrites(steps[..k - 1]), limit, steps[k - 1].WriteStep?);
    }
  }

  lemma {:induction false} RunStepCosts(states: seq<State>, steps: seq<Step>, limit: nat, k: nat)
    requires IsRun(states, steps, limit) && k < |steps|
    ensures states[k + 1].enriched <= states[k].enriched + if steps[k].WriteStep? then limit else 0
  {
    EveryRunIsKeyed(states, steps, limit, k);
    assert Enabled(states[k], steps[k], limit);
    StepCosts(states[k], steps[k], limit);
  }

  lemma {:induction false} StillBounded(before: nat, after: nat, own: nat, limit: nat, wrote: bool)
    requires before <= own * limit && after <= before + if wrote then limit else 0
    ensures after <= (own + if wrote then 1 else 0) * limit
  {
    assert (own + 1) * limit == own * limit + limit;
  }

  /** In every run, the queue drains from any point at which users stop writing. */
  lemma {:induction false} EveryRunDrains(states: seq<State>, steps: seq<Step>, limit: nat, k: nat, schedule: nat -> Choice) returns (n: nat)
    requires IsRun(states, steps, limit) && k < |states|
    ensures Idle(Worked(states[k], schedule, 0, n))
  {
    EveryRunIsKeyed(states, steps, limit, k);
    n := QueueDrains(states[k], schedule, 0);
  }

  // ---------------------------------------------------------------------------
  // The guard needs a key
  // ---------------------------------------------------------------------------

  function Loop(): Source {
    Source("", "book", false, true, 1)
  }

  function LoopWrite(): Write {
    Write(Op("book", Update, "b1"), Dispatch(false, 1))
  }

  function LoopEntry(): Entry {
    Entry(LoopWrite().op, "u1", None)
  }

  function LoopJob(): Job {
    RunJob("", Some("b1"), UserRun("u1"), 1)
  }

  function LoopChoice(): Choice {
    Choice(true, 0, [LoopWrite()], [Loop()], false, Succeeded)
  }

  function LoopState(audit: seq<Entry>, enriched: nat): State {
    State(audit, [LoopJob()], [], enriched)
  }

  function LoopRun(todo: seq<Write>): Running {
    Running(LoopJob(), UserForRunAs(UserRun("u1"), ""), todo)
  }

  lemma {:induction false} LoopEnriches()
    ensures Audited(Some(UserForRunAs(UserRun("u1"), "")), LoopWrite().op) == LoopEntry()
    ensures Enrichments([Loop()], LoopEntry()) == [LoopJob()]
  {
    assert [Loop()][1..] == [] && EnrichSourcesFor([Loop()], LoopEntry().op) == [Loop()];
  }

  lemma {:induction false} LoopClaims(audit: seq<Entry>, enriched: nat)
    ensures Next(LoopState(audit, enriched), LoopChoice())
            == State(audit, [], [LoopRun([LoopWrite()])], enriched)
  {
    assert Without([LoopJob()], 0) == [];
  }

  lemma {:induction false} LoopWrites(audit: seq<Entry>, enriched: nat)
    ensures var s := State(audit, [], [LoopRun([LoopWrite()])], enriched);
            Next(s, LoopChoice()) == State(audit + [LoopEntry()], [LoopJob()], [LoopRun([])], enriched + 1)
  {
    LoopEnriches();
    assert [LoopWrite()][1..] == [];
    assert [LoopRun([LoopWrite()])][0 := LoopRun([])] == [LoopRun([])];
    assert [] + [] + [LoopJob()] == [LoopJob()];
  }

  lemma {:induction false} LoopFinishes(audit: seq<Entry>, enriched: nat)
    ensures var s := State(audit, [LoopJob()], [LoopRun([])], enriched);
            Next(s, LoopChoice()) == LoopState(audit, enriched)
  {
    assert Without([LoopRun([])], 0) == [] && [LoopJob()] + [] == [LoopJob()];
  }

  /** A source under an empty key enriches its own output for ever; the key pattern forbids such a key. */
  lemma {:induction false} EmptyKeyLoops(audit: seq<Entry>, enriched: nat, from: nat, n: nat)
    ensures Worked(LoopState(audit, enriched), (k: nat) => LoopChoice(), from, 3 * n)
            == LoopState(audit + seq(n, _ => LoopEntry()), enriched + n)
    decreases n
  {
    if n == 0 {
      assert audit + seq(0, _ => LoopEntry()) == audit;
    } else {
      LoopRound(audit, enriched, from, 3 * n - 3);
      EmptyKeyLoops(audit + [LoopEntry()], enriched + 1, from + 3, n - 1);
      OneMoreEntry(audit, n);
    }
  }

  lemma {:induction false} OneMoreEntry(audit: seq<Entry>, n: nat)
    requires n > 0
    ensures audit + [LoopEntry()] + seq(n - 1, _ => LoopEntry()) == audit + seq(n, _ => LoopEntry())
  {}

  /** Three ticks put the same job back. */
  lemma {:induction false} LoopRound(audit: seq<Entry>, enriched: nat, from: nat, n: nat)
    ensures Worked(LoopState(audit, enriched), (k: nat) => LoopChoice(), from, n + 3)
            == Worked(LoopState(audit + [LoopEntry()], enriched + 1), (k: nat) => LoopChoice(), from + 3, n)
  {
    var schedule := (k: nat) => LoopChoice();
    var claimed := State(audit, [], [LoopRun([LoopWrite()])], enriched);
    var wrote := State(audit + [LoopEntry()], [LoopJob()], [LoopRun([])], enriched + 1);
    LoopClaims(audit, enriched);
    WorkedStep(LoopState(audit, enriched), claimed, schedule, from, n + 2);
    LoopWrites(audit, enriched);
    WorkedStep(claimed, wrote, schedule, from + 1, n + 1);
    LoopFinishes(audit + [LoopEntry()], enriched + 1);
    WorkedStep(wrote, LoopState(audit + [LoopEntry()], enriched + 1), schedule, from + 2, n);
  }
}
