# A verified model of the MaxStack runtime's hard parts

This project models how a MaxStack server turns a spec into a running application, and proves
what that is supposed to guarantee. Nothing of the original program is executed here.

## What is modelled

| files | what they model |
|---|---|
| `Spec`, `Grounding`, `RollupMeaning`, `RollupView`, `GroundedPlans` | The grounding compiler: field ids become column names; a declaration that names a missing field is dropped whole. Declared and grounded expressions and rollups have independent meanings, and grounding is proved to preserve them, for rollups exactly when their path stays in view. |
| `RollupLimit` | Which groups of a grouped rollup each owner of a page is shown. |
| `SproutCache` | The grounded project kept between requests, re-grounded when a fingerprint changes. |
| `Sources`, `SyncRepeat`, `Updates` | Applying a source run's writes, failures included; running a sync twice; what single writes and runs of updates leave, cell by cell. |
| `FanOut`, `Cascade` | One schedule fire over many tenants through an idempotent queue; the loop from a write to the audit sink to a job to the writes of its run, one step for each write, with a termination measure. |
| `PercentEncoding`, `Routes` | The project's URLs: printers, and the context-dependent parser that must undo them. |
| `Rank`, `BoardMove` | Rank keys between rank keys, and dropping a card into a sorted board column. |
| `LiveServer` | Live channels on any number of instances: opens, plan changes, connections, announcements and fan-outs interleaved at every `await`. |
| `LiveRows`, `LiveStream` | The client's row list against a keyed map, and its stream, poll and stop states. |
| `Surfaces`, `SurfaceText`, `BlastRadius`, `Captions`, `Acceptance` | The inventory of what a spec produces, the exact diff of two inventories and of two specs, and the accepted-or-all rule seen from the inventory. |
| `Sitemap`, `Robots` | The sitemap's budget, selection and escaping; `robots.txt` printed and read back by the longest match. |
| `DemoData`, `DemoRuns` | Loading and removing sample rows, in one process and under any interleaving of seeds, clears, user writes and crashes. |
| `Changelog` | Cutting the commit history into releases without losing a commit. |
| `Collections`, `Sorting`, `Strings`, `Lex` | Shared sequence operations, sorting by a comparator, text and its order. |

Code that loops over mutable state is a method or a class with its loop invariants, tied by its
postcondition to a specification function; what the source promises is proved about that function. Every
`await` is a point where other steps may run, so the concurrent parts are step systems and their
theorems range over whole runs. Clocks, the network, stores and generated ids are parameters or events.

## Where a promise turned out false

Each has a lemma with the input that breaks it, or the exact condition under which it holds.

- A dropped card does not always land where it was dropped: an index past the keyed cards, a gap
  between equal keys, or a stored rank that is no key moves it (`LandsWhereAsked`, `TiedGapLandsBelow`,
  `MalformedRankIsCrossed`), and then repeating the drop writes again (`RepeatWritesNothing`).
- A rollup through an entity that is not in view still grounds, cut to a prefix of its path, and then
  attributes rows to the wrong owner: it means what was declared on every database exactly when its path
  stays in view or no row passes its filters (`HopsCompleteIff`, `CutPathChangesOwner`,
  `RollupPreservedIff`).
- A grouped rollup's limit holds for the whole page before it holds for each owner, so an owner of many
  groups can leave another with fewer than it is due: never, whatever the order, exactly when an owner's
  series fits beside everybody else's groups (`LargeOwnerStarvesAnother`, `ShownIsOwnIff`,
  `ServedInAnyOrderIff`).
- An action over two fields under one column name writes part of its set (`ActionWritesAllIff`,
  `SharedNameWritesPart`).
- A match column the resource lacks overwrites the first row: an upsert touches no row but its own
  exactly when the column is there (`UnknownMatchColumnHitsFirstRow`, `UpsertTouchesOwnRowIff`).
- A user listed often enough in one organization loses the others while `truncated` stays false: exactly
  when the rows read name no more than the bound and some organization is named only after them
  (`RepeatedMembershipsHideOrgs`, `HiddenSilentlyIff`).
- A subscriber that is handed a channel and then awaits its identity can join it after it was replaced,
  and is told nothing (`LateSubscriberDangles`).
- `use-live-rows.ts` says a transport error starts polling alongside the stream; the code only raises a
  flag, which a recovered stream never lowers (`OnlyAStatedClosePolls`, `PollingMeansEverFailed`). A poll
  of the channel just left can still write its rows (`CleanupCanBeOvertaken`).
- `robots.txt` is documented as allowing portal by portal; a key is a prefix, so `/p/team` opens
  `/p/team-salaries` (`HiddenPortalIff`). A path that is not rooted is never disallowed (`RobotsAgree`).
- The sitemap can exceed the protocol's limit by one entry for each portal after the first, exactly when
  all portals but the last already fill it (`LimitIsExceeded`, `OverTheLimitIff`), skips rows without an
  id silently (`RowsAreAccountedFor`), and past the limit reports rows dropped where there were none
  (`PhantomDrops`).
- The cache's fingerprint joins bundle slugs with commas, so a slug that holds one can be served another
  reading's posture: exactly when two readings in a row share shapes and joined slugs and only one of
  them has auth (`CommaSlugsCollide`, `AllFreshIff`).
- The diff of two specs leaves a form's old caption where a colon in a block's id lets two routes share
  its id: exactly when a form kept its id and its inputs and changed its route (`ColonKeepsOldCaption`,
  `DerivedPatchIsExactIff`).
- Two seeds at once leave one's rows untracked (`ConcurrentSeedsLoseTrack`; `StepKeepsTrackedIff` says of
  every step when it does). A clear drops the whole manifest as if every id in it were gone; rows under
  an entity removed since stay (`ClearForgetsIff`).
- Commits newer than a release already made of the staged version are told nowhere
  (`NewerCommitsAreUncovered`), and so is every commit whose subject begins with `chore(release)`, release
  or not: `chore(release): rotate the npm token` is neither listed nor counted (`HousekeepingIsDropped`,
  `ToldNowhereIff`, `TellsTheUnreleasedIff`).

## Where a promise rests on something elsewhere

Each of these inputs would break a promise, and no code path of the repository gives it today; the lemma
says what the promise rests on.

- An empty source key would defeat the guard against enrichment loops (`RunsAreMarkedIff`,
  `EmptyKeyLoops`); the key pattern of `packages/spec` forbids one. A colon in a source key would let two
  syncs share an idempotency key (`ColonKeysCollide`); the same pattern forbids it.
- A batch over two match fields would not be safe to repeat (`MixedFieldsRepeatCreates`); a sync run
  writes one match field for all its upserts.
- A clear would delete a user's row under the very key of a deleted sample row (`ReusedKeyIsCleared`,
  `ClearTakesOthersIff`); no op lets a writer choose a key and the store never hands one out twice, and
  then no clear ever takes anybody else's row (`FreshKeysAreSafe`).
- A live row under a numeric key would never be removed (`NumericKeysAreNeverRemoved`), and sample rows
  under one never cleared (`SeedThenClear`); channels are declared over spec entities, whose keys are
  generated uuids, and the keys of every resource a project registers are text.

## Model

| member | source | states |
|---|---|---|
| `Spec.AcceptedOrAllSpec` | packages/spec/src/base/provenance.ts:196-201 | a row is built exactly when it is accepted or no row of its collection is |
| `Spec.BuiltIff` | packages/spec/src/base/provenance.ts:196-201 | so for the fields, computed values and rollups of an entity and for the entities of a spec |
| `Grounding.GroundsIff` | apps/web/app/spec-sprout.ts:117-146 | an expression grounds exactly when it is well formed and every leaf is a field of the accepted view |
| `Grounding.ExprPreserved` | packages/maxstack-core/src/sprout/derived.ts:140-171 | a grounded expression evaluates, on every row that shows a record under column names, to what the declared one denotes on the record's ids |
| `Grounding.OperationDenotes` | packages/maxstack-core/src/sprout/derived.ts:140-171 | a declared operation denotes the sum, difference, product or quotient of its sides, and nothing exactly when a side denotes nothing or it divides by zero |
| `Grounding.NamedCellsShow` | apps/web/app/spec-sprout.ts:117-146 | with distinct column names every record can be shown so, so the preservation is never vacuous |
| `Grounding.GroundComputed` | apps/web/app/spec-sprout.ts:149-158 | the loop keeps, in order, exactly the computed values that ground |
| `Grounding.WalkHops` | apps/web/app/spec-sprout.ts:170-255 | the walk over a rollup's hops resolves each id on the entity reached so far, and stops where the path leaves the view |
| `Grounding.WalkFilters` | apps/web/app/spec-sprout.ts:170-255 | the filter loop grounds all conditions or none |
| `Grounding.GroundRollups` | apps/web/app/spec-sprout.ts:170-255 | the loop with its `continue`s keeps, in order, exactly the rollups that ground |
| `RollupMeaning.HopsArePrefix` | apps/web/app/spec-sprout.ts:170-255 | grounded hops are a non-empty prefix of the declared path, hop for hop |
| `RollupMeaning.HopsCompleteIff` | apps/web/app/spec-sprout.ts:170-255 | no hop is lost exactly when every hop but the last lands on an entity of the view |
| `RollupMeaning.RollupPlanIs` | apps/web/app/spec-sprout.ts:170-255 | a grounded rollup, part by part: entity, name, aggregate, limit and bucket as declared, each filter and the group key on its field's column |
| `RollupMeaning.DeclaredContributes` | packages/maxstack-core/src/sprout/derived.ts:255-338 | a declared rollup ranges over a contribution exactly when a record passes every filter, its path reaches the owner and the group key and value are the record's own; a null equals nothing |
| `RollupMeaning.OwnersPreserved` | packages/maxstack-core/src/sprout/derived.ts:255-338 | a complete grounded path joins each row to exactly the owners the declared path reaches |
| `RollupMeaning.RollupPreserved` | packages/maxstack-core/src/sprout/derived.ts:255-338 | on every database a grounded rollup whose path stays in view aggregates exactly the declared contributions (owner, group key, value) under the declared aggregate |
| `RollupMeaning.RollupGroundsIff` | apps/web/app/spec-sprout.ts:170-255 | a rollup grounds exactly when every id it names resolves in the view |
| `RollupMeaning.CutPathChangesOwner` | apps/web/app/spec-sprout.ts:170-255 | a two-hop path through a rejected entity grounds cut to one hop and attributes rows to another key |
| `RollupView.TablesShow` | apps/web/app/spec-sprout.ts:170-255 | with table names and column names apart every database of declared records can be shown, so the preservation is never vacuous |
| `RollupView.LeavingChangesMeaning` | apps/web/app/spec-sprout.ts:170-255 | a path that leaves the view, under filters some row can pass, has a database on which the grounded rollup means something else than the declared one |
| `RollupView.RollupPreservedIff` | apps/web/app/spec-sprout.ts:170-255 | a grounded rollup means what was declared on every database exactly when its path stays in the view or no row can pass its filters |
| `RollupView.UnfilteredPreservedIff` | apps/web/app/spec-sprout.ts:170-255 | without filters, exactly when its path stays in the view |
| `RollupLimit.GroupRollupRows` | packages/maxstack-core/src/sprout/derived.ts:373-391 | the folding loop keeps for each owner that came back its first groups, up to the limit, in order |
| `RollupLimit.SeriesIs` | packages/maxstack-core/src/sprout/derived.ts:373-391 | an owner's series is its first groups, each its key and its value, up to the limit |
| `RollupLimit.ShownIsOwnIff` | packages/maxstack-core/src/sprout/derived.ts:255-338 | an owner is shown a prefix of its own first groups, and all of them exactly when as many of its groups as it is due are among the rows the query returns |
| `RollupLimit.ServedInAnyOrderIff` | packages/maxstack-core/src/sprout/derived.ts:255-338 | whatever order the groups come in, an owner is shown its own series exactly when it is due none or its series fits in the query's limit beside every group of every other owner |
| `RollupLimit.ShortSeriesAreSafe` | packages/maxstack-core/src/sprout/derived.ts:255-338 | when no owner of the page has more groups than the limit, every owner is shown all it has |
| `RollupLimit.LargeOwnerStarvesAnother` | packages/maxstack-core/src/sprout/derived.ts:255-338 | with a limit of one, the two largest groups of one owner leave another owner nothing |
| `GroundedPlans.GroundPortals` | apps/web/app/spec-sprout.ts:577-649 | the portal loop returns, in order, the plans of the accepted portals that ground, nothing for none |
| `GroundedPlans.ResolvesIff` | apps/web/app/spec-sprout.ts:577-649 | where fields have names, an id resolves exactly when it is a field of the view |
| `GroundedPlans.ColumnIff` | apps/web/app/spec-sprout.ts:577-649 | an id stands for the column of the last field of the view that has it, when that field has a name |
| `GroundedPlans.PortalGroundsIff` | apps/web/app/spec-sprout.ts:577-649 | a portal grounds exactly when every field it reads, writes or filters by resolves, it reads something, and a collection has its bound |
| `GroundedPlans.PortalSound` | apps/web/app/spec-sprout.ts:577-649 | a grounded portal keeps its key, audience, scope and pause and serves its entity's resource; it has every id replaced by its column in order, its write limits, a bound if a collection, and a title among its exposed columns |
| `GroundedPlans.TitleIsExposed` | packages/maxstack-core/src/sprout/from-spec.ts:760-776 | the title column, when there is one, is among the exposed columns |
| `GroundedPlans.TitleIs` | packages/maxstack-core/src/sprout/from-spec.ts:760-776 | the title is `name`, else `title`, else the first of the exposed text columns, and none exactly when there is none with a name |
| `GroundedPlans.PortalsKept` | apps/web/app/spec-sprout.ts:577-649 | the grounded portals are the complete declarations, in declaration order |
| `GroundedPlans.PortalsServed` | apps/web/app/spec-sprout.ts:577-649 | a plan is served exactly when it is the plan of an accepted portal over the entity, and there is no list exactly when none grounds |
| `GroundedPlans.GroundLive` | apps/web/app/spec-sprout.ts:675-725 | the channel loop returns, in order, the plans of the channels that ground |
| `GroundedPlans.ChannelGroundsIff` | apps/web/app/spec-sprout.ts:675-725 | a channel grounds exactly when its columns and its bound resolve, keeps its key, kind, caps and pause, and is bounded by the declared field's column, never by less |
| `GroundedPlans.ChannelsKept` | apps/web/app/spec-sprout.ts:675-725 | the grounded channels are the complete declarations, in order |
| `GroundedPlans.ChannelsServed` | apps/web/app/spec-sprout.ts:675-725 | a plan is served exactly when it is the plan of a channel over the entity that is accepted, or of any when no channel of the spec is |
| `GroundedPlans.GroundImporters` | apps/web/app/spec-sprout.ts:502-551 | the importer loop returns, in order, the plans of the importers that ground |
| `GroundedPlans.ImporterGroundsIff` | apps/web/app/spec-sprout.ts:502-551 | an importer grounds exactly when it maps something and every field it names is in view; it keeps its key, cap and pause, its columns in order, each on the name and type of its field, and upserts on the declared key or not at all, as declared |
| `GroundedPlans.ImportersKept` | apps/web/app/spec-sprout.ts:502-551 | the grounded importers are the complete declarations, in order |
| `GroundedPlans.ImportersServed` | apps/web/app/spec-sprout.ts:502-551 | a plan is served exactly when it is the plan of an importer over the entity |
| `GroundedPlans.GroundActions` | apps/web/app/spec-sprout.ts:767-815 | the action loop returns, in order, the plans of the actions that ground |
| `GroundedPlans.ActionGroundsIff` | apps/web/app/spec-sprout.ts:767-815 | an action grounds exactly when every field it writes or offers is in view and it writes something |
| `GroundedPlans.ActionSound` | apps/web/app/spec-sprout.ts:767-815 | a grounded action keeps its key and cap, offers the chosen field's column and options and nothing when it chooses none, and writes exactly the columns its entries name, each with the last value named |
| `GroundedPlans.ActionsKept` | apps/web/app/spec-sprout.ts:767-815 | the grounded actions are the complete declarations, in order |
| `GroundedPlans.ActionsServed` | apps/web/app/spec-sprout.ts:767-815 | a plan is served exactly when it is the plan of an accepted action over the entity |
| `GroundedPlans.ActionWritesAllIff` | apps/web/app/spec-sprout.ts:767-815 | a grounded action writes every declared entry with its value exactly when the declared fields have different column names |
| `GroundedPlans.SharedNameWritesPart` | apps/web/app/spec-sprout.ts:767-815 | two fields under one name: an action over both writes one column |
| `SproutCache.GroundedEntityShapes` | apps/web/app/spec-sprout.ts:817-921 | the shapes are those of the built entities, each grounded by the loops above |
| `SproutCache.ShapesAreOf` | apps/web/app/spec-sprout.ts:817-921 | there is one shape for each accepted entity, or for each when none is, in declaration order |
| `SproutCache.ShapeIs` | apps/web/app/spec-sprout.ts:817-921 | a shape's name, and its fields in order with name, type, requirement, options and reference; its derived values are those that ground, and absent exactly when none is declared |
| `SproutCache.ShapeServes` | apps/web/app/spec-sprout.ts:817-921 | the portals, channels, importers and actions a shape serves are exactly those declared over its entity that ground under each kind's own rule of acceptance |
| `SproutCache.ReferenceGroundsIff` | apps/web/app/spec-sprout.ts:82-108 | a reference stays a plain column exactly when it names the virtual user, nothing declared shadows it and its bundle is missing |
| `SproutCache.ReferenceIs` | apps/web/app/spec-sprout.ts:82-108 | a reference points at the declared entity's table and display field, at the bundle's user table when nothing declared shadows it, or at the table any other id names |
| `SproutCache.ShapesSeeOnlyAuth` | apps/web/app/spec-sprout.ts:82-108 | installed bundles shape the grounding only by whether the auth bundle is among them |
| `SproutCache.MissingReferenceBundles` | apps/web/app/spec-sprout.ts:928-944 | the warning names a bundle exactly when some built field's reference does not ground for want of it |
| `SproutCache.FingerprintTellsShapes` | apps/web/app/sprout.server.ts:366-373 | equal fingerprints mean equal shapes and equal joined slugs, whatever the slugs hold |
| `SproutCache.Server.GroundProject` | apps/web/app/sprout.server.ts:362-407 | one request's grounding: the kept state on a hit, otherwise a re-sync that carries the backend and auth |
| `SproutCache.CacheAgreesWithFresh` | apps/web/app/sprout.server.ts:362-407 | in every run of requests and edits over readings that agree, each request is served what grounding its own reading from scratch gives |
| `SproutCache.NextFreshIff` | apps/web/app/sprout.server.ts:362-407 | after a request served afresh, the next is served afresh exactly when the two readings do not share shapes and joined slugs while one has auth and the other has not |
| `SproutCache.AllFreshIff` | apps/web/app/sprout.server.ts:362-407 | every request of a run is served afresh exactly when no two readings in a row disagree so |
| `SproutCache.SlugsAgree` | apps/web/app/sprout.server.ts:362-407 | slugs that are not empty and hold no comma always agree |
| `SproutCache.OneBackendOneAuth` | apps/web/app/sprout.server.ts:362-407 | one backend is opened and one auth built in every run, whatever is read |
| `SproutCache.KeptWasFresh` | apps/web/app/sprout.server.ts:362-407 | what is kept is always what grounding some earlier request's reading gives, never a mixture |
| `SproutCache.RegistryIs` | apps/web/app/sprout.server.ts:374-407 | writes need a session exactly when auth is installed, users are a resource exactly when it is and no entity has the name, and each shape's rollups stand under its name |
| `SproutCache.SameReadingSyncsNothing` | apps/web/app/sprout.server.ts:362-407 | a request re-syncs exactly when the shapes or the joined slugs changed since the last |
| `SproutCache.CommaSlugsCollide` | apps/web/app/sprout.server.ts:372-373 | a slug with a comma makes two bundle lists share a fingerprint |
| `Sources.ToColumns` | apps/web/app/sources.server.ts:187-205 | values keyed by field id become values keyed by column, the last one under a column winning, unknown ids left out |
| `Updates.ColumnValuesAt` | apps/web/app/sources.server.ts:187-205 | a column is given a value exactly when some entry's field has it, and then the last one given |
| `Sources.Store.ApplyWritesWith` | apps/web/app/sources.server.ts:243-295 | the loop leaves the table the fold of the writes leaves and collects one failure for each write that fails |
| `Sources.OnlyAppliedWritesCount` | apps/web/app/sources.server.ts:243-295 | the table is what the successful writes alone would have left, and a run throws exactly when a write failed |
| `Updates.UpdateIsExact` | apps/web/app/sources.server.ts:259-266 | an update asks its gate, is refused when no row has the key or none of its values has a column there, and otherwise lays its known columns over that row's cells |
| `Updates.UpdateLands` | apps/web/app/sources.server.ts:259-266 | cell by cell: a column given a value holds the last one given, every other cell of the row and every other row is as it was, and the write lands exactly when it gives a column of the resource a value |
| `Updates.UpsertIsExact` | apps/web/app/sources.server.ts:267-286 | an upsert asks to list by its match column, and is an update of the first row the filter admits, or a new row under the next key when it admits none |
| `Updates.UpdatesLand` | apps/web/app/sources.server.ts:243-295 | after a run of updates each row has its own cells and, over them, the last value any of its updates gave each column; nothing is created or moved, and the failures are as many as the updates that name no row or no column |
| `SyncRepeat.FirstRun` | packages/features/src/sources/service.ts:268-332 | after a batch every match value has a row that has absorbed the batch |
| `SyncRepeat.MatchedRun` | apps/web/app/sources.server.ts:243-295 | a run over rows that all match creates nothing, moves nothing and folds each value's writes into its own row |
| `SyncRepeat.SyncRepeats` | apps/web/app/sources.server.ts:243-295 | running a batch twice leaves the table the first run left, whatever the table held and however often a value repeats |
| `SyncRepeat.DistinctNamesCarry` | packages/features/src/sources/service.ts:268-332 | the upserts a sync run writes carry their match field at its match value when column names differ |
| `SyncRepeat.MixedFieldsRepeatCreates` | apps/web/app/sources.server.ts:243-295 | a batch over two match fields, which a sync run never writes, creates a row on its second run |
| `SyncRepeat.UnknownMatchColumnHitsFirstRow` | apps/web/app/sources.server.ts:243-295 | a match column the resource lacks overwrites its first row |
| `SyncRepeat.UpsertTouchesOwnRowIff` | apps/web/app/sources.server.ts:243-295 | on every table an upsert that lands updates a row already holding its match value or creates one, exactly when its match column is one of the resource's or none of its values has a column there |
| `SyncRepeat.RunSparesOthers` | apps/web/app/sources.server.ts:243-295 | a run, whatever fails in it, leaves as it was every row none of its writes is aimed at |
| `FanOut.EnumerationSound` | apps/web/app/sprout.server.ts:1545-1582 | the enumerated organizations are real and each listed once, at most the bound, and `truncated` is true only when there are more |
| `FanOut.EnumerationExact` | apps/web/app/sprout.server.ts:1545-1582 | when every row is a different organization the enumeration is the first of them in the order read, complete up to the bound, and `truncated` says exactly that there are more |
| `FanOut.HiddenSilentlyIff` | apps/web/app/sprout.server.ts:1545-1582 | for memberships and for the service role: `truncated` says exactly that the rows read name more organizations than the bound, so organizations are lost in silence exactly when they name no more and some organization is named only after them |
| `FanOut.RepeatedMembershipsHideOrgs` | apps/web/app/sprout.server.ts:1545-1582 | repeated memberships of one organization hide the others with `truncated` false |
| `FanOut.KeysAreDistinct` | packages/features/src/sources/queue.ts:88-96 | within one occurrence an idempotency key determines its source and its organization |
| `FanOut.ColonKeysCollide` | packages/features/src/sources/queue.ts:88-96 | a colon in a source key would let two syncs share a key |
| `FanOut.JobQueue.Enqueue` | packages/features/src/jobs/service.ts:239-274 | a job is added unless its idempotency key is already held |
| `FanOut.EnqueueSyncsWith` | apps/web/app/sources.server.ts:399-454 | the loops enqueue the fan-out of one occurrence and report how many runs it has |
| `FanOut.RedeliveryAddsNothing` | apps/web/app/sources.server.ts:399-454 | a re-delivered occurrence adds no job, whatever else the queue holds by then |
| `FanOut.FireIsBounded` | packages/spec/src/base/schedules.ts:241-273 | a fire asks for sources times organizations jobs, never more than sources times the ceiling |
| `FanOut.FireCovers` | apps/web/app/sources.server.ts:399-454 | every source has its job in every organization within the bound |
| `FanOut.FireAsksNoMore` | apps/web/app/sources.server.ts:399-454 | every job is one source's in one organization within the bound |
| `FanOut.FireIsExact` | apps/web/app/sources.server.ts:399-454 | job by job: source after source, one in each of the first organizations in their order, under the key of source, instant and organization, acting there as declared and claiming no fan-out; the rest are counted as skipped |
| `FanOut.PlainFireIsExact` | apps/web/app/sources.server.ts:406-410 | a fire that does not fan out asks for one job of each source, in order, run as declared, under keys that differ |
| `FanOut.FireKeysDistinct` | apps/web/app/sources.server.ts:344 | the jobs of one fire have pairwise distinct keys and are all appended to a queue that holds none of them |
| `Cascade.RunsAreMarkedIff` | apps/web/app/sources.server.ts:126-146 | what a run writes, under either kind of authority, is marked with its source's key exactly when the key is not empty |
| `Cascade.EventBus.WriteOp` | packages/maxstack-core/src/sprout/operations.ts:508-535 | an op's entry says who wrote it and copies the identity's source key when there is one |
| `Cascade.EventBus.Record` | apps/web/app/sprout.server.ts:1362-1428 | the sink keeps the entry, dispatches a webhook and enqueues the enrichments the guard lets through, best effort |
| `Cascade.EventBus.EnqueueWriteEnrichments` | apps/web/app/sources.server.ts:469-500 | one enrichment for each declared source the write triggers, none for a deletion or an anonymous writer |
| `Cascade.EnrichmentsAreExact` | apps/web/app/sources.server.ts:469-500 | an entry no source run wrote, that names a row and whose writer is somebody, asks in declaration order for one run of each source over its resource with its action's trigger, as the writer, on the row, under the source's budget; any other entry asks for none |
| `Cascade.EnrichedIff` | packages/spec/src/base/sources.ts:876-887 | a run is asked for exactly when it is that of a declared source over the written resource with the trigger of the write |
| `Cascade.OwnWriteEnqueues` | apps/web/app/sprout.server.ts:1362-1428 | a write by a user or by nobody leaves an entry naming the writer and no source, a webhook's job if the bus took it, and then those enrichments, as many as the queue took |
| `Cascade.EventBus.Claim` | packages/features/src/jobs/service.ts:278-295 | a run is taken off the queue under the identity it borrows |
| `Cascade.ClaimTakes` | packages/features/src/jobs/service.ts:278-295 | a claimed run leaves the queue wherever it stood and runs, with all its writes to make, as the service role or user it borrows, stamped with its key |
| `Cascade.EventBus.RunNextWrite` | apps/web/app/sources.server.ts:243-295 | a run makes its next write, and nothing else, between two awaits |
| `Cascade.EventBus.Finish` | packages/features/src/jobs/service.ts:297-336 | a run that fails is put back with one attempt less while its budget lasts |
| `Cascade.EventBus.Deliver` | packages/features/src/jobs/service.ts:278-336 | a webhook's attempt writes no row and is retried while its budget lasts |
| `Cascade.EndsReturn` | packages/features/src/jobs/service.ts:297-336 | a run that ends and a webhook's attempt come back at the end of the queue exactly when they failed and have an attempt left |
| `Cascade.BudgetIsExact` | packages/features/src/jobs/service.ts:278-336 | a job whose attempts all fail is attempted exactly as often as its budget says: until its last attempt it waits with what is left of it, then it is gone |
| `Cascade.RunWritesAreQuiet` | packages/features/src/sources/queue.ts:67-71 | a running run's write is marked with its key and adds no job but a webhook |
| `Cascade.WorkerSpends` | packages/features/src/jobs/service.ts:278-336 | each step of the worker lowers (attempts owed to runs, writes they have still to make, attempts owed to webhooks) and enqueues no enrichment |
| `Cascade.QueueDrains` | apps/web/app/sprout.server.ts:1188-1197 | once users stop writing, every schedule of steps, with any number of runs under way at once, leaves nothing pending and nothing running |
| `Cascade.AuditTellsWho` | packages/maxstack-core/src/sprout/operations.ts:508-535 | in every run the entries that name no source are exactly as many as the writes no source run made |
| `Cascade.EnrichmentsAreBounded` | apps/web/app/sources.server.ts:469-500 | in every run the enrichments ever enqueued are at most the writes no source made times the declared enrich sources |
| `Cascade.EveryRunDrains` | apps/web/app/sprout.server.ts:1362-1428 | from any point of any run at which users stop writing, the queue drains |
| `Cascade.EmptyKeyLoops` | packages/features/src/sources/queue.ts:67-71 | a source under an empty key would enrich its own output for ever |
| `PercentEncoding.RoundTrip` | apps/web/app/reschedule.ts:156-158 | decoding undoes percent-encoding for every string |
| `PercentEncoding.EncodedIsSegment` | apps/web/app/reschedule.ts:156-158 | an encoded id is one path segment, and empty only for the empty id |
| `PercentEncoding.EncodesTo` | apps/web/app/reschedule.ts:156-158 | letters, digits and nine marks stand for themselves, every other character is its UTF-8 bytes in capital hexadecimal |
| `PercentEncoding.DecodesIff` | apps/web/app/project-routes.ts:403-438 | a segment decodes to an id exactly when it spells it, character by character, plain or escaped in either case; anything malformed, overlong or no scalar value is refused |
| `Routes.RoutesAreVisible` | apps/web/app/project-routes.ts:279-319 | a page is navigable exactly when it is declared, accepted or nothing is, and has no flag or one that is on; its slug is its route's |
| `Routes.RoutesInOrder` | apps/web/app/project-routes.ts:279-319 | the routes are the navigable pages in declaration order |
| `Routes.PageAtIsFirst` | apps/web/app/project-routes.ts:403-410 | a slug stands for the first navigable page that has it, and for nothing exactly when none has |
| `Routes.SlugOfTrims` | apps/web/app/project-routes.ts:247-248 | a slug is its route without the slashes at either end, and nothing else is taken away |
| `Routes.ListRoundTrip` | apps/web/app/page-path.ts:24-25 | the URL of a navigable page resolves to its list, of declared pages sharing a slug the first |
| `Routes.NewRoundTrip` | apps/web/app/project-routes.ts:403-438 | a navigable page's create and parse URLs resolve back exactly when no navigable page owns them |
| `Routes.RecordRoundTripIff` | apps/web/app/reschedule.ts:156-158 | on a navigable page a record's URL resolves back to the record exactly when the id is non-empty, not reserved, owned by no navigable page and, on the root page, key-shaped |
| `Routes.RecordMatch` | apps/web/app/project-routes.ts:403-438 | the URL of a non-empty id means the page that owns it if one does, else create, parse or edit on the page, by the id |
| `Routes.KeyShapeIff` | apps/web/app/project-routes.ts:350-356 | a key is all digits, or 36 hexadecimal digits but for dashes at four places |
| `Routes.OnlyVisiblePages` | apps/web/app/project-routes.ts:403-438 | no path resolves to a page that is undeclared, unbuilt or hidden |
| `Routes.DeclaredPageWins` | apps/web/app/project-routes.ts:403-438 | a path is a page's list exactly when a navigable page has its slug, and then the first such page's, so a declared page beats any other reading |
| `Rank.Midpoint` | packages/ui/src/resource/rank.ts:76-95 | the digit loops return a valid key strictly between two valid keys |
| `Rank.HalfWay` | packages/ui/src/resource/rank.ts:76-95 | where the first digits leave room the key is one digit, half way between them and rounded up |
| `Rank.CompareRankedTotal` | packages/ui/src/resource/rank.ts:115-124 | the display order is total: exactly one of before, same, after |
| `Rank.RankForDrop` | packages/ui/src/resource/rank.ts:133-164 | the loops over neighbours never throw and return the key of the specified gap |
| `Rank.DropResorts` | packages/ui/src/resource/rank.ts:133-164 | re-sorting after a drop keeps the siblings' order and puts the card at its landing position |
| `Rank.DropStands` | packages/ui/src/resource/rank.ts:133-164 | whatever ranks the siblings carry, the card stands where as many of them as sort before it are above, and they keep their order |
| `Rank.DropBetweenKeys` | packages/ui/src/resource/rank.ts:133-164 | whatever ranks they carry, every card above the drop that has a key stays above, and every card below whose key is greater stays below |
| `Rank.LandsWhereAsked` | packages/ui/src/resource/rank.ts:133-164 | the landing position is the asked index exactly when the index is within the keyed cards and not inside a run of equal keys |
| `Rank.TiedGapLandsBelow` | packages/ui/src/resource/rank.ts:133-164 | a drop between two cards with one key lands below both |
| `Rank.MalformedRankIsCrossed` | packages/ui/src/resource/rank.ts:133-164 | a card dropped below a stored rank that is text and no key lands above it |
| `BoardMove.MoveValues` | apps/web/app/board-move.ts:50-96 | a writing drop gives a new rank key, and the group column only when it changes |
| `BoardMove.CardLands` | apps/web/app/board-move.ts:50-96 | after a writing drop the destination column is its other cards with the card where its new key puts it, which over keyed or missing ranks is the landing position; every other column is unchanged, and no other column of the row is written |
| `BoardMove.NullIffAlreadyThere` | apps/web/app/board-move.ts:50-96 | an allowed move writes nothing exactly when the card already stands at the asked position of the asked column |
| `BoardMove.RepeatWritesNothing` | apps/web/app/board-move.ts:50-96 | repeating a drop writes nothing exactly when the first put the card where asked; over keyed or missing ranks, exactly when the index was within the keyed cards and not inside a run of equal keys |
| `BoardMove.UnrankedMove` | apps/web/app/board-move.ts:50-96 | without a rank field a move writes the group column alone, and nothing when it already holds |
| `BoardMove.ColumnHolds` | apps/web/app/board-move.ts:50-96 | a column shows exactly the rows whose group is its value, in rank order |
| `LiveServer.Server.BeginOpen` | apps/web/app/live.server.ts:69-78 | the segment before the await: find the plan, ask for the listener once |
| `LiveServer.Server.AttachListener` | apps/web/app/live.server.ts:160-173 | the once-only promise attaches the fan-out to the coordinator |
| `LiveServer.Server.FinishOpen` | apps/web/app/live.server.ts:79-95 | the segment after the await, the request that waited longest first: refuse, reuse an equal plan's channel, or close it and put a new one under the key; the channel returned carries the request's plan |
| `LiveServer.OpenReplacesIff` | apps/web/app/live.server.ts:79-95 | an open changes nothing exactly when it is refused or the key's channel runs under an equal plan; otherwise one new channel takes the key, the old one is closed and its connections hung up on, and nothing else changes |
| `LiveServer.Server.FanOutLocally` | apps/web/app/live.server.ts:140-147 | an uninterrupted fan-out publishes once on each channel of the map that is a query over the resource, and on no other |
| `LiveServer.EventKeepsValid` | apps/web/app/live.server.ts:69-173 | every event keeps the listener before any channel, replaced channels closed, and publishes unrepeated |
| `LiveServer.EveryRunIsValid` | apps/web/app/live.server.ts:69-173 | in every interleaving on every instance: a channel exists only after the one listener, exactly the replaced channels are closed, no open connection is on one unless it came too late, and no delivery publishes twice on a channel or at all on one that is no query over the resource |
| `LiveServer.AdmittedIff` | packages/maxstack-core/src/sprout/live.ts:443-456 | a connection is admitted exactly when the channel is not paused, has fewer open connections than its plan allows, and is given the bound it needs |
| `LiveServer.EveryRunIsWithinCapacity` | packages/maxstack-core/src/sprout/live.ts:443-456 | in every run no channel, replaced ones included, has more open connections than its plan allows, and a paused one has none |
| `LiveServer.ListenerAskedIff` | apps/web/app/live.server.ts:160-173 | in every run the listener has been asked for exactly when a request has begun |
| `LiveServer.FanOutIsExact` | apps/web/app/live.server.ts:140-147 | when a delivery's loop is over, a channel that held its key throughout was published to exactly once if it is a query over the resource, and not at all otherwise |
| `LiveServer.UninterruptedFanOut` | apps/web/app/live.server.ts:140-147 | as many turns as the map has keys and one more end a fan-out nobody interrupts, and leave what the loop run at once leaves |
| `LiveServer.HearingBeginsOne` | apps/web/app/live.server.ts:160-173 | one announcement heard begins exactly one fan-out once the listener is attached, none before |
| `LiveServer.LastToFinishDecides` | apps/web/app/live.server.ts:69-95 | in every run the plan under a key is the one found by the last request for it to finish and not be refused |
| `LiveServer.FinishInOrder` | apps/web/app/live.server.ts:69-79 | in every run the requests begun on an instance are, in order, those it has finished and then those that wait |
| `LiveServer.NewestPlanWins` | apps/web/app/live.server.ts:69-95 | in every run, once only refused requests wait for a key, the plan under it is the newest one found for it and not refused, and an older plan never replaces a newer |
| `LiveServer.DeclaredPlanIsServed` | apps/web/app/live.server.ts:60-95 | once a request has begun under what is declared now and none waits, the channel under the key runs under what is declared now |
| `LiveServer.LateSubscriberDangles` | apps/web/app/live.server.ts:272-293 | a caller that awaits its identity between getting a channel and subscribing can join a replaced channel and be told nothing |
| `LiveRows.UpsertRefines` | apps/web/app/use-live-rows.ts:51-58 | an upsert keeps keys unique and is one update of the keyed map |
| `LiveRows.UpsertPlaces` | apps/web/app/use-live-rows.ts:51-58 | a changed row takes the place of the row under its key and stands last when there is none |
| `LiveRows.RowsRefineTable` | apps/web/app/use-live-rows.ts:115-130 | from a seed with unique keys every message sequence leaves unique keys and the keyed map's rows |
| `LiveRows.LastWriteWins` | apps/web/app/use-live-rows.ts:115-130 | each key holds its last row message, is absent after a removal, and otherwise holds the seed's row |
| `LiveRows.SurvivorsKeepOrder` | apps/web/app/use-live-rows.ts:51-58 | seed rows no message removes keep their order among one another |
| `LiveRows.NumericKeysAreNeverRemoved` | apps/web/app/use-live-rows.ts:123-127 | a row under a numeric key survives every message sequence |
| `LiveStream.Surface.OnClose` | apps/web/app/use-live-rows.ts:135-146 | a stated close stops for a revoked permission and otherwise falls back to one poll timer |
| `LiveStream.Surface.OnAnswer` | apps/web/app/use-live-rows.ts:93-99 | a poll's answer is dropped when it is no success or the effect has stopped |
| `LiveStream.EveryRunIsValid` | apps/web/app/use-live-rows.ts:85-157 | over every event sequence a poll timer means the stream is closed, at most one timer is ever started, and a stopped effect holds no stream |
| `LiveStream.RevokedIsFinal` | apps/web/app/use-live-rows.ts:135-146 | after a revoked permission neither stream nor poll changes the rows again: they are the loader's last |
| `LiveStream.CleanupLeavesReads` | apps/web/app/use-live-rows.ts:93-99 | a cleaned-up effect writes rows only for polls already past their check, and none when there are none |
| `LiveStream.CleanupCanBeOvertaken` | apps/web/app/use-live-rows.ts:93-99 | such a poll does write the rows of the channel just left |
| `LiveStream.PollingMeansEverFailed` | apps/web/app/use-live-rows.ts:135-150 | the polling flag is up exactly when it was or the stream failed once, and no permission was revoked |
| `LiveStream.OnlyAStatedClosePolls` | apps/web/app/use-live-rows.ts:147-150 | polling starts exactly on a stated close that is no revocation; an error alone polls nothing |
| `LiveStream.ClosedTellsWhy` | apps/web/app/use-live-rows.ts:135-146 | the reason shown is the one the stream's close stated, if it stated one, and a stream is closed at most once |
| `LiveStream.PollsAreAccounted` | apps/web/app/use-live-rows.ts:93-113 | the polls answered and in flight are those the timer started and the one that falling back starts |
| `LiveStream.RowsFollow` | apps/web/app/use-live-rows.ts:76-130 | a new seed and a poll's body replace the rows, and the stream's messages are laid over them from then on |
| `LiveStream.StreamRowsRefineTable` | apps/web/app/use-live-rows.ts:115-130 | until a seed or a poll, the surface shows the keyed map its stream has written |
| `Surfaces.LivePublicFields` | packages/mcp/src/blast-radius.ts:144-157 | the loop over the exposure report keeps the rows of live portals, the last one for a field winning |
| `Surfaces.PublishedIff` | packages/spec/src/base/portals.ts:376-380 | a field is publicly readable or writable exactly when a portal under an active portal's id reads or writes it |
| `SurfaceText.LastPortalIsNamed` | packages/mcp/src/blast-radius.ts:144-157 | the portal named for a public field publishes it, and no portal that does has a later key |
| `Surfaces.DeriveSurfaces` | packages/mcp/src/blast-radius.ts:191-271 | the nested loops produce the specified inventory, entities first, then pages |
| `SurfaceText.DerivedIff` | packages/mcp/src/blast-radius.ts:191-271 | the inventory lists exactly the tables, payloads, tools, columns, exposures, routes and forms of what is built, each under its id, caption and detail |
| `SurfaceText.NamesShown` | packages/mcp/src/blast-radius.ts:191-271 | a list of fields is shown as its names in text order, joined by a comma and a space |
| `Surfaces.KindFromId` | packages/mcp/src/blast-radius.ts:191-271 | surfaces under one id are of one kind |
| `Surfaces.DerivedKinded` | packages/mcp/src/blast-radius.ts:191-271 | every derived surface's id begins with its kind |
| `BlastRadius.Compare` | packages/mcp/src/blast-radius.ts:371-385 | the loop over what is there after finds the added, the changed and how many are the same |
| `BlastRadius.Missing` | packages/mcp/src/blast-radius.ts:386-388 | the loop over what was there before finds the removed |
| `BlastRadius.DiffIsExact` | packages/mcp/src/blast-radius.ts:364-388 | the three lists hold exactly what the two inventories differ in |
| `BlastRadius.PatchGivesAfter` | packages/mcp/src/blast-radius.ts:364-421 | applying the diff to the inventory before gives the inventory after, up to captions, and exactly if and only if no surface changed its caption alone |
| `Captions.DerivedPatchIsExactIff` | packages/mcp/src/blast-radius.ts:364-421 | applying the diff of two specs to what the first produces gives exactly what the second produces, captions included, if and only if no form kept its id and its inputs and changed its route |
| `Captions.DerivedPatchIsExact` | packages/mcp/src/blast-radius.ts:364-421 | so it does between any two specs whose form blocks have no colon in their ids |
| `Captions.ColonFormsShareAnId` | packages/mcp/src/blast-radius.ts:191-271 | a colon in a block's id lets forms on two routes share an id under different captions |
| `Captions.ColonKeepsOldCaption` | packages/mcp/src/blast-radius.ts:364-421 | between two specs whose forms share an id so, the diff does not lead from the one inventory to the other |
| `BlastRadius.EverySurfaceCounted` | packages/mcp/src/blast-radius.ts:364-388 | added, changed and same count the distinct ids after; removed, changed and same those before |
| `BlastRadius.WorstFirst` | packages/mcp/src/blast-radius.ts:311-314 | each list is sorted worst kind first, then by id, and is a permutation of what the loops found |
| `BlastRadius.SeverityIs` | packages/mcp/src/blast-radius.ts:73-82 | worse is earlier among public field, public write, table, column, route, form, REST payload, tool, and of one kind the lesser id |
| `BlastRadius.TouchesPublicIff` | packages/mcp/src/blast-radius.ts:394-398 | the flag is up exactly when some publicly readable or writable surface differs |
| `BlastRadius.SwapReverses` | packages/mcp/src/blast-radius.ts:364-421 | with the arguments swapped, added and removed change places, each change is reversed in its place, as many surfaces are the same, and the public flag stays |
| `BlastRadius.EffectAccounts` | packages/mcp/src/blast-radius.ts:562-621 | the captions shown and the number omitted make up the diff, at most five to a list, and the public flag is always told |
| `BlastRadius.EffectShows` | packages/mcp/src/blast-radius.ts:562-621 | the reply shows the first five captions of each list, worst first, and counts the rest |
| `BlastRadius.CoverageIs` | packages/mcp/src/blast-radius.ts:512-547 | six ops are presentation, of the others four families are modelled and the rest are not |
| `BlastRadius.EffectTellsTheTruth` | packages/mcp/src/blast-radius.ts:541-621 | the reply says changed exactly when the inventories differ, unchanged exactly when they agree under a covered op, and nothing otherwise |
| `Acceptance.SettlingIsInvisible` | packages/mcp/src/blast-radius.ts:191-271 | accepting every row of the undecided collections, whatever is decided elsewhere, leaves the inventory as it was |
| `Acceptance.AcceptAllIsInvisible` | packages/mcp/src/blast-radius.ts:332-355 | on a spec with nothing decided, accepting every row changes no surface |
| `Acceptance.SettledIs` | packages/spec/src/base/provenance.ts:196-201 | settling accepts every row of an undecided collection, leaves every other collection as it was and changes nothing else |
| `Acceptance.DerivedIds` | packages/mcp/src/blast-radius.ts:191-271 | which ids an inventory has: a built entity's table, REST payload, tool and fields, a built page's route and forms, and no other |
| `Acceptance.ChoosingRemoves` | packages/mcp/src/blast-radius.ts:191-271 | accepting some fields of an undecided entity adds no surface, and removes those of its other fields that no remaining surface shares an id with |
| `Acceptance.ChoosingRemovesExactly` | packages/mcp/src/blast-radius.ts:191-271 | with unambiguous names it removes exactly the other fields' column and public surfaces |
| `Sitemap.CrawlableKeysIff` | apps/web/app/sitemap.ts:106-111 | the crawlable keys are exactly those of unpaused public portals |
| `Sitemap.BuildSitemap` | apps/web/app/sitemap.ts:133-185 | the loop visits the indexable portals in order |
| `Sitemap.VisitPortal` | apps/web/app/sitemap.ts:144-182 | one portal's turn: its page, its rows within the budget, and a record of a failed read or a cut |
| `Sitemap.TurnIs` | apps/web/app/sitemap.ts:144-182 | within the limit: the portal's page, an entry for each row kept that has an id, in order and with its date, and one record of a failed read or of how many rows were cut, under the portal's key |
| `Sitemap.UrlsAre` | packages/spec/src/base/site.ts:410-416 | the address of a portal and of a row is the domain and the path under `/p/` without slashes at its end |
| `Sitemap.PortalsInOrder` | apps/web/app/sitemap.ts:93-99 | portals are visited in the order of their keys |
| `Sitemap.NearTheLimit` | apps/web/app/sitemap.ts:53-53 | over reads that honour their limit the list exceeds the protocol's limit by at most one entry for each portal after the first |
| `Sitemap.LimitIsExceeded` | apps/web/app/sitemap.ts:144-151 | portals that can fill the budget reach that bound |
| `Sitemap.OverTheLimitIff` | apps/web/app/sitemap.ts:133-185 | over reads that answer the first of a fixed list of named rows, the sitemap exceeds the protocol's limit exactly when the home page and the pages and rows of all portals but the last already reach it |
| `Sitemap.OnlyPublicIsListed` | apps/web/app/sitemap.ts:93-99 | nothing is listed but the home page, the pages of unpaused public collection portals and rows their own reads answered |
| `Sitemap.EveryIndexablePageIsListed` | apps/web/app/sitemap.ts:144-145 | every such portal's own page is listed, whatever its read answers |
| `Sitemap.RowsAreAccountedFor` | apps/web/app/sitemap.ts:164-182 | while the budget lasts the rows read are the entries made, the rows counted as dropped and the rows without an id, and nothing is dropped silently exactly when every row kept has one |
| `Sitemap.PhantomDrops` | apps/web/app/sitemap.ts:164-171 | past the limit a portal asked for no rows is reported as having dropped some |
| `Sitemap.PagesCoverMinimally` | apps/web/app/sitemap.ts:222-224 | the pages one after another are the entries, each but the last holds ten thousand, and one page fewer would lose some |
| `Sitemap.EscapeIsOnePass` | apps/web/app/sitemap.ts:189-196 | the five replacements in a row are one substitution for each character |
| `Sitemap.EscapeRoundTrip` | apps/web/app/sitemap.ts:189-196 | an XML reader gets every escaped value back (section 4.6 of XML 1.0) |
| `Sitemap.RenderRobots` | apps/web/app/sitemap.ts:238-256 | the lines pushed are the specified document |
| `Sitemap.RobotsLinesAre` | apps/web/app/sitemap.ts:238-256 | the document line by line, with a site and without |
| `Robots.RobotsDisallows` | apps/web/scripts/check-seo.ts:351-369 | the loop over lines compares the longest disallow rule that matches with the longest allow rule that does |
| `Robots.RuleIff` | apps/web/scripts/check-seo.ts:356-358 | a line gives a rule exactly when it is the name in any case, white space or none, and the rule, white space around them or none |
| `Robots.LongestMatchWins` | apps/web/scripts/check-seo.ts:351-369 | a path is disallowed exactly when some matching disallow rule is longer than every matching allow rule (section 2.2.2 of RFC 9309) |
| `Robots.OpenRules` | apps/web/app/sitemap.ts:238-256 | reading the printed document back gives its rules and no other |
| `Robots.NothingIsPublic` | apps/web/app/sitemap.ts:238-246 | with no site exactly the rooted paths are disallowed |
| `Robots.RobotsAgree` | apps/web/scripts/check-seo.ts:351-369 | with a site a path is disallowed exactly when it is rooted, not the home page and under no unpaused public portal's key |
| `Robots.HiddenPortalIff` | apps/web/app/sitemap.ts:226-232 | a portal's pages are disallowed exactly when no crawlable key is a prefix of its key |
| `DemoData.MergeManifest` | packages/features/src/demo-mode/manifest.ts:103-121 | the nested loops fold new ids into the manifest, each once |
| `DemoData.MergeClaims` | packages/features/src/demo-mode/manifest.ts:103-121 | merging claims exactly what was claimed and what was created, and keeps every earlier record in place |
| `DemoData.Project.SeedDemoData` | apps/web/app/sprout.server.ts:452-492 | bundle rows, then sample rows for each resource still empty, then the manifest |
| `DemoData.SeedIsExact` | packages/features/src/demo-mode/seeder.ts:56-100 | a registered resource without rows gets every generated row, one with rows gets none, and no row there is changed |
| `DemoData.SeedTwiceIsOnce` | apps/web/app/sprout.server.ts:442-467 | loading a second time adds no row and claims none, whatever keys it would generate |
| `DemoData.Project.ClearDemoData` | packages/features/src/demo-mode/seeder.ts:123-150 | the listed rows are removed and the manifest goes away; the ids deleted and the ids missing, those under resources that are gone among them, are exactly the ids listed |
| `DemoData.ClearedSpec` | packages/features/src/demo-mode/seeder.ts:123-150 | a clear removes exactly the rows claimed under resources that still exist |
| `DemoData.ClearForgetsIff` | apps/web/app/sprout.server.ts:508-531 | a claimed row is left behind with nothing knowing of it exactly when one stands under a resource the registry no longer has |
| `DemoData.SeedReports` | packages/features/src/demo-mode/seeder.ts:56-100 | a seed changes no existing row and reports exactly the rows it added whose keys are strings |
| `DemoData.SeedThenClear` | apps/web/app/sprout.server.ts:452-531 | a seed then a clear, with nothing tracked before, leaves the rows there were, the bundles' rows and those sample rows whose keys are no strings; just the first two when every key is a string |
| `DemoRuns.ManifestClaimsOnlySeeds` | apps/web/app/sprout.server.ts:452-531 | in every interleaving with crashes every id in the manifest was created by a generic seed |
| `DemoRuns.UninterruptedSeed` | apps/web/app/sprout.server.ts:452-492 | a seed nobody interrupts adds its rows and claims those whose keys are text over what was claimed |
| `DemoRuns.UninterruptedClear` | apps/web/app/sprout.server.ts:508-531 | a clear nobody interrupts removes exactly the rows claimed, and the claims |
| `DemoRuns.ClearSparesUsers` | apps/web/app/sprout.server.ts:508-531 | a clear deletes another's row only if it was created under a key a seed had used |
| `DemoRuns.FreshKeysAreSafe` | apps/web/app/sprout.server.ts:508-531 | when nobody reuses a seed's key no clear ever deletes anyone else's row |
| `DemoRuns.ReusedKeyIsCleared` | apps/web/app/sprout.server.ts:508-531 | a run in which a reused key's row is deleted |
| `DemoRuns.ConcurrentSeedsLoseTrack` | apps/web/app/sprout.server.ts:479-489 | a run of two seeds after which one's rows are untracked |
| `DemoRuns.StepKeepsTrackedIff` | apps/web/app/sprout.server.ts:452-531 | from a state that has lost track of nothing a step loses track of nothing exactly when a manifest write overwrites nothing gained since its read, a removal forgets nothing listed since, a throw alone knew of nothing and a crash finds nothing in flight |
| `DemoRuns.UndisturbedRunsTrack` | apps/web/app/sprout.server.ts:452-531 | in every run in which no request dies and no other manifest write falls between a read and its write or removal, every sample row stays tracked |
| `DemoRuns.ClearTakesOthersIff` | apps/web/app/sprout.server.ts:508-531 | a clear that begins can delete somebody else's row exactly when the row stands under a key the manifest claims |
| `Changelog.ClassifiedIsKnown` | apps/maxstack/scripts/changelog.ts:70-85 | every subject gets a type a section or the internal count is for |
| `Changelog.ConventionalReads` | apps/maxstack/scripts/changelog.ts:70-85 | reading a conventional subject gives back its type, scope, mark and description |
| `Changelog.ConventionalIff` | apps/maxstack/scripts/changelog.ts:70-85 | a subject is conventional exactly when it has the parts of the pattern, and is read as those parts |
| `Changelog.ProseFiledUnder` | apps/maxstack/scripts/changelog.ts:82-84 | prose is filed by its first word in any case: fix and revert under their own name, add and feat as a feature, anything else under other |
| `Changelog.ProseKeptWhole` | apps/maxstack/scripts/changelog.ts:70-85 | any other subject is told whole, under a listed type |
| `Changelog.RenderSection` | apps/maxstack/scripts/changelog.ts:101-126 | the loop over sections produces the specified lines |
| `Changelog.SectionIs` | apps/maxstack/scripts/changelog.ts:101-126 | a section heading by heading, with what stands under each and how many changes are internal |
| `Changelog.EveryChangeOnce` | apps/maxstack/scripts/changelog.ts:101-126 | each change is one bullet or one of the internal changes counted, never both and never neither |
| `Changelog.BlocksKeepTheirOwn` | apps/maxstack/scripts/changelog.ts:114-121 | a block lists exactly the breaking changes, or exactly the others of its type |
| `Changelog.InternalChangesCounted` | apps/maxstack/scripts/changelog.ts:122-125 | the count is right and shown when there is one, and only a section without changes is left out |
| `Changelog.ReleaseReads` | apps/maxstack/scripts/changelog.ts:151-161 | the subject of a release of `a.b.c` and a suffix is a release of exactly that version |
| `Changelog.VersionFound` | apps/maxstack/scripts/changelog.ts:151-161 | the version a subject names is the one at the first place that holds one, and none exactly when no place does |
| `Changelog.VersionIsThere` | apps/maxstack/scripts/changelog.ts:151-161 | a version is three numbers and a suffix, and goes on to the next white space or the end |
| `Changelog.BuildBounds` | apps/maxstack/scripts/changelog.ts:163-189 | the loop pairs each release with the one before it, under a section for a version still staged |
| `Changelog.SectionsAreOf` | apps/maxstack/scripts/changelog.ts:163-189 | which version each section is of: the staged one on top while it is staged, below it that of the release its range starts at |
| `Changelog.RangesTile` | apps/maxstack/scripts/changelog.ts:163-189 | the ranges tile the covered history: every covered commit is in exactly one |
| `Changelog.NothingIsLost` | apps/maxstack/scripts/changelog.ts:193-222 | the sections together tell each covered commit whose subject does not begin with `chore(release)` exactly once, newest first, and no other |
| `Changelog.ToldNowhereIff` | apps/maxstack/scripts/changelog.ts:193-222 | a covered commit, release or not, is told nowhere exactly when its subject begins with `chore(release)` |
| `Changelog.TellsTheUnreleasedIff` | apps/maxstack/scripts/changelog.ts:193-222 | the sections tell exactly the covered commits that are no releases if and only if just the covered releases have a subject that begins so |
| `Changelog.HousekeepingIsDropped` | apps/maxstack/scripts/changelog.ts:213 | a commit that begins so and mentions no release is no release and is told nowhere |
| `Changelog.ShippedVersionIsTold` | apps/maxstack/scripts/changelog.ts:151-161 | a commit whose message mentions a release and whose subject names a version but begins otherwise is a release and is told as a change |
| `Changelog.OnlyTheOldestIsWithheld` | apps/maxstack/scripts/changelog.ts:194-201 | only the last range, and only without an archive, is left untold |
| `Changelog.WithheldIff` | apps/maxstack/scripts/changelog.ts:193-222 | without an archive the last section only says it is the first; every other lists what its range tells |
| `Changelog.NewerCommitsAreUncovered` | apps/maxstack/scripts/changelog.ts:172-181 | a commit newer than the last release is covered exactly when that release is not of the staged version |

## Left out

- SyncRepeats: reads a table in row order; the store's listing gives no order, so which of several rows that already share a match value is updated is up to the database.
- RollupPreserved: asks that fields have non-empty names, since the source takes an empty column name for a missing one, and that the path stay in view, which `RollupPreservedIff` shows is exact.
- ServedInAnyOrderIff: takes the groups in any order; how the database sorts them, by value or by date, is not part of this model.
- DropResorts: puts the card at a position known from the index alone, for sibling ranks that are keys or missing; `DropStands` and `DropBetweenKeys` are the statements for all stored ranks.
- LandsWhereAsked: likewise for sibling ranks that are keys or missing.
- CacheAgreesWithFresh: asks that consecutive readings agree, which `AllFreshIff` shows is exact.
- GroundedEntityShapes: leaves a shape's search, document and presentation facts out; they reach the fingerprint as more text.
- ChoosingRemovesExactly: asks for distinct table names without dots and distinct column names; `ChoosingRemoves` is the statement for all specs.
- RobotsAgree: asks that crawlable keys hold no white space and do not end in `$`, and that the domain hold no line break.
- NearTheLimit: asks that a read answer no more rows than it was asked for.
- OverTheLimitIff: asks that reads answer the first of a fixed list, and that the rows have ids; rows without one make no entry.
- DerivedPatchIsExact: asks that the ids of form blocks hold no colon; `DerivedPatchIsExactIff` is the statement for all specs.
- ToldNowhereIff: asks that commits have different hashes, by which a change is told to be a commit's.
- SeedThenClear: starts from an empty manifest; a manifest with earlier ids has those rows cleared too, as `ClearedSpec` says.
- FanOutIsExact: counts calls of `publish`; what a channel then sends each subscriber (permission, row, rate) is not part of this model.
- What a plan carries as text: descriptions, labels, roles, tokens, layouts, slots and formats, copied as declared.
- Document templates and search grounding: the same drop rule as the kinds modelled, adding only cases.
- Blocks' views (`viewOf`), page titles, meta tags, cookie banner, admin dispatch and other one-branch logic.
- Strings are sequences of Unicode scalar values: lone UTF-16 surrogates, on which `encodeURIComponent` throws, are not represented, and text order is by code point.
- `localeCompare` is any strict total order; `JSON.stringify` is any injective text, and of a list one that ends where its last bracket closes.
- Floating point: numbers in expressions and rollups are reals, and rounding, NaN and infinities are not modelled.
- Rejected promises in the grounding chain and in the once-only listener, retry delays, and announcements lost by the coordinator.
- Time zones, recurrence and rescheduling by date.
- Cascading deletes, soft deletes and database constraints other than unique keys; the sample values a seed invents.
- The grounding note and summary sentences of a blast radius.
- A process that dies with runs under way: their jobs stay claimed in the store and are not part of the cascade's steps.
- Merges in the commit history: the release ranges are stated on a linear history, as the published repository's is.
