# wicked-bus: a verified model

wicked-bus is a durable event log on SQLite.  Producers append events; each subscriber has a cursor and
acknowledges its way along the log; sweeps remove expired events, keeping what an active consumer still
owes; a warm tier of monthly bucket files holds what the tiered sweep moved out; failed events are retried
and dead-lettered; large payloads live in a content-addressed store.  What the library promises are
guarantees over whole runs, with crashes and other processes in between.  This project states those
guarantees in Dafny and proves them.

`dafny verify dfyconfig.toml` checks everything.

## How the model is laid out

A table is a sequence of rows in id order (`Events`).  One SQL statement or one transaction is one atomic
step.  Where the source changes objects and tables step by step, the model does so too, in classes whose
methods are proved against functions and predicates on snapshots; what has to hold over every run is proved
as an invariant of a state machine whose steps use the same functions.

Copies of an event in two tiers are not assumed to agree: an emit may release the key of a live row whose
warm copy keeps the old one (lib/emit.js:88-91).  What is said about both tiers is therefore said of event
ids, and where rows are compared, either the key is set aside (`Bare`) or the live copy is singled out
(`LiveWins`, `MergedView`).

| files | what they model |
| --- | --- |
| `Wrappers`, `Events`, `Filters` | optional values and results, rows and tables, filter strings and their compilation to SQL |
| `Database` | the open `bus.db`: poll, ack, re-anchor, register, deregister |
| `Retention`, `Sweep` | what consumers owe, the reconciliation report, the in-database sweep and its dry run |
| `Delivery`, `Retry`, `Turns` | emitters, sweeps and any number of crashing subscriber loops, step by step; how often a handler is called; what each entry of a run's history stands for and in which order statements come |
| `Subscriber`, `LoopRun` | one subscriber loop as a program: retries, dead letters, replays, a turn of the loop; and how each event it settles is a run of the protocol |
| `Archive`, `SweepV2`, `Batches`, `Tiers`, `TierReports`, `TierRuns`, `TieredCleanup` | the warm tier: bucket files, the commits of a tiered pass, the pass as a program, what its report says, runs of passes, its dry run |
| `Query`, `Reading`, `Resolution` | the cross-tier resolver, which rows it reads, and what it guarantees against the plain merged view |
| `TierOrder`, `Paging`, `PagingRuns`, `PagingGaps` | paging with the resolver while passes run and crash, and the run in which an event is skipped |
| `Concurrent` | any number of tiered passes at once |
| `Emit` | inserts, duplicates and released keys, against a map from keys to window ends |
| `Cas` | the content-addressed store, its collector, and every run of both |
| `Drain` | `subscribe --drain` |
| `Framing` | the socket protocol's frames and chunks |

## Where the code does not do what is said of it

The model follows the code.  What follows holds only under a condition.  The exact condition is proved in
each case, and a failing input is given.

- A filter's SQL clause and the in-memory matcher disagree on some event when the literal part before `.*` or
  `.**` has a capital letter and folds to a valid prefix, because SQLite's LIKE ignores ASCII case
  (`FilterEquivalenceExact`; `CapitalLetterDisagrees`).
- The tiered dry run misreports under 'archive' when owed rows do not fit the batch, and under 'discard'
  whenever anything is owed (`TieredDryRunExact`, `DryRunThenSweep`; `ArchivePreviewIsWrong`,
  `DiscardPreviewIsWrong`, and the runs `ArchivePreviewRun`, `DiscardPreviewRun`).
- A key can be accepted twice within its dedup window when the event's own TTL is shorter than that window
  (`DedupExact`; `ShortLifeIsNotFaithful`).
- A crash inside `createBucket` (lib/archive.js:59-92) leaves a file without `events` or without `_meta`, and no
  later pass completes it (`TierRuns.UnfinishedStays`).  Three things follow.
  A poll can skip an event for good, when rows of a bucket without `_meta` fill its batch and overtake an event of
  an earlier bucket whose range begins above the gap (`PollIsGapFree`, `ExactlyOnceInOrder`; `EventIsSkipped`).
  A pass throws before its delete whenever it picks a row of that month, until the file is full
  (`PassGetsThrough`).  And a poll that spills into a file without `events` before its batch is full raises WB-013
  (`UnavailableExactly`, `NextPollAnswers`).
- Two tiered passes at once lose no event (`NoEventIsLost`), but one can write a bucket the other has sealed
  (`SealedIsWritten`), and one that crashes in `createBucket` on a bucket the other has filled leaves rows outside the
  recorded range, where no poll looks (`LateBoundUncovers`).
- "The query layer prefers live" (lib/sweep-v2.js:159-160) fails when warm rows fill the batch, since the live
  rows are then not read: a stale copy of a row whose key was released meanwhile is returned
  (`LiveCopyWinsExactly`, `LiveCopyWinsInView`; `StaleCopyReturned`).
- A cursor inside the live window is answered from the live tier alone (lib/query.js:55), so warm rows above
  it are missed when a held row stayed live below them (`FastPathExact`; `HeldRowHidesWarm`).
- A poll attaches no more than 123 of the listed buckets (lib/query.js:28).  With more, it leaves events out exactly
  when the first 123 leave room in the batch and a later one holds an event that belongs in it and is nowhere else
  (`PollLeavesOutExactly`, `RoomIsRight`; `CeilingSkips`).
- WB-003 is meant for deleted events, but a filtered poll raises it although every event is live, when rows that
  do not match lie between the cursor and the first that does (`FalseAlarmExactly`; `FilteredPollRaises`).
- A dead letter is written from the event in memory, and refers to bytes the collector may have removed meanwhile
  (lib/subscribe.js:171-190).  References resolve throughout a run exactly if every dead letter and every copy
  to a bucket is made while the bytes are there (`ReferencesResolve`, `StepKeepsExactly`; `DanglingLetter`).
- A put of content that is already stored does not renew its age, so bytes whose reference is not yet inserted
  can be collected (`PutSurvivesExactly`, `PutThenCollect`; `PutAloneIsNotEnough`).
- `events_moved` counts rows that were copied even when the delete kept them for a new consumer
  (lib/sweep-v2.js:182; `EventsMovedExact`; `LateReaderIsCounted`, `LateReaderRun`).
- `register` without `cursor_init` starts at 0 while its result says 'latest' (lib/register.js:67-82;
  `StartsAtHeadExactly`, `DefaultIsNotLatest`).

ARCHITECTURE.md:104 and ARCHITECTURE.md:110 describe a poll that hides expired rows and a sweep keyed on the
dedup window, which the code does not do.

## Model

| member | source | states |
|---|---|---|
| Filters.FilterEquivalence | lib/poll.js:29-137 | for every filter without capitals in its type part and every valid event type, the compiled LIKE, NOT LIKE and equality conditions hold exactly when the in-memory matcher accepts, `%`, `_` and `\` escaped |
| Filters.FilterEquivalenceExact | lib/poll.js:29-137 | for any filter and any domain, the two readings agree on all valid event types if and only if there is no wildcard, the domain is excluded anyway, the literal prefix has no capital letter, or no valid event type lies under the folded prefix |
| Filters.CapitalPrefixDisagrees | lib/poll.js:88-137 | every capital letter before `.*` makes SQL select an event type the matcher refuses |
| Filters.CapitalLetterDisagrees | lib/poll.js:88-137 | the concrete filter `Wicked.*` and the event type `wicked.x` |
| Filters.SelectsMeaning | lib/poll.js:88-137 | a compiled filter selects by its domain part and its type part independently |
| Filters.DomainPart | lib/poll.js:29-137 | in a filter `p@d`, with the first @ where it is written, both readings take `d` as the domain, any domain when it is empty, and `p` as the type pattern |
| Filters.NoDomainPart | lib/poll.js:29-137 | a filter without an @ is a type pattern for every domain, in both readings |
| Filters.TypePatterns | lib/poll.js:44-72 | what the matcher takes: `*` everything, `q.**` whatever has one or more segments below `q`, `q.*` whatever has exactly one, or the very text of the pattern, and any other pattern only its text |
| Filters.TypeClauses | lib/poll.js:105-137 | the same four shapes in SQL: `q` is compared up to ASCII case and followed by a dot, `.*` allows no further dot, any other pattern is an equality |
| Filters.LongestType | lib/validate.js:9-65 | `wicked.` and a nonempty segment are a valid event type if and only if the segment has at most 121 characters |
| Filters.CompiledTypeMeaning | lib/poll.js:105-137 | on valid types, the compiled type conditions are the pattern with its literal part folded, one segment for `.*` and one or more for `.**` |
| Filters.WildcardSql | lib/poll.js:108-126 | what LIKE `p.%` and NOT LIKE `p.%.%` together select |
| Filters.LikeEscaped | lib/poll.js:79-81 | an escaped prefix matches exactly itself up to ASCII case, whatever wildcard characters it contains |
| Database.Database.Register | lib/register.js:23-87 | the new rows and the result: the cursor starts at the head only when 'latest' is asked for, else at 0, and the result reports 'latest' unless something else was asked for |
| Database.StartsAtHeadExactly | lib/register.js:64-84 | a new cursor starts at the head if and only if 'latest' was asked for or the table is empty; a result that says 'latest' is true if and only if a `cursor_init` was given or the table is empty |
| Database.DefaultIsNotLatest | lib/register.js:67-82 | for any row: a cursor registered without `cursor_init`, reported as 'latest', has that old row to receive |
| Database.NewCursorReceives | lib/register.js:64-84 | a cursor started at the head has nothing to receive, any other has every matching live row; no other cursor's deliveries change |
| Database.Database.Ack | lib/poll.js:289-329 | moves exactly one active cursor, in either direction; a missing or deregistered cursor is WB-006 and changes nothing |
| Database.Database.ReanchorCursor | lib/poll.js:243-280 | like ack, and refuses a negative position with WB-001 |
| Database.Database.Deregister | lib/register.js:95-136 | switches off the subscription and all its cursors, nothing else |
| Database.Database.DeregisterByPlugin | lib/register.js:152-220 | the loop switches off exactly the active subscriptions of that plugin and their cursors, and refuses an empty name (WB-001) and a plugin with none (WB-006) |
| Database.DeregisteredExactly | lib/register.js:95-220 | ending subscriptions ends the cursors that are on them, which then answer WB-006, and changes no position, no filter, no row and no other cursor |
| Database.RegisterThenLeave | lib/register.js:23-220 | register and then end the plugin's subscriptions: the new subscription is among those ended, with exactly the plugin's active ones, its cursor answers WB-006, and cursors of others are as they were |
| Database.PollSkipsNothing | lib/poll.js:153-222 | a poll returns matching rows above its floor, ascending, and whatever it leaves out comes later, behind a full batch |
| Database.BehindWindowExactly | lib/poll.js:170-182 | WB-003 is raised exactly when every live row lies more than one above the cursor |
| Database.ReanchorRecovers | lib/poll.js:224-280 | re-anchoring just below the oldest row skips no live row, and polling succeeds for as long as rows are only appended |
| Retention.CollectOwedExpired | lib/retention.js:32-62 | the loop over cursors plus the pending retries collects exactly the expired events each active cursor owes |
| Retention.OwedPairsWithCap | lib/retention.js:99-105 | every owed pair once, flagged by the age of its event |
| Retention.FlagByTimestamps | lib/retention.js:99-105 | a pair is reported as owed if and only if its cursor owes a live expired row, and its flag says that row was emitted more than the cap ago |
| Retention.OwedIsAwaited | lib/retention.js:32-62 | who is owed, in the columns of the tables: an active cursor with a pending retry of the row, or on an active subscription, below the row, with a filter that selects it |
| Retention.BuildUnackedReport | lib/retention.js:121-144 | the report's counts are the distinct events per disposition, each line counts its group and bounds it by the true least and greatest id |
| Retention.LineCountsSumToPairs | lib/retention.js:121-144 | the line counts of any report sum to the number of owed pairs |
| Retention.LinesSpanPairs | lib/retention.js:121-144 | every owed pair is on a line of its cursor and fate, between its oldest and newest event, both of which are on it, and its disposition is counted |
| Retention.CountsPartitionEvents | lib/retention.js:121-144 | when fate depends on the event alone, the disposition counts partition the distinct owed events |
| Retention.ReconcilesUniquely | lib/retention.js:121-144 | what a report must say determines it |
| Sweep.RunSweep | lib/sweep.js:74-125 | one transaction: archive copies, deletes, count and report are those of the sweep specification, for all policies |
| Sweep.RowsAfterSweep | lib/sweep.js:74-125 | where every row is after a sweep, by policy and timestamps: live if it has not expired, or under 'retain' if it is awaited and emitted at most the cap ago; what leaves is archived when awaited, except under 'discard', and otherwise in archive mode; rows archived before stay as they were |
| Sweep.RetainByTimestamps | lib/sweep.js:84-107 | under 'retain' an expired row a cursor owes is kept while `emitted_at` + cap >= now, and is archived and deleted once it is below |
| Sweep.FateByTimestamps | lib/sweep.js:109-119 | the disposition and reason the report gives an owed row: under 'retain' archived for the cap or retained, by those timestamps; otherwise what the policy says |
| Sweep.RetainKeepsDeliverable | lib/sweep.js:84-107 | under 'retain' an active cursor loses only expired rows past the cap, and each of these is in `events_archive` |
| Sweep.OwedNeverLost | lib/sweep.js:84-107 | unless the policy is 'discard', an owed row is live, or the archive holds this very row, unless an earlier archived row has its id, which `INSERT OR IGNORE` keeps |
| Sweep.DispositionIsTrue | lib/sweep.js:109-119 | the disposition a report gives a pair is where its row ended up |
| Sweep.SweepReportPartitions | lib/sweep.js:109-119 | the report of a sweep partitions the owed events and its lines sum to the owed pairs |
| Sweep.DryRun | commands/cmd-cleanup.js:41-77 | the previewed count and report, with nothing written |
| Sweep.DryRunPredictsSweep | commands/cmd-cleanup.js:41-72 | for all three policies, previewing and sweeping at the same instant give the same count and the same report |
| Sweep.DryCountIsDeleted | commands/cmd-cleanup.js:49-69 | expired rows minus held ones is the number of rows a sweep deletes |
| Delivery.AtLeastOnce | lib/subscribe.js:350-517 | over every run of emits, registrations, sweeps, tiered passes, replays, drops and any number of loops on shared cursors crashing between any two statements: an event an active cursor is owed is handled, or archived by the cap, or live above the cursor, or was dead-lettered; and everything dead-lettered is in the table of dead letters, or was replayed, or was dropped |
| Delivery.CaughtUpMeansSettled | lib/subscribe.js:350-396 | an active cursor with nothing left to deliver has had every obligation met |
| Delivery.StepKeeps | lib/subscribe.js:350-517 | every single statement of the protocol, the three of a poll included, keeps the invariant behind at-least-once, dead letters and their history included |
| Delivery.StatementsArePoll | lib/poll.js:153-222 | reading the cursor, checking the window and selecting the rows, run without interruption, are the poll of the database: same error, same rows, same re-anchoring |
| Delivery.LetterAdded | lib/subscribe.js:171-190 | inserting a letter under the next number loses no other and gives the event that died its letter |
| Delivery.SweepKeeps | lib/sweep.js:79-107 | an in-database 'retain' sweep takes nothing pending except what the cap archives |
| Delivery.DeleteMovedKeeps | lib/sweep-v2.js:359-384 | a tiered delete, whatever happened since its rows were picked, takes nothing pending except what the cap put in the warm tier |
| Delivery.DeletedByTimestamps | lib/sweep-v2.js:359-384 | by timestamps, which rows the two deletes of a run take and which of them count as taken by the cap: expired ones, and of the awaited only those older than it |
| Delivery.AckMovesCursor | lib/subscribe.js:366-369 | acknowledging the current event steps over nothing pending, on cursors other loops move back and forth |
| Retry.RetryBound | lib/subscribe.js:350-396 | with one loop per cursor, `processEvent` makes for an event at most maxRetries + 1 handler calls, one more per crash, and one more budget per crash between deleting the attempt row and the ack, and leaves at most one dead letter, one more per crash; calls of operator replays are bounded by `ReplayBound` |
| Retry.ReplayBound | lib/subscribe.js:403-430 | over every run, a loop replays a letter, one handler call each time, at most once per request and once more per crash of the loop, whoever shares its cursor |
| Retry.StepKeepsBudget | lib/subscribe.js:147-169 | every step keeps the budget of every event |
| Turns.HandledExactly | lib/subscribe.js:366-370 | over every run, an event of a cursor counts as handled if and only if a handler call for it, by a worker on that cursor and that event, has returned |
| Turns.MarksAreEarned | lib/subscribe.js:350-430 | the same for the whole history of a run: owed from an emit that an active subscription selects or from the creation of a cursor below the row; dead-lettered from an insert for the worker's current event; replayed from a replay that succeeded; dropped from a drop; capped from a delete of an awaited row by timestamps; each if and only if some action of the run did it |
| Turns.ThrownIsPursued | lib/subscribe.js:370-393 | over every run, a worker whose handler threw stays on the event until a later call for it returns, it becomes a dead letter, or the worker crashes |
| Turns.FailureCounts | lib/subscribe.js:365-382 | a throw of the handler, of a statement after it, or of the ack of a deregistered cursor is one more failed attempt at the same event; after a dead letter that ack ends the turn |
| Turns.AckMeansDone | lib/subscribe.js:366-378 | over every run, an event is acknowledged only after a handler call for it returned or it became a dead letter, and the ack puts exactly the active cursor on exactly this event |
| Turns.InProgramOrder | lib/subscribe.js:350-517 | over every run, each worker takes its statements in the order of the program: which statement can come after which, between polls, events, retries, dead letters and replays |
| Turns.StopIsObeyed | lib/subscribe.js:350-517 | after `stop()` and until a crash, a worker begins no poll, no event, no replay and no retry after a backoff |
| Turns.LettersAreSpent | lib/subscribe.js:374-379 | over every run without `stop()`, whatever crashes, every dead letter came of more than maxRetries attempts |
| Turns.WorkerCanMove | lib/subscribe.js:350-517 | in every reachable state a worker has a statement to take, unless it rests and is to stop |
| Turns.CountersAreTrue | lib/subscribe.js:350-396 | the counters that `RetryBound` bounds are the handler calls, dead letters and crashes of the run |
| Turns.ResetsAreTrue | lib/subscribe.js:366-369 | and its resets are the crashes of a worker whose last statement on the attempt row deleted it |
| Turns.LetterFate | lib/subscribe.js:403-430 | what any action does to any dead letter: a successful replay and a drop remove it, a request marks it, a failed replay clears the mark and counts an attempt, nothing else touches it |
| Turns.LoopMovesCursor | lib/subscribe.js:350-517 | a loop moves no cursor but its own, only while it is active, to the acknowledged event or the floor it re-anchors at |
| Turns.RegistrationIsARun | lib/register.js:23-87 | the two statements of a registration in a run leave the tables that `Database.Register` leaves, with an active cursor |
| Turns.EndedIsInactive | lib/register.js:95-220 | ending subscriptions in a run makes inactive exactly the cursors on them |
| Turns.PassIsARun | lib/sweep-v2.js:95-169 | the commits of a tiered pass in a run put every picked row into the warm tier and take from the live table exactly those not awaited, or older than the cap |
| LoopRun.SettlingIsARun | lib/subscribe.js:350-396 | refinement: however the loop settles an event, the protocol has a run of the same worker with the same outcomes of the handler calls in order, the same tables and the same dead letters at the end |
| LoopRun.ProcessEventIsARun | lib/subscribe.js:350-396 | the same of the call itself, with the handler's own answers |
| Subscriber.Subscriber.ProcessEvent | lib/subscribe.js:350-396 | the retry loop ends, having made exactly these calls and statements in this order: every call but a handled event's last threw, each failure left its attempt row, and then the attempt row is gone and the cursor is on the event; or one dead letter was written before the attempt row was deleted and the cursor moved; the calls respect the remaining retries |
| Subscriber.Subscriber.AfterFailure | lib/subscribe.js:370-393 | out of retries or stopped during backoff it dead-letters, otherwise it records the attempt; the statements in order |
| Subscriber.Subscriber.MoveToDeadLetter | lib/subscribe.js:374-379 | one new letter, then the attempt row is deleted, then the cursor moves: the trace holds the three statements in this order |
| Subscriber.Subscriber.Replay | lib/subscribe.js:413-428 | one handler call; success removes the letter, failure clears its request and counts the attempt |
| Subscriber.Subscriber.DrainReplays | lib/subscribe.js:403-430 | replays in number order: each removed letter had its own handler call, which succeeded; the first failure clears its request and ends the drain; no requested letter below the last replayed one is passed over, also when the loop is stopped; other letters are untouched; the trace and the number of calls are exactly these |
| Subscriber.Subscriber.ProcessPage | lib/subscribe.js:442-445 | a prefix of the page is settled in order, all of it unless stopped; the trace is the settling of each event in turn, the calls are theirs, the handler answered each as recorded, and every dead event has its letter |
| Subscriber.Subscriber.Tick | lib/subscribe.js:432-517 | one turn: replays, then the polled page is settled, or a cursor behind the window is re-anchored just below the oldest survivor; the trace holds the replays' and the events' calls and statements and nothing else; a stopped or running loop does nothing |
| Subscriber.HandledWereCalled | lib/subscribe.js:350-396 | the successful calls of a page are, in order, exactly one on each handled event, and the calls in its trace are as many as were made |
| Subscriber.SettlingCalls | lib/subscribe.js:350-396 | settling one event takes the calls it says, with one success if it was handled and none if it died |
| Subscriber.Subscriber.ReplayDeadLetter | lib/dlq.js:95-112 | flags exactly one letter; an unknown one is WB-006 |
| Subscriber.Subscriber.DropDeadLetter | lib/dlq.js:122-132 | removes exactly one letter; an unknown one is WB-006 |
| Subscriber.AfterAllIs | lib/subscribe.js:350-396 | settling events changes nothing but their attempt rows and the cursor |
| Subscriber.TurnSkipsNothing | lib/subscribe.js:432-445 | a turn moves the cursor past no deliverable event it did not settle |
| Archive.ListBuckets | lib/archive.js:153-159 | every bucket file once, in file-name order |
| Archive.BucketsCoveringRange | lib/archive.js:172-198 | exactly the buckets that have no `_meta` table or cannot be read, or whose recorded range, open-ended while unsealed, meets the gap, in order |
| Archive.NeededBucketIsListed | lib/archive.js:172-198 | an event that left the live tier is in some listed bucket |
| SweepV2.CrashSafe | lib/sweep-v2.js:136-169 | a pass cut after any statement, those of `createBucket` one by one included, leaves the events of live and warm tier together unchanged, whatever keys their copies carry, sealed buckets unwritten, only the last bucket of a month open, and every event that left live inside a recorded range |
| SweepV2.CrashSafeDiscard | lib/sweep-v2.js:100-169 | under 'discard' a cut pass has lost exactly the discarded events without a warm copy |
| SweepV2.PlanReady | lib/sweep-v2.js:194-327 | every statement of a pass finds what it relies on: open target buckets, rows still live, and deleted rows already covered; a pass that gets through takes exactly the moved ids that are not kept, any other none |
| SweepV2.CommitKeeps | lib/sweep-v2.js:275-327 | each single commit keeps the events in view, the recorded ranges and the sealed buckets |
| SweepV2.GroupReady | lib/sweep-v2.js:275-327 | creating a bucket statement by statement and filling it covers every row it was given |
| SweepV2.StuckReady | lib/sweep-v2.js:275-327 | what is written before an unfinished bucket makes the pass throw: nothing without `events`, the rows without `_meta`, the live table untouched |
| SweepV2.CreationReady | lib/archive.js:50-88 | the statements that make a bucket, each on what the one before left |
| SweepV2.SealsReady | lib/sweep-v2.js:220-252 | choosing buckets seals exactly the full or closed latest ones |
| SweepV2.ChoiceExactly | lib/sweep-v2.js:220-262 | the bucket of a month by its state: the bare name when there is none, the last one while it is neither sealed nor full, else the next letter up to the 26th, else none |
| SweepV2.GroupStatements | lib/archive.js:50-92 | the statements that write a group, in order, with the bounds they record, for a new file and for each state a file can be left in |
| Batches.BatchIsOldestEligible | lib/sweep-v2.js:105-109 | fetching batch + held rows, dropping the held and cutting gives exactly the first batch of unheld expired rows |
| Batches.PassesMoveOldestFirst | lib/sweep-v2.js:95-109 | k passes move the oldest k * batch eligible rows and nothing else, and ceil(n / batch) passes are needed and enough for n |
| TierRuns.RunKeeps | lib/sweep-v2.js:67-169 | over every run of emits, key releases and passes made statement by statement and crashing anywhere, also inside the creation of a bucket: the tiers hold exactly what was emitted, each row, live or warm, a copy of it up to its key, sealed buckets are final, one open bucket per month, every event that left live is inside a recorded range |
| TierRuns.EnumerationIsComplete | lib/archive.js:172-198 | after any such run an event that left live has a copy, up to its key, in a bucket the enumeration lists |
| TierRuns.UnfinishedStays | lib/sweep-v2.js:275-288 | a bucket left without one of its tables stays so through every pass, wherever it is cut |
| TierRuns.PlanUsesEvents | lib/sweep-v2.js:145-169 | the commits of a pass insert only rows it picked, and delete only ids it picked and did not have to keep |
| Tiers.Tiers.ChooseBucketForMonth | lib/sweep-v2.js:220-262 | reuse, rotate to the next letter after sealing, or run out after z; a bucket without `_meta` counts as unsealed, and sealing it fails silently |
| Tiers.Tiers.GroupByTargetBucket | lib/sweep-v2.js:194-208 | the cached grouping partitions the rows by the bucket of their month, order kept, and makes exactly the planned seals |
| Tiers.Tiers.InsertBatchIntoBucket | lib/sweep-v2.js:275-327 | the statements of one group, in order, the creation of the file and its tables one by one; on an unfinished file it throws after exactly the statements that succeed |
| Tiers.Tiers.DeleteFromLive | lib/sweep-v2.js:359-384 | deletes the given ids minus, under 'retain', what is owed and inside the cap now; returns the owed pairs it saw |
| Tiers.Tiers.WriteGroups | lib/sweep-v2.js:145-154 | writes every unlocked group, skips the locked ones and reports the ids it moved, until a bucket cannot be written |
| Tiers.Tiers.RunSweepV2 | lib/sweep-v2.js:67-188 | the statements, the disk, how the pass ends and its report are those of its plan, whatever others do to the database meanwhile |
| Tiers.RetainPassKeepsOwed | lib/sweep-v2.js:87-169 | for any registrations, acks, emits and key releases between the first look and the delete, a 'retain' pass deletes no row owed and inside the cap at that time, and what it deletes is covered by a bucket |
| Tiers.RetainPassByTimestamps | lib/sweep-v2.js:359-384 | by timestamps, which rows a 'retain' pass leaves live, whatever others do meanwhile: all but the moved ones, and of these the ones awaited at the delete and emitted at most the cap ago |
| Tiers.PickedByTimestamps | lib/sweep-v2.js:87-109 | by timestamps, which rows a pass picks: the first batch, in id order, of the expired rows, without the young awaited ones under 'retain' and without the awaited ones under 'discard' |
| Tiers.PassDeletes | lib/sweep-v2.js:145-169 | a pass that gets through takes exactly the moved ids that are not kept, each covered by a bucket; any other takes nothing |
| Tiers.PassAlwaysFits | lib/sweep-v2.js:67-188 | from any sound disk, unfinished buckets included, the statements of a pass are those of its plan up to where it ends |
| Tiers.PassGetsThrough | lib/sweep-v2.js:145-169 | a pass gets to its delete if and only if the month of each picked row has no bucket, or its last one is sealed or full with a letter left, or is locked, or has both its tables |
| Tiers.NoBucketLeftExactly | lib/sweep-v2.js:220-262 | a pass throws for want of a bucket name if and only if a picked row's month has a last bucket that is sealed or full and is the 26th letter |
| Tiers.GroupGrows | lib/sweep-v2.js:194-208 | pushing a row extends exactly the group of its month |
| TierReports.EventsMovedExact | lib/sweep-v2.js:145-182 | `events_moved` is the number of rows that left the live table if and only if no moved row was kept by the delete |
| TierReports.LateReaderIsCounted | lib/sweep-v2.js:145-182 | one expired row and a consumer registered after the first look: one event reported as moved, and it is still live |
| TierReports.LateReaderRun | lib/sweep-v2.js:145-182 | such a pass on an empty warm tier: it completes, reports one event moved, and the event is live |
| TierReports.TieredDispositionIsTrue | lib/sweep-v2.js:87-169 | for all three policies, whatever others do meanwhile: the disposition the report of a completed pass gives a pair is where its event ended up: live, in a bucket only, or gone |
| TierReports.NamedExactly | lib/sweep-v2.js:156-181 | which owed pairs the report names: those of the first look, under 'retain' also later ones on moved rows past the cap, under 'archive' only those on moved rows |
| TieredCleanup.DryRunTiered | commands/cmd-cleanup.js:41-77 | the count and report the tiered dry run prints |
| TieredCleanup.TieredDryRunExact | commands/cmd-cleanup.js:49-72 | with nothing locked and nothing in between, the pass does what the dry run said if and only if the policy is 'retain', or 'archive' with every owed row in the batch, or 'discard' with nothing owed |
| TieredCleanup.DryRunThenSweep | commands/cmd-cleanup.js:41-77 | calling the dry run and then a pass, with nothing locked or in between: if it completes, the two agree if and only if that condition holds of the tables before; and when it completes |
| TieredCleanup.ArchivePreviewIsWrong | commands/cmd-cleanup.js:49-72 | two expired owed events and a batch of one under 'archive': the previewed report is not the pass's |
| TieredCleanup.ArchivePreviewRun | commands/cmd-cleanup.js:41-77 | both calls made on an empty warm tier: the pass completes and the reports differ |
| TieredCleanup.DiscardPreviewIsWrong | commands/cmd-cleanup.js:49-72 | one expired owed event under 'discard': one event previewed as moved, none moved, and another report |
| TieredCleanup.DiscardPreviewRun | commands/cmd-cleanup.js:41-77 | both calls made on an empty warm tier: one event previewed as moved, none moved |
| Query.DedupePreferLive | lib/query.js:184-189 | one row per id of either list; an id with a live row maps to a live row, any other to a warm one |
| Query.LastCopyWins | lib/query.js:184-189 | putting rows into the map one by one leaves each id its last row |
| Query.ReadBuckets | lib/query.js:81-92 | reading in order until the batch is full, or WB-013 from the first bucket that cannot be attached |
| Reading.ReadIs | lib/query.js:81-92 | reading that does not fail returns the first rows of the listed buckets' matching rows, one bucket after the other |
| Reading.ReadFails | lib/query.js:81-92 | reading fails if and only if a bucket that cannot be read comes before the batch is full |
| Reading.FetchedRows | lib/query.js:81-92 | the rows read are exactly those whose place, counted in the tables, is within the batch |
| Query.PollResolve | lib/query.js:41-110 | the whole resolver, loop by loop, is the specified one on the listing of covering buckets |
| Resolution.PollIsGapFree | lib/query.js:41-110 | with at most 123 buckets listed, under the order of tiers and buckets, a poll is a prefix, up to keys, of the merged view above the cursor (an event's live row if it has one, else a warm one) if and only if no row of a listed unreadable bucket within the batch lies above a due event that only an earlier, unlisted bucket holds; it is empty only when that view is |
| Resolution.PollIsExact | lib/query.js:55-107 | with at most 123 buckets listed, unless warm rows fill the batch the answer is a merged view with live rows preferred, cut to the batch, in any bucket order: the live over-fetch suffices |
| Resolution.PollIsMergedView | lib/query.js:41-110 | with at most 123 buckets listed, when no id sits in two the answer is, up to keys, the merged view cut to the batch, under the same condition and only then |
| Resolution.UnderfilledIsExact | lib/query.js:94-107 | with at most 123 buckets listed, the over-fetch makes up for duplicates: the first due events, each in its live copy if it has one |
| Resolution.FilledIsPrefix | lib/query.js:81-107 | a batch filled from the warm tier, with the live rows left unread, skips nothing under the same condition and only then |
| Resolution.PollLeavesOutExactly | lib/query.js:28-107 | for any number of listed buckets, when no id sits in two of them: the answer is, up to keys, the merged view cut to the batch if and only if the poll is not overtaken and it is not so that the first 123 listed buckets leave room while a later one holds an event of that batch which neither the live table nor those 123 hold |
| Resolution.RoomIsRight | lib/query.js:28-107 | the same without that assumption, unless the attached buckets fill the batch; and live copies win |
| Resolution.CeilingSkips | lib/query.js:28-107 | 124 buckets of one event each and a live one: a poll for 200 events returns the live one and leaves out the 124th |
| Resolution.ListedExactly | lib/archive.js:172-198 | which buckets a poll lists: unreadable ones, and those recorded from below every matching live row that are unsealed or reach the cursor |
| Resolution.LiveCopyWinsExactly | lib/query.js:94-107 | an answer holds the live copy of every event that has one if and only if the listed rows leave room in the batch, or none of the first batch of them that is the last of its id differs from a live copy |
| Resolution.LiveCopyWinsInView | lib/query.js:94-107 | the same in terms of the merged view, when no id sits in two buckets: none of its first batch of events has a bucket row that differs from its live row |
| Resolution.StaleCopyReturned | lib/query.js:97-105 | one live row whose key was released after it was copied, a bucket with that copy and an older row, and a batch of two: the copy with the old key is returned |
| Resolution.FastPathExact | lib/query.js:51-57 | for a cursor in the live window the answer is the first due events if and only if no due event that is only in the warm tier has fewer than a batch of matching live rows below it |
| Resolution.HeldRowHidesWarm | lib/query.js:51-57 | a held row 1, an event 2 in the warm tier, and a row 3: a poll after 1 returns 3 and skips 2 |
| Resolution.BehindWindowSkipsNothing | lib/query.js:71-79 | WB-003 names the oldest row still due |
| Resolution.FalseAlarmExactly | lib/query.js:71-79 | when no event is missing from the view between the cursor and the first matching live row, WB-003 is raised if and only if no bucket covers the gap and a live row that does not match lies in it |
| Resolution.FilteredPollRaises | lib/query.js:71-79 | two live events of different domains and nothing deleted: a poll for the second's domain from 0 raises WB-003 |
| Resolution.UnavailableBucket | lib/query.js:147-152 | WB-013 names a listed bucket that cannot be attached |
| Resolution.UnavailableExactly | lib/query.js:134-158 | WB-013 is raised if and only if the poll spills and one of the first 123 listed buckets that cannot be read is reached before the batch is full |
| Resolution.RefusedExactly | lib/query.js:44-49 | WB-001 is raised if and only if the position is negative |
| TierOrder.CommitKeepsOrder | lib/sweep-v2.js:275-327 | each commit keeps the order of rows and recorded ranges across buckets |
| Paging.PlanPaged | lib/sweep-v2.js:145-169 | a pass over the lowest live rows keeps that order at every commit |
| PagingRuns.ExactlyOnceInOrder | lib/query.js:41-110 | over every run of emits, key releases, passes made statement by statement, crashes anywhere and polls: the consumer has been handed emitted events up to its cursor, each once, in id order and as emitted up to its key; and it was handed all of them, ids 1, 2, 3 and on, if and only if no poll of the run was overtaken by rows of an unfinished or unreadable bucket |
| PagingRuns.NextPollAnswers | lib/query.js:41-110 | after any such run the next poll fails if and only if it spills into a bucket that cannot be read before its batch is full, and otherwise hands over at least one event while there is one |
| PagingRuns.NeverBehind | lib/query.js:71-79 | such a poll never raises WB-003; it fails only on a bucket that cannot be read |
| PagingRuns.PollsCatchUp | lib/query.js:41-110 | once emitting stops, each answered poll advances the cursor until it has passed everything |
| PagingGaps.EventIsSkipped | lib/archive.js:59-96 | the failing run: a pass crashes between the two tables of a bucket, the next one puts a row into it and throws, and a poll for one event returns that row and passes a live one for good |
| Concurrent.NoEventIsLost | lib/sweep-v2.js:136-169 | however the statements of any number of passes interleave with each other, with emits and with key releases, and whichever crash: the tiers together hold what they held and what was emitted since |
| Concurrent.SealedIsWritten | lib/sweep-v2.js:220-262 | two passes over one month: the second seals the bucket the first has chosen, and the first then writes it |
| Concurrent.LateBoundUncovers | lib/sweep-v2.js:275-288 | two passes find no bucket of a month: the second records its lower bound in the bucket the first has filled, and the first's deleted event is in a bucket no poll lists; WB-003 is raised instead |
| Emit.Emitter.EmitEvent | lib/emit.js:83-134 | insert, duplicate, or release and insert, with the table that results: the new row has the draft's columns and the two lifetimes, and of the others at most the holder's key changed |
| Emit.AcceptedExactlyWhenFree | lib/emit.js:83-134 | in every reachable state an emit is accepted exactly when the window of every earlier accepted emit of its key has passed |
| Emit.CoveredRunIsFaithful | lib/emit.js:83-134 | whole runs of emits and sweeps refine the map from keys to window ends, although rows are renamed and swept |
| Emit.ShortLifeIsNotFaithful | lib/emit.js:35-37 | a run that breaks the window when events live shorter than it |
| Emit.DedupExact | lib/emit.js:35-37 | the refinement holds for every run if and only if the TTL is not shorter than the window |
| Emit.ReleasedTable | lib/emit.js:88-91 | a release renames one row and keeps keys unique |
| Cas.Cas.Put | lib/cas.js:74-114 | stores under the digest; a digest already there is left alone, age included; too large is WB-008 |
| Cas.Cas.CollectLiveShasOrAbort | lib/cas.js:260-332 | every reference in live rows, archive, dead letters and unacknowledged buckets, or WB-010 at an unreadable bucket |
| Cas.LiveShasAre | lib/cas.js:260-332 | what protects a digest: a row of the live, archive or dead-letter table that refers to it, or a row of a bucket that is not acknowledged as missing, and nothing else |
| Cas.Cas.Gc | lib/cas.js:197-254 | removes exactly the unreferenced files past the grace window; on WB-010 or a dry run removes nothing; the counters are the true sizes |
| Cas.FilesPartition | lib/cas.js:216-253 | files looked at are referenced, in grace, or deleted |
| Cas.ApplySizePolicy | lib/schema-registry.js:82-113 | an offloaded payload reads back as it was; strict refuses, warn passes through |
| Cas.ReferencesResolve | lib/cas.js:197-332 | for every run of emits, sweeps, moves, dead letters, replays, drops and collections: every reference reads back the exact bytes its event was emitted with at every state of the run if and only if every dead letter and bucket copy is made while its bytes are stored |
| Cas.StepKeepsExactly | lib/cas.js:197-332 | from a state in which all references resolve, one step leaves them all resolving if and only if it does not write a letter or a bucket row whose bytes are gone |
| Cas.ReferencedExactly | lib/subscribe.js:171-190 | what is referred to after an emit or a dead letter, one event more, and after a letter is replayed or dropped, all but what only it referred to |
| Cas.CollectIsGc | lib/cas.js:197-254 | a collection in a run is the collection of the store: refused when a bucket cannot be read |
| Cas.PutIsEmit | lib/cas.js:74-114 | and its put is the put of the store |
| Cas.HeldIsInTime | lib/subscribe.js:171-190 | a letter made from an event some table still holds is always in time |
| Cas.DanglingLetter | lib/subscribe.js:171-190 | the failing run: an event is swept and its bytes collected while its handler runs, and then it is dead-lettered |
| Cas.PutSurvivesExactly | lib/cas.js:74-254 | bytes just put survive a collection if and only if their digest is referenced or the file, as old as its first put, is inside the grace window |
| Cas.PutThenCollect | lib/cas.js:74-254 | the same of the calls themselves: what `get` returns after a put and a collection |
| Cas.PutAloneIsNotEnough | lib/cas.js:89 | a put of content stored long ago, collected before its reference is inserted |
| Drain.RunDrain | commands/cmd-subscribe.js:326-387 | on a quiescent log it ends, with or without ack and for any batch size, having handed over exactly the live rows above the cursor that its filter selects, ascending and once, also for a cursor behind the window; the result and the cursor are on the last of them, or at its old position, or just below the oldest row; it fails, with nothing done, for a cursor that is not active, one behind the window that is not to recover, or when the oldest row has id 0 |
| Drain.StaleLosesNothing | commands/cmd-subscribe.js:344-356 | re-anchoring a cursor behind the window just below the oldest row leaves it the same rows to receive |
| Drain.DrainPages | commands/cmd-subscribe.js:342-376 | the paging loop hands over exactly the rows above its start |
| Drain.DeliverPage | commands/cmd-subscribe.js:358-365 | one page, acknowledged event by event unless told not to |
| Drain.RecoverFromStale | commands/cmd-subscribe.js:81-111 | the cursor just below the oldest survivor |
| Drain.NextPage | commands/cmd-subscribe.js:358-369 | reading on from the last row of a page leaves exactly the rest |
| Framing.FrameParser.Feed | lib/ipc-protocol.js:75-93 | the frames of the complete lines, the first malformed line, and what stays buffered |
| Framing.ChunksDoNotMatter | lib/ipc-protocol.js:65-99 | however a stream is cut, the same frames and the same malformed line come out, and the same unfinished line is left |
| Framing.FramesSurviveChunking | lib/ipc-protocol.js:47-99 | frames encoded, cut anywhere and fed in pieces come out as they were, and exactly the text after the last newline is buffered |
| Framing.MalformedStops | lib/ipc-protocol.js:75-93 | empty lines say nothing; at a malformed line the frames before it are kept, its reason is reported, and what follows it stays unread |
| Framing.ScanResumes | lib/ipc-protocol.js:75-93 | parsing more text resumes from what was left |
| Framing.BufferIsUnfinished | lib/ipc-protocol.js:95-98 | what stays buffered holds no newline |

## Left out

- Database.Database.DeregisterByPlugin: the role option, and with it provider sidecars; nor timestamps of rows.
- Delivery.AtLeastOnce: leaves out acks by other programs on a cursor a loop is using, and key releases, which change nothing a delivery reads. It lets any expired rows form a tiered batch and a loop poll while replays are pending, which are more runs than the program has, so what is proved covers it.
- Retry.RetryBound: like the rest of `Delivery` it models the 'retain' policy; what 'archive' and 'discard' take is stated in `Sweep` and `Tiers`.
- Retention.OwedPairsWithCap: the order of the result, on which at most the order of report lines depends; caps are given in milliseconds.
- Retention.BuildUnackedReport: the order of the lines and the echoed `retention_cap_days`.
- Tiers.Tiers.ChooseBucketForMonth: a `_meta` table that is there but cannot be read or written at that moment, as when the file is corrupt or busy.
- Tiers.Tiers.RunSweepV2: runs one tiered pass at a time; what several at once keep and lose is in `Concurrent`. It does not state the order of the touched buckets, the checkpoint result or the bloat warning, nor bucket files that cannot be created.
- Concurrent.NoEventIsLost: says nothing of recorded ranges or sealed buckets, which concurrent passes can spoil.
- Cas.Cas.Gc: `bytes_freed`, files removed by others while it runs, and tables that change between its reads, since it collects at one instant; the temporary file of a put is invisible after its rename.
- Cas.ReferencesResolve: takes each emit as atomic with respect to collection, and no acknowledged missing buckets.
- Query.PollResolve: takes a batch size that is not negative; SQLite reads a negative limit as none.
- PagingRuns.ExactlyOnceInOrder: runs one pass at a time; it bounds the covering buckets by the 123 that can be attached, and its ids by the largest integer JavaScript counts exactly.
- Drain.RunDrain: the idle window and signals, since both only change when an empty queue ends the loop.
- Framing.FrameParser.Feed: takes text chunks, as the sockets deliver them after `setEncoding('utf8')`; JSON text is an encoder and a decoder whose lines hold no newline (section 7 of RFC 8259).
- SQLite's LIKE length limit, write-ahead log checkpoints and WB-014, wall-clock timers and backoff lengths.
- `subscribe-push-or-poll`, the daemon's send queue and its singleton lock: at-most-once or undecided by the code.
- The JSON Schema validator, causality context, migrations, the HTTP interface, command-line parsing and installers: each claim would be readable from one body.
