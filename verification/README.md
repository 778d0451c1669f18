# Verified model of the context platform's core logic

A multi-tenant platform collects what a client engagement leaves behind in other systems, resolves
it into a graph of people and work, and answers questions about it under per-engagement encryption
and authorization.  This project models the parts of it that carry algorithms or protocols, and
proves what those parts are for.  The model is written in Dafny 4.11;
`dafny verify dfyconfig.toml` checks it.

## What is modelled

* **Name matching and the review queue** (`JaroWinkler`, `Refs`, `Candidates`).  The Jaro-Winkler
  matcher over two mark arrays, its symmetry by way of stable matchings, the score bands, and the
  queue of unordered pairs that depends on that symmetry.
* **Authorization** (`Relations`, `InMemoryAuthz`, `AuthzClient`).  A depth-first resolver with one
  shared visited set computes the least fixed point of tuples and union/arrow rules; the typed
  helpers; revocation.
* **Engagement keys** (`KeyLifecycle`, `Engagements`, `Purge`).  Sessions, key rotations,
  crypto-shreds and batched purges as interleaved steps over one locked row; the same functions
  statement by statement, each shown to be a run of that model; and the purge over tables.
* **Connector sync** (`ConnectorSync`, `Connectors`).  Artifacts and checkpoints with a crash possible
  at every step, then another run; and the streams of the connectors that poll by time of change,
  while documents are edited and deleted.
* **Graph writes and merges** (`Graph`, `ReviewDecision`, `GraphWrite`, `PersistGraph`).
* **Review threads** (`Findings`, `ReviewThreads`, `ReviewSink`, `ReviewRuns`, `ReviewEmit`).
  Deduplication of findings, the plan against existing threads, and what repeated runs converge to.
* **Transcripts** (`Chunker`, `Extraction`).  Overlapping chunks, and evidence spans that are
  translated back and checked against the source.
* **Streams and pages** (`Sse`, `KeysetPager`, `AsyncQueues`, `AgentLoop`, `AskAgent`).
* **Custom integrations** (`DotPath`, `CustomNormalize`).

`Sorting` and `Options` hold what several of these share.

Code that changes state step by step is modelled by classes and loops (`InMemoryAuthzClient`,
`EngagementDb`, `Database`, `SyncStore`, `Tables`, `ReviewQueue`, `PullRequest`, `Store`, `AsyncQueue`) whose
contracts tie the new state to a function of the old one; the laws are lemmas about those functions.

Parameters stand for everything foreign: the key service (an abstract wrap/unwrap pair), ref and
name normalizers (not even idempotence is assumed), title slugs and thread keys, the digest of a
transcript, the model, its tools and the usage sink.  Database transactions appear as atomic steps
and row locks.  Scores are real numbers.

## Where the code differs from what it says

* A chunk can be one character longer than the "hard ceiling" `maxChars` (`Chunker.CeilingExceeded`,
  and exactly when: `Chunker.CeilingExactly`).
* Exact overlaps and whole short quotes hold only while `2 * overlapChars <= maxChars + 1`, although
  any overlap below `maxChars` is accepted (`Chunker.FaithfulExactly`).
* A failed batch of relationship writes may already have changed the store
  (`InMemoryAuthz.FailedBatchCanChangeStore`, `InMemoryAuthz.FailedBatchLeavesStoreExactly`).
* One run of the review tool need not bring threads and findings into step
  (`ReviewRuns.OneRunIsNotEnough`, `ReviewRuns.OneRunSettles`); two do (`ReviewRuns.ThirdRunIsIdle`).
* Transcripts landed by a run that then fails or is killed are reported for extraction by nobody
  (`ConnectorSync.KilledRunLosesTranscript`, and exactly which: `ConnectorSync.NamedExactly`).
* A turn cut short by the tool cap or a throw is not metered (`AskAgent.FifthToolIsUnmetered`, and
  exactly when: `AskAgent.MeteredUnlessCut`).
* A question falls back when it exceeds the limit of six model turns, the code says
  (`apps/api/src/retrieval/agentic-qa.service.ts:57-61`); that limit is never reached, as the tool cap
  ends the loop by the fifth turn (`AskAgent.TurnLimitNeverReached`).
* "A second write adds no duplicate rows" (`packages/identity/src/persist-graph.ts:100-102`) holds for
  people and organizations exactly when `GraphWrite.RepeatedWritesExactly` says; it fails for a person
  whose only ref is a domain (`GraphWrite.DomainOnlyPerson`), and as in `GraphWrite.TwiceStripped`.
* `created_at` holds microseconds (`packages/db/src/columns/_helpers.ts:9-10`) and a page cursor whole
  milliseconds, so rows that share a millisecond with the last row of a page can be skipped
  (`KeysetPager.SharedTimeLosesRow`, and exactly when none is: `KeysetPager.EachRowOnceExactly`).

## Model

| member | source | states |
|---|---|---|
| `JaroWinkler.Compute` | packages/identity/src/matching.ts:127-168 | the array-and-counter algorithm returns exactly the similarity that `SimilarityValue` and `PositiveExactly` below describe, for all strings; the chase for the next mark of `b` never runs past its end |
| `JaroWinkler.MarkMatches` | packages/identity/src/matching.ts:131-146 | the nested loops mark exactly the positions of the greedy windowed matching, and the counter equals the number of marks |
| `JaroWinkler.CountMismatches` | packages/identity/src/matching.ts:149-156 | walking both mark arrays counts the positions where the kept characters differ; equally many marks make it safe |
| `JaroWinkler.EqualCounts` | packages/identity/src/matching.ts:135-146 | both mark arrays hold the same number of marks at every stage of the scan |
| `JaroWinkler.StableMatchingUnique` | packages/identity/src/matching.ts:135-146 | there is at most one matching in which no compatible pair was passed over by both members |
| `JaroWinkler.GreedyIsStable` | packages/identity/src/matching.ts:135-146 | the greedy left-to-right scan produces such a matching |
| `JaroWinkler.SameMarks` | packages/identity/src/matching.ts:135-146 | scanning from `a` or from `b` marks the same positions of both strings |
| `JaroWinkler.SimilaritySymmetric` | packages/identity/src/matching.ts:127-168 | the similarity does not depend on argument order, for all strings |
| `JaroWinkler.SimilarityRange` | packages/identity/src/matching.ts:127-168 | the similarity lies in [0, 1] and is 1 exactly for equal non-empty strings |
| `JaroWinkler.SimilarityValue` | packages/identity/src/matching.ts:127-168 | the value for different strings, from any stable matching over pairs of equal characters at equal positions or with their distance plus one at most half the longer length: with `m` pairs, `d` places where the matched characters read in order differ and a common prefix `p` of up to 4, `jaro = (m/len(a) + m/len(b) + 1 - d/(2m)) / 3` and the result is `jaro + p/10 * (1 - jaro)`; 0 when nothing matches |
| `JaroWinkler.NearMatchingExists` | packages/identity/src/matching.ts:131-146 | there always is such a matching |
| `JaroWinkler.PositiveExactly` | packages/identity/src/matching.ts:131-168 | the similarity of two strings is above 0 if and only if some `a[i] == b[j]` with `i == j` or the distance of `i` and `j`, plus one, at most half the longer length |
| `Candidates.QueueBand` | packages/identity/src/matching.ts:174-218 | the queue decision in terms of the name alone: 0.9 without a signal, 0.79 with one, 0.74 with both; a fuzzy score never merges by itself |
| `Candidates.ScoreExactly` | packages/identity/src/matching.ts:196-210 | the score of a pair is its name similarity, 0.05 more for each of the two signals, but at most 0.99 |
| `Candidates.SignalsExactly` | packages/identity/src/candidates.ts:69-98 | the two signals hold exactly when both people name some domain, as a domain ref or after the last `@` of an email ref with something before it, and when both are members of some organization |
| `Candidates.PairSymmetric` | packages/identity/src/candidates.ts:69-98 | score, signals and queue decision of a pair are the same from either side |
| `Candidates.QueuedPairsAreSimilar` | packages/identity/src/candidates.ts:74-98 | a queued pair has name similarity at least 0.74, and 0.9 or a shared signal |
| `Candidates.ReviewQueue.FindMatchCandidates` | packages/identity/src/candidates.ts:36-100 | scanning one person reports one candidate for each scanned person in the band (no person twice in the table), sorted by score, and adds a queue row for exactly those not queued yet |
| `Candidates.ReportContents` | packages/identity/src/candidates.ts:69-98 | the report has one candidate for each scanned person whose pair is in the band, with the score and signals of the pair, marked as newly queued exactly when the pair was not in the queue before the scan |
| `Candidates.OthersAreOldest` | packages/identity/src/candidates.ts:54-68 | a person is left out of a scan only when the limit is used up by people who come earlier |
| `Candidates.RowInFields` | packages/identity/src/candidates.ts:102-119 | a queue row has the two ids, smaller first, and the score and signals of the pair |
| `Candidates.ReviewQueue.EnqueuePair` | packages/identity/src/candidates.ts:102-119 | the unordered pair is stored once, smaller id first; a second insert changes nothing |
| `Candidates.RunSettles` | packages/identity/src/candidates.ts:36-119 | after scanning any list of people the queue is the old one plus one row per new pair some scan brought up |
| `Candidates.OrderIrrelevant` | packages/identity/src/candidates.ts:36-119 | the order and repetition of scans does not change which rows are queued |
| `Candidates.EitherSideFinds` | packages/identity/src/candidates.ts:54-98 | with a scan limit covering everyone, scanning either member finds the pair |
| `Refs.NormalizeExternalRefs` | packages/identity/src/matching.ts:45-59 | normalized refs, empty ones dropped, first occurrences kept in order |
| `Refs.UnionRefs` | packages/identity/src/matching.ts:62-72 | the union of two ref lists: everything of either side once, first side first |
| `Refs.DedupeAppend` | packages/db/src/graph-write.ts:42-57 | deduplicating early changes nothing, so both union functions of the repository agree |
| `Refs.UnionShrinksWhenShared` | packages/identity/src/matching.ts:62-78 | two entities share an exact ref if and only if their union is shorter than both lists together |
| `Refs.UnionKeepsStable` | packages/identity/src/matching.ts:45-72 | a ref that the normalizer leaves alone is never lost by a union |
| `Refs.UnionExactly` | packages/identity/src/matching.ts:45-72 | a union holds exactly what the refs of either side normalize to, each once, and begins with the normalized first side in its order |
| `Refs.DedupePrefix` | packages/identity/src/matching.ts:45-59 | first occurrences keep their order: more refs only add at the end |
| `Relations.DerivableIsLeast` | packages/authz/src/in-memory.ts:25-53 | derivability is contained in everything closed under tuples and union/arrow rules |
| `Relations.DerivableIsFixedPoint` | packages/authz/src/in-memory.ts:25-53 | derivability is itself a fixed point, hence the least one |
| `Relations.DerivableIsSmallestClosed` | packages/authz/src/in-memory.ts:25-53 | derivability is the smallest set closed under the single rules: a tuple gives its relation to the subject it names, or to everyone with the relation it names; a permission follows from each relation of its union, and from the target permission along each of its arrows |
| `InMemoryAuthz.InMemoryAuthzClient.Resolve` | packages/authz/src/in-memory.ts:114-147 | the search with one shared `seen` set answers derivability; on false everything it visited is refuted, so no later answer is lost; the unvisited keys bound the recursion |
| `InMemoryAuthz.InMemoryAuthzClient.RelationHolds` | packages/authz/src/in-memory.ts:149-171 | the tuple scan for a relation, userset subjects included, under the same contract |
| `InMemoryAuthz.RefutedNotDerivable` | packages/authz/src/in-memory.ts:114-147 | if every visited key would fail even with all unvisited keys granted, none of the visited keys is derivable |
| `InMemoryAuthz.InMemoryAuthzClient.Check` | packages/authz/src/in-memory.ts:62-64 | `check` is true exactly when the permission is derivable, for every finite store and rule table, cyclic ones included |
| `InMemoryAuthz.InMemoryAuthzClient.LookupResources` | packages/authz/src/in-memory.ts:94-103 | exactly the ids on which `check` holds, ascending, without duplicates |
| `Sorting.StringOrder` | packages/authz/src/in-memory.ts:94-103 | the order in which ids are listed and times compared: one string comes before another when it begins the other, or is smaller at the first place where they differ |
| `InMemoryAuthz.OnlyMentionedIds` | packages/authz/src/in-memory.ts:94-103 | an id that no tuple mentions as resource can never be granted, so the candidates of the lookup suffice |
| `InMemoryAuthz.InMemoryAuthzClient.WriteRelationships` | packages/authz/src/in-memory.ts:66-88 | the stored set after a batch; on a colliding CREATE exactly the updates before it have been applied |
| `InMemoryAuthz.InMemoryAuthzClient.DeleteRelationships` | packages/authz/src/in-memory.ts:90-92 | exactly the tuples the filter matches are removed |
| `InMemoryAuthz.FilterExtremes` | packages/authz/src/in-memory.ts:185-197 | a filter that sets every field is about one tuple, one that sets only the types about all tuples of them |
| `InMemoryAuthz.LastWordDecides` | packages/authz/src/in-memory.ts:66-88 | after a batch a tuple is stored according to the last update about it |
| `InMemoryAuthz.FailedBatchLeavesStoreExactly` | packages/authz/src/in-memory.ts:66-88 | a failed batch leaves the store as it was if and only if every tuple named before the collision ends as it was |
| `InMemoryAuthz.FailedBatchCanChangeStore` | packages/authz/src/in-memory.ts:66-88 | a batch that fails and still changes the store: writes are not all-or-nothing |
| `AuthzClient.Perform` | packages/authz/src/client.ts:91-144 | each typed helper is one write or delete on the store and never fails; what it does to the stored set is what the rows below say users can do afterwards |
| `AuthzClient.ContributeExactly` | packages/authz/src/in-memory.ts:28-53 | over any run of helpers a user can contribute exactly with a direct member or admin role |
| `AuthzClient.AdministerExactly` | packages/authz/src/in-memory.ts:28-53 | a user can administer an engagement exactly with a direct admin role |
| `AuthzClient.ViewExactly` | packages/authz/src/in-memory.ts:28-53 | a user can view exactly with a direct role or as admin of a linked parent tenant |
| `AuthzClient.TenantAdministerExactly` | packages/authz/src/in-memory.ts:28-53 | a user can administer a tenant exactly with a direct tenant admin role |
| `AuthzClient.BelongExactly` | packages/authz/src/in-memory.ts:28-53 | a user belongs to a tenant exactly with a direct member or admin role on it |
| `AuthzClient.PermissionsByHistory` | packages/authz/src/client.ts:91-144 | what a user can do after any run of helper calls, read off the calls alone: a role counts from its grant to the next revocation for that user and resource, a link for ever |
| `AuthzClient.EngagementGrantBrings` | packages/authz/src/client.ts:91-104 | a grant of an engagement role brings that user on that engagement view as viewer, contribute as well as member, and administer as well as admin, on top of what the user could do before; nothing else changes for anyone |
| `AuthzClient.TenantGrantBrings` | packages/authz/src/client.ts:115-124 | a tenant grant makes the user belong to the tenant, and only the admin role lets the user administer it; a member role changes nobody's view of an engagement, no grant takes a view away, and nothing changes for other users |
| `AuthzClient.TenantRevocationTakes` | packages/authz/src/client.ts:126-132 | after a tenant revocation the user neither belongs to the tenant nor administers it; nobody gains a view of an engagement by it, and nothing changes for other users and tenants |
| `AuthzClient.LinkBrings` | packages/authz/src/client.ts:134-144 | a link lets exactly the admins of the tenant view the engagement, besides those who could already; nothing else changes for anyone |
| `AuthzClient.RevocationHolds` | packages/authz/src/client.ts:106-113 | after a revocation, and any later run without a new grant, the user cannot contribute or administer and can view only as admin of a linked tenant |
| `AuthzClient.RevocationIsLocal` | packages/authz/src/client.ts:106-113 | a revocation changes no other user and no other engagement |
| `KeyLifecycle.StepKeeps` | packages/db/src/engagement.ts:27-220 | every enabled step of any session, rotation, shred or purge keeps the lock, key and audit invariant |
| `KeyLifecycle.Safety` | packages/db/src/engagement.ts:27-220 | in every reachable state the row of a live engagement opens, at the key service, to the one data key under the customer key it names or under the tenant key when it names none; every running session and every stored ciphertext has that data key; `crypto_shred` is logged exactly once exactly when shredded; one `byok_key_rotated` per completed rotation |
| `KeyLifecycle.UncommittedLeavesNoTrace` | packages/db/src/engagement.ts:27-220 | take any run, whatever is interleaved, and any session, rotation or shred in it that does not commit: the same run without its steps is enabled and ends in the same row, tables, audit log and other processes |
| `KeyLifecycle.FailedRotationLeavesNoTrace` | packages/db/src/engagement.ts:149-220 | for a rotation that is refused or rolled back in any run: without it the others reach the same row, tables and audit log and hold the same locks |
| `KeyLifecycle.RotationMovesKey` | packages/db/src/engagement.ts:189-220 | after a completed rotation the row names the requested key and its blob unwraps, under that key or under the tenant key when none was requested, to the same data key |
| `KeyLifecycle.CommitShowsWrites` | packages/db/src/engagement.ts:27-67 | a committed session leaves its rows in the tables, each where it was put, and every other row as it was |
| `KeyLifecycle.AllOthersStay` | packages/db/src/engagement.ts:27-220 | whatever is interleaved, the rows of other engagements stay as they are |
| `KeyLifecycle.ShreddedStep` | packages/db/src/engagement.ts:84-110 | from a shredded state no step touches the row, writes in a session, or adds ciphertext |
| `KeyLifecycle.ShreddedIsTerminal` | apps/workers/src/activities/crypto-shred.ts:101-143 | the same over any run: why checking the status once, in an earlier transaction, is enough for the purge |
| `KeyLifecycle.PurgedForGood` | apps/workers/src/activities/crypto-shred.ts:101-143 | once any purge has completed, and ever after, no row of the engagement carries ciphertext, whatever ran concurrently |
| `KeyLifecycle.PurgeMakesProgress` | packages/db/src/crypto-shred-purge.ts:282-307 | of the batches a purge has left, each of its batches uses up at least one, and no step of any process adds one |
| `KeyLifecycle.PurgeIsBounded` | packages/db/src/crypto-shred-purge.ts:282-307 | in any run, whatever is interleaved, a purge runs at most one batch for each row that carried ciphertext and one more for each table |
| `KeyLifecycle.WaiterCanBeServed` | packages/db/src/engagement.ts:40-67 | from every reachable state, whoever waits for the row gets it, or is refused, once the present holders have ended, and they always can |
| `KeyLifecycle.WaitsExactly` | packages/db/src/engagement.ts:40-67 | a session waits exactly while a rotation or shred holds the row, so sessions run side by side; a rotation waits while anyone holds it, and so does a shred of a live row; whoever need not wait gets a live row and is refused a dead one |
| `KeyLifecycle.PurgeCanComplete` | apps/workers/src/activities/crypto-shred.ts:101-143 | from every reachable state a purge of a shredded engagement can go to its end by its own steps and leaves no ciphertext; a purge of a live engagement is turned away |
| `Purge.Database.PurgeBatch` | packages/db/src/crypto-shred-purge.ts:65-96 | one batch blanks up to `limit` rows that carry ciphertext, reports how many, and leaves every other row alone |
| `Purge.BlankedCells` | packages/db/src/crypto-shred-purge.ts:65-96 | a blanked row has the empty value in each NOT NULL column and null in every other encrypted one |
| `Purge.Database.PurgeEngagementCiphertext` | packages/db/src/crypto-shred-purge.ts:282-307 | terminates; afterwards every encrypted column of the engagement is blank and nothing else changed; the total is the sum of the per-table counts, each the number of rows that carried ciphertext |
| `Purge.PurgeIdempotent` | packages/db/src/crypto-shred-purge.ts:282-307 | a second purge finds nothing and changes nothing |
| `Engagements.EngagementDb.WithEngagement` | packages/db/src/engagement.ts:27-67 | a session alone: refused exactly on a dead row, its rows land together or not at all, and it is a run of the interleaved model |
| `Engagements.EngagementDb.ShredEngagement` | packages/db/src/engagement.ts:84-110 | a shred alone: row emptied and one audit entry exactly when it was not shredded, as a run of the interleaved model |
| `Engagements.EngagementDb.RotateEngagementKey` | packages/db/src/engagement.ts:149-220 | a rotation alone: exactly when it succeeds, and then the row names the new key and holds the data key wrapped under it, or under the tenant key when none is given; nothing at all is written otherwise; as a run of the interleaved model |
| `ConnectorSync.SyncStore.UpsertSyncState` | apps/workers/src/activities/connector-sync.ts:96-118 | absent fields of the patch keep the stored value, and nothing else changes |
| `ConnectorSync.SyncStore.LandInTransaction` | apps/workers/src/activities/connector-sync.ts:260-341 | one source row per dedupe key with its own ACL snapshot and graph write, also when a rival writer wins the insert |
| `ConnectorSync.SyncStore.IngestArtifact` | apps/workers/src/activities/connector-sync.ts:217-341 | an existing artifact changes nothing; a new one lands completely or not at all |
| `ConnectorSync.SyncStore.Consume` | apps/workers/src/activities/connector-sync.ts:428-458 | tables, counters and the way the loop stops are the specified ones for every stream, rival and fate; a drained stream has landed every artifact it emitted |
| `ConnectorSync.SyncStore.RunConnectorSyncActivity` | apps/workers/src/activities/connector-sync.ts:343-467 | the tables and the result are, whatever throws or dies, those whose cursor, status, rows and counts the rows below describe; everything the persisted cursor covers is in the tables; a completed run leaves exactly the old rows plus everything upstream |
| `ConnectorSync.UndisturbedCompletes` | apps/workers/src/activities/connector-sync.ts:343-467 | a run that meets no trouble completes and counts every artifact of its stream |
| `ConnectorSync.RunCursorExactly` | apps/workers/src/activities/connector-sync.ts:343-467 | the sync state after a run, read off its stream: a run that drains it persists and returns the last checkpoint, or the cursor it started from, goes back to idle and counts the artifacts; one that stops leaves the last checkpoint that went through, or the stored cursor, with status error after a throw and running after a kill |
| `ConnectorSync.StopExists` | apps/workers/src/activities/connector-sync.ts:428-458 | every run drains its stream or stops at one definite emit |
| `ConnectorSync.RowsRecordArtifacts` | apps/workers/src/activities/connector-sync.ts:260-341 | each row a run adds has the key, external id and kind of an artifact of its stream, and its own snapshot; a backfill streams from nothing, an incremental run from the stored cursor |
| `ConnectorSync.RunReportsOwnRows` | apps/workers/src/activities/connector-sync.ts:343-467 | a completed run counts exactly the rows it added itself, and names exactly the transcripts among them, rivals or not |
| `ConnectorSync.RunKeeps` | apps/workers/src/activities/connector-sync.ts:343-467 | one run, whatever throws or dies: no key is lost, none lands that is not upstream, a completed run has landed everything upstream, and the persisted cursor covers only what has landed |
| `ConnectorSync.SequenceKeeps` | apps/workers/src/activities/connector-sync.ts:343-467 | any sequence of backfill and incremental runs, each with its own connector, upstream and crashes: nothing that landed is lost, nothing lands that was upstream of none, and each completed run leaves all of its upstream in the tables; a connector need only bring again, from a cursor of an earlier one, what that one had not brought |
| `ConnectorSync.OneCoverageKeeps` | apps/workers/src/activities/connector-sync.ts:343-467 | the same when all connectors agree on what a cursor covers |
| `ConnectorSync.GrowingSequence` | apps/workers/src/activities/connector-sync.ts:343-467 | while the upstream only grows, a last run that completes leaves exactly what one backfill would |
| `ConnectorSync.RunSequence` | apps/workers/src/activities/connector-sync.ts:343-467 | the runs on the class: tables and results are the specified ones, with the guarantees of the three rows above |
| `Connectors.StreamPages` | packages/connectors/src/github/github-connector.ts:373-407 | pages, checkpoints and the newest time of the three polling connectors, emit by emit |
| `Connectors.ConnectorKeeps` | packages/connectors/src/granola/granola-connector.ts:186-211 | whichever documents the service lists, the Granola, GitHub and Linear connectors keep the promise that the sync relies on, leaving out from a cursor exactly what was older; Linear in any order of the listing |
| `Connectors.EditsAreCaughtUp` | packages/connectors/src/linear/linear-connector.ts:254-282 | a first sync and any runs after it, with any crashes, while documents are added, edited and deleted: each completed run leaves every document version listed for it |
| `Connectors.IncrementalBrings` | packages/connectors/src/linear/linear-connector.ts:254-282 | a completed incremental run brings exactly what is listed as not older than the cursor |
| `Connectors.DrainedStreamMovesOn` | packages/connectors/src/granola/granola-connector.ts:186-211 | a drained stream that listed anything leaves a cursor that no listed document is newer than, and that is no older than the one it started from |
| `Connectors.LateDocumentIsMissed` | packages/connectors/src/linear/linear-connector.ts:254-282 | a document that first appears with a time before the persisted cursor is not brought by a completed incremental run |
| `Connectors.EditQualifies` | packages/connectors/src/granola/granola-connector.ts:186-211 | one document edited between two runs, in any modes and with any crashes, is such a history |
| `Connectors.EditNeedsTwoCoverages` | packages/connectors/src/granola/granola-connector.ts:186-211 | no one coverage fits both of these runs |
| `ConnectorSync.NamedExactly` | apps/workers/src/activities/connector-sync.ts:343-467 | over any sequence of runs, a row is named for extraction by some result if and only if it is a transcript that landed during the runs and the run that added it completed |
| `ConnectorSync.KilledRunLosesTranscript` | apps/workers/src/activities/connector-sync.ts:343-467 | a run killed after landing a transcript, then a run that completes: the transcript is in the tables and no result names it |
| `Graph.MergedEdgesExactly` | packages/identity/src/review-queue.ts:246-294 | a merge leaves the untouched edges and the images of the touching ones less new loops; keys stay unique and nothing touches the dropped node |
| `Graph.MergedEdgesInFields` | packages/identity/src/review-queue.ts:246-294 | field by field: each edge of a merge is an untouched one, or has the engagement, predicate and source of a touching one with the dropped node replaced at its ends, and joins two nodes; each touching edge whose ends stay apart leaves an edge with its predicate between the places of its ends |
| `Graph.MergedRowsExactly` | packages/identity/src/review-queue.ts:187-238 | the dropped entity and the queue rows that name it are gone, the kept one has the united refs and its engagement and type, and everything else is as it was |
| `Graph.LinkSurvives` | packages/identity/src/review-queue.ts:246-294 | each link between two nodes survives between their images, unless the images coincide |
| `Graph.WalkSurvives` | packages/identity/src/review-queue.ts:246-294 | every walk from u to v becomes a walk from the image of u to the image of v |
| `Graph.MergeKeepsWellFormed` | packages/identity/src/review-queue.ts:187-238 | a merge keeps every edge attached in its own engagement, edge keys unique and the queue well formed |
| `ReviewDecision.RepointEntityEdges` | packages/identity/src/review-queue.ts:246-294 | insert-then-delete yields exactly the merged edges, and the count is the number of edges added |
| `ReviewDecision.MergeInto` | packages/identity/src/review-queue.ts:187-238 | refs united, edges repointed, the dropped entity and its queue rows gone, the tables well formed |
| `ReviewDecision.ApplyMatchDecision` | packages/identity/src/review-queue.ts:116-238 | the refusals, the rejection and the merge; a refused decision changes nothing |
| `ReviewDecision.RefusedExactly` | packages/identity/src/review-queue.ts:116-238 | a decision is refused exactly when no pending row with its id allows it: a rejection is always allowed, a merge when the side to keep is one of the two and both exist in one engagement |
| `GraphWrite.UpsertEntityByRef` | packages/db/src/graph-write.ts:95-168 | a matched row gains the refs it lacked, else one row is created; nothing else changes and every ref of the record then has a node |
| `GraphWrite.UpsertIdempotent` | packages/db/src/graph-write.ts:95-168 | upserting the same record again creates nothing, and changes nothing when it finds the row that has its refs |
| `GraphWrite.ResolveEntity` | packages/identity/src/resolve-entity.ts:38-112 | the first tier with a hit decides; without one a row is created |
| `GraphWrite.FirstKindWins` | packages/identity/src/matching.ts:91-108 | a row that shares an ordinary ref is chosen before one that shares only an email, that before an SSO subject, that before a domain, which counts for organizations only; without any a row is created |
| `GraphWrite.CreatesExactly` | packages/identity/src/resolve-entity.ts:38-112 | a write of a person or organization creates a row if and only if no row carries one of its looked-up refs |
| `GraphWrite.RepeatedWritesExactly` | packages/identity/src/resolve-entity.ts:38-112 | writing a person or organization again and again, over any table, creates no row after the first write if and only if some incoming ref is normalized once more to an incoming ref that is looked up |
| `GraphWrite.TwiceStripped` | packages/identity/src/resolve-entity.ts:38-112 | an organization known only by the domain `www.www.x`: the third write creates a second row |
| `GraphWrite.DomainOnlyPerson` | packages/identity/src/resolve-entity.ts:38-112 | a person whose refs are all domains gets a new row with every write |
| `GraphWrite.GrowsKeepsFirm` | packages/db/src/graph-write.ts:42-57 | a ref that leads to a node keeps leading to one through every later write |
| `GraphWrite.ResolveEndpointRef` | packages/db/src/graph-write.ts:313-348 | an endpoint is an entity that carries the ref, else the fact the ref names, else none |
| `GraphWrite.UpsertRelationship` | packages/db/src/graph-write.ts:256-286 | an edge is added exactly when its key is new; an existing row keeps its source |
| `PersistGraph.EnqueuePair` | packages/identity/src/candidates.ts:102-119 | at most one row per unordered pair, smaller id first |
| `PersistGraph.QueueMatches` | packages/identity/src/candidates.ts:36-100 | after a scan exactly the picked pairs are queued |
| `PersistGraph.ResolveRecords` | packages/identity/src/sync-seam.ts:24-39 | people and organizations first, in order: each is resolved as `resolveEntity` does, then exactly the pairs picked for review with it are queued, and its refs have nodes |
| `PersistGraph.UpsertRecords` | packages/identity/src/persist-graph.ts:130-162 | the other entities, in order: a record gains its matched row the refs it lacked or adds one row, and changes no other; each ref gets its node, new work items are listed once, and a fact of this engagement is added exactly by each record that matches a row whose status it changes |
| `PersistGraph.RepeatedUpserts` | packages/identity/src/persist-graph.ts:100-102 | a second pass over the same work items, documents and meetings, whatever was written in between, creates no row |
| `PersistGraph.LinkRecords` | packages/identity/src/persist-graph.ts:164-182 | an edge is drawn for a relationship record exactly when both ends resolve, and for nothing else; the rest are counted as deferred; new edges carry this source |
| `PersistGraph.SelfContainedLinks` | packages/identity/src/persist-graph.ts:86-102 | an artifact that names both ends of its relationships defers none of them |
| `PersistGraph.GrowsKeepsRemembered` | packages/identity/src/persist-graph.ts:100-102 | what a pass leaves for its repetition is not taken away by later writes |
| `PersistGraph.Persist` | packages/identity/src/persist-graph.ts:108-185 | the tables go through the three loops above, record by record; the graph stays well formed and every field of the tally is the actual growth of the tables; a thrown error leaves nothing behind; a repetition reports no new work item, and adds no entity when each person and organization has a looked-up ref that the normalizer leaves alone |
| `Findings.DedupeFindings` | tools/review/src/passes.ts:67-78 | the loop computes the greedy selection from the stably sorted findings |
| `Findings.DedupeSelects` | tools/review/src/passes.ts:60-78 | what is kept was reported, most severe first, and no two kept findings name the same issue |
| `Findings.DedupeCovers` | tools/review/src/passes.ts:60-78 | each dropped finding repeats a kept one at least as severe |
| `Findings.DedupeInFields` | tools/review/src/passes.ts:53-78 | field by field: no two kept findings of one file share a known line or a title slug, none comes before a more severe one, each dropped one repeats a kept one no less severe, and one that repeats no other is kept |
| `Findings.DedupeIdempotent` | tools/review/src/passes.ts:67-78 | deduplicating twice changes nothing |
| `Findings.DedupeKeepsOrder` | tools/review/src/passes.ts:67-78 | findings of one severity are looked at in the order in which they were reported |
| `Findings.DedupeKeepsVerdict` | tools/review/src/github.ts:195-198 | deduplication preserves the approve verdict at every blocking severity |
| `Findings.ApproveExactly` | tools/review/src/github.ts:195-198 | approval exactly when every finding is below the blocking severity |
| `Findings.ApprovalLevel` | tools/review/src/github.ts:195-198 | approval at a level exactly when each finding is less severe than it, from high over medium and low to nit |
| `ReviewThreads.FindingMapContents` | tools/review/src/github.ts:155 | the map of current findings holds, for each key, the last finding reported under it |
| `ReviewThreads.PlanActions` | tools/review/src/github.ts:148-188 | exactly which findings get a comment and which threads are resolved or reopened |
| `ReviewThreads.ThreadActions` | tools/review/src/github.ts:179-186 | an open thread is resolved exactly when no current finding has its key and neither its pass nor, for a thread without one, any pass failed; a resolved one is reopened exactly when a current finding has its key |
| `ReviewThreads.CreatedInFields` | tools/review/src/github.ts:162-177 | a finding gets a comment exactly when no thread has its key and it is further than the window from every open thread and every finding created before it in the same file |
| `ReviewSink.FollowsKeepsCurrent` | tools/review/src/github.ts:572-599 | a run leaves the excluded threads excluded, so the next run on the same findings plans for the same ones |
| `ReviewSink.SettledOnce` | tools/review/src/github.ts:542-646 | what a run makes of a thread it leaves alone the next time |
| `ReviewSink.ThreadOutcome` | tools/review/src/github.ts:542-646 | what becomes of a thread, from its own fields, the reported findings, the withdrawals and the failed passes |
| `ReviewSink.TakesPartExactly` | tools/review/src/github.ts:572-599 | a finding is planned for exactly when no thread with its key is or was withdrawn, carries a dismissal, or was resolved by anyone but the tool; the threads planned against are those not stopped so themselves |
| `ReviewSink.NewThreads` | tools/review/src/github.ts:605-614 | a fresh thread for each planned finding with a line that the host accepts, with its key, pass, file and line, and no other |
| `ReviewEmit.PullRequest.Emit` | tools/review/src/github.ts:531-646 | withdrawing, acknowledging, posting, resolving and reopening call by call amounts to one step of the thread list, and keys stay unique |
| `ReviewRuns.KeysStayUnique` | tools/review/src/github.ts:148-188 | no thread is ever created with the key of another |
| `ReviewRuns.NextRunIsQuiet` | tools/review/src/github.ts:179-185 | after any run the next plan resolves and reopens nothing |
| `ReviewRuns.CreatedAgain` | tools/review/src/github.ts:162-177 | planning again once the comments are there creates exactly what could not be posted |
| `ReviewRuns.ThirdRunIsIdle` | tools/review/src/github.ts:148-188 | two runs reach a fixed point: the third resolves, reopens and posts nothing and leaves every thread as it is, for any lines, failed passes and earlier withdrawals |
| `ReviewRuns.ThirdPlanIsEmpty` | tools/review/src/github.ts:148-188 | when every comment can be posted the third plan is empty |
| `ReviewRuns.OneRunIsNotEnough` | tools/review/src/github.ts:169-186 | a reworded finding beside its old thread appears only with the second run |
| `ReviewRuns.OneRunSettles` | tools/review/src/github.ts:169-186 | the second run posts nothing if and only if the first leaves no postable finding without a thread, other than near one that cannot be posted; without withdrawals this is also exactly when one run reaches a fixed point |
| `ReviewRuns.PostableRunSettles` | tools/review/src/github.ts:169-186 | when every comment can be posted: the second plan is empty if and only if no finding is suppressed only by threads that the first run resolves |
| `Chunker.ChunkTranscript` | apps/workers/src/activities/chunk-transcript.ts:38-74 | the options it refuses and the chunks it returns, with the defaults |
| `Chunker.Windows` | apps/workers/src/activities/chunk-transcript.ts:57-73 | the loop produces exactly the specified chunks and always makes progress |
| `Chunker.ChunksCover` | apps/workers/src/activities/chunk-transcript.ts:57-73 | for any options the chunks are slices of the text that start at its beginning, leave no gap and end with it |
| `Chunker.ChunkRefs` | apps/workers/src/activities/chunk-transcript.ts:57-73 | chunks are numbered from 0 under the digest of the whole text |
| `Chunker.ChunkEnds` | apps/workers/src/activities/chunk-transcript.ts:60-67 | a chunk whose window reaches the end goes to the end; any other ends just after the last line break of the second half of its window, or with the window when there is none |
| `Chunker.ChunkStarts` | apps/workers/src/activities/chunk-transcript.ts:70-71 | the next chunk starts `overlapChars` before the end of one that is longer than that, else one character after its start |
| `Chunker.CeilingExactly` | apps/workers/src/activities/chunk-transcript.ts:60-67 | every chunk returned has at most `maxChars + 1` characters, and more than `maxChars` exactly when a line break stands right after its window |
| `Chunker.CeilingExceeded` | apps/workers/src/activities/chunk-transcript.ts:60-67 | for every size and overlap: a text with a line break at position `maxChars` gets a first chunk of `maxChars + 1` characters |
| `Chunker.ChunksOverlap` | apps/workers/src/activities/chunk-transcript.ts:57-73 | with overlap at most half the window, chunks overlap exactly and their ends strictly increase |
| `Chunker.ChunksAreFaithful` | apps/workers/src/activities/chunk-transcript.ts:57-73 | ... and removing overlaps rebuilds the text, and every passage of up to `overlapChars + 1` characters lies in one chunk |
| `Chunker.FaithfulExactly` | apps/workers/src/activities/chunk-transcript.ts:57-73 | these hold for every text if and only if `2 * overlapChars <= maxChars + 1` |
| `Chunker.LargeOverlapTears` | apps/workers/src/activities/chunk-transcript.ts:57-73 | for any larger overlap, a text on which they fail |
| `Chunker.DefaultsAreFaithful` | apps/workers/src/activities/chunk-transcript.ts:43-73 | the default overlap keeps these promises for every text and every size |
| `Extraction.HonestQuoteIsLocated` | apps/workers/src/activities/extraction-pipeline.ts:287-310 | a true quote from a chunk is located at its place in the source |
| `Extraction.ShortPassageCanBeCited` | apps/workers/src/activities/extraction-pipeline.ts:287-310 | every short passage of the source can be quoted from some chunk and is found again exactly |
| `Extraction.RunWritesOwnRows` | apps/workers/src/activities/extraction-pipeline.ts:251-327 | whatever the model answers, no stored span misquotes the source and evidence only refers to facts of its own run |
| `Extraction.RunStoresAnswers` | apps/workers/src/activities/extraction-pipeline.ts:251-327 | an attempt stores, in order, one fact with its summary for each fact the model gives for a chunk, and under it each of its quotes, with the span in the source exactly when the quote stands there |
| `Extraction.MissesExactly` | apps/workers/src/activities/extraction-pipeline.ts:287-310 | the miss count is the number of quotes given with a span that does not hold |
| `Extraction.WipeContents` | apps/workers/src/activities/extraction-pipeline.ts:159-181 | the wipe before an attempt takes the facts and evidence of its own run and the embeddings of its source, and nothing else |
| `Extraction.EmbeddedContents` | apps/workers/src/activities/extraction-pipeline.ts:256-265 | one embedding row for each chunk, in order, by source and chunk ref |
| `Extraction.Store.RunExtraction` | apps/workers/src/activities/extraction-pipeline.ts:152-327 | an attempt replaces the rows of an earlier attempt by exactly the rows of this one; the counts are exact |
| `Extraction.RetryReplaces` | apps/workers/src/activities/extraction-pipeline.ts:152-181 | a retry finds, under its own rows, exactly what the first attempt found |
| `Sse.ParseSseStream` | apps/web/src/lib/sse.ts:8-35 | the events depend only on the concatenated text, and after each read exactly those of the text so far have been yielded |
| `Sse.EventsAppend` | apps/web/src/lib/sse.ts:17-30 | parsing may stop at any point and continue with the unfinished rest |
| `Sse.EventsGrow` | apps/web/src/lib/sse.ts:17-30 | more text only adds events |
| `Sse.FramePayload` | apps/web/src/lib/sse.ts:17-30 | the payload of a frame: the values of its data fields, with or without the space after the colon, one under the other; other lines do not count |
| `Sse.EncodedEvents` | apps/web/src/lib/sse.ts:21-28 | encoding any payloads, of any lines, and parsing returns the non-empty ones in order |
| `KeysetPager.ResolveLimit` | packages/core/src/pagination.ts:17-21 | the page size lies in 1..500 and is the requested one when that does |
| `KeysetPager.PageIsExact` | packages/audit/src/list-access.ts:43-94 | a page is exactly the newest matching rows from below its cursor down to its last row, in strictly descending order, and its next cursor is made from that row |
| `KeysetPager.PageInFields` | packages/audit/src/list-access.ts:43-94 | field by field: a page, newest first, has exactly the rows of the wanted engagement, actor, action and time that lie past its cursor, down to where it is full; the next cursor is the id and the whole milliseconds of its last row |
| `KeysetPager.FollowDescends` | packages/audit/src/list-access.ts:43-94 | following the cursors never repeats a row and never goes up, whatever is inserted meanwhile |
| `KeysetPager.FollowIsSound` | packages/audit/src/list-access.ts:43-94 | each received row matches and was in the table |
| `KeysetPager.EachRowOnceExactly` | packages/db/src/retrieval.ts:55-102 | for all page sizes and inserts, each matching row present at the start is received exactly once by the end, if and only if every matching row lies below the cursors made from the matching rows newer than it |
| `KeysetPager.SharedTimeLosesRow` | packages/core/src/pagination.ts:23-28 | of two matching rows with one creation time that is not a whole millisecond, the older is never received when a page ends at the newer |
| `KeysetPager.EachInitialRowOnce` | packages/db/src/retrieval.ts:55-102 | where all times are whole milliseconds, each matching row present at the start is received exactly once, for any page sizes and inserts |
| `KeysetPager.StillTableEnds` | packages/db/src/retrieval.ts:55-102 | on a table that does not change the walk ends |
| `AsyncQueues.AsyncQueue.PushItem` | apps/api/src/retrieval/agentic-qa.service.ts:280-284 | a push wakes the waiting reader or joins the items |
| `AsyncQueues.AsyncQueue.CloseQueue` | apps/api/src/retrieval/agentic-qa.service.ts:286-291 | closing wakes the waiting reader, once |
| `AsyncQueues.AsyncQueue.ResumeReader` | apps/api/src/retrieval/agentic-qa.service.ts:293-304 | one resumption of the iterator |
| `AsyncQueues.Interleave` | apps/api/src/retrieval/agentic-qa.service.ts:275-305 | any interleaving of pushes, close and reads on the class is the corresponding run of the specification |
| `AsyncQueues.RunConserves` | apps/api/src/retrieval/agentic-qa.service.ts:275-305 | in every interleaving: yielded, in flight and queued items are what was pushed, in order; the reader only waits when there is nothing to take |
| `AsyncQueues.ClosedDrains` | apps/api/src/retrieval/agentic-qa.service.ts:293-304 | after the close the reader yields the rest and ends |
| `AgentLoop.RunAgentLoop` | packages/llm/src/router.ts:216-270 | the turn loop with its early exits does exactly the specified steps |
| `AgentLoop.AgentLoopAnswers` | packages/llm/src/router.ts:227-269 | at most `maxIterations` requests, and each carries one result for each call since the request before, same ids, same order, whatever the provider does |
| `AgentLoop.ResultsAreOutcomes` | packages/llm/src/router.ts:244-262 | when all calls of a turn return, the results are what the tools said, call by call |
| `AgentLoop.NextRequestCarriesOutcomes` | packages/llm/src/router.ts:227-269 | a turn whose calls return is followed by a request that carries exactly what the tools said |
| `AskAgent.RunLoop` | apps/api/src/retrieval/agentic-qa.service.ts:103-223 | what is pushed for a question, with the tool cap, an empty answer and every failure |
| `AskAgent.AlwaysAnswers` | apps/api/src/retrieval/agentic-qa.service.ts:95-223 | exactly one answer or error, as the last event; at most four tools invoked in at most six turns |
| `AskAgent.FinalEvent` | apps/api/src/retrieval/agentic-qa.service.ts:140-223 | the last event: the last text among the generator's steps when the tool server came up, nothing was cut and that text is not empty; in every other case what the one-shot answer gives |
| `AskAgent.ToolEvents` | apps/api/src/retrieval/agentic-qa.service.ts:160-190 | the tool events of a question that is not cut: for each result in turn a start, then `ok`, or `error` when the tool reported one |
| `AskAgent.TurnLimitNeverReached` | apps/api/src/retrieval/agentic-qa.service.ts:140-198 | however many turns are allowed, at most five requests are made for a question: a turn goes on to another only after a tool call, and the fifth tool call ends the loop |
| `AskAgent.CutExactly` | apps/api/src/retrieval/agentic-qa.service.ts:140-198 | the loop is cut short exactly when the steps hold more than four tool calls or a throw |
| `AskAgent.MeteredUnlessCut` | packages/llm/src/router.ts:244-268 | every turn is metered exactly when the agent loop, run to its end, has at most four tool calls and no throw; otherwise all turns but the last are; tool steps come in started and finished pairs, and only a cut leaves one unfinished |
| `AskAgent.FifthToolIsUnmetered` | apps/api/src/retrieval/agentic-qa.service.ts:140-198 | a first turn that asks for five tools or more, the first four of which return: four are invoked, the fifth stays started, and no turn is metered |
| `AskAgent.FiveSearchesAreUnmetered` | apps/api/src/retrieval/agentic-qa.service.ts:140-198 | such a question, with one search asked for five times at once; the answer is the one-shot one |
| `AskAgent.AskYieldsEverything` | apps/api/src/retrieval/agentic-qa.service.ts:95-114 | in every interleaving the caller receives a prefix of the pushed events, and all of them by the end |
| `DotPath.ScanRecovers` | packages/core/src/custom-integration-mapping.ts:7-16 | the token scan of every path in the grammar recovers exactly its segments and indices |
| `DotPath.NameCharacters` | packages/core/src/custom-integration-normalize.ts:25-25 | the characters a name can begin with, and those that can follow |
| `DotPath.DotSeparates` | packages/core/src/custom-integration-normalize.ts:25-25 | for any two strings, the tokens of `p.q` are those of `p` followed by those of `q` |
| `DotPath.ResolveDotPath` | packages/core/src/custom-integration-normalize.ts:32-46 | the loop resolves as specified, with a miss at the first token that does not apply |
| `DotPath.ResolveComposes` | packages/core/src/custom-integration-normalize.ts:32-46 | resolving `p.q` is resolving `q` in the result of `p` |
| `DotPath.ResolveFollows` | packages/core/src/custom-integration-normalize.ts:32-46 | resolving a written path of fields and decimal indices gives the value at the end of those steps, and a miss when one of them does not exist |
| `CustomNormalize.NormalizeCustomArtifact` | packages/core/src/custom-integration-normalize.ts:69-140 | the records and issues of a mapping, and the strict failure on any issue |
| `CustomNormalize.StrictIsComplete` | packages/core/src/custom-integration-normalize.ts:69-140 | a strict normalization that succeeds emits one record per mapped entity and relationship, in order, each endpoint the ref of the entity it names |
| `CustomNormalize.LinksExactly` | packages/core/src/custom-integration-normalize.ts:125-136 | in any mode a relationship record is emitted if and only if some mapped relationship names, with the same predicate, the entities whose refs it joins, the last that emits of each name |
| `CustomNormalize.LinkCount` | packages/core/src/custom-integration-normalize.ts:125-136 | ... and as many as there are relationships with both ends emitted |
| `CustomNormalize.EntityExactly` | packages/core/src/custom-integration-normalize.ts:69-124 | an entity emits exactly when its payload has an id and a name, each a non-blank string or a number, and then the declared type, the attributes that resolve and a body that is a non-empty string |
| `CustomNormalize.IssuesExactly` | packages/core/src/custom-integration-normalize.ts:69-140 | the issues are exactly: a missing id or name; for an entity with both, a body that is there, not null and not a non-empty string, or an attribute that does not resolve; and a relationship with an end that no such entity is called, the first end before the second |

## Left out

- JaroWinkler.Compute: scores are exact reals; the rounding of 64-bit floating point at the thresholds 0.84, 0.74 and so on is not modelled.
- Candidates.ReviewQueue.FindMatchCandidates: the table holds people only, with names already folded and refs normalized; the scan is in table order.
- InMemoryAuthz.InMemoryAuthzClient.Check: the `seen` key is a triple; the string form joined with separators is taken as injective, and lookups of object-prototype names in the rule table are not modelled.
- KeyLifecycle.Safety: one engagement row at a time, as a step relation, because interleaved transactions are its subject (`Engagements` has the functions themselves); deadlock detection and lock timeouts appear only as failures.
- KeyLifecycle.WaiterCanBeServed: fairness of the lock queue is not modelled, only that holders can always end and a free row serves whoever waits.
- ConnectorSync.RunSequence: connectors keep their promise (`Connectors` proves it for three of them); a run cancelled in mid-stream, which ends as completed without the rest, is not modelled; retention policy, credentials and cipher rows are omitted.
- Connectors.EditsAreCaughtUp: listings by time of change are taken to include the time asked for and to be fixed while a run reads them; times are compared as strings, as the connectors compare them.
- GraphWrite.ResolveEntity: attributes, bodies and display names of entities are not modelled; refs, types and engagements are.
- GraphWrite.UpsertIdempotent: when several rows match a record, which of them is hit is not determined, so repeating it can move refs onto another matching row; it creates none (`PersistGraph.RepeatedUpserts`).
- PersistGraph.RepeatedUpserts: edges and queue rows of a repetition are only bounded by their unique keys, since which matching row an endpoint ref hits is not determined.
- PersistGraph.EnqueuePair: queue rows carry no score here; `Candidates` has the queue with scores, and the decision on a pair is a parameter of `PersistGraph`.
- PersistGraph.Persist: whether a stored status changed is a parameter per record, as attributes are not modelled.
- Graph.MergedEdgesExactly: edges carry key and source; `confidence` is not preserved by the original and not modelled.
- ReviewThreads.PlanActions: the list of threads that stay open is only used for the summary and is not modelled.
- ReviewEmit.PullRequest.Emit: replies, summaries and the formal review are not modelled; API calls succeed except that a comment may be refused for its line.
- Chunker.ChunkTranscript: non-integer option values, which the original refuses like negative ones, do not exist in the model.
- Sse.ParseSseStream: reads are decoded text; multi-byte decoding and CR line ends are not modelled.
- KeysetPager.ResolveLimit: requested sizes are whole numbers or not finite.
- KeysetPager.PageIsExact: the text form of cursors is not modelled, only that it carries whole milliseconds and that a malformed one is an error. Updates and deletes between pages are not covered.
- AgentLoop.AgentLoopAnswers: usage amounts and prompt assembly are omitted; the history a provider keeps is part of the provider.
- AskAgent.RunLoop: the generator's steps are listed to their end first; steps after the consumer leaves do not happen in the original and have no effect here.
- AskAgent.AlwaysAnswers: closing the trace is assumed not to throw; citations and history trimming are omitted.
- DotPath.ScanRecovers: array indices are unbounded naturals; the original's numbers lose precision only beyond any array length.
- CustomNormalize.StrictIsComplete: payloads are JSON values; `buildCustomRawArtifact` is not modelled.
- Strings are sequences of characters of the model, that is code points: beyond the basic plane, lengths in `Chunker` and `JaroWinkler` and the order of `Sorting` differ from JavaScript's code units.
- Email, domain and name normalization, prompt construction, pricing, HTTP, UI, OpenAPI and module wiring.
- Break-glass grants, trace counters, session maps, graph layout and the eval scorer: they would add only easy members.
- Embedding and vector search: floating-point library behaviour.
- The SpiceDB client, Postgres, Temporal, WorkOS, Nango and KMS clients: foreign calls.
