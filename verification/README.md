# strfry, modelled and proved in Dafny

strfry is a Nostr relay over an LMDB event store. This project models the parts of
it where a fast or concurrent piece of code has to agree with something much
simpler, and proves that agreement for all inputs, runs and interleavings.

| part of the relay | files | what the main theorems say |
|---|---|---|
| query engine | `Index`, `IndexExists`, `ScanCursors`, `MergeQueue`, `ScanInvariant`, `QuerySpec`, `Query`, `Requests`, `CursorCounts` | a query returns the newest matching events up to the limit, whichever index is used and wherever it pauses |
| filters | `Filters`, `JsonValues`, `Hex`, `FilterSets`, `FilterParser` | the compiled filter matches exactly what the JSON says; packed sets decide membership |
| event store | `Events`, `Writes`, `Settling`, `Batches`, `Database`, `LevIds` | store invariants over every run, exactly when arrival order matters, sync trees equal to the store, levIds never reused |
| live subscriptions | `Nested`, `MonitorSpec`, `ActiveMonitors`, `RelaySteps`, `StoredScans`, `Handoff`, `Deliveries` | the inverted index equals brute force; from REQ to live delivery, across threads, each matching event is sent exactly once, unless newer ones have used up a filter's limit in the stored scan |
| query scheduler | `Scheduler` | no use after free, no leak, fairness |
| import pipeline | `Pipeline`, `PipelineProgress` | nothing lost, counted twice or reordered in any interleaving, exactly if no packed string is empty; `flush` returns |
| rate limiter | `TokenBuckets`, `BucketCache`, `CacheRuns`, `RateLimiter` | request bounds over any window, exact LRU order, cleanup invisible |
| sync client | `SyncClient` | exact windows, each id handled once, never stuck |
| codecs | `PackedEvents`, `EventPacking`, `Fried` | round trips |

`Lex` holds byte strings and their order, `Seqs` small things about sequences. `dafny verify dfyconfig.toml` checks everything.

## How the model relates to the code

- An index is the list of its records sorted by (string, number, levId), derived from the
  events as `golpe.yaml` derives it. The key helpers and the iteration primitive of golpe
  are not part of this model; iteration in either direction starts at an inclusive position.
  `IndexExists` shows that every table has exactly one such list per index.
- Objects whose methods update fields are classes with the same fields; loops stay loops.
  Three protocols between threads (`RelaySteps`, `Pipeline`, `LevIds`) are state machines whose
  steps interleave freely. Where a theorem is about runs rather than about one call, the
  class methods are proved equal to a function of the old state and the theorem is about
  that function (`RateLimiter`, `SyncClient`, `Database` with `Writes` and `Batches`).
- The scan is proved once for a store that changes while the query is paused: `H` is every
  event that was ever stored, `W` the events stored throughout. A fixed store is the case
  where both are the store.
- Whether a time budget is used up, whether a signature verifies and what a plugin says are
  arbitrary choices. Clock readings of the rate limiter are parameters.
- An event id determines its event, and no event names its own id (ids are hashes).
  Timestamps are below 2^40; `MergeQueue.CandidateExact` shows that the packed candidate
  word needs exactly that, and fewer than 2^24 cursors.

## Where the code differs from what one might expect

- Events of equal `created_at` come in descending levId order, not by lowest id as NIP-01
  suggests (`src/DBQuery.h:230-232`). The specification follows the code.
- With deletion requests the final store can depend on arrival order:
  `Batches.OrderMattersWithDeletions` gives the input. `Batches.OrderFreeIffClosed` says
  exactly when it cannot, whatever part of a set is submitted: whoever deletes an event also
  deletes what that event deletes or replaces. Input without deletion requests is a special
  case. `Batches.OrderFreeIffDominated` is the exact condition for one given set: whatever an
  event of the set removes is also removed by an event that nothing in the set removes.
- Status `Duplicate` does not mean the event is stored: `Batches.DuplicateNeedNotBeStored`
  gives the input. `Batches.DuplicateIsStoredIff` says exactly when it is: the first copy of
  its run in the batch was stored already or was accepted.
- `negentropy build` completes a fresh tree if and only if the filter's limit is at least the
  number of matching events (`Database.Db.BuildTree`).
- `negentropy add` accepts an array of filters (`Database.ArrayIsAddable`), which
  `freshenCache` cannot parse; reloading the cache succeeds if and only if every stored
  filter is a single object (`Database.Db.FreshenCache`).
- `eraseStale` refills a bucket before it tests its age, so nothing is ever removed
  (`BucketCache.NothingIsStale`), and cleanup changes no decision.
- The cap on subscriptions per connection is read at each call. If it was lowered below what
  a connection holds, replacing a subscription removes the old one and refuses the new one;
  otherwise replacing never fails. A refusal leaves an empty connection entry behind exactly
  if the connection has no other subscription, which needs a cap of 0 (`AddSub` of
  `ActiveMonitors` and of `QueryScheduler`).
- An OK that was not asked for wraps the sync client's counter, and from then on it neither
  uploads nor finishes; the counter ends exact if and only if every OK answered an upload
  (`SyncClient.StrayOkStalls`, `SyncClient.CounterExact`).
- With a write batch of 0 the import pipeline puts everything back for ever and `flush` never
  returns; with any other it always does (`PipelineProgress`).
- The writer takes an empty packed string for the end of its input (`src/WriterPipeline.h:125-131`),
  and a fried line may hold one: exactly the lines of 64 bytes or more that end with an empty
  fried field (`Fried.ParsesToEmptyIff`). An import loses events if and only if an empty packed
  string was submitted (`PipelineProgress.NothingLostIff`).
- With a negative burst multiplier every capacity counts as 0 in the bounds, and every request
  that needs such a bucket is refused (`RateLimiter.SmallBucketsRefuse`).
- A fried line whose JSON text does not end with a brace comes back with a brace in place of
  its last byte; the round trip holds if and only if the text ends with a brace
  (`Fried.FriedRoundTrip`).

## Model

| member | source | states |
|---|---|---|
| `Index.SmallestTag` | src/DBQuery.h:127-138 | the tag chosen for the tag plan has the fewest values of all |
| `Index.AuthorKindKeysExact` | src/DBQuery.h:154-175 | the author-kind plan searches for exactly the pairs of a listed author and a listed kind |
| `Index.PlanReaches` | src/DBQuery.h:104-223 | whichever of the six plans is chosen, every event the filter matches is entered under a key some cursor searches for |
| `Index.PlanDecides` | src/DBQuery.h:104-223 | when the scan trusts the index alone, a record under a search key implies that every field of the filter but the times matches |
| `Index.KeyMatchExact` | src/DBQuery.h:118-221 | on the records of its own index, each prefix test accepts exactly the searched key |
| `Index.UpperBound` | src/DBQuery.h:43 | a reverse iteration from a position starts right after the last record not above it |
| `IndexExists.TableHasIndex` | golpe.yaml:49-73 | every event table has a sorted index of exactly the derived entries, for every plan |
| `IndexExists.SortedUnique` | golpe.yaml:49-73 | and only one: two sorted lists of the same entries are equal |
| `IndexExists.SnapshotExists` | golpe.yaml:49-73 | every well-formed table has a snapshot queries can run on |
| `ScanCursors.OtherStringEndsWalk` | src/DBQuery.h:50-54 | once a record has another string, no record below it is wanted, so stopping the cursor loses nothing |
| `ScanCursors.JumpBelowSince` | src/DBQuery.h:62-66 | the jump at `since` skips no wanted record and moves strictly down, because levIds start at 1 |
| `ScanCursors.JumpToUntil` | src/DBQuery.h:68-72 | the jump at `until` keeps every wanted record at or below the new position and moves strictly down |
| `ScanCursors.Walk` | src/DBQuery.h:43-83 | one iteration delivers consecutive wanted records in descending order, at most the limit, leaves every other wanted record reachable, and makes progress |
| `ScanCursors.Collect` | src/DBQuery.h:39-90 | repeated iteration collects the next wanted records in order; it returns fewer than asked only when the cursor is exhausted; `outstanding` grows by the number collected |
| `MergeQueue.CandidateExact` | src/DBQuery.h:17-21 | both accessors of the packed word return what was put in if and only if the time is below 2^40 and the cursor number below 2^24 |
| `CursorCounts.CompiledHasFewCursors` | src/DBQuery.h:104-223 | a compiled filter gives fewer than 2^24 cursors, whatever ids, authors and tags it lists, if it lists fewer than 2^24 kinds |
| `CursorCounts.CandidatesFit` | src/DBQuery.h:17-21 | so every candidate a scan ever queues has a time below 2^40 and a cursor number below 2^24, where both accessors of its packed word are exact |
| `MergeQueue.SortQueueSorts` | src/DBQuery.h:242-244 | sorting keeps each candidate and each cursor's count and yields the order of `cmp` |
| `MergeQueue.MergeSorted` | src/DBQuery.h:275 | merging two sorted queues gives a sorted queue |
| `MergeQueue.MergeCombines` | src/DBQuery.h:275-276 | merging keeps every candidate and each cursor's count exactly |
| `ScanInvariant.ScanStarts` | src/DBQuery.h:93-102 | a new scan satisfies the invariant: queue sorted once all cursors started, counts exact, every unsent survivor queued or still ahead of a cursor |
| `ScanInvariant.ScanSurvives` | src/DBQuery.h:42-86 | inserts and deletes while the scan is paused keep the invariant |
| `ScanInvariant.PopKeeps` | src/DBQuery.h:251-268 | taking the front candidate keeps the invariant, except that its cursor may be left without a queued candidate, and all that cursor has left ranks below what was sent |
| `ScanInvariant.RefillKeeps` | src/DBQuery.h:270-277 | refilling that cursor restores the invariant in full |
| `ScanInvariant.Exhausted` | src/DBQuery.h:247-249 | when all cursors have started and the queue is empty, every eligible survivor was sent |
| `ScanInvariant.UnsentRanksBelow` | src/DBQuery.h:230-266 | whenever a candidate is taken, what is not sent yet ranks below everything sent |
| `QuerySpec.SortHoldsAll` | src/DBQuery.h:230-232 | the reference order lists each element of a set of events once |
| `QuerySpec.TopIsSortedHead` | src/DBQuery.h:229-279 | a descending list that nothing better was left out of is the sorted list cut at the limit |
| `QuerySpec.ResultHas` | src/DBQuery.h:316-322 | a filter's result holds exactly the matching events up to the snapshot that fewer newer matching ones than the limit come before |
| `QuerySpec.UnionOfUnites` | src/DBQuery.h:316-319 | the group's answer holds each event of some filter's answer exactly once |
| `Query.DBScan.constructor` | src/DBQuery.h:104-227 | a fresh scan: one cursor per search key, nothing queued |
| `Query.DBScan.StartCursor` | src/DBQuery.h:238-246 | starting the next cursor keeps the scan invariant and lowers the work measure |
| `Query.DBScan.ShouldSend` | src/DBQuery.h:256-262 | only matching events are sent, and a matching event that is still stored always is, index-only or not |
| `Query.DBScan.OfferFront` | src/DBQuery.h:264-266 | the front candidate is sent exactly if eligible and new; the scan stops exactly at the limit |
| `Query.DBScan.Pop` | src/DBQuery.h:251-277 | a pop with its refill keeps the scan invariant and lowers the work measure |
| `Query.DBScan.Refill` | src/DBQuery.h:270-277 | collecting and merging for the popped cursor restores the scan invariant |
| `Query.DBScan.Scan` | src/DBQuery.h:229-279 | a completed scan has sent the best eligible events up to the limit; a paused one can go on, with a smaller work measure |
| `Query.DBQuery.HandleEvent` | src/DBQuery.h:310-323 | nothing newer than the snapshot, nothing twice, and when the callback asks to stop |
| `Query.DBQuery.DoPause` | src/DBQuery.h:323-329 | a pause happens only after 2000 units of work since the last look at the clock |
| `Query.DBQuery.FinishFilter` | src/DBQuery.h:352-354 | moving to the next filter keeps the finished filter's answer |
| `Query.DBQuery.ProcessFilter` | src/DBQuery.h:304-336 | one filter is answered in full or the query is paused with less work left |
| `Query.DBQuery.Process` | src/DBQuery.h:302-369 | the filters are answered in turn; a pause leaves a resumable query with a smaller measure; whatever history the query answered for before the call, its progress answers for it after, and what was put out stays |
| `Query.DBQuery.Survives` | src/DBQuery.h:310-336 | a paused query stays valid when the store changes between two calls |
| `Query.AnsweringSurvives` | src/DBQuery.h:310-336 | the same of a query's progress as a value, finished filters and the paused scan |
| `Query.CompleteAnswers` | src/DBQuery.h:302-369 | progress that is complete is an answer for the snapshots seen: nothing twice, nothing that does not match, and an event that was in all snapshots is left out only if newer matching events that were put out number at least its filter's limit |
| `Query.RunQuery` | src/DBQuery.h:302-369 | for every snapshot, filter group and pause schedule: the output is the union of the filters' results, each result being all matching events up to the snapshot sorted newest first and cut at the limit; and the calls terminate |
| `Query.RunQueryWhileStoreChanges` | src/DBQuery.h:310-336 | if every call sees another snapshot: nothing newer than the query's own limit, nothing twice, nothing that does not match; and a matching event that is in all snapshots seen until it completed is missed only if newer matching ones use up the filter's limit; a query that does not complete has been called with every snapshot |
| `Query.RunQueryUntilSettled` | src/QueryScheduler.h:70-110 | and once the snapshots stop changing it does complete, after finitely many calls, with such an answer |
| `Query.HistoryGrows` | src/DBQuery.h:310-336 | each call adds to the history and takes from what is common, which is all a paused query needs |
| `Query.ChangingAnswered` | src/DBQuery.h:310-336 | the same, derived from the answers of the single filters |
| `FilterSets.Compile` | src/filters.h:18-40 | construction succeeds if and only if sizes are within bounds and the distinct items total at most 65535 bytes; then the contents are the distinct items in sorted order and every stored offset and size is exact |
| `FilterSets.PackSorted` | src/filters.h:32-37 | the loop lays the distinct items end to end, with offsets and sizes modulo 2^16 and 2^8 |
| `FilterSets.PackingIsExact` | src/filters.h:32-39 | 16-bit offsets and 8-bit sizes written before the total is checked were not truncated once the check passes |
| `FilterSets.ComparesRight` | src/filters.h:63-65 | comparing first bytes where they differ is comparing the strings |
| `FilterSets.DoesMatch` | src/filters.h:52-79 | the binary search returns true if and only if the candidate is in the set |
| `FilterSets.UintSetExact` | src/filters.h:85-106 | a set of numbers is strictly increasing and holds exactly the given numbers |
| `FilterParser.CompileSet` | src/filters.h:18-40 | decoding and packing an array succeeds exactly on well-formed strings, with the sorted distinct values as result |
| `FilterParser.ParseField` | src/filters.h:126-163 | one field raises an exception exactly when it is malformed or unknown, and otherwise sets its own slot |
| `FilterParser.ParseFields` | src/filters.h:126-163 | the loop raises an exception exactly when some field is bad, and counts the major fields |
| `FilterParser.ParseFilter` | src/filters.h:121-170 | the constructor accepts exactly the objects whose fields are all good and that have at most three tags |
| `FilterParser.PutMeans` | src/filters.h:126-163 | setting a field adds exactly that field's condition to what the filter matches |
| `FilterParser.CompiledMeans` | src/filters.h:121-202 | the compiled filter matches an event if and only if every field of the object holds of it; an empty array never matches |
| `FilterParser.CompiledIsValid` | src/filters.h:121-170 | unless it can never match, the compiled filter has non-empty sets without repeats, 32-byte ids and authors, distinct tags, a clamped limit, and scans the index alone exactly when one field, or authors with kinds, decides |
| `FilterParser.ParseAll` | src/filters.h:219-222 | the loop accepts exactly groups of acceptable objects and keeps those that can match, in order |
| `FilterParser.GroupOfIsRight` | src/filters.h:215-246 | what is kept is valid, comes from the objects, and matches what they match |
| `FilterParser.CompiledLimit` | src/filters.h:155-167 | the limit is what the object asks for, or the largest number if it asks for none, cut by the configured maximum and by nothing else |
| `FilterParser.ParseGroup` | src/filters.h:215-246 | a group matches an event if and only if some of its objects does, although filters that can never match are dropped |
| `Requests.AnswerRequest` | src/DBQuery.h:298-369 | from REQ JSON to stored events: an exception exactly on a malformed request; otherwise the answer holds, once each, exactly the events up to the snapshot that some filter object of the JSON holds of and that fewer newer events of that object than its limit come before |
| `Writes.AcceptedShape` | src/events.cpp:327-348 | an accepted write adds the event under the next levId, keeps every event it neither replaces nor deletes, and nothing else |
| `Writes.WriteKeepsInv` | src/events.cpp:260-352 | each write keeps ids unique, one event per address, no event that a stored deletion request of its author names |
| `Writes.WriteRaisesMax` | src/events.cpp:327-346 | the largest levId grows by one on a write and never falls, although older events are deleted |
| `Writes.WritesKeepInv` | src/events.cpp:260-352 | the same over any sequence of writes |
| `Writes.ReplacedDeletesNothing` | src/events.cpp:299-325 | a refused event leaves nothing to delete, so the "unprocessed deletion" error cannot be raised |
| `Writes.ContentsAfter` | src/events.cpp:327-348 | the contents after an accepted write: the event, and every old one that is neither at its address nor deleted by it |
| `Settling.RemovesIsOrder` | src/events.cpp:270-325 | if whoever deletes an event also deletes what it removes, then removing, by deletion or replacement, is a strict order |
| `Settling.RemovedByLasting` | src/events.cpp:270-325 | whatever is removed at all is removed by an event that itself lasts |
| `Settling.WriteSettles` | src/events.cpp:260-351 | one write takes a store that holds what lasts of the events so far to one that holds what lasts with the new event, whether it is accepted, refused or repeated |
| `Settling.StaysOut` | src/events.cpp:270-273 | an event kept out by a stored deletion request stays out, although the request may itself be deleted later |
| `Settling.WritesSettle` | src/events.cpp:260-352 | the same over any sequence of writes from any store |
| `Batches.SortBatchSorts` | src/events.cpp:249-254 | a batch is written in (created_at, id) order, no event lost or added |
| `Batches.BatchesKeepInv` | src/events.cpp:248-354 | the store invariants hold after any sequence of batches |
| `Batches.BatchesSettle` | src/events.cpp:248-354 | for such input the store ends with exactly the events that no other one removes, among its old contents and what these let in |
| `Batches.BatchesElect` | src/events.cpp:248-354 | in particular, without deletion requests in the input each address ends with the newest event, ties going to the smaller id, and everything else not already deleted is kept |
| `Batches.OrderDoesNotMatter` | src/events.cpp:248-354 | from any store, for input that is closed in this sense, deletion requests included, arrival order, repeats and batch boundaries do not change what is stored |
| `Batches.OrderFreeIffClosed` | src/events.cpp:248-354 | for any set of events: whatever of it is submitted to an empty store, in any order and batches, ends alike, if and only if whoever deletes an event of the set also deletes what that event removes |
| `Batches.DominatedSettles` | src/events.cpp:248-354 | submitted to an empty store in any order and batches, a set in which whatever is removed is removed by an event that lasts ends as exactly the events that nothing in the set removes |
| `Batches.OrderFreeIffDominated` | src/events.cpp:248-354 | for one given set of events: every way to submit exactly these to an empty store ends alike, if and only if whatever is removed at all is removed by an event that nothing in the set removes |
| `Batches.OrderShows` | src/events.cpp:270-325 | three events that break this, in two orders of single writes, leave different stores |
| `Batches.OrderMattersWithDeletions` | src/events.cpp:313-325 | well-formed events: a profile, its replacement and a deletion request for the replacement, in two orders, leave different stores |
| `Batches.DuplicateNeedNotBeStored` | src/events.cpp:265-268 | two copies of an outranked well-formed event in one batch: the second is called a duplicate, and neither is stored |
| `Batches.RepeatExact` | src/events.cpp:265-268 | a second copy changes nothing and is called a duplicate; the event is stored if and only if it was before, or the first copy was neither condemned nor outranked |
| `Batches.DuplicateIsStoredIff` | src/events.cpp:265-268 | the same at any position of any batch, in terms of the first copy of its run |
| `Batches.CopiesAdjacent` | src/events.cpp:249-254 | in a sorted batch all copies of an event are in one run |
| `Database.Db.constructor` | src/onAppStartup.cpp:26-29 | a new database has one tree, for everything, and it is complete |
| `Database.Db.FreshenCache` | src/NegentropyFilterCache.h:42-58 | after a successful reload the cached filters are the filter table; it fails exactly when a reload is due and some stored filter is an array |
| `Database.Db.UpdateNegentropy` | src/NegentropyFilterCache.h:27-38 | exactly the trees whose filter matches gain or lose the event's (created_at, id) |
| `Database.MirrorInsert` | src/events.cpp:335 | trees that mirror the store still do after an insertion with its update |
| `Database.MirrorDelete` | src/events.cpp:341-346 | and after a deletion with its update |
| `Database.Db.MostRecentLevId` | src/events.cpp:183-192 | the largest levId, 0 if there is none |
| `Database.Db.LookupById` | src/events.cpp:166-175 | finds an event with the id if there is one |
| `Database.Db.LookupReplace` | src/events.cpp:286-309 | finds the event at an address if there is one |
| `Database.Db.CollectDeletions` | src/events.cpp:313-325 | the events a deletion request removes: those it names that have the same author |
| `Database.Db.Judge` | src/events.cpp:265-325 | the status given and the events listed for deletion are those of the definition of a write; a refused event lists none |
| `Database.Db.Commit` | src/events.cpp:327-349 | insertion first, deletions after; the trees follow |
| `Database.Db.WriteOne` | src/events.cpp:260-351 | one turn of the loop: status, levId and new table as defined, invariants and trees kept, never the "unprocessed deletion" error |
| `Database.Db.WriteEvents` | src/events.cpp:248-354 | the new table and the status of every event of a batch, the store invariants, and every built tree equal to the matching stored events |
| `Database.Db.DeleteListed` | src/events.h:117-131 | exactly the listed events that exist are deleted and counted; the trees follow |
| `Database.Db.DeleteEvents` | src/events.h:117-131 | the same with the cache reload, keeping all invariants |
| `Database.Db.AddTree` | src/apps/dbutils/cmd_negentropy.cpp:47-72 | when a filter is accepted, not twice under the same canonical text; the new tree is empty, and every cache is out of date from then on |
| `Database.ArrayIsAddable` | src/apps/dbutils/cmd_negentropy.cpp:50-68 | an array with two filters that can match is accepted, and the table has a filter no cache can load from then on |
| `Database.SameMeaningIsAddable` | src/apps/dbutils/cmd_negentropy.cpp:63-66 | a filter that compiles like a stored one is accepted exactly if its text is new |
| `Database.BuildFillsTree` | src/apps/dbutils/cmd_negentropy.cpp:96-117 | filling a tree from a query makes it equal to the matching events if the limit covers them all, and never adds anything else |
| `Database.FillTree` | src/apps/dbutils/cmd_negentropy.cpp:96-121 | the same for the query and insertions of the command |
| `Database.Db.BuildTree` | src/apps/dbutils/cmd_negentropy.cpp:73-122 | from an empty tree the build is complete if and only if the limit is at least the number of matching events; other trees are untouched |
| `Database.Db.CollectExpired` | src/apps/relay/RelayCron.cpp:19-49 | exactly the expired and outdated ephemeral events, never the newest levId |
| `LevIds.StoreStep` | src/apps/relay/RelayCron.cpp:19-57 | writes and the two transactions of the expiry pass, in any order, never lower the largest levId and never issue an old one |
| `LevIds.LevIdsNeverReused` | src/events.cpp:327-346 | over every interleaving no levId is assigned twice |
| `MonitorSpec.KeysDistinct` | src/ActiveMonitors.h:167-196 | a compiled filter is installed at most once under each key |
| `MonitorSpec.MatchIsFound` | src/ActiveMonitors.h:117-148 | although a filter is installed under one kind of key only, every event it matches looks under one of its keys |
| `ActiveMonitors.ActiveMonitors.InstallLookups` | src/ActiveMonitors.h:167-196 | adds exactly the entries of the subscription's filters |
| `ActiveMonitors.ActiveMonitors.UninstallLookups` | src/ActiveMonitors.h:198-234 | removes exactly those entries; no lookup fails and no empty set stays |
| `ActiveMonitors.ActiveMonitors.AddSub` | src/ActiveMonitors.h:47-67 | refused if and only if the other subscriptions of the connection number at least the cap read in this call, so replacing fails only if the connection holds more than the cap; an old one of the same name is gone either way; what is left of the connections exactly, when an entry is empty, and that any cap at least as large stays respected; the lookup structures stay a function of the live subscriptions |
| `ActiveMonitors.ActiveMonitors.RemoveSub` | src/ActiveMonitors.h:69-77 | the subscription and all its entries are gone, nothing else is |
| `ActiveMonitors.ActiveMonitors.CloseConn` | src/ActiveMonitors.h:79-86 | the same for a whole connection |
| `ActiveMonitors.ActiveMonitors.TryFilter` | src/ActiveMonitors.h:92-101 | what trying one filter changes: its mark, and if it matches the recipients and the subscription's position |
| `ActiveMonitors.ActiveMonitors.ProcessMonitorSet` | src/ActiveMonitors.h:91-102 | every filter of the set, and no other, is tried in turn |
| `ActiveMonitors.SkippedRightly` | src/ActiveMonitors.h:93 | a filter passed over is not due, or its subscription has been told already |
| `ActiveMonitors.TryOneOk` | src/ActiveMonitors.h:92-101 | trying a filter keeps: whoever is told is due and told once, and every filter tried that is due has had its subscription told |
| `ActiveMonitors.TryAllOk` | src/ActiveMonitors.h:91-102 | so does trying a whole set, in any order |
| `ActiveMonitors.ActiveMonitors.Process` | src/ActiveMonitors.h:88-153 | for events in increasing levId order, exactly the subscriptions that are older than the event and have a matching filter are notified, each once |
| `ActiveMonitors.DueIsTold` | src/ActiveMonitors.h:88-153 | trying all filters under the event's keys misses no subscription that brute force would choose |
| `Handoff.LivePassDelivers` | src/apps/relay/RelayReqMonitor.cpp:50-58 | a live pass sends what brute force would, past what the subscription has seen |
| `Handoff.MonitorTxnKeeps` | src/apps/relay/RelayReqMonitor.cpp:24-27 | the monitor's position is never ahead of a later transaction |
| `Handoff.CatchUpKeeps` | src/apps/relay/RelayReqMonitor.cpp:30-45 | the catch-up scan takes a new subscription from its snapshot to the monitor's transaction, with no gap; an old one of the same name ends even if the new one is refused |
| `Handoff.ChangeKeeps` | src/apps/relay/RelayReqMonitor.cpp:50-59 | a live pass extends every live subscription without gap or overlap |
| `Handoff.CompleteKeeps` | src/apps/relay/RelayReqWorker.cpp:13-16 | the handoff after EOSE keeps the invariant |
| `Handoff.AddKeeps` | src/QueryScheduler.h:20-41 | a new REQ, also one that replaces an old one, keeps the invariant |
| `Handoff.StepKeeps` | src/apps/relay/RelayReqMonitor.cpp:21-61 | every step of writer, expiry pass, worker and monitor keeps the invariant |
| `Handoff.RunKeeps` | src/apps/relay/RelayReqMonitor.cpp:21-61 | so it holds in every reachable state of every interleaving |
| `Handoff.DeliveredExactly` | src/apps/relay/RelayReqMonitor.cpp:33-39 | a pass delivers, in levId order, exactly the stored matching events of its range |
| `Handoff.TilesCover` | src/apps/relay/RelayReqMonitor.cpp:26-58 | consecutive passes cover each levId after the snapshot once |
| `Handoff.SubscriptionServedExactlyOnce` | src/apps/relay/RelayReqMonitor.cpp:21-61 | in every reachable state every subscription got, after its snapshot, every matching event still stored when its pass reached it, exactly once; and unless ended it is being scanned, on its way to the monitor, or live |
| `Handoff.ChangeServesAll` | src/apps/relay/RelayReqMonitor.cpp:50-59 | after a change notice every live subscription is served up to the transaction it was handled in |
| `StoredScans.StoreStepHolds` | src/events.cpp:327-346 | of the levIds a transaction knows of, it holds whatever is stored now, through every write and expiry |
| `StoredScans.CallIsAllowed` | src/QueryScheduler.h:83-93 | wherever the worker calls a query, the query still answers for the snapshots it saw and the new one, and what the contract of `DBQuery.Process` asks of a snapshot holds of it |
| `StoredScans.CallKeepsScan` | src/QueryScheduler.h:83-110 | a call keeps a query answering for all snapshots seen, and what was sent is, once each, part of what was put out and all of it that every snapshot has; a completed query has been through all filters |
| `StoredScans.RunScans` | src/QueryScheduler.h:70-110 | so in every reachable state of every interleaving, of every subscription, and each snapshot seen holds whatever is stored now of the levIds it knows of |
| `StoredScans.StoredMatches` | src/QueryScheduler.h:83-93 | whatever was sent before EOSE is up to the snapshot, and matched in a transaction the query saw |
| `Deliveries.RunGood` | src/apps/relay/RelayReqMonitor.cpp:21-61 | in every reachable state both open transactions and the transaction of every pass hold whatever is stored now of the levIds they know of, and every subscription the monitor was told of has a complete query |
| `Deliveries.WhenCompleted` | src/apps/relay/RelayReqWorker.cpp:13-16 | whatever the monitor has of a subscription came through a completed stored scan |
| `Deliveries.StoredIsFinal` | src/apps/relay/RelayReqWorker.cpp:9-16 | after the handover the worker sends nothing more for it |
| `Deliveries.StoredHas` | src/QueryScheduler.h:83-93 | a matching event up to the snapshot that is still stored was sent by the completed stored scan, or newer matching ones that the query put out number at least the filter's limit |
| `Deliveries.SentHas` | src/apps/relay/RelayReqMonitor.cpp:26-58 | one after the snapshot was sent by the pass that covers it |
| `Deliveries.NothingElse` | src/apps/relay/RelayReqMonitor.cpp:21-61 | in every reachable state no subscription was sent an event twice, by worker and monitor together, and whatever it was sent matched in the transaction it was read in |
| `Deliveries.DeliveredExactlyOnce` | src/apps/relay/RelayReqMonitor.cpp:21-61 | in every reachable state of every interleaving, for any limits: a subscription that has been handed over was sent exactly once, by worker and monitor together, every event a filter matches, up to where it is served, that is still stored; the only exception is an event up to the snapshot for which newer matching events that the stored scan put out number at least that filter's limit |
| `Deliveries.DeliveredWithinLimit` | src/apps/relay/RelayReqMonitor.cpp:21-61 | so without exception if the limit is at least the number of matching events the stored scan saw |
| `Deliveries.SomeRunDelivers` | src/QueryScheduler.h:20-110 | such runs exist: whatever event is stored and whatever filter with a limit above 0 matches it, some run of a REQ and one call sends it and hands the subscription over |
| `Scheduler.QueryScheduler.AddSub` | src/QueryScheduler.h:20-41 | refused if and only if the other queries of the connection number at least the cap read in this call; an old one of the same name is dead either way; an accepted one goes to the front; live queries stay registered under their own key |
| `Scheduler.QueryScheduler.RemoveSub` | src/QueryScheduler.h:53-59 | the query is dead and unregistered, but still queued |
| `Scheduler.QueryScheduler.CloseConn` | src/QueryScheduler.h:61-68 | the same for a whole connection |
| `Scheduler.QueryScheduler.Process` | src/QueryScheduler.h:70-110 | the front query is deleted once, or runs and is queued again or deleted; no query is queued twice, used after deletion or lost |
| `Scheduler.EveryoneRuns` | src/QueryScheduler.h:38-109 | a query at position p runs within p+1 bare turns, however many add-then-process pairs come between |
| `Pipeline.CountsValidator` | src/WriterPipeline.h:57-85 | the validator keeps the counters exact |
| `Pipeline.CountsTake` | src/WriterPipeline.h:117-143 | so does the writer's collecting loop, push-back included |
| `Pipeline.FifoPush` | src/WriterPipeline.h:185-196 | a push keeps the order of each path |
| `Pipeline.FifoValidator` | src/WriterPipeline.h:57-85 | the validator hands on in order |
| `Pipeline.FifoTake` | src/WriterPipeline.h:117-143 | the writer takes up in order, push-back included |
| `Pipeline.StepKeeps` | src/WriterPipeline.h:57-175 | every step of producer, validator and writer keeps: `numLive` counts the events queued or in hand, FIFO per path, the sentinel last |
| `Pipeline.RunKeeps` | src/WriterPipeline.h:57-201 | so in every reachable state of every interleaving, as long as no empty packed string was submitted |
| `Pipeline.FlushLosesNothing` | src/WriterPipeline.h:168-201 | when `flush` can return and no packed string was empty, every event was counted exactly once as written, rejected or duplicate, nothing is live, and the writer took up all verified events in order |
| `PipelineProgress.NothingLostIff` | src/WriterPipeline.h:117-201 | when `flush` can return, the counters add up to the events submitted if and only if no submitted packed string was empty, in any interleaving |
| `PipelineProgress.RunShape` | src/WriterPipeline.h:57-201 | with empty packed strings or without, in every reachable state the validator has the sentinel ahead until it passed it on, and so has a writer that has not stopped |
| `PipelineProgress.RunAccounted` | src/WriterPipeline.h:57-201 | in every reachable state nothing is counted that was not submitted, and an empty packed string is still on its way or has cost an event |
| `PipelineProgress.StepNearer` | src/WriterPipeline.h:57-175 | with a batch size of at least 1, every step after `flush` lowers a measure of what is left to do, push-back included |
| `PipelineProgress.NeverStuck` | src/WriterPipeline.h:57-201 | until `flush` can return some thread can take a step |
| `PipelineProgress.FlushReturns` | src/WriterPipeline.h:198-201 | so after `flush` a run has a bounded number of steps left and can only end with `flush` able to return |
| `PipelineProgress.ZeroBatchNeverReturns` | src/WriterPipeline.h:117-123 | with a batch size of 0 the writer takes up nothing in any run and `flush` never returns |
| `TokenBuckets.RefillComposes` | src/RateLimiter.cpp:72-79 | refilling in two steps is refilling in one |
| `TokenBuckets.ConsumeConserves` | src/RateLimiter.cpp:61-79 | tokens taken plus tokens left never exceed tokens before plus the refill |
| `BucketCache.LRUBucketCache.CheckBucket` | src/RateLimiter.cpp:149-171 | a hit or an insertion with eviction only from a full list, then one token if there is one; `AccessKeepsRecency` and `CheckKeepsCache` say what this keeps |
| `BucketCache.LRUBucketCache.EraseStale` | src/RateLimiter.cpp:117-147 | on any list and map and any clock: keys leave from the back of the list until one has a bucket that is not stale, and the count of removed buckets is exact; `NothingIsStale` says how far that goes |
| `BucketCache.NothingIsStale` | src/RateLimiter.cpp:131-145 | on a monotone clock it removes nothing and only refills the last bucket |
| `BucketCache.CheckKeepsCache` | src/RateLimiter.cpp:149-171 | list and map keep the same keys, without repeats |
| `BucketCache.AccessKeepsRecency` | src/RateLimiter.cpp:149-171 | one access keeps the list equal to the most recently used keys, in order |
| `BucketCache.AheadIsLater` | src/RateLimiter.cpp:88-105 | keys ahead of a key in recency order were accessed after its last access |
| `BucketCache.EvictedOnlyWhenOld` | src/RateLimiter.cpp:156-164 | a key not cached any more has seen at least the cap's number of distinct other keys since its last access |
| `CacheRuns.RunPotential` | src/RateLimiter.cpp:149-171 | over any run, grants to one key are paid for by its tokens, the refill and one capacity per bucket made |
| `CacheRuns.CacheBound` | src/RateLimiter.cpp:149-171 | so at most (k+1) capacities plus the refill, k being the buckets made |
| `CacheRuns.StepAhead` | src/RateLimiter.cpp:149-171 | a key loses its bucket only after it was pushed to the end of the list, one place for each use of another key |
| `CacheRuns.RecreationBound` | src/RateLimiter.cpp:149-171 | buckets made for one key, times the cap, are at most one cap plus the uses of other keys |
| `CacheRuns.RunKeepsRecency` | src/RateLimiter.cpp:149-171 | over any run the list is the most recently used keys, in order, up to the cap |
| `CacheRuns.CheckedAlike` | src/RateLimiter.cpp:149-171 | caches that cannot be told apart give the same decision and stay so |
| `RateLimiter.RateLimiter.constructor` | src/RateLimiter.cpp:5-16 | the global bucket starts full, the caches empty |
| `RateLimiter.RateLimiter.CheckAndConsume` | src/RateLimiter.cpp:173-225 | the method is the step that the bounds below are about; every request is counted, and every refusal |
| `RateLimiter.RateLimiter.CleanupStale` | src/RateLimiter.cpp:227-234 | both caches have their last bucket refilled and nothing else |
| `RateLimiter.DecisionIs` | src/RateLimiter.cpp:184-224 | a request is allowed if and only if every bucket it needs has a token, counting the refill since; the reason names the first that has none |
| `RateLimiter.SmallBucketsRefuse` | src/RateLimiter.cpp:61-79 | a bucket whose capacity is below one token, as with a negative burst multiplier, refuses every request that needs it |
| `RateLimiter.GlobalBound` | src/RateLimiter.cpp:173-192 | over any window T of any run, requests that get past the global bucket, and so those allowed, number at most capacity + rate * T |
| `RateLimiter.IpBound` | src/RateLimiter.cpp:194-207 | for one address at most (k+1) * capacity + rate * T, k being how often its bucket was made in the window |
| `RateLimiter.PubkeyBound` | src/RateLimiter.cpp:209-222 | the same for one public key |
| `RateLimiter.IpBoundClosed` | src/RateLimiter.cpp:173-207 | with no internal count: one address gets at most (2 + G / cap) * capacity + rate * T, G being the global capacity plus its refill of the window |
| `RateLimiter.PubkeyBoundClosed` | src/RateLimiter.cpp:173-222 | the same for one public key |
| `RateLimiter.RunKeeps` | src/RateLimiter.cpp:173-234 | every run keeps the invariants of all buckets and both caches |
| `RateLimiter.ListsAreRecent` | src/RateLimiter.cpp:83-171 | after any run both lists are the most recently used keys, newest first, and sizes are within the caps |
| `RateLimiter.IpEvictedForCause` | src/RateLimiter.cpp:156-164 | after any run, an address without a bucket was followed by at least the cap's number of other addresses |
| `RateLimiter.PubkeyEvictedForCause` | src/RateLimiter.cpp:156-164 | the same for public keys |
| `RateLimiter.CleanupChangesNothing` | src/RateLimiter.cpp:227-234 | every run gives the same answers as the same run without its cleanups |
| `SyncClient.AddUnseen` | src/apps/mesh/cmd_sync.cpp:190-202 | ids not seen before are queued in order, each once |
| `SyncClient.Sync.Dispatch` | src/apps/mesh/cmd_sync.cpp:165-254 | what each kind of message does to queues, counters and status |
| `SyncClient.Sync.SendEvents` | src/apps/mesh/cmd_sync.cpp:263-282 | from the back of the queue while fewer than 100 uploads are open, skipping ids no longer stored; `FillMoves` says what this keeps |
| `SyncClient.Sync.SendRequest` | src/apps/mesh/cmd_sync.cpp:287-306 | the next request takes up to 50 ids from the back of the queue |
| `SyncClient.Sync.OnMessage` | src/apps/mesh/cmd_sync.cpp:160-311 | the handler is the step that `AnyRelay` and `HonestRelay` are about, exit included; totals grow by the ids newly seen |
| `SyncClient.FreshIsNew` | src/apps/mesh/cmd_sync.cpp:190-202 | the queued ids are exactly those newly seen, once each |
| `SyncClient.FillMoves` | src/apps/mesh/cmd_sync.cpp:260-282 | the upload loop neither loses nor repeats an id, counts each upload, stops only at an empty queue or a full window, and never passes 100 |
| `SyncClient.AnyRelay` | src/apps/mesh/cmd_sync.cpp:160-311 | whatever the relay sends: every id is waiting, uploaded or missing once, or requested once; requests hold 1 to 50 ids; the counter is exact modulo 2^64; exit 0 only with nothing left |
| `SyncClient.OncePerId` | src/apps/mesh/cmd_sync.cpp:190-202 | no id is uploaded twice or requested twice |
| `SyncClient.CounterExact` | src/apps/mesh/cmd_sync.cpp:229-282 | in any run the counter ends as the number of unacknowledged uploads if and only if every OK answered an upload |
| `SyncClient.Stalled` | src/apps/mesh/cmd_sync.cpp:229-310 | while more uploads are counted as open than OKs are to come, no run uploads anything more or exits 0 |
| `SyncClient.StrayOkStalls` | src/apps/mesh/cmd_sync.cpp:229-310 | so after one stray OK, at any moment of any run, the client neither uploads nor finishes |
| `SyncClient.HonestRelay` | src/apps/mesh/cmd_sync.cpp:160-311 | if the relay sends only replies it owes, `inFlightUp` is the number of unacknowledged uploads and at most 100, at most one request is open, and after every message the client has exited or is owed a reply |
| `SyncClient.SyncCompletes` | src/apps/mesh/cmd_sync.cpp:150-311 | from the start of a session: exited or owed a reply, and exit 0 means every id was uploaded or missing, or requested, and every reply came |
| `Hex.HexRoundTrip` | src/apps/dbutils/cmd_export.cpp:63 | decoding encoded bytes gives them back |
| `PackedEvents.PackedEventTagBuilder.Add` | src/PackedEvent.h:68-74 | appends one packed tag, or fails on more than 255 bytes |
| `PackedEvents.BuildEvent` | src/PackedEvent.h:80-92 | the layout of the packed event; fails exactly on a wrong id or public key size |
| `PackedEvents.ForeachTag` | src/PackedEvent.h:52-62 | on any bytes, what is handed to the callback and when the walk runs off the buffer |
| `PackedEvents.WalkVisits` | src/PackedEvent.h:52-62 | on a buffer of packed tags exactly those are visited, in order, until the callback stops |
| `PackedEvents.WalkFails` | src/PackedEvent.h:52-62 | a walk that is never stopped gets through if and only if the buffer is a list of packed tags |
| `PackedEvents.TagsRoundTrip` | src/PackedEvent.h:52-74 | reading packed tags gives the tags back |
| `PackedEvents.ReadThenPack` | src/PackedEvent.h:52-74 | and packing what was read gives the bytes back |
| `PackedEvents.PackRoundTrip` | src/PackedEvent.h:21-93 | every accessor and the tag walk return what was packed |
| `EventPacking.AddJsonTag` | src/events.cpp:31-55 | one turn of the tag loop: what is packed, what is ignored and what raises an exception |
| `EventPacking.PackJson` | src/events.cpp:8-69 | the bytes are the packed form of the event the JSON stands for; fails exactly when there is none |
| `EventPacking.PackedJsonReadsBack` | src/events.cpp:8-69 | reading them gives that event back |
| `EventPacking.ReplaceableHasAddress` | src/events.cpp:25-60 | an event has an address if and only if its kind is replaceable or addressable, thanks to the virtual d-tags; for plain replaceable kinds the d-tag counts as empty whatever tags it carries |
| `EventPacking.ExpirationMarksEphemeral` | src/events.cpp:43-64 | expiration 1 marks ephemeral events and no others |
| `Fried.ExportFried` | src/apps/dbutils/cmd_export.cpp:55-66 | the text without its last byte, the mark, the hex and the end; `FriedRoundTrip` reads it back |
| `Fried.ParseFried` | src/apps/dbutils/cmd_import.cpp:20-35 | what a line parses to, and when it raises an exception |
| `Fried.FriedRoundTrip` | src/apps/dbutils/cmd_import.cpp:20-35 | parsing an exported line gives the packed event and the JSON text back, if and only if the text ends with a brace and the line has at least 64 bytes, as it has for every packed event |
| `Fried.ParsedIsFried` | src/apps/dbutils/cmd_import.cpp:20-35 | every line that parses is a JSON text without its last brace, the mark, the hex of the packed event and the end |
| `Fried.ParsesToEmptyIff` | src/apps/dbutils/cmd_import.cpp:20-35 | a line parses to an empty packed string if and only if it has at least 64 bytes and ends with an empty fried field |

## Left out

- HTTP server, metrics, request logging, write-policy plugins, websocket plumbing, router and stream commands.
- Signature checks, hashing, JSON text, compression: foreign libraries. A verified event is an input.
- The negentropy protocol: trees are sets of (created_at, id), and what a reconciliation message reveals is an input.
- The delete command in `LevIds`: an offline tool that may delete the newest event.
- `verifyEventTimestamp` and event size limits: single comparisons.
- Floating point: bucket tokens are reals.
- A `0x` prefix in hex text: the decoder is in a library that is not part of this model.
- LMDB itself: a transaction sees one immutable table; which of several equal keys an iteration meets first is fixed by the levId.
- Five lookup structures of `ActiveMonitors` are one map whose keys carry a tag; the backwards walk over equal keys of a tree map is one lookup, because keys of a map are unique.
- `RelaySteps` has one worker and one monitor: messages of a connection always go to the same thread of each pool. The refusal of a subscription by a cap is an arbitrary choice there; `ActiveMonitors` and `Scheduler` say when it happens.
- `Pipeline` treats adjacent counter updates of one thread as one step. A packed string of 1 to 87 bytes, which a fried line may hold, ends the process when its header is read, and is not modelled.
- Candidates are kept as three numbers, not as a packed word; `CursorCounts.CandidatesFit` shows that the word holds them.
- A call of a query is a step of `RelaySteps` that may do whatever the contract of `DBQuery.Process` allows (`Called`), not a run of that method; what the contract asks in return is proved (`StoredScans.CallIsAllowed`). A worker's table is well formed whenever it calls a query, as `Query` asks; `IndexExists.SnapshotExists` gives it its indexes.
- The exact conditions of `Batches.OrderFreeIffClosed` and `Batches.OrderFreeIffDominated` are for an empty store; for other stores `Batches.OrderDoesNotMatter` gives a sufficient one.
- Compiled filters hold the list that `at` enumerates, not the packed buffer; `FilterSets` connects the two.
- The sets of sent levIds of a query are kept as lists in the order of insertion.
- `std::sort`, `std::merge` and `std::unique` are insertion sort, a merge and an ordered insertion.
- A batch is sorted and returned as a new list of statuses rather than in place.
- Log messages and counters that only feed them.
