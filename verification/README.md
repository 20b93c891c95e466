# Infinity OS core: a Dafny model

This project models the self-contained state machines and data structures of the
Infinity OS backend and proves what they promise over every input, every run or every
interleaving. Where the Python code updates an object in place the model is a class.
Most classes are proved equal, method by method, to a step function on values whose runs
carry the main theorems; the index, the bus and the cost guard instead keep an invariant
that ties their fields to the documents, the published events and the ledger. The bus
also has a step machine for its interleavings, tied to the object by
`DeliveryIsItsCalls`.

| file | what it models |
|---|---|
| `LruCache.dfy`, `CacheInclusion.dfy`, `CacheRefinement.dfy`, `CacheAnswers.dfy` | the in-memory LRU cache with expiry: its operations, two caches of different capacity side by side, the cache against an unbounded dictionary, and what each answer and counter means |
| `Postings.dfy`, `Ranking.dfy`, `SearchIndex.dfy`, `Relevance.dfy` | the positional inverted index, BM25 scores over an abstract logarithm, ranked search against a scan, and what ranks first |
| `DocumentCrud.dfy`, `DomainStore.dfy` | versioned documents with an audit trail in a database session, and the dictionary written back to them by passes in which any call may fail |
| `Takeover.dfy`, `TakeoverOutcomes.dfy` | device takeover sessions and their actions, and which actions are executed |
| `TokenBuckets.dfy`, `RateLimit.dfy` | the token bucket and the table of buckets by client and rate |
| `EventBus.dfy`, `BusRuns.dfy` | the kernel event bus object, and its publishing, dispatching and delivering as a step machine |
| `AnomalyDetector.dfy` | the z-score detector and what a sample of n points can show |
| `CostGuard.dfy` | the cost guard's running totals against the ledger of all paid costs |
| `VersionHistory.dfy` | linked versions, rollback and branches |
| `Chunker.dfy` | overlapping chunks of a document |
| `Iam.dfy`, `IamReasons.dfy` | the permission evaluation chain against a declarative policy, and where it ends and why |
| `Prelude.dfy`, `Reals.dfy` | shared vocabulary: options, filtering, bounded logs, map totals, products of reals |

Clock readings, fresh ids, database failures, handler outcomes, the tokeniser, the topic
match, the order in which sets are iterated and the logarithm (any function with ln 1 = 0
that grows) are arguments. Floats are
reals; stored values are immutable. A database session is SQLAlchemy's as the repository
configures it (backend/database.py:118-124): changes reach the table at a commit only, and
a commit that fails to write rolls back and makes the session unusable until it is closed.

## What the code does that its documentation does not say

- The cache treats a time-to-live of 0 as no expiry, and `exists` removes an expired
  entry without counting an eviction.
- `confirm_action` does not look at the session status, `expires_at` is never compared
  with the clock, and any user may confirm or stop; `ConfirmOnlyActsOnActiveSessions`
  shows why the missing status check is harmless.
- The takeover's audit log promises that every action is logged, and keeps its newest
  10000 entries only; `RecordKeptIff` says exactly how long a record stays.
- A handler that raises a cancellation ends its delivery without retry, count or dead
  letter, because only `Exception` is caught (`CountedIffNothingCancelled`).
- A permission decision stands even when its audit entry cannot be flushed.
- `db_sync` discards a key after awaiting its write, without a look at whether the key was
  changed meanwhile; `CleanKeysAgreeIff` says exactly when that leaves a clean key that
  does not agree with its row (`OvertakenWrite`, `OvertakenDelete`).
- `db_sync` can never write a key whose row is soft-deleted (`DeletedRowIsFinal`): the
  lookup skips the row and the uniqueness constraint rejects a new one. The rejected
  insert also makes the session unusable, and no one rolls it back, so every key after it
  in the pass stays dirty (`FailureFreePass`).
- An update raises on a list of tags that are no texts after it has assigned the row's
  content and version; the next commit of the same session writes the row without an
  audit entry (`TrailsFaithfulIff`, `BadTagsSpoilTrail`).
- The audit trail does not record a new field set to null; `ReplayIsContentIff` says
  exactly when replay still gives the content.
- Two rates with the same formatted tokens-per-second share a bucket; each limit holds for
  every client exactly when no two configured ones do (`BoundsHoldIffOwnKeys`).
- A rate of 0 makes the rejection itself fail: `retry_after` divides by it.
- A wildcard DENY is never looked up (`WildcardDenyIgnored`), an overnight time range
  never opens (`WindowOpensIff`), the address allowlist is compared literally although its
  example shows a network (`AllowlistIsLiteral`), and restriction profiles apply after select-few
  elevation, so they override it.
- Snapshot ids are cut to a few characters, so they can repeat; `SaveKeepsHistoryIff`
  says exactly when that rewrites history.
- A takeover request for a blocked type is answered as an unknown type: no blocked type is
  among the allowed ones, so the 403 answer never occurs (`RequestExact`).
- With ten points, the smallest number the detector accepts, it can report nothing
  (`SeverityNeedsPoints`).

## Model

| member | source | states |
|---|---|---|
| `LruCache.InMemoryCacheProvider.constructor` | backend/providers/cache_provider.py:153-160 | a new cache is empty, with all counters at zero |
| `LruCache.InMemoryCacheProvider.Get` | backend/providers/cache_provider.py:185-199 | a live entry is answered and becomes the most recently used; an expired one is removed and counted as a miss and an eviction; keys stay distinct |
| `LruCache.InMemoryCacheProvider.Set` | backend/providers/cache_provider.py:201-236 | the entry goes to the recent end, then the oldest entries over capacity go, then, at each hundredth `set`, the expired ones; the whole new state including the counters |
| `LruCache.InMemoryCacheProvider.EvictLru` | backend/providers/cache_provider.py:179-183 | exactly the least recently used entries over capacity go, each counted once |
| `LruCache.InMemoryCacheProvider.EvictExpired` | backend/providers/cache_provider.py:168-177 | exactly the unexpired entries remain, in order; each removal is counted once |
| `LruCache.InMemoryCacheProvider.CollectExpired` | backend/providers/cache_provider.py:171-174 | the collected keys are those of the expired entries, in cache order |
| `LruCache.ExpiredKeysExact` | backend/providers/cache_provider.py:170-177 | the collected keys are pairwise distinct, each in the cache, and exactly those of expired entries, so deleting them one by one never fails |
| `LruCache.InMemoryCacheProvider.Delete` | backend/providers/cache_provider.py:238-250 | only that key goes; a missing key changes nothing, not even a counter |
| `LruCache.InMemoryCacheProvider.Exists` | backend/providers/cache_provider.py:252-260 | says whether the key is live; an expired entry is removed without being counted as an eviction |
| `LruCache.InMemoryCacheProvider.Clear` | backend/providers/cache_provider.py:262-273 | no entry remains and the counters other than the size are kept |
| `LruCache.InMemoryCacheProvider.GetMany` | backend/providers/cache_provider.py:294-305 | every live key is answered and moved to the recent end, left to right; expired entries stay; each key is one hit or one miss |
| `CacheInclusion.TouchLargeOnly` | backend/providers/cache_provider.py:196-199 | a hit that only the larger cache sees reorders it without breaking the inclusion |
| `CacheInclusion.StepIncluded` | backend/providers/cache_provider.py:185-305 | any operation on two caches of capacities k <= k' keeps the smaller order a subsequence of the larger and the size difference within k' - k |
| `CacheInclusion.LargerCacheContainsSmaller` | backend/providers/cache_provider.py:185-305 | after any run, every entry of the smaller cache is an entry of the larger, with the same value and expiry |
| `CacheInclusion.SmallHitIsLargeHit` | backend/providers/cache_provider.py:185-305 | at every point of any run, whatever the smaller cache answers the larger answers the same; for a batch, every answered key |
| `CacheInclusion.LargerCacheHitsMore` | backend/providers/cache_provider.py:185-305 | after any run both caches have made the same number of lookups and the larger has at least as many hits |
| `CacheRefinement.StepRefines` | backend/providers/cache_provider.py:185-305 | each operation keeps the relation between the bounded cache and an unbounded dictionary with deadlines |
| `CacheRefinement.RunRefines` | backend/providers/cache_provider.py:185-305 | that relation after any run, for any instant no earlier than the clock readings |
| `CacheRefinement.CapacityBound` | backend/providers/cache_provider.py:179-183 | after every operation at most `maxSize` entries, one per key |
| `CacheRefinement.HitIsLastSet` | backend/providers/cache_provider.py:162-199 | a hit is the value of the last `set` of the key, not since deleted or cleared, and unexpired; with no assumption on the clock |
| `CacheRefinement.LiveRecentKeyHits` | backend/providers/cache_provider.py:179-199 | a stored, unexpired key is a hit unless at least `maxSize` distinct other keys were set or hit since its own last use |
| `CacheRefinement.SetThenGet` | backend/providers/cache_provider.py:185-236 | after any run, a value just set is read back until its time-to-live is over, for ever without one or with 0, and never from a cache of size 0 |
| `CacheRefinement.EveryLookupCounted` | backend/providers/cache_provider.py:188-198 | over any run hits plus misses is the number of keys looked up |
| `CacheAnswers.GetExact` | backend/providers/cache_provider.py:185-199 | `get` answers the value of the key's live entry exactly when there is one, and leaves every other entry but no expired one of the key |
| `CacheAnswers.ExistsExact` | backend/providers/cache_provider.py:252-260 | `exists` is true exactly when the key has a live entry, changes no counter and no order, and leaves no expired entry of the key |
| `CacheAnswers.ExistsOverRuns` | backend/providers/cache_provider.py:252-260 | over runs, `exists` is true only of a key whose last `set` is live, and of every such key used within the last `maxSize` distinct ones |
| `CacheAnswers.BatchExact` | backend/providers/cache_provider.py:294-305 | a batch answers a key exactly when some of its lookups finds the key's entry live, with that entry's value, and keeps every entry |
| `CacheAnswers.BatchHits` | backend/providers/cache_provider.py:300-304 | each lookup of a batch that finds a live entry is one hit |
| `CacheAnswers.BatchAnswersAreLastSets` | backend/providers/cache_provider.py:294-305 | over runs, every batch answer is what the last `set` of its key wrote, not since deleted or cleared, and live when asked |
| `CacheAnswers.LiveRecentKeyIsBatched` | backend/providers/cache_provider.py:294-305 | over runs, a batch answers every live key it asks for that was used within the last `maxSize` distinct keys |
| `CacheAnswers.SetLeaves` | backend/providers/cache_provider.py:221-231 | over runs, a `set` leaves the last `maxSize` of the other keys' entries and its own, and of these at every hundredth `set`, and no other, only the live ones |
| `CacheAnswers.DeleteExact` | backend/providers/cache_provider.py:238-243 | a delete takes away the key's entry and no other, and is counted if there was one |
| `CacheAnswers.EntriesConserved` | backend/providers/cache_provider.py:168-273 | over runs, every entry ever added is still there, was counted as deleted or evicted, or was dropped by `exists` or `clear` |
| `Postings.IdCarriesNoText` | backend/providers/search_provider.py:280 | writing the id into the stored document does not change its text, since `id` fields are skipped |
| `Postings.TextOfField` | backend/providers/search_provider.py:167-178 | a string field contributes itself, a list its strings, a dictionary the text of its own fields, anything else and any `id` nothing |
| `Postings.ItemTextsExact` | backend/providers/search_provider.py:172-175 | of a list exactly the strings are taken, in order |
| `Postings.TextsConcat` | backend/providers/search_provider.py:166-178 | fields contribute their text independently and in order |
| `Postings.JoinConcat` | backend/providers/search_provider.py:178 | the parts are joined by single spaces |
| `Postings.WithFieldLookup` | backend/providers/search_provider.py:280 | a field that was set reads as its value, every other field as before |
| `Postings.PositionsExact` | backend/providers/search_provider.py:193-198 | a posting list is exactly the ascending list of the positions of the term in the token list |
| `Postings.InvertedAt` | backend/providers/search_provider.py:206-210 | a term has a postings table exactly when some document contains it; none is empty |
| `Postings.IndexExact` | backend/providers/search_provider.py:193-198 | position by position, the index holds exactly the occurrences of terms in stored documents |
| `Postings.InvertedSnoc` | backend/providers/search_provider.py:193-198 | entering one more token turns the index of the shorter token list into that of the longer |
| `Postings.EnteredIsInverted` | backend/providers/search_provider.py:180-198 | entering a new document token by token gives the index of all documents computed at once |
| `Postings.InvertedRemove` | backend/providers/search_provider.py:200-212 | striking a document from every posting list and dropping empty ones gives the index of the remaining documents |
| `SearchIndex.InMemorySearchProvider.constructor` | backend/providers/search_provider.py:145-153 | a new index is empty and exact |
| `SearchIndex.InMemorySearchProvider.BuildIndexForDoc` | backend/providers/search_provider.py:180-198 | adds a document to an exact index and leaves it exact |
| `SearchIndex.InMemorySearchProvider.RemoveFromIndex` | backend/providers/search_provider.py:200-212 | removes a document from an exact index and leaves it exact |
| `SearchIndex.InMemorySearchProvider.StrikeEverywhere` | backend/providers/search_provider.py:203-208 | every posting list loses the document; the reported terms are exactly those left without any |
| `SearchIndex.InMemorySearchProvider.IndexDocument` | backend/providers/search_provider.py:263-284 | stores or replaces a document unless it is new and the index is full; the index maps stay those of tokenising every stored document afresh |
| `SearchIndex.InMemorySearchProvider.DeleteDocument` | backend/providers/search_provider.py:374-383 | removes exactly that document and keeps the index exact; false when there is none |
| `SearchIndex.InMemorySearchProvider.AverageLength` | backend/providers/search_provider.py:224-225 | the mean token count of all stored documents |
| `SearchIndex.InMemorySearchProvider.ComputeTfidf` | backend/providers/search_provider.py:214-243 | the score read from the posting lists is the BM25 score computed from the documents' tokens |
| `SearchIndex.InMemorySearchProvider.Candidates` | backend/providers/search_provider.py:324-328 | exactly the documents sharing a token with the query |
| `SearchIndex.InMemorySearchProvider.Filtered` | backend/providers/search_provider.py:330-342 | exactly the candidates all of whose filter fields have the wanted values |
| `SearchIndex.InMemorySearchProvider.Scored` | backend/providers/search_provider.py:344-349 | the positive scores of the candidates, in the order the set is iterated |
| `SearchIndex.InMemorySearchProvider.Search` | backend/providers/search_provider.py:295-372 | the hits are one page of the answer, a function of the documents, query and filters, and `total` is the number of matches of a scan; an empty query lists every document with score 1 |
| `Ranking.IdfPositive` | backend/providers/search_provider.py:232-234 | a term found in no more documents than there are has a positive weight, for any increasing logarithm |
| `Ranking.TfNormBounds` | backend/providers/search_provider.py:236-239 | the frequency factor of an occurring term lies strictly between 0 and 2.2 |
| `Ranking.ScorePositive` | backend/providers/search_provider.py:214-243 | for any increasing logarithm a document's score is positive exactly when it shares a token with the query |
| `Relevance.IdfClosed` | backend/providers/search_provider.py:235 | the weight of a term is the logarithm of (documents + 1) / (documents with it + 0.5) |
| `Relevance.IdfFalls` | backend/providers/search_provider.py:235 | for every increasing logarithm the rarer term weighs more |
| `Relevance.SaturationExact` | backend/providers/search_provider.py:237-239 | occurrences saturate at 0.3 plus 0.9 times the length in average lengths, the average being 1 at least |
| `Relevance.TfNormRises` | backend/providers/search_provider.py:237-240 | more occurrences count for more |
| `Relevance.TfNormFalls` | backend/providers/search_provider.py:237-240 | at a fixed average a longer document counts for less |
| `Relevance.TfNormUnit` | backend/providers/search_provider.py:237-240 | one occurrence in a document of average length counts as 1 |
| `Relevance.AverageExact` | backend/providers/search_provider.py:224-225 | the average times the number of documents is their total length, to which each document adds its own |
| `Relevance.TermScoreExact` | backend/providers/search_provider.py:228-241 | a token's part in a score is its weight, by the number of documents with it, times the factor of how often the document has it; 0 without it |
| `Relevance.ScoreConcat` | backend/providers/search_provider.py:227-243 | a score adds up over the query, each token as often as it is asked for |
| `Relevance.RarerScoresHigher` | backend/providers/search_provider.py:214-243 | of two documents of equal length with one query token each, once, the one with the rarer token scores higher |
| `Ranking.SortedExact` | backend/providers/search_provider.py:351 | ranking is a descending permutation of what was scored |
| `Ranking.SortedStable` | backend/providers/search_provider.py:351 | hits of equal score stay in the order in which they were scored |
| `Ranking.SliceExact` | backend/providers/search_provider.py:353 | pages are slices in which a negative bound counts from the end and bounds outside are clamped |
| `Ranking.PagesConcatenate` | backend/providers/search_provider.py:352-353 | consecutive pages concatenate to the whole ranking, each hit once |
| `SearchIndex.RankedScan` | backend/providers/search_provider.py:324-353 | asking for a positive score loses no match: the sorted list is a complete ranking of the scan |
| `SearchIndex.AnswerIsRanking` | backend/providers/search_provider.py:324-353 | the answer is a complete ranking, best first, of what a scan of all documents finds |
| `Relevance.AnswerExact` | backend/providers/search_provider.py:324-349 | a document is in the answer exactly when it is stored, has the wanted value of every filter, and some token of the query |
| `Relevance.RarerComesFirst` | backend/providers/search_provider.py:344-353 | in the answer, of two such documents the one with the rarer token comes first |
| `Relevance.ListedExact` | backend/providers/search_provider.py:311-322 | an empty query lists the documents in order, each with score 1 |
| `SearchIndex.SuccessivePages` | backend/providers/search_provider.py:352-353 | asking for page after page, with nothing changed in between, yields every match once, best first |
| `SearchIndex.AddThenDelete` | backend/providers/search_provider.py:263-284 | adding a fresh document and deleting it again restores both index maps |
| `SearchIndex.ReindexIsDeleteThenEnter` | backend/providers/search_provider.py:276-282 | re-indexing a document is deleting it and then adding it |
| `DocumentCrud.DomainCRUD.Create` | backend/crud_helpers.py:61-107 | a new row at version 1 with one audit entry, committed with everything pending; a second row for an id, deleted or not, or a failed commit rolls back and leaves the session unusable |
| `DocumentCrud.DomainCRUD.Get` | backend/crud_helpers.py:111-130 | the live row, with its unwritten changes, or nothing |
| `DocumentCrud.DomainCRUD.Update` | backend/crud_helpers.py:188-250 | merges into a live row, bumps its version and records the fields that changed as the code compares them (1 equals true); a list of tags that are no texts raises after the fields were assigned and leaves the change to the next commit of the session, without an entry |
| `DocumentCrud.DomainCRUD.Delete` | backend/crud_helpers.py:254-298 | marks the row deleted, content and version kept, with an audit entry |
| `DocumentCrud.DomainCRUD.EndSession` | backend/database.py:131-184 | closing the session drops what is pending, committing it writes it unless the session is unusable |
| `DocumentCrud.SameExact` | backend/crud_helpers.py:232 | what the comparison of values means: null is only null, texts are compared literally, booleans are the numbers 0 and 1, lists and dictionaries are compared by their parts |
| `DocumentCrud.UpdateExact` | backend/crud_helpers.py:209-246 | after a successful update every given field is in the row, a text literally, and every other field as before; the entry has a change, from the old value to the new, for exactly the given fields whose old value was not the same |
| `DocumentCrud.CreateThenGet` | backend/crud_helpers.py:61-130 | what is created is what is read; creating again raises and writes nothing |
| `DocumentCrud.DeleteThenGet` | backend/crud_helpers.py:111-298 | what is deleted is not read and not updated, and keeps its content and version |
| `DocumentCrud.FaultsMean` | backend/crud_helpers.py:248-249 | a write that fails at the commit writes nothing, one that fails after it has written, and a commit writes exactly its row and what was pending |
| `DocumentCrud.UnusableRaises` | backend/crud_helpers.py:105 | a session made unusable raises on every call and changes nothing until it ends |
| `DocumentCrud.TagsRaiseExact` | backend/crud_helpers.py:223-225 | joining the tags raises exactly when they are a list with something that is no text |
| `DocumentCrud.TrailFaithful` | backend/crud_helpers.py:73-298 | over any run on one document, updates that slipped through without an entry included: the version is 1 + update entries + slips, and the trail is faithful (newest snapshot is the content, replaying the changes gives its lookups) if and only if there was no slip |
| `DocumentCrud.ReplayIsContentIff` | backend/crud_helpers.py:209-246 | over any run without slips, replaying the recorded changes gives a dictionary equal to the content, not just one with equal lookups, if and only if every field was in the first snapshot or was once set to something other than null |
| `DocumentCrud.MergedFaithful` | backend/crud_helpers.py:209-246 | an update keeps the trail faithful: recording only changed fields loses no lookup |
| `DocumentCrud.StoredSame` | backend/crud_helpers.py:213-214 | a content assigned to a row that already holds an equal one is not written; what the row holds still equals it |
| `DocumentCrud.EqualNotWritten` | backend/crud_helpers.py:213-214 | an equal content leaves the row as it was, a different one replaces it |
| `DocumentCrud.ReplayCanLackNullFields` | backend/crud_helpers.py:229-233 | so a new field set to null and to nothing else is missing from the replay |
| `DomainStore.DomainStore.SetItem` | backend/domain_store.py:85-87 | the value is in memory and the key is dirty |
| `DomainStore.DomainStore.DelItem` | backend/domain_store.py:92-95 | the key leaves memory and is dirty; a missing key is not marked |
| `DomainStore.DomainStore.Pop` | backend/domain_store.py:121-124 | as `dict.pop`; a popped or defaulted key is dirty, a raising one is not |
| `DomainStore.DomainStore.Update` | backend/domain_store.py:130-147 | all items are stored from the left and every one of their keys is dirty |
| `DomainStore.DomainStore.SetDefault` | backend/domain_store.py:149-154 | only a missing key is stored and marked; the answer is the value in memory |
| `DomainStore.EditedExact` | backend/domain_store.py:85-154 | what each operation leaves under every key, and which keys it marks; a present key keeps its value under `setdefault` |
| `DomainStore.UpdateExact` | backend/domain_store.py:130-147 | an update stores the last of its items for each key and touches no other |
| `DomainStore.DomainStore.SyncKey` | backend/domain_store.py:358-378 | one key of a pass: the value is read after the lookup, written, and the key marked clean if that succeeds, under any failure of its calls and with any use of the dictionary while each call is awaited |
| `DomainStore.DomainStore.DbSync` | backend/domain_store.py:345-384 | takes each key that is dirty at the start once, in some order, leaves what that order gives, disturbed or not, and returns how many turns succeeded |
| `DomainStore.SuccessesShrink` | backend/domain_store.py:357-384 | undisturbed, that number is by how much the dirty set shrank |
| `DomainStore.StepKeepsIff` | backend/domain_store.py:85-384 | an operation, failures and use of the dictionary during a pass included, keeps every clean key in agreement, after each turn, if and only if it is not a pass that overtakes a key |
| `DomainStore.CleanKeysAgreeIff` | backend/domain_store.py:345-384 | from an empty table, over any run with any failures and any use of the dictionary during its passes: throughout, a clean key in memory has a live row carrying every field of its value and a clean key not in memory has no live row, if and only if no key is discarded after others made it, while its write was awaited, something its row does not carry |
| `DomainStore.TurnAgreesIff` | backend/domain_store.py:359-376 | one turn keeps the agreement if and only if its key is not overtaken in that way |
| `DomainStore.CleanKeysAgree` | backend/domain_store.py:345-384 | so clean keys agree in every run in which nobody touches a key while its own write is awaited |
| `DomainStore.UntouchedNotOvertaken` | backend/domain_store.py:359-376 | a key untouched during its write is not overtaken; touching it during its lookup does no harm |
| `DomainStore.CarriesExact` | backend/domain_store.py:360-368 | a row that carries a value holds each of its fields, and a text literally |
| `DomainStore.WrittenTexts` | backend/domain_store.py:360-368 | an undisturbed turn without failures leaves a live row with each text of the value in memory literally |
| `DomainStore.OvertakenWrite` | backend/domain_store.py:364-367 | an instance: a key set again while its first value is written ends clean, with a row that lacks the second value |
| `DomainStore.OvertakenDelete` | backend/domain_store.py:371-376 | an instance: a key set again while its deletion is written ends clean, in memory, with a deleted row |
| `DomainStore.TurnIsEffect` | backend/domain_store.py:359-378 | the get, update, create and delete calls of a key amount to one effect: written, nothing, left unwritten, or session broken |
| `DomainStore.PassExact` | backend/domain_store.py:358-378 | a key is cleaned by an undisturbed pass if and only if no key before it broke the session and its own calls, judged from the state before the pass, all succeed |
| `DomainStore.FailureFreePass` | backend/domain_store.py:358-378 | an undisturbed pass without database failures leaves dirty exactly the unwritable keys (no dictionary, soft-deleted row, tags that are no texts) and every key that comes after one with a soft-deleted row, whose rejected insert breaks the session |
| `DomainStore.UnwritableStaysDirty` | backend/domain_store.py:359-370 | an unwritable key stays dirty through every undisturbed pass, in any order and with any failures |
| `DomainStore.DeletedRowIsFinal` | backend/domain_store.py:359-370 | from any state: once a row is soft-deleted, no run brings it back or changes its content |
| `DomainStore.RecreatedKeyIsNeverWritten` | backend/models_phase20.py:86-89 | a key set, written back, deleted, written back: in every later run its row stays deleted with the same content, whatever the key is set to |
| `DomainStore.RejectedKeyHoldsUpOthers` | backend/domain_store.py:358-370 | an instance of a held-up key: after that, setting the key and another one, a pass that takes it first leaves the other dirty |
| `DomainStore.TrailsFaithfulIff` | backend/crud_helpers.py:209-248 | over any run with any failures every audit trail is faithful if and only if no commit ever wrote a change that a raising update had left in its session |
| `DomainStore.PassDrift` | backend/domain_store.py:358-378 | and a pass does that exactly when, with the session still working, a key is committed while such a change is waiting |
| `DomainStore.BadTagsSpoilTrail` | backend/crud_helpers.py:223-225 | an instance: a live row whose new tags are no texts, followed in the pass by a new key |
| `Takeover.TakeoverService.RequestTakeover` | backend/routers/accessibility.py:142-216 | a session waiting for consent, for allowed and unblocked action types only |
| `Takeover.RefusalOk` | backend/routers/accessibility.py:163-167 | a request passes exactly when every action type asked for is allowed and none is blocked |
| `Takeover.TakeoverService.GiveConsent` | backend/routers/accessibility.py:220-294 | only the requesting user moves a waiting session, to active or to denied |
| `Takeover.OnlyOwnerActivates` | backend/routers/accessibility.py:232-270 | no step other than the owner's consent to a waiting session makes a session active |
| `TakeoverOutcomes.RequestExact` | backend/routers/accessibility.py:162-194 | a request is refused exactly for an unknown type, so the refusal of a blocked type never occurs; else the session waits with what was asked for |
| `TakeoverOutcomes.EightAndEight` | backend/routers/accessibility.py:42-63 | each of the eight allowed types is accepted, each of the eight blocked ones refused |
| `TakeoverOutcomes.ConsentExact` | backend/routers/accessibility.py:229-270 | each refusal and its cause; consent makes the waiting session active, the owner's refusal ends it denied |
| `TakeoverOutcomes.ProposeExact` | backend/routers/accessibility.py:308-352 | each refusal and its cause; an accepted action is queued if the session asks for confirmation, executed at once if not |
| `TakeoverOutcomes.ConfirmExact` | backend/routers/accessibility.py:373-404 | in every reachable state a confirmation executes the pending action if and only if it approves, rejects it otherwise, and counts and logs it as such |
| `TakeoverOutcomes.StopExact` | backend/routers/accessibility.py:420-446 | a stop ends any known session as terminated, with its pending actions cancelled and all else as before |
| `TakeoverOutcomes.EndedExact` | backend/routers/accessibility.py:239-425 | a denied or a terminated session has ended, and no other |
| `TakeoverOutcomes.RefusedChangesNothing` | backend/routers/accessibility.py:142-456 | a refused call changes nothing |
| `TakeoverOutcomes.SessionsAsRequested` | backend/routers/accessibility.py:172-194 | in every run a session keeps its user, its allowed types and whether it asks for confirmation |
| `TakeoverOutcomes.ExecutedIffApprovedOrUnasked` | backend/routers/accessibility.py:337-396 | in every run an action is executed if and only if a confirmation approved it while it was pending, in a session that asks, or it was accepted from a session that does not ask |
| `Takeover.TakeoverService.ProposeAction` | backend/routers/accessibility.py:298-363 | an allowed action of an active session is queued or executed and counted, as the session asks |
| `Takeover.TakeoverService.ConfirmAction` | backend/routers/accessibility.py:367-406 | the pending action is executed or rejected, moved to the history and counted, with no look at the session status |
| `Takeover.TakeoverService.Stop` | backend/routers/accessibility.py:410-456 | the session is terminated and all its pending actions, and no others, are cancelled |
| `Takeover.TakeoverService.SetProfile` | backend/routers/accessibility.py:527-546 | a profile update only appends to the audit log |
| `Takeover.TakeoverService.Append` | backend/domain_store.py:408-412 | the log keeps the newest 10000 entries |
| `Takeover.TakeoverService.CancelPending` | backend/routers/accessibility.py:431-437 | the loop over a copy of the pending table cancels and counts exactly the session's actions |
| `Takeover.StepKeepsInv` | backend/routers/accessibility.py:142-456 | every handler keeps the global invariant that `confirm_action` relies on, together with exact counters and an exact audit trail |
| `Takeover.RunKeepsInv` | backend/routers/accessibility.py:142-456 | every interleaving of handlers does |
| `Takeover.ConfirmOnlyActsOnActiveSessions` | backend/routers/accessibility.py:373-396 | in every reachable state a pending action belongs to an active, consented session and has a permitted type, so a confirmation never executes for any other session |
| `Takeover.ExecutedActionsWerePermitted` | backend/routers/accessibility.py:314-320 | in every run, each executed action has an allowed, unblocked type of its session's list, a consented session, and was recorded in the audit log, once |
| `Takeover.RecordKeptIff` | backend/domain_store.py:408-412 | in every run, the audit log still has an executed action's record if and only if fewer than 10000 entries were appended after it |
| `Takeover.RecordCanBeLost` | backend/router_migration_helper.py:113-131 | an instance: one action without confirmation, then 10000 profile updates, and its record is gone |
| `Takeover.CountersExact` | backend/routers/accessibility.py:383-392 | in every run `actions_performed` = `actions_approved` = the session's executed actions in the history, and `actions_rejected` = its rejected ones |
| `Takeover.ProposedIsPendingOrFinished` | backend/routers/accessibility.py:322-348 | every accepted action is in exactly one of the pending table and the history, and nothing else is in either |
| `Takeover.EndedIsFinal` | backend/routers/accessibility.py:420-437 | once denied or terminated, a session stays so, has nothing pending, executes nothing more, and the records of what it executed never change |
| `Takeover.HistoryIsAppendOnly` | backend/routers/accessibility.py:345-437 | in every run no record of the history is changed or removed |
| `TokenBuckets.TokenBucket.constructor` | backend/middleware_production.py:36-40 | a new bucket is full |
| `TokenBuckets.TokenBucket.Consume` | backend/middleware_production.py:42-50 | one decision and the new level; tokens stay between 0 and the capacity |
| `TokenBuckets.TokenBucket.RetryAfter` | backend/middleware_production.py:52-56 | 0 with a token in hand, else the time to refill up to one; none, as a division by zero, at rate 0 |
| `TokenBuckets.RefillsCompose` | backend/middleware_production.py:44-46 | capped refills compose: refilling in between changes no later level |
| `TokenBuckets.AdmissionBalance` | backend/middleware_production.py:42-50 | tokens admitted plus tokens left never exceed tokens at the start plus the refill |
| `TokenBuckets.TokensConserved` | backend/middleware_production.py:42-50 | over any run, tokens admitted, left and spilled over the capacity are exactly those at the start and those that flowed in |
| `TokenBuckets.AdmittedIff` | backend/middleware_production.py:43-50 | a call is admitted if and only if its tokens fit the capacity and what was left plus what flowed in |
| `TokenBuckets.WindowBound` | backend/middleware_production.py:42-50 | in any run, the tokens admitted in any window are at most capacity + rate * length |
| `TokenBuckets.RejectionsInvisible` | backend/middleware_production.py:45-50 | leaving out any of the rejected calls changes no other decision, and from the last call on no later call can tell the two buckets apart |
| `TokenBuckets.RetryAfterExact` | backend/middleware_production.py:52-56 | after a rejection with no admission in between, the next call is admitted if and only if the capacity is at least 1, there is a `retry_after`, and the wait is at least that |
| `TokenBuckets.RetryExact` | backend/middleware_production.py:52-56 | the wait is 0 with a token in hand, else exactly what fills the bucket up to one token |
| `RateLimit.RateLimiter.Handle` | backend/middleware_production.py:107-115 | dispatches to the bucket of the client and rate, creating it full when absent, and touches no other; a rejected request gets the wait, or fails when the rate is 0 |
| `RateLimit.ParsedIsConfigured` | backend/middleware_production.py:59-66 | a parsed rate has its count as capacity and refills that count per period; it is 0 exactly when the capacity is |
| `RateLimit.PeriodsNest` | backend/middleware_production.py:64-66 | seconds, minutes, hours and days are 1, 60, 3600 and 86400 seconds |
| `RateLimit.BucketsAreIndependent` | backend/middleware_production.py:107-115 | the requests of one bucket are decided as if no others existed |
| `RateLimit.FirstRequestFixesBucket` | backend/middleware_production.py:111-114 | the first request under a key fixes the bucket that all later ones share |
| `RateLimit.ClientBound` | backend/middleware_production.py:107-115 | when configured rates have keys of their own, each client gets at most its capacity plus rate * length in any window |
| `RateLimit.BoundsHoldIffOwnKeys` | backend/middleware_production.py:107-115 | over a configuration: every run keeps every limit for every client in every window if and only if no two distinct limits share a formatted rate |
| `RateLimit.SharedKeyBreaksBound` | backend/middleware_production.py:109-112 | whenever two configured limits share a key, a concrete run exceeds the one with the smaller burst, or with equal bursts the slower one |
| `RateLimit.PerMinuteBurstPerSecond` | backend/middleware_production.py:109-112 | an instance: 60 per minute and 1 per second share a key, and the second gets two at once |
| `EventBus.KernelEventBus.constructor` | backend/kernel_event_bus.py:127-158 | a new bus has no subscriptions, no events and an exact index |
| `EventBus.KernelEventBus.Subscribe` | backend/kernel_event_bus.py:262-296 | adds the subscription and keeps the index by pattern exact |
| `EventBus.KernelEventBus.Unsubscribe` | backend/kernel_event_bus.py:298-308 | removes it, with its group when it was the last; says whether it was there |
| `EventBus.GroupedRemove` | backend/kernel_event_bus.py:303-306 | taking one member out of its group, or the group with it, regroups the remaining subscriptions |
| `EventBus.KernelEventBus.FindMatching` | backend/kernel_event_bus.py:331-346 | exactly the qualifying subscriptions of a direct scan, each once, for any topic match |
| `EventBus.MatchingExact` | backend/kernel_event_bus.py:331-346 | a subscription gets an event exactly when its pattern matches, it can be called, and its lane and priority are unset or the event's |
| `EventBus.KernelEventBus.Publish` | backend/kernel_event_bus.py:209-238 | the event is queued; the history is the last 10000 published events and the tallies count the published events by topic, lane and source |
| `EventBus.KernelEventBus.DeliverEvent` | backend/kernel_event_bus.py:348-380 | calls the handler while it fails, at most three times; a success is one delivery counted, a last failure one dead letter kept among the last 1000, and a cancelled call ends it with neither |
| `EventBus.OverIffCalls` | backend/kernel_event_bus.py:350-360 | the call sequences a delivery can make are exactly those of at most three calls, all failed but perhaps the last, that do not stop at a failure before the third |
| `BusRuns.StepKeeps` | backend/kernel_event_bus.py:312-378 | each step of publishing, subscribing, dispatching and handler calls keeps the queue, delivery and counter invariants |
| `BusRuns.RunKeeps` | backend/kernel_event_bus.py:312-378 | every interleaving does |
| `BusRuns.EveryDeliveryAccounted` | backend/kernel_event_bus.py:312-378 | in every reachable state each due delivery is running or finished, never both, finished after one to three calls; the number finished is delivered plus dead-lettered plus lost to a cancelled call; published is dispatched followed by queued |
| `BusRuns.CountedIffNothingCancelled` | backend/kernel_event_bus.py:350-364 | delivered plus dead-lettered is the number finished if and only if no handler call of the run was cancelled |
| `BusRuns.TargetsFixedAtDispatch` | backend/kernel_event_bus.py:321-329 | the targets of an event are those a direct scan finds when it is dispatched, whatever is subscribed or unsubscribed later |
| `BusRuns.SubscriptionsExact` | backend/kernel_event_bus.py:262-308 | in every run an id is subscribed as its last subscription or cancellation leaves it |
| `BusRuns.EnabledExact` | backend/kernel_event_bus.py:209-329 | publishing and cancelling are always possible; the next event is taken only when no delivery of the last one runs |
| `BusRuns.DrainedBus` | backend/kernel_event_bus.py:312-329 | once queue and deliveries run dry every published event was dispatched and all its deliveries are over, and they all have a counted verdict if and only if no handler call was cancelled |
| `BusRuns.InterleavedDelivery` | backend/kernel_event_bus.py:327-380 | until the next dispatch, whatever else happens, a delivery is over exactly when its own calls are, and is recorded with them |
| `BusRuns.DoneStays` | backend/kernel_event_bus.py:348-380 | how a delivery ended never changes in any run |
| `BusRuns.DeliveryIsItsCalls` | backend/kernel_event_bus.py:348-380 | a delivery whose handler calls come out in a certain way, interleaved with any other steps before the next dispatch, is recorded with the calls that `DeliverEvent` makes |
| `BusRuns.CallEffect` | backend/kernel_event_bus.py:350-374 | a call moves the counters and the dead letters as `DeliverEvent` promises when it ends its delivery, and not otherwise |
| `AnomalyDetector.Detect` | backend/analytics_engine.py:159-196 | fewer than ten points or zero variance report nothing; else exactly the last five points beyond three deviations, in order, with severity and direction |
| `AnomalyDetector.ReportMeans` | backend/analytics_engine.py:178-192 | a report is a spike exactly above the mean, critical beyond five deviations and high beyond four, with the point and the mean |
| `AnomalyDetector.ReportedExactly` | backend/analytics_engine.py:177-194 | exactly the points among the last five beyond three deviations are reported |
| `AnomalyDetector.StatisticsExact` | backend/analytics_engine.py:168-170 | the mean and the sample variance, by their defining equations |
| `AnomalyDetector.ZScore` | backend/analytics_engine.py:178-179 | comparing the z-score with a threshold is comparing squares, without the root |
| `AnomalyDetector.PointBound` | backend/analytics_engine.py:164-178 | for every sample, n (x - mean)^2 <= (n - 1)^2 s^2 |
| `AnomalyDetector.OutlyingPossible` | backend/analytics_engine.py:178-179 | some sample of n points has a point beyond t deviations if and only if n t^2 < (n - 1)^2 |
| `AnomalyDetector.SeverityNeedsPoints` | backend/analytics_engine.py:161-181 | ten points report nothing; high takes 18 points and critical 27 |
| `AnomalyDetector.SeveritySharp` | backend/analytics_engine.py:161-181 | those counts are attained: one spike is reported from 11 points, as high from 18 and as critical from 27 |
| `AnomalyDetector.ManyReportsNeedPoints` | backend/analytics_engine.py:177-184 | k reports at once take more than 9k + 1 points |
| `AnomalyDetector.ManyReportsPossible` | backend/analytics_engine.py:159-184 | some sample of n points is given k reports or more if and only if k is 0, or k is at most 5 and n > 9k + 1 |
| `CostGuard.ZeroCostGuard.constructor` | backend/zero_cost_guard.py:83-116 | a new guard has nothing recorded and today as its period |
| `CostGuard.ZeroCostGuard.ResetPeriodIfNeeded` | backend/zero_cost_guard.py:124-137 | a new day zeroes the daily total and the throttled set, a new month the monthly total |
| `CostGuard.ZeroCostGuard.RecordCost` | backend/zero_cost_guard.py:141-231 | the running totals, per-category and per-provider sums, counters, alerts and trimmed entries agree with the ledger of all paid costs, before and after; the decision is the ledger's |
| `CostGuard.ZeroCostGuard.Charge` | backend/zero_cost_guard.py:186-231 | the budget checks in order, with the warning between them |
| `CostGuard.ZeroCostGuard.ThrottleProvider` | backend/zero_cost_guard.py:233-241 | throttles and alerts only when automatic throttling is on |
| `CostGuard.NestedTotals` | backend/zero_cost_guard.py:130-137 | daily <= monthly <= lifetime in every well-formed ledger |
| `CostGuard.RolledTotals` | backend/zero_cost_guard.py:124-137 | a month change is always a day change, so a period change never breaks the nesting |
| `CostGuard.RunSound` | backend/zero_cost_guard.py:154-231 | over any run: totals nested and within their positive limits, every request counted once as free, paid or blocked, and nothing spent in zero-cost mode |
| `CostGuard.AllowedIffAffordable` | backend/zero_cost_guard.py:164-206 | a positive amount passes if and only if the provider is not throttled, zero-cost mode is off and both limits hold with it; a refused one changes no total |
| `CostGuard.ThrottledForTheDay` | backend/zero_cost_guard.py:163-169 | a throttled provider stays throttled, and every payment to it is refused, through any run of requests of that date |
| `CostGuard.RefusedForTheDay` | backend/zero_cost_guard.py:163-206 | with automatic throttling, a provider refused for a budget is refused all its payments for the rest of that date |
| `CostGuard.TotalsArePeriodSpend` | backend/zero_cost_guard.py:124-137 | when the date never goes back, the daily and monthly totals are exactly what was paid on that date and in that month |
| `CostGuard.AllowedIffWithinSpend` | backend/zero_cost_guard.py:154-206 | when the date never goes back, a payment passes if and only if its provider is not throttled that day, zero-cost mode is off, and what was paid that date and that month leaves room for it |
| `CostGuard.FreePasses` | backend/zero_cost_guard.py:158-161 | a request that costs nothing always passes, is counted as free, and changes nothing but the period |
| `CostGuard.RunCounts` | backend/zero_cost_guard.py:156-231 | over any run the free requests are those that cost nothing, and the blocked ones the others that were not paid |
| `CostGuard.ThrottledExact` | backend/zero_cost_guard.py:130-241 | a request throttles its own provider exactly when it is refused for a limit under automatic throttling, and no other |
| `CostGuard.AlertsExact` | backend/zero_cost_guard.py:171-252 | which alerts a request raises, in order: a violation in zero-cost mode, a warning from the threshold up to the daily limit, a throttling |
| `VersionHistory.VersionHistoryManager.SaveVersion` | backend/version_history.py:180-231 | adds one version, numbered next and linked to the one before; content that cannot be serialised leaves at most a new empty timeline |
| `VersionHistory.OpenedReads` | backend/version_history.py:193-200 | such a failed save changes nothing that can be read |
| `VersionHistory.VersionHistoryManager.GetVersion` | backend/version_history.py:233-259 | the content of the version asked for, or of the latest |
| `VersionHistory.VersionHistoryManager.RollbackTo` | backend/version_history.py:279-337 | saves the target's content again, or changes nothing when there is no such version |
| `VersionHistory.VersionHistoryManager.CreateBranch` | backend/version_history.py:458-499 | starts the branch's timeline from the source version, or changes nothing |
| `VersionHistory.StepValid` | backend/version_history.py:193-231 | versions stay 1..n, each entry linked to the one before, with a stored snapshot |
| `VersionHistory.EntriesMean` | backend/version_history.py:202-227 | in a valid state entry i has version i + 1, a stored snapshot, and the snapshot of the entry before it as previous |
| `VersionHistory.SaveAdds` | backend/version_history.py:195-227 | a save adds one entry of its kind to its own timeline, which keeps its name, and changes no other |
| `VersionHistory.BranchesDiffer` | backend/version_history.py:472 | different branches of an entity have different timelines, none of them its own |
| `VersionHistory.BranchAndRollbackKinds` | backend/version_history.py:315-492 | a branch is a creation named after its source and itself, a rollback a reversion under the same name |
| `VersionHistory.GetIsIndexing` | backend/version_history.py:246-259 | the linear search is direct indexing, and finds nothing outside 1..n |
| `VersionHistory.SaveKeepsHistoryIff` | backend/version_history.py:199-200 | saving under an id keeps what all earlier versions read if and only if the id is unused or holds the same content |
| `VersionHistory.VersionsAreImmutable` | backend/version_history.py:193-231 | with fresh ids, no later save, rollback or branch changes what any existing version reads |
| `VersionHistory.RollbackRestores` | backend/version_history.py:288-329 | after a rollback the latest content is the target's, as one new version; the target still reads the same |
| `VersionHistory.BranchLeavesSource` | backend/version_history.py:466-492 | a branch starts from the source's content and leaves every other timeline as it was |
| `Chunker.Chunk` | backend/routers/academy.py:283-287 | the chunks starting at each step that are not blank, in order; an overlap equal to the chunk size is an error and a larger one yields nothing |
| `Chunker.KeptExact` | backend/routers/academy.py:284-287 | the kept chunks are exactly the non-blank slices of at most the chunk size that start at a multiple of the step |
| `Chunker.KeptConcat` | backend/routers/academy.py:283-287 | keeping goes chunk by chunk, in order, each as often as it is cut |
| `Chunker.ChunksSpellContent` | backend/routers/academy.py:284-285 | before blank ones are dropped, the step-long prefixes of the chunks concatenate to the document |
| `Chunker.WindowKept` | backend/routers/academy.py:284-287 | every non-blank window of up to overlap + 1 characters lies inside one kept chunk |
| `Chunker.LongerWindowsCanBeCut` | backend/routers/academy.py:284-287 | that bound is sharp: for every size and overlap some non-blank window one character longer is in no kept chunk |
| `Iam.IAMService.PrimaryRole` | backend/auth.py:275-285 | the first role marked primary, else the first of the most privileged |
| `Iam.ActiveRoleExact` | backend/auth.py:275-285 | the active role is the first primary one, else the first of the smallest level; none only without roles |
| `Iam.IAMService.FindConditions` | backend/auth.py:555-601 | the exact grant, else the wildcard grant, else select-few elevation without conditions, else none |
| `Iam.IAMService.CheckRestrictions` | backend/auth.py:323-353 | restricted exactly when a current profile of the user or the role denies the key or everything |
| `Iam.IAMService.EvaluatePermission` | backend/auth.py:491-709 | the decision, the whole chain of steps, and one audit entry with that decision, except for a user without roles or when the entry cannot be flushed, which does not change the decision |
| `Iam.ReasonExplains` | backend/auth.py:520-709 | the chain ends in the audit step exactly when access is allowed |
| `IamReasons.ReasonExact` | backend/auth.py:532-709 | each end of the chain exactly, in terms of rows, request and clock: explicit denial, no grant, profile, one of the four conditions, subscription, in this order, else access |
| `IamReasons.ChainExact` | backend/auth.py:511-702 | what the recorded chain shows: its end, a grant and an elevation exactly when there was one, and every check that passed |
| `IamReasons.ElevationExact` | backend/auth.py:575-601 | elevation is what permits exactly when no current row does and a current active elevation for a sensitive permission is there |
| `IamReasons.MatchingExact` | backend/auth.py:555-601 | the conditions settled on are those of the first current exact row, else of the first wildcard row, else none by elevation |
| `IamReasons.FailingConditionDenies` | backend/auth.py:437-488 | a missing second factor where one is required denies, and so do a risk above the maximum, a minute outside the window and an address missing from the list |
| `IamReasons.OwnRowGoverns` | backend/models.py:3079-3080 | with unique rows, a current exact row is the one settled on |
| `IamReasons.OneProfileDenies` | backend/auth.py:323-353 | one current profile of the user or the role that denies the permission or all does deny |
| `IamReasons.OneDenyRowDenies` | backend/auth.py:535-553 | one current explicit denial of the active role does deny |
| `IamReasons.NoServiceDenies` | backend/auth.py:378-434 | a namespace in no plan of the user and not free does deny |
| `IamReasons.NoRoleExact` | backend/auth.py:510-524 | the chain ends without a role exactly for a user without roles |
| `Iam.DecisionIsPolicy` | backend/auth.py:518-709 | with at most one row for each role and permission, the chain allows exactly what the declarative policy does |
| `Iam.RowOrderIrrelevant` | backend/models.py:3079-3080 | then neither the order of the rows nor repeated ones change the decision |
| `Iam.RestrictionsOnlyDeny` | backend/auth.py:618-643 | adding restrictions never turns a denial into a permission |
| `Iam.DenyRowsOnlyDeny` | backend/auth.py:541-558 | inserting a deny row anywhere never does either |
| `Iam.WildcardDenyIgnored` | backend/auth.py:541-545 | a deny row on the wildcard resource, wherever it stands among the rows, denies nothing |
| `Iam.WindowOpensIff` | backend/auth.py:456-467 | a time window is open at some minute of the day if and only if it does not cross midnight and meets the day |
| `Iam.AllowlistIsLiteral` | backend/auth.py:470-475 | an allowlist entry admits the address that is the same text and no other, networks included |

## Left out

Across the project:

- HTTP, authentication tokens, hashing, SQLAlchemy, Redis, Meilisearch, Typesense and
  storage calls; log messages, latencies, timestamps and response texts.
- Rounding of floats: amounts, scores, tokens and samples are exact reals.
- Aliasing: a stored value cannot be changed from outside once stored.
- Interruption: the cache, the search index and the cost guard hold a lock, and the
  takeover handlers, the token bucket, the version history and the chunker await nothing,
  so each of their calls is one step. The bus interleaves, and a pass of the store
  interleaves with any use of its dictionary. Not modelled are two passes at once, each
  with a session of its own, and a permission check whose rows change between its queries.

By component:

- Cache: `set_many`, `get_stats` and the hit rate, the size counter between calls
  (modelled but not related to the entries), and a negative configured capacity; a cached
  `None` is told apart from a miss here.
- Search: several named indexes and the answer for a missing one, creating and deleting
  an index, batch indexing, highlights, scores rounded to four digits in the answer, and
  the order of equal scores (any order of the candidates, then a stable ranking).
- Search: a filter value that is a dictionary is compared with its keys in order.
- Documents: title, status, tags and owner columns, hard delete, listing and counting,
  auditing switched off, the order of audit entries of different documents, and columns
  other than the content in the audit trail.
- Store: `clear`, `db_create`, `db_update`, `db_delete`, `db_get` and `db_list`, which
  break or bypass the dirty-key protocol (`clear` forgets dirty keys, a failed
  `db_delete` marks none); a session shared with other work, and rows changed by others
  while it is open. Whether a driver accepts a value for the title, status or tags column
  is a failure of the commit here.
- Takeover: accessibility profiles, time limits and cooldown, consent methods, action
  targets and parameters.
- Rate limit: parsing of the rate string's digits, the path-prefix lookup and the exempt
  paths (a request carries its rate), the integer `Retry-After` header, and the text of
  the bucket key (a pair of the client and any formatting of the rate); negative counts.
- Rate limit: a new bucket reads the clock when it is created and again when it is used;
  it is full both times, so the model reads it once.
- Event bus: exceptions that end the event loop itself, `stop` and restart, `publish_sync`, delays between retries, the query
  methods; `BusRuns` records the order of dead letters but not how long anything takes.
- Anomalies: window selection, the deviation percentage, ids and texts; thresholds are
  the defaults 3, 4 and 5, and the standard deviation is any non-negative root of the
  variance.
- Cost guard: `is_provider_allowed`, headers, statistics, alert payloads, descriptions
  and metadata.
- Versions: hooks, tags, authors and metadata, `compare_versions`, `get_history`,
  `search_history` and export.
- Chunker: chunk ids and metadata, several documents and collections.
- Permissions: the queries for roles, rows and subscriptions (given as values), hashes
  and fields of audit entries, and the legacy role system.
