# xConfess: protocols, caches and scanners, in Dafny

This project models the parts of xConfess where a mistake would not show in a
single call, and proves what they promise.

| files | what they model |
|---|---|
| `CanonicalPayload`, `IdempotencyProtocol`, `IdempotencyTheorems`, `IdempotencyFailures`, `IdempotencyOutcomes`, `IdempotencyService` | creating a confession under an idempotency key: clients that share keys race through insert, poll, claim and commit, and may crash |
| `LockoutHistory`, `LockoutMeaning`, `LockoutService`, `LockoutProtocol` | the login lockout: three cache entries with a TTL that refine a specification over the history of failures, `login` as their gate, and logins that overlap |
| `FeedPagination`, `FeedWalks`, `FeedPages`, `FeedChanges` | cursor and page pagination of the feed, on tables that stand still and on tables that change |
| `RedactionStrings`, `Redaction`, `RedactionTheorems`, `SensitiveNames`, `SensitiveValues` | redaction of audit metadata: string classifiers, masks, and the rewrite of a JSON tree |
| `Drafts`, `DraftRequests`, `DraftSync`, `DraftSyncTheorems`, `DraftConflicts`, `SyncWorker` | offline draft sync: the service worker's queue against versioned drafts |
| `DraftPublishing`, `DraftPublishingTheorems`, `DraftWorker` | scheduled drafts that concurrent workers publish in transactions |
| `RedisCache`, `ConfessionCache`, `ConfessionWrites`, `ConfessionCacheService` | the confession cache, its eviction, the table behind it, and the administrators' writes to that table |
| `RustLexer`, `RustTokens`, `ContractScanner`, `ScannerForms` | the scanner that lists the exported functions of a contract |
| `PasswordReset` | password-reset tokens and concurrent consumers |
| `AccessControl`, `AccessEffects` | owner, admins and operators of the contracts, and the events they emit |
| `Options`, `StringOrder` | an option type; the order of strings, and sorting by it |

Each protocol is a step function over one state, a run is a sequence of events,
and the results hold for every run.  The classes hold the code in its own form,
with fields and loops.  Where a call has awaits, others may run at each of them
(a `schedule` says what they do), and the call is proved to be a run of the
protocol, so the results apply to it.

The results over runs say what can never happen.  What a single call answers and
leaves is stated beside them in plain values, without the step functions' names:
in `IdempotencyOutcomes`, `LockoutMeaning`, `FeedPages`, `SensitiveNames`,
`SensitiveValues`, `DraftRequests`, `ConfessionWrites`, `RustTokens`,
`ScannerForms` and `AccessEffects`.

`dafny verify dfyconfig.toml` checks everything.

## What the code does not keep

Some promises hold only in part.  Each of these is a lemma.  Where the promise
depends on the input or the run, a second lemma gives the condition under which
it holds, and says "if and only if" where that is exact.

- Feed cursors carry milliseconds while the column has microseconds, so a
  newest-order walk can lose rows of a page's last millisecond
  (`FeedWalks.SameMillisecondSkips`, `FeedWalks.WalkReturnsTheFeed`).
- The redaction drops an own property called `__proto__`, and forgets the key of
  strings that lie three arrays deep (`RedactionTheorems.NonStringsSurvive`,
  `RedactionTheorems.DeepStringsShow`).
- A creation that fails after its row is committed leaves its key without an
  answer for good: every retry fails, though the confession exists
  (`IdempotencyFailures.WedgedKeysAreNeverAnswered`,
  `IdempotencyFailures.WedgedIffCommitLost`).
- Logins of one email that overlap can record any number of failures at once
  without a lock; calls that do not overlap record at most ten in thirty minutes
  (`LockoutProtocol.OverlappingLoginsAreUnbounded`,
  `LockoutProtocol.AtMostTenUnlessCallsOverlap`).
- What an administrator hides or deletes is served from the cache for up to half
  an hour, because these writes evict nothing (`ConfessionCache.HiddenIsServed`,
  `ConfessionCache.StaleReadIff`).
- An offline edit that is sent again after it was accepted is reported as a
  conflict with itself (`DraftSyncTheorems.AppliedEditConflictsWithItself`,
  `DraftConflicts.FalseConflictIff`), an unversioned one is applied twice
  (`DraftSyncTheorems.UnversionedEditAppliesTwice`), and a conflict record has no
  category (`DraftSyncTheorems.CategoryIsLost`, `DraftConflicts.KeptWholeIff`).
- Failed publishing attempts are never counted, because the rethrow rolls the
  counter back (`DraftPublishingTheorems.AttemptsAreNeverCounted`).
- The comment of `createResetToken` promises one valid token at a time; two
  overlapping calls leave two (`PasswordReset.OverlappingCreationsLeaveTwo`).
- `findValidToken` and `consumeValidToken` disagree at the moment of expiry
  (`PasswordReset.ChecksDifferAtExpiry`), and a clean-up can make a consumption
  that took effect report `invalid` (`PasswordReset.CleanupCanHideSuccess`).
- The scanner skips a `pub fn` that starts at the name of another one
  (`ContractScanner.SwallowedNameIsLost`, `ContractScanner.ReportsExactlyTheExported`).

## Model

| member | source | states |
|---|---|---|
| `CanonicalPayload.SameHashIff` | xconfess-backend/src/confession/confession-idempotency.service.ts:72-85 | two payloads share a hash exactly when message, gender and Stellar hash agree and the tags are the same multiset (or both absent) |
| `CanonicalPayload.ScopesNeverCollide` | xconfess-backend/src/confession/idempotency-scope.ts:117-129 | scoped keys are equal exactly when operation, session and client key are, provided operation and session hold no NUL |
| `CanonicalPayload.NulInSessionCollides` | xconfess-backend/src/confession/idempotency-scope.ts:117-129 | with a NUL in the session two different triples share a scoped key |
| `IdempotencyProtocol.RunKeeps` | xconfess-backend/src/confession/confession-idempotency.service.ts:110-307 | every run keeps the invariant (who owns, what each record and row says) and what may never be undone |
| `IdempotencyProtocol.LocalChangeKeeps` | xconfess-backend/src/confession/confession-idempotency.service.ts:132-153 | a step of one client that changes only its own key is safe for every other client, although both commits update by id without looking at the status |
| `IdempotencyTheorems.OneOwnerPerAttempt` | xconfess-backend/src/confession/confession-idempotency.service.ts:110-307 | over every interleaving a record is processing exactly when exactly one client, crashed or not, owns the attempt |
| `IdempotencyTheorems.AtMostOneConfession` | xconfess-backend/src/confession/confession.service.ts:167-197 | a scoped key never has two confession rows, whatever fails, throws or crashes |
| `IdempotencyTheorems.EveryAnswerIsTheSame` | xconfess-backend/src/confession/confession.service.ts:143-197 | everybody who is handed a confession under one key, at whatever time, is handed the same one, and it holds the payload they sent |
| `IdempotencyTheorems.ReplaysAreNeverEmpty` | xconfess-backend/src/confession/confession-idempotency.service.ts:210-225 | a replay never returns null for a confession |
| `IdempotencyTheorems.CompletionIsAbsorbing` | xconfess-backend/src/confession/confession-idempotency.service.ts:132-153 | a completed record is never changed again |
| `IdempotencyTheorems.OnePayloadPerKey` | xconfess-backend/src/confession/confession-idempotency.service.ts:203-208 | all who are admitted under a key sent one canonical payload, and all who got a conflict sent another one |
| `IdempotencyTheorems.OtherPayloadIsNeverAdmitted` | xconfess-backend/src/confession/confession-idempotency.service.ts:203-208 | a payload that differs in a field or in its multiset of tags never becomes owner and never gets a replay |
| `IdempotencyFailures.FailureAfterCommitIff` | xconfess-backend/src/confession/confession.service.ts:167-197 | a call reports failure with its own row committed if and only if its creation step inserted the row and then raised; it reports success if and only if the step inserted and did not raise |
| `IdempotencyFailures.WedgedKeysAreNeverAnswered` | xconfess-backend/src/confession/confession-idempotency.service.ts:203-234 | once a key has a row, an uncompleted record and no live client about to commit, no client of the key is ever handed a confession: each later answer is a failure, a conflict or unavailable |
| `IdempotencyFailures.RaisedAttemptWedges` | xconfess-backend/src/confession/confession.service.ts:172-189 | every creation that inserts and then raises brings its key into that state for good |
| `IdempotencyFailures.CrashedCommitWedges` | xconfess-backend/src/confession/confession.service.ts:167-197 | so does every client that crashes between its insert and its commit |
| `IdempotencyFailures.WedgedIffCommitLost` | xconfess-backend/src/confession/confession.service.ts:167-197 | and nothing else does: a key is in that state if and only if one of its clients inserted the row and then raised, or crashed before its commit |
| `IdempotencyOutcomes.LoneCheck` | xconfess-backend/src/confession/confession-idempotency.service.ts:110-307 | a check with nobody in between, whatever pauses it makes, takes a key that has no record or the record of a failed attempt at its payload; it answers a conflict on another payload, the named confession on a completed record, and gives up on any other after 5000 ms and not before |
| `IdempotencyOutcomes.LoneCall` | xconfess-backend/src/confession/confession.service.ts:143-197 | such a call has returned after 103 steps: with its confession created and the record completed, with a failure and the record failed, or with that answer |
| `IdempotencyOutcomes.ReplayNamesTheConfession` | xconfess-backend/src/confession/confession-idempotency.service.ts:210-225 | in every state that keeps the invariant the answer of a completed record is the confession that it names |
| `IdempotencyOutcomes.WaiterWakes` | xconfess-backend/src/confession/confession-idempotency.service.ts:247-283 | a waiter that wakes, in however many waits, claims a failed record, brings home a completed one, and sleeps on or gives up on one in processing |
| `IdempotencyOutcomes.LostClaimWaits` | xconfess-backend/src/confession/confession-idempotency.service.ts:293-307 | a claim that another client won makes the caller wait for 5000 ms |
| `IdempotencyTheorems.CreateEnds` | xconfess-backend/src/confession/confession-idempotency.service.ts:240-307 | the steps of one call are bounded by 254 plus 250 for each claim of the key that another client won, although nested waits restart their deadline |
| `IdempotencyTheorems.NeverStuck` | xconfess-backend/src/confession/confession-idempotency.service.ts:240-290 | a call that has not returned can always go on once its sleep is over |
| `IdempotencyTheorems.ClaimsNeedFailures` | xconfess-backend/src/confession/confession-idempotency.service.ts:293-307 | the claims that other clients win are at most one more than the attempts that failed |
| `IdempotencyTheorems.WaitsNestNoDeeperThanClaims` | xconfess-backend/src/confession/confession-idempotency.service.ts:240-307 | waits nest at most one deeper than the claims that others won |
| `IdempotencyService.ConfessionIdempotencyService.TryInsert` | xconfess-backend/src/confession/confession-idempotency.service.ts:163-181 | inserts the processing record unless the key exists; exactly one protocol step |
| `IdempotencyService.ConfessionIdempotencyService.Check` | xconfess-backend/src/confession/confession-idempotency.service.ts:110-126 | the call is a run of the protocol, interleaved with whatever others do, that ends as its result says: owner, replay, conflict or unavailable; alone, it comes to what the record asks for |
| `IdempotencyService.ConfessionIdempotencyService.HandleExistingRecord` | xconfess-backend/src/confession/confession-idempotency.service.ts:186-234 | the same for the branches on an existing record; with nobody scheduled only its own steps run |
| `IdempotencyService.ConfessionIdempotencyService.WaitForProcessing` | xconfess-backend/src/confession/confession-idempotency.service.ts:240-290 | the same for the polling loop; a replay found by a nested wait makes the outer loop poll again |
| `IdempotencyService.ConfessionIdempotencyService.ClaimFailedRecord` | xconfess-backend/src/confession/confession-idempotency.service.ts:293-307 | the same for the compare-and-set on a failed record and the wait after a lost one |
| `IdempotencyService.ConfessionIdempotencyService.ExecuteCreate` | xconfess-backend/src/confession/confession.service.ts:207-272 | one transaction that inserts the row unless its key or id is taken, and may raise before or after it |
| `IdempotencyService.ConfessionIdempotencyService.Create` | xconfess-backend/src/confession/confession.service.ts:124-201 | the whole call is a run of the protocol that ends with the returned outcome; alone, with the confession created or the answer of the record |
| `IdempotencyService.ConfessionIdempotencyService.CommitSuccess` | xconfess-backend/src/confession/confession-idempotency.service.ts:132-144 | names the row in the record, whatever its status; one protocol step |
| `IdempotencyService.ConfessionIdempotencyService.CommitFailure` | xconfess-backend/src/confession/confession-idempotency.service.ts:149-153 | marks the record failed, whatever its status; one protocol step |
| `LockoutHistory.StreakMeaning` | xconfess-backend/src/auth/lockout.service.ts:50-55 | the streak is exactly the number of failures since the last lock, clear or gap of thirty minutes |
| `LockoutHistory.LockIsFifth` | xconfess-backend/src/auth/lockout.service.ts:55-77 | a lock happens only at the fifth failure of a streak |
| `LockoutHistory.ClearKeepsTheChain` | xconfess-backend/src/auth/lockout.service.ts:90-94 | a clear forgets the streak and the lock in force, and keeps the chain of locks |
| `LockoutHistory.DurationsNeverShrink` | xconfess-backend/src/auth/lockout.service.ts:56-72 | of two successive locks of a history, whatever is cleared in between, the second within seven days extends the chain by one and does not last shorter |
| `LockoutHistory.SecondLockIsLong` | xconfess-backend/src/auth/lockout.service.ts:56-67 | two locks in one burst: the second one lasts at least thirty minutes |
| `LockoutHistory.RateBound` | xconfess-backend/src/auth/lockout.service.ts:50-78 | no eleven failures in a row fit into less than thirty minutes when failures are recorded only while unlocked |
| `LockoutHistory.AtMostTenPerWindow` | xconfess-backend/src/auth/lockout.service.ts:50-78 | at most ten failures in any half-open window of thirty minutes without a clear |
| `LockoutHistory.TenFit` | xconfess-backend/src/auth/lockout.service.ts:50-78 | the bound of ten is reached |
| `LockoutMeaning.LocksIff` | xconfess-backend/src/auth/lockout.service.ts:50-55 | an event locks exactly when it is the fifth of five failures less than 1800000 ms apart of which none locked before |
| `LockoutMeaning.LockLasts` | xconfess-backend/src/auth/lockout.service.ts:56-62 | the first, second, third and every later lock of a chain last 900000, 1800000, 3600000 and 86400000 ms |
| `LockoutMeaning.ChainOf` | xconfess-backend/src/auth/lockout.service.ts:56-72 | every lock ends a chain of locks that follow each other within 604800000 ms |
| `LockoutMeaning.LockedIff` | xconfess-backend/src/auth/lockout.service.ts:25-41 | the account is locked exactly while the last lock, not lifted since, is not over |
| `LockoutMeaning.LockCountMeans` | xconfess-backend/src/auth/lockout.service.ts:67-71 | the lock count is the length of the last chain for 604800000 ms after its last lock, and zero then |
| `LockoutService.LockoutService.GetStatus` | xconfess-backend/src/auth/lockout.service.ts:25-48 | the answer is that of the history: locked or not, until when, attempts left, lock count |
| `LockoutService.LockoutService.RecordFailedAttempt` | xconfess-backend/src/auth/lockout.service.ts:50-88 | as one atomic call: the three cache entries go on refining the history with one more failure, for this and every other email, and the answer is that of the history, in plain numbers: locked by the fifth failure for as long as its place in the chain asks, or five less the streak |
| `LockoutService.LockoutService.CountAttempt` | xconfess-backend/src/auth/lockout.service.ts:50-88 | the cache steps alone: the entries of the email refine the extended history and no other entry changes |
| `LockoutService.LockoutService.LockAccount` | xconfess-backend/src/auth/lockout.service.ts:55-77 | sets the lock and the count, deletes the attempts; lock duration and number are those of the chain |
| `LockoutService.LockoutService.ClearLockout` | xconfess-backend/src/auth/lockout.service.ts:90-94 | deletes two entries, keeps the count; the cache refines the history with a clear |
| `LockoutService.AuthService.Login` | xconfess-backend/src/auth/auth.service.ts:84-111 | as one atomic call: refuses without recording while locked, records a failure on wrong credentials, clears on success, and keeps failures gated |
| `LockoutService.AuthService.LoginsAreRateBound` | xconfess-backend/src/auth/auth.service.ts:84-111 | after any sequence of logins that are atomic calls no email has more than ten recorded failures in a window without a clear |
| `LockoutProtocol.RunKeeps` | xconfess-backend/src/auth/auth.service.ts:84-111 | with the cache operations of logins as single steps and time passing in between, every run without overlapping calls keeps the invariant of a window: failures stay counted, the fifth locks, the second lock outlasts the window |
| `LockoutProtocol.AtMostTenUnlessCallsOverlap` | xconfess-backend/src/auth/auth.service.ts:84-111 | so when calls of an email do not overlap, at most ten failures are recorded in any window without a clear, however long a call takes between its steps |
| `LockoutProtocol.OverlappingLoginsAreUnbounded` | xconfess-backend/src/auth/auth.service.ts:84-111 | when they may overlap, any number of failures can be recorded at one moment without a lock, because every call can read the counter before the first one writes it |
| `LockoutProtocol.LoneLoginIsAtomic` | xconfess-backend/src/auth/auth.service.ts:84-111 | a login whose steps have nothing in between does to history, cache and result what it does as one atomic call |
| `FeedPagination.FeedQuery.GetMany` | xconfess-backend/src/confession/confession.service.ts:513-514 | the rows of the feed that meet the predicate, after the offset, limit plus one of them |
| `FeedPagination.ApplyFeedCursor` | xconfess-backend/src/confession/confession.service.ts:1178-1213 | the predicate or the offset that cursor, sort and page stand for, with their precedence |
| `FeedPagination.LoadFeed` | xconfess-backend/src/confession/confession.service.ts:484-531 | one page with its next cursor and hasMore, from an unchanging snapshot |
| `FeedWalks.WhereIsSuffix` | xconfess-backend/src/common/pagination/feed-ordering.ts:105-118 | the row-value predicate selects a suffix of the newest-first feed |
| `FeedWalks.FetchIsPageAt` | xconfess-backend/src/confession/confession.service.ts:513-531 | a page is a contiguous slice, and says that there is more exactly when rows remain behind it |
| `FeedPages.TimestampCursorWins` | xconfess-backend/src/confession/confession.service.ts:1178-1201 | in the newest order a cursor with a timestamp decides, whatever the page number: the page holds the rows after it, in order, at most the limit |
| `FeedPages.OffsetCursorWins` | xconfess-backend/src/confession/confession.service.ts:1203-1213 | in the count orders an offset of zero or more does |
| `FeedPages.PageNumberCounts` | xconfess-backend/src/confession/confession.service.ts:1203-1213 | without either the page number counts from one, and anything else is the first page |
| `FeedWalks.WalkReturnsTheFeed` | xconfess-backend/src/confession/confession.service.ts:1191-1230 | following nextCursor to the end gives exactly the feed, each row once: always for count orders, for the newest order if and only if no page boundary falls inside a millisecond |
| `FeedWalks.WholeMillisecondsAreSmooth` | xconfess-backend/src/common/pagination/feed-ordering.ts:82-90 | with timestamps of whole milliseconds no boundary does, for any limit and any ties |
| `FeedWalks.SameMillisecondSkips` | xconfess-backend/src/common/pagination/feed-ordering.ts:82-90 | a feed on which the newest-order walk loses a row, because the cursor drops microseconds |
| `FeedWalks.WalkPagesAreNumbered` | xconfess-backend/src/confession/confession.service.ts:1203-1212 | the p-th page of such a walk is the page with number p |
| `FeedChanges.NeverTwice` | xconfess-backend/src/confession/confession.service.ts:1191-1200 | while rows are inserted, hidden, deleted and moved up between fetches, a newest-order walk returns no row twice |
| `FeedChanges.StableRowsAreReturned` | xconfess-backend/src/confession/confession.service.ts:1191-1200 | a row that stays visible with an unchanged key is returned if and only if no page ends in its millisecond just before it |
| `FeedChanges.FirstOfItsMillisecondIsReturned` | xconfess-backend/src/confession/confession.service.ts:1191-1200 | such a row is returned whenever no other row of any snapshot shares its millisecond and sorts before it |
| `FeedChanges.StableRowsAreReturnedInWholeMilliseconds` | xconfess-backend/src/confession/confession.service.ts:1191-1200 | with whole milliseconds every such row is returned |
| `SensitiveNames.SensitiveIff` | xconfess-backend/src/audit-log/audit-log-redaction.service.ts:65-117 | a name is sensitive exactly when it holds one of eleven words in whatever capitals, ends in token, or is signedMessage |
| `SensitiveNames.ListSpelled` | xconfess-backend/src/audit-log/audit-log-redaction.service.ts:65-101 | the exact list holds its 35 names and no other |
| `SensitiveNames.WordMakesSensitive` | xconfess-backend/src/audit-log/audit-log-redaction.service.ts:103-117 | any name around such a word is sensitive |
| `SensitiveNames.EmailKeyIff` | xconfess-backend/src/audit-log/audit-log-redaction.service.ts:243-246 | the email keys are those with email in them, sender and recipient, in whatever capitals |
| `SensitiveNames.UserIdKeyIff` | xconfess-backend/src/audit-log/audit-log-redaction.service.ts:252-254 | the user-id keys are userId and targetUserId |
| `SensitiveNames.SensitiveStringsAreMarked` | xconfess-backend/src/audit-log/audit-log-redaction.service.ts:225-234 | a string anywhere in a tree that is met under a sensitive name is stored as [REDACTED] |
| `SensitiveNames.SensitiveEntriesAreMarked` | xconfess-backend/src/audit-log/audit-log-redaction.service.ts:182-194 | so is every string that is an entry of the metadata itself |
| `SensitiveValues.JwtIff` | xconfess-backend/src/audit-log/audit-log-redaction.service.ts:119 | a JWT is three dotted parts of letters, digits, - and _ |
| `SensitiveValues.EmailIff` | xconfess-backend/src/audit-log/audit-log-redaction.service.ts:121 | an email is local@host.zone without white space and further @ |
| `SensitiveValues.HexIff` | xconfess-backend/src/audit-log/audit-log-redaction.service.ts:120 | a long hex string has forty hexadecimal digits or more |
| `SensitiveValues.StringBecomes` | xconfess-backend/src/audit-log/audit-log-redaction.service.ts:225-310 | what is stored for a string: the marker, the masked JWT with its first two parts, the masked email with its host, the hashed user id, the masked hex string with its ends, or the string, in this order |
| `SensitiveValues.OtherMetadata` | xconfess-backend/src/audit-log/audit-log-redaction.service.ts:182-187 | metadata that is no object is stored as it is, and missing metadata as null |
| `SensitiveValues.IndexKeyIsDecimal` | xconfess-backend/src/audit-log/audit-log-redaction.service.ts:189-193 | the name of an array index is its decimal numeral |
| `SensitiveValues.StoredStringBecomes` | xconfess-backend/src/audit-log/audit-log-redaction.service.ts:182-265 | and so for every string of a tree under the key it is met with |
| `RedactionStrings.RedactedIsStorable` | xconfess-backend/src/audit-log/audit-log-redaction.service.ts:225-265 | whatever the string, what replaces it is no JWT, no long hex string, no unmasked email and no digit user id where those are masked, and the fixed marker under a sensitive key |
| `RedactionStrings.UnchangedIffStorable` | xconfess-backend/src/audit-log/audit-log-redaction.service.ts:225-310 | redaction leaves a string alone exactly when it may be stored |
| `RedactionStrings.MaskedEmailFacts` | xconfess-backend/src/audit-log/audit-log-redaction.service.ts:281-295 | masking an email changes it exactly when its local part is not masked already, and masks it |
| `RedactionStrings.MaskedJwtHasThreeDots` | xconfess-backend/src/audit-log/audit-log-redaction.service.ts:297-303 | a masked JWT has three dots or more, so it is no JWT |
| `RedactionStrings.MaskedHexFacts` | xconfess-backend/src/audit-log/audit-log-redaction.service.ts:305-310 | a masked hex string is neither a JWT nor hex |
| `RedactionStrings.MaskedEmailShows` | xconfess-backend/src/audit-log/audit-log-redaction.service.ts:281-295 | two emails have one mask exactly when the domain and the first two characters (or the fact that there are no more) agree |
| `RedactionStrings.MaskedHexShows` | xconfess-backend/src/audit-log/audit-log-redaction.service.ts:305-310 | two hex strings have one mask exactly when their first and last four digits agree |
| `RedactionStrings.MaskedJwtShows` | xconfess-backend/src/audit-log/audit-log-redaction.service.ts:297-303 | two JWTs have one mask exactly when header and payload agree |
| `Redaction.RewriteMetadata` | xconfess-backend/src/audit-log/audit-log-redaction.service.ts:182-194 | the loop over the entries, assigning each to a fresh object, yields the rewrite of the whole tree |
| `Redaction.RedactMetadata` | xconfess-backend/src/audit-log/audit-log-redaction.service.ts:182-194 | so it does for the redaction of strings |
| `RedactionTheorems.StoredTreesAreStorable` | xconfess-backend/src/audit-log/audit-log-redaction.service.ts:182-265 | every tree that comes out obeys the storage rules at every string |
| `RedactionTheorems.UnchangedIffMayBeStored` | xconfess-backend/src/audit-log/audit-log-redaction.service.ts:182-265 | an object is left alone exactly when it obeys them |
| `RedactionTheorems.Idempotent` | xconfess-backend/src/audit-log/audit-log-redaction.service.ts:182-265 | redacting twice is redacting once, on every tree |
| `RedactionTheorems.LookupCommutes` | xconfess-backend/src/audit-log/audit-log-redaction.service.ts:196-223 | redaction commutes with looking up any path, arrays three deep included |
| `RedactionTheorems.NonStringsSurvive` | xconfess-backend/src/audit-log/audit-log-redaction.service.ts:189-198 | keys, numbers, booleans and nulls survive if and only if no key on their path is __proto__ |
| `RedactionTheorems.StringsAreRedacted` | xconfess-backend/src/audit-log/audit-log-redaction.service.ts:225-265 | the string at a path is replaced by the redaction under its last object key, or under an index from the third array on |
| `RedactionTheorems.NonInterference` | xconfess-backend/src/audit-log/audit-log-redaction.service.ts:196-234 | trees that differ only in strings under sensitive keys are stored as the same tree |
| `RedactionTheorems.DeepStringsShow` | xconfess-backend/src/audit-log/audit-log-redaction.service.ts:210-217 | from the third array on a string under any key, sensitive or not, is stored as it is unless a pattern recognises it |
| `Drafts.ServeKeeps` | xconfess-backend/src/confession-draft/confession-draft.service.ts:128-303 | no request lowers a version or reuses an id; content and revisions change only in a save with content, to the next version |
| `DraftRequests.ChangeAcceptedIff` | xconfess-backend/src/confession-draft/confession-draft.service.ts:128-159 | an update is accepted exactly when the draft exists, is the user's, is not posted, and has the version named, if one is; each refusal has its answer and changes nothing |
| `DraftRequests.ChangeStores` | xconfess-backend/src/confession-draft/confession-draft.service.ts:161-178 | the content and category given, an empty category as none, the old ones otherwise; one revision of the old content in front of at most nine; every other field as it was; and the answer is the stored row |
| `DraftRequests.CreateStores` | xconfess-backend/src/confession-draft/confession-draft.service.ts:74-112 | a draft is created for a user with fewer than ten, scheduled only for the future |
| `DraftRequests.ScheduleStores` | xconfess-backend/src/confession-draft/confession-draft.service.ts:210-235 | scheduling changes status, time and timezone of an unposted draft of the user, for the future only |
| `DraftRequests.CancelStores` | xconfess-backend/src/confession-draft/confession-draft.service.ts:237-251 | cancelling takes status and time of a scheduled draft back |
| `DraftRequests.PublishNowStores` | xconfess-backend/src/confession-draft/confession-draft.service.ts:253-278 | publishing posts an unposted draft of the user once, with its own text |
| `DraftRequests.ConvertStores` | xconfess-backend/src/confession-draft/confession-draft.service.ts:280-303 | a posted draft becomes a draft again while the user has fewer than ten |
| `DraftRequests.DeleteRemoves` | xconfess-backend/src/confession-draft/confession-draft.service.ts:196-208 | deleting removes the one draft of the user, or all of them, and no other |
| `SyncWorker.ConfessionDraftService.UpdateDraft` | xconfess-backend/src/confession-draft/confession-draft.service.ts:128-179 | the draft rows and the answer of the request, branch by branch |
| `SyncWorker.ServiceWorker.Fetch` | xconfess-frontend/public/sw.js:171-182 | one request: its effect on the server, and the answer unless it or the request is lost |
| `SyncWorker.ServiceWorker.Proceed` | xconfess-frontend/public/sw.js:184-231 | records a conflict, or drops the item, or leaves it, as the answer says; one protocol step |
| `SyncWorker.ServiceWorker.ReplaySyncQueue` | xconfess-frontend/public/sw.js:167-235 | one pass is a run of the protocol, interleaved with others, in which the worker starts, is never stopped, and has dealt with every item; undisturbed, it comes to handling the items one after the other: accepted ones leave, conflicting ones leave for the conflict store, others stay |
| `DraftSyncTheorems.RunKeeps` | xconfess-frontend/public/sw.js:167-235 | every run keeps the invariant of the stores, the workers and the draft histories |
| `DraftSyncTheorems.NoEditIsLost` | xconfess-frontend/public/sw.js:196-231 | in every reachable state each queued edit is pending, or accepted by the server, or its text and base version are in the conflict store (or were dismissed) |
| `DraftSyncTheorems.NoVersionIsEditedTwice` | xconfess-backend/src/confession-draft/confession-draft.service.ts:151-177 | no version of a draft is edited twice, by whomever; later saves replace later versions |
| `DraftSyncTheorems.VersionedEditsApplyOnce` | xconfess-backend/src/confession-draft/confession-draft.service.ts:151-177 | an edit with content and base version is applied at most once, only to that version, and exactly when the server answered with success |
| `DraftSyncTheorems.RevisionsAreTheHistory` | xconfess-backend/src/confession-draft/confession-draft.service.ts:161-171 | the revisions are the latest ten replaced contents, newest first, each the content that the save before had stored |
| `DraftSyncTheorems.UnversionedEditAppliesTwice` | xconfess-backend/src/confession-draft/confession-draft.service.ts:151-159 | an unversioned edit whose reply was lost is applied again |
| `DraftSyncTheorems.AppliedEditConflictsWithItself` | xconfess-frontend/public/sw.js:179-182 | a versioned edit whose reply was lost is reported as a conflict with its own text |
| `DraftConflicts.FalseConflictIff` | xconfess-frontend/public/sw.js:167-235 | over every run whose edits name versions that the client saw, an accepted edit with content and base version is reported as a conflict if and only if it was sent again after its acceptance and a worker acted on that answer, unless the answer refused a published draft |
| `DraftConflicts.UndisturbedHasNoFalseConflict` | xconfess-frontend/public/sw.js:167-235 | with one worker that is never stopped and no lost reply, no accepted edit is ever reported as a conflict |
| `DraftConflicts.RecordsAreAttributed` | xconfess-frontend/public/sw.js:204-217 | every conflict record in the store carries the draft, the text and the base version of the edit it was made for |
| `DraftConflicts.KeptWholeIff` | xconfess-frontend/public/sw.js:204-211 | an edit that left the queue without being accepted can be rebuilt from a conflict record if and only if it carries no category |
| `DraftSyncTheorems.CategoryIsLost` | xconfess-frontend/public/sw.js:204-211 | the category of a conflicting edit is in no store afterwards |
| `DraftPublishingTheorems.RunKeeps` | xconfess-backend/src/confession-draft/confession-draft.service.ts:319-354 | every run keeps the invariant of locks, buffers, schedulings and confessions |
| `DraftPublishingTheorems.OneConfessionPerScheduling` | xconfess-backend/src/confession-draft/confession-draft.service.ts:319-354 | with any number of workers and repeated jobs for an id, a scheduling yields at most one confession |
| `DraftPublishingTheorems.ConfessionsAreThePostedDrafts` | xconfess-backend/src/confession-draft/confession-draft.service.ts:337-345 | the confessions of workers are one for one the rows that they moved to posted, with the row as message, and none before its time |
| `DraftPublishingTheorems.AllOrNothing` | xconfess-backend/src/confession-draft/confession-draft.service.ts:320-353 | a step of a worker shows nothing, or one confession and its draft posted; a failed or crashed attempt leaves everything as it was |
| `DraftPublishingTheorems.AttemptsAreNeverCounted` | xconfess-backend/src/confession-draft/confession-draft.service.ts:346-352 | the attempt counter is zero in every committed state, so the limit of five is never reached |
| `DraftWorker.DraftPublisher.FindLocked` | xconfess-backend/src/confession-draft/confession-draft.service.ts:323-329 | waits for the row lock, then reads the row, or finds none |
| `DraftWorker.DraftPublisher.CreateConfession` | xconfess-backend/src/confession-draft/confession-draft.service.ts:331-339 | returns early unless the draft is due, else creates the confession in the transaction |
| `DraftWorker.DraftPublisher.SavePosted` | xconfess-backend/src/confession-draft/confession-draft.service.ts:341-345 | saves the posted row in the transaction |
| `DraftWorker.DraftPublisher.CatchAndRethrow` | xconfess-backend/src/confession-draft/confession-draft.service.ts:346-352 | counts the attempt, saves it, and rolls it back |
| `DraftWorker.DraftPublisher.PublishScheduledDraftById` | xconfess-backend/src/confession-draft/confession-draft.service.ts:319-354 | a call is a run of the protocol in which the worker begins and is idle again, unless it still waits for the row; undisturbed, it publishes a due draft and leaves any other alone |
| `DraftPublishingTheorems.DueDraftIsPublished` | xconfess-backend/src/confession-draft/confession-draft.service.ts:319-345 | with nothing in the way one job publishes a draft that is scheduled for a time that has come and was tried less than five times |
| `DraftPublishingTheorems.OtherDraftsAreLeft` | xconfess-backend/src/confession-draft/confession-draft.service.ts:329-335 | a job for a draft that is missing, not scheduled, too early or tried five times changes no row and adds no confession |
| `DraftWorker.ConfessionDraftQueue.PublishDue` | xconfess-backend/src/confession-draft/confession-draft.queue.ts:37-56 | one publish-one job is queued for each due id, in order |
| `DraftWorker.ConfessionDraftQueue.PublishOne` | xconfess-backend/src/confession-draft/confession-draft.queue.ts:58-67 | the job at the head runs one call of the publisher, and is tried again after an exception, five times in all |
| `RedisCache.Redis.Scan` | xconfess-backend/src/cache/redis-cache.store.ts:88-94 | one SCAN reply: the stored keys with the prefix among the next slots, expired ones included, and cursor 0 after the last |
| `RedisCache.StoredIsKept` | xconfess-backend/src/cache/redis-cache.store.ts:70-77 | a value is read until its time to live is over, and for good when that is zero or less |
| `RedisCache.RedisCacheStore.Set` | xconfess-backend/src/cache/redis-cache.store.ts:70-77 | stores under the prefixed key, with a TTL only when it is positive |
| `RedisCache.RedisCacheStore.Keys` | xconfess-backend/src/cache/redis-cache.store.ts:83-100 | the scan loop finds exactly the keys with the prefix |
| `RedisCache.RedisCacheStore.Clear` | xconfess-backend/src/cache/redis-cache.store.ts:102-104 | removes exactly the keys of this store |
| `RedisCache.CacheService.DelPattern` | xconfess-backend/src/cache/cache.service.ts:72-90 | removes exactly the keys with the prefix |
| `RedisCache.CacheService.Set` | xconfess-backend/src/cache/cache.service.ts:48-60 | seconds become milliseconds |
| `ConfessionCache.SinglesAreNotListed` | xconfess-backend/src/cache/cache-namespace.ts:186-193 | no single entry lies under the listing prefix |
| `ConfessionCache.ListKeysHavePrefix` | xconfess-backend/src/cache/cache.service.ts:161-163 | every feed and tag page lies under it |
| `ConfessionCache.EvictionIsExact` | xconfess-backend/src/cache/cache-namespace.ts:181-193 | evicting the listings removes every page and keeps every single entry |
| `ConfessionCache.RunKeeps` | xconfess-backend/src/confession/confession.service.ts:1468-1480 | every run of reads and writes, those of administrators included, keeps what the cache shows of a row equal to the row, save for its being hidden or deleted |
| `ConfessionCache.RunExplains` | xconfess-backend/src/confession/confession.service.ts:861-947 | every run keeps that whatever the cache shows of a hidden or deleted row was hidden or deleted by an administrator after the value was stored |
| `ConfessionCache.StaleReadIff` | xconfess-backend/src/confession/confession.service.ts:861-947 | after any run a read shows the current message, gender, creation time and moderation status; it differs from the answer of the table if and only if the entry is live, the row is hidden or deleted, and an administrator changed it after the entry was stored |
| `ConfessionCache.CacheIsTransparent` | xconfess-backend/src/confession/confession.service.ts:861-947 | a read of a row that no administrator changed after its entry was stored answers what the table would |
| `ConfessionCache.ServiceAloneIsTransparent` | xconfess-backend/src/confession/confession.service.ts:861-947 | so does every read of a run without writes of administrators |
| `ConfessionCache.HiddenIsServed` | xconfess-backend/src/admin/services/admin.service.ts:354-451 | a confession that is read, then hidden or deleted by an administrator, is served until 1800 seconds after the read, and no longer |
| `ConfessionCache.CachedPagesAreCurrent` | xconfess-backend/src/confession/confession.service.ts:414-536 | after any run no cached page holds an item that is rejected, flagged or outdated, and an item that is hidden or deleted was made so by an administrator after the page was stored |
| `ConfessionWrites.CreateDoes` | xconfess-backend/src/confession/confession.service.ts:250-272 | a new row is public at once unless the verdict rejects it, and every listing is evicted |
| `ConfessionWrites.UpdateDoes` | xconfess-backend/src/confession/confession.service.ts:538-582 | an edited message gets a verdict and is hidden exactly when that rejects it; without one message, verdict and visibility stay |
| `ConfessionWrites.RemoveDoes` | xconfess-backend/src/confession/confession.service.ts:584-614 | deleting and restoring change nothing but that, and evict |
| `ConfessionWrites.ModerateDoes` | xconfess-backend/src/confession/confession.service.ts:1003-1036 | a verdict hides exactly what it rejects, and evicts |
| `ConfessionWrites.ScheduleDoes` | xconfess-backend/src/confession/confession-scheduler.service.ts:83-118 | scheduling and cancelling change the status alone, and evict nothing |
| `ConfessionWrites.PublishDoes` | xconfess-backend/src/confession/confession-scheduler.service.ts:24-81 | what is scheduled for now or before becomes published as of now, and its entries and the listings are evicted |
| `ConfessionWrites.AdminWritesDo` | xconfess-backend/src/admin/services/admin.service.ts:354-451 | an administrator changes the one flag, and no cached value |
| `ConfessionWrites.AnswersTell` | xconfess-backend/src/confession/confession.service.ts:861-947 | an answer tells the message, gender, creation time and verdict that the row has now |
| `ConfessionWrites.PagesTell` | xconfess-backend/src/confession/confession.service.ts:414-536 | so does every item of a cached page |
| `ConfessionWrites.ListedIff` | xconfess-backend/src/confession/confession.service.ts:437-450 | the feed lists what is neither deleted nor hidden, approved or pending, and published or due |
| `ConfessionWrites.ViewsAreKept` | xconfess-backend/src/confession/confession.service.ts:861-947 | a view that is read is kept for 1800000 ms |
| `ConfessionWrites.PagesAreKept` | xconfess-backend/src/confession/confession.service.ts:414-536 | a page that is read is kept for 300000 ms, under its own key |
| `ConfessionCacheService.ConfessionService.Create` | xconfess-backend/src/confession/confession.service.ts:350-358 | a new row evicts every listing |
| `ConfessionCacheService.ConfessionService.Update` | xconfess-backend/src/confession/confession.service.ts:538-582 | the row after an edit, its verdict and visibility, and the evictions; refusals change nothing |
| `ConfessionCacheService.ConfessionService.Remove` | xconfess-backend/src/confession/confession.service.ts:584-596 | soft deletion and its evictions |
| `ConfessionCacheService.ConfessionService.Restore` | xconfess-backend/src/confession/confession.service.ts:601-614 | restoring and its evictions |
| `ConfessionCacheService.ConfessionService.DeleteConfession` | xconfess-backend/src/confession/confession.service.ts:1567-1595 | soft deletion by a user and its evictions |
| `ConfessionCacheService.ConfessionService.RestoreConfession` | xconfess-backend/src/confession/confession.service.ts:1601-1627 | restoring by a user and its evictions |
| `ConfessionCacheService.ConfessionService.UpdateModerationStatus` | xconfess-backend/src/confession/confession.service.ts:1003-1036 | the verdict, the visibility that follows from it, and the evictions |
| `ConfessionCacheService.ConfessionService.GetConfessionByIdWithViewCount` | xconfess-backend/src/confession/confession.service.ts:861-947 | the answer is the cached view or that of the table; a view shows the current row, and a refusal means that the row is missing, hidden or deleted |
| `ConfessionCacheService.ConfessionService.LoadConfessionsFeed` | xconfess-backend/src/confession/confession.service.ts:414-536 | the page is the cached one or what the query selects; every item is current and neither rejected nor flagged, cached or not |
| `ConfessionCacheService.ConfessionService.LoadConfessionsByTag` | xconfess-backend/src/confession/confession.service.ts:1494-1553 | the same for a tag page |
| `ConfessionCacheService.ConfessionService.InvalidateConfessionEntry` | xconfess-backend/src/confession/confession.service.ts:1477-1480 | evicts the single entry and exactly the listings |
| `ConfessionCacheService.ConfessionService.PublishDueRows` | xconfess-backend/src/confession/confession-scheduler.service.ts:24-65 | exactly the due rows become published and are created anew |
| `ConfessionCacheService.ConfessionService.PublishScheduledConfessions` | xconfess-backend/src/confession/confession-scheduler.service.ts:21-81 | then their entries and the listings are evicted, if there was any |
| `ConfessionCacheService.AdminService.DeleteConfession` | xconfess-backend/src/admin/services/admin.service.ts:354-384 | deletes the row, or finds none; whatever the cache holds stays |
| `ConfessionCacheService.AdminService.HideConfession` | xconfess-backend/src/admin/services/admin.service.ts:386-418 | hides the row, or finds none; whatever the cache holds stays |
| `ConfessionCacheService.AdminService.UnhideConfession` | xconfess-backend/src/admin/services/admin.service.ts:420-451 | shows the row again, or finds none; whatever the cache holds stays |
| `RustTokens.CommentIff` | xconfess-contracts/scripts/extract_contract_functions.py:17-24 | a block comment ends where its delimiters balance, as the grammar of nested comments has it |
| `RustTokens.OpensIff` | xconfess-contracts/scripts/extract_contract_functions.py:11 | the pattern matches exactly at line comments, block comments, closed string literals and raw strings |
| `RustTokens.TokenIff` | xconfess-contracts/scripts/extract_contract_functions.py:11-32 | a token ends where the grammar has it end |
| `RustTokens.LexIff` | xconfess-contracts/scripts/extract_contract_functions.py:11-32 | the scan finds exactly the comments and literals of the grammar |
| `RustTokens.MissingIff` | xconfess-contracts/scripts/extract_contract_functions.py:19-29 | a block comment or raw string without an end is an error of its own |
| `RustLexer.LexFindsTokens` | xconfess-contracts/scripts/extract_contract_functions.py:11-32 | the scan finds exactly the tokens of a source (maximal, leftmost, nothing starting in between), and fails exactly when it has none |
| `RustLexer.MaskedText` | xconfess-contracts/scripts/extract_contract_functions.py:8-34 | a source is accepted exactly when it has tokens; the masked text has its length, equals it outside the tokens and is blank inside them |
| `RustLexer.OnlyCodeMatters` | xconfess-contracts/scripts/extract_contract_functions.py:11-34 | sources with the same tokens and the same text outside them mask alike |
| `RustLexer.SkipBlockComment` | xconfess-contracts/scripts/extract_contract_functions.py:17-24 | the inner loop finds the end of a nested comment |
| `RustLexer.MaskSource` | xconfess-contracts/scripts/extract_contract_functions.py:12-34 | the outer loop computes the masked text, or the error |
| `ScannerForms.PubFnIff` | xconfess-contracts/scripts/extract_contract_functions.py:38 | a function is seen exactly where pub, fn and a name stand, white space between, at the start of a word |
| `ScannerForms.HeaderIff` | xconfess-contracts/scripts/extract_contract_functions.py:36 | a block is entered exactly at the first brace after such an attribute and impl |
| `ContractScanner.HeaderBrace` | xconfess-contracts/scripts/extract_contract_functions.py:36 | a block header ends at the first brace after its start |
| `ContractScanner.ScanBodyMeans` | xconfess-contracts/scripts/extract_contract_functions.py:37-48 | the scan of a body fails exactly when it is never closed, and else reports exactly the matches at depth one before the close |
| `ContractScanner.AcceptedIffClosed` | xconfess-contracts/scripts/extract_contract_functions.py:36-48 | the code is accepted exactly when every block is closed, overlapping headers included |
| `ContractScanner.EveryMatchIffApart` | xconfess-contracts/scripts/extract_contract_functions.py:38 | successive matches are all the matches exactly when none overlap |
| `ContractScanner.OverlapsAreCalledPub` | xconfess-contracts/scripts/extract_contract_functions.py:38 | they overlap only where a function is called pub |
| `ContractScanner.SeenIffNotSwallowed` | xconfess-contracts/scripts/extract_contract_functions.py:38 | a match is seen exactly when it does not start inside one that is seen |
| `ContractScanner.ReportedIffSeen` | xconfess-contracts/scripts/extract_contract_functions.py:8-49 | for every accepted source a name is reported exactly when a pub fn of that name stands at depth one of a contractimpl body and is seen |
| `ContractScanner.ReportsExactlyTheExported` | xconfess-contracts/scripts/extract_contract_functions.py:8-49 | the reported names are exactly the exported ones if and only if each exported name has an exported pub fn that is seen |
| `ContractScanner.KeywordsAreNoNames` | xconfess-contracts/scripts/extract_contract_functions.py:8-49 | so they are for every accepted source without a function called pub |
| `ContractScanner.SwallowedNameIsLost` | xconfess-contracts/scripts/extract_contract_functions.py:38-49 | and not for `#[contractimpl]impl X{pub fn pub fn x}`, which is accepted, exports x and is scanned without it |
| `ContractScanner.ResultDependsOnMask` | xconfess-contracts/scripts/extract_contract_functions.py:34-49 | the result depends on the masked text alone |
| `ContractScanner.ScanBlock` | xconfess-contracts/scripts/extract_contract_functions.py:37-48 | the brace-depth loop computes the specified scan |
| `StringOrder.LeqIff` | xconfess-contracts/scripts/extract_contract_functions.py:49 | names are sorted by their first differing character, a prefix before what it begins |
| `ContractScanner.SortNames` | xconfess-contracts/scripts/extract_contract_functions.py:49 | the names sorted, each once |
| `ContractScanner.ContractFunctions` | xconfess-contracts/scripts/extract_contract_functions.py:8-49 | the whole scanner yields the specified result |
| `AccessControl.RunFromEmpty` | xconfess-contracts/contracts/access_control.rs:132-148 | from the empty contract nothing changes and nothing is emitted before an owner is set, governance included, and from then on the events are honest |
| `AccessControl.EventsTellTheRoles` | xconfess-contracts/contracts/access_control.rs:281-398 | over every run from the empty contract there is an owner exactly when one was set, and replaying the events from the first owner gives owner and admins; every event tells of a real change |
| `AccessControl.AdminsNeverRunOut` | xconfess-contracts/contracts/access_control.rs:323-345 | over every run from the empty contract, once there is an admin there always is one, across transfers and owners who are admins too |
| `AccessControl.OnlyTheAuthorizedChangeRoles` | xconfess-contracts/contracts/access_control.rs:238-259 | owner and admins change only in a call signed by the owner of that moment, or in the execution of a due proposal signed by an admin or the owner; operators only in a call signed by an admin or the owner |
| `AccessControl.FailuresChangeNothing` | xconfess-contracts/contracts/access_control.rs:281-444 | a call that does not succeed changes no role |
| `AccessControl.GrantsLessRevocations` | xconfess-contracts/contracts/access_control.rs:206-213 | the number of admins is grants less revocations |
| `AccessControl.ListedOwnerCountsTwice` | xconfess-contracts/contracts/access_control.rs:227-230 | the count of authorized addresses is right except that a listed owner counts twice |
| `AccessEffects.InitOwnerDoes` | xconfess-contracts/contracts/access_control.rs:132-148 | an owner is set once, with nobody in another role |
| `AccessEffects.GrantAdminDoes` | xconfess-contracts/contracts/access_control.rs:281-306 | the owner makes an admin of anybody who is none; each failure has its error; no other role moves |
| `AccessEffects.RevokeAdminDoes` | xconfess-contracts/contracts/access_control.rs:318-362 | the owner removes any admin but the owner and the last one |
| `AccessEffects.TransferOwnershipDoes` | xconfess-contracts/contracts/access_control.rs:373-398 | the owner hands the contract to anybody else; admins and operators stay |
| `AccessEffects.GrantOperatorDoes` | xconfess-contracts/contracts/access_control.rs:402-421 | owner and admins make operators of those who are none |
| `AccessEffects.RevokeOperatorDoes` | xconfess-contracts/contracts/access_control.rs:425-444 | and unmake those who are |
| `AccessEffects.ExecuteDoes` | xconfess-contracts/contracts/governance/logic.rs:126-174 | a proposal takes effect exactly when it is due, an owner or admin executes it with a signature, and its action can go through |
| `AccessControl.Contract.InitOwner` | xconfess-contracts/contracts/access_control.rs:132-148 | sets the owner once |
| `AccessControl.Contract.GrantAdmin` | xconfess-contracts/contracts/access_control.rs:281-284 | state, events and result of the call |
| `AccessControl.Contract.InternalGrantAdmin` | xconfess-contracts/contracts/access_control.rs:286-306 | state, events and result of the call |
| `AccessControl.Contract.RevokeAdmin` | xconfess-contracts/contracts/access_control.rs:318-321 | state, events and result of the call |
| `AccessControl.Contract.InternalRevokeAdmin` | xconfess-contracts/contracts/access_control.rs:323-362 | state, events and result of the call, in the order of its checks |
| `AccessControl.Contract.TransferOwnership` | xconfess-contracts/contracts/access_control.rs:373-380 | state, events and result of the call |
| `AccessControl.Contract.InternalTransferOwnership` | xconfess-contracts/contracts/access_control.rs:382-398 | state, events and result of the call |
| `AccessControl.Contract.Execute` | xconfess-contracts/contracts/governance/logic.rs:126-174 | state, events and result of the execution of a proposal: nothing without an authorized executor, a due proposal and an action that succeeds |
| `AccessControl.Contract.GrantOperator` | xconfess-contracts/contracts/access_control.rs:402-421 | state and result of the call |
| `AccessControl.Contract.RevokeOperator` | xconfess-contracts/contracts/access_control.rs:425-444 | state and result of the call |
| `PasswordReset.ValidAtMostOnce` | xconfess-backend/src/auth/password-reset.service.ts:118-156 | under every interleaving at most one call reports a token valid |
| `PasswordReset.ValidBeforeExpiry` | xconfess-backend/src/auth/password-reset.service.ts:138-141 | such a call made its update before the expiry, relative to its own now |
| `PasswordReset.NoneValidAfterInvalidation` | xconfess-backend/src/auth/password-reset.service.ts:177-182 | after an invalidation no token of the user is reported valid by a call whose update had not taken effect |
| `PasswordReset.DeadStaysDead` | xconfess-backend/src/auth/password-reset.service.ts:138-156 | a token that is used up or gone without a winner never gets one |
| `PasswordReset.WinnersAreToldUnlessCleaned` | xconfess-backend/src/auth/password-reset.service.ts:148-155 | the re-read of a winner fails only when the token had expired by the clock and was cleaned up |
| `PasswordReset.CleanupCanHideSuccess` | xconfess-backend/src/auth/password-reset.service.ts:148-155 | and then the call reports a consumed token as invalid |
| `PasswordReset.AtMostOneLiveToken` | xconfess-backend/src/auth/password-reset.service.ts:40-60 | when creations for a user do not overlap, at most one token of the user is unused |
| `PasswordReset.OverlappingCreationsLeaveTwo` | xconfess-backend/src/auth/password-reset.service.ts:40-60 | when they do, two can be |
| `PasswordReset.ChecksDifferAtExpiry` | xconfess-backend/src/auth/password-reset.service.ts:97-134 | finding and consuming disagree exactly at the moment of expiry |
| `PasswordReset.LoneConsume` | xconfess-backend/src/auth/password-reset.service.ts:118-156 | alone, a consumption says invalid of a missing token, reused of a used one, expired of one whose expiry is not after now, and else uses it up and says valid |
| `PasswordReset.LosersAreToldReused` | xconfess-backend/src/auth/password-reset.service.ts:138-146 | a call that comes to its update too late changes nothing and says reused |
| `PasswordReset.InvalidationUses` | xconfess-backend/src/auth/password-reset.service.ts:177-182 | an invalidation uses up the tokens of the user and no other |
| `PasswordReset.MarkingUses` | xconfess-backend/src/auth/password-reset.service.ts:158-162 | marking a token uses it up and leaves every other alone |
| `PasswordReset.LoneCreate` | xconfess-backend/src/auth/password-reset.service.ts:32-69 | alone, a creation uses up the tokens of the user and adds one that expires 900000 ms later |
| `PasswordReset.PasswordResetService.ConsumeValidToken` | xconfess-backend/src/auth/password-reset.service.ts:118-156 | a call is a run of the protocol that ends with its answer, alone with the one that the row asks for |
| `PasswordReset.PasswordResetService.CreateResetToken` | xconfess-backend/src/auth/password-reset.service.ts:32-69 | a call is a run of the protocol that ends with a live token of fifteen minutes |

## Left out

- Cryptography: encryption is left out (texts are in the clear, a save of content counts as a change), SHA-256 and JSON text are injective, and the redaction takes any digest of 64 hexadecimal characters.
- Idempotency: validation of the message before the key is checked, the lookup of the session, and an edit that would change a row's idempotency key.
- `IdempotencyService.ConfessionIdempotencyService.ExecuteCreate`: moderation, tags, anchoring and events inside the creation are one step that inserts the row or not and raises or not, because nothing in the protocol depends on them.
- `LockoutService.LockoutService.RecordFailedAttempt`: one atomic call at one moment of the clock; what calls do that overlap is in `LockoutProtocol`.
- `LockoutService.AuthService.Login`: the same.
- `LockoutService.AuthService.LoginsAreRateBound`: only for such calls.
- Lockout: calls that crash half-way; the strings in the cache are numbers; the controller that rejects a bad password before the service is reached is not modelled.
- Feed: joins, discoverability and reaction counts; a snapshot is the sequence of visible rows in query order; count orders over a changing table, where rows do move between pages, are not treated.
- Feed: comment listing, whose first page and later pages filter differently.
- `SyncWorker.ConfessionDraftService.UpdateDraft`: one atomic step, although the code reads, checks and saves without a lock, so two saves in that gap are not modelled; request validation and the headers of a queued write are left out too.
- Draft sync: queued writes that are not draft updates, answers with status 409 that do not come from `updateDraft`, messages to open windows, and failures of the browser's own stores.
- Draft publishing: requests of users are atomic and wait for locked rows, so their races with workers are not modelled; the result of the query for due ids is an input that meets the query's conditions, and the results hold for jobs of any ids, repeated at will.
- Cache: key patterns are prefixes without the glob characters `*`, `?`, `[` and `\`, which is what the code passes; a scan returns expired keys that are still stored.
- Cache: a moderation webhook changes and evicts as `updateModerationStatus` does, and is no event of its own.
- Cache: a Redis that cannot be reached, and requests that overlap; the rows that a query selects are an input that meets the query's conditions.
- Cache: view counts, reactions, anchoring fields, and schedule or cancellation status of cached items, which the code does not evict.
- `ConfessionCacheService.ConfessionService.PublishDueRows`: an update that fails for one row is not modelled, because the transaction fails with it.
- `RedactionStrings.MaskedEmailFacts`: lengths and cuts count Unicode scalars, where the code counts UTF-16 units and may split a surrogate pair.
- Redaction: holes in arrays, and properties of arrays other than their items.
- Scanner: white space, word boundaries and letters beyond ASCII; idempotence of the mask, which does not hold for a string broken by a backslash before a newline.
- Access control: rollback of a failed call's events by the host; proposals, votes and quorum, so whether a proposal is due is an input of `AccessControl.Contract.Execute`; the actions that pause and unpause.
- Password reset: the loaded user, IP address and user agent, and database errors; a random token is one that was never issued before.
- Event nonces, snapshot pages, checkpoints and reports of the contracts, analytics, Stellar calls, email and shutdown: easier parts, or input and output.
