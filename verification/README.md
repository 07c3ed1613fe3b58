# Verified model of the gateway's protocol and state code

The gateway holds OAuth grants for upstream MCP servers and multiplexes many
clients over them. This project models the parts of it that are hard to get right
and proves what they promise: for all inputs, all runs and all interleavings.

`dafny verify dfyconfig.toml` checks everything.

## What is modelled

| file | component |
|---|---|
| `InProcessLock.dfy` | the promise-chain lock of one process |
| `LeaseLock.dfy` | the renewed database lease between replicas |
| `LayeredLock.dfy` | both locks as one machine, a queue of every replica in front of the lease |
| `TokenRefresh.dfy` | the refresh protocol of one connection: lock, stored row with its compare-and-swap, rotating server, refreshing sections, code exchanges |
| `TokenChain.dfy` | what the compare-and-swap guarantees by itself, in any run |
| `RefreshSafety.dfy` | what lock and compare-and-swap guarantee together while leases do not lapse, and what every step outside that guarantee does |
| `RefreshRuns.dfy` | runs from the start in which a rotation is lost, one for each way |
| `RefreshWorker.dfy` | the code of one section, with its retry loop, as a run of that protocol |
| `SessionLog.dfy`, `DownstreamSession.dfy` | the replay log of a client session, and the session object |
| `EventStream.dfy` | the event-stream writer and the incremental reader |
| `SessionPool.dfy` | the pool of upstream sessions with its shared, cancellable attempts |
| `TomlText.dfy`, `TomlTables.dfy`, `CodexEdits.dfy`, `CodexConfig.dfy` | the line editor for Codex files: one line, tables and edits, their promises, the document object and the prune step |
| `JsonComments.dfy` | the JSON comment stripper |
| `JsonText.dfy`, `StableJson.dfy` | JSON string literals and the canonical text behind schema hashes |
| `Naming.dfy` | tool names, aliases, prompt names, resource URIs |
| `Pagination.dfy` | paging a list that changes |
| `RateLimit.dfy` | the token bucket, over exact reals |
| `CatalogueSync.dfy` | reconciling stored tools with a listing |
| `UndoStack.dfy` | backups, plans and rollbacks of the migration CLI |
| `Text.dfy`, `Wrappers.dfy` | decimal numerals, string order and searches; Option and Result |

Concurrent components are step machines: every `await` is a step boundary,
`Enabled` says when a step is possible, `Apply` what it does, `Run` where a list of
steps leads, and the objects' methods are proved equal to the steps. Timers, jitter,
lease renewals and the order of database answers are choices of the run. Time is a
parameter. Database statements are atomic operations on maps, the file system is a
map from paths to contents, streams are sequences with a closed flag. A hash, the
runtime's lower-casing, `basename` and the cursor encoding are parameters. Vault
encryption is the identity in the refresh protocol.

## Findings

Where a promise does not hold of all runs or inputs, the exact case is a lemma.

- A waiter that times out deletes its queue's map entry although the holder in front
  of it still runs; the next caller then overtakes or overlaps it
  (`InProcessLock.DropLetsNewcomerOvertake`, `TimeOutOverlaps`). Nothing else can
  (`DropMeansTimeOut`).
- A lapsed lease lets two sections run (`LeaseLock.LapseOverlaps`), and two
  refreshers that present one token revoke the grant
  (`RefreshRuns.TwoRefreshersReplay`).
- It is not enough that leases last while sections run. Rows carry one name per
  replica, so a section's late DELETE removes the row another section of the same
  replica has taken meanwhile, and a second replica gets in beside that one. A waiter
  that times out in the queue makes this happen (`LeaseLock.LateDeleteOverlaps`,
  `LayeredLock.TimedOutWaiterOverlaps`). Exclusion holds over all runs, time-outs
  included, while no lease lapses before its DELETE has landed
  (`LeaseLock.LeaseLockIsSafe`, `LayeredLock.LayeredLockIsSafe`). Leases that last while
  sections run are enough exactly as long as no such DELETE lands
  (`ExclusiveUnlessStolen`, `StealingStepOverlaps`), as in all runs without time-outs
  (`LayeredLock.WithoutTimeOutsRunningIsEnough`).
- Some steps lose a rotation (`RefreshSafety.Hazard`). They are exactly the harmful ones:
  a step is one if and only if it, followed by steps that are none and by no lapse, can
  lead to a revoked grant or to a stored refresh token that is not current although
  nothing is in flight (`HazardsAreExact`); one more step is always enough
  (`HazardDoesHarm`). They are
  - a database error behind an answer that retired the token: one that is retried
    (`RefreshRuns.StoreErrorReplays`, `WithheldTokenReplays`), and one on the last attempt
    while the row still holds the retired token (`LastStoreErrorStrands`). Errors behind
    answers that retired nothing do no harm;
  - storing a code exchange that brought no refresh token over a retired one, before the
    section with the answer has written (`ExchangeOvertakesAnswer`);
  - an answer that retires the token for a section whose row has moved on and still holds
    it, as it does behind such an exchange (`ExchangeOvertakesRequest`,
    `RetryBehindExchangeStrands`);
  - storing an answer by which the server withdrew the refresh token without issuing
    another (`WithheldTokenStrands`).
- Attaching a stream that is already closed marks undelivered messages as delivered
  without writing them (`SessionLog.SwallowedMessageIsLost`).
- The pool's drain loops delete by key an entry that may have been replaced since the
  copy was taken; that session stays open and unknown
  (`SessionPool.ReopenedDuringDrainIsLost`). A failing record does the same. A release
  between the token check and `entries.set` does not stop the session from going live
  (`ReleaseInWindowStillLives`). `OrphaningStepOrphans` and `StepAccounts` together
  say exactly which steps lose a client.
- Section 9.2.6 of the HTML standard (WHATWG) discards an event that is not closed by a
  blank line when the stream ends; the reader dispatches it
  (`EventStream.UnfinishedEventIsDispatched`). They agree exactly when no data line and no
  event line naming something else than `message` is still open at the end
  (`TrailingFieldsAreDispatched`).
- A Codex file with CRLF line endings lists no servers (`CodexEdits.CrlfFileListsNothing`).
  A server name is read back from the header written for it exactly when none of its
  characters is escaped and every `#` in it is followed by a U+2028 or U+2029
  (`TomlText.HeaderReadsBack`, `CodexEdits.SomeNamesAreLost`). A URL holding U+2028 or
  U+2029 is not read back.
- A resource URI of the scheme `opaque:` loses it on the way back
  (`Naming.ResourceUriReadsBack`).
- At page size 1 a list that holds the empty key and more cannot be paged: the cursor
  behind the empty key is empty and refused. A drain fails in no other case
  (`Pagination.DrainIsExact`, `EmptyKeyStopsDrain`). The gateway's own keys are never
  empty.

## Model

| member | source | states |
|---|---|---|
| InProcessLock.QueueIsSafe | packages/security/src/locks.ts:39-134 | over every run in which no waiter times out, at most one section per key is unfinished, one abandoned on lease expiry included, and sections start in arrival order |
| InProcessLock.StepKeepsInv | packages/security/src/locks.ts:44-62 | every step but a dropping clean-up keeps the chain: each call waits on the newest call of its key before it, and the map entry is missing only when nobody waits |
| InProcessLock.StartFindsKeyFree | packages/security/src/locks.ts:64-78 | when a section starts, every section of its key has finished and every earlier call has let go |
| InProcessLock.TurnComesInOrder | packages/security/src/locks.ts:64-78 | a waiting call may start exactly when every earlier call of its key has finished or timed out |
| InProcessLock.DropMeansTimeOut | packages/security/src/locks.ts:56-70 | only the clean-up of a timed-out waiter can delete an entry somebody is still behind |
| InProcessLock.WithoutTimeOutsNothingDrops | packages/security/src/locks.ts:56-70 | a run without time-outs never drops the queue |
| InProcessLock.DropLetsNewcomerOvertake | packages/security/src/locks.ts:56-70 | after such a drop a newcomer starts at once although an earlier call has not let go |
| InProcessLock.TimeOutOverlaps | packages/security/src/locks.ts:56-70 | two calls, a time-out of the second and a third call end in two running sections |
| InProcessLock.Lock.Queue | packages/security/src/locks.ts:44-54 | the stretch before the wait is the arrival step |
| InProcessLock.Lock.Microtask | packages/security/src/locks.ts:56-62 | the queued microtask is the clean-up step: it deletes the entry only if it is its own |
| LeaseLock.LeaseLockIsSafe | packages/storage/src/sql-store.ts:92-175 | in every run of any number of replicas, however many sections their in-process locks let in, with late renewals and late DELETEs, at most one section per key is between taking and giving up the row while no lease lapses before its DELETE has landed |
| LeaseLock.StepKeepsSound | packages/storage/src/sql-store.ts:103-148 | every step keeps that the section holding a row that is in time owns it until its deadline |
| LeaseLock.ExclusiveUnlessStolen | packages/storage/src/sql-store.ts:135-148 | in every run in which no DELETE removes the row of a running section of the same replica, sections whose leases have not lapsed while they ran exclude each other |
| LeaseLock.StealingStepOverlaps | packages/storage/src/sql-store.ts:170-175 | after any such DELETE another replica can get in beside the running section, neither lease having lapsed |
| LeaseLock.UncrowdedRunsAreExclusive | packages/storage/src/sql-store.ts:80-86 | with one unfinished section per replica and key, leases only have to last while sections run |
| LeaseLock.LateDeleteOverlaps | packages/storage/src/sql-store.ts:135-148 | a run from the start in which a late DELETE takes a newcomer's row and two replicas run, although no lease lapsed while its section ran |
| LeaseLock.StepKeepsInv | packages/storage/src/sql-store.ts:103-148 | every step but such a DELETE keeps that an unlapsed running section owns its row until its deadline |
| LeaseLock.LiveRowBelongsToItsOwner | packages/storage/src/sql-store.ts:150-175 | a row that has not expired is changed or removed only by steps of its owner |
| LeaseLock.LoserNeverTouchesTheRow | packages/storage/src/sql-store.ts:162-175 | once another replica has the row, no renewal or release of the loser, however late, extends or deletes it |
| LeaseLock.LapseOverlaps | packages/storage/src/sql-store.ts:150-159 | a lease that runs out, by however much, lets a second replica run beside the first |
| LeaseLock.FreeRowIsTaken | packages/storage/src/sql-store.ts:150-159 | from any state, after any time: a section that asks runs exactly if the row is missing or its lease is over by then, and else waits on with the row as it was |
| LeaseLock.RenewalExtends | packages/storage/src/sql-store.ts:162-168 | a renewal landing on the section's own row moves its expiry and the deadline to the time it was asked plus the lease |
| LeaseLock.FlagsMeanOverdue | packages/storage/src/sql-store.ts:125-148 | a section counts as lapsed or late exactly when the clock reached its deadline while it ran, or while its DELETE was on its way |
| LayeredLock.LayeredLockIsSafe | packages/storage/src/sql-store.ts:92-148 | over every run of all replicas' queues and the lease together, waiters timing out included, one holder per key while every DELETE lands before its lease lapses |
| LayeredLock.WithoutTimeOutsRunningIsEnough | packages/storage/src/sql-store.ts:114-147 | over every run in which no waiter times out, leases only have to last while sections run |
| LayeredLock.TimedOutWaiterOverlaps | packages/storage/src/sql-store.ts:114-147 | a run from the start in which one waiter times out and two replicas' sections run at once, no lease having lapsed while its section ran |
| LeaseLock.LeaseTable.TryAcquire | packages/storage/src/sql-store.ts:150-159 | takes the row exactly when it is missing or expired, and says whether it did |
| LeaseLock.LeaseTable.Renew | packages/storage/src/sql-store.ts:162-168 | moves the expiry of the owner's row only; false when the row is gone or another's |
| LeaseLock.LeaseTable.Release | packages/storage/src/sql-store.ts:170-175 | deletes the owner's row only |
| TokenRefresh.ConnectionTable.UpdateTokens | packages/storage/src/sql-store.ts:358-380 | writes only over the expected version, moving it by one, and reports whether it did |
| TokenRefresh.ConnectionTable.PersistTokens | packages/oauth/src/token-manager.ts:694-723 | stores access token, expiry, status and the sent or else the read refresh token exactly when nobody stored since the read |
| TokenChain.WritesFormOneChain | packages/oauth/src/token-manager.ts:585-594 | over every run, even with lapsed leases and failing databases, each stored token set was computed from the one stored before it and the row holds the last |
| TokenChain.VersionHasOneSuccessor | packages/storage/src/sql-store.ts:358-380 | each token version has at most one successful successor, computed from the row as read at that version |
| TokenChain.LoserReturnsStoredToken | packages/oauth/src/token-manager.ts:586-593 | a refresher that loses the race returns the access token now stored, written after the row it had read |
| TokenChain.StepKeepsInv | packages/oauth/src/token-manager.ts:184-312 | every step of refreshes and code exchanges keeps the chain and the rows still held by workers |
| RefreshSafety.RefreshIsSafe | packages/oauth/src/token-manager.ts:357-394 | over every run in which no lease lapses before its DELETE lands and no hazardous step happens, waiters timing out included, no grant is revoked, every refresh presents a current token, and with none in flight the stored token is current (section 4.14.2 of RFC 9700) |
| RefreshSafety.StepKeepsSafe | packages/oauth/src/token-manager.ts:554-608 | each step that is not a hazard keeps the invariant behind it |
| RefreshSafety.HazardsAreExact | packages/oauth/src/token-manager.ts:554-608 | from every safe state a step is hazardous if and only if it can lead, without a further hazard and without a lapse, to a revoked grant or to a stored token that is not current with nothing in flight |
| RefreshSafety.HazardDoesHarm | packages/oauth/src/token-manager.ts:554-608 | behind each hazardous step at most one more, itself no hazard, does that harm |
| RefreshSafety.RefreshAnswers | conformance/harness/src/mock-authorization-server.ts:523-589 | presenting the current token revokes nothing; afterwards the current token is the one sent, or the presented one where it was kept, and none where it was withdrawn |
| RefreshSafety.RetiredTokenRevokes | conformance/harness/src/mock-authorization-server.ts:540-548 | presenting a retired token gets no answer and leaves its grant revoked |
| RefreshSafety.ExchangeAnswers | conformance/harness/src/mock-authorization-server.ts:483-521 | a code exchange opens a grant whose refresh token, if any, is current and was never issued before |
| RefreshSafety.FailedStoreReplays | packages/oauth/src/token-manager.ts:595-606 | a database error behind an answer that retired the token, while an attempt is left: the next request of the loop, without a further hazard, revokes the grant |
| RefreshSafety.LateRotationStrands | packages/oauth/src/token-manager.ts:585-594 | an answer retires the token for a section whose row moved on and still holds it: its write, without a further hazard, leaves the retired token stored with nothing in flight |
| RefreshSafety.FailedStoreStrands | packages/oauth/src/token-manager.ts:595-606 | on the last attempt, with the retired token still in the row, the error itself leaves it stored with nothing in flight |
| RefreshSafety.StoredWithdrawalStrands | packages/oauth/src/token-manager.ts:694-723 | storing an answer that withdrew the refresh token itself leaves the withdrawn one stored with nothing in flight |
| RefreshSafety.RefreshlessExchangeStrands | packages/oauth/src/token-manager.ts:300-302 | a refreshless exchange stored over a retired token before the section with the answer writes: that write, without a further hazard, leaves the retired one stored with nothing in flight |
| RefreshRuns.StoreErrorReplays | packages/oauth/src/token-manager.ts:595-606 | a run from the start: exchange, refresh, rotated answer, database error, revoking retry |
| RefreshRuns.LastStoreErrorStrands | packages/oauth/src/token-manager.ts:595-606 | a run from the start, for every number of retries, in which the last attempt's database error strands the retired token |
| RefreshRuns.RetryBehindExchangeStrands | packages/oauth/src/token-manager.ts:595-606 | a run from the start in which a retry behind a refreshless exchange rotates the stored token for nothing |
| RefreshRuns.ExchangeOvertakesRequest | packages/oauth/src/token-manager.ts:300-302 | a run from the start in which a refreshless exchange is stored while the rotating request is on its way |
| RefreshRuns.ExchangeOvertakesAnswer | packages/oauth/src/token-manager.ts:300-302 | ... and one in which it is stored between answer and write |
| RefreshRuns.WithheldTokenStrands | packages/oauth/src/token-manager.ts:694-723 | a run from the start in which the withdrawn refresh token stays stored |
| RefreshRuns.WithheldTokenReplays | packages/oauth/src/token-manager.ts:595-606 | a run from the start in which a retry presents the withdrawn token and the grant is revoked |
| RefreshRuns.TwoRefreshersReplay | packages/oauth/src/token-manager.ts:554-594 | a run from the start in which a lease lapses and two sections present one token, which revokes the grant |
| RefreshWorker.World.RefreshLocked | packages/oauth/src/token-manager.ts:554-608 | the retry loop, with any steps of others at each await, is a run of the protocol; it ends after at most maxRetries + 1 requests, each presenting the refresh token of the row it entered with, with the result the protocol gives it |
| RefreshWorker.World.Request | packages/oauth/src/token-manager.ts:574-606 | one turn presents the entered row's token once, and settles the section or leaves it refreshing with the same row and one attempt more; the last transient failure degrades a connected connection |
| RefreshWorker.World.EnterSection | packages/oauth/src/token-manager.ts:384-391 | a token is returned exactly when the row is neither barred nor without an access token and the token outlives the headroom; else a row that is not barred and holds a refresh token is refreshed, and nothing else changes |
| SessionLog.HistoryIsTheNewestWindow | packages/mcp-server/src/session.ts:180-197 | in every run the history is exactly the last messages, 256 at most, under consecutive ids |
| SessionLog.ResumeReplaysTheRest | packages/mcp-server/src/session.ts:118-128 | attaching an open stream with id k inside the window writes exactly k + 1 up to the newest id, in order |
| SessionLog.StreamsReadInOrder | packages/mcp-server/src/session.ts:118-128 | ids on any one stream strictly increase, over runs in which every attached stream is a new one |
| SessionLog.MarksStayTrue | packages/mcp-server/src/session.ts:118-128 | in every run, resumptions included, a message still marked undelivered has been written to no stream |
| SessionLog.NoMessageTwice | packages/mcp-server/src/session.ts:180-197 | with no client resuming by id, every message is written to at most one stream, once |
| SessionLog.NoMessageLost | packages/mcp-server/src/session.ts:180-197 | every message sent was written, or is retained undelivered, or was pushed out by 256 newer ones, as long as no closed stream is attached over undelivered messages |
| SessionLog.SwallowedMessageIsLost | packages/mcp-server/src/session.ts:124-127 | after any run, attaching a closed stream over an undelivered message it would replay loses it |
| DownstreamSession.Session.AttachStream | packages/mcp-server/src/session.ts:118-128 | an open stream gets, in order, one message per entry behind the given id, or per undelivered one without an id, each with its id and text; exactly those count as delivered |
| DownstreamSession.NewestOpenIsLastOpen | packages/mcp-server/src/session.ts:152-172 | the stream picked is the last one of its list that is open, and there is none exactly when all are closed |
| DownstreamSession.Session.Deliver | packages/mcp-server/src/session.ts:180-197 | one stream at most gets the message: the preferred one while open, else the newest open one; all others are untouched |
| DownstreamSession.Session.SendRequest | packages/mcp-server/src/session.ts:199-232 | refused exactly when nothing is open, and then nothing is written; else the request goes, under a new pending id, to the newest open request stream or else standalone stream and to no other |
| DownstreamSession.Session.SendNotification | packages/mcp-server/src/session.ts:148-150 | the newest open standalone stream gets the message and no other does |
| DownstreamSession.Session.Settle | packages/mcp-server/src/session.ts:256-271 | an answer or time-out settles a pending request once; a second one is not handled |
| DownstreamSession.Session.Close | packages/mcp-server/src/session.ts:273-286 | closes every stream and rejects exactly the requests still pending |
| DownstreamSession.Session.EndRequestStream | packages/mcp-server/src/session.ts:139-142 | takes out the last registration of the stream and no other |
| EventStream.ReadAll | packages/mcp-client/src/sse.ts:14-72 | the generator fails exactly when a chunk does not fit the limit, having yielded the events the chunks before the first such one complete; else it yields the one-shot reading of the concatenated stream, however it was cut |
| EventStream.TrailingFieldsAreDispatched | packages/mcp-client/src/sse.ts:70-71 | at the end of a stream the reader agrees with the standard, which discards unclosed events, exactly when no data line and no other-named event line is open |
| EventStream.UnfinishedEventIsDispatched | packages/mcp-client/src/sse.ts:70-71 | one data line with no blank line behind it is dispatched |
| EventStream.SseReader.Feed | packages/mcp-client/src/sse.ts:33-69 | a chunk yields the events its complete lines finish, and the rest stays buffered |
| EventStream.LinesInParts | packages/mcp-client/src/sse.ts:38-42 | cutting a text anywhere does not change its lines |
| EventStream.LinesMakeUpText | packages/mcp-client/src/sse.ts:38-42 | the lines, each with its line feed, and the rest make up the text |
| EventStream.FieldLine | packages/mcp-client/src/sse.ts:49-68 | a line sets the field before its first colon to what stands behind it, less one blank; a comment and an unknown field set nothing |
| EventStream.ReturnIsDropped | packages/mcp-client/src/sse.ts:39-39 | one carriage return at the end of a line is not part of it |
| EventStream.JoinAppends | packages/mcp-client/src/sse.ts:27-27 | data lines are joined by one line feed each |
| EventStream.DataLinesJoin | packages/mcp-client/src/sse.ts:39-58 | two data lines ending in CRLF are one event of two lines |
| EventStream.WrittenMessagesAreRead | packages/mcp-server/src/http.ts:83-92 | reading what the writer wrote gives exactly its messages, ids and payloads in order, for payloads without raw line breaks |
| EventStream.EventsIdentifyMessages | packages/mcp-server/src/http.ts:83-87 | different messages are read as different events |
| EventStream.EventStreamWriter.Write | packages/mcp-server/src/http.ts:83-87 | an open writer sends the id line if there is an id, the event line, the data line and a blank line; a closed one nothing |
| SessionPool.PoolIsAccountedFor | packages/federation/src/upstream-sessions.ts:99-281 | over every interleaving with undisturbed recording, every client built is in exactly one of connecting, live or closed, each key has at most one client in use, and cancelled attempts end closed and never live |
| SessionPool.StepKeepsBooks | packages/federation/src/upstream-sessions.ts:121-196 | every step keeps tokens, attempts, clients, entries and drains consistent |
| SessionPool.StepAccounts | packages/federation/src/upstream-sessions.ts:173-196 | every step that is not one of the three orphaning ones keeps all clients accounted for |
| SessionPool.OrphaningStepOrphans | packages/federation/src/upstream-sessions.ts:236-260 | each of those three steps does lose a client: open, and known to nobody |
| SessionPool.CancelledNeverLives | packages/federation/src/upstream-sessions.ts:183-207 | an attempt cancelled while connecting never becomes live, and its client is closed once the token was checked |
| SessionPool.ReopenedDuringDrainIsLost | packages/federation/src/upstream-sessions.ts:241-245 | a session reopened under a key a waiting drain has still to visit is dropped open |
| SessionPool.ReleaseInWindowStillLives | packages/federation/src/upstream-sessions.ts:186-194 | a release while the record is written does not stop the session from going live |
| SessionPool.UpstreamSessionManager.AcquireSession | packages/federation/src/upstream-sessions.ts:99-119 | the live client, with its last use moved to now, the attempt under way, or a new attempt, and nothing else changed |
| SessionPool.UpstreamSessionManager.Initialized | packages/federation/src/upstream-sessions.ts:186-191 | keeps the session only if its token is still the current one |
| SessionPool.UpstreamSessionManager.ReleaseSession | packages/federation/src/upstream-sessions.ts:227-234 | drops the key's token and entry, starts closing its client, and leaves all others alone |
| SessionPool.UpstreamSessionManager.BeginDrain | packages/federation/src/upstream-sessions.ts:236-243 | cancels exactly the attempts of the downstream session, of the connection, or all, none for a sweep, and copies exactly the entries of that scope |
| SessionPool.DrainClosesItsScope | packages/federation/src/upstream-sessions.ts:236-270 | over every run: a drain that has ended has closed all sessions of its downstream session, of its connection, or all, that were live when it began |
| SessionPool.UpstreamSessionManager.VisitNext | packages/federation/src/upstream-sessions.ts:274-279 | one turn of a drain: a sweep passes over a session used within the window, else the entry is deleted by key and its client closed |
| TomlText.ParseTableHeader | apps/migration-cli/src/config-file.ts:291-320 | the index loop computes the segments of the bracketed text, or none for anything else |
| TomlText.ParseTomlString | apps/migration-cli/src/config-file.ts:322-344 | the quote-scanning loop computes the literal's value |
| TomlText.HeaderReadsBack | apps/migration-cli/src/config-file.ts:290-320 | the header written for a name parses as that name's server table exactly when the name needs no escapes and every `#` in it is followed by a line terminator |
| TomlText.TomlValueReadsBack | apps/migration-cli/src/config-file.ts:346-348 | a written string parses back as itself, for every string |
| TomlText.LiteralValue | apps/migration-cli/src/config-file.ts:322-328 | a string between single quotes is taken as it stands |
| TomlText.AssignedWhereMatched | apps/migration-cli/src/config-file.ts:272-281 | a line assigns a key exactly if it is white space, the key, white space and an equals sign, followed by anything |
| TomlText.HeaderOpens | apps/migration-cli/src/config-file.ts:241-242 | a header is a line whose first character other than white space is an opening bracket |
| CodexEdits.AssignmentReadsBack | apps/migration-cli/src/config-file.ts:272-281 | a written assignment is captured by the reading pattern exactly when its value holds no U+2028 or U+2029 |
| CodexEdits.UpsertPuts | apps/migration-cli/src/config-file.ts:192-210 | an upsert puts the gateway's table where the first table of its name was, or last, and every other table reads as before |
| CodexEdits.UpsertListsGatewayOnce | apps/migration-cli/src/config-file.ts:171-210 | afterwards `servers()` lists the gateway exactly once with its URL; all other servers are listed as before, in order |
| CodexEdits.UpsertIsIdempotent | apps/migration-cli/src/config-file.ts:192-237 | a second identical upsert leaves the file as it is |
| CodexEdits.FlagTouchesOneLine | apps/migration-cli/src/config-file.ts:227-237 | setting the flag replaces the first line above all headers that assigns it, or else puts it and a blank line in front of the first header; every other line stays |
| CodexEdits.UpsertTouchesOnlyItsTable | apps/migration-cli/src/config-file.ts:192-210 | behind that, an upsert replaces exactly the lines of the first table of the name with the block, given line by line, or appends it; every other line stays |
| CodexEdits.RemovalTouchesOnlyItsTable | apps/migration-cli/src/config-file.ts:212-217 | a removal takes out exactly the lines of the first table of the name, and blank lines left at the end |
| CodexEdits.BearerReadsBack | apps/migration-cli/src/config-file.ts:197-201 | the variable's name is written when there is one, else the key itself, and the other key is not readable from the table |
| CodexEdits.RemoveTakesFirst | apps/migration-cli/src/config-file.ts:212-217 | a removal takes out the first table of the name and changes no other reading |
| CodexEdits.RemoveAllTakesNamed | apps/migration-cli/src/config-file.ts:212-217 | with names that each head one table, several removals take out exactly the named tables |
| CodexEdits.ServersAreListed | apps/migration-cli/src/config-file.ts:171-190 | a table with a URL is listed as remote, one without that names a command as local, and nothing else is |
| CodexEdits.FlaggedKeepsTables | apps/migration-cli/src/config-file.ts:227-237 | setting the RMCP flag changes no table |
| CodexEdits.CrlfFileListsNothing | apps/migration-cli/src/config-file.ts:272-281 | a file whose lines keep a carriage return lists no server |
| CodexEdits.NameReadsBack | apps/migration-cli/src/config-file.ts:239-270 | exactly under that condition the table written for a name is found under it |
| CodexEdits.SomeNamesAreLost | apps/migration-cli/src/config-file.ts:291-309 | three names that are lost, with `#`, a quote and a backslash, and one with `#` that is not |
| CodexConfig.CodexConfigDocument.CollectTables | apps/migration-cli/src/config-file.ts:239-270 | the two loops find every server table and its range of lines |
| CodexConfig.CodexConfigDocument.Servers | apps/migration-cli/src/config-file.ts:171-190 | lists the tables with a URL, and those with only a command, in file order |
| CodexConfig.CodexConfigDocument.ReadString | apps/migration-cli/src/config-file.ts:272-281 | the loop over a table's range reads what the lines below the header say up to the next header |
| CodexConfig.CodexConfigDocument.UpsertGateway | apps/migration-cli/src/config-file.ts:192-210 | the spliced lines are the specified edit |
| CodexConfig.CodexConfigDocument.RemoveServer | apps/migration-cli/src/config-file.ts:212-217 | the spliced and popped lines are the specified removal |
| CodexConfig.UneditedFileIsKept | apps/migration-cli/src/config-file.ts:164-169 | reading and writing an unedited file changes nothing but a missing last newline |
| CodexConfig.UpsertSurvivesSaving | apps/migration-cli/src/config-file.ts:219-221 | the file an upsert writes reads back as the edited document |
| CodexConfig.Prune | apps/migration-cli/src/plan.ts:151-186 | for one document: no contents when nothing is removable, else exactly the servers taken over are gone |
| CodexConfig.PruneRemovesTakenOver | apps/migration-cli/src/plan.ts:162-174 | what remains are, in order, the tables that are not remote servers with a migrated URL, and the gateway's own |
| JsonComments.StripJsonComments | apps/migration-cli/src/config-file.ts:359-396 | the character loop computes the specified text |
| JsonComments.StripRemovesExactlyComments | apps/migration-cli/src/config-file.ts:359-396 | lexing the output gives the input's tokens without the comments: literals come through character for character and no comment opener is left outside one |
| JsonComments.LineCommentGoes | apps/migration-cli/src/config-file.ts:377-380 | two slashes and the rest of the line go |
| JsonComments.BlockCommentGoes | apps/migration-cli/src/config-file.ts:381-388 | a block comment goes up to its first end |
| JsonComments.LiteralStays | apps/migration-cli/src/config-file.ts:365-376 | a JSON string literal stays whole, whatever it says |
| JsonComments.CharacterStays | apps/migration-cli/src/config-file.ts:389-392 | any other character is printed |
| JsonComments.StripIsIdempotent | apps/migration-cli/src/config-file.ts:359-396 | stripping twice is stripping once |
| JsonText.QuoteReadsBack | packages/core/src/json.ts:38-38 | the literal of a string parses back as that string |
| JsonText.QuoteUnique | packages/core/src/json.ts:45-45 | a literal ends where it ends whatever follows it |
| JsonText.EscapesSpelledOut | packages/core/src/json.ts:38-38 | the escape of each character |
| StableJson.StableStringifyIsCanonical | packages/core/src/json.ts:37-47 | two values print alike if and only if they are equal up to property order at every depth |
| StableJson.TextIsJson | packages/core/src/json.ts:37-47 | arrays are printed in order and objects by their properties in key order, undefined ones left out, comma by comma |
| StableJson.TextIsUnambiguous | packages/core/src/json.ts:37-47 | a value's text, whatever follows it, determines the value and where it ends |
| StableJson.SortingIsUnique | packages/core/src/json.ts:42-44 | one set of distinct keys has one sorted list |
| Naming.GatewayToolName | packages/federation/src/naming.ts:65-82 | the search ends, after at most one attempt per taken name and two more, with a free name of at most 128 characters under the alias, and with the first that was free |
| Naming.ToolNamesSpelledOut | packages/federation/src/naming.ts:59-82 | an accepted tool name is kept behind the alias where there is room, and so are the suffixes tried |
| Naming.ToolNameKeeps | packages/federation/src/naming.ts:60-63 | of any tool name the accepted characters are kept in order |
| Naming.AttemptsRunOut | packages/federation/src/naming.ts:77-81 | fewer than n names cannot take the candidates of n attempts |
| Naming.AssignToolNames | packages/federation/src/connection-service.ts:444-452 | one distinct, fitting name under the alias for every tool |
| Naming.ToolNamesAreDistinct | packages/federation/src/connection-service.ts:444-452 | across all connections with distinct aliases, equal names belong to one tool |
| Naming.SanitizeAlias | packages/federation/src/naming.ts:27-37 | whatever the text, the result is a valid alias |
| Naming.AliasPattern | packages/federation/src/naming.ts:5-5 | what a valid alias is, character by character |
| Naming.SanitizedAliasKeeps | packages/federation/src/naming.ts:27-37 | a valid alias is kept; of any other text the letters and digits are, in order and all of them up to 40 characters; a text without any gives `server` |
| Naming.CandidatesSpelledOut | packages/federation/src/naming.ts:43-57 | the numbered aliases and the one with a digest, where there is room |
| Naming.DedupeAlias | packages/federation/src/naming.ts:49-57 | a valid base gives a valid alias, the base itself when free; it is taken exactly when base, all 998 candidates and the fallback are, so never while at most 998 aliases are |
| Naming.ChooseAlias | packages/federation/src/connection-service.ts:163-175 | the alias of a new connection is always valid, and free while at most 998 are taken |
| Naming.PromptNameReadsBack | packages/federation/src/naming.ts:84-97 | splitting undoes joining exactly for aliases that are not empty and hold no slash |
| Naming.ResourceUriReadsBack | packages/federation/src/naming.ts:103-107 | a URI comes back exactly when it does not begin with `opaque:` |
| Pagination.DrainIsExact | packages/federation/src/pagination.ts:23-43 | draining a changing list never repeats a key, and when it ends every key present throughout was delivered exactly once; it fails exactly when the page size is 1, the first list held the empty key and another, and a second page was asked for |
| Pagination.DrainOfUnchangingList | packages/federation/src/pagination.ts:23-43 | the pages of an unchanging list concatenate to the sorted list and the drain ends, except at page size 1 with the empty key before another, where it gets stuck behind that item |
| Pagination.PageCovers | packages/federation/src/pagination.ts:29-42 | a page holds exactly the keys above the cursor up to its own last one, or to the end |
| Pagination.PageIsFull | packages/federation/src/pagination.ts:36-42 | every page but the last has exactly the page size |
| Pagination.SortIncreases | packages/federation/src/pagination.ts:30-32 | sorting puts unique keys in strictly increasing order and loses none |
| Pagination.IssuedCursorIsAccepted | packages/federation/src/pagination.ts:45-61 | an issued cursor is taken back as its key, unless the key is empty |
| Pagination.OnlyIssuedCursorsAreAccepted | packages/federation/src/pagination.ts:49-61 | a text is accepted exactly when it encodes some key that is not empty; no cursor at all is the start |
| Pagination.EmptyKeyStopsDrain | packages/federation/src/pagination.ts:49-53 | two items, one with the empty key, at page size 1: the second request is refused |
| RateLimit.WindowIsBounded | packages/security/src/rate-limit.ts:48-75 | in any stretch spanning at most T a key is allowed at most capacity + limit * T / interval checks, sweeps or not |
| RateLimit.TokensAreConserved | packages/security/src/rate-limit.ts:52-70 | what was allowed and what is left was there before or has flowed in since |
| RateLimit.WaitingIsEnough | packages/security/src/rate-limit.ts:57-66 | a refused caller that waits as told, with its key unchecked meanwhile, is allowed exactly when the capacity is at least 1 |
| RateLimit.WaitIsShortest | packages/security/src/rate-limit.ts:57-66 | a wait of more than a second is the shortest in whole seconds that suffices |
| RateLimit.SweepingDecidesAlike | packages/security/src/rate-limit.ts:88-98 | a limiter that sweeps at any times decides every check as one that never does |
| RateLimit.RateLimiter.Check | packages/security/src/rate-limit.ts:48-75 | allows exactly from a level of one token on, takes one, reports the whole tokens left, and touches no other key; a rule without a limit allows everything |
| RateLimit.LevelIsCapped | packages/security/src/rate-limit.ts:53-55 | the level is what was left plus what has flowed in, at most the burst, or the limit without one |
| RateLimit.NewKeyIsFull | packages/security/src/rate-limit.ts:52-52 | a new key may use the whole burst |
| RateLimit.RateLimiter.Sweep | packages/security/src/rate-limit.ts:88-98 | deletes exactly the refilled buckets and counts them |
| RateLimit.SweepTakesFullBuckets | packages/security/src/rate-limit.ts:88-98 | exactly the buckets that hold the whole burst again are swept |
| CatalogueSync.ToolTable.SyncTools | packages/storage/src/sql-store.ts:520-564 | fails exactly when a name is listed twice; else the table is reconciled and the report lists each kind in order |
| CatalogueSync.RowsAreTheListedTools | packages/storage/src/sql-store.ts:530-562 | the connection's rows have exactly the listed names, one row each, all seen now |
| CatalogueSync.SurvivorsKeepTheirSwitch | packages/storage/src/sql-store.ts:537-556 | surviving rows keep id, enabled flag and first sighting; other connections' rows are untouched |
| CatalogueSync.StoredToolIsUpdated | packages/storage/src/sql-store.ts:537-556 | a stored tool keeps its columns if hash and name agree, else takes all of them from the listing but id and switch, and is reported so |
| CatalogueSync.NewToolIsInserted | packages/storage/src/sql-store.ts:530-536 | a tool without a row is inserted as listed, first and last seen now |
| CatalogueSync.RowSaysListing | packages/storage/src/sql-store.ts:530-556 | every row of the connection carries the hash and gateway name listed under its name; a new row carries every column |
| CatalogueSync.NameTools | packages/federation/src/connection-service.ts:443-475 | the tools stored are the kept entries in order, every column copied, under new ids and names below the alias |
| CatalogueSync.ReportSharesOutTheList | packages/storage/src/sql-store.ts:528-557 | added, changed and unchanged together are the listed names, each in one of them |
| CatalogueSync.RepeatedSyncChangesNothing | packages/storage/src/sql-store.ts:520-564 | the same listing again is reported unchanged throughout, nothing removed |
| CatalogueSync.FirstOfEach | packages/federation/src/connection-service.ts:602-625 | the loop keeps the specified entries |
| CatalogueSync.FirstsAreDistinct | packages/federation/src/connection-service.ts:608-624 | one entry of every identity is kept |
| CatalogueSync.FirstsAreFirst | packages/federation/src/connection-service.ts:608-624 | it is the first that was listed |
| CatalogueSync.SyncCatalogue | packages/federation/src/connection-service.ts:443-475 | whatever is listed, the store accepts it, and the connection has one row per listed name, saying the hash listed first under it and named below the alias; other connections stay |
| UndoStack.RollbacksRetraceThePlans | apps/migration-cli/src/backup.ts:112-139 | after n plans, each rollback undoes exactly the latest remaining one: k rollbacks give the disk after n - k plans |
| UndoStack.RollbacksReturnToStart | apps/migration-cli/src/backup.ts:112-139 | n rollbacks restore all files, deleting those that did not exist, and the backups there were |
| UndoStack.RollbackUndoesLatest | apps/migration-cli/src/backup.ts:112-139 | a rollback straight after a plan restores files and stack |
| UndoStack.RestoringUndoesThePlan | apps/migration-cli/src/plan.ts:189-195 | putting back what capture recorded undoes the plan |
| UndoStack.LastChangeIsWritten | apps/migration-cli/src/plan.ts:189-195 | applying a plan leaves a file with what the last change for it writes |
| UndoStack.OtherFilesAreKept | apps/migration-cli/src/plan.ts:189-195 | and a file no change is for as it was |
| UndoStack.CopyNamesDiffer | apps/migration-cli/src/backup.ts:55-55 | copies of different entries never share a file name |
| UndoStack.BackupSet.Capture | apps/migration-cli/src/backup.ts:46-58 | records a file's contents or absence once, overwriting no earlier copy |
| UndoStack.BackupSet.Commit | apps/migration-cli/src/backup.ts:65-82 | a set that captured nothing leaves no directory, any other gets its manifest |
| UndoStack.Machine.Rollback | apps/migration-cli/src/backup.ts:112-139 | restores and drops the backup with the greatest id, or does nothing when there is none |
| UndoStack.Machine.Run | apps/migration-cli/src/commands.ts:233-235 | capture, write and commit is one plan of the model |
| Text.DecimalInjective | packages/federation/src/naming.ts:78-78 | different numbers have different numerals |
| Text.DecimalDenotes | packages/federation/src/naming.ts:78-78 | a numeral denotes its number in base ten, without leading zeros |
| Text.LessAtFirstDifference | apps/migration-cli/src/backup.ts:92-92 | the smaller of two strings is the one with the smaller code unit where they first differ, or the proper prefix |

## Left out

- RefreshSafety.RefreshIsSafe: one connection; token writes that bypass `updateTokens` (revocation, a changed issuer, key rewrap), lost responses and crashes between rotation and storing are outside its runs, and a failed token response has rotated nothing. Whether the server rotates and whether it issues refresh tokens may differ from answer to answer.
- RefreshWorker.World.RefreshLocked: the circuit breaker's state, the failure classes other than transient and final, metrics and logging are not modelled; a token answered outside the lock (the first check of `getValidAccessToken`) is a plain read of the row.
- InProcessLock.QueueIsSafe: excludes runs in which a waiter times out, which do break it (see Findings).
- LeaseLock.LeaseLockIsSafe: says nothing once a lease has lapsed before its DELETE landed; the abort signal is recorded but what the work does on it is up to the caller, and a DELETE that fails is one that never lands. All replicas share one clock; skew between their clocks is not modelled.
- LayeredLock.LayeredLockIsSafe: the deadline of the wait for the row is a choice of the run, as are the in-process lease and wait times.
- SessionPool.PoolIsAccountedFor: token check, record and `entries.set` count as one undisturbed step with a successful record, and no drain meets a replaced entry; the exact steps that break it are stated separately.
- SessionPool.Key: keys are pairs; matching a scope by the text before or after `::` agrees with it as long as connection ids hold no `::`.
- SessionLog.NoMessageTwice: excludes clients that resume by id, which may read a message again by design.
- DownstreamSession.Session.Settle: the payload of an answer is not modelled, nor are `inFlight` and `cancelRequest`.
- EventStream.WrittenMessagesAreRead: text is a sequence of characters; a chunk cut inside a UTF-8 character, which the reader decodes chunk by chunk, is not modelled.
- JsonText.QuoteReadsBack: characters are Unicode scalar values, so lone surrogates and `\u` escapes of surrogate pairs do not occur; lengths count characters, not UTF-16 units.
- StableJson.StableStringifyIsCanonical: numbers are compared by their JSON text; the order of strings is by scalar value.
- CodexEdits.UpsertPuts: for names and URLs that are read back from what is written for them (exactly those of `NameReadsBack` and `AssignmentReadsBack`); for others the table is not found again.
- EventStream.TrailingFieldsAreDispatched: compares the end of a stream only. Other differences from the HTML standard (an event without data is dispatched, ids are not kept across events, a lone carriage return ends no line) are not stated.
- Pagination.IssuedCursorIsAccepted: the encoding loses nothing, which base64url of UTF-8 does for keys without lone surrogates.
- Naming.GatewayToolName: for fewer than 2^53 taken names, which is more than a set can hold.
- Naming.ChooseAlias: taking the host label out of a URL rests on the platform's URL parser; the label is a parameter.
- RateLimit.WindowIsBounded: over exact reals; rounding of floating-point numbers is not modelled.
- CatalogueSync.ToolTable.SyncTools: columns that are only copied are one field, and the sync is not interleaved with others on the same connection.
- UndoStack.Machine.Run: I/O errors are not modelled (an unreadable file counts as missing in the code), and a backup's directory is new.
- JSON-format client configurations, the resource and prompt halves of a catalogue sync, and result rewriting (`namespaceResultResources`).
- HTTP, sockets, SQL text, cryptography, registration and discovery, policy, tool classification, configuration, metrics, logging, management pages and command-line rendering.
