# Alice-EVE: a verified model

Alice-EVE is a desktop companion for EVE Online with a relay server. These Dafny modules
model the parts of it that carry state machines, searches and transactions, and prove what
they are relied upon for.

| modules | what they model |
|---|---|
| `RouteGraph`, `RouteSearch` | the star-gate route search over an imported map |
| `SessionStore`, `SessionProtocol`, `SessionSafety`, `SessionAnswers`, `RefreshClient`, `RefreshSafety` | refresh-token families (rotation as in section 10.4 of RFC 6749): the store, the interleaved service operations, and the desktop client that serialises its refreshes |
| `LogRecords`, `LogIngestion` | the log tailer with its durable cursor, from newline detection to exactly-once storage |
| `Fencing` | lease tokens, shared by the outbox and the plan jobs |
| `Decimal`, `Outbox`, `OutboxDispatcher` | the transactional outbox and its dispatching workers |
| `PlanJobs`, `PlanResults`, `PlanAnswers`, `PlanWorker`, `PlanWorkspace` | leased market-plan jobs, the revisions of their results, and the client that polls for them |
| `MarketBatch`, `MarketSnapshots`, `MarketTables`, `MarketCollector` | market batches, their atomic publication, and the collector's worker pool |
| `Conversations`, `ConversationService`, `SendProtocol`, `WindowLimiter` | the message store, paging, sending and overlapping sends, and both sliding-window limiters |
| `LikeEscape`, `MarketGroupOrder`, `SdeImport` | text search by LIKE, and the order in which static data is imported |
| `RouteCache` | the batched, cached route lookup of the client |
| `Wrappers` | Option, Result, and the next key of a range over a Go map |

Code that changes things step by step is modelled by classes and methods; each is proved
equal to a function on values, about which the theorems are stated. Protocols are state
machines whose steps are single SQL statements, transactions or repository calls; a theorem
about a run quantifies over every sequence of steps, so over every interleaving and every
crash. A step that is not enabled does nothing.

## Where the code falls short of its intent

* A pass of the tailer shares one byte budget among its logs. A log whose last line is
  unfinished can use up so much of it that the next log never gets a whole record, although
  every record fits the budget (`LogIngestion.PassDelivers`, `FittingRecordsMayStarve`).
  A record longer than the budget stops its log for good (`LongRecordStops`,
  `ScansDeliverAllExactly`).
* `Cancel` keeps the worker's lease. A late commit or failure then revives the cancelled
  job, possibly beside its successor (`PlanJobs.CancelledCanReturn`, `SingleBreaksExactly`,
  `CancelledJobReturns`).
* Planning again keeps the plans of the job before on the screen, as revision 0 of the new
  job, until its first answer with items; a search puts its own results under the running
  job (`PlanWorkspace.ScreenIsOwnExactly`, `OldPlansUnderNewJob`,
  `SearchUnderRunningJob`).
* An issue that has passed its account check can store an unrevoked session after the
  account was revoked; the session is unusable (`SessionSafety.LiveAfterRevocation`,
  `RevokedAccountKeepsLateSession`, `RevocationIsAbsorbing`).
* When the client gives up a refresh that the server granted, because the response is lost
  or the vault cannot be written, its next refresh revokes its own family; in no other case
  is its token a rotated one (`RefreshSafety.RotatedExactly`, `GivingUpAGrantReplays`,
  `GivingUpElseIsHarmless`, `GrantCanBeGivenUp`).
* Two overlapping sends of one client ID, the usual retry, can both be charged to the rate
  budget, though they store one message: a send answered with a message is charged exactly
  if its key was not stored at its own lookup (`SendProtocol.ChargedExactly`,
  `OverlappingSendsAreBothCharged`).
* An event under a row's ID for another device keeps the row from ever being published.
  The envelope endpoint (relay-server/internal/api/server.go:594) publishes under an ID of
  the client's choice (`Outbox.RowCanBePublished`, `ForeignEventBlocks`, `StoredMessageIsBlocked`).
* The memory store overwrites a message whose ID is used again and so loses a cursor
  (`Conversations.DenseBreaksExactly`, `ReusedIdLosesCursor`). A NUL in a
  part of the client key can make a new message pass for a retry
  (`Conversations.KeyIsOwnExactly`, `NulConfusesKeys`).
* Both limiters read the clock before they take the lock, so calls can be processed out of
  order. A window then overfills exactly as `WindowLimiter.RunOverfillsExactly` says, only
  through late calls (`OnlyLateCallsOverfill`, `BackwardClockOverfills`); what still holds is
  the limit for windows shorter by the lateness, and no more (`ShorterWindowHolds`,
  `ShorterWindowIsTight`).
* Market groups below a group that is its own parent escape the depth order; whether they
  import then depends on the order of the file (`MarketGroupOrder.SortedParentsFirst`,
  `ChildOfOwnParentComesFirst`).

## Model

| member | source | states |
|---|---|---|
| `RouteSearch.Route` | desktop-app/internal/evesde/route.go:63-177 | The error cases in the order of the code, by the names of the modes; otherwise a route is returned exactly when a path exists. It is a path with the counts of what it enters, the canonical one, and for "safest" no path enters fewer null-sec systems, with as many none fewer low-sec, with both equal none takes fewer gates; for "" and "shortest" none takes fewer gates |
| `RouteSearch.RouteBetween` | desktop-app/internal/evesde/route.go:95-177 | The search proper: either no walk to the destination exists, or the result summarizes the canonical walk |
| `RouteSearch.Explore` | desktop-app/internal/evesde/route.go:117-160 | Whatever order the cost map is ranged over in, the loop ends, and it ends with settled costs and predecessors that no unvisited entry can improve at the destination |
| `RouteSearch.SelectNext` | desktop-app/internal/evesde/route.go:122-134 | The unvisited entry of least cost, the smaller ID on a tie, 0 when none is left |
| `RouteSearch.RelaxGates` | desktop-app/internal/evesde/route.go:139-159 | Relaxing the gates of a settled system keeps the search invariant, ties on equal priority included |
| `RouteSearch.AdjacencyOf` | desktop-app/internal/evesde/route.go:103-113 | The adjacency lists hold exactly the gates |
| `RouteSearch.FollowBack` | desktop-app/internal/evesde/route.go:164-171 | Following the predecessors ends at the origin; the branch for a missing predecessor cannot be taken |
| `RouteSearch.SystemsBackwards` | desktop-app/internal/evesde/route.go:172-175 | The path is the reversed list of IDs, looked up system by system |
| `RouteSearch.Summarize` | desktop-app/internal/evesde/route.go:179-195 | Jumps, low-sec and null-sec counts equal the cost triple of the walk and the minimum security is the lowest on the path, origin included |
| `RouteSearch.WalkMeetsFrontier` | desktop-app/internal/evesde/route.go:121-160 | Every admissible walk is no cheaper than the settled cost of its end, or passes an unvisited entry that is no dearer |
| `RouteSearch.TraceIsCanonical` | desktop-app/internal/evesde/route.go:121-171 | Under early exit, and for ties updated late, the path traced from the destination is optimal and takes the smallest optimal predecessor at each step |
| `RouteSearch.SmallestPredecessor` | desktop-app/internal/evesde/route.go:155-158 | The stored predecessor is the smallest one through which an optimal walk arrives |
| `RouteSearch.UnreachedHasNoWalk` | desktop-app/internal/evesde/route.go:161-163 | A destination without a cost at the end has no admissible walk at all |
| `RouteSearch.AnswersDecide` | desktop-app/internal/evesde/route.go:60-63 | The one permitted answer succeeds exactly if a walk exists and its figures are beaten by none |
| `RouteSearch.RouteIsDeterministic` | desktop-app/internal/evesde/route.go:60-62 | Two permitted answers to the same query are the same answer, so map iteration order cannot show |
| `RouteGraph.CanonicalIsUnique` | desktop-app/internal/evesde/route.go:60-62 | At most one walk to a destination is canonical |
| `RouteGraph.PrefixOptimal` | desktop-app/internal/evesde/route.go:147-158 | The walk up to the predecessor of an optimal walk is optimal, in both cost orders |
| `RouteGraph.JumpsIsLength` | desktop-app/internal/evesde/route.go:147-148 | The jump count of a walk is its number of gates in both modes |
| `RouteGraph.WalksArePaths` | desktop-app/internal/evesde/route.go:139-146 | The walks of the search are the sequences of systems joined by gates in which every system entered exists and meets the floor |
| `RouteGraph.CostCounts` | desktop-app/internal/evesde/route.go:147-149 | The cost of a walk is the number of systems with security below 0 that it enters, of those from 0 to below 0.5, and of its gates |
| `SessionStore.MemoryRepository.CreateAccount` | relay-server/internal/accounts/memory.go:30-50 | The new account is stored unless its ID is blank or taken |
| `SessionStore.MemoryRepository.GetAccount` | relay-server/internal/accounts/memory.go:52-60 | The account with the ID, or not found |
| `SessionStore.MemoryRepository.RevokeAccount` | relay-server/internal/accounts/memory.go:100-123 | The account is revoked and so is each of its unrevoked sessions; nothing else changes |
| `SessionStore.MemoryRepository.RevokeAccountSessions` | relay-server/internal/accounts/memory.go:318-341 | Exactly the unrevoked sessions of the account are revoked; without an account ID the call is invalid and nothing changes |
| `SessionStore.MemoryRepository.CreateSession` | relay-server/internal/accounts/memory.go:125-150 | The session is stored exactly when its account exists and neither its ID nor a hash is taken, with the error of the first check that fails |
| `SessionStore.MemoryRepository.FindSessionByAccessHash` | relay-server/internal/accounts/memory.go:152-164 | A session with the hash, or not found; a blank hash is never found |
| `SessionStore.MemoryRepository.FindSessionByRefreshHash` | relay-server/internal/accounts/memory.go:166-178 | The only session with the hash, or not found |
| `SessionStore.MemoryRepository.RotateRefresh` | relay-server/internal/accounts/memory.go:180-241 | All of one rotation or none of it: replay revokes the whole family, the other errors change nothing, success marks the old session and stores the new one |
| `SessionStore.MemoryRepository.RevokeTokenFamily` | relay-server/internal/accounts/memory.go:278-304 | Every session of the family is revoked and marked as family-revoked; not found exactly when there is none |
| `SessionStore.MemoryRepository.RevokeSession` | relay-server/internal/accounts/memory.go:243-258 | Only the one session is revoked, and only if it was not |
| `SessionStore.MemoryRepository.RevokeDeviceSessions` | relay-server/internal/accounts/memory.go:260-276 | Exactly the unrevoked sessions of the account on the device are revoked |
| `SessionStore.FindRefreshIsUnique` | relay-server/internal/accounts/memory.go:166-178 | In a consistent store at most one session answers to a refresh hash, so the range order does not matter |
| `SessionProtocol.StepKeepsInv` | relay-server/internal/accounts/service.go:90-246 | Every atomic repository call of every operation keeps the invariant: chains, unique hashes, and what each operation in flight has read |
| `SessionSafety.OneLiveSessionPerFamily` | relay-server/internal/accounts/service.go:88-127 | In every interleaving each token family is one acyclic replacement chain of one account and one absolute expiry, with at most one unrevoked session |
| `SessionSafety.DeadForever` | relay-server/internal/accounts/memory.go:200-214 | A family without an unrevoked session never has one again and no refresh of it succeeds |
| `SessionSafety.ReplayIsNoticed` | relay-server/internal/accounts/service.go:171-179 | Looking up an already rotated token can only lead to the revocation of its family |
| `SessionSafety.ReplayIsFatal` | relay-server/internal/accounts/service.go:156-179 | Presenting an already rotated token answers with replay and leaves the whole family revoked for good, whatever else runs before and after |
| `SessionSafety.LateReplayIsFatal` | relay-server/internal/accounts/memory.go:200-214 | The same when the token was rotated between lookup and rotation |
| `SessionSafety.RevocationIsAbsorbing` | relay-server/internal/accounts/service.go:239-246 | Once an account is revoked no authentication and no refresh for it succeeds, not even one past its account check |
| `SessionSafety.LiveAfterRevocation` | relay-server/internal/accounts/service.go:90-127 | An unrevoked session of a revoked account can still appear exactly if an issue was past its account check and the store would accept its session |
| `SessionSafety.RevokedAccountKeepsLateSession` | relay-server/internal/accounts/service.go:90-127 | Such a run: the issue is checked, the account is revoked, and the session is stored unrevoked |
| `SessionAnswers.DeadTokenIsRefused` | relay-server/internal/accounts/service.go:131-154 | The access token of a session that is revoked, or whose access has expired, is refused in every run: whatever runs before it is presented, and until it is answered |
| `SessionAnswers.LetInExactly` | relay-server/internal/accounts/service.go:131-154 | A session is let in by its access token exactly if it was unrevoked and unexpired at the lookup and its account is active at the check, with the errors of the code otherwise |
| `SessionAnswers.DeadRefreshIsRefused` | relay-server/internal/accounts/service.go:162-182 | The refresh token of a revoked or expired session is granted nothing in any continuation |
| `SessionAnswers.RefreshGrantedExactly` | relay-server/internal/accounts/service.go:162-216 | A refresh whose token was found live is granted exactly if the account is active at its check and at the rotation the session is unrevoked and the new names are unclaimed; the successor has the owner, family and expiry of the session, which is marked as rotated |
| `SessionAnswers.IssuedExactly` | relay-server/internal/accounts/service.go:90-127 | A session is issued exactly if its account is active at the check and its names are unclaimed at the insert; nothing else changes |
| `SessionAnswers.AccountStoredExactly` | relay-server/internal/accounts/memory.go:30-50 | An account is stored unless its ID is blank or taken |
| `SessionAnswers.LogoutConcernsOne` | relay-server/internal/accounts/memory.go:243-258 | A logout revokes the one session |
| `SessionAnswers.DeviceRevocationConcernsDevice` | relay-server/internal/accounts/memory.go:260-276 | A device revocation revokes the sessions of the account on the device and touches nothing else of any |
| `SessionAnswers.AccountRevocationConcernsAccount` | relay-server/internal/accounts/service.go:239-246 | The first pass of an account revocation sets the status and revokes exactly the sessions of the account |
| `SessionAnswers.RevocationEndsWithNone` | relay-server/internal/accounts/service.go:239-246 | After the second pass no session of the account is unrevoked |
| `SessionAnswers.FamilyRevocationMarks` | relay-server/internal/accounts/memory.go:278-304 | A family revocation revokes and marks exactly the sessions of the family |
| `SessionAnswers.LogoutIsFinal` | relay-server/internal/accounts/service.go:131-182 | After a logout neither token of the session is granted anything, in any continuation |
| `RefreshSafety.PlayKeepsSafe` | desktop-app/internal/app/relay.go:102-148 | In every joint run of server and client, whatever is given up or arrives late, the token in memory or in the lock is the newest of its family unless a refresh of it was given up and granted |
| `RefreshSafety.RotatedExactly` | desktop-app/internal/app/relay.go:124-148 | In every run, with any number of concurrent retries, the token in use was rotated exactly if a refresh of that token was given up and the server granted it; what was given up before, for another token, does not matter |
| `RefreshSafety.ReplayedExactly` | desktop-app/internal/app/relay.go:124-148 | A token sent is taken for a replay exactly then, or if its family was revoked already |
| `RefreshSafety.RotationReplayedExactly` | desktop-app/internal/app/relay.go:363-367 | The same for the rotation of the token, however long after the lookup it runs |
| `RefreshSafety.ArrivalsReplayExactly` | desktop-app/internal/app/relay.go:363-367 | Any request of the client, one that arrives after it was given up too, is a replay exactly if a granted refresh rotated its token or the family was revoked |
| `RefreshSafety.MemoryWasSaved` | desktop-app/internal/app/relay.go:102-119 | In every run the credential in memory was written to the vault before |
| `RefreshSafety.RefreshRunsThrough` | desktop-app/internal/app/relay.go:124-148 | A granted refresh ends with the new credential in vault and memory and the mutex free, a refused one with the old credential |
| `RefreshSafety.OneRefreshServesAll` | desktop-app/internal/app/relay.go:124-135 | Requests that failed with one access token and waited for its refresh reuse the new token and send nothing |
| `RefreshSafety.GivenUpMayArrive` | desktop-app/internal/app/relay.go:133-147 | What was sent and given up is looked up by the server like any other request if it arrives |
| `RefreshSafety.LoginIsAnIssue` | desktop-app/internal/app/relay.go:102-119 | A login is an issue at the server and leaves memory and mutex alone; clearing forgets the credential |
| `RefreshSafety.GivingUpAGrantReplays` | desktop-app/internal/app/relay.go:133-147 | Giving up a granted refresh, because its response is lost or because the vault cannot be written, makes the next refresh revoke the family |
| `RefreshSafety.GivingUpElseIsHarmless` | desktop-app/internal/app/relay.go:133-147 | Giving up a refresh that the server has not granted makes no token a rotated one; it counts only if the server grants it afterwards |
| `RefreshSafety.GrantCanBeGivenUp` | desktop-app/internal/app/relay.go:133-147 | A concrete run of login and refresh in which both losses are possible |
| `LogRecords.NewlineEnd` | desktop-app/internal/ingest/tailer.go:313-334 | The end of the first newline of the chunk, aligned to code units of the file for UTF-16LE, or -1 |
| `LogRecords.ChunkFindsNextEnd` | desktop-app/internal/ingest/tailer.go:267-270 | What is found in a chunk is what the whole file has after that position, so chunk borders never split or invent a record |
| `LogRecords.EndsOrdered` | desktop-app/internal/ingest/tailer.go:264-310 | The record ends of a file increase and lie inside it |
| `LogRecords.EndsGrow` | desktop-app/internal/ingest/tailer.go:264-310 | Appending to a file leaves the ends of its records in place and adds new ones behind them |
| `LogRecords.NextOfRest` | desktop-app/internal/ingest/tailer.go:288-309 | After a record the split continues as if the file began there |
| `LogRecords.LineIsText` | desktop-app/internal/ingest/tailer.go:271-288 | In both encodings the line of a record is its text without the newline and without one carriage return before it |
| `LogIngestion.Store.CommitNormalizedEvents` | desktop-app/internal/storage/local_ingestion.go:165-186 | Events and cursor are written together or not at all, even when the call reports failure; a known event ID is ignored |
| `LogIngestion.LocalCursorAdapter.Load` | desktop-app/internal/app/local_ingestion.go:32-54 | The cursor of the file, if there is one |
| `LogIngestion.LocalCursorAdapter.Commit` | desktop-app/internal/app/local_ingestion.go:55-76 | The pending event goes with the cursor in one transaction and is gone afterwards, also when the transaction fails |
| `LogIngestion.Tailer.HandleRecord` | desktop-app/internal/app/local_ingestion.go:207-258 | One record: its event and the cursor after it, or neither; the event is what the parser makes of the text of the record |
| `LogIngestion.Tailer.ScanFile` | desktop-app/internal/ingest/tailer.go:221-311 | A scan that does not fail delivers exactly the records that fit the budgets, in order, and leaves the cursor behind the last; a failed one still leaves exactly-once storage |
| `LogIngestion.Tailer.Scan` | desktop-app/internal/ingest/tailer.go:179-219 | A pass over the logs of a directory with shared budgets: exactly-once storage for each, and the number of records the budgets allow unless the store reported a failure |
| `LogIngestion.RecordIdsDistinct` | desktop-app/internal/app/local_ingestion.go:203-206 | Different records of a log have different event IDs |
| `LogIngestion.CommitKeepsExact` | desktop-app/internal/app/local_ingestion.go:207-236 | Committing the next record keeps storage exactly-once |
| `LogIngestion.EventsStoredExactlyOnce` | desktop-app/internal/app/local_ingestion.go:55-76 | Over any run of appends, scans, failed commits and crashes the events stored are exactly those of the records between the initial offset and the cursor |
| `LogIngestion.RecordsAreLines` | desktop-app/internal/ingest/tailer.go:271-288 | Every record of the split is a text and its line end, and the parser gets that text |
| `LogIngestion.StoredIsParsedText` | desktop-app/internal/app/local_ingestion.go:207-258 | Exactly-once storage holds an event of a record before the cursor exactly if the parser makes one of its text, and then that one |
| `LogIngestion.CommitsCatchUp` | desktop-app/internal/ingest/tailer.go:264-310 | Whatever is appended, committing record after record stores all its complete records and ends behind the last |
| `LogIngestion.DeliveryIsSplitPrefix` | desktop-app/internal/ingest/tailer.go:221-334 | Whatever the budgets and appends of a run of scans, the records delivered are a prefix of the newline split of the final file from the initial offset |
| `LogIngestion.ScansDeliverAllExactly` | desktop-app/internal/ingest/tailer.go:221-311 | A file that no longer grows is delivered to its last complete record by enough failure-free scans exactly if each of its records fits the byte budget |
| `LogIngestion.LongRecordStops` | desktop-app/internal/ingest/tailer.go:252-311 | A record longer than the byte budget is never delivered, nor is anything behind it, however often the file is scanned and however it grows |
| `LogIngestion.PassDelivers` | desktop-app/internal/ingest/tailer.go:186-217 | A pass delivers at least one record exactly if some log has a complete record that fits what the logs before it leave of the byte budget |
| `LogIngestion.FittingRecordsMayStarve` | desktop-app/internal/ingest/tailer.go:186-217 | That every record fits the budget is not enough: two such logs and a pass that delivers nothing |
| `Decimal.Itoa` | relay-server/internal/conversations/transactional_outbox.go:172-185 | The decimal text of a nonnegative 64-bit number, which fits the buffer; a negative one gives the empty text |
| `Decimal.EventRowsAreDistinct` | relay-server/internal/conversations/transactional_outbox.go:132-170 | Two run events share an outbox row exactly if they are of one run and have the same sequence number, or both a negative one |
| `Fencing.LostIsRetired` | relay-server/internal/conversations/transactional_outbox.go:225-241 | A row that gives up its claim token retires it: no row holds it any more |
| `Fencing.RetiredStays` | relay-server/internal/conversations/transactional_outbox.go:188-224 | A retired token is never held again |
| `Outbox.StepKeepsInv` | relay-server/internal/conversations/transactional_outbox.go:16-241 | Every statement by any number of workers keeps the tables' invariant |
| `Outbox.OneRowPerMessage` | relay-server/internal/conversations/transactional_outbox.go:16-67 | In every run each stored message has its outbox row and each message row its message |
| `Outbox.PublishedWasDelivered` | relay-server/internal/realtime/outbox.go:47-86 | In every run a published row's own event is in the delivery log, and no event ID is there twice |
| `Outbox.PublishedPayload` | relay-server/internal/realtime/outbox.go:47-86 | That event carries the payload of the row, in every run in which nobody else publishes under its ID |
| `Outbox.PublishedForever` | relay-server/internal/conversations/transactional_outbox.go:188-241 | A published row is never claimed, failed or changed again |
| `Outbox.LeaseProtects` | relay-server/internal/conversations/transactional_outbox.go:188-224 | A claimed row is not eligible before its lease ends and is eligible then, with one more attempt |
| `Outbox.IntentIsStoredOnce` | relay-server/internal/conversations/transactional_outbox.go:69-131 | An intent of a run or its event is stored once, under an ID that no message row has |
| `Outbox.WorkersTellTheTruth` | relay-server/internal/realtime/outbox.go:62-82 | A worker completes only what it has published and fails only what it has not; conversations keep their target |
| `Outbox.StaleTokenChangesNothing` | relay-server/internal/conversations/transactional_outbox.go:225-241 | Once a row has let go of a claim's token, completing or failing any row with it changes nothing, ever |
| `Outbox.RowCanBePublished` | relay-server/internal/realtime/outbox.go:37-47 | Whatever crashed before, a row can still be published, exactly unless an event of another target occupies its ID |
| `Outbox.BlockedForever` | relay-server/internal/realtime/outbox.go:66-70 | A row whose ID is occupied so is never published |
| `Outbox.ForeignEventBlocks` | relay-server/internal/realtime/outbox.go:66-70 | An event published under a row's ID blocks the row exactly if it is the first under that ID and for another account or device |
| `Outbox.StoredMessageIsBlocked` | relay-server/internal/realtime/outbox.go:47-86 | A concrete run: a message is stored, an envelope goes out under its row's ID to another device, and in no continuation is the message's event published |
| `OutboxDispatcher.Tables.PutMessageWithEvent` | relay-server/internal/conversations/transactional_outbox.go:16-67 | Message and intent are stored together, the intent for the conversation's target with the payload; a duplicate returns the stored message and adds neither; each error has its cause and leaves both tables alone |
| `OutboxDispatcher.Tables.ClaimOutbox` | relay-server/internal/conversations/transactional_outbox.go:188-224 | The oldest eligible unlocked rows, up to the limit, each leased under a fresh token; fewer only if no other row is eligible |
| `OutboxDispatcher.Tables.CompleteOutbox` | relay-server/internal/conversations/transactional_outbox.go:225-231 | The row is published exactly if it is processing under this token, and nothing else changes; the protocol's invariant is kept when its event is in the log |
| `OutboxDispatcher.Tables.FailOutbox` | relay-server/internal/conversations/transactional_outbox.go:232-241 | The row is failed and due a second later exactly if it is processing under this token |
| `OutboxDispatcher.Tables.PublishDelivery` | relay-server/internal/realtime/outbox.go:66-70 | It succeeds exactly if the database does not lose it and no event of another target has the row's ID; at most the row's own event, with its payload, is added |
| `OutboxDispatcher.Tables.SettleOne` | relay-server/internal/realtime/outbox.go:62-82 | A claimed row ends published and counted exactly if neither its publication nor its completion was lost and its ID is not blocked; failed only if its publication failed; still leased only if the database failed |
| `OutboxDispatcher.Tables.Dispatch` | relay-server/internal/realtime/outbox.go:47-86 | Without interference every claimed row ends so; a completion that is reported as failed ends the pass; with nothing lost and no claimed row blocked the count is the number of rows claimed |
| `PlanJobs.CreateNeverClashes` | relay-server/internal/marketplan/postgres.go:42-66 | Superseding first means the insert never meets the unique index: Create fails only for a taken ID |
| `PlanJobs.StepKeepsIndex` | relay-server/migrations/028_market_plan_jobs.sql:33 | Every statement keeps at most one live job for each account, character, mode and constraint hash |
| `PlanJobs.StepKeepsInv` | relay-server/internal/marketplan/postgres.go:42-183 | Every statement by any number of workers keeps the tables' invariant |
| `PlanJobs.OneCommitPerClaim` | relay-server/internal/marketplan/postgres.go:129-168 | In every run a claim leads to at most one successful commit |
| `PlanJobs.StaleTokenChangesNothing` | relay-server/internal/marketplan/postgres.go:129-176 | Once a job has let go of a claim's token, committing or failing any job with it changes nothing, ever |
| `PlanJobs.LeaseProtects` | relay-server/internal/marketplan/postgres.go:98-121 | A claimed job is not due while its lease lasts and is due after it, one attempt later, in discovery if it was queued |
| `PlanJobs.OneLiveJobPerWorkspace` | relay-server/internal/marketplan/postgres.go:48-50 | In every run in which no claimed job is cancelled through Cancel, at most one job is live for each account, character and mode |
| `PlanJobs.SingleBreaksExactly` | relay-server/internal/marketplan/postgres.go:129-183 | The one step that breaks it: a commit or failure that revives a cancelled job, still leased, while another job of the workspace is live |
| `PlanJobs.CreateSupersedes` | relay-server/internal/marketplan/postgres.go:54 | A live job superseded by Create is cancelled and holds no lease |
| `PlanJobs.DeadForever` | relay-server/internal/marketplan/postgres.go:98-183 | Such a job never changes again: no commit or failure in flight revives it, in any run |
| `PlanJobs.CancelledCanReturn` | relay-server/internal/marketplan/postgres.go:177-183 | A cancelled job can come back to life exactly if it still holds a lease, which Cancel leaves in place |
| `PlanJobs.CancelledJobReturns` | relay-server/internal/marketplan/postgres.go:177-183 | A concrete run: claim, cancel, create, late commit; two jobs of one workspace are live |
| `PlanResults.RevisionsAreExact` | relay-server/internal/marketplan/postgres.go:129-157 | In every run the stored revisions of a job are exactly 1..result_revision, each written by exactly one commit |
| `PlanResults.RowsOfRevision` | relay-server/internal/marketplan/postgres.go:144-157 | The rows of a revision are those of its commit, ranked 1..n |
| `PlanResults.OnlyOwnKeysClash` | relay-server/migrations/028_market_plan_jobs.sql:35-44 | Under a valid lease the results table refuses a commit only for the keys within that commit |
| `PlanResults.PageIsOneCommit` | relay-server/internal/marketplan/postgres.go:74-89 | An answer is empty exactly if nothing is newer, and otherwise the whole of the latest commit in rank order |
| `PlanResults.ClientReadsBatch` | desktop-app/frontend/src/marketWorkspace.ts:11 | On an answer the client finds its revision and its plans in rank order |
| `PlanResults.SortPermutes` | desktop-app/frontend/src/marketWorkspace.ts:11 | The client's sort orders by rank and loses nothing, for any list |
| `PlanResults.LatestIsNewest` | desktop-app/frontend/src/marketWorkspace.ts:11 | From any list the client takes the plans of the newest revision in it, each as often as it is there, by rank |
| `PlanResults.LookNeverGoesBack` | desktop-app/frontend/src/main.tsx:73 | No answer whatever takes the viewer back |
| `PlanResults.PollCatchesUp` | desktop-app/frontend/src/main.tsx:73 | A poll brings the viewer to the job's current revision, strictly forward if the answer is not empty |
| `PlanResults.ViewerSeesCommits` | desktop-app/frontend/src/main.tsx:73 | However polls and workers interleave, the viewer holds nothing or one complete commit and never goes back |
| `PlanWorkspace.AnswerShowsOneCommit` | desktop-app/frontend/src/marketWorkspace.ts:11-13 | Whatever the session of the job showed before, an answer with items puts exactly one whole commit on the screen, that of the job's current revision |
| `PlanWorkspace.TurnReachesRevision` | desktop-app/frontend/src/main.tsx:73 | After a turn of the poll the session stands at its job's current revision, and its plans are that commit's or, without items, what they were |
| `PlanWorkspace.OthersUntouched` | desktop-app/frontend/src/marketWorkspace.ts:12-13 | Other modes, and a session that has moved on to another job, are left alone |
| `PlanWorkspace.KeepIsFilter` | desktop-app/frontend/src/marketWorkspace.ts:12 | The filter takes out exactly the plans that are not genuine |
| `PlanWorkspace.KeepKeepsOrder` | desktop-app/frontend/src/marketWorkspace.ts:12 | and keeps the order of the others |
| `PlanWorkspace.SelectionFollows` | desktop-app/frontend/src/marketWorkspace.ts:12 | After an answer the selection is the same place in the list, the last if that is gone, the first if there was none, and none exactly if the list is empty |
| `PlanWorkspace.SearchAndReplan` | desktop-app/frontend/src/main.tsx:70-75 | A search shows what it found and selects the first; planning again queues the new job and keeps plans and selection |
| `PlanWorkspace.ActsReachSession` | desktop-app/frontend/src/marketWorkspace.ts:13 | A selection and the state of the session's own job reach the session; the state of another job does not |
| `PlanWorkspace.ScreenIsOwnExactly` | desktop-app/frontend/src/main.tsx:70-75 | In every run of plans, searches, selections, polls, late answers and server steps, the screen shows nothing or one commit of its own job exactly if there were no plans when the job was planned or an answer with items has come since, and no search has found any after it |
| `PlanWorkspace.ReplanShowsOldPlans` | desktop-app/frontend/src/main.tsx:75 | A new job over a session with plans shows them, as revision 0 of a job they are not from, until its first answer |
| `PlanWorkspace.OldPlansUnderNewJob` | desktop-app/frontend/src/main.tsx:75 | A concrete run of two jobs that does so |
| `PlanWorkspace.SearchUnderRunningJob` | desktop-app/frontend/src/main.tsx:70 | A concrete run in which a search puts its results under a job and revision they are not from |
| `PlanWorker.PlanTables.Create` | relay-server/internal/marketplan/postgres.go:42-66 | All live jobs of the workspace are superseded and the new one is queued, or nothing happens because the ID is taken |
| `PlanWorker.PlanTables.Claim` | relay-server/internal/marketplan/postgres.go:98-121 | Up to the limit of due unlocked jobs, each leased under a fresh token; fewer only if no other job is due |
| `PlanWorker.PlanTables.InsertRows` | relay-server/internal/marketplan/postgres.go:144-157 | The inserts succeed exactly if every key is legal and new, and add the ranked rows |
| `PlanWorker.PlanTables.Commit` | relay-server/internal/marketplan/postgres.go:129-168 | All of the commit or nothing; lease lost exactly when the token or the lease does not hold |
| `PlanWorker.PlanTables.Fail` | relay-server/internal/marketplan/postgres.go:169-176 | Back to queued, or failed from the fifth attempt on, exactly under the job's own token |
| `PlanWorker.PlanTables.Cancel` | relay-server/internal/marketplan/postgres.go:177-183 | A job that is not over is cancelled; its lease stays; another account's job is not found |
| `PlanWorker.PlanTables.RequeueWatching` | relay-server/internal/marketplan/postgres.go:90-96 | Watching jobs with a newer snapshot are queued, nothing else changes |
| `PlanWorker.PlanTables.ResultsAfter` | relay-server/internal/marketplan/postgres.go:74-89 | The rows of the newest later revision, each once, in rank order; nothing for another account |
| `PlanWorker.PlanTables.RunOnce` | relay-server/internal/marketplan/worker.go:101-139 | The cycle is a run of the protocol: requeue, claim, then for each claim the commit of the engine's slice or the failure for its error, at the time read after the work; at the end each claimed job is where its outcome puts it |
| `PlanAnswers.AnswerLands` | relay-server/internal/marketplan/worker.go:122-139 | A slice within the lease and with legal keys leaves the job in the state the engine chose, at its next revision if there are results, with these as its rows ranked 1..n; any other slice changes nothing; an error queues the job again, or fails it on the fifth attempt |
| `PlanAnswers.AnswerTouchesOwn` | relay-server/internal/marketplan/worker.go:122-139 | An answer touches its own job and the rows of that, and nothing else |
| `MarketTables.ValidatePage` | relay-server/internal/marketdata/marketdata.go:95-110 | Accepts exactly the pages with a number in 1..expected, legal orders and distinct order IDs |
| `MarketTables.Tables.BeginBatch` | relay-server/internal/marketdata/postgres.go:23-32 | An empty collecting batch of the region, or invalid input |
| `MarketTables.Tables.AppendPage` | relay-server/internal/marketdata/postgres.go:34-99 | The page, its new orders and all counters together, exactly if the batch ID is not blank, the page is valid, new and of the expected count and the batch is collecting; otherwise nothing, with the error of the first check |
| `MarketTables.Tables.Publish` | relay-server/internal/marketdata/postgres.go:101-152 | Succeeds exactly for a collecting batch whose counters agree, then all pages are there; state, pointers and retention move together or nothing does |
| `MarketTables.Tables.Fail` | relay-server/internal/marketdata/postgres.go:208-224 | A collecting batch fails, with a failure text that is not blank; otherwise the error of the first check and no change |
| `MarketBatch.InsertAllCounts` | relay-server/internal/marketdata/postgres.go:77-92 | Orders the batch holds already stay as they are, and the count returned is that of the orders that are new |
| `MarketBatch.StepKeepsInv` | relay-server/internal/marketdata/postgres.go:23-224 | Every transaction by any number of collectors keeps counters, pages, orders and pointers in step |
| `MarketSnapshots.AllOfThem` | relay-server/internal/marketdata/postgres.go:124-126 | n distinct pages within 1..n are all of them |
| `MarketSnapshots.PublishedWhenAllPages` | relay-server/internal/marketdata/postgres.go:121-126 | The counter check means that exactly the pages 1..expected are there |
| `MarketSnapshots.SnapshotsAreWhole` | relay-server/internal/marketdata/postgres.go:135-147 | In every run the complete batches of a region are exactly its current and previous snapshot, and each is whole: all pages, and an order count equal to its distinct orders |
| `MarketSnapshots.PointersExist` | relay-server/internal/marketdata/postgres.go:135-147 | In every run both pointers refer to different, existing, complete batches of the region |
| `MarketSnapshots.CompleteIsFinal` | relay-server/internal/marketdata/collector.go:69-74 | Failing a batch after its publication was committed changes nothing, nor does appending to it or publishing it again |
| `MarketSnapshots.PublishedContentStays` | relay-server/internal/marketdata/postgres.go:143-147 | A published batch keeps its row, pages and orders for as long as it is kept |
| `MarketSnapshots.PublishShifts` | relay-server/internal/marketdata/postgres.go:139-142 | Publication moves the region's pointers on by one and no other region's |
| `MarketCollector.MoveKeepsPool` | relay-server/internal/marketdata/collector.go:88-128 | Every send, receive, append, report and cancellation keeps each page in exactly one place |
| `MarketCollector.StoredUnlessInvalid` | relay-server/internal/marketdata/collector.go:106-109 | An append of the pool is refused only for the content of its page, never because a page was handed out twice |
| `MarketCollector.StoreStoresExactly` | relay-server/internal/marketdata/collector.go:106-111 | The append of a valid page puts exactly that page into the batch and frees its worker; that of another page is reported and leaves the batch alone |
| `MarketCollector.FirstFailureStays` | relay-server/internal/marketdata/collector.go:148-154 | The first failure reported stays, and a closed producer hands out nothing more |
| `MarketCollector.GivingUpIsHeard` | relay-server/internal/marketdata/collector.go:110-119 | A caller who gives up is heard, and so is a worker that reported first |
| `MarketCollector.OthersRunOn` | relay-server/internal/marketdata/collector.go:88-128 | Work on other batches goes on beside the pool |
| `MarketCollector.PoolCanStop` | relay-server/internal/marketdata/collector.go:110-119 | Once a worker or the caller gave up, the pool can come to its end without another page |
| `MarketCollector.PublishableAtEnd` | relay-server/internal/marketdata/collector.go:119-128 | When all workers have left, the batch can be published exactly if every page was handed out and none was lost, so whenever no failure was reported and the caller did not give up |
| `MarketCollector.UnheardPageCompletesBatch` | relay-server/internal/marketdata/collector.go:106-128 | A failure can be reported for a batch that is complete: its last append was committed and reported as failed |
| `MarketCollector.PoolTerminates` | relay-server/internal/marketdata/collector.go:88-119 | The pool makes a bounded number of moves in every interleaving |
| `MarketCollector.PoolNeverStuck` | relay-server/internal/marketdata/collector.go:88-119 | Until all workers have left some move of the pool is possible, so waiting for them ends |
| `Conversations.StepKeepsInv` | relay-server/internal/conversations/memory.go:105-139 | Cursors stay within the counter and are never shared, whatever IDs the messages have |
| `Conversations.CursorsAreExact` | relay-server/internal/conversations/memory.go:127-135 | In every run with fresh message IDs the cursors of a conversation are exactly 1..n, one message each |
| `Conversations.DenseBreaksExactly` | relay-server/internal/conversations/memory.go:135 | A cursor is lost exactly if a new message is stored under an ID that already has one |
| `Conversations.ReusedIdLosesCursor` | relay-server/internal/conversations/memory.go:135 | Such a store: one message ID used for two client IDs, and cursor 1 is nowhere |
| `Conversations.KeyIsInjective` | relay-server/internal/conversations/memory.go:238-240 | Two client keys whose first three parts contain no NUL are equal exactly if all their parts are |
| `Conversations.KeyIsOwnExactly` | relay-server/internal/conversations/memory.go:238-240 | No other four parts have the client key of these exactly if none of the four contains a NUL |
| `Conversations.NulConfusesKeys` | relay-server/internal/conversations/memory.go:238-240 | With a NUL in a sender they can run together: a new message that the store would accept is taken for a retry of another sender's and is not stored |
| `Conversations.RetriesAreRecognised` | relay-server/internal/conversations/memory.go:120-123 | A message is taken for a retry exactly if one of the same conversation, sender and client ID is stored |
| `Conversations.RetryFindsOriginal` | relay-server/internal/conversations/memory.go:105-139 | However much happens in between, a retry changes nothing, takes no cursor and finds the message it retries |
| `Conversations.ListingIsRange` | relay-server/internal/conversations/memory.go:196-202 | Item k after a cursor is the message at that cursor + 1 + k |
| `Conversations.ReadKeepsSeen` | relay-server/internal/conversations/memory.go:184-213 | A page continues where the last one ended, says whether more follows, and is empty only at the end |
| `Conversations.ReaderSeesEverythingOnce` | relay-server/internal/conversations/memory.go:184-213 | A reader that follows the next cursor while others write has seen every message up to its cursor exactly once, in order |
| `Conversations.StatusMovesExactly` | relay-server/internal/conversations/conversations.go:771-782 | An update of the owner moves the status exactly to one that is ahead of it, and nothing else |
| `Conversations.StatusNeverGoesBack` | relay-server/internal/conversations/conversations.go:756-782 | In no run does a status go back or leave processed or failed |
| `ConversationService.SortByCursor` | relay-server/internal/conversations/memory.go:202 | The sort orders by cursor and keeps exactly the items |
| `ConversationService.MemoryRepository.CreateConversation` | relay-server/internal/conversations/memory.go:39-53 | The conversation is stored unless an ID is blank or taken |
| `ConversationService.MemoryRepository.CloseConversation` | relay-server/internal/conversations/memory.go:92-103 | The status of the account's own conversation changes, its account never |
| `ConversationService.MemoryRepository.PutMessage` | relay-server/internal/conversations/memory.go:105-139 | The errors in order; a retry gets the stored message; a new message gets the next cursor and its client key |
| `ConversationService.MemoryRepository.FindMessageByClientID` | relay-server/internal/conversations/memory.go:143-155 | The message stored under the client key, if any |
| `ConversationService.MemoryRepository.ListMessages` | relay-server/internal/conversations/memory.go:184-213 | The messages after the cursor in cursor order, cut to the clamped limit, with the next cursor and whether more follow |
| `ConversationService.MemoryRepository.UpdateMessageStatus` | relay-server/internal/conversations/memory.go:215-236 | The status moves only as far as it may; nothing else of the message changes |
| `ConversationService.Service.SendMessage` | relay-server/internal/conversations/conversations.go:366-415 | A send that runs alone: the objections in their order; a retry consumes no rate budget and stores nothing; a new message of an open conversation costs one call of its sender's budget and one cursor, or is rate limited; every other refusal costs nothing |
| `SendProtocol.OneMessagePerKey` | relay-server/internal/conversations/conversations.go:366-415 | However sends overlap, all those of one client ID that are answered have one and the same stored message |
| `SendProtocol.StoredOnce` | relay-server/internal/conversations/conversations.go:366-415 | In every interleaving no two messages share a client key and the cursors of a conversation are exactly 1..n |
| `SendProtocol.PartsAreRequired` | relay-server/internal/conversations/conversations.go:373-375 | A send without account, device, conversation, client ID or body comes to nothing |
| `SendProtocol.ChargedOnlyIfMissed` | relay-server/internal/conversations/conversations.go:380-407 | Whatever becomes of a send, refusals included, it is charged only if its message was not stored at its own lookup |
| `SendProtocol.LateRetryIsFree` | relay-server/internal/conversations/conversations.go:380-407 | A retry that starts once the message is stored gets it back and is never charged, whatever else runs |
| `SendProtocol.ChargedExactly` | relay-server/internal/conversations/conversations.go:363-407 | In every run, whatever is under way when a send looks up its key and whatever runs beside it afterwards: once it is answered with a message it has been charged exactly if that key was not stored at its own lookup; a send that is rate limited, or not yet at the limiter, is not charged |
| `SendProtocol.OverlappingSendsAreBothCharged` | relay-server/internal/conversations/conversations.go:366-415 | Two overlapping sends of one client ID: one message, one cursor, two charges |
| `Wrappers.BlankIsTrimmed` | relay-server/internal/conversations/conversations.go:373-381 | A text is blank, as all the checks for blank texts mean it, exactly if strings.TrimSpace leaves nothing of it |
| `Wrappers.SpaceCodePoints` | relay-server/internal/conversations/conversations.go:373-381 | White space is what unicode.IsSpace lists |
| `WindowLimiter.ServiceLimiter.Allow` | relay-server/internal/conversations/conversations.go:862-889 | Verdict, retry time and new list of the key; other keys are untouched |
| `WindowLimiter.RequestLimiter.Allow` | relay-server/internal/httpapi/middleware.go:274-297 | The same list, with the blank key counted as anonymous |
| `WindowLimiter.PruneStamps` | relay-server/internal/conversations/conversations.go:869-873 | The loop drops exactly the leading stamps that have left the window |
| `WindowLimiter.DecidesByFullHistory` | relay-server/internal/conversations/conversations.go:862-889 | For an ordered clock the pruned list decides as a count over every call ever accepted |
| `WindowLimiter.NoWindowOverfull` | relay-server/internal/httpapi/middleware.go:274-297 | For an ordered clock no window (t-W, t] ever holds more than max accepted calls |
| `WindowLimiter.RetryIsTight` | relay-server/internal/conversations/conversations.go:874-886 | A rejected call is admitted later exactly from now + RetryAfter on, if nothing is accepted in between |
| `WindowLimiter.RejectionsChangeNothing` | relay-server/internal/conversations/conversations.go:874-886 | More rejected calls in between do not move that moment |
| `WindowLimiter.CallOverfillsExactly` | relay-server/internal/conversations/conversations.go:862-889 | After any history, a call makes some window exceed max exactly if it is admitted while a window that contains it holds max already |
| `WindowLimiter.RunOverfillsExactly` | relay-server/internal/conversations/conversations.go:862-889 | For calls in any order of their clock readings, no window ever exceeds max exactly if no call of the run did that |
| `WindowLimiter.OnlyLateCallsOverfill` | relay-server/internal/conversations/conversations.go:863-864 | Such a call read its clock before some earlier call did |
| `WindowLimiter.ShorterWindowHolds` | relay-server/internal/conversations/conversations.go:862-889 | If no clock reading is processed after one more than delta later, no window of length W - delta ever holds more than max accepted calls |
| `WindowLimiter.ShorterWindowIsTight` | relay-server/internal/conversations/conversations.go:863-864 | For every W and every delta from 1 to W there are calls out of order by delta that overfill a window longer by one unit |
| `WindowLimiter.AgreesExactly` | relay-server/internal/conversations/conversations.go:863-873 | For any history, ordered or not, and any dropped part of it, the list decides as the full history, whatever the limit, exactly if as many dropped stamps are back in the window as kept ones are expired |
| `WindowLimiter.BackwardClockOverfills` | relay-server/internal/conversations/conversations.go:863-864 | The clock is read before the lock is taken; out of order, three calls can be accepted in a window of two |
| `LikeEscape.SearchFindsText` | desktop-app/internal/evesde/repository.go:179-218 | For every text, name and notion of equal characters, the escaped search finds exactly the names in which the text occurs |
| `LikeEscape.EscapedIsLiteral` | desktop-app/internal/evesde/repository.go:215-218 | Escaped text in a pattern matches itself and nothing else, whatever follows |
| `LikeEscape.UnescapedFindsAll` | desktop-app/internal/evesde/repository.go:215-218 | Unescaped, a wildcard in the text would find any name |
| `MarketGroupOrder.ComputeDepth` | desktop-app/cmd/sde-import/main.go:235-250 | The two loops compute the length of the walk over the parents, cut off at the number of rows |
| `MarketGroupOrder.DepthOfParent` | desktop-app/cmd/sde-import/main.go:235-250 | A present parent is strictly less deep despite the cut-off, exactly unless the walk over the parents never ends |
| `MarketGroupOrder.DepthPermutes` | desktop-app/cmd/sde-import/main.go:137 | Depth does not depend on the order of the slice, so comparing while the sort permutes it is sound |
| `MarketGroupOrder.SortMarketGroups` | desktop-app/cmd/sde-import/main.go:137 | A stable sort by depth, in place |
| `MarketGroupOrder.SortedParentsFirst` | desktop-app/cmd/sde-import/main.go:132-142 | The sorted rows can be inserted one by one exactly if each parent exists and, where the walk never ends, precedes its row in the file or is the row itself |
| `MarketGroupOrder.ForestParentsFirst` | desktop-app/cmd/sde-import/main.go:132-142 | In any forest with unique keys every parent comes first; only a parent missing from the file can fail |
| `MarketGroupOrder.ChildOfOwnParentComesFirst` | desktop-app/cmd/sde-import/main.go:132-142 | A child listed before a parent that is its own parent stays before it in every such sort |
| `MarketGroupOrder.OwnParentMayComeFirst` | desktop-app/cmd/sde-import/main.go:132-142 | The same two rows the other way round can be inserted |
| `SdeImport.BuildTables` | desktop-app/internal/evesde/importer.go:199-208 | The nested loops over kinds and records insert row by row and stop at the first refused row |
| `SdeImport.TablesAreOrdered` | desktop-app/internal/evesde/schema.go:16-28 | Every reference leads to a kind inserted earlier, or from market group to market group |
| `SdeImport.Import` | desktop-app/internal/evesde/importer.go:65-134 | One invalid record and nothing is built; otherwise the inserts decide |
| `SdeImport.ImportSucceedsExactly` | desktop-app/internal/evesde/importer.go:65-223 | For every notion of equal names, the import succeeds exactly if every record is valid, keys are unique, names of regions, constellations and systems are unique among their kind, and every reference is in the file, for a market group not further down; then every row is stored |
| `SdeImport.ImportedTableByTable` | desktop-app/internal/evesde/schema.go:16-28 | The same told by the tables: every row valid, no primary key and no unique name twice, and every column that refers to a table leads to a row of the file, a parent group not behind its child |
| `SdeImport.ValidateRecord` | desktop-app/internal/evesde/importer.go:140-182 | Accepts exactly the valid records |
| `SdeImport.GatesAreRecords` | desktop-app/internal/evesde/importer.go:199-208 | The gates of the map are exactly those of the stargate records |
| `SdeImport.ParentsFirstIsGood` | desktop-app/internal/evesde/importer.go:199-208 | For market groups that is exactly: parents first |
| `SdeImport.ForestImports` | desktop-app/cmd/sde-import/main.go:132-142 | Converter and importer together: a forest of market groups imports exactly if every group is valid and no parent is missing |
| `SdeImport.ImportedMapIsWellFormed` | desktop-app/internal/evesde/importer.go:140-182 | An imported map gives the route search gates that join existing systems with positive IDs |
| `RouteCache.Client.Get` | desktop-app/internal/app/trade_route.go:48-59 | What is returned was taken in at most ttl ago; an expired entry is dropped |
| `RouteCache.Client.Put` | desktop-app/internal/app/trade_route.go:60-78 | The new entry is in; the cache never exceeds its size; entries go only from a full cache, and an unexpired one only if the cache is full of such, and then it is the only one |
| `RouteCache.Client.EvictExpired` | desktop-app/internal/app/trade_route.go:64-69 | Exactly the expired entries go |
| `RouteCache.Client.LookUp` | desktop-app/internal/app/trade_route.go:90-102 | Each query is answered from the cache or waits for its route, which is asked for once |
| `RouteCache.Client.Scatter` | desktop-app/internal/app/trade_route.go:121-123 | An answer reaches every position that asked for it and no other |
| `RouteCache.Client.SecureTradeRoutes` | desktop-app/internal/app/trade_route.go:86-126 | Each result is the cache's, taken in at most ttl before the call, or this request's answer to the same query; no route is asked for twice or while the cache has it; each error exactly for its cause; the ready answers are all kept, and only they |
| `RouteCache.AsIfAskedAlone` | desktop-app/internal/app/trade_route.go:79-126 | Over any sequence of calls on a cache that starts empty: if the server's answers do not change, every batch answers each query as if it had been asked alone |

## Left out

- RouteSearch.Route: SQL errors and cancellation are not modelled, and the sort of the adjacency lists is not, because the result is proved for every order of the gates; security is a real number.
- SessionStore.MemoryRepository.CreateAccount: creation and update times and display names are not part of the model; texts are sequences of Unicode characters, so invalid UTF-8 does not occur; identities and EnsureAccount are left out.
- SessionSafety.OneLiveSessionPerFamily: tokens are identified with their hashes, and only family IDs need to be fresh; service operations are sequences of repository calls on values, not methods.
- RefreshSafety.PlayKeepsSafe: restoring the vault at start, PKCE and HTTP are not modelled; a request that was sent and given up may arrive any number of times, later or never.
- LogIngestion.Tailer.Scan: directory listing, selectors, file read errors, decoding of the text and the lists of recent events are not modelled; a log's parser is any function of its bytes; file identity never changes; files are only appended to.
- LogIngestion.LocalCursorAdapter.Load: the branch for a changed file identity is not modelled; the identity is a hash of the path (local_ingestion.go:148-153), so it is not taken.
- LogIngestion.EventsStoredExactlyOnce: says nothing about truncated files, whose record IDs can repeat.
- Outbox.StepKeepsInv: rows of runs and run events are any pending rows with other prefixes; that a second intent with a known ID is dropped means repeated run updates of one type are announced once.
- OutboxDispatcher.Tables.ClaimOutbox: rows created at the same moment may be taken in any order; the source orders them by ID, by the collation of the database.
- OutboxDispatcher.Tables.Dispatch: is stated for a worker alone on the tables; under interference the run theorems of Outbox apply. Notifications are hints and left out.
- PlanWorker.PlanTables.Claim: takes due jobs in any order, not by update time; progress, frontier and time columns are not modelled.
- PlanWorker.PlanTables.RunOnce: handles the claims of one cycle one after another; concurrent workers are covered by the run theorems of PlanJobs. The engine may return anything.
- PlanWorker.PlanTables.RequeueWatching: which jobs have a newer snapshot is a parameter.
- PlanJobs.OneLiveJobPerWorkspace: Normalize is a parameter.
- PlanWorkspace.ScreenIsOwnExactly: follows one session; isRealMarketPlan is any predicate on plans; a state may be shown for any job at any time; type names, delays and error messages of the polling loop are not modelled.
- MarketTables.Tables.Publish: best levels, depth levels, tags and times are not modelled; a failed aggregation is a publication that does not happen.
- MarketTables.ValidatePage: prices are reals, so NaN and infinities do not occur, and lengths count characters.
- MarketCollector.MoveKeepsPool: starts after page one was appended; a changed page count is a failed fetch. Collect fails a batch for which a failure was reported, complete or not.
- ConversationService.MemoryRepository.PutMessage: message times, metadata and operations are not modelled.
- ConversationService.Service.SendMessage: runs alone; an external authorizer is not modelled, the length of the JSON form is a parameter, and operation and metadata are checked but not stored.
- SendProtocol.StoredOnce: sends that fail the checks before the lookup are no steps; message IDs drawn by the server are fresh; a failing store is not modelled.
- ConversationService.SortByCursor: is an insertion sort; the algorithm of the Go library is not modelled.
- WindowLimiter.NoWindowOverfull: times are unbounded integers, so overflow is not modelled.
- MarketGroupOrder.SortMarketGroups: is the insertion sort that the Go library uses on blocks; its merging of blocks is not modelled.
- SdeImport.ImportSucceedsExactly: equality of names is any relation, which SQLite's NOCASE is one of; JSON decoding, the manifest, resource limits and the replacement of the file are not modelled.
- LikeEscape.SearchFindsText: LIKE is modelled on characters without the NUL terminator; ranking and limits of the searches are left out.
- RouteCache.Client.SecureTradeRoutes: one caller at a time; the key of a query is the query itself, so the formatting of its security floor is taken to be injective.
- The market collection schedule and the ESI synchronisation jobs: leases of the same pattern as the two modelled here.
- The PostgreSQL account and conversation stores: they differ from the memory stores in details and would need their own statements.
- Candidate scoring, basket and chain optimisation: heuristics without a stated property.
- HTTP, WebSocket, push, cryptography, and the user interfaces: transport and input/output.
