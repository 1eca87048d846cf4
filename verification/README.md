# OneBook AI: proofs about its protocols and its retrieval arithmetic

This project models the parts of OneBook AI in which a mistake is hardest to see by reading one function, and
proves what they promise:

- **Refresh-token families.** A login starts a family; every refresh consumes the family's one current token
  and issues the next; presenting a consumed token is to revoke the family. `Families` is that machine in its
  simplest form. `MemoryRefreshTokens` is the in-memory store, a class with the store's four maps that index
  each other. `RedisRefreshTokens` is the Redis store as a step system: any number of clients interleave command
  by command, a family key has a version, EXEC fails when the watched version changed, keys expire and
  replies get lost. Both are proved to refine the simple machine. `RedisRotations` says what a rotation answers under
  interleaving and who wins of two calls with one token. `RedisRevocations` is about the Redis store's three calls
  that revoke: what their answers mean, and which faults and interleavings make them miss a family.
- **The job queue.** `JobQueue` is at-least-once delivery over a durable job table with a partial unique index,
  as a step system of workers, callers, the network and the broker, with crashes, store errors that may have
  taken effect, and ambiguous publishes. `JobOutcomes` says what the final rows tell about handlers and
  publishes. `RabbitMQQueue` gives the store and the queue as objects whose methods change them, each proved to be
  a sequence of those steps.
- **The outbox.** `Outbox` is claiming with a lease, SKIP LOCKED, dispatching and releasing, over interleaved
  transactions and a clock.
- **The rate limiter.** `FixedWindow` is the counter script and its key expiry.
- **Retrieval.** `RankFusion` (reciprocal-rank tables and their fusion), `StageOrder` (a comparison with a
  tolerance, sorting and truncating), `ContextPacking` (two greedy packers), over `StageHits`; `Tokenizer` and
  `SparseVectors` (from text to a sparse vector, and comparing two).
- **Evaluation.** `Ndcg` and `Percentiles`.
- **The chat stream.** `ChatStream` is the client's incremental framing of server-sent events (section 9.2.6 of
  the WHATWG HTML Living Standard), and the server's framing that it must undo.

`dafny verify dfyconfig.toml` checks everything. There is one module per file, named after what it models or after
its source file. A class's method that changes state is proved against a specification function (`Effect`, `Step`,
`Claim`, `Accumulated`, ...); the theorems are lemmas about those functions and about all runs of them.

Some properties one might expect are false of the code; the model keeps the code's behaviour, and the lemmas
named here say exactly when the property holds:

- The clean-up of `userFamilies` skips the empty user id, so a revoked family stays listed there exactly if its
  owner is the empty user (`MemoryRefreshTokens.EmptyUserKeepsDeadFamilies`, and the contract of
  `RevokeFamilyLocked`).
- In Redis a caller can be told of a replay while the family lives on, because RotateToken drops the error of its
  revocation (`RedisRevocations.ReplayWithoutRevocation` is such a run, and `RedisRevocations.ReplayCanSpareFamily`
  makes one from any consumed token of a live family). The step that reports the replay leaves the family dead
  exactly if it applies the revocation's pipeline or the family was dead before
  (`RedisRevocations.ReplayRevokesIff`); so it is dead whenever none of the call's commands failed
  (`RedisRevocations.ReplayMeansRevoked`). DeleteToken does return that error, so its success always means a dead family,
  if the token's key was there (`RedisRevocations.DeletionIsComplete`).
- Revoking a user's tokens in Redis kills, of the live families that nobody else ends, exactly those that the user's
  index listed at its SMEMBERS (`RedisRevocations.UserRevocationIff`). A live family is missing from its owner's index
  exactly if that index was dropped as a whole, by expiry or by a revocation's last command, after the family was last
  stored (`RedisRevocations.UnlistedIffDropped`). A login during a revocation is enough: the next revocation succeeds
  and passes the family by (`RedisRevocations.RevocationPassesBy`).
- The tolerance comparison of a stage's hits is a strict total order for every assignment of chunk ids, and the
  output a function of the map, exactly if the stage's weight and number of ranks are separable
  (`StageOrder.StageIsOrderedIff`, `StageOrder.StageIsDeterminedIff`); the condition, `StageOrder.Separable`, is two
  polynomial inequalities at some rank `m`. `StageOrder.LightIsNot` gives an instance outside it, and
  `StageOrder.CloseChainCycles` the cycle. For any other list of scores, fused ones included, the condition is that
  closeness is transitive on them (`StageOrder.ScoresOrderIff`). For one map of hits with distinct ids, the fused
  map included, all iterations give one output exactly if the comparison orders these hits
  (`StageOrder.DeterminedIff`, `RankFusion.FusedIsDeterminedIff`).
- nDCG@k is at most 1 for every judgement exactly if the counted results are distinct
  (`Ndcg.NdcgAtMostOneIff`); `Ndcg.RepeatOvershoots` constructs a judgement for any list with a repetition.
- A created job's message can go missing for ever, and the job then blocks its key. This happens exactly by the
  four steps of `JobQueue.OrphanedBy`: an insert takes effect but its reply is lost, the update after a failed publish
  is lost, the caller stops before its message arrived, or a message nobody waits for is lost
  (`JobQueue.OrphanedIff`, `JobQueue.OrphansAreOrphaned`, `JobQueue.OrphanStays`). Every other active job has its message
  in the system or a caller that will deal with it (`JobQueue.ActiveJobsAreAccountedFor`).
- An acknowledged job need not be done, even if no worker had a fault: its publisher marks it failed when a publish fails
  whose message arrives all the same (`JobOutcomes.AcknowledgedCanBeFailed`). It is done exactly if that did not happen,
  or a worker wrote its outcome afterwards (`JobOutcomes.AcknowledgedIff`).
- Releasing an outbox message does not ask who holds its lease: it reopens the message for everybody, at once
  exactly if the message is undispatched and its new time has come (`Outbox.ReleaseReopens`).
- A window-long interval admits no more than the limit exactly if it starts with a slot
  (`FixedWindow.WindowBoundIff`); any other one can admit twice the limit, never more. The logs this speaks of are
  exactly those that a limiter can have (`FixedWindow.Reproduce`).

Conversely, two branches that look live are not: `BuildSparseVector` skips blank tokens, but no tokenizer yields one
(`Tokenizer.NoTokenIsBlank`), so its values always sum to 1 (`SparseVectors.ValuesSumToOne`). And revokeFamily's own read of
the family key, which it makes when its caller knows no owner, never finds one (`RedisRevocations.SecondReadFindsNoOwner`).

## Model

| member | source | states |
|---|---|---|
| Families.ConsumedOnce | backend/pkg/store/refresh_token_store.go:101-114 | in every legal run, one token is consumed by at most one rotation, whatever families two rotations name |
| Families.DeadForever | backend/pkg/store/refresh_token_store.go:136-154 | a family that was revoked is never created or rotated again |
| Families.HistoryIsChain | backend/pkg/store/refresh_token_store.go:107-120 | a family's history has no repetition, each token was rotated into the next, it holds exactly the tokens issued in the family, and a live family's last one is current |
| Families.NotCurrentMeansConsumed | backend/pkg/store/refresh_token_store.go:101-105 | an issued token of a live family that is not current was consumed by a rotation of that family |
| MemoryRefreshTokens.MemoryRefreshTokenStore.constructor | backend/pkg/store/refresh_token_store.go:46-53 | the empty store is consistent and holds no family |
| MemoryRefreshTokens.MemoryRefreshTokenStore.NewToken | backend/pkg/store/refresh_token_store.go:56-82 | keeps the four maps mutually consistent and adds exactly the new family to the abstract state |
| MemoryRefreshTokens.MemoryRefreshTokenStore.RotateToken | backend/pkg/store/refresh_token_store.go:85-121 | keeps the four maps consistent, and does to the families and answers exactly what the family machine says, errors, expiry and failed generation included |
| MemoryRefreshTokens.MemoryRefreshTokenStore.DeleteToken | backend/pkg/store/refresh_token_store.go:124-134 | keeps the maps consistent and revokes exactly the token's family |
| MemoryRefreshTokens.MemoryRefreshTokenStore.RevokeFamilyLocked | backend/pkg/store/refresh_token_store.go:136-154 | keeps the maps consistent, removes exactly one family, and leaves it listed under some user if and only if its owner is the empty user |
| MemoryRefreshTokens.MemoryRefreshTokenStore.ForgetTokens | backend/pkg/store/refresh_token_store.go:138-143 | deletes exactly the family's tokens, in any order |
| MemoryRefreshTokens.MemoryRefreshTokenStore.ForgetFamily | backend/pkg/store/refresh_token_store.go:146-153 | removes the family from its owner's entry and drops an entry left empty, except for the empty user |
| MemoryRefreshTokens.MemoryRefreshTokenStore.RevokeUserRefreshTokens | backend/pkg/store/refresh_token_store.go:157-168 | keeps the maps consistent and revokes exactly the user's families |
| MemoryRefreshTokens.RunIsLegal | backend/pkg/store/refresh_token_store.go:56-168 | every run of the store's operations is a legal run of the family machine |
| MemoryRefreshTokens.OnlyLastIssuedIsAcceptable | backend/pkg/store/refresh_token_store.go:96-120 | after any run, a token rotates if and only if it is the last one issued in some live, unexpired family |
| MemoryRefreshTokens.RotatesAtMostOnce | backend/pkg/store/refresh_token_store.go:85-121 | over any run, a token rotates successfully at most once |
| MemoryRefreshTokens.ReplayKillsFamily | backend/pkg/store/refresh_token_store.go:101-105 | once a replay is reported, every token ever issued in that family, before or later, is refused as invalid |
| MemoryRefreshTokens.RefusedKillsFamily | backend/pkg/store/refresh_token_store.go:96-105 | once a rotation of an issued token is refused, as a replay or as expired, every token of that family is refused as invalid |
| MemoryRefreshTokens.DeletionKillsFamily | backend/pkg/store/refresh_token_store.go:124-134 | logout: once a token has been deleted, every token ever issued in its family is refused as invalid |
| MemoryRefreshTokens.UserRevocationKillsFamilies | backend/pkg/store/refresh_token_store.go:157-168 | once a user's tokens have been revoked, every token of every family that was live and the user's is refused as invalid |
| MemoryRefreshTokens.OthersUntouched | backend/pkg/store/refresh_token_store.go:56-168 | no operation changes a family other than the one it creates, the token's, or the user's |
| MemoryRefreshTokens.GivenTokenWorks | backend/pkg/store/refresh_token_store.go:56-121 | a token that a login or a rotation returned rotates, for the user it was returned for, up to the expiry it was given and not after, as long as nothing touches its family; when no new token can be generated the caller is told so |
| MemoryRefreshTokens.NewGives | backend/pkg/store/refresh_token_store.go:56-115 | a login returns the token it stores, and a failed generation changes nothing |
| MemoryRefreshTokens.ReplayIffConsumed | backend/pkg/store/refresh_token_store.go:96-105 | a replay is reported if and only if the token was consumed and its family is live and unexpired |
| MemoryRefreshTokens.EmptyUserKeepsDeadFamilies | backend/pkg/store/refresh_token_store.go:146-153 | after a revocation some user's entry still lists the family if and only if its owner is the empty user |
| RedisRefreshTokens.StepInv | backend/pkg/store/refresh_token_store.go:186-368 | every command, fault and expiry keeps the invariant: the committed log is legal, the family keys are its live families, every client's local view is justified |
| RedisRefreshTokens.RefinesFamilies | backend/pkg/store/refresh_token_store.go:217-302 | under every interleaving the committed changes are a legal run of the family machine, whose live families are exactly the family keys |
| RedisRefreshTokens.ConsumedByOneExec | backend/pkg/store/refresh_token_store.go:242-300 | no token is consumed by two committed EXECs, and no two clients are told that they rotated it |
| RedisRefreshTokens.DeletedForever | backend/pkg/store/refresh_token_store.go:242-283 | once a family key is gone, no run recreates it, however many rotations are in flight |
| RedisRefreshTokens.LeftoverTokenIsInvalid | backend/pkg/store/refresh_token_store.go:242-298 | a call with a leftover token of a dead family, interleaved with anything, can only end in ErrInvalidRefreshToken, or in a command error |
| RedisRefreshTokens.RefusalIsJustified | backend/pkg/store/refresh_token_store.go:227-261 | GET refuses only a token that is not current or whose key expired; the WATCH callback refuses if and only if it is not current, and says replay if and only if a live family has another current token |
| RedisRefreshTokens.AloneMatchesMemory | backend/pkg/store/refresh_token_store.go:217-302 | undisturbed, a rotation ends within six commands, with the effect and the answer that the in-memory store gives at that time |
| RedisRefreshTokens.UserRevocationIsComplete | backend/pkg/store/refresh_token_store.go:352-368 | when a revocation of a user's tokens returns whose commands all succeeded, every family listed at its SMEMBERS is dead for good, under every interleaving |
| RedisRefreshTokens.RunKeepsIndex | backend/pkg/store/refresh_token_store.go:186-368 | in every reachable state a user's index lists only families that were created, and a live one only under its owner |
| RedisRefreshTokens.UnlistedIff | backend/pkg/store/refresh_token_store.go:199-212 | step by step, a live family becomes missing from its owner's index exactly when that whole index is dropped, by expiry or a revocation's last command, and is listed again by its next rotation |
| RedisRefreshTokens.StepChanges | backend/pkg/store/refresh_token_store.go:186-368 | what every command, fault and expiry does to the family keys and to the users' indices |
| RedisRotations.RefusalIff | backend/pkg/store/refresh_token_store.go:227-298 | a call is refused at GET if and only if its token has no key, at HGETALL as invalid if and only if the family key is gone or lacks a field and as a replay if and only if it names another token; no other command and no error refuses, and no refusal is taken back |
| RedisRotations.FaultsAreReported | backend/pkg/store/refresh_token_store.go:216-368 | an error of a command is returned to the caller, except that a rotation already refused returns its refusal |
| RedisRotations.ExecIff | backend/pkg/store/refresh_token_store.go:269-287 | in every reachable state an EXEC rotates if and only if its token is still current at that instant; otherwise it changes nothing and the call starts again at GET |
| RedisRotations.OneOfTwoRotates | backend/pkg/store/refresh_token_store.go:222-301 | two calls with one current token, interleaved in any way: at most 13 commands, and then exactly one has rotated, the other was told of a replay, and the family is dead |
| RedisRotations.TokenUnlistedIff | backend/pkg/store/refresh_token_store.go:206-207 | after any run, a token of a live family is missing from the family's token set if and only if that set expired after the token was issued |
| RedisRotations.NewMatchesMemory | backend/pkg/store/refresh_token_store.go:186-214 | NewToken does to the families what the in-memory store does |
| RedisRotations.DeleteAloneMatchesMemory | backend/pkg/store/refresh_token_store.go:305-349 | undisturbed, DeleteToken succeeds within five commands and does to the families what the in-memory store does |
| RedisRevocations.RevocationIsFinal | backend/pkg/store/refresh_token_store.go:324-349 | between revokeFamily's SMEMBERS and its pipeline anything may happen: the pipeline kills the family for good, drops its token set and its entry in the owner's index, and of the keys of its tokens leaves exactly those whose tokens that SMEMBERS did not list |
| RedisRevocations.SecondReadFindsNoOwner | backend/pkg/store/refresh_token_store.go:324-331 | in every reachable state, whenever revokeFamily reads the family key for want of an owner, the key is gone or has no owner either |
| RedisRevocations.ReplayRevokesIff | backend/pkg/store/refresh_token_store.go:288-299 | the step by which a caller is told of a replay leaves the token's family dead if and only if it applies the revocation's pipeline or the family was dead before; without a fault it always applies it |
| RedisRevocations.ReplayMeansRevoked | backend/pkg/store/refresh_token_store.go:217-302 | over any run in which none of the client's commands fails, it is told of a replay only when the token's family is dead for good, whatever others do |
| RedisRevocations.ReplayCanSpareFamily | backend/pkg/store/refresh_token_store.go:288-299 | from any state with a live family and the key of a token that is no longer its current one, a call exists that is told of the replay and revokes nothing, because its SMEMBERS failed |
| RedisRevocations.ReplayWithoutRevocation | backend/pkg/store/refresh_token_store.go:288-299 | a run from the empty store in which a caller is told of a replay and the family is still live |
| RedisRevocations.DeletionIsComplete | backend/pkg/store/refresh_token_store.go:305-322 | a DeleteToken that found the token's key and succeeds has left its family dead for good under every interleaving, and reports anything else only after an error of its own commands; without the key it succeeds and changes nothing |
| RedisRevocations.UserRevocationIff | backend/pkg/store/refresh_token_store.go:352-368 | when a revocation of a user's tokens returns whose commands all succeeded, a family that was live at its SMEMBERS and that nobody else ended is dead if and only if it was listed then |
| RedisRevocations.UnlistedIffDropped | backend/pkg/store/refresh_token_store.go:186-368 | after any run, a live family is missing from its owner's index if and only if the whole index was dropped after the family was last stored |
| RedisRevocations.RevocationPassesBy | backend/pkg/store/refresh_token_store.go:352-368 | a run from the empty store in which a login during a revocation leaves its family unlisted, and the next revocation of the same user succeeds and leaves it live |
| JobQueue.StepInv | backend/pkg/queue/rabbitmq_queue.go:127-274 | every step of a worker, a caller or the network, and every fault, keeps the system's invariant |
| JobQueue.NoJobIsLost | backend/pkg/queue/rabbitmq_queue.go:223-274 | after any run an active job whose message was ever placed has exactly one message, in the main queue or held by one worker |
| JobQueue.SettledIsTerminal | backend/pkg/queue/rabbitmq_queue.go:223-261 | a message is acknowledged or dead-lettered, not both, only when its job is done or failed; a dead-lettered job is failed with attempts >= maxRetries |
| JobQueue.AttemptsAreBounded | backend/pkg/queue/postgres_job_store.go:117-135 | attempts equals the number of committed MarkProcessing updates, and is at most maxRetries plus the job's faults |
| JobQueue.OneActiveJobPerKey | backend/pkg/queue/postgres_job_store.go:58-64 | in every reachable state a key has at most one active job, and a caller told that its job was created can rely on the message having been placed |
| JobQueue.CreationsAreSeparated | backend/pkg/queue/postgres_job_store.go:80-97 | a second job for a key is created only after the first one turned terminal |
| JobQueue.ExistingIsActive | backend/pkg/queue/postgres_job_store.go:68-101 | an existing job is returned only from a query at which it is active and has the caller's key |
| JobQueue.StepDecreases | backend/pkg/queue/rabbitmq_queue.go:223-274 | each fault-free step of a worker leaves strictly less work for its message |
| JobQueue.FaultFreeRunIsBounded | backend/pkg/queue/rabbitmq_queue.go:223-274 | without crashes and store errors workers take at most as many steps on a message as it had work, whatever others do |
| JobQueue.WorkIsBounded | backend/pkg/queue/rabbitmq_queue.go:263-274 | any message has at most 10 * maxRetries + 14 units of work |
| JobQueue.UnsettledCanStep | backend/pkg/queue/rabbitmq_queue.go:223-261 | a placed message that has not settled can take a fault-free step when a worker is available, and one stays available |
| JobQueue.NoWorkMeansSettled | backend/pkg/queue/rabbitmq_queue.go:223-261 | a message without work left has settled and its job is done or failed |
| JobQueue.MessagesSettle | backend/pkg/queue/rabbitmq_queue.go:223-274 | without crashes and store errors workers take at most 10 * maxRetries + 14 steps on a message, it has settled after that many, and from any state fault-free steps within that number settle it |
| JobQueue.AmbiguousInsertOrphans | backend/pkg/queue/postgres_job_store.go:93-101 | an insert that took effect but returned an error makes an orphan, returned to the caller as an existing job |
| JobQueue.OrphanStays | backend/pkg/queue/postgres_job_store.go:68-97 | such a job stays active and unpublished in every step, and no other job of its key is created |
| JobQueue.OrphanedIff | backend/pkg/queue/rabbitmq_queue.go:127-154 | a step turns a job into an orphan if and only if it is one of four: a lost insert reply, a lost update after a failed publish, a caller that stops too early, a lost message nobody waits for |
| JobQueue.CreationOrphansIff | backend/pkg/queue/postgres_job_store.go:80-101 | a new row is an orphan from the start if and only if the reply to its insert was lost |
| JobQueue.OrphansAreOrphaned | backend/pkg/queue/rabbitmq_queue.go:127-154 | after any run a job is an orphan if and only if one of its steps orphaned it |
| JobQueue.ActiveJobsAreAccountedFor | backend/pkg/queue/rabbitmq_queue.go:127-154 | after any run an active job was orphaned, or its message is placed or on its way or a caller still has it in hand, and not both |
| JobOutcomes.StepWrites | backend/pkg/queue/rabbitmq_queue.go:223-274 | each status has its one writer, a new row is queued with no attempts, and only MarkProcessing of an active job counts one |
| JobOutcomes.EndsAreEarned | backend/pkg/queue/rabbitmq_queue.go:238-261 | after any run with any faults a job is done only if its handler once succeeded, and failed only if its handler failed on the last attempt or its publish failed |
| JobOutcomes.AcknowledgedIff | backend/pkg/queue/rabbitmq_queue.go:149-154 | after any run an acknowledged job without a fault of a worker is done if and only if it was not failed by its publisher, or a worker wrote its outcome after that |
| JobOutcomes.AcknowledgedIsDone | backend/pkg/queue/rabbitmq_queue.go:238-261 | so it is done if its publish did not fail |
| JobOutcomes.AcknowledgedCanBeFailed | backend/pkg/queue/rabbitmq_queue.go:149-154 | a run without any fault of a worker in which a publish fails although its message arrives, the job is failed, and the message is acknowledged |
| RabbitMQQueue.PostgresJobStore.FindActive | backend/pkg/queue/postgres_job_store.go:70-79 | finds an active row of the key if and only if there is one |
| RabbitMQQueue.PostgresJobStore.Create | backend/pkg/queue/postgres_job_store.go:80-93 | inserts a queued row with no attempts unless the unique index rejects it; a failing call may have inserted it |
| RabbitMQQueue.PostgresJobStore.CreateOrGetActiveJob | backend/pkg/queue/postgres_job_store.go:68-104 | the rows and the answer for every outcome of its three calls and everything others write in between: an active row if there is one, the new row, the race's winner, or an error |
| RabbitMQQueue.RaceKeepsUnique | backend/pkg/queue/postgres_job_store.go:58-104 | whatever others write in between, a working insert succeeds if and only if no active row of the key has come in, and the row it adds is then the key's only active one; that the others' writes respect the index is taken as given |
| RabbitMQQueue.QuietRace | backend/pkg/queue/postgres_job_store.go:93-101 | without other writers nobody loses the race, and only a lost insert reply leads to the second query's answer |
| RabbitMQQueue.PostgresJobStore.MarkProcessing | backend/pkg/queue/postgres_job_store.go:117-135 | counts one attempt and sets processing, but changes nothing for a missing or terminal job |
| RabbitMQQueue.PostgresJobStore.UpdateState | backend/pkg/queue/postgres_job_store.go:149-157 | when it succeeds the row has the status asked for and nothing else changes; it has no fence, and the index rejects a second active row |
| RabbitMQQueue.RabbitMQJobQueue.EnqueueWithPayload | backend/pkg/queue/rabbitmq_queue.go:127-154 | is a sequence of the caller's steps; the answer, the rows and the main queue for every outcome of its calls and of the publish |
| RabbitMQQueue.RabbitMQJobQueue.PublishOrFail | backend/pkg/queue/rabbitmq_queue.go:149-153 | a failed publish marks the job failed and reports the error, whatever comes of the update |
| RabbitMQQueue.RabbitMQJobQueue.PublishJob | backend/pkg/queue/rabbitmq_queue.go:276-325 | a confirmed publish has placed exactly one message; an unconfirmed one may be on its way |
| RabbitMQQueue.RabbitMQJobQueue.Start | backend/pkg/queue/rabbitmq_queue.go:160-168 | registers exactly the named consumers, at least one, each free to receive, as steps of the system |
| RabbitMQQueue.RabbitMQJobQueue.HandleDelivery | backend/pkg/queue/rabbitmq_queue.go:223-261 | is a sequence of the worker's steps that ends with the message settled; the rows and both queues for every outcome |
| RabbitMQQueue.RabbitMQJobQueue.HandleProcessingError | backend/pkg/queue/rabbitmq_queue.go:263-274 | fails the job once attempts reach maxRetries, else queues it again; dead-letters only when the failure was stored |
| RabbitMQQueue.DeliverySettles | backend/pkg/queue/rabbitmq_queue.go:223-274 | acknowledged only if done or failed, dead-lettered only if failed with retries used up, one attempt per delivery, and without faults requeued if and only if the handler failed with attempts left |
| RabbitMQQueue.DeliveryOutcome | backend/pkg/queue/rabbitmq_queue.go:223-274 | a delivery without faults counts one attempt and leaves the job done and acknowledged if it was handled, failed and dead-lettered if not and attempts have reached maxRetries, queued and requeued otherwise; no other row changes |
| RabbitMQQueue.EnqueueOutcome | backend/pkg/queue/rabbitmq_queue.go:127-154 | without faults an active job of the key is answered and nothing written; otherwise a queued job without attempts is created, and after a failed publish it is failed and the caller told so |
| RabbitMQQueue.ObjectsKeepJobs | backend/pkg/queue/rabbitmq_queue.go:127-274 | whatever methods were called, the objects keep one active row per key, no placed active job without its message, and the retry bound |
| Outbox.GormStore.ClaimOutboxMessages | backend/pkg/store/gorm_store.go:1595-1646 | is a transaction of the step system: claims and returns exactly the selected batch, changes no other row, and logs the claims |
| Outbox.GormStore.MarkOutboxDispatched | backend/pkg/store/gorm_store.go:1648-1658 | is a step of the system: one known message becomes dispatched and unlocked, and its dispatch is logged |
| Outbox.GormStore.ReleaseOutboxMessage | backend/pkg/store/gorm_store.go:1660-1672 | is a step of the system: one known message is unlocked and gets its next availability, now by default, and its release is logged |
| Outbox.StoreRespectsLeases | backend/pkg/store/gorm_store.go:1595-1672 | read off the table, whatever methods were called and other processes did: unreleased claims of a message are more than the later lease apart, none follows a dispatch, and its row counts its claims and shows its lease |
| Outbox.StepInv | backend/pkg/store/gorm_store.go:1595-1672 | every step of interleaved transactions keeps: claims respect leases, rows agree with the log, open batches are disjoint and still as selected |
| Outbox.NeverClaimedAfterDispatch | backend/pkg/store/gorm_store.go:1606-1608 | a dispatched message is never claimed again |
| Outbox.LeaseSeparates | backend/pkg/store/gorm_store.go:1602-1608 | two claims of a message with no release between them are more than the later claim's lease apart |
| Outbox.RunsRespectLeases | backend/pkg/store/gorm_store.go:1605-1636 | in every run the committed claims respect the leases, and the batches of open transactions are disjoint |
| Outbox.ClaimableAfterLease | backend/pkg/store/gorm_store.go:1606-1611 | a message is selected only if undispatched, available and past its lease; and then it is, unless an open transaction has it or the limit is filled by messages available no later |
| Outbox.ClaimOutcome | backend/pkg/store/gorm_store.go:1595-1636 | for the limit and lease the caller asks for, 20 messages and 30 seconds by default: a claim takes only undispatched, due messages of the topic with no younger lease, leaves out such a message only for a lock or a full batch of earlier ones, and locks and counts exactly what it takes |
| Outbox.ReleaseReopens | backend/pkg/store/gorm_store.go:1660-1672 | after a release by anybody the message is eligible at once if and only if it is undispatched and its new time has come |
| FixedWindow.FixedWindowLimiter.Allow | backend/internal/ratelimit/fixed_window.go:57-82 | admits if and only if fewer than limit calls were counted in the slot and the reply arrived; a zero window admits everything |
| FixedWindow.ScriptKeeps | backend/internal/ratelimit/fixed_window.go:13-19 | the stored counter is the number of calls counted in its slot, and expiry never resets a counter inside its own slot |
| FixedWindow.SlotBound | backend/internal/ratelimit/fixed_window.go:68-82 | no slot admits more than limit calls of a key, faults included |
| FixedWindow.SlotExact | backend/internal/ratelimit/fixed_window.go:68-82 | a slot in which no reply was lost admits exactly its first limit calls |
| FixedWindow.SlidingBound | backend/internal/ratelimit/fixed_window.go:68-82 | any interval as long as the window admits at most twice the limit |
| FixedWindow.SlidingBoundIsReached | backend/internal/ratelimit/fixed_window.go:68-82 | twice the limit is admitted, without any fault, in some run of every window-long interval that does not start with a slot |
| FixedWindow.WindowBoundIff | backend/internal/ratelimit/fixed_window.go:68-82 | a window-long interval admits at most the limit in every log that a limiter can have if and only if it starts with a slot |
| FixedWindow.Reproduce | backend/internal/ratelimit/fixed_window.go:57-82 | every ordered log of non-blank keys that keeps the promise, and loses only replies of scripts that ran, is the log of calls to some limiter |
| FixedWindow.LimiterIsExact | backend/internal/ratelimit/fixed_window.go:57-82 | after any calls of the limiter: no slot admits more than the limit or than it counted, a slot without a lost reply admits exactly its first limit calls, any window-long interval at most twice the limit |
| RankFusion.NormalizedFusionWeights | backend/pkg/retrieval/pipeline.go:337-352 | the weights are non-negative and sum to 1, for any two weights |
| RankFusion.WeightsScale | backend/pkg/retrieval/pipeline.go:337-352 | scaling both weights by a positive constant changes nothing |
| RankFusion.WeightsProportional | backend/pkg/retrieval/pipeline.go:341-351 | the normalized weights stand in the proportion of the given ones, a negative one counting as 0 |
| RankFusion.WeightsSwap | backend/pkg/retrieval/pipeline.go:337-352 | swapping the two weights swaps the result, so without a positive weight each stage gets one half |
| RankFusion.MergeStageHit | backend/pkg/retrieval/pipeline.go:162-168 | replaces the table's hit only by a strictly better one |
| RankFusion.AccumulateStageHits | backend/pkg/retrieval/pipeline.go:153-160 | merges a ranked list into the table in place, scored by rank and weight |
| RankFusion.SearchAll | backend/pkg/retrieval/pipeline.go:84-105 | accumulates every query's list into one table |
| RankFusion.TableIsBest | backend/pkg/retrieval/pipeline.go:153-168 | after any number of queries the table has exactly the keys that occurred, each with the first of its hits with the best score |
| RankFusion.TableHitsAre | backend/pkg/retrieval/pipeline.go:153-160 | a table's hit is a hit of one of the lists, with the stage's name and its weight over the rank plus 61 |
| RankFusion.FuseStageHits | backend/pkg/retrieval/pipeline.go:199-227 | joins the two tables key by key whatever the map iteration order, then orders and truncates |
| RankFusion.MergeMetadata | backend/pkg/retrieval/pipeline.go:229-243 | keeps every non-blank base entry and fills the others from the extra map, whatever the iteration order |
| RankFusion.FusedScores | backend/pkg/retrieval/pipeline.go:153-227 | the fused keys are those found by either stage; each fused score is the best dense score plus the best lexical one over all queries, 0 if absent |
| RankFusion.OneHitPerChunk | backend/pkg/retrieval/pipeline.go:170-227 | no two fused hits are of one chunk family, none without a family have the same chunk id, and none without either the same loaded chunk |
| RankFusion.FusedFields | backend/pkg/retrieval/pipeline.go:199-227 | a hit of one stage stays as it is; one of both has the dense fields, and the lexical ones where those are empty |
| RankFusion.MetadataAssociates | backend/pkg/retrieval/pipeline.go:229-243 | merging three metadata maps gives the same entries in either grouping |
| RankFusion.MetadataKept | backend/pkg/retrieval/pipeline.go:229-243 | the merged map has the keys of both, keeps every non-blank base entry and fills the blank ones |
| RankFusion.QueryOrderIsIrrelevant | backend/pkg/retrieval/pipeline.go:84-105 | reordering the queries changes no fused key and no fused score |
| RankFusion.FusedScoreIsBounded | backend/pkg/retrieval/pipeline.go:199-227 | fused scores lie between 0 and 1/61, and one is 1/61 if and only if every stage with weight ranks the hit first in some query |
| RankFusion.StageOutput | backend/pkg/retrieval/pipeline.go:182-197 | with a separable weight and distinct chunk ids a stage's output does not depend on map iteration and is the best topK of its hits |
| RankFusion.FusedIsDetermined | backend/pkg/retrieval/pipeline.go:199-227 | where closeness is transitive on the fused scores and chunk ids differ, the fused output depends on the two tables only and is the best topK |
| RankFusion.FusedIsDeterminedIff | backend/pkg/retrieval/pipeline.go:199-227 | for fused hits with distinct chunk ids, the output at every topK depends on the two tables only if and only if the comparison orders the fused hits |
| StageOrder.OrderedStageHits | backend/pkg/retrieval/pipeline.go:182-197 | lists every hit of the map once, in some iteration order, sorted and then truncated if topK is positive |
| StageOrder.StageIsOrderedIff | backend/pkg/retrieval/pipeline.go:187-192 | the tolerance comparison is a strict total order on every hit list of a stage if and only if its weight and number of ranks are separable |
| StageOrder.StageIsDeterminedIff | backend/pkg/retrieval/pipeline.go:182-197 | a stage's truncated output is a function of the map, for all maps of the stage and every topK, if and only if weight and number of ranks are separable |
| StageOrder.ScoresOrderIff | backend/pkg/retrieval/pipeline.go:187-192 | the comparison orders the hits of a list of scores, for every choice of distinct chunk ids, if and only if closeness is transitive on the scores |
| StageOrder.SettledMapIsDetermined | backend/pkg/retrieval/pipeline.go:182-197 | such hits have one ordered output, whatever the map iteration, at every topK |
| StageOrder.HeavyIsSeparable | backend/pkg/retrieval/pipeline.go:187-192 | a weight of at least 1e-9*(R+59)*(R+60) is separable for R ranks |
| StageOrder.LightIsNot | backend/pkg/retrieval/pipeline.go:187-192 | the weight 2e-6 is not separable for three ranks |
| StageOrder.CloseChainCycles | backend/pkg/retrieval/pipeline.go:187-192 | three scores close one to the next but not end to end make the comparison cyclic for some chunk ids |
| StageOrder.CloseClassesOrder | backend/pkg/retrieval/pipeline.go:187-192 | where closeness of scores is transitive the comparison is a strict total order |
| StageOrder.OutputIsDetermined | backend/pkg/retrieval/pipeline.go:182-192 | hits that the comparison orders come out in the same, fully ordered sequence whatever the map iteration |
| StageOrder.DeterminedIff | backend/pkg/retrieval/pipeline.go:182-192 | for any map of hits with distinct chunk ids, all iterations sort to the same sequence if and only if the comparison orders the hits |
| StageOrder.StageTopIsBest | backend/pkg/retrieval/pipeline.go:182-197 | the truncated output has min(topK, n) hits, depends on the map only, and every hit cut off comes after every hit kept |
| StageOrder.TiesKeepIterationOrder | backend/pkg/retrieval/pipeline.go:187-192 | close hits with one chunk id stay in iteration order, so distinct chunk ids are needed |
| ContextPacking.PackStageHits | backend/pkg/retrieval/pipeline.go:289-331 | packs exactly the first-fit choice: hit by hit, the first of its hash, with text, fitting the budget unless nothing is packed yet, until topK |
| ContextPacking.GreedyIsUnique | backend/pkg/retrieval/pipeline.go:298-329 | two first-fit choices agree on every hit |
| ContextPacking.PackedIsDetermined | backend/pkg/retrieval/pipeline.go:289-331 | so the first-fit specification admits exactly one output |
| ContextPacking.PackedPromises | backend/pkg/retrieval/pipeline.go:289-331 | any output has at most topK hits (4 by default), pairwise different non-empty hashes, and a total text within budget (2200 by default) unless it is a single hit |
| ContextPacking.PackedOutcome | backend/pkg/retrieval/pipeline.go:289-331 | with defaults of 4 hits and 2200 characters: every packed hit is one of the input with text, within the budget or alone, with different content hashes; while there is room, a hit is left out only if it has no text, repeats an earlier hash or would overflow the budget |
| StageHits.TextIs | backend/pkg/retrieval/pipeline.go:310-313 | the text is the hit's own content if that has anything but white space, else the loaded chunk's |
| ContextPacking.PackedFits | backend/pkg/retrieval/pipeline.go:318-325 | at every point of the scan at most topK hits, within budget unless a single one is packed |
| ContextPacking.PackedIsMaximal | backend/pkg/retrieval/pipeline.go:298-325 | when fewer than topK are packed, every omitted hit with text repeats an earlier hit's hash or would overflow the final budget |
| ContextPacking.PackedInOrder | backend/pkg/retrieval/pipeline.go:298-325 | the output is a subsequence of the input in rank order |
| ContextPacking.PackedHashesDiffer | backend/pkg/retrieval/pipeline.go:300-309 | no two packed hits share a non-empty content hash |
| ContextPacking.PackPostRetrievalHits | backend/internal/eval/metrics_post_retrieval.go:170-196 | the longest prefix of the deduplicated hits that fits, always with its first hit; without a budget the hits unchanged |
| ContextPacking.FirstHitsAreFirst | backend/internal/eval/metrics_post_retrieval.go:181-184 | the deduplicated list holds each document's first hit, in rank order |
| ContextPacking.FirstHitsKeepDocuments | backend/internal/eval/metrics_post_retrieval.go:181-184 | and no document is lost |
| ContextPacking.UnknownLengthsCountOne | backend/internal/eval/metrics_post_retrieval.go:185-194 | documents without a positive length count one each, so that many of them are kept |
| ContextPacking.KnownLengthsAddUp | backend/internal/eval/metrics_post_retrieval.go:185-194 | known lengths add up to at most the budget unless one document is kept, and the next document would not fit |
| Ndcg.BuildRelevantMap | backend/internal/eval/metrics_retrieval.go:716-730 | holds exactly the last positive judgement of each query and document |
| Ndcg.JudgedIsLast | backend/internal/eval/metrics_retrieval.go:716-730 | a judgement is that of the last positive entry for the query and document, and 0 without one |
| Ndcg.Dcg | backend/internal/eval/metrics_retrieval.go:771-778 | the loop that skips irrelevant results computes the full discounted sum |
| Ndcg.Idcg | backend/internal/eval/metrics_retrieval.go:787-790 | the discounted sum of the ideal ranking |
| Ndcg.NdcgAtK | backend/internal/eval/metrics_retrieval.go:764-795 | the quotient of the two sums, truncated first by the results and then by the ideal list, 0 without relevant documents |
| Ndcg.IdealRanking | backend/internal/eval/metrics_retrieval.go:779-783 | the descending arrangement of the map's values |
| Ndcg.LeadIsKept | backend/internal/eval/metrics_retrieval.go:764-795 | a list ahead in all plain prefix totals is ahead in the discounted sum, for every positive non-increasing discount factor |
| Ndcg.PrefixTotals | backend/internal/eval/metrics_retrieval.go:764-795 | distinct results never have a larger prefix total than the ideal ranking |
| Ndcg.NdcgAtMostOne | backend/internal/eval/metrics_retrieval.go:764-795 | nDCG@k is between 0 and 1 whenever the counted results have distinct documents, for every k |
| Ndcg.NdcgAtMostOneIff | backend/internal/eval/metrics_retrieval.go:764-795 | nDCG@k is at most 1 for every judgement if and only if the counted results are distinct |
| Ndcg.RepeatOvershoots | backend/internal/eval/metrics_retrieval.go:764-795 | for any list with a repetition among the counted results, a judgement under which it scores above 1 |
| Ndcg.NdcgIsOneIffIdeal | backend/internal/eval/metrics_retrieval.go:764-795 | it is 1 if and only if the counted results are the top relevances in descending order |
| Ndcg.DuplicatesOvershoot | backend/internal/eval/metrics_retrieval.go:771-778 | the smallest instance: one relevant document returned twice |
| Ndcg.GainIsExponential | backend/internal/eval/metrics_retrieval.go:777 | the gain of relevance 1 is 1, and each further degree doubles it and adds 1 |
| Ndcg.MovingUpImproves | backend/internal/eval/metrics_retrieval.go:771-795 | exchanging a more relevant result with an earlier, less relevant one that counts improves the score strictly; a place beyond k weighs nothing |
| Ndcg.WrongOrderScores | backend/internal/eval/metrics_retrieval.go:764-795 | documents judged 3 and 1 in the wrong order score (1 + 7/log2 3)/(7 + 1/log2 3), and 1/7 for k = 1, whatever irrelevant results follow |
| SparseVectors.BuildSparseVector | backend/pkg/retrieval/language.go:90-123 | for every text: indices strictly increase, are exactly those of its tokens, and each value is its count's share of all tokens |
| SparseVectors.CountIsPlaces | backend/pkg/retrieval/language.go:95-106 | the count of an index is the number of places in the token list whose token hashes to it |
| SparseVectors.ValuesSumToOne | backend/pkg/retrieval/language.go:95-118 | the values of every text with a token sum to 1, and only a text without tokens has the empty vector |
| Tokenizer.Tokenize | backend/pkg/retrieval/language.go:69-88 | the tokens of the two tokenizers by language, the Chinese one also when the Latin one finds none |
| Tokenizer.TokensByLanguage | backend/pkg/retrieval/language.go:69-88 | "zh" gives exactly the letters, digits and Han characters that are no punctuation, and pairs; "en" words of at least two letters or digits; any other language the words, or without any the characters |
| Tokenizer.LatinSplits | backend/pkg/retrieval/language.go:161-173 | the Latin tokens of a text are those before and those after any character that is neither letter nor digit |
| Tokenizer.LatinWord | backend/pkg/retrieval/language.go:161-173 | a stretch of letters and digits is one token if it has at least two of them, else none |
| Tokenizer.TokenizeLatin | backend/pkg/retrieval/language.go:161-173 | the fields between white space, once every other stretch is spaced out, of at least two characters |
| Tokenizer.FieldsAreRuns | backend/pkg/retrieval/language.go:161-163 | those fields are the longest alphanumeric stretches of the text, provided that letters and digits are no white space |
| Tokenizer.TokenizeChinese | backend/pkg/retrieval/language.go:175-196 | each character that counts, followed by its pair with the next one |
| Tokenizer.GramsAre | backend/pkg/retrieval/language.go:188-194 | these are exactly the single characters and the adjacent pairs |
| Tokenizer.GramsInOrder | backend/pkg/retrieval/language.go:188-194 | the i-th character is token 2i and its pair with the next one token 2i + 1 |
| Tokenizer.RunesConcat | backend/pkg/retrieval/language.go:177-187 | the characters that count are taken from the text in order |
| Tokenizer.NoTokenIsBlank | backend/pkg/retrieval/language.go:69-99 | no text has a blank token in any language, so the skip never fires |
| SparseVectors.SparseSimilarity | backend/internal/eval/metrics_retrieval.go:574-593 | the two-pointer merge is the dot product over all indices |
| SparseVectors.DotSymmetric | backend/internal/eval/metrics_retrieval.go:574-593 | the similarity is symmetric |
| SparseVectors.SimilarityInUnitInterval | backend/internal/eval/metrics_retrieval.go:574-593 | two built vectors have a similarity in [0, 1], the same both ways |
| Percentiles.MinFloat | backend/internal/eval/stats.go:72-83 | the first of the sorted values, 0 for none |
| Percentiles.MaxFloat | backend/internal/eval/stats.go:85-96 | the last of the sorted values, 0 for none |
| Percentiles.Percentile | backend/internal/eval/stats.go:39-59 | all four branches are the interpolation of the sorted values at one clamped position |
| Percentiles.PercentileOfPermutation | backend/internal/eval/stats.go:49-50 | does not depend on the order of the values |
| Percentiles.PercentileCutOffs | backend/internal/eval/stats.go:43-48 | is the least value for p <= 0 and the greatest for p >= 1 |
| Percentiles.PercentileMonotone | backend/internal/eval/stats.go:39-59 | never decreases in p, across all segments and both cut-offs |
| Percentiles.PercentileInRange | backend/internal/eval/stats.go:39-59 | lies between the least and the greatest value |
| Percentiles.PercentileInterpolates | backend/internal/eval/stats.go:39-59 | at position i + t between two neighbours of any ascending arrangement it is the i-th value plus t times the step to the next |
| ChatStream.MatchStable | frontend/src/pages/ChatPage.tsx:400-402 | the leftmost event boundary of a buffer is unchanged by appending text |
| ChatStream.MatchAtIff | frontend/src/pages/ChatPage.tsx:400 | a boundary is matched exactly where one of the four separators stands, with its length |
| ChatStream.SplitAppend | frontend/src/pages/ChatPage.tsx:396-412 | splitting what is left together with the next read gives the frames of the whole text |
| ChatStream.SplitReassembles | frontend/src/pages/ChatPage.tsx:400-408 | frames and removed boundaries make up the text again, and neither a frame nor what is left holds one of the four separators |
| ChatStream.ParseSSEMessage | frontend/src/pages/ChatPage.tsx:342-362 | the loop folds the lines into the last event name and all data lines |
| ChatStream.ParsedBlock | frontend/src/pages/ChatPage.tsx:342-362 | an event with any number of data lines carries their texts joined by line feeds |
| ChatStream.JoinedLines | frontend/src/pages/ChatPage.tsx:361 | splitting the joined data at line feeds gives back the data lines |
| ChatStream.EndingsDoNotMatter | frontend/src/pages/ChatPage.tsx:343-344 | an event parses the same with any of the three line endings |
| ChatStream.UnnamedFrames | frontend/src/pages/ChatPage.tsx:345-361 | a comment alone is no event, and data without an event name, or with a blank one, is a "message" |
| ChatStream.PaddingIsTrimmed | frontend/src/pages/ChatPage.tsx:351-357 | white space around an event name and before the data does not matter; after the data it stays |
| ChatStream.Drain | frontend/src/pages/ChatPage.tsx:402-408 | the inner loop handles every complete event in order until one throws |
| ChatStream.ReadChatStream | frontend/src/pages/ChatPage.tsx:364-424 | for every way of cutting the text into reads: the deltas, their order, the answer and the exception are those of the whole text |
| ChatStream.ParsedFrame | backend/services/chat/internal/server/server.go:337-347 | the client parses back what the server frames |
| ChatStream.EncodedSplits | backend/services/chat/internal/server/server.go:337-347 | the encoded messages split into exactly their frames, with nothing left over |
| ChatStream.StreamDelivered | frontend/src/pages/ChatPage.tsx:364-424 | whatever messages the server sends, the client dispatches exactly those in that order, until one throws |
| ChatStream.DeltasArriveInOrder | frontend/src/pages/ChatPage.tsx:364-424 | whatever messages the server sends: the caller gets the non-empty texts of the chunk messages in their order, the last final message's answer, and the first exception that a message raises, and nothing after that message |
| ChatStream.LastEventCounts | frontend/src/pages/ChatPage.tsx:415-417 | a last event that is not terminated is handled like one that is |
| ChatStream.TextsInOrder | frontend/src/pages/ChatPage.tsx:377-383 | those texts are, for two lists one after the other, the texts of the first followed by those of the second |

## Left out

- Token and family generation and hashing: generated values are fresh parameters, and a token stands for its hash, so SHA-256 is taken to be injective.
- The mutex of the in-memory store: its methods are atomic, in any order.
- `RedisRefreshTokens`: the retry loop, its commands and its local variables are a client's program counter in a step system, not a method, because other clients act between two commands; the expiry of a key is a step that may happen to any key at any time, so no time-to-live is computed, and the three-second deadline is a fault.
- RedisRefreshTokens.AloneMatchesMemory: asks that Redis has expired the families whose time is up, that owners are not empty and that the token's own key has not expired, since the in-memory store checks the time at the call, does not check for an empty owner and has no separate keys to expire.
- `NewToken` of the Redis store is one step, its pipeline; a failing one either changed nothing or is that step, and only its caller could tell.
- Zombie workers, which keep running after the broker has given their message to another one: `updateState` has no fence against them, so the queue theorems assume one holder per message.
- Orphaned jobs: when they arise is proved exactly, but the code has no repair for them, so no claim of delivery is made.
- Envelope decoding: `DecodeJobEnvelope` and its rejection of a malformed message, payloads, error messages and timestamps of jobs.
- The retry delay and the cancellation of a consumer during it, which is a crash in the model; reconnecting and topology.
- RabbitMQQueue.RabbitMQJobQueue.HandleDelivery: one whole delivery at a time; deliveries interleaved with other consumers are covered by the steps of `JobQueue`.
- RabbitMQQueue.RabbitMQJobQueue.EnqueueWithPayload: one whole call at a time, in which nobody else inserts between its find and its insert; the lost race is in the contract of `PostgresJobStore.CreateOrGetActiveJob` and in the steps of `JobQueue`.
- Outbox.GormStore.MarkOutboxDispatched: placed at the moment the UPDATE proceeds, so it asks that no open transaction holds the row; the same for `ReleaseOutboxMessage`.
- The outbox's SELECT is any answer that the WHERE, ORDER BY, LIMIT and SKIP LOCKED clauses allow; appending a message is a plain insert.
- FixedWindow.FixedWindowLimiter.Allow: calls are atomic and take their time from one non-decreasing clock; a clock that differs between servers is not modelled.
- Floating point: scores, gains, weights and percentiles are exact reals; log2 is any positive non-decreasing discount, and the if-and-only-if for nDCG any strictly increasing one.
- StageOrder.OrderedStageHits: sort.SliceStable is the insertion sort that it is on at most 20 elements; for longer slices its merging is not modelled, and `StageOrder.InOrderIsUnique` says that any correct sort agrees where the comparison is an order.
- Which of several hits with one key and one score is kept depends on the order of the queries; only keys and scores are proved independent of it.
- Hydration of hits, reranking, retrieval modes and query rewriting in the pipeline: one-branch plumbing.
- `recallAndHitAtK` and `mrrAtK`: each is one loop that counts relevant results or finds the first of them; no other function relies on them, and nothing about them goes beyond their loop.
- Tokenizer.Tokenize: NormalizeText, the Unicode classes of letters, digits, punctuation and Han characters, and the hash of a token are parameters; white space is the concrete Unicode set.
- UTF-8 decoding and JSON parsing in the chat stream: the text is already decoded, and what a payload parses to is a parameter.
- ChatStream.StreamDelivered: speaks of messages whose event name has no surrounding space and whose data is one line that starts with no space, as marshalled JSON is.
- The older `redis_queue.go`, drivers, token revoker, middleware, configuration, OCR and all other pages of the front end.
