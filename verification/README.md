# Verified model of the block listener

The block listener reads blocks, hands their transactions to executors over a message broker, and keeps wallets,
tokens and transactions in a database behind a cache. This project models the parts of it where state, time and
failures meet, and proves what they keep over every run.

- **Retry and dead-letter protocol** (`ExecutorProtocol`, `ExecutorSafety`, `ExecutorBounds`, `ExecutorTiming`,
  `ExecutorSpacing`, `ExecutorFates`, `ExecutorFailures`, `ExecutorProcess`). Every handler publishes a successor of
  its message and only then acknowledges the message. The broker is a list of message copies, each with its place;
  deliveries, executions, publishes, acknowledgements, rejected publishes, crashes, dead recovery and the clock
  interleave freely. Proved: live copies are conserved exactly (one per accepted message, plus one per delivery cut
  off between publish and acknowledgement), a budget that bounds executions and handler runs over every run, the
  exactness of that bound, the shape of the messages in each queue, and a lower bound on when each retry runs, worked
  out for both backoffs in use; without crashes also how the executions of one message follow each other. Nothing is
  discarded without a rejected publish or completed without an execution, a crash gives every delivery back, and with
  a direct publication no message is ever stuck. The handlers themselves are methods, each shown to be two protocol
  steps. `id`, `firstFailure` and the log are history: no step depends on them.
- **Queue topology** (`Topology`, `Bindings`, `ExecutorRouting`). Names are built by adding prefixes and taken apart
  by removing first occurrences. Proved: exactly for which queue names that round trip works, where each executor's
  channels lead, which queue each message reaches, and what this does to the protocol. In the repository's own tables
  the process channels of the two transaction executors name publications that do not exist: no retry copy of theirs
  is ever executed, and in a crash-free run what has failed once is neither executed again nor completed. With a crash
  it can be, as a concrete run shows.
- **Block cursor** (`Decimals`, `BlockCursor`). Saves are not waited for and restarts resume from the string-greatest
  stored height. Proved: no gap over any run, that every height handed over is saved unless its save fails, when the
  resumed height is the numeric maximum, and over every run exactly which restarts that find nothing stored leave a
  gap.
- **Read-through cache** (`CachedRepository`, `CachedWallets`). Proved: answers are stale by less than one TTL and the
  latency of one fill, and `undefined` is answered only for ids never saved; while the cache is down they are current.
  Merging a wallet on that repository never goes wrong by staleness: a wallet rebuilt from the cache has a string for
  its `_id`, and the database refuses to save it. So, for messages handled one at a time, the collection is the one
  that merging without a cache gives, the attempts that hit the cache having failed; the price is that a wallet cannot
  be updated again before the entry that its last missed lookup left expires. One entry refuses at most five of a
  message's eleven executions, though, and never brings it to the dead queue alone (`WalletRetries`).
- **Wallet merging** (`Wallets`, `WalletOverlap`). Proved: for messages handled one at a time, tags and relations
  converge over every order and repetition, and exactly when the wallet type does. The subscription takes 20 messages
  at once, and handlers that overlap can undo each other's merges: proved for every interleaving is which merges a
  wallet ends up with, and that all of them survive exactly when each handler looked the wallet up after every save of
  it before its own.
- **Algorithms** (`Amounts`, `SwapValues`, `PriceBuckets`, `Flatten`, `Paging`). Proved: when scaling amounts down and
  up is exact and how far off it is otherwise, which transfer gives a swap its value, when the two reported values of
  a swap agree and are exact, order independence of the strategies, the bucket of a time and who shares its cached
  price, that flattening is an overlay, exactly when it tells all leaves apart, and what of an object can be recovered
  from it, and that pages partition a collection.

Assumptions about libraries, all of them in the model as inputs or constants: the broker rejects a publish to a
publication it does not know and returns unacknowledged deliveries to their queue; a fetched block is the block asked
for; the database compares strings by character code; bignumber.js divides to 20 decimal places, rounding halves away
from zero, and multiplies exactly; the database refuses an update that changes the `_id` of a stored document, and
serialising an ObjectId to JSON makes a string of it; the checksum of an address is a function. Publishing, saving,
caching and RPC calls may fail at any time, and writes to the price cache land at any time. There is one clock, and it
does not go back.

Where the code and its documentation or tests disagree the code is followed: `maxRetries` of a publisher is not
carried into the retry copy, the channel prefixes are `_retry_` and `_dead_`, and `amount` does not limit dead
recovery.

## Model

| member | source | states |
|---|---|---|
| ExecutorSafety.RunKeepsMessages | src/Infrastructure/Broker/Executor.ts:101-191 | over every run: process-queue retries stay below the default limit plus one and carry the default limit and an error once retried, retry-queue messages have 1 to 11 retries, limit 10 and an error, dead ones start over; bodies never change |
| ExecutorSafety.CopiesConserved | src/Infrastructure/Broker/Executor.ts:101-191 | over every run, crashes included, the live copies of an accepted message number exactly one plus the deliveries interrupted between publish and ack |
| ExecutorSafety.NoLoss | src/Infrastructure/Broker/Executor.ts:101-191 | every accepted payload is at all times queued, unacked, completed or nacked, with its body unchanged |
| ExecutorSafety.ExactlyOneCopy | src/Infrastructure/Broker/Executor.ts:101-191 | without crashes no message is duplicated or lost |
| ExecutorFates.AcceptedMessage | src/Infrastructure/Broker/Executor.ts:28-43 | a published message is queued at once with the limit its publisher asked for, no retries, no error, due immediately |
| ExecutorFates.FailedMessage | src/Infrastructure/Broker/Executor.ts:125-148 | a failure hands on the payload with one more retry, its own error, the default limit and a due time of exactly now plus the backoff; a DirectToDead goes to the dead queue, marked with the error, as a fresh message |
| ExecutorFates.FatesHaveCauses | src/Infrastructure/Broker/Executor.ts:101-112 | over every run, crashes included, nothing is discarded unless a publish was rejected, and nothing completed unless an execution succeeded |
| ExecutorFates.NoLossUnrejected | src/Infrastructure/Broker/Executor.ts:101-191 | as long as no publish is rejected, every accepted payload is queued, at a handler, or completed |
| ExecutorFates.NothingWithoutExecution | src/Infrastructure/Broker/Executor.ts:101-112 | over every run, a copy is completed only if it was executed with its own retries, and nothing leaves the process queue unexecuted |
| ExecutorFates.InterruptReturns | src/Infrastructure/Broker/Executor.ts:101-112 | a crash puts a delivery of any queue and any progress back into that queue, message unchanged |
| ExecutorFates.InterruptRedelivers | src/Infrastructure/Broker/Executor.ts:101-112 | and the same handler gets the same message again |
| ExecutorFates.SuccessCompletes | src/Infrastructure/Broker/Executor.ts:101-112 | a successful execution completes its message and publishes nothing |
| ExecutorFates.RejectionDiscards | src/Infrastructure/Broker/Executor.ts:101-112 | a rejected publish discards the message of any queue and publishes nothing |
| ExecutorFates.LogTells | src/Infrastructure/Broker/Executor.ts:101-191 | each event of the history stands for exactly the actions that it names |
| ExecutorFates.NeverStuck | src/Infrastructure/Broker/Executor.ts:101-232 | with a direct publication, after any run without rejections, crashes included, every accepted message can still be completed with its body |
| ExecutorBounds.ExecutionsBounded | src/Infrastructure/Broker/Executor.ts:118-178 | over every run, executions are at most one generation per acceptance, dead recovery and crash duplicate, plus one per delivery a crash cut short |
| ExecutorBounds.HopsBounded | src/Infrastructure/Broker/Executor.ts:101-178 | the same bound, doubled, on all handler runs that do not merely wait: the termination measure of the protocol |
| ExecutorBounds.CrashFreeExecutionsBounded | src/Infrastructure/Broker/Executor.ts:36-41 | without crashes at most 11 executions and 22 handler runs (1 and 2 if not retriable) for each entry into the process queue, whatever the publisher's maxRetries |
| ExecutorBounds.PersistentFailure | src/Infrastructure/Broker/Executor.ts:137-178 | the bound is reached: a message that keeps failing is executed exactly 11 times and ends dead, for every maxRetries its publisher sets, which is what was asked for exactly if it is 10; and each of these executions starts exactly when the backoffs before it are over |
| ExecutorTiming.RunTimed | src/Infrastructure/Broker/Executor.ts:114-178 | over every run and any backoff, an execution that carries retries starts no earlier than the first failure plus all delays so far |
| ExecutorFailures.RetryAfterFirst | src/Infrastructure/Broker/Executor.ts:114-178 | over every run, crashes included, an execution that carries retries comes at least all delays so far after an execution of the same message that carried none |
| ExecutorTiming.DefaultBackoffExact | src/Infrastructure/Broker/Executor.ts:46-47 | the default delay is 5 seconds and the integer root of 8^retry 10^6 milliseconds, for every retry |
| ExecutorTiming.DefaultDelaysTotal | src/Infrastructure/Broker/Executor.ts:46-47 | the sum of the default delays, from below and, within a seventh of 8^(retries / 2) milliseconds, from above |
| ExecutorTiming.TxDelays | src/App/UseCases/ProcessTx.ts:25-27 | the sum of the delays of the transaction backoff |
| ExecutorTiming.TxRetriesSpaced | src/App/UseCases/ProcessTx.ts:25-27 | with the transaction backoff, the execution carrying retries = j starts at least (2^j - 1 + 60j) seconds after the first failure; the two executors that pass it do not retry in the repository's own topology, where this holds for want of retries |
| ExecutorTiming.DefaultRetriesSpaced | src/Infrastructure/Broker/Executor.ts:46-47 | with the default backoff of the token and wallet executors, the execution carrying retries = j starts at least 3.828 (8^k - 1) / 7 + 5j seconds after the first failure, where k = j / 2, and 8^k seconds later still for odd j |
| ExecutorSpacing.ExecutionsSpaced | src/Infrastructure/Broker/Executor.ts:118-178 | over every crash-free run, the executions of a message not recovered carry 0, 1, 2, ... retries, and the backoff of each lies before the next |
| ExecutorSpacing.DeadAfterEleven | src/Infrastructure/Broker/Executor.ts:157-163 | in such runs a message that no DirectToDead sent there is in the dead queue only after exactly 11 executions |
| ExecutorTiming.RetryManagerPassesOn | src/Infrastructure/Broker/Executor.ts:157-178 | the retry manager passes a message on unchanged exactly when it can be retried, waiting while it is early |
| ExecutorTiming.RecoveredMessage | src/Infrastructure/Broker/Executor.ts:130-163 | dead-lettering then recovering gives the body back as a fresh message, marked with an error exactly by DirectToDead |
| ExecutorProcess.Handlers.ExecutionWrapper | src/Infrastructure/Broker/Executor.ts:101-112 | a handler run settles its delivery once and is one publish or success step followed by one settle step |
| ExecutorProcess.Handlers.RetryHandler | src/Infrastructure/Broker/Executor.ts:125-148 | publishes the protocol's successor for a failed execution and leaves the delivery to be settled |
| ExecutorProcess.Handlers.RetryManager | src/Infrastructure/Broker/Executor.ts:150-191 | each of its three branches is the protocol's forward step, settled once; it fails exactly when the publish is rejected |
| ExecutorProcess.Handlers.RecoverDead | src/Infrastructure/Broker/Executor.ts:214-232 | recovers the message whether or not the amount has been reached; only the counter stops |
| Topology.RetryNameStripped | src/Infrastructure/Broker/Rabbitmq/Utils/ConfigCreation.ts:119-121 | stripping undoes the retry prefix exactly for names without "_dead_" inside or "dead_" in front |
| Topology.DeadNameStripped | src/Infrastructure/Broker/Rabbitmq/Utils/ConfigCreation.ts:119-121 | stripping undoes the dead prefix exactly for names without "_retry_" inside |
| Topology.AddQueuePublications | src/Infrastructure/Broker/Rabbitmq/Utils/ConfigCreation.ts:107-125 | the loop leaves exactly the promised publications over the exchange ones, none overwriting another |
| Topology.ExecutorChannels | src/Infrastructure/Broker/Executor.ts:84-94 | retry and dead channels reach the queues their subscriptions consume; the process channel exists exactly if the subscription is named like a consumed queue, and leads back exactly if like its own |
| Topology.RepositoryPublications | src/Infrastructure/Broker/Rabbitmq/Utils/ConfigCreation.ts:49-125 | the repository's own tables yield the publications that `RepositoryDirectRoutes` and `RepositoryExecutions` speak of |
| Topology.RepositoryDirectRoutes | src/Infrastructure/Broker/Rabbitmq/Utils/ConfigCreation.ts:49-65 | of the four subscriptions only the token and wallet ones have a direct publication |
| Topology.ChannelNames | src/Infrastructure/Broker/Executor.ts:84-94 | the names of the retry, dead and process channels, which never coincide with each other or the subscription |
| Bindings.MessagesReachExecutors | src/Infrastructure/Broker/Rabbitmq/Utils/ConfigCreation.ts:28-47 | each message that an executor handles reaches exactly its queue by way of its exchange; those about saves and updates reach none |
| Bindings.ReachedAreDeclared | src/Infrastructure/Broker/Rabbitmq/Utils/ConfigCreation.ts:72-125 | every queue that a publication reaches is declared |
| Bindings.SubscriptionsAreDeclared | src/Infrastructure/Broker/Rabbitmq/Utils/ConfigCreation.ts:72-105 | every queue that a subscription reads, with its retry and dead queue, is declared |
| ExecutorRouting.UnroutedNeverRetries | src/Infrastructure/Broker/Executor.ts:173-178 | without a direct publication no copy that carries retries is ever executed or completed, and nothing is recovered from the dead queue, in any run; more than one execution takes a crash |
| ExecutorRouting.CrashFreeFailsForGood | src/Infrastructure/Broker/Executor.ts:101-178 | without a direct publication and without crashes, a message that has failed once is neither executed again nor completed |
| ExecutorRouting.InterruptedFailureRunsAgain | src/Infrastructure/Broker/Executor.ts:101-112 | a crash between publish and ack can have a failed message executed again and completed while its retry copy stays behind |
| ExecutorRouting.RepositoryExecutions | src/App/PubSub/Messages/TxDiscovered.ts:19-25 | in the repository's topology transaction messages are executed once at most without crashes, though 30 retries are asked for; token and wallet messages up to 11 times per entry |
| ExecutorRouting.RepositoryRetries | src/App/UseCases/Wallets/SaveWallet.ts:21-33 | a token or wallet message that keeps failing is executed exactly 11 times, whatever limit its publisher sets |
| Decimals.ParseUndoesPrint | src/App/UseCases/BlockListener.ts:83 | parsing undoes printing a height, and printed heights are canonical |
| Decimals.EqualLengthOrder | src/Infrastructure/Repository/BlockRepository.ts:40 | on equally long digit strings string order is numeric order |
| BlockCursor.LatestIsGreatest | src/Infrastructure/Repository/BlockRepository.ts:35-48 | the height found is stored and string-greatest, and none is found only in an empty collection |
| BlockCursor.ResumeExactIff | src/App/UseCases/BlockListener.ts:198-209 | the numeric maximum is resumed exactly when no stored height exceeds its first digits |
| BlockCursor.EqualDigitsResume | src/App/UseCases/BlockListener.ts:198-204 | heights of equal length resume exactly |
| BlockCursor.MixedDigitsResume | src/App/UseCases/BlockListener.ts:198-204 | with 9 and 10 stored the listener resumes from 9 |
| BlockCursor.LandedSaveCounts | src/App/UseCases/BlockListener.ts:53-62 | once a save has landed, a restart never resumes before it while all heights have equally many digits |
| BlockCursor.NoGaps | src/App/UseCases/BlockListener.ts:52-110 | over any restarts, failed rounds and lost or late saves the heights handed over form one interval from the first start |
| BlockCursor.HandedAreSaved | src/App/UseCases/BlockListener.ts:77-88 | over every run only heights handed over are saved, and unless a save fails each of them is stored or its save is under way |
| BlockCursor.LandedSaveResumesIff | src/App/UseCases/BlockListener.ts:198-204 | a landed save is resumed right after, whatever the provider says, exactly if no stored height is string-greater |
| BlockCursor.LandedSaveIsResumed | src/App/UseCases/BlockListener.ts:77-88 | after one block whose save landed the restart goes on with the next one, wherever the chain is |
| BlockCursor.EmptyRestart | src/App/UseCases/BlockListener.ts:205-208 | when nothing was stored, a restart leaves no gap exactly for provider blocks within or next to what was handed over |
| BlockCursor.NoGapsIff | src/App/UseCases/BlockListener.ts:52-110 | over any run, from whatever origin, no gap ever arises exactly if each restart that finds nothing stored, after heights were handed over, is given a block that was handed over itself or one of whose next two was |
| BlockCursor.LostSaveLeavesGap | src/App/UseCases/BlockListener.ts:205-208 | the failing input: the only save was lost, and the provider's latest block is two or more further on at the restart |
| BlockCursor.BlockListener.StartBlockchainListener | src/App/UseCases/BlockListener.ts:43-111 | any number of rounds of the listening loop is that many cursor steps after the start step; the saves it begins are those of the heights handed over, in order, one for each block fetched |
| CachedRepository.SaveKeyApart | src/Infrastructure/Repository/CachedMongoBaseRepository.ts:26-32 | a key written by save is never the key of a lookup |
| CachedRepository.LookupKeysIdentify | src/Infrastructure/Repository/CachedMongoBaseRepository.ts:26-32 | lookups with equal keys ask for the same id, in whichever order its fields are written |
| CachedRepository.LookupKeysAre | src/Infrastructure/Repository/CachedMongoBaseRepository.ts:26-32 | the key of a lookup, in either order of the fields |
| CachedRepository.OrdersApart | src/Infrastructure/Repository/CachedMongoBaseRepository.ts:26-32 | the two orders have different keys |
| CachedRepository.CollectionsApart | src/Infrastructure/Repository/CachedMongoBaseRepository.ts:30-32 | collections without a dot in their names share no key |
| CachedRepository.AnswersBoundedStale | src/Infrastructure/Repository/CachedMongoBaseRepository.ts:34-55 | every answer was held for its id less than a TTL and a fill's latency earlier, and at that very time if it was not cached; undefined is answered exactly for ids never saved |
| CachedRepository.OutageAnswersCurrent | src/App/Services/Cache/RedisCache.ts:35-53 | over every run, an answer asked for while the cache cannot be read does not come from it and is held at that very time |
| CachedRepository.CachedIsStored | src/Infrastructure/Repository/CachedMongoBaseRepository.ts:34-48 | what a lookup finds in the cache is in the collection too, so saving it is an update |
| CachedRepository.StaleUntilExpiry | src/App/Services/Cache/RedisCache.ts:55-59 | after an update that looked the document up, the old one is still answered exactly while less than 120 seconds have passed |
| CachedRepository.Client.FindOne | src/Infrastructure/Repository/CachedMongoBaseRepository.ts:34-48 | a call is a find step, followed by its fill exactly on a miss that found something; it answers the entry if the cache can be read and the entry lives, else the stored document, and changes nothing but the filled entry |
| CachedRepository.Client.SaveOne | src/Infrastructure/Repository/CachedMongoBaseRepository.ts:49-55 | a call writes the collection and then one cache entry, each exactly as stated, or writes neither and fails, exactly for an item from the cache or a database that is down |
| CachedWallets.SaveWallet.Execute | src/App/UseCases/Wallets/SaveWallet.ts:35-67 | handling a message is a lookup with its fill and a save of the merged wallet on the repository, and resolves exactly if the address does, nothing fails and the wallet was not found in the cache |
| CachedWallets.CachedIsUncached | src/Infrastructure/Repository/MongoBaseRepository.ts:81-96 | over any messages handled one at a time, however close, among any lookups, lost or late fills and cache outages, the collection is that of the same attempts without a cache, those that hit it having failed |
| CachedWallets.CachedKeepsSaved | src/App/UseCases/Wallets/SaveWallet.ts:35-67 | over any such run a wallet holds the tags and relations of exactly the messages saved for it: no merge is lost to the cache |
| CachedWallets.CachedConvergence | src/App/UseCases/Wallets/SaveWallet.ts:35-67 | runs through the cache that saved the same messages agree on tags and relations |
| CachedWallets.CachedAliasAndType | src/App/UseCases/Wallets/SaveWallet.ts:108-114 | through the cache the alias is that of the last saved message with one, none if there is no such message, and the type that of the last saved message |
| CachedWallets.OtherOrderFillsApart | src/App/UseCases/SaveTxOfInterest.ts:66-69 | lookups that name the chain first leave the entries of SaveWallet alone |
| CachedWallets.RefusedUntilExpiry | src/Infrastructure/Repository/CachedMongoBaseRepository.ts:34-55 | after a message that looked a stored wallet up past the cache, a next one is merged exactly when it comes a TTL or more later |
| WalletRetries.EntryRefusesFew | src/Infrastructure/Broker/Executor.ts:46-47 | over every crash-free run, at most 5 executions of a message not recovered can find one and the same cache entry alive |
| WalletRetries.FiveAreRefusable | src/Infrastructure/Broker/Executor.ts:46-47 | five are possible: in a run without needless delay the first five executions find the entry alive |
| WalletRetries.EntryAloneNeverBuries | src/App/UseCases/Wallets/SaveWallet.ts:21-33 | when a wallet message gets to the dead queue, at least 6 of its 11 executions lie outside the life of any one cache entry |
| WalletOverlap.SavesDecide | src/App/UseCases/Wallets/SaveWallet.ts:43-58 | over every interleaving of handlers the collection is decided by the saves: each puts its merge into the wallet as it was after the saves its lookup saw |
| WalletOverlap.OverlappingRunHolds | src/App/UseCases/Wallets/SaveWallet.ts:43-58 | at the end of any run a wallet holds exactly the tags and relations of the last save's message and of those kept by what its lookup saw |
| WalletOverlap.KeptDecideAlias | src/App/UseCases/Wallets/SaveWallet.ts:112-114 | the alias is that of the last kept save that has one |
| WalletOverlap.LastSaveDecidesType | src/App/UseCases/Wallets/SaveWallet.ts:108-111 | the type is that of the last save |
| WalletOverlap.AllKeptIff | src/Infrastructure/Broker/Rabbitmq/Utils/ConfigCreation.ts:61-64 | all merges into a wallet survive exactly if every handler looked it up after all saves of it before its own |
| WalletOverlap.SaveDropsIff | src/Infrastructure/Repository/MongoBaseRepository.ts:81-86 | a save takes a tag or relation away exactly if neither its message nor the wallet it had looked up has it |
| WalletOverlap.OverlapLosesTags | src/App/UseCases/Wallets/SaveWallet.ts:59-97 | the failing input: of two messages for a new wallet that are looked up before either is saved only the second one's tags remain |
| WalletOverlap.UninterruptedIsHandle | src/App/UseCases/Wallets/SaveWallet.ts:35-67 | a message handled without interruption is its lookup, its fill and its save in a row |
| Wallets.Wallet.AddTag | src/App/Entities/Wallet.ts:115-129 | appends a tag of that name, with its own time or the present one, unless one of that name is present, and changes nothing else |
| Wallets.Wallet.AddRelation | src/App/Entities/Wallet.ts:93-106 | appends the relation, with its own time or the present one, unless one of that address and type is present, and changes nothing else |
| Wallets.TagsMerged | src/App/Entities/Wallet.ts:115-129 | adding names gives the union of names, keeps them unique and keeps the old list in front |
| Wallets.RelationsMerged | src/App/Entities/Wallet.ts:93-106 | adding relations gives the union of their keys, keeps them unique and keeps the old list in front |
| Wallets.NewTagsAre | src/App/Entities/Wallet.ts:115-129 | every tag added has a name of the message that was not there, and the time of the merge |
| Wallets.NewRelationsAre | src/App/Entities/Wallet.ts:93-106 | every relation added is the first one of its key in the message, with its transaction and time, and its key was not there |
| Wallets.SameWalletIff | src/App/UseCases/Wallets/SaveWallet.ts:165-179 | messages are about one wallet exactly if they are for one chain and their names resolve alike |
| Wallets.AttemptsExtend | src/App/UseCases/Wallets/SaveWallet.ts:69-130 | after any attempts a wallet holds what it had and the tags and relations of exactly the saved messages |
| Wallets.Convergence | src/App/UseCases/Wallets/SaveWallet.ts:69-130 | histories that saved the same messages in any order and number agree on tags and relations |
| Wallets.LastAliasWins | src/App/UseCases/Wallets/SaveWallet.ts:112-114 | after any attempts the alias is that of the last saved message that has one |
| Wallets.AliasStays | src/App/UseCases/Wallets/SaveWallet.ts:112-114 | and without such a message the one the wallet had |
| Wallets.LastTypeWins | src/App/UseCases/Wallets/SaveWallet.ts:108-111 | the type is that of the last saved message, unknown if it has none |
| Wallets.TypeStableIff | src/App/UseCases/Wallets/SaveWallet.ts:108-111 | redelivery never changes the type exactly when all saved messages agree on it |
| Wallets.RedeliveryResetsType | src/App/UseCases/Wallets/SaveWallet.ts:108-111 | the failing input: redelivering the first of two messages with different types takes the type back |
| Amounts.RoundTripError | src/App/Utils/Amount.ts:3-9 | scaling down and up is off by at most half of 10^(decimals - 20) |
| Amounts.RoundTripIff | src/App/Utils/Amount.ts:3-9 | it is exact exactly for 20 decimals or fewer, or multiples of the power of ten that does not fit |
| Amounts.RoundingError | src/App/Utils/Amount.ts:3-9 | a quotient is off by at most half, and away from zero if by exactly half |
| SwapValues.GetTokenValueFromLogs | src/App/Services/TxProcessor/Strategies/DexSwapProcessor.ts:168-190 | the value of the first transfer of the earliest swap that has one; None exactly if no swap and transfer match |
| SwapValues.PairEvents | src/App/Services/TxProcessor/Strategies/DexSwapProcessor.ts:18-19 | a pair is a swap and a transfer of the token, by their signatures |
| SwapValues.DirectionIrrelevant | src/App/Services/TxProcessor/Strategies/DexSwapProcessor.ts:179-184 | a transfer counts to or from the pair alike |
| SwapValues.SpellingIrrelevant | src/App/Utils/Address.ts:6-9 | addresses count alike however they are written, and missing ones match nothing |
| SwapValues.GetStableValueFromLogs | src/App/Services/TxProcessor/Strategies/DexSwapProcessor.ts:226-236 | the first stable coin in list order that has a non-empty value, with that value |
| SwapValues.NativeValueExactIff | src/App/Services/TxProcessor/Strategies/DexSwapProcessor.ts:119-147 | if only the native value was in the logs, the reported values agree at the price, and the usd value is the exact worth of the amount exactly for at most 20 decimals or an amount that loses none of its own |
| SwapValues.StableValueAgreesIff | src/App/Services/TxProcessor/Strategies/DexSwapProcessor.ts:127-146 | if only a stable value was, the reported values agree exactly for zero, or for a token without decimals whose price divides the value within 20 places |
| SwapValues.BothValuesReported | src/App/Services/TxProcessor/Strategies/DexSwapProcessor.ts:119-147 | if both were in the logs both are reported as they are, whatever the price; if neither was, nothing is |
| SwapValues.Process | src/App/Services/TxProcessor/TxProcessor.ts:14-22 | the transaction is changed in place as the first strategy that takes it says, and not at all if none does |
| SwapValues.ProcessWith | src/App/Services/TxProcessor/Strategies/NativeTransferProcessor.ts:14-35 | a strategy writes type and data into the transaction exactly if it takes it, and nothing if it declines |
| SwapValues.OrderIndependent | src/App/Services/TxProcessor/TxProcessor.ts:14-22 | under strategies of which no two take the transaction, order and repetition do not matter |
| SwapValues.RegisteredStrategies | src/App/Services/TxProcessor/Strategies/NativeTransferProcessor.ts:14-35 | the two registered strategies give one result in either order: a transfer for what is no contract call, a swap for a swap call whose value is found, else the transaction as it was |
| PriceBuckets.GetTimeRangeForSingleRange | src/App/Services/PriceService/FinnhubApiService.ts:105-115 | the caller's date is truncated in place to its local quarter of an hour, and the range is that second |
| PriceBuckets.AlignedIff | src/App/Services/PriceService/FinnhubApiService.ts:105-115 | buckets are UTC quarters for every time exactly in zones a multiple of 15 minutes off |
| PriceBuckets.BucketUnique | src/App/Services/PriceService/FinnhubApiService.ts:105-115 | in such zones the bucket is the unique quarter that holds the time, and truncating twice is truncating once |
| PriceBuckets.BucketIsLocalQuarter | src/App/Services/PriceService/FinnhubApiService.ts:105-115 | in any zone the bucket is the one quarter of an hour of local time that holds the time |
| PriceBuckets.FinnhubApiService.GetBlockchainNativeTokenUsdPrice | src/App/Services/PriceService/FinnhubApiService.ts:51-91 | answers from the bucket's entry if the cache can be read, or fetches the price and begins to store it without waiting; errors store nothing |
| PriceBuckets.FinnhubApiService.LandWrite | src/App/Services/PriceService/FinnhubApiService.ts:85-88 | a write that was begun lands at any later time, with its lifetime counted from then, or is lost |
| PriceBuckets.ChainsShareBuckets | src/App/Services/PriceService/FinnhubApiService.ts:19-22 | the price fetched for one chain, once its write has landed, is given to another without a fetch exactly in the same bucket within twelve hours, if the cache can be read |
| PriceBuckets.PricesWereFetched | src/App/Services/PriceService/FinnhubApiService.ts:51-91 | over every run every price answered was fetched for that very bucket and is not zero, none is kept beyond twelve hours, and unless a write is refused every fetched price is stored or about to be |
| Flatten.FlattenIsOverlay | src/App/Utils/Misc.ts:10-29 | the result is the initial object overlaid with the leaf map, in spite of the threaded accumulator; it throws exactly at a null |
| Flatten.TakenApartIff | src/App/Utils/Misc.ts:17-27 | a value is taken apart exactly if it prints as "[object Object]"; any other is kept whole |
| Flatten.FlatValuesAreWhole | src/App/Utils/Misc.ts:17-27 | no value of the result is null or would be taken apart |
| Flatten.FlattenInjective | src/App/Utils/Misc.ts:10-29 | with dot-free keys two objects flatten alike exactly when they have the same leaves at the same paths, for every prefix; under the empty one, if neither has a leaf below an empty key at the top level |
| Flatten.FlattenKeepsShape | src/App/Utils/Misc.ts:10-29 | two such objects flatten alike exactly when they are the same but for the order of entries and sub-objects without a leaf |
| Flatten.FlattenRecoverable | src/App/Utils/Misc.ts:10-29 | without empty sub-objects, an object is determined by its flattening up to the order of entries |
| Flatten.PathsKeptIff | src/App/Utils/Misc.ts:16-28 | every leaf is named by its joined path, and nothing else is, exactly if there is a prefix or no leaf lies below an empty key at the top level |
| Flatten.EmptyKeyVanishes | src/App/Utils/Misc.ts:16 | the failing input: under the empty prefix every object with a leaf flattens like the different object that keeps it under an empty key |
| Flatten.DeterminedIff | src/App/Utils/Misc.ts:10-29 | among all objects, the flattening determines an object's leaves exactly if there is a prefix or the object has no leaf |
| Paging.PagesPartition | src/Infrastructure/Repository/MongoBaseRepository.ts:39-61 | pages that reach the total concatenate to the whole collection, and exactly the later ones are empty |
| Paging.PageHolds | src/Infrastructure/Repository/MongoBaseRepository.ts:39-61 | page n holds the n-th run of documents, cut short at the end, with the total of the collection |
| Paging.EverythingOnOnePage | src/Infrastructure/Repository/MongoBaseRepository.ts:46-61 | without a page, or with page 0, everything is page 1; a page size of 0 limits nothing |

## Left out

- The `catch` branch of the retry manager (src/Infrastructure/Broker/Executor.ts:179-190): nothing before it throws, and a rejected publish already leads to nack.
- DefaultRetriesSpaced: the fractional power is taken exactly, as an integer square root, and not in floating point.
- A publish that the broker accepts but reports as rejected, and a handler that goes on running after its delivery was returned to the queue: not modelled.
- The connection loop of createBrokerConnection (src/Infrastructure/Broker/Rabbitmq/Utils/ConfigCreation.ts:135-158): it returns after its first pass, so nothing is retried there.
- Patterns in routing keys: the bindings use none, so that keys are compared as they are.
- RepositoryExecutions: says nothing about crashes, for which `UnroutedNeverRetries` and `ExecutionsBounded` give the bound.
- Parsing of stored heights that were not printed by the listener (signs, spaces, hexadecimal), and the cool-down and price warm-up between blocks: not modelled; a failing round stands for their failures.
- Two listeners of one chain at a time, and a provider that answers with another block than the one asked for: not modelled.
- AnswersBoundedStale: ids are chain names and hexadecimal addresses or hashes, which contain no underscore; for others, joined keys can coincide.
- JSON changes in cached values other than that of `_id` (dates become strings), deletion from the collection, and keys shared with other collections: the rest of a cached value is abstract and each collection has its own names.
- CachedIsUncached: messages are handled one at a time; `WalletOverlap` has those that overlap.
- EntryRefusesFew: a handler's lookup is taken to be at its start. A later one only makes the distances longer, as each backoff counts from the failure.
- Convergence: not of creation times and transactions, which the first message with a key decides, nor of alias and type, which the last one does (`NewRelationsAre`, `LastAliasWins`, `LastTypeWins`).
- Token amounts of a swap by router method (src/App/Services/TxProcessor/Strategies/DexSwapProcessor.ts:69-104): a table of arguments.
- SwapValues.Process: the data that a strategy finds for the transaction is given; validating it against its schema is not modelled.
- Daylight saving: the zone's offset is the same before and after truncation.
- PagesPartition: a page size of 0 makes every page the whole collection (`EverythingOnOnePage`).
- `multicallResultHelper`, `truncateNumberBy` on its own, `uniqueTokenList`, the status aggregation, controllers, schemas, logging, container and configuration: plumbing or easy members.
- RPC, database, broker and cache clients, and address checksums: parameters of the model.
