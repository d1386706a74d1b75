# Verified cores of the Go services

A Dafny model of the state machines inside the services under `apps/`, with proofs of what they
promise. `dafny verify dfyconfig.toml` checks everything.

| module | service | what is modelled |
|---|---|---|
| `EventLog`, `EventSinkProtocol`, `EventSinkSafety`, `EventSinkGiveUp`, `EventSinkExamples` | 12-eventsink | the Kafka to ClickHouse pipeline as a step protocol over any number of processes, its invariants, and two runs of it |
| `EventSinkScript`, `EventSinkTiming`, `EventSinkCluster`, `EventSinkPipeline` | 12-eventsink | the pipeline process: what it says to its environment, how long it takes, the environment, and the code, every call of which is a step of the protocol |
| `Utf8`, `WordScanner` | 01-cli-wordfreq | the streaming word splitter and the scanner that drives it |
| `LruModel`, `LruInclusion`, `LruHistory`, `LruDepartures`, `LruExpiry`, `LruCache` | 05-lru-cache | the cache on values, two capacities side by side, whole runs, and the linked list plus map in the heap |
| `Limits`, `TokenBucket`, `SlidingWindow`, `LimiterStore`, `LimiterBounds` | 03-ratelimiter | both limiters, the evicting store behind them, and what they admit together |
| `Batcher` | 11-clickhouse-sink | the in-memory batcher under every interleaving |
| `WorkerPool` | 04-worker-pool | handlers, queue, dispatcher, workers and recorder under every interleaving |
| `Cursor`, `OrderPages` | 06-pg-service | the cursor token and keyset pagination |
| `Inventory` | 08-grpc-service | stock and reservations |
| `Backoff` | 11-clickhouse-sink, 12-eventsink | the doubling waits between attempts |
| `Basics` | | an option type, bytes and Go's 64-bit integers with their overflow |

How to read it. Code that updates fields, lists or maps in place is a class (`Pipeline`, `List`,
`LruCache`, `Cell`, `Store`, `Queue`, `Recorder`) whose methods are proved equal to a function on values;
the laws are proved about that function, over every run. Concurrent code is a set of steps
(`Enabled`, `Apply`) that may be taken in any order. Answers of the network, of a database, of a clock and
of a context are chosen arbitrarily, or are parameters, and the results are proved to follow from
them. In the event sink a request that failed is kept, and what it asked
for may land at any later time, in part, in full or repeatedly, also when its sender is gone.

Where the code does not do what its comments say:

- The sliding window's constructor promises at most `limit` requests in any trailing period. That holds
  exactly for rules with `2 * limit > period * (limit - 1)`, which for a period in nanoseconds means a limit
  of one in practice: `SlidingWindow.TrailingLimitExactly`. For every other rule
  `TrailingLimitBreaks` names the requests that exceed it. What holds for all rules is `2 * limit - 1`:
  `TwiceTheLimitLessOne`.
- The rate limiters evict idle keys after a ttl that is computed in 64 bits without a check. Nobody can
  observe an eviction exactly when `burst * interval`, or `2 * period`, fits an int64:
  `LimiterStore.EvictionIsInvisible`; `EvictionCanShow` is a rule that is accepted, whose ttl is negative, with
  three events that show it. The token bucket's `ResetAfter` has the same product in it and the
  same condition: `TokenBucket.ResetAfterAlwaysExact`.
- The event sink's guide says that the waits between attempts are capped at ten seconds. The code does not
  cap the first one, so that holds exactly when the configured backoff is at most ten seconds:
  `Backoff.WaitsAreCapped`; with 15 s it fails: `FirstWaitIsNotCapped`. The waits are those of the
  closed form exactly when twice the backoff fits an int64: `ClosedExactly`.
- `Reserve` adds to an int64 without a check. Available plus reserved is constant for a SKU exactly when
  its total fits an int64: `Inventory.ConservedExactly`; `ReservedCanWrap` is a store where it does not.

## Model

| member | source | states |
|---|---|---|
| EventSinkSafety.AtLeastOnce | apps/12-eventsink/internal/pipeline/pipeline.go:137-278 | In every state of every run (crashes and restarts at any step, rebalances, lost acknowledgements, late and partial effects of failed calls, several processes that read the same partition) every record below a committed offset was inserted or dead-lettered and lies in a span of some ledger row; no ledger row covers a record that was not handled; the warehouse and the dead-letter topic hold nothing that is not in the log; a row's record count is the sum of its spans |
| EventSinkSafety.ReplayConfluence | apps/12-eventsink/internal/warehouse/warehouse.go:16-27 | Once the commits cover the log, the deduplicated keys of the warehouse plus those of the given-up records are exactly the keys of the valid records, whatever the batch cuts, crashes and repeats; with nothing given up the warehouse alone has them, and each valid event has a row with its type, instant and id |
| EventLog.SameKeyExactly | apps/12-eventsink/internal/warehouse/warehouse.go:27 | Two events collapse into one row exactly when type, instant and id agree |
| EventSinkSafety.StepKeepsInv | apps/12-eventsink/internal/pipeline/pipeline.go:143-298 | Each of the eighteen kinds of step keeps the invariant that ties the broker, the warehouse, the ledger, the requests ever issued and each process's held batch together |
| EventSinkSafety.RunKeepsInv | apps/12-eventsink/internal/pipeline/pipeline.go:143-172 | Every state of every run satisfies that invariant |
| EventSinkSafety.LandStep | apps/12-eventsink/internal/pipeline/pipeline.go:44-53 | An insert, produce, ledger write or commit that was reported as failed may still land at any later time without breaking the invariant |
| EventSinkGiveUp.OnlyAfterAllAttempts | apps/12-eventsink/internal/pipeline/pipeline.go:232-254 | In every state of every run a valid record is in the dead-letter topic, or in a produce request that may still land there after being reported as failed, only if some process failed to insert one batch with it in exactly as many earlier steps as it has attempts; the steps are returned, in order |
| EventSinkGiveUp.RowsAreTrue | apps/12-eventsink/internal/pipeline/pipeline.go:231-262 | In every state of every run a ledger row, also one that a failed write may still leave, is about a batch: its records and spans are the batch's; it says inserted only if all valid records are in the warehouse, and then counts those that do not decode as dead-lettered; it says dead-lettered only after all attempts to insert failed, and then counts all |
| EventSinkGiveUp.StepKeepsInv | apps/12-eventsink/internal/pipeline/pipeline.go:208-298 | Each step keeps that the phase of a process, each produce request, each letter and each ledger row have those inserts behind them |
| EventSinkGiveUp.RunKeepsInv | apps/12-eventsink/internal/pipeline/pipeline.go:208-298 | So does every run |
| EventSinkSafety.RowCovers | apps/12-eventsink/internal/pipeline/pipeline.go:322-335 | A record of the log lies in a span of a batch's row if and only if it is in the batch, although a span names only its ends |
| EventSinkSafety.BelowPosition | apps/12-eventsink/internal/pipeline/pipeline.go:265-267 | When a batch is settled, everything below the offsets that its commit stores is settled, in every partition |
| EventLog.Partitions | apps/12-eventsink/internal/pipeline/pipeline.go:322-335 | One span per partition of the batch and no other; its ends are the smallest and the largest offset, both in the batch; its count is the number of records of the partition; the counts add up to the batch |
| EventLog.NextOffset | apps/12-eventsink/internal/pipeline/pipeline.go:265-267 | The committed offset is above all offsets of the batch in that partition, and the one before it is in the batch |
| EventLog.EventsContents | apps/12-eventsink/internal/pipeline/pipeline.go:216-228 | The inserted events are the events of the batch's decodable records: all of them and no others |
| EventLog.EventsInOrder | apps/12-eventsink/internal/pipeline/pipeline.go:216-228 | Each decodable record gives one event, in the order of the batch: the events of two batches one after the other are those of the first and then those of the second |
| EventLog.LettersInOrder | apps/12-eventsink/internal/pipeline/pipeline.go:221-247 | The same for the letters of either kind |
| EventLog.LettersContents | apps/12-eventsink/internal/pipeline/pipeline.go:221-247 | Exactly the undecodable records get a letter, and the decodable ones too exactly when the insert was given up |
| EventSinkPipeline.Sort | apps/12-eventsink/internal/pipeline/pipeline.go:216-229 | The first loop of a flush yields the batch's records, its events and the letters of what did not decode |
| EventSinkPipeline.GiveUp | apps/12-eventsink/internal/pipeline/pipeline.go:242-246 | The second loop completes them to the letters of a given-up batch |
| EventSinkPipeline.Pipeline.Poll | apps/12-eventsink/internal/pipeline/pipeline.go:174-199 | A poll asks for as many records as are missing and extends the pending batch by exactly what it gets, as a protocol step, unless the client is closed; the first record of a batch sets its deadline and later ones do not move it |
| EventSinkPipeline.Pipeline.Attempt | apps/12-eventsink/internal/pipeline/pipeline.go:300-306 | One bounded call is one protocol step and takes at most the attempt timeout |
| EventSinkPipeline.Pipeline.Retry | apps/12-eventsink/internal/pipeline/pipeline.go:280-298 | The calls and waits are exactly those of the script: failed calls with the doubling waits behind them, then a success, the last failure, or a wait that the context ended; it is a sequence of protocol steps and takes at most the bound of its attempts and waits |
| EventSinkScript.RoundsAre | apps/12-eventsink/internal/pipeline/pipeline.go:280-298 | In the script of a retry the i-th failed call is followed by the i-th wait of the doubling loop |
| EventSinkScript.RetryOutcome | apps/12-eventsink/internal/pipeline/pipeline.go:280-298 | The answers decide: success exactly with a good answer, exhausted exactly with max(1, MaxAttempts) bad ones and no good one, interrupted exactly with a wait that the context ended |
| EventSinkPipeline.Pipeline.Store | apps/12-eventsink/internal/pipeline/pipeline.go:214-258 | The first half of a flush makes exactly the calls of the script and goes on exactly when the insert succeeded or was given up with a live context and the dead letters, if any, were taken; then every record reached the warehouse or the dead-letter topic |
| EventSinkPipeline.Pipeline.Finish | apps/12-eventsink/internal/pipeline/pipeline.go:260-278 | The second half makes exactly the calls of the script: the ledger row with its spans and counts, and only after it was written the commit of the batch |
| EventSinkPipeline.Pipeline.Flush | apps/12-eventsink/internal/pipeline/pipeline.go:208-278 | The calls and the result follow from the answers. It aborts if and only if a wait was ended by the context, the context was done when the insert was given up, the dead letters were not taken, or the ledger failed max(1, MaxAttempts) times; otherwise its commit was asked for and its result is the answer. Unless it aborts all its records are settled, and after a good commit they were below the committed offsets. It is a sequence of protocol steps and takes at most 2 * (attempts and waits) + 2 * AttemptTimeout |
| EventSinkScript.FlushOutcome | apps/12-eventsink/internal/pipeline/pipeline.go:208-278 | For every way a flush can go, the result is an abort exactly when one of those causes is among the answers, and else the answer to the commit |
| EventSinkScript.GiveUpIsJustified | apps/12-eventsink/internal/pipeline/pipeline.go:232-254 | A flush hands valid records to the dead-letter topic, whether or not that is then reported as failed, only after exactly max(1, MaxAttempts) failed inserts and with the context found live just before; the status of the batch says dead-lettered exactly then |
| EventSinkCluster.CommitCovers | apps/12-eventsink/internal/pipeline/pipeline.go:265-267 | A commit stores for each partition of the batch the offset behind its last record, and for no other partition anything |
| EventSinkPipeline.Pipeline.Turn | apps/12-eventsink/internal/pipeline/pipeline.go:149-164 | The calls of a turn follow from the answers: a poll, a flush exactly when the batch is full or its deadline has come, a look at the context exactly after a failed commit, and a release exactly when nothing is pending. The loop ends if and only if the client is closed, the flush has a cause to abort, or a commit failed while the program was being stopped |
| EventSinkScript.TurnOutcome | apps/12-eventsink/internal/pipeline/pipeline.go:149-164 | For every way a turn can go, it goes on exactly when none of these reasons is among the answers |
| EventSinkPipeline.Pipeline.Run | apps/12-eventsink/internal/pipeline/pipeline.go:143-172 | Whatever the environment answers, the program's history is a run of the protocol, so committed records are settled and the ledger is true in all its states; valid records are given up only with a context found live just before; it returns cleanly if and only if the last exchanges hold no reason for an error, and then nothing is pending and every record below the final positions is settled |
| EventSinkExamples.SomeRunCommits | apps/12-eventsink/internal/pipeline/pipeline.go:143-278 | A run in which a record gets into the warehouse and the ledger and its offset is committed |
| EventSinkExamples.SomeInsertLandsLate | apps/12-eventsink/internal/pipeline/pipeline.go:44-48 | A run in which an insert was reported as failed, its process is gone, and the event arrives |
| Backoff.WaitsAreCapped | apps/12-eventsink/README.md:114 | Every wait between attempts is at most ten seconds if and only if the configured backoff is |
| Backoff.FirstWaitIsNotCapped | apps/12-eventsink/internal/pipeline/pipeline.go:281-296 | With a backoff of 15 s the first wait is 15 s and the second one 10 s |
| Backoff.ClosedExactly | apps/12-eventsink/internal/pipeline/pipeline.go:280-298 | The waits are RetryBackoff and then min(RetryBackoff * 2^(i-1), 10 s) if and only if twice the backoff fits an int64 (or there is only one) |
| Backoff.BackoffIsClosed | apps/12-eventsink/internal/pipeline/pipeline.go:280-298 | The doubling loop waits at most the sum of the closed form, and exactly that without overflow |
| Backoff.AttemptsTimeIs | apps/12-eventsink/internal/pipeline/pipeline.go:280-298 | n attempts take at most n attempt timeouts and the first n - 1 waits |
| EventSinkTiming.FlushBoundIs | apps/12-eventsink/README.md:118-123 | The bound proved for a flush is at most the formula of the guide with the waits in closed form, and equal to it without overflow |
| EventSinkTiming.DefaultsTake44Seconds | apps/12-eventsink/README.md:118-123 | With the default settings a batch is over in 44 s |
| WordScanner.ScanAll | apps/01-cli-wordfreq/internal/wordfreq/scan.go:8-51 | For every input and every way to cut it into reads, driving the split function to the end yields exactly the words of the whole input, none empty, and it terminates |
| WordScanner.ScanIsRight | apps/01-cli-wordfreq/internal/wordfreq/scan.go:12-51 | One call, whatever is still to come: a token is the first word of the rest and moves the position; without a token only separators were skipped; at the end of the input no token means no word is left |
| WordScanner.ScanWords | apps/01-cli-wordfreq/internal/wordfreq/scan.go:12-51 | The two loops compute the specified split |
| WordScanner.FindStart | apps/01-cli-wordfreq/internal/wordfreq/scan.go:13-23 | The first loop stops at the first letter, at a rune that may be cut off, or at the end |
| WordScanner.FindEnd | apps/01-cli-wordfreq/internal/wordfreq/scan.go:25-45 | The second loop ends the word at the first rune that is neither a letter nor a joiner before a letter, and waits when that cannot be decided yet |
| WordScanner.SkipIsSound | apps/01-cli-wordfreq/internal/wordfreq/scan.go:13-23 | What the first loop skips contains no part of a word, whatever follows the buffer |
| WordScanner.EndIsRight | apps/01-cli-wordfreq/internal/wordfreq/scan.go:25-50 | Where the second loop ends a word, the whole input's first word ends, whatever follows the buffer |
| WordScanner.WordsAreMaximalRuns | apps/01-cli-wordfreq/internal/wordfreq/scan.go:8-11 | The words of an input are the texts of all maximal runs of letters and of joiners between two letters, each once and in order |
| WordScanner.OnlyTheseJoin | apps/01-cli-wordfreq/internal/wordfreq/scan.go:57-59 | A rune that is no letter joins two letters into one word exactly if it is U+0027, U+2019 or U+002D, and separates them otherwise |
| WordScanner.TextOfGlyphs | apps/01-cli-wordfreq/internal/wordfreq/scan.go:18-22 | The decoded runes of an input, malformed bytes included, are all of its bytes in order |
| Utf8.FullRuneIsStable | apps/01-cli-wordfreq/internal/wordfreq/scan.go:15-18 | What FullRune accepts decodes the same whatever bytes follow |
| Utf8.WaitingIsNeeded | apps/01-cli-wordfreq/internal/wordfreq/scan.go:15-17 | What FullRune refuses can still become a longer encoding |
| Utf8.DecodeEncode | apps/01-cli-wordfreq/internal/wordfreq/scan.go:18 | Decoding inverts the encoding of section 4 of RFC 3629 for every scalar value |
| Utf8.KnownEncodings | apps/01-cli-wordfreq/internal/wordfreq/scan.go:18 | Encodings of one to four bytes as the standard lists them |
| Utf8.DecodedIsEncoded | apps/01-cli-wordfreq/internal/wordfreq/scan.go:18 | Whatever decodes is the one encoding of a scalar value, or one malformed byte |
| LruInclusion.MoreCapacityNeverHurts | apps/05-lru-cache/lru/lru.go:112-301 | After the same operations on two caches that differ only in capacity, the smaller one's entries are the larger one's restricted to its keys, with equal values and expiries and in the same order, and whatever the smaller one finds next the larger one finds too |
| LruInclusion.StepKeepsInclusion | apps/05-lru-cache/lru/lru.go:144-221 | Each operation keeps that relation, including Gets that hit only in the larger cache, lazy expiry, Remove, Purge and DeleteExpired |
| LruInclusion.RunKeepsInclusion | apps/05-lru-cache/lru/lru.go:144-221 | So does every sequence of operations |
| LruHistory.OrderIsByLastUse | apps/05-lru-cache/lru/lru.go:142-173 | In every run: at most capacity entries, no key twice, sorted by last use |
| LruDepartures.VictimIsLeastRecentlyUsed | apps/05-lru-cache/lru/lru.go:255-276 | When a new key needs room, the entry that goes is the last one, used longest ago; it is reported once, with its value and as expired exactly when it was; all others stay in order behind the new entry |
| LruHistory.HitsAreTrue | apps/05-lru-cache/lru/lru.go:142-164 | A hit of Get or Peek is the live value that an unbounded TTL map under the same operations holds |
| LruDepartures.EveryDepartureIsReported | apps/05-lru-cache/lru/lru.go:238-301 | In every run an operation reports exactly the entries that leave (the one asked for, the expired ones, the oldest one for room, or all), each once, with its own value; the reason is Removed exactly for Remove and Purge, Expired exactly when the entry was expired at that instant, Capacity otherwise; all other entries stay |
| LruDepartures.StepIsExact | apps/05-lru-cache/lru/lru.go:144-221 | The same for each operation on any valid cache |
| LruDepartures.BooksBalance | apps/05-lru-cache/lru/lru.go:238-291 | In every run hits plus misses equal the Gets and the hits are those that found a value; evictions and expirations are the reports with that reason; new keys equal present entries plus evictions, expirations and removals; for each key the insertions that are gone were each reported exactly once, and every report was due, with its value and reason, at one of the operations |
| LruExpiry.FoundUntilExpiry | apps/05-lru-cache/lru/lru.go:102-104 | A value set at instant t, after any operations and before any others but a Set of its key: while it is present Get and Peek find exactly it before t + ttl and nothing from then on; without a ttl always |
| LruExpiry.NothingAppears | apps/05-lru-cache/lru/lru.go:255-266 | Only a Set brings an entry in, and only for its own key |
| LruModel.StepIsValid | apps/05-lru-cache/lru/lru.go:144-221 | Each operation keeps the keys distinct and the size within the capacity |
| LruModel.RunIsValid | apps/05-lru-cache/lru/lru.go:144-221 | So does every sequence of operations |
| LruCache.List.Unlink | apps/05-lru-cache/lru/lru.go:279 | Removing a node from the doubly linked list leaves the others linked in both directions, in order |
| LruCache.List.PushFront | apps/05-lru-cache/lru/lru.go:266 | A pushed node comes first and the rest keeps its order, linked in both directions |
| LruCache.List.MoveToFront | apps/05-lru-cache/lru/lru.go:250 | A moved node comes first and the rest keeps its order, linked in both directions |
| LruCache.LruCache.New | apps/05-lru-cache/lru/lru.go:125-140 | A cache exactly for a positive capacity, empty and coherent |
| LruCache.LruCache.Get | apps/05-lru-cache/lru/lru.go:142-150 | List, map and counters change in place as the specification on values says; the value and the report agree |
| LruCache.LruCache.Peek | apps/05-lru-cache/lru/lru.go:152-164 | The specified answer, and nothing changes |
| LruCache.LruCache.Set | apps/05-lru-cache/lru/lru.go:166-173 | An existing entry is rewritten in place and moved, or a new one is pushed and the oldest one may go, as specified |
| LruCache.LruCache.Admit | apps/05-lru-cache/lru/lru.go:266-275 | The new-key half of Set, with the reason of the eviction |
| LruCache.LruCache.Evict | apps/05-lru-cache/lru/lru.go:278-291 | The node leaves both the list and the map, is counted by its reason and reported |
| LruCache.LruCache.Remove | apps/05-lru-cache/lru/lru.go:175-186 | As specified; the answer tells whether the key was present |
| LruCache.LruCache.Purge | apps/05-lru-cache/lru/lru.go:188-197 | Every entry goes and is reported, from the back to the front |
| LruCache.LruCache.DeleteExpired | apps/05-lru-cache/lru/lru.go:199-221 | The walk that removes nodes under its feet removes exactly the expired entries, keeps the order of the rest and counts them |
| SlidingWindow.DecisionIs | apps/03-ratelimiter/ratelimit/slidingwindow.go:52-65 | Every decision names the limit; an admission has no waiting time and is counted, a rejection has a positive one, nothing remaining, and is not counted |
| SlidingWindow.RetryAfterIsExact | apps/03-ratelimiter/ratelimit/slidingwindow.go:52-95 | After a decision that rejects, with any number of requests and window changes in between: every decision before now + RetryAfter rejects, and any at or after it admits |
| SlidingWindow.PassesFrom | apps/03-ratelimiter/ratelimit/slidingwindow.go:85-95 | Both branches of retryAfter name the exact first instant that passes, and never divide by zero |
| SlidingWindow.ResetAfterIsExact | apps/03-ratelimiter/ratelimit/slidingwindow.go:97-107 | After any decision the whole limit is there again, and the estimate zero, exactly from now + ResetAfter on |
| SlidingWindow.RemainingIsExact | apps/03-ratelimiter/ratelimit/slidingwindow.go:62 | After any decision, of n more requests at the same instant exactly min(n, Remaining) are admitted |
| SlidingWindow.EstimateWithinLimit | apps/03-ratelimiter/ratelimit/slidingwindow.go:52-83 | The estimate never exceeds the limit in any run |
| SlidingWindow.TwiceTheLimitLessOne | apps/03-ratelimiter/ratelimit/slidingwindow.go:52-83 | Any interval of one period has at most 2 * limit - 1 decisions that admit, whatever came before |
| SlidingWindow.TrailingLimitExactly | apps/03-ratelimiter/ratelimit/slidingwindow.go:27-28 | The promise of at most limit requests per trailing period holds if and only if 2 * limit > period * (limit - 1) |
| SlidingWindow.TrailingLimitBreaks | apps/03-ratelimiter/ratelimit/slidingwindow.go:27-28 | For every other rule, limit requests in the last nanosecond of one window and one in the last but one of the next are within one period, and all limit + 1 are admitted |
| SlidingWindow.Cell.Advance | apps/03-ratelimiter/ratelimit/slidingwindow.go:67-78 | The window becomes the aligned one that holds now; the counters stay, move on by one window or are cleared, in place |
| SlidingWindow.Cell.Hit | apps/03-ratelimiter/ratelimit/slidingwindow.go:52-65 | The counters and all fields of the decision are as specified |
| TokenBucket.AtMostBurstPlusRate | apps/03-ratelimiter/ratelimit/tokenbucket.go:63-88 | Any interval [s, t] admits at most burst + floor((t - s) / interval) requests of a key, whatever came before |
| TokenBucket.DecisionIs | apps/03-ratelimiter/ratelimit/tokenbucket.go:63-76 | Every decision names the burst; an admission takes one token and has no waiting time, a rejection finds none and has a positive one |
| TokenBucket.RetryAfterIsExact | apps/03-ratelimiter/ratelimit/tokenbucket.go:63-88 | After a rejection every request before now + RetryAfter is rejected and changes nothing, and any at or after it is admitted |
| TokenBucket.ResetAfterIsExact | apps/03-ratelimiter/ratelimit/tokenbucket.go:74 | After a decision the bucket is full exactly from now + ResetAfter on, if and only if the worth of the missing tokens fits an int64 |
| TokenBucket.ResetAfterAlwaysExact | apps/03-ratelimiter/ratelimit/tokenbucket.go:74 | That is so after every decision of every run if and only if burst * interval fits an int64 |
| TokenBucket.RemainingIsExact | apps/03-ratelimiter/ratelimit/tokenbucket.go:73 | Exactly Remaining more requests pass at the same instant |
| TokenBucket.NewRule | apps/03-ratelimiter/ratelimit/tokenbucket.go:27-39 | A rule exactly for a positive limit and burst and at most one token per nanosecond; the interval is the rounded-down quotient |
| TokenBucket.Cell.Refill | apps/03-ratelimiter/ratelimit/tokenbucket.go:78-88 | The bucket is full as of now, or each new token moved the refill time by exactly one interval and less than one interval is left, in place |
| TokenBucket.Cell.Take | apps/03-ratelimiter/ratelimit/tokenbucket.go:63-76 | The bucket and all fields of the decision are as specified |
| LimiterStore.EvictionIsInvisible | apps/03-ratelimiter/ratelimit/store.go:53-92 | For both limiters: over every trace of requests for any keys and of evictions at any instants the decisions are those of a store that never evicts, if and only if the ttl computed in 64 bits did not overflow |
| LimiterStore.EvictionCanShow | apps/03-ratelimiter/ratelimit/tokenbucket.go:34-40 | One token a day with a burst of 200000 is accepted, its ttl wraps to a negative one, and a request, a tick and a request show the eviction |
| LimiterStore.SameDecisions | apps/03-ratelimiter/ratelimit/store.go:53-92 | The same for any algorithm whose state is forgotten after the ttl |
| LimiterStore.BucketsForget | apps/03-ratelimiter/ratelimit/tokenbucket.go:40 | A bucket idle for the ttl decides like a new one if and only if burst * interval fits an int64 |
| LimiterStore.WindowsForget | apps/03-ratelimiter/ratelimit/slidingwindow.go:34 | A window idle for the ttl decides like a new one if and only if twice the period fits an int64 |
| LimiterStore.Store.Do | apps/03-ratelimiter/ratelimit/store.go:53-68 | A closed store refuses and changes nothing; an open one creates missing state, runs the algorithm and remembers the instant, all under the key itself; every other key keeps its entry |
| LimiterStore.KeysAreSeparate | apps/03-ratelimiter/ratelimit/store.go:61-67 | For any algorithm and any requests for other keys in between, a key gets the decisions that it would get alone |
| LimiterStore.EachKeyIsAlone | apps/03-ratelimiter/ratelimit/store.go:53-92 | So it does in both limiters with evictions at any instants, if the ttl did not overflow |
| LimiterBounds.BucketKeepsItsRate | apps/03-ratelimiter/ratelimit/tokenbucket.go:48-88 | The whole limiter, with all keys and evictions: of one key's requests within [s, t] at most burst + floor((t - s) / interval) are admitted |
| LimiterBounds.WindowKeepsItsBound | apps/03-ratelimiter/ratelimit/slidingwindow.go:41-83 | The whole limiter, with all keys and evictions: of one key's requests within one period at most 2 * limit - 1 are admitted |
| LimiterStore.Store.EvictIdle | apps/03-ratelimiter/ratelimit/store.go:84-92 | Exactly the keys idle for the ttl go |
| LimiterStore.Store.Close | apps/03-ratelimiter/ratelimit/store.go:94-104 | All keys are dropped and later calls are refused |
| Batcher.NothingIsLost | apps/11-clickhouse-sink/internal/batcher/batcher.go:109-189 | Under every interleaving the flushed batches, the current batch, the channel and the unsent rest of an Enqueue are the accepted requests concatenated in lock order; batches have 1 to BatchSize events; a send finds room in an open channel |
| Batcher.DrainedCompletely | apps/11-clickhouse-sink/internal/batcher/batcher.go:166-202 | When Run has returned every accepted event was flushed and is in exactly one of the stored and the dropped batches, as often as it was accepted; the dropped ones were counted |
| Batcher.AnswersDecide | apps/11-clickhouse-sink/internal/batcher/batcher.go:191-202 | Over every run a flushed batch is stored exactly when the inserter's answers to it say so and dropped otherwise, both in order, and the counter is the number of dropped events |
| Batcher.StoresExactly | apps/11-clickhouse-sink/internal/batcher/batcher.go:204-224 | A batch is stored if and only if some attempt is answered well before the attempts are used up or the context ends a wait |
| Batcher.FlushedWhenDue | apps/11-clickhouse-sink/internal/batcher/batcher.go:144-163 | A batch is flushed as soon as it is full, and by the ticker whatever there is, but not because of an event before |
| Batcher.NothingAcceptedAfterCancel | apps/11-clickhouse-sink/internal/batcher/batcher.go:146-170 | From the cancellation on the batcher drains and accepts nothing |
| Batcher.EnqueueIsAtomic | apps/11-clickhouse-sink/internal/batcher/batcher.go:109-128 | A refused call changes nothing, exactly when it is too large, late or without room, and says which; an accepted one is accepted whole |
| Batcher.StepKeepsInv | apps/11-clickhouse-sink/internal/batcher/batcher.go:110-202 | Every step of every goroutine keeps the invariant behind these |
| Batcher.RunKeepsInv | apps/11-clickhouse-sink/internal/batcher/batcher.go:134-164 | Every reachable state satisfies it |
| Batcher.DrainTerminates | apps/11-clickhouse-sink/internal/batcher/batcher.go:166-189 | While draining, some step is possible and each one gets closer to the end |
| Batcher.Drain | apps/11-clickhouse-sink/internal/batcher/batcher.go:174-184 | The drain loop cuts what is left into batches as specified |
| Batcher.CutsCover | apps/11-clickhouse-sink/internal/batcher/batcher.go:174-184 | Those batches are all events in order, all full except possibly the last, none empty |
| Batcher.InsertWithRetry | apps/11-clickhouse-sink/internal/batcher/batcher.go:204-224 | Given the answers: the attempts go on exactly while they fail, some are left and the context does not end the wait; the result is the last answer; the waits are those of the doubling loop |
| WorkerPool.ExactlyOnePlace | apps/04-worker-pool/internal/dispatch/pool.go:53-74 | In every interleaving an accepted delivery is in exactly one of queue, dispatcher, flight, results or applied, and anything else in none; its record reads queued until its result is applied; at most Workers are in flight |
| WorkerPool.StoppedMeansDone | apps/04-worker-pool/internal/status/recorder.go:74-91 | When the recorder stops, each accepted delivery got exactly one result, one that a delivery can report, with at most MaxAttempts attempts, and none is queued or in flight |
| WorkerPool.RecordsFollow | apps/04-worker-pool/internal/api/api.go:87-97 | A delivery that is not accepted yet is nowhere; a refused and forgotten one has no record; a record shows the applied result and its instant until it is evicted |
| WorkerPool.ResultsAreRetained | apps/04-worker-pool/internal/status/recorder.go:93-118 | A result applied at some instant can be read for as long as nothing is evicted with a later cutoff, whatever else happens |
| WorkerPool.FirstInFirstOut | apps/04-worker-pool/internal/dispatch/queue.go:17-38 | Deliveries are taken in the order in which they were pushed; one is refused exactly when the queue is closed or full |
| WorkerPool.ClosedForGood | apps/04-worker-pool/internal/dispatch/queue.go:45-55 | Once the queue is closed nothing is accepted any more, whatever happens |
| WorkerPool.ShutdownTerminates | apps/04-worker-pool/internal/dispatch/pool.go:53-74 | After closing, with a worker at least, the pool or the recorder can always take a step until the recorder stops, and each of their steps leaves less to do |
| WorkerPool.StepKeepsId | apps/04-worker-pool/internal/dispatch/pool.go:57-74 | Every step keeps the invariant of each delivery |
| WorkerPool.StepKeepsInv | apps/04-worker-pool/internal/dispatch/pool.go:57-74 | Every step keeps the bounds on queue, workers and results, and the order of shutting down |
| WorkerPool.RunKeeps | apps/04-worker-pool/internal/dispatch/pool.go:57-74 | Every reachable state satisfies both |
| WorkerPool.Deliver | apps/04-worker-pool/internal/dispatch/pool.go:76-108 | Given what happens to it: there is another request exactly after a transient answer with a live context, attempts left and a whole wait; the result is delivered after a good answer, canceled when the context was done then or during the wait, failed after a permanent answer or the last attempt; the workers of the interleaved model report what this allows and nothing else |
| WorkerPool.Create | apps/04-worker-pool/internal/api/api.go:87-97 | Track, Push and, when refused, Forget: an accepted delivery is queued and recorded, a refused one leaves no trace |
| WorkerPool.Queue.Push | apps/04-worker-pool/internal/dispatch/queue.go:17-32 | Closed before full; otherwise appended |
| WorkerPool.Queue.Close | apps/04-worker-pool/internal/dispatch/queue.go:45-55 | Closing keeps the queued tasks and may be repeated |
| WorkerPool.Recorder.Track | apps/04-worker-pool/internal/status/recorder.go:42-57 | The record reads queued, without attempts, as of now, and no other record appears |
| WorkerPool.Recorder.Forget | apps/04-worker-pool/internal/status/recorder.go:59-64 | Only that record goes |
| WorkerPool.Recorder.Write | apps/04-worker-pool/internal/status/recorder.go:93-108 | A known record takes the result, an unknown one is ignored |
| WorkerPool.Recorder.Evict | apps/04-worker-pool/internal/status/recorder.go:110-118 | Exactly the finished records older than the retention go |
| Cursor.CursorRoundTrip | apps/06-pg-service/internal/store/cursor.go:27-62 | A token decodes to its cursor if and only if the timestamp is an int64 not below the minimum and the id a positive int64; otherwise it is refused |
| Cursor.AcceptedIsInRange | apps/06-pg-service/internal/store/cursor.go:33-62 | Whatever a client sends, an accepted cursor is in range |
| Cursor.AcceptedExactly | apps/06-pg-service/internal/store/cursor.go:33-62 | A token is accepted, as a cursor, if and only if it decodes to the cursor's two decimals with the first colon between them and they are in range |
| Cursor.TokenSpells | apps/06-pg-service/internal/store/cursor.go:27-31 | A token is the base64 of the microseconds, a colon and the id |
| Cursor.OnlyDecimalsParse | apps/06-pg-service/internal/store/cursor.go:45-53 | Only digits with a sign or none parse |
| Cursor.OnlySymbolsDecode | apps/06-pg-service/internal/store/cursor.go:35 | Only symbols of the alphabet and line breaks decode |
| Cursor.KnownBase64 | apps/06-pg-service/internal/store/cursor.go:30 | The examples of the standard, and the two symbols that make the alphabet URL-safe |
| Cursor.KnownDecimals | apps/06-pg-service/internal/store/cursor.go:29 | How zero, a positive and a negative number are printed |
| Cursor.Base64RoundTrip | apps/06-pg-service/internal/store/cursor.go:30-35 | Unpadded base64url (section 5 of RFC 4648) loses nothing |
| Cursor.DecimalRoundTrip | apps/06-pg-service/internal/store/cursor.go:29-53 | Signed decimals parse back exactly when they fit an int64 |
| OrderPages.PagesListEverything | apps/06-pg-service/internal/store/store.go:159-203 | For every limit, following the cursors through Encode and DecodeCursor: k pages are the first k * n orders of the listing, each once and in order, where n is the limit, 20 if that is not positive and 100 if it is larger; the last page is reached exactly when they are all, and from the start those are all orders of the user, the newest first |
| OrderPages.NoGapsNoRepeats | apps/06-pg-service/internal/store/store.go:159-203 | For every limit and with arbitrary inserts between the pages there is still no order twice, they are in descending order of creation time and id, and a client that reaches the last page has every order that was there at the start |
| OrderPages.PageSplits | apps/06-pg-service/internal/db/sqlc/orders.sql.go:76-83 | What the query with a page's cursor selects is exactly what the page left of the listing |
| OrderPages.DescendingIsUnique | apps/06-pg-service/internal/db/sqlc/orders.sql.go:38-44 | The ordering by creation time and id determines the listing |
| OrderPages.ListOrders | apps/06-pg-service/internal/store/store.go:163-203 | For a known user the first n orders of the listing, with n the limit, 20 if that is not positive and 100 if it is larger, and a cursor at the last of them exactly when there are more; nothing for an unknown user |
| OrderPages.ListingIs | apps/06-pg-service/internal/db/sqlc/orders.sql.go:38-83 | The listing is all orders of the user, or those behind the cursor, by creation time and id, the latest first |
| Inventory.Store.Reserve | apps/08-grpc-service/internal/inventory/store.go:129-171 | The two loops over the lines, on the maps in place, do exactly what the specification says about the request's total per SKU, with the errors in the code's order |
| Inventory.Store.New | apps/08-grpc-service/internal/inventory/store.go:67-87 | A store exactly when all SKUs are non-empty and distinct and no stock is negative; then it holds each item under its SKU |
| Inventory.Normalize | apps/08-grpc-service/internal/inventory/store.go:178-204 | Well-formed lines sorted by SKU, a refusal for everything else, although only neighbours are compared for duplicates and the sort is not stable |
| Inventory.NormalFormIsCanonical | apps/08-grpc-service/internal/inventory/store.go:178-204 | Two requests normalize alike if and only if their lines are permutations of each other |
| Inventory.AscendingIsUnique | apps/08-grpc-service/internal/inventory/store.go:190-191 | Lines with distinct SKUs have only one ascending order |
| Inventory.BeforeIsTotal | apps/08-grpc-service/internal/inventory/store.go:191 | The byte-wise comparison of SKUs is a strict total order |
| Inventory.BeforeIsLexicographic | apps/08-grpc-service/internal/inventory/store.go:191 | It is the order of the bytes at the first difference, with a prefix first |
| Inventory.AllOrNone | apps/08-grpc-service/internal/inventory/store.go:151-167 | A new id is granted exactly when the request is well formed and each line fits the stock; a refusal changes nothing |
| Inventory.GrantIs | apps/08-grpc-service/internal/inventory/store.go:161-170 | A grant names the id, the lines by SKU and the instant, is stored, and moves from each SKU exactly what the request asks of it |
| Inventory.InvalidExactly | apps/08-grpc-service/internal/inventory/store.go:178-204 | A request is invalid exactly if its id is empty or longer than 128 bytes, it has no line or more than 100, some line has no SKU or no positive quantity, or two have the same SKU |
| Inventory.ConflictExactly | apps/08-grpc-service/internal/inventory/store.go:142-149 | A valid request is answered as cancelled exactly if it was, and with a conflict exactly if its id is stored with other lines |
| Inventory.MissingStockIsNamed | apps/08-grpc-service/internal/inventory/store.go:151-160 | When stock is missing the error is about the line with the first SKU, in their order, that is unknown or short, and says which, with what was asked and what is there |
| Inventory.NeverOversold | apps/08-grpc-service/internal/inventory/store.go:129-171 | In every run available is the initial stock less what the stored reservations hold, never negative, and reserved is the initial value plus that, modulo 2^64 |
| Inventory.ConservedExactly | apps/08-grpc-service/internal/inventory/store.go:161-166 | Available plus reserved is constant in every run if and only if the initial total fits an int64 |
| Inventory.ReservedCanWrap | apps/08-grpc-service/internal/inventory/store.go:164 | A store and a request after which reserved is negative |
| Inventory.RepeatsGetTheOriginal | apps/08-grpc-service/internal/inventory/store.go:129-150 | Whatever is asked in between, a granted id with any permutation of its lines gets the original reservation, with other lines a conflict, and nothing changes |
| Inventory.GrantsLast | apps/08-grpc-service/internal/inventory/store.go:145-149 | A stored reservation is never changed or dropped |
| Inventory.RunKeepsInv | apps/08-grpc-service/internal/inventory/store.go:133-171 | In every reachable state the books agree per SKU and every stored reservation is well formed and sorted |

## Left out

- EventSinkPipeline.Pipeline.Run: its context is done after at most a given number of turns, so that it terminates; the theorem holds for every number.
- EventSinkPipeline.Pipeline.Turn: is proved from the contract of AllowRebalance, which leaves the new assignment open; the body of that environment method itself only takes partitions away, because offsets of others are not visible to it.
- EventSinkPipeline.Pipeline.Flush: its time bound uses a virtual clock on which a call ends by its deadline and a wait is exact; the headers of the dead letters, the logging and the metrics are not modelled.
- EventSinkTiming.FlushBoundIs: is stated for a backoff that is not negative; a negative one waits for nothing at first, and only the cap on its waits is proved.
- EventSinkPipeline.Pipeline.Poll: fetch errors other than a closed client are only logged by the code and do not appear; decoding an event is abstract, a record either decodes or does not.
- EventSinkSafety.ReplayConfluence: two instants that ClickHouse rounds to the same millisecond are taken to be one key value already; merging rows of one key is what its table engine promises, not part of this model.
- WordScanner.ScanAll: the Unicode classes are a parameter that is false for the error rune; the scanner's limits on the size of a word and on empty reads are not modelled.
- LruCache.List.Unlink: the list ends in null instead of the ring with a sentinel that container/list uses, and the list's own bookkeeping of ownership is not modelled.
- LruCache.LruCache.Get: the callback is not called; the reports that it would get are returned, also when no callback is registered. Mutex and callbacks that call back into the cache are not modelled: operations happen one after the other.
- SlidingWindow.Cell.Hit: float64 is replaced by exact integers, the estimate multiplied by the period; rounding errors of the floating-point division are not captured.
- SlidingWindow.RetryAfterIsExact: assumes a clock that does not go back, which the code has because it reads the clock under the store's mutex.
- TokenBucket.Cell.Take: differences between two readings of the clock are unbounded; that Go's saturate after 292 years is not modelled.
- LimiterStore.EvictionIsInvisible: assumes a clock that does not go back, with instants counted from the zero time, and readings less than 292 years apart.
- Batcher.NothingIsLost: the goroutines are interleaved steps; the drain timeout only appears as a context that ends a wait or as a failing insert.
- WorkerPool.ExactlyOnePlace: ids are never reused, as they are random texts; sending a result and freeing its worker are one step; the URL, the creation time and the error text of a record are not modelled.
- Cursor.CursorRoundTrip: creation times are whole microseconds, as Postgres stores them.
- OrderPages.ListOrders: the query is a parameter; database errors are not modelled.
- OrderPages.NoGapsNoRepeats: orders are only added between pages, never deleted, as in the service.
- Inventory.Store.Reserve: lists are values, so the copies that keep a caller from changing a stored reservation are not needed and not modelled.
- Inventory.SortLines: sorts by insertion; only what the library promises, an ascending permutation, is used of it.
- The services 02, 07, 09 and 10, the read-only operations of the inventory and of the cache, HTTP and gRPC handlers, configuration, metrics and the wiring of the programs: they would only add easy members.
- The clients of Kafka, ClickHouse, Postgres and HTTP: they answer arbitrarily.
