# Verified model of the gateway's scheduling and admission engine

The project models how the gateway chooses an upstream, admits a request, counts what it uses, and
keeps its configuration current, and proves what holds over whole runs of those parts. Objects that
the program updates in place are classes whose methods are proved against a specification function;
the theorems are lemmas about that function. `dafny verify dfyconfig.toml` checks everything.

| Files | What they model |
|---|---|
| `Swrr`, `IndexSums` | one smooth weighted round-robin step and its runs, exact and on wrapping 64-bit integers |
| `Rendezvous`, `Decimals` | weighted rendezvous hashing |
| `CircuitBreaker` | the three-state breaker (module `CircuitBreakers`) and its histories (module `BreakerHistory`) |
| `Upstreams`, `UpstreamObjects` | bindings, availability checks that may half-open a breaker, the walk over priority tiers: as values, and as objects |
| `Failover`, `Retry` | runs of a group under any mix of events; the retry loop with per-attempt selection and recording |
| `Windows`, `MemoryLimiter`, `RedisLimiter`, `RedisScripts`, `TokenBudget` | a limiter that keeps whole histories, and the two real ones that refine it |
| `Admission`, `AdmissionOutcomes`, `AdmissionGate`, `AdmissionBudget` | the six ordered checks of a request, interleaved with those of others; why each request ended where it did; recording tokens afterwards; the token budget over the whole machine |
| `Utf8`, `Sse`, `SseUsage`, `SseLines`, `SseReason` | reassembly of event-stream lines from chunks, what the lines of a text are, and what the extractors find |
| `ConfigPolling`, `FilePolling` | the version-gated database pollers against an admin plane that changes tables; the file pollers, which lack their guarantee |
| `Registry`, `RegistryWriters` | the model and provider index, and its serialised writers |
| `Interner` | the capped string interner under any interleaving |
| `PathNormalizer` | the one-pass metric path |

Conventions. Times are integers (milliseconds) read by each atomic step; clocks do not run backwards
where a lemma says so. `u32` limits are bounded types; `i64` running weights and the deque length's
cast to `u32` wrap as in the program; other counters are unbounded. Buckets, models and protocols
are keyed by values, not by joined names.

Where the code and its comments differ, the model follows the code:

- `core/src/observability/metrics.rs:52-54` says the interner's counter never drifts above the map
  size. It does while a claim is granted but not inserted, or is being undone;
  `Interner.CounterRunsAhead` is such a run, and `Interner.NeverOverCap` says exactly when the two agree
  and that the cap holds regardless.
- `server/src/router.rs:454-456` says every line is parsed exactly once. A line that outgrows 1 MiB
  loses what had arrived of it; `Sse.SpansAreTheStream` and `Sse.AnyChunkingKeeps` say exactly when nothing is.
- The finish reason of a stream depends on where the network cut it: an extractor returns the first
  reason of a span (`server/src/router.rs:388-408`) and the caller keeps the last span's.
  `SseReason.CutsCanChangeTheReason` is a stream of four bytes with two reasons, and
  `SseReason.ReasonIgnoresCutsIffSettled` says exactly which streams are immune.

## Model

| member | source | states |
|---|---|---|
| Swrr.FirstMaxIsUnique | core/src/upstream/routing.rs:89-100 | the fold with a strict comparison picks the first maximum, and no other position has that property |
| Swrr.StepCharges | core/src/upstream/routing.rs:80-105 | a round credits each candidate its weight, and charges the total of the candidates to one that leads them |
| Swrr.StepKeepsCredit | core/src/upstream/routing.rs:80-105 | whatever the candidates of a round are, every subset S of bindings keeps total running weight at most W·abs(S)·(n−abs(S)), and all running weights sum to zero |
| Swrr.ZerosHaveCredit | core/src/upstream/node.rs:240-257 | the initial weights satisfy that invariant |
| Swrr.RunKeepsCredit | core/src/upstream/routing.rs:70-108 | the invariant holds after every run over every sequence of candidate subsets |
| Swrr.CreditBoundsEach | core/src/upstream/routing.rs:84-105 | no running weight ever leaves [−W(n−1), W(n−1)] |
| Swrr.StepDoesNotWrap | core/src/upstream/routing.rs:80-105 | when W·n fits in an i64 a wrapping round makes the exact choice and the exact weights |
| Swrr.RunNeverWraps | core/src/upstream/routing.rs:80-105 | and so does every run |
| Swrr.FairShare | core/src/upstream/routing.rs:80-105 | over any run from any state within credit, what a binding has been charged in the rounds it won differs from its weight in every round that offered it by at most 2W(n−1), however the others come and go |
| Swrr.NoStarvation | core/src/upstream/routing.rs:84-105 | so a binding offered k times with k·weight > 2W(n−1) has been chosen |
| Swrr.FixedListAccount | core/src/upstream/routing.rs:80-105 | over a fixed list, a running weight is k·weight − W·wins, is above −W, and the candidates' sum is zero |
| Swrr.FixedListIsProportional | core/src/upstream/routing.rs:58-69 | with weights g·u, after m·sum(u) rounds candidate i has won exactly m·u[i] times and all weights are zero again |
| Rendezvous.FirstMin | core/src/upstream/routing.rs:142-143 | the choice is the first lowest score |
| Rendezvous.ChoiceIsLowestForWeight | core/src/upstream/routing.rs:133-154 | a candidate is chosen if and only if no other has a lower digest for its weight and none before it ties: d·v against e·u, without quotients |
| Rendezvous.KeysOfRequests | core/src/upstream/routing.rs:124-131 | a routing key is used whatever the cursor; keys made from different cursors differ |
| Rendezvous.MinimalDisruption | core/src/upstream/routing.rs:133-154 | of a list and a shorter one, both have the same winner unless the longer one's is missing from the shorter: removing others keeps the winner, adding yields the old winner or a new candidate, ties included |
| Rendezvous.RaisingMovesOnlyThere | core/src/upstream/routing.rs:147-154 | raising one weight moves keys only to that upstream |
| Decimals.ParseDecimal | core/src/upstream/routing.rs:128-131 | reading back the decimal form of a number gives the number |
| CircuitBreakers.CircuitBreaker.CheckState | core/src/upstream/circuit_breaker.rs:173-215 | an open breaker half-opens once its timeout has passed since the last change; nothing else changes; `BreakerHistory.StateChangesOnThresholds` says the same from the history |
| CircuitBreakers.CircuitBreaker.CanExecute | core/src/upstream/circuit_breaker.rs:156-164 | allows exactly unless open and within the timeout, and leaves the state of the check |
| CircuitBreakers.CircuitBreaker.Transition | core/src/upstream/circuit_breaker.rs:273-308 | a change of state stamps the time and clears counters; no change touches nothing |
| CircuitBreakers.CircuitBreaker.Succeed | core/src/upstream/circuit_breaker.rs:228-246 | the whole new state after a success |
| CircuitBreakers.CircuitBreaker.Fail | core/src/upstream/circuit_breaker.rs:249-271 | the whole new state after a failure |
| CircuitBreakers.CircuitBreaker.ResetClosed | core/src/upstream/circuit_breaker.rs:368-373 | closed with both counters zero |
| CircuitBreakers.CircuitBreaker.ForceToOpen | core/src/upstream/circuit_breaker.rs:376-378 | open; unmoved if it was open already |
| BreakerHistory.CountersTellHistory | core/src/upstream/circuit_breaker.rs:228-308 | over every history, the consecutive counters are exactly the trailing runs, the totals exactly the calls, at most one run is non-zero, closed stays below the failure threshold and half-open has no failures |
| BreakerHistory.ApplyKeepsRange | core/src/upstream/circuit_breaker.rs:228-308 | every public call keeps the counters within those ranges |
| BreakerHistory.TimesTellHistory | core/src/upstream/circuit_breaker.rs:173-308 | over every history the change timestamp is the time of the last change of state and the failure timestamp that of the last failure |
| BreakerHistory.StateChangesOnThresholds | core/src/upstream/circuit_breaker.rs:173-271 | the next state after every call, told from the history: a check half-opens an open circuit exactly when the timeout has passed since the last change, a closed circuit opens on exactly the failure that completes the run, a half-open one on any failure, and closes on exactly the completing success; a reset closes and a forced opening opens |
| BreakerHistory.CheckAnswersItsState | core/src/upstream/circuit_breaker.rs:156-215 | a check refuses exactly when it finds the circuit open before its timeout has passed, and leaves it open exactly then |
| BreakerHistory.ClosingNeedsProbation | core/src/upstream/circuit_breaker.rs:173-246 | without a reset an open circuit closes only after a check past the timeout half-opened it, and between that check and the closing there are exactly max(1, success_threshold) successes and no failure |
| BreakerHistory.ProbationFails | core/src/upstream/circuit_breaker.rs:249-271 | any failure after that check opens the circuit again, and checks are refused for the whole timeout from that failure on |
| BreakerHistory.OpenUntilTimeout | core/src/upstream/circuit_breaker.rs:173-215 | failures, successes and forced openings while open never move the deadline, and a check says yes exactly from the deadline on |
| BreakerHistory.RefusedBeforeDeadline | core/src/upstream/circuit_breaker.rs:156-215 | along any monotone run without reset, every check before the deadline is refused and changes nothing |
| Upstreams.TiersAreThePriorities | core/src/upstream/node.rs:465-472 | the tiers are the distinct priorities from the minimum up, ascending |
| Upstreams.AscendingIsUnique | core/src/upstream/node.rs:471-472 | sorting and removing duplicates has one result |
| Upstreams.SearchFindsLowestTier | core/src/upstream/node.rs:474-493 | the walk finds all eligible bindings of the lowest tier that has one, although earlier checks may have half-opened breakers |
| Upstreams.SearchTouches | core/src/upstream/node.rs:478-488 | the walk does nothing to a binding but its availability check |
| Upstreams.SelectPicksLowestTier | core/src/upstream/node.rs:456-504 | the choice is an eligible binding of the lowest tier that has one; none exactly when no tier from the minimum up has one |
| Upstreams.SelectedCanServe | core/src/upstream/node.rs:456-504 | in the fields of the bindings: the one selected is enabled, healthy, not refused by its breaker, of the runtime and protocol asked for, and no such binding has a lower priority; none is selected exactly when there is none |
| Upstreams.SelectTouches | core/src/upstream/node.rs:456-504 | nothing changes but breakers from open to half-open, running weights and the cursor, and the chosen one was checked |
| Upstreams.SelectHalfOpensUpToItsTier | core/src/upstream/node.rs:474-493 | exactly which breakers a selection half-opens: those open for their timeout of enabled and healthy bindings from the minimum tier up to the tier selected, whatever the filter; no other breaker changes |
| Upstreams.SelectIsARound | core/src/upstream/node.rs:495-496 | in a round-robin group a selection is one exact round over its candidates and keeps bounded credit; hashing moves no weight |
| Upstreams.SelectHashes | core/src/upstream/routing.rs:118-145 | a hashing group selects its choice among the candidates under the request's key, or under the model's name and the cursor, which then advances by one |
| Upstreams.HashSelectsByKey | core/src/upstream/routing.rs:118-154 | so the binding selected has the lowest digest for its weight under that key among all candidates |
| UpstreamObjects.UpstreamBinding.IsAvailable | core/src/upstream/node.rs:304-306 | the breaker is consulted only if the binding is enabled and healthy |
| UpstreamObjects.UpstreamBinding.RecordOutcome | core/src/upstream/node.rs:38-41 | the binding's breaker records the success or failure and nothing else of it changes |
| UpstreamObjects.SelectSwrr | core/src/upstream/routing.rs:70-108 | the loops that add, fold and subtract in place make one wrapping round |
| UpstreamObjects.UpstreamGroup.CollectTiers | core/src/upstream/node.rs:465-472 | the loop builds the ascending distinct tiers |
| UpstreamObjects.UpstreamGroup.Collect | core/src/upstream/node.rs:475-488 | the tier's candidates, in order, and the breakers checked on the way |
| UpstreamObjects.UpstreamGroup.SelectWeightedHash | core/src/upstream/routing.rs:118-145 | the first lowest score under the request's key, or under a key made from the model and a cursor that then advances |
| UpstreamObjects.UpstreamGroup.SelectWithMinPriority | core/src/upstream/node.rs:456-504 | the objects change as the selection on values says |
| UpstreamObjects.UpstreamGroup.RecordOutcome | core/src/upstream/circuit_breaker.rs:218-224 | one binding's breaker records the outcome and no other binding changes |
| Failover.RunKeepsGroupCredit | core/src/upstream/node.rs:456-504 | bounded credit over every run of a group: any tiers, filters and breaker events in between |
| Failover.HealthIsAsSet | core/src/upstream/node.rs:268-274 | over every run, health is what it was last set to |
| Failover.UnhealthyIsNotSelected | core/src/upstream/node.rs:304-306 | so a binding marked unhealthy is selected by no request until marked healthy again |
| Failover.BreakerHasItsOwnHistory | core/src/upstream/circuit_breaker.rs:156-271 | over every run of a group each binding's breaker is that of a history of its own: the outcomes, forced openings and resets that concern it, each once and in order, with checks in between; so the histories' theorems hold for each |
| Failover.AttemptsPerBinding | core/src/upstream/circuit_breaker.rs:249-308 | in a stretch shorter than the timeout without success or reset, at most T−1+k attempts of any chosen requests reach one binding while at most k of theirs to it are under way, whatever the other requests do |
| Failover.TierIsSumOfMembers | core/src/upstream/node.rs:473-502 | the requests' attempts on a tier are the sum of those on its bindings |
| Failover.FailoverBound | core/src/upstream/node.rs:473-502 | so at most P·(T−1+k) of their attempts reach a tier of P bindings before selection goes to the next, for all traffic or for any part of it |
| Failover.OneAtATimeIsInFlight | core/src/upstream/retry.rs:107-145 | a request whose attempts are awaited has at most one under way, whatever others do in between |
| Failover.RequestLeavesTier | core/src/upstream/retry.rs:107-145 | of one failing request at most P·T attempts reach a tier of P bindings with threshold T, amid arbitrary selections, failures, checks, forced openings and health changes by others |
| Retry.AttemptIsItsEvents | server/src/router.rs:1027-1153 | one attempt is a selection followed by the outcome recorded on what it picked |
| Retry.AttemptTellsItsPick | server/src/router.rs:1060-1153 | an attempt tells exactly the breaker of its pick one thing: a success for a 2xx status, a failure for any other status, for no contact and for an unreadable body |
| Retry.AttemptIsCountedOnce | core/src/upstream/circuit_breaker.rs:218-271 | so its totals account for the attempt, and those of every other binding stay |
| Retry.RetriesAreNotSuccesses | core/src/upstream/retry.rs:18-28 | no success status is retryable |
| Retry.RetriesWhatIsWorthIt | core/src/upstream/retry.rs:18-28 | an attempt's status is retryable if and only if it picked an upstream and either could not contact it, could not read the body, or was answered 408, 429, 500, 502, 503 or 504 |
| Retry.Attempt | server/src/router.rs:1027-1153 | select, call, record the outcome, and record exactly the tokens of a success that states any |
| Retry.ExecuteWithRetry | core/src/upstream/retry.rs:107-145 | told from the upstreams picked and their answers: every attempt but the last was worth another one, the loop stops short of max(1, max_retries) attempts only at one that was not, with attempts−1 backoffs; exactly a returned success that states tokens is recorded, once |
| Retry.LoopGoesOnIff | core/src/upstream/retry.rs:107-145 | while attempts remain, an attempt is followed by another if and only if it picked an upstream and could not contact it, could not read the body, or got one of those six statuses |
| Retry.ClientStatus | server/src/router.rs:1027-1153 | the client gets 404 when the last attempt picked nothing, 503 when it could not contact its pick, 500 when it could not read the body, and otherwise the upstream's status; tokens are recorded only with a success |
| Retry.FailingRequestIsSequential | core/src/upstream/retry.rs:107-145 | the loop's attempts are one at a time, with arbitrary events of others before and during each |
| Retry.AloneIsAmidNothing | core/src/upstream/retry.rs:107-145 | with nobody else about, the interleaved loop is the loop that the method runs |
| Retry.RetriesLeaveTier | core/src/upstream/retry.rs:107-145 | so at most P·T attempts of a failing request reach a tier, whatever other requests do before and during its attempts |
| Windows.AfterKeepsLimit | server/src/rate_limit_memory.rs:175-195 | an allowed check keeps every window, wherever it ends, within the limit |
| Windows.RpmWindowBound | server/src/rate_limit_memory.rs:175-195 | over any run no window (t−w, t] of a bucket holds more than limit allowed requests |
| TokenBudget.OvershootIsBounded | server/src/rate_limit_memory.rs:197-227 | with at most k requests under way and m tokens each, no window ever holds more than limit−1+k·m tokens, less m for every request still under way |
| MemoryLimiter.EvictTimesKeepsTail | server/src/rate_limit_memory.rs:182-185 | popping a sorted queue from the front leaves exactly what lies after the cutoff |
| MemoryLimiter.StepRefines | server/src/rate_limit_memory.rs:175-227 | every operation answers as the full history does and keeps standing for it |
| MemoryLimiter.MemoryRefinesReference | server/src/rate_limit_memory.rs:90-227 | over every run the evicting queues give the answers of the full histories: denied exactly when the window already holds the limit |
| MemoryLimiter.CleanupChangesNoAnswer | server/src/rate_limit_memory.rs:90-116 | a cleanup inserted anywhere, skipping any busy buckets, changes no other answer |
| MemoryLimiter.CleanupLeavesTheLive | server/src/rate_limit_memory.rs:90-116 | a cleanup leaves of an idle bucket a queue exactly if its window still holds something, and in it nothing older; busy buckets as they were |
| MemoryLimiter.SweepTimes | server/src/rate_limit_memory.rs:93-103 | the sweep evicts every queue that is not busy and keeps exactly the non-empty and the busy ones |
| MemoryLimiter.SweepEntries | server/src/rate_limit_memory.rs:105-115 | the same for token queues |
| MemoryLimiter.MemoryRateLimiter.CheckRequest | server/src/rate_limit_memory.rs:175-195 | allows, and counts, exactly when the window of the history holds fewer than the limit |
| MemoryLimiter.MemoryRateLimiter.CheckTokens | server/src/rate_limit_memory.rs:197-218 | allows exactly when the window holds fewer tokens than the limit, and counts nothing |
| MemoryLimiter.MemoryRateLimiter.RecordTokens | server/src/rate_limit_memory.rs:220-227 | adds one entry to one bucket's history; zero tokens add nothing |
| MemoryLimiter.MemoryRateLimiter.CleanupStale | server/src/rate_limit_memory.rs:90-116 | leaves every history as it was |
| RedisLimiter.TokensOfTokenName | server/src/rate_limit_redis.rs:46-56 | the sum script reads back the tokens that the member name was made from |
| RedisLimiter.ExpiryIsSafe | server/src/rate_limit_redis.rs:36-37 | the key expiry never discards a member still inside the window |
| RedisLimiter.IdleKeyExpires | server/src/rate_limit_redis.rs:36-37 | a bucket to which nothing is added is gone one second after its window, and no other is affected |
| RedisLimiter.InsertCounts | server/src/rate_limit_redis.rs:60-61 | adding a new member to the sorted set counts it once and keeps the others |
| RedisLimiter.RedisRefinesReference | server/src/rate_limit_redis.rs:26-63 | over every run the scripts give the answers of the full histories |
| RedisLimiter.LimitersAgree | server/src/rate_limit_redis.rs:128-207 | both limiters answer every run on a shared clock alike |
| RedisScripts.RedisRateLimiter.CheckRequest | server/src/rate_limit_redis.rs:128-157 | as in memory; a call that does not reach Redis is allowed and changes nothing |
| RedisScripts.RedisRateLimiter.CheckTokens | server/src/rate_limit_redis.rs:159-185 | the loop sums what the members' names say; the answer is that of the history |
| RedisScripts.RedisRateLimiter.TokensIn | server/src/rate_limit_redis.rs:51-54 | searching for the first colon and reading what follows gives the tokens a name states |
| RedisScripts.RedisRateLimiter.RecordTokens | server/src/rate_limit_redis.rs:187-207 | adds the tokens to one history, or nothing when zero or out of reach |
| Admission.OverrideConcernsOneBucket | server/src/server.rs:118-121 | a per-(key, model) override takes precedence over the model's default, dimension by dimension, and moves no other bucket's limit |
| Admission.ModelLimitsConcernOneModel | server/src/server.rs:111-121 | a model's limits decide the limits of its own bucket and are the defaults of its keys', and touch no other bucket |
| Admission.CapacityConcernsOneTier | server/src/server.rs:190-217 | a primary capacity decides the limits of its own (model, protocol) and no others |
| Admission.StepKeepsSound | server/src/server.rs:162-217 | each check, arrival, recording or sweep, in any interleaving, keeps the books: limits, charges and each request's account |
| Admission.RunIsSound | server/src/server.rs:102-239 | so the books are right after every run |
| Admission.AcceptedFitEveryWindow | server/src/server.rs:176-217 | in any window, the accepted requests of a (key, model), of a model, and those sent to the primary tier of a (model, protocol) are at most the configured limit |
| Admission.ModelBucketHoldsTheAccepted | server/src/server.rs:183-188 | the model bucket holds exactly the requests past its check, none of them refused; with no admission under way, exactly the accepted ones |
| Admission.RefusalsChargeTheRequesterOnly | server/src/server.rs:141-188 | a token refusal or a key refusal takes no slot of any bucket, a model refusal one of the requester's own; primary capacity never refuses |
| AdmissionOutcomes.OutcomesAreExplained | server/src/server.rs:162-217 | in every interleaving, told from what each check found in the window: a request is past a check only if that found less than the limit, is refused by a check only if that found the limit reached, and its tier is the fallback exactly when primary capacity was found used up |
| AdmissionOutcomes.AcceptedFoundRoom | server/src/server.rs:162-188 | each accepted request, at each limited check of its key and model, tokens and requests alike, found less than the limit in the window at that moment |
| AdmissionOutcomes.FallbackMeansFullPrimary | server/src/server.rs:190-217 | an accepted request goes to the fallback tier only if a check of primary capacity found it full, and to the primary tier only if both found room or no limit |
| AdmissionGate.AdvanceAllIsARun | server/src/server.rs:162-217 | the six checks in a row are one run of the interleaved machine |
| AdmissionGate.GateStages | server/src/server.rs:162-217 | six checks in a row answer with the first of the four refusing buckets whose window has reached its limit, tokens of key and model before their requests, and otherwise with the tier that primary capacity leaves |
| AdmissionGate.LedgerAfterSlots | server/src/server.rs:176-217 | they add to each bucket exactly the slot of each limited request check reached that had room, and no tokens anywhere |
| AdmissionGate.CheckRateLimits | server/src/server.rs:102-239 | the method over the in-process limiter does those six checks; its answer and its history are told from the windows before the request: refused at the first full bucket in order, with its limit, or admitted to the fallback tier exactly when a primary window is full; it returns which buckets to record in |
| AdmissionGate.CheckPrimary | server/src/server.rs:190-217 | primary capacity moves the request to the fallback tier instead of refusing |
| AdmissionGate.TokensGoToLimitedBuckets | server/src/router.rs:998-1003 | a response's tokens go exactly once and in full to each of the request's own limited buckets, to the primary one only if the request was sent there and landed there; without such a bucket there is no context |
| AdmissionGate.RecordTokens | core/src/rate_limit.rs:56-92 | each named bucket's history gets the tokens once, every other is unchanged |
| AdmissionBudget.UnderwayCounts | server/src/server.rs:162-217 | a request enters a token bucket once, at its allowed check, and leaves at a later refusal or its recording |
| AdmissionBudget.AdmittedAreUnderway | server/src/server.rs:162-217 | an accepted request is under way in each limited token bucket of its own, its check having found room there, until it records |
| AdmissionBudget.AdmittedTokensAreBounded | server/src/server.rs:162-217 | over every interleaved run in which accepted requests record once in a bucket of theirs, at most m tokens each, and at most k are under way at a time, no window of that bucket holds more than limit−1+k·m tokens, less m for every request still under way at the end; nothing is assumed of what the checks found |
| Utf8.ValidAtNewline | server/src/router.rs:278 | text cut after a newline is valid exactly when both parts are |
| Utf8.ValidIffEncoded | server/src/router.rs:278 | bytes are valid text if and only if they are the encoding of some sequence of code points other than surrogates |
| Sse.PushedSplits | server/src/router.rs:457-466 | a span ends in a newline; span and carry are all the bytes unless the unfinished line is too long; the carry never exceeds 1 MiB |
| Sse.SseLineBuffer.Push | server/src/router.rs:457-466 | the buffer hands over all lines completed by now, calling the parser only if there are any |
| Sse.SseLineBuffer.Flush | server/src/router.rs:468-475 | whatever is left is handed over once |
| Sse.FindLastNewline | server/src/router.rs:459 | the search from the end finds the last newline |
| Sse.SpansAreTheStream | server/src/router.rs:441-476 | for any chunks, spans and flush concatenate to exactly the stream if and only if no push left an unfinished line above 1 MiB |
| Sse.AnyChunkingKeeps | server/src/router.rs:441-476 | that holds for every way to cut a stream if and only if all its lines fit in 1 MiB |
| SseUsage.LinesConcat | server/src/router.rs:280 | lines of a text cut after a newline are the lines of both parts |
| SseLines.LineThenNewline | server/src/router.rs:280 | a newline ends a line and takes nothing of it |
| SseLines.LineThenReturnNewline | server/src/router.rs:280 | a return before the newline goes with it, and only that one |
| SseLines.LinesOfText | server/src/router.rs:280 | the lines of a body written as lines under either ending, the last perhaps unfinished, are exactly those lines |
| SseUsage.ExtractUsage | server/src/router.rs:277-313 | the loop keeps the last usage any line states, nothing when the span is not text; `SseLines.LinesOfText` says what the lines are |
| SseUsage.UsageIsOfTheWhole | server/src/router.rs:1183-1230 | for valid text within the bound, the usage kept at the end is that of one parse of the whole body |
| SseUsage.UsageIgnoresCuts | server/src/router.rs:315-347 | so it is the same for any two ways to cut the stream |
| SseUsage.StreamUsage | server/src/router.rs:1183-1230 | the streaming loop over buffer and extractor computes that usage |
| SseLines.UsageIsTheLastStated | server/src/router.rs:277-313 | for a body written as such lines and cut in any way, the usage kept is that of the last line that states one, and none when no line does |
| SseLines.ReasonIsTheFirstStated | server/src/router.rs:388-408 | the finish reason of a span of such lines is that of the first line that states one, and none when no line does |
| SseLines.BrokenSpanIsSkipped | server/src/router.rs:278 | a span that is not text changes neither the usage nor the reason kept so far |
| SseReason.UnsettledReason | server/src/router.rs:388-408 | a stream whose complete lines disagree and whose last line is silent has two ways to cut it with different finish reasons |
| SseReason.CutsCanChangeTheReason | server/src/router.rs:388-408 | two lines with different reasons, cut in two ways, give two finish reasons |
| SseReason.ReasonIgnoresCutsIffSettled | server/src/router.rs:1196-1230 | the finish reason ignores the cuts if and only if the unfinished line states one or all complete lines that state one agree |
| ConfigPolling.StepKeepsSound | server/src/server.rs:641-697 | every step of admin, version read, single query or failed read keeps each cached table no older than the last loaded version |
| ConfigPolling.SkipIsFresh | server/src/server.rs:657-669 | over all interleavings, when the version read equals the last loaded one the cache is what a load would give |
| ConfigPolling.CacheIsNoOlder | server/src/server.rs:670-694 | in general each cached table is what the database held at the last loaded version or later |
| ConfigPolling.UndisturbedPollCatchesUp | server/src/server.rs:641-697 | after any history of failures one undisturbed poll makes the cache current, whether it reloads or skips |
| ConfigPolling.PollLoadsIff | server/src/server.rs:657-669 | a poll of an idle poller starts a load if and only if the forced reload is due, 1000·force_reload_secs after the last finished load, or the version could not be read, or it is not the loaded one; otherwise it changes nothing |
| ConfigPolling.ForcedPollCatchesUp | server/src/server.rs:641-697 | a due poll with successful undisturbed queries makes the cache current from any idle state, whatever version and cache it holds |
| ConfigPolling.FinishedLoadRestartsInterval | server/src/server.rs:670-694 | a load that finishes restarts that interval; one that fails changes nothing of the poller |
| ConfigPolling.Load | server/src/db/route_store.rs:77-107 | queries run in order until one fails or the first finds no routes |
| ConfigPolling.LoadIsItsAnswers | server/src/db/route_store.rs:77-107 | a load that finds no routes yields just that; any other succeeds if and only if all its queries do, and yields their answers in order |
| ConfigPolling.RoundsAreLoad | server/src/db/route_store.rs:77-107 | the interleaved machine's load settles as the program's does, whatever changes fall between its queries |
| ConfigPolling.ConfigPoller.Tick | server/src/server.rs:813-847 | skips exactly on an unchanged version that was read, before the forced reload is due; a failed load changes nothing |
| FilePolling.RecoversIffPending | server/src/server.rs:593-609 | a stale cache can become current without another edit if and only if a load is under way or the change has not been noted yet; the note is taken before the load that may fail |
| FilePolling.FailedLoadPendsIffEdited | server/src/server.rs:599-607 | so after a failed load it can if and only if the file changed again while the load ran |
| FilePolling.FailedLoadStaysStale | server/src/server.rs:596-609 | after one edit and one failed load it stays stale through any number of polls: the change is noted before the load |
| FilePolling.EarlyEditStaysStale | server/src/server.rs:577-593 | so it does when the file changes between the startup load and the first look at it |
| Registry.KeysAreInjective | core/src/upstream/registry.rs:26-30 | keys tell model and protocol apart, since protocol names hold no NUL |
| Registry.NamesHaveNoNul | core/src/upstream/node.rs:178-186 | protocol names hold no NUL |
| Registry.ProtocolsAreApart | core/src/upstream/registry.rs:1-5 | registering a group leaves what is found under any other protocol as it was, for every model |
| Registry.IndexAnswers | core/src/upstream/registry.rs:90-162 | an index built from nothing answers with the last group per name and protocol, the first node per provider, and all model ids |
| Registry.RateLimitsOfIndex | core/src/upstream/registry.rs:232-248 | limits are those of the last OpenAI group of the name, or else of its last Anthropic group |
| Registry.UpstreamRegistry.Register | core/src/upstream/registry.rs:123-162 | adds one group to the snapshot |
| Registry.UpstreamRegistry.ReloadAll | core/src/upstream/registry.rs:269-292 | builds the same index as registering the groups in order into an empty registry |
| Registry.BuildProviderMap | core/src/upstream/registry.rs:90-109 | the provider map of all groups is that of registering them in order |
| RegistryWriters.WritesAreSerial | core/src/upstream/registry.rs:123-162 | under any interleaving the snapshot is the finished writes one after another, each once, in the order of their stores |
| RegistryWriters.NoUpdateIsLost | core/src/upstream/registry.rs:123-162 | concurrent registrations are all found afterwards |
| Interner.StepKeepsSound | core/src/observability/metrics.rs:64-90 | each atomic step keeps the counter equal to entries, granted and undone claims, and the first two within the cap |
| Interner.NeverOverCap | core/src/observability/metrics.rs:64-90 | never more than 4096 entries and granted claims; a string answered with itself is interned; a string answered "other" never gets in, and all slots are in use; when the counter is ahead of the map |
| Interner.CounterRunsAhead | core/src/observability/metrics.rs:80-86 | with one claim granted and not inserted the counter is one and the map empty |
| Interner.RefusalMeansFull | core/src/observability/metrics.rs:76-84 | a vacant entry is refused exactly when all slots are taken or granted, despite counters of claims being undone |
| Interner.StringInterner.Intern | core/src/observability/metrics.rs:64-90 | one caller at a time: itself if known or there is room, otherwise "other" |
| PathNormalizer.JoinSplit | server/src/middleware.rs:400-438 | joining the segments of a path gives the path |
| PathNormalizer.SplitJoin | server/src/middleware.rs:400-438 | splitting joined segments gives the segments |
| PathNormalizer.NormalizePath | server/src/middleware.rs:400-438 | the single pass equals split, replace dynamic segments after the third, join, for every path |
| PathNormalizer.PushSegment | server/src/middleware.rs:415-427 | a segment is appended as it is or as the placeholder, copying the path before it only when first needed |
| PathNormalizer.NormalizedSegments | server/src/middleware.rs:400-438 | the segments of the result are the replaced segments of the path |
| PathNormalizer.SegmentsShown | server/src/middleware.rs:400-453 | no segment is added or lost, the first three stay, and of the others exactly these become the placeholder: more than ten bytes with an underscore, 32 or more of hexadecimal digits and dashes, all digits |
| PathNormalizer.NormalizingIsIdempotent | server/src/middleware.rs:400-438 | normalising twice is normalising once |

## Left out

- Breaker internals: each public method is one atomic step. `transition_to` swaps the state (line 275) before it stores the timestamp (line 279), so a finer interleaving does not keep the timeout. Metrics, labels and `record_test_failure` are not modelled.
- Breaker and limiter counters: the `u32` and `u64` wrap-around of the breaker's counters is not modelled.
- Selection: one selection is one atomic step that reads the clock once; the program holds its lock only around the round-robin step.
- Construction of groups and bindings: the rejection of empty groups, zero weights and mismatched strategies; weights are positive and unbounded, 255 at most in the program.
- Rendezvous.Score: real numbers instead of `f64`; the digest and the logarithm are an arbitrary non-negative function of key and URL.
- Retry: delays and jitter, and requests that contact several providers. The streaming path, which records its outcome after the response was returned, is not a `Retry.Attempt`; its late outcomes are `Failed` and `Succeeded` events of `Failover`.
- Failover.FailoverBound: counts attempts selected in the stretch; attempts from before it may still fail in it.
- MemoryLimiter: the race between cleanup and a caller that already holds a queue, which its own comment describes; each operation is one atomic step.
- Admission: which tier a request finally reaches. A slot of primary capacity is also taken by a request that later falls back, as the code's comment says, so the theorems speak of `minPriority`. Limits are fixed over a run.
- RedisLimiter: transport, connection handling and double-precision scores; ids are distinct and hold no colon. A call that fails after its script ran is not modelled.
- Bucket names: joined names are injective only when ids hold no colon; buckets are keyed by values.
- SSE: JSON and the `data:` prefix are an arbitrary function of a line. The Responses parser forgets its event name between calls, so no claim is made for it. Streams that are not valid text, and usage sums that overflow, are not covered.
- ConfigPolling: changing the tables and bumping the version are one step of the admin plane; a version is the number of changes. A change whose bump is lost is not a step of the machine; `ForcedPollCatchesUp` starts from any state, so also from one that such a change leaves. Time-driven key expiry is not modelled. What the program builds from the rows is not part of this model.
- FilePolling: modelled on values; every edit changes the modification time, and a file whose time cannot be read is not modelled.
- Reloads and the run theorems: `reload_all` installs new groups with fresh breakers and zero running weights (core/src/upstream/registry.rs:269-292), so a run of `Swrr` or `Failover` ends at a reload and a new one begins.
- Registry: `find_by_provider_id`, `find_for_responses` and `select_with_min_priority` only look up and delegate.
- HTTP, TLS, headers, CORS, tracing, metrics export, authentication, access logs, YAML and SQL access, command line: input and output around what is modelled.
- Unused storage files under `core/src/storage` other than those in its module list: dead code.
