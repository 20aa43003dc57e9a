# League API: verified models of its coordination code

The League API fetches data from the Riot Games API on behalf of two audiences, people waiting for an
answer (manual) and background jobs (automatic). This project models the parts of it that keep state
across many interleaved calls, and proves what they guarantee over whole runs:

- the rate limiter, process-local and in Redis: several sliding windows at once, a reserve for manual
  requests that unlocks near a window's expiry, the block after a 429 answer, and the wait-and-retry loop;
- the job queue, the job store and the lock coordinator: two workers on two priority queues, duplicate
  suppression, per-job locks, retry timers, shutdown, and several queues sharing one coordinator;
- the match-sync jobs: the incremental profile refresh with early stop, the ladder scan with resumable
  deferred passes, reference counting, and the match store both write to;
- one call of the Riot client with its cache decision, reservations, 429 retries and events, and the job
  record that mirrors those events; the pruned response cache; keyset pages of jobs; profile slugs.

## How it is built

Each mutable object of the program is a class whose methods update its fields, and each method is
proved to do what a step function on values does (`RateLimiter`, `RedisLimiter`, `JobQueue`,
`MatchStore`, `ProfileSync`, `LadderPlayers`, `LadderFetch`, `ResponseCache`, `RiotRequests`,
`JobEvents`). The theorems are then about those step functions and about all sequences of steps
(`LimiterRuns`, `LimiterTheorems`, `LimiterDecisions`, `RetryProgress`, `RedisAgreement`, `RedisSafety`,
`RedisDecisions`, `RedisDivergence`, `JobInvariants`, `JobSafety`, `JobFinality`, `JobPriorities`, `JobExamples`,
`ProfileTheorems`, `ProfileGaps`, `LadderLog`, `LadderTheorems`, `LadderTally`, `LadderReferences`, `JobPages`,
`ProfileSlugs`). For the main operations one of them says what the step function computes without naming it, from
the settings, the log, the replies or the list it is given. A limiter object carries a ghost log of its
attempts and pauses, and its invariant says that it is in the state that log leads to, so that the theorems about
runs hold for every object and its callers. Concurrency is interleaving at the awaits: `JobSystem` takes one step
per awaited call, and any such call may raise or be cancelled. `Options` is the optional value.

Time is a real number and never runs backwards. Which page requests fail, which details arrive, where a
run is cut short, how long sleeps overrun, what the wall clock says and what Riot answers are parameters
or arbitrary choices, so every theorem holds for all of them. Identifiers (players, matches, jobs, cache
keys, work keys) are only compared, and stand as numbers. `dafny verify dfyconfig.toml` checks everything.

## Promises that hold under a condition

- A history follows the upstream order after a refresh if and only if every refresh so far kept it: by
  creation time its new matches are strictly newest first and none is older than a match linked before
  (`HistoryFollowsUpstream`). Two new matches created at the same time come out the wrong way round.
- A run that is cut short leaves a consistent store, but its newest matches are linked before the older
  ones, and the next refresh stops at the first page with a linked id. It makes up for the interrupted run
  if and only if that run had linked nothing or everything, or all it was to link lies before the end of
  that page (`NextRefreshRecovers`); otherwise no later refresh ever links what is missing (`LostForGood`).
- The ladder scan gives a player's list, as far as it got, without gap or repetition if and only if none of
  the player's pages was answered twice with ids, be it because the first answer could not be recorded or because
  the player is listed twice (`ScanIsExact`). Repeated ids are dropped before anything is stored, and after that
  the list is exact in every run: the upstream ids up to the furthest answered page, all of them when no page is
  left to retry (`MergedScanIsExact`); each player's references are exactly those, and links are gained to those
  of them that are available (`DiscoverAndFetchMatches`). Pages attempted are pages fetched and failed if and only
  if no answered request went unrecorded (`PagesAreCounted`).
- Jobs created or changed between two pages leave what is listed behind a cursor as it was if and only if the
  filter takes every older job behind the cursor as before (`RestStays`), which it always does without a status
  filter. A reader gets page by page exactly the jobs there were at first if and only if that is so for each page
  as far as it reaches, and something is still listed behind every page but the last (`ReadsThroughExactly`). What
  happens to jobs that have been listed does not matter.
- The Redis limiter stays in the state of the process-local one along a run if and only if no two grants of
  one audience share a clock reading (`SameExactlyWhileDistinct`). After a repeated grant, manual attempts at that
  reading come to one that the process-local limiter refuses and Redis grants (`RepeatShows`). Where every limit
  admits two requests, a burst of manual attempts at one reading is never refused (`BurstIsNeverRefused`); what
  Redis guarantees in every run is that no window holds more different reservations than its limit counts
  (`RedisWindowSafety`).
- The shutdown drain raises if and only if the store does not know a queued job. What is queued behind the first
  such entry of a side, and the automatic side if that entry is a manual one, then stays queued; otherwise every
  queued job is failed (`FailQueuedJobs`, `FinishStop`).
- SUCCEEDED and FAILED are final within one process if only jobs that have not succeeded are enqueued and no
  success is recorded by a call that is then cancelled (`FinishedIsFinal`). With the in-memory store the program
  meets both: it enqueues jobs it has just created or recovers unfinished (src/league_api/api/routes/profiles.py:320-333,
  src/league_api/jobs/queue.py:80-88), and nothing is awaited between taking the store's lock and returning
  (src/league_api/jobs/store.py:236-244). `JobExamples` has a run for each hypothesis without which success is lost: a
  success recorded by a cancelled call, a succeeded job enqueued again, and a second process with a stale read.
- A slug leads back to its names if and only if they are non-empty, have no `#`, and the tag line has no hyphen
  (`SlugRoundTrip`).

## Model

| member | source | states |
|---|---|---|
| RateLimiter.RiotRateLimitManager.PopExpired | src/league_api/riot/rate_limiter.py:131-138 | the popping loop leaves a window exactly without its expired prefix |
| RateLimiter.RiotRateLimitManager.CheckLimits | src/league_api/riot/rate_limiter.py:131-165 | the loop over the limits pops every window it reaches and comes to the decision on the popped windows: the longest wait, or the first limit without capacity, with the later windows untouched |
| RateLimiter.RiotRateLimitManager.ReserveOrDelay | src/league_api/riot/rate_limiter.py:124-168 | one attempt changes windows and answers exactly as the step function `Reserve` |
| RateLimiter.RiotRateLimitManager.TryAcquire | src/league_api/riot/rate_limiter.py:95-103 | the non-waiting form is one attempt of the limiter's run: acquired with no delay and one more grant in the log, refused with the positive delay and no grant, or a configuration error and no grant |
| RateLimiter.RiotRateLimitManager.PauseForRetryAfter | src/league_api/riot/rate_limiter.py:105-122 | a 429 pause of the seconds the header names, not less than none, or of the fallback, and the buffer on top, is one step of the limiter's run that blocks everybody until its end, is slept out, and grants nothing; no positive delay means no step |
| RateLimiter.RiotRateLimitManager.Acquire | src/league_api/riot/rate_limiter.py:79-93 | undisturbed and with sleeps at least as long as asked, it continues the limiter's run by refused attempts, one per sleep with the delay slept, and a last one that is granted or misconfigured; a success adds exactly one grant to the log and an error none; at most one sleep more than reservations were queued, for a manual caller at most two and always a grant |
| RateLimits.ReserveKeepsValid | src/league_api/riot/rate_limiter.py:124-168 | no attempt lets a window hold more reservations than its limit counts |
| RetryProgress.OutcomeFacts | src/league_api/riot/rate_limiter.py:124-168 | a blocked attempt is refused for the rest of the block and changes nothing; refusals carry positive delays; only automatic callers meet a limit without capacity |
| RetryProgress.RefusalQueues | src/league_api/riot/rate_limiter.py:124-168 | a refusal by the windows leaves at least one reservation queued and adds none |
| RetryProgress.RetryMakesProgress | src/league_api/riot/rate_limiter.py:79-93 | a retry after the full delay is granted to a manual caller; an automatic one is refused again only if something was popped |
| LimiterRuns.RunMirrors | src/league_api/riot/rate_limiter.py:124-168 | along every run each deque is exactly the grants of the whole log still inside its window, the block is the latest pause, and every grant was lawful when made |
| LimiterRuns.DecisionsMatchLedger | src/league_api/riot/rate_limiter.py:124-168 | every decision of a run is the one the unpruned log of all grants and pauses dictates |
| LimiterDecisions.EveryAttemptIsAnswered | src/league_api/riot/rate_limiter.py:124-183 | in every run an attempt during the longest pause is refused for its rest; otherwise it is a configuration error exactly if it is automatic and some limit has nothing in its window, no share for automatic traffic and a window longer than the unlock time, granted exactly if every limit has room and for automatic traffic an unused share or an unlocked reserve, and else refused until the last of the limits in the way opens: when its oldest grant expires, or comes within the unlock time of that |
| LimiterTheorems.WindowSafety | src/league_api/riot/rate_limiter.py:124-168 | over every run of mixed attempts and pauses, for every limit and every instant t, at most request_count grants lie in (t - window, t] |
| LimiterTheorems.BlockRespected | src/league_api/riot/rate_limiter.py:105-129 | no grant after a pause is timed before the pause ends |
| LimiterTheorems.Spacing | src/league_api/riot/rate_limiter.py:124-168 | grants request_count apart are at least one window apart |
| LimiterTheorems.Throughput | src/league_api/riot/rate_limiter.py:124-168 | any n consecutive grants spanning T satisfy n * window <= request_count * (T + window) |
| LimiterTheorems.EstimateWithinOneWindow | src/league_api/api/routes/jobs.py:817-827 | the published estimate for a batch of grants exceeds the time they span by at most the binding window |
| LimiterTheorems.EstimateIsBinding | src/league_api/api/routes/jobs.py:817-827 | the estimate is at least the number of requests times window over count for both limits, and exactly that for one of them |
| LimiterTheorems.OverShareOnlyWhenUnlocked | src/league_api/riot/rate_limiter.py:141-183 | an automatic grant beyond the automatic share happens within the unlock time of the oldest expiry, or in an empty window no longer than it |
| LimiterTheorems.ManualReserve | src/league_api/riot/rate_limiter.py:141-183 | from the grant that finds a window empty until it unlocks, automatic traffic gets at most request_count - ceil(request_count * fraction) grants in any mix of traffic |
| LimiterTheorems.ReserveFits | src/league_api/riot/rate_limiter.py:170-172 | the reserve never exceeds the limit, so the automatic share is exactly what it leaves |
| LimiterTheorems.RefusalStands | src/league_api/riot/rate_limiter.py:95-103 | after a refusal no attempt of that audience before the announced moment is granted, whatever happens in between |
| LimiterTheorems.ManualDelayIsExact | src/league_api/riot/rate_limiter.py:124-168 | an unblocked manual caller that comes back at exactly the announced moment is granted |
| RedisLimiter.RedisRiotRateLimitManager.CheckLimits | src/league_api/riot/redis_rate_limiter.py:88-129 | trimming and judging set by set comes to the decision on the trimmed sets |
| RedisLimiter.RedisRiotRateLimitManager.ReserveOrDelay | src/league_api/riot/redis_rate_limiter.py:79-139 | one attempt on the server's keys changes them and answers exactly as the step function on sorted sets |
| RedisLimiter.RedisRiotRateLimitManager.Block | src/league_api/riot/redis_rate_limiter.py:58-77 | the later of two blocks wins |
| RedisRateLimits.ExpiryIsInvisible | src/league_api/riot/redis_rate_limiter.py:130-139 | dropping a window key ceil(window) after its last grant hides no reservation that still counts |
| RedisRateLimits.SameAfterGrant | src/league_api/riot/redis_rate_limiter.py:130-139 | set and deque stay the same after a grant if and only if the set did not hold that member |
| RedisAgreement.RedisAgrees | src/league_api/riot/redis_rate_limiter.py:79-139 | on every run whose earlier grants are pairwise different the Redis limiter grants, refuses and delays an attempt exactly as the process-local one |
| RedisAgreement.SameExactlyWhileDistinct | src/league_api/riot/redis_rate_limiter.py:79-139 | on any run the two limiters are in the same state after every step if and only if no two grants of one audience share a clock reading |
| RedisAgreement.BurstIsNeverRefused | src/league_api/riot/redis_rate_limiter.py:130-139 | manual attempts sharing one clock reading are all granted, however many, where every limit admits two requests |
| RedisSafety.RedisWindowSafety | src/league_api/riot/redis_rate_limiter.py:79-139 | over every run of the Redis limiter, whatever readings its grants share, for every limit and every instant t, at most request_count different reservations lie in (t - window, t] |
| RedisDecisions.EveryRedisAttemptIsAnswered | src/league_api/riot/redis_rate_limiter.py:79-139 | in every run of the Redis limiter, whatever readings its grants share, each attempt gets that same answer for the longest pause and the different grants inside each window |
| RedisDivergence.RepeatShows | src/league_api/riot/redis_rate_limiter.py:79-139 | every run of the process-local limiter with a repeated grant has a beginning from which manual attempts at the reading reached lead to one that it refuses and the Redis limiter grants |
| JobInvariants.BooksKept | src/league_api/jobs/queue.py:112-144 | every step, including raising calls, cancellation and the drain, keeps each id registered once, queued once or held once |
| JobInvariants.ExclusiveKept | src/league_api/redis/coordinator.py:18-30 | every step keeps each worker past its lock in possession of it, and no two workers of any queues in possession of the same lock |
| JobSafety.HandlersNeverOverlap | src/league_api/jobs/queue.py:151-205 | in every reachable state, with any number of queues sharing the locks, a job's handler runs in at most one worker |
| JobSafety.IdsAccountedFor | src/league_api/jobs/queue.py:112-149 | in every reachable state the registered ids are the disjoint union of those queued manual, queued automatic and held by workers, and a worker holds only jobs of its side |
| JobSafety.AcceptedJobsAreKept | src/league_api/jobs/queue.py:112-149 | while store and lock calls return and stop has not begun, an accepted job is registered, on a retry timer, finished, or in the hands of the worker that owns its lock |
| JobSafety.IdleMeansAllDone | src/league_api/jobs/queue.py:123-205 | when a lone queue is idle and nothing waits, every job it accepted is finished |
| JobPriorities.PrioritiesAreKept | src/league_api/jobs/queue.py:112-149 | in every reachable state each job queued, held by a worker or on a retry timer is there with a priority that a call enqueued it with at this queue |
| JobPriorities.SidesAreKept | src/league_api/jobs/queue.py:112-149 | a job enqueued with one priority only is always there with that priority, and only ever in the hands of the worker of that side |
| JobPriorities.TimerBringsBack | src/league_api/jobs/queue.py:146-149 | a timer that goes off at a running queue without the job adds exactly an entry with the timer's priority and the next sequence number, and otherwise is only forgotten |
| JobPriorities.DrainedStaysEmpty | src/league_api/jobs/queue.py:94-149 | a stopping queue whose sides and timers are empty stays so until its next start, whatever is enqueued, raises or is handed back meanwhile |
| JobFinality.FinishedJobsChangeOnlyByOverwriting | src/league_api/jobs/store.py:204-253 | within one process a step changes a finished job exactly when it overwrites a success with a failure, and no job disappears |
| JobFinality.FinishedStaysFinished | src/league_api/jobs/store.py:204-253 | FAILED never changes again, and SUCCEEDED can change only by a step that overwrites it |
| JobFinality.OverwritingNeedsShutdown | src/league_api/jobs/queue.py:187-221 | a success is overwritten only while stopping, by the drain or by a worker cancelled while recording it |
| JobFinality.FinishedIsFinal | src/league_api/jobs/queue.py:151-221 | in every run of one process in which only jobs that have not succeeded are enqueued and no success is recorded by a call that is then cancelled, a finished job never changes, whatever else raises, is cancelled, drained or restarted |
| JobExamples.CancelledSuccessIsFailed | src/league_api/jobs/queue.py:186-190 | a run of one process in which a worker cancelled while its success is recorded fails the succeeded job |
| JobExamples.DrainedSuccessIsFailed | src/league_api/jobs/queue.py:207-221 | a run of one process in which a succeeded job is enqueued again and the shutdown drain fails it |
| JobExamples.StaleReadReopens | src/league_api/jobs/queue.py:151-169 | a run of two processes in which a worker that read the job before the other finished it marks it running again |
| JobFinality.OneActiveProfileJob | src/league_api/jobs/store.py:118-138 | in every run of one process at most one unfinished profile job exists for each work key |
| JobQueue.InMemoryJobQueue.Enqueue | src/league_api/jobs/queue.py:112-121 | raises while stopping, ignores registered ids, and else adds one entry with this priority and the next sequence number to the manual side for priorities below 100 and to the automatic side for others |
| JobQueue.InMemoryJobQueue.Get | src/league_api/jobs/queue.py:123-125 | hands out the entry before all others of that side |
| JobQueue.InMemoryJobQueue.ProcessJob | src/league_api/jobs/queue.py:151-205 | undisturbed, it leaves store, locks and retry flag as the awaited calls of the state machine do one after the other |
| JobQueue.InMemoryJobQueue.RunOnce | src/league_api/jobs/queue.py:123-144 | one round takes, processes and gives back a job, freeing its id and starting a retry timer when its lock was taken |
| JobQueue.InMemoryJobQueue.RetryEnqueue | src/league_api/jobs/queue.py:136-149 | a retry timer that goes off is forgotten and its job queued again with its priority on the side that selects, unless stopping or registered |
| JobQueue.InMemoryJobQueue.FailQueuedJobs | src/league_api/jobs/queue.py:207-221 | the drain fails the jobs of its side and frees their ids in queue order, up to and including the first entry whose job the store does not know, where it raises and the rest stays queued; it raises exactly when there is one, and otherwise leaves the side empty |
| JobQueue.InMemoryJobQueue.FinishStop | src/league_api/jobs/queue.py:94-110 | shutdown cancels the retry timers and drains the manual side and then, unless that raised, the automatic one; it raises exactly when a queued job is unknown to the store, and otherwise both sides end empty with every queued job failed |
| JobQueue.InMemoryJobQueue.RecoverQueuedJobs | src/league_api/jobs/queue.py:80-88 | recovery picks the queued and running ones of the stored jobs, enqueues them oldest first with the priorities of their kinds, and counts them; while stopping it raises at the first of them and changes nothing |
| JobQueue.RecoveredExactly | src/league_api/jobs/queue.py:80-88 | a fresh queue that recovers holds exactly the unfinished jobs of the store, each once, and registers no other id |
| JobQueue.RecoveredNext | src/league_api/jobs/queue.py:80-88 | after recovery a worker is served, among the unfinished jobs of its side, the most urgent kind first and of that kind the oldest by creation time and id; the manual side is exactly the profile jobs |
| JobQueue.AloneResult | src/league_api/jobs/queue.py:151-205 | for every combination of raising calls, what a whole turn without interference leaves: success exactly when marked running, handled and recorded, else a failure if that can be recorded; the lock given back unless that call raises; a taken lock means retry; anything else is left alone |
| JobQueue.CancelledJobFails | src/league_api/jobs/queue.py:186-205 | a worker cancelled between taking a lock and recording a failure goes on to fail the job and to give the lock back, whether or not the interrupted call took effect; it ends if both calls return, and else the cancellation is lost |
| JobQueue.InMemoryJobStore.CreateOrGetActiveProfileJob | src/league_api/jobs/store.py:118-138 | returns an unfinished job for the same work if there is one and changes nothing, and creates one otherwise |
| JobQueue.InMemoryJobStore.Mark | src/league_api/jobs/store.py:204-253 | sets the status of a known job only; an unknown id raises and changes nothing |
| JobQueue.InMemoryJobLockCoordinator.AcquireJobLock | src/league_api/redis/coordinator.py:18-25 | a token is returned exactly when the lock was free, and the lock is held afterwards |
| JobQueue.InMemoryJobLockCoordinator.ReleaseJobLock | src/league_api/redis/coordinator.py:27-30 | only the job's own token frees the lock |
| JobPages.ListingFacts | src/league_api/jobs/store.py:156-185 | the listing holds exactly the jobs with one of the statuses, the type and the Riot id asked for, as far as asked for, latest creation time first and largest id first among equal times |
| JobPages.PagesAreTheListing | src/league_api/jobs/store.py:156-202 | following the cursors with any limit of at least one yields the whole listing, each job once, and then ends |
| JobPages.FollowingListsAll | src/league_api/jobs/store.py:156-202 | n pages are exactly the first n * limit jobs and there is another page exactly when jobs are left, if each page was read while what was listed behind its cursor was as at first |
| JobPages.RestStays | src/league_api/jobs/store.py:156-202 | after such growth the jobs listed behind the cursor of any stored job are the same if and only if the filter takes every older job behind it as before |
| JobPages.ReadsThroughExactly | src/league_api/jobs/store.py:156-202 | during such growth each page read so far was the next one of the first listing if and only if, for each of them, the filter takes the older jobs of its span as before and, unless it is the last, something is listed behind it |
| JobPages.NewJobsDoNotDisturb | src/league_api/jobs/store.py:156-202 | jobs created between pages with larger keys and status changes neither repeat nor hide the older jobs, without a status filter, or when at each further page the filter takes the older jobs behind its cursor as before |
| JobPages.StatusChangeHidesAJob | src/league_api/jobs/store.py:170-171 | with a status filter, following the cursors misses the older of two queued jobs that starts running between the first page and the second |
| MatchStore.InMemoryMatchStore.GetPlayerMatchIds | src/league_api/matches/store.py:59-69 | a history is the linked ids rearranged by creation time, latest first and undated ones last, with ties in link order |
| MatchStore.InMemoryMatchStore.GetMatches | src/league_api/matches/store.py:71-77 | exactly the stored ones among the ids asked for |
| MatchStore.InMemoryMatchStore.SaveMatch | src/league_api/matches/store.py:79-98 | a payload once stored is never replaced |
| MatchStore.InMemoryMatchStore.LinkPlayerMatches | src/league_api/matches/store.py:100-105 | unlinked ids are put in front of the existing links, which stay as they are |
| MatchStore.InMemoryMatchStore.UnlinkPlayerMatch | src/league_api/matches/store.py:137-143 | removes one link and says whether there was one |
| MatchStore.InMemoryMatchStore.DeleteMatch | src/league_api/matches/store.py:145-151 | removes the payload and every link to it |
| MatchStore.MutationsKeepAllStored | src/league_api/matches/store.py:79-151 | saving, unlinking and deleting keep every linked id stored; linking does if and only if the linked ids are stored |
| MatchStore.LinkIsExact | src/league_api/matches/store.py:100-105 | linking puts exactly the ids not linked yet, in their order, in front of the player's links and changes no other player's links and no payload |
| MatchStore.UnlinkIsExact | src/league_api/matches/store.py:137-143 | unlinking takes one match out of one player's links and leaves the rest of them in order, other players' links and the payloads alone |
| MatchStore.DeleteIsExact | src/league_api/matches/store.py:145-151 | deleting takes one match out of the payloads and of every player's links and leaves the rest of both as it was, in order |
| ProfileSync.RecordPage | src/league_api/jobs/profile.py:248-292 | a page yields its ids that are neither recorded nor known, each once, and whether it reaches a known one |
| ProfileSync.ProcessPage | src/league_api/jobs/profile.py:294-328 | new ids are stored and linked one after the other; a missing detail, or an interruption before saving, before linking or after linking, ends the run with exactly the earlier ones processed, and at most the payload of the next one stored |
| ProfileSync.RecordAndProcessPage | src/league_api/jobs/profile.py:248-329 | the new ids of a page are processed in order, and the page is reported as reaching a known id exactly when it holds one |
| ProfileSync.FetchPages | src/league_api/jobs/profile.py:135-184 | the paging loop records up to the first page with a known id, a short page or the quota, and however it ends leaves a processed prefix of that; when a page request or the recording of a page ends it, exactly what was recorded before that page |
| ProfileSync.RunProfileFetch | src/league_api/jobs/profile.py:81-184 | a run leaves the store with a processed prefix of its new ids, wherever it ends; when it finishes it has processed all of them and reports them before the history, without repetition |
| ProfileTheorems.RunLeavesConsistentStore | src/league_api/jobs/profile.py:294-328 | at whatever point a run ends, the player's links are the processed ids, latest first, on top of the old links, every linked id is stored, no payload was replaced, a new payload belongs to a processed id or, cut between saving and linking, to the next one, other players are untouched, and only absent details were asked for, each once |
| ProfileTheorems.PagingRecordsAllNew | src/league_api/jobs/profile.py:135-184 | stopping at the first page that reaches a known id records every id that was added at the front |
| ProfileTheorems.PagingStops | src/league_api/jobs/profile.py:135-184 | an unlimited run records exactly the unlinked ids up to the end of the page that holds the first linked one |
| ProfileTheorems.FinishedRunRecords | src/league_api/jobs/profile.py:135-184 | a finished run has processed exactly the unlinked ids, in upstream order, among those up to the end of the 100-id page with the first linked one, and with a match count among the first that many; with nothing linked, the first ids up to the count |
| ProfileTheorems.PageEndRecords | src/league_api/jobs/profile.py:135-184 | a run that ends at the request or recording of a page has processed exactly the ids in front of that 100-id page, all of them unlinked before |
| ProfileTheorems.HistoryOrder | src/league_api/matches/store.py:59-69 | new links come before the old history in upstream order if and only if each new match is strictly newer than the next and none is older than an old one |
| ProfileTheorems.RefreshCatchesUp | src/league_api/jobs/profile.py:135-184 | a complete refresh links exactly the upstream list, each id once, and reports it in order when creation times strictly decrease |
| ProfileTheorems.RefreshesLoseNothing | src/league_api/jobs/profile.py:135-184 | after every run of any sequence of complete refreshes of a list that grows at the front, the linked ids are the upstream ids, in upstream order when creation times strictly decrease |
| ProfileTheorems.HistoryFollowsUpstream | src/league_api/jobs/profile.py:135-184 | in any such sequence the history lists the upstream list in order after a refresh if and only if every refresh up to it kept the order by creation time, and a report does if and only if every earlier one did |
| ProfileGaps.InterruptedLeavesGap | src/league_api/jobs/profile.py:294-328 | a run on an up-to-date store, however it ends, leaves linked what was linked and a prefix of the new ids |
| ProfileGaps.NextRefreshRecovers | src/league_api/jobs/profile.py:166-184 | the next complete refresh makes up for an interrupted run if and only if that had linked nothing or everything, or all it was to link lies before the end of the page with the first linked id |
| ProfileGaps.LostForGood | src/league_api/jobs/profile.py:166-184 | if it does not, what it did not come to is never linked by any sequence of later refreshes, though upstream lists it |
| ProfileGaps.OnlyTheLatestPage | src/league_api/jobs/profile.py:166-184 | for any player with more than a page of matches, a first run cancelled right after linking the latest match leaves a store from which the next complete refresh links exactly the latest page |
| ProfileTheorems.TieBreaksOrder | src/league_api/matches/store.py:59-69 | two new matches with equal creation times come out in reverse upstream order |
| LadderPlayers.MatchDiscovery.ScanMatchIdPages | src/league_api/jobs/ladder_players.py:311-345 | the page loop extends the player's list and the counters exactly as the scan function and says where to resume |
| LadderPlayers.MatchDiscovery.Discover | src/league_api/jobs/ladder_players.py:214-235 | the first scan of all players and up to three deferred passes over the failed pages |
| LadderScan.ScanFillsGap | src/league_api/jobs/ladder_players.py:311-345 | a scan adds exactly the ids between its start and its resumption, and again those of the page there if it was answered and its progress could not be recorded |
| LadderScan.ScanCounts | src/league_api/jobs/ladder_players.py:322-345 | every request is logged and counted as fetched or failed, as both exactly when it was answered and its progress could not be recorded, and belongs to the player scanned |
| LadderTheorems.ScanIsExact | src/league_api/jobs/ladder_players.py:214-246 | for any failing and unrecorded requests, any list of players and any number of passes, no page left to retry begins beyond the furthest answered page, whose end is the end of the list when none is left; the player's ids are the upstream prefix up to there, and no shorter one, if and only if no page of theirs was answered twice with ids |
| LadderTheorems.MergedScanIsExact | src/league_api/jobs/ladder_players.py:248-259 | in all those runs dropping repetitions from the player's ids gives the upstream ids up to the end of the furthest answered page, in upstream order, and all of them when no page is left to retry |
| LadderTheorems.ListedOnceIsExact | src/league_api/jobs/ladder_players.py:214-246 | a player listed once has at most one page left to retry, and their ids are the upstream prefix up to its start, or the whole list, if and only if none of their pages was answered with ids and not recorded |
| LadderTheorems.CompleteScanIsExact | src/league_api/jobs/ladder_players.py:214-246 | with no page left to retry, a player's ids are the upstream list if and only if it is empty, or the player is listed once and every answered page of theirs was recorded |
| LadderTheorems.PagesAreCounted | src/league_api/jobs/ladder_players.py:322-345 | every request sent is counted, and pages attempted are pages fetched and failed if and only if no answered request went unrecorded; each that did counts twice |
| LadderTally.LeftMeansFourStops | src/league_api/jobs/ladder_players.py:214-246 | a page is left after discovery only if the first scan of its player and three deferred ones were each stopped, at that page or before it, by a request that failed or could not be recorded |
| LadderTally.CountersCountTheLog | src/league_api/jobs/ladder_players.py:219-235 | pages with results are the requests answered with ids, and players and retries counted together are the requests that ended a scan: failed, unrecorded, or answered with a page that is not full |
| LadderReferences.ReferencesConserved | src/league_api/jobs/ladder_players.py:248-264 | from an empty reference store, every player refers to exactly the ids found for them, the counts are positive exactly for the unique ids, sum to the ids discovered, and exceed one by the duplicates in sum |
| LadderFetch.InMemoryMatchReferenceStore.Upsert | src/league_api/matches/references.py:24-26 | adds the ids to those the player refers to already and to nobody else's |
| LadderFetch.InMemoryMatchReferenceStore.CountsForPlayers | src/league_api/matches/references.py:28-34 | for every match somebody listed refers to, the number of listed players that do |
| LadderFetch.DetailsOutcome | src/league_api/jobs/ladder_players.py:269-302 | fetched details and detail errors add up to the unique ids, the errors are exactly the ids not obtained, each once, the arrived payloads are added and no stored one is replaced |
| LadderFetch.LinksOutcome | src/league_api/jobs/ladder_players.py:269-308 | each player gains links exactly to discovered matches that are available, in the order of their discovery in front of the old ones, and every linked id is stored |
| LadderPlayers.RecordReferences | src/league_api/jobs/ladder_players.py:249-259 | the loop records every player's distinct ids and collects the unique ones in the order they are met |
| LadderPlayers.FetchMissingDetails | src/league_api/jobs/ladder_players.py:269-302 | stored details are reused, missing ones fetched, and a failure is noted without stopping |
| LadderPlayers.DiscoverAndFetchMatches | src/league_api/jobs/ladder_players.py:201-308 | after the scan every player refers to exactly the upstream ids up to the furthest page answered for them, to the whole list when no failed page of theirs is reported, and gains links to exactly those of them that are available, in upstream order in front of the old ones; the report lists exactly the ids found and the ids not obtained, its totals balance, and payloads are only added |
| RiotRequests.RiotClient.GetJson | src/league_api/riot/client.py:207-444 | a call answers from the cache exactly when a fresh or stale entry may be read; else it ends without a request if there is no key, and otherwise as its replies and the limiter decide: every request has its own grant, every reply but the last is a 429 and paused after as it asks, the last one gives the result, the limiter's last answer a refusal or a configuration error; the events are exactly those of these requests and pauses and the waits for the budget; only a live payload is stored |
| RiotRequests.RiotClient.SendUntilAnswered | src/league_api/riot/client.py:272-401 | the request loop goes on only after 429 replies, pausing the limiter for what each one asks, and ends with the payload of a 2xx reply, a rate-limit error after the last retry, an API error for anything else, or the limiter's refusal or configuration error; it starts its k-th request when the limiter's log has grown by exactly k grants of this audience |
| RiotRequests.LastReplyDecides | src/league_api/riot/client.py:272-415 | the last reply received decides: a payload exactly for 2xx, an API error exactly for no response or a status that is neither 2xx nor 429, a rate-limit error exactly for a 429 with no retry left, and all replies before it are 429 |
| RiotRequests.StartsArePaced | src/league_api/riot/client.py:272-365 | in such a call the log held exactly as many new grants at the start of each request as requests had been started with it |
| RiotRequests.RequestsBounded | src/league_api/riot/client.py:272-365 | every event sequence the grammar accepts starts at most max_retries + 1 requests |
| JobEvents.JobRecord.RecordEvent | src/league_api/jobs/store.py:255-273 | appends the event, keeps the last hundred of all, and sets, clears or leaves the current wait |
| JobEvents.JobRecord.HandleEvent | src/league_api/jobs/ingestion.py:213-245 | a wait becomes the current one, a start or success clears it, a failure leaves it |
| JobEvents.LogFollows | src/league_api/jobs/ingestion.py:209-247 | for any events, the record holds the last hundred of them, or all if fewer, and its current wait is the latest event that is no failure, if that is a wait |
| JobEvents.CurrentWaitIsLatestEvent | src/league_api/jobs/ingestion.py:209-247 | for a job's calls one after the other, the current wait is set exactly when the latest event is a rate-limit wait |
| ResponseCache.InMemoryRiotCacheStore.Put | src/league_api/riot/cache.py:89-119 | prunes what is dead and stores the entry with its two deadlines |
| ResponseCache.InMemoryRiotCacheStore.PruneExpired | src/league_api/riot/cache.py:77-87 | removes exactly the dead entries and counts them |
| ResponseCache.PruningIsInvisible | src/league_api/riot/cache.py:77-119 | with stale windows that are not negative, as the settings demand, readers that check the status see under every key what a never-pruned map would show |
| ResponseCache.WhenPruningShows | src/league_api/riot/cache.py:77-119 | for any operations and any windows, pruning shows to such a reader exactly when the entry was pruned after its stale time and has not expired |
| ResponseCache.ServedIsLastAndYoung | src/league_api/riot/client.py:242-266 | what is served is the last payload stored under the key and no older than its time to live plus stale window |
| ResponseCache.ServedExactly | src/league_api/riot/client.py:242-266 | under a key last stored is served, as a hit until its time to live is over unless something was stored or pruned after its stale window, as stale from then to the end of that window, and not otherwise; under a key last removed nothing |
| PercentEncoding.DecodeEncode | src/league_api/experimental_frontend/__init__.py:48-50 | UTF-8 decoding gives back every encoded text |
| PercentEncoding.UnquoteQuote | src/league_api/experimental_frontend/__init__.py:48-50 | unquoting gives back every quoted text |
| PercentEncoding.QuotedCharacters | src/league_api/experimental_frontend/__init__.py:48-50 | quoted text has only unreserved characters and percent signs, and hyphens only where the text has them |
| PercentEncoding.Utf8Form | src/league_api/experimental_frontend/__init__.py:48-50 | each character is encoded in the one to four bytes of section 3 of RFC 3629 that carry its number |
| PercentEncoding.QuotedByteForm | src/league_api/experimental_frontend/__init__.py:48-50 | a byte is quoted as the unreserved character it stands for, and else as a percent sign and two upper-case hexadecimal digits of its value |
| ProfileSlugs.SlugRoundTrip | src/league_api/experimental_frontend/__init__.py:48-78 | a built slug parses to the stripped names and itself if and only if neither name is empty or has a hash sign and the tag line has no hyphen |
| ProfileSlugs.HyphenatedTagIsLost | src/league_api/experimental_frontend/__init__.py:64-70 | a slug built for a tag line with a hyphen never parses to that tag line |
| ProfileSlugs.CanonicalSlugIsStable | src/league_api/experimental_frontend/__init__.py:53-78 | the canonical slug of any parsed slug leads back to the same profile if and only if its tag line has no hyphen |
| ProfileSlugs.ParsedNames | src/league_api/experimental_frontend/__init__.py:64-78 | whatever a slug parses to has trimmed names that are not empty and have no hash sign, the Riot id that joins them by one, and the slug that joins them, quoted, by a hyphen |

## Left out

- RateLimiter.RiotRateLimitManager.constructor: demands at least one limit, positive windows and counts; the program raises on an empty list and its settings exclude the rest.
- RateLimiter.RiotRateLimitManager.Acquire: nobody else uses the limiter during the call; interleaved callers are covered by the run theorems, which are about single attempts.
- RiotRequests.RiotClient.GetJson: a client without a limiter, failing cache reads and writes, and a raising event handler are not modelled; the waits of one acquisition are emitted together before the request.
- ProfileGaps.LostForGood: complete refreshes are the only writers; a ladder job or a run over a given list may link what is missing.
- LadderTheorems.PagesAreCounted: the update of the progress after a failed page returns; if it raises, the whole job fails there.
- JobSafety.AcceptedJobsAreKept: only ids of stored jobs are enqueued, as the routes and the recovery do.
- JobFinality.OneActiveProfileJob: the work key is taken as given, so names that differ only by the key's separator are not told apart.
- Floating-point rounding, and a clock read just before the limiter's lock is taken; delays are real numbers.
- Parsing of Retry-After headers, including dates; the pause is an arbitrary number of seconds or missing.
- Real Redis: networking, lock timeouts, the 86,400-second lifetime of job locks, hosts whose clocks differ, and the order of members with equal scores.
- The Redis limiter's own acquire loop, which is the same loop around its attempt.
- All Postgres stores and migrations; the in-memory stores are the reference.
- HTTP routes, headers, JSON payload shapes, logging, HTML; match pages are lists of ids.
- An upstream that changes during one profile run, and manager deletes in the middle of a run.
- Results, progress counters and partial results of jobs other than those of the ladder scan; the identity store.
- The single-page ladder ingestion job, routing tables, and the operator limiter, which repeats the window argument.
- Cache keys: hashing and canonical JSON are taken as injective; a lone surrogate in a name, which quoting rejects, has no place in the text type.
