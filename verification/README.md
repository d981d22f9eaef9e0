# A verified model of the gateway's health, routing, quota and relay core

The gateway sits between chat clients and a few vLLM replicas. This project models the parts of it that keep state
across requests, and proves what they promise over whole runs:

- **Breaker** (`Breaker.dfy`, `BreakerHistory.dfy`): one replica's circuit breaker, as a mutable object proved against a
  value-level specification, and theorems about arbitrary histories of that specification.
- **Wedge detection** (`Scrape.dfy`, `Wedge.dfy`): reducing a metrics exposition, the stall detector, the poller.
- **Health over a run** (`Prober.dfy`): scrapes, request outcomes, prober visits and probe results of one replica,
  interleaved freely on one clock. The prober reads the clock once per pass but reads suspicions, and stamps probe
  results, when it gets to them; a scrape is stamped when its poll starts.
- **Pool** (`Pool.dfy`, `Upstream.dfy`): outcome classification, round-robin choice, the registry, and the bounded retry
  loop. What other tasks do at an await is an arbitrary function of the state they find.
- **Quota** (`Quota.dfy`): per-key token budgets and concurrency caps.
- **Gateway** (`Gateway.dfy`, `Route.dfy`): any number of chat requests over any number of keys, interleaved with each
  other and with the prober; a step is a stretch of code between two awaits. `Route` runs the route's own code on the
  mutable quota and is proved to take those steps.
- **Fleet** (`Fleet.dfy`): the two together, many requests over many replicas on one clock. Every run of the whole is
  proved to be a Gateway run for its requests and a Prober run for each replica, so the theorems of both hold of it.
- **Relay** (`Relay.dfy`): the streaming passthrough that cuts server-sent events (section 9.2 of the WHATWG HTML
  Standard) off an incremental buffer.
- **Reasoning blocks** (`StripThink.dfy`): the two substitutions and the trim that remove them.

`Basics.dfy` holds what all of them share. Runs are sequences of events; `At(h, n)` is the state after the first `n`, so
a theorem for every `n` speaks of every moment of every run. Objects the source updates in place are classes here, and
each method's contract gives its whole new state as a function of the old one.

## What the proofs turned up

- **A wedge trip can be stamped too early.** `_breaker_prober` reads `now` once per pass (`gateway/main.py:59`) and hands
  that value to `record_wedge`, while `wedge_suspected` reads the clock afresh when the pass gets to the replica. The
  trip is sound at the moment of the visit (`Prober.WedgeTripIsSound`). Counted back from the breaker's `opened_at`, the
  stall has lasted a window exactly if every scrape since the first confirmation that broke the stall was followed by one
  that is a window older than that stamp; so always, unless the stall broke and restarted between the two confirming
  visits (`Prober.TripStampCoversWindow`), for which those visits must be a whole window apart, so a pass held up for that
  long (`Prober.PromptPassCoversWindow`). Then it can fail: for every window there is a run of passes in order, with a
  stall that restarts, whose trip is stamped when no stall had lasted a window (`Prober.TripStampCanPredateWindow`).
  What holds a pass up is the probes of other replicas, each for at most `UPSTREAM_PROBE_TIMEOUT_SEC` (2 s by default,
  against a window of 120 s), or a stalled event loop: with a single replica, or few, and the default settings only the
  latter does, as nothing is awaited between `gateway/main.py:59` and a visit but those probes.
- **A wedge can be confirmed by one scrape.** The docstring of `record_wedge` says the second confirmation costs one
  scrape interval (`gateway/upstream/breaker.py:148-151`). The code confirms at the next prober visit: for every window
  there is a run whose two confirming visits have seen the very same polls (`Prober.OneScrapeCanConfirmItself`). They
  have seen different scrapes exactly if a poll with the token counter completed in between
  (`Prober.ConfirmedOnNewScrape`): surely if they are further apart than the latest scrape is old
  (`Prober.SlowVisitsSeeNewScrape`), and surely not if both fall into the gap after one poll
  (`Prober.FastVisitsSeeSameScrape`). By default the prober ticks every second and polls are five seconds apart.
- **Some line ends hide events.** Section 9.2 of the HTML Standard ends lines with CR LF, LF or CR. The relay never cuts
  anywhere but at the end of a blank line (`Relay.CutsAtBlankLines`), and finds all events of a stream exactly if
  nowhere a CR directly follows the end of a line that is not blank (`Relay.EveryEventIsFound`): always without CRs, and
  never a single one if every LF follows a CR. What is not found is not charged (`Route.StreamIsCharged`).
- **A non-positive wedge window suspects every replica that was ever polled** (`Wedges.SuspectedExactlyWhenStalled`),
  idle ones included, since a stall of zero seconds already reaches it.
- **A backoff can be negative**, exactly when the upstream sends a negative Retry-After (`Pool.DelayBounded`).

## Model

| member | source | states |
|---|---|---|
| `Breakers.ReplicaBreaker.constructor` | gateway/upstream/breaker.py:99-114 | a new breaker is closed, unscored and never tripped |
| `Breakers.ReplicaBreaker.Threshold` | gateway/upstream/breaker.py:116-117 | the object's threshold is the one the history theorems speak of: full, or half while on probation |
| `Breakers.ReplicaBreaker.RecordSuccess` | gateway/upstream/breaker.py:128-133 | the object moves as the specification step of a success: score and confirmations cleared, nothing else |
| `Breakers.ReplicaBreaker.RecordFailure` | gateway/upstream/breaker.py:135-141 | the object moves as the specification step of a failure, trip included |
| `Breakers.ReplicaBreaker.RecordWedge` | gateway/upstream/breaker.py:143-168 | the object moves as the specification step of a wedge check; a first confirmation never trips |
| `Breakers.ReplicaBreaker.Trip` | gateway/upstream/breaker.py:170-175 | the object enters the specification's open state, counting the trip |
| `Breakers.ReplicaBreaker.DueForProbe` | gateway/upstream/breaker.py:181-186 | answers the specification's due test and changes nothing |
| `Breakers.ReplicaBreaker.RecordProbe` | gateway/upstream/breaker.py:188-208 | the object moves as the specification step of a probe: reopened with a doubled window, half open, or closed |
| `Breakers.ReplicaBreaker.Reclose` | gateway/upstream/breaker.py:210-217 | the object enters the specification's closed state on probation |
| `Breakers.ReplicaBreaker.SecondsUntilProbe` | gateway/upstream/breaker.py:223-230 | answers the specification's wait and changes nothing |
| `Breakers.WaitIsHonest` | gateway/upstream/breaker.py:181-186 | for a breaker that is not closed the wait is zero iff a probe is due, lies in 0..60 s, and the probe is due at a later time iff the wait has elapsed |
| `BreakerHistory.StepKeepsSane` | gateway/upstream/breaker.py:99-230 | every admissible call keeps: closed means no good probes, no opened_at, 15 s window; half open means exactly one good probe; and no timer ever lies in the future |
| `BreakerHistory.ReachableSane` | gateway/upstream/breaker.py:99-230 | hence every reachable breaker satisfies that invariant |
| `BreakerHistory.TripsMinusCloses` | gateway/upstream/breaker.py:170-217 | trips minus closes is 0 while closed and 1 otherwise, at every moment |
| `BreakerHistory.ScoreIsFailureWeight` | gateway/upstream/breaker.py:128-141 | while closed, the incremental score is the summed weight of the failures since the latest of start, success and close |
| `BreakerHistory.ThresholdIsProbation` | gateway/upstream/breaker.py:116-117 | the threshold in force is 3 iff the latest close is less than 60 s old, else 6 |
| `BreakerHistory.ConfirmationsMeanConfirmed` | gateway/upstream/breaker.py:157-168 | while closed, the confirmation counter is 1 iff the latest wedge check was positive with no success and no outage since, else 0 |
| `BreakerHistory.OpensExactlyAtThreshold` | gateway/upstream/breaker.py:135-168 | a closed breaker opens iff a weighted failure brings the sum since the last reset to the threshold in force, or a wedge check confirms an unrevoked one; the trip is stamped with that event |
| `BreakerHistory.OpensInCounts` | gateway/upstream/breaker.py:74-96 | in numbers: a failure opens a closed breaker iff it is a failed connect, a read timeout or a server error and 3 times the former two plus the latter, since the last reset, reach 6, or 3 less than 60 s after a close |
| `BreakerHistory.ClosedIsBelowThreshold` | gateway/upstream/breaker.py:135-141 | with outcome stamps in order, a closed breaker is strictly below the threshold at every later time, so it opened at the first failure that could open it |
| `BreakerHistory.HalfOpenMeansPending` | gateway/upstream/breaker.py:197-208 | half open iff the latest probe of the outage still on was good |
| `BreakerHistory.ClosesExactlyOnSecondGoodProbe` | gateway/upstream/breaker.py:188-217 | a breaker closes iff this probe and the latest one before it in the same outage were good with no live wedge signal; no request outcome ever closes it |
| `BreakerHistory.SameDecisionsStep` | gateway/upstream/breaker.py:128-141 | the bisimulation step: breakers that differ only in the two counters nobody reads outside CLOSED stay so, and noise keeps them so |
| `BreakerHistory.ErasingNoise` | gateway/upstream/breaker.py:119-141 | deleting all 429s, all client errors and all outcomes that land while not closed changes no state, timer, trip count, routing or probe decision or wait at any moment of any history |
| `BreakerHistory.ErasureIsThorough` | gateway/upstream/breaker.py:119-141 | what is left has no 429, no client error and no outcome while not closed in it, and every wedge check and probe |
| `BreakerHistory.NoiseIsInvisible` | gateway/upstream/breaker.py:119-141 | two histories that differ only in such noise cannot be told apart |
| `Scrape.Parse` | gateway/upstream/metrics_scraper.py:87-101 | the nested loops report a name iff it is listed and sampled, with the sum (the maximum for the ratio) over all samples of exactly that name |
| `Scrape.SeriesAre` | gateway/upstream/metrics_scraper.py:60-70 | by name: seven series are reported by their sums, the cache ratio by its maximum, each iff sampled, and no other name ever |
| `Scrape.TotalIsSum` | gateway/upstream/metrics_scraper.py:97-98 | a total is additive over samples and takes exactly the value of each sample of its name |
| `Scrape.FlattenIsAll` | gateway/upstream/metrics_scraper.py:90-91 | all samples of all families are reduced, in order |
| `Scrape.OneMore` | gateway/upstream/metrics_scraper.py:92-100 | folding in one sample keeps a reduction of the samples so far, for any series table |
| `Scrape.TotalIgnoresOrder` | gateway/upstream/metrics_scraper.py:97-98 | a sum depends on the bag of samples only |
| `Scrape.OnlyTheBagMatters` | gateway/upstream/metrics_scraper.py:87-101 | reordering samples, regrouping them into families, and adding or removing unlisted names never changes the result |
| `Wedges.WedgeDetector.constructor` | gateway/upstream/metrics_scraper.py:104-113 | a new detector has seen nothing and suspects nothing yet |
| `Wedges.WedgeDetector.Observe` | gateway/upstream/metrics_scraper.py:115-144 | the object moves as the specification fold of one scrape |
| `Wedges.WedgeDetector.Suspected` | gateway/upstream/metrics_scraper.py:154-158 | the object answers as the specification's suspicion |
| `Wedges.DetectorMeaning` | gateway/upstream/metrics_scraper.py:115-152 | after any polls the detector remembers the last counter and the stamp of the first scrape of the maximal stalled suffix of informative scrapes, and nothing else |
| `Wedges.ObservationsAreScrapes` | gateway/upstream/metrics_scraper.py:115-138 | the observations the detector remembers are the scrapes with the token counter, all and in order, each with that counter, its stamp, and waiting > 0 iff the scrape shows requests waiting |
| `Wedges.OnlyInformativeScrapesMatter` | gateway/upstream/metrics_scraper.py:117-152 | failed scrapes, and scrapes without the token counter, can be erased |
| `Wedges.SuspectedExactlyWhenStalled` | gateway/upstream/metrics_scraper.py:138-158 | suspected iff some stall reaching the latest informative scrape began a window ago, or the window is not positive |
| `Wedges.IdleOrMovingIsNeverSuspected` | gateway/upstream/metrics_scraper.py:131-144 | for a positive window, replicas that are always idle, or whose counter changes at every scrape (restarts included), are never suspected |
| `Wedges.UpstreamMetricsPoller.constructor` | gateway/upstream/metrics_scraper.py:164-167 | a new poller has no detectors |
| `Wedges.UpstreamMetricsPoller.DetectorOf` | gateway/upstream/metrics_scraper.py:169-174 | one detector per replica, created at its first poll, shared with no other |
| `Wedges.UpstreamMetricsPoller.WedgeSuspected` | gateway/upstream/metrics_scraper.py:176-179 | suspected iff the replica has a detector that suspects |
| `Wedges.UpstreamMetricsPoller.PollOne` | gateway/upstream/metrics_scraper.py:185-242 | one poll moves only that replica's detector, and only by a reply below 400 that reduces to something; every other reply is no information; reachability bookkeeping follows |
| `Prober.VisitBreaker` | gateway/main.py:60-69 | a visit feeds a closed breaker the fresh suspicion under the pass's clock reading, and probes another one iff it is due |
| `Prober.FinishProbe` | gateway/main.py:70-73 | a probe's verdict is folded in with its own stamp and the suspicion of that moment, of that replica |
| `Prober.NothingBlocks` | gateway/main.py:37-73 | scrapes and requests may end at any time in any way, and the prober come round or its probe end at any time |
| `Prober.Reachable` | gateway/main.py:57-73 | in every interleaving a probe in flight was due when it was sent, its breaker is still not closed, and no timer lies in the future |
| `Prober.RunsAreGated` | gateway/main.py:64-73 | every interleaved run is, for its breaker, a gated history with the run's state as its result |
| `Prober.RunsAreTimed` | gateway/main.py:57-73 | that history has non-negative stamps, those of outcomes and probes in order and never ahead of the clock, so with the row above all history theorems hold of runs |
| `Prober.RunsStayBelowThreshold` | gateway/upstream/breaker.py:135-141 | at every moment of every run a closed breaker is strictly below the threshold in force, now and later |
| `Prober.AdvertisedWait` | gateway/upstream/breaker.py:223-230 | at every moment of every run an open replica's wait is exact and at most 60 s |
| `Prober.OutageTimers` | gateway/upstream/breaker.py:188-208 | throughout an outage the window is min(15*2^k, 60) after k failed probes, half-open flaps included, and the timers respect all earlier windows |
| `Prober.MinimumOutage` | gateway/main.py:68-73 | in every run the close comes at least the sum of the windows 0..k plus 5 s after the trip, for k failed probes |
| `Prober.BackInService` | gateway/upstream/breaker.py:181-217 | a replica in service again after a trip, however often down since, is so at least the shortest outage after that trip's stamp |
| `Prober.OutageFloorClosedForm` | gateway/upstream/breaker.py:83-92 | that bound is 20 s without failed probes, and 60k - 10 s with k of them |
| `Prober.MinimumOutageIsTight` | gateway/main.py:57-73 | for every k some run meets the bound exactly |
| `Prober.RecoveryIsPrompt` | gateway/upstream/breaker.py:83-96 | if from some moment on no probe fails, the prober is back within tick, reads its clock at most late early and probes within probe seconds, the breaker is closed at most 65 + 2(tick + late + probe) s later |
| `Prober.DetectorHasSeen` | gateway/upstream/metrics_scraper.py:185-208 | in every run the detector is the fold of the completed polls, whose stamps are in order |
| `Prober.SeenIsTold` | gateway/upstream/metrics_scraper.py:185-208 | what the detector has seen in a run is what the telling polls show, all of it and in order |
| `Prober.SuspicionMeaning` | gateway/upstream/metrics_scraper.py:138-158 | for a positive window, suspicion at time t means two telling polls in a row with one counter, the second at most t - window old, from which on every telling poll, also every later-stamped one, shows requests waiting and that counter |
| `Prober.CoversIsStall` | gateway/upstream/metrics_scraper.py:115-144 | the stalls observed are exactly the stalls the polls show |
| `Prober.ConfirmationHasVisit` | gateway/main.py:60-67 | a standing confirmation comes from a visit that found the signature, with no other visit, success or trip since |
| `Prober.WedgeTripIsSound` | gateway/main.py:57-73 | in any interleaving, a breaker opens at a failure or at a visit; if at a visit, that visit and the one before it both saw a stall of a whole window, with no success between |
| `Prober.WedgeTripsExactly` | gateway/main.py:57-73 | for a positive window, a visit opens a closed breaker iff the polls show a stall of a whole window at that visit and at the one before it, with no success and no outage in between |
| `Prober.TripStampCoversWindow` | gateway/main.py:59-66 | the trip bears the pass's clock reading; counted back from it the stall covers the window iff every scrape since the first confirming visit that broke the stall was followed by one a window older than the stamp |
| `Prober.PromptPassCoversWindow` | gateway/main.py:57-78 | and it always does when less than a window passes between the two confirming visits |
| `Prober.TripStampCanPredateWindow` | gateway/main.py:59-66 | for every positive window there is a run, its passes in order, whose trip is stamped when no stall had yet lasted a window |
| `Prober.ConfirmedOnNewScrape` | gateway/upstream/breaker.py:143-168 | the two confirming visits of a wedge trip saw different scrapes iff a poll with the token counter completed in between |
| `Prober.SlowVisitsSeeNewScrape` | gateway/upstream/breaker.py:143-168 | visits further apart than the age of the latest telling poll at the second one confirm on a new scrape |
| `Prober.FastVisitsSeeSameScrape` | gateway/upstream/breaker.py:143-168 | with telling polls at least a gap apart, two visits within that gap of one of them confirm on that one |
| `Prober.OneScrapeCanConfirmItself` | gateway/upstream/breaker.py:143-168 | for every positive window there is a wedge trip whose two confirming visits saw the very same polls |
| `Pool.Taxonomies` | gateway/upstream/client.py:143-177 | successes are exactly the responses below 400; retried are exactly exceptions other than a read timeout, and 429, 502, 503, 504; whatever is retried is a failure; a retried failure without weight is exactly a 429; a read timeout weighs like a connect failure |
| `Pool.DelayBounded` | gateway/upstream/client.py:180-196 | no backoff exceeds 2 s; a Retry-After of at most 2 s is honoured to the letter, so a backoff is negative iff that is; without one the first waits at most 0.25 s and the second at most 0.5 s |
| `Pool.CandidatesAreClosed` | gateway/upstream/client.py:288-296 | candidates are closed replicas of the list; none exactly when none is closed; the excluded one only when no other is closed |
| `Pool.CandidatesAreAllClosed` | gateway/upstream/client.py:288-296 | without exclusion each closed replica is a candidate as often as it is listed, and nothing else; with one, each closed replica but the excluded one if there is such, and else each closed one |
| `Pool.PickIsSafe` | gateway/upstream/client.py:284-305 | only a closed replica is picked; pick raises iff none is closed, whatever is excluded; the cursor stays a valid index as candidate lists grow and shrink |
| `Pool.RetryGoesElsewhere` | gateway/upstream/client.py:289-296 | a pick leaves the excluded replica whenever another one is closed |
| `Pool.CursorAdvances` | gateway/upstream/client.py:304 | after n picks without exclusion from one list the cursor is (start + n) mod its length, from any start and whatever happened between the picks |
| `Pool.PickTakesTurn` | gateway/upstream/client.py:284-305 | the i-th of them takes the i-th turn of the rotation, each pick finding its own breakers and clock |
| `Pool.RoundRobinIsFair` | gateway/upstream/client.py:284-305 | as many picks as there are candidates return each of them exactly as often as it is listed, while the list stays, whatever else the breakers do in between |
| `Pool.PicksAreFair` | gateway/upstream/client.py:284-305 | so, while the same replicas are closed (or all of them, with the breaker disabled), as many picks as there are of them choose each exactly as often as it is listed, so once for distinct URLs, and no other |
| `Pool.SameRotation` | gateway/upstream/client.py:288-296 | and the list stays as long as no replica closes or stops being closed |
| `Pool.RetryAfterIsHonest` | gateway/routes/chat.py:183-187 | when pick raises, the header (section 10.2.3 of RFC 9110) is in 1..60, some replica is due for its probe that many seconds later, and one second less is too few for every replica unless the header is 1 |
| `Upstream.BreakerRegistry.Reset` | gateway/upstream/breaker.py:239-242 | one fresh breaker per listed replica, and no other |
| `Upstream.BreakerRegistry.Get` | gateway/upstream/breaker.py:244-247 | the breaker filed under the URL, made if missing; all others untouched |
| `Upstream.BreakerRegistry.RecordFor` | gateway/upstream/client.py:307-316 | one outcome moves one replica's breaker, and no other |
| `Upstream.UpstreamPool.constructor` | gateway/upstream/client.py:200-205 | a pool over a non-empty list starts with all breakers fresh |
| `Upstream.UpstreamPool.SetUrls` | gateway/upstream/client.py:207-219 | an empty list is refused and changes nothing; otherwise no breaker or cursor of the old list survives |
| `Upstream.UpstreamPool.PickReplica` | gateway/upstream/client.py:251-305 | the mutable pick makes exactly the specified choice and cursor, for the state it finds |
| `Upstream.UpstreamPool.Record` | gateway/upstream/client.py:307-316 | one attempt moves the breaker of the replica it used, and nothing else |
| `Upstream.UpstreamPool.Await` | gateway/upstream/client.py:387-390 | an await leaves the state other tasks make of it |
| `Upstream.MeanwhileAnything` | gateway/upstream/client.py:387-390 | other tasks may leave any state with a valid cursor and the same set of breakers |
| `Upstream.UpstreamPool.TryOnce` | gateway/upstream/client.py:330-353 | one attempt is a pick in the state found, then whatever other tasks do during the send, then one record, in the state they left, for the replica picked |
| `Upstream.AttemptIsSound` | gateway/upstream/client.py:330-353 | one attempt starts on a listed replica that is closed in the state picked in, and moves that breaker alone, as its outcome's kind demands |
| `Upstream.UpstreamPool.WithRetry` | gateway/upstream/client.py:355-395 | the loop makes exactly the specified call: same result, same replicas tried, same responses closed, same cursor and breakers left, for every behaviour of the upstreams and of other tasks |
| `Upstream.CallPromises` | gateway/upstream/client.py:355-395 | every such call: at most two attempts; each starts on a replica closed at that moment and is recorded once, there, by its kind; the second only after a retryable first, and elsewhere if another is closed; NoReplica only when none is closed at that moment, with the shortest wait; every streamed response closed but the delivered one |
| `Quotas.QuotaTracker.constructor` | gateway/quota.py:43-46 | a new tracker counts nothing |
| `Quotas.QuotaTracker.TokensUsed` | gateway/quota.py:48-49 | the object's reading is the specification's |
| `Quotas.QuotaTracker.CheckTokenBudget` | gateway/quota.py:51-59 | rejects iff the key has used its budget up, changing nothing |
| `Quotas.QuotaTracker.Charge` | gateway/quota.py:61-63 | the object moves as the specification step of a usage report |
| `Quotas.QuotaTracker.AcquireSlot` | gateway/quota.py:65-76 | rejects iff the key is at its cap, changing nothing; otherwise takes one slot of that key |
| `Quotas.QuotaTracker.ReleaseSlot` | gateway/quota.py:78-80 | gives one slot of that key back, never below zero |
| `Quotas.QuotaTracker.Reset` | gateway/quota.py:82-85 | clears both counters of every key |
| `Quotas.KeyIsolation` | gateway/quota.py:43-80 | projecting any interleaved run onto one key's operations gives the same verdicts and the same counters for that key |
| `Quotas.ProjectIsOneKeys` | gateway/quota.py:43-80 | the projection holds all operations of the key, as often as they occur, and no others |
| `Quotas.CountersAreExact` | gateway/quota.py:48-80 | tokens used are the exact sum of the positive totals; in-flight is never negative, and is grants minus releases as long as no release was stray |
| `Quotas.VerdictsAreExact` | gateway/quota.py:51-76 | a budget check rejects iff the positive totals recorded for the key reach the budget, an acquisition iff the slots granted and not given back reach the cap |
| `Route.Admission` | gateway/routes/chat.py:146-163 | on the mutable quota: budget first, then the slot, a slot owed only if it was granted; exactly the admission step of `Gateway` |
| `Route.AfterPick` | gateway/routes/chat.py:170-197 | a pick that raised ends the request through the handlers that own its slot; otherwise a send starts |
| `Route.AfterSend` | gateway/routes/chat.py:177-228 | from a recorded reply to the next await: retry, hand-over, or end, with the slot given back on the path that owns it and usage charged after the release |
| `Route.AfterDrain` | gateway/routes/chat.py:357-367 | a drained error response ends a stream, its slot given back by the `except` and not by the route |
| `Route.AfterRelay` | gateway/routes/chat.py:402-410 | the relay's `finally` gives the slot back and charges the last usage seen |
| `Route.RelayAnswer` | gateway/routes/chat.py:369-410 | a whole relayed answer: bytes passed on unchanged, slot given back, and the last usage among the stream's events charged |
| `Route.StreamIsCharged` | gateway/routes/chat.py:386-410 | the end of a stream charges its key the last usage among the events found, and nothing if the stream has no separator |
| `Route.RecordUsage` | gateway/routes/chat.py:231-255 | a report without counts is not charged; a missing count adds nothing |
| `Gateway.NothingBlocks` | gateway/routes/chat.py:146-228 | whatever an unfinished request waits for may come at any later time with any outcome, and new ones may always arrive |
| `Gateway.NextOk` | gateway/routes/chat.py:146-228 | every step of a request keeps its attempt, slot and response ledgers in order |
| `Gateway.LedgersBalance` | gateway/routes/chat.py:154-197 | in every interleaving, every request has made at most two attempts, recorded each once where it ran, and, once finished on any exit, has given back exactly the slot it took and closed every streamed response once |
| `Gateway.ExitsAreHonest` | gateway/upstream/client.py:378-395 | in every run a client is told what its last attempt came to, and never before a retry that was due; only a pick with an attempt left or the admission gate ends a request otherwise |
| `Gateway.EndsAreTold` | gateway/routes/chat.py:199-206 | a reply whose body is not JSON ends as a bad response and any other one as the answer; a broken stream is reported as one |
| `Gateway.BreakersAreHistories` | gateway/upstream/client.py:307-316 | however requests interleave, each replica's breaker is what its own replies and probes alone make of it, as a gated history |
| `Gateway.BreakersAreTimed` | gateway/upstream/client.py:307-316 | that history has non-negative stamps, those of outcomes and probes in order and never ahead of the clock, so with the row above all history theorems hold of every breaker of every run |
| `Gateway.BreakersStayBelowThreshold` | gateway/upstream/breaker.py:135-141 | at every moment of every run every closed breaker is strictly below the threshold in force, now and later |
| `Gateway.AttemptBound` | gateway/upstream/client.py:80-86 | n client requests cause at most 2n upstream requests |
| `Gateway.PoolInvariant` | gateway/upstream/client.py:284-316 | in every run the cursor is an index of the list, every replica has a breaker with its timers past, and sends go to listed replicas only |
| `Gateway.RoutingSafety` | gateway/upstream/client.py:284-305 | with the breaker enabled, every attempt of every run starts on a closed replica, elsewhere than before whenever another is closed; a request is turned away iff none is closed, with an exact Retry-After |
| `Gateway.RunsTakeTurns` | gateway/upstream/client.py:304-305 | in every run attempts that find the same candidates, none excluding any, take turns from the cursor on |
| `Gateway.RunsAreFair` | gateway/upstream/client.py:284-305 | in every run, while the same replicas are closed whenever an attempt picks, and none excludes any, as many attempts as there are closed replicas send to each exactly as often as it is listed and to no other, whatever is recorded, probed and admitted in between |
| `Gateway.CountMovesWithHold` | gateway/quota.py:65-80 | a step moves a key's in-flight count with that request's hold on a slot, and with nothing else |
| `Gateway.HoldsBeginBelowCap` | gateway/routes/chat.py:156-163 | a hold begins only at an arrival, below the cap |
| `Gateway.AdmissionIsExact` | gateway/routes/chat.py:146-163 | in every run a request is rejected for its budget iff its key has one and the tokens reported for the key so far reach it, for concurrency iff not that and its key has a cap and at least as many of its requests hold a slot, and else let in, with a slot iff its key has a cap |
| `Gateway.SlotConservation` | gateway/quota.py:65-80 | at every moment a key's in-flight count is the number of its requests holding a slot, and within its cap |
| `Gateway.FloorNeverBinds` | gateway/quota.py:78-80 | a step that ends a hold finds the count positive and lowers it by exactly one: `max(0, ...)` never binds |
| `Gateway.SpendingEndsRequest` | gateway/routes/chat.py:191-208 | tokens of a key are spent only by a step that ends one of its own unfinished requests |
| `Gateway.TokensAreExact` | gateway/quota.py:61-63 | in every run a key has used exactly the sum, over the reports for its own requests, of prompt plus completion count where that is positive, missing counts being none |
| `Gateway.TokensArePromptAndCompletion` | gateway/routes/chat.py:245-255 | as long as no count is negative, that is all prompt tokens plus all completion tokens reported for its requests |
| `Gateway.TokenOvershootBound` | gateway/quota.py:51-76 | with budget B >= 1, cap c and reports of at most M tokens, used + inflight*M, and so used, never exceeds B - 1 + c*M |
| `Fleet.ReadyIsEnabled` | gateway/main.py:57-73 | requests and prober never hold each other up: what one half is told by the other it can always take |
| `Fleet.RunsAreGatewayRuns` | gateway/main.py:57-73 | every run of the whole is, for its requests, a run of Gateway |
| `Fleet.RunsAreProberRuns` | gateway/main.py:57-73 | every run of the whole is, for each replica, a run of Prober, with the breaker that the requests are routed by |
| `Fleet.NoTrafficSoonAfterTrip` | gateway/upstream/client.py:288-305 | end to end: once a replica has tripped, no attempt of any request is sent there for at least 20 s after the trip's stamp |
| `Relay.SplitIsCut` | gateway/routes/chat.py:386-387 | the events, each with LF LF, and the leftover glue back to the stream byte for byte, and each event ends at its first separator |
| `Relay.SplitInvertsJoin` | gateway/routes/chat.py:386-387 | there is no other way to cut the same bytes |
| `Relay.SplitResumes` | gateway/routes/chat.py:385-387 | splitting can stop after any prefix and go on from its leftover |
| `Relay.ConcatIsAll` | gateway/routes/chat.py:376-385 | all chunks are there, in order |
| `Relay.LastUsageIsLast` | gateway/routes/chat.py:388-390 | the usage reported is that of some event after which none carries one |
| `Relay.CutEvents` | gateway/routes/chat.py:386-390 | the inner loop ends, and cuts off exactly the complete events, keeping the last usage among them |
| `Relay.RelayStream` | gateway/routes/chat.py:374-401 | whatever the chunking: the events and leftover of the whole stream, the last usage among those events, and the received bytes yielded unchanged, followed by an error event iff the stream broke |
| `Relay.ChunkingIsInvisible` | gateway/routes/chat.py:385-391 | two chunkings of the same bytes have the same events, leftover and usage |
| `Relay.SplitFindsNothing` | gateway/routes/chat.py:386 | the relay finds no event iff there are no two LFs in a row |
| `Relay.CutsAtBlankLines` | gateway/routes/chat.py:386-387 | wherever the relay cuts, the standard has the end of a blank line: it never cuts inside a line |
| `Relay.EventIsFound` | gateway/routes/chat.py:386-387 | where the standard ends an event, the relay cuts iff the blank line there is a bare LF |
| `Relay.EveryEventIsFound` | gateway/routes/chat.py:386-387 | the relay finds all of a stream's events iff nowhere a CR directly follows the end of a line that is not blank |
| `Relay.CrFreeStreamIsFound` | gateway/routes/chat.py:386-387 | all events of a stream without a CR are found |
| `Relay.CrLfStreamHasNoEvents` | gateway/routes/chat.py:386 | a stream whose every LF follows a CR has no event and no usage |
| `Relay.LinesAreCut` | gateway/routes/chat.py:287 | the lines of an event glue back to it with LFs, and none contains an LF |
| `Relay.LinesInvertJoin` | gateway/routes/chat.py:287 | and there are no other such lines |
| `Relay.FrameUsageMeaning` | gateway/routes/chat.py:287-300 | among an event's lines a usage is reported iff some data line carries it and every data line before it is an object without one |
| `Relay.RelayUsage` | gateway/routes/chat.py:374-401 | the relay with that reading of each event: the last usage among the stream's events, and the bytes passed on unchanged |
| `StripThink.BlockIsDeleted` | scripts/b3_probe.py:54-59 | a block is deleted exactly, from its first opening tag to the first closing one after it, and what follows is treated as a text of its own |
| `StripThink.CutOffReasoning` | scripts/b3_probe.py:55-60 | an opening tag never closed takes everything after it along, and what is left is trimmed |
| `StripThink.NoTagSurvives` | scripts/b3_probe.py:58-61 | no opening tag is left for any input, also when deleting a block joins a new one; and stripping is idempotent |
| `StripThink.TrimmedOnce` | scripts/b3_probe.py:61 | trimming takes exactly the white space at both ends away, and is the only way to |
| `StripThink.VisibleIsKept` | scripts/b3_probe.py:61 | blank, tab and line breaks are white space; no other printable ASCII character is |
| `StripThink.PlainTextIsTrimmed` | scripts/b3_probe.py:58-61 | a text without an opening tag loses the white space at its ends and nothing else; without any there it comes back unchanged |
| `StripThink.ReasoningIsRemoved` | stub/server.py:139-145 | stripping undoes the stub's reasoning printer, for any reasoning that does not close its own block and any answer |
| `StripThink.StripThinkPromises` | scripts/b3_probe.py:58-61 | all of it for the two tags of the source |

## Left out

- HTTP, TLS, sockets, FastAPI, uvicorn and httpx: a send is an arbitrary outcome (read timeout, other exception, or
  status).
- Task cancellation, a streaming body that is never started, and an `aclose` that raises: assumed not to happen, as
  `_stream` catches `Exception` only and the relay releases its slot after `aclose`.
- Authentication, audit records, metrics, logging, settings, request validation, the health and models routes.
- JSON: the reading of a data line, and of a whole body, is arbitrary, except that a decoded data line is assumed to be
  an object, since the source calls `.get` on it.
- Floats: times, sample values and Retry-After values are reals, without rounding, infinities or NaN.
- `Pool.DelayBounded`: the jitter is any draw from its interval; its distribution is not modelled.
- `Upstream.UpstreamPool.WithRetry`: what other tasks do at an await keeps the replica list and the set of breakers as
  they are; `set_urls` in the middle of a call is not modelled.
- `Gateway.SlotConservation`: replica list, budgets and caps are fixed for a run; a key whose budget or cap changes
  between requests is not modelled.
- `Gateway.RoutingSafety`: the requests of a run are values in a state machine, since they interleave at every await;
  `Upstream` and `Route` hold the in-place code of one task.
- `Prober.MinimumOutage`: the order in which a pass visits the replicas is left open, as is the period of the prober and
  of the scrapes; `Fleet` has many replicas, but their passes share no clock reading.
- `Relay.EveryEventIsFound`: about where events end; a byte order mark in front, comments and empty events, which the
  standard drops, are not treated.
- `Pool.RoundRobinIsFair`: for picks without exclusion that choose from the same candidates; across a change of the
  candidates the cursor is taken modulo another length, and no fairness is promised.
- `BREAKER_OPEN_SEC`: only the default of a minimum over a list that is never empty, and not used by the breaker.
- The byte bound of `_drain_error`, `_estimate_prompt_tokens`, `metrics_url`, the time-to-first-token metric, the headers
  of a relayed stream.
- The load generator, the stub server beyond its reasoning printer, shell scripts, deployment and documentation.
