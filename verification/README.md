# A model of GFE in Dafny

GFE is a reverse proxy: it accepts connections, serves HTTP on them under timers, routes each request by host and
path, and forwards it to a healthy backend of a pool, under caps and rates. It reloads its config while running and
replaces its own binary without dropping a connection. This project models the parts of it with the most state and
arithmetic and proves what they promise. Everything is checked by `dafny verify dfyconfig.toml`.

Code that changes things in place is a class or a loop here, proved equal to a function of the old state; what is
promised of whole runs is then proved of that function, by induction over every sequence of events. Concurrent code is
a step system in which each atomic operation is one step and any interleaving may happen. Clocks, sockets, files,
random draws, hash functions and the HTTP library are inputs: a lemma that takes them holds for whatever they do.

| file | models |
|---|---|
| `Serve.dfy`, `Lifetime.dfy` | the select loop that serves one connection, and how long a connection can last |
| `TokenBucket.dfy`, `KeyedBuckets.dfy` | rate limits: one bucket, and a bounded table of them |
| `Permits.dfy`, `Admission.dfy` | concurrency caps under threads, admission to a listener, and waiting for the last connection |
| `StableSort.dfy`, `Routing.dfy` | host and path matching, and the compiled route table |
| `HashRing.dfy`, `Shares.dfy`, `Pools.dfy` | the three balancing policies, shared health handles, and pools |
| `Forward.dfy` | what a pool admits, and the attempt loop of one forward |
| `Validator.dfy`, `Reload.dfy`, `ReloadRuns.dfy` | which configs are valid, applying one, and any sequence of reloads |
| `Listeners.dfy` | the listening sockets, reconciled in two phases |
| `HandoverMessages.dfy`, `Upgrade.dfy` | the handover wire format, and a chain of processes taking over from each other |
| `Duration.dfy` | durations as text |
| `Prelude.dfy`, `Text.dfy`, `Division.dfy`, `Rounding.dfy` | shared types, text, division, and 64-bit floats |

Where the code and its own documentation disagree, the model follows the code, and says exactly when the documented
claim holds:

- `lib/load-balancing/src/pool.rs:56-58` says a pool's rate is measured over any one second. It is a bucket whose burst
  is its rate. That caps a window at the rate if and only if the window is too short to earn a permit, and a second on a
  quiet pool admits up to twice the rate: `TokenBucket.CapsWindowIffTooShortToEarn`,
  `TokenBucket.SecondAdmitsAtMostTwice`.
- `lib/load-balancing/src/pool.rs:22-24` has a backend of weight 0 left out except under `round_robin`, with all
  weights 0. It gets requests under `round_robin` and `ring_hash` exactly when every *healthy* backend weighs 0:
  `Pools.TurnsOfTheWeightless`, `Pools.RingOfTheWeightless`. Under `least_request` one is picked exactly when, of
  the weightless, some goes before every healthy backend of a weight w > 0: it has fewer than 1/w as many requests,
  counting the one to come, or just as many and the earlier place. So of backends of weights 2 and 0 with 2 and 0
  requests in flight the second is picked: `Pools.LeastRequestOfTheWeightless`, `Pools.WeightlessPickedOverWeight`.
- `gfe/proxy/src/reload/controller.rs:264` speaks of the certificate files of the current config. The files polled are
  those of the config last read, as they looked when it was read. After one that was rejected, every change of a file
  being served from is noticed if and only if the rejected config names all those files, whatever else it names, and
  none of them had changed when it was read: `ReloadRuns.RotationsAreNoticedIff`,
  `ReloadRuns.NoticedAfterRejectionIff`. Otherwise a replaced certificate goes unnoticed: `ReloadRuns.RotationMissed`
  has a rejected config that names other files, `ReloadRuns.RotationSwallowed` one that names the same files.

## Model

| member | source | states |
|---|---|---|
| Activity.ConnActivity.constructor | lib/http/src/server/activity.rs:56-69 | a new record has had no request and has none in flight |
| Activity.ConnActivity.BeginRequest | lib/http/src/server/activity.rs:73-77 | one more request begun and in flight, and nothing else changed |
| Activity.ConnActivity.EndRequest | lib/http/src/server/activity.rs:121-132 | the moment of becoming idle is kept in whole milliseconds, saturating at 64 bits, and one fewer is in flight |
| Activity.ConnActivity.Check | lib/http/src/server/activity.rs:90-114 | the verdict is the header deadline's before any request, never a close while one is in flight, and the idle deadline's after |
| Serve.Loop.DrainBranch | lib/http/src/server.rs:292-306 | with a request in flight the connection is shut down at once; idle, it is given a deadline the watchdog is pulled forward to |
| Serve.Loop.WatchdogBranch | lib/http/src/server.rs:307-329 | the whole watchdog branch equals the step function the run theorems are about, both when it goes on and when it ends |
| Serve.Loop.Turn | lib/http/src/server.rs:270-331 | one turn of the select loop is one step, whichever branch is ready |
| Serve.ServeConnection | lib/http/src/server.rs:202-337 | the loop over any events is the run of the step function; invalid options close the connection at once with an error |
| Lifetime.RunKeepsShutDown | lib/http/src/server.rs:264-331 | in every run graceful shutdown is asked for at most once, its reason never changes, and a drain and its deadline stay |
| Lifetime.RearmedAhead | lib/http/src/server.rs:307-328 | the watchdog is re-armed strictly in the future, and never past the end of a drain's grace that nothing has ended |
| Lifetime.TimersCloseOnlyWhatIsDue | lib/http/src/server.rs:313-323 | in every run a timer closes only with no request in flight, no earlier than the header limit or than one millisecond before the idle limit, and an idle one only after asking |
| Lifetime.BoundedLifetime | lib/http/src/server.rs:261-331 | with a punctual watchdog, a connection whose last request ended at e is over by e + idle_timeout + CLOSE_GRACE, and one with no request by header_timeout after serving began, drained or not |
| Lifetime.IdleConnectionEnds | lib/http/src/server.rs:307-329 | while no request begins, an idle connection survives at most four firings of the watchdog: the loop does end |
| Lifetime.SilentConnectionEnds | lib/http/src/server.rs:261-329 | a connection that never has a request survives at most header_timeout / idle_timeout + 3 firings of the watchdog, however late they are |
| Lifetime.AskedToLeaveByTheGrace | lib/http/src/server.rs:292-312 | in every punctual run an idle draining connection has been asked to leave by the end of its grace |
| TokenBucket.Bucket.TryAcquire | lib/rate-limiting/src/token_bucket.rs:62-134 | the refill and take done in place equal the step the sequence theorems are about |
| TokenBucket.RefillFitsItsTypes | lib/rate-limiting/src/token_bucket.rs:52-76 | no product or sum leaves the 64 or 128 bits it is computed in, however long the wait |
| TokenBucket.RefusedIffEmpty | lib/rate-limiting/src/token_bucket.rs:79-94 | a call is refused exactly when what is held and what was earned make less than a permit; never once 1/rate has passed since the bucket's time, nor the first time |
| TokenBucket.RefillTwice | lib/rate-limiting/src/token_bucket.rs:62-76 | refilling on the way does not change what a later refill finds |
| TokenBucket.WindowBound | lib/rate-limiting/src/token_bucket.rs:52-93 | over any calls, their times going back as they may, permits granted and what is left are within what was held and what the advance of the bucket's time earned |
| TokenBucket.CallsAppend | lib/rate-limiting/src/token_bucket.rs:79-94 | any part of a call sequence is itself one, from the level the part before left: so the window bound holds of every contiguous part |
| TokenBucket.WindowGrants | lib/rate-limiting/src/token_bucket.rs:62-94 | whatever a bucket held and whenever it was last asked, calls within a window are granted no more than a full bucket and what the window earns |
| TokenBucket.CapsWindowIffTooShortToEarn | lib/load-balancing/src/pool.rs:56-59 | a pool's rate caps every window of that length, whatever came before it, if and only if the window is too short to earn one permit, so never over a whole second |
| TokenBucket.SecondAdmitsAtMostTwice | lib/load-balancing/src/pool.rs:175-177 | any second, whatever came before it, admits at most twice the rate, and one on a quiet pool can admit as many |
| KeyedBuckets.Buckets.ForgetIdle | lib/rate-limiting/src/keyed_buckets.rs:112-126 | the sweep in place equals the function: at most once a second, each level refilled and the full ones dropped |
| KeyedBuckets.Buckets.TryAcquire | lib/rate-limiting/src/keyed_buckets.rs:75-94 | the call in place equals the function the refinement is about, answer, table and `untracked` |
| KeyedBuckets.Refines | lib/rate-limiting/src/keyed_buckets.rs:75-126 | for every call sequence whose times do not go back, the bounded table answers as a table that never forgets; what it lets through uncounted is charged to neither, counted in `untracked`, and would have been granted; it never exceeds its capacity |
| KeyedBuckets.NewTableRefines | lib/rate-limiting/src/keyed_buckets.rs:55-73 | the same of a new table against an ideal one that has seen no key |
| KeyedBuckets.ForgettingSimulates | lib/rate-limiting/src/keyed_buckets.rs:112-126 | a sweep forgets only keys whose ideal bucket is full, which is that of a key never seen |
| KeyedBuckets.RoomForEveryKey | lib/rate-limiting/src/keyed_buckets.rs:75-94 | with room for every key no call goes uncounted, whatever the times |
| KeyedBuckets.ForgottenUnseenIff | lib/rate-limiting/src/keyed_buckets.rs:112-126 | forgetting a bucket goes unseen by the next call if and only if by then it had refilled and its time was not ahead |
| KeyedBuckets.TimeGoingBackShows | lib/rate-limiting/src/keyed_buckets.rs:75-126 | four calls with one time going back that are answered differently from the ideal |
| ConcurrencyLimits.ConcurrencyLimit.TryAcquire | lib/rate-limiting/src/concurrency.rs:53-72 | alone, an attempt is granted exactly below the cap, and a refusal leaves the counter as it was |
| Gates.NeverOverAdmits | lib/rate-limiting/src/concurrency.rs:53-72 | under every schedule of any threads, permits held never exceed the cap, and the counter is them plus the attempts being decided or refused |
| Gates.RefusedIff | lib/rate-limiting/src/concurrency.rs:53-64 | after any schedule an attempt is refused if and only if the permits given or bound to be, and the attempts being refused, come to the cap; with none being refused, exactly when no permit is left |
| Gates.MayRefuseBelowTheCap | lib/rate-limiting/src/concurrency.rs:53-64 | a schedule in which an attempt is refused while no permit is held |
| Admission.CapsHold | lib/listen/src/accept.rs:174-210 | in every interleaving connections served exceed neither cap, and with no attempt under way both counters are exactly the connections served: a refusal at the listener's cap gave the total's place back |
| Admission.WaitBegins | lib/listen/src/listeners.rs:297-306 | whatever happened before the wait, once the accept loops have ended it begins with nothing lost |
| Admission.NoLostWakeup | lib/listen/src/accept.rs:124-135 | from then on, in every interleaving, a parked waiter has somebody left to wake it, and with none open that is a connection between giving its places back and telling |
| Admission.WaitEnds | lib/listen/src/accept.rs:124-135 | every run from there on is finite, within a bound on its length, and one that cannot go on has the waiter back and nothing counted |
| Admission.LostIffAtRisk | lib/listen/src/accept.rs:121-135 | in any state, a waiter that starts can be left parked for good if and only if an attempt is being refused, is bound to be, or is on a listener with more attempts than places |
| AdmitOne.Admit | lib/listen/src/accept.rs:174-195 | the peer's rate is asked first, then the total, then the listener; which cap refuses is told exactly, and a refusal leaves both counters as they were |
| Matcher.OneWildcardMatches | gfe/proxy/src/routing/matcher.rs:13-28 | a wildcard pattern matches a host if and only if it is the host with its first label replaced, so at most one matches |
| Routing.InsertRoute | gfe/proxy/src/routing/table.rs:133-161 | a route is added to the routes of its kind of host, last, and to no other |
| Routing.Compile | gfe/proxy/src/routing/table.rs:89-113 | the table holds, under every listener and kind of host, exactly the config's routes of it, longest prefix first and in config order among equals |
| Routing.TierIsMatch | gfe/proxy/src/routing/matcher.rs:13-27 | a route has a tier exactly if its pattern, trimmed and in lower case, matches the host: 2 for `*`, 1 for a wildcard, 0 for a name |
| Routing.TableIsSearch | gfe/proxy/src/routing/table.rs:46-126 | for every config, listener, host and path the table returns the route a search through the config picks: exact host, then wildcard, then `*`, falling through where no path matches, then longest prefix, then config order; and none only if none matches |
| StableSort.FilterSort | gfe/proxy/src/routing/table.rs:163-165 | sorting keeps the order of elements of equal key: filtering commutes with it |
| HashRing.BuildRing | lib/load-balancing/src/policy.rs:46-57 | the ring is the sorted points of every backend, as many replicas of each as its weight asks |
| HashRing.PartitionPoint | lib/load-balancing/src/policy.rs:83 | exactly the points before the index are below the key |
| HashRing.RingPick | lib/load-balancing/src/policy.rs:75-91 | the walk by index, wrapping, is the function the theorems are about |
| HashRing.PickMeetsFirst | lib/load-balancing/src/policy.rs:75-91 | a pick owns the first healthy point cyclically at or after the key, and there is none only if no point is healthy |
| HashRing.UnhealthyMovesOnlyItsKeys | lib/load-balancing/src/policy.rs:75-91 | a backend turning unhealthy changes only the keys that picked it |
| HashRing.RemovedIsUnhealthy | lib/load-balancing/src/policy.rs:46-91 | for every key and any hash, ties included, the ring built without a backend picks as the full ring does with it unhealthy |
| HashRing.RemovalMovesOnlyItsKeys | lib/load-balancing/src/policy.rs:46-91 | removing a backend moves only the keys that picked it |
| Shares.PickWeighted | lib/load-balancing/src/policy.rs:61-71 | the accumulating loop is the function the shares are about |
| Shares.PickedWithinItsRange | lib/load-balancing/src/policy.rs:61-71 | a draw falls to a candidate if and only if it lies in the range of its weight after those before it |
| Shares.ExactShares | lib/load-balancing/src/policy.rs:61-71 | over all draws each candidate is picked for exactly as many as it weighs, a weightless one for none |
| Shares.EvenWithoutWrap | lib/load-balancing/src/pool.rs:216-220 | any k turns in which the counter does not wrap give each of n backends k/n, rounded down or up |
| Shares.AlwaysEvenIff | lib/load-balancing/src/pool.rs:216-220 | every run of turns is even if and only if n divides the number of counter values |
| Shares.UnevenAtWrap | lib/load-balancing/src/pool.rs:216-220 | the run of turns across the wrap that is not |
| Shares.RoundRobin.Next | lib/load-balancing/src/pool.rs:217-220 | the counter advances by one, modulo 2^64, and names the backend |
| Shares.RoundRobin.Run | lib/load-balancing/src/pool.rs:216-220 | k requests in a row pick each backend as often as the turns say, evenly where the counter does not wrap |
| Health.HealthMap.Handle | lib/health-checking/src/health_map.rs:117-123 | the same handle for a backend ever after; one not known is entered as unknown, and no status changes |
| Health.HealthMap.Set | lib/health-checking/src/health_map.rs:126-128 | the backend's handle has the status, and no other backend's changes |
| Health.HealthMap.Retain | lib/health-checking/src/health_map.rs:151-153 | exactly the backends not kept are forgotten, and the rest keep their handles |
| Pools.NewPool | lib/load-balancing/src/pool.rs:136-179 | fails exactly if its ring would be too large; otherwise each backend's handle is the map's own |
| Pools.BuildPools | lib/load-balancing/src/pool.rs:315-321 | fails exactly if a pool cannot be built; of two with one id the last is kept; all read the map's own handles, and nobody's status changed |
| Pools.Pool.HealthyIndices | lib/load-balancing/src/pool.rs:250-254 | exactly the selectable backends, in order |
| Pools.Pool.LeastRequested | lib/load-balancing/src/pool.rs:236-248 | the first of those with the fewest requests per unit of weight, as 64-bit floats round it |
| Pools.RoundingDecidesNothing | lib/load-balancing/src/pool.rs:236-248 | that is the first with the fewest exactly, rounding neither swapping two scores nor making two equal, for weights up to 1000 and any counts up to 2^32, and more generally where twice the square of the largest weight times the largest count fits 53 bits |
| Pools.Pool.Select | lib/load-balancing/src/pool.rs:263-293 | none if and only if no backend is selectable; otherwise a selectable one, chosen as the policy says; the in-flight counts and the round-robin counter move exactly as the policy has them move |
| Pools.Pool.Finish | lib/load-balancing/src/pool.rs:80-86 | a request that ends is counted no more, under `least_request` |
| Pools.TurnsInARowAreEven | lib/load-balancing/src/pool.rs:216-230 | selections in a row of equal backends, or weightless ones, pick each as often as the counter says, so evenly until it wraps |
| Pools.LeastRequestBalances | lib/load-balancing/src/pool.rs:236-248 | from any counts, selections in a row under `least_request` leave no backend they picked more than one request ahead of its share by weight, and from an idle pool none at all; a weightless one has the share of weight 1 |
| Pools.TurnsOfTheWeightless | lib/load-balancing/src/pool.rs:216-233 | `round_robin` picks a weightless backend if and only if all that are healthy are, and then in turn |
| Pools.RingOwners | lib/load-balancing/src/policy.rs:42-57 | the backends on a ring are exactly those of some weight |
| Pools.RingOfTheWeightless | lib/load-balancing/src/pool.rs:272-278 | `ring_hash` picks a weightless backend if and only if all that are healthy are, and then in turn |
| Pools.LeastRequestOfTheWeightless | lib/load-balancing/src/pool.rs:236-248 | `least_request` picks a backend of no weight if and only if one goes before every healthy backend of some weight: by in-flight counts, weights and places |
| Pools.WeightlessPickedOverWeight | lib/load-balancing/src/pool.rs:236-248 | an input in which it picks one while a healthy backend has weight |
| PoolQuota.Quota.Admit | lib/load-balancing/src/pool.rs:193-212 | refused under `max_in_flight` exactly at the cap, spending none of the rate; refused under the rate exactly as the bucket says, giving its place back |
| Forward.ForwardRequest | gfe/proxy/src/handler/forward.rs:64-279 | at most two sends, each the whole request; a second only of an idempotent bodyless request after a retryable failure with no response; the pool is charged one place and one permit whatever the attempts; the answer is that of the last attempt made, and what is refused first is told exactly |
| Validator.CheckListeners | gfe/config/src/validator.rs:48-62 | accepts exactly listeners of different ids and different addresses, and tells the fault of the first that has one |
| Validator.CheckPools | gfe/config/src/validator.rs:64-106 | accepts exactly pools of different ids, each with valid upstreams and health check, and tells the first fault |
| Validator.CheckRoutes | gfe/config/src/validator.rs:108-128 | accepts exactly routes of different ids whose listener and pool exist and whose host is not empty, and tells the first fault |
| Validator.Validate | gfe/config/src/validator.rs:36-146 | accepts exactly the configs that make sense, and tells the first thing wrong with any other |
| Reload.Reloader.Prepare | gfe/proxy/src/reload/applier.rs:43-50 | succeeds exactly if the config is valid, its certificates load and its rings fit; what it makes is that config's; it touches only the health map, and only to enter backends as unknown |
| Reload.Reloader.Install | gfe/proxy/src/reload/applier.rs:98-121 | routes, pools and certificates are swapped, and exactly the backends of no pool are forgotten |
| Reload.Reloader.Apply | gfe/proxy/src/reload/controller.rs:232-242 | succeeds exactly if the config can be prepared and its listeners staged; then everything served is that config's, pools read the map's own handles and known backends keep theirs; otherwise nothing served changes |
| Reload.Reloader.ReloadLocked | gfe/proxy/src/reload/controller.rs:281-301 | what is deployed is applied, cached and reported, or everything is kept and the failure reported |
| Reload.Reloader.ApplyInitial | gfe/proxy/src/reload/controller.rs:180-219 | a starting node serves what is deployed, or else what was cached, reported as a failure served from the cache, or else does not follow changes; the cache is written only with what was deployed and applied |
| Reload.Reloader.Reload | gfe/proxy/src/reload/controller.rs:257-262 | a change of the config file is one step of the runs below, and none once changes are not followed |
| Reload.Reloader.ReloadIfCertificatesChanged | gfe/proxy/src/reload/controller.rs:265-277 | so is a poll of the certificate files, which reloads exactly if followed and changed |
| Reload.Reloader.Shutdown | gfe/proxy/src/reload/controller.rs:125-140 | changes are no longer followed, and nothing served changes |
| Reload.Reloader.Probed | lib/health-checking/src/health_map.rs:126-128 | a probe's write changes that backend's status alone |
| ReloadRuns.ServesLastApplied | gfe/proxy/src/reload/controller.rs:180-301 | after any sequence of good and bad configs, polls and probes, routes, pools, certificates and listeners all come from the config last applied, and pools read the map's own handles |
| ReloadRuns.StartServesAll | gfe/proxy/src/reload/controller.rs:180-219 | a start that says it serves a config serves all of it and remembers its certificate files as they looked; one that fails changes nothing served |
| ReloadRuns.RoutesFindTheirPools | gfe/config/src/validator.rs:120-124 | every request a route forwards finds the route's pool in the same snapshot |
| ReloadRuns.GaugeTellsLastOutcome | gfe/proxy/src/reload/controller.rs:286-300 | `config_reload_failed` tells whether the last attempt failed |
| ReloadRuns.OnlyAppliedIsCached | gfe/proxy/src/reload/controller.rs:244-254 | what is cached was there from the start or is a config that was applied |
| ReloadRuns.CacheIsLastKnownGood | gfe/proxy/src/reload/cache.rs:1-3 | while it can be written, the cache is the config last applied |
| ReloadRuns.RestartServesLastApplied | gfe/proxy/src/reload/controller.rs:198-218 | a node that ran any events and starts again with nothing usable deployed serves all of the config last applied, if and only if it can still be applied |
| ReloadRuns.NothingAfterShutdown | gfe/proxy/src/reload/controller.rs:121-140 | after shutdown nothing is applied, cached or reported, whatever happens |
| ReloadRuns.KeptBackendKeepsItsStatus | lib/health-checking/src/health_map.rs:114-153 | a backend every config keeps has one handle throughout, with the status last written: no reload, applied or rejected, resets it or loses a write |
| Reload.Reloader.SelectBackend | lib/load-balancing/src/pool.rs:250-293 | the backend a served pool selects is one the health map calls selectable now, and there is none if and only if the map calls none of them so |
| ReloadRuns.PollsFilesOfLastRead | gfe/proxy/src/reload/controller.rs:232-277 | the certificate files polled are those of the config last read, applied or not |
| ReloadRuns.RemembersLastLook | gfe/proxy/src/reload/controller.rs:232-277 | in every run what is remembered of the certificate files is how those of the config last read looked when last looked at |
| ReloadRuns.RotationsAreNoticedIff | gfe/proxy/src/reload/controller.rs:232-300 | after every run of good and bad configs and polls, every change of a file of the config being served, since it was applied, sets off a reload at the next poll if and only if the config last read names all its files and none had changed when last looked at |
| ReloadRuns.NoticedAfterRejectionIff | gfe/proxy/src/reload/controller.rs:232-277 | so after one config is read and rejected: if and only if it names every file being served from and none had changed when it was read |
| ReloadRuns.UnnamedFilesGoUnnoticed | gfe/proxy/src/reload/controller.rs:232-277 | a poll after a config was read does nothing when only files it does not name have changed |
| ReloadRuns.RotationMissed | gfe/proxy/src/reload/controller.rs:264-277 | a run in which a served certificate is replaced, and the poll does nothing, after a rejected config that names other files |
| ReloadRuns.RotationSwallowed | gfe/proxy/src/reload/controller.rs:232-277 | a run in which a served certificate is replaced before a config with the same files is read and rejected, and the poll, which would have reloaded before, does nothing |
| ReloadRuns.BrokenRotationIsReportedOnce | gfe/proxy/src/reload/controller.rs:270-276 | polling again with nothing more changed on disk does nothing, whether the first poll's reload was applied or rejected |
| Listeners.ListenerSet.Adopt | lib/listen/src/listeners.rs:131-137 | the sockets handed over are kept by address, the last of two, beside those there |
| Listeners.ListenerSet.Stage | lib/listen/src/listeners.rs:159-192 | fails exactly if two entries have one address or a socket cannot be had, leaving what accepts untouched; otherwise holds a socket for exactly the addresses added, the adopted one where there is one |
| Listeners.ListenerSet.Commit | lib/listen/src/listeners.rs:195-246 | kept addresses have their socket and accept loop, added ones the staged socket and a new loop, each the config's entry; nothing is left adopted; which addresses had no socket is told exactly |
| Listeners.CommitFollowingStage | lib/listen/src/listeners.rs:159-246 | a stage and its commit leave exactly the desired addresses accepting, none short of a socket, adopted sockets used where there were any |
| Listeners.KeptThroughReloads | lib/listen/src/listeners.rs:159-246 | an address no config that could be bound leaves out is accepted on with one socket by one loop through any reloads, applied or failed |
| HandoverMessages.Send | lib/listen/src/handover.rs:93-135 | nothing is sent unless every word is one; then the header, and every socket with its line, in order, at most 64 to a message |
| HandoverMessages.Receive | lib/listen/src/handover.rs:144-209 | the reads, however the stream is cut, come to the parse of all the text and descriptors, unless descriptors were lost or the bytes are not text; a receipt is sent exactly if that succeeds |
| HandoverMessages.RoundTrip | lib/listen/src/handover.rs:93-209 | for every list of sockets with one-word known roles, what is received is what was sent, in order, each with its own descriptor |
| HandoverMessages.AcceptedIff | lib/listen/src/handover.rs:170-209 | lines and descriptors are accepted if and only if they pair one to one and every line is well formed with a known role |
| HandoverMessages.ReadLine | lib/listen/src/handover.rs:256-296 | a line is read, and exactly it and its break consumed, if and only if it comes whole and in time and is text; otherwise why not |
| HandoverMessages.SentIsDelivered | lib/listen/src/handover.rs:253-296 | a line sent in time is delivered in however many reads, and what follows it is left for the next |
| HandoverMessages.ReceiptReadsBack | lib/listen/src/handover.rs:219-227 | the receipt a process writes is read as its process id |
| NodeRun.AwaitReceipt | lib/listen/src/handover.rs:219-225 | the one process id a receipt that came in time names, or none exactly if none did |
| HandoverMessages.LinesAreKeptApart | lib/listen/src/handover.rs:256-296 | a line read leaves the line after it whole, so a receipt and `ready` in one write are read apart |
| Upgrade.NextInv | gfe/node/src/upgrade.rs:111-213 | every step of every process keeps the invariant: who confirmed, whom each waits for, who carries on, and that each holds the shared sockets |
| Upgrade.AlwaysAccepting | gfe/node/src/main.rs:188-253 | in every run with no stop and no crash of a node that serves and has not been told `ready`, however many upgrades fail or succeed and whatever becomes of nodes that handed over, some live process accepts on every shared address, on the socket the first node bound |
| Upgrade.LeavesOnlyOnReady | gfe/node/src/upgrade.rs:172-213 | a serving node stops accepting only by reading `ready`, when its successor has said it accepts and carries on; or killed by the node it took over from, which never read its `ready` and serves on |
| Upgrade.FailedUpgradesChangeNothing | gfe/node/src/upgrade.rs:162-213 | in every run, whatever upgrades a node starts, it serves at the end if and only if it was not told to stop, did not crash, read no `ready` and was not killed by the node it took over from; and then it holds every shared socket |
| Upgrade.TimedOutIsKilled | gfe/node/src/upgrade.rs:204-211 | after the deadline a node serves as before, and a successor that had named itself is dead |
| NodeRun.StartSuccessor | gfe/node/src/upgrade.rs:172-245 | succeeds, with that process id, if and only if a receipt and then `ready` come in time; a process is killed exactly if it is the one that named itself, has an id from 1 to 2^31 - 1, and then timed out or was given up on |
| NodeRun.AnsweredInTime | gfe/node/src/upgrade.rs:201-212 | a successor whose receipt and `ready` are written in time, in however many reads, has taken over |
| NodeRun.FollowSignals | gfe/node/src/main.rs:209-253 | a node goes on through every upgrade nobody takes over in, counting it, and leaves at the first other signal: to a successor if and only if that one took over and no stop came first |
| DurationText.LargestExactUnit | gfe/config/src/duration.rs:34-41 | the unit printed is exact to the microsecond, and no larger one is |
| DurationText.ParsePrinted | gfe/config/src/duration.rs:12-26 | a number and a unit's suffix are read as that number of that unit, or refused exactly when the number does not fit 64 bits |
| DurationText.RoundTripsIff | gfe/config/src/duration.rs:12-43 | a duration is read back from what it prints as if and only if it has nothing below a microsecond and its count fits 64 bits |
| DurationText.ReadsBack | gfe/config/src/duration.rs:12-43 | every duration read from text is read back from what it prints as |

## Left out

- Pools.RoundingDecidesNothing: a float is a real number rounded by an input, taken to keep whole numbers up to 2^53 and to be within one part in 2^53 of any number above 2^-32.
- Pools.LeastRequestBalances: stated of exact scores, as is `Pools.LeastRequestOfTheWeightless`; `Pools.RoundingDecidesNothing` says where the picks are those.
- Forward.ForwardRequest: the backend of each attempt is an input (selection is `Pools.Pool.Select`), the request is taken as already rewritten for the backend, and the response is its status.
- Serve.ServeConnection: the order in which the select looks at its branches is not modelled; the theorems hold for every order.
- Activity.ConnActivity.EndRequest: a guard is dropped in one step, though the source stores the time and then decrements; request counters are unbounded.
- KeyedBuckets.Buckets.TryAcquire: `untracked` is unbounded, and a capacity of zero, which the source's types exclude, is allowed.
- Admission.CapsHold: permit counters are unbounded, and atomics are sequentially consistent steps rather than relaxed ones.
- NodeRun.FollowSignals: what is read of each successor is an input, and so is whether a stop comes before the answer; a launch that fails outright is one of the inputs.
- HandoverMessages.RoundTrip: addresses are written and read by a codec taken to be faithful; which bytes are UTF-8 is an input.
- Upgrade.AlwaysAccepting: a process's config names every shared address throughout, sockets and accept loops are those `Listeners` proves of a reload, and a successor that cannot be launched at all is a step that does nothing.
- Reload.Reloader.ApplyInitial: files, certificates and the kernel's answers are inputs, the cache file reads back as the config written to it, and starting and stopping health probes is left out.
- Health.HealthMap.Set: the status is kept as itself and not as a byte.
- The HTTP library, TLS, tokio, sockets, files and signals, except as inputs.
- Header rewriting, refusal texts and status codes, HSTS, request ids, the access log and metrics other than the reload gauges.
- The HTTP client's connection pool, dialing, probing and its thresholds, the send-progress timers, SNI resolution and certificate loading.
- Validation of the bootstrap config, command-line arguments, log files, systemd notification and the eBPF program.
