# A verified model of Olla's stateful cores

Olla is a proxy and load balancer for LLM inference endpoints. This project models the parts
of it whose behaviour spans many calls or many callers, and proves what every run keeps.
Integers stand for times (nanoseconds), and clock reads, random draws, network outcomes and
answers of other components are inputs. `dafny verify dfyconfig.toml` checks everything.

A part that the program performs by changing state appears twice: as functions on values,
about which the properties are proved, and as a class or method with the program's own fields
and loops, whose postcondition is that function. Protocols with concurrent callers are
transition systems with one step per atomic operation.

| file | what it covers |
|---|---|
| `Reservoir.dfy` | reservoir sampling of latencies: uniformity by counting draw sequences, percentiles by rank |
| `Resilience.dfy` | the circuit breaker with a call as one step, and the health-check client on top of it |
| `BreakerSteps.dfy`, `BreakerAlone.dfy` | the same breaker with every atomic operation and clock read as a step, and the agreement of the two |
| `WorkerPool.dfy`, `EventBus.dfy` | the asynchronous worker pool with its drain and shutdown; delivery to subscribers |
| `JsonScan.dfy` | the streaming search for a request's model name, against the JSON tree |
| `Catalog.dfy`, `Unifier.dfy` | the catalogue with its indexes, and the deduplication that feeds it |
| `ModelRegistry.dfy` | the two-way index between endpoints and models |
| `QuotaBreaker.dfy`, `QuotaSteps.dfy`, `QuotaReports.dfy` | the unifier's breaker with its quota of half-open calls, on 32-bit counters, with calls and with atomic operations as steps, and what it does when every call reports; the endpoint states |
| `Collector.dfy` | lock-free latency bounds and connection counts |
| `RoutingStrategies.dfy`, `Routing.dfy`, `RoutingOutcomes.dfy`, `RoutingHandler.dfy` | the endpoint filter pipeline, aliases, provider scope, what they return said of each endpoint on its own, and the handlers that perform them |
| `Etag.dfy`, `EtagModels.dfy`, `EtagHasher.dfy` | the bytes behind the status ETags, and reading them back |
| `Merge.dfy` | merging unified models |
| `GlobPattern.dfy`, `GlobFiltering.dfy` | glob matching against the usual reading of `*`, and the filter's cache |
| `HealthChecks.dfy` | backoff, status and callbacks of health checks |
| `Balancer.dfy` | fairness of the round-robin and least-connections balancers |

## Where the code and a natural reading of it differ

The model follows the code. Each of these is proved, with the exact condition where there is one.

- A rejected `RegisterModels` call may already have changed the index (`FailedBatchKeepsIndexIff`).
- A second name for a known digest at one endpoint resolves to nothing (`NameResolvesIff`).
- An id made from a digest suffix can collide with that of another model, and an empty digest can
  erase one; either leaves wrong indexes (`ProcessConsistentIff`, `SuffixesCollideIff`, `EmptyDigestErasesIff`).
- While a record is between its steps another caller can take the gate, and callers that find
  the breaker closed run beside that probe (`ClosedCallersRunBesideProbe`).
- The window of a half-open probe is sized for checks whose context ends at twice their timeout.
  Scheduled checks have another context (`ScheduledCheckIsProtectedIff`).  With the default
  timeout one can be superseded before it reports, by the check of another endpoint with the
  same health-check URL, since breakers are kept by that URL (`DefaultScheduledCheckIsExposed`).
  Checks of other URLs do not matter (`OwnUrlIsProtected`), ticks do not overlap, and the
  program calls `RunHealthCheck` only at its start, with new breakers; a call of it beside a
  tick would be a second source of such checks (`UnboundedCheckIsProtectedIff`).
- Shutdown can leave an accepted event in the queue, after which Drain never returns (`DrainAfterShutdown`).
- The quota of the unifier's breaker limits the calls between two clearings of its counter, not
  those of one half-open period: callers that found it open together each clear it
  (`AdmissionsAreBounded`, `OneOpeningAdmitsAnyNumber`, `OpeningsBoundIff`).
- The unifier's breaker can refuse for ever, with calls one at a time as with interleaved ones, exactly
  when it needs more successes than it admits calls (`CanWedgeIff`, `CanGetStuckIff`).
- The capability filter intersects endpoints, not models, although its comment speaks of models
  that support all features; the comment holds exactly for requests that need one (`OneModelIff`).
- The discovery strategy, when it refreshes and falls back to all, answers with healthy endpoints
  outside the candidates, so that a provider route can leave its provider (`StaysAmongIff`, `ScopeHoldsIff`).
- The bytes behind the ETag of the models payload do not determine it (`ShapesCollide`, `SameBytesSamePayloadIff`).
- The glob cache confuses names of which one continues the other with colons (`CacheIsInvisibleIff`).
- The first backoff wait is not capped (`WaitsGrowIff`).
- Balancing is uneven around the wrap of a 64-bit counter unless the number of endpoints divides 2^64 (`FairAlwaysIff`).

## Model

The first 108 rows are the main results. The rows after them are what these rest on: the
methods that tie the program's loops and fields to the specified functions, examples, and
facts that are easily seen.

| member | source | states |
|---|---|---|
| Reservoir.UniformSurvival | internal/adapter/stats/percentile_tracker.go:40-58 | for every sample size k > 0, stream length n >= k and position p, the draw sequences that keep p are the fraction k/n of all draw sequences: survivors * n = k * outcomes |
| Reservoir.EqualChances | internal/adapter/stats/percentile_tracker.go:40-58 | any two positions of the stream survive in equally many draw sequences |
| Reservoir.OutcomeCount | internal/adapter/stats/percentile_tracker.go:40-58 | there are n!/k! draw sequences, so the counts above are never of nothing |
| Resilience.TrippedIffThreshold | internal/adapter/resilience/circuit_breaker.go:90-187 | over every run from new with a threshold of at least one: tripped if and only if the failures reach the threshold, and an occupied gate means half-open |
| Resilience.TrippedNeedsThreshold | internal/adapter/resilience/circuit_breaker.go:61-66 | that equivalence holds over all runs if and only if the threshold is at least one |
| Resilience.NoLockout | internal/adapter/resilience/circuit_breaker.go:90-144 | after any run, even if no probe ever reported, a call is admitted once the open period and its probe window have passed since the last call |
| Resilience.BlockedIff | internal/adapter/resilience/circuit_breaker.go:90-144 | after any run, a call is turned away if and only if failures reach the threshold and either the open period or the window of the outstanding probe has not passed |
| Resilience.TokenCountsOnce | internal/adapter/resilience/circuit_breaker.go:146-187 | once a record of an admitted token has been taken into account, any later record of that token leaves the breaker as it is |
| Resilience.SupersededNeverCounts | internal/adapter/resilience/circuit_breaker.go:146-187 | a probe replaced by stale handover never changes the breaker again |
| Resilience.EndpointsAreIndependent | internal/adapter/health/circuit_breaker.go:82-143 | the breaker of a URL is what the calls for that URL alone make of a new breaker, however they are interleaved with calls for others |
| Resilience.ClientIsNeverLockedOut | internal/adapter/health/client.go:59-121 | in any interleaving of probes of any URLs, with or without reports, the next probe of a URL is admitted once the open period and the probe window have passed since the last call there |
| Resilience.ProtectedIff | internal/adapter/health/circuit_breaker.go:44-68 | over all runs before and all doings of other probes meanwhile, a probe is still the current one after a duration if and only if that is less than the window of the probes that could replace it, which depends on their own timeout |
| Resilience.CheckIsProtectedIff | internal/adapter/health/client.go:71-104 | however the tries of a check go, each within the smaller of the endpoint's and the client's timeout and none retried that used up its time, it reports while its probe is current, if and only if three tries with the delays between them, or else the context's deadline, fit in the window of the probes that could replace it |
| Resilience.ScheduledCheckIsProtectedIff | internal/adapter/health/checker.go:165-167 | against probes with the same timeout, every check under the context of a scheduled tick is protected if and only if timeout plus delays is under a second or the timeout is over seven |
| Resilience.UnboundedCheckIsProtectedIff | internal/adapter/health/checker.go:459-496 | without a deadline, as in RunHealthCheck, every check is protected if and only if timeout plus delays is under a second or the timeout exceeds seven seconds by half the delays |
| Resilience.CheckCounts | internal/adapter/health/client.go:103-121 | whatever happened since its admission, a check under a current token adds one failure, restarts the open period and opens at three if its deciding try failed, closes the breaker if it succeeded, and changes nothing for credentials, rate limits, a cut wait, a panic or a replaced token |
| Resilience.ThreeStrikes | internal/adapter/health/client.go:59-121 | over any checks one after another at a new URL: the breaker is not closed if and only if three admitted checks have failed since one succeeded |
| Resilience.DeadEndpointOpens | internal/adapter/health/client.go:59-121 | an endpoint all of whose checks fail leaves the closed state with the third and never returns to it, and within thirty seconds of the third the next check is refused |
| BreakerSteps.SingleFlight | internal/adapter/resilience/circuit_breaker.go:118-144 | in every interleaving of atomic steps: from the moment the gate holds a token until a record clears it or its window passes, no other caller gets through the gate |
| BreakerSteps.FreshGateHolds | internal/adapter/resilience/circuit_breaker.go:90-144 | in a reachable state with a fresh token, a step that does not clear the gate leaves it alone and admits a caller if and only if that caller finds the breaker closed |
| BreakerSteps.TokensAreInstalledOnce | internal/adapter/resilience/circuit_breaker.go:118-144 | in every interleaving each token is installed at most once, replaces nothing or the token just before it, and is replaced by at most one other |
| BreakerSteps.ClosedCallersRunBesideProbe | internal/adapter/resilience/circuit_breaker.go:157-169 | a reachable state in which a caller holds a fresh token while another is admitted because a record has just closed the breaker: the gate claims cannot be widened to all admissions |
| BreakerAlone.IsOpenAlone | internal/adapter/resilience/circuit_breaker.go:90-144 | the atomic steps of IsOpen, uninterrupted, give the answer and the state of the call taken as one step |
| WorkerPool.Accounting | pkg/eventbus/eventbus_worker.go:45-99 | in every interleaving pending equals counted producers plus queue plus busy workers, and submitted equals published plus dropped plus queued plus in flight; the queue stays within its capacity |
| WorkerPool.NeverTwice | pkg/eventbus/eventbus_worker.go:85-99 | in every interleaving no event is published twice |
| WorkerPool.OneWorkerKeepsOrder | pkg/eventbus/eventbus_worker.go:42-104 | in every interleaving a single worker publishes in the order in which the queue accepted |
| WorkerPool.DrainFlushes | pkg/eventbus/eventbus_worker.go:119-121 | when Drain returns, every event accepted before it was called has been published exactly once |
| WorkerPool.DrainAfterShutdown | pkg/eventbus/eventbus_worker.go:119-135 | once all workers have left, Drain can still return if and only if nothing is queued and no producer is about to queue |
| EventBus.DeliveredOrDropped | pkg/eventbus/eventbus.go:111-138 | over any run of publishes and receives, received plus buffered plus dropped is what was published, and what the subscriber sees is the published order less the drops |
| EventBus.OnlyOverflowsAreDropped | pkg/eventbus/eventbus.go:111-139 | over all runs an event is dropped exactly when it finds the buffer full, and the last activity is the last delivery |
| JsonScan.SkipIsExact | internal/adapter/inspector/body_inspector.go:275-306 | counting brackets over the tokens of any JSON value followed by any tokens leaves exactly the latter |
| JsonScan.ScanIsExact | internal/adapter/inspector/body_inspector.go:222-270 | on the tokens of any object the scan gives the first field named model, up to case, that holds a non-empty string, or nothing |
| JsonScan.ScanOfObject | internal/adapter/inspector/body_inspector.go:222-270 | on any cut of the tokens the scan gives that answer if the cut reaches its field, and nothing before that |
| JsonScan.LargeBodyAnswer | internal/adapter/inspector/body_inspector.go:81-107 | whatever part of the body was read, a cut inside a number included, the answer is the object's own model or nothing, and it is the model if and only if the tokens read reach its field |
| JsonScan.ModelInReachIsFound | internal/adapter/inspector/body_inspector.go:81-107 | if the reads hand out the body, within the limit, up to the end of the tree's model field, the answer is that model, however much more they hand out |
| Catalog.PutIndexesIff | internal/adapter/unifier/catalog_store.go:49-77 | storing a model keeps both indexes exact if and only if a model already under its id keeps its digest and its names |
| Catalog.DigestLookupIsScan | internal/adapter/unifier/catalog_store.go:130-149 | the digest index finds a model if and only if a full scan would, and finds the only one |
| Catalog.NameLookupIsScan | internal/adapter/unifier/catalog_store.go:94-128 | the lookup by id and name index finds a model if and only if a full scan of ids and aliases would |
| Unifier.CatalogueInvariant | internal/adapter/unifier/default_unifier.go:72-119 | over all runs of updates and cleanups whose reports neither collide nor erase: digest and name lookups equal full scans, no digest is shared, sources are distinct, sizes add up, and every source's endpoint lists the model |
| Unifier.UnifyTracks | internal/adapter/unifier/default_unifier.go:72-119 | after an update the models with a source at the endpoint are exactly the returned ids, none for an empty list |
| Unifier.ProcessConsistentIff | internal/adapter/unifier/default_unifier.go:121-148 | one report keeps the catalogue consistent if and only if its id collides with no other model and it erases no digest |
| Unifier.DigestsNeverChange | internal/adapter/unifier/default_unifier.go:215-304 | models with different digests are never merged: a stored digest stays |
| Unifier.NameResolvesIff | internal/adapter/unifier/default_unifier.go:215-261 | a reported name resolves afterwards unless the report repeats a known digest at the same endpoint under a name that did not resolve before |
| Unifier.SuffixesCollideIff | internal/adapter/unifier/model_builder.go:355-364 | for any name and any three distinct digests reported under it to an empty catalogue, the update is clean and leaves the indexes right if and only if the second and the third differ in their last eight characters |
| Unifier.EmptyDigestErasesIff | internal/adapter/unifier/default_unifier.go:392-396 | for any name, a digest and then an empty one leave a consistent catalogue if and only if the first was empty too |
| Unifier.AgesAreReports | internal/adapter/unifier/default_unifier.go:72-292 | over all clean runs: a model's age is the time of the latest update that reported it, each of its sources is what that endpoint last reported, and a cleanup takes out exactly the models nobody reported within the threshold |
| Unifier.UpdateIsRecorded | internal/adapter/unifier/default_unifier.go:72-119 | after an update each reported model has the age now and the source of its last report, other models keep their age, and no source of another endpoint comes or goes |
| Unifier.ReportJoins | internal/adapter/unifier/default_unifier.go:121-167 | a report joins the model that has its digest; failing that, the one its name resolves to unless both have digests that differ; else it makes a new one, under its name if that is free |
| ModelRegistry.IndexIsExact | internal/adapter/registry/memory_registry.go:41-164 | after any run of successful calls: an endpoint is indexed under a name if and only if its list has that name, no set is empty, the model count is the number of keys, and both directions count the same links |
| ModelRegistry.ListsFollowCalls | internal/adapter/registry/memory_registry.go:41-164 | from any registry and after any calls, failed batches included, an endpoint lists what the last batch for it and the later registrations gave it; calls about other endpoints change nothing |
| ModelRegistry.FailedBatchKeepsIndexIff | internal/adapter/registry/memory_registry.go:121-139 | a batch rejected for an unnamed model leaves the index exact if and only if the names before that model are the names the endpoint had |
| ModelRegistry.UpsertReplaces | internal/adapter/registry/memory_registry.go:60-78 | the model takes the place of the first one of its name, or the end, and no other is touched |
| ModelRegistry.AcceptedKeeps | internal/adapter/registry/memory_registry.go:120-150 | a batch without unnamed models is stored whole and in order, nil entries apart |
| QuotaBreaker.EpochQuota | internal/adapter/unifier/circuit_breaker.go:138-155 | while the breaker stays half-open it admits exactly the smaller of the calls made and its quota, for up to 2^31 - 1 calls |
| QuotaBreaker.CanWedgeIff | internal/adapter/unifier/circuit_breaker.go:37-155 | if every admitted call reports exactly once, a half-open breaker with nothing outstanding that refuses is reachable if and only if the success threshold exceeds the quota |
| QuotaBreaker.OpensAtThreshold | internal/adapter/unifier/circuit_breaker.go:37-110 | over any calls and reports: a new breaker lets every call through until as many failures in a row as the threshold have been reported, opens with the last of these, and stamps it |
| QuotaBreaker.OpenLasts | internal/adapter/unifier/circuit_breaker.go:45-54 | an open breaker turns every call away until more than the open period has passed since the last failure; the next call makes it half-open with all counters cleared |
| QuotaBreaker.HalfOpenEnds | internal/adapter/unifier/circuit_breaker.go:64-110 | a half-open breaker stays so until a failure opens it or the success that completes the threshold closes it with all counters cleared |
| QuotaSteps.AdmissionsAreBounded | internal/adapter/unifier/circuit_breaker.go:131-155 | in every interleaving of atomic steps: between two clearings of the counter exactly the quota of the calls that ask is let through, in all at most the quota for each clearing and once more |
| QuotaSteps.OneOpeningAdmitsAnyNumber | internal/adapter/unifier/circuit_breaker.go:47-53 | for every quota of at least one and every n, a run in which n callers pass after a single opening because each makes the transition to half-open |
| QuotaSteps.OpeningsBoundIff | internal/adapter/unifier/circuit_breaker.go:131-155 | in every interleaving at most the quota passes for each opening and once more, if and only if the quota is below one or so large (from 2^30 up) that no run of 2^31 - 1 requests can exceed it twice |
| QuotaReports.CanGetStuckIff | internal/adapter/unifier/circuit_breaker.go:37-155 | in the interleavings in which each call let through reports once, a half-open breaker that refuses with nothing outstanding and nobody in a transition is reachable if and only if the success threshold exceeds the quota; no bound on requests or on the counters' wraps |
| QuotaReports.CallsAreInterleavings | internal/adapter/unifier/circuit_breaker.go:37-99 | every history of calls taken one at a time is an interleaving of atomic steps with the same state and as many calls outstanding |
| Collector.BoundsAreExact | internal/adapter/stats/collector.go:388-409 | in every interleaving of the two loops, once all updates have finished the bounds are exactly the least and the greatest latency recorded |
| Collector.BoundsOfCalls | internal/adapter/stats/collector.go:388-409 | no call's latency is outside the bounds, and each bound is a call's latency |
| Collector.FailuresArePaidFor | internal/adapter/stats/collector.go:216-237 | an update's failed swaps are at most the writes of that bound, which are at most the updates past that loop; a swap fails only after a strict improvement |
| Collector.RetriesAreBounded | internal/adapter/stats/collector.go:388-409 | among n updates an unfinished one has failed fewer than n times in a loop |
| Collector.ConnectionsAreCounted | internal/adapter/stats/collector.go:156-174 | in every interleaving the active count is the number of requests that have counted themselves in and not yet out |
| RoutingStrategies.StaysAmongIff | internal/adapter/registry/routing/discovery_strategy.go:40-221 | a strategy answers with candidates only, whatever the registry and the refresh say, if and only if it is not discovery that refreshes and falls back to all |
| RoutingStrategies.FallsBackIff | internal/adapter/registry/routing/discovery_strategy.go:40-200 | a strategy falls back if and only if no candidate serves the model and it is configured to, and then answers with all candidates or with what a refresh found |
| Routing.CapableIff | internal/app/handlers/handler_proxy.go:926-978 | an endpoint is left after the capability queries if and only if the first was answered and it hosts, for every answered one, some model with that capability |
| Routing.OneModelIff | internal/app/handlers/handler_proxy.go:924-978 | for every registry and endpoint list the endpoints kept by a filter that drops anything have one model with all the capabilities answered for, if and only if at most one is required |
| Routing.EarliestModelWins | internal/adapter/registry/alias.go:53-93 | a URL is mapped if and only if some model of the alias list is served there, and then to the earliest such model |
| Routing.AliasOutcome | internal/app/handlers/handler_proxy.go:781-882 | if some candidate serves an aliased model, exactly those that do are returned and rewritten to the earliest; otherwise the rewrite map is not touched |
| Routing.ProviderScope | internal/app/handlers/handler_provider_common.go:76-164 | past the guard, a non-OpenAI provider route returns only healthy endpoints of that type, or of type auto, whatever the request asks for, if the router returns candidates |
| Routing.ServedOrFallback | internal/app/handlers/handler_proxy.go:738-771 | with the real strategies, what is returned for a model's name, or for an alias routed by name, either is all candidates that serve it or carries a fallback decision; after a rejection nothing is returned |
| RoutingOutcomes.UnnamedOutcome | internal/app/handlers/handler_proxy.go:676-775 | a request without a model's name gets exactly the endpoints of a supported type that offer every capability it asks for, if there is one and the first query is answered, and otherwise all of a supported type |
| RoutingOutcomes.NamedOutcome | internal/app/handlers/handler_proxy.go:731-772 | of these a request for a model gets exactly those that serve it, and is routed if and only if one does; after a fallback all of them or what a refresh found, after a rejection none |
| RoutingOutcomes.AliasedOutcome | internal/app/handlers/handler_proxy.go:781-857 | under an alias that some of these serve, exactly those that serve one of its models, each mapped to the first such model |
| RoutingOutcomes.RoutePasses | internal/app/handlers/handler_provider_common.go:123-166 | a provider's route gives what the request's own profile makes of exactly the healthy endpoints that the route's types leave, and of that the endpoints whose context is long enough, if any is |
| Routing.ScopeHoldsIff | internal/app/handlers/handler_provider_common.go:123-164 | the scope of provider routes holds in every configuration and for every request if and only if the routing strategy does not widen |
| Etag.SplitInvertsJoinIff | internal/app/handlers/handler_status.go:440-449 | fields can be read back from the bytes hashed if and only if none holds a NUL |
| Etag.StatusRoundTrip | internal/app/handlers/handler_status.go:593-647 | for strings without a NUL, every hashed field of the status payload can be read back from the bytes, for any number of endpoints |
| Etag.StatusIsUnique | internal/app/handlers/handler_status.go:593-647 | two such payloads give the same bytes if and only if all hashed fields are equal |
| Etag.EndpointStatusIsUnique | internal/app/handlers/handler_status_endpoints.go:319-362 | two endpoint payloads give the same bytes if and only if all hashed fields are equal |
| EtagModels.ModelStatusRoundTrip | internal/app/handlers/handler_status_models.go:581-631 | given how many families, models and groups there are, the models payload can be read back from the bytes |
| EtagModels.SameBytesSamePayloadIff | internal/app/handlers/handler_status_models.go:581-631 | two models payloads with the same bytes are equal if and only if those counts are |
| EtagModels.ShapesCollide | internal/app/handlers/handler_status_models.go:594-599 | a group with one model and a recent model give the same bytes: the models payload is not uniquely decodable |
| Merge.GroupingIsFree | internal/adapter/unifier/default_unifier.go:526-540 | merging already merged groups gives the sources that merging everything gives, ties included |
| Merge.OrderIsFreeIff | internal/adapter/unifier/default_unifier.go:533-536 | two groups merge to the same sources in either order if and only if no URL has different newest entries of the same age |
| Merge.AnyOrder | internal/adapter/unifier/default_unifier.go:526-540 | without ties every order and repetition of the entries merges to the same sources |
| Merge.MergesAgree | internal/adapter/unifier/default_unifier.go:501-575 | without ties the merge of the same models in any order agrees on sources, size, capabilities and age |
| GlobPattern.MatchIsWild | internal/util/pattern/glob.go:7-38 | for every pattern that passes validation the matcher is, up to case, the usual reading of * as any text |
| GlobFiltering.AcceptsIff | internal/adapter/filter/glob_filter.go:98-134 | with the star read as any text and case ignored, a name passes if some inclusion matches or there is none, and no exclusion does |
| GlobFiltering.KeysMeetIff | internal/adapter/filter/glob_filter.go:137-157 | two different names have a cache key in common if and only if one is the other followed by a colon at its end or by two colons |
| GlobFiltering.CacheIsInvisible | internal/adapter/filter/glob_filter.go:98-157 | for names that are apart, in every state that calls and clearing can reach, the filter answers as it would without a cache |
| GlobFiltering.CacheIsInvisibleIff | internal/adapter/filter/glob_filter.go:98-157 | for two names that holds over all calls if and only if they are apart |
| GlobFiltering.ApplyParts | internal/adapter/filter/glob_filter.go:29-69 | for names apart, whatever the cache holds, filtering parts the items into those that pass and those that do not, each in order |
| HealthChecks.BackoffClosedForm | internal/adapter/health/client.go:346-371 | after any run of checks ending in k results that are not healthy the multiplier is the smaller of 2^k and the cap, the wait is that of k, and the failures are counted |
| HealthChecks.WaitsGrowIff | internal/adapter/health/client.go:346-371 | the waits never shrink along a streak if and only if the check interval is within the cap |
| HealthChecks.RecoveriesAreBlocks | internal/adapter/health/checker.go:288-318 | recovery callbacks in a run are exactly the completed stretches of statuses that are not healthy, an unknown first status not counted |
| HealthChecks.LossesAreBlocks | internal/adapter/health/checker.go:325-333 | unhealthy callbacks in a run are exactly the completed stretches of routable statuses |
| HealthChecks.RepositoryFollowsProbes | internal/adapter/health/checker.go:241-336 | over all runs of checks of any endpoints, each read from the repository: an endpoint is stored as its last stored probe found it, and its callbacks are the completed blocks of its own statuses |
| Balancer.FairBeforeWrap | internal/adapter/balancer/round_robin.go:44-47 | over any number of picks among n endpoints that do not cross the wrap of the counter, each is picked the quotient rounded down or up |
| Balancer.FairAlwaysIff | internal/adapter/balancer/round_robin.go:44-47 | the picks stay fair across the wrap, from every counter, if and only if n divides 2^64 |
| Balancer.TiedAreLeast | internal/adapter/balancer/least_connections.go:58-72 | with no count of -1 the tied endpoints are exactly those with the least count, in order |
| Balancer.FindsLeastIff | internal/adapter/balancer/least_connections.go:58-72 | for counts from -1 up, the loop ends with the endpoints of least count, in order, if and only if no endpoint before the last has the count -1, which it reserves |
| Balancer.AllTiedAreChosen | internal/adapter/balancer/least_connections.go:74-79 | while the tied set of k is unchanged and the cursor does not wrap, k picks choose every one |
| Reservoir.DrawsAreTheValidOnes | internal/adapter/stats/percentile_tracker.go:49-57 | the sequences counted are exactly those that a sampler can draw: value i draws below i |
| Reservoir.RunSelectsPositions | internal/adapter/stats/percentile_tracker.go:40-58 | the sample is the stream read at positions that depend on the draws alone |
| Reservoir.PositionsAreDistinct | internal/adapter/stats/percentile_tracker.go:40-58 | no position of the stream is in the sample twice |
| Reservoir.RankIsUnique | internal/adapter/stats/percentile_tracker.go:61-93 | at most one value has a given rank in a sample, so a percentile is determined by its rank |
| Reservoir.SortedHasRank | internal/adapter/stats/percentile_tracker.go:61-93 | reading a sorted copy at an index gives the value of that rank in the sample |
| Reservoir.ReservoirSampler.Add | internal/adapter/stats/percentile_tracker.go:40-58 | in-place replacement keeps the sample equal to the run over the whole stream seen, and consumes a draw only once the sample is full |
| Reservoir.ReservoirSampler.GetPercentiles | internal/adapter/stats/percentile_tracker.go:61-93 | zeros for an empty sample, otherwise the values of rank 50, 95 and 99 percent, in non-decreasing order |
| Reservoir.ReservoirSampler.Reset | internal/adapter/stats/percentile_tracker.go:103-108 | the sampler forgets the stream and the draws |
| Resilience.Breaker.IsOpen | internal/adapter/resilience/circuit_breaker.go:90-144 | answers and changes the four fields as the specified call does, and hands no token to a caller that is turned away |
| Resilience.Breaker.RecordSuccess | internal/adapter/resilience/circuit_breaker.go:162-169 | a current record closes the breaker and clears failures and gate; a superseded one changes nothing |
| Resilience.Breaker.RecordFailure | internal/adapter/resilience/circuit_breaker.go:173-187 | a current record counts, stamps, clears the gate and opens at the threshold; a superseded one changes nothing |
| Resilience.Breaker.Tripped | internal/adapter/resilience/circuit_breaker.go:193-195 | tripped means not closed |
| Resilience.SingleFlight | internal/adapter/resilience/circuit_breaker.go:118-144 | inside a token's window every call is turned away and records of other tokens change nothing |
| Resilience.OthersAreBlocked | internal/adapter/health/circuit_breaker.go:44-68 | while a probe lasts less than its window, every other probe is turned away and the breaker stays as it is |
| Resilience.WrappedCheckIsProtected | internal/adapter/health/checker.go:85-91 | under the context of twice the timeout every check is protected |
| Resilience.OwnUrlIsProtected | internal/adapter/health/circuit_breaker.go:70-83 | calls for other health-check URLs never supersede a probe: if nobody else asks at its own URL meanwhile, its token is still current, however long it took |
| Resilience.SlowestIsSlowest | internal/adapter/health/client.go:76-101 | no check lasts longer than one whose first two tries just miss their deadline and whose third reaches it |
| Resilience.DefaultScheduledCheckIsExposed | internal/adapter/health/checker.go:173-243 | with the default timeout of two seconds a run in which the check of another endpoint with the same health-check URL, in the same tick, asks before a check reports, is let through, and leaves its report without effect |
| Resilience.HealthCircuitBreaker.IsOpen | internal/adapter/health/circuit_breaker.go:82-88 | asks the breaker of that URL and touches no other |
| Resilience.HealthCircuitBreaker.RecordSuccess | internal/adapter/health/circuit_breaker.go:108-114 | records a success at the breaker of that URL and touches no other |
| Resilience.HealthCircuitBreaker.RecordFailure | internal/adapter/health/circuit_breaker.go:118-120 | records a failure at the breaker of that URL and touches no other |
| Resilience.HealthClient.Check | internal/adapter/health/client.go:39-128 | asks once; a refused check does nothing more; an admitted one ends as its deciding try does and leaves the breaker as specified for it, and no other breaker changes |
| Resilience.ResultIsDeciding | internal/adapter/health/client.go:74-101 | the result of a check is that of the first try that is not a retryable error, or else of the last |
| BreakerSteps.AdmissionsAreInstalls | internal/adapter/resilience/circuit_breaker.go:118-144 | a step admits a caller with a token if and only if it installs that token |
| BreakerAlone.RecordSuccessAlone | internal/adapter/resilience/circuit_breaker.go:162-169 | the atomic steps of RecordSuccess, uninterrupted, give the state of the call taken as one step |
| BreakerAlone.RecordFailureAlone | internal/adapter/resilience/circuit_breaker.go:173-187 | the atomic steps of RecordFailure, uninterrupted, give the state of the call taken as one step |
| WorkerPool.OnlyFullQueuesDrop | pkg/eventbus/eventbus_worker.go:42-77 | a producer past the check sends when the queue has room and drops only when it is full; after the cancellation no producer passes the check |
| WorkerPool.ShutdownCanStrand | pkg/eventbus/eventbus_worker.go:124-135 | a run in which shutdown leaves an accepted event behind and Drain can never return |
| EventBus.EventBus.Subscribe | pkg/eventbus/eventbus.go:78-108 | after shutdown nothing is registered; before it a new, active subscriber under an id not in use |
| EventBus.EventBus.Publish | pkg/eventbus/eventbus.go:111-138 | each active subscriber with room gets the event at the end of its buffer, each without room counts one drop, and the result is the number delivered |
| EventBus.EventBus.Unsubscribe | pkg/eventbus/eventbus.go:235-244 | exactly that subscriber is removed |
| EventBus.EventBus.Shutdown | pkg/eventbus/eventbus.go:161-185 | no subscriber is left and later publishes deliver nothing |
| JsonScan.SkipNeedsWholeValue | internal/adapter/inspector/body_inspector.go:275-306 | skipping fails on every proper prefix of a value's tokens |
| JsonScan.ScanOfOtherValues | internal/adapter/inspector/body_inspector.go:228-236 | in a value that is no object nothing is found |
| JsonScan.Decoder.SkipValueTokens | internal/adapter/inspector/body_inspector.go:275-306 | the loop with its depth counter succeeds when the skip does and stops right behind the value |
| JsonScan.ExtractTopLevelModelField | internal/adapter/inspector/body_inspector.go:222-270 | the streaming loop returns the answer of the scan |
| JsonScan.TeeReader.Read | internal/adapter/inspector/body_inspector.go:84-86 | every byte handed out is captured, and captured plus unread stays the original body within the limit |
| JsonScan.InspectLarge | internal/adapter/inspector/body_inspector.go:81-107 | the restored body is the original body; exactly as much is read as the reads offer within the limit and the body; the model name is the normalised answer on that part, or the profile's own |
| JsonScan.ModelKeysIgnoreCase | internal/adapter/inspector/body_inspector.go:247-248 | the names taken for the model field are those that read model in any case |
| Catalog.AddKeysInvertsIff | internal/adapter/unifier/catalog_store.go:256-267 | adding keys for an id keeps the index the inverse of the catalogue if and only if the id keeps the keys it had |
| Catalog.RemoveKeysInverts | internal/adapter/unifier/catalog_store.go:269-283 | removing all keys of an id keeps the index the inverse and drops emptied entries |
| Catalog.RemoveKeepsIndexed | internal/adapter/unifier/catalog_store.go:151-177 | removing a model keeps both indexes exact |
| Catalog.NamesStayTaken | internal/adapter/unifier/catalog_store.go:49-77 | a name that resolves keeps its model when another is stored, unless it is the stored id |
| Catalog.CatalogStore.PutModel | internal/adapter/unifier/catalog_store.go:49-77 | the four maps become those of the specified insertion |
| Catalog.CatalogStore.RemoveModel | internal/adapter/unifier/catalog_store.go:151-177 | the four maps become those of the specified removal, which reports whether the id was there |
| Catalog.CatalogStore.ResolveByName | internal/adapter/unifier/catalog_store.go:94-128 | the stages of the lookup together give the specified model; the final scan of aliases adds nothing to an exact index |
| Catalog.CatalogStore.ResolveByDigest | internal/adapter/unifier/catalog_store.go:130-149 | returns the model the digest index specifies, first |
| Catalog.CatalogStore.AddToIndex | internal/adapter/unifier/catalog_store.go:256-267 | one key gains an id, without duplicates |
| Catalog.CatalogStore.RemoveFromIndex | internal/adapter/unifier/catalog_store.go:269-283 | one key loses an id, and goes when it was the last |
| Catalog.CatalogStore.CleanupStaleModels | internal/adapter/unifier/catalog_store.go:203-240 | exactly the stale models are removed, and the indexes stay exact |
| Unifier.MergeIsSound | internal/adapter/unifier/default_unifier.go:215-292 | merging a report keeps sources distinct and sizes adding up, adds the reporting endpoint and loses no name |
| Unifier.SecondNativeNameIsLost | internal/adapter/unifier/default_unifier.go:225-261 | two names with one digest at one endpoint: the second replaces the native name and resolves to nothing |
| Unifier.CollisionBreaksIndex | internal/adapter/unifier/model_builder.go:355-364 | an id that collides with another model leaves the indexes wrong |
| Unifier.CollidingDigests | internal/adapter/unifier/model_builder.go:355-364 | three such digests after which the indexes are wrong |
| Unifier.RemoveEachKeeps | internal/adapter/unifier/catalog_store.go:203-240 | removing stale models keeps the catalogue consistent and endpoints tracked |
| Unifier.DefaultUnifier.UnifyModels | internal/adapter/unifier/default_unifier.go:72-119 | the update, with a cleanup first if one is due, leaves the specified store and returns its models for the endpoint, each with the age now and with the source last reported |
| Unifier.DefaultUnifier.ProcessModel | internal/adapter/unifier/default_unifier.go:121-148 | a report is merged into the model its digest or compatible name selects, or creates one, as specified |
| Unifier.DefaultUnifier.MergeModel | internal/adapter/unifier/default_unifier.go:215-292 | the merged model is stored under the same id, with the age now and the endpoint's source as reported |
| Unifier.ReportIsRecorded | internal/adapter/unifier/default_unifier.go:215-292 | one report sets the age of its model, its endpoint's source and its digest, and no other source |
| Unifier.DefaultUnifier.RemoveModelFromEndpoint | internal/adapter/unifier/default_unifier.go:347-372 | the endpoint's source goes, and the model with it when it was the last |
| ModelRegistry.ApplyKeepsValid | internal/adapter/registry/memory_registry.go:41-164 | each successful call keeps the index exact and the statistics right |
| ModelRegistry.FailedBatchCanBreakIndex | internal/adapter/registry/memory_registry.go:121-139 | a rejected batch that leaves an endpoint indexed under a model it does not have |
| ModelRegistry.MemoryModelRegistry.RegisterModel | internal/adapter/registry/memory_registry.go:41-99 | which error, or the registry with the model in the place of the first of its name, or at the end, and all others unchanged |
| ModelRegistry.MemoryModelRegistry.RegisterModels | internal/adapter/registry/memory_registry.go:101-164 | which error, or the registry with the list replaced; the index change that an unnamed model leaves behind included |
| ModelRegistry.MemoryModelRegistry.RemoveEndpoint | internal/adapter/registry/memory_registry.go:310-329 | which error, or the registry without the endpoint |
| ModelRegistry.MemoryModelRegistry.RemoveEndpointFromIndex | internal/adapter/registry/memory_registry.go:383-402 | the endpoint leaves the sets of its models, and emptied sets go |
| ModelRegistry.MemoryModelRegistry.GetRoutableEndpointsForModel | internal/adapter/registry/memory_registry.go:473-518 | an error for an empty name; otherwise, with an exact index, the healthy endpoints whose list has the model, in order; 404 for a model nobody has and 503 for one only on other endpoints |
| ModelRegistry.MemoryModelRegistry.GetEndpointsForModel | internal/adapter/registry/memory_registry.go:200-226 | an error for an empty name, otherwise the indexed endpoints, none for an unknown model |
| QuotaBreaker.WrappedCounterAdmits | internal/adapter/unifier/circuit_breaker.go:152-155 | beyond the quota a call is admitted if and only if the 32-bit counter wraps |
| QuotaBreaker.WedgeLasts | internal/adapter/unifier/circuit_breaker.go:37-155 | a wedged breaker refuses every further call until the counter wraps |
| QuotaReports.NeverStuck | internal/adapter/unifier/circuit_breaker.go:37-155 | the half of it that holds of every interleaving: with a quota that covers the successes needed such a breaker lets the next call through |
| QuotaSteps.RecordSuccessAlone | internal/adapter/unifier/circuit_breaker.go:64-84 | the atomic steps of RecordSuccess, uninterrupted, give the state of the call taken as one step |
| QuotaSteps.RecordFailureAlone | internal/adapter/unifier/circuit_breaker.go:86-110 | the same for RecordFailure |
| QuotaSteps.AllowAlone | internal/adapter/unifier/circuit_breaker.go:37-62 | the atomic steps of Allow, uninterrupted, give the answer and the state of the call taken as one step |
| QuotaBreaker.CircuitBreaker.Allow | internal/adapter/unifier/circuit_breaker.go:37-62 | admission and state change as specified, the transition to half-open included |
| QuotaBreaker.CircuitBreaker.RecordSuccess | internal/adapter/unifier/circuit_breaker.go:64-84 | a success resets failures when closed and counts towards closing when half-open |
| QuotaBreaker.CircuitBreaker.RecordFailure | internal/adapter/unifier/circuit_breaker.go:86-109 | a failure counts and opens at the threshold when closed, and reopens when half-open |
| QuotaBreaker.EndpointManager.RecordFailure | internal/adapter/unifier/endpoint_manager.go:36-55 | the count grows by one, the endpoint is shown offline from the maximum on and degraded below it, and other endpoints are untouched |
| QuotaBreaker.EndpointManager.RecordSuccess | internal/adapter/unifier/endpoint_manager.go:58-86 | the count is zero, the state online, and other endpoints are untouched |
| QuotaBreaker.EndpointManager.RemoveEndpoint | internal/adapter/unifier/endpoint_manager.go:126-138 | the endpoint is as if never seen, others are untouched |
| QuotaBreaker.EndpointManager.UnifyModels | internal/adapter/unifier/lifecycle_unifier.go:101-122 | asks, and once admitted records exactly one outcome in breaker, count and state; other endpoints are untouched, and so is the state of a refused one |
| Collector.FailuresAreCounted | internal/adapter/stats/collector.go:388-409 | the failed swaps of an update in a loop are exactly the moves of the run at which it finds another value than it read |
| Collector.OpenedAreRequests | internal/adapter/stats/collector.go:156-174 | the requests are those opened, and those not closed are still served |
| RoutingStrategies.RoutedServes | internal/adapter/registry/routing/optimistic_strategy.go:35-129 | an answer is routed if and only if some candidate serves the model, and is then all such candidates; a rejection has an error status and no endpoint |
| RoutingStrategies.RejectionStatus | internal/adapter/registry/routing/strict_strategy.go:31-90 | a rejection has status 404 if nobody is named for the model and the strategy does not discover, else 503, and is an error except from the optimistic strategy |
| RoutingStrategies.ActionsOf | internal/adapter/registry/routing/strict_strategy.go:31-102 | only rejections fail, a routed answer is not empty, and the status is 200 unless rejected |
| Routing.CapabilitiesAreOffered | internal/app/handlers/handler_proxy.go:884-1008 | when the capability filter drops anything, each endpoint it keeps offers every required capability whose query was answered |
| Routing.CapabilitiesOfDifferentModels | internal/app/handlers/handler_proxy.go:968-978 | for any request that needs more than one, a registry where the endpoint kept has them in different models only |
| Routing.ContextFits | internal/app/handlers/handler_proxy.go:1010-1040 | either every endpoint returned fits the token count, or none of the candidates did and all are returned |
| Routing.PipelineStaysAmong | internal/app/handlers/handler_proxy.go:676-775 | through every stage and fallback the pipeline returns only endpoints it was given, if the router does |
| Routing.PlainProviderRoute | internal/app/handlers/handler_provider_common.go:123-164 | without further requirements the route returns exactly the healthy endpoints in scope |
| RoutingOutcomes.UnservedAliasOutcome | internal/app/handlers/handler_proxy.go:781-882 | under an alias that none of these serve, the request is routed as for a model of that name, and no rewriting is asked for |
| RoutingOutcomes.FailedRouting | internal/app/handlers/handler_proxy.go:745-762 | a registry that cannot route leaves a request for a model all of these |
| RoutingOutcomes.RouteOutcome | internal/app/handlers/handler_provider_common.go:123-166 | without a model's name: exactly the endpoints that route, types, needs and context leave |
| RoutingOutcomes.ProfileAccepts | internal/app/handlers/handler_provider_common.go:19-64 | which types a provider's route is open to, and that only OpenAI's fall open |
| RoutingOutcomes.RequiredIsAsked | internal/app/handlers/handler_proxy.go:905-923 | which capabilities each need asks for, and which is asked first |
| RoutingOutcomes.Normalised | internal/app/handlers/handler_common.go:14-25 | a type is its lower-case spelling with dashes, and LM Studio has one spelling |
| RoutingOutcomes.CompatibleWithOne | internal/core/domain/routing.go:59-83 | which types a request takes that supports one type, or OpenAI's protocol |
| RoutingOutcomes.KeepConcat | internal/app/handlers/handler_proxy.go:684-694 | filtering keeps the order of the endpoints |
| Routing.SupportedIsNamed | internal/app/handlers/handler_common.go:102-113 | a provider that passes the guard has a name, so that the profile of its route names exactly one type |
| Routing.EmptyProviderIsUnscoped | internal/app/handlers/handler_provider_common.go:76-79 | behind the guard an empty name would keep every healthy endpoint; the guard turns it away |
| Routing.OutageFailsClosed | internal/app/handlers/handler_provider_common.go:137-150 | with no healthy endpoint of the type nothing is returned and the request's own decision is not touched |
| Routing.OpenAIFallsOpen | internal/app/handlers/handler_provider_common.go:31-51 | an OpenAI route without a model name has an endpoint whenever any is healthy |
| Routing.ScopeWithStrategy | internal/app/handlers/handler_provider_common.go:123-164 | with any routing strategy that does not widen, the scope holds without further assumption |
| Routing.WideningLeavesScope | internal/adapter/registry/routing/discovery_strategy.go:203-219 | with discovery that refreshes and falls back to all, a vllm request is answered with an ollama endpoint |
| RoutingHandler.RequestProfile.AddSupportedProfile | internal/core/domain/routing.go:82-94 | empty and repeated types are not added |
| RoutingHandler.RequestProfile.IsCompatibleWith | internal/core/domain/routing.go:59-80 | the loop decides compatibility, with the aliases of the OpenAI protocol |
| RoutingHandler.ResolveEndpoints | internal/adapter/registry/alias.go:53-93 | the nested loops build the specified alias map |
| RoutingHandler.FindCapableModels | internal/app/handlers/handler_proxy.go:926-958 | the loop over capabilities gives the specified set, or nothing when no query finds a model |
| RoutingHandler.FilterEndpointsByCapabilities | internal/app/handlers/handler_proxy.go:884-903 | the filter, with its fallbacks to all endpoints |
| RoutingHandler.FilterEndpointsByCapableModels | internal/app/handlers/handler_proxy.go:980-1008 | the endpoints at capable URLs, or all if there are none |
| RoutingHandler.FilterEndpointsByContextLength | internal/app/handlers/handler_proxy.go:1010-1040 | the endpoints that fit, or all if none does |
| RoutingHandler.Application.FilterEndpointsByProfile | internal/app/handlers/handler_proxy.go:676-775 | the endpoints and the writes to the profile are those of the specified pipeline; without a model's name they are exactly the endpoints that type and capabilities leave |
| RoutingHandler.Application.ResolveAliasEndpoints | internal/app/handlers/handler_proxy.go:781-849 | the endpoints, the rewrite map and the decision are those specified |
| RoutingHandler.Application.RouteByAliasName | internal/app/handlers/handler_proxy.go:860-882 | an error status empties the answer, no answer falls back to the candidates, and the rewrite map is untouched |
| RoutingHandler.Application.CreateProviderProfile | internal/app/handlers/handler_provider_common.go:19-62 | the profile of the provider, inclusive for OpenAI and failing closed otherwise |
| RoutingHandler.Application.GetProviderEndpoints | internal/app/handlers/handler_provider_common.go:123-164 | the endpoints and the writes to the request's profile are those specified; an error only when healthy endpoints cannot be read |
| RoutingHandler.Application.IsSupported | internal/app/handlers/handler_common.go:102-113 | the guard, with the loop over the static providers |
| RoutingHandler.Application.ProviderProxyHandler | internal/app/handlers/handler_provider_common.go:67-119 | unsupported providers are rejected without a look at the endpoints; what is dispatched to is in the provider's scope |
| Etag.SplitInvertsJoin | internal/app/handlers/handler_status.go:440-449 | fields without a NUL can be read back from the bytes hashed |
| Etag.ParseInvertsPrint | internal/app/handlers/handler_status.go:453-457 | reading a printed integer gives it back, negative ones included |
| Etag.IntegersAreFields | internal/app/handlers/handler_status.go:453-457 | a printed integer is never empty and holds no separator |
| Etag.ParseMaybeInvertsPrint | internal/app/handlers/handler_status.go:461-488 | an absent integer or time is told apart from every present one, zero included |
| Etag.NulMovesTheBoundary | internal/app/handlers/handler_status.go:440-449 | with a NUL inside a string two different payloads give the same bytes |
| Etag.EndpointStatusRoundTrip | internal/app/handlers/handler_status_endpoints.go:319-362 | the same for the endpoints payload, whose counts come after its records |
| EtagModels.EmptyElementsCollide | internal/app/handlers/handler_status.go:493-498 | an empty string in a list cannot be told from the end of the list |
| EtagHasher.HashStatusResponse | internal/app/handlers/handler_status.go:593-621 | the bytes written field by field are those of the status payload |
| EtagHasher.HashEndpointStatusResponse | internal/app/handlers/handler_status_endpoints.go:319-328 | the bytes written are those of the endpoints payload |
| EtagHasher.HashModelStatusResponse | internal/app/handlers/handler_status_models.go:581-605 | the bytes written are those of the models payload |
| EtagHasher.HashEndpointResponse | internal/app/handlers/handler_status.go:630-647 | sixteen fields in order |
| EtagHasher.HashEndpointSummary | internal/app/handlers/handler_status_endpoints.go:346-362 | fifteen fields in order |
| EtagHasher.HashModelSummary | internal/app/handlers/handler_status_models.go:610-622 | the fields and the four lists of a model in order |
| EtagHasher.HashModelGroupSummary | internal/app/handlers/handler_status_models.go:624-631 | the fields, the list and the models of a group in order |
| Merge.NewestIsNewest | internal/adapter/unifier/default_unifier.go:526-540 | the merged sources have exactly the URLs of the entries, each with an entry none of that URL is newer than |
| Merge.TotalWithout | internal/adapter/unifier/default_unifier.go:559-564 | the sum of the sizes does not depend on the order in which the map is walked |
| Merge.LastAliasWins | internal/adapter/unifier/default_unifier.go:501-575 | the merge has a name if and only if some model has it, and then the last alias of the last model that has it |
| Merge.LastValueWins | internal/adapter/unifier/default_unifier.go:501-575 | the merge has a metadata key if and only if some model has it, and then the value of the last model that has it |
| Merge.MergeUnifiedModels | internal/adapter/unifier/default_unifier.go:501-575 | nothing for no model, the model itself for one, and for more the newest source of each URL, their summed sizes, the united capabilities, the last alias of each name and the latest age |
| GlobPattern.ValidIff | internal/core/domain/filter.go:62-110 | a pattern is valid if and only if it is not blank, has stars at its ends only and is not made of two stars |
| GlobFiltering.CleanNamesAreApart | internal/adapter/filter/glob_filter.go:137-139 | names without :: that do not end in a colon never share a key |
| GlobFiltering.CollisionMisleads | internal/adapter/filter/glob_filter.go:137-157 | for any two colliding names, two queries after which the filter reports a match that is none |
| GlobFiltering.PartsHoldTheItems | internal/adapter/filter/glob_filter.go:46-68 | the two parts hold every item as often as it was given, and their lengths add up |
| GlobFiltering.GlobFilter.MatchesPattern | internal/adapter/filter/glob_filter.go:137-157 | answers from the cache or computes and remembers |
| GlobFiltering.GlobFilter.Matches | internal/adapter/filter/glob_filter.go:98-134 | inclusion first, exclusion over it, the cache threaded through both |
| GlobFiltering.GlobFilter.Apply | internal/adapter/filter/glob_filter.go:29-69 | everything for no filter, nothing for an invalid one, otherwise the items one after another |
| HealthChecks.SlownessHidesErrors | internal/adapter/health/client.go:310-343 | for any client: each status characterised by code, latency and error; a response is busy if and only if it is slow and not 401, 403 or 429, whatever its code, and what the breaker is told follows from that |
| HealthChecks.NothingIsBusy | internal/adapter/health/types.go:9-11 | within the five seconds of the program's client no outcome is busy, and a response is unhealthy exactly for the codes that are neither a success nor about credentials or rates |
| HealthChecks.HTTPHealthChecker.CheckEndpoint | internal/adapter/health/checker.go:241-336 | the stored entry has the probe's status, time, latency and rate-limit window, and callbacks fire as specified; an endpoint that is gone or cannot be updated changes nothing |
| HealthChecks.ChecksAreIndependent | internal/adapter/health/checker.go:241-336 | an endpoint's entry and callbacks depend on its own stored probes alone |
| Balancer.RunsFollowTheCounter | internal/adapter/balancer/round_robin.go:44-47 | the turns of a run are those of single picks, one counter step each |
| Balancer.RoutablesInOrder | internal/adapter/balancer/round_robin.go:28-42 | the routable endpoints are taken in their order |
| Balancer.UnsetIsForgotten | internal/adapter/balancer/least_connections.go:61-72 | an endpoint before the last with the count -1 is dropped, whatever the others are |
| Balancer.EachOnce | internal/adapter/balancer/least_connections.go:78-79 | as many picks as positions pick each position exactly once |
| Balancer.RoundRobinSelector.Select | internal/adapter/balancer/round_robin.go:28-48 | the routable endpoint whose turn it is and one step of the counter, or an error and no step |
| Balancer.LeastConnectionsSelector.Select | internal/adapter/balancer/least_connections.go:35-80 | the only least-loaded endpoint without a step, or the tied one whose turn it is and one step of the cursor |

## Left out

- BreakerSteps.SingleFlight: the gate alone is covered, not admissions on the closed path, because `ClosedCallersRunBesideProbe` shows that those can fall inside a token's window; one lower bound on the staleness of all callers is assumed, and each clock read is later than every one before it.
- Resilience.TrippedIffThreshold: one call at a time with a clock that goes forward, because with interleaved steps state and count differ in between.
- WorkerPool.DrainFlushes: Drain is the moment the pending counter reads zero; the waiting loop around it and its context are not modelled.
- WorkerPool.Accounting: producers, workers and the queue are a transition system only; no class repeats them, because their methods mean nothing but their steps.
- EventBus.DeliveredOrDropped: one subscriber's history; the removal of inactive subscribers by the cleanup loop, statistics and the lock-free map underneath are not modelled.
- JsonScan.ScanIsExact: JSON is a sequence of tokens, in which numbers and names are not told apart; the lexing of bytes and the rejection of malformed input inside the decoder are a parameter, and letter case is that of ASCII.
- JsonScan.InspectLarge: only the path for bodies over the size limit; for smaller bodies the model name, capabilities and prompt are read with a JSON library, which is not part of this model.
- Unifier.CatalogueInvariant: runs whose reports neither collide nor erase, which is exactly when it holds; the direct `DefaultUnifier.UnifyModel` call is not an update of an endpoint and is excluded.
- Unifier.MergeIsSound: sources, names, sizes, digest and age; families, parameters, quantisation, metadata and capabilities of a model are carried by no property and not modelled.
- Catalog.CatalogStore.ResolveByName: letter case is that of ASCII, and models are values, so that a caller changing a model that `GetModel` returned by reference is not captured.
- ModelRegistry.IndexIsExact: runs of successful calls; a failed batch is covered by `FailedBatchKeepsIndexIff`.
- QuotaBreaker.CanWedgeIff: a call at a time; overlapping calls are covered by `QuotaReports`. `RecordEndpointFailure` and `ForceEndpointCheck`, which record without asking, are not modelled.
- Resilience.TrippedNeedsThreshold: every caller in the program passes a positive constant, so the condition always holds there.
- HealthChecks.SlownessHidesErrors: a slow error response would count as busy, against the comment of `determineStatus`; the timeout of the program's client is below the threshold of slowness, so this never happens there (`NothingIsBusy`).
- Resilience.ProtectedIff: other probes record under their own tokens; a record without a token, left over from a call admitted while the breaker was closed, clears the gate whenever it comes.
- Resilience.CheckIsProtectedIff: a try ends at the smaller of its timeouts at the latest, without time lost to scheduling; the delays are an input, at least as long as the program asks for; time is whole nanoseconds.
- QuotaSteps.AdmissionsAreBounded: up to 2^31 - 1 requests, after which `WrappedCounterAdmits` applies; `Reset` is left out of the steps.
- QuotaBreaker.EndpointManager.RecordFailure: the failure count does not wrap, and error texts and change times are not modelled.
- Collector.ConnectionsAreCounted: connections change by one and the endpoint's record is never removed; `cleanup` can remove it, after which the count starts again.
- Collector.BoundsAreExact: the compare-and-swap loops are steps of a transition system only; run by a single caller each swap succeeds at once.
- Unifier.DefaultUnifier.UnifyModels: the counters of digest and name matches and the log are not modelled.
- Reservoir.UniformSurvival: draws are taken as given; that the generator draws them uniformly and independently is not part of this model, and the count of values does not wrap.
- Routing.ProviderScope: the registry is a value that answers the same throughout a call, and the reason texts of decisions made here are not modelled.
- RoutingStrategies.StaysAmongIff: timeouts and contexts of the discovery refresh are inputs.
- Etag.StatusIsUnique: the bytes that reach the hash, not the 64-bit sum, which can collide; a time is its number of nanoseconds, so instants outside the range of `UnixNano` are not covered.
- EtagModels.ModelStatusRoundTrip: families are taken in the order in which they are hashed; sorting them is not modelled.
- Merge.MergesAgree: identity, aliases and metadata do depend on the order of the models, as `LastAliasWins` and `LastValueWins` say; sizes do not wrap.
- Balancer.FindsLeastIff: the collector never reports a count below zero (`ConnectionsAreCounted`), so the condition always holds in the program.
- GlobPattern.MatchIsWild: letter case and white space are those of ASCII.
- GlobFiltering.ApplyParts: the lock around the cache and reflection over the items are not modelled; `ApplyToMap` would add the same filter over a map.
- HealthChecks.BackoffClosedForm: checks of one endpoint that are stored, each on the state the last one left; the proxy's own change of the multiplier on a failed request, jitter and the multiplication of durations beyond 64 bits are not modelled.
- Balancer.TiedAreLeast: counts are read at one moment; in the program they may change between two reads.
- Balancer.AllTiedAreChosen: consecutive picks of one caller or of serialised callers, which is how the atomic counter orders them.
- `UnifiedMemoryModelRegistry`: its asynchronous merge keeps endpoints that stopped serving a model, so no exactness holds there.
- HTTP handlers and clients, configuration, logging, themes, telemetry, the dashboard and the command line: input and output without an invariant.
- Format converters, metadata extraction and model family tables: long but shallow.
- Setters that exist for tests (`SetOpen`, `NewTripped` and similar): they break the invariants on purpose.
- Weighted random balancing, sticky sessions and rate limiting: they rest on random choice or on libraries that are not part of this model.
