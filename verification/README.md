# hermes-rpt: a verified model

This Dafny project models the parts of the hermes-rpt platform that carry its guarantees and proves
those guarantees for all inputs, all runs and all interleavings. It models:

- **Time-based guards**: the fixed-window rate limiter, the circuit breaker, retrying and cached model loading
  (`RateLimit`, `CircuitBreaker`, `ModelLoading`).
- **Connections**: the per-tenant pool registry under interleaved tasks, the secret provider, and the connection
  lifecycle with its pool as a cache that must never be stale (`PoolRegistry`, `Secrets`, `Connections`,
  `ConnectionManager`, `ConnectionSafety`, `ConnectionDisabling`, `ConnectionBook`).
- **Mappings**: greedy suggestion, expressions, document validation, and the versioned lifecycle over shared
  tenant-scoped storage (`Suggestion`, `Expressions`, `Documents`, `Validation`, `Repository`, `MappingLifecycle`,
  `MappingService`, `MappingSafety`, `MappingHistory`, `MappingServing`, `MappingReturn`, `MappingBook`,
  `MappingIsolation`).
- **Schema drift**: fingerprints, snapshot comparison, discovery, and the suspension of mappings
  (`Sorting`, `Fingerprints`, `Drift`, `Snapshots`, `Discovery`,
  `DiscoveryHistory`, `DriftSuspension`).
- **Features**: the delivery-delay contract, the query compiler, extraction, the dry run, and point-in-time safety
  (`FeatureContracts`, `FeatureQueries`, `FeatureExtraction`, `FeaturePlanning`, `PointInTime`,
  `FeatureMeaning`, `ExtractionMeaning`).
- **Models**: the F1 threshold search, relational encoding and pretraining batches (`Threshold`, `TransformerSchema`,
  `Encoding`, `EncodingMeaning`, `RandomDraws`, `Pretraining`, `MaskingDraws`, `TemporalPairs`, `MaskedValues`).

Classes whose methods update fields are classes here; each such method is proved equal to a specification function
of the old state, and the properties of whole runs are lemmas about those functions. `dafny verify dfyconfig.toml`
checks everything.

## What the model takes as given

Clocks, health checks, model artifacts, column scores, random draws, customer tables and the result of an introspection
are parameters, so every theorem holds for all of them. Generated identifiers and reference keys are parameters that
have never been used before. Hashing, the order of strings behind `sorted`, unit conversion and the host language's text
functions are parameters too; collision-freedom is assumed only where a row says so. Times and scores are exact real
numbers or integers; a datetime is a count of microseconds in UTC.

## Where the code and its own description differ

- The limiter admits more than twice its maximum in an interval exactly when the window length is zero
  (`RateLimit.AtMostTwiceMaxPerInterval`), and more than its maximum in a window exactly when the length is not positive
  (`RateLimit.AtMostMaxPerWindow`).
- Enabling a connection asks for an attempted validation, not a successful one (`ConnectionSafety.EnableAfterFailedValidation`).
- A disabled connection is usable again as soon as its secret is rotated or a validation is answered, without anybody
  enabling it (`ConnectionDisabling.RotationReopensDisabled`, `ConnectionDisabling.DisabledUntilReopened`).
- An identity entry with the same name as a field is never validated (`Validation.PassingCoversEverySourceIffNamesDisjoint`).
- Renaming a foreign-key constraint is drift without a fingerprint change, and a primary-key change is the reverse
  (`Drift.ConstraintRenameIsDriftWithoutFingerprintChange`, `Drift.PrimaryKeyChangeIsNoDrift`).
- A new draft takes the old active version out of production (`MappingServing.DraftingStopsServing`).
- Drift suspension compares table names only, not connections (`DriftSuspension.OwnConnectionOnlyExactlyWhen`,
  `DriftSuspension.ProductionIsExposedElsewhere`).
- A timestamped feature whose timestamp field is not mapped has no cutoff
  (`PointInTime.FutureIsIgnoredExactlyWhenTimestampIsMapped`).
- A start delay for which nothing is found is extracted as zero, whatever its missing value
  (`FeaturePlanning.DryRunAgreesWithExtraction`, `FeaturePlanning.StartDelayIsExtractedAsZero`,
  `FeaturePlanning.VehicleDelayIsExtractedAsZero`).
- Temporal pairs may contain records without a timestamp of their own
  (`TemporalPairs.CandidatesHaveTimestampsExactlyWhen`, `TemporalPairs.UndatedDeliveriesArePaired`).
- The label of a temporal pair does not tell two instants of one clamped day apart
  (`TemporalPairs.LabelAgreesExactlyWhen`).
- A masked cell can reappear, unmasked, at a corrupted link of its own row
  (`MaskedValues.MaskedCellsStayHiddenExactlyWhen`).
- The checksum gate verifies one download of an artifact and the model is loaded from another
  (`ModelLoading.VerifiedContentIsCachedExactlyWhen`, `ModelLoading.SwappedArtifactIsServed`).

## Model

| member | source | states |
|---|---|---|
| ThresholdSelection.SelectThreshold | src/hermes_rpt/models/metrics.py:54-73 | the `max_f1` threshold scores at least as high as every real threshold, is one of the predicted probabilities, and is the smallest of those attaining the maximum; the fixed value is returned for `fixed` and for no data, and any other strategy is an error |
| ThresholdSelection.SomeCandidateIsAsGood | src/hermes_rpt/models/metrics.py:66-72 | for every real threshold some predicted probability scores at least as well, so scanning the probabilities is enough |
| ThresholdSelection.F1IsHarmonicMean | src/hermes_rpt/models/metrics.py:69-70 | the counted score is the harmonic mean of precision and recall |
| RateLimit.InMemoryFixedWindowRateLimiter.Check | src/hermes_rpt/auth/rate_limit.py:37-45 | the new window entry of the key, refused calls counted too; accepted exactly while the count has not passed the maximum |
| RateLimit.AtMostMaxPerWindow | src/hermes_rpt/auth/rate_limit.py:31-45 | in every run each window of each key accepts at most `max_requests` calls: if and only if the window length is positive or nothing is ever accepted |
| RateLimit.CounterAccountsForAccepted | src/hermes_rpt/auth/rate_limit.py:37-45 | from any entries, the counter of the current window, capped at the maximum, is exactly the number of calls accepted in it, and windows only move forward |
| RateLimit.CounterIsExactExactlyWhen | src/hermes_rpt/auth/rate_limit.py:37-45 | in every timed run from the fresh limiter the counter is that exact: if and only if the window length is positive or nothing is ever accepted |
| RateLimit.RefusedExactlyWhenWindowIsFull | src/hermes_rpt/auth/rate_limit.py:41-45 | a call is refused exactly when its own key has already been accepted `max_requests` times in its window: true of every run if and only if the window length is positive or nothing is ever accepted |
| RateLimit.AtMostTwiceMaxPerInterval | src/hermes_rpt/auth/rate_limit.py:31-45 | at most twice `max_requests` calls are accepted in any closed interval of one window length: true of every run if and only if the window length is not zero or nothing is ever accepted |
| RateLimit.ZeroWindowAdmitsEverything | src/hermes_rpt/auth/rate_limit.py:39-40 | with a zero window length every call of a burst is accepted |
| RateLimit.KeysAreIndependent | src/hermes_rpt/auth/rate_limit.py:35-41 | what is accepted on a key is the same with all calls on other keys removed |
| RateLimit.WindowsLastTheirLength | src/hermes_rpt/auth/rate_limit.py:38-43 | after any run, a call at least a window length after its key's window opened opens a new one and is accepted, and an earlier call still counts in the old one |
| CircuitBreakers.CircuitBreaker.Call | src/hermes_rpt/inference/resilience.py:91-103 | fails fast without invoking the operation exactly when the observed state is OPEN; otherwise the new state is that of one success or failure |
| CircuitBreakers.RunsStayConsistent | src/hermes_rpt/inference/resilience.py:75-114 | over every serialised run a closed breaker has no opening time and a failure count below the threshold; otherwise its opening time is not in the future and the count has reached the threshold |
| CircuitBreakers.HalfOpenTrial | src/hermes_rpt/inference/resilience.py:82-114 | from every reachable breaker a failed half-open trial re-opens the circuit at once and a successful one closes it |
| CircuitBreakers.InvocationsWithinBudget | src/hermes_rpt/inference/resilience.py:91-114 | the inductive bound: failures left until opening plus one trial per elapsed reset timeout |
| CircuitBreakers.FailingDependencyIsContactedRarely | src/hermes_rpt/inference/resilience.py:70-114 | from any reachable breaker, in a stretch of length L in which no attempt that reaches the dependency succeeds, it is invoked at most failure_threshold + floor(L / reset_timeout) times |
| CircuitBreakers.OpenCircuitIsSilent | src/hermes_rpt/inference/resilience.py:82-94 | until the reset timeout has passed an OPEN circuit invokes nothing and stays as it is |
| CircuitBreakers.RunsCompose | src/hermes_rpt/inference/resilience.py:91-103 | states and invocations of a concatenated run are those of its parts in sequence |
| CircuitBreakers.RunsFollowTheirResults | src/hermes_rpt/inference/resilience.py:75-114 | over every run an attempt is refused exactly when at least the threshold number of attempts that reached the dependency have failed in a row and the last of them ended less than a reset timeout ago; the circuit is open exactly while the streak is that long, and a closed circuit's count is the streak |
| CircuitBreakers.TraceIsUnique | src/hermes_rpt/inference/resilience.py:91-103 | these rules, said of attempts and results alone, admit one sequence of results |
| CircuitBreakers.OpenCircuitIsTriedAgain | src/hermes_rpt/inference/resilience.py:82-89 | an open circuit asked at least a reset timeout after it opened reaches the dependency |
| ModelLoading.ModelLoader.LoadModel | src/hermes_rpt/inference/model_loading.py:199-220 | cached versions are served without contact; otherwise the outcome, attempts, pauses, breaker state and cache of one retried load |
| ModelLoading.ModelLoader.RetryWithBackoff | src/hermes_rpt/inference/resilience.py:35-57 | the loop computes exactly the recursive definition of trying through the breaker with growing pauses |
| ModelLoading.ModelLoader.TryOnce | src/hermes_rpt/inference/model_loading.py:207-218 | one try through the breaker: the attempt it sees, its new state, and the fetched model or the error |
| ModelLoading.TriesAreConsecutive | src/hermes_rpt/inference/resilience.py:47-49 | at most `max_attempts` consecutive tries |
| ModelLoading.RetryDrivesBreaker | src/hermes_rpt/inference/model_loading.py:215-220 | the breaker has seen exactly the attempts of the load |
| ModelLoading.RetryMeaning | src/hermes_rpt/inference/resilience.py:45-57 | a load ends with its first success, or after all attempts with the last error |
| ModelLoading.LoadedMeansFetched | src/hermes_rpt/inference/model_loading.py:137-157 | a model is only returned if some contact passed the checksum gate and the family check |
| ModelLoading.LoadedPassedTheGates | src/hermes_rpt/inference/model_loading.py:137-220 | a returned model is of the requested version, of the family its name says, and holds what some contact loaded that answered in time, passed the checksum gate, had the checkpoint its family needs and could be read |
| ModelLoading.ErrorsNameTheGate | src/hermes_rpt/inference/model_loading.py:137-190 | which error each failed gate gives |
| ModelLoading.BackoffIsGeometric | src/hermes_rpt/inference/resilience.py:45-55 | the total sleep is the sum of one pause fewer than there were attempts, the first the initial delay and each the multiplier times the one before |
| ModelLoading.SumOfPausesInClosedForm | src/hermes_rpt/inference/resilience.py:45-55 | that sum in closed form: sum * (m - 1) = delay * (m^n - 1) |
| ModelLoading.ConstantPausesAddUp | src/hermes_rpt/inference/resilience.py:45-55 | with multiplier 1 it is the number of pauses times the delay |
| ModelLoading.LoadReturnsFirstFetch | src/hermes_rpt/inference/model_loading.py:207-220 | a load succeeds exactly when some try goes through the breaker and passes the gates, and then returns what the first such contact downloads the second time |
| ModelLoading.VerifiedContentIsCachedExactlyWhen | src/hermes_rpt/inference/model_loading.py:137-220 | over any run of loads, every cached model has the registered checksum if and only if, each time a version had to be loaded, its first fetch loaded registered bytes |
| ModelLoading.SwappedArtifactIsServed | src/hermes_rpt/inference/model_loading.py:159-190 | contrary to the comment there, bytes other than the checked ones are served: the failing run, for any two artifacts of which one has the registered checksum |
| ModelLoading.OnlyVerifiedContentIsCached | src/hermes_rpt/inference/model_loading.py:137-157 | a corollary: stores that do not change between the two downloads of one contact keep the whole cache verified |
| ModelLoading.CachedModelsArePermanent | src/hermes_rpt/inference/model_loading.py:199-206 | a cached version is served unchanged for ever |
| ModelLoading.LoadsContactFailingStoreRarely | src/hermes_rpt/inference/model_loading.py:199-220 | the breaker bound carries over to any number of loads with any retry setting |
| Suggestion.ScoreColumn | src/hermes_rpt/mappings/suggest.py:85-122 | the score is exactly the weighted sum of its signals capped at 1, lies between -0.1 and 1, and needs name similarity to pass the bar without a compatible type |
| Suggestion.SignalsAreWorth | src/hermes_rpt/mappings/suggest.py:85-122 | half the name similarity, 0.3 for a compatible type, 0.1 for an identifier on a primary key |
| Suggestion.FurtherSignalsAreWorth | src/hermes_rpt/mappings/suggest.py:85-122 | 0.1 for a comment, 0.05 for uniqueness, less 0.1 for a mostly null required column |
| Suggestion.ClaimStrongestFirst | src/hermes_rpt/mappings/suggest.py:158-171 | the loop with its early break claims exactly the greedy claims and files them under identity or fields |
| Suggestion.SuggestMapping | src/hermes_rpt/mappings/suggest.py:135-199 | the whole suggestion, an error exactly when no identifier field was claimed |
| Suggestion.ClaimsAreAMatching | src/hermes_rpt/mappings/suggest.py:160-171 | no field and no column is used twice and every claim passes the bar |
| Suggestion.LeftoversAreBlocked | src/hermes_rpt/mappings/suggest.py:160-171 | every unclaimed eligible pair conflicts with a claim at least as strong |
| Suggestion.ClaimsAreHalfOptimal | src/hermes_rpt/mappings/suggest.py:158-171 | whatever the scores and the order of ties, no other matching of eligible pairs scores more than twice as much |
| Suggestion.SuggestionIsHalfOptimal | src/hermes_rpt/mappings/suggest.py:141-174 | matching, maximality and half-optimality together for the suggestion from any scores |
| Suggestion.MappingsHoldTheClaims | src/hermes_rpt/mappings/suggest.py:168-170 | the two dictionaries lose no claim and share no key |
| Suggestion.PairsAreFieldMajor | src/hermes_rpt/mappings/suggest.py:153-157 | the pairs come field by field in ontology order, and for each field column by column in table order |
| Suggestion.TiesKeepTheirOrder | src/hermes_rpt/mappings/suggest.py:158 | ranking keeps every pair, and pairs of equal score in their order, so ties are claimed in that order |
| Suggestion.ConfidenceIsTheAverage | src/hermes_rpt/mappings/suggest.py:151-199 | the confidence is the average score of the claims, between the bar and the highest of them |
| PoolRegistry.TenantConnectionPoolRegistry.GetOrCreate | src/hermes_rpt/connectors/pool_registry.py:31-40 | the pooled engine of the key if there is one, else a newly built one that is then pooled |
| PoolRegistry.TenantConnectionPoolRegistry.Evict | src/hermes_rpt/connectors/pool_registry.py:45-54 | removes the key and disposes what it held |
| PoolRegistry.TenantConnectionPoolRegistry.EvictAllForTenant | src/hermes_rpt/connectors/pool_registry.py:56-60 | evicts every key of the tenant and no other |
| PoolRegistry.StepKeepsInvariant | src/hermes_rpt/connectors/pool_registry.py:31-60 | each lock-protected section or disposal keeps every built engine in exactly one of: pooled, popped and awaiting disposal, disposed |
| PoolRegistry.EveryReachableStateIsSafe | src/hermes_rpt/connectors/pool_registry.py:31-60 | the same in every interleaving of any number of tasks; each engine is disposed at most once and each key holds at most one |
| PoolRegistry.NothingLeaksWhenQuiet | src/hermes_rpt/connectors/pool_registry.py:45-54 | when no task holds an engine, every engine built is pooled or disposed |
| PoolRegistry.StepNeverRepools | src/hermes_rpt/connectors/pool_registry.py:31-54 | an engine that left the pool never returns |
| PoolRegistry.ListedEnginesArePending | src/hermes_rpt/connectors/pool_registry.py:56-60 | from listing on, each listed engine is still to be evicted or already out |
| PoolRegistry.EvictAllClearsWhatItListed | src/hermes_rpt/connectors/pool_registry.py:56-60 | when an evict-all finishes, every engine pooled at the listing is out of the pool, whatever ran in between |
| PoolRegistry.EvictClearsItsKey | src/hermes_rpt/connectors/pool_registry.py:45-54 | when an eviction finishes, every engine pooled under its key since it was asked for is out of the pool, disposed or about to be, whatever ran in between |
| Repository.TenantScopedRepository.GetRow | src/hermes_rpt/common/repository.py:64-74 | a row of another tenant is indistinguishable from a missing one |
| Repository.TenantScopedRepository.Require | src/hermes_rpt/common/repository.py:76-82 | the row, or the mismatch error |
| Repository.TenantScopedRepository.ListForTenant | src/hermes_rpt/common/repository.py:84-89 | exactly the rows of the tenant |
| Repository.TenantScopedRepository.Add | src/hermes_rpt/common/repository.py:91-100 | stamps an unowned entity and refuses one stamped for another tenant, leaving the table as it was |
| Repository.TenantScopedRepository.Delete | src/hermes_rpt/common/repository.py:102-108 | deletes an own row, refuses a foreign one |
| Repository.SliceAnswersForTenant | src/hermes_rpt/common/repository.py:64-89 | a tenant reads from its own slice what it reads from the shared table |
| Repository.SliceOfWrite | src/hermes_rpt/common/repository.py:91-108 | a write shows in the writer's slice and in no other |
| Secrets.LocalDevSecretProvider.Store | src/hermes_rpt/secrets/provider.py:59-63 | adds the secret under a new reference key |
| Secrets.LocalDevSecretProvider.Resolve | src/hermes_rpt/secrets/provider.py:65-70 | the stored value, or the not-found error |
| Secrets.LocalDevSecretProvider.Delete | src/hermes_rpt/secrets/provider.py:72-74 | removes the key; unknown keys are ignored |
| ConnectionManager.ConnectionLifecycleManager.RegisterConnection | src/hermes_rpt/connectors/service.py:64-110 | new secret, credential row and pending connection |
| ConnectionManager.ConnectionLifecycleManager.ResolveConnectionTarget | src/hermes_rpt/connectors/service.py:112-132 | the target a fresh build would use, or which part is missing |
| ConnectionManager.ConnectionLifecycleManager.GetEngine | src/hermes_rpt/connectors/service.py:134-154 | refuses disabled connections; otherwise the pooled or newly built engine |
| ConnectionManager.ConnectionLifecycleManager.ValidateConnection | src/hermes_rpt/connectors/service.py:156-187 | records the outcome of the health check |
| ConnectionManager.ConnectionLifecycleManager.EnableConnection | src/hermes_rpt/connectors/service.py:189-210 | refused until a validation has been attempted |
| ConnectionManager.ConnectionLifecycleManager.DisableConnection | src/hermes_rpt/connectors/service.py:212-229 | disables and evicts |
| ConnectionManager.ConnectionLifecycleManager.RotateSecret | src/hermes_rpt/connectors/service.py:231-268 | new credential and secret, old ones retired, pool evicted, status back to pending validation even if it was disabled |
| ConnectionManager.ConnectionLifecycleManager.DeleteConnection | src/hermes_rpt/connectors/service.py:270-294 | deletes the connection, its credential and its secret, and evicts its pool |
| ConnectionSafety.ApplyKeeps | src/hermes_rpt/connectors/service.py:64-294 | every operation keeps the pool coherent with credentials and secrets |
| ConnectionSafety.ReachableWorldsAreCoherent | src/hermes_rpt/connectors/service.py:64-294 | every state reachable by any tenants' calls is coherent |
| ConnectionSafety.EnginesAreNeverStale | src/hermes_rpt/connectors/service.py:112-154 | in every reachable state the engine handed out is built from what a fresh build would use now |
| ConnectionSafety.NoPoolWithoutALiveConnection | src/hermes_rpt/connectors/service.py:212-294 | disabled, deleted and foreign connections have no pooled engine |
| ConnectionSafety.SecretsAreConserved | src/hermes_rpt/connectors/service.py:79-99 | stored secrets, active credentials and live connections correspond one to one within one tenant each; rotated-out credentials do not resolve |
| ConnectionSafety.RetiredKeysStayRetired | src/hermes_rpt/secrets/provider.py:59-74 | a key that does not resolve stays so unless it is issued again |
| ConnectionSafety.OldSecretNeverResolvesAgain | src/hermes_rpt/connectors/service.py:231-284 | after a rotation or deletion the previous secret never resolves again in any later run |
| ConnectionSafety.EnableNeedsAnAttemptedValidation | src/hermes_rpt/connectors/service.py:189-200 | enabling succeeds if and only if a validation has been attempted since registration, with whatever outcome |
| ConnectionSafety.EnableAfterFailedValidation | src/hermes_rpt/connectors/service.py:189-200 | a connection whose only validation failed can be enabled |
| ConnectionDisabling.UsableAfterCall | src/hermes_rpt/connectors/service.py:33-268 | what each call does to whether a connection can be used: registering, enabling, an answered validation and a rotation reopen it, disabling and deleting close it, and nothing else matters |
| ConnectionDisabling.DisabledUntilReopened | src/hermes_rpt/connectors/service.py:37-44 | from every reachable state in which a connection is disabled, a run makes an engine available again if and only if it holds an enabling, an answered validation or a rotation of it with no later disabling or deletion |
| ConnectionDisabling.RotationReopensDisabled | src/hermes_rpt/connectors/service.py:231-268 | in every reachable state, rotating the secret of a disabled connection makes it usable without an enabling |
| ConnectionDisabling.DisablingIsReachable | src/hermes_rpt/connectors/service.py:134-229 | registering, validating and disabling reaches such a state |
| ConnectionBook.RunsKeepTheBook | src/hermes_rpt/connectors/service.py:64-294 | over every run the connections are those of a book kept from the calls alone: address, status, validation and the secret an engine built now would use |
| ConnectionBook.EnginesUseTheBook | src/hermes_rpt/connectors/service.py:112-154 | an engine is handed out exactly for the caller's own, not disabled connections in the book, built with the address and secret there |
| ConnectionBook.AnswersShowTheBook | src/hermes_rpt/connectors/service.py:64-294 | every other call answers with the new entry in the book, or with the refusal the book calls for |
| ConnectionBook.EnginesUseTheLastSecret | src/hermes_rpt/connectors/service.py:231-268 | the password of an engine is the secret of the last call that registered its connection or rotated it |
| Expressions.EvaluationFailsOnlyOnMissingColumns | src/hermes_rpt/mappings/expressions.py:129-170 | an evaluation error always names a referenced column that the row lacks, so a row with all referenced columns never fails |
| Expressions.EvaluationDependsOnReferencedColumns | src/hermes_rpt/mappings/expressions.py:173-189 | rows that agree on the referenced columns give the same value |
| Expressions.CoalesceTakesFirstNonNull | src/hermes_rpt/mappings/expressions.py:147-152 | coalesce is the first non-null option |
| Expressions.IfNullIsBinaryCoalesce | src/hermes_rpt/mappings/expressions.py:166-168 | if-null is coalesce of two options |
| Expressions.TextFunctionsApply | src/hermes_rpt/mappings/expressions.py:154-164 | upper case, lower case and trimming each apply their own function to texts and leave other values alone |
| Expressions.ConcatAppends | src/hermes_rpt/mappings/expressions.py:143-145 | a concatenation puts the separator between neighbours, once, and writes nothing for a null |
| Expressions.DepthCheckMeasuresHeight | src/hermes_rpt/mappings/expressions.py:107-126 | the recursive check from any depth accepts exactly what leaves room below the limit |
| Expressions.DepthCheckIsExact | src/hermes_rpt/mappings/expressions.py:104-126 | it accepts exactly the trees of height at most 20 |
| Validation.ValidateMappingDocument | src/hermes_rpt/mappings/validation.py:29-79 | the collected errors are exactly the errors there are, for every clause; empty if and only if the document passes |
| Validation.ValidateSources | src/hermes_rpt/mappings/validation.py:55-58 | all sources of a field contribute |
| Validation.ValidateSourceColumns | src/hermes_rpt/mappings/validation.py:82-105 | missing columns, missing referenced columns, and depth |
| Validation.ValidateSourceUnit | src/hermes_rpt/mappings/validation.py:108-121 | unit errors |
| Validation.ValidateValueMap | src/hermes_rpt/mappings/validation.py:124-138 | value-map errors |
| Validation.ValidateRequired | src/hermes_rpt/mappings/validation.py:60-64 | required fields that are not covered |
| Validation.ValidateJoins | src/hermes_rpt/mappings/validation.py:66-76 | undeclared joins and allowlist violations |
| Validation.PassingMeansSafe | src/hermes_rpt/mappings/validation.py:29-105 | passing with known columns: every source in effect has existing columns and bounded height |
| Validation.PassesExactlyWhen | src/hermes_rpt/mappings/validation.py:29-138 | validation passes if and only if the document is for the entity, every mapped field is one of its fields with existing columns, convertible units, value maps into the enumeration and shallow expressions, every required field is mapped, and every join is declared and allowed |
| Validation.ErrorsNameTheirCause | src/hermes_rpt/mappings/validation.py:82-138 | an error names a missing column, a unit or the value-map targets exactly when a source of that field has that fault |
| Validation.SafeExpressionsEvaluate | src/hermes_rpt/mappings/expressions.py:129-170 | such expressions evaluate on every row carrying those columns |
| Validation.PassingBoundsDepth | src/hermes_rpt/mappings/validation.py:85-92 | passing bounds the height at 20 even without known columns |
| Validation.PassingCoversEverySourceIffNamesDisjoint | src/hermes_rpt/mappings/validation.py:47-58 | passing covers every source of the document if and only if no name is used both as identity and as field |
| Validation.ShadowedIdentityPasses | src/hermes_rpt/mappings/validation.py:47-58 | the witness: an identity entry hidden by a field of the same name is never looked at |
| Sorting.SortForgetsOnlyOrder | src/hermes_rpt/schemas/fingerprint.py:38-58 | sorted lists are equal exactly when the lists agree up to order |
| Fingerprints.TableFingerprintIsExact | src/hermes_rpt/schemas/fingerprint.py:22-58 | with a collision-free hash, table fingerprints are equal exactly when name, kind, columns, key, relationship shapes and unique constraints agree up to order |
| Fingerprints.SchemaFingerprintIsExact | src/hermes_rpt/schemas/fingerprint.py:61-68 | with a collision-free hash, schema fingerprints are equal if and only if the schemas agree up to order, the table names are the same and every table has the same shape |
| Fingerprints.SchemaFingerprintIgnoresOrder | src/hermes_rpt/schemas/fingerprint.py:61-68 | the order in which schemas and uniquely named tables are found never matters, whatever the hash |
| Drift.LikelyRenameTarget | src/hermes_rpt/schemas/drift.py:55-70 | a best match among the resembling added tables, none exactly when none resembles |
| Drift.ResemblesExactlyWhen | src/hermes_rpt/schemas/drift.py:55-70 | tables resemble each other exactly when both have columns and seven tenths of the larger set of column fingerprints are common |
| Drift.CompareTable | src/hermes_rpt/schemas/drift.py:116-169 | exactly the column and relationship events of a surviving table, each once |
| Drift.FindRenames | src/hermes_rpt/schemas/drift.py:85-100 | every removed table some added table resembles is paired with one that resembles it best |
| Drift.CompareSnapshots | src/hermes_rpt/schemas/drift.py:73-171 | the reported events are exactly the events there are, each once |
| Drift.TableEventsExactlyOnChange | src/hermes_rpt/schemas/drift.py:116-169 | a surviving table has events exactly when its columns or relationship signature changed |
| Drift.RelationshipChangesExactlyWhen | src/hermes_rpt/schemas/drift.py:48-52 | a relationship change is reported exactly when one version has a foreign key the other lacks, by name, columns or referenced table |
| Drift.MentionedExactlyWhenChanged | src/hermes_rpt/schemas/drift.py:78-169 | an old table is mentioned exactly when it was removed, renamed or changed |
| Drift.NoEventsExactlyWhenSame | src/hermes_rpt/schemas/drift.py:73-171 | no events exactly when names, column triples and relationship signatures all agree |
| Drift.AddedTablesAreAccountedFor | src/hermes_rpt/schemas/drift.py:108-114 | an added table is reported as added exactly when it is nobody's rename target |
| Drift.RemovedTablesAreReportedOnce | src/hermes_rpt/schemas/drift.py:87-107 | each removed table gets exactly one removed-or-renamed event |
| Drift.RenamesPointToBestMatches | src/hermes_rpt/schemas/drift.py:55-100 | renamed exactly when something resembles it, and then to a best-scoring target |
| Drift.ColumnEventsReplay | src/hermes_rpt/schemas/drift.py:121-136 | old column names minus removed plus added gives the new ones |
| Drift.ColumnChangesReplay | src/hermes_rpt/schemas/drift.py:137-160 | a column that stays, with the recorded type and nullability changes replayed on it, is the new column |
| Drift.EqualFingerprintsLeaveOnlyRelationshipChanges | src/hermes_rpt/schemas/drift.py:162-169 | with a collision-free hash and unique column names, equal schema fingerprints leave only relationship changes to report |
| Drift.ConstraintRenameIsDriftWithoutFingerprintChange | src/hermes_rpt/schemas/drift.py:48-52 | renaming a foreign-key constraint is drift that no fingerprint shows |
| Drift.PrimaryKeyChangeIsNoDrift | src/hermes_rpt/schemas/fingerprint.py:38-58 | changing the primary key changes the fingerprint without any drift event |
| Discovery.SchemaDiscoveryService.StartDiscovery | src/hermes_rpt/schemas/service.py:53-76 | a pending snapshot numbered after all earlier ones of its connection |
| Discovery.SchemaDiscoveryService.NextSequenceNumber | src/hermes_rpt/schemas/repository.py:16-27 | one more than the highest number of the connection |
| Discovery.SchemaDiscoveryService.LatestCompleted | src/hermes_rpt/schemas/repository.py:45-62 | the completed snapshot of the connection with the highest number below the given one |
| Discovery.SchemaDiscoveryService.RunDiscovery | src/hermes_rpt/schemas/service.py:78-167 | on success metadata, both fingerprints and a complete drift report against the previous completed snapshot, none if there is no previous one; on failure only the status changes |
| DiscoveryHistory.RunsFollowTheirCalls | src/hermes_rpt/schemas/service.py:53-167 | over every run, told from the calls alone: the n-th discovery started for a connection carries the number n and is completed, with what was found, exactly when its last run succeeded |
| DiscoveryHistory.DriftIsSinceTheLastDiscovery | src/hermes_rpt/schemas/service.py:97-107 | after every run a successful discovery reports the drift since the last discovery of its own connection that was started before it and has succeeded, and none exactly when there is no such discovery |
| MappingServices.MappingService.CreateDraft | src/hermes_rpt/mappings/service.py:51-93 | a draft mapping with version 1 |
| MappingServices.MappingService.CreateNewVersion | src/hermes_rpt/mappings/service.py:95-142 | a further version numbered one above the highest; the mapping is a draft again |
| MappingServices.MappingService.SubmitForValidation | src/hermes_rpt/mappings/service.py:144-184 | only from DRAFT; the newest version is validated against its snapshot and ontology entity, and refusals come in the order of the code's checks |
| MappingServices.MappingService.Approve | src/hermes_rpt/mappings/service.py:186-205 | only from PENDING_VALIDATION; records the approver on the newest version |
| MappingServices.MappingService.Activate | src/hermes_rpt/mappings/service.py:207-228 | only from APPROVED; the newest version becomes active and a suspension is lifted |
| MappingServices.MappingService.Deprecate | src/hermes_rpt/mappings/service.py:230-246 | only from ACTIVE |
| MappingServices.MappingService.Reject | src/hermes_rpt/mappings/service.py:248-264 | only from DRAFT or PENDING_VALIDATION |
| MappingServices.MappingService.GetProductionVersion | src/hermes_rpt/mappings/service.py:266-285 | the active version of an ACTIVE, unsuspended mapping of the caller, else the refusal |
| MappingServices.MappingService.SuspendAffectedByDrift | src/hermes_rpt/mappings/service.py:287-326 | exactly the tenant's ACTIVE mappings whose source table has an event are suspended |
| MappingServices.MappingService.LatestVersionFor | src/hermes_rpt/mappings/service.py:328-336 | the version with the highest number |
| MappingServices.MappingService.Resolve | src/hermes_rpt/features/resolver.py:39-51 | the entity's one ACTIVE, unsuspended mapping; an error if there are several |
| MappingServices.MaxByNumber | src/hermes_rpt/mappings/service.py:336 | no version has a higher number than the one found |
| MappingSafety.NextVersion | src/hermes_rpt/mappings/service.py:112-131 | adding a version keeps the numbering 1..n and leaves the newest version unapproved and inactive |
| MappingSafety.ApprovedVersion | src/hermes_rpt/mappings/service.py:193-195 | approving keeps the invariant of the mapping |
| MappingSafety.MovedMapping | src/hermes_rpt/mappings/service.py:144-264 | so does every other transition |
| MappingSafety.ApplyKeepsSound | src/hermes_rpt/mappings/service.py:51-326 | every call of any tenant keeps the lifecycle invariant of every mapping |
| MappingHistory.ReachableStoresAreSound | src/hermes_rpt/mappings/service.py:51-326 | the invariant holds in every reachable state |
| MappingHistory.ApplyFollows | src/hermes_rpt/mappings/service.py:4-10 | one call never changes a document or number, never replaces an approval, moves active versions only to strictly newer ones and lifts suspensions only that way |
| MappingHistory.RunsOnlyMoveForward | src/hermes_rpt/mappings/service.py:4-10 | the same over whole runs |
| MappingHistory.ActivationIsNewer | src/hermes_rpt/mappings/service.py:214-217 | what is activated is strictly newer than what was active |
| MappingHistory.ApprovedAtMostOnce | src/hermes_rpt/mappings/service.py:186-195 | no run approves a version twice, or again once it is approved |
| MappingHistory.ActivatedAtMostOnce | src/hermes_rpt/mappings/service.py:207-217 | no run activates a version twice, or again once it or a newer one has been active |
| MappingServing.ReachableMappings | src/hermes_rpt/mappings/service.py:95-228 | in every reachable state versions are numbered exactly 1..n and an ACTIVE mapping's active version is the newest, approved and validated |
| MappingServing.ProductionQueryIsExact | src/hermes_rpt/mappings/service.py:266-285 | the production query serves exactly the caller's ACTIVE, unsuspended mappings, and what it serves is ready for production |
| MappingServing.ResolverIsExact | src/hermes_rpt/features/resolver.py:39-51 | the resolver serves exactly when one mapping of the entity is ACTIVE and unsuspended, and fails exactly when there are several |
| MappingServing.OnlyProductionReadyIsServed | src/hermes_rpt/mappings/service.py:8-10 | whatever either query serves is the newest, approved, validated version of an ACTIVE mapping of the caller |
| MappingServing.SuspendedServesNothingUntilNewer | src/hermes_rpt/mappings/service.py:219 | over any run, a suspended mapping is served by neither query until a strictly higher version is active |
| MappingServing.DraftingStopsServing | src/hermes_rpt/mappings/service.py:105-108 | contrary to the comment there, drafting a new version stops production use at once: the old active version stays on record but is served by neither query until the mapping is activated again |
| MappingReturn.ActivationServesNewest | src/hermes_rpt/mappings/service.py:207-228 | an activation that is not refused makes the production query serve the version with the highest number, suspended or not before |
| MappingReturn.ActivationResolves | src/hermes_rpt/features/resolver.py:39-51 | so does the resolver, unless another mapping of the entity is ACTIVE |
| MappingReturn.ServedAfterCall | src/hermes_rpt/mappings/service.py:95-326 | after a call a mapping is served exactly if the call activated it, or it was served and the call neither drafted, deprecated nor suspended it |
| MappingReturn.ServedAgainExactlyWhen | src/hermes_rpt/mappings/service.py:207-326 | over any run, a mapping that is not served is served again if and only if an activation of it succeeds with no later suspension, draft or deprecation |
| MappingBook.RunsKeepTheBook | src/hermes_rpt/mappings/service.py:51-326 | over every run the mappings are those of a book kept from the calls alone: state, suspension, and all drafts with document, author and approver in order |
| MappingBook.ProductionServesTheBook | src/hermes_rpt/mappings/service.py:266-285 | the production query serves the last draft as it was drafted, with its author and approver, exactly for ACTIVE, not suspended mappings in the book |
| MappingBook.TransitionsFollowTheBook | src/hermes_rpt/mappings/service.py:95-264 | each transition succeeds exactly from the states that allow it, and a further version gets the next number |
| MappingServing.ServedDocumentsEvaluate | src/hermes_rpt/mappings/service.py:155-172 | every derived source in effect in a served document evaluates on every row of its source table |
| MappingIsolation.ApplyIsIsolated | src/hermes_rpt/common/repository.py:58-62 | one call acts on its tenant's slice as if on that slice alone, and on no other slice |
| MappingIsolation.TenantsDoNotInterfere | src/hermes_rpt/common/repository.py:64-108 | for any interleaving of many tenants' calls, a tenant's final slice and all its answers are those of its own calls alone |
| DriftSuspension.SuspendedExactlyWhenMentioned | src/hermes_rpt/mappings/service.py:295-313 | an ACTIVE mapping is suspended exactly when an event names its source table |
| DriftSuspension.SuspensionIsExact | src/hermes_rpt/mappings/service.py:287-326 | an ACTIVE mapping on a table of the previous snapshot is suspended exactly when that table was removed, likely renamed or changed, and is otherwise left untouched |
| DriftSuspension.AddedTablesSuspendToo | src/hermes_rpt/mappings/service.py:301-311 | an ACTIVE mapping on a table the previous snapshot lacked is suspended exactly when the snapshot reports that name as added |
| DriftSuspension.OwnConnectionOnlyExactlyWhen | src/hermes_rpt/mappings/service.py:287-313 | contrary to the docstring, a snapshot suspends mappings of its own connection alone if and only if no ACTIVE mapping of the tenant on another connection reads from a table of a mentioned name |
| DriftSuspension.DriftElsewhereSuspends | src/hermes_rpt/mappings/service.py:301-311 | every ACTIVE mapping and every other connection: losing a table of that name there is drift that suspends the mapping |
| DriftSuspension.IntoProductionActivates | src/hermes_rpt/mappings/service.py:51-228 | every document that validates against a recorded snapshot is brought to ACTIVE, on the snapshot's connection, by drafting, submitting, approving and activating it |
| DriftSuspension.SecondDiscoveryRecordsTheLoss | src/hermes_rpt/schemas/service.py:78-167 | the snapshot of the lost table, with its fingerprints and drift report, is what the second discovery of that connection records |
| DriftSuspension.ProductionIsExposedElsewhere | src/hermes_rpt/mappings/service.py:301-311 | the failing run for every such document: activated on one connection, suspended by a table lost on another |
| DriftSuspension.DriversAreExposedElsewhere | src/hermes_rpt/mappings/service.py:301-311 | the same for one concrete document and two connections |
| DriftSuspension.DriftedMappingsServeNothingUntilNewer | src/hermes_rpt/mappings/service.py:266-326 | from drift to serving: after the suspension no run serves the mapping until a strictly newer version is active |
| FeatureQueries.CompileAndRunRelatedFeature | src/hermes_rpt/features/compiler.py:268-375 | the condition-by-condition compiled query gives the selection and aggregate of the feature's kind, with every error case |
| FeatureMeaning.CountMeans | src/hermes_rpt/features/compiler.py:309-320 | a count is the number of rows with the join value inside the window, of those with the filter value if there is a filter |
| FeatureMeaning.RatioMeans | src/hermes_rpt/features/compiler.py:321-336 | a ratio times the rows in the window is the number of those with the filter value; 1 when all have it, 0 when none, null without any |
| FeatureMeaning.RecencyMeans | src/hermes_rpt/features/compiler.py:337-360 | the recency times a day is the prediction time minus the latest instant in the window |
| FeatureMeaning.LatestValueMeans | src/hermes_rpt/features/compiler.py:361-373 | with a timestamp the latest value is that of a latest row in the window |
| FeatureMeaning.FirstValueMeans | src/hermes_rpt/features/compiler.py:361-373 | without one it is that of the first row that joins |
| FeatureQueries.FetchTargetRow | src/hermes_rpt/features/compiler.py:117-152 | the first row with the reference, with its identity and every needed mapped field; unplain mappings and disallowed tables are errors |
| FeatureMeaning.FetchedRowMeans | src/hermes_rpt/features/compiler.py:117-152 | the fetched row has exactly the identity and the needed mapped fields, each with the cell of its column in the first row that carries the reference |
| FeatureQueries.CollectColumns | src/hermes_rpt/features/compiler.py:132-138 | exactly the mapped needed fields get a column |
| FeatureExtraction.HourOfDay | src/hermes_rpt/features/derive.py:33-34 | an hour between 0 and 23 |
| FeatureExtraction.DayOfWeek | src/hermes_rpt/features/derive.py:37-38 | a day between 0 and 6 |
| FeatureMeaning.HourOfDayMeans | src/hermes_rpt/features/derive.py:33-34 | the hour of every instant of the n-th hour of any day is n |
| FeatureMeaning.DayOfWeekMeans | src/hermes_rpt/features/derive.py:37-38 | the first of January 1970 is a Thursday, a weekday lasts the day, and the next day has the next one |
| FeatureMeaning.AgeMeans | src/hermes_rpt/features/derive.py:41-46 | an age counts whole days, 365.25 to the year |
| FeatureMeaning.StartDelayMeans | src/hermes_rpt/features/derive.py:49-58 | a past departure's delay is actual minus planned in minutes, and zero until it lies in the past |
| FeatureMeaning.DerivesMean | src/hermes_rpt/features/derive.py:61-84 | which derive name gives which, and null for no instant |
| FeatureMeaning.IntegerFeaturesTruncate | src/hermes_rpt/features/normalizer.py:14-28 | integer features keep the whole part of a number, towards zero |
| FeatureExtraction.Extract | src/hermes_rpt/features/service.py:92-252 | the batch of the whole contract, or the first error |
| FeatureExtraction.ExtractFeatures | src/hermes_rpt/features/service.py:145-220 | the loop over the contract fills features, missing reasons and used versions |
| FeatureExtraction.ExtractTargetFeature | src/hermes_rpt/features/service.py:146-164 | a direct or derived feature of the target row |
| FeatureExtraction.ExtractRelatedFeature | src/hermes_rpt/features/service.py:166-220 | a related feature, with each way of being missing |
| FeatureMeaning.ExtractedCountMeans | src/hermes_rpt/features/service.py:166-220 | the batch holds that count |
| FeatureMeaning.ExtractedRatioMeans | src/hermes_rpt/features/service.py:166-220 | the batch holds that ratio, or the declared missing value without rows in the window |
| FeatureMeaning.ExtractedRecencyMeans | src/hermes_rpt/features/service.py:166-220 | the batch holds that recency, or the declared missing value without rows in the window |
| FeatureMeaning.ReportedExactlyWhen | src/hermes_rpt/features/service.py:145-220 | a feature is reported missing for want of a mapping, of a join value or of a required value, each exactly when that is so |
| ExtractionMeaning.FetchedFieldMeans | src/hermes_rpt/features/compiler.py:117-152 | a mapped field that some feature needs has the cell of its column in the first row that carries the reference |
| ExtractionMeaning.DirectFeatureMeans | src/hermes_rpt/features/service.py:146-164 | the batch holds that cell for a direct feature, as its data type can hold it |
| ExtractionMeaning.HourFeatureMeans | src/hermes_rpt/features/service.py:149-159 | the batch holds the hour of the instant in the target row |
| ExtractionMeaning.DelayFeatureMeans | src/hermes_rpt/features/service.py:149-159 | the batch holds the minutes between the planned and the actual instant of the target row once the latter is past, and zero before |
| ExtractionMeaning.AgeFeatureMeans | src/hermes_rpt/features/service.py:193-220 | the batch holds the age in whole days, 365.25 to the year, of the instant in the first related row that joins |
| ExtractionMeaning.ReportedIsAbsent | src/hermes_rpt/features/normalizer.py:15-20 | a feature reported missing holds null, zero or the default, as declared |
| ExtractionMeaning.UsedVersionsExactlyWhen | src/hermes_rpt/features/service.py:169-181 | the batch names a mapping version for exactly the related entities asked for that have a production mapping, and it is the version of that mapping |
| ExtractionMeaning.NotFoundExactlyWhen | src/hermes_rpt/features/service.py:132-136 | there is no row to extract from exactly when no row of the target table carries the reference |
| ExtractionMeaning.UnavailableExactlyWhen | src/hermes_rpt/features/resolver.py:53-59 | there is nothing to extract from exactly when the target entity has no production mapping |
| ExtractionMeaning.RelatedFailsExactlyWhen | src/hermes_rpt/features/compiler.py:283-368 | each refusal of a related query exactly: table off the allowlist, field without a plain column, window over 365 days, recency without a timestamp column; an unmapped join gives null |
| PointInTime.AggregateIgnoresOrder | src/hermes_rpt/features/compiler.py:309-373 | every aggregate over a cut-off selection depends only on which rows are selected |
| PointInTime.SameWindowSameSelection | src/hermes_rpt/features/compiler.py:291-307 | tables that agree inside the window agree on the selection |
| PointInTime.LatestRowIsLatest | src/hermes_rpt/features/compiler.py:361-373 | the latest value comes from a selected row with the maximal time |
| PointInTime.OnlyReadColumnsMatter | src/hermes_rpt/features/compiler.py:268-375 | a related feature depends on nothing but the join, timestamp, filter and value columns its query reads |
| PointInTime.RelatedValueAgrees | src/hermes_rpt/features/compiler.py:268-375 | one related feature is equal on databases that agree, column by read column, inside its window |
| PointInTime.TargetFeatureAgrees | src/hermes_rpt/features/derive.py:49-58 | so is a target feature, even if an actual departure that is unknown or not before the prediction differs |
| PointInTime.ExtractionIsPointInTimeSafe | src/hermes_rpt/features/service.py:92-252 | two customer databases that agree, in the columns each query reads, on un-timestamped related tables and on each timestamped feature's rows inside its window (in any order), and on the target row up to a departure that has not happened yet, give the same extraction, values, report and errors alike |
| PointInTime.LaterDeparturesChangeNothing | src/hermes_rpt/features/service.py:92-252 | departures not yet happened at the prediction time may differ in any rows of any table, the target's own included, without changing the extraction |
| PointInTime.ActualDepartureIsOnlyDeparture | src/hermes_rpt/features/contract.py:340-355 | in the delivery-delay contract the actual departure is used for the start delay only |
| PointInTime.DeliveryDelayContractIsValid | src/hermes_rpt/features/contract.py:160-373 | every feature of the contract satisfies its specification's validator |
| PointInTime.FutureIsIgnoredExactlyWhenTimestampIsMapped | src/hermes_rpt/features/compiler.py:294-307 | a count, ratio or latest value ignores rows from the future if and only if its timestamp field is mapped to a column |
| PointInTime.UnmappedTimestampLeaks | src/hermes_rpt/features/compiler.py:294-299 | the witness: without a mapped timestamp one row that carries an instant at or after the prediction time changes the value |
| FeaturePlanning.BuildQueryPlan | src/hermes_rpt/features/planner.py:35-99 | one entry per feature in contract order, or the first mapping error |
| FeatureMeaning.AvailableExactlyWhenMapped | src/hermes_rpt/features/planner.py:44-92 | a planned feature is available exactly when its field, or its join field on both sides, is mapped, and the reason is given otherwise |
| ExtractionMeaning.PlannedColumnIsRead | src/hermes_rpt/features/planner.py:46-57 | the planned table and column of an available target feature are those whose cell extraction then reads |
| ExtractionMeaning.PlannedJoinIsRead | src/hermes_rpt/features/planner.py:60-92 | an available related feature is planned with the related table and the two columns that are joined |
| FeaturePlanning.UnavailableTargetFeature | src/hermes_rpt/features/derive.py:49-58 | an unavailable target feature gets its declared missing value if and only if it is not a start delay or that value is zero |
| FeaturePlanning.UnavailableRelatedFeature | src/hermes_rpt/features/service.py:166-220 | an unavailable related feature does if and only if it is not a start delay, there is no mapping or no join value, or that value is zero |
| FeaturePlanning.DryRunAgreesWithExtraction | src/hermes_rpt/features/planner.py:44-92 | when both succeed, a feature the plan reports unavailable gets its declared missing value if and only if no start delay is derived from nothing, or that value is zero |
| FeaturePlanning.StartDelayWithoutZeroDisagrees | src/hermes_rpt/features/derive.py:56-57 | otherwise it is extracted as zero, target and related features alike |
| FeaturePlanning.StartDelayIsExtractedAsZero | src/hermes_rpt/features/derive.py:56-57 | a concrete contract, mapping and database where that happens to a target feature |
| FeaturePlanning.VehicleDelayIsExtractedAsZero | src/hermes_rpt/features/service.py:204-217 | a concrete contract, two mappings and a database where it happens to a related feature |
| FeaturePlanning.DryRunSuitsDeliveryDelay | src/hermes_rpt/features/contract.py:340-355 | every feature of the delivery-delay contract meets the condition |
| FeaturePlanning.DeliveryDelayNamesAreUnique | src/hermes_rpt/features/contract.py:160-373 | feature names are unique |
| TransformerSchema.HermesLayoutIsValid | src/hermes_rpt/models/transformer/schema.py:21-109 | every entity fits the slots, vocabularies are distinct and start with padding |
| Encoding.HashCategorical | src/hermes_rpt/models/transformer/encoding.py:86-92 | an id from 1 up to the vocabulary size, never the one reserved for missing |
| Encoding.EncodeDatetime | src/hermes_rpt/models/transformer/encoding.py:95-101 | three features between 0 and 1 |
| EncodingMeaning.DatetimeFeaturesMean | src/hermes_rpt/models/transformer/encoding.py:95-101 | the hour in 24ths, the weekday in sevenths and the days since 2020 in ten years, of every instant |
| EncodingMeaning.TextsCollideExactlyWhen | src/hermes_rpt/models/transformer/encoding.py:86-92 | two texts get one id exactly when their digests agree modulo the ids there are |
| Encoding.PositionInBounds | src/hermes_rpt/models/transformer/encoding.py:194-200 | every slot lies inside the sequence |
| Encoding.PositionsDoNotCollide | src/hermes_rpt/models/transformer/encoding.py:194-200 | no two slots share a position |
| Encoding.EveryPositionIsASlot | src/hermes_rpt/models/transformer/encoding.py:152 | every position but the first is a slot of some block |
| Encoding.WriteRecord | src/hermes_rpt/models/transformer/encoding.py:104-145 | writes one record slot by slot at one position and nothing else; fails exactly on unknown names or non-numbers, and names the first of these problems |
| Encoding.WriteRelation | src/hermes_rpt/models/transformer/encoding.py:195-212 | writes one relation's block |
| Encoding.GroupByRelation | src/hermes_rpt/models/transformer/encoding.py:190-192 | records by relationship in their given order; fails exactly on an unknown relationship |
| Encoding.EncodeExample | src/hermes_rpt/models/transformer/encoding.py:167-212 | the row of one example, or why there is none |
| Encoding.EncodeBatch | src/hermes_rpt/models/transformer/encoding.py:148-225 | one row per example; labels exactly when all examples have one; succeeds exactly when every example can be encoded |
| Encoding.AttentionIsExact | src/hermes_rpt/models/transformer/encoding.py:143-145 | attention is set exactly at position 0 and the first min(K, count) slots of each block; all other positions are zero throughout |
| Encoding.ReadBack | src/hermes_rpt/models/transformer/encoding.py:104-145 | a written record reads back as its view: entity, relationship and fields up to hashing and datetime features |
| EncodingMeaning.PositionTellsItsRecord | src/hermes_rpt/models/transformer/encoding.py:104-145 | a position names its record's entity and relationship and says slot by slot which fields are present and with what value |
| Encoding.RowReadsBack | src/hermes_rpt/models/transformer/encoding.py:187-212 | from a row the target and exactly the first K records of each relation read back in order |
| Encoding.RowsAgreeExactlyWhenViewsDo | src/hermes_rpt/models/transformer/encoding.py:148-225 | two rows are equal exactly when the encoded views agree, so a row does not depend on the rest of its batch |
| Encoding.CategoricalIdsMarkPresence | src/hermes_rpt/models/transformer/encoding.py:86-92 | an id is 0 exactly where nothing is present |
| Pretraining.MaskSlots | src/hermes_rpt/models/transformer/pretraining.py:124-146 | targets are eligible cells only, none at probability 0 and all at 1, and are made to look missing |
| Pretraining.MaskRow | src/hermes_rpt/models/transformer/pretraining.py:116-146 | every position of the row is masked, nothing else is written |
| Pretraining.CorruptLink | src/hermes_rpt/models/transformer/pretraining.py:148-167 | a corrupted link takes the original cells of a related record of another entity; a link stays genuine exactly as drawn or for lack of candidates |
| Pretraining.CorruptRow | src/hermes_rpt/models/transformer/pretraining.py:148-167 | the links of one row |
| Pretraining.PairEntity | src/hermes_rpt/models/transformer/pretraining.py:172-180 | perhaps one pair of two different candidates, labelled by comparing their original year features |
| Pretraining.PairRow | src/hermes_rpt/models/transformer/pretraining.py:169-180 | valid pairs, at most one per entity type; every entity with two candidates has one at probability 1 |
| Pretraining.BuildPretrainingBatch | src/hermes_rpt/models/transformer/pretraining.py:83-205 | for all random draws: each row of the result is a masked, corrupted and paired version of the original row, in fresh tensors |
| MaskingDraws.TargetExactlyWhenDrawn | src/hermes_rpt/models/transformer/pretraining.py:124-146 | a cell is a target if and only if it is unprotected and present and its own draw lies below the mask probability |
| MaskingDraws.UniformDrawsMaskAllOrNothing | src/hermes_rpt/models/transformer/pretraining.py:124-146 | with all draws below it the targets are exactly those cells, with none below there are none |
| MaskingDraws.CellsTakeDifferentDraws | src/hermes_rpt/models/transformer/pretraining.py:116-146 | no two cells of a row share a draw |
| MaskingDraws.CorruptedExactlyWhenDrawn | src/hermes_rpt/models/transformer/pretraining.py:148-167 | a link is corrupted if and only if its draw lies below the corruption probability and another entity has a related record; the next draw chooses which |
| MaskingDraws.PairedExactlyWhenDrawn | src/hermes_rpt/models/transformer/pretraining.py:169-180 | an entity gets a pair if and only if it has two candidates and its draw is at most the pair probability |
| MaskingDraws.DrawsDecideRow | src/hermes_rpt/models/transformer/pretraining.py:108-180 | nothing but the draws decides: results of one row from the same draws are equal |
| Pretraining.EncodedRowsAreWellFormed | src/hermes_rpt/models/transformer/pretraining.py:107-122 | rows from the encoder can be used |
| Pretraining.StructureIsKept | src/hermes_rpt/models/transformer/pretraining.py:182-193 | entity, relationship and attention never change, and positions without a record are untouched |
| Pretraining.NumericCellsAreMaskedOrKept | src/hermes_rpt/models/transformer/pretraining.py:124-130 | away from corrupted links a numeric target was present and unprotected and now looks missing, and every other cell is untouched |
| Pretraining.CategoricalCellsAreMaskedOrKept | src/hermes_rpt/models/transformer/pretraining.py:132-138 | the same for categorical cells |
| Pretraining.DatetimeCellsAreMaskedOrKept | src/hermes_rpt/models/transformer/pretraining.py:140-146 | the same for datetime cells |
| Pretraining.CorruptedLinksCarryAnotherEntity | src/hermes_rpt/models/transformer/pretraining.py:153-167 | a label-0 link carries exactly the original cells of a related record of a different entity of the same example |
| TemporalPairs.LinksAreRelatedRecords | src/hermes_rpt/models/transformer/pretraining.py:148-171 | for the row of an example the links to corrupt and the records to pair are exactly the positions that hold a related record |
| TemporalPairs.GenuineCandidatesHaveTimestamps | src/hermes_rpt/models/transformer/pretraining.py:173 | away from corrupted links a candidate for a temporal pair has its own timestamp, and that is not a target |
| TemporalPairs.CandidatesHaveTimestampsExactlyWhen | src/hermes_rpt/models/transformer/pretraining.py:151-173 | over all draws for a row, every candidate has its own timestamp if and only if links are never corrupted or no related record without a timestamp has a cross-entity one with a timestamp |
| TemporalPairs.UndatedRecordsArePaired | src/hermes_rpt/models/transformer/pretraining.py:172-180 | if an entity's records all lack a timestamp and their cross-entity records have one, full corruption and pairing always pair two records neither of which has one |
| TemporalPairs.RowOfUndatedExample | src/hermes_rpt/models/transformer/encoding.py:148-225 | an example whose records of one entity all lack a timestamp while all others have one is encoded as such a row, for any layout and block size |
| TemporalPairs.UndatedDeliveriesArePaired | src/hermes_rpt/models/transformer/pretraining.py:172-180 | the failing input for the shipped layout and two slots per relation: for a trip with two undated deliveries and one fuelling, every result at full corruption and pairing pairs two deliveries without a timestamp |
| TemporalPairs.TripWithDeliveriesIsEncodable | src/hermes_rpt/models/transformer/encoding.py:148-225 | that trip can be encoded, into a row of 13 positions |
| TemporalPairs.LabelComparesDays | src/hermes_rpt/models/transformer/pretraining.py:177-179 | the label of a pair compares the days of the two first timestamps, clamped to the ten years from 2020, a missing one counting as the first day |
| TemporalPairs.LabelAgreesExactlyWhen | src/hermes_rpt/models/transformer/pretraining.py:78-80 | contrary to the comment there, the label agrees with the order of two instants if and only if an earlier first instant also has an earlier clamped day; a label that says earlier is always right |
| MaskedValues.ShownTargetsReappear | src/hermes_rpt/models/transformer/pretraining.py:161-166 | a corrupted link that copies a record shows every masked cell of it as present, with its original value |
| MaskedValues.MaskedCellsStayHiddenExactlyWhen | src/hermes_rpt/models/transformer/pretraining.py:116-167 | over all draws for a row, no corrupted link shows a record with a masked cell if and only if nothing is ever masked, no link is ever corrupted, or no related record with a maskable cell has a related one of another entity |
| Pretraining.PairComesFromItsRow | src/hermes_rpt/models/transformer/pretraining.py:176-180 | every pair joins two different related positions of one entity in the row it names |
| Pretraining.AtMostOnePairPerEntity | src/hermes_rpt/models/transformer/pretraining.py:169-180 | no two pairs concern the same entity of the same example |

## Left out

- HTTP routers, settings, logging, metrics, audit records and token handling: no property of their own.
- SQL sessions, transactions, row-level security, optimistic version columns and foreign-key actions: tables are maps, and each service method is one atomic step.
- Concurrent calls of connection-manager methods: each method is atomic, because the coherence of pool and credential does not survive a rotation between resolving a target and pooling the engine.
- The read-only accessors of the pool registry (`get_existing`, `pool_count`), cancellation inside the breaker, and process restarts.
- Failing engine disposal: a disposal always completes.
- A second discovery run over the same snapshot: recorded snapshots do not change, so "validated" refers to the metadata the mapping was validated against.
- Profiling, drift acknowledgement, and the failure summary text of a discovery.
- The order of drift events and of validation errors: only their contents are stated.
- Filters, time zones and null-value lists of mapping documents, and the local and foreign columns of joins: neither validation nor extraction reads them.
- AI-suggestion metadata of mapping versions (confidence, explanation).
- Name similarity, type compatibility and comment matching behind a suggestion score: the signals are parameters; pairs are ranked over arbitrary real scores.
- Floating-point rounding: scores, ratios, ages and datetime features are exact reals.
- Timestamps stored as text: the portability fallback for drivers that return ISO strings is not modelled; such a value is a type error in a derive function.
- Failures to reach a customer database during extraction, and the lineage timestamp and snapshot id of a batch.
- Offline dataset building, relational context building, temporal splits, drift statistics, label functions, risk buckets, the model registry and all training code.
- ModelLoading.ModelLoader.LoadModel: model families are reduced to what decides loading, and how an artifact is unpacked is a parameter of the contact.
- FeatureQueries.CompileAndRunRelatedFeature: row limits are not modelled; only the target-row and latest-value queries have one, and each uses its first row alone.
- FeatureQueries.At: a column the customer's table lacks reads as null, where a database would raise an error.
- Encoding.EncodeBatch: the nine tensors of a batch are kept together as one grid of positions, and a vocabulary size below 2, for which the hash is undefined, is excluded.
- Pretraining.BuildPretrainingBatch: the cells of one position are written together, and entity groups are visited in order of first appearance.
- The probability distribution of random draws: every stream of draws is possible, and how a sample of two is drawn from it is fixed.
- Provider variants of the secret store other than the local one, which the repository does not implement either.
