# Verified model of the runtime approval gate and the hopper

This project models two cores of the repository and proves what they are for.

**The one-time approval claim.** `authorizeRuntimeCommand` runs guards, awaits its evidence once, then finalizes,
rechecks and claims in one synchronous stretch, and flushes its audit buffer once. `Gate` cuts a run at its awaits;
`GateSystem` interleaves any number of runs with kill-switch changes, clock readings, sessions and every other use of
the approval repository. `Approvals` and `ApprovalStores` hold the compare-and-set operations, the direct store, the
adapter and `verifyApproval`; `Eligibility` holds the evaluation that produces the evidence; `Relationships` holds the
parent checks that guard what enters the repository, with other operations running between check and write.

**The hopper.** `Filter` and `FilterRuns` model the per-scope adaptive filter (EWMA mean and variance, moving quantile,
pass-rate feedback, clamped smoothed threshold, snapshot and restore). `Vectors`, `Quantile` and `Memory` hold its
arithmetic, `Clustering` and `Hopper` the greedy duplicate merging, `Engine` the engine that ranks through the filter.

**Bounded structures.** `JsonLimits`, `RateLimit`, `Usage` and `Canonical` model the explicit-stack JSON limit walks,
the fixed-window rate limiter, the daily usage index and canonicalization before hashing. `Prelude`, `JsMaps`,
`JsValues`, `Sorting` and `Folds` are shared vocabulary.

How the source's values are modelled:

- Doubles are `real`, and `Math.sqrt` is any function that returns the non-negative root. Counters and instants of the
  rate limiter are `int`.
- A timestamp string has an optional instant, and a comparison with an invalid date is false. All that is assumed of
  the ISO guard is that it refuses the empty string and accepts only strings that are instants.
- The clock, sessions, resolver answers, the linkage verifier, the human decision matrix and the digests are
  parameters, arbitrary at every step.
- A JavaScript `Map` whose order matters is a sequence of entries with each key once; otherwise it is a `map`.

Where the code differs from its own comments, or from what one would expect, the model follows the code:

- `usedAt` is tested for truthiness, so a use marked with an empty timestamp is not final
  (`Approvals.MarkIsFinalIffTimestamped`), and creating a used id again with an unused row makes it usable again
  (`Approvals.RecreatedUnusableIff`).
- `markUsed` still succeeds exactly at the expiry, `claimForRuntime` does not (`Approvals.MarkAndClaimDifferIff`).
  `verifyApproval` lists "not already
  used" among its checks but reads only the status, never `usedAt`: a used record that is approved again passes it
  (`ApprovalStores.ReapprovedPassesVerification`). `ApprovalStores.VerificationRefusesUsedIff` says exactly in which
  runs it never does.
- A preview id that is reused while an approval waits between its checks and its write leaves that approval without a
  matching preview (`Relationships.ReuseBetweenCheckAndWrite`); `Relationships.PreviewWriteAlwaysSafeIff` says exactly
  which preview writes are safe.
- `canonicalize` is documented to leave arrays as they are; it canonicalizes their elements. A member called
  `__proto__` disappears, because assigning it sets the prototype (`Canonical.ProtoVanishes`).
- Usage summaries of different days or kinds can share a key, and then a day loses its row
  (`Usage.ShortDatesLoseARow`); `Usage.IndexIsLogIff`, `Usage.IndexIsLogForAllKindsIff` and `Usage.TotalsAgreeIff` say
  exactly when the index is the log.
- A window of the rate limiter admits at most `2 * MAX_REQUESTS - 1` requests, one less than two full windows, and
  that bound is reached. Size-based eviction of live entries can readmit an exhausted key
  (`RateLimit.EvictionReadmits`); `RateLimit.PruneInvisibleIff` says exactly when a pruning is never noticed.
- A snapshot that claims enough samples but holds no scores makes the filter's adaptive branch read an empty window,
  until the scope is next evaluated (`FilterRuns.EmptyAdaptiveWindowIff`).
- The judgment memories are described by half-lives, but they are normalized averages: as time passes alone, they do
  not change at all (`Memory.MemoriesDoNotAge`).

## Model

| member | source | states |
|---|---|---|
| `Prelude.JoinKeyInjective` | app/lib/persistence/inMemoryRepositories.ts:31 | A composite key of a colon-free tenant determines tenant and id. |
| `Prelude.JoinKeyCollidesIff` | app/lib/persistence/inMemoryRepositories.ts:31 | Two different tenants can share a key exactly when one is the other followed by a colon and more. |
| `Approvals.RowToDomain` | app/lib/persistence/mappers.ts:19-57 | Mapping a row to the domain and back gives the row again. |
| `Approvals.MarkAndClaimDifferIff` | app/lib/persistence/inMemoryRepositories.ts:191-225 | On a matching row and a well-formed instant a winning claim could also be marked, and only the mark wins exactly when the unused, approved row expires at that instant. |
| `Approvals.UseIsRecorded` | app/lib/persistence/inMemoryRepositories.ts:191-225 | A winning mark or claim records its own instant on its own row and changes nothing else; a losing one changes nothing. |
| `Approvals.StatusWrite` | app/lib/persistence/inMemoryRepositories.ts:182-190 | A status write changes exactly the status of exactly the tenant's own row. |
| `Approvals.TenantsAreIsolated` | app/lib/persistence/inMemoryRepositories.ts:157-225 | No operation touches or uses another tenant's row, except a create that takes over its id. |
| `Approvals.StepBalance` | app/lib/persistence/inMemoryRepositories.ts:157-225 | In one step the number of uses handed out equals the change of the row's `usedAt` mark, and bindings stay. |
| `Approvals.UseConservation` | app/lib/persistence/inMemoryRepositories.ts:157-225 | Over every disciplined run by any tenants, uses handed out plus the initial mark equal the final mark; binding fields never change. |
| `Approvals.OneUsePerApproval` | app/lib/persistence/inMemoryRepositories.ts:157-225 | From an empty repository an id is used at most once in total, and once exactly when its row carries `usedAt`, whatever statuses are written back. |
| `Approvals.UnusableIff` | app/lib/persistence/inMemoryRepositories.ts:182-225 | No later run of status writes, marks and claims uses a stored row exactly when it carries `usedAt`, whatever its status. |
| `Approvals.RecreatedUnusableIff` | app/lib/persistence/inMemoryRepositories.ts:157-165 | After a create, whatever the id was before, no later run without creates uses it exactly when the new row carries `usedAt`. |
| `Approvals.MarkIsFinalIffTimestamped` | app/lib/persistence/inMemoryRepositories.ts:191-204 | A successful mark is final under every later run without creates exactly when its timestamp is not empty. |
| `Approvals.UsedStaysUsed` | app/lib/persistence/inMemoryRepositories.ts:182-225 | A used row wins no further use and stays used in every run without creates. |
| `ApprovalStores.StepBisimilar` | app/lib/security/approvalStore.ts:196-232 | One call gets equal answers from the direct store and the adapter and keeps them related. |
| `ApprovalStores.StoresBisimilar` | app/lib/persistence/approvalStoreAdapter.ts:33-88 | Every sequence of find, mark and claim calls gets the same answers from both stores and leaves equal records, for rows of one tenant. |
| `ApprovalStores.InterchangeableIffSingleTenant` | app/lib/persistence/approvalStoreAdapter.ts:33-88 | The two stores are indistinguishable exactly when no row belongs to another tenant. |
| `ApprovalStores.DirectClaimIsRepositoryClaim` | app/lib/security/approvalStore.ts:213-232 | A direct claim is the repository's claim in the name of the claim's own tenant. |
| `ApprovalStores.VerificationAnswers` | app/lib/security/approvalStore.ts:105-163 | For each answer of verification, exactly when it is given: foreign action, then target, then payload, then status, then expiry. |
| `ApprovalStores.VerifiedIdIsRequested` | app/lib/security/approvalStore.ts:128-162 | After any run of the repository the verified id is the requested one. |
| `ApprovalStores.ClaimIffVerified` | app/lib/security/approvalStore.ts:124-163 | A claim wins exactly when verification at the same instant passes, the instant is well formed and no use is recorded; afterwards verification reports the approval as used and a second claim loses. |
| `ApprovalStores.ReapprovedPassesVerification` | app/lib/security/approvalStore.ts:149-162 | After any won claim whose row is approved again, verification passes although the use is recorded, and the claim itself still refuses. |
| `ApprovalStores.VerifiableIff` | app/lib/security/approvalStore.ts:124-163 | Some request verifies for an id exactly when its row is stored, approved and not expired at every instant. |
| `ApprovalStores.VerificationRefusesUsedIff` | app/lib/security/approvalStore.ts:105-163 | In any run, no request ever verifies for a used id exactly when no step stores approval on a used row. |
| `ApprovalStores.DisciplinedApprovesUsedIff` | app/lib/persistence/inMemoryRepositories.ts:157-190 | For disciplined callers such a step is a status write on the tenant's own used row. |
| `ApprovalStores.InMemoryApprovalRepository.Create` | app/lib/persistence/inMemoryRepositories.ts:157-165 | Stores the row under the context's tenant, whatever tenant the row names. |
| `ApprovalStores.InMemoryApprovalRepository.FindById` | app/lib/persistence/inMemoryRepositories.ts:166-171 | Finds only rows of the asking tenant. |
| `ApprovalStores.InMemoryApprovalRepository.UpdateStatus` | app/lib/persistence/inMemoryRepositories.ts:182-190 | Writes any status on the tenant's own row and nothing else. |
| `ApprovalStores.InMemoryApprovalRepository.MarkUsedAt` | app/lib/persistence/inMemoryRepositories.ts:191-204 | Returns a row exactly when this call wins the use, and is the only change. |
| `ApprovalStores.InMemoryApprovalRepository.ClaimForRuntime` | app/lib/persistence/inMemoryRepositories.ts:205-225 | Returns a row exactly when every binding field matches an approved, unused, unexpired row; otherwise changes nothing. |
| `ApprovalStores.InMemoryApprovalStore.FindApprovalById` | app/lib/security/approvalStore.ts:197-199 | Answers as the direct store of the bisimulation. |
| `ApprovalStores.InMemoryApprovalStore.MarkApprovalUsed` | app/lib/security/approvalStore.ts:201-211 | Answer and new records are those of the bisimulation's mark. |
| `ApprovalStores.InMemoryApprovalStore.ClaimApprovalForRuntime` | app/lib/security/approvalStore.ts:213-232 | Answer and new records are those of the bisimulation's claim. |
| `ApprovalStores.RepositoryBackedApprovalStore.FindApprovalById` | app/lib/persistence/approvalStoreAdapter.ts:38-47 | Answers as the adapter of the bisimulation, through the row mapper. |
| `ApprovalStores.RepositoryBackedApprovalStore.MarkApprovalUsed` | app/lib/persistence/approvalStoreAdapter.ts:49-60 | Answer and new rows are those of the bisimulation's mark. |
| `ApprovalStores.RepositoryBackedApprovalStore.ClaimApprovalForRuntime` | app/lib/persistence/approvalStoreAdapter.ts:62-88 | A foreign tenant or malformed instant claims nothing; otherwise it is the repository's claim. |
| `Eligibility.BoundedExpiryBounds` | app/lib/phase6/runtimeAuthorization/eligibility.ts:255-277 | The authorization expires after it is issued, within thirty seconds, and no later than the linkage, preview, approval or session. |
| `Eligibility.EarliestExpiry` | app/lib/phase6/runtimeAuthorization/eligibility.ts:266-272 | The bounded expiry is the earliest of linkage, preview, approval, session and ceiling. |
| `Eligibility.ContextIsStamped` | app/lib/security/runtimeAuthorizationGate.ts:151-175 | The verification context is the stored sources with one instant stamped on them and on the identity input, and nothing else changed. |
| `Eligibility.SessionYieldsExecutor` | app/lib/phase6/canonicalIdentity/constructors.ts:154-250 | A session yields an executor exactly when it is a live, human, non-development session of the tenant. |
| `Eligibility.KnownActionTypes` | app/lib/phase6/runtimeAuthorization/eligibility.ts:173-175 | The four action types that runtime authorization knows. |
| `Eligibility.FirstDifference` | app/lib/phase6/runtimeAuthorization/eligibility.ts:214-223 | The first binding field in which linkage and action differ decides the issue. |
| `Eligibility.LinkageRefusals` | app/lib/phase6/runtimeAuthorization/eligibility.ts:101-121 | A linkage that does not verify is refused in its own state. |
| `Eligibility.OutcomeIs` | app/lib/phase6/runtimeAuthorization/eligibility.ts:134-277 | The answer of the finalization as its first failing condition, with state and issue, and eligible if none fails. |
| `Eligibility.EligibleIff` | app/lib/security/runtimeAuthorizationGate.ts:204-269 | Evidence is eligible exactly when envelope, session, action type, linkage, human decision, approver and expiries all allow it. |
| `Eligibility.EligibleIsSound` | app/lib/security/runtimeAuthorizationGate.ts:204-269 | Eligible evidence met every condition of the previous row, the human decision included; it echoes the request, the envelope's hashes and the claim instant; its executor is the session's user; its identifiers derive from action, linkage and executor; the expiry bounds hold. |
| `Gate.RecheckAudit` | app/lib/security/runtimeAuthorizationGate.ts:364-398 | Everything between the resolver's answer and the claim keeps the audit trail well formed. |
| `Gate.ResumeAudit` | app/lib/security/runtimeAuthorizationGate.ts:364-410 | So does the whole stretch including the claim. |
| `Gate.SettleAudit` | app/lib/security/runtimeAuthorizationGate.ts:410-426 | Whether its claim was won, lost or rejected with an exception, a settled run has flushed its buffer exactly once, and the buffer ends in "created" exactly on success. |
| `Gate.SubjectShows` | app/lib/security/runtimeAuthorizationGate.ts:292-311 | Audit events show the request's own identifiers, or redact them. |
| `Gate.BeginIs` | app/lib/security/runtimeAuthorizationGate.ts:344-362 | A call waits for its evidence or ends for the first of: missing field, no permission, switch off; with the answer, trail and last event of that cause. |
| `Gate.RecheckIs` | app/lib/security/runtimeAuthorizationGate.ts:364-398 | An answered run asks for the claim or ends for the first of: resolver failure, no evidence, no session, evaluation failure, ineligible, no permission, switch off. |
| `Gate.SettleIs` | app/lib/security/runtimeAuthorizationGate.ts:410-426 | A settled run has its receipt or ends for: claim failed, claim refused, receipt failed. |
| `Gate.DryRunParity` | app/lib/security/runtimeAuthorizationGate.ts:446-478 | On equal inputs the dry run says "verified" exactly when the gate reaches its claim; otherwise its disposition is the gate's own failure state, mapped. |
| `Gate.GateCall.constructor` | app/lib/security/runtimeAuthorizationGate.ts:344-362 | The guards before the await, with their audit events, are the state machine's start. |
| `Gate.Store.ClaimApproval` | app/lib/security/approvalStore.ts:90-100 | Whichever store a call was given, its claim is one step on the rows: won, lost, or a rejected promise before or after the write. |
| `Gate.GateCall.Continue` | app/lib/security/runtimeAuthorizationGate.ts:364-410 | With any of the stores, the stretch from the resolver's answer through the claim changes run and rows together, as one step. |
| `Gate.GateCall.CheckAndClaim` | app/lib/security/runtimeAuthorizationGate.ts:384-410 | The store is asked only after both final checks, and otherwise keeps its rows. |
| `Gate.GateCall.Complete` | app/lib/security/runtimeAuthorizationGate.ts:410-426 | A lost claim is reported as replayed, a won one is receipted, a rejected promise or other exception ends in a rejection; one flush each. |
| `GateSystem.ResumeClaims` | app/lib/security/runtimeAuthorizationGate.ts:384-410 | A run holds evidence only by winning its claim with the switch on and the session permitted; otherwise the rows are untouched, unless its store wrote and then failed. |
| `GateSystem.StepKeepsInv` | app/lib/security/runtimeAuthorizationGate.ts:323-427 | Every step of every participant keeps: audit trails well formed, held approvals used, one holder each. |
| `GateSystem.SingleWinner` | app/lib/security/runtimeAuthorizationGate.ts:323-427 | In every interleaving no two runs succeed for one approval. |
| `GateSystem.AuditOfEveryRun` | app/lib/security/runtimeAuthorizationGate.ts:330-427 | In every reachable state each run's buffer is one of the documented trails, flushed once when done, ending in "created" exactly on success. |
| `GateSystem.TakenOnce` | app/lib/security/approvalStore.ts:213-232 | Whoever takes it, the use of an approval is taken at most once in a run of the whole system. |
| `GateSystem.SuccessOwnsItsUse` | app/lib/security/runtimeAuthorizationGate.ts:364-427 | Each success owns exactly one approved-to-used transition: its own step, switch on, session permitted, evidence sound, the row bound to the receipt's action, `usedAt` equal to the evidence's instant; no other step takes that approval. |
| `GateSystem.UseHasOneOwner` | app/lib/security/runtimeAuthorizationGate.ts:399-410 | A step takes the use of an approval exactly when it is a winning repository operation or a gate claim that wins or whose store writes before it fails. |
| `GateSystem.TakenUseIsReceiptedIff` | app/lib/security/runtimeAuthorizationGate.ts:410-426 | Once the run that took a use is done, it has a receipt for that approval exactly when its store did not fail and building the receipt did not throw. |
| `GateSystem.FailureHasCause` | app/lib/security/runtimeAuthorizationGate.ts:344-426 | In every interleaving each failed run was stopped by one step of its own, for a cause that its answer, trail and last event tell. |
| `GateSystem.CauseDecides` | app/lib/security/runtimeAuthorizationGate.ts:344-426 | And what stops a run decides its answer for good. |
| `GateSystem.ReplayedIffRefused` | app/lib/security/runtimeAuthorizationGate.ts:399-416 | A finished run reports the approval as used, with the replayed trail, exactly when its store answered and refused the claim. |
| `Relationships.StepLinked` | app/lib/persistence/relationshipEnforcedRepositories.ts:51-98 | One step, also between a parent check and its write, keeps every approval linked to its parents. |
| `Relationships.ApprovalsAlwaysHaveParents` | app/lib/persistence/relationshipEnforcedRepositories.ts:74-98 | In a bundle started empty every stored approval always has a same-tenant preview with equal WorkUnit, action type and hashes, and an existing same-tenant WorkUnit. |
| `Relationships.PreviewsAlwaysHaveParents` | app/lib/persistence/relationshipEnforcedRepositories.ts:51-63 | Every stored preview always has a WorkUnit of its own tenant, also when preview ids are reused. |
| `Relationships.PreviewWriteSafeIff` | app/lib/persistence/repositoryResolver.ts:398-402 | A preview write keeps the approvals stored at that moment linked exactly when every one bound to it agrees with it. |
| `Relationships.PreviewWriteAlwaysSafeIff` | app/lib/persistence/relationshipEnforcedRepositories.ts:51-98 | A preview write keeps integrity in every later careful run exactly when it agrees with every approval stored and every approval that a suspended create can still write. |
| `Relationships.ReuseBetweenCheckAndWrite` | app/lib/persistence/relationshipEnforcedRepositories.ts:79-90 | The failing interleaving: a preview id reused between an approval's checks and its write, with no approval stored yet. |
| `Relationships.UndisturbedCreate` | app/lib/persistence/relationshipEnforcedRepositories.ts:79-90 | An undisturbed creation succeeds exactly when both parents are there and name the same action; otherwise nothing is written. |
| `Relationships.MissingHashesReadEmpty` | app/lib/persistence/repositoryResolver.ts:403-408 | A hash that was never stored reads as the empty string. |
| `Relationships.ForeignParentsAreInvisible` | app/lib/persistence/relationshipEnforcedRepositories.ts:35-45 | A read finds a parent exactly when the tenant owns one: foreign and missing look the same. |
| `Relationships.RepositoryBundle.UpsertWorkUnit` | app/lib/persistence/inMemoryRepositories.ts:37-46 | Stores under the context's tenant and changes no sibling store. |
| `Relationships.StatusOnly` | app/lib/persistence/inMemoryRepositories.ts:48-51 | A status write leaves everything but the status of the tenant's own WorkUnit as it was. |
| `Relationships.RepositoryBundle.UpdateWorkUnitStatus` | app/lib/persistence/inMemoryRepositories.ts:48-51 | Changes the status of an existing WorkUnit of the tenant only. |
| `Relationships.RepositoryBundle.BeginPreview` | app/lib/persistence/relationshipEnforcedRepositories.ts:56-57 | The parent check reads what the store holds at the first segment. |
| `Relationships.RepositoryBundle.FinishPreview` | app/lib/persistence/relationshipEnforcedRepositories.ts:56-59 | Writes under the tenant's key if the parent was found, otherwise violates and writes nothing. |
| `Relationships.RepositoryBundle.BeginApproval` | app/lib/persistence/repositoryResolver.ts:403-408 | The preview as handed out, missing hashes read as empty. |
| `Relationships.RepositoryBundle.CheckWorkUnit` | app/lib/persistence/relationshipEnforcedRepositories.ts:80-83 | The second segment: preview present and naming the WorkUnit, then the WorkUnit read. |
| `Relationships.RepositoryBundle.FinishApproval` | app/lib/persistence/relationshipEnforcedRepositories.ts:83-90 | The last segment writes only if the remembered preview names the same action. |
| `Vectors.CauchySchwarz` | app/lib/hopperAdaptiveFilter.ts:442-458 | The squared dot product is at most the product of the squared norms. |
| `Vectors.ClampCutsOnlyNegatives` | app/lib/hopperAdaptiveFilter.ts:457 | The quotient lies in [-1, 1], so clamping changes exactly the negative cosines. |
| `Vectors.CosineSymmetric` | app/lib/hopperEngine.ts:461-476 | Similarity is symmetric. |
| `Vectors.CosineScaleInvariant` | app/lib/hopperEngine.ts:461-476 | Positive scaling does not change similarity. |
| `Vectors.NormalizeIsScale` | app/lib/hopperEngine.ts:455-459 | A normalized non-zero vector is a positive multiple of norm one. |
| `Vectors.NormalizeScaled` | app/lib/hopperEngine.ts:455-459 | Normalizing depends on the direction of a vector alone. |
| `Vectors.ClampIsNearest` | app/lib/hopperAdaptiveFilter.ts:549-556 | Clamping moves a value to the nearest point of the interval. |
| `Vectors.CosineOfNormalized` | app/lib/hopperEngine.ts:455-476 | Normalizing either vector does not change similarity. |
| `Vectors.CosineWithItself` | app/lib/hopperEngine.ts:461-476 | A vector's similarity with itself is one exactly when some component is not zero, and zero otherwise. |
| `Vectors.NormalizedCosine` | app/lib/hopperAdaptiveFilter.ts:442-458 | The filter's loop computes the similarity, zero for a missing vector. |
| `Vectors.CosineSimilarity` | app/lib/hopperEngine.ts:461-476 | The engine's loop computes the same similarity. |
| `Quantile.QuantileExact` | app/lib/hopperAdaptiveFilter.ts:460-470 | The moving quantile is a window score, leaves at most its share strictly above it, and every smaller score leaves more. |
| `Quantile.QuantileIff` | app/lib/hopperAdaptiveFilter.ts:460-470 | No other value fits that description. |
| `Quantile.QuantileIgnoresOrder` | app/lib/hopperAdaptiveFilter.ts:460-470 | Rearranging the window does not change the quantile. |
| `Filter.ConfigNormal` | app/lib/hopperAdaptiveFilter.ts:503-531 | Whatever the settings, the normalized configuration satisfies every range the filter relies on. |
| `Filter.NormalIffFixed` | app/lib/hopperAdaptiveFilter.ts:503-531 | Normalizing changes exactly the configurations that are out of range, so it is idempotent. |
| `Filter.ScopeKeysAgreeIff` | app/lib/hopperAdaptiveFilter.ts:284-286 | Colon-free source types share a scope exactly when type and project agree, a missing project being "global". |
| `Filter.BestRange` | app/lib/hopperAdaptiveFilter.ts:429-440 | The memory similarity is the maximum over the list, floored at zero. |
| `Filter.ComponentsInRange` | app/lib/hopperAdaptiveFilter.ts:288-308 | Similarities and priors lie in [0, 1], penalties between zero and their caps. |
| `Filter.SimilaritiesReadTheirMemories` | app/lib/hopperAdaptiveFilter.ts:292-301 | Each similarity is one for an item that its own memory holds and zero for a missing memory. |
| `Filter.PriorsReadTheirInputs` | app/lib/hopperAdaptiveFilter.ts:304-306 | Confidence and priors in range count as given; missing ones count zero, or as the source's prior. |
| `Filter.SourcesRanked` | app/lib/hopperAdaptiveFilter.ts:482-501 | The order of the sources by prior, unknown ones between bookmarks and screenshots. |
| `Filter.DuplicatePenaltyIs` | app/lib/hopperAdaptiveFilter.ts:410-427 | The closest neighbour at or above the floor sets the penalty, and none does without one. |
| `Filter.RejectPenaltyIs` | app/lib/hopperAdaptiveFilter.ts:292-293 | The reject penalty grows with the reject similarity by its weight up to its cap. |
| `Filter.ScoreMonotone` | app/lib/hopperAdaptiveFilter.ts:310-326 | With non-negative weights the score rises with each similarity and prior and falls with each penalty. |
| `Filter.ScoreOfOnePart` | app/lib/hopperAdaptiveFilter.ts:310-326 | A part that is alone scores by its own weight, less the penalties. |
| `Filter.VerdictTells` | app/lib/hopperAdaptiveFilter.ts:217-219 | A decision accepts exactly the scores that reach its threshold, and its last code says so. |
| `Filter.CodesTell` | app/lib/hopperAdaptiveFilter.ts:192-219 | Each reason code is there exactly for its reason. |
| `Filter.DecisionInRange` | app/lib/hopperAdaptiveFilter.ts:189-239 | Score in [0, 1], threshold and gain within their configured bounds. |
| `Filter.LearnOk` | app/lib/hopperAdaptiveFilter.ts:358-389 | Every evaluation keeps the ranges of the scope's state. |
| `Filter.LastOfIs` | app/lib/hopperAdaptiveFilter.ts:477-480 | A window is the end of the sequence, as much of it as fits. |
| `Filter.NormalizedOk` | app/lib/hopperAdaptiveFilter.ts:533-547 | Any snapshot state is brought into range. |
| `Filter.OkIffNormalized` | app/lib/hopperAdaptiveFilter.ts:533-547 | Normalizing a state changes nothing exactly when it is in range. |
| `FilterRuns.RestoreIsExact` | app/lib/hopperAdaptiveFilter.ts:171-187 | Restoring the snapshot taken at any point of any run, from any configuration and any earlier snapshot, gives exactly the same scopes. |
| `FilterRuns.ReadsAndRestartsChangeNothing` | app/lib/hopperAdaptiveFilter.ts:241-281 | Reading scopes and restarting from snapshots, anywhere in a run, changes no decision. |
| `FilterRuns.ScopeIsController` | app/lib/hopperAdaptiveFilter.ts:189-239 | A scope inside a whole run behaves as a controller without map or clock, fed that scope's inputs. |
| `FilterRuns.ScopeRunsAlone` | app/lib/hopperAdaptiveFilter.ts:189-281 | Whatever else a filter is asked, its decisions for a scope are those of a filter holding and fed only that scope. |
| `FilterRuns.EveryDecisionIsHonest` | app/lib/hopperAdaptiveFilter.ts:217-219 | Every decision of every run, from any snapshot, accepts exactly the scores that reach its threshold. |
| `FilterRuns.FreshRunRemembers` | app/lib/hopperAdaptiveFilter.ts:358-389 | After any run of a fresh filter a scope's count, windows, threshold and gain are read off its own log; its mean lies between any bounds on the logged scores and its variance within the square of their distance. |
| `FilterRuns.FreshScope` | app/lib/hopperAdaptiveFilter.ts:367-377 | A fresh filter's running mean is the exponentially weighted mean of the log in closed form, and its variance the smoothed squared distances from the means before. |
| `FilterRuns.EvaluationStamps` | app/lib/hopperAdaptiveFilter.ts:221-224 | An evaluation stamps its own scope with the input's time, or the clock's, and leaves every other scope alone. |
| `FilterRuns.FreshRunInBounds` | app/lib/hopperAdaptiveFilter.ts:264-281 | From a fresh filter, all ranges hold, variance is at most one, windows have length min(count, size), and the adaptive branch never sees an empty window. |
| `FilterRuns.EmptyAdaptiveWindowIff` | app/lib/hopperAdaptiveFilter.ts:335-349 | For restored filters: exactly when the adaptive branch can meet an empty window. |
| `FilterRuns.QuantileKeepsTarget` | app/lib/hopperAdaptiveFilter.ts:347-355 | At most targetPassRate times n of n window scores lie strictly above the quantile used, and no smaller score does as well. |
| `FilterRuns.NextDecisionReadsLog` | app/lib/hopperAdaptiveFilter.ts:391-408 | The next decision's count and pass rate are those of the log, the pass rate moves the gain in its direction by a whole step unless it meets its bound, and the threshold is the one the log calls for: initial or quantile less the prior's relief, later the blend of the last one with the larger of mean plus deviations and quantile. |
| `FilterRuns.PassRateIsShare` | app/lib/hopperAdaptiveFilter.ts:472-475 | The pass rate is the share of accepted decisions in the window. |
| `FilterRuns.BatchIsRun` | app/lib/hopperEngine.ts:137-152 | Feeding a batch of inputs is a run of the filter. |
| `FilterRuns.FedAt` | app/lib/hopperEngine.ts:137-152 | Each decision of a batch is made on the scopes that the inputs before it left. |
| `FilterRuns.HopperAdaptiveFilter.constructor` | app/lib/hopperAdaptiveFilter.ts:171-187 | The loop over the snapshot restores every scope, normalized. |
| `FilterRuns.HopperAdaptiveFilter.GetState` | app/lib/hopperAdaptiveFilter.ts:264-281 | The stored state, or a fresh one that is stored. |
| `FilterRuns.HopperAdaptiveFilter.AdjustGain` | app/lib/hopperAdaptiveFilter.ts:391-408 | New gain and pushed reason. |
| `FilterRuns.HopperAdaptiveFilter.Evaluate` | app/lib/hopperAdaptiveFilter.ts:189-239 | Decision, reasons and new scopes are one step of the runs above. |
| `FilterRuns.HopperAdaptiveFilter.Snapshot` | app/lib/hopperAdaptiveFilter.ts:241-252 | A copy of all scopes, changing none. |
| `FilterRuns.HopperAdaptiveFilter.GetScopeState` | app/lib/hopperAdaptiveFilter.ts:254-262 | Reads one scope, storing it if it was missing. |
| `Clustering.MergeByLoop` | app/lib/hopperEngine.ts:219-232 | The loop computes the clustering characterized by the next rows. |
| `Clustering.ClustersGreedy` | app/lib/hopperEngine.ts:222-232 | The clusters partition the positions, keep input order, are ordered by head; each later member merges with an earlier one of its cluster and with nothing before it in earlier clusters. |
| `Clustering.GreedyIff` | app/lib/hopperEngine.ts:222-232 | Exactly one clustering has those properties, and it is the computed one. |
| `Clustering.HeadsMergeWithNothingBefore` | app/lib/hopperEngine.ts:222-232 | A cluster's head merges with no earlier input. |
| `Hopper.ShouldMergeSymmetric` | app/lib/hopperEngine.ts:237-249 | Merging is symmetric. |
| `Hopper.MergesWhen` | app/lib/hopperEngine.ts:237-249 | A common address or repository merges always; otherwise inputs merge exactly when close both in time and in direction. |
| `Hopper.CanonicalIsBest` | app/lib/hopperEngine.ts:251-256 | The canonical member is a starred repository if there is one, and the earliest of its kind. |
| `Hopper.CanonicalIsFirstBest` | app/lib/hopperEngine.ts:251-256 | The canonical member is the first in input order among the best: starred before others, then earliest. |
| `Hopper.NamedIff` | app/lib/hopperEngine.ts:257 | A canonical item names its whole cluster exactly when no other member shares the canonical id. |
| `Hopper.NamedCountIff` | app/lib/hopperEngine.ts:215-275 | Summed over all items, one plus the duplicate links is at most the input count, with equality exactly when no canonical id is shared in its cluster; then the named ids are the input ids. |
| `Hopper.MergedClear` | app/lib/hopperEngine.ts:215-275 | Distinct input ids meet that condition. |
| `Hopper.CanonicalIdsDistinct` | app/lib/hopperEngine.ts:262-263 | With distinct input ids the canonical ids are distinct. |
| `Memory.WeightedAverageByLoop` | app/lib/hopperEngine.ts:428-448 | The accumulating loops compute the normalized weighted average of the vectors of the first valid dimension. |
| `Memory.AverageReweighted` | app/lib/hopperEngine.ts:428-448 | Only the ratios of the weights matter. |
| `Memory.MemoriesDoNotAge` | app/lib/hopperEngine.ts:329-361 | With exponential decay, the short and long memories do not depend on when they are built, once all logs are past. |
| `Memory.ShortMemoryFeeds` | app/lib/hopperEngine.ts:329-344 | Short memory is fed by keeps at full weight and opens at 0.45, each decayed by its age. |
| `Memory.LongMemoryFeeds` | app/lib/hopperEngine.ts:346-361 | Long memory is fed by keeps alone, those that led to further work at 1.35. |
| `Memory.PushedIsHeld` | app/lib/hopperEngine.ts:363-377 | What was pushed last is always held. |
| `Memory.SimilarityOfListed` | app/lib/hopperAdaptiveFilter.ts:429-440 | A single vector and a list of one are the same memory. |
| `Engine.UnderstoodDistinct` | app/lib/hopperEngine.ts:201-213 | Understanding keeps ids: merged inputs have distinct ids exactly when the raw ones do. |
| `Engine.UnderstoodTells` | app/lib/hopperEngine.ts:201-213 | Understanding keeps what an input is and where it is from, and lists its tags and extracted topics once each. |
| `Engine.CanonicalTells` | app/lib/hopperEngine.ts:251-275 | What a canonical item says of its cluster: source, project, topics, sources, at most three summaries and the earliest time. |
| `Engine.EmbeddingIsMeanDirection` | app/lib/hopperEngine.ts:267 | The canonical embedding points where the sum of the members' embeddings points. |
| `Engine.EarliestIs` | app/lib/hopperEngine.ts:273 | The item's time is the least of its cluster. |
| `Engine.ConfidenceIs` | app/lib/hopperEngine.ts:277-283 | Confidence starts at 0.35 and grows with duplicates and sources up to one. |
| `Engine.NeighborsAreTheClosest` | app/lib/hopperEngine.ts:285-306 | With distinct ids the neighbours are the ten largest similarities to the other items. |
| `Engine.SimilaritiesAre` | app/lib/hopperEngine.ts:291-298 | The similarities considered are those to the items with another id. |
| `Engine.ActionsRanked` | app/lib/hopperEngine.ts:317-324 | Keeping weighs more than opening, opening more than discarding, which is negative; revisits and further work add. |
| `Engine.PriorAfterJudgment` | app/lib/hopperEngine.ts:308-327 | A judgment says nothing of items it does not speak for; a discard never raises the prior and a keep never lowers one up to 0.75. |
| `Engine.DecidedReadsItems` | app/lib/hopperEngine.ts:134-152 | Ranking decides every item in order on its own data, the memories, its neighbours and its judgments. |
| `Engine.MemoriesAreTheJudgments` | app/lib/hopperEngine.ts:119-180 | After any calls to a new engine its log holds all judgments in order, its reject and open lists the newest discards and opens up to their bounds, short and long memory come from the whole log, and the work context is the last one set. |
| `Engine.JudgmentIsFelt` | app/lib/hopperEngine.ts:163-170 | A discard counts at once against, and an open for, whatever points its way. |
| `Engine.MergesOnRaw` | app/lib/hopperEngine.ts:201-249 | Whether two inputs merge does not depend on the normalization that understanding applies. |
| `Engine.ShownAreTheBest` | app/lib/hopperEngine.ts:126-154 | Shown and hidden items together are exactly the accepted decisions, at most the limit are shown, sorted, and no hidden one scores higher than a shown one. |
| `Engine.ReopeningChangesNothing` | app/lib/hopperEngine.ts:100-199 | An engine opened on any snapshot displays the same whether or not it is reopened from its own snapshots between any calls. |
| `Engine.HopperEngine.constructor` | app/lib/hopperEngine.ts:100-117 | Opens a snapshot with the default filter configuration. |
| `Engine.HopperEngine.SetWorkContext` | app/lib/hopperEngine.ts:119-124 | Stores the normalized vector or nothing. |
| `Engine.HopperEngine.RecordJudgment` | app/lib/hopperEngine.ts:156-180 | Rebuilds short and long memory from all logs and pushes to the list of its action. |
| `Engine.HopperEngine.Rank` | app/lib/hopperEngine.ts:134-154 | Evaluates in item order, then sorts by score. |
| `Engine.HopperEngine.Process` | app/lib/hopperEngine.ts:126-132 | Understands raw inputs, merges, ranks, keeps the accepted and shows the first few. |
| `Engine.HopperEngine.MergeHopperItems` | app/lib/hopperEngine.ts:215-235 | One canonical item per cluster of the greedy clustering. |
| `Engine.HopperEngine.Snapshot` | app/lib/hopperEngine.ts:182-198 | Memories as lists, and the filter's scopes. |
| `JsonLimits.HasSafeStructure` | app/lib/security/requestBody.ts:82-106 | The explicit-stack walk terminates and accepts exactly the trees that keep the recursive limits on nodes, depth, strings, arrays and keys. |
| `JsonLimits.ExpandVisit` | app/lib/toolBackendValidation.ts:139-152 | One turn refuses exactly a node over its limits or a container seen before, and otherwise pushes the children. |
| `JsonLimits.PassesPayloadLimits` | app/lib/toolBackendValidation.ts:131-155 | So does the payload walk; on a parsed tree its `seen` test never fires. |
| `JsonLimits.BodyLimitsImplyPayloadLimits` | app/lib/security/requestBody.ts:14-21 | A body accepted under the default limits passes the payload limits, and so does every value nested in it. |
| `RateLimit.StoreNeverExceedsCap` | app/lib/security/rateLimitGate.ts:34-68 | Whatever the clock does, the store holds at most its cap, each key once. |
| `RateLimit.EvictsOldest` | app/lib/security/rateLimitGate.ts:64-67 | Eviction removes exactly the oldest tenth, rounded up, and leaves the rest as it was. |
| `RateLimit.CeilTenthIs` | app/lib/security/rateLimitGate.ts:66 | The number evicted is a tenth, rounded up. |
| `RateLimit.PruningChangesNoDecision` | app/lib/security/rateLimitGate.ts:59-68 | With a nondecreasing clock and no live eviction, a limiter that prunes decides as one that never does. |
| `RateLimit.PruneChangesDecisionIff` | app/lib/security/rateLimitGate.ts:59-68 | One pruning changes the decision about to be made exactly when it evicts the key's live exhausted entry. |
| `RateLimit.PruneInvisibleIff` | app/lib/security/rateLimitGate.ts:59-68 | One pruning is invisible to every later sequence of requests exactly when it evicts no live entry. |
| `RateLimit.AlwaysInLimits` | app/lib/security/rateLimitGate.ts:34-51 | Every reachable store, pruned or not, holds each key once with a count from one to the limit, as the previous row needs. |
| `RateLimit.EvictionReadmits` | app/lib/security/rateLimitGate.ts:34-68 | A run from the empty store in which the limiter accepts an exhausted key that one without pruning refuses. |
| `RateLimit.FewerThanTwoWindows` | app/lib/security/rateLimitGate.ts:34-51 | Any closed interval of one window length accepts at most twice the limit less one for a key. |
| `RateLimit.BoundIsAttained` | app/lib/security/rateLimitGate.ts:34-51 | An ordinary run reaches that bound. |
| `RateLimit.ShortRunsNeverEvict` | app/lib/security/rateLimitGate.ts:59-68 | Up to the cap, no run evicts a live entry. |
| `RateLimit.RateLimiter.CheckRateLimit` | app/lib/security/rateLimitGate.ts:34-51 | Decision and new store are one step of the runs above. |
| `RateLimit.CallersAreApart` | app/lib/security/rateLimitGate.ts:30-32 | With colon-free routes, tenants and users every caller has a count of its own. |
| `RateLimit.RateLimiter.PruneExpiredEntries` | app/lib/security/rateLimitGate.ts:59-68 | Deletes the expired, then if still full the oldest tenth. |
| `RateLimit.RateLimiter.DeleteExpired` | app/lib/security/rateLimitGate.ts:61-63 | Deleting while iterating removes exactly the expired entries. |
| `RateLimit.RateLimiter.DeleteOldest` | app/lib/security/rateLimitGate.ts:65-66 | Deleting the sorted prefix key by key is the eviction. |
| `Usage.RecordKeepsConsistent` | app/lib/persistence/inMemoryRepositories.ts:126-135 | Any event keeps rows under the keys of their own fields and earned by an event, and a row under every logged key. |
| `Usage.RecordKeepsBalance` | app/lib/persistence/inMemoryRepositories.ts:126-135 | An event whose key no other day or kind has taken keeps the index equal to the log. |
| `Usage.IndexIsLogIff` | app/lib/persistence/inMemoryRepositories.ts:126-141 | After any run, every logged tenant, day and kind has its row, equal to the sum of its events, exactly when no two logged events share a key without sharing tenant, day and kind. |
| `Usage.ClearKeys` | app/lib/persistence/inMemoryRepositories.ts:130 | For colon-free tenants a key determines tenant, day and kind unless one date continues the other after a colon. |
| `Usage.IndexIsLogForAllKindsIff` | app/lib/persistence/inMemoryRepositories.ts:129-133 | For colon-free tenants, the index is the log whatever the kinds of the events, exactly when no date of a tenant continues another after a colon. |
| `Usage.DatedIsUnambiguous` | app/lib/persistence/inMemoryRepositories.ts:129-130 | Colon-free tenants and `createdAt` of at least ten characters meet the condition. |
| `Usage.ShortDatesLoseARow` | app/lib/persistence/inMemoryRepositories.ts:129-141 | A run with two short dates whose first day ends up with no summary at all. |
| `Usage.RowsHoldTheirKeys` | app/lib/persistence/inMemoryRepositories.ts:131-133 | In any run a row holds the quantities of all events under its key. |
| `Usage.TotalsAgreeIff` | app/lib/persistence/inMemoryRepositories.ts:126-145 | Current usage equals the sum of a tenant's summaries whatever the quantities, exactly under the same condition on keys. |
| `Usage.KindsOnce` | app/lib/persistence/inMemoryRepositories.ts:138-141 | A day's summary lists no kind twice. |
| `Usage.SummariesAreTheLog` | app/lib/persistence/inMemoryRepositories.ts:120-147 | After any run without ambiguous keys a day's summary lists exactly the kinds logged, each once and with the sum of its events, and current usage is the sum of the tenant's summaries. |
| `Usage.ForeignSummariesIff` | app/lib/persistence/inMemoryRepositories.ts:126-141 | Another tenant's write leaves all of a tenant's summaries alone exactly when it overwrites no row of theirs. |
| `Usage.OtherTenantsDoNotCount` | app/lib/persistence/inMemoryRepositories.ts:136-145 | With colon-free tenants, whatever the dates, another tenant's write changes neither summaries nor usage. |
| `Usage.ForeignArgumentReadsNothing` | app/lib/persistence/inMemoryRepositories.ts:136-145 | Naming another tenant reads nothing. |
| `Usage.InMemoryUsageRepository.RecordEvent` | app/lib/persistence/inMemoryRepositories.ts:126-135 | Log and index change as in the runs above. |
| `Canonical.CanonicalIffSame` | app/lib/security/hash.ts:186-199 | Two values canonicalize alike exactly when they are the same recursive maps after dropping undefined members, arrays in order. |
| `Canonical.KeyOrder` | app/lib/security/hash.ts:192 | Keys are ordered by their first difference, a beginning before what it begins. |
| `Canonical.CanonicalKeepsMeaning` | app/lib/security/hash.ts:186-199 | The canonical form means what the value means. |
| `Canonical.CanonicalizeIdempotent` | app/lib/security/hash.ts:186-199 | Canonicalizing twice changes nothing. |
| `Canonical.ProtoVanishes` | app/lib/security/hash.ts:191-198 | A `__proto__` member, whatever its value, and an undefined member leave no trace in the canonical form. |
| `Canonical.HashesAgree` | app/lib/security/hash.ts:68-89 | Target, payload and field hashes agree, and equal meanings hash equally. |
| `Canonical.CanonicalizeByLoop` | app/lib/security/hash.ts:186-199 | The code's recursion computes the canonical form. |
| `Canonical.FillByLoop` | app/lib/security/hash.ts:191-198 | The sorted key loop fills exactly the canonical members. |

## Left out

- Floating point: rounding, NaN and infinities; the filter, vectors and usage quantities are real numbers.
- Engine.MemoriesAreTheJudgments: for list bounds that are not negative; a negative one makes the source slice from the front.
- Memory.MemoriesDoNotAge: assumes that decay is positive and turns sums of ages into products, which `Math.exp` does up to rounding.
- Canonical.CanonicalIffSame: for ordinary string keys; integer-like keys, which JavaScript moves to the front, are not distinguished, nor are getters and proxies.
- Relationships.ApprovalsAlwaysHaveParents: for colon-free tenants and preview ids never reused for a different action, in one bundle; the preview map that the source shares between bundles of one process is the bundle's own here.
- GateSystem.SingleWinner: other users of the repository keep to fresh, unused rows and non-empty timestamps; what happens otherwise is `Approvals.RecreatedUnusableIff` and `Approvals.MarkIsFinalIffTimestamped`.
- ApprovalStores.VerificationRefusesUsedIff: assumes that every expiry has a timestamp not at or after it, which holds of dates because an invalid one compares false.
- Eligibility.EligibleIsSound: the linkage verifier and the human decision matrix are arbitrary functions, and fields they alone read are opaque values.
- Engine.HopperEngine.Process: the summaries and topics that regular expressions extract from a text are arbitrary functions of it.
- The audit sink: a flush is recorded, and its failure, which the code ignores, is not modelled.
- Reading the request body, HMAC binding, `JSON.stringify` and SHA-256: bytes and library code.
- The queries that list rows, the feedback, audit log and connection repositories, and the Cloudflare D1 repositories.
- `validateToolBackendRequest`, role tables, runtime configuration, tenant registry and error maps: guard chains that a reading settles.
- User interface, Electron, network clients, prompts and keyword routing.
