# Verified model of the Xander backend's decision core

Xander decides whether a wallet or an agent may act: it gathers evidence, scores coordination risk,
applies policy, challenges people to prove uniqueness, grants bounded capabilities, and contains
incidents. This project models that core in Dafny and proves what it is meant to guarantee.

Database tables are sequences and maps whose rows are named by position, a transaction is one step,
and an answer from outside (risk assessment, proof outcome, chain reply, clock) is an arbitrary
input. Where the program updates rows, fields or arrays in place, the model is a class or a method
with loops, proved against functions on the tables; protocols with concurrent callers are state
machines over their database steps, and their theorems hold for every finite run.

| modules | what they cover |
|---|---|
| `UnionFind`, `Connectivity`, `Pairwise`, `Clustering`, `ClusterDensity` | the behaviour graph: union-find, edges, clusters |
| `CapabilityTypes`, `CapabilityService`, `UsageWindow` | amounts and limits, the capability check, the sliding window under interleaving |
| `CanonicalJson`, `HashPreimages` | the canonical text, its decoder, and what the digests are taken over |
| `PolicyEngine`, `ClaimGate`, `ClaimRuns`, `ClaimService` | claims, challenges and receipts |
| `RiskCache` | cached assessments and the index that evicts them |
| `Lcs`, `WindowSweep`, `FundingCorrelation`, `PairAverages` | risk features |
| `OrderStatistics`, `Robust`, `BigIntText`, `TrustDrift` | medians, percentiles, amounts as text, and behaviour drift |
| `RuleEngine`, `PolicyRules`, `PolicyGrants` | rule selection, the seeded authorization policy, and what its grants let pass |
| `Scoring` | weights, bands and the score |
| `IntentProtocol`, `IntentService`, `ActorResolver` | idempotent intents and one actor per address |
| `AgentLifecycle`, `AgentService` | agent status, leases and the seed capabilities |
| `Bits`, `EacRoles`, `AgentRoles`, `Reconciliation` | bit arithmetic, on-chain roles and one-way repair |
| `IncidentTypes`, `Incidents` | incidents, advice and mitigation |
| `Common`, `Sorting` | sequences, options and the stable sort |

## Where code and documentation differ

The model follows the code. Each difference is stated as a theorem that says exactly when the code
does what is documented, with an input for which it does not.

- An intent is expired from the instant of its expiry on; the comment calls the boundary still valid (`backend/src/intent/intent-validator.ts:80-83`; `IntentProtocol.ExpiryBoundaryExact`: they differ at that instant and at no other).
- Idempotency looks at the key only; the actor and the hash of the parameters are stored but not compared. A call gets its own actor and parameters exactly when the creating call had them (`IntentProtocol.OwnParametersExact`, `KeyGivesOwnExact`; `KeyReuseIgnoresParameters` and `KeyReuseAfterCrash` are runs where it does not).
- Unreadable advice is documented to count as BLOCK; a name that every JavaScript object inherits compares as not a number and counts as agreement (`IncidentTypes.AdviceOnlyTightens`; `GarbledAdviceCanAgree` is such advice).
- Restoring is documented to un-suspend what this incident suspended and nothing more; the code reactivates every suspended row of the actor, and never returns a halved ceiling (`Incidents.RestoreExact` and `FalseAlarmUndone`; in `OlderSuspensionLifted` and `SiblingUndone` it does more).
- Both proofs of a verification are documented to be checked for ownership; only the liveness proof is (`AgentLifecycle.OwnProofsExact` and `WorldOwnerIgnored`; `BorrowedProofAccepted` is a verification on another actor's challenge).
- A dead lease is answered with the advice to re-verify before unfreezing; re-verifying is refused, but lets the unfreeze pass with capabilities that stay dead (`AgentLifecycle.RefusedVerificationLeavesLease`, `ThawOnBorrowedLease`, `StrandedForever`).
- A freeze is documented to be status and suspension together; they are two writes (`AgentLifecycle.TornFreezeExact`; `TornFreezeRun` is a run that ends frozen with a usable capability).
- Reconciliation is documented to find authority left on chain; it reads every agent under the label of its actor's newest named agent, revoked or not, and looks at no actor whose agents are all revoked or past the limit (`Reconciliation.ExcessReported` and `LabelExcessReported`; `OlderSiblingUnread` and `RevokedExcessUnreported` are tables with excess and an empty report). An unbelieved VOTE role is never read (`VoteExcessUnreported`).
- Treasury-scale transfers are documented to need human assurance; the capability that a smaller permitted transfer leaves has no ceiling, so they do exactly when that request had a live lease (`PolicyGrants.LargeTransfersExact`; `SmallRequestLargeTransfer` is a request without one).
- A transfer routed through an exchange is documented not to launder a shared funder; an earlier one replaces the funder (`FundingCorrelation.ExchangeTransferExact`; `EarlierTransferLaunders` brings the value from 1 to 0).
- The two band lookups differ on thresholds that validation tolerates (`Scoring.AscendingAgreeExact` and `AnyOrderAgreesExact` say exactly when they agree; `ToleratedGapDisagrees` is an instance).
- An invalidation is documented to evict what it affects; one that falls between computing and writing an assessment is lost (`RiskCache.HitComputedFresh` and `LostInvalidation`).

## Model

| member | source | states |
|---|---|---|
| UnionFind.UnionFind.Add | backend/src/behavior-graph/clustering.ts:28-33 | A new node is a class of its own; a known one changes nothing; the forest invariant is kept. |
| UnionFind.UnionFind.Find | backend/src/behavior-graph/clustering.ts:35-47 | Answers the representative of the node; compression changes no node's representative, and both walks end because depth falls. |
| UnionFind.UnionFind.Compress | backend/src/behavior-graph/clustering.ts:42-45 | The second walk: every node passed is re-hung on its representative and the abstract classes stay the same. |
| UnionFind.UnionFind.Union | backend/src/behavior-graph/clustering.ts:49-56 | Merges exactly the two classes under the representative of the larger, of two equal ones that of the first, and records the sum of the sizes. |
| UnionFind.UnionFind.Components | backend/src/behavior-graph/clustering.ts:59-70 | The classes, each once, as sorted lists, largest first. |
| UnionFind.ClimbsMeet | backend/src/behavior-graph/clustering.ts:24-57 | Following the stored parent links from two nodes ends at one node exactly when a path of united pairs joins them. |
| UnionFind.CompressSound | backend/src/behavior-graph/clustering.ts:35-47 | Re-hanging a node on its own representative keeps the forest acyclic, weighted and refined. |
| UnionFind.UniteSound | backend/src/behavior-graph/clustering.ts:49-56 | Hanging the smaller root below the larger keeps the forest acyclic, weighted, and equal to connectivity with the new link. |
| UnionFind.DepthLogarithmic | backend/src/behavior-graph/clustering.ts:35-57 | 2 to the depth of a node never exceeds the size of its component, which is what its root stores. |
| Pairwise.EarliestFunderFirst | backend/src/behavior-graph/pairwise.ts:57-69 | The funder is unknown exactly when nothing came in; otherwise it sent the first of the earliest arrivals. |
| Pairwise.FindEarliestFunder | backend/src/behavior-graph/pairwise.ts:57-69 | The loop computes that funder. |
| Pairwise.JaccardRange | backend/src/behavior-graph/pairwise.ts:107-114 | In [0, 1], symmetric, and 1 only for equal non-empty sets. |
| Pairwise.CountJaccard | backend/src/behavior-graph/pairwise.ts:107-114 | Walking the smaller set computes the share of the union that is common. |
| Pairwise.BuildEdges | backend/src/behavior-graph/pairwise.ts:116-185 | An unordered pair of distinct wallets is listed, once, smaller name first, exactly when one of its signals reaches the threshold; the score is at least each signal and equals one: 1 when both were first funded by one address within the window, and the share of common counterparties; the list is in order of the names. |
| Clustering.ClusterWallets | backend/src/behavior-graph/clustering.ts:110-148 | The clusters are exactly the connected components of at least the minimum size, largest first, with their own edges, density and mean score. |
| Clustering.ClustersDisjoint | backend/src/behavior-graph/clustering.ts:110-148 | No wallet and no edge is in two clusters, and a listed edge has both ends in its cluster. |
| Clustering.ClustersDetermined | backend/src/behavior-graph/clustering.ts:110-148 | The published member lists do not depend on the order or repetition of edges. |
| Clustering.ClustersInOrder | backend/src/behavior-graph/clustering.ts:59-70 | Clusters come largest first, and those of one size by their first wallet. |
| ClusterDensity.ClusterEdgeCount | backend/src/behavior-graph/clustering.ts:117-145 | For edges from the pairwise pass, a cluster of n wallets lists at least n-1 and at most n(n-1)/2 edges. |
| ClusterDensity.ClusterFigures | backend/src/behavior-graph/clustering.ts:117-145 | Hence density lies in [2/n, 1] and the mean edge score is at least the edge threshold. |
| ClusterDensity.ClusterConfidenceMeans | backend/src/behavior-graph/clustering.ts:84-145 | Confidence from the figures: HIGH from a mean of 0.9 and a density of 0.75, LOW only below 0.7 and 0.5, so never for four wallets or fewer. |
| CapabilityService.CheckExact | backend/src/capabilities/capability-service.ts:79-180 | The check allows exactly when some ACTIVE candidate passes every bound, and returns the newest; a refusal names no candidate, or the oldest. |
| CapabilityService.UsableMeans | backend/src/capabilities/capability-service.ts:103-163 | A candidate passes exactly when it misses no bound: its expiry, the lease it names, a readable ceiling, its allow-list, and the number of uses since the start of its window. |
| CapabilityService.RefusalMeans | backend/src/capabilities/capability-service.ts:79-180 | A refusal tells the truth: the named candidate misses the named bound and meets every bound tried before it; NOT_FOUND means there is no candidate. |
| CapabilityService.CapabilityService.CheckCapability | backend/src/capabilities/capability-service.ts:79-180 | The candidate loop computes that result, and its refusal names a bound that the oldest candidate misses. |
| CapabilityService.CapabilityService.GrantCapability | backend/src/capabilities/capability-service.ts:36-59 | One ACTIVE row with the given bounds is appended. |
| CapabilityService.CapabilityService.RecordUsage | backend/src/capabilities/capability-service.ts:183-195 | One usage row is appended, nothing else changes. |
| CapabilityService.CapabilityService.RevokeCapabilities | backend/src/capabilities/capability-service.ts:216-233 | Exactly the actor's ACTIVE rows, of one action type when one is given, become REVOKED; the count is how many rows changed. |
| CapabilityService.CapabilityService.SuspendCapabilities | backend/src/capabilities/capability-service.ts:236-243 | Exactly the actor's ACTIVE rows become SUSPENDED; the count is how many rows changed. |
| CapabilityService.WithdrawnMeansDenied | backend/src/capabilities/capability-service.ts:216-243 | After a full revocation or suspension every check of that actor is NOT_FOUND. |
| CapabilityService.WithdrawalExact | backend/src/capabilities/capability-service.ts:216-243 | After a withdrawal, for one action or for all, every check it covers is NOT_FOUND and every other check answers as before. |
| CapabilityTypes.AttenuatedFits | backend/src/capabilities/capability-types.ts:64-84 | An attenuated amount always fits its ceiling, attenuating twice is attenuating once, and a fitting request is granted in full. |
| CapabilityTypes.ParseDecimalText | backend/src/capabilities/capability-types.ts:45-52 | Reading a printed base-unit amount returns the number. |
| CapabilityTypes.ToLowerExact | backend/src/claim/orchestrator.ts:142-142 | Lower-casing forgets the case of the letters A to Z and nothing else. |
| UsageWindow.FrequencyBound | backend/src/capabilities/capability-service.ts:147-195 | In every interleaving of checks and recordings, no closed window of the span holds more than the limit plus K - 1 uses, K being the most exercises in flight at once. |
| UsageWindow.SequentialBound | backend/src/capabilities/capability-service.ts:147-195 | With one exercise at a time the limit itself is never exceeded. |
| UsageWindow.BoundReached | backend/src/capabilities/capability-service.ts:147-195 | The bound is exact: for every limit, span and K some run fills a window with limit plus K - 1 uses. |
| CanonicalJson.StringRoundTrip | backend/src/intent/intent-validator.ts:22-28 | Reading a quoted string back gives the string, escapes and lone surrogates included (section 7 of RFC 8259). |
| CanonicalJson.RoundTrip | backend/src/intent/intent-validator.ts:21-31 | Every canonical text decodes, in any context, to the meaning of the value it was printed from. |
| CanonicalJson.SameMeaningSameText | backend/src/intent/intent-validator.ts:21-31 | Values of one meaning print alike, whatever the order of keys at any depth. |
| CanonicalJson.CanonicalFaithful | backend/src/intent/intent-validator.ts:21-31 | Two values print alike exactly when they mean the same. |
| CanonicalJson.KeyOrderIrrelevant | backend/src/intent/intent-validator.ts:25-30 | Rearranging entries, or adding and dropping absent ones, leaves the text unchanged. |
| HashPreimages.IntentPreimageFaithful | backend/src/intent/intent-validator.ts:43-56 | Two requests are hashed from the same text exactly when they agree up to trimming and case of the target address, whatever lower-casing does to letters. |
| HashPreimages.IntentPreimageExact | backend/src/intent/intent-validator.ts:43-56 | Spelled out: they agree on everything but the target address, and both have none, or targets equal but for outer white space and the case of A to Z. |
| HashPreimages.EvidencePreimageFaithful | backend/src/intent/intent-validator.ts:65-67 | Two snapshots are hashed from the same text exactly when their evidence ids are the same multiset. |
| HashPreimages.DecisionPreimageFaithful | backend/src/intent/intent-validator.ts:70-78 | Two decision payloads are hashed from the same text exactly when they are equal. |
| HashPreimages.NormalizeExact | backend/src/actor/actor-types.ts:54-56 | Two addresses normalise alike exactly when, without their outer white space, they agree but for the case of the letters A to Z. |
| PolicyEngine.DecideFollowsScorer | backend/src/policy/policy-engine.ts:84-90 | On exact tilings, in any row order, the policy engine decides by the very band the scorer assigns. |
| PolicyEngine.DecisionByBand | backend/src/policy/policy-engine.ts:84-143 | On exact tilings the decision is ALLOW, CHALLENGE or BLOCK exactly when the scorer's own band has that name; only a challenge asks for assurance; score and cluster are passed on. |
| ClaimGate.OneOpenChallenge | backend/src/policy/policy-engine.ts:203-242 | A claim has at most one ISSUED challenge, and it is the claim's latest. |
| ClaimGate.ReissueLeavesAnswerable | backend/src/policy/policy-engine.ts:203-242 | What is issued or reused belongs to the claim and is a recent pass or a prompt still in time. |
| ClaimGate.IssueOrReuseMeans | backend/src/policy/policy-engine.ts:203-242 | Exactly what asking again does: the pass resolved last within the validity, else the prompt no older than its time limit, else the stale prompt timed out and a new one issued. |
| ClaimGate.CreatedSound | backend/src/claim/orchestrator.ts:113-136 | Creating a claim that was not found keeps one claim per wallet and campaign. |
| ClaimGate.ScreenedSound | backend/src/claim/orchestrator.ts:180-243 | The locked write keeps the invariant of claims, challenges and receipts whatever was computed outside the lock. |
| ClaimGate.VerificationSound | backend/src/claim/orchestrator.ts:278-362 | Verifying keeps it too: every passed challenge records its proof, none is recorded twice on one action, and only the open challenge is resolved. |
| ClaimGate.PassRecordsProof | backend/src/claim/orchestrator.ts:339-345 | A pass is answered only for a bound, readable proof, and records exactly that proof on the open challenge. |
| ClaimGate.VerificationExact | backend/src/claim/orchestrator.ts:278-362 | What every outcome is answered: a proof passes exactly when it is bound, readable and on no other challenge of the action; without an answer, or without a prompt, nothing changes; anything else fails the challenge. |
| ClaimGate.SpentProofRefused | backend/src/world/replay-protection.ts:81-97 | A proof that passed on an action is refused on every other prompt of that action, which fails. |
| ClaimGate.FinalizationSound | backend/src/claim/orchestrator.ts:376-438 | Finalizing keeps it, never meets a challenged claim without a challenge, and answers ALLOW exactly on a passed latest challenge. |
| ClaimGate.FinalizationExact | backend/src/claim/orchestrator.ts:376-438 | An unchallenged claim is left alone, an open prompt is waited for, and otherwise claim and receipt take one decision with the latest challenge on record. |
| ClaimGate.ReissueSound | backend/src/claim/orchestrator.ts:447-479 | Reissuing keeps it. |
| ClaimGate.VerifyThenFinalize | backend/src/claim/orchestrator.ts:278-438 | A challenged claim ends as ALLOW exactly when the proof was bound, readable and unspent; any other answer blocks it; no answer changes nothing. |
| ClaimRuns.Run | backend/src/claim/orchestrator.ts:113-257 | After every interleaving of callers with verify, finalize and reissue: unique claims, matching receipts, sound challenges, and every caller's answer backed by the tables. |
| ClaimRuns.RunKeeps | backend/src/claim/orchestrator.ts:149-242 | Along any run a decision handed out stands (a challenge is resolved at most once), so PENDING_REVIEW is left at most once, and the receipt's findings are never rewritten. |
| ClaimRuns.SameFindings | backend/src/claim/orchestrator.ts:180-257 | Two callers told a decision on one wallet and campaign were told the same claim, receipt, score, cluster and assurance. |
| ClaimRuns.AllowOnlyAfterPass | backend/src/claim/orchestrator.ts:376-438 | The only step that turns CHALLENGE into ALLOW is finalizing a claim whose latest challenge is PASSED. |
| ClaimRuns.PassesNameDifferentProofs | backend/src/world/replay-protection.ts:81-97 | In every run a passed challenge names its proof, and two passed challenges of one action name different ones. |
| ClaimRuns.SpentForGood | backend/src/claim/orchestrator.ts:278-438 | A proof that passed at any point of a run is refused ever after on every other prompt of its action, and finalizing the claim it was refused on blocks it. |
| ClaimRuns.OneClaimPerSpelling | backend/src/claim/orchestrator.ts:113-142 | In every run, calls for one campaign whose wallets differ at most in letter case are about one claim. |
| ClaimRuns.UndisturbedScreening | backend/src/claim/orchestrator.ts:138-257 | From any point of any run an undisturbed call for a wallet without a claim is created, assessed, recorded and answered with the assessment's findings. |
| ClaimRuns.UndisturbedReplay | backend/src/claim/orchestrator.ts:149-176 | One for a wallet whose claim is decided gets the stored answer and changes nothing. |
| ClaimRuns.RaceResolved | backend/src/claim/orchestrator.ts:113-136 | A caller about to create finds itself with the claim of its wallet and campaign, its own or the winner's. |
| ClaimRuns.ReceiptsApart | backend/src/policy/evidence-receipt.ts:47-78 | In every run no two claims share a receipt id. |
| ClaimRuns.AnswerBacked | backend/src/claim/orchestrator.ts:180-243 | The winner of the locked write answers what it wrote, every later caller what it finds written. |
| ClaimService.ClaimService.GetOrCreateClaim | backend/src/claim/orchestrator.ts:113-136 | Finds the claim of the wallet and campaign, or creates exactly one pending row. |
| ClaimService.ClaimService.WriteDecision | backend/src/claim/orchestrator.ts:180-243 | The transaction in place: challenge, receipt and claim change together, or nothing does and the stored answer is returned. |
| ClaimService.ClaimService.WriteEvidenceReceipt | backend/src/policy/evidence-receipt.ts:47-78 | One receipt per claim: created once, its id kept on every rewrite. |
| ClaimService.ClaimService.ScreenClaim | backend/src/claim/orchestrator.ts:138-257 | One undisturbed call: a decided claim is replayed untouched; an undecided one gets the policy's decision, and answer, claim and receipt carry the assessment's own score and cluster. |
| ClaimService.ClaimService.IssueOrReuseChallenge | backend/src/policy/policy-engine.ts:203-242 | Reuses a valid pass or open prompt; otherwise expires the stale prompt and issues one. |
| ClaimService.ClaimService.VerifyClaim | backend/src/claim/orchestrator.ts:278-362 | Resolves the open challenge in place as the outcome says, replay included; an unavailable verifier leaves it open. |
| ClaimService.ClaimService.FinalizeClaim | backend/src/claim/orchestrator.ts:376-438 | Claim and receipt take the final decision together, only when the latest challenge is settled. |
| ClaimService.ClaimService.ReissueChallenge | backend/src/claim/orchestrator.ts:447-479 | Only a challenged claim gets a challenge, that claim's own: a pass within its validity or a prompt in time. |
| RiskCache.WrittenSound | backend/src/cache/risk-cache.ts:149-175 | After a write every live entry naming a cluster is listed in a live index that expires no earlier. |
| RiskCache.WriteReadBack | backend/src/cache/risk-cache.ts:149-175 | What is written is read back under wallet and cluster, and nothing else is touched. |
| RiskCache.LifetimesExact | backend/src/cache/risk-cache.ts:149-175 | Both copies of a write are read for exactly one TTL, and the index that evicts them for exactly two. |
| RiskCache.InvalidatedSound | backend/src/cache/risk-cache.ts:197-229 | Invalidation keeps the index ahead of the entries it must evict. |
| RiskCache.InvalidationReaches | backend/src/cache/risk-cache.ts:197-229 | Invalidating a cluster, or a wallet whose live entry names it, leaves no live entry of any wallet or of the cluster naming it. |
| RiskCache.AddressInvalidated | backend/src/cache/risk-cache.ts:184-229 | For every id of 0x and 1 to 64 hex digits: its own entry, every live entry of its cluster and the cluster's copy are gone, and the answer lists them. |
| RiskCache.ClusterInvalidated | backend/src/cache/risk-cache.ts:184-229 | Any other id evicts exactly the members of the cluster so named, and its copy. |
| RiskCache.InvalidationSpares | backend/src/cache/risk-cache.ts:197-229 | It removes what it reports and that cluster, and nothing else. |
| RiskCache.ForgottenWalletSparesSiblings | backend/src/cache/risk-cache.ts:204-217 | The limit of that: an address whose own entry is gone evicts nobody else. |
| RiskCache.RunSound | backend/src/cache/risk-cache.ts:126-229 | The index property holds after every timed run of writes, invalidations and waiting. |
| RiskCache.HitIsFresh | backend/src/cache/risk-cache.ts:126-229 | Every hit was written less than one TTL ago, is never PENDING_REVIEW, and nothing since has rewritten it or invalidated its wallet, its cluster, or a wallet then cached for that cluster. |
| RiskCache.HitComputedFresh | backend/src/cache/risk-cache.ts:246-261 | A hit was computed after the last invalidation that concerns it exactly when none fell between the start of its computation and its write. |
| RiskCache.LostInvalidation | backend/src/cache/risk-cache.ts:246-261 | Such a run exists: an invalidation during the computation is lost, and the stale assessment answers for its whole TTL. |
| RiskCache.RiskCache.ReadCachedRisk | backend/src/cache/risk-cache.ts:126-138 | A hit is a live, non-pending entry; an unavailable server is a miss. |
| RiskCache.RiskCache.WriteCachedRisk | backend/src/cache/risk-cache.ts:149-175 | Writes entry, cluster copy and index in place; pending assessments and an unavailable server write nothing. |
| RiskCache.RiskCache.InvalidateRisk | backend/src/cache/risk-cache.ts:197-229 | Evicts and returns the affected wallets. |
| RiskCache.RiskCache.GetRiskThroughCache | backend/src/cache/risk-cache.ts:246-261 | A hit changes nothing; a miss returns the computed assessment and caches it. |
| Lcs.CellIsLongest | backend/src/risk/features.ts:480-494 | The table's last entry is the greatest length of a common subsequence, for all sequences. |
| Lcs.LengthFull | backend/src/risk/features.ts:480-494 | It reaches the longer length exactly for equal sequences. |
| Lcs.LcsLength | backend/src/risk/features.ts:480-494 | Two rolling rows, swapped and cleared, with the shorter sequence inner, compute it, in either argument order. |
| WindowSweep.FullestWindowIsMaximum | backend/src/risk/features.ts:125-135 | No window of the width, wherever it opens, holds more instants, and some window holds as many. |
| WindowSweep.LargestWindowCluster | backend/src/risk/features.ts:125-135 | The two-pointer sweep over the sorted instants computes that maximum. |
| FundingCorrelation.FundingValue | backend/src/risk/features.ts:188-291 | The loops compute the greatest clamped funder score, a labelled funder's being multiplied down. |
| FundingCorrelation.CorrelationDetermined | backend/src/risk/features.ts:188-291 | The evidence determines the value, which lies in [0, 1]. |
| FundingCorrelation.EarliestExact | backend/src/risk/features.ts:203-218 | A wallet's first funding is its earliest transfer from somebody named, of several at one instant the first in the list. |
| FundingCorrelation.LabelsLower | backend/src/risk/features.ts:239-262 | Vouching for further funders never raises the value. |
| FundingCorrelation.UnlabelledCountsInFull | backend/src/risk/features.ts:239-262 | Every unlabelled funder's own score is a lower bound. |
| FundingCorrelation.FullMarks | backend/src/risk/features.ts:188-291 | With a discount in force, 1 means one unlabelled funder reached every wallet within one window. |
| FundingCorrelation.ValueMeans | backend/src/risk/features.ts:188-291 | The value times the wallets but one is at least what any funder reached in any window but one, times its factor, and unless it is 0 is exactly that for some funder and window. |
| FundingCorrelation.LaterTransferIgnored | backend/src/risk/features.ts:203-218 | A transfer strictly later than the wallet's first changes nothing, wherever it stands. |
| FundingCorrelation.LaterTransfersIgnored | backend/src/risk/features.ts:199-218 | So the evidence the whole value is computed from stays the same. |
| FundingCorrelation.ExtraRowExact | backend/src/risk/features.ts:203-218 | One more row leaves a wallet's first funding alone exactly when it is no inbound transfer, comes later, comes at the same instant further down, or names the same funding. |
| FundingCorrelation.ExchangeTransferExact | backend/src/risk/features.ts:178-184 | For wallets with value 1, one more transfer from a labelled funder leaves the value at 1 exactly when it comes after that wallet's first one, in time or, at the same instant, in the list. |
| FundingCorrelation.EarlierTransferLaunders | backend/src/risk/features.ts:180-184 | An instance: two wallets funded by one private wallet have value 1, and 0 once one of them has an earlier transfer from a labelled exchange. |
| FundingCorrelation.FindEarliestFunding | backend/src/risk/features.ts:203-218 | The loop keeps the first inbound transfer of least time. |
| PairAverages.SharedCounterpartyRange | backend/src/risk/features.ts:411-465 | In [0, 1], and 1 only when at least two wallets touch one same non-empty set of counterparties. |
| PairAverages.SharedCounterparty | backend/src/risk/features.ts:411-465 | The double loop computes the mean over all pairs of lower-cased counterparty sets. |
| PairAverages.SimilarityRange | backend/src/risk/features.ts:531-543 | A pair's similarity is in [0, 1], and 1 only for equal non-empty sequences. |
| PairAverages.SimilarityExact | backend/src/risk/features.ts:531-543 | Times the longer length it is the length of a longest common subsequence. |
| PairAverages.PairMeanExact | backend/src/risk/features.ts:448-465 | An average over pairs spreads their sum over all n(n-1)/2; there is none below two items. |
| PairAverages.BehaviorSimilarityRange | backend/src/risk/features.ts:510-569 | The feature is in [0, 1], and 1 only when all wallets walked one non-empty path. |
| PairAverages.BehaviorSimilarityExact | backend/src/risk/features.ts:510-569 | It is 0 unless two wallets show some behaviour, and then the mean over all pairs. |
| PairAverages.ProtocolBehaviorSimilarity | backend/src/risk/features.ts:510-569 | The double loop computes the mean over all pairs of capped sequences, and 0 below two wallets with evidence. |
| Robust.MedianBreakdown | backend/src/risk/robust.ts:20-25 | If more than half of a sample lies in an interval, so does its median. |
| Robust.MadBreakdown | backend/src/risk/robust.ts:33-37 | And its median absolute deviation is at most the interval's length. |
| Robust.AgreementHasNoSpread | backend/src/risk/robust.ts:57-62 | When over half share one value, that is the median and every robust z-score is 0. |
| Robust.BreakdownIsSharp | backend/src/risk/robust.ts:20-25 | Exactly half is not enough: some sample half inside any interval has a median above any bound. |
| Robust.MedianExact | backend/src/risk/robust.ts:20-25 | The median of any ascending arrangement: its middle, or the mean of the two middle ones; 0 of nothing. |
| Robust.ZScoreExact | backend/src/risk/robust.ts:57-62 | A z-score counts distances from the median in units of 1.4826 MADs, and is 0 without spread. |
| Robust.MedianPermutation | backend/src/risk/robust.ts:20-25 | The order of the sample does not matter. |
| Robust.PercentileMonotone | backend/src/risk/robust.ts:65-73 | A higher percentile is never a smaller value. |
| Robust.PercentileRange | backend/src/risk/robust.ts:65-73 | Percentiles run from the least to the greatest value of the sample. |
| Robust.PercentileMedian | backend/src/risk/robust.ts:65-73 | The percentile at 0.5 is the median. |
| TrustDrift.MedianBreakdown | backend/src/trust/trust-drift.ts:45-51 | The same breakdown for whole amounts, with the mean of the two middle ones rounded toward zero. |
| TrustDrift.MedianExact | backend/src/trust/trust-drift.ts:45-51 | The median of any ascending arrangement of whole amounts, the mean of two middle ones rounded toward zero. |
| TrustDrift.UnusualAmountExact | backend/src/trust/trust-drift.ts:125-141 | An amount is unusual exactly when some recent one exceeds the rounded multiple of a positive baseline median. |
| TrustDrift.UnusualAmountBreakdown | backend/src/trust/trust-drift.ts:125-141 | With over half the baseline in [lo, hi], lo > 0, it fires for any recent amount above k*hi and never when all are at most k*lo. |
| TrustDrift.AmountMagnitude | backend/src/trust/trust-drift.ts:125-141 | How unusual: in full from ten times the setting times the median on, in proportion below. |
| TrustDrift.NoveltyExact | backend/src/trust/trust-drift.ts:107-122 | A novelty signal appears exactly when something recent was never seen, in full exactly when nothing recent was. |
| TrustDrift.HourDistanceRange | backend/src/trust/trust-drift.ts:67-70 | Hours of the clock are at most twelve apart, in either direction. |
| TrustDrift.HourDistanceLeast | backend/src/trust/trust-drift.ts:67-70 | The distance is the least over all ways of moving one hour by whole days. |
| TrustDrift.TimingExact | backend/src/trust/trust-drift.ts:163-175 | A new timing regime fires exactly from the set distance on, in full at twelve hours. |
| TrustDrift.ExpansionExact | backend/src/trust/trust-drift.ts:191-200 | A sudden expansion fires exactly from the set multiple of a known size on, in full at four times that. |
| TrustDrift.ParseAmounts | backend/src/trust/trust-drift.ts:53-64 | Keeps the amounts whose text reads as a big integer, in order, and skips the rest. |
| TrustDrift.SeenExact | backend/src/trust/trust-drift.ts:107-189 | Which counterparties, categories and action types count as seen: lower-cased names, absent and empty ones not. |
| BigIntText.PrintedReads | backend/src/trust/trust-mutation.ts:83-91 | Reading back a printed big integer returns it, sign included. |
| BigIntText.ReadsDecimal | backend/src/trust/trust-drift.ts:53-64 | Decimal digits read in base ten, with or without a sign. |
| BigIntText.ReadsPrefixed | backend/src/trust/trust-drift.ts:53-64 | After 0x, 0o or 0b, in either case, digits of that base read in it, digit by digit. |
| BigIntText.ReadsNothing | backend/src/trust/trust-drift.ts:53-64 | One character that is no digit of the base, or no digit at all, and the text does not read. |
| BigIntText.ReadsTrimmed | backend/src/trust/trust-drift.ts:53-64 | White space around a text makes no difference, and a blank text is zero. |
| BigIntText.AttenuationExact | backend/src/trust/trust-mutation.ts:83-91 | An attenuated ceiling reads as the quotient rounded toward zero, never widens a ceiling, and leaves it alone exactly when it is absent, no number, or spelt 0. |
| TrustDrift.DetectDrift | backend/src/trust/trust-drift.ts:96-203 | Without a baseline nothing is reported; otherwise exactly the six signals, in order, each under its own name; the peak is the greatest magnitude, in [0, 1], and 0 only without signals. |
| RuleEngine.SelectRuleLeast | backend/src/authorization/rule-engine.ts:96-102 | The selected rule matches and no matching rule has a lower priority number; none is selected only if none matches. |
| RuleEngine.OrderIrrelevant | backend/src/authorization/rule-engine.ts:96-102 | With unique priorities the outcome is the same for any order of the rules. |
| RuleEngine.SharedPriorityMatters | backend/src/authorization/rule-engine.ts:96-102 | Without them it is not: two stored orders, two outcomes. |
| RuleEngine.FailClosed | backend/src/authorization/rule-engine.ts:125-231 | Only a matched ALLOW or LIMIT rule permits; exactly then there are limits, and they are the rule's; the outcome names the rule, and exactly a challenge asks for assurance. |
| RuleEngine.ForgettingRiskPermitsNothing | backend/src/authorization/rule-engine.ts:74-84 | If only permitting rules bound coordination risk, losing that measurement leaves every non-permissive outcome as it was. |
| RuleEngine.ForgettingIntegrityPermitsNothing | backend/src/authorization/rule-engine.ts:74-84 | The same for behaviour integrity. |
| RuleEngine.ForgettingCanPermit | backend/src/authorization/rule-engine.ts:74-84 | The hypothesis is needed: a ruleset where forgetting a measurement turns BLOCK into ALLOW. |
| PolicyRules.SeedsOrdered | backend/prisma/seed-data/policy-rules.ts:51-330 | The seeded table has unique, ascending priorities. |
| PolicyRules.SeedsPermitExactly | backend/prisma/seed-data/policy-rules.ts:51-330 | Every request is settled by a seeded rule, and permitted exactly under the stated condition on action, band, amount, measurements and lease. |
| PolicyRules.SeedsNeverPermit | backend/prisma/seed-data/policy-rules.ts:51-330 | Never permitted: insufficient evidence, borrowing, voting, or a transfer of 5000 USDC or more without a live lease. |
| PolicyRules.SeedsForgetSafely | backend/prisma/seed-data/policy-rules.ts:51-330 | Under the seeded table, losing either measurement never opens anything. |
| PolicyGrants.OnlyTradesCapped | backend/prisma/seed-data/policy-rules.ts:51-330 | What the seeded policy permits carries an amount ceiling exactly for a trade, whatever amount was asked for. |
| PolicyGrants.AllowanceExact | backend/prisma/seed-data/policy-rules.ts:107-257 | The capability of a permitted trade, API request or payment passes exactly while its time and its lease last, the amount fits and fewer uses than its limit fall in its window, with the numbers of each trust band. |
| PolicyGrants.ExhaustedRefused | backend/prisma/seed-data/policy-rules.ts:107-257 | With its limit of uses in its window it is refused as used too often. |
| PolicyGrants.GrantRecords | backend/src/intent/intent-service.ts:416-432 | A grant names its actor, scope, decision and lease, and says that it was cut down exactly when the amount asked for exceeds its ceiling. |
| PolicyGrants.TransferPassesExactly | backend/src/intent/intent-service.ts:416-432 | On the capability left by a permitted transfer request, the check passes a transfer of any amount exactly within the hour and, if the request had a lease, while that lease lives. |
| PolicyGrants.ClaimPassesExactly | backend/prisma/seed-data/policy-rules.ts:257-310 | On the capability left by a permitted claim request any number of claims of any amount pass exactly within the hour and while its lease lives. |
| PolicyGrants.LargeTransfersExact | backend/prisma/seed-data/policy-rules.ts:79-88 | Every transfer of 5000 USDC or more that passes on that capability is under a live lease exactly when the request was made under one. |
| PolicyGrants.SmallRequestLargeTransfer | backend/prisma/seed-data/policy-rules.ts:79-98 | An instance: a request for 1000 USDC without a lease is permitted, and then the check passes a transfer of any amount. |
| Scoring.ValidateWeights | backend/src/risk/scoring.ts:53-69 | Accepts exactly non-empty, non-negative weights that sum to 1 within 1e-6; the fault names the first negative weight, or says that they do not sum. |
| Scoring.ValidateThresholds | backend/src/risk/scoring.ts:78-100 | Accepts exactly the rows that, sorted, start at 0, end at 1 and meet, each within 1e-9; the fault names the first pair that does not meet. |
| Scoring.EveryScoreBanded | backend/src/risk/scoring.ts:109-125 | Accepted thresholds leave no score in [0, 1] without a band. |
| Scoring.BandMonotone | backend/src/risk/scoring.ts:109-125 | A higher score is never in a lower band. |
| Scoring.BandFor | backend/src/risk/scoring.ts:109-125 | The loop answers the first covering band, or the fault. |
| Scoring.PolicyBandFor | backend/src/policy/policy-engine.ts:84-90 | The policy engine's loop answers the first row holding the score. |
| Scoring.BandsAgree | backend/src/policy/policy-engine.ts:84-90 | Both lookups agree on exact tilings of positive width, in any row order. |
| Scoring.AscendingAgreeExact | backend/src/policy/policy-engine.ts:84-90 | For rows in ascending order, each wider than twice the tolerance: the policy engine holds every score of [0, 1] in the row the scorer bands it in exactly when the rows reach 0 and 1 and no row starts above the end of the one below. |
| Scoring.AnyOrderAgreesExact | backend/src/policy/policy-engine.ts:84-90 | For every stored order at once: exactly when, besides, no two neighbours overlap. |
| Scoring.ToleratedGapDisagrees | backend/src/policy/policy-engine.ts:84-90 | An instance: validated thresholds and a score that one lookup bands and the other holds nowhere. |
| Scoring.ScoreLeavesReserve | backend/src/risk/scoring.ts:180-221 | The score is at most the total weight less the reserved weight. |
| Scoring.UniformSum | backend/src/risk/scoring.ts:180-221 | The bound is attained: all features at v sum to v times the total less the reserve. |
| Scoring.RaisedByWeight | backend/src/risk/scoring.ts:180-221 | Raising one feature by d raises the sum by its weight times d. |
| Scoring.RaisingNeverLowersBand | backend/src/risk/scoring.ts:180-221 | Raising features never moves a wallet to a lower band. |
| Scoring.ConfidenceBetween | backend/src/risk/scoring.ts:160-165 | Overall confidence lies between the least and greatest confidence of the features that carry weight. |
| Scoring.ScoreFeatures | backend/src/risk/scoring.ts:180-221 | Succeeds exactly for valid weights that cover the features and valid thresholds; then the score is the sum of weight times value where that lies in [0, 1], else the nearer end; confidence is the level nearest the weighted mean; band and rows are as defined, and a fault names the first feature without a weight. |
| IntentProtocol.AuthorizeFailClosed | backend/src/intent/intent-service.ts:235-416 | Permission needs an unexpired intent, an active actor, a wallet, fresh evidence, a known trust band and a permitting rule; exactly then there are limits to grant. |
| IntentProtocol.AuthorizeExactly | backend/src/intent/intent-service.ts:235-416 | Every authorization, gate by gate and effect by effect: outcome, reason and the limits to grant. |
| IntentProtocol.Run | backend/src/intent/intent-service.ts:146-489 | After every interleaving: unique keys, one decision and one receipt per intent, one grant per decision, and callers that agree with the tables. |
| IntentProtocol.OneIntentPerKey | backend/src/intent/intent-service.ts:180-209 | Calls completed with one key returned one intent, and never two decisions or receipts of it. |
| IntentProtocol.WrittenOnce | backend/src/intent/intent-service.ts:399-489 | At every point of every run: decision, receipt and capability at most once each, the capability only for ALLOW or LIMIT. |
| IntentProtocol.GrantedExactlyWhenPermitted | backend/src/intent/intent-service.ts:416-432 | A call that did the work leaves a capability exactly when its decision permits. |
| IntentProtocol.GrantCarriesItsDecision | backend/src/intent/intent-service.ts:399-432 | In every run a capability carries the limits that the facts of its own decision allowed, and the decision row holds that outcome and those grounds. |
| IntentProtocol.UndisturbedCall | backend/src/intent/intent-service.ts:146-489 | From any point of any run an undisturbed call with a new key is recorded, decided, pinned, granted if permitted, and answered. |
| IntentProtocol.RaceResolved | backend/src/intent/intent-service.ts:190-209 | A caller about to insert authorizes its own new row or is answered with the winner's. |
| IntentProtocol.FinishedForGood | backend/src/intent/intent-service.ts:146-489 | A finished call keeps its answer for the rest of the run. |
| IntentProtocol.TamperEvident | backend/src/intent/intent-service.ts:467-487 | A stored decision matches what its receipt pinned exactly when neither its payload was edited nor its evidence ids exchanged. |
| IntentProtocol.CreatorOwns | backend/src/intent/intent-service.ts:180-209 | Every row carries the key, the actor and the parameters of the call that inserted it. |
| IntentProtocol.OwnParametersExact | backend/src/intent/intent-service.ts:180-209 | In every run a completed call is given a row of its own actor, or with its own parameters, exactly when those are the creating call's; a call that did the work always is. |
| IntentProtocol.KeyGivesOwnExact | backend/src/intent/intent-service.ts:180-209 | All completed calls of a key get their own actor and parameters exactly when they agree and one of them does; when the creating call completed, exactly when they agree. |
| IntentProtocol.KeyReuseIgnoresParameters | backend/src/intent/intent-service.ts:180-209 | An instance: a second caller, with other parameters or another actor, is given the first one's intent. |
| IntentProtocol.KeyReuseAfterCrash | backend/src/intent/intent-service.ts:180-209 | Agreement alone is not enough: after the creating call dies, a lone completed call is given the dead one's undecided row. |
| IntentService.IntentService.CreateIntent | backend/src/intent/intent-service.ts:146-226 | A known key is answered from the tables; a new one is recorded, decided, pinned and, if permitted, granted, once each. The row returned is of the caller's actor, and has its parameters, exactly when the key was new or stored with them. |
| IntentService.IntentService.PersistDecision | backend/src/intent/intent-service.ts:434-489 | One decision row, and the receipt that pins its payload and its evidence. |
| ActorResolver.OneActorPerAddress | backend/src/actor/actor-resolver.ts:38-73 | Under all interleavings, resolutions answer one actor exactly when their addresses normalise alike. |
| ActorResolver.OneActorPerSpelling | backend/src/actor/actor-types.ts:54-56 | That is: exactly when the addresses agree up to outer white space and the case of the letters A to Z. |
| ActorResolver.UndisturbedResolution | backend/src/actor/actor-resolver.ts:38-73 | From any point of any run an undisturbed call answers the owner of a known address, and makes a new actor for an unknown one. |
| ActorResolver.RaceResolved | backend/src/actor/actor-resolver.ts:56-73 | A caller about to insert is answered with the owner of its address, whether it wins or loses the race. |
| ActorResolver.NoOrphans | backend/src/actor/actor-resolver.ts:50-60 | No actor is left that no address leads to. |
| ActorResolver.ActorTable.ResolveActorForWallet | backend/src/actor/actor-resolver.ts:38-73 | Finds the owner of the address, or creates actor and identity together. |
| AgentLifecycle.RunAnchored | backend/src/agents/agent-service.ts:163-449 | In every run, wherever failures strike: a backed, active, restricted or frozen agent has a recorded lease, and every grant hangs from a lease. |
| AgentLifecycle.RunQuiet | backend/src/agents/agent-service.ts:373-449 | When no freeze or revocation is torn between status and capabilities: FROZEN means nothing ACTIVE, REVOKED nothing ACTIVE or SUSPENDED. |
| AgentLifecycle.TornFreezeExact | backend/src/agents/agent-service.ts:373-402 | A torn freeze is quiet exactly when nothing was active, and a second freeze completes it. |
| AgentLifecycle.TornFreezeRun | backend/src/agents/agent-service.ts:204-402 | A run from a new agent that ends FROZEN with a capability that passes the check. |
| AgentLifecycle.TornRevocationExact | backend/src/agents/agent-service.ts:432-449 | After either failure point: quiet unless only the status was written and something was left to withdraw; the leases that were ACTIVE still are; a second call reaches the state of an unbroken revocation. |
| AgentLifecycle.RevokedIsTerminal | backend/src/agents/agent-service.ts:60-74 | No operation, however interrupted, brings a revoked agent back. |
| AgentLifecycle.UnfreezeNeedsLiveLease | backend/src/agents/agent-service.ts:405-429 | No unfreeze succeeds without a lease live at that moment. |
| AgentLifecycle.ThawUndoesFreeze | backend/src/agents/agent-service.ts:373-429 | With a live lease, unfreezing restores the state before the freeze exactly when nothing was suspended then. |
| AgentLifecycle.FreezeExact | backend/src/agents/agent-service.ts:373-403 | A freeze suspends exactly what the actor has active; one that fails half way changed the stage alone. |
| AgentLifecycle.UnfreezeExact | backend/src/agents/agent-service.ts:405-430 | A thaw is refused on a dead lease and outside service, and otherwise reactivates exactly what was suspended. |
| AgentLifecycle.RevokeExact | backend/src/agents/agent-service.ts:432-464 | A revocation is never refused; where it fails it leaves the leases, or capabilities and leases, for a second call. |
| AgentLifecycle.EnvelopeDiesWithLease | backend/src/agents/agent-service.ts:325-365 | A capability of this agent passes the check only while its lease is live. |
| AgentLifecycle.StoppedMeansDenied | backend/src/agents/agent-service.ts:373-449 | A frozen or revoked agent's actor passes no check. |
| AgentLifecycle.VerifiedMeansUsable | backend/src/agents/agent-service.ts:204-314 | A completed verification leaves the agent active with both seed actions passing the check at once. |
| AgentLifecycle.EstablishExact | backend/src/agents/agent-service.ts:204-367 | Establishing assurance, failure by failure: what each missing proof, failed write or refused move leaves behind, and what a completed verification grants. |
| AgentLifecycle.EnvelopeExact | backend/src/agents/agent-service.ts:249-367 | A completed verification gives ten claims and a hundred API requests a day, of any amount and target, until the seconds are over that its proofs bought. |
| AgentLifecycle.EnvelopeExhausted | backend/src/agents/agent-service.ts:325-367 | The eleventh claim of a day, or the hundred and first API request, is refused as used too often. |
| AgentLifecycle.LeaseRunsOut | backend/src/agents/agent-service.ts:240-262 | The lease of a completed verification is live for exactly the seconds its proofs bought. |
| AgentLifecycle.MovableExact | backend/src/agents/agent-service.ts:60-73 | Told by where to: the stages from which an agent may move there. |
| AgentLifecycle.RefusedVerificationLeavesLease | backend/src/agents/agent-service.ts:204-314 | With good proofs and a new lease a verification completes exactly in DRAFT, VERIFYING or HUMAN_BACKED; in every other status it is refused, yet the agent keeps pointing at the new live lease, with status and capabilities as they were. |
| AgentLifecycle.ThawOnBorrowedLease | backend/src/agents/agent-service.ts:265-429 | A frozen agent with lapsed capabilities: re-verifying is refused, then unfreezing succeeds on the new lease, and the agent in service passes no check. |
| AgentLifecycle.StrandedForever | backend/src/agents/agent-service.ts:163-449 | Past the start of its service, an agent whose capabilities have lapsed never passes a check again in any run of these operations. |
| AgentLifecycle.WorldOwnerIgnored | backend/src/agents/agent-service.ts:215-224 | Whose World challenge is pointed at changes neither state nor outcome. |
| AgentLifecycle.OwnProofsExact | backend/src/agents/agent-service.ts:204-263 | A verification that can complete rests on the actor's own passed proofs exactly unless the World challenge pointed at passed but is another actor's. |
| AgentLifecycle.BorrowedProofAccepted | backend/src/agents/agent-service.ts:204-314 | An instance: another actor's passed challenge puts a draft in service, and its capability passes the check. |
| AgentService.AgentService.EstablishAssurance | backend/src/agents/agent-service.ts:204-314 | The writes in order, each kept when a later one fails or is refused. |
| AgentService.AgentService.FreezeAgent | backend/src/agents/agent-service.ts:373-402 | Status first, then the suspension of every ACTIVE row. |
| AgentService.AgentService.UnfreezeAgent | backend/src/agents/agent-service.ts:405-429 | Refused on a dead lease or illegal move; else the status and every SUSPENDED row return. |
| AgentService.AgentService.RevokeAgent | backend/src/agents/agent-service.ts:432-449 | Status, then every ACTIVE or SUSPENDED row, then every ACTIVE lease, with a failure possible between any two. |
| AgentService.AgentService.Transition | backend/src/agents/agent-service.ts:163-176 | Moves along the table only; a move to the same status succeeds and changes nothing. |
| Bits.OrBit | backend/src/ens/eac-roles.ts:56-58 | Bit by bit, or of two big integers is disjunction. |
| Bits.AndNotBit | backend/src/ens/eac-roles.ts:66-68 | And masking out is difference. |
| Bits.OneShifted | backend/src/ens/eac-roles.ts:43-48 | One shifted left has exactly the one bit. |
| Bits.MaskCovered | backend/src/ens/eac-roles.ts:61-63 | A mask test succeeds exactly when every bit of the mask is set. |
| EacRoles.HoldsIsBit | backend/src/ens/eac-roles.ts:61-134 | The mask test of an action reads the one bit at the start of its slot. |
| EacRoles.GrantList | backend/src/ens/eac-roles.ts:56-58 | On integers: or-ing the roles of a list in adds exactly its supported actions and touches no registration or admin bit. |
| EacRoles.RevokeList | backend/src/ens/eac-roles.ts:66-68 | On integers: masking them out removes exactly them and touches no other bit. |
| EacRoles.AllAgentRolesMeans | backend/src/ens/eac-roles.ts:159-161 | What a freeze clears is the roles of all seven actions together, the integer with one bit in each of slots 8 to 14. |
| EacRoles.ActionsReadBack | backend/src/ens/eac-roles.ts:164-168 | Decoding lists exactly the held actions. |
| EacRoles.RegistrationHoldsNoAction | backend/src/ens/eac-roles.ts:98-157 | A freshly registered name holds no agent action. |
| EacRoles.RegistrationExact | backend/src/ens/eac-roles.ts:98-157 | Every bit a name is registered with: two roles, their admin halves, the transfer's, and those of the seven agent roles. |
| AgentRoles.RolesFollowHistory | backend/src/ens/agent-identity.ts:209-291 | After any sequence of grants and revocations exactly the supported actions held or granted and not since revoked read back; other bits never change. |
| AgentRoles.AgentHoldsWhatStands | backend/src/ens/agent-identity.ts:128-291 | From registration on, exactly what was granted and not since revoked. |
| AgentRoles.Registry.GrantAgentRoles | backend/src/ens/agent-identity.ts:209-246 | Sorts the actions, sends one transaction when any has a role, and adds exactly those to the holder's set. |
| AgentRoles.Registry.RevokeAgentRoles | backend/src/ens/agent-identity.ts:255-291 | Removes exactly the listed actions; an empty or absent list removes all seven. |
| Reconciliation.TargetIsOwn | backend/src/authorization/enforcement/ens-eac-adapter.ts:48-63 | An actor is read under a row's own label exactly when that row is the newest of its named ones, whatever its status. |
| Reconciliation.ReconcileEnforcement | backend/src/hardening/reconciliation.ts:55-156 | The report lists the drift of every compared pair, read under the label of the actor's newest named agent, and nothing else; it counts the pairs, and unreadable means every read of at least one failed. |
| Reconciliation.DriftExact | backend/src/hardening/reconciliation.ts:95-129 | What is reported of one pair: unread, on chain without belief, believed without being on chain, or nothing. |
| Reconciliation.ChosenExactly | backend/src/hardening/reconciliation.ts:55-67 | A stored row is looked at exactly when it is named, not revoked, asked for, and within the limit. |
| Reconciliation.ExcessReported | backend/src/hardening/reconciliation.ts:55-129 | Unbelieved authority on a stored row's own label is reported for that row exactly when it is not revoked, asked for and within the limit, the action is enforceable and could be read, and the actor has no newer named agent. |
| Reconciliation.LabelExcessReported | backend/src/hardening/reconciliation.ts:55-129 | It is reported for some row exactly when the label is that of the actor's newest named agent, revoked or not, the action is enforceable, and some row of the actor is looked at and could be read. |
| Reconciliation.RevokedRowsUnreported | backend/src/hardening/reconciliation.ts:55-67 | When every row was revoked the report is empty, whatever the chain holds. |
| Reconciliation.RevokedExcessUnreported | backend/src/hardening/reconciliation.ts:55-67 | An instance: a revoked agent whose trading role is still on chain, and an empty report. |
| Reconciliation.OlderSiblingUnread | backend/src/hardening/reconciliation.ts:73-75 | An instance: two agents of one actor in service, the older with a trading role nobody believes in, everything readable, and an empty report. |
| Reconciliation.RevokedNewestRead | backend/src/hardening/reconciliation.ts:73-75 | An instance: a revoked newest agent's role is reported under its older sibling's row. |
| Reconciliation.VoteExcessUnreported | backend/src/hardening/reconciliation.ts:159-159 | VOTE has a role but is not on the list: unbelieved, it is never checked. |
| Reconciliation.RepairDrift | backend/src/hardening/reconciliation.ts:173-211 | Repair only shrinks on-chain roles, leaves other bits, does nothing on a dry run; when all revocations confirm no reported excess is left, and they all do when each has a label, lands and can be read back. |
| Reconciliation.RepairedExact | backend/src/hardening/reconciliation.ts:173-211 | A revocation that landed takes exactly its own role from exactly its own label. |
| Reconciliation.OutcomeExact | backend/src/hardening/reconciliation.ts:173-211 | It is counted as repaired exactly when it landed and could be read back, or the action has no role. |
| Reconciliation.RepairedThenClean | backend/src/hardening/reconciliation.ts:55-211 | Then a second comparison reports excess only for pairs the first could not read. |
| IncidentTypes.AdviceOnlyTightens | backend/src/incidents/incident-types.ts:112-160 | The outcome is never below the deterministic floor; it is the stricter of floor and advice, unreadable advice counting as BLOCK, except exactly when the advice is spelt like an inherited object name and the floor is below BLOCK. |
| IncidentTypes.GarbledAdviceCanAgree | backend/src/incidents/incident-types.ts:66-77 | Such advice exists: garbled text that leaves ALLOW at ALLOW. |
| IncidentTypes.DecisionCoversContainment | backend/src/incidents/incident-types.ts:196-236 | Whatever the advice, the mitigation decided on withholds at least what severity alone justifies. |
| IncidentTypes.DecisionExact | backend/src/incidents/incident-types.ts:112-236 | The action and the mitigation decided on, for every severity and every advice. |
| IncidentTypes.SeverityOrder | backend/src/incidents/incident-types.ts:47-63 | Ranks compare as gravity does, an unrecognised severity counting as CRITICAL unless its name is inherited. |
| IncidentTypes.TransitionsForward | backend/src/incidents/incident-types.ts:169-180 | An incident may move exactly to where it is further along, so never out of a closed status. |
| Incidents.RunSound | backend/src/incidents/incident-service.ts:65-459 | In every run, whatever the rest of the program does to capabilities: at most one OPEN or INVESTIGATING incident per actor and type, and every incident that was contained or decided on keeps at least its severity's mitigation. |
| Incidents.ReportsKeepFloor | backend/src/incidents/incident-service.ts:65-459 | In every run whose reports ask for containment, each incident of an actor that is not closed withholds at least what its current severity justifies. |
| Incidents.DeclinedContainment | backend/src/incidents/incident-service.ts:116-116 | A report that declines containment leaves a critical incident withholding nothing. |
| Incidents.RunKeeps | backend/src/incidents/incident-service.ts:65-459 | Along any run severity never falls, status only moves forward, closed incidents never change; capability rows keep their owner, no ceiling widens, and what is revoked or expired stays so. |
| Incidents.SeriousMeansContained | backend/src/incidents/incident-service.ts:65-200 | A HIGH or CRITICAL incident opened or escalated with containment leaves its actor nothing ACTIVE. |
| Incidents.ReportDeduplicated | backend/src/incidents/incident-service.ts:65-119 | A report on an actor and type with an incident still open adds none: a graver one raises and contains it, whether or not it asks, and any other changes nothing. |
| Incidents.ReportOpens | backend/src/incidents/incident-service.ts:65-119 | Without one, an incident is opened and, if the report asks, contained by its severity: LOW and MEDIUM touch nothing, HIGH suspends and halves, anything graver revokes. |
| Incidents.DecidedMeans | backend/src/incidents/incident-service.ts:350-413 | Row by row, what deciding does for every severity and every advice. |
| Incidents.ClosedMeans | backend/src/incidents/incident-service.ts:416-459 | What closing needs, what it is refused for, and exactly what it changes. |
| Incidents.MitigationWithdraws | backend/src/incidents/incident-service.ts:209-240 | Restricting or revoking leaves nothing ACTIVE; a restricted ceiling reads as half of what it was; what was revoked no restore brings back. |
| Incidents.RestoreExact | backend/src/incidents/incident-service.ts:242-254 | In every run, closing an incident as a false positive with restore reactivates every row that is under this incident's suspension, and nothing more exactly when no row of the actor is under a suspension from the start, from another incident or from another part of the program. |
| Incidents.SuspensionHasCause | backend/src/incidents/incident-service.ts:223-254 | Every suspended row of a run is under a suspension that one event put there, or that was there from the start. |
| Incidents.SiblingUndone | backend/src/incidents/incident-service.ts:416-459 | An instance: closing a minor incident reactivates the row that a serious one suspended, which is still open with its restriction on record. |
| Incidents.SeriousStoppedExact | backend/src/incidents/incident-service.ts:65-459 | In every run whose reports ask for containment, the actor of an incident serious enough to withdraw authority has a capability ACTIVE exactly when something was granted or restored to it and nothing has withdrawn its authority since. |
| Incidents.ContainedThenRestored | backend/src/incidents/incident-service.ts:223-254 | Restricting and then restoring returns every standing exactly when the actor had nothing suspended, and every row exactly when, besides, it had no ceiling to halve. |
| Incidents.FalseAlarmUndone | backend/src/incidents/incident-service.ts:65-459 | The same for a HIGH report contained and closed as FALSE_POSITIVE with restore. |
| Incidents.OlderSuspensionLifted | backend/src/incidents/incident-service.ts:242-254 | An instance: a row suspended for another reason is ACTIVE after a false alarm. |
| Incidents.IncidentService.ApplyMitigation | backend/src/incidents/incident-service.ts:209-257 | Row by row, exactly the actor's rows that the mitigation concerns change, ceilings and types included. |
| Incidents.IncidentService.OpenIncident | backend/src/incidents/incident-service.ts:65-119 | Deduplicates on a live incident, escalates and contains it when more severe, else opens a new one. |
| Incidents.IncidentService.InvestigateIncident | backend/src/incidents/incident-service.ts:277-339 | Refuses a closed incident; an open one moves to INVESTIGATING. |
| Incidents.IncidentService.DecideIncident | backend/src/incidents/incident-service.ts:350-413 | Applies and records the reconciled mitigation, never below the severity's action. |
| Incidents.IncidentService.ResolveIncident | backend/src/incidents/incident-service.ts:416-459 | Needs a legal move and a stated cause; authority of an actor is restored only for a false positive. |

## Left out

- ClaimRuns.Run: a replayed caller reads receipt and newest challenge in one step; verify, finalize and reissue are single steps.
- IntentProtocol.Run: grants from other paths and the numbers inside trust context and risk assessment are not modelled; a verdict is computed from arbitrary facts.
- PolicyGrants.LargeTransfersExact: other capabilities of the actor, and enforcement boundaries behind the check, are not part of the statement.
- RiskCache.HitIsFresh: an operation is one step, so the several round trips of an invalidation do not interleave; key spellings that would collide (a cluster id ending in `:members`) and corrupt payloads are not modelled.
- UsageWindow.FrequencyBound: amount limits, expiry, status and leases may change during a run, frequency bounds may not, as no operation of the program changes them.
- AgentLifecycle.RunQuiet: one agent per actor, and no grants from intents or incidents; without the condition on torn writes the property is false, see `AgentLifecycle.TornFreezeExact`.
- Incidents.RunSound: sequential runs; revocation at every boundary is the row's REVOKED status; the rest of the program changes all rows of an actor alike (suspension, restoration, revocation) or adds one; operator actions are not modelled.
- Reconciliation.RepairDrift: all roles are held by the one operator account, so a label alone identifies a role map; the tables are the same when repairing as when comparing; of agents created at one instant the one further down the query counts as newer.
- EacRoles.GrantList: holder counts inside a four-bit slot and action types outside the declared list are not modelled.
- FundingCorrelation.FundingValue: grouping rows by wallet, confidence, notes and evidence ids of the result are not modelled.
- TrustDrift.DetectDrift: the mean hour of day is an input, since it needs trigonometry; details are text and left out.
- WindowSweep.LargestWindowCluster: instants and widths are exact reals, so there is no rounding and no missing value.
- HashPreimages.IntentPreimageFaithful: the digest itself (SHA-256) is opaque; numbers are their shortest decimal tokens.
- UnionFind.UnionFind.Components: names are compared by code unit where the program uses locale order.
- Scoring.ScoreFeatures: campaign baselines attached to a feature do not affect the score and are left out; weights and scores are exact reals.
- Addresses are lower-cased letter by letter in ASCII, except in the digest of an intent, which leaves it open.
- Rows created at one instant are taken to be ordered as they were created.
- Timing, wallet-age and other features that need standard deviations or square roots.
- Trust vectors, bands of trust, trust mutation and evidence gathering, which feed these modules with values treated as inputs.
- HTTP routes, configuration parsing, logging, queues, workflow engines and clients of outside services.
- The frontend, subgraph handlers and check scripts.
