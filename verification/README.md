# HASteward decision and recovery model

HASteward decides which node of a PostgreSQL (CNPG) or Galera cluster holds the winning data
and then performs destructive repairs. This project models those decisions and the multi-step
protocols around them, and proves what they keep. Verify everything with
`dafny verify dfyconfig.toml`.

## How to read it

| module | what it models |
|---|---|
| `Lineage`, `Authority`, `History`, `Comparison`, `Outcomes`, `HealPlan`, `ExactPlans` | CNPG authority by WAL lineage: instances as points on a tree of timelines, the tournament, the parsers that feed it, the assessments, the heal and promotion plans computed from it, and exactly when each verdict and plan is reached |
| `ContentDiff`, `Witness`, `ContentAuthority` | the two content resolvers that may settle a WAL divergence, and what the authority and the plans keep when one does |
| `Lease`, `FenceList`, `Trail`, `OfflineJob` | the cluster lock, the fenced-instances annotation, the one ordered record of steps and work, and the offline job on an instance's volume |
| `RecoveryProof`, `BreakerScript`, `DeadlockBreaker`, `BreakerRuns` | the proof a destructive clear is bound to, what a run of the breaker may put on record, the escrow gate, the breaker end to end, and concrete triages and runs of it |
| `GaleraTriage`, `GaleraCandidate`, `GaleraBootstrap` | the Galera authority verdict, the choice of the bootstrap candidate, and the bootstrap with its rollback |
| `Newest`, `JobRetention`, `EscrowRetention`, `WalPrune` | what may be forgotten, released or pruned |
| `Text`, `Numbers`, `Options`, `Faults` | shared vocabulary: Go's strings and numbers, and the fates of a call |

Each instance has a ghost set of WAL positions; "loses nothing" always means that the rows or
WAL of a discarded instance are contained in what is kept. Every API call of a protocol meets
its own fate: it is done, it fails without effect, or it takes effect and only the reply is
lost. A helper pod is part of the cluster: it moves on and works at any call, whether or not
anybody looks. Where the code walks a map, the model lets the order be arbitrary. Loops and
objects that change state are methods and classes, proved against functions and predicates
about which the results are stated.

Results that narrow what one might expect:

- A rollback of a Galera bootstrap whose own calls all take effect is complete exactly unless
  the call that failed took effect after all while suspending, locking, scaling down, marking
  or patching; the flags behind the rollback are only raised after success
  (`GaleraBootstrap.Bootstrap.RestoredIffClean`, with `GaleraBootstrap.LostLockRun`).
- An offline job whose create call takes effect with the reply lost, or whose helper cannot be
  deleted, leaves a helper that works with reconciliation on (`OfflineJob.Cluster.Run`, with
  `OfflineJob.OrphanRun`); the package comment promises it the volume exclusively.
- A heal plan lists the primary itself when its data is reported corrupt
  (`HealPlan.PrimaryIsTargetIffCorrupt`), and a rebuild clones the live primary without asking
  whether it is the triaged one (`HealPlan.RebuildLosesWALIff`, `BreakerRuns.StrayRun`).
- Deleted rows can leave the authority open although everything was read, or elect a leader
  without them (`ContentAuthority.RemovedRowsBlockIff`, `ContentAuthority.LackedRowsWereRemoved`).
- The table diff asks one instance for the list of tables; a table only the other one has is
  never compared (`ContentDiff.ListMustNameEveryTable`, `ContentDiff.ListingHidesATable`).
- A recovered primary may be released beside a further replica on another timeline that lacks
  its WAL (`WalPrune.ForkedReplicaMayBeFurthest`).
- Galera hints can sway the verdict in exactly one kind of state: the only sign of divergence
  is a node Known to be ahead of every primary member whose position is Known, some primary
  member's is not, and every unread node is on the quorum's lineage
  (`GaleraTriage.HintsDriveWhenSensitive`). The comments in `src/engine/triage/galera.go`
  promise more.
- The deadlock breaker validates its proof against the very re-triage it was hashed from, so
  drift between its two triages is never noticed
  (`DeadlockBreaker.DriftBetweenTriagesGoesUnnoticed`, `BreakerRuns.DriftedRun`), although the
  error message there says otherwise.
- Lock exclusion rests on timing: release deletes the lease by name
  (`Lease.LateDeleteBreaksExclusion`).
- Raising a retention count from the all-zero policy drops groups
  (`JobRetention.RaisingFromZeroDrops`).
- A diverged verdict may be about a pure ancestor (`Lineage.DivergenceCanBeSpurious`, with
  `Lineage.RelateElsewhere`).
- A replica stranded on the primary's own timeline with a full disk never makes a deadlock the
  breaker may break; a corrupt primary at 90 percent does (`BreakerRuns.BreakableIff`).
- A snapshot without a job tag is grouped with one whose tag spells its fallback id
  (`JobRetention.TogetherIff`).
- `parseLSN` accepts a low half of more than 32 bits (`WalPrune.WideLowHalfIsMerged`).

Assumptions that appear as preconditions: switch LSNs do not decrease along a chain and the
checkpoint is not before the last switch (`Lineage.WellFormed`); hashes do not collide; pod
names are distinct and need no JSON escapes; a Galera cluster asks for at least one replica; a
digest's fields contain neither `|` nor a line break; calendar windows are unbroken stretches
of time; where a content resolver decides, rows reach an instance only through its WAL and a
longer WAL takes none of the compared rows away (`Authority.WALBringsRows`); no helper of an
earlier job can still work when a job or a breaker run starts.

## Model

| member | source | states |
|---|---|---|
| `Lineage.FindCommonPrefix` | src/engine/triage/cnpg_authority.go:167-178 | the longest common prefix of two switch chains: equal up to k, different (or exhausted) at k |
| `Lineage.RelateFlips` | src/engine/triage/cnpg_authority.go:180-281 | swapping the two instances flips the answer and keeps the fork LSN, for all inputs, well-formed or not |
| `Lineage.ContainsIff` | src/engine/triage/cnpg_authority.go:180-281 | reference definition: of two well-formed instances, b's WAL is a subset of a's iff b wrote nothing past the point where their histories really part |
| `Lineage.RelateSound` | src/engine/triage/cnpg_authority.go:185-231 | "dominates" implies the dominated instance's WAL is a subset; "equal" implies equal WAL |
| `Lineage.DivergenceIsGenuineIff` | src/engine/triage/cnpg_authority.go:197-231 | a reported divergence means each side holds WAL the other lacks exactly when both checkpoints lie past the true fork |
| `Lineage.RelateIsExactOnOneLine` | src/engine/triage/cnpg_authority.go:197-263 | when one chain is a beginning of the other and its instance is on the timeline the other left: divergence exactly when each side holds WAL of its own, reported at the true fork; dominance and equality exactly by the WAL held, the longer chain leading among equals |
| `Lineage.RelateElsewhere` | src/engine/triage/cnpg_authority.go:197-231 | otherwise the answer is divergence, except after a fork when one side stopped at the last switch both took; then dominance and equality are again by the WAL held |
| `Lineage.ExtensionDivergenceIsGenuine` | src/engine/triage/cnpg_authority.go:238-263 | in the extension case with a matching parent timeline, divergence is always genuine |
| `Lineage.DivergenceCanBeSpurious` | src/engine/triage/cnpg_authority.go:216-231 | concrete pair: a pure ancestor reported as diverged after a fork with no agreed switch |
| `Lineage.EqualNeedsWellFormed` | src/engine/triage/cnpg_authority.go:216-231 | concrete ill-formed pair for which "equal" is not equal WAL |
| `Lineage.DominanceRaisesRank` | src/engine/triage/cnpg_authority.go:185-263 | dominance strictly raises (checkpoint, chain length), so it is acyclic |
| `Authority.PickLeader` | src/engine/triage/cnpg_authority.go:403-414 | the best of the candidates under the order of which `Authority.PrecedenceIs` and the next rows say what it means |
| `Authority.DetermineAuthority` | src/engine/triage/cnpg_authority.go:285-398 | the decision is the one the readable instances determine: blockers, divergences with their forks, or an undominated leader |
| `Authority.PlayAll` | src/engine/triage/cnpg_authority.go:327-372 | after the nested loops a loss count is zero exactly at the undominated instances, and every diverging pair and nothing else is listed |
| `Authority.ElectLeader` | src/engine/triage/cnpg_authority.go:374-398 | a leader is elected exactly when someone is undominated |
| `Authority.LeaderIff` | src/engine/triage/cnpg_authority.go:374-414 | with everything read and nothing diverging a leader is elected iff some readable instance is dominated by none, and it is, of those, the primary if one of them is, else the furthest checkpoint, else the least name |
| `Authority.DivergedIff` | src/engine/triage/cnpg_authority.go:299-371 | the decision is "diverged" iff nothing is unread and two readable instances diverge |
| `Authority.UnbeatenPrimaryLeads` | src/engine/triage/cnpg_authority.go:374-414 | the only instance that is primary is elected unless some readable instance dominates it |
| `Authority.FurthestUnbeatenLeads` | src/engine/triage/cnpg_authority.go:403-414 | with every primary dominated, the leader is dominated by none and has the largest checkpoint of those, then the least name |
| `Authority.LeaderHoldsEveryExtent` | src/engine/triage/cnpg_authority.go:285-398 | without divergence the leader holds all rows of every readable instance, for any row order that WAL containment between collected instances implies and any comparator that is sound for it where it is asked |
| `Authority.LeaderHoldsAllWAL` | src/engine/triage/cnpg_authority.go:285-398 | without a comparator: the leader's WAL contains every readable instance's WAL |
| `Authority.OnlyUnreadInstancesBlock` | src/engine/triage/cnpg_authority.go:299-398 | the "no instance dominates" branch is unreachable, with a comparator that is strict where it is asked too: only unread instances make the decision undeterminable |
| `Authority.LineageAlwaysElects` | src/engine/triage/cnpg_authority.go:299-398 | by lineage alone the decision is determinable iff nothing is unread |
| `Authority.VerdictIgnoresOrder` | src/engine/triage/cnpg_authority.go:285-414 | determinability, divergence and leader are the same under every permutation of the input |
| `History.ParseTimelineHistory` | src/engine/triage/cnpg_authority.go:118-135 | the line loop equals the fold of single-line parses |
| `History.HistoryForTimeline` | src/engine/triage/cnpg_authority.go:144-164 | the selection loop equals the lines between the wanted marker and the next one |
| `History.LSNRoundTrip` | src/engine/triage/cnpg.go:1636-1650 | parsing a printed LSN gives it back as a signed word for every 64-bit LSN, and never turns a non-zero one into zero |
| `History.TimelineRoundTrip` | src/engine/triage/cnpg.go:1652-1662 | parsing a printed timeline id gives it back |
| `History.EntryRoundTrip` | src/engine/triage/cnpg_authority.go:121-133 | a printed history entry parses to exactly its switch point |
| `History.MarkerInjective` | src/engine/triage/cnpg_authority.go:144-150 | file markers of different timelines differ |
| `History.SelectedTrimmed` | src/engine/triage/cnpg_authority.go:144-164 | white space trimmed off the collected blob never changes the lineage read |
| `History.HistoryRoundTrip` | src/engine/triage/cnpg_authority.go:118-164 | from any set of marked history files printed into one blob, the lineage read for timeline n is exactly the chain written to n's file, whatever the other files repeat |
| `Comparison.BuildAuthorityInputs` | src/engine/triage/cnpg.go:780-830 | every collected instance becomes read (with its lineage), proven empty, or unread; a timeline above 1 without history is unread |
| `Comparison.CrossInstanceComparison` | src/engine/triage/cnpg.go:838-904 | the comparison is the projection of a decision over exactly the collected instances |
| `Comparison.AuthorityHoldsEverything` | src/engine/triage/cnpg.go:838-904 | a proven or elected authority was read, and holds all rows of every instance not proven empty; nothing was left unread |
| `Comparison.UnreadBlocksAuthority` | src/engine/triage/cnpg.go:780-904 | any unread instance makes authority undeterminable, unsafe to heal and nameless |
| `Comparison.LineageAloneDecides` | src/engine/triage/cnpg.go:838-904 | by lineage alone authority is undeterminable iff something is unread or nothing holds data |
| `Outcomes.NoneUnreadIff` | src/engine/triage/cnpg.go:780-830 | nothing counts as unread iff of every instance a timeline was read, with its history when it is not the first, or its data directory was seen empty or its volume missing |
| `Outcomes.OutcomeIff` | src/engine/triage/cnpg.go:838-904 | the whole verdict, from who dominates and who diverges: safe to heal from the primary iff nothing is unread, nothing diverges and no readable instance dominates the primary, which was read; another leader iff someone is undominated but not the primary; diverged iff nothing is unread and two readable instances diverge |
| `Comparison.DeriveRecovery` | src/engine/triage/cnpg.go:1843-1885 | the loop computes the projection of which `BreakerRuns.BreakableIff`, `BreakerRuns.DisposableIff` and `BreakerRuns.RecoverySetIff` say what it reports |
| `Comparison.RecoveryOf` | src/engine/triage/cnpg.go:1843-1885 | outside the ambiguous case the authority is the provable primary, the disposable set is not empty and lies inside the recovery set; a deadlock is reported only when the phase reports too little disk space and the primary is down, and then the primary is in the recovery set |
| `HealPlan.BuildUntargetedPlan` | src/engine/repair/plan.go:20-58 | the plan loop equals the fold over the assessments, refused when not safe to heal |
| `HealPlan.PlanTargeted` | src/engine/repair/cnpg.go:150-237 | the guard chain decides exactly the targeted plan |
| `HealPlan.PlanPromotion` | src/engine/repair/cnpg_promote.go:125-180 | the scan and the switch decide the promotion plan of which `ExactPlans.PromotionIff` says when it is made |
| `HealPlan.UntargetedHealLosesNothing` | src/engine/repair/plan.go:20-58 | every target of an unforced plan but the primary is another pod than it, and proven empty or with all its rows on the primary, which was itself read |
| `HealPlan.PrimaryIsTargetIffCorrupt` | src/engine/repair/plan.go:20-58 | the primary itself is a target exactly when its data is reported corrupt |
| `HealPlan.CorruptPrimaryIsTargeted` | src/engine/triage/cnpg.go:1368-1374 | concrete: a corrupt primary that was read is proven the authority and planned to be reseeded |
| `HealPlan.RebuildLosesWALIff` | src/engine/repair/cnpg.go:356-365 | the rebuild clones the live primary: from the triaged one a planned target loses no WAL, from any other instance exactly when it wrote past the point where their histories part |
| `HealPlan.FailoverLosesWAL` | src/engine/repair/cnpg.go:356-365 | a family of triages: after a failover to a trailing member a planned target loses WAL exactly if it was ahead of that member |
| `HealPlan.TargetedHealLosesNothing` | src/engine/repair/cnpg.go:150-237 | an unforced targeted reseed never hits the primary and loses nothing to it |
| `HealPlan.PromotionLosesNothing` | src/engine/repair/cnpg_promote.go:125-180 | every instance that a promotion which overrides no divergence, forced or not, rebuilds loses nothing to the promoted one, and all are in its recovery set |
| `ExactPlans.PromotionByOutcome` | src/engine/repair/cnpg_promote.go:125-180 | whatever is promoted, exactly the other collected instances are rebuilt, and the recovery set is the promoted one and these |
| `ExactPlans.PromotionIff` | src/engine/repair/cnpg_promote.go:125-180 | for every force flag: a promotion that overrides nothing is planned iff its target is the elected leader and not the primary; one that overrides a divergence iff it is forced, nothing is unread and two readable instances diverge |
| `ExactPlans.ElectedPrimaryIsNeverReplaced` | src/engine/repair/cnpg_promote.go:160-166 | while the primary is read, undominated and nothing diverges, no target and no flag gives a promotion |
| `ExactPlans.UntargetedPlanIff` | src/engine/repair/plan.go:20-58 | from the collected data: reseeded are exactly the corrupt, those on an earlier timeline, and those behind on the primary's timeline that do not stream and whose disk is full or whose pod exists without WAL kept; restarted exactly the sound ones on the primary's timeline without a ready pod or with WAL kept |
| `ExactPlans.StreamingIsNeverReseeded` | src/engine/triage/cnpg.go:1274-1288 | a replica that streams on the primary's timeline and is not corrupt is never reseeded, however far its checkpoint is behind |
| `ExactPlans.TargetedPlanIff` | src/engine/repair/cnpg.go:150-237 | an unforced plan for one member is that member's part of the plan for all, if its volume exists; a forced one reseeds it unless it is the primary or the authority of a refused verdict |
| `HealPlan.LineageOnlyHealLosesNoWAL` | src/engine/repair/plan.go:20-58 | by lineage alone: each target but the primary is empty or its WAL is contained in the primary's |
| `HealPlan.UnreadBlocksEveryPlan` | src/engine/repair/cnpg.go:150-237 | one unread instance blocks every unforced heal and every promotion |
| `ContentDiff.CountExtra` | src/engine/triage/cnpg_diff.go:102-115 | one direction of the hash loop counts exactly the copies one side has beyond the other, for every map order |
| `ContentDiff.DiffTable` | src/engine/triage/cnpg_diff.go:102-115 | both missing counts are the sizes of the multiset differences |
| `ContentDiff.RelationFromDivergences` | src/engine/triage/cnpg_diff.go:159-182 | the relation is read off which sides lack rows |
| `ContentDiff.HashesDecideInclusion` | src/engine/triage/cnpg_diff.go:78-115 | with collision-free hashes, hash multisets are included exactly when the row multisets are |
| `ContentDiff.MissingCountsAreExact` | src/engine/triage/cnpg_diff.go:102-115 | row counts differ by aMissing - bMissing; a count is zero iff that side's rows include the other's |
| `ContentDiff.VerdictIsInclusion` | src/engine/triage/cnpg_diff.go:126-182 | equal, contains or crossed exactly as multiset inclusion over all listed tables dictates |
| `ContentDiff.ListMustNameEveryTable` | src/engine/triage/cnpg_diff.go:219-240 | a verdict that a contains b over the listed tables means all of b's data is on a, whatever a holds, exactly when the list names every table in which b has rows |
| `ContentDiff.ListingHidesATable` | src/engine/triage/cnpg_diff.go:219-240 | concrete: the list comes from a, b has a row in a table a lacks, and the verdict is that a contains b |
| `ContentDiff.EqualSigsAgree` | src/engine/triage/cnpg_diff.go:126-156 | the signature shortcut skips a table exactly when its divergence would be empty |
| `ContentDiff.PairwiseDiff.CachedSig` | src/engine/triage/cnpg_diff.go:184-197 | the signature cache only ever holds what the query returns |
| `ContentDiff.PairwiseDiff.CachedHashes` | src/engine/triage/cnpg_diff.go:199-212 | the hash cache only ever holds what the query returns |
| `ContentDiff.PairwiseDiff.CompareTable` | src/engine/triage/cnpg_diff.go:126-156 | one table's divergence is that of a comparison without caches or shortcut |
| `ContentDiff.PairwiseDiff.GenericCompare` | src/engine/triage/cnpg_diff.go:126-156 | an answer is the cache-free answer; there is none only after a failed query or for an absent table |
| `ContentDiff.PairwiseDiff.CompareAll` | src/engine/triage/cnpg_diff.go:219-268 | over any sequence of pairs the caches never change an answer |
| `ContentDiff.DiffComparatorIsFaithful` | src/engine/triage/cnpg_diff.go:242-258 | among the collected instances the diff is a sound, strict and symmetric comparator for row inclusion |
| `ContentDiff.DivergenceStandsIff` | src/engine/triage/cnpg_diff.go:213-258 | a divergence stands iff the two cannot be compared (no connection, no table list, a failed query, a listed table one of them lacks) or each has listed rows the other has not |
| `Witness.VerdictIsSound` | src/engine/triage/cnpg_witness.go:140-171 | containment means the loser's position sequence is a prefix of the winner's, equal means identical sequences, however few cuts are answered |
| `Witness.VerdictIsExact` | src/engine/triage/cnpg_witness.go:140-171 | with every cut answered and positions strictly ascending, the answer decides the prefix order |
| `Witness.DivergenceStandsIff` | src/engine/triage/cnpg_witness.go:140-171 | with every cut answered a divergence stands iff the table is not declared append-only, one side has no fingerprint, or neither row sequence is a prefix of the other |
| `Witness.VerdictFlips` | src/engine/triage/cnpg_witness.go:140-171 | swapping the arguments flips the answer |
| `Witness.DeepContentBase` | src/engine/triage/cnpg_witness_downread.go:44-73 | the precomputed table answers exactly the peers' maxima whose query succeeded, and truthfully |
| `Witness.PartialCutsOnlyWeaken` | src/engine/triage/cnpg_witness_downread.go:56-72 | a partial table in place of on-demand cuts never yields a containment the full cuts do not support |
| `Witness.LazyContentComparator.Compare` | src/engine/triage/cnpg_witness.go:130-137 | fingerprints are collected once, and every answer is the one over that collection |
| `Witness.WitnessIsFaithful` | src/engine/triage/cnpg_witness.go:130-171 | among the collected instances the witness is a sound and symmetric comparator for the prefix order, strict when every cut is answered |
| `ContentAuthority.DiffLeaderHoldsEveryRow` | src/engine/triage/cnpg_authority.go:285-398 | with the table diff as resolver the elected leader has every listed row of every readable instance, also where the diff overruled a WAL divergence |
| `ContentAuthority.DiffSettlesADivergence` | src/engine/triage/cnpg_authority.go:327-398 | a comparable WAL divergence stays diverged exactly when each branch has a listed row the other lacks; otherwise a branch that has them all is elected |
| `ContentAuthority.ChurnIsOverruled` | src/engine/triage/cnpg_authority.go:327-398 | whenever both branches wrote WAL past the fork but one has the other's rows and more, that one is elected, and all assumptions of the diff results hold |
| `ContentAuthority.DiffHealLosesNoRow` | src/engine/repair/plan.go:20-58 | the heal plan after such a verdict: every target but the primary is empty or has all its listed rows on the primary |
| `ContentAuthority.DiffPromotionLosesNoRow` | src/engine/repair/cnpg_promote.go:125-180 | the promotion plan after such a verdict: the promoted instance has all listed rows of every other |
| `ContentAuthority.WitnessLeaderHoldsEveryPrefix` | src/engine/triage/cnpg_authority.go:285-398 | with the witness as resolver every readable instance's witnessed rows are a prefix of the leader's |
| `ContentAuthority.WitnessHealLosesNoRow` | src/engine/repair/plan.go:20-58 | the heal plan after a verdict the witness decided |
| `ContentAuthority.WitnessPromotionLosesNoRow` | src/engine/repair/cnpg_promote.go:125-180 | the promotion plan after a verdict the witness decided |
| `ContentAuthority.LackedRowsWereRemoved` | src/engine/triage/cnpg_authority.go:285-398 | whatever happened to the rows: a listed row the leader elected with the diff lacks is one of an instance whose WAL the leader has; it has every listed row exactly when it has those of the instances behind it |
| `ContentAuthority.RemovedRowsBlockIff` | src/engine/triage/cnpg_authority.go:374-398 | an instance, an ancestor of it and a branch forked from both, all read: the decision is left open exactly when the ancestor has more rows than the branch and the branch more than the instance |
| `ContentAuthority.RemovedRowsBlock` | src/engine/triage/cnpg_authority.go:374-398 | concrete: such instances exist once rows were deleted |
| `Lease.LeaseServer.AcquireClusterLock` | src/engine/cnpgjob/lock.go:37-96 | one attempt against any writes by others: acquired iff the lease read was free and the server state at the write equals the one read (so a create and delete in between go unnoticed when there was none) |
| `Lease.StepKeepsInv` | src/engine/cnpgjob/lock.go:37-152 | every acquire, renew, release, crash or clock step within the timing assumption keeps the invariant |
| `Lease.RunKeepsInv` | src/engine/cnpgjob/lock.go:37-152 | so does every run |
| `Lease.AtMostOneLiveHolder` | src/engine/cnpgjob/lock.go:37-152 | after every interleaving of any number of clients at most one live client holds, and the unexpired lease names it |
| `Lease.RenewalMovesTheExpiry` | src/engine/cnpgjob/lock.go:133-152 | however many in-time steps of others come between its Get, its stamp and its Update, a live holder's renewal lands, and from then on the lease expires its duration after the stamp |
| `Lease.TakeOverWinsIff` | src/engine/cnpgjob/lock.go:60-77 | one attempt on a stored lease takes the lock iff the lease names nobody else, or names its duration and ran out |
| `Lease.TakenForAMinute` | src/engine/cnpgjob/lock.go:103-131 | a lock just taken and not renewed keeps everyone else out for exactly sixty seconds |
| `Lease.CrashedHolderIsTakenOver` | src/engine/cnpgjob/lock.go:60-77 | a lease whose holder is gone can always be taken over by waiting out the expiry and one attempt |
| `Lease.LateDeleteBreaksExclusion` | src/engine/cnpgjob/lock.go:79-95 | for any three clients of any initial state without a lease: a run in which the Delete of a release lands after the expiry lets two of them hold, and the clock step before it is the only one of its steps that is not in time |
| `Lease.ExpiredReleaseLetsTwoIn` | src/engine/cnpgjob/lock.go:79-95 | from any state in which the lease of a releasing client ran out, two others can get in by steps that are all in time |
| `FenceList.ParseJSONStringArray` | src/engine/provider/cnpg.go:101-119 | the byte loop is the fold of the scanner's steps |
| `FenceList.ParseFencedInstances` | src/engine/provider/cnpg.go:87-97 | absent, empty and "[]" annotations fence nobody |
| `FenceList.FencesRoundTrip` | src/engine/provider/cnpg.go:87-119 | the scanner reads back every encoded list of names free of quotes and backslashes |
| `FenceList.FencingIsLocal` | src/engine/cnpgjob/offlinejob.go:306-351 | through the annotation, fencing adds the pod, unfencing removes it, and nobody else's fence changes |
| `FenceList.UnfenceUndoesFence` | src/engine/cnpgjob/offlinejob.go:306-351 | unfence after fence restores the list |
| `OfflineJob.Cluster.Fence` | src/engine/cnpgjob/offlinejob.go:306-324 | the new annotation, on success and after a lost reply |
| `OfflineJob.Cluster.Unfence` | src/engine/cnpgjob/offlinejob.go:328-351 | the new annotation, on success and after a lost reply |
| `OfflineJob.Cluster.SetReconciliationLoop` | src/engine/cnpgjob/offlinejob.go:359-372 | the flag after an applied, refused or ambiguous patch |
| `OfflineJob.Cluster.RestoreReconciliation` | src/engine/cnpgjob/offlinejob.go:286-303 | reconciliation stays off only if all five attempts failed without effect |
| `OfflineJob.Cluster.AcquireVolume` | src/engine/cnpgjob/offlinejob.go:145-196 | success means a look at the helper showed it running or done; giving up means that no look of the whole window was answered with the helper past Pending, a failed or unschedulable helper that a look showed it |
| `OfflineJob.Cluster.AwaitCompletion` | src/engine/cnpgjob/offlinejob.go:206-237 | success means a look showed the helper's command completed; giving up means that no look of the whole window was answered with it at its end |
| `OfflineJob.Cluster.WorkOffline` | src/engine/cnpgjob/offlinejob.go:105-280 | the steps after the fence: whenever the helper works the target is fenced and reconcile is off; it is left alive exactly as its creation and deletion calls say |
| `OfflineJob.Cluster.RunFenced` | src/engine/cnpgjob/offlinejob.go:105-280 | with the deferred restore: who is fenced afterwards, when reconciliation can still be off, and what a helper left behind may do |
| `OfflineJob.Cluster.Run` | src/engine/cnpgjob/offlinejob.go:75-280 | for every pattern of failures and every progress of the helper: it works only on the fenced target; reconcile is off at all its work unless its creation reply was lost or its deletion failed; a helper can still work afterwards exactly when it was left behind that way, runs its own command and did not end by then; reconcile on at exit unless five restores failed; failure leaves the fence, success lifts it iff not KeepFenced and means finished work; other fences survive |
| `OfflineJob.Cluster.SmoothSucceeds` | src/engine/cnpgjob/offlinejob.go:75-280 | when no call fails and every helper succeeds once it exists, none of the reasons a failed job must have applies, so the job does not fail |
| `OfflineJob.OrphanRun` | src/engine/cnpgjob/offlinejob.go:126-143 | concrete: with only the reply of the create lost the job fails with reconcile on and its helper alive, whose next step is work on the volume |
| `OfflineJob.LiveHelperWorks` | src/engine/cnpgjob/offlinejob.go:185-229 | a helper left behind works under whatever setting it finds exactly when it has or gets the volume |
| `GaleraTriage.DeriveEffectiveSeqno` | src/engine/triage/galera.go:1070-1101 | Known iff an authoritative source is positive, then the largest of those; hints only ever fill an unknown position |
| `GaleraTriage.PositionIsLargest` | src/engine/triage/galera.go:397-416 | a position is Known iff grastate, the live status or a valid recover gives a positive one, and is the largest of these |
| `GaleraTriage.HintIsLargest` | src/engine/triage/galera.go:1070-1101 | an unknown position is valued at the largest positive hint of the log and the operator's two records, if there is one |
| `GaleraTriage.BestNodeIsMax` | src/engine/triage/galera.go:422-431 | the most advanced node has the largest Known position |
| `GaleraTriage.CrossInstanceComparison` | src/engine/triage/galera.go:555-713 | for every map order the outcome is the verdict of which `GaleraTriage.VerdictIff` says what it means, and the most advanced node is the first of the largest Known positions |
| `GaleraTriage.ProvableMeans` | src/engine/triage/galera.go:640-713 | provable: one lineage, nobody Known ahead of all primary members, every unread node on the live quorum's lineage |
| `GaleraTriage.VerdictIff` | src/engine/triage/galera.go:555-713 | provable iff the nodes show one lineage, every reported status is Primary, nobody Known is ahead of all primary members, and whoever is not Known is on their lineage; diverged iff everybody is Known and one of the first three fails |
| `GaleraTriage.LostComponentDiverges` | src/engine/triage/galera.go:609-614 | concrete: two nodes of one lineage at one position, one of them non-Primary, diverge |
| `GaleraTriage.StaleUUIDsAreIgnored` | src/engine/triage/galera.go:720-728 | changing UUIDs that a better source hides (on disk under a live status or a recover, in the status under a recover) never changes the verdict |
| `GaleraTriage.HintsNeverDrive` | src/engine/triage/galera.go:397-432 | two states that differ only in hints get the same outcome whenever some node has an authoritative UUID and the state is not hint-sensitive |
| `GaleraTriage.HintsNeverDriveWithKnownPrimaries` | src/engine/triage/galera.go:555-713 | in particular whenever every primary member's position is Known |
| `GaleraTriage.HintsDriveWhenSensitive` | src/engine/triage/galera.go:600-713 | the condition is exact: in every hint-sensitive state a loud operator snapshot turns a refusal into a proof |
| `GaleraTriage.SensitiveStateExists` | src/engine/triage/galera.go:600-713 | a concrete hint-sensitive state |
| `GaleraCandidate.BuildLineageGroups` | src/engine/bootstrap/galera.go:923-956 | for every map order the groups partition exactly the authoritative recovers by lineage, largest first, then furthest |
| `GaleraCandidate.BestRecovered` | src/engine/bootstrap/galera.go:826-866 | the lexicographically greatest (seqno, lastCommitted) of the eligible lineage |
| `GaleraCandidate.SelectCandidate` | src/engine/bootstrap/galera.go:753-889 | unforced: the best node of the first lineage or an abort; forced: the best of all lineages; it aborts iff the leader did not recover and its known position is ahead |
| `GaleraCandidate.MajorityIsLargest` | src/engine/bootstrap/galera.go:923-956 | no lineage has more members than the first, nor as many and a larger seqno |
| `GaleraCandidate.GroupedIff` | src/engine/bootstrap/galera.go:898-902 | a node has a say iff its recover is valid, of a real lineage and at a position from 0 to 10^12; only such a node is ever selected as the best |
| `GaleraBootstrap.Bootstrap.Fence` | src/engine/bootstrap/galera.go:466-508 | suspend, lock, scale down and wait: on success nothing can start a pod and none is left; it stops for remaining pods exactly when the first three calls are done and no list of the window was answered without a pod |
| `GaleraBootstrap.World.WaitPodsTerminated` | src/engine/provider/galera_ops.go:180-199 | reports the pods gone iff one of the lists of the window (60, or a fifth of the timeout) is answered and shows none; otherwise it made all of them |
| `GaleraBootstrap.Bootstrap.RecoverAll` | src/engine/bootstrap/galera.go:510-533 | wsrep_recover only ever runs with no cluster pod around, and the map holds exactly the positions of the nodes whose call was done |
| `GaleraBootstrap.Bootstrap.Choose` | src/engine/bootstrap/galera.go:528-558 | the candidate is the one the recovered positions select, or one of the three refusals has its reason |
| `GaleraBootstrap.Bootstrap.ClearStaleMarks` | src/engine/bootstrap/galera.go:580-600 | if none of its calls failed no other node keeps a mark triage saw; the candidate's is not touched |
| `GaleraBootstrap.Bootstrap.ApplyAuthority` | src/engine/bootstrap/galera.go:602-651 | the pod marked and the pod patched are the candidate; a stop names its call, and what is on the cluster follows from that call's fate |
| `GaleraBootstrap.Bootstrap.Rescue` | src/engine/bootstrap/galera.go:406-440 | one call per raised flag in the order unpatch, unmark, unlock, scale, resume; every field afterwards follows from the fates of these calls and of the one that failed |
| `GaleraBootstrap.RollbackTrail` | src/engine/bootstrap/galera.go:406-440 | a trail extended by a rollback touches authority only before the revival |
| `GaleraBootstrap.Bootstrap.Execute` | src/engine/bootstrap/galera.go:363-656 | with every call done and the pods seen gone in time it commits iff nothing speaks against the selection; a commit is of the candidate the recovered positions select, never of a second lineage of a belly-up cluster unforced; at every stop the rollback's result is given field by field by the fates of its calls; recovers, marks and patches stay on target throughout |
| `GaleraBootstrap.Bootstrap.RestoredIffClean` | src/engine/bootstrap/galera.go:406-440 | a rollback whose calls all took effect leaves nothing behind unless the call that failed took effect at one of five steps; on a cluster that was quiet before, exactly then |
| `GaleraBootstrap.LostLockRun` | src/engine/bootstrap/galera.go:474-484 | concrete: only the reply of the lock call is lost, the whole rollback succeeds, and the lock stays |
| `GaleraBootstrap.Bootstrap.CleanUp` | src/engine/bootstrap/galera.go:658-721 | past the commit the directive survives iff all five withdrawals failed, the lock and the suspension iff their one call failed |
| `GaleraBootstrap.ReadScaledDown` | src/engine/triage/galera.go:1202-1228 | the replica count afterwards by the fates of the scale-down and of the restore; a scale-down whose reply is lost is not restored |
| `GaleraBootstrap.DeepRecover` | src/engine/triage/galera.go:1162-1230 | the fenced read touches no mark or directive, reads only after a list without a pod, reads every position when nothing fails, and leaves lock, replicas and suspension as the fates of the step and of its own restore say |
| `RecoveryProof.HashAssessment` | src/engine/repair/recovery_proof.go:69-99 | the writes to the hash add up to the digest input, line by line |
| `RecoveryProof.AuthorizesClear` | src/engine/repair/recovery_proof.go:51-61 | authorized iff named, disposable and not the authority |
| `RecoveryProof.ValidIff` | src/engine/repair/recovery_proof.go:38-44 | a proof holds only against a triage that gave a result, and is then its digest with an authority, something disposable and a verified escrow |
| `RecoveryProof.DigestForgetsOrder` | src/engine/repair/recovery_proof.go:69-99 | reordering assessments, disposable or recovery set does not change the digest input |
| `RecoveryProof.DigestInputDeterminesState` | src/engine/repair/recovery_proof.go:69-99 | with delimiter-free fields the digest input determines recovery projection, authority status and every instance's standing |
| `RecoveryProof.DriftIsDetected` | src/engine/repair/recovery_proof.go:38-44 | a proof of one snapshot is valid for another iff recovery, authority status and every instance's class, timeline, LSN and primary flag agree (and the other gates hold) |
| `RecoveryProof.SameStateKeepsInstances` | src/engine/repair/recovery_proof.go:78-86 | in particular each instance is found again with the same standing |
| `DeadlockBreaker.SnapshotOf` | src/engine/triage/cnpg.go:745-768 | the triage result handed to the breaker: the disposable pods are collected pods and lie inside the recovery set |
| `DeadlockBreaker.Breaker.DiscoverPVCs` | src/engine/escrow/gate.go:225-250 | exactly the naming rule's claims and the pods' own volumes, each once; refused iff some pod could not be read |
| `DeadlockBreaker.Breaker.Prepare` | src/engine/escrow/gate.go:82-112 | accepted iff the set is not empty, every query answered, fewer than twelve escrows are outstanding and estimate plus reserve fits |
| `DeadlockBreaker.Breaker.Capture` | src/engine/escrow/gate.go:124-133 | success means captured and verified |
| `DeadlockBreaker.Breaker.Gate` | src/engine/escrow/gate.go:146-165 | a destructive operation goes on iff waived, or the five calls are done, the cap is not reached and the space suffices; unless waived, only with a verified escrow |
| `DeadlockBreaker.Breaker.ClearDatadirOffline` | src/engine/repair/cnpg_breaker.go:33-112 | its record is the clear of the pod followed by work on that very pod under its fence; success means the work was finished and the fence lifted |
| `DeadlockBreaker.Breaker.HealInstance` | src/engine/repair/cnpg.go:337-524 | if a fresh read answers with another primary, its record is the rebuild of the pod from that primary (or from the one known before, if its address is not given) followed by work on the pod; otherwise nothing is recorded and no helper works |
| `DeadlockBreaker.Breaker.WaitReady` | src/engine/repair/cnpg.go:510-517 | succeeds iff one of thirty looks shows the pod ready |
| `DeadlockBreaker.Breaker.WaitUnfrozen` | src/engine/repair/cnpg_preassess.go:266-289 | succeeds iff in one of sixty rounds the phase was not read as frozen and the authority was seen ready; a phase that could not be read counts as not frozen, as in the code |
| `DeadlockBreaker.Breaker.EscrowAndProve` | src/engine/repair/cnpg_preassess.go:93-120 | capture, verify, re-triage and persist in that order, stopping at the first failure, with a proof valid for the re-triage; it succeeds iff the four calls do, so the drift check never fires |
| `DeadlockBreaker.Breaker.ClearAndReclone` | src/engine/repair/cnpg_preassess.go:122-161 | steps and work since the proof are a beginning of the plan, each on an authorized pod, and on success the whole plan, each step finished before the next |
| `DeadlockBreaker.Breaker.PreAssess` | src/engine/repair/cnpg_preassess.go:40-165 | for every pattern of failures and every progress of the helpers the record, work included, is a beginning of the one script its first triage allows, and all of it on success; reconcile is off at all work unless the last job left its helper behind; nothing is recorded without a breakable deadlock or on a dry run; nothing is recorded beside a running primary, and with nothing in its way the run gets to the end unless the escrow finds no claim or no room |
| `BreakerScript.NothingIsClearedUnescrowed` | src/engine/repair/cnpg_preassess.go:93-139 | a clear, a rebuild and any helper's work on p comes after a verified escrow holding p's volume and a persisted proof naming p, after the step naming p and under p's fence; p is neither the authority nor, for a rebuild, the live primary |
| `BreakerScript.JobExtends` | src/engine/repair/cnpg_preassess.go:128-159 | one more job after an authorized beginning of the plan: still one, longer by that step, seen through if the helper finished |
| `DeadlockBreaker.BreakingLosesNothing` | src/engine/repair/cnpg_preassess.go:48-63 | what the breaker may clear is another pod than the authority of its first triage, and proven empty or with all its rows there |
| `DeadlockBreaker.AuthorityIsDisposableIffCorrupt` | src/engine/triage/cnpg.go:1368-1374 | the authority is itself listed as disposable exactly when its data is reported corrupt; its clear is then refused |
| `DeadlockBreaker.DriftBetweenTriagesGoesUnnoticed` | src/engine/repair/cnpg_preassess.go:100-114 | whichever instance becomes unreadable between the triages of a breakable deadlock: nothing is breakable any more, the run's proof is valid, and a proof bound to the first triage is not |
| `DeadlockBreaker.UnreadableTriage` | src/engine/triage/cnpg.go:745-904 | that re-triage is one the code computes from what it then collects, under any resolver |
| `BreakerRuns.DeadlockIsBreakable` | src/engine/triage/cnpg.go:745-904 | concrete: a disk-full member left on the old timeline is a breakable deadlock, as the code computes it from the printed control data and history file |
| `BreakerRuns.BreakableIff` | src/engine/triage/cnpg.go:1843-1885 | from the collected data: the breaker may act iff the primary is proven the authority and down, the phase reports too little disk space, and a disk-full replica is on an earlier timeline or the primary is itself corrupt with its disk at 90 percent |
| `BreakerRuns.DisposableIff` | src/engine/triage/cnpg.go:1824-1864 | under a proven authority exactly these are disposable: the corrupt, and of the others that are not it those on an earlier timeline or behind on its timeline, not streaming, not missing, not disk-full and without WAL kept |
| `BreakerRuns.RecoverySetIff` | src/engine/triage/cnpg.go:1869-1877 | to be made reversible are exactly the disposable pods, and the primary when it is down |
| `BreakerRuns.DriftedRun` | src/engine/repair/cnpg_preassess.go:93-136 | a run on that drift: capture, re-triage, a valid proof on record, and the clear begins |
| `BreakerRuns.RecloneLosesWALIff` | src/engine/repair/cnpg.go:356-365 | a disposable instance loses WAL to a re-clone exactly when it wrote past the point where its history and the source's part; from the authority it loses none |
| `BreakerRuns.StrayRun` | src/engine/repair/cnpg.go:345-366 | concrete: a re-clone from a live primary nobody compared with the authority |
| `BreakerRuns.StrayRecloneLosesWAL` | src/engine/repair/cnpg.go:356-365 | in the deadlock above, a promoted third member holds all WAL of the cleared one exactly if it had come as far |
| `Newest.Arrange` | src/restic/forget.go:104-110 | a map read in any order and sorted newest first by an unstable sort: every entry once, times descending |
| `JobRetention.CollectJobs` | src/restic/forget.go:84-103 | the map of groups holds every job seen, with its snapshots in order and the first one's time |
| `JobRetention.GroupByJob` | src/restic/forget.go:84-111 | every job exactly once, with all its snapshots, newest first |
| `JobRetention.TogetherIff` | src/restic/forget.go:84-111 | two snapshots share a group iff they carry one job tag; one without a tag stands under its short id, beside another's tag only if that spells "ungrouped-" and the id |
| `JobRetention.KeepWindows` | src/restic/forget.go:139-188 | one window loop keeps exactly the groups that start one of the first `limit` windows |
| `JobRetention.ApplyGroupRetention` | src/restic/forget.go:117-195 | keep and remove split the list by the retained jobs, each in the list's order |
| `JobRetention.KeepsExactly` | src/restic/forget.go:113-195 | kept iff among the last N or the newest of one of the newest D days, W weeks or M months |
| `JobRetention.SplitConserves` | src/restic/forget.go:187-194 | keep and remove partition the list |
| `JobRetention.KeepIsBounded` | src/restic/forget.go:117-195 | size of keep <= N + D + W + M |
| `JobRetention.RaisingKeepsMore` | src/restic/forget.go:117-195 | raising counts of a policy that is not all zero keeps every copy that was kept and removes none that was not removed |
| `JobRetention.RaisingFromZeroDrops` | src/restic/forget.go:121-125 | from the all-zero policy, which keeps everything, raising a count does drop groups |
| `JobRetention.DaysAreWindows` | src/restic/forget.go:143 | UTC days are unbroken windows, as the window results require |
| `JobRetention.GroupingConserves` | src/restic/forget.go:84-111 | grouping loses and invents no snapshot |
| `JobRetention.RetentionCountsEverySnapshotOnce` | src/restic/forget.go:200-229 | kept and removed snapshots are the listed ones, each once |
| `JobRetention.Repository.ForgetGrouped` | src/restic/forget.go:200-229 | it succeeds iff no call failed; whatever fails, only snapshots of removed groups are gone; on success all of them are and every listed snapshot is counted once |
| `EscrowRetention.GroupEscrows` | src/engine/retention/escrow.go:91-123 | every run exactly once, with all its snapshots, dated by its youngest member, newest first |
| `EscrowRetention.SelectForRelease` | src/engine/retention/escrow.go:140-155 | released and held groups as the two rules say, held plus released equals the total |
| `EscrowRetention.ReleasedIsTail` | src/engine/retention/escrow.go:140-155 | the released groups are a suffix of the newest-first list: exactly those past the last N and not younger than the cutoff |
| `EscrowRetention.ReleaseRespectsTheFloor` | src/engine/retention/escrow.go:113-155 | a released run has no snapshot younger than the cutoff and is not among the last N |
| `EscrowRetention.LaterReleasesMore` | src/engine/retention/escrow.go:140-155 | a later clock releases a superset |
| `EscrowRetention.SecondPruneReleasesNothing` | src/engine/retention/escrow.go:37-86 | after a complete prune, pruning again at the same time releases nothing, whatever order ties come in |
| `EscrowRetention.SnapshotStore.Prune` | src/engine/retention/escrow.go:37-86 | it fails only if the listing did; only snapshots of released runs are deleted, none on a dry run, all of them without a failure |
| `WalPrune.LSNRoundTrip` | src/engine/prunewal/cnpg.go:551-567 | parse after print is the identity on all 64-bit positions |
| `WalPrune.CombineIsSum` | src/engine/prunewal/cnpg.go:566 | with 32-bit halves, shift-or is hi*2^32 + lo |
| `WalPrune.WideLowHalfIsMerged` | src/engine/prunewal/cnpg.go:551-567 | a low half wider than 32 bits is not refused but merged into the high one |
| `WalPrune.RedoDoneIsRead` | src/engine/prunewal/deadlock.go:437-452 | the first "redo done at" position printed in the output is the one read, with or without punctuation behind it |
| `WalPrune.LexIsNumeric` | src/engine/prunewal/cnpg.go:515-518 | upper-case hexadecimal names of equal width compare as text exactly as they compare as numbers |
| `WalPrune.SelectionOfListing` | src/engine/prunewal/cnpg.go:508-523 | the printed listing is read back exactly: every path once, older ones selected, the rest counted |
| `WalPrune.PruneIsNumeric` | src/engine/prunewal/cnpg.go:515-523 | deleted iff listed and numerically below the checkpoint segment, kept iff listed and not below |
| `WalPrune.WalDirectory.DeleteWALOlderThan` | src/engine/prunewal/cnpg.go:501-539 | it succeeds iff the listing and, if anything is older, the removal is done; it deletes exactly the older segments; deleted plus kept equals listed |
| `WalPrune.AssertReplicasCaughtUp` | src/engine/prunewal/cnpg.go:454-496 | unforced it passes iff there is a ready replica, every answer parses and every one is at or past the checkpoint |
| `WalPrune.PrintedAnswersDecide` | src/engine/prunewal/cnpg.go:454-496 | over the positions the replicas print, all are caught up iff each is at the checkpoint's position or past it |
| `WalPrune.SafeToReleaseRecoveredPrimary` | src/engine/prunewal/deadlock.go:227-234 | safe iff some replica is on the same timeline and at least as far |
| `WalPrune.CaughtUpMeansContains` | src/engine/prunewal/deadlock.go:215-234 | on one history, a replica is caught up exactly when it holds all of the recovered instance's WAL |
| `WalPrune.SafeReleaseKeepsTheWAL` | src/engine/prunewal/deadlock.go:215-234 | release is judged safe iff the furthest replica on the recovered primary's timeline holds everything that primary holds, whatever other timelines there are |
| `WalPrune.PromotedHoldsTheWALIff` | src/engine/prunewal/deadlock.go:215-219 | after a safe release the most advanced replica holds everything iff it did not fork away before the recovered primary's end, so always if it is on the primary's timeline |
| `WalPrune.ForkedReplicaMayBeFurthest` | src/engine/prunewal/deadlock.go:215-234 | beside any caught-up replica there may be a further one on a timeline forked earlier that lacks the primary's WAL, and release is still judged safe |

## Left out

- Clocks of several machines: the lease model has one clock; skew between clients counts against the timing assumption.
- Hash functions: md5 and sha256 are parameters assumed free of collisions, never computed.
- Integer widths: positions are unbounded integers except where a 64-bit wrap is written out (LSN parsing, the escrow space check).
- Sorting: Go's `sort` is modelled by insertion, by repeated selection, or by a scan for the best element; instability shows as an arbitrary order of ties.
- Lineage.RelateSound: the converse is not stated because it is false; `Lineage.RelateIsExactOnOneLine` and `Lineage.RelateElsewhere` say exactly which answer is given when.
- OfflineJob.Cluster.Run: a panic inside the job is not modelled; a helper's work is one step from getting the volume to its end, and a Go-driven helper left behind is a sleeping pod that does nothing.
- GaleraBootstrap.Bootstrap.Execute: the gcache loop detection, the removal of galera.cache and the generation-lock staleness check are not part of this model; a recover, a mark and a scale are one call each.
- GaleraBootstrap.Bootstrap.CleanUp: waiting for readiness, clearing the operator's own recovery status and the final re-triage are not part of this model.
- GaleraTriage.CrossInstanceComparison: the text evidence and reasons it also collects are dropped; UUIDs are a datatype, not strings.
- Comparison.CrossInstanceComparison: split-brain details and the reasons for unread instances are dropped; an assessment keeps only the disk-full note.
- RecoveryProof.HashAssessment: of an assessment only the fields the digest prints are kept, and class and reason are enumerations printed as their Go strings.
- DeadlockBreaker.BreakingLosesNothing: it speaks of the authority of the first triage; that the live primary a re-clone streams from is that authority is not checked by the code; `BreakerRuns.RecloneLosesWALIff` says what another source costs.
- DeadlockBreaker.Breaker.PreAssess: the hand-over to promotion preparation, the service account lookup and the operator output are not modelled; escrow references are reduced to the set of volumes captured.
- DeadlockBreaker.Breaker.Prepare: how a provider estimates a capture is a parameter.
- Witness.VerdictIsExact: positions are integers; parsing psql output is not part of this model.
- ContentDiff.PairwiseDiff.CompareAll: the query text, the table listing and decoding of rows are not part of this model.
- JobRetention.ApplyGroupRetention: ISO weeks and months are parameters of which only unbroken windows are required; days are shown to be such windows.
- EscrowRetention.SnapshotStore.Prune: the report on unlabelled snapshots is not modelled; a delete that answers "not found" counts as done.
- WalPrune.WalDirectory.DeleteWALOlderThan: one `rm` of many files is one call, so a half-finished removal is not modelled; history, partial and backup files are not part of the directory.
- WalPrune.PromotedHoldsTheWALIff: that a timeline id fixes its history is a precondition; that the operator promotes the most advanced replica is outside the code.
- Text.TrimSpace: white space beyond Latin-1 is not modelled.
- Kubernetes, restic, psql and exec clients, pod specifications, shell scripts, log scraping, corruption signatures and output formatting: their results are inputs.
- Restore, the controller's reconcile loop, the scheduler, annotation merging, backup dumps, the online Galera bootstrap, disk-expansion advice and command-line handling: they would only add simple members.
