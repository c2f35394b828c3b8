# Keyway, verified model

Keyway discovers which services accept tokens from which issuers, keeps that as a versioned
contract, and answers what a key rotation would break. This project models the parts of it
that compute, as Dafny values, classes and state machines, and proves what they promise:
for every input, every run and, where several goroutines or replicas act at once, every
interleaving.

| area | modules |
|---|---|
| idempotent replay under concurrency | `Coordination`, `IdempotencyProtocol`, `IdempotencyLog`, `IdempotencyAnswers`, `KeyMutex`, `IdempotencyKey` |
| near-duplicate clustering on union-find | `Graphs`, `UnionFinds`, `Similarity`, `Clusters` |
| merging discovered consumers | `Discovery`, `Keyrings`, `MergeIdentity`, `UnnamedRecords`, `StableNames`, `MergeConservation`, `FirstKnown` |
| contract build and canonical hash | `Domain`, `Ordering`, `Canon`, `HashStability`, `ContractBuild`, `BuildStability`, `OrderStability`, `HashMeaning` |
| diff, classification, snapshots | `Diff`, `DiffReplay`, `Severities`, `Acceptance`, `Snapshots` |
| signing keys and their persistence | `LocalKeys`, `KeyLifecycle`, `PersistOrder` |
| blast radius and grace period | `PickupWindow`, `BlastRadius`, `Verdicts` |
| scheduler leadership | `Leadership` |
| attack corpus against the reference verifier | `Jose`, `Oracle`, `AttackCorpus`, `FlawedVerifiers` |

`Prelude` holds small shared definitions. `dafny verify dfyconfig.toml` checks everything.

## How it is modelled

- A Go object whose fields change is a class with those fields; its methods are proved
  against functions on values, and the properties are proved about those functions. What those
  functions mean is told a second time on the records, probes and logs themselves: in
  `IdempotencyAnswers`, `HashMeaning`, `Severities`, `Verdicts`, `FirstKnown` and
  `FlawedVerifiers`.
- Concurrency is a step relation over shared state: one atomic step per critical section,
  any goroutine or replica may move next, and theorems quantify over all runs. `unlock`
  keeps its window between releasing the inner mutex and dropping the reference count; a
  failed ping may leave a session alive; saving may fail.
- `sort.Slice` is not stable, so sorting is a relation: any sorted permutation. What the
  code computes from a sort is proved for all of them.
- Iterating over a Go map visits keys in any order, so a diff is a relation as well.
- SHA-256 is taken as collision-free: a digest identifies the canonical form it was made of.
  Signatures and encodings are symbolic; nobody makes the signatures of a key they lack.
- Times and durations are integers (nanoseconds), ratios are rationals, fresh UUIDs and key
  pairs are parameters.

## Where an intent holds only under a condition

- When a record expires, `Get` deletes it but leaves its key queued, and such stale entries
  count against the cap. A `Put` drops a record although there is room, or drops another than
  the oldest, exactly when it pops while live records are fewer than the cap and the head of
  the queue names one of them or the key being stored (`Coordination.PutIsFifoIff`). That
  deletes a fresh record through an older record's entry exactly when the popped head also
  occurs further back (`Coordination.LosesYoungerIff`). It happens to the key being stored
  (`Coordination.StaleHeadLosesFreshRecord`) and to a key stored again after it expired
  (`Coordination.RequeuedRecordIsLost`), both in runs from a new store of any cap.
- The idempotency key's pre-image is separated by NUL bytes. Among the requests the middleware
  hashes, POSTs with a key header, a request shares its pre-image with no other exactly when
  neither its decoded path nor its body has a NUL (`IdempotencyKey.UnambiguousIffNoNul`).
- One version has one canonical hash exactly when no two different keys of an issuer, issuers,
  consumers or edges tie under the comparators; two keys sharing KID, algorithm and status
  but not material do tie (`HashStability.HashIsDeterminedIff`).
- The canonical hash ignores the order in which a version is listed exactly when, besides,
  issuers that share an ID some edge uses share the URL, and consumers that share one share
  the StableID (`OrderStability.HashIgnoresOrderIff`). The generic connector builds issuers
  without an ID, and two of those fail it (`OrderStability.UnnamedIssuersSplit`).
- An edge derived for a trusted URL is hashed under that URL exactly when nobody supplied an
  issuer for it, or no issuer supplied after the last one for it shares that one's ID
  (`BuildStability.SuppliedEdgeResolvesIff`).
- "No widening event" means "accepts no more" exactly when no list of issuers, audiences or
  algorithms became empty, which reads as a restriction lifted but is reported as narrowed
  (`Acceptance.SilentWideningIff`).
- Additions minus removals of a field are its change in size when lists have no duplicates;
  with duplicates, exactly when shared elements fill equally many positions of both lists
  (`DiffReplay.NetIsGrowthIff`; it fails in `DiffReplay.DuplicatesAreNotCounted`).
- Merging finds the connected components of shared identities exactly when no later record
  bridges two earlier groups (`MergeIdentity.ComponentsIffNothingBridges`).
- Merged records have distinct StableIDs exactly when no input without a StableID, none of
  whose aliases an earlier input has, is followed by another input without one
  (`UnnamedRecords.DistinctIffNoneLost`); of two alone, the second overwrites the first and is
  listed twice (`MergeIdentity.UnnamedRecordIsLost`). No discoverer sends an empty StableID:
  Kubernetes, Istio and Envoy use `StableID`, OIDC clients get `oidc://…`
  (`UnnamedRecords.DiscoveredAreNamed`). Those names tell parties apart when namespaces,
  workload names and gateways hold no slash (`StableNames.SameNameIff`); clusters may, as
  the contexts of a kubeconfig do. A slash in a gateway would confuse two routes
  (`StableNames.SlashesCollide`), but the one gateway in use is called `envoy`.
- A restarted issuer makes a fresh active key before it loads the saved ones. Loading leaves
  one active key exactly when no record saved as active is new and reached, that is, neither
  it nor a new record before it fails to decode (`KeyLifecycle.LoadingKeepsOneIff`); one saved
  active key is enough for two (`KeyLifecycle.RestartLeavesTwoActive`), and what then signs by
  default is the fresh, unsaved key (`KeyLifecycle.RestartSignsWithFreshKey`). A promotion
  repairs it.
- Failing and passing canaries may share an instant, and the sort may list them either way.
  The measured pickup is the worst observed one, whatever the sort does, exactly when there is
  no pickup or a longest one is clean: all canaries at its two instants agree
  (`PickupWindow.MeasuredIsWorstIff`). The same condition decides whether the order of the
  history and later probes can matter.
- Three steps leave the advisory lock with an idle session: a ping that fails although the
  session lives, a lock query that gets through while its reply does not (or a lost one on a
  session that has the lock already), and a `Close` that does not get through or gives back
  one of several locks; no other step does (`Leadership.StrandedIff`). Then nobody is leader
  until that session ends or is handed out again (`Leadership.StrandedLockLeadsNobody`).
- Some verifier gets the whole attack corpus right exactly when no attack is the control token
  in disguise: issuer and audience are none of the values the attacks put there, or a required
  claim overrides them (`AttackCorpus.PassableIff`).
- The reference verifier gets it right exactly under the conditions of
  `AttackCorpus.CorpusIsValidIff`. The tolerated skew must be below one hour less the
  fraction of the second at which the tokens were made, because `nbf` is in whole seconds; an
  hour is not quite enough.

## Model

| member | source | states |
|---|---|---|
| Coordination.MemoryIdempotency.Get | internal/coordination/coordination.go:103-115 | returns the record unless absent or past its deadline; an expired record is deleted from the map but its key stays queued |
| Coordination.MemoryIdempotency.Put | internal/coordination/coordination.go:117-130 | queues a new key once, stores the record with its deadline, and pops queue heads until the cap holds, deleting their records |
| Coordination.PutKeepsWellFormed | internal/coordination/coordination.go:117-130 | every live record stays queued and the queue stays within the cap |
| Coordination.CapIsHard | internal/coordination/coordination.go:96-101 | the store never holds more than `max` records |
| Coordination.GetAfterPut | internal/coordination/coordination.go:103-130 | a Get right after a Put returns the stored record if and only if the deadline has not passed and the Put did not pop a stale entry for its own key |
| Coordination.EvictedIff | internal/coordination/coordination.go:124-128 | a Put deletes a record, its own or another, if and only if it pops and the head of the queue names that key |
| Coordination.LosesYoungerIff | internal/coordination/coordination.go:110-128 | a Put deletes a record through an entry queued for an earlier record of that key if and only if the popped head names a live key, or the one being stored, and occurs again further back |
| Coordination.PutIsFifoIff | internal/coordination/coordination.go:96-128 | a Put drops nothing while there is room and otherwise the oldest record, if and only if it does not pop with live records below the cap and a head naming one of them or the key being stored |
| Coordination.RequeuedRecordIsLost | internal/coordination/coordination.go:110-128 | for every cap from two, so also 4096, a run from a new store: a key stored again after it expired, then enough other keys, and the fresh record is gone with live records below the cap |
| Coordination.StaleHeadLosesFreshRecord | internal/coordination/coordination.go:110-128 | for every cap from one, so also 4096, a run from a new store in which a record is gone right after it was stored |
| Coordination.TightPutIsFifo | internal/coordination/coordination.go:120-128 | without stale queue entries a Put keeps to that order, leaves no stale entry, and its record is found |
| IdempotencyProtocol.StepKeepsLockInv | internal/api/idempotency.go:38-61 | every step of every goroutine keeps: an entry exists iff some goroutine is between increment and decrement, `refs` is their number, all share that lock object, at most one is inside, and no nil lock or double unlock occurs |
| IdempotencyProtocol.ReleaseKeepsLockInv | internal/api/idempotency.go:50-54 | unlock's lookup hits the very lock this goroutine took, which is held and by nobody else |
| IdempotencyProtocol.DropKeepsLockInv | internal/api/idempotency.go:55-60 | the entry is deleted exactly when the last user leaves, though the inner mutex was already released |
| IdempotencyProtocol.OneInside | internal/api/idempotency.go:35-48 | two goroutines inside for one key are the same goroutine |
| IdempotencyLog.LockTableIsSafe | internal/api/idempotency.go:38-61 | in every reachable state no goroutine has crashed and the lock table invariant holds for every key |
| IdempotencyLog.QuiescentTableIsEmpty | internal/api/idempotency.go:55-60 | once every request is finished, the lock table is empty |
| IdempotencyLog.NoDeadlock | internal/api/idempotency.go:38-61 | while a request is unfinished, some request with its key can move |
| IdempotencyLog.MovesAdvance | internal/api/idempotency.go:117-140 | every move of a request brings it closer to its end |
| IdempotencyAnswers.FinishedIsAnswered | internal/api/idempotency.go:108-139 | over all runs, a finished request has had exactly one answer for its key: one replay and no execution, or one execution that ended, whose response was stored if its status was below 500; before that it has had none |
| IdempotencyAnswers.StuckIsAnswered | internal/api/idempotency.go:108-139 | when nothing can move, every request that arrived has been answered so |
| IdempotencyAnswers.EveryRequestIsThere | internal/api/idempotency.go:107-139 | in every run the requests are those that arrived, in order, each with its key, and time is what has passed |
| IdempotencyLog.AtMostOnce | internal/api/idempotency.go:117-139 | under every interleaving, when a handler execution for a key starts, each earlier one for that key has ended and, had it a cacheable response, that was stored and has since been evicted or has expired |
| IdempotencyLog.ReplayIsLatestResponse | internal/api/idempotency.go:108-129 | every replay is, byte for byte, what an execution for its key answered with a status below 500: the latest response stored for it, not removed since and not expired |
| IdempotencyLog.LapseIsExpiry | internal/coordination/coordination.go:110-113 | a record that Get removes was the latest stored one and past its deadline |
| IdempotencyLog.StoreIsBounded | internal/coordination/coordination.go:124-128 | in every reachable state the store holds at most `max` records |
| IdempotencyLog.AbsentMeansRemoved | internal/api/idempotency.go:117-139 | a stored response that is no longer in the store was removed by an eviction or an expiry, its own or a later one |
| IdempotencyLog.PresentMeansStored | internal/api/idempotency.go:133-139 | whatever is in the store for a key was put there by a Put for that key and not removed since |
| KeyMutex.Table.Reference | internal/api/idempotency.go:38-46 | lock's critical section: same object for a known key, a fresh one otherwise, count one higher, other keys untouched |
| KeyMutex.Table.Dereference | internal/api/idempotency.go:55-60 | unlock's last critical section: count one lower, entry gone at zero, other keys untouched |
| KeyMutex.EnterIsReference | internal/api/idempotency.go:38-46 | the protocol's step changes the counts of the lock table exactly as the method does |
| KeyMutex.DropIsDereference | internal/api/idempotency.go:55-60 | likewise for the decrement and deletion |
| IdempotencyKey.PreImageSeparates | internal/api/idempotency.go:145-153 | requests whose key, method and path have no NUL have equal pre-images only if equal |
| IdempotencyKey.UnambiguousIffNoNul | internal/api/idempotency.go:89-153 | among the requests that are hashed, POSTs with a NUL-free key header, one shares its pre-image with no other if and only if neither its path nor its body has a NUL |
| IdempotencyKey.Collision | internal/api/idempotency.go:147-151 | for every hashed request with a NUL in path or body, another hashed request with the same key, another path and another body that has the same pre-image |
| UnionFinds.UnionFind.constructor | bench/measurement/dedup/dedup.go:177-183 | every element starts as its own representative |
| UnionFinds.UnionFind.Find | bench/measurement/dedup/dedup.go:185-191 | terminates, returns the representative, and path halving in place changes nobody's representative |
| UnionFinds.UnionFind.Union | bench/measurement/dedup/dedup.go:193-207 | merges exactly the classes of its two arguments and changes no other element's representative |
| UnionFinds.UnionFind.Link | bench/measurement/dedup/dedup.go:198-206 | hanging one root under another by rank keeps ranks rising towards the root and every root's class at least 2^rank large |
| UnionFinds.HalvingKeepsRoots | bench/measurement/dedup/dedup.go:187 | one halving step keeps the forest and every root |
| UnionFinds.LinkKeepsBalanced | bench/measurement/dedup/dedup.go:198-206 | linking by rank keeps 2^rank within the class size |
| UnionFinds.UnionFind.RankIsLogarithmic | bench/measurement/dedup/dedup.go:193-207 | no rank exceeds the base-two logarithm of the number of elements |
| Similarity.ComputeJaccard | bench/measurement/dedup/dedup.go:56-72 | the counting loop computes shared over united tokens; two empty configs give 1 |
| Similarity.JaccardIsSymmetric | bench/measurement/dedup/dedup.go:54-72 | Jaccard is symmetric |
| Similarity.JaccardRange | bench/measurement/dedup/dedup.go:54-72 | Jaccard lies in [0, 1] and is 1 exactly for equal token sets |
| Similarity.DistanceIsShare | bench/measurement/dedup/dedup.go:54-72 | one minus Jaccard is the share of the united tokens that only one side has |
| Similarity.DistanceIsMetric | bench/measurement/dedup/dedup.go:54-72 | one minus Jaccard is a metric: symmetric, zero exactly at equality, and no detour is shorter |
| Similarity.PrefixesSeparate | bench/measurement/dedup/dedup.go:38-52 | prefixes keep kinds apart: equal token sets if and only if the normalised issuers, audiences, algorithms and claims each agree as sets |
| Clusters.UnionLinked | bench/measurement/dedup/dedup.go:80-87 | after the pair loop, representatives name exactly the connected components of the similarity graph |
| Clusters.ClusterIDs | bench/measurement/dedup/dedup.go:79-101 | two configs get one id if and only if a chain of pairs at or above the threshold links them; ids are 0..k-1 in order of first occurrence |
| Clusters.ClusteringIsUnique | bench/measurement/dedup/dedup.go:74-101 | that description leaves one possible result |
| Clusters.TogetherIffClose | bench/measurement/dedup/dedup.go:74-101 | two configs share a cluster if and only if a chain of configs leads from one to the other, each no farther from the next than the threshold leaves room for; just the threshold is close enough |
| Clusters.DenseIds | bench/measurement/dedup/dedup.go:88-99 | ids in first-occurrence order are exactly 0 up to the number of distinct ones |
| Clusters.CountDistinct | bench/measurement/dedup/dedup.go:165-171 | counts the different ids |
| Clusters.NearDupReport | bench/measurement/dedup/dedup.go:112-121 | for each threshold the number of components, and configs minus that number |
| Clusters.HigherThresholdRefines | bench/measurement/dedup/dedup.go:79-101 | raising the threshold refines the clusters |
| Clusters.CollapsedNeverGrows | bench/measurement/dedup/dedup.go:110-121 | `Collapsed` never grows with the threshold |
| Clusters.LowThresholdIsOneCluster | bench/measurement/dedup/dedup.go:76 | a threshold of 0 or less puts everything in one cluster |
| Clusters.HighThresholdIsSingletons | bench/measurement/dedup/dedup.go:76-77 | a threshold above 1 makes every config its own cluster |
| Clusters.ClusterCountIgnoresOrder | bench/measurement/dedup/dedup.go:79-101 | permuting the input permutes the clusters and keeps their number |
| Discovery.FindTarget | internal/discovery/aggregate.go:43-49 | the record of the first known key among the StableID and then the non-empty aliases in the order given, or none |
| Discovery.AbsorbOne | internal/discovery/aggregate.go:42-64 | one input either founds a record under its StableID or is merged into the record found, whose keys are then registered without re-assigning known ones |
| Discovery.MergeRecords | internal/discovery/aggregate.go:36-69 | the nested loops over all sets compute the registry of the flattened inputs, and list its records in first-seen order |
| Discovery.IndexMesh | internal/discovery/aggregate.go:92-103 | the pair table holds for each (issuer, audience) the last mesh record that has both |
| Discovery.FindFoldTarget | internal/discovery/aggregate.go:111-122 | the search with its two breaks finds the record indexed under the first pair that has one |
| Discovery.FoldTargetIff | internal/discovery/aggregate.go:106-123 | a record is folded away if and only if it is an OIDC record sharing an issuer and an audience with a mesh record, and then into such a record |
| Discovery.FoldTargetIs | internal/discovery/aggregate.go:92-122 | an OIDC record folds into the last mesh record that has the first of its (issuer, audience) pairs that any mesh record has |
| Discovery.FoldAll | internal/discovery/aggregate.go:105-123 | folding in place, one record after the other, and marking exactly the folded ones |
| Discovery.Merge | internal/discovery/aggregate.go:36-71 | the whole of Merge is absorbing all inputs, then folding aliases |
| MergeIdentity.RecordsAreFirstSeen | internal/discovery/aggregate.go:33-37 | with non-empty StableIDs, records have distinct StableIDs in first-seen order and each is named by its first input |
| MergeIdentity.KeysAreConserved | internal/discovery/aggregate.go:53-63 | every input's StableID and aliases are keys of the record it went into, and every key of a record came from one of its inputs |
| MergeIdentity.OneRecordOnlyIfLinked | internal/discovery/aggregate.go:30-33 | two inputs share a record only if a chain of shared identity keys links them |
| MergeIdentity.ComponentsIffNothingBridges | internal/discovery/aggregate.go:43-64 | the records are exactly the connected components of shared keys if and only if no input shares keys with two earlier inputs that nothing before it linked |
| UnnamedRecords.DistinctIffNoneLost | internal/discovery/aggregate.go:43-56 | for any inputs, records have distinct StableIDs if and only if no unnamed input whose aliases nothing before it has is followed by another unnamed one |
| MergeIdentity.UnnamedRecordIsLost | internal/discovery/aggregate.go:43-56 | of two inputs without StableID the second overwrites the first and is listed twice |
| Discovery.StableID | internal/discovery/stableid.go:25-48 | the derived StableID is never empty and never taken for an OIDC client's |
| StableNames.SameNameIff | internal/discovery/stableid.go:17-48 | two parties get one StableID if and only if they are one: the same workload (cluster or `local`, namespace or `default`, service account or else service), route or address; namespaces, workload names and gateways hold no slash |
| StableNames.SlashesCollide | internal/discovery/stableid.go:43-44 | every gateway with a slash in its name shares a StableID with another gateway and route |
| UnnamedRecords.DiscoveredAreNamed | internal/discovery/oidcclient/oidcclient.go:184-205 | inputs named by the discoverers, OIDC clients included, are all named, so none is lost |
| MergeConservation.MergedHas | internal/discovery/aggregate.go:136-169 | merging two records unites issuers, audiences, algorithms, required claims, endpoint URLs and identity keys, takes the larger skew, and is probeable if either is |
| MergeConservation.RecordsHoldTheirInputs | internal/discovery/aggregate.go:58-63 | every record has exactly the facts of the inputs that went into it |
| MergeConservation.FoldingKeepsMesh | internal/discovery/aggregate.go:91-132 | folding drops exactly the OIDC records sharing a pair with a mesh record, keeps the rest in order, and neither drops nor reorders mesh records |
| MergeConservation.SurvivorsGather | internal/discovery/aggregate.go:106-132 | a surviving record has its own facts and those of all records folded into it, nothing else |
| MergeConservation.MergeConserves | internal/discovery/aggregate.go:36-132 | end to end, outputs have distinct StableIDs, every input has a home among them, and each output has exactly the facts of its inputs |
| MergeConservation.NothingLostNothingAdded | internal/discovery/aggregate.go:36-132 | over all outputs together the same facts hold as over all inputs |
| MergeConservation.SkewIsTheLargest | internal/discovery/aggregate.go:155-157 | an output's skew is the largest of its inputs' |
| MergeConservation.OutputsAreConcise | internal/discovery/aggregate.go:209-217 | where no input lists an issuer, audience, algorithm or required claim twice, no output does |
| FirstKnown.OutputSaysFirst | internal/discovery/aggregate.go:136-232 | end to end, an output knows its cache TTL, refresh interval, refresh behaviour, library, JWKS source, name, namespace, team, kind and the endpoint of a URL if and only if one of its sources does, and then as the first of them that does: its own inputs, then those of each record folded into it |
| Ordering.SortIsUnique | internal/contract/hash.go:154-157 | where elements that tie are equal, all sorted permutations are one |
| Ordering.UniqueIffTiesCollapse | internal/contract/hash.go:154-157 | an unstable sort has one outcome if and only if elements that tie are equal |
| Ordering.StringSortIsUnique | internal/contract/hash.go:246-251 | sorting strings has one outcome |
| Canon.Canonicalize | internal/contract/hash.go:120-231 | whatever the sorts do with ties, the result is a canonical form of the version: sorted projections with edges resolved to issuer URL and StableID |
| Canon.Hash | internal/contract/hash.go:120-231 | the digest of one such canonical form |
| HashMeaning.SharesFormIff | internal/contract/hash.go:14-39 | two versions share a canonical form if and only if their issuers, consumers and edges correspond one to one and corresponding ones agree on every field that is not volatile, lists as bags |
| HashMeaning.EqualHashIff | internal/contract/hash.go:14-39 | equal hashes imply that, and where nothing different ties, are the same as that |
| HashStability.NoTiesDetermines | internal/contract/hash.go:154-156 | without ties between different things the canonical form is a function of the version |
| HashStability.HashIsDeterminedIff | internal/contract/hash.go:120-231 | one version, listed one way, has one canonical form whatever the sorts do if and only if no two different keys of an issuer, issuers, consumers or edges tie |
| HashStability.SameKidDifferentKeyIsUnstable | internal/contract/hash.go:157-165 | two keys with one KID, algorithm and status but different material give a version two canonical forms |
| ContractBuild.DeriveGraph | internal/contract/build.go:51-84 | supplied edges are kept; otherwise one issuer is synthesised, with a fresh ID, for each trusted URL nobody supplied, and there is one edge per trust of a non-empty URL |
| BuildStability.DerivedGraphIs | internal/contract/build.go:51-84 | field by field, the record synthesised for each trusted URL nobody supplied; and an edge is derived if and only if it runs from the last issuer with a non-empty URL to a consumer that trusts it, with that consumer's expectations, unverified |
| ContractBuild.Build | internal/contract/build.go:30-47 | a version over that graph under its canonical hash, with the given identity and time |
| BuildStability.BuildIsStable | internal/contract/build.go:25-29 | for well-identified inputs, permuting consumers, issuers, keys, claims, endpoints and lists, changing observations, and drawing other fresh issuer IDs leave the canonical hash the same |
| BuildStability.OneContribution | internal/contract/hash.go:215-221 | how often an edge occurs in the canonical form is how often its one consumer trusts that URL |
| BuildStability.EdgeResolvesIff | internal/contract/hash.go:121-125 | a derived edge is hashed under its URL if and only if no issuer listed after that URL's one has the same ID |
| BuildStability.SuppliedEdgeResolvesIff | internal/contract/build.go:51-65 | for a supplied list and fresh UUIDs: an edge derived for a trusted URL is hashed under it if and only if nobody supplied that URL, or no issuer supplied after the last one for it shares its ID |
| BuildStability.EdgesSeparate | internal/contract/hash.go:222-228 | with distinct StableIDs, edges that tie are equal |
| OrderStability.HashIgnoresOrderIff | internal/contract/hash.go:120-231 | all canonical forms of a version and of all its rearrangements, of issuers, consumers, edges and the lists inside them, are one if and only if nothing different ties, issuers sharing an ID that an edge uses share the URL, and consumers sharing one share the StableID |
| OrderStability.SharedIssuerIDSplits | internal/contract/hash.go:121-125 | an edge used through an issuer ID of two URLs: listing one issuer last shares no canonical form with the version as it was |
| OrderStability.UnnamedIssuersSplit | internal/issuer/generic/generic.go:64-72 | two issuers without ID, as the connector builds them, and an edge to one: in either order nothing ties, and no canonical form is shared |
| Diff.DiffSet | internal/diff/diff.go:104-117 | one addition per new element in the new order, then one removal per lost element in the old order |
| Diff.IndexByStableID | internal/diff/diff.go:119-125 | the last consumer of each StableID |
| Diff.DiffConsumer | internal/diff/diff.go:66-101 | audiences, issuers, algorithms, required claims, skew and JWKS behaviour, in that order; what was unknown on a side is not compared |
| Diff.Compute | internal/diff/diff.go:19-62 | in whatever order the maps are visited, each StableID gets exactly its own events, in their own order: removed, added, or changed |
| Diff.IndexKeys | internal/diff/diff.go:119-125 | a StableID is indexed if and only if some consumer has it, and under it is a consumer that has it |
| Severities.RefreshIs | internal/diff/diff.go:81-91 | of any diff, a surviving consumer that stops refreshing on an unknown key has one event for it, narrowed and high, one that starts has one, widened and low, and learning the value is no event; with the confidence and evidence of the field, and unknown below the floor |
| Severities.TTLIs | internal/diff/diff.go:93-100 | likewise for the cache TTL: longer is narrowed and medium, shorter narrowed and low |
| Severities.SkewIs | internal/diff/diff.go:72-78 | likewise for the skew: more is widened and medium, less narrowed and low |
| Severities.WholeConsumerIs | internal/diff/diff.go:43-59 | a consumer that appears or disappears has one event, neutral and low, and one that is in neither version has none |
| Severities.ListsAre | internal/diff/classify.go:52-79 | one event per new and per lost element of each list, in order: audiences widened and medium, issuers widened and high, algorithms widened and medium but "none" critical, required claims narrowed and low; losing one narrowed and low, but a required claim widened and critical |
| Severities.CriticalIff | internal/diff/classify.go:64-79 | a surviving consumer has a critical event if and only if, on evidence at or above the floor, it newly allows the algorithm "none" or no longer requires some claim |
| Severities.HighIff | internal/diff/classify.go:58-92 | it has a high one if and only if, likewise, it newly trusts an issuer or stopped refreshing on an unknown key |
| DiffReplay.ReplaySetEvents | internal/diff/diff.go:103-117 | the events of one list turn its old elements into its new ones |
| DiffReplay.ReplayConsumer | internal/diff/diff.go:66-101 | replaying a consumer's events over its old issuers, audiences, algorithms, required claims and skew gives exactly the new ones |
| DiffReplay.DiffReplays | internal/diff/diff.go:19-62 | the events of a whole diff, replayed for a surviving consumer, give its new expectations |
| DiffReplay.NetOfConsumer | internal/diff/diff.go:103-117 | for duplicate-free lists, additions minus removals of a field are its change in size |
| DiffReplay.NetIsGrowthIff | internal/diff/diff.go:107-116 | for any lists, duplicates or not, additions minus removals are the change in size if and only if the elements both lists have fill equally many positions of each |
| DiffReplay.DuplicatesAreNotCounted | internal/diff/diff.go:107-116 | an element listed twice and then once: no event although the list shrank |
| DiffReplay.EqualHashNothingExpected | internal/contract/version.go:65-70 | versions sharing a canonical form, with distinct StableIDs, have nothing to report for anybody |
| DiffReplay.EqualHashNoEvents | internal/contract/version.go:65-73 | for such versions the empty diff is a diff and the only one, so the equal-hash shortcut loses nothing |
| Acceptance.ClassesMirrorLists | internal/diff/classify.go:51-86 | with enough confidence, a widened event is emitted if and only if a list or the skew grew in the accepting direction, and dually for narrowed |
| Acceptance.SilentWideningIff | internal/diff/classify.go:45-85 | with enough confidence and no widened event, the new expectations accept no token the old ones reject, if and only if no issuer, audience or algorithm list became empty |
| Acceptance.SilentNarrowingIff | internal/diff/classify.go:45-85 | the dual: with no narrowed event nothing that was accepted is rejected now, under the dual condition |
| Acceptance.NewTokenIsReported | internal/diff/diff.go:66-117 | a token accepted now and not before, where no list became empty, leaves a widened event for that consumer in the diff |
| Acceptance.NewTokenLeavesATrace | internal/diff/classify.go:46-49 | whatever the confidence, it leaves a widened or an unknown event |
| Acceptance.EmptiedAcceptsMore | internal/attack/oracle.go:77-86 | a list that became empty lifts a restriction: some token is accepted now and was not before |
| Snapshots.Store.SaveContractVersion | internal/store/memory/memory.go:34-45 | stores under the ID, appends a new ID to the order, and fixes the first baseline |
| Snapshots.Store.LatestVersion | internal/store/memory/memory.go:56-63 | the version saved last, if any |
| Snapshots.Store.BaselineVersion | internal/store/memory/memory.go:65-72 | the baseline, if any |
| Snapshots.Store.SaveChangeEvents | internal/store/memory/memory.go:74-79 | appends to the log |
| Snapshots.AttributeEvents | internal/contract/version.go:91-99 | fills attributions in place and changes nothing else of an event |
| Snapshots.AttributionIs | internal/contract/version.go:91-99 | an event is attributed if and only if the attributor answers something other than unattributed, as it answers, and nothing else of it changes |
| Snapshots.SnapshotWithAttribution | internal/contract/version.go:44-86 | baseline first and silent; same hash, no events; otherwise version and attributed diff |
| Snapshots.RunHolds | internal/contract/version.go:44-86 | after any sequential run the store holds the versions in order, marks the first alone as baseline, and its log is the concatenation of all results' events |
| Snapshots.RunLogsAllDiffs | internal/contract/version.go:27-36 | one baseline, the first save, with no events; every later save logs the diff of consecutive versions, also where the hash shortcut was taken |
| Snapshots.LogReconstructs | internal/contract/version.go:73-84 | folding the stored log over the baseline gives the current expectations of every consumer present throughout |
| Snapshots.LogConserves | internal/contract/version.go:73-84 | over a run, the log's additions minus removals for a list are its growth since the baseline |
| LocalKeys.KeySet.Generate | internal/issuer/localkeys/keyset.go:46-78 | appends a key in the given status, in use since now if active, and notifies; an unsupported algorithm changes nothing |
| LocalKeys.KeySet.Sign | internal/issuer/localkeys/keyset.go:83-95 | for a named key, succeeds if and only if some key has that ID, retired or not, with the first such key's material, ID and algorithm; without a name, likewise for the first active key |
| LocalKeys.KeySet.Promote | internal/issuer/localkeys/keyset.go:116-134 | the first key with that ID becomes active and in use since now, every other active key retiring, no other status or timestamp changes, and it notifies; an unknown key changes nothing |
| LocalKeys.KeySet.Retire | internal/issuer/localkeys/keyset.go:137-150 | the first key with that ID becomes retired since now, nothing else about any key changes, and it notifies; an unknown key changes nothing |
| LocalKeys.KeySet.JWKS | internal/issuer/localkeys/keyset.go:186-202 | publishes the public parts of all keys that are not retired, in order |
| LocalKeys.KeySet.Export | internal/issuer/localkeys/persist.go:46-66 | one serialised record per key, in order |
| LocalKeys.KeySet.Import | internal/issuer/localkeys/persist.go:71-98 | appends unknown keys in order, stops at the first new one that does not decode, and does not notify |
| LocalKeys.KeySet.SetOnChange | internal/issuer/localkeys/persist.go:27-31 | sets the hook and touches nothing else |
| LocalKeys.KeySet.Notify | internal/issuer/localkeys/persist.go:36-43 | the hook, if set, gets exactly the current keys |
| LocalKeys.KeySet.ActiveKID | internal/issuer/localkeys/keyset.go:163-164 | the ID of the first active key, or nothing |
| KeyLifecycle.RunKeepsUnique | internal/issuer/localkeys/keyset.go:61-76 | key IDs stay unique in every run of create, announce, promote, retire and load, when generated IDs are fresh |
| KeyLifecycle.PromoteLeavesOneActive | internal/issuer/localkeys/keyset.go:114-134 | a successful promotion leaves exactly the promoted key active, however many were, and it is the default signer |
| KeyLifecycle.AtMostOneSigns | internal/issuer/generic/generic.go:51-92 | from creation on, whatever is announced, promoted or retired, at most one key is active |
| KeyLifecycle.LoadAddsExactly | internal/issuer/localkeys/persist.go:71-98 | a load appends exactly the records that are new to the set and to the file so far and come no later than the first such one that does not decode, that one excluded |
| KeyLifecycle.LoadingKeepsOneIff | internal/issuerregistry/registry.go:71-80 | loading into a set with one active key leaves at most one active if and only if no record that loads in that sense was saved as active |
| KeyLifecycle.RestartLeavesTwoActive | internal/issuerregistry/registry.go:71-80 | a fresh key set that loads one saved active key has two active keys |
| KeyLifecycle.RestartSignsWithFreshKey | internal/issuerregistry/registry.go:71-80 | after a restart the default signer is the fresh key, which is none of the saved ones |
| KeyLifecycle.PublishedUnlessWithdrawn | internal/issuer/localkeys/keyset.go:184-202 | after any run a key is in the published set if and only if the last promotion or retirement naming it, if any, is not a retirement |
| KeyLifecycle.MintedKeyStaysPublished | internal/issuer/localkeys/keyset.go:80-92 | the key that signs by default stays in every later published set until it is retired |
| KeyLifecycle.ImportIsIdempotent | internal/issuer/localkeys/persist.go:68-70 | importing the same records again changes nothing and reports the same, also after a failure |
| KeyLifecycle.ExportRestores | internal/issuer/localkeys/persist.go:46-98 | importing an export into an empty set restores the keys in full and in order if and only if no two share an ID |
| PersistOrder.StepKeepsInv | internal/issuer/localkeys/persist.go:32-43 | every critical section of every call keeps: one holder of the persist lock, a snapshot in hand is no older than any saved one and includes its call's mutation, and every newer mutation is still owed by a call |
| PersistOrder.SavesNeverGoBack | internal/issuer/localkeys/persist.go:32-43 | in every interleaving the sink gets snapshots in mutation order, each the key set as of its number |
| PersistOrder.ReturnedIsSaved | internal/issuer/localkeys/keyset.go:131-133 | a mutation whose call has returned has been handed to the sink, by it or by a later call |
| PersistOrder.QuiescentIsSaved | internal/issuer/localkeys/persist.go:32-43 | whenever no call is pending, the last snapshot is the key set in memory, and loading it into an empty set restores it |
| PersistOrder.NoDeadlock | internal/issuer/localkeys/persist.go:32-43 | while a call is pending, some pending call can move |
| PickupWindow.MeasuredWindow | internal/blastradius/query.go:297-334 | for some order of ties, the largest gap from a failing canary to the passing one right after it; none if there is none |
| PickupWindow.MeasuredCoversIff | internal/blastradius/query.go:290-334 | whatever the sort does with ties, the measured window is at least `d` if and only if some clean pickup took that long: largest gaps count only if all fresh canaries at both instants agree |
| PickupWindow.MeasuredIsWorstIff | internal/blastradius/query.go:290-334 | whatever the sort does, it is the worst observed pickup, the largest gap between a failing and a later passing fresh canary with none in between, if and only if there is no pickup or a longest one is clean |
| PickupWindow.MeasuredAtMostIff | internal/blastradius/query.go:290-334 | no measurement of one history exceeds one of another if and only if every pickup of the first is matched by a clean pickup of the second that took as long |
| PickupWindow.OrderDoesNotMatterIff | internal/blastradius/query.go:298-309 | histories with the same probes in another order are all measured alike if and only if there is no pickup or a longest one is clean |
| PickupWindow.LaterProbesNeverShrinkIff | internal/blastradius/query.go:311-316 | later probes, whatever they are, never make the window smaller if and only if the same holds; for given later probes, if and only if clean pickups of both together match those so far |
| PickupWindow.MixedTieMatters | internal/blastradius/query.go:309 | inputs that fail it: a failing and a passing canary at one instant for which the sort decides between no window and a window |
| BlastRadius.GracePeriod | internal/blastradius/graceperiod.go:16-31 | the least period between an hour and thirty days that gives every window one and a half times its length, up to the ceiling |
| BlastRadius.GraceGrows | internal/blastradius/graceperiod.go:12-15 | more windows never shorten the period |
| BlastRadius.FreshCanary | internal/blastradius/query.go:336-351 | the latest canary no older than a day; of several at that instant the first recorded |
| BlastRadius.FreshestIsUnique | internal/blastradius/query.go:336-351 | that description leaves one possible result |
| BlastRadius.JudgeOne | internal/blastradius/query.go:144-196 | verdict, reason, evidence, confidence and window of one consumer by the four sources of evidence in order |
| BlastRadius.ResolveRotateKey | internal/blastradius/query.go:138-199 | verdicts, undecided consumers and windows of exactly the consumers that trust the issuer, in order |
| BlastRadius.GraceBasis | internal/blastradius/query.go:99-114 | the basis names a consumer with the longest positive window, an observed one if any observed window is that long |
| BlastRadius.Resolve | internal/blastradius/query.go:71-119 | the answer for rotating or retiring a key: no recommendation without a window, otherwise the grace period of all windows with its basis |
| BlastRadius.UsersAre | internal/blastradius/query.go:144-147 | exactly the consumers that trust the issuer are judged; an issuer without URL has none |
| BlastRadius.OneVerdictEach | internal/blastradius/query.go:144-197 | each consumer of the issuer gets exactly one verdict, and is listed as unknown if and only if that is its verdict |
| Verdicts.AnswerIsRight | internal/blastradius/query.go:71-197 | every answer about a key, in terms of probes and consumer fields: it judges exactly the consumers that trust the issuer, in order; a consumer will break if and only if its latest fresh canary failed, or it has none and is known not to refresh; it is ready if and only if that canary passed, or it has none, is not known not to refresh and its TTL is known; otherwise unknown; with reason, evidence, confidence and the window each case contributes, and the least period and its basis from those windows |
| BlastRadius.GraceCoversWindows | internal/blastradius/query.go:96-116 | the recommendation lies in [1 h, 30 d] and covers one and a half times every ready consumer's window, up to 30 d |
| BlastRadius.GraceCoversClean | internal/blastradius/query.go:290-334 | end to end, the recommendation covers one and a half times every clean pickup in the fresh history of a consumer whose latest canary passed, up to 30 d |
| BlastRadius.GraceCoversObservedPickups | internal/blastradius/query.go:290-334 | and every pickup at all when the longest one is clean |
| Leadership.PgLeader.IsLeader | internal/coordination/postgres.go:101-127 | true only with a live session in `conn` that owns the lock, for every outcome of ping, pool and query |
| Leadership.PgLeader.Close | internal/coordination/postgres.go:128-140 | gives the lock back once if the query gets through, and lets the session go |
| Leadership.RunKeepsInv | internal/coordination/postgres.go:101-140 | for any replicas and any interleaving of their calls with session deaths, a live session held in `conn` owns the lock |
| Leadership.OneLiveLeader | internal/coordination/postgres.go:89-92 | in every reachable state at most one replica holds a live session |
| Leadership.NeverTwoLeaders | internal/coordination/postgres.go:101-140 | two replicas are never both told that they lead unless in between the first closed or one of its sessions died |
| Leadership.TryGrantsIff | internal/coordination/postgres.go:108-126 | a contender with a session is told that it leads if and only if the session lives, the reply arrives, and the lock is free or the session's own |
| Leadership.FreeLockCanBeTaken | internal/coordination/postgres.go:101-127 | while the lock is free, any replica that asks can become the leader |
| Leadership.StrandedIff | internal/coordination/postgres.go:101-140 | in every state that can arise, exactly which steps leave the lock with an idle session, and which free it: for a failed ping, a lost lock reply and a `Close`, the condition on session and lock |
| Leadership.LostPingStrandsTheLock | internal/coordination/postgres.go:106-114 | in any run, a failed ping leaves the lock with an idle session if and only if the session it gave up on is alive |
| Leadership.StrandedLockLeadsNobody | internal/coordination/postgres.go:115-127 | from then on nobody is told that it leads until that session ends or is handed out again |
| Jose.TamperSignature | internal/attack/token.go:53-68 | flips the last byte of a non-empty signature and nothing else; anything but three parts with a decodable signature is an error |
| Oracle.AcceptsOnlySigned | internal/attack/oracle.go:33-54 | whatever the header carries, an accepted token is an RS256 token of three parts signed by the trusted key over claims that are valid |
| Oracle.AcceptsIff | internal/attack/oracle.go:33-97 | a token is accepted if and only if it has three well-encoded parts, names RS256, is signed by the trusted key, has not expired, has started, comes from the issuer for the audience, and has every required claim, not null and not empty |
| AttackCorpus.MakeBaseClaims | internal/attack/generators.go:25-38 | the registered claims, overridden by every required claim |
| AttackCorpus.OnlyTheControlIsGood | internal/attack/generators.go:52-191 | the control comes first and is the one token of the corpus to accept |
| AttackCorpus.AttacksDifferIff | internal/attack/generators.go:141-191 | every attack differs from the control, whatever keys and signature schemes, if and only if the issuer is not the attack's issuer and the audience none of the three attack audiences, or required claims override them |
| AttackCorpus.PassableIff | internal/attack/harness.go:60-63 | some verifier, however it works, leaves no finding if and only if that holds |
| AttackCorpus.Evaluate | internal/attack/harness.go:64-76 | the tokens judged otherwise than wanted, in order, or the first error |
| AttackCorpus.NoFindingsIff | internal/attack/harness.go:60-63 | no findings if and only if every token is judged as wanted |
| AttackCorpus.ForgeriesFail | internal/attack/generators.go:94-138 | any verifier that pins algorithm and key rejects every forged or tampered token |
| AttackCorpus.EncodingAttacksFail | internal/attack/generators.go:210-237 | a fourth part or a padded part is rejected |
| AttackCorpus.BaseIsValidIff | internal/attack/generators.go:25-38 | the control's claims are valid if and only if the required claims leave `exp` alone and do not spoil issuer or audience, and the skew is not too negative |
| AttackCorpus.ClaimAttacksFailIff | internal/attack/generators.go:140-164 | given that, all bad-claim tokens are rejected if and only if issuer and audience are set and no attack values and the skew is below an hour less the fraction of the second |
| AttackCorpus.ResourceAttacksFailIff | internal/attack/generators.go:170-185 | tokens bound to another resource or to none are rejected if and only if the audience is set and not one of theirs |
| AttackCorpus.CorpusIsValidIff | internal/attack/harness.go:60-63 | for every context whose policy matches, with unforgeable signatures, the reference verifier leaves no finding if and only if the conditions of the three rows above hold |
| FlawedVerifiers.EveryFlawIsCaught | internal/attack/generators.go:89-191 | whenever the control is valid, a verifier that is right but for the one flaw an attack is made for is caught by that attack: for each of the 21 threats of the corpus |

## Left out

- HTTP handlers, routing, the Postgres stores, Kubernetes, YAML and JSON decoding, notifiers, the web client and the command line: input and output around the parts above.
- In the middleware, pass-through of other methods, the oversized-body answer and the write to the client: the protocol begins where the key is known. A handler is one step with any outcome, including a panic.
- The replay store behind Postgres: only the in-memory store is modelled; Postgres appears as the advisory lock.
- Real cryptography, base64, PEM and JSON encoding: symbolic, as said above; minting through a live issuer is not part of this model, only the local signer is.
- IdempotencyKey.UnambiguousIffNoNul: about the hashed bytes; the digest itself is taken as collision-free, and a header is taken to have no NUL, as net/http ensures.
- dedup's `Signature`, `joinNorm` and the string normalisers: the normalisers are parameters, as what they do inside strings is library behaviour; `Signature` would add an easy member.
- Floating point: Jaccard, confidence and the margin of 1.5 are exact; claims are integers although the verifier reads them as floats.
- Integer widths: durations and counters are unbounded, so overflow of nanoseconds in an int64 is not modelled.
- Event IDs, detection times and the severity of attributed events beyond what classification gives: volatile.
- Sharing of maps between merged records: provenance and confidence are values here, while the original adds to the first record's map in place.
- Pointers inside the key set: managed keys are values in the set's list; no pointer to one leaves the set in the original.
- Concurrent snapshots: the code does not serialise them; runs are sequential.
- `Resolve` for removed claims, changed issuers and dropped algorithms: three filters that would add easy members.
- The live probe engine, agent authentication, threat catalogue and coverage, scorecards and drift totals.
