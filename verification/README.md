# Fuzzy fingerprint matching: a verified model

This project models the fuzzy device-matching store of the repository and proves what its
documentation and comments promise about it. Sources are cited by path and line in each row below.

**The store** (`Engine`, `FuzzyStore`). A store is a record library, a blocking index, a frequency
table, an agreement table and a velocity table. A probe is recalled through an inverted index of
blocking keys, scored against each recalled template with Fellegi-Sunter weights, and judged against
two thresholds. A match learns and drifts its template, a new device is stored under an id derived
from the probe, a review changes nothing. `Engine` states this as a state machine on values;
`FuzzyStores.FuzzyStore` is the aggregate of five imperative backend classes, and each of its methods
is proved to take exactly the step of that machine.

**Its parts.** `Component` and `Canonical` hold stored values and the byte encodings behind keys,
`OddAffine` and `MinHash` the set bands, `BlockingKeys` the key families, `Blocking`, `Records`,
`Frequency`, `Agreement` and `Velocity` the backends, `Scoring`, `Estimators` and `Ranking` the score,
the estimates, the confidence and the sort.

**One verdict.** `Verdicts` says what every field of an outcome means in terms of the recalled candidates,
what is compared, and what an observation and a match teach. `Scores` says what a score is made of, from the
stored values alone, and how learning moves the scores that follow.

**Over whole runs.** `Recalls` says who is recalled and `Signals` which velocity bands are given, in terms
of the run that led there. `Templates` says what a template consists of and that reviews and bare scorings
leave no trace. `Purging` compares the store, which leaves stale index entries behind, with one that
scrubs them. `Counterexamples` gives possible runs, built from the steps of `Scenarios`, after which a
claim about the store fails. `Serializability` splits every locked operation into its backend steps and interleaves
any number of threads with lock-free readers.

**The edge.** `EdgeStore` is the two-table form of library and index, compared with the native store
event by event; `EdgeScoring` rebuilds a throw-away store from the recalled candidates and scores the
probe against it; `NonceObject` and `VelocityObject` are the durable objects with their alarms, compared
with `Nonces` and `Velocity`.

**Around the store.** `Nonces` is the native nonce store, with the order in which a request spends its nonce
and reaches the matcher; `Handlers` is the service object that answers `/challenge`, `/identify` and `/visitor` requests
with that store and the matcher; `Eval` is the offline evaluation harness.

**Conventions.** Time is a natural number; a clock that does not go backwards is a hypothesis where a
result needs it. Scores are reals or minus infinity. The salted hash, the digest, the derived id, the
text of a number, `log2` and the logistic function are parameters; results that need them injective,
monotone or of a known value say so in `requires` (`CollisionFree`, `LeadingInjective`, `Lawful`). The
order in which a hash set is walked and the choice among equally old records are parameters of a step,
so results hold for every such choice. Strings stand for their UTF-8 bytes, one character per byte.

## Where the code and its comments differ

- That stale block entries change no decision (`mod.rs`, `purge_expired`) is true of one evaluation
  (`PurgingIsInvisible`). Over runs it fails in two ways: a stale entry of an id minted again is recalled
  (`StaleEntryDecides`), and stale entries fill a block so that a live visitor is not (`StaleEntriesCrowdOut`).
  A run stays in step with the store that scrubs exactly when no step revives a stale entry of its visitor
  outside its keys and no key without room has a stale entry in its block (`RunsStayInStep`).
- Keys come from single observations, not from templates, so a probe equal to a live template may recall
  nobody (`DriftedProbeEscapes`). It recalls its visitor exactly if some observation behind the template has the
  template's identity and not every key they share was full (`TemplateRecalledIffAlike`); `DriftedSharesKey`
  says when the last observation has it.
- Probes with byte-identical scalars are said to recall each other always. Through the catch-all key they do
  exactly if there are scalars and the key had room when one of them was observed (`ScalarTwins`); a full block
  breaks it (`StaleEntriesCrowdOut`), and so does a probe without scalars (`SecondEmptyProbeRemints`).
- The edge merge is said to mirror `RecordStore::observe`. It does exactly when no unstorable value hides
  a stored component (`MergesAgree`, `NullHides`); on a new-device verdict for a live id the edge replaces
  where native overlays (`ReplacementAgrees`).
- A new device is said to get a freshly minted id, but the id is derived from the probe and may be live
  already (`SecondEmptyProbeRemints`). It is exactly when a live record was created by the same probe
  (`RemintsIffCreatedBySame`); the observation is then merged (`RemintedOnlyByTheSameProbe`).
- The edge's distinct count of minted ids is said to equal the native event count. It does exactly when no id
  repeats among the events native still counts and none is in its last second (`EdgeAgainstNative`); an id minted
  twice counts once on the edge (`RemintCountsOnceOnEdge`, `RepeatCounted`).
- At the expiry instant itself a nonce is refused natively and accepted on the edge (`BackendsAgree`).
- `EvalReport.total_devices` is the number of groups in the fixture, counting repeated labels and groups
  without observations, so it is the number of labels seen exactly when there are none of either
  (`DevicesReported`); revisits are counted against the labels seen (`FixtureTotals`).

## Model

| member | source | states |
|---|---|---|
| Component.StoredMapWellTyped | crates/fp-core/src/fuzzy/mod.rs:342-379 | every stored map has, for each name, the kind the schema gives it, and numbers that fit a signed 64-bit word |
| Component.SchemaByName | crates/fp-core/src/fuzzy/component.rs:124-169 | cpu_cores, device_memory and screen are numbers, fonts and plugins sets, all else categories; the expected agreement is 0.95 for the seven stable names, 0.5 for the user agent, 0.8 otherwise |
| Component.StoredMapMeans | crates/fp-core/src/fuzzy/mod.rs:342-379 | a stored map has an entry for exactly the entries of the raw object that suit their names: an integer as itself or the nearer 64-bit bound, a fraction rounded to the nearest integer and away from zero at a tie, a category as the salted hash of its text, a set as exactly the salted hashes of its strings; nulls, arrays and objects are no scalars |
| Component.StoredNumberUnique | crates/fp-core/src/fuzzy/canonical.rs:36-40 | that fixes the number stored |
| Component.JaccardLaws | crates/fp-core/src/fuzzy/component.rs:99-106 | similarity is a symmetric fraction, 1 exactly on equal sets and 0 exactly on disjoint sets that are not both empty |
| Canonical.ScalarRoundTrip | crates/fp-core/src/fuzzy/canonical.rs:85-91 | a decoder recovers a category or number from its keying bytes |
| Canonical.AllScalarRoundTrip | crates/fp-core/src/fuzzy/canonical.rs:67-82 | the K0 byte string decodes back to exactly the scalar components it was made from |
| Canonical.GroupRoundTrip | crates/fp-core/src/fuzzy/canonical.rs:46-59 | a K1 or K2 byte string decodes back to its member values |
| Canonical.BandRoundTrip | crates/fp-core/src/fuzzy/minhash.rs:121-129 | a band byte string decodes back to its band index and both rows |
| Canonical.NamespacesAreDisjoint | crates/fp-core/src/fuzzy/mod.rs:384-403 | no two of K0, K1, K2 and the bands produce the same byte string |
| OddAffine.AffineInjective | crates/fp-core/src/fuzzy/minhash.rs:25-26 | an affine map with odd multiplier is one-to-one on 64-bit words |
| MinHash.FromSeed | crates/fp-core/src/fuzzy/minhash.rs:66-78 | every seeded multiplier is odd, and each pair is read from the digest of seed and index |
| MinHash.MinHashLsh.ComputeSignature | crates/fp-core/src/fuzzy/minhash.rs:98-110 | one pass over the elements, in any order, leaves each slot the minimum of its hash over the set |
| MinHash.MinHashLsh.ComputeBandStrings | crates/fp-core/src/fuzzy/minhash.rs:84-95 | one band byte string per pair of rows, none for the empty set |
| MinHash.SignatureMeans | crates/fp-core/src/fuzzy/minhash.rs:97-110 | each of the sixteen slots is attained by some element of the set and is at most a*w0+b modulo 2^64 of every element; all ones for the empty set |
| MinHash.BandShape | crates/fp-core/src/fuzzy/minhash.rs:84-95 | a set that is not empty has eight band strings, string b made of the band index and slots 2b and 2b+1 |
| MinHash.SignatureOfUnion | crates/fp-core/src/fuzzy/minhash.rs:97-110 | the signature of a union is the pointwise minimum of the signatures |
| MinHash.SignatureRowsAgree | crates/fp-core/src/fuzzy/minhash.rs:97-110 | row i of two signatures agrees exactly when the minimiser of the union under hash i lies in the intersection |
| MinHash.BandsMeet | crates/fp-core/src/fuzzy/minhash.rs:84-129 | two non-empty sets share a band string exactly when some band has both its row minimisers in the intersection |
| MinHash.BandExtremes | crates/fp-core/src/fuzzy/minhash.rs:80-95 | disjoint sets never meet in a band, a set meets itself in every band, the empty set has no band |
| BlockingKeys.AllScalarInjective | crates/fp-core/src/fuzzy/canonical.rs:61-82 | two maps have the same K0 byte string, or both none, exactly when they have the same scalar components |
| BlockingKeys.GroupInjective | crates/fp-core/src/fuzzy/canonical.rs:42-59 | two maps have the same group byte string, or both none, exactly when they have the same group values, or both an incomplete group |
| BlockingKeys.MemberNamespaces | crates/fp-core/src/fuzzy/mod.rs:384-403 | the first two bytes of a key string tell which of the four families it came from |
| BlockingKeys.SharedStringMeaning | crates/fp-core/src/fuzzy/mod.rs:384-403 | two maps share a key string exactly when their scalars, one of their groups, or a band of their fonts coincide |
| BlockingKeys.SharedKeyMeaning | crates/fp-core/src/fuzzy/mod.rs:384-403 | without digest collisions, two maps share a blocking key exactly under that same condition |
| BlockingKeys.SharedKeyByName | crates/fp-core/src/fuzzy/mod.rs:384-403 | under the shipped groups: exactly if they agree in webgl, platform and timezone, in audio, cpu_cores and device_memory, in all their scalars, or in a font band |
| BlockingKeys.NamedKeys | crates/fp-core/src/fuzzy/mod.rs:393-398 | a map has the K1 key of its webgl, platform and timezone, and the K2 key of its audio, cpu_cores and device_memory, as soon as it holds them as scalars |
| BlockingKeys.DriftedSharesKey | crates/fp-core/src/fuzzy/mod.rs:260-275 | a template drifted by an observation shares a key with that observation exactly when the observation carries a whole group, has fonts, or has scalars and names every scalar of the template |
| BlockingKeys.AllScalarKey | crates/fp-core/src/fuzzy/canonical.rs:67-82 | the loop over the sorted map computes the digest of the K0 byte string, or nothing without scalars |
| BlockingKeys.GroupKey | crates/fp-core/src/fuzzy/canonical.rs:46-59 | the loop over the members computes the digest of the group byte string, or nothing at an absent or set member |
| BlockingKeys.ComputeKeys | crates/fp-core/src/fuzzy/mod.rs:384-403 | the keys are those of K0, K1, K2 and the bands, in that order |
| Frequency.FrequencyTable.Record | crates/fp-core/src/fuzzy/frequency.rs:90-106 | counts a sighting, or tallies a drop for a new value at the cap |
| Frequency.RecordedAllValid | crates/fp-core/src/fuzzy/frequency.rs:90-106 | in every reachable table the total is the sum of the counts, the cap holds, and every recording is counted or tallied as dropped |
| Frequency.UncappedCounts | crates/fp-core/src/fuzzy/frequency.rs:90-120 | without a cap the table is determined by the multiset of recorded values |
| Frequency.CappedCounts | crates/fp-core/src/fuzzy/frequency.rs:90-106 | with a cap, a value is counted as often as it is recorded if it was tracked, or room was left when it first came up, and not at all otherwise |
| Agreement.AgreementTable.Record | crates/fp-core/src/fuzzy/agreement.rs:78-95 | counts a comparison and its agreement, or tallies a drop for a new name at the cap |
| Agreement.RecordedAllValid | crates/fp-core/src/fuzzy/agreement.rs:78-95 | in every reachable table agreements never exceed comparisons and the cap holds |
| Agreement.CappedStats | crates/fp-core/src/fuzzy/agreement.rs:78-95 | with a cap, the outcomes under a name are all taken in if it was tracked, or room was left when it first came up, and none otherwise |
| Velocity.VelocityTable.RecordEvent | crates/fp-core/src/fuzzy/velocity.rs:113-127 | appends the event, or tallies a drop for a new key at the cap |
| Velocity.VelocityTable.CountEvents | crates/fp-core/src/fuzzy/velocity.rs:137-145 | prunes the key on access and returns what is left |
| Velocity.PruningKeepsWindow | crates/fp-core/src/fuzzy/velocity.rs:113-145 | over any run forward in time, what the table shows of a tracked key from a later cutoff on is what its whole history shows |
| Velocity.CountIsNaive | crates/fp-core/src/fuzzy/velocity.rs:134-145 | the count of a tracked key is the naive count over its full unpruned history |
| Velocity.TrackedWithinCap | crates/fp-core/src/fuzzy/velocity.rs:113-127 | tracked keys never exceed the cap; appended plus dropped is the number of recordings |
| Blocking.BlockingIndex.Add | crates/fp-core/src/fuzzy/blocking.rs:91-104 | the new index is the specified insertion: recorded, or dropped and tallied at a full block |
| Blocking.BlockingIndex.Recall | crates/fp-core/src/fuzzy/blocking.rs:107-116 | the union of the blocks of the given keys |
| Blocking.BlockingIndex.RemoveVisitor | crates/fp-core/src/fuzzy/blocking.rs:125-131 | removes the visitor everywhere and drops emptied blocks |
| Blocking.CandidatesAreImage | crates/fp-core/src/fuzzy/blocking.rs:107-116 | recall is the image of the keys under the relation of (key, visitor) pairs |
| Blocking.InsertRecordsOrDrops | crates/fp-core/src/fuzzy/blocking.rs:91-104 | an insertion adds its pair and nothing else, or changes no pair and adds exactly one to the tally |
| Blocking.DefaultRoom | crates/fp-core/src/fuzzy/blocking.rs:23-104 | a block of the default size takes a visitor in exactly if it holds fewer than 1024 or holds the visitor already |
| Blocking.InsertedAllRelation | crates/fp-core/src/fuzzy/mod.rs:267-269 | indexing an observation adds exactly the pairs under the keys that had room beforehand |
| Blocking.InsertedAllDrops | crates/fp-core/src/fuzzy/mod.rs:267-269 | and adds to the tally exactly the number of keys that had none |
| Blocking.RemovedRelation | crates/fp-core/src/fuzzy/blocking.rs:125-131 | removal deletes exactly the pairs of the visitor |
| Blocking.HoldsIffStanding | crates/fp-core/src/fuzzy/blocking.rs:86-131 | over any run a pair is held exactly when some accepted insertion of it was not followed by a removal of the visitor |
| Blocking.RunConserves | crates/fp-core/src/fuzzy/blocking.rs:86-131 | over any run with a positive cap, blocks are non-empty and within it; insertions are recorded or tallied |
| Blocking.RecallWhileNothingDropped | crates/fp-core/src/fuzzy/blocking.rs:91-131 | over any run of the index, while nothing was dropped, a visitor is recalled by exactly the probes sharing a key with an insertion of it since its last removal |
| Blocking.ErasedUntilInsertedAgain | crates/fp-core/src/fuzzy/blocking.rs:123-131 | after a removal a visitor is recalled by no probe until inserted again |
| Records.RecordStore.ObserveVisitor | crates/fp-core/src/fuzzy/record.rs:110-141 | the new library is the upsert followed by a valid eviction; reports whether the visitor was new |
| Records.RecordStore.Evict | crates/fp-core/src/fuzzy/record.rs:149-181 | retention first, then oldest-first eviction to the cap, never the observed visitor; every eviction is counted |
| Records.RecordStore.EvictToCap | crates/fp-core/src/fuzzy/record.rs:162-177 | whichever of equally old records goes, the survivors are a valid choice and are left unchanged |
| Records.RecordStore.RemoveRecord | crates/fp-core/src/fuzzy/record.rs:194-196 | removes the record, reporting whether there was one |
| Records.RecordStore.PurgeOlderThan | crates/fp-core/src/fuzzy/record.rs:205-221 | removes exactly the aged records and counts them |
| Records.ObservedBounds | crates/fp-core/src/fuzzy/record.rs:110-181 | the observed visitor survives, the size is at most the cap (at least one), every survivor is in the window and unchanged, and nobody evicted was seen later than another survivor, whatever the cap and window |
| Records.EvictsNothing | crates/fp-core/src/fuzzy/record.rs:149-181 | an observation evicts nobody exactly when no other record is past the window and the library with the visitor fits the cap, at least one |
| Records.RecordsConserved | crates/fp-core/src/fuzzy/record.rs:110-221 | over any run, records created are live, evicted or removed |
| Records.CapHolds | crates/fp-core/src/fuzzy/record.rs:149-181 | in every reachable library the cap holds |
| Records.EvictOne | crates/fp-core/src/fuzzy/record.rs:162-177 | evicting one oldest record is consistent with every valid choice of survivors of the rest |
| Estimators.RarityShare | crates/fp-core/src/fuzzy/engine.rs:465-469 | the rarity used is the share of sightings with a half added to the hits and one to the total, between 0.0001 and 0.9999 |
| Estimators.RarityLaws | crates/fp-core/src/fuzzy/engine.rs:465-469 | recording a value makes it count as more common and every other value as rarer, strictly so between the bounds, and a dropped recording changes nothing |
| Estimators.ReliabilityMix | crates/fp-core/src/fuzzy/engine.rs:482-489 | the match rate used is the prior until something was compared, then off the observed rate by 20 times the gap over total plus 20, between 0.0001 and 0.9999 |
| Estimators.ReliabilityMoves | crates/fp-core/src/fuzzy/engine.rs:482-489 | an agreement never lowers the match rate used and a disagreement never raises it, strictly so between the bounds; a dropped outcome or one of another name leaves it alone |
| Estimators.LogArgumentsPositive | crates/fp-core/src/fuzzy/engine.rs:501-505 | every estimate is a proper probability, so every logarithm has a positive argument |
| Estimators.WeightRisesWithSimilarity | crates/fp-core/src/fuzzy/engine.rs:496-505 | the weight rises with similarity exactly when m exceeds u, and is flat exactly when they are equal |
| Estimators.ConfidenceBands | crates/fp-core/src/fuzzy/engine.rs:523-555 | match confidence is in [0.375, 1], review in [0.125, 0.5], new device in (0.375, 1] |
| Estimators.ReviewIsLeastConfident | crates/fp-core/src/fuzzy/engine.rs:523-555 | at the same compared count a review is strictly below either clear verdict |
| Estimators.ConfidenceRisesWithCompared | crates/fp-core/src/fuzzy/engine.rs:529-532 | confidence never falls as more components take part |
| Estimators.ConfidenceMeans | crates/fp-core/src/fuzzy/engine.rs:523-555 | every confidence is a certainty times the share compared: of a match by its lead over the higher of twelve and the runner-up, of a review by its place in the band, of a new device by how far the best falls short of eight |
| Estimators.CloserRunnerUpCosts | crates/fp-core/src/fuzzy/engine.rs:535-540 | a runner-up above twelve costs a match confidence, strictly more the closer it is; below twelve it costs nothing |
| Estimators.TiedMatch | crates/fp-core/src/fuzzy/engine.rs:535-540 | a match that ties is exactly three quarters of the share compared |
| Estimators.ConfidenceFollowsScore | crates/fp-core/src/fuzzy/engine.rs:534-552 | the higher best score strictly raises the confidence of a match or a review and strictly lowers that of a new device |
| Estimators.AdjustmentsStayInRange | crates/fingerprintd/src/lib.rs:163-165 | the velocity penalty takes 0.3, a consistent signal adds 0.05, a mismatch takes 0.5, none leaves it; all within [0, 1] |
| Ranking.SortSorts | crates/fp-core/src/fuzzy/engine.rs:320-321 | the sort rearranges its input into descending order |
| Ranking.BestAndSecond | crates/fp-core/src/fuzzy/engine.rs:323-326 | the first entry is a maximum and the second score is the maximum of the others |
| Ranking.SortSplits | crates/fp-core/src/fuzzy/engine.rs:310-321 | candidates without a record sort below all others and leave the order of those alone |
| Ranking.OrderIndependent | crates/fp-core/src/fuzzy/engine.rs:305-326 | best and second score do not depend on the order in which the candidate set is walked; the winner does only on a tie |
| Engine.VerdictIgnoresOrder | crates/fp-core/src/fuzzy/engine.rs:301-381 | decision, score and collision flag do not depend on hash-set order |
| Engine.AmbiguousWinnerIsFlagged | crates/fp-core/src/fuzzy/engine.rs:340-342 | if two orders name different winners of a match, the collision flag is set under both |
| Engine.VerdictNamesLiveRecord | crates/fp-core/src/fuzzy/engine.rs:339-365 | a match or review names a recalled visitor with a live record whose score is the maximum over all recalled ones |
| Engine.VerdictThresholds | crates/fp-core/src/fuzzy/engine.rs:328-332 | match exactly when some candidate reaches the upper threshold, new device exactly when none reaches the lower |
| Verdicts.EvaluateIsJudged | crates/fp-core/src/fuzzy/engine.rs:301-381 | whatever order the candidates were walked in, every field of the outcome means what it should: decision by the thresholds over all recalled visitors, score, comparison count and confidence those of a best candidate and its runner-up (none, zero and the bare one without candidates), the best candidate named unless the device is new and its id derived, the collision flag exactly when a match has another candidate at the upper threshold less than the gap below it, and both bands low |
| Verdicts.VerdictConfidence | crates/fp-core/src/fuzzy/engine.rs:334-381 | the confidence of every evaluation lies in its decision's band |
| Verdicts.EvaluateConfidence | crates/fp-core/src/fuzzy/engine.rs:334-381 | the confidence of every evaluation in closed form from the scores of the candidates: the lead of a match over all other candidates and the threshold, the place of a review in its band, the distance of the best live candidate below the band, 0.5 without one |
| Verdicts.ComparedAreCommon | crates/fp-core/src/fuzzy/engine.rs:414-434 | a component missing on either side is not compared, and every component present on both sides is |
| Verdicts.ReachableComparisons | crates/fp-core/src/fuzzy/engine.rs:414-434 | in every reachable store the comparison count is the number of components template and probe have in common |
| Verdicts.ObservationCounts | crates/fp-core/src/fuzzy/mod.rs:260-269 | whatever the cap, an observation adds to each value hash the number of its components carrying it, if the table tracks the value or has room when it comes up, and nothing otherwise |
| Verdicts.MatchTeaches | crates/fp-core/src/fuzzy/engine.rs:398-412 | whatever the cap, a match teaches the agreement table the outcome of each component it compares, if the table takes the name in |
| Verdicts.OnlyMatchesTeach | crates/fp-core/src/fuzzy/engine.rs:234-279 | of all steps only a match teaches, against the template as it stood before the observation drifts it, whatever the cap |
| Verdicts.OnlyObservationsCount | crates/fp-core/src/fuzzy/mod.rs:282-294 | only a step that touches a template counts its values; erasing or purging takes nothing back |
| Scores.ScoreOfCandidate | crates/fp-core/src/fuzzy/engine.rs:414-455 | in every reachable store the score of a candidate is the sum over the components it has in common with the probe: log2(m/u) for equal scalars and for sets that share half their union, log2((1-m)/(1-u)) for different scalars, the blend of both by the shared part for other sets; and it compares just these |
| Scores.IdenticalScore | crates/fp-core/src/fuzzy/engine.rs:414-455 | for a probe equal to the template every component agrees, and the score is the sum of log2(m/u) |
| Scores.MatchTeachesAgreement | crates/fp-core/src/fuzzy/engine.rs:398-412 | in every reachable store a match adds one comparison to each common component the table takes in, and one agreement exactly if the scalars are equal or the sets share half their union |
| Scores.LearningShift | crates/fp-core/src/fuzzy/engine.rs:482-505 | what a match teaches a component moves its later evidence: after an agreement agreeing counts for more and disagreeing against it more, after a disagreement for less, strictly between the bounds; an untaught component is unmoved |
| Scores.ScoreAfterLearning | crates/fp-core/src/fuzzy/engine.rs:398-434 | the score of any candidate for the next probe moves by exactly the sum of those shifts over the common components |
| Scores.LearningHelps | crates/fp-core/src/fuzzy/engine.rs:398-434 | a match that taught no disagreement never lowers the score of a candidate the next probe agrees with, and raises it if one of the rates rises |
| Signals.TableOfRun | crates/fp-core/src/fuzzy/engine.rs:242-277 | the velocity table of a reachable store holds, per key, what pruning leaves of the seconds at which devices carrying it were minted |
| Signals.IpBandCountsMinted | crates/fp-core/src/fuzzy/engine.rs:244-257 | over runs in clock order a new device is banded by the number of devices minted under its IP in the last 3600 seconds, itself included: high from 20, medium from 5, low below and for an IP beyond the cap; a high band costs up to 0.3 of confidence and the others none |
| Signals.ClassBandCountsMinted | crates/fp-core/src/fuzzy/engine.rs:258-276 | its class is banded the same way under a key of its own, high from 400 and medium from 100, low beyond the cap, and never touches confidence |
| Signals.NoKeyNoBand | crates/fp-core/src/fuzzy/engine.rs:244-276 | without an address or class, or without a new device, the band is low |
| Recalls.RecalledIffFiled | crates/fp-core/src/fuzzy/mod.rs:260-280 | in every reachable store, whatever was dropped, a visitor is recalled by exactly the probes with a key under which some step filed it, with room in the block, since its last erasure |
| Recalls.RecalledMeansShared | crates/fp-core/src/fuzzy/mod.rs:260-280 | in every reachable store a visitor is recalled only by probes sharing a blocking key with some observation of it since its last erasure, and by every such probe while nothing was dropped |
| Recalls.RecalledIffAlike | crates/fp-core/src/fuzzy/mod.rs:381-403 | without digest collisions: recalled exactly if some observation since the last erasure has all scalars, a whole group or a font band in common with the probe and not every key they share was full; by that identity alone while nothing was dropped |
| Recalls.TemplateRecalledIffAlike | crates/fp-core/src/fuzzy/mod.rs:260-280 | a probe equal to a live template recalls its visitor exactly then, so the observations behind the template decide and not the template |
| Recalls.ScalarTwins | crates/fp-core/src/fuzzy/mod.rs:386-391 | the catch-all key recalls a visitor exactly for probes with the same scalars as an observation of it since its last erasure at which that key had room; a probe without scalars has no such key |
| Recalls.DriftedStillRecalled | crates/fp-core/src/fuzzy/mod.rs:388-398 | whatever else drifted, a visitor is recalled by a probe that agrees in webgl, platform and timezone, or in audio, cpu_cores and device_memory, with an observation of it since its last erasure at which that key had room |
| Recalls.ErasedUntilObserved | crates/fp-core/src/fuzzy/mod.rs:277-294 | after an erasure a visitor is recalled by no probe until it is observed again, whatever was dropped |
| Purging.PurgeIsErasure | crates/fp-core/src/fuzzy/mod.rs:286-313 | the scrubbed store after a purge is the one in which each purged visitor was erased from every block |
| Purging.PurgingIsInvisible | crates/fp-core/src/fuzzy/mod.rs:301-306 | for every probe and order, the store with stale entries and the scrubbed one give the same verdict, id, comparison count, confidence and collision flag |
| Purging.EveryIdealOrderArises | crates/fp-core/src/fuzzy/engine.rs:302-321 | every order of the scrubbed store's candidates is the live part of an order of the stale store's |
| Purging.InsertionCommutesWithScrubbing | crates/fp-core/src/fuzzy/blocking.rs:91-104 | inserting before or after scrubbing gives the same live index and the same tally exactly when no stale entry of the visitor lies outside its new keys and no key without room has a stale entry in its block |
| Purging.StepStaysInStep | crates/fp-core/src/fuzzy/mod.rs:286-313 | one step keeps the store and the one that scrubs matching exactly when its insertion revives nothing stale and is crowded out by nothing stale |
| Purging.RunsStayInStep | crates/fp-core/src/fuzzy/engine.rs:215-313 | over every run, drops included, the two stores match after every step exactly when each step meets that condition where it is taken |
| Purging.RepliesAgree | crates/fp-core/src/fuzzy/engine.rs:215-313 | while they match, every possible step is possible in both and gets the same reply, up to minus infinity for no score |
| Templates.TemplateIsFoldOfHistory | crates/fp-core/src/fuzzy/engine.rs:229-280 | over every run a live template is exactly the last-writer-wins fold of the match and new-device observations resolved to it since its record was created, with freshness, first and last sighting and count |
| Templates.SilentStepsLeaveNoTrace | crates/fp-core/src/fuzzy/engine.rs:230-233 | deleting every review and every bare scoring from a run leaves a possible run with the same final store and the same other replies |
| Templates.LiveIdsAreDerived | crates/fp-core/src/fuzzy/engine.rs:366-370 | every live id is the one derived from the probe that created its record |
| Templates.RemintedOnlyByTheSameProbe | crates/fp-core/src/fuzzy/engine.rs:562-568 | a new-device verdict meets a live record only for the probe that created it, and then merges into it |
| Templates.RemintsIffCreatedBySame | crates/fp-core/src/fuzzy/engine.rs:366-370 | the id derived from a probe is live exactly when the record of some live visitor was created by that very probe |
| Templates.SecondEmptyProbeRemints | crates/fp-core/src/fuzzy/engine.rs:562-568 | such a verdict happens: the second empty probe is a new device on the live id of the first |
| Templates.ReachableTables | crates/fp-core/src/fuzzy/engine.rs:215-281 | in every reachable store the frequency and agreement tables obey their laws |
| Counterexamples.DriftedProbeEscapes | crates/fp-core/src/fuzzy/mod.rs:260-280 | after a possible run of one new device and three matches, a probe equal to the live template recalls nobody and is a new device |
| Counterexamples.StaleEntryDecides | crates/fp-core/src/fuzzy/mod.rs:301-306 | after a possible run in which a purged visitor is minted again, a probe matches it through its stale entries and is a new device to the store that scrubs |
| Counterexamples.StaleEntriesCrowdOut | crates/fp-core/src/fuzzy/mod.rs:301-306 | for every block size there is a possible run after which the observation just made is a new device again, because stale entries fill its blocks, and matches its live record in the store that scrubs |
| Counterexamples.RemintCountsOnceOnEdge | apps/edge/src/lib/do/velocity-do.ts:115-127 | a possible run mints one id twice under one address: two events natively, one device on the edge |
| Scenarios.SampleIsDevice | crates/fp-core/src/fuzzy/component.rs:156-169 | nine one-letter components told apart by the salted hash are a device as these runs need it |
| FuzzyStores.FuzzyStore.ToStoredMap | crates/fp-core/src/fuzzy/mod.rs:342-350 | converts a raw object entry by entry: what suits its name is stored as its schema says, the rest dropped |
| FuzzyStores.FuzzyStore.Observe | crates/fp-core/src/fuzzy/mod.rs:260-275 | counts the scalars, indexes the keys and upserts the template, leaving the specified store |
| FuzzyStores.FuzzyStore.ScoreCandidates | crates/fp-core/src/fuzzy/engine.rs:305-319 | scores every recalled candidate, each once |
| FuzzyStores.FuzzyStore.EvaluateProbe | crates/fp-core/src/fuzzy/engine.rs:301-381 | the outcome is the specified one for some order of the recalled set, and nothing changes |
| FuzzyStores.FuzzyStore.RecordAgreement | crates/fp-core/src/fuzzy/engine.rs:398-412 | learns from the template as it stood; no record, no change |
| FuzzyStores.FuzzyStore.Persist | crates/fp-core/src/fuzzy/engine.rs:234-280 | acts on a verdict: learn and drift, store and count, or nothing |
| FuzzyStores.FuzzyStore.IdentifyWithSignals | crates/fp-core/src/fuzzy/engine.rs:215-281 | takes exactly one enabled identification step of the state machine and returns its outcome |
| FuzzyStores.FuzzyStore.ScoreProbe | crates/fp-core/src/fuzzy/engine.rs:291-293 | returns an enabled scoring step's reply, an outcome whose every field means what it should, and changes nothing |
| FuzzyStores.FuzzyStore.EraseVisitor | crates/fp-core/src/fuzzy/mod.rs:286-294 | takes exactly the erasure step and reports whether a record existed |
| FuzzyStores.FuzzyStore.PurgeExpired | crates/fp-core/src/fuzzy/mod.rs:307-313 | takes exactly the purge step and returns the number removed |
| Serializability.MicroAdvances | crates/fp-core/src/fuzzy/engine.rs:222-280 | each backend step of the lock holder extends the prefix of its own sequential operation |
| Serializability.EndIsSequential | crates/fp-core/src/fuzzy/engine.rs:222-280 | a finished operation has taken exactly its sequential step with the sequential reply |
| Serializability.EveryExecutionSerializes | crates/fp-core/src/fuzzy/mod.rs:137-148 | under every schedule of any number of threads, the store is the sequential result of the completed operations in lock order advanced by a prefix of the holder's steps, and the log holds each finished operation once with its sequential reply |
| Nonces.InMemoryNonceStore.IssueWithTtl | crates/fp-core/src/nonce.rs:86-101 | reaps what has expired, each entry against the clock as it is read, then inserts |
| Nonces.InMemoryNonceStore.ConsumeNonce | crates/fp-core/src/nonce.rs:122-135 | unknown, expired, reused or valid, in that order of checks; only valid changes the entry |
| Nonces.ValidIffFirstInTime | crates/fp-core/src/nonce.rs:86-135 | over any run forward in time with fresh nonces, a consumption is valid exactly when the nonce was issued, its lifetime is not over and nobody presented it since, whatever was reaped |
| Nonces.ValidAtMostOnce | crates/fp-core/src/nonce.rs:122-135 | each nonce is valid at most once |
| Nonces.MatcherRunsOncePerNonce | crates/fingerprintd/src/lib.rs:98-159 | over any run the matcher runs at most once per nonce |
| Nonces.MatchedWereIssued | crates/fingerprintd/src/lib.rs:98-159 | the matcher runs only for issued nonces |
| Nonces.MatcherRunsBounded | crates/fingerprintd/src/lib.rs:98-159 | the matcher runs at most as often as nonces were issued |
| Handlers.Service.Identify | crates/fingerprintd/src/lib.rs:93-204 | the nonce is spent first; the matcher takes its step exactly when the nonce was valid, the probe verifies if required, and the timestamp lies within the skew on either side if enforced, with the headers of a trusted edge only; the response carries that step's outcome field by field with the passive adjustment, and without a step it is a refusal and the store is untouched |
| Handlers.Service.Challenge | crates/fingerprintd/src/lib.rs:62-79 | issues a nonce with the lifetime of the store and logs it; the log stays well timed under a clock that does not go backwards and fresh nonces |
| Handlers.Service.MatchedOnce | crates/fingerprintd/src/lib.rs:98-159 | for the service object as it runs: the matcher has run at most once per nonce, only for issued nonces, and at most as often as nonces were issued |
| Handlers.Service.Erase | crates/fingerprintd/src/lib.rs:217-233 | not found without an admin key, refused without the right credential, and otherwise the erasure step with the same answer whether or not there was a record |
| Handlers.ResponseConfidence | crates/fingerprintd/src/lib.rs:163-165 | the confidence of every response lies in the band of its decision, lowered for a new device at a high rate, then moved by the passive signal and kept in [0, 1]; a mismatch leaves a review none |
| NonceObject.NonceDurableObject.IssueNonce | apps/edge/src/lib/do/nonce-do.ts:51-64 | stores the expiry and arms the alarm only for a positive lifetime |
| NonceObject.NonceDurableObject.ConsumeNonce | apps/edge/src/lib/do/nonce-do.ts:75-84 | burns the record and the alarm, then judges the expiry |
| NonceObject.RecordLivesUntilTouched | apps/edge/src/lib/do/nonce-do.ts:51-89 | the record lives until the first operation after issuance; an alarm can only come first, and not before the expiry |
| NonceObject.ValidIffFirst | apps/edge/src/lib/do/nonce-do.ts:75-89 | a consumption is valid exactly when it is the first operation after issuance and not past the expiry |
| NonceObject.ValidAtMostOnce | apps/edge/src/lib/do/nonce-do.ts:66-84 | each nonce is valid at most once |
| NonceObject.BackendsAgree | apps/edge/src/lib/do/nonce-do.ts:75-89 | the two backends agree on validity at every instant but the expiry itself, where the native store never accepts and the object accepts exactly if nothing came before |
| VelocityObject.VelocityDurableObject.BumpMember | apps/edge/src/lib/do/velocity-do.ts:50-63 | prunes the lapsed members, adds the member, re-arms at the furthest expiry and returns the distinct count |
| VelocityObject.VelocityDurableObject.FireAlarm | apps/edge/src/lib/do/velocity-do.ts:70-82 | prunes, then deletes an empty record or re-arms |
| VelocityObject.AlarmAtFurthest | apps/edge/src/lib/do/velocity-do.ts:50-82 | in every reachable object a stored record is non-empty with its alarm at the furthest expiry, and without a record there is no alarm |
| VelocityObject.QuietEntityIsDeleted | apps/edge/src/lib/do/velocity-do.ts:65-79 | when the alarm of a quiet entity fires nothing is left of it |
| VelocityObject.BumpCountsRecent | apps/edge/src/lib/do/velocity-do.ts:50-63 | a bump answers the number of distinct members bumped within the window, whatever alarms came between |
| VelocityObject.EdgeSeesLess | crates/fp-core/src/fuzzy/velocity.rs:134-145 | what the edge counts native counts; what only native counts is exactly what is at least 3600 and less than 3601 seconds old with a millisecond remainder not past the present one |
| VelocityObject.EdgeAgainstNative | crates/fp-core/src/fuzzy/engine.rs:248-276 | for any native run with any cap on tracked keys: under a tracked key the edge count of the same events is at most the native one, and they are equal exactly when no id repeats among the events native still counts and none of them lies in that last second; under an untracked key native answers zero and the edge does not |
| VelocityObject.RepeatCounted | apps/edge/src/lib/do/velocity-do.ts:115-127 | two events with one id count once on the edge and twice natively |
| EdgeStore.D1FingerprintStore.RecallRows | apps/edge/src/modules/fingerprint/fingerprint-store-d1.ts:57-82 | as many matching visitors as the limit allows, each once, with the raw components stored for it; none without keys |
| EdgeStore.D1FingerprintStore.Persist | apps/edge/src/modules/fingerprint/fingerprint-store-d1.ts:91-109 | a review writes nothing, a match overlays the raw object, a new device is stored whole |
| EdgeStore.D1FingerprintStore.WriteTemplate | apps/edge/src/modules/fingerprint/fingerprint-store-d1.ts:128-157 | the upsert keeps the first sighting, stamps the last and counts; pairs are added idempotently |
| EdgeStore.D1FingerprintStore.EraseVisitor | apps/edge/src/modules/fingerprint/fingerprint-store-d1.ts:166-173 | removes the template and every pair of the visitor |
| EdgeStore.D1FingerprintStore.PurgeOlderThan | apps/edge/src/modules/fingerprint/fingerprint-store-d1.ts:181-197 | removes the rows last seen before the cutoff with their pairs and counts them; a non-positive age removes nothing |
| EdgeStore.EdgeMerge | apps/edge/src/modules/fingerprint/fingerprint-store-d1.ts:97-107 | the stored form of a drifted edge template is the old one without the names the observation carries, overlaid with its stored form |
| EdgeStore.MergesAgree | apps/edge/src/modules/fingerprint/fingerprint-store-d1.ts:97-107 | that is the native overlay exactly when no unstorable entry of the observation hides a stored component |
| EdgeStore.NullHides | apps/edge/src/modules/fingerprint/fingerprint-store-d1.ts:105 | a null for a component the template has removes it on the edge and keeps it natively |
| EdgeStore.ReplacementAgrees | apps/edge/src/modules/fingerprint/fingerprint-store-d1.ts:99-108 | storing an object whole is the native overlay exactly when it misses no stored component |
| EdgeStore.StepRefines | apps/edge/src/modules/fingerprint/fingerprint-store-d1.ts:91-197 | one common event keeps edge and native store in step exactly when it hides and replaces nothing, there is nothing to evict, every key has room, nothing stale comes back, and a purge has a positive age or nothing to take |
| EdgeStore.RunRefines | apps/edge/src/modules/fingerprint/fingerprint-store-d1.ts:91-197 | over every run of common events the stores stay in step throughout exactly when every event meets that condition |
| EdgeStore.PlainRunsKeepTemplates | crates/fp-core/src/fuzzy/record.rs:110-141 | over every run of storable matches, not yet live new devices, erasures and positive-age purges in which native has nothing to evict, template, first and last sighting and count agree |
| EdgeStore.RecallRefines | apps/edge/src/modules/fingerprint/fingerprint-store-d1.ts:57-82 | for stores in step the edge matches exactly the live part of what the native index recalls |
| EdgeStore.RecallComplete | apps/edge/src/modules/fingerprint/fingerprint-store-d1.ts:57-82 | recall returns every matching visitor exactly when there are no more than the limit |
| EdgeScoring.FpEngine.BlockingKeysOf | crates/fp-wasm/src/lib.rs:226-231 | the keys of the probe's stored map |
| EdgeScoring.FpEngine.Rebuild | crates/fp-wasm/src/lib.rs:237-244 | observing the candidates in order leaves the specified throw-away store |
| EdgeScoring.FpEngine.ScoreAgainst | crates/fp-wasm/src/lib.rs:234-256 | the outcome is the verdict of the rebuilt store for some order of what it recalls |
| EdgeScoring.RebuiltIndex | crates/fp-wasm/src/lib.rs:242-244 | up to 1024 distinct candidates are all indexed, under the keys of their stored templates, and none is dropped |
| EdgeScoring.ScoredExactly | crates/fp-wasm/src/lib.rs:242-245 | the candidates scored are exactly those whose stored template shares a blocking key with the probe |
| EdgeScoring.RebuiltIgnoresOrder | crates/fp-wasm/src/lib.rs:242-244 | the same candidates in another order rebuild the same library, frequency table and agreement table |
| EdgeScoring.EdgeVerdictIgnoresOrder | crates/fp-wasm/src/lib.rs:234-256 | decision, score and collision flag do not depend on the order of the candidates, and the whole outcome does only if two tie for the best score |
| EdgeScoring.RebuiltUsesPriors | crates/fp-core/src/fuzzy/engine.rs:482-489 | a throw-away store has learned nothing, so every match rate is its prior |
| EdgeScoring.RecallsAgree | apps/edge/src/modules/fingerprint/fingerprint-store-d1.ts:57-82 | any two untruncated recalls list the same candidates |
| EdgeScoring.EdgeScores | apps/edge/src/modules/fingerprint/fingerprint-store-d1.ts:57-82 | recall then rebuild: nothing is dropped, and a visitor is scored exactly when recall returned it and its stored template shares a key with the probe |
| EdgeScoring.EdgeScoresNative | apps/edge/src/modules/fingerprint/fingerprint-store-d1.ts:57-82 | for stores in step and an untruncated recall, the edge scores a visitor exactly when native recalls it, it is live, and its template still shares a key with the probe |
| EdgeScoring.EdgeReachesNativeVerdict | crates/fp-wasm/src/lib.rs:234-256 | for stores in step and an untruncated recall, edge and native reach the same verdict if every live candidate's template still shares a key with the probe, both tables give its scalars the same rarity, and nothing was learned about its components |
| Eval.Interleave | crates/fp-core/src/fuzzy/eval.rs:187-204 | the observations come round by round, device by device |
| Eval.EachObservationOnce | crates/fp-core/src/fuzzy/eval.rs:187-204 | every observation is yielded exactly once |
| Eval.DeviceOrderKept | crates/fp-core/src/fuzzy/eval.rs:184-204 | each device's visits come in their own order, all of them |
| Eval.InterleavingSize | crates/fp-core/src/fuzzy/eval.rs:187-204 | as many items as there are observations |
| Eval.EvaluateFixture | crates/fp-core/src/fuzzy/eval.rs:134-182 | the replay is a possible run of a fresh store on the interleaved observations, one second apart, and the report is the tally against the ids given by the outcomes of that run |
| Eval.NewIdMeansNewDevice | crates/fp-core/src/fuzzy/eval.rs:162-168 | an id not attributed before comes from a new-device verdict |
| Eval.DevicesReported | crates/fp-core/src/fuzzy/eval.rs:142-149 | the devices reported are at least the labels seen, and equal to them exactly when labels are distinct and no group is empty |
| Eval.TallyMeans | crates/fp-core/src/fuzzy/eval.rs:162-179 | minted ids, stable links and collisions are the counts of first uses, of uses by the device of the first use, and of the rest |
| Eval.TallyConserves | crates/fp-core/src/fuzzy/eval.rs:134-182 | for any behaviour of the matcher minted ids, stable links and collisions make up all observations, and revisits are all but one per label seen |
| Eval.FixtureTotals | crates/fp-core/src/fuzzy/eval.rs:134-204 | over a whole fixture the counts make up all its observations |
| Eval.RatesAreFractions | crates/fp-core/src/fuzzy/eval.rs:79-93 | both rates lie in [0, 1]; full stability means every revisit linked to its own device |

## Left out

- Serializability.EveryExecutionSerializes: scoring one candidate is a single step, although the code reads the record and each frequency and agreement count under separate locks; only a lock-free reader could notice, and what it reads is not part of the claim. Direct calls of the public `observe`, which takes no lock, are not among the threads.
- Templates.RemintedOnlyByTheSameProbe: takes the derived id to be injective on the two probes involved.
- Templates.RemintsIffCreatedBySame: takes the derived id to be injective on the probe and those that created live records.
- BlockingKeys.SharedKeyMeaning: takes the digest to be free of collisions on the byte strings involved, and the leading words of the font hashes to be distinct.
- The runs of `Counterexamples` are those of a device of nine or more components with unlisted names and distinct value hashes, under digests that tell the key strings involved apart; the logarithm is taken to be the base-two one.
- NonceObject.BackendsAgree: compares the two backends at equal instants and equal expiries; clock skew between them is not modelled.
- VelocityObject.EdgeAgainstNative: each new device is counted on both sides at the same millisecond.
- EdgeStore.RunRefines: edge and native share one keying and one band family, as the edge's deterministic stores do, whereas a native store draws its own at random by default; events are applied one at a time; the gap between recall and persist on the edge, where requests can interleave, is not modelled.
- Frequency, agreement, velocity, eviction and drop counters are unbounded integers; 64-bit overflow of a counter is not modelled.
- Floating point is real arithmetic; rounding, NaN and the bit-level claims about cold-start scores are not modelled.
- The JA4 shape class is a given value, not parsed from the raw fingerprint; the passive signal tables are reduced to their three confidence adjustments.
- The HMAC probe, response signing, hex encoding and constant-time comparison; the handlers see only whether the probe verifies and whether the credential is the key.
- The daemon's retention loop, which skips a zero retention period; the zero-age purge, at which the two stores differ, then comes only from a direct call.
- HTTP, JSON parsing, schema validation, configuration, logging, SQL text, storage failures and the wasm bindings; object keys with a special meaning in JavaScript.
- Lock poisoning, random salts, random permutation families and nonce generation; nonces are taken as fresh.
- The check-in risk engine, the older exact-match store, the browser SDK and the playground are not modelled.
- The statistical stability and collision targets of the evaluation harness, which are claims about data.
