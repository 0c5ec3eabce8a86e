# MOSAIC and CCD/NEXUS: a verified model

A Dafny model of the decision-making parts of this repository, with proofs about all inputs and all runs. It covers

- the Reed–Solomon erasure codec: arithmetic in GF(256), Gauss–Jordan inversion, framing, encoding, recovery, repair;
- the closure protocol of one node: first-claim locks, receipts, weighted closures, abandonment, seal chains, atomic
  bundles, observed outcomes; and runs of a whole committee of honest nodes against Byzantine members;
- the settlement ledger, stake-backed membership and the beacon rounds that move money between them;
- the deterministic executor and its binding to closures;
- the CCD/NEXUS committee, domain execution and atomic joins;
- quorum arithmetic, the replay guard and the token bucket.

`dafny verify dfyconfig.toml` checks everything.

## How it is built

Where the source changes fields in place there are two layers. A datatype (`ProtocolState`, `Ledger`, `Registry`,
`Rounds`, `Executor`, `Committee`, `Domain`, `Join`, `Guard`, `Bucket`, `Node`) says what each operation leaves behind,
also when it raises, and what it returns. A class with the source's fields performs the operation with its branches and
loops, and its contract says that the object's state and result are exactly what the datatype's function gives. Whole
runs are then reasoned about on the datatypes.

Exceptions are error values, or a `false` where the source has only one way to fail. Time is real-valued or an epoch
number passed in. Weights and amounts are unbounded integers, as in Python.

Digests are symbolic: an identifier is the value it is the digest of, so equal identifiers have equal contents.
Signatures are symbolic: one verifies exactly when it was made with that key over that statement. A capsule's identifier
is a function of its signed fields, as `Capsule.create` makes it; nothing in the source rechecks that later. Where the
source searches a dict and takes the first hit, the contract allows any hit and the proofs show there is only one that
matters; lists that are only ever compared after sorting are kept as multisets, sets or maps.

Where the code and its documentation differ, the model follows the code:

- The codec's docstring promises recovery from any k of n shards (mosaic/availability.py:301). With k = 5 and m = 4 the
  shards 3, 5, 6, 7 and 8 do not suffice (`Vandermonde.FiveOfNineFails`). `AnyK.PromiseKeptExactly` says which codecs
  keep the promise, `MinorDecides` and `TwoLossesExact` which choices of shards suffice.
- A reused bond identifier can make an admission, an exit or a withdrawal raise after the ledger has changed: the money
  sits in a bond no validator has, or the record of a validator that left stays active and its paid withdrawal is refused
  (module `ReusedBond`), or the bond is paid out and gone while the validator stays recorded (module `RepeatedPayment`);
  each of them in a run from an empty manager, for every delay. `AdmitExactly`, `ExitExactly` and
  `WithdrawExactly` say exactly when; with a delay, and no withdrawal beyond the manager's own epoch, exits and
  withdrawals never do (`PromptRunsKeep`).
- Slash evidence from a future epoch is refused by membership after the ledger has taken it, and slashing an exited
  validator makes it active again, so that its withdrawal is paid and refused (module `LateSlash`);
  `MembershipSlashExactly` gives both conditions.
- A distribution of rewards that names an unknown bond loses what it has not paid yet (`UnknownBondLoses`, and
  `DistributeExactly` for the condition).
- Round r of an epoch and round r + 1,000,000 of the epoch before pay from one reward epoch. The later one takes its
  fines and then raises (`SecondRoundFinesAndRaises`); `FinalizeAllOrNothing` says exactly when, and below a million it
  never happens (`BelowMayDo`).
- An execution that finds its transaction cached does not run it again, so the executor then stands at another root than
  the new seal (`CachedRootsDiffer`, and `BindingAllOrNothing` for the condition).
- A bundle with two different capsules for one predecessor is applied and forks the chain (`ForkGoesThrough`, and
  `BundleKeepsChainExactly` for the condition).
- The unweighted 2f + 1 check is a guarantee for committees of 3f + 1 only (`UnweightedExact`).
- A join that fails after preparing never releases the versions it prepared: the committee stays bound to that operation
  (`FailedJoinReserves`, `FailedJoinBlocksAlice`).
- An operation's identifier is never recomputed when it is validated (ccd_nexus/domain.py:51-58), and the dependency a
  vote names covers parents and inputs (ccd_nexus/models.py:108-115). Two signed operations with other writes can
  therefore share both, and are then one to the committee: a domain prepares both and a certificate for one applies the
  other (`BothTwinsPrepared`, `CertificateAppliesTwin`). What a preparation or a certificate excludes is any other
  identifier or dependency, and exactly that (`PreparedReserves`, `FailedJoinReserves`).
- The token bucket grants more than its rate when the clock goes to and fro. `RateHoldsExactly` says at which request
  times it keeps to it; they include all that never go back (`OneWayIsSteady`).
- A beacon round of 2^64 or more raises an OverflowError rather than the coordinator's own error; like a failed check, it
  changes nothing.

## Model

| member | source | states |
|---|---|---|
| GaloisField.GfMul | mosaic/availability.py:154-163 | the shift-and-reduce loop computes multiplication in GF(256) for every pair of bytes |
| GaloisField.GfPow | mosaic/availability.py:166-170 | repeated multiplication is the power of the field element, for every exponent |
| GaloisField.GfInv | mosaic/availability.py:173-176 | zero is refused; otherwise the result times the argument is one |
| GaloisField.DoublingReduces | mosaic/availability.py:151-163 | doubling shifts left and takes 0x11D away when a ninth bit appears |
| GaloisField.MulAssociates | mosaic/availability.py:154-163 | field multiplication is associative |
| GaloisField.MulCommutes | mosaic/availability.py:154-163 | field multiplication is commutative |
| GaloisField.MulAddLeft | mosaic/availability.py:154-163 | multiplication distributes over addition |
| GaloisField.Fermat | mosaic/availability.py:166-176 | every non-zero element to the 255th power is one, which is why the 254th power inverts |
| GaloisField.NoZeroDivisors | mosaic/availability.py:154-163 | a product is zero only if a factor is |
| LinearAlgebra.GaussJordanCorrect | mosaic/availability.py:179-196 | for every n, elimination either returns R with R·A = I or stops at a non-zero x with A·x = 0 |
| LinearAlgebra.LeftInverseProduct | mosaic/availability.py:179-196 | a matrix that undoes A on every vector has the product R·A = I, entry by entry |
| LinearAlgebra.InvertibleIffNoKernel | mosaic/availability.py:179-196 | inversion succeeds exactly on matrices without a non-zero kernel vector |
| LinearAlgebra.MatrixInverse | mosaic/availability.py:179-196 | the pivoting loop over augmented rows returns that inverse, or raises "singular" exactly when there is none |
| LinearAlgebra.MatrixVector | mosaic/availability.py:199-213 | the shard-by-shard accumulation is the matrix product at every byte position |
| LinearAlgebra.ApplyShardsInverse | mosaic/availability.py:199-213 | applying A and then its inverse gives the shards back |
| Vandermonde.TooManyRoots | mosaic/availability.py:313-320 | a polynomial of degree below k with k distinct roots is zero |
| Vandermonde.MinorDecides | mosaic/availability.py:313-320 | the chosen rows are invertible exactly when the minor of lost columns and parity rows is |
| Vandermonde.OneLossInvertible | mosaic/availability.py:313-320 | losing at most one data shard never makes the rows singular, for any k |
| Vandermonde.AllParityInvertible | mosaic/availability.py:313-320 | k parity shards always suffice |
| Vandermonde.TwoLossesExact | mosaic/availability.py:313-320 | with data columns i < j lost and parity points x, y, recovery works exactly when x^(j-i) differs from y^(j-i) |
| Vandermonde.SmallCodecInvertible | mosaic/availability.py:313-320 | for k at most 3 any k distinct shards suffice |
| Vandermonde.TwoParityExact | mosaic/availability.py:313-320 | a codec with two parity shards recovers from every choice exactly when no column gap makes their powers meet |
| Vandermonde.FiveOfNineFails | mosaic/availability.py:300-301 | the "any k of n" promise fails for 5 data and 4 parity shards |
| AnyK.AnyKExactly | mosaic/availability.py:312-320 | every choice of k of the k + m rows is invertible exactly when every square minor of the parity block is |
| AnyK.PromiseKeptExactly | mosaic/availability.py:300-368 | a codec its constructor accepts recovers every object from any k genuine shards exactly when no such minor is singular |
| ErasureCodec.BigEndianRoundTrip | mosaic/availability.py:322-341 | the 8-byte length frame is read back as written |
| ErasureCodec.UnframeFrame | mosaic/availability.py:343-368 | unframing drops frame and padding and returns the payload |
| ErasureCodec.Encode | mosaic/availability.py:322-341 | the loops produce frame, padding, data and parity shards as specified, for every payload below 2^64 bytes |
| Recovering.DataInPlain | mosaic/availability.py:322-341 | the first k shards, joined, are eight bytes of length, the payload and zeros |
| Recovering.ShardsAreShort | mosaic/availability.py:322-341 | k shards hold the frame, and k shards a byte shorter would not |
| ErasureCodec.EncodedAreGenuine | mosaic/availability.py:322-341 | any selection of encoded shards is what recovery's guarantees are about |
| ErasureCodec.Recover | mosaic/availability.py:343-368 | the method takes the k lowest indices, checks, inverts, unframes and compares digests as specified, error for error; what that returns is said by the next rows |
| Recovering.RecoverExactly | mosaic/availability.py:343-368 | over any shards, recovery returns p exactly when there are k distinct indices and the chosen shards verify, agree, have invertible rows, are the coded rows of data that holds p, and carry the digest of p |
| Recovering.RecoveredMatchesDigest | mosaic/availability.py:365-368 | whatever is returned has the content digest of every chosen shard |
| Recovering.RelabelledExactly | mosaic/availability.py:343-368 | shards of one payload under the content digest of another raise |
| Recovering.SelectedIsLowest | mosaic/availability.py:344-347 | the k lowest indices are used, and of shards with one index the last |
| ErasureCodec.RecoverGenuine | mosaic/availability.py:343-368 | from genuine shards recovery returns exactly the payload when the chosen rows are invertible, and raises when not, without leaning on the content digest |
| ErasureCodec.ErasureGuarantee | mosaic/availability.py:300-368 | recovery succeeds with at most one data shard lost, from parity alone, and always for k at most 3 |
| ErasureCodec.Repair | mosaic/availability.py:370-377 | the method returns the re-encoded shards of the missing indices in order |
| ErasureCodec.RepairGenuine | mosaic/availability.py:370-377 | repaired shards equal the originals |
| ErasureCodec.RepairCovers | mosaic/availability.py:370-377 | every missing index gets its own original shard |
| Recovering.RepairExactly | mosaic/availability.py:370-377 | over any shards, repair returns in increasing order exactly the missing indices, each as the encoder makes it from what was recovered for the object of the first shard, and raises for indices out of range |
| AvailabilityStores.AvailabilityStore.Put | mosaic/availability.py:392-402 | a shard is filed, or refused for a mismatch or a conflicting copy, with nothing else changed |
| AvailabilityStores.AvailabilityStore.Repair | mosaic/availability.py:413-425 | from genuine shards, given or on the shelf, either nothing is missing after repair and every shard is the original, or nothing changed |
| Quorums.QuorumsMeet | mosaic/protocol.py:43-49 | two sets reaching (2W)//3+1 share more than a third of the weight |
| Quorums.HonestIntersection | mosaic/safety.py:52-72 | with Byzantine weight at most a third they share an honest member of positive weight |
| Quorums.WeightedCheckAlwaysHolds | mosaic/safety.py:52-72 | the weighted check is true whenever its guards pass |
| Quorums.ThresholdIsStrict | mosaic/safety.py:44-49 | reaching the threshold is the same as exceeding two thirds |
| Quorums.UnweightedExact | mosaic/safety.py:12-41 | the unweighted check holds for all admissible quorums exactly when n = 3f + 1 |
| Quorums.UnweightedFails | mosaic/safety.py:27-41 | for n = 3f + 2 and 3f + 3 there are admissible quorums it fails on |
| Certificates.SortSpec | mosaic/model.py:174-176 | sorting receipts by witness gives a sorted permutation |
| Certificates.LastReceiptsSpec | mosaic/protocol.py:235 | a dict keyed by witness keeps one receipt per witness |
| Certificates.ReceiptWeightIsWeight | mosaic/protocol.py:244 | receipts of distinct witnesses weigh what the witnesses weigh, so repeats add nothing |
| Collecting.CloseSucceedsExactly | mosaic/protocol.py:270-291 | close succeeds exactly on a valid capsule with enough counted weight, or without receipts when the node may take the lock and has every member's key, of some weight, as long as its predecessor is undisputed; its proof passes verify_closure |
| Collecting.CollectClaimed | mosaic/protocol.py:216-225 | a node that may take the lock signs for all its keys in name order; closing, the first key it lacks raises |
| Collecting.AbandonSucceedsExactly | mosaic/protocol.py:304-321 | abandon succeeds exactly on an unclosed capsule with enough counted weight, or without receipts when the node may take the lock and its loaded keys weigh enough |
| MosaicProtocols.MosaicProtocol.CollectReceipts | mosaic/protocol.py:216-225 | the loop witnesses for each member in name order, skipping the exceptions each kind skips |
| Closing.CountedMakeProof | mosaic/model.py:174-207 | counted receipts of one capsule always make a proof about that capsule |
| Proofs.CreatedExactly | mosaic/model.py:174-207 | a proof is made exactly from some receipts of one kind that agree on capsule, predecessor, epoch and attempt, and is about these, with the same receipts in order |
| Proofs.ClosureNamesWitnesses | mosaic/protocol.py:227-255 | a closure that verifies names each witness of its receipts once and nobody else, all members, with a quorum of weight |
| Proofs.AbandonIsFiled | mosaic/protocol.py:304-321 | a proof of abandonment is filed for its capsule, which is not closed, and nothing else changes after collecting |
| Proofs.BundleExactly | mosaic/protocol.py:433-468 | a bundle is applied exactly when it has entries, each with its closure on file, verified, on a current seal, and lists exactly their proofs |
| Claims.AcceptExactly | mosaic/protocol.py:168-198 | a member accepts a proper capsule on a current seal exactly when the predecessor is free, locked by this very attempt, or given up in an earlier one, and the lock is then this attempt's; any other lock leaves evidence |
| Claims.AbandonExactly | mosaic/protocol.py:168-214 | a member abandons a proper capsule exactly when the lock is free or its own attempt's and the capsule is not closed |
| Claims.GivenUpIsTaken | mosaic/protocol.py:191-214 | after an abandonment a later attempt on that predecessor, by any capsule, is accepted |
| Claims.OthersRefused | mosaic/protocol.py:168-214 | capsules that are not proper, other statuses, strangers, and capsules behind the current seal get no receipt and no lock |
| Disputes.RegisterExactly | mosaic/protocol.py:257-268 | a closure is filed exactly when it verifies and no conflict evidence names its predecessor; a closure on file is kept |
| Disputes.WitnessedConflict | mosaic/protocol.py:195-198 | a refused claim leaves evidence on record that names both capsules |
| Disputes.EvidenceRefuses | mosaic/protocol.py:257-338 | with evidence about the predecessor, registering, closing and a first apply raise with nothing changed |
| Disputes.EvidenceRefusesClose | mosaic/protocol.py:270-291 | close raises then also when it collects receipts itself, with closures and seals as before |
| Disputes.ContestedStaysOpen | mosaic/protocol.py:168-354 | however a run goes on, that evidence stays, and a capsule on the predecessor that was not closed by then is never closed and never applied |
| MosaicProtocols.MosaicProtocol.WitnessReceipt | mosaic/protocol.py:168-214 | the method takes, keeps or refuses the lock and signs, branch for branch |
| MosaicProtocols.MosaicProtocol.VerifyClosure | mosaic/protocol.py:227-255 | the method decides exactly what the specification of a valid closure says |
| MosaicProtocols.MosaicProtocol.RegisterClosure | mosaic/protocol.py:257-268 | the closure table after registering, or the refusal with nothing changed, as `Disputes.RegisterExactly` decides |
| MosaicProtocols.MosaicProtocol.Close | mosaic/protocol.py:270-291 | the state close leaves and the proof it returns, with the receipts given or collected; on a contested predecessor `Disputes.EvidenceRefusesClose` holds of it |
| MosaicProtocols.MosaicProtocol.Abandon | mosaic/protocol.py:304-321 | the state abandon leaves and the proof it returns, with the receipts given or collected |
| MosaicProtocols.MosaicProtocol.Apply | mosaic/protocol.py:323-354 | the seals apply leaves, including closures registered before it raises |
| MosaicProtocols.MosaicProtocol.TransitionOutcome | mosaic/protocol.py:378-424 | the outcome found by searching is one the state allows |
| MosaicProtocols.MosaicProtocol.ApplyBundle | mosaic/protocol.py:433-468 | all checks come before any change, then all seals are installed |
| SealChain.InstallKeepsChain | mosaic/protocol.py:344-354 | putting a successor on a current seal keeps every resource's seals one chain |
| SealChain.VersionsPresent | mosaic/protocol.py:344-354 | below a known seal every version back to 0 has its own known seal |
| SealChain.ConflictRaised | mosaic/protocol.py:195-198 | a claim on somebody else's lock always yields conflict evidence, never a missing key |
| Outcomes.StepKeeps | mosaic/protocol.py:57-77 | every operation, also a bundle that forks a chain, keeps seals linked and tables in order, drops nothing on record and meets no KeyError |
| Outcomes.OutcomesOverRuns | mosaic/protocol.py:378-424 | over any run, bundles that fork included, outcomes only move up None < Abandoned < Conflict < Closed, Closed holds exactly for applied capsules, every outcome is backed by its evidence, and every seal follows its predecessor; without forks the seals of a resource are one chain |
| Outcomes.RunChained | mosaic/protocol.py:323-468 | over any run without forking bundles every resource has one seal per version |
| Outcomes.FoundIsSuccessor | mosaic/protocol.py:386-396 | the successor search, which never compares resource ids, only ever finds the capsule's own successor |
| Outcomes.ObservedIsProven | mosaic/ectc.py:35-40 | every outcome a node may report is evidence-complete and its evidence is on record |
| Outcomes.ReportedAs | mosaic/protocol.py:378-424 | what a reported outcome says: the closure and the capsule's own seal, or the evidence and the other capsule on the same predecessor, or the abandon proof alone |
| Outcomes.ReapplyChangesNothing | mosaic/protocol.py:336-343 | applying a capsule again returns the same seal and changes nothing |
| Bundles.BundleInAnyOrder | mosaic/protocol.py:433-468 | a bundle without forks leaves what applying its entries one by one, in any order, leaves |
| Bundles.BundleKeepsChainExactly | mosaic/protocol.py:433-468 | a bundle keeps the seal chains exactly when no two entries put different capsules after one predecessor |
| ForkingBundle.ForkGoesThrough | mosaic/protocol.py:433-468 | a run from an empty node to a bundle that passes every check and forks the chain |
| Replicas.VerifiedIsCertified | mosaic/protocol.py:227-255 | a closure that verifies is backed by quorum weight of signers, however often receipts repeat |
| Replicas.WitnessAdvances | mosaic/protocol.py:168-214 | a lock's attempt never decreases, its capsule changes only with a higher attempt, and a node signs for the lock it then holds |
| Replicas.ReactSound | mosaic/network.py:679-789 | whatever message arrives, an honest node's step keeps its chains, its certificates and its locks in order |
| Agreement.ClosureExclusivity | mosaic/protocol.py:168-255 | in every run with accepting and abandoning mixed, closures verified anywhere at any time agree per predecessor and attempt |
| Agreement.CertifiedOnce | mosaic/protocol.py:168-198 | if honest nodes only accept, one capsule per predecessor can be certified, whatever the attempt |
| Agreement.SameSeal | mosaic/network.py:679-789 | any two honest nodes hold the same seal at every version of every resource |
| Agreement.ReplicaAgreement | mosaic/network.py:679-789 | in every such run one node's history of a resource is a prefix of the other's |
| MosaicNodes.MosaicNode.OnCapsule | mosaic/network.py:679-700 | the handler stores, witnesses, and parks the capsule exactly when it is invalid for now; any error but that and a conflict is passed on |
| MosaicNodes.MosaicNode.OnReceipt | mosaic/network.py:706-719 | the handler ignores repeats, pools the receipt, and tries to close when it verifies |
| MosaicNodes.MosaicNode.TryClose | mosaic/network.py:721-743 | the method leaves exactly the specified node, of which `Progress.TryCloseExactly` holds |
| Progress.TryCloseExactly | mosaic/network.py:721-743 | on a current, uncontested predecessor the capsule is closed, applied and its seal put exactly when the witnesses with a verified ACCEPT in the pool weigh at least the threshold; below it nothing changes |
| Progress.ReceiptCompletesQuorum | mosaic/network.py:706-743 | the new verified ACCEPT receipt that completes such a quorum closes the capsule, and one that does not leaves protocol and seals alone |
| Progress.ReceiptWaits | mosaic/network.py:706-719 | a repeated receipt changes nothing, and one that does not verify or is about an unknown capsule leaves the protocol alone |
| Progress.ClosureTakesEffect | mosaic/network.py:762-778 | a closure that verifies on arrival closes and applies its capsule there |
| Progress.PoolsStayFiled | mosaic/network.py:679-789 | every step keeps the pools with one receipt for each witness, about their own capsule |
| Answering.CapsuleIsSigned | mosaic/network.py:679-700 | a capsule the node may sign is signed whenever it arrives, until it is closed |
| Answering.ImproperIsParked | mosaic/network.py:688-693 | a capsule that is not proper yet is parked when it first arrives, and not signed |
| Answering.RetryAllSigns | mosaic/network.py:780-789 | the retry loop signs all parked capsules that may be signed by then |
| Answering.KeylessStops | mosaic/network.py:780-789 | without its key the node raises at the first of them, and the loop ends there |
| Answering.SubmittedIsStored | mosaic/network.py:642-659 | a submitted capsule that is not closed is stored |
| MosaicNodes.MosaicNode.OnClosure | mosaic/network.py:762-778 | register, apply, and retry what was waiting only if both went through |
| MosaicNodes.MosaicNode.RetryPending | mosaic/network.py:780-789 | the loop retries the waiting capsules whose predecessor is now current, up to one whose handler raises |
| Books.SlashExactly | mosaic/economics.py:242-274 | with the books in order a slash raises before any change or runs to the end |
| Accounts.SlashMoves | mosaic/economics.py:242-274 | a slash that passes takes the amount asked for, or all there is, from the bond; a named reporter gets the floor of its basis points of that, the treasury the rest, and no other account or bond changes |
| Accounts.FeeMoves | mosaic/economics.py:276-281 | a fee goes from the payer to the treasury and nowhere else |
| Accounts.FeeExactly | mosaic/economics.py:276-281 | a fee is taken exactly when positive, named, affordable and not taken so before |
| Accounts.FundMoves | mosaic/economics.py:188-194 | the account funded gains the amount, exactly once for a source |
| Accounts.BondMoves | mosaic/economics.py:196-213 | a bond takes its amount from its owner and is active until its own unlock epoch |
| Accounts.UnbondMoves | mosaic/economics.py:215-229 | a request moves no money and locks the bond until the later of its unlock epoch and the end of the delay |
| Accounts.WithdrawMoves | mosaic/economics.py:231-240 | a withdrawal pays the bond to its owner, not before its unlock epoch, and drops it |
| Books.SlashBooks | mosaic/economics.py:242-274 | a slash moves the penalty from the bond to treasury and reporter and loses nothing |
| Books.BondBooks | mosaic/economics.py:196-213 | bonding keeps the books, also when the event turns out a duplicate |
| Books.WithdrawBooks | mosaic/economics.py:231-240 | withdrawing keeps the books, also when it raises |
| Rewards.DistributeExactly | mosaic/economics.py:283-305 | a distribution loses value exactly when its guards and debit pass and a bond is unknown; otherwise it pays out exactly the total |
| Rewards.ShareFits | mosaic/economics.py:298-301 | floor shares never overdraw, and the last recipient takes exactly what is left |
| Rewards.ShareCovers | mosaic/economics.py:298-301 | every recipient but the last gets its floor share, and the last gets at least its own |
| Rewards.DistributesFairly | mosaic/economics.py:283-305 | a settled distribution records one reward per bond in sorted order, in proportion to the weights, adding up to the total, and every account gains exactly the rewards in its name, with the total taken from the treasury |
| LostReward.UnknownBondLoses | mosaic/economics.py:283-305 | a run from an empty ledger where naming an unknown bond loses the reward while audit stays true |
| SettlementLedgers.RunConserves | mosaic/economics.py:176-348 | over every run, also across calls that raise, balances plus bonds equal what was funded, and audit is true |
| SettlementLedgers.SettlementLedger.Slash | mosaic/economics.py:242-274 | the method leaves exactly the specified ledger, in which `Accounts.SlashMoves` says who gets what |
| SettlementLedgers.SettlementLedger.DistributeRewards | mosaic/economics.py:283-305 | the accumulating loop leaves exactly the specified ledger |
| MembershipRuns.AdmitExactly | mosaic/membership.py:487-527 | an admission that passes every check returns exactly when its bonding event is new; if not, the money is in a bond no validator has, and stakes, bonds and exits agree in any case |
| Admissions.AdmissionExactly | mosaic/membership.py:487-527 | an admission returns exactly for a new validator and a new deposit, signed for at least the minimum stake, with a matching, current bond its owner can pay |
| Admissions.AdmittedAs | mosaic/membership.py:487-527 | the record is the request: active, not jailed, not locked |
| Admissions.DepositUsedOnce | mosaic/membership.py:487-527 | over any run a deposit that admitted a validator admits none again |
| Sanctions.LeavesAs | mosaic/membership.py:545-584 | a validator that leaves is inactive and locked for the delay |
| Sanctions.LetGoExactly | mosaic/membership.py:586-621 | in any state a withdrawal returns exactly when the ledger pays and the record is inactive and its lock over; it forgets this validator and no other |
| Sanctions.SlashedExactly | mosaic/membership.py:623-659 | a slash returns exactly on genuine evidence of two different objects, not from the future, new to membership and ledger, against a bonded validator |
| Sanctions.SlashedAs | mosaic/membership.py:623-659 | the stake falls by what was asked, or to nothing, which jails; nobody else changes |
| Sanctions.FinedExactly | mosaic/membership.py:661-699 | a fine for silence is taken exactly once for a validator and round of the current epoch |
| MembershipRuns.ExitExactly | mosaic/membership.py:545-584 | an exit keeps validator and bond in step exactly when the epoch holds no earlier request of the same bond |
| MembershipRuns.PaidWithdrawalGoesThrough | mosaic/membership.py:586-621 | once the ledger's half of a withdrawal has returned, membership cannot refuse, and the amount paid is the recorded stake |
| MembershipRuns.WithdrawExactly | mosaic/membership.py:586-621 | for every delay and passed epoch, a withdrawal keeps stakes and bonds equal exactly unless the bond is due and an equal payment is already on record; then the bond is paid and gone and the validator still recorded |
| MembershipRuns.MembershipSlashExactly | mosaic/membership.py:623-659 | stake and bond stay equal exactly unless the evidence is from a future epoch; exits stay known exactly unless an exited validator is revived |
| MembershipRuns.StepExactly | mosaic/membership.py:487-711 | each operation keeps the books, and keeps stakes, bonds and exits together exactly when it takes none of the branches in which the ledger goes ahead of membership |
| MembershipRuns.RunOrderly | mosaic/membership.py:487-711 | over every run that takes none of those branches, whatever the delay and the epochs passed, every stake equals its own unshared bond, and a withdrawal whose ledger half returns goes through |
| MembershipRuns.PromptRunsKeep | mosaic/membership.py:545-621 | with a delay of at least one, no exit and no withdrawal up to the manager's own epoch ever takes such a branch |
| ReusedBond.SecondStayReached | mosaic/membership.py:487-621 | five operations from an empty manager lead to a reused bond within an epoch, for every delay when the withdrawal passes the epoch, without a delay in any case |
| ReusedBond.SecondExitLeavesRecordBehind | mosaic/membership.py:545-584 | there the exit raises after the ledger changed |
| ReusedBond.PaidWithdrawalRefused | mosaic/membership.py:586-621 | there the next withdrawal is paid by the ledger and refused by membership |
| ReusedBond.SecondBondingStrands | mosaic/membership.py:487-527 | after such a stay, admitting a second validator with the same bond takes the money and raises |
| RepeatedPayment.RepeatedPaymentStrands | mosaic/membership.py:586-621 | a run from an empty manager, for every delay, with every exit clean, where a withdrawal pays the bond out and raises, and the validator stays recorded with its stake |
| LateSlash.EarlyEvidenceParts | mosaic/membership.py:623-659 | a run from an empty manager where evidence from the next epoch costs the bond, not the stake, and can no longer be applied when its epoch comes |
| LateSlash.RevivedAndRefused | mosaic/membership.py:586-659 | a run from an empty manager where a slash revives a validator that left, whose withdrawal is then paid and refused |
| MembershipManagers.MembershipManager.Admit | mosaic/membership.py:487-527 | the method leaves exactly the specified ledger and records |
| MembershipManagers.MembershipManager.Slash | mosaic/membership.py:623-659 | the method leaves exactly the specified ledger and records, ledger first |
| PenaltyRuns.PenaltiesGoThrough | mosaic/randomness.py:77-101 | no penalty of a settleable round raises, and exactly the silent validators lose it from stake and bond |
| RoundSettlements.RewardsGoThrough | mosaic/randomness.py:103-113 | the rewards of a settleable round go through and each owner gains the reward once per bond |
| BeaconRuns.SettlesExactly | mosaic/randomness.py:38-126 | what a settled round moves, account by account and bond by bond |
| Submissions.CommitmentExactly | mosaic/beacon.py:81-97 | a commitment is taken exactly from an active validator that signed it, for a round of this epoch, as its first |
| Submissions.RevealExactly | mosaic/beacon.py:99-118 | a reveal is taken exactly from an active validator that signed it, of the secret it committed to, as its first |
| Submissions.RevealsOpenCommitments | mosaic/beacon.py:81-118 | over every run each reveal on record opens the commitment of the same validator and round, and neither is ever replaced |
| Submissions.OneSecret | mosaic/beacon.py:81-118 | a validator can reveal one secret only in a round, whatever happens in between |
| Beacons.BeaconExactly | mosaic/membership.py:736-832 | reveals of more than two thirds of the active stake make the beacon if all open; else commitments of as much do if all stand |
| Beacons.RecordsRound | mosaic/randomness.py:115-126 | the record of a settled round names its epoch, who committed, who revealed, its mode, and its fines and rewards |
| BeaconRuns.FinalizeAllOrNothing | mosaic/beacon.py:120-164 | for every round, also one no eight bytes hold, finalizing raises with nothing changed or pays exactly what the round owes, and a second call changes nothing, except exactly when the reward epoch is taken and somebody is fined |
| BeaconRuns.CollisionIsWithAnotherRound | mosaic/randomness.py:103-113 | a taken reward epoch belongs to a settled round of another epoch, a multiple of a million away |
| CollidingRounds.SecondRoundFinesAndRaises | mosaic/randomness.py:77-113 | a run from an empty coordinator to such a round, whose fines are taken before it raises |
| CoordinatedRuns.RoundStepExactly | mosaic/beacon.py:81-164 | a step of a mixed run keeps ledger, membership and rounds in step exactly when it takes none of the branches that part them |
| CoordinatedRuns.RoundRunsKeep | mosaic/beacon.py:81-164 | ledger, membership and rounds stay in step over every mixed run that takes none of those branches, with any delay and any epochs passed |
| CoordinatedRuns.PromptRoundsKeep | mosaic/beacon.py:81-164 | with a delay, rounds below a million, withdrawals up to the manager's own epoch and checked slashes, no step of a mixed run ever takes one |
| CoordinatedRuns.BelowMayDo | mosaic/randomness.py:103-113 | while all rounds stay below a million none collides |
| CoordinatedRuns.StartsCoordinated | mosaic/beacon.py:72-76 | an empty ledger, membership and coordinator are in step, with books that balance |
| BeaconCoordinators.BeaconRoundCoordinator.Finalize | mosaic/beacon.py:120-164 | the method with its settling loop leaves exactly the specified state |
| BeaconCoordinators.BeaconRoundCoordinator.Penalize | mosaic/randomness.py:77-101 | the loop slashes and penalizes in turn, up to the first that raises |
| Replay.StageGas | mosaic/execution.py:258-262 | gas used is the sum of the instruction costs and within the limit |
| Committing.CommitsExactly | mosaic/execution.py:243-305 | a transaction that is not cached commits exactly when it is signed, in turn, not too long, all instructions are well formed and add only to numbers, and 10, 8 and 12 for each SET, DELETE and ADD_INT stay within the gas limit |
| Committing.ValidatesWellFormed | mosaic/execution.py:41-57 | which instructions are well formed, with the limits on keys and values |
| Committing.RunsForCapsuleExactly | mosaic/execution.py:307-334 | a transaction is run for a capsule exactly when closure, seal, rule witness and roots fit; otherwise the executor is as before |
| Committing.Utf8Spec | mosaic/execution.py:41-57 | lengths are those of UTF-8 |
| Replay.ExecuteReplays | mosaic/execution.py:243-305 | executing keeps the state the replay of the committed transactions |
| Replay.RunReplays | mosaic/execution.py:243-349 | over any run of execute, execute_batch and execute_for_capsule the state is that replay and receipts record its roots |
| Replay.BatchAllOrNothing | mosaic/execution.py:336-349 | a batch goes through exactly when it is not empty and each transaction succeeds in the state the ones before it leave; otherwise state, nonces and receipts stay as they were |
| Replay.NoncesInOrder | mosaic/execution.py:252-254 | a caller's transactions commit in nonce order and none commits twice |
| Replay.RootsChain | mosaic/execution.py:281-290 | each receipt starts at the root the one before ended with |
| Journal.OtherKeysDoNotMatter | mosaic/execution.py:258-280 | an entry of the state after a transaction is what the instructions on its own key alone make of it |
| Journal.LastWriteWins | mosaic/execution.py:264-268 | a key whose last instruction sets or deletes it ends with that value or without an entry |
| Journal.AddsUp | mosaic/execution.py:269-273 | a key that is only added to ends at its integer before, or zero, plus the sum |
| Journal.CommittedJournal | mosaic/execution.py:259-305 | the events a receipt digests replay the new state from the old one, and the old one from the new, key by key |
| Binding.BindingAllOrNothing | mosaic/protocol.py:356-376 | if binding raises executor and seals are as before; if it returns the roots agree exactly when the transaction was not cached |
| CachedExecution.CachedRootsDiffer | mosaic/protocol.py:356-376 | a run of executor and node where binding a cached transaction leaves them at different roots |
| DeterministicExecutors.DeterministicExecutor.Execute | mosaic/execution.py:243-305 | the staged loop commits or leaves everything but the receipt alone |
| DeterministicExecutors.DeterministicExecutor.ExecuteBatch | mosaic/execution.py:336-349 | a failed batch restores the snapshot |
| DeterministicExecutors.ApplyExecution | mosaic/protocol.py:356-376 | executor and protocol after binding, with the executor restored on every exception |
| Committees.OneStatementPerKey | ccd_nexus/quorum.py:60-153 | a committee never certifies two different pairs of operation identifier and dependency for one epoch, domain, versions and phase |
| Committees.NoTwoCertificates | ccd_nexus/quorum.py:60-153 | that holds over all sequences of votes from anywhere |
| Committees.IssuedVerifies | ccd_nexus/quorum.py:100-216 | what the committee issues passes its own verification |
| Votes.VoteExactly | ccd_nexus/quorum.py:60-98 | a genuine vote is taken exactly when its validator is on record for nothing else on the key |
| Votes.SecondStatementIsEvidence | ccd_nexus/quorum.py:76-92 | a genuine vote for another statement is refused and filed as evidence naming both operations |
| Votes.EvidenceOnlyThen | ccd_nexus/quorum.py:60-98 | no other vote adds evidence |
| Votes.CertificateExactly | ccd_nexus/quorum.py:155-216 | a certificate passes exactly for its own key and statement with genuine signatures of more than two thirds of the weight |
| Votes.AppliedIsCertified | ccd_nexus/domain.py:173-196 | what is applied is signed by its client, certified by such a quorum, and writes only objects its signer owns at the versions read |
| Declarations.ValidatesExactly | ccd_nexus/domain.py:51-99 | when a domain validates an operation, said with the sets of domains and objects it names |
| Declarations.KeyNamesVersions | ccd_nexus/domain.py:46-49 | votes are keyed by exactly the versions of this domain's objects the operation reads |
| Declarations.CoversExactly | ccd_nexus/join.py:58-63 | a join's certificates cover the operation exactly when it declares the domains there are, each once |
| Declarations.OtherCertificateRefused | ccd_nexus/domain.py:144-154 | a certificate other than the one prepared is refused |
| Joins.FinalizeAtomic | ccd_nexus/join.py:142-160 | a join applies in every domain or leaves every domain's objects untouched |
| Joins.ApplyAllWrites | ccd_nexus/domain.py:173-196 | once all commit certificates exist no apply_committed can raise |
| Writing.ApplyWrites | ccd_nexus/domain.py:173-196 | after an apply each object with an intent has exactly that intent's owner and payload at the next version, every other object is as before, and the operation is recorded with its certificate |
| Writing.JoinWrites | ccd_nexus/join.py:142-160 | after a join that succeeds this holds in every domain |
| JoinOutcomes.PrepareExactly | ccd_nexus/domain.py:114-142 | preparing succeeds exactly when the domain validates the operation and a committee with weight has nobody on record for something else |
| JoinOutcomes.FinalizeSucceedsExactly | ccd_nexus/join.py:142-160 | a join succeeds exactly when there are domains, each is declared once and validates the operation, and a committee with weight has no validator bound otherwise in either phase, all judged before the call |
| JoinOutcomes.PreparedReserves | ccd_nexus/quorum.py:76-98 | once an operation is prepared, another one on the same inputs is ever prepared exactly when the domain validates it and it has the same identifier and dependency |
| Reservations.FailedJoinReserves | ccd_nexus/join.py:142-160 | a join that fails after its first domains could prepare leaves their objects alone; from then on exactly the valid operations with its identifier and dependency can be prepared on those versions, and no join of any other succeeds |
| Reservations.FailedJoinBlocksAlice | ccd_nexus/join.py:142-160 | a join, reached from empty domains, that one owner refuses, after which the other owner's own valid operation is refused |
| Twins.CertificateAppliesTwin | ccd_nexus/domain.py:173-196 | a certificate for one operation applies any valid one with its identifier and dependency, with that one's own writes |
| Twins.BothTwinsPrepared | ccd_nexus/domain.py:51-142 | a run from empty domains to two operations that give one version of an object to different owners, both prepared, the certificate of the first passing for the second |
| Spending.AppliedAccounted | ccd_nexus/domain.py:173-196 | applying an operation moves each written object one version and no other |
| Spending.NoDoubleSpend | ccd_nexus/domain.py:51-99 | committed operations on one object spent different versions, in order |
| JoinRuns.RunsAreSound | ccd_nexus/join.py:142-160 | over every run versions are initial version plus committed operations, and certified statements never disagree |
| JoinCoordinators.QuorumCommittee.RecordVote | ccd_nexus/quorum.py:60-98 | the method records, refuses, or files equivocation evidence as specified |
| JoinCoordinators.DomainExecutor.ApplyCommitted | ccd_nexus/domain.py:173-196 | the method checks, writes and records as specified; what is then written is `Writing.ApplyWrites` |
| JoinCoordinators.JoinCoordinator.Finalize | ccd_nexus/join.py:142-160 | prepare all, commit all, then apply all, over distinct executors |
| Limiters.AcceptRefines | mosaic/security.py:57-68 | a message is refused exactly when it is among the last entries accepted and within the time to live, and the map stays a suffix of the log |
| Limiters.GuardRuns | mosaic/security.py:49-68 | that holds at every call of every run in time order |
| Limiters.ReplayGuard.Accept | mosaic/security.py:57-68 | the expiry and eviction loops do exactly this |
| Limiters.RateLimit | mosaic/security.py:71-92 | from any request to any later one at most capacity plus refill is granted, and tokens stay within bounds |
| Limiters.GrantedExactly | mosaic/security.py:82-92 | a request is granted exactly when it fits the tokens and refill since the start and, for every earlier request, a full bucket and refill less what was granted from that request on |
| Limiters.RateHoldsExactly | mosaic/security.py:71-92 | for a full bucket and given request times, no amounts break the rate, with time that goes back counting as none, exactly when the clock's steps nowhere top up an emptied bucket by more than the time it has advanced |
| Limiters.OneWayIsSteady | mosaic/security.py:82-92 | times that never go back are such times, and so are times that never go forward |
| Limiters.ToAndFroIsUnsteady | mosaic/security.py:82-92 | a step back beside a step forward that does not overfill the bucket is not |
| Limiters.BackwardsClockOvergrants | mosaic/security.py:82-92 | for one: a bucket of one token grants two at the same time after the clock went back |
| Limiters.TokenBucket.Allow | mosaic/security.py:82-92 | the method refills, grants or refuses as specified |

## Left out

- Sockets, framing, TLS, timing, retries, metrics, status queues and the daemon: only what a handler does to the state, and which receipts it signs, is modelled.
- Ed25519, SHA-256, JSON and base64 codecs, the vault and key derivation: digests and signatures are symbolic.
- Storage and restart: `_restore` does not bring locks back and `restore_admission` resets stakes, so restarts are outside every run.
- Sampling proofs and availability certificates: repeated quorum checks on receipts-like attestations.
- `create_capsule` and `bundle_closure`: capsules and bundles are arguments here, from anywhere.
- Members without any public key, and negative weights.
- Messages a node broadcasts other than receipts: a closure in flight may be any closure built from genuine receipts.
- Several epochs in one replica run: members, epoch and genesis are fixed, as for one snapshot.
- Restarting, equivocating on purpose and other behaviour of Byzantine nodes is not modelled step by step; they may send anything but receipts in an honest member's name.
- Committee ticket selection, epoch seeds and beacon values: a round's settlement records its mode and participants.
- MembershipManagers.MembershipManager.Admit: does not model admission without a settlement ledger, nor the returned certificate, which is a digest of the request, the epoch and the approvers passed in and is read by nothing modelled here.
- AvailabilityStores.AvailabilityStore.Repair: says nothing of shards that verify and yet are not the encoder's, which the source may file and repair from.
- MembershipRuns.StepExactly: the epoch counter has no upper end, where the source fails to hash an epoch of 2^64.
- Exits, withdrawals and slashes of a membership without a settlement ledger, and administrative restores.
- Direct calls of the ledger or of settle_round beside membership and coordinator, in the runs where stakes and rounds are kept in step.
- Message texts of exceptions, and which of several failing checks is reported first where the source has one error class for them.
- The execution binding record: it is a digest of values the model compares directly.
- Join and availability certificates' own signature lists: every validator signs them on the spot and they are checked at once.
- The order in which the validators of a committee vote: by name here, by dict order there; it decides only which votes are on record after a refusal.
- Certificates listing a signer twice, and votes counted in bytes: signatures are kept one per signer.
- Floating-point rounding in the limiters: time and tokens are real numbers.
- Governance, the event log's hash chain, and CCD/NEXUS membership and networking.
