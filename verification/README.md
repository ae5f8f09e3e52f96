# A model of the SafeStake operator, with proofs

SafeStake runs one Ethereum validator on several operators. The operators generate a shared key, each of them
checks a duty and signs it with its own share, and any threshold of partial signatures combines into the
signature of the validator. This project models the parts of the operator on which that rests and proves what
they promise, for all inputs and all runs. `dafny verify dfyconfig.toml` checks it.

## How things are modelled

- Scalars are integers modulo a prime `q`. A group element is its discrete logarithm to the fixed generator,
  so the generator is 1, the second generator is a number `h`, and a multiple of a point is a product. That is
  enough for the algebra; nothing here is about the hardness of logarithms.
- Ciphers, channel signatures, the challenge hash, point compression and random choices are parameters.
  The only thing assumed of them is stated where it is used (decrypting undoes encrypting, decompressing
  undoes compressing).
- Protocols among parties are state machines. A step is one send, one receive, one access to a shared map, or
  one atomic database operation of one party, and the theorems hold for every interleaving.
- Objects with fields that the operator updates in place are classes. Loops stay loops.
- Clocks, file contents, answers of beacon nodes and statuses of nodes are parameters or arbitrary inputs.

## Modules

| module | about |
|---|---|
| `Field`, `Collections` | congruences and inverses modulo a prime; finite sets and lists |
| `Polynomial`, `Shamir`, `Threshold`, `Aggregation` | evaluation and commitment, key splitting, Lagrange interpolation, choosing and combining partial signatures |
| `Dleq`, `Disputes`, `GroupKeys`, `KeyGeneration` | the verified key generation with arbitrary dealers, phase by phase and as a whole |
| `Complaints` | the dispute phase: who stops, and whom the error names |
| `DishonestDealers` | what dealers can do to the keys without being noticed |
| `DkgParty`, `DkgHonest`, `DkgRun`, `HonestGeneration` | both key generations as whole runs among honest parties |
| `AnyMessages` | what the program of a party in such a run does with messages of any kind |
| `GeneratedKeys` | signing with generated keys |
| `Connection`, `ConnectionSafety`, `ConnectionRun`, `ConnectionAcks`, `ConnectionLive` | how the parties connect |
| `Signing` | slashing protection of one operator, and of the committee as a whole |
| `Doppelganger`, `Guard` | when a validator may start to sign, and that nothing is signed before |
| `CommandQueue` | the queue of contract commands |
| `Validators`, `KeyCache` | running validators beside their definitions; the cache of decrypted keys |
| `Fallback` | asking several beacon nodes |

## Where the code differs from its comments, or from what one might expect

The model follows the code.

- A comment in the doppelganger service says that one detected doppelganger enables the checks on all
  validators. The code does so only for the validators that are answered for; `ViolationDisables` states
  exactly when everybody ends up disabled and `ViolationCanSpareSomebody` gives a run in which one does not. The
  shutdown is not requested when an answer about the previous epoch is malformed, even after a violation.
- The same comment says "technically only 2**64 epochs". `DisabledForEver` shows that no number of later
  answers enables a disabled validator again.
- `updatetime_contract_command` sends the request that deletes the row, so a failed command is not retried. Only
  a command that was interrupted between handing out and deleting is handed out again, and then its new time can
  put it before older rows; `OldestFirstIff` says exactly when.
- A party that receives a claim against itself looks up a channel to itself and panics instead of judging the
  claim; `ClaimJudgedAsByIssuer` and `PanicsIffAccused` say when.
- The claims of one party arrive in the order of its own map and are received in the order of the receiver's, so
  the error about invalid shares can name another dealer than the one whose claim was accepted. `NamesOnlyBadIff`
  and `NamesTheProvenIff` state exactly when it cannot; `ErrorCanNameGoodDealer` and `ErrorCanNameUnproven` give
  instances with two complaints.
- A dealer signs the encrypted share but not the commitments beside it, so the commitments in a claim are the
  issuer's word. `ClaimJudgedByItsCommitments` states what third parties then accept, and
  `EverySignedShareCanBeDisputed` that this includes a claim about any good share.
- A zero share, group key or master key stops the key generation, because no key can be made of it.
  `EveryRunAgrees` excludes exactly that, and `ZeroStopsEveryRun` shows that it has to.
- The verified key generation does not compare the length of a dealer's commitments with the threshold.
  `AcceptedKeysSignIff` states exactly when the signatures of a quorum then combine to one of the master key, and
  `QuorumCanFail` gives accepted keys with which they do not.
- The parties never compare the commitments they were shown. `MasterKeysAgreeIff` states exactly when two parties
  still come out with one master key, and `MasterKeysCanDiffer` gives two accepting parties that do not.
- A distributed validator that cannot be started is passed over and the operation still succeeds, although the
  documentation of the update says that it exits early. `UpdateFailsIff` says exactly when an update does fail,
  `FailedStartIsPassedOver` gives an instance, and `UpdateKeepsConsistent` says what runs afterwards: the failed
  one is tried again by every later update.
- Started distributed keystores are put into the key cache, but only local keystores can decrypt it at the next
  start. `NextStart` states that one share of a distributed keystore empties the whole cache.
- Decrypting the key cache does not compare the number of passwords with the number of keys; `Decrypt` states
  when the lists come out matched.

## Model

| member | source | states |
|---|---|---|
| `Field.Reduce` | src/math/bigint_ext.rs:9-18 | truncated remainder and correction give the least non-negative residue, for negative numbers too |
| `Polynomial.HornerEval` | src/math/polynomial.rs:39-51 | the loop computes the sum of coefficients times powers, the empty list included |
| `Polynomial.Commit` | src/math/polynomial.rs:145-164 | one commitment per coefficient, to the low 255 bits of its magnitude; for coefficients in the field these are the commitments to the polynomial |
| `Polynomial.ScalarMeans` | src/math/polynomial.rs:150-157 | coefficients below 2^255 are their own scalar; sign and higher bits make no difference |
| `Polynomial.CommittedEval` | src/math/polynomial.rs:69-81 | running powers over the committed coefficients give the value of the committed polynomial |
| `Polynomial.CommittedEvalIsCommitment` | src/math/polynomial.rs:69-81 | evaluating the commitments at x equals committing the reduced value at x, for every coefficient list and every x |
| `Polynomial.ToBytes` | src/math/polynomial.rs:87-97 | the length modulo 2^32 as four bytes, highest first, then the compressed points in order |
| `Polynomial.FromBytes` | src/math/polynomial.rs:99-118 | stops exactly when the bytes end before the announced points do, and otherwise returns exactly those points |
| `Polynomial.RoundTrip` | src/math/polynomial.rs:87-118 | decoding what was encoded, followed by anything, restores the commitments if and only if there are fewer than 2^32 |
| `Shamir.KeySplit` | src/crypto/generic_threshold.rs:59-80 | shares are the values at the ids of a polynomial through the secret; stops at the first zero id or zero share |
| `Shamir.SharesDetermineSecret` | src/crypto/generic_threshold.rs:59-80 | t shares at distinct nonzero ids leave one coefficient vector, hence one secret |
| `Shamir.FewerSharesHideSecret` | src/crypto/generic_threshold.rs:59-80 | t - 1 shares are explained, for every possible secret, by exactly one coefficient vector |
| `Threshold.LagrangeCoeffs` | src/crypto/impls/blst.rs:19-40 | the nested loops compute the Lagrange coefficients at zero |
| `Threshold.ShortInterpolation` | src/crypto/impls/blst.rs:19-40 | they recover the value at zero of every polynomial with at most as many coefficients as nodes |
| `Threshold.LongInterpolation` | src/crypto/impls/blst.rs:19-40 | for longer polynomials they miss it by the node product times the value of the iterated quotient |
| `Threshold.UnsafeAggregate` | src/crypto/impls/blst.rs:67-87 | the combination of signatures with those coefficients |
| `Threshold.AggregateVerifiesIff` | src/crypto/impls/blst.rs:67-87 | a combination of verifying partial signatures verifies under the master key if and only if that quotient vanishes at zero; always when there are enough nodes |
| `Aggregation.SelectEntries` | src/crypto/generic_threshold.rs:143-170 | the loop picks the first verifying entry of each of the first t operators that have one, in input order; exact outcome in all cases |
| `Aggregation.ReachedIffEnough` | src/crypto/generic_threshold.rs:143-170 | without zero ids the threshold is reached if and only if t distinct ids have a verifying entry |
| `Aggregation.ThresholdAggregate` | src/crypto/generic_threshold.rs:132-175 | every error case exactly; which entries are combined; whatever the entries are, a returned signature verifies under the master key of the sharing polynomial |
| `Dleq.Completeness` | src/crypto/dkg.rs:649-692 | a proof is produced exactly for a common exponent, and every produced proof verifies |
| `Dleq.AcceptedIff` | src/crypto/dkg.rs:675-692 | a proof is accepted exactly if its challenge is the hash of the statement and of the two points x r + y c |
| `Dleq.SpecialSoundness` | src/crypto/dkg.rs:675-692 | two proofs with the same points, accepted under hashes with different challenges for them, force a common exponent |
| `Dleq.FalseStatementAnswersOneChallenge` | src/crypto/dkg.rs:675-692 | for a false statement, if a proof is accepted, none with the same points is accepted under a hash with another challenge |
| `Dleq.EveryAcceptedProofIsMadeOnce` | src/crypto/dkg.rs:649-692 | for a true statement every accepted proof is what the prover makes for exactly one random scalar |
| `Disputes.ShareVerification` | src/crypto/dkg.rs:432-450 | one result for every other dealer, true exactly if the opened share matches the commitments |
| `Disputes.ClaimIsIssued` | src/crypto/dkg.rs:468-489 | a claim can always be issued against another party, and reveals the channel key with a proof that verifies |
| `Disputes.ClaimJudgedAsByIssuer` | src/crypto/dkg.rs:468-518 | everybody but issuer and accused accepts a claim exactly if the dealer signed the payload and the issuer's own check failed; issuer and accused panic |
| `Disputes.DisputePhase` | src/crypto/dkg.rs:717-755 | the verdict of the phase, each case exactly: panic, abort because of valid claims with a list of exactly their places, abort because of own complaints, or continue |
| `Disputes.ClaimJudgedByItsCommitments` | src/crypto/dkg.rs:491-518 | for arbitrary commitments in a claim about a signed share: third parties accept exactly if the share misses these commitments, so never if they are the dealer's own and the share is good |
| `Disputes.EverySignedShareCanBeDisputed` | src/crypto/dkg.rs:491-518 | for every share with a good signature, right or wrong, there is a claim that all third parties accept |
| `Complaints.PanicsIffAccused` | src/crypto/dkg.rs:717-755 | with truthful reports, and the claims of a party in any order, a party panics exactly if it dealt a bad share |
| `Complaints.AcceptsIffSignedBadShare` | src/crypto/dkg.rs:717-755 | in any order of the claims, a party accepts one exactly if somebody else dealt a third party a signed bad share |
| `Complaints.ComplainsIffBadShare` | src/crypto/dkg.rs:717-755 | whatever the others report, a party aborts on its own account exactly if it was dealt a bad share |
| `Complaints.AllStopOrNoneStops` | src/crypto/dkg.rs:717-755 | if bad shares are signed, every party stops when there is one, and nobody stops when there is none, in any order of the claims |
| `Complaints.ReportedIff` | src/crypto/dkg.rs:728-748 | the pairs in the error are the places whose claim is about a dealer of a signed bad share; the place may be that of another complaint |
| `Complaints.NamesOnlyBadIff` | src/crypto/dkg.rs:728-748 | in every order the pairs (a, b) in the error are such that b dealt a a bad share, if and only if a party with a valid claim makes no false complaint beside it |
| `Complaints.NamesTheProvenIff` | src/crypto/dkg.rs:728-748 | in every order the error of a party that is not accused names exactly the complaints that are proved, if and only if every other party has only valid claims or none |
| `Complaints.ErrorCanNameGoodDealer` | src/crypto/dkg.rs:728-748 | two complaints of one party, one of them false, and an order in which the error names the dealer of the good share |
| `Complaints.ErrorCanNameUnproven` | src/crypto/dkg.rs:728-748 | two true complaints of one party, one about an unsigned share, and an order in which the error names the dealer of that one only |
| `GroupKeys.ConstructGroupKey` | src/crypto/dkg.rs:575-582 | if all shares verified, whoever dealt them, h times the key is the sum of the committed values and the key is F(party) |
| `GroupKeys.ExchangePublicKeys` | src/crypto/dkg.rs:520-573 | returns keys exactly when every received key carries a proof that verifies against the dealer's first commitment |
| `GroupKeys.ExchangeGroupPublicKeys` | src/crypto/dkg.rs:584-647 | returns keys exactly when every received key has a verifying proof and its auxiliary key equals the sum of the committed values |
| `GroupKeys.AcceptedKeysOnOnePolynomial` | src/crypto/dkg.rs:520-647 | for arbitrary dealers and commitments of any length, accepted group keys are F(id) and the master key is F(0) for one and the same F, if accepted proofs are sound |
| `KeyGeneration.Generate` | src/crypto/dkg.rs:706-793 | the whole run over arbitrary messages: it passes the dispute phase exactly if every share can be read and matches and no claim is valid; then fails exactly if a key proof is rejected; otherwise, if accepted proofs are sound, it returns the group keys F(id), the own key and the master key F(0) of the joint polynomial, or stops exactly if one of them is zero; the own proofs are never refused |
| `HonestGeneration.GenerateAgrees` | src/crypto/dkg.rs:706-793 | for the messages of honest parties the method returns what that party ends with in every interleaved run |
| `KeyGeneration.DealingIsChecked` | src/crypto/dkg.rs:417-450 | when the dispute phase goes on, every share, the own one included, matches its dealer's commitments |
| `KeyGeneration.DeriveKeys` | src/crypto/dkg.rs:757-793 | the second half of the run, from checked shares on |
| `DishonestDealers.JointsDifferByHonest` | src/crypto/dkg.rs:757-761 | the polynomials of two parties that were shown different commitments differ everywhere by a multiple of the product of (x - honest id) |
| `DishonestDealers.MasterKeysAgreeIff` | src/crypto/dkg.rs:757-769 | their master keys are equal exactly if that multiple vanishes at zero, and always if no commitment vector is longer than the number of honest parties |
| `DishonestDealers.MasterKeysCanDiffer` | src/crypto/dkg.rs:757-769 | two calls of the whole key generation, by two honest parties to whom one dealer shows different commitments, one of them too long; both return keys, with different master keys |
| `DkgHonest.ProduceIntended` | src/crypto/dkg.rs:249-337 | after the intended messages a party sends the intended next one, and stops exactly if a share or key is zero |
| `DkgHonest.FinishIntended` | src/crypto/dkg.rs:706-793 | after the intended messages a party returns its value, the master key and all public keys of the joint polynomial, unless a key is zero |
| `AnyMessages.FinishOnAnyMessages` | src/crypto/dkg.rs:706-793 | for messages of any kind: a party ends with a result only if every share, report, key and proof it was sent passes; if all do and the proofs are sound, the result is the values of the polynomial that the commitments it was shown add up to, unless one is zero |
| `AnyMessages.ReportsHonestly` | src/crypto/dkg.rs:432-450 | the report about a dealer is true exactly if its share matches its commitments, whatever it sent |
| `AnyMessages.KeySentIff` | src/crypto/dkg.rs:717-769 | a party sends its public key exactly if nobody complains, itself included |
| `DkgRun.ReceivesSameRound` | src/crypto/dkg.rs:249-337 | in every interleaving a receive yields the peer's message of the same round |
| `DkgRun.NeverStuck` | src/crypto/dkg.rs:706-793 | a run that is not complete has a next step |
| `DkgRun.RunKeepsProgramOrder` | src/crypto/dkg.rs:249-337 | in every run every party keeps its program order: what it waits for before each send and receive, and in which list order it broadcasts and reads the reports |
| `DkgRun.EveryRunAgrees` | src/crypto/dkg.rs:706-793 | in every interleaving of either variant, with any list order of each party, nobody stops, and all parties end with the shares, master key and key map of one polynomial |
| `DkgRun.ZeroStopsEveryRun` | src/crypto/generic_threshold.rs:68-78 | the condition is exact: if some share or key is zero, no run makes everybody return |
| `DkgRun.EveryRunEnds` | src/crypto/dkg.rs:706-793 | whatever the keys are, no run among n parties has more than twice the rounds times n squared sends and receives, and n stops |
| `GeneratedKeys.AgreedIsSharing` | src/crypto/dkg.rs:706-793 | the agreed key map and master key belong to one polynomial with at most threshold coefficients |
| `GeneratedKeys.SignWithGeneratedKeys` | src/crypto/dkg.rs:827-870 | with the agreed keys a signature is returned exactly if threshold operators have a verifying entry, and it verifies under the agreed master key |
| `GeneratedKeys.AcceptedKeysSignIff` | src/crypto/dkg.rs:584-647 | for keys on one joint polynomial, as the key generation returns them, a quorum's signatures combine to one of the master key exactly if the excess part of the polynomial vanishes at zero; always if no commitment is longer than the quorum |
| `DishonestDealers.QuorumCanFail` | src/crypto/dkg.rs:584-647 | a call of the whole key generation that returns keys although one commitment is longer than the quorum, and a quorum whose combined signature does not verify |
| `ConnectionSafety.FileKeeps` | src/network/io_committee.rs:128-134 | filing a socket under the id read from it keeps every link of the party in exactly one stage |
| `ConnectionSafety.NotifyKeeps` | src/network/io_committee.rs:135-143 | posting the permit, with or without an entry for the peer, keeps every link |
| `ConnectionSafety.TakeKeeps` | src/network/io_committee.rs:193-202 | `accept` finds the connection after its permit was consumed, and takes the one socket of the link |
| `ConnectionSafety.DialKeeps` | src/network/io_committee.rs:158-180 | dialling opens the one socket of the link |
| `ConnectionRun.MainKeepsInv` | src/network/io_committee.rs:309-348 | every step of the main task keeps all links and parties consistent |
| `ConnectionRun.ListenerKeepsInv` | src/network/io_committee.rs:113-145 | every step of the listener does |
| `ConnectionAcks.ChannelJoins` | src/network/io_committee.rs:317-329 | a party that is through with a peer holds the one named socket between them, the same one as the peer |
| `ConnectionAcks.StepKeepsAcks` | src/network/io_committee.rs:336-345 | an acknowledgement that was sent and not received is under way on the right socket |
| `ConnectionAcks.StepKeepsOnlySent` | src/network/io_committee.rs:336-345 | an acknowledgement that is under way was sent and not received, and one that was received was sent |
| `ConnectionLive.DoneWaitsForAll` | src/network/io_committee.rs:336-348 | nobody is done before everybody has gone through its list, holds a channel to everybody else and has sent its acknowledgement |
| `ConnectionLive.SocketsReachListeners` | src/network/io_committee.rs:158-180 | sockets are opened by higher ids, to parties that listen |
| `ConnectionLive.NeverStuck` | src/network/io_committee.rs:103-203 | for every list order of distinct ids: unless everybody is done somebody can move, and `accept` never returns none |
| `ConnectionLive.NoLostWakeup` | src/network/io_committee.rs:182-203 | a filed connection whose notification was posted has its permit when its party waits for it |
| `ConnectionLive.OneChannelPerPair` | src/network/io_committee.rs:309-348 | as soon as anybody is done, each pair of parties holds the one socket ever opened between them |
| `ConnectionLive.EveryRunEnds` | src/network/io_committee.rs:309-348 | no run among n parties has more than n (10 n + 4) steps |
| `Signing.Operator.CheckAndInsert` | src/validation/validator_store.rs:488-492 | the atomic check: a record is made exactly for a registered validator without the same or a conflicting record |
| `Signing.Operator.Sign` | src/validation/validator_store.rs:463-623 | every refusal exactly, among them a block for a later slot and an attestation for a later target epoch, which leave no trace; a duty that goes on from the recorded ones is never refused as slashable; the record is made before the doppelganger service is asked and stays when that refuses; a partial signature is stored only afterwards |
| `Signing.StepKeepsNodeValid` | src/validation/validator_store.rs:494-506 | the records of an operator never conflict and cover everything it signs, also when calls interleave |
| `Signing.CallKeepsNodeValid` | src/validation/validator_store.rs:463-623 | a whole call keeps that, and adds at most the duty to the records and the signatures |
| `Signing.AggregateHasQuorum` | src/crypto/generic_threshold.rs:132-175 | an aggregate is backed by threshold distinct operators, each of which misbehaves or has stored a signature |
| `Signing.RunKeepsInv` | src/validation/signing_method.rs:316-332 | both hold in every run |
| `Signing.NeverSlashableIff` | src/node/node.rs:49 | no run aggregates, for one validator, two blocks of one slot, two attestations of one target or one around another, if and only if 2t > n + f; so as deployed, with 3 of 4 and one misbehaving |
| `Signing.CanDoubleSign` | src/validation/signing_method.rs:264-355 | the run that does when the quorums can be disjoint among the honest |
| `Doppelganger.Service.ValidatorStatus` | src/validation/doppelganger_service.rs:347-367 | signing is enabled exactly if the validator is known and no epoch remains to be checked |
| `Doppelganger.Service.RegisterNewValidator` | src/validation/doppelganger_service.rs:373-407 | registration, also a repeated one, sets the progress of this validator only: first check in the next epoch, enabled at once exactly up to genesis |
| `Doppelganger.Service.ComputeDetectionIndices` | src/validation/doppelganger_service.rs:459-489 | exactly the validators that need checks and have an index, one per index |
| `Doppelganger.Service.FindViolators` | src/validation/doppelganger_service.rs:515-553 | the first loop finds exactly the asked validators that are live at or after their next check epoch |
| `Doppelganger.Service.ProcessLivenessResponses` | src/validation/doppelganger_service.rs:493-664 | the new progress of every validator and the error of the first bad answer; the shutdown fires exactly once if all answers are in order and one about either epoch says that a validator was live at or after its next check epoch, and then everybody answered for is disabled |
| `Doppelganger.ViolationDisables` | src/validation/doppelganger_service.rs:620-630 | a violation disables everybody answered for, and disables everybody exactly if everybody was disabled or answered for |
| `Doppelganger.BatchIsProcessed` | src/validation/doppelganger_service.rs:493-664 | the steps of a batch, one lock each, have the effect of the whole method if nobody is registered in between |
| `Doppelganger.OneBatchAtATime` | src/validation/doppelganger_service.rs:493-664 | the next batch starts when the last one has ended |
| `Doppelganger.ViolationCanSpareSomebody` | src/validation/doppelganger_service.rs:620-630 | a run in which a validator that needs no checks stays enabled after the violation of another |
| `Doppelganger.EachEpochCountsOnce` | src/validation/doppelganger_service.rs:144-153 | in every run, also with registrations between the answers of a batch, each decrement completes a satisfied epoch with an idle answer, and no two between registrations complete the same epoch |
| `Doppelganger.NeverEnabledEarly` | src/validation/doppelganger_service.rs:373-407 | in every run, a validator registered in epoch e after genesis is not enabled before the last slot of epoch e + 2 |
| `Doppelganger.EnabledOnTime` | src/validation/doppelganger_service.rs:577-656 | and it is enabled in that slot when it is then reported idle |
| `Doppelganger.DisabledForEver` | src/validation/doppelganger_service.rs:620-630 | an answer applied in a batch with a violation disables its validator in every continuation without re-registration |
| `Doppelganger.LiveValidatorNotEnabled` | src/validation/doppelganger_service.rs:511-553 | in every run, if an answer of a batch brings a validator closer to being enabled, no answer of the batch says that it was live in an epoch still to be checked |
| `Guard.NobodySignsEarly` | src/validation/validator_store.rs:347-383 | in every run of an operator with slashing protection and the service: the records never conflict, a signature is stored only after its record and then an approval, and for a validator registered in epoch e after genesis only after the service saw it idle in or after the last slot of epoch e + 2 |
| `Guard.NothingSignedAhead` | src/validation/validator_store.rs:463-556 | in every run there are records and signatures only for slots and target epochs up to the current one |
| `Guard.RecordedOnce` | src/validation/validator_store.rs:507-513 | in every run each duty is recorded, and so signed, at most once |
| `Guard.DutyCanBeSigned` | src/validation/validator_store.rs:463-556 | every run can be continued to a signature of any duty of an enabled validator that goes on from its records: it only has to wait for its slot or epoch |
| `CommandQueue.Queue.Get` | src/node/db.rs:762-782 | hands out a smallest-numbered command of an id that has a row of least update time, with key 0 exactly for an empty table, and touches its time |
| `CommandQueue.Queue.ProcessNext` | src/node/node.rs:182-217 | one round of the poll loop removes the row handed out, whether the command succeeds or fails |
| `CommandQueue.RunNumbered` | src/node/db.rs:724-747 | over all interleavings with deletions and restarts, the commands of an id are numbered 1, 2, 3, ... in order of insertion |
| `CommandQueue.HandedOutInOrder` | src/node/db.rs:762-782 | a command is never handed out while an earlier one of the same id is queued |
| `CommandQueue.HandedOutAsInserted` | src/node/db.rs:724-782 | the command handed out for a key, and whom it is for, are those of the insertion that got the key |
| `CommandQueue.OldestFirstIff` | src/node/db.rs:762-782 | in every run with a clock that does not go back: what is handed out has a least update time in the whole table if and only if it was not handed out before, later than the time of a queued row |
| `CommandQueue.OldestFirst` | src/node/db.rs:762-782 | so it always has one when rows are deleted before the next poll |
| `CommandQueue.WaitIsBounded` | src/node/node.rs:176-360 | whatever was interrupted before: while rows are deleted before the next poll, a command waits for at most as many polls as there are commands with no later time, waiting at the beginning or inserted since, and rows left by an interruption |
| `CommandQueue.NothingInterrupted` | src/node/node.rs:176-360 | without interruptions there are no such rows, and a waiting command has the time of its insertion |
| `CommandQueue.RestartBreaksOrder` | src/node/db.rs:762-782 | a run in which a restart between handing out and deleting makes a later poll pass over the oldest row |
| `Validators.Initialized.UpdateValidators` | src/validation/initialized_validators.rs:1110-1366 | for every state: that nothing changes if the cache or a keystore cannot be opened, which validators run afterwards otherwise, and how far an update that fails gets |
| `Validators.UpdateFailsIff` | src/validation/initialized_validators.rs:1110-1320 | if what starts has the key of its definition, an update fails if and only if the cache, or the keystore of an enabled local definition, running or not, cannot be opened, or a definition that is not distributed has to be started and cannot |
| `Validators.UpdateKeepsConsistent` | src/validation/initialized_validators.rs:1126-1320 | after a successful update from any consistent state, an enabled definition runs exactly if it ran before or starts now; all do exactly if all that have to start do |
| `Validators.FailedStartIsPassedOver` | src/validation/initialized_validators.rs:1229-1296 | an update that succeeds although an enabled distributed validator does not run |
| `Validators.Initialized.FromDefinitions` | src/validation/initialized_validators.rs:479-495 | loading any file: fails exactly as an update does; the running validators are the enabled definitions exactly if all start |
| `Validators.Initialized.AddDefinition` | src/validation/initialized_validators.rs:541-560 | refuses exactly duplicates; otherwise the exact new state, failure exactly as an update fails, and complete afterwards exactly if everything that has to start does |
| `Validators.Initialized.AddReplacingDisabled` | src/validation/initialized_validators.rs:526-538 | refuses exactly keys with an enabled definition; drops the disabled ones in either case |
| `Validators.Initialized.DeleteDefinition` | src/validation/initialized_validators.rs:566-631 | removes the definition and its validator, nothing else, from every state; refuses exactly unknown and remote ones |
| `Validators.RetainInOrder` | src/validation/initialized_validators.rs:526-631 | what is not removed stays in order, part by part |
| `Validators.RetainOne` | src/validation/initialized_validators.rs:526-631 | a definition is removed if it has the key, and when only disabled ones are to go, if it is disabled as well |
| `Validators.Initialized.DisableKeystore` | src/validation/initialized_validators.rs:643-693 | removes the validator and keeps its definition, disabled; refuses exactly unknown and remote ones |
| `Validators.Initialized.SetFields` | src/validation/initialized_validators.rs:814-857 | the definition gets the given fields and keeps the others, and every other definition stays; it is enabled exactly as given, or as before; after success the validator runs exactly if it is enabled and ran before or starts, with the given fields; agreement is kept, and completeness exactly if a newly enabled one starts |
| `Validators.Initialized.SetFeeRecipient` | src/validation/initialized_validators.rs:869-931 | sets or removes the fee recipient in definition and validator alike, in every state; agreement is kept |
| `Validators.Initialized.SetGasLimit` | src/validation/initialized_validators.rs:941-1003 | sets or removes the gas limit in definition and validator alike, in every state; agreement is kept |
| `Validators.Initialized.PerformAll` | src/validation/initialized_validators.rs:526-1003 | any sequence of operations, each with its exact effect, up to the first update that fails; whichever distributed validators fail to start in it, keys stay unique and every running validator equal to its enabled definition, and all of them run if none fails |
| `KeyCache.Cache.Add` | src/validation/key_cache.rs:222-231 | uuids, pairs and passwords stay matched if and only if the uuid was not there |
| `KeyCache.Cache.Remove` | src/validation/key_cache.rs:209-220 | removes the pair, the uuid and the password beside it, and no other password changes its uuid |
| `KeyCache.Cache.Save` | src/validation/key_cache.rs:140-156 | writes exactly when there are unsaved changes, and then what opens with the passwords to the secrets of the pairs |
| `KeyCache.Cache.Decrypt` | src/validation/key_cache.rs:173-207 | succeeds exactly if the joined password opens the file and every public key fits, and otherwise names the first misfit; restores exactly the listed pairs; matched exactly if uuids are distinct and as many passwords were given; what each error says about the text |
| `KeyCache.RoundTrip` | src/validation/key_cache.rs:112-207 | saving, opening and decrypting a matched cache restores the same uuids, passwords and pairs |
| `KeyCache.DecryptKeyCache` | src/validation/initialized_validators.rs:1019-1095 | keeps the cache exactly if every uuid in it is that of an enabled local keystore and their passwords and public keys decrypt it; otherwise replaces it by an empty one |
| `KeyCache.NextStart` | src/validation/initialized_validators.rs:1019-1095 | after saving, the next start recovers all keys if all are of enabled local keystores, and otherwise none |
| `Fallback.FirstSuccess` | src/validation/beacon_node_fallback.rs:404-500 | asks the usable candidates of the schedule in turn and returns the first answer; succeeds if and only if some candidate suits at the first look, at the second or after the refresh and answers; otherwise the exact list of errors of all passes; marks exactly those asked in vain as offline, if told to |
| `Fallback.AskedProperly` | src/validation/beacon_node_fallback.rs:449-496 | whatever the statuses do, nobody is asked twice, ready before unsynced before refreshed, each in list order, and with sync required only candidates that were ready at one of the looks |
| `Fallback.FailsIff` | src/validation/beacon_node_fallback.rs:449-499 | nobody in the schedule answers if and only if every candidate is unusable or fails, wherever the schedule puts it |
| `Fallback.ScheduledOnce` | src/validation/beacon_node_fallback.rs:449-496 | every candidate has exactly one place in the schedule |
| `Fallback.RunOnAll` | src/validation/beacon_node_fallback.rs:512-617 | exactly one result per candidate, in the order of the schedule; success exactly if every candidate suits at one of the looks and answers |
| `Fallback.ResultMeans` | src/validation/beacon_node_fallback.rs:512-617 | the result of a candidate: done, failed, or unavailable with the refreshed status, each exactly when |

## Left out

- The internals of BLS, AES, hashing and TCP; they are replaced by their algebra or by parameters as described above.
- The hardness assumptions behind the cryptography: nothing is proved about what an adversary can compute.
- Several Byzantine parties in one interleaved run: `DkgRun` is about honest parties, `KeyGeneration` about one honest party and arbitrary messages, `DishonestDealers` about two.
- The soundness of accepted proofs, which rests on the challenge hash: `Generate` states its result for accepted proofs that are sound.
- The key exchange of `SecureNetIOCommittee::new`; it repeats the pattern of the acknowledgements.
- Failing and repeated TCP connections: dialling succeeds once the peer listens, and connections do not break.
- The consensus among operators before aggregation; it only restricts when `Signing` aggregates, so its safety results hold without it.
- The internals and the pruning of the slashing protection database; it is an atomic check against everything ever recorded.
- Choosing the aggregating operators and reporting; they do not affect what can be aggregated.
- Duties other than blocks and attestations; no slashing rule protects them.
- The other tables of the database and the contract log; simple reads and writes.
- The 32-bit width of row keys and sequence numbers in the command queue.
- Carrying out a command: what it does to the node is not modelled, only that its row is removed afterwards.
- Lock files, directories and password prompts of the keystores; opening files and starting a validator are parameters, and saving succeeds.
- Which keys `from_definition` puts into the cache and which uuids an update removes: the cache is modelled by itself, with the condition under which callers keep it matched.
- Refreshing a beacon node's status: its result is a parameter.
- Duty, block, attestation and sync committee services, graffiti and fee recipient files, discovery, command line and metrics; only easy members would be added.
