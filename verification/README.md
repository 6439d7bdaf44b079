# Liquent verification

A Dafny model of the consensus core of Liquent (an AptosBFT consensus node in front of a reth
execution layer), and proofs about it. `dafny verify dfyconfig.toml` checks the whole project.

**Consensus, end to end.** `SafetyRules` is the signing side of a validator: votes, order votes
and timeouts over its persisted safety data. `ConsensusSafety` runs any number of such
validators, in any interleaving, next to faulty ones that may sign anything, and proves
agreement: any two blocks ordered in an epoch, by order votes or by the 2-chain rule, are on one
chain (`OrderedBlocksAgree`). `Ledger` carries this to what replicas execute: their ledgers are
prefixes of one another (`LedgersAgree`, and `StoresAgree` of the block store objects);
`LedgerInterleaving` lets sends overlap. `PendingVotes` and `PendingOrderVotes` aggregate the
votes into certificates, `Certificates` shows that what they form is what the safety rules
verify, and `RoundVoting` is the round manager that casts the votes, restarts included.

**The parts around it.** `Payload` and `PayloadInterleaving` resolve a block's transactions
through status cells; `Deduper` filters them; `Mempool` pulls them from the pool;
`BlockConversion` decodes an ordered block through the shared cache; `Recovery` restarts from
the database; `Relayer` tracks oracle progress; `AdmitBatcher` batches admissions; `Ether`
prints and parses amounts. `Validators` and `Common` are shared.

Objects the source updates in place are classes. Each method is tied to a specification
function on values, and the theorems speak of all runs of those functions.

**Assumptions, stated as preconditions or in the data model.**

- Hashes are injective: a block or ledger info value stands for its digest. Signatures are not
  modelled; who signed what is recorded, and verification is a condition on that record.
- Faulty validators of an epoch hold less power than two quorums must share (`Tolerable`).
- A round-0 QC is for the one genesis block of its epoch, which is what the block store holds.
- The timeout certificate given to the safety rules is of the current epoch. The rules do not
  check this themselves (aptos-core/consensus/safety-rules/src/safety_rules_2chain.rs:173-180);
  the block store's certificates are checked on arrival
  (aptos-core/consensus/consensus-types/src/sync_info.rs:138-150) and on recovery.
- The deduper's equal keys have equal (sender, sequence number). Its comment speaks of the raw
  transaction's hash while the code uses the committed hash; the model follows the code.
- A pool transaction decodes from its own encoding to itself and its pool sender. A batch
  reader that answers gives the digest's own contents. The 256-bit integer parser reads digit
  strings as decimals and fails exactly on overflow (`ParsesDecimals`).

**Properties that do not always hold.** Each has a lemma with a concrete input and an exact condition.

- Certification of a digest does not depend on the order of votes, if and only if all its voters
  are known validators or the known ones hold no quorum. An unknown author's signature is stored
  before the power check refuses it, and the digest cannot be certified for the rest of the
  round. Votes verified on arrival come from known validators
  (`PendingVotes.OrderIndependentIff`, `OrderCanMatter`).
- The block tree requires the certificates of its root to name the root
  (aptos-core/consensus/src/block_storage/block_tree.rs:204-208). Recovery from the latest ledger
  info always delivers that. Recovery by block number takes the ledger info of the root's own QC
  when order votes are on, and a QC formed by votes commits the parent or nothing. So it delivers
  it if and only if order votes are off or the root is a genesis block; for every other root the
  tree's assertion fails (`Recovery.NumberCertsNameRootIff`, `NumberCertsCanMissRoot`).
- A pending oracle result is repeated to every call until the chain catches up, if and only if no
  other call on its URI is polling or has read its nonce or more on chain
  (`Relayer.SurvivesIffUndisturbed`, `PendingCanBeLost`).
- Execution receives every block once, if and only if no send hands over a piece while another
  waits for execution (`LedgerInterleaving.ReceivedOnceIff`, `OverlapCanRepeat`). `Ledger` proves
  a single send; its callers are taken one at a time.

## Model

| member | source | states |
|---|---|---|
| `Validators.CheckVotingPower` | aptos-core/consensus/src/pending_votes.rs:193-213 | summing the power of a set of authors one by one answers "enough", "too little" or "unknown author" by the power of the set, whatever the order |
| `Validators.QuorumOverlap` | aptos-core/consensus/src/pending_votes.rs:193-213 | two sets of validators share at least the power by which together they exceed the total |
| `Validators.PowerUnion` | aptos-core/consensus/src/pending_votes.rs:193-213 | power is additive: union plus intersection weighs what the two sets weigh |
| `SafetyRules.Signer.ConstructAndSignVote` | aptos-core/consensus/safety-rules/src/safety_rules_2chain.rs:53-95 | the stepwise handler does what the `SignVote` rule says, refusals leave the persisted data untouched |
| `SafetyRules.Signer.SignTimeoutWithQc` | aptos-core/consensus/safety-rules/src/safety_rules_2chain.rs:22-51 | the same for signing a timeout |
| `SafetyRules.Signer.ConstructAndSignOrderVote` | aptos-core/consensus/safety-rules/src/safety_rules_2chain.rs:97-123 | the same for signing an order vote |
| `SafetyRules.VoteSignedIff` | aptos-core/consensus/safety-rules/src/safety_rules_2chain.rs:53-95 | a vote for a new round is signed if and only if the round is above the last voted one, the data is stored, and the block follows its QC, or follows the timeout certificate with a QC not below its highest; with exactly what is signed and kept |
| `SafetyRules.LastVoteRepeated` | aptos-core/consensus/safety-rules/src/safety_rules_2chain.rs:68-75 | a request for the round of the last vote returns that vote and changes nothing |
| `SafetyRules.OnlyPresentableVoted` | aptos-core/consensus/safety-rules/src/safety_rules.rs:58-78 | no proposal of another epoch, unverified or with a malformed parent is ever voted for |
| `SafetyRules.TimeoutCertUnlocksVote` | aptos-core/consensus/safety-rules/src/safety_rules_2chain.rs:146-163 | after a timed-out round a block on top of the certificate's own QC can be voted for by every validator that has not voted in its round |
| `SafetyRules.TimeoutSignedIff` | aptos-core/consensus/safety-rules/src/safety_rules_2chain.rs:22-51 | the exact condition of signing a timeout, and exactly what is signed and kept |
| `SafetyRules.OrderVoteSignedIff` | aptos-core/consensus/safety-rules/src/safety_rules_2chain.rs:97-123 | the exact condition of signing an order vote, and exactly what is signed and kept |
| `ConsensusSafety.VoteKeeps` | aptos-core/consensus/safety-rules/src/safety_rules_2chain.rs:53-95 | a vote keeps an honest validator covered by its persisted data, voting once per round, and never having timed out with a QC below a voted parent |
| `ConsensusSafety.OrderVoteKeeps` | aptos-core/consensus/safety-rules/src/safety_rules_2chain.rs:97-123 | so does an order vote: a block it timed out of cannot be order-voted |
| `ConsensusSafety.TimeoutKeeps` | aptos-core/consensus/safety-rules/src/safety_rules_2chain.rs:22-51 | so does a timeout: it reports a QC at least as high as every voted parent and order-voted block of that round or earlier |
| `ConsensusSafety.EpochEntryKeeps` | aptos-core/consensus/safety-rules/src/safety_rules.rs:236-275 | entering an epoch never goes back and keeps the signing discipline; only a newer epoch forgets, and then nothing signed before belongs to it |
| `ConsensusSafety.HonestActKeeps` | aptos-core/consensus/safety-rules/src/safety_rules.rs:124-153 | all of this for every kind of event at an honest validator |
| `ConsensusSafety.SignedVoteJustified` | aptos-core/consensus/safety-rules/src/safety_rules_2chain.rs:146-163 | a newly voted block has a certified parent in its epoch, and consecutive rounds or a timeout certificate its QC is not behind |
| `ConsensusSafety.InvHolds` | aptos-core/consensus/safety-rules/src/safety_rules_2chain.rs:53-171 | over every run, with arbitrary forging by faulty validators, the signing invariants hold |
| `ConsensusSafety.HonestOverlap` | aptos-core/consensus/consensus-types/src/quorum_cert.rs:115-142 | any two quorums of an epoch share an honest signer |
| `ConsensusSafety.CertifiedIsJustified` | aptos-core/consensus/consensus-types/src/quorum_cert.rs:115-142 | a certified block was justified to some honest voter |
| `ConsensusSafety.OneBlockPerRound` | aptos-core/consensus/safety-rules/src/safety_rules.rs:191-205 | no round of an epoch certifies two blocks |
| `ConsensusSafety.OrderedIsCertified` | aptos-core/consensus/safety-rules/src/safety_rules.rs:80-104 | an ordered block is certified |
| `ConsensusSafety.TimeoutSeesOrderVoted` | aptos-core/consensus/safety-rules/src/safety_rules_2chain.rs:164-171 | once a quorum order-voted for a block, every timeout certificate of its round or later reports a QC at least as high |
| `ConsensusSafety.TimeoutSeesCommitted` | aptos-core/consensus/consensus-types/src/timeout_2chain.rs:136-168 | the same once a certified child of the next round commits the block |
| `ConsensusSafety.ParentNotBelowOrdered` | aptos-core/consensus/safety-rules/src/safety_rules_2chain.rs:146-163 | no certified block above an ordered block has its parent below it |
| `ConsensusSafety.CertifiedExtendsOrdered` | aptos-core/consensus/safety-rules/src/safety_rules_2chain.rs:186-205 | every certified block at or above the round of an ordered block extends it |
| `ConsensusSafety.OrderedBlocksAgree` | aptos-core/consensus/safety-rules/src/safety_rules_2chain.rs:22-205 | agreement: in every run, any two blocks ordered in an epoch are on one chain |
| `Ledger.BlockStore.PathFromRoot` | aptos-core/consensus/src/block_storage/block_tree.rs:510-537 | the walk over parents finds a path exactly when the whole ancestry is in the tree and meets the root, and the path is the ancestry above the root, oldest first |
| `Ledger.BlockStore.InsertBlock` | aptos-core/consensus/src/block_storage/block_tree.rs:322-352 | a block enters the tree exactly when it is there, its parent is, or its parent is the well-known genesis; the tree stays linked |
| `Ledger.ExtendsIsPresent` | aptos-core/consensus/src/block_storage/block_tree.rs:322-352 | in a linked tree a block that extends the ordered root is connected to it |
| `Ledger.BlockStore.SendForExecution` | aptos-core/consensus/src/block_storage/block_store.rs:536-856 | however the path is cut into pieces, execution receives it whole and in order, and the replica moves by `Deliver`; each answer has its exact cause; otherwise nothing changes |
| `Ledger.BlockStore.SendPieces` | aptos-core/consensus/src/block_storage/block_store.rs:805-854 | the piecewise loop hands over exactly the path and ends with the block as root |
| `Ledger.PieceBetween` | aptos-core/consensus/src/block_storage/block_store.rs:805-851 | the path from the last block sent to the next with a proof is exactly the unsent stretch |
| `Ledger.ExtendsMeetsRoot` | aptos-core/consensus/src/block_storage/block_tree.rs:510-537 | a block extends the root exactly when its highest ancestor at or below the root round is the root |
| `Ledger.ChainSplits` | aptos-core/consensus/src/block_storage/block_tree.rs:510-537 | the chain of a block is the chain of the root it meets followed by the path above it |
| `Ledger.LedgerIsChain` | aptos-core/consensus/src/block_storage/block_store.rs:536-856 | a replica that started from the genesis or an ordered block has, after any sends, executed exactly the chain of its ordered root |
| `Ledger.OrderedRootIsAncestor` | aptos-core/consensus/src/block_storage/block_store.rs:536-600 | an ordered block above a replica's root always extends that root |
| `Ledger.OrderedBlockConnects` | aptos-core/consensus/src/block_storage/block_store.rs:575-584 | for a block store that was asked to send ordered blocks only, an ordered block in the tree above the root is sent or deferred, never without a path |
| `Ledger.LedgersAgree` | aptos-core/consensus/src/block_storage/block_store.rs:536-856 | state-machine agreement: of any two replicas' ledgers in an epoch one is a prefix of the other, wherever each started |
| `Ledger.StoresAgree` | aptos-core/consensus/src/block_storage/block_store.rs:536-856 | the same of any two block store objects |
| `LedgerInterleaving.ReceivedOnceIff` | aptos-core/consensus/src/block_storage/block_store.rs:823-854 | with sends split at the wait for execution: no block is received twice if and only if no piece is handed over while another waits |
| `LedgerInterleaving.OverlapCanRepeat` | aptos-core/consensus/src/block_storage/block_store.rs:823-854 | a block sent twice before either wait is over is received twice |
| `LedgerInterleaving.ReceivedIsChain` | aptos-core/consensus/src/block_storage/block_store.rs:823-854 | one piece at a time, execution has received exactly the chain of the root |
| `LedgerInterleaving.OrderedOnOneChain` | aptos-core/consensus/src/block_storage/block_store.rs:536-546 | ordered blocks of an epoch meet the one-chain premise of these |
| `PendingVotes.Aggregator.InsertVote` | aptos-core/consensus/src/pending_votes.rs:108-272 | the in-place insertion is the `Insert` step on the abstract state, answer included |
| `PendingVotes.Aggregator.CountTimeout` | aptos-core/consensus/src/pending_votes.rs:220-264 | its timeout part: partial certificate, certificate, f+1 echo |
| `PendingVotes.Aggregator.ProcessDelayedQc` | aptos-core/consensus/src/pending_votes.rs:287-325 | a QC if and only if the digest is stored with a quorum of signers, an error otherwise; nothing changes |
| `PendingVotes.Aggregator.DrainVotes` | aptos-core/consensus/src/pending_votes.rs:327-353 | a drain empties votes and partial timeouts and keeps who voted |
| `PendingVotes.StepReported` | aptos-core/consensus/src/pending_votes.rs:108-272 | what every answer to an insertion says about the state it leaves |
| `PendingVotes.AnswersAreExact` | aptos-core/consensus/src/pending_votes.rs:108-272 | every answer to an insertion has its exact cause, by the known signers and timeout signers, their power and the echo flag |
| `PendingVotes.StoredVotesAdvance` | aptos-core/consensus/src/pending_votes.rs:120-148 | over any run a stored vote is never lost, keeps its digest, and only gains a timeout |
| `PendingVotes.PinnedHolds` | aptos-core/consensus/src/pending_votes.rs:120-191 | over any run signers of a digest are authors whose stored vote names it, timeout signers those whose stored vote is that timeout |
| `PendingVotes.CertificateIsBacked` | aptos-core/consensus/src/pending_votes.rs:193-264 | a returned certificate has a quorum of known signers whose stored votes name it |
| `PendingVotes.StoredVoteWasInserted` | aptos-core/consensus/src/pending_votes.rs:120-148 | every stored vote was inserted by its author |
| `PendingVotes.OneCertifiedDigest` | aptos-core/consensus/src/pending_votes.rs:108-353 | with 2*quorum > total, all QCs returned by any mix of inserts, delayed QCs and drains are for one ledger info, with nobody assumed honest |
| `PendingVotes.AcceptedIsStored` | aptos-core/consensus/src/pending_votes.rs:120-148 | an accepted vote is stored, and replaces at most a plain vote for the same ledger info |
| `PendingVotes.AtMostTwoVotes` | aptos-core/consensus/src/pending_votes.rs:120-148 | at most two votes per author are accepted, the second adding a timeout to the first |
| `PendingVotes.TimeoutSignersExact` | aptos-core/consensus/src/pending_votes.rs:220-253 | with known authors, before any QC or drain and with delayed-QC calls allowed, the partial certificate is signed by exactly the authors whose stored vote is a timeout |
| `PendingVotes.TimeoutCertIffTimedOut` | aptos-core/consensus/src/pending_votes.rs:232-241 | over runs before any QC or drain, a timeout certificate is returned at some point if and only if the authors whose stored vote is a timeout hold a quorum |
| `PendingVotes.TimeoutCertIffQuorum` | aptos-core/consensus/src/pending_votes.rs:232-241 | without equivocation, if and only if the authors of inserted timeout votes do |
| `PendingVotes.EchoedIffReturned` | aptos-core/consensus/src/pending_votes.rs:255-264 | the echo flag is set if and only if an echo was returned |
| `PendingVotes.EchoOnceAndOnlyPastFaulty` | aptos-core/consensus/src/pending_votes.rs:255-264 | the echo fires at most once and never from authors with power at most total - quorum |
| `PendingVotes.SignersAreVoters` | aptos-core/consensus/src/pending_votes.rs:150-191 | if no author names two digests the signers of a digest are exactly its distinct voters, known or not |
| `PendingVotes.ReportsAreExact` | aptos-core/consensus/src/pending_votes.rs:193-272 | likewise a reported power is the exact power of the distinct voters so far and below quorum; certificate signers are exactly those voters |
| `PendingVotes.CertifiesIffQuorum` | aptos-core/consensus/src/pending_votes.rs:193-213 | a QC for a digest is returned at some point if and only if at some point its distinct voters are all known and hold a quorum |
| `PendingVotes.KnownVotersDecide` | aptos-core/consensus/src/pending_votes.rs:193-213 | when all its voters are known, if and only if they hold a quorum in the end |
| `PendingVotes.OrderDoesNotMatter` | aptos-core/consensus/src/pending_votes.rs:108-272 | the signers of a digest depend on which votes arrive, not on order or repetition; so does certification where every voter is known or the known ones hold no quorum |
| `PendingVotes.OrderIndependentIff` | aptos-core/consensus/src/pending_votes.rs:191-213 | that condition is exact: certification is independent of order if and only if it holds |
| `PendingVotes.OrderCanMatter` | aptos-core/consensus/src/pending_votes.rs:191-213 | an unknown author's vote first blocks a digest that the other order certifies |
| `PendingOrderVotes.Aggregator.InsertOrderVote` | aptos-core/consensus/src/pending_order_votes.rs:56-129 | the in-place insertion is the `Insert` step, answer included |
| `PendingOrderVotes.InsertKeeps` | aptos-core/consensus/src/pending_order_votes.rs:77-127 | an order vote of a known validator is kept whatever it is answered, other entries are untouched, and each answer has its exact cause |
| `PendingOrderVotes.InsertRepeats` | aptos-core/consensus/src/pending_order_votes.rs:74-77 | a vote for a complete entry is answered with its certificate and changes nothing |
| `PendingOrderVotes.StoredAreSenders` | aptos-core/consensus/src/pending_order_votes.rs:56-129 | over every run, above the highest ordered round, an entry that is not complete holds exactly the known senders of its ledger info, and is complete if and only if they hold a quorum |
| `PendingOrderVotes.DeliveredIffQuorumSent` | aptos-core/consensus/src/round_manager.rs:1248-1292 | there a ledger info was delivered if and only if the known validators that sent order votes for it hold a quorum |
| `PendingOrderVotes.ReportedPowerIsExact` | aptos-core/consensus/src/pending_order_votes.rs:92-117 | a reported power is the exact power of the known senders, the new one included |
| `PendingOrderVotes.CollectionIsInvisible` | aptos-core/consensus/src/pending_order_votes.rs:132-141 | leaving every collection out of a run changes neither what is delivered nor any entry above the highest ordered round |
| `PendingOrderVotes.CompleteIffDelivered` | aptos-core/consensus/src/pending_order_votes.rs:143-149 | over every run a ledger info above the highest ordered round is marked complete if and only if its certificate was delivered |
| `PendingOrderVotes.OrderVoteHandler.ProcessOrderVoteMsg` | aptos-core/consensus/src/round_manager.rs:1248-1292 | an order vote is inserted only for a live, incomplete ledger info, and a certificate is handed on in the same step |
| `PendingOrderVotes.OrderVoteHandler.ProcessNewRound` | aptos-core/consensus/src/round_manager.rs:410-411 | a new round collects up to the highest ordered round |
| `PendingOrderVotes.InvHolds` | aptos-core/consensus/src/round_manager.rs:1248-1292 | over every run: known signers, complete exactly with a quorum, and what was delivered is still complete or no longer above the highest ordered round |
| `PendingOrderVotes.DeliveredAtMostOnce` | aptos-core/consensus/src/round_manager.rs:1248-1292 | over every run with garbage collection each ledger info is delivered at most once |
| `PendingOrderVotes.NeverErrorAddingVote` | aptos-core/consensus/src/pending_order_votes.rs:93-126 | the error answer is unreachable in every run |
| `PendingOrderVotes.SignersSentVotes` | aptos-core/consensus/src/pending_order_votes.rs:78-94 | every signer of a stored or delivered entry sent an order vote for it |
| `PendingOrderVotes.ConflictingCertsShareSigners` | aptos-core/consensus/src/pending_order_votes.rs:56-129 | if two ledger infos get certificates, validators who sent votes for both hold at least 2*quorum - total |
| `PendingOrderVotes.QuorumDelivers` | aptos-core/consensus/src/round_manager.rs:1462-1483 | the message that completes a quorum for a live ledger info delivers its certificate |
| `Certificates.AggregatedQcCertifies` | aptos-core/consensus/src/pending_votes.rs:193-213 | a QC formed from verified votes certifies its block in the network that signed them |
| `Certificates.AggregatedTcVerifies` | aptos-core/consensus/consensus-types/src/timeout_2chain.rs:136-246 | a timeout certificate formed from verified timeouts passes its own verification |
| `Certificates.DeliveredCertOrders` | aptos-core/consensus/src/round_manager.rs:1462-1483 | a delivered order certificate orders its block, so agreement applies to it |
| `RoundVoting.RoundManager.Vote` | aptos-core/consensus/src/round_manager.rs:1208-1246 | no vote without an inserted block, after a recorded vote or in sync-only mode; a signed vote counts as cast only once saved |
| `RoundVoting.RoundManager.ProcessVerifiedProposal` | aptos-core/consensus/src/round_manager.rs:1172-1203 | vote, record, then broadcast |
| `RoundVoting.RoundManager.ProcessDelayedProposal` | aptos-core/consensus/src/round_manager.rs:756-766 | a held-back proposal of another round is dropped |
| `RoundVoting.RoundManager.ProcessLocalTimeout` | aptos-core/consensus/src/round_manager.rs:881-938 | a timeout repeats the recorded vote or votes NIL, signs the timeout once, records, then broadcasts |
| `RoundVoting.RecordedUntilRoundMoves` | aptos-core/consensus/src/liveness/round_state.rs:259-323 | between restarts rounds never go back and a recorded vote stays recorded until the round is left |
| `RoundVoting.InvHolds` | aptos-core/consensus/src/round_manager.rs:1558-1580 | over every run, restarts included, what is recorded, saved or broadcast was signed, one block per round |
| `RoundVoting.BroadcastsAgree` | aptos-core/consensus/src/round_manager.rs:1172-1246 | over every run all votes a validator broadcasts for one round of an epoch name the same block |
| `RoundVoting.RecordedVoteStands` | aptos-core/consensus/src/round_manager.rs:881-938 | while a vote is recorded no proposal or timeout signs another block, and nothing is broadcast but that vote with a timeout |
| `RoundVoting.ProposalBroadcastsIff` | aptos-core/consensus/src/round_manager.rs:1172-1246 | a proposal is answered with one broadcast, of the vote signed for it, if and only if voting is open and the vote is signed and saved |
| `RoundVoting.TimeoutBroadcastsIff` | aptos-core/consensus/src/round_manager.rs:881-938 | a local timeout is answered with one broadcast if and only if it is of the current round, there is a vote to repeat or a NIL vote, and its timeout was or is signed |
| `RoundVoting.RoundEntry` | aptos-core/consensus/src/round_manager.rs:1558-1580 | a restart into the round of the saved vote records it; a certificate of a higher round moves there with nothing recorded |
| `RoundVoting.BroadcastIsRecorded` | aptos-core/consensus/src/round_manager.rs:1172-1203 | a step broadcasts at most one vote, recorded if of the current round, and saved unless it carries a timeout |
| `Deduper.Dedup` | aptos-core/consensus/src/txn_hash_and_authenticator_deduper.rs:39-94 | the two-phase filter returns what the naive keep-first filter returns, and the input itself when no pair repeats |
| `Deduper.MarkPossibleDuplicates` | aptos-core/consensus/src/txn_hash_and_authenticator_deduper.rs:41-56 | an index is marked if and only if another index shares its (sender, sequence number) |
| `Deduper.FilterDuplicates` | aptos-core/consensus/src/txn_hash_and_authenticator_deduper.rs:73-90 | phase two on those marks is the naive filter |
| `Deduper.FilterDecides` | aptos-core/consensus/src/txn_hash_and_authenticator_deduper.rs:73-90 | phase two drops an index exactly when an earlier one has its (hash, authenticator) |
| `Deduper.KeepsExactlyFirsts` | aptos-core/consensus/src/txn_hash_and_authenticator_deduper.rs:73-90 | the naive filter keeps, in order, exactly the indices whose key occurs at no earlier index |
| `Deduper.KeysDistinctAndCovered` | aptos-core/consensus/src/txn_hash_and_authenticator_deduper.rs:73-90 | keys in the result are distinct and every input key is still there |
| `Deduper.Idempotent` | aptos-core/consensus/src/txn_hash_and_authenticator_deduper.rs:39-94 | filtering twice is filtering once |
| `Payload.RequestTransactions` | aptos-core/consensus/src/payload_manager.rs:121-146 | exactly the unexpired batches are requested, in payload order |
| `Payload.UnexpiredMember` | aptos-core/consensus/src/payload_manager.rs:131-136 | a digest is requested exactly if a batch with it expires at the block timestamp or later |
| `Payload.FlattenConcat` | aptos-core/consensus/src/payload_manager.rs:343-349 | flattening loses and reorders nothing |
| `Payload.AwaitAll` | aptos-core/consensus/src/payload_manager.rs:529-593 | succeeds if and only if every request is answered, with the contents in order; otherwise reports the first failure |
| `Payload.BatchPointer.Prefetch` | aptos-core/consensus/src/payload_manager.rs:194-264 | an empty cell gets the requests, any other is left alone |
| `Payload.BatchPointer.Process` | aptos-core/consensus/src/payload_manager.rs:460-593 | the take-and-replace cell: cached data stays, answered requests become cached data, a failure requests everything again; the cell stays faithful |
| `Payload.GetTransactions` | aptos-core/consensus/src/payload_manager.rs:294-411 | for each payload kind by its own fields: its groups' unexpired batches in payload order, then its inline transactions, with the limit it carries; it succeeds if and only if every group's cell resolves |
| `PayloadInterleaving.InvHolds` | aptos-core/consensus/src/payload_manager.rs:194-264 | over every interleaving of prefetches and resolutions every cell and every resolution in flight is faithful to the block |
| `PayloadInterleaving.SuccessesAgree` | aptos-core/consensus/src/payload_manager.rs:294-593 | whatever is dropped, failed, cancelled or interleaved, all successful results are the same sequence |
| `PayloadInterleaving.PrefetchFills` | aptos-core/consensus/src/payload_manager.rs:213-240 | a prefetch fills an empty cell with the group's requests and leaves any other alone |
| `PayloadInterleaving.AwaitToEnd` | aptos-core/consensus/src/payload_manager.rs:529-593 | a resolution whose requests are all answered holds the contents in order |
| `PayloadInterleaving.CellsComeBack` | aptos-core/consensus/src/payload_manager.rs:460-525 | unless a resolution is cancelled, a cell once filled is filled again whenever no resolution is at work |
| `PayloadInterleaving.ResolutionSucceeds` | aptos-core/consensus/src/payload_manager.rs:460-593 | whatever failed before, with the cells filled and the requests answered a resolution returns the expected transactions |
| `Mempool.BestPuller.BestTxns` | bin/liquent_node/src/mempool.rs:207-288 | the loop is the `Pull` step function; what it returns the filter accepts and the cache holds; an empty pull drops the iterator |
| `Mempool.PullWithinBounds` | bin/liquent_node/src/mempool.rs:230-236 | at most `limit` transactions, all but the last within the byte budget, and a pull that leaves items behind used up a bound |
| `Mempool.PullIsPrefix` | bin/liquent_node/src/mempool.rs:232-263 | a bounded pull treats a prefix of the items as an unbounded pull would |
| `Mempool.JudgedExactly` | bin/liquent_node/src/mempool.rs:232-263 | an item is emitted if and only if the filter accepts it and its nonce follows the sender's last anchored one or is its first; rejected if and only if it follows and is refused |
| `Mempool.ReturnedIsEmitted` | bin/liquent_node/src/mempool.rs:226-287 | over a series of pulls what is returned is what was emitted |
| `Mempool.PullsResumeExactly` | bin/liquent_node/src/mempool.rs:213-287 | with one filter, any series of pulls together returns a prefix of a single unbounded pull |
| `Mempool.JudgedByItsFilter` | bin/liquent_node/src/mempool.rs:258-263 | over any series every item was judged by the filter of its own pull |
| `Mempool.CachedExactly` | bin/liquent_node/src/mempool.rs:265-276 | exactly the returned transactions are cached, under their hashes and with the time |
| `Mempool.NoNonceUnseen` | bin/liquent_node/src/mempool.rs:232-263 | between two anchored items of a sender nonces rise and every nonce between was pulled |
| `Mempool.EmittedNoncesLeaveNoGap` | bin/liquent_node/src/mempool.rs:223-263 | across pulls with any filters a sender's emitted nonces strictly increase, and a nonce missing between was pulled and refused by the filter of its pull |
| `BlockConversion.Converter.PushOrderedBlock` | bin/liquent_node/src/reth_cli.rs:219-282 | senders and transactions are exactly those of decoding the whole block, aligned, in order, undecodable ones dropped; the block's hashes leave the cache |
| `BlockConversion.Converter.LookUp` | bin/liquent_node/src/reth_cli.rs:228-241 | a hit fills both slots with what decoding would give, repeated hashes included |
| `BlockConversion.DecodeMissing` | bin/liquent_node/src/reth_cli.rs:243-262 | after decoding the misses every slot holds what decoding gives |
| `BlockConversion.FilterValid` | bin/liquent_node/src/reth_cli.rs:262-282 | dropping empty slots keeps senders and transactions aligned |
| `BlockConversion.SweepBoundsCache` | bin/liquent_node/src/mempool.rs:127-148 | after a sweep the cache holds only transactions pulled less than the TTL ago, and loses none of those to the sweep |
| `BlockConversion.HitIsDecoded` | bin/liquent_node/src/reth_cli.rs:228-241 | a cache hit is what decoding those bytes gives |
| `BlockConversion.PullKeepsCacheOk` | bin/liquent_node/src/mempool.rs:265-276 | a pull keeps every cache entry genuine and under its own hash |
| `BlockConversion.CacheIsTransparent` | bin/liquent_node/src/reth_cli.rs:228-282 | for every interleaving of pulls, sweeps and single lookups a converted block equals decoding all of it |
| `BlockConversion.UninterruptedConversion` | bin/liquent_node/src/reth_cli.rs:228-282 | run without interruption the interleaved steps do what `PushOrderedBlock` does |
| `Recovery.SortIsStable` | aptos-core/consensus/src/persistent_liveness_storage.rs:157-158 | the sort by (epoch, round) is sorted, a permutation, and keeps equal keys in order |
| `Recovery.StableSortUnique` | aptos-core/consensus/src/persistent_liveness_storage.rs:157-158 | a stable sort has only one possible result |
| `Recovery.TakeRoot` | aptos-core/consensus/src/persistent_liveness_storage.rs:157-164 | the blocks split into a root that passes the test with the least key and a sorted remainder; no root exactly when nothing passes |
| `Recovery.SearchesAreFirst` | aptos-core/consensus/src/persistent_liveness_storage.rs:166-176 | certificates are searched front to back |
| `Recovery.FindRoot` | aptos-core/consensus/src/persistent_liveness_storage.rs:131-218 | root plus remainder is the stored blocks (plus the virtual genesis at an epoch end), the root is the one storage committed, of the next epoch at an epoch end, its QC certifies it, both certificates name it, each error occurs exactly for its cause, and an epoch end with order votes always recovers |
| `Recovery.FindRootByBlockNumber` | aptos-core/consensus/src/persistent_liveness_storage.rs:279-333 | the same by block number, the root being the first block with the number in (epoch, round) order; each error occurs exactly for its cause |
| `Recovery.Recover` | aptos-core/consensus/src/persistent_liveness_storage.rs:335-379 | in addition the kept last vote and timeout certificate are the stored ones, kept exactly when of the root's epoch, so that a vote of the ended epoch is dropped; and when the certificates name the root, by the inputs |
| `Recovery.LedgerCertsNameRoot` | aptos-core/consensus/src/persistent_liveness_storage.rs:171-213 | certificates chosen from the latest ledger info name the root; the commit certificate carries that ledger info, and without order votes the ordered one is a stored QC that agrees with it |
| `Recovery.ToleranceIsNarrow` | aptos-core/consensus/src/persistent_liveness_storage.rs:115-125 | the mismatch tolerated is one of timestamps at an epoch start and of nothing else |
| `Recovery.GenesisIsDeterministic` | aptos-core/consensus/consensus-types/src/block.rs:190-213 | the virtual genesis is fixed by the epoch and the reconfiguration block, whatever suffix was committed |
| `Recovery.GenesisIsCertified` | aptos-core/consensus/consensus-types/src/quorum_cert.rs:80-113 | it opens the next epoch, and its certificate certifies and commits it |
| `Recovery.NumberCertsName` | aptos-core/consensus/src/persistent_liveness_storage.rs:302-330 | which certificates recovery by number chooses in each case |
| `Recovery.VotedCertIsFormed` | aptos-core/consensus/safety-rules/src/safety_rules_2chain.rs:186-205 | a QC formed by votes commits the parent or nothing, never the block voted for |
| `Recovery.NumberCertsNameRootIff` | aptos-core/consensus/src/persistent_liveness_storage.rs:302-330 | on a consistent database the certificates chosen by block number name the root, as the block tree demands, if and only if order votes are off or the root is a genesis block |
| `Recovery.NumberCertsCanMissRoot` | aptos-core/consensus/src/block_storage/block_tree.rs:204-208 | a consistent database of one block whose QC commits its parent: they name the parent |
| `Recovery.SortedParentsFirst` | aptos-core/consensus/src/persistent_liveness_storage.rs:157-158 | sorting by (epoch, round) puts parents before children |
| `Recovery.OnePassDecides` | aptos-core/consensus/src/persistent_liveness_storage.rs:408-419 | in that order one pass over the blocks decides descent from the root |
| `Recovery.RetainBlocks` | aptos-core/consensus/src/persistent_liveness_storage.rs:408-419 | kept are exactly the descendants of the root, in order |
| `Recovery.RetainCerts` | aptos-core/consensus/src/persistent_liveness_storage.rs:420-427 | kept are exactly the QCs certifying the root or a kept block |
| `Recovery.FindBlocksToPrune` | aptos-core/consensus/src/persistent_liveness_storage.rs:401-429 | both, and the ids to remove are exactly those not kept |
| `Relayer.RelayerWrapper.FindOracleState` | bin/liquent_node/src/relayer.rs:175-181 | the latest nonce of the first state with the URI's type and id, by index, or none |
| `Relayer.CallAnswers` | bin/liquent_node/src/relayer.rs:200-265 | what a call answers in every case: the pending result, or the polled one marked as an update unless its nonce is on chain; a failed poll changes nothing |
| `Relayer.RelayerWrapper.GetLastState` | bin/liquent_node/src/relayer.rs:301-337 | one uninterrupted call is the `GetLast` step |
| `Relayer.UninterruptedCall` | bin/liquent_node/src/relayer.rs:301-337 | the interleaved stretches of a call, run together, are that step |
| `Relayer.RepliesSound` | bin/liquent_node/src/relayer.rs:200-265 | over every interleaving an update is only surfaced with a nonce above the one read on chain, and the missing-cache error never occurs |
| `Relayer.PendingRepeats` | bin/liquent_node/src/relayer.rs:301-337 | if no call on the URI is polling or has read the nonce or more, then until the chain catches up every call returns the identical pending result without polling |
| `Relayer.SurvivesIffUndisturbed` | bin/liquent_node/src/relayer.rs:301-337 | that premise is exact: the tracked result answers every next call however the run goes on if and only if it holds |
| `Relayer.PendingCanBeLost` | bin/liquent_node/src/relayer.rs:237-265 | two overlapping polls, the second bringing nothing new, make a third call poll while the first update is ahead of the chain |
| `Relayer.UpdateBecomesPending` | bin/liquent_node/src/relayer.rs:237-265 | a surfaced update is tracked, and pending if and only if no other call on its URI may still poll |
| `AdmitBatcher.NewConfig` | bin/liquent_node/src/broadcast_listener.rs:49-51 | the cap is at least one, and a positive cap and the wait are kept |
| `AdmitBatcher.Fill` | bin/liquent_node/src/broadcast_listener.rs:138-168 | a batch is what its events convert to, is never waited for past its deadline, and is flushed by the policy |
| `AdmitBatcher.ReceivedOne` | bin/liquent_node/src/broadcast_listener.rs:89-95 | an event brings its conversion, or nothing if it does not convert |
| `AdmitBatcher.FlushedForCause` | bin/liquent_node/src/broadcast_listener.rs:75-82 | a batch is flushed because it is full, its time is up or the channel closed |
| `AdmitBatcher.Drain` | bin/liquent_node/src/broadcast_listener.rs:124-174 | for every event stream and clock the admitted batches concatenate to the converted events in order, each of 1 to cap items and flushed when the policy says so; a closed channel leaves nothing behind |
| `AdmitBatcher.FillConserved` | bin/liquent_node/src/broadcast_listener.rs:138-173 | filling from where the last batch ended keeps every event accounted for |
| `Ether.FormatShape` | bin/liquent_cli/src/util.rs:5-14 | the printed string is integer digits, a point and at most k fraction digits that stand for the amount, without trailing zeros for more than k digits and in full otherwise |
| `Ether.PrintsWholeUnits` | bin/liquent_cli/src/util.rs:5-14 | the digits before the point are the whole units |
| `Ether.ParseInteger` | bin/liquent_cli/src/util.rs:17-50 | an integer string parses to integer*10^18, failing exactly on 256-bit overflow |
| `Ether.ParseDecimal` | bin/liquent_cli/src/util.rs:17-50 | with at most 18 fraction digits it parses to integer*10^18 + fraction*10^(18-len), failing exactly on overflow |
| `Ether.ParseRefuses` | bin/liquent_cli/src/util.rs:17-50 | more than 18 fraction digits or a second point is refused |
| `Ether.ParseInvertsFormat` | bin/liquent_cli/src/util.rs:5-50 | parsing a printed 256-bit amount gives the amount back |

## Left out

- Cryptography, hashing, BCS and EIP-2718 encoding: abstract, with the assumptions above.
- `ValidatorVerifier` and `BlockInfo::match_ordered_only`: defined outside this repository. The first is modelled as a sum of powers against a quorum, the second is a parameter of `Recovery`.
- The shape checks of a proposal other than epoch, round and parent (timestamps, failed authors, reconfiguration suffix), its signature, and storage failures: verdicts handed in by `Checks`.
- Signing of proposals and commit votes, an uninitialised signer, waypoints and key reconciliation: no part in agreement. Entering an older epoch changes nothing, as in the code, but the error it reports is not modelled.
- u64 overflow of rounds, epochs, nonces and byte totals: integers are unbounded, except for the overflow error of the next-round computation, which `SafeToVote` and `SafeToTimeout` keep.
- Liveness of consensus: leader election, timers, round durations, back-pressure, network.
- `RoundVoting` leaves out order votes; they are events of `ConsensusSafety`.
- `Ledger` leaves out `send_for_execution` in recovery mode and for non-validators, commit callbacks and pruning of the block tree. Inserted blocks have passed the proposal's shape checks.
- `PendingVotes` and `PendingOrderVotes` leave out the equivocation and vote counters kept for metrics, and failures of signature aggregation.
- `PendingOrderVotes` leaves out the round window of incoming order votes and the QC they carry.
- `Payload` leaves out availability checks, commit notices and the observer's payload manager, and the block without payload, which yields no transactions. Direct-mempool payloads are refused as in the code.
- `Mempool` treats the pool's iterator as a list fixed for its lifetime; transactions that reach the live iterator later, broadcasting and external insertion are not modelled.
- `BlockConversion` leaves out the parallelism of decoding, filter reasons for metrics, and the coinbase and randomness fields handed on.
- Ledger.BlockStore.SendForExecution: one call at a time; overlapping calls are the subject of `LedgerInterleaving`, where the tree is taken to hold every block sent.
- Recovery.Recover: a database whose QCs are not of the shape votes give them, or whose ids collide, has the general form of the naming condition only, that the root's QC commits the root.
- `Recovery` leaves out signatures of certificates, reading the database, and epoch overflow when building the virtual genesis.
- `Relayer` leaves out the URI parser (a parameter), persistence and provider set-up.
- `AdmitBatcher` leaves out the admission call itself and reading its configuration from the environment.
- Epoch manager, network layer, execution pipeline, command-line tools other than the ether helpers: mostly wiring, easy members only.
