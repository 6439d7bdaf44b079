/** The per-validator voting rules of the 2-chain protocol: which votes, order votes and
    timeouts a validator signs, and how its persisted `SafetyData` moves.

    A block's id is the hash of its contents, so a block value stands for its id. A
    certificate is identified with the block it certifies plus its signers. Signature
    checks are answered by the caller (`Checks`). */
module SafetyRules {
  import opened Common
  import opened Validators

  const MAX_ROUND: nat := 0xFFFF_FFFF_FFFF_FFFF

  datatype Block =
    | Genesis(epoch: nat)
    | Block(epoch: nat, round: nat, qc: QuorumCert, payload: nat)

  datatype QuorumCert = QuorumCert(certified: Block, signers: set<Author>)

  datatype Vote = Vote(author: Author, block: Block)
  datatype OrderVote = OrderVote(author: Author, block: Block)

  /** A timeout message, and what its signer signs: the round and the round of its highest QC. */
  datatype Timeout = Timeout(epoch: nat, round: nat, qc: QuorumCert)
  datatype TimeoutSig = TimeoutSig(epoch: nat, round: nat, hqcRound: nat)

  /** A timeout certificate: one of the timeouts with the highest QC, and every signed hqc round. */
  datatype TimeoutCert = TimeoutCert(timeout: Timeout, rounds: map<Author, nat>)

  datatype SafetyData = SafetyData(
    epoch: nat, lastVotedRound: nat, preferredRound: nat, oneChainRound: nat,
    lastVote: Option<Vote>, highestTimeoutRound: nat)

  datatype Error =
    | IncorrectEpoch | IncorrectRound | IncorrectLastVotedRound
    | InvalidProposal | InvalidQuorumCertificate | InvalidOneChainQuorumCertificate
    | InvalidTimeout | InvalidTimeoutCertificate
    | NotSafeToVote | NotSafeToTimeout | NotSafeForOrderVote | StorageError

  datatype Outcome<+T> = Ok(data: SafetyData, value: T) | Err(error: Error)

  /** Verdicts from outside: the QC's and the TC's signatures, the proposal's own signature
      with its timestamp and failed-author checks, and whether the new data was persisted. */
  datatype Checks = Checks(qc: bool, proposal: bool, tc: bool, stored: bool)

  function Round(b: Block): nat {
    if b.Genesis? then 0 else b.round
  }

  function Parent(b: Block): Block {
    if b.Genesis? then b else b.qc.certified
  }

  function HqcRound(t: Timeout): nat { Round(t.qc.certified) }

  function Max(x: nat, y: nat): nat { if x > y then x else y }

  function EpochStart(epoch: nat): SafetyData {
    SafetyData(epoch, 0, 0, 0, None, 0)
  }

  /** `guarded_initialize`: a newer epoch resets the data, the current one keeps it. */
  function Initialize(d: SafetyData, epoch: nat): SafetyData {
    if epoch > d.epoch then EpochStart(epoch) else d
  }

  function ObserveQc(d: SafetyData, qc: QuorumCert): SafetyData {
    d.(oneChainRound := Max(d.oneChainRound, Round(qc.certified)),
       preferredRound := Max(d.preferredRound, Round(Parent(qc.certified))))
  }

  /** The block a vote's ledger info commits: the certified parent, if its round is the previous one. */
  function CommitInfo(b: Block): (r: Option<Block>) {
    if b.Block? && Round(b.qc.certified) + 1 == b.round then Some(b.qc.certified) else None
  }

  function TcRound(tc: Option<TimeoutCert>): nat {
    if tc.Some? then tc.value.timeout.round else 0
  }

  function TcHqcRound(tc: Option<TimeoutCert>): nat {
    if tc.Some? then HqcRound(tc.value.timeout) else 0
  }

  function SafeToVote(b: Block, tc: Option<TimeoutCert>): (r: Option<Error>)
    requires b.Block?
  {
    var qcRound := Round(b.qc.certified);
    if qcRound >= MAX_ROUND then Some(IncorrectRound)
    else if b.round == qcRound + 1 then None
    else if TcRound(tc) >= MAX_ROUND then Some(IncorrectRound)
    else if b.round == TcRound(tc) + 1 && qcRound >= TcHqcRound(tc) then None
    else Some(NotSafeToVote)
  }

  function SafeToTimeout(d: SafetyData, t: Timeout, tc: Option<TimeoutCert>): (r: Option<Error>) {
    if HqcRound(t) >= MAX_ROUND then Some(IncorrectRound)
    else if t.round != HqcRound(t) + 1 && TcRound(tc) >= MAX_ROUND then Some(IncorrectRound)
    else if (t.round == HqcRound(t) + 1 || t.round == TcRound(tc) + 1) && HqcRound(t) >= d.oneChainRound then None
    else Some(NotSafeToTimeout)
  }

  /** `verify_proposal`: epoch, QC, then signature and shape of the block. */
  function VerifyProposal(d: SafetyData, b: Block, checks: Checks): (r: Option<Error>) {
    if b.epoch != d.epoch then Some(IncorrectEpoch)
    else if !checks.qc then Some(InvalidQuorumCertificate)
    else if !checks.proposal || b.Genesis? || Round(b.qc.certified) >= b.round || b.qc.certified.epoch != b.epoch
      then Some(InvalidProposal)
    else None
  }

  /** `guarded_construct_and_sign_vote_two_chain` */
  function SignVote(d: SafetyData, author: Author, b: Block, tc: Option<TimeoutCert>,
                    checks: Checks): (r: Outcome<Vote>)
  {
    var invalid := VerifyProposal(d, b, checks);
    if invalid.Some? then Err(invalid.value)
    else if tc.Some? && !checks.tc then Err(InvalidTimeoutCertificate)
    else if d.lastVote.Some? && Round(d.lastVote.value.block) == b.round then Ok(d, d.lastVote.value)
    else if b.round <= d.lastVotedRound then Err(IncorrectLastVotedRound)
    else
      var unsafe := SafeToVote(b, tc);
      if unsafe.Some? then Err(unsafe.value)
      else if !checks.stored then Err(StorageError)
      else
        var vote := Vote(author, b);
        Ok(ObserveQc(d.(lastVotedRound := b.round), b.qc).(lastVote := Some(vote)), vote)
  }

  /** `guarded_sign_timeout_with_qc` */
  function SignTimeout(d: SafetyData, t: Timeout, tc: Option<TimeoutCert>, checks: Checks): (r: Outcome<TimeoutSig>) {
    if t.epoch != d.epoch then Err(IncorrectEpoch)
    else if HqcRound(t) >= t.round || !checks.qc then Err(InvalidTimeout)
    else if tc.Some? && !checks.tc then Err(InvalidTimeoutCertificate)
    else
      var unsafe := SafeToTimeout(d, t, tc);
      if unsafe.Some? then Err(unsafe.value)
      else if t.round < d.lastVotedRound then Err(IncorrectLastVotedRound)
      else if !checks.stored then Err(StorageError)
      else Ok(d.(lastVotedRound := t.round, highestTimeoutRound := Max(d.highestTimeoutRound, t.round)),
              TimeoutSig(t.epoch, t.round, HqcRound(t)))
  }

  /** `guarded_construct_and_sign_order_vote` */
  function SignOrderVote(d: SafetyData, author: Author, b: Block, qc: QuorumCert,
                         checks: Checks): (r: Outcome<OrderVote>)
  {
    if b.epoch != d.epoch then Err(IncorrectEpoch)
    else if qc.certified != b then Err(InvalidOneChainQuorumCertificate)
    else if !checks.qc then Err(InvalidQuorumCertificate)
    else if Round(b) <= d.highestTimeoutRound then Err(NotSafeForOrderVote)
    else if !checks.stored then Err(StorageError)
    else Ok(ObserveQc(d, qc), OrderVote(author, b))
  }

  // ---------------------------------------------------------------- exactly when something is signed

  /** What a proposal must be before the voting rules look at it. */
  predicate Presentable(d: SafetyData, b: Block, tc: Option<TimeoutCert>, checks: Checks) {
    && b.Block? && b.epoch == d.epoch == b.qc.certified.epoch && Round(b.qc.certified) < b.round <= MAX_ROUND
    && checks.qc && checks.proposal && (tc.Some? ==> checks.tc)
  }

  /** A vote for a new round is signed if and only if the round is new, the data can be stored, and the
      block follows its QC's round, or follows the timeout certificate with a QC not below the
      highest one reported there. What is signed is the block; what is kept is its round, its
      parent's and its grandparent's. */
  lemma VoteSignedIff(d: SafetyData, author: Author, b: Block, tc: Option<TimeoutCert>, checks: Checks)
    requires Presentable(d, b, tc, checks) && (d.lastVote.Some? ==> Round(d.lastVote.value.block) != b.round)
    ensures var parent := b.qc.certified;
            var r := SignVote(d, author, b, tc, checks);
            && (tc.None? ==>
                (r.Ok? <==> checks.stored && b.round > d.lastVotedRound && b.round == Round(parent) + 1))
            && (tc.Some? ==>
                (r.Ok? <==>
                  && checks.stored && b.round > d.lastVotedRound
                  && (|| b.round == Round(parent) + 1
                      || (&& b.round == tc.value.timeout.round + 1
                          && Round(parent) >= Round(tc.value.timeout.qc.certified)))))
            && (r.Ok? ==>
                && r.value == Vote(author, b)
                && r.data.epoch == d.epoch && r.data.lastVotedRound == b.round && r.data.lastVote == Some(r.value)
                && r.data.highestTimeoutRound == d.highestTimeoutRound
                && IsMax(r.data.oneChainRound, d.oneChainRound, Round(parent))
                && IsMax(r.data.preferredRound, d.preferredRound, Round(Parent(parent))))
  {
  }

  predicate IsMax(m: nat, x: nat, y: nat) { m >= x && m >= y && (m == x || m == y) }

  /** A second request for the round of the last vote returns that vote and changes nothing. */
  lemma LastVoteRepeated(d: SafetyData, author: Author, b: Block, tc: Option<TimeoutCert>, checks: Checks)
    requires Presentable(d, b, tc, checks) && d.lastVote.Some? && Round(d.lastVote.value.block) == b.round
    ensures SignVote(d, author, b, tc, checks) == Ok(d, d.lastVote.value)
  {
  }

  /** Nothing else is ever voted for. */
  lemma OnlyPresentableVoted(d: SafetyData, author: Author, b: Block, tc: Option<TimeoutCert>, checks: Checks)
    requires SignVote(d, author, b, tc, checks).Ok? && b.Block? && b.round <= MAX_ROUND
    ensures Presentable(d, b, tc, checks)
  {
  }

  /** After a timed-out round the certificate's own QC always suffices: a validator that has not voted
      in the next round can vote for a block on top of that QC. */
  lemma TimeoutCertUnlocksVote(d: SafetyData, author: Author, b: Block, tc: TimeoutCert, checks: Checks)
    requires Presentable(d, b, Some(tc), checks) && checks.stored
    requires b.round == tc.timeout.round + 1 && b.qc == tc.timeout.qc && b.round > d.lastVotedRound
    requires d.lastVote.Some? ==> Round(d.lastVote.value.block) != b.round
    ensures SignVote(d, author, b, Some(tc), checks).Ok?
  {
    VoteSignedIff(d, author, b, Some(tc), checks);
  }

  /** A timeout is signed if and only if it is of the epoch, verified, not below the last voted round,
      reports a QC not below the highest one seen, and follows that QC or the timeout certificate. */
  lemma TimeoutSignedIff(d: SafetyData, t: Timeout, tc: Option<TimeoutCert>, checks: Checks)
    requires t.round <= MAX_ROUND
    ensures var hqc := Round(t.qc.certified);
            var r := SignTimeout(d, t, tc, checks);
            && (r.Ok? <==>
                && t.epoch == d.epoch && hqc < t.round && checks.qc && (tc.Some? ==> checks.tc) && checks.stored
                && t.round >= d.lastVotedRound && hqc >= d.oneChainRound
                && (t.round == hqc + 1 || (tc.Some? && t.round == tc.value.timeout.round + 1)))
            && (r.Ok? ==>
                && r.value == TimeoutSig(t.epoch, t.round, hqc)
                && r.data == d.(lastVotedRound := t.round, highestTimeoutRound := r.data.highestTimeoutRound)
                && IsMax(r.data.highestTimeoutRound, d.highestTimeoutRound, t.round))
  {
  }

  /** An order vote is signed if and only if it is for the epoch's block that the verified QC certifies,
      and no timeout of its round or later was signed. */
  lemma OrderVoteSignedIff(d: SafetyData, author: Author, b: Block, qc: QuorumCert, checks: Checks)
    ensures var r := SignOrderVote(d, author, b, qc, checks);
            && (r.Ok? <==>
                && b.epoch == d.epoch && b == qc.certified && checks.qc && checks.stored
                && d.highestTimeoutRound < Round(b))
            && (r.Ok? ==>
                && r.value == OrderVote(author, b)
                && r.data == d.(oneChainRound := r.data.oneChainRound, preferredRound := r.data.preferredRound)
                && IsMax(r.data.oneChainRound, d.oneChainRound, Round(b))
                && IsMax(r.data.preferredRound, d.preferredRound, Round(Parent(b))))
  {
  }

  /** The safety-rules object of one validator: three signing operations over the persisted data.
      A refused request leaves the data as it was. */
  class Signer {
    const author: Author
    var data: SafetyData

    constructor (author: Author, epoch: nat)
      ensures this.author == author && data == EpochStart(epoch)
    {
      this.author := author;
      data := EpochStart(epoch);
    }

    /** Epochs never go back, and only a newer one forgets what was signed. */
    method EnterEpoch(epoch: nat)
      modifies this
      ensures data == Initialize(old(data), epoch)
      ensures data.epoch >= old(data).epoch && data.epoch >= epoch
      ensures data.epoch == old(data).epoch ==> data == old(data)
    {
      if epoch > data.epoch {
        data := SafetyData(epoch, 0, 0, 0, None, 0);
      }
    }

    method ConstructAndSignVote(b: Block, tc: Option<TimeoutCert>, checks: Checks) returns (r: Outcome<Vote>)
      modifies this
      ensures r == SignVote(old(data), author, b, tc, checks)
      ensures data == if r.Ok? then r.data else old(data)
    {
      var invalid := VerifyProposal(data, b, checks);
      if invalid.Some? {
        return Err(invalid.value);
      }
      if tc.Some? && !checks.tc {
        return Err(InvalidTimeoutCertificate);
      }
      if data.lastVote.Some? && Round(data.lastVote.value.block) == b.round {
        return Ok(data, data.lastVote.value);
      }
      var d := data;
      if b.round <= d.lastVotedRound {
        return Err(IncorrectLastVotedRound);
      }
      d := d.(lastVotedRound := b.round);
      var unsafe := SafeToVote(b, tc);
      if unsafe.Some? {
        return Err(unsafe.value);
      }
      d := ObserveQc(d, b.qc);
      var vote := Vote(author, b);
      d := d.(lastVote := Some(vote));
      if !checks.stored {
        return Err(StorageError);
      }
      data := d;
      r := Ok(d, vote);
    }

    method SignTimeoutWithQc(t: Timeout, tc: Option<TimeoutCert>, checks: Checks) returns (r: Outcome<TimeoutSig>)
      modifies this
      ensures r == SignTimeout(old(data), t, tc, checks)
      ensures data == if r.Ok? then r.data else old(data)
    {
      if t.epoch != data.epoch {
        return Err(IncorrectEpoch);
      }
      if HqcRound(t) >= t.round || !checks.qc {
        return Err(InvalidTimeout);
      }
      if tc.Some? && !checks.tc {
        return Err(InvalidTimeoutCertificate);
      }
      var d := data;
      var unsafe := SafeToTimeout(d, t, tc);
      if unsafe.Some? {
        return Err(unsafe.value);
      }
      if t.round < d.lastVotedRound {
        return Err(IncorrectLastVotedRound);
      }
      if t.round > d.lastVotedRound {
        d := d.(lastVotedRound := t.round);
      }
      if t.round > d.highestTimeoutRound {
        d := d.(highestTimeoutRound := t.round);
      }
      if !checks.stored {
        return Err(StorageError);
      }
      data := d;
      r := Ok(d, TimeoutSig(t.epoch, t.round, HqcRound(t)));
    }

    method ConstructAndSignOrderVote(b: Block, qc: QuorumCert, checks: Checks) returns (r: Outcome<OrderVote>)
      modifies this
      ensures r == SignOrderVote(old(data), author, b, qc, checks)
      ensures data == if r.Ok? then r.data else old(data)
    {
      if b.epoch != data.epoch {
        return Err(IncorrectEpoch);
      }
      if qc.certified != b {
        return Err(InvalidOneChainQuorumCertificate);
      }
      if !checks.qc {
        return Err(InvalidQuorumCertificate);
      }
      var d := ObserveQc(data, qc);
      if Round(b) <= d.highestTimeoutRound {
        return Err(NotSafeForOrderVote);
      }
      if !checks.stored {
        return Err(StorageError);
      }
      data := d;
      r := Ok(d, OrderVote(author, b));
    }
  }
}
