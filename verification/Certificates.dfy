/** What the aggregators hand out is what the safety rules verify: a certificate formed from
    votes that were really signed passes verification in the network that signed them. */
module Certificates {
  import opened SafetyRules
  import opened ConsensusSafety
  import PV = PendingVotes
  import POV = PendingOrderVotes

  /** Every inserted vote carries a verified signature: its author signed the block the digest
      stands for, and its timeout, with a verified QC of the reported round. */
  ghost predicate VotesVerified(cfg: Config, n: Network, epoch: nat, round: nat, digest: Block -> PV.Digest,
                                ops: seq<PV.Op>)
  {
    forall vote :: PV.InsertOp(vote) in ops ==>
      && (forall b :: digest(b) == vote.digest ==> b in PartyOf(n, vote.author).votes)
      && (vote.timeout.Some? ==>
            && TimeoutSig(epoch, round, vote.timeout.value) in PartyOf(n, vote.author).timeouts
            && vote.timeout.value < round
            && exists qc :: HasRound(cfg, n, qc, vote.timeout.value))
  }

  ghost predicate HasRound(cfg: Config, n: Network, qc: QuorumCert, round: nat) {
    ValidQc(cfg, n, qc) && Round(qc.certified) == round
  }

  /** A quorum certificate returned by vote aggregation certifies its block. */
  lemma AggregatedQcCertifies(cfg: Config, n: Network, round: nat, digest: Block -> PV.Digest, ops: seq<PV.Op>,
                              i: nat, b: Block)
    requires VotesVerified(cfg, n, b.epoch, round, digest, ops) && i < |ops|
    requires var r := PV.Result(cfg.verifier(b.epoch), ops, i);
             r.Some? && r.value.NewQuorumCertificate? && r.value.digest == digest(b)
    ensures CertifiedBy(cfg, n, b, PV.Result(cfg.verifier(b.epoch), ops, i).value.signers)
  {
    var v := cfg.verifier(b.epoch);
    var signers := PV.Result(v, ops, i).value.signers;
    PV.CertificateIsBacked(v, ops, i);
    forall a | a in signers
      ensures b in PartyOf(n, a).votes
    {
      PV.StoredVoteWasInserted(v, ops[..i + 1], a);
    }
  }

  /** A timeout certificate returned by vote aggregation passes `TwoChainTimeoutCertificate::verify`. */
  lemma AggregatedTcVerifies(cfg: Config, n: Network, epoch: nat, round: nat, digest: Block -> PV.Digest,
                             ops: seq<PV.Op>, i: nat)
    requires VotesVerified(cfg, n, epoch, round, digest, ops) && i < |ops|
    requires var r := PV.Result(cfg.verifier(epoch), ops, i); r.Some? && r.value.New2ChainTimeoutCertificate?
    ensures var tc := PV.Result(cfg.verifier(epoch), ops, i).value.tc;
            exists qc :: && HasRound(cfg, n, qc, tc.hqcRound)
                         && ValidTc(cfg, n, TimeoutCert(Timeout(epoch, round, qc), tc.rounds))
  {
    var v := cfg.verifier(epoch);
    var tc := PV.Result(v, ops, i).value.tc;
    PV.CertificateIsBacked(v, ops, i);
    var s := PV.After(v, ops[..i + 1]);
    forall a | a in tc.rounds
      ensures PV.InsertOp(s.authors[a]) in ops && s.authors[a].author == a
    {
      PV.StoredVoteWasInserted(v, ops[..i + 1], a);
    }
    var top :| top in tc.rounds && tc.rounds[top] == tc.hqcRound;
    var qc :| HasRound(cfg, n, qc, tc.hqcRound);
    assert ValidTc(cfg, n, TimeoutCert(Timeout(epoch, round, qc), tc.rounds));
  }

  /** A delivered ordered certificate orders its block, so `OrderedBlocksAgree` speaks of it. */
  lemma DeliveredCertOrders(cfg: Config, n: Network, info: Block -> POV.LedgerInfo, events: seq<POV.Event>,
                            c: POV.OrderCert, b: Block)
    requires forall li, a, x :: POV.OrderVoteMsg(li, a) in events && info(x) == li ==> x in PartyOf(n, a).orderVotes
    requires c in POV.Run(cfg.verifier(b.epoch), events).delivered && c.info == info(b)
    ensures OrderedBy(cfg, n, b, c.signers)
  {
    var v := cfg.verifier(b.epoch);
    POV.InvHolds(v, events);
    POV.SignersSentVotes(v, events);
    var s := POV.Run(v, events);
    var i :| 0 <= i < |s.delivered| && s.delivered[i] == c;
    forall a | a in c.signers
      ensures b in PartyOf(n, a).orderVotes
    {
      assert a in POV.Senders(events, c.info);
      assert POV.OrderVoteMsg(c.info, a) in events;
    }
  }
}
