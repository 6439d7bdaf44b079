/** Agreement of the 2-chain protocol with order votes. Every honest validator signs only
    through the safety rules; everyone else may sign anything at any time. Over every run,
    any two blocks ordered in one epoch, by order votes or by the 2-chain rule, are on one chain. */
module ConsensusSafety {
  import opened Common
  import opened Validators
  import opened SafetyRules

  /** The validator set of each epoch, and who follows the protocol. */
  datatype Config = Config(verifier: nat -> ValidatorVerifier, honest: set<Author>)

  /** One validator: its persisted safety data and everything it ever signed. */
  datatype Party = Party(data: SafetyData, votes: set<Block>, orderVotes: set<Block>, timeouts: set<TimeoutSig>)

  type Network = map<Author, Party>

  /** One atomic event. `proposal` and `stored` are the outside verdicts of `Checks`. */
  datatype Event =
    | CastVote(author: Author, block: Block, tc: Option<TimeoutCert>, proposal: bool, stored: bool)
    | CastOrderVote(author: Author, block: Block, qc: QuorumCert, stored: bool)
    | CastTimeout(author: Author, timeout: Timeout, tc: Option<TimeoutCert>, stored: bool)
    | EnterEpoch(author: Author, epoch: nat)
    | Forge(author: Author, signed: Party)

  function PartyOf(n: Network, a: Author): Party {
    if a in n then n[a] else Party(EpochStart(0), {}, {}, {})
  }

  /** Faulty validators hold less power than any two quorums share. */
  ghost predicate Tolerable(cfg: Config) {
    forall e: nat :: TolerableIn(cfg, e)
  }

  ghost predicate TolerableIn(cfg: Config, e: nat) {
    var v := cfg.verifier(e);
    Valid(v) && Power(v, v.powers.Keys - cfg.honest) + v.total < 2 * v.quorum
  }

  ghost predicate CertifiedBy(cfg: Config, n: Network, b: Block, signers: set<Author>) {
    IsQuorum(cfg.verifier(b.epoch), signers) && forall a :: a in signers ==> b in PartyOf(n, a).votes
  }

  ghost predicate Certified(cfg: Config, n: Network, b: Block) {
    b.Genesis? || exists signers :: CertifiedBy(cfg, n, b, signers)
  }

  /** `QuorumCert::verify`; the epoch's genesis carries no signatures. */
  ghost predicate ValidQc(cfg: Config, n: Network, qc: QuorumCert) {
    if qc.certified.Genesis? then qc.signers == {} else CertifiedBy(cfg, n, qc.certified, qc.signers)
  }

  /** `TwoChainTimeoutCertificate::verify` */
  ghost predicate ValidTc(cfg: Config, n: Network, tc: TimeoutCert) {
    var t := tc.timeout;
    && HqcRound(t) < t.round
    && ValidQc(cfg, n, t.qc)
    && IsQuorum(cfg.verifier(t.epoch), tc.rounds.Keys)
    && (forall a :: a in tc.rounds ==> TimeoutSig(t.epoch, t.round, tc.rounds[a]) in PartyOf(n, a).timeouts)
    && (exists a :: a in tc.rounds && tc.rounds[a] == HqcRound(t))
    && (forall a :: a in tc.rounds ==> tc.rounds[a] <= HqcRound(t))
  }

  ghost predicate OrderedBy(cfg: Config, n: Network, b: Block, signers: set<Author>) {
    IsQuorum(cfg.verifier(b.epoch), signers) && forall a :: a in signers ==> b in PartyOf(n, a).orderVotes
  }

  /** A block is ordered when a quorum order-voted for it, or when a certified child of the
      next round commits it. */
  ghost predicate Ordered(cfg: Config, n: Network, b: Block) {
    || (exists signers :: OrderedBy(cfg, n, b, signers))
    || (exists c :: CommitInfo(c) == Some(b) && Certified(cfg, n, c))
  }

  ghost predicate Extends(b: Block, ancestor: Block) {
    b == ancestor || (b.Block? && Extends(b.qc.certified, ancestor))
  }

  /** The round manager hands the safety rules the timeout certificate of its own block
      store, which holds certificates of the current epoch only. */
  ghost predicate FromStore(tc: Option<TimeoutCert>, epoch: nat) {
    tc.Some? ==> tc.value.timeout.epoch == epoch
  }

  ghost predicate TcVerdict(cfg: Config, n: Network, tc: Option<TimeoutCert>) {
    tc.Some? ==> ValidTc(cfg, n, tc.value)
  }

  function AfterVote(p: Party, r: Outcome<Vote>): Party {
    if r.Err? then p else p.(data := r.data, votes := p.votes + {r.value.block})
  }

  function AfterOrderVote(p: Party, r: Outcome<OrderVote>): Party {
    if r.Err? then p else p.(data := r.data, orderVotes := p.orderVotes + {r.value.block})
  }

  function AfterTimeout(p: Party, r: Outcome<TimeoutSig>): Party {
    if r.Err? then p else p.(data := r.data, timeouts := p.timeouts + {r.value})
  }

  /** What the acting validator has become after the event. */
  ghost function Act(cfg: Config, n: Network, ev: Event): Party {
    var p := PartyOf(n, ev.author);
    match ev
    case CastVote(a, b, tc, proposal, stored) =>
      if !FromStore(tc, b.epoch) then p else
        var checks := Checks(b.Block? && ValidQc(cfg, n, b.qc), proposal, TcVerdict(cfg, n, tc), stored);
        AfterVote(p, SignVote(p.data, a, b, tc, checks))
    case CastOrderVote(a, b, qc, stored) =>
      AfterOrderVote(p, SignOrderVote(p.data, a, b, qc, Checks(ValidQc(cfg, n, qc), true, true, stored)))
    case CastTimeout(a, t, tc, stored) =>
      AfterTimeout(p, SignTimeout(p.data, t, tc, Checks(ValidQc(cfg, n, t.qc), true, TcVerdict(cfg, n, tc), stored)))
    case EnterEpoch(a, e) =>
      p.(data := Initialize(p.data, e))
    case Forge(a, signed) =>
      if a in cfg.honest then p else
        Party(signed.data, p.votes + signed.votes, p.orderVotes + signed.orderVotes, p.timeouts + signed.timeouts)
  }

  ghost function Run(cfg: Config, events: seq<Event>): Network {
    if events == [] then map[] else
      var n, ev := Run(cfg, events[..|events| - 1]), events[|events| - 1];
      n[ev.author := Act(cfg, n, ev)]
  }

  // ---------------------------------------------------------------- what every event keeps

  /** Everything an honest validator signed is covered by its persisted data. */
  ghost predicate Covered(p: Party) {
    var d := p.data;
    && d.highestTimeoutRound <= d.lastVotedRound
    && (d.lastVote.Some? ==> d.lastVote.value.block in p.votes)
    && (forall b :: b in p.votes ==> b.Block? && b.epoch <= d.epoch)
    && (forall b :: b in p.votes && b.epoch == d.epoch ==>
          Round(b) <= d.lastVotedRound && Round(Parent(b)) <= d.oneChainRound)
    && (forall b :: b in p.orderVotes ==> b.epoch <= d.epoch)
    && (forall b :: b in p.orderVotes && b.epoch == d.epoch ==> Round(b) <= d.oneChainRound)
    && (forall t :: t in p.timeouts ==> t.epoch <= d.epoch)
    && (forall t :: t in p.timeouts && t.epoch == d.epoch ==> t.round <= d.highestTimeoutRound)
  }

  ghost predicate TimesOut(t: TimeoutSig, b: Block) {
    t.epoch == b.epoch && t.round >= Round(b)
  }

  /** One vote per round; a timeout of a voted (order-voted) round or later reports a QC at
      least as high as the vote's parent (the order-voted block). */
  ghost predicate Consistent(p: Party) {
    && (forall b, c :: b in p.votes && c in p.votes && b.epoch == c.epoch && Round(b) == Round(c) ==> b == c)
    && (forall b, t :: b in p.votes && t in p.timeouts && TimesOut(t, b) ==> t.hqcRound >= Round(Parent(b)))
    && (forall b, t :: b in p.orderVotes && t in p.timeouts && TimesOut(t, b) ==> t.hqcRound >= Round(b))
  }

  /** Why an honest validator could vote for `b`: a certified parent, and either consecutive
      rounds or a timeout certificate for the previous round that `b`'s QC is not behind. */
  ghost predicate Justified(cfg: Config, n: Network, b: Block) {
    && b.Block? && b.qc.certified.epoch == b.epoch && Round(b.qc.certified) < b.round
    && Certified(cfg, n, b.qc.certified)
    && (b.round == Round(b.qc.certified) + 1 || exists tc :: Unlocks(cfg, n, tc, b))
  }

  ghost predicate Unlocks(cfg: Config, n: Network, tc: TimeoutCert, b: Block)
    requires b.Block?
  {
    && ValidTc(cfg, n, tc) && tc.timeout.epoch == b.epoch
    && b.round == tc.timeout.round + 1 && Round(b.qc.certified) >= HqcRound(tc.timeout)
  }

  ghost predicate Inv(cfg: Config, n: Network) {
    && (forall a :: a in cfg.honest ==> Covered(PartyOf(n, a)) && Consistent(PartyOf(n, a)))
    && (forall a, b :: a in cfg.honest && b in PartyOf(n, a).votes ==> Justified(cfg, n, b))
    && (forall a, b :: a in cfg.honest && b in PartyOf(n, a).orderVotes ==> Certified(cfg, n, b))
  }

  /** `q` is `p` with a vote for a new, higher round of its epoch. */
  ghost predicate NewlyVoted(p: Party, q: Party, b: Block) {
    && b.Block? && b.epoch == p.data.epoch && p.data.lastVotedRound < b.round
    && q == p.(data := q.data, votes := p.votes + {b})
    && q.data.epoch == p.data.epoch && q.data.lastVotedRound == b.round
    && q.data.highestTimeoutRound == p.data.highestTimeoutRound
    && q.data.oneChainRound == Max(p.data.oneChainRound, Round(Parent(b)))
    && q.data.lastVote.Some? && q.data.lastVote.value.block == b
  }

  lemma NewVoteCovered(p: Party, q: Party, b: Block)
    requires Covered(p) && NewlyVoted(p, q, b)
    ensures Covered(q)
  {
  }

  lemma NewVoteConsistent(p: Party, q: Party, b: Block)
    requires Covered(p) && Consistent(p) && NewlyVoted(p, q, b)
    ensures Consistent(q)
  {
    assert forall t :: t in p.timeouts ==> !TimesOut(t, b);
    assert forall c :: c in p.votes && c.epoch == b.epoch ==> Round(c) < b.round;
  }

  lemma VoteKeeps(p: Party, a: Author, b: Block, tc: Option<TimeoutCert>, checks: Checks)
    requires Covered(p) && Consistent(p)
    ensures var q := AfterVote(p, SignVote(p.data, a, b, tc, checks)); Covered(q) && Consistent(q)
  {
    var r := SignVote(p.data, a, b, tc, checks);
    if r.Ok? && r.data != p.data {
      NewVoteCovered(p, AfterVote(p, r), b);
      NewVoteConsistent(p, AfterVote(p, r), b);
    } else if r.Ok? {
      assert p.votes + {r.value.block} == p.votes;
    }
  }

  lemma OrderVoteKeeps(p: Party, a: Author, b: Block, qc: QuorumCert, checks: Checks)
    requires Covered(p) && Consistent(p)
    ensures var q := AfterOrderVote(p, SignOrderVote(p.data, a, b, qc, checks)); Covered(q) && Consistent(q)
  {
  }

  lemma TimeoutKeeps(p: Party, t: Timeout, tc: Option<TimeoutCert>, checks: Checks)
    requires Covered(p) && Consistent(p)
    ensures var q := AfterTimeout(p, SignTimeout(p.data, t, tc, checks)); Covered(q) && Consistent(q)
  {
  }

  /** Entering an epoch forgets nothing that matters: epochs never go back, and in a newer one the
      validator starts with nothing signed. */
  lemma EpochEntryKeeps(p: Party, epoch: nat)
    requires Covered(p) && Consistent(p)
    ensures var q := p.(data := Initialize(p.data, epoch));
            && Covered(q) && Consistent(q) && q.data.epoch == Max(p.data.epoch, epoch)
            && (q.data != p.data ==>
                && q.data == SafetyData(epoch, 0, 0, 0, None, 0)
                && (forall b :: b in p.votes || b in p.orderVotes ==> b.epoch < q.data.epoch)
                && (forall t :: t in p.timeouts ==> t.epoch < q.data.epoch))
  {
  }

  lemma HonestActKeeps(cfg: Config, n: Network, ev: Event)
    requires ev.author in cfg.honest && Covered(PartyOf(n, ev.author)) && Consistent(PartyOf(n, ev.author))
    ensures Covered(Act(cfg, n, ev)) && Consistent(Act(cfg, n, ev))
  {
    var p := PartyOf(n, ev.author);
    match ev
    case CastVote(a, b, tc, proposal, stored) =>
      VoteKeeps(p, a, b, tc, Checks(b.Block? && ValidQc(cfg, n, b.qc), proposal, TcVerdict(cfg, n, tc), stored));
    case CastOrderVote(a, b, qc, stored) =>
      OrderVoteKeeps(p, a, b, qc, Checks(ValidQc(cfg, n, qc), true, true, stored));
    case CastTimeout(a, t, tc, stored) =>
      TimeoutKeeps(p, t, tc, Checks(ValidQc(cfg, n, t.qc), true, TcVerdict(cfg, n, tc), stored));
    case EnterEpoch(a, e) =>
      EpochEntryKeeps(p, e);
    case Forge(a, signed) =>
  }

  /** More signatures. */
  ghost predicate Grows(n: Network, m: Network) {
    forall a :: PartyOf(n, a).votes <= PartyOf(m, a).votes
             && PartyOf(n, a).orderVotes <= PartyOf(m, a).orderVotes
             && PartyOf(n, a).timeouts <= PartyOf(m, a).timeouts
  }

  lemma CertifiedGrows(cfg: Config, n: Network, m: Network, b: Block)
    requires Grows(n, m) && Certified(cfg, n, b)
    ensures Certified(cfg, m, b)
  {
    if b.Block? {
      var signers :| CertifiedBy(cfg, n, b, signers);
      assert CertifiedBy(cfg, m, b, signers);
    }
  }

  lemma JustifiedGrows(cfg: Config, n: Network, m: Network, b: Block)
    requires Grows(n, m) && Justified(cfg, n, b)
    ensures Justified(cfg, m, b)
  {
    CertifiedGrows(cfg, n, m, b.qc.certified);
    if b.round != Round(b.qc.certified) + 1 {
      var tc :| Unlocks(cfg, n, tc, b);
      assert Unlocks(cfg, m, tc, b);
    }
  }

  lemma SignedVoteJustified(cfg: Config, n: Network, ev: Event, b: Block)
    requires ev.author in cfg.honest && Covered(PartyOf(n, ev.author))
    requires b in Act(cfg, n, ev).votes && b !in PartyOf(n, ev.author).votes
    ensures Justified(cfg, n, b)
  {
    assert ValidQc(cfg, n, b.qc);
    if b.round != Round(b.qc.certified) + 1 {
      assert Unlocks(cfg, n, ev.tc.value, b);
    }
  }

  lemma ActGrows(cfg: Config, n: Network, ev: Event)
    ensures Grows(n, n[ev.author := Act(cfg, n, ev)])
  {
  }

  lemma VotesStayJustified(cfg: Config, n: Network, m: Network, ev: Event, a: Author, b: Block)
    requires Inv(cfg, n) && m == n[ev.author := Act(cfg, n, ev)] && Grows(n, m)
    requires a in cfg.honest && b in PartyOf(m, a).votes
    ensures Justified(cfg, m, b)
  {
    if b !in PartyOf(n, a).votes {
      SignedVoteJustified(cfg, n, ev, b);
    }
    JustifiedGrows(cfg, n, m, b);
  }

  lemma OrderVotesStayCertified(cfg: Config, n: Network, m: Network, ev: Event, a: Author, b: Block)
    requires Inv(cfg, n) && m == n[ev.author := Act(cfg, n, ev)] && Grows(n, m)
    requires a in cfg.honest && b in PartyOf(m, a).orderVotes
    ensures Certified(cfg, m, b)
  {
    if b !in PartyOf(n, a).orderVotes {
      assert ValidQc(cfg, n, ev.qc);
    }
    CertifiedGrows(cfg, n, m, b);
  }

  lemma InvKept(cfg: Config, n: Network, ev: Event)
    requires Inv(cfg, n)
    ensures Inv(cfg, n[ev.author := Act(cfg, n, ev)])
  {
    var m := n[ev.author := Act(cfg, n, ev)];
    ActGrows(cfg, n, ev);
    forall a | a in cfg.honest
      ensures Covered(PartyOf(m, a)) && Consistent(PartyOf(m, a))
    {
      if a == ev.author {
        HonestActKeeps(cfg, n, ev);
      }
    }
    forall a, b | a in cfg.honest && b in PartyOf(m, a).votes
      ensures Justified(cfg, m, b)
    {
      VotesStayJustified(cfg, n, m, ev, a, b);
    }
    forall a, b | a in cfg.honest && b in PartyOf(m, a).orderVotes
      ensures Certified(cfg, m, b)
    {
      OrderVotesStayCertified(cfg, n, m, ev, a, b);
    }
  }

  lemma {:induction false} InvHolds(cfg: Config, events: seq<Event>)
    ensures Inv(cfg, Run(cfg, events))
  {
    if events != [] {
      InvHolds(cfg, events[..|events| - 1]);
      InvKept(cfg, Run(cfg, events[..|events| - 1]), events[|events| - 1]);
    }
  }

  // ---------------------------------------------------------------- agreement

  lemma HonestOverlap(cfg: Config, e: nat, s: set<Author>, t: set<Author>) returns (a: Author)
    requires Tolerable(cfg) && IsQuorum(cfg.verifier(e), s) && IsQuorum(cfg.verifier(e), t)
    ensures a in s && a in t && a in cfg.honest
  {
    assert TolerableIn(cfg, e);
    var v := cfg.verifier(e);
    QuorumOverlap(v, s, t);
    if forall x :: x in s && x in t ==> x !in cfg.honest {
      PowerMonotone(v, s * t, v.powers.Keys - cfg.honest);
      assert false;
    }
    a :| a in s && a in t && a in cfg.honest;
  }

  /** A certified block was voted for by an honest validator, so it was justified. */
  lemma CertifiedIsJustified(cfg: Config, n: Network, b: Block)
    requires Tolerable(cfg) && Inv(cfg, n) && b.Block? && Certified(cfg, n, b)
    ensures Justified(cfg, n, b)
  {
    var s :| CertifiedBy(cfg, n, b, s);
    var a := HonestOverlap(cfg, b.epoch, s, s);
    assert b in PartyOf(n, a).votes;
  }

  /** No round certifies two blocks. */
  lemma OneBlockPerRound(cfg: Config, n: Network, b: Block, c: Block)
    requires Tolerable(cfg) && Inv(cfg, n)
    requires Certified(cfg, n, b) && Certified(cfg, n, c) && b.epoch == c.epoch && Round(b) == Round(c)
    ensures b == c
  {
    if b.Block? { CertifiedIsJustified(cfg, n, b); }
    if c.Block? { CertifiedIsJustified(cfg, n, c); }
    if b.Block? && c.Block? {
      var s :| CertifiedBy(cfg, n, b, s);
      var t :| CertifiedBy(cfg, n, c, t);
      var a := HonestOverlap(cfg, b.epoch, s, t);
      assert Consistent(PartyOf(n, a));
    }
  }

  lemma OrderedIsCertified(cfg: Config, n: Network, b: Block)
    requires Tolerable(cfg) && Inv(cfg, n) && Ordered(cfg, n, b)
    ensures Certified(cfg, n, b)
  {
    if signers :| OrderedBy(cfg, n, b, signers) {
      var a := HonestOverlap(cfg, b.epoch, signers, signers);
      assert b in PartyOf(n, a).orderVotes;
    } else {
      var c :| CommitInfo(c) == Some(b) && Certified(cfg, n, c);
      CertifiedIsJustified(cfg, n, c);
    }
  }

  /** A timeout certificate shares an honest signer with any quorum. */
  lemma SharedSigner(cfg: Config, n: Network, tc: TimeoutCert, s: set<Author>) returns (a: Author, t: TimeoutSig)
    requires Tolerable(cfg) && ValidTc(cfg, n, tc) && IsQuorum(cfg.verifier(tc.timeout.epoch), s)
    ensures a in s && a in cfg.honest && t in PartyOf(n, a).timeouts
    ensures t.epoch == tc.timeout.epoch && t.round == tc.timeout.round && t.hqcRound <= HqcRound(tc.timeout)
  {
    a := HonestOverlap(cfg, tc.timeout.epoch, s, tc.rounds.Keys);
    t := TimeoutSig(tc.timeout.epoch, tc.timeout.round, tc.rounds[a]);
  }

  /** Once `b` has a quorum of order votes, a timeout certificate of its round or later
      reports a QC at least as high as `b`. */
  lemma TimeoutSeesOrderVoted(cfg: Config, n: Network, b: Block, s: set<Author>, tc: TimeoutCert)
    requires Tolerable(cfg) && Inv(cfg, n) && OrderedBy(cfg, n, b, s)
    requires ValidTc(cfg, n, tc) && tc.timeout.epoch == b.epoch && tc.timeout.round >= Round(b)
    ensures HqcRound(tc.timeout) >= Round(b)
  {
    var a, t := SharedSigner(cfg, n, tc, s);
    assert Consistent(PartyOf(n, a)) && TimesOut(t, b);
  }

  /** Once a certified child commits `b`, so does a timeout certificate of the child's round or later. */
  lemma TimeoutSeesCommitted(cfg: Config, n: Network, b: Block, c: Block, tc: TimeoutCert)
    requires Tolerable(cfg) && Inv(cfg, n) && CommitInfo(c) == Some(b) && Certified(cfg, n, c)
    requires ValidTc(cfg, n, tc) && tc.timeout.epoch == c.epoch && tc.timeout.round >= Round(c)
    ensures HqcRound(tc.timeout) >= Round(b)
  {
    var s :| CertifiedBy(cfg, n, c, s);
    var a, t := SharedSigner(cfg, n, tc, s);
    assert Consistent(PartyOf(n, a)) && TimesOut(t, c);
  }

  /** So no certified block skips over an ordered one: its parent is not below it. */
  lemma ParentNotBelowOrdered(cfg: Config, n: Network, b: Block, c: Block)
    requires Tolerable(cfg) && Inv(cfg, n)
    requires Ordered(cfg, n, b) && Certified(cfg, n, c) && b.epoch == c.epoch && Round(c) > Round(b)
    ensures Justified(cfg, n, c) && Round(c.qc.certified) >= Round(b)
  {
    CertifiedIsJustified(cfg, n, c);
    if c.round != Round(c.qc.certified) + 1 {
      var tc :| Unlocks(cfg, n, tc, c);
      if s :| OrderedBy(cfg, n, b, s) {
        TimeoutSeesOrderVoted(cfg, n, b, s, tc);
      } else {
        var d :| CommitInfo(d) == Some(b) && Certified(cfg, n, d);
        CertifiedIsJustified(cfg, n, d);
        if Round(d) == Round(c) {
          OneBlockPerRound(cfg, n, d, c);
        } else {
          TimeoutSeesCommitted(cfg, n, b, d, tc);
        }
      }
    }
  }

  /** The heart of the argument: every certified block at an ordered block's round or later
      extends it. Induction on the certified block's round. */
  lemma {:induction false} CertifiedExtendsOrdered(cfg: Config, n: Network, b: Block, c: Block)
    requires Tolerable(cfg) && Inv(cfg, n)
    requires Ordered(cfg, n, b) && Certified(cfg, n, c) && b.epoch == c.epoch && Round(c) >= Round(b)
    ensures Extends(c, b)
    decreases Round(c)
  {
    if Round(c) == Round(b) {
      OrderedIsCertified(cfg, n, b);
      OneBlockPerRound(cfg, n, b, c);
    } else {
      ParentNotBelowOrdered(cfg, n, b, c);
      CertifiedExtendsOrdered(cfg, n, b, c.qc.certified);
    }
  }

  /** Agreement, over every run. */
  lemma OrderedBlocksAgree(cfg: Config, events: seq<Event>, b: Block, c: Block)
    requires Tolerable(cfg)
    requires Ordered(cfg, Run(cfg, events), b) && Ordered(cfg, Run(cfg, events), c) && b.epoch == c.epoch
    ensures Extends(b, c) || Extends(c, b)
  {
    var n := Run(cfg, events);
    InvHolds(cfg, events);
    OrderedIsCertified(cfg, n, b);
    OrderedIsCertified(cfg, n, c);
    if Round(b) <= Round(c) {
      CertifiedExtendsOrdered(cfg, n, b, c);
    } else {
      CertifiedExtendsOrdered(cfg, n, c, b);
    }
  }
}
