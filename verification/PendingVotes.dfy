/** Aggregation of one round's votes into a quorum certificate or a timeout certificate.
    A vote is its author, the digest of its ledger info, and, for a timeout vote, the round
    of the highest QC its timeout carries. Signatures were verified before the vote got here. */
module PendingVotes {
  import opened Common
  import opened Validators

  type Digest = nat

  datatype Vote = Vote(author: Author, digest: Digest, timeout: Option<nat>)

  /** The timeouts gathered so far: the highest hqc round, and the one each author signed. */
  datatype PartialTc = PartialTc(hqcRound: nat, rounds: map<Author, nat>)

  datatype VoteReceptionResult =
    | VoteAdded(power: nat)
    | DuplicateVote
    | EquivocateVote
    | NewQuorumCertificate(digest: Digest, signers: set<Author>)
    | New2ChainTimeoutCertificate(tc: PartialTc)
    | ErrorAddingVote
    | EchoTimeout(power: nat)

  datatype State = State(
    votes: map<Digest, set<Author>>, tc: Option<PartialTc>, authors: map<Author, Vote>, echoed: bool)

  const EMPTY := State(map[], None, map[], false)

  function Signers(s: State, d: Digest): set<Author> {
    if d in s.votes then s.votes[d] else {}
  }

  function AddTimeout(tc: Option<PartialTc>, a: Author, hqcRound: nat): PartialTc {
    match tc
    case None => PartialTc(hqcRound, map[a := hqcRound])
    case Some(t) =>
      PartialTc(if hqcRound > t.hqcRound then hqcRound else t.hqcRound,
                if a in t.rounds then t.rounds else t.rounds[a := hqcRound])
  }

  /** The author voted before, and this vote does not add a timeout to the same vote. */
  predicate Repeats(s: State, vote: Vote) {
    vote.author in s.authors && !(s.authors[vote.author].timeout.None? && vote.timeout.Some?)
  }

  predicate Equivocates(s: State, vote: Vote) {
    vote.author in s.authors && s.authors[vote.author].digest != vote.digest
  }

  function Record(s: State, vote: Vote): State {
    s.(authors := s.authors[vote.author := vote],
       votes := s.votes[vote.digest := Signers(s, vote.digest) + {vote.author}])
  }

  ghost function InsertTimeout(v: ValidatorVerifier, s: State, a: Author, hqcRound: nat, power: nat)
    : (State, VoteReceptionResult)
  {
    var tc := AddTimeout(s.tc, a, hqcRound);
    var s' := s.(tc := Some(tc));
    match Check(v, tc.rounds.Keys)
    case Enough(_) => (s', New2ChainTimeoutCertificate(tc))
    case UnknownAuthor => (s', ErrorAddingVote)
    case TooLittle(tcPower) =>
      if !s.echoed && tcPower + v.quorum >= v.total + 1 then (s'.(echoed := true), EchoTimeout(tcPower))
      else (s', VoteAdded(power))
  }

  ghost function Insert(v: ValidatorVerifier, s: State, vote: Vote): (State, VoteReceptionResult) {
    if Equivocates(s, vote) then (s, EquivocateVote)
    else if Repeats(s, vote) then (s, DuplicateVote)
    else
      var s' := Record(s, vote);
      var signers := Signers(s', vote.digest);
      match Check(v, signers)
      case Enough(_) => (s', NewQuorumCertificate(vote.digest, signers))
      case UnknownAuthor => (s', ErrorAddingVote)
      case TooLittle(power) =>
        if vote.timeout.None? then (s', VoteAdded(power))
        else InsertTimeout(v, s', vote.author, vote.timeout.value, power)
  }

  ghost function DelayedQc(v: ValidatorVerifier, s: State, d: Digest): VoteReceptionResult {
    if d in s.votes && Check(v, s.votes[d]).Enough? then NewQuorumCertificate(d, s.votes[d]) else ErrorAddingVote
  }

  function Drain(s: State): State { s.(votes := map[], tc := None) }

  /** The structure a round keeps, updated in place. */
  class Aggregator {
    var votes: map<Digest, set<Author>>
    var tc: Option<PartialTc>
    var authors: map<Author, Vote>
    var echoed: bool

    ghost function Abs(): State
      reads this
    {
      State(votes, tc, authors, echoed)
    }

    constructor ()
      ensures Abs() == EMPTY
    {
      votes, tc, authors, echoed := map[], None, map[], false;
    }

    method InsertVote(v: ValidatorVerifier, vote: Vote) returns (r: VoteReceptionResult)
      requires Validators.Valid(v)
      modifies this
      ensures (Abs(), r) == Insert(v, old(Abs()), vote)
    {
      if vote.author in authors {
        var previous := authors[vote.author];
        if vote.digest == previous.digest {
          if !(vote.timeout.Some? && !previous.timeout.Some?) {
            return DuplicateVote;
          }
        } else {
          return EquivocateVote;
        }
      }
      authors := authors[vote.author := vote];
      if vote.digest !in votes {
        votes := votes[vote.digest := {}];
      }
      votes := votes[vote.digest := votes[vote.digest] + {vote.author}];
      assert Abs() == Record(old(Abs()), vote);
      var check := CheckVotingPower(v, votes[vote.digest]);
      match check {
        case Enough(_) => return NewQuorumCertificate(vote.digest, votes[vote.digest]);
        case UnknownAuthor => return ErrorAddingVote;
        case TooLittle(_) =>
      }
      if vote.timeout.Some? {
        r := CountTimeout(v, vote.author, vote.timeout.value, check.power);
      } else {
        r := VoteAdded(check.power);
      }
    }

    /** The timeout part of `InsertVote`. */
    method CountTimeout(v: ValidatorVerifier, author: Author, hqcRound: nat, power: nat)
      returns (r: VoteReceptionResult)
      requires Validators.Valid(v)
      modifies this
      ensures (Abs(), r) == InsertTimeout(v, old(Abs()), author, hqcRound, power)
    {
      var partial := if tc.Some? then tc.value else PartialTc(hqcRound, map[]);
      if hqcRound > partial.hqcRound {
        partial := partial.(hqcRound := hqcRound);
      }
      if author !in partial.rounds {
        partial := partial.(rounds := partial.rounds[author := hqcRound]);
      }
      tc := Some(partial);
      var check := CheckVotingPower(v, partial.rounds.Keys);
      match check {
        case Enough(_) => return New2ChainTimeoutCertificate(partial);
        case UnknownAuthor => return ErrorAddingVote;
        case TooLittle(tcPower) =>
          if !echoed {
            var fPlusOne := v.total - v.quorum + 1;
            if tcPower >= fPlusOne {
              echoed := true;
              return EchoTimeout(tcPower);
            }
          }
      }
      return VoteAdded(power);
    }

    /** A QC if and only if the digest is stored with a quorum of signers. */
    method ProcessDelayedQc(v: ValidatorVerifier, d: Digest) returns (r: VoteReceptionResult)
      ensures r == DelayedQc(v, Abs(), d)
      ensures if d in votes && IsQuorum(v, votes[d]) then r == NewQuorumCertificate(d, votes[d])
              else r == ErrorAddingVote
    {
      if d in votes {
        var check := CheckVotingPower(v, votes[d]);
        if check.Enough? {
          return NewQuorumCertificate(d, votes[d]);
        }
      }
      return ErrorAddingVote;
    }

    method DrainVotes() returns (drained: map<Digest, set<Author>>, timeouts: Option<PartialTc>)
      modifies this
      ensures Abs() == Drain(old(Abs())) && drained == old(votes) && timeouts == old(tc)
    {
      drained, timeouts := votes, tc;
      votes, tc := map[], None;
    }
  }

  // ---------------------------------------------------------------- runs

  datatype Op = InsertOp(vote: Vote) | DelayedQcOp(digest: Digest) | DrainOp

  ghost function Step(v: ValidatorVerifier, s: State, op: Op): (State, Option<VoteReceptionResult>) {
    match op
    case InsertOp(vote) => var (s', r) := Insert(v, s, vote); (s', Some(r))
    case DelayedQcOp(d) => (s, Some(DelayedQc(v, s, d)))
    case DrainOp => (Drain(s), None)
  }

  ghost function After(v: ValidatorVerifier, ops: seq<Op>): State {
    if ops == [] then EMPTY else Step(v, After(v, ops[..|ops| - 1]), ops[|ops| - 1]).0
  }

  /** What the `i`th operation of the run returned. */
  ghost function Result(v: ValidatorVerifier, ops: seq<Op>, i: nat): Option<VoteReceptionResult>
    requires i < |ops|
  {
    Step(v, After(v, ops[..i]), ops[i]).1
  }

  lemma AfterExtend(v: ValidatorVerifier, ops: seq<Op>, i: nat)
    requires i < |ops|
    ensures After(v, ops[..i + 1]) == Step(v, After(v, ops[..i]), ops[i]).0
  {
    assert ops[..i + 1][..i] == ops[..i];
  }

  /** A stored vote is never lost and keeps its digest; only a timeout may be added to it. */
  ghost predicate Advances(s: State, t: State) {
    forall a :: a in s.authors ==>
      && a in t.authors && t.authors[a].digest == s.authors[a].digest
      && (s.authors[a].timeout.Some? ==> t.authors[a] == s.authors[a])
  }

  lemma EffectAdvances(s: State, op: Op, t: State)
    requires Effect(s, op, t)
    ensures Advances(s, t)
  {
  }

  /** What an operation may change: nothing; or a new vote is recorded, its timeout perhaps
      counted; or everything but the stored votes is drained. */
  ghost predicate Effect(s: State, op: Op, t: State) {
    match op
    case InsertOp(vote) =>
      if Equivocates(s, vote) || Repeats(s, vote) then t == s else
        && t.authors == s.authors[vote.author := vote]
        && t.votes == s.votes[vote.digest := Signers(s, vote.digest) + {vote.author}]
        && (t.tc == s.tc || (vote.timeout.Some? && t.tc == Some(AddTimeout(s.tc, vote.author, vote.timeout.value))))
    case DelayedQcOp(_) => t == s
    case DrainOp => t == Drain(s)
  }

  lemma StepEffect(v: ValidatorVerifier, s: State, op: Op)
    ensures Effect(s, op, Step(v, s, op).0)
    ensures s.echoed ==> Step(v, s, op).0.echoed
  {
  }

  /** What each answer to an insertion says about the state it leaves. */
  ghost predicate Reported(v: ValidatorVerifier, s: State, vote: Vote, t: State, r: VoteReceptionResult) {
    if Equivocates(s, vote) then r == EquivocateVote
    else if Repeats(s, vote) then r == DuplicateVote
    else
      var signers := Signers(t, vote.digest);
      match r
      case NewQuorumCertificate(d, certified) => d == vote.digest && certified == signers && IsQuorum(v, signers)
      case VoteAdded(p) => !IsQuorum(v, signers) && p == Power(v, signers) < v.quorum
      case New2ChainTimeoutCertificate(tc) => !IsQuorum(v, signers) && t.tc == Some(tc) && IsQuorum(v, tc.rounds.Keys)
      case EchoTimeout(p) =>
        && !IsQuorum(v, signers) && !s.echoed && t.echoed && t.tc.Some? && p == Power(v, t.tc.value.rounds.Keys)
        && v.total < p + v.quorum && p < v.quorum
      case ErrorAddingVote => !IsQuorum(v, signers)
      case _ => false
  }

  lemma StepReported(v: ValidatorVerifier, s: State, vote: Vote)
    ensures var (t, r) := Insert(v, s, vote); Reported(v, s, vote, t, r)
  {
  }

  /** The signers and the timeout signers once an accepted vote is in. */
  ghost function SignersWith(s: State, vote: Vote): set<Author> { Signers(s, vote.digest) + {vote.author} }
  ghost function TimersWith(s: State, vote: Vote): set<Author> { TcSigners(s) + {vote.author} }

  /** The exact cause of every answer to a vote that is neither a duplicate nor an equivocation. */
  ghost predicate Answered(v: ValidatorVerifier, s: State, vote: Vote, r: VoteReceptionResult) {
    var signers, timers := SignersWith(s, vote), TimersWith(s, vote);
    var short := signers <= v.powers.Keys && Power(v, signers) < v.quorum;
    var counted := short && vote.timeout.Some?;
    var known := timers <= v.powers.Keys;
    && (r.NewQuorumCertificate? <==> signers <= v.powers.Keys && Power(v, signers) >= v.quorum)
    && (r.New2ChainTimeoutCertificate? <==> counted && known && Power(v, timers) >= v.quorum)
    && (r.EchoTimeout? <==>
        counted && known && Power(v, timers) < v.quorum && !s.echoed && Power(v, timers) > v.total - v.quorum)
    && (r.VoteAdded? <==>
        short && (vote.timeout.Some? ==>
          known && Power(v, timers) < v.quorum && (s.echoed || Power(v, timers) <= v.total - v.quorum)))
    && (r.ErrorAddingVote? <==> !(signers <= v.powers.Keys) || (counted && !known))
    && (r.NewQuorumCertificate? ==> r.digest == vote.digest && r.signers == signers)
    && (r.New2ChainTimeoutCertificate? ==> r.tc.rounds.Keys == timers)
    && (r.VoteAdded? ==> r.power == Power(v, signers))
    && (r.EchoTimeout? ==> r.power == Power(v, timers))
  }

  /** Every answer to an insertion has its exact cause. */
  lemma AnswersAreExact(v: ValidatorVerifier, s: State, vote: Vote)
    ensures var r := Insert(v, s, vote).1;
            var voted := vote.author in s.authors;
            && (r.EquivocateVote? <==> voted && s.authors[vote.author].digest != vote.digest)
            && (r.DuplicateVote? <==>
                && voted && s.authors[vote.author].digest == vote.digest
                && (s.authors[vote.author].timeout.Some? || vote.timeout.None?))
            && (!r.EquivocateVote? && !r.DuplicateVote? ==> Answered(v, s, vote, r))
  {
    if !Equivocates(s, vote) && !Repeats(s, vote) {
      var t := Record(s, vote);
      assert Signers(t, vote.digest) == SignersWith(s, vote);
      if vote.timeout.Some? {
        var tc := AddTimeout(s.tc, vote.author, vote.timeout.value);
        assert tc.rounds.Keys == TimersWith(s, vote);
      }
    }
  }

  /** Short of a quorum, a timeout vote of known validators is counted as a timeout. */
  lemma TimeoutCounted(v: ValidatorVerifier, s: State, vote: Vote)
    requires !Equivocates(s, vote) && !Repeats(s, vote) && vote.timeout.Some?
    requires Signers(s, vote.digest) + {vote.author} <= v.powers.Keys
    ensures var (t, r) := Insert(v, s, vote);
            r.NewQuorumCertificate? || t.tc == Some(AddTimeout(s.tc, vote.author, vote.timeout.value))
  {
    var t := Record(s, vote);
    assert Signers(t, vote.digest) == Signers(s, vote.digest) + {vote.author};
  }

  lemma {:induction false} StoredVotesAdvance(v: ValidatorVerifier, ops: seq<Op>, i: nat, j: nat)
    requires i <= j <= |ops|
    ensures Advances(After(v, ops[..i]), After(v, ops[..j]))
    decreases j - i
  {
    if i < j {
      AfterExtend(v, ops, i);
      StepEffect(v, After(v, ops[..i]), ops[i]);
      EffectAdvances(After(v, ops[..i]), ops[i], After(v, ops[..i + 1]));
      StoredVotesAdvance(v, ops, i + 1, j);
    }
  }

  /** Signers of a digest are authors whose stored vote names it; timeout signers are authors
      whose stored vote is a timeout; and the timeout's hqc round is the highest one signed. */
  ghost predicate Pinned(s: State) {
    && (forall d, a :: d in s.votes && a in s.votes[d] ==> a in s.authors && s.authors[a].digest == d)
    && (s.tc.Some? ==>
          && (forall a :: a in s.tc.value.rounds ==>
                a in s.authors && s.authors[a].timeout == Some(s.tc.value.rounds[a]))
          && HighestSigned(s.tc.value))
  }

  /** `TwoChainTimeoutCertificate::verify` demands this of the certificate. */
  ghost predicate HighestSigned(tc: PartialTc) {
    && (exists a :: a in tc.rounds && tc.rounds[a] == tc.hqcRound)
    && (forall a :: a in tc.rounds ==> tc.rounds[a] <= tc.hqcRound)
  }

  lemma AddTimeoutHighest(tc: Option<PartialTc>, a: Author, hqcRound: nat)
    requires tc.Some? ==> HighestSigned(tc.value) && a !in tc.value.rounds
    ensures HighestSigned(AddTimeout(tc, a, hqcRound))
  {
    var r := AddTimeout(tc, a, hqcRound);
    if tc.None? || hqcRound > tc.value.hqcRound {
      assert r.rounds[a] == r.hqcRound;
    } else {
      var x :| x in tc.value.rounds && tc.value.rounds[x] == tc.value.hqcRound;
      assert r.rounds[x] == r.hqcRound;
    }
  }

  lemma PinnedKept(s: State, op: Op, t: State)
    requires Pinned(s) && Effect(s, op, t)
    ensures Pinned(t)
  {
    if op.InsertOp? && t.tc != s.tc {
      AddTimeoutHighest(s.tc, op.vote.author, op.vote.timeout.value);
    }
  }

  lemma {:induction false} PinnedHolds(v: ValidatorVerifier, ops: seq<Op>)
    ensures Pinned(After(v, ops))
  {
    if ops != [] {
      var before, op := After(v, ops[..|ops| - 1]), ops[|ops| - 1];
      PinnedHolds(v, ops[..|ops| - 1]);
      StepEffect(v, before, op);
      PinnedKept(before, op, After(v, ops));
    }
  }

  /** A returned certificate has a quorum of known signers, each of whose stored vote names the
      certified digest, or carries the timeout the certificate lists for it. */
  ghost predicate Backed(v: ValidatorVerifier, s: State, r: VoteReceptionResult) {
    && (r.NewQuorumCertificate? ==>
          IsQuorum(v, r.signers) && forall a :: a in r.signers ==> a in s.authors && s.authors[a].digest == r.digest)
    && (r.New2ChainTimeoutCertificate? ==>
          && IsQuorum(v, r.tc.rounds.Keys) && HighestSigned(r.tc)
          && forall a :: a in r.tc.rounds ==> a in s.authors && s.authors[a].timeout == Some(r.tc.rounds[a]))
  }

  lemma CertificateIsBacked(v: ValidatorVerifier, ops: seq<Op>, i: nat)
    requires i < |ops| && Result(v, ops, i).Some?
    ensures Backed(v, After(v, ops[..i + 1]), Result(v, ops, i).value)
  {
    PinnedHolds(v, ops[..i + 1]);
    AfterExtend(v, ops, i);
    var s, t, r := After(v, ops[..i]), After(v, ops[..i + 1]), Result(v, ops, i).value;
    if ops[i].InsertOp? {
      StepReported(v, s, ops[i].vote);
      ReportBacked(v, s, ops[i].vote, t, r);
    }
  }

  lemma ReportBacked(v: ValidatorVerifier, s: State, vote: Vote, t: State, r: VoteReceptionResult)
    requires Pinned(t) && Reported(v, s, vote, t, r)
    ensures Backed(v, t, r)
  {
  }

  /** Every certificate signer's vote was inserted before. */
  lemma {:induction false} StoredVoteWasInserted(v: ValidatorVerifier, ops: seq<Op>, a: Author)
    requires a in After(v, ops).authors
    ensures InsertOp(After(v, ops).authors[a]) in ops && After(v, ops).authors[a].author == a
  {
    var before, op := After(v, ops[..|ops| - 1]), ops[|ops| - 1];
    StepEffect(v, before, op);
    EffectStores(before, op, After(v, ops), a);
    if a in before.authors && After(v, ops).authors[a] == before.authors[a] {
      StoredVoteWasInserted(v, ops[..|ops| - 1], a);
    }
  }

  lemma EffectStores(s: State, op: Op, t: State, a: Author)
    requires Effect(s, op, t) && a in t.authors
    ensures (a in s.authors && t.authors[a] == s.authors[a]) ||
            (op.InsertOp? && a == op.vote.author && t.authors[a] == op.vote)
  {
  }

  /** One certified digest per round: over any run, with no assumption on who is honest, all
      quorum certificates returned are for the same ledger info. */
  lemma OneCertifiedDigest(v: ValidatorVerifier, ops: seq<Op>, i: nat, j: nat)
    requires Valid(v) && 2 * v.quorum > v.total
    requires i < |ops| && j < |ops|
    requires Result(v, ops, i).Some? && Result(v, ops, i).value.NewQuorumCertificate?
    requires Result(v, ops, j).Some? && Result(v, ops, j).value.NewQuorumCertificate?
    ensures Result(v, ops, i).value.digest == Result(v, ops, j).value.digest
  {
    var q, r := Result(v, ops, i).value, Result(v, ops, j).value;
    CertificateIsBacked(v, ops, i);
    CertificateIsBacked(v, ops, j);
    StoredVotesAdvance(v, ops, i + 1, |ops|);
    StoredVotesAdvance(v, ops, j + 1, |ops|);
    QuorumOverlap(v, q.signers, r.signers);
    if q.signers * r.signers != {} {
      var a :| a in q.signers * r.signers;
    }
  }

  // ---------------------------------------------------------------- one author's votes

  /** The `i`th operation stored a vote of author `a`. */
  ghost predicate Accepts(v: ValidatorVerifier, ops: seq<Op>, i: nat, a: Author)
    requires i < |ops|
  {
    && ops[i].InsertOp? && ops[i].vote.author == a
    && Result(v, ops, i) != Some(DuplicateVote) && Result(v, ops, i) != Some(EquivocateVote)
  }

  lemma AcceptedIsStored(v: ValidatorVerifier, ops: seq<Op>, i: nat, a: Author)
    requires i < |ops| && Accepts(v, ops, i, a)
    ensures var s, t := After(v, ops[..i]), After(v, ops[..i + 1]);
            && a in t.authors && t.authors[a] == ops[i].vote
            && (a in s.authors ==> s.authors[a].timeout.None? && ops[i].vote.timeout.Some?
                                   && s.authors[a].digest == ops[i].vote.digest)
  {
    AfterExtend(v, ops, i);
    StepEffect(v, After(v, ops[..i]), ops[i]);
    StepReported(v, After(v, ops[..i]), ops[i].vote);
  }

  /** At most two votes per author are accepted, the second adding a timeout to the first. */
  lemma AtMostTwoVotes(v: ValidatorVerifier, ops: seq<Op>, i: nat, j: nat, a: Author)
    requires i < j < |ops| && Accepts(v, ops, i, a) && Accepts(v, ops, j, a)
    ensures ops[i].vote.timeout.None? && ops[j].vote.timeout.Some? && ops[i].vote.digest == ops[j].vote.digest
    ensures forall k :: j < k < |ops| ==> !Accepts(v, ops, k, a)
  {
    AcceptedIsStored(v, ops, i, a);
    AcceptedIsStored(v, ops, j, a);
    StoredVotesAdvance(v, ops, i + 1, j);
    forall k | j < k < |ops|
      ensures !Accepts(v, ops, k, a)
    {
      StoredVotesAdvance(v, ops, j + 1, k);
      if Accepts(v, ops, k, a) {
        AcceptedIsStored(v, ops, k, a);
        assert false;
      }
    }
  }

  /** No drain and no quorum certificate yet, and inserts by known validators only. */
  ghost predicate BeforeQuorum(v: ValidatorVerifier, ops: seq<Op>) {
    forall i :: 0 <= i < |ops| ==> Uncertified(v, ops, i)
  }

  ghost predicate Uncertified(v: ValidatorVerifier, ops: seq<Op>, i: nat)
    requires i < |ops|
  {
    && !ops[i].DrainOp? && (ops[i].InsertOp? ==> ops[i].vote.author in v.powers)
    && !Result(v, ops, i).value.NewQuorumCertificate?
  }

  ghost function TimedOut(s: State): set<Author> {
    set a | a in s.authors && s.authors[a].timeout.Some?
  }

  function TcSigners(s: State): set<Author> {
    if s.tc.Some? then s.tc.value.rounds.Keys else {}
  }

  lemma {:induction false} KnownAuthors(v: ValidatorVerifier, ops: seq<Op>)
    requires BeforeQuorum(v, ops)
    ensures After(v, ops).authors.Keys <= v.powers.Keys
  {
    if ops != [] {
      var before, op := After(v, ops[..|ops| - 1]), ops[|ops| - 1];
      assert Uncertified(v, ops, |ops| - 1);
      BeforeQuorumPrefix(v, ops);
      KnownAuthors(v, ops[..|ops| - 1]);
      StepEffect(v, before, op);
      forall a | a in After(v, ops).authors
        ensures a in v.powers
      {
        EffectStores(before, op, After(v, ops), a);
      }
    }
  }

  lemma BeforeQuorumPrefix(v: ValidatorVerifier, ops: seq<Op>)
    requires BeforeQuorum(v, ops) && ops != []
    ensures BeforeQuorum(v, ops[..|ops| - 1])
  {
    var before := ops[..|ops| - 1];
    forall i | 0 <= i < |before|
      ensures Uncertified(v, before, i)
    {
      assert Uncertified(v, ops, i);
      assert before[i] == ops[i] && before[..i] == ops[..i];
    }
  }

  /** Until a quorum certificate forms or a drain, the timeout signers are exactly the authors whose
      stored vote is a timeout. */
  lemma {:induction false} TimeoutSignersExact(v: ValidatorVerifier, ops: seq<Op>)
    requires BeforeQuorum(v, ops)
    ensures TcSigners(After(v, ops)) == TimedOut(After(v, ops))
  {
    if ops != [] {
      var last := |ops| - 1;
      var before := After(v, ops[..last]);
      BeforeQuorumPrefix(v, ops);
      TimeoutSignersExact(v, ops[..last]);
      KnownAuthors(v, ops[..last]);
      PinnedHolds(v, ops[..last]);
      assert Uncertified(v, ops, last);
      if ops[last].InsertOp? {
        TimeoutStep(v, before, ops[last].vote);
      }
    }
  }

  lemma TimeoutStep(v: ValidatorVerifier, s: State, vote: Vote)
    requires Pinned(s) && s.authors.Keys + {vote.author} <= v.powers.Keys && TcSigners(s) == TimedOut(s)
    requires !Insert(v, s, vote).1.NewQuorumCertificate?
    ensures TcSigners(Insert(v, s, vote).0) == TimedOut(Insert(v, s, vote).0)
  {
    StepEffect(v, s, InsertOp(vote));
    if !Equivocates(s, vote) && !Repeats(s, vote) && vote.timeout.Some? {
      TimeoutCounted(v, s, vote);
    }
    EffectTimeouts(s, vote, Insert(v, s, vote).0);
  }

  lemma EffectTimeouts(s: State, vote: Vote, t: State)
    requires Effect(s, InsertOp(vote), t) && TcSigners(s) == TimedOut(s)
    requires !Equivocates(s, vote) && !Repeats(s, vote) && vote.timeout.Some? ==>
               t.tc == Some(AddTimeout(s.tc, vote.author, vote.timeout.value))
    ensures TcSigners(t) == TimedOut(t)
  {
    if !Equivocates(s, vote) && !Repeats(s, vote) {
      assert TimedOut(t) == TimedOut(s) + (if vote.timeout.Some? then {vote.author} else {});
    }
  }

  ghost predicate TimesOutAt(v: ValidatorVerifier, ops: seq<Op>, i: nat) {
    i < |ops| && Result(v, ops, i).Some? && Result(v, ops, i).value.New2ChainTimeoutCertificate?
  }

  /** A timeout vote that newly counts, and makes a quorum, is answered with a certificate. */
  lemma NewTimeoutCertifies(v: ValidatorVerifier, s: State, vote: Vote)
    requires s.authors.Keys + {vote.author} <= v.powers.Keys && Pinned(s) && TcSigners(s) == TimedOut(s)
    requires TimedOut(Insert(v, s, vote).0) != TimedOut(s) && Power(v, TimedOut(Insert(v, s, vote).0)) >= v.quorum
    requires !Insert(v, s, vote).1.NewQuorumCertificate?
    ensures Insert(v, s, vote).1.New2ChainTimeoutCertificate?
  {
    StepEffect(v, s, InsertOp(vote));
    AnswersAreExact(v, s, vote);
    assert SignersWith(s, vote) <= v.powers.Keys;
    assert TimedOut(Insert(v, s, vote).0) == TimersWith(s, vote);
  }

  /** Before any quorum certificate or drain, a timeout certificate is returned at some point if and
      only if the authors whose stored vote is a timeout hold a quorum. */
  lemma {:induction false} TimeoutCertIffTimedOut(v: ValidatorVerifier, ops: seq<Op>)
    requires BeforeQuorum(v, ops)
    ensures (exists i: nat :: TimesOutAt(v, ops, i)) <==>
            TimedOut(After(v, ops)) != {} && Power(v, TimedOut(After(v, ops))) >= v.quorum
  {
    if i: nat :| TimesOutAt(v, ops, i) {
      TimeoutCertNeedsQuorum(v, ops, i);
    }
    if TimedOut(After(v, ops)) != {} && Power(v, TimedOut(After(v, ops))) >= v.quorum {
      var last := |ops| - 1;
      var before := ops[..last];
      BeforeQuorumPrefix(v, ops);
      assert Uncertified(v, ops, last);
      if TimedOut(After(v, before)) == TimedOut(After(v, ops)) {
        TimeoutCertIffTimedOut(v, before);
        var i: nat :| TimesOutAt(v, before, i);
        assert before[..i] == ops[..i] && before[i] == ops[i];
        assert TimesOutAt(v, ops, i);
      } else {
        KnownAuthors(v, before);
        PinnedHolds(v, before);
        TimeoutSignersExact(v, before);
        NewTimeoutCertifies(v, After(v, before), ops[last].vote);
        assert TimesOutAt(v, ops, last);
      }
    }
  }

  lemma TimeoutCertNeedsQuorum(v: ValidatorVerifier, ops: seq<Op>, i: nat)
    requires BeforeQuorum(v, ops) && TimesOutAt(v, ops, i)
    ensures TimedOut(After(v, ops)) != {} && Power(v, TimedOut(After(v, ops))) >= v.quorum
  {
    var tc := Result(v, ops, i).value.tc;
    CertificateIsBacked(v, ops, i);
    StoredVotesAdvance(v, ops, i + 1, |ops|);
    assert ops[..|ops|] == ops;
    assert tc.rounds.Keys <= TimedOut(After(v, ops));
    PowerMonotone(v, tc.rounds.Keys, TimedOut(After(v, ops)));
    var top :| top in tc.rounds;
    assert top in TimedOut(After(v, ops));
  }

  /** The authors of inserted timeout votes. */
  ghost function TimeoutVoters(ops: seq<Op>): set<Author> {
    set op | op in ops && op.InsertOp? && op.vote.timeout.Some? :: op.vote.author
  }

  ghost predicate NoEquivocation(ops: seq<Op>) {
    forall x, y :: x in ops && y in ops && x.InsertOp? && y.InsertOp? && x.vote.author == y.vote.author ==>
      x.vote.digest == y.vote.digest
  }

  /** Without equivocation no timeout vote goes uncounted. */
  lemma {:induction false} TimedOutAreVoters(v: ValidatorVerifier, ops: seq<Op>)
    requires NoEquivocation(ops)
    ensures TimedOut(After(v, ops)) == TimeoutVoters(ops)
  {
    if ops != [] {
      var last := |ops| - 1;
      var before, op := ops[..last], ops[last];
      var s, t := After(v, before), After(v, ops);
      TimedOutAreVoters(v, before);
      StepEffect(v, s, op);
      assert ops == before + [op];
      if op.InsertOp? {
        if op.vote.author in s.authors {
          StoredVoteWasInserted(v, before, op.vote.author);
        }
        InsertTimesOut(s, op.vote, t);
        assert TimeoutVoters(ops) == TimeoutVoters(before) + (if op.vote.timeout.Some? then {op.vote.author} else {});
      } else {
        assert TimeoutVoters(ops) == TimeoutVoters(before);
      }
    }
  }

  lemma InsertTimesOut(s: State, vote: Vote, t: State)
    requires Effect(s, InsertOp(vote), t) && !Equivocates(s, vote)
    ensures TimedOut(t) == TimedOut(s) + (if vote.timeout.Some? then {vote.author} else {})
  {
  }

  /** So a timeout certificate is returned if and only if the authors of inserted timeout votes hold
      a quorum, as long as nobody equivocates. */
  lemma TimeoutCertIffQuorum(v: ValidatorVerifier, ops: seq<Op>)
    requires BeforeQuorum(v, ops) && NoEquivocation(ops)
    ensures (exists i: nat :: TimesOutAt(v, ops, i)) <==>
            TimeoutVoters(ops) != {} && Power(v, TimeoutVoters(ops)) >= v.quorum
  {
    TimeoutCertIffTimedOut(v, ops);
    TimedOutAreVoters(v, ops);
  }

  ghost predicate EchoesAt(v: ValidatorVerifier, ops: seq<Op>, i: nat) {
    i < |ops| && Result(v, ops, i).Some? && Result(v, ops, i).value.EchoTimeout?
  }

  /** The echo flag says that an echo was returned. */
  lemma {:induction false} EchoedIffReturned(v: ValidatorVerifier, ops: seq<Op>)
    ensures After(v, ops).echoed <==> exists i: nat :: EchoesAt(v, ops, i)
  {
    if ops != [] {
      var last := |ops| - 1;
      var before := ops[..last];
      EchoedIffReturned(v, before);
      EchoStep(v, After(v, before), ops[last]);
      if i: nat :| EchoesAt(v, before, i) {
        assert before[..i] == ops[..i] && before[i] == ops[i];
        assert EchoesAt(v, ops, i);
      }
      if i: nat :| EchoesAt(v, ops, i) {
        if i < last {
          assert before[..i] == ops[..i] && before[i] == ops[i];
          assert EchoesAt(v, before, i);
        }
      }
      if Step(v, After(v, before), ops[last]).1 != None && Step(v, After(v, before), ops[last]).1.value.EchoTimeout? {
        assert EchoesAt(v, ops, last);
      }
    }
  }

  lemma EchoStep(v: ValidatorVerifier, s: State, op: Op)
    ensures var (t, r) := Step(v, s, op);
            t.echoed <==> s.echoed || (r.Some? && r.value.EchoTimeout?)
  {
  }

  /** A node echoes a round's timeout at most once, and only when timeouts with more power
      than `total - quorum` are in, so at least one signer lies outside any such set. */
  lemma EchoOnceAndOnlyPastFaulty(v: ValidatorVerifier, ops: seq<Op>, i: nat)
    requires Valid(v) && i < |ops| && Result(v, ops, i).Some? && Result(v, ops, i).value.EchoTimeout?
    ensures var s := After(v, ops[..i + 1]);
            && Result(v, ops, i).value.power == Power(v, TcSigners(s))
            && v.total - v.quorum < Power(v, TcSigners(s)) < v.quorum
            && (forall faulty: set<Author> :: Power(v, faulty) <= v.total - v.quorum ==> !(TcSigners(s) <= faulty))
    ensures forall j :: i < j < |ops| ==> Result(v, ops, j).None? || !Result(v, ops, j).value.EchoTimeout?
  {
    AfterExtend(v, ops, i);
    StepReported(v, After(v, ops[..i]), ops[i].vote);
    var s := After(v, ops[..i + 1]);
    forall faulty: set<Author> | Power(v, faulty) <= v.total - v.quorum && TcSigners(s) <= faulty
      ensures false
    {
      PowerMonotone(v, TcSigners(s), faulty);
    }
    forall j | i < j < |ops|
      ensures Result(v, ops, j).None? || !Result(v, ops, j).value.EchoTimeout?
    {
      EchoedStays(v, ops, i + 1, j);
      if ops[j].InsertOp? {
        StepReported(v, After(v, ops[..j]), ops[j].vote);
      }
    }
  }

  lemma {:induction false} EchoedStays(v: ValidatorVerifier, ops: seq<Op>, i: nat, j: nat)
    requires i <= j <= |ops| && After(v, ops[..i]).echoed
    ensures After(v, ops[..j]).echoed
    decreases j - i
  {
    if i < j {
      AfterExtend(v, ops, i);
      StepEffect(v, After(v, ops[..i]), ops[i]);
      EchoedStays(v, ops, i + 1, j);
    }
  }

  // ---------------------------------------------------------------- order independence

  ghost function Inserts(votes: seq<Vote>): seq<Op> { seq(|votes|, i requires 0 <= i < |votes| => InsertOp(votes[i])) }

  /** Who voted for `d`. */
  ghost function Voters(votes: seq<Vote>, d: Digest): set<Author> {
    set vote | vote in votes && vote.digest == d :: vote.author
  }

  /** No author names two digests. */
  ghost predicate OneDigestEach(votes: seq<Vote>) {
    forall x, y :: x in votes && y in votes && x.author == y.author ==> x.digest == y.digest
  }

  /** Some insertion of the run returned a quorum certificate for `d`. */
  ghost predicate Certifies(v: ValidatorVerifier, votes: seq<Vote>, d: Digest) {
    exists i: nat :: CertifiesAt(v, votes, d, i)
  }

  ghost predicate CertifiesAt(v: ValidatorVerifier, votes: seq<Vote>, d: Digest, i: nat) {
    && i < |votes| && Result(v, Inserts(votes), i).value.NewQuorumCertificate?
    && Result(v, Inserts(votes), i).value.digest == d
  }

  ghost predicate Mirrors(s: State, votes: seq<Vote>) {
    && (forall d :: Signers(s, d) == Voters(votes, d))
    && (forall a :: a in s.authors ==> s.authors[a] in votes && s.authors[a].author == a)
  }

  lemma {:induction false} SignersAreVoters(v: ValidatorVerifier, votes: seq<Vote>)
    requires OneDigestEach(votes)
    ensures Mirrors(After(v, Inserts(votes)), votes)
  {
    var s := After(v, Inserts(votes));
    if votes != [] {
      var before, vote := votes[..|votes| - 1], votes[|votes| - 1];
      SignersAreVoters(v, before);
      assert Inserts(votes)[..|votes| - 1] == Inserts(before);
      var t := After(v, Inserts(before));
      StepEffect(v, t, InsertOp(vote));
      assert Inserts(votes)[|votes| - 1] == InsertOp(vote);
      EffectVoters(t, before, vote, s, votes);
    }
  }

  lemma EffectVoters(t: State, before: seq<Vote>, vote: Vote, s: State, votes: seq<Vote>)
    requires votes == before + [vote] && Effect(t, InsertOp(vote), s)
    requires forall x :: x in before && x.author == vote.author ==> x.digest == vote.digest
    requires Mirrors(t, before)
    ensures Mirrors(s, votes)
  {
    forall d ensures Signers(s, d) == Voters(votes, d) {
      assert Voters(votes, d) == Voters(before, d) + (if vote.digest == d then {vote.author} else {});
      if vote.author in t.authors {
        assert vote.author in Voters(before, vote.digest);
      }
    }
  }

  /** A reported power is the exact power of the distinct voters so far, and is below quorum;
      a certificate's signers are exactly the distinct voters so far. */
  lemma ReportsAreExact(v: ValidatorVerifier, votes: seq<Vote>, i: nat)
    requires OneDigestEach(votes) && i < |votes|
    ensures var voters := Voters(votes[..i + 1], votes[i].digest);
            match Result(v, Inserts(votes), i).value
            case VoteAdded(p) => p == Power(v, voters) < v.quorum
            case NewQuorumCertificate(d, signers) => d == votes[i].digest && signers == voters
            case EquivocateVote => false
            case _ => true
  {
    assert Inserts(votes)[..i] == Inserts(votes[..i]) && Inserts(votes)[..i + 1] == Inserts(votes[..i + 1]);
    AfterExtend(v, Inserts(votes), i);
    StepReported(v, After(v, Inserts(votes)[..i]), votes[i]);
    SignersAreVoters(v, votes[..i]);
    SignersAreVoters(v, votes[..i + 1]);
  }

  lemma {:induction false} CertifiesPrefix(v: ValidatorVerifier, votes: seq<Vote>, d: Digest, n: nat)
    requires n <= |votes| && Certifies(v, votes[..n], d)
    ensures Certifies(v, votes, d)
  {
    var i: nat :| CertifiesAt(v, votes[..n], d, i);
    assert Inserts(votes[..n])[..i] == Inserts(votes)[..i] && Inserts(votes[..n])[i] == Inserts(votes)[i];
    assert Result(v, Inserts(votes[..n]), i) == Result(v, Inserts(votes), i);
    assert CertifiesAt(v, votes, d, i);
  }

  /** After `n` votes the distinct voters for `d` are known validators holding a quorum. */
  ghost predicate QuorumAt(v: ValidatorVerifier, votes: seq<Vote>, d: Digest, n: nat)
    requires n <= |votes|
  {
    Voters(votes[..n], d) != {} && IsQuorum(v, Voters(votes[..n], d))
  }

  /** A vote by a new voter that completes a quorum is certified at once. */
  lemma NewVoterCertifies(v: ValidatorVerifier, s: State, vote: Vote)
    requires vote.author !in s.authors && IsQuorum(v, Signers(s, vote.digest) + {vote.author})
    ensures var r := Insert(v, s, vote).1; r.NewQuorumCertificate? && r.digest == vote.digest
  {
    var t := Insert(v, s, vote).0;
    StepEffect(v, s, InsertOp(vote));
    StepReported(v, s, vote);
    assert Signers(t, vote.digest) == Signers(s, vote.digest) + {vote.author};
  }

  /** If all voters for `d` are known and hold a quorum, one of them was certified. */
  lemma {:induction false} QuorumCertifies(v: ValidatorVerifier, votes: seq<Vote>, d: Digest)
    requires OneDigestEach(votes) && Voters(votes, d) != {} && IsQuorum(v, Voters(votes, d))
    ensures Certifies(v, votes, d)
  {
    var last := |votes| - 1;
    var before, vote := votes[..last], votes[last];
    assert Voters(votes, d) == Voters(before, d) + (if vote.digest == d then {vote.author} else {});
    if Voters(before, d) == Voters(votes, d) {
      QuorumCertifies(v, before, d);
      CertifiesPrefix(v, votes, d, last);
    } else {
      SignersAreVoters(v, before);
      assert Inserts(votes)[..last] == Inserts(before);
      NewVoterCertifies(v, After(v, Inserts(before)), vote);
      assert CertifiesAt(v, votes, d, last);
    }
  }

  /** A certificate for `d` is returned at some point if and only if at some point the distinct
      voters for `d` are all known and hold a quorum. */
  lemma CertifiesIffQuorum(v: ValidatorVerifier, votes: seq<Vote>, d: Digest)
    requires OneDigestEach(votes)
    ensures Certifies(v, votes, d) <==> exists n: nat :: n <= |votes| && QuorumAt(v, votes, d, n)
  {
    if Certifies(v, votes, d) {
      var i: nat :| CertifiesAt(v, votes, d, i);
      ReportsAreExact(v, votes, i);
      CertificateIsBacked(v, Inserts(votes), i);
      assert votes[..i + 1][i] == votes[i];
      assert votes[i].author in Voters(votes[..i + 1], d);
      assert QuorumAt(v, votes, d, i + 1);
    }
    if n: nat :| n <= |votes| && QuorumAt(v, votes, d, n) {
      QuorumCertifies(v, votes[..n], d);
      CertifiesPrefix(v, votes, d, n);
    }
  }

  /** The same votes, in any order and any number of times. */
  ghost predicate SameVotes(votes: seq<Vote>, others: seq<Vote>) {
    forall vote :: vote in votes <==> vote in others
  }

  /** The signers of a digest depend only on which votes arrived, and so does its certification
      wherever the votes are settled. */
  lemma OrderDoesNotMatter(v: ValidatorVerifier, votes: seq<Vote>, others: seq<Vote>, d: Digest)
    requires OneDigestEach(votes) && SameVotes(votes, others)
    ensures Signers(After(v, Inserts(votes)), d) == Signers(After(v, Inserts(others)), d)
    ensures Settled(v, votes, d) ==> (Certifies(v, votes, d) <==> Certifies(v, others, d))
  {
    SignersAreVoters(v, votes);
    SignersAreVoters(v, others);
    assert Voters(votes, d) == Voters(others, d);
    if Settled(v, votes, d) {
      SettledAgree(v, votes, others, d);
    }
  }

  /** Whether `d` is certified at some point does not depend on order or repetition. */
  ghost predicate OrderIndependent(v: ValidatorVerifier, votes: seq<Vote>, d: Digest) {
    forall others :: SameVotes(votes, others) ==> (Certifies(v, votes, d) <==> Certifies(v, others, d))
  }

  function KnownVoters(v: ValidatorVerifier, votes: seq<Vote>, d: Digest): set<Author> {
    set vote | vote in votes && vote.digest == d && vote.author in v.powers :: vote.author
  }

  /** All voters for `d` are known, or the known ones hold no quorum. */
  ghost predicate Settled(v: ValidatorVerifier, votes: seq<Vote>, d: Digest) {
    || Voters(votes, d) <= v.powers.Keys
    || KnownVoters(v, votes, d) == {} || Power(v, KnownVoters(v, votes, d)) < v.quorum
  }

  /** With all voters known it is their power that decides. */
  lemma KnownVotersDecide(v: ValidatorVerifier, votes: seq<Vote>, d: Digest)
    requires OneDigestEach(votes) && Voters(votes, d) <= v.powers.Keys
    ensures Certifies(v, votes, d) <==> Voters(votes, d) != {} && Power(v, Voters(votes, d)) >= v.quorum
  {
    CertifiesIffQuorum(v, votes, d);
    assert votes[..|votes|] == votes;
    if n: nat :| n <= |votes| && QuorumAt(v, votes, d, n) {
      assert Voters(votes[..n], d) <= Voters(votes, d);
      PowerMonotone(v, Voters(votes[..n], d), Voters(votes, d));
    } else {
      assert !QuorumAt(v, votes, d, |votes|);
    }
  }

  /** Without a quorum of known voters there is no certificate, in any order. */
  lemma TooFewKnown(v: ValidatorVerifier, votes: seq<Vote>, d: Digest)
    requires OneDigestEach(votes) && (KnownVoters(v, votes, d) == {} || Power(v, KnownVoters(v, votes, d)) < v.quorum)
    ensures !Certifies(v, votes, d)
  {
    CertifiesIffQuorum(v, votes, d);
    forall n: nat | n <= |votes|
      ensures !QuorumAt(v, votes, d, n)
    {
      if IsQuorum(v, Voters(votes[..n], d)) {
        assert Voters(votes[..n], d) <= KnownVoters(v, votes, d);
        PowerMonotone(v, Voters(votes[..n], d), KnownVoters(v, votes, d));
      }
    }
  }

  /** An unknown voter that comes first blocks the digest for good. */
  lemma UnknownFirstBlocks(v: ValidatorVerifier, unknown: Vote, votes: seq<Vote>)
    requires OneDigestEach([unknown] + votes) && unknown.author !in v.powers
    ensures !Certifies(v, [unknown] + votes, unknown.digest)
  {
    var all := [unknown] + votes;
    CertifiesIffQuorum(v, all, unknown.digest);
    forall n: nat | n <= |all|
      ensures !QuorumAt(v, all, unknown.digest, n)
    {
      if n > 0 {
        assert all[..n][0] == unknown;
        assert unknown.author in Voters(all[..n], unknown.digest);
      }
    }
  }

  function KnownFirst(v: ValidatorVerifier, votes: seq<Vote>, d: Digest): seq<Vote> {
    if votes == [] then []
    else (if votes[0].digest == d && votes[0].author in v.powers then [votes[0]] else []) + KnownFirst(v, votes[1..], d)
  }

  lemma {:induction false} KnownFirstVotes(v: ValidatorVerifier, votes: seq<Vote>, d: Digest)
    ensures forall x :: x in KnownFirst(v, votes, d) <==> x in votes && x.digest == d && x.author in v.powers
  {
    if votes != [] {
      KnownFirstVotes(v, votes[1..], d);
    }
  }

  /** The known voters coming first certify, whatever follows. */
  lemma KnownFirstCertifies(v: ValidatorVerifier, votes: seq<Vote>, d: Digest)
    requires OneDigestEach(votes) && KnownVoters(v, votes, d) != {} && Power(v, KnownVoters(v, votes, d)) >= v.quorum
    ensures SameVotes(votes, KnownFirst(v, votes, d) + votes) && Certifies(v, KnownFirst(v, votes, d) + votes, d)
  {
    var known := KnownFirst(v, votes, d);
    KnownFirstVotes(v, votes, d);
    assert Voters(known, d) == KnownVoters(v, votes, d);
    KnownVotersDecide(v, known, d);
    assert (known + votes)[..|known|] == known;
    CertifiesPrefix(v, known + votes, d, |known|);
  }

  /** Certification is independent of order and repetition if and only if every voter for the
      digest is known or the known ones hold no quorum. */
  lemma OrderIndependentIff(v: ValidatorVerifier, votes: seq<Vote>, d: Digest)
    requires OneDigestEach(votes)
    ensures OrderIndependent(v, votes, d) <==> Settled(v, votes, d)
  {
    if Settled(v, votes, d) {
      forall others | SameVotes(votes, others)
        ensures Certifies(v, votes, d) <==> Certifies(v, others, d)
      {
        OrderDoesNotMatter(v, votes, others, d);
      }
    } else {
      var a :| a in Voters(votes, d) && a !in v.powers;
      var unknown :| unknown in votes && unknown.digest == d && unknown.author == a;
      UnknownFirstBlocks(v, unknown, votes);
      KnownFirstCertifies(v, votes, d);
      assert SameVotes(votes, [unknown] + votes);
    }
  }

  lemma SettledAgree(v: ValidatorVerifier, votes: seq<Vote>, others: seq<Vote>, d: Digest)
    requires OneDigestEach(votes) && SameVotes(votes, others) && Settled(v, votes, d)
    ensures Certifies(v, votes, d) <==> Certifies(v, others, d)
  {
    assert Voters(votes, d) == Voters(others, d) && KnownVoters(v, votes, d) == KnownVoters(v, others, d);
    if Voters(votes, d) <= v.powers.Keys {
      KnownVotersDecide(v, votes, d);
      KnownVotersDecide(v, others, d);
    } else {
      TooFewKnown(v, votes, d);
      TooFewKnown(v, others, d);
    }
  }

  /** Two votes for one digest, of a lone validator and of an outsider: certified if the
      validator's comes first, never if the outsider's does. */
  lemma OrderCanMatter()
    ensures var v := ValidatorVerifier(map[1 := 1], 1, 1);
            var member, outsider := Vote(1, 0, None), Vote(9, 0, None);
            Certifies(v, [member, outsider], 0) && !Certifies(v, [outsider, member], 0)
  {
    var v := ValidatorVerifier(map[1 := 1], 1, 1);
    var member, outsider := Vote(1, 0, None), Vote(9, 0, None);
    PowerRemove(v, {1}, 1);
    assert Voters([member], 0) == {1};
    KnownVotersDecide(v, [member], 0);
    assert [member, outsider][..1] == [member];
    CertifiesPrefix(v, [member, outsider], 0, 1);
    UnknownFirstBlocks(v, outsider, [member]);
    assert [outsider] + [member] == [outsider, member];
  }
}
