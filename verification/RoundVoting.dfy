/** One validator's voting, from proposals, local timeouts, new rounds and restarts to the
    votes it broadcasts: the round manager over its round state and its safety rules. */
module RoundVoting {
  import opened Common
  import opened Validators
  import opened SafetyRules
  import CS = ConsensusSafety

  /** A vote as broadcast, with or without a timeout signature attached. */
  datatype SentVote = SentVote(vote: Vote, timeout: bool)

  /** `party` is the validator's safety data with everything it signed; `saved` the vote in the
      liveness storage; `broadcasts` every vote it sent out. */
  datatype Node = Node(
    author: Author, party: CS.Party, currentRound: nat, voteSent: Option<SentVote>,
    saved: Option<Vote>, broadcasts: seq<SentVote>)

  /** Answers from outside while voting: the store's timeout certificate, the signature checks,
      whether the block was inserted, whether voting is held back, whether the vote was saved. */
  datatype VoteEnv = VoteEnv(tc: Option<TimeoutCert>, checks: Checks, inserted: bool, syncOnly: bool, saved: bool)

  /** Answers from outside while timing out: the generated NIL block, the store's highest QC and TC. */
  datatype TimeoutEnv = TimeoutEnv(nil: Option<Block>, qc: QuorumCert, tc: Option<TimeoutCert>, checks: Checks)

  datatype Event =
    | Certificates(round: nat)
    | Proposal(block: Block, env: VoteEnv)
    | LocalTimeout(round: nat, env: VoteEnv, timeoutEnv: TimeoutEnv)
    | Restart(epoch: nat, round: nat, keepsVote: bool)

  /** `RoundState::process_certificates` */
  function NewRound(s: Node, round: nat): Node {
    if round > s.currentRound then s.(currentRound := round, voteSent := None) else s
  }

  /** `RoundState::record_vote` */
  function RecordVote(s: Node, v: SentVote): Node {
    if Round(v.vote.block) == s.currentRound then s.(voteSent := Some(v)) else s
  }

  function VoteBlock(s: Node, b: Block, env: VoteEnv): (Node, Option<Vote>) {
    if !env.inserted || s.voteSent.Some? || env.syncOnly then (s, None)
    else
      var r := SignVote(s.party.data, s.author, b, env.tc, env.checks);
      var s' := s.(party := CS.AfterVote(s.party, r));
      if r.Err? || !env.saved then (s', None) else (s'.(saved := Some(r.value)), Some(r.value))
  }

  function Broadcast(s: Node, v: SentVote): Node {
    RecordVote(s, v).(broadcasts := s.broadcasts + [v])
  }

  /** `process_verified_proposal`, for a proposal of any round. */
  function VerifiedProposal(s: Node, b: Block, env: VoteEnv): Node {
    var (s', vote) := VoteBlock(s, b, env);
    if vote.None? then s' else Broadcast(s', SentVote(vote.value, false))
  }

  /** The vote a timeout repeats or makes: the recorded one, else a vote for a NIL block. */
  function TimeoutVote(s: Node, round: nat, env: VoteEnv, nil: Option<Block>): (Node, Option<SentVote>) {
    if s.voteSent.Some? && Round(s.voteSent.value.vote.block) == round then (s, s.voteSent)
    else if nil.None? then (s, None)
    else
      var (s', vote) := VoteBlock(s, nil.value, env);
      (s', if vote.Some? then Some(SentVote(vote.value, false)) else None)
  }

  function AttachTimeout(s: Node, v: SentVote, t: TimeoutEnv): (Node, Option<SentVote>) {
    if v.timeout then (s, Some(v))
    else
      var timeout := Timeout(v.vote.block.epoch, Round(v.vote.block), t.qc);
      var r := SignTimeout(s.party.data, timeout, t.tc, t.checks);
      (s.(party := CS.AfterTimeout(s.party, r)), if r.Ok? then Some(v.(timeout := true)) else None)
  }

  /** `process_local_timeout` */
  function LocalTimeoutAt(s: Node, round: nat, env: VoteEnv, t: TimeoutEnv): Node {
    if round != s.currentRound || env.syncOnly then s
    else
      var (s1, vote) := TimeoutVote(s, round, env, t.nil);
      if vote.None? then s1
      else
        var (s2, signed) := AttachTimeout(s1, vote.value, t);
        if signed.None? then s2 else Broadcast(s2, signed.value)
  }

  /** A restart keeps the safety data and the saved vote; the round state starts over. The saved
      vote counts as sent if it is for the round the node resumes in. */
  function Resume(s: Node, epoch: nat, round: nat, keepsVote: bool): Node {
    var s' := s.(party := s.party.(data := Initialize(s.party.data, epoch)), currentRound := round, voteSent := None);
    if keepsVote && s.saved.Some? then RecordVote(s', SentVote(s.saved.value, false)) else s'
  }

  function Step(s: Node, ev: Event): Node {
    match ev
    case Certificates(r) => NewRound(s, r)
    case Proposal(b, env) => VerifiedProposal(s, b, env)
    case LocalTimeout(r, env, t) => LocalTimeoutAt(s, r, env, t)
    case Restart(e, r, keeps) => Resume(s, e, r, keeps)
  }

  function Run(author: Author, events: seq<Event>): Node {
    if events == [] then Node(author, CS.Party(EpochStart(0), {}, {}, {}), 0, None, None, [])
    else Step(Run(author, events[..|events| - 1]), events[|events| - 1])
  }

  /** The handlers, updating the round state and the signer in place. */
  class RoundManager {
    const signer: Signer
    var currentRound: nat
    var voteSent: Option<SentVote>
    var saved: Option<Vote>
    var broadcasts: seq<SentVote>
    ghost var votes: set<Block>
    ghost var timeouts: set<TimeoutSig>

    ghost function Abs(): Node
      reads this, signer
    {
      Node(signer.author, CS.Party(signer.data, votes, {}, timeouts), currentRound, voteSent, saved, broadcasts)
    }

    constructor (author: Author)
      ensures Abs() == Run(author, []) && fresh(signer)
    {
      signer := new Signer(author, 0);
      currentRound, voteSent, saved, broadcasts := 0, None, None, [];
      votes, timeouts := {}, {};
    }

    method ProcessCertificates(round: nat)
      modifies this
      ensures Abs() == NewRound(old(Abs()), round)
    {
      if round > currentRound {
        currentRound := round;
        voteSent := None;
      }
    }

    method Record(v: SentVote)
      modifies this`voteSent
      ensures Abs() == RecordVote(old(Abs()), v)
    {
      if Round(v.vote.block) == currentRound {
        voteSent := Some(v);
      }
    }

    method Vote(b: Block, env: VoteEnv) returns (vote: Option<Vote>)
      modifies this, signer
      ensures (Abs(), vote) == VoteBlock(old(Abs()), b, env)
    {
      if !env.inserted {
        return None;
      }
      if voteSent.Some? {
        return None;
      }
      if env.syncOnly {
        return None;
      }
      var r := signer.ConstructAndSignVote(b, env.tc, env.checks);
      if r.Err? {
        return None;
      }
      votes := votes + {r.value.block};
      if !env.saved {
        return None;
      }
      saved := Some(r.value);
      return Some(r.value);
    }

    method ProcessVerifiedProposal(b: Block, env: VoteEnv)
      modifies this, signer
      ensures Abs() == VerifiedProposal(old(Abs()), b, env)
    {
      var vote := Vote(b, env);
      if vote.Some? {
        Record(SentVote(vote.value, false));
        broadcasts := broadcasts + [SentVote(vote.value, false)];
      }
    }

    /** A proposal held back by back-pressure is dropped once the round has moved on. */
    method ProcessDelayedProposal(b: Block, env: VoteEnv)
      modifies this, signer
      ensures Abs() == if Round(b) == old(currentRound) then VerifiedProposal(old(Abs()), b, env) else old(Abs())
    {
      if Round(b) != currentRound {
        return;
      }
      ProcessVerifiedProposal(b, env);
    }

    method ProcessLocalTimeout(round: nat, env: VoteEnv, t: TimeoutEnv)
      modifies this, signer
      ensures Abs() == LocalTimeoutAt(old(Abs()), round, env, t)
    {
      if round != currentRound || env.syncOnly {
        return;
      }
      var sent: SentVote;
      if voteSent.Some? && Round(voteSent.value.vote.block) == round {
        sent := voteSent.value;
      } else {
        if t.nil.None? {
          return;
        }
        var vote := Vote(t.nil.value, env);
        if vote.None? {
          return;
        }
        sent := SentVote(vote.value, false);
      }
      if !sent.timeout {
        var timeout := Timeout(sent.vote.block.epoch, Round(sent.vote.block), t.qc);
        var r := signer.SignTimeoutWithQc(timeout, t.tc, t.checks);
        if r.Err? {
          return;
        }
        timeouts := timeouts + {r.value};
        sent := sent.(timeout := true);
      }
      Record(sent);
      broadcasts := broadcasts + [sent];
    }
  }

  // ---------------------------------------------------------------- what every event keeps

  /** Everything recorded, saved or broadcast was signed, and signed votes are one per round. */
  ghost predicate Inv(s: Node) {
    && CS.Covered(s.party) && CS.Consistent(s.party)
    && (s.voteSent.Some? ==>
        s.voteSent.value.vote.block in s.party.votes && Round(s.voteSent.value.vote.block) == s.currentRound)
    && (s.saved.Some? ==> s.saved.value.block in s.party.votes)
    && (forall v :: v in s.broadcasts ==> v.vote.block in s.party.votes)
  }

  lemma VoteBlockKeeps(s: Node, b: Block, env: VoteEnv)
    requires Inv(s)
    ensures var (t, vote) := VoteBlock(s, b, env);
            Inv(t) && (vote.Some? ==> vote.value.block in t.party.votes)
  {
    CS.VoteKeeps(s.party, s.author, b, env.tc, env.checks);
  }

  lemma AttachTimeoutKeeps(s: Node, v: SentVote, t: TimeoutEnv)
    requires Inv(s) && v.vote.block in s.party.votes
    ensures var (s', signed) := AttachTimeout(s, v, t);
            Inv(s') && s'.party.votes == s.party.votes && (signed.Some? ==> signed.value.vote == v.vote)
  {
    var timeout := Timeout(v.vote.block.epoch, Round(v.vote.block), t.qc);
    CS.TimeoutKeeps(s.party, timeout, t.tc, t.checks);
  }

  lemma BroadcastKeeps(s: Node, v: SentVote)
    requires Inv(s) && v.vote.block in s.party.votes
    ensures Inv(Broadcast(s, v))
  {
  }

  lemma ProposalKeeps(s: Node, b: Block, env: VoteEnv)
    requires Inv(s)
    ensures Inv(VerifiedProposal(s, b, env))
  {
    VoteBlockKeeps(s, b, env);
    var (t, vote) := VoteBlock(s, b, env);
    if vote.Some? {
      BroadcastKeeps(t, SentVote(vote.value, false));
    }
  }

  lemma TimeoutVoteKeeps(s: Node, round: nat, env: VoteEnv, nil: Option<Block>)
    requires Inv(s)
    ensures var (t, vote) := TimeoutVote(s, round, env, nil);
            Inv(t) && (vote.Some? ==> vote.value.vote.block in t.party.votes)
  {
    if nil.Some? {
      VoteBlockKeeps(s, nil.value, env);
    }
  }

  lemma LocalTimeoutKeeps(s: Node, round: nat, env: VoteEnv, t: TimeoutEnv)
    requires Inv(s)
    ensures Inv(LocalTimeoutAt(s, round, env, t))
  {
    if round == s.currentRound && !env.syncOnly {
      TimeoutVoteKeeps(s, round, env, t.nil);
      var (s1, vote) := TimeoutVote(s, round, env, t.nil);
      if vote.Some? {
        AttachTimeoutKeeps(s1, vote.value, t);
        var (s2, signed) := AttachTimeout(s1, vote.value, t);
        if signed.Some? {
          BroadcastKeeps(s2, signed.value);
        }
      }
    }
  }

  lemma ResumeKeeps(s: Node, epoch: nat, round: nat, keepsVote: bool)
    requires Inv(s)
    ensures Inv(Resume(s, epoch, round, keepsVote))
  {
  }

  lemma InvKept(s: Node, ev: Event)
    requires Inv(s)
    ensures Inv(Step(s, ev))
  {
    match ev
    case Certificates(_) =>
    case Proposal(b, env) => ProposalKeeps(s, b, env);
    case LocalTimeout(round, env, t) => LocalTimeoutKeeps(s, round, env, t);
    case Restart(epoch, round, keeps) => ResumeKeeps(s, epoch, round, keeps);
  }

  lemma {:induction false} InvHolds(author: Author, events: seq<Event>)
    ensures Inv(Run(author, events))
  {
    if events != [] {
      InvHolds(author, events[..|events| - 1]);
      InvKept(Run(author, events[..|events| - 1]), events[|events| - 1]);
    }
  }

  /** Over every run, across proposals of any round, timeouts, lost saves and restarts, all the
      votes a validator broadcasts for one round of an epoch name the same block. */
  lemma BroadcastsAgree(author: Author, events: seq<Event>, v: SentVote, w: SentVote)
    requires v in Run(author, events).broadcasts && w in Run(author, events).broadcasts
    requires v.vote.block.epoch == w.vote.block.epoch && Round(v.vote.block) == Round(w.vote.block)
    ensures v.vote.block == w.vote.block
  {
    InvHolds(author, events);
  }

  /** While a vote is recorded it stands: no proposal or timeout makes the validator sign another
      block or forget the vote, and at most that vote is broadcast again, with a timeout. */
  lemma RecordedVoteStands(author: Author, events: seq<Event>, ev: Event)
    requires Run(author, events).voteSent.Some? && (ev.Proposal? || ev.LocalTimeout?)
    ensures var s, t := Run(author, events), Step(Run(author, events), ev);
            && t.party.votes == s.party.votes && t.voteSent.Some? && t.voteSent.value.vote == s.voteSent.value.vote
            && (t.broadcasts == s.broadcasts || t.broadcasts == s.broadcasts + [SentVote(s.voteSent.value.vote, true)])
  {
    InvHolds(author, events);
  }

  function Continue(s: Node, events: seq<Event>): Node {
    if events == [] then s else Step(Continue(s, events[..|events| - 1]), events[|events| - 1])
  }

  lemma RoundStep(s: Node, ev: Event)
    requires Inv(s) && !ev.Restart?
    ensures var t := Step(s, ev);
            && s.currentRound <= t.currentRound
            && (s.voteSent.Some? && t.currentRound == s.currentRound ==>
                t.voteSent.Some? && t.voteSent.value.vote == s.voteSent.value.vote)
  {
  }

  /** Between restarts rounds never go back, and a recorded vote is forgotten only by leaving its
      round: as long as the node stays, the same vote is recorded. */
  lemma {:induction false} RecordedUntilRoundMoves(author: Author, events: seq<Event>, more: seq<Event>)
    requires forall ev :: ev in more ==> !ev.Restart?
    ensures var s := Run(author, events); var t := Continue(s, more);
            && Inv(t) && s.currentRound <= t.currentRound
            && (s.voteSent.Some? && t.currentRound == s.currentRound ==>
                t.voteSent.Some? && t.voteSent.value.vote == s.voteSent.value.vote)
  {
    var s := Run(author, events);
    if more == [] {
      InvHolds(author, events);
    } else {
      var before, ev := more[..|more| - 1], more[|more| - 1];
      RecordedUntilRoundMoves(author, events, before);
      RoundStep(Continue(s, before), ev);
      InvKept(Continue(s, before), ev);
    }
  }

  /** What `VoteBlock` needs to yield a vote. */
  predicate CanVote(s: Node, b: Block, env: VoteEnv) {
    && env.inserted && s.voteSent.None? && !env.syncOnly && env.saved
    && SignVote(s.party.data, s.author, b, env.tc, env.checks).Ok?
  }

  /** A proposal is answered with exactly one broadcast, of the vote signed for it, if and only if voting is
      open, the vote is signed and saved; that vote is then saved and, in its round, recorded. */
  lemma ProposalBroadcastsIff(s: Node, b: Block, env: VoteEnv)
    ensures var t := Step(s, Proposal(b, env));
            var signed := SignVote(s.party.data, s.author, b, env.tc, env.checks);
            && (CanVote(s, b, env) ==>
                && t.broadcasts == s.broadcasts + [SentVote(signed.value, false)] && t.saved == Some(signed.value)
                && (Round(signed.value.block) == s.currentRound ==> t.voteSent == Some(SentVote(signed.value, false))))
            && (!CanVote(s, b, env) ==> t.broadcasts == s.broadcasts && t.saved == s.saved && t.voteSent == s.voteSent)
  {
  }

  /** The vote a local timeout has to offer: the recorded one of the round, or one for the NIL block. */
  function Offered(s: Node, round: nat, env: VoteEnv, nil: Option<Block>): Option<Vote> {
    if s.voteSent.Some? && Round(s.voteSent.value.vote.block) == round then Some(s.voteSent.value.vote)
    else if nil.Some? && CanVote(s, nil.value, env)
      then Some(SignVote(s.party.data, s.author, nil.value, env.tc, env.checks).value)
    else None
  }

  /** A local timeout of the current round is answered with exactly one broadcast, of the vote on offer
      with a timeout, if and only if there is one and its timeout was or can be signed. */
  lemma TimeoutBroadcastsIff(s: Node, round: nat, env: VoteEnv, te: TimeoutEnv)
    ensures var t := Step(s, LocalTimeout(round, env, te));
            var offer := Offered(s, round, env, te.nil);
            && (round != s.currentRound || env.syncOnly ==> t == s)
            && (t.broadcasts != s.broadcasts ==>
                offer.Some? && t.broadcasts == s.broadcasts + [SentVote(offer.value, true)])
            && (t.broadcasts != s.broadcasts <==>
                && round == s.currentRound && !env.syncOnly && offer.Some?
                && (Repeated(s, round) || TimeoutSigned(s, round, env, te, offer.value)))
  {
    if round == s.currentRound && !env.syncOnly {
      var (s1, vote) := TimeoutVote(s, round, env, te.nil);
      if vote.Some? {
        var (s2, signed) := AttachTimeout(s1, vote.value, te);
        if signed.Some? {
          assert Broadcast(s2, signed.value).broadcasts == s.broadcasts + [signed.value];
        }
      }
    }
  }

  /** The recorded vote of the round already carries its timeout. */
  predicate Repeated(s: Node, round: nat) {
    s.voteSent.Some? && Round(s.voteSent.value.vote.block) == round && s.voteSent.value.timeout
  }

  /** The timeout of the offered vote is signed, with the data its vote has left. */
  predicate TimeoutSigned(s: Node, round: nat, env: VoteEnv, te: TimeoutEnv, vote: Vote) {
    var data := TimeoutVote(s, round, env, te.nil).0.party.data;
    SignTimeout(data, Timeout(vote.block.epoch, Round(vote.block), te.qc), te.tc, te.checks).Ok?
  }

  /** A restart into the round of the saved vote records it, so that a proposal there signs nothing new;
      a certificate for a higher round moves there with nothing recorded. */
  lemma RoundEntry(s: Node, epoch: nat, round: nat, b: Block, env: VoteEnv)
    ensures s.saved.Some? && Round(s.saved.value.block) == round ==>
            var t := Step(s, Restart(epoch, round, true));
            && t.currentRound == round && t.voteSent == Some(SentVote(s.saved.value, false))
            && Step(t, Proposal(b, env)) == t
    ensures var t := Step(s, Certificates(round));
            && t.currentRound == Max(s.currentRound, round)
            && t.voteSent == if round > s.currentRound then None else s.voteSent
  {
  }

  /** A step broadcasts at most one vote. If that vote is for the current round it is the recorded
      vote afterwards, and unless it carries a timeout it has been saved: a failure between
      signing and recording broadcasts nothing. */
  lemma BroadcastIsRecorded(s: Node, ev: Event)
    ensures var t := Step(s, ev);
            t.broadcasts == s.broadcasts ||
            (exists v :: && t.broadcasts == s.broadcasts + [v]
                         && (Round(v.vote.block) == t.currentRound ==> t.voteSent == Some(v))
                         && (v.timeout || t.saved == Some(v.vote)))
  {
    var t := Step(s, ev);
    if t.broadcasts != s.broadcasts {
      var v := t.broadcasts[|t.broadcasts| - 1];
      assert t.broadcasts == s.broadcasts + [v];
    }
  }
}
