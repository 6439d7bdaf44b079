/** Aggregation of order votes into ordered certificates, and the round manager that feeds
    it, garbage-collects it and hands each certificate on. A ledger info value stands for
    its digest. */
module PendingOrderVotes {
  import opened Validators

  datatype LedgerInfo = LedgerInfo(round: nat, blockId: nat)

  datatype OrderVoteStatus = EnoughVotes(signers: set<Author>) | NotEnoughVotes(signers: set<Author>)

  datatype OrderVoteReceptionResult =
    | VoteAdded(power: nat)
    | NewLedgerInfoWithSignatures(cert: OrderCert)
    | ErrorAddingVote
    | UnknownVoter

  datatype OrderCert = OrderCert(info: LedgerInfo, signers: set<Author>)

  type Votes = map<LedgerInfo, OrderVoteStatus>

  function StatusOf(m: Votes, li: LedgerInfo): OrderVoteStatus {
    if li in m then m[li] else NotEnoughVotes({})
  }

  ghost function Insert(v: ValidatorVerifier, m: Votes, li: LedgerInfo, a: Author): (Votes, OrderVoteReceptionResult) {
    var status := StatusOf(m, li);
    if status.EnoughVotes? then (m, NewLedgerInfoWithSignatures(OrderCert(li, status.signers)))
    else if a !in v.powers then (m[li := status], UnknownVoter)
    else
      var signers := status.signers + {a};
      match Check(v, signers)
      case Enough(_) => (m[li := EnoughVotes(signers)], NewLedgerInfoWithSignatures(OrderCert(li, signers)))
      case TooLittle(p) => (m[li := NotEnoughVotes(signers)], VoteAdded(p))
      case UnknownAuthor => (m[li := NotEnoughVotes(signers)], ErrorAddingVote)
  }

  function Collect(m: Votes, highestOrderedRound: nat): Votes {
    map li | li in m && li.round > highestOrderedRound :: m[li]
  }

  predicate HasEnough(m: Votes, li: LedgerInfo) {
    li in m && m[li].EnoughVotes?
  }

  class Aggregator {
    var votes: Votes

    constructor ()
      ensures votes == map[]
    {
      votes := map[];
    }

    method InsertOrderVote(v: ValidatorVerifier, li: LedgerInfo, a: Author) returns (r: OrderVoteReceptionResult)
      modifies this
      ensures (votes, r) == Insert(v, old(votes), li, a)
    {
      if li !in votes {
        votes := votes[li := NotEnoughVotes({})];
      }
      match votes[li] {
        case EnoughVotes(signers) =>
          return NewLedgerInfoWithSignatures(OrderCert(li, signers));
        case NotEnoughVotes(signers) =>
          if a !in v.powers {
            assert votes == old(votes)[li := NotEnoughVotes(signers)];
            return UnknownVoter;
          }
          votes := votes[li := NotEnoughVotes(signers + {a})];
          assert votes == old(votes)[li := NotEnoughVotes(signers + {a})];
          var check := CheckVotingPower(v, signers + {a});
          match check {
            case Enough(_) =>
              votes := votes[li := EnoughVotes(signers + {a})];
              assert votes == old(votes)[li := EnoughVotes(signers + {a})];
              return NewLedgerInfoWithSignatures(OrderCert(li, signers + {a}));
            case TooLittle(p) =>
              return VoteAdded(p);
            case UnknownAuthor =>
              return ErrorAddingVote;
          }
      }
    }

    /** Entries above the highest ordered round stay as they are, all others go. */
    method GarbageCollect(highestOrderedRound: nat)
      modifies this
      ensures votes == Collect(old(votes), highestOrderedRound)
      ensures forall li: LedgerInfo :: li.round > highestOrderedRound ==>
                (li in votes <==> li in old(votes)) && StatusOf(votes, li) == StatusOf(old(votes), li)
      ensures forall li :: li in votes ==> li.round > highestOrderedRound
    {
      votes := map li | li in votes && li.round > highestOrderedRound :: votes[li];
    }

    method HasEnoughOrderVotes(li: LedgerInfo) returns (r: bool)
      ensures r == HasEnough(votes, li)
    {
      r := li in votes && votes[li].EnoughVotes?;
    }
  }

  // ---------------------------------------------------------------- the round manager's use of it

  /** Pending order votes, the block store's highest ordered round, and the certificates
      handed to `new_ordered_cert` so far. */
  datatype State = State(votes: Votes, highestOrderedRound: nat, delivered: seq<OrderCert>)

  /** An order vote arrives; the block store orders up to some round; a new round starts. */
  datatype Event = OrderVoteMsg(info: LedgerInfo, author: Author) | Order(round: nat) | NewRound

  ghost function ProcessOrderVote(v: ValidatorVerifier, s: State, li: LedgerInfo, a: Author): State {
    if HasEnough(s.votes, li) || li.round <= s.highestOrderedRound then s else
      var (votes, r) := Insert(v, s.votes, li, a);
      s.(votes := votes,
         delivered := if r.NewLedgerInfoWithSignatures? then s.delivered + [r.cert] else s.delivered)
  }

  ghost function Step(v: ValidatorVerifier, s: State, ev: Event): State {
    match ev
    case OrderVoteMsg(li, a) => ProcessOrderVote(v, s, li, a)
    case Order(r) => if r > s.highestOrderedRound then s.(highestOrderedRound := r) else s
    case NewRound => s.(votes := Collect(s.votes, s.highestOrderedRound))
  }

  ghost function Run(v: ValidatorVerifier, events: seq<Event>): State {
    if events == [] then State(map[], 0, [])
    else Step(v, Run(v, events[..|events| - 1]), events[|events| - 1])
  }

  /** The order-vote handlers of the round manager. */
  class OrderVoteHandler {
    const pending: Aggregator
    var highestOrderedRound: nat
    var delivered: seq<OrderCert>

    ghost function Abs(): State
      reads this, pending
    {
      State(pending.votes, highestOrderedRound, delivered)
    }

    constructor ()
      ensures Abs() == State(map[], 0, []) && fresh(pending)
    {
      pending := new Aggregator();
      highestOrderedRound, delivered := 0, [];
    }

    method ProcessOrderVoteMsg(v: ValidatorVerifier, li: LedgerInfo, a: Author)
      modifies this, pending
      ensures Abs() == ProcessOrderVote(v, old(Abs()), li, a)
    {
      var enough := pending.HasEnoughOrderVotes(li);
      if enough {
        return;
      }
      if li.round > highestOrderedRound {
        var r := pending.InsertOrderVote(v, li, a);
        if r.NewLedgerInfoWithSignatures? {
          delivered := delivered + [r.cert];
        }
      }
    }

    method ProcessNewRound()
      modifies pending
      ensures Abs() == old(Abs()).(votes := Collect(old(pending.votes), highestOrderedRound))
    {
      pending.GarbageCollect(highestOrderedRound);
    }
  }

  // ---------------------------------------------------------------- what every event keeps

  ghost function Senders(events: seq<Event>, li: LedgerInfo): set<Author> {
    set ev | ev in events && ev.OrderVoteMsg? && ev.info == li :: ev.author
  }

  /** Stored signers are known validators; a ledger info is marked complete exactly when they
      hold a quorum; what was delivered is still marked complete or no longer above the
      highest ordered round; and no ledger info was delivered twice. */
  ghost predicate Inv(v: ValidatorVerifier, s: State) {
    && (forall li :: li in s.votes ==> s.votes[li].signers <= v.powers.Keys)
    && (forall li :: HasEnough(s.votes, li) ==> IsQuorum(v, s.votes[li].signers))
    && (forall i :: 0 <= i < |s.delivered| ==> IsQuorum(v, s.delivered[i].signers))
    && (forall i :: 0 <= i < |s.delivered| ==>
          HasEnough(s.votes, s.delivered[i].info) || s.delivered[i].info.round <= s.highestOrderedRound)
    && (forall i, j :: 0 <= i < j < |s.delivered| ==> s.delivered[i].info != s.delivered[j].info)
  }

  lemma InvKept(v: ValidatorVerifier, s: State, ev: Event)
    requires Inv(v, s)
    ensures Inv(v, Step(v, s, ev))
  {
    if ev.OrderVoteMsg? {
      var t := Step(v, s, ev);
      assert forall i :: 0 <= i < |s.delivered| && s.delivered[i].info == ev.info ==> t == s;
    }
  }

  lemma {:induction false} InvHolds(v: ValidatorVerifier, events: seq<Event>)
    ensures Inv(v, Run(v, events))
  {
    if events != [] {
      InvHolds(v, events[..|events| - 1]);
      InvKept(v, Run(v, events[..|events| - 1]), events[|events| - 1]);
    }
  }

  /** Over every run, each ledger info's ordered certificate is formed and handed on at most once. */
  lemma DeliveredAtMostOnce(v: ValidatorVerifier, events: seq<Event>, i: nat, j: nat)
    requires var s := Run(v, events);
             i < |s.delivered| && j < |s.delivered| && s.delivered[i].info == s.delivered[j].info
    ensures i == j
  {
    InvHolds(v, events);
  }

  /** The "could not be added" answer never occurs: every stored signer was checked on arrival. */
  lemma NeverErrorAddingVote(v: ValidatorVerifier, events: seq<Event>, li: LedgerInfo, a: Author)
    ensures Insert(v, Run(v, events).votes, li, a).1 != ErrorAddingVote
  {
    InvHolds(v, events);
  }

  ghost predicate Sourced(events: seq<Event>, s: State) {
    && (forall li :: li in s.votes ==> s.votes[li].signers <= Senders(events, li))
    && (forall c :: c in s.delivered ==> c.signers <= Senders(events, c.info))
  }

  /** Every signer of a stored or delivered certificate sent an order vote for that ledger info. */
  lemma {:induction false} SignersSentVotes(v: ValidatorVerifier, events: seq<Event>)
    ensures Sourced(events, Run(v, events))
  {
    if events != [] {
      var before, ev := events[..|events| - 1], events[|events| - 1];
      SignersSentVotes(v, before);
      assert forall li :: Senders(before, li) <= Senders(events, li);
      assert ev.OrderVoteMsg? ==> ev.author in Senders(events, ev.info);
      assert forall li :: li in Run(v, before).votes ==> Run(v, before).votes[li].signers <= Senders(before, li);
    }
  }

  /** Conflicting certificates expose who double-signed: if two ledger infos get certificates,
      the validators who sent order votes for both hold at least `2 * quorum - total`. */
  lemma ConflictingCertsShareSigners(v: ValidatorVerifier, events: seq<Event>, c: OrderCert, d: OrderCert)
    requires Valid(v) && c in Run(v, events).delivered && d in Run(v, events).delivered
    ensures 2 * v.quorum <= Power(v, c.signers * d.signers) + v.total
    ensures c.signers * d.signers <= Senders(events, c.info) * Senders(events, d.info) * v.powers.Keys
  {
    InvHolds(v, events);
    SignersSentVotes(v, events);
    var s := Run(v, events);
    var i :| 0 <= i < |s.delivered| && s.delivered[i] == c;
    var j :| 0 <= j < |s.delivered| && s.delivered[j] == d;
    QuorumOverlap(v, c.signers, d.signers);
  }

  /** The vote that makes a quorum is never swallowed: a live ledger info whose stored signers
      with the newcomer hold a quorum is delivered by that very message. */
  lemma QuorumDelivers(v: ValidatorVerifier, events: seq<Event>, li: LedgerInfo, a: Author)
    requires var s := Run(v, events);
             && li.round > s.highestOrderedRound && !HasEnough(s.votes, li)
             && IsQuorum(v, StatusOf(s.votes, li).signers + {a})
    ensures var s, t := Run(v, events), Run(v, events + [OrderVoteMsg(li, a)]);
            t.delivered == s.delivered + [OrderCert(li, StatusOf(s.votes, li).signers + {a})]
  {
    assert (events + [OrderVoteMsg(li, a)])[..|events|] == events;
  }

  /** Above the highest ordered round, complete means delivered. */
  ghost predicate EnoughIsDelivered(s: State) {
    forall li: LedgerInfo :: li.round > s.highestOrderedRound ==>
      (HasEnough(s.votes, li) <==> exists c :: c in s.delivered && c.info == li)
  }

  /** The early return on a complete ledger info drops exactly the votes for one that was already
      delivered, as long as it is above the highest ordered round. */
  lemma {:induction false} CompleteIffDelivered(v: ValidatorVerifier, events: seq<Event>)
    ensures EnoughIsDelivered(Run(v, events))
  {
    if events != [] {
      CompleteIffDelivered(v, events[..|events| - 1]);
      CompleteStep(v, Run(v, events[..|events| - 1]), events[|events| - 1]);
    }
  }

  lemma CompleteStep(v: ValidatorVerifier, s: State, ev: Event)
    requires EnoughIsDelivered(s)
    ensures EnoughIsDelivered(Step(v, s, ev))
  {
    var t := Step(v, s, ev);
    forall li: LedgerInfo | li.round > t.highestOrderedRound
      ensures HasEnough(t.votes, li) <==> exists c :: c in t.delivered && c.info == li
    {
      assert HasEnough(s.votes, li) <==> exists c :: c in s.delivered && c.info == li;
      if t.delivered != s.delivered {
        var added := t.delivered[|s.delivered|];
        assert t.delivered == s.delivered + [added];
        assert forall c :: c in t.delivered <==> c in s.delivered || c == added;
      }
    }
  }

  // ---------------------------------------------------------------- no vote is lost

  ghost function KnownSenders(v: ValidatorVerifier, events: seq<Event>, li: LedgerInfo): set<Author> {
    Senders(events, li) * v.powers.Keys
  }

  ghost predicate HaveQuorum(v: ValidatorVerifier, senders: set<Author>) {
    senders != {} && Power(v, senders) >= v.quorum
  }

  /** An entry is complete when the known senders of its ledger info hold a quorum; until then its
      signers are exactly those senders. */
  ghost predicate Complete(v: ValidatorVerifier, s: State, li: LedgerInfo, senders: set<Author>) {
    if HasEnough(s.votes, li) then HaveQuorum(v, senders)
    else StatusOf(s.votes, li).signers == senders && !HaveQuorum(v, senders)
  }

  lemma SendersStep(events: seq<Event>, ev: Event, li: LedgerInfo)
    ensures Senders(events + [ev], li) ==
            Senders(events, li) + (if ev.OrderVoteMsg? && ev.info == li then {ev.author} else {})
  {
  }

  /** What inserting an order vote does to an entry that is not complete: every known vote is kept. */
  lemma InsertKeeps(v: ValidatorVerifier, m: Votes, li: LedgerInfo, a: Author)
    requires !HasEnough(m, li) && StatusOf(m, li).signers <= v.powers.Keys
    ensures var (m', r) := Insert(v, m, li, a);
            var signers := StatusOf(m, li).signers + ({a} * v.powers.Keys);
            && StatusOf(m', li).signers == signers
            && (forall other :: other != li ==> StatusOf(m', other) == StatusOf(m, other))
            && (r.UnknownVoter? <==> a !in v.powers)
            && (HasEnough(m', li) <==> a in v.powers && Power(v, signers) >= v.quorum)
            && (r.NewLedgerInfoWithSignatures? <==> HasEnough(m', li))
            && (r.NewLedgerInfoWithSignatures? ==> r.cert == OrderCert(li, signers))
            && (r.VoteAdded? ==> r.power == Power(v, signers))
            && !r.ErrorAddingVote?
  {
    assert a !in v.powers ==> {a} * v.powers.Keys == {};
    assert a in v.powers ==> {a} * v.powers.Keys == {a};
    assert StatusOf(m, li).signers + {} == StatusOf(m, li).signers;
  }

  /** A vote for a complete entry is answered with its certificate and changes nothing. */
  lemma InsertRepeats(v: ValidatorVerifier, m: Votes, li: LedgerInfo, a: Author)
    requires HasEnough(m, li)
    ensures Insert(v, m, li, a) == (m, NewLedgerInfoWithSignatures(OrderCert(li, m[li].signers)))
  {
  }

  /** Over every run, above the highest ordered round: no order vote of a known validator is lost, and an
      entry is complete if and only if the known senders hold a quorum. */
  lemma {:induction false} StoredAreSenders(v: ValidatorVerifier, events: seq<Event>, li: LedgerInfo)
    requires li.round > Run(v, events).highestOrderedRound
    ensures Complete(v, Run(v, events), li, KnownSenders(v, events, li))
  {
    if events != [] {
      var before, ev := events[..|events| - 1], events[|events| - 1];
      StoredAreSenders(v, before, li);
      assert events == before + [ev];
      SendersStep(before, ev, li);
      var s := Run(v, before);
      if ev.OrderVoteMsg? && ev.info == li {
        VoteArrives(v, s, li, ev.author, KnownSenders(v, before, li));
        assert KnownSenders(v, events, li) == KnownSenders(v, before, li) + ({ev.author} * v.powers.Keys);
      } else {
        OthersUntouched(v, s, ev, li);
        assert KnownSenders(v, events, li) == KnownSenders(v, before, li);
      }
    }
  }

  lemma VoteArrives(v: ValidatorVerifier, s: State, li: LedgerInfo, a: Author, senders: set<Author>)
    requires li.round > s.highestOrderedRound && Complete(v, s, li, senders) && senders <= v.powers.Keys
    ensures Complete(v, ProcessOrderVote(v, s, li, a), li, senders + ({a} * v.powers.Keys))
  {
    var more := senders + ({a} * v.powers.Keys);
    if HasEnough(s.votes, li) {
      PowerMonotone(v, senders, more);
    } else {
      InsertKeeps(v, s.votes, li, a);
      assert a !in v.powers ==> more == senders;
    }
  }

  lemma OthersUntouched(v: ValidatorVerifier, s: State, ev: Event, li: LedgerInfo)
    requires !(ev.OrderVoteMsg? && ev.info == li) && li.round > Step(v, s, ev).highestOrderedRound
    ensures HasEnough(Step(v, s, ev).votes, li) == HasEnough(s.votes, li)
    ensures StatusOf(Step(v, s, ev).votes, li) == StatusOf(s.votes, li)
  {
  }

  /** So above the highest ordered round a ledger info was delivered if and only if the known validators
      that sent order votes for it hold a quorum. */
  lemma DeliveredIffQuorumSent(v: ValidatorVerifier, events: seq<Event>, li: LedgerInfo)
    requires li.round > Run(v, events).highestOrderedRound
    ensures (exists c :: c in Run(v, events).delivered && c.info == li) <==> HaveQuorum(v, KnownSenders(v, events, li))
  {
    StoredAreSenders(v, events, li);
    CompleteIffDelivered(v, events);
  }

  /** A vote that does not complete its entry is answered with the exact power of the known senders. */
  lemma ReportedPowerIsExact(v: ValidatorVerifier, events: seq<Event>, li: LedgerInfo, a: Author)
    requires li.round > Run(v, events).highestOrderedRound && !HasEnough(Run(v, events).votes, li)
    ensures var r := Insert(v, Run(v, events).votes, li, a).1;
            var senders := KnownSenders(v, events + [OrderVoteMsg(li, a)], li);
            && (r == VoteAdded(Power(v, senders)) <==> a in v.powers && Power(v, senders) < v.quorum)
            && (r == NewLedgerInfoWithSignatures(OrderCert(li, senders)) <==>
                a in v.powers && Power(v, senders) >= v.quorum)
            && (r == UnknownVoter <==> a !in v.powers)
  {
    StoredAreSenders(v, events, li);
    SendersStep(events, OrderVoteMsg(li, a), li);
    InsertKeeps(v, Run(v, events).votes, li, a);
    var senders := KnownSenders(v, events + [OrderVoteMsg(li, a)], li);
    assert senders == KnownSenders(v, events, li) + ({a} * v.powers.Keys);
  }

  function WithoutCollection(events: seq<Event>): seq<Event> {
    if events == [] then []
    else
      var before, ev := WithoutCollection(events[..|events| - 1]), events[|events| - 1];
      if ev.NewRound? then before else before + [ev]
  }

  /** Same deliveries, same highest ordered round, and the same entries above it. */
  ghost predicate SameAbove(s: State, t: State) {
    && s.highestOrderedRound == t.highestOrderedRound && s.delivered == t.delivered
    && forall li: LedgerInfo :: li.round > s.highestOrderedRound ==> StatusOf(s.votes, li) == StatusOf(t.votes, li)
  }

  /** Garbage collection is invisible: dropping every collection from a run changes neither what is
      delivered nor any vote that still counts. */
  lemma {:induction false} CollectionIsInvisible(v: ValidatorVerifier, events: seq<Event>)
    ensures SameAbove(Run(v, events), Run(v, WithoutCollection(events)))
  {
    if events != [] {
      var before, ev := events[..|events| - 1], events[|events| - 1];
      CollectionIsInvisible(v, before);
      if !ev.NewRound? {
        var without := WithoutCollection(before);
        assert (without + [ev])[..|without|] == without;
        SameAboveStep(v, Run(v, before), Run(v, without), ev);
      }
    }
  }

  lemma SameAboveStep(v: ValidatorVerifier, s: State, t: State, ev: Event)
    requires SameAbove(s, t) && !ev.NewRound?
    ensures SameAbove(Step(v, s, ev), Step(v, t, ev))
  {
    if ev.OrderVoteMsg? && ev.info.round > s.highestOrderedRound {
      assert StatusOf(s.votes, ev.info) == StatusOf(t.votes, ev.info);
    }
  }
}
