/** Voting power of a validator set: what `check_voting_power` answers for a set of
    authors, and the arithmetic of overlapping quorums every certificate proof rests on. */
module Validators {
  type Author = nat

  /** The validators of one epoch. `total` and `quorum` are stored, as the verifier stores them. */
  datatype ValidatorVerifier = ValidatorVerifier(powers: map<Author, nat>, total: nat, quorum: nat)

  /** Outcome of `check_voting_power(authors, true)`. */
  datatype PowerCheck = Enough(power: nat) | TooLittle(power: nat) | UnknownAuthor

  ghost predicate Valid(v: ValidatorVerifier) {
    v.total == Power(v, v.powers.Keys) && v.quorum <= v.total
  }

  function PowerOf(v: ValidatorVerifier, a: Author): nat {
    if a in v.powers then v.powers[a] else 0
  }

  ghost function Power(v: ValidatorVerifier, s: set<Author>): nat {
    if s == {} then 0 else
      var a :| a in s;
      PowerOf(v, a) + Power(v, s - {a})
  }

  ghost function Check(v: ValidatorVerifier, authors: set<Author>): PowerCheck {
    if !(authors <= v.powers.Keys) then UnknownAuthor
    else if Power(v, authors) >= v.quorum then Enough(Power(v, authors))
    else TooLittle(Power(v, authors))
  }

  /** A set of known validators holding quorum power. */
  ghost predicate IsQuorum(v: ValidatorVerifier, s: set<Author>) {
    s <= v.powers.Keys && Power(v, s) >= v.quorum
  }

  lemma {:induction false} PowerRemove(v: ValidatorVerifier, s: set<Author>, a: Author)
    requires a in s
    ensures Power(v, s) == PowerOf(v, a) + Power(v, s - {a})
    decreases s
  {
    var b :| b in s && Power(v, s) == PowerOf(v, b) + Power(v, s - {b});
    if b != a {
      PowerRemove(v, s - {b}, a);
      PowerRemove(v, s - {a}, b);
      assert s - {a} - {b} == s - {b} - {a};
    }
  }

  lemma {:induction false} PowerUnion(v: ValidatorVerifier, s: set<Author>, t: set<Author>)
    ensures Power(v, s + t) + Power(v, s * t) == Power(v, s) + Power(v, t)
    decreases t
  {
    if t == {} {
      assert s + t == s && s * t == {};
    } else {
      var a :| a in t;
      var t' := t - {a};
      PowerUnion(v, s, t');
      PowerRemove(v, t, a);
      PowerRemove(v, s + t, a);
      if a in s {
        PowerRemove(v, s * t, a);
        PowerRemove(v, s + t', a);
        assert s + t == s + t' && s * t - {a} == s * t';
      } else {
        assert s + t - {a} == s + t' && s * t == s * t';
      }
    }
  }

  lemma PowerMonotone(v: ValidatorVerifier, s: set<Author>, t: set<Author>)
    requires s <= t
    ensures Power(v, s) <= Power(v, t)
  {
    PowerUnion(v, s, t - s);
    assert s + (t - s) == t && s * (t - s) == {};
  }

  /** Two sets of validators share at least the power by which they exceed the total. */
  lemma QuorumOverlap(v: ValidatorVerifier, s: set<Author>, t: set<Author>)
    requires Valid(v) && s <= v.powers.Keys && t <= v.powers.Keys
    ensures Power(v, s * t) + v.total >= Power(v, s) + Power(v, t)
  {
    PowerUnion(v, s, t);
    PowerMonotone(v, s + t, v.powers.Keys);
  }

  /** `check_voting_power` as the verifier runs it: sum author by author, stop at an unknown one. */
  method CheckVotingPower(v: ValidatorVerifier, authors: set<Author>) returns (r: PowerCheck)
    ensures r == Check(v, authors)
  {
    var left := authors;
    var sum := 0;
    while left != {}
      invariant left <= authors && authors - left <= v.powers.Keys
      invariant sum + Power(v, left) == Power(v, authors)
    {
      var a :| a in left;
      if a !in v.powers {
        return UnknownAuthor;
      }
      PowerRemove(v, left, a);
      sum := sum + v.powers[a];
      left := left - {a};
    }
    r := if sum >= v.quorum then Enough(sum) else TooLittle(sum);
  }
}
