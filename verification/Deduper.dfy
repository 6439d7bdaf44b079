/** The two-phase transaction deduper: hash only the transactions that share a (sender,
    sequence number) pair with another, then filter on (hash, authenticator). It must keep
    exactly what the plain "first occurrence of each key" filter keeps. */
module Deduper {

  datatype Txn = Txn(sender: nat, sequenceNumber: nat, hash: nat, authenticator: nat, body: nat)

  function Pair(t: Txn): (nat, nat) { (t.sender, t.sequenceNumber) }

  function Key(t: Txn): (nat, nat) { (t.hash, t.authenticator) }

  predicate SamePair(s: Txn, t: Txn) { s.sender == t.sender && s.sequenceNumber == t.sequenceNumber }

  predicate SameKey(s: Txn, t: Txn) { s.hash == t.hash && s.authenticator == t.authenticator }

  /** The hash covers sender and sequence number, so equal keys have equal pairs. */
  predicate KeysFixPairs(txns: seq<Txn>) {
    forall s, t :: s in txns && t in txns && SameKey(s, t) ==> SamePair(s, t)
  }

  /** Some other index below `n` holds the pair of index `i`. */
  predicate SharesPair(txns: seq<Txn>, n: nat, i: nat)
    requires n <= |txns| && i < |txns|
  {
    exists j :: 0 <= j < n && j != i && SamePair(txns[j], txns[i])
  }

  predicate SeenKey(txns: seq<Txn>, i: nat)
    requires i < |txns|
  {
    exists j :: 0 <= j < i && SameKey(txns[j], txns[i])
  }

  /** The naive filter. */
  function KeepFirst(txns: seq<Txn>): seq<Txn> {
    if txns == [] then []
    else
      var last := |txns| - 1;
      KeepFirst(txns[..last]) + if SeenKey(txns, last) then [] else [txns[last]]
  }

  /** `dedup`. With keys fixing pairs, the fast filter is the naive one. */
  method Dedup(txns: seq<Txn>) returns (filtered: seq<Txn>)
    ensures KeysFixPairs(txns) ==> filtered == KeepFirst(txns)
    ensures (forall i :: 0 <= i < |txns| ==> !SharesPair(txns, |txns|, i)) ==> filtered == txns
  {
    var possible, any := MarkPossibleDuplicates(txns);
    if !any {
      if KeysFixPairs(txns) {
        DistinctPairsKept(txns);
      }
      return txns;
    }
    filtered := FilterDuplicates(txns, possible);
  }

  /** Phase two: among the marked indices, keep the first of each key. */
  method FilterDuplicates(txns: seq<Txn>, possible: seq<bool>) returns (filtered: seq<Txn>)
    requires Marked(txns, possible, |txns|)
    ensures KeysFixPairs(txns) ==> filtered == KeepFirst(txns)
  {
    ghost var fixed := KeysFixPairs(txns);
    var seenHashes: set<(nat, nat)> := {};
    filtered := [];
    for i := 0 to |txns|
      invariant SeenAre(txns, possible, i, seenHashes)
      invariant fixed ==> filtered == KeepFirst(txns[..i])
    {
      KeepFirstStep(txns, i);
      SeenAreStep(txns, possible, i, seenHashes);
      if fixed {
        FilterDecides(txns, possible, i, seenHashes);
      }
      if !possible[i] {
        filtered := filtered + [txns[i]];
      } else if Key(txns[i]) !in seenHashes {
        seenHashes := seenHashes + {Key(txns[i])};
        filtered := filtered + [txns[i]];
      } else {
        assert seenHashes + {Key(txns[i])} == seenHashes;
      }
    }
    assert txns[..|txns|] == txns;
  }

  /** `seen` holds the keys of the marked indices below `n`. */
  ghost predicate SeenAre(txns: seq<Txn>, possible: seq<bool>, n: nat, seen: set<(nat, nat)>)
    requires n <= |txns| == |possible|
  {
    forall k :: k in seen <==> exists j :: 0 <= j < n && possible[j] && Key(txns[j]) == k
  }

  lemma KeepFirstStep(txns: seq<Txn>, i: nat)
    requires i < |txns|
    ensures KeepFirst(txns[..i + 1]) == KeepFirst(txns[..i]) + if SeenKey(txns, i) then [] else [txns[i]]
  {
    assert txns[..i + 1][..i] == txns[..i];
    SeenKeyPrefix(txns, i + 1, i);
  }

  lemma SeenAreStep(txns: seq<Txn>, possible: seq<bool>, i: nat, seen: set<(nat, nat)>)
    requires i < |txns| == |possible| && SeenAre(txns, possible, i, seen)
    ensures SeenAre(txns, possible, i + 1, if possible[i] then seen + {Key(txns[i])} else seen)
  {
  }

  /** Phase two's test drops an index exactly when an earlier one has its key. */
  lemma FilterDecides(txns: seq<Txn>, possible: seq<bool>, i: nat, seen: set<(nat, nat)>)
    requires i < |txns| == |possible| && KeysFixPairs(txns) && SeenAre(txns, possible, i, seen)
    requires Marked(txns, possible, |txns|)
    ensures possible[i] && Key(txns[i]) in seen <==> SeenKey(txns, i)
  {
    if SeenKey(txns, i) {
      var j :| 0 <= j < i && SameKey(txns[j], txns[i]);
      assert txns[j] in txns && txns[i] in txns;
      assert SamePair(txns[j], txns[i]) && SamePair(txns[i], txns[j]);
      assert SharesPair(txns, |txns|, i) && SharesPair(txns, |txns|, j);
    }
    if Key(txns[i]) in seen {
      var j :| 0 <= j < i && possible[j] && Key(txns[j]) == Key(txns[i]);
      assert SameKey(txns[j], txns[i]);
    }
  }

  /** Phase one: an index is marked exactly when another index shares its pair. */
  method MarkPossibleDuplicates(txns: seq<Txn>) returns (possible: seq<bool>, any: bool)
    ensures |possible| == |txns|
    ensures forall i :: 0 <= i < |txns| ==> (possible[i] <==> SharesPair(txns, |txns|, i))
    ensures any <==> exists i :: 0 <= i < |txns| && possible[i]
  {
    var seen: map<(nat, nat), nat> := map[];
    any := false;
    var marks := new bool[|txns|](_ => false);
    for i := 0 to |txns|
      invariant Indexed(txns, seen, i) && Marked(txns, marks[..], i)
      invariant any <==> exists j :: 0 <= j < i && marks[..][j]
    {
      var pair := Pair(txns[i]);
      ghost var before := marks[..];
      if pair !in seen {
        MarkNew(txns, before, seen, i);
        seen := seen[pair := i];
      } else {
        any := true;
        MarkRepeat(txns, before, seen, i);
        marks[seen[pair]] := true;
        marks[i] := true;
        assert marks[..] == before[seen[pair] := true][i := true];
        assert marks[..][i];
      }
    }
    possible := marks[..];
  }

  /** `seen` maps each pair among the first `n` to its first index. */
  ghost predicate Indexed(txns: seq<Txn>, seen: map<(nat, nat), nat>, n: nat)
    requires n <= |txns|
  {
    && (forall p :: p in seen ==> seen[p] < n && Pair(txns[seen[p]]) == p)
    && (forall j :: 0 <= j < n ==> Pair(txns[j]) in seen && seen[Pair(txns[j])] <= j)
  }

  ghost predicate Marked(txns: seq<Txn>, marks: seq<bool>, n: nat)
    requires n <= |txns|
  {
    && |marks| == |txns|
    && (forall j :: 0 <= j < n ==> (marks[j] <==> SharesPair(txns, n, j)))
    && (forall j :: n <= j < |txns| ==> !marks[j])
  }

  lemma MarkNew(txns: seq<Txn>, marks: seq<bool>, seen: map<(nat, nat), nat>, i: nat)
    requires i < |txns| && Indexed(txns, seen, i) && Marked(txns, marks, i) && Pair(txns[i]) !in seen
    ensures Marked(txns, marks, i + 1)
  {
    forall j | 0 <= j <= i
      ensures marks[j] <==> SharesPair(txns, i + 1, j)
    {
      if j < i && SharesPair(txns, i, j) {
        assert SharesPair(txns, i + 1, j);
      }
    }
  }

  lemma MarkRepeat(txns: seq<Txn>, marks: seq<bool>, seen: map<(nat, nat), nat>, i: nat)
    requires i < |txns| && Indexed(txns, seen, i) && Marked(txns, marks, i) && Pair(txns[i]) in seen
    ensures Marked(txns, marks[seen[Pair(txns[i])] := true][i := true], i + 1)
  {
    var first := seen[Pair(txns[i])];
    assert SharesPair(txns, i + 1, first) && SharesPair(txns, i + 1, i);
    forall j | 0 <= j < i && j != first
      ensures marks[j] <==> SharesPair(txns, i + 1, j)
    {
      if Pair(txns[j]) == Pair(txns[i]) {
        assert Pair(txns[first]) == Pair(txns[j]);
        assert SharesPair(txns, i, j);
      }
      if SharesPair(txns, i, j) {
        assert SharesPair(txns, i + 1, j);
      }
    }
  }

  lemma {:induction false} DistinctPairsKept(txns: seq<Txn>)
    requires KeysFixPairs(txns) && forall i :: 0 <= i < |txns| ==> !SharesPair(txns, |txns|, i)
    ensures KeepFirst(txns) == txns
  {
    forall i | 0 <= i < |txns|
      ensures !SeenKey(txns, i)
    {
      assert !SharesPair(txns, |txns|, i);
    }
    DistinctKeysKept(txns);
  }

  /** Later transactions do not matter. */
  lemma SeenKeyPrefix(txns: seq<Txn>, n: nat, i: nat)
    requires i < n <= |txns|
    ensures SeenKey(txns[..n], i) == SeenKey(txns, i)
  {
    assert forall j :: 0 <= j <= i ==> txns[..n][j] == txns[j];
    if SeenKey(txns, i) {
      var j :| 0 <= j < i && SameKey(txns[j], txns[i]);
      assert SameKey(txns[..n][j], txns[..n][i]);
    }
  }

  lemma {:induction false} DistinctKeysKept(txns: seq<Txn>)
    requires forall i :: 0 <= i < |txns| ==> !SeenKey(txns, i)
    ensures KeepFirst(txns) == txns
  {
    if txns != [] {
      var last := |txns| - 1;
      forall i | 0 <= i < last ensures !SeenKey(txns[..last], i) {
        SeenKeyPrefix(txns, last, i);
      }
      DistinctKeysKept(txns[..last]);
    }
  }

  // ---------------------------------------------------------------- what the naive filter keeps

  /** The indices kept, in order. */
  function Firsts(txns: seq<Txn>): seq<nat> {
    if txns == [] then []
    else
      var last := |txns| - 1;
      Firsts(txns[..last]) + if SeenKey(txns, last) then [] else [last]
  }

  /** The result is the input restricted, in order, to the indices whose key occurs at no
      earlier index. */
  lemma {:induction false} KeepsExactlyFirsts(txns: seq<Txn>)
    ensures var kept, at := KeepFirst(txns), Firsts(txns);
            && |kept| == |at|
            && (forall k :: 0 <= k < |at| ==> at[k] < |txns| && kept[k] == txns[at[k]])
            && (forall k, l :: 0 <= k < l < |at| ==> at[k] < at[l])
    ensures forall i: nat :: i in Firsts(txns) <==> i < |txns| && !SeenKey(txns, i)
  {
    if txns != [] {
      var last := |txns| - 1;
      var before := txns[..last];
      KeepsExactlyFirsts(before);
      forall i | 0 <= i < last
        ensures SeenKey(before, i) == SeenKey(txns, i)
      {
        SeenKeyPrefix(txns, last, i);
      }
    }
  }

  /** Keys in the result are distinct, and every key of the input is still there. */
  lemma KeysDistinctAndCovered(txns: seq<Txn>)
    ensures forall k, l :: 0 <= k < l < |KeepFirst(txns)| ==> Key(KeepFirst(txns)[k]) != Key(KeepFirst(txns)[l])
    ensures forall i :: 0 <= i < |txns| ==> exists t :: t in KeepFirst(txns) && Key(t) == Key(txns[i])
  {
    var kept, at := KeepFirst(txns), Firsts(txns);
    KeepsExactlyFirsts(txns);
    forall k, l | 0 <= k < l < |kept|
      ensures Key(kept[k]) != Key(kept[l])
    {
      assert at[l] in at;
    }
    forall i | 0 <= i < |txns|
      ensures exists t :: t in kept && Key(t) == Key(txns[i])
    {
      FirstOfKeyKept(txns, i);
    }
  }

  lemma {:induction false} FirstOfKeyKept(txns: seq<Txn>, i: nat)
    requires i < |txns|
    ensures exists t :: t in KeepFirst(txns) && Key(t) == Key(txns[i])
  {
    KeepsExactlyFirsts(txns);
    if SeenKey(txns, i) {
      var j :| 0 <= j < i && Key(txns[j]) == Key(txns[i]);
      FirstOfKeyKept(txns, j);
    } else {
      var k :| 0 <= k < |Firsts(txns)| && Firsts(txns)[k] == i;
      assert KeepFirst(txns)[k] == txns[i];
      assert txns[i] in KeepFirst(txns);
    }
  }

  /** Deduplicating again changes nothing. */
  lemma Idempotent(txns: seq<Txn>)
    ensures KeepFirst(KeepFirst(txns)) == KeepFirst(txns)
  {
    KeysDistinctAndCovered(txns);
    DistinctKeysKept(KeepFirst(txns));
  }
}
