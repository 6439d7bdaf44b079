/** Pulling transactions from the cached best-transactions iterator: resumable across pulls,
    bounded by a count and a byte budget, with a per-sender nonce anchor. */
module Mempool {
  import opened Common

  type Address = nat
  type Hash = nat
  type Bytes = seq<nat>
  type Tx = nat

  datatype PoolTxn = PoolTxn(sender: Address, nonce: nat, tx: Tx)

  /** Encoding, decoding with signer recovery, and hashing, which are not part of this model. */
  datatype Codec = Codec(encode: Tx -> Bytes, decode: Bytes -> Option<(Address, Tx)>, hash: Bytes -> Hash)

  datatype CacheEntry = CacheEntry(insertedAt: nat, txn: PoolTxn)
  type TxnCache = map<Hash, CacheEntry>

  type Nonces = map<Address, nat>

  /** What happens to an item the iterator yields. */
  datatype Verdict = Skipped | Rejected | Emitted
  datatype Entry = Entry(txn: PoolTxn, verdict: Verdict)

  function TxnHash(codec: Codec, t: PoolTxn): Hash { codec.hash(codec.encode(t.tx)) }

  predicate Consecutive(nonces: Nonces, t: PoolTxn) {
    t.sender in nonces ==> t.nonce == nonces[t.sender] + 1
  }

  function Judge(accept: PoolTxn -> bool, nonces: Nonces, t: PoolTxn): Verdict {
    if !Consecutive(nonces, t) then Skipped else if accept(t) then Emitted else Rejected
  }

  /** Every consecutive transaction anchors its sender's nonce, whether the filter keeps it or not. */
  function Anchor(nonces: Nonces, t: PoolTxn): Nonces {
    if Consecutive(nonces, t) then nonces[t.sender := t.nonce] else nonces
  }

  /** A pull under way: what is left of the iterator, the anchors, the verdicts so far, the
      transactions to return and their bytes. */
  datatype Pulling = Pulling(rest: seq<PoolTxn>, nonces: Nonces, log: seq<Entry>, out: seq<PoolTxn>, bytes: nat)

  function Begin(rest: seq<PoolTxn>, nonces: Nonces): Pulling { Pulling(rest, nonces, [], [], 0) }

  function Advance(codec: Codec, accept: PoolTxn -> bool, s: Pulling): Pulling
    requires s.rest != []
  {
    var t := s.rest[0];
    var verdict := Judge(accept, s.nonces, t);
    Pulling(s.rest[1..], Anchor(s.nonces, t), s.log + [Entry(t, verdict)],
            if verdict.Emitted? then s.out + [t] else s.out,
            if verdict.Emitted? then s.bytes + |codec.encode(t.tx)| else s.bytes)
  }

  /** One pull: the bounds are checked before the next item is pulled. */
  function Pull(codec: Codec, accept: PoolTxn -> bool, limit: nat, maxBytes: nat, s: Pulling): Pulling
    decreases s.rest
  {
    if |s.out| < limit && s.bytes < maxBytes && s.rest != []
    then Pull(codec, accept, limit, maxBytes, Advance(codec, accept, s))
    else s
  }

  function Output(log: seq<Entry>): seq<PoolTxn> {
    if log == [] then []
    else
      var last := |log| - 1;
      Output(log[..last]) + if log[last].verdict.Emitted? then [log[last].txn] else []
  }

  function TotalSize(codec: Codec, txns: seq<PoolTxn>): nat {
    if txns == [] then 0 else TotalSize(codec, txns[..|txns| - 1]) + |codec.encode(txns[|txns| - 1].tx)|
  }

  function CacheAll(codec: Codec, cache: TxnCache, txns: seq<PoolTxn>, now: nat): TxnCache {
    if txns == [] then cache
    else
      var last := |txns| - 1;
      CacheAll(codec, cache, txns[..last], now)[TxnHash(codec, txns[last]) := CacheEntry(now, txns[last])]
  }

  /** The mempool's pull side: the cached iterator with its nonce anchors, and the transaction cache. */
  class BestPuller {
    const codec: Codec
    var best: Option<seq<PoolTxn>>
    var lastNonces: Nonces
    var cache: TxnCache

    constructor (codec: Codec)
      ensures this.codec == codec && best == None && lastNonces == map[] && cache == map[]
    {
      this.codec := codec;
      best, lastNonces, cache := None, map[], map[];
    }

    /** `best_txns`. `expired` says whether the cached iterator outlived its TTL, `pending` what a
        new one would yield. An empty pull drops the iterator. */
    method BestTxns(accept: PoolTxn -> bool, limit: nat, maxBytes: nat, expired: bool, pending: seq<PoolTxn>, now: nat)
      returns (result: seq<PoolTxn>)
      modifies this
      ensures var renew := expired || old(best).None?;
              var start := if renew then Begin(pending, map[]) else Begin(old(best).value, old(lastNonces));
              var p := Pull(codec, accept, limit, maxBytes, start);
              && result == p.out
              && cache == CacheAll(codec, old(cache), result, now)
              && (if result == [] then best == None && lastNonces == map[]
                  else best == Some(p.rest) && lastNonces == p.nonces)
      ensures forall t :: t in result ==> accept(t) && TxnHash(codec, t) in cache
    {
      if expired || best.None? {
        best, lastNonces := Some(pending), map[];
      }
      var rest: seq<PoolTxn>, nonces: Nonces := best.value, lastNonces;
      ghost var start := Begin(rest, nonces);
      ghost var log: seq<Entry> := [];
      result := [];
      var totalBytes: nat := 0;
      while |result| < limit && totalBytes < maxBytes && rest != []
        invariant cache == CacheAll(codec, old(cache), result, now)
        invariant forall t :: t in result ==> accept(t)
        invariant Pull(codec, accept, limit, maxBytes, start) ==
                  Pull(codec, accept, limit, maxBytes, Pulling(rest, nonces, log, result, totalBytes))
        decreases rest
      {
        var t := rest[0];
        ghost var s := Pulling(rest, nonces, log, result, totalBytes);
        rest := rest[1..];
        log := log + [Entry(t, Judge(accept, nonces, t))];
        if t.sender in nonces && t.nonce != nonces[t.sender] + 1 {
          assert Pulling(rest, nonces, log, result, totalBytes) == Advance(codec, accept, s);
          continue;
        }
        nonces := nonces[t.sender := t.nonce];
        if !accept(t) {
          assert Pulling(rest, nonces, log, result, totalBytes) == Advance(codec, accept, s);
          continue;
        }
        totalBytes := totalBytes + |codec.encode(t.tx)|;
        cache := cache[TxnHash(codec, t) := CacheEntry(now, t)];
        CacheOne(codec, old(cache), result, t, now);
        result := result + [t];
        assert Pulling(rest, nonces, log, result, totalBytes) == Advance(codec, accept, s);
      }
      CachedExactly(codec, old(cache), result, now);
      best, lastNonces := Some(rest), nonces;
      if result == [] {
        best, lastNonces := None, map[];
      }
    }
  }

  lemma CacheOne(codec: Codec, cache: TxnCache, txns: seq<PoolTxn>, t: PoolTxn, now: nat)
    ensures CacheAll(codec, cache, txns + [t], now) ==
            CacheAll(codec, cache, txns, now)[TxnHash(codec, t) := CacheEntry(now, t)]
  {
    assert (txns + [t])[..|txns|] == txns;
  }

  /** Exactly the given transactions are added, under their own hashes and with the time. */
  lemma {:induction false} CachedExactly(codec: Codec, cache: TxnCache, txns: seq<PoolTxn>, now: nat)
    ensures var after := CacheAll(codec, cache, txns, now);
            && (forall t :: t in txns ==> TxnHash(codec, t) in after)
            && (forall h :: h in after ==>
                (h in cache && after[h] == cache[h]) || Stored(codec, txns, now, h, after[h]))
            && (forall h :: h in cache ==>
                  h in after && (after[h] == cache[h] || Stored(codec, txns, now, h, after[h])))
  {
    if txns != [] {
      CachedExactly(codec, cache, txns[..|txns| - 1], now);
      assert txns == txns[..|txns| - 1] + [txns[|txns| - 1]];
    }
  }

  ghost predicate Stored(codec: Codec, txns: seq<PoolTxn>, now: nat, h: Hash, entry: CacheEntry) {
    entry.insertedAt == now && entry.txn in txns && TxnHash(codec, entry.txn) == h
  }

  lemma {:induction false} OutputConcat(log: seq<Entry>, more: seq<Entry>)
    ensures Output(log + more) == Output(log) + Output(more)
    decreases more
  {
    if more == [] {
      assert log + more == log;
    } else {
      var last := |more| - 1;
      OutputConcat(log, more[..last]);
      assert (log + more)[..|log| + last] == log + more[..last];
    }
  }

  // ---------------------------------------------------------------- one pull

  /** The running totals say what the log says, and all but the last transaction fit the budget. */
  ghost predicate Tallied(codec: Codec, limit: nat, maxBytes: nat, s: Pulling) {
    && s.out == Output(s.log) && s.bytes == TotalSize(codec, s.out) && |s.out| <= limit
    && (s.out != [] ==> TotalSize(codec, s.out[..|s.out| - 1]) < maxBytes)
  }

  lemma AdvanceTallied(codec: Codec, accept: PoolTxn -> bool, limit: nat, maxBytes: nat, s: Pulling)
    requires Tallied(codec, limit, maxBytes, s) && |s.out| < limit && s.bytes < maxBytes && s.rest != []
    ensures Tallied(codec, limit, maxBytes, Advance(codec, accept, s))
  {
    var t := Advance(codec, accept, s);
    assert t.log[..|s.log|] == s.log;
    if t.out != s.out {
      assert t.out[..|s.out|] == s.out;
    }
  }

  /** A pull returns what its verdicts emitted, at most `limit` transactions, all but the last
      within the byte budget; and if it leaves items behind, one of the two bounds is used up. */
  lemma {:induction false} PullWithinBounds(codec: Codec, accept: PoolTxn -> bool, limit: nat, maxBytes: nat,
                                            s: Pulling)
    requires Tallied(codec, limit, maxBytes, s)
    ensures var p := Pull(codec, accept, limit, maxBytes, s);
            Tallied(codec, limit, maxBytes, p) &&
            (p.rest != [] ==> |p.out| == limit || TotalSize(codec, p.out) >= maxBytes)
    decreases s.rest
  {
    if |s.out| < limit && s.bytes < maxBytes && s.rest != [] {
      AdvanceTallied(codec, accept, limit, maxBytes, s);
      PullWithinBounds(codec, accept, limit, maxBytes, Advance(codec, accept, s));
    }
  }

  /** What an unbounded pull makes of a list of items. */
  function Unbounded(accept: PoolTxn -> bool, items: seq<PoolTxn>, nonces: Nonces): seq<Entry> {
    if items == [] then []
    else [Entry(items[0], Judge(accept, nonces, items[0]))] + Unbounded(accept, items[1..], Anchor(nonces, items[0]))
  }

  /** An unbounded pull judges every item, in order: it emits an item exactly if the filter accepts it and
      its nonce follows its sender's last anchored one, or is the sender's first; it rejects an item
      exactly if its nonce follows and the filter refuses it; and it skips the others. */
  lemma {:induction false} JudgedExactly(accept: PoolTxn -> bool, items: seq<PoolTxn>, nonces: Nonces, i: nat)
    requires i < |items|
    ensures |Unbounded(accept, items, nonces)| == |items|
    ensures var e, t := Unbounded(accept, items, nonces)[i], items[i];
            var anchors := AnchorAll(nonces, items[..i]);
            var follows := t.sender in anchors ==> t.nonce == anchors[t.sender] + 1;
            && e.txn == t
            && (e.verdict.Emitted? <==> follows && accept(t))
            && (e.verdict.Rejected? <==> follows && !accept(t))
            && (e.verdict.Skipped? <==> !follows)
    decreases items
  {
    if i > 0 {
      JudgedExactly(accept, items[1..], Anchor(nonces, items[0]), i - 1);
      assert items[..i][1..] == items[1..][..i - 1];
    } else if |items| > 1 {
      JudgedExactly(accept, items[1..], Anchor(nonces, items[0]), 0);
    }
  }

  function AnchorAll(nonces: Nonces, items: seq<PoolTxn>): Nonces
    decreases items
  {
    if items == [] then nonces else AnchorAll(Anchor(nonces, items[0]), items[1..])
  }

  /** `p` went on from `s` over its next `n` items as an unbounded pull would. */
  ghost predicate Continues(accept: PoolTxn -> bool, s: Pulling, p: Pulling, n: nat) {
    && n <= |s.rest| && p.rest == s.rest[n..]
    && p.log == s.log + Unbounded(accept, s.rest[..n], s.nonces) && p.nonces == AnchorAll(s.nonces, s.rest[..n])
  }

  /** A bounded pull consumes a prefix of the items and treats it as an unbounded pull would; the
      rest, with the anchors, is exactly where the next pull resumes. */
  lemma {:induction false} PullIsPrefix(codec: Codec, accept: PoolTxn -> bool, limit: nat, maxBytes: nat, s: Pulling)
    returns (n: nat)
    ensures Continues(accept, s, Pull(codec, accept, limit, maxBytes, s), n)
    decreases s.rest
  {
    if |s.out| < limit && s.bytes < maxBytes && s.rest != [] {
      var next := Advance(codec, accept, s);
      var m := PullIsPrefix(codec, accept, limit, maxBytes, next);
      n := m + 1;
      ContinuesOne(codec, accept, s, Pull(codec, accept, limit, maxBytes, s), m);
    } else {
      n := 0;
      assert s.rest[..0] == [] && s.rest[0..] == s.rest && s.log + [] == s.log;
    }
  }

  lemma ContinuesOne(codec: Codec, accept: PoolTxn -> bool, s: Pulling, p: Pulling, m: nat)
    requires s.rest != [] && Continues(accept, Advance(codec, accept, s), p, m)
    ensures Continues(accept, s, p, m + 1)
  {
    var next := Advance(codec, accept, s);
    assert s.rest[..m + 1][1..] == next.rest[..m] && s.rest[m + 1..] == next.rest[m..];
    var first := Entry(s.rest[0], Judge(accept, s.nonces, s.rest[0]));
    var others := Unbounded(accept, next.rest[..m], next.nonces);
    assert (s.log + [first]) + others == s.log + ([first] + others);
  }

  // ---------------------------------------------------------------- a series of pulls

  datatype Request = Request(accept: PoolTxn -> bool, limit: nat, maxBytes: nat)

  /** What a series of pulls leaves: the iterator and anchors, all verdicts, and everything returned. */
  datatype Session = Session(rest: seq<PoolTxn>, nonces: Nonces, log: seq<Entry>, returned: seq<PoolTxn>)

  /** The pulls of one iterator lifetime, each resuming where the previous one stopped. */
  function Series(codec: Codec, requests: seq<Request>, items: seq<PoolTxn>): Session {
    if requests == [] then Session(items, map[], [], [])
    else
      var last := |requests| - 1;
      var before, r := Series(codec, requests[..last], items), requests[last];
      var p := Pull(codec, r.accept, r.limit, r.maxBytes, Begin(before.rest, before.nonces));
      Session(p.rest, p.nonces, before.log + p.log, before.returned + p.out)
  }

  /** What was returned is what the verdicts emitted. */
  lemma {:induction false} ReturnedIsEmitted(codec: Codec, requests: seq<Request>, items: seq<PoolTxn>)
    ensures Series(codec, requests, items).returned == Output(Series(codec, requests, items).log)
  {
    if requests != [] {
      var last := |requests| - 1;
      var before, r := Series(codec, requests[..last], items), requests[last];
      ReturnedIsEmitted(codec, requests[..last], items);
      PullWithinBounds(codec, r.accept, r.limit, r.maxBytes, Begin(before.rest, before.nonces));
      OutputConcat(before.log, Pull(codec, r.accept, r.limit, r.maxBytes, Begin(before.rest, before.nonces)).log);
    }
  }

  lemma {:induction false} UnboundedConcat(accept: PoolTxn -> bool, xs: seq<PoolTxn>, ys: seq<PoolTxn>, nonces: Nonces)
    ensures Unbounded(accept, xs + ys, nonces) == Unbounded(accept, xs, nonces) +
            Unbounded(accept, ys, AnchorAll(nonces, xs))
    ensures AnchorAll(nonces, xs + ys) == AnchorAll(AnchorAll(nonces, xs), ys)
    decreases xs
  {
    if xs == [] {
      assert xs + ys == ys;
    } else {
      assert (xs + ys)[1..] == xs[1..] + ys;
      UnboundedConcat(accept, xs[1..], ys, Anchor(nonces, xs[0]));
    }
  }

  lemma {:induction false} SameFilter(f: PoolTxn -> bool, g: PoolTxn -> bool, items: seq<PoolTxn>, nonces: Nonces)
    requires forall t :: f(t) == g(t)
    ensures Unbounded(f, items, nonces) == Unbounded(g, items, nonces)
    decreases items
  {
    if items != [] {
      SameFilter(f, g, items[1..], Anchor(nonces, items[0]));
    }
  }

  /** The session has treated the first `n` items as one unbounded pull would. */
  ghost predicate AsOnePull(accept: PoolTxn -> bool, items: seq<PoolTxn>, s: Session, n: nat) {
    && n <= |items| && s.rest == items[n..]
    && s.log == Unbounded(accept, items[..n], map[]) && s.nonces == AnchorAll(map[], items[..n])
  }

  lemma PullGoesOn(accept: PoolTxn -> bool, f: PoolTxn -> bool, items: seq<PoolTxn>, s: Session, p: Pulling, n: nat,
                   m: nat)
    requires AsOnePull(accept, items, s, n) && Continues(f, Begin(s.rest, s.nonces), p, m) &&
             forall t :: f(t) == accept(t)
    ensures AsOnePull(accept, items, Session(p.rest, p.nonces, s.log + p.log, s.returned + p.out), n + m)
  {
    SameFilter(f, accept, s.rest[..m], s.nonces);
    UnboundedConcat(accept, items[..n], s.rest[..m], map[]);
    assert items[..n] + s.rest[..m] == items[..n + m] && s.rest[m..] == items[n + m..];
  }

  lemma {:induction false} SeriesAsOnePull(codec: Codec, accept: PoolTxn -> bool, requests: seq<Request>,
                                           items: seq<PoolTxn>) returns (n: nat)
    requires forall r :: r in requests ==> forall t :: r.accept(t) == accept(t)
    ensures AsOnePull(accept, items, Series(codec, requests, items), n)
  {
    if requests == [] {
      n := 0;
      assert items[..0] == [] && items[0..] == items;
    } else {
      var last := |requests| - 1;
      var before, r := Series(codec, requests[..last], items), requests[last];
      var k := SeriesAsOnePull(codec, accept, requests[..last], items);
      var m := PullIsPrefix(codec, r.accept, r.limit, r.maxBytes, Begin(before.rest, before.nonces));
      n := k + m;
      PullGoesOn(accept, r.accept, items, before,
          Pull(codec, r.accept, r.limit, r.maxBytes, Begin(before.rest, before.nonces)), k, m);
    }
  }

  lemma UnboundedPrefix(accept: PoolTxn -> bool, items: seq<PoolTxn>, n: nat)
    requires n <= |items|
    ensures Output(Unbounded(accept, items[..n], map[])) <= Output(Unbounded(accept, items, map[]))
  {
    assert items == items[..n] + items[n..];
    UnboundedConcat(accept, items[..n], items[n..], map[]);
    OutputConcat(Unbounded(accept, items[..n], map[]), Unbounded(accept, items[n..], AnchorAll(map[], items[..n])));
  }

  /** With one filter, the results of any series of pulls, whatever their limits and budgets, are
      together a prefix of what a single unbounded pull returns: nothing lost or repeated at a boundary. */
  lemma PullsResumeExactly(codec: Codec, accept: PoolTxn -> bool, requests: seq<Request>, items: seq<PoolTxn>)
    requires forall r :: r in requests ==> forall t :: r.accept(t) == accept(t)
    ensures Series(codec, requests, items).returned <= Output(Unbounded(accept, items, map[]))
  {
    var n := SeriesAsOnePull(codec, accept, requests, items);
    ReturnedIsEmitted(codec, requests, items);
    UnboundedPrefix(accept, items, n);
  }

  // ---------------------------------------------------------------- nonces across differing filters

  /** The anchors an observed log leaves. */
  function LogNonces(log: seq<Entry>): Nonces {
    if log == [] then map[]
    else
      var last := |log| - 1;
      if log[last].verdict.Skipped? then LogNonces(log[..last])
      else LogNonces(log[..last])[log[last].txn.sender := log[last].txn.nonce]
  }

  /** Entries other than skipped ones were consecutive when they came. */
  ghost predicate Orderly(log: seq<Entry>) {
    forall i :: 0 <= i < |log| && !log[i].verdict.Skipped? ==> Consecutive(LogNonces(log[..i]), log[i].txn)
  }

  lemma OrderlyPush(log: seq<Entry>, accept: PoolTxn -> bool, t: PoolTxn)
    requires Orderly(log)
    ensures var longer := log + [Entry(t, Judge(accept, LogNonces(log), t))];
            Orderly(longer) && LogNonces(longer) == Anchor(LogNonces(log), t)
  {
    var longer := log + [Entry(t, Judge(accept, LogNonces(log), t))];
    assert longer[..|log|] == log;
    assert forall i :: 0 <= i < |log| ==> longer[..i] == log[..i];
  }

  lemma {:induction false} UnboundedOrderly(accept: PoolTxn -> bool, log: seq<Entry>, items: seq<PoolTxn>)
    requires Orderly(log)
    ensures var all := log + Unbounded(accept, items, LogNonces(log));
            Orderly(all) && LogNonces(all) == AnchorAll(LogNonces(log), items)
    decreases items
  {
    var more := Unbounded(accept, items, LogNonces(log));
    if items == [] {
      assert log + more == log;
    } else {
      var longer := log + [more[0]];
      OrderlyPush(log, accept, items[0]);
      UnboundedOrderly(accept, longer, items[1..]);
      assert log + more == longer + Unbounded(accept, items[1..], LogNonces(longer));
    }
  }

  lemma PullOrderly(f: PoolTxn -> bool, s: Session, p: Pulling, m: nat)
    requires Orderly(s.log) && s.nonces == LogNonces(s.log) && Continues(f, Begin(s.rest, s.nonces), p, m)
    ensures Orderly(s.log + p.log) && p.nonces == LogNonces(s.log + p.log)
  {
    var more := Unbounded(f, s.rest[..m], s.nonces);
    assert p.log == [] + more == more;
    UnboundedOrderly(f, s.log, s.rest[..m]);
  }

  lemma {:induction false} SeriesOrderly(codec: Codec, requests: seq<Request>, items: seq<PoolTxn>)
    ensures Orderly(Series(codec, requests, items).log)
    ensures Series(codec, requests, items).nonces == LogNonces(Series(codec, requests, items).log)
  {
    if requests != [] {
      var last := |requests| - 1;
      var before, r := Series(codec, requests[..last], items), requests[last];
      SeriesOrderly(codec, requests[..last], items);
      var m := PullIsPrefix(codec, r.accept, r.limit, r.maxBytes, Begin(before.rest, before.nonces));
      PullOrderly(r.accept, before, Pull(codec, r.accept, r.limit, r.maxBytes, Begin(before.rest, before.nonces)), m);
    }
  }

  /** The anchor of a sender comes from its latest entry that was not skipped. */
  lemma {:induction false} AnchorSource(log: seq<Entry>, a: Address) returns (k: nat)
    requires a in LogNonces(log)
    ensures k < |log| && log[k].txn.sender == a && !log[k].verdict.Skipped? && log[k].txn.nonce == LogNonces(log)[a]
    ensures forall j :: k < j < |log| && log[j].txn.sender == a ==> log[j].verdict.Skipped?
  {
    var last := |log| - 1;
    if log[last].verdict.Skipped? || log[last].txn.sender != a {
      k := AnchorSource(log[..last], a);
    } else {
      k := last;
    }
  }

  lemma {:induction false} AnchorPresent(log: seq<Entry>, i: nat)
    requires i < |log| && !log[i].verdict.Skipped?
    ensures log[i].txn.sender in LogNonces(log)
  {
    if i < |log| - 1 {
      AnchorPresent(log[..|log| - 1], i);
    }
  }

  /** Between `i` and `j` the sender's transaction with that nonce was pulled and passed the nonce
      check: it was emitted, or turned down by the caller's filter. */
  ghost predicate SeenBetween(log: seq<Entry>, i: nat, j: nat, a: Address, nonce: nat)
    requires i < j < |log|
  {
    exists k :: i < k < j && log[k].txn.sender == a && log[k].txn.nonce == nonce && !log[k].verdict.Skipped?
  }

  /** Between two anchored entries of one sender nonces rise, and every nonce in between was pulled. */
  lemma {:induction false} NoNonceUnseen(log: seq<Entry>, i: nat, j: nat)
    requires Orderly(log) && i < j < |log| && log[i].txn.sender == log[j].txn.sender
    requires !log[i].verdict.Skipped? && !log[j].verdict.Skipped?
    ensures log[i].txn.nonce < log[j].txn.nonce
    ensures forall n: nat :: log[i].txn.nonce < n < log[j].txn.nonce ==> SeenBetween(log, i, j, log[i].txn.sender, n)
    decreases j
  {
    var a := log[i].txn.sender;
    var before := log[..j];
    assert before[i] == log[i];
    AnchorPresent(before, i);
    var k := AnchorSource(before, a);
    assert log[j].txn.nonce == log[k].txn.nonce + 1;
    if k > i {
      NoNonceUnseen(log, i, k);
      forall n: nat | log[i].txn.nonce < n < log[j].txn.nonce
        ensures SeenBetween(log, i, j, a, n)
      {
        if n < log[k].txn.nonce {
          assert SeenBetween(log, i, k, a, n);
        }
      }
    }
  }

  /** Entry `k` of the series' log was judged in its `q`th pull. */
  predicate JudgedIn(codec: Codec, requests: seq<Request>, items: seq<PoolTxn>, k: nat, q: nat) {
    q < |requests| && |Series(codec, requests[..q], items).log| <= k < |Series(codec, requests[..q + 1], items).log|
  }

  /** Every entry was judged in one of the pulls, and by that pull's own filter: what it emitted the
      filter accepts, what it rejected the filter refuses. */
  lemma {:induction false} JudgedByItsFilter(codec: Codec, requests: seq<Request>, items: seq<PoolTxn>, k: nat)
    returns (q: nat)
    requires k < |Series(codec, requests, items).log|
    ensures var e := Series(codec, requests, items).log[k];
            && JudgedIn(codec, requests, items, k, q)
            && (e.verdict.Emitted? ==> requests[q].accept(e.txn))
            && (e.verdict.Rejected? ==> !requests[q].accept(e.txn))
  {
    var last := |requests| - 1;
    var earlier, r := requests[..last], requests[last];
    var before := Series(codec, earlier, items);
    assert requests[..last + 1] == requests;
    if k < |before.log| {
      q := JudgedByItsFilter(codec, earlier, items, k);
      assert earlier[..q] == requests[..q] && earlier[..q + 1] == requests[..q + 1];
    } else {
      q := last;
      var start := Begin(before.rest, before.nonces);
      var n := PullIsPrefix(codec, r.accept, r.limit, r.maxBytes, start);
      var judged := Unbounded(r.accept, before.rest[..n], before.nonces);
      assert Pull(codec, r.accept, r.limit, r.maxBytes, start).log == [] + judged == judged;
      UnboundedLength(r.accept, before.rest[..n], before.nonces);
      JudgedExactly(r.accept, before.rest[..n], before.nonces, k - |before.log|);
    }
  }

  lemma {:induction false} UnboundedLength(accept: PoolTxn -> bool, items: seq<PoolTxn>, nonces: Nonces)
    ensures |Unbounded(accept, items, nonces)| == |items|
    decreases items
  {
    if items != [] {
      UnboundedLength(accept, items[1..], Anchor(nonces, items[0]));
    }
  }

  /** Between `i` and `j` the nonce was emitted, or refused by the filter of the pull it came up in. */
  ghost predicate AccountedFor(codec: Codec, requests: seq<Request>, items: seq<PoolTxn>, i: nat, j: nat,
                               a: Address, nonce: nat)
    requires i < j < |Series(codec, requests, items).log|
  {
    exists k :: i < k < j && Accounts(codec, requests, items, k, a, nonce)
  }

  ghost predicate Accounts(codec: Codec, requests: seq<Request>, items: seq<PoolTxn>, k: nat, a: Address, nonce: nat)
    requires k < |Series(codec, requests, items).log|
  {
    var e := Series(codec, requests, items).log[k];
    && e.txn.sender == a && e.txn.nonce == nonce
    && (|| e.verdict.Emitted?
        || (exists q: nat :: JudgedIn(codec, requests, items, k, q) && !requests[q].accept(e.txn)))
  }

  /** Over any series of pulls with any filters: a sender's emitted nonces strictly increase, and a
      nonce missing between two emitted ones was pulled and refused by the filter of its pull. */
  lemma EmittedNoncesLeaveNoGap(codec: Codec, requests: seq<Request>, items: seq<PoolTxn>, i: nat, j: nat)
    requires var log := Series(codec, requests, items).log;
             && i < j < |log| && log[i].verdict.Emitted? && log[j].verdict.Emitted?
             && log[i].txn.sender == log[j].txn.sender
    ensures var log := Series(codec, requests, items).log;
            && log[i].txn.nonce < log[j].txn.nonce
            && forall n: nat :: log[i].txn.nonce < n < log[j].txn.nonce ==>
                 AccountedFor(codec, requests, items, i, j, log[i].txn.sender, n)
  {
    var log := Series(codec, requests, items).log;
    SeriesOrderly(codec, requests, items);
    NoNonceUnseen(log, i, j);
    forall n: nat | log[i].txn.nonce < n < log[j].txn.nonce
      ensures AccountedFor(codec, requests, items, i, j, log[i].txn.sender, n)
    {
      assert SeenBetween(log, i, j, log[i].txn.sender, n);
      var k :| i < k < j && log[k].txn.sender == log[i].txn.sender && log[k].txn.nonce == n && !log[k].verdict.Skipped?;
      var q := JudgedByItsFilter(codec, requests, items, k);
      assert Accounts(codec, requests, items, k, log[i].txn.sender, n);
    }
  }
}
