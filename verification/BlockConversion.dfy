/** Turning an ordered block's transactions into senders and decoded transactions. A cache
    shared with the mempool saves decoding; it must never show in the result. */
module BlockConversion {
  import opened Common
  import opened Mempool

  type Decoded = (Address, Tx)

  const TXN_CACHE_ENTRY_TTL: nat := 300

  /** The hash is injective. */
  ghost predicate CollisionFree(codec: Codec) {
    forall x, y :: codec.hash(x) == codec.hash(y) ==> x == y
  }

  /** A pool transaction decodes from its own encoding, to itself and its sender. */
  ghost predicate Genuine(codec: Codec, t: PoolTxn) {
    codec.decode(codec.encode(t.tx)) == Some((t.sender, t.tx))
  }

  /** Entries are genuine and stored under their hash. */
  ghost predicate CacheOk(codec: Codec, cache: TxnCache) {
    forall h :: h in cache ==> Genuine(codec, cache[h].txn) && TxnHash(codec, cache[h].txn) == h
  }

  /** What decoding every transaction of the block gives: block order, undecodable ones dropped. */
  function DecodeAll(codec: Codec, block: seq<Bytes>): seq<Decoded> {
    if block == [] then []
    else
      var last := |block| - 1;
      DecodeAll(codec, block[..last]) + Kept(codec.decode(block[last]))
  }

  function Kept(d: Option<Decoded>): seq<Decoded> {
    if d.Some? then [d.value] else []
  }

  function Keys(codec: Codec, block: seq<Bytes>): set<Hash> {
    set b | b in block :: codec.hash(b)
  }

  lemma KeysStep(codec: Codec, block: seq<Bytes>, i: nat)
    requires i < |block|
    ensures Keys(codec, block[..i + 1]) == Keys(codec, block[..i]) + {codec.hash(block[i])}
  {
    assert block[..i + 1] == block[..i] + [block[i]];
  }

  function Senders(ds: seq<Decoded>): seq<Address> { seq(|ds|, i requires 0 <= i < |ds| => ds[i].0) }

  function Transactions(ds: seq<Decoded>): seq<Tx> { seq(|ds|, i requires 0 <= i < |ds| => ds[i].1) }

  /** Inserted less than the TTL ago; a clock that went back counts as no time. */
  predicate Young(entry: CacheEntry, now: nat) {
    now <= entry.insertedAt || now - entry.insertedAt < TXN_CACHE_ENTRY_TTL
  }

  function Swept(cache: TxnCache, now: nat): TxnCache {
    map h | h in cache && Young(cache[h], now) :: cache[h]
  }

  /** A cache hit is what decoding would have given. */
  lemma HitIsDecoded(codec: Codec, cache: TxnCache, bytes: Bytes)
    requires CollisionFree(codec) && CacheOk(codec, cache) && codec.hash(bytes) in cache
    ensures var t := cache[codec.hash(bytes)].txn; codec.decode(bytes) == Some((t.sender, t.tx))
  {
    var t := cache[codec.hash(bytes)].txn;
    assert codec.hash(codec.encode(t.tx)) == codec.hash(bytes);
  }

  lemma CacheShrinks(codec: Codec, cache: TxnCache, smaller: TxnCache)
    requires CacheOk(codec, cache) && forall h :: h in smaller ==> h in cache && smaller[h] == cache[h]
    ensures CacheOk(codec, smaller)
  {
  }

  /** The converter and the cache it shares with the mempool. */
  class Converter {
    const codec: Codec
    var cache: TxnCache

    constructor (codec: Codec)
      ensures this.codec == codec && cache == map[]
    {
      this.codec := codec;
      cache := map[];
    }

    /** The sweeper: entries younger than the TTL stay as they are, all others go. */
    method Sweep(now: nat)
      modifies this
      ensures cache == Swept(old(cache), now)
      ensures forall h :: h in cache <==> h in old(cache) && Young(old(cache)[h], now)
      ensures forall h :: h in cache ==> cache[h] == old(cache)[h]
    {
      cache := Swept(cache, now);
    }

    /** `push_ordered_block` up to the hand-over: look every transaction up, removing hits; decode
        the misses; drop what has no sender or body. */
    method PushOrderedBlock(block: seq<Bytes>) returns (senders: seq<Address>, transactions: seq<Tx>)
      requires CollisionFree(codec) && CacheOk(codec, cache)
      modifies this
      ensures senders == Senders(DecodeAll(codec, block)) && transactions == Transactions(DecodeAll(codec, block))
      ensures cache == old(cache) - Keys(codec, block) && CacheOk(codec, cache)
    {
      var slots, bodies := LookUp(block);
      DecodeMissing(codec, block, slots, bodies);
      senders, transactions := FilterValid(codec, block, slots, bodies);
    }

    method LookUp(block: seq<Bytes>) returns (senders: array<Option<Address>>, transactions: array<Option<Tx>>)
      requires CollisionFree(codec) && CacheOk(codec, cache)
      modifies this
      ensures fresh(senders) && fresh(transactions) && senders != transactions
      ensures senders.Length == transactions.Length == |block|
      ensures forall i :: 0 <= i < |block| ==> BlankOr(codec, block[i], senders[i], transactions[i])
      ensures cache == old(cache) - Keys(codec, block) && CacheOk(codec, cache)
    {
      senders := new Option<Address>[|block|](_ => None);
      transactions := new Option<Tx>[|block|](_ => None);
      for idx := 0 to |block|
        invariant cache == old(cache) - Keys(codec, block[..idx]) && CacheOk(codec, cache)
        invariant forall i :: 0 <= i < |block| ==> BlankOr(codec, block[i], senders[i], transactions[i])
      {
        var key := codec.hash(block[idx]);
        KeysStep(codec, block, idx);
        if key in cache {
          HitIsDecoded(codec, cache, block[idx]);
          var t := cache[key].txn;
          CacheShrinks(codec, cache, cache - {key});
          cache := cache - {key};
          senders[idx] := Some(t.sender);
          transactions[idx] := Some(t.tx);
        }
      }
      assert block[..|block|] == block;
    }
  }

  /** The two slots hold what decoding gives. */
  predicate Filled(codec: Codec, bytes: Bytes, sender: Option<Address>, tx: Option<Tx>) {
    match codec.decode(bytes)
    case Some(d) => sender == Some(d.0) && tx == Some(d.1)
    case None => sender.None? && tx.None?
  }

  predicate BlankOr(codec: Codec, bytes: Bytes, sender: Option<Address>, tx: Option<Tx>) {
    (sender.None? && tx.None?) || Filled(codec, bytes, sender, tx)
  }

  method DecodeMissing(codec: Codec, block: seq<Bytes>, senders: array<Option<Address>>,
                       transactions: array<Option<Tx>>)
    requires senders != transactions && senders.Length == transactions.Length == |block|
    requires forall i :: 0 <= i < |block| ==> BlankOr(codec, block[i], senders[i], transactions[i])
    modifies senders, transactions
    ensures forall i :: 0 <= i < |block| ==> Filled(codec, block[i], senders[i], transactions[i])
  {
    for idx := 0 to |block|
      invariant forall i :: 0 <= i < idx ==> Filled(codec, block[i], senders[i], transactions[i])
      invariant forall i :: 0 <= i < |block| ==> BlankOr(codec, block[i], senders[i], transactions[i])
    {
      if senders[idx].None? {
        match codec.decode(block[idx])
        case Some(d) =>
          senders[idx] := Some(d.0);
          transactions[idx] := Some(d.1);
        case None =>
      }
    }
  }

  method FilterValid(codec: Codec, block: seq<Bytes>, slots: array<Option<Address>>, bodies: array<Option<Tx>>)
    returns (senders: seq<Address>, transactions: seq<Tx>)
    requires slots.Length == bodies.Length == |block|
    requires forall i :: 0 <= i < |block| ==> Filled(codec, block[i], slots[i], bodies[i])
    ensures senders == Senders(DecodeAll(codec, block)) && transactions == Transactions(DecodeAll(codec, block))
  {
    senders, transactions := [], [];
    for idx := 0 to |block|
      invariant senders == Senders(DecodeAll(codec, block[..idx])) &&
                transactions == Transactions(DecodeAll(codec, block[..idx]))
    {
      assert block[..idx + 1][..idx] == block[..idx];
      if slots[idx].Some? && bodies[idx].Some? {
        senders := senders + [slots[idx].value];
        transactions := transactions + [bodies[idx].value];
      }
    }
    assert block[..|block|] == block;
  }

  // ---------------------------------------------------------------- interleaved with the mempool

  /** A conversion part way through its lookups. */
  datatype Conversion = Conversion(block: seq<Bytes>, found: seq<Option<Decoded>>)

  datatype Output = Output(block: seq<Bytes>, result: seq<Decoded>)

  datatype System = System(cache: TxnCache, current: Option<Conversion>, outputs: seq<Output>)

  /** A pull caches a transaction, the sweeper runs, a block arrives, its next transaction is looked
      up, its conversion completes. */
  datatype Event =
    | CacheTxn(txn: PoolTxn, now: nat)
    | SweepAt(now: nat)
    | Arrive(block: seq<Bytes>)
    | LookUpNext
    | Complete

  /** Hits where there were any, decoded otherwise. */
  function Resolve(codec: Codec, block: seq<Bytes>, found: seq<Option<Decoded>>): seq<Decoded>
    requires |found| == |block|
  {
    if block == [] then []
    else
      var last := |block| - 1;
      Resolve(codec, block[..last], found[..last]) +
      Kept(if found[last].Some? then found[last] else codec.decode(block[last]))
  }

  function LookUpStep(codec: Codec, s: System, c: Conversion): System
    requires |c.found| < |c.block|
  {
    var key := codec.hash(c.block[|c.found|]);
    if key in s.cache
    then
      var hit := (s.cache[key].txn.sender, s.cache[key].txn.tx);
      System(s.cache - {key}, Some(c.(found := c.found + [Some(hit)])), s.outputs)
    else s.(current := Some(c.(found := c.found + [None])))
  }

  function Step(codec: Codec, s: System, ev: Event): System {
    match ev
    case CacheTxn(t, now) => s.(cache := s.cache[TxnHash(codec, t) := CacheEntry(now, t)])
    case SweepAt(now) => s.(cache := Swept(s.cache, now))
    case Arrive(block) => if s.current.None? then s.(current := Some(Conversion(block, []))) else s
    case LookUpNext =>
      if s.current.Some? && |s.current.value.found| < |s.current.value.block|
      then LookUpStep(codec, s, s.current.value)
      else s
    case Complete =>
      if s.current.Some? && |s.current.value.found| == |s.current.value.block|
      then
        var c := s.current.value;
        s.(current := None, outputs := s.outputs + [Output(c.block, Resolve(codec, c.block, c.found))])
      else s
  }

  function Run(codec: Codec, events: seq<Event>): System {
    if events == [] then System(map[], None, [])
    else Step(codec, Run(codec, events[..|events| - 1]), events[|events| - 1])
  }

  /** Only transactions of the pool are cached. */
  ghost predicate FromPool(codec: Codec, events: seq<Event>) {
    forall ev :: ev in events && ev.CacheTxn? ==> Genuine(codec, ev.txn)
  }

  ghost predicate FoundOk(codec: Codec, c: Conversion) {
    |c.found| <= |c.block| && forall i :: 0 <= i < |c.found| ==>
        c.found[i].None? || c.found[i] == codec.decode(c.block[i])
  }

  ghost predicate Inv(codec: Codec, s: System) {
    && CacheOk(codec, s.cache)
    && (s.current.Some? ==> FoundOk(codec, s.current.value))
    && (forall o :: o in s.outputs ==> o.result == DecodeAll(codec, o.block))
  }

  lemma {:induction false} ResolveDecodes(codec: Codec, block: seq<Bytes>, found: seq<Option<Decoded>>)
    requires |found| == |block| && FoundOk(codec, Conversion(block, found))
    ensures Resolve(codec, block, found) == DecodeAll(codec, block)
  {
    if block != [] {
      var last := |block| - 1;
      ResolveDecodes(codec, block[..last], found[..last]);
    }
  }

  lemma InvKept(codec: Codec, s: System, ev: Event)
    requires CollisionFree(codec) && Inv(codec, s) && (ev.CacheTxn? ==> Genuine(codec, ev.txn))
    ensures Inv(codec, Step(codec, s, ev))
  {
    match ev
    case LookUpNext =>
      if s.current.Some? && |s.current.value.found| < |s.current.value.block| {
        var c := s.current.value;
        var bytes := c.block[|c.found|];
        if codec.hash(bytes) in s.cache {
          HitIsDecoded(codec, s.cache, bytes);
        }
      }
    case Complete =>
      if s.current.Some? && |s.current.value.found| == |s.current.value.block| {
        ResolveDecodes(codec, s.current.value.block, s.current.value.found);
      }
    case _ =>
  }

  lemma {:induction false} InvHolds(codec: Codec, events: seq<Event>)
    requires CollisionFree(codec) && FromPool(codec, events)
    ensures Inv(codec, Run(codec, events))
  {
    if events != [] {
      InvHolds(codec, events[..|events| - 1]);
      InvKept(codec, Run(codec, events[..|events| - 1]), events[|events| - 1]);
    }
  }

  /** However pulls, sweeps and conversions interleave, down to single lookups, every converted
      block is exactly what decoding all of its transactions would give. */
  lemma CacheIsTransparent(codec: Codec, events: seq<Event>, o: Output)
    requires CollisionFree(codec) && FromPool(codec, events) && o in Run(codec, events).outputs
    ensures o.result == DecodeAll(codec, o.block)
  {
    InvHolds(codec, events);
  }

  function LookUpAll(codec: Codec, s: System, n: nat): System {
    if n == 0 then s else Step(codec, LookUpAll(codec, s, n - 1), LookUpNext)
  }

  /** The lookups of a conversion that nothing interrupts: hits leave the cache, everything else stays. */
  lemma {:induction false} LookUpsUninterrupted(codec: Codec, s: System, block: seq<Bytes>, n: nat)
    requires s.current == Some(Conversion(block, [])) && n <= |block|
    ensures var t := LookUpAll(codec, s, n);
            && t.current.Some? && t.current.value.block == block && |t.current.value.found| == n
            && t.cache == s.cache - Keys(codec, block[..n]) && t.outputs == s.outputs
  {
    if n == 0 {
      assert Keys(codec, block[..0]) == {};
    } else {
      LookUpsUninterrupted(codec, s, block, n - 1);
      KeysStep(codec, block, n - 1);
      LookUpOnce(codec, LookUpAll(codec, s, n - 1));
    }
  }

  lemma LookUpOnce(codec: Codec, s: System)
    requires s.current.Some? && |s.current.value.found| < |s.current.value.block|
    ensures var c, t := s.current.value, Step(codec, s, LookUpNext);
            && t.current.Some? && t.current.value.block == c.block && |t.current.value.found| == |c.found| + 1
            && t.cache == s.cache - {codec.hash(c.block[|c.found|])} && t.outputs == s.outputs
  {
  }

  /** A conversion that nothing interrupts does what `PushOrderedBlock` does. */
  lemma UninterruptedConversion(codec: Codec, s: System, block: seq<Bytes>)
    requires CollisionFree(codec) && Inv(codec, s) && s.current.None?
    ensures var t := Step(codec, LookUpAll(codec, Step(codec, s, Arrive(block)), |block|), Complete);
            && t.cache == s.cache - Keys(codec, block) && t.current.None?
            && t.outputs == s.outputs + [Output(block, DecodeAll(codec, block))]
  {
    var arrived := Step(codec, s, Arrive(block));
    LookUpsUninterrupted(codec, arrived, block, |block|);
    assert block[..|block|] == block;
    LookUpsKeepInv(codec, arrived, |block|);
    var looked := LookUpAll(codec, arrived, |block|);
    ResolveDecodes(codec, block, looked.current.value.found);
  }

  lemma {:induction false} LookUpsKeepInv(codec: Codec, s: System, n: nat)
    requires CollisionFree(codec) && Inv(codec, s)
    ensures Inv(codec, LookUpAll(codec, s, n))
  {
    if n > 0 {
      LookUpsKeepInv(codec, s, n - 1);
      InvKept(codec, LookUpAll(codec, s, n - 1), LookUpNext);
    }
  }

  /** Every entry comes from a pull, under the hash of its transaction. */
  ghost predicate Pulled(codec: Codec, events: seq<Event>, cache: TxnCache) {
    forall h :: h in cache ==>
      CacheTxn(cache[h].txn, cache[h].insertedAt) in events && TxnHash(codec, cache[h].txn) == h
  }

  lemma {:induction false} CacheIsPulled(codec: Codec, events: seq<Event>)
    ensures Pulled(codec, events, Run(codec, events).cache)
  {
    if events != [] {
      var before, ev := events[..|events| - 1], events[|events| - 1];
      CacheIsPulled(codec, before);
      assert events == before + [ev];
      PulledStep(codec, before, Run(codec, before), ev);
    }
  }

  lemma PulledStep(codec: Codec, events: seq<Event>, s: System, ev: Event)
    requires Pulled(codec, events, s.cache)
    ensures Pulled(codec, events + [ev], Step(codec, s, ev).cache)
  {
    var t := Step(codec, s, ev);
    assert forall h :: h in t.cache && !(ev.CacheTxn? && h == TxnHash(codec, ev.txn)) ==>
        h in s.cache && t.cache[h] == s.cache[h];
  }

  /** The sweeper bounds the cache: after a sweep at `now` it holds only transactions pulled less than
      the TTL ago, and none such is lost to the sweep. */
  lemma SweepBoundsCache(codec: Codec, events: seq<Event>, now: nat, h: Hash)
    ensures var before, after := Run(codec, events).cache, Run(codec, events + [SweepAt(now)]).cache;
            && (h in after ==> exists ev :: && ev in events && ev.CacheTxn? && TxnHash(codec, ev.txn) == h
                                            && now < ev.now + TXN_CACHE_ENTRY_TTL)
            && (h in before && now < before[h].insertedAt + TXN_CACHE_ENTRY_TTL ==> h in after && after[h] == before[h])
  {
    assert (events + [SweepAt(now)])[..|events|] == events;
    CacheIsPulled(codec, events);
    var before := Run(codec, events).cache;
    if h in before && Young(before[h], now) {
      assert CacheTxn(before[h].txn, before[h].insertedAt) in events;
    }
  }

  /** A pull caches genuine transactions under their own hash, so it keeps the cache sound. */
  lemma {:induction false} PullKeepsCacheOk(codec: Codec, cache: TxnCache, txns: seq<PoolTxn>, now: nat)
    requires CacheOk(codec, cache) && forall t :: t in txns ==> Genuine(codec, t)
    ensures CacheOk(codec, CacheAll(codec, cache, txns, now))
  {
    if txns != [] {
      PullKeepsCacheOk(codec, cache, txns[..|txns| - 1], now);
    }
  }
}
