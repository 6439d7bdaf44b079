/** Resolving a block's payload from the quorum store: a status cell per group of batches that
    is taken, awaited and put back, with fresh requests after a failure. Whatever fails or
    interleaves, a resolution that succeeds returns the same transactions. */
module Payload {
  import opened Common

  type Digest = nat
  type Txn = nat

  datatype BatchInfo = BatchInfo(digest: Digest, expiration: nat)

  /** Requests are listed by the digest asked for; the channel's answer comes when awaited. */
  datatype DataStatus = Cached(data: seq<Txn>) | Requested(receivers: seq<Digest>)

  datatype Error = NotInitialized | DataNotFound(digest: Digest) | ReaderError(code: nat) | Unsupported

  datatype Answer = Delivered(data: seq<Txn>) | Dropped | Failed(code: nat)

  datatype Resolved = Ok(txns: seq<Txn>) | Err(error: Error)

  /** Requests answered with data are answered with the digest's own data. */
  ghost predicate Truthful(content: Digest -> seq<Txn>, answers: (nat, Digest) -> Answer) {
    forall k, d :: answers(k, d).Delivered? ==> answers(k, d).data == content(d)
  }

  /** The batches not expired at the block's timestamp, in payload order. */
  function Unexpired(batches: seq<BatchInfo>, timestamp: nat): seq<Digest> {
    if batches == [] then []
    else (if timestamp <= batches[0].expiration then [batches[0].digest] else []) + Unexpired(batches[1..], timestamp)
  }

  function Contents(content: Digest -> seq<Txn>, digests: seq<Digest>): seq<Txn> {
    if digests == [] then [] else content(digests[0]) + Contents(content, digests[1..])
  }

  function Flatten(batches: seq<seq<Txn>>): seq<Txn> {
    if batches == [] then [] else batches[0] + Flatten(batches[1..])
  }

  /** Nothing is lost or reordered in flattening. */
  lemma {:induction false} FlattenConcat(xs: seq<seq<Txn>>, ys: seq<seq<Txn>>)
    ensures Flatten(xs + ys) == Flatten(xs) + Flatten(ys) && forall x :: Flatten([x]) == x
  {
    forall x: seq<Txn>
      ensures Flatten([x]) == x
    {
      assert [x][1..] == [];
    }
    if xs == [] {
      assert xs + ys == ys;
    } else {
      assert (xs + ys)[1..] == xs[1..] + ys;
      FlattenConcat(xs[1..], ys);
    }
  }

  /** What a group of batches resolves to. */
  function GroupTxns(content: Digest -> seq<Txn>, batches: seq<BatchInfo>, timestamp: nat): seq<Txn> {
    Contents(content, Unexpired(batches, timestamp))
  }

  /** A cell holds nothing, the group's own requests, or the group's own data. */
  ghost predicate Faithful(content: Digest -> seq<Txn>, batches: seq<BatchInfo>, timestamp: nat,
                           status: Option<DataStatus>)
  {
    match status
    case None => true
    case Some(Cached(data)) => data == GroupTxns(content, batches, timestamp)
    case Some(Requested(receivers)) => receivers == Unexpired(batches, timestamp)
  }

  /** A digest is requested exactly if some batch with it has not expired before the block's timestamp. */
  lemma {:induction false} UnexpiredMember(batches: seq<BatchInfo>, timestamp: nat, d: Digest)
    ensures d in Unexpired(batches, timestamp) <==>
            exists b :: b in batches && b.digest == d && b.expiration >= timestamp
  {
    if batches != [] {
      UnexpiredMember(batches[1..], timestamp, d);
      assert batches == [batches[0]] + batches[1..];
    }
  }

  method RequestTransactions(batches: seq<BatchInfo>, timestamp: nat) returns (receivers: seq<Digest>)
    ensures receivers == Unexpired(batches, timestamp)
  {
    receivers := [];
    for i := 0 to |batches|
      invariant receivers + Unexpired(batches[i..], timestamp) == Unexpired(batches, timestamp)
    {
      if timestamp <= batches[i].expiration {
        receivers := receivers + [batches[i].digest];
      }
    }
  }

  ghost predicate AllDelivered(answers: (nat, Digest) -> Answer, receivers: seq<Digest>) {
    forall k :: 0 <= k < |receivers| ==> answers(k, receivers[k]).Delivered?
  }

  /** What the first answer that is not data turns into. */
  function ErrorOf(a: Answer, d: Digest): Error
    requires !a.Delivered?
  {
    if a.Dropped? then DataNotFound(d) else ReaderError(a.code)
  }

  method AwaitAll(ghost content: Digest -> seq<Txn>, receivers: seq<Digest>, answers: (nat, Digest) -> Answer)
    returns (r: Resolved)
    requires Truthful(content, answers)
    ensures r.Ok? <==> AllDelivered(answers, receivers)
    ensures r.Ok? ==> r.txns == Contents(content, receivers)
    ensures r.Err? ==> exists k :: && 0 <= k < |receivers| && !answers(k, receivers[k]).Delivered?
                                   && AllDelivered(answers, receivers[..k])
                                   && r.error == ErrorOf(answers(k, receivers[k]), receivers[k])
  {
    var ret := [];
    for k := 0 to |receivers|
      invariant ret + Contents(content, receivers[k..]) == Contents(content, receivers)
      invariant AllDelivered(answers, receivers[..k])
    {
      match answers(k, receivers[k]) {
        case Delivered(data) =>
          ret := ret + data;
        case Dropped =>
          return Err(DataNotFound(receivers[k]));
        case Failed(code) =>
          return Err(ReaderError(code));
      }
    }
    assert receivers[..|receivers|] == receivers;
    return Ok(ret);
  }

  /** A group of batches with its status cell. */
  class BatchPointer {
    const batches: seq<BatchInfo>
    var status: Option<DataStatus>

    constructor (batches: seq<BatchInfo>)
      ensures this.batches == batches && status == None
    {
      this.batches := batches;
      status := None;
    }

    ghost predicate Valid(content: Digest -> seq<Txn>, timestamp: nat)
      reads this
    {
      Faithful(content, batches, timestamp, status)
    }

    method Prefetch(timestamp: nat)
      modifies this
      ensures status == if old(status).Some? then old(status) else Some(Requested(Unexpired(batches, timestamp)))
    {
      if status.Some? {
        return;
      }
      var receivers := RequestTransactions(batches, timestamp);
      status := Some(Requested(receivers));
    }

    /** `process_payload`: take the status; return cached data and put it back; or await every
        request in turn, giving up at the first that fails and requesting everything again. */
    method Process(ghost content: Digest -> seq<Txn>, timestamp: nat, answers: (nat, Digest) -> Answer)
      returns (r: Resolved)
      requires Truthful(content, answers) && Valid(content, timestamp)
      modifies this
      ensures Valid(content, timestamp)
      ensures old(status).None? ==> r == Err(NotInitialized) && status.None?
      ensures old(status).Some? && old(status).value.Cached? ==> r.Ok? && status == old(status)
      ensures old(status).Some? && old(status).value.Requested? ==>
                (r.Ok? <==> AllDelivered(answers, Unexpired(batches, timestamp)))
      ensures r.Ok? ==> r.txns == GroupTxns(content, batches, timestamp) && status == Some(Cached(r.txns))
      ensures r.Err? && old(status).Some? ==> status == Some(Requested(Unexpired(batches, timestamp)))
    {
      var taken := status;
      status := None;
      match taken {
        case None =>
          return Err(NotInitialized);
        case Some(Cached(data)) =>
          status := Some(Cached(data));
          return Ok(data);
        case Some(Requested(receivers)) =>
          r := AwaitAll(content, receivers, answers);
          if r.Ok? {
            status := Some(Cached(r.txns));
          } else {
            var again := RequestTransactions(batches, timestamp);
            status := Some(Requested(again));
          }
      }
    }
  }

  /** The payload kinds: groups of batches resolved through their cells, transactions carried
      inline, and the execution limit. */
  datatype BlockPayload =
    | DirectMempool(txns: seq<Txn>)
    | InQuorumStore(proofs: BatchPointer)
    | InQuorumStoreWithLimit(proofs: BatchPointer, limit: Option<nat>)
    | QuorumStoreInlineHybrid(inline: seq<seq<Txn>>, proofs: BatchPointer, limit: Option<nat>)
    | OptQuorumStore(opt: BatchPointer, proofs: BatchPointer, inline: seq<seq<Txn>>, limit: Option<nat>)

  function Pointers(p: BlockPayload): seq<BatchPointer> {
    match p
    case DirectMempool(_) => []
    case InQuorumStore(proofs) => [proofs]
    case InQuorumStoreWithLimit(proofs, _) => [proofs]
    case QuorumStoreInlineHybrid(_, proofs, _) => [proofs]
    case OptQuorumStore(opt, proofs, _, _) => [opt, proofs]
  }

  function Inline(p: BlockPayload): seq<seq<Txn>> {
    if p.QuorumStoreInlineHybrid? || p.OptQuorumStore? then p.inline else []
  }

  function Limit(p: BlockPayload): Option<nat> {
    if p.DirectMempool? || p.InQuorumStore? then None else p.limit
  }

  /** The groups' batch lists, in resolution order. */
  function Groups(p: BlockPayload): seq<seq<BatchInfo>> {
    seq(|Pointers(p)|, i requires 0 <= i < |Pointers(p)| => Pointers(p)[i].batches)
  }

  /** What the whole payload resolves to: every group in order, then the inline transactions. */
  function Expected(content: Digest -> seq<Txn>, groups: seq<seq<BatchInfo>>, inline: seq<seq<Txn>>,
                    timestamp: nat): seq<Txn>
  {
    AllGroups(content, groups, timestamp) + Flatten(inline)
  }

  function AllGroups(content: Digest -> seq<Txn>, groups: seq<seq<BatchInfo>>, timestamp: nat): seq<Txn> {
    if groups == [] then []
    else
      var last := |groups| - 1;
      AllGroups(content, groups[..last], timestamp) + GroupTxns(content, groups[last], timestamp)
  }

  /** What a payload of each kind must yield: its groups' unexpired contents in payload order, then the
      transactions it carries inline; and the execution limit it carries. */
  ghost predicate Yields(content: Digest -> seq<Txn>, p: BlockPayload, timestamp: nat, txns: seq<Txn>,
                         limit: Option<nat>)
  {
    match p
    case DirectMempool(_) => false
    case InQuorumStore(proofs) => txns == GroupTxns(content, proofs.batches, timestamp) && limit == None
    case InQuorumStoreWithLimit(proofs, max) => txns == GroupTxns(content, proofs.batches, timestamp) && limit == max
    case QuorumStoreInlineHybrid(inline, proofs, max) =>
      txns == GroupTxns(content, proofs.batches, timestamp) + Flatten(inline) && limit == max
    case OptQuorumStore(opt, proofs, inline, max) =>
      && txns == GroupTxns(content, opt.batches, timestamp) + GroupTxns(content, proofs.batches, timestamp) +
          Flatten(inline)
      && limit == max
  }

  /** A cell resolves if it was requested, and its data is cached or every request is answered. */
  ghost predicate Resolves(status: Option<DataStatus>, batches: seq<BatchInfo>, timestamp: nat,
                           answers: (nat, Digest) -> Answer)
  {
    status.Some? && (status.value.Cached? || AllDelivered(answers, Unexpired(batches, timestamp)))
  }

  /** `get_transactions` for one block, nothing else touching its cells meanwhile. */
  method GetTransactions(ghost content: Digest -> seq<Txn>, p: BlockPayload, timestamp: nat,
                         answers: (nat, Digest) -> Answer)
    returns (r: Resolved, limit: Option<nat>)
    requires Truthful(content, answers)
    requires forall ptr :: ptr in Pointers(p) ==> ptr.Valid(content, timestamp)
    requires p.OptQuorumStore? ==> p.opt != p.proofs
    modifies set ptr | ptr in Pointers(p)
    ensures forall ptr :: ptr in Pointers(p) ==> ptr.Valid(content, timestamp)
    ensures r.Ok? ==> r.txns == Expected(content, Groups(p), Inline(p), timestamp) && limit == Limit(p)
    ensures r.Ok? ==> Yields(content, p, timestamp, r.txns, limit)
    ensures p.DirectMempool? ==> r == Err(Unsupported)
    ensures !p.DirectMempool? ==>
              (r.Ok? <==>
                  forall ptr :: ptr in Pointers(p) ==> Resolves(old(ptr.status), ptr.batches, timestamp, answers))
  {
    limit := Limit(p);
    if p.DirectMempool? {
      return Err(Unsupported), limit;
    }
    assert Pointers(p)[|Pointers(p)| - 1] == p.proofs;
    OneOrTwoGroups(content, Groups(p), timestamp);
    if p.OptQuorumStore? {
      assert Pointers(p)[0] == p.opt;
      var first := p.opt.Process(content, timestamp, answers);
      if first.Err? {
        return first, limit;
      }
      var second := p.proofs.Process(content, timestamp, answers);
      if second.Err? {
        return second, limit;
      }
      return Ok(first.txns + second.txns + Flatten(p.inline)), limit;
    }
    var only := p.proofs.Process(content, timestamp, answers);
    if only.Err? {
      return only, limit;
    }
    return Ok(only.txns + Flatten(Inline(p))), limit;
  }

  lemma OneOrTwoGroups(content: Digest -> seq<Txn>, groups: seq<seq<BatchInfo>>, timestamp: nat)
    requires 1 <= |groups| <= 2
    ensures AllGroups(content, groups, timestamp) ==
            GroupTxns(content, groups[0], timestamp) +
            if |groups| == 2 then GroupTxns(content, groups[1], timestamp) else []
  {
    if |groups| == 2 {
      assert groups[..1][..0] == [];
      assert AllGroups(content, groups[..1], timestamp) == [] + GroupTxns(content, groups[0], timestamp);
    } else {
      assert groups[..0] == [];
    }
  }
}
