/** From ordered blocks to executed blocks: the path a replica executes when a block is
    ordered, sent in pieces, and the agreement of all replicas' ledgers. */
module Ledger {
  import opened Common
  import opened SafetyRules
  import opened ConsensusSafety

  /** Rounds grow and epochs stay along a block's ancestry. */
  predicate WellFormed(b: Block) {
    b.Block? ==> Round(b.qc.certified) < b.round && b.qc.certified.epoch == b.epoch && WellFormed(b.qc.certified)
  }

  /** The ancestors of `b`, itself included, above `round`: oldest first. */
  function Above(b: Block, round: nat): seq<Block> {
    if Round(b) <= round then [] else Above(Parent(b), round) + [b]
  }

  /** The highest ancestor of `b`, possibly itself, at or below `round`. */
  function AtOrBelow(b: Block, round: nat): Block {
    if Round(b) <= round then b else AtOrBelow(Parent(b), round)
  }

  /** All of `b`'s ancestry down to `AtOrBelow(b, round)` is in the tree. */
  predicate Present(blocks: set<Block>, b: Block, round: nat) {
    b in blocks && (Round(b) <= round || Present(blocks, Parent(b), round))
  }

  /** The whole chain after genesis. */
  function Chain(b: Block): seq<Block> {
    if b.Genesis? then [] else Chain(b.qc.certified) + [b]
  }

  lemma {:induction false} ExtendsMeetsRoot(b: Block, root: Block)
    requires WellFormed(b) && Round(root) <= Round(b)
    ensures Extends(b, root) <==> AtOrBelow(b, Round(root)) == root
    decreases b
  {
    if b.Genesis? || Round(b) == Round(root) {
      if Extends(b, root) && b != root {
        ExtendsRound(b.qc.certified, root);
      }
    } else if Round(b.qc.certified) < Round(root) {
      if Extends(b.qc.certified, root) {
        ExtendsRound(b.qc.certified, root);
      }
    } else {
      ExtendsMeetsRoot(b.qc.certified, root);
    }
  }

  lemma {:induction false} ExtendsRound(b: Block, root: Block)
    requires WellFormed(b) && Extends(b, root)
    ensures Round(root) <= Round(b) && WellFormed(root) && root.epoch == b.epoch
    decreases b
  {
    if b != root {
      ExtendsRound(b.qc.certified, root);
    }
  }

  /** The chain of a block is the chain of its root followed by the path from the root. */
  lemma {:induction false} ChainSplits(b: Block, round: nat)
    ensures Chain(b) == Chain(AtOrBelow(b, round)) + Above(b, round)
    decreases b
  {
    if Round(b) > round {
      ChainSplits(b.qc.certified, round);
    }
  }

  /** Cutting a path at one of its blocks. */
  lemma {:induction false} PathCut(b: Block, round: nat, i: nat)
    requires WellFormed(b) && i < |Above(b, round)|
    ensures var c := Above(b, round)[i];
            && WellFormed(c) && Round(c) > round
            && Above(c, round) == Above(b, round)[..i + 1]
            && Above(b, Round(c)) == Above(b, round)[i + 1..]
            && AtOrBelow(b, Round(c)) == c
            && AtOrBelow(c, round) == AtOrBelow(b, round)
    decreases b
  {
    var path := Above(b, round);
    if i < |path| - 1 {
      var parent := b.qc.certified;
      PathCut(parent, round, i);
      PathRounds(parent, round, i);
      assert path[..|path| - 1] == Above(parent, round);
      assert path[..i + 1] == Above(parent, round)[..i + 1];
      assert path[i + 1..] == Above(parent, round)[i + 1..] + [b];
    } else {
      assert path[..i + 1] == path && path[i + 1..] == [];
    }
  }

  lemma {:induction false} PathRounds(b: Block, round: nat, i: nat)
    requires WellFormed(b) && i < |Above(b, round)|
    ensures Round(Above(b, round)[i]) <= Round(b)
    decreases b
  {
    if i < |Above(b, round)| - 1 {
      PathRounds(b.qc.certified, round, i);
    }
  }

  lemma {:induction false} PresentAlong(blocks: set<Block>, b: Block, round: nat, i: nat)
    requires Present(blocks, b, round) && i < |Above(b, round)| && WellFormed(b)
    ensures Present(blocks, Above(b, round)[i], round)
    decreases b
  {
    if i < |Above(b, round)| - 1 {
      PresentAlong(blocks, b.qc.certified, round, i);
    }
  }

  lemma {:induction false} PresentAbove(blocks: set<Block>, b: Block, round: nat, higher: nat)
    requires Present(blocks, b, round) && round <= higher
    ensures Present(blocks, b, higher)
    decreases b
  {
    if Round(b) > higher {
      PresentAbove(blocks, b.qc.certified, round, higher);
    }
  }

  /** In a tree linked down to `base`, a block that extends the ordered root is connected to it. */
  lemma {:induction false} ExtendsIsPresent(blocks: set<Block>, base: Block, b: Block, root: Block)
    requires root in blocks && Round(base) <= Round(root) && b in blocks && Extends(b, root)
    requires forall c :: c in blocks ==> WellFormed(c) && Linked(blocks, base, c)
    ensures Present(blocks, b, Round(root))
    decreases b
  {
    if b != root {
      ExtendsRound(b.qc.certified, root);
      if b.qc.certified in blocks {
        ExtendsIsPresent(blocks, base, b.qc.certified, root);
      }
    }
  }

  /** The genesis block whose children are accepted without it. */
  const GENESIS_BLOCK: Block := Genesis(1)

  predicate Linked(blocks: set<Block>, base: Block, b: Block) {
    b == base || b.Genesis? || b.qc.certified in blocks || b.qc.certified == GENESIS_BLOCK
  }

  /** A send of an ordered block to a replica; `ready` when the replica sent it on. */
  datatype Delivery = Delivery(block: Block, ready: bool)

  /** The ordered root, and everything executed up to it. */
  datatype Replica = Replica(root: Block, ledger: seq<Block>)

  ghost function Deliver(s: Replica, d: Delivery): Replica {
    if d.ready && Round(d.block) > Round(s.root) && Extends(d.block, s.root)
    then Replica(d.block, s.ledger + Above(d.block, Round(s.root)))
    else s
  }

  /** A replica that started with root `base`, its chain executed, after some sends. */
  ghost function Replay(base: Block, history: seq<Delivery>): Replica {
    if history == [] then Replica(base, Chain(base))
    else Deliver(Replay(base, history[..|history| - 1]), history[|history| - 1])
  }

  lemma ReplayOne(base: Block, history: seq<Delivery>, d: Delivery)
    ensures Replay(base, history + [d]) == Deliver(Replay(base, history), d)
  {
    assert (history + [d])[..|history|] == history;
  }

  datatype SendResult = Sent | BlockNotFound | RoundTooLow | NoPath | Deferred

  /** The block store of one replica: the tree, its ordered root, and the blocks handed to execution
      since it started from `base`. */
  class BlockStore {
    const base: Block
    var blocks: set<Block>
    var orderedRoot: Block
    var executed: seq<Block>
    ghost var history: seq<Delivery>

    ghost function Abs(): Replica
      reads this
    {
      Replica(orderedRoot, Chain(base) + executed)
    }

    ghost predicate Valid()
      reads this
    {
      && orderedRoot in blocks && Round(base) <= Round(orderedRoot)
      && (forall b :: b in blocks ==> WellFormed(b) && Linked(blocks, base, b))
      && Abs() == Replay(base, history)
    }

    constructor (root: Block)
      requires WellFormed(root)
      ensures Valid() && base == root && blocks == {root} && orderedRoot == root && executed == [] && history == []
    {
      base, blocks, orderedRoot, executed := root, {root}, root, [];
      history := [];
      new;
      assert Chain(base) + [] == Chain(base);
    }

    /** `insert_block`, for a block whose own round and epoch fit its parent's: it must link to the tree. */
    method InsertBlock(b: Block) returns (ok: bool)
      requires Valid() && b.Block? && Round(b.qc.certified) < b.round && b.qc.certified.epoch == b.epoch
      modifies this`blocks
      ensures Valid() && old(blocks) <= blocks <= old(blocks) + {b}
      ensures ok <==> b in blocks
      ensures ok <==> b in old(blocks) || b.qc.certified in old(blocks) || b.qc.certified == GENESIS_BLOCK
    {
      if b in blocks {
        return true;
      }
      if b.qc.certified !in blocks && b.qc.certified != GENESIS_BLOCK {
        return false;
      }
      blocks := blocks + {b};
      return true;
    }

    /** `path_from_root_to_block`: walk the parents, newest first, then reverse. */
    method PathFromRoot(b: Block, root: Block, rootRound: nat) returns (r: Option<seq<Block>>)
      ensures r.Some? <==> Present(blocks, b, rootRound) && AtOrBelow(b, rootRound) == root
      ensures r.Some? ==> r.value == Above(b, rootRound)
    {
      var res := [];
      var cur := b;
      while cur in blocks && Round(cur) > rootRound
        invariant Above(b, rootRound) == Above(cur, rootRound) + res
        invariant AtOrBelow(b, rootRound) == AtOrBelow(cur, rootRound)
        invariant Present(blocks, b, rootRound) <==> Present(blocks, cur, rootRound)
        decreases cur
      {
        res := [cur] + res;
        cur := cur.qc.certified;
      }
      if cur !in blocks || cur != root {
        return None;
      }
      return Some(res);
    }

    /** `send_for_execution` on the live path: the ordered block's whole path goes to execution,
        one piece per block that has a proof of its own (`hasProof`), the rest riding along
        with the next piece. However it is cut, execution receives the path once and in order. */
    method SendForExecution(b: Block, batchCommitSize: nat, hasProof: Block -> bool) returns (r: SendResult)
      requires Valid()
      modifies this`orderedRoot, this`executed, this`history
      ensures Valid() && history == old(history) + [Delivery(b, r.Sent?)]
      ensures Abs() == Deliver(old(Abs()), Delivery(b, r.Sent?))
      ensures r.BlockNotFound? <==> b !in blocks
      ensures r.RoundTooLow? <==> b in blocks && Round(b) <= Round(old(orderedRoot))
      ensures r.NoPath? <==> b in blocks && Round(b) > Round(old(orderedRoot)) && !Extends(b, old(orderedRoot))
      ensures r.Deferred? <==>
                && b in blocks && Round(b) > Round(old(orderedRoot)) && Extends(b, old(orderedRoot))
                && |Above(b, Round(old(orderedRoot)))| <= batchCommitSize
      ensures r.Sent? ==> orderedRoot == b && executed == old(executed) + Above(b, Round(old(orderedRoot)))
      ensures !r.Sent? ==> orderedRoot == old(orderedRoot) && executed == old(executed)
    {
      var toCommit;
      r, toCommit := Plan(b, batchCommitSize);
      if r.Sent? {
        SendPieces(b, toCommit, hasProof);
        assert Chain(base) + (old(executed) + toCommit) == Chain(base) + old(executed) + toCommit;
      }
      ReplayOne(base, history, Delivery(b, r.Sent?));
      history := history + [Delivery(b, r.Sent?)];
    }

    /** The checks of `SendForExecution`, and the path it will send. */
    method Plan(b: Block, batchCommitSize: nat) returns (r: SendResult, toCommit: seq<Block>)
      requires Valid()
      ensures r.BlockNotFound? <==> b !in blocks
      ensures r.RoundTooLow? <==> b in blocks && Round(b) <= Round(orderedRoot)
      ensures r.NoPath? <==> b in blocks && Round(b) > Round(orderedRoot) && !Extends(b, orderedRoot)
      ensures r.Deferred? <==>
                && b in blocks && Round(b) > Round(orderedRoot) && Extends(b, orderedRoot)
                && |Above(b, Round(orderedRoot))| <= batchCommitSize
      ensures r.Sent? ==>
                && toCommit == Above(b, Round(orderedRoot))
                && Present(blocks, b, Round(orderedRoot)) && AtOrBelow(b, Round(orderedRoot)) == orderedRoot
    {
      toCommit := [];
      if b !in blocks {
        return BlockNotFound, toCommit;
      }
      if Round(b) <= Round(orderedRoot) {
        return RoundTooLow, toCommit;
      }
      ExtendsMeetsRoot(b, orderedRoot);
      if Extends(b, orderedRoot) {
        ExtendsIsPresent(blocks, base, b, orderedRoot);
      }
      var path := PathFromRoot(b, orderedRoot, Round(orderedRoot));
      if path.None? || path.value == [] {
        return NoPath, toCommit;
      }
      toCommit := path.value;
      if batchCommitSize > 0 && |toCommit| <= batchCommitSize {
        return Deferred, toCommit;
      }
      return Sent, toCommit;
    }

    /** The loop of `SendForExecution`: one piece per block with a proof. */
    method SendPieces(b: Block, toCommit: seq<Block>, hasProof: Block -> bool)
      requires WellFormed(b) && Round(b) > Round(orderedRoot) && toCommit == Above(b, Round(orderedRoot))
      requires Present(blocks, b, Round(orderedRoot)) && AtOrBelow(b, Round(orderedRoot)) == orderedRoot
      modifies this`orderedRoot, this`executed
      ensures orderedRoot == b && executed == old(executed) + toCommit
    {
      ghost var root := orderedRoot;
      var i := 0;
      ghost var sent := 0;
      while i < |toCommit|
        invariant 0 <= sent <= i <= |toCommit|
        invariant executed == old(executed) + toCommit[..sent]
        invariant orderedRoot == if sent == 0 then root else toCommit[sent - 1]
        invariant i == |toCommit| ==> sent == i
      {
        var block := toCommit[i];
        if block == b || hasProof(block) {
          PieceBetween(blocks, b, root, sent, i);
          var piece := PathFromRoot(block, orderedRoot, Round(orderedRoot));
          if piece.Some? && piece.value != [] {
            executed := executed + piece.value;
            orderedRoot := block;
            assert toCommit[..sent] + toCommit[sent..i + 1] == toCommit[..i + 1];
            sent := i + 1;
          }
        }
        i := i + 1;
      }
      assert toCommit[..|toCommit|] == toCommit;
    }
  }

  /** The path from the last block sent to the next one with a proof is the unsent stretch between them. */
  lemma PieceBetween(blocks: set<Block>, b: Block, root: Block, sent: nat, i: nat)
    requires WellFormed(b) && Present(blocks, b, Round(root)) && AtOrBelow(b, Round(root)) == root
    requires var path := Above(b, Round(root)); sent <= i < |path|
    ensures var path := Above(b, Round(root));
            var from := if sent == 0 then root else path[sent - 1];
            && Above(path[i], Round(from)) == path[sent..i + 1]
            && AtOrBelow(path[i], Round(from)) == from
            && Present(blocks, path[i], Round(from)) && path[i] in blocks
  {
    var path := Above(b, Round(root));
    PathCut(b, Round(root), i);
    PresentAlong(blocks, b, Round(root), i);
    if sent > 0 {
      var c := path[i];
      assert Above(c, Round(root)) == path[..i + 1];
      PathCut(c, Round(root), sent - 1);
      assert path[..i + 1][sent - 1] == path[sent - 1] && path[..i + 1][sent..] == path[sent..i + 1];
      PresentAbove(blocks, c, Round(root), Round(path[sent - 1]));
    }
  }

  // ---------------------------------------------------------------- agreement of ledgers

  /** Everything delivered in `epoch` was ordered at some point of the run. */
  ghost predicate Delivered(cfg: Config, n: Network, epoch: nat, history: seq<Delivery>) {
    forall d :: d in history ==> Ordered(cfg, n, d.block) && d.block.epoch == epoch
  }

  /** A root to start an epoch from: its genesis, or a block ordered in it. */
  ghost predicate StartsFrom(cfg: Config, n: Network, epoch: nat, base: Block) {
    base == Genesis(epoch) || (Ordered(cfg, n, base) && base.epoch == epoch)
  }

  lemma {:induction false} CertifiedWellFormed(cfg: Config, n: Network, b: Block)
    requires Tolerable(cfg) && Inv(cfg, n) && Certified(cfg, n, b)
    ensures WellFormed(b)
    decreases b
  {
    if b.Block? {
      CertifiedIsJustified(cfg, n, b);
      CertifiedWellFormed(cfg, n, b.qc.certified);
    }
  }

  /** A replica's ledger is the chain of its ordered root, and its root is certified. */
  lemma {:induction false} LedgerIsChain(cfg: Config, n: Network, epoch: nat, base: Block, history: seq<Delivery>)
    requires Tolerable(cfg) && Inv(cfg, n) && StartsFrom(cfg, n, epoch, base) && Delivered(cfg, n, epoch, history)
    ensures var s := Replay(base, history);
            s.ledger == Chain(s.root) && StartsFrom(cfg, n, epoch, s.root) && Certified(cfg, n, s.root)
  {
    if history == [] {
      if base != Genesis(epoch) {
        OrderedIsCertified(cfg, n, base);
      }
    } else {
      var before, d := history[..|history| - 1], history[|history| - 1];
      LedgerIsChain(cfg, n, epoch, base, before);
      var s := Replay(base, before);
      OrderedIsCertified(cfg, n, d.block);
      CertifiedWellFormed(cfg, n, d.block);
      if Round(d.block) > Round(s.root) {
        ExtendsMeetsRoot(d.block, s.root);
        ChainSplits(d.block, Round(s.root));
      }
    }
  }

  lemma {:induction false} ExtendsChain(b: Block, root: Block)
    requires Extends(b, root)
    ensures Chain(root) <= Chain(b)
    decreases b
  {
    if b != root {
      ExtendsChain(b.qc.certified, root);
    }
  }

  lemma {:induction false} ExtendsGenesis(b: Block)
    requires WellFormed(b)
    ensures Extends(b, Genesis(b.epoch))
    decreases b
  {
    if b.Block? {
      ExtendsGenesis(b.qc.certified);
    }
  }

  /** An ordered block above a replica's root always extends it. */
  lemma OrderedRootIsAncestor(cfg: Config, events: seq<Event>, epoch: nat, base: Block, history: seq<Delivery>,
                              b: Block)
    requires var n := Run(cfg, events);
             Tolerable(cfg) && StartsFrom(cfg, n, epoch, base) && Delivered(cfg, n, epoch, history)
    requires Ordered(cfg, Run(cfg, events), b) && b.epoch == epoch && Round(b) > Round(Replay(base, history).root)
    ensures Extends(b, Replay(base, history).root)
  {
    var n, root := Run(cfg, events), Replay(base, history).root;
    InvHolds(cfg, events);
    LedgerIsChain(cfg, n, epoch, base, history);
    OrderedIsCertified(cfg, n, b);
    if root == Genesis(epoch) {
      CertifiedWellFormed(cfg, n, b);
      ExtendsGenesis(b);
    } else {
      CertifiedExtendsOrdered(cfg, n, root, b);
    }
  }

  /** So a block store that was only ever asked to send ordered blocks never answers `NoPath`: an
      ordered block in the tree above its root is sent or deferred. */
  lemma OrderedBlockConnects(store: BlockStore, cfg: Config, events: seq<Event>, epoch: nat, b: Block)
    requires var n := Run(cfg, events);
             && store.Valid() && Tolerable(cfg) && StartsFrom(cfg, n, epoch, store.base)
             && Delivered(cfg, n, epoch, store.history) && Ordered(cfg, n, b) && b.epoch == epoch
    requires Round(b) > Round(store.orderedRoot)
    ensures Extends(b, store.orderedRoot)
  {
    OrderedRootIsAncestor(cfg, events, epoch, store.base, store.history, b);
  }

  /** State-machine agreement: in every run, of any two replicas' ledgers in an epoch one is a prefix
      of the other, wherever each started, whatever was sent to each and in whatever order. */
  lemma LedgersAgree(cfg: Config, events: seq<Event>, epoch: nat,
                     base1: Block, h1: seq<Delivery>, base2: Block, h2: seq<Delivery>)
    requires var n := Run(cfg, events);
             && Tolerable(cfg) && StartsFrom(cfg, n, epoch, base1) && StartsFrom(cfg, n, epoch, base2)
             && Delivered(cfg, n, epoch, h1) && Delivered(cfg, n, epoch, h2)
    ensures || Replay(base1, h1).ledger <= Replay(base2, h2).ledger
            || Replay(base2, h2).ledger <= Replay(base1, h1).ledger
  {
    var n := Run(cfg, events);
    var b, c := Replay(base1, h1).root, Replay(base2, h2).root;
    InvHolds(cfg, events);
    LedgerIsChain(cfg, n, epoch, base1, h1);
    LedgerIsChain(cfg, n, epoch, base2, h2);
    CertifiedWellFormed(cfg, n, b);
    CertifiedWellFormed(cfg, n, c);
    if b == Genesis(epoch) {
      ExtendsGenesis(c);
      ExtendsChain(c, b);
    } else if c == Genesis(epoch) {
      ExtendsGenesis(b);
      ExtendsChain(b, c);
    } else {
      OrderedBlocksAgree(cfg, events, b, c);
      if Extends(b, c) { ExtendsChain(b, c); } else { ExtendsChain(c, b); }
    }
  }

  /** The same for block stores: what they executed, on top of the chains they started from. */
  lemma StoresAgree(s1: BlockStore, s2: BlockStore, cfg: Config, events: seq<Event>, epoch: nat)
    requires s1.Valid() && s2.Valid() && Tolerable(cfg)
    requires var n := Run(cfg, events);
             && StartsFrom(cfg, n, epoch, s1.base) && StartsFrom(cfg, n, epoch, s2.base)
             && Delivered(cfg, n, epoch, s1.history) && Delivered(cfg, n, epoch, s2.history)
    ensures || Chain(s1.base) + s1.executed <= Chain(s2.base) + s2.executed
            || Chain(s2.base) + s2.executed <= Chain(s1.base) + s1.executed
  {
    LedgersAgree(cfg, events, epoch, s1.base, s1.history, s2.base, s2.history);
  }
}
