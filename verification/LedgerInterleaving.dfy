/** Concurrent sends for execution. A send hands a path to execution, waits, and only then moves the
    ordered root; another send may compute its path from the old root meanwhile. Execution receives
    every block once exactly when no send starts a piece while another is waiting. */
module LedgerInterleaving {
  import opened SafetyRules
  import opened ConsensusSafety
  import opened Ledger

  /** The ordered root, what execution received, and the block each waiting piece will make the root. */
  datatype Store = Store(root: Block, received: seq<Block>, waiting: map<nat, Block>)

  /** A piece is handed to execution; its wait is over. */
  datatype Event = Hand(id: nat, block: Block) | Resume(id: nat)

  /** The piece has a path of its own, so it is handed over. */
  ghost predicate Hands(s: Store, ev: Event) {
    ev.Hand? && ev.id !in s.waiting && Round(ev.block) > Round(s.root) && Extends(ev.block, s.root)
  }

  ghost function Step(s: Store, ev: Event): Store {
    if Hands(s, ev) then
      Store(s.root, s.received + Above(ev.block, Round(s.root)), s.waiting[ev.id := ev.block])
    else if ev.Resume? && ev.id in s.waiting then
      Store(s.waiting[ev.id], s.received, s.waiting - {ev.id})
    else s
  }

  ghost function Run(base: Block, events: seq<Event>): Store {
    if events == [] then Store(base, [], map[])
    else Step(Run(base, events[..|events| - 1]), events[|events| - 1])
  }

  /** No piece is handed over while another waits. */
  ghost predicate OneAtATime(base: Block, events: seq<Event>) {
    events != [] ==>
      var before, ev := events[..|events| - 1], events[|events| - 1];
      OneAtATime(base, before) && (Hands(Run(base, before), ev) ==> Run(base, before).waiting == map[])
  }

  /** The blocks sent are on one chain, as ordered blocks are. */
  ghost predicate OnOneChain(base: Block, events: seq<Event>) {
    && WellFormed(base)
    && (forall ev :: ev in events && ev.Hand? ==> WellFormed(ev.block))
    && (forall x, y :: x in events && y in events && x.Hand? && y.Hand? ==>
          Extends(x.block, y.block) || Extends(y.block, x.block))
  }

  predicate Once(s: seq<Block>) {
    forall i, j :: 0 <= i < j < |s| ==> s[i] != s[j]
  }

  // ---------------------------------------------------------------- chains

  lemma {:induction false} ChainRounds(b: Block, i: nat)
    requires WellFormed(b) && i < |Chain(b)|
    ensures Round(Chain(b)[i]) <= Round(b)
    decreases b
  {
    if i < |Chain(b)| - 1 {
      ChainRounds(b.qc.certified, i);
    }
  }

  lemma {:induction false} ChainOnce(b: Block)
    requires WellFormed(b)
    ensures Once(Chain(b))
    decreases b
  {
    if b.Block? {
      ChainOnce(b.qc.certified);
      forall i | 0 <= i < |Chain(b)| - 1
        ensures Chain(b)[i] != b
      {
        ChainRounds(b.qc.certified, i);
      }
    }
  }

  /** An ancestor above a round is on the path above it. */
  lemma {:induction false} AncestorAbove(b: Block, x: Block, round: nat)
    requires WellFormed(b) && Extends(b, x) && Round(x) > round
    ensures x in Above(b, round)
    decreases b
  {
    ExtendsRound(b, x);
    if b != x {
      AncestorAbove(b.qc.certified, x, round);
    }
  }

  // ---------------------------------------------------------------- one piece at a time

  /** What was executed before and since is the chain of `top`. */
  ghost predicate ChainOf(base: Block, s: Store, top: Block) {
    WellFormed(top) && Round(base) <= Round(top) && Chain(base) + s.received == Chain(top)
  }

  /** Nothing waits and the chain of the root was received; or one piece waits and the chain of its
      block, which extends the root, was. */
  ghost predicate Orderly(base: Block, events: seq<Event>, s: Store) {
    || (s.waiting == map[] && ChainOf(base, s, s.root))
    || (exists id :: WaitsAlone(base, events, s, id))
  }

  ghost predicate WaitsAlone(base: Block, events: seq<Event>, s: Store, id: nat) {
    && id in s.waiting && s.waiting == map[id := s.waiting[id]] && ChainOf(base, s, s.waiting[id])
    && Round(base) <= Round(s.root) < Round(s.waiting[id])
    && exists ev :: ev in events && ev.Hand? && ev.block == s.waiting[id]
  }

  lemma HandOver(base: Block, s: Store, b: Block)
    requires ChainOf(base, s, s.root) && WellFormed(b) && Round(b) > Round(s.root) && Extends(b, s.root)
    ensures ChainOf(base, s.(received := s.received + Above(b, Round(s.root))), b)
  {
    ExtendsMeetsRoot(b, s.root);
    ChainSplits(b, Round(s.root));
    assert Chain(base) + (s.received + Above(b, Round(s.root))) == Chain(s.root) + Above(b, Round(s.root));
  }

  lemma OrderlyStep(base: Block, events: seq<Event>, s: Store, ev: Event)
    requires Orderly(base, events, s) && (ev.Hand? ==> WellFormed(ev.block))
    requires Hands(s, ev) ==> s.waiting == map[]
    ensures Orderly(base, events + [ev], Step(s, ev))
  {
    var t, all := Step(s, ev), events + [ev];
    if Hands(s, ev) {
      HandOver(base, s, ev.block);
      assert ev in all;
      assert WaitsAlone(base, all, t, ev.id);
    } else if s.waiting != map[] {
      var id :| WaitsAlone(base, events, s, id);
      if t == s {
        var handed :| handed in events && handed.Hand? && handed.block == s.waiting[id];
        assert handed in all;
        assert WaitsAlone(base, all, t, id);
      } else {
        assert t.waiting == map[];
      }
    }
  }

  lemma {:induction false} OrderlyRun(base: Block, events: seq<Event>)
    requires OnOneChain(base, events) && OneAtATime(base, events)
    ensures Orderly(base, events, Run(base, events))
  {
    if events == [] {
      assert Chain(base) + [] == Chain(base);
    } else {
      var last := |events| - 1;
      var before, ev := events[..last], events[last];
      PrefixOnOneChain(base, events, last);
      OrderlyRun(base, before);
      assert before + [ev] == events;
      OrderlyStep(base, before, Run(base, before), ev);
    }
  }

  lemma OrderlyOnce(base: Block, events: seq<Event>, s: Store)
    requires Orderly(base, events, s)
    ensures Once(s.received)
  {
    var top := s.root;
    if s.waiting != map[] {
      var id :| WaitsAlone(base, events, s, id);
      top := s.waiting[id];
    }
    ChainOnce(top);
    SuffixOnce(Chain(base), s.received);
  }

  lemma SuffixOnce(before: seq<Block>, after: seq<Block>)
    requires Once(before + after)
    ensures Once(after)
  {
    forall i, j | 0 <= i < j < |after|
      ensures after[i] != after[j]
    {
      assert (before + after)[|before| + i] != (before + after)[|before| + j];
    }
  }

  // ---------------------------------------------------------------- overlapping pieces

  /** A block above the starting root on the received chain was received. */
  lemma ReceivedAbove(base: Block, s: Store, top: Block, x: Block)
    requires WellFormed(base) && ChainOf(base, s, top) && Extends(top, x) && Round(x) > Round(base)
    ensures x in s.received
  {
    ExtendsRound(top, x);
    AncestorAbove(top, x, 0);
    ChainSplits(top, 0);
    assert x in Chain(top);
    var i :| 0 <= i < |Chain(top)| && Chain(top)[i] == x;
    if i < |Chain(base)| {
      assert Chain(base)[i] == x;
      ChainRounds(base, i);
    } else {
      assert s.received[i - |Chain(base)|] == x;
    }
  }

  /** A piece handed over while another waits repeats a block. */
  lemma OverlapRepeats(base: Block, events: seq<Event>, s: Store, ev: Event)
    requires Orderly(base, events, s) && Hands(s, ev) && s.waiting != map[] && OnOneChain(base, events + [ev])
    ensures !Once(Step(s, ev).received)
  {
    var id :| WaitsAlone(base, events, s, id);
    var a, b := s.waiting[id], ev.block;
    var handed :| handed in events && handed.Hand? && handed.block == a;
    assert handed in events + [ev] && ev in events + [ev];
    var x := if Extends(b, a) then a else b;
    ReceivedAbove(base, s, a, x);
    AncestorAbove(b, x, Round(s.root));
    var path := Above(b, Round(s.root));
    var i :| 0 <= i < |s.received| && s.received[i] == x;
    var j :| 0 <= j < |path| && path[j] == x;
    assert (s.received + path)[i] == (s.received + path)[|s.received| + j];
  }

  lemma StepReceives(s: Store, ev: Event)
    ensures Once(Step(s, ev).received) ==> Once(s.received)
  {
    var t := Step(s, ev);
    assert forall i :: 0 <= i < |s.received| ==> t.received[i] == s.received[i];
  }

  lemma PrefixOnOneChain(base: Block, events: seq<Event>, n: nat)
    requires n <= |events| && OnOneChain(base, events)
    ensures OnOneChain(base, events[..n])
  {
    assert forall ev :: ev in events[..n] ==> ev in events;
  }

  /** Execution receives no block twice if and only if pieces are handed over one at a time. */
  lemma {:induction false} ReceivedOnceIff(base: Block, events: seq<Event>)
    requires OnOneChain(base, events)
    ensures Once(Run(base, events).received) <==> OneAtATime(base, events)
  {
    if events != [] {
      var last := |events| - 1;
      var before, ev := events[..last], events[last];
      PrefixOnOneChain(base, events, last);
      ReceivedOnceIff(base, before);
      var s := Run(base, before);
      StepReceives(s, ev);
      assert before + [ev] == events;
      if OneAtATime(base, events) {
        OrderlyRun(base, events);
        OrderlyOnce(base, events, Run(base, events));
      } else if OneAtATime(base, before) {
        OrderlyRun(base, before);
        OverlapRepeats(base, before, s, ev);
      }
    }
  }

  /** One at a time, with nothing waiting, execution has received exactly the chain of the root. */
  lemma ReceivedIsChain(base: Block, events: seq<Event>)
    requires OnOneChain(base, events) && OneAtATime(base, events) && Run(base, events).waiting == map[]
    ensures Chain(base) + Run(base, events).received == Chain(Run(base, events).root)
  {
    OrderlyRun(base, events);
  }

  /** One block sent twice before either wait is over reaches execution twice. */
  lemma OverlapCanRepeat()
    ensures var base := Genesis(1);
            var b := Block(1, 1, QuorumCert(base, {}), 0);
            Run(base, [Hand(1, b), Hand(2, b)]).received == [b, b]
  {
    var base := Genesis(1);
    var b := Block(1, 1, QuorumCert(base, {}), 0);
    var first, second := Hand(1, b), Hand(2, b);
    assert [first][..0] == [] && [first, second][..1] == [first];
    assert Above(b, 0) == Above(base, 0) + [b] == [b];
    assert Run(base, []) == Store(base, [], map[]);
    assert Run(base, [first]) == Store(base, [b], map[1 := b]);
  }

  /** Ordered blocks of one epoch are on one chain. */
  lemma OrderedOnOneChain(cfg: Config, run: seq<ConsensusSafety.Event>, epoch: nat, base: Block, events: seq<Event>)
    requires var n := ConsensusSafety.Run(cfg, run);
             && Tolerable(cfg) && StartsFrom(cfg, n, epoch, base)
             && forall ev :: ev in events && ev.Hand? ==> Ordered(cfg, n, ev.block) && ev.block.epoch == epoch
    ensures OnOneChain(base, events)
  {
    var n := ConsensusSafety.Run(cfg, run);
    InvHolds(cfg, run);
    if base.Block? {
      OrderedIsCertified(cfg, n, base);
      CertifiedWellFormed(cfg, n, base);
    }
    forall ev | ev in events && ev.Hand?
      ensures WellFormed(ev.block)
    {
      OrderedIsCertified(cfg, n, ev.block);
      CertifiedWellFormed(cfg, n, ev.block);
    }
    forall x, y | x in events && y in events && x.Hand? && y.Hand?
      ensures Extends(x.block, y.block) || Extends(y.block, x.block)
    {
      OrderedBlocksAgree(cfg, run, x.block, y.block);
    }
  }
}
