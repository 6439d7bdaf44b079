/** Restart from the consensus database: order the stored blocks, take out the root, choose its
    certificates, and prune what does not descend from it. */
module Recovery {
  import opened Common
  import SR = SafetyRules

  type Id = nat

  const GENESIS_ROUND: nat := 0
  const PLACEHOLDER_STATE: nat := 0
  const ZERO_ID: Id := 0

  datatype EpochBlockInfo = EpochBlockInfo(blockNumber: nat, startTimestamp: nat)

  datatype BlockInfo = BlockInfo(epoch: nat, round: nat, id: Id, stateId: nat, version: nat, timestamp: nat,
                                 nextEpochState: Option<nat>, epochBlock: Option<EpochBlockInfo>)

  const EMPTY_INFO: BlockInfo := BlockInfo(0, 0, ZERO_ID, 0, 0, 0, None, None)

  datatype LedgerInfo = LedgerInfo(commit: BlockInfo, blockHash: nat, blockNumber: nat, waypointVersion: nat)

  datatype Block = Block(epoch: nat, round: nat, id: Id, parentId: Id, blockNumber: Option<nat>, timestamp: nat)

  datatype QuorumCert = QuorumCert(certified: BlockInfo, parent: BlockInfo, ledger: LedgerInfo)

  /** Vote data is a dummy when order votes are enabled. */
  datatype VoteData = Dummy | VoteData(proposed: BlockInfo, parent: BlockInfo)

  datatype WrappedLedgerInfo = WrappedLedgerInfo(voteData: VoteData, ledger: LedgerInfo)

  /** The two functions of other crates that recovery relies on. */
  datatype Env = Env(genesisId: LedgerInfo -> Id, matchOrderedOnly: (BlockInfo, BlockInfo) -> bool)

  datatype Error = RootNotFound | NoQuorumCert | NoLedgerInfo | InconsistentCommit

  datatype Certs = Certs(ordered: WrappedLedgerInfo, commit: WrappedLedgerInfo)

  datatype RootInfo = RootInfo(block: Block, quorumCert: QuorumCert, certs: Certs)

  datatype Result<+T> = Ok(value: T) | Err(error: Error)

  // ---------------------------------------------------------------- sorting by (epoch, round)

  predicate KeyLess(a: Block, b: Block) {
    a.epoch < b.epoch || (a.epoch == b.epoch && a.round < b.round)
  }

  predicate SameKey(a: Block, b: Block) { a.epoch == b.epoch && a.round == b.round }

  ghost predicate Sorted(s: seq<Block>) {
    forall i, j :: 0 <= i < j < |s| ==> !KeyLess(s[j], s[i])
  }

  /** The blocks with a given block's key, in order. */
  function AtKey(s: seq<Block>, k: Block): seq<Block> {
    if s == [] then [] else (if SameKey(s[0], k) then [s[0]] else []) + AtKey(s[1..], k)
  }

  /** What a stable sort by (epoch, round) returns: sorted, and equal keys keep their order. */
  ghost predicate StablySorts(s: seq<Block>, input: seq<Block>) {
    Sorted(s) && forall k :: AtKey(s, k) == AtKey(input, k)
  }

  function Insert(b: Block, s: seq<Block>): seq<Block> {
    if s == [] || !KeyLess(s[0], b) then [b] + s else [s[0]] + Insert(b, s[1..])
  }

  function SortByKey(s: seq<Block>): seq<Block> {
    if s == [] then [] else Insert(s[0], SortByKey(s[1..]))
  }

  lemma {:induction false} InsertPermutes(b: Block, s: seq<Block>)
    ensures multiset(Insert(b, s)) == multiset{b} + multiset(s)
  {
    if s != [] {
      assert s == [s[0]] + s[1..];
      if KeyLess(s[0], b) {
        InsertPermutes(b, s[1..]);
      }
    }
  }

  lemma {:induction false} InsertSorts(b: Block, s: seq<Block>)
    requires Sorted(s)
    ensures Sorted(Insert(b, s))
  {
    if s != [] && KeyLess(s[0], b) {
      InsertSorts(b, s[1..]);
      InsertPermutes(b, s[1..]);
      forall x | x in Insert(b, s[1..])
        ensures !KeyLess(x, s[0])
      {
        assert x in multiset(Insert(b, s[1..]));
      }
    }
  }

  lemma {:induction false} InsertIsStable(b: Block, s: seq<Block>, k: Block)
    requires Sorted(s)
    ensures AtKey(Insert(b, s), k) == AtKey([b] + s, k)
  {
    assert ([b] + s)[1..] == s;
    if s != [] && KeyLess(s[0], b) {
      InsertIsStable(b, s[1..], k);
      assert ([b] + s[1..])[1..] == s[1..];
    }
  }

  /** The sort is a stable sort, and a permutation. */
  lemma {:induction false} SortIsStable(s: seq<Block>)
    ensures StablySorts(SortByKey(s), s) && multiset(SortByKey(s)) == multiset(s)
  {
    if s != [] {
      var rest := SortByKey(s[1..]);
      SortIsStable(s[1..]);
      InsertSorts(s[0], rest);
      InsertPermutes(s[0], rest);
      assert s == [s[0]] + s[1..];
      forall k
        ensures AtKey(SortByKey(s), k) == AtKey(s, k)
      {
        InsertIsStable(s[0], rest, k);
        assert ([s[0]] + rest)[1..] == rest;
      }
    }
  }

  lemma {:induction false} AtKeyMember(s: seq<Block>, k: Block)
    ensures forall b :: b in AtKey(s, k) ==> b in s && SameKey(b, k)
    ensures k in s ==> k in AtKey(s, k)
  {
    if s != [] {
      AtKeyMember(s[1..], k);
    }
  }

  lemma HeadKeys(a: seq<Block>, b: seq<Block>)
    requires StablySorts(a, b) && Sorted(b) && a != []
    ensures b != [] && !KeyLess(a[0], b[0])
  {
    AtKeyMember(a, a[0]);
    AtKeyMember(b, a[0]);
    var x :| x in AtKey(b, a[0]);
    assert x in b && SameKey(x, a[0]);
  }

  /** A stable sort has one result, so the model's sort is the library's. */
  lemma {:induction false} StableSortUnique(a: seq<Block>, b: seq<Block>)
    requires StablySorts(a, b) && Sorted(b)
    ensures a == b
  {
    if a == [] {
      if b != [] {
        HeadKeys(b, a);
      }
    } else {
      HeadKeys(a, b);
      HeadKeys(b, a);
      assert AtKey(a, a[0]) == AtKey(b, a[0]);
      assert a[0] == AtKey(a, a[0])[0] == AtKey(b, a[0])[0] == b[0];
      forall k
        ensures AtKey(a[1..], k) == AtKey(b[1..], k)
      {
        assert AtKey(a, k) == AtKey(b, k);
        TailAtKey(a, k);
        TailAtKey(b, k);
      }
      StableSortUnique(a[1..], b[1..]);
    }
  }

  lemma TailAtKey(s: seq<Block>, k: Block)
    requires s != []
    ensures AtKey(s[1..], k) == if SameKey(s[0], k) then AtKey(s, k)[1..] else AtKey(s, k)
  {
  }

  // ---------------------------------------------------------------- the root and its certificates

  predicate EndsEpoch(li: LedgerInfo) { li.commit.nextEpochState.Some? }

  /** The virtual genesis block of the epoch after an epoch-ending ledger info. */
  function Genesis(env: Env, li: LedgerInfo): Block {
    var (number, time) := match li.commit.epochBlock
      case Some(e) => (e.blockNumber, e.startTimestamp)
      case None => (li.blockNumber, li.commit.timestamp);
    Block(li.commit.epoch + 1, GENESIS_ROUND, env.genesisId(li), ZERO_ID, Some(number), time)
  }

  function GenesisCert(env: Env, li: LedgerInfo): QuorumCert {
    var info := BlockInfo(li.commit.epoch + 1, GENESIS_ROUND, env.genesisId(li), li.blockHash, li.waypointVersion,
                          li.commit.timestamp, None, None);
    QuorumCert(info, info, LedgerInfo(info, li.blockHash, li.blockNumber, li.waypointVersion))
  }

  predicate TimestampOnlyMismatch(ordered: BlockInfo, executed: BlockInfo) {
    && ordered.round == GENESIS_ROUND
    && ordered.timestamp != executed.timestamp
    && ordered == executed.(timestamp := ordered.timestamp)
  }

  /** The mismatch tolerated is one of timestamps, at an epoch start, and of nothing else. */
  lemma ToleranceIsNarrow(x: BlockInfo, y: BlockInfo)
    ensures TimestampOnlyMismatch(x, y) <==>
            && x.epoch == y.epoch && x.round == GENESIS_ROUND && y.round == GENESIS_ROUND && x.id == y.id
            && x.stateId == y.stateId && x.version == y.version && x.nextEpochState == y.nextEpochState
            && x.epochBlock == y.epochBlock && x.timestamp != y.timestamp
  {
  }

  function Wrap(qc: QuorumCert): WrappedLedgerInfo {
    WrappedLedgerInfo(VoteData(qc.certified, qc.parent), qc.ledger)
  }

  /** Certificates chosen by `find_root`, for the latest ledger info. */
  function LedgerCerts(env: Env, root: Block, qcs: seq<QuorumCert>, latest: LedgerInfo, orderVotes: bool): Result<Certs>
  {
    if orderVotes then
      var cert := WrappedLedgerInfo(Dummy, latest);
      Ok(Certs(cert, cert))
    else
      match FirstCommitting(qcs, root.id)
      case None => Err(NoLedgerInfo)
      case Some(qc) =>
        if || env.matchOrderedOnly(qc.ledger.commit, latest.commit)
           || TimestampOnlyMismatch(qc.ledger.commit, latest.commit)
        then Ok(Certs(Wrap(qc), Wrap(qc).(ledger := latest)))
        else Err(InconsistentCommit)
  }

  function Placeholder(root: Block): WrappedLedgerInfo {
    var info := BlockInfo(root.epoch, root.round, root.id, PLACEHOLDER_STATE, 0, root.timestamp, None, None);
    WrappedLedgerInfo(VoteData(info, info), LedgerInfo(info, 0, 0, 0))
  }

  /** Certificates chosen by `find_root_by_block_number`. */
  function NumberCerts(env: Env, root: Block, rootQc: QuorumCert, qcs: seq<QuorumCert>, orderVotes: bool): Result<Certs>
  {
    if orderVotes then
      var cert := WrappedLedgerInfo(Dummy, rootQc.ledger);
      Ok(Certs(cert, cert))
    else
      match FirstCommitting(qcs, root.id)
      case None => Ok(Certs(Placeholder(root), Placeholder(root)))
      case Some(qc) =>
        if env.matchOrderedOnly(qc.ledger.commit, qc.ledger.commit) then Ok(Certs(Wrap(qc), Wrap(qc)))
        else Err(InconsistentCommit)
  }

  function FirstCommitting(qcs: seq<QuorumCert>, id: Id): (r: Option<QuorumCert>)
    ensures r.Some? <==> exists qc :: qc in qcs && qc.ledger.commit.id == id
    ensures r.Some? ==> r.value in qcs && r.value.ledger.commit.id == id
  {
    if qcs == [] then None else if qcs[0].ledger.commit.id == id then Some(qcs[0]) else FirstCommitting(qcs[1..], id)
  }

  function FirstCertifying(qcs: seq<QuorumCert>, id: Id): (r: Option<QuorumCert>)
    ensures r.Some? <==> exists qc :: qc in qcs && qc.certified.id == id
    ensures r.Some? ==> r.value in qcs && r.value.certified.id == id
  {
    if qcs == [] then None else if qcs[0].certified.id == id then Some(qcs[0]) else FirstCertifying(qcs[1..], id)
  }

  /** Both searches return the first match. */
  lemma {:induction false} SearchesAreFirst(qcs: seq<QuorumCert>, id: Id, i: nat)
    requires i < |qcs|
    ensures qcs[i].ledger.commit.id == id && (forall j :: 0 <= j < i ==> qcs[j].ledger.commit.id != id) ==>
            FirstCommitting(qcs, id) == Some(qcs[i])
    ensures qcs[i].certified.id == id && (forall j :: 0 <= j < i ==> qcs[j].certified.id != id) ==>
            FirstCertifying(qcs, id) == Some(qcs[i])
  {
    if i > 0 {
      SearchesAreFirst(qcs[1..], id, i - 1);
    }
  }

  /** Nodes that committed different suffixes after the reconfiguration start the epoch from the same
      block: it is fixed by the epoch and the reconfiguration block the ledger info names. */
  lemma GenesisIsDeterministic(env: Env, x: LedgerInfo, y: LedgerInfo)
    requires x.commit.epoch == y.commit.epoch && env.genesisId(x) == env.genesisId(y)
    requires x.commit.epochBlock.Some? && x.commit.epochBlock == y.commit.epochBlock
    ensures Genesis(env, x) == Genesis(env, y)
    ensures Genesis(env, x).blockNumber == Some(x.commit.epochBlock.value.blockNumber)
    ensures Genesis(env, x).timestamp == x.commit.epochBlock.value.startTimestamp
  {
  }

  /** The virtual genesis opens the next epoch, and its certificate certifies and commits it. */
  lemma GenesisIsCertified(env: Env, li: LedgerInfo)
    ensures var genesis, qc := Genesis(env, li), GenesisCert(env, li);
            && genesis.epoch == qc.certified.epoch == li.commit.epoch + 1
            && genesis.round == qc.certified.round == GENESIS_ROUND && genesis.id == qc.certified.id
            && Formed(qc) && qc.ledger.commit.id == genesis.id
            && qc.certified.stateId == li.blockHash && qc.certified.version == li.waypointVersion
            && qc.certified.timestamp == li.commit.timestamp && qc.certified.nextEpochState.None?
            && (li.commit.epochBlock.None? ==>
                genesis.blockNumber == Some(li.blockNumber) && genesis.timestamp == li.commit.timestamp)
  {
  }

  /** No stored block of another epoch bears the id of the virtual genesis, ids being hashes. */
  ghost predicate GenesisIdFree(env: Env, li: LedgerInfo, stored: seq<Block>) {
    forall b :: b in stored && b.id == env.genesisId(li) ==> b.epoch == li.commit.epoch + 1
  }

  /** What the block tree asserts of its root: both certificates commit it. */
  predicate NamesRoot(root: Block, certs: Certs) {
    certs.ordered.ledger.commit.id == root.id && certs.commit.ledger.commit.id == root.id
  }

  /** The root and the remaining blocks make up the stored blocks; the rest stays in tree order,
      and is the stable sort with the root taken out. */
  ghost predicate Splits(stored: seq<Block>, root: Block, rest: seq<Block>) {
    && Sorted(rest) && multiset(stored) == multiset{root} + multiset(rest)
    && exists i :: 0 <= i <= |rest| && rest[..i] + [root] + rest[i..] == SortByKey(stored)
  }

  lemma TakeOut(s: seq<Block>, i: nat)
    requires i < |s|
    ensures var rest := s[..i] + s[i + 1..];
            rest[..i] + [s[i]] + rest[i..] == s && multiset(s) == multiset{s[i]} + multiset(rest)
  {
    var rest := s[..i] + s[i + 1..];
    assert rest[..i] == s[..i] && rest[i..] == s[i + 1..];
    assert s == s[..i] + [s[i]] + s[i + 1..];
  }

  lemma TakeOutSorted(s: seq<Block>, i: nat)
    requires i < |s| && Sorted(s)
    ensures Sorted(s[..i] + s[i + 1..])
  {
  }

  lemma RemoveSplits(stored: seq<Block>, i: nat)
    requires i < |SortByKey(stored)|
    ensures var s := SortByKey(stored); Splits(stored, s[i], s[..i] + s[i + 1..])
  {
    SortIsStable(stored);
    TakeOut(SortByKey(stored), i);
    TakeOutSorted(SortByKey(stored), i);
  }

  lemma SameMembers(stored: seq<Block>)
    ensures forall b :: b in SortByKey(stored) <==> b in stored
  {
    SortIsStable(stored);
    forall b
      ensures b in SortByKey(stored) <==> b in stored
    {
      assert b in SortByKey(stored) <==> b in multiset(SortByKey(stored));
      assert b in stored <==> b in multiset(stored);
    }
  }

  /** The first block that passes a test. */
  function FirstOf(s: seq<Block>, test: Block -> bool): (r: Option<Block>)
    ensures r.Some? <==> exists b :: b in s && test(b)
    ensures r.Some? ==> r.value in s && test(r.value)
  {
    if s == [] then None else if test(s[0]) then Some(s[0]) else FirstOf(s[1..], test)
  }

  /** The first position a test holds at, or the length. */
  method Position(s: seq<Block>, test: Block -> bool) returns (i: nat)
    ensures i <= |s| && (i < |s| ==> test(s[i])) && forall j :: 0 <= j < i ==> !test(s[j])
    ensures FirstOf(s, test) == if i < |s| then Some(s[i]) else None
  {
    i := 0;
    while i < |s| && !test(s[i])
      invariant i <= |s| && forall j :: 0 <= j < i ==> !test(s[j])
      invariant FirstOf(s, test) == FirstOf(s[i..], test)
    {
      i := i + 1;
    }
  }

  /** Sort the blocks and take out the first that passes the test. */
  method TakeRoot(stored: seq<Block>, test: Block -> bool) returns (root: Option<Block>, blocks: seq<Block>)
    ensures root.Some? ==> Splits(stored, root.value, blocks) && test(root.value)
    ensures root.Some? ==> root.value in stored && forall b :: b in stored && test(b) ==> !KeyLess(b, root.value)
    ensures root.None? <==> forall b :: b in stored ==> !test(b)
    ensures root == FirstOf(SortByKey(stored), test)
  {
    SameMembers(stored);
    blocks := SortByKey(stored);
    var at := Position(blocks, test);
    if at == |blocks| {
      root := None;
    } else {
      SortIsStable(stored);
      RemoveSplits(stored, at);
      root := Some(blocks[at]);
      blocks := blocks[..at] + blocks[at + 1..];
    }
  }

  function StoredAt(env: Env, li: LedgerInfo, blocks: seq<Block>): seq<Block> {
    if EndsEpoch(li) then blocks + [Genesis(env, li)] else blocks
  }

  function CertsAt(env: Env, li: LedgerInfo, qcs: seq<QuorumCert>): seq<QuorumCert> {
    if EndsEpoch(li) then qcs + [GenesisCert(env, li)] else qcs
  }

  function RootLedger(env: Env, li: LedgerInfo): LedgerInfo {
    if EndsEpoch(li) then GenesisCert(env, li).ledger else li
  }

  /** `find_root`. The vectors it updates in place are returned beside the result. */
  method FindRoot(env: Env, storage: LedgerInfo, stored: seq<Block>, storedCerts: seq<QuorumCert>, orderVotes: bool)
    returns (r: Result<RootInfo>, blocks: seq<Block>, qcs: seq<QuorumCert>)
    ensures qcs == CertsAt(env, storage, storedCerts)
    ensures r.Ok? ==> Splits(StoredAt(env, storage, stored), r.value.block, blocks)
    ensures r == Err(RootNotFound) <==> !HasBlock(StoredAt(env, storage, stored), RootLedger(env, storage).commit.id)
    ensures r != Err(RootNotFound) ==> Explained(env, qcs, RootLedger(env, storage), orderVotes, r)
    ensures orderVotes && EndsEpoch(storage) ==> r.Ok?
    ensures r.Ok? && EndsEpoch(storage) && GenesisIdFree(env, storage, stored) ==>
              r.value.block.epoch == storage.commit.epoch + 1
  {
    blocks, qcs := stored, storedCerts;
    var rootId, latest := storage.commit.id, storage;
    if EndsEpoch(storage) {
      var genesis, genesisCert := Genesis(env, storage), GenesisCert(env, storage);
      rootId, latest := genesis.id, genesisCert.ledger;
      blocks, qcs := blocks + [genesis], qcs + [genesisCert];
      assert blocks[|stored|] == genesis && qcs[|storedCerts|] == genesisCert;
      assert HasBlock(blocks, rootId) && FirstCertifying(qcs, rootId).Some?;
    }
    var root;
    root, blocks := TakeRoot(blocks, ById(rootId));
    if root.None? {
      r := Err(RootNotFound);
    } else {
      ChoiceExplained(env, root.value, qcs, latest, orderVotes);
      r := Choose(root.value, FirstCertifying(qcs, root.value.id),
          LedgerCerts(env, root.value, qcs, latest, orderVotes));
    }
  }

  function ById(id: Id): Block -> bool { (b: Block) => b.id == id }

  /** With the root found, each answer has its exact cause: a success is the root that the ledger info
      commits, its first QC, and certificates that name it; each error means what it says. */
  ghost predicate Explained(env: Env, qcs: seq<QuorumCert>, latest: LedgerInfo, orderVotes: bool, r: Result<RootInfo>) {
    var id := latest.commit.id;
    && (r.Ok? ==>
          && r.value.block.id == id && NamesRoot(r.value.block, r.value.certs)
          && Some(r.value.quorumCert) == FirstCertifying(qcs, id)
          && Ok(r.value.certs) == LedgerCerts(env, r.value.block, qcs, latest, orderVotes))
    && (r == Err(NoQuorumCert) <==> FirstCertifying(qcs, id).None?)
    && (r == Err(NoLedgerInfo) <==> FirstCertifying(qcs, id).Some? && !orderVotes && FirstCommitting(qcs, id).None?)
    && (r == Err(InconsistentCommit) <==>
        && FirstCertifying(qcs, id).Some? && !orderVotes && FirstCommitting(qcs, id).Some?
        && !Agrees(env, FirstCommitting(qcs, id).value, latest))
    && r != Err(RootNotFound)
  }

  lemma ChoiceExplained(env: Env, root: Block, qcs: seq<QuorumCert>, latest: LedgerInfo, orderVotes: bool)
    requires latest.commit.id == root.id
    ensures var r := Choose(root, FirstCertifying(qcs, root.id), LedgerCerts(env, root, qcs, latest, orderVotes));
            Explained(env, qcs, latest, orderVotes, r)
  {
    if LedgerCerts(env, root, qcs, latest, orderVotes).Ok? {
      LedgerCertsNameRoot(env, root, qcs, latest, orderVotes);
    }
  }

  predicate HasBlock(blocks: seq<Block>, id: Id) { exists b :: b in blocks && b.id == id }

  predicate HasNumber(blocks: seq<Block>, n: nat) { exists b :: b in blocks && b.blockNumber == Some(n) }

  /** A missing QC is reported before anything about the certificates. */
  function Choose(root: Block, qc: Option<QuorumCert>, certs: Result<Certs>): Result<RootInfo> {
    if qc.None? then Err(NoQuorumCert)
    else match certs
         case Ok(c) => Ok(RootInfo(root, qc.value, c))
         case Err(e) => Err(e)
  }

  function ByNumber(number: nat): Block -> bool { (b: Block) => b.blockNumber == Some(number) }

  /** The block recovery by number starts from: the first with the number in (epoch, round) order. */
  function NumberedRoot(stored: seq<Block>, number: nat): Option<Block> {
    FirstOf(SortByKey(stored), ByNumber(number))
  }

  /** `find_root_by_block_number`. Of the blocks with the number, the root has the least key. */
  method FindRootByBlockNumber(env: Env, number: nat, stored: seq<Block>, qcs: seq<QuorumCert>, orderVotes: bool)
    returns (r: Result<RootInfo>, blocks: seq<Block>)
    ensures r.Ok? ==> Splits(stored, r.value.block, blocks) && r.value.block.blockNumber == Some(number)
    ensures r.Ok? ==> forall b :: b in stored && b.blockNumber == Some(number) ==> !KeyLess(b, r.value.block)
    ensures r.Ok? ==> Some(r.value.quorumCert) == FirstCertifying(qcs, r.value.block.id)
    ensures r.Ok? ==> Ok(r.value.certs) == NumberCerts(env, r.value.block, r.value.quorumCert, qcs, orderVotes)
    ensures r.Ok? ==> Some(r.value.block) == NumberedRoot(stored, number)
    ensures r == Err(RootNotFound) <==> !HasNumber(stored, number)
    ensures r != Err(NoLedgerInfo)
    ensures var root := NumberedRoot(stored, number);
            && (r == Err(NoQuorumCert) <==> root.Some? && FirstCertifying(qcs, root.value.id).None?)
            && (r == Err(InconsistentCommit) <==>
                && root.Some? && FirstCertifying(qcs, root.value.id).Some?
                && !orderVotes && Irreflexive(env, FirstCommitting(qcs, root.value.id)))
  {
    var root;
    root, blocks := TakeRoot(stored, ByNumber(number));
    if root.None? {
      r := Err(RootNotFound);
    } else {
      var qc := FirstCertifying(qcs, root.value.id);
      r := if qc.None? then Err(NoQuorumCert)
          else Choose(root.value, qc, NumberCerts(env, root.value, qc.value, qcs, orderVotes));
    }
  }

  /** The certificates `find_root` chooses always name the root they are chosen for. The commit
      certificate carries the latest ledger info; without order votes the ordered one is a stored
      QC whose commit info agrees with it, at an epoch start up to the timestamp. */
  lemma LedgerCertsNameRoot(env: Env, root: Block, qcs: seq<QuorumCert>, latest: LedgerInfo, orderVotes: bool)
    requires latest.commit.id == root.id && LedgerCerts(env, root, qcs, latest, orderVotes).Ok?
    ensures var certs := LedgerCerts(env, root, qcs, latest, orderVotes).value;
            && NamesRoot(root, certs)
            && certs.commit.ledger == latest && certs.commit.voteData == certs.ordered.voteData
            && (orderVotes ==> certs.ordered == certs.commit)
            && (!orderVotes ==> exists qc :: qc in qcs && certs.ordered == Wrap(qc) && Agrees(env, qc, latest))
  {
    if !orderVotes {
      var qc := FirstCommitting(qcs, root.id).value;
      assert qc in qcs && Agrees(env, qc, latest);
    }
  }

  ghost predicate Agrees(env: Env, qc: QuorumCert, latest: LedgerInfo) {
    env.matchOrderedOnly(qc.ledger.commit, latest.commit) || TimestampOnlyMismatch(qc.ledger.commit, latest.commit)
  }

  /** The QC does not even match itself. */
  predicate Irreflexive(env: Env, qc: Option<QuorumCert>) {
    qc.Some? && !env.matchOrderedOnly(qc.value.ledger.commit, qc.value.ledger.commit)
  }

  /** What a QC commits: the genesis QC its own block, a voted one its parent if the rounds are
      consecutive and nothing otherwise. */
  predicate Formed(qc: QuorumCert) {
    qc.ledger.commit ==
      if qc.certified.round == GENESIS_ROUND then qc.certified
      else if qc.parent.round + 1 == qc.certified.round then qc.parent
      else EMPTY_INFO
  }

  /** A database as consensus fills it: QCs are formed by votes, and an id, being a hash, is not zero
      and belongs to one round. */
  ghost predicate Consistent(stored: seq<Block>, qcs: seq<QuorumCert>) {
    && (forall qc :: qc in qcs ==> Formed(qc))
    && (forall b :: b in stored ==> b.id != ZERO_ID)
    && (forall qc, b :: qc in qcs && b in stored ==>
          && (qc.certified.id == b.id ==> qc.certified.round == b.round)
          && (qc.parent.id == b.id ==> qc.parent.round == b.round))
  }

  /** The QC that voting for a block forms, with `info` describing blocks. */
  function VotedCert(info: SR.Block -> BlockInfo, b: SR.Block, hash: nat, number: nat, version: nat): QuorumCert {
    var commit := match SR.CommitInfo(b) case Some(c) => info(c) case None => EMPTY_INFO;
    QuorumCert(info(b), info(SR.Parent(b)), LedgerInfo(commit, hash, number, version))
  }

  /** Votes form QCs of that shape, and never one that commits the block voted for. */
  lemma VotedCertIsFormed(info: SR.Block -> BlockInfo, b: SR.Block, hash: nat, number: nat, version: nat)
    requires b.Block? && b.round > 0 && forall c :: info(c).round == SR.Round(c)
    ensures Formed(VotedCert(info, b, hash, number, version)) && SR.CommitInfo(b) != Some(b)
  {
    assert info(b).round == b.round && info(SR.Parent(b)).round == SR.Round(SR.Parent(b));
  }

  /** With recovery by block number the certificates name the root if order votes are off, and
      otherwise exactly if the root's QC commits the root. */
  lemma NumberCertsName(env: Env, root: Block, rootQc: QuorumCert, qcs: seq<QuorumCert>, orderVotes: bool)
    requires NumberCerts(env, root, rootQc, qcs, orderVotes).Ok?
    ensures NamesRoot(root, NumberCerts(env, root, rootQc, qcs, orderVotes).value) <==>
            !orderVotes || rootQc.ledger.commit.id == root.id
    ensures var certs, first := NumberCerts(env, root, rootQc, qcs, orderVotes).value, FirstCommitting(qcs, root.id);
            && certs.ordered == certs.commit
            && (orderVotes ==> certs.ordered.ledger == rootQc.ledger)
            && (!orderVotes && first.Some? ==>
                certs.ordered.ledger == first.value.ledger && certs.ordered.voteData.VoteData?
                && certs.ordered.voteData.proposed == first.value.certified)
            && (!orderVotes && first.None? ==> Describes(certs.ordered.ledger.commit, root))
  {
    var first := FirstCommitting(qcs, root.id);
  }

  /** The info of a block without executed state. */
  predicate Describes(info: BlockInfo, b: Block) {
    && info.epoch == b.epoch && info.round == b.round && info.id == b.id && info.timestamp == b.timestamp
    && info.stateId == PLACEHOLDER_STATE && info.version == 0 && info.nextEpochState.None?
  }

  /** In a consistent database that is: they name the root if and only if order votes are off or the
      root is a genesis block. */
  lemma NumberCertsNameRootIff(env: Env, stored: seq<Block>, number: nat, qcs: seq<QuorumCert>, orderVotes: bool)
    requires Consistent(stored, qcs) && NumberedRoot(stored, number).Some?
    requires FirstCertifying(qcs, NumberedRoot(stored, number).value.id).Some?
    requires var root := NumberedRoot(stored, number).value;
             NumberCerts(env, root, FirstCertifying(qcs, root.id).value, qcs, orderVotes).Ok?
    ensures var root := NumberedRoot(stored, number).value;
            NamesRoot(root, NumberCerts(env, root, FirstCertifying(qcs, root.id).value, qcs, orderVotes).value) <==>
            !orderVotes || root.round == GENESIS_ROUND
  {
    var root := NumberedRoot(stored, number).value;
    var qc := FirstCertifying(qcs, root.id).value;
    SameMembers(stored);
    NumberCertsName(env, root, qc, qcs, orderVotes);
    assert root in stored && qc in qcs && Formed(qc) && qc.certified.round == root.round;
  }

  /** A consistent database of one block, certified by a QC that commits its parent: with order votes,
      recovery by block number succeeds with certificates that name the parent. */
  lemma NumberCertsCanMissRoot(env: Env)
    ensures
      var parent := BlockInfo(1, 1, 7, 0, 0, 0, None, None);
      var root := Block(1, 2, 8, 7, Some(5), 0);
      var qc := QuorumCert(BlockInfo(1, 2, 8, 0, 0, 0, None, None), parent, LedgerInfo(parent, 0, 4, 0));
      && Consistent([root], [qc]) && NumberedRoot([root], 5) == Some(root)
      && FirstCertifying([qc], root.id) == Some(qc)
      && NumberCerts(env, root, qc, [qc], true).Ok?
      && !NamesRoot(root, NumberCerts(env, root, qc, [qc], true).value)
  {
    var parent := BlockInfo(1, 1, 7, 0, 0, 0, None, None);
    var root := Block(1, 2, 8, 7, Some(5), 0);
    var qc := QuorumCert(BlockInfo(1, 2, 8, 0, 0, 0, None, None), parent, LedgerInfo(parent, 0, 4, 0));
    assert qc in [qc];
    assert [root][1..] == [];
    assert SortByKey([root]) == Insert(root, []) == [root];
  }

  datatype LastVote = LastVote(epoch: nat, round: nat)
  datatype TimeoutCert = TimeoutCert(epoch: nat, round: nat)

  datatype RecoveryData = RecoveryData(lastVote: Option<LastVote>, root: RootInfo, blocks: seq<Block>,
                                       qcs: seq<QuorumCert>, highestTimeout: Option<TimeoutCert>)

  /** `RecoveryData::new`. */
  method Recover(env: Env, storage: LedgerInfo, number: nat, hasRoot: bool, stored: seq<Block>,
                 storedCerts: seq<QuorumCert>, lastVote: Option<LastVote>, highestTimeout: Option<TimeoutCert>,
                 orderVotes: bool)
    returns (r: Result<RecoveryData>)
    ensures r.Ok? ==>
              Splits(if hasRoot then stored else StoredAt(env, storage, stored), r.value.root.block, r.value.blocks)
    ensures r.Ok? ==> r.value.qcs == if hasRoot then storedCerts else CertsAt(env, storage, storedCerts)
    ensures r.Ok? ==>
            r.value.root.quorumCert in r.value.qcs && r.value.root.quorumCert.certified.id == r.value.root.block.id
    ensures r.Ok? && hasRoot ==> Some(r.value.root.block) == NumberedRoot(stored, number)
    ensures r.Ok? && !hasRoot ==> NamesRoot(r.value.root.block, r.value.root.certs)
    ensures r.Ok? && hasRoot ==>
              (NamesRoot(r.value.root.block, r.value.root.certs) <==>
               !orderVotes || r.value.root.quorumCert.ledger.commit.id == r.value.root.block.id)
    ensures r.Ok? && hasRoot && Consistent(stored, storedCerts) ==>
              (NamesRoot(r.value.root.block, r.value.root.certs) <==>
               !orderVotes || NumberedRoot(stored, number).value.round == GENESIS_ROUND)
    ensures r.Ok? ==> KeepsEpoch(lastVote, r.value.lastVote, r.value.root.block.epoch, (v: LastVote) => v.epoch)
    ensures r.Ok? ==>
            KeepsEpoch(highestTimeout, r.value.highestTimeout, r.value.root.block.epoch, (t: TimeoutCert) => t.epoch)
    ensures !hasRoot && orderVotes && EndsEpoch(storage) ==> r.Ok?
    ensures r.Ok? && !hasRoot && EndsEpoch(storage) && GenesisIdFree(env, storage, stored) ==>
              && r.value.root.block.epoch == storage.commit.epoch + 1
              && (lastVote.Some? && lastVote.value.epoch == storage.commit.epoch ==> r.value.lastVote.None?)
  {
    var found, blocks, qcs;
    if hasRoot {
      found, blocks := FindRootByBlockNumber(env, number, stored, storedCerts, orderVotes);
      qcs := storedCerts;
    } else {
      found, blocks, qcs := FindRoot(env, storage, stored, storedCerts, orderVotes);
    }
    match found
    case Err(e) => r := Err(e);
    case Ok(root) =>
      if hasRoot {
        NumberCertsName(env, root.block, root.quorumCert, qcs, orderVotes);
        if Consistent(stored, storedCerts) {
          NumberCertsNameRootIff(env, stored, number, qcs, orderVotes);
        }
      }
      var epoch := root.block.epoch;
      var vote := if lastVote.Some? && lastVote.value.epoch == epoch then lastVote else None;
      var timeout := if highestTimeout.Some? && highestTimeout.value.epoch == epoch then highestTimeout else None;
      r := Ok(RecoveryData(vote, root, blocks, qcs, timeout));
  }

  /** The kept value is the stored one, and is kept exactly when it is of the epoch. */
  ghost predicate KeepsEpoch<T>(before: Option<T>, kept: Option<T>, epoch: nat, of: T -> nat) {
    && (kept.Some? ==> kept == before)
    && (kept.Some? <==> before.Some? && of(before.value) == epoch)
  }

  // ---------------------------------------------------------------- pruning

  /** A chain of stored blocks from a child of the root. */
  ghost predicate Lineage(blocks: seq<Block>, rootId: Id, p: seq<Block>) {
    && p != [] && p[0].parentId == rootId
    && (forall b :: b in p ==> b in blocks)
    && (forall k :: 0 < k < |p| ==> p[k].parentId == p[k - 1].id)
  }

  ghost predicate Descends(blocks: seq<Block>, rootId: Id, b: Block) {
    exists p :: Lineage(blocks, rootId, p) && p[|p| - 1] == b
  }

  /** Parents come before their children. */
  ghost predicate ParentsFirst(blocks: seq<Block>) {
    forall i, j :: 0 <= i < |blocks| && 0 <= j < |blocks| && blocks[j].parentId == blocks[i].id ==> i < j
  }

  /** A block is proposed in a higher (epoch, round) than its parent. */
  ghost predicate ChildrenAbove(blocks: seq<Block>) {
    forall b, c :: b in blocks && c in blocks && c.parentId == b.id ==> KeyLess(b, c)
  }

  /** Sorting is what puts parents first. */
  lemma SortedParentsFirst(blocks: seq<Block>)
    requires Sorted(blocks) && ChildrenAbove(blocks)
    ensures ParentsFirst(blocks)
  {
    forall i, j | 0 <= i < |blocks| && 0 <= j < |blocks| && blocks[j].parentId == blocks[i].id
      ensures i < j
    {
      assert KeyLess(blocks[i], blocks[j]);
    }
  }

  ghost function Descendants(blocks: seq<Block>, rootId: Id, upTo: nat): seq<Block>
    requires upTo <= |blocks|
  {
    if upTo == 0 then []
    else
      Descendants(blocks, rootId, upTo - 1) +
      if Descends(blocks, rootId, blocks[upTo - 1]) then [blocks[upTo - 1]] else []
  }

  ghost function Certifying(qcs: seq<QuorumCert>, tree: set<Id>): seq<QuorumCert> {
    if qcs == [] then []
    else
      var last := |qcs| - 1;
      Certifying(qcs[..last], tree) + if qcs[last].certified.id in tree then [qcs[last]] else []
  }

  function Ids(blocks: seq<Block>): set<Id> { set b | b in blocks :: b.id }

  lemma {:induction false} DescendantsMember(blocks: seq<Block>, rootId: Id, upTo: nat)
    requires upTo <= |blocks|
    ensures forall b :: b in Descendants(blocks, rootId, upTo) <==> b in blocks[..upTo] && Descends(blocks, rootId, b)
  {
    if upTo > 0 {
      DescendantsMember(blocks, rootId, upTo - 1);
      assert blocks[..upTo] == blocks[..upTo - 1] + [blocks[upTo - 1]];
    }
  }

  lemma DescendsByParent(blocks: seq<Block>, rootId: Id, parent: Block, b: Block)
    requires b in blocks && Descends(blocks, rootId, parent) && b.parentId == parent.id
    ensures Descends(blocks, rootId, b)
  {
    var p :| Lineage(blocks, rootId, p) && p[|p| - 1] == parent;
    var q := p + [b];
    assert Lineage(blocks, rootId, q) && q[|q| - 1] == b;
  }

  lemma ParentOfDescendant(blocks: seq<Block>, rootId: Id, b: Block) returns (parent: Block)
    requires b in blocks && Descends(blocks, rootId, b) && b.parentId != rootId
    ensures parent in blocks && parent.id == b.parentId && Descends(blocks, rootId, parent)
  {
    var p :| Lineage(blocks, rootId, p) && p[|p| - 1] == b;
    var q := p[..|p| - 1];
    parent := q[|q| - 1];
    assert parent in p;
    assert Lineage(blocks, rootId, q);
  }

  /** One pass of the retain closure decides reachability. */
  lemma OnePassDecides(blocks: seq<Block>, rootId: Id, i: nat)
    requires i < |blocks| && ParentsFirst(blocks)
    ensures blocks[i].parentId in {rootId} + Ids(Descendants(blocks, rootId, i)) <==>
            Descends(blocks, rootId, blocks[i])
  {
    var b := blocks[i];
    DescendantsMember(blocks, rootId, i);
    if b.parentId == rootId {
      assert Lineage(blocks, rootId, [b]) && [b][|[b]| - 1] == b;
    } else if b.parentId in Ids(Descendants(blocks, rootId, i)) {
      var parent :| parent in Descendants(blocks, rootId, i) && parent.id == b.parentId;
      DescendsByParent(blocks, rootId, parent, b);
    }
    if b.parentId != rootId && Descends(blocks, rootId, b) {
      var parent := ParentOfDescendant(blocks, rootId, b);
      var j :| 0 <= j < |blocks| && blocks[j] == parent;
      assert parent == blocks[..i][j];
    }
  }

  /** The ids of the blocks below `upTo` that do not descend from the root. */
  ghost function Dropped(blocks: seq<Block>, rootId: Id, upTo: nat): set<Id>
    requires upTo <= |blocks|
  {
    if upTo == 0 then {}
    else
      Dropped(blocks, rootId, upTo - 1) +
      if Descends(blocks, rootId, blocks[upTo - 1]) then {} else {blocks[upTo - 1].id}
  }

  lemma {:induction false} DroppedMember(blocks: seq<Block>, rootId: Id, upTo: nat, id: Id)
    requires upTo <= |blocks|
    ensures id in Dropped(blocks, rootId, upTo) <==>
            exists i :: 0 <= i < upTo && blocks[i].id == id && !Descends(blocks, rootId, blocks[i])
  {
    if upTo > 0 {
      DroppedMember(blocks, rootId, upTo - 1, id);
    }
  }

  method RetainBlocks(rootId: Id, blocks: seq<Block>) returns (kept: seq<Block>, tree: set<Id>, removed: set<Id>)
    requires ParentsFirst(blocks)
    ensures kept == Descendants(blocks, rootId, |blocks|) && tree == {rootId} + Ids(kept)
    ensures removed == Dropped(blocks, rootId, |blocks|)
  {
    tree := {rootId};
    kept, removed := [], {};
    for i := 0 to |blocks|
      invariant kept == Descendants(blocks, rootId, i) && tree == {rootId} + Ids(kept)
      invariant removed == Dropped(blocks, rootId, i)
    {
      OnePassDecides(blocks, rootId, i);
      if blocks[i].parentId in tree {
        assert Ids(kept + [blocks[i]]) == Ids(kept) + {blocks[i].id};
        kept := kept + [blocks[i]];
        tree := tree + {blocks[i].id};
      } else {
        removed := removed + {blocks[i].id};
      }
    }
  }

  method RetainCerts(tree: set<Id>, qcs: seq<QuorumCert>, dropped: set<Id>)
    returns (kept: seq<QuorumCert>, removed: set<Id>)
    ensures kept == Certifying(qcs, tree)
    ensures removed == dropped + (CertifiedIds(qcs) - tree)
  {
    kept, removed := [], dropped;
    for i := 0 to |qcs|
      invariant kept == Certifying(qcs[..i], tree) && removed == dropped + (CertifiedIds(qcs[..i]) - tree)
    {
      assert qcs[..i + 1] == qcs[..i] + [qcs[i]] && qcs[..i + 1][..i] == qcs[..i];
      assert CertifiedIds(qcs[..i + 1]) == CertifiedIds(qcs[..i]) + {qcs[i].certified.id};
      if qcs[i].certified.id in tree {
        kept := kept + [qcs[i]];
      } else {
        removed := removed + {qcs[i].certified.id};
      }
    }
    assert qcs[..|qcs|] == qcs;
  }

  function CertifiedIds(qcs: seq<QuorumCert>): set<Id> { set qc | qc in qcs :: qc.certified.id }

  ghost predicate DistinctIds(blocks: seq<Block>) {
    forall b, c :: b in blocks && c in blocks && b.id == c.id ==> b == c
  }

  /** With distinct ids, other than the root's, an id is dropped when it is not kept. */
  lemma DroppedIsNotKept(rootId: Id, blocks: seq<Block>, id: Id)
    requires DistinctIds(blocks) && rootId !in Ids(blocks)
    ensures id in Dropped(blocks, rootId, |blocks|) <==>
            id in Ids(blocks) && id !in {rootId} + Ids(Descendants(blocks, rootId, |blocks|))
  {
    DroppedMember(blocks, rootId, |blocks|, id);
    DescendantsMember(blocks, rootId, |blocks|);
    assert blocks[..|blocks|] == blocks;
  }

  /** `find_blocks_to_prune`: the kept blocks are exactly the descendants of the root, in order;
      the kept QCs exactly those certifying the root or a kept block; the ids to remove are those
      of everything dropped, and for distinct ids exactly the ids that are not kept. */
  method FindBlocksToPrune(rootId: Id, blocks: seq<Block>, qcs: seq<QuorumCert>)
    returns (kept: seq<Block>, keptCerts: seq<QuorumCert>, removed: set<Id>)
    requires ParentsFirst(blocks)
    ensures kept == Descendants(blocks, rootId, |blocks|)
    ensures keptCerts == Certifying(qcs, {rootId} + Ids(kept))
    ensures removed == Dropped(blocks, rootId, |blocks|) + (CertifiedIds(qcs) - ({rootId} + Ids(kept)))
    ensures DistinctIds(blocks) && rootId !in Ids(blocks) ==>
              removed == Ids(blocks) + CertifiedIds(qcs) - ({rootId} + Ids(kept))
  {
    var tree, dropped;
    kept, tree, dropped := RetainBlocks(rootId, blocks);
    keptCerts, removed := RetainCerts(tree, qcs, dropped);
    if DistinctIds(blocks) && rootId !in Ids(blocks) {
      forall id
        ensures id in removed <==> id in Ids(blocks) + CertifiedIds(qcs) - ({rootId} + Ids(kept))
      {
        DroppedIsNotKept(rootId, blocks, id);
      }
    }
  }
}
