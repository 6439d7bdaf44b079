/** Concurrent resolutions and prefetches of one block's payload. Locks are held only while a
    cell is taken, put back or inspected, so everything between interleaves freely. */
module PayloadInterleaving {
  import opened Common
  import opened Payload

  /** The block: its groups of batches, inline transactions and timestamp, and what each digest holds. */
  datatype BlockData = BlockData(groups: seq<seq<BatchInfo>>, inline: seq<seq<Txn>>, timestamp: nat,
                                 content: Digest -> seq<Txn>)

  /** Where a resolution stands with its current group. */
  datatype Phase =
    | Ready
    | Awaiting(left: seq<Digest>, got: seq<Txn>)
    | Holding(data: seq<Txn>)
    | Retrying(error: Error)

  datatype Task = Task(group: nat, done: seq<Txn>, phase: Phase)

  /** The status cells, the resolutions in flight, the groups whose prefetch saw an empty cell and
      has yet to store its requests, and what finished resolutions returned. */
  datatype System = System(cells: seq<Option<DataStatus>>, tasks: map<nat, Task>, prefetching: set<nat>,
                           results: seq<Resolved>)

  /** What becomes of an awaited request. The reader answers with the digest's own data, or fails. */
  datatype Delivery = Arrives | Drops | Fails(code: nat)

  datatype Event =
    | PrefetchCheck(group: nat)
    | PrefetchStore(group: nat)
    | Start(id: nat)
    | Take(id: nat)
    | Await(id: nat, delivery: Delivery)
    | PutBack(id: nat)
    | Cancel(id: nat)

  function Initial(b: BlockData): System {
    System(seq(|b.groups|, _ => None), map[], {}, [])
  }

  /** The cell a resolution is working on, if the task is there. */
  predicate AtWork(s: System, id: nat) {
    id in s.tasks && s.tasks[id].group < |s.cells|
  }

  function TakeStep(s: System, id: nat): System
    requires AtWork(s, id)
  {
    var t := s.tasks[id];
    match s.cells[t.group]
    case None => s.(tasks := s.tasks - {id}, results := s.results + [Err(NotInitialized)])
    case Some(Cached(data)) =>
      s.(cells := s.cells[t.group := None], tasks := s.tasks[id := t.(phase := Holding(data))])
    case Some(Requested(receivers)) =>
      s.(cells := s.cells[t.group := None], tasks := s.tasks[id := t.(phase := Awaiting(receivers, []))])
  }

  /** With no request left the data is complete; otherwise the next request is settled. */
  function AwaitPhase(b: BlockData, left: seq<Digest>, got: seq<Txn>, delivery: Delivery): Phase {
    if left == [] then Holding(got)
    else match delivery
      case Arrives => Awaiting(left[1..], got + b.content(left[0]))
      case Drops => Retrying(DataNotFound(left[0]))
      case Fails(code) => Retrying(ReaderError(code))
  }

  function Requests(b: BlockData, group: nat): DataStatus {
    Requested(if group < |b.groups| then Unexpired(b.groups[group], b.timestamp) else [])
  }

  function PutStep(b: BlockData, s: System, id: nat): System
    requires AtWork(s, id)
  {
    var t := s.tasks[id];
    match t.phase
    case Holding(data) =>
      var s' := s.(cells := s.cells[t.group := Some(Cached(data))]);
      if t.group + 1 < |b.groups| then s'.(tasks := s.tasks[id := Task(t.group + 1, t.done + data, Ready)])
      else s'.(tasks := s.tasks - {id}, results := s.results + [Ok(t.done + data + Flatten(b.inline))])
    case Retrying(error) =>
      s.(cells := s.cells[t.group := Some(Requests(b, t.group))],
         tasks := s.tasks - {id}, results := s.results + [Err(error)])
    case _ => s
  }

  function Step(b: BlockData, s: System, ev: Event): System {
    match ev
    case PrefetchCheck(g) =>
      if g < |s.cells| && s.cells[g].None? then s.(prefetching := s.prefetching + {g}) else s
    case PrefetchStore(g) =>
      if g in s.prefetching && g < |s.cells|
      then s.(cells := s.cells[g := Some(Requests(b, g))], prefetching := s.prefetching - {g})
      else s
    case Start(id) =>
      if id in s.tasks || b.groups == [] then s else s.(tasks := s.tasks[id := Task(0, [], Ready)])
    case Take(id) =>
      if AtWork(s, id) && s.tasks[id].phase.Ready? then TakeStep(s, id) else s
    case Await(id, delivery) =>
      if AtWork(s, id) && s.tasks[id].phase.Awaiting?
      then
        var t := s.tasks[id];
        s.(tasks := s.tasks[id := t.(phase := AwaitPhase(b, t.phase.left, t.phase.got, delivery))])
      else s
    case PutBack(id) =>
      if AtWork(s, id) then PutStep(b, s, id) else s
    case Cancel(id) => s.(tasks := s.tasks - {id})
  }

  function Run(b: BlockData, events: seq<Event>): System {
    if events == [] then Initial(b) else Step(b, Run(b, events[..|events| - 1]), events[|events| - 1])
  }

  ghost predicate TaskOk(b: BlockData, t: Task) {
    && t.group < |b.groups|
    && t.done == AllGroups(b.content, b.groups[..t.group], b.timestamp)
    && (t.phase.Awaiting? ==>
          t.phase.got + Contents(b.content, t.phase.left) == GroupTxns(b.content, b.groups[t.group], b.timestamp))
    && (t.phase.Holding? ==> t.phase.data == GroupTxns(b.content, b.groups[t.group], b.timestamp))
  }

  ghost predicate ResultOk(b: BlockData, r: Resolved) {
    r.Ok? ==> r.txns == Expected(b.content, b.groups, b.inline, b.timestamp)
  }

  ghost predicate Inv(b: BlockData, s: System) {
    && |s.cells| == |b.groups|
    && (forall g :: 0 <= g < |s.cells| ==> Faithful(b.content, b.groups[g], b.timestamp, s.cells[g]))
    && (forall id :: id in s.tasks ==> TaskOk(b, s.tasks[id]))
    && (forall r :: r in s.results ==> ResultOk(b, r))
  }

  lemma GroupDone(b: BlockData, t: Task)
    requires TaskOk(b, t) && t.phase.Holding?
    ensures t.done + t.phase.data == AllGroups(b.content, b.groups[..t.group + 1], b.timestamp)
  {
    assert b.groups[..t.group + 1][..t.group] == b.groups[..t.group];
  }

  lemma AwaitKeeps(b: BlockData, t: Task, delivery: Delivery)
    requires TaskOk(b, t) && t.phase.Awaiting?
    ensures TaskOk(b, t.(phase := AwaitPhase(b, t.phase.left, t.phase.got, delivery)))
  {
    var left, got := t.phase.left, t.phase.got;
    if left == [] {
      assert got + Contents(b.content, left) == got;
    } else {
      var data, rest := b.content(left[0]), Contents(b.content, left[1..]);
      assert got + (data + rest) == (got + data) + rest;
    }
  }

  lemma TakeKeeps(b: BlockData, s: System, id: nat)
    requires Inv(b, s) && id in s.tasks && s.tasks[id].phase.Ready?
    ensures Inv(b, TakeStep(s, id))
  {
    var t := s.tasks[id];
    assert Faithful(b.content, b.groups[t.group], b.timestamp, s.cells[t.group]);
    if s.cells[t.group].Some? && s.cells[t.group].value.Requested? {
      var receivers := s.cells[t.group].value.receivers;
      assert [] + Contents(b.content, receivers) == Contents(b.content, receivers);
      assert TaskOk(b, t.(phase := Awaiting(receivers, [])));
    }
  }

  lemma PutKeeps(b: BlockData, s: System, id: nat)
    requires Inv(b, s) && id in s.tasks
    ensures Inv(b, PutStep(b, s, id))
  {
    var t := s.tasks[id];
    if t.phase.Holding? {
      GroupDone(b, t);
      if t.group + 1 == |b.groups| {
        assert b.groups[..t.group + 1] == b.groups;
      } else {
        assert TaskOk(b, Task(t.group + 1, t.done + t.phase.data, Ready));
      }
    }
  }

  lemma InvKept(b: BlockData, s: System, ev: Event)
    requires Inv(b, s)
    ensures Inv(b, Step(b, s, ev))
  {
    match ev
    case Take(id) => if AtWork(s, id) && s.tasks[id].phase.Ready? { TakeKeeps(b, s, id); }
    case PutBack(id) => if AtWork(s, id) { PutKeeps(b, s, id); }
    case Await(id, delivery) =>
      if AtWork(s, id) && s.tasks[id].phase.Awaiting? { AwaitKeeps(b, s.tasks[id], delivery); }
    case _ =>
  }

  lemma {:induction false} InvHolds(b: BlockData, events: seq<Event>)
    ensures Inv(b, Run(b, events))
  {
    if events != [] {
      InvHolds(b, events[..|events| - 1]);
      InvKept(b, Run(b, events[..|events| - 1]), events[|events| - 1]);
    }
  }

  /** For every interleaving of prefetches and resolutions, and every pattern of dropped, failed
      and cancelled requests, every successful resolution returns the same transactions: the
      unexpired batches of each group in payload order, then the inline ones. */
  lemma SuccessesAgree(b: BlockData, events: seq<Event>, r: Resolved)
    requires r in Run(b, events).results && r.Ok?
    ensures r.txns == Expected(b.content, b.groups, b.inline, b.timestamp)
  {
    InvHolds(b, events);
  }

  // ---------------------------------------------------------------- progress

  function Continue(b: BlockData, s: System, events: seq<Event>): System
    decreases events
  {
    if events == [] then s else Continue(b, Step(b, s, events[0]), events[1..])
  }

  lemma {:induction false} ContinueConcat(b: BlockData, s: System, xs: seq<Event>, ys: seq<Event>)
    ensures Continue(b, s, xs + ys) == Continue(b, Continue(b, s, xs), ys)
    decreases xs
  {
    if xs == [] {
      assert xs + ys == ys;
    } else {
      assert (xs + ys)[1..] == xs[1..] + ys;
      ContinueConcat(b, Step(b, s, xs[0]), xs[1..], ys);
    }
  }

  lemma {:induction false} ContinueKeepsInv(b: BlockData, s: System, events: seq<Event>)
    requires Inv(b, s)
    ensures Inv(b, Continue(b, s, events))
    decreases events
  {
    if events != [] {
      InvKept(b, s, events[0]);
      ContinueKeepsInv(b, Step(b, s, events[0]), events[1..]);
    }
  }

  /** Awaits that are all answered leave the resolution holding the contents. */
  lemma {:induction false} AwaitToEnd(b: BlockData, s: System, id: nat) returns (events: seq<Event>)
    requires AtWork(s, id) && s.tasks[id].phase.Awaiting?
    ensures var t := s.tasks[id];
            Continue(b, s, events) ==
            s.(tasks := s.tasks[id := t.(phase := Holding(t.phase.got + Contents(b.content, t.phase.left)))])
    decreases s.tasks[id].phase.left
  {
    var t := s.tasks[id];
    var left, got := t.phase.left, t.phase.got;
    var next := Step(b, s, Await(id, Arrives));
    if left == [] {
      events := [Await(id, Arrives)];
      assert got + Contents(b.content, left) == got;
      assert Continue(b, s, events) == Continue(b, next, []) == next;
    } else {
      var rest := AwaitToEnd(b, next, id);
      events := [Await(id, Arrives)] + rest;
      assert events[1..] == rest;
      var data, more := b.content(left[0]), Contents(b.content, left[1..]);
      assert got + (data + more) == (got + data) + more;
      assert next.tasks[id := t.(phase := Holding(got + data + more))] ==
          s.tasks[id := t.(phase := Holding(got + data + more))];
    }
  }

  /** A resolution takes a filled cell and, with its requests answered, holds the group's transactions. */
  lemma TakeToHolding(b: BlockData, s: System, id: nat) returns (events: seq<Event>)
    requires Inv(b, s) && id in s.tasks && s.tasks[id].phase.Ready? && s.cells[s.tasks[id].group].Some?
    ensures var t, s' := s.tasks[id], Continue(b, s, events);
            && Inv(b, s') && id in s'.tasks && s'.tasks[id].group == t.group && s'.tasks[id].phase.Holding?
            && s'.results == s.results && s'.cells == s.cells[t.group := None]
  {
    var t := s.tasks[id];
    var taken := Step(b, s, Take(id));
    assert [Take(id)][1..] == [];
    assert Continue(b, s, [Take(id)]) == Continue(b, taken, []) == taken;
    events := [Take(id)];
    if taken.tasks[id].phase.Awaiting? {
      var awaits := AwaitToEnd(b, taken, id);
      ContinueConcat(b, s, events, awaits);
      events := events + awaits;
    }
    ContinueKeepsInv(b, s, events);
  }

  /** It then puts the data back and goes on to the next group, or returns. */
  lemma GroupCompletes(b: BlockData, s: System, id: nat) returns (events: seq<Event>)
    requires Inv(b, s) && id in s.tasks && s.tasks[id].phase.Ready? && s.cells[s.tasks[id].group].Some?
    ensures var g, s' := s.tasks[id].group, Continue(b, s, events);
            && Inv(b, s') && (forall h :: 0 <= h < |s.cells| && h != g ==> s'.cells[h] == s.cells[h])
            && (if g + 1 < |b.groups| then id in s'.tasks && s'.tasks[id].group == g + 1 && s'.tasks[id].phase.Ready?
                else exists r: Resolved :: r.Ok? && r in s'.results)
  {
    var g := s.tasks[id].group;
    var takes := TakeToHolding(b, s, id);
    var held := Continue(b, s, takes);
    var put := Step(b, held, PutBack(id));
    assert [PutBack(id)][1..] == [];
    assert Continue(b, held, [PutBack(id)]) == Continue(b, put, []) == put;
    events := takes + [PutBack(id)];
    ContinueConcat(b, s, takes, [PutBack(id)]);
    ContinueKeepsInv(b, s, events);
    if g + 1 == |b.groups| {
      var r := put.results[|held.results|];
      assert r.Ok? && r in put.results;
    }
  }

  lemma {:induction false} AllGroupsComplete(b: BlockData, s: System, id: nat) returns (events: seq<Event>)
    requires Inv(b, s) && id in s.tasks && s.tasks[id].phase.Ready?
    requires forall h :: s.tasks[id].group <= h < |s.cells| ==> s.cells[h].Some?
    ensures Ok(Expected(b.content, b.groups, b.inline, b.timestamp)) in Continue(b, s, events).results
    decreases |b.groups| - s.tasks[id].group
  {
    var first := GroupCompletes(b, s, id);
    var s' := Continue(b, s, first);
    if s.tasks[id].group + 1 < |b.groups| {
      var rest := AllGroupsComplete(b, s', id);
      ContinueConcat(b, s, first, rest);
      events := first + rest;
    } else {
      events := first;
      var r: Resolved :| r.Ok? && r in s'.results;
      assert ResultOk(b, r);
    }
  }

  /** A prefetch that nothing interrupts fills an empty cell with the requests for the group's unexpired
      batches, and leaves any other cell alone. */
  lemma PrefetchFills(b: BlockData, s: System, g: nat)
    requires Inv(b, s) && g < |s.cells| && g !in s.prefetching
    ensures var t := Step(b, Step(b, s, PrefetchCheck(g)), PrefetchStore(g));
            t.cells[g] == if s.cells[g].None? then Some(Requested(Unexpired(b.groups[g], b.timestamp))) else s.cells[g]
  {
  }

  /** The cell is filled, or taken by a resolution that is still at work on it. */
  ghost predicate Tended(s: System, g: nat) {
    g < |s.cells| && (s.cells[g].Some? || exists id :: TendedBy(s, g, id))
  }

  ghost predicate TendedBy(s: System, g: nat, id: nat) {
    id in s.tasks && s.tasks[id].group == g && !s.tasks[id].phase.Ready?
  }

  lemma TendedTake(s: System, id: nat, g: nat)
    requires AtWork(s, id) && s.tasks[id].phase.Ready? && Tended(s, g)
    ensures Tended(TakeStep(s, id), g)
  {
    var t := TakeStep(s, id);
    if s.cells[g].None? {
      var other :| TendedBy(s, g, other);
      assert TendedBy(t, g, other);
    } else if t.cells[g].None? {
      assert TendedBy(t, g, id);
    }
  }

  lemma TendedPut(b: BlockData, s: System, id: nat, g: nat)
    requires AtWork(s, id) && Tended(s, g)
    ensures Tended(PutStep(b, s, id), g)
  {
    var t := PutStep(b, s, id);
    if t.cells[g].None? {
      var other :| TendedBy(s, g, other);
      assert TendedBy(t, g, other);
    }
  }

  lemma TendedStep(b: BlockData, s: System, ev: Event, g: nat)
    requires Tended(s, g) && !ev.Cancel?
    ensures Tended(Step(b, s, ev), g)
  {
    if ev.Take? && AtWork(s, ev.id) && s.tasks[ev.id].phase.Ready? {
      TendedTake(s, ev.id, g);
    } else if ev.PutBack? && AtWork(s, ev.id) {
      TendedPut(b, s, ev.id, g);
    } else if s.cells[g].None? {
      var other :| TendedBy(s, g, other);
      assert TendedBy(Step(b, s, ev), g, other);
    }
  }

  /** A taken cell comes back: unless a resolution is cancelled, a cell once filled is filled again whenever
      no resolution is at work, after a success as after a failure. */
  lemma {:induction false} CellsComeBack(b: BlockData, s: System, events: seq<Event>, g: nat)
    requires Inv(b, s) && Tended(s, g) && forall ev :: ev in events ==> !ev.Cancel?
    ensures Tended(Continue(b, s, events), g)
    ensures Continue(b, s, events).tasks == map[] ==> Continue(b, s, events).cells[g].Some?
    decreases events
  {
    if events != [] {
      InvKept(b, s, events[0]);
      TendedStep(b, s, events[0], g);
      CellsComeBack(b, Step(b, s, events[0]), events[1..], g);
    }
  }

  /** Progress: whatever was dropped, failed or cancelled before, once every cell is filled, as prefetches
      and failed resolutions leave it, a resolution whose requests are answered succeeds. */
  lemma ResolutionSucceeds(b: BlockData, events: seq<Event>, id: nat) returns (more: seq<Event>)
    requires b.groups != [] && id !in Run(b, events).tasks
    requires forall h :: 0 <= h < |b.groups| ==> h < |Run(b, events).cells| && Run(b, events).cells[h].Some?
    ensures Ok(Expected(b.content, b.groups, b.inline, b.timestamp)) in Continue(b, Run(b, events), more).results
  {
    var s := Run(b, events);
    InvHolds(b, events);
    var started := Step(b, s, Start(id));
    InvKept(b, s, Start(id));
    var rest := AllGroupsComplete(b, started, id);
    more := [Start(id)] + rest;
    assert more[1..] == rest;
  }
}
