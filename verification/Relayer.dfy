/** The oracle relayer's progress tracker: what `get_last_state` surfaces given the on-chain
    nonce it reads, when it polls, and when it repeats a pending result instead. */
module Relayer {
  import opened Common

  datatype PollResult = PollResult(jwkStructs: seq<nat>, maxBlockNumber: nat, nonce: Option<nat>, updated: bool)

  datatype ProviderState = ProviderState(fetchedNonce: Option<nat>, lastHadUpdate: bool, lastResult: Option<PollResult>)

  datatype OracleSourceState = OracleSourceState(sourceType: nat, sourceId: nat, latestNonce: nat, latestPosition: nat)

  datatype Reply = Ok(result: PollResult) | NoOracleState | NoCachedResult | PollFailed

  type Uri = string
  type Tracker = map<Uri, ProviderState>

  /** The URI parser is not part of this model; it yields the source identity or nothing. */
  type UriParser = Uri -> Option<(nat, nat)>

  function StateOf(t: Tracker, uri: Uri): ProviderState {
    if uri in t then t[uri] else ProviderState(None, false, None)
  }

  function Updated(t: Tracker, uri: Uri, r: PollResult): Tracker {
    t[uri := ProviderState(r.nonce, r.updated, Some(r))]
  }

  predicate ShouldBlockPoll(s: ProviderState, onchain: nat) {
    s.lastHadUpdate && s.fetchedNonce.Some? && s.fetchedNonce.value > onchain
  }

  predicate IsAlreadyCommitted(observed: Option<nat>, onchain: Option<nat>) {
    observed.Some? && onchain.Some? && observed.value <= onchain.value
  }

  function Guard(r: PollResult, onchain: Option<nat>): PollResult {
    if r.updated && IsAlreadyCommitted(r.nonce, onchain) then r.(updated := false) else r
  }

  /** The nonce of the first source state matching the URI; the snapshot may be unavailable. */
  function OnchainNonce(parse: UriParser, uri: Uri, snapshot: Option<seq<OracleSourceState>>): Option<nat> {
    if snapshot.None? || parse(uri).None? then None else Find(snapshot.value, parse(uri).value)
  }

  function Find(states: seq<OracleSourceState>, source: (nat, nat)): Option<nat> {
    if states == [] then None
    else if (states[0].sourceType, states[0].sourceId) == source then Some(states[0].latestNonce)
    else Find(states[1..], source)
  }

  predicate OfSource(s: OracleSourceState, source: (nat, nat)) {
    s.sourceType == source.0 && s.sourceId == source.1
  }

  predicate FirstOfSource(states: seq<OracleSourceState>, source: (nat, nat), i: int) {
    0 <= i < |states| && OfSource(states[i], source) && forall j :: 0 <= j < i ==> !OfSource(states[j], source)
  }

  /** One `get_last_state` call that nothing interrupts. `poll` is what the manager would answer. */
  function GetLast(t: Tracker, uri: Uri, onchain: Option<nat>, poll: Option<PollResult>): (Tracker, Reply) {
    if onchain.None? then (t, NoOracleState)
    else
      var s := StateOf(t, uri);
      if ShouldBlockPoll(s, onchain.value) then
        (t, if s.lastResult.Some? then Ok(s.lastResult.value) else NoCachedResult)
      else if poll.None? then (t, PollFailed)
      else (Updated(t, uri, poll.value), Ok(Guard(poll.value, onchain)))
  }

  class RelayerWrapper {
    var states: Tracker

    constructor ()
      ensures states == map[]
    {
      states := map[];
    }

    /** The latest nonce of the first state with the URI's source type and id. */
    method FindOracleState(parse: UriParser, uri: Uri, snapshot: Option<seq<OracleSourceState>>)
      returns (nonce: Option<nat>)
      ensures nonce == OnchainNonce(parse, uri, snapshot)
      ensures snapshot.None? || parse(uri).None? ==> nonce.None?
      ensures snapshot.Some? && parse(uri).Some? && nonce.Some? ==>
                exists i :: && FirstOfSource(snapshot.value, parse(uri).value, i)
                            && snapshot.value[i].latestNonce == nonce.value
      ensures snapshot.Some? && parse(uri).Some? && nonce.None? ==>
                forall s :: s in snapshot.value ==> !OfSource(s, parse(uri).value)
    {
      if snapshot.None? {
        return None;
      }
      var source := parse(uri);
      if source.None? {
        return None;
      }
      var i := 0;
      while i < |snapshot.value|
        invariant 0 <= i <= |snapshot.value|
        invariant Find(snapshot.value, source.value) == Find(snapshot.value[i..], source.value)
        invariant forall j :: 0 <= j < i ==> !OfSource(snapshot.value[j], source.value)
      {
        var s := snapshot.value[i];
        if (s.sourceType, s.sourceId) == source.value {
          assert FirstOfSource(snapshot.value, source.value, i);
          return Some(s.latestNonce);
        }
        i := i + 1;
      }
      return None;
    }

    method GetLastState(parse: UriParser, uri: Uri, snapshot: Option<seq<OracleSourceState>>, poll: Option<PollResult>)
      returns (r: Reply)
      modifies this
      ensures (states, r) == GetLast(old(states), uri, OnchainNonce(parse, uri, snapshot), poll)
    {
      var onchain := FindOracleState(parse, uri, snapshot);
      if onchain.None? {
        return NoOracleState;
      }
      var state := StateOf(states, uri);
      if ShouldBlockPoll(state, onchain.value) {
        if state.lastResult.Some? {
          return Ok(state.lastResult.value);
        }
        return NoCachedResult;
      }
      if poll.None? {
        return PollFailed;
      }
      states := states[uri := ProviderState(poll.value.nonce, poll.value.updated, Some(poll.value))];
      return Ok(Guard(poll.value, onchain));
    }
  }

  /** What a call answers: nothing but the pending result while it is ahead of the chain; otherwise what
      the poll brought, marked as an update unless its nonce is already on chain. A failed poll
      changes nothing. */
  lemma CallAnswers(t: Tracker, uri: Uri, onchain: nat, poll: Option<PollResult>)
    ensures var (t', reply) := GetLast(t, uri, Some(onchain), poll);
            var pending := uri in t && t[uri].lastHadUpdate && t[uri].fetchedNonce.Some? &&
                t[uri].fetchedNonce.value > onchain;
            && (pending ==> t' == t && (t[uri].lastResult.Some? ==> reply == Ok(t[uri].lastResult.value)))
            && (!pending && poll.None? ==> t' == t && reply == PollFailed)
            && (!pending && poll.Some? ==>
                && t'.Keys == t.Keys + {uri} && (forall other :: other in t && other != uri ==> t'[other] == t[other])
                && t'[uri].lastResult == poll && t'[uri].fetchedNonce == poll.value.nonce
                && t'[uri].lastHadUpdate == poll.value.updated
                && reply.Ok? && reply.result == poll.value.(updated := reply.result.updated)
                && (reply.result.updated <==>
                    poll.value.updated && (poll.value.nonce.Some? ==> poll.value.nonce.value > onchain)))
  {
  }

  // ---------------------------------------------------------------- interleaved calls

  /** A call in flight: after reading the chain, or waiting for its poll. */
  datatype Call = ReadChain(uri: Uri, onchain: nat) | Polling(uri: Uri, onchain: nat)

  /** A finished call. */
  datatype Done = Done(uri: Uri, onchain: nat, reply: Reply, polled: bool)

  datatype System = System(tracker: Tracker, calls: map<nat, Call>, log: seq<Done>)

  /** The awaits of concurrent calls interleave freely; each event is one call's next stretch. */
  datatype Event =
    | Start(id: nat, uri: Uri, onchain: nat)
    | CheckTracker(id: nat)
    | Polled(id: nat, result: Option<PollResult>)

  function Step(s: System, ev: Event): System {
    match ev
    case Start(id, uri, onchain) =>
      if id in s.calls then s else s.(calls := s.calls[id := ReadChain(uri, onchain)])
    case CheckTracker(id) =>
      if id !in s.calls || !s.calls[id].ReadChain? then s
      else
        var call := s.calls[id];
        var state := StateOf(s.tracker, call.uri);
        if !ShouldBlockPoll(state, call.onchain) then s.(calls := s.calls[id := Polling(call.uri, call.onchain)])
        else
          var reply := if state.lastResult.Some? then Ok(state.lastResult.value) else NoCachedResult;
          s.(calls := s.calls - {id}, log := s.log + [Done(call.uri, call.onchain, reply, false)])
    case Polled(id, result) =>
      if id !in s.calls || !s.calls[id].Polling? then s
      else
        var call := s.calls[id];
        var reply := if result.None? then PollFailed else Ok(Guard(result.value, Some(call.onchain)));
        System(if result.None? then s.tracker else Updated(s.tracker, call.uri, result.value),
               s.calls - {id}, s.log + [Done(call.uri, call.onchain, reply, true)])
  }

  function Resume(s: System, events: seq<Event>): System {
    if events == [] then s else Step(Resume(s, events[..|events| - 1]), events[|events| - 1])
  }

  function Run(events: seq<Event>): System { Resume(System(map[], map[], []), events) }

  /** A call run without interruption is `GetLast`. */
  lemma UninterruptedCall(s: System, id: nat, uri: Uri, onchain: nat, poll: Option<PollResult>)
    requires id !in s.calls
    ensures var (t, reply) := GetLast(s.tracker, uri, Some(onchain), poll);
            var s' := Step(Step(Step(s, Start(id, uri, onchain)), CheckTracker(id)), Polled(id, poll));
            && s'.tracker == t && s'.calls == s.calls
            && s'.log == s.log + [Done(uri, onchain, reply, !ShouldBlockPoll(StateOf(s.tracker, uri), onchain))]
  {
    assert s.calls[id := ReadChain(uri, onchain)] - {id} == s.calls;
    assert s.calls[id := ReadChain(uri, onchain)][id := Polling(uri, onchain)] - {id} == s.calls;
  }

  /** Tracked fields always come from one and the same poll result. */
  ghost predicate Tracked(t: Tracker) {
    forall uri :: uri in t ==>
      t[uri].lastResult.Some? && t[uri].fetchedNonce == t[uri].lastResult.value.nonce
      && t[uri].lastHadUpdate == t[uri].lastResult.value.updated
  }

  /** An update is only surfaced with a nonce the chain had not reached when the call read it,
      and the missing-cache error is never returned. */
  ghost predicate Sound(d: Done) {
    && d.reply != NoCachedResult
    && (d.reply.Ok? && d.reply.result.updated && d.reply.result.nonce.Some? ==> d.reply.result.nonce.value > d.onchain)
  }

  ghost predicate Inv(s: System) {
    Tracked(s.tracker) && forall d :: d in s.log ==> Sound(d)
  }

  lemma InvKept(s: System, ev: Event)
    requires Inv(s)
    ensures Inv(Step(s, ev))
  {
    if ev.CheckTracker? && ev.id in s.calls {
      var state := StateOf(s.tracker, s.calls[ev.id].uri);
      assert state.fetchedNonce.Some? ==> state.lastResult.Some?;
    }
  }

  lemma {:induction false} RepliesSound(events: seq<Event>)
    ensures Inv(Run(events))
  {
    if events != [] {
      RepliesSound(events[..|events| - 1]);
      InvKept(Run(events[..|events| - 1]), events[|events| - 1]);
    }
  }

  // ---------------------------------------------------------------- pending results

  /** `r` is tracked for `uri` as an update, with a nonce a chain can be behind of. */
  ghost predicate Holds(s: System, uri: Uri, r: PollResult) {
    && r.updated && r.nonce.Some? && r.nonce.value > 0
    && uri in s.tracker && s.tracker[uri] == ProviderState(r.nonce, true, Some(r))
  }

  /** A call on `uri` that may still poll: it is polling, or read the nonce or more on chain. */
  predicate MayPoll(c: Call, uri: Uri, nonce: nat) {
    c.uri == uri && (c.Polling? || c.onchain >= nonce)
  }

  ghost predicate Undisturbed(s: System, uri: Uri, nonce: nat) {
    forall id :: id in s.calls ==> !MayPoll(s.calls[id], uri, nonce)
  }

  /** `r` is pending for `uri`: tracked, and no call under way can replace it. */
  ghost predicate Pending(s: System, uri: Uri, r: PollResult) {
    Holds(s, uri, r) && Undisturbed(s, uri, r.nonce.value)
  }

  /** Every new call for `uri` reads a nonce the chain has not caught up with. */
  ghost predicate Behind(events: seq<Event>, uri: Uri, nonce: nat) {
    forall ev :: ev in events && ev.Start? && ev.uri == uri ==> ev.onchain < nonce
  }

  /** Until the chain catches up, every call for the URI returns that very result without
      polling, however calls interleave, and the result stays pending. */
  lemma {:induction false} PendingRepeats(s: System, events: seq<Event>, uri: Uri, r: PollResult)
    requires Pending(s, uri, r) && Behind(events, uri, r.nonce.value)
    ensures var s' := Resume(s, events);
            && Pending(s', uri, r) && |s.log| <= |s'.log| && s'.log[..|s.log|] == s.log
            && forall i :: |s.log| <= i < |s'.log| && s'.log[i].uri == uri ==>
                 s'.log[i].reply == Ok(r) && !s'.log[i].polled
  {
    if events != [] {
      var before := events[..|events| - 1];
      PendingRepeats(s, before, uri, r);
      PendingStep(Resume(s, before), events[|events| - 1], uri, r);
    }
  }

  lemma PendingStep(s: System, ev: Event, uri: Uri, r: PollResult)
    requires Pending(s, uri, r) && (ev.Start? && ev.uri == uri ==> ev.onchain < r.nonce.value)
    ensures var s' := Step(s, ev);
            && Pending(s', uri, r)
            && (s'.log == s.log
                || exists d :: s'.log == s.log + [d] && (d.uri == uri ==> d.reply == Ok(r) && !d.polled))
  {
    var s' := Step(s, ev);
    if s'.log != s.log {
      var d := s'.log[|s.log|];
      assert s'.log == s.log + [d];
    }
  }

  /** A call that reads `onchain` now is answered `r` without polling. */
  predicate Answers(t: Tracker, uri: Uri, onchain: nat, r: PollResult) {
    ShouldBlockPoll(StateOf(t, uri), onchain) && StateOf(t, uri).lastResult == Some(r)
  }

  /** However the run goes on with the chain behind, every next call is answered `r` without polling. */
  ghost predicate Survives(s: System, uri: Uri, r: PollResult)
    requires r.nonce.Some?
  {
    forall events, onchain: nat :: Behind(events, uri, r.nonce.value) && onchain < r.nonce.value ==>
      Answers(Resume(s, events).tracker, uri, onchain, r)
  }

  /** A tracked result survives if and only if no call on its URI is polling or has read the nonce
      or more on chain. */
  lemma SurvivesIffUndisturbed(s: System, uri: Uri, r: PollResult)
    requires Holds(s, uri, r)
    ensures Survives(s, uri, r) <==> Undisturbed(s, uri, r.nonce.value)
  {
    if Undisturbed(s, uri, r.nonce.value) {
      forall events, onchain: nat | Behind(events, uri, r.nonce.value) && onchain < r.nonce.value
        ensures Answers(Resume(s, events).tracker, uri, onchain, r)
      {
        PendingRepeats(s, events, uri, r);
      }
    } else {
      var id :| id in s.calls && MayPoll(s.calls[id], uri, r.nonce.value);
      var events := DisturbedBy(s, uri, r, id);
      assert !Answers(Resume(s, events).tracker, uri, 0, r);
    }
  }

  /** A call that may poll can be answered so that the next call polls. */
  lemma DisturbedBy(s: System, uri: Uri, r: PollResult, id: nat) returns (events: seq<Event>)
    requires Holds(s, uri, r) && id in s.calls && MayPoll(s.calls[id], uri, r.nonce.value)
    ensures Behind(events, uri, r.nonce.value) && !ShouldBlockPoll(StateOf(Resume(s, events).tracker, uri), 0)
  {
    var stale := Polled(id, Some(PollResult([], 0, None, false)));
    if s.calls[id].Polling? {
      events := [stale];
      assert events[..0] == [];
    } else {
      events := [CheckTracker(id), stale];
      assert events[..1] == [CheckTracker(id)] && [CheckTracker(id)][..0] == [];
      assert Resume(s, [CheckTracker(id)]) == Step(s, CheckTracker(id));
    }
  }

  /** Two calls poll at once; the first to finish brings an update with nonce 5, the second
      nothing new; a third call, with the chain still at 0, polls again. */
  function OverlappingPolls(uri: Uri, update: PollResult, stale: PollResult): seq<Event> {
    [Start(1, uri, 0), Start(2, uri, 0), CheckTracker(1), CheckTracker(2),
     Polled(2, Some(update)), Polled(1, Some(stale)), Start(3, uri, 0), CheckTracker(3)]
  }

  lemma PendingCanBeLost(uri: Uri)
    ensures var update := PollResult([], 0, Some(5), true);
            var stale := PollResult([], 0, Some(5), false);
            var events := OverlappingPolls(uri, update, stale);
            && Done(uri, 0, Ok(update), true) in Run(events).log
            && 3 in Run(events).calls && Run(events).calls[3] == Polling(uri, 0)
  {
    var update := PollResult([], 0, Some(5), true);
    var stale := PollResult([], 0, Some(5), false);
    var events := OverlappingPolls(uri, update, stale);
    var s := System(map[], map[], []);
    var s2 := Step(Step(s, events[0]), events[1]);
    var s4 := Step(Step(s2, events[2]), events[3]);
    assert s4.calls == map[1 := Polling(uri, 0), 2 := Polling(uri, 0)] && s4.tracker == map[];
    var s5 := Step(s4, events[4]);
    assert s5.log == [Done(uri, 0, Ok(update), true)];
    var s6 := Step(s5, events[5]);
    var s8 := Step(Step(s6, events[6]), events[7]);
    ResumeAll(s, events, [s, Step(s, events[0]), s2, Step(s2, events[2]), s4, s5, s6, Step(s6, events[6]), s8]);
  }

  /** A run follows its states. */
  lemma {:induction false} ResumeAll(s: System, events: seq<Event>, states: seq<System>)
    requires |states| == |events| + 1 && states[0] == s
    requires forall i :: 0 <= i < |events| ==> states[i + 1] == Step(states[i], events[i])
    ensures Resume(s, events) == states[|events|]
  {
    if events != [] {
      ResumeAll(s, events[..|events| - 1], states[..|events|]);
    }
  }

  /** A call that surfaces an update with a nonce leaves it tracked, and pending if and only if no
      other call on its URI may poll. */
  lemma UpdateBecomesPending(s: System, id: nat, r: PollResult)
    requires id in s.calls && s.calls[id].Polling?
    requires r.updated && r.nonce.Some? && r.nonce.value > s.calls[id].onchain
    ensures var t, uri := Step(s, Polled(id, Some(r))), s.calls[id].uri;
            && Holds(t, uri, r) && t.log == s.log + [Done(uri, s.calls[id].onchain, Ok(r), true)]
            && (Pending(t, uri, r) <==>
                forall other :: other in s.calls && other != id ==> !MayPoll(s.calls[other], uri, r.nonce.value))
  {
    var t, uri := Step(s, Polled(id, Some(r))), s.calls[id].uri;
    assert forall other :: other in t.calls <==> other in s.calls && other != id;
  }
}
