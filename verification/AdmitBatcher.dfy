/** The pending-body listener's drain loop: pool events are converted, gathered into batches
    under a size cap and a deadline, and admitted batch by batch. */
module AdmitBatcher {
  import opened Common

  datatype AdmitBatchConfig = AdmitBatchConfig(cap: nat, maxWait: nat)

  /** A zero cap is clamped to one; a positive one and the wait are kept. */
  function NewConfig(cap: nat, maxWait: nat): (cfg: AdmitBatchConfig)
    ensures cfg.cap >= 1 && (cap >= 1 ==> cfg.cap == cap) && cfg.maxWait == maxWait
  {
    AdmitBatchConfig(if cap > 1 then cap else 1, maxWait)
  }

  predicate ShouldFlush(len: nat, elapsed: nat, morePending: bool, cfg: AdmitBatchConfig) {
    len >= cfg.cap || elapsed >= cfg.maxWait || (!morePending && len > 0)
  }

  type PoolEvent = nat
  type SignedTxn = nat

  /** What the channel does next: an event arrives, it closes, or nothing comes up to `at`. The
      loop reads the clock at `checked` before waiting and is done waiting at `at`. */
  datatype Outcome = Arrived(event: PoolEvent) | Closed | Quiet
  datatype Tick = Tick(checked: nat, outcome: Outcome, at: nat)

  /** An admitted batch: begun by the event of tick `first`, flushed before tick `end`. */
  datatype Admission = Admission(batch: seq<SignedTxn>, first: nat, end: nat)

  function Since(at: nat, start: nat): nat { if at >= start then at - start else 0 }

  function Converted(convert: PoolEvent -> Option<SignedTxn>, e: PoolEvent): seq<SignedTxn> {
    match convert(e) case Some(t) => [t] case None => []
  }

  /** The converted events of a stretch of ticks, in arrival order. */
  function Received(convert: PoolEvent -> Option<SignedTxn>, ticks: seq<Tick>): seq<SignedTxn> {
    if ticks == [] then []
    else
      var last := |ticks| - 1;
      Received(convert, ticks[..last]) +
      if ticks[last].outcome.Arrived? then Converted(convert, ticks[last].outcome.event) else []
  }

  function Flatten(admitted: seq<Admission>): seq<SignedTxn> {
    if admitted == [] then []
    else Flatten(admitted[..|admitted| - 1]) + admitted[|admitted| - 1].batch
  }

  /** The flush after tick `end - 1` of a batch of `len` begun at tick `first` follows the policy:
      by the clock read there, or before tick `end`, and by whether the channel has closed. */
  predicate FlushPoint(cfg: AdmitBatchConfig, ticks: seq<Tick>, len: nat, first: nat, end: nat)
    requires first < end <= |ticks|
  {
    var open := !ticks[end - 1].outcome.Closed?;
    || ShouldFlush(len, Since(ticks[end - 1].at, ticks[first].at), open, cfg)
    || (end < |ticks| && ShouldFlush(len, Since(ticks[end].checked, ticks[first].at), open, cfg))
  }

  /** Filling stops at the deadline: it is never waited past, and a wait that ends there is the last. */
  predicate Timely(cfg: AdmitBatchConfig, ticks: seq<Tick>, first: nat, end: nat)
    requires first < end <= |ticks|
  {
    var deadline := ticks[first].at + cfg.maxWait;
    && (forall k :: first < k < end ==> ticks[k].checked < deadline)
    && (forall k :: first < k < end - 1 && ticks[k].outcome.Quiet? ==> ticks[k].at < deadline)
  }

  /** Still filling after tick `end - 1`: no deadline met so far. */
  predicate Waiting(cfg: AdmitBatchConfig, ticks: seq<Tick>, first: nat, end: nat)
    requires first < end <= |ticks|
  {
    var deadline := ticks[first].at + cfg.maxWait;
    forall k :: first < k < end ==> ticks[k].checked < deadline && (ticks[k].outcome.Quiet? ==> ticks[k].at < deadline)
  }

  lemma WaitingIsTimely(cfg: AdmitBatchConfig, ticks: seq<Tick>, first: nat, end: nat)
    requires first < end <= |ticks| && Waiting(cfg, ticks, first, end)
    ensures Timely(cfg, ticks, first, end)
    ensures end < |ticks| && ticks[end].checked < ticks[first].at + cfg.maxWait ==> Timely(cfg, ticks, first, end + 1)
  {
  }

  /** An admitted batch holds what its ticks brought, is neither empty nor over the cap, waited no
      longer than it may, and was flushed when the policy says so. */
  ghost predicate Legal(cfg: AdmitBatchConfig, convert: PoolEvent -> Option<SignedTxn>, ticks: seq<Tick>, a: Admission)
  {
    && a.first < a.end <= |ticks| && ticks[a.first].outcome.Arrived?
    && a.batch == Received(convert, ticks[a.first..a.end]) && 1 <= |a.batch| <= cfg.cap
    && Timely(cfg, ticks, a.first, a.end) && FlushPoint(cfg, ticks, |a.batch|, a.first, a.end)
  }

  /** A batch is flushed because it is full, because its time is up, or because the channel closed. */
  lemma FlushedForCause(cfg: AdmitBatchConfig, convert: PoolEvent -> Option<SignedTxn>, ticks: seq<Tick>, a: Admission)
    requires Legal(cfg, convert, ticks, a)
    ensures var start := ticks[a.first].at;
            || |a.batch| == cfg.cap || ticks[a.end - 1].outcome.Closed?
            || Since(ticks[a.end - 1].at, start) >= cfg.maxWait
            || (a.end < |ticks| && Since(ticks[a.end].checked, start) >= cfg.maxWait)
  {
  }

  ghost predicate AllLegal(cfg: AdmitBatchConfig, convert: PoolEvent -> Option<SignedTxn>, ticks: seq<Tick>,
                           admitted: seq<Admission>)
  {
    forall a :: a in admitted ==> Legal(cfg, convert, ticks, a)
  }

  /** One tick brings its converted event, if there is one and it converts; nothing otherwise. */
  lemma ReceivedOne(convert: PoolEvent -> Option<SignedTxn>, tick: Tick)
    ensures var converted := if tick.outcome.Arrived? then convert(tick.outcome.event) else None;
            Received(convert, [tick]) == if converted.Some? then [converted.value] else []
  {
    assert [tick][..0] == [];
  }

  lemma {:induction false} ReceivedSplit(convert: PoolEvent -> Option<SignedTxn>, ticks: seq<Tick>, i: nat, j: nat)
    requires i <= j <= |ticks|
    ensures Received(convert, ticks[..j]) == Received(convert, ticks[..i]) + Received(convert, ticks[i..j])
    decreases j - i
  {
    if i < j {
      ReceivedSplit(convert, ticks, i, j - 1);
      ReceivedStep(convert, ticks, j - 1);
      assert ticks[i..j][..j - 1 - i] == ticks[i..j - 1];
    }
  }

  lemma ReceivedStep(convert: PoolEvent -> Option<SignedTxn>, ticks: seq<Tick>, i: nat)
    requires i < |ticks|
    ensures Received(convert, ticks[..i + 1]) == Received(convert, ticks[..i]) +
            if ticks[i].outcome.Arrived? then Converted(convert, ticks[i].outcome.event) else []
  {
    assert ticks[..i + 1][..i] == ticks[..i];
  }

  lemma FlattenPush(admitted: seq<Admission>, a: Admission)
    ensures Flatten(admitted + [a]) == Flatten(admitted) + a.batch
  {
    assert (admitted + [a])[..|admitted|] == admitted;
  }

  datatype Stop = CapReached | DeadlinePassed | ChannelClosed | OutOfTicks

  predicate NoneClosed(ticks: seq<Tick>, from: nat, to: nat)
    requires from <= to <= |ticks|
  {
    forall i :: from <= i < to ==> !ticks[i].outcome.Closed?
  }

  lemma RangeStep(convert: PoolEvent -> Option<SignedTxn>, ticks: seq<Tick>, i: nat, j: nat)
    requires i <= j < |ticks|
    ensures Received(convert, ticks[i..j + 1]) == Received(convert, ticks[i..j]) +
            if ticks[j].outcome.Arrived? then Converted(convert, ticks[j].outcome.event) else []
  {
    assert ticks[i..j + 1][..j - i] == ticks[i..j];
  }

  /** Convert an event and push it, or skip it. */
  method Push(batch: seq<SignedTxn>, convert: PoolEvent -> Option<SignedTxn>, e: PoolEvent)
    returns (longer: seq<SignedTxn>)
    ensures longer == batch + Converted(convert, e)
  {
    var signed := convert(e);
    longer := batch;
    if signed.Some? {
      longer := longer + [signed.value];
    }
  }

  /** The inner loop: fill the batch begun by tick `first` until the cap, the deadline or the end
      of the channel. */
  method Fill(cfg: AdmitBatchConfig, convert: PoolEvent -> Option<SignedTxn>, ticks: seq<Tick>, first: nat)
    returns (batch: seq<SignedTxn>, end: nat, stop: Stop)
    requires cfg.cap >= 1 && first < |ticks| && ticks[first].outcome.Arrived?
    ensures first < end <= |ticks| && batch == Received(convert, ticks[first..end])
    ensures stop.OutOfTicks? ==> end == |ticks| && |batch| < cfg.cap
    ensures Timely(cfg, ticks, first, end)
    ensures !stop.OutOfTicks? && batch != [] ==> Legal(cfg, convert, ticks, Admission(batch, first, end))
    ensures if stop.ChannelClosed? then ticks[end - 1].outcome.Closed? && NoneClosed(ticks, first, end - 1)
            else NoneClosed(ticks, first, end)
  {
    var deadline := ticks[first].at + cfg.maxWait;
    batch := Push([], convert, ticks[first].outcome.event);
    end := first + 1;
    RangeStep(convert, ticks, first, first);
    while |batch| < cfg.cap && end < |ticks|
      invariant first < end <= |ticks| && |batch| <= cfg.cap
      invariant batch == Received(convert, ticks[first..end]) && NoneClosed(ticks, first, end)
      invariant Waiting(cfg, ticks, first, end)
      decreases |ticks| - end
    {
      var tick := ticks[end];
      WaitingIsTimely(cfg, ticks, first, end);
      if tick.checked >= deadline {
        stop := DeadlinePassed;
        return;
      }
      RangeStep(convert, ticks, first, end);
      end := end + 1;
      match tick.outcome {
        case Arrived(e) =>
          batch := Push(batch, convert, e);
        case Closed =>
          stop := ChannelClosed;
          return;
        case Quiet =>
          if tick.at >= deadline {
            stop := DeadlinePassed;
            return;
          }
      }
    }
    WaitingIsTimely(cfg, ticks, first, end);
    stop := if |batch| >= cfg.cap then CapReached else OutOfTicks;
  }

  /** Everything received in the first `consumed` ticks is admitted or in the batch being filled,
      in order; a closed channel ends the ticks consumed. */
  ghost predicate Conserved(convert: PoolEvent -> Option<SignedTxn>, ticks: seq<Tick>, admitted: seq<Admission>,
                            filling: seq<SignedTxn>, consumed: nat, closed: bool) {
    && consumed <= |ticks| && Flatten(admitted) + filling == Received(convert, ticks[..consumed])
    && (if closed then consumed > 0 && ticks[consumed - 1].outcome.Closed? && NoneClosed(ticks, 0, consumed - 1)
        else NoneClosed(ticks, 0, consumed))
  }

  /** A batch filled from where the last one ended keeps everything accounted for, admitted or not. */
  lemma FillConserved(convert: PoolEvent -> Option<SignedTxn>, ticks: seq<Tick>, admitted: seq<Admission>,
                      batch: seq<SignedTxn>, first: nat, end: nat, closed: bool)
    requires Conserved(convert, ticks, admitted, [], first, false) && first < end <= |ticks|
    requires batch == Received(convert, ticks[first..end])
    requires if closed then ticks[end - 1].outcome.Closed? && NoneClosed(ticks, first, end - 1)
             else NoneClosed(ticks, first, end)
    ensures Conserved(convert, ticks, admitted, batch, end, closed)
    ensures Conserved(convert, ticks, admitted + [Admission(batch, first, end)], [], end, closed)
  {
    assert Flatten(admitted) + [] == Flatten(admitted);
    ReceivedSplit(convert, ticks, first, end);
    FlattenPush(admitted, Admission(batch, first, end));
    assert Flatten(admitted) + batch + [] == Flatten(admitted) + batch;
  }

  /** The drain loop, over whatever the channel and the clock do. It stops when the channel closes,
      with nothing left behind, or when there is nothing more to see. */
  method Drain(cfg: AdmitBatchConfig, convert: PoolEvent -> Option<SignedTxn>, ticks: seq<Tick>)
    returns (admitted: seq<Admission>, filling: seq<SignedTxn>, consumed: nat, closed: bool)
    requires cfg.cap >= 1
    ensures Conserved(convert, ticks, admitted, filling, consumed, closed)
    ensures AllLegal(cfg, convert, ticks, admitted) && |filling| < cfg.cap
    ensures if closed then filling == [] else consumed == |ticks|
  {
    admitted, filling, consumed, closed := [], [], 0, false;
    while consumed < |ticks| && !closed
      invariant Conserved(convert, ticks, admitted, filling, consumed, closed)
      invariant AllLegal(cfg, convert, ticks, admitted) && |filling| < cfg.cap
      invariant consumed < |ticks| || closed ==> filling == []
      decreases |ticks| - consumed
    {
      var first := consumed;
      if ticks[first].outcome.Arrived? {
        var batch, end, stop := Fill(cfg, convert, ticks, first);
        FillConserved(convert, ticks, admitted, batch, first, end, stop.ChannelClosed?);
        if stop.OutOfTicks? {
          filling := batch;
        } else if batch != [] {
          admitted := admitted + [Admission(batch, first, end)];
        }
        consumed, closed := end, stop.ChannelClosed?;
      } else {
        ReceivedStep(convert, ticks, first);
        consumed, closed := first + 1, ticks[first].outcome.Closed?;
      }
    }
  }
}
