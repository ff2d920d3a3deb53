/** Completion accounting: every request that starts is counted once when it ends, whichever way it ends. */
module Metrics {
  import opened Wrappers
  import opened Machine

  type ErrorCode = string

  /** What the accounting looks at in an error: its code, and the status when it is a status error. */
  datatype Error = Error(code: ErrorCode, status: Option<int>)

  datatype Counters = Counters(
    started: nat, succeeded: nat, failed: nat, canceled: nat, inFlight: nat, samples: nat, totalMs: nat,
    httpStatusErrors: nat, statusCounts: map<int, nat>, codeCounts: map<ErrorCode, nat>)

  const ZERO := Counters(0, 0, 0, 0, 0, 0, 0, 0, map[], map[])

  function Add(count: nat, delta: nat): nat {
    if count + delta <= U64_MAX then count + delta else U64_MAX
  }

  function Less(count: nat): nat {
    if count == 0 then 0 else count - 1
  }

  function Bumped<K>(counts: map<K, nat>, key: K): map<K, nat> {
    counts[key := Add(if key in counts then counts[key] else 0, 1)]
  }

  datatype Completion = Success(status: int) | Failure(error: Error) | Cancellation

  function Sampled(c: Counters, ms: nat): Counters {
    c.(samples := Add(c.samples, 1), totalMs := Add(c.totalMs, Min(ms, U64_MAX)))
  }

  function Recorded(c: Counters, completion: Completion, ms: nat): Counters {
    match completion
    case Success(status) =>
      Sampled(c.(succeeded := Add(c.succeeded, 1), statusCounts := Bumped(c.statusCounts, status)), ms)
    case Failure(error) =>
      var failed := Sampled(c.(failed := Add(c.failed, 1), codeCounts := Bumped(c.codeCounts, error.code)), ms);
      if error.status.None? then failed
      else failed.(httpStatusErrors := Add(c.httpStatusErrors, 1),
                   statusCounts := Bumped(c.statusCounts, error.status.value))
    case Cancellation => Sampled(c.(canceled := Add(c.canceled, 1)), ms)
  }

  function Started(c: Counters): Counters {
    c.(started := Add(c.started, 1), inFlight := Add(c.inFlight, 1))
  }

  /** The counters after a completion has been recorded and its in-flight guard dropped. */
  function Finished(c: Counters, completion: Completion, ms: nat): Counters {
    var recorded := Recorded(c, completion, ms);
    recorded.(inFlight := Less(recorded.inFlight))
  }

  // ---------------------------------------------------------- the sum of a count map

  ghost function Sum<K>(counts: map<K, nat>): nat {
    if counts == map[] then 0
    else
      var k :| k in counts;
      counts[k] + Sum(counts - {k})
  }

  lemma {:induction false} SumSplits<K>(counts: map<K, nat>, key: K)
    requires key in counts
    ensures Sum(counts) == counts[key] + Sum(counts - {key})
    decreases |counts|
  {
    var k :| k in counts && Sum(counts) == counts[k] + Sum(counts - {k});
    if k != key {
      SumSplits(counts - {k}, key);
      SumSplits(counts - {key}, k);
      assert counts - {k} - {key} == counts - {key} - {k};
    }
  }

  lemma SumBumped<K>(counts: map<K, nat>, key: K)
    requires Sum(counts) < U64_MAX
    ensures Sum(Bumped(counts, key)) == Sum(counts) + 1
  {
    var bumped := Bumped(counts, key);
    SumSplits(bumped, key);
    assert bumped - {key} == counts - {key};
    if key in counts {
      SumSplits(counts, key);
    } else {
      assert counts - {key} == counts;
    }
  }

  // ---------------------------------------------------------- the objects that record

  class ClientMetrics {
    var started: nat
    var succeeded: nat
    var failed: nat
    var canceled: nat
    var inFlight: nat
    var samples: nat
    var totalMs: nat
    var httpStatusErrors: nat
    var statusCounts: map<int, nat>
    var codeCounts: map<ErrorCode, nat>

    constructor ()
      ensures Value() == ZERO
    {
      started, succeeded, failed, canceled, inFlight, samples, totalMs, httpStatusErrors := 0, 0, 0, 0, 0, 0, 0, 0;
      statusCounts, codeCounts := map[], map[];
    }

    function Value(): Counters
      reads this
    {
      Counters(started, succeeded, failed, canceled, inFlight, samples, totalMs, httpStatusErrors, statusCounts, codeCounts)
    }

    method RecordLatency(ms: nat)
      modifies this
      ensures Value() == Sampled(old(Value()), ms)
    {
      samples := Add(samples, 1);
      totalMs := Add(totalMs, Min(ms, U64_MAX));
    }

    method RecordCompletedSuccess(status: int, ms: nat)
      modifies this
      ensures Value() == Recorded(old(Value()), Success(status), ms)
    {
      succeeded := Add(succeeded, 1);
      statusCounts := Bumped(statusCounts, status);
      RecordLatency(ms);
    }

    method RecordCompletedError(error: Error, ms: nat)
      modifies this
      ensures Value() == Recorded(old(Value()), Failure(error), ms)
    {
      failed := Add(failed, 1);
      RecordLatency(ms);
      codeCounts := Bumped(codeCounts, error.code);
      if error.status.Some? {
        httpStatusErrors := Add(httpStatusErrors, 1);
        statusCounts := Bumped(statusCounts, error.status.value);
      }
    }

    method RecordCompletedCanceled(ms: nat)
      modifies this
      ensures Value() == Recorded(old(Value()), Cancellation, ms)
    {
      canceled := Add(canceled, 1);
      RecordLatency(ms);
    }

    method LeaveInFlight()
      modifies this
      ensures Value() == old(Value()).(inFlight := Less(old(inFlight)))
    {
      inFlight := Less(inFlight);
    }
  }

  /** A request that is executing. Completing it consumes it, so that its destructor follows at once. */
  class PendingRequest {
    const metrics: ClientMetrics
    var completed: bool
    var inFlight: bool

    ghost predicate Live()
      reads this
    {
      !completed && inFlight
    }

    constructor (metrics: ClientMetrics)
      modifies metrics
      ensures this.metrics == metrics && Live() && metrics.Value() == Started(old(metrics.Value()))
    {
      this.metrics, completed, inFlight := metrics, false, true;
      new;
      metrics.started := Add(metrics.started, 1);
      metrics.inFlight := Add(metrics.inFlight, 1);
    }

    /** Records a cancellation unless the request was completed, then drops the guard it still has. */
    method Drop(ms: nat)
      modifies this, metrics
      ensures completed && !inFlight
      ensures old(Live()) ==> metrics.Value() == Finished(old(metrics.Value()), Cancellation, ms)
      ensures old(completed) ==>
                metrics.Value() == old(metrics.Value()).(inFlight := if old(inFlight) then Less(old(metrics.inFlight))
                                                                     else old(metrics.inFlight))
    {
      if !completed {
        metrics.RecordCompletedCanceled(ms);
      }
      if inFlight {
        metrics.LeaveInFlight();
      }
      completed, inFlight := true, false;
    }

    method CompleteSuccess(status: int, ms: nat)
      requires Live()
      modifies this, metrics
      ensures completed && !inFlight && metrics.Value() == Finished(old(metrics.Value()), Success(status), ms)
    {
      completed := true;
      metrics.RecordCompletedSuccess(status, ms);
      Drop(ms);
    }

    method CompleteError(error: Error, ms: nat)
      requires Live()
      modifies this, metrics
      ensures completed && !inFlight && metrics.Value() == Finished(old(metrics.Value()), Failure(error), ms)
    {
      completed := true;
      metrics.RecordCompletedError(error, ms);
      Drop(ms);
    }

    /** The stream takes over the guard, and nothing is recorded yet. */
    method IntoStream(status: int, ms: nat) returns (stream: StreamCompletion)
      requires Live()
      modifies this, metrics
      ensures completed && !inFlight && metrics.Value() == old(metrics.Value())
      ensures fresh(stream) && stream.metrics == metrics && stream.status == status && stream.inFlight
    {
      completed, inFlight := true, false;
      stream := new StreamCompletion(metrics, status);
      Drop(ms);
    }
  }

  datatype Ended = EndedWell | EndedBadly(error: Error) | EndedEarly

  function CompletionOf(ended: Ended, status: int): Completion {
    match ended
    case EndedWell => Success(status)
    case EndedBadly(error) => Failure(error)
    case EndedEarly => Cancellation
  }

  class StreamCompletion {
    const metrics: ClientMetrics
    const status: int
    var inFlight: bool

    constructor (metrics: ClientMetrics, status: int)
      ensures this.metrics == metrics && this.status == status && inFlight
    {
      this.metrics, this.status, inFlight := metrics, status, true;
    }

    /** Taking the guard marks completion: the first call records, every later one does nothing. */
    method Complete(ended: Ended, ms: nat)
      modifies this, metrics
      ensures !inFlight
      ensures metrics.Value() == if old(inFlight) then Finished(old(metrics.Value()), CompletionOf(ended, status), ms)
                                 else old(metrics.Value())
    {
      if !inFlight {
        return;
      }
      inFlight := false;
      match ended {
        case EndedWell => metrics.RecordCompletedSuccess(status, ms);
        case EndedBadly(error) => metrics.RecordCompletedError(error, ms);
        case EndedEarly => metrics.RecordCompletedCanceled(ms);
      }
      metrics.LeaveInFlight();
    }
  }

  // ---------------------------------------------------------- every interleaving of requests

  /** The shared counters, the requests still executing and the streams still open, with their statuses. */
  datatype System = System(counters: Counters, pending: set<nat>, streams: map<nat, int>)

  datatype Event =
    | Starts(id: nat)
    | Succeeds(id: nat, status: int, ms: nat)
    | Fails(id: nat, error: Error, ms: nat)
    | Drops(id: nat, ms: nat)
    | Streams(id: nat, status: int)
    | EndsStream(id: nat, ended: Ended, ms: nat)

  /** A stream may be told its end any number of times; a request ends once, because ending consumes it. */
  predicate Enabled(y: System, e: Event) {
    match e
    case Starts(id) => id !in y.pending && id !in y.streams
    case EndsStream(_, _, _) => true
    case _ => e.id in y.pending
  }

  function Ending(y: System, id: nat, completion: Completion, ms: nat): System {
    System(Finished(y.counters, completion, ms), y.pending - {id}, y.streams - {id})
  }

  function Step(y: System, e: Event): System {
    match e
    case Starts(id) => y.(counters := Started(y.counters), pending := y.pending + {id})
    case Succeeds(id, status, ms) => Ending(y, id, Success(status), ms)
    case Fails(id, error, ms) => Ending(y, id, Failure(error), ms)
    case Drops(id, ms) => Ending(y, id, Cancellation, ms)
    case Streams(id, status) => y.(pending := y.pending - {id}, streams := y.streams[id := status])
    case EndsStream(id, ended, ms) =>
      if id in y.streams then Ending(y, id, CompletionOf(ended, y.streams[id]), ms) else y
  }

  ghost predicate Conserved(c: Counters) {
    && c.started == c.succeeded + c.failed + c.canceled + c.inFlight
    && c.samples == c.succeeded + c.failed + c.canceled
    && Sum(c.codeCounts) == c.failed
    && Sum(c.statusCounts) == c.succeeded + c.httpStatusErrors
    && c.httpStatusErrors <= c.failed
  }

  function CountOf<K>(counts: map<K, nat>, key: K): nat {
    if key in counts then counts[key] else 0
  }

  /** `after` has one more of `key` than `before`, and as many of every other. */
  ghost predicate OneMore<K(!new)>(before: map<K, nat>, after: map<K, nat>, key: K) {
    forall k :: CountOf(after, k) == CountOf(before, k) + if k == key then 1 else 0
  }

  ghost predicate Inv(y: System) {
    && Conserved(y.counters) && y.counters.started <= U64_MAX
    && y.counters.inFlight == |y.pending| + |y.streams|
    && forall id :: id in y.pending ==> id !in y.streams
  }

  /** Ending a request moves it from in flight to exactly one of the outcomes. */
  lemma FinishConserves(c: Counters, completion: Completion, ms: nat)
    requires Conserved(c) && c.started <= U64_MAX && c.inFlight > 0
    ensures var after := Finished(c, completion, ms);
            Conserved(after) && after.started == c.started && after.inFlight == c.inFlight - 1
  {
    match completion {
      case Success(status) => SumBumped(c.statusCounts, status);
      case Failure(error) =>
        SumBumped(c.codeCounts, error.code);
        if error.status.Some? {
          SumBumped(c.statusCounts, error.status.value);
        }
      case Cancellation =>
    }
  }

  lemma BumpsOne<K(!new)>(counts: map<K, nat>, key: K)
    requires Sum(counts) < U64_MAX
    ensures OneMore(counts, Bumped(counts, key), key)
  {
    if key in counts {
      SumSplits(counts, key);
    }
    hide Sum;
  }

  /** A success is counted under its status and nothing else moves but the latency. */
  lemma SuccessIsCounted(c: Counters, status: int, ms: nat)
    requires Conserved(c) && c.started <= U64_MAX && c.inFlight > 0
    ensures var after := Finished(c, Success(status), ms);
            && OneMore(c.statusCounts, after.statusCounts, status)
            && after == c.(succeeded := c.succeeded + 1, inFlight := c.inFlight - 1, statusCounts := after.statusCounts,
                           samples := c.samples + 1, totalMs := Min(c.totalMs + Min(ms, U64_MAX), U64_MAX))
  {
    BumpsOne(c.statusCounts, status);
    hide Sum;
  }

  /** A failure is counted under its code and, when it is a status error, under that status too. */
  lemma FailureIsCounted(c: Counters, error: Error, ms: nat)
    requires Conserved(c) && c.started <= U64_MAX && c.inFlight > 0
    ensures var after := Finished(c, Failure(error), ms);
            && OneMore(c.codeCounts, after.codeCounts, error.code)
            && (if error.status.Some? then OneMore(c.statusCounts, after.statusCounts, error.status.value)
                else after.statusCounts == c.statusCounts)
            && after == c.(failed := c.failed + 1, inFlight := c.inFlight - 1, codeCounts := after.codeCounts,
                           statusCounts := after.statusCounts,
                           httpStatusErrors := c.httpStatusErrors + (if error.status.Some? then 1 else 0),
                           samples := c.samples + 1, totalMs := Min(c.totalMs + Min(ms, U64_MAX), U64_MAX))
  {
    BumpsOne(c.codeCounts, error.code);
    if error.status.Some? {
      BumpsOne(c.statusCounts, error.status.value);
    }
    hide Sum, Bumped;
  }

  /** A dropped request and a stream dropped early are cancellations; a stream's other ends count as a request's do. */
  lemma DropIsCancellation(y: System, id: nat, error: Error, ms: nat)
    requires Inv(y) && id in y.streams
    ensures var c := y.counters;
            var after := Step(y, EndsStream(id, EndedEarly, ms)).counters;
            && after == c.(canceled := c.canceled + 1, inFlight := c.inFlight - 1, samples := c.samples + 1,
                           totalMs := Min(c.totalMs + Min(ms, U64_MAX), U64_MAX))
            && after == Step(y, Drops(id, ms)).counters
            && Step(y, EndsStream(id, EndedWell, ms)).counters == Step(y, Succeeds(id, y.streams[id], ms)).counters
            && Step(y, EndsStream(id, EndedBadly(error), ms)).counters == Step(y, Fails(id, error, ms)).counters
  {
    hide Sum, Bumped;
    assert |y.streams| > 0;
  }

  lemma EndingKeepsInv(y: System, id: nat, completion: Completion, ms: nat)
    requires Inv(y) && (id in y.pending || id in y.streams)
    ensures Inv(Ending(y, id, completion, ms))
    ensures Ending(y, id, completion, ms).counters.started == y.counters.started
  {
    FinishConserves(y.counters, completion, ms);
    assert id in y.streams ==> |y.streams| == |y.streams - {id}| + 1 by {
      assert (y.streams - {id}).Keys == y.streams.Keys - {id};
      assert id in y.streams ==> |y.streams.Keys| == |y.streams.Keys - {id}| + 1;
    }
    assert id !in y.streams ==> y.streams - {id} == y.streams;
    assert id !in y.pending ==> y.pending - {id} == y.pending;
  }

  lemma StartKeepsInv(y: System, id: nat)
    requires Inv(y) && Enabled(y, Starts(id)) && y.counters.started < U64_MAX
    ensures Inv(Step(y, Starts(id))) && Step(y, Starts(id)).counters.started == y.counters.started + 1
  {
    hide Sum;
  }

  lemma StreamKeepsInv(y: System, id: nat, status: int)
    requires Inv(y) && Enabled(y, Streams(id, status))
    ensures Inv(Step(y, Streams(id, status)))
  {
    hide Conserved;
    assert y.streams[id := status].Keys == y.streams.Keys + {id};
  }

  lemma StepKeepsInv(y: System, e: Event)
    requires Inv(y) && Enabled(y, e) && (e.Starts? ==> y.counters.started < U64_MAX)
    ensures Inv(Step(y, e))
    ensures Step(y, e).counters.started == y.counters.started + if e.Starts? then 1 else 0
  {
    hide Inv, Ending, Started;
    match e {
      case Starts(id) => StartKeepsInv(y, id);
      case Succeeds(id, status, ms) => EndingKeepsInv(y, id, Success(status), ms);
      case Fails(id, error, ms) => EndingKeepsInv(y, id, Failure(error), ms);
      case Drops(id, ms) => EndingKeepsInv(y, id, Cancellation, ms);
      case Streams(id, status) => StreamKeepsInv(y, id, status);
      case EndsStream(id, ended, ms) =>
        if id in y.streams {
          EndingKeepsInv(y, id, CompletionOf(ended, y.streams[id]), ms);
        }
    }
  }

  /**
    One more start keeps the totals balanced until the counter is full, and after that only when everything that
    ever started is in flight, so that both counters stand still; but then live requests are no longer counted.
   */
  lemma StartConservesExactly(y: System, id: nat)
    requires Inv(y) && Enabled(y, Starts(id))
    ensures Conserved(Step(y, Starts(id)).counters) <==> y.counters.started < U64_MAX || y.counters.inFlight == U64_MAX
    ensures Inv(Step(y, Starts(id))) <==> y.counters.started < U64_MAX
  {
    if y.counters.started < U64_MAX {
      StepKeepsInv(y, Starts(id));
    }
  }

  ghost predicate EnabledRun(y: System, events: seq<Event>)
    decreases |events|
  {
    events == [] || (Enabled(y, events[0]) && EnabledRun(Step(y, events[0]), events[1..]))
  }

  ghost function Run(y: System, events: seq<Event>): System
    decreases |events|
  {
    if events == [] then y else Run(Step(y, events[0]), events[1..])
  }

  function StartsIn(events: seq<Event>): nat {
    if events == [] then 0 else (if events[0].Starts? then 1 else 0) + StartsIn(events[1..])
  }

  /** Over every interleaving of buffered, streamed and dropped requests, as many as the counter can hold. */
  lemma {:induction false} EveryRunConserves(y: System, events: seq<Event>)
    requires Inv(y) && EnabledRun(y, events) && y.counters.started + StartsIn(events) <= U64_MAX
    ensures Inv(Run(y, events)) && Run(y, events).counters.started == y.counters.started + StartsIn(events)
    decreases |events|
  {
    hide Inv, Step, Enabled;
    if events != [] {
      StepKeepsInv(y, events[0]);
      EveryRunConserves(Step(y, events[0]), events[1..]);
    }
  }

  lemma EmptySum<K>(counts: map<K, nat>)
    requires counts == map[]
    ensures Sum(counts) == 0
  {
  }

  lemma InitialInv(y: System)
    requires y == System(ZERO, {}, map[])
    ensures Inv(y)
  {
    EmptySum(y.counters.statusCounts);
    EmptySum(y.counters.codeCounts);
  }

  /** From zero, once nothing is in flight, every request that started has been counted as exactly one outcome. */
  lemma QuiescentTotals(start: System, events: seq<Event>)
    requires Inv(start) && start.counters.started == 0
    requires EnabledRun(start, events) && StartsIn(events) <= U64_MAX
    requires Run(start, events).pending == {} && Run(start, events).streams == map[]
    ensures var c := Run(start, events).counters;
            && c.succeeded + c.failed + c.canceled == StartsIn(events) == c.samples && c.inFlight == 0
            && Sum(c.statusCounts) + Sum(c.codeCounts) + c.canceled == StartsIn(events) + c.httpStatusErrors
  {
    EveryRunConserves(start, events);
    hide Run, EnabledRun, StartsIn, Sum;
  }
}
