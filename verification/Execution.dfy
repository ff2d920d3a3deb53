/** The loop that retries and follows redirects for one logical request. */
module Execution {
  import opened Wrappers
  import opened Machine
  import opened Redirects
  import opened Attempts

  datatype Body = Buffered(bytes: Bytes) | Streaming(contents: Bytes)

  const EMPTY_BODY := Buffered([])

  /** A stream is moved out and leaves the empty body; buffered bytes are shared. */
  method TakeForAttempt(body: Body) returns (taken: Body, left: Body)
    ensures taken == body
    ensures left == if body.Buffered? then body else EMPTY_BODY
  {
    match body
    case Buffered(_) => taken, left := body, body;
    case Streaming(_) => taken, left := body, EMPTY_BODY;
  }

  // ---------------------------------------------------------- what the loop is given

  /** Policies, validated to allow at least one attempt; `eligible` and `retryable` are the caller's choices. */
  datatype Setup = Setup(
    configured: nat, maxRedirects: nat, eligible: (string, Headers) -> bool, retryable: int -> bool, uris: Uris,
    streams: bool, returnsNonSuccess: bool, budgeted: bool)
  {
    predicate Valid() {
      configured > 0
    }

    predicate Completes(status: int) {
      IsSuccess(status) || !retryable(status)
    }
  }

  datatype Request = Request(verb: string, uri: string, headers: Headers, body: Body)

  predicate IsSuccess(status: int) {
    200 <= status < 300
  }

  datatype Gate = Refused | Unguarded | Guarded

  /** Whether the policy wants the retry, the deadline allows its delay, and the budget pays for it. */
  datatype Decision = Decision(wanted: bool, inTime: bool, funded: bool)

  datatype Loss = Retryable | PastDeadline | Unclassified

  datatype Reply = Lost(loss: Loss, retry: Decision) | Answer(status: int, location: Option<string>, retry: Decision)

  datatype Reading = Whole | Unusable | Broken(retry: Decision)

  /** Where a caller may drop the asynchronous loop; the blocking loop is never dropped. */
  datatype Await = Slot | HostPermit | AdaptivePermit | Transport | Sleep | BodyRead

  /** Everything one turn of the loop meets: the limiters, the interceptors, the network and the clock. */
  datatype World = World(
    droppedAt: Option<Await>, slot: bool, host: bool, circuit: Gate, adaptive: Gate, headers: Headers, framed: bool,
    sendInTime: bool, reply: Reply, readInTime: bool, reading: Reading)

  datatype Error =
    | RateLimited | HostLimited | CircuitOpen | AdaptiveLimited | Framing | Deadline | Unfunded
    | Transported(loss: Loss) | Redirecting(refusal: Refusal) | Reading | HttpStatus(status: int)

  datatype Ending =
    | Response(status: int)
    | Stream(status: int, hooks: Option<Hooks>)
    | Failed(error: Error)
    | Abandoned

  // ---------------------------------------------------------- the state of a request

  datatype Progress = Progress(
    attempt: nat, maxAttempts: nat, redirects: nat, verb: string, uri: string, headers: Headers, replayable: bool)

  function Start(c: Setup, r: Request): Progress {
    Progress(1, if c.eligible(r.verb, r.headers) && r.body.Buffered? then c.configured else 1, 0,
             r.verb, r.uri, r.headers, r.body.Buffered?)
  }

  function Tightened(c: Setup, p: Progress, headers: Headers): Progress {
    if p.maxAttempts > p.attempt && (!p.replayable || !c.eligible(p.verb, headers)) then p.(maxAttempts := p.attempt) else p
  }

  function Redirected(c: Setup, p: Progress, action: Action): Progress {
    var moved := p.(verb := action.verb, uri := action.uri, redirects := p.redirects + 1,
                    headers := Sanitized(p.headers, action.dropsBody, action.sameOrigin),
                    replayable := p.replayable || action.dropsBody);
    if p.maxAttempts == 1 && moved.replayable && c.eligible(moved.verb, moved.headers)
    then moved.(maxAttempts := c.configured) else moved
  }

  predicate Bounded(c: Setup, p: Progress) {
    && 1 <= p.attempt <= p.maxAttempts <= c.configured
    && p.redirects <= c.maxRedirects
    && (!p.replayable ==> p.maxAttempts == 1)
  }

  datatype Schedule = NotScheduled | Scheduled | NoTime | NoBudget

  function ScheduleOf(p: Progress, d: Decision): Schedule {
    if p.attempt >= p.maxAttempts || !d.wanted then NotScheduled
    else if !d.inTime then NoTime
    else if !d.funded then NoBudget
    else Scheduled
  }

  class RequestExecution {
    const setup: Setup
    var attempt: nat
    var maxAttempts: nat
    var redirects: nat
    var verb: string
    var uri: string
    var headers: Headers
    var replayable: bool

    constructor (c: Setup, r: Request)
      ensures setup == c && Value() == Start(c, r)
    {
      setup := c;
      attempt, redirects, verb, uri, headers, replayable := 1, 0, r.verb, r.uri, r.headers, r.body.Buffered?;
      maxAttempts := if c.eligible(r.verb, r.headers) && r.body.Buffered? then c.configured else 1;
    }

    function Value(): Progress
      reads this
    {
      Progress(attempt, maxAttempts, redirects, verb, uri, headers, replayable)
    }

    predicate CanAttempt()
      reads this
    {
      attempt <= maxAttempts
    }

    method TightenRetryEligibility(attemptHeaders: Headers)
      modifies this
      ensures Value() == Tightened(setup, old(Value()), attemptHeaders)
    {
      if maxAttempts > attempt && (!replayable || !setup.eligible(verb, attemptHeaders)) {
        maxAttempts := attempt;
      }
    }

    /** The attempt counter moves exactly when a retry is scheduled. */
    method PrepareRetrySchedule(d: Decision) returns (schedule: Schedule)
      modifies this`attempt
      ensures attempt == old(attempt) + if schedule == Scheduled then 1 else 0
      ensures schedule == ScheduleOf(old(Value()), d)
    {
      if attempt >= maxAttempts || !d.wanted {
        return NotScheduled;
      }
      if !d.inTime {
        return NoTime;
      }
      if !d.funded {
        return NoBudget;
      }
      attempt := attempt + 1;
      schedule := Scheduled;
    }

    method ApplyRedirect(action: Action) returns (dropsBody: bool)
      modifies this
      ensures Value() == Redirected(setup, old(Value()), action) && dropsBody == action.dropsBody
    {
      dropsBody := action.dropsBody;
      headers := Sanitized(headers, dropsBody, action.sameOrigin);
      verb, uri, redirects := action.verb, action.uri, redirects + 1;
      if dropsBody {
        replayable := true;
      }
      if maxAttempts == 1 && replayable && setup.eligible(verb, headers) {
        maxAttempts := setup.configured;
      }
    }
  }

  // ---------------------------------------------------------- what a turn should do

  /** How a turn goes on or ends. */
  datatype Fate = Fate(ending: Option<Ending>, retried: bool, hop: Option<Action>)

  function Ends(ending: Ending): Fate {
    Fate(Some(ending), false, None)
  }

  /** What stops a turn before anything is sent. */
  function Stopped(w: World): Option<Ending> {
    if w.droppedAt == Some(Slot) then Some(Abandoned)
    else if !w.slot then Some(Failed(RateLimited))
    else if w.droppedAt == Some(HostPermit) then Some(Abandoned)
    else if !w.host then Some(Failed(HostLimited))
    else if w.circuit.Refused? then Some(Failed(CircuitOpen))
    else if w.droppedAt == Some(AdaptivePermit) then Some(Abandoned)
    else if w.adaptive.Refused? then Some(Failed(AdaptiveLimited))
    else if !w.framed then Some(Failed(Framing))
    else if !w.sendInTime then Some(Failed(Deadline))
    else None
  }

  /** A retry that is wanted goes on or fails; `None` leaves the attempt open. */
  function Diverted(p: Progress, d: Decision, w: World): Option<Fate> {
    match ScheduleOf(p, d)
    case NotScheduled => None
    case Scheduled => Some(Fate(if w.droppedAt == Some(Sleep) then Some(Abandoned) else None, true, None))
    case NoTime => Some(Ends(Failed(Deadline)))
    case NoBudget => Some(Ends(Failed(Unfunded)))
  }

  function RetryFate(p: Progress, d: Decision, w: World, otherwise: Fate): Fate {
    var diverted := Diverted(p, d, w);
    if diverted.Some? then diverted.value else otherwise
  }

  function LostFate(p: Progress, w: World): Fate
    requires w.reply.Lost?
  {
    var lost := Ends(Failed(Transported(w.reply.loss)));
    if w.reply.loss == Retryable then RetryFate(p, w.reply.retry, w, lost) else lost
  }

  function ReadFate(c: Setup, p: Progress, w: World): Fate
    requires w.reply.Answer?
  {
    if !w.readInTime then Ends(Failed(Deadline))
    else if w.droppedAt == Some(BodyRead) then Ends(Abandoned)
    else match w.reading
      case Unusable => Ends(Failed(Error.Reading))
      case Broken(retry) => RetryFate(p, retry, w, Ends(Failed(Error.Reading)))
      case Whole =>
        if IsSuccess(w.reply.status) || (c.returnsNonSuccess && !c.streams) then Ends(Response(w.reply.status))
        else Ends(Failed(HttpStatus(w.reply.status)))
  }

  /** A stream inherits exactly the guards that were begun, and the budget, unless the response counts as a failure. */
  function HooksOf(c: Setup, w: World, status: int): Option<Hooks> {
    if c.Completes(status) && (c.budgeted || w.circuit.Guarded? || w.adaptive.Guarded?)
    then Some(Hooks(w.circuit.Guarded?, w.adaptive.Guarded?, c.budgeted)) else None
  }

  function FinalFate(c: Setup, p: Progress, w: World): Fate
    requires w.reply.Answer?
  {
    var status := w.reply.status;
    var streamed := Ends(Stream(status, HooksOf(c, w, status)));
    if IsSuccess(status) then (if c.streams then streamed else ReadFate(c, p, w))
    else RetryFate(p, w.reply.retry, w, if c.streams && c.returnsNonSuccess then streamed else ReadFate(c, p, w))
  }

  function ActionOf(c: Setup, p: Progress, w: World): Result<Option<Action>, Refusal>
    requires w.reply.Answer?
  {
    NextAction(c.uris, c.maxRedirects, p.redirects, p.verb, p.uri, p.replayable, w.reply.status, w.reply.location)
  }

  function AnswerFate(c: Setup, p: Progress, w: World): Fate
    requires w.reply.Answer?
  {
    match ActionOf(c, p, w)
    case Err(refusal) => Ends(Failed(Redirecting(refusal)))
    case Ok(Some(action)) => Fate(None, false, Some(action))
    case Ok(None) => FinalFate(c, p, w)
  }

  /** Once the request is on the wire; `p` is the state the interceptors left. */
  function SentFate(c: Setup, p: Progress, w: World): Fate {
    if w.droppedAt == Some(Transport) then Ends(Abandoned)
    else if w.reply.Lost? then LostFate(p, w)
    else AnswerFate(c, p, w)
  }

  function FateOf(c: Setup, p: Progress, w: World): Fate {
    var refused := Stopped(w);
    if refused.Some? then Ends(refused.value) else SentFate(c, Tightened(c, p, w.headers), w)
  }

  function After(c: Setup, p: Progress, headers: Headers, fate: Fate): Progress {
    var tight := Tightened(c, p, headers);
    if fate.hop.Some? then Redirected(c, tight, fate.hop.value)
    else tight.(attempt := tight.attempt + if fate.retried then 1 else 0)
  }

  // ---------------------------------------------------------- what the guards deserve

  /** A stream takes the guards over unless its response counts as a failure. */
  predicate HandsOn(c: Setup, fate: Fate) {
    fate.ending.Some? && fate.ending.value.Stream? && c.Completes(fate.ending.value.status)
  }

  function Judged(c: Setup, fate: Fate, sent: bool): Outcome {
    if fate.retried then Failure
    else match fate.ending
      case None => Success
      case Some(Response(status)) => if c.Completes(status) then Success else Failure
      case Some(Stream(status, _)) => if c.Completes(status) then Success else Failure
      case Some(Abandoned) => Cancel
      case Some(Failed(HttpStatus(status))) => if c.Completes(status) then Success else Failure
      case Some(Failed(error)) => if !sent || error == Transported(Unclassified) then Cancel else Failure
  }

  /** Given its outcome exactly once, by the code itself unless the loop was dropped, or moved into the stream. */
  predicate Linear(c: Setup, seat: Seat, fate: Fate, sent: bool) {
    if HandsOn(c, fate) then Moved(seat)
    else Settled(seat, Judged(c, fate, sent), fate.ending == Some(Abandoned) && !fate.retried)
  }

  /** The budget is credited by a buffered request that completes. */
  function Credit(c: Setup, fate: Fate): nat {
    match fate.ending
    case Some(Response(status)) => if c.budgeted && c.Completes(status) then 1 else 0
    case Some(Failed(HttpStatus(status))) => if c.budgeted && c.Completes(status) then 1 else 0
    case _ => 0
  }

  // ---------------------------------------------------------- one turn of the loop

  /** The guards of a turn that have been begun as the gates allow and given no outcome yet. */
  ghost predicate Guarding(guards: AttemptGuards, w: World)
    reads guards
  {
    guards.circuit == Begun(w.circuit.Guarded?) && guards.adaptive == Begun(w.adaptive.Guarded?)
  }

  ghost predicate Concluded(c: Setup, guards: AttemptGuards, w: World, fate: Fate, sent: bool)
    reads guards
  {
    && Linear(c, guards.circuit, fate, sent) && Linear(c, guards.adaptive, fate, sent)
    && (sent ==> guards.circuit.begun == w.circuit.Guarded? && guards.adaptive.begun == w.adaptive.Guarded?)
  }

  /** The waits, the gates, the interceptors and the checks before anything is sent. */
  method Admit(c: Setup, execution: RequestExecution, w: World) returns (ending: Option<Ending>, guards: AttemptGuards)
    requires execution.setup == c
    modifies execution
    ensures fresh(guards) && ending == Stopped(w)
    ensures if ending.None?
            then Guarding(guards, w) && execution.Value() == Tightened(c, old(execution.Value()), w.headers)
            else Concluded(c, guards, w, Ends(ending.value), false)
  {
    guards := new AttemptGuards(false);
    if w.droppedAt == Some(Slot) { return Some(Abandoned), guards; }
    if !w.slot { return Some(Failed(RateLimited)), guards; }
    if w.droppedAt == Some(HostPermit) { return Some(Abandoned), guards; }
    if !w.host { return Some(Failed(HostLimited)), guards; }
    if w.circuit.Refused? { return Some(Failed(CircuitOpen)), guards; }
    guards := new AttemptGuards(w.circuit.Guarded?);
    if w.droppedAt == Some(AdaptivePermit) {
      guards.Conclude(Cancel, true);
      return Some(Abandoned), guards;
    }
    if w.adaptive.Refused? {
      guards.Conclude(Cancel, false);
      return Some(Failed(AdaptiveLimited)), guards;
    }
    guards.SetAdaptive(w.adaptive.Guarded?);
    execution.TightenRetryEligibility(w.headers);
    if !w.framed {
      guards.Conclude(Cancel, false);
      return Some(Failed(Framing)), guards;
    }
    if !w.sendInTime {
      guards.Conclude(Cancel, false);
      return Some(Failed(Deadline)), guards;
    }
    ending := None;
  }

  /** Counts the attempt and fails its guards unless the attempt stays open. */
  method Retry(c: Setup, execution: RequestExecution, guards: AttemptGuards, d: Decision, w: World)
    returns (diverted: Option<Fate>)
    requires Guarding(guards, w)
    modifies execution`attempt, guards
    ensures diverted == Diverted(old(execution.Value()), d, w)
    ensures execution.attempt == old(execution.attempt) + if diverted.Some? && diverted.value.retried then 1 else 0
    ensures if diverted.None? then Guarding(guards, w) else Concluded(c, guards, w, diverted.value, true)
  {
    var schedule := execution.PrepareRetrySchedule(d);
    match schedule {
      case NotScheduled => return None;
      case Scheduled =>
        guards.Conclude(Failure, false);
        diverted := Some(Fate(if w.droppedAt == Some(Sleep) then Some(Abandoned) else None, true, None));
      case NoTime =>
        guards.Conclude(Failure, false);
        diverted := Some(Ends(Failed(Deadline)));
      case NoBudget =>
        guards.Conclude(Failure, false);
        diverted := Some(Ends(Failed(Unfunded)));
    }
  }

  method OnLost(c: Setup, execution: RequestExecution, guards: AttemptGuards, w: World) returns (fate: Fate)
    requires Guarding(guards, w) && w.reply.Lost?
    modifies execution`attempt, guards
    ensures fate == LostFate(old(execution.Value()), w) && Concluded(c, guards, w, fate, true)
    ensures fate.hop.None? && Credit(c, fate) == 0
    ensures execution.attempt == old(execution.attempt) + if fate.retried then 1 else 0
  {
    fate := Ends(Failed(Transported(w.reply.loss)));
    match w.reply.loss {
      case Retryable =>
        var diverted := Retry(c, execution, guards, w.reply.retry, w);
        if diverted.Some? {
          return diverted.value;
        }
        guards.Conclude(Failure, false);
      case PastDeadline => guards.Conclude(Failure, false);
      case Unclassified => guards.Conclude(Cancel, false);
    }
  }

  /** The response is final but for its body, which is read whole, retried or given up. */
  method ReadResponse(c: Setup, execution: RequestExecution, guards: AttemptGuards, w: World)
    returns (fate: Fate, credits: nat)
    requires Guarding(guards, w) && w.reply.Answer?
    modifies execution`attempt, guards
    ensures fate == ReadFate(c, old(execution.Value()), w) && Concluded(c, guards, w, fate, true)
    ensures execution.attempt == old(execution.attempt) + if fate.retried then 1 else 0
    ensures credits == Credit(c, fate)
  {
    credits := 0;
    if !w.readInTime {
      guards.Conclude(Failure, false);
      return Ends(Failed(Deadline)), 0;
    }
    if w.droppedAt == Some(BodyRead) {
      guards.Conclude(Cancel, true);
      return Ends(Abandoned), 0;
    }
    match w.reading {
      case Unusable =>
        guards.Conclude(Failure, false);
        fate := Ends(Failed(Error.Reading));
      case Broken(retry) =>
        var diverted := Retry(c, execution, guards, retry, w);
        if diverted.Some? {
          return diverted.value, 0;
        }
        guards.Conclude(Failure, false);
        fate := Ends(Failed(Error.Reading));
      case Whole =>
        var completed := c.Completes(w.reply.status);
        guards.Conclude(if completed then Success else Failure, false);
        credits := if completed && c.budgeted then 1 else 0;
        fate := Ends(if IsSuccess(w.reply.status) || (c.returnsNonSuccess && !c.streams) then Response(w.reply.status)
                     else Failed(HttpStatus(w.reply.status)));
    }
  }

  /** A response that is not followed: stream it, retry its status, or read it. */
  method OnFinalAnswer(c: Setup, execution: RequestExecution, guards: AttemptGuards, w: World)
    returns (fate: Fate, credits: nat)
    requires Guarding(guards, w) && w.reply.Answer?
    modifies execution`attempt, guards
    ensures fate == FinalFate(c, old(execution.Value()), w) && Concluded(c, guards, w, fate, true) && fate.hop.None?
    ensures execution.attempt == old(execution.attempt) + if fate.retried then 1 else 0
    ensures credits == Credit(c, fate)
  {
    var status := w.reply.status;
    if c.streams && IsSuccess(status) {
      var hooks := guards.IntoStream(true, c.budgeted);
      return Ends(Stream(status, hooks)), 0;
    }
    if !IsSuccess(status) {
      var diverted := Retry(c, execution, guards, w.reply.retry, w);
      if diverted.Some? {
        return diverted.value, 0;
      }
      if c.streams && c.returnsNonSuccess {
        var hooks := guards.IntoStream(c.Completes(status), c.budgeted);
        return Ends(Stream(status, hooks)), 0;
      }
    }
    fate, credits := ReadResponse(c, execution, guards, w);
  }

  method OnAnswer(c: Setup, execution: RequestExecution, guards: AttemptGuards, w: World)
    returns (fate: Fate, credits: nat)
    requires execution.setup == c && Guarding(guards, w) && w.reply.Answer?
    modifies execution, guards
    ensures fate == AnswerFate(c, old(execution.Value()), w) && Concluded(c, guards, w, fate, true)
    ensures var p := old(execution.Value());
            execution.Value() == if fate.hop.Some? then Redirected(c, p, fate.hop.value)
                                 else p.(attempt := p.attempt + if fate.retried then 1 else 0)
    ensures credits == Credit(c, fate)
  {
    hide Redirected, NextAction, FinalFate;
    var next := NextAction(c.uris, c.maxRedirects, execution.redirects, execution.verb, execution.uri,
                           execution.replayable, w.reply.status, w.reply.location);
    match next {
      case Err(refusal) =>
        guards.Conclude(Failure, false);
        fate, credits := Ends(Failed(Redirecting(refusal))), 0;
      case Ok(Some(action)) =>
        guards.Conclude(Success, false);
        var _ := execution.ApplyRedirect(action);
        fate, credits := Fate(None, false, Some(action)), 0;
      case Ok(None) =>
        fate, credits := OnFinalAnswer(c, execution, guards, w);
    }
  }

  /** What one turn did: where it started, what it sent, how it went on, and what became of its guards. */
  datatype Turn = Turn(at: Progress, world: World, sent: Option<Body>, circuit: Seat, adaptive: Seat)

  /** A turn that did what its world calls for and settled its guards. */
  predicate Proper(c: Setup, t: Turn, fate: Fate) {
    && fate == FateOf(c, t.at, t.world)
    && (t.sent.Some? <==> Stopped(t.world).None?)
    && (t.sent.Some? ==> t.circuit.begun == t.world.circuit.Guarded? && t.adaptive.begun == t.world.adaptive.Guarded?)
    && Linear(c, t.circuit, fate, t.sent.Some?) && Linear(c, t.adaptive, fate, t.sent.Some?)
  }

  method OneTurn(c: Setup, execution: RequestExecution, body: Body, w: World)
    returns (fate: Fate, left: Body, t: Turn, credits: nat)
    requires execution.setup == c
    modifies execution
    ensures t.at == old(execution.Value()) && t.world == w && Proper(c, t, fate)
    ensures t.sent.Some? ==> t.sent.value == body
    ensures fate.ending.None? ==> execution.Value() == After(c, t.at, w.headers, fate)
    ensures fate.ending.None? ==>
              left == if body.Streaming? || (fate.hop.Some? && fate.hop.value.dropsBody) then EMPTY_BODY else body
    ensures credits == Credit(c, fate)
  {
    hide Redirected, AnswerFate, LostFate, Linear;
    var at := execution.Value();
    left, credits := body, 0;
    var refused, guards := Admit(c, execution, w);
    if refused.Some? {
      fate, t := Ends(refused.value), Turn(at, w, None, guards.circuit, guards.adaptive);
      return;
    }
    var sent;
    sent, left := TakeForAttempt(body);
    if w.droppedAt == Some(Transport) {
      fate := Ends(Abandoned);
      Abandon(c, guards, w);
    } else if w.reply.Lost? {
      fate := OnLost(c, execution, guards, w);
    } else {
      fate, credits := OnAnswer(c, execution, guards, w);
    }
    if fate.hop.Some? && fate.hop.value.dropsBody {
      left := EMPTY_BODY;
    }
    t := Turn(at, w, Some(sent), guards.circuit, guards.adaptive);
  }

  /** The loop's future is dropped while its guards are held. */
  method Abandon(c: Setup, guards: AttemptGuards, w: World)
    requires Guarding(guards, w)
    modifies guards
    ensures Concluded(c, guards, w, Ends(Abandoned), true)
  {
    guards.Conclude(Cancel, true);
  }
}
