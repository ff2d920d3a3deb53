/** Whole runs of the retry and redirect loop: they end, replay safely, keep credentials home and settle every guard. */
module RequestRuns {
  import opened Wrappers
  import opened Redirects
  import opened Attempts
  import opened Execution

  ghost function FateIn(c: Setup, t: Turn): Fate {
    FateOf(c, t.at, t.world)
  }

  ghost predicate DroppedBody(c: Setup, t: Turn) {
    var hop := FateIn(c, t).hop;
    hop.Some? && hop.value.dropsBody
  }

  /** The body owed after the given turns: the original one until a redirect drops it. */
  ghost function Owed(c: Setup, request: Request, before: seq<Turn>): Body {
    if exists t :: t in before && DroppedBody(c, t) then EMPTY_BODY else request.body
  }

  ghost function Next(c: Setup, t: Turn): Progress {
    After(c, t.at, t.world.headers, FateIn(c, t))
  }

  ghost function StateAt(c: Setup, request: Request, before: seq<Turn>): Progress {
    if before == [] then Start(c, request) else Next(c, before[|before| - 1])
  }

  /** Turn `k` starts where its predecessor ended, within the bounds, sends what is owed and does what its world calls for. */
  ghost predicate GoodTurn(c: Setup, request: Request, worlds: nat -> World, log: seq<Turn>, k: nat)
    requires k < |log|
  {
    var t, owed := log[k], Owed(c, request, log[..k]);
    && t.world == worlds(k) && Proper(c, t, FateIn(c, t))
    && t.at == StateAt(c, request, log[..k]) && Bounded(c, t.at)
    && t.at.attempt + t.at.redirects == k + 1
    && t.at.replayable == owed.Buffered?
    && (t.sent.Some? ==> t.sent.value == owed)
    && (k + 1 < |log| ==> FateIn(c, t).ending.None?)
  }

  ghost predicate GoodLog(c: Setup, request: Request, worlds: nat -> World, log: seq<Turn>) {
    forall k :: 0 <= k < |log| ==> GoodTurn(c, request, worlds, log, k)
  }

  // ---------------------------------------------------------- one turn within its limits

  /** The caller gets what it asked for: a stream exactly in streaming mode, a status error only where one is wanted. */
  predicate InMode(c: Setup, ending: Ending) {
    match ending
    case Response(status) => !c.streams && (IsSuccess(status) || c.returnsNonSuccess)
    case Stream(status, _) => c.streams && (IsSuccess(status) || c.returnsNonSuccess)
    case Failed(HttpStatus(status)) => !IsSuccess(status) && !c.returnsNonSuccess
    case _ => true
  }

  /** Retries need a replayable body and headers left eligible; a hop keeps method and body, or drops the body. */
  lemma FateKeepsLimits(c: Setup, p: Progress, w: World)
    ensures var fate := FateOf(c, p, w);
            && (fate.retried ==> fate.hop.None? && p.attempt < p.maxAttempts && p.replayable && c.eligible(p.verb, w.headers))
            && (fate.hop.Some? ==> fate.ending.None? && p.redirects < c.maxRedirects
                                   && (fate.hop.value.dropsBody || (p.replayable && fate.hop.value.verb == p.verb)))
            && (fate.ending.None? ==> (fate.retried || fate.hop.Some?) && Stopped(w).None?)
            && (fate.ending.Some? ==> InMode(c, fate.ending.value))
            && (w.droppedAt.None? ==> fate.ending != Some(Abandoned))
  {
    var tight := Tightened(c, p, w.headers);
    if w.reply.Answer? {
      FollowsTheStandard(c.uris, c.maxRedirects, tight.redirects, tight.verb, tight.uri, tight.replayable,
                         w.reply.status, w.reply.location);
    }
    hide NextAction;
  }

  /** What a turn that goes on leaves behind: bounds kept, one step closer to the end. */
  lemma NextIsBounded(c: Setup, t: Turn)
    requires c.Valid() && Bounded(c, t.at) && FateIn(c, t).ending.None?
    ensures var p := Next(c, t);
            && Bounded(c, p)
            && p.attempt + p.redirects == t.at.attempt + t.at.redirects + 1
            && (p.redirects > t.at.redirects || (p.redirects == t.at.redirects && p.attempt > t.at.attempt))
            && p.replayable == (t.at.replayable || DroppedBody(c, t))
  {
    FateKeepsLimits(c, t.at, t.world);
    hide FateOf, Sanitized;
  }

  // ---------------------------------------------------------- the loop

  lemma OwedNext(c: Setup, request: Request, log: seq<Turn>, t: Turn)
    ensures Owed(c, request, log + [t]) == if DroppedBody(c, t) then EMPTY_BODY else Owed(c, request, log)
  {
    hide DroppedBody;
    assert t in log + [t];
    assert forall u :: u in log ==> u in log + [t];
    assert forall u :: u in log + [t] ==> u in log || u == t;
  }

  /** A log stays good when a good turn is added to turns that all went on. */
  lemma GoodLogGrows(c: Setup, request: Request, worlds: nat -> World, log: seq<Turn>, t: Turn)
    requires GoodLog(c, request, worlds, log) && (log != [] ==> FateIn(c, log[|log| - 1]).ending.None?)
    requires t.world == worlds(|log|) && Proper(c, t, FateIn(c, t))
    requires t.at == StateAt(c, request, log) && Bounded(c, t.at) && t.at.attempt + t.at.redirects == |log| + 1
    requires t.at.replayable == Owed(c, request, log).Buffered?
    requires t.sent.Some? ==> t.sent.value == Owed(c, request, log)
    ensures GoodLog(c, request, worlds, log + [t])
  {
    hide Owed, StateAt, Bounded, FateIn, Proper;
    var longer := log + [t];
    forall k | 0 <= k < |longer| ensures GoodTurn(c, request, worlds, longer, k) {
      if k < |log| {
        assert GoodTurn(c, request, worlds, log, k);
        assert longer[..k] == log[..k];
      } else {
        assert longer[..k] == log;
      }
    }
  }

  /**
   * For every response sequence, every interceptor and every point at which the asynchronous loop may be dropped:
   * the loop ends, after at most the configured attempts plus the allowed redirects.
   */
  method Execute(c: Setup, request: Request, worlds: nat -> World)
    returns (ending: Ending, log: seq<Turn>, credits: nat)
    requires c.Valid()
    ensures log != [] && GoodLog(c, request, worlds, log) && |log| <= c.configured + c.maxRedirects
    ensures FateIn(c, log[|log| - 1]).ending == Some(ending) && InMode(c, ending)
    ensures credits == Credit(c, FateIn(c, log[|log| - 1]))
    ensures (forall k :: worlds(k).droppedAt.None?) ==> ending != Abandoned
  {
    var execution := new RequestExecution(c, request);
    var body := request.body;
    log, credits := [], 0;
    while execution.CanAttempt()
      invariant fresh(execution) && execution.setup == c && credits == 0
      invariant GoodLog(c, request, worlds, log) && (log != [] ==> FateIn(c, log[|log| - 1]).ending.None?)
      invariant execution.Value() == StateAt(c, request, log) && Bounded(c, execution.Value())
      invariant execution.attempt + execution.redirects == |log| + 1
      invariant body == Owed(c, request, log) && execution.replayable == body.Buffered?
      decreases c.maxRedirects - execution.redirects, c.configured - execution.attempt
    {
      hide GoodLog, Owed, After, FateOf, Proper, Credit;
      var fate, left, t, earned := OneTurn(c, execution, body, worlds(|log|));
      assert fate == FateIn(c, t) by { assert Proper(c, t, fate); ProperFate(c, t, fate); }
      FateKeepsLimits(c, t.at, t.world);
      GoodLogGrows(c, request, worlds, log, t);
      OwedNext(c, request, log, t);
      log, credits := log + [t], credits + earned;
      if fate.ending.Some? {
        return fate.ending.value, log, credits;
      }
      GoingOnCreditsNothing(c, fate);
      NextIsBounded(c, t);
      body := left;
    }
    assert false;
  }

  lemma ProperFate(c: Setup, t: Turn, fate: Fate)
    requires Proper(c, t, fate)
    ensures fate == FateIn(c, t)
  {
  }

  lemma GoingOnCreditsNothing(c: Setup, fate: Fate)
    requires fate.ending.None?
    ensures Credit(c, fate) == 0
  {
  }

  // ---------------------------------------------------------- what every run keeps

  lemma StateStep(c: Setup, request: Request, worlds: nat -> World, log: seq<Turn>, k: nat)
    requires GoodLog(c, request, worlds, log) && 0 < k < |log|
    ensures log[k].at == Next(c, log[k - 1]) && FateIn(c, log[k - 1]).ending.None?
  {
    hide FateIn, Proper, Bounded, Owed, Next;
    assert GoodTurn(c, request, worlds, log, k) && GoodTurn(c, request, worlds, log, k - 1);
    assert log[..k][k - 1] == log[k - 1];
  }

  /** A stream is sent at most once, and what is sent after it is the empty body that a redirect asked for. */
  lemma StreamSentOnce(c: Setup, request: Request, worlds: nat -> World, log: seq<Turn>, j: nat, k: nat)
    requires GoodLog(c, request, worlds, log) && j < k < |log|
    requires log[j].sent.Some? && log[j].sent.value.Streaming?
    ensures DroppedBody(c, log[j])
    ensures log[k].sent.Some? ==> log[k].sent.value == EMPTY_BODY
  {
    hide FateOf, Proper, After;
    assert GoodTurn(c, request, worlds, log, j) && GoodTurn(c, request, worlds, log, k);
    StateStep(c, request, worlds, log, j + 1);
    FateKeepsLimits(c, log[j].at, log[j].world);
    assert log[j] in log[..k];
  }

  /** Every body that is sent is the original one, under the original method, or the empty one after it was dropped. */
  lemma {:induction false} BodyKeepsItsMethod(c: Setup, request: Request, worlds: nat -> World, log: seq<Turn>, k: nat)
    requires GoodLog(c, request, worlds, log) && k < |log|
    ensures log[k].at.verb == request.verb || exists i :: 0 <= i < k && DroppedBody(c, log[i])
    ensures log[k].sent.Some? ==>
              || (log[k].sent.value == request.body && log[k].at.verb == request.verb)
              || (log[k].sent.value == EMPTY_BODY && exists i :: 0 <= i < k && DroppedBody(c, log[i]))
    decreases k
  {
    hide FateOf, Proper, Sanitized, Bounded;
    assert GoodTurn(c, request, worlds, log, k);
    if k > 0 {
      BodyKeepsItsMethod(c, request, worlds, log, k - 1);
      StateStep(c, request, worlds, log, k);
      FateKeepsLimits(c, log[k - 1].at, log[k - 1].world);
    }
    if i :| 0 <= i < k && DroppedBody(c, log[i]) {
      assert log[i] in log[..k];
    } else {
      assert forall t :: t in log[..k] ==> !DroppedBody(c, t);
    }
  }

  /** The headers a turn starts from are its predecessor's, less what a hop must take away. */
  lemma HeadersStep(c: Setup, t: Turn)
    ensures var hop := FateIn(c, t).hop;
            Next(c, t).headers == if hop.Some? then Sanitized(t.at.headers, hop.value.dropsBody, hop.value.sameOrigin)
                                  else t.at.headers
  {
    hide FateOf, Sanitized;
  }

  lemma {:induction false} HeadersShrink(c: Setup, request: Request, worlds: nat -> World, log: seq<Turn>, j: nat, k: nat)
    requires GoodLog(c, request, worlds, log) && j <= k < |log|
    ensures Within(log[k].at.headers, log[j].at.headers)
    decreases k - j
  {
    hide FateOf, Next, GoodLog, Sanitized;
    if j < k {
      HeadersShrink(c, request, worlds, log, j, k - 1);
      StateStep(c, request, worlds, log, k);
      var t := log[k - 1];
      HeadersStep(c, t);
      var hop := FateIn(c, t).hop;
      if hop.Some? {
        SanitizedIsSafe(t.at.headers, hop.value.dropsBody, hop.value.sameOrigin);
      }
    }
  }

  /** A turn hops exactly on a redirect it may follow, and the next turn is at the address the location resolves to. */
  lemma HopsExactly(c: Setup, p: Progress, w: World)
    ensures var hop := FateOf(c, p, w).hop;
            var drops := w.reply.Answer? && (w.reply.status == 303 || (w.reply.status in {301, 302} && p.verb == "POST"));
            && (hop.Some? <==>
                  && Stopped(w).None? && w.droppedAt != Some(Transport) && w.reply.Answer?
                  && w.reply.status in {301, 302, 303, 307, 308} && p.redirects < c.maxRedirects
                  && (p.replayable || drops)
                  && w.reply.location.Some? && c.uris.resolve(p.uri, w.reply.location.value).Some?)
            && (hop.Some? ==>
                  && hop.value.uri == c.uris.resolve(p.uri, w.reply.location.value).value
                  && hop.value.sameOrigin == c.uris.sameOrigin(p.uri, hop.value.uri)
                  && hop.value.dropsBody == drops)
  {
    var tight := Tightened(c, p, w.headers);
    if w.reply.Answer? {
      FollowedExactly(c.uris, c.maxRedirects, tight.redirects, tight.verb, tight.uri, tight.replayable,
                      w.reply.status, w.reply.location);
    }
    hide NextAction;
  }

  /**
    After a hop from one origin to another no later turn starts from a credential, however many hops bring it back;
    and after a dropped body none starts from a header about it.
   */
  lemma CredentialsStayHome(c: Setup, request: Request, worlds: nat -> World, log: seq<Turn>, j: nat, k: nat)
    requires GoodLog(c, request, worlds, log) && j < k < |log| && FateIn(c, log[j]).hop.Some?
    ensures worlds(j).reply.Answer? && worlds(j).reply.location.Some?
    ensures c.uris.resolve(log[j].at.uri, worlds(j).reply.location.value) == Some(log[j + 1].at.uri)
    ensures !c.uris.sameOrigin(log[j].at.uri, log[j + 1].at.uri) ==> !HasCredentials(log[k].at.headers)
    ensures DroppedBody(c, log[j]) ==> log[k].at.headers.Keys !! CONTENT
  {
    assert GoodTurn(c, request, worlds, log, j);
    HopsExactly(c, log[j].at, log[j].world);
    StateStep(c, request, worlds, log, j + 1);
    HopMoves(c, log[j]);
    hide FateOf, Next, GoodLog, Sanitized, HasCredentials;
    var hop := FateIn(c, log[j]).hop.value;
    HeadersStep(c, log[j]);
    SanitizedIsSafe(log[j].at.headers, hop.dropsBody, hop.sameOrigin);
    HeadersShrink(c, request, worlds, log, j + 1, k);
    if !hop.sameOrigin {
      FewerHasFewerCredentials(log[k].at.headers, log[j + 1].at.headers);
    }
  }

  lemma HopMoves(c: Setup, t: Turn)
    requires FateIn(c, t).hop.Some?
    ensures Next(c, t).uri == FateIn(c, t).hop.value.uri && Next(c, t).verb == FateIn(c, t).hop.value.verb
  {
    hide FateOf, Sanitized;
  }

  /** A retried turn sent buffered bytes, with headers its own interceptors left eligible. */
  lemma RetriesAreEligible(c: Setup, request: Request, worlds: nat -> World, log: seq<Turn>, k: nat)
    requires GoodLog(c, request, worlds, log) && k < |log| && FateIn(c, log[k]).retried
    ensures log[k].sent.Some? && log[k].sent.value.Buffered? && c.eligible(log[k].at.verb, worlds(k).headers)
  {
    assert GoodTurn(c, request, worlds, log, k);
    FateKeepsLimits(c, log[k].at, log[k].world);
    RetriedWasSent(c, log[k].at, log[k].world);
    hide FateOf;
  }

  lemma RetriedWasSent(c: Setup, p: Progress, w: World)
    ensures FateOf(c, p, w).retried ==> Stopped(w).None?
  {
    hide SentFate;
  }

  /** The retry decision that a turn comes to, if any. */
  function Decisive(c: Setup, w: World): Option<Decision> {
    if w.reply.Lost? then (if w.reply.loss == Retryable then Some(w.reply.retry) else None)
    else if !IsSuccess(w.reply.status) && w.reply.retry.wanted then Some(w.reply.retry)
    else if c.streams && (IsSuccess(w.reply.status) || c.returnsNonSuccess) then None
    else if w.readInTime && w.droppedAt != Some(BodyRead) && w.reading.Broken? then Some(w.reading.retry)
    else None
  }

  /** A turn is retried exactly when attempts are left, the request may be repeated, and policy, deadline and budget agree. */
  lemma RetriesExactly(c: Setup, p: Progress, w: World)
    ensures FateOf(c, p, w).retried <==>
            && Stopped(w).None? && w.droppedAt != Some(Transport)
            && p.attempt < p.maxAttempts && p.replayable && c.eligible(p.verb, w.headers)
            && (w.reply.Answer? ==> c.maxRedirects == 0 || w.reply.status !in {301, 302, 303, 307, 308})
            && var d := Decisive(c, w); d.Some? && d.value == Decision(true, true, true)
  {
    var tight := Tightened(c, p, w.headers);
    if w.reply.Answer? {
      FollowedExactly(c.uris, c.maxRedirects, tight.redirects, tight.verb, tight.uri, tight.replayable,
                      w.reply.status, w.reply.location);
    }
    hide NextAction;
  }

  /** What each begun guard of a turn was told, by what happened to the turn. */
  lemma GuardsHearWhatHappened(c: Setup, t: Turn, seat: Seat)
    requires Proper(c, t, FateIn(c, t)) && seat in {t.circuit, t.adaptive} && seat.begun
    ensures var fate := FateIn(c, t);
            && (fate.retried ==> seat.reports == [Report(Failure, false)])
            && (fate.hop.Some? ==> seat.reports == [Report(Success, false)])
            && (t.sent.None? ==> seat.reports == [Report(Cancel, fate.ending == Some(Abandoned))])
            && (t.sent.Some? && !fate.retried && fate.ending == Some(Abandoned) ==> seat.reports == [Report(Cancel, true)])
            && (t.sent.Some? && t.world.droppedAt != Some(Transport) && t.world.reply.Lost? ==>
                  seat.reports == [Report(if t.world.reply.loss == Unclassified then Cancel else Failure, false)])
  {
    FateKeepsLimits(c, t.at, t.world);
    if t.sent.Some? && t.world.droppedAt != Some(Transport) && t.world.reply.Lost? {
      LossFate(c, t.at, t.world);
    }
    RetriedWasSent(c, t.at, t.world);
    hide FateOf;
  }

  lemma LossFate(c: Setup, p: Progress, w: World)
    requires Stopped(w).None? && w.droppedAt != Some(Transport) && w.reply.Lost?
    ensures var fate := FateOf(c, p, w);
            && fate.hop.None?
            && (w.reply.loss == Unclassified ==> fate == Ends(Failed(Transported(Unclassified))))
            && (w.reply.loss != Unclassified && !fate.retried ==>
                  fate.ending in {Some(Failed(Transported(w.reply.loss))), Some(Failed(Deadline)), Some(Failed(Unfunded))})
  {
  }

  /** A buffered response completes, and pays into the budget, exactly when it is a success or not worth a retry. */
  lemma CompletionIsPaid(c: Setup, t: Turn, status: int)
    requires Proper(c, t, FateIn(c, t)) && FateIn(c, t).ending in {Some(Response(status)), Some(Failed(HttpStatus(status)))}
    ensures var good := 200 <= status < 300 || !c.retryable(status);
            && Credit(c, FateIn(c, t)) == (if c.budgeted && good then 1 else 0)
            && (t.circuit.begun ==> t.circuit.reports == [Report(if good then Success else Failure, false)])
            && (t.adaptive.begun ==> t.adaptive.reports == [Report(if good then Success else Failure, false)])
  {
    AnsweredWasSent(c, t.at, t.world);
    hide FateOf;
  }

  lemma AnsweredWasSent(c: Setup, p: Progress, w: World)
    ensures var fate := FateOf(c, p, w);
            fate.ending.Some? && (fate.ending.value.Response? || (fate.ending.value.Failed? && fate.ending.value.error.HttpStatus?))
            ==> !fate.retried && fate.hop.None?
  {
    hide NextAction;
  }

  /** Something is sent exactly when no wait was dropped and every gate and check lets the turn through. */
  lemma SendsExactly(w: World)
    ensures Stopped(w).None? <==>
            && w.droppedAt !in {Some(Slot), Some(HostPermit), Some(AdaptivePermit)}
            && w.slot && w.host && !w.circuit.Refused? && !w.adaptive.Refused? && w.framed && w.sendInTime
    ensures Stopped(w) == Some(Failed(RateLimited)) ==> !w.slot
    ensures Stopped(w) == Some(Failed(HostLimited)) ==> w.slot && !w.host
    ensures Stopped(w) == Some(Failed(CircuitOpen)) ==> w.slot && w.host && w.circuit.Refused?
    ensures Stopped(w) == Some(Failed(AdaptiveLimited)) ==> w.adaptive.Refused? && !w.circuit.Refused?
    ensures Stopped(w) == Some(Failed(Framing)) ==> !w.framed
    ensures Stopped(w) == Some(Failed(Deadline)) ==> w.framed && !w.sendInTime
  {
  }

  /** A response that is neither followed nor retried reaches the caller as its mode and status policy ask. */
  lemma AnswerReachesTheCaller(c: Setup, p: Progress, w: World)
    requires Stopped(w).None? && w.droppedAt.None? && w.reply.Answer?
    requires c.maxRedirects == 0 || w.reply.status !in {301, 302, 303, 307, 308}
    requires IsSuccess(w.reply.status) || !w.reply.retry.wanted
    ensures var status, ending := w.reply.status, FateOf(c, p, w).ending;
            var wanted := IsSuccess(status) || c.returnsNonSuccess;
            && (c.streams && wanted ==> ending == Some(Stream(status, HooksOf(c, w, status))))
            && (!c.streams && wanted && w.readInTime && w.reading.Whole? ==> ending == Some(Response(status)))
            && (!wanted && w.readInTime && w.reading.Whole? ==> ending == Some(Failed(HttpStatus(status))))
            && (!(c.streams && wanted) && !w.readInTime ==> ending == Some(Failed(Deadline)))
            && (!(c.streams && wanted) && w.readInTime && w.reading.Unusable? ==> ending == Some(Failed(Error.Reading)))
  {
    var tight := Tightened(c, p, w.headers);
    FollowedExactly(c.uris, c.maxRedirects, tight.redirects, tight.verb, tight.uri, tight.replayable,
                    w.reply.status, w.reply.location);
    hide NextAction, HooksOf;
  }

  // ---------------------------------------------------------- what a run must do

  /** A request that the network keeps losing, retryably, in time and within the budget. */
  predicate AlwaysLost(w: World) {
    Stopped(w).None? && w.droppedAt.None? && w.reply == Lost(Retryable, Decision(true, true, true))
  }

  lemma {:induction false} LostTurn(c: Setup, request: Request, worlds: nat -> World, log: seq<Turn>, k: nat)
    requires c.Valid() && GoodLog(c, request, worlds, log) && k < |log| && request.body.Buffered?
    requires (forall verb, headers :: c.eligible(verb, headers)) && forall i :: AlwaysLost(worlds(i))
    ensures log[k].at == Start(c, request).(attempt := k + 1)
    decreases k
  {
    assert GoodTurn(c, request, worlds, log, k);
    if k > 0 {
      LostTurn(c, request, worlds, log, k - 1);
      StateStep(c, request, worlds, log, k);
      assert GoodTurn(c, request, worlds, log, k - 1);
      assert AlwaysLost(worlds(k - 1));
    }
  }

  /** A replayable, eligible request that is lost every time uses every configured attempt before it fails. */
  lemma LossUsesEveryAttempt(c: Setup, request: Request, worlds: nat -> World, log: seq<Turn>)
    requires c.Valid() && GoodLog(c, request, worlds, log) && log != [] && request.body.Buffered?
    requires FateIn(c, log[|log| - 1]).ending.Some?
    requires (forall verb, headers :: c.eligible(verb, headers)) && forall i :: AlwaysLost(worlds(i))
    ensures |log| == c.configured && FateIn(c, log[|log| - 1]).ending == Some(Failed(Transported(Retryable)))
  {
    var last := |log| - 1;
    LostTurn(c, request, worlds, log, last);
    assert GoodTurn(c, request, worlds, log, last) && AlwaysLost(worlds(last));
    RetriesExactly(c, log[last].at, log[last].world);
    FateKeepsLimits(c, log[last].at, log[last].world);
  }

  /** The first answer asks for the result elsewhere, without the body; after that the network loses everything. */
  ghost predicate SeeOtherThenLost(c: Setup, worlds: nat -> World) {
    && Stopped(worlds(0)).None? && worlds(0).droppedAt.None? && worlds(0).reply.Answer?
    && worlds(0).reply.status == 303 && worlds(0).reply.location.Some?
    && forall i :: i > 0 ==> AlwaysLost(worlds(i))
  }

  lemma {:induction false} TurnAfterSeeOther(c: Setup, request: Request, worlds: nat -> World, log: seq<Turn>, k: nat)
    requires c.Valid() && GoodLog(c, request, worlds, log) && 0 < k < |log| && c.maxRedirects > 0
    requires forall verb, headers :: c.eligible(verb, headers)
    requires (forall uri, location :: c.uris.resolve(uri, location).Some?) && SeeOtherThenLost(c, worlds)
    ensures log[k].at.attempt == k && log[k].at.maxAttempts == c.configured && log[k].at.replayable
    decreases k
  {
    assert GoodTurn(c, request, worlds, log, k) && GoodTurn(c, request, worlds, log, k - 1);
    StateStep(c, request, worlds, log, k);
    var t := log[k - 1];
    HopsExactly(c, t.at, t.world);
    RetriesExactly(c, t.at, t.world);
    FateKeepsLimits(c, t.at, t.world);
    hide FateOf, Sanitized;
    if k > 1 {
      TurnAfterSeeOther(c, request, worlds, log, k - 1);
      assert AlwaysLost(worlds(k - 1));
    } else {
      assert log[..0] == [];
    }
  }

  /** Once a redirect drops the body, even a streamed request is given every configured attempt. */
  lemma DroppedBodyMayBeRetried(c: Setup, request: Request, worlds: nat -> World, log: seq<Turn>)
    requires c.Valid() && GoodLog(c, request, worlds, log) && log != [] && c.maxRedirects > 0
    requires FateIn(c, log[|log| - 1]).ending.Some?
    requires forall verb, headers :: c.eligible(verb, headers)
    requires (forall uri, location :: c.uris.resolve(uri, location).Some?) && SeeOtherThenLost(c, worlds)
    ensures |log| == c.configured + 1
  {
    var last := |log| - 1;
    assert GoodTurn(c, request, worlds, log, last);
    HopsExactly(c, log[last].at, log[last].world);
    RetriesExactly(c, log[last].at, log[last].world);
    FateKeepsLimits(c, log[last].at, log[last].world);
    hide FateOf;
    if last > 0 {
      TurnAfterSeeOther(c, request, worlds, log, last);
      assert AlwaysLost(worlds(last));
    }
  }

  /** A server that keeps redirecting, with the method and the body kept. */
  predicate AlwaysRedirected(w: World) {
    && Stopped(w).None? && w.droppedAt.None? && w.reply.Answer? && w.reply.status == 307 && w.reply.location.Some?
  }

  lemma {:induction false} RedirectedTurn(c: Setup, request: Request, worlds: nat -> World, log: seq<Turn>, k: nat)
    requires c.Valid() && GoodLog(c, request, worlds, log) && k < |log| && request.body.Buffered? && c.maxRedirects > 0
    requires (forall uri, location :: c.uris.resolve(uri, location).Some?) && forall i :: AlwaysRedirected(worlds(i))
    ensures log[k].at.redirects == k && log[k].at.replayable
    decreases k
  {
    assert GoodTurn(c, request, worlds, log, k);
    if k > 0 {
      RedirectedTurn(c, request, worlds, log, k - 1);
      StateStep(c, request, worlds, log, k);
      assert GoodTurn(c, request, worlds, log, k - 1);
      assert AlwaysRedirected(worlds(k - 1));
      HopsExactly(c, log[k - 1].at, log[k - 1].world);
      RetriesExactly(c, log[k - 1].at, log[k - 1].world);
      FateKeepsLimits(c, log[k - 1].at, log[k - 1].world);
      hide FateOf, Sanitized;
    }
  }

  /** An endless chain of redirects is followed exactly as often as allowed and then refused. */
  lemma RedirectsStopAtTheLimit(c: Setup, request: Request, worlds: nat -> World, log: seq<Turn>)
    requires c.Valid() && GoodLog(c, request, worlds, log) && log != [] && request.body.Buffered? && c.maxRedirects > 0
    requires FateIn(c, log[|log| - 1]).ending.Some?
    requires (forall uri, location :: c.uris.resolve(uri, location).Some?) && forall i :: AlwaysRedirected(worlds(i))
    ensures |log| == c.maxRedirects + 1
    ensures FateIn(c, log[|log| - 1]).ending == Some(Failed(Redirecting(LimitExceeded)))
  {
    var last := |log| - 1;
    RedirectedTurn(c, request, worlds, log, last);
    assert GoodTurn(c, request, worlds, log, last) && AlwaysRedirected(worlds(last));
    HopsExactly(c, log[last].at, log[last].world);
    LimitFate(c, log[last].at, log[last].world);
    FateKeepsLimits(c, log[last].at, log[last].world);
    hide FateOf;
  }

  lemma LimitFate(c: Setup, p: Progress, w: World)
    requires AlwaysRedirected(w) && 0 < c.maxRedirects <= p.redirects
    ensures FateOf(c, p, w).ending == Some(Failed(Redirecting(LimitExceeded)))
  {
  }

  // ---------------------------------------------------------- the request and its stream together

  /** A begun guard is given one outcome in all; one that was not begun is given none. */
  predicate OnceInAll(loop: Seat, stream: Seat) {
    |loop.reports| + |stream.reports| == if loop.begun then 1 else 0
  }

  lemma SettledTurn(c: Setup, t: Turn)
    requires Proper(c, t, FateIn(c, t)) && (FateIn(c, t).ending.Some? ==> !FateIn(c, t).ending.value.Stream?)
    ensures OnceInAll(t.circuit, UNUSED) && OnceInAll(t.adaptive, UNUSED)
  {
    hide FateOf;
  }

  /** A stream that is handed out inherits exactly the guards its turn began and did not settle. */
  lemma StreamInherits(c: Setup, t: Turn)
    requires Proper(c, t, FateIn(c, t)) && FateIn(c, t).ending.Some? && FateIn(c, t).ending.value.Stream?
    ensures var hooks := FateIn(c, t).ending.value.hooks;
            && (t.circuit.reports == [] ==> t.circuit.begun == (hooks.Some? && hooks.value.circuit))
            && (t.adaptive.reports == [] ==> t.adaptive.begun == (hooks.Some? && hooks.value.adaptive))
            && (t.circuit.reports != [] ==> hooks.None? && OnceInAll(t.circuit, UNUSED))
            && (t.adaptive.reports != [] ==> hooks.None? && OnceInAll(t.adaptive, UNUSED))
            && (hooks.Some? && hooks.value.budgeted <==> c.budgeted && Good(c, FateIn(c, t).ending.value.status))
            && Credit(c, FateIn(c, t)) == 0
  {
    StreamHooks(c, t.at, t.world);
    hide FateOf;
  }

  /** A status that is not a reason to retry. */
  predicate Good(c: Setup, status: int) {
    200 <= status < 300 || !c.retryable(status)
  }

  /** A request whose response was good, and whose stream, if it has one, was read to its end. */
  predicate PaysIn(c: Setup, ending: Ending, calls: seq<Call>) {
    match ending
    case Response(status) => Good(c, status)
    case Failed(HttpStatus(status)) => Good(c, status)
    case Stream(status, _) => Good(c, status) && calls != [] && calls[0] == CompleteSuccess
    case _ => false
  }

  lemma StreamHooks(c: Setup, p: Progress, w: World)
    ensures var ending := FateOf(c, p, w).ending;
            ending.Some? && ending.value.Stream? ==>
              Stopped(w).None? && ending.value.hooks == HooksOf(c, w, ending.value.status)
  {
    hide HooksOf, NextAction;
  }

  /** A whole logical request, with whatever the caller does with its stream. */
  method LogicalRequest(c: Setup, request: Request, worlds: nat -> World, calls: seq<Call>)
    returns (ending: Ending, log: seq<Turn>, circuit: Seat, adaptive: Seat, credits: nat)
    requires c.Valid()
    ensures log != [] && GoodLog(c, request, worlds, log) && FateIn(c, log[|log| - 1]).ending == Some(ending)
    ensures forall k :: 0 <= k < |log| - 1 ==> OnceInAll(log[k].circuit, UNUSED) && OnceInAll(log[k].adaptive, UNUSED)
    ensures OnceInAll(log[|log| - 1].circuit, circuit) && OnceInAll(log[|log| - 1].adaptive, adaptive)
    ensures credits == if c.budgeted && PaysIn(c, ending, calls) then 1 else 0
    ensures !ending.Stream? ==> circuit == UNUSED && adaptive == UNUSED
  {
    hide FateOf, Proper;
    ending, log, credits := Execute(c, request, worlds);
    circuit, adaptive := UNUSED, UNUSED;
    forall k | 0 <= k < |log| - 1
      ensures OnceInAll(log[k].circuit, UNUSED) && OnceInAll(log[k].adaptive, UNUSED)
    {
      assert GoodTurn(c, request, worlds, log, k);
      SettledTurn(c, log[k]);
    }
    assert GoodTurn(c, request, worlds, log, |log| - 1);
    if ending.Stream? {
      var lifecycle := ReadStream(ending.hooks, calls);
      StreamInherits(c, log[|log| - 1]);
      circuit, adaptive, credits := lifecycle.circuit, lifecycle.adaptive, credits + lifecycle.credits;
    } else {
      SettledTurn(c, log[|log| - 1]);
    }
  }
}
