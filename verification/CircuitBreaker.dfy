/** The circuit breaker with attempts that may report arbitrarily late. */
module CircuitBreaker {
  import opened Wrappers
  import opened Machine

  datatype Policy = Policy(failureThreshold: nat, openTimeout: nat, halfOpenMax: nat, successThreshold: nat) {
    predicate Valid() {
      && 1 <= failureThreshold <= USIZE_MAX && 1 <= openTimeout
      && 1 <= halfOpenMax <= USIZE_MAX && 1 <= successThreshold <= USIZE_MAX
    }
  }

  /** The identity of a generation: the address of its token, which may be reused once nobody holds it. */
  type Token = nat

  datatype Kind = ClosedKind | HalfOpenKind

  datatype State =
    | Closed(generation: Token, failures: nat)
    | Open(openedAt: int)
    | HalfOpen(generation: Token, active: nat, successes: nat)
  {
    predicate BelongsTo(token: Token) {
      !Open? && generation == token
    }
  }

  datatype Attempt = Attempt(generation: Token, kind: Kind)

  datatype Outcome = Success | Failure | Cancel

  function SatAdd(n: nat): nat {
    Min(n + 1, USIZE_MAX)
  }

  function SatSub(n: nat): nat {
    Max(n - 1, 0)
  }

  /** The state after `begin`, and the attempt or the time to wait. `token` is a newly allocated token. */
  function Begin(p: Policy, s: State, now: int, token: Token): (State, Result<Attempt, nat>) {
    match s
    case Closed(g, _) => (s, Ok(Attempt(g, ClosedKind)))
    case Open(openedAt) =>
      var elapsed := Max(now - openedAt, 0);
      if elapsed >= p.openTimeout then (HalfOpen(token, 1, 0), Ok(Attempt(token, HalfOpenKind)))
      else (s, Err(p.openTimeout - elapsed))
    case HalfOpen(g, active, successes) =>
      if active >= p.halfOpenMax || successes >= p.successThreshold then (s, Err(0))
      else (HalfOpen(g, SatAdd(active), successes), Ok(Attempt(g, HalfOpenKind)))
  }

  function CloseIfRecovered(p: Policy, s: State, token: Token): State {
    if s.HalfOpen? && s.active == 0 && s.successes >= p.successThreshold then Closed(token, 0) else s
  }

  /** The state after an attempt reports; a report from another generation changes nothing. */
  function Report(p: Policy, s: State, a: Attempt, outcome: Outcome, now: int, token: Token): State {
    if !s.BelongsTo(a.generation) then s
    else
      match (s, a.kind, outcome)
      case (Closed(g, _), ClosedKind, Success) => Closed(g, 0)
      case (Closed(g, failures), ClosedKind, Failure) =>
        if SatAdd(failures) >= p.failureThreshold then Open(now) else Closed(g, SatAdd(failures))
      case (HalfOpen(g, active, successes), HalfOpenKind, Success) =>
        CloseIfRecovered(p, HalfOpen(g, SatSub(active), SatAdd(successes)), token)
      case (HalfOpen(g, _, _), HalfOpenKind, Failure) => Open(now)
      case (HalfOpen(g, active, successes), HalfOpenKind, Cancel) =>
        CloseIfRecovered(p, HalfOpen(g, SatSub(active), successes), token)
      case _ => s
  }

  // ------------------------------------------------------- the whole system

  /** The breaker, its live attempts, and the reports its current generation has accepted. */
  datatype System = System(state: State, live: map<nat, Attempt>, log: seq<Outcome>)

  datatype Event =
    | Starts(id: nat, now: int, token: Token)
    | Reports(id: nat, outcome: Outcome, now: int, token: Token)

  ghost predicate InUse(y: System, token: Token) {
    y.state.BelongsTo(token) || exists i :: i in y.live && y.live[i].generation == token
  }

  /** A new attempt has a new name, only live attempts report, and an allocation is not in use. */
  ghost predicate Enabled(y: System, e: Event) {
    && !InUse(y, e.token)
    && (e.Starts? ==> e.id !in y.live)
    && (e.Reports? ==> e.id in y.live)
  }

  function SameGeneration(s: State, s': State): bool {
    !s.Open? && s'.BelongsTo(s.generation)
  }

  function Step(p: Policy, y: System, e: Event): System
    requires e.Reports? ==> e.id in y.live
  {
    match e
    case Starts(id, now, token) =>
      var (s, r) := Begin(p, y.state, now, token);
      System(s, if r.Ok? then y.live[id := r.value] else y.live, if SameGeneration(y.state, s) then y.log else [])
    case Reports(id, outcome, now, token) =>
      var a := y.live[id];
      var s := Report(p, y.state, a, outcome, now, token);
      System(s, y.live - {id},
             if !y.state.BelongsTo(a.generation) then y.log
             else if SameGeneration(y.state, s) then y.log + [outcome] else [])
  }

  function Answer(p: Policy, y: System, e: Event): Option<nat> {
    if e.Reports? then None
    else
      var (_, r) := Begin(p, y.state, e.now, e.token);
      if r.Ok? then None else Some(r.error)
  }

  /** The live attempts of the generation the breaker is in. */
  ghost function Current(y: System): set<nat> {
    set i | i in y.live && y.state.BelongsTo(y.live[i].generation)
  }

  function Successes(log: seq<Outcome>): nat {
    if log == [] then 0 else Successes(log[..|log| - 1]) + (if log[|log| - 1].Success? then 1 else 0)
  }

  /** Failures since the last success; cancellations do not count. */
  function RecentFailures(log: seq<Outcome>): nat {
    if log == [] then 0
    else match log[|log| - 1]
      case Success => 0
      case Failure => RecentFailures(log[..|log| - 1]) + 1
      case Cancel => RecentFailures(log[..|log| - 1])
  }

  ghost predicate Inv(p: Policy, y: System) {
    && (forall i :: i in Current(y) ==> y.live[i].kind == if y.state.Closed? then ClosedKind else HalfOpenKind)
    && match y.state
       case Closed(_, failures) => failures == RecentFailures(y.log) < p.failureThreshold
       case Open(_) => true
       case HalfOpen(_, active, successes) =>
         && active == |Current(y)| <= p.halfOpenMax
         && successes == Min(Successes(y.log), USIZE_MAX)
         && Failure !in y.log
         && (active > 0 || successes < p.successThreshold)
  }

  /** A new breaker, whose first generation may have any token. */
  function Initial(token: Token): System {
    System(Closed(token, 0), map[], [])
  }

  lemma InitialInv(p: Policy, token: Token)
    requires p.Valid()
    ensures Inv(p, Initial(token))
  {
  }

  lemma CurrentAfterStart(p: Policy, y: System, e: Event)
    requires p.Valid() && Inv(p, y) && e.Starts? && Enabled(y, e)
    ensures var y' := Step(p, y, e);
            && (y'.live == y.live ==> Current(y') == Current(y))
            && (y'.live != y.live && SameGeneration(y.state, y'.state) ==>
                  Current(y') == Current(y) + {e.id} && e.id !in Current(y))
            && (y.state.Open? && y'.state.HalfOpen? ==> Current(y') == {e.id})
  {
    var y' := Step(p, y, e);
    if y'.live != y.live {
      assert forall i :: i in y.live ==> y.live[i].generation != e.token;
    }
  }

  lemma StartKeepsInv(p: Policy, y: System, e: Event)
    requires p.Valid() && Inv(p, y) && e.Starts? && Enabled(y, e)
    ensures Inv(p, Step(p, y, e))
  {
    CurrentAfterStart(p, y, e);
    var y' := Step(p, y, e);
    assert y'.state.Closed? ==> y'.state == y.state && y'.log == y.log;
    forall i | i in Current(y') ensures y'.live[i].kind == if y'.state.Closed? then ClosedKind else HalfOpenKind {
      if i != e.id {
        assert i in Current(y);
      }
    }
  }

  lemma LogGrows(log: seq<Outcome>, outcome: Outcome)
    ensures Successes(log + [outcome]) == Successes(log) + (if outcome.Success? then 1 else 0)
    ensures RecentFailures(log + [outcome]) ==
            match outcome case Success => 0 case Failure => RecentFailures(log) + 1 case Cancel => RecentFailures(log)
  {
    assert (log + [outcome])[..|log|] == log;
  }

  lemma CurrentAfterReport(p: Policy, y: System, e: Event)
    requires p.Valid() && Inv(p, y) && e.Reports? && Enabled(y, e)
    ensures var y' := Step(p, y, e);
            && (SameGeneration(y.state, y'.state) ==> Current(y') == Current(y) - {e.id})
            && (y'.state.Closed? && !SameGeneration(y.state, y'.state) ==> Current(y') == {})
  {
    var y' := Step(p, y, e);
    assert forall i :: i in y.live ==> y.live[i].generation != e.token;
    if SameGeneration(y.state, y'.state) {
      assert Current(y') == Current(y) - {e.id};
    }
  }

  /** A report that belongs to the current generation finds the state it was begun in, with itself counted. */
  lemma ReportsAreExpected(p: Policy, y: System, id: nat)
    requires p.Valid() && Inv(p, y) && id in y.live && y.state.BelongsTo(y.live[id].generation)
    ensures y.live[id].kind == if y.state.Closed? then ClosedKind else HalfOpenKind
    ensures y.state.HalfOpen? ==> 1 <= y.state.active <= p.halfOpenMax && SatSub(y.state.active) == y.state.active - 1
  {
    assert id in Current(y);
  }

  lemma StaleReportKeepsInv(p: Policy, y: System, e: Event)
    requires p.Valid() && Inv(p, y) && e.Reports? && Enabled(y, e) && !y.state.BelongsTo(y.live[e.id].generation)
    ensures Inv(p, Step(p, y, e))
  {
    hide Successes, RecentFailures, InUse;
    assert Current(Step(p, y, e)) == Current(y);
  }

  lemma CurrentReportKeepsInv(p: Policy, y: System, e: Event)
    requires p.Valid() && Inv(p, y) && e.Reports? && Enabled(y, e) && y.state.BelongsTo(y.live[e.id].generation)
    ensures Inv(p, Step(p, y, e))
  {
    CurrentAfterReport(p, y, e);
    LogGrows(y.log, e.outcome);
    ReportsAreExpected(p, y, e.id);
    assert e.id in Current(y);
    hide InUse;
    var y' := Step(p, y, e);
    forall i | i in Current(y') ensures y'.live[i].kind == if y'.state.Closed? then ClosedKind else HalfOpenKind {
      assert i in Current(y);
    }
  }

  lemma ReportKeepsInv(p: Policy, y: System, e: Event)
    requires p.Valid() && Inv(p, y) && e.Reports? && Enabled(y, e)
    ensures Inv(p, Step(p, y, e))
  {
    hide Inv, Step;
    if y.state.BelongsTo(y.live[e.id].generation) {
      CurrentReportKeepsInv(p, y, e);
    } else {
      StaleReportKeepsInv(p, y, e);
    }
  }

  // ----------------------------------------------------------------- runs

  ghost predicate EnabledRun(p: Policy, y: System, events: seq<Event>)
    decreases |events|
  {
    events == [] || (Enabled(y, events[0]) && EnabledRun(p, Step(p, y, events[0]), events[1..]))
  }

  ghost function Run(p: Policy, y: System, events: seq<Event>): System
    requires EnabledRun(p, y, events)
    decreases |events|
  {
    if events == [] then y else Run(p, Step(p, y, events[0]), events[1..])
  }

  lemma StepKeepsInv(p: Policy, y: System, e: Event)
    requires p.Valid() && Inv(p, y) && Enabled(y, e)
    ensures Inv(p, Step(p, y, e))
  {
    if e.Starts? {
      StartKeepsInv(p, y, e);
    } else {
      ReportKeepsInv(p, y, e);
    }
  }

  /** In every reachable state the half-open counter is exact, bounded, and every refusal has a live probe behind it. */
  lemma {:induction false} RunKeepsInv(p: Policy, y: System, events: seq<Event>)
    requires p.Valid() && Inv(p, y) && EnabledRun(p, y, events)
    ensures Inv(p, Run(p, y, events))
    decreases |events|
  {
    if events != [] {
      StepKeepsInv(p, y, events[0]);
      RunKeepsInv(p, Step(p, y, events[0]), events[1..]);
    }
  }

  // ------------------------------------------------------- what it decides

  /** From closed, the breaker opens on exactly the failure that completes the threshold since the last success. */
  lemma OpensExactlyAtThreshold(p: Policy, y: System, e: Event)
    requires p.Valid() && Inv(p, y) && Enabled(y, e) && y.state.Closed?
    ensures Step(p, y, e).state.Open? <==>
            && e.Reports? && e.outcome.Failure? && e.id in Current(y)
            && RecentFailures(y.log + [e.outcome]) == p.failureThreshold
    ensures Step(p, y, e).state.Open? ==> Step(p, y, e).state.openedAt == e.now
    ensures !Step(p, y, e).state.Open? ==> SameGeneration(y.state, Step(p, y, e).state)
  {
    if e.Reports? {
      LogGrows(y.log, e.outcome);
      if e.id in Current(y) {
        ReportsAreExpected(p, y, e.id);
      }
    }
  }

  /** From half-open, it closes exactly on the report that leaves no live probe, no failure and enough successes. */
  lemma ClosesExactlyWhenRecovered(p: Policy, y: System, e: Event)
    requires p.Valid() && Inv(p, y) && Enabled(y, e) && y.state.HalfOpen?
    ensures Step(p, y, e).state.Closed? <==>
            && e.Reports? && Current(y) == {e.id}
            && Failure !in y.log + [e.outcome]
            && Successes(y.log + [e.outcome]) >= p.successThreshold
    ensures Step(p, y, e).state.Closed? ==> Step(p, y, e).state.generation == e.token
    ensures Step(p, y, e).state.Open? <==> e.Reports? && e.id in Current(y) && e.outcome.Failure?
    ensures Step(p, y, e).state.Open? ==> Step(p, y, e).state.openedAt == e.now
  {
    if e.Reports? {
      LogGrows(y.log, e.outcome);
      assert Failure in y.log + [e.outcome] <==> e.outcome.Failure?;
      if e.id in Current(y) {
        ReportsAreExpected(p, y, e.id);
        assert Current(y) == {e.id} <==> |Current(y) - {e.id}| == 0;
      }
    }
  }

  /** While open, and however many stale attempts report, nothing is admitted before the timeout has passed. */
  lemma {:induction false} OpenAdmitsNothing(p: Policy, y: System, events: seq<Event>)
    requires p.Valid() && y.state.Open? && EnabledRun(p, y, events)
    requires forall e :: e in events && e.Starts? ==> e.now < y.state.openedAt + p.openTimeout
    ensures Run(p, y, events).state == y.state
    ensures Run(p, y, events).live.Keys <= y.live.Keys
    decreases |events|
  {
    if events != [] {
      assert events[0] in events;
      OpenAdmitsNothing(p, Step(p, y, events[0]), events[1..]);
    }
  }

  /** A refusing half-open breaker has a live probe, and any outcome of it moves the breaker on. */
  lemma NeverWedged(p: Policy, y: System, now: int, token: Token)
    requires p.Valid() && Inv(p, y) && y.state.HalfOpen? && Begin(p, y.state, now, token).1.Err?
    ensures Current(y) != {}
    ensures forall e: Event :: e.Reports? && Enabled(y, e) && e.id in Current(y) ==>
              var s := Step(p, y, e).state;
              s.Closed? || s.Open? || (s.HalfOpen? && s.active < y.state.active)
  {
    assert y.state.active >= 1;
    forall e: Event | e.Reports? && Enabled(y, e) && e.id in Current(y)
      ensures var s := Step(p, y, e).state;
              s.Closed? || s.Open? || (s.HalfOpen? && s.active < y.state.active)
    {
      ReportsAreExpected(p, y, e.id);
    }
  }

  /** Once every probe of the generation has reported, a breaker that is not open admits the next request. */
  lemma DrainedAdmits(p: Policy, y: System, now: int, token: Token)
    requires p.Valid() && Inv(p, y) && Current(y) == {} && !y.state.Open?
    ensures Begin(p, y.state, now, token).1.Ok?
  {
  }

  /** From open, a start is admitted exactly once the timeout has passed, as the one live probe of a new generation. */
  lemma ProbesExactlyAfterTimeout(p: Policy, y: System, e: Event)
    requires p.Valid() && y.state.Open? && Enabled(y, e) && e.Starts?
    ensures var y' := Step(p, y, e);
            if e.now >= y.state.openedAt + p.openTimeout then
              && Answer(p, y, e) == None
              && y'.state == HalfOpen(e.token, 1, 0) && y'.live == y.live[e.id := Attempt(e.token, HalfOpenKind)]
              && Current(y') == {e.id}
            else y' == y.(log := []) && Answer(p, y, e).Some?
  {
    assert forall i :: i in y.live ==> y.live[i].generation != e.token;
  }

  /** A refusal names the wait exactly: nobody is admitted before it is over, and everybody from then on. */
  lemma RefusalNamesTheWait(p: Policy, s: State, now: int, token: Token, later: int, token': Token)
    requires p.Valid() && s.Open? && s.openedAt <= now && Begin(p, s, now, token).1.Err?
    ensures Begin(p, s, later, token').1.Ok? <==> later >= now + Begin(p, s, now, token).1.error
    ensures Begin(p, s, now, token).1.error > 0
  {
  }

  /** A half-open breaker admits exactly while it has fewer live probes than its limit and too few successes. */
  lemma HalfOpenAdmitsExactly(p: Policy, y: System, e: Event)
    requires p.Valid() && Inv(p, y) && y.state.HalfOpen? && Enabled(y, e) && e.Starts?
    ensures Answer(p, y, e) == None <==> |Current(y)| < p.halfOpenMax && Successes(y.log) < p.successThreshold
    ensures Answer(p, y, e) == None <==> e.id in Step(p, y, e).live
  {
  }

  /** After any run whatever, once every attempt has reported and any timeout has passed, the next start is admitted. */
  lemma EveryRunRecovers(p: Policy, token: Token, events: seq<Event>, e: Event)
    requires p.Valid() && EnabledRun(p, Initial(token), events)
    requires var y := Run(p, Initial(token), events);
             && y.live == map[] && Enabled(y, e) && e.Starts?
             && (y.state.Open? ==> e.now >= y.state.openedAt + p.openTimeout)
    ensures var y := Run(p, Initial(token), events); Answer(p, y, e) == None && e.id in Step(p, y, e).live
  {
    InitialInv(p, token);
    RunKeepsInv(p, Initial(token), events);
    var y := Run(p, Initial(token), events);
    hide Run, EnabledRun;
    if y.state.HalfOpen? {
      assert Current(y) == {};
      HalfOpenAdmitsExactly(p, y, e);
    }
  }

  // ------------------------------------- tokens refine a generation counter

  /** The two systems agree on everything but the names of the generations. */
  ghost predicate SameShape(s: State, t: State) {
    match (s, t)
    case (Closed(_, f), Closed(_, f')) => f == f'
    case (Open(o), Open(o')) => o == o'
    case (HalfOpen(_, a, n), HalfOpen(_, a', n')) => a == a' && n == n'
    case _ => false
  }

  ghost predicate Coupled(y: System, z: System, next: nat) {
    && SameShape(y.state, z.state) && y.log == z.log
    && y.live.Keys == z.live.Keys
    && (forall i :: i in y.live ==>
          && y.live[i].kind == z.live[i].kind
          && (y.state.BelongsTo(y.live[i].generation) <==> z.state.BelongsTo(z.live[i].generation))
          && z.live[i].generation < next)
    && (forall i, j :: i in y.live && j in y.live ==>
          (y.live[i].generation == y.live[j].generation <==> z.live[i].generation == z.live[j].generation))
    && (!z.state.Open? ==> z.state.generation < next)
  }

  function Counted(e: Event, next: nat): Event {
    e.(token := next)
  }

  /** The pair relation between two holders of tokens. */
  ghost predicate SameIdentity(a: Token, b: Token, a': Token, b': Token) {
    a == b <==> a' == b'
  }

  /** A new breaker, whatever its token, starts as the breaker that numbers its first generation zero. */
  lemma InitialCoupled(token: Token)
    ensures Coupled(Initial(token), Initial(0), 1)
  {
  }

  lemma StartRefines(p: Policy, y: System, z: System, next: nat, e: Event)
    requires p.Valid() && Coupled(y, z, next) && Enabled(y, e) && e.Starts?
    ensures Coupled(Step(p, y, e), Step(p, z, Counted(e, next)), next + 1)
  {
    assert forall i :: i in y.live ==> y.live[i].generation != e.token && z.live[i].generation != next;
    var y', z' := Step(p, y, e), Step(p, z, Counted(e, next));
    var (s, r) := Begin(p, y.state, e.now, e.token);
    var (s', r') := Begin(p, z.state, e.now, next);
    assert SameShape(s, s') && (r.Ok? <==> r'.Ok?);
    if r.Ok? {
      assert y'.live == y.live[e.id := r.value] && z'.live == z.live[e.id := r'.value];
      assert s.BelongsTo(r.value.generation) && s'.BelongsTo(r'.value.generation);
      forall i | i in y.live
        ensures s.BelongsTo(y.live[i].generation) <==> s'.BelongsTo(z.live[i].generation)
      {
      }
      forall i | i in y.live
        ensures SameIdentity(y.live[i].generation, r.value.generation, z.live[i].generation, r'.value.generation)
      {
      }
    }
  }

  lemma ReportRefines(p: Policy, y: System, z: System, next: nat, e: Event)
    requires p.Valid() && Coupled(y, z, next) && Enabled(y, e) && e.Reports?
    ensures Coupled(Step(p, y, e), Step(p, z, Counted(e, next)), next + 1)
  {
    assert forall i :: i in y.live ==> y.live[i].generation != e.token && z.live[i].generation != next;
    var s := Report(p, y.state, y.live[e.id], e.outcome, e.now, e.token);
    var s' := Report(p, z.state, z.live[e.id], e.outcome, e.now, next);
    assert SameShape(s, s');
    assert SameGeneration(y.state, s) <==> SameGeneration(z.state, s');
    forall i | i in y.live
      ensures s.BelongsTo(y.live[i].generation) <==> s'.BelongsTo(z.live[i].generation)
    {
    }
  }

  /** Reusing addresses is harmless: each step matches one of a breaker that numbers its generations. */
  lemma StepRefinesCounter(p: Policy, y: System, z: System, next: nat, e: Event)
    requires p.Valid() && Coupled(y, z, next) && Enabled(y, e)
    ensures Enabled(z, Counted(e, next))
    ensures Coupled(Step(p, y, e), Step(p, z, Counted(e, next)), next + 1)
    ensures Answer(p, y, e) == Answer(p, z, Counted(e, next))
  {
    if e.Starts? {
      StartRefines(p, y, z, next, e);
    } else {
      ReportRefines(p, y, z, next, e);
    }
    hide Coupled, Step;
  }

  /** Whether each event of a run is refused, and for how long. */
  ghost function Answers(p: Policy, y: System, events: seq<Event>): seq<Option<nat>>
    requires EnabledRun(p, y, events)
    decreases |events|
  {
    if events == [] then [] else [Answer(p, y, events[0])] + Answers(p, Step(p, y, events[0]), events[1..])
  }

  /** The run of the numbering breaker that mirrors a run with reused addresses. */
  function CountedRun(events: seq<Event>, next: nat): seq<Event> {
    if events == [] then [] else [Counted(events[0], next)] + CountedRun(events[1..], next + 1)
  }

  lemma {:induction false} RunRefinesCounter(p: Policy, y: System, z: System, next: nat, events: seq<Event>)
    requires p.Valid() && Coupled(y, z, next) && EnabledRun(p, y, events)
    ensures EnabledRun(p, z, CountedRun(events, next))
    ensures Coupled(Run(p, y, events), Run(p, z, CountedRun(events, next)), next + |events|)
    ensures Answers(p, y, events) == Answers(p, z, CountedRun(events, next))
    decreases |events|
  {
    if events != [] {
      StepRefinesCounter(p, y, z, next, events[0]);
      RunRefinesCounter(p, Step(p, y, events[0]), Step(p, z, Counted(events[0], next)), next + 1, events[1..]);
      assert CountedRun(events, next)[1..] == CountedRun(events[1..], next + 1);
    }
  }

  /** From the start, whatever addresses are reused, every call is answered as by numbered generations. */
  lemma TokensAreGenerations(p: Policy, token: Token, events: seq<Event>)
    requires p.Valid() && EnabledRun(p, Initial(token), events)
    ensures EnabledRun(p, Initial(0), CountedRun(events, 1))
    ensures Answers(p, Initial(token), events) == Answers(p, Initial(0), CountedRun(events, 1))
    ensures Inv(p, Run(p, Initial(token), events))
  {
    hide Coupled, Inv, Answers, EnabledRun, CountedRun, Run;
    InitialCoupled(token);
    RunRefinesCounter(p, Initial(token), Initial(0), 1, events);
    InitialInv(p, token);
    RunKeepsInv(p, Initial(token), events);
  }

  // ----------------------------------------------------------- the objects

  /** The shared breaker; every method is one critical section. */
  class Breaker {
    const policy: Policy
    var state: State

    constructor (policy: Policy, token: Token)
      requires policy.Valid()
      ensures this.policy == policy && state == Initial(token).state
    {
      this.policy := policy;
      state := Closed(token, 0);
    }

    method TryBegin(now: int, token: Token) returns (r: Result<Attempt, nat>)
      requires policy.Valid()
      modifies this`state
      ensures (state, r) == Begin(policy, old(state), now, token)
    {
      match state {
        case Closed(generation, _) =>
          r := Ok(Attempt(generation, ClosedKind));
        case Open(openedAt) =>
          var elapsed := Max(now - openedAt, 0);
          if elapsed >= policy.openTimeout {
            state := HalfOpen(token, 1, 0);
            return Ok(Attempt(token, HalfOpenKind));
          }
          r := Err(policy.openTimeout - elapsed);
        case HalfOpen(generation, active, successes) =>
          if active >= policy.halfOpenMax || successes >= policy.successThreshold {
            return Err(0);
          }
          state := state.(active := SatAdd(active));
          r := Ok(Attempt(generation, HalfOpenKind));
      }
    }

    method RecordSuccess(a: Attempt, now: int, token: Token)
      modifies this`state
      ensures state == Report(policy, old(state), a, Success, now, token)
    {
      if !state.BelongsTo(a.generation) {
        return;
      }
      if state.Closed? && a.kind.ClosedKind? {
        state := state.(failures := 0);
      } else if state.HalfOpen? && a.kind.HalfOpenKind? {
        state := state.(active := SatSub(state.active), successes := SatAdd(state.successes));
        CloseHalfOpenIfRecovered(token);
      }
    }

    method RecordFailure(a: Attempt, now: int, token: Token)
      modifies this`state
      ensures state == Report(policy, old(state), a, Failure, now, token)
    {
      if !state.BelongsTo(a.generation) {
        return;
      }
      if state.Closed? && a.kind.ClosedKind? {
        state := state.(failures := SatAdd(state.failures));
        if state.failures >= policy.failureThreshold {
          state := Open(now);
        }
      } else if state.HalfOpen? && a.kind.HalfOpenKind? {
        state := state.(active := SatSub(state.active));
        state := Open(now);
      }
    }

    method RecordCancel(a: Attempt, now: int, token: Token)
      modifies this`state
      ensures state == Report(policy, old(state), a, Cancel, now, token)
    {
      if !state.BelongsTo(a.generation) {
        return;
      }
      if state.HalfOpen? && a.kind.HalfOpenKind? {
        state := state.(active := SatSub(state.active));
        CloseHalfOpenIfRecovered(token);
      }
    }

    method CloseHalfOpenIfRecovered(token: Token)
      modifies this`state
      ensures state == CloseIfRecovered(policy, old(state), token)
    {
      if state.HalfOpen? && state.active == 0 && state.successes >= policy.successThreshold {
        state := Closed(token, 0);
      }
    }
  }

  /** An owned attempt: it reports once, and dropping it unreported reports a cancellation. */
  class OwnedAttempt {
    const breaker: Breaker
    const attempt: Attempt
    var completed: bool

    constructor (breaker: Breaker, attempt: Attempt)
      ensures this.breaker == breaker && this.attempt == attempt && !completed
    {
      this.breaker := breaker;
      this.attempt := attempt;
      completed := false;
    }

    /** `mark_success`, `mark_failure` or `cancel`, followed by the drop that ends the attempt. */
    method Finish(outcome: Outcome, now: int, token: Token)
      requires !completed
      modifies this`completed, breaker`state
      ensures completed
      ensures breaker.state == Report(breaker.policy, old(breaker.state), attempt, outcome, now, token)
    {
      match outcome {
        case Success => breaker.RecordSuccess(attempt, now, token);
        case Failure => breaker.RecordFailure(attempt, now, token);
        case Cancel => breaker.RecordCancel(attempt, now, token);
      }
      completed := true;
      Drop(now, token);
    }

    method Drop(now: int, token: Token)
      modifies this`completed, breaker`state
      ensures completed
      ensures breaker.state == if old(completed) then old(breaker.state)
                               else Report(breaker.policy, old(breaker.state), attempt, Cancel, now, token)
    {
      if !completed {
        breaker.RecordCancel(attempt, now, token);
        completed := true;
      }
    }
  }
}
