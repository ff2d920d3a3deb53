/** The adaptive concurrency limit, and the waiting and waking around it. */
module AdaptiveLimit {
  import opened Wrappers
  import opened Machine

  const EPSILON: real := 1.0 / 4503599627370496.0

  datatype Policy = Policy(
    minLimit: nat, initialLimit: nat, maxLimit: nat, increaseStep: nat, decreaseRatio: real, highLatency: nat)
  {
    predicate Valid() {
      && 1 <= minLimit <= initialLimit <= maxLimit <= USIZE_MAX && 1 <= increaseStep
      && 0.0 <= decreaseRatio < 1.0 && 0 < highLatency
    }
  }

  datatype Outcome = Succeeded | Failed

  datatype Limit = Limit(inFlight: nat, current: nat, ewmaMs: real)

  function Initial(p: Policy): Limit {
    Limit(0, p.initialLimit, 0.0)
  }

  /** A latency in nanoseconds as milliseconds. */
  function Millis(latency: nat): real {
    latency as real / 1000000.0
  }

  function Smooth(ewma: real, sample: real): real {
    if ewma <= EPSILON then sample else ewma * 0.8 + sample * 0.2
  }

  /** A share `r` of `x`. */
  function Share(x: real, r: real): (share: real)
    requires 0.0 <= x && 0.0 <= r <= 1.0
    ensures 0.0 <= share <= x
  {
    assert x - x * r == x * (1.0 - r);
    x * r
  }

  function Lowered(p: Policy, current: nat): nat
    requires p.Valid()
  {
    Max(Share(current as real, p.decreaseRatio).Floor, p.minLimit)
  }

  function Raised(p: Policy, current: nat): nat {
    Min(Min(current + p.increaseStep, USIZE_MAX), p.maxLimit)
  }

  predicate Lowers(p: Policy, a: Limit, outcome: Outcome, latency: nat) {
    outcome.Failed? || Smooth(a.ewmaMs, Millis(latency)) > Millis(p.highLatency)
  }

  function Release(p: Policy, a: Limit, outcome: Outcome, latency: nat): Limit
    requires p.Valid()
  {
    Limit(Max(a.inFlight - 1, 0),
          if Lowers(p, a, outcome, latency) then Lowered(p, a.current) else Raised(p, a.current),
          Smooth(a.ewmaMs, Millis(latency)))
  }

  class AdaptiveState {
    const policy: Policy
    var value: Limit

    constructor (policy: Policy)
      requires policy.Valid()
      ensures this.policy == policy && value == Initial(policy)
    {
      this.policy := policy;
      value := Limit(0, policy.initialLimit, 0.0);
    }

    method TryAcquire() returns (acquired: bool)
      modifies this`value
      ensures acquired == (old(value).inFlight < old(value).current)
      ensures value == if acquired then old(value).(inFlight := Min(old(value).inFlight + 1, USIZE_MAX)) else old(value)
    {
      if value.inFlight >= value.current {
        return false;
      }
      value := value.(inFlight := Min(value.inFlight + 1, USIZE_MAX));
      acquired := true;
    }

    method ReleaseAndRecord(outcome: Outcome, latency: nat)
      requires policy.Valid()
      modifies this`value
      ensures value == Release(policy, old(value), outcome, latency)
    {
      value := value.(inFlight := Max(value.inFlight - 1, 0));
      var latencyMs := Millis(latency);
      if value.ewmaMs <= EPSILON {
        value := value.(ewmaMs := latencyMs);
      } else {
        value := value.(ewmaMs := value.ewmaMs * 0.8 + latencyMs * 0.2);
      }
      if outcome.Failed? || value.ewmaMs > Millis(policy.highLatency) {
        var decreased := Share(value.current as real, policy.decreaseRatio).Floor;
        value := value.(current := Max(decreased, policy.minLimit));
      } else {
        value := value.(current := Min(Min(value.current + policy.increaseStep, USIZE_MAX), policy.maxLimit));
      }
    }

    method ReleaseWithoutRecord()
      modifies this`value
      ensures value == old(value).(inFlight := Max(old(value).inFlight - 1, 0))
    {
      value := value.(inFlight := Max(value.inFlight - 1, 0));
    }
  }

  // ---------------------------------------------------------- limits over runs

  datatype Sample = Sample(outcome: Outcome, latency: nat)

  function After(p: Policy, a: Limit, samples: seq<Sample>): Limit
    requires p.Valid()
    decreases |samples|
  {
    if samples == [] then a else After(p, Release(p, a, samples[0].outcome, samples[0].latency), samples[1..])
  }

  predicate InRange(p: Policy, a: Limit) {
    p.minLimit <= a.current <= p.maxLimit
  }

  lemma LoweredShrinks(p: Policy, current: nat)
    requires p.Valid() && p.minLimit <= current
    ensures p.minLimit <= Lowered(p, current) <= current
  {
    hide Share;
    assert Share(current as real, p.decreaseRatio) <= current as real;
  }

  /** The limit never leaves its configured range. */
  lemma {:induction false} LimitStaysInRange(p: Policy, a: Limit, samples: seq<Sample>)
    requires p.Valid() && InRange(p, a)
    ensures InRange(p, After(p, a, samples))
    decreases |samples|
  {
    if samples != [] {
      LoweredShrinks(p, a.current);
      LimitStaysInRange(p, Release(p, a, samples[0].outcome, samples[0].latency), samples[1..]);
    }
  }

  /** `ratio` to the power `k`. */
  function Power(ratio: real, k: nat): (power: real)
    requires 0.0 <= ratio <= 1.0
    ensures 0.0 <= power <= 1.0
  {
    if k == 0 then 1.0 else Share(Power(ratio, k - 1), ratio)
  }

  /** All samples of the run lower the limit. */
  ghost predicate AllLower(p: Policy, a: Limit, samples: seq<Sample>)
    requires p.Valid()
    decreases |samples|
  {
    samples != [] ==>
      && Lowers(p, a, samples[0].outcome, samples[0].latency)
      && AllLower(p, Release(p, a, samples[0].outcome, samples[0].latency), samples[1..])
  }

  lemma ShareLaws(x: real, y: real, a: real, b: real)
    requires 0.0 <= x <= y && 0.0 <= a <= 1.0 && 0.0 <= b <= 1.0
    ensures Share(x, a) <= Share(y, a)
    ensures Share(Share(x, a), b) == Share(x, Share(b, a))
    ensures Share(x, 1.0) == x
  {
    assert y * a - x * a == (y - x) * a;
    assert (x * a) * b == x * (b * a);
  }

  lemma FloorMonotone(x: real, y: real)
    requires x <= y
    ensures x.Floor <= y.Floor
  {
  }

  /** Lowering and then decaying by `ratio^k` is no more than decaying by `ratio^(k+1)`, down to the minimum. */
  lemma LoweredDecays(p: Policy, current: nat, k: nat)
    requires p.Valid() && p.minLimit <= current
    ensures Max(p.minLimit, Share(Lowered(p, current) as real, Power(p.decreaseRatio, k)).Floor)
            <= Max(p.minLimit, Share(current as real, Power(p.decreaseRatio, k + 1)).Floor)
  {
    hide Share;
    var decay := Power(p.decreaseRatio, k);
    var lowered, scaled := Lowered(p, current) as real, Share(current as real, p.decreaseRatio);
    if Lowered(p, current) > p.minLimit {
      assert lowered <= scaled;
      ShareLaws(lowered, scaled, decay, decay);
      ShareLaws(current as real, current as real, p.decreaseRatio, decay);
      FloorMonotone(Share(lowered, decay), Share(scaled, decay));
    }
  }

  /** k decreases in a row leave at most max(minimum, floor(ratio^k x limit)). */
  lemma {:induction false} ConsecutiveDecreases(p: Policy, a: Limit, samples: seq<Sample>)
    requires p.Valid() && p.minLimit <= a.current && AllLower(p, a, samples)
    ensures After(p, a, samples).current
            <= Max(p.minLimit, Share(a.current as real, Power(p.decreaseRatio, |samples|)).Floor)
    decreases |samples|
  {
    if samples == [] {
      ShareLaws(a.current as real, a.current as real, 1.0, 1.0);
    } else {
      hide Share, Power;
      var next := Release(p, a, samples[0].outcome, samples[0].latency);
      assert next.current == Lowered(p, a.current);
      LoweredShrinks(p, a.current);
      ConsecutiveDecreases(p, next, samples[1..]);
      LoweredDecays(p, a.current, |samples| - 1);
    }
  }

  /** A healthy run never lowers the limit: with no failure and no slow sample the average stays low too. */
  lemma {:induction false} HealthyNeverLowers(p: Policy, a: Limit, samples: seq<Sample>)
    requires p.Valid() && InRange(p, a) && a.ewmaMs <= Millis(p.highLatency)
    requires forall s :: s in samples ==> s.outcome.Succeeded? && s.latency <= p.highLatency
    ensures a.current <= After(p, a, samples).current
    ensures After(p, a, samples).ewmaMs <= Millis(p.highLatency)
    decreases |samples|
  {
    if samples != [] {
      assert samples[0] in samples;
      var next := Release(p, a, samples[0].outcome, samples[0].latency);
      assert Millis(samples[0].latency) <= Millis(p.highLatency);
      HealthyNeverLowers(p, next, samples[1..]);
    }
  }

  function Rise(p: Policy, k: nat): nat {
    k * p.increaseStep
  }

  lemma RiseAdds(p: Policy, k: nat)
    ensures Rise(p, k + 1) == Rise(p, k) + p.increaseStep
  {
  }

  /** k healthy releases raise the limit by k steps, up to the maximum. */
  lemma {:induction false} HealthyRaises(p: Policy, a: Limit, samples: seq<Sample>)
    requires p.Valid() && InRange(p, a) && a.ewmaMs <= Millis(p.highLatency)
    requires forall s :: s in samples ==> s.outcome.Succeeded? && s.latency <= p.highLatency
    ensures After(p, a, samples).current == Min(p.maxLimit, a.current + Rise(p, |samples|))
    decreases |samples|
  {
    if samples != [] {
      assert samples[0] in samples;
      var next := Release(p, a, samples[0].outcome, samples[0].latency);
      assert Millis(samples[0].latency) <= Millis(p.highLatency);
      assert next.current == Min(p.maxLimit, a.current + p.increaseStep);
      HealthyRaises(p, next, samples[1..]);
      RiseAdds(p, |samples| - 1);
      hide Rise, Smooth;
    }
  }

  /** k decreases in a row take no more than ratio^k and the k roundings. */
  lemma {:induction false} DecreasesAreBounded(p: Policy, a: Limit, samples: seq<Sample>)
    requires p.Valid() && p.minLimit <= a.current && AllLower(p, a, samples)
    ensures After(p, a, samples).current as real
            >= Share(a.current as real, Power(p.decreaseRatio, |samples|)) - |samples| as real
    decreases |samples|
  {
    if samples == [] {
      ShareLaws(a.current as real, a.current as real, 1.0, 1.0);
    } else {
      hide Share, Power;
      var next := Release(p, a, samples[0].outcome, samples[0].latency);
      LoweredShrinks(p, a.current);
      DecreasesAreBounded(p, next, samples[1..]);
      LoweredLosesLittle(p, a.current, |samples| - 1);
    }
  }

  lemma LoweredLosesLittle(p: Policy, current: nat, k: nat)
    requires p.Valid()
    ensures Share(Lowered(p, current) as real, Power(p.decreaseRatio, k))
            >= Share(current as real, Power(p.decreaseRatio, k + 1)) - 1.0
  {
    hide Share;
    var decay := Power(p.decreaseRatio, k);
    var lowered, scaled := Lowered(p, current) as real, Share(current as real, p.decreaseRatio);
    assert lowered >= scaled - 1.0;
    ShareLaws(current as real, current as real, p.decreaseRatio, decay);
    ShareNear(scaled, lowered, decay);
  }

  lemma ShareNear(x: real, y: real, r: real)
    requires 0.0 <= x && 0.0 <= y && x - 1.0 <= y && 0.0 <= r <= 1.0
    ensures Share(y, r) >= Share(x, r) - 1.0
  {
    var gap := y - x + 1.0;
    assert Share(gap, r) >= 0.0;
    assert gap * r == y * r - x * r + r;
  }

  /** A failure, or an average above the threshold, is exactly what lowers the limit; anything else raises it to its cap. */
  lemma EachReleaseMoves(p: Policy, a: Limit, outcome: Outcome, latency: nat)
    requires p.Valid() && InRange(p, a)
    ensures var next := Release(p, a, outcome, latency);
            if outcome.Failed? || next.ewmaMs > Millis(p.highLatency)
            then next.current == Max(p.minLimit, (a.current as real * p.decreaseRatio).Floor)
            else next.current == Min(p.maxLimit, a.current + p.increaseStep)
  {
  }

  /** The distance of the average to a steady latency shrinks to four fifths with every sample. */
  lemma {:induction false} AverageConverges(p: Policy, a: Limit, outcomes: seq<Outcome>, latency: nat)
    requires p.Valid() && a.ewmaMs > EPSILON && Millis(latency) > EPSILON
    ensures var samples := seq(|outcomes|, i requires 0 <= i < |outcomes| => Sample(outcomes[i], latency));
            After(p, a, samples).ewmaMs - Millis(latency) == Scale(|outcomes|, a.ewmaMs - Millis(latency))
    decreases |outcomes|
  {
    var samples := seq(|outcomes|, i requires 0 <= i < |outcomes| => Sample(outcomes[i], latency));
    if outcomes != [] {
      var rest := outcomes[1..];
      var next := Release(p, a, outcomes[0], latency);
      assert samples[1..] == seq(|rest|, i requires 0 <= i < |rest| => Sample(rest[i], latency));
      assert next.ewmaMs - Millis(latency) == 0.8 * (a.ewmaMs - Millis(latency));
      AverageConverges(p, next, rest, latency);
      ScaleOnce(|rest|, a.ewmaMs - Millis(latency));
    }
  }

  /** `x` times four fifths to the power `k`. */
  function Scale(k: nat, x: real): real {
    if k == 0 then x else 0.8 * Scale(k - 1, x)
  }

  lemma {:induction false} ScaleOnce(k: nat, x: real)
    ensures Scale(k, 0.8 * x) == Scale(k + 1, x)
  {
    if k > 0 {
      ScaleOnce(k - 1, x);
    }
  }

  /** The average always lies between the samples it was made from. */
  lemma {:induction false} AverageWithinSamples(p: Policy, a: Limit, samples: seq<Sample>, low: nat, high: nat)
    requires p.Valid() && samples != []
    requires a.ewmaMs <= EPSILON || Millis(low) <= a.ewmaMs <= Millis(high)
    requires forall s :: s in samples ==> low <= s.latency <= high
    ensures Millis(low) <= After(p, a, samples).ewmaMs <= Millis(high)
    decreases |samples|
  {
    assert samples[0] in samples;
    assert Millis(low) <= Millis(samples[0].latency) <= Millis(high);
    var next := Release(p, a, samples[0].outcome, samples[0].latency);
    if |samples| > 1 {
      AverageWithinSamples(p, next, samples[1..], low, high);
    } else {
      assert samples[1..] == [];
    }
  }

  // --------------------------------------------------------- waiting and waking

  /** A task in `acquire`: whether its capacity check has failed, and whether it was notified since it registered. */
  datatype Waiter = Waiter(checked: bool, notified: bool)

  datatype Controller = Controller(limit: Limit, permits: set<nat>, waiters: map<nat, Waiter>)

  /**
    The atomic steps of tasks and threads. A woken task registers again before its next check; a thread
    on the condition variable registers and checks without letting go of the lock in between.
   */
  datatype Event =
    | Registers(task: nat)
    | Checks(task: nat)
    | WakesUp(task: nat, spurious: bool)
    | GivesUp(task: nat)
    | Records(task: nat, outcome: Outcome, latency: nat)
    | Drops(task: nat)

  predicate Enabled(c: Controller, e: Event) {
    match e
    case Registers(t) => t !in c.waiters && t !in c.permits
    case Checks(t) => t in c.waiters && !c.waiters[t].checked
    case WakesUp(t, spurious) => t in c.waiters && c.waiters[t].checked && (c.waiters[t].notified || spurious)
    case GivesUp(t) => t in c.waiters
    case Records(t, _, _) => t in c.permits
    case Drops(t) => t in c.permits
  }

  function NotifyAll(waiters: map<nat, Waiter>): map<nat, Waiter> {
    map t | t in waiters :: waiters[t].(notified := true)
  }

  function Step(p: Policy, c: Controller, e: Event): Controller
    requires p.Valid() && Enabled(c, e)
  {
    match e
    case Registers(t) => c.(waiters := c.waiters[t := Waiter(false, false)])
    case Checks(t) =>
      if c.limit.inFlight < c.limit.current then
        Controller(c.limit.(inFlight := Min(c.limit.inFlight + 1, USIZE_MAX)), c.permits + {t}, c.waiters - {t})
      else c.(waiters := c.waiters[t := c.waiters[t].(checked := true)])
    case WakesUp(t, _) => c.(waiters := c.waiters - {t})
    case GivesUp(t) => c.(waiters := c.waiters - {t})
    case Records(t, outcome, latency) =>
      Controller(Release(p, c.limit, outcome, latency), c.permits - {t}, NotifyAll(c.waiters))
    case Drops(t) =>
      Controller(c.limit.(inFlight := Max(c.limit.inFlight - 1, 0)), c.permits - {t}, NotifyAll(c.waiters))
  }

  /** Permits are counted exactly, and nobody sleeps un-notified while there is room. */
  ghost predicate Inv(p: Policy, c: Controller) {
    && c.limit.inFlight == |c.permits| <= p.maxLimit
    && InRange(p, c.limit)
    && c.permits !! c.waiters.Keys
    && forall t :: t in c.waiters && c.waiters[t].checked && !c.waiters[t].notified ==>
                     c.limit.inFlight >= c.limit.current
  }

  lemma StepKeepsInv(p: Policy, c: Controller, e: Event)
    requires p.Valid() && Inv(p, c) && Enabled(c, e)
    ensures Inv(p, Step(p, c, e))
  {
    LoweredShrinks(p, c.limit.current);
    if e.Records? || e.Drops? {
      assert c.permits == (c.permits - {e.task}) + {e.task};
    }
  }

  ghost predicate EnabledRun(p: Policy, c: Controller, events: seq<Event>)
    requires p.Valid()
    decreases |events|
  {
    events == [] || (Enabled(c, events[0]) && EnabledRun(p, Step(p, c, events[0]), events[1..]))
  }

  ghost function Run(p: Policy, c: Controller, events: seq<Event>): Controller
    requires p.Valid() && EnabledRun(p, c, events)
    decreases |events|
  {
    if events == [] then c else Run(p, Step(p, c, events[0]), events[1..])
  }

  /** A check takes a permit exactly while fewer are out than the limit, and otherwise leaves the task waiting. */
  lemma ChecksExactlyByRoom(p: Policy, c: Controller, t: nat)
    requires p.Valid() && Inv(p, c) && Enabled(c, Checks(t))
    ensures var c' := Step(p, c, Checks(t));
            if |c.permits| < c.limit.current then c'.permits == c.permits + {t} && t !in c'.waiters
            else c'.permits == c.permits && c'.waiters == c.waiters[t := c.waiters[t].(checked := true)]
  {
  }

  /** No interleaving loses a wake-up or a permit. */
  lemma {:induction false} NoLostWakeups(p: Policy, c: Controller, events: seq<Event>)
    requires p.Valid() && Inv(p, c) && EnabledRun(p, c, events)
    ensures Inv(p, Run(p, c, events))
    decreases |events|
  {
    if events != [] {
      StepKeepsInv(p, c, events[0]);
      NoLostWakeups(p, Step(p, c, events[0]), events[1..]);
    }
  }
}
