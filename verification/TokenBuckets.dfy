/** Token buckets with server throttles, and when two of them cannot be told apart. */
module TokenBuckets {
  import opened Wrappers

  const NANOS: real := 1000000000.0

  /** Instants and durations are nanoseconds; the refill rate is tokens per second. */
  datatype Policy = Policy(rate: real, burst: nat, maxThrottleDelay: nat) {
    predicate Valid() {
      rate > 0.0 && burst >= 1
    }
  }

  datatype Bucket = Bucket(policy: Policy, tokens: real, lastRefillAt: int, throttleUntil: Option<int>) {
    predicate Valid() {
      policy.Valid() && 0.0 <= tokens <= policy.burst as real
    }

    predicate ThrottledAt(now: int) {
      throttleUntil.Some? && now < throttleUntil.value
    }
  }

  function Full(policy: Policy, now: int): Bucket {
    Bucket(policy, policy.burst as real, now, None)
  }

  function Earned(policy: Policy, from: int, to: int): real {
    (to - from) as real / NANOS * policy.rate
  }

  function RMin(a: real, b: real): real {
    if a <= b then a else b
  }

  function RMax(a: real, b: real): real {
    if a <= b then b else a
  }

  function Refill(b: Bucket, now: int): Bucket {
    if now <= b.lastRefillAt then b
    else
      b.(tokens := RMin(b.tokens + Earned(b.policy, b.lastRefillAt, now), b.policy.burst as real),
         lastRefillAt := now,
         throttleUntil := if b.ThrottledAt(now) then b.throttleUntil else None)
  }

  /** Whether a refilled bucket can pay for a request. */
  predicate Ready(b: Bucket, now: int) {
    !b.ThrottledAt(now) && b.tokens >= 1.0
  }

  /** How long a refilled bucket asks to wait, for any rounding of seconds to a duration. */
  function WaitOf(b: Bucket, now: int, round: real -> nat): nat
    requires b.policy.Valid()
  {
    if b.ThrottledAt(now) then b.throttleUntil.value - now
    else if b.tokens >= 1.0 then 0
    else Max(round(RMax(1.0 - b.tokens, 0.0) / b.policy.rate), 1)
  }

  function Charge(b: Bucket): Bucket {
    b.(tokens := RMax(b.tokens - 1.0, 0.0))
  }

  predicate IsIdle(b: Bucket, now: int) {
    b.tokens >= b.policy.burst as real && !b.ThrottledAt(now)
  }

  /** `horizon` is the last representable instant; a throttle past it is dropped. */
  function ApplyThrottle(b: Bucket, now: int, delay: nat, horizon: int): Bucket {
    var capped := Min(delay, b.policy.maxThrottleDelay);
    if capped == 0 || now + capped > horizon then b
    else
      b.(throttleUntil :=
        Some(if b.throttleUntil.Some? then Max(b.throttleUntil.value, now + capped) else now + capped))
  }

  // ------------------------------------------- buckets as seen at one instant

  /** Everything a later caller can learn from a bucket, if the clock never runs back before `now`. */
  function At(b: Bucket, now: int): Bucket
    requires b.lastRefillAt <= now
  {
    var r := Refill(b, now);
    if r.ThrottledAt(now) then r else r.(throttleUntil := None)
  }

  lemma EarnedAdds(policy: Policy, a: int, b: int, c: int)
    requires policy.Valid()
    ensures Earned(policy, a, b) + Earned(policy, b, c) == Earned(policy, a, c)
    ensures a <= b ==> Earned(policy, a, b) >= 0.0
  {
    var x, y := (b - a) as real / NANOS, (c - b) as real / NANOS;
    assert (c - a) as real / NANOS == x + y;
    assert (x + y) * policy.rate == x * policy.rate + y * policy.rate;
    assert a <= b ==> x >= 0.0 && x * policy.rate >= 0.0;
  }

  lemma RefillValid(b: Bucket, now: int)
    requires b.Valid()
    ensures Refill(b, now).Valid()
  {
    EarnedAdds(b.policy, b.lastRefillAt, now, now);
  }

  /** Looking earlier does not change what is seen later, and neither does refilling. */
  lemma AtLater(b: Bucket, now: int, later: int)
    requires b.Valid() && b.lastRefillAt <= now <= later
    ensures At(At(b, now), later) == At(b, later) == At(Refill(b, now), later)
    ensures At(b, now).Valid()
  {
    RefillValid(b, now);
    EarnedAdds(b.policy, b.lastRefillAt, now, later);
    EarnedAdds(b.policy, now, later, later);
  }

  lemma FullStaysFull(policy: Policy, now: int, later: int)
    requires policy.Valid() && now <= later
    ensures At(Full(policy, now), later) == Full(policy, later)
  {
    EarnedAdds(policy, now, later, later);
  }

  /** The idle buckets are exactly those that cannot be told from a new one, which is what makes eviction safe. */
  lemma IdleLooksNew(b: Bucket, now: int)
    requires b.Valid() && b.lastRefillAt <= now
    ensures IsIdle(Refill(b, now), now) <==> At(b, now) == Full(b.policy, now)
  {
    RefillValid(b, now);
  }

  lemma ThrottleAt(b: Bucket, now: int, delay: nat, horizon: int)
    requires b.Valid() && b.lastRefillAt <= now
    ensures At(ApplyThrottle(b, now, delay, horizon), now) == ApplyThrottle(At(b, now), now, delay, horizon)
  {
  }

  /** A throttle adds exactly the time up to its capped end, unless that end cannot be represented. */
  lemma ThrottleIsExact(b: Bucket, now: int, delay: nat, horizon: int, t: int)
    ensures var capped := Min(delay, b.policy.maxThrottleDelay); var after := ApplyThrottle(b, now, delay, horizon);
            && after.(throttleUntil := None) == b.(throttleUntil := None)
            && (after.ThrottledAt(t) <==> b.ThrottledAt(t) || (0 < capped && now + capped <= horizon && t < now + capped))
  {
  }

  lemma ChargeAt(b: Bucket, now: int)
    requires b.Valid() && b.lastRefillAt <= now
    ensures At(Charge(Refill(b, now)), now) == Charge(At(b, now))
    ensures Ready(Refill(b, now), now) == Ready(At(b, now), now)
    ensures forall round :: WaitOf(Refill(b, now), now, round) == WaitOf(At(b, now), now, round)
  {
  }

  // ------------------------------------------------- admission by two buckets

  datatype Admission = Admission(global: Option<Bucket>, host: Option<Bucket>, delay: nat)

  predicate BothValid(global: Option<Bucket>, host: Option<Bucket>) {
    (global.Some? ==> global.value.Valid()) && (host.Some? ==> host.value.Valid())
  }

  function RefillOpt(b: Option<Bucket>, now: int): Option<Bucket> {
    if b.Some? then Some(Refill(b.value, now)) else None
  }

  function ChargeOpt(b: Option<Bucket>): Option<Bucket> {
    if b.Some? then Some(Charge(b.value)) else None
  }

  predicate ReadyOpt(b: Option<Bucket>, now: int) {
    b.Some? ==> Ready(b.value, now)
  }

  function WaitOpt(b: Option<Bucket>, now: int, round: real -> nat): nat
    requires b.Some? ==> b.value.policy.Valid()
  {
    if b.Some? then WaitOf(b.value, now, round) else 0
  }

  /** A request is admitted by the global and the host bucket together, or by neither. */
  function Admit(global: Option<Bucket>, host: Option<Bucket>, now: int, round: real -> nat): Admission
    requires BothValid(global, host)
  {
    var g, h := RefillOpt(global, now), RefillOpt(host, now);
    if ReadyOpt(g, now) && ReadyOpt(h, now) then Admission(ChargeOpt(g), ChargeOpt(h), 0)
    else Admission(g, h, Max(WaitOpt(g, now, round), WaitOpt(h, now, round)))
  }

  /** Exactly one token was taken from a bucket, if there is one, on top of its refill. */
  ghost predicate ChargedOne(before: Option<Bucket>, after: Option<Bucket>, now: int) {
    && (before.Some? <==> after.Some?)
    && (before.Some? ==>
          var refilled := Refill(before.value, now);
          refilled.tokens >= 1.0 && after.value == refilled.(tokens := refilled.tokens - 1.0))
  }

  /** A zero delay means one token from every applicable bucket; any other delay means none from any. */
  lemma AdmitIsAtomic(global: Option<Bucket>, host: Option<Bucket>, now: int, round: real -> nat)
    requires BothValid(global, host)
    ensures var a := Admit(global, host, now, round);
            && BothValid(a.global, a.host)
            && (a.global.Some? <==> global.Some?) && (a.host.Some? <==> host.Some?)
            && (host.Some? ==> a.host.value.policy == host.value.policy)
            && (a.delay == 0 <==> ReadyOpt(RefillOpt(global, now), now) && ReadyOpt(RefillOpt(host, now), now))
            && (a.delay == 0 ==> ChargedOne(global, a.global, now) && ChargedOne(host, a.host, now))
            && (a.delay > 0 ==> a.global == RefillOpt(global, now) && a.host == RefillOpt(host, now))
  {
    if global.Some? {
      RefillValid(global.value, now);
    }
    if host.Some? {
      RefillValid(host.value, now);
    }
  }

  /** The tokens at `now`: what was left and rate x elapsed seconds, up to the burst; the clock never runs back. */
  function TokensAt(b: Bucket, now: int): real {
    var seconds := Max(now - b.lastRefillAt, 0) as real / 1000000000.0;
    var earned := b.tokens + seconds * b.policy.rate;
    if earned <= b.policy.burst as real then earned else b.policy.burst as real
  }

  /** The wait at `now`: the rest of a throttle, or the time that earns the missing part of a token. */
  function WaitAt(b: Option<Bucket>, now: int, round: real -> nat): nat
    requires b.Some? ==> b.value.policy.Valid()
  {
    if b.None? then 0
    else if b.value.ThrottledAt(now) then b.value.throttleUntil.value - now
    else if TokensAt(b.value, now) >= 1.0 then 0
    else Max(round((1.0 - TokensAt(b.value, now)) / b.value.policy.rate), 1)
  }

  /** A bucket after an answer at `now`, one token less if it was a grant. */
  ghost predicate MovedTo(before: Bucket, after: Bucket, now: int, charged: bool) {
    && after.policy == before.policy && after.lastRefillAt == Max(before.lastRefillAt, now)
    && after.tokens == TokensAt(before, now) - (if charged then 1.0 else 0.0)
    && forall t :: now <= t ==> after.ThrottledAt(t) == before.ThrottledAt(t)
  }

  lemma RefillInClosedForm(b: Bucket, now: int)
    requires b.Valid()
    ensures MovedTo(b, Refill(b, now), now, false) && Refill(b, now).ThrottledAt(now) == b.ThrottledAt(now)
  {
    if now <= b.lastRefillAt {
      assert Max(now - b.lastRefillAt, 0) as real / 1000000000.0 == 0.0;
      assert 0.0 * b.policy.rate == 0.0;
    }
  }

  /** Every answer in closed form: the larger of the two waits, and what becomes of each bucket. */
  lemma AdmitInClosedForm(global: Option<Bucket>, host: Option<Bucket>, now: int, round: real -> nat)
    requires BothValid(global, host)
    ensures var a := Admit(global, host, now, round);
            && a.delay == Max(WaitAt(global, now, round), WaitAt(host, now, round))
            && (a.global.Some? <==> global.Some?) && (a.host.Some? <==> host.Some?)
            && (global.Some? ==> MovedTo(global.value, a.global.value, now, a.delay == 0))
            && (host.Some? ==> MovedTo(host.value, a.host.value, now, a.delay == 0))
  {
    if global.Some? {
      RefillInClosedForm(global.value, now);
    }
    if host.Some? {
      RefillInClosedForm(host.value, now);
    }
    hide Refill, TokensAt;
  }

  /** An unthrottled bucket has the whole tokens that the time since its last refill earns, up to the burst. */
  lemma TimeEarnsTokens(b: Bucket, now: int, n: nat, round: real -> nat)
    requires b.Valid() && b.lastRefillAt <= now && n <= b.policy.burst
    requires (now - b.lastRefillAt) as real / 1000000000.0 * b.policy.rate >= n as real
    ensures TokensAt(b, now) >= n as real
    ensures n >= 1 && !b.ThrottledAt(now) ==> Admit(None, Some(b), now, round).delay == 0
  {
    assert TokensAt(b, now) >= n as real;
    hide TokensAt, Admit;
    AdmitInClosedForm(None, Some(b), now, round);
  }

  /** Two host buckets that look the same are admitted the same way and still look the same. */
  lemma AdmitSeesAt(global: Option<Bucket>, a: Bucket, b: Bucket, now: int, round: real -> nat)
    requires BothValid(global, Some(a)) && b.Valid()
    requires a.lastRefillAt <= now && b.lastRefillAt <= now && At(a, now) == At(b, now)
    ensures var x, y := Admit(global, Some(a), now, round), Admit(global, Some(b), now, round);
            && x.delay == y.delay && x.global == y.global && x.host.Some? && y.host.Some?
            && x.host.value.Valid() && y.host.value.Valid()
            && x.host.value.lastRefillAt == now == y.host.value.lastRefillAt
            && At(x.host.value, now) == At(y.host.value, now)
  {
    ChargeAt(a, now);
    ChargeAt(b, now);
    RefillValid(a, now);
    RefillValid(b, now);
    AtLater(a, now, now);
    AtLater(b, now, now);
    assert Refill(a, now).lastRefillAt == now == Refill(b, now).lastRefillAt;
    hide At, Earned;
  }

  // ---------------------------------------------------------------- rates

  /** Tokens in hand, less everything earned up to the last refill: only a charge lowers it by a token. */
  function Credit(b: Bucket): real {
    b.tokens - Earned(b.policy, 0, b.lastRefillAt)
  }

  lemma RefillCredit(b: Bucket, now: int)
    requires b.Valid()
    ensures Credit(Refill(b, now)) <= Credit(b)
    ensures b.lastRefillAt <= Refill(b, now).lastRefillAt
  {
    EarnedAdds(b.policy, 0, b.lastRefillAt, now);
  }

  lemma ChargedCredit(before: Option<Bucket>, after: Option<Bucket>, now: int)
    requires before.Some? && before.value.Valid() && ChargedOne(before, after, now)
    ensures Credit(after.value) <= Credit(before.value) - 1.0
  {
    RefillCredit(before.value, now);
  }
}
