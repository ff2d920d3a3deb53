/**
  The rate limiter without eviction: one bucket per host, kept for ever. It is the reference that
  the evicting limiter is compared with, and the place where a host's rate over time is bounded.
 */
module PlainLimiter {
  import opened Wrappers
  import opened TokenBuckets

  datatype Config = Config(hostPolicy: Option<Policy>, round: real -> nat, horizon: int) {
    predicate Valid() {
      hostPolicy.Some? ==> hostPolicy.value.Valid()
    }
  }

  datatype Limiter = Limiter(global: Option<Bucket>, hosts: map<string, Bucket>)

  /** One critical section: an acquisition, or a server throttle on the global or on a host's bucket. */
  datatype Event =
    | Acquire(now: int, key: Option<string>)
    | ThrottleGlobal(now: int, delay: nat)
    | ThrottleHost(now: int, host: string, delay: nat)

  ghost predicate Sound(cfg: Config, l: Limiter) {
    && cfg.Valid()
    && (l.global.Some? ==> l.global.value.Valid())
    && forall h :: h in l.hosts ==> l.hosts[h].Valid() && cfg.hostPolicy == Some(l.hosts[h].policy)
  }

  /** The bucket a host has, or would be given. */
  function BucketOf(cfg: Config, l: Limiter, h: string, now: int): Bucket
    requires cfg.hostPolicy.Some?
  {
    if h in l.hosts then l.hosts[h] else Full(cfg.hostPolicy.value, now)
  }

  function HostBucket(cfg: Config, l: Limiter, key: Option<string>, now: int): Option<Bucket> {
    if cfg.hostPolicy.None? || key.None? then None else Some(BucketOf(cfg, l, key.value, now))
  }

  lemma HostBucketValid(cfg: Config, l: Limiter, key: Option<string>, now: int)
    requires Sound(cfg, l)
    ensures BothValid(l.global, HostBucket(cfg, l, key, now))
  {
  }

  function Admitted(cfg: Config, l: Limiter, now: int, key: Option<string>): Admission
    requires Sound(cfg, l)
  {
    HostBucketValid(cfg, l, key, now);
    Admit(l.global, HostBucket(cfg, l, key, now), now, cfg.round)
  }

  function Step(cfg: Config, l: Limiter, e: Event): Limiter
    requires Sound(cfg, l)
  {
    match e
    case Acquire(now, key) =>
      var a := Admitted(cfg, l, now, key);
      Limiter(a.global, if a.host.Some? && key.Some? then l.hosts[key.value := a.host.value] else l.hosts)
    case ThrottleGlobal(now, delay) =>
      if l.global.None? then l else l.(global := Some(ApplyThrottle(l.global.value, now, delay, cfg.horizon)))
    case ThrottleHost(now, h, delay) =>
      if cfg.hostPolicy.None? then l
      else l.(hosts := l.hosts[h := ApplyThrottle(BucketOf(cfg, l, h, now), now, delay, cfg.horizon)])
  }

  predicate Granted(cfg: Config, l: Limiter, e: Event)
    requires Sound(cfg, l)
  {
    e.Acquire? && Admitted(cfg, l, e.now, e.key).delay == 0
  }

  lemma StepSound(cfg: Config, l: Limiter, e: Event)
    requires Sound(cfg, l)
    ensures Sound(cfg, Step(cfg, l, e))
  {
    if e.Acquire? {
      var host := HostBucket(cfg, l, e.key, e.now);
      HostBucketValid(cfg, l, e.key, e.now);
      AdmitIsAtomic(l.global, host, e.now, cfg.round);
    }
  }

  /** How many acquisitions are granted to one host in a run. */
  function HostGrants(cfg: Config, l: Limiter, events: seq<Event>, h: string): nat
    requires Sound(cfg, l)
    decreases |events|
  {
    if events == [] then 0
    else
      StepSound(cfg, l, events[0]);
      (if Granted(cfg, l, events[0]) && events[0].key == Some(h) then 1 else 0)
      + HostGrants(cfg, Step(cfg, l, events[0]), events[1..], h)
  }

  /** Clock readings that never run back, from `start` to `end`. */
  ghost predicate Ordered(events: seq<Event>, start: int, end: int) {
    && start <= end
    && (forall e :: e in events ==> start <= e.now <= end)
    && forall i, j :: 0 <= i < j < |events| ==> events[i].now <= events[j].now
  }

  // --------------------------------------------------- bursts at one instant

  /** `k` acquisitions of one host at one instant. */
  function Asks(now: int, h: string, k: nat): seq<Event> {
    if k == 0 then [] else [Acquire(now, Some(h))] + Asks(now, h, k - 1)
  }

  /** How many of `k` acquisitions a bucket has whole tokens for. */
  function Whole(b: Option<Bucket>, now: int, k: nat): nat
    requires b.Some? ==> TokensAt(b.value, now) >= 0.0
  {
    if b.None? then k else Min(k, TokensAt(b.value, now).Floor)
  }

  lemma TokensNotNegative(b: Option<Bucket>, now: int)
    requires b.Some? ==> b.value.Valid()
    ensures b.Some? ==> TokensAt(b.value, now) >= 0.0
  {
    if b.Some? {
      RefillInClosedForm(b.value, now);
      RefillValid(b.value, now);
    }
  }

  /** After an answer a bucket has a token less for a grant, and the same number otherwise. */
  lemma WholeAfter(before: Option<Bucket>, after: Option<Bucket>, now: int, k: nat, charged: bool)
    requires (before.Some? <==> after.Some?) && (before.Some? ==> before.value.Valid() && after.value.Valid())
    requires before.Some? ==> MovedTo(before.value, after.value, now, charged)
    requires k >= 1
    ensures before.Some? ==> TokensAt(before.value, now) >= 0.0 && TokensAt(after.value, now) >= 0.0
    ensures Whole(after, now, k - 1) == if charged then Whole(before, now, k) - 1 else Min(Whole(before, now, k), k - 1)
  {
    TokensNotNegative(before, now);
    TokensNotNegative(after, now);
    if before.Some? {
      RefillInClosedForm(after.value, now);
      assert TokensAt(after.value, now) == after.value.tokens;
      hide TokensAt;
      if charged {
        assert (TokensAt(before.value, now) - 1.0).Floor == TokensAt(before.value, now).Floor - 1;
      }
    }
  }

  /** Asked `k` times at one instant, unthrottled buckets grant exactly as often as both have whole tokens. */
  lemma {:induction false} BurstIsExact(cfg: Config, l: Limiter, h: string, now: int, k: nat)
    requires Sound(cfg, l)
    requires var host := HostBucket(cfg, l, Some(h), now);
             && (l.global.Some? ==> !l.global.value.ThrottledAt(now)) && (host.Some? ==> !host.value.ThrottledAt(now))
    ensures var host := HostBucket(cfg, l, Some(h), now);
            && (l.global.Some? ==> TokensAt(l.global.value, now) >= 0.0)
            && (host.Some? ==> TokensAt(host.value, now) >= 0.0)
            && HostGrants(cfg, l, Asks(now, h, k), h) == Min(Whole(l.global, now, k), Whole(host, now, k))
    decreases k
  {
    var host := HostBucket(cfg, l, Some(h), now);
    TokensNotNegative(l.global, now);
    TokensNotNegative(host, now);
    if k > 0 {
      var e := Acquire(now, Some(h));
      var next := Step(cfg, l, e);
      StepSound(cfg, l, e);
      HostBucketValid(cfg, l, Some(h), now);
      var a := Admit(l.global, host, now, cfg.round);
      AdmitIsAtomic(l.global, host, now, cfg.round);
      AdmitInClosedForm(l.global, host, now, cfg.round);
      assert HostBucket(cfg, next, Some(h), now) == a.host && next.global == a.global;
      hide Admit, TokensAt;
      WholeAfter(l.global, a.global, now, k, a.delay == 0);
      WholeAfter(host, a.host, now, k, a.delay == 0);
      BurstIsExact(cfg, next, h, now, k - 1);
      assert Asks(now, h, k)[1..] == Asks(now, h, k - 1);
    }
  }

  // ------------------------------------------------ runs with an ordered clock

  ghost predicate NotAhead(l: Limiter, now: int) {
    forall h :: h in l.hosts ==> l.hosts[h].lastRefillAt <= now
  }

  lemma StepNotAhead(cfg: Config, l: Limiter, e: Event)
    requires Sound(cfg, l) && NotAhead(l, e.now)
    ensures NotAhead(Step(cfg, l, e), e.now)
  {
  }

  /** The credit of a host's bucket brought up to `now`. */
  ghost function CreditAt(cfg: Config, l: Limiter, h: string, now: int): real
    requires cfg.hostPolicy.Some? && NotAhead(l, now)
  {
    Credit(At(BucketOf(cfg, l, h, now), now))
  }

  lemma CreditAtLater(cfg: Config, l: Limiter, h: string, now: int, later: int)
    requires Sound(cfg, l) && cfg.hostPolicy.Some? && NotAhead(l, now) && now <= later
    ensures CreditAt(cfg, l, h, later) <= CreditAt(cfg, l, h, now)
  {
    if h in l.hosts {
      AtLater(l.hosts[h], now, later);
      RefillCredit(At(l.hosts[h], now), later);
    } else {
      EarnedAdds(cfg.hostPolicy.value, 0, now, later);
      EarnedAdds(cfg.hostPolicy.value, now, later, later);
    }
  }

  lemma CreditAtStep(cfg: Config, l: Limiter, e: Event, h: string)
    requires Sound(cfg, l) && cfg.hostPolicy.Some? && NotAhead(l, e.now)
    requires NotAhead(Step(cfg, l, e), e.now)
    ensures CreditAt(cfg, Step(cfg, l, e), h, e.now) + (if Granted(cfg, l, e) && e.key == Some(h) then 1.0 else 0.0)
            <= CreditAt(cfg, l, h, e.now)
  {
    var b := BucketOf(cfg, l, h, e.now);
    if e.Acquire? && e.key == Some(h) {
      HostBucketValid(cfg, l, e.key, e.now);
      AdmitIsAtomic(l.global, Some(b), e.now, cfg.round);
      ChargeAt(b, e.now);
    }
  }

  lemma {:induction false} HostRateByClock(cfg: Config, l: Limiter, events: seq<Event>, h: string, start: int, end: int)
    requires Sound(cfg, l) && NotAhead(l, start) && cfg.hostPolicy.Some? && Ordered(events, start, end)
    ensures HostGrants(cfg, l, events, h) as real - Earned(cfg.hostPolicy.value, 0, end) <= CreditAt(cfg, l, h, start)
    decreases |events|
  {
    if events == [] {
      var b := BucketOf(cfg, l, h, start);
      AtLater(b, start, start);
      EarnedAdds(b.policy, 0, start, end);
      EarnedAdds(b.policy, start, end, end);
    } else {
      var e := events[0];
      assert Ordered(events[1..], e.now, end) by {
        forall x | x in events[1..] ensures e.now <= x.now <= end {
          var j :| 0 <= j < |events[1..]| && events[1..][j] == x;
          assert events[j + 1] == x;
        }
      }
      StepSound(cfg, l, e);
      StepNotAhead(cfg, l, e);
      HostRateByClock(cfg, Step(cfg, l, e), events[1..], h, e.now, end);
      CreditAtStep(cfg, l, e, h);
      CreditAtLater(cfg, l, h, start, e.now);
    }
  }

  /** No host is granted more than burst + rate x elapsed time in any stretch of an ordered run. */
  lemma HostRateOverTime(cfg: Config, l: Limiter, events: seq<Event>, h: string, start: int, end: int)
    requires Sound(cfg, l) && NotAhead(l, start) && cfg.hostPolicy.Some? && Ordered(events, start, end)
    ensures HostGrants(cfg, l, events, h) as real
            <= cfg.hostPolicy.value.burst as real + Earned(cfg.hostPolicy.value, start, end)
  {
    HostRateByClock(cfg, l, events, h, start, end);
    AtLater(BucketOf(cfg, l, h, start), start, start);
    EarnedAdds(cfg.hostPolicy.value, 0, start, end);
  }
}
