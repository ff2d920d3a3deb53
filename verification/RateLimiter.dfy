/** The client's rate limiter: a global bucket, a bounded map of host buckets, and its eviction. */
module RateLimiter {
  import opened Wrappers
  import opened Machine
  import opened Text
  import opened TokenBuckets
  import opened PlainLimiter
  import opened HostEviction

  const ENTRY_TTL: nat := 300_000_000_000
  const MAX_ENTRIES: nat := 1024
  const CLEANUP_INTERVAL_MS: nat := 5_000

  // ---------------------------------------------------------------- scopes

  datatype Scope = Auto | Host | Global | Both {
    predicate AppliesToHost() {
      Host? || Both?
    }

    predicate AppliesToGlobal() {
      Global? || Both?
    }
  }

  function ResolveScope(configured: Scope, hint: Option<Scope>, hasHost: bool, hasGlobal: bool, hasPerHost: bool): Scope {
    if !configured.Auto? then configured
    else
      var hostAvailable := hasHost && hasPerHost;
      match hint
      case Some(Both) => if hasGlobal == hostAvailable then Both else if hasGlobal then Global else Host
      case Some(Global) => if hasGlobal || !hostAvailable then Global else Host
      case _ => if hostAvailable || !hasGlobal then Host else Global
  }

  /** Whenever some limiter can enforce a hint, the inferred scope reaches one that exists. */
  lemma AutoScopeReachesALimiter(hint: Option<Scope>, hasHost: bool, hasGlobal: bool, hasPerHost: bool)
    requires hasGlobal || (hasHost && hasPerHost)
    ensures var scope := ResolveScope(Auto, hint, hasHost, hasGlobal, hasPerHost);
            && !scope.Auto?
            && ((scope.AppliesToGlobal() && hasGlobal) || (scope.AppliesToHost() && hasHost && hasPerHost))
            && (scope.AppliesToGlobal() ==> hasGlobal) && (scope.AppliesToHost() ==> hasHost && hasPerHost)
  {
  }

  /** A configured scope stands; an inferred one follows the hint wherever the limiter it names exists. */
  lemma ScopeIsHonoured(configured: Scope, hint: Option<Scope>, hasHost: bool, hasGlobal: bool, hasPerHost: bool)
    ensures var scope := ResolveScope(configured, hint, hasHost, hasGlobal, hasPerHost);
            && (!configured.Auto? ==> scope == configured)
            && (configured.Auto? ==>
                  && (hint == Some(Both) && hasGlobal && hasHost && hasPerHost ==> scope == Both)
                  && (hint == Some(Global) && hasGlobal ==> scope == Global)
                  && (hint in {None, Some(Host), Some(Auto)} && hasHost && hasPerHost ==> scope == Host))
  {
  }

  // --------------------------------------------------------------- eviction

  datatype Entry = Entry(bucket: Bucket, lastUsedAt: int)

  type Entries = map<string, Entry>

  predicate Stale(e: Entry, now: int) {
    now - e.lastUsedAt > ENTRY_TTL
  }

  /** What a cleanup at `now` may do: refill what it keeps and drop only buckets that are idle. */
  ghost predicate Cleaned(before: Entries, after: Entries, now: int) {
    && (forall h :: h in after ==>
          h in before && after[h] == Entry(Refill(before[h].bucket, now), before[h].lastUsedAt))
    && (forall h :: h in before && h !in after ==> IsIdle(Refill(before[h].bucket, now), now))
  }

  ghost predicate EntriesSound(cfg: Config, entries: Entries) {
    forall h :: h in entries ==> entries[h].bucket.Valid() && cfg.hostPolicy == Some(entries[h].bucket.policy)
  }

  // ------------------------------------------------- what the callers can see

  function EntryBucket(cfg: Config, entries: Entries, h: string, now: int): Bucket
    requires cfg.hostPolicy.Some?
  {
    if h in entries then entries[h].bucket else Full(cfg.hostPolicy.value, now)
  }

  /** At `now`, host `h` looks the same here and in the limiter that never evicts. */
  ghost predicate LooksSame(cfg: Config, entries: Entries, plain: Limiter, now: int, h: string)
    requires cfg.hostPolicy.Some?
  {
    var a, b := EntryBucket(cfg, entries, h, now), BucketOf(cfg, plain, h, now);
    a.lastRefillAt <= now && b.lastRefillAt <= now && At(a, now) == At(b, now)
  }

  ghost predicate Indistinguishable(cfg: Config, entries: Entries, plain: Limiter, now: int) {
    cfg.hostPolicy.Some? ==> forall h: string :: LooksSame(cfg, entries, plain, now, h)
  }

  lemma SameLater(cfg: Config, entries: Entries, plain: Limiter, now: int, later: int)
    requires Sound(cfg, plain) && EntriesSound(cfg, entries) && now <= later
    requires Indistinguishable(cfg, entries, plain, now)
    ensures Indistinguishable(cfg, entries, plain, later)
  {
    if cfg.hostPolicy.Some? {
      var policy := cfg.hostPolicy.value;
      forall h: string ensures LooksSame(cfg, entries, plain, later, h) {
        assert LooksSame(cfg, entries, plain, now, h);
        AtLater(EntryBucket(cfg, entries, h, now), now, later);
        AtLater(BucketOf(cfg, plain, h, now), now, later);
        FullStaysFull(policy, now, later);
        FullStaysFull(policy, later, later);
      }
    }
  }

  /** A cleanup cannot be noticed. */
  lemma SameAfterCleanup(cfg: Config, before: Entries, after: Entries, plain: Limiter, now: int)
    requires Sound(cfg, plain) && EntriesSound(cfg, before) && Cleaned(before, after, now)
    requires Indistinguishable(cfg, before, plain, now)
    ensures EntriesSound(cfg, after) && Indistinguishable(cfg, after, plain, now)
  {
    forall h | h in after ensures after[h].bucket.Valid() {
      RefillValid(before[h].bucket, now);
    }
    if cfg.hostPolicy.Some? {
      forall h: string ensures LooksSame(cfg, after, plain, now, h) {
        assert LooksSame(cfg, before, plain, now, h);
        if h in after {
          AtLater(before[h].bucket, now, now);
        } else if h in before {
          IdleLooksNew(before[h].bucket, now);
          FullStaysFull(cfg.hostPolicy.value, now, now);
        }
      }
    }
  }

  /** Changing one host the same way on both sides keeps the others as they were. */
  lemma SameAfterUpdate(
    cfg: Config, entries: Entries, plain: Limiter, plain': Limiter, now: int, h: string, e: Entry, b: Bucket)
    requires cfg.hostPolicy.Some? && Indistinguishable(cfg, entries, plain, now)
    requires plain'.hosts == plain.hosts[h := b]
    requires e.bucket.lastRefillAt <= now && b.lastRefillAt <= now && At(e.bucket, now) == At(b, now)
    ensures Indistinguishable(cfg, entries[h := e], plain', now)
  {
    var entries' := entries[h := e];
    forall k: string ensures LooksSame(cfg, entries', plain', now, k) {
      assert LooksSame(cfg, entries, plain, now, k);
    }
  }

  function HostOf(entries: Entries, key: Option<string>): Option<Bucket> {
    if key.Some? && key.value in entries then Some(entries[key.value].bucket) else None
  }

  lemma CleanedSound(cfg: Config, before: Entries, after: Entries, now: int)
    requires EntriesSound(cfg, before) && Cleaned(before, after, now)
    ensures EntriesSound(cfg, after)
  {
    forall h | h in after ensures after[h].bucket.Valid() {
      RefillValid(before[h].bucket, now);
    }
  }

  /** An acquisition against indistinguishable limiters gives one answer and keeps them indistinguishable. */
  lemma AcquireSame(cfg: Config, entries: Entries, plain: Limiter, now: int, key: Option<string>)
    requires Sound(cfg, plain) && EntriesSound(cfg, entries) && Indistinguishable(cfg, entries, plain, now)
    requires key.Some? ==> cfg.hostPolicy.Some?
    ensures var found := if key.Some? then Some(EntryBucket(cfg, entries, key.value, now)) else None;
            && BothValid(plain.global, found)
            && var a := Admit(plain.global, found, now, cfg.round); var plain' := Step(cfg, plain, Acquire(now, key));
            && a.delay == Admitted(cfg, plain, now, key).delay
            && a.global == plain'.global
            && (key.Some? <==> a.host.Some?)
            && Indistinguishable(
                 cfg, if key.Some? then entries[key.value := Entry(a.host.value, now)] else entries, plain', now)
  {
    HostBucketValid(cfg, plain, key, now);
    if key.Some? {
      var a, b := EntryBucket(cfg, entries, key.value, now), BucketOf(cfg, plain, key.value, now);
      assert LooksSame(cfg, entries, plain, now, key.value);
      AdmitSeesAt(plain.global, a, b, now, cfg.round);
      var admitted := Admit(plain.global, Some(a), now, cfg.round);
      var plain' := Step(cfg, plain, Acquire(now, key));
      SameAfterUpdate(cfg, entries, plain, plain', now, key.value, Entry(admitted.host.value, now), plain'.hosts[key.value]);
    } else if cfg.hostPolicy.Some? {
      var plain' := Step(cfg, plain, Acquire(now, key));
      forall h: string ensures LooksSame(cfg, entries, plain', now, h) {
        assert LooksSame(cfg, entries, plain, now, h);
      }
    }
  }

  lemma ThrottleSame(cfg: Config, entries: Entries, plain: Limiter, now: int, h: string, delay: nat)
    requires Sound(cfg, plain) && EntriesSound(cfg, entries) && Indistinguishable(cfg, entries, plain, now)
    requires cfg.hostPolicy.Some?
    ensures var bucket := ApplyThrottle(EntryBucket(cfg, entries, h, now), now, delay, cfg.horizon);
            Indistinguishable(cfg, entries[h := Entry(bucket, now)], Step(cfg, plain, ThrottleHost(now, h, delay)), now)
  {
    var a, b := EntryBucket(cfg, entries, h, now), BucketOf(cfg, plain, h, now);
    assert LooksSame(cfg, entries, plain, now, h);
    ThrottleAt(a, now, delay, cfg.horizon);
    ThrottleAt(b, now, delay, cfg.horizon);
    var plain' := Step(cfg, plain, ThrottleHost(now, h, delay));
    SameAfterUpdate(cfg, entries, plain, plain', now, h,
                    Entry(ApplyThrottle(a, now, delay, cfg.horizon), now), plain'.hosts[h]);
  }

  // ------------------------------------------------------------------ runs

  /** The buckets of the evicting limiter. */
  datatype Buckets = Buckets(global: Option<Bucket>, entries: Entries)

  ghost predicate BucketsSound(cfg: Config, s: Buckets) {
    cfg.Valid() && EntriesSound(cfg, s.entries) && (s.global.Some? ==> s.global.value.Valid())
  }

  /** One critical section of the evicting limiter, which may first clean up to `mid`. */
  ghost predicate Evolves(cfg: Config, s: Buckets, e: Event, mid: Entries, s': Buckets, delay: nat)
    requires BucketsSound(cfg, s)
  {
    && (mid == s.entries || Cleaned(s.entries, mid, e.now))
    && EntriesSound(cfg, mid)
    && match e
       case Acquire(now, key) =>
         var found := if key.Some? && cfg.hostPolicy.Some? then Some(EntryBucket(cfg, mid, key.value, now)) else None;
         && BothValid(s.global, found)
         && var a := Admit(s.global, found, now, cfg.round);
         && delay == a.delay
         && s'.global == a.global
         && (found.Some? ==> a.host.Some? && s'.entries == mid[key.value := Entry(a.host.value, now)])
         && (found.None? ==> s'.entries == mid)
       case ThrottleGlobal(now, d) =>
         && mid == s.entries && s'.entries == s.entries
         && s'.global == if s.global.None? then None else Some(ApplyThrottle(s.global.value, now, d, cfg.horizon))
       case ThrottleHost(now, h, d) =>
         && s'.global == s.global
         && s'.entries == if cfg.hostPolicy.None? then mid
                          else mid[h := Entry(ApplyThrottle(EntryBucket(cfg, mid, h, now), now, d, cfg.horizon), now)]
  }

  lemma EvolvesSound(cfg: Config, s: Buckets, e: Event, mid: Entries, s': Buckets, delay: nat)
    requires BucketsSound(cfg, s) && Evolves(cfg, s, e, mid, s', delay)
    ensures BucketsSound(cfg, s')
  {
    if e.Acquire? {
      var found := if e.key.Some? && cfg.hostPolicy.Some? then Some(EntryBucket(cfg, mid, e.key.value, e.now)) else None;
      AdmitIsAtomic(s.global, found, e.now, cfg.round);
    }
  }

  ghost predicate Matches(cfg: Config, s: Buckets, plain: Limiter, now: int) {
    && BucketsSound(cfg, s) && Sound(cfg, plain)
    && s.global == plain.global && Indistinguishable(cfg, s.entries, plain, now)
  }

  function PlainDelay(cfg: Config, plain: Limiter, e: Event): nat
    requires Sound(cfg, plain)
  {
    if e.Acquire? then Admitted(cfg, plain, e.now, e.key).delay else 0
  }

  /** One critical section answers as the limiter without eviction does, and stays matched with it. */
  lemma EvolvesSame(cfg: Config, s: Buckets, e: Event, mid: Entries, s': Buckets, delay: nat, plain: Limiter, clock: int)
    requires Matches(cfg, s, plain, clock) && clock <= e.now && Evolves(cfg, s, e, mid, s', delay)
    ensures Matches(cfg, s', Step(cfg, plain, e), e.now)
    ensures e.Acquire? ==> delay == PlainDelay(cfg, plain, e)
  {
    hide Indistinguishable, Cleaned, Admit, At;
    EvolvesSound(cfg, s, e, mid, s', delay);
    StepSound(cfg, plain, e);
    SameLater(cfg, s.entries, plain, clock, e.now);
    if mid != s.entries {
      SameAfterCleanup(cfg, s.entries, mid, plain, e.now);
    }
    match e {
      case Acquire(now, key) =>
        AcquireSame(cfg, mid, plain, now, if cfg.hostPolicy.Some? then key else None);
        SameAdmission(cfg, plain, now, key);
      case ThrottleGlobal(now, d) =>
        SameHosts(cfg, mid, plain, Step(cfg, plain, e), now);
      case ThrottleHost(now, h, d) =>
        if cfg.hostPolicy.Some? {
          ThrottleSame(cfg, mid, plain, now, h, d);
        }
    }
  }

  lemma SameHosts(cfg: Config, entries: Entries, plain: Limiter, plain': Limiter, now: int)
    requires Indistinguishable(cfg, entries, plain, now) && plain'.hosts == plain.hosts
    ensures Indistinguishable(cfg, entries, plain', now)
  {
    if cfg.hostPolicy.Some? {
      forall h: string ensures LooksSame(cfg, entries, plain', now, h) {
        assert LooksSame(cfg, entries, plain, now, h);
      }
    }
  }

  /** Without host limiting a key makes no difference. */
  lemma SameAdmission(cfg: Config, plain: Limiter, now: int, key: Option<string>)
    requires Sound(cfg, plain)
    ensures var used := if cfg.hostPolicy.Some? then key else None;
            && Admitted(cfg, plain, now, used) == Admitted(cfg, plain, now, key)
            && Step(cfg, plain, Acquire(now, used)) == Step(cfg, plain, Acquire(now, key))
  {
  }

  /** A run of the evicting limiter: the states between critical sections, its cleanups and its answers. */
  datatype Trace = Trace(events: seq<Event>, states: seq<Buckets>, mids: seq<Entries>, delays: seq<nat>) {
    ghost predicate Shaped() {
      |states| == |events| + 1 && |mids| == |delays| == |events|
    }

    ghost predicate StepsAt(cfg: Config, i: nat)
      requires Shaped() && i < |events|
    {
      BucketsSound(cfg, states[i]) && Evolves(cfg, states[i], events[i], mids[i], states[i + 1], delays[i])
    }

    ghost predicate Of(cfg: Config) {
      Shaped() && forall i :: 0 <= i < |events| ==> StepsAt(cfg, i)
    }
  }

  /** The limiter without eviction, run to just before event `i`. */
  ghost function PlainAt(cfg: Config, plain: Limiter, events: seq<Event>, i: nat): Limiter
    requires Sound(cfg, plain) && i <= |events|
    ensures Sound(cfg, PlainAt(cfg, plain, events, i))
    decreases i
  {
    if i == 0 then plain
    else
      var before := PlainAt(cfg, plain, events, i - 1);
      StepSound(cfg, before, events[i - 1]);
      Step(cfg, before, events[i - 1])
  }

  /** For nondecreasing readings, every call of every run is answered as if nothing had ever been evicted. */
  lemma {:induction false} EvictionIsInvisible(cfg: Config, t: Trace, plain: Limiter, start: int, end: int, i: nat)
    requires t.Of(cfg) && Ordered(t.events, start, end) && Matches(cfg, t.states[0], plain, start) && i <= |t.events|
    ensures Matches(cfg, t.states[i], PlainAt(cfg, plain, t.events, i), if i == 0 then start else t.events[i - 1].now)
    ensures i < |t.events| && t.events[i].Acquire? ==>
              t.delays[i] == PlainDelay(cfg, PlainAt(cfg, plain, t.events, i), t.events[i])
    decreases i
  {
    assert Sound(cfg, plain);
    hide Matches, Evolves, PlainDelay, Step;
    if i > 0 {
      assert t.StepsAt(cfg, i - 1);
      EvictionIsInvisible(cfg, t, plain, start, end, i - 1);
      EvolvesSame(cfg, t.states[i - 1], t.events[i - 1], t.mids[i - 1], t.states[i], t.delays[i - 1],
                  PlainAt(cfg, plain, t.events, i - 1), if i == 1 then start else t.events[i - 2].now);
    }
    if i < |t.events| {
      assert t.StepsAt(cfg, i);
      EvolvesSame(cfg, t.states[i], t.events[i], t.mids[i], t.states[i + 1], t.delays[i],
                  PlainAt(cfg, plain, t.events, i), if i == 0 then start else t.events[i - 1].now);
    }
  }

  /** Acquisitions of one host that were answered with no delay. */
  ghost function GrantedTo(events: seq<Event>, delays: seq<nat>, h: string): nat
    requires |delays| == |events|
  {
    if events == [] then 0
    else (if events[0].Acquire? && events[0].key == Some(h) && delays[0] == 0 then 1 else 0)
         + GrantedTo(events[1..], delays[1..], h)
  }

  /** The answers are those of the limiter without eviction. */
  ghost predicate Answers(cfg: Config, plain: Limiter, events: seq<Event>, delays: seq<nat>)
    requires Sound(cfg, plain)
  {
    && |delays| == |events|
    && forall i {:trigger events[i]} :: 0 <= i < |events| && events[i].Acquire? ==>
         delays[i] == PlainDelay(cfg, PlainAt(cfg, plain, events, i), events[i])
  }

  lemma {:induction false} PlainAtTail(cfg: Config, plain: Limiter, events: seq<Event>, i: nat)
    requires Sound(cfg, plain) && i < |events|
    ensures Sound(cfg, Step(cfg, plain, events[0]))
    ensures PlainAt(cfg, plain, events, i + 1) == PlainAt(cfg, Step(cfg, plain, events[0]), events[1..], i)
  {
    StepSound(cfg, plain, events[0]);
    if i > 0 {
      PlainAtTail(cfg, plain, events, i - 1);
    } else {
      assert PlainAt(cfg, plain, events, 0) == plain;
    }
  }

  lemma {:induction false} SameGrants(cfg: Config, plain: Limiter, events: seq<Event>, delays: seq<nat>, h: string)
    requires Sound(cfg, plain) && Answers(cfg, plain, events, delays)
    ensures GrantedTo(events, delays, h) == HostGrants(cfg, plain, events, h)
    decreases |events|
  {
    if events != [] {
      var rest := Step(cfg, plain, events[0]);
      StepSound(cfg, plain, events[0]);
      forall i | 0 <= i < |events[1..]| && events[1..][i].Acquire?
        ensures delays[1..][i] == PlainDelay(cfg, PlainAt(cfg, rest, events[1..], i), events[1..][i])
      {
        PlainAtTail(cfg, plain, events, i);
        assert events[1..][i] == events[i + 1];
      }
      assert PlainAt(cfg, plain, events, 0) == plain;
      SameGrants(cfg, rest, events[1..], delays[1..], h);
    }
  }

  lemma TraceAnswers(cfg: Config, t: Trace, plain: Limiter, start: int, end: int)
    requires t.Of(cfg) && Ordered(t.events, start, end) && Matches(cfg, t.states[0], plain, start)
    ensures Answers(cfg, plain, t.events, t.delays)
  {
    forall i | 0 <= i < |t.events| && t.events[i].Acquire?
      ensures t.delays[i] == PlainDelay(cfg, PlainAt(cfg, plain, t.events, i), t.events[i])
    {
      EvictionIsInvisible(cfg, t, plain, start, end, i);
    }
  }

  /** Across evictions, no host is granted more than burst + rate x elapsed time. */
  lemma HostRateAcrossEvictions(cfg: Config, t: Trace, plain: Limiter, h: string, start: int, end: int)
    requires t.Of(cfg) && Ordered(t.events, start, end) && Matches(cfg, t.states[0], plain, start)
    requires cfg.hostPolicy.Some?
    ensures GrantedTo(t.events, t.delays, h) as real
            <= cfg.hostPolicy.value.burst as real + Earned(cfg.hostPolicy.value, start, end)
  {
    TraceAnswers(cfg, t, plain, start, end);
    SameGrants(cfg, plain, t.events, t.delays, h);
    forall k | k in plain.hosts ensures plain.hosts[k].lastRefillAt <= start {
      assert LooksSame(cfg, t.states[0].entries, plain, start, k);
    }
    HostRateOverTime(cfg, plain, t.events, h, start, end);
  }

  // --------------------------------------------------- what must be granted

  /** The limiter without eviction that starts with the same buckets. */
  ghost function AsPlain(s: Buckets): Limiter {
    Limiter(s.global, map h | h in s.entries :: s.entries[h].bucket)
  }

  lemma StartsAsPlain(cfg: Config, s: Buckets, now: int)
    requires BucketsSound(cfg, s) && forall h :: h in s.entries ==> s.entries[h].bucket.lastRefillAt <= now
    ensures Matches(cfg, s, AsPlain(s), now)
  {
    if cfg.hostPolicy.Some? {
      forall h: string ensures LooksSame(cfg, s.entries, AsPlain(s), now, h) {
        assert BucketOf(cfg, AsPlain(s), h, now) == EntryBucket(cfg, s.entries, h, now);
      }
    }
  }

  lemma {:induction false} AsksOrdered(now: int, h: string, k: nat)
    ensures forall e :: e in Asks(now, h, k) ==> e.now == now
  {
    if k > 0 {
      AsksOrdered(now, h, k - 1);
    }
  }

  ghost function HostStock(cfg: Config, s: Buckets, h: string, now: int): Option<Bucket> {
    if cfg.hostPolicy.None? then None else Some(EntryBucket(cfg, s.entries, h, now))
  }

  /**
    Asked `k` times at one instant, the evicting limiter grants exactly as often as the global and the host's bucket
    both have whole tokens: no fewer, so that time does refill it, and no more.
   */
  lemma BurstIsServed(cfg: Config, t: Trace, h: string, now: int, k: nat)
    requires t.Of(cfg) && BucketsSound(cfg, t.states[0]) && t.events == Asks(now, h, k)
    requires forall x :: x in t.states[0].entries ==> t.states[0].entries[x].bucket.lastRefillAt <= now
    requires var global, host := t.states[0].global, HostStock(cfg, t.states[0], h, now);
             (global.Some? ==> !global.value.ThrottledAt(now)) && (host.Some? ==> !host.value.ThrottledAt(now))
    ensures var global, host := t.states[0].global, HostStock(cfg, t.states[0], h, now);
            && (global.Some? ==> TokensAt(global.value, now) >= 0.0) && (host.Some? ==> TokensAt(host.value, now) >= 0.0)
            && GrantedTo(t.events, t.delays, h) == Min(Whole(global, now, k), Whole(host, now, k))
  {
    var plain := AsPlain(t.states[0]);
    StartsAsPlain(cfg, t.states[0], now);
    AsksOrdered(now, h, k);
    TraceAnswers(cfg, t, plain, now, now);
    SameGrants(cfg, plain, t.events, t.delays, h);
    assert HostBucket(cfg, plain, Some(h), now) == HostStock(cfg, t.states[0], h, now);
    BurstIsExact(cfg, plain, h, now, k);
  }

  /** After an idle stretch an unthrottled host gets the tokens that its rate earned in it, up to the burst. */
  lemma IdleHostIsServed(cfg: Config, t: Trace, h: string, now: int, k: nat, n: nat)
    requires t.Of(cfg) && BucketsSound(cfg, t.states[0]) && t.events == Asks(now, h, k) && t.states[0].global.None?
    requires forall x :: x in t.states[0].entries ==> t.states[0].entries[x].bucket.lastRefillAt <= now
    requires h in t.states[0].entries && !t.states[0].entries[h].bucket.ThrottledAt(now)
    requires var b := t.states[0].entries[h].bucket;
             n <= k && n <= b.policy.burst && (now - b.lastRefillAt) as real / 1000000000.0 * b.policy.rate >= n as real
    ensures GrantedTo(t.events, t.delays, h) >= n
  {
    hide TokensAt, Evolves;
    BurstIsServed(cfg, t, h, now, k);
    TimeEarnsTokens(t.states[0].entries[h].bucket, now, n, cfg.round);
  }

  // ------------------------------------------------- runs in any clock order

  /** Acquisitions that were answered with no delay. */
  ghost function GrantedInAll(events: seq<Event>, delays: seq<nat>): nat
    requires |delays| == |events|
  {
    if events == [] then 0
    else (if events[0].Acquire? && delays[0] == 0 then 1 else 0) + GrantedInAll(events[1..], delays[1..])
  }

  ghost function Tail(t: Trace): Trace
    requires t.events != [] && t.Shaped()
  {
    Trace(t.events[1..], t.states[1..], t.mids[1..], t.delays[1..])
  }

  lemma TailOf(cfg: Config, t: Trace)
    requires t.Of(cfg) && t.events != []
    ensures Tail(t).Of(cfg) && t.StepsAt(cfg, 0)
  {
    hide Evolves, BucketsSound;
    var rest := Tail(t);
    forall i | 0 <= i < |rest.events| ensures rest.StepsAt(cfg, i) {
      assert t.StepsAt(cfg, i + 1);
    }
  }

  lemma LastSound(cfg: Config, t: Trace)
    requires t.Of(cfg) && BucketsSound(cfg, t.states[0])
    ensures BucketsSound(cfg, t.states[|t.events|])
  {
    hide Evolves, BucketsSound;
    var n := |t.events|;
    if n > 0 {
      assert t.StepsAt(cfg, n - 1);
      EvolvesSound(cfg, t.states[n - 1], t.events[n - 1], t.mids[n - 1], t.states[n], t.delays[n - 1]);
    }
  }

  /** Whatever the reading, a section takes at least a token from the global bucket for each grant. */
  lemma GlobalStep(cfg: Config, s: Buckets, e: Event, mid: Entries, s': Buckets, delay: nat)
    requires BucketsSound(cfg, s) && Evolves(cfg, s, e, mid, s', delay) && s.global.Some?
    ensures s'.global.Some? && s'.global.value.policy == s.global.value.policy
    ensures Credit(s'.global.value) + (if e.Acquire? && delay == 0 then 1.0 else 0.0) <= Credit(s.global.value)
  {
    if e.Acquire? {
      var found := if e.key.Some? && cfg.hostPolicy.Some? then Some(EntryBucket(cfg, mid, e.key.value, e.now)) else None;
      AdmitIsAtomic(s.global, found, e.now, cfg.round);
      RefillCredit(s.global.value, e.now);
      if delay == 0 {
        ChargedCredit(s.global, s'.global, e.now);
      }
    }
  }

  lemma {:induction false} GlobalCredit(cfg: Config, t: Trace)
    requires t.Of(cfg) && t.states[0].global.Some?
    ensures var first, last := t.states[0].global.value, t.states[|t.events|].global;
            && last.Some? && last.value.policy == first.policy
            && Credit(last.value) + GrantedInAll(t.events, t.delays) as real <= Credit(first)
    decreases |t.events|
  {
    hide Evolves, BucketsSound, Credit;
    if t.events != [] {
      TailOf(cfg, t);
      GlobalStep(cfg, t.states[0], t.events[0], t.mids[0], t.states[1], t.delays[0]);
      GlobalCredit(cfg, Tail(t));
    }
  }

  /**
    Over any stretch of any run, with evictions and with readings in any order: all grants together are at most
    the burst plus what the advance of the global bucket's refill clock earns.
   */
  lemma GlobalRateBound(cfg: Config, t: Trace)
    requires t.Of(cfg) && BucketsSound(cfg, t.states[0]) && t.states[0].global.Some?
    ensures var first, last := t.states[0].global.value, t.states[|t.events|].global;
            && last.Some?
            && GrantedInAll(t.events, t.delays) as real
               <= first.policy.burst as real + Earned(first.policy, first.lastRefillAt, last.value.lastRefillAt)
  {
    GlobalCredit(cfg, t);
    LastSound(cfg, t);
    var b, b' := t.states[0].global.value, t.states[|t.events|].global.value;
    EarnedAdds(b.policy, 0, b.lastRefillAt, b'.lastRefillAt);
  }

  /** The host is never evicted in this run. */
  ghost predicate Kept(t: Trace, h: string) {
    && (forall s :: s in t.states ==> h in s.entries)
    && forall mid :: mid in t.mids ==> h in mid
  }

  lemma HostStep(cfg: Config, s: Buckets, e: Event, mid: Entries, s': Buckets, delay: nat, h: string)
    requires BucketsSound(cfg, s) && Evolves(cfg, s, e, mid, s', delay)
    requires h in s.entries && h in mid && h in s'.entries
    ensures s'.entries[h].bucket.policy == s.entries[h].bucket.policy
    ensures Credit(s'.entries[h].bucket) + (if e.Acquire? && e.key == Some(h) && delay == 0 then 1.0 else 0.0)
            <= Credit(s.entries[h].bucket)
  {
    hide Credit;
    RefillCredit(s.entries[h].bucket, e.now);
    assert Credit(mid[h].bucket) <= Credit(s.entries[h].bucket);
    if e.Acquire? && e.key == Some(h) {
      var found := Some(mid[h].bucket);
      AdmitIsAtomic(s.global, found, e.now, cfg.round);
      RefillCredit(mid[h].bucket, e.now);
      if delay == 0 {
        ChargedCredit(found, Some(s'.entries[h].bucket), e.now);
      }
    } else if e.ThrottleHost? && e.host == h {
      ThrottleCredit(mid[h].bucket, e.now, e.delay, cfg.horizon);
    }
  }

  lemma ThrottleCredit(b: Bucket, now: int, delay: nat, horizon: int)
    ensures Credit(ApplyThrottle(b, now, delay, horizon)) == Credit(b)
  {
  }

  lemma {:induction false} HostCredit(cfg: Config, t: Trace, h: string)
    requires t.Of(cfg) && Kept(t, h)
    ensures var first, last := t.states[0].entries[h].bucket, t.states[|t.events|].entries[h].bucket;
            && last.policy == first.policy
            && Credit(last) + GrantedTo(t.events, t.delays, h) as real <= Credit(first)
    decreases |t.events|
  {
    hide Evolves, BucketsSound, Credit;
    if t.events != [] {
      TailOf(cfg, t);
      assert t.states[0] in t.states && t.states[1] in t.states && t.mids[0] in t.mids;
      HostStep(cfg, t.states[0], t.events[0], t.mids[0], t.states[1], t.delays[0], h);
      HostCredit(cfg, Tail(t), h);
    }
  }

  /** The same for every host that stays in the map, while others are evicted around it. */
  lemma HostRateBound(cfg: Config, t: Trace, h: string)
    requires t.Of(cfg) && BucketsSound(cfg, t.states[0]) && Kept(t, h)
    ensures var first, last := t.states[0].entries[h].bucket, t.states[|t.events|].entries[h].bucket;
            GrantedTo(t.events, t.delays, h) as real
            <= first.policy.burst as real + Earned(first.policy, first.lastRefillAt, last.lastRefillAt)
  {
    HostCredit(cfg, t, h);
    LastSound(cfg, t);
    var b, b' := t.states[0].entries[h].bucket, t.states[|t.events|].entries[h].bucket;
    EarnedAdds(b.policy, 0, b.lastRefillAt, b'.lastRefillAt);
  }

  /** The bucket refuses everything before `until`. */
  predicate HeldUntil(b: Bucket, until: int) {
    b.throttleUntil.Some? && until <= b.throttleUntil.value
  }

  lemma GlobalHeldStep(cfg: Config, s: Buckets, e: Event, mid: Entries, s': Buckets, delay: nat, until: int)
    requires BucketsSound(cfg, s) && Evolves(cfg, s, e, mid, s', delay)
    requires s.global.Some? && HeldUntil(s.global.value, until) && e.now < until
    ensures s'.global.Some? && HeldUntil(s'.global.value, until)
    ensures e.Acquire? ==> delay > 0
  {
    if e.Acquire? {
      var found := if e.key.Some? && cfg.hostPolicy.Some? then Some(EntryBucket(cfg, mid, e.key.value, e.now)) else None;
      AdmitIsAtomic(s.global, found, e.now, cfg.round);
    }
  }

  /** A held bucket is not idle, so that no cleanup before its end drops it. */
  lemma HostHeldStep(cfg: Config, s: Buckets, e: Event, mid: Entries, s': Buckets, delay: nat, h: string, until: int)
    requires BucketsSound(cfg, s) && Evolves(cfg, s, e, mid, s', delay)
    requires h in s.entries && HeldUntil(s.entries[h].bucket, until) && e.now < until
    ensures h in s'.entries && HeldUntil(s'.entries[h].bucket, until)
    ensures e.Acquire? && e.key == Some(h) ==> delay > 0
  {
    assert h in mid && HeldUntil(mid[h].bucket, until);
    if e.Acquire? && e.key == Some(h) {
      AdmitIsAtomic(s.global, Some(mid[h].bucket), e.now, cfg.round);
    }
  }

  /** In any clock order: while the global bucket is held, every acquisition before its end is refused. */
  lemma {:induction false} GlobalThrottleHolds(cfg: Config, t: Trace, until: int)
    requires t.Of(cfg) && t.states[0].global.Some? && HeldUntil(t.states[0].global.value, until)
    requires forall e :: e in t.events ==> e.now < until
    ensures forall i :: 0 <= i < |t.events| && t.events[i].Acquire? ==> t.delays[i] > 0
    decreases |t.events|
  {
    hide Evolves, BucketsSound, HeldUntil;
    if t.events != [] {
      TailOf(cfg, t);
      assert t.events[0] in t.events;
      GlobalHeldStep(cfg, t.states[0], t.events[0], t.mids[0], t.states[1], t.delays[0], until);
      GlobalThrottleHolds(cfg, Tail(t), until);
      forall i | 0 < i < |t.events| && t.events[i].Acquire? ensures t.delays[i] > 0 {
        assert Tail(t).events[i - 1] == t.events[i];
      }
    }
  }

  /** In any clock order: while a host's bucket is held it stays in the map, and refuses before its end. */
  lemma {:induction false} HostThrottleHolds(cfg: Config, t: Trace, h: string, until: int)
    requires t.Of(cfg) && h in t.states[0].entries && HeldUntil(t.states[0].entries[h].bucket, until)
    requires forall e :: e in t.events ==> e.now < until
    ensures forall i :: 0 <= i < |t.events| && t.events[i].Acquire? && t.events[i].key == Some(h) ==> t.delays[i] > 0
    ensures h in t.states[|t.events|].entries
    decreases |t.events|
  {
    hide Evolves, BucketsSound, HeldUntil;
    if t.events != [] {
      TailOf(cfg, t);
      assert t.events[0] in t.events;
      HostHeldStep(cfg, t.states[0], t.events[0], t.mids[0], t.states[1], t.delays[0], h, until);
      HostThrottleHolds(cfg, Tail(t), h, until);
      forall i | 0 < i < |t.events| && t.events[i].Acquire? && t.events[i].key == Some(h) ensures t.delays[i] > 0 {
        assert Tail(t).events[i - 1] == t.events[i];
      }
    }
  }

  /** A representable throttle, capped by the policy, is never cut short, by no eviction and by no late reading. */
  lemma ThrottleAcrossEvictions(cfg: Config, t: Trace, e: Event)
    requires t.Of(cfg) && t.events != [] && t.events[0] == e && !e.Acquire? && BucketsSound(cfg, t.states[0])
    requires e.ThrottleHost? ==> cfg.hostPolicy.Some?
    requires e.ThrottleGlobal? ==> t.states[0].global.Some?
    requires var policy := if e.ThrottleHost? then cfg.hostPolicy.value else t.states[0].global.value.policy;
             var capped := Min(e.delay, policy.maxThrottleDelay);
             && 0 < capped && e.now + capped <= cfg.horizon
             && forall x :: x in t.events ==> x.now < e.now + capped
    ensures forall i :: 0 <= i < |t.events| && t.events[i].Acquire? ==>
              (e.ThrottleGlobal? || t.events[i].key == Some(e.host) ==> t.delays[i] > 0)
  {
    TailOf(cfg, t);
    var rest := Tail(t);
    var policy := if e.ThrottleHost? then cfg.hostPolicy.value else t.states[0].global.value.policy;
    var until := e.now + Min(e.delay, policy.maxThrottleDelay);
    if e.ThrottleHost? {
      assert EntryBucket(cfg, t.mids[0], e.host, e.now).policy == policy;
      HostThrottleHolds(cfg, rest, e.host, until);
    } else {
      GlobalThrottleHolds(cfg, rest, until);
    }
    forall i | 0 <= i < |t.events| && t.events[i].Acquire?
      ensures e.ThrottleGlobal? || t.events[i].key == Some(e.host) ==> t.delays[i] > 0
    {
      assert rest.events[i - 1] == t.events[i];
    }
  }

  lemma ThrottledValid(b: Bucket, now: int, delay: nat, horizon: int)
    requires b.Valid()
    ensures var after := ApplyThrottle(b, now, delay, horizon); after.Valid() && after.policy == b.policy
  {
  }

  class Limited {
    const cfg: Config
    const origin: int
    var global: Option<Bucket>
    var perHost: Entries
    var lastCleanupMs: nat

    ghost function State(): Buckets
      reads this
    {
      Buckets(global, perHost)
    }

    ghost predicate Valid()
      reads this
    {
      BucketsSound(cfg, State())
    }

    constructor (globalPolicy: Option<Policy>, cfg: Config, now: int)
      requires cfg.Valid() && (globalPolicy.Some? ==> globalPolicy.value.Valid())
      ensures Valid() && this.cfg == cfg && perHost == map[]
      ensures Matches(cfg, State(), Limiter(global, map[]), now)
      ensures global == if globalPolicy.Some? then Some(Full(globalPolicy.value, now)) else None
    {
      this.cfg := cfg;
      origin := now;
      global := if globalPolicy.Some? then Some(Full(globalPolicy.value, now)) else None;
      perHost := map[];
      lastCleanupMs := 0;
      new;
      assert cfg.hostPolicy.Some? ==> forall h: string :: LooksSame(cfg, perHost, Limiter(global, map[]), now, h);
    }

    function Millis(now: int): nat
    {
      Min(Max(now - origin, 0) / 1_000_000, U64_MAX)
    }

    /** A cleanup is due when the map is over its size or the interval since the last one has passed. */
    predicate CleanupDue(now: int)
      reads this
    {
      |perHost| > MAX_ENTRIES || Max(Millis(now) - lastCleanupMs, 0) >= CLEANUP_INTERVAL_MS
    }

    method MaybeCleanup(now: int)
      requires EntriesSound(cfg, perHost)
      modifies this`perHost, this`lastCleanupMs
      ensures !old(CleanupDue(now)) ==> perHost == old(perHost) && lastCleanupMs == old(lastCleanupMs)
      ensures old(CleanupDue(now)) ==>
                && Cleaned(old(perHost), perHost, now) && lastCleanupMs == Millis(now)
                && (forall h :: h in perHost && Stale(perHost[h], now) ==> !IsIdle(perHost[h].bucket, now))
                && (|perHost| <= MAX_ENTRIES || forall h :: h in perHost ==> !IsIdle(perHost[h].bucket, now))
    {
      var nowMs := Millis(now);
      if |perHost| > MAX_ENTRIES {
        perHost := CleanupStale(perHost, now);
        lastCleanupMs := nowMs;
        return;
      }
      if Max(nowMs - lastCleanupMs, 0) < CLEANUP_INTERVAL_MS {
        return;
      }
      lastCleanupMs := nowMs;
      perHost := CleanupStale(perHost, now);
    }

    /** The host's bucket, created full when it is missing, and marked as used. */
    method UseHost(now: int, h: string) returns (bucket: Bucket)
      requires EntriesSound(cfg, perHost) && cfg.Valid() && cfg.hostPolicy.Some?
      modifies this`perHost
      ensures bucket == EntryBucket(cfg, old(perHost), h, now)
      ensures perHost == old(perHost)[h := Entry(bucket, now)]
    {
      if h !in perHost {
        perHost := perHost[h := Entry(Full(cfg.hostPolicy.value, now), now)];
      }
      perHost := perHost[h := perHost[h].(lastUsedAt := now)];
      bucket := perHost[h].bucket;
    }

    /** The two readiness checks and then either both charges or the longer wait. */
    method AdmitStep(now: int, key: Option<string>, hostBucket: Option<Bucket>) returns (delay: nat)
      requires BothValid(global, hostBucket) && (key.Some? <==> hostBucket.Some?)
      requires EntriesSound(cfg, perHost)
      requires key.Some? ==> key.value in perHost && perHost[key.value].bucket == hostBucket.value
      modifies this`global, this`perHost
      ensures Admission(global, HostOf(perHost, key), delay) == Admit(old(global), hostBucket, now, cfg.round)
      ensures perHost == if key.None? then old(perHost)
                         else old(perHost)[key.value := old(perHost)[key.value].(bucket := perHost[key.value].bucket)]
      ensures EntriesSound(cfg, perHost) && (global.Some? ==> global.value.Valid())
    {
      global := RefillOpt(global, now);
      var host := RefillOpt(hostBucket, now);
      AdmitIsAtomic(old(global), hostBucket, now, cfg.round);
      if ReadyOpt(global, now) && ReadyOpt(host, now) {
        global := ChargeOpt(global);
        host := ChargeOpt(host);
        delay := 0;
      } else {
        delay := Max(WaitOpt(global, now, cfg.round), WaitOpt(host, now, cfg.round));
      }
      if key.Some? {
        perHost := perHost[key.value := perHost[key.value].(bucket := host.value)];
      }
    }

    function KeyOf(host: Option<string>): Option<string> {
      if cfg.hostPolicy.Some? && host.Some? then NormalizeHostKey(host.value) else None
    }

    /** One acquisition: clean up, find or create the host's bucket, and admit by both buckets or neither. */
    method AcquireDelay(now: int, host: Option<string>) returns (delay: nat, ghost mid: Entries)
      requires Valid()
      modifies this
      ensures Valid()
      ensures Evolves(cfg, old(State()), Acquire(now, KeyOf(host)), mid, State(), delay)
    {
      hide NormalizeHostKey, Admit, Cleaned;
      var key := KeyOf(host);
      if cfg.hostPolicy.Some? {
        MaybeCleanup(now);
        if perHost != old(perHost) {
          CleanedSound(cfg, old(perHost), perHost, now);
        }
      }
      mid := perHost;
      var bucket: Option<Bucket> := None;
      if key.Some? {
        var used := UseHost(now, key.value);
        bucket := Some(used);
      }
      delay := AdmitStep(now, key, bucket);
      assert key.Some? ==> perHost == mid[key.value := Entry(perHost[key.value].bucket, now)];
    }

    method ThrottleGlobalBucket(now: int, delay: nat)
      requires Valid()
      modifies this`global
      ensures Valid() && Evolves(cfg, old(State()), ThrottleGlobal(now, delay), perHost, State(), 0)
    {
      if global.Some? {
        global := Some(ApplyThrottle(global.value, now, delay, cfg.horizon));
      }
    }

    method ThrottleHostBucket(now: int, h: string, delay: nat) returns (ghost mid: Entries)
      requires Valid() && cfg.hostPolicy.Some?
      modifies this`perHost, this`lastCleanupMs
      ensures Valid() && Evolves(cfg, old(State()), ThrottleHost(now, h, delay), mid, State(), 0)
    {
      hide Cleaned, ApplyThrottle, Refill, IsIdle, Admit;
      MaybeCleanup(now);
      if perHost != old(perHost) {
        CleanedSound(cfg, old(perHost), perHost, now);
      }
      mid := perHost;
      ThrottledValid(EntryBucket(cfg, mid, h, now), now, delay, cfg.horizon);
      var bucket := UseHost(now, h);
      perHost := perHost[h := perHost[h].(bucket := ApplyThrottle(bucket, now, delay, cfg.horizon))];
      assert perHost == mid[h := Entry(ApplyThrottle(bucket, now, delay, cfg.horizon), now)];
    }

    /** Applies a server's throttle hint in the scope it resolves to: at most one section on each side. */
    method ObserveServerThrottle(now: int, host: Option<string>, delay: nat, configured: Scope, hint: Option<Scope>)
      returns (scope: Scope, ghost mid: Entries, ghost between: Buckets)
      requires Valid()
      modifies this
      ensures Valid() && BucketsSound(cfg, between)
      ensures scope == ResolveScope(configured, hint, host.Some? && NormalizeHostKey(host.value).Some?,
                                    old(global).Some?, cfg.hostPolicy.Some?)
      ensures if delay > 0 && scope.AppliesToGlobal()
              then Evolves(cfg, old(State()), ThrottleGlobal(now, delay), old(perHost), between, 0)
              else between == old(State())
      ensures if delay > 0 && scope.AppliesToHost() && KeyOf(host).Some?
              then Evolves(cfg, between, ThrottleHost(now, KeyOf(host).value, delay), mid, State(), 0)
              else State() == between
    {
      mid := perHost;
      between := State();
      var hostKey := if host.Some? then NormalizeHostKey(host.value) else None;
      scope := ResolveScope(configured, hint, hostKey.Some?, global.Some?, cfg.hostPolicy.Some?);
      if delay == 0 {
        return;
      }
      hide NormalizeHostKey, ResolveScope, ApplyThrottle, EntriesSound;
      if scope.AppliesToGlobal() && global.Some? {
        ThrottleGlobalBucket(now, delay);
      }
      between := State();
      if scope.AppliesToHost() && cfg.hostPolicy.Some? && hostKey.Some? {
        mid := ThrottleHostBucket(now, hostKey.value, delay);
      }
    }
  }

  /** The `retain` pass: refill everything and drop what is both idle and stale. */
  method RetainFresh(entries: Entries, now: int) returns (kept: Entries)
    ensures Cleaned(entries, kept, now)
    ensures forall h :: h in entries && h !in kept ==> Stale(entries[h], now)
    ensures forall h :: h in kept && Stale(kept[h], now) ==> !IsIdle(kept[h].bucket, now)
  {
    hide Refill, IsIdle;
    kept := map[];
    var unvisited := entries.Keys;
    while unvisited != {}
      invariant unvisited <= entries.Keys && kept.Keys <= entries.Keys - unvisited
      invariant forall h :: h in kept ==>
                  && kept[h] == Entry(Refill(entries[h].bucket, now), entries[h].lastUsedAt)
                  && (Stale(kept[h], now) ==> !IsIdle(kept[h].bucket, now))
      invariant forall h :: h in entries && h !in unvisited && h !in kept ==>
                  IsIdle(Refill(entries[h].bucket, now), now) && Stale(entries[h], now)
      decreases |unvisited|
    {
      var h :| h in unvisited;
      unvisited := unvisited - {h};
      var refilled := entries[h].(bucket := Refill(entries[h].bucket, now));
      if !IsIdle(refilled.bucket, now) || now - refilled.lastUsedAt <= ENTRY_TTL {
        kept := kept[h := refilled];
      }
    }
  }

  /**
    A cleanup drops only idle entries: every stale one, and then the least recently used until at most
    `MAX_ENTRIES` are left or none is idle.
   */
  method CleanupStale(entries: Entries, now: int) returns (kept: Entries)
    ensures Cleaned(entries, kept, now)
    ensures forall h :: h in kept && Stale(kept[h], now) ==> !IsIdle(kept[h].bucket, now)
    ensures |kept| <= MAX_ENTRIES || forall h :: h in kept ==> !IsIdle(kept[h].bucket, now)
    ensures forall gone, left :: gone in entries && gone !in kept && !Stale(entries[gone], now)
                                 && left in kept && IsIdle(kept[left].bucket, now)
                                 ==> entries[gone].lastUsedAt <= kept[left].lastUsedAt
  {
    hide IsIdle, Refill;
    var retained := RetainFresh(entries, now);
    kept := EvictOldest(retained, (e: Entry) => IsIdle(e.bucket, now), (e: Entry) => e.lastUsedAt, MAX_ENTRIES);
  }
}
