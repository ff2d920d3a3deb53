/** The retry budget: retries are paid for by recent successes and a minimum per window. */
module RetryBudget {
  import opened Wrappers
  import opened Machine

  datatype Policy = Policy(window: nat, ratio: real, minRetries: nat) {
    predicate Valid() {
      window > 0 && 0.0 <= ratio <= 1.0
    }
  }

  datatype Budget = Budget(windowStartedAt: int, succeeded: nat, consumed: nat)

  function Refresh(p: Policy, b: Budget, now: int): Budget {
    if Max(now - b.windowStartedAt, 0) >= p.window then Budget(now, 0, 0) else b
  }

  /** The share of `n` successes that pays for retries. */
  function Credit(p: Policy, n: nat): (share: real)
    requires p.Valid()
    ensures share >= 0.0
  {
    n as real * p.ratio
  }

  function Allowance(p: Policy, b: Budget): nat
    requires p.Valid()
  {
    Min(Credit(p, b.succeeded).Floor + p.minRetries, USIZE_MAX)
  }

  datatype Event = Succeeded(now: int) | WantsRetry(now: int)

  predicate Grants(p: Policy, b: Budget, e: Event)
    requires p.Valid()
  {
    var current := Refresh(p, b, e.now);
    e.WantsRetry? && current.consumed < Allowance(p, current)
  }

  function Step(p: Policy, b: Budget, e: Event): Budget
    requires p.Valid()
  {
    var current := Refresh(p, b, e.now);
    if e.Succeeded? then current.(succeeded := Min(current.succeeded + 1, USIZE_MAX))
    else if Grants(p, b, e) then current.(consumed := Min(current.consumed + 1, USIZE_MAX))
    else current
  }

  function Run(p: Policy, b: Budget, events: seq<Event>): Budget
    requires p.Valid()
    decreases |events|
  {
    if events == [] then b else Run(p, Step(p, b, events[0]), events[1..])
  }

  function Granted(p: Policy, b: Budget, events: seq<Event>): nat
    requires p.Valid()
    decreases |events|
  {
    if events == [] then 0
    else (if Grants(p, b, events[0]) then 1 else 0) + Granted(p, Step(p, b, events[0]), events[1..])
  }

  function Successes(events: seq<Event>): nat {
    if events == [] then 0 else (if events[0].Succeeded? then 1 else 0) + Successes(events[1..])
  }

  /** The clock is read under the lock, so readings never run back. */
  ghost predicate Ordered(events: seq<Event>, start: int, end: int) {
    && start <= end
    && (forall e :: e in events ==> start <= e.now <= end)
    && forall i, j :: 0 <= i < j < |events| ==> events[i].now <= events[j].now
  }

  ghost predicate Within(p: Policy, b: Budget)
    requires p.Valid()
  {
    b.succeeded <= USIZE_MAX && b.consumed <= Credit(p, b.succeeded).Floor + p.minRetries
  }

  lemma CreditAdds(p: Policy, n: nat, m: nat)
    requires p.Valid()
    ensures Credit(p, n + m) == Credit(p, n) + Credit(p, m)
    ensures Credit(p, n).Floor <= Credit(p, n + m).Floor
  {
  }

  lemma StepWithin(p: Policy, b: Budget, e: Event)
    requires p.Valid() && Within(p, b)
    ensures Within(p, Step(p, b, e))
  {
    CreditAdds(p, Refresh(p, b, e.now).succeeded, 1);
    CreditAdds(p, 0, Refresh(p, b, e.now).succeeded);
  }

  /** In every state of every run, in any clock order, a window's retries stay within floor(ratio x successes) + minimum. */
  lemma {:induction false} WindowBound(p: Policy, b: Budget, events: seq<Event>)
    requires p.Valid() && Within(p, b)
    ensures Within(p, Run(p, b, events))
    decreases |events|
  {
    if events != [] {
      StepWithin(p, b, events[0]);
      WindowBound(p, Step(p, b, events[0]), events[1..]);
    }
  }

  /** The minimum for every window begun between two instants. */
  function Minimum(p: Policy, from: int, end: int): int
    requires p.Valid()
  {
    p.minRetries * (1 + (end - from) / p.window)
  }

  lemma Scales(a: int, b: int, w: nat)
    requires a <= b
    ensures a * w <= b * w
  {
  }

  lemma DivideAtLeast(x: int, w: nat, k: int)
    requires w > 0 && x >= k * w
    ensures x / w >= k
  {
    var d := x / w;
    assert x == d * w + x % w;
    assert (d + 1) * w == d * w + w;
    if d < k {
      Scales(d + 1, k, w);
      assert false;
    }
  }

  lemma MinimumAdds(p: Policy, earlier: int, later: int, end: int)
    requires p.Valid() && earlier + p.window <= later <= end
    ensures Minimum(p, earlier, end) >= Minimum(p, later, end) + p.minRetries
  {
    var q := (end - later) / p.window;
    assert end - earlier >= q * p.window + p.window;
    assert q * p.window + p.window == (q + 1) * p.window;
    DivideAtLeast(end - earlier, p.window, q + 1);
    var d := (end - earlier) / p.window;
    assert p.minRetries * (1 + d) >= p.minRetries * (1 + q + 1);
    assert p.minRetries * (1 + q + 1) == p.minRetries * (1 + q) + p.minRetries;
  }

  lemma MinimumStarts(p: Policy, from: int, end: int)
    requires p.Valid() && from <= end
    ensures Minimum(p, from, end) >= p.minRetries
  {
    DivideAtLeast(end - from, p.window, 0);
    var d := (end - from) / p.window;
    assert p.minRetries * (1 + d) == p.minRetries + p.minRetries * d;
  }

  /** What a budget may still grant by `end`, for the successes it has and will see. */
  ghost function Ceiling(p: Policy, b: Budget, successes: nat, end: int): real
    requires p.Valid()
  {
    Minimum(p, b.windowStartedAt, end) as real + Credit(p, b.succeeded + successes) - b.consumed as real
  }

  lemma RefreshLowersCeiling(p: Policy, b: Budget, successes: nat, now: int, end: int)
    requires p.Valid() && Within(p, b) && b.windowStartedAt <= now <= end
    ensures Ceiling(p, Refresh(p, b, now), successes, end) <= Ceiling(p, b, successes, end)
  {
    CreditAdds(p, b.succeeded, successes);
    hide Minimum, Credit;
    if now - b.windowStartedAt >= p.window {
      MinimumAdds(p, b.windowStartedAt, now, end);
    }
  }

  lemma StepLowersCeiling(p: Policy, b: Budget, e: Event, successes: nat, end: int)
    requires p.Valid() && Within(p, b)
    ensures Ceiling(p, Step(p, b, e), successes, end) + (if Grants(p, b, e) then 1.0 else 0.0)
            <= Ceiling(p, Refresh(p, b, e.now), successes + (if e.Succeeded? then 1 else 0), end)
  {
    var current := Refresh(p, b, e.now);
    CreditAdds(p, current.succeeded + successes, 1);
    assert current.succeeded + (successes + 1) == current.succeeded + successes + 1
        == (current.succeeded + 1) + successes;
    hide Minimum, Credit;
  }

  lemma {:induction false} RunBelowCeiling(p: Policy, b: Budget, events: seq<Event>, start: int, end: int)
    requires p.Valid() && Within(p, b) && b.windowStartedAt <= start && Ordered(events, start, end)
    ensures Granted(p, b, events) as real <= Ceiling(p, b, Successes(events), end)
    decreases |events|
  {
    if events == [] {
      MinimumStarts(p, b.windowStartedAt, end);
      hide Minimum, Credit;
      assert Credit(p, b.succeeded).Floor as real <= Credit(p, b.succeeded);
    } else {
      hide Minimum, Credit, Ceiling;
      var e, rest := events[0], events[1..];
      assert Ordered(rest, e.now, end) by {
        forall x | x in rest ensures e.now <= x.now <= end {
          var j :| 0 <= j < |rest| && rest[j] == x;
          assert events[j + 1] == x;
        }
      }
      StepWithin(p, b, e);
      RunBelowCeiling(p, Step(p, b, e), rest, e.now, end);
      RefreshLowersCeiling(p, b, Successes(events), e.now, end);
      StepLowersCeiling(p, b, e, Successes(rest), end);
    }
  }

  /** Over any run: retries by `end` are at most the minimum for each window begun, plus ratio x successes. */
  lemma RetriesBoundedOverRuns(p: Policy, events: seq<Event>, start: int, end: int)
    requires p.Valid() && Ordered(events, start, end)
    ensures Granted(p, Budget(start, 0, 0), events) as real
            <= Minimum(p, start, end) as real + Credit(p, Successes(events))
  {
    RunBelowCeiling(p, Budget(start, 0, 0), events, start, end);
  }

  // --------------------------------------------------- what must be granted

  /** `k` requests for a retry at one instant. */
  function Wants(now: int, k: nat): seq<Event> {
    if k == 0 then [] else [WantsRetry(now)] + Wants(now, k - 1)
  }

  /** What the window that is current at `now` still has: its share of the successes and the minimum, less what is used. */
  function Room(p: Policy, b: Budget, now: int): int {
    if now >= b.windowStartedAt + p.window then Min(p.minRetries, USIZE_MAX)
    else Min((b.succeeded as real * p.ratio).Floor + p.minRetries, USIZE_MAX) - b.consumed
  }

  /** Asked `k` times, the budget grants exactly as often as its window has room. */
  lemma {:induction false} GrantsExactlyItsRoom(p: Policy, b: Budget, now: int, k: nat)
    requires p.Valid()
    ensures Granted(p, b, Wants(now, k)) == Min(k, Max(Room(p, b, now), 0))
    decreases k
  {
    if k > 0 {
      var e := WantsRetry(now);
      var next := Step(p, b, e);
      assert Wants(now, k)[1..] == Wants(now, k - 1);
      RoomAfter(p, b, now);
      hide Room, Step, Grants;
      GrantsExactlyItsRoom(p, next, now, k - 1);
    }
  }

  /** `n` successes at one instant. */
  function Wins(now: int, n: nat): seq<Event> {
    if n == 0 then [] else [Succeeded(now)] + Wins(now, n - 1)
  }

  lemma {:induction false} WinsAreCounted(p: Policy, b: Budget, now: int, n: nat, rest: seq<Event>)
    requires p.Valid() && b.succeeded + n <= USIZE_MAX && now < b.windowStartedAt + p.window
    ensures Granted(p, b, Wins(now, n) + rest) == Granted(p, b.(succeeded := b.succeeded + n), rest)
    decreases n
  {
    var events := Wins(now, n) + rest;
    if n == 0 {
      assert events == rest;
    } else {
      assert events[0] == Succeeded(now) && events[1..] == Wins(now, n - 1) + rest;
      WinsAreCounted(p, Step(p, b, Succeeded(now)), now, n - 1, rest);
    }
  }

  /** In a window begun at `start`, `n` successes buy floor(ratio x n) retries on top of the minimum, and no more. */
  lemma SuccessesBuyRetries(p: Policy, start: int, now: int, n: nat, k: nat)
    requires p.Valid() && n <= USIZE_MAX && start <= now < start + p.window
    ensures Granted(p, Budget(start, 0, 0), Wins(now, n) + Wants(now, k))
            == Min(k, Min((n as real * p.ratio).Floor + p.minRetries, USIZE_MAX))
  {
    hide Granted, Room, Wins, Wants;
    WinsAreCounted(p, Budget(start, 0, 0), now, n, Wants(now, k));
    GrantsExactlyItsRoom(p, Budget(start, n, 0), now, k);
    RoomOfNew(p, start, now, n);
  }

  lemma RoomOfNew(p: Policy, start: int, now: int, n: nat)
    requires p.Valid() && now < start + p.window
    ensures Room(p, Budget(start, n, 0), now) == Min((n as real * p.ratio).Floor + p.minRetries, USIZE_MAX) >= 0
  {
    assert Credit(p, n) >= 0.0;
  }

  lemma RoomAfter(p: Policy, b: Budget, now: int)
    requires p.Valid()
    ensures var e := WantsRetry(now);
            && (Grants(p, b, e) <==> Room(p, b, now) > 0)
            && Room(p, Step(p, b, e), now) == Room(p, b, now) - (if Grants(p, b, e) then 1 else 0)
  {
    assert (0 as real * p.ratio).Floor == 0;
  }

  class SharedBudget {
    const policy: Policy
    var state: Budget

    constructor (policy: Policy, now: int)
      requires policy.Valid()
      ensures this.policy == policy && state == Budget(now, 0, 0)
    {
      this.policy := policy;
      state := Budget(now, 0, 0);
    }

    method RefreshWindow(now: int)
      modifies this`state
      ensures state == Refresh(policy, old(state), now)
    {
      if Max(now - state.windowStartedAt, 0) >= policy.window {
        state := Budget(now, 0, 0);
      }
    }

    method RecordSuccess(now: int)
      requires policy.Valid()
      modifies this`state
      ensures state == Step(policy, old(state), Succeeded(now))
    {
      RefreshWindow(now);
      state := state.(succeeded := Min(state.succeeded + 1, USIZE_MAX));
    }

    method TryConsumeRetry(now: int) returns (granted: bool)
      requires policy.Valid()
      modifies this`state
      ensures granted == Grants(policy, old(state), WantsRetry(now))
      ensures state == Step(policy, old(state), WantsRetry(now))
    {
      RefreshWindow(now);
      var dynamic := Credit(policy, state.succeeded).Floor;
      var total := Min(dynamic + policy.minRetries, USIZE_MAX);
      if state.consumed >= total {
        return false;
      }
      state := state.(consumed := Min(state.consumed + 1, USIZE_MAX));
      granted := true;
    }
  }
}
