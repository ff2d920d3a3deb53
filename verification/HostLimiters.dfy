/** Per-host concurrency limits whose map entries are evicted while other threads wait and hold. */
module HostLimiters {
  import opened Wrappers
  import opened HostEviction

  const ENTRY_TTL: nat := 300_000_000_000
  const MAX_ENTRIES: nat := 1024

  /** The identity of a semaphore, which may be reused once nobody refers to it. */
  type SemaphoreId = nat

  datatype Entry = Entry(semaphore: SemaphoreId, lastUsedAt: int)

  datatype Handle = Handle(host: string, semaphore: SemaphoreId)

  /** `closing` are permits that have given back their slot but still hold their reference. */
  datatype System = System(
    entries: map<string, Entry>, available: map<SemaphoreId, nat>,
    waiters: map<nat, Handle>, holders: map<nat, Handle>, closing: map<nat, Handle>)

  predicate Refers(handles: map<nat, Handle>, id: SemaphoreId) {
    exists t :: t in handles && handles[t].semaphore == id
  }

  /** The map's reference is the only one: the strong count is one. */
  predicate OnlyMapRefers(y: System, id: SemaphoreId) {
    !Refers(y.waiters, id) && !Refers(y.holders, id) && !Refers(y.closing, id)
  }

  predicate Idle(y: System, limit: nat, h: string)
    requires h in y.entries
  {
    var id := y.entries[h].semaphore;
    OnlyMapRefers(y, id) && id in y.available && y.available[id] == limit
  }

  predicate InUse(y: System, id: SemaphoreId) {
    (exists h :: h in y.entries && y.entries[h].semaphore == id) || !OnlyMapRefers(y, id)
  }

  /** What a cleanup may do to the map: drop idle entries. */
  ghost predicate Cleaned(y: System, limit: nat, kept: map<string, Entry>) {
    && kept.Keys <= y.entries.Keys
    && forall h :: h in y.entries ==> if h in kept then kept[h] == y.entries[h] else Idle(y, limit, h)
  }

  datatype Event =
    | Arrives(task: nat, host: string, now: int, kept: map<string, Entry>, newId: SemaphoreId)
    | Takes(task: nat)
    | Leaves(task: nat)
    | GivesBack(task: nat)
    | Forgets(task: nat)

  ghost predicate Enabled(y: System, limit: nat, e: Event) {
    match e
    case Arrives(t, _, _, kept, newId) =>
      t !in y.waiters && t !in y.holders && t !in y.closing && Cleaned(y, limit, kept) && !InUse(y, newId)
    case Takes(t) => t in y.waiters && t !in y.holders && Free(y, y.waiters[t].semaphore)
    case Leaves(t) => t in y.waiters
    case GivesBack(t) => t in y.holders && y.holders[t].semaphore in y.available
    case Forgets(t) => t in y.closing
  }

  /** The entry for the host after the cleanup, created with all its permits free when it is missing. */
  ghost function Found(y: System, limit: nat, e: Event): System
    requires e.Arrives?
  {
    if e.host in e.kept then y.(entries := e.kept[e.host := e.kept[e.host].(lastUsedAt := e.now)])
    else y.(entries := e.kept[e.host := Entry(e.newId, e.now)], available := y.available[e.newId := limit])
  }

  predicate Free(y: System, id: SemaphoreId) {
    id in y.available && y.available[id] > 0
  }

  function Take(y: System, t: nat, handle: Handle): System
    requires Free(y, handle.semaphore)
  {
    y.(available := y.available[handle.semaphore := y.available[handle.semaphore] - 1],
       waiters := y.waiters - {t}, holders := y.holders[t := handle])
  }

  /** The section under the map's lock: clean up, find or create the entry, and try to take a permit. */
  ghost function Arrive(y: System, limit: nat, e: Event): System
    requires e.Arrives?
  {
    var found := Found(y, limit, e);
    var handle := Handle(e.host, found.entries[e.host].semaphore);
    if Free(found, handle.semaphore) then Take(found, e.task, handle)
    else found.(waiters := found.waiters[e.task := handle])
  }

  ghost function Step(y: System, limit: nat, e: Event): System
    requires Enabled(y, limit, e)
  {
    match e
    case Arrives(_, _, _, _, _) => Arrive(y, limit, e)
    case Takes(t) => Take(y, t, y.waiters[t])
    case Leaves(t) => y.(waiters := y.waiters - {t})
    case GivesBack(t) =>
      var handle := y.holders[t];
      y.(available := y.available[handle.semaphore := y.available[handle.semaphore] + 1],
         holders := y.holders - {t}, closing := y.closing[t := handle])
    case Forgets(t) => y.(closing := y.closing - {t})
  }

  ghost function HeldFor(y: System, h: string): set<nat> {
    set t | t in y.holders && y.holders[t].host == h
  }

  /** A handle refers to the semaphore that is in the map now. */
  predicate Current(y: System, handle: Handle) {
    handle.host in y.entries && y.entries[handle.host].semaphore == handle.semaphore
  }

  predicate AllCurrent(y: System, handles: map<nat, Handle>) {
    forall t :: t in handles ==> Current(y, handles[t])
  }

  /** The free and the held permits of a host add up to the limit. */
  ghost predicate Balanced(limit: nat, y: System, h: string)
    requires h in y.entries
  {
    var id := y.entries[h].semaphore;
    id in y.available && y.available[id] + |HeldFor(y, h)| == limit
  }

  ghost predicate Distinct(entries: map<string, Entry>) {
    forall h, k :: h in entries && k in entries && entries[h].semaphore == entries[k].semaphore ==> h == k
  }

  /** Every waiter, holder and closing permit refers to the map's semaphore, and every host is balanced. */
  ghost predicate Inv(limit: nat, y: System) {
    && AllCurrent(y, y.waiters) && AllCurrent(y, y.holders) && AllCurrent(y, y.closing)
    && Distinct(y.entries)
    && forall h :: h in y.entries ==> Balanced(limit, y, h)
  }

  lemma InitialInv(limit: nat)
    ensures Inv(limit, System(map[], map[], map[], map[], map[]))
  {
  }

  // ---------------------------------------------------------- every step keeps it

  /** An entry that is dropped has no waiter, no holder and no closing permit. */
  lemma DroppedIsUnused(y: System, limit: nat, kept: map<string, Entry>, h: string)
    requires Inv(limit, y) && Cleaned(y, limit, kept) && h in y.entries && h !in kept
    ensures forall t :: t in y.waiters ==> y.waiters[t].host != h
    ensures forall t :: t in y.holders ==> y.holders[t].host != h
    ensures forall t :: t in y.closing ==> y.closing[t].host != h
  {
    assert Idle(y, limit, h);
    forall t | t in y.waiters ensures y.waiters[t].host != h {
      assert Current(y, y.waiters[t]);
    }
    forall t | t in y.holders ensures y.holders[t].host != h {
      assert Current(y, y.holders[t]);
    }
    forall t | t in y.closing ensures y.closing[t].host != h {
      assert Current(y, y.closing[t]);
    }
  }

  /** Cleaning up the map alone keeps everything in order. */
  lemma CleanupKeepsInv(y: System, limit: nat, kept: map<string, Entry>)
    requires Inv(limit, y) && Cleaned(y, limit, kept)
    ensures Inv(limit, y.(entries := kept))
  {
    var y' := y.(entries := kept);
    forall h | h in y.entries && h !in kept
      ensures forall t :: t in y.waiters ==> y.waiters[t].host != h
      ensures forall t :: t in y.holders ==> y.holders[t].host != h
      ensures forall t :: t in y.closing ==> y.closing[t].host != h
    {
      DroppedIsUnused(y, limit, kept, h);
    }
    forall h | h in kept ensures Balanced(limit, y', h) {
      assert Balanced(limit, y, h) && HeldFor(y', h) == HeldFor(y, h);
    }
  }

  lemma NobodyHolds(y: System, limit: nat, h: string)
    requires Inv(limit, y) && h !in y.entries
    ensures HeldFor(y, h) == {}
  {
    forall t | t in y.holders ensures y.holders[t].host != h {
      assert Current(y, y.holders[t]);
    }
  }

  /** Creating an entry for a host nobody refers to. */
  lemma CreateKeepsInv(y: System, limit: nat, h: string, now: int, newId: SemaphoreId)
    requires Inv(limit, y) && h !in y.entries && !InUse(y, newId)
    ensures Inv(limit, y.(entries := y.entries[h := Entry(newId, now)], available := y.available[newId := limit]))
  {
    var y' := y.(entries := y.entries[h := Entry(newId, now)], available := y.available[newId := limit]);
    NobodyHolds(y, limit, h);
    assert forall k :: k in y.entries ==> y.entries[k].semaphore != newId;
    forall k | k in y'.entries ensures Balanced(limit, y', k) {
      hide InUse, Distinct, AllCurrent;
      assert HeldFor(y', k) == HeldFor(y, k);
      assert k != h ==> Balanced(limit, y, k);
    }
    hide Balanced;
    assert AllCurrent(y', y.waiters) && AllCurrent(y', y.holders) && AllCurrent(y', y.closing);
  }

  /** Touching an entry, which leaves its semaphore alone. */
  lemma TouchKeepsInv(y: System, limit: nat, h: string, now: int)
    requires Inv(limit, y) && h in y.entries
    ensures Inv(limit, y.(entries := y.entries[h := y.entries[h].(lastUsedAt := now)]))
  {
    var y' := y.(entries := y.entries[h := y.entries[h].(lastUsedAt := now)]);
    forall k | k in y'.entries ensures Balanced(limit, y', k) {
      hide Distinct, AllCurrent;
      assert Balanced(limit, y, k) && HeldFor(y', k) == HeldFor(y, k);
    }
    hide Balanced;
    assert AllCurrent(y', y.waiters) && AllCurrent(y', y.holders) && AllCurrent(y', y.closing);
  }

  /** A move between free and held permits of one semaphore leaves every other host's balance alone. */
  lemma MoveKeepsBalance(y: System, y': System, limit: nat, handle: Handle, h: string)
    requires Inv(limit, y) && Current(y, handle) && h in y.entries && y'.entries == y.entries
    requires handle.semaphore in y'.available && y'.available - {handle.semaphore} == y.available - {handle.semaphore}
    requires h != handle.host ==> HeldFor(y', h) == HeldFor(y, h)
    requires h == handle.host ==> y'.available[handle.semaphore] + |HeldFor(y', h)| == limit
    ensures Balanced(limit, y', h)
  {
    assert Balanced(limit, y, h);
    if h != handle.host {
      var id := y.entries[h].semaphore;
      assert id != handle.semaphore;
      assert (y'.available - {handle.semaphore})[id] == (y.available - {handle.semaphore})[id];
    }
  }

  lemma TakeBalances(y: System, limit: nat, t: nat, handle: Handle, h: string)
    requires Inv(limit, y) && Current(y, handle) && t !in y.holders && Free(y, handle.semaphore) && h in y.entries
    ensures Balanced(limit, Take(y, t, handle), h)
  {
    var y' := Take(y, t, handle);
    assert h != handle.host ==> HeldFor(y', h) == HeldFor(y, h);
    assert h == handle.host ==> HeldFor(y', h) == HeldFor(y, h) + {t};
    assert y'.available - {handle.semaphore} == y.available - {handle.semaphore};
    assert Balanced(limit, y, handle.host);
    MoveKeepsBalance(y, y', limit, handle, h);
  }

  /** Taking a permit of a host's semaphore, for a task that holds none. */
  lemma TakeKeepsInv(y: System, limit: nat, t: nat, handle: Handle)
    requires Inv(limit, y) && Current(y, handle) && t !in y.holders && Free(y, handle.semaphore)
    ensures Inv(limit, Take(y, t, handle))
  {
    var y' := Take(y, t, handle);
    forall h | h in y'.entries ensures Balanced(limit, y', h) {
      TakeBalances(y, limit, t, handle, h);
    }
    hide Balanced;
    assert AllCurrent(y', y'.waiters) && AllCurrent(y', y'.holders) && AllCurrent(y', y'.closing);
  }

  lemma GiveBackBalances(y: System, limit: nat, t: nat, h: string)
    requires Inv(limit, y) && Enabled(y, limit, GivesBack(t)) && h in y.entries
    ensures Balanced(limit, Step(y, limit, GivesBack(t)), h)
  {
    var y', handle := Step(y, limit, GivesBack(t)), y.holders[t];
    assert h != handle.host ==> HeldFor(y', h) == HeldFor(y, h);
    assert h == handle.host ==> HeldFor(y, h) == HeldFor(y', h) + {t};
    assert y'.available - {handle.semaphore} == y.available - {handle.semaphore};
    assert Balanced(limit, y, handle.host);
    MoveKeepsBalance(y, y', limit, handle, h);
  }

  lemma GiveBackKeepsInv(y: System, limit: nat, t: nat)
    requires Inv(limit, y) && Enabled(y, limit, GivesBack(t))
    ensures Inv(limit, Step(y, limit, GivesBack(t)))
  {
    var y' := Step(y, limit, GivesBack(t));
    forall h | h in y'.entries ensures Balanced(limit, y', h) {
      GiveBackBalances(y, limit, t, h);
    }
    hide Balanced;
    assert AllCurrent(y', y'.waiters) && AllCurrent(y', y'.holders) && AllCurrent(y', y'.closing);
  }

  /** Waiting, giving up and dropping a last reference do not touch permits. */
  lemma HandlesKeepInv(y: System, limit: nat, t: nat, handle: Handle)
    requires Inv(limit, y)
    ensures Current(y, handle) ==> Inv(limit, y.(waiters := y.waiters[t := handle]))
    ensures Inv(limit, y.(waiters := y.waiters - {t})) && Inv(limit, y.(closing := y.closing - {t}))
  {
    var waiting, left, closed :=
      y.(waiters := y.waiters[t := handle]), y.(waiters := y.waiters - {t}), y.(closing := y.closing - {t});
    forall h | h in y.entries
      ensures Balanced(limit, waiting, h) && Balanced(limit, left, h) && Balanced(limit, closed, h)
    {
      assert Balanced(limit, y, h);
      assert HeldFor(waiting, h) == HeldFor(left, h) == HeldFor(closed, h) == HeldFor(y, h);
    }
  }

  lemma FindKeepsInv(y: System, limit: nat, e: Event)
    requires Inv(limit, y) && e.Arrives? && Enabled(y, limit, e)
    ensures Inv(limit, Found(y, limit, e))
  {
    CleanupKeepsInv(y, limit, e.kept);
    var cleaned := y.(entries := e.kept);
    hide Inv;
    if e.host in e.kept {
      TouchKeepsInv(cleaned, limit, e.host, e.now);
    } else {
      assert !InUse(cleaned, e.newId);
      CreateKeepsInv(cleaned, limit, e.host, e.now, e.newId);
    }
  }

  lemma ArriveKeepsInv(y: System, limit: nat, e: Event)
    requires Inv(limit, y) && e.Arrives? && Enabled(y, limit, e)
    ensures Inv(limit, Step(y, limit, e))
  {
    FindKeepsInv(y, limit, e);
    var found := Found(y, limit, e);
    var handle := Handle(e.host, found.entries[e.host].semaphore);
    hide Inv, AllCurrent, Balanced, Distinct, InUse, Cleaned;
    if Free(found, handle.semaphore) {
      TakeKeepsInv(found, limit, e.task, handle);
    } else {
      HandlesKeepInv(found, limit, e.task, handle);
    }
  }

  lemma StepKeepsInv(y: System, limit: nat, e: Event)
    requires Inv(limit, y) && Enabled(y, limit, e)
    ensures Inv(limit, Step(y, limit, e))
  {
    match e {
      case Arrives(_, _, _, _, _) => ArriveKeepsInv(y, limit, e);
      case Takes(t) => TakeKeepsInv(y, limit, t, y.waiters[t]);
      case Leaves(t) => HandlesKeepInv(y, limit, t, y.waiters[t]);
      case GivesBack(t) => GiveBackKeepsInv(y, limit, t);
      case Forgets(t) => HandlesKeepInv(y, limit, t, y.closing[t]);
    }
  }

  /** An arrival is given a permit at once exactly while its host holds fewer than the limit; else it waits on that host. */
  lemma ArrivesExactlyByRoom(y: System, limit: nat, e: Event)
    requires Inv(limit, y) && e.Arrives? && Enabled(y, limit, e)
    ensures var y' := Step(y, limit, e);
            if |HeldFor(y, e.host)| < limit
            then e.task in y'.holders && y'.holders[e.task].host == e.host && e.task !in y'.waiters
            else e.task in y'.waiters && y'.waiters[e.task].host == e.host && y'.holders == y.holders
  {
    FindKeepsInv(y, limit, e);
    var found := Found(y, limit, e);
    assert HeldFor(found, e.host) == HeldFor(y, e.host);
    assert Balanced(limit, found, e.host);
    hide Cleaned, AllCurrent, Distinct, InUse;
  }

  /** Whenever a host holds fewer permits than its limit, each of its waiters may take one. */
  lemma WaiterMayTake(y: System, limit: nat, t: nat)
    requires Inv(limit, y) && t in y.waiters && t !in y.holders && |HeldFor(y, y.waiters[t].host)| < limit
    ensures Enabled(y, limit, Takes(t)) && t in Step(y, limit, Takes(t)).holders
  {
    assert Current(y, y.waiters[t]) && Balanced(limit, y, y.waiters[t].host);
  }

  ghost predicate EnabledRun(y: System, limit: nat, events: seq<Event>)
    decreases |events|
  {
    events == [] || (Enabled(y, limit, events[0]) && EnabledRun(Step(y, limit, events[0]), limit, events[1..]))
  }

  ghost function Run(y: System, limit: nat, events: seq<Event>): System
    requires EnabledRun(y, limit, events)
    decreases |events|
  {
    if events == [] then y else Run(Step(y, limit, events[0]), limit, events[1..])
  }

  /** Over every interleaving of arrivals, waits, cancellations, releases and evictions the cap holds for every host. */
  lemma {:induction false} CapSurvivesEviction(y: System, limit: nat, events: seq<Event>)
    requires Inv(limit, y) && EnabledRun(y, limit, events)
    ensures Inv(limit, Run(y, limit, events))
    ensures forall h :: |HeldFor(Run(y, limit, events), h)| <= limit
    decreases |events|
  {
    hide Inv, Step, Enabled;
    if events != [] {
      StepKeepsInv(y, limit, events[0]);
      CapSurvivesEviction(Step(y, limit, events[0]), limit, events[1..]);
    } else {
      forall h ensures |HeldFor(y, h)| <= limit {
        CapHolds(y, limit, h);
      }
    }
  }

  lemma CapHolds(y: System, limit: nat, h: string)
    requires Inv(limit, y)
    ensures |HeldFor(y, h)| <= limit
  {
    if h in y.entries {
      assert Balanced(limit, y, h);
    } else {
      NobodyHolds(y, limit, h);
    }
  }

  /** The cleanup run before every arrival: idle entries past their time go, then the least recently used idle ones. */
  method CleanupStale(y: System, limit: nat, now: int, ttl: nat, maxEntries: nat) returns (kept: map<string, Entry>)
    ensures Cleaned(y, limit, kept)
    ensures forall h :: h in kept && Idle(y, limit, h) ==> now - kept[h].lastUsedAt <= ttl
    ensures |kept| <= maxEntries || forall h :: h in kept ==> !Idle(y, limit, h)
    ensures forall gone, left :: gone in y.entries && gone !in kept && now - y.entries[gone].lastUsedAt <= ttl
                                 && left in kept && Idle(y, limit, left)
                                 ==> y.entries[gone].lastUsedAt <= kept[left].lastUsedAt
  {
    var retained := map h | h in y.entries && (!Idle(y, limit, h) || now - y.entries[h].lastUsedAt <= ttl) :: y.entries[h];
    var idleIds := set h | h in y.entries && Idle(y, limit, h) :: y.entries[h].semaphore;
    kept := EvictOldest(retained, (e: Entry) => e.semaphore in idleIds, (e: Entry) => e.lastUsedAt, maxEntries);
  }
}
