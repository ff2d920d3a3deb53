/** Eviction from a bounded per-host map, shared by the rate limiter and the concurrency limiters. */
module HostEviction {
  import opened Wrappers

  /** The least recently used of the idle entries, if any entry is idle. */
  method OldestIdle<E>(entries: map<string, E>, idle: E -> bool, lastUsedAt: E -> int) returns (oldest: Option<string>)
    ensures oldest.None? ==> forall h :: h in entries ==> !idle(entries[h])
    ensures oldest.Some? ==>
              && oldest.value in entries && idle(entries[oldest.value])
              && forall h :: h in entries && idle(entries[h]) ==> lastUsedAt(entries[oldest.value]) <= lastUsedAt(entries[h])
  {
    oldest := None;
    var unvisited := entries.Keys;
    while unvisited != {}
      invariant unvisited <= entries.Keys
      invariant oldest.None? ==> forall h :: h in entries && h !in unvisited ==> !idle(entries[h])
      invariant oldest.Some? ==>
                  && oldest.value in entries && idle(entries[oldest.value])
                  && forall h :: h in entries && h !in unvisited && idle(entries[h]) ==>
                                   lastUsedAt(entries[oldest.value]) <= lastUsedAt(entries[h])
      decreases |unvisited|
    {
      var h :| h in unvisited;
      unvisited := unvisited - {h};
      if idle(entries[h]) && (oldest.None? || lastUsedAt(entries[h]) < lastUsedAt(entries[oldest.value])) {
        oldest := Some(h);
      }
    }
  }

  /** Drops idle entries, least recently used first, until at most `limit` are left or none is idle. */
  method EvictOldest<E>(entries: map<string, E>, idle: E -> bool, lastUsedAt: E -> int, limit: nat)
    returns (kept: map<string, E>)
    ensures kept.Keys <= entries.Keys && forall h :: h in kept ==> kept[h] == entries[h]
    ensures forall h :: h in entries && h !in kept ==> idle(entries[h])
    ensures |kept| <= limit || forall h :: h in kept ==> !idle(kept[h])
    ensures |entries| <= limit ==> kept == entries
    ensures forall gone, left :: gone in entries && gone !in kept && left in kept && idle(kept[left])
                                 ==> lastUsedAt(entries[gone]) <= lastUsedAt(kept[left])
  {
    kept := entries;
    while |kept| > limit
      invariant kept.Keys <= entries.Keys && forall h :: h in kept ==> kept[h] == entries[h]
      invariant |entries| <= limit ==> kept == entries
      invariant forall h :: h in entries && h !in kept ==> idle(entries[h])
      invariant forall gone, left :: gone in entries && gone !in kept && left in kept && idle(kept[left])
                                     ==> lastUsedAt(entries[gone]) <= lastUsedAt(kept[left])
      decreases |kept|
    {
      var oldest := OldestIdle(kept, idle, lastUsedAt);
      if oldest.None? {
        break;
      }
      kept := kept - {oldest.value};
    }
  }
}
