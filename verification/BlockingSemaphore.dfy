/** The counting semaphore on a condition variable, as the steps its threads take under its lock. */
module BlockingSemaphore {
  import opened Wrappers

  /** `sleepers` maps a thread inside `wait` to whether it has been notified. */
  datatype Semaphore = Semaphore(available: nat, holders: set<nat>, sleepers: map<nat, bool>)

  /**
    A thread arrives; a sleeping thread returns from `wait` because it was notified, because its time ran
    out, or for no reason; a holder releases and notifies one sleeper. `expired` says whether the thread's
    deadline has passed when it looks at the clock.
   */
  datatype Event =
    | Arrives(thread: nat, expired: bool)
    | Returns(thread: nat, expired: bool)
    | Releases(thread: nat, notified: Option<nat>)

  ghost function Unnotified(s: Semaphore): set<nat> {
    set t | t in s.sleepers && !s.sleepers[t]
  }

  ghost function Notified(s: Semaphore): set<nat> {
    set t | t in s.sleepers && s.sleepers[t]
  }

  /** `notify_one` picks a thread that is still waiting whenever there is one. */
  ghost predicate Enabled(s: Semaphore, e: Event) {
    match e
    case Arrives(t, _) => t !in s.holders && t !in s.sleepers
    case Returns(t, _) => t in s.sleepers
    case Releases(t, notified) =>
      && t in s.holders
      && (notified.Some? ==> notified.value in Unnotified(s))
      && (notified.None? ==> Unnotified(s) == {})
  }

  /** One turn of the acquire loop: take a permit, give up on the deadline, or wait. */
  function Look(s: Semaphore, t: nat, expired: bool): Semaphore {
    if s.available > 0 then Semaphore(s.available - 1, s.holders + {t}, s.sleepers - {t})
    else if expired then s.(sleepers := s.sleepers - {t})
    else s.(sleepers := s.sleepers[t := false])
  }

  function Step(s: Semaphore, e: Event): Semaphore {
    match e
    case Arrives(t, expired) => Look(s, t, expired)
    case Returns(t, expired) => Look(s, t, expired)
    case Releases(t, notified) =>
      Semaphore(s.available + 1, s.holders - {t},
                if notified.Some? then s.sleepers[notified.value := true] else s.sleepers)
  }

  /**
    Permits are conserved, and while somebody sleeps un-notified, at least as many notified threads are on
    their way as there are permits to take.
   */
  ghost predicate Inv(limit: nat, s: Semaphore) {
    && s.available + |s.holders| == limit
    && s.holders !! s.sleepers.Keys
    && (Unnotified(s) != {} ==> |Notified(s)| >= s.available)
  }

  lemma WithoutOne(a: set<nat>, t: nat)
    ensures |a| - 1 <= |a - {t}| <= |a|
  {
    if t in a {
      assert a == (a - {t}) + {t};
    } else {
      assert a == a - {t};
    }
  }

  lemma LookKeepsInv(limit: nat, s: Semaphore, t: nat, expired: bool)
    requires Inv(limit, s) && t !in s.holders
    ensures Inv(limit, Look(s, t, expired))
  {
    if s.available > 0 {
      var s' := Look(s, t, expired);
      assert Notified(s') == Notified(s) - {t};
      assert Unnotified(s') <= Unnotified(s);
      WithoutOne(Notified(s), t);
      hide Notified, Unnotified;
    }
  }

  lemma ReleaseKeepsInv(limit: nat, s: Semaphore, e: Event)
    requires Inv(limit, s) && e.Releases? && Enabled(s, e)
    ensures Inv(limit, Step(s, e))
  {
    var s' := Step(s, e);
    if e.notified.Some? {
      assert Notified(s') == Notified(s) + {e.notified.value};
      assert e.notified.value !in Notified(s);
      assert e.notified.value in Unnotified(s);
    } else {
      assert Unnotified(s') == {};
    }
  }

  /** A thread that looks takes a permit exactly while fewer than the limit are held; else it gives up or sleeps. */
  lemma LooksExactlyByRoom(limit: nat, s: Semaphore, t: nat, expired: bool)
    requires Inv(limit, s) && t !in s.holders
    ensures var s' := Look(s, t, expired);
            if |s.holders| < limit then s'.holders == s.holders + {t} && t !in s'.sleepers
            else s'.holders == s.holders && (t in s'.sleepers <==> !expired) && s'.sleepers - {t} == s.sleepers - {t}
  {
  }

  ghost predicate EnabledRun(s: Semaphore, events: seq<Event>)
    decreases |events|
  {
    events == [] || (Enabled(s, events[0]) && EnabledRun(Step(s, events[0]), events[1..]))
  }

  ghost function Run(s: Semaphore, events: seq<Event>): Semaphore
    requires EnabledRun(s, events)
    decreases |events|
  {
    if events == [] then s else Run(Step(s, events[0]), events[1..])
  }

  /** Barging, spurious returns and expired deadlines never lose a permit or a wake-up. */
  lemma {:induction false} NoLostPermits(limit: nat, s: Semaphore, events: seq<Event>)
    requires Inv(limit, s) && EnabledRun(s, events)
    ensures Inv(limit, Run(s, events))
    decreases |events|
  {
    if events != [] {
      var e := events[0];
      if e.Releases? {
        ReleaseKeepsInv(limit, s, e);
      } else {
        LookKeepsInv(limit, s, e.thread, e.expired);
      }
      NoLostPermits(limit, Step(s, e), events[1..]);
    }
  }

  lemma InitialInv(limit: nat)
    ensures Inv(limit, Semaphore(limit, {}, map[]))
  {
  }

  /** A permit that could be taken while somebody sleeps is never stranded: a notified thread will take it. */
  lemma FreePermitHasATaker(limit: nat, s: Semaphore)
    requires Inv(limit, s) && s.available > 0 && s.sleepers != map[]
    ensures exists t :: t in Notified(s) && forall expired :: t in Step(s, Returns(t, expired)).holders
  {
    var sleeper :| sleeper in s.sleepers;
    assert sleeper in Unnotified(s) || sleeper in Notified(s);
    var t :| t in Notified(s);
    assert forall expired :: t in Step(s, Returns(t, expired)).holders;
  }
}
