/** The guards of one attempt, which must each be given exactly one outcome, and the stream that may inherit them. */
module Attempts {
  import opened Wrappers

  datatype Outcome = Success | Failure | Cancel

  /** `dropped` marks an outcome given by a destructor and not by the code's own call. */
  datatype Report = Report(outcome: Outcome, dropped: bool)

  /** One guard: whether it was begun, whether it is still held, and every outcome it was given. */
  datatype Seat = Seat(begun: bool, held: bool, reports: seq<Report>)

  const UNUSED := Seat(false, false, [])

  function Begun(guarded: bool): Seat {
    Seat(guarded, guarded, [])
  }

  /** Given exactly one outcome, or never begun. */
  predicate Settled(s: Seat, outcome: Outcome, dropped: bool) {
    if s.begun then s == Seat(true, false, [Report(outcome, dropped)]) else s == UNUSED
  }

  /** Handed on without an outcome. */
  predicate Moved(s: Seat) {
    s == if s.begun then Seat(true, false, []) else UNUSED
  }

  /** What a stream inherits: the guards still held and the budget to credit. */
  datatype Hooks = Hooks(circuit: bool, adaptive: bool, budgeted: bool)

  class AttemptGuards {
    var circuit: Seat
    var adaptive: Seat

    constructor (guarded: bool)
      ensures circuit == Begun(guarded) && adaptive == UNUSED
    {
      circuit, adaptive := Begun(guarded), UNUSED;
    }

    predicate Open()
      reads this
    {
      circuit == Begun(circuit.begun) && adaptive == Begun(adaptive.begun)
    }

    predicate IsEmpty()
      reads this
    {
      !circuit.held && !adaptive.held
    }

    method SetAdaptive(guarded: bool)
      requires adaptive == UNUSED
      modifies this
      ensures circuit == old(circuit) && adaptive == Begun(guarded)
    {
      adaptive := Begun(guarded);
    }

    /** Every way of reporting takes the guard, so that a second report does nothing. */
    method Conclude(outcome: Outcome, dropped: bool)
      modifies this
      ensures old(Open()) ==> Settled(circuit, outcome, dropped) && Settled(adaptive, outcome, dropped)
      ensures old(IsEmpty()) ==> circuit == old(circuit) && adaptive == old(adaptive)
      ensures IsEmpty() && circuit.begun == old(circuit.begun) && adaptive.begun == old(adaptive.begun)
    {
      if circuit.held {
        circuit := circuit.(held := false, reports := circuit.reports + [Report(outcome, dropped)]);
      }
      if adaptive.held {
        adaptive := adaptive.(held := false, reports := adaptive.reports + [Report(outcome, dropped)]);
      }
    }

    method Take(budgeted: bool) returns (hooks: Hooks)
      modifies this
      ensures hooks == Hooks(old(circuit.held), old(adaptive.held), budgeted)
      ensures circuit == old(circuit).(held := false) && adaptive == old(adaptive).(held := false)
    {
      hooks := Hooks(circuit.held, adaptive.held, budgeted);
      circuit, adaptive := circuit.(held := false), adaptive.(held := false);
    }

    /** Completion of a request that hands its body out as a stream. */
    method IntoStream(completed: bool, budgeted: bool) returns (hooks: Option<Hooks>)
      requires Open()
      modifies this
      ensures circuit.begun == old(circuit.begun) && adaptive.begun == old(adaptive.begun)
      ensures if completed then Moved(circuit) && Moved(adaptive)
              else Settled(circuit, Failure, false) && Settled(adaptive, Failure, false)
      ensures hooks == if completed && (budgeted || circuit.begun || adaptive.begun)
                       then Some(Hooks(circuit.begun, adaptive.begun, budgeted)) else None
    {
      if !completed {
        Conclude(Failure, false);
        return None;
      }
      if !budgeted && IsEmpty() {
        return None;
      }
      var taken := Take(budgeted);
      hooks := Some(taken);
    }
  }

  // ---------------------------------------------------------- the stream's lifecycle

  datatype Call = CompleteSuccess | CompleteError | CompleteCanceled

  function OutcomeOf(call: Call): Outcome {
    match call
    case CompleteSuccess => Success
    case CompleteError => Failure
    case CompleteCanceled => Cancel
  }

  class StreamLifecycle {
    var hooks: Option<Hooks>
    var attached: bool
    var completed: bool
    var circuit: Seat
    var adaptive: Seat
    var credits: nat
    var recorded: seq<Call>

    /** `recorded` are the completions the metrics see; a stream always gets its completion attached. */
    constructor (hooks: Option<Hooks>)
      ensures Fresh(hooks)
    {
      this.hooks, attached, completed, credits, recorded := hooks, true, false, 0, [];
      circuit := Begun(hooks.Some? && hooks.value.circuit);
      adaptive := Begun(hooks.Some? && hooks.value.adaptive);
    }

    ghost predicate Fresh(given: Option<Hooks>)
      reads this
    {
      && hooks == given && attached && !completed && credits == 0 && recorded == []
      && circuit == Begun(given.Some? && given.value.circuit) && adaptive == Begun(given.Some? && given.value.adaptive)
    }

    /** Everything the stream owes has been paid once, by the call `first`. */
    ghost predicate Paid(given: Option<Hooks>, first: Call, dropped: bool)
      reads this
    {
      && hooks == None && !attached && completed && recorded == [first]
      && circuit.begun == (given.Some? && given.value.circuit) && adaptive.begun == (given.Some? && given.value.adaptive)
      && Settled(circuit, OutcomeOf(first), dropped) && Settled(adaptive, OutcomeOf(first), dropped)
      && credits == if given.Some? && given.value.budgeted && first == CompleteSuccess then 1 else 0
    }

    method Complete(call: Call, dropped: bool)
      modifies this
      ensures old(Fresh(hooks)) ==> Paid(old(hooks), call, dropped)
      ensures old(completed) ==> unchanged(this)
    {
      if completed {
        return;
      }
      completed := true;
      if hooks.Some? {
        if hooks.value.budgeted && call == CompleteSuccess {
          credits := credits + 1;
        }
        if circuit.held {
          circuit := circuit.(held := false, reports := circuit.reports + [Report(OutcomeOf(call), dropped)]);
        }
        if adaptive.held {
          adaptive := adaptive.(held := false, reports := adaptive.reports + [Report(OutcomeOf(call), dropped)]);
        }
        hooks := None;
      }
      if attached {
        recorded := recorded + [call];
        attached := false;
      }
    }
  }

  /** Whatever a reader does with the stream before letting go of it, everything is settled once, by its first call. */
  method ReadStream(hooks: Option<Hooks>, calls: seq<Call>) returns (lifecycle: StreamLifecycle)
    ensures fresh(lifecycle)
    ensures lifecycle.Paid(hooks, if calls == [] then CompleteCanceled else calls[0], calls == [])
    ensures var told := if calls == [] then [Report(Cancel, true)]
                        else if calls[0] == CompleteSuccess then [Report(Success, false)]
                        else if calls[0] == CompleteError then [Report(Failure, false)]
                        else [Report(Cancel, false)];
            && lifecycle.circuit.reports == (if hooks.Some? && hooks.value.circuit then told else [])
            && lifecycle.adaptive.reports == (if hooks.Some? && hooks.value.adaptive then told else [])
  {
    lifecycle := new StreamLifecycle(hooks);
    for i := 0 to |calls|
      invariant if i == 0 then lifecycle.Fresh(hooks) else lifecycle.Paid(hooks, calls[0], false)
    {
      lifecycle.Complete(calls[i], false);
    }
    lifecycle.Complete(CompleteCanceled, true);
  }
}
