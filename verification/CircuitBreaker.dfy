/** The circuit breaker: the class as it is, and the function of its calls that specifies it. Models
    circuit_breaker.py. The clock is read inside the lock, so a call is one step at one time. */
module CircuitBreaker {
  import opened PyText

  datatype CircuitState = Closed | Open | HalfOpen

  datatype Config = Config(failuresBeforeOpen: nat, windowSeconds: nat, cooldownSeconds: nat, halfOpenTestCount: nat)

  predicate ValidConfig(g: Config)
  {
    g.failuresBeforeOpen > 0 && g.windowSeconds > 0 && g.cooldownSeconds > 0 && g.halfOpenTestCount > 0
  }

  datatype Event = Event(name: string, state: CircuitState, timestamp: real, stateChangeCount: nat,
                         failuresBeforeOpen: nat, cooldownSeconds: nat)

  datatype State = State(state: CircuitState, failureTimes: seq<real>, openedAt: Option<real>,
                         halfOpenSuccesses: nat, stateChangeCount: nat, events: seq<Event>)

  const MAX_EVENTS := 1000

  const INITIAL := State(Closed, [], None, 0, 0, [])

  // --- Configuration ---------------------------------------------------------------

  /** A value given for a field: an int that is no bool, or anything else. */
  datatype Given = IntValue(n: int) | OtherValue

  function FieldOr(data: map<string, Given>, field: string, default: nat): Option<nat>
  {
    if field !in data then Some(default)
    else if data[field].IntValue? && data[field].n > 0 then Some(data[field].n)
    else None
  }

  /** `CircuitBreakerConfig.from_dict`; None is its ValueError. */
  function ConfigFromDict(data: map<string, Given>): (r: Option<Config>)
    ensures r.Some? ==> ValidConfig(r.value)
    ensures r.Some? <==>
              && data.Keys <= {"failures_before_open", "window_seconds", "cooldown_seconds", "half_open_test_count"}
              && forall k :: k in data ==> data[k].IntValue? && data[k].n > 0
    ensures r.Some? ==>
              && (var f := "failures_before_open"; r.value.failuresBeforeOpen == if f in data then data[f].n else 5)
              && (var f := "window_seconds"; r.value.windowSeconds == if f in data then data[f].n else 60)
              && (var f := "cooldown_seconds"; r.value.cooldownSeconds == if f in data then data[f].n else 30)
              && (var f := "half_open_test_count"; r.value.halfOpenTestCount == if f in data then data[f].n else 1)
  {
    if !(data.Keys <= {"failures_before_open", "window_seconds", "cooldown_seconds", "half_open_test_count"}) then None
    else
      match (FieldOr(data, "failures_before_open", 5), FieldOr(data, "window_seconds", 60),
             FieldOr(data, "cooldown_seconds", 30), FieldOr(data, "half_open_test_count", 1))
      case (Some(failures), Some(window), Some(cooldown), Some(tests)) => Some(Config(failures, window, cooldown, tests))
      case _ => None
  }

  // --- The calls -------------------------------------------------------------------

  /** `deque(maxlen=1000).append` */
  function Remember(events: seq<Event>, e: Event): seq<Event>
  {
    if |events| < MAX_EVENTS then events + [e] else events[1..] + [e]
  }

  /** `_EVENT_BY_STATE` */
  function EventName(state: CircuitState): string
  {
    match state
    case Open => "circuit_breaker_opened"
    case HalfOpen => "circuit_breaker_half_open"
    case Closed => "circuit_breaker_closed"
  }

  function EventOf(g: Config, state: CircuitState, now: real, count: nat): Event
  {
    Event(EventName(state), state, now, count, g.failuresBeforeOpen, g.cooldownSeconds)
  }

  /** `_transition_locked` */
  function Transition(g: Config, s: State, to: CircuitState, now: real): State
  {
    if to == s.state then s
    else
      s.(state := to,
         stateChangeCount := s.stateChangeCount + 1,
         openedAt := (match to case Open => Some(now) case HalfOpen => s.openedAt case Closed => None),
         halfOpenSuccesses := 0,
         events := Remember(s.events, EventOf(g, to, now, s.stateChangeCount + 1)))
  }

  /** `_prune_failures_locked` */
  function Prune(times: seq<real>, cutoff: real): seq<real>
  {
    if times != [] && times[0] < cutoff then Prune(times[1..], cutoff) else times
  }

  datatype Call = BeforeCall | RecordSuccess | RecordFailure | DrainEvents

  datatype Step = Step(call: Call, now: real)

  datatype Answer = Allowed | Refused | Silent | Drained(events: seq<Event>)

  /** The seconds of the configuration on the clock. */
  function Seconds(n: nat): real
  {
    n as real
  }

  predicate CooledDown(g: Config, openedAt: Option<real>, now: real)
  {
    openedAt.Some? && now - openedAt.value >= Seconds(g.cooldownSeconds)
  }

  /** One call: the state it leaves and what the caller sees. */
  function Do(g: Config, s: State, step: Step): (State, Answer)
  {
    match step.call
    case BeforeCall =>
      if s.state != Open then (s, Allowed)
      else if CooledDown(g, s.openedAt, step.now) then (Transition(g, s, HalfOpen, step.now), Allowed)
      else (s, Refused)
    case RecordSuccess => (Succeed(g, s, step.now), Silent)
    case RecordFailure => (Fail(g, s, step.now), Silent)
    case DrainEvents => (s.(events := []), Drained(s.events))
  }

  function Succeed(g: Config, s: State, now: real): State
  {
    match s.state
    case HalfOpen =>
      var counted := s.(halfOpenSuccesses := s.halfOpenSuccesses + 1);
      if counted.halfOpenSuccesses >= g.halfOpenTestCount
      then Transition(g, counted.(failureTimes := []), Closed, now)
      else counted
    case Closed => s.(failureTimes := [])
    case Open => s
  }

  function Fail(g: Config, s: State, now: real): State
  {
    match s.state
    case HalfOpen => Transition(g, s, Open, now)
    case Open => s.(openedAt := Some(now))
    case Closed =>
      var times := Prune(s.failureTimes, now - Seconds(g.windowSeconds)) + [now];
      var added := s.(failureTimes := times);
      if |times| >= g.failuresBeforeOpen then Transition(g, added, Open, now) else added
  }

  /** The state after all the calls. */
  function Run(g: Config, steps: seq<Step>): State
  {
    if steps == [] then INITIAL else Do(g, Run(g, steps[..|steps| - 1]), steps[|steps| - 1]).0
  }

  /** What the callers saw. */
  function Answers(g: Config, steps: seq<Step>): seq<Answer>
  {
    if steps == [] then []
    else
      var before := steps[..|steps| - 1];
      Answers(g, before) + [Do(g, Run(g, before), steps[|steps| - 1]).1]
  }

  /** Time does not run backwards. */
  predicate Monotone(steps: seq<Step>)
  {
    forall i, j :: 0 <= i < j < |steps| ==> steps[i].now <= steps[j].now
  }

  lemma RunAppend(g: Config, before: seq<Step>, step: Step)
    ensures Run(g, before + [step]) == Do(g, Run(g, before), step).0
  {
    assert (before + [step])[..|before|] == before;
  }

  // --- The class ------------------------------------------------------------------

  class Breaker {
    const config: Config
    var state: CircuitState
    var failureTimes: seq<real>
    var openedAt: Option<real>
    var halfOpenSuccesses: nat
    var stateChangeCount: nat
    var events: seq<Event>
    /** All the calls so far. */
    ghost var history: seq<Step>

    /** The fields are what the calls so far leave, so what holds of runs holds of the object. */
    ghost predicate Valid()
      reads this
    {
      Now() == Run(config, history)
    }

    ghost function Now(): State
      reads this
    {
      State(state, failureTimes, openedAt, halfOpenSuccesses, stateChangeCount, events)
    }

    constructor (config: Config)
      ensures this.config == config && history == [] && Valid()
    {
      this.config := config;
      state, failureTimes, openedAt := Closed, [], None;
      halfOpenSuccesses, stateChangeCount, events := 0, 0, [];
      history := [];
    }

    /** `before_call`; false is CircuitBreakerOpenError. */
    method Before(now: real) returns (allowed: bool)
      requires Valid()
      modifies this
      ensures Valid() && history == old(history) + [Step(BeforeCall, now)]
      ensures Now() == Do(config, old(Now()), Step(BeforeCall, now)).0
      ensures Do(config, old(Now()), Step(BeforeCall, now)).1 == if allowed then Allowed else Refused
    {
      RunAppend(config, history, Step(BeforeCall, now));
      hide Run, Transition, Prune;
      history := history + [Step(BeforeCall, now)];
      if state == Open {
        if openedAt.Some? && now - openedAt.value >= config.cooldownSeconds as real {
          ChangeTo(HalfOpen, now);
        } else {
          return false;
        }
      }
      return true;
    }

    method Success(now: real)
      requires Valid()
      modifies this
      ensures Valid() && history == old(history) + [Step(RecordSuccess, now)]
      ensures Now() == Do(config, old(Now()), Step(RecordSuccess, now)).0
    {
      RunAppend(config, history, Step(RecordSuccess, now));
      hide Run, Transition, Prune;
      history := history + [Step(RecordSuccess, now)];
      if state == HalfOpen {
        halfOpenSuccesses := halfOpenSuccesses + 1;
        if halfOpenSuccesses >= config.halfOpenTestCount {
          failureTimes := [];
          ChangeTo(Closed, now);
        }
        return;
      }
      if state == Closed {
        failureTimes := [];
      }
    }

    method Failure(now: real)
      requires Valid()
      modifies this
      ensures Valid() && history == old(history) + [Step(RecordFailure, now)]
      ensures Now() == Do(config, old(Now()), Step(RecordFailure, now)).0
    {
      RunAppend(config, history, Step(RecordFailure, now));
      hide Run, Transition, Prune;
      history := history + [Step(RecordFailure, now)];
      if state == HalfOpen {
        ChangeTo(Open, now);
        return;
      }
      if state == Open {
        openedAt := Some(now);
        return;
      }
      PruneFailures(now);
      failureTimes := failureTimes + [now];
      if |failureTimes| >= config.failuresBeforeOpen {
        ChangeTo(Open, now);
      }
    }

    method Drain(ghost now: real) returns (drained: seq<Event>)
      requires Valid()
      modifies this
      ensures Valid() && history == old(history) + [Step(DrainEvents, now)]
      ensures Do(config, old(Now()), Step(DrainEvents, now)) == (Now(), Drained(drained))
    {
      RunAppend(config, history, Step(DrainEvents, now));
      history := history + [Step(DrainEvents, now)];
      drained := events;
      events := [];
    }

    /** `_transition_locked` */
    method ChangeTo(to: CircuitState, now: real)
      modifies `state, `openedAt, `halfOpenSuccesses, `stateChangeCount, `events
      ensures Now() == Transition(config, old(Now()), to, now)
    {
      if to == state {
        return;
      }
      state := to;
      stateChangeCount := stateChangeCount + 1;
      if to == Open {
        openedAt := Some(now);
        halfOpenSuccesses := 0;
      } else if to == HalfOpen {
        halfOpenSuccesses := 0;
      } else {
        openedAt := None;
        halfOpenSuccesses := 0;
      }
      var event := EventOf(config, to, now, stateChangeCount);
      if |events| >= MAX_EVENTS {
        events := events[1..];
      }
      events := events + [event];
    }

    /** `_prune_failures_locked` */
    method PruneFailures(now: real)
      modifies `failureTimes
      ensures failureTimes == Prune(old(failureTimes), now - Seconds(config.windowSeconds))
    {
      var cutoff := now - config.windowSeconds as real;
      while failureTimes != [] && failureTimes[0] < cutoff
        invariant Prune(failureTimes, cutoff) == Prune(old(failureTimes), cutoff)
        decreases |failureTimes|
      {
        failureTimes := failureTimes[1..];
      }
    }
  }
}
