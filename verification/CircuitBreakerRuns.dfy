/** What the circuit breaker guarantees over whole runs: it answers like a breaker that forgets nothing, it
    refuses for the full cooldown, it closes only after a clean probe, and it cannot flap. */
module CircuitBreakerRuns {
  import opened PyText
  import opened CircuitBreaker

  // --- The breaker that forgets nothing ----------------------------------------------

  /** `failures` are all those since the last reset, `events` all those since the last drain. */
  datatype Full = Full(state: CircuitState, failures: seq<real>, openedAt: Option<real>,
                       successes: nat, changes: nat, events: seq<Event>)

  function CountSince(times: seq<real>, cutoff: real): nat
  {
    if times == [] then 0 else (if times[0] >= cutoff then 1 else 0) + CountSince(times[1..], cutoff)
  }

  function Last(events: seq<Event>, n: nat): seq<Event>
  {
    if |events| <= n then events else events[|events| - n..]
  }

  function FullTransition(g: Config, f: Full, to: CircuitState, openedAt: Option<real>, now: real): Full
  {
    f.(state := to, openedAt := openedAt, successes := 0, changes := f.changes + 1,
       events := f.events + [EventOf(g, to, now, f.changes + 1)])
  }

  function FullFail(g: Config, f: Full, now: real): Full
  {
    if f.state == Open then f.(openedAt := Some(now))
    else if f.state == HalfOpen then FullTransition(g, f, Open, Some(now), now)
    else
      var added := f.(failures := f.failures + [now]);
      if CountSince(added.failures, now - Seconds(g.windowSeconds)) >= g.failuresBeforeOpen
      then FullTransition(g, added, Open, Some(now), now)
      else added
  }

  function FullSucceed(g: Config, f: Full, now: real): Full
  {
    if f.state == Open then f
    else if f.state == Closed then f.(failures := [])
    else if f.successes + 1 >= g.halfOpenTestCount
    then FullTransition(g, f.(failures := []), Closed, None, now)
    else f.(successes := f.successes + 1)
  }

  function FullDo(g: Config, f: Full, step: Step): (Full, Answer)
  {
    match step.call
    case RecordFailure => (FullFail(g, f, step.now), Silent)
    case RecordSuccess => (FullSucceed(g, f, step.now), Silent)
    case DrainEvents => (f.(events := []), Drained(Last(f.events, MAX_EVENTS)))
    case BeforeCall =>
      if f.state == Open && !CooledDown(g, f.openedAt, step.now) then (f, Refused)
      else if f.state == Open then (FullTransition(g, f, HalfOpen, f.openedAt, step.now), Allowed)
      else (f, Allowed)
  }

  function FullRun(g: Config, steps: seq<Step>): Full
  {
    if steps == [] then Full(Closed, [], None, 0, 0, [])
    else FullDo(g, FullRun(g, steps[..|steps| - 1]), steps[|steps| - 1]).0
  }

  function FullAnswers(g: Config, steps: seq<Step>): seq<Answer>
  {
    if steps == [] then []
    else
      var before := steps[..|steps| - 1];
      FullAnswers(g, before) + [FullDo(g, FullRun(g, before), steps[|steps| - 1]).1]
  }

  // --- Pruning loses nothing that counts -----------------------------------------------

  predicate Ascending(times: seq<real>)
  {
    forall i, j :: 0 <= i < j < |times| ==> times[i] <= times[j]
  }

  predicate AllBefore(times: seq<real>, t: real)
  {
    forall i :: 0 <= i < |times| ==> times[i] < t
  }

  predicate AllFrom(times: seq<real>, t: real)
  {
    forall i :: 0 <= i < |times| ==> times[i] >= t
  }

  predicate AllUpTo(times: seq<real>, t: real)
  {
    forall i :: 0 <= i < |times| ==> times[i] <= t
  }

  /** `kept` is what pruning at earlier times, up to `cutoff`, has left of `all`. */
  predicate Pruned(all: seq<real>, kept: seq<real>, cutoff: real)
  {
    |kept| <= |all| && all[|all| - |kept|..] == kept && AllBefore(all[..|all| - |kept|], cutoff)
  }

  lemma {:induction false} PruneKeeps(times: seq<real>, cutoff: real)
    requires Ascending(times)
    ensures Pruned(times, Prune(times, cutoff), cutoff)
    ensures |Prune(times, cutoff)| == CountSince(times, cutoff)
  {
    if times == [] {
    } else if times[0] < cutoff {
      assert Ascending(times[1..]);
      PruneKeeps(times[1..], cutoff);
      hide Ascending;
      PrunedCons(times, Prune(times, cutoff), cutoff);
    } else {
      AllCount(times, cutoff);
    }
  }

  lemma PrunedCons(all: seq<real>, kept: seq<real>, cutoff: real)
    requires all != [] && all[0] < cutoff && Pruned(all[1..], kept, cutoff)
    ensures Pruned(all, kept, cutoff)
  {
    var n := |all| - |kept|;
    assert all[n..] == all[1..][n - 1..];
    assert forall i :: 1 <= i < n ==> all[i] == all[1..][..n - 1][i - 1];
  }

  lemma {:induction false} AllCount(times: seq<real>, cutoff: real)
    requires AllFrom(times, cutoff)
    ensures CountSince(times, cutoff) == |times|
  {
    if times != [] {
      AllCount(times[1..], cutoff);
    }
  }

  lemma {:induction false} OldOnesDoNotCount(gone: seq<real>, times: seq<real>, cutoff: real)
    requires AllBefore(gone, cutoff)
    ensures CountSince(gone + times, cutoff) == CountSince(times, cutoff)
  {
    if gone == [] {
      assert gone + times == times;
    } else {
      assert (gone + times)[1..] == gone[1..] + times;
      OldOnesDoNotCount(gone[1..], times, cutoff);
    }
  }

  lemma PrunedFurther(all: seq<real>, kept: seq<real>, earlier: real, cutoff: real)
    requires Pruned(all, kept, earlier) && Ascending(all) && earlier <= cutoff
    ensures Pruned(all, Prune(kept, cutoff), cutoff) && AllFrom(Prune(kept, cutoff), cutoff)
  {
    hide *;
    var gone := PrunedSplit(all, kept, earlier);
    AscendingTail(gone, kept);
    PruneKeeps(kept, cutoff);
    PrunedRest(kept, cutoff);
    var pruned := Prune(kept, cutoff);
    var dropped := PrunedSplit(kept, pruned, cutoff);
    PrunedParts(gone, earlier, dropped, pruned, cutoff);
    assert all == gone + dropped + pruned;
  }

  lemma PrunedSplit(all: seq<real>, kept: seq<real>, cutoff: real) returns (gone: seq<real>)
    requires Pruned(all, kept, cutoff)
    ensures all == gone + kept && AllBefore(gone, cutoff)
  {
    gone := all[..|all| - |kept|];
  }

  lemma AscendingTail(a: seq<real>, b: seq<real>)
    requires Ascending(a + b)
    ensures Ascending(b)
  {
    forall i, j | 0 <= i < j < |b| ensures b[i] <= b[j] {
      assert (a + b)[|a| + i] <= (a + b)[|a| + j];
    }
  }

  lemma PrunedParts(gone: seq<real>, earlier: real, dropped: seq<real>, kept: seq<real>, cutoff: real)
    requires AllBefore(gone, earlier) && AllBefore(dropped, cutoff) && earlier <= cutoff
    ensures Pruned(gone + dropped + kept, kept, cutoff)
  {
    var all := gone + dropped + kept;
    assert all[|all| - |kept|..] == kept && all[..|all| - |kept|] == gone + dropped;
  }

  lemma PrunedGrows(all: seq<real>, kept: seq<real>, cutoff: real, now: real)
    requires Pruned(all, kept, cutoff) && AllFrom(kept, cutoff) && cutoff <= now
    ensures Pruned(all + [now], kept + [now], cutoff)
    ensures |kept + [now]| == CountSince(all + [now], cutoff)
  {
    var gone := all[..|all| - |kept|];
    assert all == gone + kept;
    assert all + [now] == gone + (kept + [now]);
    OldOnesDoNotCount(gone, kept + [now], cutoff);
    AllCount(kept + [now], cutoff);
    hide AllBefore, CountSince;
    assert (all + [now])[..|gone|] == gone;
  }

  /** Pruning what earlier pruning has left gives the same window, and the same count, as the whole history. */
  lemma PruneTwice(all: seq<real>, kept: seq<real>, earlier: real, cutoff: real, now: real)
    requires Pruned(all, kept, earlier) && Ascending(all) && earlier <= cutoff <= now && AllUpTo(all, now)
    ensures var times := Prune(kept, cutoff) + [now];
            && Pruned(all + [now], times, cutoff) && Ascending(all + [now]) && AllUpTo(all + [now], now)
            && |times| == CountSince(all + [now], cutoff)
  {
    PrunedFurther(all, kept, earlier, cutoff);
    PrunedGrows(all, Prune(kept, cutoff), cutoff, now);
    hide Pruned, Prune, CountSince, AllFrom;
  }

  lemma {:induction false} PrunedRest(times: seq<real>, cutoff: real)
    requires Ascending(times)
    ensures AllFrom(Prune(times, cutoff), cutoff)
  {
    if times != [] && times[0] < cutoff {
      PrunedRest(times[1..], cutoff);
    }
  }

  // --- The two breakers side by side ---------------------------------------------------

  /** The relation between the two at time `last`. */
  predicate Matches(g: Config, s: State, f: Full, last: real)
  {
    && s.state == f.state && s.openedAt == f.openedAt
    && s.halfOpenSuccesses == f.successes && s.stateChangeCount == f.changes
    && s.events == Last(f.events, MAX_EVENTS)
    && Ascending(f.failures) && AllUpTo(f.failures, last)
    && Pruned(f.failures, s.failureTimes, last - Seconds(g.windowSeconds))
  }

  lemma RememberLast(events: seq<Event>, e: Event)
    ensures Remember(Last(events, MAX_EVENTS), e) == Last(events + [e], MAX_EVENTS)
  {
  }

  lemma MatchesLater(g: Config, s: State, f: Full, last: real, now: real)
    requires Matches(g, s, f, last) && last <= now
    ensures Matches(g, s, f, now)
  {
  }

  lemma FailMatches(g: Config, s: State, f: Full, last: real, now: real)
    requires Matches(g, s, f, last) && last <= now
    ensures Matches(g, Fail(g, s, now), FullFail(g, f, now), now)
  {
    MatchesLater(g, s, f, last, now);
    var window := Seconds(g.windowSeconds);
    RememberLast(f.events, EventOf(g, Open, now, f.changes + 1));
    if s.state == Closed {
      PruneTwice(f.failures, s.failureTimes, last - window, now - window, now);
      hide Prune, CountSince, Last, Remember;
    }
  }

  lemma SucceedMatches(g: Config, s: State, f: Full, last: real, now: real)
    requires Matches(g, s, f, last) && last <= now
    ensures Matches(g, Succeed(g, s, now), FullSucceed(g, f, now), now)
  {
    MatchesLater(g, s, f, last, now);
    RememberLast(f.events, EventOf(g, Closed, now, f.changes + 1));
    hide Last, Remember;
  }

  lemma StepMatches(g: Config, s: State, f: Full, last: real, step: Step)
    requires Matches(g, s, f, last) && last <= step.now
    ensures Matches(g, Do(g, s, step).0, FullDo(g, f, step).0, step.now)
    ensures Do(g, s, step).1 == FullDo(g, f, step).1
  {
    MatchesLater(g, s, f, last, step.now);
    RememberLast(f.events, EventOf(g, HalfOpen, step.now, f.changes + 1));
    match step.call
    case RecordFailure => FailMatches(g, s, f, last, step.now);
    case RecordSuccess => SucceedMatches(g, s, f, last, step.now);
    case _ => hide Ascending, AllUpTo, Pruned;
  }

  lemma MonotonePrefix(steps: seq<Step>)
    requires Monotone(steps) && steps != []
    ensures Monotone(steps[..|steps| - 1])
    ensures |steps| > 1 ==> steps[|steps| - 2].now <= steps[|steps| - 1].now
  {
  }

  /** The breaker with the pruned deque and the bounded event buffer answers every call of every run as the
      breaker that keeps everything does. In particular it opens exactly when the failures since the last
      reset that lie in the window reach the threshold, and a drain yields the last 1000 transitions. */
  lemma {:induction false} ForgettingIsHarmless(g: Config, steps: seq<Step>)
    requires Monotone(steps)
    ensures Answers(g, steps) == FullAnswers(g, steps)
    ensures steps != [] ==> Matches(g, Run(g, steps), FullRun(g, steps), steps[|steps| - 1].now)
    decreases |steps|
  {
    if steps != [] {
      var before, step := steps[..|steps| - 1], steps[|steps| - 1];
      MonotonePrefix(steps);
      ForgettingIsHarmless(g, before);
      var s, f := Run(g, before), FullRun(g, before);
      hide Do, FullDo;
      if before == [] {
        assert Matches(g, s, f, step.now);
        StepMatches(g, s, f, step.now, step);
      } else {
        StepMatches(g, s, f, before[|before| - 1].now, step);
      }
    }
  }

  /** The failures recorded while closed since the last success that left the circuit closed, of all the calls. */
  function FailuresSinceReset(g: Config, steps: seq<Step>): seq<real>
  {
    if steps == [] then []
    else
      var before, step := steps[..|steps| - 1], steps[|steps| - 1];
      if step.call == RecordSuccess && Run(g, steps).state == Closed then []
      else if step.call == RecordFailure && Run(g, before).state == Closed then FailuresSinceReset(g, before) + [step.now]
      else FailuresSinceReset(g, before)
  }

  lemma StatesAgree(g: Config, steps: seq<Step>)
    requires Monotone(steps)
    ensures FullRun(g, steps).state == Run(g, steps).state
  {
    ForgettingIsHarmless(g, steps);
    hide Answers, FullAnswers, Pruned, Ascending, AllUpTo, Do, FullDo;
  }

  lemma {:induction false} FullFailures(g: Config, steps: seq<Step>)
    requires Monotone(steps)
    ensures FullRun(g, steps).failures == FailuresSinceReset(g, steps)
    decreases |steps|
  {
    if steps != [] {
      var before := steps[..|steps| - 1];
      MonotonePrefix(steps);
      FullFailures(g, before);
      StatesAgree(g, steps);
      StatesAgree(g, before);
      FullFailuresStep(g, FullRun(g, before), steps[|steps| - 1]);
      hide Run, Monotone, FullDo;
    }
  }

  lemma FullFailuresStep(g: Config, f: Full, step: Step)
    ensures var f' := FullDo(g, f, step).0;
            f'.failures == (if step.call == RecordSuccess && f'.state == Closed then []
                            else if step.call == RecordFailure && f.state == Closed then f.failures + [step.now]
                            else f.failures)
  {
    hide CountSince, CooledDown, Last;
  }

  /** A failure opens a closed circuit exactly when, of all the failures since the last reset and
      itself, those no older than the window reach the threshold. */
  lemma OpensExactly(g: Config, before: seq<Step>, now: real)
    requires Monotone(before + [Step(RecordFailure, now)]) && Run(g, before).state == Closed
    ensures Run(g, before + [Step(RecordFailure, now)]).state == Open
        <==> CountSince(FailuresSinceReset(g, before) + [now], now - Seconds(g.windowSeconds)) >= g.failuresBeforeOpen
  {
    var steps := before + [Step(RecordFailure, now)];
    assert steps[..|steps| - 1] == before;
    MonotonePrefix(steps);
    FullFailures(g, before);
    StatesAgree(g, before);
    StatesAgree(g, steps);
    assert FullRun(g, steps) == FullDo(g, FullRun(g, before), Step(RecordFailure, now)).0;
    hide Run, FullRun, CountSince, FailuresSinceReset, Monotone;
  }

  // --- Refusing for the full cooldown -----------------------------------------------------

  predicate OpenSince(s: State, t: real)
  {
    s.state == Open && s.openedAt.Some? && s.openedAt.value >= t
  }

  /** After a failure that leaves the circuit open, every call attempted within the cooldown is refused and
      the circuit stays open; a failure reported meanwhile starts the cooldown again. */
  lemma RefusedForTheCooldown(g: Config, before: seq<Step>, failure: Step, after: seq<Step>, i: nat)
    requires Monotone(before + [failure] + after)
    requires failure.call == RecordFailure && Run(g, before + [failure]).state == Open
    requires forall k :: 0 <= k < |after| ==> after[k].now - failure.now < Seconds(g.cooldownSeconds)
    requires i < |after|
    ensures var steps := before + [failure] + after;
            && OpenSince(Run(g, steps), failure.now) && |Answers(g, steps)| == |steps|
            && (after[i].call == BeforeCall ==> Answers(g, steps)[|before| + 1 + i] == Refused)
  {
    var steps := before + [failure] + after;
    var at := |before| + 1 + i;
    assert steps[|before|] == failure && steps[|before|].now <= steps[at].now;
    StaysOpen(g, before, failure, after);
    AnswerAt(g, steps, at);
    assert steps[..at] == before + [failure] + after[..i] && steps[at] == after[i];
    assert Monotone(before + [failure] + after[..i]);
    StaysOpen(g, before, failure, after[..i]);
    var shown := steps[..at + 1];
    assert shown[..|shown| - 1] == steps[..at];
    hide Run, Answers, Monotone;
    LastStillOpen(g, shown, failure.now);
  }

  lemma {:induction false} StaysOpen(g: Config, before: seq<Step>, failure: Step, after: seq<Step>)
    requires Monotone(before + [failure] + after)
    requires failure.call == RecordFailure && Run(g, before + [failure]).state == Open
    requires forall k :: 0 <= k < |after| ==> after[k].now - failure.now < Seconds(g.cooldownSeconds)
    ensures OpenSince(Run(g, before + [failure] + after), failure.now)
    decreases |after|
  {
    var steps := before + [failure] + after;
    if after == [] {
      assert steps == before + [failure];
      assert steps[..|before|] == before;
    } else {
      var shorter := after[..|after| - 1];
      assert steps[..|steps| - 1] == before + [failure] + shorter;
      MonotonePrefix(steps);
      assert steps[|before|] == failure && steps[|before|].now <= steps[|steps| - 1].now;
      StaysOpen(g, before, failure, shorter);
      hide Run;
      LastStillOpen(g, steps, failure.now);
    }
  }

  lemma {:induction false} AnswerAt(g: Config, steps: seq<Step>, i: nat)
    requires i < |steps|
    ensures |Answers(g, steps)| == |steps|
    ensures Answers(g, steps)[i] == Do(g, Run(g, steps[..i]), steps[i]).1
    decreases |steps|
  {
    var before := steps[..|steps| - 1];
    if before != [] {
      AnswerAt(g, before, if i < |before| then i else 0);
    }
    if i < |before| {
      assert before[..i] == steps[..i];
    }
  }

  lemma LastStillOpen(g: Config, steps: seq<Step>, t: real)
    requires steps != [] && OpenSince(Run(g, steps[..|steps| - 1]), t)
    requires var now := steps[|steps| - 1].now; t <= now < t + Seconds(g.cooldownSeconds)
    ensures OpenSince(Run(g, steps), t)
    ensures steps[|steps| - 1].call == BeforeCall ==>
              Do(g, Run(g, steps[..|steps| - 1]), steps[|steps| - 1]).1 == Refused
  {
  }

  /** When the last failure of all was recorded. */
  function LastFailure(steps: seq<Step>): Option<real>
  {
    if steps == [] then None
    else if steps[|steps| - 1].call == RecordFailure then Some(steps[|steps| - 1].now)
    else LastFailure(steps[..|steps| - 1])
  }

  /** While the circuit is open, the cooldown runs from the last failure, whether it opened the circuit or was
      reported while it was open. */
  lemma {:induction false} OpenedByLastFailure(g: Config, steps: seq<Step>)
    ensures Run(g, steps).state == Open ==> LastFailure(steps).Some? && Run(g, steps).openedAt == LastFailure(steps)
    decreases |steps|
  {
    if steps != [] {
      OpenedByLastFailure(g, steps[..|steps| - 1]);
      hide Prune, Remember;
    }
  }

  /** A call that finds the circuit open is let through, and makes it half-open, exactly when the cooldown has passed
      since the last failure in the whole history. */
  lemma ProbedAfterTheCooldown(g: Config, before: seq<Step>, now: real)
    requires Run(g, before).state == Open
    ensures LastFailure(before).Some?
    ensures var step := Step(BeforeCall, now);
            var probed := now - LastFailure(before).value >= Seconds(g.cooldownSeconds);
            && Do(g, Run(g, before), step).1 == (if probed then Allowed else Refused)
            && Run(g, before + [step]).state == (if probed then HalfOpen else Open)
  {
    OpenedByLastFailure(g, before);
    RunAppend(g, before, Step(BeforeCall, now));
    hide Run, LastFailure, Remember;
  }

  // --- Closing only after a clean probe -----------------------------------------------------

  /** The calls since the circuit last became half-open. */
  function SinceHalfOpen(g: Config, steps: seq<Step>): seq<Step>
  {
    if steps == [] then []
    else
      var before := steps[..|steps| - 1];
      if Run(g, steps).state == HalfOpen && Run(g, before).state != HalfOpen then []
      else SinceHalfOpen(g, before) + [steps[|steps| - 1]]
  }

  function CountOf(steps: seq<Step>, call: Call): nat
  {
    if steps == [] then 0
    else CountOf(steps[..|steps| - 1], call) + (if steps[|steps| - 1].call == call then 1 else 0)
  }

  /** While half-open, the calls since then hold the counted successes, fewer than needed, and no failure. */
  predicate Probing(g: Config, s: State, since: seq<Step>)
  {
    s.state == HalfOpen ==>
      && s.halfOpenSuccesses == CountOf(since, RecordSuccess) < g.halfOpenTestCount
      && CountOf(since, RecordFailure) == 0
  }

  lemma ProbeStep(g: Config, s: State, since: seq<Step>, step: Step)
    requires ValidConfig(g) && Probing(g, s, since)
    ensures var s' := Do(g, s, step).0;
            Probing(g, s', if s'.state == HalfOpen && s.state != HalfOpen then [] else since + [step])
  {
    hide Prune, Remember, Seconds, CooledDown;
    assert (since + [step])[..|since|] == since;
  }

  lemma {:induction false} ProbeCounts(g: Config, steps: seq<Step>)
    requires ValidConfig(g)
    ensures Probing(g, Run(g, steps), SinceHalfOpen(g, steps))
    decreases |steps|
  {
    if steps != [] {
      var before := steps[..|steps| - 1];
      ProbeCounts(g, before);
      ProbeStep(g, Run(g, before), SinceHalfOpen(g, before), steps[|steps| - 1]);
      hide Do, Probing;
    }
  }

  /** The circuit closes at a call exactly when it is half-open and the call is the success that brings the
      successes since then to `half_open_test_count`, with no failure since then. */
  lemma ClosesExactly(g: Config, before: seq<Step>, step: Step)
    requires ValidConfig(g)
    ensures var since := SinceHalfOpen(g, before);
            Run(g, before).state != Closed && Run(g, before + [step]).state == Closed
            <==> Run(g, before).state == HalfOpen && step.call == RecordSuccess
                 && CountOf(since, RecordSuccess) == g.halfOpenTestCount - 1 && CountOf(since, RecordFailure) == 0
  {
    ProbeCounts(g, before);
    var steps := before + [step];
    assert steps[..|before|] == before;
    hide Prune, Remember, CountOf, SinceHalfOpen;
  }

  // --- No flapping --------------------------------------------------------------------------

  /** How often the circuit became half-open. */
  function Probes(g: Config, steps: seq<Step>): nat
  {
    if steps == [] then 0
    else
      var before := steps[..|steps| - 1];
      Probes(g, before) + (if Run(g, steps).state == HalfOpen && Run(g, before).state != HalfOpen then 1 else 0)
  }

  /** The time that this many cooldowns take. */
  function CooldownTime(g: Config, probes: nat): real
  {
    if probes == 0 then 0.0 else CooldownTime(g, probes - 1) + Seconds(g.cooldownSeconds)
  }

  lemma {:induction false} CooldownTimeIs(g: Config, probes: nat)
    ensures CooldownTime(g, probes) == (probes * g.cooldownSeconds) as real
  {
    if probes > 0 {
      CooldownTimeIs(g, probes - 1);
      assert probes * g.cooldownSeconds == (probes - 1) * g.cooldownSeconds + g.cooldownSeconds;
    }
  }

  /** The cooldowns the probes have waited for fit into the time up to now, or up to the last opening;
      a cycle of opening, probing and closing changes the state three times. */
  predicate Paced(g: Config, s: State, probes: nat, start: real, now: real)
  {
    match s.state
    case Closed => CooldownTime(g, probes) <= now - start && s.stateChangeCount <= 3 * probes
    case HalfOpen => CooldownTime(g, probes) <= now - start && s.stateChangeCount <= 3 * probes - 1
    case Open =>
      && s.openedAt.Some? && s.openedAt.value <= now
      && CooldownTime(g, probes) <= s.openedAt.value - start && s.stateChangeCount <= 3 * probes + 1
  }

  lemma StepPaced(g: Config, s: State, probes: nat, start: real, last: real, step: Step)
    requires Paced(g, s, probes, start, last) && last <= step.now
    ensures var s' := Do(g, s, step).0;
            Paced(g, s', probes + (if s'.state == HalfOpen && s.state != HalfOpen then 1 else 0), start, step.now)
  {
    hide Prune, Remember, Seconds;
  }

  lemma {:induction false} RunPaced(g: Config, steps: seq<Step>)
    requires Monotone(steps) && steps != []
    ensures Paced(g, Run(g, steps), Probes(g, steps), steps[0].now, steps[|steps| - 1].now)
    decreases |steps|
  {
    var before, step := steps[..|steps| - 1], steps[|steps| - 1];
    MonotonePrefix(steps);
    if before == [] {
      StepPaced(g, Run(g, before), 0, step.now, step.now, step);
    } else {
      RunPaced(g, before);
      StepPaced(g, Run(g, before), Probes(g, before), steps[0].now, before[|before| - 1].now, step);
    }
    hide Paced, Do;
  }

  /** The breaker cannot flap faster than its cooldown: the times it became half-open, multiplied by the
      cooldown, fit into the time that has passed, and there are at most three changes of state for
      each of them, and one more. */
  lemma CannotFlap(g: Config, steps: seq<Step>)
    requires Monotone(steps) && steps != []
    ensures (Probes(g, steps) * g.cooldownSeconds) as real <= steps[|steps| - 1].now - steps[0].now
    ensures Run(g, steps).stateChangeCount <= 3 * Probes(g, steps) + 1
  {
    RunPaced(g, steps);
    CooldownTimeIs(g, Probes(g, steps));
    hide Run, Probes, CooldownTime;
  }

  // --- What is drained ------------------------------------------------------------------------

  predicate ChangesAt(g: Config, steps: seq<Step>, i: nat)
    requires i < |steps|
  {
    Run(g, steps[..i + 1]).state != Run(g, steps[..i]).state
  }

  /** The calls since the last drain at which the state changed, by position. */
  function ChangesSinceDrain(g: Config, steps: seq<Step>): seq<nat>
  {
    if steps == [] || steps[|steps| - 1].call == DrainEvents then []
    else
      ChangesSinceDrain(g, steps[..|steps| - 1]) + (if ChangesAt(g, steps, |steps| - 1) then [|steps| - 1] else [])
  }

  /** The event reports the change of state at one call of the run. */
  predicate ReportsChange(g: Config, steps: seq<Step>, i: nat, e: Event)
  {
    && i < |steps|
    && var after := Run(g, steps[..i + 1]);
    && e.state == after.state && e.stateChangeCount == after.stateChangeCount && e.timestamp == steps[i].now
    && e.failuresBeforeOpen == g.failuresBeforeOpen && e.cooldownSeconds == g.cooldownSeconds
    && e.name == (match after.state
                  case Open => "circuit_breaker_opened"
                  case HalfOpen => "circuit_breaker_half_open"
                  case Closed => "circuit_breaker_closed")
  }

  /** The events report the last changes, at most 1000 of them, in their order. */
  predicate ReportsLast(g: Config, steps: seq<Step>, changes: seq<nat>, events: seq<Event>)
  {
    && |events| == (if |changes| <= 1000 then |changes| else 1000)
    && forall k :: 0 <= k < |events| ==> ReportsChange(g, steps, changes[|changes| - |events| + k], events[k])
  }

  lemma EventsStep(g: Config, s: State, step: Step)
    ensures var s' := Do(g, s, step).0;
            if step.call == DrainEvents then s'.events == []
            else if s'.state == s.state then s'.events == s.events
            else s'.events == Remember(s.events, EventOf(g, s'.state, step.now, s'.stateChangeCount))
  {
    hide Prune, Remember, EventOf, CooledDown;
  }

  lemma ReportsLater(g: Config, steps: seq<Step>, step: Step, changes: seq<nat>, events: seq<Event>)
    requires ReportsLast(g, steps, changes, events)
    ensures ReportsLast(g, steps + [step], changes, events)
  {
    hide Run;
    var longer := steps + [step];
    forall k | 0 <= k < |events| ensures ReportsChange(g, longer, changes[|changes| - |events| + k], events[k]) {
      var i := changes[|changes| - |events| + k];
      assert ReportsChange(g, steps, i, events[k]);
      assert longer[..i + 1] == steps[..i + 1] && longer[i] == steps[i];
    }
  }

  lemma ReportsOneMore(g: Config, steps: seq<Step>, changes: seq<nat>, events: seq<Event>, i: nat, e: Event)
    requires ReportsLast(g, steps, changes, events) && ReportsChange(g, steps, i, e)
    ensures ReportsLast(g, steps, changes + [i], Remember(events, e))
  {
    hide ReportsChange;
    var more, kept := changes + [i], Remember(events, e);
    forall k | 0 <= k < |kept| ensures ReportsChange(g, steps, more[|more| - |kept| + k], kept[k]) {
      if k < |kept| - 1 {
        assert kept[k] == events[|events| - |kept| + 1 + k];
      }
    }
  }

  lemma NewEventReports(g: Config, steps: seq<Step>)
    requires steps != []
    ensures var after, last := Run(g, steps), |steps| - 1;
            ReportsChange(g, steps, last, EventOf(g, after.state, steps[last].now, after.stateChangeCount))
  {
    assert steps[..|steps|] == steps;
    hide Run;
  }

  lemma NothingPending(g: Config, steps: seq<Step>)
    ensures ReportsLast(g, steps, [], [])
  {
  }

  /** After every run, the pending events report the last changes of state since the last drain. */
  lemma {:induction false} PendingExactly(g: Config, steps: seq<Step>)
    ensures ReportsLast(g, steps, ChangesSinceDrain(g, steps), Run(g, steps).events)
    decreases |steps|
  {
    hide Do, ReportsLast, ReportsChange, Remember, EventOf;
    if steps == [] {
      NothingPending(g, steps);
    } else {
      var before, step := steps[..|steps| - 1], steps[|steps| - 1];
      assert steps == before + [step] && steps[..|steps|] == steps;
      PendingExactly(g, before);
      EventsStep(g, Run(g, before), step);
      if step.call == DrainEvents {
        NothingPending(g, steps);
      } else {
        var changes, events, after := ChangesSinceDrain(g, before), Run(g, before).events, Run(g, steps);
        ReportsLater(g, before, step, changes, events);
        NewEventReports(g, steps);
        ReportsOneMore(g, steps, changes, events, |before|, EventOf(g, after.state, step.now, after.stateChangeCount));
        assert changes + [] == changes;
        assert ChangesAt(g, steps, |before|) <==> after.state != Run(g, before).state;
      }
    }
  }

  /** Every drain of every run yields the changes of state since the drain before it, the last 1000 of them: each with
      the state and the count that its call left, that call's time and the configured thresholds. */
  lemma DrainedExactly(g: Config, steps: seq<Step>, d: nat)
    requires d < |steps| && steps[d].call == DrainEvents
    ensures |Answers(g, steps)| == |steps| && Answers(g, steps)[d].Drained?
    ensures ReportsLast(g, steps[..d], ChangesSinceDrain(g, steps[..d]), Answers(g, steps)[d].events)
  {
    AnswerAt(g, steps, d);
    PendingExactly(g, steps[..d]);
    hide ReportsLast, Run, Answers;
  }

  /** How often the state has changed. */
  function Changes(g: Config, steps: seq<Step>): nat
  {
    if steps == [] then 0
    else Changes(g, steps[..|steps| - 1]) + (if ChangesAt(g, steps, |steps| - 1) then 1 else 0)
  }

  lemma {:induction false} CountExactly(g: Config, steps: seq<Step>)
    ensures Run(g, steps).stateChangeCount == Changes(g, steps)
    decreases |steps|
  {
    if steps != [] {
      assert steps[..|steps|] == steps;
      CountExactly(g, steps[..|steps| - 1]);
      hide Prune, Remember, EventOf, CooledDown;
    }
  }
}
