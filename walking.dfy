/**
  The work loop of the Woodcutter bot as a trace of events: the character
  walks from point A to point B in four steps, reports the walk, teleports
  back to A, and starts over while running time is left.

  The outside world enters through two oracles:
  - `passed(k)` is what the k-th call of status_check_passed returns;
  - `elapsed(t)` is time.time() - start_time when the outer loop condition
    is evaluated for the t-th time (t counts from 0, and equals the number
    of completed walks at that point).
 */
module Walking {
  import opened Events

  /** Steps from A to B. */
  const StepsToB: nat := 4
  /** Seconds slept in one outer iteration: 4 steps of 2 s, then 3 sleeps of 2 s. */
  const SleepPerIteration: nat := 14
  /** Status checks in one completed outer iteration: one per step, one at the end. */
  const ChecksPerIteration: nat := 5

  /** The clock readings the sleeps force: before the t-th evaluation of the
      loop condition the bot has slept t whole iterations. */
  ghost predicate ClockAdvances(elapsed: nat -> real) {
    forall t: nat :: elapsed(t) >= (SleepPerIteration * t) as real
  }

  /** The time budget in seconds, running_time * 60. */
  function EndTime(runningTime: int): int {
    runningTime * 60
  }

  /** The outer loop condition at its t-th evaluation. */
  predicate TimeLeft(runningTime: int, elapsed: nat -> real, t: nat) {
    elapsed(t) < EndTime(runningTime) as real
  }

  /** Seconds of budget not yet slept through after t walks, the loop's variant. */
  function Budget(runningTime: int, t: nat): nat {
    if SleepPerIteration * t < EndTime(runningTime) then EndTime(runningTime) - SleepPerIteration * t else 0
  }

  /** What the bot logs after a step, given the steps still remaining. */
  function StepMessage(remaining: nat): Message
    requires remaining < StepsToB
  {
    if remaining == 0 then AtPointB
    else if remaining == 1 then VeryCloseToB
    else if remaining == 2 then StillWalking
    else WalkingToB
  }

  /** Status checks k .. k+n-1 all pass. */
  predicate AllPass(passed: nat -> bool, k: nat, n: nat) {
    forall j :: k <= j < k + n ==> passed(j)
  }

  /** The inner loop with `steps` steps remaining and the next check being the k-th:
      each step is a status check and, when it passes, the step's log line. */
  function Walk(passed: nat -> bool, k: nat, steps: nat): seq<Event>
    requires steps <= StepsToB
    decreases steps
  {
    if steps == 0 then []
    else if !passed(k) then [StatusChecked(false)]
    else [StatusChecked(true), Logged(StepMessage(steps - 1))] + Walk(passed, k + 1, steps - 1)
  }

  /** A step whose status check passes: the check, the step's line, then the rest of the walk. */
  lemma WalkUnfold(passed: nat -> bool, k: nat, steps: nat)
    requires 0 < steps <= StepsToB && passed(k)
    ensures Walk(passed, k, steps) == [StatusChecked(true), Logged(StepMessage(steps - 1))] + Walk(passed, k + 1, steps - 1)
  {
  }

  /** A passing check and its step line, logged after `before`, are the head of
      the walk: what remains of the walk then completes it. */
  lemma WalkStepTrace(before: seq<Event>, passed: nat -> bool, k: nat, steps: nat)
    requires 0 < steps <= StepsToB && passed(k)
    ensures before + [StatusChecked(true)] + [Logged(StepMessage(steps - 1))] + Walk(passed, k + 1, steps - 1)
         == before + Walk(passed, k, steps)
  {
    WalkUnfold(passed, k, steps);
  }

  /** The t-th outer iteration (t walks already done), once its loop condition held. */
  function Iteration(passed: nat -> bool, t: nat): seq<Event> {
    var k := ChecksPerIteration * t;
    [Logged(AtPointA)] + Walk(passed, k, StepsToB) +
    if AllPass(passed, k, StepsToB) then
      [Logged(Walked(t + 1)), ProgressUpdated(Fraction), Logged(TeleportingToA), StatusChecked(passed(k + StepsToB))]
    else []
  }

  /** The end of a run whose time is up. */
  function Completion(): seq<Event> {
    [ProgressUpdated(Full), Logged(Completed), StatusSet(Stopped)]
  }

  /** Everything main_loop emits from the t-th evaluation of its loop condition on. */
  function LoopTrace(runningTime: int, elapsed: nat -> real, passed: nat -> bool, t: nat): seq<Event>
    requires ClockAdvances(elapsed)
    decreases Budget(runningTime, t)
  {
    if !TimeLeft(runningTime, elapsed, t) then Completion()
    else if AllPass(passed, ChecksPerIteration * t, ChecksPerIteration) then
      Iteration(passed, t) + LoopTrace(runningTime, elapsed, passed, t + 1)
    else Iteration(passed, t)
  }

  /** Once the time is up the run ends with the completion sequence. */
  lemma LoopTraceEnd(runningTime: int, elapsed: nat -> real, passed: nat -> bool, t: nat)
    requires ClockAdvances(elapsed)
    requires !TimeLeft(runningTime, elapsed, t)
    ensures LoopTrace(runningTime, elapsed, passed, t) == Completion()
  {
  }

  /** An iteration with a failed check is the last thing the run emits. */
  lemma LoopTraceStop(runningTime: int, elapsed: nat -> real, passed: nat -> bool, t: nat)
    requires ClockAdvances(elapsed)
    requires TimeLeft(runningTime, elapsed, t) && !AllPass(passed, ChecksPerIteration * t, ChecksPerIteration)
    ensures LoopTrace(runningTime, elapsed, passed, t) == Iteration(passed, t)
  {
  }

  /** An iteration whose checks all pass is followed by the rest of the run. */
  lemma LoopTraceMore(runningTime: int, elapsed: nat -> real, passed: nat -> bool, t: nat)
    requires ClockAdvances(elapsed)
    requires TimeLeft(runningTime, elapsed, t) && AllPass(passed, ChecksPerIteration * t, ChecksPerIteration)
    ensures LoopTrace(runningTime, elapsed, passed, t) == Iteration(passed, t) + LoopTrace(runningTime, elapsed, passed, t + 1)
  {
  }

  /** main_loop's bookkeeping for one iteration: what it has emitted so far
      (`done`) followed by what LoopTrace says is still to come adds up to the
      whole run, before and after the iteration. */
  lemma IterationStep(runningTime: int, elapsed: nat -> real, passed: nat -> bool, t: nat, done: seq<Event>, whole: seq<Event>)
    requires ClockAdvances(elapsed)
    requires TimeLeft(runningTime, elapsed, t)
    requires done + LoopTrace(runningTime, elapsed, passed, t) == whole
    ensures AllPass(passed, ChecksPerIteration * t, ChecksPerIteration) ==>
      (done + Iteration(passed, t)) + LoopTrace(runningTime, elapsed, passed, t + 1) == whole
    ensures !AllPass(passed, ChecksPerIteration * t, ChecksPerIteration) ==> done + Iteration(passed, t) == whole
  {
    if AllPass(passed, ChecksPerIteration * t, ChecksPerIteration) {
      LoopTraceMore(runningTime, elapsed, passed, t);
    } else {
      LoopTraceStop(runningTime, elapsed, passed, t);
    }
  }

  /** Running time left at the t-th evaluation means t walks have not yet used up the budget. */
  lemma BudgetDecreases(runningTime: int, elapsed: nat -> real, t: nat)
    requires ClockAdvances(elapsed) && TimeLeft(runningTime, elapsed, t)
    ensures Budget(runningTime, t + 1) < Budget(runningTime, t)
  {
    assert elapsed(t) >= (SleepPerIteration * t) as real;
  }

  /** Five checks pass exactly when the first four do and the fifth does. */
  lemma AllPassNext(passed: nat -> bool, k: nat, n: nat)
    ensures AllPass(passed, k, n + 1) <==> AllPass(passed, k, n) && passed(k + n)
  {
  }

  /** A completed iteration, piece by piece. */
  lemma IterationCompleted(passed: nat -> bool, t: nat, done: seq<Event>)
    requires AllPass(passed, ChecksPerIteration * t, StepsToB)
    ensures done + Iteration(passed, t) == done + [Logged(AtPointA)] + Walk(passed, ChecksPerIteration * t, StepsToB) + WalkEnd(passed, t)
  {
    IterationParts(passed, t);
  }

  /** An iteration whose walk was cut short by a failed check. */
  lemma IterationCutShort(passed: nat -> bool, t: nat, done: seq<Event>)
    requires !AllPass(passed, ChecksPerIteration * t, StepsToB)
    ensures !AllPass(passed, ChecksPerIteration * t, ChecksPerIteration)
    ensures done + Iteration(passed, t) == done + [Logged(AtPointA)] + Walk(passed, ChecksPerIteration * t, StepsToB)
  {
    IterationParts(passed, t);
  }

  /** The walk count an event reports, if it is a walk report. */
  function WalkCount(e: Event): seq<nat> {
    if e.Logged? && e.msg.Walked? then [e.msg.times] else []
  }

  /** The walk counts the bot reports, in trace order. */
  function WalkCounts(trace: seq<Event>): seq<nat>
    decreases |trace|
  {
    if |trace| == 0 then [] else WalkCount(trace[0]) + WalkCounts(trace[1..])
  }

  /** Events the inner loop may emit. */
  predicate IsStepEvent(e: Event) {
    e.StatusChecked? || (e.Logged? && (e.msg.WalkingToB? || e.msg.StillWalking? || e.msg.VeryCloseToB? || e.msg.AtPointB?))
  }

  // ----- Properties of main_loop -----

  /** A walk whose four checks pass is exactly four steps, each preceded by a
      passing status check, with the four step lines in order. */
  lemma FullWalk(passed: nat -> bool, k: nat)
    requires AllPass(passed, k, StepsToB)
    ensures Walk(passed, k, StepsToB) ==
      [ StatusChecked(true), Logged(WalkingToB),
        StatusChecked(true), Logged(StillWalking),
        StatusChecked(true), Logged(VeryCloseToB),
        StatusChecked(true), Logged(AtPointB) ]
  {
    assert passed(k) && passed(k + 1) && passed(k + 2) && passed(k + 3);
    assert Walk(passed, k + 3, 1) == [StatusChecked(true), Logged(AtPointB)];
  }

  /** Only status checks and step lines, and every step line directly follows a passing check. */
  predicate CheckedSteps(w: seq<Event>) {
    (forall i :: 0 <= i < |w| ==> IsStepEvent(w[i])) &&
    (|w| > 0 ==> !w[0].Logged?) &&
    (forall i :: 0 < i < |w| && w[i].Logged? ==> w[i - 1] == StatusChecked(true))
  }

  /** The events hold a failed check exactly when not all checks passed, and
      then the failed check is the last event and the only one. */
  predicate StopsAtFailure(w: seq<Event>, allPassed: bool) {
    (allPassed <==> StatusChecked(false) !in w) &&
    (!allPassed ==> |w| > 0 && w[|w| - 1] == StatusChecked(false) && StatusChecked(false) !in w[..|w| - 1])
  }

  lemma CheckedStepsCons(m: Message, rest: seq<Event>)
    requires IsStepEvent(Logged(m)) && CheckedSteps(rest)
    ensures CheckedSteps([StatusChecked(true), Logged(m)] + rest)
  {
    var w := [StatusChecked(true), Logged(m)] + rest;
    forall i | 2 <= i < |w|
      ensures w[i] == rest[i - 2]
    {
    }
    if |rest| > 0 {
      assert w[2] == rest[0];
    }
    forall i | 3 <= i < |w| && w[i].Logged?
      ensures w[i - 1] == StatusChecked(true)
    {
      assert w[i - 1] == rest[i - 3];
    }
  }

  lemma StopsAtFailureCons(m: Message, rest: seq<Event>, allPassed: bool)
    requires StopsAtFailure(rest, allPassed)
    ensures StopsAtFailure([StatusChecked(true), Logged(m)] + rest, allPassed)
  {
    var w := [StatusChecked(true), Logged(m)] + rest;
    assert StatusChecked(false) in w <==> StatusChecked(false) in rest by {
      if StatusChecked(false) in w {
        var i :| 0 <= i < |w| && w[i] == StatusChecked(false);
        assert i >= 2 && rest[i - 2] == w[i];
      }
      if StatusChecked(false) in rest {
        var i :| 0 <= i < |rest| && rest[i] == StatusChecked(false);
        assert w[i + 2] == rest[i];
      }
    }
    if |rest| > 0 {
      assert w[|w| - 1] == rest[|rest| - 1];
    }
  }

  /** The inner loop only checks status and logs step lines, and every step
      line directly follows a passing check. */
  lemma {:induction false} WalkSteps(passed: nat -> bool, k: nat, steps: nat)
    requires steps <= StepsToB
    ensures CheckedSteps(Walk(passed, k, steps))
    decreases steps
  {
    if steps > 0 && passed(k) {
      WalkSteps(passed, k + 1, steps - 1);
      CheckedStepsCons(StepMessage(steps - 1), Walk(passed, k + 1, steps - 1));
    }
  }

  /** The inner loop ends in a failed check exactly when one of its checks
      fails, and holds no failed check otherwise. */
  lemma {:induction false} WalkFailure(passed: nat -> bool, k: nat, steps: nat)
    requires steps <= StepsToB
    ensures StopsAtFailure(Walk(passed, k, steps), AllPass(passed, k, steps))
    decreases steps
  {
    if steps > 0 && passed(k) {
      WalkFailure(passed, k + 1, steps - 1);
      assert AllPass(passed, k, steps) == AllPass(passed, k + 1, steps - 1) by {
        if !AllPass(passed, k, steps) {
          var j :| k <= j < k + steps && !passed(j);
          assert k + 1 <= j;
        }
      }
      StopsAtFailureCons(StepMessage(steps - 1), Walk(passed, k + 1, steps - 1), AllPass(passed, k, steps));
    }
  }

  lemma {:induction false} WalkCountsAppend(a: seq<Event>, b: seq<Event>)
    ensures WalkCounts(a + b) == WalkCounts(a) + WalkCounts(b)
    decreases |a|
  {
    if |a| > 0 {
      WalkCountsAppend(a[1..], b);
      var ab := a + b;
      assert ab[0] == a[0];
      assert ab[1..] == a[1..] + b;
    } else {
      assert a + b == b;
    }
  }

  /** A trace without walk reports has no walk counts. */
  lemma {:induction false} WalkCountsNone(w: seq<Event>)
    requires forall i :: 0 <= i < |w| ==> !(w[i].Logged? && w[i].msg.Walked?)
    ensures WalkCounts(w) == []
    decreases |w|
  {
    if |w| > 0 {
      WalkCountsNone(w[1..]);
    }
  }

  /** The events after a completed walk: the report, progress, the teleport and the last check. */
  function WalkEnd(passed: nat -> bool, t: nat): seq<Event> {
    [Logged(Walked(t + 1)), ProgressUpdated(Fraction), Logged(TeleportingToA), StatusChecked(passed(ChecksPerIteration * t + StepsToB))]
  }

  lemma IterationParts(passed: nat -> bool, t: nat)
    ensures Iteration(passed, t) == [Logged(AtPointA)] + Walk(passed, ChecksPerIteration * t, StepsToB) +
      (if AllPass(passed, ChecksPerIteration * t, StepsToB) then WalkEnd(passed, t) else [])
  {
  }

  /** One outer iteration reports the walk number t + 1 when its walk completes, and nothing otherwise. */
  lemma IterationCounts(passed: nat -> bool, t: nat)
    ensures WalkCounts(Iteration(passed, t)) == if AllPass(passed, ChecksPerIteration * t, StepsToB) then [t + 1] else []
  {
    var k := ChecksPerIteration * t;
    var w := Walk(passed, k, StepsToB);
    var tail := if AllPass(passed, k, StepsToB) then WalkEnd(passed, t) else [];
    IterationParts(passed, t);
    WalkSteps(passed, k, StepsToB);
    WalkCountsNone(w);
    WalkCountsAppend([Logged(AtPointA)], w);
    WalkCountsAppend([Logged(AtPointA)] + w, tail);
    WalkCountsNone([Logged(AtPointA)]);
    if AllPass(passed, k, StepsToB) {
      WalkCountsNone(tail[1..]);
      assert WalkCounts(tail) == [t + 1];
    }
  }

  /** An event that neither completes a run nor changes the status. */
  predicate EndsNothing(e: Event) {
    e != ProgressUpdated(Full) && e != Logged(Completed) && !e.StatusSet?
  }

  /** One outer iteration emits neither the final progress, nor the completion
      line, nor any status change; it ends in a failed check exactly when one
      of its five checks fails. */
  lemma IterationEnds(passed: nat -> bool, t: nat)
    ensures ProgressUpdated(Full) !in Iteration(passed, t)
    ensures StatusSet(Stopped) !in Iteration(passed, t)
    ensures Logged(Completed) !in Iteration(passed, t)
    ensures forall e :: e in Iteration(passed, t) ==> !e.StatusSet?
    ensures StopsAtFailure(Iteration(passed, t), AllPass(passed, ChecksPerIteration * t, ChecksPerIteration))
  {
    IterationQuiet(passed, t);
    IterationStops(passed, t);
  }

  lemma IterationQuiet(passed: nat -> bool, t: nat)
    ensures forall e :: e in Iteration(passed, t) ==> EndsNothing(e)
  {
    var k := ChecksPerIteration * t;
    var w := Walk(passed, k, StepsToB);
    IterationParts(passed, t);
    WalkSteps(passed, k, StepsToB);
    forall e | e in Iteration(passed, t)
      ensures EndsNothing(e)
    {
      if e in w {
        var i :| 0 <= i < |w| && w[i] == e;
        assert IsStepEvent(w[i]);
      }
    }
  }

  lemma IterationStops(passed: nat -> bool, t: nat)
    ensures StopsAtFailure(Iteration(passed, t), AllPass(passed, ChecksPerIteration * t, ChecksPerIteration))
  {
    var k := ChecksPerIteration * t;
    var w := Walk(passed, k, StepsToB);
    var it := Iteration(passed, t);
    IterationParts(passed, t);
    WalkFailure(passed, k, StepsToB);
    assert AllPass(passed, k, ChecksPerIteration) <==> AllPass(passed, k, StepsToB) && passed(k + StepsToB);
    if AllPass(passed, k, StepsToB) {
      var end := WalkEnd(passed, t);
      assert it == [Logged(AtPointA)] + w + end;
      assert it[..|it| - 1] == [Logged(AtPointA)] + w + end[..3];
      assert it[|it| - 1] == StatusChecked(passed(k + StepsToB));
    } else {
      assert it == [Logged(AtPointA)] + w;
      assert it[..|it| - 1] == [Logged(AtPointA)] + w[..|w| - 1];
    }
  }

  /** With no running time left (running_time <= 0 in particular) the loop body
      never runs: the run is at once the completion sequence. */
  lemma NoTimeNoWalk(runningTime: int, elapsed: nat -> real, passed: nat -> bool)
    requires ClockAdvances(elapsed)
    requires runningTime <= 0
    ensures LoopTrace(runningTime, elapsed, passed, 0) == Completion()
  {
    assert elapsed(0) >= 0.0;
  }

  /** How a run can end. Either some status check failed: the failed check is
      the last event and the only failed one, and neither the final progress,
      the completion line nor the STOPPED status was emitted; or no check
      failed: the run ends with progress 1, the completion line and STOPPED, in
      that order, and emits none of those earlier. */
  predicate EndsProperly(trace: seq<Event>) {
    (StatusChecked(false) in trace ==>
      trace[|trace| - 1] == StatusChecked(false) && StatusChecked(false) !in trace[..|trace| - 1] &&
      ProgressUpdated(Full) !in trace && Logged(Completed) !in trace &&
      StatusSet(Stopped) !in trace) &&
    (StatusChecked(false) !in trace ==>
      |trace| >= 3 && trace[|trace| - 3..] == Completion() &&
      ProgressUpdated(Full) !in trace[..|trace| - 3] && Logged(Completed) !in trace[..|trace| - 3] &&
      StatusSet(Stopped) !in trace[..|trace| - 3])
  }

  /** Events that end nothing, put in front of a properly ending trace, keep it properly ending. */
  lemma EndsProperlyPrepend(front: seq<Event>, rest: seq<Event>)
    requires StatusChecked(false) !in front && ProgressUpdated(Full) !in front && Logged(Completed) !in front
    requires StatusSet(Stopped) !in front
    requires EndsProperly(rest)
    ensures EndsProperly(front + rest)
  {
    var trace := front + rest;
    if StatusChecked(false) !in trace {
      assert trace[..|trace| - 3] == front + rest[..|rest| - 3];
      assert trace[|trace| - 3..] == rest[|rest| - 3..];
    }
  }

  /** How a run ends, from the t-th evaluation of the loop condition on: stopped
      right after a failed status check, or completed with progress 1, the
      completion line and STOPPED (see EndsProperly). */
  lemma {:induction false} Outcomes(runningTime: int, elapsed: nat -> real, passed: nat -> bool, t: nat)
    requires ClockAdvances(elapsed)
    ensures EndsProperly(LoopTrace(runningTime, elapsed, passed, t))
    decreases Budget(runningTime, t)
  {
    if !TimeLeft(runningTime, elapsed, t) {
      OutcomesEnd(runningTime, elapsed, passed, t);
    } else if AllPass(passed, ChecksPerIteration * t, ChecksPerIteration) {
      BudgetDecreases(runningTime, elapsed, t);
      Outcomes(runningTime, elapsed, passed, t + 1);
      OutcomesStep(runningTime, elapsed, passed, t);
    } else {
      OutcomesStop(runningTime, elapsed, passed, t);
    }
  }

  lemma OutcomesEnd(runningTime: int, elapsed: nat -> real, passed: nat -> bool, t: nat)
    requires ClockAdvances(elapsed) && !TimeLeft(runningTime, elapsed, t)
    ensures EndsProperly(LoopTrace(runningTime, elapsed, passed, t))
  {
    LoopTraceEnd(runningTime, elapsed, passed, t);
    assert Completion()[..0] == [];
  }

  lemma OutcomesStop(runningTime: int, elapsed: nat -> real, passed: nat -> bool, t: nat)
    requires ClockAdvances(elapsed)
    requires TimeLeft(runningTime, elapsed, t) && !AllPass(passed, ChecksPerIteration * t, ChecksPerIteration)
    ensures EndsProperly(LoopTrace(runningTime, elapsed, passed, t))
  {
    LoopTraceStop(runningTime, elapsed, passed, t);
    IterationEnds(passed, t);
  }

  lemma OutcomesStep(runningTime: int, elapsed: nat -> real, passed: nat -> bool, t: nat)
    requires ClockAdvances(elapsed)
    requires TimeLeft(runningTime, elapsed, t) && AllPass(passed, ChecksPerIteration * t, ChecksPerIteration)
    requires EndsProperly(LoopTrace(runningTime, elapsed, passed, t + 1))
    ensures EndsProperly(LoopTrace(runningTime, elapsed, passed, t))
  {
    LoopTraceMore(runningTime, elapsed, passed, t);
    IterationEnds(passed, t);
    EndsProperlyPrepend(Iteration(passed, t), LoopTrace(runningTime, elapsed, passed, t + 1));
  }

  /** Walk counts t+1, t+2, ... without gaps, each walk started while running time was left. */
  predicate NumberedFrom(counts: seq<nat>, runningTime: int, elapsed: nat -> real, t: nat) {
    forall i :: 0 <= i < |counts| ==> counts[i] == t + 1 + i && TimeLeft(runningTime, elapsed, t + i)
  }

  lemma NumberedCons(later: seq<nat>, runningTime: int, elapsed: nat -> real, t: nat)
    requires TimeLeft(runningTime, elapsed, t) && NumberedFrom(later, runningTime, elapsed, t + 1)
    ensures NumberedFrom([t + 1] + later, runningTime, elapsed, t)
  {
    var counts := [t + 1] + later;
    forall i | 0 <= i < |counts|
      ensures counts[i] == t + 1 + i && TimeLeft(runningTime, elapsed, t + i)
    {
      if i == 0 {
        assert counts[0] == t + 1;
      } else {
        var j := i - 1;
        assert counts[i] == later[j];
        assert later[j] == t + 1 + 1 + j && TimeLeft(runningTime, elapsed, t + 1 + j);
        assert t + 1 + j == t + i;
      }
    }
    assert NumberedFrom(counts, runningTime, elapsed, t);
  }

  /** The walks are reported numbered t+1, t+2, ... without gaps (times_walked
      grows by exactly one per completed iteration), and each of them was
      started while running time was left. */
  lemma {:induction false} WalksNumbered(runningTime: int, elapsed: nat -> real, passed: nat -> bool, t: nat)
    requires ClockAdvances(elapsed)
    ensures NumberedFrom(WalkCounts(LoopTrace(runningTime, elapsed, passed, t)), runningTime, elapsed, t)
    decreases Budget(runningTime, t)
  {
    if !TimeLeft(runningTime, elapsed, t) {
      NoWalksAtEnd(runningTime, elapsed, passed, t);
    } else if AllPass(passed, ChecksPerIteration * t, ChecksPerIteration) {
      BudgetDecreases(runningTime, elapsed, t);
      WalksNumbered(runningTime, elapsed, passed, t + 1);
      WalksNumberedStep(runningTime, elapsed, passed, t);
    } else {
      WalksNumberedStop(runningTime, elapsed, passed, t);
    }
  }

  lemma NoWalksAtEnd(runningTime: int, elapsed: nat -> real, passed: nat -> bool, t: nat)
    requires ClockAdvances(elapsed) && !TimeLeft(runningTime, elapsed, t)
    ensures WalkCounts(LoopTrace(runningTime, elapsed, passed, t)) == []
  {
    LoopTraceEnd(runningTime, elapsed, passed, t);
    WalkCountsNone(Completion());
  }

  lemma WalksNumberedStep(runningTime: int, elapsed: nat -> real, passed: nat -> bool, t: nat)
    requires ClockAdvances(elapsed)
    requires TimeLeft(runningTime, elapsed, t) && AllPass(passed, ChecksPerIteration * t, ChecksPerIteration)
    requires NumberedFrom(WalkCounts(LoopTrace(runningTime, elapsed, passed, t + 1)), runningTime, elapsed, t + 1)
    ensures NumberedFrom(WalkCounts(LoopTrace(runningTime, elapsed, passed, t)), runningTime, elapsed, t)
  {
    LoopTraceStep(runningTime, elapsed, passed, t);
    NumberedCons(WalkCounts(LoopTrace(runningTime, elapsed, passed, t + 1)), runningTime, elapsed, t);
  }

  lemma WalksNumberedStop(runningTime: int, elapsed: nat -> real, passed: nat -> bool, t: nat)
    requires ClockAdvances(elapsed)
    requires TimeLeft(runningTime, elapsed, t) && !AllPass(passed, ChecksPerIteration * t, ChecksPerIteration)
    ensures NumberedFrom(WalkCounts(LoopTrace(runningTime, elapsed, passed, t)), runningTime, elapsed, t)
  {
    LoopTraceStop(runningTime, elapsed, passed, t);
    IterationCounts(passed, t);
  }

  /** One completed iteration followed by the rest of the run. */
  lemma LoopTraceStep(runningTime: int, elapsed: nat -> real, passed: nat -> bool, t: nat)
    requires ClockAdvances(elapsed)
    requires TimeLeft(runningTime, elapsed, t) && AllPass(passed, ChecksPerIteration * t, ChecksPerIteration)
    ensures WalkCounts(LoopTrace(runningTime, elapsed, passed, t)) == [t + 1] + WalkCounts(LoopTrace(runningTime, elapsed, passed, t + 1))
    ensures StatusChecked(false) in LoopTrace(runningTime, elapsed, passed, t) <==> StatusChecked(false) in LoopTrace(runningTime, elapsed, passed, t + 1)
  {
    var it := Iteration(passed, t);
    var rest := LoopTrace(runningTime, elapsed, passed, t + 1);
    LoopTraceMore(runningTime, elapsed, passed, t);
    IterationCounts(passed, t);
    IterationEnds(passed, t);
    WalkCountsAppend(it, rest);
    assert AllPass(passed, ChecksPerIteration * t, StepsToB);
  }

  /** A check failed in the run, or the time was up at the evaluation of the
      loop condition that followed its last walk. */
  predicate StoppedOrTimeUp(trace: seq<Event>, runningTime: int, elapsed: nat -> real, t: nat) {
    StatusChecked(false) in trace || !TimeLeft(runningTime, elapsed, t + |WalkCounts(trace)|)
  }

  /** A run that no status check stopped ends only once the time is up, after
      as many walks as it reports. */
  lemma {:induction false} CompletesWhenTimeIsUp(runningTime: int, elapsed: nat -> real, passed: nat -> bool, t: nat)
    requires ClockAdvances(elapsed)
    ensures StoppedOrTimeUp(LoopTrace(runningTime, elapsed, passed, t), runningTime, elapsed, t)
    decreases Budget(runningTime, t)
  {
    if !TimeLeft(runningTime, elapsed, t) {
      NoWalksAtEnd(runningTime, elapsed, passed, t);
    } else if AllPass(passed, ChecksPerIteration * t, ChecksPerIteration) {
      BudgetDecreases(runningTime, elapsed, t);
      CompletesWhenTimeIsUp(runningTime, elapsed, passed, t + 1);
      CompletesStep(runningTime, elapsed, passed, t);
    } else {
      StopFails(runningTime, elapsed, passed, t);
    }
  }

  /** A run cut short in its t-th iteration holds a failed check. */
  lemma StopFails(runningTime: int, elapsed: nat -> real, passed: nat -> bool, t: nat)
    requires ClockAdvances(elapsed)
    requires TimeLeft(runningTime, elapsed, t) && !AllPass(passed, ChecksPerIteration * t, ChecksPerIteration)
    ensures StatusChecked(false) in LoopTrace(runningTime, elapsed, passed, t)
  {
    LoopTraceStop(runningTime, elapsed, passed, t);
    IterationEnds(passed, t);
  }

  lemma CompletesStep(runningTime: int, elapsed: nat -> real, passed: nat -> bool, t: nat)
    requires ClockAdvances(elapsed)
    requires TimeLeft(runningTime, elapsed, t) && AllPass(passed, ChecksPerIteration * t, ChecksPerIteration)
    requires StoppedOrTimeUp(LoopTrace(runningTime, elapsed, passed, t + 1), runningTime, elapsed, t + 1)
    ensures StoppedOrTimeUp(LoopTrace(runningTime, elapsed, passed, t), runningTime, elapsed, t)
  {
    LoopTraceStep(runningTime, elapsed, passed, t);
    CompletesCons(LoopTrace(runningTime, elapsed, passed, t), LoopTrace(runningTime, elapsed, passed, t + 1), runningTime, elapsed, t);
  }

  lemma CompletesCons(here: seq<Event>, rest: seq<Event>, runningTime: int, elapsed: nat -> real, t: nat)
    requires WalkCounts(here) == [t + 1] + WalkCounts(rest)
    requires StatusChecked(false) in here <==> StatusChecked(false) in rest
    requires StoppedOrTimeUp(rest, runningTime, elapsed, t + 1)
    ensures StoppedOrTimeUp(here, runningTime, elapsed, t)
  {
    assert t + |WalkCounts(here)| == t + 1 + |WalkCounts(rest)|;
  }
}
