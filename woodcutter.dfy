/**
  The Woodcutter example bot. Its option fields and the log it writes through
  the inherited bot machinery are fields of the object; create_options,
  save_options and main_loop are methods that update them in place.

  The calls into the inherited machinery (log_msg, update_progress,
  set_status, status_check_passed) only append an event to `trace`; what
  status_check_passed answers comes from an oracle.
 */
module Woodcutter {
  import opened Events
  import opened Options
  import opened Walking

  class WoodcutterBot {
    var title: string
    var description: string
    var runningTime: OptionValue
    var multiSelectExample: OptionValue
    var menuExample: OptionValue
    var optionsSet: bool
    /** The options declared so far through the options builder. */
    var optionsBuilder: seq<OptionSpec>
    /** Every call the bot has made into the inherited machinery, oldest first. */
    var trace: seq<Event>

    /** The three option fields as one value. */
    function Current(): Settings
      reads this
    {
      Settings(runningTime, multiSelectExample, menuExample)
    }

    /** A new bot: running time 0, the other two options None, nothing declared or logged. */
    constructor ()
      ensures title == "Woodcutter" && description == "This bot chops till full inv > drop logs > restart"
      ensures Current() == Settings(Int(0), NoValue, NoValue)
      ensures optionsBuilder == [] && trace == []
    {
      title := "Woodcutter";
      description := "This bot chops till full inv > drop logs > restart";
      runningTime := Int(0);
      multiSelectExample := NoValue;
      menuExample := NoValue;
      optionsBuilder := [];
      trace := [];
    }

    method LogMsg(m: Message)
      modifies this`trace
      ensures trace == old(trace) + [Logged(m)]
    {
      trace := trace + [Logged(m)];
    }

    method UpdateProgress(p: Progress)
      modifies this`trace
      ensures trace == old(trace) + [ProgressUpdated(p)]
    {
      trace := trace + [ProgressUpdated(p)];
    }

    method SetStatus(s: BotStatus)
      modifies this`trace
      ensures trace == old(trace) + [StatusSet(s)]
    {
      trace := trace + [StatusSet(s)];
    }

    /** The k-th status check: its answer is the oracle's, and the call is recorded. */
    method StatusCheckPassed(passed: nat -> bool, k: nat) returns (ok: bool)
      modifies this`trace
      ensures ok == passed(k)
      ensures trace == old(trace) + [StatusChecked(ok)]
    {
      ok := passed(k);
      trace := trace + [StatusChecked(ok)];
    }

    /** Declares the slider, the checkboxes and the dropdown, in that order. */
    method CreateOptions()
      modifies this`optionsBuilder
      ensures optionsBuilder == old(optionsBuilder) + DeclaredOptions()
    {
      optionsBuilder := optionsBuilder + [Slider(RunningTimeKey, "How long to run (minutes)?", 1, 180)];
      optionsBuilder := optionsBuilder + [Checkbox(MultiSelectKey, "Multi-select Example", ["A", "B", "C"])];
      optionsBuilder := optionsBuilder + [Dropdown(MenuKey, "Menu Example", ["A", "B", "C"])];
    }

    /** Stores each known key's value in its field and logs it, logs and flags
        each unknown key, then logs the verdict. The flag ends up true exactly
        when every key is known; the fields are those Apply describes. */
    method SaveOptions(options: seq<(string, OptionValue)>)
      modifies this`runningTime, this`multiSelectExample, this`menuExample, this`optionsSet, this`trace
      ensures Current() == Apply(old(Current()), options)
      ensures optionsSet <==> forall i :: 0 <= i < |options| ==> IsKnown(options[i].0)
      ensures trace == old(trace) + SaveLog(options)
    {
      optionsSet := true;
      for i := 0 to |options|
        invariant Current() == Apply(old(Current()), options[..i])
        invariant optionsSet == Accepted(options[..i])
        invariant trace == old(trace) + KeyLog(options[..i])
      {
        var (key, value) := options[i];
        if key == RunningTimeKey {
          runningTime := value;
          LogMsg(RunningTimeSet(runningTime));
        } else if key == MultiSelectKey {
          multiSelectExample := value;
          LogMsg(MultiSelectSet(multiSelectExample));
        } else if key == MenuKey {
          menuExample := value;
          LogMsg(MenuSet(menuExample));
        } else {
          LogMsg(UnknownOption(key));
          optionsSet := false;
        }
        assert options[..i + 1][..i] == options[..i];
      }
      if optionsSet {
        LogMsg(OptionsSaved);
      } else {
        LogMsg(OptionsFailed);
      }
      assert options[..|options|] == options;
      AcceptedIffAllKnown(options);
    }

    /** The walk from A to B inside one iteration of main_loop: four steps,
        each preceded by a status check. It reports whether every check passed;
        when one fails, main_loop returns at once. A completed walk leaves the
        character at B with no steps remaining. */
    method WalkToB(passed: nat -> bool, first: nat, position: string) returns (ok: bool, playerPosition: string, stepsRemaining: nat)
      requires position == "A"
      modifies this`trace
      ensures ok <==> AllPass(passed, first, StepsToB)
      ensures ok ==> playerPosition == "B" && stepsRemaining == 0
      ensures trace == old(trace) + Walk(passed, first, StepsToB)
    {
      playerPosition := position;
      stepsRemaining := StepsToB;
      var checks := first;
      while playerPosition != "B"
        invariant stepsRemaining <= StepsToB
        invariant playerPosition == if stepsRemaining == 0 then "B" else "A"
        invariant checks == first + (StepsToB - stepsRemaining)
        invariant AllPass(passed, first, StepsToB - stepsRemaining)
        invariant trace + Walk(passed, checks, stepsRemaining) == old(trace) + Walk(passed, first, StepsToB)
        decreases stepsRemaining
      {
        ghost var beforeStep := trace;
        ok := StatusCheckPassed(passed, checks);
        checks := checks + 1;
        if !ok {
          assert Walk(passed, checks - 1, stepsRemaining) == [StatusChecked(false)];
          return;
        }
        stepsRemaining := stepsRemaining - 1;
        // time.sleep(2): the clock oracle accounts for it
        if stepsRemaining == 0 {
          LogMsg(AtPointB);
          playerPosition := "B";
        } else if stepsRemaining == 1 {
          LogMsg(VeryCloseToB);
        } else if stepsRemaining == 2 {
          LogMsg(StillWalking);
        } else if stepsRemaining == 3 {
          LogMsg(WalkingToB);
        }
        assert trace == beforeStep + [StatusChecked(true)] + [Logged(StepMessage(stepsRemaining))];
        WalkStepTrace(beforeStep, passed, checks - 1, stepsRemaining + 1);
      }
      ok := true;
      assert Walk(passed, checks, 0) == [];
    }

    /** The end of a completed walk in main_loop: counts the walk and reports it,
        updates the progress, teleports back to A and checks the status once
        more, which is the k-th check. */
    method ReportAndTeleport(passed: nat -> bool, timesWalked: nat, k: nat) returns (ok: bool, walked: nat, playerPosition: string)
      requires k == ChecksPerIteration * timesWalked + StepsToB
      modifies this`trace
      ensures ok == passed(k)
      ensures walked == timesWalked + 1 && playerPosition == "A"
      ensures trace == old(trace) + WalkEnd(passed, timesWalked)
    {
      // time.sleep(2): the clock oracle accounts for it, as for the sleeps below
      walked := timesWalked + 1;
      LogMsg(Walked(walked));
      UpdateProgress(Fraction);
      LogMsg(TeleportingToA);
      playerPosition := "A";
      ok := StatusCheckPassed(passed, k);
      assert trace == old(trace) + [Logged(Walked(walked)), ProgressUpdated(Fraction), Logged(TeleportingToA), StatusChecked(ok)];
    }

    /** One pass of main_loop's body, entered at point A after t walks: log
        point A, walk to B, report the walk, teleport back and check the
        status. It reports whether every one of its five checks passed; when
        one fails, main_loop returns at once. */
    method WalkAndTeleport(passed: nat -> bool, timesWalked: nat, checks: nat, position: string)
      returns (ok: bool, walked: nat, playerPosition: string)
      requires position == "A" && checks == ChecksPerIteration * timesWalked
      modifies this`trace
      ensures ok <==> AllPass(passed, checks, ChecksPerIteration)
      ensures ok ==> walked == timesWalked + 1 && playerPosition == "A"
      ensures trace == old(trace) + Iteration(passed, timesWalked)
    {
      walked := timesWalked;
      LogMsg(AtPointA);
      var stepsRemaining;
      ok, playerPosition, stepsRemaining := WalkToB(passed, checks, position);
      if !ok {
        IterationCutShort(passed, timesWalked, old(trace));
        return;
      }
      IterationCompleted(passed, timesWalked, old(trace));
      ok, walked, playerPosition := ReportAndTeleport(passed, timesWalked, checks + StepsToB);
      AllPassNext(passed, checks, StepsToB);
    }

    /** Walks from A to B and teleports back while running time is left, checking
        the status before every step and after every teleport, and returns at
        once when a check fails; once the time is up it reports progress 1,
        logs completion and sets the status to STOPPED. What it emits is
        LoopTrace, whose shape the Walking lemmas describe. */
    method MainLoop(elapsed: nat -> real, passed: nat -> bool)
      requires runningTime.Int?
      requires ClockAdvances(elapsed)
      modifies this`trace
      ensures trace == old(trace) + LoopTrace(runningTime.i, elapsed, passed, 0)
    {
      ghost var whole := trace + LoopTrace(runningTime.i, elapsed, passed, 0);
      var playerPosition := "A";
      var timesWalked: nat := 0;
      var checks: nat := 0;  // status checks made so far, the index into `passed`
      var endTime := runningTime.i * 60;
      while elapsed(timesWalked) < endTime as real
        invariant playerPosition == "A"
        invariant checks == ChecksPerIteration * timesWalked
        invariant trace + LoopTrace(runningTime.i, elapsed, passed, timesWalked) == whole
        decreases Budget(runningTime.i, timesWalked)
      {
        IterationStep(runningTime.i, elapsed, passed, timesWalked, trace, whole);
        BudgetDecreases(runningTime.i, elapsed, timesWalked);
        var ok;
        ok, timesWalked, playerPosition := WalkAndTeleport(passed, timesWalked, checks, playerPosition);
        if !ok {
          return;
        }
        checks := checks + ChecksPerIteration;
      }
      LoopTraceEnd(runningTime.i, elapsed, passed, timesWalked);
      UpdateProgress(Full);
      LogMsg(Completed);
      SetStatus(Stopped);
    }
  }
}
