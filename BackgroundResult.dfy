/** The background of a scenario: its steps, and the failed/skipped flags and
    duration that a tally recomputes from them. */
module BackgroundResults {
  import opened Wrappers
  import opened CucumberUtils
  import opened StepResults

  /** Sum of the steps' durations, in nanoseconds. */
  function StepDurations(steps: seq<StepResult>): int {
    if steps == [] then 0 else StepDurations(steps[..|steps| - 1]) + steps[|steps| - 1].Duration()
  }

  /** Some step reports a failure (FAILED or UNDEFINED). */
  ghost predicate SomeFails(steps: seq<StepResult>) {
    exists i :: 0 <= i < |steps| && steps[i].Fails()
  }

  /** Some step reports a skip. */
  ghost predicate SomeSkips(steps: seq<StepResult>) {
    exists i :: 0 <= i < |steps| && steps[i].Skips()
  }

  /** Step `k` has an unknown status and no earlier step failed, so a background
      tally classifies it and raises there. */
  ghost predicate RaisesAt(steps: seq<StepResult>, k: int) {
    0 <= k < |steps| && steps[k].State().Err? && forall j :: 0 <= j < k ==> !steps[j].Fails()
  }

  /** A background tally raises: once a step has failed the remaining steps are no
      longer classified, so an unknown status after the first failure goes unnoticed. */
  ghost predicate TallyRaises(steps: seq<StepResult>) {
    exists k :: RaisesAt(steps, k)
  }

  class BackgroundResult {
    const background: Background
    var stepResults: seq<StepResult>

    // recomputed by Tally
    var failed: bool
    var skipped: bool
    var duration: int

    /** failed and skipped are never both set. */
    ghost predicate Valid()
      reads this`failed, this`skipped
    {
      !(failed && skipped)
    }

    /** The flags and the duration are those a tally computes from the steps. */
    ghost predicate Tallied()
      reads this`stepResults, this`failed, this`skipped, this`duration
    {
      && (failed <==> SomeFails(stepResults))
      && (skipped <==> !SomeFails(stepResults) && SomeSkips(stepResults))
      && duration == StepDurations(stepResults)
    }

    constructor (background: Background)
      ensures Valid()
      ensures this.background == background && stepResults == []
      ensures !failed && !skipped && duration == 0
    {
      this.background := background;
      stepResults := [];
      failed, skipped, duration := false, false, 0;
    }

    /** getFailCount: a background counts as one test, failed when failed is set. */
    function FailCount(): (n: nat)
      reads this`failed
      ensures n <= 1 && (n == 1 <==> failed)
    {
      if failed then 1 else 0
    }

    /** getSkipCount: one skip when skipped is set. */
    function SkipCount(): (n: nat)
      reads this`skipped
      ensures n <= 1 && (n == 1 <==> skipped)
    {
      if skipped then 1 else 0
    }

    /** getPassCount: one pass when neither flag is set, so that a well-formed
        background is exactly one of passed, failed and skipped. */
    function PassCount(): (n: nat)
      reads this`failed, this`skipped
      ensures Valid() ==> n + FailCount() + SkipCount() == 1
    {
      if failed || skipped then 0 else 1
    }

    /** addStepResult: appends at the end. */
    method AddStepResult(stepResult: StepResult)
      modifies this`stepResults
      ensures stepResults == old(stepResults) + [stepResult]
    {
      stepResults := stepResults + [stepResult];
    }

    /** tally: resets the flags and the duration, then walks the steps. Until a
        step fails, each step is classified: a failure sets failed and clears
        skipped, a skip sets skipped. Every step's duration is added, including
        those after the first failure. Classifying an unknown status raises. */
    method Tally() returns (r: Result<()>)
      modifies this`failed, this`skipped, this`duration
      ensures Valid()
      ensures r.Ok? <==> !TallyRaises(stepResults)
      ensures r.Ok? ==> Tallied()
      ensures r.Err? ==> !failed && exists k ::
        && RaisesAt(stepResults, k)
        && (skipped <==> SomeSkips(stepResults[..k]))
        && duration == StepDurations(stepResults[..k])
    {
      duration := 0;
      failed := false;
      skipped := false;
      var i := 0;
      while i < |stepResults|
        invariant 0 <= i <= |stepResults|
        invariant failed <==> SomeFails(stepResults[..i])
        invariant skipped <==> !failed && SomeSkips(stepResults[..i])
        invariant duration == StepDurations(stepResults[..i])
        invariant !TallyRaises(stepResults[..i])
      {
        var sr := stepResults[i];
        assert stepResults[..i + 1] == stepResults[..i] + [sr];
        if !failed {
          var fc := sr.FailCount();
          if fc.Err? {
            assert RaisesAt(stepResults, i);
            r := Err(fc.error);
            return;
          }
          NoRaiseExtends(stepResults[..i], sr);
          if fc.value != 0 {
            failed := true;
            skipped := false;
          } else {
            var sc := sr.SkipCount();
            if sc.value != 0 {
              failed := false;
              skipped := true;
            }
          }
        } else {
          NoRaiseExtends(stepResults[..i], sr);
        }
        duration := duration + sr.Duration();
        i := i + 1;
      }
      assert stepResults[..i] == stepResults;
      r := Ok(());
    }
  }

  /** A well-formed background is one test with exactly one outcome; after a
      tally that outcome is a failure when a step fails, otherwise a skip when a
      step skips, otherwise a pass. */
  lemma BackgroundCountsOne(b: BackgroundResult)
    requires b.Valid()
    ensures b.PassCount() + b.FailCount() + b.SkipCount() == 1
    ensures b.Tallied() ==> (b.FailCount() == 1 <==> SomeFails(b.stepResults))
    ensures b.Tallied() ==> (b.SkipCount() == 1 <==> !SomeFails(b.stepResults) && SomeSkips(b.stepResults))
    ensures b.Tallied() ==> (b.PassCount() == 1 <==> !SomeFails(b.stepResults) && !SomeSkips(b.stepResults))
  {
  }

  /** Appending a step to a list whose tally does not raise keeps it from
      raising when a failure was already seen or the new step is recognised. */
  lemma NoRaiseExtends(steps: seq<StepResult>, sr: StepResult)
    requires !TallyRaises(steps)
    requires SomeFails(steps) || sr.State().Ok?
    ensures !TallyRaises(steps + [sr])
  {
    var all := steps + [sr];
    forall k | 0 <= k < |all|
      ensures !RaisesAt(all, k)
    {
      if k < |steps| {
        assert all[k] == steps[k];
        if steps[k].State().Err? {
          assert !RaisesAt(steps, k);
          var j :| 0 <= j < k && steps[j].Fails();
          assert all[j] == steps[j];
        }
      } else {
        assert all[k] == sr;
        if sr.State().Err? {
          var j :| 0 <= j < |steps| && steps[j].Fails();
          assert all[j] == steps[j];
        }
      }
    }
  }
}
