/** The result of a @Before or @After hook of a scenario. Unlike a step, its
    counts come from comparing the status string directly, so an unknown status
    counts as nothing at all instead of raising. */
module BeforeAfterResults {
  import opened Wrappers
  import opened CucumberUtils
  import opened StepResults

  /** The status strings the hook compares against. */
  const PASSED_TEST_STRING: string := "passed"
  const FAILED_TEST_STRING: string := "failed"
  const UNDEFINED_TEST_STRING: string := "undefined"
  const SKIPPED_TEST_STRING: string := "skipped"

  datatype BeforeAfterResult = BeforeAfterResult(hookMatch: Match, result: GherkinResult) {

    /** getPassCount */
    function PassCount(): (n: nat)
      ensures n == 1 <==> result.status == Some("passed")
      ensures n <= 1
    {
      if result.status == Some(PASSED_TEST_STRING) then 1 else 0
    }

    /** getFailCount: a failed or an undefined hook counts as a failure. */
    function FailCount(): (n: nat)
      ensures n == 1 <==> result.status == Some("failed") || result.status == Some("undefined")
      ensures n <= 1
    {
      if result.status == Some(FAILED_TEST_STRING) || result.status == Some(UNDEFINED_TEST_STRING) then 1 else 0
    }

    /** getSkipCount */
    function SkipCount(): (n: nat)
      ensures n == 1 <==> result.status == Some("skipped")
      ensures n <= 1
    {
      if result.status == Some(SKIPPED_TEST_STRING) then 1 else 0
    }

    /** getDuration, in nanoseconds. */
    function Duration(): int {
      DurationFromResult(result)
    }
  }

  /** At most one of a hook's counts is 1; a status that is none of the four
      strings (null included) gives 0/0/0. */
  lemma HookCountsAtMostOne(h: BeforeAfterResult)
    ensures h.PassCount() + h.FailCount() + h.SkipCount() <= 1
    ensures ParseState(h.result.status).Err? ==> h.PassCount() == 0 && h.FailCount() == 0 && h.SkipCount() == 0
  {
  }

  /** The hook's string comparisons agree with the step classification on every
      recognised status: a hook counts exactly as a step with the same result would. */
  lemma HookAgreesWithStep(h: BeforeAfterResult, step: Option<Step>)
    ensures var s := StepResult(step, Some(h.hookMatch), h.result);
      s.State().Ok? ==>
        && h.PassCount() == s.PassCount().value
        && h.FailCount() == s.FailCount().value
        && h.SkipCount() == s.SkipCount().value
  {
  }
}
