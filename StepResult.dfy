/** A step of a scenario or of a background. Its counts and its error message
    are computed from the stored gherkin result through parseState, so a status
    outside the four known strings makes each of them raise. */
module StepResults {
  import opened Wrappers
  import opened CucumberUtils

  /** The step and match pending when the result arrived (either may be null
      when the events came out of order) and the result itself. */
  datatype StepResult = StepResult(step: Option<Step>, stepMatch: Option<Match>, result: GherkinResult) {

    function State(): Result<GherkinState> {
      ParseState(result.status)
    }

    /** getPassCount */
    function PassCount(): (n: Result<nat>)
      ensures n.Ok? <==> State().Ok?
      ensures n == Ok(1) <==> State() == Ok(PASSED)
      ensures n.Ok? ==> n.value <= 1
    {
      match State()
      case Ok(s) => Ok(if s.IsPassedState() then 1 else 0)
      case Err(e) => Err(e)
    }

    /** getFailCount: FAILED and UNDEFINED both count as a failure. */
    function FailCount(): (n: Result<nat>)
      ensures n.Ok? <==> State().Ok?
      ensures n == Ok(1) <==> State() == Ok(FAILED) || State() == Ok(UNDEFINED)
      ensures n.Ok? ==> n.value <= 1
    {
      match State()
      case Ok(s) => Ok(if s.IsFailureState() then 1 else 0)
      case Err(e) => Err(e)
    }

    /** getSkipCount */
    function SkipCount(): (n: Result<nat>)
      ensures n.Ok? <==> State().Ok?
      ensures n == Ok(1) <==> State() == Ok(SKIPPED)
      ensures n.Ok? ==> n.value <= 1
    {
      match State()
      case Ok(s) => Ok(if s.IsSkippedState() then 1 else 0)
      case Err(e) => Err(e)
    }

    /** The step reports a failure (its fail count is 1). */
    predicate Fails() {
      FailCount() == Ok(1)
    }

    /** The step reports a skip (its skip count is 1). */
    predicate Skips() {
      SkipCount() == Ok(1)
    }

    /** getDuration, in nanoseconds. */
    function Duration(): int {
      DurationFromResult(result)
    }

    /** getErrorMessage: a sentence naming the step when it is undefined, the
        result's own message when it failed, and "" otherwise. The step name is
        read from the pending step, which is null if no step event came first. */
    function ErrorMessage(): (m: Result<Option<string>>)
      ensures m.Err? <==> State().Err? || (State() == Ok(UNDEFINED) && step.None?)
      ensures State() == Ok(UNDEFINED) && step.Some? ==>
                m == Ok(Some("Step \"" + step.value.name + "\" is undefined"))
      ensures State() == Ok(FAILED) ==> m == Ok(result.errorMessage)
      ensures State() == Ok(PASSED) || State() == Ok(SKIPPED) ==> m == Ok(Some(""))
    {
      match State()
      case Err(e) => Err(e)
      case Ok(UNDEFINED) =>
        if step.None? then Err(NullPointer)
        else Ok(Some("Step \"" + step.value.name + "\" is undefined"))
      case Ok(FAILED) => Ok(result.errorMessage)
      case Ok(PASSED) => Ok(Some(""))
      case Ok(SKIPPED) => Ok(Some(""))
    }
  }

  /** A recognised status gives exactly one count of 1; an unrecognised one
      makes all three getters raise. */
  lemma CountsPartition(r: StepResult)
    ensures r.State().Ok? ==> r.PassCount().value + r.FailCount().value + r.SkipCount().value == 1
    ensures r.State().Err? ==> r.PassCount().Err? && r.FailCount().Err? && r.SkipCount().Err?
  {
    if r.State().Ok? {
      ExactlyOneFlag(r.State().value);
    }
  }
}
