/** The outcome classification shared by steps, hooks and backgrounds,
    and the gherkin model records the result tree stores. */
module CucumberUtils {
  import opened Wrappers

  /** gherkin's Result record: a status string, a duration in nanoseconds and
      an error message, each of which may be null. */
  datatype GherkinResult = GherkinResult(status: Option<string>, duration: Option<int>, errorMessage: Option<string>)

  /** The parts of gherkin's Step, Match, Background, Feature and Scenario
      records that the plugin reads. */
  datatype Step = Step(keyword: string, name: string)
  datatype Match = Match(location: string)
  datatype Background = Background(name: string)
  datatype Feature = Feature(name: string, id: string, tags: seq<string>)
  datatype Scenario = Scenario(name: string, id: string, tags: seq<string>)

  const PASSED_STRING: string := "passed"
  const FAILED_STRING: string := "failed"
  const SKIPPED_STRING: string := "skipped"
  const UNDEFINED_STRING: string := "undefined"

  /** The four states a step can report. Each constant carries the three
      flags (passed, skipped, failure) of its declaration. */
  datatype GherkinState = UNDEFINED | PASSED | FAILED | SKIPPED {

    function Flags(): (bool, bool, bool) {
      match this
      case UNDEFINED => (false, false, true)
      case PASSED => (true, false, false)
      case FAILED => (false, false, true)
      case SKIPPED => (false, true, false)
    }

    predicate IsPassedState() { Flags().0 }
    predicate IsSkippedState() { Flags().1 }
    predicate IsFailureState() { Flags().2 }

    /** The status string that parses to this state. */
    function Name(): string {
      match this
      case UNDEFINED => UNDEFINED_STRING
      case PASSED => PASSED_STRING
      case FAILED => FAILED_STRING
      case SKIPPED => SKIPPED_STRING
    }
  }

  /** How Java's string concatenation renders a status that may be null. */
  function Rendered(state: Option<string>): string {
    match state
    case None => "null"
    case Some(s) => s
  }

  /** GherkinState.parseState: the four status strings map to their state;
      anything else, null included, raises CucumberModelException naming the status. */
  function ParseState(state: Option<string>): (r: Result<GherkinState>)
    ensures r.Ok? ==> state == Some(r.value.Name())
    ensures r.Err? ==> r.error == ModelError("Cucumber sate \"" + Rendered(state) + "\" is not defined.")
  {
    if state == Some(PASSED_STRING) then Ok(PASSED)
    else if state == Some(FAILED_STRING) then Ok(FAILED)
    else if state == Some(SKIPPED_STRING) then Ok(SKIPPED)
    else if state == Some(UNDEFINED_STRING) then Ok(UNDEFINED)
    else Err(ModelError("Cucumber sate \"" + Rendered(state) + "\" is not defined."))
  }

  /** durationFromResult, kept in nanoseconds: a missing duration counts as 0. */
  function DurationFromResult(result: GherkinResult): (d: int)
    ensures result.duration.None? ==> d == 0
  {
    match result.duration
    case None => 0
    case Some(nanos) => nanos
  }

  /** Every state carries exactly one of the three flags. */
  lemma ExactlyOneFlag(s: GherkinState)
    ensures s.IsPassedState() ==> !s.IsSkippedState() && !s.IsFailureState()
    ensures s.IsSkippedState() ==> !s.IsPassedState() && !s.IsFailureState()
    ensures s.IsFailureState() ==> !s.IsPassedState() && !s.IsSkippedState()
    ensures s.IsPassedState() || s.IsSkippedState() || s.IsFailureState()
  {
  }

  /** UNDEFINED counts as a failure like FAILED, and SKIPPED is neither a pass nor a failure. */
  lemma FlagsOfStates()
    ensures UNDEFINED.IsFailureState() && !UNDEFINED.IsSkippedState()
    ensures FAILED.IsFailureState() && !FAILED.IsSkippedState()
    ensures SKIPPED.IsSkippedState() && !SKIPPED.IsPassedState() && !SKIPPED.IsFailureState()
    ensures PASSED.IsPassedState()
  {
  }

  /** Parsing is the inverse of naming: each state's own string parses back to
      it, and a string parses only if it is the name of the state it yields. */
  lemma ParseStateInvertsName(state: Option<string>, s: GherkinState)
    ensures ParseState(Some(s.Name())) == Ok(s)
    ensures ParseState(state).Ok? ==> state == Some(ParseState(state).value.Name())
    ensures ParseState(state).Err? <==> forall t: GherkinState :: state != Some(t.Name())
  {
    if ParseState(state).Err? {
      forall t: GherkinState ensures state != Some(t.Name()) {
        match t
        case UNDEFINED =>
        case PASSED =>
        case FAILED =>
        case SKIPPED =>
      }
    }
  }

  /** "pending", which cucumber-jvm reports for a pending step, and a missing
      status are both rejected, with a message that names the status as Java
      renders it. */
  lemma PendingAndNullRejected()
    ensures ParseState(Some("pending")) == Err(ModelError("Cucumber sate \"pending\" is not defined."))
    ensures ParseState(None) == Err(ModelError("Cucumber sate \"null\" is not defined."))
  {
    assert "pending"[1] != PASSED_STRING[1] && "pending"[0] != FAILED_STRING[0];
    assert "pending"[0] != SKIPPED_STRING[0] && "pending"[0] != UNDEFINED_STRING[0];
    assert "Cucumber sate \"" + "pending" + "\" is not defined." == "Cucumber sate \"pending\" is not defined.";
    assert "Cucumber sate \"" + "null" + "\" is not defined." == "Cucumber sate \"null\" is not defined.";
  }
}
