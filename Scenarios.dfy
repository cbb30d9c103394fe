/** What a scenario's tally, status and error details are, stated on the values
    a scenario holds: its steps, the steps of its background (if any) and its
    before and after hooks. */
module Scenarios {
  import opened Wrappers
  import opened Strings
  import opened CucumberUtils
  import opened StepResults
  import opened BeforeAfterResults
  import opened BackgroundResults

  /** The contents of a scenario that its tally reads. */
  datatype ScenarioData = ScenarioData(
    steps: seq<StepResult>,
    background: Option<seq<StepResult>>,
    before: seq<BeforeAfterResult>,
    after: seq<BeforeAfterResult>)

  /** Sum of the hooks' durations, in nanoseconds. */
  function HookDurations(hooks: seq<BeforeAfterResult>): int {
    if hooks == [] then 0 else HookDurations(hooks[..|hooks| - 1]) + hooks[|hooks| - 1].Duration()
  }

  /** Some hook has a non-zero fail count. */
  ghost predicate SomeHookFails(hooks: seq<BeforeAfterResult>) {
    exists i :: 0 <= i < |hooks| && hooks[i].FailCount() != 0
  }

  /** Some step has a status outside the four known ones. */
  ghost predicate SomeUnrecognised(steps: seq<StepResult>) {
    exists i :: 0 <= i < |steps| && steps[i].State().Err?
  }

  /** Step `k` is the first with a status outside the four known ones: the
      step at which a scenario's tally raises. */
  ghost predicate FirstUnrecognisedAt(steps: seq<StepResult>, k: int) {
    0 <= k < |steps| && steps[k].State().Err? && !SomeUnrecognised(steps[..k])
  }

  /** A scenario's tally raises: it asks every one of its own steps for a fail
      count, then tallies its background; hooks never raise. */
  ghost predicate ScenarioRaises(d: ScenarioData) {
    SomeUnrecognised(d.steps) || (d.background.Some? && TallyRaises(d.background.value))
  }

  /** A tallied scenario is failed when a step, its background, a before hook or
      an after hook has a failure. */
  ghost predicate ScenarioFails(d: ScenarioData) {
    || SomeFails(d.steps)
    || (d.background.Some? && SomeFails(d.background.value))
    || SomeHookFails(d.before)
    || SomeHookFails(d.after)
  }

  /** The duration of a tallied scenario: its steps, its background and its hooks. */
  function ScenarioDuration(d: ScenarioData): int {
    StepDurations(d.steps)
    + (match d.background case None => 0 case Some(b) => StepDurations(b))
    + HookDurations(d.before)
    + HookDurations(d.after)
  }

  /** A skipped step, an appended background step that skips, or a skipped hook
      leaves a scenario's failure state as it was: scenarios have no skipped state. */
  lemma {:induction false} SkipsDoNotChangeFailure(d: ScenarioData, s: StepResult, h: BeforeAfterResult)
    requires s.Skips() && h.SkipCount() == 1
    ensures ScenarioFails(d.(steps := d.steps + [s])) == ScenarioFails(d)
    ensures ScenarioFails(d.(before := d.before + [h])) == ScenarioFails(d)
    ensures ScenarioFails(d.(after := d.after + [h])) == ScenarioFails(d)
  {
    HookCountsAtMostOne(h);
    assert !s.Fails();
    assert SomeFails(d.steps + [s]) == SomeFails(d.steps) by {
      if SomeFails(d.steps + [s]) {
        var i :| 0 <= i < |d.steps + [s]| && (d.steps + [s])[i].Fails();
        assert i < |d.steps|;
        assert d.steps[i].Fails();
      }
      if SomeFails(d.steps) {
        var i :| 0 <= i < |d.steps| && d.steps[i].Fails();
        assert (d.steps + [s])[i] == d.steps[i];
      }
    }
    HookAppendKeepsFailure(d.before, h);
    HookAppendKeepsFailure(d.after, h);
  }

  lemma HookAppendKeepsFailure(hooks: seq<BeforeAfterResult>, h: BeforeAfterResult)
    requires h.FailCount() == 0
    ensures SomeHookFails(hooks + [h]) == SomeHookFails(hooks)
  {
    if SomeHookFails(hooks + [h]) {
      var i :| 0 <= i < |hooks + [h]| && (hooks + [h])[i].FailCount() != 0;
      assert hooks[i] == (hooks + [h])[i];
    }
    if SomeHookFails(hooks) {
      var i :| 0 <= i < |hooks| && hooks[i].FailCount() != 0;
      assert (hooks + [h])[i] == hooks[i];
    }
  }

  /** Status of a scenario, relative to its result in the previous build. */
  datatype Status = PASSED | SKIPPED | FAILED | FIXED | REGRESSION

  /** The index of the first hook that did not pass (non-zero fail count). */
  function FirstFailingHook(hooks: seq<BeforeAfterResult>): (r: Option<nat>)
    ensures r.Some? ==> r.value < |hooks| && hooks[r.value].FailCount() != 0
    ensures r.Some? ==> forall j :: 0 <= j < r.value ==> hooks[j].FailCount() == 0
    ensures r.None? <==> !SomeHookFails(hooks)
  {
    if hooks == [] then None
    else if hooks[0].FailCount() != 0 then Some(0)
    else match FirstFailingHook(hooks[1..])
      case None =>
        assert forall i :: 1 <= i < |hooks| ==> hooks[i] == hooks[1..][i - 1];
        None
      case Some(k) => Some(k + 1)
  }

  /** The index of the first step that did not pass. Asking a step for its fail
      count raises on an unknown status, so the search raises at the first
      unknown step that comes before any failing one. */
  function FirstFailingStep(steps: seq<StepResult>): (r: Result<Option<nat>>)
    ensures r.Err? <==> TallyRaises(steps)
    ensures r.Ok? && r.value.Some? ==> r.value.value < |steps| && steps[r.value.value].Fails()
    ensures r.Ok? && r.value.Some? ==> forall j :: 0 <= j < r.value.value ==> steps[j].State().Ok? && !steps[j].Fails()
    ensures r == Ok(None) <==> !SomeFails(steps) && !SomeUnrecognised(steps)
  {
    if steps == [] then Ok(None)
    else
      var first := steps[0].FailCount();
      if first.Err? then
        assert RaisesAt(steps, 0);
        Err(first.error)
      else if first.value != 0 then
        assert !RaisesAt(steps, 0);
        Ok(Some(0))
      else
        var rest := FirstFailingStep(steps[1..]);
        ShiftRaises(steps);
        ShiftSome(steps);
        match rest
        case Err(e) => Err(e)
        case Ok(None) => Ok(None)
        case Ok(Some(k)) => Ok(Some(k + 1))
  }

  /** When the first step is recognised and does not fail, the list raises
      exactly when its tail does. */
  lemma ShiftRaises(steps: seq<StepResult>)
    requires steps != [] && steps[0].State().Ok? && !steps[0].Fails()
    ensures TallyRaises(steps) <==> TallyRaises(steps[1..])
  {
    var tail := steps[1..];
    if TallyRaises(steps) {
      var k :| RaisesAt(steps, k);
      assert k != 0;
      assert RaisesAt(tail, k - 1) by {
        forall j | 0 <= j < k - 1 ensures !tail[j].Fails() {
          assert tail[j] == steps[j + 1];
        }
      }
    }
    if TallyRaises(tail) {
      var k :| RaisesAt(tail, k);
      assert RaisesAt(steps, k + 1) by {
        forall j | 0 <= j < k + 1 ensures !steps[j].Fails() {
          if j > 0 { assert steps[j] == tail[j - 1]; }
        }
      }
    }
  }

  /** When the first step is recognised and does not fail, failures and unknown
      statuses of the list are those of its tail. */
  lemma ShiftSome(steps: seq<StepResult>)
    requires steps != [] && steps[0].State().Ok? && !steps[0].Fails()
    ensures SomeFails(steps) <==> SomeFails(steps[1..])
    ensures SomeUnrecognised(steps) <==> SomeUnrecognised(steps[1..])
  {
    var tail := steps[1..];
    if SomeFails(steps) {
      var i :| 0 <= i < |steps| && steps[i].Fails();
      assert tail[i - 1] == steps[i];
    }
    if SomeFails(tail) {
      var i :| 0 <= i < |tail| && tail[i].Fails();
      assert steps[i + 1] == tail[i];
    }
    if SomeUnrecognised(steps) {
      var i :| 0 <= i < |steps| && steps[i].State().Err?;
      assert tail[i - 1] == steps[i];
    }
    if SomeUnrecognised(tail) {
      var i :| 0 <= i < |tail| && tail[i].State().Err?;
      assert steps[i + 1] == tail[i];
    }
  }

  /** getErrorDetails, given whether the scenario failed: nothing for a passed
      scenario; otherwise the message of the first failing before hook, else of
      the first failing step, else of the first failing after hook, else nothing.
      The background is not consulted. */
  function ErrorDetails(d: ScenarioData, failed: bool): Result<Option<string>> {
    if !failed then Ok(None)
    else match FirstFailingHook(d.before)
      case Some(i) => Ok(d.before[i].result.errorMessage)
      case None =>
        match FirstFailingStep(d.steps)
        case Err(e) => Err(e)
        case Ok(Some(i)) => Ok(d.steps[i].result.errorMessage)
        case Ok(None) =>
          match FirstFailingHook(d.after)
          case Some(i) => Ok(d.after[i].result.errorMessage)
          case None => Ok(None)
  }

  /** The precedence of getErrorDetails: before hooks win over steps, steps
      over after hooks; a failing before hook keeps an unknown step status from
      being looked at; the background never matters. */
  lemma ErrorDetailsPrecedence(d: ScenarioData, failed: bool, bg: Option<seq<StepResult>>)
    ensures ErrorDetails(d, failed) == ErrorDetails(d.(background := bg), failed)
    ensures !failed ==> ErrorDetails(d, failed) == Ok(None)
    ensures failed && SomeHookFails(d.before) ==>
      exists i :: 0 <= i < |d.before| && d.before[i].FailCount() != 0
        && (forall j :: 0 <= j < i ==> d.before[j].FailCount() == 0)
        && ErrorDetails(d, failed) == Ok(d.before[i].result.errorMessage)
    ensures failed && !SomeHookFails(d.before) ==>
      (ErrorDetails(d, failed).Err? <==> TallyRaises(d.steps))
    ensures failed && !SomeHookFails(d.before) && !SomeFails(d.steps) && !SomeUnrecognised(d.steps) ==>
      ErrorDetails(d, failed) == (match FirstFailingHook(d.after)
                                  case None => Ok(None)
                                  case Some(i) => Ok(d.after[i].result.errorMessage))
  {
    if failed && SomeHookFails(d.before) {
      var i := FirstFailingHook(d.before).value;
      assert d.before[i].FailCount() != 0;
    }
  }

  /** getStatus given whether this scenario passed, its skip count and whether
      its result in the previous build passed (None when there is none). */
  function StatusOf(skipCount: int, passed: bool, previousPassed: Option<bool>): Status {
    if skipCount > 0 then Status.SKIPPED
    else match previousPassed
      case None => if passed then Status.PASSED else Status.FAILED
      case Some(true) => if passed then Status.PASSED else Status.REGRESSION
      case Some(false) => if passed then Status.FIXED else Status.FAILED
  }

  /** With no skip (a scenario's skip count is always 0) the status is never
      Status.SKIPPED; it is Status.PASSED or Status.FIXED exactly when the scenario passed; Status.REGRESSION
      needs a previous pass and Status.FIXED a previous failure. */
  lemma StatusCases(passed: bool, previousPassed: Option<bool>)
    ensures var s := StatusOf(0, passed, previousPassed);
      && s != Status.SKIPPED
      && (s == Status.PASSED || s == Status.FIXED <==> passed)
      && (s == Status.REGRESSION <==> !passed && previousPassed == Some(true))
      && (s == Status.FIXED <==> passed && previousPassed == Some(false))
      && (previousPassed.None? ==> s == Status.PASSED || s == Status.FAILED)
  {
  }

  /** The base of a scenario's safe name: when the safe id starts with the
      feature's safe name and ';', every occurrence of that string is deleted. */
  function ScenarioBaseName(safeId: string, parentSafeName: string): (name: string)
    ensures !StartsWith(safeId, parentSafeName + ";") ==> name == safeId
    ensures |name| <= |safeId|
  {
    var prefix := parentSafeName + ";";
    if StartsWith(safeId, prefix) then RemoveAllShrinks(safeId, prefix); RemoveAll(safeId, prefix)
    else safeId
  }

  /** A scenario id made of its feature's id, ';' and a part in which that prefix
      does not reappear loses exactly the prefix. */
  lemma ScenarioBaseStripsFeature(parentSafeName: string, part: string)
    requires !Occurs(part, parentSafeName + ";")
    ensures ScenarioBaseName(parentSafeName + ";" + part, parentSafeName) == part
  {
    var prefix := parentSafeName + ";";
    assert parentSafeName + ";" + part == prefix + part;
    assert (prefix + part)[..|prefix|] == prefix;
    StripsSinglePrefix(prefix, part);
  }
}
