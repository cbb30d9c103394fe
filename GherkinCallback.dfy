/** The callback the Gherkin parser drives while it reads a Cucumber JSON
    report: each event creates a node or fills in a pending one, and the
    pending ("current") references form an implicit state machine that raises
    on events arriving out of order. */
module GherkinCallbacks {
  import opened Wrappers
  import opened CucumberUtils
  import opened StepResults
  import opened BeforeAfterResults
  import opened BackgroundResults
  import opened ResultTree

  class GherkinCallback {
    /** The tree the events build. */
    const testResult: CucumberTestResult

    var currentFeatureResult: FeatureResult?
    var currentScenarioResult: ScenarioResult?
    var currentBackground: BackgroundResult?
    var currentStep: Option<Step>
    var currentMatch: Option<Match>
    var currentURI: Option<string>

    /** The tree is well formed, the current feature is one of its features,
        and a pending background belongs to none of them yet. */
    ghost predicate Valid()
      reads this`currentFeatureResult, this`currentBackground
      reads testResult`featureResults, testResult.featureResults`parent, testResult.featureResults`scenarioResults
      reads testResult.featureResults`Repr, AllScenarios(testResult.featureResults)`parent
    {
      && testResult.Valid()
      && (currentFeatureResult != null ==> currentFeatureResult in testResult.featureResults)
      && (currentBackground != null ==> forall f :: f in testResult.featureResults ==> currentBackground !in f.Repr)
    }

    /** The current feature, as a set that is empty when there is none. */
    function CurrentFeature(): set<FeatureResult>
      reads this`currentFeatureResult
    {
      if currentFeatureResult == null then {} else {currentFeatureResult}
    }

    /** The current scenario, as a set that is empty when there is none. */
    function CurrentScenario(): set<ScenarioResult>
      reads this`currentScenarioResult
    {
      if currentScenarioResult == null then {} else {currentScenarioResult}
    }

    /** The pending background, as a set that is empty when there is none. */
    function CurrentBackground(): set<BackgroundResult>
      reads this`currentBackground
    {
      if currentBackground == null then {} else {currentBackground}
    }

    /** The one-argument constructor: nothing is pending. */
    constructor (testResult: CucumberTestResult)
      requires testResult.Valid()
      ensures Valid() && this.testResult == testResult
      ensures currentFeatureResult == null && currentScenarioResult == null && currentBackground == null
      ensures currentStep == None && currentMatch == None && currentURI == None
    {
      this.testResult := testResult;
      currentFeatureResult, currentScenarioResult, currentBackground := null, null, null;
      currentStep, currentMatch, currentURI := None, None, None;
    }

    /** uri: announces the next feature's URI; raises while one is pending. */
    method OnUri(uri: Option<string>) returns (r: Result<()>)
      modifies this`currentURI
      ensures r.Err? <==> old(currentURI).Some?
      ensures r.Err? ==> r.error == ModelError("URI received before previous uri handled") && currentURI == old(currentURI)
      ensures r.Ok? ==> currentURI == uri
    {
      if currentURI.Some? {
        return Err(ModelError("URI received before previous uri handled"));
      }
      currentURI := uri;
      r := Ok(());
    }

    /** feature: a new feature, carrying the pending URI, becomes the current
        feature and is appended to the tree; the URI is consumed. The current
        scenario and the pending background are kept. */
    method OnFeature(feature: Feature)
      requires Valid()
      modifies this`currentFeatureResult, this`currentURI
      modifies testResult`featureResults, testResult`passCount, testResult`failCount, testResult`skipCount,
        testResult`duration
      ensures Valid()
      ensures currentFeatureResult != null && fresh(currentFeatureResult)
      ensures currentFeatureResult.feature == feature && currentFeatureResult.uri == old(currentURI)
      ensures currentFeatureResult.scenarioResults == [] && currentFeatureResult.parent == testResult
      ensures testResult.featureResults == old(testResult.featureResults) + [currentFeatureResult]
      ensures testResult.Summary() == old(testResult.Summary())
      ensures currentURI == None
    {
      var fr := new FeatureResult(currentURI, feature);
      currentFeatureResult := fr;
      currentURI := None;
      testResult.AddFeatureResult(fr);
    }

    /** background: a new background becomes pending, outside the tree until a
        scenario takes it; raises while one is pending. */
    method OnBackground(background: Background) returns (r: Result<()>)
      requires Valid()
      modifies this`currentBackground
      ensures Valid()
      ensures r.Err? <==> old(currentBackground) != null
      ensures r.Err? ==>
        r.error == ModelError("Background received before previous background handled")
        && currentBackground == old(currentBackground)
      ensures r.Ok? ==>
        && currentBackground != null && fresh(currentBackground)
        && currentBackground.background == background && currentBackground.stepResults == []
    {
      if currentBackground != null {
        return Err(ModelError("Background received before previous background handled"));
      }
      currentBackground := new BackgroundResult(background);
      RootKept(testResult);
      r := Ok(());
    }

    /** scenario: a new scenario taking the pending background becomes the
        current scenario, the background is no longer pending, and the
        scenario is appended to the current feature; with no current feature
        the append raises a NullPointerException after the rest is done. */
    method OnScenario(scenario: Scenario) returns (r: Result<()>)
      requires Valid()
      modifies this`currentScenarioResult, this`currentBackground
      modifies CurrentFeature()`scenarioResults, CurrentFeature()`Repr
      ensures Valid()
      ensures currentScenarioResult != null && fresh(currentScenarioResult)
      ensures currentScenarioResult.scenario == scenario && currentScenarioResult.backgroundResult == old(currentBackground)
      ensures currentScenarioResult.steps == [] && currentScenarioResult.beforeResults == []
      ensures currentScenarioResult.afterResults == []
      ensures currentBackground == null
      ensures testResult.featureResults == old(testResult.featureResults)
      ensures r.Err? <==> currentFeatureResult == null
      ensures r.Err? ==> r.error == NullPointer && currentScenarioResult.parent == null
      ensures r.Ok? ==>
        && currentFeatureResult.scenarioResults == old(currentFeatureResult.scenarioResults) + [currentScenarioResult]
        && currentScenarioResult.parent == currentFeatureResult
    {
      var sr := new ScenarioResult(scenario, currentBackground);
      currentScenarioResult := sr;
      currentBackground := null;
      RootKept(testResult);
      if currentFeatureResult == null {
        return Err(NullPointer);
      }
      var fr := currentFeatureResult;
      ghost var fs := testResult.featureResults;
      ghost var k :| 0 <= k < |fs| && fs[k] == fr;
      FeaturesApart(testResult, fs);
      assert FeatureValidAt(testResult, fs, k);
      label Before:
      fr.AddScenarioResult(sr);
      FeaturesValidGrow@Before((testResult, fs, k, sr));
      r := Ok(());
    }

    /** step: the step becomes pending; raises while one is pending. */
    method OnStep(step: Step) returns (r: Result<()>)
      modifies this`currentStep
      ensures r.Err? <==> old(currentStep).Some?
      ensures r.Err? ==> r.error == ModelError("Step received before previous step handled!") && currentStep == old(currentStep)
      ensures r.Ok? ==> currentStep == Some(step)
    {
      if currentStep.Some? {
        return Err(ModelError("Step received before previous step handled!"));
      }
      currentStep := Some(step);
      r := Ok(());
    }

    /** match: the step's match becomes pending; raises while one is pending. */
    method OnMatch(stepMatch: Match) returns (r: Result<()>)
      modifies this`currentMatch
      ensures r.Err? <==> old(currentMatch).Some?
      ensures r.Err? ==> r.error == ModelError("Match received before previous Match handled") && currentMatch == old(currentMatch)
      ensures r.Ok? ==> currentMatch == Some(stepMatch)
    {
      if currentMatch.Some? {
        return Err(ModelError("Match received before previous Match handled"));
      }
      currentMatch := Some(stepMatch);
      r := Ok(());
    }

    /** result: the pending step and match (either may be missing) and the
        result make a step result, appended to the pending background if
        there is one and otherwise to the current scenario; then nothing is
        pending. With neither, the append raises a NullPointerException and
        the step and match stay pending. */
    method OnResult(result: GherkinResult) returns (r: Result<()>)
      requires Valid()
      modifies this`currentStep, this`currentMatch, CurrentBackground()`stepResults, CurrentScenario()`steps
      ensures Valid()
      ensures old(currentBackground) != null ==>
        r.Ok? && currentBackground.stepResults ==
          old(currentBackground.stepResults) + [StepResult(old(currentStep), old(currentMatch), result)]
      ensures old(currentBackground) == null && old(currentScenarioResult) != null ==>
        r.Ok? && currentScenarioResult.steps ==
          old(currentScenarioResult.steps) + [StepResult(old(currentStep), old(currentMatch), result)]
      ensures old(currentBackground) == null && old(currentScenarioResult) == null ==> r == Err(NullPointer)
      ensures r.Ok? ==> currentStep == None && currentMatch == None
      ensures r.Err? ==> currentStep == old(currentStep) && currentMatch == old(currentMatch)
    {
      var stepResult := StepResult(currentStep, currentMatch, result);
      if currentBackground != null {
        currentBackground.AddStepResult(stepResult);
      } else if currentScenarioResult != null {
        currentScenarioResult.AddStepResult(stepResult);
      } else {
        return Err(NullPointer);
      }
      currentStep, currentMatch := None, None;
      RootKept(testResult);
      r := Ok(());
    }

    /** before: a hook result is appended to the current scenario's
        before-hooks; with no current scenario it raises a NullPointerException. */
    method OnBefore(hookMatch: Match, result: GherkinResult) returns (r: Result<()>)
      modifies CurrentScenario()`beforeResults
      ensures r.Err? <==> currentScenarioResult == null
      ensures r.Err? ==> r.error == NullPointer
      ensures r.Ok? ==>
        currentScenarioResult.beforeResults == old(currentScenarioResult.beforeResults) + [BeforeAfterResult(hookMatch, result)]
    {
      if currentScenarioResult == null {
        return Err(NullPointer);
      }
      currentScenarioResult.AddBeforeResult(BeforeAfterResult(hookMatch, result));
      r := Ok(());
    }

    /** after: a hook result is appended to the current scenario's
        after-hooks; with no current scenario it raises a NullPointerException. */
    method OnAfter(hookMatch: Match, result: GherkinResult) returns (r: Result<()>)
      modifies CurrentScenario()`afterResults
      ensures r.Err? <==> currentScenarioResult == null
      ensures r.Err? ==> r.error == NullPointer
      ensures r.Ok? ==>
        currentScenarioResult.afterResults == old(currentScenarioResult.afterResults) + [BeforeAfterResult(hookMatch, result)]
    {
      if currentScenarioResult == null {
        return Err(NullPointer);
      }
      currentScenarioResult.AddAfterResult(BeforeAfterResult(hookMatch, result));
      r := Ok(());
    }

    /** eof: the end of a feature; everything stops being current or pending
        except a pending match. */
    method Eof()
      requires Valid()
      modifies this`currentFeatureResult, this`currentScenarioResult, this`currentBackground, this`currentStep,
        this`currentURI
      ensures Valid()
      ensures currentFeatureResult == null && currentScenarioResult == null && currentBackground == null
      ensures currentStep == None && currentURI == None
    {
      currentFeatureResult, currentScenarioResult, currentBackground := null, null, null;
      currentStep, currentURI := None, None;
    }

    /** syntaxError: always raises, naming the line, the URI, the parser
        state and the event (`line` and `uri` as Java prints them, "null"
        when missing); the legal events are not reported. */
    method SyntaxError(state: string, event: string, legalEvents: seq<string>, uri: string, line: string)
      returns (r: Result<()>)
      ensures r.Err? && r.error.ModelError?
      ensures r.error.message ==
        "Failed to parse Gherkin json file." + "\tline: " + line + "\turi: " + uri + "\tState: " + state +
        "\tEvent: " + event
    {
      r := Err(ModelError("Failed to parse Gherkin json file." + "\tline: " + line + "\turi: " + uri +
        "\tState: " + state + "\tEvent: " + event));
    }
  }
}
