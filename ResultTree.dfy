/** The result tree: a root holding features, features holding scenarios, and
    tag results linking the scenarios that share a tag. Every node keeps counts
    and a duration that a tally recomputes bottom-up, and a safe name that is
    computed once and then kept. */
module ResultTree {
  import opened Wrappers
  import opened Host
  import opened Strings
  import opened CucumberUtils
  import opened StepResults
  import opened BeforeAfterResults
  import opened BackgroundResults
  import opened Scenarios
  import opened Indexes
  import opened Paths

  /** A node of the tree, as the lookups return it. */
  datatype Node =
    | RootNode(root: CucumberTestResult)
    | FeatureNode(feature: FeatureResult)
    | ScenarioNode(scenario: ScenarioResult)
    | TagNode(tag: TagResult)
  {
    function Obj(): object {
      match this
      case RootNode(r) => r
      case FeatureNode(f) => f
      case ScenarioNode(s) => s
      case TagNode(t) => t
    }
  }

  /** getParent of a node: none for the root, the stored parent otherwise. */
  function ParentOf(n: Node): Option<Node>
    reads n.Obj()
  {
    match n
    case RootNode(_) => None
    case FeatureNode(f) => if f.parent == null then None else Some(RootNode(f.parent))
    case ScenarioNode(s) => if s.parent == null then None else Some(FeatureNode(s.parent))
    case TagNode(t) => if t.parent == null then None else Some(RootNode(t.parent))
  }

  /** What getDynamic answers: a node, or the inherited behaviour. */
  datatype Dynamic = Found(node: Node) | Delegate

  /** What a tally leaves in a scenario: whether it failed, and its duration. */
  datatype Outcome = Outcome(failed: bool, duration: int)

  class ScenarioResult {
    const scenario: Scenario
    const backgroundResult: BackgroundResult?
    var steps: seq<StepResult>
    var beforeResults: seq<BeforeAfterResult>
    var afterResults: seq<BeforeAfterResult>
    var parent: FeatureResult?

    /** The cached safe name, and the base name it was registered under among
        its siblings. */
    var safeName: Option<string>
    var uniquifiedBase: Option<string>

    // recomputed by Tally
    var failed: bool
    var duration: int

    /** The background, as a set that is empty when there is none. */
    function Bg(): set<BackgroundResult> {
      if backgroundResult == null then {} else {backgroundResult}
    }

    /** The objects a tally of this scenario changes. */
    function Footprint(): set<object> {
      {this} + Bg()
    }

    /** The contents a tally reads. */
    function Data(): ScenarioData
      reads this`steps, this`beforeResults, this`afterResults, Bg()`stepResults
    {
      ScenarioData(
        steps,
        if backgroundResult == null then None else Some(backgroundResult.stepResults),
        beforeResults,
        afterResults)
    }

    /** A tally of this scenario raises. */
    ghost predicate Raises()
      reads this`steps, this`beforeResults, this`afterResults, Bg()`stepResults
    {
      ScenarioRaises(Data())
    }

    /** failed and duration are those of a tally of the current contents, and the
        background has been tallied too. */
    ghost predicate Tallied()
      reads this`steps, this`beforeResults, this`afterResults, this`failed, this`duration
      reads Bg()`stepResults, Bg()`failed, Bg()`skipped, Bg()`duration
    {
      && failed == ScenarioFails(Data())
      && duration == ScenarioDuration(Data())
      && (backgroundResult != null ==> backgroundResult.Tallied())
    }

    constructor (scenario: Scenario, backgroundResult: BackgroundResult?)
      ensures this.scenario == scenario && this.backgroundResult == backgroundResult
      ensures steps == [] && beforeResults == [] && afterResults == []
      ensures parent == null && safeName == None && uniquifiedBase == None
      ensures !failed && duration == 0
    {
      this.scenario := scenario;
      this.backgroundResult := backgroundResult;
      steps, beforeResults, afterResults := [], [], [];
      parent := null;
      safeName, uniquifiedBase := None, None;
      failed, duration := false, 0;
    }

    /** getFailCount: a scenario counts as one test, failed when its tally failed it. */
    function FailCount(): (n: nat)
      reads this`failed
      ensures n <= 1 && (n == 1 <==> failed)
    {
      if failed then 1 else 0
    }

    /** getSkipCount: Cucumber does not report skipped scenarios. */
    function SkipCount(): (n: nat)
      ensures n == 0
    {
      0
    }

    /** getPassCount: a scenario that did not fail is one pass. */
    function PassCount(): (n: nat)
      reads this`failed
      ensures n + FailCount() == 1
    {
      if failed then 0 else 1
    }

    /** isPassed, inherited: no failure counted. */
    predicate IsPassed()
      reads this`failed
      ensures IsPassed() <==> PassCount() == 1
    {
      Host.IsPassed(FailCount())
    }

    /** findCorrespondingResult, `ownId` being this scenario's id: a scenario has
        no children, so only its own id finds it; a null id is dereferenced. */
    function FindCorrespondingResult(ownId: string, id: Option<string>): (r: Result<Option<Node>>)
      ensures r.Err? <==> id.None?
      ensures r.Err? ==> r.error == NullPointer
      ensures r.Ok? ==> (r.value.Some? <==> id == Some(ownId))
      ensures r.Ok? && r.value.Some? ==> r.value.value == ScenarioNode(this)
    {
      match id
      case None => Err(NullPointer)
      case Some(i) => if i == ownId then Ok(Some(ScenarioNode(this))) else Ok(None)
    }

    function Snapshot(): Outcome
      reads this`failed, this`duration
    {
      Outcome(failed, duration)
    }

    method AddStepResult(stepResult: StepResult)
      modifies this`steps
      ensures steps == old(steps) + [stepResult]
    {
      steps := steps + [stepResult];
    }

    method AddBeforeResult(beforeResult: BeforeAfterResult)
      modifies this`beforeResults
      ensures beforeResults == old(beforeResults) + [beforeResult]
    {
      beforeResults := beforeResults + [beforeResult];
    }

    method AddAfterResult(afterResult: BeforeAfterResult)
      modifies this`afterResults
      ensures afterResults == old(afterResults) + [afterResult]
    {
      afterResults := afterResults + [afterResult];
    }

    /** The first loop of tally: adds each step's duration and sets failed when
        its fail count is non-zero; asking for the fail count of a step with an
        unknown status raises. */
    method AddStepTotals() returns (r: Result<()>)
      modifies this`failed, this`duration
      ensures r.Ok? <==> !SomeUnrecognised(steps)
      ensures r.Ok? ==> (failed <==> old(failed) || SomeFails(steps))
      ensures r.Ok? ==> duration == old(duration) + StepDurations(steps)
      ensures r.Err? ==>
        exists k ::
          && FirstUnrecognisedAt(steps, k)
          && (failed <==> old(failed) || SomeFails(steps[..k]))
          && duration == old(duration) + StepDurations(steps[..k + 1])
    {
      var i := 0;
      while i < |steps|
        invariant 0 <= i <= |steps|
        invariant failed <==> old(failed) || SomeFails(steps[..i])
        invariant duration == old(duration) + StepDurations(steps[..i])
        invariant !SomeUnrecognised(steps[..i])
      {
        var sr := steps[i];
        assert steps[..i + 1] == steps[..i] + [sr];
        duration := duration + sr.Duration();
        var fc := sr.FailCount();
        if fc.Err? {
          assert FirstUnrecognisedAt(steps, i);
          r := Err(fc.error);
          return;
        }
        if fc.value != 0 {
          failed := true;
        }
        i := i + 1;
      }
      assert steps[..i] == steps;
      r := Ok(());
    }

    /** The hook loops of tally: adds each hook's duration and sets failed when
        its fail count is non-zero. */
    method AddHookTotals(hooks: seq<BeforeAfterResult>)
      modifies this`failed, this`duration
      ensures failed <==> old(failed) || SomeHookFails(hooks)
      ensures duration == old(duration) + HookDurations(hooks)
    {
      var i := 0;
      while i < |hooks|
        invariant 0 <= i <= |hooks|
        invariant failed <==> old(failed) || SomeHookFails(hooks[..i])
        invariant duration == old(duration) + HookDurations(hooks[..i])
      {
        var bar := hooks[i];
        assert hooks[..i + 1] == hooks[..i] + [bar];
        duration := duration + bar.Duration();
        if bar.FailCount() != 0 {
          failed := true;
        }
        i := i + 1;
      }
      assert hooks[..i] == hooks;
    }

    /** tally: resets failed and the duration, then adds up the steps, the
        background after tallying it, the before hooks and the after hooks. */
    method Tally() returns (r: Result<()>)
      modifies this`failed, this`duration, Bg()`failed, Bg()`skipped, Bg()`duration
      ensures Data() == old(Data())
      ensures r.Ok? <==> !ScenarioRaises(Data())
      ensures r.Ok? ==> Tallied()
      ensures r.Err? ==>
        || (exists k ::
              && FirstUnrecognisedAt(steps, k)
              && (failed <==> SomeFails(steps[..k]))
              && duration == StepDurations(steps[..k + 1]))
        || (&& !SomeUnrecognised(steps)
            && backgroundResult != null && TallyRaises(backgroundResult.stepResults)
            && !backgroundResult.failed
            && (failed <==> SomeFails(steps))
            && duration == StepDurations(steps))
    {
      failed := false;
      duration := 0;
      r := AddStepTotals();
      if r.Err? {
        return;
      }
      if backgroundResult != null {
        var br := backgroundResult.Tally();
        if br.Err? {
          r := br;
          return;
        }
        duration := duration + backgroundResult.duration;
        if backgroundResult.FailCount() != 0 {
          failed := true;
        }
      }
      AddHookTotals(beforeResults);
      AddHookTotals(afterResults);
    }

    /** getStatus, given whether this scenario passed in the previous build
        (None when there is no previous result). */
    function GetStatus(previousPassed: Option<bool>): (st: Status)
      reads this`failed
      ensures st != Status.SKIPPED
      ensures st == Status.PASSED || st == Status.FIXED <==> !failed
      ensures st == Status.REGRESSION <==> failed && previousPassed == Some(true)
      ensures st == Status.FIXED <==> !failed && previousPassed == Some(false)
    {
      StatusCases(IsPassed(), previousPassed);
      StatusOf(SkipCount(), IsPassed(), previousPassed)
    }

    /** getErrorDetails: nothing for a scenario that passed; for a failed one it
        raises exactly when no before hook failed and the steps' fail counts
        reach an unknown status before a failing step. */
    function GetErrorDetails(): (r: Result<Option<string>>)
      reads this`steps, this`beforeResults, this`afterResults, this`failed, Bg()`stepResults
      ensures !failed ==> r == Ok(None)
      ensures r.Err? <==> failed && !SomeHookFails(beforeResults) && TallyRaises(steps)
    {
      ErrorDetailsPrecedence(Data(), !IsPassed(), None);
      ErrorDetails(Data(), !IsPassed())
    }

    /** getSafeName: the cached name if there is one; otherwise the safe form of
        the scenario's id, with the feature's safe name and ';' deleted when it
        starts with them, made unique among the feature's scenarios, and cached. */
    method GetSafeName(host: Helpers) returns (name: string)
      requires parent != null && parent.parent != null
      modifies this`safeName, this`uniquifiedBase, parent`safeName, parent`uniquifiedBase
      ensures old(safeName).Some? ==>
        && name == old(safeName).value
        && safeName == old(safeName) && uniquifiedBase == old(uniquifiedBase)
        && parent.safeName == old(parent.safeName) && parent.uniquifiedBase == old(parent.uniquifiedBase)
      ensures old(safeName).None? ==>
        && parent.safeName.Some?
        && (old(parent.safeName).Some? ==> parent.safeName == old(parent.safeName))
        && uniquifiedBase == Some(ScenarioBaseName(host.safe(scenario.id), parent.safeName.value))
        && name == host.uniquify(old(ScenarioClaims(parent.scenarioResults)), uniquifiedBase.value)
        && safeName == Some(name)
    {
      if safeName.Some? {
        return safeName.value;
      }
      var parentName := parent.GetSafeName(host);
      var base := ScenarioBaseName(host.safe(scenario.id), parentName);
      name := host.uniquify(ScenarioClaims(parent.scenarioResults), base);
      uniquifiedBase := Some(base);
      safeName := Some(name);
    }

    /** getRelativePathFrom: "." from itself; otherwise the walk up through this
        scenario, its feature and the root (named `rootSafeName`), first towards
        `from` and then towards `from`'s parent behind "../". Each name is
        computed when the walk passes its node, so coming from the feature only
        this scenario is named. */
    method GetRelativePathFrom(host: Helpers, from: Node, rootSafeName: string) returns (p: RelativePath)
      requires parent != null && parent.parent != null
      modifies this`safeName, this`uniquifiedBase, parent`safeName, parent`uniquifiedBase
      ensures from == ScenarioNode(this) ==> p == Path(".")
      ensures from != ScenarioNode(this) ==> safeName.Some?
      ensures from == FeatureNode(parent) ==> p == Path(safeName.value + "/")
      ensures from != ScenarioNode(this) && from != FeatureNode(parent) ==>
        && parent.safeName.Some?
        && p == RelativePathFrom(from, ParentOf(from), Ancestry(rootSafeName))
      ensures from == RootNode(parent.parent) ==>
        p == Path(parent.safeName.value + "/" + safeName.value + "/")
      ensures from.TagNode? && from.tag.parent == parent.parent ==>
        p == Path("../" + parent.safeName.value + "/" + safeName.value + "/")
    {
      if from == ScenarioNode(this) {
        return Path(".");
      }
      var name := GetSafeName(host);
      if from == FeatureNode(parent) {
        return Path(name + "/");
      }
      var parentName := parent.GetSafeName(host);
      var chain := Ancestry(rootSafeName);
      p := RelativePathFrom(from, ParentOf(from), chain);
      AncestryPaths(chain, from, ParentOf(from));
    }

    /** This scenario, its feature and the root, each with its safe name. */
    function Ancestry(rootSafeName: string): seq<(Node, string)>
      requires parent != null && parent.parent != null && safeName.Some? && parent.safeName.Some?
      reads this, parent
    {
      [(ScenarioNode(this), safeName.value),
       (FeatureNode(parent), parent.safeName.value),
       (RootNode(parent.parent), rootSafeName)]
    }
  }

  /** The backgrounds of the scenarios of `ss`. */
  function Backgrounds(ss: seq<ScenarioResult>): set<BackgroundResult> {
    set s | s in ss && s.backgroundResult != null :: s.backgroundResult
  }

  /** The scenarios of the features of `fs`. */
  function AllScenarios(fs: seq<FeatureResult>): set<ScenarioResult>
    reads fs`scenarioResults
  {
    set f, s | f in fs && s in f.scenarioResults :: s
  }

  /** The backgrounds of the scenarios of the features of `fs`. */
  function AllBackgrounds(fs: seq<FeatureResult>): set<BackgroundResult>
    reads fs`scenarioResults
  {
    set f, s | f in fs && s in f.scenarioResults && s.backgroundResult != null :: s.backgroundResult
  }

  /** The base names the scenarios of `ss` are registered under. */
  function ScenarioClaims(ss: seq<ScenarioResult>): seq<string>
    reads ss`uniquifiedBase
  {
    if ss == [] then []
    else
      var last := ss[|ss| - 1];
      ScenarioClaims(ss[..|ss| - 1]) + (match last.uniquifiedBase case None => [] case Some(b) => [b])
  }

  /** The base names the features of `fs` are registered under. */
  function FeatureClaims(fs: seq<FeatureResult>): seq<string>
    reads fs`uniquifiedBase
  {
    if fs == [] then []
    else
      var last := fs[|fs| - 1];
      FeatureClaims(fs[..|fs| - 1]) + (match last.uniquifiedBase case None => [] case Some(b) => [b])
  }

  /** Counters and a failed list, as a node holds them. */
  datatype Counts = Counts(pass: int, fail: int, skip: int, duration: int, failed: seq<ScenarioResult>)

  /** The outcomes the scenarios of `ss` hold now. */
  function Outcomes(ss: seq<ScenarioResult>): (os: seq<Outcome>)
    reads ss`failed, ss`duration
    ensures |os| == |ss| && forall j :: 0 <= j < |ss| ==> os[j] == ss[j].Snapshot()
  {
    if ss == [] then [] else Outcomes(ss[..|ss| - 1]) + [ss[|ss| - 1].Snapshot()]
  }

  /** What a tally adds up over the scenarios `ss` with outcomes `os`: the
      passed and failed counts, the skipped count, the total duration and the
      scenarios that did not pass, in order. */
  function Tallies(ss: seq<ScenarioResult>, os: seq<Outcome>): Counts
    requires |ss| == |os|
  {
    if ss == [] then Counts(0, 0, 0, 0, [])
    else
      var n := |ss| - 1;
      var c := Tallies(ss[..n], os[..n]);
      Counts(
        c.pass + (if os[n].failed then 0 else 1),
        c.fail + (if os[n].failed then 1 else 0),
        c.skip + ss[n].SkipCount(),
        c.duration + os[n].duration,
        c.failed + (if os[n].failed then [ss[n]] else []))
  }

  /** Every scenario counts once, as passed or as failed, never as skipped; the
      failed list has one entry per failure and holds exactly the failed ones. */
  lemma {:induction false} TallyConservation(ss: seq<ScenarioResult>, os: seq<Outcome>)
    requires |ss| == |os|
    ensures Tallies(ss, os).pass + Tallies(ss, os).fail == |ss|
    ensures Tallies(ss, os).skip == 0
    ensures |Tallies(ss, os).failed| == Tallies(ss, os).fail
    ensures forall s :: s in Tallies(ss, os).failed <==> exists j :: 0 <= j < |ss| && ss[j] == s && os[j].failed
  {
    if ss != [] {
      var n := |ss| - 1;
      TallyConservation(ss[..n], os[..n]);
      forall s
        ensures s in Tallies(ss, os).failed <==> exists j :: 0 <= j < |ss| && ss[j] == s && os[j].failed
      {
        if s in Tallies(ss[..n], os[..n]).failed {
          var j :| 0 <= j < n && ss[..n][j] == s && os[..n][j].failed;
          assert ss[j] == s && os[j].failed;
        }
        if exists j :: 0 <= j < |ss| && ss[j] == s && os[j].failed {
          var j :| 0 <= j < |ss| && ss[j] == s && os[j].failed;
          if j < n {
            assert ss[..n][j] == s && os[..n][j].failed;
          }
        }
      }
    }
  }

  /** The cached safe names of scenarios that all have one. */
  function ScenarioNames(ss: seq<ScenarioResult>): (names: seq<string>)
    requires forall s :: s in ss ==> s.safeName.Some?
    reads ss`safeName
    ensures |names| == |ss| && forall j :: 0 <= j < |ss| ==> Some(names[j]) == ss[j].safeName
  {
    if ss == [] then [] else ScenarioNames(ss[..|ss| - 1]) + [ss[|ss| - 1].safeName.value]
  }

  /** The cached safe names of features that all have one. */
  function FeatureNames(fs: seq<FeatureResult>): (names: seq<string>)
    requires FeaturesNamed(fs)
    reads fs`safeName
    ensures |names| == |fs| && forall j :: 0 <= j < |fs| ==> Some(names[j]) == fs[j].safeName
  {
    if fs == [] then [] else FeatureNames(fs[..|fs| - 1]) + [fs[|fs| - 1].safeName.value]
  }

  class FeatureResult {
    const uri: Option<string>
    const feature: Feature
    var scenarioResults: seq<ScenarioResult>
    var parent: CucumberTestResult?

    /** The cached safe name, and the base name it was registered under. */
    var safeName: Option<string>
    var uniquifiedBase: Option<string>

    // recomputed by Tally
    var failedScenarioResults: seq<ScenarioResult>
    var scenariosByID: map<string, ScenarioResult>
    var passCount: int
    var failCount: int
    var skipCount: int
    var duration: int

    ghost var Repr: set<object>

    /** Every scenario's parent is this feature, no scenario is listed twice and
        no background is shared. */
    ghost predicate Valid()
      reads this`scenarioResults, scenarioResults`parent
    {
      && (forall s :: s in scenarioResults ==> s.parent == this)
      && (forall i, j :: 0 <= i < j < |scenarioResults| ==>
            scenarioResults[i] != scenarioResults[j] && scenarioResults[i].Bg() !! scenarioResults[j].Bg())
    }

    /** The feature's footprint holds it, its scenarios and their backgrounds. */
    ghost predicate Owns()
      reads this`Repr, this`scenarioResults
    {
      && this in Repr
      && (forall s :: s in scenarioResults ==> s in Repr && s.Bg() <= Repr)
    }

    /** The counters, the failed list and the index are those a tally computes
        from the scenarios `ss`, each of them tallied and named. */
    ghost predicate TalliedWith(ss: seq<ScenarioResult>)
      reads this`passCount, this`failCount, this`skipCount, this`duration,
        this`failedScenarioResults, this`scenariosByID
      reads ss`steps, ss`beforeResults, ss`afterResults, ss`failed, ss`duration, ss`safeName
      reads Backgrounds(ss)`stepResults, Backgrounds(ss)`failed, Backgrounds(ss)`skipped, Backgrounds(ss)`duration
    {
      && AllTallied(ss)
      && AllNamed(ss)
      && Summary() == Tallies(ss, Outcomes(ss))
      && scenariosByID == IndexByKey(ss, ScenarioNames(ss))
    }

    function Summary(): Counts
      reads this`passCount, this`failCount, this`skipCount, this`duration, this`failedScenarioResults
    {
      Counts(passCount, failCount, skipCount, duration, failedScenarioResults)
    }

    constructor (uri: Option<string>, feature: Feature)
      ensures Valid() && Owns() && fresh(Repr) && Repr == {this}
      ensures this.uri == uri && this.feature == feature
      ensures scenarioResults == [] && parent == null && safeName == None && uniquifiedBase == None
      ensures failedScenarioResults == [] && scenariosByID == map[]
      ensures passCount == 0 && failCount == 0 && skipCount == 0 && duration == 0
    {
      this.uri := uri;
      this.feature := feature;
      scenarioResults := [];
      parent := null;
      safeName, uniquifiedBase := None, None;
      failedScenarioResults, scenariosByID := [], map[];
      passCount, failCount, skipCount, duration := 0, 0, 0, 0;
      Repr := {this};
    }

    /** findCorrespondingResult: the scenario indexed under `id`. */
    function FindCorrespondingResult(id: string): (r: Option<Node>)
      reads this`scenariosByID
      ensures r.Some? <==> id in scenariosByID
      ensures r.Some? ==> r.value.ScenarioNode? && r.value.scenario == scenariosByID[id]
    {
      if id in scenariosByID then Some(ScenarioNode(scenariosByID[id])) else None
    }

    /** getDynamic, `featureId` being this feature's id: the feature itself, else
        what findCorrespondingResult finds, else the inherited behaviour. */
    function GetDynamic(featureId: string, token: string): (d: Dynamic)
      reads this`scenariosByID
      ensures token == featureId ==> d == Found(FeatureNode(this))
      ensures token != featureId ==> (d.Found? <==> FindCorrespondingResult(token).Some?)
      ensures token != featureId && d.Found? ==> d.node == FindCorrespondingResult(token).value
    {
      if token == featureId then Found(FeatureNode(this))
      else if token in scenariosByID then Found(ScenarioNode(scenariosByID[token]))
      else Delegate
    }

    /** addScenarioResult: appends the scenario and makes this feature its parent. */
    method AddScenarioResult(scenarioResult: ScenarioResult)
      requires Valid() && Owns() && scenarioResult.Footprint() !! Repr
      modifies this`scenarioResults, this`Repr, scenarioResult`parent
      ensures Valid() && Owns()
      ensures scenarioResults == old(scenarioResults) + [scenarioResult]
      ensures scenarioResult.parent == this
      ensures Repr == old(Repr) + scenarioResult.Footprint()
    {
      scenarioResults := scenarioResults + [scenarioResult];
      scenarioResult.parent := this;
      Repr := Repr + scenarioResult.Footprint();
    }

    /** getSafeName: the cached name if there is one; otherwise the safe form of
        the feature's id, made unique among the root's features, and cached. */
    method GetSafeName(host: Helpers) returns (name: string)
      requires parent != null
      modifies this`safeName, this`uniquifiedBase
      ensures old(safeName).Some? ==>
        name == old(safeName).value && safeName == old(safeName) && uniquifiedBase == old(uniquifiedBase)
      ensures old(safeName).None? ==>
        && uniquifiedBase == Some(host.safe(feature.id))
        && name == host.uniquify(old(FeatureClaims(parent.featureResults)), host.safe(feature.id))
        && safeName == Some(name)
    {
      if safeName.Some? {
        return safeName.value;
      }
      var base := host.safe(feature.id);
      name := host.uniquify(FeatureClaims(parent.featureResults), base);
      uniquifiedBase := Some(base);
      safeName := Some(name);
    }

    /** tally: clears the index, the failed list and the counters, then walks
        the scenarios: tallies each one, indexes it under its safe name, adds
        its counts and duration and lists it when it did not pass. When a
        scenario's tally raises, the walk stops there, and the counters, the
        failed list and the index hold what the walk had gathered. */
    method Tally(host: Helpers) returns (r: Result<()>)
      requires Valid() && parent != null
      modifies this`failedScenarioResults, this`scenariosByID, this`passCount, this`failCount, this`skipCount,
        this`duration, this`safeName, this`uniquifiedBase
      modifies scenarioResults`failed, scenarioResults`duration,
        scenarioResults`safeName, scenarioResults`uniquifiedBase
      modifies Backgrounds(scenarioResults)`failed, Backgrounds(scenarioResults)`skipped,
        Backgrounds(scenarioResults)`duration
      ensures r.Ok? <==> forall s :: s in old(scenarioResults) ==> !old(s.Raises())
      ensures r.Ok? ==> TalliedWith(old(scenarioResults))
    {
      var ss := scenarioResults;
      var k;
      r, k := TallyAndName(this, ss, host);
      var done := ss[..k];
      if r.Ok? {
        assert done == ss;
      }
      var c := Tallies(done, Outcomes(done));
      var byId := IndexByKey(done, ScenarioNames(done));
      StoreTally(this, done, c, byId);
      if r.Err? {
        assert ss[k] in ss;
      }
    }
  }

  /** Every scenario of `ss` is tallied. */
  ghost predicate AllTallied(ss: seq<ScenarioResult>)
    reads ss`steps, ss`beforeResults, ss`afterResults, ss`failed, ss`duration
    reads Backgrounds(ss)`stepResults, Backgrounds(ss)`failed, Backgrounds(ss)`skipped, Backgrounds(ss)`duration
  {
    forall j :: 0 <= j < |ss| ==> ss[j].Tallied()
  }

  /** Every scenario of `ss` has its safe name cached. */
  ghost predicate AllNamed(ss: seq<ScenarioResult>)
    reads ss`safeName
  {
    forall j :: 0 <= j < |ss| ==> ss[j].safeName.Some?
  }

  /** A scenario whose contents, background and counters are as they were is
      still tallied. */
  twostate lemma TalliedFramed(s: ScenarioResult)
    requires old(s.Tallied())
    requires unchanged(s`steps, s`beforeResults, s`afterResults, s`failed, s`duration)
    requires unchanged(s.Bg()`stepResults, s.Bg()`failed, s.Bg()`skipped, s.Bg()`duration)
    ensures s.Tallied()
  {
  }

  /** Scenarios whose contents, backgrounds, counters and names are as they were
      keep what was said of them. */
  twostate lemma ScenariosFramed(ss: seq<ScenarioResult>)
    requires unchanged(ss`steps, ss`beforeResults, ss`afterResults, ss`failed, ss`duration, ss`safeName)
    requires unchanged(Backgrounds(ss)`stepResults, Backgrounds(ss)`failed, Backgrounds(ss)`skipped,
      Backgrounds(ss)`duration)
    ensures old(AllTallied(ss)) ==> AllTallied(ss)
    ensures old(AllNamed(ss)) ==> AllNamed(ss) && ScenarioNames(ss) == old(ScenarioNames(ss))
    ensures Outcomes(ss) == old(Outcomes(ss))
  {
  }

  /** Whether a scenario's tally raises depends only on its contents, and on
      its background's steps. */
  twostate lemma RaisesFramed(ss: seq<ScenarioResult>)
    requires unchanged(ss`steps, ss`beforeResults, ss`afterResults, Backgrounds(ss)`stepResults)
    ensures forall s :: s in ss ==> (s.Raises() <==> old(s.Raises()))
  {
  }

  /** No scenario of `ss` raises when tallied. */
  ghost predicate NoneRaise(ss: seq<ScenarioResult>)
    reads ss`steps, ss`beforeResults, ss`afterResults, Backgrounds(ss)`stepResults
  {
    forall s :: s in ss ==> !s.Raises()
  }

  /** The walk of a feature tally over its scenarios `ss`: each is tallied and
      then named, up to the first whose tally raises; `k` scenarios were
      tallied without raising. */
  method TallyAndName(f: FeatureResult, ss: seq<ScenarioResult>, host: Helpers) returns (r: Result<()>, k: nat)
    requires f.parent != null && forall s :: s in ss ==> s.parent == f
    requires forall i, j :: 0 <= i < j < |ss| ==> ss[i] != ss[j] && ss[i].Bg() !! ss[j].Bg()
    modifies ss`failed, ss`duration, ss`safeName, ss`uniquifiedBase, f`safeName, f`uniquifiedBase
    modifies Backgrounds(ss)`failed, Backgrounds(ss)`skipped, Backgrounds(ss)`duration
    ensures k <= |ss|
    ensures r.Ok? ==> k == |ss|
    ensures r.Err? ==> k < |ss| && old(ss[k].Raises())
    ensures forall j :: 0 <= j < k ==> !old(ss[j].Raises())
    ensures AllTallied(ss[..k]) && AllNamed(ss[..k])
  {
    r, k := TallyEach(ss);
    var done := ss[..k];
    label Tallied:
    NameEach(f, done, host);
    forall j | 0 <= j < k
      ensures ss[j].Tallied()
    {
      TalliedFramed@Tallied(ss[j]);
    }
  }

  /** Stores what a feature tally gathered over the scenarios `ss` in the
      feature's counters, failed list and index. */
  method StoreTally(f: FeatureResult, ss: seq<ScenarioResult>, c: Counts, byId: map<string, ScenarioResult>)
    modifies f`failedScenarioResults, f`scenariosByID, f`passCount, f`failCount, f`skipCount, f`duration
    ensures f.Summary() == c && f.scenariosByID == byId
    ensures old(AllTallied(ss)) ==> AllTallied(ss)
    ensures old(AllNamed(ss)) ==> AllNamed(ss) && ScenarioNames(ss) == old(ScenarioNames(ss))
    ensures Outcomes(ss) == old(Outcomes(ss))
  {
    label Before:
    f.scenariosByID := byId;
    f.passCount, f.failCount, f.skipCount, f.duration := c.pass, c.fail, c.skip, c.duration;
    f.failedScenarioResults := c.failed;
    ScenariosFramed@Before(ss);
  }

  /** The tallying part of a feature tally's walk: tallies the scenarios of
      `ss` in order and stops at the first whose tally raises; `k` scenarios
      were tallied without raising. */
  method TallyEach(ss: seq<ScenarioResult>) returns (r: Result<()>, k: nat)
    requires forall i, j :: 0 <= i < j < |ss| ==> ss[i] != ss[j] && ss[i].Bg() !! ss[j].Bg()
    modifies ss`failed, ss`duration, Backgrounds(ss)`failed, Backgrounds(ss)`skipped, Backgrounds(ss)`duration
    ensures k <= |ss|
    ensures r.Ok? ==> k == |ss|
    ensures r.Err? ==> k < |ss| && old(ss[k].Raises())
    ensures forall j :: 0 <= j < k ==> !old(ss[j].Raises()) && ss[j].Tallied()
  {
    k := 0;
    while k < |ss|
      invariant 0 <= k <= |ss|
      invariant forall j :: 0 <= j < k ==> !old(ss[j].Raises()) && ss[j].Tallied()
    {
      var sr := ss[k];
      assert sr.Raises() == old(sr.Raises());
      r := sr.Tally();
      if r.Err? {
        return;
      }
      k := k + 1;
    }
    r := Ok(());
  }

  /** The naming part of a feature tally's walk: asks each scenario of `ss`,
      in order, for its safe name, which computes and caches it when missing. */
  method NameEach(f: FeatureResult, ss: seq<ScenarioResult>, host: Helpers)
    requires f.parent != null && forall s :: s in ss ==> s.parent == f
    modifies ss`safeName, ss`uniquifiedBase, f`safeName, f`uniquifiedBase
    ensures forall j :: 0 <= j < |ss| ==> ss[j].safeName.Some?
    ensures forall s :: s in ss && old(s.safeName).Some? ==> s.safeName == old(s.safeName)
    ensures old(f.safeName).Some? ==> f.safeName == old(f.safeName)
  {
    var i := 0;
    while i < |ss|
      invariant 0 <= i <= |ss|
      invariant forall j :: 0 <= j < i ==> ss[j].safeName.Some?
      invariant forall s :: s in ss && old(s.safeName).Some? ==> s.safeName == old(s.safeName)
      invariant old(f.safeName).Some? ==> f.safeName == old(f.safeName)
    {
      var name := ss[i].GetSafeName(host);
      i := i + 1;
    }
  }

  /** The summing part of a tag tally's walk over its member scenarios: counts
      each as passed or failed, adds its duration and lists it when it did not
      pass. */
  method SumScenarios(ss: seq<ScenarioResult>) returns (c: Counts)
    ensures c == Tallies(ss, Outcomes(ss))
  {
    ghost var os := Outcomes(ss);
    c := Counts(0, 0, 0, 0, []);
    var i := 0;
    while i < |ss|
      invariant 0 <= i <= |ss|
      invariant c == Tallies(ss[..i], os[..i])
    {
      var sr := ss[i];
      assert ss[..i + 1][..i] == ss[..i] && os[..i + 1][..i] == os[..i] && os[i] == sr.Snapshot();
      c := Counts(c.pass + sr.PassCount(), c.fail + sr.FailCount(), c.skip + sr.SkipCount(), c.duration + sr.duration,
        c.failed + (if sr.IsPassed() then [] else [sr]));
      i := i + 1;
    }
    assert ss[..i] == ss && os[..i] == os;
  }

  class TagResult {
    const tagName: string
    /** A set of scenarios: no scenario is held twice. */
    var scenarioResults: seq<ScenarioResult>
    var parent: CucumberTestResult?
    var safeName: Option<string>

    // recomputed by Tally
    var failedScenarioResults: seq<ScenarioResult>
    var passCount: int
    var failCount: int
    var skipCount: int
    var duration: int

    /** The counters and the failed list are those of the member scenarios as
        they are now. */
    ghost predicate Tallied()
      reads this`scenarioResults, this`failedScenarioResults, this`passCount, this`failCount, this`skipCount,
        this`duration
      reads scenarioResults`failed, scenarioResults`duration
    {
      Summary() == Tallies(scenarioResults, Outcomes(scenarioResults))
    }

    function Summary(): Counts
      reads this`passCount, this`failCount, this`skipCount, this`duration, this`failedScenarioResults
    {
      Counts(passCount, failCount, skipCount, duration, failedScenarioResults)
    }

    constructor (tagName: string)
      ensures this.tagName == tagName && scenarioResults == [] && parent == null && safeName == None
      ensures failedScenarioResults == [] && passCount == 0 && failCount == 0 && skipCount == 0 && duration == 0
    {
      this.tagName := tagName;
      scenarioResults := [];
      parent := null;
      safeName := None;
      failedScenarioResults := [];
      passCount, failCount, skipCount, duration := 0, 0, 0, 0;
    }

    /** addScenarioResult: set insertion, so a scenario already held is not added again. */
    method AddScenarioResult(scenarioResult: ScenarioResult)
      modifies this`scenarioResults
      ensures scenarioResult in old(scenarioResults) ==> scenarioResults == old(scenarioResults)
      ensures scenarioResult !in old(scenarioResults) ==> scenarioResults == old(scenarioResults) + [scenarioResult]
    {
      if scenarioResult !in scenarioResults {
        scenarioResults := scenarioResults + [scenarioResult];
      }
    }

    method SetParent(parent: CucumberTestResult)
      modifies this`parent
      ensures this.parent == parent
    {
      this.parent := parent;
    }

    /** The root's step for each tag: the root becomes its parent, then it is tallied. */
    method Adopt(root: CucumberTestResult)
      modifies this`parent, this`failedScenarioResults, this`passCount, this`failCount, this`skipCount,
        this`duration
      ensures parent == root && Tallied()
    {
      SetParent(root);
      Tally();
    }

    /** getSafeName: the safe form of the tag name, not made unique since tags
        are shared, computed once and cached. */
    method GetSafeName(host: Helpers) returns (name: string)
      modifies this`safeName
      ensures old(safeName).Some? ==> name == old(safeName).value && safeName == old(safeName)
      ensures old(safeName).None? ==> name == host.safe(tagName) && safeName == Some(name)
    {
      if safeName.Some? {
        return safeName.value;
      }
      name := host.safe(tagName);
      safeName := Some(name);
    }

    /** tally: resets the counters and the failed list, then adds up the member
        scenarios as they are, without tallying them again. */
    method Tally()
      modifies this`failedScenarioResults, this`passCount, this`failCount, this`skipCount, this`duration
      ensures Tallied()
    {
      failedScenarioResults := [];
      passCount, failCount, skipCount, duration := 0, 0, 0, 0;
      var c := SumScenarios(scenarioResults);
      ghost var os := Outcomes(scenarioResults);
      passCount, failCount, skipCount, duration := c.pass, c.fail, c.skip, c.duration;
      failedScenarioResults := c.failed;
      assert Outcomes(scenarioResults) == os;
    }
  }

  /** The summaries the features of `fs` hold now. */
  function Summaries(fs: seq<FeatureResult>): (sums: seq<Counts>)
    reads fs`passCount, fs`failCount, fs`skipCount
    reads fs`duration, fs`failedScenarioResults
    ensures |sums| == |fs| && forall j :: 0 <= j < |fs| ==> sums[j] == fs[j].Summary()
  {
    if fs == [] then [] else Summaries(fs[..|fs| - 1]) + [fs[|fs| - 1].Summary()]
  }

  /** What the root's tally adds up over feature summaries: the counters and
      the durations summed, the failed lists one after the other. */
  function Total(sums: seq<Counts>): Counts {
    if sums == [] then Counts(0, 0, 0, 0, []) else Plus(Total(sums[..|sums| - 1]), sums[|sums| - 1])
  }

  /** Two summaries added up: the counters and the durations summed, the
      failed lists one after the other. */
  function Plus(c: Counts, d: Counts): Counts {
    Counts(c.pass + d.pass, c.fail + d.fail, c.skip + d.skip, c.duration + d.duration, c.failed + d.failed)
  }

  /** Adding up two runs of summaries one after the other adds up their totals,
      so the root's totals can be gathered feature by feature. */
  lemma {:induction false} TotalAppend(a: seq<Counts>, b: seq<Counts>)
    ensures Total(a + b) == Plus(Total(a), Total(b))
    decreases |b|
  {
    if b == [] {
      assert a + b == a;
      assert Total(a).failed + [] == Total(a).failed;
    } else {
      var n := |b| - 1;
      assert (a + b)[..|a + b| - 1] == a + b[..n] && (a + b)[|a + b| - 1] == b[n];
      TotalAppend(a, b[..n]);
      PlusAssociative(Total(a), Total(b[..n]), b[n]);
    }
  }

  /** Adding up summaries does not depend on how they are grouped. */
  lemma PlusAssociative(x: Counts, y: Counts, z: Counts)
    ensures Plus(Plus(x, y), z) == Plus(x, Plus(y, z))
  {
    assert x.failed + y.failed + z.failed == x.failed + (y.failed + z.failed);
  }

  /** The summaries of one more feature end with its own. */
  lemma SummariesSnoc(fs: seq<FeatureResult>, f: FeatureResult)
    ensures Summaries(fs + [f]) == Summaries(fs) + [f.Summary()]
  {
    assert (fs + [f])[..|fs|] == fs;
  }

  /** Adding one feature to the root adds its summary to the root's totals:
      the counters addFeatureResult adds up are those the root's tally would
      find over the longer list (the failed list is only rebuilt by tally). */
  lemma TotalSnoc(fs: seq<FeatureResult>, f: FeatureResult)
    ensures Total(Summaries(fs + [f])) == Plus(Total(Summaries(fs)), f.Summary())
  {
    SummariesSnoc(fs, f);
    assert (Summaries(fs) + [f.Summary()])[..|fs|] == Summaries(fs);
  }

  /** The summaries of two runs of features are those of each run, one
      after the other. */
  lemma SummariesAppend(fs: seq<FeatureResult>, gs: seq<FeatureResult>)
    ensures Summaries(fs + gs) == Summaries(fs) + Summaries(gs)
  {
    var all, parts := Summaries(fs + gs), Summaries(fs) + Summaries(gs);
    forall j | 0 <= j < |all|
      ensures all[j] == parts[j]
    {
      if j < |fs| {
        assert (fs + gs)[j] == fs[j];
      } else {
        assert (fs + gs)[j] == gs[j - |fs|];
      }
    }
  }

  /** Merging features `gs` after features `fs` adds the totals of `gs` to
      those of `fs`: the counters and durations a merge adds up incrementally
      are those a tally of the merged list would sum. */
  lemma MergedTotals(fs: seq<FeatureResult>, gs: seq<FeatureResult>)
    ensures Total(Summaries(fs + gs)) == Plus(Total(Summaries(fs)), Total(Summaries(gs)))
  {
    SummariesAppend(fs, gs);
    TotalAppend(Summaries(fs), Summaries(gs));
  }

  /** When every feature's fail count is the length of its failed list, the
      total fail count is the length of the combined failed list. */
  lemma {:induction false} TotalCountsFailed(sums: seq<Counts>)
    requires forall j :: 0 <= j < |sums| ==> sums[j].fail == |sums[j].failed|
    ensures Total(sums).fail == |Total(sums).failed|
  {
    if sums != [] {
      TotalCountsFailed(sums[..|sums| - 1]);
    }
  }

  /** The root's totals over freshly tallied features are the totals over all
      of their scenarios: every scenario counts once, as passed or as failed. */
  lemma {:induction false} TotalOfTallies(sss: seq<seq<ScenarioResult>>, oss: seq<seq<Outcome>>, sums: seq<Counts>)
    requires |sss| == |oss| == |sums|
    requires forall j :: 0 <= j < |sss| ==> |sss[j]| == |oss[j]| && sums[j] == Tallies(sss[j], oss[j])
    ensures Total(sums).pass + Total(sums).fail == Sizes(sss)
    ensures Total(sums).skip == 0
    ensures Total(sums).fail == |Total(sums).failed|
  {
    if sss != [] {
      var n := |sss| - 1;
      TotalOfTallies(sss[..n], oss[..n], sums[..n]);
      TallyConservation(sss[n], oss[n]);
    }
  }

  /** The number of scenarios in the lists `sss`. */
  function Sizes(sss: seq<seq<ScenarioResult>>): nat {
    if sss == [] then 0 else Sizes(sss[..|sss| - 1]) + |sss[|sss| - 1]|
  }

  /** Each scenario of a feature with the tags it joins, in order. */
  function FeatureEntries(feature: Feature, ss: seq<ScenarioResult>): seq<(ScenarioResult, seq<string>)> {
    if ss == [] then []
    else
      var last := ss[|ss| - 1];
      FeatureEntries(feature, ss[..|ss| - 1]) + [(last, ScenarioTags(feature, last.scenario))]
  }

  /** Each scenario of the features with the tags it joins, in visiting order. */
  function Entries(fs: seq<FeatureResult>): seq<(ScenarioResult, seq<string>)>
    reads fs`scenarioResults
  {
    if fs == [] then []
    else
      var last := fs[|fs| - 1];
      Entries(fs[..|fs| - 1]) + FeatureEntries(last.feature, last.scenarioResults)
  }

  /** The scenario lists of the features of `fs`. */
  function ScenarioLists(fs: seq<FeatureResult>): (sss: seq<seq<ScenarioResult>>)
    reads fs`scenarioResults
    ensures |sss| == |fs| && forall j :: 0 <= j < |fs| ==> sss[j] == fs[j].scenarioResults
  {
    if fs == [] then [] else ScenarioLists(fs[..|fs| - 1]) + [fs[|fs| - 1].scenarioResults]
  }

  /** The scenarios of the lists `sss`. */
  function Flatten(sss: seq<seq<ScenarioResult>>): set<ScenarioResult> {
    set j, s | 0 <= j < |sss| && s in sss[j] :: s
  }

  /** The backgrounds of the scenarios of the lists `sss`. */
  function FlatBackgrounds(sss: seq<seq<ScenarioResult>>): set<BackgroundResult> {
    set s | s in Flatten(sss) && s.backgroundResult != null :: s.backgroundResult
  }

  /** Each list of `sss` is among the flattened scenarios, its backgrounds
      among the flattened backgrounds. */
  lemma FlattenCovers(sss: seq<seq<ScenarioResult>>, j: int)
    requires 0 <= j < |sss|
    ensures forall s :: s in sss[j] ==> s in Flatten(sss)
    ensures Backgrounds(sss[j]) <= FlatBackgrounds(sss)
  {
  }

  /** The scenarios and backgrounds of a prefix of `sss` are among those of `sss`. */
  lemma FlattenPrefix(sss: seq<seq<ScenarioResult>>, k: int)
    requires 0 <= k <= |sss|
    ensures Flatten(sss[..k]) <= Flatten(sss) && FlatBackgrounds(sss[..k]) <= FlatBackgrounds(sss)
  {
    forall s | s in Flatten(sss[..k])
      ensures s in Flatten(sss)
    {
      var j :| 0 <= j < k && s in sss[..k][j];
      assert sss[..k][j] == sss[j];
    }
  }

  /** The feature `fs[j]`, if there is one, has a parent, is well formed over
      the scenarios `sss[j]`, and `clean[j]` says whether none of them raises. */
  ghost predicate ReadyAt(fs: seq<FeatureResult>, sss: seq<seq<ScenarioResult>>, clean: seq<bool>, j: int)
    requires |fs| == |sss| == |clean|
    reads fs`parent, fs`scenarioResults
    reads Flatten(sss)`parent, Flatten(sss)`steps, Flatten(sss)`beforeResults, Flatten(sss)`afterResults,
      FlatBackgrounds(sss)`stepResults
  {
    0 <= j < |fs| ==>
      (FlattenCovers(sss, j);
       && fs[j].parent != null && fs[j].scenarioResults == sss[j] && fs[j].Valid()
       && clean[j] == NoneRaise(sss[j]))
  }

  /** Which lists of `sss` hold no scenario whose tally raises. */
  ghost function CleanFlags(sss: seq<seq<ScenarioResult>>): (clean: seq<bool>)
    reads Flatten(sss)`steps, Flatten(sss)`beforeResults, Flatten(sss)`afterResults,
      FlatBackgrounds(sss)`stepResults
    ensures |clean| == |sss|
    ensures forall j :: 0 <= j < |sss| ==> (FlattenCovers(sss, j); clean[j] == NoneRaise(sss[j]))
  {
    if sss == [] then []
    else
      FlattenPrefix(sss, |sss| - 1);
      FlattenCovers(sss, |sss| - 1);
      CleanFlags(sss[..|sss| - 1]) + [NoneRaise(sss[|sss| - 1])]
  }

  /** The scenarios of each feature are among all scenarios, their backgrounds
      among all backgrounds. */
  lemma ScenarioListsCover(fs: seq<FeatureResult>)
    ensures forall j, s :: 0 <= j < |fs| && s in ScenarioLists(fs)[j] ==> s in AllScenarios(fs)
    ensures forall j :: 0 <= j < |fs| ==> Backgrounds(ScenarioLists(fs)[j]) <= AllBackgrounds(fs)
  {
    var sss := ScenarioLists(fs);
    forall j | 0 <= j < |fs|
      ensures forall s :: s in sss[j] ==> s in AllScenarios(fs)
      ensures Backgrounds(sss[j]) <= AllBackgrounds(fs)
    {
      assert fs[j] in fs;
    }
  }

  /** Every feature of `fs` has its safe name cached. */
  ghost predicate FeaturesNamed(fs: seq<FeatureResult>)
    reads fs`safeName
  {
    forall j :: 0 <= j < |fs| ==> fs[j].safeName.Some?
  }

  /** The feature `fs[j]`, if there is one, is tallied over `sss[j]`. */
  ghost predicate TalliedAt(fs: seq<FeatureResult>, sss: seq<seq<ScenarioResult>>, j: int)
    requires |sss| == |fs|
    reads fs`passCount, fs`failCount, fs`skipCount, fs`duration, fs`failedScenarioResults, fs`scenariosByID
    reads Flatten(sss)`steps, Flatten(sss)`beforeResults, Flatten(sss)`afterResults, Flatten(sss)`failed,
      Flatten(sss)`duration, Flatten(sss)`safeName
    reads FlatBackgrounds(sss)`stepResults, FlatBackgrounds(sss)`failed, FlatBackgrounds(sss)`skipped,
      FlatBackgrounds(sss)`duration
  {
    0 <= j < |fs| ==> (FlattenCovers(sss, j); fs[j].TalliedWith(sss[j]))
  }

  /** Every feature of `fs` is tallied over its scenarios in `sss`, and named.
      (The quantifier fires only on `TalliedAt` terms, so that the tallies are
      unfolded only where a proof asks for them.) */
  ghost predicate FeaturesTallied(fs: seq<FeatureResult>, sss: seq<seq<ScenarioResult>>)
    requires |sss| == |fs|
    reads fs`passCount, fs`failCount, fs`skipCount, fs`duration, fs`failedScenarioResults, fs`scenariosByID,
      fs`safeName
    reads Flatten(sss)`steps, Flatten(sss)`beforeResults, Flatten(sss)`afterResults, Flatten(sss)`failed,
      Flatten(sss)`duration, Flatten(sss)`safeName
    reads FlatBackgrounds(sss)`stepResults, FlatBackgrounds(sss)`failed, FlatBackgrounds(sss)`skipped,
      FlatBackgrounds(sss)`duration
  {
    && (forall j {:trigger TalliedAt(fs, sss, j)} :: TalliedAt(fs, sss, j))
    && FeaturesNamed(fs)
  }

  /** The features of `fs` belong to `root`, each is well formed and owns its
      scenarios and their backgrounds, and no two features own a common object. */
  ghost predicate FeaturesValid(root: CucumberTestResult, fs: seq<FeatureResult>)
    reads fs`parent, fs`scenarioResults, fs`Repr, AllScenarios(fs)`parent
  {
    && (forall j {:trigger FeatureValidAt(root, fs, j)} :: FeatureValidAt(root, fs, j))
    && (forall i, j {:trigger ReprApartAt(fs, i, j)} :: ReprApartAt(fs, i, j))
  }

  /** The feature `fs[j]`, if there is one, belongs to `root`, is well formed
      and owns its scenarios and their backgrounds. */
  ghost predicate FeatureValidAt(root: CucumberTestResult, fs: seq<FeatureResult>, j: int)
    reads fs`parent, fs`scenarioResults, fs`Repr, AllScenarios(fs)`parent
  {
    0 <= j < |fs| ==>
      assert fs[j] in fs;
      assert forall s :: s in fs[j].scenarioResults ==> s in AllScenarios(fs);
      fs[j].parent == root && fs[j].Valid() && fs[j].Owns()
  }

  /** The features `fs[i]` and `fs[j]`, if `i < j` index two of them, own no
      common object. */
  ghost predicate ReprApartAt(fs: seq<FeatureResult>, i: int, j: int)
    reads fs`Repr
  {
    0 <= i < j < |fs| ==> fs[i].Repr !! fs[j].Repr
  }

  /** A feature `fss.0` whose counters, index, scenarios `fss.1` and their
      backgrounds are as they were is still tallied over those scenarios.
      (The pair is one parameter: a twostate lemma of one parameter is
      cheaper to call.) */
  twostate lemma FeatureFramed(fss: (FeatureResult, seq<ScenarioResult>))
    requires old(fss.0.TalliedWith(fss.1))
    requires unchanged(fss.0`passCount, fss.0`failCount, fss.0`skipCount, fss.0`duration,
      fss.0`failedScenarioResults, fss.0`scenariosByID)
    requires unchanged(fss.1`steps, fss.1`beforeResults, fss.1`afterResults, fss.1`failed, fss.1`duration,
      fss.1`safeName)
    requires unchanged(Backgrounds(fss.1)`stepResults, Backgrounds(fss.1)`failed, Backgrounds(fss.1)`skipped,
      Backgrounds(fss.1)`duration)
    ensures fss.0.TalliedWith(fss.1)
  {
  }

  /** The tag result belongs to `root` and is tallied. */
  ghost predicate TagDone(tr: TagResult, root: CucumberTestResult)
    reads tr`parent, tr`scenarioResults, tr`failedScenarioResults, tr`passCount, tr`failCount, tr`skipCount,
      tr`duration
    reads tr.scenarioResults`failed, tr.scenarioResults`duration
  {
    tr.parent == root && tr.Tallied()
  }

  /** Each tag result of `trs`, in any order, is adopted by `root`. */
  method AdoptAll(trs: set<TagResult>, root: CucumberTestResult)
    modifies trs`parent, trs`failedScenarioResults, trs`passCount, trs`failCount, trs`skipCount, trs`duration
    ensures forall tr :: tr in trs ==> TagDone(tr, root)
  {
    var remaining := trs;
    while remaining != {}
      invariant remaining <= trs
      invariant forall tr :: tr in trs && tr !in remaining ==> TagDone(tr, root)
      decreases remaining
    {
      var tr :| tr in remaining;
      tr.Adopt(root);
      remaining := remaining - {tr};
    }
  }

  /** The scenarios the tag results of `tags` hold. */
  function TagMembers(tags: map<string, TagResult>): set<ScenarioResult>
    reads tags.Values`scenarioResults
  {
    set t, s | t in tags && s in tags[t].scenarioResults :: s
  }

  /** The root's counters, failed list and feature index are those a tally
      computes from the named features `fs`. */
  ghost predicate TotalsOf(root: CucumberTestResult, fs: seq<FeatureResult>)
    requires FeaturesNamed(fs)
    reads root`passCount, root`failCount, root`skipCount, root`duration, root`failedScenarioResults,
      root`featuresById
    reads fs`passCount, fs`failCount, fs`skipCount, fs`duration, fs`failedScenarioResults, fs`safeName
  {
    && root.Summary() == Total(Summaries(fs))
    && root.featuresById == IndexByKey(fs, FeatureNames(fs))
  }

  /** The root's tag results index the scenarios of `fs` by tag, in visiting
      order, and each of them belongs to the root and is tallied. */
  ghost predicate TagsOf(root: CucumberTestResult, fs: seq<FeatureResult>)
    reads root`tagMap, root.tagMap.Values`scenarioResults, root.tagMap.Values`parent,
      root.tagMap.Values`failedScenarioResults, root.tagMap.Values`passCount, root.tagMap.Values`failCount,
      root.tagMap.Values`skipCount, root.tagMap.Values`duration
    reads TagMembers(root.tagMap)`failed, TagMembers(root.tagMap)`duration
    reads fs`scenarioResults
  {
    && root.TagView() == IndexTags(Entries(fs))
    && (forall t :: t in root.tagMap ==>
          assert forall s :: s in root.tagMap[t].scenarioResults ==> s in TagMembers(root.tagMap);
          TagDone(root.tagMap[t], root))
  }

  /** Features `p.0` that were tallied over `p.1` and named still are when
      their counters, names, scenarios and backgrounds are as they were. */
  twostate lemma FeaturesFramed(p: (seq<FeatureResult>, seq<seq<ScenarioResult>>))
    requires |p.1| == |p.0| && old(FeaturesTallied(p.0, p.1))
    requires unchanged(p.0`passCount, p.0`failCount, p.0`skipCount, p.0`duration, p.0`failedScenarioResults,
      p.0`scenariosByID, p.0`safeName)
    requires unchanged(Flatten(p.1)`steps, Flatten(p.1)`beforeResults, Flatten(p.1)`afterResults,
      Flatten(p.1)`failed, Flatten(p.1)`duration, Flatten(p.1)`safeName)
    requires unchanged(FlatBackgrounds(p.1)`stepResults, FlatBackgrounds(p.1)`failed,
      FlatBackgrounds(p.1)`skipped, FlatBackgrounds(p.1)`duration)
    ensures FeaturesTallied(p.0, p.1)
  {
    forall j {:trigger TalliedAt(p.0, p.1, j)}
      ensures TalliedAt(p.0, p.1, j)
    {
      assert old(TalliedAt(p.0, p.1, j));
    }
  }

  /** Well-formed features `p.1` of `p.0` stay well formed with one more
      feature `p.2`, well formed, owning its scenarios and apart from them, once
      its parent is `p.0`, as long as nothing else they depend on changed. */
  twostate lemma FeaturesValidSnoc(p: (CucumberTestResult, seq<FeatureResult>, FeatureResult))
    requires old(FeaturesValid(p.0, p.1) && p.2.Valid() && p.2.Owns())
    requires old(forall f :: f in p.1 ==> f.Repr !! p.2.Repr)
    requires p.2.parent == p.0
    requires unchanged(p.1`parent, p.1`scenarioResults, p.1`Repr, p.2`scenarioResults, p.2`Repr)
    requires unchanged(old(AllScenarios(p.1 + [p.2]))`parent)
    ensures FeaturesValid(p.0, p.1 + [p.2])
  {
    var fs := p.1 + [p.2];
    forall j {:trigger FeatureValidAt(p.0, fs, j)}
      ensures FeatureValidAt(p.0, fs, j)
    {
      if 0 <= j < |p.1| {
        assert old(FeatureValidAt(p.0, p.1, j));
        assert fs[j] == p.1[j] && p.1[j] in p.1;
        assert p.1[j] != p.2 by {
          assert p.1[j] in old(p.1[j].Repr) && p.2 in old(p.2.Repr);
        }
      } else if j == |p.1| {
        assert fs[j] == p.2;
      }
    }
    forall i, j {:trigger ReprApartAt(fs, i, j)}
      ensures ReprApartAt(fs, i, j)
    {
      if 0 <= i < j < |fs| {
        if j < |p.1| {
          assert old(ReprApartAt(p.1, i, j));
        } else {
          assert p.1[i] in p.1;
        }
      }
    }
  }

  /** A well-formed root stays well formed while its features, their
      scenarios' parents and their footprints are as they were. */
  twostate lemma RootKept(root: CucumberTestResult)
    requires old(root.Valid()) && unchanged(root`featureResults)
    requires unchanged(root.featureResults`parent, root.featureResults`scenarioResults, root.featureResults`Repr)
    requires unchanged(AllScenarios(root.featureResults)`parent)
    ensures root.Valid()
  {
  }

  /** A well-formed feature owning its scenarios stays so while its
      scenarios, their parents and its footprint are as they were. */
  twostate lemma FeatureKept(f: FeatureResult)
    requires old(f.Valid() && f.Owns())
    requires unchanged(f`scenarioResults, f`Repr) && unchanged(f.scenarioResults`parent)
    ensures f.Valid() && f.Owns()
  {
  }

  /** Well-formed features `p.1` of `p.0` stay well formed once the feature
      `p.1[p.2]` has taken one more scenario `p.3`, which none of them owned,
      as long as nothing else they depend on changed. */
  twostate lemma FeaturesValidGrow(p: (CucumberTestResult, seq<FeatureResult>, int, ScenarioResult))
    requires 0 <= p.2 < |p.1| && old(FeaturesValid(p.0, p.1))
    requires old(forall f :: f in p.1 ==> p.3.Footprint() !! f.Repr)
    requires p.1[p.2].scenarioResults == old(p.1[p.2].scenarioResults) + [p.3]
    requires p.1[p.2].Repr == old(p.1[p.2].Repr) + p.3.Footprint()
    requires p.1[p.2].Valid() && p.1[p.2].Owns()
    requires forall j :: 0 <= j < |p.1| && j != p.2 ==>
      p.1[j].scenarioResults == old(p.1[j].scenarioResults) && p.1[j].Repr == old(p.1[j].Repr)
    requires unchanged(p.1`parent) && unchanged(old(AllScenarios(p.1))`parent)
    ensures FeaturesValid(p.0, p.1)
  {
    var fs, k := p.1, p.2;
    forall j {:trigger FeatureValidAt(p.0, fs, j)}
      ensures FeatureValidAt(p.0, fs, j)
    {
      assert old(FeatureValidAt(p.0, fs, j));
      if 0 <= j < |fs| && j != k {
        assert fs[j] in fs && fs[k] in fs;
        assert forall s :: s in fs[j].scenarioResults ==> s in old(AllScenarios(fs));
      }
    }
    forall i, j {:trigger ReprApartAt(fs, i, j)}
      ensures ReprApartAt(fs, i, j)
    {
      assert old(ReprApartAt(fs, i, j));
      if 0 <= i < j < |fs| {
        assert fs[i] in fs && fs[j] in fs;
      }
    }
  }

  /** Features `p.0` that were tallied over `p.1` and named still are when
      none of them, their scenarios and their backgrounds has changed. */
  twostate lemma FeaturesKept(p: (seq<FeatureResult>, seq<seq<ScenarioResult>>))
    requires |p.1| == |p.0| && old(FeaturesTallied(p.0, p.1))
    requires unchanged(p.0) && unchanged(Flatten(p.1)) && unchanged(FlatBackgrounds(p.1))
    ensures FeaturesTallied(p.0, p.1)
  {
    FeaturesFramed(p);
  }

  /** One more tallied and named feature. */
  lemma FeaturesTalliedSnoc(fs: seq<FeatureResult>, sss: seq<seq<ScenarioResult>>, k: int)
    requires |sss| == |fs| && 0 <= k < |fs|
    requires FeaturesTallied(fs[..k], sss[..k]) && fs[k].TalliedWith(sss[k]) && fs[k].safeName.Some?
    ensures FeaturesTallied(fs[..k + 1], sss[..k + 1])
  {
    forall j {:trigger TalliedAt(fs[..k + 1], sss[..k + 1], j)}
      ensures TalliedAt(fs[..k + 1], sss[..k + 1], j)
    {
      if 0 <= j < k {
        assert TalliedAt(fs[..k], sss[..k], j);
        assert fs[..k + 1][j] == fs[..k][j] && sss[..k + 1][j] == sss[..k][j];
      }
    }
  }

  /** No scenario and no background belongs to two of the lists `sss`. */
  ghost predicate ListsApart(sss: seq<seq<ScenarioResult>>) {
    forall i, j {:trigger ListsApartAt(sss, i, j)} :: ListsApartAt(sss, i, j)
  }

  /** The lists `sss[i]` and `sss[j]`, if `i < j` index two of them, share no
      scenario and no background. */
  predicate ListsApartAt(sss: seq<seq<ScenarioResult>>, i: int, j: int) {
    0 <= i < j < |sss| ==>
      (forall s :: s in sss[i] ==> s !in sss[j]) && Backgrounds(sss[i]) !! Backgrounds(sss[j])
  }

  /** Well-formed features are distinct and share no scenario or background. */
  lemma FeaturesApart(root: CucumberTestResult, fs: seq<FeatureResult>)
    requires FeaturesValid(root, fs)
    ensures NoDuplicates(fs) && ListsApart(ScenarioLists(fs))
  {
    var sss := ScenarioLists(fs);
    forall i, j | 0 <= i < j < |fs|
      ensures fs[i] != fs[j]
    {
      assert FeatureValidAt(root, fs, i) && ReprApartAt(fs, i, j);
    }
    forall i, j
      ensures ListsApartAt(sss, i, j)
    {
      if 0 <= i < j < |fs| {
        ListsApartPair(root, fs, i, j);
      }
    }
  }

  /** Two distinct features of well-formed `fs` share no scenario and no
      background. */
  lemma ListsApartPair(root: CucumberTestResult, fs: seq<FeatureResult>, i: int, j: int)
    requires FeaturesValid(root, fs) && 0 <= i < j < |fs|
    ensures ListsApartAt(ScenarioLists(fs), i, j)
  {
    var sss := ScenarioLists(fs);
    assert FeatureValidAt(root, fs, i) && FeatureValidAt(root, fs, j) && ReprApartAt(fs, i, j);
    forall s | s in sss[i]
      ensures s !in sss[j]
    {
      assert s in fs[i].Repr;
    }
    forall b | b in Backgrounds(sss[i])
      ensures b !in Backgrounds(sss[j])
    {
      assert b in fs[i].Repr;
    }
  }

  /** The features before `fs[k]` are others, and the lists before `sss[k]`
      share none of its scenarios and backgrounds. */
  lemma PrefixApart(fs: seq<FeatureResult>, sss: seq<seq<ScenarioResult>>, k: int)
    requires NoDuplicates(fs) && ListsApart(sss) && 0 <= k < |sss| == |fs|
    ensures fs[k] !in fs[..k]
    ensures forall s :: s in Flatten(sss[..k]) ==> s !in sss[k]
    ensures FlatBackgrounds(sss[..k]) !! Backgrounds(sss[k])
  {
    forall j | 0 <= j < k
      ensures fs[..k][j] != fs[k]
    {
      assert fs[..k][j] == fs[j];
    }
    forall s | s in Flatten(sss[..k])
      ensures s !in sss[k]
    {
      var j :| 0 <= j < k && s in sss[..k][j];
      assert sss[..k][j] == sss[j];
      assert ListsApartAt(sss, j, k);
    }
    forall b | b in FlatBackgrounds(sss[..k])
      ensures b !in Backgrounds(sss[k])
    {
      var s :| s in Flatten(sss[..k]) && s.backgroundResult != null && b == s.backgroundResult;
      var j :| 0 <= j < k && s in sss[..k][j];
      assert sss[..k][j] == sss[j];
      assert b in Backgrounds(sss[j]) && ListsApartAt(sss, j, k);
    }
  }

  /** The root's step for one feature: the feature is tallied, then named. */
  method TallyFeature(fr: FeatureResult, ghost ss: seq<ScenarioResult>, host: Helpers) returns (r: Result<()>)
    requires fr.Valid() && fr.parent != null && ss == fr.scenarioResults
    modifies fr`failedScenarioResults, fr`scenariosByID, fr`passCount, fr`failCount, fr`skipCount, fr`duration,
      fr`safeName, fr`uniquifiedBase
    modifies ss`failed, ss`duration, ss`safeName, ss`uniquifiedBase
    modifies Backgrounds(ss)`failed, Backgrounds(ss)`skipped, Backgrounds(ss)`duration
    ensures r.Ok? <==> old(NoneRaise(ss))
    ensures r.Ok? ==> fr.TalliedWith(ss) && fr.safeName.Some?
  {
    r := fr.Tally(host);
    assert r.Ok? <==> old(NoneRaise(ss));
    if r.Ok? {
      NameFeature(fr, host, ss);
    }
  }

  /** The root names a tallied feature, which leaves it tallied. */
  method NameFeature(fr: FeatureResult, host: Helpers, ghost ss: seq<ScenarioResult>)
    requires fr.parent != null && fr.TalliedWith(ss)
    modifies fr`safeName, fr`uniquifiedBase
    ensures fr.TalliedWith(ss) && fr.safeName.Some?
  {
    var name := fr.GetSafeName(host);
    FeatureFramed((fr, ss));
  }

  /** One step of the root's walk: the feature `fr`, which is `fs[k]`, is
      tallied and named, and the features before it stay tallied. */
  method WalkStep(fs: seq<FeatureResult>, ghost sss: seq<seq<ScenarioResult>>, k: nat, fr: FeatureResult,
    host: Helpers, ghost clean: bool) returns (r: Result<()>)
    requires k < |fs| == |sss| && fr == fs[k] && fr !in fs[..k] && clean == NoneRaise(sss[k])
    requires fr.Valid() && fr.parent != null && fr.scenarioResults == sss[k]
    requires FeaturesTallied(fs[..k], sss[..k])
    requires forall s :: s in Flatten(sss[..k]) ==> s !in sss[k]
    requires FlatBackgrounds(sss[..k]) !! Backgrounds(sss[k])
    modifies fr`failedScenarioResults, fr`scenariosByID, fr`passCount, fr`failCount, fr`skipCount, fr`duration,
      fr`safeName, fr`uniquifiedBase
    modifies sss[k]`failed, sss[k]`duration, sss[k]`safeName, sss[k]`uniquifiedBase
    modifies Backgrounds(sss[k])`failed, Backgrounds(sss[k])`skipped, Backgrounds(sss[k])`duration
    ensures r.Ok? <==> clean
    ensures FeaturesTallied(fs[..k], sss[..k])
    ensures r.Ok? ==> FeaturesTallied(fs[..k + 1], sss[..k + 1])
  {
    label Before:
    r := TallyFeature(fr, sss[k], host);
    FeaturesFramed@Before((fs[..k], sss[..k]));
    if r.Ok? {
      FeaturesTalliedSnoc(fs, sss, k);
    }
  }

  /** The root's walk over its features `fs`, holding the scenarios `sss`
      flagged by `clean`: each is tallied and named, up to the first whose
      tally raises; `k` features were tallied without raising. */
  method TallyFeatures(fs: seq<FeatureResult>, ghost sss: seq<seq<ScenarioResult>>, ghost clean: seq<bool>,
    host: Helpers) returns (r: Result<()>, k: nat)
    requires |fs| == |sss| == |clean| && NoDuplicates(fs) && ListsApart(sss)
    requires forall j {:trigger ReadyAt(fs, sss, clean, j)} :: ReadyAt(fs, sss, clean, j)
    modifies fs`failedScenarioResults, fs`scenariosByID, fs`passCount, fs`failCount, fs`skipCount, fs`duration,
      fs`safeName, fs`uniquifiedBase
    modifies Flatten(sss)`failed, Flatten(sss)`duration, Flatten(sss)`safeName, Flatten(sss)`uniquifiedBase
    modifies FlatBackgrounds(sss)`failed, FlatBackgrounds(sss)`skipped, FlatBackgrounds(sss)`duration
    ensures k <= |fs| && (r.Ok? ==> k == |fs|)
    ensures r.Err? ==> k < |fs| && !clean[k]
    ensures forall j :: 0 <= j < k ==> clean[j]
    ensures FeaturesTallied(fs[..k], sss[..k])
  {
    k := 0;
    r := Ok(());
    while k < |fs| && r.Ok?
      invariant k <= |fs|
      invariant r.Err? ==> k < |fs| && !clean[k]
      invariant forall j :: 0 <= j < k ==> clean[j]
      invariant FeaturesTallied(fs[..k], sss[..k])
      decreases |fs| - k, r.Ok?
    {
      assert old(ReadyAt(fs, sss, clean, k));
      assert ReadyAt(fs, sss, clean, k);
      PrefixApart(fs, sss, k);
      FlattenCovers(sss, k);
      r := WalkStep(fs, sss, k, fs[k], host, clean[k]);
      if r.Ok? {
        k := k + 1;
      }
    }
  }

  /** Before the root's walk over its well-formed features `fs`, each of them
      is ready, with its flag in `CleanFlags(sss)`. */
  lemma WalkReady(root: CucumberTestResult, fs: seq<FeatureResult>, sss: seq<seq<ScenarioResult>>)
    requires FeaturesValid(root, fs) && sss == ScenarioLists(fs)
    ensures forall j {:trigger ReadyAt(fs, sss, CleanFlags(sss), j)} :: ReadyAt(fs, sss, CleanFlags(sss), j)
  {
    var clean := CleanFlags(sss);
    forall j {:trigger ReadyAt(fs, sss, clean, j)}
      ensures ReadyAt(fs, sss, clean, j)
    {
      if 0 <= j < |fs| {
        assert FeatureValidAt(root, fs, j);
        FlattenCovers(sss, j);
      }
    }
  }

  /** The scenarios and backgrounds of the lists of `fs` are those of `fs`. */
  lemma FlattenLists(fs: seq<FeatureResult>)
    ensures Flatten(ScenarioLists(fs)) <= AllScenarios(fs)
    ensures FlatBackgrounds(ScenarioLists(fs)) <= AllBackgrounds(fs)
  {
    var sss := ScenarioLists(fs);
    forall s | s in Flatten(sss)
      ensures s in AllScenarios(fs)
    {
      var j :| 0 <= j < |sss| && s in sss[j];
      assert fs[j] in fs;
    }
    forall b | b in FlatBackgrounds(sss)
      ensures b in AllBackgrounds(fs)
    {
      var s :| s in Flatten(sss) && s.backgroundResult != null && b == s.backgroundResult;
      var j :| 0 <= j < |sss| && s in sss[j];
      assert fs[j] in fs;
    }
  }

  /** The flags of the lists of `fs` all hold exactly when no scenario of `fs`
      raises. */
  lemma CleanFlagsAll(fs: seq<FeatureResult>, sss: seq<seq<ScenarioResult>>, clean: seq<bool>)
    requires sss == ScenarioLists(fs) && clean == CleanFlags(sss)
    ensures (forall j :: 0 <= j < |fs| ==> clean[j]) <==> NoneRaiseIn(fs)
  {
    if forall j :: 0 <= j < |fs| ==> clean[j] {
      forall s | s in AllScenarios(fs)
        ensures !s.Raises()
      {
        var f :| f in fs && s in f.scenarioResults;
        var j :| 0 <= j < |fs| && fs[j] == f;
        assert s in sss[j] && clean[j];
        FlattenCovers(sss, j);
        assert NoneRaise(sss[j]);
      }
      assert NoneRaiseIn(fs);
    } else {
      var j :| 0 <= j < |fs| && !clean[j];
      FlattenCovers(sss, j);
      assert !NoneRaise(sss[j]);
      var s: ScenarioResult :| s in sss[j] && s.Raises();
      assert fs[j] in fs && s in AllScenarios(fs);
      assert !NoneRaiseIn(fs);
    }
  }

  /** No scenario of any feature of `fs` raises when tallied. */
  ghost predicate NoneRaiseIn(fs: seq<FeatureResult>)
    reads fs`scenarioResults, AllScenarios(fs)`steps, AllScenarios(fs)`beforeResults,
      AllScenarios(fs)`afterResults, AllBackgrounds(fs)`stepResults
  {
    forall s :: s in AllScenarios(fs) ==> !s.Raises()
  }

  /** What the root's tally gathers from the tallied and named features `fs`:
      the counters, the failed list and the feature index, and a fresh tag
      index, whose tag results are tallied when `tallyTags` holds. */
  method Gather(root: CucumberTestResult, fs: seq<FeatureResult>, ghost sss: seq<seq<ScenarioResult>>,
    tallyTags: bool)
    requires |sss| == |fs| && FeaturesTallied(fs, sss)
    modifies root`failedScenarioResults, root`featuresById, root`tagMap, root`passCount, root`failCount,
      root`skipCount, root`duration
    ensures FeaturesTallied(fs, sss) && TotalsOf(root, fs)
    ensures root.TagView() == IndexTags(Entries(fs))
    ensures tallyTags ==> TagsOf(root, fs)
  {
    GatherInto(root, fs, tallyTags);
    FeaturesKept((fs, sss));
  }

  /** The root's counters, failed list, feature index and tag index, gathered
      from the named features `fs`. */
  method GatherInto(root: CucumberTestResult, fs: seq<FeatureResult>, tallyTags: bool)
    requires FeaturesNamed(fs)
    modifies root`failedScenarioResults, root`featuresById, root`tagMap, root`passCount, root`failCount,
      root`skipCount, root`duration
    ensures TotalsOf(root, fs)
    ensures root.TagView() == IndexTags(Entries(fs))
    ensures tallyTags ==> TagsOf(root, fs)
  {
    CountFeatures(root, fs);
    label Counted:
    GatherTags(root, fs, tallyTags);
    TotalsFramed@Counted((root, fs));
  }

  /** The root's counters and failed list add up those of the named features
      `fs`, and its feature index maps each safe name to its feature. */
  method CountFeatures(root: CucumberTestResult, fs: seq<FeatureResult>)
    requires FeaturesNamed(fs)
    modifies root`failedScenarioResults, root`featuresById, root`passCount, root`failCount, root`skipCount,
      root`duration
    ensures TotalsOf(root, fs)
  {
    var c := Total(Summaries(fs));
    var byId := IndexByKey(fs, FeatureNames(fs));
    root.passCount, root.failCount, root.skipCount, root.duration := c.pass, c.fail, c.skip, c.duration;
    root.failedScenarioResults := c.failed;
    root.featuresById := byId;
    assert Summaries(fs) == old(Summaries(fs)) && FeatureNames(fs) == old(FeatureNames(fs));
  }

  /** A fresh tag index of the scenarios of `fs`, whose tag results are
      adopted by the root and tallied when `tallyTags` holds. */
  method GatherTags(root: CucumberTestResult, fs: seq<FeatureResult>, tallyTags: bool)
    modifies root`tagMap
    ensures root.TagView() == IndexTags(Entries(fs))
    ensures tallyTags ==> TagsOf(root, fs)
  {
    IndexAllTags(root, fs);
    if tallyTags {
      ghost var view := root.TagView();
      root.TallyTags();
      assert root.TagView() == view;
    }
  }

  /** The root's totals over `p.1` still hold when the root's counters, failed
      list and feature index and the features' counters and names are as they
      were. */
  twostate lemma TotalsFramed(p: (CucumberTestResult, seq<FeatureResult>))
    requires old(FeaturesNamed(p.1) && TotalsOf(p.0, p.1))
    requires unchanged(p.0`passCount, p.0`failCount, p.0`skipCount, p.0`duration, p.0`failedScenarioResults,
      p.0`featuresById)
    requires unchanged(p.1`passCount, p.1`failCount, p.1`skipCount, p.1`duration, p.1`failedScenarioResults,
      p.1`safeName)
    ensures FeaturesNamed(p.1) && TotalsOf(p.0, p.1)
  {
  }

  /** The root's tag index starts afresh and every scenario of `fs`, in
      visiting order, joins its tags; the tag results are all new. */
  method IndexAllTags(root: CucumberTestResult, fs: seq<FeatureResult>)
    modifies root`tagMap
    ensures root.TagsValid() && root.TagView() == IndexTags(Entries(fs))
    ensures forall t :: t in root.tagMap ==> fresh(root.tagMap[t])
  {
    root.tagMap := map[];
    var i := 0;
    while i < |fs|
      invariant i <= |fs|
      invariant root.TagsValid() && root.TagView() == IndexTags(Entries(fs[..i]))
      invariant forall t :: t in root.tagMap ==> fresh(root.tagMap[t])
    {
      assert fs[..i + 1][..i] == fs[..i];
      JoinEntriesAppend(map[], Entries(fs[..i]), FeatureEntries(fs[i].feature, fs[i].scenarioResults));
      root.IndexFeatureTags(fs[i].feature, fs[i].scenarioResults);
      i := i + 1;
    }
    assert fs[..i] == fs;
  }

  class CucumberTestResult {
    var featureResults: seq<FeatureResult>

    // recomputed by Tally
    var featuresById: map<string, FeatureResult>
    var failedScenarioResults: seq<ScenarioResult>
    var tagMap: map<string, TagResult>
    var passCount: int
    var failCount: int
    var skipCount: int
    var duration: int

    /** Every feature's parent is the root, each feature is well formed and
        owns its scenarios and their backgrounds, and no two features own a
        common object. */
    ghost predicate Valid()
      reads this`featureResults, featureResults`parent, featureResults`scenarioResults, featureResults`Repr
      reads AllScenarios(featureResults)`parent
    {
      FeaturesValid(this, featureResults)
    }

    /** Each tag name has its own tag result, named after it (so no two names
        share one). */
    ghost predicate TagsValid()
      reads this`tagMap
    {
      forall t :: t in tagMap ==> tagMap[t].tagName == t
    }

    /** The scenarios each tag holds. */
    function TagView(): map<string, seq<ScenarioResult>>
      reads this`tagMap, tagMap.Values`scenarioResults
    {
      map t | t in tagMap :: tagMap[t].scenarioResults
    }

    function Summary(): Counts
      reads this`passCount, this`failCount, this`skipCount, this`duration, this`failedScenarioResults
    {
      Counts(passCount, failCount, skipCount, duration, failedScenarioResults)
    }

    constructor ()
      ensures Valid() && TagsValid()
      ensures featureResults == [] && featuresById == map[] && failedScenarioResults == [] && tagMap == map[]
      ensures passCount == 0 && failCount == 0 && skipCount == 0 && duration == 0
    {
      featureResults := [];
      featuresById := map[];
      failedScenarioResults := [];
      tagMap := map[];
      passCount, failCount, skipCount, duration := 0, 0, 0, 0;
    }

    /** isPassed */
    predicate IsPassed()
      reads this`failCount
      ensures IsPassed() <==> failCount == 0
    {
      Host.IsPassed(failCount)
    }

    /** getTotalCount, as every Jenkins result defines it. */
    function TotalCount(): (t: int)
      reads this`passCount, this`failCount, this`skipCount
      ensures t == passCount + failCount + skipCount
    {
      Host.TotalCount(passCount, failCount, skipCount)
    }

    /** addFeatureResult: appends the feature, makes the root its parent and adds
        the feature's current counters and duration, without tallying. */
    method AddFeatureResult(result: FeatureResult)
      requires Valid() && result.Valid() && result.Owns()
      requires forall f :: f in featureResults ==> f.Repr !! result.Repr
      modifies this`featureResults, this`passCount, this`failCount, this`skipCount, this`duration, result`parent
      ensures Valid()
      ensures featureResults == old(featureResults) + [result] && result.parent == this
      ensures passCount == old(passCount) + result.passCount
      ensures failCount == old(failCount) + result.failCount
      ensures skipCount == old(skipCount) + result.skipCount
      ensures duration == old(duration) + result.duration
    {
      ghost var fs := featureResults;
      featureResults := featureResults + [result];
      result.parent := this;
      passCount := passCount + result.passCount;
      failCount := failCount + result.failCount;
      skipCount := skipCount + result.skipCount;
      duration := duration + result.duration;
      FeaturesValidSnoc((this, fs, result));
    }

    /** findCorrespondingResult, `rootId` being the root's id. */
    function FindCorrespondingResult(rootId: string, id: Option<string>): (r: Option<Node>)
      reads this`tagMap, this`featuresById, featuresById.Values`scenariosByID
      ensures id.None? || id == Some(rootId) ==> r == Some(RootNode(this))
      ensures id.Some? && id.value != rootId && !StartsWith(id.value, rootId + "/") ==> r == None
      ensures r.Some? && r.value.TagNode? ==> r.value.tag in tagMap.Values
      ensures r.Some? && r.value.FeatureNode? ==> r.value.feature in featuresById.Values
      ensures r.Some? && r.value.ScenarioNode? ==>
        exists f :: f in featuresById.Values && r.value.scenario in f.scenariosByID.Values
    {
      match ParseId(rootId, id)
      case Whole => Some(RootNode(this))
      case TagKey(tag) => if tag in tagMap then Some(TagNode(tagMap[tag])) else None
      case FeatureKey(key) => if key in featuresById then Some(FeatureNode(featuresById[key])) else None
      case InFeature(key, rest) =>
        if key in featuresById then featuresById[key].FindCorrespondingResult(rest) else None
      case Nowhere => None
    }

    /** getDynamic, `rootId` being the root's id. */
    function GetDynamic(rootId: string, token: string): (d: Dynamic)
      reads this`tagMap, this`featuresById
      ensures token == rootId ==> d == Found(RootNode(this))
      ensures token != rootId ==> (d.Found? <==> (StartsWith(token, "@") && token in tagMap) || token in featuresById)
      ensures token != rootId && d.Found? && d.node.TagNode? ==> token in tagMap && d.node.tag == tagMap[token]
      ensures token != rootId && d.Found? && d.node.FeatureNode? ==> token in featuresById && d.node.feature == featuresById[token]
      ensures token != rootId && StartsWith(token, "@") && token in tagMap ==> d == Found(TagNode(tagMap[token]))
      ensures token != rootId && !(StartsWith(token, "@") && token in tagMap) && token in featuresById ==>
        d == Found(FeatureNode(featuresById[token]))
    {
      if token == rootId then Found(RootNode(this))
      else if StartsWith(token, "@") && token in tagMap then Found(TagNode(tagMap[token]))
      else if token in featuresById then Found(FeatureNode(featuresById[token]))
      else Delegate
    }

    /** addScenarioResult on the tag result of `name`, created when the tag is new. */
    method JoinTagResult(name: string, scenarioResult: ScenarioResult)
      requires TagsValid()
      modifies this`tagMap, tagMap.Values`scenarioResults
      ensures TagsValid()
      ensures TagView() == JoinTag(old(TagView()), scenarioResult, name)
      ensures forall t :: t in old(tagMap) ==> t in tagMap && tagMap[t] == old(tagMap[t])
      ensures forall t :: t in tagMap && t !in old(tagMap) ==> fresh(tagMap[t])
    {
      ghost var view := TagView();
      if name in tagMap {
        var tr := tagMap[name];
        tr.AddScenarioResult(scenarioResult);
        assert forall t :: t in tagMap && t != name ==> tagMap[t].tagName != tr.tagName;
      } else {
        var tr := new TagResult(name);
        tagMap := tagMap[name := tr];
        tr.AddScenarioResult(scenarioResult);
        assert forall t :: t in tagMap && t != name ==> tagMap[t].tagName != tr.tagName;
      }
      JoinTagFrom(view, TagView(), scenarioResult, name);
    }

    /** The scenario joins each of the named tags, in order. */
    method JoinTagResults(names: seq<string>, scenarioResult: ScenarioResult)
      requires TagsValid()
      modifies this`tagMap, tagMap.Values`scenarioResults
      ensures TagsValid()
      ensures TagView() == JoinTags(old(TagView()), scenarioResult, names)
      ensures forall t :: t in old(tagMap) ==> t in tagMap && tagMap[t] == old(tagMap[t])
      ensures forall t :: t in tagMap && t !in old(tagMap) ==> fresh(tagMap[t])
    {
      var i := 0;
      while i < |names|
        invariant 0 <= i <= |names|
        invariant TagsValid()
        invariant TagView() == JoinTags(old(TagView()), scenarioResult, names[..i])
        invariant forall t :: t in old(tagMap) ==> t in tagMap && tagMap[t] == old(tagMap[t])
        invariant forall t :: t in tagMap && t !in old(tagMap) ==> fresh(tagMap[t])
      {
        assert names[..i + 1] == names[..i] + [names[i]];
        JoinTagResult(names[i], scenarioResult);
        i := i + 1;
      }
      assert names[..i] == names;
    }

    /** The scenario joins the feature's tags, then `@_UNTAGGED_` when it
        declares no tag, otherwise its own tags. */
    method IndexScenarioTags(feature: Feature, sr: ScenarioResult)
      requires TagsValid()
      modifies this`tagMap, tagMap.Values`scenarioResults
      ensures TagsValid()
      ensures TagView() == JoinTags(old(TagView()), sr, ScenarioTags(feature, sr.scenario))
      ensures forall t :: t in old(tagMap) ==> t in tagMap && tagMap[t] == old(tagMap[t])
      ensures forall t :: t in tagMap && t !in old(tagMap) ==> fresh(tagMap[t])
    {
      ghost var before := TagView();
      JoinTagResults(feature.tags, sr);
      if sr.scenario.tags == [] {
        JoinTagResult(UNTAGGED_TEST_TAG, sr);
        JoinTagsAppend(before, sr, feature.tags, [UNTAGGED_TEST_TAG]);
        assert JoinTags(JoinTags(before, sr, feature.tags), sr, [UNTAGGED_TEST_TAG])
            == JoinTag(JoinTags(before, sr, feature.tags), sr, UNTAGGED_TEST_TAG);
      } else {
        JoinTagResults(sr.scenario.tags, sr);
        JoinTagsAppend(before, sr, feature.tags, sr.scenario.tags);
      }
    }

    /** Every scenario of the feature, in order, joins its tags. */
    method IndexFeatureTags(feature: Feature, ss: seq<ScenarioResult>)
      requires TagsValid()
      modifies this`tagMap, tagMap.Values`scenarioResults
      ensures TagsValid()
      ensures TagView() == JoinEntries(old(TagView()), FeatureEntries(feature, ss))
      ensures forall t :: t in old(tagMap) ==> t in tagMap && tagMap[t] == old(tagMap[t])
      ensures forall t :: t in tagMap && t !in old(tagMap) ==> fresh(tagMap[t])
    {
      var j := 0;
      while j < |ss|
        invariant 0 <= j <= |ss|
        invariant TagsValid()
        invariant TagView() == JoinEntries(old(TagView()), FeatureEntries(feature, ss[..j]))
        invariant forall t :: t in old(tagMap) ==> t in tagMap && tagMap[t] == old(tagMap[t])
        invariant forall t :: t in tagMap && t !in old(tagMap) ==> fresh(tagMap[t])
      {
        assert ss[..j + 1] == ss[..j] + [ss[j]];
        IndexScenarioTags(feature, ss[j]);
        j := j + 1;
      }
      assert ss[..j] == ss;
    }

    /** Every tag result gets the root as its parent and is tallied. */
    method TallyTags()
      modifies tagMap.Values`parent, tagMap.Values`failedScenarioResults, tagMap.Values`passCount,
        tagMap.Values`failCount, tagMap.Values`skipCount, tagMap.Values`duration
      ensures forall t :: t in tagMap ==> TagDone(tagMap[t], this)
    {
      AdoptAll(tagMap.Values, this);
      assert forall t :: t in tagMap ==> tagMap[t] in tagMap.Values;
    }

    /** tally: walks the features, tallying and naming each one, adds up their
        counters, durations and failed lists, indexes them by safe name and
        indexes their scenarios by tag; then tallies every tag result. When a
        feature's tally raises, the walk stops there. */
    method Tally(host: Helpers) returns (r: Result<()>)
      requires Valid()
      modifies this`failedScenarioResults, this`featuresById, this`tagMap, this`passCount, this`failCount,
        this`skipCount, this`duration
      modifies featureResults`failedScenarioResults, featureResults`scenariosByID, featureResults`passCount,
        featureResults`failCount, featureResults`skipCount, featureResults`duration, featureResults`safeName,
        featureResults`uniquifiedBase
      modifies AllScenarios(featureResults)`failed, AllScenarios(featureResults)`duration,
        AllScenarios(featureResults)`safeName, AllScenarios(featureResults)`uniquifiedBase
      modifies AllBackgrounds(featureResults)`failed, AllBackgrounds(featureResults)`skipped,
        AllBackgrounds(featureResults)`duration
      ensures r.Ok? <==> old(NoneRaiseIn(featureResults))
      ensures r.Ok? ==> FeaturesTallied(old(featureResults), old(ScenarioLists(featureResults)))
      ensures r.Ok? ==> TotalsOf(this, old(featureResults)) && TagsOf(this, old(featureResults))
    {
      var fs := featureResults;
      ghost var sss := ScenarioLists(fs);
      ghost var clean := CleanFlags(sss);
      FeaturesApart(this, fs);
      WalkReady(this, fs, sss);
      FlattenLists(fs);
      CleanFlagsAll(fs, sss, clean);
      var k;
      r, k := TallyFeatures(fs, sss, clean, host);
      Gather(this, fs[..k], sss[..k], r.Ok?);
      if r.Ok? {
        assert fs[..k] == fs && sss[..k] == sss;
      }
    }
  }

  /** The outcome lists of the scenario lists `sss`, list by list. */
  ghost function OutcomeLists(sss: seq<seq<ScenarioResult>>): (oss: seq<seq<Outcome>>)
    reads Flatten(sss)`failed, Flatten(sss)`duration
    ensures |oss| == |sss|
    ensures forall j :: 0 <= j < |sss| ==> (FlattenCovers(sss, j); oss[j] == Outcomes(sss[j]))
  {
    if sss == [] then []
    else
      FlattenPrefix(sss, |sss| - 1);
      FlattenCovers(sss, |sss| - 1);
      OutcomeLists(sss[..|sss| - 1]) + [Outcomes(sss[|sss| - 1])]
  }

    /** A scenario is one test with no skip: exactly one of a pass and a failure,
      passed when nothing failed, and after a tally failed exactly when a step,
      its background or a hook failed. */
  lemma ScenarioCountsOne(sc: ScenarioResult)
    ensures sc.SkipCount() == 0 && sc.PassCount() + sc.FailCount() == 1
    ensures sc.IsPassed() <==> sc.FailCount() == 0
    ensures sc.Tallied() ==> (sc.FailCount() == 1 <==> ScenarioFails(sc.Data()))
  {
  }

  /** After a tally of features over the scenario lists `sss`, the root counts
      every scenario once, as passed or as failed and never as skipped, its
      fail count is the length of its failed list, and so it has passed exactly
      when no scenario is listed as failed. */
  lemma TalliedRootCounts(root: CucumberTestResult, fs: seq<FeatureResult>, sss: seq<seq<ScenarioResult>>)
    requires |sss| == |fs| && FeaturesTallied(fs, sss) && TotalsOf(root, fs)
    ensures root.TotalCount() == Sizes(sss)
    ensures root.skipCount == 0
    ensures root.failCount == |root.failedScenarioResults|
    ensures root.IsPassed() <==> root.failedScenarioResults == []
  {
    var oss := OutcomeLists(sss);
    var sums := Summaries(fs);
    forall j | 0 <= j < |sss|
      ensures |sss[j]| == |oss[j]| && sums[j] == Tallies(sss[j], oss[j])
    {
      assert TalliedAt(fs, sss, j);
      FlattenCovers(sss, j);
    }
    TotalOfTallies(sss, oss, sums);
  }

  /** After a tally, the id of a feature, below the root's id, leads to the
      last feature named so: the lookup by name keeps the last feature put. */
  lemma FindFeatureAfterTally(root: CucumberTestResult, fs: seq<FeatureResult>, rootId: string, i: int)
    requires FeaturesNamed(fs) && TotalsOf(root, fs)
    requires LastWithKey(FeatureNames(fs), i) && WellFormed(FeatureKey(FeatureNames(fs)[i]))
    ensures root.FindCorrespondingResult(rootId, IdOf(rootId, FeatureKey(FeatureNames(fs)[i])))
      == Some(FeatureNode(fs[i]))
    ensures FeatureNames(fs)[i] != rootId ==>
      root.GetDynamic(rootId, FeatureNames(fs)[i]) == Found(FeatureNode(fs[i]))
  {
    IndexByKeyLookup(fs, FeatureNames(fs));
    ParseIdOf(rootId, FeatureKey(FeatureNames(fs)[i]));
  }

  /** After a feature's tally over `ss`, the safe name of a scenario leads,
      from the feature, to the last scenario named so. */
  lemma FindScenarioAfterTally(f: FeatureResult, ss: seq<ScenarioResult>, featureId: string, i: int)
    requires f.TalliedWith(ss) && LastWithKey(ScenarioNames(ss), i)
    ensures f.FindCorrespondingResult(ScenarioNames(ss)[i]) == Some(ScenarioNode(ss[i]))
    ensures ScenarioNames(ss)[i] != featureId ==>
      f.GetDynamic(featureId, ScenarioNames(ss)[i]) == Found(ScenarioNode(ss[i]))
  {
    IndexByKeyLookup(ss, ScenarioNames(ss));
  }

  /** An id `<root id>/@tag` looks the tag up in the tag map, and nowhere else. */
  lemma FindTagById(root: CucumberTestResult, rootId: string, t: string)
    requires StartsWith(t, "@")
    ensures root.FindCorrespondingResult(rootId, IdOf(rootId, TagKey(t)))
      == (if t in root.tagMap then Some(TagNode(root.tagMap[t])) else None)
  {
    ParseIdOf(rootId, TagKey(t));
  }

  /** An id `<root id>/<feature>/<rest>` hands `rest` to the feature indexed
      under `<feature>`, and finds nothing when there is no such feature. */
  lemma FindInFeatureById(root: CucumberTestResult, rootId: string, f: string, rest: string)
    requires !StartsWith(f, "@") && '/' !in f
    ensures root.FindCorrespondingResult(rootId, IdOf(rootId, InFeature(f, rest)))
      == (if f in root.featuresById then root.featuresById[f].FindCorrespondingResult(rest) else None)
  {
    ParseIdOf(rootId, InFeature(f, rest));
  }

  /** After the root's tally over `fs` and a tally of feature `fs[i]` over `ss`,
      the id `<root id>/<feature name>/<scenario name>` leads from the root to
      the last scenario of that name in the last feature of that name. */
  lemma FindScenarioFromRootAfterTally(root: CucumberTestResult, fs: seq<FeatureResult>, rootId: string, i: int,
                                       ss: seq<ScenarioResult>, j: int)
    requires FeaturesNamed(fs) && TotalsOf(root, fs)
    requires LastWithKey(FeatureNames(fs), i) && WellFormed(FeatureKey(FeatureNames(fs)[i]))
    requires fs[i].TalliedWith(ss) && LastWithKey(ScenarioNames(ss), j)
    ensures root.FindCorrespondingResult(rootId, IdOf(rootId, InFeature(FeatureNames(fs)[i], ScenarioNames(ss)[j])))
      == Some(ScenarioNode(ss[j]))
  {
    FindFeatureAfterTally(root, fs, rootId, i);
    FindScenarioAfterTally(fs[i], ss, FeatureNames(fs)[i], j);
    FindInFeatureById(root, rootId, FeatureNames(fs)[i], ScenarioNames(ss)[j]);
  }
}
