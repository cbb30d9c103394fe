# Cucumber test results as a verified Dafny model

This project models the result tree of the Jenkins Cucumber test-result plugin.
The plugin reads Cucumber JSON reports. A Gherkin parser drives a callback through
them, and the callback builds a tree:

- root result;
- features;
- scenarios;
- background, steps and before/after hooks.

Tallying recomputes counts and durations bottom-up: background, scenario,
feature, root, then the tag index. Each node caches a safe name, and the root
resolves ids such as `<id>/<feature>/<scenario>` or `<id>/@tag` to a node. The
build action caches the root's counts and can merge a further result into it.

The layers and their modules:

- `CucumberUtils`, `StepResults` and `BeforeAfterResults` classify step and hook
  statuses. They are pure datatypes and functions.
- `BackgroundResults` (class `BackgroundResult`) holds a background's steps and
  its tally.
- `ResultTree` holds the classes `ScenarioResult`, `FeatureResult`, `TagResult`
  and `CucumberTestResult`. They point at one another through parent links, so
  they share one module. The tallies, safe names, lookups and the tag index are
  methods over their fields.
- `Scenarios`, `Indexes`, `Paths` and `Strings` hold the pure definitions the
  tree's contracts are stated with:
  - a scenario's failure and error details;
  - the status against the previous build;
  - the feature index as a fold in which a later name overwrites an earlier one;
  - the tag index as a fold;
  - id splitting and relative paths.
- `GherkinCallbacks` (class `GherkinCallback`) is the event-driven builder. Its
  nullable "current" fields form the implicit state machine.
- `CucumberTestResultActions` (class `CucumberTestResultAction`) caches the counts
  and merges results.
- `Host` holds the Jenkins helpers the nodes inherit. `Wrappers` holds Option and
  Result.

Exceptions become `Result` values:

- `CucumberModelException` becomes `Err(ModelError(message))`.
- A dereference of a null "current" field becomes `Err(NullPointer)`.

Durations are integer nanoseconds.

The tallies are not total: a step whose status is not one of "passed",
"failed", "skipped" and "undefined" makes `parseState` throw from inside
`getFailCount`, so the scenario, feature and root tallies can throw. Every
tally in the model returns `Err` exactly when some step it classifies has such
a status. The exception's message names the status, with a null status
rendered as "null".

## Model

| member | source | states |
|---|---|---|
| CucumberUtils.ExactlyOneFlag | src/main/java/org/jenkinsci/plugins/cucumber/jsontestsupport/CucumberUtils.java:77-118 | every Gherkin state is exactly one of passed, skipped and failure |
| CucumberUtils.FlagsOfStates | src/main/java/org/jenkinsci/plugins/cucumber/jsontestsupport/CucumberUtils.java:78-97 | UNDEFINED and FAILED are failures and not skips; SKIPPED is neither a pass nor a failure; PASSED is a pass |
| CucumberUtils.ParseState | src/main/java/org/jenkinsci/plugins/cucumber/jsontestsupport/CucumberUtils.java:120-134 | a parsed state is the one whose name is the status; any other status, null included, raises a model exception whose message quotes the status, a null one as "null" |
| CucumberUtils.ParseStateInvertsName | src/main/java/org/jenkinsci/plugins/cucumber/jsontestsupport/CucumberUtils.java:120-134 | parseState maps each of the four status strings to its state and back, and raises exactly on every other string |
| CucumberUtils.PendingAndNullRejected | src/main/java/org/jenkinsci/plugins/cucumber/jsontestsupport/CucumberUtils.java:120-134 | "pending" and a null status are rejected with exactly the messages `Cucumber sate "pending" is not defined.` and `Cucumber sate "null" is not defined.` |
| CucumberUtils.DurationFromResult | src/main/java/org/jenkinsci/plugins/cucumber/jsontestsupport/CucumberUtils.java:39-46 | a result without a duration takes 0 |
| StepResults.StepResult.PassCount | src/main/java/org/jenkinsci/plugins/cucumber/jsontestsupport/StepResult.java:98-100 | raises exactly when the status is unknown; otherwise 1 exactly when the state is PASSED, else 0 |
| StepResults.StepResult.FailCount | src/main/java/org/jenkinsci/plugins/cucumber/jsontestsupport/StepResult.java:106-108 | raises exactly when the status is unknown; otherwise 1 exactly when the state is FAILED or UNDEFINED, else 0 |
| StepResults.StepResult.SkipCount | src/main/java/org/jenkinsci/plugins/cucumber/jsontestsupport/StepResult.java:114-116 | raises exactly when the status is unknown; otherwise 1 exactly when the state is SKIPPED, else 0 |
| StepResults.CountsPartition | src/main/java/org/jenkinsci/plugins/cucumber/jsontestsupport/StepResult.java:98-116 | for a known status the three counts sum to 1; for an unknown one all three getters raise |
| StepResults.StepResult.ErrorMessage | src/main/java/org/jenkinsci/plugins/cucumber/jsontestsupport/StepResult.java:133-150 | UNDEFINED gives 'Step "<name>" is undefined' (raising when the step is missing); FAILED gives the result's message; PASSED and SKIPPED give "" |
| BeforeAfterResults.BeforeAfterResult.PassCount | src/main/java/org/jenkinsci/plugins/cucumber/jsontestsupport/BeforeAfterResult.java:66-69 | 1 exactly when the status is "passed", else 0 |
| BeforeAfterResults.BeforeAfterResult.FailCount | src/main/java/org/jenkinsci/plugins/cucumber/jsontestsupport/BeforeAfterResult.java:75-82 | 1 exactly when the status is "failed" or "undefined", else 0 |
| BeforeAfterResults.BeforeAfterResult.SkipCount | src/main/java/org/jenkinsci/plugins/cucumber/jsontestsupport/BeforeAfterResult.java:88-91 | 1 exactly when the status is "skipped", else 0 |
| BeforeAfterResults.HookCountsAtMostOne | src/main/java/org/jenkinsci/plugins/cucumber/jsontestsupport/BeforeAfterResult.java:66-91 | at most one count is 1; an unknown status gives 0/0/0 without raising |
| BeforeAfterResults.HookAgreesWithStep | src/main/java/org/jenkinsci/plugins/cucumber/jsontestsupport/BeforeAfterResult.java:66-91 | on every known status a hook counts exactly as a step with the same result would |
| BackgroundResults.BackgroundResult.constructor | src/main/java/org/jenkinsci/plugins/cucumber/jsontestsupport/BackgroundResult.java:56-58 | a new background has no steps, no flags set and no duration |
| BackgroundResults.BackgroundResult.AddStepResult | src/main/java/org/jenkinsci/plugins/cucumber/jsontestsupport/BackgroundResult.java:123-125 | the step is appended at the end; earlier steps are unchanged |
| BackgroundResults.BackgroundResult.FailCount | src/main/java/org/jenkinsci/plugins/cucumber/jsontestsupport/BackgroundResult.java:77-80 | one failure exactly when failed is set, otherwise none |
| BackgroundResults.BackgroundResult.SkipCount | src/main/java/org/jenkinsci/plugins/cucumber/jsontestsupport/BackgroundResult.java:82-85 | one skip exactly when skipped is set, otherwise none |
| BackgroundResults.BackgroundResult.PassCount | src/main/java/org/jenkinsci/plugins/cucumber/jsontestsupport/BackgroundResult.java:87-90 | in a well-formed background the pass, fail and skip counts add up to 1 |
| BackgroundResults.BackgroundCountsOne | src/main/java/org/jenkinsci/plugins/cucumber/jsontestsupport/BackgroundResult.java:77-90 | a well-formed background is exactly one of passed, failed and skipped; after a tally it failed iff a step failed, skipped iff none failed and one skipped, and passed otherwise |
| BackgroundResults.BackgroundResult.Tally | src/main/java/org/jenkinsci/plugins/cucumber/jsontestsupport/BackgroundResult.java:133-153 | failed and skipped are never both set; with no raise, failed holds exactly when some step fails, skipped exactly when none fails and some skips, and the duration is the sum over all steps, a function of the steps alone (so a second tally gives the same state); raises exactly when a step classified before the first failure has an unknown status |
| BackgroundResults.NoRaiseExtends | src/main/java/org/jenkinsci/plugins/cucumber/jsontestsupport/BackgroundResult.java:138-152 | once a step has failed, later steps are no longer classified, so appending any step cannot make the tally raise |
| ResultTree.ScenarioResult.constructor | src/main/java/org/jenkinsci/plugins/cucumber/jsontestsupport/ScenarioResult.java:80-83 | a new scenario holds its background, no steps or hooks, no parent and no cached name |
| ResultTree.ScenarioResult.AddStepResult | src/main/java/org/jenkinsci/plugins/cucumber/jsontestsupport/ScenarioResult.java:210-212 | the step is appended at the end |
| ResultTree.ScenarioResult.AddBeforeResult | src/main/java/org/jenkinsci/plugins/cucumber/jsontestsupport/ScenarioResult.java:205-207 | the before hook is appended at the end |
| ResultTree.ScenarioResult.AddAfterResult | src/main/java/org/jenkinsci/plugins/cucumber/jsontestsupport/ScenarioResult.java:195-197 | the after hook is appended at the end |
| ResultTree.ScenarioResult.FailCount | src/main/java/org/jenkinsci/plugins/cucumber/jsontestsupport/ScenarioResult.java:102-105 | a scenario counts at most one failure, exactly when failed is set |
| ResultTree.ScenarioResult.SkipCount | src/main/java/org/jenkinsci/plugins/cucumber/jsontestsupport/ScenarioResult.java:122-125 | a scenario never counts a skip |
| ResultTree.ScenarioResult.PassCount | src/main/java/org/jenkinsci/plugins/cucumber/jsontestsupport/ScenarioResult.java:128-132 | pass and fail counts add up to 1 |
| ResultTree.ScenarioResult.IsPassed | src/main/java/org/jenkinsci/plugins/cucumber/jsontestsupport/ScenarioResult.java:102-105 | passed exactly when the pass count is 1, that is when no failure is counted |
| ResultTree.ScenarioCountsOne | src/main/java/org/jenkinsci/plugins/cucumber/jsontestsupport/ScenarioResult.java:102-132 | skip is 0 and pass + fail is 1; passed iff fail is 0; after a tally the fail count is 1 iff a step, the background or a hook failed |
| ResultTree.ScenarioResult.FindCorrespondingResult | src/main/java/org/jenkinsci/plugins/cucumber/jsontestsupport/ScenarioResult.java:170-177 | a null id raises a null-pointer exception; the scenario's own id finds the scenario; any other id finds nothing |
| ResultTree.ScenarioResult.AddStepTotals | src/main/java/org/jenkinsci/plugins/cucumber/jsontestsupport/ScenarioResult.java:293-298 | adds all step durations and sets failed when some step fails; raises exactly when some step's status is unknown, and then the first such step's duration is already added while failed reflects only the steps before it |
| ResultTree.ScenarioResult.AddHookTotals | src/main/java/org/jenkinsci/plugins/cucumber/jsontestsupport/ScenarioResult.java:307-318 | adds all hook durations and sets failed when some hook fails |
| ResultTree.ScenarioResult.Tally | src/main/java/org/jenkinsci/plugins/cucumber/jsontestsupport/ScenarioResult.java:289-319 | raises exactly when a step or a background step is unrecognised; otherwise failed holds exactly when a step, the tallied background or a hook fails, and the duration is the sum of step, background and hook durations; both are functions of the contents (idempotent), and the contents are unchanged; on a raise, failed and the duration are those of the steps up to the first unknown one, or of all steps when the background raised, with the background not failed |
| Scenarios.SkipsDoNotChangeFailure | src/main/java/org/jenkinsci/plugins/cucumber/jsontestsupport/ScenarioResult.java:289-319 | appending a skipped step or hook never changes whether the scenario fails |
| Scenarios.HookAppendKeepsFailure | src/main/java/org/jenkinsci/plugins/cucumber/jsontestsupport/ScenarioResult.java:307-318 | appending a hook that does not fail keeps the hooks' failure unchanged |
| Scenarios.FirstFailingHook | src/main/java/org/jenkinsci/plugins/cucumber/jsontestsupport/ScenarioResult.java:327-331 | the index of the first hook that fails, none failing before it; None exactly when no hook fails |
| Scenarios.FirstFailingStep | src/main/java/org/jenkinsci/plugins/cucumber/jsontestsupport/ScenarioResult.java:332-336 | the first failing step with every earlier step known and not failing; raises exactly when classification meets an unknown status first; Ok(None) exactly when no step fails or is unknown |
| Scenarios.ErrorDetailsPrecedence | src/main/java/org/jenkinsci/plugins/cucumber/jsontestsupport/ScenarioResult.java:325-344 | null for a passed scenario; otherwise the first failing before hook's message, else the first failing step's, else the first failing after hook's, else null; the background never matters |
| Scenarios.StatusCases | src/main/java/org/jenkinsci/plugins/cucumber/jsontestsupport/ScenarioResult.java:229-246 | never SKIPPED; PASSED or FIXED exactly when passed; REGRESSION exactly when failing after a previous pass; FIXED exactly when passing after a previous failure; PASSED or FAILED with no previous result |
| ResultTree.ScenarioResult.GetStatus | src/main/java/org/jenkinsci/plugins/cucumber/jsontestsupport/ScenarioResult.java:229-246 | never SKIPPED; PASSED or FIXED exactly when the scenario did not fail; REGRESSION exactly when it failed after a previous pass; FIXED exactly when it passed after a previous failure |
| ResultTree.ScenarioResult.GetErrorDetails | src/main/java/org/jenkinsci/plugins/cucumber/jsontestsupport/ScenarioResult.java:325-344 | nothing for a scenario that did not fail; raises exactly when it failed, no before hook failed and the steps reach an unknown status before a failing one |
| Scenarios.ScenarioBaseName | src/main/java/org/jenkinsci/plugins/cucumber/jsontestsupport/ScenarioResult.java:112-117 | the safe id is kept unless it starts with the feature's safe name and ';'; the base is never longer |
| Scenarios.ScenarioBaseStripsFeature | src/main/java/org/jenkinsci/plugins/cucumber/jsontestsupport/ScenarioResult.java:112-117 | an id made of the feature's safe name, ';' and a part without that prefix loses exactly the prefix |
| Strings.IndexOf | src/main/java/org/jenkinsci/plugins/cucumber/jsontestsupport/CucumberTestResult.java:171-172 | the first position of the character, or None exactly when it does not occur |
| Strings.RemoveAllAbsent | src/main/java/org/jenkinsci/plugins/cucumber/jsontestsupport/ScenarioResult.java:116 | removing a string that does not occur changes nothing |
| Strings.StripsSinglePrefix | src/main/java/org/jenkinsci/plugins/cucumber/jsontestsupport/ScenarioResult.java:115-116 | removing a prefix that occurs only at the start leaves the rest |
| Strings.RemoveAllShrinks | src/main/java/org/jenkinsci/plugins/cucumber/jsontestsupport/ScenarioResult.java:116 | removing occurrences never lengthens a string |
| ResultTree.ScenarioResult.GetSafeName | src/main/java/org/jenkinsci/plugins/cucumber/jsontestsupport/ScenarioResult.java:108-120 | a cached name is returned with nothing changed; otherwise the base name is uniquified against the bases the siblings registered, cached and returned, and the feature's cached name is kept |
| ResultTree.ScenarioResult.GetRelativePathFrom | src/main/java/org/jenkinsci/plugins/cucumber/jsontestsupport/ScenarioResult.java:353-388 | "." from itself; its own name and "/" from its feature; the feature's and its own names from the root; those behind "../" from a tag of the root |
| Paths.WalkUpToAncestor | src/main/java/org/jenkinsci/plugins/cucumber/jsontestsupport/ScenarioResult.java:372-388 | walking up from the node to an ancestor joins, leaf first, the names of the nodes below it |
| Paths.WalkUpMisses | src/main/java/org/jenkinsci/plugins/cucumber/jsontestsupport/ScenarioResult.java:378-387 | the walk from a node that is not an ancestor finds no path |
| Paths.RelativePathCases | src/main/java/org/jenkinsci/plugins/cucumber/jsontestsupport/ScenarioResult.java:353-370 | "." from the node, the joined names from an ancestor, and "../" and the joined names when only the parent of from is an ancestor |
| Paths.AncestryPaths | src/main/java/org/jenkinsci/plugins/cucumber/jsontestsupport/ScenarioResult.java:353-388 | the three paths a scenario has through its feature and the root |
| ResultTree.TallyConservation | src/main/java/org/jenkinsci/plugins/cucumber/jsontestsupport/FeatureResult.java:192-203 | over a feature's or a tag's scenarios, pass + fail is the number of scenarios, skip is 0, and the failed list holds exactly the failed scenarios, one entry per failure |
| ResultTree.FeatureResult.constructor | src/main/java/org/jenkinsci/plugins/cucumber/jsontestsupport/FeatureResult.java:78-81 | a new feature keeps its URI and feature and has no scenarios, parent, name or counts |
| ResultTree.FeatureResult.AddScenarioResult | src/main/java/org/jenkinsci/plugins/cucumber/jsontestsupport/FeatureResult.java:159-162 | the scenario is appended and its parent becomes this feature; the feature stays well formed |
| ResultTree.FeatureResult.GetSafeName | src/main/java/org/jenkinsci/plugins/cucumber/jsontestsupport/FeatureResult.java:164-171 | a cached name is returned unchanged; otherwise the safe id is uniquified against the bases the root's features registered, then cached |
| ResultTree.FeatureResult.Tally | src/main/java/org/jenkinsci/plugins/cucumber/jsontestsupport/FeatureResult.java:173-204 | succeeds exactly when no scenario's tally raises; then every scenario is tallied and named, the counters and the failed list are those its scenarios add up, and the index maps each safe name to the last scenario with it |
| ResultTree.TallyAndName | src/main/java/org/jenkinsci/plugins/cucumber/jsontestsupport/FeatureResult.java:192-195 | the scenarios are tallied and named in order up to the first whose tally raises |
| ResultTree.TallyEach | src/main/java/org/jenkinsci/plugins/cucumber/jsontestsupport/FeatureResult.java:192-193 | the scenarios are tallied in order; it stops at the first whose tally raises |
| ResultTree.NameEach | src/main/java/org/jenkinsci/plugins/cucumber/jsontestsupport/FeatureResult.java:195 | every scenario gets a safe name; cached names are kept |
| ResultTree.StoreTally | src/main/java/org/jenkinsci/plugins/cucumber/jsontestsupport/FeatureResult.java:175-203 | the counters, the failed list and the index are replaced by the gathered ones; scenario outcomes and names are untouched |
| ResultTree.FeatureResult.FindCorrespondingResult | src/main/java/org/jenkinsci/plugins/cucumber/jsontestsupport/FeatureResult.java:139-142 | finds something exactly when the id is indexed, and then the scenario indexed under it |
| ResultTree.FeatureResult.GetDynamic | src/main/java/org/jenkinsci/plugins/cucumber/jsontestsupport/FeatureResult.java:231-243 | the feature for its own id; for any other token, a node exactly when findCorrespondingResult finds one, and the same node |
| ResultTree.FindScenarioAfterTally | src/main/java/org/jenkinsci/plugins/cucumber/jsontestsupport/FeatureResult.java:139-142 | after a tally, a scenario's safe name looks up the last scenario named so, and getDynamic finds it unless the name is the feature's id |
| ResultTree.TagResult.constructor | src/main/java/org/jenkinsci/plugins/cucumber/jsontestsupport/TagResult.java:66-68 | a new tag result has its name, no members and zero counts |
| ResultTree.TagResult.AddScenarioResult | src/main/java/org/jenkinsci/plugins/cucumber/jsontestsupport/TagResult.java:144-146 | set insertion: a scenario already held is not added again |
| ResultTree.TagResult.SetParent | src/main/java/org/jenkinsci/plugins/cucumber/jsontestsupport/TagResult.java:121-123 | the parent is set |
| ResultTree.TagResult.GetSafeName | src/main/java/org/jenkinsci/plugins/cucumber/jsontestsupport/TagResult.java:149-157 | the safe form of the tag name, not uniquified, computed once and cached |
| ResultTree.TagResult.Tally | src/main/java/org/jenkinsci/plugins/cucumber/jsontestsupport/TagResult.java:160-183 | the counters and the failed list are those the members add up as they are, without tallying them again |
| ResultTree.SumScenarios | src/main/java/org/jenkinsci/plugins/cucumber/jsontestsupport/TagResult.java:173-182 | the counters, duration and non-passed scenarios of a scenario list, as a tally sums them |
| ResultTree.TagResult.Adopt | src/main/java/org/jenkinsci/plugins/cucumber/jsontestsupport/CucumberTestResult.java:294-297 | the root becomes the tag's parent, then the tag is tallied |
| ResultTree.AdoptAll | src/main/java/org/jenkinsci/plugins/cucumber/jsontestsupport/CucumberTestResult.java:294-297 | every tag result, in any order, belongs to the root and is tallied |
| ResultTree.CucumberTestResult.constructor | src/main/java/org/jenkinsci/plugins/cucumber/jsontestsupport/CucumberTestResult.java:83-84 | an empty, well-formed root with zero counts |
| ResultTree.CucumberTestResult.AddFeatureResult | src/main/java/org/jenkinsci/plugins/cucumber/jsontestsupport/CucumberTestResult.java:92-99 | the feature is appended, its parent is the root, and its current counters and duration are added to the root's; the tree stays well formed |
| ResultTree.TotalSnoc | src/main/java/org/jenkinsci/plugins/cucumber/jsontestsupport/CucumberTestResult.java:92-99 | adding a feature's summary to the totals of a feature list gives the totals of the longer list |
| ResultTree.TotalAppend | src/main/java/org/jenkinsci/plugins/cucumber/jsontestsupport/CucumberTestResult.java:256-262 | the totals of two runs of summaries are the sum of their totals |
| ResultTree.MergedTotals | src/main/java/org/jenkinsci/plugins/cucumber/jsontestsupport/CucumberTestResultAction.java:205-212 | the totals of two feature lists one after the other are the sum of their totals |
| ResultTree.TotalCountsFailed | src/main/java/org/jenkinsci/plugins/cucumber/jsontestsupport/CucumberTestResult.java:256-262 | when each feature's fail count is the length of its failed list, so is the root's |
| ResultTree.TotalOfTallies | src/main/java/org/jenkinsci/plugins/cucumber/jsontestsupport/CucumberTestResult.java:256-262 | over freshly tallied features, pass + fail is the number of scenarios, skip is 0, and fail is the failed list's length |
| ResultTree.TalliedRootCounts | src/main/java/org/jenkinsci/plugins/cucumber/jsontestsupport/CucumberTestResult.java:193-196 | after a tally the total count is the number of scenarios, nothing is skipped, and isPassed holds exactly when the failed list is empty |
| ResultTree.CucumberTestResult.JoinTagResult | src/main/java/org/jenkinsci/plugins/cucumber/jsontestsupport/CucumberTestResult.java:266-271 | the tag's result, created when the tag is new, holds the scenario once; other tags are unchanged |
| ResultTree.CucumberTestResult.JoinTagResults | src/main/java/org/jenkinsci/plugins/cucumber/jsontestsupport/CucumberTestResult.java:265-272 | the scenario joins each named tag, in order |
| ResultTree.CucumberTestResult.IndexScenarioTags | src/main/java/org/jenkinsci/plugins/cucumber/jsontestsupport/CucumberTestResult.java:264-290 | the scenario joins the feature's tags, then @_UNTAGGED_ when it has no tag of its own, otherwise its own tags |
| Indexes.ScenarioTags | src/main/java/org/jenkinsci/plugins/cucumber/jsontestsupport/CucumberTestResult.java:265-290 | a scenario's tags hold all of its feature's tags and @_UNTAGGED_ when it has none; a tag is present exactly when it is the feature's, the scenario's, or @_UNTAGGED_ for an untagged scenario |
| ResultTree.CucumberTestResult.IndexFeatureTags | src/main/java/org/jenkinsci/plugins/cucumber/jsontestsupport/CucumberTestResult.java:264-291 | every scenario of a feature joins its tags, in order |
| ResultTree.IndexAllTags | src/main/java/org/jenkinsci/plugins/cucumber/jsontestsupport/CucumberTestResult.java:237-291 | the tag index starts empty, every scenario joins its tags in visiting order, and all tag results are new |
| Indexes.JoinTagFrom | src/main/java/org/jenkinsci/plugins/cucumber/jsontestsupport/CucumberTestResult.java:266-271 | an index changed only at one tag, where the scenario was added unless already present, is that tag joined |
| Indexes.JoinTagSpec | src/main/java/org/jenkinsci/plugins/cucumber/jsontestsupport/CucumberTestResult.java:266-271 | joining a tag adds the tag and the scenario there, keeps everything else, and never lists a scenario twice |
| Indexes.JoinTagsSpec | src/main/java/org/jenkinsci/plugins/cucumber/jsontestsupport/CucumberTestResult.java:265-272 | joining several tags adds the scenario exactly under them and keeps the lists free of duplicates |
| Indexes.JoinTagsAppend | src/main/java/org/jenkinsci/plugins/cucumber/jsontestsupport/CucumberTestResult.java:264-290 | joining two runs of tags is joining them one after the other |
| Indexes.JoinEntriesAppend | src/main/java/org/jenkinsci/plugins/cucumber/jsontestsupport/CucumberTestResult.java:256-291 | indexing two runs of scenarios is indexing them one after the other |
| Indexes.IndexTagsSpec | src/main/java/org/jenkinsci/plugins/cucumber/jsontestsupport/CucumberTestResult.java:264-291 | a tag is in the index exactly when some scenario carries it, its list holds exactly the scenarios carrying it, and none twice |
| ResultTree.CucumberTestResult.TallyTags | src/main/java/org/jenkinsci/plugins/cucumber/jsontestsupport/CucumberTestResult.java:294-297 | every tag result belongs to the root and is tallied |
| ResultTree.TallyFeature | src/main/java/org/jenkinsci/plugins/cucumber/jsontestsupport/CucumberTestResult.java:257-263 | a feature is tallied and named; it succeeds exactly when none of its scenarios raises |
| ResultTree.NameFeature | src/main/java/org/jenkinsci/plugins/cucumber/jsontestsupport/CucumberTestResult.java:263 | naming a tallied feature leaves it tallied |
| ResultTree.WalkStep | src/main/java/org/jenkinsci/plugins/cucumber/jsontestsupport/CucumberTestResult.java:256-263 | one feature of the walk is tallied and named, and the earlier ones stay tallied |
| ResultTree.TallyFeatures | src/main/java/org/jenkinsci/plugins/cucumber/jsontestsupport/CucumberTestResult.java:256-263 | the features are tallied and named in order up to the first that raises |
| ResultTree.Gather | src/main/java/org/jenkinsci/plugins/cucumber/jsontestsupport/CucumberTestResult.java:256-297 | the root's totals, failed list and feature index come from the tallied features, and the tag index from their scenarios |
| ResultTree.GatherInto | src/main/java/org/jenkinsci/plugins/cucumber/jsontestsupport/CucumberTestResult.java:256-297 | the totals, the index and the tag index gathered from named features |
| ResultTree.CountFeatures | src/main/java/org/jenkinsci/plugins/cucumber/jsontestsupport/CucumberTestResult.java:256-263 | the totals and failed lists of the features added up, and each safe name mapped to the last feature with it |
| ResultTree.GatherTags | src/main/java/org/jenkinsci/plugins/cucumber/jsontestsupport/CucumberTestResult.java:264-297 | a fresh tag index of the scenarios, whose results are adopted and tallied when the walk did not raise |
| ResultTree.CucumberTestResult.Tally | src/main/java/org/jenkinsci/plugins/cucumber/jsontestsupport/CucumberTestResult.java:229-298 | succeeds exactly when no scenario of any feature raises; then every feature is tallied over its scenarios and named, the totals and failed list add up the features', the index maps each safe name to the last feature with it, and the tag index holds every tallied scenario under each of its tags |
| Indexes.IndexByKeyLookup | src/main/java/org/jenkinsci/plugins/cucumber/jsontestsupport/CucumberTestResult.java:263 | the index's keys are the names put, and each maps to the last entry put under it |
| Paths.ParseIdOf | src/main/java/org/jenkinsci/plugins/cucumber/jsontestsupport/CucumberTestResult.java:156-187 | splitting the id of the root, a tag, a feature or a path inside a feature gives that target back |
| Paths.ParseIdNowhere | src/main/java/org/jenkinsci/plugins/cucumber/jsontestsupport/CucumberTestResult.java:158-163 | an id designates nothing exactly when it is neither the root's id nor below it |
| ResultTree.CucumberTestResult.IsPassed | src/main/java/org/jenkinsci/plugins/cucumber/jsontestsupport/CucumberTestResult.java:193-196 | passed exactly when the fail count is 0 |
| ResultTree.CucumberTestResult.TotalCount | src/main/java/org/jenkinsci/plugins/cucumber/jsontestsupport/CucumberTestResult.java:199-215 | the total is the sum of the pass, fail and skip counts |
| ResultTree.CucumberTestResult.FindCorrespondingResult | src/main/java/org/jenkinsci/plugins/cucumber/jsontestsupport/CucumberTestResult.java:157-187 | a null id or the root's id finds the root; an id neither the root's nor below it finds nothing; a found tag, feature or scenario is one held in the tag map, the feature index, or a held feature's scenario index |
| ResultTree.CucumberTestResult.GetDynamic | src/main/java/org/jenkinsci/plugins/cucumber/jsontestsupport/CucumberTestResult.java:308-327 | the root for its own id; otherwise a node exactly when the token is a tag name starting with "@" in the tag map or a key of the feature index; a tag in the tag map wins, giving that tag; failing it, a key of the feature index gives that feature |
| ResultTree.FindFeatureAfterTally | src/main/java/org/jenkinsci/plugins/cucumber/jsontestsupport/CucumberTestResult.java:156-187 | after a tally, a feature's id below the root's leads to the last feature named so, through both findCorrespondingResult and getDynamic |
| ResultTree.FindTagById | src/main/java/org/jenkinsci/plugins/cucumber/jsontestsupport/CucumberTestResult.java:163-168 | the id "<root id>/@tag" gives exactly the tag held under "@tag" in the tag map, and nothing when there is none |
| ResultTree.FindInFeatureById | src/main/java/org/jenkinsci/plugins/cucumber/jsontestsupport/CucumberTestResult.java:169-184 | the id "<root id>/<feature>/<rest>" gives exactly what the feature indexed under "<feature>" finds for "<rest>", and nothing when there is no such feature |
| ResultTree.FindScenarioFromRootAfterTally | src/main/java/org/jenkinsci/plugins/cucumber/jsontestsupport/CucumberTestResult.java:169-184 | after the root and a feature are tallied, "<root id>/<feature name>/<scenario name>" leads from the root to the last scenario of that name in the last feature of that name |
| GherkinCallbacks.GherkinCallback.constructor | src/main/java/org/jenkinsci/plugins/cucumber/jsontestsupport/GherkinCallback.java:61-63 | nothing is pending or current |
| GherkinCallbacks.GherkinCallback.OnUri | src/main/java/org/jenkinsci/plugins/cucumber/jsontestsupport/GherkinCallback.java:69-75 | raises "URI received before previous uri handled" exactly when a URI is pending; otherwise stores it |
| GherkinCallbacks.GherkinCallback.OnFeature | src/main/java/org/jenkinsci/plugins/cucumber/jsontestsupport/GherkinCallback.java:78-91 | a new feature with the pending URI becomes current and is appended to the tree, which stays well formed with its counts unchanged; the URI is cleared; the scenario and background are kept |
| GherkinCallbacks.GherkinCallback.OnBackground | src/main/java/org/jenkinsci/plugins/cucumber/jsontestsupport/GherkinCallback.java:95-101 | raises exactly when a background is pending; otherwise a new background, outside the tree, is pending |
| GherkinCallbacks.GherkinCallback.OnScenario | src/main/java/org/jenkinsci/plugins/cucumber/jsontestsupport/GherkinCallback.java:104-118 | a new scenario with the pending background becomes current and the background is cleared; it is appended to the current feature, or raises a null dereference when there is none |
| GherkinCallbacks.GherkinCallback.OnStep | src/main/java/org/jenkinsci/plugins/cucumber/jsontestsupport/GherkinCallback.java:139-149 | raises exactly when a step is pending; otherwise stores it |
| GherkinCallbacks.GherkinCallback.OnMatch | src/main/java/org/jenkinsci/plugins/cucumber/jsontestsupport/GherkinCallback.java:242-249 | raises exactly when a match is pending; otherwise stores it |
| GherkinCallbacks.GherkinCallback.OnResult | src/main/java/org/jenkinsci/plugins/cucumber/jsontestsupport/GherkinCallback.java:209-225 | the step result goes to the pending background, else to the current scenario, and step and match are cleared; with neither it raises a null dereference and both stay pending |
| GherkinCallbacks.GherkinCallback.OnBefore | src/main/java/org/jenkinsci/plugins/cucumber/jsontestsupport/GherkinCallback.java:196-205 | the hook result is appended to the current scenario's before hooks, or raises with no current scenario |
| GherkinCallbacks.GherkinCallback.OnAfter | src/main/java/org/jenkinsci/plugins/cucumber/jsontestsupport/GherkinCallback.java:229-238 | the hook result is appended to the current scenario's after hooks, or raises with no current scenario |
| GherkinCallbacks.GherkinCallback.Eof | src/main/java/org/jenkinsci/plugins/cucumber/jsontestsupport/GherkinCallback.java:153-163 | feature, scenario, background, step and URI are cleared; the match is not |
| GherkinCallbacks.GherkinCallback.SyntaxError | src/main/java/org/jenkinsci/plugins/cucumber/jsontestsupport/GherkinCallback.java:166-174 | always raises, with the line, URI, state and event in the message |
| CucumberTestResultActions.CucumberTestResultAction.constructor | src/main/java/org/jenkinsci/plugins/cucumber/jsontestsupport/CucumberTestResultAction.java:88-92 | the counters start at -1 and setting the result caches its counts |
| CucumberTestResultActions.CucumberTestResultAction.SetResult | src/main/java/org/jenkinsci/plugins/cucumber/jsontestsupport/CucumberTestResultAction.java:97-112 | the result replaces the held one and its total, fail and skip counts are cached |
| CucumberTestResultActions.CucumberTestResultAction.GetResult | src/main/java/org/jenkinsci/plugins/cucumber/jsontestsupport/CucumberTestResultAction.java:155-176 | the held result; the counters are filled from it only while the total is -1, and are otherwise unchanged |
| CucumberTestResultActions.MergeFeatures | src/main/java/org/jenkinsci/plugins/cucumber/jsontestsupport/CucumberTestResultAction.java:207-212 | the features of the other result are appended in order, with the root as their parent, and their totals are added to the root's counters |
| CucumberTestResultActions.AppendFeatures | src/main/java/org/jenkinsci/plugins/cucumber/jsontestsupport/CucumberTestResultAction.java:207-212 | each incoming feature is appended in order, with the root as its parent, adding its counters and duration; the tree stays well formed |
| CucumberTestResultActions.CucumberTestResultAction.MergeResult | src/main/java/org/jenkinsci/plugins/cucumber/jsontestsupport/CucumberTestResultAction.java:205-217 | the held result gains the incoming features in order, its counters grow by their totals, its feature index, tag index and failed list keep their contents, and the cached counters are refreshed |

## Left out

- Persistence is not modelled: the XML data file, `load`, the weak reference
  and its reload. The action holds its result directly.
- Owners and build history are not modelled: `setOwner`, `getFailedSince`,
  `getAge` and the lookup of the previous result. `getStatus` takes the
  previous build's outcome as a parameter.
- `synchronized` and concurrency are not modelled; the model is sequential.
- Durations are integer nanoseconds. The float division by 10^9 and its
  rounding are not modelled.
- The Jenkins helpers `safe` and `uniquifyName` are parameters (`Host.Helpers`).
  `uniquifyName` receives the base names the node's siblings registered.
  `isPassed` (no failure) and `getTotalCount` (pass + fail + skip) are assumed
  Jenkins definitions, not proved.
- `getId` and its reflection are not modelled. Ids are fields of the parser's
  `Feature` and `Scenario` values, and the root's id is a parameter.
- `getDynamic`'s fall-back to Jenkins' own `getDynamic` is the `Delegate` value.
- The four `*_TEST_STRING` constants used by `BeforeAfterResult` are not in
  `CucumberUtils`. They are taken to be "passed", "failed", "undefined" and
  "skipped".
- `TagResult` keeps its members in a `HashSet`. The model keeps them in
  insertion order, without duplicates. The failed list of a tag is therefore in
  one particular order, where the set's iteration order is unspecified.
- `TagResult.findCorrespondingResult` always returns null. No lookup goes
  through a tag, so it has no member here.
- ResultTree.CucumberTestResult.Tally: on `Err`, the contract states only that
  there was a raising scenario. It does not state the partial counters, which
  cover the features tallied before the raise. When the walk raises, the tag
  results are not tallied.
- ResultTree.CucumberTestResult.Tally: the code tallies, adds, names and indexes
  each feature before moving to the next. The model tallies and names all
  features first, then gathers. The outcome is the same because gathering only
  reads what tallying wrote.
- ResultTree.FeatureResult.Tally: on `Err`, the contract states only the
  success condition. It does not state the counters left from the scenarios
  before the raise.
- ResultTree.CucumberTestResult.AddFeatureResult: the contract states the
  counters added. It does not state that they stay equal to the totals of the
  feature list. That relation is stated separately by `TotalSnoc` and
  `MergedTotals`, as pure lemmas.
- ResultTree.ScenarioResult.GetSafeName, ResultTree.ScenarioResult.GetRelativePathFrom
  and ResultTree.FeatureResult.GetSafeName: require the parent (and, for a
  scenario, the grandparent) that the code dereferences. On a detached node the
  code throws a `NullPointerException`, and that path is not modelled. Every call
  in the model goes through the tallies, where the root names its own features
  and a feature names its own scenarios. At those calls the parents are always set.
- CucumberTestResultActions.CucumberTestResultAction.MergeResult: requires the
  incoming features to share no scenario or background with the held ones. The
  code does not check this. The frame reasoning about the two trees needs it.
- GherkinCallbacks.GherkinCallback.SyntaxError: takes the line and the URI
  already rendered as Java prints them ("null" when missing). The legal events
  are not part of the message, as in the code.
- The callback's handlers `scenarioOutline`, `examples`, `embedding`, `write`,
  `done` and `close` only print debugging output. They have no member. The
  debugging output itself is not modelled.
- `CucumberJSONParser` calls a three-argument `GherkinCallback` constructor
  that the class does not have. Only the one-argument constructor is modelled.
  The parser itself and the Gherkin JSON reading are not part of this model.
  Their effect is the sequence of callback calls.
- `getEmbeddedItems` is called on scenarios but not defined in
  `ScenarioResult`. Embedded items are not part of this model.
- `ScenarioToHTML` and the display names are not modelled; they are UI.
- `CucumberTestResultArchiver` is not modelled, including its build-status
  rule; it is I/O.
- The `workflow` and `rerun` packages are not modelled; they are Jenkins wiring.
- One of the plugin's tests expects a scenario skip count of 1. That contradicts
  `getSkipCount`, which always returns 0. The model follows the code.
