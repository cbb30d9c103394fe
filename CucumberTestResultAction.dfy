/** The build action holding a run's result tree: it caches the total, fail
    and skip counts of the result it holds, and merges the features of a
    further result into it. */
module CucumberTestResultActions {
  import opened ResultTree

  /** The value the cached counters hold until a result is known. */
  const UNKNOWN: int := -1

  class CucumberTestResultAction {
    /** The result, always at hand here: persisting it and loading it back
        are not part of this model. */
    var result: CucumberTestResult
    var totalCount: int
    var failCount: int
    var skipCount: int

    /** The cached counters are the result's. */
    ghost predicate CountsCached()
      reads this`result, this`totalCount, this`failCount, this`skipCount
      reads result`passCount, result`failCount, result`skipCount
    {
      && totalCount == result.TotalCount()
      && failCount == result.failCount
      && skipCount == result.skipCount
    }

    /** The counters start unknown; setting the result then caches its counts. */
    constructor (result: CucumberTestResult)
      ensures this.result == result && CountsCached()
    {
      this.result := result;
      totalCount, failCount, skipCount := UNKNOWN, UNKNOWN, UNKNOWN;
      new;
      SetResult(result);
    }

    /** setResult: the result replaces the held one and its counts are cached. */
    method SetResult(result: CucumberTestResult)
      modifies this`result, this`totalCount, this`failCount, this`skipCount
      ensures this.result == result && CountsCached()
      ensures old(result.Valid()) ==> result.Valid()
    {
      totalCount := result.TotalCount();
      failCount := result.failCount;
      skipCount := result.skipCount;
      this.result := result;
      if old(result.Valid()) {
        RootKept(result);
      }
    }

    /** getResult: the held result; its counts are cached only while the
        total is still unknown, otherwise the cached counters stay as they are. */
    method GetResult() returns (r: CucumberTestResult)
      modifies this`totalCount, this`failCount, this`skipCount
      ensures r == result
      ensures old(totalCount) == UNKNOWN ==> CountsCached()
      ensures old(totalCount) != UNKNOWN ==>
        totalCount == old(totalCount) && failCount == old(failCount) && skipCount == old(skipCount)
      ensures old(CountsCached()) ==> CountsCached()
      ensures old(r.Valid()) ==> r.Valid()
    {
      r := result;
      if totalCount == UNKNOWN {
        totalCount := r.TotalCount();
        failCount := r.failCount;
        skipCount := r.skipCount;
      }
      if old(r.Valid()) {
        RootKept(r);
      }
    }

    /** mergeResult: each feature of `other`, in order, is appended to the held
        result, which adds its counters and duration to the result's without a
        new tally; the index by name, the tag index and the failed list keep
        what they held. Then the held result is set again, which caches its
        new counts. */
    method MergeResult(other: CucumberTestResult)
      requires result.Valid() && other.Valid()
      requires forall f, g :: f in result.featureResults && g in other.featureResults ==> f.Repr !! g.Repr
      modifies this`result, this`totalCount, this`failCount, this`skipCount
      modifies result`featureResults, result`passCount, result`failCount, result`skipCount, result`duration
      modifies other.featureResults`parent
      ensures result == old(result) && result.Valid()
      ensures result.featureResults == old(result.featureResults) + old(other.featureResults)
      ensures forall f :: f in old(other.featureResults) ==> f.parent == result
      ensures var added := old(Total(Summaries(other.featureResults)));
        && result.passCount == old(result.passCount) + added.pass
        && result.failCount == old(result.failCount) + added.fail
        && result.skipCount == old(result.skipCount) + added.skip
        && result.duration == old(result.duration) + added.duration
      ensures unchanged(result`featuresById, result`tagMap, result`failedScenarioResults)
      ensures CountsCached()
    {
      var cr := GetResult();
      RootKept(other);
      assert Summaries(other.featureResults) == old(Summaries(other.featureResults));
      MergeFeatures(cr, other);
      SetResult(cr);
    }
  }

  /** The features of `other` appended to `root`, with their totals added. */
  method MergeFeatures(root: CucumberTestResult, other: CucumberTestResult)
    requires root.Valid() && other.Valid()
    requires forall f, g :: f in root.featureResults && g in other.featureResults ==> f.Repr !! g.Repr
    modifies root`featureResults, root`passCount, root`failCount, root`skipCount, root`duration
    modifies other.featureResults`parent
    ensures root.Valid()
    ensures root.featureResults == old(root.featureResults) + old(other.featureResults)
    ensures forall f :: f in old(other.featureResults) ==> f.parent == root
    ensures var added := old(Total(Summaries(other.featureResults)));
      && root.passCount == old(root.passCount) + added.pass
      && root.failCount == old(root.failCount) + added.fail
      && root.skipCount == old(root.skipCount) + added.skip
      && root.duration == old(root.duration) + added.duration
  {
    AppendFeatures(root, other, other.featureResults);
  }

  /** A feature that is to be appended shares no object with those already
      held or appended before it. */
  lemma NextApart(before: seq<FeatureResult>, incoming: seq<FeatureResult>, i: int)
    requires 0 <= i < |incoming|
    requires forall a, b {:trigger ReprApartAt(incoming, a, b)} :: ReprApartAt(incoming, a, b)
    requires forall f, g :: f in before && g in incoming ==> f.Repr !! g.Repr
    ensures forall f :: f in before + incoming[..i] ==> f.Repr !! incoming[i].Repr
  {
    forall f | f in before + incoming[..i]
      ensures f.Repr !! incoming[i].Repr
    {
      if f !in before {
        var j :| 0 <= j < i && incoming[..i][j] == f;
        assert ReprApartAt(incoming, j, i);
      }
    }
  }

  /** The loop of mergeResult: each feature of `incoming`, which belong to
      `other`, is appended in order to `root`, adding its counters and duration
      to the root's. */
  method AppendFeatures(root: CucumberTestResult, other: CucumberTestResult, incoming: seq<FeatureResult>)
    requires root.Valid() && FeaturesValid(other, incoming)
    requires forall f, g :: f in root.featureResults && g in incoming ==> f.Repr !! g.Repr
    modifies root`featureResults, root`passCount, root`failCount, root`skipCount, root`duration, incoming`parent
    ensures root.Valid() && root.featureResults == old(root.featureResults) + incoming
    ensures forall f :: f in incoming ==> f.parent == root
    ensures var added := old(Total(Summaries(incoming)));
      && root.passCount == old(root.passCount) + added.pass
      && root.failCount == old(root.failCount) + added.fail
      && root.skipCount == old(root.skipCount) + added.skip
      && root.duration == old(root.duration) + added.duration
  {
    ghost var before := root.featureResults;
    ghost var sums := Summaries(incoming);
    var i := 0;
    while i < |incoming|
      invariant 0 <= i <= |incoming|
      invariant root.Valid()
      invariant root.featureResults == before + incoming[..i]
      invariant forall a, b {:trigger ReprApartAt(incoming, a, b)} :: ReprApartAt(incoming, a, b)
      invariant forall f, g :: f in before && g in incoming ==> f.Repr !! g.Repr
      invariant var added := Total(sums[..i]);
        && root.passCount == old(root.passCount) + added.pass
        && root.failCount == old(root.failCount) + added.fail
        && root.skipCount == old(root.skipCount) + added.skip
        && root.duration == old(root.duration) + added.duration
    {
      var fr := incoming[i];
      assert old(FeatureValidAt(other, incoming, i)) && old(fr.Summary()) == sums[i];
      FeatureKept(fr);
      NextApart(before, incoming, i);
      root.AddFeatureResult(fr);
      assert sums[..i + 1][..i] == sums[..i];
      i := i + 1;
    }
    assert sums[..i] == sums;
    forall f | f in incoming
      ensures f.parent == root
    {
      var j :| 0 <= j < |incoming| && incoming[j] == f;
      assert root.featureResults[|before| + j] == f;
      assert FeatureValidAt(root, root.featureResults, |before| + j);
    }
  }
}
