/** The two indexes a tally rebuilds, stated as folds over the order in which
    the tally visits the nodes: a map keyed by safe name in which a later entry
    replaces an earlier one, and the tag index in which each tag collects, once
    each, the scenarios that carry it. */
module Indexes {
  import opened CucumberUtils

  /** The tag that collects the scenarios declaring no tag of their own. */
  const UNTAGGED_TEST_TAG: string := "@_UNTAGGED_"

  /** The map left by `put(keys[i], xs[i])` for each i in order. */
  function IndexByKey<T>(xs: seq<T>, keys: seq<string>): map<string, T>
    requires |xs| == |keys|
  {
    if xs == [] then map[]
    else IndexByKey(xs[..|xs| - 1], keys[..|keys| - 1])[keys[|keys| - 1] := xs[|xs| - 1]]
  }

  /** No later entry has the same key as entry i. */
  predicate LastWithKey(keys: seq<string>, i: int) {
    0 <= i < |keys| && forall j :: i < j < |keys| ==> keys[j] != keys[i]
  }

  /** The keys of the index are the keys put, and each key maps to the last
      entry put under it. */
  lemma {:induction false} IndexByKeyLookup<T>(xs: seq<T>, keys: seq<string>)
    requires |xs| == |keys|
    ensures IndexByKey(xs, keys).Keys == set k | k in keys
    ensures forall i :: LastWithKey(keys, i) ==> IndexByKey(xs, keys)[keys[i]] == xs[i]
  {
    if xs != [] {
      var n := |xs| - 1;
      IndexByKeyLookup(xs[..n], keys[..n]);
      assert keys == keys[..n] + [keys[n]];
      assert (set k | k in keys) == (set k | k in keys[..n]) + {keys[n]};
      forall i | LastWithKey(keys, i)
        ensures IndexByKey(xs, keys)[keys[i]] == xs[i]
      {
        if i < n {
          assert keys[i] != keys[n] && keys[..n][i] == keys[i] && xs[..n][i] == xs[i];
          assert LastWithKey(keys[..n], i);
        }
      }
    }
  }

  /** `addScenarioResult` on the tag's set of scenarios: `s` joins the list of
      tag `t`, which is created when absent, unless it is already there. */
  function JoinTag<S(==)>(idx: map<string, seq<S>>, s: S, t: string): map<string, seq<S>> {
    if t !in idx then idx[t := [s]]
    else if s in idx[t] then idx
    else idx[t := idx[t] + [s]]
  }

  /** A tag index that differs from `view` only at `name`, where it holds
      `s` joined to what `view` held, is `view` with `s` joined to `name`. */
  lemma JoinTagFrom<S>(view: map<string, seq<S>>, view': map<string, seq<S>>, s: S, name: string)
    requires view'.Keys == view.Keys + {name}
    requires forall t :: t in view && t != name ==> view'[t] == view[t]
    requires name !in view ==> view'[name] == [s]
    requires name in view && s in view[name] ==> view'[name] == view[name]
    requires name in view && s !in view[name] ==> view'[name] == view[name] + [s]
    ensures view' == JoinTag(view, s, name)
  {
  }

  /** `s` joins each tag of `ts`, in order. */
  function JoinTags<S(==)>(idx: map<string, seq<S>>, s: S, ts: seq<string>): map<string, seq<S>> {
    if ts == [] then idx
    else JoinTag(JoinTags(idx, s, ts[..|ts| - 1]), s, ts[|ts| - 1])
  }

  /** Each entry's scenario joins each of the entry's tags, entry by entry. */
  function JoinEntries<S(==)>(idx: map<string, seq<S>>, entries: seq<(S, seq<string>)>): map<string, seq<S>> {
    if entries == [] then idx
    else
      var last := entries[|entries| - 1];
      JoinTags(JoinEntries(idx, entries[..|entries| - 1]), last.0, last.1)
  }

  /** The tag index built from (scenario, tags) entries in visiting order. */
  function IndexTags<S(==)>(entries: seq<(S, seq<string>)>): map<string, seq<S>> {
    JoinEntries(map[], entries)
  }

  /** Joining two runs of entries one after the other is joining them together. */
  lemma {:induction false} JoinEntriesAppend<S>(idx: map<string, seq<S>>, a: seq<(S, seq<string>)>, b: seq<(S, seq<string>)>)
    ensures JoinEntries(idx, a + b) == JoinEntries(JoinEntries(idx, a), b)
    decreases |b|
  {
    if b == [] {
      assert a + b == a;
    } else {
      var n := |b| - 1;
      assert (a + b)[..|a + b| - 1] == a + b[..n];
      JoinEntriesAppend(idx, a, b[..n]);
    }
  }

  /** No element occurs twice. */
  predicate NoDuplicates<S(==)>(xs: seq<S>) {
    forall i, j :: 0 <= i < j < |xs| ==> xs[i] != xs[j]
  }

  /** Joining in two batches is joining in one. */
  lemma {:induction false} JoinTagsAppend<S>(idx: map<string, seq<S>>, s: S, a: seq<string>, b: seq<string>)
    ensures JoinTags(idx, s, a + b) == JoinTags(JoinTags(idx, s, a), s, b)
    decreases |b|
  {
    if b == [] {
      assert a + b == a;
    } else {
      var n := |b| - 1;
      assert (a + b)[..|a + b| - 1] == a + b[..n];
      JoinTagsAppend(idx, s, a, b[..n]);
    }
  }

  /** Every list of the index is free of duplicates. */
  ghost predicate ListsDistinct<S>(idx: map<string, seq<S>>) {
    forall t :: t in idx ==> NoDuplicates(idx[t])
  }

  /** After `s` joins tag `t`, a tag's list holds what it held before, and `s`
      when the tag is `t`; no list gains a duplicate. */
  lemma JoinTagSpec<S>(idx: map<string, seq<S>>, s: S, t: string)
    requires ListsDistinct(idx)
    ensures JoinTag(idx, s, t).Keys == idx.Keys + {t}
    ensures forall u, x :: u in JoinTag(idx, s, t) ==>
      (x in JoinTag(idx, s, t)[u] <==> (u in idx && x in idx[u]) || (u == t && x == s))
    ensures ListsDistinct(JoinTag(idx, s, t))
  {
    if t in idx && s !in idx[t] {
      var l := idx[t];
      assert NoDuplicates(l);
      forall i, j | 0 <= i < j < |l + [s]|
        ensures (l + [s])[i] != (l + [s])[j]
      {
        assert (l + [s])[i] == l[i];
        if j < |l| {
          assert (l + [s])[j] == l[j];
        }
      }
    }
  }

  /** After `s` joins the tags `ts`, a tag's list holds what it held before,
      and `s` exactly when the tag is among `ts`; no list gains a duplicate. */
  lemma {:induction false} JoinTagsSpec<S>(idx: map<string, seq<S>>, s: S, ts: seq<string>)
    requires ListsDistinct(idx)
    ensures JoinTags(idx, s, ts).Keys == idx.Keys + set t | t in ts
    ensures forall u, x :: u in JoinTags(idx, s, ts) ==>
      (x in JoinTags(idx, s, ts)[u] <==> (u in idx && x in idx[u]) || (u in ts && x == s))
    ensures ListsDistinct(JoinTags(idx, s, ts))
    decreases |ts|
  {
    if ts != [] {
      var n := |ts| - 1;
      JoinTagsSpec(idx, s, ts[..n]);
      assert ts == ts[..n] + [ts[n]];
      JoinTagSpec(JoinTags(idx, s, ts[..n]), s, ts[n]);
    }
  }

  /** A tag is present when some entry carries it. */
  ghost predicate Carried<S>(entries: seq<(S, seq<string>)>, t: string) {
    exists i :: 0 <= i < |entries| && t in entries[i].1
  }

  /** Some entry pairs `x` with tag `t`. */
  ghost predicate CarriedBy<S>(entries: seq<(S, seq<string>)>, t: string, x: S) {
    exists i :: 0 <= i < |entries| && entries[i].0 == x && t in entries[i].1
  }

  /** The tag index: a tag is present exactly when some entry carries it, its
      list holds exactly the scenarios of the entries carrying it, and no
      scenario is listed twice under one tag. */
  lemma {:induction false} IndexTagsSpec<S>(entries: seq<(S, seq<string>)>)
    ensures forall t :: t in IndexTags(entries) <==> Carried(entries, t)
    ensures forall t, x :: t in IndexTags(entries) ==> (x in IndexTags(entries)[t] <==> CarriedBy(entries, t, x))
    ensures ListsDistinct(IndexTags(entries))
  {
    if entries != [] {
      var n := |entries| - 1;
      var init := entries[..n];
      var prev := IndexTags(init);
      IndexTagsSpec(init);
      JoinTagsSpec(prev, entries[n].0, entries[n].1);
      var r := IndexTags(entries);
      assert r == JoinTags(prev, entries[n].0, entries[n].1);
      forall t
        ensures t in r <==> Carried(entries, t)
      {
        if t in r && t !in entries[n].1 {
          var i :| 0 <= i < |init| && t in init[i].1;
          assert entries[i] == init[i];
        }
        if Carried(entries, t) {
          var i :| 0 <= i < |entries| && t in entries[i].1;
          if i < n {
            assert init[i] == entries[i];
          }
        }
      }
      forall t, x | t in r
        ensures x in r[t] <==> CarriedBy(entries, t, x)
      {
        if x in r[t] && !(t in entries[n].1 && x == entries[n].0) {
          var i :| 0 <= i < |init| && init[i].0 == x && t in init[i].1;
          assert entries[i] == init[i];
        }
        if CarriedBy(entries, t, x) {
          var i :| 0 <= i < |entries| && entries[i].0 == x && t in entries[i].1;
          if i < n {
            assert init[i] == entries[i];
            assert CarriedBy(init, t, x);
          }
        }
      }
    }
  }

  /** The tags a scenario joins: every tag of its feature, then `@_UNTAGGED_`
      when it declares no tag itself, otherwise each of its own tags. */
  function ScenarioTags(feature: Feature, scenario: Scenario): (ts: seq<string>)
    ensures forall t :: t in feature.tags ==> t in ts
    ensures scenario.tags == [] ==> UNTAGGED_TEST_TAG in ts
    ensures forall t :: t in ts <==> t in feature.tags || t in scenario.tags || (scenario.tags == [] && t == UNTAGGED_TEST_TAG)
  {
    feature.tags + (if scenario.tags == [] then [UNTAGGED_TEST_TAG] else scenario.tags)
  }
}
