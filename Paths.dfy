/** The string side of the URL space of a result tree: how the root splits an
    id into the key it looks up, and how a scenario builds a relative path by
    walking up its ancestors. */
module Paths {
  import opened Wrappers
  import opened Strings

  /** What an id below the root designates. */
  datatype IdTarget =
    | Whole                                  // the root itself
    | TagKey(tag: string)                    // <id>/@tag
    | FeatureKey(feature: string)            // <id>/<feature>
    | InFeature(feature: string, rest: string) // <id>/<feature>/<rest>
    | Nowhere                                // anything else

  /** The splitting done by the root's findCorrespondingResult: a null id or the
      root's own id is the root; below `<id>/`, a part starting with '@' is a tag,
      a part without '/' is a feature key, and otherwise the part up to the first
      '/' is a feature key and the remainder is passed on to that feature. */
  function ParseId(rootId: string, id: Option<string>): IdTarget {
    if id.None? || id.value == rootId then Whole
    else if StartsWith(id.value, rootId + "/") then
      var idToFind := id.value[|rootId| + 1..];
      if StartsWith(idToFind, "@") then TagKey(idToFind)
      else match IndexOf(idToFind, '/')
        case None => FeatureKey(idToFind)
        case Some(idx) => InFeature(idToFind[..idx], idToFind[idx + 1..])
    else Nowhere
  }

  /** The id of each target, the inverse of ParseId. */
  function IdOf(rootId: string, t: IdTarget): Option<string> {
    match t
    case Whole => Some(rootId)
    case TagKey(tag) => Some(rootId + "/" + tag)
    case FeatureKey(f) => Some(rootId + "/" + f)
    case InFeature(f, rest) => Some(rootId + "/" + f + "/" + rest)
    case Nowhere => None
  }

  /** A target whose id ParseId can split back: a tag starts with '@', and a
      feature key neither starts with '@' nor contains '/'. */
  predicate WellFormed(t: IdTarget) {
    match t
    case Whole => true
    case TagKey(tag) => StartsWith(tag, "@")
    case FeatureKey(f) => !StartsWith(f, "@") && '/' !in f
    case InFeature(f, _) => !StartsWith(f, "@") && '/' !in f
    case Nowhere => false
  }

  /** Splitting the id of a well-formed target gives the target back. */
  lemma ParseIdOf(rootId: string, t: IdTarget)
    requires WellFormed(t)
    ensures ParseId(rootId, IdOf(rootId, t)) == t
  {
    var p := rootId + "/";
    match t
    case Whole =>
    case TagKey(tag) =>
      assert (p + tag)[..|p|] == p;
      assert (p + tag)[|rootId| + 1..] == tag;
    case FeatureKey(f) =>
      assert (p + f)[..|p|] == p;
      assert (p + f)[|rootId| + 1..] == f;
    case InFeature(f, rest) =>
      var id := p + f + "/" + rest;
      assert id[..|p|] == p;
      var idToFind := id[|rootId| + 1..];
      assert idToFind == f + "/" + rest;
      assert idToFind[..|f|] == f;
      assert !StartsWith(idToFind, "@") by {
        if |f| > 0 {
          assert idToFind[..1] == f[..1];
        } else {
          assert idToFind[0] == '/';
        }
      }
      var k := IndexOf(idToFind, '/');
      assert idToFind[|f|] == '/';
      assert forall i :: 0 <= i < |f| ==> idToFind[i] == f[i];
      assert k == Some(|f|);
      assert idToFind[|f| + 1..] == rest;
  }

  /** An id that is neither the root's own nor below it designates nothing. */
  lemma ParseIdNowhere(rootId: string, id: string)
    ensures ParseId(rootId, Some(id)) == Nowhere <==> id != rootId && !StartsWith(id, rootId + "/")
  {
  }

  /** The names of the nodes of `chain`, outermost first, each followed by '/'. */
  function Joined<N>(chain: seq<(N, string)>): string {
    if chain == [] then "" else Joined(chain[1..]) + chain[0].1 + "/"
  }

  /** _getRelativePathFrom: walks up from the first node of `chain` (each node
      with its safe name, then its parent, ...), putting each name in front, until
      the node `from` is met; None (null) when the walk runs off the top before.
      A `from` of None is met when the walk runs off the top. */
  function WalkUp<N(==)>(from: Option<N>, chain: seq<(N, string)>): Option<string> {
    if chain == [] then (if from.None? then Some("") else None)
    else if from == Some(chain[0].0) then Some("")
    else match WalkUp(from, chain[1..])
      case None => None
      case Some(p) => Some(p + chain[0].1 + "/")
  }

  /** The outcome of getRelativePathFrom: a path, or the inherited behaviour. */
  datatype RelativePath = Path(path: string) | Inherited

  /** getRelativePathFrom of the first node of `chain`: "." from itself; the walk
      from `from`; else the walk from `from`'s parent behind "../"; else what the
      inherited implementation answers. */
  function RelativePathFrom<N(==)>(from: N, fromParent: Option<N>, chain: seq<(N, string)>): RelativePath
    requires chain != []
  {
    if from == chain[0].0 then Path(".")
    else match WalkUp(Some(from), chain)
      case Some(p) => Path(p)
      case None =>
        match WalkUp(fromParent, chain)
        case Some(p) => Path("../" + p)
        case None => Inherited
  }

  /** The nodes of a chain are distinct. */
  predicate DistinctNodes<N(==)>(chain: seq<(N, string)>) {
    forall i, j :: 0 <= i < j < |chain| ==> chain[i].0 != chain[j].0
  }

  /** Walking up to the k-th ancestor joins the names below it; walking towards
      a node that is not an ancestor gives null. */
  lemma {:induction false} WalkUpToAncestor<N>(chain: seq<(N, string)>, k: nat)
    requires DistinctNodes(chain) && k < |chain|
    ensures WalkUp(Some(chain[k].0), chain) == Some(Joined(chain[..k]))
  {
    if k > 0 {
      assert chain[0].0 != chain[k].0;
      assert DistinctNodes(chain[1..]) by {
        forall i, j | 0 <= i < j < |chain[1..]| ensures chain[1..][i].0 != chain[1..][j].0 {
          assert chain[1..][i] == chain[i + 1] && chain[1..][j] == chain[j + 1];
        }
      }
      WalkUpToAncestor(chain[1..], k - 1);
      assert chain[1..][k - 1] == chain[k];
      assert chain[1..][..k - 1] == chain[..k][1..];
    }
  }

  lemma {:induction false} WalkUpMisses<N>(from: N, chain: seq<(N, string)>)
    requires forall i :: 0 <= i < |chain| ==> chain[i].0 != from
    ensures WalkUp(Some(from), chain) == None
  {
    if chain != [] {
      WalkUpMisses(from, chain[1..]);
    }
  }

  /** getRelativePathFrom: "." from the node itself, the joined names of the
      nodes below an ancestor when coming from that ancestor, and "../" and the
      joined names below the parent of `from` when `from` is not an ancestor but
      its parent is (a tag, whose parent is the root). */
  lemma RelativePathCases<N>(chain: seq<(N, string)>, from: N, fromParent: Option<N>, k: nat)
    requires DistinctNodes(chain) && 0 < k < |chain|
    ensures RelativePathFrom(chain[0].0, fromParent, chain) == Path(".")
    ensures from == chain[k].0 ==> RelativePathFrom(from, fromParent, chain) == Path(Joined(chain[..k]))
    ensures (forall i :: 0 <= i < |chain| ==> chain[i].0 != from) && fromParent == Some(chain[k].0) ==>
      RelativePathFrom(from, fromParent, chain) == Path("../" + Joined(chain[..k]))
  {
    WalkUpToAncestor(chain, k);
    if forall i :: 0 <= i < |chain| ==> chain[i].0 != from {
      WalkUpMisses(from, chain);
    }
  }

  /** The paths to a scenario (first node of a three-node chain scenario,
      feature, root): one name from its feature, the feature's and its own name
      from the root, and those behind "../" from any other node whose parent is
      the root, such as a tag. */
  lemma AncestryPaths<N>(chain: seq<(N, string)>, from: N, fromParent: Option<N>)
    requires |chain| == 3 && DistinctNodes(chain)
    ensures from == chain[1].0 ==> RelativePathFrom(from, fromParent, chain) == Path(chain[0].1 + "/")
    ensures from == chain[2].0 ==>
      RelativePathFrom(from, fromParent, chain) == Path(chain[1].1 + "/" + chain[0].1 + "/")
    ensures (forall i :: 0 <= i < 3 ==> chain[i].0 != from) && fromParent == Some(chain[2].0) ==>
      RelativePathFrom(from, fromParent, chain) == Path("../" + chain[1].1 + "/" + chain[0].1 + "/")
  {
    RelativePathCases(chain, from, fromParent, 1);
    RelativePathCases(chain, from, fromParent, 2);
    assert Joined(chain[..1]) == chain[0].1 + "/" by {
      assert chain[..1][1..] == [];
    }
    assert Joined(chain[..2]) == chain[1].1 + "/" + chain[0].1 + "/" by {
      assert chain[..2][1..] == [chain[1]];
      assert chain[..2][1..][1..] == [];
    }
  }
}
