/** The helpers every result node inherits from Jenkins' test-result classes.
    Their code is not part of this repository, so the ones whose behaviour is
    not fixed here are parameters, and the two that are used as plain
    definitions are stated as the assumptions the model makes about Jenkins. */
module Host {

  /** `safe` turns a declared name into a path-safe token; `uniquify` stands for
      Jenkins' uniquifyName: given the base names that the node's siblings have
      already registered and the node's own base name, it returns the name the
      node keeps. */
  datatype Helpers = Helpers(safe: string -> string, uniquify: (seq<string>, string) -> string)

  /** Assumed Jenkins definition: a result counts as passed when it has no failure. */
  predicate IsPassed(failCount: int) {
    failCount == 0
  }

  /** Assumed Jenkins definition: the total is the sum of the three counts. */
  function TotalCount(passCount: int, failCount: int, skipCount: int): int {
    passCount + failCount + skipCount
  }
}
