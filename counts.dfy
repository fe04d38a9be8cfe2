/**
 * Counters keyed by string, read the way a `defaultdict(int)` or a
 * MongoDB `$inc` reads them: a key that is not there counts as 0.
 */
module Counts {

  /** The count under `k`, an absent key reading as 0. */
  function Get(m: map<string, nat>, k: string): nat
  {
    if k in m then m[k] else 0
  }
}
