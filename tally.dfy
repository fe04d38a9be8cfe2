/**
 * The run-wide diagnostic tally `tc`: a `defaultdict(int)` counting, per
 * primary key, the eligible events seen.
 */
module Diagnostics {
  import opened Counts

  /** `counts` after `tc[k] += 1` for each `k` of `keys`, in order. */
  function Bumped(counts: map<string, nat>, keys: seq<string>): (r: map<string, nat>)
    ensures counts.Keys <= r.Keys
  {
    if keys == [] then counts
    else
      var p := Bumped(counts, keys[..|keys| - 1]);
      p[keys[|keys| - 1] := Get(p, keys[|keys| - 1]) + 1]
  }

  /** Every key of `keys` is present afterwards, and its count rose by the times it occurs in `keys`. */
  lemma {:induction false} BumpedCounts(counts: map<string, nat>, keys: seq<string>)
    ensures Bumped(counts, keys).Keys == counts.Keys + set k | k in keys
    ensures forall k :: Get(Bumped(counts, keys), k) == Get(counts, k) + multiset(keys)[k]
  {
    if keys != [] {
      var init, last := keys[..|keys| - 1], keys[|keys| - 1];
      assert keys == init + [last];
      BumpedCounts(counts, init);
    }
  }

  /** Bumping one more key is one more `+= 1` on the tally reached so far. */
  lemma BumpedSnoc(counts: map<string, nat>, keys: seq<string>, k: string)
    ensures Bumped(counts, keys + [k]) == Bumped(Bumped(counts, keys), [k])
  {
    assert (keys + [k])[..|keys|] == keys;
    assert [k][..0] == [];
  }

  /** The mutable tally object shared by every day of a run. */
  class Tally {
    var counts: map<string, nat>

    constructor ()
      ensures counts == map[]
    {
      counts := map[];
    }

    /** `tc[key] += 1`. */
    method Increment(key: string)
      modifies this
      ensures counts == Bumped(old(counts), [key])
    {
      counts := counts[key := Get(counts, key) + 1];
      assert [key][..0] == [];
    }
  }
}
