/**
 * The output collection of correlation records, the upsert-increment
 * operation staged per matched event, `bulk_write` (ordered: each operation
 * in turn), and the cutting of staged operations into batches of 500.
 */
module Store {
  import opened Counts

  /** A correlation record: `count` and `nested_count`; absent entries read as 0. */
  datatype Record = Record(count: nat, nested: map<string, nat>)

  /** The collection, keyed by `key1`. */
  type Records = map<string, Record>

  /**
   * `UpdateOne({"key1": key}, {"$inc": {"count": 1, "nested_count.<sig>": n, ...}}, upsert=True)`
   * with one `(sig, n)` per entry of `deltas`.
   */
  datatype Op = Op(key: string, deltas: map<string, nat>)

  function CountOf(s: Records, key: string): nat
  {
    if key in s then s[key].count else 0
  }

  function NestedOf(s: Records, key: string, sig: string): nat
  {
    if key in s then Get(s[key].nested, sig) else 0
  }

  /** Adding `b` into `a`, field by field. */
  function Merge(a: map<string, nat>, b: map<string, nat>): (r: map<string, nat>)
    ensures r.Keys == a.Keys + b.Keys
    ensures forall k :: Get(r, k) == Get(a, k) + Get(b, k)
  {
    map k | k in a.Keys + b.Keys :: Get(a, k) + Get(b, k)
  }

  /** The record under `key`, an absent one reading as all zeros. */
  function Current(s: Records, key: string): Record
  {
    if key in s then s[key] else Record(0, map[])
  }

  /** `$inc` on one record: `count` by 1, each `nested_count` field by its delta. */
  function Increment(r: Record, deltas: map<string, nat>): (r': Record)
    ensures r'.count == r.count + 1
    ensures forall sig :: Get(r'.nested, sig) == Get(r.nested, sig) + Get(deltas, sig)
  {
    Record(r.count + 1, Merge(r.nested, deltas))
  }

  /** One upsert-increment, applied to the collection. */
  function Apply(s: Records, op: Op): (r: Records)
    ensures r.Keys == s.Keys + {op.key}
  {
    s[op.key := Increment(Current(s, op.key), op.deltas)]
  }

  /**
   * An upsert-increment raises `count` by 1 and each `nested_count` field by
   * its delta, an absent record or field counting as 0; no other record changes.
   */
  lemma ApplyEffect(s: Records, op: Op, sig: string)
    ensures CountOf(Apply(s, op), op.key) == CountOf(s, op.key) + 1
    ensures NestedOf(Apply(s, op), op.key, sig) == NestedOf(s, op.key, sig) + Get(op.deltas, sig)
    ensures forall k :: k in s && k != op.key ==> Apply(s, op)[k] == s[k]
  {
  }

  /** The store after a bulk write, and pymongo's `upserted_count` for it. */
  datatype Applied = Applied(records: Records, upserted: nat)

  /** The keys the operations target. */
  function KeysOf(ops: seq<Op>): set<string>
  {
    if ops == [] then {} else {ops[0].key} + KeysOf(ops[1..])
  }

  /**
   * An ordered `bulk_write`: each operation applied in turn; an operation
   * counts as upserted when its key was absent as it was applied.
   */
  function ApplyAll(s: Records, ops: seq<Op>): (r: Applied)
    ensures r.records.Keys == s.Keys + KeysOf(ops)
    ensures r.upserted <= |ops|
    decreases |ops|
  {
    if ops == [] then Applied(s, 0)
    else
      var rest := ApplyAll(Apply(s, ops[0]), ops[1..]);
      Applied(rest.records, rest.upserted + if ops[0].key in s then 0 else 1)
  }

  /** `upserted_count` is the number of distinct keys that were not yet in the collection. */
  lemma NewKeysStep(k: string, rest: set<string>, present: set<string>)
    ensures k in present ==> ({k} + rest) - present == rest - present
    ensures k !in present ==> |({k} + rest) - present| == |rest - (present + {k})| + 1
  {
    if k !in present {
      var x := rest - (present + {k});
      assert ({k} + rest) - present == x + {k};
      assert k !in x;
    }
  }

  /** `upserted_count` is the number of distinct keys that were not yet in the collection. */
  lemma {:induction false} UpsertedCount(s: Records, ops: seq<Op>)
    ensures ApplyAll(s, ops).upserted == |KeysOf(ops) - s.Keys|
    decreases |ops|
  {
    if ops != [] {
      var k := ops[0].key;
      var s' := Apply(s, ops[0]);
      UpsertedCount(s', ops[1..]);
      NewKeysStep(k, KeysOf(ops[1..]), s.Keys);
      assert s'.Keys == s.Keys + {k};
    }
  }

  /** A bulk write of `a + b` is a bulk write of `a` followed by one of `b`. */
  lemma {:induction false} ApplyAllConcat(s: Records, a: seq<Op>, b: seq<Op>)
    ensures ApplyAll(s, a + b).records == ApplyAll(ApplyAll(s, a).records, b).records
    ensures ApplyAll(s, a + b).upserted == ApplyAll(s, a).upserted + ApplyAll(ApplyAll(s, a).records, b).upserted
    decreases |a|
  {
    if a == [] {
      assert a + b == b;
    } else {
      assert (a + b)[0] == a[0] && (a + b)[1..] == a[1..] + b;
      ApplyAllConcat(Apply(s, a[0]), a[1..], b);
    }
  }

  /** Two upsert-increments commute. */
  lemma MergeCommutes(n: map<string, nat>, a: map<string, nat>, b: map<string, nat>)
    ensures Merge(Merge(n, a), b) == Merge(Merge(n, b), a)
  {
    var l, r := Merge(Merge(n, a), b), Merge(Merge(n, b), a);
    assert l.Keys == r.Keys;
    forall k | k in l ensures l[k] == r[k] {
      assert Get(l, k) == Get(r, k);
    }
  }

  lemma ApplyCommutes(s: Records, x: Op, y: Op)
    ensures Apply(Apply(s, x), y) == Apply(Apply(s, y), x)
  {
    var cx, cy := Current(s, x.key), Current(s, y.key);
    if x.key == y.key {
      MergeCommutes(cx.nested, x.deltas, y.deltas);
      assert Increment(Increment(cx, x.deltas), y.deltas) == Increment(Increment(cx, y.deltas), x.deltas);
      assert Current(Apply(s, x), y.key) == Increment(cx, x.deltas);
      assert Current(Apply(s, y), x.key) == Increment(cx, y.deltas);
    } else {
      assert Current(Apply(s, x), y.key) == cy;
      assert Current(Apply(s, y), x.key) == cx;
      assert s[x.key := Increment(cx, x.deltas)][y.key := Increment(cy, y.deltas)]
          == s[y.key := Increment(cy, y.deltas)][x.key := Increment(cx, x.deltas)];
    }
  }

  lemma SwapFront(s: Records, x: Op, y: Op, q: seq<Op>)
    ensures ApplyAll(s, [x, y] + q) == ApplyAll(s, [y, x] + q)
  {
    assert ([x, y] + q)[0] == x && ([x, y] + q)[1..] == [y] + q;
    assert ([y] + q)[0] == y && ([y] + q)[1..] == q;
    assert ([y, x] + q)[0] == y && ([y, x] + q)[1..] == [x] + q;
    assert ([x] + q)[0] == x && ([x] + q)[1..] == q;
    ApplyCommutes(s, x, y);
    var sxy := Apply(Apply(s, x), y);
    var tail := ApplyAll(sxy, q);
    assert ApplyAll(s, [x, y] + q).records == tail.records;
    assert ApplyAll(s, [y, x] + q).records == tail.records;
    assert ApplyAll(s, [x, y] + q).upserted
      == tail.upserted + (if y.key in Apply(s, x) then 0 else 1) + (if x.key in s then 0 else 1);
    assert ApplyAll(s, [y, x] + q).upserted
      == tail.upserted + (if x.key in Apply(s, y) then 0 else 1) + (if y.key in s then 0 else 1);
  }

  /**
   * Swapping two adjacent operations changes neither the final collection
   * nor the upserted count: the outcome does not depend on the order in
   * which a day's events are staged.
   */
  lemma ApplyAllSwap(s: Records, p: seq<Op>, x: Op, y: Op, q: seq<Op>)
    ensures ApplyAll(s, p + [x, y] + q) == ApplyAll(s, p + [y, x] + q)
  {
    var mid := ApplyAll(s, p).records;
    assert p + [x, y] + q == p + ([x, y] + q);
    assert p + [y, x] + q == p + ([y, x] + q);
    ApplyAllConcat(s, p, [x, y] + q);
    ApplyAllConcat(s, p, [y, x] + q);
    SwapFront(mid, x, y, q);
  }

  /** How many operations target `key`. */
  function Occurrences(ops: seq<Op>, key: string): nat
  {
    if ops == [] then 0 else (if ops[0].key == key then 1 else 0) + Occurrences(ops[1..], key)
  }

  /** The total delta the operations on `key` carry for `sig`. */
  function DeltaSum(ops: seq<Op>, key: string, sig: string): nat
  {
    if ops == [] then 0
    else (if ops[0].key == key then Get(ops[0].deltas, sig) else 0) + DeltaSum(ops[1..], key, sig)
  }

  /**
   * After a bulk write every record's `count` has risen by the number of
   * operations on its key and every `nested_count` field by the sum of
   * their deltas for it.
   */
  lemma {:induction false} ApplyAllTotals(s: Records, ops: seq<Op>, key: string, sig: string)
    ensures CountOf(ApplyAll(s, ops).records, key) == CountOf(s, key) + Occurrences(ops, key)
    ensures NestedOf(ApplyAll(s, ops).records, key, sig) == NestedOf(s, key, sig) + DeltaSum(ops, key, sig)
    decreases |ops|
  {
    if ops != [] {
      ApplyAllTotals(Apply(s, ops[0]), ops[1..], key, sig);
      ApplyEffect(s, ops[0], sig);
    }
  }

  // ---------------------------------------------------------------------------
  // Batches
  // ---------------------------------------------------------------------------

  /** `batch_size`: the buffer is written once it holds this many operations. */
  const BatchSize: nat := 500

  function Flatten<T>(bs: seq<seq<T>>): seq<T>
  {
    if bs == [] then [] else bs[0] + Flatten(bs[1..])
  }

  lemma {:induction false} FlattenAppend<T>(a: seq<seq<T>>, b: seq<seq<T>>)
    ensures Flatten(a + b) == Flatten(a) + Flatten(b)
  {
    if a == [] {
      assert a + b == b;
    } else {
      assert (a + b)[0] == a[0];
      assert (a + b)[1..] == a[1..] + b;
      FlattenAppend(a[1..], b);
      AppendAssociates(a[0], Flatten(a[1..]), Flatten(b));
    }
  }

  /**
   * The batches in which staged operations reach `bulk_write`: full batches
   * of 500, then the remainder.
   */
  function Chunks<T>(xs: seq<T>): (r: seq<seq<T>>)
    ensures |r| == (|xs| + BatchSize - 1) / BatchSize
    decreases |xs|
  {
    if xs == [] then []
    else if |xs| <= BatchSize then [xs]
    else [xs[..BatchSize]] + Chunks(xs[BatchSize..])
  }

  /** Batching loses, duplicates and reorders nothing; no batch is empty or over 500, and only the last is short. */
  lemma {:induction false} ChunksSpec<T>(xs: seq<T>)
    ensures Flatten(Chunks(xs)) == xs
    ensures forall i :: 0 <= i < |Chunks(xs)| ==> 0 < |Chunks(xs)[i]| <= BatchSize
    ensures forall i :: 0 <= i < |Chunks(xs)| - 1 ==> |Chunks(xs)[i]| == BatchSize
    decreases |xs|
  {
    if xs == [] {
    } else if |xs| <= BatchSize {
      assert Flatten([xs]) == xs + Flatten([xs][1..]);
    } else {
      var r := Chunks(xs);
      ChunksSpec(xs[BatchSize..]);
      assert r[1..] == Chunks(xs[BatchSize..]);
      assert xs == xs[..BatchSize] + xs[BatchSize..];
    }
  }

  lemma AppendAssociates<T>(a: seq<T>, b: seq<T>, c: seq<T>)
    ensures a + b + c == a + (b + c)
  {
  }

  /** `xs` splits into batches of exactly 500. */
  predicate Whole<T>(xs: seq<T>)
    decreases |xs|
  {
    xs == [] || (BatchSize <= |xs| && Whole(xs[BatchSize..]))
  }

  lemma {:induction false} WholeLength<T>(xs: seq<T>)
    ensures Whole(xs) <==> |xs| % BatchSize == 0
    decreases |xs|
  {
    if BatchSize <= |xs| {
      WholeLength(xs[BatchSize..]);
    }
  }

  /** One more full batch after whole batches leaves whole batches. */
  lemma {:induction false} WholeExtend<T>(a: seq<T>, b: seq<T>)
    requires Whole(a) && |b| == BatchSize
    ensures Whole(a + b)
    decreases |a|
  {
    if a == [] {
      assert (a + b)[BatchSize..] == [];
    } else {
      assert (a + b)[BatchSize..] == a[BatchSize..] + b;
      WholeExtend(a[BatchSize..], b);
    }
  }

  /** After whole batches, the next batch of at most 500 is cut as it stands. */
  lemma {:induction false} ChunksAppend<T>(a: seq<T>, b: seq<T>)
    requires Whole(a) && 0 < |b| <= BatchSize
    ensures Chunks(a + b) == Chunks(a) + [b]
    decreases |a|
  {
    if a == [] {
      assert a + b == b;
    } else {
      assert (a + b)[..BatchSize] == a[..BatchSize];
      assert (a + b)[BatchSize..] == a[BatchSize..] + b;
      ChunksAppend(a[BatchSize..], b);
    }
  }

  /** The whole batches among `xs`: what has been written when a later step raises. */
  function Flushed<T>(xs: seq<T>): (r: seq<T>)
    ensures Whole(r) && |r| <= |xs| && r == xs[..|r|] && |xs| - |r| < BatchSize
    decreases |xs|
  {
    if |xs| < BatchSize then []
    else
      var rest := Flushed(xs[BatchSize..]);
      var r := xs[..BatchSize] + rest;
      assert r[BatchSize..] == rest;
      assert r == xs[..|r|];
      r
  }

  /** Whole batches followed by less than one batch flush exactly the whole batches. */
  lemma {:induction false} FlushedOfWhole<T>(whole: seq<T>, rest: seq<T>)
    requires Whole(whole) && |rest| < BatchSize
    ensures Flushed(whole + rest) == whole
    decreases |whole|
  {
    if whole == [] {
      assert whole + rest == rest;
    } else {
      assert (whole + rest)[BatchSize..] == whole[BatchSize..] + rest;
      assert (whole + rest)[..BatchSize] == whole[..BatchSize];
      FlushedOfWhole(whole[BatchSize..], rest);
      assert whole == whole[..BatchSize] + whole[BatchSize..];
    }
  }

  /** The output collection: its records, and the log of bulk writes made to it. */
  class Collection {
    var records: Records
    ghost var writes: seq<seq<Op>>

    constructor (initial: Records)
      ensures records == initial && writes == []
    {
      records := initial;
      writes := [];
    }

    /** `bulk_write(ops)`, which pymongo refuses for an empty list. */
    method BulkWrite(ops: seq<Op>) returns (upserted: nat)
      requires ops != []
      modifies this
      ensures records == ApplyAll(old(records), ops).records
      ensures upserted == ApplyAll(old(records), ops).upserted
      ensures upserted == |KeysOf(ops) - old(records).Keys|
      ensures writes == old(writes) + [ops]
    {
      var result := ApplyAll(records, ops);
      UpsertedCount(records, ops);
      records, upserted := result.records, result.upserted;
      writes := writes + [ops];
    }
  }
}
