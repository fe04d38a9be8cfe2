/**
 * The candidate side of one primary event: the query on the candidate
 * collection (date range, time range, severity filter) and the counting of
 * the matched alarms' signatures into `inner_dict`.
 */
module Correlation {
  import opened Wrappers
  import opened Text
  import opened Window
  import Keys
  import opened Counts

  /** A candidate alarm document; any field may be missing. */
  datatype Candidate = Candidate(
    date: Option<string>,      // firstTimeDetectedDate
    time: Option<string>,      // firstTimeDetectedTime
    severity: Option<string>,
    node: Option<string>,      // nodeName
    obj: Option<string>,       // objectFullName
    alarm: Option<string>)     // alarmName

  /** `{"$gte": lo, "$lte": hi}`: a missing field never satisfies a range. */
  predicate InRange(v: Option<string>, lo: string, hi: string)
  {
    v.Some? && AtMost(lo, v.value) && AtMost(v.value, hi)
  }

  /**
   * The severity condition: `{"$nin": ["Warning", "Cleared"]}` for a Fault
   * (a missing severity passes `$nin`), exactly `"Cleared"` for a Recovery.
   */
  predicate SeverityAdmits(severity: Option<string>, recovery: bool)
  {
    if recovery then severity == Some("Cleared")
    else severity != Some("Warning") && severity != Some("Cleared")
  }

  /** The whole query: date range, time range and severity, as three independent conditions. */
  predicate Matches(c: Candidate, w: Window, recovery: bool)
    ensures Matches(c, w, recovery) ==> c.date.Some? && c.time.Some?
  {
    InRange(c.date, w.startDate, w.endDate) &&
    InRange(c.time, w.startTime, w.endTime) &&
    SeverityAdmits(c.severity, recovery)
  }

  /** A Fault never matches a Warning or a Cleared alarm; a Recovery matches nothing but a Cleared one. */
  lemma SeverityAsymmetry(c: Candidate, w: Window)
    ensures Matches(c, w, false) ==> c.severity != Some("Warning") && c.severity != Some("Cleared")
    ensures Matches(c, w, true) ==> c.severity == Some("Cleared")
    ensures !(Matches(c, w, false) && Matches(c, w, true))
  {
  }

  /** `collection2.find(query)`: the matching candidates, in collection order. */
  function Query(candidates: seq<Candidate>, w: Window, recovery: bool): (r: seq<Candidate>)
    ensures |r| <= |candidates|
  {
    if candidates == [] then []
    else
      Query(candidates[..|candidates| - 1], w, recovery)
      + (if Matches(candidates[|candidates| - 1], w, recovery) then [candidates[|candidates| - 1]] else [])
  }

  /**
   * The query returns exactly the candidates that satisfy every condition of
   * the filter, each as many times as the collection holds it.
   */
  lemma {:induction false} QueryMatches(candidates: seq<Candidate>, w: Window, recovery: bool)
    ensures forall c :: c in Query(candidates, w, recovery) <==> c in candidates && Matches(c, w, recovery)
    ensures forall c ::
      multiset(Query(candidates, w, recovery))[c] == (if Matches(c, w, recovery) then multiset(candidates)[c] else 0)
  {
    if candidates != [] {
      var init, last := candidates[..|candidates| - 1], candidates[|candidates| - 1];
      assert candidates == init + [last];
      QueryMatches(init, w, recovery);
      assert multiset(candidates) == multiset(init) + multiset{last};
    }
  }

  /** The three fields a signature is built from are present. */
  predicate Complete(c: Candidate)
  {
    c.node.Some? && c.obj.Some? && c.alarm.Some?
  }

  /** `key2`; `None` where the source raises because a field is missing. */
  function SignatureOf(c: Candidate): (r: Option<string>)
    ensures r.Some? <==> Complete(c)
  {
    if Complete(c) then
      Some(Keys.Signature(c.node.value, c.obj.value, c.alarm.value))
    else None
  }

  /** No signature contains a `.`, so each is one plain field name under `nested_count`. */
  lemma SignaturesHaveNoDots(found: seq<Candidate>)
    requires Signatures(found).Some?
    ensures forall k :: k in Tally(Signatures(found).value) ==> '.' !in k
  {
    var sigs := Signatures(found).value;
    SignaturesDefined(found);
    TallyCounts(sigs);
    forall k | k in Tally(sigs) ensures '.' !in k {
      var i :| 0 <= i < |sigs| && sigs[i] == k;
      assert SignatureOf(found[i]) == Some(k);
    }
  }

  /** The signatures of `found`, or `None` if any one of them cannot be built. */
  function Signatures(found: seq<Candidate>): Option<seq<string>>
  {
    if forall i :: 0 <= i < |found| ==> Complete(found[i]) then Some(SignatureSeq(found)) else None
  }

  /** Signatures exist exactly when every matched candidate is complete, one per candidate, in order. */
  lemma SignaturesDefined(found: seq<Candidate>)
    ensures Signatures(found).Some? <==> forall i :: 0 <= i < |found| ==> Complete(found[i])
    ensures Signatures(found).Some? ==> |Signatures(found).value| == |found|
    ensures Signatures(found).Some? ==>
      forall i :: 0 <= i < |found| ==> SignatureOf(found[i]) == Some(Signatures(found).value[i])
  {
  }

  function SignatureSeq(found: seq<Candidate>): (r: seq<string>)
    requires forall i :: 0 <= i < |found| ==> Complete(found[i])
  {
    seq(|found|, i requires 0 <= i < |found| => SignatureOf(found[i]).value)
  }

  /** `inner_dict`: how many times each signature occurs. */
  function Tally(sigs: seq<string>): (r: map<string, nat>)
    ensures sigs != [] ==> sigs[|sigs| - 1] in r && r[sigs[|sigs| - 1]] >= 1
  {
    if sigs == [] then map[]
    else
      var p := Tally(sigs[..|sigs| - 1]);
      p[sigs[|sigs| - 1] := Get(p, sigs[|sigs| - 1]) + 1]
  }

  /** Every signature seen is a key, and its value is the number of times it was seen. */
  lemma {:induction false} TallyCounts(sigs: seq<string>)
    ensures forall k :: k in Tally(sigs) <==> k in sigs
    ensures forall k :: k in Tally(sigs) ==> Tally(sigs)[k] == multiset(sigs)[k]
  {
    if sigs != [] {
      var init, last := sigs[..|sigs| - 1], sigs[|sigs| - 1];
      assert sigs == init + [last];
      TallyCounts(init);
    }
  }

  lemma TallySnoc(sigs: seq<string>, k: string)
    ensures Tally(sigs + [k]) == Tally(sigs)[k := Get(Tally(sigs), k) + 1]
  {
    assert (sigs + [k])[..|sigs|] == sigs;
  }

  /** The sum of a map's values. */
  ghost function Total(m: map<string, nat>): nat
    decreases |m|
  {
    if m == map[] then 0
    else
      var k :| k in m;
      assert |m - {k}| < |m| by {
        assert (m - {k}).Keys == m.Keys - {k};
      }
      m[k] + Total(m - {k})
  }

  /** `Total` does not depend on which key is taken out first. */
  lemma {:induction false} TotalWithout(m: map<string, nat>, k: string)
    requires k in m
    ensures Total(m) == m[k] + Total(m - {k})
    decreases |m|
  {
    var j :| j in m && Total(m) == m[j] + Total(m - {j});
    if j != k {
      assert (m - {j}).Keys == m.Keys - {j};
      assert (m - {k}).Keys == m.Keys - {k};
      TotalWithout(m - {j}, k);
      TotalWithout(m - {k}, j);
      assert m - {j} - {k} == m - {k} - {j};
    }
  }

  lemma TotalBump(m: map<string, nat>, k: string)
    ensures Total(m[k := Get(m, k) + 1]) == Total(m) + 1
  {
    var m' := m[k := Get(m, k) + 1];
    TotalWithout(m', k);
    if k in m {
      TotalWithout(m, k);
      assert m' - {k} == m - {k};
    } else {
      assert m' - {k} == m;
    }
  }

  /** The values of `inner_dict` add up to the number of matched candidates. */
  lemma {:induction false} TallyTotal(sigs: seq<string>)
    ensures Total(Tally(sigs)) == |sigs|
  {
    if sigs != [] {
      TallyTotal(sigs[..|sigs| - 1]);
      TotalBump(Tally(sigs[..|sigs| - 1]), sigs[|sigs| - 1]);
    }
  }

  /** What the source computes for one event: `inner_dict`, or `None` if building a signature raises. */
  function Correlate(candidates: seq<Candidate>, w: Window, recovery: bool): (r: Option<map<string, nat>>)
    ensures r.Some? <==> forall c :: c in Query(candidates, w, recovery) ==> Complete(c)
  {
    var found := Query(candidates, w, recovery);
    SignaturesDefined(found);
    assert (forall i :: 0 <= i < |found| ==> Complete(found[i])) <==> forall c :: c in found ==> Complete(c);
    match Signatures(found)
    case Some(sigs) => Some(Tally(sigs))
    case None => None
  }

  /**
   * The values of `inner_dict` add up to the number of matching candidates,
   * duplicates included: each matched document adds one.
   */
  lemma CorrelateTotal(candidates: seq<Candidate>, w: Window, recovery: bool)
    ensures Correlate(candidates, w, recovery).Some? ==>
      Total(Correlate(candidates, w, recovery).value) == |Query(candidates, w, recovery)|
  {
    var found := Query(candidates, w, recovery);
    if Correlate(candidates, w, recovery).Some? {
      SignaturesDefined(found);
      TallyTotal(Signatures(found).value);
    }
  }

  /** An empty `inner_dict` means no candidate matched (the event is then skipped). */
  lemma CorrelateEmpty(candidates: seq<Candidate>, w: Window, recovery: bool)
    requires Correlate(candidates, w, recovery).Some?
    ensures Correlate(candidates, w, recovery).value == map[] <==>
      forall c :: c in candidates ==> !Matches(c, w, recovery)
  {
    var found := Query(candidates, w, recovery);
    var sigs := Signatures(found).value;
    QueryMatches(candidates, w, recovery);
    SignaturesDefined(found);
    TallyCounts(sigs);
    if found != [] {
      assert found[0] in found;
      assert sigs[0] in Tally(sigs);
    }
  }

  /**
   * The loop over `sam_cursor` building `inner_dict` with `+= 1`, stopping at
   * the first matched candidate whose signature cannot be built.
   */
  method CountSignatures(found: seq<Candidate>) returns (r: Option<map<string, nat>>)
    ensures r.Some? <==> forall i :: 0 <= i < |found| ==> Complete(found[i])
    ensures r.Some? ==> r.value == Tally(Signatures(found).value)
    ensures r.Some? ==> forall k :: k in r.value ==> '.' !in k
  {
    var counts: map<string, nat> := map[];
    ghost var seen: seq<string> := [];
    var i := 0;
    while i < |found|
      invariant 0 <= i <= |found| && |seen| == i
      invariant forall j :: 0 <= j < i ==> SignatureOf(found[j]) == Some(seen[j])
      invariant counts == Tally(seen)
    {
      if !Complete(found[i]) {
        return None;
      }
      var key := SignatureOf(found[i]).value;
      TallySnoc(seen, key);
      counts := counts[key := Get(counts, key) + 1];
      seen := seen + [key];
      i := i + 1;
    }
    CountDone(found, seen, counts);
    r := Some(counts);
  }

  /** Once every match is counted, the tally is that of all the signatures, none of which has a dot. */
  lemma CountDone(found: seq<Candidate>, seen: seq<string>, counts: map<string, nat>)
    requires |seen| == |found| && forall j :: 0 <= j < |found| ==> SignatureOf(found[j]) == Some(seen[j])
    requires counts == Tally(seen)
    ensures Signatures(found).Some? && counts == Tally(Signatures(found).value)
    ensures forall k :: k in counts ==> '.' !in k
  {
    SignaturesDefined(found);
    assert Signatures(found).value == seen;
    SignaturesHaveNoDots(found);
  }
}
