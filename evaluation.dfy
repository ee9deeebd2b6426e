/** Retrieval metrics over the ids a system returned for each test query:
    precision and recall at k, reciprocal rank of the first hit, and the
    per-query evaluation loop with its averages and summary counts. */
module Evaluation {
  import opened Typedefs
  import Py

  // ---------------------------------------------------------------------
  // Counting relevant ids

  /** How many entries of `s` are relevant; an id retrieved twice counts twice. */
  function CountRelevant(s: seq<string>, relevant: set<string>): (c: nat)
    ensures c <= |s|
  {
    if s == [] then 0
    else (if s[0] in relevant then 1 else 0) + CountRelevant(s[1..], relevant)
  }

  lemma {:induction false} CountRelevantConcat(a: seq<string>, b: seq<string>, relevant: set<string>)
    ensures CountRelevant(a + b, relevant) == CountRelevant(a, relevant) + CountRelevant(b, relevant)
  {
    if a == [] {
      assert a + b == b;
    } else {
      assert (a + b)[0] == a[0];
      assert (a + b)[1..] == a[1..] + b;
      CountRelevantConcat(a[1..], b, relevant);
    }
  }

  /** All of `s` is relevant exactly when the count is |s|, none of it exactly
      when the count is 0. */
  lemma {:induction false} CountRelevantExtremes(s: seq<string>, relevant: set<string>)
    ensures CountRelevant(s, relevant) == |s| <==> forall i :: 0 <= i < |s| ==> s[i] in relevant
    ensures CountRelevant(s, relevant) == 0 <==> forall i :: 0 <= i < |s| ==> s[i] !in relevant
  {
    if s != [] {
      CountRelevantExtremes(s[1..], relevant);
      assert forall i :: 1 <= i < |s| ==> s[i] == s[1..][i - 1];
    }
  }

  predicate NoDuplicates(s: seq<string>)
  {
    forall i, j :: 0 <= i < j < |s| ==> s[i] != s[j]
  }

  /** Ids that do not occur in `s` make no difference to its count. */
  lemma {:induction false} CountRelevantWithout(s: seq<string>, relevant: set<string>, x: string)
    requires x !in s
    ensures CountRelevant(s, relevant) == CountRelevant(s, relevant - {x})
  {
    if s != [] {
      assert s[0] != x;
      CountRelevantWithout(s[1..], relevant, x);
    }
  }

  /** Without repeated ids, no more relevant ids are found than there are. */
  lemma {:induction false} CountRelevantAtMostRelevant(s: seq<string>, relevant: set<string>)
    requires NoDuplicates(s)
    ensures CountRelevant(s, relevant) <= |relevant|
  {
    if s != [] {
      var x := s[0];
      assert NoDuplicates(s[1..]);
      assert x !in s[1..];
      if x in relevant {
        CountRelevantWithout(s[1..], relevant, x);
        CountRelevantAtMostRelevant(s[1..], relevant - {x});
      } else {
        CountRelevantAtMostRelevant(s[1..], relevant);
      }
    }
  }

  /** `s[:k]`: the first `k` entries (all of them when fewer), or for a
      negative `k` all but the last `-k`. */
  function Prefix(s: seq<string>, k: int): (p: seq<string>)
    ensures p <= s
    ensures 0 <= k ==> |p| == Min(k, |s|)
    ensures k < 0 ==> |p| == (if -k <= |s| then |s| + k else 0)
  {
    s[..Py.SliceIndex(k, |s|)]
  }

  // ---------------------------------------------------------------------
  // Precision, recall, reciprocal rank

  function Min(a: int, b: int): int { if a < b then a else b }

  /** Precision at k: the share of relevant ids among the first k retrieved
      (fewer when fewer were retrieved); 0 for k == 0 or nothing retrieved. */
  function PrecisionAtK(retrieved: seq<string>, relevant: set<string>, k: int): (p: real)
    ensures k == 0 || retrieved == [] ==> p == 0.0
    ensures k > 0 ==> 0.0 <= p <= 1.0
  {
    if k == 0 || |retrieved| == 0 then 0.0
    else
      var top := Prefix(retrieved, k);
      var found := CountRelevant(top, relevant);
      var d := Min(k, |top|);
      assert k > 0 ==> d == |top| && d > 0 && found <= d;
      (found as real) / (d as real)
  }

  /** For k >= 1, precision at k is 1 exactly when every id of the prefix is
      relevant, and 0 exactly when none is. */
  lemma PrecisionExtremes(retrieved: seq<string>, relevant: set<string>, k: int)
    requires k >= 1 && retrieved != []
    ensures var top := retrieved[..Min(k, |retrieved|)];
            && (PrecisionAtK(retrieved, relevant, k) == 1.0 <==> forall i :: 0 <= i < |top| ==> top[i] in relevant)
            && (PrecisionAtK(retrieved, relevant, k) == 0.0 <==> forall i :: 0 <= i < |top| ==> top[i] !in relevant)
  {
    var top := retrieved[..Min(k, |retrieved|)];
    assert Prefix(retrieved, k) == top;
    CountRelevantExtremes(top, relevant);
    var found := CountRelevant(top, relevant);
    assert PrecisionAtK(retrieved, relevant, k) == (found as real) / (|top| as real);
    RatioExtremes(found, |top|);
  }

  /** A ratio of naturals `f / d` is 1 exactly when f == d, and 0 exactly when f == 0. */
  lemma RatioExtremes(f: nat, d: nat)
    requires d > 0
    ensures (f as real) / (d as real) == 1.0 <==> f == d
    ensures (f as real) / (d as real) == 0.0 <==> f == 0
  {
    var q := (f as real) / (d as real);
    assert q * (d as real) == f as real;
  }

  /** As written, a negative k divides by k itself, so precision is never positive. */
  lemma PrecisionNegativeK(retrieved: seq<string>, relevant: set<string>, k: int)
    requires k < 0 && retrieved != []
    ensures PrecisionAtK(retrieved, relevant, k) <= 0.0
  {
    var top := Prefix(retrieved, k);
    assert Min(k, |top|) == k;
    var found := CountRelevant(top, relevant) as real;
    assert PrecisionAtK(retrieved, relevant, k) == found / (k as real);
  }

  /** Recall at k: relevant ids among the first k retrieved, repeats counted,
      over the number of relevant ids; 0 when there are none. */
  function RecallAtK(retrieved: seq<string>, relevant: set<string>, k: int): (r: real)
    ensures |relevant| == 0 ==> r == 0.0
    ensures r >= 0.0
  {
    if |relevant| == 0 then 0.0
    else (CountRelevant(Prefix(retrieved, k), relevant) as real) / (|relevant| as real)
  }

  lemma CountRelevantPrefixMono(s: seq<string>, relevant: set<string>, a: nat, b: nat)
    requires a <= b <= |s|
    ensures CountRelevant(s[..a], relevant) <= CountRelevant(s[..b], relevant)
  {
    assert s[..b] == s[..a] + s[a..b];
    CountRelevantConcat(s[..a], s[a..b], relevant);
  }

  lemma DivMono(c1: real, c2: real, n: real)
    requires 0.0 < n && c1 <= c2
    ensures c1 / n <= c2 / n
  {
  }

  /** Looking further down the list never lowers recall. */
  lemma RecallMonotone(retrieved: seq<string>, relevant: set<string>, k1: int, k2: int)
    requires 0 <= k1 <= k2
    ensures RecallAtK(retrieved, relevant, k1) <= RecallAtK(retrieved, relevant, k2)
  {
    var a, b := Py.SliceIndex(k1, |retrieved|), Py.SliceIndex(k2, |retrieved|);
    CountRelevantPrefixMono(retrieved, relevant, a, b);
    if |relevant| > 0 {
      DivMono(CountRelevant(retrieved[..a], relevant) as real, CountRelevant(retrieved[..b], relevant) as real,
              |relevant| as real);
    }
  }

  /** When no id is retrieved twice, recall is at most 1. */
  lemma RecallAtMostOne(retrieved: seq<string>, relevant: set<string>, k: int)
    requires NoDuplicates(retrieved)
    ensures RecallAtK(retrieved, relevant, k) <= 1.0
  {
    var p := Prefix(retrieved, k);
    assert NoDuplicates(p);
    CountRelevantAtMostRelevant(p, relevant);
    if |relevant| > 0 {
      var n := |relevant| as real;
      var c := CountRelevant(p, relevant) as real;
      assert c <= n;
      assert c / n <= 1.0;
    }
  }

  /** A relevant id retrieved twice is counted twice: recall can exceed 1. */
  lemma RecallCanExceedOne()
    ensures RecallAtK(["a", "a"], {"a"}, 2) == 2.0
  {
    assert Prefix(["a", "a"], 2) == ["a", "a"];
    assert CountRelevant(["a", "a"], {"a"}) == 2 by {
      assert ["a", "a"][1..] == ["a"];
      assert ["a"][1..] == [];
    }
    assert |{"a"}| == 1;
  }

  /** The index of the first relevant id, if any. */
  function FirstRelevant(s: seq<string>, relevant: set<string>): (r: Option<nat>)
    ensures r.None? <==> forall i :: 0 <= i < |s| ==> s[i] !in relevant
    ensures r.Some? ==> r.value < |s| && s[r.value] in relevant
                        && forall i :: 0 <= i < r.value ==> s[i] !in relevant
  {
    if s == [] then None
    else if s[0] in relevant then Some(0)
    else
      match FirstRelevant(s[1..], relevant)
      case None => None
      case Some(i) => Some(i + 1)
  }

  /** Reciprocal rank: 1 / (position of the first relevant id, counted from 1),
      0 when no retrieved id is relevant. */
  function MeanReciprocalRank(retrieved: seq<string>, relevant: set<string>): (r: real)
    ensures 0.0 <= r <= 1.0
    ensures r == 0.0 <==> forall i :: 0 <= i < |retrieved| ==> retrieved[i] !in relevant
    ensures r == 1.0 <==> retrieved != [] && retrieved[0] in relevant
  {
    match FirstRelevant(retrieved, relevant)
    case None => 0.0
    case Some(i) =>
      assert i > 0 ==> 1.0 / ((i + 1) as real) < 1.0;
      1.0 / ((i + 1) as real)
  }

  /** Ids after the first relevant one do not affect the reciprocal rank. */
  lemma MrrIgnoresTail(s: seq<string>, t: seq<string>, relevant: set<string>)
    requires exists i :: 0 <= i < |s| && s[i] in relevant
    ensures MeanReciprocalRank(s + t, relevant) == MeanReciprocalRank(s, relevant)
  {
    var f := FirstRelevant(s, relevant);
    var g := FirstRelevant(s + t, relevant);
    assert f.Some?;
    assert (s + t)[f.value] == s[f.value];
    assert g.Some? && g.value <= f.value;
    assert (s + t)[g.value] == s[g.value];
    assert g.value == f.value;
  }

  // ---------------------------------------------------------------------
  // Averages

  function Sum(xs: seq<real>): real
  {
    if xs == [] then 0.0 else xs[0] + Sum(xs[1..])
  }

  /** The arithmetic mean; None on an empty list, where the floating-point
      mean is NaN. */
  function Mean(xs: seq<real>): (m: Option<real>)
    ensures m.None? <==> xs == []
  {
    if xs == [] then None else Some(Sum(xs) / (|xs| as real))
  }

  lemma {:induction false} SumAtLeast(xs: seq<real>, lo: real)
    requires forall i :: 0 <= i < |xs| ==> lo <= xs[i]
    ensures (|xs| as real) * lo <= Sum(xs)
  {
    if xs != [] {
      SumAtLeast(xs[1..], lo);
      assert (|xs| as real) * lo == lo + (|xs[1..]| as real) * lo;
    }
  }

  lemma {:induction false} SumAtMost(xs: seq<real>, hi: real)
    requires forall i :: 0 <= i < |xs| ==> xs[i] <= hi
    ensures Sum(xs) <= (|xs| as real) * hi
  {
    if xs != [] {
      SumAtMost(xs[1..], hi);
      assert (|xs| as real) * hi == hi + (|xs[1..]| as real) * hi;
    }
  }

  /** The mean of values no smaller than lo is no smaller than lo. */
  lemma MeanAtLeast(xs: seq<real>, lo: real)
    requires xs != []
    requires forall i :: 0 <= i < |xs| ==> lo <= xs[i]
    ensures lo <= Mean(xs).value
  {
    SumAtLeast(xs, lo);
    var n := |xs| as real;
    assert Sum(xs) / n >= (n * lo) / n;
  }

  /** The mean of values within [lo, hi] lies within [lo, hi]. */
  lemma MeanWithin(xs: seq<real>, lo: real, hi: real)
    requires xs != []
    requires forall i :: 0 <= i < |xs| ==> lo <= xs[i] <= hi
    ensures lo <= Mean(xs).value <= hi
  {
    MeanAtLeast(xs, lo);
    SumAtMost(xs, hi);
    var n := |xs| as real;
    assert Sum(xs) / n <= (n * hi) / n;
  }

  // ---------------------------------------------------------------------
  // The evaluation loop

  /** One ground-truth test query. */
  datatype TestQuery = TestQuery(queryId: int, query: string, groundTruthImageIds: seq<string>)

  /** The per-query record of the evaluation. */
  datatype QueryMetrics = QueryMetrics(
    queryId: int,
    query: string,
    numRelevant: nat,
    numRetrieved: nat,
    precisionAt: map<int, real>,
    recallAt: map<int, real>,
    mrr: real)

  datatype Overall = Overall(
    avgPrecisionAt: map<int, Option<real>>,
    avgRecallAt: map<int, Option<real>>,
    avgMrr: Option<real>)

  datatype Summary = Summary(
    totalQueries: nat,
    queriesEvaluated: nat,
    averageRelevantPerQuery: Option<real>,
    averageRetrievedPerQuery: Option<real>)

  datatype Report = Report(overall: Overall, perQuery: seq<QueryMetrics>, summary: Summary)

  /** The cut-offs every query is scored at. */
  const KValues: seq<int> := [1, 3, 5, 10]

  /** No cut-off is listed twice. */
  predicate DistinctCutoffs(ks: seq<int>)
  {
    ks == [] || (ks[|ks| - 1] !in ks[..|ks| - 1] && DistinctCutoffs(ks[..|ks| - 1]))
  }

  datatype Metric = Precision | Recall

  function Score(metric: Metric, retrieved: seq<string>, relevant: set<string>, k: int): real
  {
    match metric
    case Precision => PrecisionAtK(retrieved, relevant, k)
    case Recall => RecallAtK(retrieved, relevant, k)
  }

  /** The dictionary `{k: score at k}` built by assigning the cut-offs `ks` in turn. */
  function ScoresAt(ks: seq<int>, metric: Metric, retrieved: seq<string>, relevant: set<string>): (m: map<int, real>)
    ensures forall k :: k in m <==> k in ks
    ensures forall k :: k in m ==> m[k] == Score(metric, retrieved, relevant, k)
  {
    if ks == [] then map[]
    else
      var k := ks[|ks| - 1];
      ScoresAt(ks[..|ks| - 1], metric, retrieved, relevant)[k := Score(metric, retrieved, relevant, k)]
  }

  /** `all[k].append(score at k)` for each cut-off of `ks` in turn. */
  function AppendScores(all: map<int, seq<real>>, ks: seq<int>, metric: Metric,
                        retrieved: seq<string>, relevant: set<string>): (m: map<int, seq<real>>)
    requires forall k :: k in ks ==> k in all
    ensures forall k :: k in m <==> k in all
  {
    if ks == [] then all
    else
      var k := ks[|ks| - 1];
      var prev := AppendScores(all, ks[..|ks| - 1], metric, retrieved, relevant);
      prev[k := prev[k] + [Score(metric, retrieved, relevant, k)]]
  }

  /** With distinct cut-offs, each list of `ks` gains exactly its own score and
      every other list is unchanged. */
  lemma {:induction false} AppendScoresValues(all: map<int, seq<real>>, ks: seq<int>, metric: Metric,
                                              retrieved: seq<string>, relevant: set<string>)
    requires DistinctCutoffs(ks)
    requires forall k :: k in ks ==> k in all
    ensures var m := AppendScores(all, ks, metric, retrieved, relevant);
            && (forall k :: k in ks ==> m[k] == all[k] + [Score(metric, retrieved, relevant, k)])
            && (forall k :: k in all && k !in ks ==> m[k] == all[k])
  {
    if ks != [] {
      var init := ks[..|ks| - 1];
      var last := ks[|ks| - 1];
      assert DistinctCutoffs(init);
      assert last !in init;
      AppendScoresValues(all, init, metric, retrieved, relevant);
      assert forall k :: k in ks && k != last ==> k in init;
    }
  }

  function RelevantSet(tq: TestQuery): set<string>
  {
    set x | x in tq.groundTruthImageIds
  }

  /** What was retrieved for a query; a query without results counts as an
      empty retrieval. */
  function RetrievedFor(tq: TestQuery, results: map<int, seq<string>>): seq<string>
  {
    if tq.queryId in results then results[tq.queryId] else []
  }

  function MetricsFor(tq: TestQuery, results: map<int, seq<string>>, ks: seq<int>): QueryMetrics
  {
    var retrieved := RetrievedFor(tq, results);
    var relevant := RelevantSet(tq);
    QueryMetrics(
      tq.queryId, tq.query, |relevant|, |retrieved|,
      ScoresAt(ks, Precision, retrieved, relevant),
      ScoresAt(ks, Recall, retrieved, relevant),
      MeanReciprocalRank(retrieved, relevant))
  }

  /** The per-query records, in the order of the test queries. */
  function PerQuery(gt: seq<TestQuery>, results: map<int, seq<string>>, ks: seq<int>): seq<QueryMetrics>
  {
    seq(|gt|, j requires 0 <= j < |gt| => MetricsFor(gt[j], results, ks))
  }

  /** The score at cut-off k of every query, in order. */
  function Series(gt: seq<TestQuery>, results: map<int, seq<string>>, metric: Metric, k: int): seq<real>
  {
    seq(|gt|, j requires 0 <= j < |gt| => Score(metric, RetrievedFor(gt[j], results), RelevantSet(gt[j]), k))
  }

  function MrrSeries(gt: seq<TestQuery>, results: map<int, seq<string>>): seq<real>
  {
    seq(|gt|, j requires 0 <= j < |gt| => MeanReciprocalRank(RetrievedFor(gt[j], results), RelevantSet(gt[j])))
  }

  /** The dictionary `{k: [score at k of each query]}` the per-query loop builds. */
  function SeriesMap(gt: seq<TestQuery>, results: map<int, seq<string>>, ks: seq<int>, metric: Metric)
    : (m: map<int, seq<real>>)
    ensures forall k :: k in m <==> k in ks
  {
    if gt == [] then map k | k in ks :: []
    else
      var last := gt[|gt| - 1];
      AppendScores(SeriesMap(gt[..|gt| - 1], results, ks, metric), ks, metric,
                   RetrievedFor(last, results), RelevantSet(last))
  }

  lemma SeriesMapSnoc(gt: seq<TestQuery>, results: map<int, seq<string>>, ks: seq<int>, metric: Metric, i: nat)
    requires i < |gt|
    ensures SeriesMap(gt[..i + 1], results, ks, metric)
            == AppendScores(SeriesMap(gt[..i], results, ks, metric), ks, metric,
                            RetrievedFor(gt[i], results), RelevantSet(gt[i]))
  {
    assert gt[..i + 1][..i] == gt[..i];
  }

  /** With distinct cut-offs, the list collected for cut-off k is the score at
      k of every query, in order. */
  lemma {:induction false} SeriesMapValues(gt: seq<TestQuery>, results: map<int, seq<string>>, ks: seq<int>,
                                           metric: Metric)
    requires DistinctCutoffs(ks)
    ensures forall k :: k in ks ==> SeriesMap(gt, results, ks, metric)[k] == Series(gt, results, metric, k)
  {
    if gt != [] {
      var n := |gt| - 1;
      var last := gt[n];
      SeriesMapValues(gt[..n], results, ks, metric);
      AppendScoresValues(SeriesMap(gt[..n], results, ks, metric), ks, metric,
                         RetrievedFor(last, results), RelevantSet(last));
      forall k | k in ks
        ensures Series(gt, results, metric, k) ==
                Series(gt[..n], results, metric, k) + [Score(metric, RetrievedFor(last, results), RelevantSet(last), k)]
      {
        SeriesSnoc(gt, results, metric, k);
      }
    }
  }

  lemma SeriesSnoc(gt: seq<TestQuery>, results: map<int, seq<string>>, metric: Metric, k: int)
    requires gt != []
    ensures Series(gt, results, metric, k) ==
            Series(gt[..|gt| - 1], results, metric, k)
            + [Score(metric, RetrievedFor(gt[|gt| - 1], results), RelevantSet(gt[|gt| - 1]), k)]
  {
  }

  /** The dictionary `{k: mean score at k}` over the cut-offs `ks`. */
  function AveragesAt(ks: seq<int>, gt: seq<TestQuery>, results: map<int, seq<string>>, metric: Metric)
    : (m: map<int, Option<real>>)
    ensures forall k :: k in m <==> k in ks
    ensures forall k :: k in m ==> m[k] == Mean(Series(gt, results, metric, k))
  {
    if ks == [] then map[]
    else
      var k := ks[|ks| - 1];
      AveragesAt(ks[..|ks| - 1], gt, results, metric)[k := Mean(Series(gt, results, metric, k))]
  }

  /** The retrieval counts of the queries that retrieved something, in order. */
  function RetrievedCounts(qs: seq<QueryMetrics>): (cs: seq<real>)
    ensures |cs| <= |qs|
    ensures forall i :: 0 <= i < |cs| ==> cs[i] >= 1.0
    ensures cs == [] <==> forall i :: 0 <= i < |qs| ==> qs[i].numRetrieved == 0
  {
    if qs == [] then []
    else
      var init := qs[..|qs| - 1];
      var last := qs[|qs| - 1];
      var rest := RetrievedCounts(init);
      assert forall i :: 0 <= i < |init| ==> qs[i] == init[i];
      if last.numRetrieved > 0 then rest + [last.numRetrieved as real] else rest
  }

  /** `idx` lists, in increasing order, exactly the positions of the queries
      that retrieved something. */
  predicate EvaluatedPositions(qs: seq<QueryMetrics>, idx: seq<nat>)
  {
    && (forall t :: 0 <= t < |idx| ==> idx[t] < |qs|)
    && (forall s, t :: 0 <= s < t < |idx| ==> idx[s] < idx[t])
    && (forall i :: 0 <= i < |qs| ==> (qs[i].numRetrieved > 0 <==> i in idx))
  }

  /** `cs` holds, entry by entry, the `numRetrieved` of the queries at `idx`. */
  predicate CountsAt(qs: seq<QueryMetrics>, idx: seq<nat>, cs: seq<real>)
  {
    && |idx| == |cs|
    && forall t :: 0 <= t < |idx| ==> idx[t] < |qs| && cs[t] == qs[idx[t]].numRetrieved as real
  }

  /** The positions of the queries that retrieved something, in order. */
  function CountedPositions(qs: seq<QueryMetrics>): seq<nat>
  {
    if qs == [] then []
    else
      var n := |qs| - 1;
      if qs[n].numRetrieved > 0 then CountedPositions(qs[..n]) + [n] else CountedPositions(qs[..n])
  }

  /** The retrieval counts are, in query order, the `numRetrieved` of exactly
      the queries that retrieved something, one entry per such query. */
  lemma {:induction false} RetrievedCountsContents(qs: seq<QueryMetrics>)
    ensures EvaluatedPositions(qs, CountedPositions(qs))
    ensures CountsAt(qs, CountedPositions(qs), RetrievedCounts(qs))
  {
    if qs != [] {
      var n := |qs| - 1;
      var init := qs[..n];
      RetrievedCountsContents(init);
      var idx, rest := CountedPositions(init), RetrievedCounts(init);
      PositionsSnoc(qs, idx);
      CountsSnoc(qs, idx, rest);
      if qs[n].numRetrieved > 0 {
        assert CountedPositions(qs) == idx + [n];
        assert RetrievedCounts(qs) == rest + [qs[n].numRetrieved as real];
      } else {
        assert CountedPositions(qs) == idx;
        assert RetrievedCounts(qs) == rest;
      }
    }
  }

  /** Extending the counts of all but the last query by the last one's count,
      when it retrieved something, gives counts for all queries. */
  lemma CountsSnoc(qs: seq<QueryMetrics>, idx: seq<nat>, rest: seq<real>)
    requires qs != [] && CountsAt(qs[..|qs| - 1], idx, rest)
    ensures var n := |qs| - 1;
            if qs[n].numRetrieved > 0 then CountsAt(qs, idx + [n], rest + [qs[n].numRetrieved as real])
            else CountsAt(qs, idx, rest)
  {
    var n := |qs| - 1;
    assert forall t :: 0 <= t < |idx| ==> qs[idx[t]] == qs[..n][idx[t]];
    if qs[n].numRetrieved > 0 {
      var idx' := idx + [n];
      var cs := rest + [qs[n].numRetrieved as real];
      forall t | 0 <= t < |idx'| ensures idx'[t] < |qs| && cs[t] == qs[idx'[t]].numRetrieved as real {
        if t < |idx| {
          assert idx'[t] == idx[t] && cs[t] == rest[t];
        }
      }
    }
  }

  /** The positions for all queries are those for all but the last, plus the
      last if it retrieved something. */
  lemma PositionsSnoc(qs: seq<QueryMetrics>, idx: seq<nat>)
    requires qs != [] && EvaluatedPositions(qs[..|qs| - 1], idx)
    ensures EvaluatedPositions(qs, if qs[|qs| - 1].numRetrieved > 0 then idx + [|qs| - 1] else idx)
  {
    var n := |qs| - 1;
    var idx': seq<nat> := if qs[n].numRetrieved > 0 then idx + [n] else idx;
    assert forall t :: 0 <= t < |idx| ==> idx'[t] == idx[t];
    assert forall i :: 0 <= i < n ==> qs[i] == qs[..n][i];
    forall i | 0 <= i < |qs| ensures qs[i].numRetrieved > 0 <==> i in idx' {
      if i < n {
        assert qs[i] == qs[..n][i];
        if qs[n].numRetrieved > 0 {
          assert idx' == idx + [n];
          assert i in idx' <==> i in idx || i == n;
        }
      } else {
        assert n !in idx;
      }
    }
  }

  function RelevantCounts(qs: seq<QueryMetrics>): seq<real>
  {
    seq(|qs|, j requires 0 <= j < |qs| => qs[j].numRelevant as real)
  }

  /** The report `evaluate_system` returns when scoring at the cut-offs `ks`. */
  function EvaluationReport(gt: seq<TestQuery>, results: map<int, seq<string>>, ks: seq<int>): Report
  {
    var perQuery := PerQuery(gt, results, ks);
    Report(
      Overall(
        AveragesAt(ks, gt, results, Precision),
        AveragesAt(ks, gt, results, Recall),
        Mean(MrrSeries(gt, results))),
      perQuery,
      Summary(|gt|, |RetrievedCounts(perQuery)|, Mean(RelevantCounts(perQuery)), Mean(RetrievedCounts(perQuery))))
  }

  lemma MrrSeriesSnoc(gt: seq<TestQuery>, results: map<int, seq<string>>, i: nat)
    requires i < |gt|
    ensures MrrSeries(gt[..i + 1], results) ==
              MrrSeries(gt[..i], results) + [MeanReciprocalRank(RetrievedFor(gt[i], results), RelevantSet(gt[i]))]
  {
  }

  lemma PerQuerySnoc(gt: seq<TestQuery>, results: map<int, seq<string>>, ks: seq<int>, i: nat)
    requires i < |gt|
    ensures PerQuery(gt[..i + 1], results, ks) == PerQuery(gt[..i], results, ks) + [MetricsFor(gt[i], results, ks)]
  {
  }

  lemma ScoresAtSnoc(ks: seq<int>, t: nat, metric: Metric, retrieved: seq<string>, relevant: set<string>)
    requires t < |ks|
    ensures ScoresAt(ks[..t + 1], metric, retrieved, relevant)
            == ScoresAt(ks[..t], metric, retrieved, relevant)[ks[t] := Score(metric, retrieved, relevant, ks[t])]
  {
    assert ks[..t + 1][..t] == ks[..t];
  }

  lemma AppendScoresSnoc(all: map<int, seq<real>>, ks: seq<int>, t: nat, metric: Metric,
                         retrieved: seq<string>, relevant: set<string>)
    requires t < |ks|
    requires forall k :: k in ks ==> k in all
    ensures var prev := AppendScores(all, ks[..t], metric, retrieved, relevant);
            AppendScores(all, ks[..t + 1], metric, retrieved, relevant)
            == prev[ks[t] := prev[ks[t]] + [Score(metric, retrieved, relevant, ks[t])]]
  {
    assert ks[..t + 1][..t] == ks[..t];
  }

  lemma AveragesAtSnoc(ks: seq<int>, t: nat, gt: seq<TestQuery>, results: map<int, seq<string>>, metric: Metric)
    requires t < |ks|
    ensures AveragesAt(ks[..t + 1], gt, results, metric)
            == AveragesAt(ks[..t], gt, results, metric)[ks[t] := Mean(Series(gt, results, metric, ks[t]))]
  {
    assert ks[..t + 1][..t] == ks[..t];
  }

  /** One step of the averaging loop, given the score list of cut-off `ks[t]`. */
  lemma AveragesStep(ks: seq<int>, t: nat, gt: seq<TestQuery>, results: map<int, seq<string>>, metric: Metric,
                     scores: seq<real>, avg: map<int, Option<real>>)
    requires t < |ks| && scores == Series(gt, results, metric, ks[t])
    requires avg == AveragesAt(ks[..t], gt, results, metric)
    ensures avg[ks[t] := Mean(scores)] == AveragesAt(ks[..t + 1], gt, results, metric)
  {
    AveragesAtSnoc(ks, t, gt, results, metric);
  }

  /** The body of the per-query loop: scores one test query at each cut-off
      of `ks` and by reciprocal rank, appending each cut-off's score to its
      list. */
  method ScoreQuery(queryData: TestQuery, results: map<int, seq<string>>, ks: seq<int>,
                    allPrecision: map<int, seq<real>>, allRecall: map<int, seq<real>>)
    returns (metrics: QueryMetrics, allPrecision': map<int, seq<real>>, allRecall': map<int, seq<real>>)
    requires forall k :: k in ks ==> k in allPrecision && k in allRecall
    ensures metrics == MetricsFor(queryData, results, ks)
    ensures allPrecision' == AppendScores(allPrecision, ks, Precision,
                                          RetrievedFor(queryData, results), RelevantSet(queryData))
    ensures allRecall' == AppendScores(allRecall, ks, Recall,
                                       RetrievedFor(queryData, results), RelevantSet(queryData))
  {
    var relevantIds := RelevantSet(queryData);
    var retrievedIds := RetrievedFor(queryData, results);
    var precisionAt: map<int, real> := map[];
    var recallAt: map<int, real> := map[];
    allPrecision', allRecall' := allPrecision, allRecall;
    var t := 0;
    while t < |ks|
      invariant 0 <= t <= |ks|
      invariant precisionAt == ScoresAt(ks[..t], Precision, retrievedIds, relevantIds)
      invariant recallAt == ScoresAt(ks[..t], Recall, retrievedIds, relevantIds)
      invariant allPrecision' == AppendScores(allPrecision, ks[..t], Precision, retrievedIds, relevantIds)
      invariant allRecall' == AppendScores(allRecall, ks[..t], Recall, retrievedIds, relevantIds)
    {
      var k := ks[t];
      ScoresAtSnoc(ks, t, Precision, retrievedIds, relevantIds);
      ScoresAtSnoc(ks, t, Recall, retrievedIds, relevantIds);
      AppendScoresSnoc(allPrecision, ks, t, Precision, retrievedIds, relevantIds);
      AppendScoresSnoc(allRecall, ks, t, Recall, retrievedIds, relevantIds);
      var precision := PrecisionAtK(retrievedIds, relevantIds, k);
      var recall := RecallAtK(retrievedIds, relevantIds, k);
      precisionAt := precisionAt[k := precision];
      recallAt := recallAt[k := recall];
      allPrecision' := allPrecision'[k := allPrecision'[k] + [precision]];
      allRecall' := allRecall'[k := allRecall'[k] + [recall]];
      t := t + 1;
    }
    assert ks[..t] == ks;
    var mrr := MeanReciprocalRank(retrievedIds, relevantIds);
    metrics := QueryMetrics(queryData.queryId, queryData.query,
                            |relevantIds|, |retrievedIds|, precisionAt, recallAt, mrr);
  }

  /** `all` holds, for every cut-off of `ks`, the scores of every query at it. */
  predicate HoldsSeries(ks: seq<int>, gt: seq<TestQuery>, results: map<int, seq<string>>, metric: Metric,
                        all: map<int, seq<real>>)
  {
    forall k :: k in ks ==> k in all && all[k] == Series(gt, results, metric, k)
  }

  /** One turn of the averaging loop, for precision and recall together. */
  lemma CutoffStep(ks: seq<int>, t: nat, gt: seq<TestQuery>, results: map<int, seq<string>>,
                   allPrecision: map<int, seq<real>>, allRecall: map<int, seq<real>>,
                   avgPrecisionAt: map<int, Option<real>>, avgRecallAt: map<int, Option<real>>)
    requires t < |ks|
    requires HoldsSeries(ks, gt, results, Precision, allPrecision)
    requires HoldsSeries(ks, gt, results, Recall, allRecall)
    requires avgPrecisionAt == AveragesAt(ks[..t], gt, results, Precision)
    requires avgRecallAt == AveragesAt(ks[..t], gt, results, Recall)
    ensures ks[t] in allPrecision && ks[t] in allRecall
    ensures avgPrecisionAt[ks[t] := Mean(allPrecision[ks[t]])] == AveragesAt(ks[..t + 1], gt, results, Precision)
    ensures avgRecallAt[ks[t] := Mean(allRecall[ks[t]])] == AveragesAt(ks[..t + 1], gt, results, Recall)
  {
    var k := ks[t];
    assert k in ks;
    AveragesStep(ks, t, gt, results, Precision, allPrecision[k], avgPrecisionAt);
    AveragesStep(ks, t, gt, results, Recall, allRecall[k], avgRecallAt);
  }

  /** The averaging loop of the evaluation: the mean of each cut-off's list. */
  method AverageCutoffs(ks: seq<int>, gt: seq<TestQuery>, results: map<int, seq<string>>,
                        allPrecision: map<int, seq<real>>, allRecall: map<int, seq<real>>)
    returns (avgPrecisionAt: map<int, Option<real>>, avgRecallAt: map<int, Option<real>>)
    requires HoldsSeries(ks, gt, results, Precision, allPrecision)
    requires HoldsSeries(ks, gt, results, Recall, allRecall)
    ensures avgPrecisionAt == AveragesAt(ks, gt, results, Precision)
    ensures avgRecallAt == AveragesAt(ks, gt, results, Recall)
  {
    avgPrecisionAt, avgRecallAt := map[], map[];
    assert ks[..0] == [];
    var t := 0;
    while t < |ks|
      invariant 0 <= t <= |ks|
      invariant avgPrecisionAt == AveragesAt(ks[..t], gt, results, Precision)
      invariant avgRecallAt == AveragesAt(ks[..t], gt, results, Recall)
    {
      var k := ks[t];
      CutoffStep(ks, t, gt, results, allPrecision, allRecall, avgPrecisionAt, avgRecallAt);
      avgPrecisionAt := avgPrecisionAt[k := Mean(allPrecision[k])];
      avgRecallAt := avgRecallAt[k := Mean(allRecall[k])];
      t := t + 1;
    }
    assert ks[..t] == ks;
  }

  // ---------------------------------------------------------------------
  // Properties of the report, for any list of cut-offs `ks`
  // (`EvaluateSystem` uses `KValues`)

  /** The cut-offs are exactly 1, 3, 5 and 10. */
  lemma KValuesMembers()
    ensures forall k :: k in KValues <==> k in {1, 3, 5, 10}
    ensures forall k :: k in KValues ==> k >= 1
  {
  }

  /** A query the system returned nothing for is scored as an empty
      retrieval: every score of it is 0. */
  lemma MissingQueryScoredEmpty(tq: TestQuery, results: map<int, seq<string>>, ks: seq<int>)
    requires tq.queryId !in results
    ensures var m := MetricsFor(tq, results, ks);
            && m.numRetrieved == 0
            && (forall k :: k in m.precisionAt ==> m.precisionAt[k] == 0.0)
            && (forall k :: k in m.recallAt ==> m.recallAt[k] == 0.0)
            && m.mrr == 0.0
  {
    var m := MetricsFor(tq, results, ks);
    assert RetrievedFor(tq, results) == [];
    forall k | k in m.recallAt
      ensures m.recallAt[k] == 0.0
    {
      assert Prefix([], k) == [];
    }
  }

  /** Every query is reported, in order, scored at exactly the cut-offs; the
      averages cover the same cut-offs; the number of evaluated queries is at
      most the number of queries, and 0 exactly when nothing was retrieved
      for any query. */
  lemma ReportShape(gt: seq<TestQuery>, results: map<int, seq<string>>, ks: seq<int>)
    ensures var r := EvaluationReport(gt, results, ks);
            && |r.perQuery| == |gt| == r.summary.totalQueries
            && (forall j :: 0 <= j < |gt| ==>
                  && r.perQuery[j] == MetricsFor(gt[j], results, ks)
                  && r.perQuery[j].queryId == gt[j].queryId
                  && r.perQuery[j].query == gt[j].query
                  && r.perQuery[j].numRelevant == |RelevantSet(gt[j])|
                  && r.perQuery[j].numRetrieved == |RetrievedFor(gt[j], results)|)
            && (forall j, k :: 0 <= j < |gt| ==> (k in r.perQuery[j].precisionAt <==> k in ks))
            && (forall j, k :: 0 <= j < |gt| ==> (k in r.perQuery[j].recallAt <==> k in ks))
            && (forall k :: k in r.overall.avgPrecisionAt <==> k in ks)
            && (forall k :: k in r.overall.avgRecallAt <==> k in ks)
            && r.summary.queriesEvaluated <= r.summary.totalQueries
            && (r.summary.queriesEvaluated == 0 <==>
                  forall j :: 0 <= j < |gt| ==> RetrievedFor(gt[j], results) == [])
  {
    var r := EvaluationReport(gt, results, ks);
    assert forall j :: 0 <= j < |gt| ==> r.perQuery[j] == MetricsFor(gt[j], results, ks);
  }

  /** Each average exists exactly when there was at least one test query;
      with positive cut-offs the mean precision at every cut-off and the mean
      reciprocal rank lie in [0, 1], and the mean recall is non-negative. */
  lemma AveragesBounded(gt: seq<TestQuery>, results: map<int, seq<string>>, ks: seq<int>)
    requires forall k :: k in ks ==> k >= 1
    ensures var o := EvaluationReport(gt, results, ks).overall;
            && (o.avgMrr.Some? <==> gt != [])
            && (o.avgMrr.Some? ==> 0.0 <= o.avgMrr.value <= 1.0)
            && (forall k :: k in o.avgPrecisionAt ==> (o.avgPrecisionAt[k].Some? <==> gt != []))
            && (forall k :: k in o.avgPrecisionAt && o.avgPrecisionAt[k].Some? ==>
                  0.0 <= o.avgPrecisionAt[k].value <= 1.0)
            && (forall k :: k in o.avgRecallAt ==> (o.avgRecallAt[k].Some? <==> gt != []))
            && (forall k :: k in o.avgRecallAt && o.avgRecallAt[k].Some? ==> 0.0 <= o.avgRecallAt[k].value)
  {
    OverallBounded(EvaluationReport(gt, results, ks).overall, gt, results, ks);
  }

  lemma OverallBounded(o: Overall, gt: seq<TestQuery>, results: map<int, seq<string>>, ks: seq<int>)
    requires forall k :: k in ks ==> k >= 1
    requires o == Overall(AveragesAt(ks, gt, results, Precision), AveragesAt(ks, gt, results, Recall),
                          Mean(MrrSeries(gt, results)))
    ensures && (o.avgMrr.Some? <==> gt != [])
            && (o.avgMrr.Some? ==> 0.0 <= o.avgMrr.value <= 1.0)
            && (forall k :: k in o.avgPrecisionAt ==> (o.avgPrecisionAt[k].Some? <==> gt != []))
            && (forall k :: k in o.avgPrecisionAt && o.avgPrecisionAt[k].Some? ==>
                  0.0 <= o.avgPrecisionAt[k].value <= 1.0)
            && (forall k :: k in o.avgRecallAt ==> (o.avgRecallAt[k].Some? <==> gt != []))
            && (forall k :: k in o.avgRecallAt && o.avgRecallAt[k].Some? ==> 0.0 <= o.avgRecallAt[k].value)
  {
    AverageMrrBounded(gt, results);
    AveragePrecisionBounded(gt, results, ks);
    AverageRecallNonNegative(gt, results, ks);
  }

  lemma AverageMrrBounded(gt: seq<TestQuery>, results: map<int, seq<string>>)
    ensures var m := Mean(MrrSeries(gt, results));
            && (m.Some? <==> gt != [])
            && (m.Some? ==> 0.0 <= m.value <= 1.0)
  {
    if gt != [] {
      MeanWithin(MrrSeries(gt, results), 0.0, 1.0);
    }
  }

  lemma AveragePrecisionBounded(gt: seq<TestQuery>, results: map<int, seq<string>>, ks: seq<int>)
    requires forall k :: k in ks ==> k >= 1
    ensures var avg := AveragesAt(ks, gt, results, Precision);
            forall k :: k in avg ==> (avg[k].Some? <==> gt != []) && (avg[k].Some? ==> 0.0 <= avg[k].value <= 1.0)
  {
    var avg := AveragesAt(ks, gt, results, Precision);
    forall k | k in avg
      ensures (avg[k].Some? <==> gt != []) && (avg[k].Some? ==> 0.0 <= avg[k].value <= 1.0)
    {
      if gt != [] {
        MeanWithin(Series(gt, results, Precision, k), 0.0, 1.0);
      }
    }
  }

  lemma AverageRecallNonNegative(gt: seq<TestQuery>, results: map<int, seq<string>>, ks: seq<int>)
    ensures var avg := AveragesAt(ks, gt, results, Recall);
            forall k :: k in avg ==> (avg[k].Some? <==> gt != []) && (avg[k].Some? ==> 0.0 <= avg[k].value)
  {
    var avg := AveragesAt(ks, gt, results, Recall);
    forall k | k in avg
      ensures (avg[k].Some? <==> gt != []) && (avg[k].Some? ==> 0.0 <= avg[k].value)
    {
      if gt != [] {
        MeanAtLeast(Series(gt, results, Recall, k), 0.0);
      }
    }
  }

  /** When no result list repeats an id, the mean recall is at most 1 too. */
  lemma AverageRecallAtMostOne(gt: seq<TestQuery>, results: map<int, seq<string>>, ks: seq<int>)
    requires forall q :: q in results ==> NoDuplicates(results[q])
    ensures var o := EvaluationReport(gt, results, ks).overall;
            forall k :: k in o.avgRecallAt && o.avgRecallAt[k].Some? ==> o.avgRecallAt[k].value <= 1.0
  {
    var o := EvaluationReport(gt, results, ks).overall;
    forall k | k in o.avgRecallAt && o.avgRecallAt[k].Some?
      ensures o.avgRecallAt[k].value <= 1.0
    {
      var xs := Series(gt, results, Recall, k);
      forall j | 0 <= j < |xs|
        ensures 0.0 <= xs[j] <= 1.0
      {
        assert NoDuplicates(RetrievedFor(gt[j], results));
        RecallAtMostOne(RetrievedFor(gt[j], results), RelevantSet(gt[j]), k);
      }
      MeanWithin(xs, 0.0, 1.0);
    }
  }

  /** The mean number retrieved is taken over the evaluated queries only, so
      it is at least 1 whenever it exists. */
  lemma AverageRetrievedAtLeastOne(gt: seq<TestQuery>, results: map<int, seq<string>>, ks: seq<int>)
    ensures var s := EvaluationReport(gt, results, ks).summary;
            && (s.averageRetrievedPerQuery.Some? <==> s.queriesEvaluated > 0)
            && (s.averageRetrievedPerQuery.Some? ==> s.averageRetrievedPerQuery.value >= 1.0)
  {
    var qs := EvaluationReport(gt, results, ks).perQuery;
    if RetrievedCounts(qs) != [] {
      MeanAtLeast(RetrievedCounts(qs), 1.0);
    }
  }

  /** The per-query loop of the evaluation: scores every test query at each
      cut-off of `ks` and by reciprocal rank, collecting each metric's values
      across queries and each query's record. */
  method ScoreQueries(groundTruth: seq<TestQuery>, results: map<int, seq<string>>, ks: seq<int>)
    returns (allPrecision: map<int, seq<real>>, allRecall: map<int, seq<real>>,
             allMrr: seq<real>, queryResults: seq<QueryMetrics>)
    requires DistinctCutoffs(ks)
    ensures forall k :: k in ks ==> k in allPrecision && allPrecision[k] == Series(groundTruth, results, Precision, k)
    ensures forall k :: k in ks ==> k in allRecall && allRecall[k] == Series(groundTruth, results, Recall, k)
    ensures allMrr == MrrSeries(groundTruth, results)
    ensures queryResults == PerQuery(groundTruth, results, ks)
  {
    allPrecision := map k | k in ks :: [];
    allRecall := map k | k in ks :: [];
    allMrr := [];
    queryResults := [];
    var i := 0;
    while i < |groundTruth|
      invariant 0 <= i <= |groundTruth|
      invariant queryResults == PerQuery(groundTruth[..i], results, ks)
      invariant allMrr == MrrSeries(groundTruth[..i], results)
      invariant allPrecision == SeriesMap(groundTruth[..i], results, ks, Precision)
      invariant allRecall == SeriesMap(groundTruth[..i], results, ks, Recall)
    {
      var metrics;
      metrics, allPrecision, allRecall := ScoreQuery(groundTruth[i], results, ks, allPrecision, allRecall);
      SeriesMapSnoc(groundTruth, results, ks, Precision, i);
      SeriesMapSnoc(groundTruth, results, ks, Recall, i);
      MrrSeriesSnoc(groundTruth, results, i);
      PerQuerySnoc(groundTruth, results, ks, i);
      allMrr := allMrr + [metrics.mrr];
      queryResults := queryResults + [metrics];
      i := i + 1;
    }
    assert groundTruth[..i] == groundTruth;
    SeriesMapValues(groundTruth, results, ks, Precision);
    SeriesMapValues(groundTruth, results, ks, Recall);
  }

  lemma KValuesDistinct()
    ensures DistinctCutoffs(KValues)
  {
    assert KValues[..3] == [1, 3, 5];
    assert [1, 3, 5][..2] == [1, 3];
    assert [1, 3][..1] == [1];
    assert [1][..0] == [];
  }

  /** Scores every test query at the cut-offs 1, 3, 5 and 10 and by reciprocal
      rank, then averages each metric over the queries and summarises. */
  method EvaluateSystem(groundTruth: seq<TestQuery>, results: map<int, seq<string>>) returns (report: Report)
    ensures report == EvaluationReport(groundTruth, results, KValues)
  {
    var kValues := KValues;
    KValuesDistinct();
    var allPrecision, allRecall, allMrr, queryResults := ScoreQueries(groundTruth, results, kValues);
    var avgPrecisionAt, avgRecallAt := AverageCutoffs(kValues, groundTruth, results, allPrecision, allRecall);
    var overall := Overall(avgPrecisionAt, avgRecallAt, Mean(allMrr));
    var summary := Summary(
      |groundTruth|,
      |RetrievedCounts(queryResults)|,
      Mean(RelevantCounts(queryResults)),
      Mean(RetrievedCounts(queryResults)));
    report := Report(overall, queryResults, summary);
  }
}
