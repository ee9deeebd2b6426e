/** The in-memory vector store: an append-only list of elements, lookup of the
    first element with a given id, and top-k ranking by similarity score. */
module Store {
  import opened Typedefs
  import Py

  /** No index occurs twice in `idx`. */
  predicate Distinct(idx: seq<nat>)
  {
    forall i, j :: 0 <= i < j < |idx| ==> idx[i] != idx[j]
  }

  predicate InRange(idx: seq<nat>, n: nat)
  {
    forall i :: 0 <= i < |idx| ==> idx[i] < n
  }

  /** The indices in `order` are listed by non-decreasing score. */
  predicate SortedBy(scores: seq<real>, order: seq<nat>)
    requires InRange(order, |scores|)
  {
    forall i, j :: 0 <= i < j < |order| ==> scores[order[i]] <= scores[order[j]]
  }

  /** `order` is what an argsort of `scores` may return: every index of
      `scores` exactly once, by non-decreasing score. Equal scores may come
      in any order, as the unstable default sort of an argsort allows. */
  predicate IsArgsort(scores: seq<real>, order: seq<nat>)
  {
    && |order| == |scores|
    && InRange(order, |scores|)
    && Distinct(order)
    && (forall j :: 0 <= j < |scores| ==> j in order)
    && SortedBy(scores, order)
  }

  /** Inserts index `x` into `o` after every index whose score is at most
      that of `x`. */
  function InsertByScore(scores: seq<real>, o: seq<nat>, x: nat): (r: seq<nat>)
    requires x < |scores| && InRange(o, |scores|)
    ensures |r| == |o| + 1
    ensures InRange(r, |scores|)
    ensures forall y :: y in r <==> y in o || y == x
  {
    if o == [] then [x]
    else if scores[o[0]] > scores[x] then [x] + o
    else
      var rest := InsertByScore(scores, o[1..], x);
      assert forall j :: 0 <= j < |rest| ==> rest[j] in rest;
      [o[0]] + rest
  }

  /** Insertion of a new index keeps the indices distinct. */
  lemma {:induction false} InsertByScoreDistinct(scores: seq<real>, o: seq<nat>, x: nat)
    requires x < |scores| && InRange(o, |scores|)
    requires Distinct(o) && x !in o
    ensures Distinct(InsertByScore(scores, o, x))
  {
    if o != [] && scores[o[0]] <= scores[x] {
      var tail := o[1..];
      var rest := InsertByScore(scores, tail, x);
      InsertByScoreDistinct(scores, tail, x);
      var r := [o[0]] + rest;
      forall i, j | 0 <= i < j < |r| ensures r[i] != r[j] {
        if i == 0 {
          assert r[j] == rest[j - 1] && rest[j - 1] in rest;
          if r[j] != x {
            var p :| 0 <= p < |tail| && tail[p] == r[j];
            assert o[p + 1] == r[j];
          }
        } else {
          assert r[i] == rest[i - 1] && r[j] == rest[j - 1];
        }
      }
    }
  }

  /** Insertion keeps the indices sorted by score. */
  lemma {:induction false} InsertByScoreSorted(scores: seq<real>, o: seq<nat>, x: nat)
    requires x < |scores| && InRange(o, |scores|)
    requires SortedBy(scores, o)
    ensures SortedBy(scores, InsertByScore(scores, o, x))
  {
    if o != [] && scores[o[0]] <= scores[x] {
      var tail := o[1..];
      var rest := InsertByScore(scores, tail, x);
      InsertByScoreSorted(scores, tail, x);
      var r := [o[0]] + rest;
      forall i, j | 0 <= i < j < |r| ensures scores[r[i]] <= scores[r[j]] {
        if i == 0 {
          assert r[j] == rest[j - 1] && rest[j - 1] in rest;
          if r[j] != x {
            var p :| 0 <= p < |tail| && tail[p] == r[j];
            assert o[p + 1] == r[j];
          }
        } else {
          assert r[i] == rest[i - 1] && r[j] == rest[j - 1];
        }
      }
    }
  }

  /** An argsort of the first `m` scores, built by insertion. */
  function ArgsortPrefix(scores: seq<real>, m: nat): (r: seq<nat>)
    requires m <= |scores|
    ensures |r| == m
    ensures InRange(r, |scores|)
    ensures forall y: nat :: y in r <==> y < m
    ensures Distinct(r)
    ensures SortedBy(scores, r)
  {
    if m == 0 then []
    else
      InsertByScoreDistinct(scores, ArgsortPrefix(scores, m - 1), m - 1);
      InsertByScoreSorted(scores, ArgsortPrefix(scores, m - 1), m - 1);
      InsertByScore(scores, ArgsortPrefix(scores, m - 1), m - 1)
  }

  /** `scores.argsort()`: one order that sorts the scores. Its tie order (by
      insertion) is one admissible choice; the ranking facts below hold for
      every order satisfying IsArgsort. */
  function Argsort(scores: seq<real>): (r: seq<nat>)
    ensures IsArgsort(scores, r)
  {
    ArgsortPrefix(scores, |scores|)
  }

  /** How many elements `argsort()[-k:][::-1]` keeps out of `n`: for k >= 1 at
      most k, for k == 0 all of them (`[-0:]` is the whole array), and for a
      negative k all but the |k| lowest-scoring ones. */
  function ResultCount(k: int, n: nat): (c: nat)
    ensures c <= n
  {
    if k == 0 then n
    else if k > 0 then (if k < n then k else n)
    else if n + k > 0 then n + k else 0
  }

  /** `order[-k:][::-1]`. */
  function TopOfOrder(order: seq<nat>, k: int): (r: seq<nat>)
  {
    Py.Reverse(order[Py.SliceIndex(-k, |order|)..])
  }

  /** What the source's top-k selection guarantees about the indices `r` it
      returns for `scores` and `k`. */
  predicate IsTopK(scores: seq<real>, k: int, r: seq<nat>)
  {
    // as many as the slice keeps
    && |r| == ResultCount(k, |scores|)
    // each a valid index, none twice
    && InRange(r, |scores|)
    && Distinct(r)
    // highest score first
    && (forall i, j :: 0 <= i < j < |r| ==> scores[r[i]] >= scores[r[j]])
    // nothing left out scores higher than anything returned
    && (forall i, j :: 0 <= i < |r| && 0 <= j < |scores| && j !in r ==> scores[r[i]] >= scores[j])
    // k == 0 and k >= n keep every index
    && ((k == 0 || k >= |scores|) ==> forall j :: 0 <= j < |scores| ==> j in r)
  }

  /** For any argsort of the scores, whatever its tie order, the slice
      `[-k:][::-1]` is a top-k selection. */
  lemma TopOfOrderIsTopK(scores: seq<real>, order: seq<nat>, k: int)
    requires IsArgsort(scores, order)
    ensures IsTopK(scores, k, TopOfOrder(order, k))
  {
    var n := |scores|;
    var s := Py.SliceIndex(-k, n);
    ReversedSuffixRanked(scores, order, s);
    ReversedSuffixDominates(scores, order, s);
    if k == 0 || k >= n {
      assert s == 0;
      assert order[s..] == order;
      Py.ReverseSameElements(order);
    }
  }

  /** The reversed tail `order[s..]` of an argsort lists distinct valid
      indices, highest score first. */
  lemma ReversedSuffixRanked(scores: seq<real>, order: seq<nat>, s: nat)
    requires IsArgsort(scores, order) && s <= |order|
    ensures var r := Py.Reverse(order[s..]);
            && InRange(r, |scores|)
            && Distinct(r)
            && forall i, j :: 0 <= i < j < |r| ==> scores[r[i]] >= scores[r[j]]
  {
    var suffix := order[s..];
    var r := Py.Reverse(suffix);
    var m := |suffix|;
    assert forall i :: 0 <= i < m ==> r[i] == order[s + m - 1 - i];
    forall i, j | 0 <= i < j < m
      ensures r[i] != r[j] && scores[r[i]] >= scores[r[j]]
    {
      assert r[i] == order[s + m - 1 - i] && r[j] == order[s + m - 1 - j];
    }
  }

  /** No index left out of the tail `order[s..]` of an argsort scores higher
      than one in it. */
  lemma ReversedSuffixDominates(scores: seq<real>, order: seq<nat>, s: nat)
    requires IsArgsort(scores, order) && s <= |order|
    ensures var r := Py.Reverse(order[s..]);
            forall i, j :: 0 <= i < |r| && 0 <= j < |scores| && j !in r ==> scores[r[i]] >= scores[j]
  {
    var n := |scores|;
    var suffix := order[s..];
    var r := Py.Reverse(suffix);
    var m := |suffix|;
    Py.ReverseSameElements(suffix);
    forall i, j | 0 <= i < m && 0 <= j < n && j !in r
      ensures scores[r[i]] >= scores[j]
    {
      assert j in order;
      var p :| 0 <= p < n && order[p] == j;
      assert forall t :: s <= t < n ==> order[t] == suffix[t - s];
      assert p < s;
      assert r[i] == order[s + m - 1 - i];
    }
  }

  /** The top-k indices of the source, argsort then slice. */
  function TopK(scores: seq<real>, k: int): (r: seq<nat>)
    ensures IsTopK(scores, k, r)
  {
    TopOfOrderIsTopK(scores, Argsort(scores), k);
    TopOfOrder(Argsort(scores), k)
  }

  /** `[es[i] for i in idx]`. */
  function Pick<T>(es: seq<T>, idx: seq<nat>): (r: seq<T>)
    requires InRange(idx, |es|)
    ensures |r| == |idx|
    ensures forall i :: 0 <= i < |idx| ==> r[i] == es[idx[i]]
  {
    seq(|idx|, i requires 0 <= i < |idx| => es[idx[i]])
  }

  lemma PickConcat<T>(es: seq<T>, a: seq<nat>, b: seq<nat>)
    requires InRange(a, |es|) && InRange(b, |es|)
    ensures InRange(a + b, |es|)
    ensures Pick(es, a + b) == Pick(es, a) + Pick(es, b)
  {
    assert InRange(a + b, |es|) by {
      forall i | 0 <= i < |a + b| ensures (a + b)[i] < |es| {
        if i >= |a| { assert (a + b)[i] == b[i - |a|]; }
      }
    }
  }

  /** Indices below |init| pick the same entries from `init` and from any extension of it. */
  lemma PickPrefix<T>(init: seq<T>, es: seq<T>, idx: seq<nat>)
    requires init <= es && InRange(idx, |init|)
    ensures InRange(idx, |es|) && Pick(es, idx) == Pick(init, idx)
  {
  }

  /** Picking distinct indices never takes an entry more often than it occurs. */
  lemma {:induction false} PickSubMultiset<T>(es: seq<T>, idx: seq<nat>)
    requires InRange(idx, |es|) && Distinct(idx)
    ensures multiset(Pick(es, idx)) <= multiset(es)
    decreases |es|
  {
    if idx == [] {
      assert Pick(es, idx) == [];
    } else {
      assert idx[0] < |es|;
      var n := |es| - 1;
      var init := es[..n];
      assert es == init + [es[n]];
      if p :| 0 <= p < |idx| && idx[p] == n {
        var a, b := idx[..p], idx[p + 1..];
        DropOne(idx, p);
        PickSubMultiset(init, a + b);
        PickSplit(es, idx, p);
            } else {
        assert InRange(idx, n) by {
          forall i | 0 <= i < |idx| ensures idx[i] < n {
            assert idx[i] != n;
          }
        }
        PickPrefix(init, es, idx);
        PickSubMultiset(init, idx);
      }
    }
  }

  /** Picking with the last index of `es` at position `p` of `idx` picks the
      last entry once more than picking from the rest of `es` with the rest of `idx`. */
  lemma PickSplit<T>(es: seq<T>, idx: seq<nat>, p: nat)
    requires es != [] && p < |idx| && idx[p] == |es| - 1
    requires InRange(idx[..p], |es| - 1) && InRange(idx[p + 1..], |es| - 1)
    ensures InRange(idx, |es|) && InRange(idx[..p] + idx[p + 1..], |es| - 1)
    ensures multiset(Pick(es, idx)) ==
            multiset(Pick(es[..|es| - 1], idx[..p] + idx[p + 1..])) + multiset{es[|es| - 1]}
  {
    var n := |es| - 1;
    var init := es[..n];
    var a, b := idx[..p], idx[p + 1..];
    assert idx == a + [n] + b;
    PickPrefix(init, es, a);
    PickPrefix(init, es, b);
    assert InRange([n], |es|);
    PickConcat(es, a, [n]);
    PickConcat(es, a + [n], b);
    PickConcat(init, a, b);
    assert Pick(es, idx) == Pick(init, a) + [es[n]] + Pick(init, b);
  }

  /** Removing the distinct index `idx[p]`, which is the largest (`|es| - 1`),
      leaves distinct indices below it. */
  lemma DropOne(idx: seq<nat>, p: nat)
    requires Distinct(idx) && p < |idx| && InRange(idx, idx[p] + 1)
    ensures Distinct(idx[..p] + idx[p + 1..])
    ensures InRange(idx[..p], idx[p]) && InRange(idx[p + 1..], idx[p])
  {
    var rest := idx[..p] + idx[p + 1..];
    forall i, j | 0 <= i < j < |rest| ensures rest[i] != rest[j] {
      var a := if i < p then i else i + 1;
      var b := if j < p then j else j + 1;
      assert rest[i] == idx[a] && rest[j] == idx[b];
    }
    forall i | 0 <= i < |idx[..p]| ensures idx[..p][i] < idx[p] {
      assert idx[i] != idx[p];
    }
    var after := idx[p + 1..];
    forall i | 0 <= i < |after| ensures after[i] < idx[p] {
      assert idx[p + 1 + i] != idx[p];
    }
  }

  lemma SubMultisetSameSize<T>(a: multiset<T>, b: multiset<T>)
    requires a <= b && |a| == |b|
    ensures a == b
  {
    var d := b - a;
    assert a + d == b;
    assert |d| == 0;
  }

  /** Picking the entries at top-k indices of their scores `f(e)` returns
      them best first, leaves out nothing better, and takes no entry more
      often than it is stored; for k == 0 and k >= |es| it takes them all. */
  lemma PickTopK<T>(es: seq<T>, scores: seq<real>, f: T -> real, k: int, top: seq<nat>)
    requires |scores| == |es| && forall i :: 0 <= i < |es| ==> scores[i] == f(es[i])
    requires IsTopK(scores, k, top)
    ensures forall i, j :: 0 <= i < j < |top| ==> f(Pick(es, top)[i]) >= f(Pick(es, top)[j])
    ensures forall i, j :: 0 <= i < |top| && 0 <= j < |es| && j !in top ==>
              f(Pick(es, top)[i]) >= f(es[j])
    ensures forall i, e :: 0 <= i < |top| && e in es && e !in Pick(es, top) ==>
              f(Pick(es, top)[i]) >= f(e)
    ensures multiset(Pick(es, top)) <= multiset(es)
    ensures k == 0 || k >= |es| ==> multiset(Pick(es, top)) == multiset(es)
  {
    var r := Pick(es, top);
    forall i, e | 0 <= i < |r| && e in es && e !in r
      ensures f(r[i]) >= f(e)
    {
      var j :| 0 <= j < |es| && es[j] == e;
      assert forall p :: 0 <= p < |top| ==> r[p] != e;
      assert j !in top;
      assert scores[top[i]] >= scores[j];
    }
    PickSubMultiset(es, top);
    if k == 0 || k >= |es| {
      SubMultisetSameSize(multiset(r), multiset(es));
    }
  }

  /** Ranking is by store entry, not by value: with `a` stored twice and
      scoring above `b`, the two best entries are both copies of `a`. */
  lemma DuplicatesRankedAsEntries(a: Element, b: Element, top: seq<nat>)
    requires IsTopK([2.0, 1.0, 2.0], 2, top)
    ensures Pick([a, b, a], top) == [a, a]
  {
    var scores := [2.0, 1.0, 2.0];
    assert |top| == 2 && top[0] != top[1];
    // an entry of score 1 would be outranked by a left-out copy of `a`
    assert 0 in top && 2 in top;
  }

  /** The similarity of each stored embedding to `q`. */
  function Scores(elements: seq<Element>, sim: (Vector, Vector) -> real, q: Vector): (r: seq<real>)
    ensures |r| == |elements|
    ensures forall i :: 0 <= i < |elements| ==> r[i] == sim(q, elements[i].embedding)
  {
    seq(|elements|, i requires 0 <= i < |elements| => sim(q, elements[i].embedding))
  }

  /** The store entries at the top-k indices of the similarity scores come
      best first by similarity to `q`, leave out nothing more similar, and
      take no element more often than it is stored. */
  lemma PickTopKBySimilarity(elements: seq<Element>, sim: (Vector, Vector) -> real, q: Vector, k: int)
    ensures var top := TopK(Scores(elements, sim, q), k);
            var r := Pick(elements, top);
            && |r| == ResultCount(k, |elements|)
            && (forall i, j :: 0 <= i < j < |r| ==> sim(q, r[i].embedding) >= sim(q, r[j].embedding))
            && (forall i, e :: 0 <= i < |r| && e in elements && e !in r ==>
                  sim(q, r[i].embedding) >= sim(q, e.embedding))
            && multiset(r) <= multiset(elements)
            && (k == 0 || k >= |elements| ==> multiset(r) == multiset(elements))
  {
    var scores := Scores(elements, sim, q);
    var top := TopK(scores, k);
    var f := (e: Element) => sim(q, e.embedding);
    PickTopK(elements, scores, f, k, top);
    var r := Pick(elements, top);
    assert forall i :: 0 <= i < |r| ==> f(r[i]) == sim(q, r[i].embedding);
  }

  /** The first element, in insertion order, whose id is `id`. */
  function FirstWithId(elements: seq<Element>, id: string): (r: Option<Element>)
    ensures r.None? <==> forall i :: 0 <= i < |elements| ==> elements[i].id != id
    ensures r.Some? ==> exists i :: 0 <= i < |elements| && elements[i] == r.value && r.value.id == id
                                && forall j :: 0 <= j < i ==> elements[j].id != id
  {
    if elements == [] then None
    else if elements[0].id == id then Some(elements[0])
    else
      var r := FirstWithId(elements[1..], id);
      if r.Some? then FirstMatchShift(elements, id, r.value); r
      else
        assert forall i :: 1 <= i < |elements| ==> elements[i] == elements[1..][i - 1];
        r
  }

  /** A first match in `elements[1..]` is a first match in `elements` when
      `elements[0]` does not match. */
  lemma FirstMatchShift(elements: seq<Element>, id: string, v: Element)
    requires elements != [] && elements[0].id != id
    requires exists i :: 0 <= i < |elements[1..]| && elements[1..][i] == v && v.id == id
                         && forall j :: 0 <= j < i ==> elements[1..][j].id != id
    ensures exists i :: 0 <= i < |elements| && elements[i] == v && v.id == id
                        && forall j :: 0 <= j < i ==> elements[j].id != id
  {
    var i :| 0 <= i < |elements[1..]| && elements[1..][i] == v && v.id == id
             && forall j :: 0 <= j < i ==> elements[1..][j].id != id;
    assert elements[i + 1] == v;
    assert forall j :: 1 <= j < i + 1 ==> elements[j] == elements[1..][j - 1];
  }

  /** Looking up `id` never looks past the first entry carrying it: entries
      appended after it, duplicates included, make no difference. */
  lemma {:induction false} FirstWithIdAppend(prefix: seq<Element>, suffix: seq<Element>, id: string)
    ensures FirstWithId(prefix + suffix, id) ==
            if FirstWithId(prefix, id).Some? then FirstWithId(prefix, id) else FirstWithId(suffix, id)
  {
    if prefix != [] {
      assert (prefix + suffix)[0] == prefix[0];
      assert (prefix + suffix)[1..] == prefix[1..] + suffix;
      FirstWithIdAppend(prefix[1..], suffix, id);
    } else {
      assert prefix + suffix == suffix;
    }
  }

  class VectorStore {
    /** The stored elements in insertion order (the `store` list). */
    var elements: seq<Element>
    /** The similarity of an embedding to a query vector (cosine in the source). */
    const sim: (Vector, Vector) -> real

    constructor (sim: (Vector, Vector) -> real)
      ensures elements == [] && this.sim == sim
    {
      elements := [];
      this.sim := sim;
    }

    /** Appends the element; no uniqueness check. */
    method Add(element: Element)
      modifies this
      ensures elements == old(elements) + [element]
    {
      elements := elements + [element];
    }

    /** The first element with this id, or None when there is none. */
    function Get(id: string): (r: Option<Element>)
      reads this
      ensures r.None? <==> forall i :: 0 <= i < |elements| ==> elements[i].id != id
      ensures r.Some? ==> exists i :: 0 <= i < |elements| && elements[i] == r.value && r.value.id == id
                                  && forall j :: 0 <= j < i ==> elements[j].id != id
    {
      FirstWithId(elements, id)
    }

    /** The elements with the highest similarity to `q`, best first: the
        store entries at the indices of a top-k selection of the scores, so
        a left-out copy of a stored element never scores above a returned one. */
    function Query(q: Vector, k: int): (r: seq<Element>)
      reads this
      ensures elements == [] ==> r == []
      ensures |r| == ResultCount(k, |elements|)
      ensures forall i, j :: 0 <= i < j < |r| ==> sim(q, r[i].embedding) >= sim(q, r[j].embedding)
      ensures forall i, e :: 0 <= i < |r| && e in elements && e !in r ==>
                sim(q, r[i].embedding) >= sim(q, e.embedding)
      ensures multiset(r) <= multiset(elements)
      ensures k == 0 || k >= |elements| ==> multiset(r) == multiset(elements)
      ensures exists top :: IsTopK(Scores(elements, sim, q), k, top) && r == Pick(elements, top)
    {
      if elements == [] then
        assert IsTopK(Scores(elements, sim, q), k, []) && [] == Pick(elements, []);
        []
      else
        var top := TopK(Scores(elements, sim, q), k);
        PickTopKBySimilarity(elements, sim, q, k);
        Pick(elements, top)
    }
  }
}
