/** The ranking step of the `/rerank` handler: build the (query, document)
    batch for the cross-encoder, pair every document with the score the model
    returned for it, sort the records by score (highest first, stably) and
    keep the `top_n` prefix with Python slice semantics.

    The cross-encoder itself is not modelled: the scores it returns for the
    batch `Pairs(query, documents)` are an input. */
module Rerank {
  import opened Wrappers

  /** A relevance score as the model returns it; only the order matters. */
  type Score = real

  /** One element of the batch handed to the cross-encoder: `[query, doc]`. */
  datatype Pair = Pair(query: string, document: string)

  /** One entry of the response's `results` list. */
  datatype ScoredDocument = ScoredDocument(index: nat, text: string, relevanceScore: Score)

  /** The request body: `top_n` is optional and not range-checked. */
  datatype RerankRequest = RerankRequest(query: string, documents: seq<string>, topN: Option<int>)

  function Min(a: int, b: int): int { if a <= b then a else b }

  function Max(a: int, b: int): int { if a >= b then a else b }

  // ---------------------------------------------------------------------------
  // Pair construction and enumeration
  // ---------------------------------------------------------------------------

  /** `[[query, doc] for doc in documents]`: one pair per document, in order. */
  function Pairs(query: string, documents: seq<string>): (r: seq<Pair>)
    ensures |r| == |documents|
    ensures forall i :: 0 <= i < |r| ==> r[i] == Pair(query, documents[i])
  {
    if documents == [] then []
    else [Pair(query, documents[0])] + Pairs(query, documents[1..])
  }

  /** `enumerate(zip(documents, scores), start)`: `zip` stops at the shorter
      input, and every record carries its position counted from `start`. */
  function EnumerateFrom(start: nat, documents: seq<string>, scores: seq<Score>): (r: seq<ScoredDocument>)
    ensures |r| == Min(|documents|, |scores|)
    ensures forall k :: 0 <= k < |r| ==> r[k] == ScoredDocument(start + k, documents[k], scores[k])
    decreases |documents|
  {
    if documents == [] || scores == [] then []
    else [ScoredDocument(start, documents[0], scores[0])] + EnumerateFrom(start + 1, documents[1..], scores[1..])
  }

  /** The records before sorting: the k-th is document k with score k. */
  function Enumerate(documents: seq<string>, scores: seq<Score>): (r: seq<ScoredDocument>)
    ensures |r| == Min(|documents|, |scores|)
    ensures forall k :: 0 <= k < |r| ==> r[k] == ScoredDocument(k, documents[k], scores[k])
  {
    EnumerateFrom(0, documents, scores)
  }

  /** Every record points back to its own document and its own score. */
  predicate Grounded(documents: seq<string>, scores: seq<Score>, s: seq<ScoredDocument>)
  {
    forall i :: 0 <= i < |s| ==>
      && s[i].index < |documents| && s[i].index < |scores|
      && s[i].text == documents[s[i].index]
      && s[i].relevanceScore == scores[s[i].index]
  }

  /** Positions strictly increase along the sequence. */
  predicate IndexIncreasing(s: seq<ScoredDocument>)
  {
    forall i, j :: 0 <= i < j < |s| ==> s[i].index < s[j].index
  }

  lemma EnumerateGrounded(documents: seq<string>, scores: seq<Score>)
    ensures Grounded(documents, scores, Enumerate(documents, scores))
    ensures IndexIncreasing(Enumerate(documents, scores))
  {
  }

  // ---------------------------------------------------------------------------
  // The order `sorted(..., key=relevance_score, reverse=True)` produces
  // ---------------------------------------------------------------------------

  /** Non-increasing in relevance score. */
  predicate Sorted(s: seq<ScoredDocument>)
  {
    forall i, j :: 0 <= i < j < |s| ==> s[i].relevanceScore >= s[j].relevanceScore
  }

  /** `a` must come before `b` in the output: a higher score, or an equal
      score and a smaller original position (stability). */
  predicate Before(a: ScoredDocument, b: ScoredDocument)
  {
    a.relevanceScore > b.relevanceScore
    || (a.relevanceScore == b.relevanceScore && a.index < b.index)
  }

  /** Every earlier record comes strictly `Before` every later one. */
  predicate Ranked(s: seq<ScoredDocument>)
  {
    forall i, j :: 0 <= i < j < |s| ==> Before(s[i], s[j])
  }

  /** A ranked sequence is sorted, and its ties are in index order. */
  lemma RankedIsSortedAndStable(s: seq<ScoredDocument>)
    requires Ranked(s)
    ensures Sorted(s)
    ensures forall i, j :: 0 <= i < j < |s| && s[i].relevanceScore == s[j].relevanceScore ==> s[i].index < s[j].index
  {
  }

  /** Inserts `x` in front of the first record whose score is not above its
      own, so that `x` precedes the ties that were after it in the input. */
  function Insert(x: ScoredDocument, s: seq<ScoredDocument>): (r: seq<ScoredDocument>)
    ensures multiset(r) == multiset(s) + multiset{x}
    ensures Sorted(s) ==> Sorted(r)
  {
    if s == [] || x.relevanceScore >= s[0].relevanceScore then [x] + s
    else
      var rest := Insert(x, s[1..]);
      assert s == [s[0]] + s[1..];
      InsertKeepsSorted(x, s, rest);
      [s[0]] + rest
  }

  /** The step of `Insert` that goes past `s[0]` keeps the result sorted. */
  lemma InsertKeepsSorted(x: ScoredDocument, s: seq<ScoredDocument>, rest: seq<ScoredDocument>)
    requires s != [] && x.relevanceScore < s[0].relevanceScore
    requires multiset(rest) == multiset(s[1..]) + multiset{x}
    requires Sorted(s[1..]) ==> Sorted(rest)
    ensures Sorted(s) ==> Sorted([s[0]] + rest)
  {
    if Sorted(s) {
      assert Sorted(s[1..]);
      var r := [s[0]] + rest;
      forall i, j | 0 <= i < j < |r| ensures r[i].relevanceScore >= r[j].relevanceScore {
        if i == 0 {
          var y := rest[j - 1];
          assert y in multiset(rest);
          if y != x {
            assert y in multiset(s[1..]);
            var k :| 0 <= k < |s[1..]| && s[1..][k] == y;
            assert s[k + 1] == y;
          }
        } else {
          assert r[i] == rest[i - 1] && r[j] == rest[j - 1];
        }
      }
    }
  }

  /** A stable sort by score, highest first: insertion of each record, in
      input order, into the sorted remainder. */
  function Sort(s: seq<ScoredDocument>): (r: seq<ScoredDocument>)
    ensures multiset(r) == multiset(s)
    ensures Sorted(r)
  {
    if s == [] then []
    else
      assert s == [s[0]] + s[1..];
      Insert(s[0], Sort(s[1..]))
  }

  lemma {:induction false} InsertRanked(x: ScoredDocument, s: seq<ScoredDocument>)
    requires Ranked(s)
    requires forall y :: y in s ==> x.index < y.index
    ensures Ranked(Insert(x, s))
  {
    if s == [] || x.relevanceScore >= s[0].relevanceScore {
      var r := Insert(x, s);
      assert r == [x] + s;
      forall i, j | 0 <= i < j < |r| ensures Before(r[i], r[j]) {
        if i == 0 {
          assert r[j] == s[j - 1];
          if j > 1 { assert Before(s[0], s[j - 1]); }
        } else {
          assert r[i] == s[i - 1] && r[j] == s[j - 1];
        }
      }
    } else {
      var rest := Insert(x, s[1..]);
      InsertRanked(x, s[1..]);
      var r := [s[0]] + rest;
      assert r == Insert(x, s);
      forall i, j | 0 <= i < j < |r| ensures Before(r[i], r[j]) {
        if i == 0 {
          assert r[j] == rest[j - 1];
          assert r[j] in multiset(rest);
          if r[j] != x {
            assert r[j] in s[1..];
            var k :| 0 <= k < |s[1..]| && s[1..][k] == r[j];
            assert Before(s[0], s[k + 1]);
          }
        } else {
          assert r[i] == rest[i - 1] && r[j] == rest[j - 1];
        }
      }
    }
  }

  /** Stability: on input whose positions increase (as `Enumerate` yields),
      `Sort` breaks ties by original position. */
  lemma {:induction false} SortRanked(s: seq<ScoredDocument>)
    requires IndexIncreasing(s)
    ensures Ranked(Sort(s))
  {
    if s != [] {
      var tail := Sort(s[1..]);
      SortRanked(s[1..]);
      forall y | y in tail ensures s[0].index < y.index {
        assert y in multiset(tail);
        assert y in s[1..];
        var k :| 0 <= k < |s[1..]| && s[1..][k] == y;
        assert s[k + 1] == y;
      }
      InsertRanked(s[0], tail);
    }
  }

  /** The head of a ranked sequence ranks before every other member. */
  lemma RankedHead(s: seq<ScoredDocument>, e: ScoredDocument)
    requires Ranked(s) && e in s
    ensures e == s[0] || Before(s[0], e)
  {
  }

  /** The ranked order of a collection of records is unique: any two ranked
      arrangements of the same records are equal. So `Sort` yields exactly
      what any stable descending sort of the enumerated records yields. */
  lemma {:induction false} RankedUnique(a: seq<ScoredDocument>, b: seq<ScoredDocument>)
    requires Ranked(a) && Ranked(b)
    requires multiset(a) == multiset(b)
    ensures a == b
  {
    if a == [] {
      assert |multiset(b)| == 0;
    } else {
      assert |b| == |multiset(b)| == |multiset(a)| == |a|;
      assert a[0] in multiset(b) && b[0] in multiset(a);
      RankedHead(a, b[0]);
      RankedHead(b, a[0]);
      // Neither can rank strictly before the other, so the heads agree.
      assert b[0] == a[0];
      assert a == [a[0]] + a[1..];
      assert b == [b[0]] + b[1..];
      assert multiset(a[1..]) == multiset(a) - multiset{a[0]};
      assert multiset(b[1..]) == multiset(b) - multiset{a[0]};
      assert multiset(a[1..]) == multiset(b[1..]);
      RankedUnique(a[1..], b[1..]);
    }
  }

  // ---------------------------------------------------------------------------
  // `results[:top_n]`
  // ---------------------------------------------------------------------------

  /** The end position Python uses for the slice `xs[:stop]` on a list of
      length `n`: a negative stop counts from the end and is clamped at 0,
      a stop past the end is clamped at `n`. No value raises an error. */
  function SliceStop(stop: int, n: nat): (k: nat)
    ensures k <= n
    ensures stop >= 0 ==> k == Min(stop, n)
    ensures stop < 0 ==> k == Max(0, n + stop)
  {
    if stop < 0 then (if n + stop < 0 then 0 else n + stop)
    else if stop > n then n
    else stop
  }

  /** `if top_n is not None: results = results[:top_n]`. */
  function Truncate(results: seq<ScoredDocument>, topN: Option<int>): (r: seq<ScoredDocument>)
    ensures |r| <= |results| && r == results[..|r|]
    ensures topN.None? ==> r == results
    ensures topN.Some? && topN.value >= 0 ==> |r| == Min(topN.value, |results|)
    ensures topN.Some? && topN.value < 0 ==> |r| == Max(0, |results| + topN.value)
    ensures topN.Some? && topN.value < 0 && -topN.value <= |results| ==>
      r + results[|results| + topN.value..] == results
  {
    match topN
    case None => results
    case Some(n) => results[..SliceStop(n, |results|)]
  }

  /** Everything a prefix leaves out ranks below everything it keeps. */
  lemma PrefixIsTop(s: seq<ScoredDocument>, m: nat)
    requires Ranked(s) && m <= |s|
    ensures multiset(s[..m]) <= multiset(s)
    ensures forall i, e :: 0 <= i < m && e in s && e !in s[..m] ==> Before(s[i], e)
  {
    assert s == s[..m] + s[m..];
    forall i, e | 0 <= i < m && e in s && e !in s[..m] ensures Before(s[i], e) {
      var j :| 0 <= j < |s| && s[j] == e;
    }
  }

  // ---------------------------------------------------------------------------
  // The whole ranking step
  // ---------------------------------------------------------------------------

  /** The number of results the handler returns: `zip` keeps
      `min(len(documents), len(scores))` records and the slice then keeps
      `min(top_n, n)` of them, or `max(0, n + top_n)` for a negative `top_n`. */
  function ResultCount(documents: nat, scores: nat, topN: Option<int>): nat
  {
    var n := Min(documents, scores);
    match topN
    case None => n
    case Some(t) => if t >= 0 then Min(t, n) else Max(0, n + t)
  }

  /** `results` as `rerank` returns it, given the `scores` the cross-encoder
      returned for `Pairs(request.query, request.documents)`. */
  function RankResults(request: RerankRequest, scores: seq<Score>): (r: seq<ScoredDocument>)
    ensures |r| == ResultCount(|request.documents|, |scores|, request.topN)
    ensures Grounded(request.documents, scores, r)
    ensures Ranked(r)
    ensures forall i, j :: 0 <= i < j < |r| ==> r[i].index != r[j].index
    ensures multiset(r) <= multiset(Enumerate(request.documents, scores))
    ensures request.topN.None? ==> multiset(r) == multiset(Enumerate(request.documents, scores))
    ensures forall i, e :: 0 <= i < |r| && e in Enumerate(request.documents, scores) && e !in r ==> Before(r[i], e)
  {
    var records := Enumerate(request.documents, scores);
    var sorted := Sort(records);
    EnumerateGrounded(request.documents, scores);
    SortRanked(records);
    assert |sorted| == |multiset(sorted)| == |multiset(records)| == |records|;
    var r := Truncate(sorted, request.topN);
    assert |r| == ResultCount(|request.documents|, |scores|, request.topN);
    PrefixIsTop(sorted, |r|);
    SameMembers(sorted, records);
    GroundedSubset(request.documents, scores, records, r);
    GroundedRankedDistinct(request.documents, scores, r);
    r
  }

  /** Two sequences with the same multiset have the same members. */
  lemma SameMembers(a: seq<ScoredDocument>, b: seq<ScoredDocument>)
    requires multiset(a) == multiset(b)
    ensures forall e :: e in a <==> e in b
  {
    forall e ensures e in a <==> e in b {
      assert e in a <==> e in multiset(a);
      assert e in b <==> e in multiset(b);
    }
  }

  /** Rearranging or dropping records keeps every one pointing to its document. */
  lemma GroundedSubset(documents: seq<string>, scores: seq<Score>, s: seq<ScoredDocument>, t: seq<ScoredDocument>)
    requires Grounded(documents, scores, s)
    requires multiset(t) <= multiset(s)
    ensures Grounded(documents, scores, t)
  {
    forall i | 0 <= i < |t|
      ensures t[i].index < |documents| && t[i].index < |scores|
      ensures t[i].text == documents[t[i].index]
      ensures t[i].relevanceScore == scores[t[i].index]
    {
      assert t[i] in multiset(t);
      assert t[i] in multiset(s);
      var k :| 0 <= k < |s| && s[k] == t[i];
    }
  }

  /** Records that point to their own documents are determined by their
      index, so in a ranked sequence no index can repeat. */
  lemma GroundedRankedDistinct(documents: seq<string>, scores: seq<Score>, s: seq<ScoredDocument>)
    requires Grounded(documents, scores, s) && Ranked(s)
    ensures forall i, j :: 0 <= i < j < |s| ==> s[i].index != s[j].index
  {
  }

  /** Any stable descending sort of the enumerated records, cut at the
      handler's result count, gives the handler's results. */
  lemma {:induction false} RankResultsMatchesAnyStableSort(request: RerankRequest, scores: seq<Score>, t: seq<ScoredDocument>)
    requires multiset(t) == multiset(Enumerate(request.documents, scores))
    requires Ranked(t)
    ensures |RankResults(request, scores)| <= |t|
    ensures RankResults(request, scores) == t[..|RankResults(request, scores)|]
    ensures RankResults(request, scores) == Truncate(t, request.topN)
  {
    var records := Enumerate(request.documents, scores);
    EnumerateGrounded(request.documents, scores);
    SortRanked(records);
    RankedUnique(Sort(records), t);
    assert |t| == |multiset(t)| == |multiset(records)| == |records|;
  }

  /** Each result carries the score the model gave to the pair built from
      its own document. */
  lemma {:induction false} ResultScoreIsItsPairs(request: RerankRequest, scores: seq<Score>, i: nat)
    requires i < |RankResults(request, scores)|
    ensures var r := RankResults(request, scores)[i];
      && r.index < |Pairs(request.query, request.documents)|
      && Pairs(request.query, request.documents)[r.index] == Pair(request.query, r.text)
      && r.relevanceScore == scores[r.index]
  {
    var results := RankResults(request, scores);
    assert Grounded(request.documents, scores, results);
  }

  // ---------------------------------------------------------------------------
  // Worked examples
  // ---------------------------------------------------------------------------

  /** Two documents, no `top_n`: the higher score first. */
  lemma TwoDocumentsExample()
    ensures RankResults(RerankRequest("cat", ["a cat sat", "dog ran"], None), [0.9, 0.2])
         == [ScoredDocument(0, "a cat sat", 0.9), ScoredDocument(1, "dog ran", 0.2)]
  {
  }

  /** Same request with `top_n=1`: only the best document. */
  lemma TopOneExample()
    ensures RankResults(RerankRequest("cat", ["a cat sat", "dog ran"], Some(1)), [0.9, 0.2])
         == [ScoredDocument(0, "a cat sat", 0.9)]
  {
  }

  /** No documents: no results, whatever scores the model returns. */
  lemma NoDocumentsExample(query: string, topN: Option<int>, scores: seq<Score>)
    ensures RankResults(RerankRequest(query, [], topN), scores) == []
  {
  }

  /** A tie keeps the original order. */
  lemma TieExample()
    ensures RankResults(RerankRequest("q", ["x", "y"], None), [0.5, 0.5])
         == [ScoredDocument(0, "x", 0.5), ScoredDocument(1, "y", 0.5)]
  {
  }

  /** A negative `top_n` drops that many results from the end, without error. */
  lemma NegativeTopNExample()
    ensures RankResults(RerankRequest("q", ["x", "y", "z"], Some(-1)), [0.1, 0.5, 0.3])
         == [ScoredDocument(1, "y", 0.5), ScoredDocument(2, "z", 0.3)]
  {
  }
}
