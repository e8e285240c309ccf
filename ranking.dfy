/** Complaint ranking (`search_firebase`): score every stored complaint against the
    new problem, keep those at or above the threshold with a `similarity` field
    added, and order them by similarity, highest first, ties in store order. */
module Ranking {
  import opened PyText
  import opened PyValues

  /** A similarity score: the float `fuzz.token_sort_ratio` returns, within [0, 100]. */
  type Percent = r: real | 0.0 <= r <= 100.0

  /** `fuzz.token_sort_ratio`, whose definition is not part of this model. */
  type Scorer = (string, string) -> Percent

  const TextKey := "text"
  const SimilarityKey := "similarity"
  const DefaultThreshold: real := 70.0

  /** `data["text"]`, checked to be a string so that `.lower()` applies. */
  function TextOf(rec: Record): (r: Result<string, PyError>)
    ensures r.Success? <==> TextKey in rec && rec[TextKey].Str?
    ensures TextKey !in rec ==> r == Failure(KeyError(TextKey))
    ensures TextKey in rec && !rec[TextKey].Str? ==> r == Failure(AttributeError(TypeName(rec[TextKey]), "lower"))
    ensures r.Success? ==> r.value == rec[TextKey].s
  {
    if TextKey in rec then AsString(rec[TextKey], "lower") else Failure(KeyError(TextKey))
  }

  /** The score of one stored complaint: `token_sort_ratio(problem.lower(), data["text"].lower())`. */
  function ScoreOf(problem: string, rec: Record, score: Scorer): Percent
    requires TextOf(rec).Success?
  {
    score(Lower(problem), Lower(TextOf(rec).value))
  }

  predicate Scored(m: Record) {
    SimilarityKey in m && m[SimilarityKey].Float?
  }

  function Similarity(m: Record): real
    requires Scored(m)
  {
    m[SimilarityKey].x
  }

  predicate AllScored(s: seq<Record>) {
    forall i :: 0 <= i < |s| ==> Scored(s[i])
  }

  /** `{**rec, "similarity": s}`: the record with only its similarity set. */
  function Annotate(rec: Record, s: real): (m: Record)
    ensures m.Keys == rec.Keys + {SimilarityKey}
    ensures Scored(m) && Similarity(m) == s
    ensures forall k :: k in rec && k != SimilarityKey ==> m[k] == rec[k]
  {
    rec[SimilarityKey := Float(s)]
  }

  /** The loop of `search_firebase` before the sort: the annotated survivors in store order,
      or the error of the first complaint whose text cannot be lowered. */
  function Filter(problem: string, cands: seq<Record>, threshold: real, score: Scorer)
    : (r: Result<seq<Record>, PyError>)
    ensures r.Success? ==> AllScored(r.value) && |r.value| <= |cands|
    decreases |cands|
  {
    if cands == [] then Success([])
    else
      var before := Filter(problem, cands[..|cands| - 1], threshold, score);
      var last := cands[|cands| - 1];
      if before.Failure? then before
      else match TextOf(last)
        case Failure(e) => Failure(e)
        case Success(_) =>
          var s := ScoreOf(problem, last, score);
          Success(if s >= threshold then before.value + [Annotate(last, s)] else before.value)
  }

  /** The entries of `s` whose similarity is `k`, in their order in `s`. */
  function OfScore(s: seq<Record>, k: real): seq<Record>
    requires AllScored(s)
  {
    if s == [] then []
    else (if Similarity(s[0]) == k then [s[0]] else []) + OfScore(s[1..], k)
  }

  /** Non-increasing similarity. */
  predicate SortedDesc(s: seq<Record>) {
    AllScored(s) && forall i, j :: 0 <= i < j < |s| ==> Similarity(s[i]) >= Similarity(s[j])
  }

  /** `r` is `f` after `f.sort(key=similarity, reverse=True)`: ordered by similarity, highest
      first, a permutation of `f`, and for every similarity the entries carrying it are in
      their order in `f` (Python's sort is stable, also with `reverse=True`). */
  ghost predicate IsStableSortDesc(r: seq<Record>, f: seq<Record>) {
    && AllScored(f)
    && SortedDesc(r)
    && multiset(r) == multiset(f)
    && forall k :: OfScore(r, k) == OfScore(f, k)
  }

  /** What `search_firebase` returns for the candidates the store gave it: the error of the
      first complaint without a string text, or the stable descending sort of the survivors. */
  ghost predicate Ranked(problem: string, cands: seq<Record>, threshold: real, score: Scorer,
                   r: Result<seq<Record>, PyError>)
  {
    match Filter(problem, cands, threshold, score)
    case Failure(e) => r == Failure(e)
    case Success(f) => r.Success? && IsStableSortDesc(r.value, f)
  }

  // ----- Sorting -----

  lemma {:induction false} OfScoreAppend(a: seq<Record>, b: seq<Record>, k: real)
    requires AllScored(a) && AllScored(b)
    ensures AllScored(a + b) && OfScore(a + b, k) == OfScore(a, k) + OfScore(b, k)
  {
    if a == [] {
      assert a + b == b;
    } else {
      var head := if Similarity(a[0]) == k then [a[0]] else [];
      assert (a + b)[0] == a[0] && (a + b)[1..] == a[1..] + b;
      OfScoreAppend(a[1..], b, k);
      calc {
        OfScore(a + b, k);
        head + OfScore(a[1..] + b, k);
        head + (OfScore(a[1..], k) + OfScore(b, k));
        (head + OfScore(a[1..], k)) + OfScore(b, k);
      }
    }
  }

  lemma {:induction false} OfScoreAbsent(s: seq<Record>, k: real)
    requires AllScored(s)
    requires forall i :: 0 <= i < |s| ==> Similarity(s[i]) != k
    ensures OfScore(s, k) == []
  {
    if s != [] {
      OfScoreAbsent(s[1..], k);
    }
  }

  /** Where insertion sort puts `x` into sorted `r`: after every entry of at least its similarity. */
  predicate IsInsertionPoint(r: seq<Record>, x: Record, p: nat)
    requires AllScored(r) && Scored(x)
  {
    && p <= |r|
    && (forall q :: 0 <= q < p ==> Similarity(r[q]) >= Similarity(x))
    && (p < |r| ==> Similarity(r[p]) < Similarity(x))
  }

  lemma InsertSorted(r: seq<Record>, x: Record, p: nat)
    requires SortedDesc(r) && Scored(x) && IsInsertionPoint(r, x, p)
    ensures SortedDesc(r[..p] + [x] + r[p..])
  {
    var r' := r[..p] + [x] + r[p..];
    assert forall i :: 0 <= i < |r'| ==> r'[i] == if i < p then r[i] else if i == p then x else r[i - 1];
  }

  /** Inserting `x` at its insertion point puts it last among the entries of its similarity. */
  lemma InsertStableAt(r: seq<Record>, x: Record, p: nat, k: real)
    requires SortedDesc(r) && Scored(x) && IsInsertionPoint(r, x, p)
    ensures AllScored(r[..p] + [x] + r[p..])
    ensures OfScore(r[..p] + [x] + r[p..], k) == OfScore(r, k) + OfScore([x], k)
  {
    var front, back := r[..p], r[p..];
    assert front + back == r;
    OfScoreAppend(front, back, k);
    OfScoreAppend(front, [x], k);
    OfScoreAppend(front + [x], back, k);
    if k == Similarity(x) {
      OfScoreAbsent(back, k);
      calc {
        OfScore(front + [x] + back, k);
        OfScore(front, k) + OfScore([x], k) + OfScore(back, k);
        OfScore(front, k) + OfScore([x], k);
        OfScore(front, k) + OfScore(back, k) + OfScore([x], k);
      }
    } else {
      assert OfScore([x], k) == [] + OfScore([x][1..], k);
    }
  }

  lemma InsertStable(r: seq<Record>, x: Record, p: nat)
    requires SortedDesc(r) && Scored(x) && IsInsertionPoint(r, x, p)
    ensures AllScored(r[..p] + [x] + r[p..])
    ensures forall k :: OfScore(r[..p] + [x] + r[p..], k) == OfScore(r, k) + OfScore([x], k)
  {
    forall k
      ensures OfScore(r[..p] + [x] + r[p..], k) == OfScore(r, k) + OfScore([x], k)
    {
      InsertStableAt(r, x, p, k);
    }
    InsertStableAt(r, x, p, 0.0);
  }

  /** One step of the insertion sort: inserting `xs[i]` at its insertion point into a stable
      descending sort of `xs[..i]` gives one of `xs[..i + 1]`. */
  lemma InsertStep(xs: seq<Record>, i: nat, r: seq<Record>, p: nat)
    requires i < |xs| && AllScored(xs) && IsStableSortDesc(r, xs[..i])
    requires IsInsertionPoint(r, xs[i], p)
    ensures IsStableSortDesc(r[..p] + [xs[i]] + r[p..], xs[..i + 1])
  {
    var x := xs[i];
    var r' := r[..p] + [x] + r[p..];
    InsertSorted(r, x, p);
    InsertStable(r, x, p);
    assert xs[..i + 1] == xs[..i] + [x];
    assert multiset(r') == multiset(r) + multiset{x} by {
      assert r[..p] + r[p..] == r;
    }
    forall k
      ensures OfScore(r', k) == OfScore(xs[..i + 1], k)
    {
      OfScoreAppend(xs[..i], [x], k);
    }
  }

  /** `list.sort(key=lambda x: x["similarity"], reverse=True)`, as an insertion sort. */
  method SortBySimilarity(xs: seq<Record>) returns (r: seq<Record>)
    requires AllScored(xs)
    ensures IsStableSortDesc(r, xs)
  {
    r := [];
    for i := 0 to |xs|
      invariant IsStableSortDesc(r, xs[..i])
    {
      var x := xs[i];
      var p := 0;
      while p < |r| && Similarity(r[p]) >= Similarity(x)
        invariant p <= |r|
        invariant forall q :: 0 <= q < p ==> Similarity(r[q]) >= Similarity(x)
      {
        p := p + 1;
      }
      InsertStep(xs, i, r, p);
      r := r[..p] + [x] + r[p..];
    }
    assert xs[..|xs|] == xs;
  }

  // ----- search_firebase -----

  lemma {:induction false} FilterKeepsFailure(problem: string, cands: seq<Record>, threshold: real,
                                              score: Scorer, n: nat)
    requires n <= |cands| && Filter(problem, cands[..n], threshold, score).Failure?
    ensures Filter(problem, cands, threshold, score) == Filter(problem, cands[..n], threshold, score)
    decreases |cands| - n
  {
    if n < |cands| {
      assert cands[..n + 1][..n] == cands[..n];
      FilterKeepsFailure(problem, cands, threshold, score, n + 1);
    } else {
      assert cands[..n] == cands;
    }
  }

  /** `search_firebase(location, problem, threshold)`: the store is asked for the complaints of
      the stripped, title-cased location, which are then ranked. */
  method SearchFirebase(location: string, problem: string, threshold: real,
                        query: string -> seq<Record>, score: Scorer)
    returns (r: Result<seq<Record>, PyError>)
    ensures Ranked(problem, query(NormalizeLocation(location)), threshold, score, r)
    ensures query(NormalizeLocation(location)) == [] ==> r == Success([])
  {
    var results := query(NormalizeLocation(location));
    var matched: seq<Record> := [];
    for i := 0 to |results|
      invariant Filter(problem, results[..i], threshold, score) == Success(matched)
    {
      var data := results[i];
      assert results[..i + 1][..i] == results[..i];
      var text := TextOf(data);
      if text.Failure? {
        FilterKeepsFailure(problem, results, threshold, score, i + 1);
        return Failure(text.error);
      }
      var similarity := score(Lower(problem), Lower(text.value));
      if similarity >= threshold {
        matched := matched + [Annotate(data, similarity)];
      }
    }
    assert results[..|results|] == results;
    matched := SortBySimilarity(matched);
    r := Success(matched);
  }

  // ----- Properties of the ranking -----

  /** Ranking fails exactly when some candidate has no string `text`, and then with the error
      of the first such candidate, all before it having been scored. */
  lemma {:induction false} FilterFailsAtFirstBadText(problem: string, cands: seq<Record>,
                                                     threshold: real, score: Scorer)
    ensures Filter(problem, cands, threshold, score).Failure? <==>
            exists i :: 0 <= i < |cands| && TextOf(cands[i]).Failure?
    ensures Filter(problem, cands, threshold, score).Failure? ==>
            exists i :: 0 <= i < |cands| && TextOf(cands[i]) == Failure(Filter(problem, cands, threshold, score).error)
                        && forall j :: 0 <= j < i ==> TextOf(cands[j]).Success?
  {
    if cands != [] {
      var init := cands[..|cands| - 1];
      FilterFailsAtFirstBadText(problem, init, threshold, score);
      assert forall i :: 0 <= i < |init| ==> init[i] == cands[i];
    }
  }

  /** Every survivor is a candidate, with only its similarity set, to a score at or above the threshold. */
  lemma {:induction false} FilterSound(problem: string, cands: seq<Record>, threshold: real, score: Scorer)
    requires Filter(problem, cands, threshold, score).Success?
    ensures forall m :: m in Filter(problem, cands, threshold, score).value ==>
      exists j :: 0 <= j < |cands| && TextOf(cands[j]).Success?
                  && ScoreOf(problem, cands[j], score) >= threshold
                  && m == Annotate(cands[j], ScoreOf(problem, cands[j], score))
  {
    if cands != [] {
      var init := cands[..|cands| - 1];
      FilterSound(problem, init, threshold, score);
      assert forall i :: 0 <= i < |init| ==> init[i] == cands[i];
    }
  }

  /** Every candidate scoring at or above the threshold survives, annotated with its score. */
  lemma {:induction false} FilterComplete(problem: string, cands: seq<Record>, threshold: real, score: Scorer)
    requires Filter(problem, cands, threshold, score).Success?
    ensures forall j :: 0 <= j < |cands| ==>
      && TextOf(cands[j]).Success?
      && (ScoreOf(problem, cands[j], score) >= threshold ==>
            Annotate(cands[j], ScoreOf(problem, cands[j], score)) in Filter(problem, cands, threshold, score).value)
  {
    if cands != [] {
      var init := cands[..|cands| - 1];
      FilterComplete(problem, init, threshold, score);
      assert forall i :: 0 <= i < |init| ==> init[i] == cands[i];
    }
  }

  /** The ranking fails exactly when some candidate lacks a string `text`, with the first one's error. */
  lemma RankedFailure(problem: string, cands: seq<Record>, threshold: real, score: Scorer,
                      r: Result<seq<Record>, PyError>)
    requires Ranked(problem, cands, threshold, score, r)
    ensures r.Failure? <==> exists i :: 0 <= i < |cands| && TextOf(cands[i]).Failure?
    ensures r.Failure? ==>
            exists i :: 0 <= i < |cands| && TextOf(cands[i]) == Failure(r.error)
                        && forall j :: 0 <= j < i ==> TextOf(cands[j]).Success?
  {
    FilterFailsAtFirstBadText(problem, cands, threshold, score);
  }

  /** Soundness: every ranked complaint is a stored one with only `similarity` set, to its own
      score, which is at or above the threshold. */
  lemma RankedSound(problem: string, cands: seq<Record>, threshold: real, score: Scorer,
                    r: Result<seq<Record>, PyError>)
    requires Ranked(problem, cands, threshold, score, r) && r.Success?
    ensures forall m :: m in r.value ==>
      && Scored(m) && threshold <= Similarity(m) <= 100.0
      && exists j :: 0 <= j < |cands| && TextOf(cands[j]).Success?
                     && m == Annotate(cands[j], ScoreOf(problem, cands[j], score))
  {
    var f := Filter(problem, cands, threshold, score).value;
    FilterSound(problem, cands, threshold, score);
    forall m | m in r.value
      ensures m in f
    {
      assert m in multiset(r.value);
    }
  }

  /** Completeness: every stored complaint scoring at or above the threshold is ranked. */
  lemma RankedComplete(problem: string, cands: seq<Record>, threshold: real, score: Scorer,
                       r: Result<seq<Record>, PyError>)
    requires Ranked(problem, cands, threshold, score, r) && r.Success?
    ensures forall j :: 0 <= j < |cands| ==>
      && TextOf(cands[j]).Success?
      && (ScoreOf(problem, cands[j], score) >= threshold ==>
            Annotate(cands[j], ScoreOf(problem, cands[j], score)) in r.value)
  {
    var f := Filter(problem, cands, threshold, score).value;
    FilterComplete(problem, cands, threshold, score);
    forall m | m in f
      ensures m in r.value
    {
      assert m in multiset(f);
    }
  }

  lemma {:induction false} OfScoreHas(s: seq<Record>, k: real)
    requires AllScored(s) && OfScore(s, k) != []
    ensures exists i :: 0 <= i < |s| && Similarity(s[i]) == k
  {
    if Similarity(s[0]) != k {
      OfScoreHas(s[1..], k);
      var i :| 0 <= i < |s[1..]| && Similarity(s[1..][i]) == k;
      assert s[1..][i] == s[i + 1];
    }
  }

  /** Two sorted sequences that agree, similarity by similarity, start alike. */
  lemma FirstAgrees(a: seq<Record>, b: seq<Record>)
    requires SortedDesc(a) && SortedDesc(b) && forall k :: OfScore(a, k) == OfScore(b, k)
    requires a != []
    ensures b != [] && a[0] == b[0]
  {
    var ka := Similarity(a[0]);
    assert OfScore(a, ka)[0] == a[0];
    OfScoreHas(b, ka);
    var kb := Similarity(b[0]);
    assert OfScore(b, kb)[0] == b[0];
    OfScoreHas(a, kb);
    assert ka == kb;
  }

  /** A sorted sequence is determined by its entries of each similarity in order: there is only
      one stable descending sort of a list. */
  lemma {:induction false} SortedUnique(a: seq<Record>, b: seq<Record>)
    requires SortedDesc(a) && SortedDesc(b)
    requires forall k :: OfScore(a, k) == OfScore(b, k)
    ensures a == b
    decreases |a|
  {
    if a != [] {
      FirstAgrees(a, b);
      forall k
        ensures OfScore(a[1..], k) == OfScore(b[1..], k)
      {
        var head := if Similarity(a[0]) == k then [a[0]] else [];
        assert OfScore(a, k) == head + OfScore(a[1..], k);
        assert OfScore(b, k) == head + OfScore(b[1..], k);
        assert OfScore(a[1..], k) == (head + OfScore(a[1..], k))[|head|..];
        assert OfScore(b[1..], k) == (head + OfScore(b[1..], k))[|head|..];
      }
      SortedUnique(a[1..], b[1..]);
      assert a == [a[0]] + a[1..] && b == [b[0]] + b[1..];
    } else if b != [] {
      FirstAgrees(b, a);
      assert false;
    }
  }

  /** The ranking is determined by the candidates, the problem, the threshold and the scorer. */
  lemma RankedUnique(problem: string, cands: seq<Record>, threshold: real, score: Scorer,
                     r1: Result<seq<Record>, PyError>, r2: Result<seq<Record>, PyError>)
    requires Ranked(problem, cands, threshold, score, r1)
    requires Ranked(problem, cands, threshold, score, r2)
    ensures r1 == r2
  {
    if Filter(problem, cands, threshold, score).Success? {
      SortedUnique(r1.value, r2.value);
    }
  }
}
