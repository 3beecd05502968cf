/**
 * `get_recommendations` of the Streamlit front end: ask the index for twice
 * the wanted number of matches, boost, sort, keep the first `k`, format.
 * The embedding of the query text and the index itself are outside the model:
 * the index's answer to the one query made is a parameter.
 */
module StreamlitApp {

  import opened Wrappers
  import opened Normalizer
  import opened Ranking

  /** What `get_recommendations` returns for the index answer `answer`, or the exception it raises. */
  function Recommendations(k: int, requested: seq<string>, answer: IndexAnswer): Result<seq<Recommendation>, Failure> {
    match answer
    case Err(msg) => Err(IndexFailure(msg))
    case Ok(ms) =>
      match FormatAll(Take(Rank(BoostAll(ms, requested)), k))
      case Err(key) => Err(KeyError(key))
      case Ok(recs) => Ok(recs)
  }

  /**
   * `get_recommendations(query, k, test_type)`. `topK` is the `top_k` the
   * index is queried with; `answer` is what that query returns or raises.
   */
  method GetRecommendations(k: int, requested: seq<string>, answer: IndexAnswer)
    returns (r: Result<seq<Recommendation>, Failure>, topK: int)
    ensures topK == FetchSize(k)
    ensures answer.Err? ==> r == Err(IndexFailure(answer.error))
    ensures r.Ok? ==> answer.Ok? && |r.value| <= |answer.value| && (k >= 0 ==> |r.value| <= k)
    ensures r == Recommendations(k, requested, answer)
  {
    topK := FetchSize(k);
    if answer.Err? {
      return Err(IndexFailure(answer.error)), topK;
    }
    var matches := BoostMatches(answer.value, requested);
    var ranked := Rank(matches);
    var formatted := FormatRanked(Take(ranked, k));
    match formatted
    case Err(key) => r := Err(KeyError(key));
    case Ok(recs) => r := Ok(recs);
  }

  /**
   * The result has `min(k, n)` entries for `n` matches and `k >= 0` (Python's
   * slice rules otherwise), so never more than `k` and never more than the
   * index returned.
   */
  lemma ResultLength(k: int, requested: seq<string>, ms: seq<Match>)
    requires Recommendations(k, requested, Ok(ms)).Ok?
    ensures var n := |Recommendations(k, requested, Ok(ms)).value|;
      && n <= |ms|
      && (k >= 0 ==> n == if k < |ms| then k else |ms|)
      && (k < 0 ==> n == if |ms| + k > 0 then |ms| + k else 0)
  {
  }

  /**
   * Entry `i` of the result is the formatted record at position `i` of the
   * ranking of the boosted matches: a non-increasing, stable permutation of them.
   */
  lemma ResultIsRankedPrefix(k: int, requested: seq<string>, ms: seq<Match>)
    requires Recommendations(k, requested, Ok(ms)).Ok?
    ensures var recs := Recommendations(k, requested, Ok(ms)).value;
      var ranked := Rank(BoostAll(ms, requested));
      && |recs| <= |ranked|
      && (forall i :: 0 <= i < |recs| ==> Format(ranked[i].metadata) == Ok(recs[i]))
      && NonIncreasing(ranked)
      && multiset(ranked) == multiset(BoostAll(ms, requested))
      && (forall c :: WithScore(ranked, c) == WithScore(BoostAll(ms, requested), c))
  {
    var ranked := Rank(BoostAll(ms, requested));
    RankPermutes(BoostAll(ms, requested));
    var p := Take(ranked, k);
    assert forall i :: 0 <= i < |p| ==> p[i] == ranked[i];
    forall c
      ensures WithScore(ranked, c) == WithScore(BoostAll(ms, requested), c)
    {
      RankIsStable(BoostAll(ms, requested), c);
    }
  }

  /** For one index answer, asking for fewer results gives a prefix of asking for more. */
  lemma ShorterRequestIsPrefix(k: int, k': int, requested: seq<string>, ms: seq<Match>)
    requires 0 <= k <= k'
    requires Recommendations(k', requested, Ok(ms)).Ok?
    ensures Recommendations(k, requested, Ok(ms)).Ok?
    ensures Recommendations(k, requested, Ok(ms)).value <= Recommendations(k', requested, Ok(ms)).value
  {
    var ranked := Rank(BoostAll(ms, requested));
    var long := Take(ranked, k');
    assert Take(ranked, k) == Take(long, k);
    FormatAllTake(long, k);
  }

  /** When the top-ranked record has no `url`, the call raises KeyError('url'), whatever follows it. */
  lemma MissingUrlRaises(k: int, requested: seq<string>, ms: seq<Match>)
    requires ms != [] && 0 < k
    requires Rank(BoostAll(ms, requested))[0].metadata.url.None?
    ensures Recommendations(k, requested, Ok(ms)) == Err(KeyError("url"))
  {
    var ranked := Rank(BoostAll(ms, requested));
    FormatAllFirstFailure(Take(ranked, k), 0);
  }
}
