/**
 * The Flask back end: the `/recommend` handler and the `/health` liveness
 * check. The JSON body of a request is modelled by its three optional
 * fields, a response by its body and HTTP status code; the index's answer to
 * the one query made is a parameter.
 */
module Backend {

  import opened Wrappers
  import opened Normalizer
  import opened Ranking
  import StreamlitApp

  /** The request body: `query`, `k` and `test_type`, each `None` when absent. */
  datatype Request = Request(query: Option<string>, k: Option<int>, testType: Option<seq<string>>)

  /** The three JSON bodies the back end sends. */
  datatype Body =
    | Recommended(assessments: seq<Recommendation>)  // {"recommended_assessments": [...]}
    | Error(error: string)                           // {"error": ...}
    | Health(status: string)                         // {"status": ...}

  datatype Response = Response(body: Body, status: int)

  const QUERY_REQUIRED := "Query is required"

  /** `data.get("query", "")`. */
  function QueryText(req: Request): string {
    req.query.GetOr("")
  }

  /** `int(data.get("k", 5))`. */
  function Wanted(req: Request): int {
    req.k.GetOr(5)
  }

  /** `data.get("test_type", [])`. */
  function RequestedTags(req: Request): seq<string> {
    req.testType.GetOr([])
  }

  /** The response `recommend` sends when the index answers `answer`. */
  function RecommendResponse(req: Request, answer: IndexAnswer): Response {
    if QueryText(req) == "" then Response(Error(QUERY_REQUIRED), 400)
    else
      match answer
      case Err(msg) => Response(Error(Message(IndexFailure(msg))), 500)
      case Ok(ms) =>
        match FormatAll(Rank(BoostAll(ms, RequestedTags(req))))
        case Err(key) => Response(Error(Message(KeyError(key))), 500)
        case Ok(recs) => Response(Recommended(recs), 200)
  }

  /**
   * `recommend()`. `queried` is the `top_k` the index is queried with, or
   * `None` when the request is rejected before the query is embedded or the
   * index is called.
   */
  method Recommend(req: Request, answer: IndexAnswer) returns (resp: Response, queried: Option<int>)
    ensures queried.None? <==> QueryText(req) == ""
    ensures queried.Some? ==> queried.value == FetchSize(Wanted(req))
    ensures resp == RecommendResponse(req, answer)
  {
    var query := QueryText(req);
    var k := Wanted(req);
    if query == "" {
      return Response(Error(QUERY_REQUIRED), 400), None;
    }
    queried := Some(FetchSize(k));
    if answer.Err? {
      return Response(Error(Message(IndexFailure(answer.error))), 500), queried;
    }
    var matches := BoostMatches(answer.value, RequestedTags(req));
    var ranked := Rank(matches);
    var formatted := FormatRanked(ranked);
    match formatted
    case Err(key) => resp := Response(Error(Message(KeyError(key))), 500);
    case Ok(recs) => resp := Response(Recommended(recs), 200);
  }

  /** `health_check()`: always healthy, whatever the state of the index. */
  function HealthCheck(): (r: Response)
    ensures r.status == 200 && r.body.Health? && r.body.status == "healthy"
  {
    Response(Health("healthy"), 200)
  }

  /** An empty or missing query is answered 400 "Query is required", whatever the index would say. */
  lemma EmptyQueryRejected(req: Request, answer: IndexAnswer)
    requires QueryText(req) == ""
    ensures RecommendResponse(req, answer) == Response(Error(QUERY_REQUIRED), 400)
  {
  }

  /**
   * The status tells the bodies apart: 200 carries recommendations, 400 only
   * the missing query, 500 the message of an exception; no failure is
   * reported as an empty success.
   */
  lemma StatusMatchesBody(req: Request, answer: IndexAnswer)
    ensures var r := RecommendResponse(req, answer);
      && (r.status == 200 || r.status == 400 || r.status == 500)
      && (r.status == 200 <==> r.body.Recommended?)
      && (r.status == 400 <==> QueryText(req) == "")
      && (answer.Err? && QueryText(req) != "" ==> r == Response(Error(answer.error), 500))
  {
  }

  /** A ranked record without `url` (or `name`) turns the whole request into a 500 naming the key. */
  lemma MissingKeyIs500(req: Request, ms: seq<Match>, i: nat)
    requires QueryText(req) != ""
    requires var ranked := Rank(BoostAll(ms, RequestedTags(req)));
      i < |ranked| && Format(ranked[i].metadata).Err?
      && forall j :: 0 <= j < i ==> Format(ranked[j].metadata).Ok?
    ensures var ranked := Rank(BoostAll(ms, RequestedTags(req)));
      RecommendResponse(req, Ok(ms))
        == Response(Error("'" + Format(ranked[i].metadata).error + "'"), 500)
  {
    FormatAllFirstFailure(Rank(BoostAll(ms, RequestedTags(req))), i);
  }

  /**
   * No truncation: a success lists one recommendation per match, in the
   * order of the stable ranking by adjusted score, so it has at most `2k`
   * entries when the index honours `top_k`.
   */
  lemma SuccessListsEveryMatch(req: Request, ms: seq<Match>)
    requires RecommendResponse(req, Ok(ms)).status == 200
    ensures var recs := RecommendResponse(req, Ok(ms)).body.assessments;
      var ranked := Rank(BoostAll(ms, RequestedTags(req)));
      && |recs| == |ms|
      && (|ms| <= FetchSize(Wanted(req)) ==> |recs| <= FetchSize(Wanted(req)))
      && (forall i :: 0 <= i < |recs| ==> Format(ranked[i].metadata) == Ok(recs[i]))
      && NonIncreasing(ranked)
      && (forall c :: WithScore(ranked, c) == WithScore(BoostAll(ms, RequestedTags(req)), c))
  {
    forall c
      ensures WithScore(Rank(BoostAll(ms, RequestedTags(req))), c) == WithScore(BoostAll(ms, RequestedTags(req)), c)
    {
      RankIsStable(BoostAll(ms, RequestedTags(req)), c);
    }
  }

  /**
   * The two variants: for the same index answer and tags, a successful
   * back-end list cut to `k` entries is exactly what the Streamlit front end
   * returns.
   */
  lemma FrontEndIsPrefixOfBackEnd(req: Request, ms: seq<Match>)
    requires RecommendResponse(req, Ok(ms)).status == 200
    ensures StreamlitApp.Recommendations(Wanted(req), RequestedTags(req), Ok(ms))
      == Ok(Take(RecommendResponse(req, Ok(ms)).body.assessments, Wanted(req)))
  {
    FormatAllTake(Rank(BoostAll(ms, RequestedTags(req))), Wanted(req));
  }
}
