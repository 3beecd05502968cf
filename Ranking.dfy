/**
 * The ranking steps both recommendation variants share: the flat tag-overlap
 * boost, Python's stable descending sort by score, the `[:k]` slice, and the
 * formatting of the ranked records, together with what they guarantee.
 */
module Ranking {

  import opened Wrappers
  import opened Normalizer

  /** A `(score, metadata)` pair: one answer of the vector index, or the same pair after boosting. */
  datatype Match = Match(score: real, metadata: Metadata)

  /** What the index query gives back: its matches, or the message of the exception it raised. */
  type IndexAnswer = Result<seq<Match>, string>

  /** Why a recommendation request failed after validation. */
  datatype Failure =
    | IndexFailure(message: string)  // the index query raised
    | KeyError(key: string)          // a ranked record lacks "url" or "name"

  /** `str(e)` of the exception: Python quotes the key of a KeyError. */
  function Message(f: Failure): string {
    match f
    case IndexFailure(msg) => msg
    case KeyError(key) => "'" + key + "'"
  }

  /** The flat amount added to a score when the tags overlap. */
  const BOOST: real := 0.15

  /** `top_k=k*2`: the index is asked for twice the number of wanted results. */
  function FetchSize(k: int): int {
    k * 2
  }

  // ---------------------------------------------------------------------------
  // Boost
  // ---------------------------------------------------------------------------

  /** `any(t in tags for t in requested)`. */
  predicate Overlaps(requested: seq<string>, tags: seq<string>) {
    exists t :: t in requested && t in tags
  }

  /**
   * The adjusted score: the index score plus the boost, added once, exactly
   * when some requested tag is among the record's test types.
   */
  function AdjustedScore(m: Match, requested: seq<string>): (s: real)
    ensures s >= m.score
    ensures s == m.score + BOOST <==> Overlaps(requested, TestTypesOf(m.metadata))
    ensures s == m.score <==> !Overlaps(requested, TestTypesOf(m.metadata))
  {
    if Overlaps(requested, TestTypesOf(m.metadata)) then m.score + BOOST else m.score
  }

  /** Every match with its adjusted score. */
  function BoostAll(ms: seq<Match>, requested: seq<string>): (r: seq<Match>)
    ensures |r| == |ms|
    ensures forall i :: 0 <= i < |ms| ==>
      r[i].metadata == ms[i].metadata && ms[i].score <= r[i].score <= ms[i].score + BOOST
  {
    seq(|ms|, i requires 0 <= i < |ms| => Match(AdjustedScore(ms[i], requested), ms[i].metadata))
  }

  /** With no requested tags nothing is boosted. */
  lemma NoTagsNoBoost(ms: seq<Match>)
    ensures BoostAll(ms, []) == ms
  {
  }

  /**
   * The first loop of both variants: copy each match, adding the boost to
   * its score when its tags overlap the requested ones.
   */
  method BoostMatches(ms: seq<Match>, requested: seq<string>) returns (scored: seq<Match>)
    ensures |scored| == |ms|
    ensures forall i :: 0 <= i < |ms| ==>
      && scored[i].metadata == ms[i].metadata
      && scored[i].score >= ms[i].score
      && (scored[i].score == ms[i].score + BOOST <==> Overlaps(requested, TestTypesOf(ms[i].metadata)))
      && (scored[i].score == ms[i].score <==> !Overlaps(requested, TestTypesOf(ms[i].metadata)))
    ensures scored == BoostAll(ms, requested)
  {
    scored := [];
    for i := 0 to |ms|
      invariant scored == BoostAll(ms[..i], requested)
    {
      var meta := ms[i].metadata;
      var score := ms[i].score;
      if exists t | t in requested :: t in TestTypesOf(meta) {
        score := score + BOOST;
      }
      scored := scored + [Match(score, meta)];
    }
    assert ms[..|ms|] == ms;
  }

  // ---------------------------------------------------------------------------
  // Stable descending sort
  // ---------------------------------------------------------------------------

  /** Scores never increase along `s`. */
  predicate NonIncreasing(s: seq<Match>) {
    forall i, j :: 0 <= i < j < |s| ==> s[i].score >= s[j].score
  }

  /**
   * Inserts `x` into the non-increasing `t` in front of the first element
   * whose score does not exceed its own, so that `x` precedes every element of
   * equal score.
   */
  function Insert(x: Match, t: seq<Match>): (r: seq<Match>)
    requires NonIncreasing(t)
    ensures |r| == |t| + 1
    ensures r[0] == if t == [] || x.score >= t[0].score then x else t[0]
    ensures NonIncreasing(r)
  {
    if t == [] || x.score >= t[0].score then
      assert forall j :: 0 <= j < |t| ==> t[0].score >= t[j].score;
      [x] + t
    else
      var rest := Insert(x, t[1..]);
      assert t == [t[0]] + t[1..];
      assert forall j :: 0 <= j < |rest| ==> rest[0].score >= rest[j].score;
      [t[0]] + rest
  }

  /**
   * `sorted(matches, key=lambda x: x[0], reverse=True)`: a stable sort from
   * the highest score down, written as insertion sort.
   */
  function Rank(s: seq<Match>): (r: seq<Match>)
    ensures NonIncreasing(r)
    ensures |r| == |s|
  {
    if s == [] then [] else Insert(s[0], Rank(s[1..]))
  }

  /** Inserting adds exactly the one element. */
  lemma {:induction false} InsertPermutes(x: Match, t: seq<Match>)
    requires NonIncreasing(t)
    ensures multiset(Insert(x, t)) == multiset(t) + multiset{x}
  {
    if t != [] && x.score < t[0].score {
      var tail := t[1..];
      NonIncreasingTail(t);
      calc {
        multiset(Insert(x, t));
        multiset([t[0]] + Insert(x, tail));
        multiset{t[0]} + multiset(Insert(x, tail));
        { InsertPermutes(x, tail); }
        multiset{t[0]} + multiset(tail) + multiset{x};
        { assert t == [t[0]] + tail; }
        multiset(t) + multiset{x};
      }
    } else {
      assert Insert(x, t) == [x] + t;
    }
  }

  /** The ranking is a permutation of its input. */
  lemma {:induction false} RankPermutes(s: seq<Match>)
    ensures multiset(Rank(s)) == multiset(s)
  {
    if s != [] {
      var tail := s[1..];
      calc {
        multiset(Rank(s));
        multiset(Insert(s[0], Rank(tail)));
        { InsertPermutes(s[0], Rank(tail)); }
        multiset(Rank(tail)) + multiset{s[0]};
        { RankPermutes(tail); }
        multiset(tail) + multiset{s[0]};
        { assert s == [s[0]] + tail; }
        multiset(s);
      }
    }
  }

  /**
   * The boost can reorder: a record at 0.6 whose test types overlap the
   * request ends at 0.75 and is ranked before one at 0.7 that does not overlap.
   */
  lemma BoostOvertakes(hi: Metadata, lo: Metadata, requested: seq<string>)
    requires !Overlaps(requested, TestTypesOf(hi)) && Overlaps(requested, TestTypesOf(lo))
    ensures Rank(BoostAll([Match(0.7, hi), Match(0.6, lo)], requested)) == [Match(0.75, lo), Match(0.7, hi)]
  {
    var b := BoostAll([Match(0.7, hi), Match(0.6, lo)], requested);
    assert b == [Match(0.7, hi), Match(0.75, lo)];
    assert b[1..] == [Match(0.75, lo)];
    assert Rank(b[1..]) == [Match(0.75, lo)] by {
      assert b[1..][1..] == [];
    }
    assert Insert(Match(0.7, hi), [Match(0.75, lo)]) == [Match(0.75, lo), Match(0.7, hi)] by {
      assert [Match(0.75, lo)][1..] == [];
    }
  }

  /** The elements of `s` whose score is `c`, in their order in `s`. */
  function WithScore(s: seq<Match>, c: real): seq<Match> {
    if s == [] then [] else (if s[0].score == c then [s[0]] else []) + WithScore(s[1..], c)
  }

  lemma {:induction false} WithScoreAppend(a: seq<Match>, b: seq<Match>, c: real)
    ensures WithScore(a + b, c) == WithScore(a, c) + WithScore(b, c)
  {
    if a != [] {
      assert (a + b)[1..] == a[1..] + b;
      WithScoreAppend(a[1..], b, c);
    } else {
      assert a + b == b;
    }
  }

  lemma WithScoreSingle(y: Match, c: real)
    ensures WithScore([y], c) == if y.score == c then [y] else []
  {
    assert [y][1..] == [];
  }

  lemma {:induction false} InsertKeepsTies(x: Match, t: seq<Match>, c: real)
    requires NonIncreasing(t)
    ensures WithScore(Insert(x, t), c) == WithScore([x] + t, c)
  {
    if t != [] && x.score < t[0].score {
      var y, rest := t[0], t[1..];
      assert t == [y] + rest;
      var inserted := Insert(x, rest);
      WithScoreSingle(x, c);
      WithScoreSingle(y, c);
      calc {
        WithScore(Insert(x, t), c);
        WithScore([y] + inserted, c);
        { WithScoreAppend([y], inserted, c); }
        WithScore([y], c) + WithScore(inserted, c);
        { InsertKeepsTies(x, rest, c); WithScoreAppend([x], rest, c); }
        WithScore([y], c) + (WithScore([x], c) + WithScore(rest, c));
        // x and y have different scores, so at most one of them has score c
        WithScore([x], c) + (WithScore([y], c) + WithScore(rest, c));
        { WithScoreAppend([y], rest, c); }
        WithScore([x], c) + WithScore(t, c);
        { WithScoreAppend([x], t, c); }
        WithScore([x] + t, c);
      }
    }
  }

  /**
   * Stability: for every score, the matches with that score appear in the
   * ranking in the order the index returned them.
   */
  lemma {:induction false} RankIsStable(s: seq<Match>, c: real)
    ensures WithScore(Rank(s), c) == WithScore(s, c)
  {
    if s != [] {
      RankIsStable(s[1..], c);
      InsertKeepsTies(s[0], Rank(s[1..]), c);
      WithScoreAppend([s[0]], Rank(s[1..]), c);
      WithScoreAppend([s[0]], s[1..], c);
      assert s == [s[0]] + s[1..];
    }
  }

  lemma {:induction false} WithScoreHasScore(s: seq<Match>, c: real)
    requires WithScore(s, c) != []
    ensures exists i :: 0 <= i < |s| && s[i].score == c
  {
    if s[0].score != c {
      WithScoreHasScore(s[1..], c);
      var i :| 0 <= i < |s[1..]| && s[1..][i].score == c;
      assert s[i + 1] == s[1..][i];
    }
  }

  /**
   * The ranking is the only arrangement with both properties: any
   * non-increasing sequence that keeps ties in their original order for every
   * score is equal to it.
   */
  lemma {:induction false} SortedWithSameTiesAreEqual(a: seq<Match>, b: seq<Match>)
    requires NonIncreasing(a) && NonIncreasing(b)
    requires forall c :: WithScore(a, c) == WithScore(b, c)
    ensures a == b
  {
    SameTiesBothEmpty(a, b);
    if a != [] {
      SameTiesSameHead(a, b);
      SameTiesSameTailTies(a, b);
      NonIncreasingTail(a);
      NonIncreasingTail(b);
      SortedWithSameTiesAreEqual(a[1..], b[1..]);
      assert a == [a[0]] + a[1..];
      assert b == [b[0]] + b[1..];
    }
  }

  /** If one of two lists with the same ties is empty so is the other: its first score has a tie. */
  lemma SameTiesBothEmpty(a: seq<Match>, b: seq<Match>)
    requires forall c :: WithScore(a, c) == WithScore(b, c)
    ensures a == [] <==> b == []
  {
    assert a != [] ==> WithScore(a, a[0].score) != [];
    assert b != [] ==> WithScore(b, b[0].score) != [];
  }

  /** Two non-empty non-increasing lists with the same ties start with the same element. */
  lemma SameTiesSameHead(a: seq<Match>, b: seq<Match>)
    requires a != [] && b != []
    requires NonIncreasing(a) && NonIncreasing(b)
    requires forall c :: WithScore(a, c) == WithScore(b, c)
    ensures a[0] == b[0]
  {
    var m := a[0].score;
    assert WithScore(b, m) != [] by { assert WithScore(a, m) != []; }
    WithScoreHasScore(b, m);
    var i :| 0 <= i < |b| && b[i].score == m;
    assert b[0].score >= m by { assert i == 0 || b[0].score >= b[i].score; }
    assert WithScore(a, b[0].score) != [] by { assert WithScore(b, b[0].score) != []; }
    WithScoreHasScore(a, b[0].score);
    var j :| 0 <= j < |a| && a[j].score == b[0].score;
    assert m >= b[0].score by { assert j == 0 || a[0].score >= a[j].score; }
    assert WithScore(a, m) == [a[0]] + WithScore(a[1..], m);
    assert WithScore(b, m) == [b[0]] + WithScore(b[1..], m);
    assert WithScore(a, m)[0] == a[0];
    assert WithScore(b, m)[0] == b[0];
  }

  /** The tail of a non-increasing list is non-increasing. */
  lemma NonIncreasingTail(s: seq<Match>)
    requires s != [] && NonIncreasing(s)
    ensures NonIncreasing(s[1..])
  {
    assert forall i :: 0 <= i < |s| - 1 ==> s[1..][i] == s[i + 1];
  }

  /** Lists with the same ties and the same head have tails with the same ties. */
  lemma SameTiesSameTailTies(a: seq<Match>, b: seq<Match>)
    requires a != [] && b != [] && a[0] == b[0]
    requires forall c :: WithScore(a, c) == WithScore(b, c)
    ensures forall c :: WithScore(a[1..], c) == WithScore(b[1..], c)
  {
    forall c
      ensures WithScore(a[1..], c) == WithScore(b[1..], c)
    {
      assert WithScore(a, c) == WithScore(b, c);
      var x := WithScore(a[1..], c);
      var y := WithScore(b[1..], c);
      if a[0].score == c {
        assert WithScore(a, c) == [a[0]] + x;
        assert WithScore(b, c) == [a[0]] + y;
        assert ([a[0]] + x)[1..] == x;
        assert ([a[0]] + y)[1..] == y;
      } else {
        assert WithScore(a, c) == x;
        assert WithScore(b, c) == y;
      }
    }
  }

  /** Whatever a stable descending sort of `s` returns is `Rank(s)`. */
  lemma RankIsTheStableSort(s: seq<Match>, r: seq<Match>)
    requires NonIncreasing(r)
    requires forall c :: WithScore(r, c) == WithScore(s, c)
    ensures r == Rank(s)
  {
    forall c
      ensures WithScore(r, c) == WithScore(Rank(s), c)
    {
      RankIsStable(s, c);
    }
    SortedWithSameTiesAreEqual(r, Rank(s));
  }

  // ---------------------------------------------------------------------------
  // Slicing
  // ---------------------------------------------------------------------------

  /** Python's `xs[:k]`, negative `k` included (it then drops the last `-k` elements). */
  function Take<T>(xs: seq<T>, k: int): (r: seq<T>)
    ensures r <= xs
    ensures k >= 0 ==> |r| == if k < |xs| then k else |xs|
    ensures k < 0 ==> |r| == if |xs| + k > 0 then |xs| + k else 0
  {
    var n := if k >= 0 then (if k < |xs| then k else |xs|)
             else (if |xs| + k > 0 then |xs| + k else 0);
    xs[..n]
  }

  // ---------------------------------------------------------------------------
  // Formatting
  // ---------------------------------------------------------------------------

  /**
   * The second loop of both variants: format the records in order; the first
   * record lacking "url" or "name" aborts the whole list with its key.
   */
  function FormatAll(xs: seq<Match>): (r: Result<seq<Recommendation>, string>)
    ensures r.Ok? ==> |r.value| == |xs| && forall i :: 0 <= i < |xs| ==> Format(xs[i].metadata) == Ok(r.value[i])
    ensures r.Err? <==> exists i :: 0 <= i < |xs| && Format(xs[i].metadata).Err?
    ensures r.Err? ==> exists i :: (0 <= i < |xs| && Format(xs[i].metadata) == Err(r.error)
      && forall j :: 0 <= j < i ==> Format(xs[j].metadata).Ok?)
  {
    if xs == [] then Ok([])
    else
      var init := xs[..|xs| - 1];
      assert forall i :: 0 <= i < |init| ==> init[i] == xs[i];
      match FormatAll(init)
      case Err(e) => Err(e)
      case Ok(recs) =>
        match Format(xs[|xs| - 1].metadata)
        case Err(e) =>
          assert forall j :: 0 <= j < |xs| - 1 ==> Format(xs[j].metadata).Ok?;
          Err(e)
        case Ok(rec) =>
          assert forall i :: 0 <= i < |init| ==> (recs + [rec])[i] == recs[i];
          Ok(recs + [rec])
  }

  /** The list fails with the key of its first failing record. */
  lemma {:induction false} FormatAllFirstFailure(xs: seq<Match>, i: nat)
    requires i < |xs|
    requires forall j :: 0 <= j < i ==> Format(xs[j].metadata).Ok?
    requires Format(xs[i].metadata).Err?
    ensures FormatAll(xs) == Err(Format(xs[i].metadata).error)
  {
    var init := xs[..|xs| - 1];
    assert forall j :: 0 <= j < |init| ==> init[j] == xs[j];
    if i == |xs| - 1 {
      assert FormatAll(init).Ok?;
    } else {
      FormatAllFirstFailure(init, i);
    }
  }

  /** Formatting a prefix of a list that formats gives the same prefix of the output. */
  lemma FormatAllTake(xs: seq<Match>, k: int)
    requires FormatAll(xs).Ok?
    ensures FormatAll(Take(xs, k)) == Ok(Take(FormatAll(xs).value, k))
  {
    var p := Take(xs, k);
    var v := FormatAll(xs).value;
    assert forall i :: 0 <= i < |p| ==> p[i] == xs[i];
    var r := FormatAll(p);
    assert r.Ok?;
    assert r.value == Take(v, k);
  }

  /** The formatting loop, run over the ranked records with an early exit on the first KeyError. */
  method FormatRanked(ranked: seq<Match>) returns (r: Result<seq<Recommendation>, string>)
    ensures r.Ok? ==> |r.value| == |ranked|
    ensures r == FormatAll(ranked)
  {
    var recs: seq<Recommendation> := [];
    for i := 0 to |ranked|
      invariant |recs| == i
      invariant forall j :: 0 <= j < i ==> Format(ranked[j].metadata) == Ok(recs[j])
    {
      var f := Format(ranked[i].metadata);
      if f.Err? {
        FormatAllFirstFailure(ranked, i);
        return Err(f.error);
      }
      recs := recs + [f.value];
    }
    r := Ok(recs);
    var all := FormatAll(ranked);
    assert all.Ok?;
    assert all.value == recs;
  }
}
