/** `cross_encoder` (server/src/operators/model_operator.rs): the texts sent
    to the reranker, and how its scores reorder the results. The scores
    overwrite the results' scores by index, the results are sorted by
    descending score keeping equal scores in their order (`sort_by` is
    stable), and the list is cut to the page size. Scores are reals: the
    reply has no NaN. */
module Rerank {
  import opened Wrappers
  import opened ModelOperator

  const RerankPath: string := "/rerank"

  /** A piece of a chunk; the reranker reads its `content`. */
  datatype ChunkMetadata = ChunkMetadata(id: string, content: string)

  /** A search result (`ScoreChunkDTO`). */
  datatype ScoreChunk = ScoreChunk(metadata: seq<ChunkMetadata>, score: real)

  /** One entry of the reranker's reply: a position in the results and its new score. */
  datatype ScorePair = ScorePair(index: nat, score: real)

  /** The JSON body of the rerank request. */
  datatype CrossEncoderData = CrossEncoderData(query: string, texts: seq<string>, truncate: bool)

  datatype RerankCall = RerankCall(url: string, authorization: string, body: CrossEncoderData)

  /** The reranker's reply, whose decoded body is the list of score pairs. */
  type Reply = ServerReply<seq<ScorePair>>

  /** Every result has at least one metadata entry (`metadata[0]` panics otherwise). */
  predicate HasContent(results: seq<ScoreChunk>) {
    forall i :: 0 <= i < |results| ==> |results[i].metadata| > 0
  }

  /** `request_docs`: the content of each result's first metadata entry. */
  function RequestDocs(results: seq<ScoreChunk>): (docs: seq<string>)
    requires HasContent(results)
    ensures |docs| == |results|
    ensures forall i :: 0 <= i < |results| ==> docs[i] == results[i].metadata[0].content
  {
    if |results| == 0 then [] else [results[0].metadata[0].content] + RequestDocs(results[1..])
  }

  /** The request `cross_encoder` sends, or none for empty results. The
      origin is resolved before the emptiness test, so it must be
      resolvable in every case. */
  function CrossEncoderCall(query: string, results: seq<ScoreChunk>, env: Env): (r: Option<RerankCall>)
    requires OriginResolvable(env, RerankerServerOriginVar)
    requires |results| > 0 ==> OpenAiApiKeyVar in env && HasContent(results)
    ensures r.None? <==> |results| == 0
    ensures r.Some? ==>
      r.value.url == ServerOrigin(env, RerankerServerOriginVar) + RerankPath
      && r.value.authorization == "Bearer " + env[OpenAiApiKeyVar]
      && r.value.body == CrossEncoderData(query, RequestDocs(results), true)
  {
    var url := ServerOrigin(env, RerankerServerOriginVar) + RerankPath;
    if |results| == 0 then None
    else Some(RerankCall(url, "Bearer " + env[OpenAiApiKeyVar], CrossEncoderData(query, RequestDocs(results), true)))
  }

  // ---------------------------------------------------------------------------
  // Rescoring

  /** Every pair names a position of the results (`index_mut` panics otherwise). */
  predicate IndicesInRange(pairs: seq<ScorePair>, n: nat) {
    forall k :: 0 <= k < |pairs| ==> pairs[k].index < n
  }

  /** `results.index_mut(pair.index).score = pair.score`. */
  function SetScore(results: seq<ScoreChunk>, pair: ScorePair): seq<ScoreChunk>
    requires pair.index < |results|
  {
    results[pair.index := results[pair.index].(score := pair.score)]
  }

  /** The pairs applied in order, first to last. */
  function Rescore(results: seq<ScoreChunk>, pairs: seq<ScorePair>): (r: seq<ScoreChunk>)
    requires IndicesInRange(pairs, |results|)
    ensures |r| == |results|
    ensures forall i :: 0 <= i < |results| ==> r[i].metadata == results[i].metadata
    decreases |pairs|
  {
    if |pairs| == 0 then results
    else SetScore(Rescore(results, pairs[..|pairs| - 1]), pairs[|pairs| - 1])
  }

  /** The last pair naming a position decides its score. */
  lemma {:induction false} RescoreLastWins(results: seq<ScoreChunk>, pairs: seq<ScorePair>, k: nat)
    requires IndicesInRange(pairs, |results|)
    requires k < |pairs|
    requires forall k' :: k < k' < |pairs| ==> pairs[k'].index != pairs[k].index
    ensures Rescore(results, pairs)[pairs[k].index].score == pairs[k].score
    decreases |pairs|
  {
    var n := |pairs| - 1;
    if k < n {
      var init := pairs[..n];
      assert init[k] == pairs[k];
      RescoreLastWins(results, init, k);
    }
  }

  /** A position no pair names keeps its result unchanged. */
  lemma {:induction false} RescoreUntouched(results: seq<ScoreChunk>, pairs: seq<ScorePair>, i: nat)
    requires IndicesInRange(pairs, |results|)
    requires i < |results|
    requires forall k :: 0 <= k < |pairs| ==> pairs[k].index != i
    ensures Rescore(results, pairs)[i] == results[i]
    decreases |pairs|
  {
    if |pairs| > 0 {
      RescoreUntouched(results, pairs[..|pairs| - 1], i);
    }
  }

  // ---------------------------------------------------------------------------
  // Stable sort by descending score

  predicate SortedByScore(s: seq<ScoreChunk>) {
    forall i, j :: 0 <= i < j < |s| ==> s[i].score >= s[j].score
  }

  /** The results scoring exactly `v`, in their order. */
  function WithScore(s: seq<ScoreChunk>, v: real): seq<ScoreChunk> {
    if |s| == 0 then []
    else (if s[0].score == v then [s[0]] else []) + WithScore(s[1..], v)
  }

  /** Places `x` before the first element that does not score higher, so
      that `x` stays ahead of the elements it ties with. */
  function Insert(x: ScoreChunk, s: seq<ScoreChunk>): (r: seq<ScoreChunk>)
    requires SortedByScore(s)
    ensures SortedByScore(r)
    ensures |r| == |s| + 1
    ensures multiset(r) == multiset(s) + multiset{x}
    ensures r[0] == x || (|s| > 0 && r[0] == s[0])
  {
    if |s| == 0 || s[0].score <= x.score then [x] + s
    else
      assert s == [s[0]] + s[1..];
      [s[0]] + Insert(x, s[1..])
  }

  /** `sort_by(|a, b| b.score.partial_cmp(&a.score))`, as an insertion sort. */
  function SortByScore(s: seq<ScoreChunk>): (r: seq<ScoreChunk>)
    ensures SortedByScore(r)
    ensures |r| == |s|
    ensures multiset(r) == multiset(s)
  {
    if |s| == 0 then []
    else
      assert s == [s[0]] + s[1..];
      Insert(s[0], SortByScore(s[1..]))
  }

  /** `WithScore` of a sequence with a given first element. */
  lemma WithScoreCons(x: ScoreChunk, s: seq<ScoreChunk>, v: real)
    ensures WithScore([x] + s, v) == (if x.score == v then [x] else []) + WithScore(s, v)
  {
    assert ([x] + s)[1..] == s;
  }

  /** `WithScore` holds exactly the elements with score `v`. */
  lemma {:induction false} WithScoreMembers(s: seq<ScoreChunk>, v: real, x: ScoreChunk)
    ensures x in WithScore(s, v) <==> x in s && x.score == v
    decreases |s|
  {
    if |s| > 0 {
      WithScoreMembers(s[1..], v, x);
      assert s == [s[0]] + s[1..];
    }
  }

  /** Past a higher-scored first element, insertion goes into the rest. */
  lemma InsertPast(x: ScoreChunk, s: seq<ScoreChunk>)
    requires SortedByScore(s)
    requires |s| > 0 && s[0].score > x.score
    ensures SortedByScore(s[1..])
    ensures Insert(x, s) == [s[0]] + Insert(x, s[1..])
  {
  }

  /** Inserting keeps the order among equal scores: `x` comes first. */
  lemma {:induction false} InsertStable(x: ScoreChunk, s: seq<ScoreChunk>, v: real)
    requires SortedByScore(s)
    ensures WithScore(Insert(x, s), v) == WithScore([x] + s, v)
    decreases |s|
  {
    if |s| > 0 && s[0].score > x.score {
      var rest := s[1..];
      InsertPast(x, s);
      var hx: seq<ScoreChunk> := if x.score == v then [x] else [];
      var hs: seq<ScoreChunk> := if s[0].score == v then [s[0]] else [];
      assert hs + hx == hx + hs by {
        assert hs == [] || hx == [];
      }
      calc {
        WithScore(Insert(x, s), v);
        WithScore([s[0]] + Insert(x, rest), v);
        { WithScoreCons(s[0], Insert(x, rest), v); }
        hs + WithScore(Insert(x, rest), v);
        { InsertStable(x, rest, v); }
        hs + WithScore([x] + rest, v);
        { WithScoreCons(x, rest, v); }
        hs + (hx + WithScore(rest, v));
        hx + (hs + WithScore(rest, v));
        { WithScoreCons(s[0], rest, v); assert s == [s[0]] + rest; }
        hx + WithScore(s, v);
        { WithScoreCons(x, s, v); }
        WithScore([x] + s, v);
      }
    }
  }

  /** The sort is stable: for every score, the results with that score keep
      their relative order. */
  lemma {:induction false} SortByScoreStable(s: seq<ScoreChunk>, v: real)
    ensures WithScore(SortByScore(s), v) == WithScore(s, v)
    decreases |s|
  {
    if |s| > 0 {
      var rest := s[1..];
      assert s == [s[0]] + rest;
      SortByScoreStable(rest, v);
      InsertStable(s[0], SortByScore(rest), v);
      WithScoreCons(s[0], SortByScore(rest), v);
      WithScoreCons(s[0], rest, v);
    }
  }

  /** In a sorted sequence the first element scores highest. */
  lemma SortedHeadIsMax(a: seq<ScoreChunk>, x: ScoreChunk)
    requires SortedByScore(a)
    requires x in a
    ensures x.score <= a[0].score
  {
    var i :| 0 <= i < |a| && a[i] == x;
    if i > 0 {
      assert a[0].score >= a[i].score;
    }
  }

  /** Two sorted sequences with the same per-score subsequences start with
      the same score. */
  lemma SameTopScore(a: seq<ScoreChunk>, b: seq<ScoreChunk>)
    requires SortedByScore(a) && SortedByScore(b)
    requires |a| > 0 && |b| > 0
    requires forall v :: WithScore(a, v) == WithScore(b, v)
    ensures a[0].score == b[0].score
  {
    var v, w := a[0].score, b[0].score;
    WithScoreMembers(b, w, b[0]);
    WithScoreMembers(a, w, b[0]);
    SortedHeadIsMax(a, b[0]);
    WithScoreMembers(a, v, a[0]);
    WithScoreMembers(b, v, a[0]);
    SortedHeadIsMax(b, a[0]);
  }

  /** A sorted sequence is determined by its per-score subsequences: any
      stable descending sort, whatever its algorithm, gives the same list. */
  lemma {:induction false} StableSortIsUnique(a: seq<ScoreChunk>, b: seq<ScoreChunk>)
    requires SortedByScore(a) && SortedByScore(b)
    requires forall v :: WithScore(a, v) == WithScore(b, v)
    ensures a == b
    decreases |a|
  {
    if |a| == 0 && |b| > 0 {
      var w := b[0].score;
      WithScoreMembers(b, w, b[0]);
      assert false;
    } else if |a| > 0 && |b| == 0 {
      var v := a[0].score;
      WithScoreMembers(a, v, a[0]);
      assert false;
    } else if |a| > 0 {
      SameTopScore(a, b);
      var a', b' := a[1..], b[1..];
      assert a == [a[0]] + a' && b == [b[0]] + b';
      var v := a[0].score;
      WithScoreCons(a[0], a', v);
      WithScoreCons(b[0], b', v);
      assert WithScore(a, v)[0] == a[0];
      assert WithScore(b, v)[0] == b[0];
      assert a[0] == b[0];
      forall u: real
        ensures WithScore(a', u) == WithScore(b', u)
      {
        WithScoreCons(a[0], a', u);
        WithScoreCons(b[0], b', u);
        var h: seq<ScoreChunk> := if a[0].score == u then [a[0]] else [];
        assert WithScore(a, u) == h + WithScore(a', u);
        assert WithScore(b, u) == h + WithScore(b', u);
        assert (h + WithScore(a', u))[|h|..] == WithScore(a', u);
        assert (h + WithScore(b', u))[|h|..] == WithScore(b', u);
      }
      assert SortedByScore(a') && SortedByScore(b');
      StableSortIsUnique(a', b');
    }
  }

  /** Any sorted, stable reordering of `s` is `SortByScore(s)`. */
  lemma SortByScoreIsTheStableSort(s: seq<ScoreChunk>, out: seq<ScoreChunk>)
    requires SortedByScore(out)
    requires forall v :: WithScore(out, v) == WithScore(s, v)
    ensures out == SortByScore(s)
  {
    forall v ensures WithScore(out, v) == WithScore(SortByScore(s), v) {
      SortByScoreStable(s, v);
    }
    StableSortIsUnique(out, SortByScore(s));
  }

  // ---------------------------------------------------------------------------
  // cross_encoder

  function Min(a: nat, b: nat): nat {
    if a <= b then a else b
  }

  /** `results.truncate(page_size)`. */
  function Truncate(s: seq<ScoreChunk>, pageSize: nat): (r: seq<ScoreChunk>)
    ensures |r| == Min(|s|, pageSize)
    ensures r == s[..|r|]
  {
    if |s| <= pageSize then s else s[..pageSize]
  }

  /** What the cut drops and what it keeps make up the whole sequence. */
  lemma TruncateSplits(s: seq<ScoreChunk>, pageSize: nat)
    ensures var page := Truncate(s, pageSize);
      multiset(page) + multiset(s[|page|..]) == multiset(s)
  {
    var page := Truncate(s, pageSize);
    assert s == page + s[|page|..];
  }

  /** The outcome of `cross_encoder` once the reranker has replied (the
      reply is ignored for empty results, where no call is made). */
  function CrossEncoder(pageSize: nat, results: seq<ScoreChunk>, reply: Reply): (r: Result<seq<ScoreChunk>, ServiceError>)
    requires |results| > 0 && reply.Received? ==> IndicesInRange(reply.body, |results|)
    ensures |results| == 0 ==> r == Success([])
    ensures |results| > 0 ==> (r.Failure? <==> !reply.Received?)
    ensures |results| > 0 && !reply.Received? ==> r == Failure(ReplyError(reply))
    ensures r.Success? && |results| > 0 ==>
      |r.value| == Min(|results|, pageSize)
      && SortedByScore(r.value)
      && multiset(r.value) <= multiset(Rescore(results, reply.body))
  {
    if |results| == 0 then Success([])
    else if !reply.Received? then Failure(ReplyError(reply))
    else
      var sorted := SortByScore(Rescore(results, reply.body));
      var page := Truncate(sorted, pageSize);
      assert sorted == page + sorted[|page|..];
      Success(page)
  }

  /** Cutting a sorted sequence leaves nothing behind that scores higher
      than something kept. */
  lemma SortedCutKeepsBest(sorted: seq<ScoreChunk>, m: nat)
    requires SortedByScore(sorted)
    requires m <= |sorted|
    ensures forall x, y :: x in sorted[m..] && y in sorted[..m] ==> x.score <= y.score
  {
    forall x, y | x in sorted[m..] && y in sorted[..m]
      ensures x.score <= y.score
    {
      var j :| 0 <= j < |sorted| - m && sorted[m..][j] == x;
      var i :| 0 <= i < m && sorted[..m][i] == y;
      assert sorted[i] == y && sorted[m + j] == x;
    }
  }

  /** The page holds the best-scored results: it is the first part of the
      stable sort of the rescored results, the part left out completes it to
      all the rescored results, and nothing left out scores higher than
      anything kept. */
  lemma CrossEncoderKeepsBest(pageSize: nat, results: seq<ScoreChunk>, pairs: seq<ScorePair>)
    requires |results| > 0
    requires IndicesInRange(pairs, |results|)
    ensures var page := CrossEncoder(pageSize, results, Received(pairs)).value;
      var sorted := SortByScore(Rescore(results, pairs));
      page == sorted[..|page|]
      && multiset(page) + multiset(sorted[|page|..]) == multiset(Rescore(results, pairs))
      && forall x, y :: x in sorted[|page|..] && y in page ==> x.score <= y.score
  {
    var rescored := Rescore(results, pairs);
    var sorted := SortByScore(rescored);
    var page := Truncate(sorted, pageSize);
    assert CrossEncoder(pageSize, results, Received(pairs)).value == page;
    TruncateSplits(sorted, pageSize);
    SortedCutKeepsBest(sorted, |page|);
  }

  /** Empty results give an empty page without consulting the reply. */
  lemma EmptyResultsEmptyPage(pageSize: nat, reply: Reply)
    ensures CrossEncoder(pageSize, [], reply) == Success([])
  {
  }
}
