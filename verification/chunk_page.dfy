/** The view state of the chunk detail page
    (frontend/search/src/components/SingleChunkPage.tsx): the initial error
    derived from the server-side status, the primary fetch of the chunk, the
    user-triggered recommendation fetch, and the predicates that decide what
    the page shows. Each network round trip is split into the request the
    page issues and the state change its reply causes. */
module ChunkPage {
  import opened Wrappers
  import opened Recommendations

  const NotAuthorizedMessage: string := "You are not authorized to view this chunk."
  const NotFoundMessage: string :=
    "This chunk could not be found. It may be in a different dataset or deleted."

  /** The chunk record shown on the page; `id` is what the page sends back. */
  datatype ChunkMetadata = ChunkMetadata(id: string, content: string)

  /** `{ metadata: [data], score: 0 }`, handed to the chat popup. */
  datatype ScoreChunk = ScoreChunk(metadata: seq<ChunkMetadata>, score: real)

  /** The server-rendered chunk the page starts from (`SingleChunkDTO`). */
  datatype SingleChunk = SingleChunk(metadata: Option<ChunkMetadata>, status: int)

  /** The dataset selected in the context; its id goes in the `TR-Dataset` header. */
  datatype Dataset = Dataset(id: string)

  /** A reply of `fetch`: its status and its decoded JSON body. */
  datatype Response<T> = Response(status: int, body: T) {
    /** `response.ok` holds exactly for the 2xx statuses. */
    predicate Ok() {
      200 <= status <= 299
    }
  }

  /** The requests the page sends. */
  datatype Request =
    | GetChunk(path: string, dataset: string)
    | Recommend(positiveChunkIds: seq<string>, limit: nat, dataset: string)

  /** The signals of the component that the modelled logic reads or writes. */
  datatype PageState = PageState(
    metadata: Option<ChunkMetadata>,
    error: string,
    fetching: bool,
    requestFinished: bool,
    loadingRecommendations: bool,
    recommended: seq<Rec>,
    scoreChunks: seq<ScoreChunk>)

  /** A transition that may also issue a request. */
  datatype Step = Step(state: PageState, request: Option<Request>)

  /** The state right after the component is created: the signals' initial
      values, then the error message chosen from the server-side status. */
  function Init(initial: SingleChunk): (s: PageState)
    ensures s.metadata == initial.metadata
    ensures s.fetching && !s.requestFinished && !s.loadingRecommendations
    ensures s.recommended == [] && s.scoreChunks == []
    ensures initial.status == 401 ==> s.error == NotAuthorizedMessage
    ensures initial.status == 404 ==> s.error == NotFoundMessage
    ensures initial.status != 401 && initial.status != 404 ==> s.error == ""
  {
    var error :=
      if initial.status == 401 then NotAuthorizedMessage
      else if initial.status == 404 then NotFoundMessage
      else "";
    PageState(initial.metadata, error, true, false, false, [], [])
  }

  /** The effect that fetches the chunk: nothing happens without a dataset;
      otherwise `fetching` is raised and `GET /chunk/{id}` is sent, with an
      empty id when the page has none. */
  function StartPrimaryFetch(s: PageState, dataset: Option<Dataset>, chunkId: Option<string>): (r: Step)
    ensures dataset.None? ==> r == Step(s, None)
    ensures dataset.Some? ==> r.state == s.(fetching := true)
    ensures dataset.Some? ==> r.request.Some? && r.request.value.GetChunk?
    ensures dataset.Some? ==> r.request.value.dataset == dataset.value.id
    ensures dataset.Some? && chunkId.Some? ==> r.request.value.path == "/chunk/" + chunkId.value
    ensures dataset.Some? && chunkId.None? ==> r.request.value.path == "/chunk/"
  {
    match dataset
    case None => Step(s, None)
    case Some(d) => Step(s.(fetching := true), Some(GetChunk("/chunk/" + chunkId.GetOr(""), d.id)))
  }

  /** The reply to the chunk fetch. A 2xx reply installs the chunk and clears
      the error; a 404 sets the not-found message; any other status leaves
      chunk and error alone. In every case the request is finished. */
  function OnPrimaryResponse(s: PageState, resp: Response<ChunkMetadata>): (r: PageState)
    ensures !r.fetching && r.requestFinished
    ensures resp.Ok() ==> r.metadata == Some(resp.body) && r.error == ""
    ensures resp.Ok() ==> r.scoreChunks == [ScoreChunk([resp.body], 0.0)]
    ensures resp.status == 404 ==> r.error == NotFoundMessage
    ensures !resp.Ok() ==> r.metadata == s.metadata && r.scoreChunks == s.scoreChunks
    ensures !resp.Ok() && resp.status != 404 ==> r.error == s.error
    ensures r.recommended == s.recommended && r.loadingRecommendations == s.loadingRecommendations
  {
    var loaded :=
      if resp.Ok() then
        s.(metadata := Some(resp.body), scoreChunks := [ScoreChunk([resp.body], 0.0)], error := "")
      else s;
    var checked := if resp.status == 404 then loaded.(error := NotFoundMessage) else loaded;
    checked.(requestFinished := true, fetching := false)
  }

  /** `fetchRecommendations(ids, prev)`: the loading flag is raised first;
      without a dataset nothing is sent, otherwise the request asks for
      `|prev| + 10` chunks similar to `ids`. */
  function FetchRecommendations(s: PageState, dataset: Option<Dataset>, ids: seq<string>, prev: seq<Rec>): (r: Step)
    ensures r.state == s.(loadingRecommendations := true)
    ensures dataset.None? <==> r.request.None?
    ensures dataset.Some? ==> r.request == Some(Recommend(ids, |prev| + 10, dataset.value.id))
  {
    var raised := s.(loadingRecommendations := true);
    match dataset
    case None => Step(raised, None)
    case Some(d) => Step(raised, Some(Recommend(ids, RequestLimit(prev), d.id)))
  }

  /** The "Get (More) Related Chunks" button: recommendations for the shown
      chunk's id (or the empty id), starting from the list currently shown. */
  function OnGetMoreClick(s: PageState, dataset: Option<Dataset>): (r: Step)
    ensures r.state == s.(loadingRecommendations := true)
    ensures dataset.None? <==> r.request.None?
    ensures dataset.Some? && s.metadata.Some? ==>
      r.request == Some(Recommend([s.metadata.value.id], |s.recommended| + 10, dataset.value.id))
    ensures dataset.Some? && s.metadata.None? ==>
      r.request == Some(Recommend([""], |s.recommended| + 10, dataset.value.id))
  {
    var id := match s.metadata
      case Some(m) => m.id
      case None => "";
    FetchRecommendations(s, dataset, [id], s.recommended)
  }

  /** The reply to a recommendation request, merged into `prev` (the list as
      it was when the request was sent). The loading flag drops whether or
      not the reply is a success. */
  function OnRecommendResponse(s: PageState, prev: seq<Rec>, resp: Response<seq<Rec>>): (r: PageState)
    ensures !r.loadingRecommendations
    ensures resp.Ok() ==> r.recommended == Merge(prev, resp.body)
    ensures !resp.Ok() ==> r.recommended == s.recommended
    ensures r.(loadingRecommendations := s.loadingRecommendations, recommended := s.recommended) == s
  {
    var merged := if resp.Ok() then s.(recommended := Merge(prev, resp.body)) else s;
    merged.(loadingRecommendations := false)
  }

  /** `getChunk()` is non-null: no error and a chunk to show. */
  predicate ShowsChunk(s: PageState) {
    |s.error| == 0 && s.metadata.Some?
  }

  /** The red error banner. */
  predicate ShowsErrorBanner(s: PageState) {
    |s.error| > 0 && !s.fetching
  }

  /** The "Loading document chunk..." placeholder. */
  predicate ShowsLoading(s: PageState) {
    s.metadata.None? && s.fetching
  }

  /** The button below the related chunks needs a chunk. */
  predicate ShowsGetMoreButton(s: PageState) {
    s.metadata.Some?
  }

  /** The "Related Chunks" list needs a chunk and at least one recommendation. */
  predicate ShowsRecommendations(s: PageState) {
    s.metadata.Some? && |s.recommended| > 0
  }

  /** The button caption. */
  function GetMoreCaption(s: PageState): string {
    (if |s.recommended| == 0 then "Get" else "Get More") + " Related Chunks"
  }

  /** The chunk and the error banner never show together. */
  lemma ChunkExcludesErrorBanner(s: PageState)
    ensures !(ShowsChunk(s) && ShowsErrorBanner(s))
  {
  }

  /** A 401 or 404 from the server-side fetch hides the chunk, and once the
      client-side fetch ends without a 2xx reply the banner shows. */
  lemma {:induction false} InitialErrorHidesChunk(initial: SingleChunk, resp: Response<ChunkMetadata>)
    requires initial.status == 401 || initial.status == 404
    requires !resp.Ok()
    ensures !ShowsChunk(Init(initial))
    ensures var s := OnPrimaryResponse(Init(initial), resp);
            !ShowsChunk(s) && ShowsErrorBanner(s)
  {
    var s0 := Init(initial);
    assert |s0.error| > 0;
    var s := OnPrimaryResponse(s0, resp);
    assert |s.error| > 0 by {
      if resp.status == 404 {
        assert s.error == NotFoundMessage;
      } else {
        assert s.error == s0.error;
      }
    }
  }

  /** A successful client-side fetch overrides any initial error: the chunk
      shows and neither the banner nor the placeholder does. */
  lemma SuccessfulFetchShowsChunk(s: PageState, resp: Response<ChunkMetadata>)
    requires resp.Ok()
    ensures var r := OnPrimaryResponse(s, resp);
            ShowsChunk(r) && !ShowsErrorBanner(r) && !ShowsLoading(r)
  {
  }

  /** A 404 from the client-side fetch hides the chunk even if one was shown. */
  lemma NotFoundHidesChunk(s: PageState, resp: Response<ChunkMetadata>)
    requires resp.status == 404
    ensures var r := OnPrimaryResponse(s, resp);
            !ShowsChunk(r) && ShowsErrorBanner(r) && r.error == NotFoundMessage
  {
    var r := OnPrimaryResponse(s, resp);
    assert r.error == NotFoundMessage;
    assert |NotFoundMessage| > 0;
  }

  /** Without a dataset the loading flag is raised and, since no request
      goes out, no reply ever lowers it again. */
  lemma MissingDatasetLeavesLoading(s: PageState, ids: seq<string>, prev: seq<Rec>)
    ensures var r := FetchRecommendations(s, None, ids, prev);
            r.state.loadingRecommendations && r.request.None?
  {
  }

  /** Asking for more and receiving a 2xx reply keeps every shown
      recommendation in place and in order. */
  lemma GetMoreExtendsList(s: PageState, d: Dataset, reply: Response<seq<Rec>>)
    requires s.metadata.Some?
    requires reply.Ok()
    ensures var step := OnGetMoreClick(s, Some(d));
            var r := OnRecommendResponse(step.state, s.recommended, reply);
            |r.recommended| >= |s.recommended| && r.recommended[..|s.recommended|] == s.recommended
            && !r.loadingRecommendations
  {
  }

  /** The limits of the first and of a later request: 10 with no chunk shown
      yet, 15 after five. */
  lemma RequestLimitExamples(s: PageState, d: Dataset, five: seq<Rec>)
    requires s.metadata.Some?
    requires |five| == 5
    ensures OnGetMoreClick(s.(recommended := []), Some(d)).request.value.limit == 10
    ensures OnGetMoreClick(s.(recommended := five), Some(d)).request.value.limit == 15
  {
  }

  /** The page starts on the loading placeholder exactly when the server
      sent no chunk, and no banner shows while the first fetch runs. */
  lemma InitialPageShowsLoading(initial: SingleChunk)
    ensures ShowsLoading(Init(initial)) <==> initial.metadata.None?
    ensures !ShowsErrorBanner(Init(initial))
    ensures ShowsChunk(Init(initial)) <==>
      initial.metadata.Some? && initial.status != 401 && initial.status != 404
  {
  }

  /** The list shows only above the button, and then the button says
      "Get More"; the caption says "Get" exactly while the list is empty. */
  lemma CaptionFollowsList(s: PageState)
    ensures ShowsRecommendations(s) ==> ShowsGetMoreButton(s)
    ensures ShowsGetMoreButton(s) ==>
      (ShowsRecommendations(s) <==> GetMoreCaption(s) == "Get More Related Chunks")
    ensures GetMoreCaption(s) == "Get Related Chunks" <==> |s.recommended| == 0
  {
  }

  /** The first successful request with a non-empty reply shows the whole
      reply as the related chunks, and the caption turns to "Get More". */
  lemma FirstReplyShowsList(s: PageState, d: Dataset, reply: Response<seq<Rec>>)
    requires s.metadata.Some? && s.recommended == []
    requires reply.Ok() && |reply.body| > 0
    ensures var step := OnGetMoreClick(s, Some(d));
            var r := OnRecommendResponse(step.state, s.recommended, reply);
            r.recommended == reply.body && ShowsRecommendations(r)
            && GetMoreCaption(r) == "Get More Related Chunks"
  {
    MergeIntoEmpty(reply.body);
    var r := OnRecommendResponse(OnGetMoreClick(s, Some(d)).state, [], reply);
    CaptionFollowsList(r);
  }
}
