# Trieve search: recommendation merge, chat citations and model-server decisions

This project models three pieces of the Trieve search system as pure Dafny
functions and proves properties of them.

1. **The chunk detail page** (`frontend/search/src/components/SingleChunkPage.tsx`).
   - The error shown for the server-side status, 401 or 404.
   - The primary `GET /chunk/{id}` fetch and how its reply changes the page.
   - The display predicates: chunk, error banner, loading placeholder, related chunks.
   - The "Get (More) Related Chunks" flow. It requests `|prev| + 10` recommendations.
     The reply items whose id is already shown are dropped and the rest are appended.
   - Modules `Recommendations` (the list merge) and `ChunkPage` (the view state and its transitions).
2. **A chat turn in the search modal** (`clients/search-component/src/TrieveModal/Chat/ChatMessage.tsx`).
   - The citation-link pipeline:
     - label = `heading || title || page_title`;
     - citations without a label or a link are dropped;
     - labels are deduplicated, keeping the first occurrence.
   - The choice between the `"Loading..."` spinner and the Markdown body.
   - The brand colours of the role tag.
   - The language handed to the syntax highlighter: `split("language")[1] || "bash"`.
   - Module `ChatMessage`.
3. **The model-server operators** (`server/src/operators/model_operator.rs`).
   - Base-URL resolution and the query prefix in `create_embedding`.
   - The empty-message check, the URL and the reply handling in `get_splade_embedding`.
   - In `cross_encoder`:
     - the texts sent to the reranker;
     - the scatter of the returned scores by index;
     - the stable descending sort;
     - the truncation to the page size.
   - Modules `ModelOperator` and `Rerank`.

Supporting modules:
- `Wrappers`: `Option` and `Result`.
- `Seqs`: filtering, order-preserving subsequences, distinct keys.
- `Strings`: substring search, Rust's `contains`, and JavaScript's `split` with a non-empty separator.

Modelling conventions:
- JavaScript `null`/`undefined` is `None`. A string is truthy when it is present and non-empty.
- `response.ok` is a status from 200 to 299.
- The process environment is a map from variable name to value. A variable read with
  `get_env!` must be in the map, because the server panics otherwise. Every
  such read is a precondition of the member that makes it.
- Scores are mathematical reals, so there is no NaN (`partial_cmp(..).unwrap()` would panic on one).
- Rust's `sort_by` is stable. It is modelled by an insertion sort. The project proves that
  every sorted list with the same per-score subsequences is equal to that sort.

## Model

| member | source | states |
|---|---|---|
| Recommendations.RequestLimit | frontend/search/src/components/SingleChunkPage.tsx:135 | the limit asks for exactly ten more chunks than are shown |
| Recommendations.NewItems | frontend/search/src/components/SingleChunkPage.tsx:141-143 | the kept reply items are exactly the reply items whose id is not shown |
| Recommendations.Merge | frontend/search/src/components/SingleChunkPage.tsx:141-148 | the merged list starts with the shown list unchanged; every appended item comes from the reply with an unshown id; every reply item with an unshown id is appended |
| Recommendations.MergeKeepsReplyOrder | frontend/search/src/components/SingleChunkPage.tsx:141-147 | the appended items are an order-preserving subsequence of the reply |
| Recommendations.MergeLength | frontend/search/src/components/SingleChunkPage.tsx:141-147 | merged length = shown length + number of reply positions whose id is not shown |
| Recommendations.MergeDistinct | frontend/search/src/components/SingleChunkPage.tsx:141-147 | the merged list has distinct ids when the shown list and the reply each do |
| Recommendations.MergeIntoEmpty | frontend/search/src/components/SingleChunkPage.tsx:141-147 | with nothing shown the merged list is the reply as it is |
| Recommendations.ReplyDuplicatesSurvive | frontend/search/src/components/SingleChunkPage.tsx:141-143 | an id repeated inside the reply reaches the merged list twice: deduplication is only against the shown list |
| ChunkPage.Init | frontend/search/src/components/SingleChunkPage.tsx:63-70 | status 401 gives the not-authorized message, 404 the not-found message, any other status no error; the page starts fetching with no recommendations |
| ChunkPage.StartPrimaryFetch | frontend/search/src/components/SingleChunkPage.tsx:160-170 | without a dataset nothing changes and nothing is sent; otherwise fetching is raised and `GET /chunk/{id}` (empty id when missing) is sent for that dataset |
| ChunkPage.OnPrimaryResponse | frontend/search/src/components/SingleChunkPage.tsx:171-186 | a 2xx reply installs the chunk and its score-chunk and clears the error; a 404 sets the not-found message; other statuses keep chunk and error; the request always ends |
| ChunkPage.FetchRecommendations | frontend/search/src/components/SingleChunkPage.tsx:118-136 | the loading flag is raised first; a request goes out exactly when a dataset is selected, asking for the given ids with limit shown + 10 |
| ChunkPage.OnGetMoreClick | frontend/search/src/components/SingleChunkPage.tsx:292-297 | only the loading flag changes; a request goes out exactly when a dataset is selected, asking for the shown chunk's id (the empty id when there is none) with limit shown + 10 |
| ChunkPage.OnRecommendResponse | frontend/search/src/components/SingleChunkPage.tsx:137-152 | the loading flag drops whatever the status; a 2xx reply replaces the list by the merge; nothing else changes |
| ChunkPage.ChunkExcludesErrorBanner | frontend/search/src/components/SingleChunkPage.tsx:189-196 | the chunk (needs an empty error) and the error banner (needs a non-empty error) never show together |
| ChunkPage.InitialErrorHidesChunk | frontend/search/src/components/SingleChunkPage.tsx:63-70 | after a 401 or 404 server-side status the chunk is hidden, and a client fetch without a 2xx reply leaves the chunk hidden and the banner shown |
| ChunkPage.SuccessfulFetchShowsChunk | frontend/search/src/components/SingleChunkPage.tsx:171-177 | a 2xx reply shows the chunk and neither the banner nor the loading placeholder |
| ChunkPage.NotFoundHidesChunk | frontend/search/src/components/SingleChunkPage.tsx:179-183 | a 404 reply hides the chunk and shows the not-found banner, even over a chunk already shown |
| ChunkPage.MissingDatasetLeavesLoading | frontend/search/src/components/SingleChunkPage.tsx:122-124 | without a dataset the loading flag is raised and no request is sent to lower it again |
| ChunkPage.GetMoreExtendsList | frontend/search/src/components/SingleChunkPage.tsx:292-297 | clicking the button and receiving a 2xx reply keeps the shown list as a prefix and ends loading |
| ChunkPage.RequestLimitExamples | frontend/search/src/components/SingleChunkPage.tsx:135 | the first request asks for 10 chunks, a request with five shown asks for 15 |
| ChunkPage.ShowsChunk | frontend/search/src/components/SingleChunkPage.tsx:189-196 | `getChunk()` renders the chunk exactly when the error is empty and a chunk is loaded |
| ChunkPage.ShowsErrorBanner | frontend/search/src/components/SingleChunkPage.tsx:237 | the error banner shows exactly when the error is non-empty and the fetch has ended |
| ChunkPage.ShowsLoading | frontend/search/src/components/SingleChunkPage.tsx:242 | the loading placeholder shows exactly when no chunk is loaded and a fetch runs |
| ChunkPage.ShowsGetMoreButton | frontend/search/src/components/SingleChunkPage.tsx:256 | the button needs a loaded chunk |
| ChunkPage.ShowsRecommendations | frontend/search/src/components/SingleChunkPage.tsx:256-257 | the related-chunks list needs a loaded chunk and a non-empty list |
| ChunkPage.GetMoreCaption | frontend/search/src/components/SingleChunkPage.tsx:299-300 | the caption says "Get" on an empty list and "Get More" otherwise |
| ChunkPage.InitialPageShowsLoading | frontend/search/src/components/SingleChunkPage.tsx:39-70 | the page starts on the placeholder exactly when the server sent no chunk, never on the banner, and on the chunk exactly when one was sent with neither 401 nor 404 |
| ChunkPage.CaptionFollowsList | frontend/search/src/components/SingleChunkPage.tsx:256-300 | the list shows only where the button shows, and then exactly when the caption says "Get More"; the caption says "Get" exactly on an empty list |
| ChunkPage.FirstReplyShowsList | frontend/search/src/components/SingleChunkPage.tsx:137-148 | the first 2xx reply with items becomes the whole related list, which then shows, with the caption "Get More" |
| Strings.ContainsIff | server/src/operators/model_operator.rs:38 | `contains` holds exactly when the substring occurs at some position |
| Strings.SplitJoin | clients/search-component/src/TrieveModal/Chat/ChatMessage.tsx:107 | joining the pieces of `split` with the separator gives back the string |
| Strings.SplitPiecesAvoidSeparator | clients/search-component/src/TrieveModal/Chat/ChatMessage.tsx:107 | no piece of `split` contains the separator |
| Strings.Split | clients/search-component/src/TrieveModal/Chat/ChatMessage.tsx:107 | JavaScript `split` with a non-empty string separator always yields at least one piece |
| Strings.Contains | server/src/operators/model_operator.rs:38 | Rust `contains`: the search for the substring from the start succeeds |
| ChatMessage.Or | clients/search-component/src/TrieveModal/Chat/ChatMessage.tsx:124-126 | JavaScript `or` on strings gives `a` when `a` is truthy and `b` otherwise |
| ChatMessage.Label | clients/search-component/src/TrieveModal/Chat/ChatMessage.tsx:130-132 | the label is truthy iff one of heading, title, page title is; it is the first truthy of them |
| ChatMessage.ToLinks | clients/search-component/src/TrieveModal/Chat/ChatMessage.tsx:129-134 | one `[label, link]` pair per kept citation, in order |
| ChatMessage.Entries | clients/search-component/src/TrieveModal/Chat/ChatMessage.tsx:122-134 | every pair after the first filter has a non-empty label and a non-empty link |
| ChatMessage.FirstOfEachLabel | clients/search-component/src/TrieveModal/Chat/ChatMessage.tsx:135-137 | the second filter keeps no more pairs than it reads, and every kept pair has a non-empty label (the `&& v[0]` test) |
| ChatMessage.Links | clients/search-component/src/TrieveModal/Chat/ChatMessage.tsx:121-142 | the shown links have pairwise distinct, non-empty labels |
| ChatMessage.FindIndex | clients/search-component/src/TrieveModal/Chat/ChatMessage.tsx:136 | `findIndex` returns -1 iff no pair has the label, and otherwise the first position that has it |
| ChatMessage.KeptAreFirst | clients/search-component/src/TrieveModal/Chat/ChatMessage.tsx:135-137 | every pair the second filter keeps is the first occurrence of its label |
| ChatMessage.KeptAreDistinct | clients/search-component/src/TrieveModal/Chat/ChatMessage.tsx:135-137 | no two kept pairs share a label |
| ChatMessage.FirstOccurrencesAreKept | clients/search-component/src/TrieveModal/Chat/ChatMessage.tsx:135-137 | every first occurrence of a non-empty label is kept |
| ChatMessage.FirstOfEachLabelIsSubseq | clients/search-component/src/TrieveModal/Chat/ChatMessage.tsx:135-137 | the second filter keeps the order of the pairs |
| ChatMessage.DedupByLabel | clients/search-component/src/TrieveModal/Chat/ChatMessage.tsx:135-137 | the kept pairs are first occurrences with distinct labels, and every non-empty label of the input is represented |
| ChatMessage.LinksAreFirstOccurrences | clients/search-component/src/TrieveModal/Chat/ChatMessage.tsx:121-137 | the shown links have distinct labels, each is the first pair with its label, and every label of a kept citation is shown |
| ChatMessage.LinksKeepOrder | clients/search-component/src/TrieveModal/Chat/ChatMessage.tsx:121-142 | the kept citations are a subsequence of the citations and the links a subsequence of their pairs |
| ChatMessage.SameLabelKeepsFirst | clients/search-component/src/TrieveModal/Chat/ChatMessage.tsx:121-137 | two citations headed "Intro" with different links give one link, to the first |
| ChatMessage.RenderMessage | clients/search-component/src/TrieveModal/Chat/ChatMessage.tsx:84-146 | spinner iff the text is `"Loading..."`; Markdown iff the type is `"system"` and the text is not; the links block iff `additional` is non-null, holding the deduplicated links |
| ChatMessage.SpinnerExcludesMarkdown | clients/search-component/src/TrieveModal/Chat/ChatMessage.tsx:86-91 | spinner and Markdown never show together; a non-system message with ordinary text renders nothing |
| ChatMessage.Tag | clients/search-component/src/TrieveModal/Chat/ChatMessage.tsx:32-36 | background = brand colour + "18" when truthy, else "#CB53EB18"; text colour = brand colour unless missing, so an empty brand colour gives text colour "" |
| ChatMessage.TagBackgroundMatchesText | clients/search-component/src/TrieveModal/Chat/ChatMessage.tsx:33-36 | the background is the text colour plus "18" exactly when the brand colour is not the empty string |
| ChatMessage.RenderChatMessage | clients/search-component/src/TrieveModal/Chat/ChatMessage.tsx:25-72 | a user turn iff the type is `"user"`; the assistant avatar is the brand logo, with the brand name as alt text when it is truthy and "Brand logo" otherwise, when the logo URL is truthy, else the AI icon |
| ChatMessage.UserLoadingTextIsPlain | clients/search-component/src/TrieveModal/Chat/ChatMessage.tsx:25-44 | a user turn with text `"Loading..."` shows the text, not a spinner |
| ChatMessage.CodeLanguage | clients/search-component/src/TrieveModal/Chat/ChatMessage.tsx:98-108 | the language is never empty and is `"bash"` for a missing or empty class name |
| ChatMessage.RenderCode | clients/search-component/src/TrieveModal/Chat/ChatMessage.tsx:95-112 | a code block is rendered iff the children are truthy, with the chosen language |
| ChatMessage.CodeLanguageWithoutMarker | clients/search-component/src/TrieveModal/Chat/ChatMessage.tsx:105-108 | a class name without `"language"` gives `"bash"` |
| ChatMessage.CodeLanguageUpToNextMarker | clients/search-component/src/TrieveModal/Chat/ChatMessage.tsx:107 | the language is the text between the first and the second `"language"`, or `"bash"` when that text is empty |
| ChatMessage.CodeLanguageToEnd | clients/search-component/src/TrieveModal/Chat/ChatMessage.tsx:107 | with one `"language"` the language is the rest of the class name, or `"bash"` when that is empty |
| ChatMessage.CodeLanguageAvoidsMarker | clients/search-component/src/TrieveModal/Chat/ChatMessage.tsx:107 | the chosen language never contains `"language"` |
| ChatMessage.DashIsKept | clients/search-component/src/TrieveModal/Chat/ChatMessage.tsx:107 | the class `language-python` selects the language `-python` |
| ModelOperator.NonEmptyVar | server/src/operators/model_operator.rs:39-41 | a variable is used iff it is set and non-empty |
| ModelOperator.ServerOrigin | server/src/operators/model_operator.rs:39-49 | the dedicated origin when set and non-empty, otherwise `GPU_SERVER_ORIGIN`; always a value of the environment |
| ModelOperator.ServerOriginEmptyIff | server/src/operators/model_operator.rs:39-49 | the origin is empty iff the dedicated variable is unusable and `GPU_SERVER_ORIGIN` is empty |
| ModelOperator.EmbeddingBaseUrl | server/src/operators/model_operator.rs:36-52 | empty config gives the OpenAI URL; a config containing the hosted embedding URL gives the embedding server origin; any other config is kept |
| ModelOperator.EmbeddingBaseUrlEmptyIff | server/src/operators/model_operator.rs:36-52 | the resolved base URL is empty only for a hosted config with no usable origin and an empty GPU origin |
| ModelOperator.EmbeddingInput | server/src/operators/model_operator.rs:61-65 | `"query"` gets the query prefix; every other type, `"doc"` included, sends the message as is |
| ModelOperator.EmbeddingInputEndsWithMessage | server/src/operators/model_operator.rs:61-65 | the message always ends the input, which differs from it iff the type is `"query"` and the prefix is non-empty |
| ModelOperator.CreateEmbeddingCall | server/src/operators/model_operator.rs:33-74 | the client uses the API key, the resolved base URL, `text-embedding-3-small` and the chosen input |
| ModelOperator.EmbeddingResult | server/src/operators/model_operator.rs:76-84 | a failed call is a bad request with the call-failed prefix; the first entry's float vector is returned, a base64 entry gives an empty vector |
| ModelOperator.SpladeCall | server/src/operators/model_operator.rs:105-137 | an empty message is a bad request "Cannot encode empty query"; otherwise the POST goes to origin + `/sparse_encode` with the bearer key, the message and the encode type |
| ModelOperator.EmptyMessageNeedsNoEnvironment | server/src/operators/model_operator.rs:105-109 | the empty-message refusal does not depend on the environment |
| ModelOperator.SpladeUrlShape | server/src/operators/model_operator.rs:111-123 | the sparse URL ends with `/sparse_encode` and starts with a usable `SPARSE_SERVER_ORIGIN` |
| ModelOperator.ReplyError | server/src/operators/model_operator.rs:138-148 | a failed call becomes a bad request with the call-failed prefix before the error text, and an undecodable reply the fixed parse-failed message; `cross_encoder` reports the same two errors at lines 231-241 |
| ModelOperator.SpladeEmbedding | server/src/operators/model_operator.rs:100-151 | an empty message is refused whatever the reply; otherwise the result succeeds exactly when the reply decodes, returning its embeddings unchanged, and a failed reply is exactly its `ReplyError` |
| ModelOperator.SpladeErrorNamesCause | server/src/operators/model_operator.rs:104-148 | the error tells which step failed: the empty-query message exactly for an empty message, the parse-failed message exactly for an undecodable reply, the call-failed prefix exactly for a failed call |
| Rerank.RequestDocs | server/src/operators/model_operator.rs:211-215 | one text per result, in order: the content of its first metadata entry |
| Rerank.CrossEncoderCall | server/src/operators/model_operator.rs:192-230 | no call for empty results; otherwise a POST to origin + `/rerank` with the bearer key, the query, the texts and `truncate: true` |
| Rerank.Rescore | server/src/operators/model_operator.rs:243-247 | rescoring keeps the length and every result's metadata |
| Rerank.RescoreLastWins | server/src/operators/model_operator.rs:245-247 | the last pair naming a position decides its score |
| Rerank.RescoreUntouched | server/src/operators/model_operator.rs:245-247 | a position no pair names keeps its result unchanged |
| Rerank.Insert | server/src/operators/model_operator.rs:249 | inserting into a sorted list keeps it sorted and adds exactly the one element |
| Rerank.SortByScore | server/src/operators/model_operator.rs:249 | the sort returns a permutation sorted by non-increasing score |
| Rerank.InsertStable | server/src/operators/model_operator.rs:249 | insertion keeps the inserted element ahead of the ones it ties with |
| Rerank.SortByScoreStable | server/src/operators/model_operator.rs:249 | for every score, the results with that score keep their original order |
| Rerank.StableSortIsUnique | server/src/operators/model_operator.rs:249 | two sorted lists with the same per-score subsequences are equal |
| Rerank.SortByScoreIsTheStableSort | server/src/operators/model_operator.rs:249 | any sorted, stable reordering of the results equals the modelled sort |
| Rerank.Truncate | server/src/operators/model_operator.rs:251 | the cut keeps the first min(length, page size) results |
| Rerank.TruncateSplits | server/src/operators/model_operator.rs:251 | what the cut keeps and what it drops make up the whole list |
| Rerank.CrossEncoder | server/src/operators/model_operator.rs:207-254 | empty results give an empty list; a failed reply is exactly the error of `ReplyError` (call failed or parse failed); otherwise the page is sorted, has min(results, page size) entries and is drawn from the rescored results |
| Rerank.SortedCutKeepsBest | server/src/operators/model_operator.rs:249-251 | after sorting and cutting, nothing dropped scores higher than anything kept |
| Rerank.CrossEncoderKeepsBest | server/src/operators/model_operator.rs:243-251 | the page is the first part of the stable sort of the rescored results, and no dropped result scores higher than a kept one |
| Rerank.EmptyResultsEmptyPage | server/src/operators/model_operator.rs:207-209 | empty results give an empty page whatever the reply |

## Left out

- Network I/O is not modelled: `fetch`, `ureq` and the `openai_dive` client. The replies are parameters: a status and a decoded body, or a `ServerReply` value.
- JSON decoding is not modelled. A reply that does not parse is one `ServerReply` case.
- The asynchronous ordering of the page's effects is not modelled. In the browser, `fetching` drops before `response.json()` resolves. Each round trip is one request and one state change.
- `fetchChunkGroups` and `fetchBookmarks` are left out. They only fetch and store what the server returns.
- JSX layout, CSS classes, Markdown and syntax-highlighter rendering, the chat portal and the speed dial are left out. They are presentation only.
- The `key`/`idx` props are left out. They are React bookkeeping.
- Sentry spans and logging in the Rust operators are left out. They are observability side effects.
- Rerank.CrossEncoder: scores are reals. The `f32` → `f64` widening is not modelled, and neither is the NaN panic of `partial_cmp(..).unwrap()`.
- ModelOperator.EmbeddingResult: the reply's `f64` values are not narrowed to `f32`, because scores and vectors are reals.
- The error texts are not reproduced exactly: Rust's `{:?}` rendering of a client error is modelled as the error's text after the call-failed prefix.
- `get_env!` panics are not modelled as outcomes. A read variable must be present, as a precondition of the member that reads it. The same holds for out-of-range rescoring indices, an empty metadata list and an empty embeddings reply.
- Rerank.Truncate: the `u64` page size is a natural number, so the `usize` conversion (and its panic on 32-bit targets) is not modelled.
- ModelOperator.SpladeEmbedding: sparse indices are natural numbers and weights are reals, so the `u32` bound and the `f32` precision are not modelled.
- `pdf2md/server/src/routes/create_task.rs` is not part of this model. It builds a record with constant fields before queue and database I/O.
- `server/src/handlers/mod.rs` is not part of this model. It only declares modules.
