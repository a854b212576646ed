/** The decisions the embedding operators make before and after calling an
    embedding server (server/src/operators/model_operator.rs): which server
    to call, what text to send, and how the reply becomes a vector or an
    error. The process environment is a map; a variable read with `get_env!`
    must be present, which the callers must guarantee. */
module ModelOperator {
  import opened Wrappers
  import opened Strings

  /** The process environment: variable name to value. */
  type Env = map<string, string>

  const OpenAiBaseUrl: string := "https://api.openai.com/v1"
  /** A configured base URL containing this is served by the deployment's own GPU server. */
  const HostedEmbeddingUrl: string := "https://embedding.trieve.ai"
  const EmbeddingModel: string := "text-embedding-3-small"
  const SparseEncodePath: string := "/sparse_encode"

  const OpenAiApiKeyVar: string := "OPENAI_API_KEY"
  const GpuServerOriginVar: string := "GPU_SERVER_ORIGIN"
  const EmbeddingServerOriginVar: string := "EMBEDDING_SERVER_ORIGIN"
  const SparseServerOriginVar: string := "SPARSE_SERVER_ORIGIN"
  const RerankerServerOriginVar: string := "RERANKER_SERVER_ORIGIN"

  const EmptyQueryMessage: string := "Cannot encode empty query"
  const CallFailedPrefix: string := "Failed making call to server "
  const ParseFailedMessage: string := "Failed parsing response " + "from custom embedding server"

  datatype ServiceError = BadRequest(message: string)

  /** `std::env::var(name).ok().filter(|s| !s.is_empty())`. */
  function NonEmptyVar(env: Env, name: string): (r: Option<string>)
    ensures r.Some? <==> name in env && |env[name]| > 0
    ensures r.Some? ==> r.value == env[name]
  {
    if name in env && |env[name]| > 0 then Some(env[name]) else None
  }

  /** The server origin can be found: the dedicated variable is set and
      non-empty, or else `GPU_SERVER_ORIGIN` is set (possibly empty). */
  predicate OriginResolvable(env: Env, dedicated: string) {
    NonEmptyVar(env, dedicated).Some? || GpuServerOriginVar in env
  }

  /** The origin of a model server: the dedicated variable when non-empty,
      otherwise `GPU_SERVER_ORIGIN`. */
  function ServerOrigin(env: Env, dedicated: string): (origin: string)
    requires OriginResolvable(env, dedicated)
    ensures origin in env.Values
    ensures dedicated in env && |env[dedicated]| > 0 ==> origin == env[dedicated]
    ensures !(dedicated in env && |env[dedicated]| > 0) ==> origin == env[GpuServerOriginVar]
  {
    match NonEmptyVar(env, dedicated)
    case Some(origin) => origin
    case None => env[GpuServerOriginVar]
  }

  /** The origin is empty only when it falls back on an empty GPU origin. */
  lemma ServerOriginEmptyIff(env: Env, dedicated: string)
    requires OriginResolvable(env, dedicated)
    ensures ServerOrigin(env, dedicated) == "" <==>
      NonEmptyVar(env, dedicated).None? && env[GpuServerOriginVar] == ""
  {
  }

  // ---------------------------------------------------------------------------
  // create_embedding

  /** The dataset settings read by `create_embedding`. */
  datatype DatasetConfig = DatasetConfig(embeddingBaseUrl: string, embeddingQueryPrefix: string)

  /** The environment holds what resolving `configured` reads. */
  predicate BaseUrlResolvable(configured: string, env: Env) {
    configured == "" || !Contains(configured, HostedEmbeddingUrl)
    || OriginResolvable(env, EmbeddingServerOriginVar)
  }

  /** The base URL of the OpenAI-compatible client. */
  function EmbeddingBaseUrl(configured: string, env: Env): (url: string)
    requires BaseUrlResolvable(configured, env)
    ensures configured == "" ==> url == OpenAiBaseUrl
    ensures configured != "" && Contains(configured, HostedEmbeddingUrl) ==>
      url == ServerOrigin(env, EmbeddingServerOriginVar)
    ensures configured != "" && !Contains(configured, HostedEmbeddingUrl) ==> url == configured
  {
    if configured == "" then OpenAiBaseUrl
    else if Contains(configured, HostedEmbeddingUrl) then ServerOrigin(env, EmbeddingServerOriginVar)
    else configured
  }

  /** The resolved URL is empty exactly when the configured URL names the
      hosted embedding server, no dedicated origin is set, and the GPU
      origin is empty. */
  lemma EmbeddingBaseUrlEmptyIff(configured: string, env: Env)
    requires BaseUrlResolvable(configured, env)
    ensures EmbeddingBaseUrl(configured, env) == "" <==>
      configured != "" && Contains(configured, HostedEmbeddingUrl)
      && NonEmptyVar(env, EmbeddingServerOriginVar).None? && env[GpuServerOriginVar] == ""
  {
    assert |OpenAiBaseUrl| > 0;
    if configured != "" && Contains(configured, HostedEmbeddingUrl) {
      ServerOriginEmptyIff(env, EmbeddingServerOriginVar);
    }
  }

  /** The text sent for embedding: queries get the dataset's query prefix,
      documents and every other type are sent as is. */
  function EmbeddingInput(message: string, embedType: string, queryPrefix: string): (input: string)
    ensures embedType == "query" ==> input == queryPrefix + message
    ensures embedType != "query" ==> input == message
  {
    match embedType
    case "doc" => message
    case "query" => queryPrefix + message
    case _ => message
  }

  /** The message always ends the input, and the input differs from the
      message exactly for a query with a non-empty prefix. */
  lemma EmbeddingInputEndsWithMessage(message: string, embedType: string, queryPrefix: string)
    ensures var input := EmbeddingInput(message, embedType, queryPrefix);
      |input| >= |message| && input[|input| - |message|..] == message
    ensures EmbeddingInput(message, embedType, queryPrefix) != message <==>
      embedType == "query" && queryPrefix != ""
  {
    var input := EmbeddingInput(message, embedType, queryPrefix);
    if embedType == "query" {
      assert input[|queryPrefix|..] == message;
      if queryPrefix != "" {
        assert |input| != |message|;
      }
    }
  }

  /** The client configuration and parameters of one embeddings call. */
  datatype EmbeddingCall = EmbeddingCall(baseUrl: string, apiKey: string, model: string, input: string)

  /** The call `create_embedding` makes; the API key is read first and
      must be set. */
  function CreateEmbeddingCall(message: string, embedType: string, config: DatasetConfig, env: Env): (call: EmbeddingCall)
    requires OpenAiApiKeyVar in env
    requires BaseUrlResolvable(config.embeddingBaseUrl, env)
    ensures call.apiKey == env[OpenAiApiKeyVar] && call.model == EmbeddingModel
    ensures call.baseUrl == EmbeddingBaseUrl(config.embeddingBaseUrl, env)
    ensures call.input == EmbeddingInput(message, embedType, config.embeddingQueryPrefix)
  {
    EmbeddingCall(
      EmbeddingBaseUrl(config.embeddingBaseUrl, env),
      env[OpenAiApiKeyVar],
      EmbeddingModel,
      EmbeddingInput(message, embedType, config.embeddingQueryPrefix))
  }

  /** One entry of the embeddings reply. */
  datatype EmbeddingOutput = Float(vector: seq<real>) | Base64(encoded: string)

  /** The result of `create_embedding` from the client's reply (its error
      rendered as text): a failed call is a bad request, the first entry's
      float vector is returned, and a base64 entry yields an empty vector.
      A successful reply must hold an entry, since the first is unwrapped. */
  function EmbeddingResult(reply: Result<seq<EmbeddingOutput>, string>): (r: Result<seq<real>, ServiceError>)
    requires reply.Success? ==> |reply.value| > 0
    ensures reply.Failure? ==> r == Failure(BadRequest(CallFailedPrefix + reply.error))
    ensures reply.Success? && reply.value[0].Float? ==> r == Success(reply.value[0].vector)
    ensures reply.Success? && reply.value[0].Base64? ==> r == Success([])
  {
    match reply
    case Failure(e) => Failure(BadRequest(CallFailedPrefix + e))
    case Success(data) =>
      match data[0]
      case Float(v) => Success(v)
      case Base64(_) => Success([])
  }

  // ---------------------------------------------------------------------------
  // Replies of the model servers

  /** What a POST to a model server gives back: the decoded body, a failed
      call (its error rendered as text), or a body that does not decode. */
  datatype ServerReply<T> = Received(body: T) | CallFailed(detail: string) | ParseFailed

  /** The error a failed reply becomes: the call-failed prefix before the
      call's error, or the fixed parse-failed message. */
  function ReplyError<T>(reply: ServerReply<T>): (e: ServiceError)
    requires !reply.Received?
    ensures reply.CallFailed? ==> e == BadRequest(CallFailedPrefix + reply.detail)
    ensures reply.ParseFailed? ==> e == BadRequest(ParseFailedMessage)
  {
    match reply
    case CallFailed(d) => BadRequest(CallFailedPrefix + d)
    case ParseFailed => BadRequest(ParseFailedMessage)
  }

  // ---------------------------------------------------------------------------
  // get_splade_embedding

  /** The POST `get_splade_embedding` sends: URL, bearer token and JSON body. */
  datatype SparseCall = SparseCall(url: string, authorization: string, input: string, encodeType: string)

  /** An empty message is refused before the environment is read; otherwise
      the sparse server's origin and the API key must be available. */
  function SpladeCall(message: string, embedType: string, env: Env): (r: Result<SparseCall, ServiceError>)
    requires message != "" ==> OriginResolvable(env, SparseServerOriginVar) && OpenAiApiKeyVar in env
    ensures r.Failure? <==> message == ""
    ensures r.Failure? ==> r.error == BadRequest(EmptyQueryMessage)
    ensures r.Success? ==>
      r.value.url == ServerOrigin(env, SparseServerOriginVar) + SparseEncodePath
      && r.value.authorization == "Bearer " + env[OpenAiApiKeyVar]
      && r.value.input == message && r.value.encodeType == embedType
  {
    if message == "" then Failure(BadRequest(EmptyQueryMessage))
    else
      var origin := ServerOrigin(env, SparseServerOriginVar);
      Success(SparseCall(origin + SparseEncodePath, "Bearer " + env[OpenAiApiKeyVar], message, embedType))
  }

  /** The empty message is refused whatever the environment holds. */
  lemma EmptyMessageNeedsNoEnvironment(embedType: string, env: Env, other: Env)
    ensures SpladeCall("", embedType, env) == SpladeCall("", embedType, other)
    ensures SpladeCall("", embedType, env).Failure?
  {
  }

  /** The sparse URL starts with the dedicated origin when that is set and
      ends with the encode path. */
  lemma SpladeUrlShape(message: string, embedType: string, env: Env)
    requires message != ""
    requires OriginResolvable(env, SparseServerOriginVar) && OpenAiApiKeyVar in env
    ensures var url := SpladeCall(message, embedType, env).value.url;
      |url| >= |SparseEncodePath| && url[|url| - |SparseEncodePath|..] == SparseEncodePath
    ensures NonEmptyVar(env, SparseServerOriginVar).Some? ==>
      var url := SpladeCall(message, embedType, env).value.url;
      var origin := env[SparseServerOriginVar];
      |url| > |origin| && url[..|origin|] == origin
  {
    var origin := ServerOrigin(env, SparseServerOriginVar);
    var url := origin + SparseEncodePath;
    assert url[|origin|..] == SparseEncodePath;
    assert url[..|origin|] == origin;
  }

  /** One entry of a sparse vector: a vocabulary index and its weight. */
  datatype SparseEntry = SparseEntry(index: nat, weight: real)

  /** The outcome of `get_splade_embedding` once the sparse server has
      replied (the reply is ignored for an empty message, where no call is
      made): the decoded embeddings, or the error of the failed reply. */
  function SpladeEmbedding(message: string, embedType: string, env: Env, reply: ServerReply<seq<SparseEntry>>)
    : (r: Result<seq<SparseEntry>, ServiceError>)
    requires message != "" ==> OriginResolvable(env, SparseServerOriginVar) && OpenAiApiKeyVar in env
    ensures message == "" ==> r == Failure(BadRequest(EmptyQueryMessage))
    ensures message != "" ==> (r.Success? <==> reply.Received?)
    ensures message != "" && reply.Received? ==> r.value == reply.body
    ensures message != "" && !reply.Received? ==> r == Failure(ReplyError(reply))
  {
    match SpladeCall(message, embedType, env)
    case Failure(e) => Failure(e)
    case Success(_) =>
      match reply
      case Received(embeddings) => Success(embeddings)
      case _ => Failure(ReplyError(reply))
  }

  /** The error names the step that failed: the empty-query message comes
      exactly from an empty message, the parse-failed message exactly from
      an undecodable reply, and the call-failed prefix exactly from a failed
      call. */
  lemma SpladeErrorNamesCause(message: string, embedType: string, env: Env, reply: ServerReply<seq<SparseEntry>>)
    requires message != "" ==> OriginResolvable(env, SparseServerOriginVar) && OpenAiApiKeyVar in env
    ensures var r := SpladeEmbedding(message, embedType, env, reply);
      (r == Failure(BadRequest(EmptyQueryMessage)) <==> message == "")
      && (r == Failure(BadRequest(ParseFailedMessage)) <==> message != "" && reply.ParseFailed?)
      && (r.Failure? && |r.error.message| >= |CallFailedPrefix|
          && r.error.message[..|CallFailedPrefix|] == CallFailedPrefix
          <==> message != "" && reply.CallFailed?)
  {
    assert EmptyQueryMessage[0] == 'C' && ParseFailedMessage[0] == 'F' && CallFailedPrefix[0] == 'F';
    assert ParseFailedMessage[7] == 'p' && CallFailedPrefix[7] == 'm';
    if message != "" && reply.CallFailed? {
      var m := CallFailedPrefix + reply.detail;
      assert m[..|CallFailedPrefix|] == CallFailedPrefix;
      assert m[0] == CallFailedPrefix[0] && m[7] == CallFailedPrefix[7];
    }
  }
}
