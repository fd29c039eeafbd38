/**
 * `OllamaMethods`: the Ollama API calls the SDK exposes. `PullModel`
 * runs its own copy of the streaming loop with a fixed stop test (a
 * status of exactly "success") and without the authorization header;
 * the two model lists read `GetRawResponse` and dispatch on the root
 * shape with the single wrapper key "models"; the generate calls set the
 * request's `Stream` flag before sending, and the chat stream maps each
 * streamed record to a chunk.
 */
module OllamaMethods {
  import opened Wrappers
  import opened Transport
  import opened Json
  import opened StreamPump
  import opened OllamaFlowSdk

  /** One progress message of `/api/pull`; the loop consults only `status`. */
  datatype PullMessage = PullMessage(
    status: Option<string>,
    digest: Option<string>,
    total: Option<int>,
    completed: Option<int>)

  /** The pull loop: no line preprocessing, and a stop on a status equal, ordinally, to "success". */
  function PullConfig(decode: string -> Parsed<PullMessage>): (cfg: StreamConfig<PullMessage>)
    ensures cfg.decode == decode && cfg.processLine.None?
    ensures forall m :: Stops(cfg, m) <==> m.status == Some("success")
  {
    StreamConfig(decode, None, Some((m: PullMessage) => m.status == Some("success")))
  }

  /** The generate streams: no line preprocessing and no stop predicate. */
  function PlainStream<T>(decode: string -> Parsed<T>): (cfg: StreamConfig<T>)
    ensures cfg.decode == decode && cfg.processLine.None?
    ensures cfg.shouldStop.None?
  {
    StreamConfig(decode, None, None)
  }

  datatype ChatMessage = ChatMessage(role: string, content: string)

  /** A streamed `/api/chat` record; `rest` stands for the fields the chunk does not copy. */
  datatype StreamingChatResult<X> = StreamingChatResult(
    model: string,
    createdAt: string,
    message: Option<ChatMessage>,
    done: bool,
    rest: X)

  /** What `GenerateChatCompletionStream` yields. */
  datatype ChatChunk = ChatChunk(model: string, createdAt: string, message: Option<ChatMessage>, done: bool)

  /** One chunk per streamed record, in order, copying the model, timestamp, message and done flag. */
  function ToChatChunks<X>(results: seq<StreamingChatResult<X>>): (chunks: seq<ChatChunk>)
    ensures |chunks| == |results|
    ensures forall k :: 0 <= k < |results| ==>
      && chunks[k].model == results[k].model
      && chunks[k].createdAt == results[k].createdAt
      && chunks[k].message == results[k].message
      && chunks[k].done == results[k].done
  {
    if results == [] then []
    else
      var r := results[0];
      [ChatChunk(r.model, r.createdAt, r.message, r.done)] + ToChatChunks(results[1..])
  }

  /** The mapping works record by record: the chunks of a longer stream extend those of its prefix. */
  lemma ToChatChunksAppend<X>(a: seq<StreamingChatResult<X>>, b: seq<StreamingChatResult<X>>)
    ensures ToChatChunks(a + b) == ToChatChunks(a) + ToChatChunks(b)
  {
    var whole := ToChatChunks(a + b);
    var parts := ToChatChunks(a) + ToChatChunks(b);
    forall k | 0 <= k < |whole| ensures whole[k] == parts[k] {
      if k < |a| {
        assert (a + b)[k] == a[k];
      } else {
        assert (a + b)[k] == b[k - |a|];
      }
    }
  }

  /** The wrapper key the model lists look for. */
  const ModelsKeys: seq<string> := ["models"]

  /**
   * `ListLocalModels` and `ListRunningModels`: an empty list when
   * `GetRawResponse` gives null or an empty text (so also for a null
   * response or a non-2xx status); otherwise the root-shape dispatch over
   * the key "models".
   */
  function ListModels<T>(
    resp: Option<Response>,
    parseRoot: string -> Option<JsonRoot>,
    decodeList: string -> Parsed<seq<T>>): (r: Result<Option<seq<T>>>)
    ensures !Admitted(resp) ==> r == Ok(Some([]))
    ensures Admitted(resp) && ResponseText(resp).value == "" ==> r == Ok(Some([]))
  {
    var raw := GetRaw(resp);
    if raw.None? || raw.value == "" then Ok(Some([]))
    else Dispatch(raw.value, parseRoot, ModelsKeys, decodeList)
  }

  /** The model lists of a 2xx response with a non-empty body, by root shape. */
  lemma ListModelsRootOrder<T>(
    resp: Option<Response>,
    parseRoot: string -> Option<JsonRoot>,
    decodeList: string -> Parsed<seq<T>>)
    requires Admitted(resp) && ResponseText(resp).value != ""
    ensures var text := ResponseText(resp).value;
      var r := ListModels(resp, parseRoot, decodeList);
      && (parseRoot(text).None? ==> r == Err(JsonException))
      && (parseRoot(text) == Some(ArrayRoot) ==> r == Materialize(decodeList(text)))
      && (parseRoot(text) == Some(ScalarRoot) ==> r == Err(InvalidOperation))
      && (forall p :: parseRoot(text) == Some(ObjectRoot(p)) && "models" in p ==>
            r == Materialize(decodeList(p["models"])))
      && (forall p :: parseRoot(text) == Some(ObjectRoot(p)) && "models" !in p ==>
            r == Ok(Some([])))
  {
    var text := ResponseText(resp).value;
    forall p | parseRoot(text) == Some(ObjectRoot(p))
      ensures "models" in p ==> ListModels(resp, parseRoot, decodeList) == Materialize(decodeList(p["models"]))
      ensures "models" !in p ==> ListModels(resp, parseRoot, decodeList) == Ok(Some([]))
    {
      if "models" in p {
        DispatchUsesFirstKey(text, parseRoot, ModelsKeys, decodeList, p, 0);
      } else {
        DispatchNoKey(text, parseRoot, ModelsKeys, decodeList, p);
      }
    }
  }

  /** The request object of the generate calls; only its `Stream` flag is modelled. */
  class GenerateRequest {
    var model: string
    var stream: bool

    constructor (model: string, stream: bool)
      ensures this.model == model && this.stream == stream
    {
      this.model := model;
      this.stream := stream;
    }
  }

  class OllamaMethods {
    const sdk: Sdk

    constructor (sdk: Sdk)
      ensures this.sdk == sdk
    {
      this.sdk := sdk;
    }

    /**
     * `PullModel`: the streaming loop over the `/api/pull` response, with a
     * request that carries no authorization header.
     */
    method PullModel(resp: Option<Response>, decode: string -> Parsed<PullMessage>)
      returns (url: string, headers: seq<(string, string)>, messages: seq<PullMessage>, chunksRead: nat)
      ensures url == sdk.endpoint + "/api/pull"
      ensures headers == []
      ensures messages == StreamOutput(resp, PullConfig(decode))
      ensures chunksRead == Consumed(resp, PullConfig(decode))
      ensures !Admitted(resp) ==> messages == [] && chunksRead == 0
      ensures Admitted(resp) && !resp.value.chunked ==> |messages| <= 1 && chunksRead == 0
    {
      url := sdk.endpoint + "/api/pull";
      var request := new RestRequest();
      headers := request.headers;
      messages, chunksRead := PostStream(resp, PullConfig(decode));
    }

    method ListLocalModels<T>(
      resp: Option<Response>,
      parseRoot: string -> Option<JsonRoot>,
      decodeList: string -> Parsed<seq<T>>)
      returns (url: string, models: Result<Option<seq<T>>>)
      ensures url == sdk.endpoint + "/api/tags"
      ensures models == ListModels(resp, parseRoot, decodeList)
    {
      url := sdk.endpoint + "/api/tags";
      models := ListModels(resp, parseRoot, decodeList);
    }

    method ListRunningModels<T>(
      resp: Option<Response>,
      parseRoot: string -> Option<JsonRoot>,
      decodeList: string -> Parsed<seq<T>>)
      returns (url: string, models: Result<Option<seq<T>>>)
      ensures url == sdk.endpoint + "/api/ps"
      ensures models == ListModels(resp, parseRoot, decodeList)
    {
      url := sdk.endpoint + "/api/ps";
      models := ListModels(resp, parseRoot, decodeList);
    }

    /** The non-streaming completion: `Stream` is switched off, then `PostAsync` reads the reply. */
    method GenerateCompletion<R>(request: GenerateRequest, resp: Option<Response>, decode: string -> Parsed<R>)
      returns (url: string, result: Result<Option<R>>)
      modifies request`stream
      ensures !request.stream
      ensures url == sdk.endpoint + "/api/generate"
      ensures result == GetObject(resp, decode)
    {
      request.stream := false;
      url := sdk.endpoint + "/api/generate";
      result := GetObject(resp, decode);
    }

    /** The non-streaming chat completion: `Stream` is switched off, then `PostAsync` reads the reply. */
    method GenerateChatCompletion<R>(request: GenerateRequest, resp: Option<Response>, decode: string -> Parsed<R>)
      returns (url: string, result: Result<Option<R>>)
      modifies request`stream
      ensures !request.stream
      ensures url == sdk.endpoint + "/api/chat"
      ensures result == GetObject(resp, decode)
    {
      request.stream := false;
      url := sdk.endpoint + "/api/chat";
      result := GetObject(resp, decode);
    }

    /** The streaming chat completion: `Stream` is switched on and every streamed record becomes one chunk. */
    method GenerateChatCompletionStream<X>(
      request: GenerateRequest,
      resp: Option<Response>,
      decode: string -> Parsed<StreamingChatResult<X>>)
      returns (url: string, headers: seq<(string, string)>, chunks: seq<ChatChunk>)
      modifies request`stream
      ensures request.stream
      ensures url == sdk.endpoint + "/api/chat"
      ensures headers == AuthorizationHeaders(sdk.bearerToken)
      ensures chunks == ToChatChunks(StreamOutput(resp, PlainStream(decode)))
    {
      request.stream := true;
      url := sdk.endpoint + "/api/chat";
      var records;
      headers, records := sdk.PostStreamAsync(resp, PlainStream(decode));
      chunks := ToChatChunks(records);
    }

    /** The streaming completion: `Stream` is switched on and the streamed records pass through. */
    method GenerateCompletionStream<T>(request: GenerateRequest, resp: Option<Response>, decode: string -> Parsed<T>)
      returns (url: string, headers: seq<(string, string)>, records: seq<T>)
      modifies request`stream
      ensures request.stream
      ensures url == sdk.endpoint + "/api/generate"
      ensures headers == AuthorizationHeaders(sdk.bearerToken)
      ensures records == StreamOutput(resp, PlainStream(decode))
    {
      request.stream := true;
      url := sdk.endpoint + "/api/generate";
      headers, records := sdk.PostStreamAsync(resp, PlainStream(decode));
    }
  }

  /** No message in `messages` reports the status "success". */
  predicate NoSuccess(messages: seq<PullMessage>)
  {
    forall k :: 0 <= k < |messages| ==> messages[k].status != Some("success")
  }

  /**
   * The pull stream ends with the first message whose status is "success":
   * everything before it and the message itself, nothing after.
   */
  lemma PullEndsAtFirstSuccess(
    resp: Option<Response>,
    decode: string -> Parsed<PullMessage>,
    before: seq<PullMessage>,
    m: PullMessage,
    after: seq<PullMessage>)
    requires Admitted(resp) && resp.value.chunked
    requires StreamedRecords(PullConfig(decode), resp.value.chunks) == before + [m] + after
    requires NoSuccess(before)
    requires m.status == Some("success")
    ensures StreamOutput(resp, PullConfig(decode)) == before + [m]
  {
    var cfg := PullConfig(decode);
    var collected := before + [m];
    assert collected[..|collected| - 1] == before;
    StopAtLast(cfg, collected, after);
  }

  /** Without a "success" message the pull stream is every decoded message through the final chunk. */
  lemma PullWithoutSuccessKeepsEverything(resp: Option<Response>, decode: string -> Parsed<PullMessage>)
    requires Admitted(resp) && resp.value.chunked
    requires NoSuccess(StreamedRecords(PullConfig(decode), resp.value.chunks))
    ensures StreamOutput(resp, PullConfig(decode)) == StreamedRecords(PullConfig(decode), resp.value.chunks)
  {
    var cfg := PullConfig(decode);
    var all := StreamedRecords(cfg, resp.value.chunks);
    forall k | 0 <= k < |all| ensures !Stops(cfg, all[k]) {
      assert all[k].status != Some("success");
    }
    TakeThroughStopAll(cfg, all);
  }

  /** The status test is ordinal and case-sensitive: "Success" or "SUCCESS" does not end the pull. */
  lemma SuccessTestIsCaseSensitive(decode: string -> Parsed<PullMessage>, m: PullMessage)
    requires m.status == Some("Success") || m.status == Some("SUCCESS")
    ensures !Stops(PullConfig(decode), m)
  {
  }

  /** A non-chunked pull body is one message, "success" or not; nothing decodes a null or failed body. */
  lemma PullBodyIgnoresStatus(resp: Option<Response>, decode: string -> Parsed<PullMessage>)
    requires Admitted(resp) && !resp.value.chunked
    ensures var body := resp.value.body;
      StreamOutput(resp, PullConfig(decode))
        == if body != "" && decode(body).Value? then [decode(body).value] else []
  {
  }

  /**
   * The generate streams pass no stop predicate, so a record with
   * `done == true` does not end the chat stream: only the final chunk (or
   * the end of the chunks) does.
   */
  lemma DoneDoesNotEndChatStream<X>(resp: Option<Response>, decode: string -> Parsed<StreamingChatResult<X>>)
    requires Admitted(resp) && resp.value.chunked
    ensures StreamOutput(resp, PlainStream(decode)) == StreamedRecords(PlainStream(decode), resp.value.chunks)
  {
    TakeThroughStopAll(PlainStream(decode), StreamedRecords(PlainStream(decode), resp.value.chunks));
  }
}
