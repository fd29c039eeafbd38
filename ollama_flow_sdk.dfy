/**
 * The `OllamaFlowSdk` client object and the readers every API call is
 * built from. The client keeps the endpoint, the optional bearer token,
 * whether a logger is attached and the messages that logger received.
 * The readers take the transport's response as a value: `ReadResponse`
 * buffers a body, `GetObject`, `GetAll` and `GetRaw` are the status-gated
 * readers of `GetAsync`, `GetAllAsync` and `GetRawResponse`, and
 * `PostStreamAsync` wraps the stream pump of module `StreamPump`.
 */
module OllamaFlowSdk {
  import opened Wrappers
  import opened Text
  import opened Transport
  import opened Json
  import opened StreamPump
  import StreamProperties

  /** The headers of one outgoing request, in the order they are added. */
  class RestRequest {
    var headers: seq<(string, string)>

    constructor ()
      ensures headers == []
    {
      headers := [];
    }
  }

  /** The header `SetAuthorizationHeader` adds for a token: none for a null or empty token. */
  function AuthorizationHeaders(token: Option<string>): (added: seq<(string, string)>)
    ensures |added| <= 1
    ensures added != [] <==> token.Some? && token.value != ""
    ensures added != [] ==> added[0].0 == "Authorization"
    ensures added != [] ==> |added[0].1| == 7 + |token.value| && added[0].1[..7] == "Bearer " && added[0].1[7..] == token.value
  {
    if token.Some? && token.value != "" then [("Authorization", "Bearer " + token.value)] else []
  }

  class Sdk {
    /** The server URL without trailing slashes; API paths are appended to it. */
    var endpoint: string
    var bearerToken: Option<string>
    /** Whether a `Logger` callback is attached. */
    var hasLogger: bool
    /** The (level, message) pairs the logger has received, oldest first. */
    var logged: seq<(string, string)>

    /**
     * The constructor's success path; the empty endpoint, which it rejects
     * with `ArgumentNullException`, is the `None` of `Create`.
     */
    constructor (endpoint: string)
      requires endpoint != ""
      ensures this.endpoint == TrimEnd(endpoint, '/')
      ensures this.endpoint == "" || this.endpoint[|this.endpoint| - 1] != '/'
      ensures bearerToken == None && !hasLogger && logged == []
    {
      this.endpoint := TrimEnd(endpoint, '/');
      bearerToken := None;
      hasLogger := false;
      logged := [];
    }

    /** `new OllamaFlowSdk(endpoint)`, with the exception for a null or empty endpoint as `None`. */
    static method Create(endpoint: string) returns (sdk: Option<Sdk>)
      ensures sdk.None? <==> endpoint == ""
      ensures sdk.Some? ==> fresh(sdk.value) && sdk.value.endpoint == TrimEnd(endpoint, '/')
      ensures sdk.Some? ==> sdk.value.bearerToken == None && !sdk.value.hasLogger && sdk.value.logged == []
    {
      if endpoint == "" {
        return None;
      }
      var s := new Sdk(endpoint);
      return Some(s);
    }

    /** A message reaches the logger only when it is not empty and a logger is attached. */
    method Log(level: string, message: string)
      modifies this`logged
      ensures logged == if message != "" && hasLogger then old(logged) + [(level, message)] else old(logged)
    {
      if message != "" && hasLogger {
        logged := logged + [(level, message)];
      }
    }

    /** Adds `Authorization: Bearer <token>` when the token is neither null nor empty. */
    method SetAuthorizationHeader(request: RestRequest)
      modifies request`headers
      ensures request.headers == old(request.headers) + AuthorizationHeaders(bearerToken)
    {
      if bearerToken.Some? && bearerToken.value != "" {
        request.headers := request.headers + [("Authorization", "Bearer " + bearerToken.value)];
      }
    }

    /**
     * `PostStreamAsync`: a fresh request carrying the authorization header,
     * then the stream pump over the response it receives.
     */
    method PostStreamAsync<T>(resp: Option<Response>, cfg: StreamConfig<T>)
      returns (headers: seq<(string, string)>, records: seq<T>)
      ensures headers == AuthorizationHeaders(bearerToken)
      ensures records == StreamOutput(resp, cfg)
    {
      var request := new RestRequest();
      SetAuthorizationHeader(request);
      headers := request.headers;
      var chunksRead;
      records, chunksRead := PostStream(resp, cfg);
    }
  }

  /** The endpoint the constructor keeps is the input minus its run of trailing slashes, and trimming it again changes nothing. */
  lemma EndpointIsCanonical(endpoint: string)
    ensures var e := TrimEnd(endpoint, '/');
      && (e == "" || e[|e| - 1] != '/')
      && TrimEnd(e, '/') == e
      && endpoint == e + seq(|endpoint| - |e|, _ => '/')
  {
    var e := TrimEnd(endpoint, '/');
    var slashes := seq(|endpoint| - |e|, _ => '/');
    assert endpoint == e + slashes by {
      assert endpoint[..|e|] == e;
      forall i | 0 <= i < |endpoint| ensures endpoint[i] == (e + slashes)[i] {
        if i >= |e| {
          assert endpoint[i] == '/';
        } else {
          assert endpoint[i] == endpoint[..|e|][i];
        }
      }
    }
  }

  /** A non-empty endpoint made only of slashes passes the constructor's check and is trimmed to nothing. */
  lemma SlashesOnlyTrimToEmpty(endpoint: string)
    requires forall i :: 0 <= i < |endpoint| ==> endpoint[i] == '/'
    ensures TrimEnd(endpoint, '/') == ""
  {
  }

  /** The text `ReadResponse` assembles from chunks: each chunk's text, in order, through the first final chunk. */
  function BufferedText(chunks: seq<Chunk>): (text: string)
    ensures chunks != [] ==> chunks[0].data <= text
    ensures NoFinal(chunks) ==> text == Concat(ChunkTexts(chunks))
  {
    if chunks == [] then ""
    else chunks[0].data + (if chunks[0].isFinal then "" else BufferedText(chunks[1..]))
  }

  /** `ReadResponse`: null for a null response; otherwise the buffered text, whatever the status. */
  function ResponseText(resp: Option<Response>): (text: Option<string>)
    ensures text.Some? <==> resp.Some?
    ensures text.Some? && !resp.value.chunked ==> text.value == resp.value.body
  {
    if resp.None? then None
    else if resp.value.chunked then Some(BufferedText(resp.value.chunks))
    else Some(resp.value.body)
  }

  /** The texts of a list of chunks. */
  function ChunkTexts(chunks: seq<Chunk>): (texts: seq<string>)
    ensures |texts| == |chunks|
    ensures forall k :: 0 <= k < |chunks| ==> texts[k] == chunks[k].data
  {
    if chunks == [] then [] else [chunks[0].data] + ChunkTexts(chunks[1..])
  }

  /** The buffered text is `String.Join("", ..)` of the texts of the chunks a reader takes before it leaves. */
  lemma {:induction false} BufferedTextThroughHorizon(chunks: seq<Chunk>)
    ensures BufferedText(chunks) == Concat(ChunkTexts(chunks[..Horizon(chunks)]))
    decreases |chunks|
  {
    if chunks != [] {
      var taken := chunks[..Horizon(chunks)];
      if chunks[0].isFinal {
        assert taken == [chunks[0]];
        ChunkTextsCons(chunks[0], []);
        ConcatCons(chunks[0].data, []);
      } else {
        var rest := chunks[1..];
        BufferedTextThroughHorizon(rest);
        assert taken == [chunks[0]] + rest[..Horizon(rest)];
        ChunkTextsCons(chunks[0], rest[..Horizon(rest)]);
        ConcatCons(chunks[0].data, ChunkTexts(rest[..Horizon(rest)]));
      }
    }
  }

  lemma ChunkTextsCons(c: Chunk, rest: seq<Chunk>)
    ensures ChunkTexts([c] + rest) == [c.data] + ChunkTexts(rest)
  {
    assert ([c] + rest)[1..] == rest;
  }

  lemma ConcatCons(head: string, tail: seq<string>)
    ensures Concat([head] + tail) == head + Concat(tail)
  {
    assert ([head] + tail)[1..] == tail;
  }

  /**
   * The chunked loop of `ReadResponse`: keeps the non-empty chunk texts
   * through the first final chunk, or until the reader returns null, and
   * joins them.
   */
  method ReadResponse(resp: Option<Response>) returns (text: Option<string>)
    ensures text == ResponseText(resp)
  {
    if resp.None? {
      return None;
    }
    var r := resp.value;
    if !r.chunked {
      return Some(r.body);
    }
    var parts: seq<string> := [];
    var i := 0;
    while i < |r.chunks|
      invariant 0 <= i <= |r.chunks|
      invariant Concat(parts) + BufferedText(r.chunks[i..]) == BufferedText(r.chunks)
      invariant forall k :: 0 <= k < |parts| ==> parts[k] != ""
    {
      var chunk := r.chunks[i];
      ReadStep(parts, r.chunks, i);
      ghost var before := Concat(parts);
      if chunk.data != "" {
        ConcatSnoc(parts, chunk.data);
        parts := parts + [chunk.data];
      }
      assert Concat(parts) == before + chunk.data;
      if chunk.isFinal {
        assert Concat(parts) + "" == Concat(parts);
        return Some(Concat(parts));
      }
      i := i + 1;
    }
    assert r.chunks[i..] == [];
    assert Concat(parts) + "" == Concat(parts);
    return Some(Concat(parts));
  }

  /** One read of the buffering loop: the chunk's text comes next, then the rest unless it is final. */
  lemma ReadStep(parts: seq<string>, chunks: seq<Chunk>, i: nat)
    requires i < |chunks|
    ensures Concat(parts) + BufferedText(chunks[i..])
         == (Concat(parts) + chunks[i].data) + (if chunks[i].isFinal then "" else BufferedText(chunks[i + 1..]))
  {
    assert chunks[i..][1..] == chunks[i + 1..];
  }

  /** Every chunk the reader takes, except perhaps the last, ends with a newline. */
  predicate LineAligned(chunks: seq<Chunk>)
  {
    forall k :: 0 <= k < Horizon(chunks) - 1 ==> EndsLine(chunks[k].data)
  }

  /**
   * When every chunk boundary falls after a newline, splitting the buffered
   * text gives the same records as the stream pump's chunk-by-chunk split.
   * Without that condition they differ (`BufferingJoinsStraddlingRecord`).
   */
  lemma {:induction false} AlignedBufferMatchesStream<T>(cfg: StreamConfig<T>, chunks: seq<Chunk>)
    requires LineAligned(chunks)
    ensures ChunkRecords(cfg, BufferedText(chunks)) == StreamedRecords(cfg, chunks)
    decreases |chunks|
  {
    if chunks == [] {
      LinesOfEmpty();
    } else {
      var first := chunks[0].data;
      if chunks[0].isFinal || |chunks| == 1 {
        assert BufferedText(chunks) == first + "" == first;
        if !chunks[0].isFinal {
          assert chunks[1..] == [];
        }
        assert StreamedRecords(cfg, chunks) == ChunkRecords(cfg, first) + [];
      } else {
        var rest := chunks[1..];
        assert Horizon(chunks) == 1 + Horizon(rest);
        assert EndsLine(first) by {
          assert 0 < Horizon(chunks) - 1;
        }
        assert LineAligned(rest) by {
          forall k | 0 <= k < Horizon(rest) - 1 ensures EndsLine(rest[k].data) {
            assert rest[k] == chunks[k + 1];
          }
        }
        AlignedBufferMatchesStream(cfg, rest);
        StreamProperties.ChunkRecordsAtBoundary(cfg, first, BufferedText(rest));
      }
    }
  }

  /** The buffered reader reassembles a record split across two chunks, which the stream pump drops. */
  lemma BufferingJoinsStraddlingRecord()
    ensures var cfg := StreamConfig(StreamProperties.EmptyObjectOnly, None, None);
      var chunks := [Chunk("{", false), Chunk("}", true)];
      && BufferedText(chunks) == "{}"
      && ChunkRecords(cfg, BufferedText(chunks)) == [0]
      && StreamedRecords(cfg, chunks) == []
  {
    var cfg := StreamConfig(StreamProperties.EmptyObjectOnly, None, None);
    var chunks := [Chunk("{", false), Chunk("}", true)];
    assert chunks[1..] == [Chunk("}", true)];
    assert BufferedText(chunks) == "{" + ("}" + "") == "{}";
    StreamProperties.StraddlingRecordIsDropped();
    assert StreamedRecords(cfg, [Chunk("{}", true)]) == ChunkRecords(cfg, "{}") + [];
  }

  /**
   * `GetAsync<T>`: on a 2xx response with a non-empty body the body is
   * deserialized and a failure escapes; every other case gives the default
   * (null). `PostAsync`, `PutAsync` and `DeleteAsync<T>` read their
   * responses the same way.
   */
  function GetObject<T>(resp: Option<Response>, decode: string -> Parsed<T>): (r: Result<Option<T>>)
    ensures !Admitted(resp) ==> r == Ok(None)
    ensures Admitted(resp) && ResponseText(resp).value == "" ==> r == Ok(None)
    ensures r.Err? ==> r.error == JsonException && Admitted(resp) && decode(ResponseText(resp).value).Malformed?
    ensures r.Ok? && r.value.Some? ==>
      Admitted(resp) && ResponseText(resp).value != "" && decode(ResponseText(resp).value) == Value(r.value.value)
    ensures Admitted(resp) && ResponseText(resp).value != "" && decode(ResponseText(resp).value).Null? ==> r == Ok(None)
    ensures Admitted(resp) && ResponseText(resp).value != "" && decode(ResponseText(resp).value).Malformed? ==>
      r == Err(JsonException)
    ensures Admitted(resp) && ResponseText(resp).value != "" && decode(ResponseText(resp).value).Value? ==>
      r == Ok(Some(decode(ResponseText(resp).value).value))
  {
    if !Admitted(resp) then Ok(None)
    else
      var text := ResponseText(resp).value;
      if text == "" then Ok(None)
      else
        match decode(text)
        case Value(v) => Ok(Some(v))
        case Null => Ok(None)
        case Malformed => Err(JsonException)
  }

  /** `GetRawResponse`: the buffered text of a 2xx response, null otherwise. */
  function GetRaw(resp: Option<Response>): (raw: Option<string>)
    ensures raw.Some? <==> Admitted(resp)
    ensures raw.Some? ==> raw == ResponseText(resp)
  {
    if Admitted(resp) then ResponseText(resp) else None
  }

  /** The wrapper keys `GetAllAsync` looks for, in the order it tries them. */
  const GetAllKeys: seq<string> := ["data", "items"]

  /**
   * `GetAllAsync<T>`: a null response, a non-2xx status or an empty body
   * gives an empty list; otherwise the root-shape dispatch over
   * `"data"` then `"items"`.
   */
  function GetAll<T>(
    resp: Option<Response>,
    parseRoot: string -> Option<JsonRoot>,
    decodeList: string -> Parsed<seq<T>>): (r: Result<Option<seq<T>>>)
    ensures !Admitted(resp) ==> r == Ok(Some([]))
    ensures Admitted(resp) && ResponseText(resp).value == "" ==> r == Ok(Some([]))
  {
    if !Admitted(resp) then Ok(Some([]))
    else
      var text := ResponseText(resp).value;
      if text == "" then Ok(Some([]))
      else Dispatch(text, parseRoot, GetAllKeys, decodeList)
  }

  /** The list readers behind a 2xx response with a non-empty body, by root shape. */
  lemma GetAllRootOrder<T>(
    resp: Option<Response>,
    parseRoot: string -> Option<JsonRoot>,
    decodeList: string -> Parsed<seq<T>>)
    requires Admitted(resp) && ResponseText(resp).value != ""
    ensures var text := ResponseText(resp).value;
      var r := GetAll(resp, parseRoot, decodeList);
      && (parseRoot(text).None? ==> r == Err(JsonException))
      && (parseRoot(text) == Some(ArrayRoot) ==> r == Materialize(decodeList(text)))
      && (parseRoot(text) == Some(ScalarRoot) ==> r == Err(InvalidOperation))
      && (forall p :: parseRoot(text) == Some(ObjectRoot(p)) && "data" in p ==>
            r == Materialize(decodeList(p["data"])))
      && (forall p :: parseRoot(text) == Some(ObjectRoot(p)) && "data" !in p && "items" in p ==>
            r == Materialize(decodeList(p["items"])))
      && (forall p :: parseRoot(text) == Some(ObjectRoot(p)) && "data" !in p && "items" !in p ==>
            r == Ok(Some([])))
  {
    var text := ResponseText(resp).value;
    forall p | parseRoot(text) == Some(ObjectRoot(p))
      ensures "data" in p ==> GetAll(resp, parseRoot, decodeList) == Materialize(decodeList(p["data"]))
      ensures "data" !in p && "items" in p ==> GetAll(resp, parseRoot, decodeList) == Materialize(decodeList(p["items"]))
      ensures "data" !in p && "items" !in p ==> GetAll(resp, parseRoot, decodeList) == Ok(Some([]))
    {
      if "data" in p {
        DispatchUsesFirstKey(text, parseRoot, GetAllKeys, decodeList, p, 0);
      } else if "items" in p {
        DispatchUsesFirstKey(text, parseRoot, GetAllKeys, decodeList, p, 1);
      } else {
        DispatchNoKey(text, parseRoot, GetAllKeys, decodeList, p);
      }
    }
  }

  /** `GetAllAsync` reads exactly what `GetRawResponse` would return, then dispatches on it. */
  lemma GetAllReadsTheRawResponse<T>(
    resp: Option<Response>,
    parseRoot: string -> Option<JsonRoot>,
    decodeList: string -> Parsed<seq<T>>)
    ensures GetAll(resp, parseRoot, decodeList)
         == (var raw := GetRaw(resp);
             if raw.None? || raw.value == "" then Ok(Some([]))
             else Dispatch(raw.value, parseRoot, GetAllKeys, decodeList))
  {
  }

  /**
   * `DeleteAsync(url)` and `HeadAsync`: true exactly for a 2xx response,
   * which is also exactly when the other readers read the body at all.
   */
  lemma StatusGate<T>(resp: Option<Response>, cfg: StreamConfig<T>, decode: string -> Parsed<T>)
    ensures !Admitted(resp) ==>
      && GetRaw(resp) == None
      && GetObject(resp, decode) == Ok(None)
      && StreamOutput(resp, cfg) == []
      && Consumed(resp, cfg) == 0
    ensures Admitted(resp) ==> GetRaw(resp) == ResponseText(resp)
  {
  }
}
