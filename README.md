# OllamaFlow SDK streaming decoder, modelled in Dafny

This project models the core of the OllamaFlow C# SDK (`OllamaFlowSdk` and
`OllamaMethods`). That core is the code that turns one HTTP response into
typed records, together with the small rules around it.

- **The stream pump.** `PostStreamAsync`, and its copy inside `PullModel`, work like this:
  - a 2xx gate comes first;
  - each chunk's text is split on `'\n'` by itself, empty segments are dropped and blank lines are skipped;
  - each remaining line goes through the optional `processLine` and the deserializer, and failures and nulls are skipped;
  - after each yielded record the optional `shouldStop` is consulted;
  - the loop leaves after a final chunk;
  - a non-chunked body is decoded whole, once, with no stop test.
- **The buffered reader.** `ReadResponse` joins the chunk texts through the first final chunk.
- **The status-gated readers.**
  - `GetAsync` (and the identical reading in `PostAsync`, `PutAsync` and `DeleteAsync<T>`);
  - `GetAllAsync`, with its dispatch on the root shape: array, then `"data"`, then `"items"`;
  - `GetRawResponse`;
  - the boolean `DeleteAsync(url)` and `HeadAsync`;
  - `ListLocalModels` and `ListRunningModels`, which dispatch on array, then `"models"`.
- **The client object.**
  - The constructor rejects an empty endpoint and trims its trailing slashes.
  - `Log` fires only for a non-empty message.
  - `SetAuthorizationHeader` adds the bearer header only for a non-empty token.
  - The generate calls set the request's `Stream` flag.
- **The chat stream mapping.** `GenerateChatCompletionStream` maps each streamed record to one chunk.

The transport is a value: status, chunked flag, buffered body and the list of chunks that successive reads return (`transport.dfy`). JSON handling is a set of function parameters:

- a deserializer that returns a value, `null` or an exception (`Parsed`);
- a root-shape parser (`JsonRoot`);
- a list deserializer.

The pump is the method `StreamPump.PostStream`, built from nested loops (`PumpChunks`, `PumpChunk`, `PumpLines`, `DecodeLine`). It is proved equal to the declarative `StreamOutput`: the records of the chunks through the first final chunk, cut just after the first record the stop predicate accepts.

Four behaviours of the code are worth stating outright:

- **Each chunk is split on its own.** No fragment is carried into the next chunk (`src/OllamaFlow.Sdk/OllamaFlowSdk.cs:655`, `src/OllamaFlow.Sdk/Implementations/OllamaMethods.cs:60`).
  - A record that straddles a chunk boundary is lost. `StreamProperties.StraddlingRecordIsDropped` exhibits this.
  - Chunk-boundary invariance is only proved for boundaries that fall just after a newline (`StreamProperties.SplitChunkAfterNewline`, `OllamaFlowSdk.AlignedBufferMatchesStream`).
- **The pump never checks the cancellation token.** The token is only forwarded to the transport.
- **A scalar root throws `InvalidOperationException`.** In the list readers an array root is the list, and an object root without any of the wrapper keys gives an empty list. A root that is neither an array nor an object makes `TryGetProperty` throw, so the model returns `Err(InvalidOperation)`. Text that does not parse gives `Err(JsonException)`.
- **An endpoint of only slashes is accepted.** The constructor trims it to the empty string (`OllamaFlowSdk.SlashesOnlyTrimToEmpty`).

## Model

| member | source | states |
|---|---|---|
| Text.Split | src/OllamaFlow.Sdk/OllamaFlowSdk.cs:655 | `Split('\n')` gives at least one segment, and no segment contains the delimiter |
| Text.JoinSplit | src/OllamaFlow.Sdk/OllamaFlowSdk.cs:655 | joining the segments with the delimiter gives back the chunk text: the split loses nothing |
| Text.SplitJoin | src/OllamaFlow.Sdk/OllamaFlowSdk.cs:655 | splitting undoes joining delimiter-free segments: Split and Join are inverse |
| Text.SplitAround | src/OllamaFlow.Sdk/OllamaFlowSdk.cs:655 | a delimiter cuts the text into the segments of the text on either side of it |
| Text.RemoveEmpty | src/OllamaFlow.Sdk/OllamaFlowSdk.cs:655 | `RemoveEmptyEntries` keeps no more entries than it is given, every entry it keeps is non-empty, and every non-empty entry is kept |
| Text.RemoveEmptySingle | src/OllamaFlow.Sdk/OllamaFlowSdk.cs:655 | the filter drops a single empty entry and keeps a single non-empty one |
| Text.RemoveEmptyKeepsInOrder | src/OllamaFlow.Sdk/OllamaFlowSdk.cs:655 | a non-empty entry stays in its place: the kept entries are those before it, then it, then those after it |
| Text.RemoveEmptyAppend | src/OllamaFlow.Sdk/OllamaFlowSdk.cs:655 | filtering a concatenation filters each part |
| Text.Lines | src/OllamaFlow.Sdk/OllamaFlowSdk.cs:655 | every line handed on by `Split('\n', RemoveEmptyEntries)` is non-empty and holds no newline |
| Text.LinesOfEmpty | src/OllamaFlow.Sdk/OllamaFlowSdk.cs:652 | a chunk with empty data yields no lines |
| Text.LinesOfSingleLine | src/OllamaFlow.Sdk/OllamaFlowSdk.cs:655 | a non-empty text without a newline is exactly one line |
| Text.LinesAtBoundary | src/OllamaFlow.Sdk/OllamaFlowSdk.cs:655 | after a complete line, concatenation neither merges nor splits lines |
| Text.IsWhiteSpace | src/OllamaFlow.Sdk/OllamaFlowSdk.cs:658 | the ASCII white space is exactly space, tab, line feed, vertical tab, form feed and carriage return; in the rest of Latin-1 exactly NEL and the no-break space; nothing above U+3000 is white space |
| Text.IsBlank | src/OllamaFlow.Sdk/OllamaFlowSdk.cs:658 | `IsNullOrWhiteSpace` holds exactly when every character is white space |
| Text.TrimEnd | src/OllamaFlow.Sdk/OllamaFlowSdk.cs:94 | `TrimEnd('/')` gives a prefix that does not end in the character, and everything removed was that character |
| Text.TrimEndUnique | src/OllamaFlow.Sdk/OllamaFlowSdk.cs:94 | those three properties determine the trimmed text |
| Text.TrimEndIdempotent | src/OllamaFlow.Sdk/OllamaFlowSdk.cs:94 | trimming again changes nothing |
| Text.Concat | src/OllamaFlow.Sdk/OllamaFlowSdk.cs:599 | `String.Join("", parts)` begins with the first part |
| Text.ConcatEmpty | src/OllamaFlow.Sdk/OllamaFlowSdk.cs:599 | the joined text is empty exactly when every part is empty |
| Text.ConcatSnoc | src/OllamaFlow.Sdk/OllamaFlowSdk.cs:596-599 | appending one more chunk text to the list appends its text to the joined string |
| Transport.IsSuccess | src/OllamaFlow.Sdk/OllamaFlowSdk.cs:297 | the status test `200 <= status <= 299` admits exactly the 2xx class, status / 100 == 2 |
| Transport.Admitted | src/OllamaFlow.Sdk/OllamaFlowSdk.cs:642-645 | a response passes the gate only when it is not null, and a non-null one passes exactly when its status is in the 2xx class |
| Transport.Horizon | src/OllamaFlow.Sdk/OllamaFlowSdk.cs:650-677 | a reader that leaves after a final chunk takes the chunks up to and including the first final one, or all of them |
| Json.Materialize | src/OllamaFlow.Sdk/OllamaFlowSdk.cs:244-249 | a list deserialization's exception escapes as `JsonException`, its null is returned as null, and its value is returned as is |
| Json.Dispatch | src/OllamaFlow.Sdk/OllamaFlowSdk.cs:242-252 | unparsable text throws `JsonException`; an array root is the deserialized body; `InvalidOperation` is thrown exactly for a scalar root; an object root throws only `JsonException` |
| Json.FirstPresent | src/OllamaFlow.Sdk/OllamaFlowSdk.cs:246-248 | the wrapper key chosen is present, and no earlier key is |
| Json.FirstPresentFinds | src/OllamaFlow.Sdk/OllamaFlowSdk.cs:246-248 | a present key with no present key before it is the one chosen |
| Json.DispatchUsesFirstKey | src/OllamaFlow.Sdk/OllamaFlowSdk.cs:242-249 | an object root yields the list under the first wrapper key it has, whatever later keys hold |
| Json.DispatchNoKey | src/OllamaFlow.Sdk/OllamaFlowSdk.cs:246-252 | an object root with none of the keys yields an empty list |
| StreamPump.Preprocess | src/OllamaFlow.Sdk/OllamaFlowSdk.cs:659 | the line handed to the deserializer is the line itself or the callback's non-null result, and it is that result whenever the callback returns one |
| StreamPump.Stops | src/OllamaFlow.Sdk/OllamaFlowSdk.cs:672 | a missing predicate never stops; a present one stops exactly when it returns true |
| StreamPump.LineRecord | src/OllamaFlow.Sdk/OllamaFlowSdk.cs:658-674 | a line yields at most one record; it yields one exactly when it is not blank and the deserializer returns a value for the preprocessed line, and that value is the record |
| StreamPump.TakeThroughStop | src/OllamaFlow.Sdk/OllamaFlowSdk.cs:671-673 | the output is a prefix of the records, no record before its last one stops, and if anything was cut, its last record is one that stops |
| StreamPump.BodyRecord | src/OllamaFlow.Sdk/OllamaFlowSdk.cs:680-695 | a non-chunked body yields at most one record; it yields one exactly when the body is non-empty and its preprocessed text decodes to a value |
| StreamPump.StreamedRecords | src/OllamaFlow.Sdk/OllamaFlowSdk.cs:650-677 | the first chunk's records come first, and when no chunk is final the records are those of every chunk in order |
| StreamPump.StreamOutput | src/OllamaFlow.Sdk/OllamaFlowSdk.cs:643-695 | a null or non-2xx response yields nothing; a chunked one yields a prefix of its streamed records, all of them without a stop predicate; a non-chunked one yields at most one record |
| StreamPump.ChunksConsumed | src/OllamaFlow.Sdk/OllamaFlowSdk.cs:650-677 | the loop never reads past the first final chunk |
| StreamPump.TakeThroughStopPass | src/OllamaFlow.Sdk/OllamaFlowSdk.cs:671-673 | records before any stopping record pass through unchanged |
| StreamPump.TakeThroughStopAll | src/OllamaFlow.Sdk/OllamaFlowSdk.cs:671-673 | without a stopping record nothing is cut |
| StreamPump.TakeThroughStopHit | src/OllamaFlow.Sdk/OllamaFlowSdk.cs:671-673 | after a stopping record nothing later matters |
| StreamPump.StopAtLast | src/OllamaFlow.Sdk/OllamaFlowSdk.cs:671-673 | the first stopping record is the last one yielded |
| StreamPump.LineRecordsAppend | src/OllamaFlow.Sdk/OllamaFlowSdk.cs:656-675 | records come out in line order: the records of two runs of lines are those of each run, concatenated |
| StreamPump.DecodeLine | src/OllamaFlow.Sdk/OllamaFlowSdk.cs:658-674 | the per-line step returns this line's record, or none for a blank, malformed or null line |
| StreamPump.PumpLines | src/OllamaFlow.Sdk/OllamaFlowSdk.cs:656-675 | the `foreach` over lines yields the lines' records through the first stopping one, and reports whether it stopped |
| StreamPump.PumpChunk | src/OllamaFlow.Sdk/OllamaFlowSdk.cs:652-676 | one chunk's text, split on its own, yields its records through the first stopping one |
| StreamPump.PumpChunks | src/OllamaFlow.Sdk/OllamaFlowSdk.cs:650-678 | the chunk loop yields the per-chunk records in arrival order, through the first final chunk, cut after the first stopping record, and counts the chunks it reads |
| StreamPump.PostStream | src/OllamaFlow.Sdk/OllamaFlowSdk.cs:643-695 | the stream equals `StreamOutput`; a null or non-2xx response yields nothing and reads no chunk; a non-chunked body yields at most one record |
| StreamPump.StreamedSplit | src/OllamaFlow.Sdk/OllamaFlowSdk.cs:650-678 | before any final chunk, the stream's records split at any chunk index |
| StreamProperties.StreamedThroughHorizon | src/OllamaFlow.Sdk/OllamaFlowSdk.cs:650-677 | only chunks up to the first final one contribute records |
| StreamProperties.StreamedIgnoresStop | src/OllamaFlow.Sdk/OllamaFlowSdk.cs:671-673 | which records the chunks hold does not depend on the stop predicate |
| StreamProperties.StopOnlyTruncates | src/OllamaFlow.Sdk/OllamaFlowSdk.cs:671-694 | with a stop predicate the stream is a prefix of the stream without one; without one it is every record through the final chunk; the non-chunked path never consults it |
| StreamProperties.UnreadChunksAreIrrelevant | src/OllamaFlow.Sdk/OllamaFlowSdk.cs:650-677 | once the loop has left at a final chunk or a stopping record, the chunks after it change neither the output nor the number of reads |
| StreamProperties.ReadsUntilNull | src/OllamaFlow.Sdk/OllamaFlowSdk.cs:650 | with no final chunk and no stopping record, the loop reads every chunk until the reader returns null, and yields every record |
| StreamProperties.LineRecordsProvenance | src/OllamaFlow.Sdk/OllamaFlowSdk.cs:656-670 | every record of a run of lines is the successful decode of one of those lines |
| StreamProperties.AllChunkRecordsProvenance | src/OllamaFlow.Sdk/OllamaFlowSdk.cs:650-676 | every record of a list of chunks is decoded from a line of one of them |
| StreamProperties.EveryRecordIsADecodedLine | src/OllamaFlow.Sdk/OllamaFlowSdk.cs:655-671 | every yielded record is the non-null decode of `processLine(line)` (or of the line itself) for a non-blank line of one chunk the reader took |
| StreamProperties.LineWithoutRecord | src/OllamaFlow.Sdk/OllamaFlowSdk.cs:658-668 | a blank, malformed or null line is skipped and the records around it are unaffected |
| StreamProperties.ChunkRecordsAtBoundary | src/OllamaFlow.Sdk/OllamaFlowSdk.cs:655 | a chunk text that breaks after a complete line yields the records of its two parts |
| StreamProperties.SplitChunkAfterNewline | src/OllamaFlow.Sdk/OllamaFlowSdk.cs:650-677 | cutting a chunk just after a newline yields the same records |
| StreamProperties.StraddlingRecordIsDropped | src/OllamaFlow.Sdk/OllamaFlowSdk.cs:655 | a record whose text is split across two chunks yields nothing, while the same text in one chunk yields the record |
| OllamaFlowSdk.AuthorizationHeaders | src/OllamaFlow.Sdk/OllamaFlowSdk.cs:149-150 | no header for a null or empty token; otherwise one `Authorization` header whose value is `Bearer ` followed by the token: its first seven characters are `Bearer ` and the rest is the token |
| OllamaFlowSdk.Sdk.constructor | src/OllamaFlow.Sdk/OllamaFlowSdk.cs:94 | on a non-empty endpoint, `Endpoint` is the input with its trailing slashes trimmed, so it does not end in '/' |
| OllamaFlowSdk.Sdk.Create | src/OllamaFlow.Sdk/OllamaFlowSdk.cs:89-94 | an empty endpoint is rejected; any other endpoint gives an SDK whose `Endpoint` is the trimmed input |
| OllamaFlowSdk.Sdk.Log | src/OllamaFlow.Sdk/OllamaFlowSdk.cs:137-141 | the logger receives the pair exactly when the message is non-empty and a logger is attached; nothing else changes |
| OllamaFlowSdk.Sdk.SetAuthorizationHeader | src/OllamaFlow.Sdk/OllamaFlowSdk.cs:147-151 | the request gains the bearer header exactly when the token is non-empty, and its other headers stay |
| OllamaFlowSdk.Sdk.PostStreamAsync | src/OllamaFlow.Sdk/OllamaFlowSdk.cs:632-645 | the streaming POST carries the authorization header and yields `StreamOutput` |
| OllamaFlowSdk.EndpointIsCanonical | src/OllamaFlow.Sdk/OllamaFlowSdk.cs:94 | the kept endpoint does not end in '/', re-trimming changes nothing, and the input is the kept endpoint followed only by slashes |
| OllamaFlowSdk.SlashesOnlyTrimToEmpty | src/OllamaFlow.Sdk/OllamaFlowSdk.cs:91-94 | an endpoint made only of slashes passes the emptiness check and is trimmed to the empty string |
| OllamaFlowSdk.ResponseText | src/OllamaFlow.Sdk/OllamaFlowSdk.cs:585-606 | `ReadResponse` is null exactly for a null response, and a non-chunked response reads as its buffered body, whatever the status |
| OllamaFlowSdk.BufferedText | src/OllamaFlow.Sdk/OllamaFlowSdk.cs:589-599 | the buffered text begins with the first chunk's text, and when no chunk is final it is `Join("")` of every chunk text |
| OllamaFlowSdk.BufferedTextThroughHorizon | src/OllamaFlow.Sdk/OllamaFlowSdk.cs:589-599 | the buffered text is `Join("")` of the chunk texts up to and including the first final chunk |
| OllamaFlowSdk.ReadResponse | src/OllamaFlow.Sdk/OllamaFlowSdk.cs:583-607 | the buffering loop, which skips empty chunks and leaves after a final one, returns `ResponseText` |
| OllamaFlowSdk.AlignedBufferMatchesStream | src/OllamaFlow.Sdk/OllamaFlowSdk.cs:589-599 | when every chunk boundary falls after a newline, splitting the buffered text gives exactly the stream pump's records |
| OllamaFlowSdk.BufferingJoinsStraddlingRecord | src/OllamaFlow.Sdk/OllamaFlowSdk.cs:589-599 | the buffered reader reassembles a record split across chunks, which the stream pump drops |
| OllamaFlowSdk.GetObject | src/OllamaFlow.Sdk/OllamaFlowSdk.cs:290-313 | null or non-2xx response or empty body gives null; for a 2xx non-empty body, a deserializer exception escapes as `JsonException`, a null decode gives null and a decoded value is returned; nothing else yields a value or an error |
| OllamaFlowSdk.GetRaw | src/OllamaFlow.Sdk/OllamaFlowSdk.cs:392-405 | the raw text is returned exactly for a 2xx response, and it is what `ReadResponse` read |
| OllamaFlowSdk.GetAll | src/OllamaFlow.Sdk/OllamaFlowSdk.cs:231-263 | null or non-2xx response, or an empty body, gives an empty list |
| OllamaFlowSdk.GetAllRootOrder | src/OllamaFlow.Sdk/OllamaFlowSdk.cs:240-252 | for a 2xx non-empty body: unparsable text throws `JsonException`; an array is the list; otherwise `"data"` is used if present, else `"items"`, else an empty list; a scalar root throws `InvalidOperation` |
| OllamaFlowSdk.GetAllReadsTheRawResponse | src/OllamaFlow.Sdk/OllamaFlowSdk.cs:231-252 | `GetAllAsync` is the dispatch applied to what `GetRawResponse` would return |
| OllamaFlowSdk.StatusGate | src/OllamaFlow.Sdk/OllamaFlowSdk.cs:429-438 | `DeleteAsync(url)` and `HeadAsync` report `Admitted`; when that is false, `GetRawResponse` is null, `GetAsync` is the default, and the stream yields nothing and reads no chunk |
| OllamaMethods.PullConfig | src/OllamaFlow.Sdk/Implementations/OllamaMethods.cs:63-71 | the pull loop has no line preprocessing and stops exactly on a status equal to "success" |
| OllamaMethods.PlainStream | src/OllamaFlow.Sdk/Implementations/OllamaMethods.cs:170 | the generate streams pass no `processLine` and no stop predicate |
| OllamaMethods.ToChatChunks | src/OllamaFlow.Sdk/Implementations/OllamaMethods.cs:170-179 | exactly one chunk per streamed record, in order, copying the model, creation time, message and done flag |
| OllamaMethods.ToChatChunksAppend | src/OllamaFlow.Sdk/Implementations/OllamaMethods.cs:170-180 | the mapping works record by record: mapping a concatenation concatenates the mappings |
| OllamaMethods.ListModels | src/OllamaFlow.Sdk/Implementations/OllamaMethods.cs:107-116 | a null or empty raw response (so also a null response or a non-2xx status) gives an empty list |
| OllamaMethods.ListModelsRootOrder | src/OllamaFlow.Sdk/Implementations/OllamaMethods.cs:109-116 | for a 2xx non-empty body: unparsable text throws; an array is the list; otherwise `"models"` is used if present, else an empty list; a scalar root throws |
| OllamaMethods.OllamaMethods.PullModel | src/OllamaFlow.Sdk/Implementations/OllamaMethods.cs:31-92 | the pull posts to `/api/pull` without an authorization header and yields the pump's output with the "success" stop; a null or non-2xx response yields nothing and reads no chunk; a non-chunked body yields at most one message |
| OllamaMethods.OllamaMethods.ListLocalModels | src/OllamaFlow.Sdk/Implementations/OllamaMethods.cs:104-117 | reads `/api/tags` through `ListModels` |
| OllamaMethods.OllamaMethods.ListRunningModels | src/OllamaFlow.Sdk/Implementations/OllamaMethods.cs:120-133 | reads `/api/ps` through `ListModels` |
| OllamaMethods.OllamaMethods.GenerateCompletion | src/OllamaFlow.Sdk/Implementations/OllamaMethods.cs:150-155 | sets `Stream` to false, posts to `/api/generate` and reads the reply as `PostAsync` does |
| OllamaMethods.OllamaMethods.GenerateChatCompletion | src/OllamaFlow.Sdk/Implementations/OllamaMethods.cs:158-163 | sets `Stream` to false, posts to `/api/chat` and reads the reply as `PostAsync` does |
| OllamaMethods.OllamaMethods.GenerateChatCompletionStream | src/OllamaFlow.Sdk/Implementations/OllamaMethods.cs:166-181 | sets `Stream` to true, sends the authorization header, and yields one chunk per streamed record |
| OllamaMethods.OllamaMethods.GenerateCompletionStream | src/OllamaFlow.Sdk/Implementations/OllamaMethods.cs:184-192 | sets `Stream` to true, sends the authorization header, and passes the streamed records through |
| OllamaMethods.PullEndsAtFirstSuccess | src/OllamaFlow.Sdk/Implementations/OllamaMethods.cs:69-71 | the pull yields everything up to and including the first "success" message, and nothing after it |
| OllamaMethods.PullWithoutSuccessKeepsEverything | src/OllamaFlow.Sdk/Implementations/OllamaMethods.cs:55-76 | without a "success" message the pull yields every decoded message through the final chunk |
| OllamaMethods.SuccessTestIsCaseSensitive | src/OllamaFlow.Sdk/Implementations/OllamaMethods.cs:70 | "Success" and "SUCCESS" do not end the pull |
| OllamaMethods.PullBodyIgnoresStatus | src/OllamaFlow.Sdk/Implementations/OllamaMethods.cs:78-89 | a non-chunked pull body yields its decoded message, "success" or not, and nothing for an empty, null or malformed body |
| OllamaMethods.DoneDoesNotEndChatStream | src/OllamaFlow.Sdk/Implementations/OllamaMethods.cs:166-181 | with no stop predicate, a record with `done` set does not end the stream: every record through the final chunk is yielded |

## Left out

- HTTP transport: `RestRequest`, `SendAsync`, `ReadChunkAsync`, timeouts and content type are library calls. The response is a parameter, and a request is modelled only by its headers (`RestRequest.headers`). `Headers.Add` with a repeated name is modelled as appending one more pair.
- System.Text.Json: parsing and serialization, and the serializer options (case-insensitive names, the enum converter). The deserializers are parameters. `PullModel` and the model lists deserialize without the SDK's options, and the model covers that by passing a different deserializer. Request bodies are not serialized.
- UTF-8 decoding of chunk bytes: chunk data is already text. A null chunk `Data` and an empty one are both the empty string, and a null `DataAsString` is the empty body.
- Async machinery and the `CancellationToken`: the token is only forwarded to the transport, and the pump never checks it.
- Logging: the `LogRequests`/`LogResponses` messages and the `WARN`/`DEBUG` calls inside the readers are not modelled. Only the guard inside `Log` is.
- The `ArgumentNullException` checks on `url`, `data` and the `OllamaMethods` constructor's `sdk`: URLs are built from `Endpoint` and null references are not modelled.
- `PostAsync`, `PutAsync` and `DeleteAsync<T>`: they read their response exactly as `GetAsync` does, so `GetObject` models all four. Their request side (serialization, the authorization header that `DeleteAsync<T>` omits) is not modelled.
- `GetRawPostResponse`: it reads its response exactly as `GetRawResponse` does (`GetRaw`).
- `ShowModelInfo`, `GenerateEmbeddings` and `DeleteModel`: one-line wrappers around `PostAsync` and `DeleteAsync<T>`.
- `BackendMethods`, `FrontendMethods` and `OpenAIMethods`, the interface files, the console test program and `Dispose`: none of them is part of this model.
- `Endpoint`, `BearerToken` and `Logger` are settable properties, modelled as public fields. "The endpoint never ends in '/'" is proved for the value the constructor stores, not as an invariant of later assignments.
- The request objects of the generate calls: only the `Stream` flag and the model name are modelled.
- The streamed chat record: only the four copied fields are named. The others are one opaque component (`rest`).
- Cross-chunk fragment reassembly and chunk-boundary invariance: the code does not implement them.
- StreamPump.PostStream: `chunksRead` counts the chunk reads that returned a chunk; the closing read that returns null is not counted.
