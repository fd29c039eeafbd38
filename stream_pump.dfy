/**
 * The streaming reader of `OllamaFlowSdk.PostStreamAsync`: it turns one
 * HTTP response into the ordered sequence of records the async enumerable
 * yields. A chunked body is read chunk by chunk; each chunk's text is split
 * on '\n' by itself (no fragment is carried into the next chunk), empty and
 * blank lines are skipped, each remaining line goes through the optional
 * `processLine` and the deserializer, failures and nulls are skipped, and
 * after every yielded record the optional `shouldStop` may end the stream.
 * A non-chunked body is decoded whole, once.
 *
 * The declarative reading of the loop is `StreamOutput`: the records of the
 * chunks through the first final chunk, truncated just after the first
 * record the stop predicate accepts. `PostStream` is the loop itself.
 */
module StreamPump {
  import opened Wrappers
  import opened Text
  import opened Transport
  import opened Json

  /** The deserializer and the two optional callbacks of one `PostStreamAsync` call. */
  datatype StreamConfig<!T> = StreamConfig(
    decode: string -> Parsed<T>,
    processLine: Option<string -> Option<string>>,
    shouldStop: Option<T -> bool>)

  /** `processLine?.Invoke(line) ?? line`: a missing callback or a null result keeps the line. */
  function Preprocess<T>(cfg: StreamConfig<T>, line: string): (text: string)
    ensures text == line || (cfg.processLine.Some? && cfg.processLine.value(line) == Some(text))
    ensures cfg.processLine.Some? && cfg.processLine.value(line).Some? ==> text == cfg.processLine.value(line).value
  {
    if cfg.processLine.None? then line
    else
      var processed := cfg.processLine.value(line);
      if processed.Some? then processed.value else line
  }

  /** `shouldStop?.Invoke(record) == true`: a missing predicate never stops. */
  function Stops<T>(cfg: StreamConfig<T>, record: T): (stop: bool)
    ensures stop ==> cfg.shouldStop.Some?
    ensures cfg.shouldStop.Some? ==> (stop <==> cfg.shouldStop.value(record))
  {
    cfg.shouldStop.Some? && cfg.shouldStop.value(record)
  }

  predicate NoStop<T>(cfg: StreamConfig<T>, records: seq<T>)
  {
    forall k :: 0 <= k < |records| ==> !Stops(cfg, records[k])
  }

  /** What one line contributes: nothing when it is blank or its decode fails or is null. */
  function LineRecord<T>(cfg: StreamConfig<T>, line: string): (out: seq<T>)
    ensures |out| <= 1
    ensures out != [] ==> !IsBlank(line) && cfg.decode(Preprocess(cfg, line)) == Value(out[0])
    ensures out == [] ==> IsBlank(line) || !cfg.decode(Preprocess(cfg, line)).Value?
  {
    if IsBlank(line) then []
    else
      match cfg.decode(Preprocess(cfg, line))
      case Value(record) => [record]
      case _ => []
  }

  /** The records of a sequence of lines, in line order. */
  function LineRecords<T>(cfg: StreamConfig<T>, lines: seq<string>): seq<T>
  {
    if lines == [] then [] else LineRecord(cfg, lines[0]) + LineRecords(cfg, lines[1..])
  }

  /** The records of one chunk's text, split on its own. */
  function ChunkRecords<T>(cfg: StreamConfig<T>, data: string): seq<T>
  {
    LineRecords(cfg, Lines(data))
  }

  /** The records of the chunks through the first final chunk, chunk after chunk, ignoring the stop predicate. */
  function StreamedRecords<T>(cfg: StreamConfig<T>, chunks: seq<Chunk>): (records: seq<T>)
    ensures chunks != [] ==> ChunkRecords(cfg, chunks[0].data) <= records
    ensures NoFinal(chunks) ==> records == AllChunkRecords(cfg, chunks)
  {
    if chunks == [] then []
    else ChunkRecords(cfg, chunks[0].data) + (if chunks[0].isFinal then [] else StreamedRecords(cfg, chunks[1..]))
  }

  /** The records of every chunk, final flags ignored. */
  function AllChunkRecords<T>(cfg: StreamConfig<T>, chunks: seq<Chunk>): seq<T>
  {
    if chunks == [] then [] else ChunkRecords(cfg, chunks[0].data) + AllChunkRecords(cfg, chunks[1..])
  }

  /** The records up to and including the first one the stop predicate accepts. */
  function TakeThroughStop<T>(cfg: StreamConfig<T>, records: seq<T>): (out: seq<T>)
    ensures out <= records
    ensures forall k :: 0 <= k < |out| - 1 ==> !Stops(cfg, out[k])
    ensures out != records ==> out != [] && Stops(cfg, out[|out| - 1])
  {
    if records == [] then []
    else if Stops(cfg, records[0]) then [records[0]]
    else [records[0]] + TakeThroughStop(cfg, records[1..])
  }

  /** The non-chunked path: the whole body, when not empty, decoded once, with no stop test. */
  function BodyRecord<T>(cfg: StreamConfig<T>, body: string): (out: seq<T>)
    ensures |out| <= 1
    ensures out != [] <==> body != "" && cfg.decode(Preprocess(cfg, body)).Value?
    ensures out != [] ==> cfg.decode(Preprocess(cfg, body)) == Value(out[0])
  {
    if body == "" then []
    else
      match cfg.decode(Preprocess(cfg, body))
      case Value(record) => [record]
      case _ => []
  }

  /** Everything `PostStreamAsync` yields for a response. */
  function StreamOutput<T>(resp: Option<Response>, cfg: StreamConfig<T>): (out: seq<T>)
    ensures !Admitted(resp) ==> out == []
    ensures Admitted(resp) && resp.value.chunked ==> out <= StreamedRecords(cfg, resp.value.chunks)
    ensures Admitted(resp) && resp.value.chunked && cfg.shouldStop.None? ==> out == StreamedRecords(cfg, resp.value.chunks)
    ensures Admitted(resp) && !resp.value.chunked ==> |out| <= 1
  {
    if !Admitted(resp) then []
    else if resp.value.chunked then TakeThroughStop(cfg, StreamedRecords(cfg, resp.value.chunks))
    else BodyRecord(cfg, resp.value.body)
  }

  /** The number of chunks the chunked loop reads before it leaves: it stops after a final chunk or a stopping record. */
  function ChunksConsumed<T>(cfg: StreamConfig<T>, chunks: seq<Chunk>): (n: nat)
    ensures n <= Horizon(chunks)
  {
    if chunks == [] then 0
    else if chunks[0].isFinal || !NoStop(cfg, ChunkRecords(cfg, chunks[0].data)) then 1
    else 1 + ChunksConsumed(cfg, chunks[1..])
  }

  /** The number of non-null chunk reads the stream makes. */
  function Consumed<T>(resp: Option<Response>, cfg: StreamConfig<T>): nat
  {
    if Admitted(resp) && resp.value.chunked then ChunksConsumed(cfg, resp.value.chunks) else 0
  }

  /** Records before the first stopping one pass through; the truncation happens later. */
  lemma {:induction false} TakeThroughStopPass<T>(cfg: StreamConfig<T>, xs: seq<T>, ys: seq<T>)
    requires NoStop(cfg, xs)
    ensures TakeThroughStop(cfg, xs + ys) == xs + TakeThroughStop(cfg, ys)
    decreases |xs|
  {
    if xs == [] {
      assert xs + ys == ys;
    } else {
      assert (xs + ys)[0] == xs[0] && (xs + ys)[1..] == xs[1..] + ys;
      TakeThroughStopPass(cfg, xs[1..], ys);
    }
  }

  /** Without a stopping record nothing is cut off. */
  lemma TakeThroughStopAll<T>(cfg: StreamConfig<T>, xs: seq<T>)
    requires NoStop(cfg, xs)
    ensures TakeThroughStop(cfg, xs) == xs
  {
    TakeThroughStopPass(cfg, xs, []);
    assert xs + [] == xs;
  }

  /** Once a stopping record occurs, whatever follows it is never yielded. */
  lemma {:induction false} TakeThroughStopHit<T>(cfg: StreamConfig<T>, xs: seq<T>, ys: seq<T>)
    requires !NoStop(cfg, xs)
    ensures TakeThroughStop(cfg, xs + ys) == TakeThroughStop(cfg, xs)
    decreases |xs|
  {
    assert (xs + ys)[0] == xs[0] && (xs + ys)[1..] == xs[1..] + ys;
    if !Stops(cfg, xs[0]) {
      assert !NoStop(cfg, xs[1..]) by {
        var k :| 0 <= k < |xs| && Stops(cfg, xs[k]);
        assert xs[1..][k - 1] == xs[k];
      }
      TakeThroughStopHit(cfg, xs[1..], ys);
    }
  }

  /** A stopping record that ends what has been collected so far is the last one yielded. */
  lemma StopAtLast<T>(cfg: StreamConfig<T>, collected: seq<T>, after: seq<T>)
    requires collected != [] && NoStop(cfg, collected[..|collected| - 1])
    requires Stops(cfg, collected[|collected| - 1])
    ensures TakeThroughStop(cfg, collected + after) == collected
    ensures !NoStop(cfg, collected + after)
  {
    var last := collected[|collected| - 1];
    var front := collected[..|collected| - 1];
    assert collected == front + [last];
    assert (collected + after)[|collected| - 1] == last;
    assert collected + after == front + ([last] + after);
    TakeThroughStopPass(cfg, front, [last] + after);
  }

  /** The records of consecutive runs of lines follow each other. */
  lemma {:induction false} LineRecordsAppend<T>(cfg: StreamConfig<T>, a: seq<string>, b: seq<string>)
    ensures LineRecords(cfg, a + b) == LineRecords(cfg, a) + LineRecords(cfg, b)
    decreases |a|
  {
    if a == [] {
      assert a + b == b;
    } else {
      assert (a + b)[0] == a[0] && (a + b)[1..] == a[1..] + b;
      LineRecordsAppend(cfg, a[1..], b);
    }
  }

  lemma LineRecordsSnoc<T>(cfg: StreamConfig<T>, lines: seq<string>, j: nat)
    requires j < |lines|
    ensures LineRecords(cfg, lines[..j + 1]) == LineRecords(cfg, lines[..j]) + LineRecord(cfg, lines[j])
  {
    assert lines[..j + 1] == lines[..j] + [lines[j]];
    LineRecordsAppend(cfg, lines[..j], [lines[j]]);
    assert LineRecords(cfg, [lines[j]]) == LineRecord(cfg, lines[j]) + LineRecords(cfg, []);
  }

  /** The body of the line loop: skip a blank line, preprocess, decode, and drop failures and nulls. */
  method DecodeLine<T>(cfg: StreamConfig<T>, line: string) returns (record: Option<T>)
    ensures LineRecord(cfg, line) == if record.Some? then [record.value] else []
  {
    if IsBlank(line) {
      return None;
    }
    var parsed := cfg.decode(Preprocess(cfg, line));
    if parsed.Value? {
      return Some(parsed.value);
    }
    return None;
  }

  /** Leaving the line loop at a stopping record yields exactly the truncated records of the chunk. */
  lemma StopInChunk<T>(cfg: StreamConfig<T>, lines: seq<string>, j: nat, out: seq<T>)
    requires j <= |lines| && out == LineRecords(cfg, lines[..j])
    requires out != [] && NoStop(cfg, out[..|out| - 1]) && Stops(cfg, out[|out| - 1])
    ensures out == TakeThroughStop(cfg, LineRecords(cfg, lines))
    ensures !NoStop(cfg, LineRecords(cfg, lines))
  {
    assert lines == lines[..j] + lines[j..];
    LineRecordsAppend(cfg, lines[..j], lines[j..]);
    StopAtLast(cfg, out, LineRecords(cfg, lines[j..]));
  }

  /**
   * The `foreach` over one chunk's lines: split the chunk's text on its own,
   * skip blank lines, decode, collect, and leave at the first record the stop
   * predicate accepts. `stopped` tells the chunk loop to `yield break`.
   */
  method PumpChunk<T>(cfg: StreamConfig<T>, data: string) returns (out: seq<T>, stopped: bool)
    ensures out == TakeThroughStop(cfg, ChunkRecords(cfg, data))
    ensures stopped <==> !NoStop(cfg, ChunkRecords(cfg, data))
  {
    out, stopped := PumpLines(cfg, Lines(data));
  }

  /** The line loop over the lines of one chunk. */
  method PumpLines<T>(cfg: StreamConfig<T>, lines: seq<string>) returns (out: seq<T>, stopped: bool)
    ensures out == TakeThroughStop(cfg, LineRecords(cfg, lines))
    ensures stopped <==> !NoStop(cfg, LineRecords(cfg, lines))
  {
    out, stopped := [], false;
    var j := 0;
    while j < |lines|
      invariant 0 <= j <= |lines|
      invariant NoStop(cfg, out)
      invariant out == LineRecords(cfg, lines[..j])
    {
      LineRecordsSnoc(cfg, lines, j);
      var record := DecodeLine(cfg, lines[j]);
      j := j + 1;
      if record.Some? {
        assert out == (out + [record.value])[..|out|];
        out := out + [record.value];
        if Stops(cfg, record.value) {
          stopped := true;
          StopInChunk(cfg, lines, j, out);
          return;
        }
      }
    }
    assert lines[..j] == lines;
    TakeThroughStopAll(cfg, out);
  }

  lemma NoStopAppend<T>(cfg: StreamConfig<T>, a: seq<T>, b: seq<T>)
    ensures NoStop(cfg, a + b) <==> NoStop(cfg, a) && NoStop(cfg, b)
  {
    if NoStop(cfg, a) && NoStop(cfg, b) {
      forall k | 0 <= k < |a + b| ensures !Stops(cfg, (a + b)[k]) {
        if k >= |a| {
          assert (a + b)[k] == b[k - |a|];
        }
      }
    }
    if NoStop(cfg, a + b) {
      forall k | 0 <= k < |a| ensures !Stops(cfg, a[k]) {
        assert (a + b)[k] == a[k];
      }
      forall k | 0 <= k < |b| ensures !Stops(cfg, b[k]) {
        assert (a + b)[|a| + k] == b[k];
      }
    }
  }

  /** The records of consecutive runs of chunks follow each other. */
  lemma {:induction false} AllChunkRecordsAppend<T>(cfg: StreamConfig<T>, a: seq<Chunk>, b: seq<Chunk>)
    ensures AllChunkRecords(cfg, a + b) == AllChunkRecords(cfg, a) + AllChunkRecords(cfg, b)
    decreases |a|
  {
    if a == [] {
      assert a + b == b;
    } else {
      assert (a + b)[0] == a[0] && (a + b)[1..] == a[1..] + b;
      AllChunkRecordsAppend(cfg, a[1..], b);
    }
  }

  lemma AllChunkRecordsSnoc<T>(cfg: StreamConfig<T>, chunks: seq<Chunk>, i: nat)
    requires i < |chunks|
    ensures AllChunkRecords(cfg, chunks[..i + 1]) == AllChunkRecords(cfg, chunks[..i]) + ChunkRecords(cfg, chunks[i].data)
  {
    assert chunks[..i + 1] == chunks[..i] + [chunks[i]];
    AllChunkRecordsAppend(cfg, chunks[..i], [chunks[i]]);
    assert AllChunkRecords(cfg, [chunks[i]]) == ChunkRecords(cfg, chunks[i].data) + AllChunkRecords(cfg, []);
  }

  lemma NoFinalTail(chunks: seq<Chunk>, i: nat)
    requires 0 < i <= |chunks| && NoFinal(chunks[..i])
    ensures !chunks[0].isFinal && NoFinal(chunks[1..][..i - 1])
  {
    var pre := chunks[1..][..i - 1];
    forall k | 0 <= k < |pre| ensures !pre[k].isFinal {
      assert pre[k] == chunks[..i][k + 1];
    }
    assert chunks[..i][0] == chunks[0];
  }

  lemma {:induction false} StreamedSplit<T>(cfg: StreamConfig<T>, chunks: seq<Chunk>, i: nat)
    requires i <= |chunks| && NoFinal(chunks[..i])
    ensures StreamedRecords(cfg, chunks) == AllChunkRecords(cfg, chunks[..i]) + StreamedRecords(cfg, chunks[i..])
    decreases i
  {
    if i == 0 {
      assert chunks[..0] == [] && chunks[0..] == chunks;
    } else {
      var tail := chunks[1..];
      assert !chunks[..i][0].isFinal;
      assert chunks[..i][1..] == tail[..i - 1];
      assert tail[i - 1..] == chunks[i..];
      NoFinalTail(chunks, i);
      StreamedSplit(cfg, tail, i - 1);
    }
  }

  lemma {:induction false} ConsumedSplit<T>(cfg: StreamConfig<T>, chunks: seq<Chunk>, i: nat)
    requires i <= |chunks| && NoFinal(chunks[..i]) && NoStop(cfg, AllChunkRecords(cfg, chunks[..i]))
    ensures ChunksConsumed(cfg, chunks) == i + ChunksConsumed(cfg, chunks[i..])
    decreases i
  {
    if i == 0 {
      assert chunks[0..] == chunks;
    } else {
      var tail := chunks[1..];
      assert !chunks[..i][0].isFinal;
      assert chunks[..i][1..] == tail[..i - 1];
      assert tail[i - 1..] == chunks[i..];
      NoFinalTail(chunks, i);
      NoStopAppend(cfg, ChunkRecords(cfg, chunks[0].data), AllChunkRecords(cfg, tail[..i - 1]));
      ConsumedSplit(cfg, tail, i - 1);
    }
  }

  /** The loop of `PostStreamAsync`, after the request has been sent. */
  method PostStream<T>(resp: Option<Response>, cfg: StreamConfig<T>) returns (records: seq<T>, chunksRead: nat)
    ensures records == StreamOutput(resp, cfg)
    ensures chunksRead == Consumed(resp, cfg)
    ensures !Admitted(resp) ==> records == [] && chunksRead == 0
    ensures Admitted(resp) && !resp.value.chunked ==> |records| <= 1 && chunksRead == 0
  {
    records, chunksRead := [], 0;
    if resp.None? || !IsSuccess(resp.value.status) {
      return;
    }
    var r := resp.value;
    if r.chunked {
      records, chunksRead := PumpChunks(cfg, r.chunks);
    } else if |r.body| > 0 {
      var parsed := cfg.decode(Preprocess(cfg, r.body));
      if parsed.Value? {
        records := [parsed.value];
      }
    }
  }

  /** The `while (true)` over `ReadChunkAsync`: leave on a null read, a stopping record or a final chunk. */
  method PumpChunks<T>(cfg: StreamConfig<T>, chunks: seq<Chunk>) returns (records: seq<T>, chunksRead: nat)
    ensures records == TakeThroughStop(cfg, StreamedRecords(cfg, chunks))
    ensures chunksRead == ChunksConsumed(cfg, chunks)
  {
    records, chunksRead := [], 0;
    var i := 0;
    while i < |chunks|
      invariant 0 <= i <= |chunks| && chunksRead == i
      invariant NoFinal(chunks[..i])
      invariant records == AllChunkRecords(cfg, chunks[..i])
      invariant NoStop(cfg, records)
    {
      var chunk := chunks[i];
      chunksRead := chunksRead + 1;
      var out, stopped := PumpChunk(cfg, chunk.data);
      if stopped || chunk.isFinal {
        LeaveAt(cfg, chunks, i);
        records := records + out;
        return;
      }
      ContinueAt(cfg, chunks, i);
      records := records + out;
      i := i + 1;
    }
    StreamedSplit(cfg, chunks, i);
    ConsumedSplit(cfg, chunks, i);
    assert chunks[..i] == chunks;
    TakeThroughStopAll(cfg, records);
  }

  /** The chunk loop leaves after chunk `i`: what it has yielded is the whole stream output. */
  lemma LeaveAt<T>(cfg: StreamConfig<T>, chunks: seq<Chunk>, i: nat)
    requires i < |chunks| && NoFinal(chunks[..i]) && NoStop(cfg, AllChunkRecords(cfg, chunks[..i]))
    requires chunks[i].isFinal || !NoStop(cfg, ChunkRecords(cfg, chunks[i].data))
    ensures AllChunkRecords(cfg, chunks[..i]) + TakeThroughStop(cfg, ChunkRecords(cfg, chunks[i].data))
      == TakeThroughStop(cfg, StreamedRecords(cfg, chunks))
    ensures ChunksConsumed(cfg, chunks) == i + 1
  {
    StreamTail(cfg, chunks, i);
    LeaveStep(cfg, AllChunkRecords(cfg, chunks[..i]), ChunkRecords(cfg, chunks[i].data),
      if chunks[i].isFinal then [] else StreamedRecords(cfg, chunks[i + 1..]));
  }

  /** The chunk loop goes on after chunk `i`: its invariants hold for `i + 1`. */
  lemma ContinueAt<T>(cfg: StreamConfig<T>, chunks: seq<Chunk>, i: nat)
    requires i < |chunks| && NoFinal(chunks[..i]) && NoStop(cfg, AllChunkRecords(cfg, chunks[..i]))
    requires !chunks[i].isFinal && NoStop(cfg, ChunkRecords(cfg, chunks[i].data))
    ensures TakeThroughStop(cfg, ChunkRecords(cfg, chunks[i].data)) == ChunkRecords(cfg, chunks[i].data)
    ensures NoFinal(chunks[..i + 1])
    ensures AllChunkRecords(cfg, chunks[..i + 1]) == AllChunkRecords(cfg, chunks[..i]) + ChunkRecords(cfg, chunks[i].data)
    ensures NoStop(cfg, AllChunkRecords(cfg, chunks[..i + 1]))
  {
    TakeThroughStopAll(cfg, ChunkRecords(cfg, chunks[i].data));
    NoStopAppend(cfg, AllChunkRecords(cfg, chunks[..i]), ChunkRecords(cfg, chunks[i].data));
    AllChunkRecordsSnoc(cfg, chunks, i);
    assert chunks[..i + 1] == chunks[..i] + [chunks[i]];
  }

  /** What the loop has yielded when it leaves in the middle: the earlier chunks' records and this chunk's, cut at the stop. */
  lemma LeaveStep<T>(cfg: StreamConfig<T>, before: seq<T>, here: seq<T>, rest: seq<T>)
    requires NoStop(cfg, before)
    requires rest == [] || !NoStop(cfg, here)
    ensures TakeThroughStop(cfg, before + here + rest) == before + TakeThroughStop(cfg, here)
  {
    assert before + here + rest == before + (here + rest);
    TakeThroughStopPass(cfg, before, here + rest);
    if rest == [] {
      assert here + rest == here;
    } else {
      TakeThroughStopHit(cfg, here, rest);
    }
  }

  /** The state at the top of the chunk loop, before chunk `i` is read. */
  lemma StreamTail<T>(cfg: StreamConfig<T>, chunks: seq<Chunk>, i: nat)
    requires i < |chunks| && NoFinal(chunks[..i])
    ensures StreamedRecords(cfg, chunks) == AllChunkRecords(cfg, chunks[..i]) + ChunkRecords(cfg, chunks[i].data)
      + (if chunks[i].isFinal then [] else StreamedRecords(cfg, chunks[i + 1..]))
    ensures NoStop(cfg, AllChunkRecords(cfg, chunks[..i])) ==>
      ChunksConsumed(cfg, chunks) == i + (if chunks[i].isFinal || !NoStop(cfg, ChunkRecords(cfg, chunks[i].data))
                                          then 1 else 1 + ChunksConsumed(cfg, chunks[i + 1..]))
  {
    StreamedSplit(cfg, chunks, i);
    assert chunks[i..][0] == chunks[i] && chunks[i..][1..] == chunks[i + 1..];
    if NoStop(cfg, AllChunkRecords(cfg, chunks[..i])) {
      ConsumedSplit(cfg, chunks, i);
    }
  }
}
