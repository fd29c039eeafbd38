/**
 * What the streaming reader promises, and what it does not: the stop
 * predicate only truncates, chunks after the loop has left are never
 * looked at, every record comes from one non-blank line of one chunk, a
 * line that yields nothing leaves its neighbours alone, and a chunk may be
 * cut just after a newline without changing anything. A record whose text
 * straddles two chunks, however, is lost: each chunk is split on its own.
 */
module StreamProperties {
  import opened Wrappers
  import opened Text
  import opened Transport
  import opened Json
  import opened StreamPump

  /** Only the chunks up to and including the first final one contribute records. */
  lemma {:induction false} StreamedThroughHorizon<T>(cfg: StreamConfig<T>, chunks: seq<Chunk>)
    ensures StreamedRecords(cfg, chunks) == AllChunkRecords(cfg, chunks[..Horizon(chunks)])
    decreases |chunks|
  {
    if chunks != [] {
      var n := Horizon(chunks);
      var here := ChunkRecords(cfg, chunks[0].data);
      if chunks[0].isFinal {
        assert chunks[..n] == [chunks[0]];
        assert AllChunkRecords(cfg, [chunks[0]]) == here + AllChunkRecords(cfg, []);
      } else {
        StreamedThroughHorizon(cfg, chunks[1..]);
        assert chunks[..n][0] == chunks[0];
        assert chunks[..n][1..] == chunks[1..][..Horizon(chunks[1..])];
      }
    }
  }

  /** A configuration that differs only in its stop predicate. */
  function WithStop<T>(cfg: StreamConfig<T>, stop: Option<T -> bool>): (c: StreamConfig<T>)
    ensures c.decode == cfg.decode && c.processLine == cfg.processLine && c.shouldStop == stop
  {
    StreamConfig(cfg.decode, cfg.processLine, stop)
  }

  lemma {:induction false} LineRecordsIgnoreStop<T>(cfg: StreamConfig<T>, stop: Option<T -> bool>, lines: seq<string>)
    ensures LineRecords(cfg, lines) == LineRecords(WithStop(cfg, stop), lines)
    decreases |lines|
  {
    if lines != [] {
      LineRecordsIgnoreStop(cfg, stop, lines[1..]);
    }
  }

  /** Which records the chunks hold does not depend on the stop predicate. */
  lemma {:induction false} StreamedIgnoresStop<T>(cfg: StreamConfig<T>, stop: Option<T -> bool>, chunks: seq<Chunk>)
    ensures StreamedRecords(cfg, chunks) == StreamedRecords(WithStop(cfg, stop), chunks)
    decreases |chunks|
  {
    if chunks != [] {
      LineRecordsIgnoreStop(cfg, stop, Lines(chunks[0].data));
      StreamedIgnoresStop(cfg, stop, chunks[1..]);
    }
  }

  /**
   * The stop predicate only truncates: with it the stream yields a prefix of
   * what it yields without one, and without one it yields every record of the
   * chunks through the first final chunk. A non-chunked body never consults it.
   */
  lemma StopOnlyTruncates<T>(resp: Option<Response>, cfg: StreamConfig<T>)
    ensures StreamOutput(resp, cfg) <= StreamOutput(resp, WithStop(cfg, None))
    ensures Admitted(resp) && !resp.value.chunked ==>
      StreamOutput(resp, cfg) == StreamOutput(resp, WithStop(cfg, None))
    ensures Admitted(resp) && resp.value.chunked ==>
      StreamOutput(resp, WithStop(cfg, None)) == StreamedRecords(cfg, resp.value.chunks)
  {
    if Admitted(resp) && resp.value.chunked {
      var free := WithStop(cfg, None);
      var all := StreamedRecords(cfg, resp.value.chunks);
      StreamedIgnoresStop(cfg, None, resp.value.chunks);
      assert NoStop(free, all);
      TakeThroughStopAll(free, all);
    }
  }

  /**
   * Once the loop leaves before the end of the list (a final chunk or a
   * stopping record), the chunks it did not read are irrelevant: any other
   * list that agrees on the chunks read gives the same records and the same
   * number of reads.
   */
  lemma {:induction false} UnreadChunksAreIrrelevant<T>(cfg: StreamConfig<T>, chunks: seq<Chunk>, other: seq<Chunk>)
    requires ChunksConsumed(cfg, chunks) < |chunks|
    requires ChunksConsumed(cfg, chunks) <= |other|
    requires other[..ChunksConsumed(cfg, chunks)] == chunks[..ChunksConsumed(cfg, chunks)]
    ensures ChunksConsumed(cfg, other) == ChunksConsumed(cfg, chunks)
    ensures TakeThroughStop(cfg, StreamedRecords(cfg, other)) == TakeThroughStop(cfg, StreamedRecords(cfg, chunks))
    decreases |chunks|
  {
    var n := ChunksConsumed(cfg, chunks);
    assert other[..n][0] == other[0] && chunks[..n][0] == chunks[0];
    var here := ChunkRecords(cfg, chunks[0].data);
    if chunks[0].isFinal {
      assert here + [] == here;
    } else if !NoStop(cfg, here) {
      TakeThroughStopHit(cfg, here, StreamedRecords(cfg, chunks[1..]));
      TakeThroughStopHit(cfg, here, StreamedRecords(cfg, other[1..]));
    } else {
      assert other[1..][..n - 1] == other[..n][1..];
      assert chunks[1..][..n - 1] == chunks[..n][1..];
      UnreadChunksAreIrrelevant(cfg, chunks[1..], other[1..]);
      TakeThroughStopPass(cfg, here, StreamedRecords(cfg, chunks[1..]));
      TakeThroughStopPass(cfg, here, StreamedRecords(cfg, other[1..]));
    }
  }

  /** Without a final chunk and without a stopping record, the loop reads until the null chunk. */
  lemma ReadsUntilNull<T>(cfg: StreamConfig<T>, chunks: seq<Chunk>)
    requires NoFinal(chunks) && NoStop(cfg, AllChunkRecords(cfg, chunks))
    ensures ChunksConsumed(cfg, chunks) == |chunks|
    ensures TakeThroughStop(cfg, StreamedRecords(cfg, chunks)) == AllChunkRecords(cfg, chunks)
  {
    assert chunks[..|chunks|] == chunks && chunks[|chunks|..] == [];
    StreamedSplit(cfg, chunks, |chunks|);
    ConsumedSplit(cfg, chunks, |chunks|);
    TakeThroughStopAll(cfg, AllChunkRecords(cfg, chunks));
  }

  /** `record` is what the deserializer makes of a non-blank `line`, after preprocessing. */
  ghost predicate DecodedFrom<T>(cfg: StreamConfig<T>, record: T, line: string)
  {
    !IsBlank(line) && cfg.decode(Preprocess(cfg, line)) == Value(record)
  }

  /** Every record of a run of lines is decoded from one of those lines. */
  lemma {:induction false} LineRecordsProvenance<T>(cfg: StreamConfig<T>, lines: seq<string>)
    ensures forall k :: 0 <= k < |LineRecords(cfg, lines)| ==>
      exists j :: 0 <= j < |lines| && DecodedFrom(cfg, LineRecords(cfg, lines)[k], lines[j])
    decreases |lines|
  {
    if lines != [] {
      LineRecordsProvenance(cfg, lines[1..]);
      var first := LineRecord(cfg, lines[0]);
      var rest := LineRecords(cfg, lines[1..]);
      var all := LineRecords(cfg, lines);
      assert all == first + rest;
      forall k | 0 <= k < |all|
        ensures exists j :: 0 <= j < |lines| && DecodedFrom(cfg, all[k], lines[j])
      {
        if k < |first| {
          assert DecodedFrom(cfg, all[k], lines[0]);
        } else {
          assert all[k] == rest[k - |first|];
          var j :| 0 <= j < |lines[1..]| && DecodedFrom(cfg, rest[k - |first|], lines[1..][j]);
          assert lines[1..][j] == lines[j + 1];
          assert DecodedFrom(cfg, all[k], lines[j + 1]);
        }
      }
    } else {
      assert LineRecords(cfg, lines) == [];
    }
  }

  /** `record` is decoded from some line of one of `chunks`, each chunk split on its own. */
  ghost predicate FromSomeLine<T>(cfg: StreamConfig<T>, record: T, chunks: seq<Chunk>)
  {
    exists c, j :: 0 <= c < |chunks| && 0 <= j < |Lines(chunks[c].data)| && DecodedFrom(cfg, record, Lines(chunks[c].data)[j])
  }

  lemma {:induction false} AllChunkRecordsProvenance<T>(cfg: StreamConfig<T>, chunks: seq<Chunk>)
    ensures forall k :: 0 <= k < |AllChunkRecords(cfg, chunks)| ==> FromSomeLine(cfg, AllChunkRecords(cfg, chunks)[k], chunks)
    decreases |chunks|
  {
    if chunks != [] {
      AllChunkRecordsProvenance(cfg, chunks[1..]);
      LineRecordsProvenance(cfg, Lines(chunks[0].data));
      var here := ChunkRecords(cfg, chunks[0].data);
      var rest := AllChunkRecords(cfg, chunks[1..]);
      forall k | 0 <= k < |here + rest| ensures FromSomeLine(cfg, (here + rest)[k], chunks) {
        if k < |here| {
          var j :| 0 <= j < |Lines(chunks[0].data)| && DecodedFrom(cfg, here[k], Lines(chunks[0].data)[j]);
          assert (here + rest)[k] == here[k];
        } else {
          assert (here + rest)[k] == rest[k - |here|];
          var tail := chunks[1..];
          var c, j :| 0 <= c < |tail| && 0 <= j < |Lines(tail[c].data)| && DecodedFrom(cfg, rest[k - |here|], Lines(tail[c].data)[j]);
          assert tail[c] == chunks[c + 1];
        }
      }
    }
  }

  /**
   * Every record the stream yields is the decoding of one non-blank line of
   * one chunk the reader took, that chunk's text split on its own.
   */
  lemma EveryRecordIsADecodedLine<T>(resp: Option<Response>, cfg: StreamConfig<T>)
    requires Admitted(resp) && resp.value.chunked
    ensures forall k :: 0 <= k < |StreamOutput(resp, cfg)| ==>
      FromSomeLine(cfg, StreamOutput(resp, cfg)[k], resp.value.chunks[..Horizon(resp.value.chunks)])
  {
    var chunks := resp.value.chunks;
    StreamedThroughHorizon(cfg, chunks);
    AllChunkRecordsProvenance(cfg, chunks[..Horizon(chunks)]);
    var out := StreamOutput(resp, cfg);
    var all := StreamedRecords(cfg, chunks);
    forall k | 0 <= k < |out| ensures FromSomeLine(cfg, out[k], chunks[..Horizon(chunks)]) {
      assert out[k] == all[k];
    }
  }

  /** A line that yields nothing (blank, malformed or null) leaves the records around it as they are. */
  lemma LineWithoutRecord<T>(cfg: StreamConfig<T>, before: seq<string>, line: string, after: seq<string>)
    requires IsBlank(line) || !cfg.decode(Preprocess(cfg, line)).Value?
    ensures LineRecords(cfg, before + [line] + after) == LineRecords(cfg, before) + LineRecords(cfg, after)
  {
    var upTo := before + [line];
    LineRecordsAppend(cfg, upTo, after);
    LineRecordsAppend(cfg, before, [line]);
    var none := LineRecord(cfg, line);
    assert none == [];
    assert [line][1..] == [];
    assert LineRecords(cfg, [line]) == none + LineRecords(cfg, []);
    assert LineRecords(cfg, upTo) == LineRecords(cfg, before);
  }

  /** The records of a text that breaks after a complete line are those of its two parts. */
  lemma ChunkRecordsAtBoundary<T>(cfg: StreamConfig<T>, a: string, b: string)
    requires EndsLine(a)
    ensures ChunkRecords(cfg, a + b) == ChunkRecords(cfg, a) + ChunkRecords(cfg, b)
  {
    LinesAtBoundary(a, b);
    LineRecordsAppend(cfg, Lines(a), Lines(b));
  }

  lemma StreamedCons<T>(cfg: StreamConfig<T>, c: Chunk, rest: seq<Chunk>)
    ensures StreamedRecords(cfg, [c] + rest)
         == ChunkRecords(cfg, c.data) + (if c.isFinal then [] else StreamedRecords(cfg, rest))
  {
    assert ([c] + rest)[0] == c && ([c] + rest)[1..] == rest;
  }

  /** Cutting a chunk just after a newline, into a non-final and a second chunk, yields the same records. */
  lemma SplitChunkAfterNewline<T>(cfg: StreamConfig<T>, a: string, b: string, isFinal: bool, rest: seq<Chunk>)
    requires EndsLine(a)
    ensures StreamedRecords(cfg, [Chunk(a, false)] + ([Chunk(b, isFinal)] + rest))
         == StreamedRecords(cfg, [Chunk(a + b, isFinal)] + rest)
  {
    ChunkRecordsAtBoundary(cfg, a, b);
    StreamedCons(cfg, Chunk(a, false), [Chunk(b, isFinal)] + rest);
    StreamedCons(cfg, Chunk(b, isFinal), rest);
    StreamedCons(cfg, Chunk(a + b, isFinal), rest);
    Regroup(ChunkRecords(cfg, a), ChunkRecords(cfg, b), ChunkRecords(cfg, a + b),
      if isFinal then [] else StreamedRecords(cfg, rest));
  }

  lemma Regroup<T>(ra: seq<T>, rb: seq<T>, rab: seq<T>, x: seq<T>)
    requires rab == ra + rb
    ensures ra + (rb + x) == rab + x
  {
  }

  /** A deserializer that accepts only the text `{}`. */
  function EmptyObjectOnly(s: string): Parsed<int>
  {
    if s == "{}" then Value(0) else Malformed
  }

  /**
   * A record whose text straddles a chunk boundary is lost: `{` and `}` in
   * two chunks yield nothing, while the same bytes in one chunk yield the
   * record.
   */
  lemma StraddlingRecordIsDropped()
    ensures var cfg := StreamConfig(EmptyObjectOnly, None, None);
      StreamedRecords(cfg, [Chunk("{", false), Chunk("}", true)]) == []
      && StreamedRecords(cfg, [Chunk("{}", true)]) == [0]
  {
    var cfg := StreamConfig(EmptyObjectOnly, None, None);
    LinesOfSingleLine("{");
    LinesOfSingleLine("}");
    LinesOfSingleLine("{}");
    assert !IsBlank("{") && !IsBlank("}") && !IsBlank("{}");
    assert LineRecords(cfg, ["{"]) == [] + LineRecords(cfg, []);
    assert LineRecords(cfg, ["}"]) == [] + LineRecords(cfg, []);
    assert LineRecords(cfg, ["{}"]) == [0] + LineRecords(cfg, []);
    assert [Chunk("{", false), Chunk("}", true)][1..] == [Chunk("}", true)];
  }
}
