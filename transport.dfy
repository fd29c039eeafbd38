/**
 * What the HTTP transport hands to the SDK once a request has been sent:
 * a status code, whether the body uses chunked transfer encoding, the
 * buffered body (`DataAsString`) and, for a chunked body, the chunks that
 * successive `ReadChunkAsync` calls return, in arrival order. The end of
 * the chunk list is the read that returns null. Chunk bytes are taken as
 * already-decoded text; a null or empty chunk is the empty string.
 */
module Transport {
  import opened Wrappers

  datatype Chunk = Chunk(data: string, isFinal: bool)

  datatype Response = Response(status: int, chunked: bool, body: string, chunks: seq<Chunk>)

  /** The status test every reader applies: 200 through 299 inclusive, the 2xx class. */
  function IsSuccess(status: int): (ok: bool)
    ensures ok <==> status / 100 == 2
  {
    200 <= status <= 299
  }

  /** A response arrived and its status is in the 2xx class. */
  function Admitted(resp: Option<Response>): (ok: bool)
    ensures ok ==> resp.Some?
    ensures resp.Some? ==> (ok <==> resp.value.status / 100 == 2)
  {
    resp.Some? && IsSuccess(resp.value.status)
  }

  /** No chunk in `chunks` carries the final flag. */
  predicate NoFinal(chunks: seq<Chunk>)
  {
    forall k :: 0 <= k < |chunks| ==> !chunks[k].isFinal
  }

  /**
   * How many chunks a reader that stops after the first final chunk can
   * take: up to and including the first final chunk, or all of them.
   */
  function Horizon(chunks: seq<Chunk>): (n: nat)
    ensures n <= |chunks| && (chunks != [] ==> n > 0)
    ensures forall k :: 0 <= k < n - 1 ==> !chunks[k].isFinal
    ensures n < |chunks| ==> n > 0 && chunks[n - 1].isFinal
  {
    if chunks == [] then 0
    else if chunks[0].isFinal then 1
    else 1 + Horizon(chunks[1..])
  }
}
