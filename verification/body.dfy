/** Draining the inbound request body (`parse_body`). The body stream is
    modelled by the finite sequence of results its successive `read` calls
    return; once that sequence is used up the stream reports `Closed`. */
module Body {
  import opened Types

  /** What one `read` call returns: some bytes, the `Closed` stream error, or
      any other stream error with its rendered detail. */
  datatype ReadResult = Chunk(bytes: Bytes) | Closed | Failed(detail: string)

  /** The request body as the handler finds it: `consume()` may fail, then
      `stream()` may fail, and otherwise the stream yields `results`. */
  datatype IncomingBody = ConsumeFails | StreamFails | Readable(results: seq<ReadResult>)

  const ConsumeError := "Failed to consume request stream"
  const StreamError := "Failed to get request stream: "
  const ReadErrorPrefix := "Failed to read from request stream: "

  /** A read after which the loop keeps reading: a non-empty chunk. */
  predicate Continues(r: ReadResult)
  {
    r.Chunk? && |r.bytes| > 0
  }

  /** Position of the read that ends the loop (an empty chunk, `Closed` or
      another error), or `|rs|` when every read continues. */
  function StopIndex(rs: seq<ReadResult>): (k: nat)
    ensures k <= |rs|
    ensures forall i :: 0 <= i < k ==> Continues(rs[i])
    ensures k < |rs| ==> !Continues(rs[k])
    decreases |rs|
  {
    if |rs| == 0 || !Continues(rs[0]) then 0 else 1 + StopIndex(rs[1..])
  }

  function ChunkBytes(r: ReadResult): Bytes
  {
    if r.Chunk? then r.bytes else []
  }

  /** The bytes of the chunks among `rs`, in order. */
  function Flatten(rs: seq<ReadResult>): Bytes
  {
    if |rs| == 0 then [] else Flatten(rs[..|rs| - 1]) + ChunkBytes(rs[|rs| - 1])
  }

  /** What reading the whole body yields: the concatenation of the chunks
      before the stop, unless the stop is a stream error other than `Closed`. */
  function ReadBody(body: IncomingBody): Result<Bytes>
  {
    match body
    case ConsumeFails => Err(ConsumeError)
    case StreamFails => Err(StreamError)
    case Readable(rs) =>
      var k := StopIndex(rs);
      if k < |rs| && rs[k].Failed? then Err(ReadErrorPrefix + rs[k].detail)
      else Ok(Flatten(rs[..k]))
  }

  /** How many results of the stream a full read takes. */
  function ReadsTaken(body: IncomingBody): nat
  {
    match body
    case Readable(rs) => if StopIndex(rs) < |rs| then StopIndex(rs) + 1 else |rs|
    case _ => 0
  }

  /** The read loop. `taken` counts the stream results the loop took. */
  method ParseBody(body: IncomingBody) returns (r: Result<Bytes>, taken: nat)
    ensures r == ReadBody(body)
    ensures taken == ReadsTaken(body)
    ensures body.ConsumeFails? ==> r == Err(ConsumeError)
    ensures body.StreamFails? ==> r == Err(StreamError)
    ensures r.Ok? ==> body.Readable? && r.value == Flatten(body.results[..StopIndex(body.results)])
  {
    match body
    case ConsumeFails =>
      return Err(ConsumeError), 0;
    case StreamFails =>
      return Err(StreamError), 0;
    case Readable(rs) =>
      var requestBody: Bytes := [];
      var i := 0;
      while i < |rs|
        invariant i <= StopIndex(rs)
        invariant requestBody == Flatten(rs[..i])
        decreases |rs| - i
      {
        match rs[i]
        case Chunk(chunk) =>
          if |chunk| == 0 {
            return Ok(requestBody), i + 1;
          }
          assert rs[..i + 1][..i] == rs[..i];
          requestBody := requestBody + chunk;
          i := i + 1;
        case Closed =>
          return Ok(requestBody), i + 1;
        case Failed(detail) =>
          return Err(ReadErrorPrefix + detail), i + 1;
      }
      assert rs[..i] == rs;
      return Ok(requestBody), i;
  }

  /** Nothing after the stop is looked at: whatever follows the terminating
      read, the outcome is the same. */
  lemma {:induction false} ReadBodyIgnoresRest(rs: seq<ReadResult>, rest: seq<ReadResult>)
    requires StopIndex(rs) < |rs|
    ensures ReadBody(Readable(rs[..StopIndex(rs) + 1] + rest)) == ReadBody(Readable(rs))
    ensures ReadsTaken(Readable(rs[..StopIndex(rs) + 1] + rest)) == ReadsTaken(Readable(rs))
  {
    var k := StopIndex(rs);
    var rs' := rs[..k + 1] + rest;
    StopIndexPrefix(rs, rs');
    assert rs'[..k] == rs[..k];
  }

  /** Sequences that agree up to and including the stop stop at the same place. */
  lemma {:induction false} StopIndexPrefix(rs: seq<ReadResult>, rs': seq<ReadResult>)
    requires StopIndex(rs) < |rs| && StopIndex(rs) < |rs'|
    requires rs[..StopIndex(rs) + 1] == rs'[..StopIndex(rs) + 1]
    ensures StopIndex(rs') == StopIndex(rs)
    decreases |rs|
  {
    var k := StopIndex(rs);
    assert rs[0] == rs'[0];
    if k > 0 {
      assert rs[1..][..k] == rs[..k + 1][1..];
      assert rs'[1..][..k] == rs'[..k + 1][1..];
      StopIndexPrefix(rs[1..], rs'[1..]);
    }
  }

  /** A failing read before the stop cannot exist, and one at the stop fails
      the whole read with no partial buffer. */
  lemma ReadBodyFailsAtError(rs: seq<ReadResult>, k: nat)
    requires k < |rs| && rs[k].Failed?
    requires forall i :: 0 <= i < k ==> Continues(rs[i])
    ensures ReadBody(Readable(rs)) == Err(ReadErrorPrefix + rs[k].detail)
  {
    StopIndexAt(rs, k);
  }

  /** The stop is the first read that does not continue. */
  lemma {:induction false} StopIndexAt(rs: seq<ReadResult>, k: nat)
    requires k < |rs| && !Continues(rs[k])
    requires forall i :: 0 <= i < k ==> Continues(rs[i])
    ensures StopIndex(rs) == k
    decreases k
  {
    if k > 0 {
      StopIndexAt(rs[1..], k - 1);
    }
  }
}
