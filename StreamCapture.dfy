/**
 * Copying a body stream while it passes through: the stream is joined into
 * one buffer, its bytes are copied out for the caller and a buffer wrapping
 * the copy is emitted in place of the original chunks.
 */
module DataBufferCopyUtils {

  import opened Wrappers
  import opened Http

  /**
   * What joining a stream yields: nothing for a stream without chunks,
   * otherwise one buffer holding every byte in order.
   */
  function Joined(body: seq<Chunk>): (r: Option<Chunk>)
    ensures r.None? <==> |body| == 0
    ensures r.Some? ==> |r.value| == TotalLength(body)
  {
    FlattenLength(body);
    if |body| == 0 then None else Some(Flatten(body))
  }

  /**
   * `wrapAndBuffer`: the stream becomes a single buffer (an empty one when
   * the stream had no chunks) whose bytes are copied into a fresh array;
   * `copied` is what the copy consumer receives, `emitted` is the stream
   * passed on, which carries exactly those bytes.
   */
  method WrapAndBuffer(body: seq<Chunk>) returns (emitted: seq<Chunk>, copied: seq<byte>)
    ensures emitted == [copied]
    ensures copied == Flatten(body)
    ensures |copied| == TotalLength(body)
  {
    var dataBuffer := Joined(body).GetOr([]);
    var bytes := new byte[|dataBuffer|];
    for k := 0 to |dataBuffer|
      invariant bytes[..k] == dataBuffer[..k]
    {
      bytes[k] := dataBuffer[k];
    }
    assert bytes[..] == bytes[..|dataBuffer|];
    copied := bytes[..];
    emitted := [copied];
    FlattenLength(body);
  }

  /** Re-reading the emitted stream yields the same bytes as the original stream. */
  lemma WrapPreservesBytes(body: seq<Chunk>, copied: seq<byte>)
    requires copied == Flatten(body)
    ensures Flatten([copied]) == Flatten(body)
  {
    FlattenSingle(copied);
  }
}
