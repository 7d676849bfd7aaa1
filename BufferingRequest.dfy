/**
 * A client request decorator that keeps a copy of the body it sends.
 */
module RequestBuffering {

  import opened Wrappers
  import opened Http
  import DataBufferCopyUtils

  /** The request being decorated: it records what is written to the connection. */
  class ClientHttpRequest {
    var written: seq<Chunk>

    constructor ()
      ensures written == []
    {
      written := [];
    }

    method WriteWith(body: seq<Chunk>)
      modifies this
      ensures written == old(written) + body
    {
      written := written + body;
    }
  }

  /**
   * `BufferingClientHttpRequest`: `requestBody` is absent until a body is
   * written; writing a body records its bytes and sends the same bytes, as
   * one buffer, to the decorated request.
   */
  class BufferingClientHttpRequest {
    const delegate: ClientHttpRequest
    var requestBody: Option<seq<byte>>

    constructor (delegate: ClientHttpRequest)
      ensures this.delegate == delegate
      ensures requestBody.None?
    {
      this.delegate := delegate;
      requestBody := None;
    }

    method WriteWith(body: seq<Chunk>)
      modifies this, delegate
      ensures requestBody == Some(Flatten(body))
      ensures delegate.written == old(delegate.written) + [Flatten(body)]
      ensures Flatten(delegate.written) == Flatten(old(delegate.written)) + Flatten(body)
    {
      var emitted, copied := DataBufferCopyUtils.WrapAndBuffer(body);
      requestBody := Some(copied);
      delegate.WriteWith(emitted);
      FlattenAppend(old(delegate.written), emitted);
      FlattenSingle(copied);
    }
  }
}
