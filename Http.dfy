/**
 * The HTTP vocabulary the logging pipeline works on: methods, multi-valued
 * headers with case-insensitive names, URIs split into their components and
 * bodies as streams of byte chunks.
 */
module Http {

  import opened Wrappers
  import opened Text

  /** Spring's `HttpMethod`; two methods are equal when their names are. */
  datatype HttpMethod = HttpMethod(name: string)

  const GET := HttpMethod("GET")
  const POST := HttpMethod("POST")
  const PUT := HttpMethod("PUT")

  /** One header line group: a name and its values in order. */
  datatype Header = Header(name: string, values: seq<string>)

  /** Spring's `HttpHeaders`: entries in insertion order. */
  type Headers = seq<Header>

  /** The invariant of `HttpHeaders`: no two entries share a name, ignoring case. */
  predicate ValidHeaders(h: Headers) {
    forall i, j :: 0 <= i < j < |h| ==> !EqualsIgnoreCase(h[i].name, h[j].name)
  }

  /** A header map as Spring holds it. */
  type HttpHeaders = h: Headers | ValidHeaders(h) witness []

  const CONTENT_LENGTH := "Content-Length"
  const TRANSFER_ENCODING := "Transfer-Encoding"

  function Names(h: Headers): (r: seq<string>)
    ensures |r| == |h|
    ensures forall i :: 0 <= i < |h| ==> r[i] == h[i].name
  {
    seq(|h|, i requires 0 <= i < |h| => h[i].name)
  }

  /** `containsKey(name)`: some entry's name equals `name` ignoring case. */
  predicate ContainsKey(h: Headers, name: string) {
    exists i :: 0 <= i < |h| && EqualsIgnoreCase(h[i].name, name)
  }

  /** `getFirst(name)`: the first value of the entry named `name` (ignoring case), if it has one. */
  function GetFirst(h: Headers, name: string): (r: Option<string>)
    ensures r.Some? ==> exists i :: 0 <= i < |h| && EqualsIgnoreCase(h[i].name, name) && h[i].values != [] && r.value == h[i].values[0]
    ensures !ContainsKey(h, name) ==> r.None?
  {
    if |h| == 0 then None
    else if EqualsIgnoreCase(h[0].name, name) then
      (if h[0].values == [] then None else Some(h[0].values[0]))
    else
      var r := GetFirst(h[1..], name);
      assert r.Some? ==> exists i :: 1 <= i < |h| && EqualsIgnoreCase(h[i].name, name) && h[i].values != [] && r.value == h[i].values[0] by {
        if r.Some? {
          var i :| 0 <= i < |h[1..]| && EqualsIgnoreCase(h[1..][i].name, name) && h[1..][i].values != [] && r.value == h[1..][i].values[0];
          assert h[i + 1] == h[1..][i];
        }
      }
      r
  }

  /**
   * A `java.net.URI` by its components; `path` and `host` are absent for
   * opaque URIs, as in Java.
   */
  datatype Uri = Uri(
    scheme: Option<string>,
    authority: Option<string>,
    host: Option<string>,
    path: Option<string>,
    query: Option<string>,
    fragment: Option<string>)

  function Part(o: Option<string>, prefix: string, suffix: string): string {
    match o
    case None => ""
    case Some(v) => prefix + v + suffix
  }

  /** `URI.toString()`, recomposed from the components without percent-encoding. */
  function UriString(u: Uri): string {
    Part(u.scheme, "", ":") + Part(u.authority, "//", "") + u.path.GetOr("")
    + Part(u.query, "?", "") + Part(u.fragment, "#", "")
  }

  type byte = b: int | 0 <= b < 256

  /** One `DataBuffer` worth of bytes. */
  type Chunk = seq<byte>

  /** All bytes of a chunk stream, in order. */
  function Flatten(chunks: seq<Chunk>): (r: seq<byte>)
    ensures |chunks| == 0 ==> r == []
  {
    if |chunks| == 0 then [] else Flatten(chunks[..|chunks| - 1]) + chunks[|chunks| - 1]
  }

  /** Total number of bytes in a chunk stream. */
  function TotalLength(chunks: seq<Chunk>): nat
  {
    if |chunks| == 0 then 0 else TotalLength(chunks[..|chunks| - 1]) + |chunks[|chunks| - 1]|
  }

  lemma {:induction false} FlattenLength(chunks: seq<Chunk>)
    ensures |Flatten(chunks)| == TotalLength(chunks)
  {
    if |chunks| > 0 {
      FlattenLength(chunks[..|chunks| - 1]);
    }
  }

  lemma FlattenSingle(c: Chunk)
    ensures Flatten([c]) == c
  {
    assert [c][..0] == [];
  }

  lemma {:induction false} FlattenAppend(a: seq<Chunk>, b: seq<Chunk>)
    ensures Flatten(a + b) == Flatten(a) + Flatten(b)
    decreases |b|
  {
    if |b| == 0 {
      assert a + b == a;
    } else {
      assert (a + b)[..|a + b| - 1] == a + b[..|b| - 1];
      FlattenAppend(a, b[..|b| - 1]);
    }
  }
}
