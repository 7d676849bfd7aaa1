/**
 * Redaction of sensitive data before it is logged: header values, query
 * parameters and fields of JSON bodies are replaced by the mask token.
 */
module Obfuscator {

  import opened Wrappers
  import opened Text
  import opened Http
  import opened JsonTree

  const MASK := "******"

  // ---------------------------------------------------------------- headers

  /** Position of the entry whose name equals `name` ignoring case. */
  function IndexOfName(h: Headers, name: string): (r: Option<nat>)
    ensures r.Some? ==> r.value < |h| && EqualsIgnoreCase(h[r.value].name, name)
    ensures r.Some? ==> forall j :: 0 <= j < r.value ==> !EqualsIgnoreCase(h[j].name, name)
    ensures r.None? ==> forall j :: 0 <= j < |h| ==> !EqualsIgnoreCase(h[j].name, name)
  {
    if |h| == 0 then None
    else if EqualsIgnoreCase(h[0].name, name) then Some(0)
    else match IndexOfName(h[1..], name)
      case None => None
      case Some(j) => Some(j + 1)
  }

  /**
   * `HttpHeaders.set`/`put` (a `LinkedCaseInsensitiveMap`): the same name
   * keeps its slot; the same name in another case is removed and the new
   * entry appended; a new name is appended.
   */
  function PutHeader(h: Headers, name: string, values: seq<string>): Headers {
    match IndexOfName(h, name)
    case None => h + [Header(name, values)]
    case Some(i) =>
      if h[i].name == name then h[i := Header(name, values)]
      else h[..i] + h[i + 1..] + [Header(name, values)]
  }

  /** What one header becomes: a sensitive name keeps only the mask token. */
  function MaskHeader(hd: Header, sensitive: seq<string>): Header {
    if AnyEqualsIgnoreCase(sensitive, hd.name) then Header(hd.name, [MASK]) else hd
  }

  function MaskHeaders(h: Headers, sensitive: seq<string>): (r: Headers)
    ensures |r| == |h|
    ensures forall i :: 0 <= i < |h| ==> r[i] == MaskHeader(h[i], sensitive)
  {
    seq(|h|, i requires 0 <= i < |h| => MaskHeader(h[i], sensitive))
  }

  /**
   * `obfuscateHeaders`: a fresh header map with every input entry, in input
   * order, sensitive ones holding the single value "******".
   */
  method ObfuscateHeaders(headers: Headers, sensitiveHeaders: seq<string>) returns (masked: Headers)
    requires ValidHeaders(headers)
    ensures masked == MaskHeaders(headers, sensitiveHeaders)
    ensures Names(masked) == Names(headers) && ValidHeaders(masked)
    ensures forall i :: 0 <= i < |headers| ==>
      masked[i].values == if AnyEqualsIgnoreCase(sensitiveHeaders, headers[i].name) then [MASK] else headers[i].values
  {
    masked := [];
    var i := 0;
    while i < |headers|
      invariant 0 <= i <= |headers|
      invariant masked == MaskHeaders(headers[..i], sensitiveHeaders)
    {
      var key := headers[i].name;
      assert forall j :: 0 <= j < i ==> masked[j].name == headers[j].name;
      assert IndexOfName(masked, key).None?;
      if AnyEqualsIgnoreCase(sensitiveHeaders, key) {
        masked := PutHeader(masked, key, [MASK]);
      } else {
        masked := PutHeader(masked, key, headers[i].values);
      }
      i := i + 1;
    }
    assert headers[..i] == headers;
    assert Names(masked) == Names(headers);
  }

  /** Masking headers twice masks nothing more. */
  lemma MaskHeadersIdempotent(h: Headers, sensitive: seq<string>)
    ensures MaskHeaders(MaskHeaders(h, sensitive), sensitive) == MaskHeaders(h, sensitive)
  {
  }

  // -------------------------------------------------------------- JSON body

  /**
   * `maskPath`: follows `keys` from `node`. The last key names the member to
   * mask, if present; an earlier key leads into the member it names, if
   * present; an array passes the same keys to each element; anything else is
   * left alone.
   */
  function MaskPath(node: Json, keys: seq<string>): Json
    decreases node
  {
    if |keys| == 0 then node
    else match node
      case JObject(ms) =>
        if |keys| == 1 then
          (if Has(ms, keys[0]) then JObject(Put(ms, keys[0], JString(MASK))) else node)
        else
          (match IndexOfKey(ms, keys[0])
           case None => node
           case Some(i) => JObject(Put(ms, keys[0], MaskPath(ms[i].value, keys[1..]))))
      case JArray(items) =>
        JArray(seq(|items|, j requires 0 <= j < |items| => MaskPath(items[j], keys)))
      case _ => node
  }

  /**
   * `m` is `n` with some values replaced by the mask: the same object keys in
   * the same order and the same array lengths.
   */
  predicate MaskedFrom(m: Json, n: Json)
    decreases n
  {
    m == n || m == JString(MASK)
    || (n.JObject? && m.JObject? && Keys(m.members) == Keys(n.members)
        && forall i :: 0 <= i < |n.members| ==> MaskedFrom(m.members[i].value, n.members[i].value))
    || (n.JArray? && m.JArray? && |m.items| == |n.items|
        && forall i :: 0 <= i < |n.items| ==> MaskedFrom(m.items[i], n.items[i]))
  }

  lemma MaskedFromRefl(n: Json)
    ensures MaskedFrom(n, n)
  {
  }

  /** Masking keeps the shape of the document: it never adds or drops keys or elements. */
  lemma {:induction false} MaskPathShape(node: Json, keys: seq<string>)
    ensures MaskedFrom(MaskPath(node, keys), node)
    decreases node
  {
    if |keys| > 0 {
      match node
      case JObject(ms) =>
        var r := MaskPath(node, keys);
        if |keys| == 1 {
          if Has(ms, keys[0]) {
            var i := IndexOfKey(ms, keys[0]).value;
            PutExisting(ms, keys[0], JString(MASK));
            forall j | 0 <= j < |ms| ensures MaskedFrom(r.members[j].value, ms[j].value) {
              if j != i { MaskedFromRefl(ms[j].value); }
            }
          }
        } else {
          match IndexOfKey(ms, keys[0])
          case None =>
          case Some(i) =>
            var child := MaskPath(ms[i].value, keys[1..]);
            PutExisting(ms, keys[0], child);
            MaskPathShape(ms[i].value, keys[1..]);
            forall j | 0 <= j < |ms| ensures MaskedFrom(r.members[j].value, ms[j].value) {
              if j != i { MaskedFromRefl(ms[j].value); }
            }
        }
      case JArray(items) =>
        forall j | 0 <= j < |items| ensures MaskedFrom(MaskPath(node, keys).items[j], items[j]) {
          MaskPathShape(items[j], keys);
        }
      case _ =>
    }
  }

  /** With one key at an object, exactly that member (if present) becomes the mask; no key is added. */
  lemma MaskPathLeaf(ms: seq<Member>, key: string)
    ensures MaskPath(JObject(ms), [key]).JObject?
    ensures Keys(MaskPath(JObject(ms), [key]).members) == Keys(ms)
    ensures Get(MaskPath(JObject(ms), [key]).members, key) == if Has(ms, key) then Some(JString(MASK)) else None
    ensures forall k :: k != key ==> Get(MaskPath(JObject(ms), [key]).members, k) == Get(ms, k)
  {
  }

  /** Masking the same path twice changes nothing more. */
  lemma {:induction false} MaskPathIdempotent(node: Json, keys: seq<string>)
    ensures MaskPath(MaskPath(node, keys), keys) == MaskPath(node, keys)
    decreases node
  {
    if |keys| > 0 {
      match node
      case JObject(ms) =>
        if |keys| == 1 {
          if Has(ms, keys[0]) {
            var r := Put(ms, keys[0], JString(MASK));
            PutExisting(r, keys[0], JString(MASK));
            PutExisting(ms, keys[0], JString(MASK));
            IndexOfKeyByKeys(r, ms, keys[0]);
          }
        } else {
          match IndexOfKey(ms, keys[0])
          case None =>
          case Some(i) =>
            var child := MaskPath(ms[i].value, keys[1..]);
            var r := Put(ms, keys[0], child);
            PutExisting(ms, keys[0], child);
            IndexOfKeyByKeys(r, ms, keys[0]);
            MaskPathIdempotent(ms[i].value, keys[1..]);
            PutExisting(r, keys[0], MaskPath(child, keys[1..]));
        }
      case JArray(items) =>
        var once := MaskPath(node, keys);
        forall j | 0 <= j < |items| ensures MaskPath(once, keys).items[j] == once.items[j] {
          MaskPathIdempotent(items[j], keys);
        }
      case _ =>
    }
  }

  /** The tree after each of `paths` in turn was masked, each split on '.'. */
  function MaskAll(root: Json, paths: seq<string>): Json
  {
    if |paths| == 0 then root
    else MaskPath(MaskAll(root, paths[..|paths| - 1]), Split(paths[|paths| - 1], '.'))
  }

  lemma {:induction false} MaskedFromTrans(a: Json, b: Json, c: Json)
    requires MaskedFrom(a, b) && MaskedFrom(b, c)
    ensures MaskedFrom(a, c)
    decreases c
  {
    if a == b || b == c || a == JString(MASK) {
    } else if c.JObject? {
      forall i | 0 <= i < |c.members| ensures MaskedFrom(a.members[i].value, c.members[i].value) {
        MaskedFromTrans(a.members[i].value, b.members[i].value, c.members[i].value);
      }
    } else if c.JArray? {
      forall i | 0 <= i < |c.items| ensures MaskedFrom(a.items[i], c.items[i]) {
        MaskedFromTrans(a.items[i], b.items[i], c.items[i]);
      }
    }
  }

  /** However many paths are masked, the document keeps its shape. */
  lemma {:induction false} MaskAllShape(root: Json, paths: seq<string>)
    ensures MaskedFrom(MaskAll(root, paths), root)
  {
    if |paths| == 0 {
      MaskedFromRefl(root);
    } else {
      var before := MaskAll(root, paths[..|paths| - 1]);
      MaskAllShape(root, paths[..|paths| - 1]);
      MaskPathShape(before, Split(paths[|paths| - 1], '.'));
      MaskedFromTrans(MaskAll(root, paths), before, root);
    }
  }

  /** The text `maskJsonBody` returns. */
  function MaskedBody(mapper: ObjectMapper, body: string, paths: seq<string>): string {
    if !HasText(body) then body
    else match mapper.readTree(body)
      case None => body
      case Some(root) => mapper.writeValueAsString(MaskAll(root, paths))
  }

  /**
   * `maskJsonBody`: blank text and text Jackson cannot parse come back
   * unchanged; otherwise every path is masked in the parsed tree, which is
   * written back out.
   */
  method MaskJsonBody(mapper: ObjectMapper, body: string, sensitivePaths: seq<string>) returns (r: string)
    ensures r == MaskedBody(mapper, body, sensitivePaths)
    ensures !HasText(body) ==> r == body
    ensures mapper.readTree(body).None? ==> r == body
    ensures HasText(body) && mapper.readTree(body).Some? ==>
      exists t :: r == mapper.writeValueAsString(t) && MaskedFrom(t, mapper.readTree(body).value)
  {
    if !HasText(body) {
      return body;
    }
    match mapper.readTree(body)
    case None =>
      r := body;
    case Some(root) =>
      var node := root;
      var i := 0;
      while i < |sensitivePaths|
        invariant 0 <= i <= |sensitivePaths|
        invariant node == MaskAll(root, sensitivePaths[..i])
      {
        var keys := Split(sensitivePaths[i], '.');
        assert sensitivePaths[..i + 1][..i] == sensitivePaths[..i];
        node := MaskPath(node, keys);
        i := i + 1;
      }
      assert sensitivePaths[..i] == sensitivePaths;
      MaskAllShape(root, sensitivePaths);
      r := mapper.writeValueAsString(node);
  }

  // ------------------------------------------------------ query parameters

  /** One `&`-separated query segment after masking. */
  function MaskSegment(param: string, sensitive: seq<string>): (r: string)
    ensures '&' !in param ==> '&' !in r
    ensures r == param || r == Split(param, '=')[0] + "=" + MASK
  {
    var parts := Split(param, '=');
    if |parts| == 2 && AnyEqualsIgnoreCase(sensitive, parts[0]) then
      JoinSplit(param, '=');
      assert param == parts[0] + "=" + parts[1];
      parts[0] + "=" + MASK
    else param
  }

  function MaskQuery(query: string, sensitive: seq<string>): string {
    var segments := Split(query, '&');
    Join(seq(|segments|, i requires 0 <= i < |segments| => MaskSegment(segments[i], sensitive)), '&')
  }

  /**
   * `maskParameters`: a URI without a query comes back as it is; otherwise
   * only the query is replaced by its masked form.
   */
  function MaskParameters(uri: Uri, sensitiveParameters: seq<string>): (r: Uri)
    ensures uri.query.None? ==> r == uri
    ensures r.scheme == uri.scheme && r.authority == uri.authority && r.host == uri.host
    ensures r.path == uri.path && r.fragment == uri.fragment
    ensures r.query.Some? <==> uri.query.Some?
  {
    match uri.query
    case None => uri
    case Some(q) => uri.(query := Some(MaskQuery(q, sensitiveParameters)))
  }

  /**
   * The masked query has the same number of `&` segments as the original,
   * in the same order, each segment masked on its own.
   */
  lemma MaskQuerySegments(query: string, sensitive: seq<string>)
    ensures var segments := Split(query, '&');
      Split(MaskQuery(query, sensitive), '&') ==
        seq(|segments|, i requires 0 <= i < |segments| => MaskSegment(segments[i], sensitive))
  {
    var segments := Split(query, '&');
    var masked := seq(|segments|, i requires 0 <= i < |segments| => MaskSegment(segments[i], sensitive));
    SplitJoin(masked, '&');
  }

  /**
   * A segment of the form `key=value` whose key is sensitive, ignoring case,
   * becomes `key=******`; every other segment (no '=', or more than one) is
   * kept as it is.
   */
  lemma MaskSegmentCases(param: string, sensitive: seq<string>)
    ensures var parts := Split(param, '=');
      if |parts| == 2 && AnyEqualsIgnoreCase(sensitive, parts[0])
      then Split(MaskSegment(param, sensitive), '=') == [parts[0], MASK]
      else MaskSegment(param, sensitive) == param
  {
    var parts := Split(param, '=');
    if |parts| == 2 && AnyEqualsIgnoreCase(sensitive, parts[0]) {
      assert '=' !in MASK;
      SplitJoin([parts[0], MASK], '=');
      assert Join([parts[0], MASK], '=') == parts[0] + "=" + MASK;
    }
  }

  /** Masking a segment twice masks nothing more. */
  lemma MaskSegmentIdempotent(param: string, sensitive: seq<string>)
    ensures MaskSegment(MaskSegment(param, sensitive), sensitive) == MaskSegment(param, sensitive)
  {
    MaskSegmentCases(param, sensitive);
    var parts := Split(param, '=');
    if |parts| == 2 && AnyEqualsIgnoreCase(sensitive, parts[0]) {
      MaskSegmentCases(MaskSegment(param, sensitive), sensitive);
    }
  }

  /** A bare key passes through. */
  lemma MaskSegmentBareKey()
    ensures MaskSegment("k", ["k"]) == "k"
  {
    SplitJoin(["k"], '=');
  }

  /** A segment with two '=' passes through. */
  lemma MaskSegmentTwoEquals()
    ensures MaskSegment("k=a=b", ["k"]) == "k=a=b"
  {
    SplitJoin(["k", "a", "b"], '=');
    assert Join(["k", "a", "b"], '=') == "k=a=b";
  }

  /** `key=value` with a sensitive key, in any case, is masked. */
  lemma MaskSegmentSensitive()
    ensures MaskSegment("K=v", ["k"]) == "K=******"
  {
    SplitJoin(["K", "v"], '=');
    assert Join(["K", "v"], '=') == "K=v";
    assert Lower("K") == "k" && Lower("k") == "k";
    assert EqualsIgnoreCase(["k"][0], "K");
    assert "K" + "=" + MASK == "K=******";
  }

  /** `key=value` with any other key is kept. */
  lemma MaskSegmentOtherKey()
    ensures MaskSegment("p=v", ["k"]) == "p=v"
  {
    SplitJoin(["p", "v"], '=');
    assert Join(["p", "v"], '=') == "p=v";
    assert Lower("p") == "p";
  }

  /** With no sensitive parameter names the URI is unchanged. */
  lemma MaskParametersNoNames(uri: Uri)
    ensures MaskParameters(uri, []) == uri
  {
    if uri.query.Some? {
      var q := uri.query.value;
      var segments := Split(q, '&');
      var masked := seq(|segments|, i requires 0 <= i < |segments| => MaskSegment(segments[i], []));
      assert masked == segments;
      JoinSplit(q, '&');
    }
  }
}
