/**
 * JSON documents as Jackson's tree model sees them, object members keeping
 * their insertion order, and the two `ObjectMapper` operations the pipeline
 * calls on text.
 */
module JsonTree {

  import opened Wrappers

  datatype Json =
    | JNull
    | JBool(b: bool)
    | JNumber(literal: string)
    | JString(s: string)
    | JArray(items: seq<Json>)
    | JObject(members: seq<Member>)

  datatype Member = Member(key: string, value: Json)

  /**
   * The parts of Jackson's `ObjectMapper` in use: `readTree` (None when it
   * throws for malformed text) and `writeValueAsString`.
   */
  datatype ObjectMapper = ObjectMapper(readTree: string -> Option<Json>, writeValueAsString: Json -> string)

  function Keys(ms: seq<Member>): (r: seq<string>)
    ensures |r| == |ms|
    ensures forall i :: 0 <= i < |ms| ==> r[i] == ms[i].key
  {
    seq(|ms|, i requires 0 <= i < |ms| => ms[i].key)
  }

  /** Position of the member named `k`, the first one if several are. */
  function IndexOfKey(ms: seq<Member>, k: string): (r: Option<nat>)
    ensures r.Some? ==> r.value < |ms| && ms[r.value].key == k
    ensures r.Some? ==> forall j :: 0 <= j < r.value ==> ms[j].key != k
    ensures r.None? <==> k !in Keys(ms)
  {
    if |ms| == 0 then None
    else if ms[0].key == k then Some(0)
    else match IndexOfKey(ms[1..], k)
      case None =>
        assert Keys(ms) == [ms[0].key] + Keys(ms[1..]);
        None
      case Some(j) =>
        assert ms[j + 1] == ms[1..][j];
        assert forall i :: 0 <= i < j + 1 ==> ms[i].key != k by {
          forall i | 0 < i < j + 1
            ensures ms[i].key != k
          {
            assert ms[i] == ms[1..][i - 1];
          }
        }
        Some(j + 1)
  }

  /** `ObjectNode.has(k)` */
  predicate Has(ms: seq<Member>, k: string) {
    k in Keys(ms)
  }

  /** `ObjectNode.get(k)`: the value of the member named `k`, or null. */
  function Get(ms: seq<Member>, k: string): Option<Json> {
    match IndexOfKey(ms, k)
    case None => None
    case Some(i) => Some(ms[i].value)
  }

  /** The position of a key depends only on the key sequence. */
  lemma IndexOfKeyByKeys(a: seq<Member>, b: seq<Member>, k: string)
    requires Keys(a) == Keys(b)
    ensures IndexOfKey(a, k) == IndexOfKey(b, k)
  {
  }

  lemma {:induction false} IndexOfKeyAppend(ms: seq<Member>, m: Member, k: string)
    ensures IndexOfKey(ms + [m], k) ==
      if Has(ms, k) then IndexOfKey(ms, k) else if m.key == k then Some(|ms|) else None
  {
    if |ms| > 0 {
      assert Keys(ms) == [ms[0].key] + Keys(ms[1..]);
      assert (ms + [m])[1..] == ms[1..] + [m];
      if ms[0].key != k {
        IndexOfKeyAppend(ms[1..], m, k);
      }
    }
  }

  /**
   * `ObjectNode.put`/`set` (a `LinkedHashMap` put): a present key keeps its
   * position and takes the new value; an absent key is appended.
   */
  function Put(ms: seq<Member>, k: string, v: Json): (r: seq<Member>)
    ensures Keys(r) == if Has(ms, k) then Keys(ms) else Keys(ms) + [k]
    ensures Get(r, k) == Some(v)
    ensures forall k' :: k' != k ==> Get(r, k') == Get(ms, k')
  {
    match IndexOfKey(ms, k)
    case None =>
      var r := ms + [Member(k, v)];
      assert Keys(r) == Keys(ms) + [k];
      assert forall k' :: IndexOfKey(r, k') == (if Has(ms, k') then IndexOfKey(ms, k') else if k == k' then Some(|ms|) else None) by {
        forall k' { IndexOfKeyAppend(ms, Member(k, v), k'); }
      }
      r
    case Some(i) =>
      var r := ms[i := Member(k, v)];
      assert Keys(r) == Keys(ms);
      assert forall k' :: IndexOfKey(r, k') == IndexOfKey(ms, k') by {
        forall k' { IndexOfKeyByKeys(r, ms, k'); }
      }
      r
  }

  lemma PutExisting(ms: seq<Member>, k: string, v: Json)
    requires Has(ms, k)
    ensures var i := IndexOfKey(ms, k).value;
      Put(ms, k, v) == ms[i := Member(k, v)]
  {
  }

  /** `put` of a key not yet present appends a member. */
  lemma PutFresh(ms: seq<Member>, k: string, v: Json)
    requires !Has(ms, k)
    ensures Put(ms, k, v) == ms + [Member(k, v)]
  {
  }

  /** No key names two members. */
  predicate DistinctKeys(ms: seq<Member>) {
    forall i, j :: 0 <= i < j < |ms| ==> ms[i].key != ms[j].key
  }

  /** With distinct keys, the lookup of a member's key finds that member. */
  lemma GetDistinct(ms: seq<Member>, i: nat)
    requires DistinctKeys(ms) && i < |ms|
    ensures Get(ms, ms[i].key) == Some(ms[i].value)
  {
    assert ms[i].key in Keys(ms);
  }
}
