/**
 * Character and string helpers shared by the model: ASCII case handling, the
 * single-character `split`/`joinToString` pair, Spring's `StringUtils.hasText`
 * and Kotlin's literal `String.replaceFirst`.
 */
module Text {

  import opened Wrappers

  predicate IsUpper(c: char) { 'A' <= c <= 'Z' }

  predicate IsLower(c: char) { 'a' <= c <= 'z' }

  /** Lower-cases one ASCII letter; every other character is kept. */
  function LowerChar(c: char): (r: char)
    ensures !IsUpper(r)
    ensures IsUpper(c) ==> IsLower(r)
    ensures !IsUpper(c) ==> r == c
  {
    if IsUpper(c) then (c as int + 32) as char else c
  }

  function Lower(s: string): (r: string)
    ensures |r| == |s|
    ensures forall i :: 0 <= i < |s| ==> r[i] == LowerChar(s[i])
  {
    seq(|s|, i requires 0 <= i < |s| => LowerChar(s[i]))
  }

  predicate HasNoUpper(s: string) {
    forall i :: 0 <= i < |s| ==> !IsUpper(s[i])
  }

  lemma LowerHasNoUpper(s: string)
    ensures HasNoUpper(Lower(s))
  {
  }

  lemma LowerOfLowerCase(s: string)
    requires HasNoUpper(s)
    ensures Lower(s) == s
  {
  }

  /** Kotlin's `equals(other, ignoreCase = true)`, restricted to ASCII case folding. */
  predicate EqualsIgnoreCase(a: string, b: string) {
    Lower(a) == Lower(b)
  }

  /** `names.any { it.equals(key, ignoreCase = true) }` */
  predicate AnyEqualsIgnoreCase(names: seq<string>, key: string) {
    exists i :: 0 <= i < |names| && EqualsIgnoreCase(names[i], key)
  }

  /** Java's `Character.isWhitespace` on the characters it accepts below U+0080. */
  predicate IsWhitespace(c: char) {
    c == ' ' || c == '\t' || c == '\n' || c == '\r' || c == '\U{B}' || c == '\U{C}'
    || ('\U{1C}' <= c <= '\U{1F}')
  }

  /** Spring's `StringUtils.hasText`: some character is not whitespace. */
  predicate HasText(s: string) {
    exists i :: 0 <= i < |s| && !IsWhitespace(s[i])
  }

  /**
   * Kotlin's `split(d)` for a one-character delimiter: the pieces between the
   * occurrences of `d`, empty pieces included, and never an empty list.
   */
  function Split(s: string, d: char): (parts: seq<string>)
    ensures |parts| >= 1
    ensures forall i :: 0 <= i < |parts| ==> d !in parts[i]
    decreases |s|
  {
    if |s| == 0 then [""]
    else
      var rest := Split(s[1..], d);
      if s[0] == d then [""] + rest
      else [[s[0]] + rest[0]] + rest[1..]
  }

  /** Kotlin's `joinToString(d)` over strings. */
  function Join(parts: seq<string>, d: char): string
  {
    if |parts| == 0 then ""
    else if |parts| == 1 then parts[0]
    else parts[0] + [d] + Join(parts[1..], d)
  }

  lemma {:induction false} JoinConsHead(x: string, y: string, tail: seq<string>, d: char)
    ensures Join([x + y] + tail, d) == x + Join([y] + tail, d)
  {
    if |tail| == 0 {
      assert [x + y] + tail == [x + y];
      assert [y] + tail == [y];
    } else {
      assert ([x + y] + tail)[1..] == tail;
      assert ([y] + tail)[1..] == tail;
    }
  }

  /** Joining the pieces of a split gives back the original string. */
  lemma {:induction false} JoinSplit(s: string, d: char)
    ensures Join(Split(s, d), d) == s
    decreases |s|
  {
    if |s| > 0 {
      var rest := Split(s[1..], d);
      JoinSplit(s[1..], d);
      if s[0] == d {
        assert ([""] + rest)[1..] == rest;
        assert s == [d] + s[1..];
      } else {
        assert rest == [rest[0]] + rest[1..];
        JoinConsHead([s[0]], rest[0], rest[1..], d);
        assert s == [s[0]] + s[1..];
      }
    }
  }

  lemma {:induction false} SplitNoDelimiterPrefix(p: string, t: string, d: char)
    requires d !in p
    ensures Split(p + t, d) == [p + Split(t, d)[0]] + Split(t, d)[1..]
    decreases |p|
  {
    if |p| > 0 {
      var st := Split(t, d);
      assert (p + t)[1..] == p[1..] + t;
      SplitNoDelimiterPrefix(p[1..], t, d);
      var rest := Split(p[1..] + t, d);
      assert rest[0] == p[1..] + st[0] && rest[1..] == st[1..];
      assert (p + t)[0] == p[0] && p[0] != d;
      assert Split(p + t, d) == [[p[0]] + rest[0]] + rest[1..];
      assert [p[0]] + (p[1..] + st[0]) == p + st[0];
    } else {
      assert p + t == t;
      assert p + Split(t, d)[0] == Split(t, d)[0];
      assert Split(t, d) == [Split(t, d)[0]] + Split(t, d)[1..];
    }
  }

  /** Splitting a join of delimiter-free pieces gives back the pieces. */
  lemma {:induction false} SplitJoin(parts: seq<string>, d: char)
    requires |parts| >= 1
    requires forall i :: 0 <= i < |parts| ==> d !in parts[i]
    ensures Split(Join(parts, d), d) == parts
    decreases |parts|
  {
    if |parts| == 1 {
      SplitNoDelimiterPrefix(parts[0], "", d);
      assert parts[0] + "" == parts[0];
    } else {
      var tail := parts[1..];
      SplitJoin(tail, d);
      var rest := Join(tail, d);
      assert Join(parts, d) == parts[0] + ([d] + rest);
      SplitNoDelimiterPrefix(parts[0], [d] + rest, d);
      assert ([d] + rest)[0] == d;
      assert ([d] + rest)[1..] == rest;
      assert Split([d] + rest, d) == [""] + Split(rest, d);
      assert Split(Join(parts, d), d) == [parts[0] + ""] + tail;
      assert parts[0] + "" == parts[0];
      assert parts == [parts[0]] + tail;
    }
  }

  predicate OccursAt(s: string, pat: string, i: nat) {
    i + |pat| <= |s| && s[i..i + |pat|] == pat
  }

  /** `s.indexOf(pat)` for a literal pattern: the first position where it occurs. */
  function IndexOf(s: string, pat: string, from: nat := 0): (r: Option<nat>)
    ensures r.Some? ==> from <= r.value && OccursAt(s, pat, r.value)
    ensures r.Some? ==> forall j :: from <= j < r.value ==> !OccursAt(s, pat, j)
    ensures r.None? ==> forall j :: from <= j ==> !OccursAt(s, pat, j)
    decreases |s| + 1 - from
  {
    if from + |pat| > |s| then None
    else if s[from..from + |pat|] == pat then Some(from)
    else IndexOf(s, pat, from + 1)
  }

  /** Kotlin's literal `String.replaceFirst(oldValue, newValue)` (no regular expression). */
  function ReplaceFirst(s: string, pat: string, rep: string): (r: string)
    ensures (forall j :: !OccursAt(s, pat, j)) ==> r == s
    ensures IndexOf(s, pat).Some? ==>
      var i := IndexOf(s, pat).value; r == s[..i] + rep + s[i + |pat|..]
  {
    match IndexOf(s, pat)
    case None => s
    case Some(i) => s[..i] + rep + s[i + |pat|..]
  }
}
