/**
 * `String.toSnakeCase`: two regular-expression replacements that insert an
 * underscore at word boundaries, then lower-casing. `Regex.replace` scans left
 * to right and resumes after each match, which the recursions below follow.
 */
module StringUtils {

  import opened Text

  /** A lower-case letter directly followed by a capital at position `i`: a match of the first pattern. */
  predicate LowerUpperAt(s: string, i: int) {
    0 <= i && i + 1 < |s| && IsLower(s[i]) && IsUpper(s[i + 1])
  }

  /** The number of positions where a lower-case letter is followed by a capital. */
  function LowerUpperCount(s: string): nat
    decreases |s|
  {
    if |s| < 2 then 0
    else (if IsLower(s[0]) && IsUpper(s[1]) then 1 else 0) + LowerUpperCount(s[1..])
  }

  /** Two capitals followed by a lower-case letter at position `i`: a match of the second pattern. */
  predicate AcronymAt(s: string, i: int) {
    0 <= i && i + 2 < |s| && IsUpper(s[i]) && IsUpper(s[i + 1]) && IsLower(s[i + 2])
  }

  /** The number of positions where two capitals are followed by a lower-case letter. */
  function AcronymCount(s: string): nat
    decreases |s|
  {
    if |s| < 3 then 0
    else (if IsUpper(s[0]) && IsUpper(s[1]) && IsLower(s[2]) then 1 else 0) + AcronymCount(s[1..])
  }

  /**
   * `replace(Regex("([a-z])([A-Z])"), "$1_$2")`. Matches cannot overlap (the
   * second letter of one is a capital, the first of the next is not), so
   * every lower-to-upper position gets exactly one underscore.
   */
  function SplitLowerUpper(s: string): (r: string)
    ensures |r| == |s| + LowerUpperCount(s)
    ensures |s| > 0 ==> r[0] == s[0]
    decreases |s|
  {
    if |s| < 2 then s
    else if IsLower(s[0]) && IsUpper(s[1]) then
      assert s[1..][1..] == s[2..];
      [s[0], '_', s[1]] + SplitLowerUpper(s[2..])
    else [s[0]] + SplitLowerUpper(s[1..])
  }

  /**
   * `replace(Regex("([A-Z])([A-Z][a-z])"), "$1_$2")`: the last capital of a
   * run starts a new word. Matches cannot overlap either, so every such
   * position gets exactly one underscore, after its first capital.
   */
  function SplitAcronym(s: string): (r: string)
    ensures |r| == |s| + AcronymCount(s)
    ensures |s| > 0 ==> r[0] == s[0]
    ensures |s| > 1 && !AcronymAt(s, 0) ==> r[1] == s[1]
    ensures AcronymAt(s, 0) ==> r[1] == '_'
    decreases |s|
  {
    if |s| < 3 then s
    else if IsUpper(s[0]) && IsUpper(s[1]) && IsLower(s[2]) then
      assert s[1..][1..] == s[2..] && s[2..][1..] == s[3..];
      assert AcronymCount(s[1..]) == AcronymCount(s[2..]);
      assert AcronymCount(s[2..]) == AcronymCount(s[3..]);
      [s[0], '_', s[1], s[2]] + SplitAcronym(s[3..])
    else [s[0]] + SplitAcronym(s[1..])
  }

  /** After the first pass no lower-case letter is directly followed by a capital. */
  lemma {:induction false} SplitLowerUpperLeavesNoBoundary(s: string)
    ensures forall i :: !LowerUpperAt(SplitLowerUpper(s), i)
    decreases |s|
  {
    var r := SplitLowerUpper(s);
    if |s| >= 2 {
      if IsLower(s[0]) && IsUpper(s[1]) {
        var rest := SplitLowerUpper(s[2..]);
        SplitLowerUpperLeavesNoBoundary(s[2..]);
        assert r == [s[0], '_', s[1]] + rest;
        forall i | 3 <= i
          ensures LowerUpperAt(r, i) == LowerUpperAt(rest, i - 3)
        {
        }
      } else {
        var rest := SplitLowerUpper(s[1..]);
        SplitLowerUpperLeavesNoBoundary(s[1..]);
        assert r == [s[0]] + rest;
        assert rest[0] == s[1];
        forall i | 1 <= i
          ensures LowerUpperAt(r, i) == LowerUpperAt(rest, i - 1)
        {
        }
      }
    }
  }

  /** After the second pass no two capitals are directly followed by a lower-case letter. */
  lemma {:induction false} SplitAcronymLeavesNoAcronym(s: string)
    ensures forall i :: !AcronymAt(SplitAcronym(s), i)
    decreases |s|
  {
    var r := SplitAcronym(s);
    if |s| >= 3 {
      if IsUpper(s[0]) && IsUpper(s[1]) && IsLower(s[2]) {
        var rest := SplitAcronym(s[3..]);
        SplitAcronymLeavesNoAcronym(s[3..]);
        assert r == [s[0], '_', s[1], s[2]] + rest;
        forall i | 4 <= i
          ensures AcronymAt(r, i) == AcronymAt(rest, i - 4)
        {
        }
      } else {
        var rest := SplitAcronym(s[1..]);
        SplitAcronymLeavesNoAcronym(s[1..]);
        assert r == [s[0]] + rest;
        assert rest[0] == s[1];
        assert !AcronymAt(s[1..], 0) ==> rest[1] == s[2];
        forall i | 1 <= i
          ensures AcronymAt(r, i) == AcronymAt(rest, i - 1)
        {
        }
      }
    }
  }

  function ToSnakeCase(s: string): (r: string)
    ensures HasNoUpper(r)
  {
    LowerHasNoUpper(SplitAcronym(SplitLowerUpper(s)));
    Lower(SplitAcronym(SplitLowerUpper(s)))
  }

  /** The text with its underscores taken out. */
  function WithoutUnderscores(s: string): (r: string)
    ensures |r| <= |s|
  {
    if s == [] then []
    else (if s[0] == '_' then [] else [s[0]]) + WithoutUnderscores(s[1..])
  }

  lemma {:induction false} WithoutUnderscoresAppend(a: string, b: string)
    ensures WithoutUnderscores(a + b) == WithoutUnderscores(a) + WithoutUnderscores(b)
  {
    if a != [] {
      var head := if a[0] == '_' then [] else [a[0]];
      assert (a + b)[0] == a[0] && (a + b)[1..] == a[1..] + b;
      WithoutUnderscoresAppend(a[1..], b);
      calc {
        WithoutUnderscores(a + b);
        head + WithoutUnderscores(a[1..] + b);
        head + (WithoutUnderscores(a[1..]) + WithoutUnderscores(b));
        (head + WithoutUnderscores(a[1..])) + WithoutUnderscores(b);
      }
    } else {
      assert a + b == b;
    }
  }

  lemma {:induction false} SplitLowerUpperOnlyUnderscores(s: string)
    ensures WithoutUnderscores(SplitLowerUpper(s)) == WithoutUnderscores(s)
    decreases |s|
  {
    if |s| >= 2 {
      if IsLower(s[0]) && IsUpper(s[1]) {
        var rest := SplitLowerUpper(s[2..]);
        assert SplitLowerUpper(s) == [s[0], '_', s[1]] + rest;
        SplitLowerUpperOnlyUnderscores(s[2..]);
        WithoutUnderscoresAppend([s[0], '_', s[1]], rest);
        WithoutUnderscoresAppend([s[0], s[1]], s[2..]);
        assert s == [s[0], s[1]] + s[2..];
        assert WithoutUnderscores([s[0], '_', s[1]]) == WithoutUnderscores([s[0], s[1]]) by {
          assert [s[0], '_', s[1]][1..] == ['_', s[1]] && ['_', s[1]][1..] == [s[1]];
          assert [s[0], s[1]][1..] == [s[1]];
        }
      } else {
        var rest := SplitLowerUpper(s[1..]);
        assert SplitLowerUpper(s) == [s[0]] + rest;
        SplitLowerUpperOnlyUnderscores(s[1..]);
        WithoutUnderscoresAppend([s[0]], rest);
        WithoutUnderscoresAppend([s[0]], s[1..]);
        assert s == [s[0]] + s[1..];
      }
    }
  }

  lemma {:induction false} SplitAcronymOnlyUnderscores(s: string)
    ensures WithoutUnderscores(SplitAcronym(s)) == WithoutUnderscores(s)
    decreases |s|
  {
    if |s| >= 3 {
      if IsUpper(s[0]) && IsUpper(s[1]) && IsLower(s[2]) {
        var rest := SplitAcronym(s[3..]);
        assert SplitAcronym(s) == [s[0], '_', s[1], s[2]] + rest;
        SplitAcronymOnlyUnderscores(s[3..]);
        WithoutUnderscoresAppend([s[0], '_', s[1], s[2]], rest);
        WithoutUnderscoresAppend([s[0], s[1], s[2]], s[3..]);
        assert s == [s[0], s[1], s[2]] + s[3..];
      } else {
        var rest := SplitAcronym(s[1..]);
        assert SplitAcronym(s) == [s[0]] + rest;
        SplitAcronymOnlyUnderscores(s[1..]);
        WithoutUnderscoresAppend([s[0]], rest);
        WithoutUnderscoresAppend([s[0]], s[1..]);
        assert s == [s[0]] + s[1..];
      }
    }
  }

  lemma {:induction false} LowerWithoutUnderscores(s: string)
    ensures WithoutUnderscores(Lower(s)) == Lower(WithoutUnderscores(s))
  {
    if s != [] {
      assert Lower(s)[1..] == Lower(s[1..]);
      LowerWithoutUnderscores(s[1..]);
    }
  }

  /** The conversion only inserts underscores and lowers letters: nothing else is added, removed or reordered. */
  lemma ToSnakeCaseOnlyInsertsUnderscores(s: string)
    ensures WithoutUnderscores(ToSnakeCase(s)) == Lower(WithoutUnderscores(s))
  {
    SplitLowerUpperOnlyUnderscores(s);
    SplitAcronymOnlyUnderscores(SplitLowerUpper(s));
    LowerWithoutUnderscores(SplitAcronym(SplitLowerUpper(s)));
  }

  lemma {:induction false} SplitLowerUpperNoUpper(s: string)
    requires HasNoUpper(s)
    ensures SplitLowerUpper(s) == s
    decreases |s|
  {
    if |s| >= 2 {
      SplitLowerUpperNoUpper(s[1..]);
    }
  }

  lemma {:induction false} SplitAcronymNoUpper(s: string)
    requires HasNoUpper(s)
    ensures SplitAcronym(s) == s
    decreases |s|
  {
    if |s| >= 3 {
      SplitAcronymNoUpper(s[1..]);
    }
  }

  /** Text without capitals, snake case included, is left as it is. */
  lemma ToSnakeCaseNoUpper(s: string)
    requires HasNoUpper(s)
    ensures ToSnakeCase(s) == s
  {
    SplitLowerUpperNoUpper(s);
    SplitAcronymNoUpper(s);
    LowerOfLowerCase(s);
  }

  /** Converting twice is converting once. */
  lemma ToSnakeCaseIdempotent(s: string)
    ensures ToSnakeCase(ToSnakeCase(s)) == ToSnakeCase(s)
  {
    ToSnakeCaseNoUpper(ToSnakeCase(s));
  }

  /**
   * The whole conversion: apart from underscores it is the lower-cased input,
   * and it adds one underscore per match of the first pattern in the input and
   * one per match of the second pattern in the first pass's output.
   */
  lemma ToSnakeCaseUnderscores(s: string)
    ensures WithoutUnderscores(ToSnakeCase(s)) == Lower(WithoutUnderscores(s))
    ensures |ToSnakeCase(s)| == |s| + LowerUpperCount(s) + AcronymCount(SplitLowerUpper(s))
  {
    ToSnakeCaseOnlyInsertsUnderscores(s);
  }

  /** The first pass copies a leading character that starts no match. */
  lemma SplitLowerUpperCons(c: char, y: string)
    requires !(IsLower(c) && |y| > 0 && IsUpper(y[0]))
    ensures SplitLowerUpper([c] + y) == [c] + SplitLowerUpper(y)
  {
    var cy := [c] + y;
    assert cy[0] == c && cy[1..] == y;
    if |y| > 0 {
      assert cy[1] == y[0];
    }
  }

  /** The first pass splits a leading lower-upper pair and goes on after it. */
  lemma SplitLowerUpperPair(a: char, b: char, y: string)
    requires IsLower(a) && IsUpper(b)
    ensures SplitLowerUpper([a, b] + y) == [a, '_', b] + SplitLowerUpper(y)
  {
    var aby := [a, b] + y;
    assert aby[0] == a && aby[1] == b && aby[2..] == y;
  }

  /** Concatenation is associative; stated once so that the steps below need not rediscover it. */
  lemma ConcatAssociative(h: string, u: string, v: string)
    ensures h + (u + v) == (h + u) + v
  {
  }

  /** One step of SplitLowerUpperAppend past a leading lower-upper pair. */
  lemma SplitLowerUpperAppendPair(a: char, b: char, rest: string, y: string)
    requires IsLower(a) && IsUpper(b)
    requires SplitLowerUpper(rest + y) == SplitLowerUpper(rest) + SplitLowerUpper(y)
    ensures SplitLowerUpper([a, b] + rest + y) == SplitLowerUpper([a, b] + rest) + SplitLowerUpper(y)
  {
    assert [a, b] + rest + y == [a, b] + (rest + y);
    SplitLowerUpperPair(a, b, rest + y);
    SplitLowerUpperPair(a, b, rest);
    ConcatAssociative([a, '_', b], SplitLowerUpper(rest), SplitLowerUpper(y));
  }

  /** One step of SplitLowerUpperAppend past a leading character that starts no match. */
  lemma SplitLowerUpperAppendCons(c: char, rest: string, y: string)
    requires |rest| > 0 && !(IsLower(c) && IsUpper(rest[0]))
    requires SplitLowerUpper(rest + y) == SplitLowerUpper(rest) + SplitLowerUpper(y)
    ensures SplitLowerUpper([c] + rest + y) == SplitLowerUpper([c] + rest) + SplitLowerUpper(y)
  {
    assert [c] + rest + y == [c] + (rest + y);
    assert (rest + y)[0] == rest[0];
    SplitLowerUpperCons(c, rest + y);
    SplitLowerUpperCons(c, rest);
    ConcatAssociative([c], SplitLowerUpper(rest), SplitLowerUpper(y));
  }

  /** The first pass works piecewise when no match straddles the cut. */
  lemma {:induction false} SplitLowerUpperAppend(x: string, y: string)
    requires |x| >= 1
    requires !(IsLower(x[|x| - 1]) && |y| > 0 && IsUpper(y[0]))
    ensures SplitLowerUpper(x + y) == SplitLowerUpper(x) + SplitLowerUpper(y)
    decreases |x|
  {
    if |x| == 1 {
      assert x == [x[0]] + [];
      SplitLowerUpperCons(x[0], y);
      SplitLowerUpperCons(x[0], []);
    } else if IsLower(x[0]) && IsUpper(x[1]) {
      var rest := x[2..];
      if |rest| == 0 {
        assert rest + y == y && rest == [];
      } else {
        assert rest[|rest| - 1] == x[|x| - 1];
        SplitLowerUpperAppend(rest, y);
      }
      assert x == [x[0], x[1]] + rest;
      SplitLowerUpperAppendPair(x[0], x[1], rest, y);
    } else {
      var rest := x[1..];
      assert rest[|rest| - 1] == x[|x| - 1];
      SplitLowerUpperAppend(rest, y);
      assert x == [x[0]] + rest;
      SplitLowerUpperAppendCons(x[0], rest, y);
    }
  }

  /** Text without a match of the second pattern is left as it is by the second pass. */
  lemma {:induction false} SplitAcronymWithoutMatch(s: string)
    requires forall i :: !AcronymAt(s, i)
    ensures SplitAcronym(s) == s
    decreases |s|
  {
    if |s| >= 3 {
      assert !AcronymAt(s, 0);
      forall i ensures !AcronymAt(s[1..], i) {
        assert AcronymAt(s[1..], i) ==> AcronymAt(s, i + 1);
      }
      SplitAcronymWithoutMatch(s[1..]);
      assert s == [s[0]] + s[1..];
    }
  }

  /** The documented example, lower camel case. */
  lemma CamelCaseStringExample()
    ensures ToSnakeCase("camelCaseString") == "camel_case_string"
  {
    CamelCaseStringFirstPass();
    CaseStringSecondPass("camel_Case_String");
    LowerCaseString("camel_Case_String");
    ToSnakeCaseByPasses("camelCaseString", "camel_Case_String", "camel_Case_String", "camel_case_string");
  }

  /** The documented example, upper camel case: a leading capital starts no new word. */
  lemma PascalCaseStringExample()
    ensures ToSnakeCase("CamelCaseString") == "camel_case_string"
  {
    PascalCaseStringFirstPass();
    CaseStringSecondPass("Camel_Case_String");
    LowerCaseString("Camel_Case_String");
    ToSnakeCaseByPasses("CamelCaseString", "Camel_Case_String", "Camel_Case_String", "camel_case_string");
  }

  /** The tail both documented examples share, first pass: "eString" is cut after the 'e'. */
  lemma StringTailFirstPass()
    ensures SplitLowerUpper("eString") == "e_String"
  {
    var tail := "tring";
    assert ['e', 'S'] + tail == "eString";
    assert ['e', '_', 'S'] + tail == "e_String";
    SplitLowerUpperNoUpper(tail);
    SplitLowerUpperPair('e', 'S', tail);
  }

  lemma CaseStringTailFirstPass()
    ensures SplitLowerUpper("lCaseString") == "l_Case_String"
  {
    var middle, tail := "as", "eString";
    assert middle + tail == "aseString";
    assert middle + "e_String" == "ase_String";
    assert ['l', 'C'] + "aseString" == "lCaseString";
    assert ['l', '_', 'C'] + "ase_String" == "l_Case_String";
    StringTailFirstPass();
    SplitLowerUpperNoUpper(middle);
    SplitLowerUpperAppend(middle, tail);
    SplitLowerUpperPair('l', 'C', "aseString");
  }

  /** A prefix without capitals is copied by the first pass unless a capital follows it. */
  lemma SplitLowerUpperNoUpperPrefix(head: string, tail: string)
    requires HasNoUpper(head)
    requires |tail| > 0 ==> !IsUpper(tail[0])
    ensures SplitLowerUpper(head + tail) == head + SplitLowerUpper(tail)
  {
    if |head| == 0 {
      assert head + tail == tail;
    } else {
      SplitLowerUpperNoUpper(head);
      SplitLowerUpperAppend(head, tail);
    }
  }

  /** The lower-case start of either documented example is copied by the first pass. */
  lemma LowerHeadFirstPass(head: string, tail: string)
    requires HasNoUpper(head)
    requires tail == "lCaseString"
    ensures SplitLowerUpper(head + tail) == head + "l_Case_String"
  {
    CaseStringTailFirstPass();
    SplitLowerUpperNoUpperPrefix(head, tail);
  }

  lemma CamelCaseStringFirstPass()
    ensures SplitLowerUpper("camelCaseString") == "camel_Case_String"
  {
    var head, tail := "came", "lCaseString";
    assert head + tail == "camelCaseString";
    assert head + "l_Case_String" == "camel_Case_String";
    LowerHeadFirstPass(head, tail);
  }

  /** A leading capital starts no match of the first pattern. */
  lemma PascalHeadFirstPass(tail: string, split: string)
    requires tail == "amelCaseString" && split == "amel_Case_String"
    requires SplitLowerUpper(tail) == split
    ensures SplitLowerUpper(['C'] + tail) == ['C'] + split
  {
    SplitLowerUpperCons('C', tail);
  }

  lemma PascalCaseStringFirstPass()
    ensures SplitLowerUpper("CamelCaseString") == "Camel_Case_String"
  {
    var head, tail := "ame", "lCaseString";
    assert head + tail == "amelCaseString";
    assert head + "l_Case_String" == "amel_Case_String";
    assert ['C'] + "amelCaseString" == "CamelCaseString";
    assert ['C'] + "amel_Case_String" == "Camel_Case_String";
    LowerHeadFirstPass(head, tail);
    PascalHeadFirstPass("amelCaseString", "amel_Case_String");
  }

  /** Each capital of the first pass's output is followed by a lower-case letter, so the second pass changes nothing. */
  lemma CaseStringSecondPass(s: string)
    requires s == "camel_Case_String" || s == "Camel_Case_String"
    ensures SplitAcronym(s) == s
  {
    forall i
      ensures !AcronymAt(s, i)
    {
      if 0 <= i < 15 {
        assert i == 0 || i == 1 || i == 2 || i == 3 || i == 4 || i == 5 || i == 6 || i == 7
          || i == 8 || i == 9 || i == 10 || i == 11 || i == 12 || i == 13 || i == 14;
      }
    }
    SplitAcronymWithoutMatch(s);
  }

  /** The seventeen characters of the documented examples' second-pass output, lower-cased. */
  lemma LowerCaseString(s: string)
    requires s == "camel_Case_String" || s == "Camel_Case_String"
    ensures Lower(s) == "camel_case_string"
  {
    forall i | 0 <= i < 17
      ensures LowerChar(s[i]) == "camel_case_string"[i]
    {
      assert i == 0 || i == 1 || i == 2 || i == 3 || i == 4 || i == 5 || i == 6 || i == 7 || i == 8
        || i == 9 || i == 10 || i == 11 || i == 12 || i == 13 || i == 14 || i == 15 || i == 16;
    }
    LowerExample(s, "camel_case_string");
  }

  /** A conversion put together from its two passes and the lower-casing. */
  lemma ToSnakeCaseByPasses(s: string, first: string, second: string, t: string)
    requires SplitLowerUpper(s) == first && SplitAcronym(first) == second && Lower(second) == t
    ensures ToSnakeCase(s) == t
  {
  }

  /** Lower-casing a concrete text, character by character. */
  lemma LowerExample(s: string, t: string)
    requires |s| == |t|
    requires forall i :: 0 <= i < |s| ==> LowerChar(s[i]) == t[i]
    ensures Lower(s) == t
  {
  }

  lemma LowerUrlValue()
    ensures Lower("URL_Value") == "url_value"
  {
    var s := "URL_Value";
    forall i | 0 <= i < 9
      ensures LowerChar(s[i]) == "url_value"[i]
    {
      assert i == 0 || i == 1 || i == 2 || i == 3 || i == 4 || i == 5 || i == 6 || i == 7 || i == 8;
    }
    LowerExample(s, "url_value");
  }

  /** A run of capitals followed by a word splits before the word's capital. */
  lemma AcronymExample()
    ensures ToSnakeCase("URLValue") == "url_value"
  {
    AcronymExampleFirstPass();
    AcronymExampleSecondPass();
    LowerUrlValue();
    ToSnakeCaseByPasses("URLValue", "URLValue", "URL_Value", "url_value");
  }

  lemma AcronymExampleFirstPass()
    ensures SplitLowerUpper("URLValue") == "URLValue"
  {
    assert SplitLowerUpper("e") == "e";
    assert SplitLowerUpper("ue") == "ue";
    assert SplitLowerUpper("lue") == "lue";
    assert SplitLowerUpper("alue") == "alue";
    assert SplitLowerUpper("Value") == "Value";
    assert SplitLowerUpper("LValue") == "LValue";
    assert SplitLowerUpper("RLValue") == "RLValue";
  }

  lemma ValueSecondPass()
    ensures SplitAcronym("Value") == "Value"
  {
    assert SplitAcronym("ue") == "ue";
    assert SplitAcronym("lue") == "lue";
    assert SplitAcronym("alue") == "alue";
  }

  lemma AcronymExampleSecondPass()
    ensures SplitAcronym("URLValue") == "URL_Value"
  {
    ValueSecondPass();
    assert SplitAcronym("LValue") == "L_Value";
    assert SplitAcronym("RLValue") == "RL_Value";
  }
}
