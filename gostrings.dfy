/**
 * The parts of Go's `strings` package the core relies on: `TrimSpace`,
 * `Split` on a one-character separator, and `ToLower`.
 */
module GoStrings {

  /** `unicode.IsSpace`: the Latin-1 spaces plus the Unicode White_Space property. */
  predicate IsSpace(c: char) {
    || ('\t' <= c <= '\r')
    || c == ' ' || c == '\U{0085}' || c == '\U{00A0}' || c == '\U{1680}'
    || ('\U{2000}' <= c <= '\U{200A}')
    || c == '\U{2028}' || c == '\U{2029}' || c == '\U{202F}' || c == '\U{205F}' || c == '\U{3000}'
  }

  /** The index `TrimLeftFunc` would cut at: the first index from `i` on whose character does not satisfy `f`. */
  function SkipLeft(s: string, f: char -> bool, i: nat): (k: nat)
    requires i <= |s|
    ensures i <= k <= |s|
    ensures forall j :: i <= j < k ==> f(s[j])
    ensures k == |s| || !f(s[k])
    decreases |s| - i
  {
    if i < |s| && f(s[i]) then SkipLeft(s, f, i + 1) else i
  }

  /** The index `TrimRightFunc` would cut at: going down from `j`, no lower than `lo`, past characters satisfying `f`. */
  function SkipRight(s: string, f: char -> bool, lo: nat, j: nat): (k: nat)
    requires lo <= j <= |s|
    ensures lo <= k <= j
    ensures forall m :: k <= m < j ==> f(s[m])
    ensures k == lo || !f(s[k - 1])
  {
    if j > lo && f(s[j - 1]) then SkipRight(s, f, lo, j - 1) else j
  }

  /** `strings.TrimFunc`: the middle slice of `s` left once the leading and trailing characters satisfying `f` are cut. */
  function TrimFunc(s: string, f: char -> bool): string {
    var a := SkipLeft(s, f, 0);
    var b := SkipRight(s, f, a, |s|);
    s[a..b]
  }

  /** `strings.TrimSpace` is `TrimFunc` with `unicode.IsSpace`. */
  function TrimSpace(s: string): string {
    TrimFunc(s, IsSpace)
  }

  /**
   * What `TrimSpace` cuts: the result is a middle slice of the input, only
   * white space lies outside it, and neither end of it is white space.
   */
  lemma TrimSpaceCuts(s: string)
    ensures exists a, b :: 0 <= a <= b <= |s| && TrimSpace(s) == s[a..b]
              && (forall i :: 0 <= i < a ==> IsSpace(s[i]))
              && (forall i :: b <= i < |s| ==> IsSpace(s[i]))
    ensures var r := TrimSpace(s); r == [] || (!IsSpace(r[0]) && !IsSpace(r[|r| - 1]))
  {
    var a := SkipLeft(s, IsSpace, 0);
    var b := SkipRight(s, IsSpace, a, |s|);
    assert TrimSpace(s) == s[a..b];
  }

  /** A string whose ends do not satisfy `f` is left as it is. */
  lemma TrimFuncOfTrimmed(s: string, f: char -> bool)
    requires s == [] || (!f(s[0]) && !f(s[|s| - 1]))
    ensures TrimFunc(s, f) == s
  {
    assert SkipLeft(s, f, 0) == 0;
    assert SkipRight(s, f, 0, |s|) == |s|;
  }

  /** Trimming twice is trimming once. */
  lemma {:induction false} TrimSpaceIdempotent(s: string)
    ensures TrimSpace(TrimSpace(s)) == TrimSpace(s)
  {
    TrimFuncOfTrimmed(TrimSpace(s), IsSpace);
  }

  /** A string of characters all satisfying `f` trims to the empty string. */
  lemma TrimFuncOfBlank(s: string, f: char -> bool)
    requires forall i :: 0 <= i < |s| ==> f(s[i])
    ensures TrimFunc(s, f) == ""
  {
    assert SkipLeft(s, f, 0) == |s|;
  }

  /** A string made only of white space trims to the empty string. */
  lemma TrimSpaceOfBlank(s: string)
    requires forall i :: 0 <= i < |s| ==> IsSpace(s[i])
    ensures TrimSpace(s) == ""
  {
    TrimFuncOfBlank(s, IsSpace);
  }

  /** Number of occurrences of `c` in `s`. */
  function Count(s: string, c: char): nat {
    if s == [] then 0 else (if s[0] == c then 1 else 0) + Count(s[1..], c)
  }

  /** The pieces joined back with the separator. */
  function Join(parts: seq<string>, sep: char): string
    requires |parts| >= 1
  {
    if |parts| == 1 then parts[0] else parts[0] + [sep] + Join(parts[1..], sep)
  }

  /**
   * `strings.Split(s, [sep])`: the pieces between the separators, so one more
   * piece than there are separators (the empty string gives `[""]`).
   */
  function Split(s: string, sep: char): (parts: seq<string>)
    ensures |parts| == Count(s, sep) + 1
    ensures forall i :: 0 <= i < |parts| ==> sep !in parts[i]
    ensures Join(parts, sep) == s
  {
    if s == [] then [[]]
    else
      var rest := Split(s[1..], sep);
      if s[0] == sep then
        [[]] + rest
      else
        var parts := [[s[0]] + rest[0]] + rest[1..];
        assert |rest| > 1 ==> Join(parts, sep) == [s[0]] + (rest[0] + [sep] + Join(rest[1..], sep)) by {
          if |rest| > 1 { assert parts[1..] == rest[1..]; }
        }
        parts
  }

  /** A separator-free first word followed by the separator splits off as the first piece. */
  lemma {:induction false} SplitFirstWord(a: string, rest: string, sep: char)
    requires sep !in a
    ensures Split(a + [sep] + rest, sep) == [a] + Split(rest, sep)
  {
    if a == [] {
      assert [sep] + rest == a + [sep] + rest;
      assert ([sep] + rest)[1..] == rest;
    } else {
      assert (a + [sep] + rest)[1..] == a[1..] + [sep] + rest;
      SplitFirstWord(a[1..], rest, sep);
      assert [a[0]] + a[1..] == a;
    }
  }

  /** Splitting two separator-free words joined by the separator gives back exactly those two words. */
  lemma SplitTwoWords(a: string, b: string, sep: char)
    requires sep !in a && sep !in b
    ensures Split(a + [sep] + b, sep) == [a, b]
  {
    SplitFirstWord(a, b, sep);
    SplitNoSeparator(b, sep);
  }

  /** A string without the separator is a single piece. */
  lemma {:induction false} SplitNoSeparator(s: string, sep: char)
    requires sep !in s
    ensures Split(s, sep) == [s]
  {
    if s != [] {
      SplitNoSeparator(s[1..], sep);
      assert [s[0]] + s[1..] == s;
    }
  }

  function LowerChar(c: char): char {
    if 'A' <= c <= 'Z' then (c as int + 32) as char else c
  }

  /** `strings.ToLower`, restricted to the ASCII letters. */
  function ToLower(s: string): (r: string)
    ensures |r| == |s|
    ensures forall i :: 0 <= i < |s| ==> r[i] == LowerChar(s[i])
  {
    if s == [] then [] else [LowerChar(s[0])] + ToLower(s[1..])
  }
}
