/**
 * The three operations of Go's `strings` package that the symbology parser
 * relies on: `Split` on a one-character separator, its inverse `Join`, and
 * `ToLower`. Strings are sequences of characters.
 */
module GoStrings {

  /** `c` lowered when it is an ASCII capital letter, otherwise `c` itself. */
  function LowerChar(c: char): char
  {
    if 'A' <= c <= 'Z' then (c as int + 32) as char else c
  }

  /** `c` raised when it is an ASCII small letter, otherwise `c` itself. */
  function UpperChar(c: char): char
  {
    if 'a' <= c <= 'z' then (c as int - 32) as char else c
  }

  /**
   * Every character of `s` lowered, as `strings.ToLower` does for ASCII text:
   * the result is as long as `s` and has no capitals.
   */
  function ToLower(s: string): (r: string)
    ensures |r| == |s| && IsLowerCase(r)
  {
    seq(|s|, i requires 0 <= i < |s| => LowerChar(s[i]))
  }

  /** Text without capitals is left as it is, so lowering twice is lowering once. */
  lemma ToLowerKeepsLowerCase(s: string)
    ensures IsLowerCase(s) ==> ToLower(s) == s
    ensures ToLower(ToLower(s)) == ToLower(s)
  {
    var t := ToLower(s);
    assert forall i :: 0 <= i < |t| ==> LowerChar(t[i]) == t[i];
    assert ToLower(t) == t;
  }

  /** `w` holds no ASCII capital letter. */
  predicate IsLowerCase(w: string)
  {
    forall i :: 0 <= i < |w| ==> !('A' <= w[i] <= 'Z')
  }

  /** Each character of `s` is the lower-case word's character or its capital. */
  predicate MatchesIgnoringCase(s: string, w: string)
  {
    |s| == |w| && forall i :: 0 <= i < |s| ==> s[i] == w[i] || s[i] == UpperChar(w[i])
  }

  /**
   * Comparing a lowered string with a lower-case word is a case-insensitive
   * comparison: each character of `s` is the word's character or its capital.
   */
  lemma ToLowerMatchesIgnoringCase(s: string, w: string)
    requires IsLowerCase(w)
    ensures ToLower(s) == w <==> MatchesIgnoringCase(s, w)
  {
    if MatchesIgnoringCase(s, w) {
      forall i | 0 <= i < |s|
        ensures ToLower(s)[i] == w[i]
      {
        if s[i] != w[i] {
          assert s[i] == UpperChar(w[i]);
        }
      }
    }
  }

  /** The pieces joined back together with `sep` between each two of them. */
  function Join(parts: seq<string>, sep: char): string
    requires |parts| >= 1
    decreases |parts|
  {
    if |parts| == 1 then parts[0] else parts[0] + [sep] + Join(parts[1..], sep)
  }

  /**
   * `strings.Split(s, sep)` for a one-character separator: the maximal
   * separator-free pieces of `s`, one more than the separators in `s`
   * (so the empty string splits into one empty piece).
   */
  function Split(s: string, sep: char): (parts: seq<string>)
    ensures |parts| >= 1
    ensures forall i :: 0 <= i < |parts| ==> sep !in parts[i]
    ensures Join(parts, sep) == s
    ensures sep in s <==> |parts| >= 2
    decreases |s|
  {
    if s == [] then [[]]
    else
      var rest := Split(s[1..], sep);
      if s[0] == sep then
        [[]] + rest
      else
        var parts := [[s[0]] + rest[0]] + rest[1..];
        assert parts[1..] == rest[1..];
        assert s == [s[0]] + s[1..];
        parts
  }

  /** Splitting at a first separator: the text before it is the first piece. */
  lemma {:induction false} SplitAtFirst(k: string, sep: char, rest: string)
    requires sep !in k
    ensures Split(k + [sep] + rest, sep) == [k] + Split(rest, sep)
    decreases |k|
  {
    var s := k + [sep] + rest;
    if k == [] {
      assert s[1..] == rest;
    } else {
      assert s[1..] == k[1..] + [sep] + rest;
      SplitAtFirst(k[1..], sep, rest);
      assert [s[0]] + k[1..] == k;
    }
  }

  /** A separator-free string is its own single piece. */
  lemma SplitWithoutSeparator(s: string, sep: char)
    requires sep !in s
    ensures Split(s, sep) == [s]
  {
  }

  /** `strings.Split("k=v", "=")` gives exactly the two pieces `k` and `v`. */
  lemma SplitPair(k: string, sep: char, v: string)
    requires sep !in k && sep !in v
    ensures Split(k + [sep] + v, sep) == [k, v]
  {
    SplitAtFirst(k, sep, v);
    SplitWithoutSeparator(v, sep);
  }
}
