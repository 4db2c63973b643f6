/**
 * The few JavaScript string and array built-ins the pipeline relies on:
 * `trim` (and the `\s` class of regular expressions, which matches the same
 * characters), `startsWith`/`endsWith`, the anchored comma-stripping
 * replacements of the loader, `slice(0, end)` with its negative-end rule, and
 * truthiness of an optional string.
 */
module JsString {
  import opened Wrappers

  /** WhiteSpace and LineTerminator code points of ECMAScript, the set `trim` and `\s` use. */
  predicate IsWhitespace(c: char) {
    c == '\t' || c == '\n' || c == '\U{000B}' || c == '\U{000C}' || c == '\r' || c == ' '
    || c == '\U{00A0}' || c == '\U{1680}' || ('\U{2000}' <= c <= '\U{200A}')
    || c == '\U{2028}' || c == '\U{2029}' || c == '\U{202F}' || c == '\U{205F}'
    || c == '\U{3000}' || c == '\U{FEFF}'
  }

  predicate AllWhitespace(s: string) {
    forall i :: 0 <= i < |s| ==> IsWhitespace(s[i])
  }

  /** The first index at or after `i` whose character is not white space, or `|s|`. */
  function SkipBlanks(s: string, i: nat): (j: nat)
    requires i <= |s|
    ensures i <= j <= |s|
    ensures AllWhitespace(s[i..j])
    ensures j == |s| || !IsWhitespace(s[j])
    decreases |s| - i
  {
    if i == |s| || !IsWhitespace(s[i]) then i
    else
      var j := SkipBlanks(s, i + 1);
      assert s[i..j] == [s[i]] + s[i + 1..j];
      j
  }

  /** One past the last index below `j`, not below `lo`, whose character is not white space, or `lo`. */
  function SkipBlanksBack(s: string, lo: nat, j: nat): (e: nat)
    requires lo <= j <= |s|
    ensures lo <= e <= j
    ensures AllWhitespace(s[e..j])
    ensures e == lo || !IsWhitespace(s[e - 1])
    decreases j
  {
    if j == lo || !IsWhitespace(s[j - 1]) then j
    else
      var e := SkipBlanksBack(s, lo, j - 1);
      assert s[e..j] == s[e..j - 1] + [s[j - 1]];
      e
  }

  /** `s.replace(/^\s+/, "")`: the longest suffix that does not start with white space. */
  function TrimStart(s: string): (r: string)
    ensures |r| <= |s| && r == s[|s| - |r|..]
    ensures AllWhitespace(s[..|s| - |r|])
    ensures r == [] || !IsWhitespace(r[0])
  {
    s[SkipBlanks(s, 0)..]
  }

  /** `s.replace(/\s+$/, "")`: the longest prefix that does not end with white space. */
  function TrimEnd(s: string): (r: string)
    ensures |r| <= |s| && r == s[..|r|]
    ensures AllWhitespace(s[|r|..])
    ensures r == [] || !IsWhitespace(r[|r| - 1])
  {
    s[..SkipBlanksBack(s, 0, |s|)]
  }

  /** `s.trim()`: white space cut from both ends. */
  function Trim(s: string): (r: string)
    ensures r == [] || (!IsWhitespace(r[0]) && !IsWhitespace(r[|r| - 1]))
  {
    var lo := SkipBlanks(s, 0);
    s[lo..SkipBlanksBack(s, lo, |s|)]
  }

  /** Trimming cuts white space from both ends and nothing else: the result is an infix of `s`. */
  lemma TrimIsInfix(s: string) returns (lo: nat)
    ensures lo == SkipBlanks(s, 0) && lo + |Trim(s)| <= |s|
    ensures Trim(s) == s[lo..lo + |Trim(s)|]
    ensures AllWhitespace(s[..lo]) && AllWhitespace(s[lo + |Trim(s)|..])
  {
    lo := SkipBlanks(s, 0);
    assert s[..lo] == s[0..lo];
  }

  /** `trim` gives the empty string exactly for all-blank text. */
  lemma TrimEmpty(s: string)
    ensures Trim(s) == [] <==> AllWhitespace(s)
  {
    var lo := TrimIsInfix(s);
    if Trim(s) == [] {
      assert s == s[..lo] + s[lo..];
    } else {
      assert s[lo] == Trim(s)[0];
    }
  }

  /** The first non-blank index after a run of blanks is where the run ends. */
  lemma {:induction false} SkipBlanksOver(s: string, i: nat, j: nat)
    requires i <= j <= |s| && AllWhitespace(s[i..j])
    requires j == |s| || !IsWhitespace(s[j])
    ensures SkipBlanks(s, i) == j
    decreases j - i
  {
    if i < j {
      assert s[i] == s[i..j][0];
      assert s[i + 1..j] == s[i..j][1..];
      SkipBlanksOver(s, i + 1, j);
    }
  }

  lemma {:induction false} SkipBlanksBackOver(s: string, lo: nat, e: nat, j: nat)
    requires lo <= e <= j <= |s| && AllWhitespace(s[e..j])
    requires e == lo || !IsWhitespace(s[e - 1])
    ensures SkipBlanksBack(s, lo, j) == e
    decreases j
  {
    if e < j {
      assert s[j - 1] == s[e..j][j - 1 - e];
      assert s[e..j - 1] == s[e..j][..j - 1 - e];
      SkipBlanksBackOver(s, lo, e, j - 1);
    }
  }

  /** Text that already starts and ends with a non-space character is left alone by `trim`. */
  lemma TrimStartOfClean(w: string, t: string)
    requires AllWhitespace(w)
    requires t == [] || !IsWhitespace(t[0])
    ensures TrimStart(w + t) == t
  {
    assert (w + t)[0..|w|] == w;
    SkipBlanksOver(w + t, 0, |w|);
    assert (w + t)[|w|..] == t;
  }

  lemma TrimEndOfClean(t: string, w: string)
    requires AllWhitespace(w)
    requires t == [] || !IsWhitespace(t[|t| - 1])
    ensures TrimEnd(t + w) == t
  {
    assert (t + w)[|t|..|t + w|] == w;
    SkipBlanksBackOver(t + w, 0, |t|, |t + w|);
    assert (t + w)[..|t|] == t;
  }

  lemma TrimOfClean(s: string)
    requires s != [] && !IsWhitespace(s[0]) && !IsWhitespace(s[|s| - 1])
    ensures Trim(s) == s
  {
    assert s[0..0] == [];
    SkipBlanksOver(s, 0, 0);
    assert s[|s|..|s|] == [];
    SkipBlanksBackOver(s, 0, |s|, |s|);
  }

  predicate StartsWith(s: string, prefix: string) {
    |prefix| <= |s| && s[..|prefix|] == prefix
  }

  /** `s.startsWith(c)` for a one-character string `c`. */
  predicate StartsWithChar(s: string, c: char) {
    s != [] && s[0] == c
  }

  lemma StartsWithOneChar(s: string, c: char)
    ensures StartsWithChar(s, c) <==> StartsWith(s, [c])
  {
    if StartsWith(s, [c]) {
      assert s[..1][0] == s[0];
    }
  }

  predicate EndsWith(s: string, suffix: string) {
    |suffix| <= |s| && s[|s| - |suffix|..] == suffix
  }

  /** `s.replace(/^c+/, "")`: every leading occurrence of `c` removed. */
  function DropLeading(s: string, c: char): (r: string)
    ensures |r| <= |s| && r == s[|s| - |r|..]
    ensures forall i :: 0 <= i < |s| - |r| ==> s[i] == c
    ensures r == [] || r[0] != c
  {
    if s != [] && s[0] == c then DropLeading(s[1..], c) else s
  }

  /** `s.replace(/c+$/, "")`: every trailing occurrence of `c` removed. */
  function DropTrailing(s: string, c: char): (r: string)
    ensures |r| <= |s| && r == s[..|r|]
    ensures forall i :: |r| <= i < |s| ==> s[i] == c
    ensures r == [] || r[|r| - 1] != c
  {
    if s != [] && s[|s| - 1] == c then DropTrailing(s[..|s| - 1], c) else s
  }

  /** `text` as an `if (text)` test sees it: present and not the empty string. */
  predicate Truthy(text: Option<string>) {
    text.Some? && text.value != ""
  }

  /**
   * Where `Array.prototype.slice(0, end)` (and `String.prototype.slice`) stops on a
   * sequence of length `len`: a negative `end` counts back from the end.
   */
  function SliceEnd(len: nat, end: int): (n: nat)
    ensures n <= len
  {
    if end < 0 then (if len + end < 0 then 0 else len + end)
    else if end < len then end else len
  }

  /** `s.slice(0, end)`. */
  function Take<T>(s: seq<T>, end: int): (r: seq<T>)
    ensures |r| == SliceEnd(|s|, end) && r == s[..|r|]
  {
    s[..SliceEnd(|s|, end)]
  }
}
