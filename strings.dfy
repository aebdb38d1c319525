/**
 * The few Python `str` operations the helpers are built from, with Python's
 * semantics: `endswith`, `startswith`, the substring test `in`, `replace`
 * (left-to-right, non-overlapping), `split` on one character, `join` and
 * `rindex`.
 */
module Strings {

  predicate StartsWith(s: string, prefix: string) {
    |prefix| <= |s| && s[..|prefix|] == prefix
  }

  predicate EndsWith(s: string, suffix: string) {
    |suffix| <= |s| && s[|s| - |suffix|..] == suffix
  }

  lemma EndsWithTransitive(a: string, b: string, c: string)
    requires EndsWith(a, b) && EndsWith(b, c)
    ensures EndsWith(a, c)
  {
    assert a[|a| - |c|..] == b[|b| - |c|..];
  }

  /** `needle in s`: some position of `s` starts an occurrence of `needle`. */
  predicate Contains(s: string, needle: string)
    decreases |s|
  {
    StartsWith(s, needle) || (s != [] && Contains(s[1..], needle))
  }

  /** A text shorter than the needle cannot contain it. */
  lemma {:induction false} ShorterNotContains(s: string, needle: string)
    requires |s| < |needle|
    ensures !Contains(s, needle)
    decreases |s|
  {
    if s != [] {
      ShorterNotContains(s[1..], needle);
    }
  }

  /** `s.rindex(c)`: the position of the last `c`. */
  function LastIndexOf(s: string, c: char): (i: nat)
    requires c in s
    ensures i < |s| && s[i] == c
    ensures c !in s[i + 1..]
  {
    if s[|s| - 1] == c then |s| - 1
    else
      assert s == s[..|s| - 1] + [s[|s| - 1]];
      LastIndexOf(s[..|s| - 1], c)
  }

  /**
   * `s.replace(pattern, replacement)`: scanning from the left, every
   * occurrence of `pattern` that does not overlap an earlier replaced one is
   * replaced. Python's special case of an empty pattern is never used here.
   */
  function Replace(s: string, pattern: string, replacement: string): (r: string)
    requires pattern != []
    ensures replacement == [] ==> |r| <= |s|
    decreases |s|
  {
    if s == [] then []
    else if StartsWith(s, pattern) then replacement + Replace(s[|pattern|..], pattern, replacement)
    else [s[0]] + Replace(s[1..], pattern, replacement)
  }

  /** Without an occurrence of the pattern, `replace` changes nothing. */
  lemma {:induction false} ReplaceAbsent(s: string, pattern: string, replacement: string)
    requires pattern != []
    requires !Contains(s, pattern)
    ensures Replace(s, pattern, replacement) == s
    decreases |s|
  {
    if s != [] {
      ReplaceAbsent(s[1..], pattern, replacement);
    }
  }

  /** A leading text in which the pattern cannot start is copied unchanged. */
  lemma {:induction false} ReplaceSkipsPrefix(a: string, b: string, pattern: string, replacement: string)
    requires pattern != []
    requires pattern[0] !in a
    ensures Replace(a + b, pattern, replacement) == a + Replace(b, pattern, replacement)
    decreases |a|
  {
    if a != [] {
      assert !StartsWith(a + b, pattern);
      assert (a + b)[1..] == a[1..] + b;
      ReplaceSkipsPrefix(a[1..], b, pattern, replacement);
      assert [a[0]] + a[1..] == a;
    } else {
      assert a + b == b;
    }
  }

  /** An occurrence at the front is replaced and the scan goes on after it. */
  lemma ReplaceLeading(s: string, pattern: string, replacement: string)
    requires pattern != []
    ensures Replace(pattern + s, pattern, replacement) == replacement + Replace(s, pattern, replacement)
  {
    assert (pattern + s)[..|pattern|] == pattern;
    assert (pattern + s)[|pattern|..] == s;
  }

  /** Replacing an occurrence by nothing shortens the text by at least the pattern's length. */
  lemma {:induction false} ReplaceEmptyShrinks(s: string, pattern: string)
    requires pattern != []
    requires Contains(s, pattern)
    ensures |Replace(s, pattern, [])| <= |s| - |pattern|
    decreases |s|
  {
    if !StartsWith(s, pattern) {
      ReplaceEmptyShrinks(s[1..], pattern);
    }
  }

  /** No proper suffix of `pattern` is also a prefix of it, so two occurrences never overlap. */
  predicate Unbordered(pattern: string) {
    forall k :: 0 < k < |pattern| ==> pattern[k..] != pattern[..|pattern| - k]
  }

  /**
   * An occurrence at the front of `a + pattern + b` either lies in `a` or
   * starts inside `a` and runs into the second copy, which makes the
   * pattern's tail one of its prefixes.
   */
  lemma OccurrenceBeforePattern(a: string, b: string, pattern: string)
    requires a != [] && StartsWith(a + pattern + b, pattern)
    ensures StartsWith(a, pattern) || (|a| < |pattern| && pattern[|a|..] == pattern[..|pattern| - |a|])
  {
    var s := a + pattern + b;
    if |a| >= |pattern| {
      assert a[..|pattern|] == s[..|pattern|];
    } else {
      var k := |a|;
      assert pattern[k..] == s[k..|pattern|] == pattern[..|pattern| - k];
    }
  }

  /**
   * For an unbordered pattern, an occurrence is never swallowed by one that
   * starts earlier: the text before it and the text after it are rewritten
   * on their own.
   */
  lemma {:induction false} ReplaceAtOccurrence(a: string, b: string, pattern: string, replacement: string)
    requires pattern != [] && Unbordered(pattern)
    ensures Replace(a + pattern + b, pattern, replacement) ==
      Replace(a, pattern, replacement) + replacement + Replace(b, pattern, replacement)
    decreases |a|
  {
    var s := a + pattern + b;
    if a == [] {
      assert s == pattern + b;
      ReplaceLeading(b, pattern, replacement);
    } else if StartsWith(a, pattern) {
      assert s[..|pattern|] == pattern;
      assert s[|pattern|..] == a[|pattern|..] + pattern + b;
      ReplaceAtOccurrence(a[|pattern|..], b, pattern, replacement);
    } else {
      assert !StartsWith(s, pattern) by {
        if StartsWith(s, pattern) {
          OccurrenceBeforePattern(a, b, pattern);
        }
      }
      assert s[1..] == a[1..] + pattern + b;
      ReplaceAtOccurrence(a[1..], b, pattern, replacement);
    }
  }

  /** Replacing by the empty string never introduces a character. */
  lemma {:induction false} ReplaceEmptyKeepsOut(s: string, pattern: string, c: char)
    requires pattern != []
    requires c !in s
    ensures c !in Replace(s, pattern, [])
    decreases |s|
  {
    if s != [] {
      if StartsWith(s, pattern) {
        ReplaceEmptyKeepsOut(s[|pattern|..], pattern, c);
      } else {
        ReplaceEmptyKeepsOut(s[1..], pattern, c);
      }
    }
  }

  /** `s.split(sep)`: the maximal runs between separators, at least one. */
  function Split(s: string, sep: char): (parts: seq<string>)
    ensures |parts| >= 1
    ensures forall i :: 0 <= i < |parts| ==> sep !in parts[i]
    decreases |s|
  {
    if s == [] then [[]]
    else if s[0] == sep then [[]] + Split(s[1..], sep)
    else
      var rest := Split(s[1..], sep);
      [[s[0]] + rest[0]] + rest[1..]
  }

  /** `sep.join(parts)`. */
  function Join(parts: seq<string>, sep: char): string
  {
    if |parts| == 0 then []
    else if |parts| == 1 then parts[0]
    else parts[0] + [sep] + Join(parts[1..], sep)
  }

  /** A text free of the separator splits into itself. */
  lemma {:induction false} SplitNoSeparator(s: string, sep: char)
    requires sep !in s
    ensures Split(s, sep) == [s]
    decreases |s|
  {
    if s != [] {
      SplitNoSeparator(s[1..], sep);
      assert [s[0]] + s[1..] == s;
    }
  }

  /** Splitting stops at the first separator. */
  lemma {:induction false} SplitAtFirst(a: string, b: string, sep: char)
    requires sep !in a
    ensures Split(a + [sep] + b, sep) == [a] + Split(b, sep)
    decreases |a|
  {
    if a == [] {
      assert a + [sep] + b == [sep] + b;
      assert ([sep] + b)[1..] == b;
    } else {
      assert (a + [sep] + b)[1..] == a[1..] + [sep] + b;
      SplitAtFirst(a[1..], b, sep);
      assert [a[0]] + a[1..] == a;
    }
  }

  /** `split` undoes `join` when no part contains the separator. */
  lemma {:induction false} SplitJoin(parts: seq<string>, sep: char)
    requires |parts| >= 1
    requires forall i :: 0 <= i < |parts| ==> sep !in parts[i]
    ensures Split(Join(parts, sep), sep) == parts
  {
    if |parts| == 1 {
      SplitNoSeparator(parts[0], sep);
    } else {
      SplitJoin(parts[1..], sep);
      SplitAtFirst(parts[0], Join(parts[1..], sep), sep);
      assert [parts[0]] + parts[1..] == parts;
    }
  }

  /** `join` starts with the first part, followed by the separator when there are more. */
  lemma JoinStartsWithFirst(parts: seq<string>, sep: char)
    requires |parts| >= 1
    ensures StartsWith(Join(parts, sep), parts[0])
    ensures |parts| > 1 ==> |Join(parts, sep)| > |parts[0]| && Join(parts, sep)[|parts[0]|] == sep
  {
    if |parts| > 1 {
      var j := Join(parts, sep);
      assert j == parts[0] + [sep] + Join(parts[1..], sep);
      assert j[..|parts[0]|] == parts[0];
    }
  }
}
