/** The few Python string operations the tools use: `strip`, `split` and `join`. */
module Text {

  /** Python's `str.isspace` for one character: the characters `str.strip()` removes by default. */
  predicate IsSpace(c: char)
  {
    c == ' ' || ('\t' <= c <= '\r') || ('\U{1c}' <= c <= '\U{1f}') || c == '\U{85}' || c == '\U{a0}'
    || c == '\U{1680}' || ('\U{2000}' <= c <= '\U{200a}') || c == '\U{2028}' || c == '\U{2029}'
    || c == '\U{202f}' || c == '\U{205f}' || c == '\U{3000}'
  }

  /** Every character of `s` from index `lo` up to `hi` is whitespace. */
  predicate SpaceBetween(s: string, lo: int, hi: int)
  {
    forall k :: lo <= k < hi ==> 0 <= k < |s| && IsSpace(s[k])
  }

  /** Neither end of `s` is whitespace: `s` is a possible result of `strip()`. */
  predicate IsStripped(s: string)
  {
    s == [] || (!IsSpace(s[0]) && !IsSpace(s[|s| - 1]))
  }

  /** Where `s.lstrip()` starts: the first index from `i` on that is not whitespace, or `|s|`. */
  function SkipSpace(s: string, i: nat): (j: nat)
    requires i <= |s|
    ensures i <= j <= |s| && SpaceBetween(s, i, j)
    ensures j < |s| ==> !IsSpace(s[j])
    decreases |s| - i
  {
    if i == |s| || !IsSpace(s[i]) then i else SkipSpace(s, i + 1)
  }

  /** Where `s.rstrip()` ends: the least `e <= j` such that `s[e..j]` is all whitespace. */
  function SkipSpaceBack(s: string, j: nat): (e: nat)
    requires j <= |s|
    ensures e <= j && SpaceBetween(s, e, j)
    ensures e > 0 ==> !IsSpace(s[e - 1])
  {
    if j == 0 || !IsSpace(s[j - 1]) then j else SkipSpaceBack(s, j - 1)
  }

  /** Where `Strip(s)` starts in `s`. */
  function StripStart(s: string): nat
    ensures StripStart(s) <= |s|
  {
    SkipSpace(s, 0)
  }

  /**
   * Python's `s.strip()`: `s` with its leading and trailing whitespace removed. The result is
   * the slice of `s` from `StripStart(s)`, with only whitespace before and after it.
   */
  function Strip(s: string): (r: string)
    ensures IsStripped(r)
    ensures StripStart(s) + |r| <= |s| && s[StripStart(s)..StripStart(s) + |r|] == r
    ensures SpaceBetween(s, 0, StripStart(s)) && SpaceBetween(s, StripStart(s) + |r|, |s|)
  {
    var i := SkipSpace(s, 0);
    var e := SkipSpaceBack(s, |s|);
    if e <= i then
      []
    else
      s[i..e]
  }

  /** Stripping a stripped string changes nothing, so `strip()` is idempotent. */
  lemma StripStripped(s: string)
    requires IsStripped(s)
    ensures Strip(s) == s
  {
    if s != [] {
      assert SkipSpace(s, 0) == 0;
      assert SkipSpaceBack(s, |s|) == |s|;
      assert s[0..|s|] == s;
    }
  }

  lemma StripIdempotent(s: string)
    ensures Strip(Strip(s)) == Strip(s)
  {
    StripStripped(Strip(s));
  }

  /** Stripping only removes characters: a character not in `s` is not in `Strip(s)`. */
  lemma StripAddsNothing(s: string, c: char)
    requires c !in s
    ensures c !in Strip(s)
  {
    if c in Strip(s) {
      StripKeepsCharsOf(s, c);
    }
  }

  lemma StripKeepsCharsOf(s: string, c: char)
    requires c in Strip(s)
    ensures c in s
  {
    var r := Strip(s);
    var i := StripStart(s);
    var k :| 0 <= k < |r| && r[k] == c;
    assert s[i..i + |r|][k] == s[i + k];
  }


  /** Index of the first `c` in `s`, or `|s|` when `c` does not occur. */
  function IndexOf(s: string, c: char): (i: nat)
    ensures i <= |s|
    ensures i < |s| ==> s[i] == c
    ensures forall k :: 0 <= k < i ==> s[k] != c
  {
    if s == [] then 0 else if s[0] == c then 0 else 1 + IndexOf(s[1..], c)
  }

  /** Python's `sep.join(parts)` for a one-character separator. */
  function Join(parts: seq<string>, sep: char): string
  {
    if parts == [] then ""
    else if |parts| == 1 then parts[0]
    else parts[0] + [sep] + Join(parts[1..], sep)
  }

  /** Python's `s.split(sep)` for a one-character separator: the pieces between the separators, in order. */
  function Split(s: string, sep: char): (parts: seq<string>)
    ensures |parts| >= 1
    ensures forall p :: p in parts ==> sep !in p
    ensures Join(parts, sep) == s
    decreases |s|
  {
    var i := IndexOf(s, sep);
    if i == |s| then
      [s]
    else
      var rest := Split(s[i + 1..], sep);
      assert ([s[..i]] + rest)[1..] == rest;
      assert s == s[..i] + [sep] + s[i + 1..];
      [s[..i]] + rest
  }

  /** Splitting at a separator between `a` and `b` gives the pieces of `a`, then those of `b`. */
  lemma {:induction false} SplitAppend(a: string, b: string, sep: char)
    ensures Split(a + [sep] + b, sep) == Split(a, sep) + Split(b, sep)
    decreases |a|
  {
    var s := a + [sep] + b;
    var i := IndexOf(a, sep);
    assert forall k :: 0 <= k < |a| ==> s[k] == a[k];
    assert s[|a|] == sep;
    if i == |a| {
      assert IndexOf(s, sep) == |a|;
      assert s[..|a|] == a && s[|a| + 1..] == b;
    } else {
      assert IndexOf(s, sep) == i;
      assert s[..i] == a[..i];
      assert s[i + 1..] == a[i + 1..] + [sep] + b;
      SplitAppend(a[i + 1..], b, sep);
    }
  }

  /** Splitting a joined list of separator-free pieces gives the pieces back. */
  lemma {:induction false} SplitJoin(parts: seq<string>, sep: char)
    requires |parts| >= 1
    requires forall p :: p in parts ==> sep !in p
    ensures Split(Join(parts, sep), sep) == parts
    decreases |parts|
  {
    var s := Join(parts, sep);
    var first := parts[0];
    assert first in parts;
    if |parts| == 1 {
      assert IndexOf(s, sep) == |s|;
    } else {
      var rest := Join(parts[1..], sep);
      assert s == first + [sep] + rest;
      assert s[|first|] == sep;
      assert forall k :: 0 <= k < |first| ==> s[k] == first[k];
      assert IndexOf(s, sep) == |first|;
      assert s[|first| + 1..] == rest;
      assert s[..|first|] == first;
      forall p | p in parts[1..] ensures sep !in p {
        assert p in parts;
      }
      SplitJoin(parts[1..], sep);
      assert parts == [first] + parts[1..];
    }
  }

  /** The joined text ends with the last piece, preceded by the separator when there are several pieces. */
  lemma {:induction false} JoinEndsWithLast(parts: seq<string>, sep: char)
    requires |parts| >= 1
    ensures var s := Join(parts, sep); var last := parts[|parts| - 1];
      |last| <= |s| && s[|s| - |last|..] == last && (|parts| > 1 ==> |last| < |s| && s[|s| - |last| - 1] == sep)
    decreases |parts|
  {
    if |parts| > 1 {
      var tail := parts[1..];
      JoinEndsWithLast(tail, sep);
      assert tail[|tail| - 1] == parts[|parts| - 1];
      var s := Join(parts, sep);
      var rest := Join(tail, sep);
      assert s == parts[0] + [sep] + rest;
      var last := parts[|parts| - 1];
      assert s[|s| - |last|..] == rest[|rest| - |last|..];
      if |tail| == 1 {
        assert rest == last;
        assert s[|s| - |last| - 1] == sep;
      } else {
        assert s[|s| - |last| - 1] == rest[|rest| - |last| - 1];
      }
    }
  }

  /** Python's `s.split(sep)[-1]`: the text after the last separator, or all of `s` when there is none. */
  function LastSegment(s: string, sep: char): (r: string)
    ensures sep !in r
    ensures |r| <= |s| && s[|s| - |r|..] == r
    ensures |r| < |s| ==> s[|s| - |r| - 1] == sep
  {
    var parts := Split(s, sep);
    JoinEndsWithLast(parts, sep);
    assert parts[|parts| - 1] in parts;
    parts[|parts| - 1]
  }
}
