/** The handful of Python string operations the model relies on: `str.strip()`,
    `startswith`, `endswith`, `in` and the truncate-with-marker idiom. Characters are
    Unicode scalar values, as Python's `len` and slicing count them. */
module Text {

  /** Python's `str.isspace()` on one character. */
  predicate IsSpace(c: char)
  {
    || ('\U{9}' <= c <= '\U{D}')
    || ('\U{1C}' <= c <= '\U{20}')
    || c == '\U{85}' || c == '\U{A0}' || c == '\U{1680}'
    || ('\U{2000}' <= c <= '\U{200A}')
    || c == '\U{2028}' || c == '\U{2029}' || c == '\U{202F}' || c == '\U{205F}'
    || c == '\U{3000}'
  }

  predicate AllSpace(s: string)
  {
    forall i :: 0 <= i < |s| ==> IsSpace(s[i])
  }

  /** Drops leading whitespace (`str.lstrip()`). */
  function TrimStart(s: string): (r: string)
    ensures |r| <= |s| && r == s[|s| - |r|..]
    ensures r == [] || !IsSpace(r[0])
    ensures AllSpace(s[..|s| - |r|])
  {
    if |s| > 0 && IsSpace(s[0]) then
      var r := TrimStart(s[1..]);
      assert s[..|s| - |r|] == [s[0]] + s[1..][..|s| - 1 - |r|];
      r
    else s
  }

  /** Drops trailing whitespace (`str.rstrip()`). */
  function TrimEnd(s: string): (r: string)
    ensures |r| <= |s| && r == s[..|r|]
    ensures r == [] || !IsSpace(r[|r| - 1])
    ensures AllSpace(s[|r|..])
  {
    if |s| > 0 && IsSpace(s[|s| - 1]) then
      var r := TrimEnd(s[..|s| - 1]);
      assert s[|r|..] == s[..|s| - 1][|r|..] + [s[|s| - 1]];
      r
    else s
  }

  /** Python's `str.strip()` with no argument. */
  function Strip(s: string): (r: string)
    ensures |r| <= |s|
    ensures r == [] || (!IsSpace(r[0]) && !IsSpace(r[|r| - 1]))
  {
    TrimEnd(TrimStart(s))
  }

  /** The stripped text is empty exactly when the input is all whitespace. */
  lemma StripEmptyIffAllSpace(s: string)
    ensures Strip(s) == [] <==> AllSpace(s)
  {
    var t := TrimStart(s);
    var lo := |s| - |t|;
    if Strip(s) == [] {
      assert AllSpace(t[0..]);
      assert s == s[..lo] + t;
    } else {
      assert !IsSpace(s[lo]);
    }
  }

  /** Stripping twice is stripping once. */
  lemma StripIdempotent(s: string)
    ensures Strip(Strip(s)) == Strip(s)
  {
  }

  predicate StartsWith(s: string, prefix: string)
  {
    |prefix| <= |s| && s[..|prefix|] == prefix
  }

  predicate EndsWith(s: string, suffix: string)
  {
    |suffix| <= |s| && s[|s| - |suffix|..] == suffix
  }

  /** Python's `needle in hay` on strings. */
  predicate Contains(hay: string, needle: string)
  {
    exists i :: 0 <= i <= |hay| && StartsWith(hay[i..], needle)
  }

  function LowerChar(c: char): char
  {
    if 'A' <= c <= 'Z' then ((c as int) + 32) as char else c
  }

  /** Lower-casing as far as the file extensions the corpus recognises are concerned:
      no character other than an ASCII letter lower-cases into one of them. */
  function Lower(s: string): (r: string)
    ensures |r| == |s|
  {
    seq(|s|, i requires 0 <= i < |s| => LowerChar(s[i]))
  }

  /** `s.lower().endswith(suffix)` */
  predicate EndsWithIgnoreCase(s: string, suffix: string)
  {
    EndsWith(Lower(s), suffix)
  }

  /** Keeps at most `limit` characters and appends `marker` when something was cut:
      the `s[:n] + "..." if len(s) > n else s` idiom. */
  function Truncate(s: string, limit: nat, marker: string): (r: string)
    ensures |s| <= limit ==> r == s
    ensures |s| > limit ==> |r| == limit + |marker| && StartsWith(r, s[..limit]) && EndsWith(r, marker)
  {
    if |s| > limit then s[..limit] + marker else s
  }

  /** A truncated text is never longer than the limit plus the marker, and it always
      begins with as much of the original as fits. */
  lemma TruncateBounds(s: string, limit: nat, marker: string)
    ensures |Truncate(s, limit, marker)| <= limit + |marker|
    ensures StartsWith(Truncate(s, limit, marker), s[..MinNat(|s|, limit)])
  {
  }

  function MinNat(a: nat, b: nat): nat
  {
    if a <= b then a else b
  }
}
