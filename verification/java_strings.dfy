/**
  The few `java.lang.String` operations the principal parser and the
  registry scan rely on, over `string` (a sequence of UTF-16 units is
  modelled as a sequence of `char`).
 */
module JavaStrings {
  import opened Options

  /** `s.startsWith(p)` */
  predicate StartsWith(s: string, p: string) {
    |p| <= |s| && s[..|p|] == p
  }

  /** `p` occurs in `s` beginning at index `i`. */
  predicate OccursAt(s: string, p: string, i: nat) {
    i + |p| <= |s| && s[i..i + |p|] == p
  }

  /** `i` is the leftmost index at which `p` occurs in `s`. */
  predicate FirstOccurrence(s: string, p: string, i: nat) {
    OccursAt(s, p, i) && forall j: nat :: j < i ==> !OccursAt(s, p, j)
  }

  /** Leftmost occurrence of `p` in `s` at or after `from`, as `s.indexOf(p, from)`. */
  function IndexFrom(s: string, p: string, from: nat): (r: Option<nat>)
    ensures r.Some? ==> from <= r.value && OccursAt(s, p, r.value)
    ensures r.Some? ==> forall j: nat :: from <= j < r.value ==> !OccursAt(s, p, j)
    ensures r.None? ==> forall j: nat :: from <= j ==> !OccursAt(s, p, j)
    decreases |s| - from
  {
    if |s| < from + |p| then None
    else if OccursAt(s, p, from) then Some(from)
    else IndexFrom(s, p, from + 1)
  }

  /** `s.indexOf(p)` */
  function IndexOf(s: string, p: string): (r: Option<nat>)
    ensures r.Some? ==> FirstOccurrence(s, p, r.value)
    ensures r.None? <==> forall j: nat :: !OccursAt(s, p, j)
  {
    IndexFrom(s, p, 0)
  }

  /**
    `s.split(sep, 2)` for a separator without regular-expression
    metacharacters: the text before the first occurrence of `sep` and
    everything after it, or `[s]` alone when `sep` does not occur. A match
    at index 0 keeps its empty leading part, and a trailing empty part is
    kept because the limit is positive.
   */
  function SplitOnce(s: string, sep: string): (parts: seq<string>)
    ensures |parts| == 1 || |parts| == 2
    ensures |parts| == 1 <==> forall j: nat :: !OccursAt(s, sep, j)
    ensures |parts| == 1 ==> parts[0] == s
    ensures |parts| == 2 ==> parts[0] + sep + parts[1] == s
    ensures |parts| == 2 ==> FirstOccurrence(s, sep, |parts[0]|)
  {
    match IndexOf(s, sep)
    case None => [s]
    case Some(i) =>
      assert s[..i] + sep + s[i + |sep|..] == s by {
        assert s[i..i + |sep|] == sep;
        assert s == s[..i] + s[i..i + |sep|] + s[i + |sep|..];
      }
      [s[..i], s[i + |sep|..]]
  }

  /** With the first occurrence at `i`, the split is the text before `i` and the text after the separator. */
  lemma SplitOnceAt(s: string, sep: string, i: nat)
    requires FirstOccurrence(s, sep, i)
    ensures SplitOnce(s, sep) == [s[..i], s[i + |sep|..]]
  {
  }

  /** A string that starts with `p` has its first occurrence of `p` at index 0. */
  lemma PrefixIsFirstOccurrence(s: string, p: string)
    requires StartsWith(s, p)
    ensures FirstOccurrence(s, p, 0)
  {
  }

  /**
    The ASCII case fold standing in for `equalsIgnoreCase`'s per-character
    comparison (which compares upper- and lower-case forms).
   */
  function FoldCase(c: char): char {
    if 'A' <= c <= 'Z' then (c as int + 32) as char else c
  }

  /** `a.equalsIgnoreCase(b)` restricted to the ASCII case fold. */
  predicate EqualsIgnoreCase(a: string, b: string) {
    |a| == |b| && forall i :: 0 <= i < |a| ==> FoldCase(a[i]) == FoldCase(b[i])
  }

}
