/** The few JavaScript runtime behaviours the services lean on: thrown
    errors and the `message || fallback` idiom, and the string methods
    `startsWith`, `indexOf`, `replace` (with a string pattern) and
    `substring`. Strings are sequences of Unicode scalar values. */
module Js {
  import opened Wrappers

  /** An error caught by a `catch` clause; an absent `message` is modelled
      as the empty string, since both are falsy. */
  datatype Thrown = Thrown(message: string)

  /** `error.message || fallback`. */
  function MessageOr(e: Thrown, fallback: string): (m: string)
    ensures e.message != "" ==> m == e.message
    ensures e.message == "" ==> m == fallback
  {
    if e.message != "" then e.message else fallback
  }

  /** `s.startsWith(prefix)`. */
  predicate StartsWith(s: string, prefix: string) {
    |prefix| <= |s| && s[..|prefix|] == prefix
  }

  /** `pattern` occurs in `s` at position `i`. */
  predicate OccursAt(s: string, pattern: string, i: nat) {
    i + |pattern| <= |s| && s[i..i + |pattern|] == pattern
  }

  /** `s.indexOf(pattern, from)`, with "not found" as None. */
  function IndexOfFrom(s: string, pattern: string, from: nat): (r: Option<nat>)
    requires from <= |s|
    ensures r.Some? ==> from <= r.value && OccursAt(s, pattern, r.value)
    ensures r.Some? ==> forall j :: from <= j < r.value ==> !OccursAt(s, pattern, j)
    ensures r.None? ==> forall j :: from <= j <= |s| ==> !OccursAt(s, pattern, j)
    decreases |s| - from
  {
    if OccursAt(s, pattern, from) then Some(from)
    else if from + |pattern| >= |s| then None
    else IndexOfFrom(s, pattern, from + 1)
  }

  /** `s.indexOf(pattern)`: the first position at which `pattern` occurs. */
  function IndexOf(s: string, pattern: string): (r: Option<nat>)
    ensures r.Some? ==> OccursAt(s, pattern, r.value)
    ensures r.Some? ==> forall j :: 0 <= j < r.value ==> !OccursAt(s, pattern, j)
    ensures r.None? ==> forall j :: 0 <= j <= |s| ==> !OccursAt(s, pattern, j)
  {
    IndexOfFrom(s, pattern, 0)
  }

  /** `s.replace(pattern, replacement)` with a string pattern and a
      replacement containing no `$`: only the first occurrence is replaced,
      and `s` is returned as is when there is none. JavaScript expands `$&`,
      `$$`, `` $` `` and `$'` in the replacement; that is not modelled, and
      the services only replace with the empty string. */
  function Replace(s: string, pattern: string, replacement: string): string {
    match IndexOf(s, pattern)
    case None => s
    case Some(i) => s[..i] + replacement + s[i + |pattern|..]
  }

  /** A leading occurrence is the first one, so replacing it by nothing
      strips the prefix. */
  lemma ReplaceLeadingPrefix(prefix: string, rest: string)
    ensures Replace(prefix + rest, prefix, "") == rest
  {
    assert OccursAt(prefix + rest, prefix, 0);
  }

  /** `s.substring(start, end)`: both bounds are clamped to [0, |s|] and
      swapped when the first exceeds the second. */
  function Substring(s: string, start: int, end: int): (r: string)
    ensures var lo := Clamp(if start <= end then start else end, |s|);
            var hi := Clamp(if start <= end then end else start, |s|);
            lo <= hi && r == s[lo..hi]
  {
    var a := Clamp(start, |s|);
    var b := Clamp(end, |s|);
    if a <= b then s[a..b] else s[b..a]
  }

  function Clamp(x: int, len: nat): (r: nat)
    ensures r <= len
    ensures 0 <= x <= len ==> r == x
  {
    if x < 0 then 0 else if x > len then len else x
  }

  /** `s.substring(0, n)` keeps the first min(n, |s|) characters. */
  lemma SubstringPrefix(s: string, n: nat)
    ensures Substring(s, 0, n) == s[..if n < |s| then n else |s|]
  {
  }
}
