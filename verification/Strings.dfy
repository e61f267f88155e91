/** Searching in strings: the two searches of the C++ standard library that the
    queue relies on, `find` and `find_last_of`; and joining strings. */
module Strings {

  /** d stands in s at position i. */
  predicate Occurs(s: string, d: string, i: int) {
    0 <= i && i + |d| <= |s| && s[i..i + |d|] == d
  }

  ghost predicate Contains(s: string, d: string) {
    exists i :: Occurs(s, d, i)
  }

  predicate EndsWith(s: string, d: string) {
    Occurs(s, d, |s| - |d|)
  }

  /** The first position at or after i where d stands in s, or -1 (npos). */
  function FindFrom(s: string, d: string, i: nat): (p: int)
    requires i <= |s|
    ensures p == -1 || (i <= p && Occurs(s, d, p))
    ensures forall k :: i <= k && Occurs(s, d, k) ==> p != -1 && p <= k
    decreases |s| - i
  {
    if Occurs(s, d, i) then i
    else if i == |s| then -1
    else FindFrom(s, d, i + 1)
  }

  /** `std::string::find`. */
  function Find(s: string, d: string): (p: int)
    ensures p == -1 || Occurs(s, d, p)
    ensures forall k :: Occurs(s, d, k) ==> p != -1 && p <= k
  {
    FindFrom(s, d, 0)
  }

  /** The strings one after the other, with d between any two. */
  function Join(xs: seq<string>, d: string): string {
    if |xs| == 0 then ""
    else if |xs| == 1 then xs[0]
    else xs[0] + d + Join(xs[1..], d)
  }

  /** `std::string::find_last_of` for a single character. */
  function FindLast(s: string, c: char): (p: int)
    ensures -1 <= p < |s|
    ensures p == -1 || s[p] == c
    ensures forall k :: p < k < |s| ==> s[k] != c
  {
    if |s| == 0 then -1
    else if s[|s| - 1] == c then |s| - 1
    else FindLast(s[..|s| - 1], c)
  }
}
