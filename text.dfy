/** The string search the handler uses to classify a message (`String.prototype.indexOf`). */
module Text {

  /** `t` occurs in `s` starting at index `i`. */
  predicate OccursAt(s: string, t: string, i: int) {
    0 <= i && i + |t| <= |s| && s[i..i + |t|] == t
  }

  /** `s.indexOf(t, from)`: the least index at or after `from` where `t` occurs, or -1. */
  function IndexOfFrom(s: string, t: string, from: nat): (r: int)
    ensures r == -1 || (from <= r && OccursAt(s, t, r))
    ensures r == -1 <==> forall i :: from <= i ==> !OccursAt(s, t, i)
    ensures forall i :: from <= i < r ==> !OccursAt(s, t, i)
    decreases |s| - from
  {
    if |s| < from + |t| then -1
    else if s[from..from + |t|] == t then from
    else IndexOfFrom(s, t, from + 1)
  }

  /** `s.indexOf(t)`. */
  function IndexOf(s: string, t: string): (r: int)
    ensures r == -1 <==> forall i :: !OccursAt(s, t, i)
    ensures r != -1 ==> OccursAt(s, t, r) && forall i :: i < r ==> !OccursAt(s, t, i)
  {
    IndexOfFrom(s, t, 0)
  }
}
