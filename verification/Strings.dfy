/** Text operations shared by the models: substring search and the Option type. */
module Strings {

  datatype Option<+T> = None | Some(value: T)

  /** True when `t` occurs in `s` starting at position `i`. */
  predicate OccursAt(s: string, t: string, i: int) {
    0 <= i && i + |t| <= |s| && s[i..i + |t|] == t
  }

  /** JavaScript's `s.includes(t)` and Python's `t in s`. */
  predicate Includes(s: string, t: string) {
    exists i :: 0 <= i <= |s| && OccursAt(s, t, i)
  }

  /** JavaScript's `s.indexOf(t)`. */
  function IndexOf(s: string, t: string): (r: int)
    ensures r < 0 ==> r == -1 && !Includes(s, t)
    ensures r >= 0 ==> OccursAt(s, t, r) && forall j :: 0 <= j < r ==> !OccursAt(s, t, j)
  {
    SearchFrom(s, t, 0)
  }

  function SearchFrom(s: string, t: string, from: nat): (r: int)
    requires from <= |s|
    requires forall j :: 0 <= j < from ==> !OccursAt(s, t, j)
    ensures r < 0 ==> r == -1 && !Includes(s, t)
    ensures r >= 0 ==> OccursAt(s, t, r) && forall j :: 0 <= j < r ==> !OccursAt(s, t, j)
    decreases |s| - from
  {
    if OccursAt(s, t, from) then from
    else if from == |s| then -1
    else SearchFrom(s, t, from + 1)
  }
}
