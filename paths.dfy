/**
 * POSIX paths as strings, and the two `pathlib.PurePath` properties the core
 * uses: `name` (the final component) and `suffix` (its last extension).
 * Paths are taken already normalised: no trailing '/', no empty components.
 */
module Paths {

  import opened Wrappers

  type Path = string

  /** Index of the first character of the final component of `p`. */
  function NameStart(p: Path): (i: nat)
    ensures i <= |p|
    ensures i > 0 ==> p[i - 1] == '/'
    ensures forall j :: i <= j < |p| ==> p[j] != '/'
  {
    if |p| == 0 then 0
    else if p[|p| - 1] == '/' then |p|
    else NameStart(p[..|p| - 1])
  }

  /** `PurePath.name`: the text after the last '/'. */
  function Name(p: Path): (n: string)
    ensures '/' !in n
    ensures |n| <= |p| && n == p[|p| - |n|..]
    ensures |n| < |p| ==> p[|p| - |n| - 1] == '/'
  {
    p[NameStart(p)..]
  }

  /** Directory components never change the final component. */
  lemma NameOfJoin(dir: Path, n: string)
    requires '/' !in n
    ensures Name(dir + "/" + n) == n
  {
    var p := dir + "/" + n;
    assert forall j :: |p| - |n| <= j < |p| ==> p[j] == n[j - (|p| - |n|)];
    assert p[|p| - |n| - 1] == '/';
  }

  /** Index of the last occurrence of `c` in `s`, like `str.rfind`. */
  function LastIndexOf(s: string, c: char): (r: Option<nat>)
    ensures r.Some? ==> r.value < |s| && s[r.value] == c
    ensures r.Some? ==> forall j :: r.value < j < |s| ==> s[j] != c
    ensures r.None? ==> c !in s
  {
    if |s| == 0 then None
    else if s[|s| - 1] == c then Some(|s| - 1)
    else LastIndexOf(s[..|s| - 1], c)
  }

  /**
   * `PurePath.suffix`: the final component from its last '.', provided that
   * dot is neither the first nor the last character of the component;
   * otherwise the empty string.
   */
  function Suffix(p: Path): (x: string)
    ensures x != "" ==> |x| >= 2 && x[0] == '.' && '.' !in x[1..]
    ensures x != "" ==> |x| < |Name(p)| && x == Name(p)[|Name(p)| - |x|..]
    ensures x == "" ==> forall i :: 0 < i < |Name(p)| - 1 && Name(p)[i] == '.' ==>
                          '.' in Name(p)[i + 1..]
  {
    var n := Name(p);
    match LastIndexOf(n, '.')
    case Some(i) => if 0 < i < |n| - 1 then n[i..] else ""
    case None => ""
  }

  /** Whether `sub` occurs in `s` at position `i`. */
  predicate OccursAt(s: string, sub: string, i: nat)
  {
    i + |sub| <= |s| && s[i..i + |sub|] == sub
  }

  /** Python's `sub in s` on strings. */
  function Contains(s: string, sub: string): (r: bool)
    ensures r <==> exists i :: 0 <= i <= |s| - |sub| && OccursAt(s, sub, i)
    decreases |s|
  {
    if OccursAt(s, sub, 0) then true
    else if |s| <= |sub| then false
    else
      var r := Contains(s[1..], sub);
      ShiftOccurrence(s, sub);
      r
  }

  /** An occurrence in `s[1..]` at `i` is an occurrence in `s` at `i + 1`. */
  lemma ShiftOccurrence(s: string, sub: string)
    requires |s| > 0
    ensures forall i :: 1 <= i <= |s| - |sub| && OccursAt(s, sub, i) ==> OccursAt(s[1..], sub, i - 1)
    ensures forall j :: 0 <= j <= |s| - 1 - |sub| && OccursAt(s[1..], sub, j) ==> OccursAt(s, sub, j + 1)
  {
    forall i | 1 <= i <= |s| - |sub|
      ensures OccursAt(s, sub, i) <==> OccursAt(s[1..], sub, i - 1)
    {
      assert s[1..][i - 1..i - 1 + |sub|] == s[i..i + |sub|];
    }
  }
}
