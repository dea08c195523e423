/**
 * The two JavaScript string operations the choice filter relies on:
 * String.prototype.toLowerCase (ASCII letters only) and
 * String.prototype.indexOf with no start position.
 */
module JsString {

  /** toLowerCase on one character: ASCII upper-case letters map to lower case. */
  function LowerChar(c: char): (r: char)
    ensures !('A' <= r <= 'Z')
    ensures !('A' <= c <= 'Z') ==> r == c
    ensures 'A' <= c <= 'Z' ==> 'a' <= r <= 'z' && r as int - c as int == 32
  {
    if 'A' <= c <= 'Z' then (c as int + 32) as char else c
  }

  /** toLowerCase: the same length, character by character, with no upper-case letter left. */
  function ToLowerCase(s: string): (r: string)
    ensures |r| == |s|
    ensures forall i :: 0 <= i < |s| ==> r[i] == LowerChar(s[i])
    ensures forall i :: 0 <= i < |r| ==> !('A' <= r[i] <= 'Z')
  {
    seq(|s|, i requires 0 <= i < |s| => LowerChar(s[i]))
  }

  /** Lowering twice is lowering once. */
  lemma ToLowerCaseIdempotent(s: string)
    ensures ToLowerCase(ToLowerCase(s)) == ToLowerCase(s)
  {
  }

  /** `sub` occurs in `s` starting at position `i`. */
  predicate OccursAt(sub: string, s: string, i: int)
  {
    0 <= i && i + |sub| <= |s| && s[i..i + |sub|] == sub
  }

  /** `sub` occurs somewhere in `s`. */
  ghost predicate Contains(s: string, sub: string)
  {
    exists i :: OccursAt(sub, s, i)
  }

  /**
   * The search behind indexOf, from position `from` on: the first position at
   * or after `from` where `sub` occurs, or -1 when there is none.
   */
  function IndexFrom(s: string, sub: string, from: nat): (r: int)
    ensures r == -1 || (from <= r && OccursAt(sub, s, r))
    ensures forall i :: from <= i && (r == -1 || i < r) ==> !OccursAt(sub, s, i)
    decreases |s| - from
  {
    if from + |sub| > |s| then -1
    else if s[from..from + |sub|] == sub then from
    else IndexFrom(s, sub, from + 1)
  }

  /** indexOf: the first position where `sub` occurs in `s`, or -1 when it does not occur. */
  function IndexOf(s: string, sub: string): (r: int)
    ensures r >= -1
    ensures r == -1 <==> !Contains(s, sub)
    ensures r >= 0 ==> OccursAt(sub, s, r) && forall i :: 0 <= i < r ==> !OccursAt(sub, s, i)
  {
    IndexFrom(s, sub, 0)
  }

  /** The empty string occurs at the start of every string, so indexOf("") is 0. */
  lemma IndexOfEmpty(s: string)
    ensures IndexOf(s, "") == 0
  {
    assert OccursAt("", s, 0);
  }

  /** An occurrence of an occurrence is an occurrence: "is a substring of" is transitive. */
  lemma OccursAtTransitive(a: string, b: string, c: string, j: int, i: int)
    requires OccursAt(a, b, j) && OccursAt(b, c, i)
    ensures OccursAt(a, c, i + j)
  {
    var piece := c[i + j..i + j + |a|];
    forall k | 0 <= k < |a| ensures piece[k] == a[k] {
      assert piece[k] == c[i..i + |b|][j + k] == b[j + k];
      assert b[j + k] == b[j..j + |a|][k];
    }
    assert piece == a;
  }

  lemma ContainsTransitive(a: string, b: string, c: string)
    requires Contains(b, a) && Contains(c, b)
    ensures Contains(c, a)
  {
    var j :| OccursAt(a, b, j);
    var i :| OccursAt(b, c, i);
    OccursAtTransitive(a, b, c, j, i);
  }
}
