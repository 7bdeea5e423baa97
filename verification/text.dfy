/** Character and string helpers with the meaning JavaScript gives them. */
module Text {

  /** The regular-expression class `\w`: `[A-Za-z0-9_]`. */
  predicate IsWordChar(c: char) {
    ('a' <= c <= 'z') || ('A' <= c <= 'Z') || ('0' <= c <= '9') || c == '_'
  }

  /** `p` occurs in `s` starting at index `i`. */
  predicate OccursAt(s: string, i: int, p: string) {
    0 <= i && i + |p| <= |s| && s[i..i + |p|] == p
  }

  /** `String.prototype.indexOf(p, from)`: the first index at or after `from`
      where `p` occurs, or -1 when there is none. */
  function IndexOfFrom(s: string, p: string, from: nat): (r: int)
    requires from <= |s|
    decreases |s| - from
    ensures r == -1 <==> forall i :: from <= i <= |s| ==> !OccursAt(s, i, p)
    ensures r != -1 ==> from <= r <= |s| && OccursAt(s, r, p)
    ensures r != -1 ==> forall i :: from <= i < r ==> !OccursAt(s, i, p)
  {
    if OccursAt(s, from, p) then from
    else if from == |s| then -1
    else IndexOfFrom(s, p, from + 1)
  }

  /** `s.indexOf(p)`. */
  function IndexOf(s: string, p: string): int {
    IndexOfFrom(s, p, 0)
  }

  /** `s.indexOf(p) !== -1` holds exactly when `p` occurs somewhere in `s`. */
  lemma IndexOfFindsOccurrence(s: string, p: string)
    ensures IndexOf(s, p) != -1 <==> exists i :: 0 <= i <= |s| && OccursAt(s, i, p)
  {
    if IndexOf(s, p) != -1 {
      assert OccursAt(s, IndexOf(s, p), p);
    }
  }

  /** `toLowerCase()` on ASCII letters; every other character is kept. */
  function LowerChar(c: char): char {
    if 'A' <= c <= 'Z' then (c as int - 'A' as int + 'a' as int) as char else c
  }

  function ToLowerAscii(s: string): (r: string)
    ensures |r| == |s|
    ensures forall i :: 0 <= i < |s| ==> r[i] == LowerChar(s[i])
  {
    if s == [] then [] else [LowerChar(s[0])] + ToLowerAscii(s[1..])
  }

}
