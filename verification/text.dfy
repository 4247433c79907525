/**
  String helpers used by the catalog search: an ASCII `toLowerCase` and the
  `includes` substring test of JavaScript strings. Strings are `seq<char>`.
 */
module Text {

  /** `toLowerCase` on one character, restricted to ASCII letters. */
  function LowerChar(c: char): (r: char)
    ensures !('A' <= r <= 'Z')
    ensures 'A' <= c <= 'Z' ==> r as int == c as int + 32
    ensures !('A' <= c <= 'Z') ==> r == c
  {
    if 'A' <= c <= 'Z' then (c as int + 32) as char else c
  }

  /** `toLowerCase` on a string: every character lowered, nothing else changes. */
  function Lower(s: string): (r: string)
    ensures |r| == |s|
    ensures forall i :: 0 <= i < |s| ==> r[i] == LowerChar(s[i])
  {
    if |s| == 0 then [] else [LowerChar(s[0])] + Lower(s[1..])
  }

  /** `s.startsWith(prefix)`. */
  predicate StartsWith(s: string, prefix: string) {
    |prefix| <= |s| && s[..|prefix|] == prefix
  }

  /** `s.includes(t)`: try every starting position from the left. */
  predicate Contains(s: string, t: string)
    decreases |s|
  {
    StartsWith(s, t) || (|s| > 0 && Contains(s[1..], t))
  }

  /** Reference meaning of an occurrence: `t` is the slice of `s` starting at `i`. */
  ghost predicate OccursAt(s: string, t: string, i: int) {
    0 <= i && i + |t| <= |s| && s[i..i + |t|] == t
  }

  /** An occurrence found by `includes` has a position. */
  lemma {:induction false} OccurrenceOf(s: string, t: string) returns (i: int)
    requires Contains(s, t)
    ensures OccursAt(s, t, i)
    decreases |s|
  {
    if StartsWith(s, t) {
      i := 0;
    } else {
      var k := OccurrenceOf(s[1..], t);
      assert s[1..][k..k + |t|] == s[k + 1..k + 1 + |t|];
      i := k + 1;
    }
  }

  /** Conversely, `includes` finds every occurrence. */
  lemma {:induction false} OccurrenceFound(s: string, t: string, i: int)
    requires OccursAt(s, t, i)
    ensures Contains(s, t)
    decreases i
  {
    if i > 0 {
      assert s[1..][i - 1..i - 1 + |t|] == s[i..i + |t|];
      OccurrenceFound(s[1..], t, i - 1);
    }
  }

  /** `includes` holds exactly when there is a position where `t` occurs. */
  lemma ContainsIffOccurs(s: string, t: string)
    ensures Contains(s, t) <==> exists i :: OccursAt(s, t, i)
  {
    if Contains(s, t) {
      var i := OccurrenceOf(s, t);
    }
    if i :| OccursAt(s, t, i) {
      OccurrenceFound(s, t, i);
    }
  }

  /** A term is not found in a text that lacks its first character. */
  lemma AbsentFirstChar(s: string, t: string)
    requires |t| > 0 && t[0] !in s
    ensures !Contains(s, t)
  {
    if Contains(s, t) {
      var i := OccurrenceOf(s, t);
    }
  }

  /** Every string includes the empty string, so an empty search term matches everything. */
  lemma ContainsEmpty(s: string)
    ensures Contains(s, "")
  {
    assert s[..0] == "";
  }

  /** Lowering commutes with slicing. */
  lemma LowerSlice(s: string, i: int, j: int)
    requires 0 <= i <= j <= |s|
    ensures Lower(s)[i..j] == Lower(s[i..j])
  {
  }

  /** Case-insensitive search finds every case-sensitive occurrence. */
  lemma {:induction false} ContainsLowered(s: string, t: string)
    requires Contains(s, t)
    ensures Contains(Lower(s), Lower(t))
  {
    var i := OccurrenceOf(s, t);
    LowerSlice(s, i, i + |t|);
    OccurrenceFound(Lower(s), Lower(t), i);
  }
}
