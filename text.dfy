/** The string comparisons the store performs for case-insensitive regular
    expressions, restricted to patterns without metacharacters: ASCII case
    folding, whole-string equality and substring search. */
module Text {

  function LowerChar(c: char): (r: char)
    ensures 'A' <= c <= 'Z' ==> r as int == c as int + 32
    ensures !('A' <= c <= 'Z') ==> r == c
  {
    if 'A' <= c <= 'Z' then (c as int + 32) as char else c
  }

  /** The string with every ASCII upper-case letter folded to lower case. */
  function Lower(s: string): (r: string)
    ensures |r| == |s|
    ensures forall i :: 0 <= i < |s| ==> r[i] == LowerChar(s[i])
  {
    if s == [] then [] else [LowerChar(s[0])] + Lower(s[1..])
  }

  /** Lower-casing a slice is slicing the lower-cased string. */
  lemma LowerSlice(s: string, lo: int, hi: int)
    requires 0 <= lo <= hi <= |s|
    ensures Lower(s[lo..hi]) == Lower(s)[lo..hi]
  {
  }

  /** Equality up to ASCII case, what `/^p$/i` decides for a literal `p`. */
  predicate EqualsIgnoreCase(a: string, b: string)
  {
    Lower(a) == Lower(b)
  }

  predicate OccursAt(hay: string, needle: string, i: int)
  {
    0 <= i && i + |needle| <= |hay| && hay[i..i + |needle|] == needle
  }

  /** `needle` is a contiguous part of `hay`. */
  predicate Contains(hay: string, needle: string)
  {
    exists i | 0 <= i <= |hay| - |needle| :: OccursAt(hay, needle, i)
  }

  /** What the store's `{ $regex: needle, $options: "i" }` decides for a
      literal `needle`: both sides are folded, then searched. */
  predicate ContainsIgnoreCase(hay: string, needle: string)
  {
    Contains(Lower(hay), Lower(needle))
  }

  /** The window of `hay` at `i`, as long as `needle`, equals it up to case. */
  predicate WindowMatchesIgnoringCase(hay: string, needle: string, i: int)
  {
    0 <= i && i + |needle| <= |hay| && EqualsIgnoreCase(hay[i..i + |needle|], needle)
  }

  /** The same question asked window by window: some window of `hay` as long
      as `needle` equals it up to case. */
  predicate HasWindowIgnoringCase(hay: string, needle: string)
  {
    exists i | 0 <= i <= |hay| - |needle| :: WindowMatchesIgnoringCase(hay, needle, i)
  }

  /** Folding then searching finds exactly the windows that match up to case. */
  lemma ContainsIgnoreCaseIsWindowMatch(hay: string, needle: string)
    ensures ContainsIgnoreCase(hay, needle) <==> HasWindowIgnoringCase(hay, needle)
  {
    var h, n := Lower(hay), Lower(needle);
    if ContainsIgnoreCase(hay, needle) {
      var i :| 0 <= i <= |h| - |n| && OccursAt(h, n, i);
      LowerSlice(hay, i, i + |needle|);
      assert WindowMatchesIgnoringCase(hay, needle, i);
    }
    if HasWindowIgnoringCase(hay, needle) {
      var i :| 0 <= i <= |hay| - |needle| && WindowMatchesIgnoringCase(hay, needle, i);
      LowerSlice(hay, i, i + |needle|);
      assert OccursAt(h, n, i);
    }
  }

  /** A case-insensitive search does not depend on the case of its pattern. */
  lemma ContainsIgnoreCaseRespectsCase(hay: string, n1: string, n2: string)
    requires EqualsIgnoreCase(n1, n2)
    ensures ContainsIgnoreCase(hay, n1) == ContainsIgnoreCase(hay, n2)
  {
  }
}
