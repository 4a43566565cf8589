/**
 * The string operations the invoice search uses: `toLowerCase` (restricted
 * to ASCII letters) and `includes`.
 */
module Text {

  /** ASCII lower-casing of one character; every other character is kept. */
  function LowerChar(c: char): char
  {
    if 'A' <= c <= 'Z' then (c as int - 'A' as int + 'a' as int) as char else c
  }

  /** `s.toLowerCase()` on the ASCII letters. */
  function Lower(s: string): (r: string)
    ensures |r| == |s|
    ensures forall i :: 0 <= i < |s| ==> r[i] == LowerChar(s[i])
  {
    if s == [] then [] else [LowerChar(s[0])] + Lower(s[1..])
  }

  /** `needle` occurs in `hay` starting at index `i`. */
  ghost predicate OccursAt(needle: string, hay: string, i: int)
  {
    0 <= i && i + |needle| <= |hay| && hay[i..i + |needle|] == needle
  }

  /** `needle` occurs somewhere in `hay` (the empty string occurs everywhere). */
  ghost predicate IsSubstring(needle: string, hay: string)
  {
    exists i :: OccursAt(needle, hay, i)
  }

  /** `hay.includes(needle)`: a left-to-right scan for an occurrence. */
  function Includes(hay: string, needle: string): (r: bool)
    ensures r <==> IsSubstring(needle, hay)
    decreases |hay|
  {
    if |needle| > |hay| then
      assert forall i :: !OccursAt(needle, hay, i);
      false
    else if hay[..|needle|] == needle then
      assert OccursAt(needle, hay, 0);
      true
    else
      var r := Includes(hay[1..], needle);
      ShiftOccurrence(needle, hay);
      r
  }

  /** Past index 0, occurrences in `hay` are the occurrences in `hay[1..]`, shifted by one. */
  lemma ShiftOccurrence(needle: string, hay: string)
    requires hay != []
    requires !OccursAt(needle, hay, 0)
    ensures IsSubstring(needle, hay) <==> IsSubstring(needle, hay[1..])
  {
    if IsSubstring(needle, hay) {
      var i :| OccursAt(needle, hay, i);
      assert hay[1..][i - 1..i - 1 + |needle|] == hay[i..i + |needle|];
      assert OccursAt(needle, hay[1..], i - 1);
    }
    if IsSubstring(needle, hay[1..]) {
      var i :| OccursAt(needle, hay[1..], i);
      assert hay[1..][i..i + |needle|] == hay[i + 1..i + 1 + |needle|];
      assert OccursAt(needle, hay, i + 1);
    }
  }

  /** The empty string contains only the empty string. */
  lemma EmptyIncludes(needle: string)
    ensures Includes("", needle) <==> needle == ""
  {
    if needle == "" {
      assert OccursAt(needle, "", 0);
    }
  }
}
