/** The string operations the search screen relies on, restricted to ASCII:
    `lowercased()`, `contains(_:)`, `range(of:options: .caseInsensitive)` and
    `capitalized`. Letters outside A-Z and a-z have no case here. */
module Text {

  predicate IsUpper(c: char) { 'A' <= c <= 'Z' }

  predicate IsLower(c: char) { 'a' <= c <= 'z' }

  function LowerChar(c: char): (d: char)
    ensures !IsUpper(d)
    ensures IsUpper(c) ==> IsLower(d) && d as int - c as int == 'a' as int - 'A' as int
    ensures !IsUpper(c) ==> d == c
  {
    if IsUpper(c) then (c as int - 'A' as int + 'a' as int) as char else c
  }

  function UpperChar(c: char): (d: char)
    ensures !IsLower(d)
    ensures IsLower(c) ==> IsUpper(d) && LowerChar(d) == c
    ensures !IsLower(c) ==> d == c
  {
    if IsLower(c) then (c as int - 'a' as int + 'A' as int) as char else c
  }

  /** `lowercased()`: every character mapped through LowerChar. */
  function Lower(s: string): (r: string)
    ensures |r| == |s|
    ensures forall i :: 0 <= i < |r| ==> !IsUpper(r[i])
    ensures forall i :: 0 <= i < |s| ==>
              && (IsUpper(s[i]) ==> IsLower(r[i]) && r[i] as int - s[i] as int == 'a' as int - 'A' as int)
              && (!IsUpper(s[i]) ==> r[i] == s[i])
  {
    seq(|s|, i requires 0 <= i < |s| => LowerChar(s[i]))
  }

  /** `sub` occurs in `s` starting at position `i`. */
  predicate OccursAt(s: string, sub: string, i: int)
  {
    0 <= i && i + |sub| <= |s| && s[i..i + |sub|] == sub
  }

  /** `s.contains(sub)`: `sub` occurs somewhere in `s`. */
  function Contains(s: string, sub: string): (b: bool)
    ensures b <==> exists i :: OccursAt(s, sub, i)
    decreases |s|
  {
    if |s| < |sub| then false
    else if s[..|sub|] == sub then
      assert OccursAt(s, sub, 0);
      true
    else
      var b := Contains(s[1..], sub);
      assert forall i :: OccursAt(s[1..], sub, i) ==> OccursAt(s, sub, i + 1) by {
        forall i | OccursAt(s[1..], sub, i) ensures OccursAt(s, sub, i + 1) {
          assert s[1..][i..i + |sub|] == s[i + 1..i + 1 + |sub|];
        }
      }
      assert forall i :: OccursAt(s, sub, i) ==> OccursAt(s[1..], sub, i - 1) by {
        forall i | OccursAt(s, sub, i) ensures OccursAt(s[1..], sub, i - 1) {
          assert i != 0;
          assert s[1..][i - 1..i - 1 + |sub|] == s[i..i + |sub|];
        }
      }
      b
  }

  /** `s.range(of: sub, options: .caseInsensitive) != nil`. Foundation never reports
      the empty string as found, so an empty `sub` gives false. */
  function ContainsIgnoringCase(s: string, sub: string): (b: bool)
    ensures b <==> sub != [] && exists i :: OccursAt(Lower(s), Lower(sub), i)
  {
    sub != [] && Contains(Lower(s), Lower(sub))
  }

  predicate IsWordSeparator(c: char) { c == ' ' || c == '\t' || c == '\n' }

  /** Position `i` of `s` begins a word. */
  predicate StartsWord(s: string, i: int)
    requires 0 <= i < |s|
  {
    i == 0 || IsWordSeparator(s[i - 1])
  }

  /** `capitalized`: the first character of each word upper-cased, every other
      character lower-cased; words are separated by blanks, tabs and newlines. */
  function Capitalized(s: string): (r: string)
    ensures |r| == |s|
  {
    seq(|s|, i requires 0 <= i < |s| => if StartsWord(s, i) then UpperChar(s[i]) else LowerChar(s[i]))
  }

  lemma LowerIdempotent(s: string)
    ensures Lower(Lower(s)) == Lower(s)
  {
  }

  /** A case-sensitive occurrence is also a case-insensitive one. */
  lemma ContainsIsCaseInsensitive(s: string, sub: string)
    requires sub != [] && Contains(s, sub)
    ensures ContainsIgnoringCase(s, sub)
  {
    var i :| OccursAt(s, sub, i);
    assert Lower(s)[i..i + |sub|] == Lower(sub);
    assert OccursAt(Lower(s), Lower(sub), i);
  }

  /** The case of the search text does not matter. */
  lemma ContainsIgnoringCaseOfLower(s: string, sub: string)
    ensures ContainsIgnoringCase(s, Lower(sub)) == ContainsIgnoringCase(s, sub)
  {
    LowerIdempotent(sub);
  }

  /** Every non-empty string is found in itself, whatever the case. */
  lemma ContainsIgnoringCaseSelf(s: string)
    requires s != []
    ensures ContainsIgnoringCase(s, s)
  {
  }

  /** Capitalizing changes only case, and capitalizing twice changes nothing more. */
  lemma CapitalizedIdempotent(s: string)
    ensures Lower(Capitalized(s)) == Lower(s)
    ensures Capitalized(Capitalized(s)) == Capitalized(s)
  {
  }

  /** A word of lower-case letters is capitalized by upper-casing its first letter. */
  lemma CapitalizedLowerWord(s: string)
    requires s != [] && forall i :: 0 <= i < |s| ==> IsLower(s[i])
    ensures Capitalized(s) == [UpperChar(s[0])] + s[1..]
  {
  }
}
