/** Case-insensitive substring matching, as used by the title search. */
module Text {

  /** ASCII lower-casing of one character; every other character is kept. */
  function LowerChar(c: char): char {
    if 'A' <= c <= 'Z' then (c as int + 32) as char else c
  }

  /** The lower-case spelling of a whole string. */
  function Fold(s: string): string {
    seq(|s|, i requires 0 <= i < |s| => LowerChar(s[i]))
  }

  /** Reference definition: `pat` occurs in `text` starting at offset `i`. */
  predicate OccursAt(text: string, pat: string, i: int) {
    0 <= i && i + |pat| <= |text| && text[i..i + |pat|] == pat
  }

  /** Executable substring test: tries every offset from the left. */
  function Contains(text: string, pat: string): bool
    decreases |text|
  {
    if |pat| > |text| then false
    else if text[..|pat|] == pat then true
    else Contains(text[1..], pat)
  }

  /** `Contains` agrees with the reference definition in both directions. */
  lemma {:induction false} ContainsIsOccurrence(text: string, pat: string)
    ensures Contains(text, pat) <==> exists i :: OccursAt(text, pat, i)
    decreases |text|
  {
    if |pat| > |text| {
      // no offset leaves room for the pattern
    } else if text[..|pat|] == pat {
      assert OccursAt(text, pat, 0);
    } else {
      ContainsIsOccurrence(text[1..], pat);
      if Contains(text[1..], pat) {
        var i :| OccursAt(text[1..], pat, i);
        assert text[1..][i..i + |pat|] == text[i + 1..i + 1 + |pat|];
        assert OccursAt(text, pat, i + 1);
      }
      if i :| OccursAt(text, pat, i) {
        assert i != 0;
        assert text[1..][i - 1..i - 1 + |pat|] == text[i..i + |pat|];
        assert OccursAt(text[1..], pat, i - 1);
      }
    }
  }

  /** A title matches a keyword when the keyword occurs in it, ignoring the
      case of ASCII letters: exactly when the lower-case keyword occurs at some
      offset of the lower-case title. */
  predicate TitleMatches(title: string, keyword: string): (m: bool)
    ensures m <==> exists i :: OccursAt(Fold(title), Fold(keyword), i)
  {
    ContainsIsOccurrence(Fold(title), Fold(keyword));
    Contains(Fold(title), Fold(keyword))
  }

  /** A keyword whose first letter occurs nowhere in the title, in either
      case, is not found. */
  lemma MissingFirstLetter(title: string, keyword: string)
    requires |keyword| > 0
    requires forall i :: 0 <= i < |title| ==> LowerChar(title[i]) != LowerChar(keyword[0])
    ensures !TitleMatches(title, keyword)
  {
    var folded, pat := Fold(title), Fold(keyword);
    forall i: int
      ensures !OccursAt(folded, pat, i)
    {
      if 0 <= i && i + |pat| <= |folded| {
        assert folded[i..i + |pat|][0] == folded[i];
      }
    }
  }
}
