/** The two string operations of the list searches: `toLowerCase`, restricted
    to ASCII letters, and `includes`. */
module Text {

  function LowerChar(c: char): char {
    if 'A' <= c <= 'Z' then (c as int + 32) as char else c
  }

  /** `s.toLowerCase()` for ASCII: every letter A-Z becomes a-z, nothing else changes. */
  function Lower(s: string): (r: string)
    ensures |r| == |s|
    ensures forall i :: 0 <= i < |s| ==> r[i] == LowerChar(s[i])
  {
    if s == [] then [] else [LowerChar(s[0])] + Lower(s[1..])
  }

  predicate StartsWith(s: string, prefix: string) {
    |prefix| <= |s| && s[..|prefix|] == prefix
  }

  /** `s.includes(part)` */
  predicate Includes(s: string, part: string) {
    StartsWith(s, part) || (s != [] && Includes(s[1..], part))
  }

  /** `part` occurs in `s` starting at position `i`. */
  predicate OccursAt(s: string, part: string, i: int) {
    0 <= i && i + |part| <= |s| && s[i..i + |part|] == part
  }

  /** `includes` holds exactly when `part` occurs at some position of `s`; the
      empty string occurs everywhere. */
  lemma {:induction false} IncludesIsOccurrence(s: string, part: string)
    ensures Includes(s, part) <==> exists i :: OccursAt(s, part, i)
    ensures Includes(s, [])
  {
    assert StartsWith(s, part) <==> OccursAt(s, part, 0);
    assert OccursAt(s, [], 0);
    if s != [] {
      IncludesIsOccurrence(s[1..], part);
      forall i | OccursAt(s[1..], part, i) ensures OccursAt(s, part, i + 1) {
        assert s[i + 1..i + 1 + |part|] == s[1..][i..i + |part|];
      }
      forall i | OccursAt(s, part, i) && i > 0 ensures OccursAt(s[1..], part, i - 1) {
        assert s[i..i + |part|] == s[1..][i - 1..i - 1 + |part|];
      }
    } else {
      forall i | OccursAt(s, part, i) ensures i == 0 { }
    }
  }

  /** Lower-casing twice is lower-casing once. */
  lemma LowerIdempotent(s: string)
    ensures Lower(Lower(s)) == Lower(s)
  {
  }

  /** `name.toLowerCase().includes(search.toLowerCase())`, the search rule of
      both list pages. */
  predicate MatchesSearch(name: string, search: string) {
    Includes(Lower(name), Lower(search))
  }

  /** The empty search matches every name, and a name matches its own text. */
  lemma SearchBasics(name: string)
    ensures MatchesSearch(name, [])
    ensures MatchesSearch(name, name)
  {
    IncludesIsOccurrence(Lower(name), []);
    assert OccursAt(Lower(name), Lower(name), 0);
    IncludesIsOccurrence(Lower(name), Lower(name));
  }
}
