/** The search filter of `create_question`:
    `Question.question.ilike('%term%')`, a case-insensitive substring match
    on the question text, with case folding restricted to ASCII letters. */
module Search {
  import opened Records

  /** ASCII lower-casing of one character; other characters are kept. */
  function LowerChar(c: char): (l: char)
    ensures !('A' <= l <= 'Z')
    ensures 'A' <= c <= 'Z' ==> l as int == c as int + 32
    ensures !('A' <= c <= 'Z') ==> l == c
  {
    if 'A' <= c <= 'Z' then (c as int + 32) as char else c
  }

  /** ASCII lower-casing of a string, character by character. */
  function Lower(s: string): (r: string)
    ensures |r| == |s|
    ensures forall i :: 0 <= i < |s| ==> !('A' <= r[i] <= 'Z')
    ensures forall i :: 0 <= i < |s| && !('A' <= s[i] <= 'Z') ==> r[i] == s[i]
    ensures forall i :: 0 <= i < |s| && 'A' <= s[i] <= 'Z' ==> r[i] as int == s[i] as int + 32
  {
    seq(|s|, i requires 0 <= i < |s| => LowerChar(s[i]))
  }

  /** `pattern` occurs in `text` starting at index `i`. */
  ghost predicate OccursAt(pattern: string, text: string, i: int)
  {
    0 <= i <= |text| - |pattern| && text[i..i + |pattern|] == pattern
  }

  /** `pattern` occurs as a contiguous piece of `text`. */
  ghost predicate Occurs(pattern: string, text: string)
  {
    exists i :: OccursAt(pattern, text, i)
  }

  /** `pattern` is a prefix of `text` or occurs in a later suffix. */
  function IsSubstring(pattern: string, text: string): (b: bool)
    ensures b <==> Occurs(pattern, text)
    decreases |text|
  {
    if pattern <= text then
      assert OccursAt(pattern, text, 0);
      true
    else if |text| <= |pattern| then
      false
    else
      var b := IsSubstring(pattern, text[1..]);
      assert b ==> Occurs(pattern, text) by {
        if b {
          var i :| OccursAt(pattern, text[1..], i);
          assert text[i + 1..i + 1 + |pattern|] == text[1..][i..i + |pattern|];
          assert OccursAt(pattern, text, i + 1);
        }
      }
      assert Occurs(pattern, text) ==> b by {
        if Occurs(pattern, text) {
          var i :| OccursAt(pattern, text, i);
          assert i != 0;
          assert text[1..][i - 1..i - 1 + |pattern|] == text[i..i + |pattern|];
          assert OccursAt(pattern, text[1..], i - 1);
        }
      }
      b
  }

  /** Whether a question's text contains the search term, ignoring case. */
  function Matches(q: Question, term: string): (m: bool)
    ensures m <==> Occurs(Lower(term), Lower(q.question))
  {
    IsSubstring(Lower(term), Lower(q.question))
  }

  /** The questions a search for `term` returns. */
  function SearchResults(qs: seq<Question>, term: string): (r: seq<Question>)
    ensures forall q :: q in r <==> q in qs && Occurs(Lower(term), Lower(q.question))
  {
    Filter(qs, (q: Question) => Matches(q, term))
  }

  /** Lower-casing twice is lower-casing once. */
  lemma LowerIdempotent(s: string)
    ensures Lower(Lower(s)) == Lower(s)
  {
    forall i | 0 <= i < |s| ensures Lower(Lower(s))[i] == Lower(s)[i] {
      var c := s[i];
      if 'A' <= c <= 'Z' {
        assert LowerChar(c) == (c as int + 32) as char;
      }
    }
  }

  /** The match ignores the case of the term: searching for `term` and for
      its lower-case form select the same questions. */
  lemma SearchIgnoresTermCase(qs: seq<Question>, term: string)
    ensures SearchResults(qs, term) == SearchResults(qs, Lower(term))
  {
    LowerIdempotent(term);
    FilterCongruence(qs, (q: Question) => Matches(q, term), (q: Question) => Matches(q, Lower(term)));
  }

  /** Any piece of a question's own text, in any case, finds that question. */
  lemma PieceOfTextMatches(q: Question, term: string, i: nat)
    requires i + |term| <= |q.question|
    requires Lower(q.question[i..i + |term|]) == Lower(term)
    ensures Matches(q, term)
  {
    var text := Lower(q.question);
    assert text[i..i + |term|] == Lower(q.question[i..i + |term|]);
    assert OccursAt(Lower(term), text, i);
  }
}
