/** Case-insensitive substring matching, the model of the SQL test
    `question ILIKE '%term%'`. Case folding is ASCII only. */
module Text {

  function LowerChar(c: char): char
  {
    if 'A' <= c <= 'Z' then (c as int + 32) as char else c
  }

  function Lower(s: string): (r: string)
    ensures |r| == |s|
    ensures forall i :: 0 <= i < |s| ==> r[i] == LowerChar(s[i])
  {
    seq(|s|, i requires 0 <= i < |s| => LowerChar(s[i]))
  }

  /** `t` occurs in `s` starting at position `i`. */
  predicate OccursAt(s: string, t: string, i: int)
  {
    0 <= i <= |s| - |t| && s[i..i + |t|] == t
  }

  /** `s` contains `t` as a contiguous piece. */
  predicate Contains(s: string, t: string)
    ensures Contains(s, t) <==> exists i :: OccursAt(s, t, i)
  {
    if |s| < |t| then false
    else if s[..|t|] == t then assert OccursAt(s, t, 0); true
    else if s == [] then false
    else
      assert !OccursAt(s, t, 0);
      OccursInTail(s, t);
      Contains(s[1..], t)
  }

  /** An occurrence in the tail of `s` is an occurrence in `s`, one place on. */
  lemma OccursInTail(s: string, t: string)
    requires s != []
    ensures forall i :: OccursAt(s[1..], t, i) ==> OccursAt(s, t, i + 1)
    ensures forall i :: 1 <= i && OccursAt(s, t, i) ==> OccursAt(s[1..], t, i - 1)
  {
  }

  /** `text` contains `term`, ignoring the case of ASCII letters. */
  predicate ContainsIgnoringCase(text: string, term: string)
  {
    Contains(Lower(text), Lower(term))
  }

  /** The empty term is found in every text. */
  lemma EmptyTermFoundEverywhere(text: string)
    ensures ContainsIgnoringCase(text, "")
  {
  }

  /** Upper- and lower-case spellings of a term find the same texts. */
  lemma CaseOfTermIgnored(text: string, term: string)
    ensures ContainsIgnoringCase(text, term) <==> ContainsIgnoringCase(text, Lower(term))
  {
    LowerIdempotent(term);
  }

  lemma LowerIdempotent(s: string)
    ensures Lower(Lower(s)) == Lower(s)
  {
  }
}
