/** The few string operations the models need, on ASCII. */
module Text {
  function LowerChar(c: char): char {
    if 'A' <= c <= 'Z' then (c as int + 32) as char else c
  }

  function Lower(s: string): (r: string)
    ensures |r| == |s|
  {
    if s == "" then "" else [LowerChar(s[0])] + Lower(s[1..])
  }

  /** Python's `part in s`. */
  predicate Contains(s: string, part: string) {
    part <= s || (s != "" && Contains(s[1..], part))
  }

  /** The letter c, with an upper-case letter of ASCII read as its lower-case one, is d. */
  predicate ReadsAs(c: char, d: char) {
    if 'A' <= c <= 'Z' then d as int == c as int - 'A' as int + 'a' as int else c == d
  }

  lemma {:induction false} LowerAt(s: string, i: nat)
    requires i < |s|
    ensures forall d: char :: Lower(s)[i] == d <==> ReadsAs(s[i], d)
  {
    if i > 0 { LowerAt(s[1..], i - 1); }
  }

  predicate OccursAt(s: string, part: string, i: nat) { i <= |s| && part <= s[i..] }

  lemma {:induction false} ContainsExactly(s: string, part: string)
    ensures Contains(s, part) <==> exists i: nat :: OccursAt(s, part, i)
  {
    if part <= s {
      assert OccursAt(s, part, 0);
    } else if s != "" {
      ContainsExactly(s[1..], part);
      forall i: nat ensures OccursAt(s[1..], part, i) <==> OccursAt(s, part, i + 1) {
        if i < |s| { assert s[1..][i..] == s[i + 1..]; }
      }
      if exists i: nat :: OccursAt(s, part, i) {
        var i: nat :| OccursAt(s, part, i);
        assert i > 0 && OccursAt(s[1..], part, i - 1);
      }
      if exists i: nat :: OccursAt(s[1..], part, i) {
        var i: nat :| OccursAt(s[1..], part, i);
        assert OccursAt(s, part, i + 1);
      }
    } else {
      assert forall i: nat :: OccursAt(s, part, i) ==> i == 0;
    }
  }
}
