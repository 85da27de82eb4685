/** The two string operations of the widget: `includes` and `split(sep)[0]`. */
module Text {

  /** `s.includes(sub)`: sub occurs somewhere in s. */
  function Contains(s: string, sub: string): bool
    decreases |s|
  {
    if sub <= s then true
    else if s == [] then false
    else Contains(s[1..], sub)
  }

  /** sub occurs in s starting at index i. */
  predicate OccursAt(s: string, sub: string, i: nat) {
    i + |sub| <= |s| && s[i..i + |sub|] == sub
  }

  /** An occurrence after the first character is an occurrence in the tail. */
  lemma OccursAtTail(s: string, sub: string, i: nat)
    requires s != [] && i > 0
    ensures OccursAt(s, sub, i) <==> OccursAt(s[1..], sub, i - 1)
  {
    if i + |sub| <= |s| {
      assert s[i..i + |sub|] == s[1..][i - 1..i - 1 + |sub|];
    }
  }

  /** Contains is exactly "there is a position at which sub occurs". */
  lemma {:induction false} ContainsIff(s: string, sub: string)
    ensures Contains(s, sub) <==> exists i: nat :: OccursAt(s, sub, i)
    decreases |s|
  {
    if sub <= s {
      assert OccursAt(s, sub, 0);
    } else if s == [] {
    } else {
      ContainsIff(s[1..], sub);
      if Contains(s[1..], sub) {
        var i: nat :| OccursAt(s[1..], sub, i);
        OccursAtTail(s, sub, i + 1);
      } else {
        forall i: nat | OccursAt(s, sub, i)
          ensures false
        {
          if i > 0 {
            OccursAtTail(s, sub, i);
          }
        }
      }
    }
  }

  /** Whatever stands around sub, the result contains sub. */
  lemma ContainsInfix(a: string, sub: string, b: string)
    ensures Contains(a + sub + b, sub)
  {
    var s := a + sub + b;
    assert s[|a|..|a| + |sub|] == sub;
    assert OccursAt(s, sub, |a|);
    ContainsIff(s, sub);
  }

  /** `s.split(sep)[0]`: the text before the first sep, or all of s when there is none. */
  function BeforeFirst(s: string, sep: char): (p: string)
    ensures p <= s
    ensures sep !in p
    ensures |p| < |s| ==> s[|p|] == sep
  {
    if s == [] || s[0] == sep then [] else [s[0]] + BeforeFirst(s[1..], sep)
  }

  /** Whatever follows the first separator is ignored. */
  lemma {:induction false} BeforeFirstOfJoined(p: string, sep: char, rest: string)
    requires sep !in p
    ensures BeforeFirst(p + [sep] + rest, sep) == p
  {
    if p != [] {
      assert (p + [sep] + rest)[1..] == p[1..] + [sep] + rest;
      BeforeFirstOfJoined(p[1..], sep, rest);
    }
  }
}
