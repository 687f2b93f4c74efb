/** The two string operations the search boxes use: `String.prototype.toLowerCase`
    (restricted to ASCII letters) and `String.prototype.includes`. */
module Text {

  /** `c.toLowerCase()` for ASCII: `A`-`Z` map to `a`-`z`, everything else is kept. */
  function LowerChar(c: char): (d: char)
    ensures 'A' <= c <= 'Z' ==> 'a' <= d <= 'z' && d as int - c as int == 'a' as int - 'A' as int
    ensures !('A' <= c <= 'Z') ==> d == c
    ensures !('A' <= d <= 'Z')
  {
    if 'A' <= c <= 'Z' then (c as int - 'A' as int + 'a' as int) as char else c
  }

  /** `s.toLowerCase()`, character by character. */
  function Lower(s: string): (r: string)
    ensures |r| == |s|
    ensures forall i | 0 <= i < |s| :: r[i] == LowerChar(s[i])
    ensures forall i | 0 <= i < |r| :: !('A' <= r[i] <= 'Z')
    ensures forall i | 0 <= i < |s| :: !('A' <= s[i] <= 'Z') ==> r[i] == s[i]
  {
    seq(|s|, i requires 0 <= i < |s| => LowerChar(s[i]))
  }

  /** Lowercasing twice is lowercasing once. */
  lemma LowerIdempotent(s: string)
    ensures Lower(Lower(s)) == Lower(s)
  {
  }

  /** `q` occurs in `s` starting at position `i`. */
  ghost predicate OccursAt(s: string, q: string, i: int) {
    0 <= i && i + |q| <= |s| && s[i..i + |q|] == q
  }

  /** `q` occurs somewhere in `s`. */
  ghost predicate IsSubstring(q: string, s: string) {
    exists i :: OccursAt(s, q, i)
  }

  /** `s.includes(q)`: `q` is a contiguous part of `s`; the empty string is
      part of every string. */
  function Includes(s: string, q: string): (b: bool)
    ensures q == [] ==> b
    ensures b ==> |q| <= |s|
    decreases |s|
  {
    if |s| < |q| then false
    else if s[..|q|] == q then true
    else Includes(s[1..], q)
  }

  /** An occurrence in the tail of `s` is an occurrence in `s`, one
      position later. */
  lemma OccursInTail(s: string, q: string, i: int)
    requires s != [] && i >= 0
    ensures OccursAt(s[1..], q, i) <==> OccursAt(s, q, i + 1)
  {
    if 0 <= i && i + |q| <= |s| - 1 {
      assert s[1..][i..i + |q|] == s[i + 1..i + 1 + |q|];
    }
  }

  /** `Includes` agrees with the positional definition of a substring. */
  lemma {:induction false} IncludesIffOccurs(s: string, q: string)
    ensures Includes(s, q) <==> IsSubstring(q, s)
    decreases |s|
  {
    if |s| < |q| {
      assert forall i :: !OccursAt(s, q, i);
    } else if s[..|q|] == q {
      assert OccursAt(s, q, 0);
    } else {
      IncludesIffOccurs(s[1..], q);
      if Includes(s[1..], q) {
        var i :| OccursAt(s[1..], q, i);
        OccursInTail(s, q, i);
      } else {
        forall i | OccursAt(s, q, i) ensures false {
          if i != 0 {
            OccursInTail(s, q, i - 1);
          }
        }
      }
    }
  }
}
