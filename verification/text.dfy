/** The string operations the search boxes use: `toLowerCase`, `includes`
    and `startsWith`. Case folding covers the ASCII letters only. */
module Text {

  function LowerChar(c: char): char
  {
    if 'A' <= c <= 'Z' then (c as int + 32) as char else c
  }

  /** `s.toLowerCase()` on ASCII letters; every other character is kept. */
  function Lower(s: string): (r: string)
    ensures |r| == |s|
  {
    seq(|s|, i requires 0 <= i < |s| => LowerChar(s[i]))
  }

  /** `n` occurs in `h` starting at index `i`. */
  predicate OccursAt(h: string, n: string, i: int)
  {
    0 <= i && i + |n| <= |h| && h[i..i + |n|] == n
  }

  /** `h.includes(n)`: tries every start position from the left. The empty
      needle is found in every string. */
  function Includes(h: string, n: string): bool
    decreases |h|
  {
    if |n| <= |h| && h[..|n|] == n then true
    else if |h| == 0 then false
    else Includes(h[1..], n)
  }

  /** The search finds `n` exactly when it occurs somewhere in `h`. */
  lemma {:induction false} IncludesIff(h: string, n: string)
    ensures Includes(h, n) <==> exists i :: OccursAt(h, n, i)
    decreases |h|
  {
    if |n| <= |h| && h[..|n|] == n {
      assert OccursAt(h, n, 0);
    } else if |h| == 0 {
      assert forall i :: !OccursAt(h, n, i);
    } else {
      IncludesIff(h[1..], n);
      assert !OccursAt(h, n, 0);
      forall j | OccursAt(h, n, j)
        ensures OccursAt(h[1..], n, j - 1)
      {
        assert h[1..][j - 1..j - 1 + |n|] == h[j..j + |n|];
      }
      if Includes(h, n) {
        var i :| OccursAt(h[1..], n, i);
        assert h[1..][i..i + |n|] == h[i + 1..i + 1 + |n|];
        assert OccursAt(h, n, i + 1);
      }
    }
  }

  /** `h.toLowerCase().includes(n.toLowerCase())`. */
  predicate ContainsIgnoringCase(h: string, n: string)
  {
    Includes(Lower(h), Lower(n))
  }

  /** `s.startsWith(prefix)`. */
  predicate StartsWith(s: string, prefix: string)
  {
    |prefix| <= |s| && s[..|prefix|] == prefix
  }
}
