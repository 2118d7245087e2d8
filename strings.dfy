/** Python's `sub in s` on strings, and `str.strip()` for the space character. */
module Strings {

  /** `sub` occurs in `s` starting at index `i`. */
  predicate MatchAt(s: string, sub: string, i: int)
  {
    0 <= i && i + |sub| <= |s| && s[i..i + |sub|] == sub
  }

  /** `sub in s`. */
  predicate Contains(s: string, sub: string)
  {
    exists i :: 0 <= i <= |s| - |sub| && MatchAt(s, sub, i)
  }

  /** A string lacking a character of `sub` does not contain `sub`. */
  lemma MissingChar(s: string, sub: string, c: char)
    requires c in sub && c !in s
    ensures !Contains(s, sub)
  {
    var k :| 0 <= k < |sub| && sub[k] == c;
    forall i | 0 <= i && i + |sub| <= |s| ensures !MatchAt(s, sub, i) {
      assert s[i + k] in s;
      assert s[i..i + |sub|][k] != sub[k];
    }
  }

  /**
   * `c` occurs in `s[lo..lo + n]`; written as a recursion on `n` so that the
   * verifier evaluates it on string literals.
   */
  predicate HasChar(s: string, c: char, lo: nat, n: nat)
    requires lo + n <= |s|
    decreases n
  {
    n > 0 && (s[lo] == c || HasChar(s, c, lo + 1, n - 1))
  }

  lemma {:induction false} HasCharIn(s: string, c: char, lo: nat, n: nat)
    requires lo + n <= |s|
    ensures HasChar(s, c, lo, n) <==> c in s[lo..lo + n]
    decreases n
  {
    if n > 0 {
      HasCharIn(s, c, lo + 1, n - 1);
      assert s[lo..lo + n] == [s[lo]] + s[lo + 1..lo + n];
    }
  }

  /**
   * A string whose first `n` windows all differ from `sub` at offset `d` (no
   * `e == sub[d]` there), and whose next `m` characters, up to the end, lack a
   * character `c` of `sub`, does not contain `sub`.
   */
  lemma MissingCharAfter(s: string, sub: string, c: char, e: char, d: nat, n: nat, m: nat)
    requires c in sub && d < |sub| && sub[d] == e && d + n <= |s| && n + m == |s|
    requires !HasChar(s, e, d, n) && !HasChar(s, c, n, m)
    ensures !Contains(s, sub)
  {
    HasCharIn(s, e, d, n);
    HasCharIn(s, c, n, m);
    var k :| 0 <= k < |sub| && sub[k] == c;
    forall i | 0 <= i && i + |sub| <= |s| ensures !MatchAt(s, sub, i) {
      if i < n {
        assert s[i + d] == s[d..d + n][i];
        assert s[i..i + |sub|][d] != sub[d];
      } else {
        assert s[i + k] == s[n..n + m][i + k - n];
        assert s[i..i + |sub|][k] != sub[k];
      }
    }
  }

  /** Every string contains itself. */
  lemma ContainsSelf(s: string)
    ensures Contains(s, s)
  {
    assert MatchAt(s, s, 0);
  }

  /** `s.strip()` for strings whose only whitespace is ' '. */
  function Strip(s: string): (r: string)
    ensures |r| <= |s|
    ensures r != [] ==> r[0] != ' ' && r[|r| - 1] != ' '
    ensures forall c :: c != ' ' ==> (c in r <==> c in s)
    ensures exists i ::
      MatchAt(s, r, i) && (forall k :: 0 <= k < i ==> s[k] == ' ') && (forall k :: i + |r| <= k < |s| ==> s[k] == ' ')
  {
    var e := StripEnd(s);
    var r := StripStart(e);
    SpacesAround(s, e, r);
    r
  }

  /** Cutting trailing spaces and then leading ones leaves an infix flanked by spaces. */
  lemma SpacesAround(s: string, e: string, r: string)
    requires |e| <= |s| && e == s[..|e|] && forall k :: |e| <= k < |s| ==> s[k] == ' '
    requires |r| <= |e| && r == e[|e| - |r|..] && forall k :: 0 <= k < |e| - |r| ==> e[k] == ' '
    ensures exists i ::
      MatchAt(s, r, i) && (forall k :: 0 <= k < i ==> s[k] == ' ') && (forall k :: i + |r| <= k < |s| ==> s[k] == ' ')
  {
    var i := |e| - |r|;
    assert MatchAt(s, r, i);
    assert forall k :: 0 <= k < i ==> s[k] == e[k];
  }

  function StripEnd(s: string): (r: string)
    ensures |r| <= |s|
    ensures r != [] ==> r[|r| - 1] != ' '
    ensures r == s[..|r|]
    ensures forall k :: |r| <= k < |s| ==> s[k] == ' '
    ensures forall c :: c != ' ' ==> (c in r <==> c in s)
    decreases |s|
  {
    if s != [] && s[|s| - 1] == ' ' then
      var r := StripEnd(s[..|s| - 1]);
      assert forall c :: c in s <==> c in s[..|s| - 1] || c == s[|s| - 1] by {
        assert s == s[..|s| - 1] + [s[|s| - 1]];
      }
      r
    else s
  }

  function StripStart(s: string): (r: string)
    ensures |r| <= |s|
    ensures r != [] ==> r[0] != ' '
    ensures r == s[|s| - |r|..]
    ensures forall k :: 0 <= k < |s| - |r| ==> s[k] == ' '
    ensures forall c :: c != ' ' ==> (c in r <==> c in s)
    decreases |s|
  {
    if s != [] && s[0] == ' ' then
      var r := StripStart(s[1..]);
      assert forall c :: c in s <==> c == s[0] || c in s[1..] by {
        assert s == [s[0]] + s[1..];
      }
      r
    else s
  }
}
