/** Counting the entries of a list that pass a test: `sum(1 for x in xs if p(x))`. */
module Counting {

  /** How many entries of `s` satisfy `p`. */
  function CountWhere<T>(s: seq<T>, p: T -> bool): (n: nat)
    ensures n <= |s|
    ensures n == |s| <==> forall i :: 0 <= i < |s| ==> p(s[i])
    ensures n == 0 <==> forall i :: 0 <= i < |s| ==> !p(s[i])
  {
    if s == [] then 0
    else
      var init := s[..|s| - 1];
      assert forall i :: 0 <= i < |init| ==> init[i] == s[i];
      CountWhere(init, p) + (if p(s[|s| - 1]) then 1 else 0)
  }

  /** Counting a concatenation counts each part. */
  lemma {:induction false} CountWhereAppend<T>(s: seq<T>, t: seq<T>, p: T -> bool)
    ensures CountWhere(s + t, p) == CountWhere(s, p) + CountWhere(t, p)
  {
    if t != [] {
      var init := t[..|t| - 1];
      CountWhereAppend(s, init, p);
      assert (s + t)[..|s + t| - 1] == s + init;
    } else {
      assert s + t == s;
    }
  }

  /** Two tests that agree on every entry give the same count. */
  lemma {:induction false} CountWhereSame<T>(s: seq<T>, p: T -> bool, q: T -> bool)
    requires forall i :: 0 <= i < |s| ==> p(s[i]) == q(s[i])
    ensures CountWhere(s, p) == CountWhere(s, q)
  {
    if s != [] {
      var init := s[..|s| - 1];
      assert forall i :: 0 <= i < |init| ==> init[i] == s[i];
      CountWhereSame(init, p, q);
    }
  }

  /**
   * Inclusion and exclusion: an entry passing both tests is counted by each,
   * so the two counts add up to the entries passing either plus those passing both.
   */
  lemma {:induction false} CountWhereBoth<T>(s: seq<T>, p: T -> bool, q: T -> bool, either: T -> bool, both: T -> bool)
    requires forall i :: 0 <= i < |s| ==> either(s[i]) == (p(s[i]) || q(s[i]))
    requires forall i :: 0 <= i < |s| ==> both(s[i]) == (p(s[i]) && q(s[i]))
    ensures CountWhere(s, p) + CountWhere(s, q) == CountWhere(s, either) + CountWhere(s, both)
  {
    if s != [] {
      var init := s[..|s| - 1];
      assert forall i :: 0 <= i < |init| ==> init[i] == s[i];
      CountWhereBoth(init, p, q, either, both);
    }
  }
}
