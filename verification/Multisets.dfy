/** Facts about multisets that the solver does not find alone. */
module Multisets {
  lemma TwiceInMultiset<T>(s: seq<T>, i: nat, j: nat)
    requires i < j < |s| && s[i] == s[j]
    ensures multiset(s)[s[i]] >= 2
  {
    assert s == s[..j] + s[j..];
    assert s[..j][i] == s[i] && s[j..][0] == s[i];
    assert multiset(s) == multiset(s[..j]) + multiset(s[j..]);
    assert s[i] in s[..j] && s[i] in s[j..];
  }

  lemma Regroup<T>(s: multiset<T>, v: multiset<T>, c: multiset<T>, p: multiset<T>)
    ensures s + v + c + p == s + v + (c + p)
    ensures s + v + c + p == s + (v + c + p) + multiset{}
  {
  }

  lemma Cancel<T>(a: multiset<T>, b: multiset<T>, c: multiset<T>, d: multiset<T>, m: multiset<T>)
    ensures a + m + b == a + (b + m)
    ensures a + (b + m) == c + m + d ==> a + b == c + d
  {
    if a + (b + m) == c + m + d {
      forall e: T ensures (a + b)[e] == (c + d)[e] {
        assert (a + (b + m))[e] == (c + m + d)[e];
      }
    }
  }
}
