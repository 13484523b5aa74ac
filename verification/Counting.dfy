/** Sizes of sets and of sequences without repetition. */
module Counting {
  ghost predicate Distinct(s: seq<nat>) {
    forall i, j :: 0 <= i < j < |s| ==> s[i] != s[j]
  }

  ghost function Elements(s: seq<nat>): (r: set<nat>) {
    set i | 0 <= i < |s| :: s[i]
  }

  lemma OneMore(s: seq<nat>)
    requires s != []
    ensures Elements(s) == Elements(s[..|s| - 1]) + {s[|s| - 1]}
  {
    var n := |s| - 1;
    forall x | x in Elements(s)
      ensures x in Elements(s[..n]) + {s[n]}
    {
      var i :| 0 <= i < |s| && s[i] == x;
      assert i < n ==> s[..n][i] == x;
    }
    forall x | x in Elements(s[..n])
      ensures x in Elements(s)
    {
      var i :| 0 <= i < n && s[..n][i] == x;
      assert s[i] == x;
    }
    assert s[n] in Elements(s);
  }

  lemma {:induction false} CountSeq(s: seq<nat>)
    requires Distinct(s)
    ensures |Elements(s)| == |s|
  {
    if s != [] {
      var rest := s[..|s| - 1];
      CountSeq(rest);
      OneMore(s);
      assert s[|s| - 1] !in Elements(rest);
    }
  }

  lemma {:induction false} CountAtMost(s: seq<nat>)
    ensures |Elements(s)| <= |s|
  {
    if s != [] {
      var rest := s[..|s| - 1];
      CountAtMost(rest);
      OneMore(s);
    }
  }

  lemma Subset(a: set<nat>, b: set<nat>)
    requires a <= b
    ensures |a| <= |b| && (a != b ==> |a| < |b|)
  {
    assert b == a + (b - a);
  }
}
