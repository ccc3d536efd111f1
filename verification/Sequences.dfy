/** Sequences without repetition. */
module Sequences {

  predicate Distinct<T(==)>(s: seq<T>) {
    forall i, j :: 0 <= i < j < |s| ==> s[i] != s[j]
  }

  function Members<T(==)>(s: seq<T>): set<T> {
    set x | x in s
  }

  /** A sequence has at least as many places as members, and exactly as many if it repeats none. */
  lemma {:induction false} MemberCount<T>(s: seq<T>)
    ensures |Members(s)| <= |s|
    ensures Distinct(s) ==> |Members(s)| == |s|
  {
    if s != [] {
      MemberCount(s[1..]);
      assert Members(s) == Members(s[1..]) + {s[0]};
    }
  }
}
