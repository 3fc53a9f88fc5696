/** Lists without repetition and the sets they list. */
module Listings {

  ghost predicate NoRepeats(s: seq<nat>) {
    forall i, j :: 0 <= i < j < |s| ==> s[i] != s[j]
  }

  ghost predicate Increasing(s: seq<nat>) {
    forall i, j :: 0 <= i < j < |s| ==> s[i] < s[j]
  }

  ghost function Keys(s: seq<nat>): set<nat> {
    set x | x in s
  }

  lemma {:induction false} CountOf(s: seq<nat>)
    requires NoRepeats(s)
    ensures |Keys(s)| == |s|
  {
    if s == [] {
    } else {
      CountOf(s[1..]);
      assert s[0] !in Keys(s[1..]) && Keys(s) == {s[0]} + Keys(s[1..]);
    }
  }
}
