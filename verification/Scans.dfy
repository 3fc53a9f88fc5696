/** Sequence scans shared by the queues: counting, first match, and the extremum scan
    with a comparator that is not strict on ineligible elements. */
module Scans {

  function Tally<T>(s: seq<T>, p: T -> bool): nat {
    if s == [] then 0 else (if p(s[0]) then 1 else 0) + Tally(s[1..], p)
  }

  lemma {:induction false} TallySplit<T>(a: seq<T>, b: seq<T>, p: T -> bool)
    ensures Tally(a + b, p) == Tally(a, p) + Tally(b, p)
  {
    if a == [] {
      assert a + b == b;
    } else {
      assert (a + b)[1..] == a[1..] + b;
      TallySplit(a[1..], b, p);
    }
  }

  lemma {:induction false} TallyUpdate<T>(s: seq<T>, i: nat, x: T, p: T -> bool)
    requires i < |s|
    ensures Tally(s[i := x], p) + (if p(s[i]) then 1 else 0) == Tally(s, p) + (if p(x) then 1 else 0)
  {
    if i == 0 {
    } else {
      assert s[i := x][1..] == s[1..][i - 1 := x];
      TallyUpdate(s[1..], i - 1, x, p);
    }
  }

  lemma {:induction false} TallySame<T>(a: seq<T>, b: seq<T>, p: T -> bool)
    requires |a| == |b| && forall i :: 0 <= i < |a| ==> p(a[i]) == p(b[i])
    ensures Tally(a, p) == Tally(b, p)
  {
    if a == [] {
    } else {
      TallySame(a[1..], b[1..], p);
    }
  }

  lemma {:induction false} TallyPositive<T>(s: seq<T>, i: nat, p: T -> bool)
    requires i < |s| && p(s[i])
    ensures Tally(s, p) > 0
  {
    if i == 0 {
    } else {
      TallyPositive(s[1..], i - 1, p);
    }
  }

  lemma {:induction false} TallyZero<T>(s: seq<T>, p: T -> bool)
    requires forall i :: 0 <= i < |s| ==> !p(s[i])
    ensures Tally(s, p) == 0
  {
    if s == [] {
    } else {
      TallyZero(s[1..], p);
    }
  }

  lemma {:induction false} TallyAtMost<T>(a: seq<T>, b: seq<T>, p: T -> bool)
    requires |a| == |b| && forall i :: 0 <= i < |a| && p(a[i]) ==> p(b[i])
    ensures Tally(a, p) <= Tally(b, p) <= |b|
  {
    if a == [] {
    } else {
      TallyAtMost(a[1..], b[1..], p);
    }
  }

  ghost function Positions<T>(s: seq<T>, p: T -> bool): set<int> {
    set q | 0 <= q < |s| && p(s[q])
  }

  lemma {:induction false} TallyIsCardinality<T>(s: seq<T>, p: T -> bool)
    ensures Tally(s, p) == |Positions(s, p)|
  {
    if s == [] {
      assert Positions(s, p) == {};
    } else {
      var last := |s| - 1;
      var front := s[..last];
      TallyIsCardinality(front, p);
      TallySplit(front, [s[last]], p);
      assert s == front + [s[last]];
      var a := Positions(front, p);
      assert Positions(s, p) == a + if p(s[last]) then {last} else {};
      assert last !in a;
      assert Tally([s[last]], p) == if p(s[last]) then 1 else 0;
    }
  }

  /** How many of the elements in [i, k) satisfy `p`. */
  function Between<T>(s: seq<T>, i: nat, k: nat, p: T -> bool): (n: nat)
    requires k <= |s|
    decreases k - i
  {
    if i >= k then 0 else (if p(s[i]) then 1 else 0) + Between(s, i + 1, k, p)
  }

  lemma {:induction false} BetweenSame<T>(a: seq<T>, b: seq<T>, i: nat, k: nat, p: T -> bool)
    requires k <= |a| == |b| && forall j :: i <= j < k ==> p(a[j]) == p(b[j])
    ensures Between(a, i, k, p) == Between(b, i, k, p)
    decreases k - i
  {
    if i >= k {
    } else {
      BetweenSame(a, b, i + 1, k, p);
    }
  }

  /** The first element that satisfies `p`; |s| if none does. */
  function First<T>(s: seq<T>, p: T -> bool): (k: nat)
    ensures k <= |s|
    ensures k < |s| ==> p(s[k])
    ensures forall i :: 0 <= i < k ==> !p(s[i])
  {
    if s == [] then 0 else if p(s[0]) then 0 else 1 + First(s[1..], p)
  }

  /** One step of min_element/max_element: an ineligible best is always replaced, an
      eligible one only by an eligible candidate with a greater key. */
  function ScanFrom<T>(s: seq<T>, eligible: T -> bool, key: T -> int, best: nat, it: nat): (r: nat)
    requires best < it <= |s|
    ensures r < |s|
    decreases |s| - it
  {
    if it == |s| then best
    else if !eligible(s[best]) || (eligible(s[it]) && key(s[it]) > key(s[best]))
    then ScanFrom(s, eligible, key, it, it + 1)
    else ScanFrom(s, eligible, key, best, it + 1)
  }

  function Scan<T>(s: seq<T>, eligible: T -> bool, key: T -> int): (r: nat)
    requires s != []
    ensures r < |s|
  {
    ScanFrom(s, eligible, key, 0, 1)
  }

  /** `best` is the first eligible element with the greatest key among the first `it`, or
      the last of them if none is eligible. */
  ghost predicate BestSoFar<T>(s: seq<T>, eligible: T -> bool, key: T -> int, best: nat, it: nat) {
    && best < it <= |s|
    && (!eligible(s[best]) ==> best == it - 1 && forall k :: 0 <= k < it ==> !eligible(s[k]))
    && (eligible(s[best]) ==>
          && (forall k :: 0 <= k < it && eligible(s[k]) ==> key(s[k]) <= key(s[best]))
          && (forall k :: 0 <= k < best && eligible(s[k]) ==> key(s[k]) < key(s[best])))
  }

  lemma {:induction false} ScanFromSelects<T>(s: seq<T>, eligible: T -> bool, key: T -> int, best: nat, it: nat)
    requires BestSoFar(s, eligible, key, best, it)
    ensures BestSoFar(s, eligible, key, ScanFrom(s, eligible, key, best, it), |s|)
    decreases |s| - it
  {
    if it == |s| {
    } else {
      if !eligible(s[best]) || (eligible(s[it]) && key(s[it]) > key(s[best])) {
        ScanFromSelects(s, eligible, key, it, it + 1);
      } else {
        ScanFromSelects(s, eligible, key, best, it + 1);
      }
    }
  }

  /** What the scan selects, although its comparator is no strict weak order. */
  lemma ScanSelects<T>(s: seq<T>, eligible: T -> bool, key: T -> int)
    requires s != []
    ensures BestSoFar(s, eligible, key, Scan(s, eligible, key), |s|)
  {
    ScanFromSelects(s, eligible, key, 0, 1);
  }
}
