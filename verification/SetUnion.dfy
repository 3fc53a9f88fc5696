/** std::set_union on id lists: one merging pass, common elements once. */
module SetUnion {

  function Union(a: seq<nat>, b: seq<nat>): seq<nat>
    decreases |a| + |b|
  {
    if a == [] then b
    else if b == [] then a
    else if a[0] < b[0] then [a[0]] + Union(a[1..], b)
    else if b[0] < a[0] then [b[0]] + Union(a, b[1..])
    else [a[0]] + Union(a[1..], b[1..])
  }

  ghost predicate Sorted(s: seq<nat>) {
    forall i, j :: 0 <= i < j < |s| ==> s[i] < s[j]
  }

  /** Nothing is lost and nothing is invented, sorted or not. */
  lemma {:induction false} UnionMembers(a: seq<nat>, b: seq<nat>, x: nat)
    ensures x in Union(a, b) <==> x in a || x in b
    decreases |a| + |b|
  {
    if a == [] || b == [] {
    } else if a[0] < b[0] {
      UnionMembers(a[1..], b, x);
      assert x in a <==> x == a[0] || x in a[1..];
    } else if b[0] < a[0] {
      UnionMembers(a, b[1..], x);
      assert x in b <==> x == b[0] || x in b[1..];
    } else {
      UnionMembers(a[1..], b[1..], x);
      assert x in a <==> x == a[0] || x in a[1..];
      assert x in b <==> x == b[0] || x in b[1..];
    }
  }

  lemma SortedCons(x: nat, s: seq<nat>)
    requires Sorted(s) && forall y :: y in s ==> x < y
    ensures Sorted([x] + s)
  {
    forall i, j | 0 <= i < j < |[x] + s| ensures ([x] + s)[i] < ([x] + s)[j] {
      assert s[j - 1] in s;
    }
  }

  lemma {:induction false} UnionSorted(a: seq<nat>, b: seq<nat>)
    requires Sorted(a) && Sorted(b)
    ensures Sorted(Union(a, b))
    decreases |a| + |b|
  {
    if a == [] || b == [] {
    } else {
      var x := if a[0] < b[0] then a[0] else b[0];
      var rest :=
        if a[0] < b[0] then Union(a[1..], b)
        else if b[0] < a[0] then Union(a, b[1..])
        else Union(a[1..], b[1..]);
      if a[0] < b[0] {
        UnionSorted(a[1..], b);
      } else if b[0] < a[0] {
        UnionSorted(a, b[1..]);
      } else {
        UnionSorted(a[1..], b[1..]);
      }
      forall y | y in rest ensures x < y {
        UnionMembers(a[1..], b, y);
        UnionMembers(a, b[1..], y);
        UnionMembers(a[1..], b[1..], y);
      }
      SortedCons(x, rest);
    }
  }
}
