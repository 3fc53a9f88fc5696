/** Recency kept as ranks: rank 0 is the most recently used key, and every rank below the
    number of keys belongs to exactly one key. */
module Ranks {
  import opened Listings

  type Rank = map<nat, nat>

  /** `order[k]` is the key with rank `k`. */
  ghost predicate Ranked(rank: Rank, order: seq<nat>) {
    && (forall k :: 0 <= k < |order| ==> order[k] in rank && rank[order[k]] == k)
    && (forall x :: x in rank ==> rank[x] < |order| && order[rank[x]] == x)
  }

  // ---- The reference: distinct keys by time of last use ----

  function Drop(s: seq<nat>, x: nat): seq<nat> {
    if s == [] then [] else (if s[0] == x then [] else [s[0]]) + Drop(s[1..], x)
  }

  /** The keys of a history of uses, the one used last first. */
  function Recents(uses: seq<nat>): seq<nat> {
    if uses == [] then []
    else
      var x := uses[|uses| - 1];
      [x] + Drop(Recents(uses[..|uses| - 1]), x)
  }

  /** One past the position of the last use of `x`; 0 if there was none. */
  function LastUse(uses: seq<nat>, x: nat): (t: nat)
    ensures t <= |uses| && (t > 0 ==> uses[t - 1] == x)
    ensures forall k :: t <= k < |uses| ==> uses[k] != x
  {
    if uses == [] then 0
    else if uses[|uses| - 1] == x then |uses|
    else LastUse(uses[..|uses| - 1], x)
  }

  lemma {:induction false} DropMembers(s: seq<nat>, x: nat)
    ensures forall y :: y in Drop(s, x) <==> y in s && y != x
    ensures |Drop(s, x)| <= |s|
  {
    if s == [] {
    } else {
      DropMembers(s[1..], x);
      assert forall y :: y in s <==> y == s[0] || y in s[1..];
    }
  }

  lemma {:induction false} DropNothing(s: seq<nat>, x: nat)
    requires x !in s
    ensures Drop(s, x) == s
  {
    if s == [] {
    } else {
      assert s[0] in s && forall y :: y in s[1..] ==> y in s;
      DropNothing(s[1..], x);
    }
  }

  lemma {:induction false} DropAt(s: seq<nat>, k: nat)
    requires k < |s| && NoRepeats(s)
    ensures Drop(s, s[k]) == s[..k] + s[k + 1..]
  {
    if k == 0 {
      DropNothing(s[1..], s[0]);
    } else {
      DropAt(s[1..], k - 1);
      assert s[..k] + s[k + 1..] == [s[0]] + (s[1..][..k - 1] + s[1..][k..]);
    }
  }

  lemma {:induction false} RecentsByLastUse(uses: seq<nat>)
    ensures forall x :: x in Recents(uses) <==> x in uses
    ensures forall i, j :: 0 <= i < j < |Recents(uses)| ==>
              LastUse(uses, Recents(uses)[i]) > LastUse(uses, Recents(uses)[j])
    ensures NoRepeats(Recents(uses))
  {
    if uses == [] {
    } else {
      var rest, x := uses[..|uses| - 1], uses[|uses| - 1];
      RecentsByLastUse(rest);
      var r := Recents(rest);
      DropMembers(r, x);
      var r' := Recents(uses);
      assert r' == [x] + Drop(r, x);
      assert forall y :: y in uses <==> y == x || y in rest;
      DropKeepsOrder(rest, r, x);
      forall i, j | 0 <= i < j < |r'| ensures LastUse(uses, r'[i]) > LastUse(uses, r'[j]) {
        assert r'[j] in Drop(r, x);
        assert r'[j] == Drop(r, x)[j - 1];
        if i > 0 { assert r'[i] in Drop(r, x) && r'[i] == Drop(r, x)[i - 1]; }
      }
    }
  }

  lemma {:induction false} DropKeepsOrder(uses: seq<nat>, r: seq<nat>, x: nat)
    requires forall i, j :: 0 <= i < j < |r| ==> LastUse(uses, r[i]) > LastUse(uses, r[j])
    ensures forall i, j :: 0 <= i < j < |Drop(r, x)| ==> LastUse(uses, Drop(r, x)[i]) > LastUse(uses, Drop(r, x)[j])
  {
    if r == [] {
    } else {
      DropKeepsOrder(uses, r[1..], x);
      DropMembers(r[1..], x);
      var d := Drop(r[1..], x);
      forall i, j | 0 <= i < j < |Drop(r, x)| ensures LastUse(uses, Drop(r, x)[i]) > LastUse(uses, Drop(r, x)[j]) {
        if r[0] != x && i == 0 {
          assert Drop(r, x)[j] == d[j - 1] && d[j - 1] in r[1..];
        }
      }
    }
  }

  // ---- Operations on ranks ----

  /** `x` becomes rank 0; what was more recent moves down by one. */
  function Promoted(rank: Rank, x: nat): Rank
    requires x in rank
  {
    map y | y in rank :: if y == x then 0 else if rank[y] < rank[x] then rank[y] + 1 else rank[y]
  }

  function Inserted(rank: Rank, x: nat): Rank {
    map y | y in rank.Keys + {x} :: if y == x then 0 else rank[y] + 1
  }

  lemma RankedNoRepeats(rank: Rank, order: seq<nat>)
    requires Ranked(rank, order)
    ensures NoRepeats(order)
  {
  }

  lemma PromotedRanked(rank: Rank, order: seq<nat>, x: nat)
    requires Ranked(rank, order) && x in rank
    ensures Ranked(Promoted(rank, x), [x] + Drop(order, x))
  {
    var k := rank[x];
    RankedNoRepeats(rank, order);
    DropAt(order, k);
    var order' := [x] + order[..k] + order[k + 1..];
    assert [x] + Drop(order, x) == order';
    forall i | 0 <= i < |order'| ensures order'[i] in rank && Promoted(rank, x)[order'[i]] == i {
      var old' := if i == 0 then k else if i <= k then i - 1 else i;
      assert order'[i] == order[old'];
    }
    forall y | y in rank ensures Promoted(rank, x)[y] < |order'| && order'[Promoted(rank, x)[y]] == y {
      assert order[rank[y]] == y;
      assert rank[y] == k ==> y == x;
    }
  }

  lemma InsertedRanked(rank: Rank, order: seq<nat>, x: nat)
    requires Ranked(rank, order) && x !in rank
    ensures Ranked(Inserted(rank, x), [x] + Drop(order, x))
  {
    assert x !in order;
    DropNothing(order, x);
    var order', rank' := [x] + order, Inserted(rank, x);
    forall i | 0 <= i < |order'| ensures order'[i] in rank' && rank'[order'[i]] == i {
      if i > 0 { assert order'[i] == order[i - 1]; }
    }
  }

  /** The key with the largest rank goes. */
  lemma EvictedRanked(rank: Rank, order: seq<nat>, x: nat)
    requires Ranked(rank, order) && x in rank && rank[x] == |order| - 1
    ensures Ranked(rank - {x}, order[..|order| - 1])
  {
  }

  lemma SizeOf(rank: Rank, order: seq<nat>)
    requires Ranked(rank, order)
    ensures |rank| == |order|
  {
    RankedNoRepeats(rank, order);
    CountOf(order);
    assert rank.Keys == Keys(order);
  }

  /** As many keys as ranks, and rank `k` means that exactly `k` keys are more recent. */
  lemma RankCounts(rank: Rank, order: seq<nat>, x: nat)
    requires Ranked(rank, order) && x in rank
    ensures |rank| == |order|
    ensures |set y | y in rank && rank[y] < rank[x]| == rank[x]
  {
    SizeOf(rank, order);
    RankedNoRepeats(rank, order);
    var newer := order[..rank[x]];
    CountOf(newer);
    forall y ensures y in newer <==> y in rank && rank[y] < rank[x] {
      if y in rank && rank[y] < rank[x] { assert newer[rank[y]] == y; }
    }
    assert Keys(newer) == set y | y in rank && rank[y] < rank[x];
  }

  /** Ranks by recency: a larger rank means an older last use. */
  lemma LargerRankIsOlder(rank: Rank, uses: seq<nat>, x: nat, y: nat)
    requires Ranked(rank, Recents(uses)) && x in rank && y in rank && rank[x] < rank[y]
    ensures LastUse(uses, x) > LastUse(uses, y)
  {
    RecentsByLastUse(uses);
    assert Recents(uses)[rank[x]] == x && Recents(uses)[rank[y]] == y;
  }
}
