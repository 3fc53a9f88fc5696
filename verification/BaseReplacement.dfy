/** The rank-based LRU policy of one cache set. */
module BaseReplacement {
  import opened Listings
  import opened Ranks

  /** The ways from the last to the first: the use history that the initial ranks stand for. */
  function Initial(ways: nat): (h: seq<nat>)
    ensures |h| == ways
  {
    seq(ways, i requires 0 <= i < ways => ways - 1 - i)
  }

  lemma {:induction false} InitialRecents(ways: nat, n: nat)
    requires n <= ways
    ensures Recents(Initial(ways)[..n]) == seq(n, i requires 0 <= i < n => ways - n + i)
  {
    if n == 0 {
    } else {
      InitialRecents(ways, n - 1);
      assert Initial(ways)[..n][..n - 1] == Initial(ways)[..n - 1];
      DropNothing(Recents(Initial(ways)[..n - 1]), ways - n);
    }
  }

  class LruSet {
    /** Rank of each way. */
    var lru: array<nat>
    /** Ways in the order of their uses, the initial ranks included. */
    ghost var uses: seq<nat>

    ghost function RankOf(): Rank
      reads this, lru
    {
      map w: nat | 0 <= w < lru.Length :: lru[w]
    }

    ghost predicate Valid()
      reads this, lru
    {
      Ranked(RankOf(), Recents(uses)) && forall w :: w in uses <==> 0 <= w < lru.Length
    }

    constructor (ways: nat)
      ensures Valid() && fresh(lru) && lru.Length == ways && uses == Initial(ways)
    {
      lru := new nat[ways](w => w);
      uses := Initial(ways);
      new;
      InitialRecents(ways, ways);
      assert Initial(ways)[..ways] == Initial(ways);
      forall w | 0 <= w < ways ensures w in uses {
        assert uses[ways - 1 - w] == w;
      }
    }

    method Update(way: nat)
      requires Valid() && way < lru.Length
      modifies this`uses, lru
      ensures Valid() && uses == old(uses) + [way]
      ensures lru[way] == 0
      ensures forall w :: 0 <= w < lru.Length && w != way ==>
        lru[w] == if old(lru[w]) < old(lru[way]) then old(lru[w]) + 1 else old(lru[w])
    {
      hide Recents, Promoted;
      ghost var before := RankOf();
      var i := 0;
      while i < lru.Length
        invariant 0 <= i <= lru.Length && lru[way] == old(lru[way]) && uses == old(uses)
        invariant forall w :: 0 <= w < i ==>
                  lru[w] == if old(lru[w]) < old(lru[way]) then old(lru[w]) + 1 else old(lru[w])
        invariant forall w :: i <= w < lru.Length ==> lru[w] == old(lru[w])
      {
        if lru[i] < lru[way] { lru[i] := lru[i] + 1; }
        i := i + 1;
      }
      lru[way] := 0;
      PromotedRanked(before, Recents(uses), way);
      RecentsSnoc(uses, way);
      uses := uses + [way];
      PromotedRanks(before, way, RankOf());
    }

    /** An invalid way if there is one, else the way whose last use is the oldest; so there
        always is a victim. */
    method Victim(valid: seq<bool>) returns (way: nat)
      requires Valid() && |valid| == lru.Length > 0
      ensures way < lru.Length
      ensures !valid[way] ==> forall w :: 0 <= w < way ==> valid[w]
      ensures valid[way] ==> forall w :: 0 <= w < lru.Length ==> valid[w]
      ensures valid[way] ==> forall w :: 0 <= w < lru.Length && w != way ==> LastUse(uses, way) < LastUse(uses, w)
    {
      way := 0;
      while way < |valid| && valid[way]
        invariant way <= |valid| && forall w :: 0 <= w < way ==> valid[w]
      {
        way := way + 1;
      }
      if way == |valid| {
        ghost var oldest := Oldest(RankOf(), uses, lru.Length);
        way := 0;
        while way < lru.Length && lru[way] != lru.Length - 1
          invariant way <= lru.Length && forall w :: 0 <= w < way ==> lru[w] != lru.Length - 1
        {
          way := way + 1;
        }
        assert RankOf()[oldest] == lru[oldest];
        assert RankOf()[way] == lru[way];
      }
    }
  }

  lemma RecentsSnoc(uses: seq<nat>, x: nat)
    ensures Recents(uses + [x]) == [x] + Drop(Recents(uses), x)
  {
    assert (uses + [x])[..|uses|] == uses;
  }

  lemma PromotedRanks(a: Rank, x: nat, b: Rank)
    requires x in a && b.Keys == a.Keys && b[x] == 0
    requires forall y :: y in a && y != x ==> b[y] == if a[y] < a[x] then a[y] + 1 else a[y]
    ensures b == Promoted(a, x)
  {
  }

  lemma Oldest(rank: Rank, uses: seq<nat>, ways: nat) returns (x: nat)
    requires Ranked(rank, Recents(uses)) && ways > 0 && forall w :: w in rank <==> 0 <= w < ways
    ensures x < ways && rank[x] == ways - 1
    ensures forall w :: 0 <= w < ways && rank[w] == ways - 1 ==> w == x
    ensures forall w :: 0 <= w < ways && w != x ==> LastUse(uses, x) < LastUse(uses, w)
  {
    SizeOf(rank, Recents(uses));
    WaysCount(ways, rank);
    x := Recents(uses)[ways - 1];
    forall w | 0 <= w < ways && w != x ensures LastUse(uses, x) < LastUse(uses, w) {
      assert w in rank;
      LargerRankIsOlder(rank, uses, w, x);
    }
  }

  lemma WaysCount(ways: nat, rank: Rank)
    requires forall w :: w in rank <==> 0 <= w < ways
    ensures |rank| == ways
  {
    var all := seq(ways, i requires 0 <= i < ways => i);
    CountOf(all);
    assert rank.Keys == Keys(all) by {
      forall w ensures w in all <==> w in rank {
        if w in rank { assert all[w] == w; }
      }
    }
  }

  /** In every set, rank `k` means that exactly `k` ways are more recent. */
  lemma RankIsNumberOfNewerWays(set': LruSet, way: nat)
    requires set'.Valid() && way < set'.lru.Length
    ensures |set w | 0 <= w < set'.lru.Length && set'.lru[w] < set'.lru[way]| == set'.lru[way]
    ensures set'.lru[way] < set'.lru.Length
  {
    var rank := set'.RankOf();
    assert way in rank;
    RankCounts(rank, Recents(set'.uses), way);
    WaysCount(set'.lru.Length, rank);
    assert (set y | y in rank
    && rank[y] < rank[way]) == set w | 0 <= w < set'.lru.Length && set'.lru[w] < set'.lru[way];
  }
}
