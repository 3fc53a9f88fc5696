/** A set of small numbers: a sorted array while it is small, a bit per number afterwards. */
module FastSet {
  import opened Listings

  const MAX_SIZE: nat := 512
  const SMALL_SIZE: nat := 13
  const SMALLER_SIZE: nat := 6
  const WORDS: nat := 8

  type Word = seq<bool>

  class Set {
    /** The source lets the two share memory; only the one that `card` selects is read. */
    const values: array<nat>
    const bits: array<Word>
    /** The number of elements while the set is small, 13 for any larger set. */
    var card: nat

    predicate GetBit(x: nat)
      requires x < MAX_SIZE && bits.Length == WORDS && |bits[x / 64]| == 64
      reads this, bits
    {
      bits[x / 64][x % 64]
    }

    ghost predicate Valid()
      reads this, values, bits
    {
      && values.Length == SMALL_SIZE && bits.Length == WORDS && card <= SMALL_SIZE
      && (forall w :: 0 <= w < WORDS ==> |bits[w]| == 64)
      && (card < SMALL_SIZE ==> Increasing(values[..card]) && forall i :: 0 <= i < card ==> values[i] < MAX_SIZE)
    }

    ghost function Elements(): set<nat>
      requires Valid()
      reads this, values, bits
    {
      if card < SMALL_SIZE then Keys(values[..card]) else set x | 0 <= x < MAX_SIZE && GetBit(x)
    }

    constructor ()
      ensures Valid() && Elements() == {} && fresh(values) && fresh(bits)
    {
      values := new nat[SMALL_SIZE];
      bits := new Word[WORDS](_ => seq(64, _ => false));
      card := 0;
    }

    method SetBit(x: nat)
      requires x < MAX_SIZE && bits.Length == WORDS && forall w :: 0 <= w < WORDS ==> |bits[w]| == 64
      modifies bits
      ensures forall w :: 0 <= w < WORDS ==> |bits[w]| == 64
      ensures forall y :: 0 <= y < MAX_SIZE ==> (GetBit(y) <==> y == x || old(GetBit(y)))
    {
      bits[x / 64] := bits[x / 64][x % 64 := true];
      forall y | 0 <= y < MAX_SIZE ensures GetBit(y) <==> y == x || old(GetBit(y)) {
        assert y / 64 == x / 64 && y % 64 == x % 64 ==> y == x;
      }
    }

    /** Into the sorted array, with at least one place free. */
    method InsertSmall(x: nat)
      requires Valid() && card < SMALL_SIZE && x < MAX_SIZE
      modifies this`card, values
      ensures card == if x in old(Keys(values[..card])) then old(card) else old(card) + 1
      ensures Increasing(values[..card]) && Keys(values[..card]) == old(Keys(values[..card])) + {x}
      ensures x in old(Keys(values[..card])) ==> values[..] == old(values[..])
    {
      var i := 0;
      while i < card
        invariant 0 <= i <= card && forall k :: 0 <= k < i ==> values[k] < x
      {
        var y := values[i];
        if y == x {
          assert values[..card][i] == x;
          return;
        }
        if y > x { break; }
        i := i + 1;
      }
      ghost var before := values[..card];
      assert forall k :: i <= k < card ==> x < before[k];
      ShiftUp(i);
      values[i] := x;
      card := card + 1;
      assert values[..card] == before[..i] + [x] + before[i..];
      InsertedList(before, i, x);
    }

    /** Everything from place `i` on moves up by one. */
    method ShiftUp(i: nat)
      requires i <= card < values.Length
      modifies values
      ensures forall k :: 0 <= k < i ==> values[k] == old(values[k])
      ensures forall k :: i < k <= card ==> values[k] == old(values[k - 1])
    {
      var j: int := card - 1;
      while j >= i
        invariant i - 1 <= j < card
        invariant forall k :: 0 <= k <= j ==> values[k] == old(values[k])
        invariant forall k :: j + 1 < k <= card ==> values[k] == old(values[k - 1])
      {
        values[j + 1] := values[j];
        j := j - 1;
      }
    }

    method SearchSmallLinear(x: nat) returns (found: bool)
      requires Valid() && card < SMALL_SIZE
      ensures found <==> x in Elements()
    {
      for i := 0 to card
        invariant forall k :: 0 <= k < i ==> values[k] < x
      {
        var y := values[i];
        assert y == values[..card][i];
        if y > x {
          assert forall k :: i < k < card ==> values[..card][i] < values[..card][k];
          return false;
        }
        if y == x { return true; }
      }
      return false;
    }

    method SearchSmall(x: nat) returns (found: bool)
      requires Valid() && card < SMALL_SIZE
      ensures found <==> x in Elements()
    {
      if card == 0 { return false; }
      if card < SMALLER_SIZE {
        found := SearchSmallLinear(x);
        return;
      }
      ghost var list := values[..card];
      var begin: int, end: int := 0, card - 1;
      var middle := end / 2;
      while true
        invariant 0 <= begin <= middle <= end < card
        invariant forall k :: 0 <= k < begin ==> list[k] < x
        invariant forall k :: end < k < card ==> x < list[k]
        decreases end - begin
      {
        var y := values[middle];
        assert y == list[middle];
        if x < y {
          end := middle - 1;
        } else if x > y {
          begin := middle + 1;
        } else {
          return true;
        }
        if end < begin { break; }
        middle := (begin + end) / 2;
      }
      return false;
    }

    /** The small contents, copied out and set as bits. */
    method SmallToBit()
      requires card <= values.Length && bits.Length == WORDS
      requires forall i :: 0 <= i < card ==> values[i] < MAX_SIZE
      modifies bits
      ensures forall w :: 0 <= w < WORDS ==> |bits[w]| == 64
      ensures forall y :: 0 <= y < MAX_SIZE ==> (GetBit(y) <==> y in old(values[..card]))
    {
      var tmp := values[..card];
      for w := 0 to WORDS
        invariant forall v :: 0 <= v < w ==> bits[v] == seq(64, _ => false)
      {
        bits[w] := seq(64, _ => false);
      }
      for i := 0 to card
        invariant forall w :: 0 <= w < WORDS ==> |bits[w]| == 64
        invariant forall y :: 0 <= y < MAX_SIZE ==> (GetBit(y) <==> y in tmp[..i])
      {
        SetBit(tmp[i]);
        assert tmp[..i + 1] == tmp[..i] + [tmp[i]];
      }
      assert tmp[..card] == tmp;
    }

    method Insert(x: nat)
      requires Valid() && x < MAX_SIZE
      modifies this`card, values, bits
      ensures Valid() && Elements() == old(Elements()) + {x}
      ensures x in old(Elements()) && old(card) < SMALL_SIZE ==> card == old(card) && values[..] == old(values[..])
    {
      if card == 0 {
        values[card] := x;
        card := card + 1;
        return;
      }
      if card < SMALL_SIZE {
        InsertSmall(x);
        InRange(old(values[..card]), x, values[..card]);
        assert forall i :: 0 <= i < card ==> values[i] == values[..card][i] < MAX_SIZE;
        if card == SMALL_SIZE { SmallToBit(); }
      } else {
        SetBit(x);
      }
    }

    method Search(x: nat) returns (found: bool)
      requires Valid() && x < MAX_SIZE
      ensures found <==> x in Elements()
    {
      if card == 0 { return false; }
      if card == 1 { return values[0] == x; }
      if card < SMALL_SIZE {
        found := SearchSmall(x);
        return;
      }
      return GetBit(x);
    }

    /** Union with `other`; of a large `other`, the words that can hold numbers up to `n`. */
    method Join(other: Set, n: nat)
      requires Valid() && other.Valid() && n < MAX_SIZE
      requires other == this || (values != other.values && bits != other.bits)
      modifies this`card, values, bits
      ensures Valid()
      ensures Elements() == old(Elements())
                            + set x | x in old(other.Elements()) && (old(other.card) < SMALL_SIZE || x / 64 <= n / 64)
      ensures (forall x :: x in old(other.Elements()) ==> x < n) ==>
                Elements() == old(Elements()) + old(other.Elements())
    {
      if other.card == 0 { return; }
      if other.card < SMALL_SIZE {
        InsertAll(other);
        return;
      }
      if card < SMALL_SIZE {
        SmallToBit();
        card := SMALL_SIZE;
      }
      label Large:
      var lim := n / 64 + 1;
      var i := 0;
      while i < lim
        invariant 0 <= i <= lim <= WORDS && Valid() && card == SMALL_SIZE
        invariant other != this ==> unchanged@Large(other, other.bits)
        invariant forall x :: 0 <= x < MAX_SIZE && x / 64 < i ==>
                  (GetBit(x) <==> old@Large(GetBit(x)) || old@Large(other.GetBit(x)))
        invariant forall x :: 0 <= x < MAX_SIZE && x / 64 >= i ==> (GetBit(x) <==> old@Large(GetBit(x)))
      {
        bits[i] := Or(bits[i], other.bits[i]);
        i := i + 1;
      }
    }

    /** Lists the set in `v`: of a small set everything, of a large one the numbers below `n`. */
    method Expand(v: array<nat>, n: nat) returns (k: nat)
      requires Valid() && n <= MAX_SIZE && v != values
      requires n <= v.Length && (card < SMALL_SIZE ==> card <= v.Length)
      modifies v
      ensures Valid() && k <= v.Length && Increasing(v[..k])
      ensures Keys(v[..k]) == set x | x in Elements() && (card < SMALL_SIZE || x < n)
      ensures (forall x :: x in Elements() ==> x < n) ==> Keys(v[..k]) == Elements() && k == |Elements()|
    {
      k := 0;
      if card == 0 { return; }
      if card < SMALL_SIZE {
        while k < card
          invariant 0 <= k <= card && Valid() && values[..] == old(values[..]) && v[..k] == values[..k]
        {
          v[k] := values[k];
          k := k + 1;
        }
        CountOf(v[..k]);
        return;
      }
      ghost var all := Elements();
      var i := 0;
      while i < n
        invariant i % 64 == 0 && Valid() && card == SMALL_SIZE && Elements() == all
        invariant k <= n && Lists(v[..k], if i < n then i else n, all)
        decreases n - i
      {
        var next := if i + 64 < n then i + 64 else n;
        if exists b :: 0 <= b < 64 && bits[i / 64][b] {
          k := ExpandWord(v, n, i, k);
        } else {
          assert forall x :: i <= x < next ==> x / 64 == i / 64 && !bits[x / 64][x % 64] && !GetBit(x);
          ListSkip(v[..k], i, next, all);
        }
        i := i + 64;
      }
      CountOf(v[..k]);
    }

    method ExpandWord(v: array<nat>, n: nat, i: nat, k0: nat) returns (k: nat)
      requires Valid() && card == SMALL_SIZE && n <= MAX_SIZE && n <= v.Length && v != values
      requires k0 <= i < n && Lists(v[..k0], i, Elements())
      modifies v
      ensures k <= n && Valid() && Elements() == old(Elements())
      ensures Lists(v[..k], if i + 64 < n then i + 64 else n, Elements())
    {
      k := k0;
      ghost var all := Elements();
      var j := 0;
      while j < 64
        invariant 0 <= j <= 64 && i + j <= n && k <= i + j && Valid() && Elements() == all && Lists(v[..k], i + j, all)
      {
        var l := i + j;
        if l >= n { break; }
        ListStep(v[..k], l, all);
        ghost var before := v[..k];
        if GetBit(l) {
          v[k] := l;
          k := k + 1;
          assert v[..k] == before + [l];
        }
        j := j + 1;
      }
    }

    /** The elements of a small set, one by one. */
    method InsertAll(other: Set)
      requires Valid() && other.Valid() && other.card < SMALL_SIZE
      requires other == this || (values != other.values && bits != other.bits)
      modifies this`card, values, bits
      ensures Valid() && Elements() == old(Elements()) + old(other.Elements())
    {
      ghost var list := other.values[..other.card];
      var i := 0;
      while i < other.card
        invariant Valid() && other.card == |list| && other.values[..other.card] == list
        invariant 0 <= i <= |list| && Elements() == old(Elements()) + Keys(list[..i])
      {
        assert other.values[i] == list[i] && list[i] in Keys(list);
        Insert(other.values[i]);
        assert list[..i + 1] == list[..i] + [list[i]];
        i := i + 1;
      }
      assert list[..i] == list;
    }
  }

  /** The elements of `all` below `limit`, in order. */
  ghost predicate Lists(s: seq<nat>, limit: nat, all: set<nat>) {
    Increasing(s) && |s| <= limit && Keys(s) == set x | x in all && x < limit
  }

  lemma ListStep(s: seq<nat>, l: nat, all: set<nat>)
    requires Lists(s, l, all)
    ensures Lists(if l in all then s + [l] else s, l + 1, all)
  {
    var r := if l in all then s + [l] else s;
    forall x ensures x in r <==> x in all && x < l + 1 {
      assert x in s <==> x in Keys(s);
    }
    forall k | 0 <= k < |s| ensures s[k] < l { assert s[k] in Keys(s); }
    assert Keys(r) == set x | x in all && x < l + 1;
  }

  lemma ListSkip(s: seq<nat>, limit: nat, next: nat, all: set<nat>)
    requires Lists(s, limit, all) && limit <= next && forall x :: limit <= x < next ==> x !in all
    ensures Lists(s, next, all)
  {
    assert (set x | x in all && x < limit) == set x | x in all && x < next;
  }

  function Or(a: Word, b: Word): (r: Word)
    requires |a| == |b| == 64
    ensures |r| == 64 && forall k :: 0 <= k < 64 ==> r[k] == (a[k] || b[k])
  {
    seq(64, k requires 0 <= k < 64 => a[k] || b[k])
  }

  /** Putting `x` between smaller and larger elements. */
  lemma InsertedList(s: seq<nat>, i: nat, x: nat)
    requires Increasing(s) && i <= |s|
    requires (forall k :: 0 <= k < i ==> s[k] < x) && (forall k :: i <= k < |s| ==> x < s[k])
    ensures
      var r := s[..i] + [x] + s[i..];
      Increasing(r) && Keys(r) == Keys(s) + {x} && x !in Keys(s)
  {
    var r := s[..i] + [x] + s[i..];
    forall y ensures y in r <==> y in s || y == x {
      if y in s {
        var k :| 0 <= k < |s| && s[k] == y;
        assert r[if k < i then k else k + 1] == y;
      }
      if y == x { assert r[i] == x; }
    }
  }

  lemma InRange(before: seq<nat>, x: nat, after: seq<nat>)
    requires (forall k :: 0 <= k < |before| ==> before[k] < MAX_SIZE) && x < MAX_SIZE
    requires Keys(after) == Keys(before) + {x}
    ensures forall k :: 0 <= k < |after| ==> after[k] < MAX_SIZE
  {
    forall k | 0 <= k < |after| ensures after[k] < MAX_SIZE {
      assert after[k] in Keys(after);
    }
  }
}
