/** The set-associative LRU table: stamps on slots implement the most-recent-first lists. */
module LruTable {
  import opened Options
  import opened Recency

  /** A slot is in use if its stamp is not zero. */
  datatype Slot = Slot(lastUsed: nat, elem: Elem)

  const EMPTY := Slot(0, Elem(0, 0))

  /** The first slot in use with this tag. */
  function FindMatch(slots: seq<Slot>, tag: nat, k: nat): (r: nat)
    requires k <= |slots|
    ensures k <= r <= |slots|
    ensures r < |slots| ==> slots[r].lastUsed > 0 && slots[r].elem.tag == tag
    ensures forall i :: k <= i < r ==> !(slots[i].lastUsed > 0 && slots[i].elem.tag == tag)
    decreases |slots| - k
  {
    if k == |slots| || (slots[k].lastUsed > 0 && slots[k].elem.tag == tag) then k else FindMatch(slots, tag, k + 1)
  }

  /** The comparator; two unused slots are each less than the other. */
  predicate Less(x: Slot, y: Slot, tag: nat) {
    x.lastUsed == 0
    || (y.lastUsed > 0
        && ((x.elem.tag != tag && y.elem.tag == tag)
            || ((x.elem.tag == tag) == (y.elem.tag == tag) && x.lastUsed < y.lastUsed)))
  }

  /** std::minmax_element from slot `k` on, two slots at a time: positions of the least and the greatest. */
  function MinMaxFrom(s: seq<Slot>, tag: nat, min: nat, max: nat, k: nat): (r: (nat, nat))
    requires min < |s| && max < |s| && k <= |s|
    ensures r.0 < |s| && r.1 < |s|
    decreases |s| - k
  {
    if k == |s| then (min, max)
    else if k + 1 == |s| then
      if Less(s[k], s[min], tag) then (k, max)
      else if !Less(s[k], s[max], tag) then (min, k)
      else (min, max)
    else if Less(s[k + 1], s[k], tag) then
      MinMaxFrom(s, tag, if Less(s[k + 1], s[min], tag) then k + 1 else min,
                 if !Less(s[k], s[max], tag) then k else max, k + 2)
    else
      MinMaxFrom(s, tag, if Less(s[k], s[min], tag) then k else min,
                 if !Less(s[k + 1], s[max], tag) then k + 1 else max, k + 2)
  }

  function MinMax(s: seq<Slot>, tag: nat): (r: (nat, nat))
    requires s != []
    ensures r.0 < |s| && r.1 < |s|
  {
    if |s| == 1 then (0, 0)
    else if Less(s[1], s[0], tag) then MinMaxFrom(s, tag, 1, 0, 2)
    else MinMaxFrom(s, tag, 0, 1, 2)
  }

  /** The order behind the comparator: unused, then other tags by age, then this tag. */
  predicate AtMost(x: Slot, y: Slot, tag: nat) {
    x.lastUsed == 0
    || (y.lastUsed > 0
        && ((x.elem.tag != tag && y.elem.tag == tag)
            || ((x.elem.tag == tag) == (y.elem.tag == tag) && x.lastUsed <= y.lastUsed)))
  }

  ghost predicate Extremes(s: seq<Slot>, tag: nat, m: (nat, nat), n: nat) {
    && m.0 < |s| && m.1 < |s| && n <= |s|
    && forall i :: 0 <= i < n ==> AtMost(s[m.0], s[i], tag) && AtMost(s[i], s[m.1], tag)
  }

  lemma {:induction false} MinMaxFromSelects(s: seq<Slot>, tag: nat, min: nat, max: nat, k: nat)
    requires 0 < k <= |s| && Extremes(s, tag, (min, max), k)
    ensures Extremes(s, tag, MinMaxFrom(s, tag, min, max, k), |s|)
    decreases |s| - k
  {
    if k + 1 < |s| {
      if Less(s[k + 1], s[k], tag) {
        MinMaxFromSelects(s, tag, if Less(s[k + 1], s[min], tag) then k + 1 else min,
                          if !Less(s[k], s[max], tag) then k else max, k + 2);
      } else {
        MinMaxFromSelects(s, tag, if Less(s[k], s[min], tag) then k else min,
                          if !Less(s[k + 1], s[max], tag) then k + 1 else max, k + 2);
      }
    } else if k + 1 == |s| {
      assert AtMost(s[min], s[0], tag) && AtMost(s[0], s[max], tag);
    }
  }

  /** The scan finds a least and a greatest slot although its comparator is not irreflexive. */
  lemma MinMaxSelects(s: seq<Slot>, tag: nat)
    requires s != []
    ensures Extremes(s, tag, MinMax(s, tag), |s|)
  {
    if |s| > 1 {
      if Less(s[1], s[0], tag) { MinMaxFromSelects(s, tag, 1, 0, 2); } else { MinMaxFromSelects(s, tag, 0, 1, 2); }
    }
  }

  // ---- Slots and lists ----

  /** `order` lists each of the `n` ways once. */
  ghost predicate Permutes(order: seq<nat>, n: nat) {
    && |order| == n
    && (forall k :: 0 <= k < n ==> order[k] < n)
    && (forall i, j :: 0 <= i < j < n ==> order[i] != order[j])
    && (forall w :: 0 <= w < n ==> w in order)
  }

  /** Ways in `order`: the used ones by age, youngest first, then the unused; `l` is what they hold. */
  ghost predicate ByAge(slots: seq<Slot>, order: seq<nat>, l: Recent, clock: nat)
    requires |order| == |slots| && forall k :: 0 <= k < |slots| ==> order[k] < |slots|
  {
    && |l| <= |order| && Distinct(l)
    && (forall k :: 0 <= k < |order| ==> slots[order[k]].lastUsed <= clock)
    && (forall k :: 0 <= k < |order| ==> (slots[order[k]].lastUsed > 0 <==> k < |l|))
    && (forall k :: 0 <= k < |l| ==> slots[order[k]].elem == l[k])
    && (forall i, j :: 0 <= i < j < |l| ==> slots[order[i]].lastUsed > slots[order[j]].lastUsed)
  }

  ghost predicate Shows(slots: seq<Slot>, order: seq<nat>, l: Recent, clock: nat) {
    Permutes(order, |slots|) && ByAge(slots, order, l, clock)
  }

  function Front(order: seq<nat>, j: nat): seq<nat>
    requires j < |order|
  {
    [order[j]] + order[..j] + order[j + 1..]
  }

  function Back(order: seq<nat>, j: nat): seq<nat>
    requires j < |order|
  {
    order[..j] + order[j + 1..] + [order[j]]
  }

  lemma {:induction false} WithoutAt(l: Recent, j: nat, tag: nat)
    requires Distinct(l) && j < |l| && l[j].tag == tag
    ensures Lookup(l, tag) == Some(l[j])
    ensures Without(l, tag) == l[..j] + l[j + 1..]
  {
    if j == 0 {
      assert forall e :: e in l[1..] ==> e.tag != tag;
      WithoutShorter(l[1..], tag);
    } else {
      WithoutAt(l[1..], j - 1, tag);
      assert l[..j] + l[j + 1..] == [l[0]] + (l[1..][..j - 1] + l[1..][j..]);
    }
  }

  lemma FrontPermutes(order: seq<nat>, n: nat, j: nat)
    requires Permutes(order, n) && j < n
    ensures Permutes(Front(order, j), n)
  {
    forall w | 0 <= w < n ensures w in Front(order, j) {
      assert w in order;
      var k :| 0 <= k < |order| && order[k] == w;
      assert Front(order, j)[if k == j then 0 else if k < j then k + 1 else k] == w;
    }
  }

  lemma BackPermutes(order: seq<nat>, n: nat, j: nat)
    requires Permutes(order, n) && j < n
    ensures Permutes(Back(order, j), n)
  {
    forall w | 0 <= w < n ensures w in Back(order, j) {
      assert w in order;
      var k :| 0 <= k < |order| && order[k] == w;
      assert Back(order, j)[if k == j then n - 1 else if k < j then k else k - 1] == w;
    }
  }

  lemma SwapPermutes(order: seq<nat>, n: nat, i: nat, j: nat)
    requires Permutes(order, n) && i < n && j < n
    ensures Permutes(order[i := order[j]][j := order[i]], n)
  {
    var order' := order[i := order[j]][j := order[i]];
    forall w | 0 <= w < n ensures w in order' {
      assert w in order;
      var k :| 0 <= k < |order| && order[k] == w;
      assert order'[if k == j then i else if k == i then j else k] == w;
    }
  }

  /** Stamping the slot at position `j` moves it to the front. */
  lemma StampShows(slots: seq<Slot>, order: seq<nat>, l: Recent, clock: nat, j: nat, e: Elem, l': Recent)
    requires Shows(slots, order, l, clock) && j < |order| && j <= |l| && Distinct(l')
    requires l' == [e] + if j < |l| then l[..j] + l[j + 1..] else l
    ensures Shows(slots[order[j] := Slot(clock + 1, e)], Front(order, j), l', clock + 1)
  {
    FrontPermutes(order, |slots|, j);
    StampByAge(slots, order, l, clock, j, e, l', slots[order[j] := Slot(clock + 1, e)], Front(order, j));
  }

  ghost predicate Indices(order: seq<nat>, n: nat) {
    |order| == n && forall k :: 0 <= k < n ==> order[k] < n
  }

  lemma StampByAge(
      slots: seq<Slot>, order: seq<nat>, l: Recent, clock: nat, j: nat, e: Elem, l': Recent, slots': seq<Slot>,
      order': seq<nat>)
    requires Indices(order, |slots|) && ByAge(slots, order, l, clock) && j < |order| && j <= |l| && Distinct(l')
    requires forall k :: 0 <= k < |order| && k != j ==> order[k] != order[j]
    requires l' == [e] + if j < |l| then l[..j] + l[j + 1..] else l
    requires slots' == slots[order[j] := Slot(clock + 1, e)] && order' == Front(order, j) && Indices(order', |slots'|)
    ensures ByAge(slots', order', l', clock + 1)
  {
    hide Distinct;
    forall k | 0 < k < |order'|
      ensures slots'[order'[k]] == slots[order[if k <= j then k - 1 else k]]
    {
    }
    assert slots'[order'[0]] == Slot(clock + 1, e);
  }

  /** Any unused slot may stand first among the unused. */
  lemma SwapUnused(slots: seq<Slot>, order: seq<nat>, l: Recent, clock: nat, j: nat)
    requires Shows(slots, order, l, clock) && |l| <= j < |order|
    ensures Shows(slots, order[|l| := order[j]][j := order[|l|]], l, clock)
  {
    SwapPermutes(order, |slots|, |l|, j);
  }

  lemma ClearShows(slots: seq<Slot>, order: seq<nat>, l: Recent, clock: nat, j: nat)
    requires Shows(slots, order, l, clock) && j < |l|
    ensures Shows(slots[order[j] := EMPTY], Back(order, j), l[..j] + l[j + 1..], clock)
  {
    BackPermutes(order, |slots|, j);
    ClearByAge(slots, order, l, clock, j, slots[order[j] := EMPTY], Back(order, j));
  }

  lemma ClearByAge(
      slots: seq<Slot>, order: seq<nat>, l: Recent, clock: nat, j: nat, slots': seq<Slot>, order': seq<nat>)
    requires Indices(order, |slots|) && ByAge(slots, order, l, clock) && j < |l|
    requires forall k :: 0 <= k < |order| && k != j ==> order[k] != order[j]
    requires slots' == slots[order[j] := EMPTY] && order' == Back(order, j) && Indices(order', |slots'|)
    ensures ByAge(slots', order', l[..j] + l[j + 1..], clock)
  {
    forall k | 0 <= k < |order'| - 1
      ensures slots'[order'[k]] == slots[order[if k < j then k else k + 1]]
    {
    }
    assert slots'[order'[|order'| - 1]] == EMPTY;
  }

  /** Where a matching slot stands in the list; without one the list has no such tag. */
  lemma MatchPosition(slots: seq<Slot>, order: seq<nat>, l: Recent, clock: nat, tag: nat) returns (j: nat)
    requires Shows(slots, order, l, clock)
    ensures
      var w := FindMatch(slots, tag, 0);
      (w < |slots| ==> j < |l| && order[j] == w && l[j].tag == tag) && (w == |slots| ==> Lookup(l, tag).None?)
  {
    var w := FindMatch(slots, tag, 0);
    j := 0;
    if w < |slots| {
      assert w in order;
      j :| 0 <= j < |order| && order[j] == w;
    } else {
      assert forall k :: 0 <= k < |l| ==> slots[order[k]].elem.tag != tag && slots[order[k]].elem == l[k];
    }
  }

  // ---- The three operations on one set ----

  function HitSlots(slots: seq<Slot>, tag: nat, clock: nat): seq<Slot> {
    var w := FindMatch(slots, tag, 0);
    if w == |slots| then slots else slots[w := slots[w].(lastUsed := clock + 1)]
  }

  function FillSlots(slots: seq<Slot>, e: Elem, clock: nat): seq<Slot> {
    if slots == [] then slots
    else
      var m := MinMax(slots, e.tag);
      slots[(if slots[m.1].elem.tag == e.tag then m.1 else m.0) := Slot(clock + 1, e)]
  }

  function ClearSlots(slots: seq<Slot>, tag: nat): seq<Slot> {
    var w := FindMatch(slots, tag, 0);
    if w == |slots| then slots else slots[w := EMPTY]
  }

  lemma HitRefines(slots: seq<Slot>, order: seq<nat>, l: Recent, clock: nat, tag: nat) returns (order': seq<nat>)
    requires Shows(slots, order, l, clock)
    ensures Shows(HitSlots(slots, tag, clock), order', Next(l, CheckHit(tag), |slots|).0, clock + 1)
    ensures
      var w := FindMatch(slots, tag, 0);
      && Next(l, CheckHit(tag), |slots|).1 == (if w == |slots| then None else Some(slots[w].elem))
      && (w == |slots| ==> Next(l, CheckHit(tag), |slots|).0 == l)
  {
    var j := MatchPosition(slots, order, l, clock, tag);
    order' := order;
    if FindMatch(slots, tag, 0) < |slots| {
      order' := Front(order, j);
      WithoutAt(l, j, tag);
      NextKeeps(l, CheckHit(tag), |slots|);
      StampShows(slots, order, l, clock, j, l[j], Next(l, CheckHit(tag), |slots|).0);
    }
  }

  lemma ClearRefines(slots: seq<Slot>, order: seq<nat>, l: Recent, clock: nat, tag: nat) returns (order': seq<nat>)
    requires Shows(slots, order, l, clock)
    ensures Shows(ClearSlots(slots, tag), order', Next(l, Invalidate(tag), |slots|).0, clock)
    ensures
      var w := FindMatch(slots, tag, 0);
      Next(l, Invalidate(tag), |slots|).1 == if w == |slots| then None else Some(slots[w].elem)
  {
    var j := MatchPosition(slots, order, l, clock, tag);
    order' := order;
    if FindMatch(slots, tag, 0) < |slots| {
      order' := Back(order, j);
      WithoutAt(l, j, tag);
      ClearShows(slots, order, l, clock, j);
    } else {
      WithoutShorter(l, tag);
    }
  }

  /** Which slot a fill takes: the one with the tag, else an unused one, else the least recently used. */
  lemma FillPosition(slots: seq<Slot>, order: seq<nat>, l: Recent, clock: nat, tag: nat, w: nat) returns (j: nat)
    requires Shows(slots, order, l, clock) && slots != []
    requires w == if slots[MinMax(slots, tag).1].elem.tag == tag then MinMax(slots, tag).1 else MinMax(slots, tag).0
    ensures j < |order| && order[j] == w
    ensures Lookup(l, tag).Some? ==> j < |l| && l[j].tag == tag
    ensures Lookup(l, tag).None? ==> if |l| < |slots| then |l| <= j else j == |l| - 1
  {
    var m := MinMax(slots, tag);
    MinMaxSelects(slots, tag);
    assert w in order;
    j :| 0 <= j < |order| && order[j] == w;
    if Lookup(l, tag).Some? {
      var k :| 0 <= k < |l| && l[k] == Lookup(l, tag).value;
      assert AtMost(slots[order[k]], slots[m.1], tag);
    } else {
      assert forall k :: 0 <= k < |l| ==> l[k] in l && slots[order[k]].elem.tag != tag;
      if |l| < |slots| {
        assert AtMost(slots[m.0], slots[order[|l|]], tag);
      } else {
        assert AtMost(slots[m.0], slots[order[|l| - 1]], tag);
      }
    }
  }

  lemma FillRefines(slots: seq<Slot>, order: seq<nat>, l: Recent, clock: nat, e: Elem) returns (order': seq<nat>)
    requires Shows(slots, order, l, clock)
    ensures Shows(FillSlots(slots, e, clock), order', Next(l, Fill(e), |slots|).0, if slots == [] then clock
              else clock + 1)
  {
    hide Permutes, MinMax, Less;
    var l' := Next(l, Fill(e), |slots|).0;
    ShownList(slots, order, l, clock);
    NextKeeps(l, Fill(e), |slots|);
    if slots == [] {
      order' := order;
      assert l' == [];
    } else {
      var m := MinMax(slots, e.tag);
      var w := if slots[m.1].elem.tag == e.tag then m.1 else m.0;
      var j := FillPosition(slots, order, l, clock, e.tag, w);
      order' := FillAt(slots, order, l, clock, e, j, l');
    }
  }

  lemma ShownList(slots: seq<Slot>, order: seq<nat>, l: Recent, clock: nat)
    requires Shows(slots, order, l, clock)
    ensures Distinct(l) && |l| <= |slots| == |order|
  {
  }

  lemma FillAt(
      slots: seq<Slot>, order: seq<nat>, l: Recent, clock: nat, e: Elem, j: nat, l': Recent) returns (order': seq<nat>)
    requires Shows(slots, order, l, clock) && j < |order| && l' == Next(l, Fill(e), |slots|).0 && Distinct(l')
    requires Lookup(l, e.tag).Some? ==> j < |l| && l[j].tag == e.tag
    requires Lookup(l, e.tag).None? ==> if |l| < |slots| then |l| <= j else j == |l| - 1
    ensures Shows(slots[order[j] := Slot(clock + 1, e)], order', l', clock + 1)
  {
    hide Permutes, ByAge;
    ShownList(slots, order, l, clock);
    WithoutShorter(l, e.tag);
    if Lookup(l, e.tag).None? && |l| < |slots| {
      SwapUnused(slots, order, l, clock, j);
      var swapped := order[|l| := order[j]][j := order[|l|]];
      order' := Front(swapped, |l|);
      StampShows(slots, swapped, l, clock, |l|, e, l');
    } else {
      order' := Front(order, j);
      if Lookup(l, e.tag).Some? { WithoutAt(l, j, e.tag); }
      assert l' == [e] + l[..j] + l[j + 1..];
      StampShows(slots, order, l, clock, j, e, l');
    }
  }

  lemma LaterShows(slots: seq<Slot>, order: seq<nat>, l: Recent, clock: nat)
    requires Shows(slots, order, l, clock)
    ensures Shows(slots, order, l, clock + 1)
  {
  }

  // ---- The table ----

  class Table {
    const ways: nat
    const index: nat -> nat
    var accessCount: nat
    var block: seq<seq<Slot>>
    /** What each set holds, most recently used first. */
    ghost var recent: seq<Recent>
    ghost var orders: seq<seq<nat>>

    ghost predicate Valid()
      reads this
    {
      && |block| == |recent| == |orders| > 0
      && forall s :: 0 <= s < |block| ==> |block[s]| == ways && Shows(block[s], orders[s], recent[s], accessCount)
    }

    /** `index` gives the set of a tag, before masking: equal tags are in the same set. */
    constructor (sets: nat, ways: nat, index: nat -> nat)
      requires sets > 0
      ensures Valid() && this.ways == ways && this.index == index
      ensures recent == seq(sets, _ => [])
    {
      this.ways, this.index := ways, index;
      accessCount := 0;
      block := seq(sets, _ => seq(ways, _ => EMPTY));
      recent := seq(sets, _ => []);
      orders := seq(sets, _ => seq(ways, k => k));
      new;
      forall s | 0 <= s < sets ensures Shows(block[s], orders[s], recent[s], 0) {
        forall w | 0 <= w < ways ensures w in orders[s] {
          assert orders[s][w] == w;
        }
      }
    }

    function SetOf(tag: nat): (s: nat)
      reads this
      requires |block| > 0
      ensures s < |block|
    {
      index(tag) % |block|
    }

    method CheckHit(tag: nat) returns (r: Option<Elem>)
      requires Valid()
      modifies this
      ensures Valid()
      ensures recent == Step(old(recent), Op.CheckHit(tag), ways, index)
      ensures r == Answer(old(recent), Op.CheckHit(tag), ways, index)
    {
      hide Permutes, ByAge, Next;
      var s := SetOf(tag);
      var hit := FindMatch(block[s], tag, 0);
      ghost var order := HitRefines(block[s], orders[s], recent[s], accessCount, tag);
      forall i | 0 <= i < |block| ensures Shows(block[i], orders[i], recent[i], accessCount + 1) {
        LaterShows(block[i], orders[i], recent[i], accessCount);
      }
      if hit == |block[s]| {
        r := None;
        assert recent == recent[s := recent[s]];
      } else {
        r := Some(block[s][hit].elem);
        accessCount := accessCount + 1;
        block := block[s := block[s][hit := block[s][hit].(lastUsed := accessCount)]];
        recent := recent[s := Next(recent[s], Op.CheckHit(tag), ways).0];
        orders := orders[s := order];
      }
    }

    method Fill(e: Elem)
      requires Valid()
      modifies this
      ensures Valid()
      ensures recent == Step(old(recent), Op.Fill(e), ways, index)
    {
      hide Permutes, ByAge, Next, MinMax;
      var s := SetOf(e.tag);
      ghost var order := FillRefines(block[s], orders[s], recent[s], accessCount, e);
      forall i | 0 <= i < |block| ensures Shows(block[i], orders[i], recent[i], accessCount + 1) {
        LaterShows(block[i], orders[i], recent[i], accessCount);
      }
      recent := recent[s := Next(recent[s], Op.Fill(e), ways).0];
      orders := orders[s := order];
      if block[s] != [] {
        var m := MinMax(block[s], e.tag);
        accessCount := accessCount + 1;
        if block[s][m.1].elem.tag == e.tag {
          block := block[s := block[s][m.1 := Slot(accessCount, e)]];
        } else {
          block := block[s := block[s][m.0 := Slot(accessCount, e)]];
        }
      }
    }

    method Invalidate(tag: nat) returns (r: Option<Elem>)
      requires Valid()
      modifies this
      ensures Valid()
      ensures recent == Step(old(recent), Op.Invalidate(tag), ways, index)
      ensures r == Answer(old(recent), Op.Invalidate(tag), ways, index)
    {
      var s := SetOf(tag);
      var hit := FindMatch(block[s], tag, 0);
      ghost var order := ClearRefines(block[s], orders[s], recent[s], accessCount, tag);
      recent := recent[s := Next(recent[s], Op.Invalidate(tag), ways).0];
      orders := orders[s := order];
      if hit == |block[s]| {
        r := None;
      } else {
        r := Some(block[s][hit].elem);
        block := block[s := block[s][hit := EMPTY]];
      }
    }
  }
}
