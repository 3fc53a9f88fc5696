/** Every register stage keeps RegInv, and RegInv gives read-after-write safety. */
module CoreRegistersProof {
  import opened CoreState
  import opened CoreRegisters

  // ---- The producer lists ----

  lemma {:induction false} WritersSplit(a: Rob, b: Rob, r: Reg)
    ensures Writers(a + b, r) == Writers(a, r) + Writers(b, r)
  {
    if a == [] {
      assert a + b == b;
    } else {
      assert (a + b)[1..] == a[1..] + b;
      WritersSplit(a[1..], b, r);
    }
  }

  lemma WritersAt(rob: Rob, i: nat, r: Reg)
    requires i < |rob|
    ensures Writers(rob, r) == Writers(rob[..i], r) + Writers([rob[i]], r) + Writers(rob[i + 1..], r)
    ensures Writers([rob[i]], r) == if Live(rob[i]) then Repeat(rob[i].id, Count(rob[i].destinations, r)) else []
  {
    assert rob == rob[..i] + ([rob[i]] + rob[i + 1..]);
    WritersSplit(rob[..i], [rob[i]] + rob[i + 1..], r);
    WritersSplit([rob[i]], rob[i + 1..], r);
  }

  lemma {:induction false} WritersSame(a: Rob, b: Rob, r: Reg)
    requires |a| == |b|
    requires forall i :: 0 <= i < |a| ==>
              a[i].id == b[i].id && Live(a[i]) == Live(b[i]) && a[i].destinations == b[i].destinations
    ensures Writers(a, r) == Writers(b, r)
  {
    if a == [] {
    } else {
      WritersSame(a[1..], b[1..], r);
    }
  }

  lemma {:induction false} WritersNone(rob: Rob, r: Reg)
    requires forall i :: 0 <= i < |rob| ==> Live(rob[i]) ==> r !in rob[i].destinations
    ensures Writers(rob, r) == []
  {
    if rob == [] {
    } else {
      CountZero(rob[0].destinations, r);
      WritersNone(rob[1..], r);
    }
  }

  lemma {:induction false} CountZero(regs: seq<Reg>, r: Reg)
    ensures Count(regs, r) == 0 <==> r !in regs
  {
    if regs == [] {
    } else {
      CountZero(regs[1..], r);
    }
  }

  lemma {:induction false} WritersMember(rob: Rob, r: Reg, id: Id) returns (k: nat)
    requires id in Writers(rob, r)
    ensures k < |rob| && rob[k].id == id && Live(rob[k]) && r in rob[k].destinations
  {
    var here := if Live(rob[0]) then Repeat(rob[0].id, Count(rob[0].destinations, r)) else [];
    if id in here {
      k := 0;
      CountZero(rob[0].destinations, r);
    } else {
      assert id in Writers(rob[1..], r);
      var k' := WritersMember(rob[1..], r, id);
      k := k' + 1;
    }
  }

  lemma {:induction false} CountSnoc(regs: seq<Reg>, x: Reg, r: Reg)
    ensures Count(regs + [x], r) == Count(regs, r) + if x == r then 1 else 0
  {
    if regs == [] {
    } else {
      assert (regs + [x])[1..] == regs[1..] + [x];
      CountSnoc(regs[1..], x, r);
    }
  }

  lemma InsertAtEnd(base: seq<Id>, id: Id, n: nat)
    requires forall x :: x in base ==> x < id
    ensures Insert(base + Repeat(id, n), id) == base + Repeat(id, n + 1)
  {
    var list := base + Repeat(id, n);
    var k := LowerBound(list, id);
    forall j | 0 <= j < |base| ensures list[j] < id {
      assert list[j] == base[j] && base[j] in base;
    }
    assert n > 0 ==> list[|base|] == id;
    assert k == |base|;
  }

  ghost predicate Rising(list: seq<Id>) {
    forall i, j :: 0 <= i < j < |list| ==> list[i] <= list[j]
  }

  lemma BetweenRises(a: seq<Id>, id: Id, b: seq<Id>)
    requires Rising(a + b) && (a != [] ==> a[|a| - 1] <= id) && (b != [] ==> id <= b[0])
    ensures Rising(a + [id] + b)
  {
    var list, r, k := a + b, a + [id] + b, |a|;
    assert forall i :: 0 <= i < k ==> r[i] == list[i] && (i < k - 1 ==> list[i] <= list[k - 1]);
    assert forall j :: k < j < |r| ==> r[j] == list[j - 1] && list[k] <= list[j - 1];
  }

  /** A producer list in program order stays so, wherever the new id belongs. */
  lemma InsertKeepsOrder(list: seq<Id>, id: Id)
    requires Rising(list)
    ensures Rising(Insert(list, id)) && multiset(Insert(list, id)) == multiset(list) + multiset{id}
  {
    var k := LowerBound(list, id);
    var a, b := list[..k], list[k..];
    assert list == a + b && Insert(list, id) == a + [id] + b;
    assert k > 0 ==> a[k - 1] == list[k - 1] < id;
    assert k < |list| ==> b[0] == list[k];
    hide Insert, LowerBound, Rising;
    BetweenRises(a, id, b);
  }

  lemma EraseFromMiddle(a: seq<Id>, id: Id, n: nat, b: seq<Id>)
    requires n > 0 && id !in a
    ensures Erase(a + Repeat(id, n) + b, id) == a + Repeat(id, n - 1) + b
  {
    var list := a + Repeat(id, n) + b;
    var k := FirstOf(list, id);
    assert list[|a|] == id;
    forall j | 0 <= j < |a| ensures list[j] != id {
      assert list[j] == a[j] && a[j] in a;
    }
    assert k == |a|;
  }

  /** Scheduling appends the writer once per mention to each producer list. */
  lemma {:induction false} EnlistAppends(
      base: Producers, now: Producers, id: Id, seen: seq<Reg>, dsts: seq<Reg>, r: Reg)
    requires forall q: Reg, x :: x in base[q] ==> x < id
    requires forall q: Reg :: now[q] == base[q] + Repeat(id, Count(seen, q))
    ensures Enlist(now, id, dsts)[r] == base[r] + Repeat(id, Count(seen + dsts, r))
    decreases |dsts|
  {
    if dsts == [] {
      assert seen + dsts == seen;
    } else {
      var d := dsts[0];
      InsertAtEnd(base[d], id, Count(seen, d));
      forall q: Reg ensures Count(seen + [d], q) == Count(seen, q) + if d == q then 1 else 0 {
        CountSnoc(seen, d, q);
      }
      EnlistAppends(base, now[d := Insert(now[d], id)], id, seen + [d], dsts[1..], r);
      assert seen + [d] + dsts[1..] == seen + dsts;
    }
  }

  /** Completion removes every mention of the writer and nothing else. */
  lemma {:induction false} DelistRemoves(a: Producers, b: Producers, now: Producers, id: Id, dsts: seq<Reg>, r: Reg)
    requires forall q: Reg :: id !in a[q]
    requires forall q: Reg :: now[q] == a[q] + Repeat(id, Count(dsts, q)) + b[q]
    ensures Delist(now, id, dsts)[r] == a[r] + b[r]
    decreases |dsts|
  {
    if dsts != [] {
      var d := dsts[0];
      EraseFromMiddle(a[d], id, Count(dsts, d), b[d]);
      DelistRemoves(a, b, now[d := Erase(now[d], id)], id, dsts[1..], r);
    } else {
      assert a[r] + Repeat(id, 0) + b[r] == a[r] + b[r];
    }
  }

  // ---- Scheduling ----

  function LinkFree(x: Instr): Instr {
    x.(dependents := [], waitsFor := 0)
  }

  /** `b` is `a` after instruction `i` joined some dependence lists of older, uncompleted
      instructions. */
  ghost predicate Joined(a: Rob, b: Rob, i: nat) {
    && i < |a| == |b|
    && (forall k :: 0 <= k < |a| ==> LinkFree(b[k]) == LinkFree(a[k]))
    && (forall k :: 0 <= k < |a| && k != i ==> b[k].waitsFor == a[k].waitsFor)
    && (forall k :: 0 <= k < |a| && b[k].dependents != a[k].dependents ==>
          k < i && a[k].executed != Completed && b[k].dependents == a[k].dependents + [a[i].id])
  }

  ghost predicate EndsItsLists(rob: Rob, i: nat)
    requires i < |rob|
  {
    forall j :: 0 <= j < |rob| && rob[i].id in rob[j].dependents ==>
      rob[j].dependents[|rob[j].dependents| - 1] == rob[i].id
  }

  ghost predicate CountsBlockers(rob: Rob, i: nat)
    requires i < |rob|
  {
    rob[i].waitsFor == |Blockers(rob, rob[i].id)|
  }

  /** The one change LinkOne can make, spelled out. */
  ghost predicate LinkedAt(a: Rob, b: Rob, p: nat, i: nat) {
    && p < |a| == |b| && i < |a| && p != i
    && b[p] == a[p].(dependents := a[p].dependents + [a[i].id])
    && b[i] == a[i].(waitsFor := a[i].waitsFor + 1)
    && forall k :: 0 <= k < |a| && k != p && k != i ==> b[k] == a[k]
  }

  ghost predicate OlderLast(rob: Rob, list: seq<Id>, i: nat) {
    list != [] ==> var p := Position(rob, list[|list| - 1]); p < i && p < |rob| && rob[p].executed != Completed
  }

  ghost predicate LinkOneResult(rob: Rob, rob': Rob, list: seq<Id>, i: nat)
    requires i < |rob| && OlderLast(rob, list, i)
  {
    if list == [] then rob' == rob
    else
      var p := Position(rob, list[|list| - 1]);
      if rob[p].dependents != [] && rob[p].dependents[|rob[p].dependents| - 1] == rob[i].id
      then rob' == rob else LinkedAt(rob, rob', p, i)
  }

  lemma LinkOneCases(rob: Rob, list: seq<Id>, i: nat)
    requires i < |rob| && OlderLast(rob, list, i)
    ensures LinkOneResult(rob, LinkOne(rob, list, i), list, i)
  {
  }

  lemma LinkedAtJoins(a: Rob, b: Rob, p: nat, i: nat)
    requires LinkedAt(a, b, p, i) && p < i && a[p].executed != Completed
    requires Ordered(a) && EndsItsLists(a, i) && a[i].id !in a[p].dependents
    ensures Joined(a, b, i) && EndsItsLists(b, i)
    ensures a[i].id in b[p].dependents
    ensures Blockers(b, a[i].id) == Blockers(a, a[i].id) + {a[p].id} && a[p].id !in Blockers(a, a[i].id)
  {
    var id := a[i].id;
    assert b[p].dependents[|a[p].dependents|] == id;
    assert id in b[p].dependents;
    forall k | 0 <= k < |a| && k != p ensures b[k].dependents == a[k].dependents && b[k].id == a[k].id { }
    assert b[p].id == a[p].id;
    JoinOneBlocker(a, b, p, id);
  }

  lemma LinkOneJoins(rob: Rob, rob': Rob, list: seq<Id>, i: nat)
    requires i < |rob| && Ordered(rob) && EndsItsLists(rob, i) && CountsBlockers(rob, i)
    requires OlderLast(rob, list, i) && LinkOneResult(rob, rob', list, i)
    ensures Joined(rob, rob', i) && EndsItsLists(rob', i) && CountsBlockers(rob', i)
    ensures list != [] ==> rob[i].id in rob'[Position(rob, list[|list| - 1])].dependents
    ensures forall k :: 0 <= k < |rob| && rob[i].id in rob[k].dependents ==> rob'[k].dependents == rob[k].dependents
  {
    if rob' != rob {
      var p := Position(rob, list[|list| - 1]);
      NewLinkJoins(rob, rob', p, i);
    }
  }

  lemma NewLinkJoins(rob: Rob, rob': Rob, p: nat, i: nat)
    requires i < |rob| && Ordered(rob) && EndsItsLists(rob, i) && CountsBlockers(rob, i)
    requires p < i && rob[p].executed != Completed && LinkedAt(rob, rob', p, i)
    requires rob[p].dependents == [] || rob[p].dependents[|rob[p].dependents| - 1] != rob[i].id
    ensures Joined(rob, rob', i) && EndsItsLists(rob', i) && CountsBlockers(rob', i)
    ensures rob[i].id in rob'[p].dependents
    ensures forall k :: 0 <= k < |rob| && rob[i].id in rob[k].dependents ==> rob'[k].dependents == rob[k].dependents
  {
    assert rob[i].id !in rob[p].dependents;
    LinkedAtJoins(rob, rob', p, i);
    hide EndsItsLists, Joined, Blockers;
  }

  lemma JoinOneBlocker(a: Rob, b: Rob, p: nat, id: Id)
    requires Ordered(a) && p < |a| == |b| && a[p].executed != Completed
    requires forall k :: 0 <= k < |a| ==> a[k].id == b[k].id && a[k].executed == b[k].executed
    requires forall k :: 0 <= k < |a| && k != p ==> b[k].dependents == a[k].dependents
    requires id in b[p].dependents && id !in a[p].dependents
    ensures Blockers(b, id) == Blockers(a, id) + {a[p].id} && a[p].id !in Blockers(a, id)
  {
  }

  lemma JoinedTrans(a: Rob, b: Rob, c: Rob, i: nat)
    requires Joined(a, b, i) && Joined(b, c, i)
    requires forall k :: 0 <= k < |b| && a[i].id in b[k].dependents ==> c[k].dependents == b[k].dependents
    ensures Joined(a, c, i)
  {
    forall k | 0 <= k < |b| && b[k].dependents != a[k].dependents ensures c[k].dependents == b[k].dependents {
      assert b[k].dependents[|a[k].dependents|] == a[i].id;
    }
    forall k | 0 <= k < |a| ensures LinkFree(c[k]) == LinkFree(a[k]) {
      assert LinkFree(b[k]) == LinkFree(a[k]);
      assert LinkFree(c[k]) == LinkFree(b[k]);
    }
    assert LinkFree(b[i]) == LinkFree(a[i]);
    forall k | 0 <= k < |a| && c[k].dependents != a[k].dependents
      ensures k < i && a[k].executed != Completed && c[k].dependents == a[k].dependents + [a[i].id]
    {
      assert LinkFree(b[k]) == LinkFree(a[k]);
    }
  }

  lemma JoinedKeepsIdentity(a: Rob, b: Rob, i: nat)
    requires Joined(a, b, i)
    ensures forall k :: 0 <= k < |a| ==>
      && b[k].id == a[k].id && b[k].executed == a[k].executed && b[k].scheduled == a[k].scheduled
      && b[k].sources == a[k].sources && b[k].destinations == a[k].destinations
    ensures Ordered(a) ==> Ordered(b)
    ensures forall id :: Position(b, id) == Position(a, id)
  {
    forall k | 0 <= k < |a|
      ensures b[k].id == a[k].id && b[k].executed == a[k].executed && b[k].scheduled == a[k].scheduled
           && b[k].sources == a[k].sources && b[k].destinations == a[k].destinations
    {
      assert LinkFree(b[k]) == LinkFree(a[k]);
    }
    forall id ensures Position(b, id) == Position(a, id) { PositionSame(a, b, id); }
  }

  ghost predicate ProducersOlder(rob: Rob, producers: Producers, i: nat) {
    forall q: Reg, x :: x in producers[q] ==>
        var p := Position(rob, x); p < i && p < |rob| && rob[p].executed != Completed
  }

  /** In `b`, instruction `i` is on the list of the last producer on `list`. */
  ghost predicate JoinsLast(a: Rob, b: Rob, list: seq<Id>, i: nat)
    requires i < |a|
  {
    list != [] ==>
      var p := Position(a, list[|list| - 1]);
      p < |b| && a[i].id in b[p].dependents
  }

  ghost predicate JoinsProducers(a: Rob, b: Rob, producers: Producers, i: nat, sources: seq<Reg>)
    requires i < |a|
  {
    forall q :: q in sources ==> JoinsLast(a, b, producers[q], i)
  }

  ghost predicate KeepsMember(a: Rob, b: Rob, id: Id) {
    |a| == |b| && forall k :: 0 <= k < |a| && id in a[k].dependents ==> id in b[k].dependents
  }

  lemma FirstSourceJoined(rob0: Rob, rob: Rob, next: Rob, producers: Producers, i: nat, q: Reg)
    requires Joined(rob0, rob, i) && Ordered(rob0) && EndsItsLists(rob, i) && CountsBlockers(rob, i)
    requires ProducersOlder(rob0, producers, i)
    requires OlderLast(rob, producers[q], i) && LinkOneResult(rob, next, producers[q], i)
    ensures Joined(rob0, next, i) && EndsItsLists(next, i) && CountsBlockers(next, i)
    ensures KeepsMember(rob, next, rob0[i].id) && JoinsLast(rob0, next, producers[q], i)
  {
    assert Ordered(rob) && rob[i].id == rob0[i].id && forall id :: Position(rob, id) == Position(rob0, id) by {
      JoinedKeepsIdentity(rob0, rob, i);
    }
    LinkOneJoins(rob, next, producers[q], i);
    assert Joined(rob0, next, i) by {
      JoinedTrans(rob0, rob, next, i);
    }
  }

  lemma OlderLastHere(rob0: Rob, rob: Rob, producers: Producers, i: nat, q: Reg)
    requires Joined(rob0, rob, i) && ProducersOlder(rob0, producers, i)
    ensures OlderLast(rob, producers[q], i)
  {
    JoinedKeepsIdentity(rob0, rob, i);
  }

  lemma {:induction false} LinkJoins(rob0: Rob, rob: Rob, producers: Producers, i: nat, sources: seq<Reg>)
    requires Joined(rob0, rob, i) && Ordered(rob0) && EndsItsLists(rob, i) && CountsBlockers(rob, i)
    requires ProducersOlder(rob0, producers, i)
    ensures var rob' := Link(rob, producers, i, sources);
      && Joined(rob0, rob', i) && EndsItsLists(rob', i) && CountsBlockers(rob', i)
      && KeepsMember(rob, rob', rob0[i].id) && JoinsProducers(rob0, rob', producers, i, sources)
    decreases |sources|
  {
    if sources == [] {
    } else {
      var next := LinkOne(rob, producers[sources[0]], i);
      OlderLastHere(rob0, rob, producers, i, sources[0]);
      LinkOneCases(rob, producers[sources[0]], i);
      FirstSourceJoined(rob0, rob, next, producers, i, sources[0]);
      LinkJoins(rob0, next, producers, i, sources[1..]);
      JoinsAll(rob0, next, Link(next, producers, i, sources[1..]), producers, i, sources);
    }
  }

  lemma JoinsAll(rob0: Rob, next: Rob, rob': Rob, producers: Producers, i: nat, sources: seq<Reg>)
    requires i < |rob0| && sources != []
    requires JoinsLast(rob0, next, producers[sources[0]], i) && KeepsMember(next, rob', rob0[i].id)
    requires JoinsProducers(rob0, rob', producers, i, sources[1..])
    ensures JoinsProducers(rob0, rob', producers, i, sources)
  {
    forall q | q in sources ensures JoinsLast(rob0, rob', producers[q], i) {
      assert q == sources[0] || q in sources[1..];
    }
  }

  lemma ListedAreLive(s: Regs, i: nat)
    requires RegInv(s) && i < |s.rob|
    requires forall k :: i <= k < |s.rob| ==> !s.rob[k].scheduled
    ensures ProducersOlder(s.rob, s.producers, i)
  {
    forall q: Reg, x | x in s.producers[q]
      ensures var p := Position(s.rob, x); p < i && p < |s.rob| && s.rob[p].executed != Completed
    {
      var k := WritersMember(s.rob, q, x);
      PositionOf(s.rob, k);
    }
  }

  lemma UnscheduledIsUnlisted(s: Regs, i: nat)
    requires RegInv(s) && i < |s.rob| && !s.rob[i].scheduled
    ensures forall k :: 0 <= k < |s.rob| ==> s.rob[i].id !in s.rob[k].dependents
    ensures Blockers(s.rob, s.rob[i].id) == {}
  {
    PositionOf(s.rob, i);
  }

  /** The last producer of `r` is the youngest scheduled, uncompleted writer. */
  lemma YoungestIsLast(rob: Rob, i: nat, r: Reg, j: nat)
    requires YoungestWriter(rob, i, r, j) && Live(rob[j])
    requires forall k :: i <= k < |rob| ==> !rob[k].scheduled
    ensures Writers(rob, r) != [] && Writers(rob, r)[|Writers(rob, r)| - 1] == rob[j].id
  {
    WritersAt(rob, j, r);
    WritersNone(rob[j + 1..], r);
    CountZero(rob[j].destinations, r);
  }

  lemma SchedulingProducers(s: Regs, i: nat, rob': Rob, r: Reg)
    requires RegInv(s) && i < |s.rob| && !s.rob[i].scheduled
    requires forall k :: 0 <= k < |s.rob| ==> (s.rob[k].scheduled <==> k < i)
    requires |rob'| == |s.rob| && rob'[i].scheduled && rob'[i].executed == s.rob[i].executed
    requires forall k :: 0 <= k < |s.rob| ==> rob'[k].id == s.rob[k].id && rob'[k].destinations == s.rob[k].destinations
    requires forall k :: 0 <= k < |s.rob| && k != i ==> Live(rob'[k]) == Live(s.rob[k])
    ensures Enlist(s.producers, s.rob[i].id, s.rob[i].destinations)[r] == Writers(rob', r)
  {
    var id, dsts := s.rob[i].id, s.rob[i].destinations;
    forall q: Reg, x | x in s.producers[q] ensures x < id {
      var k := WritersMember(s.rob, q, x);
    }
    EnlistAppends(s.producers, s.producers, id, [], dsts, r);
    assert [] + dsts == dsts;
    WritersAt(s.rob, i, r);
    WritersAt(rob', i, r);
    WritersSame(s.rob[..i], rob'[..i], r);
    WritersNone(s.rob[i + 1..], r);
    WritersNone(rob'[i + 1..], r);
  }

  lemma BlockersSame(a: Rob, b: Rob, id: Id)
    requires |a| == |b|
    requires forall k :: 0 <= k < |a| ==> b[k].id == a[k].id
    requires forall k :: 0 <= k < |a| ==>
               (b[k].executed != Completed && id in b[k].dependents <==>
                   a[k].executed != Completed && id in a[k].dependents)
    ensures Blockers(a, id) == Blockers(b, id)
  {
  }

  /** `b` is `a` after instruction `i`, the oldest unscheduled one, was scheduled. */
  ghost predicate ScheduledAt(a: Rob, b: Rob, i: nat) {
    && i < |a| == |b|
    && (forall k :: 0 <= k < |a| ==> b[k].id == a[k].id && b[k].executed == a[k].executed)
    && (forall k :: 0 <= k < |a| ==> b[k].sources == a[k].sources && b[k].destinations == a[k].destinations)
    && (forall k :: 0 <= k < |a| ==> (a[k].scheduled <==> k < i) && (b[k].scheduled <==> k <= i))
    && (forall k :: 0 <= k < |a| && k != i ==> b[k].waitsFor == a[k].waitsFor)
    && (forall k :: 0 <= k < |a| && b[k].dependents != a[k].dependents ==>
          k < i && a[k].executed != Completed && b[k].dependents == a[k].dependents + [a[i].id])
    && CountsBlockers(b, i)
  }

  lemma LinkedThenMarked(a: Rob, linked: Rob, b: Rob, producers: Producers, i: nat)
    requires i < |a| && Joined(a, linked, i) && CountsBlockers(linked, i) && |b| == |linked|
    requires JoinsProducers(a, linked, producers, i, a[i].sources)
    requires forall k :: 0 <= k < |a| ==> (a[k].scheduled <==> k < i)
    requires forall k :: 0 <= k < |a| && k != i ==> b[k] == linked[k]
    requires b[i] == linked[i].(scheduled := true, event := b[i].event)
    ensures ScheduledAt(a, b, i) && JoinsProducers(a, b, producers, i, a[i].sources)
  {
    JoinedKeepsIdentity(a, linked, i);
    BlockersSame(linked, b, a[i].id);
  }

  lemma SchedulingShape(s: Regs, i: nat, event: nat)
    requires RegInv(s) && i < |s.rob|
    requires forall k :: 0 <= k < |s.rob| ==> (s.rob[k].scheduled <==> k < i)
    ensures var rob' := DoScheduling(s, i, event).rob;
      && ScheduledAt(s.rob, rob', i)
      && JoinsProducers(s.rob, rob', s.producers, i, s.rob[i].sources)
  {
    ListedAreLive(s, i);
    UnscheduledIsUnlisted(s, i);
    LinkJoins(s.rob, s.rob, s.producers, i, s.rob[i].sources);
    var linked := Link(s.rob, s.producers, i, s.rob[i].sources);
    LinkedThenMarked(s.rob, linked, linked[i := linked[i].(scheduled := true, event := event)], s.producers, i);
  }

  lemma ScheduledLinks(a: Rob, b: Rob, i: nat)
    requires Ordered(a) && Links(a) && ScheduledAt(a, b, i)
    requires forall k :: 0 <= k < |a| ==> a[i].id !in a[k].dependents
    ensures Ordered(b) && Links(b)
  {
    ScheduledPlaces(a, b, i);
    ScheduledCounts(a, b, i);
  }

  lemma ScheduledPlaces(a: Rob, b: Rob, i: nat)
    requires Ordered(a) && Links(a) && ScheduledAt(a, b, i)
    requires forall k :: 0 <= k < |a| ==> a[i].id !in a[k].dependents
    ensures forall j :: 0 <= j < |b| ==> Distinct(b[j].dependents)
    ensures forall j, d :: 0 <= j < |b| && d in b[j].dependents ==>
              j < Position(b, d) < |b| && b[Position(b, d)].scheduled
  {
    ScheduledDistinct(a, b, i);
    hide Blockers, Distinct;
    PositionOf(b, i);
    forall j, d | 0 <= j < |b| && d in b[j].dependents ensures j < Position(b, d) < |b| && b[Position(b, d)].scheduled {
      PositionSame(a, b, d);
      if d !in a[j].dependents { assert d == a[i].id; }
    }
  }

  lemma ScheduledDistinct(a: Rob, b: Rob, i: nat)
    requires Links(a) && ScheduledAt(a, b, i) && forall k :: 0 <= k < |a| ==> a[i].id !in a[k].dependents
    ensures forall j :: 0 <= j < |b| ==> Distinct(b[j].dependents)
  {
    hide Blockers;
  }

  lemma ScheduledCounts(a: Rob, b: Rob, i: nat)
    requires Ordered(a) && ScheduledAt(a, b, i) && forall k :: 0 <= k < |a| ==> a[k].waitsFor == |Blockers(a, a[k].id)|
    ensures forall k :: 0 <= k < |b| ==> b[k].waitsFor == |Blockers(b, b[k].id)|
  {
    hide Blockers;
    forall k | 0 <= k < |b| && k != i ensures b[k].waitsFor == |Blockers(b, b[k].id)| {
      assert a[k].id != a[i].id;
      BlockersSame(a, b, a[k].id);
    }
  }

  lemma ScheduledRaw(s: Regs, b: Rob, i: nat)
    requires RegInv(s) && ScheduledAt(s.rob, b, i)
    requires JoinsProducers(s.rob, b, s.producers, i, s.rob[i].sources)
    ensures RawLinked(b)
  {
    var a := s.rob;
    forall k, r, j | 0 <= k < |b| && b[k].scheduled && r in b[k].sources && YoungestWriter(b, k, r, j)
      ensures b[j].executed == Completed || b[k].id in b[j].dependents
    {
      assert YoungestWriter(a, k, r, j);
      if k < i {
        assert a[k].scheduled;
        assert a[j].executed == Completed || a[k].id in a[j].dependents;
      } else if a[j].executed != Completed {
        YoungestIsLast(a, i, r, j);
        PositionOf(a, j);
        assert JoinsLast(a, b, s.producers[r], i);
      }
    }
  }

  lemma SchedulingKeeps(s: Regs, i: nat, event: nat)
    requires RegInv(s) && i < |s.rob|
    requires forall k :: 0 <= k < |s.rob| ==> (s.rob[k].scheduled <==> k < i)
    ensures var s' := DoScheduling(s, i, event);
      RegInv(s') && ScheduledAt(s.rob, s'.rob, i)
  {
    var s' := DoScheduling(s, i, event);
    SchedulingShape(s, i, event);
    UnscheduledIsUnlisted(s, i);
    ScheduledLinks(s.rob, s'.rob, i);
    ScheduledRaw(s, s'.rob, i);
    forall r: Reg ensures s'.producers[r] == Writers(s'.rob, r) {
      SchedulingProducers(s, i, s'.rob, r);
    }
  }

  // ---- Completion ----

  lemma {:induction false} ReleaseShape(rob: Rob, dependents: seq<Id>, k: nat)
    requires Ordered(rob) && Distinct(dependents) && k < |rob|
    ensures Release(rob, dependents)[k] == if rob[k].id in dependents then ReleaseOne(rob[k]) else rob[k]
    decreases |dependents|
  {
    if dependents == [] {
    } else {
      var d, rest := dependents[0], dependents[1..];
      var p := Position(rob, d);
      var next := if p < |rob| then rob[p := ReleaseOne(rob[p])] else rob;
      forall x ensures x in dependents <==> x == d || x in rest { }
      forall m | 0 <= m < |rest| ensures rest[m] != d {
        assert rest[m] == dependents[m + 1];
      }
      ReleaseShape(next, rest, k);
    }
  }

  /** `b` is `a` after the inflight instruction `i` completed. */
  ghost predicate CompletedAt(a: Rob, b: Rob, i: nat) {
    && i < |a| == |b| && a[i].executed == Inflight
    && b[i] == a[i].(executed := Completed)
    && forall k :: 0 <= k < |a| && k != i ==>
         b[k] == if a[k].id in a[i].dependents then ReleaseOne(a[k]) else a[k]
  }

  lemma CompletionShape(s: Regs, i: nat)
    requires RegInv(s) && i < |s.rob| && s.rob[i].executed == Inflight
    ensures CompletedAt(s.rob, DoCompleteExecution(s, i).rob, i)
  {
    var done := s.rob[i := s.rob[i].(executed := Completed)];
    PositionOf(s.rob, i);
    assert s.rob[i].id !in s.rob[i].dependents;
    forall k | 0 <= k < |s.rob| ensures Release(done, s.rob[i].dependents)[k] ==
      if done[k].id in s.rob[i].dependents then ReleaseOne(done[k]) else done[k]
    {
      ReleaseShape(done, s.rob[i].dependents, k);
    }
  }

  /** Nothing still waits on fewer than zero instructions, and whoever was waiting on
      the completed instruction had not started. */
  lemma ReleasedWereWaiting(rob: Rob, i: nat, k: nat)
    requires Ordered(rob) && StatusInOrder(rob) && Links(rob)
    requires i < |rob| && k < |rob| && rob[i].executed == Inflight && rob[k].id in rob[i].dependents
    ensures i < k && rob[k].scheduled && rob[k].executed == Idle && rob[k].waitsFor >= 1
    ensures |Blockers(rob, rob[k].id) - {rob[i].id}| == rob[k].waitsFor - 1
  {
    PositionOf(rob, k);
    assert rob[i].id in Blockers(rob, rob[k].id);
  }

  lemma CompletedLinks(a: Rob, b: Rob, i: nat)
    requires Ordered(a) && StatusInOrder(a) && Links(a) && CompletedAt(a, b, i)
    ensures Ordered(b) && StatusInOrder(b) && Links(b)
    ensures forall k :: 0 <= k < |a| ==> b[k].scheduled == a[k].scheduled
  {
    CompletedFields(a, b, i);
    forall k | 0 <= k < |b| ensures b[k].waitsFor == |Blockers(b, b[k].id)| {
      CompletedBlockers(a, b, i, k);
    }
    forall j, d | 0 <= j < |b| && d in b[j].dependents ensures j < Position(b, d) < |b| && b[Position(b, d)].scheduled {
      PositionSame(a, b, d);
    }
  }

  lemma CompletedBlockers(a: Rob, b: Rob, i: nat, k: nat)
    requires Ordered(a) && StatusInOrder(a) && Links(a) && CompletedAt(a, b, i) && k < |b|
    ensures b[k].waitsFor == |Blockers(b, b[k].id)|
  {
    CompletedFields(a, b, i);
    assert Blockers(b, b[k].id) == Blockers(a, a[k].id) - {a[i].id};
    if a[k].id in a[i].dependents {
      ReleasedWereWaiting(a, i, k);
      PositionOf(a, i);
      assert k != i;
    } else {
      assert a[i].id !in Blockers(a, a[k].id);
    }
  }

  lemma CompletedFields(a: Rob, b: Rob, i: nat)
    requires Ordered(a) && StatusInOrder(a) && Links(a) && CompletedAt(a, b, i)
    ensures forall k :: 0 <= k < |a| ==> b[k].id == a[k].id && b[k].dependents == a[k].dependents
    ensures forall k :: 0 <= k < |a| ==> b[k].sources == a[k].sources && b[k].destinations == a[k].destinations
    ensures forall k :: 0 <= k < |a| ==> b[k].scheduled == a[k].scheduled
    ensures forall k :: 0 <= k < |a| && k != i ==> b[k].executed == a[k].executed
    ensures Ordered(b) && StatusInOrder(b)
  {
    forall k | 0 <= k < |a| && k != i && a[k].id in a[i].dependents
      ensures b[k].scheduled == a[k].scheduled && b[k].executed == Idle
    {
      ReleasedWereWaiting(a, i, k);
    }
  }

  lemma WritersAround(rob: Rob, i: nat, q: Reg)
    requires Ordered(rob) && i < |rob| && Live(rob[i])
    ensures rob[i].id !in Writers(rob[..i], q)
    ensures Writers(rob, q) ==
              Writers(rob[..i], q) + Repeat(rob[i].id, Count(rob[i].destinations, q)) + Writers(rob[i + 1..], q)
  {
    WritersAt(rob, i, q);
    if rob[i].id in Writers(rob[..i], q) {
      var k := WritersMember(rob[..i], q, rob[i].id);
    }
  }

  lemma WritersWithout(a: Rob, b: Rob, i: nat, r: Reg)
    requires i < |a| == |b| && !Live(b[i])
    requires forall k :: 0 <= k < |a| ==> b[k].id == a[k].id && b[k].destinations == a[k].destinations
    requires forall k :: 0 <= k < |a| && k != i ==> Live(b[k]) == Live(a[k])
    ensures Writers(b, r) == Writers(a[..i], r) + Writers(a[i + 1..], r)
  {
    WritersAt(b, i, r);
    WritersSame(a[..i], b[..i], r);
    WritersSame(a[i + 1..], b[i + 1..], r);
  }

  lemma CompletionProducers(s: Regs, i: nat, r: Reg)
    requires RegInv(s) && i < |s.rob| && Live(s.rob[i])
    ensures Delist(s.producers, s.rob[i].id, s.rob[i].destinations)[r] ==
            Writers(s.rob[..i], r) + Writers(s.rob[i + 1..], r)
  {
    var id, dsts := s.rob[i].id, s.rob[i].destinations;
    var older, younger := s.rob[..i], s.rob[i + 1..];
    var a: Producers := seq(REGISTERS, q requires 0 <= q < REGISTERS => Writers(older, q));
    var b: Producers := seq(REGISTERS, q requires 0 <= q < REGISTERS => Writers(younger, q));
    forall q: Reg ensures id !in a[q] && s.producers[q] == a[q] + Repeat(id, Count(dsts, q)) + b[q] {
      WritersAround(s.rob, i, q);
    }
    DelistRemoves(a, b, s.producers, id, dsts, r);
  }

  lemma CompletionKeeps(s: Regs, i: nat)
    requires RegInv(s) && i < |s.rob| && s.rob[i].executed == Inflight
    ensures var s' := DoCompleteExecution(s, i);
      RegInv(s') && CompletedAt(s.rob, s'.rob, i)
  {
    var s' := DoCompleteExecution(s, i);
    CompletionShape(s, i);
    CompletedLinks(s.rob, s'.rob, i);
    CompletedFields(s.rob, s'.rob, i);
    CompletedRaw(s.rob, s'.rob, i);
    forall r: Reg ensures s'.producers[r] == Writers(s'.rob, r) {
      CompletionProducers(s, i, r);
      WritersWithout(s.rob, s'.rob, i, r);
    }
  }

  lemma CompletedRaw(a: Rob, b: Rob, i: nat)
    requires Ordered(a) && StatusInOrder(a) && Links(a) && RawLinked(a) && CompletedAt(a, b, i)
    ensures RawLinked(b)
  {
    CompletedFields(a, b, i);
    forall k, r, j | 0 <= k < |b| && b[k].scheduled && r in b[k].sources && YoungestWriter(b, k, r, j)
      ensures b[j].executed == Completed || b[k].id in b[j].dependents
    {
      assert YoungestWriter(a, k, r, j);
    }
  }

  // ---- Execution, dispatch, retirement, and stages that touch no register state ----

  /** Read-after-write safety: an instruction that no longer waits for anyone finds the
      youngest older writer of each of its sources completed. */
  ghost predicate SourcesReady(rob: Rob, i: int) {
    forall r, j :: 0 <= i < |rob| && r in rob[i].sources && YoungestWriter(rob, i, r, j) ==>
        rob[j].executed == Completed
  }

  lemma NotWaitingIsReady(s: Regs, i: nat)
    requires RegInv(s) && i < |s.rob| && s.rob[i].scheduled && s.rob[i].waitsFor == 0
    ensures SourcesReady(s.rob, i)
  {
    forall r, j | r in s.rob[i].sources && YoungestWriter(s.rob, i, r, j) ensures s.rob[j].executed == Completed {
      assert s.rob[j].executed != Completed ==> s.rob[j].id in Blockers(s.rob, s.rob[i].id);
    }
  }

  /** The oldest uncompleted instruction never waits on a register. */
  lemma OldestNeverWaits(s: Regs, i: nat)
    requires RegInv(s) && i < |s.rob|
    requires forall k :: 0 <= k < i ==> s.rob[k].executed == Completed
    ensures s.rob[i].waitsFor == 0
  {
    forall j | j in Blockers(s.rob, s.rob[i].id) ensures false {
      var k :| 0 <= k < |s.rob| && s.rob[k].executed != Completed
               && s.rob[i].id in s.rob[k].dependents && s.rob[k].id == j;
      PositionOf(s.rob, i);
    }
    assert Blockers(s.rob, s.rob[i].id) == {};
  }

  /** What RegInv looks at, except for whether an instruction has started. */
  ghost predicate SameRegisterState(a: Rob, b: Rob) {
    && |a| == |b|
    && (forall k :: 0 <= k < |a| ==>
          b[k].id == a[k].id && b[k].scheduled == a[k].scheduled && b[k].waitsFor == a[k].waitsFor)
    && (forall k :: 0 <= k < |a| ==> b[k].sources == a[k].sources && b[k].destinations == a[k].destinations)
    && (forall k :: 0 <= k < |a| ==> b[k].dependents == a[k].dependents)
    && (forall k :: 0 <= k < |a| ==> (b[k].executed == Completed <==> a[k].executed == Completed))
    && (forall k :: 0 <= k < |a| && b[k].executed != Idle ==>
          a[k].executed != Idle || (a[k].scheduled && a[k].waitsFor == 0))
  }

  lemma RegInvFrame(a: Regs, b: Regs)
    requires RegInv(a) && SameRegisterState(a.rob, b.rob) && a.producers == b.producers
    ensures RegInv(b)
  {
    forall r: Reg ensures b.producers[r] == Writers(b.rob, r) {
      WritersSame(a.rob, b.rob, r);
    }
    forall k | 0 <= k < |b.rob| ensures b.rob[k].waitsFor == |Blockers(b.rob, b.rob[k].id)| {
      BlockersSame(a.rob, b.rob, a.rob[k].id);
    }
    forall j, d | 0 <= j < |b.rob| && d in b.rob[j].dependents
      ensures j < Position(b.rob, d) < |b.rob| && b.rob[Position(b.rob, d)].scheduled
    {
      PositionSame(a.rob, b.rob, d);
    }
    forall k, r, j | 0 <= k < |b.rob| && b.rob[k].scheduled && r in b.rob[k].sources && YoungestWriter(b.rob, k, r, j)
      ensures b.rob[j].executed == Completed || b.rob[k].id in b.rob[j].dependents
    {
      assert YoungestWriter(a.rob, k, r, j);
    }
  }

  /** A newly dispatched instruction: nothing about it has been scheduled yet. */
  predicate Fresh(x: Instr) {
    !x.scheduled && x.executed == Idle && x.waitsFor == 0 && x.dependents == []
  }

  lemma PositionAppend(rob: Rob, x: Instr, d: Id)
    ensures Position(rob, d) < |rob| ==> Position(rob + [x], d) == Position(rob, d)
  {
    var p, q := Position(rob, d), Position(rob + [x], d);
    assert p < |rob| ==> (rob + [x])[p].id == d;
    assert q < |rob| ==> rob[q].id == d;
  }

  lemma DispatchLinks(rob: Rob, x: Instr)
    requires Ordered(rob) && Links(rob) && Fresh(x)
    requires forall k :: 0 <= k < |rob| ==> rob[k].id < x.id
    ensures Ordered(rob + [x]) && Links(rob + [x])
  {
    var rob' := rob + [x];
    forall j, d | 0 <= j < |rob'| && d in rob'[j].dependents
      ensures j < Position(rob', d) < |rob'| && rob'[Position(rob', d)].scheduled
    {
      assert rob'[j] == rob[j];
      PositionAppend(rob, x, d);
    }
    DispatchCounts(rob, x);
  }

  lemma DispatchCounts(rob: Rob, x: Instr)
    requires Ordered(rob) && Links(rob) && Fresh(x)
    requires forall k :: 0 <= k < |rob| ==> rob[k].id < x.id
    ensures forall k :: 0 <= k < |rob + [x]| ==> (rob + [x])[k].waitsFor == |Blockers(rob + [x], (rob + [x])[k].id)|
  {
    var rob' := rob + [x];
    assert forall m :: 0 <= m < |rob| ==> rob[m] == rob'[m];
    forall k | 0 <= k < |rob'| ensures rob'[k].waitsFor == |Blockers(rob', rob'[k].id)| {
      assert Blockers(rob', rob'[k].id) == Blockers(rob, rob'[k].id);
      if k == |rob| {
        assert Position(rob, x.id) == |rob|;
        assert Blockers(rob, x.id) == {};
      }
    }
  }

  lemma DispatchKeeps(s: Regs, x: Instr)
    requires RegInv(s) && Fresh(x)
    requires forall k :: 0 <= k < |s.rob| ==> s.rob[k].id < x.id
    ensures RegInv(Regs(s.rob + [x], s.producers))
  {
    var rob' := s.rob + [x];
    assert forall m :: 0 <= m < |s.rob| ==> s.rob[m] == rob'[m];
    forall r: Reg ensures s.producers[r] == Writers(rob', r) {
      WritersSplit(s.rob, [x], r);
    }
    DispatchLinks(s.rob, x);
    forall k, r, j | 0 <= k < |rob'| && rob'[k].scheduled && r in rob'[k].sources && YoungestWriter(rob', k, r, j)
      ensures rob'[j].executed == Completed || rob'[k].id in rob'[j].dependents
    {
      assert YoungestWriter(s.rob, k, r, j);
    }
  }

  lemma PositionDrop(rob: Rob, n: nat, d: Id)
    requires n <= Position(rob, d)
    ensures Position(rob[n..], d) == Position(rob, d) - n
  {
    var p, q := Position(rob, d), Position(rob[n..], d);
    assert p < |rob| ==> rob[n..][p - n].id == d;
    assert q < |rob| - n ==> rob[n + q].id == d;
  }

  lemma RetireLinks(rob: Rob, n: nat)
    requires Ordered(rob) && Links(rob) && n <= |rob|
    requires forall k :: 0 <= k < n ==> rob[k].executed == Completed
    ensures Links(rob[n..])
  {
    var rob' := rob[n..];
    forall j, d | 0 <= j < |rob'| && d in rob'[j].dependents
      ensures j < Position(rob', d) < |rob'| && rob'[Position(rob', d)].scheduled
    {
      assert rob'[j] == rob[j + n];
      assert j + n < Position(rob, d) < |rob| && rob[Position(rob, d)].scheduled;
      PositionDrop(rob, n, d);
    }
    forall k | 0 <= k < |rob'| ensures rob'[k].waitsFor == |Blockers(rob', rob'[k].id)| {
      RetireBlockers(rob, n, rob'[k].id);
    }
  }

  lemma RetireRaw(rob: Rob, n: nat)
    requires RawLinked(rob) && n <= |rob|
    ensures RawLinked(rob[n..])
  {
    var rob' := rob[n..];
    forall k, r, j | 0 <= k < |rob'| && rob'[k].scheduled && r in rob'[k].sources && YoungestWriter(rob', k, r, j)
      ensures rob'[j].executed == Completed || rob'[k].id in rob'[j].dependents
    {
      YoungestWriterShift(rob, n, k, r, j);
    }
  }

  lemma RetireKeeps(s: Regs, n: nat)
    requires RegInv(s) && n <= |s.rob|
    requires forall k :: 0 <= k < n ==> s.rob[k].executed == Completed
    ensures RegInv(Regs(s.rob[n..], s.producers))
  {
    var rob' := s.rob[n..];
    forall r: Reg ensures s.producers[r] == Writers(rob', r) {
      assert s.rob == s.rob[..n] + rob';
      WritersSplit(s.rob[..n], rob', r);
      WritersNone(s.rob[..n], r);
    }
    RetireLinks(s.rob, n);
    RetireRaw(s.rob, n);
  }

  lemma YoungestWriterShift(rob: Rob, n: nat, k: int, r: Reg, j: int)
    requires n <= |rob| && YoungestWriter(rob[n..], k, r, j)
    ensures YoungestWriter(rob, k + n, r, j + n)
  {
    forall m | j + n < m < k + n ensures r !in rob[m].destinations {
      assert rob[m] == rob[n..][m - n];
    }
  }

  lemma RetireBlockers(rob: Rob, n: nat, d: Id)
    requires n <= |rob| && forall k :: 0 <= k < n ==> rob[k].executed == Completed
    ensures Blockers(rob[n..], d) == Blockers(rob, d)
  {
    forall x | x in Blockers(rob, d) ensures x in Blockers(rob[n..], d) {
      var j :| 0 <= j < |rob| && rob[j].executed != Completed && d in rob[j].dependents && rob[j].id == x;
      assert rob[n..][j - n] == rob[j];
    }
  }
}
