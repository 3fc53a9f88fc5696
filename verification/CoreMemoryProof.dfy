/** Every memory stage keeps MemInv, and MemInv gives the ordering of loads and stores. */
module CoreMemoryProof {
  import opened Options
  import opened CoreState
  import opened Scans
  import opened CoreMemory

  ghost predicate SameIds(a: Rob, b: Rob) {
    |a| == |b| && forall k :: 0 <= k < |a| ==> b[k].id == a[k].id
  }

  lemma SameIdsPositions(a: Rob, b: Rob)
    requires SameIds(a, b)
    ensures forall id :: Position(b, id) == Position(a, id)
    ensures Ordered(a) ==> Ordered(b)
  {
    forall id ensures Position(b, id) == Position(a, id) { PositionSame(a, b, id); }
  }

  /** The binary search for an instruction that is present finds exactly that one. */
  lemma SearchFinds(rob: Rob, id: Id)
    requires Ordered(rob) && Position(rob, id) < |rob|
    ensures First(rob, NotBelow(id)) == Position(rob, id)
  {
    var p, q := Position(rob, id), First(rob, NotBelow(id));
    assert NotBelow(id)(rob[p]);
    assert q <= p;
    assert NotBelow(id)(rob[q]) && rob[q].id >= id;
  }

  lemma FinishCredits(rob: Rob, id: Id)
    requires Ordered(rob) && Position(rob, id) < |rob|
    ensures var p := Position(rob, id); Finish(rob, id) == rob[p := rob[p].(memDone := rob[p].memDone + 1)]
    ensures SameIds(rob, Finish(rob, id))
  {
    SearchFinds(rob, id);
  }

  lemma QueueInvRob(m: Mem, rob': Rob)
    requires QueueInv(m) && SameIds(m.rob, rob')
    ensures QueueInv(m.(rob := rob'))
  {
    SameIdsPositions(m.rob, rob');
  }

  // ---- Loads that finish ----

  /** Crediting a load and freeing its slot conserves operations. */
  lemma CreditLoad(m: Mem, k: nat, i: int, due: int)
    requires Ordered(m.rob) && Conserved(m, i, due)
    requires k < |m.lq| && m.lq[k].Some? && Position(m.rob, m.lq[k].value.id) < |m.rob|
    ensures Conserved(Mem(Finish(m.rob, m.lq[k].value.id), m.lq[k := None], m.sq), i, due)
  {
    var id := m.lq[k].value.id;
    FinishCredits(m.rob, id);
    forall q | 0 <= q < |m.rob|
      ensures LoadsOf(m.lq[k := None], m.rob[q].id) + (if m.rob[q].id == id then 1 else 0) == LoadsOf(m.lq, m.rob[q].id)
    {
      TallyUpdate(m.lq, k, None, IsLoadOf(m.rob[q].id));
    }
  }

  /** The store queue without slot `k` on its waiting lists. */
  ghost predicate SameStores(a: StoreQueue, b: StoreQueue) {
    && |a| == |b|
    && forall j :: 0 <= j < |a| ==> b[j].id == a[j].id && b[j].addr == a[j].addr && b[j].finished == a[j].finished
  }

  lemma ConservedStores(m: Mem, sq: StoreQueue, i: int, due: int)
    requires Conserved(m, i, due) && SameStores(m.sq, sq)
    ensures Conserved(m.(sq := sq), i, due)
  {
    forall k | 0 <= k < |m.rob| ensures OpenStoresOf(sq, m.rob[k].id) == OpenStoresOf(m.sq, m.rob[k].id) {
      TallySame(m.sq, sq, IsOpenStoreOf(m.rob[k].id));
    }
  }

  /** Freeing a slot no unfinished store lists keeps the queues consistent. */
  lemma FreeSlotKeeps(m: Mem, k: nat)
    requires QueueInv(m) && k < |m.lq| && m.lq[k].Some?
    requires forall j :: !WaitsOn(m.lq, m.sq, k, j)
    ensures QueueInv(m.(lq := m.lq[k := None]))
  {
    var lq := m.lq[k := None];
    forall j, a | 0 <= j < |m.sq| && !m.sq[j].finished && 0 <= a < |m.sq[j].waiting| ensures m.sq[j].waiting[a] != k {
      assert m.sq[j].waiting[a] == k ==> WaitsOn(m.lq, m.sq, k, j);
    }
    forall q | 0 <= q < |lq| && lq[q].Some? && lq[q].value.producer.Some? ensures exists j :: WaitsOn(lq, m.sq, q, j) {
      var j :| WaitsOn(m.lq, m.sq, q, j);
      assert WaitsOn(lq, m.sq, q, j);
    }
    forall q, j, j' | WaitsOn(lq, m.sq, q, j) && WaitsOn(lq, m.sq, q, j') ensures j == j' {
      assert WaitsOn(m.lq, m.sq, q, j) && WaitsOn(m.lq, m.sq, q, j');
    }
  }

  /** What credits to memory operations leave alone. */
  ghost predicate Credited(a: Rob, b: Rob) {
    && |a| == |b|
    && (forall k :: 0 <= k < |a| ==> b[k] == a[k].(memDone := b[k].memDone))
    && (forall k :: 0 <= k < |a| ==> b[k].memDone >= a[k].memDone)
  }

  lemma FinishOnlyCredits(rob: Rob, id: Id)
    ensures Credited(rob, Finish(rob, id))
  {
  }

  lemma CreditedTrans(a: Rob, b: Rob, c: Rob)
    requires Credited(a, b) && Credited(b, c)
    ensures Credited(a, c)
  {
    forall k | 0 <= k < |a| ensures c[k] == a[k].(memDone := c[k].memDone) {
      assert b[k] == a[k].(memDone := b[k].memDone);
    }
  }

  /** Credits never exceed what was asked for, so completed instructions stay done. */
  lemma CompletedStayDone(m: Mem, m': Mem)
    requires CompletedAreDone(m.rob) && Credited(m.rob, m'.rob) && Conserved(m', 0, 0)
    ensures CompletedAreDone(m'.rob)
  {
    forall k | 0 <= k < |m'.rob| && m'.rob[k].executed == Completed ensures m'.rob[k].memDone == m'.rob[k].MemOps() {
      assert m'.rob[k] == m.rob[k].(memDone := m'.rob[k].memDone);
    }
  }

  /** A load whose slot no unfinished store lists can be credited and freed. */
  lemma RetireLoad(m: Mem, k: nat, i: int, due: int)
    requires QueueInv(m) && Conserved(m, i, due) && k < |m.lq| && m.lq[k].Some?
    requires forall j :: !WaitsOn(m.lq, m.sq, k, j)
    ensures var m' := Mem(Finish(m.rob, m.lq[k].value.id), m.lq[k := None], m.sq);
      QueueInv(m') && Conserved(m', i, due) && Credited(m.rob, m'.rob) && SameIds(m.rob, m'.rob)
  {
    var id := m.lq[k].value.id;
    FreeSlotKeeps(m, k);
    FinishCredits(m.rob, id);
    QueueInvRob(m.(lq := m.lq[k := None]), Finish(m.rob, id));
    CreditLoad(m, k, i, due);
    FinishOnlyCredits(m.rob, id);
  }

  lemma IssuedIsUnlisted(m: Mem, k: nat)
    requires QueueInv(m) && k < |m.lq| && m.lq[k].Some? && m.lq[k].value.issued
    ensures forall j :: !WaitsOn(m.lq, m.sq, k, j)
  {
  }

  lemma {:induction false} ReturnBlockKeeps(m: Mem, k: nat, block: nat, blockSize: nat)
    requires QueueInv(m) && Conserved(m, 0, 0) && k <= |m.lq| && blockSize > 0
    ensures var (rob, lq) := ReturnBlock(m.rob, m.lq, k, block, blockSize);
      QueueInv(Mem(rob, lq, m.sq)) && Conserved(Mem(rob, lq, m.sq), 0, 0) && Credited(m.rob, rob)
    decreases |m.lq| - k
  {
    if k == |m.lq| {
    } else if Answers(m.lq[k], block, blockSize) {
      var next := Mem(Finish(m.rob, m.lq[k].value.id), m.lq[k := None], m.sq);
      IssuedIsUnlisted(m, k);
      RetireLoad(m, k, 0, 0);
      var (rob, lq) := ReturnBlock(next.rob, next.lq, k + 1, block, blockSize);
      assert ReturnBlock(m.rob, m.lq, k, block, blockSize) == (rob, lq);
      ReturnBlockKeeps(next, k + 1, block, blockSize);
      CreditedTrans(m.rob, next.rob, rob);
    } else {
      assert ReturnBlock(m.rob, m.lq, k, block, blockSize) == ReturnBlock(m.rob, m.lq, k + 1, block, blockSize);
      ReturnBlockKeeps(m, k + 1, block, blockSize);
    }
  }

  lemma {:induction false} ReturnBlocksKeeps(m: Mem, blocks: seq<nat>, blockSize: nat)
    requires MemInv(m) && blockSize > 0
    ensures var (rob, lq) := ReturnBlocks(m.rob, m.lq, blocks, blockSize);
      MemInv(Mem(rob, lq, m.sq)) && Credited(m.rob, rob)
    decreases |blocks|
  {
    if blocks == [] {
    } else {
      var (rob1, lq1) := ReturnBlock(m.rob, m.lq, 0, blocks[0], blockSize);
      var next := Mem(rob1, lq1, m.sq);
      ReturnBlockKeeps(m, 0, blocks[0], blockSize);
      CompletedStayDone(m, next);
      ReturnBlocksKeeps(next, blocks[1..], blockSize);
      CreditedTrans(m.rob, rob1, ReturnBlocks(rob1, lq1, blocks[1..], blockSize).0);
    }
  }

  // ---- Stores that finish ----

  /** `m` seen with the waiting list of store `j` cut down to `waiting`. */
  function WithWaiting(m: Mem, j: nat, waiting: seq<nat>): Mem
    requires j < |m.sq|
  {
    m.(sq := m.sq[j := m.sq[j].(waiting := waiting)])
  }

  /** Dropping the head of a waiting list and its load together keeps the queues
      consistent. */
  lemma ServeOne(m: Mem, j: nat, i: int, due: int)
    requires QueueInv(m) && Conserved(m, i, due) && j < |m.sq| && !m.sq[j].finished && m.sq[j].waiting != []
    ensures var k := m.sq[j].waiting[0];
      k < |m.lq| && m.lq[k].Some? && m.lq[k].value.producer == Some(m.sq[j].id) &&
      var m' :=
          Mem(Finish(m.rob, m.lq[k].value.id), m.lq[k := None], m.sq[j := m.sq[j].(waiting := m.sq[j].waiting[1..])]);
      QueueInv(m') && Conserved(m', i, due) && Credited(m.rob, m'.rob) && SameIds(m.rob, m'.rob)
  {
    hide Conserved, Finish;
    ServeLinks(m.lq, m.sq, j);
    ServeOneCredits(m, j, i, due);
    ServeOneQueues(m, j);
  }

  lemma ServeOneCredits(m: Mem, j: nat, i: int, due: int)
    requires QueueInv(m) && Conserved(m, i, due) && j < |m.sq| && !m.sq[j].finished && m.sq[j].waiting != []
    ensures var k := m.sq[j].waiting[0];
      k < |m.lq| && m.lq[k].Some? && m.lq[k].value.producer == Some(m.sq[j].id) &&
      var m' :=
          Mem(Finish(m.rob, m.lq[k].value.id), m.lq[k := None], m.sq[j := m.sq[j].(waiting := m.sq[j].waiting[1..])]);
      Conserved(m', i, due) && Credited(m.rob, m'.rob) && SameIds(m.rob, m'.rob)
  {
    var k := m.sq[j].waiting[0];
    var id := m.lq[k].value.id;
    var rob := Finish(m.rob, id);
    CreditLoad(m, k, i, due);
    ConservedStores(Mem(rob, m.lq[k := None], m.sq), m.sq[j := m.sq[j].(waiting := m.sq[j].waiting[1..])], i, due);
    FinishOnlyCredits(m.rob, id);
  }

  lemma ServeOneQueues(m: Mem, j: nat)
    requires QueueInv(m) && j < |m.sq| && !m.sq[j].finished && m.sq[j].waiting != []
    ensures var k := m.sq[j].waiting[0];
      k < |m.lq| && m.lq[k].Some? &&
      QueueInv(Mem(Finish(m.rob, m.lq[k].value.id), m.lq[k := None],
          m.sq[j := m.sq[j].(waiting := m.sq[j].waiting[1..])]))
  {
    var k := m.sq[j].waiting[0];
    var id := m.lq[k].value.id;
    var sq' := m.sq[j := m.sq[j].(waiting := m.sq[j].waiting[1..])];
    FinishOnlyCredits(m.rob, id);
    SameIdsPositions(m.rob, Finish(m.rob, id));
    ServeLinks(m.lq, m.sq, j);
    hide WaitingLinked, Finish;
    var lq' := m.lq[k := None];
    forall q | 0 <= q < |lq'| && lq'[q].Some? ensures NoYoungerMatch(lq'[q].value, sq') {
      assert NoYoungerMatch(m.lq[q].value, m.sq);
    }
  }

  lemma ServeLinks(lq: LoadQueue, sq: StoreQueue, j: nat)
    requires WaitingLinked(lq, sq) && j < |sq| && !sq[j].finished && sq[j].waiting != []
    ensures sq[j].waiting[0] < |lq|
    ensures WaitingLinked(lq[sq[j].waiting[0] := None], sq[j := sq[j].(waiting := sq[j].waiting[1..])])
  {
    var w := sq[j].waiting;
    var k := w[0];
    var lq', sq' := lq[k := None], sq[j := sq[j].(waiting := w[1..])];
    assert WaitsOn(lq, sq, k, j);
    forall q, a | WaitsOn(lq', sq', q, a) ensures WaitsOn(lq, sq, q, a) && q != k {
      if a == j {
        var b :| 0 <= b < |w[1..]| && w[1..][b] == q;
        assert w[b + 1] == q && sq[j].waiting[0] != sq[j].waiting[b + 1];
      } else {
        assert WaitsOn(lq, sq, q, a);
      }
    }
    forall a, b | 0 <= a < |sq'| && !sq'[a].finished && 0 <= b < |sq'[a].waiting|
      ensures sq'[a].waiting[b] != k && sq'[a].waiting[b] < |lq|
    {
      assert sq'[a].waiting[b] in sq'[a].waiting;
      if sq'[a].waiting[b] < |lq| { assert WaitsOn(lq', sq', sq'[a].waiting[b], a); }
      if a == j { assert sq'[a].waiting[b] == w[b + 1]; }
    }
    forall q | 0 <= q < |lq'| && lq'[q].Some? && lq'[q].value.producer.Some?
      ensures exists a :: WaitsOn(lq', sq', q, a)
    {
      var a :| WaitsOn(lq, sq, q, a);
      if a == j {
        var b :| 0 <= b < |w| && w[b] == q;
        assert w[1..][b - 1] == q;
      }
      assert WaitsOn(lq', sq', q, a);
    }
  }

  lemma {:induction false} ServeAll(m: Mem, j: nat, i: int, due: int)
    requires QueueInv(m) && Conserved(m, i, due) && j < |m.sq| && !m.sq[j].finished
    ensures var (rob, lq) := Serve(m.rob, m.lq, m.sq[j].waiting);
      var m' := Mem(rob, lq, m.sq[j := m.sq[j].(waiting := [])]);
      QueueInv(m') && Conserved(m', i, due) && Credited(m.rob, rob) && SameIds(m.rob, rob)
    decreases |m.sq[j].waiting|
  {
    var w := m.sq[j].waiting;
    if w == [] {
      assert m.sq[j := m.sq[j].(waiting := [])] == m.sq;
    } else {
      var k := w[0];
      ServeOne(m, j, i, due);
      var next := Mem(Finish(m.rob, m.lq[k].value.id), m.lq[k := None], m.sq[j := m.sq[j].(waiting := w[1..])]);
      var (rob, lq) := Serve(next.rob, next.lq, w[1..]);
      assert Serve(m.rob, m.lq, w) == (rob, lq);
      ServeAll(next, j, i, due);
      CreditedTrans(m.rob, next.rob, rob);
      assert next.sq[j := next.sq[j].(waiting := [])] == m.sq[j := m.sq[j].(waiting := [])];
    }
  }

  /** A store with nobody left to serve can be marked finished. */
  lemma MarkFinished(m: Mem, j: nat, sq': StoreQueue)
    requires QueueInv(m) && j < |m.sq| == |sq'| && !m.sq[j].finished && m.sq[j].waiting == []
    requires forall b :: 0 <= b < j ==> m.sq[b].finished
    requires forall b :: 0 <= b < |m.sq| && b != j ==> sq'[b] == m.sq[b]
    requires sq'[j].finished && sq'[j].id == m.sq[j].id && sq'[j].addr == m.sq[j].addr
    ensures QueueInv(m.(sq := sq'))
  {
    forall k | 0 <= k < |m.lq| && m.lq[k].Some? ensures NoYoungerMatch(m.lq[k].value, sq') {
      assert NoYoungerMatch(m.lq[k].value, m.sq);
    }
    forall k | 0 <= k < |m.lq| && m.lq[k].Some? && m.lq[k].value.producer.Some?
      ensures exists a :: WaitsOn(m.lq, sq', k, a)
    {
      var a :| WaitsOn(m.lq, m.sq, k, a);
      assert WaitsOn(m.lq, sq', k, a);
    }
    forall k, a, b | WaitsOn(m.lq, sq', k, a) && WaitsOn(m.lq, sq', k, b) ensures a == b {
      assert WaitsOn(m.lq, m.sq, k, a) && WaitsOn(m.lq, m.sq, k, b);
    }
  }

  lemma CreditStore(m: Mem, j: nat)
    requires QueueInv(m) && Conserved(m, 0, 0) && j < |m.sq| && !m.sq[j].finished
    ensures var m' := m.(rob := Finish(m.rob, m.sq[j].id));
      QueueInv(m') && Conserved(m', Position(m.rob, m.sq[j].id), -1) && Credited(m.rob, m'.rob)
  {
    FinishCredits(m.rob, m.sq[j].id);
    FinishOnlyCredits(m.rob, m.sq[j].id);
    QueueInvRob(m, Finish(m.rob, m.sq[j].id));
  }

  lemma CloseStore(m: Mem, j: nat, sq': StoreQueue)
    requires Ordered(m.rob) && j < |m.sq| == |sq'| && !m.sq[j].finished && Position(m.rob, m.sq[j].id) < |m.rob|
    requires Conserved(m, Position(m.rob, m.sq[j].id), -1)
    requires sq'[j].finished && forall b :: 0 <= b < |m.sq| && b != j ==> sq'[b] == m.sq[b]
    ensures Conserved(m.(sq := sq'), 0, 0)
  {
    var id := m.sq[j].id;
    assert sq' == m.sq[j := sq'[j]];
    forall q | 0 <= q < |m.rob|
      ensures OpenStoresOf(sq', m.rob[q].id) + (if m.rob[q].id == id then 1 else 0) == OpenStoresOf(m.sq, m.rob[q].id)
    {
      TallyUpdate(m.sq, j, sq'[j], IsOpenStoreOf(m.rob[q].id));
    }
    PositionOf(m.rob, Position(m.rob, id));
  }

  lemma FinishStoreKeeps(m: Mem, j: nat, now: nat)
    requires MemInv(m) && j < |m.sq| && !m.sq[j].finished
    requires forall b :: 0 <= b < j ==> m.sq[b].finished
    ensures var m' := DoFinishStore(m, j, now);
      MemInv(m') && Credited(m.rob, m'.rob)
  {
    var store := m.sq[j];
    var p := Position(m.rob, store.id);
    var m1 := m.(rob := Finish(m.rob, store.id));
    CreditStore(m, j);
    ServeAll(m1, j, p, -1);
    var (rob, lq) := Serve(m1.rob, m1.lq, store.waiting);
    var m2 := Mem(rob, lq, m.sq[j := store.(waiting := [])]);
    var m' := DoFinishStore(m, j, now);
    assert m' == Mem(rob, lq, m.sq[j := store.(finished := true, event := now)]);
    SameIdsPositions(m.rob, m1.rob);
    SameIdsPositions(m1.rob, rob);
    MarkFinished(m2, j, m'.sq);
    CloseStore(m2, j, m'.sq);
    CreditedTrans(m.rob, m1.rob, rob);
    CompletedStayDone(m, m');
  }

  /** What finishing stores does to the store queue itself. */
  lemma FinishMarksStore(m: Mem, j: nat, now: nat)
    requires j < |m.sq|
    ensures DoFinishStore(m, j, now).sq == m.sq[j := m.sq[j].(finished := true, event := now)]
  {
  }

  lemma {:induction false} FinishStoresMarks(m: Mem, from: nat, n: nat, now: nat, m': Mem)
    requires from + n <= |m.sq| && m' == FinishStores(m, from, n, now)
    ensures forall b :: from <= b < from + n ==> m'.sq[b] == m.sq[b].(finished := true, event := now)
    ensures forall b :: 0 <= b < |m.sq| && !(from <= b < from + n) ==> m'.sq[b] == m.sq[b]
    decreases n
  {
    hide DoFinishStore;
    if n == 0 {
    } else {
      var next := DoFinishStore(m, from, now);
      FinishMarksStore(m, from, now);
      FinishStoresMarks(next, from + 1, n - 1, now, m');
    }
  }

  lemma {:induction false} FinishStoresKeeps(m: Mem, from: nat, n: nat, now: nat, m': Mem)
    requires MemInv(m) && from + n <= |m.sq|
    requires forall b :: 0 <= b < from ==> m.sq[b].finished
    requires forall b :: from <= b < from + n ==> !m.sq[b].finished
    requires m' == FinishStores(m, from, n, now)
    ensures MemInv(m') && Credited(m.rob, m'.rob)
    decreases n
  {
    hide DoFinishStore;
    if n == 0 {
    } else {
      var next := FinishFirst(m, from, now);
      FinishStoresKeeps(next, from + 1, n - 1, now, m');
      CreditedTrans(m.rob, next.rob, m'.rob);
    }
  }

  lemma FinishFirst(m: Mem, from: nat, now: nat) returns (next: Mem)
    requires MemInv(m) && from < |m.sq| && !m.sq[from].finished
    requires forall b :: 0 <= b < from ==> m.sq[b].finished
    ensures next == DoFinishStore(m, from, now) && MemInv(next) && Credited(m.rob, next.rob)
    ensures next.sq == m.sq[from := m.sq[from].(finished := true, event := now)]
  {
    next := DoFinishStore(m, from, now);
    FinishStoreKeeps(m, from, now);
  }

  // ---- Stores that leave, loads that are issued ----

  /** Every store older than the reorder buffer has finished. */
  lemma RetiredStoresAreFinished(m: Mem, j: nat)
    requires QueueInv(m) && j < |m.sq|
    requires forall k :: 0 <= k < |m.rob| ==> m.sq[j].id < m.rob[k].id
    ensures m.sq[j].finished
  {
    assert !m.sq[j].finished ==> Position(m.rob, m.sq[j].id) < |m.rob|;
  }

  lemma DropStoresKeeps(m: Mem, n: nat)
    requires MemInv(m) && n <= |m.sq|
    requires forall j :: 0 <= j < n ==> m.sq[j].finished
    ensures MemInv(m.(sq := m.sq[n..]))
  {
    var sq' := m.sq[n..];
    DropConserves(m, n);
    DropLinks(m.lq, m.sq, n);
    hide WaitingLinked, Conserved;
    forall k | 0 <= k < |m.lq| && m.lq[k].Some? ensures NoYoungerMatch(m.lq[k].value, sq') {
      assert NoYoungerMatch(m.lq[k].value, m.sq);
    }
  }

  lemma DropConserves(m: Mem, n: nat)
    requires Conserved(m, 0, 0) && n <= |m.sq| && forall j :: 0 <= j < n ==> m.sq[j].finished
    ensures Conserved(m.(sq := m.sq[n..]), 0, 0)
  {
    var sq' := m.sq[n..];
    forall k | 0 <= k < |m.rob| ensures OpenStoresOf(sq', m.rob[k].id) == OpenStoresOf(m.sq, m.rob[k].id) {
      assert m.sq == m.sq[..n] + sq';
      TallySplit(m.sq[..n], sq', IsOpenStoreOf(m.rob[k].id));
      TallyZero(m.sq[..n], IsOpenStoreOf(m.rob[k].id));
    }
  }

  lemma DropLinks(lq: LoadQueue, sq: StoreQueue, n: nat)
    requires WaitingLinked(lq, sq) && n <= |sq| && forall j :: 0 <= j < n ==> sq[j].finished
    ensures WaitingLinked(lq, sq[n..])
  {
    var sq' := sq[n..];
    forall k, j | WaitsOn(lq, sq', k, j) ensures WaitsOn(lq, sq, k, j + n) { }
    forall k | 0 <= k < |lq| && lq[k].Some? && lq[k].value.producer.Some? ensures exists a :: WaitsOn(lq, sq', k, a) {
      var a :| WaitsOn(lq, sq, k, a);
      assert WaitsOn(lq, sq', k, a - n);
    }
  }

  /** Load queues that agree on who waits for what. */
  ghost predicate SameLoads(a: LoadQueue, b: LoadQueue) {
    && |a| == |b|
    && (forall k :: 0 <= k < |a| ==> (b[k].Some? <==> a[k].Some?))
    && (forall k :: 0 <= k < |a| && a[k].Some? ==>
          b[k].value.id == a[k].value.id && b[k].value.addr == a[k].value.addr
          && b[k].value.producer == a[k].value.producer)
    && (forall k :: 0 <= k < |a| && a[k].Some? && b[k].value.issued ==> a[k].value.issued || a[k].value.producer.None?)
  }

  lemma SameLoadsKeeps(m: Mem, lq: LoadQueue)
    requires MemInv(m) && SameLoads(m.lq, lq)
    ensures MemInv(m.(lq := lq))
  {
    forall k | 0 <= k < |m.rob| ensures LoadsOf(lq, m.rob[k].id) == LoadsOf(m.lq, m.rob[k].id) {
      TallySame(m.lq, lq, IsLoadOf(m.rob[k].id));
    }
    forall k, j | WaitsOn(lq, m.sq, k, j) ensures WaitsOn(m.lq, m.sq, k, j) { }
    forall k | 0 <= k < |lq| && lq[k].Some? && lq[k].value.producer.Some? ensures exists a :: WaitsOn(lq, m.sq, k, a) {
      var a :| WaitsOn(m.lq, m.sq, k, a);
      assert WaitsOn(lq, m.sq, k, a);
    }
    forall k | 0 <= k < |lq| && lq[k].Some? ensures NoYoungerMatch(lq[k].value, m.sq) {
      assert NoYoungerMatch(m.lq[k].value, m.sq);
    }
  }

  lemma {:induction false} IssueOnlyIssues(lq: LoadQueue, k: nat, bw: nat, now: nat, accepts: set<nat>)
    requires k <= |lq|
    ensures var lq' := IssueLoads(lq, k, bw, now, accepts);
      && SameLoads(lq, lq')
      && (forall q :: 0 <= q < |lq| && lq'[q] != lq[q] ==>
            k <= q && q in accepts && Issuable(lq[q], now) && lq'[q] == Some(lq[q].value.(issued := true)))
    decreases |lq| - k
  {
    if k == |lq| {
    } else {
      if bw > 0 && Issuable(lq[k], now) && k in accepts {
        IssueOnlyIssues(lq[k := Some(lq[k].value.(issued := true))], k + 1, bw - 1, now, accepts);
      } else {
        IssueOnlyIssues(lq, k + 1, bw, now, accepts);
      }
    }
  }

  /** A load the cache is asked for has no older store to its address in the queue. */
  lemma IssuedLoadIsSafe(m: Mem, k: nat, now: nat)
    requires MemInv(m) && k < |m.lq| && Issuable(m.lq[k], now)
    ensures forall j :: 0 <= j < |m.sq| && m.sq[j].addr == m.lq[k].value.addr ==> m.sq[j].id >= m.lq[k].value.id
  {
    assert NoYoungerMatch(m.lq[k].value, m.sq);
  }

  // ---- Dispatch ----

  /** The scan finds the youngest store to the address (the first of them, should one
      instruction store there twice), and finds none only if there is none. */
  lemma YoungestMatchSelects(sq: StoreQueue, addr: Addr)
    ensures var r := YoungestMatch(sq, addr);
      if r.None? then forall j :: 0 <= j < |sq| ==> sq[j].addr != addr
      else
        && (forall j :: 0 <= j < |sq| && sq[j].addr == addr ==> sq[j].id <= sq[r.value].id)
        && (forall j :: 0 <= j < r.value && sq[j].addr == addr ==> sq[j].id < sq[r.value].id)
  {
    if sq != [] {
      ScanSelects(sq, Matches(addr), StoreId());
      assert forall j :: 0 <= j < |sq| ==> Matches(addr)(sq[j]) == (sq[j].addr == addr) && StoreId()(sq[j]) == sq[j].id;
    }
  }

  lemma SetLoad(m: Mem, slot: nat, e: Load, i: nat, due: int)
    requires Ordered(m.rob) && Conserved(m, i, due) && i < |m.rob| && e.id == m.rob[i].id
    requires slot < |m.lq| && m.lq[slot].None?
    ensures Conserved(m.(lq := m.lq[slot := Some(e)]), i, due - 1)
  {
    forall q | 0 <= q < |m.rob|
      ensures LoadsOf(m.lq[slot := Some(e)], m.rob[q].id) == LoadsOf(m.lq, m.rob[q].id) + if q == i then 1 else 0
    {
      TallyUpdate(m.lq, slot, Some(e), IsLoadOf(m.rob[q].id));
    }
  }

  /** A new load that waits on no store. */
  lemma AddFreeLoad(m: Mem, slot: nat, e: Load)
    requires QueueInv(m) && slot < |m.lq| && m.lq[slot].None? && Position(m.rob, e.id) < |m.rob|
    requires e.producer.None? && NoYoungerMatch(e, m.sq)
    ensures QueueInv(m.(lq := m.lq[slot := Some(e)]))
  {
    var lq := m.lq[slot := Some(e)];
    forall k, j | WaitsOn(lq, m.sq, k, j) ensures WaitsOn(m.lq, m.sq, k, j) { }
    forall k | 0 <= k < |lq| && lq[k].Some? && lq[k].value.producer.Some? ensures exists a :: WaitsOn(lq, m.sq, k, a) {
      var a :| WaitsOn(m.lq, m.sq, k, a);
      assert WaitsOn(lq, m.sq, k, a);
    }
  }

  /** A new load that waits on the unfinished store `p`. */
  lemma AddWaitingLoad(m: Mem, slot: nat, e: Load, p: nat)
    requires QueueInv(m) && slot < |m.lq| && m.lq[slot].None? && Position(m.rob, e.id) < |m.rob|
    requires p < |m.sq| && !m.sq[p].finished && m.sq[p].addr == e.addr && !e.issued
    requires e.producer == Some(m.sq[p].id) && NoYoungerMatch(e, m.sq)
    ensures QueueInv(Mem(m.rob, m.lq[slot := Some(e)], m.sq[p := m.sq[p].(waiting := m.sq[p].waiting + [slot])]))
  {
    var lq := m.lq[slot := Some(e)];
    var sq := m.sq[p := m.sq[p].(waiting := m.sq[p].waiting + [slot])];
    AddWaitingLinks(m.lq, m.sq, slot, e, p);
    hide WaitingLinked;
    forall k | 0 <= k < |lq| && lq[k].Some? ensures NoYoungerMatch(lq[k].value, sq) {
      assert k != slot ==> NoYoungerMatch(m.lq[k].value, m.sq);
    }
  }

  lemma AddWaitingLinks(lq0: LoadQueue, sq0: StoreQueue, slot: nat, e: Load, p: nat)
    requires WaitingLinked(lq0, sq0) && slot < |lq0| && lq0[slot].None?
    requires p < |sq0| && !sq0[p].finished && sq0[p].addr == e.addr && !e.issued && e.producer == Some(sq0[p].id)
    ensures WaitingLinked(lq0[slot := Some(e)], sq0[p := sq0[p].(waiting := sq0[p].waiting + [slot])])
  {
    var lq, w := lq0[slot := Some(e)], sq0[p].waiting;
    var sq := sq0[p := sq0[p].(waiting := w + [slot])];
    assert sq[p].waiting[|w|] == slot;
    forall k, j | WaitsOn(lq, sq, k, j) ensures (k == slot && j == p) || (k != slot && WaitsOn(lq0, sq0, k, j)) {
      SlotIsUnlisted(lq0, sq0, slot);
      if j == p { assert k in w || k == slot; }
    }
    forall j, a | 0 <= j < |sq| && !sq[j].finished && 0 <= a < |sq[j].waiting|
      ensures sq[j].waiting[a] == (if j == p && a == |w| then slot else sq0[j].waiting[a])
      ensures !(j == p && a == |w|) ==> sq[j].waiting[a] != slot
    {
    }
    forall k | 0 <= k < |lq| && lq[k].Some? && lq[k].value.producer.Some? ensures exists a :: WaitsOn(lq, sq, k, a) {
      if k == slot {
        assert WaitsOn(lq, sq, slot, p);
      } else {
        var a :| WaitsOn(lq0, sq0, k, a);
        assert WaitsOn(lq, sq, k, a);
      }
    }
  }

  lemma SlotIsUnlisted(lq: LoadQueue, sq: StoreQueue, slot: nat)
    requires WaitingLinked(lq, sq) && slot < |lq| && lq[slot].None?
    ensures forall j :: !WaitsOn(lq, sq, slot, j)
  {
  }

  ghost predicate StoresOlderThan(sq: StoreQueue, id: Id) {
    forall j :: 0 <= j < |sq| ==> sq[j].id < id
  }

  lemma LoadFromCache(m: Mem, i: nat, addr: Addr, due: int, slot: nat)
    requires QueueInv(m) && Conserved(m, i, due) && i < |m.rob|
    requires slot < |m.lq| && m.lq[slot].None? && YoungestMatch(m.sq, addr).None?
    ensures var m' := m.(lq := m.lq[slot := Some(Load(m.rob[i].id, addr, 0, false, None))]);
      QueueInv(m') && Conserved(m', i, due - 1)
  {
    var e := Load(m.rob[i].id, addr, 0, false, None);
    PositionOf(m.rob, i);
    YoungestMatchSelects(m.sq, addr);
    AddFreeLoad(m, slot, e);
    SetLoad(m, slot, e, i, due);
  }

  lemma LoadFromFinished(m: Mem, i: nat, due: int)
    requires QueueInv(m) && Conserved(m, i, due) && i < |m.rob|
    ensures var m' := m.(rob := m.rob[i := m.rob[i].(memDone := m.rob[i].memDone + 1)]);
      QueueInv(m') && Conserved(m', i, due - 1)
  {
    QueueInvRob(m, m.rob[i := m.rob[i].(memDone := m.rob[i].memDone + 1)]);
  }

  lemma LoadFromStore(m: Mem, i: nat, addr: Addr, due: int, slot: nat, k: nat)
    requires QueueInv(m) && Conserved(m, i, due) && i < |m.rob| && StoresOlderThan(m.sq, m.rob[i].id)
    requires slot < |m.lq| && m.lq[slot].None? && YoungestMatch(m.sq, addr) == Some(k) && !m.sq[k].finished
    ensures var m' := m.(lq := m.lq[slot := Some(Load(m.rob[i].id, addr, 0, false, Some(m.sq[k].id)))],
                         sq := m.sq[k := m.sq[k].(waiting := m.sq[k].waiting + [slot])]);
      QueueInv(m') && Conserved(m', i, due - 1)
  {
    var e := Load(m.rob[i].id, addr, 0, false, Some(m.sq[k].id));
    PositionOf(m.rob, i);
    YoungestMatchSelects(m.sq, addr);
    AddWaitingLoad(m, slot, e, k);
    SetLoad(m, slot, e, i, due);
    ConservedStores(m.(lq := m.lq[slot := Some(e)]),
        m.sq[k := m.sq[k].(waiting := m.sq[k].waiting + [slot])], i, due - 1);
  }

  /** One load of a newly dispatched instruction: to the cache queue, done at once, or
      waiting on an older store that has not finished. */
  lemma LoadOneKeeps(m: Mem, i: nat, addr: Addr, due: int, m': Mem)
    requires QueueInv(m) && Conserved(m, i, due) && i < |m.rob| && StoresOlderThan(m.sq, m.rob[i].id)
    requires First(m.lq, IsFree()) < |m.lq| && m' == LoadOne(m, i, addr)
    ensures QueueInv(m') && Conserved(m', i, due - 1)
  {
    var slot := First(m.lq, IsFree());
    assert IsFree()(m.lq[slot]);
    match YoungestMatch(m.sq, addr)
    case None =>
      assert m' == m.(lq := m.lq[slot := Some(Load(m.rob[i].id, addr, 0, false, None))]);
      LoadFromCache(m, i, addr, due, slot);
    case Some(k) =>
      if m.sq[k].finished {
        assert m' == m.(rob := m.rob[i := m.rob[i].(memDone := m.rob[i].memDone + 1)]);
        LoadFromFinished(m, i, due);
      } else {
        assert m' == m.(lq := m.lq[slot := Some(Load(m.rob[i].id, addr, 0, false, Some(m.sq[k].id)))],
                        sq := m.sq[k := m.sq[k].(waiting := m.sq[k].waiting + [slot])]);
        LoadFromStore(m, i, addr, due, slot, k);
      }
  }

  lemma LoadOneFrame(m: Mem, i: nat, addr: Addr)
    requires i < |m.rob|
    ensures var m' := LoadOne(m, i, addr);
      Credited(m.rob, m'.rob) && SameStores(m.sq, m'.sq) && |m'.rob| == |m.rob|
      && (StoresOlderThan(m.sq, m.rob[i].id) ==> StoresOlderThan(m'.sq, m'.rob[i].id))
  {
  }

  lemma SameLoadSide(m: Mem)
    ensures Credited(m.rob, m.rob) && SameStores(m.sq, m.sq)
  {
  }

  lemma SameStoresTrans(a: StoreQueue, b: StoreQueue, c: StoreQueue)
    requires SameStores(a, b) && SameStores(b, c)
    ensures SameStores(a, c)
  {
  }

  /** Each load takes at most one free slot. */
  lemma LoadOneSlots(m: Mem, i: nat, addr: Addr)
    requires i < |m.rob|
    ensures FreeSlots(LoadOne(m, i, addr).lq) + 1 >= FreeSlots(m.lq)
    ensures FreeSlots(m.lq) > 0 ==> First(m.lq, IsFree()) < |m.lq|
  {
    var slot := First(m.lq, IsFree());
    if slot == |m.lq| {
      TallyZero(m.lq, IsFree());
    } else {
      var e := LoadOne(m, i, addr).lq[slot];
      TallyUpdate(m.lq, slot, e, IsFree());
      assert LoadOne(m, i, addr).lq == m.lq[slot := e];
    }
  }

  lemma {:induction false} ScheduleLoadsKeeps(m: Mem, i: nat, loads: seq<Addr>, due: int, m': Mem)
    requires QueueInv(m) && Conserved(m, i, due) && i < |m.rob| && StoresOlderThan(m.sq, m.rob[i].id)
    requires FreeSlots(m.lq) >= |loads| && m' == ScheduleLoads(m, i, loads)
    ensures QueueInv(m') && Conserved(m', i, due - |loads|) && Credited(m.rob, m'.rob) && SameStores(m.sq, m'.sq)
    decreases |loads|
  {
    hide LoadOne, QueueInv, Conserved, StoresOlderThan, Credited, SameStores;
    if loads == [] {
      SameLoadSide(m);
    } else {
      var next := LoadOne(m, i, loads[0]);
      LoadOneSlots(m, i, loads[0]);
      LoadOneKeeps(m, i, loads[0], due, next);
      LoadOneFrame(m, i, loads[0]);
      ScheduleLoadsKeeps(next, i, loads[1..], due - 1, m');
      CreditedTrans(m.rob, next.rob, m'.rob);
      SameStoresTrans(m.sq, next.sq, m'.sq);
    }
  }

  lemma StoreOneConserves(m: Mem, i: nat, added: Store, due: int)
    requires Ordered(m.rob) && Conserved(m, i, due) && i < |m.rob| && added.id == m.rob[i].id && !added.finished
    ensures Conserved(m.(sq := m.sq + [added]), i, due - 1)
  {
    forall k | 0 <= k < |m.rob|
      ensures OpenStoresOf(m.sq + [added], m.rob[k].id) == OpenStoresOf(m.sq, m.rob[k].id) + if k == i then 1 else 0
    {
      TallySplit(m.sq, [added], IsOpenStoreOf(m.rob[k].id));
    }
  }

  lemma StoreOneLinks(lq: LoadQueue, sq: StoreQueue, added: Store)
    requires WaitingLinked(lq, sq) && added.waiting == []
    ensures WaitingLinked(lq, sq + [added])
  {
    var sq' := sq + [added];
    assert forall j :: 0 <= j < |sq| ==> sq[j] == sq'[j];
    forall k, j | WaitsOn(lq, sq', k, j) ensures WaitsOn(lq, sq, k, j) { }
    forall k | 0 <= k < |lq| && lq[k].Some? && lq[k].value.producer.Some? ensures exists a :: WaitsOn(lq, sq', k, a) {
      var a :| WaitsOn(lq, sq, k, a);
      assert WaitsOn(lq, sq', k, a);
    }
  }

  lemma StoreOneKeeps(m: Mem, i: nat, addr: Addr)
    requires QueueInv(m) && i < |m.rob|
    requires forall j :: 0 <= j < |m.sq| ==> m.sq[j].id <= m.rob[i].id
    requires forall k :: 0 <= k < |m.rob| ==> m.rob[k].id <= m.rob[i].id
    ensures QueueInv(m.(sq := m.sq + [Store(m.rob[i].id, addr, 0, false, [])]))
  {
    var added := Store(m.rob[i].id, addr, 0, false, []);
    var sq' := m.sq + [added];
    assert forall j :: 0 <= j < |m.sq| ==> m.sq[j] == sq'[j];
    PositionOf(m.rob, i);
    StoreOneLinks(m.lq, m.sq, added);
    forall k | 0 <= k < |m.lq| && m.lq[k].Some? ensures NoYoungerMatch(m.lq[k].value, sq') {
      assert NoYoungerMatch(m.lq[k].value, m.sq);
      assert m.lq[k].value.id <= added.id;
    }
  }

  lemma {:induction false} ScheduleStoresKeeps(m: Mem, i: nat, stores: seq<Addr>, due: int, sq': StoreQueue)
    requires QueueInv(m) && Conserved(m, i, due) && i < |m.rob|
    requires forall j :: 0 <= j < |m.sq| ==> m.sq[j].id <= m.rob[i].id
    requires forall k :: 0 <= k < |m.rob| ==> m.rob[k].id <= m.rob[i].id
    requires sq' == ScheduleStores(m.sq, m.rob[i].id, stores)
    ensures QueueInv(m.(sq := sq')) && Conserved(m.(sq := sq'), i, due - |stores|)
    ensures forall j :: 0 <= j < |sq'| ==> sq'[j].id <= m.rob[i].id
    decreases |stores|
  {
    if stores == [] {
      assert m.(sq := sq') == m;
    } else {
      var added := Store(m.rob[i].id, stores[0], 0, false, []);
      StoreOneKeeps(m, i, stores[0]);
      StoreOneConserves(m, i, added, due);
      ScheduleStoresKeeps(m.(sq := m.sq + [added]), i, stores[1..], due - 1, sq');
    }
  }

  lemma {:induction false} ScheduleStoresShape(sq: StoreQueue, id: Id, stores: seq<Addr>, sq': StoreQueue)
    requires sq' == ScheduleStores(sq, id, stores)
    ensures sq'[..|sq|] == sq
    ensures forall q :: |sq| <= q < |sq'| ==> sq'[q] == Store(id, stores[q - |sq|], 0, false, [])
    decreases |stores|
  {
    if stores == [] {
    } else {
      var next := sq + [Store(id, stores[0], 0, false, [])];
      ScheduleStoresShape(next, id, stores[1..], sq');
      assert sq'[..|sq|] == sq'[..|next|][..|sq|];
      assert sq'[|sq|] == sq'[..|next|][|sq|];
    }
  }

  lemma AppendKeeps(m: Mem, x: Instr)
    requires MemInv(m) && x.memDone == 0 && forall k :: 0 <= k < |m.rob| ==> m.rob[k].id < x.id
    ensures var m' := m.(rob := m.rob + [x]);
      QueueInv(m') && Conserved(m', |m.rob|, x.MemOps())
  {
    var rob' := m.rob + [x];
    assert forall k :: 0 <= k < |m.rob| ==> m.rob[k] == rob'[k];
    forall id | Position(m.rob, id) < |m.rob| ensures Position(rob', id) < |rob'| {
      assert rob'[Position(m.rob, id)].id == id;
    }
    TallyZero(m.lq, IsLoadOf(x.id));
    TallyZero(m.sq, IsOpenStoreOf(x.id));
  }

  /** The store queue got the stores of `x` behind what it held. */
  ghost predicate Appends(sq: StoreQueue, x: Instr, sq': StoreQueue) {
    && |sq'| == |sq| + |x.stores|
    && (forall j :: 0 <= j < |sq| ==> sq'[j].id == sq[j].id && sq'[j].addr == sq[j].addr)
    && (forall j :: |sq| <= j < |sq'| ==> sq'[j] == Store(x.id, x.stores[j - |sq|], 0, false, []))
  }

  lemma AppendedStores(sq: StoreQueue, m1: Mem, x: Instr, sq': StoreQueue)
    requires SameStores(sq, m1.sq) && sq' == ScheduleStores(m1.sq, x.id, x.stores)
    ensures Appends(sq, x, sq')
  {
    ScheduleStoresShape(m1.sq, x.id, x.stores, sq');
    forall j | 0 <= j < |sq| ensures sq'[j].id == sq[j].id && sq'[j].addr == sq[j].addr {
      assert sq'[j] == sq'[..|sq|][j];
    }
  }

  /** Dispatching one instruction's memory operations. */
  lemma DispatchMemoryKeeps(m: Mem, x: Instr, m': Mem)
    requires MemInv(m) && x.memDone == 0 && x.executed == Idle && StoresOlderThan(m.sq, x.id)
    requires forall k :: 0 <= k < |m.rob| ==> m.rob[k].id < x.id
    requires FreeSlots(m.lq) >= |x.loads|
    requires m' == DoMemoryScheduling(m.(rob := m.rob + [x]), |m.rob|)
    ensures MemInv(m') && Credited(m.rob + [x], m'.rob) && Appends(m.sq, x, m'.sq)
  {
    hide ScheduleLoads, ScheduleStores, QueueInv, Conserved, SameStores, FreeSlots, Appends, StoresOlderThan;
    var n, m0 := |m.rob|, m.(rob := m.rob + [x]);
    var m1 := ScheduleLoads(m0, n, x.loads);
    assert m' == m1.(sq := ScheduleStores(m1.sq, x.id, x.stores));
    AppendKeeps(m, x);
    DispatchedInOrder(m0, m1, x, m');
    AppendedStores(m.sq, m1, x, m'.sq);
    assert m'.rob == m1.rob && CompletedAreDone(m.rob);
    DispatchedCompleted(m, x, m'.rob);
  }

  lemma DispatchedInOrder(m: Mem, m1: Mem, x: Instr, m': Mem)
    requires m.rob != [] && m.rob[|m.rob| - 1] == x && QueueInv(m) && Conserved(m, |m.rob| - 1, x.MemOps())
    requires StoresOlderThan(m.sq, x.id) && FreeSlots(m.lq) >= |x.loads|
    requires forall k :: 0 <= k < |m.rob| - 1 ==> m.rob[k].id < x.id
    requires m1 == ScheduleLoads(m, |m.rob| - 1, x.loads) && m' == m1.(sq := ScheduleStores(m1.sq, x.id, x.stores))
    ensures QueueInv(m') && Conserved(m', 0, 0) && Credited(m.rob, m'.rob) && SameStores(m.sq, m1.sq)
    ensures forall k :: 0 <= k < |m'.rob| ==> m'.rob[k].memDone <= m'.rob[k].MemOps()
  {
    hide ScheduleLoads, ScheduleStores, QueueInv, Conserved, FreeSlots;
    var n := |m.rob| - 1;
    ScheduleLoadsKeeps(m, n, x.loads, x.MemOps(), m1);
    forall k | 0 <= k < |m1.rob| ensures m1.rob[k].id == m.rob[k].id {
      assert m1.rob[k] == m.rob[k].(memDone := m1.rob[k].memDone);
    }
    ScheduleStoresKeeps(m1, n, x.stores, |x.stores|, m'.sq);
    assert m1.(sq := m'.sq) == m';
    NothingDue(m', n);
  }

  lemma NothingDue(m: Mem, i: int)
    requires Conserved(m, i, 0)
    ensures Conserved(m, 0, 0) && forall k :: 0 <= k < |m.rob| ==> m.rob[k].memDone <= m.rob[k].MemOps()
  {
  }

  lemma DispatchedCompleted(m: Mem, x: Instr, rob': Rob)
    requires x.executed == Idle && Credited(m.rob + [x], rob')
    requires forall k :: 0 <= k < |m.rob| && m.rob[k].executed == Completed ==> m.rob[k].memDone == m.rob[k].MemOps()
    requires forall k :: 0 <= k < |rob'| ==> rob'[k].memDone <= rob'[k].MemOps()
    ensures forall k :: 0 <= k < |rob'| && rob'[k].executed == Completed ==> rob'[k].memDone == rob'[k].MemOps()
  {
    var rob := m.rob + [x];
    forall k | 0 <= k < |rob'| && rob'[k].executed == Completed ensures rob'[k].memDone == rob'[k].MemOps() {
      assert rob'[k] == rob[k].(memDone := rob'[k].memDone);
      assert k < |m.rob| && rob[k] == m.rob[k];
    }
  }

  // ---- Execution, retirement, and register stages ----

  /** What MemInv reads of the reorder buffer, besides which instructions completed. */
  ghost predicate SameMemoryState(a: Rob, b: Rob) {
    && SameIds(a, b)
    && (forall k :: 0 <= k < |a| ==>
          b[k].memDone == a[k].memDone && b[k].loads == a[k].loads && b[k].stores == a[k].stores)
  }

  lemma MemInvFrame(m: Mem, rob': Rob)
    requires MemInv(m) && SameMemoryState(m.rob, rob') && CompletedAreDone(rob')
    ensures MemInv(m.(rob := rob'))
  {
    QueueInvRob(m, rob');
  }

  lemma MarkedStoresKeep(m: Mem, sq': StoreQueue)
    requires MemInv(m) && SameStores(m.sq, sq')
    requires forall j :: 0 <= j < |m.sq| ==> sq'[j].waiting == m.sq[j].waiting
    ensures MemInv(m.(sq := sq'))
  {
    ConservedStores(m, sq', 0, 0);
    forall k, j | WaitsOn(m.lq, sq', k, j) ensures WaitsOn(m.lq, m.sq, k, j) { }
    forall k | 0 <= k < |m.lq| && m.lq[k].Some? && m.lq[k].value.producer.Some?
      ensures exists a :: WaitsOn(m.lq, sq', k, a)
    {
      var a :| WaitsOn(m.lq, m.sq, k, a);
      assert WaitsOn(m.lq, sq', k, a);
    }
    forall k | 0 <= k < |m.lq| && m.lq[k].Some? ensures NoYoungerMatch(m.lq[k].value, sq') {
      assert NoYoungerMatch(m.lq[k].value, m.sq);
    }
  }

  lemma DoExecutionKeeps(m: Mem, i: nat, event: nat, m': Mem)
    requires MemInv(m) && i < |m.rob| && m' == DoExecution(m, i, event)
    ensures MemInv(m')
  {
    var id := m.rob[i].id;
    var rob' := m.rob[i := m.rob[i].(executed := Inflight, event := event)];
    MemInvFrame(m, rob');
    SameLoadsKeeps(m.(rob := rob'), MarkLoads(m.lq, id, event));
    MarkedStoresKeep(Mem(rob', MarkLoads(m.lq, id, event), m.sq), MarkStores(m.sq, id, event));
  }

  /** A completed instruction has nothing left in either queue. */
  lemma CompletedHasNoEntries(m: Mem, i: nat)
    requires MemInv(m) && i < |m.rob| && m.rob[i].executed == Completed
    ensures forall k :: 0 <= k < |m.lq| && m.lq[k].Some? ==> m.lq[k].value.id != m.rob[i].id
    ensures forall j :: 0 <= j < |m.sq| && !m.sq[j].finished ==> m.sq[j].id != m.rob[i].id
  {
    var id := m.rob[i].id;
    forall k | 0 <= k < |m.lq| && m.lq[k].Some? ensures m.lq[k].value.id != id {
      if m.lq[k].value.id == id { TallyPositive(m.lq, k, IsLoadOf(id)); }
    }
    forall j | 0 <= j < |m.sq| && !m.sq[j].finished ensures m.sq[j].id != id {
      if m.sq[j].id == id { TallyPositive(m.sq, j, IsOpenStoreOf(id)); }
    }
  }

  lemma RetirePresent(m: Mem, n: nat, id: Id)
    requires MemInv(m) && n <= |m.rob| && Position(m.rob, id) < |m.rob|
    requires forall k :: 0 <= k < n ==> m.rob[k].id != id
    ensures Position(m.rob[n..], id) < |m.rob[n..]|
  {
    var p := Position(m.rob, id);
    assert m.rob[n..][p - n].id == id;
  }

  lemma RetireMemoryKeeps(m: Mem, n: nat)
    requires MemInv(m) && n <= |m.rob|
    requires forall k :: 0 <= k < n ==> m.rob[k].executed == Completed
    ensures MemInv(m.(rob := m.rob[n..]))
  {
    var rob' := m.rob[n..];
    forall k | 0 <= k < n
      ensures forall q :: 0 <= q < |m.lq| && m.lq[q].Some? ==> m.lq[q].value.id != m.rob[k].id
      ensures forall j :: 0 <= j < |m.sq| && !m.sq[j].finished ==> m.sq[j].id != m.rob[k].id
    {
      CompletedHasNoEntries(m, k);
    }
    forall q | 0 <= q < |m.lq| && m.lq[q].Some? ensures Position(rob', m.lq[q].value.id) < |rob'| {
      RetirePresent(m, n, m.lq[q].value.id);
    }
    forall j | 0 <= j < |m.sq| && !m.sq[j].finished ensures Position(rob', m.sq[j].id) < |rob'| {
      RetirePresent(m, n, m.sq[j].id);
    }
    forall k | 0 <= k < |rob'|
      ensures rob'[k].memDone + LoadsOf(m.lq, rob'[k].id) + OpenStoresOf(m.sq, rob'[k].id) == rob'[k].MemOps()
    {
      assert rob'[k] == m.rob[k + n];
    }
  }
}
