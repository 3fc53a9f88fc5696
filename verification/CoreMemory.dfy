/** The load queue, the store queue and store-to-load forwarding. */
module CoreMemory {
  import opened Options
  import opened CoreState
  import opened Scans

  /** The memory side of the core. */
  datatype Mem = Mem(rob: Rob, lq: LoadQueue, sq: StoreQueue)

  // ---- What the stages do ----

  function IsFree(): Option<Load> -> bool {
    (e: Option<Load>) => e.None?
  }

  function IsLoadOf(id: Id): Option<Load> -> bool {
    (e: Option<Load>) => e.Some? && e.value.id == id
  }

  function IsOpenStoreOf(id: Id): Store -> bool {
    (e: Store) => !e.finished && e.id == id
  }

  function Matches(addr: Addr): Store -> bool {
    (e: Store) => e.addr == addr
  }

  function StoreId(): Store -> int {
    (e: Store) => e.id
  }

  function Unfinished(): Store -> bool {
    (e: Store) => !e.finished
  }

  function NotBelow(id: Id): Instr -> bool {
    (x: Instr) => x.id >= id
  }

  function FreeSlots(lq: LoadQueue): nat {
    Tally(lq, IsFree())
  }

  /** The store a load of `addr` forwards from. */
  function YoungestMatch(sq: StoreQueue, addr: Addr): (r: Option<nat>)
    ensures r.Some? ==> r.value < |sq| && sq[r.value].addr == addr
  {
    if sq == [] then None
    else
      var k := Scan(sq, Matches(addr), StoreId());
      if sq[k].addr == addr then Some(k) else None
  }

  /** Credit one finished memory operation to instruction `id`. */
  function Finish(rob: Rob, id: Id): (r: Rob)
    ensures |r| == |rob|
  {
    var p := First(rob, NotBelow(id));
    if p < |rob| then rob[p := rob[p].(memDone := rob[p].memDone + 1)] else rob
  }

  function LoadOne(m: Mem, i: nat, addr: Addr): (m': Mem)
    requires i < |m.rob|
    ensures |m'.rob| == |m.rob| && |m'.lq| == |m.lq| && |m'.sq| == |m.sq|
  {
    var slot, x := First(m.lq, IsFree()), m.rob[i];
    if slot == |m.lq| then m
    else
      match YoungestMatch(m.sq, addr)
      case None => m.(lq := m.lq[slot := Some(Load(x.id, addr, 0, false, None))])
      case Some(k) =>
        var store := m.sq[k];
        if store.finished then m.(rob := m.rob[i := x.(memDone := x.memDone + 1)])
        else m.(lq := m.lq[slot := Some(Load(x.id, addr, 0, false, Some(store.id)))],
                sq := m.sq[k := store.(waiting := store.waiting + [slot])])
  }

  function ScheduleLoads(m: Mem, i: nat, loads: seq<Addr>): (m': Mem)
    requires i < |m.rob|
    ensures |m'.rob| == |m.rob| && |m'.lq| == |m.lq| && |m'.sq| == |m.sq|
    decreases |loads|
  {
    if loads == [] then m else ScheduleLoads(LoadOne(m, i, loads[0]), i, loads[1..])
  }

  function ScheduleStores(sq: StoreQueue, id: Id, stores: seq<Addr>): (sq': StoreQueue)
    ensures |sq'| == |sq| + |stores|
    decreases |stores|
  {
    if stores == [] then sq else ScheduleStores(sq + [Store(id, stores[0], 0, false, [])], id, stores[1..])
  }

  function DoMemoryScheduling(m: Mem, i: nat): (m': Mem)
    requires i < |m.rob|
    ensures |m'.rob| == |m.rob| && |m'.lq| == |m.lq| && |m'.sq| == |m.sq| + |m.rob[i].stores|
  {
    var m1 := ScheduleLoads(m, i, m.rob[i].loads);
    m1.(sq := ScheduleStores(m1.sq, m.rob[i].id, m.rob[i].stores))
  }

  /** Hand a finished store's value to the loads in `waiting` and free their slots. */
  function Serve(rob: Rob, lq: LoadQueue, waiting: seq<nat>): (r: (Rob, LoadQueue))
    ensures |r.0| == |rob| && |r.1| == |lq|
    decreases |waiting|
  {
    if waiting == [] then (rob, lq)
    else
      var slot := waiting[0];
      if slot < |lq| && lq[slot].Some?
      then Serve(Finish(rob, lq[slot].value.id), lq[slot := None], waiting[1..])
      else Serve(rob, lq, waiting[1..])
  }

  function DoFinishStore(m: Mem, j: nat, now: nat): (m': Mem)
    requires j < |m.sq|
    ensures |m'.rob| == |m.rob| && |m'.lq| == |m.lq| && |m'.sq| == |m.sq|
  {
    var store := m.sq[j];
    var (rob, lq) := Serve(Finish(m.rob, store.id), m.lq, store.waiting);
    Mem(rob, lq, m.sq[j := store.(finished := true, event := now)])
  }

  function FinishStores(m: Mem, from: nat, n: nat, now: nat): (m': Mem)
    requires from + n <= |m.sq|
    ensures |m'.rob| == |m.rob| && |m'.lq| == |m.lq| && |m'.sq| == |m.sq|
    decreases n
  {
    if n == 0 then m else FinishStores(DoFinishStore(m, from, now), from + 1, n - 1, now)
  }

  /** How many of the stores from `from` on can finish this cycle. */
  function Finishable(sq: StoreQueue, from: nat, bw: nat, now: nat): (n: nat)
    requires from <= |sq|
    ensures n <= bw && from + n <= |sq|
    ensures forall k :: from <= k < from + n ==> !sq[k].finished && sq[k].event <= now
    ensures n < bw && from + n < |sq| ==> sq[from + n].finished || sq[from + n].event > now
    decreases bw
  {
    if bw == 0 || from == |sq| || sq[from].finished || sq[from].event > now then 0
    else 1 + Finishable(sq, from + 1, bw - 1, now)
  }

  /** How many stores from `k` on leave for the cache, which takes at most `room`.
      With an empty reorder buffer (`front` is None) every store counts as retired. */
  function Completable(sq: StoreQueue, k: nat, bw: nat, front: Option<Id>, now: nat, room: nat): (n: nat)
    requires k <= |sq|
    ensures n <= bw && n <= room && k + n <= |sq|
    ensures forall j :: k <= j < k + n ==> (front.Some? ==> sq[j].id < front.value) && sq[j].event <= now
    ensures n < bw && n < room && k + n < |sq| ==>
              (front.Some? && sq[k + n].id >= front.value) || sq[k + n].event > now
    decreases bw
  {
    if bw == 0 || k == |sq| || (front.Some? && sq[k].id >= front.value) || sq[k].event > now || room == 0 then 0
    else 1 + Completable(sq, k + 1, bw - 1, front, now, room - 1)
  }

  /** A load may go to the cache; `accepts` are the slots whose request it would take. */
  predicate Issuable(e: Option<Load>, now: nat) {
    e.Some? && e.value.producer.None? && !e.value.issued && e.value.event < now
  }

  function IssueLoads(lq: LoadQueue, k: nat, bw: nat, now: nat, accepts: set<nat>): (r: LoadQueue)
    requires k <= |lq|
    ensures |r| == |lq|
    decreases |lq| - k
  {
    if k == |lq| then lq
    else if bw > 0 && Issuable(lq[k], now) && k in accepts
    then IssueLoads(lq[k := Some(lq[k].value.(issued := true))], k + 1, bw - 1, now, accepts)
    else IssueLoads(lq, k + 1, bw, now, accepts)
  }

  predicate Answers(e: Option<Load>, block: nat, blockSize: nat)
    requires blockSize > 0
  {
    e.Some? && e.value.issued && e.value.addr / blockSize == block
  }

  /** Every issued load of the returned block is done. */
  function ReturnBlock(rob: Rob, lq: LoadQueue, k: nat, block: nat, blockSize: nat): (r: (Rob, LoadQueue))
    requires k <= |lq| && blockSize > 0
    ensures |r.0| == |rob| && |r.1| == |lq|
    decreases |lq| - k
  {
    if k == |lq| then (rob, lq)
    else if Answers(lq[k], block, blockSize)
    then ReturnBlock(Finish(rob, lq[k].value.id), lq[k := None], k + 1, block, blockSize)
    else ReturnBlock(rob, lq, k + 1, block, blockSize)
  }

  function ReturnBlocks(rob: Rob, lq: LoadQueue, blocks: seq<nat>, blockSize: nat): (r: (Rob, LoadQueue))
    requires blockSize > 0
    ensures |r.0| == |rob| && |r.1| == |lq|
    decreases |blocks|
  {
    if blocks == [] then (rob, lq)
    else
      var (rob1, lq1) := ReturnBlock(rob, lq, 0, blocks[0], blockSize);
      ReturnBlocks(rob1, lq1, blocks[1..], blockSize)
  }

  /** The queue entries of a starting instruction become ready at `event`. */
  function MarkLoads(lq: LoadQueue, id: Id, event: nat): (r: LoadQueue)
    ensures |r| == |lq|
  {
    seq(|lq|, k requires 0 <= k < |lq| =>
      if lq[k].Some? && lq[k].value.id == id then Some(lq[k].value.(event := event)) else lq[k])
  }

  function MarkStores(sq: StoreQueue, id: Id, event: nat): (r: StoreQueue)
    ensures |r| == |sq|
  {
    seq(|sq|, j requires 0 <= j < |sq| => if sq[j].id == id then sq[j].(event := event) else sq[j])
  }

  function DoExecution(m: Mem, i: nat, event: nat): (m': Mem)
    requires i < |m.rob|
    ensures |m'.rob| == |m.rob| && |m'.lq| == |m.lq| && |m'.sq| == |m.sq|
  {
    Mem(m.rob[i := m.rob[i].(executed := Inflight, event := event)],
        MarkLoads(m.lq, m.rob[i].id, event), MarkStores(m.sq, m.rob[i].id, event))
  }

  // ---- The invariant ----

  function LoadsOf(lq: LoadQueue, id: Id): nat {
    Tally(lq, IsLoadOf(id))
  }

  function OpenStoresOf(sq: StoreQueue, id: Id): nat {
    Tally(sq, IsOpenStoreOf(id))
  }

  /** Operations already credited, still in the load queue, and still unfinished in the
      store queue add up to what the instruction asked for. Instruction `i` may be `due`
      operations short of that while a stage is in the middle of moving them. */
  ghost predicate Conserved(m: Mem, i: int, due: int) {
    forall k :: 0 <= k < |m.rob| ==>
      m.rob[k].memDone + LoadsOf(m.lq, m.rob[k].id) + OpenStoresOf(m.sq, m.rob[k].id)
        + (if k == i then due else 0) == m.rob[k].MemOps()
  }

  ghost predicate Present(m: Mem) {
    && (forall k :: 0 <= k < |m.lq| && m.lq[k].Some? ==> Position(m.rob, m.lq[k].value.id) < |m.rob|)
    && (forall j :: 0 <= j < |m.sq| && !m.sq[j].finished ==> Position(m.rob, m.sq[j].id) < |m.rob|)
  }

  /** Program order, with the finished stores in front. */
  ghost predicate StoresInOrder(sq: StoreQueue) {
    && (forall a, b :: 0 <= a < b < |sq| ==> sq[a].id <= sq[b].id)
    && (forall a, b :: 0 <= a < b < |sq| && sq[b].finished ==> sq[a].finished)
  }

  /** Slot `k` waits on store `j`. */
  ghost predicate WaitsOn(lq: LoadQueue, sq: StoreQueue, k: int, j: int) {
    0 <= k < |lq| && 0 <= j < |sq| && !sq[j].finished && k in sq[j].waiting
  }

  /** Waiting loads and the slots listed by unfinished stores match one to one. */
  ghost predicate WaitingLinked(lq: LoadQueue, sq: StoreQueue) {
    && (forall j, a :: 0 <= j < |sq| && !sq[j].finished && 0 <= a < |sq[j].waiting| ==>
          var k := sq[j].waiting[a];
          k < |lq| && lq[k].Some? && !lq[k].value.issued
          && lq[k].value.producer == Some(sq[j].id) && lq[k].value.addr == sq[j].addr)
    && (forall k :: 0 <= k < |lq| && lq[k].Some? && lq[k].value.producer.Some? ==> exists j :: WaitsOn(lq, sq, k, j))
    && (forall j, a, b :: 0 <= j < |sq| && !sq[j].finished && 0 <= a < b < |sq[j].waiting| ==>
          sq[j].waiting[a] != sq[j].waiting[b])
    && (forall k, j, j' :: WaitsOn(lq, sq, k, j) && WaitsOn(lq, sq, k, j') ==> j == j')
  }

  /** No store older than load `e` and to its address is younger than the one it waits
      on; a load that waits on none has no such store in the queue at all. */
  ghost predicate NoYoungerMatch(e: Load, sq: StoreQueue) {
    && (e.producer.Some? ==> e.producer.value < e.id)
    && forall j :: 0 <= j < |sq| && sq[j].addr == e.addr && sq[j].id < e.id ==>
         e.producer.Some? && sq[j].id <= e.producer.value
  }

  ghost predicate ForwardsFromYoungest(lq: LoadQueue, sq: StoreQueue) {
    forall k :: 0 <= k < |lq| && lq[k].Some? ==> NoYoungerMatch(lq[k].value, sq)
  }

  ghost predicate CompletedAreDone(rob: Rob) {
    forall i :: 0 <= i < |rob| && rob[i].executed == Completed ==> rob[i].memDone == rob[i].MemOps()
  }

  ghost predicate QueueInv(m: Mem) {
    && Ordered(m.rob) && Present(m) && StoresInOrder(m.sq)
    && WaitingLinked(m.lq, m.sq) && ForwardsFromYoungest(m.lq, m.sq)
  }

  ghost predicate MemInv(m: Mem) {
    QueueInv(m) && Conserved(m, 0, 0) && CompletedAreDone(m.rob)
  }
}
