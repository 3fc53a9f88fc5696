/** What loads read, over every run: the last older write of the trace to their address. */
module CoreForwarding {
  import opened Options
  import opened CoreState
  import opened CoreMemory
  import opened CoreMemoryProof
  import opened CoreCycle
  import opened CoreStores
  import opened CoreProof
  import opened CoreRuns
  import opened Scans

  // ---- Loads at dispatch ----

  /** The last write to `addr`, in program order. */
  ghost predicate LastWrite(all: seq<Request>, addr: Addr, p: int) {
    0 <= p < |all| && all[p].addr == addr && forall q :: p < q < |all| ==> all[q].addr != addr
  }

  ghost predicate NeverWritten(all: seq<Request>, addr: Addr) {
    forall q :: 0 <= q < |all| ==> all[q].addr != addr
  }

  /** The reorder buffer and the queues once the next instruction to dispatch is in, and
      its first `j` loads have been looked up. */
  function AtLoad(c: Core, j: nat): Mem
    requires c.dispatch != [] && j <= |c.dispatch[0].loads|
  {
    ScheduleLoads(c.Mem().(rob := c.rob + [c.dispatch[0]]), |c.rob|, c.dispatch[0].loads[..j])
  }

  lemma {:induction false} ScheduleLoadsSlots(m: Mem, i: nat, loads: seq<Addr>, m': Mem)
    requires i < |m.rob| && m' == ScheduleLoads(m, i, loads)
    ensures FreeSlots(m'.lq) + |loads| >= FreeSlots(m.lq)
    decreases |loads|
  {
    if loads == [] {
    } else {
      hide LoadOne;
      LoadOneSlots(m, i, loads[0]);
      ScheduleLoadsSlots(LoadOne(m, i, loads[0]), i, loads[1..], m');
    }
  }

  lemma AtLoadInv(cfg: Config, c: Core, j: nat, m: Mem)
    requires CoreInv(cfg, c) && CanDispatch(cfg, c) && j < |c.dispatch[0].loads| && m == AtLoad(c, j)
    ensures QueueInv(m) && SameStores(c.sq, m.sq) && First(m.lq, IsFree()) < |m.lq|
    ensures |m.rob| == |c.rob| + 1 && m.rob[|c.rob|].id == c.dispatch[0].id && StoresOlderThan(m.sq, c.dispatch[0].id)
  {
    var x, n := c.dispatch[0], |c.rob|;
    var m0, loads := c.Mem().(rob := c.rob + [x]), x.loads[..j];
    DispatchReady(cfg, c, x);
    hide CoreInv, ScheduleLoads, MemInv, QueueInv, Conserved;
    AppendKeeps(c.Mem(), x);
    ScheduleLoadsSlots(m0, n, loads, m);
    ScheduleLoadsKeeps(m0, n, loads, x.MemOps(), m);
    LoadOneSlots(m, n, x.loads[j]);
  }

  /** The load takes a slot and will ask the data cache. */
  ghost predicate AsksCache(m: Mem, m': Mem, id: Id, addr: Addr) {
    var slot := First(m.lq, IsFree());
    slot < |m.lq| && m' == m.(lq := m.lq[slot := Some(Load(id, addr, 0, false, None))])
  }

  /** The load takes its value from store `q`: at once if it has finished, and otherwise
      from a slot that the store will serve. */
  ghost predicate TakesFrom(m: Mem, m': Mem, i: nat, addr: Addr, q: nat) {
    var slot := First(m.lq, IsFree());
    && i < |m.rob| && q < |m.sq| && slot < |m.lq|
    && if m.sq[q].finished then m' == m.(rob := m.rob[i := m.rob[i].(memDone := m.rob[i].memDone + 1)])
       else
         && m'.rob == m.rob && m'.lq == m.lq[slot := Some(Load(m.rob[i].id, addr, 0, false, Some(m.sq[q].id)))]
         && m'.sq == m.sq[q := m.sq[q].(waiting := m.sq[q].waiting + [slot])] && WaitsOn(m'.lq, m'.sq, slot, q)
  }

  /** A store queue that holds the end of the program's writes, in order: its youngest
      match is of the instruction that wrote last. */
  lemma YoungestIsLast(sent: seq<Request>, sq: StoreQueue, addr: Addr, p: int)
    requires StoresInOrder(sq) && LastWrite(sent + StoreRequests(sq), addr, p)
    ensures p < |sent| ==> forall q :: 0 <= q < |sq| ==> sq[q].addr != addr
    ensures p >= |sent| ==>
              exists q: nat :: IsYoungestMatch(sq, addr, q) && sq[q].id == (sent + StoreRequests(sq))[p].id
  {
    var all, m := sent + StoreRequests(sq), |sent|;
    forall q | 0 <= q < |sq| && sq[q].addr == addr ensures m + q <= p {
      assert all[m + q].addr == addr;
    }
    if p >= m {
      assert all[p] == StoreRequests(sq)[p - m] && sq[p - m].addr == addr;
      YoungestMatchSelects(sq, addr);
      var r := YoungestMatch(sq, addr).value;
      assert IsYoungestMatch(sq, addr, r) && sq[r].id == sq[p - m].id;
    }
  }

  lemma NeverWrittenIsAbsent(sent: seq<Request>, sq: StoreQueue, addr: Addr)
    requires NeverWritten(sent + StoreRequests(sq), addr)
    ensures forall q :: 0 <= q < |sq| ==> sq[q].addr != addr
  {
    var all := sent + StoreRequests(sq);
    forall q | 0 <= q < |sq| ensures sq[q].addr != addr { assert all[|sent| + q] == StoreRequests(sq)[q]; }
  }

  /** Loads see program order, over every run. When a load is dispatched, let `p` be the
      last write to its address among all writes of the instructions before it. If there
      is none, or the data cache was sent that write, the load will ask the cache;
      otherwise it takes its value from the store of the instruction that wrote last. */
  lemma EveryRunForwardsTheLastWrite(
    cfg: Config, warmup: bool, es: seq<Cycle>, e: Cycle, n: nat, c: Core, j: nat, m: Mem, m': Mem, p: int)
    requires cfg.Valid() && ValidRun(cfg, Reset(cfg, warmup), es)
    requires ValidArrivals(Run(cfg, Reset(cfg, warmup), es), e.env.arrivals)
    requires c == AtDispatch(cfg, Run(cfg, Reset(cfg, warmup), es), e, n) && CanDispatch(cfg, c)
    requires j < |c.dispatch[0].loads| && m == AtLoad(c, j) && m' == LoadOne(m, |c.rob|, c.dispatch[0].loads[j])
    ensures var x, all := c.dispatch[0], StoresOf(c.retired + c.rob);
      && (NeverWritten(all, x.loads[j]) ==> AsksCache(m, m', x.id, x.loads[j]))
      && (LastWrite(all, x.loads[j], p) && p < |c.storesSent| ==> AsksCache(m, m', x.id, x.loads[j]))
      && (LastWrite(all, x.loads[j], p) && p >= |c.storesSent| ==>
            exists q: nat ::
              TakesFrom(m, m', |c.rob|, x.loads[j], q) && m.sq[q].id == all[p].id && m.sq[q].addr == x.loads[j])
  {
    hide CoreInv, Run, ValidRun, AtDispatch, ValidArrivals, CanDispatch, LoadOne;
    ResetInv(cfg, warmup);
    RunKeepsInv(cfg, Reset(cfg, warmup), es, Run(cfg, Reset(cfg, warmup), es));
    AtDispatchInv(cfg, Run(cfg, Reset(cfg, warmup), es), e, n);
    LoadSeesLastWrite(cfg, c, j, m, m', p);
  }

  lemma LoadSeesLastWrite(cfg: Config, c: Core, j: nat, m: Mem, m': Mem, p: int)
    requires CoreInv(cfg, c) && CanDispatch(cfg, c) && j < |c.dispatch[0].loads| && m == AtLoad(c, j)
    requires |m.rob| == |c.rob| + 1 && m' == LoadOne(m, |c.rob|, c.dispatch[0].loads[j])
    ensures var x, all := c.dispatch[0], StoresOf(c.retired + c.rob);
      && (NeverWritten(all, x.loads[j]) ==> AsksCache(m, m', x.id, x.loads[j]))
      && (LastWrite(all, x.loads[j], p) && p < |c.storesSent| ==> AsksCache(m, m', x.id, x.loads[j]))
      && (LastWrite(all, x.loads[j], p) && p >= |c.storesSent| ==>
            exists q: nat ::
              TakesFrom(m, m', |c.rob|, x.loads[j], q) && m.sq[q].id == all[p].id && m.sq[q].addr == x.loads[j])
  {
    AtLoadInv(cfg, c, j, m);
    InvMeansStores(cfg, c);
    assert StoreRequests(m.sq) == StoreRequests(c.sq);
    hide *;
    LookupSeesLastWrite(c.storesSent, m, |c.rob|, c.dispatch[0].loads[j], p, StoresOf(c.retired + c.rob), m');
  }

  lemma LookupMisses(m: Mem, i: nat, addr: Addr, m': Mem)
    requires QueueInv(m) && i < |m.rob| && StoresOlderThan(m.sq, m.rob[i].id) && First(m.lq, IsFree()) < |m.lq|
    requires m' == LoadOne(m, i, addr) && forall q :: 0 <= q < |m.sq| ==> m.sq[q].addr != addr
    ensures AsksCache(m, m', m.rob[i].id, addr)
  {
    hide QueueInv, LoadOne, StoresOlderThan;
    LoadForwardsFromYoungest(m, i, addr, 0);
  }

  lemma LookupHits(m: Mem, i: nat, addr: Addr, q: nat, m': Mem)
    requires QueueInv(m) && i < |m.rob| && StoresOlderThan(m.sq, m.rob[i].id) && First(m.lq, IsFree()) < |m.lq|
    requires m' == LoadOne(m, i, addr) && IsYoungestMatch(m.sq, addr, q)
    ensures TakesFrom(m, m', i, addr, q)
  {
    hide QueueInv, LoadOne, StoresOlderThan;
    LoadForwardsFromYoungest(m, i, addr, q);
  }

  lemma LookupSeesLastWrite(sent: seq<Request>, m: Mem, i: nat, addr: Addr, p: int, all: seq<Request>, m': Mem)
    requires QueueInv(m) && i < |m.rob| && StoresOlderThan(m.sq, m.rob[i].id) && First(m.lq, IsFree()) < |m.lq|
    requires all == sent + StoreRequests(m.sq) && m' == LoadOne(m, i, addr)
    ensures NeverWritten(all, addr) ==> AsksCache(m, m', m.rob[i].id, addr)
    ensures LastWrite(all, addr, p) && p < |sent| ==> AsksCache(m, m', m.rob[i].id, addr)
    ensures LastWrite(all, addr, p) && p >= |sent| ==>
              exists q: nat :: TakesFrom(m, m', i, addr, q) && m.sq[q].id == all[p].id && m.sq[q].addr == addr
  {
    assert StoresInOrder(m.sq);
    hide *;
    if NeverWritten(all, addr) {
      NeverWrittenIsAbsent(sent, m.sq, addr);
      LookupMisses(m, i, addr, m');
    }
    if LastWrite(all, addr, p) {
      YoungestIsLast(sent, m.sq, addr, p);
      if p < |sent| {
        LookupMisses(m, i, addr, m');
      } else {
        var q: nat :| IsYoungestMatch(m.sq, addr, q) && m.sq[q].id == all[p].id;
        MatchAddress(m.sq, addr, q);
        LookupHits(m, i, addr, q, m');
      }
    }
  }

  lemma MatchAddress(sq: StoreQueue, addr: Addr, q: nat)
    requires IsYoungestMatch(sq, addr, q)
    ensures q < |sq| && sq[q].addr == addr
  {
  }

  /** The state in which the next cycle dispatches its instruction number `n`. */
  function AtDispatch(cfg: Config, c: Core, e: Cycle, n: nat): Core
    requires cfg.blockSize > 0
  {
    Dispatch(cfg, BackEnd(cfg, AtStart(c, e), e.env), n)
  }

  lemma AtDispatchInv(cfg: Config, c: Core, e: Cycle, n: nat)
    requires CoreInv(cfg, c) && ValidArrivals(c, e.env.arrivals) && cfg.blockSize > 0
    ensures CoreInv(cfg, AtDispatch(cfg, c, e, n))
  {
    hide CoreInv, BackEnd, Dispatch;
    AtStartInv(cfg, c, e);
    var b := BackEnd(cfg, AtStart(c, e), e.env);
    BackEndKeeps(cfg, AtStart(c, e), e.env, b);
    DispatchStageKeeps(cfg, b, n, Dispatch(cfg, b, n));
  }

  // ---- Loads at the data cache ----

  /** The read `r` is sent for the load in slot `k`. */
  ghost predicate SentFrom(a: LoadQueue, b: LoadQueue, k: int, r: Request) {
    0 <= k < |a| == |b| && a[k].Some? && a[k].value.id == r.id && a[k].value.addr == r.addr && b[k] != a[k]
  }

  lemma {:induction false} RequestsComeFromSlots(a: LoadQueue, b: LoadQueue, n: nat)
    requires |a| == |b| && n < |LoadRequests(a, b)|
    ensures exists k :: SentFrom(a, b, k, LoadRequests(a, b)[n])
  {
    var sends := a[0].Some? && b[0].Some? && !a[0].value.issued && b[0].value.issued;
    if sends && n == 0 {
      assert SentFrom(a, b, 0, LoadRequests(a, b)[n]);
    } else {
      var rest := n - if sends then 1 else 0;
      RequestsComeFromSlots(a[1..], b[1..], rest);
      var k :| SentFrom(a[1..], b[1..], k, LoadRequests(a[1..], b[1..])[rest]);
      assert SentFrom(a, b, k + 1, LoadRequests(a, b)[n]);
    }
  }

  /** Reads stay behind older writes, over every run: whenever the data cache is sent a
      read, it is of a load that was waiting to ask, and of all writes of instructions
      that were dispatched, each older one to its address was sent before. */
  lemma EveryRunSendsReadsAfterWrites(cfg: Config, warmup: bool, es: seq<Cycle>, e: Cycle, c: Core, d: Core, n: nat)
    requires cfg.Valid() && ValidRun(cfg, Reset(cfg, warmup), es)
    requires ValidArrivals(Run(cfg, Reset(cfg, warmup), es), e.env.arrivals)
    requires c == AtSend(cfg, Run(cfg, Reset(cfg, warmup), es), e) && d == SendLoads(cfg, c, e.env.accepts)
    requires |c.loadsSent| <= n < |d.loadsSent|
    ensures var all, r := StoresOf(c.retired + c.rob), d.loadsSent[n];
      && c.loadsSent <= d.loadsSent && (exists k :: SentFrom(c.lq, d.lq, k, r) && !c.lq[k].value.issued)
      && forall p :: 0 <= p < |all| && all[p].addr == r.addr && all[p].id < r.id ==>
           p < |c.storesSent| && c.storesSent[p] == all[p]
  {
    hide CoreInv, Run, ValidRun, AtSend;
    ResetInv(cfg, warmup);
    RunKeepsInv(cfg, Reset(cfg, warmup), es, Run(cfg, Reset(cfg, warmup), es));
    AtSendInv(cfg, Run(cfg, Reset(cfg, warmup), es), e);
    SentReadsFollowWrites(cfg, c, e.env.accepts, d, n);
  }

  lemma SentReadsFollowWrites(cfg: Config, c: Core, accepts: set<nat>, d: Core, n: nat)
    requires CoreInv(cfg, c) && d == SendLoads(cfg, c, accepts) && |c.loadsSent| <= n < |d.loadsSent|
    ensures var all, r := StoresOf(c.retired + c.rob), d.loadsSent[n];
      && c.loadsSent <= d.loadsSent && (exists k :: SentFrom(c.lq, d.lq, k, r) && !c.lq[k].value.issued)
      && forall p :: 0 <= p < |all| && all[p].addr == r.addr && all[p].id < r.id ==>
           p < |c.storesSent| && c.storesSent[p] == all[p]
  {
    InvMeansStores(cfg, c);
    RequestsComeFromSlots(c.lq, d.lq, n - |c.loadsSent|);
    var k :| SentFrom(c.lq, d.lq, k, d.loadsSent[n]);
    SentLoadsAreOrdered(cfg, c, accepts, k);
    hide CoreInv, StoresOf, SentInOrder, SendLoads, LoadRequests;
    var all, r, m := StoresOf(c.retired + c.rob), d.loadsSent[n], |c.storesSent|;
    forall p | m <= p < |all| ensures all[p] == Request(c.sq[p - m].id, c.sq[p - m].addr) {
      assert all[p] == StoreRequests(c.sq)[p - m];
    }
    forall p | 0 <= p < |all| && all[p].addr == r.addr && all[p].id < r.id
      ensures p < m && c.storesSent[p] == all[p]
    { }
  }
}
