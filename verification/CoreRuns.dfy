/** Every run of the core: safety of registers and memory, conservation, liveness. */
module CoreRuns {
  import opened Options
  import opened CoreState
  import opened CoreRegisters
  import opened CoreRegistersProof
  import opened CoreMemory
  import opened CoreMemoryProof
  import opened CoreCycle
  import opened CoreProof
  import opened CoreStores
  import opened Scans

  function Reset(cfg: Config, warmup: bool): Core {
    Core(0, warmup, [], [], [], [], [], seq(REGISTERS, _ => []), seq(cfg.lqSize, _ => None), [], [], [], [])
  }

  lemma ResetInv(cfg: Config, warmup: bool)
    requires cfg.Valid()
    ensures CoreInv(cfg, Reset(cfg, warmup)) && Line(Reset(cfg, warmup)) == []
  {
    var c := Reset(cfg, warmup);
    assert Line(c) == [] && Upcoming(c) == [] && StoresInv(c);
    assert RegInv(c.Regs()) by { EmptyRegs(c.Regs()); }
    assert MemInv(c.Mem()) by { EmptyMem(c.Mem()); }
  }

  lemma EmptyRegs(s: Regs)
    requires s.rob == [] && forall r: Reg :: s.producers[r] == []
    ensures RegInv(s)
  {
  }

  lemma EmptyMem(m: Mem)
    requires m.rob == [] && m.sq == [] && forall k :: 0 <= k < |m.lq| ==> m.lq[k].None?
    ensures MemInv(m)
  {
  }

  /** The states a run visits; warm-up may end, never begin, between two cycles. */
  datatype Cycle = Cycle(env: Env, endsWarmup: bool)

  function Next(cfg: Config, c: Core, e: Cycle): Core
    requires cfg.blockSize > 0
  {
    Operate(cfg, c.(warmup := c.warmup && !e.endsWarmup), e.env)
  }

  function Run(cfg: Config, c: Core, es: seq<Cycle>): Core
    requires cfg.blockSize > 0
    decreases |es|
  {
    if es == [] then c else Run(cfg, Next(cfg, c, es[0]), es[1..])
  }

  ghost predicate ValidRun(cfg: Config, c: Core, es: seq<Cycle>)
    requires cfg.blockSize > 0
    decreases |es|
  {
    es != [] ==> ValidArrivals(c, es[0].env.arrivals) && ValidRun(cfg, Next(cfg, c, es[0]), es[1..])
  }

  /** Everything that arrived during a run. */
  function Arrived(es: seq<Cycle>): seq<Instr> {
    if es == [] then [] else es[0].env.arrivals + Arrived(es[1..])
  }

  lemma WarmupEnds(cfg: Config, c: Core, w: Core)
    requires CoreInv(cfg, c) && w == c.(warmup := w.warmup)
    ensures CoreInv(cfg, w) && Line(w) == Line(c)
  {
    assert Line(w) == Line(c) && Upcoming(w) == Upcoming(c) && StoresInv(w);
    assert w.Regs() == c.Regs() && w.Mem() == c.Mem();
  }

  lemma NextKeeps(cfg: Config, c: Core, e: Cycle, d: Core)
    requires CoreInv(cfg, c) && ValidArrivals(c, e.env.arrivals) && d == Next(cfg, c, e)
    ensures CoreInv(cfg, d) && Identify(Line(d)) == Identify(Line(c)) + Identify(e.env.arrivals)
  {
    hide Operate, CoreInv;
    var w := c.(warmup := c.warmup && !e.endsWarmup);
    WarmupEnds(cfg, c, w);
    OperateKeeps(cfg, w, e.env);
  }

  lemma {:induction false} RunKeepsInv(cfg: Config, c: Core, es: seq<Cycle>, d: Core)
    requires CoreInv(cfg, c) && ValidRun(cfg, c, es) && d == Run(cfg, c, es)
    ensures CoreInv(cfg, d)
    decreases |es|
  {
    hide Operate;
    if es == [] {
    } else {
      var next := Next(cfg, c, es[0]);
      NextKeeps(cfg, c, es[0], next);
      RunKeepsInv(cfg, next, es[1..], d);
    }
  }

  /** Pipeline conservation: after any run, what retired, what is in flight and what
      still waits are, in order, what was there before followed by what arrived. */
  lemma {:induction false} RunConserves(cfg: Config, c: Core, es: seq<Cycle>, d: Core)
    requires CoreInv(cfg, c) && ValidRun(cfg, c, es) && d == Run(cfg, c, es)
    ensures Identify(Line(d)) == Identify(Line(c)) + Identify(Arrived(es))
    decreases |es|
  {
    hide Operate; hide Line; hide Identify;
    if es == [] {
      assert Identify([]) == [];
    } else {
      var next := Next(cfg, c, es[0]);
      NextKeeps(cfg, c, es[0], next);
      RunConserves(cfg, next, es[1..], d);
      IdentifySplit(es[0].env.arrivals, Arrived(es[1..]));
      Reassociate(Identify(Line(c)), Identify(es[0].env.arrivals), Identify(Arrived(es[1..])));
    }
  }

  lemma Reassociate(a: seq<Ident>, b: seq<Ident>, c: seq<Ident>)
    ensures a + b + c == a + (b + c)
  {
  }

  /** Each instruction is in one place only, in program order: in particular it retires
      at most once. */
  lemma RetiredOnceInOrder(cfg: Config, warmup: bool, es: seq<Cycle>, d: Core)
    requires cfg.Valid() && ValidRun(cfg, Reset(cfg, warmup), es) && d == Run(cfg, Reset(cfg, warmup), es)
    ensures Ordered(d.retired) && Identify(d.retired) <= Identify(Arrived(es))
    ensures forall i, k :: 0 <= i < |d.retired| && 0 <= k < |d.rob| ==> d.retired[i].id < d.rob[k].id
  {
    hide Run, ValidRun, Arrived, Line, Identify, CoreInv;
    RunFromReset(cfg, warmup, es, d);
    LineIsOrdered(cfg, d);
    LineStartsRetired(d);
  }

  lemma RunFromReset(cfg: Config, warmup: bool, es: seq<Cycle>, d: Core)
    requires cfg.Valid() && ValidRun(cfg, Reset(cfg, warmup), es) && d == Run(cfg, Reset(cfg, warmup), es)
    ensures CoreInv(cfg, d) && Identify(Line(d)) == Identify(Arrived(es))
  {
    hide Run, ValidRun, Arrived, CoreInv;
    ResetInv(cfg, warmup);
    assert Line(Reset(cfg, warmup)) == [];
    RunKeepsInv(cfg, Reset(cfg, warmup), es, d);
    RunConserves(cfg, Reset(cfg, warmup), es, d);
  }

  lemma LineIsOrdered(cfg: Config, d: Core)
    requires CoreInv(cfg, d)
    ensures Ordered(Line(d))
  {
  }

  lemma LineStartsRetired(d: Core)
    requires Ordered(Line(d))
    ensures Ordered(d.retired) && Identify(d.retired) <= Identify(Line(d))
    ensures forall i, k :: 0 <= i < |d.retired| && 0 <= k < |d.rob| ==> d.retired[i].id < d.rob[k].id
  {
    var n := |d.retired|;
    assert Line(d) == d.retired + (d.rob + Upcoming(d));
    IdentifySplit(d.retired, d.rob + Upcoming(d));
    forall i | 0 <= i < n ensures d.retired[i] == Line(d)[i] { }
    forall k | 0 <= k < |d.rob| ensures d.rob[k] == Line(d)[n + k] { }
  }

  // ---- Register safety ----

  /** Nothing starts executing before the youngest older writer of each of its sources,
      retired or not, has completed. */
  lemma StartedReadsFinalValues(cfg: Config, c: Core, k: nat)
    requires CoreInv(cfg, c) && k < |c.rob|
    requires c.rob[k].executed == Idle && Execute(cfg, c).rob[k].executed != Idle
    ensures SourcesReady(c.retired + c.rob, |c.retired| + k)
  {
    StartedIsReady(cfg, c, k);
    ReadyBehind(c.retired, c.rob, k);
  }

  lemma StartedIsReady(cfg: Config, c: Core, k: nat)
    requires CoreInv(cfg, c) && k < |c.rob|
    requires c.rob[k].executed == Idle && Execute(cfg, c).rob[k].executed != Idle
    ensures SourcesReady(c.rob, k) && AllCompleted(c.retired)
  {
    ExecuteKeeps(cfg, c);
    NotWaitingIsReady(c.Regs(), k);
  }

  /** Completed instructions in front change nothing. */
  lemma ReadyBehind(done: Rob, rob: Rob, k: nat)
    requires k < |rob| && SourcesReady(rob, k) && AllCompleted(done)
    ensures SourcesReady(done + rob, |done| + k)
  {
    var all, n := done + rob, |done|;
    var i := n + k;
    forall r, j | r in all[i].sources && YoungestWriter(all, i, r, j) ensures all[j].executed == Completed {
      if j >= n {
        assert all[n..] == rob;
        YoungestWriterDrop(all, n, k, r, j);
      }
    }
  }

  lemma YoungestWriterDrop(all: Rob, n: nat, k: int, r: Reg, j: int)
    requires n <= j && n <= |all| && YoungestWriter(all, n + k, r, j)
    ensures YoungestWriter(all[n..], k, r, j - n)
  {
    forall m | j - n < m < k ensures r !in all[n..][m].destinations {
      assert all[n..][m] == all[n + m];
    }
  }

  /** The state with which the back end of the next cycle starts. */
  function AtStart(c: Core, e: Cycle): Core {
    var a := c.(warmup := c.warmup && !e.endsWarmup, input := c.input + e.env.arrivals);
    a.(ifetch := MarkFetched(a.ifetch, e.env.fetched))
  }

  /** The state in which the execute stage of the next cycle runs. */
  function AtExecute(cfg: Config, c: Core, e: Cycle): Core {
    Complete(cfg, Retire(cfg, AtStart(c, e)))
  }

  lemma AtStartInv(cfg: Config, c: Core, e: Cycle)
    requires CoreInv(cfg, c) && ValidArrivals(c, e.env.arrivals)
    ensures CoreInv(cfg, AtStart(c, e))
  {
    hide CoreInv;
    var w := c.(warmup := c.warmup && !e.endsWarmup);
    WarmupEnds(cfg, c, w);
    ArrivalsKeep(cfg, w, e.env.arrivals);
    var a := w.(input := w.input + e.env.arrivals);
    MarksKeep(cfg, a, MarkFetched(a.ifetch, e.env.fetched));
  }

  lemma AtExecuteInv(cfg: Config, c: Core, e: Cycle)
    requires CoreInv(cfg, c) && ValidArrivals(c, e.env.arrivals)
    ensures CoreInv(cfg, AtExecute(cfg, c, e))
  {
    hide CoreInv;
    AtStartInv(cfg, c, e);
    RetireStageKeeps(cfg, AtStart(c, e));
    CompleteKeeps(cfg, Retire(cfg, AtStart(c, e)));
  }

  /** Read-after-write safety over every run. */
  lemma EveryRunIsRawSafe(cfg: Config, warmup: bool, es: seq<Cycle>, e: Cycle, c: Core, k: nat)
    requires cfg.Valid() && ValidRun(cfg, Reset(cfg, warmup), es)
    requires ValidArrivals(Run(cfg, Reset(cfg, warmup), es), e.env.arrivals)
    requires c == AtExecute(cfg, Run(cfg, Reset(cfg, warmup), es), e)
    requires k < |c.rob| && c.rob[k].executed == Idle && Execute(cfg, c).rob[k].executed != Idle
    ensures SourcesReady(c.retired + c.rob, |c.retired| + k)
  {
    ResetInv(cfg, warmup);
    RunKeepsInv(cfg, Reset(cfg, warmup), es, Run(cfg, Reset(cfg, warmup), es));
    AtExecuteInv(cfg, Run(cfg, Reset(cfg, warmup), es), e);
    StartedReadsFinalValues(cfg, c, k);
  }

  // ---- Memory ordering ----

  ghost predicate IsYoungestMatch(sq: StoreQueue, addr: Addr, j: int) {
    && 0 <= j < |sq| && sq[j].addr == addr
    && (forall q :: 0 <= q < |sq| && sq[q].addr == addr ==> sq[q].id <= sq[j].id)
    && (forall q :: 0 <= q < j && sq[q].addr == addr ==> sq[q].id < sq[j].id)
  }

  /** A dispatched load takes its value from the youngest older store to its address:
      at once if that store has finished, otherwise when it does. Only a load without
      such a store will ask the cache. */
  lemma LoadForwardsFromYoungest(m: Mem, i: nat, addr: Addr, j: int)
    requires QueueInv(m) && i < |m.rob| && StoresOlderThan(m.sq, m.rob[i].id) && First(m.lq, IsFree()) < |m.lq|
    ensures var m', slot := LoadOne(m, i, addr), First(m.lq, IsFree());
      && ((forall q :: 0 <= q < |m.sq| ==> m.sq[q].addr != addr) ==>
            m' == m.(lq := m.lq[slot := Some(Load(m.rob[i].id, addr, 0, false, None))]))
      && (IsYoungestMatch(m.sq, addr, j) && m.sq[j].finished ==>
            m' == m.(rob := m.rob[i := m.rob[i].(memDone := m.rob[i].memDone + 1)]))
      && (IsYoungestMatch(m.sq, addr, j) && !m.sq[j].finished ==>
            && m'.lq == m.lq[slot := Some(Load(m.rob[i].id, addr, 0, false, Some(m.sq[j].id)))]
            && m'.sq == m.sq[j := m.sq[j].(waiting := m.sq[j].waiting + [slot])]
            && WaitsOn(m'.lq, m'.sq, slot, j) && m'.rob == m.rob)
  {
    YoungestMatchSelects(m.sq, addr);
    var r := YoungestMatch(m.sq, addr);
    if IsYoungestMatch(m.sq, addr, j) {
      assert r.Some? && r.value == j;
      assert (m.sq[j].waiting + [First(m.lq, IsFree())])[|m.sq[j].waiting|] == First(m.lq, IsFree());
    }
  }

  /** No read is sent to the data cache while an older store to the same address is
      still in the store queue. */
  lemma SentLoadsAreOrdered(cfg: Config, c: Core, accepts: set<nat>, k: nat)
    requires CoreInv(cfg, c) && k < |c.lq| && SendLoads(cfg, c, accepts).lq[k] != c.lq[k]
    ensures c.lq[k].Some? && !c.lq[k].value.issued
    ensures SendLoads(cfg, c, accepts).lq[k] == Some(c.lq[k].value.(issued := true))
    ensures forall j :: 0 <= j < |c.sq| && c.sq[j].addr == c.lq[k].value.addr ==> c.sq[j].id >= c.lq[k].value.id
  {
    IssueOnlyIssues(c.lq, 0, cfg.lqWidth, c.cycle, accepts);
    IssuedLoadIsSafe(c.Mem(), k, c.cycle);
  }

  /** The state in which the next cycle sends its loads. */
  function AtSend(cfg: Config, c: Core, e: Cycle): Core
    requires cfg.blockSize > 0
  {
    var (f, n) := FinishStage(cfg, MemoryReturn(cfg, InstructionStages(cfg, AtStart(c, e)), e.env.blocks));
    SendStores(f, cfg.sqWidth - n, e.env.room)
  }

  lemma AtSendInv(cfg: Config, c: Core, e: Cycle)
    requires CoreInv(cfg, c) && ValidArrivals(c, e.env.arrivals) && cfg.blockSize > 0
    ensures CoreInv(cfg, AtSend(cfg, c, e))
    ensures SendLoads(cfg, AtSend(cfg, c, e), e.env.accepts) == BackEnd(cfg, AtStart(c, e), e.env)
  {
    hide CoreInv, InstructionStages, MemoryReturn, FinishStage, SendStores, SendLoads;
    AtStartInv(cfg, c, e);
    var c1 := InstructionStages(cfg, AtStart(c, e));
    InstructionStagesKeep(cfg, AtStart(c, e), c1);
    var c2 := MemoryReturn(cfg, c1, e.env.blocks);
    MemoryReturnKeeps(cfg, c1, e.env.blocks);
    var r := FinishStage(cfg, c2);
    FinishStageKeeps(cfg, c2, r.0);
    SendStoresKeeps(cfg, r.0, cfg.sqWidth - r.1, e.env.room);
  }

  /** Memory ordering over every run: whatever load a cycle sends, no older store to its
      address is in the store queue. */
  lemma EveryRunOrdersLoads(cfg: Config, warmup: bool, es: seq<Cycle>, e: Cycle, c: Core, k: nat)
    requires cfg.Valid() && ValidRun(cfg, Reset(cfg, warmup), es)
    requires ValidArrivals(Run(cfg, Reset(cfg, warmup), es), e.env.arrivals)
    requires c == AtSend(cfg, Run(cfg, Reset(cfg, warmup), es), e)
    requires k < |c.lq| && SendLoads(cfg, c, e.env.accepts).lq[k] != c.lq[k]
    ensures c.lq[k].Some? && !c.lq[k].value.issued
    ensures forall j :: 0 <= j < |c.sq| && c.sq[j].addr == c.lq[k].value.addr ==> c.sq[j].id >= c.lq[k].value.id
  {
    hide CoreInv, Run, ValidRun, AtSend, SendLoads;
    ResetInv(cfg, warmup);
    RunKeepsInv(cfg, Reset(cfg, warmup), es, Run(cfg, Reset(cfg, warmup), es));
    AtSendInv(cfg, Run(cfg, Reset(cfg, warmup), es), e);
    SentLoadsAreOrdered(cfg, c, e.env.accepts, k);
  }

  /** Over every run, the writes the data cache was sent are the first writes of the
      trace, in program order, each once, all of retired instructions; and those sent and
      those still queued together are all writes of the instructions that were dispatched. */
  lemma EveryRunSendsStoresInOrder(cfg: Config, warmup: bool, es: seq<Cycle>, d: Core)
    requires cfg.Valid() && ValidRun(cfg, Reset(cfg, warmup), es) && d == Run(cfg, Reset(cfg, warmup), es)
    ensures d.storesSent <= StoresOf(d.retired) <= StoresOf(Arrived(es))
    ensures d.storesSent + StoreRequests(d.sq) == StoresOf(d.retired + d.rob) && SentInOrder(d)
    ensures forall a :: 0 <= a < |d.storesSent| ==> StoredBy(d.retired, d.storesSent[a])
  {
    hide Run, ValidRun, Arrived, CoreInv;
    RunFromReset(cfg, warmup, es, d);
    RetiredOnceInOrder(cfg, warmup, es, d);
    InvMeansStores(cfg, d);
    StoresOfIdentified(d.retired, Arrived(es));
    forall a | 0 <= a < |d.storesSent| ensures StoredBy(d.retired, d.storesSent[a]) {
      StoresOfMember(d.retired, a);
    }
  }

  lemma InvMeansStores(cfg: Config, d: Core)
    requires CoreInv(cfg, d)
    ensures StoresInv(d) && SentInOrder(d)
  {
    assert Line(d) == d.retired + d.rob + Upcoming(d);
    assert Ordered(d.retired + d.rob) by {
      forall i | 0 <= i < |d.retired + d.rob| ensures (d.retired + d.rob)[i] == Line(d)[i] { }
    }
    StoresInvOrdered(d);
  }

  lemma StoresOfIdentified(a: seq<Instr>, b: seq<Instr>)
    requires Identify(a) <= Identify(b)
    ensures StoresOf(a) <= StoresOf(b)
  {
    forall k | 0 <= k < |a| ensures b[k].id == a[k].id && b[k].stores == a[k].stores {
      assert Identify(a)[k] == Identify(b)[k];
    }
    StoresOfSame(a, b[..|a|]);
    StoresOfPrefix(b[..|a|], b);
  }

  /** Over every run, each instruction's operations are credited, queued or unfinished,
      once each, and a completed instruction has none outstanding. */
  lemma EveryRunConservesMemoryOps(cfg: Config, warmup: bool, es: seq<Cycle>, d: Core)
    requires cfg.Valid() && ValidRun(cfg, Reset(cfg, warmup), es) && d == Run(cfg, Reset(cfg, warmup), es)
    ensures forall i :: 0 <= i < |d.rob| ==>
              d.rob[i].memDone + LoadsOf(d.lq, d.rob[i].id) + OpenStoresOf(d.sq, d.rob[i].id) == d.rob[i].MemOps()
    ensures forall i :: 0 <= i < |d.rob| && d.rob[i].executed == Completed ==> d.rob[i].memDone == d.rob[i].MemOps()
  {
    ResetInv(cfg, warmup);
    RunKeepsInv(cfg, Reset(cfg, warmup), es, d);
  }

  /** Over every run, no buffer overflows, and loads that wait and the slots their stores
      will serve match one to one. */
  lemma EveryRunLinksWaitingLoads(cfg: Config, warmup: bool, es: seq<Cycle>, d: Core)
    requires cfg.Valid() && ValidRun(cfg, Reset(cfg, warmup), es) && d == Run(cfg, Reset(cfg, warmup), es)
    ensures WaitingLinked(d.lq, d.sq) && WithinSizes(cfg, d)
  {
    ResetInv(cfg, warmup);
    RunKeepsInv(cfg, Reset(cfg, warmup), es, d);
  }
}
