/** No instruction is faster than its latencies: what is scheduled does not start, and what
    has started does not complete, before the cycles it is due have passed. */
module CoreLatency {
  import opened CoreState
  import opened CoreRegisters
  import opened CoreMemory
  import opened CoreMemoryProof
  import opened CoreCycle
  import opened CoreProof
  import opened CoreRuns
  import opened CoreLiveness
  import opened CoreStages

  /** Entry `i` is scheduled, has not completed, and is not due before cycle `event`. */
  ghost predicate WaitsUntil(rob: Rob, i: int, event: nat) {
    0 <= i < |rob| && rob[i].scheduled && rob[i].executed != Completed && rob[i].event == event
  }

  lemma StagesKeepWaiting(cfg: Config, c: Core, i: nat, event: nat, d: Core) returns (i': nat)
    requires CoreInv(cfg, c) && WaitsUntil(c.rob, i, event) && c.cycle < event && d == InstructionStages(cfg, c)
    ensures WaitsUntil(d.rob, i', event) && d.rob[i'].id == c.rob[i].id && d.rob[i'].executed == c.rob[i].executed
    ensures d.cycle == c.cycle && CoreInv(cfg, d)
  {
    InstructionStagesKeep(cfg, c, d);
    hide InstructionStages, Schedule, Execute, Complete, Retire, CoreInv;
    var c1 := Retire(cfg, c);
    RetireStageKeeps(cfg, c);
    i' := RetireKeepsWaiting(cfg, c, i, event, c1);
    var c2 := Complete(cfg, c1);
    CompleteKeeps(cfg, c1);
    CompleteKeepsWaiting(cfg, c1, i', event, c2);
    var c3 := Execute(cfg, c2);
    ExecuteKeepsWaiting(cfg, c2, i', event, c3);
    ScheduleKeepsWaiting(cfg, c3, i', event, Schedule(cfg, c3));
    StagesAre(cfg, c);
  }

  lemma StagesAre(cfg: Config, c: Core)
    ensures InstructionStages(cfg, c) == Schedule(cfg, Execute(cfg, Complete(cfg, Retire(cfg, c))))
  {
  }

  lemma RetireKeepsWaiting(cfg: Config, c: Core, i: nat, event: nat, d: Core) returns (i': nat)
    requires WaitsUntil(c.rob, i, event) && d == Retire(cfg, c)
    ensures WaitsUntil(d.rob, i', event) && d.rob[i'] == c.rob[i] && d.cycle == c.cycle
  {
    RetiresExactly(cfg, c, d, i);
    i' := i - (|c.rob| - |d.rob|);
  }

  lemma CompleteKeepsWaiting(cfg: Config, c: Core, i: nat, event: nat, d: Core)
    requires CoreInv(cfg, c) && WaitsUntil(c.rob, i, event) && c.cycle < event && d == Complete(cfg, c)
    ensures WaitsUntil(d.rob, i, event) && d.rob[i].id == c.rob[i].id && d.rob[i].executed == c.rob[i].executed
    ensures d.cycle == c.cycle
  {
    CompletesExactly(cfg, c, d);
    var s := CompleteScan(c.Regs(), 0, cfg.execWidth, c.cycle);
    CompleteScanClock(c.Regs(), 0, cfg.execWidth, c.cycle, s);
    CompleteScanKeeps(c.Regs(), 0, cfg.execWidth, c.cycle, s);
    assert d.rob == s.rob;
  }

  lemma ExecuteKeepsWaiting(cfg: Config, c: Core, i: nat, event: nat, d: Core)
    requires WaitsUntil(c.rob, i, event) && c.cycle < event && d == Execute(cfg, c)
    ensures WaitsUntil(d.rob, i, event) && d.rob[i] == c.rob[i] && d.cycle == c.cycle
  {
    StartsExactly(cfg, c, d);
    assert !Started(c.rob, 0, cfg.execWidth, c.cycle, i);
    assert d.rob == d.Mem().rob && c.rob == c.Mem().rob;
  }

  lemma ScheduleKeepsWaiting(cfg: Config, c: Core, i: nat, event: nat, d: Core)
    requires WaitsUntil(c.rob, i, event) && d == Schedule(cfg, c)
    ensures WaitsUntil(d.rob, i, event) && d.rob[i].id == c.rob[i].id && d.rob[i].executed == c.rob[i].executed
    ensures d.cycle == c.cycle
  {
    SchedulesExactly(cfg, c, d);
    ScheduleScanIds(c.Regs(), 0, cfg.schedulerSize, c.After(cfg.schedulingLatency), d.Regs());
  }

  lemma {:induction false} ScheduleScanIds(s: Regs, i: nat, bw: nat, event: nat, s': Regs)
    requires i <= |s.rob| && s' == ScheduleScan(s, i, bw, event)
    ensures SameIds(s.rob, s'.rob)
    decreases |s.rob| - i
  {
    if i == |s.rob| || bw == 0 {
    } else {
      var s1 := ScheduleStep(s, i, event);
      LinkStatus(s.rob, s.producers, i, s.rob[i].sources, Link(s.rob, s.producers, i, s.rob[i].sources));
      assert SameIds(s.rob, s1.rob);
      hide ScheduleStep;
      ScheduleScanIds(s1, i + 1, if s1.rob[i].executed == Idle then bw - 1 else bw, event, s');
    }
  }

  lemma CarriedWaiting(a: Rob, b: Rob, i: nat, event: nat)
    requires WaitsUntil(a, i, event) && Carried(a, b)
    ensures WaitsUntil(b, i, event) && b[i].id == a[i].id && b[i].executed == a[i].executed
  {
    assert b[i] == a[i].(memDone := b[i].memDone);
  }

  /** The later stages of a cycle, and the tick. */
  lemma RestKeepsWaiting(cfg: Config, c: Core, env: Env, c1: Core, i: nat, event: nat, d: Core)
    requires CoreInv(cfg, c) && c1 == InstructionStages(cfg, c) && CoreInv(cfg, c1) && WaitsUntil(c1.rob, i, event)
    requires cfg.blockSize > 0 && d == FrontEnd(cfg, BackEnd(cfg, c, env), env)
    ensures WaitsUntil(d.rob, i, event) && d.rob[i].id == c1.rob[i].id && d.rob[i].executed == c1.rob[i].executed
    ensures d.cycle == c1.cycle
  {
    hide CoreInv, InstructionStages, MemoryReturn, OperateLsq, FrontEnd, WaitsUntil, Carried;
    var b := BackEnd(cfg, c, env);
    QueuesCarry(cfg, c1, env, b);
    BackEndKeeps(cfg, c, env, b);
    FrontEndCarries(cfg, b, env, d);
    CarriedTrans(c1.rob, b.rob, d.rob);
    CarriedWaiting(c1.rob, d.rob, i, event);
  }

  lemma NextIs(cfg: Config, c: Core, e: Cycle)
    requires cfg.blockSize > 0
    ensures var a := AtStart(c, e);
      var f := FrontEnd(cfg, BackEnd(cfg, a, e.env), e.env);
      a.rob == c.rob && a.cycle == c.cycle && Next(cfg, c, e) == f.(cycle := f.cycle + 1)
  {
    hide FrontEnd, BackEnd;
  }

  lemma NextKeepsWaiting(cfg: Config, c: Core, e: Cycle, i: nat, event: nat, d: Core) returns (i': nat)
    requires CoreInv(cfg, c) && ValidArrivals(c, e.env.arrivals) && d == Next(cfg, c, e)
    requires WaitsUntil(c.rob, i, event) && c.cycle < event
    ensures CoreInv(cfg, d) && d.cycle == c.cycle + 1
    ensures WaitsUntil(d.rob, i', event) && d.rob[i'].id == c.rob[i].id && d.rob[i'].executed == c.rob[i].executed
  {
    NextKeeps(cfg, c, e, d);
    AtStartInv(cfg, c, e);
    CoreInvMeansPositive(cfg, c);
    var a := AtStart(c, e);
    NextIs(cfg, c, e);
    hide CoreInv, FrontEnd, BackEnd, InstructionStages, Next, AtStart, ValidArrivals;
    var c1 := InstructionStages(cfg, a);
    i' := StagesKeepWaiting(cfg, a, i, event, c1);
    RestKeepsWaiting(cfg, a, e.env, c1, i', event, FrontEnd(cfg, BackEnd(cfg, a, e.env), e.env));
  }

  lemma {:induction false} RunKeepsWaiting(cfg: Config, c: Core, i: nat, event: nat, es: seq<Cycle>, d: Core)
    returns (i': nat)
    requires CoreInv(cfg, c) && cfg.blockSize > 0 && ValidRun(cfg, c, es) && d == Run(cfg, c, es)
    requires WaitsUntil(c.rob, i, event) && c.cycle + |es| <= event
    ensures WaitsUntil(d.rob, i', event) && d.rob[i'].id == c.rob[i].id && d.rob[i'].executed == c.rob[i].executed
    decreases |es|
  {
    hide CoreInv, Next, ValidArrivals;
    if es == [] {
      i' := i;
    } else {
      var next := Next(cfg, c, es[0]);
      var j := NextKeepsWaiting(cfg, c, es[0], i, event, next);
      i' := RunKeepsWaiting(cfg, next, j, event, es[1..], d);
    }
  }

  /** From a stage of a cycle on, the entry waits through the rest of it. */
  lemma CycleKeepsWaiting(cfg: Config, s: Core, e: Cycle, c: Core, k: nat, event: nat, d: Core)
    requires CoreInv(cfg, s) && ValidArrivals(s, e.env.arrivals) && cfg.blockSize > 0
    requires c == InstructionStages(cfg, AtStart(s, e)) && WaitsUntil(c.rob, k, event) && d == Next(cfg, s, e)
    ensures CoreInv(cfg, d) && d.cycle == s.cycle + 1
    ensures WaitsUntil(d.rob, k, event) && d.rob[k].id == c.rob[k].id && d.rob[k].executed == c.rob[k].executed
  {
    NextKeeps(cfg, s, e, d);
    AtStartInv(cfg, s, e);
    var a := AtStart(s, e);
    InstructionStagesKeep(cfg, a, c);
    InstructionStagesClock(cfg, a, c);
    var f := FrontEnd(cfg, BackEnd(cfg, a, e.env), e.env);
    NextIs(cfg, s, e);
    hide *;
    RestKeepsWaiting(cfg, a, e.env, c, k, event, f);
  }

  lemma StagesFrom(cfg: Config, s: Core, e: Cycle)
    ensures InstructionStages(cfg, AtStart(s, e)) == Schedule(cfg, Execute(cfg, AtExecute(cfg, s, e)))
    ensures AtExecute(cfg, s, e).cycle == s.cycle && Execute(cfg, AtExecute(cfg, s, e)).cycle == s.cycle
    ensures AtExecute(cfg, s, e).warmup == (s.warmup && !e.endsWarmup)
    ensures Execute(cfg, AtExecute(cfg, s, e)).warmup == (s.warmup && !e.endsWarmup)
  {
    hide CompleteScan, ScheduleScan, Span, ExecuteScan;
  }

  /** Instruction `id`, in entry `k`, starts in this execute stage. */
  ghost predicate StartsNow(cfg: Config, c: Core, k: int, id: Id) {
    && 0 <= k < |c.rob| && c.rob[k].id == id && c.rob[k].executed == Idle && Execute(cfg, c).rob[k].executed != Idle
  }

  /** Instruction `id`, in entry `k`, is scheduled in this schedule stage. */
  ghost predicate ScheduledNow(cfg: Config, c: Core, k: int, id: Id) {
    && 0 <= k < |c.rob| && c.rob[k].id == id && !c.rob[k].scheduled
    && |Schedule(cfg, c).rob| == |c.rob| && Schedule(cfg, c).rob[k].scheduled
  }

  ghost predicate HasStatus(rob: Rob, i: int, id: Id, status: Status) {
    0 <= i < |rob| && rob[i].id == id && rob[i].executed == status
  }

  lemma StartedWaits(cfg: Config, c: Core, k: nat, id: Id, d: Core)
    requires d == Execute(cfg, c) && !c.warmup && StartsNow(cfg, c, k, id)
    ensures WaitsUntil(d.rob, k, c.cycle + cfg.execLatency) && HasStatus(d.rob, k, id, Inflight)
  {
    StartsExactly(cfg, c, d);
    hide Execute;
    assert d.rob == d.Mem().rob && c.rob == c.Mem().rob;
  }

  lemma ScheduledWaits(cfg: Config, c: Core, k: nat, id: Id, d: Core)
    requires CoreInv(cfg, c) && d == Schedule(cfg, c) && !c.warmup && ScheduledNow(cfg, c, k, id)
    ensures WaitsUntil(d.rob, k, c.cycle + cfg.schedulingLatency) && HasStatus(d.rob, k, id, Idle)
  {
    UnscheduledIsIdle(cfg, c, k);
    SchedulesExactly(cfg, c, d);
    ScheduleScanIds(c.Regs(), 0, cfg.schedulerSize, c.After(cfg.schedulingLatency), d.Regs());
  }

  lemma ReachedBy(cfg: Config, warmup: bool, past: seq<Cycle>, s: Core)
    requires cfg.Valid() && ValidRun(cfg, Reset(cfg, warmup), past) && s == Run(cfg, Reset(cfg, warmup), past)
    ensures CoreInv(cfg, s)
  {
    ResetInv(cfg, warmup);
    RunKeepsInv(cfg, Reset(cfg, warmup), past, s);
  }

  lemma BlocksPositive(cfg: Config)
    requires cfg.Valid()
    ensures cfg.blockSize > 0
  {
  }

  /** From the end of the instruction stages of one cycle through the cycles after it. */
  lemma FutureKeepsWaiting(
      cfg: Config, s: Core, e: Cycle, c: Core, k: nat, id: Id, status: Status, event: nat, future: seq<Cycle>, d: Core)
    returns (i: nat)
    requires CoreInv(cfg, s) && ValidArrivals(s, e.env.arrivals) && cfg.blockSize > 0
    requires c == InstructionStages(cfg, AtStart(s, e))
    requires WaitsUntil(c.rob, k, event) && HasStatus(c.rob, k, id, status)
    requires ValidRun(cfg, Next(cfg, s, e), future) && d == Run(cfg, Next(cfg, s, e), future)
    requires s.cycle + 1 + |future| <= event
    ensures HasStatus(d.rob, i, id, status)
  {
    hide CoreInv, ValidArrivals, InstructionStages, AtStart, Next, Run, ValidRun;
    var next := Next(cfg, s, e);
    CycleKeepsWaiting(cfg, s, e, c, k, event, next);
    i := RunKeepsWaiting(cfg, next, k, event, future, d);
  }

  lemma TakesExecutionLatency(
      cfg: Config, e: Cycle, s: Core, k: nat, id: Id, future: seq<Cycle>, d: Core)
    returns (i: nat)
    requires CoreInv(cfg, s) && cfg.blockSize > 0
    requires ValidArrivals(s, e.env.arrivals) && !(s.warmup && !e.endsWarmup)
    requires StartsNow(cfg, AtExecute(cfg, s, e), k, id)
    requires ValidRun(cfg, Next(cfg, s, e), future) && d == Run(cfg, Next(cfg, s, e), future)
    requires |future| < cfg.execLatency
    ensures HasStatus(d.rob, i, id, Inflight)
  {
    hide *;
    var c, event := AtExecute(cfg, s, e), s.cycle + cfg.execLatency;
    var c1 := Execute(cfg, c);
    StagesFrom(cfg, s, e);
    StartedWaits(cfg, c, k, id, c1);
    ScheduleKeepsStatus(cfg, c1, k, event, id, Inflight);
    i := FutureKeepsWaiting(cfg, s, e, Schedule(cfg, c1), k, id, Inflight, event, future, d);
  }

  /** Over every run, what starts outside the warm-up is still in flight after any number of
      further cycles below the execution latency. */
  lemma EveryRunTakesExecutionLatency(
      cfg: Config, warmup: bool, past: seq<Cycle>, e: Cycle, s: Core, k: nat, id: Id, future: seq<Cycle>, d: Core)
    returns (i: nat)
    requires cfg.Valid() && ValidRun(cfg, Reset(cfg, warmup), past) && s == Run(cfg, Reset(cfg, warmup), past)
    requires ValidArrivals(s, e.env.arrivals) && !(s.warmup && !e.endsWarmup)
    requires StartsNow(cfg, AtExecute(cfg, s, e), k, id)
    requires ValidRun(cfg, Next(cfg, s, e), future) && d == Run(cfg, Next(cfg, s, e), future)
    requires |future| < cfg.execLatency
    ensures HasStatus(d.rob, i, id, Inflight)
  {
    ReachedBy(cfg, warmup, past, s);
    BlocksPositive(cfg);
    hide *;
    i := TakesExecutionLatency(cfg, e, s, k, id, future, d);
  }

  lemma ScheduleKeepsStatus(cfg: Config, c: Core, k: nat, event: nat, id: Id, status: Status)
    requires WaitsUntil(c.rob, k, event) && HasStatus(c.rob, k, id, status)
    ensures WaitsUntil(Schedule(cfg, c).rob, k, event) && HasStatus(Schedule(cfg, c).rob, k, id, status)
  {
    hide Schedule;
    ScheduleKeepsWaiting(cfg, c, k, event, Schedule(cfg, c));
  }

  lemma TakesSchedulingLatency(
      cfg: Config, e: Cycle, s: Core, k: nat, id: Id, future: seq<Cycle>, d: Core)
    returns (i: nat)
    requires CoreInv(cfg, s) && cfg.blockSize > 0
    requires ValidArrivals(s, e.env.arrivals) && !(s.warmup && !e.endsWarmup)
    requires ScheduledNow(cfg, Execute(cfg, AtExecute(cfg, s, e)), k, id)
    requires ValidRun(cfg, Next(cfg, s, e), future) && d == Run(cfg, Next(cfg, s, e), future)
    requires |future| < cfg.schedulingLatency
    ensures HasStatus(d.rob, i, id, Idle)
  {
    hide *;
    var c, event := Execute(cfg, AtExecute(cfg, s, e)), s.cycle + cfg.schedulingLatency;
    AtScheduleInv(cfg, s, e);
    StagesFrom(cfg, s, e);
    ScheduledWaits(cfg, c, k, id, Schedule(cfg, c));
    i := FutureKeepsWaiting(cfg, s, e, Schedule(cfg, c), k, id, Idle, event, future, d);
  }

  /** Over every run, what is scheduled outside the warm-up has not started after any number
      of further cycles below the scheduling latency. */
  lemma EveryRunTakesSchedulingLatency(
      cfg: Config, warmup: bool, past: seq<Cycle>, e: Cycle, s: Core, k: nat, id: Id, future: seq<Cycle>, d: Core)
    returns (i: nat)
    requires cfg.Valid() && ValidRun(cfg, Reset(cfg, warmup), past) && s == Run(cfg, Reset(cfg, warmup), past)
    requires ValidArrivals(s, e.env.arrivals) && !(s.warmup && !e.endsWarmup)
    requires ScheduledNow(cfg, Execute(cfg, AtExecute(cfg, s, e)), k, id)
    requires ValidRun(cfg, Next(cfg, s, e), future) && d == Run(cfg, Next(cfg, s, e), future)
    requires |future| < cfg.schedulingLatency
    ensures HasStatus(d.rob, i, id, Idle)
  {
    ReachedBy(cfg, warmup, past, s);
    BlocksPositive(cfg);
    hide *;
    i := TakesSchedulingLatency(cfg, e, s, k, id, future, d);
  }

  lemma AtScheduleInv(cfg: Config, s: Core, e: Cycle)
    requires CoreInv(cfg, s) && ValidArrivals(s, e.env.arrivals)
    ensures CoreInv(cfg, Execute(cfg, AtExecute(cfg, s, e)))
  {
    AtExecuteInv(cfg, s, e);
    ExecuteKeeps(cfg, AtExecute(cfg, s, e));
  }

  lemma UnscheduledIsIdle(cfg: Config, c: Core, k: nat)
    requires CoreInv(cfg, c) && k < |c.rob| && !c.rob[k].scheduled
    ensures c.rob[k].executed == Idle
  {
  }
}
