/** Bounded liveness: once its memory operations are done, the oldest uncompleted
    instruction completes within a bound given by the scheduling and execution
    latencies, whatever the rest of the system does. */
module CoreLiveness {
  import opened CoreState
  import opened CoreRegisters
  import opened CoreRegistersProof
  import opened CoreMemory
  import opened CoreMemoryProof
  import opened CoreCycle
  import opened CoreProof
  import opened CoreRuns
  import opened Scans

  ghost predicate OldestAt(rob: Rob, h: int) {
    0 <= h < |rob| && rob[h].executed != Completed && forall k :: 0 <= k < h ==> rob[k].executed == Completed
  }

  // ---- What each scan does to readiness, and that it reaches the oldest ----

  /** Completion leaves readiness alone. */
  ghost predicate CompleteClock(a: Rob, b: Rob, now: nat) {
    && |a| == |b|
    && (forall k :: 0 <= k < |a| ==> b[k].scheduled == a[k].scheduled && b[k].event == a[k].event)
    && (forall k :: 0 <= k < |a| ==>
          b[k].executed == a[k].executed || (a[k].executed == Inflight && b[k].executed == Completed))
  }

  lemma CompletedAtClock(a: Rob, b: Rob, i: nat, now: nat)
    requires Ordered(a) && StatusInOrder(a) && Links(a) && CompletedAt(a, b, i)
    ensures CompleteClock(a, b, now)
  {
    CompletedFields(a, b, i);
  }

  lemma CompleteStepClock(s: Regs, i: nat, now: nat)
    requires RegInv(s) && i < |s.rob| && Completing(s.rob[i], now)
    ensures
      var next := DoCompleteExecution(s, i);
      RegInv(next) && CompleteClock(s.rob, next.rob, now) && next.rob[i].executed == Completed
  {
    hide DoCompleteExecution;
    CompletionKeeps(s, i);
    CompletedAtClock(s.rob, DoCompleteExecution(s, i).rob, i, now);
  }

  lemma {:induction false} CompleteScanClock(s: Regs, i: nat, bw: nat, now: nat, s': Regs)
    requires RegInv(s) && i <= |s.rob| && s' == CompleteScan(s, i, bw, now)
    ensures CompleteClock(s.rob, s'.rob, now)
    ensures i < |s.rob| && bw > 0 && Completing(s.rob[i], now) ==> s'.rob[i].executed == Completed
    decreases |s.rob| - i
  {
    hide DoCompleteExecution, RegInv;
    if i == |s.rob| || bw == 0 {
    } else {
      if Completing(s.rob[i], now) {
        var next := DoCompleteExecution(s, i);
        CompleteStepClock(s, i, now);
        CompleteScanClock(next, i + 1, bw - 1, now, s');
      } else {
        CompleteScanClock(s, i + 1, bw, now, s');
      }
    }
  }

  /** The scan passes completed instructions for free, so it reaches the oldest
      uncompleted one with its whole bandwidth. */
  lemma {:induction false} CompleteScanReaches(s: Regs, i: nat, h: nat, bw: nat, now: nat)
    requires i <= h <= |s.rob| && bw > 0 && forall k :: i <= k < h ==> s.rob[k].executed == Completed
    ensures CompleteScan(s, i, bw, now) == CompleteScan(s, h, bw, now)
    decreases h - i
  {
    if i == h {
    } else {
      CompleteScanReaches(s, i + 1, h, bw, now);
    }
  }

  ghost predicate ExecuteClock(a: Rob, b: Rob, now: nat, event: nat) {
    && |a| == |b|
    && forall k :: 0 <= k < |a| ==>
          b[k] == a[k] || (Starting(a[k], now) && b[k] == a[k].(executed := Inflight, event := event))
  }

  lemma {:induction false} ExecuteScanClock(m: Mem, i: nat, bw: nat, now: nat, event: nat, m': Mem)
    requires i <= |m.rob| && m' == ExecuteScan(m, i, bw, now, event)
    ensures ExecuteClock(m.rob, m'.rob, now, event)
    ensures forall k :: 0 <= k < i ==> m'.rob[k] == m.rob[k]
    ensures i < |m.rob| && bw > 0 && Starting(m.rob[i], now) ==> m'.rob[i].executed == Inflight
    decreases |m.rob| - i
  {
    if i == |m.rob| || bw == 0 {
    } else {
      if Starting(m.rob[i], now) {
        var next := DoExecution(m, i, event);
        assert next.rob == m.rob[i := m.rob[i].(executed := Inflight, event := event)];
        hide DoExecution;
        ExecuteScanClock(next, i + 1, bw - 1, now, event, m');
      } else {
        ExecuteScanClock(m, i + 1, bw, now, event, m');
      }
    }
  }

  lemma {:induction false} ExecuteScanReaches(m: Mem, i: nat, h: nat, bw: nat, now: nat, event: nat)
    requires i <= h <= |m.rob| && bw > 0 && forall k :: i <= k < h ==> m.rob[k].executed == Completed
    ensures ExecuteScan(m, i, bw, now, event) == ExecuteScan(m, h, bw, now, event)
    decreases h - i
  {
    if i == h {
    } else {
      ExecuteScanReaches(m, i + 1, h, bw, now, event);
    }
  }

  ghost predicate ScheduleClock(a: Rob, b: Rob, event: nat) {
    && |a| == |b|
    && (forall k :: 0 <= k < |a| ==> b[k].executed == a[k].executed)
    && (forall k :: 0 <= k < |a| ==>
          (b[k].scheduled == a[k].scheduled
          && b[k].event == a[k].event) || (!a[k].scheduled && b[k].scheduled && b[k].event == event))
  }

  lemma {:induction false} LinkClock(rob: Rob, producers: Producers, i: nat, sources: seq<Reg>, rob': Rob)
    requires i < |rob| && rob' == Link(rob, producers, i, sources)
    ensures forall k :: 0 <= k < |rob| ==>
              rob'[k].scheduled == rob[k].scheduled
              && rob'[k].event == rob[k].event && rob'[k].executed == rob[k].executed
    decreases |sources|
  {
    if sources == [] {
    } else {
      var next := LinkOne(rob, producers[sources[0]], i);
      LinkOneClock(rob, producers[sources[0]], i, next);
      hide LinkOne;
      LinkClock(next, producers, i, sources[1..], rob');
    }
  }

  lemma LinkOneClock(rob: Rob, list: seq<Id>, i: nat, rob': Rob)
    requires i < |rob| && rob' == LinkOne(rob, list, i)
    ensures forall k :: 0 <= k < |rob| ==>
              rob'[k].scheduled == rob[k].scheduled
              && rob'[k].event == rob[k].event && rob'[k].executed == rob[k].executed
  {
  }

  lemma ScheduleStepClock(s: Regs, i: nat, event: nat, s1: Regs)
    requires i < |s.rob| && s1 == ScheduleStep(s, i, event)
    ensures ScheduleClock(s.rob, s1.rob, event) && s1.rob[i].scheduled
    ensures forall k :: 0 <= k < |s.rob| && k != i ==> s1.rob[k].scheduled == s.rob[k].scheduled
  {
    if !s.rob[i].scheduled {
      LinkClock(s.rob, s.producers, i, s.rob[i].sources, Link(s.rob, s.producers, i, s.rob[i].sources));
    }
  }

  lemma {:induction false} ScheduleScanClock(s: Regs, i: nat, bw: nat, event: nat, s': Regs)
    requires i <= |s.rob| && s' == ScheduleScan(s, i, bw, event)
    ensures ScheduleClock(s.rob, s'.rob, event)
    ensures i < |s.rob| && bw > 0 ==> s'.rob[i].scheduled
    decreases |s.rob| - i
  {
    if i == |s.rob| || bw == 0 {
    } else {
      hide ScheduleStep;
      var s1 := ScheduleStep(s, i, event);
      ScheduleStepClock(s, i, event, s1);
      ScheduleScanClock(s1, i + 1, if s1.rob[i].executed == Idle then bw - 1 else bw, event, s');
    }
  }

  lemma {:induction false} ScheduleScanReaches(s: Regs, i: nat, h: nat, bw: nat, event: nat)
    requires i <= h <= |s.rob| && bw > 0
    requires forall k :: i <= k < h ==> s.rob[k].executed == Completed && s.rob[k].scheduled
    ensures ScheduleScan(s, i, bw, event) == ScheduleScan(s, h, bw, event)
    decreases h - i
  {
    if i == h {
    } else {
      ScheduleScanReaches(s, i + 1, h, bw, event);
    }
  }

  // ---- The countdown of the oldest instruction ----

  function Late(event: nat, now: nat): nat {
    if event > now then event - now else 0
  }

  function AtLeastOne(n: nat): nat {
    if n == 0 then 1 else n
  }

  /** Calls of the core that instruction `x` may still need, as the oldest one. */
  function Countdown(cfg: Config, x: Instr, now: nat): nat {
    if x.executed == Completed then 0
    else if x.executed == Inflight then 1 + Late(x.event, now)
    else if x.scheduled then 1 + AtLeastOne(cfg.execLatency) + Late(x.event, now)
    else 1 + AtLeastOne(cfg.execLatency) + AtLeastOne(cfg.schedulingLatency)
  }

  /** Instruction `h` has its memory operations done and only completed ones before it. */
  ghost predicate Head(rob: Rob, h: int) {
    && 0 <= h < |rob| && rob[h].memDone == rob[h].MemOps()
    && forall k :: 0 <= k < h ==> rob[k].executed == Completed
  }

  predicate SameClock(x: Instr, y: Instr) {
    y.scheduled == x.scheduled && y.executed == x.executed && y.event == x.event
  }

  lemma RetireHead(cfg: Config, c: Core, h: nat, d: Core) returns (h': nat)
    requires Head(c.rob, h) && c.rob[h].executed != Completed && d == Retire(cfg, c)
    ensures Head(d.rob, h') && d.rob[h'] == c.rob[h] && d.cycle == c.cycle && d.warmup == c.warmup
  {
    var n := Span(c.rob, cfg.retireWidth, IsCompleted());
    assert !IsCompleted()(c.rob[h]);
    h' := h - n;
  }

  lemma CompleteHead(cfg: Config, c: Core, h: nat, d: Core)
    requires CoreInv(cfg, c) && Head(c.rob, h) && d == Complete(cfg, c)
    ensures Head(d.rob, h) && d.rob[h].id == c.rob[h].id && d.cycle == c.cycle && d.warmup == c.warmup
    ensures Completing(c.rob[h], c.cycle) ==> d.rob[h].executed == Completed
    ensures d.rob[h].executed == Completed || SameClock(c.rob[h], d.rob[h])
  {
    var s' := CompleteScan(c.Regs(), 0, cfg.execWidth, c.cycle);
    CompleteScanReaches(c.Regs(), 0, h, cfg.execWidth, c.cycle);
    CompleteScanClock(c.Regs(), h, cfg.execWidth, c.cycle, s');
    CompleteScanKeeps(c.Regs(), h, cfg.execWidth, c.cycle, s');
    assert d.rob == s'.rob;
  }

  lemma ExecuteHead(cfg: Config, c: Core, h: nat, d: Core)
    requires CoreInv(cfg, c) && Head(c.rob, h) && d == Execute(cfg, c)
    ensures Head(d.rob, h) && d.rob[h].id == c.rob[h].id && d.cycle == c.cycle && d.warmup == c.warmup
    ensures var x, y := c.rob[h], d.rob[h];
      if x.scheduled && x.executed == Idle && x.event <= c.cycle
      then y.executed == Inflight && y.event == c.After(cfg.execLatency)
      else SameClock(x, y)
  {
    var event := c.After(cfg.execLatency);
    var m' := ExecuteScan(c.Mem(), 0, cfg.execWidth, c.cycle, event);
    OldestNeverWaits(c.Regs(), h);
    ExecuteScanReaches(c.Mem(), 0, h, cfg.execWidth, c.cycle, event);
    ExecuteScanClock(c.Mem(), h, cfg.execWidth, c.cycle, event, m');
    assert d.rob == m'.rob;
  }

  lemma ScheduleHead(cfg: Config, c: Core, h: nat, d: Core)
    requires CoreInv(cfg, c) && Head(c.rob, h) && d == Schedule(cfg, c)
    ensures Head(d.rob, h) && d.rob[h].id == c.rob[h].id && d.cycle == c.cycle && d.warmup == c.warmup
    ensures var x, y := c.rob[h], d.rob[h];
      if x.scheduled then SameClock(x, y)
      else y.scheduled && y.executed == x.executed && y.event == c.After(cfg.schedulingLatency)
  {
    var event := c.After(cfg.schedulingLatency);
    var s' := ScheduleScan(c.Regs(), 0, cfg.schedulerSize, event);
    ScheduleScanReaches(c.Regs(), 0, h, cfg.schedulerSize, event);
    ScheduleScanClock(c.Regs(), h, cfg.schedulerSize, event, s');
    ScheduleScanKeeps(c.Regs(), 0, cfg.schedulerSize, event, s');
    assert d.rob == s'.rob;
  }

  /** The instruction stages bring the oldest instruction one step closer to completion,
      as seen from the next cycle. */
  lemma InstructionStagesAdvance(cfg: Config, c: Core, h: nat, d: Core) returns (h': nat)
    requires CoreInv(cfg, c) && Head(c.rob, h) && c.rob[h].executed != Completed && d == InstructionStages(cfg, c)
    ensures Head(d.rob, h') && d.rob[h'].id == c.rob[h].id
    ensures Countdown(cfg, d.rob[h'], c.cycle + 1) < Countdown(cfg, c.rob[h], c.cycle)
  {
    hide Retire; hide Complete; hide Execute; hide Schedule;
    var c1 := Retire(cfg, c);
    RetireStageKeeps(cfg, c);
    h' := RetireHead(cfg, c, h, c1);
    var c2 := Complete(cfg, c1);
    CompleteKeeps(cfg, c1);
    CompleteHead(cfg, c1, h', c2);
    var c3 := Execute(cfg, c2);
    ExecuteKeeps(cfg, c2);
    ExecuteHead(cfg, c2, h', c3);
    ScheduleHead(cfg, c3, h', d);
  }

  // ---- The rest of the cycle ----

  /** Later stages credit memory operations and append instructions. */
  ghost predicate Carried(a: Rob, b: Rob) {
    && |a| <= |b|
    && forall k :: 0 <= k < |a| ==>
         b[k] == a[k].(memDone := b[k].memDone) && b[k].memDone >= a[k].memDone
  }

  lemma CarriedTrans(a: Rob, b: Rob, c: Rob)
    requires Carried(a, b) && Carried(b, c)
    ensures Carried(a, c)
  {
    forall k | 0 <= k < |a| ensures c[k] == a[k].(memDone := c[k].memDone) && c[k].memDone >= a[k].memDone {
      assert b[k] == a[k].(memDone := b[k].memDone);
    }
  }

  lemma QueuesCarry(cfg: Config, c: Core, env: Env, d: Core)
    requires CoreInv(cfg, c) && d == OperateLsq(cfg, MemoryReturn(cfg, c, env.blocks), env.room, env.accepts)
    ensures Carried(c.rob, d.rob) && d.cycle == c.cycle && d.warmup == c.warmup
  {
    var taken := env.blocks[..Min(cfg.l1dBandwidth, |env.blocks|)];
    ReturnBlocksKeeps(c.Mem(), taken, cfg.blockSize);
    var c1 := MemoryReturn(cfg, c, env.blocks);
    assert Credited(c.rob, c1.rob);
    MemoryReturnKeeps(cfg, c, env.blocks);
    hide MemoryReturn;
    LsqCarries(cfg, c1, env, d);
    CarriedTrans(c.rob, c1.rob, d.rob);
  }

  lemma LsqCarries(cfg: Config, c: Core, env: Env, d: Core)
    requires CoreInv(cfg, c) && d == OperateLsq(cfg, c, env.room, env.accepts)
    ensures Carried(c.rob, d.rob) && d.cycle == c.cycle && d.warmup == c.warmup
  {
    var from := First(c.sq, Unfinished());
    FinishSpanKeeps(c.Mem(), cfg.sqWidth, c.cycle,
        FinishStores(c.Mem(), from, Finishable(c.sq, from, cfg.sqWidth, c.cycle), c.cycle));
  }

  lemma CarriedSelf(a: Rob)
    ensures Carried(a, a)
  {
  }

  lemma {:induction false} DispatchCarries(cfg: Config, c: Core, bw: nat, d: Core)
    requires CoreInv(cfg, c) && d == Dispatch(cfg, c, bw)
    ensures Carried(c.rob, d.rob) && d.cycle == c.cycle && d.warmup == c.warmup
    decreases bw
  {
    hide DispatchOne, CoreInv, Carried;
    if bw == 0 || !CanDispatch(cfg, c) {
      CarriedSelf(c.rob);
    } else {
      var next := DispatchOne(c);
      DispatchOneKeeps(cfg, c);
      DispatchOneCarries(cfg, c, next);
      DispatchCarries(cfg, next, bw - 1, d);
      CarriedTrans(c.rob, next.rob, d.rob);
    }
  }

  lemma DispatchOneCarries(cfg: Config, c: Core, d: Core)
    requires CoreInv(cfg, c) && CanDispatch(cfg, c) && d == DispatchOne(c)
    ensures Carried(c.rob, d.rob) && d.cycle == c.cycle && d.warmup == c.warmup
  {
    var x, m := c.dispatch[0], c.Mem();
    var m' := DoMemoryScheduling(m.(rob := m.rob + [x]), |m.rob|);
    assert d.rob == m'.rob;
    HeadOfLine(c);
    assert Fresh(Upcoming(c)[0]) && StoresOlderThan(c.sq, Upcoming(c)[0].id);
    DispatchMemoryKeeps(m, x, m');
    assert forall k :: 0 <= k < |c.rob| ==> (m.rob + [x])[k] == c.rob[k];
  }

  lemma CarriedHead(cfg: Config, a: Rob, h: nat, d: Core)
    requires Head(a, h) && Carried(a, d.rob) && CoreInv(cfg, d)
    ensures Head(d.rob, h) && d.rob[h].id == a[h].id && SameClock(a[h], d.rob[h])
  {
    assert d.rob[h] == a[h].(memDone := d.rob[h].memDone);
    assert Conserved(d.Mem(), 0, 0);
  }

  lemma BackEndAdvances(cfg: Config, c: Core, h: nat, env: Env, d: Core) returns (h': nat)
    requires CoreInv(cfg, c) && d == BackEnd(cfg, c, env)
    requires Head(c.rob, h) && c.rob[h].executed != Completed
    ensures CoreInv(cfg, d) && Head(d.rob, h') && d.rob[h'].id == c.rob[h].id && d.cycle == c.cycle
    ensures Countdown(cfg, d.rob[h'], c.cycle + 1) < Countdown(cfg, c.rob[h], c.cycle)
  {
    assert cfg.blockSize > 0;
    hide InstructionStages; hide MemoryReturn; hide OperateLsq;
    var c1 := InstructionStages(cfg, c);
    InstructionStagesKeep(cfg, c, c1);
    h' := InstructionStagesAdvance(cfg, c, h, c1);
    InstructionStagesClock(cfg, c, c1);
    BackEndKeeps(cfg, c, env, d);
    QueuesCarry(cfg, c1, env, d);
    CarriedHead(cfg, c1.rob, h', d);
  }

  lemma InstructionStagesClock(cfg: Config, c: Core, d: Core)
    requires d == InstructionStages(cfg, c)
    ensures d.cycle == c.cycle && d.warmup == c.warmup
  {
  }

  lemma FrontEndCarries(cfg: Config, c: Core, env: Env, d: Core)
    requires CoreInv(cfg, c) && d == FrontEnd(cfg, c, env)
    ensures CoreInv(cfg, d) && Carried(c.rob, d.rob) && d.cycle == c.cycle
  {
    hide Dispatch;
    FrontEndKeeps(cfg, c, env, d);
    var c3 := Dispatch(cfg, c, cfg.dispatchWidth);
    DispatchCarries(cfg, c, cfg.dispatchWidth, c3);
    assert d.rob == c3.rob;
  }

  lemma CoreInvMeansPositive(cfg: Config, c: Core)
    requires CoreInv(cfg, c)
    ensures cfg.Valid()
  {
  }

  /** One call of the core brings the oldest instruction one step closer to completion. */
  lemma OperateAdvances(cfg: Config, c: Core, h: nat, env: Env, d: Core) returns (h': nat)
    requires CoreInv(cfg, c) && ValidArrivals(c, env.arrivals) && d == Operate(cfg, c, env)
    requires Head(c.rob, h) && c.rob[h].executed != Completed
    ensures Head(d.rob, h') && d.rob[h'].id == c.rob[h].id
    ensures Countdown(cfg, d.rob[h'], d.cycle) < Countdown(cfg, c.rob[h], c.cycle)
  {
    hide BackEnd, FrontEnd, CoreInv, ValidArrivals, Carried;
    CoreInvMeansPositive(cfg, c);
    var a := c.(input := c.input + env.arrivals);
    var c0 := a.(ifetch := MarkFetched(a.ifetch, env.fetched));
    assert CoreInv(cfg, c0) by {
      ArrivalsKeep(cfg, c, env.arrivals);
      MarksKeep(cfg, a, MarkFetched(a.ifetch, env.fetched));
    }
    var c1 := BackEnd(cfg, c0, env);
    h' := BackEndAdvances(cfg, c0, h, env, c1);
    var c2 := FrontEnd(cfg, c1, env);
    FrontEndCarries(cfg, c1, env, c2);
    CarriedHead(cfg, c1.rob, h', c2);
    assert d.rob == c2.rob && d.cycle == c2.cycle + 1;
  }

  /** Which instruction is where may change, the countdown only falls: after at most
      `Countdown` calls the oldest instruction has completed. */
  lemma {:induction false} OldestCompletes(cfg: Config, c: Core, h: nat, es: seq<Cycle>) returns (n: nat, h': nat)
    requires CoreInv(cfg, c) && ValidRun(cfg, c, es)
    requires Head(c.rob, h) && Countdown(cfg, c.rob[h], c.cycle) <= |es|
    ensures n <= Countdown(cfg, c.rob[h], c.cycle)
    ensures var d := Run(cfg, c, es[..n]);
      Head(d.rob, h') && d.rob[h'].id == c.rob[h].id && d.rob[h'].executed == Completed
    decreases |es|
  {
    hide Operate, CoreInv, Run;
    CoreInvMeansPositive(cfg, c);
    if c.rob[h].executed == Completed {
      n, h' := 0, h;
      RunNothing(cfg, c, es);
    } else {
      var w := c.(warmup := c.warmup && !es[0].endsWarmup);
      WarmupEnds(cfg, c, w);
      var next := Next(cfg, c, es[0]);
      NextKeeps(cfg, c, es[0], next);
      var h1 := OperateAdvances(cfg, w, h, es[0].env, next);
      var m;
      m, h' := OldestCompletes(cfg, next, h1, es[1..]);
      n := m + 1;
      RunStep(cfg, c, es, m);
    }
  }

  lemma RunNothing(cfg: Config, c: Core, es: seq<Cycle>)
    requires cfg.Valid()
    ensures Run(cfg, c, es[..0]) == c
  {
  }

  lemma RunStep(cfg: Config, c: Core, es: seq<Cycle>, m: nat)
    requires cfg.Valid() && m < |es|
    ensures Run(cfg, c, es[..m + 1]) == Run(cfg, Next(cfg, c, es[0]), es[1..][..m])
  {
    hide Operate;
    assert es[..m + 1][1..] == es[1..][..m];
  }

  // ---- Readiness times stay within the latencies ----

  ghost predicate Timely(cfg: Config, rob: Rob, now: nat) {
    forall i :: 0 <= i < |rob| ==>
      && (rob[i].executed == Idle && rob[i].scheduled ==> rob[i].event <= now + cfg.schedulingLatency)
      && (rob[i].executed == Inflight ==> rob[i].event <= now + cfg.execLatency)
  }

  lemma TimelyRetire(cfg: Config, c: Core, d: Core)
    requires Timely(cfg, c.rob, c.cycle) && d == Retire(cfg, c)
    ensures Timely(cfg, d.rob, c.cycle) && d.cycle == c.cycle && d.warmup == c.warmup
  {
  }

  lemma TimelyComplete(cfg: Config, c: Core, d: Core)
    requires CoreInv(cfg, c) && Timely(cfg, c.rob, c.cycle) && d == Complete(cfg, c)
    ensures Timely(cfg, d.rob, c.cycle) && d.cycle == c.cycle && d.warmup == c.warmup
  {
    CompleteScanClock(c.Regs(), 0, cfg.execWidth, c.cycle, CompleteScan(c.Regs(), 0, cfg.execWidth, c.cycle));
  }

  lemma TimelyExecute(cfg: Config, c: Core, d: Core)
    requires Timely(cfg, c.rob, c.cycle) && d == Execute(cfg, c)
    ensures Timely(cfg, d.rob, c.cycle) && d.cycle == c.cycle && d.warmup == c.warmup
  {
    var event := c.After(cfg.execLatency);
    ExecuteScanClock(c.Mem(), 0, cfg.execWidth, c.cycle, event, ExecuteScan(c.Mem(), 0, cfg.execWidth, c.cycle, event));
  }

  lemma TimelySchedule(cfg: Config, c: Core, d: Core)
    requires CoreInv(cfg, c) && Timely(cfg, c.rob, c.cycle) && d == Schedule(cfg, c)
    ensures Timely(cfg, d.rob, c.cycle) && d.cycle == c.cycle && d.warmup == c.warmup
  {
    var event := c.After(cfg.schedulingLatency);
    ScheduleScanClock(c.Regs(), 0, cfg.schedulerSize, event, ScheduleScan(c.Regs(), 0, cfg.schedulerSize, event));
  }

  lemma TimelyStages(cfg: Config, c: Core, d: Core)
    requires CoreInv(cfg, c) && Timely(cfg, c.rob, c.cycle) && d == InstructionStages(cfg, c)
    ensures Timely(cfg, d.rob, c.cycle)
  {
    hide Retire; hide Complete; hide Execute; hide Schedule; hide CoreInv; hide Timely;
    var c1 := Retire(cfg, c);
    RetireStageKeeps(cfg, c);
    TimelyRetire(cfg, c, c1);
    var c2 := Complete(cfg, c1);
    CompleteKeeps(cfg, c1);
    TimelyComplete(cfg, c1, c2);
    var c3 := Execute(cfg, c2);
    ExecuteKeeps(cfg, c2);
    TimelyExecute(cfg, c2, c3);
    TimelySchedule(cfg, c3, d);
  }

  lemma {:induction false} DispatchTimely(cfg: Config, c: Core, bw: nat, d: Core)
    requires CoreInv(cfg, c) && Timely(cfg, c.rob, c.cycle) && d == Dispatch(cfg, c, bw)
    ensures Timely(cfg, d.rob, c.cycle)
    decreases bw
  {
    hide DispatchOne, CoreInv, Timely;
    if bw == 0 || !CanDispatch(cfg, c) {
    } else {
      var next := DispatchOne(c);
      DispatchOneKeeps(cfg, c);
      DispatchOneCarries(cfg, c, next);
      DispatchOneTimely(cfg, c, next);
      DispatchTimely(cfg, next, bw - 1, d);
    }
  }

  lemma DispatchOneTimely(cfg: Config, c: Core, d: Core)
    requires CoreInv(cfg, c) && CanDispatch(cfg, c) && Timely(cfg, c.rob, c.cycle) && d == DispatchOne(c)
    ensures Timely(cfg, d.rob, c.cycle)
  {
    var x, m := c.dispatch[0], c.Mem();
    var rob1 := m.rob + [x];
    var m' := DoMemoryScheduling(m.(rob := rob1), |m.rob|);
    assert d.rob == m'.rob;
    HeadOfLine(c);
    assert Fresh(Upcoming(c)[0]) && StoresOlderThan(c.sq, Upcoming(c)[0].id);
    DispatchMemoryKeeps(m, x, m');
    assert forall k :: 0 <= k < |c.rob| ==> rob1[k] == c.rob[k];
    forall k | 0 <= k < |d.rob| ensures d.rob[k] == rob1[k].(memDone := d.rob[k].memDone) { }
  }

  lemma WholeBackEndTimely(cfg: Config, c: Core, env: Env, d: Core)
    requires CoreInv(cfg, c) && Timely(cfg, c.rob, c.cycle) && d == BackEnd(cfg, c, env)
    ensures Timely(cfg, d.rob, d.cycle) && d.cycle == c.cycle
  {
    assert cfg.blockSize > 0;
    hide InstructionStages; hide MemoryReturn; hide OperateLsq;
    var c1 := InstructionStages(cfg, c);
    TimelyStages(cfg, c, c1);
    InstructionStagesKeep(cfg, c, c1);
    InstructionStagesClock(cfg, c, c1);
    BackEndTimely(cfg, c1, env, d);
  }

  lemma FrontEndTimely(cfg: Config, c: Core, env: Env, d: Core)
    requires CoreInv(cfg, c) && Timely(cfg, c.rob, c.cycle) && d == FrontEnd(cfg, c, env)
    ensures Timely(cfg, d.rob, d.cycle) && d.cycle == c.cycle
  {
    hide Dispatch;
    var c1 := Dispatch(cfg, c, cfg.dispatchWidth);
    DispatchTimely(cfg, c, cfg.dispatchWidth, c1);
    DispatchCarries(cfg, c, cfg.dispatchWidth, c1);
    assert d.rob == c1.rob;
  }

  lemma OperateTimely(cfg: Config, c: Core, env: Env, d: Core)
    requires CoreInv(cfg, c) && ValidArrivals(c, env.arrivals) && Timely(cfg, c.rob, c.cycle)
    requires d == Operate(cfg, c, env)
    ensures Timely(cfg, d.rob, d.cycle)
  {
    hide BackEnd; hide FrontEnd;
    var a := c.(input := c.input + env.arrivals);
    var c0 := a.(ifetch := MarkFetched(a.ifetch, env.fetched));
    assert CoreInv(cfg, c0) by {
      ArrivalsKeep(cfg, c, env.arrivals);
      MarksKeep(cfg, a, MarkFetched(a.ifetch, env.fetched));
    }
    var c1 := BackEnd(cfg, c0, env);
    BackEndKeeps(cfg, c0, env, c1);
    WholeBackEndTimely(cfg, c0, env, c1);
    FrontEndTimely(cfg, c1, env, FrontEnd(cfg, c1, env));
  }

  lemma BackEndTimely(cfg: Config, c: Core, env: Env, d: Core)
    requires CoreInv(cfg, c) && d == OperateLsq(cfg, MemoryReturn(cfg, c, env.blocks), env.room, env.accepts)
    requires Timely(cfg, c.rob, c.cycle)
    ensures Timely(cfg, d.rob, c.cycle) && d.cycle == c.cycle && |d.rob| == |c.rob|
  {
    QueuesCarry(cfg, c, env, d);
    forall k | 0 <= k < |c.rob| ensures d.rob[k] == c.rob[k].(memDone := d.rob[k].memDone) { }
    SameRobLength(cfg, c, env);
  }

  lemma SameRobLength(cfg: Config, c: Core, env: Env)
    requires cfg.blockSize > 0
    ensures |OperateLsq(cfg, MemoryReturn(cfg, c, env.blocks), env.room, env.accepts).rob| == |c.rob|
  {
  }

  lemma {:induction false} RunTimely(cfg: Config, c: Core, es: seq<Cycle>, d: Core)
    requires CoreInv(cfg, c) && ValidRun(cfg, c, es) && Timely(cfg, c.rob, c.cycle) && d == Run(cfg, c, es)
    ensures Timely(cfg, d.rob, d.cycle)
    decreases |es|
  {
    hide Operate;
    if es == [] {
    } else {
      var w := c.(warmup := c.warmup && !es[0].endsWarmup);
      WarmupEnds(cfg, c, w);
      var next := Next(cfg, c, es[0]);
      NextKeeps(cfg, c, es[0], next);
      OperateTimely(cfg, w, es[0].env, next);
      RunTimely(cfg, next, es[1..], d);
    }
  }

  /** The most calls the oldest uncompleted instruction can need. */
  function Bound(cfg: Config): nat {
    1 + AtLeastOne(cfg.execLatency) + AtLeastOne(cfg.schedulingLatency)
  }

  lemma CountdownWithinBound(cfg: Config, c: Core, h: nat)
    requires Timely(cfg, c.rob, c.cycle) && h < |c.rob|
    ensures Countdown(cfg, c.rob[h], c.cycle) <= Bound(cfg)
  {
  }

  /** In every reachable state: whatever happens next, the oldest uncompleted instruction,
      once its memory operations are done, completes within `Bound` calls. */
  lemma EveryRunCompletesTheOldest(cfg: Config, warmup: bool, past: seq<Cycle>, c: Core, h: nat, future: seq<Cycle>)
    returns (n: nat, h': nat)
    requires cfg.Valid() && ValidRun(cfg, Reset(cfg, warmup), past) && c == Run(cfg, Reset(cfg, warmup), past)
    requires OldestAt(c.rob, h) && c.rob[h].memDone == c.rob[h].MemOps()
    requires ValidRun(cfg, c, future) && |future| >= Bound(cfg)
    ensures n <= Bound(cfg)
    ensures var d := Run(cfg, c, future[..n]);
      h' < |d.rob| && d.rob[h'].id == c.rob[h].id && d.rob[h'].executed == Completed
  {
    ReachableIsTimely(cfg, warmup, past, c);
    n, h' := TimelyOldestCompletes(cfg, c, h, future);
  }

  lemma ReachableIsTimely(cfg: Config, warmup: bool, past: seq<Cycle>, c: Core)
    requires cfg.Valid() && ValidRun(cfg, Reset(cfg, warmup), past) && c == Run(cfg, Reset(cfg, warmup), past)
    ensures CoreInv(cfg, c) && Timely(cfg, c.rob, c.cycle)
  {
    hide Run, ValidRun, CoreInv;
    ResetInv(cfg, warmup);
    RunTimely(cfg, Reset(cfg, warmup), past, c);
    RunKeepsInv(cfg, Reset(cfg, warmup), past, c);
  }

  lemma TimelyOldestCompletes(cfg: Config, c: Core, h: nat, future: seq<Cycle>) returns (n: nat, h': nat)
    requires CoreInv(cfg, c) && Timely(cfg, c.rob, c.cycle) && ValidRun(cfg, c, future) && |future| >= Bound(cfg)
    requires OldestAt(c.rob, h) && c.rob[h].memDone == c.rob[h].MemOps()
    ensures n <= Bound(cfg)
    ensures var d := Run(cfg, c, future[..n]);
      h' < |d.rob| && d.rob[h'].id == c.rob[h].id && d.rob[h'].executed == Completed
  {
    CountdownWithinBound(cfg, c, h);
    n, h' := OldestCompletes(cfg, c, h, future);
  }
}
