/** The invariant of the whole core, and what it means for every run. */
module CoreProof {
  import opened CoreState
  import opened CoreRegisters
  import opened CoreRegistersProof
  import opened CoreMemory
  import opened CoreMemoryProof
  import opened CoreCycle
  import opened CoreStores
  import opened Scans

  /** What identifies an instruction from trace to retirement. */
  datatype Ident = Ident(id: Id, loads: seq<Addr>, stores: seq<Addr>)

  function Identify(s: seq<Instr>): (r: seq<Ident>)
    ensures |r| == |s|
  {
    seq(|s|, i requires 0 <= i < |s| => Ident(s[i].id, s[i].loads, s[i].stores))
  }

  /** Everything ever taken from the trace, oldest first. */
  function Line(c: Core): seq<Instr> {
    c.retired + c.rob + c.dispatch + c.decode + c.ifetch + c.input
  }

  function Upcoming(c: Core): seq<Instr> {
    c.dispatch + c.decode + c.ifetch + c.input
  }

  ghost predicate AllFresh(s: seq<Instr>) {
    forall i :: 0 <= i < |s| ==> Fresh(s[i]) && s[i].memDone == 0
  }

  ghost predicate AllCompleted(s: seq<Instr>) {
    forall i :: 0 <= i < |s| ==> s[i].executed == Completed
  }

  ghost predicate WithinSizes(cfg: Config, c: Core) {
    && |c.ifetch| <= cfg.ifetchSize && |c.decode| <= cfg.decodeSize && |c.dispatch| <= cfg.dispatchSize
    && |c.rob| <= cfg.robSize && |c.lq| == cfg.lqSize && |c.sq| <= cfg.sqSize
  }

  ghost predicate CoreInv(cfg: Config, c: Core) {
    && cfg.Valid() && WithinSizes(cfg, c)
    && RegInv(c.Regs()) && MemInv(c.Mem())
    && Ordered(Line(c)) && AllFresh(Upcoming(c)) && AllCompleted(c.retired)
    && (forall k :: 0 <= k < |Upcoming(c)| ==> StoresOlderThan(c.sq, Upcoming(c)[k].id))
    && StoresInv(c)
  }

  // ---- Scans over the reorder buffer ----

  /** Register completion leaves the memory side alone and completes only instructions
      whose memory operations are done. */
  ghost predicate CompletedSome(a: Rob, b: Rob) {
    && SameMemoryState(a, b)
    && forall k :: 0 <= k < |a| && b[k].executed == Completed ==>
          a[k].executed == Completed || a[k].memDone == a[k].MemOps()
  }

  lemma CompletedAtSome(a: Rob, b: Rob, i: nat)
    requires CompletedAt(a, b, i) && a[i].memDone == a[i].MemOps()
    ensures CompletedSome(a, b)
  {
  }

  lemma CompletedSomeTrans(a: Rob, b: Rob, c: Rob)
    requires CompletedSome(a, b) && CompletedSome(b, c)
    ensures CompletedSome(a, c)
  {
  }

  lemma {:induction false} CompleteScanKeeps(s: Regs, i: nat, bw: nat, now: nat, s': Regs)
    requires RegInv(s) && i <= |s.rob| && s' == CompleteScan(s, i, bw, now)
    ensures RegInv(s') && CompletedSome(s.rob, s'.rob)
    decreases |s.rob| - i
  {
    if i == |s.rob| || bw == 0 {
    } else {
      if Completing(s.rob[i], now) {
        hide DoCompleteExecution;
        var next := DoCompleteExecution(s, i);
        CompletionKeeps(s, i);
        CompletedAtSome(s.rob, next.rob, i);
        CompleteScanKeeps(next, i + 1, bw - 1, now, s');
        CompletedSomeTrans(s.rob, next.rob, s'.rob);
      } else {
        CompleteScanKeeps(s, i + 1, bw, now, s');
      }
    }
  }

  /** Scheduling leaves the memory side and all execution states alone. */
  ghost predicate ScheduledSome(a: Rob, b: Rob) {
    && SameMemoryState(a, b)
    && forall k :: 0 <= k < |a| ==> b[k].executed == a[k].executed
  }

  lemma {:induction false} LinkLeavesMemory(rob: Rob, producers: Producers, i: nat, sources: seq<Reg>, rob': Rob)
    requires i < |rob| && rob' == Link(rob, producers, i, sources)
    ensures ScheduledSome(rob, rob')
    decreases |sources|
  {
    if sources == [] {
    } else {
      var next := LinkOne(rob, producers[sources[0]], i);
      LinkOneLeavesMemory(rob, producers[sources[0]], i, next);
      hide LinkOne;
      LinkLeavesMemory(next, producers, i, sources[1..], rob');
    }
  }

  lemma LinkOneLeavesMemory(rob: Rob, list: seq<Id>, i: nat, rob': Rob)
    requires i < |rob| && rob' == LinkOne(rob, list, i)
    ensures ScheduledSome(rob, rob')
  {
  }

  lemma DoSchedulingLeavesMemory(s: Regs, i: nat, event: nat, s': Regs)
    requires i < |s.rob| && s' == DoScheduling(s, i, event)
    ensures ScheduledSome(s.rob, s'.rob)
  {
    LinkLeavesMemory(s.rob, s.producers, i, s.rob[i].sources, Link(s.rob, s.producers, i, s.rob[i].sources));
  }

  lemma ScheduleStepKeeps(s: Regs, i: nat, event: nat, s1: Regs)
    requires RegInv(s) && i < |s.rob| && s1 == ScheduleStep(s, i, event)
    requires forall k :: 0 <= k < i ==> s.rob[k].scheduled
    ensures RegInv(s1) && ScheduledSome(s.rob, s1.rob)
    ensures forall k :: 0 <= k < i + 1 ==> s1.rob[k].scheduled
  {
    hide DoScheduling;
    if !s.rob[i].scheduled {
      SchedulingKeeps(s, i, event);
      DoSchedulingLeavesMemory(s, i, event, s1);
    }
  }

  lemma ScheduledSomeTrans(a: Rob, b: Rob, c: Rob)
    requires ScheduledSome(a, b) && ScheduledSome(b, c)
    ensures ScheduledSome(a, c)
  {
  }

  lemma {:induction false} ScheduleScanKeeps(s: Regs, i: nat, bw: nat, event: nat, s': Regs)
    requires RegInv(s) && i <= |s.rob| && s' == ScheduleScan(s, i, bw, event)
    requires forall k :: 0 <= k < i ==> s.rob[k].scheduled
    ensures RegInv(s') && ScheduledSome(s.rob, s'.rob)
    decreases |s.rob| - i
  {
    if i == |s.rob| || bw == 0 {
    } else {
      hide ScheduleStep;
      var s1 := ScheduleStep(s, i, event);
      ScheduleStepKeeps(s, i, event, s1);
      ScheduleScanKeeps(s1, i + 1, if s1.rob[i].executed == Idle then bw - 1 else bw, event, s');
      ScheduledSomeTrans(s.rob, s1.rob, s'.rob);
    }
  }

  /** Execution only starts instructions that are ready to start. */
  ghost predicate StartedSome(a: Rob, b: Rob, now: nat) {
    && |a| == |b|
    && forall k :: 0 <= k < |a| ==>
         b[k] == a[k] || (Starting(a[k], now) && b[k] == a[k].(executed := Inflight, event := b[k].event))
  }

  lemma {:induction false} ExecuteScanKeeps(m: Mem, i: nat, bw: nat, now: nat, event: nat, m': Mem)
    requires MemInv(m) && i <= |m.rob| && m' == ExecuteScan(m, i, bw, now, event)
    ensures MemInv(m') && StartedSome(m.rob, m'.rob, now) && SameStores(m.sq, m'.sq) && |m'.lq| == |m.lq|
    ensures forall k :: 0 <= k < i ==> m'.rob[k] == m.rob[k]
    decreases |m.rob| - i
  {
    if i == |m.rob| || bw == 0 {
    } else {
      if Starting(m.rob[i], now) {
        var next := DoExecution(m, i, event);
        DoExecutionKeeps(m, i, event, next);
        assert next.rob == m.rob[i := m.rob[i].(executed := Inflight, event := event)];
        assert SameStores(m.sq, next.sq);
        hide DoExecution;
        ExecuteScanKeeps(next, i + 1, bw - 1, now, event, m');
      } else {
        ExecuteScanKeeps(m, i + 1, bw, now, event, m');
      }
    }
  }

  lemma StartedFrame(a: Rob, b: Rob, now: nat)
    requires StartedSome(a, b, now)
    ensures SameRegisterState(a, b) && SameMemoryState(a, b)
  {
  }

  lemma CreditedFrame(a: Rob, b: Rob)
    requires Credited(a, b)
    ensures SameRegisterState(a, b)
    ensures SameIds(a, b) && forall k :: 0 <= k < |a| ==> b[k].loads == a[k].loads && b[k].stores == a[k].stores
  {
    forall k | 0 <= k < |a| ensures b[k] == a[k].(memDone := b[k].memDone) { }
  }

  // ---- Stages that stay inside the reorder buffer and the queues ----

  ghost predicate SameFront(c: Core, d: Core) {
    && d.input == c.input && d.ifetch == c.ifetch && d.decode == c.decode && d.dispatch == c.dispatch
    && d.retired == c.retired && d.storesSent == c.storesSent
  }

  ghost predicate SameIdents(a: Rob, b: Rob) {
    && SameIds(a, b)
    && forall k :: 0 <= k < |a| ==> b[k].loads == a[k].loads && b[k].stores == a[k].stores
  }

  lemma IdentifyOrder(a: seq<Instr>, b: seq<Instr>)
    requires Identify(a) == Identify(b) && Ordered(a)
    ensures Ordered(b)
  {
    forall i, j | 0 <= i < j < |b| ensures b[i].id < b[j].id {
      assert Identify(a)[i].id == Identify(b)[i].id && Identify(a)[j].id == Identify(b)[j].id;
    }
  }

  lemma IdentifySplit(a: seq<Instr>, b: seq<Instr>)
    ensures Identify(a + b) == Identify(a) + Identify(b)
  {
  }

  lemma IdentifyRob(a: Rob, b: Rob)
    requires SameIdents(a, b)
    ensures Identify(a) == Identify(b)
  {
  }

  lemma InPlaceKeeps(cfg: Config, c: Core, d: Core)
    requires CoreInv(cfg, c) && SameFront(c, d)
    requires RegInv(d.Regs()) && MemInv(d.Mem())
    requires SameIdents(c.rob, d.rob) && |d.lq| == |c.lq|
    requires |d.sq| == |c.sq|
    requires forall j :: 0 <= j < |c.sq| ==> d.sq[j].id == c.sq[j].id && d.sq[j].addr == c.sq[j].addr
    ensures CoreInv(cfg, d) && Identify(Line(d)) == Identify(Line(c))
  {
    StoresInvFrame(c, d);
    hide StoresInv;
    var tail := Upcoming(c);
    IdentifyRob(c.rob, d.rob);
    assert Line(c) == c.retired + c.rob + tail && Line(d) == c.retired + d.rob + tail;
    IdentifySplit(c.retired + c.rob, tail);
    IdentifySplit(c.retired + d.rob, tail);
    IdentifySplit(c.retired, c.rob);
    IdentifySplit(c.retired, d.rob);
    IdentifyOrder(Line(c), Line(d));
    assert Upcoming(d) == tail;
  }

  lemma CompleteKeeps(cfg: Config, c: Core)
    requires CoreInv(cfg, c)
    ensures CoreInv(cfg, Complete(cfg, c)) && Identify(Line(Complete(cfg, c))) == Identify(Line(c))
  {
    var s' := CompleteScan(c.Regs(), 0, cfg.execWidth, c.cycle);
    CompleteScanKeeps(c.Regs(), 0, cfg.execWidth, c.cycle, s');
    var d := Complete(cfg, c);
    hide CompleteScan;
    MemInvFrame(c.Mem(), s'.rob);
    assert d.Mem() == c.Mem().(rob := s'.rob) && d.Regs() == s';
    InPlaceKeeps(cfg, c, d);
  }

  lemma ExecuteKeeps(cfg: Config, c: Core)
    requires CoreInv(cfg, c)
    ensures CoreInv(cfg, Execute(cfg, c)) && Identify(Line(Execute(cfg, c))) == Identify(Line(c))
    ensures StartedSome(c.rob, Execute(cfg, c).rob, c.cycle)
  {
    var m' := ExecuteScan(c.Mem(), 0, cfg.execWidth, c.cycle, c.After(cfg.execLatency));
    ExecuteScanKeeps(c.Mem(), 0, cfg.execWidth, c.cycle, c.After(cfg.execLatency), m');
    var d := Execute(cfg, c);
    hide ExecuteScan;
    StartedFrame(c.rob, m'.rob, c.cycle);
    RegInvFrame(c.Regs(), d.Regs());
    assert d.Mem() == m';
    InPlaceKeeps(cfg, c, d);
  }

  lemma ScheduleKeeps(cfg: Config, c: Core)
    requires CoreInv(cfg, c)
    ensures CoreInv(cfg, Schedule(cfg, c)) && Identify(Line(Schedule(cfg, c))) == Identify(Line(c))
  {
    var s' := ScheduleScan(c.Regs(), 0, cfg.schedulerSize, c.After(cfg.schedulingLatency));
    ScheduleScanKeeps(c.Regs(), 0, cfg.schedulerSize, c.After(cfg.schedulingLatency), s');
    var d := Schedule(cfg, c);
    hide ScheduleScan;
    MemInvFrame(c.Mem(), s'.rob);
    assert d.Mem() == c.Mem().(rob := s'.rob) && d.Regs() == s';
    InPlaceKeeps(cfg, c, d);
  }

  lemma MemoryReturnKeeps(cfg: Config, c: Core, blocks: seq<nat>)
    requires CoreInv(cfg, c)
    ensures CoreInv(cfg, MemoryReturn(cfg, c, blocks))
    ensures Identify(Line(MemoryReturn(cfg, c, blocks))) == Identify(Line(c))
  {
    var taken := blocks[..Min(cfg.l1dBandwidth, |blocks|)];
    var (rob, lq) := ReturnBlocks(c.rob, c.lq, taken, cfg.blockSize);
    ReturnBlocksKeeps(c.Mem(), taken, cfg.blockSize);
    var d := MemoryReturn(cfg, c, blocks);
    assert d == c.(rob := rob, lq := lq);
    hide ReturnBlocks;
    CreditedFrame(c.rob, rob);
    RegInvFrame(c.Regs(), d.Regs());
    InPlaceKeeps(cfg, c, d);
  }

  /** The stores that finish are the next unfinished ones, so finished stores stay in
      front and the search for the first unfinished one stays sound. */
  lemma FinishSpanKeeps(m: Mem, bw: nat, now: nat, m': Mem)
    requires MemInv(m)
    requires var from := First(m.sq, Unfinished()); m' == FinishStores(m, from, Finishable(m.sq, from, bw, now), now)
    ensures MemInv(m') && Credited(m.rob, m'.rob) && |m'.lq| == |m.lq|
    ensures |m'.sq| == |m.sq|
    ensures forall b :: 0 <= b < |m.sq| ==> m'.sq[b].id == m.sq[b].id && m'.sq[b].addr == m.sq[b].addr
  {
    var from := First(m.sq, Unfinished());
    var n := Finishable(m.sq, from, bw, now);
    forall b | 0 <= b < from ensures m.sq[b].finished {
      assert !Unfinished()(m.sq[b]);
    }
    FinishStoresKeeps(m, from, n, now, m');
    FinishStoresMarks(m, from, n, now, m');
  }

  lemma FinishStageKeeps(cfg: Config, c: Core, d: Core)
    requires CoreInv(cfg, c) && d == FinishStage(cfg, c).0
    ensures CoreInv(cfg, d) && Identify(Line(d)) == Identify(Line(c))
  {
    hide FinishStores;
    var from := First(c.sq, Unfinished());
    var m' := FinishStores(c.Mem(), from, Finishable(c.sq, from, cfg.sqWidth, c.cycle), c.cycle);
    FinishSpanKeeps(c.Mem(), cfg.sqWidth, c.cycle, m');
    assert d == c.WithMem(m');
    CreditedFrame(c.rob, m'.rob);
    RegInvFrame(c.Regs(), d.Regs());
    assert d.Mem() == m';
    InPlaceKeeps(cfg, c, d);
  }

  // ---- Retirement, outgoing requests ----

  lemma RetireLine(c: Core, d: Core, n: nat)
    requires n <= |c.rob| && d.retired == c.retired + c.rob[..n] && d.rob == c.rob[n..]
    requires d.dispatch == c.dispatch && d.decode == c.decode && d.ifetch == c.ifetch && d.input == c.input
    ensures Line(d) == Line(c) && Upcoming(d) == Upcoming(c)
  {
    assert c.rob == c.rob[..n] + c.rob[n..];
  }

  lemma RetireStageKeeps(cfg: Config, c: Core)
    requires CoreInv(cfg, c)
    ensures CoreInv(cfg, Retire(cfg, c)) && Line(Retire(cfg, c)) == Line(c)
  {
    var n := Span(c.rob, cfg.retireWidth, IsCompleted());
    forall k | 0 <= k < n ensures c.rob[k].executed == Completed {
      assert IsCompleted()(c.rob[k]);
    }
    RetireAtMost(cfg, c, Retire(cfg, c), n);
  }

  lemma RetireAtMost(cfg: Config, c: Core, d: Core, n: nat)
    requires CoreInv(cfg, c) && n <= |c.rob| && forall k :: 0 <= k < n ==> c.rob[k].executed == Completed
    requires d == c.(retired := c.retired + c.rob[..n], rob := c.rob[n..])
    ensures CoreInv(cfg, d) && Line(d) == Line(c)
  {
    RetireLine(c, d, n);
    RetireStores(c, d, n);
    hide StoresInv;
    assert RegInv(d.Regs()) by { RetireKeeps(c.Regs(), n); }
    assert MemInv(d.Mem()) by { RetireMemoryKeeps(c.Mem(), n); }
  }

  /** A store that leaves is finished, and is a store of an instruction that retired. */
  lemma LeavingStoreIsRetired(cfg: Config, c: Core, bw: nat, room: nat, j: nat)
    requires CoreInv(cfg, c) && j < Completable(c.sq, 0, bw, Front(c.rob), c.cycle, room)
    ensures c.sq[j].finished && StoredBy(c.retired, Request(c.sq[j].id, c.sq[j].addr))
    ensures forall k :: 0 <= k < |c.rob| ==> c.sq[j].id < c.rob[k].id
  {
    var n := Completable(c.sq, 0, bw, Front(c.rob), c.cycle, room);
    forall i | 0 <= i <= j ensures c.sq[i].finished && forall k :: 0 <= k < |c.rob| ==> c.sq[i].id < c.rob[k].id {
      RetiredStoresAreFinished(c.Mem(), i);
    }
    assert StoresInv(c) && |c.sq| > j;
    hide CoreInv, MemInv, Completable, Front;
    var d := c.(sq := c.sq[j + 1..], storesSent := c.storesSent + StoreRequests(c.sq[..j + 1]));
    SendStoresOf(c, d, j + 1);
    var m := |c.storesSent| + j;
    assert d.storesSent[m] == Request(c.sq[j].id, c.sq[j].addr) && d.storesSent[m] == StoresOf(c.retired)[m];
    StoresOfMember(c.retired, m);
  }

  lemma SendStoresKeeps(cfg: Config, c: Core, bw: nat, room: nat)
    requires CoreInv(cfg, c)
    ensures CoreInv(cfg, SendStores(c, bw, room)) && Line(SendStores(c, bw, room)) == Line(c)
  {
    var n := Completable(c.sq, 0, bw, Front(c.rob), c.cycle, room);
    var d := SendStores(c, bw, room);
    forall j | 0 <= j < n ensures c.sq[j].finished && forall k :: 0 <= k < |c.rob| ==> c.sq[j].id < c.rob[k].id {
      LeavingStoreIsRetired(cfg, c, bw, room, j);
    }
    DropStoresKeeps(c.Mem(), n);
    assert d.Mem() == c.Mem().(sq := c.sq[n..]) && d.Regs() == c.Regs();
    assert Upcoming(d) == Upcoming(c);
    SendStoresOf(c, d, n);
  }

  lemma SendLoadsKeeps(cfg: Config, c: Core, accepts: set<nat>)
    requires CoreInv(cfg, c)
    ensures CoreInv(cfg, SendLoads(cfg, c, accepts)) && Line(SendLoads(cfg, c, accepts)) == Line(c)
  {
    var lq := IssueLoads(c.lq, 0, cfg.lqWidth, c.cycle, accepts);
    var d := SendLoads(cfg, c, accepts);
    IssueOnlyIssues(c.lq, 0, cfg.lqWidth, c.cycle, accepts);
    SameLoadsKeeps(c.Mem(), lq);
    assert d.Mem() == c.Mem().(lq := lq) && d.Regs() == c.Regs();
    assert Upcoming(d) == Upcoming(c) && StoresInv(d);
  }

  // ---- Dispatch and the front end ----

  lemma DispatchedRegs(s: Regs, x: Instr, rob': Rob)
    requires RegInv(s) && Fresh(x) && Credited(s.rob + [x], rob')
    requires forall k :: 0 <= k < |s.rob| ==> s.rob[k].id < x.id
    ensures RegInv(CoreRegisters.Regs(rob', s.producers))
  {
    DispatchKeeps(s, x);
    CreditedFrame(s.rob + [x], rob');
    RegInvFrame(CoreRegisters.Regs(s.rob + [x], s.producers), CoreRegisters.Regs(rob', s.producers));
  }

  lemma HeadOfLine(c: Core)
    requires Ordered(Line(c)) && c.dispatch != []
    ensures forall k :: 0 <= k < |c.rob| ==> c.rob[k].id < c.dispatch[0].id
    ensures forall k :: 0 < k < |Upcoming(c)| ==> c.dispatch[0].id < Upcoming(c)[k].id
    ensures Upcoming(c)[0] == c.dispatch[0]
  {
    var line, n := Line(c), |c.retired| + |c.rob|;
    assert line == c.retired + c.rob + Upcoming(c);
    assert line[n] == c.dispatch[0];
    forall k | 0 <= k < |c.rob| ensures c.rob[k].id < c.dispatch[0].id {
      assert line[|c.retired| + k] == c.rob[k];
    }
    forall k | 0 < k < |Upcoming(c)| ensures c.dispatch[0].id < Upcoming(c)[k].id {
      assert line[n + k] == Upcoming(c)[k];
    }
  }

  lemma DispatchedUpcoming(c: Core, d: Core, x: Instr)
    requires Ordered(Line(c)) && c.dispatch != [] && x == c.dispatch[0]
    requires AllFresh(Upcoming(c)) && forall k :: 0 <= k < |Upcoming(c)| ==> StoresOlderThan(c.sq, Upcoming(c)[k].id)
    requires d.dispatch == c.dispatch[1..] && d.decode == c.decode && d.ifetch == c.ifetch && d.input == c.input
    requires Appends(c.sq, x, d.sq)
    ensures Upcoming(d) == Upcoming(c)[1..] && AllFresh(Upcoming(d))
    ensures forall k :: 0 <= k < |Upcoming(d)| ==> StoresOlderThan(d.sq, Upcoming(d)[k].id)
  {
    HeadOfLine(c);
    assert Upcoming(d) == Upcoming(c)[1..];
    forall k | 0 <= k < |Upcoming(d)| ensures StoresOlderThan(d.sq, Upcoming(d)[k].id) {
      assert Upcoming(d)[k] == Upcoming(c)[k + 1];
      assert StoresOlderThan(c.sq, Upcoming(c)[k + 1].id);
    }
  }

  /** What is known of the instruction that is dispatched next. */
  lemma DispatchReady(cfg: Config, c: Core, x: Instr)
    requires CoreInv(cfg, c) && c.dispatch != [] && x == c.dispatch[0]
    ensures Fresh(x) && x.memDone == 0 && StoresOlderThan(c.sq, x.id) && MemInv(c.Mem()) && RegInv(c.Regs())
    ensures forall k :: 0 <= k < |c.rob| ==> c.rob[k].id < x.id
  {
    HeadOfLine(c);
    assert Fresh(Upcoming(c)[0]) && StoresOlderThan(c.sq, Upcoming(c)[0].id);
  }

  lemma DispatchOneKeeps(cfg: Config, c: Core)
    requires CoreInv(cfg, c) && CanDispatch(cfg, c)
    ensures CoreInv(cfg, DispatchOne(c)) && Identify(Line(DispatchOne(c))) == Identify(Line(c))
  {
    hide CoreInv, RegInv, MemInv, CoreMemory.DoMemoryScheduling, StoresOlderThan;
    var x, m := c.dispatch[0], c.Mem();
    var m' := DoMemoryScheduling(m.(rob := m.rob + [x]), |m.rob|);
    DispatchReady(cfg, c, x);
    DispatchMemoryKeeps(m, x, m');
    DispatchedRegs(c.Regs(), x, m'.rob);
    DispatchAssembles(cfg, c, c.WithMem(m').(dispatch := c.dispatch[1..]), x);
  }

  lemma DispatchAssembles(cfg: Config, c: Core, d: Core, x: Instr)
    requires CoreInv(cfg, c) && CanDispatch(cfg, c) && x == c.dispatch[0]
    requires d == c.WithMem(d.Mem()).(dispatch := c.dispatch[1..]) && Credited(c.rob + [x], d.rob)
    requires RegInv(d.Regs()) && MemInv(d.Mem()) && |d.lq| == |c.lq| && Appends(c.sq, x, d.sq)
    ensures CoreInv(cfg, d) && Identify(Line(d)) == Identify(Line(c))
  {
    DispatchLine(c, d, x);
    DispatchedUpcoming(c, d, x);
    CreditedFrame(c.rob + [x], d.rob);
    DispatchStores(c, d, x);
    hide StoresInv;
  }

  lemma DispatchLine(c: Core, d: Core, x: Instr)
    requires Ordered(Line(c)) && c.dispatch != [] && x == c.dispatch[0] && Credited(c.rob + [x], d.rob)
    requires d.retired == c.retired && d.dispatch == c.dispatch[1..] && d.decode == c.decode && d.ifetch == c.ifetch
    requires d.input == c.input
    ensures Identify(Line(d)) == Identify(Line(c)) && Ordered(Line(d))
  {
    var tail := Upcoming(d);
    CreditedFrame(c.rob + [x], d.rob);
    IdentifyRob(c.rob + [x], d.rob);
    assert c.dispatch == [x] + c.dispatch[1..];
    assert Line(c) == c.retired + (c.rob + [x]) + tail && Line(d) == c.retired + d.rob + tail;
    IdentifySplit(c.retired + (c.rob + [x]), tail);
    IdentifySplit(c.retired + d.rob, tail);
    IdentifySplit(c.retired, c.rob + [x]);
    IdentifySplit(c.retired, d.rob);
    IdentifyOrder(Line(c), Line(d));
  }

  lemma {:induction false} DispatchStageKeeps(cfg: Config, c: Core, bw: nat, d: Core)
    requires CoreInv(cfg, c) && d == Dispatch(cfg, c, bw)
    ensures CoreInv(cfg, d) && Identify(Line(d)) == Identify(Line(c))
    decreases bw
  {
    hide DispatchOne;
    if bw == 0 || !CanDispatch(cfg, c) {
    } else {
      DispatchOneKeeps(cfg, c);
      DispatchStageKeeps(cfg, DispatchOne(c), bw - 1, d);
    }
  }

  /** The front end changes readiness, fetch state and register lists, never identity. */
  ghost predicate Restamped(a: seq<Instr>, b: seq<Instr>) {
    && |a| == |b|
    && (forall k :: 0 <= k < |a| ==> b[k].id == a[k].id && b[k].loads == a[k].loads && b[k].stores == a[k].stores)
    && (forall k :: 0 <= k < |a| && Fresh(a[k]) && a[k].memDone == 0 ==> Fresh(b[k]) && b[k].memDone == 0)
  }

  lemma RestampedConcat(a1: seq<Instr>, b1: seq<Instr>, a2: seq<Instr>, b2: seq<Instr>)
    requires Restamped(a1, b1) && Restamped(a2, b2)
    ensures Restamped(a1 + a2, b1 + b2)
  {
  }

  lemma FrontKeeps(cfg: Config, c: Core, d: Core)
    requires CoreInv(cfg, c) && Restamped(Upcoming(c), Upcoming(d))
    requires d == c.(ifetch := d.ifetch, decode := d.decode, dispatch := d.dispatch, input := d.input)
    requires |d.ifetch| <= cfg.ifetchSize && |d.decode| <= cfg.decodeSize && |d.dispatch| <= cfg.dispatchSize
    ensures CoreInv(cfg, d) && Identify(Line(d)) == Identify(Line(c))
  {
    assert Line(c) == c.retired + c.rob + Upcoming(c) && Line(d) == c.retired + c.rob + Upcoming(d);
    IdentifySplit(c.retired + c.rob, Upcoming(c));
    IdentifySplit(c.retired + c.rob, Upcoming(d));
    IdentifyRob(Upcoming(c), Upcoming(d));
    IdentifyOrder(Line(c), Line(d));
    forall k | 0 <= k < |Upcoming(d)| ensures StoresOlderThan(d.sq, Upcoming(d)[k].id) {
      assert StoresOlderThan(c.sq, Upcoming(c)[k].id);
    }
    assert StoresInv(d);
  }

  lemma MoveRestamped(front: seq<Instr>, s: seq<Instr>, n: nat, moved: seq<Instr>)
    requires n <= |s| && Restamped(s[..n], moved)
    ensures Restamped(front + s, front + moved + s[n..])
  {
    assert front + s == front + s[..n] + s[n..];
    RestampedConcat(front, front, s[..n], moved);
    RestampedConcat(front + s[..n], front + moved, s[n..], s[n..]);
  }

  lemma DecodeKeeps(cfg: Config, c: Core)
    requires CoreInv(cfg, c)
    ensures CoreInv(cfg, Decode(cfg, c)) && Identify(Line(Decode(cfg, c))) == Identify(Line(c))
  {
    var d := Decode(cfg, c);
    var n := |c.decode| - |d.decode|;
    MoveRestamped(c.dispatch, c.decode, n, Stamp(c.decode[..n], c, cfg.dispatchLatency, false));
    RestampedConcat(c.dispatch + c.decode, d.dispatch + d.decode, c.ifetch, c.ifetch);
    RestampedConcat(c.dispatch + c.decode + c.ifetch, d.dispatch + d.decode + c.ifetch, c.input, c.input);
    FrontKeeps(cfg, c, d);
  }

  lemma PromoteKeeps(cfg: Config, c: Core)
    requires CoreInv(cfg, c)
    ensures CoreInv(cfg, Promote(cfg, c)) && Identify(Line(Promote(cfg, c))) == Identify(Line(c))
  {
    hide StoresInv, MemInv, RegInv;
    var d := Promote(cfg, c);
    var n := |c.ifetch| - |d.ifetch|;
    var moved := Stamp(c.ifetch[..n], c, cfg.decodeLatency, true);
    MoveRestamped(c.dispatch + c.decode, c.ifetch, n, moved);
    assert d.dispatch + d.decode == c.dispatch + c.decode + moved;
    RestampedConcat(c.dispatch + c.decode + c.ifetch, d.dispatch + d.decode + d.ifetch, c.input, c.input);
    FrontKeeps(cfg, c, d);
  }

  lemma MarksKeep(cfg: Config, c: Core, ifetch: seq<Instr>)
    requires CoreInv(cfg, c) && Restamped(c.ifetch, ifetch)
    ensures CoreInv(cfg, c.(ifetch := ifetch)) && Identify(Line(c.(ifetch := ifetch))) == Identify(Line(c))
  {
    var front := c.dispatch + c.decode;
    RestampedConcat(front, front, c.ifetch, ifetch);
    RestampedConcat(front + c.ifetch, front + ifetch, c.input, c.input);
    FrontKeeps(cfg, c, c.(ifetch := ifetch));
  }

  lemma InitializeKeeps(cfg: Config, c: Core, takes: nat)
    requires CoreInv(cfg, c)
    ensures CoreInv(cfg, Initialize(cfg, c, takes)) && Identify(Line(Initialize(cfg, c, takes))) == Identify(Line(c))
  {
    var d := Initialize(cfg, c, takes);
    var n := |c.input| - |d.input|;
    var moved := InitAll(c.input[..n], c);
    MoveRestamped(c.dispatch + c.decode + c.ifetch, c.input, n, moved);
    assert d.dispatch + d.decode + d.ifetch == c.dispatch + c.decode + c.ifetch + moved;
    FrontKeeps(cfg, c, d);
  }

  // ---- Whole cycles and runs ----

  /** New trace instructions: fresh, with ids that rise along the trace. */
  ghost predicate ValidArrivals(c: Core, arrivals: seq<Instr>) {
    Ordered(Line(c) + arrivals) && AllFresh(arrivals)
  }

  /** Every queued store is older than what arrives, being one of the dispatched. */
  lemma StoresOlderThanArrivals(cfg: Config, c: Core, arrivals: seq<Instr>, k: nat)
    requires CoreInv(cfg, c) && ValidArrivals(c, arrivals) && k < |arrivals|
    ensures StoresOlderThan(c.sq, arrivals[k].id)
  {
    var line, known := Line(c) + arrivals, c.retired + c.rob;
    assert line == known + Upcoming(c) + arrivals;
    forall j | 0 <= j < |c.sq| ensures c.sq[j].id < arrivals[k].id {
      QueuedStoreIsKnown(c, j);
      var i :| 0 <= i < |known| && known[i].id == c.sq[j].id;
      assert line[i] == known[i] && line[|Line(c)| + k] == arrivals[k];
    }
  }

  lemma ArrivalsKeep(cfg: Config, c: Core, arrivals: seq<Instr>)
    requires CoreInv(cfg, c) && ValidArrivals(c, arrivals)
    ensures var d := c.(input := c.input + arrivals);
      CoreInv(cfg, d) && Identify(Line(d)) == Identify(Line(c)) + Identify(arrivals)
  {
    var d := c.(input := c.input + arrivals);
    assert Line(d) == Line(c) + arrivals;
    IdentifySplit(Line(c), arrivals);
    assert Upcoming(d) == Upcoming(c) + arrivals && StoresInv(d);
    forall k | 0 <= k < |Upcoming(d)| ensures StoresOlderThan(d.sq, Upcoming(d)[k].id) {
      if k < |Upcoming(c)| {
        assert Upcoming(d)[k] == Upcoming(c)[k];
      } else {
        StoresOlderThanArrivals(cfg, c, arrivals, k - |Upcoming(c)|);
      }
    }
  }

  lemma InstructionStagesKeep(cfg: Config, c: Core, d: Core)
    requires CoreInv(cfg, c) && d == InstructionStages(cfg, c)
    ensures CoreInv(cfg, d) && Identify(Line(d)) == Identify(Line(c))
  {
    hide Retire; hide Complete; hide Execute; hide Schedule; hide CoreInv; hide Line; hide Identify;
    var c1 := Retire(cfg, c);
    var c2 := Complete(cfg, c1);
    var c3 := Execute(cfg, c2);
    RetireStageKeeps(cfg, c);
    CompleteKeeps(cfg, c1);
    ExecuteKeeps(cfg, c2);
    ScheduleKeeps(cfg, c3);
  }

  lemma OperateLsqKeeps(cfg: Config, c: Core, room: nat, accepts: set<nat>, d: Core)
    requires CoreInv(cfg, c) && d == OperateLsq(cfg, c, room, accepts)
    ensures CoreInv(cfg, d) && Identify(Line(d)) == Identify(Line(c))
  {
    hide FinishStage; hide SendStores; hide SendLoads; hide CoreInv; hide Line; hide Identify;
    var r := FinishStage(cfg, c);
    FinishStageKeeps(cfg, c, r.0);
    SendStoresKeeps(cfg, r.0, cfg.sqWidth - r.1, room);
    SendLoadsKeeps(cfg, SendStores(r.0, cfg.sqWidth - r.1, room), accepts);
  }

  lemma BackEndKeeps(cfg: Config, c: Core, env: Env, d: Core)
    requires CoreInv(cfg, c) && d == BackEnd(cfg, c, env)
    ensures CoreInv(cfg, d) && Identify(Line(d)) == Identify(Line(c))
  {
    assert cfg.blockSize > 0;
    hide InstructionStages; hide MemoryReturn; hide OperateLsq; hide CoreInv; hide Line; hide Identify;
    var c1 := InstructionStages(cfg, c);
    InstructionStagesKeep(cfg, c, c1);
    MemoryReturnKeeps(cfg, c1, env.blocks);
    OperateLsqKeeps(cfg, MemoryReturn(cfg, c1, env.blocks), env.room, env.accepts, d);
  }

  lemma FrontEndKeeps(cfg: Config, c: Core, env: Env, d: Core)
    requires CoreInv(cfg, c) && d == FrontEnd(cfg, c, env)
    ensures CoreInv(cfg, d) && Identify(Line(d)) == Identify(Line(c))
  {
    hide Dispatch; hide Decode; hide Promote; hide Initialize; hide CoreInv; hide Line; hide Identify; hide OperateLsq;
    var c1 := Dispatch(cfg, c, cfg.dispatchWidth);
    DispatchStageKeeps(cfg, c, cfg.dispatchWidth, c1);
    DecodeKeeps(cfg, c1);
    PromoteKeeps(cfg, Decode(cfg, c1));
    var c3 := Promote(cfg, Decode(cfg, c1));
    MarksKeep(cfg, c3, MarkHits(c3.ifetch, env.dibHits, c3.cycle));
    InitializeKeeps(cfg, c3.(ifetch := MarkHits(c3.ifetch, env.dibHits, c3.cycle)), env.takes);
  }

  /** A whole cycle keeps the invariant, and retired, in-flight and waiting instructions
      together stay exactly what was taken from the trace, in order. */
  lemma OperateKeeps(cfg: Config, c: Core, env: Env)
    requires CoreInv(cfg, c) && ValidArrivals(c, env.arrivals)
    ensures CoreInv(cfg, Operate(cfg, c, env))
    ensures Identify(Line(Operate(cfg, c, env))) == Identify(Line(c)) + Identify(env.arrivals)
  {
    hide BackEnd; hide FrontEnd;
    var a := c.(input := c.input + env.arrivals);
    ArrivalsKeep(cfg, c, env.arrivals);
    var c0 := a.(ifetch := MarkFetched(a.ifetch, env.fetched));
    MarksKeep(cfg, a, MarkFetched(a.ifetch, env.fetched));
    var c1 := BackEnd(cfg, c0, env);
    BackEndKeeps(cfg, c0, env, c1);
    var c2 := FrontEnd(cfg, c1, env);
    FrontEndKeeps(cfg, c1, env, c2);
    var d := Operate(cfg, c, env);
    assert d == c2.(cycle := c2.cycle + 1);
    assert Line(d) == Line(c2) && Upcoming(d) == Upcoming(c2) && StoresInv(d);
    assert d.Regs() == c2.Regs() && d.Mem() == c2.Mem();
  }
}
