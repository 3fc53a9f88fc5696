/** The registers of the trace: what an instruction reads and writes in the pipeline is
    what it reads and writes in the trace, and read-after-write safety is about those. */
module CoreTrace {
  import opened Options
  import opened CoreState
  import opened CoreRegisters
  import opened CoreRegistersProof
  import opened CoreMemory
  import opened CoreCycle
  import opened CoreProof
  import opened CoreRuns
  import opened Scans

  /** What no stage changes once an instruction has entered the pipeline. */
  datatype Static = Static(
    id: Id, sources: seq<Reg>, destinations: seq<Reg>, loads: seq<Addr>, stores: seq<Addr>, isBranch: bool)

  function StaticOf(x: Instr): Static {
    Static(x.id, x.sources, x.destinations, x.loads, x.stores, x.isBranch)
  }

  ghost predicate SameStatic(a: seq<Instr>, b: seq<Instr>) {
    |a| == |b| && forall k :: 0 <= k < |a| ==> StaticOf(b[k]) == StaticOf(a[k])
  }

  lemma SameStaticTrans(a: seq<Instr>, b: seq<Instr>, c: seq<Instr>)
    requires SameStatic(a, b) && SameStatic(b, c)
    ensures SameStatic(a, c)
  {
  }

  lemma SameStaticConcat(a: seq<Instr>, b: seq<Instr>, c: seq<Instr>, d: seq<Instr>)
    requires SameStatic(a, b) && SameStatic(c, d)
    ensures SameStatic(a + c, b + d)
  {
  }

  // ---- What enters the pipeline ----

  /** The new stack pointer is known once the instruction is decoded: by a branch, with a
      memory operand, or computed from the stack pointer, flags and instruction pointer only. */
  ghost predicate KnownAtDecode(x: Instr) {
    || x.isBranch || x.loads != [] || x.stores != []
    || forall r :: r in x.sources ==> r == REG_STACK_POINTER || r == REG_FLAGS || r == REG_INSTRUCTION_POINTER
  }

  /** The instruction makes later readers of `r` wait. */
  ghost predicate Writes(x: Instr, r: Reg) {
    r in x.destinations && !(r == REG_STACK_POINTER && KnownAtDecode(x))
  }

  /** `y` is the trace instruction `x` in the pipeline; the warm-up clears its registers. */
  ghost predicate Enters(x: Instr, y: Instr, cleared: bool) {
    && y.id == x.id && y.loads == x.loads && y.stores == x.stores && y.isBranch == x.isBranch
    && y.sources == (if cleared then [] else x.sources)
    && forall r: Reg :: r in y.destinations <==> !cleared && Writes(x, r)
  }

  lemma {:induction false} WithoutRemoves(regs: seq<Reg>, r: Reg, q: Reg)
    ensures q in Without(regs, r) <==> q in regs && q != r
  {
    if regs == [] {
    } else {
      WithoutRemoves(regs[1..], r, q);
      assert q in regs <==> q == regs[0] || q in regs[1..];
    }
  }

  lemma FoldingWrites(x: Instr, r: Reg)
    ensures r in FoldStackPointer(x).destinations <==> Writes(x, r)
  {
    WithoutRemoves(x.destinations, REG_STACK_POINTER, r);
    hide Without;
    var readsOther := exists i ::
      0 <= i < |x.sources| && x.sources[i] !in {REG_STACK_POINTER, REG_FLAGS, REG_INSTRUCTION_POINTER};
    if readsOther {
      var i :| 0 <= i < |x.sources|
               && x.sources[i] !in {REG_STACK_POINTER, REG_FLAGS, REG_INSTRUCTION_POINTER};
      assert x.sources[i] in x.sources;
    } else {
      forall q | q in x.sources ensures q == REG_STACK_POINTER || q == REG_FLAGS || q == REG_INSTRUCTION_POINTER {
        var i :| 0 <= i < |x.sources| && x.sources[i] == q;
      }
    }
  }

  /** Initialisation clears the registers exactly during warm-up, and drops exactly the
      stack-pointer writes that are known at decode. */
  lemma InitEnters(x: Instr, c: Core)
    ensures Enters(x, InitInstruction(x, c), c.warmup) && InitInstruction(x, c).event == c.cycle
  {
    forall r: Reg ensures r in InitInstruction(x, c).destinations <==> !c.warmup && Writes(x, r) {
      FoldingWrites(x, r);
      FoldingWrites(x.(sources := [], destinations := []), r);
    }
  }

  // ---- No stage changes it ----

  lemma LinkOneStatic(rob: Rob, list: seq<Id>, i: nat)
    requires i < |rob|
    ensures SameStatic(rob, LinkOne(rob, list, i))
  {
  }

  lemma {:induction false} LinkStatic(rob: Rob, producers: Producers, i: nat, sources: seq<Reg>, rob': Rob)
    requires i < |rob| && rob' == Link(rob, producers, i, sources)
    ensures SameStatic(rob, rob')
    decreases |sources|
  {
    if sources == [] {
    } else {
      var next := LinkOne(rob, producers[sources[0]], i);
      LinkOneStatic(rob, producers[sources[0]], i);
      hide LinkOne;
      LinkStatic(next, producers, i, sources[1..], rob');
    }
  }

  lemma {:induction false} ScheduleScanStatic(s: Regs, i: nat, bw: nat, event: nat, s': Regs)
    requires i <= |s.rob| && s' == ScheduleScan(s, i, bw, event)
    ensures SameStatic(s.rob, s'.rob)
    decreases |s.rob| - i
  {
    if i == |s.rob| || bw == 0 {
    } else {
      var s1 := ScheduleStep(s, i, event);
      if !s.rob[i].scheduled {
        LinkStatic(s.rob, s.producers, i, s.rob[i].sources, Link(s.rob, s.producers, i, s.rob[i].sources));
      }
      assert SameStatic(s.rob, s1.rob);
      hide ScheduleStep;
      ScheduleScanStatic(s1, i + 1, if s1.rob[i].executed == Idle then bw - 1 else bw, event, s');
      SameStaticTrans(s.rob, s1.rob, s'.rob);
    }
  }

  lemma {:induction false} ReleaseStatic(rob: Rob, dependents: seq<Id>, rob': Rob)
    requires rob' == Release(rob, dependents)
    ensures SameStatic(rob, rob')
    decreases |dependents|
  {
    if dependents == [] {
    } else {
      var p := Position(rob, dependents[0]);
      var next := if p < |rob| then rob[p := ReleaseOne(rob[p])] else rob;
      ReleaseStatic(next, dependents[1..], rob');
      SameStaticTrans(rob, next, rob');
    }
  }

  lemma {:induction false} CompleteScanStatic(s: Regs, i: nat, bw: nat, now: nat, s': Regs)
    requires i <= |s.rob| && s' == CompleteScan(s, i, bw, now)
    ensures SameStatic(s.rob, s'.rob)
    decreases |s.rob| - i
  {
    if i == |s.rob| || bw == 0 {
    } else if Completing(s.rob[i], now) {
      var next := DoCompleteExecution(s, i);
      var done := s.rob[i := s.rob[i].(executed := Completed)];
      ReleaseStatic(done, s.rob[i].dependents, next.rob);
      SameStaticTrans(s.rob, done, next.rob);
      hide DoCompleteExecution;
      CompleteScanStatic(next, i + 1, bw - 1, now, s');
      SameStaticTrans(s.rob, next.rob, s'.rob);
    } else {
      CompleteScanStatic(s, i + 1, bw, now, s');
    }
  }

  lemma {:induction false} ExecuteScanStatic(m: Mem, i: nat, bw: nat, now: nat, event: nat, m': Mem)
    requires i <= |m.rob| && m' == ExecuteScan(m, i, bw, now, event)
    ensures SameStatic(m.rob, m'.rob)
    decreases |m.rob| - i
  {
    if i == |m.rob| || bw == 0 {
    } else if Starting(m.rob[i], now) {
      var next := DoExecution(m, i, event);
      assert SameStatic(m.rob, next.rob);
      hide DoExecution;
      ExecuteScanStatic(next, i + 1, bw - 1, now, event, m');
      SameStaticTrans(m.rob, next.rob, m'.rob);
    } else {
      ExecuteScanStatic(m, i + 1, bw, now, event, m');
    }
  }

  lemma FinishStatic(rob: Rob, id: Id)
    ensures SameStatic(rob, Finish(rob, id))
  {
  }

  lemma {:induction false} ReturnBlockStatic(rob: Rob, lq: LoadQueue, k: nat, block: nat, blockSize: nat, rob': Rob)
    requires k <= |lq| && blockSize > 0 && rob' == ReturnBlock(rob, lq, k, block, blockSize).0
    ensures SameStatic(rob, rob')
    decreases |lq| - k
  {
    if k == |lq| {
    } else if Answers(lq[k], block, blockSize) {
      var next := Finish(rob, lq[k].value.id);
      FinishStatic(rob, lq[k].value.id);
      hide Finish;
      ReturnBlockStatic(next, lq[k := None], k + 1, block, blockSize, rob');
      SameStaticTrans(rob, next, rob');
    } else {
      ReturnBlockStatic(rob, lq, k + 1, block, blockSize, rob');
    }
  }

  lemma {:induction false} ReturnBlocksStatic(rob: Rob, lq: LoadQueue, blocks: seq<nat>, blockSize: nat, rob': Rob)
    requires blockSize > 0 && rob' == ReturnBlocks(rob, lq, blocks, blockSize).0
    ensures SameStatic(rob, rob')
    decreases |blocks|
  {
    if blocks == [] {
    } else {
      var next := ReturnBlock(rob, lq, 0, blocks[0], blockSize);
      ReturnBlockStatic(rob, lq, 0, blocks[0], blockSize, next.0);
      hide ReturnBlock;
      ReturnBlocksStatic(next.0, next.1, blocks[1..], blockSize, rob');
      SameStaticTrans(rob, next.0, rob');
    }
  }

  lemma {:induction false} ServeStatic(rob: Rob, lq: LoadQueue, waiting: seq<nat>, rob': Rob)
    requires rob' == Serve(rob, lq, waiting).0
    ensures SameStatic(rob, rob')
    decreases |waiting|
  {
    if waiting == [] {
    } else {
      var slot := waiting[0];
      if slot < |lq| && lq[slot].Some? {
        var next := Finish(rob, lq[slot].value.id);
        FinishStatic(rob, lq[slot].value.id);
        hide Finish;
        ServeStatic(next, lq[slot := None], waiting[1..], rob');
        SameStaticTrans(rob, next, rob');
      } else {
        ServeStatic(rob, lq, waiting[1..], rob');
      }
    }
  }

  lemma FinishStoreStatic(m: Mem, j: nat, now: nat, m': Mem)
    requires j < |m.sq| && m' == DoFinishStore(m, j, now)
    ensures SameStatic(m.rob, m'.rob)
  {
    hide Finish, Serve;
    var first := Finish(m.rob, m.sq[j].id);
    FinishStatic(m.rob, m.sq[j].id);
    ServeStatic(first, m.lq, m.sq[j].waiting, m'.rob);
    SameStaticTrans(m.rob, first, m'.rob);
  }

  lemma {:induction false} FinishStoresStatic(m: Mem, from: nat, n: nat, now: nat, m': Mem)
    requires from + n <= |m.sq| && m' == FinishStores(m, from, n, now)
    ensures SameStatic(m.rob, m'.rob)
    decreases n
  {
    hide DoFinishStore;
    if n == 0 {
    } else {
      var next := DoFinishStore(m, from, now);
      FinishStoresStatic(next, from + 1, n - 1, now, m');
      hide *;
      FinishStoreStatic(m, from, now, next);
      SameStaticTrans(m.rob, next.rob, m'.rob);
    }
  }

  lemma {:induction false} ScheduleLoadsStatic(m: Mem, i: nat, loads: seq<Addr>, m': Mem)
    requires i < |m.rob| && m' == ScheduleLoads(m, i, loads)
    ensures SameStatic(m.rob, m'.rob)
    decreases |loads|
  {
    if loads == [] {
    } else {
      var next := LoadOne(m, i, loads[0]);
      assert SameStatic(m.rob, next.rob);
      hide LoadOne;
      ScheduleLoadsStatic(next, i, loads[1..], m');
      SameStaticTrans(m.rob, next.rob, m'.rob);
    }
  }

  // ---- Stages on the whole line ----

  /** How many instructions of the line have entered the pipeline. */
  function Taken(c: Core): nat {
    |c.retired| + |c.rob| + |c.dispatch| + |c.decode| + |c.ifetch|
  }

  /** The stage moves instructions along the line at most. */
  ghost predicate Moves(c: Core, d: Core) {
    SameStatic(Line(c), Line(d)) && Taken(d) == Taken(c) && d.cycle == c.cycle && d.warmup == c.warmup
  }

  lemma MovesTrans(a: Core, b: Core, c: Core)
    requires Moves(a, b) && Moves(b, c)
    ensures Moves(a, c)
  {
    SameStaticTrans(Line(a), Line(b), Line(c));
  }

  /** A stage that changes fields of the reorder buffer's entries only. */
  lemma RobMoves(c: Core, d: Core)
    requires SameStatic(c.rob, d.rob) && d.cycle == c.cycle && d.warmup == c.warmup
    requires d.retired == c.retired && d.dispatch == c.dispatch && d.decode == c.decode && d.ifetch == c.ifetch
    requires d.input == c.input
    ensures Moves(c, d)
  {
    var tail := c.dispatch + c.decode + c.ifetch + c.input;
    SameStaticConcat(c.retired, c.retired, c.rob, d.rob);
    SameStaticConcat(c.retired + c.rob, c.retired + d.rob, tail, tail);
    assert Line(c) == c.retired + c.rob + tail && Line(d) == c.retired + d.rob + tail;
  }

  lemma RetireMoves(cfg: Config, c: Core)
    ensures Moves(c, Retire(cfg, c))
  {
    var n := Span(c.rob, cfg.retireWidth, IsCompleted());
    RetireLine(c, Retire(cfg, c), n);
  }

  lemma StagesMove(cfg: Config, c: Core, d: Core)
    requires d == InstructionStages(cfg, c)
    ensures Moves(c, d)
  {
    hide Moves, CompleteScan, ExecuteScan, ScheduleScan;
    var c1 := Retire(cfg, c);
    RetireMoves(cfg, c);
    var c2 := Complete(cfg, c1);
    CompleteScanStatic(c1.Regs(), 0, cfg.execWidth, c1.cycle, c2.Regs());
    RobMoves(c1, c2);
    MovesTrans(c, c1, c2);
    var c3 := Execute(cfg, c2);
    ExecuteScanStatic(c2.Mem(), 0, cfg.execWidth, c2.cycle, c2.After(cfg.execLatency), c3.Mem());
    RobMoves(c2, c3);
    MovesTrans(c, c2, c3);
    ScheduleScanStatic(c3.Regs(), 0, cfg.schedulerSize, c3.After(cfg.schedulingLatency), d.Regs());
    RobMoves(c3, d);
    MovesTrans(c, c3, d);
  }

  lemma BackEndMoves(cfg: Config, c: Core, env: Env, d: Core)
    requires cfg.blockSize > 0 && d == BackEnd(cfg, c, env)
    ensures Moves(c, d)
  {
    hide Moves, InstructionStages, ReturnBlocks, FinishStores, IssueLoads, Completable;
    var c1 := InstructionStages(cfg, c);
    StagesMove(cfg, c, c1);
    var c2 := MemoryReturn(cfg, c1, env.blocks);
    ReturnBlocksStatic(c1.rob, c1.lq, env.blocks[..Min(cfg.l1dBandwidth, |env.blocks|)], cfg.blockSize, c2.rob);
    RobMoves(c1, c2);
    MovesTrans(c, c1, c2);
    var (c3, n) := FinishStage(cfg, c2);
    var from := First(c2.sq, Unfinished());
    FinishStoresStatic(c2.Mem(), from, Finishable(c2.sq, from, cfg.sqWidth, c2.cycle), c2.cycle, c3.Mem());
    RobMoves(c2, c3);
    MovesTrans(c, c2, c3);
    RobMoves(c3, d);
    MovesTrans(c, c3, d);
  }

  lemma DispatchOneMoves(c: Core, d: Core)
    requires c.dispatch != [] && d == DispatchOne(c)
    ensures Moves(c, d)
  {
    var x, n := c.dispatch[0], |c.rob|;
    var m := c.Mem().(rob := c.rob + [x]);
    ScheduleLoadsStatic(m, n, x.loads, ScheduleLoads(m, n, x.loads));
    hide ScheduleLoads, ScheduleStores, SameStatic;
    NewEntryMoves(c, d, x);
  }

  lemma NewEntryMoves(c: Core, d: Core, x: Instr)
    requires c.dispatch == [x] + d.dispatch && SameStatic(c.rob + [x], d.rob)
    requires d.cycle == c.cycle && d.warmup == c.warmup
    requires d.retired == c.retired && d.decode == c.decode && d.ifetch == c.ifetch && d.input == c.input
    ensures Moves(c, d)
  {
    var tail := d.dispatch + c.decode + c.ifetch + c.input;
    SameStaticConcat(c.retired, c.retired, c.rob + [x], d.rob);
    SameStaticConcat(c.retired + (c.rob + [x]), c.retired + d.rob, tail, tail);
    assert |d.rob| == |c.rob| + 1;
    hide SameStatic;
    assert Line(c) == c.retired + (c.rob + [x]) + tail && Line(d) == c.retired + d.rob + tail;
  }

  lemma {:induction false} DispatchMoves(cfg: Config, c: Core, bw: nat, d: Core)
    requires d == Dispatch(cfg, c, bw)
    ensures Moves(c, d)
    decreases bw
  {
    if bw == 0 || !CanDispatch(cfg, c) {
      RobMoves(c, c);
    } else {
      var next := DispatchOne(c);
      DispatchOneMoves(c, next);
      hide Moves, DispatchOne;
      DispatchMoves(cfg, next, bw - 1, d);
      MovesTrans(c, next, d);
    }
  }

  /** A stage that changes fields of the instructions between the reorder buffer and the
      input only, and may move them. */
  lemma FrontMoves(c: Core, d: Core)
    requires SameStatic(c.dispatch + c.decode + c.ifetch, d.dispatch + d.decode + d.ifetch)
    requires d.retired == c.retired && d.rob == c.rob && d.input == c.input
    requires d.cycle == c.cycle && d.warmup == c.warmup
    ensures Moves(c, d)
  {
    var front, front' := c.dispatch + c.decode + c.ifetch, d.dispatch + d.decode + d.ifetch;
    SameStaticConcat(c.retired + c.rob, c.retired + c.rob, front, front');
    SameStaticConcat(c.retired + c.rob + front, c.retired + c.rob + front', c.input, c.input);
    assert Line(c) == c.retired + c.rob + front + c.input && Line(d) == c.retired + c.rob + front' + c.input;
    assert |front| == |c.dispatch| + |c.decode| + |c.ifetch| && |front'| == |d.dispatch| + |d.decode| + |d.ifetch|;
  }

  /** The first `n` of `s` go on, changed, to where `front` ends. */
  lemma MovedStatic(front: seq<Instr>, s: seq<Instr>, n: nat, moved: seq<Instr>, tail: seq<Instr>)
    requires n <= |s| && SameStatic(s[..n], moved)
    ensures SameStatic(front + s + tail, front + moved + s[n..] + tail)
  {
    assert s == s[..n] + s[n..];
    SameStaticConcat(front, front, s[..n], moved);
    SameStaticConcat(front + s[..n], front + moved, s[n..], s[n..]);
    SameStaticConcat(front + s[..n] + s[n..], front + moved + s[n..], tail, tail);
    assert front + s == front + s[..n] + s[n..];
  }

  lemma StampStatic(s: seq<Instr>, c: Core, latency: nat, skipDecoded: bool)
    ensures SameStatic(s, Stamp(s, c, latency, skipDecoded))
  {
  }

  lemma DecodeMoves(cfg: Config, c: Core)
    ensures Moves(c, Decode(cfg, c))
  {
    hide Stamp, SameStatic, Moves, Span;
    var d := Decode(cfg, c);
    var n := |c.decode| - |d.decode|;
    StampStatic(c.decode[..n], c, cfg.dispatchLatency, false);
    MovedStatic(c.dispatch, c.decode, n, Stamp(c.decode[..n], c, cfg.dispatchLatency, false), c.ifetch);
    FrontMoves(c, d);
  }

  lemma PromoteMoves(cfg: Config, c: Core)
    ensures Moves(c, Promote(cfg, c))
  {
    hide Stamp, SameStatic, Moves, Span;
    var d := Promote(cfg, c);
    var n := |c.ifetch| - |d.ifetch|;
    var front, moved := c.dispatch + c.decode, Stamp(c.ifetch[..n], c, cfg.decodeLatency, true);
    StampStatic(c.ifetch[..n], c, cfg.decodeLatency, true);
    MovedStatic(front, c.ifetch, n, moved, []);
    Regroup(c.dispatch, c.decode, [], c.ifetch);
    Regroup(c.dispatch, c.decode, moved, c.ifetch[n..]);
    hide Promote;
    FrontMoves(c, d);
  }

  lemma Regroup(a: seq<Instr>, b: seq<Instr>, m: seq<Instr>, rest: seq<Instr>)
    ensures (a + b) + m + rest + [] == a + (b + m) + rest
    ensures (a + b) + rest + [] == a + b + rest
  {
  }

  lemma MarksMove(c: Core, ifetch: seq<Instr>)
    requires SameStatic(c.ifetch, ifetch)
    ensures Moves(c, c.(ifetch := ifetch))
  {
    var front := c.dispatch + c.decode;
    SameStaticConcat(front, front, c.ifetch, ifetch);
    FrontMoves(c, c.(ifetch := ifetch));
  }

  // ---- The line and the trace ----

  /** The line is the trace so far, in order: the first `w` instructions entered during the
      warm-up, the later ones outside it, and the last ones still wait as they arrived. */
  ghost predicate FromTrace(c: Core, trace: seq<Instr>, w: nat) {
    && |Line(c)| == |trace| && w <= Taken(c)
    && (forall i :: 0 <= i < Taken(c) && i < |trace| ==> Enters(trace[i], Line(c)[i], i < w))
    && (forall i :: Taken(c) <= i < |trace| ==> StaticOf(Line(c)[i]) == StaticOf(trace[i]))
  }

  lemma MovesFromTrace(c: Core, d: Core, trace: seq<Instr>, w: nat)
    requires FromTrace(c, trace, w) && Moves(c, d)
    ensures FromTrace(d, trace, w)
  {
    forall i | 0 <= i < Taken(d) && i < |trace| ensures Enters(trace[i], Line(d)[i], i < w) {
      assert StaticOf(Line(d)[i]) == StaticOf(Line(c)[i]);
    }
  }

  lemma ArrivalsFromTrace(c: Core, d: Core, trace: seq<Instr>, w: nat, arrivals: seq<Instr>)
    requires FromTrace(c, trace, w) && d == c.(input := c.input + arrivals)
    ensures FromTrace(d, trace + arrivals, w)
  {
    assert Line(d) == Line(c) + arrivals;
  }

  /** Only initialisation lets instructions in, as the trace has them. */
  lemma InitializeFromTrace(cfg: Config, c: Core, takes: nat, d: Core, trace: seq<Instr>, w: nat)
    requires FromTrace(c, trace, w) && (c.warmup ==> w == Taken(c)) && d == Initialize(cfg, c, takes)
    ensures FromTrace(d, trace, if c.warmup then Taken(d) else w)
  {
    var n, w' := |c.input| - |d.input|, if c.warmup then Taken(d) else w;
    var before, k := c.retired + c.rob + c.dispatch + c.decode + c.ifetch, Taken(c);
    var moved := InitAll(c.input[..n], c);
    assert Line(c) == before + c.input && Line(d) == before + moved + c.input[n..];
    assert |before| == k && Taken(d) == k + n;
    forall i | 0 <= i < Taken(d) && i < |trace| ensures Enters(trace[i], Line(d)[i], i < w') {
      if i < k {
        assert Line(d)[i] == Line(c)[i];
      } else {
        assert Line(d)[i] == InitInstruction(c.input[i - k], c) && Line(c)[i] == c.input[i - k];
        InitEnters(c.input[i - k], c);
        EntersStatic(trace[i], c.input[i - k], Line(d)[i], c.warmup);
      }
    }
    forall i | Taken(d) <= i < |trace| ensures StaticOf(Line(d)[i]) == StaticOf(trace[i]) {
      assert Line(d)[i] == Line(c)[i];
    }
  }

  lemma EntersStatic(x: Instr, x': Instr, y: Instr, cleared: bool)
    requires StaticOf(x) == StaticOf(x') && Enters(x', y, cleared)
    ensures Enters(x, y, cleared)
  {
  }

  // ---- Runs ----

  lemma FrontEndFromTrace(cfg: Config, c: Core, env: Env, d: Core, trace: seq<Instr>, w: nat)
    requires FromTrace(c, trace, w) && (c.warmup ==> w == Taken(c)) && d == FrontEnd(cfg, c, env)
    ensures FromTrace(d, trace, if c.warmup then Taken(d) else w) && d.warmup == c.warmup
  {
    hide Dispatch, Decode, Promote, FromTrace, Moves, Initialize;
    var c1 := Dispatch(cfg, c, cfg.dispatchWidth);
    DispatchMoves(cfg, c, cfg.dispatchWidth, c1);
    var c2 := Decode(cfg, c1);
    DecodeMoves(cfg, c1);
    MovesTrans(c, c1, c2);
    var c3 := Promote(cfg, c2);
    PromoteMoves(cfg, c2);
    MovesTrans(c, c2, c3);
    var c4 := c3.(ifetch := MarkHits(c3.ifetch, env.dibHits, c3.cycle));
    HitsMove(c3, env.dibHits);
    MovesTrans(c, c3, c4);
    MovesFromTrace(c, c4, trace, w);
    MovesMeans(c, c4);
    InitializeFromTrace(cfg, c4, env.takes, d, trace, w);
    InitializeClock(cfg, c4, env.takes);
  }

  lemma HitsMove(c: Core, hits: set<Id>)
    ensures Moves(c, c.(ifetch := MarkHits(c.ifetch, hits, c.cycle)))
  {
    assert SameStatic(c.ifetch, MarkHits(c.ifetch, hits, c.cycle));
    MarksMove(c, MarkHits(c.ifetch, hits, c.cycle));
  }

  lemma FetchedMove(c: Core, fetched: set<Id>)
    ensures Moves(c, c.(ifetch := MarkFetched(c.ifetch, fetched)))
  {
    assert SameStatic(c.ifetch, MarkFetched(c.ifetch, fetched));
    MarksMove(c, MarkFetched(c.ifetch, fetched));
  }

  lemma MovesMeans(c: Core, d: Core)
    requires Moves(c, d)
    ensures Taken(d) == Taken(c) && d.warmup == c.warmup && d.cycle == c.cycle
  {
  }

  lemma InitializeClock(cfg: Config, c: Core, takes: nat)
    ensures Initialize(cfg, c, takes).warmup == c.warmup && Initialize(cfg, c, takes).cycle == c.cycle
  {
  }

  lemma AtStartFromTrace(c: Core, e: Cycle, a: Core, trace: seq<Instr>, w: nat)
    requires FromTrace(c, trace, w) && a == AtStart(c, e)
    ensures FromTrace(a, trace + e.env.arrivals, w) && Taken(a) == Taken(c) && a.warmup == (c.warmup && !e.endsWarmup)
  {
    var c0 := c.(warmup := c.warmup && !e.endsWarmup);
    assert Line(c0) == Line(c) && FromTrace(c0, trace, w);
    var c1 := c0.(input := c0.input + e.env.arrivals);
    ArrivalsFromTrace(c0, c1, trace, w, e.env.arrivals);
    hide FromTrace, Moves;
    FetchedMove(c1, e.env.fetched);
    MovesMeans(c1, a);
    MovesFromTrace(c1, a, trace + e.env.arrivals, w);
  }

  lemma NextFromTrace(cfg: Config, c: Core, e: Cycle, d: Core, trace: seq<Instr>, w: nat)
    requires cfg.blockSize > 0 && FromTrace(c, trace, w) && (c.warmup ==> w == Taken(c)) && d == Next(cfg, c, e)
    ensures d.warmup == (c.warmup && !e.endsWarmup)
    ensures FromTrace(d, trace + e.env.arrivals, if d.warmup then Taken(d) else w)
  {
    hide BackEnd, FrontEnd, FromTrace, Moves;
    var a := AtStart(c, e);
    AtStartFromTrace(c, e, a, trace, w);
    var b := BackEnd(cfg, a, e.env);
    BackEndMoves(cfg, a, e.env, b);
    MovesFromTrace(a, b, trace + e.env.arrivals, w);
    MovesMeans(a, b);
    var f := FrontEnd(cfg, b, e.env);
    FrontEndFromTrace(cfg, b, e.env, f, trace + e.env.arrivals, w);
    TickFromTrace(f, d, trace + e.env.arrivals, if d.warmup then Taken(d) else w);
  }

  lemma TickFromTrace(c: Core, d: Core, trace: seq<Instr>, w: nat)
    requires FromTrace(c, trace, w) && d == c.(cycle := c.cycle + 1)
    ensures FromTrace(d, trace, w)
  {
    assert Line(d) == Line(c);
  }

  /** How many instructions entered the pipeline before the warm-up ended. */
  function Warmed(cfg: Config, c: Core, es: seq<Cycle>): nat
    requires cfg.blockSize > 0
    decreases |es|
  {
    if es == [] || !c.warmup || es[0].endsWarmup then Taken(c) else Warmed(cfg, Next(cfg, c, es[0]), es[1..])
  }

  lemma {:induction false} RunFromTrace(cfg: Config, c: Core, es: seq<Cycle>, d: Core, trace: seq<Instr>, w: nat)
    requires cfg.blockSize > 0 && FromTrace(c, trace, w) && (c.warmup ==> w == Taken(c)) && d == Run(cfg, c, es)
    ensures FromTrace(d, trace + Arrived(es), if c.warmup then Warmed(cfg, c, es) else w)
    decreases |es|
  {
    hide Next, FromTrace, Taken;
    if es == [] {
      assert trace + Arrived(es) == trace;
    } else {
      var next, now := Next(cfg, c, es[0]), trace + es[0].env.arrivals;
      NextFromTrace(cfg, c, es[0], next, trace, w);
      RunFromTrace(cfg, next, es[1..], d, now, if next.warmup then Taken(next) else w);
      assert now + Arrived(es[1..]) == trace + Arrived(es);
    }
  }

  /** Over every run, everything in the pipeline, and everything that retired, reads and
      writes the registers that the trace says, from the end of the warm-up on. */
  lemma EveryRunCarriesRegisters(cfg: Config, warmup: bool, es: seq<Cycle>, d: Core)
    requires cfg.Valid() && d == Run(cfg, Reset(cfg, warmup), es)
    ensures FromTrace(d, Arrived(es), Warmed(cfg, Reset(cfg, warmup), es))
  {
    var c := Reset(cfg, warmup);
    assert Line(c) == [] && FromTrace(c, [], 0) && Taken(c) == 0;
    RunFromTrace(cfg, c, es, d, [], 0);
    assert [] + Arrived(es) == Arrived(es);
    assert !warmup ==> Warmed(cfg, c, es) == 0;
  }

  // ---- Read-after-write, on the registers of the trace ----

  /** `j` is the last instruction of the trace before `n`, and not before `w`, that makes
      readers of `r` wait. */
  ghost predicate LastWriter(trace: seq<Instr>, w: nat, n: nat, r: Reg, j: int) {
    && w <= j < n <= |trace| && Writes(trace[j], r)
    && forall k :: j < k < n ==> !Writes(trace[k], r)
  }

  /** Read-after-write safety over every run, for the registers of the trace: when the
      instruction in entry `k` starts, it is instruction `n` of the trace, and if it entered
      after the warm-up, then for each register it reads there, the last earlier
      instruction of the trace that writes it and entered after the warm-up has completed. */
  lemma EveryRunIsRawSafeOnTheTrace(cfg: Config, warmup: bool, es: seq<Cycle>, e: Cycle, c: Core, k: nat)
    requires cfg.Valid() && ValidRun(cfg, Reset(cfg, warmup), es)
    requires ValidArrivals(Run(cfg, Reset(cfg, warmup), es), e.env.arrivals)
    requires c == AtExecute(cfg, Run(cfg, Reset(cfg, warmup), es), e)
    requires k < |c.rob| && c.rob[k].executed == Idle && Execute(cfg, c).rob[k].executed != Idle
    ensures
      var trace, n, w := Arrived(es) + e.env.arrivals, |c.retired| + k, Warmed(cfg, Reset(cfg, warmup), es);
      && n < |trace| && c.rob[k].id == trace[n].id && c.rob[k].sources == (if n < w then [] else trace[n].sources)
      && forall r, j :: w <= n && r in trace[n].sources && LastWriter(trace, w, n, r, j) ==>
           (c.retired + c.rob)[j].id == trace[j].id && (c.retired + c.rob)[j].executed == Completed
  {
    hide Run, ValidRun, AtExecute, Execute, CoreInv, FromTrace, Warmed;
    var s, w := Run(cfg, Reset(cfg, warmup), es), Warmed(cfg, Reset(cfg, warmup), es);
    EveryRunIsRawSafe(cfg, warmup, es, e, c, k);
    EveryRunCarriesRegisters(cfg, warmup, es, s);
    AtExecuteFromTrace(cfg, s, e, c, Arrived(es), w);
    TraceOfReady(c, Arrived(es) + e.env.arrivals, w, k);
  }

  lemma AtExecuteFromTrace(cfg: Config, s: Core, e: Cycle, c: Core, trace: seq<Instr>, w: nat)
    requires FromTrace(s, trace, w) && c == AtExecute(cfg, s, e)
    ensures FromTrace(c, trace + e.env.arrivals, w)
  {
    hide FromTrace, Moves, CompleteScan;
    var a := AtStart(s, e);
    AtStartFromTrace(s, e, a, trace, w);
    var b := Retire(cfg, a);
    RetireMoves(cfg, a);
    CompleteScanStatic(b.Regs(), 0, cfg.execWidth, b.cycle, c.Regs());
    RobMoves(b, c);
    MovesTrans(a, b, c);
    MovesFromTrace(a, c, trace + e.env.arrivals, w);
  }

  lemma TraceOfReady(c: Core, trace: seq<Instr>, w: nat, k: nat)
    requires FromTrace(c, trace, w) && k < |c.rob| && SourcesReady(c.retired + c.rob, |c.retired| + k)
    ensures
      var n := |c.retired| + k;
      && n < |trace| && c.rob[k].id == trace[n].id && c.rob[k].sources == (if n < w then [] else trace[n].sources)
      && forall r, j :: w <= n && r in trace[n].sources && LastWriter(trace, w, n, r, j) ==>
           (c.retired + c.rob)[j].id == trace[j].id && (c.retired + c.rob)[j].executed == Completed
  {
    var n, old' := |c.retired| + k, c.retired + c.rob;
    assert Line(c) == old' + Upcoming(c) && n < Taken(c);
    forall i | 0 <= i <= n ensures Enters(trace[i], old'[i], i < w) { assert Line(c)[i] == old'[i]; }
    forall r, j | w <= n && r in trace[n].sources && LastWriter(trace, w, n, r, j)
      ensures old'[j].id == trace[j].id && old'[j].executed == Completed
    {
      assert r in old'[n].sources && Enters(trace[j], old'[j], false);
      forall m | j < m < n ensures r !in old'[m].destinations { assert Enters(trace[m], old'[m], m < w); }
      assert YoungestWriter(old', n, r, j);
    }
  }
}
