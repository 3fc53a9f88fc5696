/** One cycle of the out-of-order core, stage by stage. */
module CoreCycle {
  import opened Options
  import opened CoreState
  import opened CoreRegisters
  import opened CoreMemory
  import opened Scans

  /** Sizes, widths and latencies. */
  datatype Config = Config(
    ifetchSize: nat, decodeSize: nat, dispatchSize: nat, robSize: nat, lqSize: nat, sqSize: nat,
    fetchWidth: nat, decodeWidth: nat, dispatchWidth: nat, schedulerSize: nat, execWidth: nat,
    lqWidth: nat, sqWidth: nat, retireWidth: nat, l1dBandwidth: nat,
    decodeLatency: nat, dispatchLatency: nat, schedulingLatency: nat, execLatency: nat, blockSize: nat
  ) {
    ghost predicate Valid() {
      schedulerSize > 0 && execWidth > 0 && retireWidth > 0 && blockSize > 0
    }
  }

  /** A request handed to the first-level data cache. */
  datatype Request = Request(id: Id, addr: Addr)

  /** What the rest of the system does in one cycle: new trace instructions, completed
      fetches, decoded-buffer hits, how many instructions fetch may take, returned data
      blocks, how many writes the data cache takes, and the load queue slots it would
      take a read from. */
  datatype Env = Env(
    arrivals: seq<Instr>, fetched: set<Id>, dibHits: set<Id>, takes: nat,
    blocks: seq<nat>, room: nat, accepts: set<nat>)

  datatype Core = Core(
    cycle: nat, warmup: bool,
    input: seq<Instr>, ifetch: seq<Instr>, decode: seq<Instr>, dispatch: seq<Instr>,
    rob: Rob, producers: Producers, lq: LoadQueue, sq: StoreQueue,
    retired: seq<Instr>, storesSent: seq<Request>, loadsSent: seq<Request>
  ) {
    function Regs(): CoreRegisters.Regs { CoreRegisters.Regs(rob, producers) }

    function Mem(): CoreMemory.Mem { CoreMemory.Mem(rob, lq, sq) }

    function WithRegs(s: CoreRegisters.Regs): Core { this.(rob := s.rob, producers := s.producers) }

    function WithMem(m: CoreMemory.Mem): Core { this.(rob := m.rob, lq := m.lq, sq := m.sq) }

    /** Every latency is zero while warming up. */
    function After(latency: nat): nat { cycle + if warmup then 0 else latency }
  }

  function Min(a: nat, b: nat): nat { if a < b then a else b }

  /** The longest prefix, at most `bw` long, whose elements all satisfy `p`. */
  function Span<T>(s: seq<T>, bw: nat, p: T -> bool): (n: nat)
    ensures n <= |s| && n <= bw
    ensures forall i :: 0 <= i < n ==> p(s[i])
    ensures n < |s| && n < bw ==> !p(s[n])
  {
    if bw == 0 || s == [] || !p(s[0]) then 0 else 1 + Span(s[1..], bw - 1, p)
  }

  function IsCompleted(): Instr -> bool { (x: Instr) => x.executed == Completed }

  function Retire(cfg: Config, c: Core): Core {
    var n := Span(c.rob, cfg.retireWidth, IsCompleted());
    c.(retired := c.retired + c.rob[..n], rob := c.rob[n..])
  }

  predicate Completing(x: Instr, now: nat) {
    x.executed == Inflight && x.event <= now && x.memDone == x.MemOps()
  }

  function CompleteScan(s: Regs, i: nat, bw: nat, now: nat): (s': Regs)
    requires i <= |s.rob|
    ensures |s'.rob| == |s.rob|
    decreases |s.rob| - i
  {
    if i == |s.rob| || bw == 0 then s
    else if Completing(s.rob[i], now) then CompleteScan(DoCompleteExecution(s, i), i + 1, bw - 1, now)
    else CompleteScan(s, i + 1, bw, now)
  }

  predicate Starting(x: Instr, now: nat) {
    x.scheduled && x.executed == Idle && x.waitsFor == 0 && x.event <= now
  }

  function ExecuteScan(m: Mem, i: nat, bw: nat, now: nat, event: nat): (m': Mem)
    requires i <= |m.rob|
    ensures |m'.rob| == |m.rob| && |m'.lq| == |m.lq| && |m'.sq| == |m.sq|
    decreases |m.rob| - i
  {
    if i == |m.rob| || bw == 0 then m
    else if Starting(m.rob[i], now) then ExecuteScan(DoExecution(m, i, event), i + 1, bw - 1, now, event)
    else ExecuteScan(m, i + 1, bw, now, event)
  }

  function ScheduleStep(s: Regs, i: nat, event: nat): (s': Regs)
    requires i < |s.rob|
    ensures |s'.rob| == |s.rob|
  {
    if s.rob[i].scheduled then s else DoScheduling(s, i, event)
  }

  function ScheduleScan(s: Regs, i: nat, bw: nat, event: nat): (s': Regs)
    requires i <= |s.rob|
    ensures |s'.rob| == |s.rob|
    decreases |s.rob| - i
  {
    if i == |s.rob| || bw == 0 then s
    else
      var s1 := ScheduleStep(s, i, event);
      ScheduleScan(s1, i + 1, if s1.rob[i].executed == Idle then bw - 1 else bw, event)
  }

  function MemoryReturn(cfg: Config, c: Core, blocks: seq<nat>): Core
    requires cfg.blockSize > 0
  {
    var (rob, lq) := ReturnBlocks(c.rob, c.lq, blocks[..Min(cfg.l1dBandwidth, |blocks|)], cfg.blockSize);
    c.(rob := rob, lq := lq)
  }

  function StoreRequests(sq: StoreQueue): (r: seq<Request>)
    ensures |r| == |sq|
  {
    seq(|sq|, j requires 0 <= j < |sq| => Request(sq[j].id, sq[j].addr))
  }

  /** The read requests sent when the load queue goes from `a` to `b`. */
  function LoadRequests(a: LoadQueue, b: LoadQueue): seq<Request>
    requires |a| == |b|
  {
    if a == [] then []
    else
      (if a[0].Some? && b[0].Some? && !a[0].value.issued && b[0].value.issued
       then [Request(a[0].value.id, a[0].value.addr)] else []) + LoadRequests(a[1..], b[1..])
  }

  function Front(rob: Rob): Option<Id> {
    if rob == [] then None else Some(rob[0].id)
  }

  function FinishStage(cfg: Config, c: Core): (r: (Core, nat))
    ensures r.1 <= cfg.sqWidth
  {
    var from := First(c.sq, Unfinished());
    var n := Finishable(c.sq, from, cfg.sqWidth, c.cycle);
    (c.WithMem(FinishStores(c.Mem(), from, n, c.cycle)), n)
  }

  function SendStores(c: Core, bw: nat, room: nat): Core {
    var n := Completable(c.sq, 0, bw, Front(c.rob), c.cycle, room);
    c.(sq := c.sq[n..], storesSent := c.storesSent + StoreRequests(c.sq[..n]))
  }

  function SendLoads(cfg: Config, c: Core, accepts: set<nat>): Core {
    var lq := IssueLoads(c.lq, 0, cfg.lqWidth, c.cycle, accepts);
    c.(lq := lq, loadsSent := c.loadsSent + LoadRequests(c.lq, lq))
  }

  function OperateLsq(cfg: Config, c: Core, room: nat, accepts: set<nat>): Core {
    var (c1, n) := FinishStage(cfg, c);
    SendLoads(cfg, SendStores(c1, cfg.sqWidth - n, room), accepts)
  }

  predicate CanDispatch(cfg: Config, c: Core) {
    && c.dispatch != [] && c.dispatch[0].event < c.cycle && |c.rob| != cfg.robSize
    && FreeSlots(c.lq) >= |c.dispatch[0].loads|
    && |c.dispatch[0].stores| + |c.sq| <= cfg.sqSize
  }

  function DispatchOne(c: Core): Core
    requires c.dispatch != []
  {
    var m := c.Mem();
    c.WithMem(DoMemoryScheduling(m.(rob := m.rob + [c.dispatch[0]]), |m.rob|)).(dispatch := c.dispatch[1..])
  }

  function Dispatch(cfg: Config, c: Core, bw: nat): Core
    decreases bw
  {
    if bw == 0 || !CanDispatch(cfg, c) then c else Dispatch(cfg, DispatchOne(c), bw - 1)
  }

  function Ready(now: nat): Instr -> bool { (x: Instr) => x.event <= now }

  function FetchedAndReady(now: nat): Instr -> bool { (x: Instr) => x.fetched && x.event <= now }

  function Stamp(s: seq<Instr>, c: Core, latency: nat, skipDecoded: bool): (r: seq<Instr>)
    ensures |r| == |s|
  {
    seq(|s|, i requires 0 <= i < |s| =>
      s[i].(event := if skipDecoded && s[i].decoded then c.cycle else c.After(latency)))
  }

  function Decode(cfg: Config, c: Core): Core {
    var room := if |c.dispatch| <= cfg.dispatchSize then cfg.dispatchSize - |c.dispatch| else 0;
    var n := Span(c.decode, Min(cfg.decodeWidth, room), Ready(c.cycle));
    c.(dispatch := c.dispatch + Stamp(c.decode[..n], c, cfg.dispatchLatency, false), decode := c.decode[n..])
  }

  function Promote(cfg: Config, c: Core): Core {
    var room := if |c.decode| <= cfg.decodeSize then cfg.decodeSize - |c.decode| else 0;
    var n := Span(c.ifetch, Min(cfg.fetchWidth, room), FetchedAndReady(c.cycle));
    c.(decode := c.decode + Stamp(c.ifetch[..n], c, cfg.decodeLatency, true), ifetch := c.ifetch[n..])
  }

  function MarkFetched(s: seq<Instr>, fetched: set<Id>): (r: seq<Instr>)
    ensures |r| == |s|
  {
    seq(|s|, i requires 0 <= i < |s| => if s[i].id in fetched then s[i].(fetched := true) else s[i])
  }

  function MarkHits(s: seq<Instr>, hits: set<Id>, now: nat): (r: seq<Instr>)
    ensures |r| == |s|
  {
    seq(|s|, i requires 0 <= i < |s| =>
      if s[i].id in hits then s[i].(fetched := true, decoded := true, event := now) else s[i])
  }

  const REG_STACK_POINTER: Reg := 6
  const REG_FLAGS: Reg := 25
  const REG_INSTRUCTION_POINTER: Reg := 26

  function Without(regs: seq<Reg>, r: Reg): seq<Reg> {
    if regs == [] then [] else (if regs[0] == r then [] else [regs[0]]) + Without(regs[1..], r)
  }

  /** A stack-pointer write whose value is known at decode creates no dependence. */
  function FoldStackPointer(x: Instr): Instr {
    var readsOther :=
        exists i :: 0 <= i < |x.sources| && x.sources[i] !in {REG_STACK_POINTER, REG_FLAGS, REG_INSTRUCTION_POINTER};
    if REG_STACK_POINTER in x.destinations && (x.isBranch || !(x.stores == [] && x.loads == []) || !readsOther)
    then x.(destinations := Without(x.destinations, REG_STACK_POINTER)) else x
  }

  function InitInstruction(x: Instr, c: Core): Instr {
    FoldStackPointer(if c.warmup then x.(sources := [], destinations := []) else x).(event := c.cycle)
  }

  function InitAll(s: seq<Instr>, c: Core): (r: seq<Instr>)
    ensures |r| == |s|
  {
    seq(|s|, i requires 0 <= i < |s| => InitInstruction(s[i], c))
  }

  function Initialize(cfg: Config, c: Core, takes: nat): Core {
    var limit := Min(cfg.fetchWidth, if |c.ifetch| <= cfg.ifetchSize then cfg.ifetchSize - |c.ifetch| else 0);
    var n := Min(takes, Min(limit, |c.input|));
    c.(ifetch := c.ifetch + InitAll(c.input[..n], c), input := c.input[n..])
  }

  function Complete(cfg: Config, c: Core): Core {
    c.WithRegs(CompleteScan(c.Regs(), 0, cfg.execWidth, c.cycle))
  }

  function Execute(cfg: Config, c: Core): Core {
    c.WithMem(ExecuteScan(c.Mem(), 0, cfg.execWidth, c.cycle, c.After(cfg.execLatency)))
  }

  function Schedule(cfg: Config, c: Core): Core {
    c.WithRegs(ScheduleScan(c.Regs(), 0, cfg.schedulerSize, c.After(cfg.schedulingLatency)))
  }

  function InstructionStages(cfg: Config, c: Core): Core {
    Schedule(cfg, Execute(cfg, Complete(cfg, Retire(cfg, c))))
  }

  /** The back end of a cycle: everything from retirement to the load/store queues. */
  function BackEnd(cfg: Config, c: Core, env: Env): Core
    requires cfg.blockSize > 0
  {
    OperateLsq(cfg, MemoryReturn(cfg, InstructionStages(cfg, c), env.blocks), env.room, env.accepts)
  }

  function FrontEnd(cfg: Config, c: Core, env: Env): Core {
    var c1 := Promote(cfg, Decode(cfg, Dispatch(cfg, c, cfg.dispatchWidth)));
    var c2 := c1.(ifetch := MarkHits(c1.ifetch, env.dibHits, c1.cycle), input := c1.input);
    Initialize(cfg, c2, env.takes)
  }

  /** One call of the core's `operate`, and the tick after it. */
  function Operate(cfg: Config, c: Core, env: Env): Core
    requires cfg.blockSize > 0
  {
    var c0 := c.(input := c.input + env.arrivals, ifetch := MarkFetched(c.ifetch, env.fetched));
    var c1 := FrontEnd(cfg, BackEnd(cfg, c0, env), env);
    c1.(cycle := c1.cycle + 1)
  }
}
