/** A whole cycle, stage after stage: no stage is left out, and each does exactly its share
    of the work it finds. */
module CoreFlow {
  import opened Options
  import opened CoreState
  import opened CoreRegisters
  import opened CoreMemory
  import opened CoreMemoryProof
  import opened CoreCycle
  import opened CoreProof
  import opened CoreRuns
  import opened CoreStages
  import opened Scans

  /** The states of the core within one cycle, named by the stage that has just been. */
  datatype Steps = Steps(
    start: Core, retired: Core, completed: Core, started: Core, scheduled: Core, returned: Core, finished: Core,
    stored: Core, loaded: Core, dispatched: Core, decoded: Core, promoted: Core, looked: Core, initialized: Core)

  // ---- What each stage does to the whole core ----

  ghost predicate Retiring(cfg: Config, c: Core, d: Core) {
    var n := |c.rob| - |d.rob|;
    && 0 <= n <= cfg.retireWidth && d == c.(retired := c.retired + c.rob[..n], rob := c.rob[n..])
    && (forall k :: 0 <= k < n ==> c.rob[k].executed == Completed)
    && (n < cfg.retireWidth && n < |c.rob| ==> c.rob[n].executed != Completed)
  }

  /** The issued loads of the first blocks that came back are gone. */
  ghost predicate Returning(cfg: Config, c: Core, d: Core, blocks: seq<nat>)
    requires cfg.blockSize > 0
  {
    var taken := blocks[..Min(cfg.l1dBandwidth, |blocks|)];
    && |d.lq| == |c.lq| && d == c.(rob := d.rob, lq := d.lq)
    && forall q :: 0 <= q < |c.lq| ==>
         d.lq[q] == if Returned(c.lq[q], taken, cfg.blockSize) then None else c.lq[q]
  }

  /** The first `start` stores had finished; the next `n` of them do now. */
  ghost predicate Finishing(cfg: Config, c: Core, d: Core, start: nat, n: nat) {
    && |d.sq| == |c.sq| && d == c.(rob := d.rob, lq := d.lq, sq := d.sq)
    && start + n <= |c.sq| && n <= cfg.sqWidth
    && (forall j :: 0 <= j < |c.sq| ==>
          && (c.sq[j].finished <==> j < start)
          && d.sq[j] == if start <= j < start + n then c.sq[j].(finished := true, event := c.cycle) else c.sq[j])
    && (forall j :: start <= j < start + n ==> c.sq[j].event <= c.cycle)
    && (n < cfg.sqWidth && start + n < |c.sq| ==> c.sq[start + n].event > c.cycle)
  }

  ghost predicate CanLeave(c: Core, x: Store) {
    x.event <= c.cycle && (c.rob != [] ==> x.id < c.rob[0].id)
  }

  ghost predicate Storing(c: Core, d: Core, bw: int, room: nat) {
    var n := |c.sq| - |d.sq|;
    && 0 <= n <= bw && n <= room
    && d == c.(sq := c.sq[n..], storesSent := c.storesSent + StoreRequests(c.sq[..n]))
    && (forall j :: 0 <= j < n ==> CanLeave(c, c.sq[j]))
    && (n < bw && n < room && n < |c.sq| ==> !CanLeave(c, c.sq[n]))
  }

  /** What finishing leaves of the bandwidth is there to send stores. */
  ghost predicate FinishingAndStoring(cfg: Config, c: Core, f: Core, d: Core, room: nat, start: nat, n: nat) {
    Finishing(cfg, c, f, start, n) && Storing(f, d, cfg.sqWidth - n, room)
  }

  ghost predicate Loading(cfg: Config, c: Core, d: Core, accepts: set<nat>) {
    var ready := ReadyReads(c.lq, 0, c.cycle, accepts);
    && |d.lq| == |c.lq|
    && d == c.(lq := d.lq, loadsSent := c.loadsSent + ready[..Min(cfg.lqWidth, |ready|)])
    && forall q :: 0 <= q < |c.lq| ==>
         var sent := Sends(c.lq, q, c.cycle, accepts) && SendersBefore(c.lq, 0, q, c.cycle, accepts) < cfg.lqWidth;
         d.lq[q] == if sent then Some(c.lq[q].value.(issued := true)) else c.lq[q]
  }

  ghost predicate Dispatching(cfg: Config, c: Core, d: Core) {
    var n := |c.dispatch| - |d.dispatch|;
    && 0 <= n <= cfg.dispatchWidth && d.dispatch == c.dispatch[n..] && |d.rob| == |c.rob| + n
    && d == c.(dispatch := d.dispatch, rob := d.rob, lq := d.lq, sq := d.sq)
    && (forall k :: 0 <= k < n ==> c.dispatch[k].event < c.cycle)
    && (n > 0 ==> HasRoom(cfg, c)) && (n < cfg.dispatchWidth ==> !HasRoom(cfg, d))
  }

  ghost predicate Decoding(cfg: Config, c: Core, d: Core) {
    var n := |c.decode| - |d.decode|;
    && 0 <= n <= cfg.decodeWidth && n <= Room(cfg.dispatchSize, |c.dispatch|)
    && |d.dispatch| == |c.dispatch| + n && c.dispatch <= d.dispatch
    && d == c.(decode := c.decode[n..], dispatch := d.dispatch)
    && (forall k :: 0 <= k < n ==>
          c.decode[k].event <= c.cycle
          && d.dispatch[|c.dispatch| + k] == c.decode[k].(event := c.cycle + Wait(c, cfg.dispatchLatency)))
    && (n < cfg.decodeWidth && n < Room(cfg.dispatchSize, |c.dispatch|) && n < |c.decode| ==>
          c.decode[n].event > c.cycle)
  }

  ghost predicate Promoting(cfg: Config, c: Core, d: Core) {
    var n := |c.ifetch| - |d.ifetch|;
    && 0 <= n <= cfg.fetchWidth && n <= Room(cfg.decodeSize, |c.decode|)
    && |d.decode| == |c.decode| + n && c.decode <= d.decode && d == c.(ifetch := c.ifetch[n..], decode := d.decode)
    && (forall k :: 0 <= k < n ==>
          var wait := if c.ifetch[k].decoded then 0 else Wait(c, cfg.decodeLatency);
          c.ifetch[k].fetched && c.ifetch[k].event <= c.cycle
          && d.decode[|c.decode| + k] == c.ifetch[k].(event := c.cycle + wait))
    && (n < cfg.fetchWidth && n < Room(cfg.decodeSize, |c.decode|) && n < |c.ifetch| ==>
          !c.ifetch[n].fetched || c.ifetch[n].event > c.cycle)
  }

  /** Instructions whose fetch has come back are fetched. */
  ghost predicate Fetching(c: Core, d: Core, fetched: set<Id>) {
    && |d.ifetch| == |c.ifetch|
    && forall k :: 0 <= k < |c.ifetch| ==>
         d.ifetch[k] == c.ifetch[k].(fetched := c.ifetch[k].fetched || c.ifetch[k].id in fetched)
  }

  /** Hits in the decoded buffer are fetched and decoded at once. */
  ghost predicate Looking(c: Core, d: Core, hits: set<Id>) {
    && |d.ifetch| == |c.ifetch| && d == c.(ifetch := d.ifetch)
    && forall k :: 0 <= k < |c.ifetch| ==>
         var x := c.ifetch[k];
         d.ifetch[k] == if x.id in hits then x.(fetched := true, decoded := true, event := c.cycle) else x
  }

  ghost predicate Initializing(cfg: Config, c: Core, d: Core, takes: nat) {
    var n := |c.input| - |d.input|;
    && 0 <= n <= takes && n <= cfg.fetchWidth && n <= Room(cfg.ifetchSize, |c.ifetch|)
    && |d.ifetch| == |c.ifetch| + n && c.ifetch <= d.ifetch && d == c.(ifetch := d.ifetch, input := c.input[n..])
    && (n < |c.input| ==> n == takes || n == cfg.fetchWidth || n == Room(cfg.ifetchSize, |c.ifetch|))
  }

  /** The first stages leave everything but the reorder buffer, the register lists and the
      times in the load and store queues alone. */
  ghost predicate InPlace(s: Steps) {
    var a := s.retired;
    && s.completed == a.(rob := s.completed.rob, producers := s.completed.producers)
    && s.started == s.completed.(rob := s.started.rob, lq := s.started.lq, sq := s.started.sq)
    && s.scheduled == s.started.(rob := s.scheduled.rob, producers := s.scheduled.producers)
  }

  /** The stages in their order, each on what the one before has left. */
  ghost predicate Stagewise(cfg: Config, env: Env, s: Steps)
    requires cfg.blockSize > 0
  {
    var wait := Wait(s.start, cfg.execLatency);
    && Retiring(cfg, s.start, s.retired) && InPlace(s)
    && Completes(s.retired.rob, s.completed.rob, 0, cfg.execWidth, s.start.cycle)
    && Starts(s.completed.Mem(), s.started.Mem(), 0, cfg.execWidth, s.start.cycle, s.start.cycle + wait)
    && Schedules(s.started.rob, s.scheduled.rob, 0, cfg.schedulerSize,
                 s.start.cycle + Wait(s.start, cfg.schedulingLatency))
    && Returning(cfg, s.scheduled, s.returned, env.blocks)
    && (exists k: nat, n: nat :: FinishingAndStoring(cfg, s.returned, s.finished, s.stored, env.room, k, n))
    && Loading(cfg, s.stored, s.loaded, env.accepts) && Dispatching(cfg, s.loaded, s.dispatched)
    && Decoding(cfg, s.dispatched, s.decoded) && Promoting(cfg, s.decoded, s.promoted)
    && Looking(s.promoted, s.looked, env.dibHits) && Initializing(cfg, s.looked, s.initialized, env.takes)
  }

  // ---- Each stage ----

  lemma RetiringHolds(cfg: Config, c: Core, d: Core)
    requires d == Retire(cfg, c)
    ensures Retiring(cfg, c, d)
  {
    forall k | 0 <= k < |c.rob| ensures IsCompleted()(c.rob[k]) == (c.rob[k].executed == Completed) { }
  }

  lemma FinishFrame(cfg: Config, c: Core, d: Core, n: nat)
    requires (d, n) == FinishStage(cfg, c)
    ensures var start := First(c.sq, Unfinished());
      && |d.sq| == |c.sq| && d == c.(rob := d.rob, lq := d.lq, sq := d.sq)
      && n == Finishable(c.sq, start, cfg.sqWidth, c.cycle)
      && forall j :: 0 <= j < |c.sq| ==>
           d.sq[j] == if start <= j < start + n then c.sq[j].(finished := true, event := c.cycle) else c.sq[j]
  {
    var start := First(c.sq, Unfinished());
    assert n == Finishable(c.sq, start, cfg.sqWidth, c.cycle);
    FinishStoresMarks(c.Mem(), start, n, c.cycle, d.Mem());
    hide FinishStores;
    assert d.sq == d.Mem().sq && c.sq == c.Mem().sq;
  }

  lemma FinishingHolds(cfg: Config, c: Core, d: Core, start: nat, n: nat)
    requires StoresInOrder(c.sq) && (d, n) == FinishStage(cfg, c) && start == First(c.sq, Unfinished())
    ensures Finishing(cfg, c, d, start, n)
  {
    hide FinishStage, StoresInOrder;
    FinishFrame(cfg, c, d, n);
    FinishedPrefix(c.sq);
  }

  lemma CoreStoresInOrder(cfg: Config, c: Core)
    requires CoreInv(cfg, c)
    ensures StoresInOrder(c.sq)
  {
    assert c.sq == c.Mem().sq;
  }

  lemma StoringHolds(c: Core, d: Core, bw: nat, room: nat)
    requires d == SendStores(c, bw, room)
    ensures Storing(c, d, bw, room)
  {
  }

  lemma LoadingHolds(cfg: Config, c: Core, d: Core, accepts: set<nat>)
    requires d == SendLoads(cfg, c, accepts)
    ensures Loading(cfg, c, d, accepts)
  {
    var lq' := IssueLoads(c.lq, 0, cfg.lqWidth, c.cycle, accepts);
    IssueLoadsExactly(c.lq, 0, cfg.lqWidth, c.cycle, accepts, lq');
    LoadRequestsExactly(c.lq, 0, cfg.lqWidth, c.cycle, accepts, lq');
    assert c.lq[0..] == c.lq && lq'[0..] == lq';
  }

  lemma {:induction false} DispatchFrame(cfg: Config, c: Core, bw: nat, d: Core)
    requires d == Dispatch(cfg, c, bw)
    ensures d == c.(dispatch := d.dispatch, rob := d.rob, lq := d.lq, sq := d.sq)
    ensures |d.dispatch| <= |c.dispatch|
    ensures forall k :: 0 <= k < |c.dispatch| - |d.dispatch| ==> c.dispatch[k].event < c.cycle
    decreases bw
  {
    if bw == 0 || !CanDispatch(cfg, c) {
    } else {
      DispatchFrame(cfg, DispatchOne(c), bw - 1, d);
    }
  }

  lemma DispatchingHolds(cfg: Config, c: Core, d: Core)
    requires d == Dispatch(cfg, c, cfg.dispatchWidth)
    ensures Dispatching(cfg, c, d)
  {
    DispatchesExactly(cfg, c, cfg.dispatchWidth, d);
    DispatchFrame(cfg, c, cfg.dispatchWidth, d);
  }

  lemma DecodingHolds(cfg: Config, c: Core, d: Core)
    requires d == Decode(cfg, c)
    ensures Decoding(cfg, c, d)
  {
    forall k | 0 <= k < |c.decode| ensures Ready(c.cycle)(c.decode[k]) == (c.decode[k].event <= c.cycle) { }
  }

  lemma PromotingHolds(cfg: Config, c: Core, d: Core)
    requires d == Promote(cfg, c)
    ensures Promoting(cfg, c, d)
  {
    forall k | 0 <= k < |c.ifetch|
      ensures FetchedAndReady(c.cycle)(c.ifetch[k]) == (c.ifetch[k].fetched && c.ifetch[k].event <= c.cycle)
    {
    }
  }

  lemma InitializingHolds(cfg: Config, c: Core, d: Core, takes: nat)
    requires d == Initialize(cfg, c, takes)
    ensures Initializing(cfg, c, d, takes)
  {
  }

  // ---- The cycle ----

  lemma FirstStages(cfg: Config, env: Env, s: Steps)
    requires cfg.Valid() && s.retired == Retire(cfg, s.start) && s.completed == Complete(cfg, s.retired)
    requires s.started == Execute(cfg, s.completed) && s.scheduled == Schedule(cfg, s.started)
    requires s.returned == MemoryReturn(cfg, s.scheduled, env.blocks)
    ensures Retiring(cfg, s.start, s.retired) && InPlace(s)
    ensures
      var now := s.start.cycle;
      && Completes(s.retired.rob, s.completed.rob, 0, cfg.execWidth, now)
      && Starts(s.completed.Mem(), s.started.Mem(), 0, cfg.execWidth, now, now + Wait(s.start, cfg.execLatency))
      && Schedules(s.started.rob, s.scheduled.rob, 0, cfg.schedulerSize, now + Wait(s.start, cfg.schedulingLatency))
    ensures Returning(cfg, s.scheduled, s.returned, env.blocks)
  {
    hide Completes, Starts, Schedules, CompleteScan, ExecuteScan, ScheduleScan, Retiring, Returned;
    RetiringHolds(cfg, s.start, s.retired);
    CompletesExactly(cfg, s.retired, s.completed);
    StartsExactly(cfg, s.completed, s.started);
    SchedulesExactly(cfg, s.started, s.scheduled);
    var taken := env.blocks[..Min(cfg.l1dBandwidth, |env.blocks|)];
    ReturnBlocksExactly(s.scheduled.rob, s.scheduled.lq, taken, cfg.blockSize,
                        ReturnBlocks(s.scheduled.rob, s.scheduled.lq, taken, cfg.blockSize));
  }

  lemma MemoryStages(cfg: Config, env: Env, s: Steps, n: nat)
    requires CoreInv(cfg, s.returned) && (s.finished, n) == FinishStage(cfg, s.returned)
    requires s.stored == SendStores(s.finished, cfg.sqWidth - n, env.room)
    requires s.loaded == SendLoads(cfg, s.stored, env.accepts)
    ensures FinishingAndStoring(cfg, s.returned, s.finished, s.stored, env.room, First(s.returned.sq, Unfinished()), n)
    ensures Loading(cfg, s.stored, s.loaded, env.accepts)
  {
    hide CoreInv, Finishing, Storing, Loading, FinishStage, SendStores, SendLoads;
    CoreStoresInOrder(cfg, s.returned);
    FinishingHolds(cfg, s.returned, s.finished, First(s.returned.sq, Unfinished()), n);
    StoringHolds(s.finished, s.stored, cfg.sqWidth - n, env.room);
    LoadingHolds(cfg, s.stored, s.loaded, env.accepts);
  }

  lemma LastStages(cfg: Config, env: Env, s: Steps)
    requires s.dispatched == Dispatch(cfg, s.loaded, cfg.dispatchWidth) && s.decoded == Decode(cfg, s.dispatched)
    requires s.promoted == Promote(cfg, s.decoded) && s.initialized == Initialize(cfg, s.looked, env.takes)
    requires s.looked == s.promoted.(ifetch := MarkHits(s.promoted.ifetch, env.dibHits, s.promoted.cycle))
    ensures Dispatching(cfg, s.loaded, s.dispatched) && Decoding(cfg, s.dispatched, s.decoded)
    ensures Promoting(cfg, s.decoded, s.promoted) && Looking(s.promoted, s.looked, env.dibHits)
    ensures Initializing(cfg, s.looked, s.initialized, env.takes)
  {
    hide Dispatching, Decoding, Promoting, Initializing, Dispatch, Decode, Promote, Initialize;
    DispatchingHolds(cfg, s.loaded, s.dispatched);
    DecodingHolds(cfg, s.dispatched, s.decoded);
    PromotingHolds(cfg, s.decoded, s.promoted);
    InitializingHolds(cfg, s.looked, s.initialized, env.takes);
  }

  /** The steps of a cycle that starts with core `c`. */
  function StepsOf(cfg: Config, c: Core, env: Env): Steps
    requires cfg.Valid()
  {
    var retired := Retire(cfg, c);
    var completed := Complete(cfg, retired);
    var started := Execute(cfg, completed);
    var scheduled := Schedule(cfg, started);
    var returned := MemoryReturn(cfg, scheduled, env.blocks);
    var (finished, n) := FinishStage(cfg, returned);
    var stored := SendStores(finished, cfg.sqWidth - n, env.room);
    var loaded := SendLoads(cfg, stored, env.accepts);
    var dispatched := Dispatch(cfg, loaded, cfg.dispatchWidth);
    var decoded := Decode(cfg, dispatched);
    var promoted := Promote(cfg, decoded);
    var looked := promoted.(ifetch := MarkHits(promoted.ifetch, env.dibHits, promoted.cycle));
    Steps(c, retired, completed, started, scheduled, returned, finished, stored, loaded, dispatched, decoded, promoted,
          looked, Initialize(cfg, looked, env.takes))
  }

  lemma StepsEnd(cfg: Config, c: Core, e: Cycle)
    requires cfg.Valid()
    ensures
      var d := StepsOf(cfg, AtStart(c, e), e.env).initialized;
      Next(cfg, c, e) == d.(cycle := d.cycle + 1)
  {
    hide Retire, CompleteScan, ExecuteScan, ScheduleScan, ReturnBlocks, FinishStores, Finishable, Completable, Span;
    hide SendStores, SendLoads, Dispatch, Decode, Promote, MarkHits, Initialize, FinishStage;
  }

  /** The start of a cycle: the warm-up may end, instructions arrive, fetches come back. */
  ghost predicate Beginning(c: Core, e: Cycle, d: Core) {
    && Fetching(c, d, e.env.fetched)
    && d == c.(warmup := c.warmup && !e.endsWarmup, input := c.input + e.env.arrivals, ifetch := d.ifetch)
  }

  /** Over every run, the next cycle goes through all the stages, in their order, and each
      does exactly its work. */
  lemma EveryRunIsStagewise(cfg: Config, warmup: bool, es: seq<Cycle>, e: Cycle, c: Core) returns (s: Steps)
    requires cfg.Valid() && ValidRun(cfg, Reset(cfg, warmup), es) && c == Run(cfg, Reset(cfg, warmup), es)
    requires ValidArrivals(c, e.env.arrivals)
    ensures Beginning(c, e, s.start) && Stagewise(cfg, e.env, s)
    ensures Next(cfg, c, e) == s.initialized.(cycle := c.cycle + 1)
  {
    ResetInv(cfg, warmup);
    RunKeepsInv(cfg, Reset(cfg, warmup), es, c);
    s := CycleIsStagewise(cfg, e, c);
  }

  lemma CycleIsStagewise(cfg: Config, e: Cycle, c: Core) returns (s: Steps)
    requires cfg.Valid() && CoreInv(cfg, c) && ValidArrivals(c, e.env.arrivals)
    ensures Beginning(c, e, s.start) && Stagewise(cfg, e.env, s)
    ensures Next(cfg, c, e) == s.initialized.(cycle := c.cycle + 1)
  {
    hide CoreInv, Retire, Complete, Execute, Schedule, MemoryReturn, FinishStage, SendStores, SendLoads, Dispatch;
    hide Decode, Promote, Initialize, Completes, Starts, Schedules, Retiring, InPlace, Returning, FinishingAndStoring;
    hide Loading, Dispatching, Decoding, Promoting, Looking, Initializing;
    s := StepsOf(cfg, AtStart(c, e), e.env);
    AtStartInv(cfg, c, e);
    ReturnedInv(cfg, e.env, s);
    var n := FinishStage(cfg, s.returned).1;
    FirstStages(cfg, e.env, s);
    MemoryStages(cfg, e.env, s, n);
    LastStages(cfg, e.env, s);
    StepsEnd(cfg, c, e);
    assert s.initialized.cycle == c.cycle by { SameCycle(cfg, e.env, s); }
  }

  lemma SameCycle(cfg: Config, env: Env, s: Steps)
    requires cfg.Valid() && Stagewise(cfg, env, s)
    ensures s.initialized.cycle == s.start.cycle
  {
    hide Completes, Starts, Schedules, Returned, Sends, SendersBefore, ReadyReads, HasRoom, CanLeave;
  }

  lemma ReturnedInv(cfg: Config, env: Env, s: Steps)
    requires cfg.Valid() && CoreInv(cfg, s.start) && s == StepsOf(cfg, s.start, env)
    ensures CoreInv(cfg, s.returned)
  {
    hide CoreInv, Retire, Complete, Execute, Schedule, MemoryReturn, FinishStage, SendStores, SendLoads, Dispatch;
    hide Decode, Promote, Initialize;
    RetireStageKeeps(cfg, s.start);
    CompleteKeeps(cfg, s.retired);
    ExecuteKeeps(cfg, s.completed);
    ScheduleKeeps(cfg, s.started);
    MemoryReturnKeeps(cfg, s.scheduled, env.blocks);
  }

  /** Over every run, each cycle sends exactly the first reads that are ready and that the
      data cache takes, in slot order, up to the bandwidth, and marks exactly their slots. */
  lemma EveryRunSendsReadyLoads(cfg: Config, warmup: bool, es: seq<Cycle>, e: Cycle, c: Core) returns (s: Steps)
    requires cfg.Valid() && ValidRun(cfg, Reset(cfg, warmup), es) && c == Run(cfg, Reset(cfg, warmup), es)
    requires ValidArrivals(c, e.env.arrivals)
    ensures Stagewise(cfg, e.env, s) && s.stored.cycle == c.cycle && Loading(cfg, s.stored, s.loaded, e.env.accepts)
    ensures s.stored.loadsSent == c.loadsSent && Next(cfg, c, e).loadsSent == s.loaded.loadsSent
  {
    hide Run, ValidRun, Reset, Next, Stagewise, Loading;
    s := EveryRunIsStagewise(cfg, warmup, es, e, c);
    LoadsAround(cfg, e.env, s);
  }

  lemma LoadsAround(cfg: Config, env: Env, s: Steps)
    requires cfg.Valid() && Stagewise(cfg, env, s)
    ensures s.stored.cycle == s.start.cycle && s.stored.loadsSent == s.start.loadsSent
    ensures s.initialized.loadsSent == s.loaded.loadsSent && Loading(cfg, s.stored, s.loaded, env.accepts)
  {
    hide Completes, Starts, Schedules, Returned, Sends, SendersBefore, ReadyReads, HasRoom, CanLeave;
  }
}
