/** The core as the simulator runs it: one object, one method per stage, loops that
    update the reorder buffer, the producer lists and the queues in place. Each method
    is proved against the stage function of the same name, and each assertion the
    simulator makes is proved where it makes it. */
module O3Cpu {
  import opened Options
  import opened CoreState
  import opened CoreRegisters
  import opened CoreRegistersProof
  import opened CoreMemory
  import opened CoreMemoryProof
  import opened CoreCycle
  import opened CoreProof
  import CoreRuns
  import opened Scans

  class Cpu {
    const cfg: Config
    var currentCycle: nat
    var warmup: bool
    var inputQueue: seq<Instr>
    var ifetchBuffer: seq<Instr>
    var decodeBuffer: seq<Instr>
    var dispatchBuffer: seq<Instr>
    var rob: Rob
    var regProducers: Producers
    var lq: LoadQueue
    var sq: StoreQueue
    var numRetired: nat
    ghost var retired: seq<Instr>
    ghost var storesSent: seq<Request>
    ghost var loadsSent: seq<Request>

    ghost function State(): Core
      reads this
    {
      Core(currentCycle, warmup, inputQueue, ifetchBuffer, decodeBuffer, dispatchBuffer,
           rob, regProducers, lq, sq, retired, storesSent, loadsSent)
    }

    ghost function Registers(): Regs
      reads this`rob, this`regProducers
    {
      Regs(rob, regProducers)
    }

    ghost predicate Valid()
      reads this
    {
      CoreInv(cfg, State())
    }

    lemma ValidMeans()
      requires Valid()
      ensures cfg.Valid() && RegInv(Registers()) && MemInv(Memory())
    {
      assert State().Regs() == Registers() && State().Mem() == Memory();
    }

    constructor (cfg: Config)
      requires cfg.Valid()
      ensures Valid() && this.cfg == cfg && State() == CoreRuns.Reset(cfg, true) && numRetired == 0
    {
      this.cfg := cfg;
      currentCycle, warmup, numRetired := 0, true, 0;
      rob, sq, lq, regProducers := [], [], seq(cfg.lqSize, _ => None), seq(REGISTERS, _ => []);
      inputQueue, ifetchBuffer, decodeBuffer, dispatchBuffer := [], [], [], [];
      retired, storesSent, loadsSent := [], [], [];
      new;
      CoreRuns.ResetInv(cfg, true);
    }

    /** The simulator ends the warm-up between two calls of `operate`. */
    method EndWarmup()
      requires Valid()
      modifies this`warmup
      ensures Valid() && State() == old(State()).(warmup := false)
    {
      ghost var c := State();
      CoreRuns.WarmupEnds(cfg, c, c.(warmup := false));
      warmup := false;
    }

    function After(latency: nat): nat
      reads this
    {
      currentCycle + if warmup then 0 else latency
    }

    // ---- Registers ----

    /** One source register: wait for its last producer, once. */
    method MarkDependency(i: nat, source: Reg)
      requires i < |rob|
      modifies this`rob
      ensures rob == LinkOne(old(rob), regProducers[source], i)
    {
      var list := regProducers[source];
      if list != [] {
        var p := Position(rob, list[|list| - 1]);
        if p < |rob| && (rob[p].dependents == [] || rob[p].dependents[|rob[p].dependents| - 1] != rob[i].id) {
          rob := rob[p := rob[p].(dependents := rob[p].dependents + [rob[i].id])];
          rob := rob[i := rob[i].(waitsFor := rob[i].waitsFor + 1)];
        }
      }
    }

    method DoScheduling(i: nat)
      requires i < |rob|
      modifies this`rob, this`regProducers
      ensures Registers() == CoreRegisters.DoScheduling(old(Registers()), i, After(cfg.schedulingLatency))
    {
      hide LinkOne;
      var id, sources, destinations := rob[i].id, rob[i].sources, rob[i].destinations;
      for k := 0 to |sources|
        invariant |rob| == |old(rob)| && regProducers == old(regProducers)
        invariant Link(rob, regProducers, i, sources[k..]) == Link(old(rob), regProducers, i, sources)
      {
        assert sources[k..][0] == sources[k] && sources[k..][1..] == sources[k + 1..];
        MarkDependency(i, sources[k]);
      }
      assert sources[|sources|..] == [] && destinations[0..] == destinations;
      for k := 0 to |destinations|
        invariant rob == Link(old(rob), old(regProducers), i, sources)
        invariant Enlist(regProducers, id, destinations[k..]) == Enlist(old(regProducers), id, destinations)
      {
        assert destinations[k..][0] == destinations[k] && destinations[k..][1..] == destinations[k + 1..];
        var list := regProducers[destinations[k]];
        var ins := LowerBound(list, id);
        regProducers := regProducers[destinations[k] := list[..ins] + [id] + list[ins..]];
      }
      rob := rob[i := rob[i].(scheduled := true, event := After(cfg.schedulingLatency))];
    }

    method ScheduleInstruction()
      requires Valid()
      modifies this`rob, this`regProducers
      ensures Valid() && State() == Schedule(cfg, old(State()))
    {
      hide CoreInv; hide CoreRegisters.DoScheduling;
      ScheduleKeeps(cfg, State());
      var searchBw, i := cfg.schedulerSize, 0;
      ghost var event := After(cfg.schedulingLatency);
      while i < |rob| && searchBw > 0
        invariant i <= |rob|
        invariant ScheduleScan(Registers(), i, searchBw, event) ==
                  ScheduleScan(old(Registers()), 0, cfg.schedulerSize, event)
        decreases |rob| - i
      {
        if !rob[i].scheduled {
          DoScheduling(i);
        }
        if rob[i].executed == Idle {
          searchBw := searchBw - 1;
        }
        i := i + 1;
      }
    }

    /** Each producer list the instruction is on really holds it. */
    method RemoveProducers(i: nat)
      requires RegInv(Registers()) && i < |rob| && rob[i].executed == Inflight
      modifies this`regProducers
      ensures regProducers == Delist(old(regProducers), rob[i].id, rob[i].destinations)
    {
      var id, destinations := rob[i].id, rob[i].destinations;
      ghost var a: Producers, b: Producers := SplitProducers(Registers(), i);
      hide RegInv;
      for k := 0 to |destinations|
        invariant Delist(regProducers, id, destinations[k..]) == Delist(old(regProducers), id, destinations)
        invariant SplitBy(regProducers, a, b, id, destinations[k..])
      {
        hide SplitBy;
        assert destinations[k..][0] == destinations[k] && destinations[k..][1..] == destinations[k + 1..];
        SplitStep(regProducers, a, b, id, destinations[k..]);
        var d := destinations[k];
        var list := regProducers[d];
        var elem := FirstOf(list, id);
        assert elem != |list|;
        regProducers := regProducers[d := list[..elem] + list[elem + 1..]];
      }
    }

    /** Nobody is released who was not waiting. `before` is the reorder buffer before
        instruction `i` was marked completed. */
    method ReleaseDependents(i: nat, ghost before: Rob)
      requires Ordered(before) && StatusInOrder(before) && Links(before)
      requires i < |before| && before[i].executed == Inflight && rob == before[i := before[i].(executed := Completed)]
      modifies this`rob
      ensures rob == Release(old(rob), before[i].dependents)
    {
      var dependents := rob[i].dependents;
      ghost var done := rob;
      for k := 0 to |dependents|
        invariant |rob| == |done| && SameIds(before, rob)
        invariant Release(rob, dependents[k..]) == Release(done, dependents)
        invariant forall q :: i < q < |rob| && rob[q].id !in dependents[..k] ==> rob[q] == before[q]
      {
        assert dependents[k..][0] == dependents[k] && dependents[k..][1..] == dependents[k + 1..];
        PositionSame(before, rob, dependents[k]);
        var p := Position(rob, dependents[k]);
        NotYetReleased(before, i, k, p);
        rob := rob[p := ReleaseOne(rob[p])];
        assert rob[p].waitsFor >= 0;
      }
    }

    method DoCompleteExecution(i: nat)
      requires RegInv(Registers()) && i < |rob| && rob[i].executed == Inflight
      modifies this`rob, this`regProducers
      ensures Registers() == CoreRegisters.DoCompleteExecution(old(Registers()), i)
    {
      RemoveProducers(i);
      rob := rob[i := rob[i].(executed := Completed)];
      ReleaseDependents(i, old(rob));
    }

    method CompleteInflightInstruction()
      requires Valid()
      modifies this`rob, this`regProducers
      ensures Valid() && State() == Complete(cfg, old(State()))
    {
      assert RegInv(Registers()) by { assert State().Regs() == Registers(); }
      assert CoreInv(cfg, Complete(cfg, State())) by { CompleteKeeps(cfg, State()); }
      hide CoreInv; hide RegInv; hide CompleteScan;
      assert State().Regs() == Registers();
      CompleteReady();
    }

    method CompleteReady()
      requires RegInv(Registers())
      modifies this`rob, this`regProducers
      ensures Registers() == CompleteScan(old(Registers()), 0, cfg.execWidth, currentCycle)
    {
      hide CoreRegisters.DoCompleteExecution; hide RegInv;
      var completeBw, i := cfg.execWidth, 0;
      while i < |rob| && completeBw > 0
        invariant i <= |rob| && RegInv(Registers())
        invariant CompleteScan(Registers(), i, completeBw, currentCycle) ==
                  CompleteScan(old(Registers()), 0, cfg.execWidth, currentCycle)
        decreases |rob| - i
      {
        if rob[i].executed == Inflight && rob[i].event <= currentCycle && rob[i].memDone == rob[i].MemOps() {
          CompletionKeeps(Registers(), i);
          DoCompleteExecution(i);
          completeBw := completeBw - 1;
        }
        i := i + 1;
      }
    }

    // ---- Execution and retirement ----

    ghost function Memory(): Mem
      reads this`rob, this`lq, this`sq
    {
      Mem(rob, lq, sq)
    }

    method DoExecution(i: nat)
      requires i < |rob|
      modifies this`rob, this`lq, this`sq
      ensures Memory() == CoreMemory.DoExecution(old(Memory()), i, After(cfg.execLatency))
    {
      var id, event := rob[i].id, After(cfg.execLatency);
      rob := rob[i := rob[i].(executed := Inflight, event := event)];
      for k := 0 to |lq|
        invariant |lq| == |old(lq)| && sq == old(sq)
        invariant rob == old(rob[i := rob[i].(executed := Inflight, event := event)])
        invariant forall q :: 0 <= q < |lq| ==> lq[q] == if q < k then MarkLoads(old(lq), id, event)[q] else old(lq)[q]
      {
        if lq[k].Some? && lq[k].value.id == id {
          lq := lq[k := Some(lq[k].value.(event := event))];
        }
      }
      assert lq == MarkLoads(old(lq), id, event);
      for j := 0 to |sq|
        invariant |sq| == |old(sq)| && lq == MarkLoads(old(lq), id, event)
        invariant rob == old(rob[i := rob[i].(executed := Inflight, event := event)])
        invariant forall q :: 0 <= q < |sq| ==> sq[q] == if q < j then MarkStores(old(sq), id, event)[q] else old(sq)[q]
      {
        if sq[j].id == id {
          sq := sq[j := sq[j].(event := event)];
        }
      }
      assert sq == MarkStores(old(sq), id, event);
    }

    method ExecuteInstruction()
      requires Valid()
      modifies this`rob, this`lq, this`sq
      ensures Valid() && State() == Execute(cfg, old(State()))
    {
      hide CoreInv; hide ExecuteScan; hide Execute;
      ExecuteKeeps(cfg, State());
      ghost var before := State();
      ExecuteReady();
      ExecutedIs(cfg, before, State(), After(cfg.execLatency));
    }

    method ExecuteReady()
      modifies this`rob, this`lq, this`sq
      ensures Memory() == ExecuteScan(old(Memory()), 0, cfg.execWidth, currentCycle, After(cfg.execLatency))
    {
      hide CoreMemory.DoExecution;
      var execBw, i := cfg.execWidth, 0;
      ghost var event := After(cfg.execLatency);
      while i < |rob| && execBw > 0
        invariant i <= |rob|
        invariant ExecuteScan(Memory(), i, execBw, currentCycle, event) ==
                  ExecuteScan(old(Memory()), 0, cfg.execWidth, currentCycle, event)
        decreases |rob| - i
      {
        if rob[i].scheduled && rob[i].executed == Idle && rob[i].waitsFor == 0 && rob[i].event <= currentCycle {
          DoExecution(i);
          execBw := execBw - 1;
        }
        i := i + 1;
      }
    }

    method RetireRob()
      requires Valid()
      modifies this`rob, this`retired, this`numRetired
      ensures Valid() && State() == Retire(cfg, old(State()))
      ensures numRetired == old(numRetired) + (|retired| - |old(retired)|)
    {
      hide CoreInv;
      RetireStageKeeps(cfg, State());
      var n := Span(rob, cfg.retireWidth, IsCompleted());
      retired := retired + rob[..n];
      numRetired := numRetired + n;
      rob := rob[n..];
    }

    // ---- Memory ----

    /** The first instruction whose id is not below `id`, by halving. */
    method PartitionPoint(id: Id) returns (p: nat)
      requires Ordered(rob)
      ensures p == First(rob, NotBelow(id))
    {
      var len: nat := |rob|;
      p := 0;
      while len > 0
        invariant p + len <= |rob|
        invariant forall k :: 0 <= k < p ==> rob[k].id < id
        invariant forall k :: p + len <= k < |rob| ==> rob[k].id >= id
        decreases len
      {
        var half := len / 2;
        if rob[p + half].id < id {
          p := p + half + 1;
          len := len - half - 1;
        } else {
          len := half;
        }
      }
      FirstIs(rob, id, p);
    }

    /** Credit a finished operation: its instruction is still in the reorder buffer, the
        search finds it, and it is owed the operation. */
    method FinishOperation(id: Id)
      requires Ordered(rob) && Position(rob, id) < |rob|
      requires rob[Position(rob, id)].memDone < rob[Position(rob, id)].MemOps()
      modifies this`rob
      ensures rob == Finish(old(rob), id)
    {
      SearchFinds(rob, id);
      var entry := PartitionPoint(id);
      assert entry != |rob|;
      assert rob[entry].id == id;
      rob := rob[entry := rob[entry].(memDone := rob[entry].memDone + 1)];
      assert rob[entry].memDone <= rob[entry].MemOps();
    }

    method HandleMemoryReturn(blocks: seq<nat>)
      requires Valid()
      modifies this`rob, this`lq
      ensures Valid() && State() == MemoryReturn(cfg, old(State()), blocks)
    {
      assert MemInv(Memory()) by { assert State().Mem() == Memory(); }
      assert CoreInv(cfg, MemoryReturn(cfg, State(), blocks)) by { MemoryReturnKeeps(cfg, State(), blocks); }
      var taken := blocks[..Min(cfg.l1dBandwidth, |blocks|)];
      assert cfg.blockSize > 0;
      hide CoreInv;
      for b := 0 to |taken|
        invariant MemInv(Memory())
        invariant ReturnBlocks(rob, lq, taken[b..], cfg.blockSize) ==
                  ReturnBlocks(old(rob), old(lq), taken, cfg.blockSize)
      {
        assert taken[b..][0] == taken[b] && taken[b..][1..] == taken[b + 1..];
        ReturnBlocksKeeps(Memory(), [taken[b]], cfg.blockSize);
        OneBlock(rob, lq, taken[b], cfg.blockSize);
        assert QueueInv(Memory()) && Conserved(Memory(), 0, 0);
        ReturnOneBlock(taken[b]);
      }
    }

    /** A returned load: credit it and free its slot. */
    method ReleaseLoad(k: nat)
      requires QueueInv(Memory()) && Conserved(Memory(), 0, 0)
      requires k < |lq| && lq[k].Some? && lq[k].value.issued
      modifies this`rob, this`lq
      ensures rob == Finish(old(rob), old(lq)[k].value.id) && lq == old(lq)[k := None]
      ensures QueueInv(Memory()) && Conserved(Memory(), 0, 0)
    {
      LoadIsOwed(Memory(), k, 0, 0);
      IssuedIsUnlisted(Memory(), k);
      RetireLoad(Memory(), k, 0, 0);
      hide QueueInv; hide Conserved;
      assert Ordered(rob) by { assert QueueInv(Memory()); }
      FinishOperation(lq[k].value.id);
      lq := lq[k := None];
      assert Memory() == Mem(Finish(old(rob), old(lq)[k].value.id), old(lq)[k := None], old(sq));
    }

    method ReturnOneBlock(block: nat)
      requires QueueInv(Memory()) && Conserved(Memory(), 0, 0) && cfg.blockSize > 0
      modifies this`rob, this`lq
      ensures (rob, lq) == ReturnBlock(old(rob), old(lq), 0, block, cfg.blockSize)
    {
      hide Finish; hide QueueInv; hide Conserved;
      for k := 0 to |lq|
        invariant |lq| == |old(lq)| && QueueInv(Memory()) && Conserved(Memory(), 0, 0)
        invariant ReturnBlock(rob, lq, k, block, cfg.blockSize) ==
                  ReturnBlock(old(rob), old(lq), 0, block, cfg.blockSize)
      {
        if lq[k].Some? && lq[k].value.issued && lq[k].value.addr / cfg.blockSize == block {
          ReleaseLoad(k);
        }
      }
    }

    /** Serve the first load still waiting on store `j`; `waiting` is what remains of its
        list. The load is still allocated, and waits on this store. */
    method ServeLoad(j: nat, ghost waiting: seq<nat>, slot: nat, ghost p: nat)
      requires j < |sq| && !sq[j].finished && waiting != [] && waiting[0] == slot
      requires QueueInv(WithWaiting(Memory(), j, waiting)) && Conserved(WithWaiting(Memory(), j, waiting), p, -1)
      requires p == Position(rob, sq[j].id)
      modifies this`rob, this`lq
      ensures slot < |old(lq)| && old(lq)[slot].Some?
      ensures rob == Finish(old(rob), old(lq)[slot].value.id) && lq == old(lq)[slot := None] && SameIds(old(rob), rob)
      ensures QueueInv(WithWaiting(Memory(), j, waiting[1..]))
      ensures Conserved(WithWaiting(Memory(), j, waiting[1..]), p, -1)
    {
      hide QueueInv; hide Conserved;
      ghost var m := WithWaiting(Memory(), j, waiting);
      FirstWaiting(m, j, p);
      assert lq[slot].value.producer == Some(sq[j].id);
      FinishOperation(lq[slot].value.id);
      lq := lq[slot := None];
      assert WithWaiting(Memory(), j, waiting[1..]) ==
        Mem(Finish(m.rob, m.lq[slot].value.id), m.lq[slot := None], m.sq[j := m.sq[j].(waiting := waiting[1..])]);
    }

    method ServeLoads(j: nat, ghost p: nat)
      requires j < |sq| && !sq[j].finished && p == Position(rob, sq[j].id)
      requires QueueInv(Memory()) && Conserved(Memory(), p, -1)
      modifies this`rob, this`lq
      ensures (rob, lq) == Serve(old(rob), old(lq), sq[j].waiting)
    {
      var waiting := sq[j].waiting;
      assert WithWaiting(Memory(), j, waiting[0..]) == Memory();
      hide QueueInv; hide Conserved; hide Finish;
      for k := 0 to |waiting|
        invariant SameIds(old(rob), rob)
        invariant QueueInv(WithWaiting(Memory(), j, waiting[k..]))
        invariant Conserved(WithWaiting(Memory(), j, waiting[k..]), p, -1)
        invariant Serve(rob, lq, waiting[k..]) == Serve(old(rob), old(lq), waiting)
      {
        assert waiting[k..][0] == waiting[k] && waiting[k..][1..] == waiting[k + 1..];
        PositionSame(old(rob), rob, sq[j].id);
        ServeLoad(j, waiting[k..], waiting[k], p);
      }
      assert waiting[|waiting|..] == [];
    }

    /** The store itself is one finished operation; its instruction is then one credit
        ahead until the store is marked finished. */
    method CreditFinishedStore(j: nat, ghost p: nat)
      requires QueueInv(Memory()) && Conserved(Memory(), 0, 0) && j < |sq| && !sq[j].finished
      requires p == Position(rob, sq[j].id)
      modifies this`rob
      ensures rob == Finish(old(rob), sq[j].id) && p == Position(rob, sq[j].id)
      ensures QueueInv(Memory()) && Conserved(Memory(), p, -1)
    {
      ghost var m := Memory();
      CreditStore(m, j);
      StoreIsOwed(m, j);
      FinishCredits(m.rob, sq[j].id);
      SameIdsPositions(m.rob, Finish(m.rob, sq[j].id));
      hide QueueInv; hide Conserved; hide Finish;
      FinishOperation(sq[j].id);
      assert Memory() == m.(rob := Finish(m.rob, sq[j].id));
    }

    method DoFinishStore(j: nat)
      requires MemInv(Memory()) && j < |sq| && !sq[j].finished && forall b :: 0 <= b < j ==> sq[b].finished
      modifies this`rob, this`lq, this`sq
      ensures Memory() == CoreMemory.DoFinishStore(old(Memory()), j, currentCycle)
    {
      ghost var m := Memory();
      assert QueueInv(m) && Conserved(m, 0, 0);
      hide QueueInv; hide Conserved; hide MemInv; hide Finish; hide Serve; hide CoreMemory.DoFinishStore;
      ghost var p := Position(rob, sq[j].id);
      CreditFinishedStore(j, p);
      ServeLoads(j, p);
      sq := sq[j := sq[j].(finished := true, event := currentCycle)];
      FinishedStoreIs(m, j, currentCycle, Memory());
    }

    /** The first unfinished store, by halving: finished stores are a prefix. */
    method FirstUnfinished() returns (from: nat)
      requires StoresInOrder(sq)
      ensures from == First(sq, Unfinished())
    {
      var len: nat := |sq|;
      from := 0;
      while len > 0
        invariant from + len <= |sq|
        invariant forall j :: 0 <= j < from ==> sq[j].finished
        invariant forall j :: from + len <= j < |sq| ==> !sq[j].finished
        decreases len
      {
        var half := len / 2;
        if sq[from + half].finished {
          from := from + half + 1;
          len := len - half - 1;
        } else {
          len := half;
        }
      }
      var q := First(sq, Unfinished());
      assert q == |sq| || (Unfinished()(sq[q]) && !sq[q].finished);
      assert from == |sq| || Unfinished()(sq[from]);
    }

    method FinishSpan(from: nat, n: nat)
      requires MemInv(Memory()) && from + n <= |sq|
      requires forall b :: 0 <= b < from ==> sq[b].finished
      requires forall b :: from <= b < from + n ==> !sq[b].finished
      modifies this`rob, this`lq, this`sq
      ensures Memory() == FinishStores(old(Memory()), from, n, currentCycle)
    {
      hide MemInv; hide CoreMemory.DoFinishStore;
      for k := 0 to n
        invariant MemInv(Memory()) && |sq| == |old(sq)|
        invariant forall b :: 0 <= b < from + k ==> sq[b].finished
        invariant forall b :: from + k <= b < from + n ==> !sq[b].finished
        invariant FinishStores(Memory(), from + k, n - k, currentCycle) ==
                  FinishStores(old(Memory()), from, n, currentCycle)
      {
        FinishMarksStore(Memory(), from + k, currentCycle);
        FinishStoreKeeps(Memory(), from + k, currentCycle);
        DoFinishStore(from + k);
      }
    }

    method FinishReadyStores() returns (finished: nat)
      requires MemInv(Memory())
      modifies this`rob, this`lq, this`sq
      ensures (State(), finished) == FinishStage(cfg, old(State()))
    {
      ghost var m := Memory();
      assert StoresInOrder(sq);
      var from := FirstUnfinished();
      finished := Finishable(sq, from, cfg.sqWidth, currentCycle);
      forall b | 0 <= b < from ensures sq[b].finished {
        assert !Unfinished()(sq[b]);
      }
      hide MemInv; hide FinishStores;
      FinishSpan(from, finished);
      assert State() == old(State()).WithMem(Memory());
      assert old(State()).Mem() == m;
    }

    method SendReadyStores(bw: nat, room: nat)
      modifies this`sq, this`storesSent
      ensures State() == SendStores(old(State()), bw, room)
    {
      var n := Completable(sq, 0, bw, Front(rob), currentCycle, room);
      storesSent := storesSent + StoreRequests(sq[..n]);
      sq := sq[n..];
    }

    method SendReadyLoads(accepts: set<nat>)
      modifies this`lq, this`loadsSent
      ensures State() == SendLoads(cfg, old(State()), accepts)
    {
      var loadBw := cfg.lqWidth;
      for k := 0 to |lq|
        invariant |lq| == |old(lq)| && loadsSent == old(loadsSent)
        invariant IssueLoads(lq, k, loadBw, currentCycle, accepts) ==
                  IssueLoads(old(lq), 0, cfg.lqWidth, currentCycle, accepts)
      {
        if loadBw > 0 && lq[k].Some? && lq[k].value.producer.None? && !lq[k].value.issued
           && lq[k].value.event < currentCycle {
          if k in accepts {
            loadBw := loadBw - 1;
            lq := lq[k := Some(lq[k].value.(issued := true))];
          }
        }
      }
      loadsSent := loadsSent + LoadRequests(old(lq), lq);
    }

    /** Finish the stores that are ready, send the retired stores at the front, then the
        loads that wait on nobody. `room` and `accepts` are the cache's answers. */
    method OperateLsq(room: nat, accepts: set<nat>)
      requires Valid()
      modifies this`rob, this`lq, this`sq, this`storesSent, this`loadsSent
      ensures Valid() && State() == CoreCycle.OperateLsq(cfg, old(State()), room, accepts)
    {
      hide CoreInv; hide MemInv; hide FinishStage; hide SendStores; hide SendLoads;
      ValidMeans();
      OperateLsqKeeps(cfg, State(), room, accepts, CoreCycle.OperateLsq(cfg, State(), room, accepts));
      var finished := FinishReadyStores();
      SendReadyStores(cfg.sqWidth - finished, room);
      SendReadyLoads(accepts);
    }

    // ---- Dispatch ----

    /** One load of the newest instruction. A free slot is there, and the store it
        forwards from is older. */
    method ScheduleLoad(i: nat, addr: Addr)
      requires i < |rob| && FreeSlots(lq) > 0 && StoresOlderThan(sq, rob[i].id)
      modifies this`rob, this`lq, this`sq
      ensures Memory() == LoadOne(old(Memory()), i, addr)
    {
      LoadOneSlots(Memory(), i, addr);
      var slot := First(lq, IsFree());
      assert slot != |lq|;
      assert IsFree()(lq[slot]);
      lq := lq[slot := Some(Load(rob[i].id, addr, 0, false, None))];
      match YoungestMatch(sq, addr)
      case None =>
      case Some(k) =>
        if sq[k].finished {
          lq := lq[slot := None];
          rob := rob[i := rob[i].(memDone := rob[i].memDone + 1)];
        } else {
          assert sq[k].id < rob[i].id;
          sq := sq[k := sq[k].(waiting := sq[k].waiting + [slot])];
          lq := lq[slot := Some(lq[slot].value.(producer := Some(sq[k].id)))];
        }
    }

    method DoMemoryScheduling(i: nat)
      requires i < |rob| && FreeSlots(lq) >= |rob[i].loads| && StoresOlderThan(sq, rob[i].id)
      modifies this`rob, this`lq, this`sq
      ensures Memory() == CoreMemory.DoMemoryScheduling(old(Memory()), i)
    {
      var id, loads, stores := rob[i].id, rob[i].loads, rob[i].stores;
      for k := 0 to |loads|
        invariant |rob| == |old(rob)| && |lq| == |old(lq)| && rob[i].id == id
        invariant FreeSlots(lq) >= |loads| - k && StoresOlderThan(sq, id)
        invariant ScheduleLoads(Memory(), i, loads[k..]) == ScheduleLoads(old(Memory()), i, loads)
      {
        assert loads[k..][0] == loads[k] && loads[k..][1..] == loads[k + 1..];
        LoadOneSlots(Memory(), i, loads[k]);
        LoadOneFrame(Memory(), i, loads[k]);
        hide LoadOne;
        ScheduleLoad(i, loads[k]);
      }
      assert loads[|loads|..] == [] && stores[0..] == stores;
      ghost var m1 := Memory();
      for k := 0 to |stores|
        invariant rob == m1.rob && lq == m1.lq
        invariant ScheduleStores(sq, id, stores[k..]) == ScheduleStores(m1.sq, id, stores)
      {
        assert stores[k..][0] == stores[k] && stores[k..][1..] == stores[k + 1..];
        sq := sq + [Store(id, stores[k], 0, false, [])];
      }
    }

    method DispatchOne()
      requires Valid() && CanDispatch(cfg, State())
      modifies this`dispatchBuffer, this`rob, this`lq, this`sq
      ensures Valid() && State() == CoreCycle.DispatchOne(old(State()))
    {
      hide CoreInv; hide CoreMemory.DoMemoryScheduling;
      OlderThanFront();
      DispatchOneKeeps(cfg, State());
      ghost var m := Memory();
      rob := rob + [dispatchBuffer[0]];
      dispatchBuffer := dispatchBuffer[1..];
      assert Memory() == m.(rob := rob) && State().Mem() == Memory();
      DoMemoryScheduling(|rob| - 1);
    }

    lemma OlderThanFront()
      requires Valid() && dispatchBuffer != []
      ensures StoresOlderThan(sq, dispatchBuffer[0].id)
    {
      assert Upcoming(State())[0] == dispatchBuffer[0];
    }

    method DispatchInstruction()
      requires Valid()
      modifies this`dispatchBuffer, this`rob, this`lq, this`sq
      ensures Valid() && State() == Dispatch(cfg, old(State()), cfg.dispatchWidth)
    {
      hide CoreInv; hide CoreCycle.DispatchOne;
      var availableBandwidth := cfg.dispatchWidth;
      while availableBandwidth > 0 && dispatchBuffer != [] && dispatchBuffer[0].event < currentCycle
            && |rob| != cfg.robSize
            && FreeSlots(lq) >= |dispatchBuffer[0].loads| && |dispatchBuffer[0].stores| + |sq| <= cfg.sqSize
        invariant Valid() && currentCycle == old(currentCycle)
        invariant Dispatch(cfg, State(), availableBandwidth) == Dispatch(cfg, old(State()), cfg.dispatchWidth)
        decreases availableBandwidth
      {
        DispatchOne();
        availableBandwidth := availableBandwidth - 1;
      }
    }

    // ---- The front end ----

    method DecodeInstruction()
      requires Valid()
      modifies this`decodeBuffer, this`dispatchBuffer
      ensures Valid() && State() == Decode(cfg, old(State()))
    {
      hide CoreInv;
      DecodeKeeps(cfg, State());
      assert |dispatchBuffer| <= cfg.dispatchSize by { SizesMean(); }
      var n := Span(decodeBuffer, Min(cfg.decodeWidth, cfg.dispatchSize - |dispatchBuffer|), Ready(currentCycle));
      var window := decodeBuffer[..n];
      for k := 0 to n
        invariant |window| == n
        invariant forall q :: 0 <= q < n ==>
          window[q] == if q < k then decodeBuffer[q].(event := After(cfg.dispatchLatency)) else decodeBuffer[q]
      {
        window := window[k := window[k].(event := After(cfg.dispatchLatency))];
      }
      assert window == Stamp(decodeBuffer[..n], State(), cfg.dispatchLatency, false);
      dispatchBuffer := dispatchBuffer + window;
      decodeBuffer := decodeBuffer[n..];
    }

    method PromoteToDecode()
      requires Valid()
      modifies this`ifetchBuffer, this`decodeBuffer
      ensures Valid() && State() == Promote(cfg, old(State()))
    {
      hide CoreInv;
      PromoteKeeps(cfg, State());
      assert |decodeBuffer| <= cfg.decodeSize by { SizesMean(); }
      var n := Span(ifetchBuffer, Min(cfg.fetchWidth, cfg.decodeSize - |decodeBuffer|), FetchedAndReady(currentCycle));
      var window := ifetchBuffer[..n];
      for k := 0 to n
        invariant |window| == n
        invariant forall q :: 0 <= q < n ==>
          window[q] == if q < k then Stamp(ifetchBuffer[..n], State(), cfg.decodeLatency, true)[q] else ifetchBuffer[q]
      {
        window :=
            window[k := window[k].(event := if window[k].decoded then currentCycle else After(cfg.decodeLatency))];
      }
      assert window == Stamp(ifetchBuffer[..n], State(), cfg.decodeLatency, true);
      decodeBuffer := decodeBuffer + window;
      ifetchBuffer := ifetchBuffer[n..];
    }

    lemma SizesMean()
      requires Valid()
      ensures |dispatchBuffer| <= cfg.dispatchSize && |decodeBuffer| <= cfg.decodeSize
      ensures |ifetchBuffer| <= cfg.ifetchSize
    {
    }

    /** Mark fetched instructions, and those that hit the decoded instruction buffer. */
    method CheckDib(hits: set<Id>)
      requires Valid()
      modifies this`ifetchBuffer
      ensures Valid() && State() == old(State()).(ifetch := MarkHits(old(ifetchBuffer), hits, currentCycle))
    {
      hide CoreInv;
      MarksKeep(cfg, State(), MarkHits(ifetchBuffer, hits, currentCycle));
      for k := 0 to |ifetchBuffer|
        invariant |ifetchBuffer| == |old(ifetchBuffer)|
        invariant forall q :: 0 <= q < |ifetchBuffer| ==>
          ifetchBuffer[q] == if q < k then MarkHits(old(ifetchBuffer), hits, currentCycle)[q] else old(ifetchBuffer)[q]
      {
        if ifetchBuffer[k].id in hits {
          ifetchBuffer := ifetchBuffer[k := ifetchBuffer[k].(fetched := true, decoded := true, event := currentCycle)];
        }
      }
      assert ifetchBuffer == MarkHits(old(ifetchBuffer), hits, currentCycle);
    }

    /** Take instructions while there is room; `takes` is where a stalled fetch or a
        predicted-taken branch stops it. */
    method InitializeInstruction(takes: nat)
      requires Valid()
      modifies this`ifetchBuffer, this`inputQueue
      ensures Valid() && State() == Initialize(cfg, old(State()), takes)
    {
      hide CoreInv;
      InitializeKeeps(cfg, State(), takes);
      assert |ifetchBuffer| <= cfg.ifetchSize by { SizesMean(); }
      var toRead: nat := Min(cfg.fetchWidth, cfg.ifetchSize - |ifetchBuffer|);
      ghost var c := State();
      var taken := 0;
      while taken < takes && toRead > 0 && inputQueue != []
        invariant taken <= |c.input| && taken <= takes && inputQueue == c.input[taken..]
        invariant toRead + taken == Min(cfg.fetchWidth, cfg.ifetchSize - |c.ifetch|)
        invariant ifetchBuffer == c.ifetch + InitAll(c.input[..taken], c)
        decreases toRead
      {
        assert inputQueue[0] == c.input[taken];
        assert InitAll(c.input[..taken + 1], c) == InitAll(c.input[..taken], c) + [InitInstruction(c.input[taken], c)];
        toRead := toRead - 1;
        ifetchBuffer := ifetchBuffer + [Initialized(inputQueue[0])];
        inputQueue := inputQueue[1..];
        taken := taken + 1;
      }
      assert taken == Min(takes, Min(Min(cfg.fetchWidth, cfg.ifetchSize - |c.ifetch|), |c.input|));
    }

    /** During warm-up register dependences are dropped. */
    function Initialized(x: Instr): Instr
      reads this`warmup, this`currentCycle
    {
      FoldStackPointer(if warmup then x.(sources := [], destinations := []) else x).(event := currentCycle)
    }

    method BackEnd(env: Env)
      requires Valid()
      modifies this`rob, this`regProducers, this`lq, this`sq
      modifies this`retired, this`numRetired, this`storesSent, this`loadsSent
      ensures Valid() && State() == CoreCycle.BackEnd(cfg, old(State()), env)
    {
      hide CoreInv, Retire, Complete, Execute, Schedule, MemoryReturn, CoreCycle.OperateLsq;
      RetireRob();
      CompleteInflightInstruction();
      ExecuteInstruction();
      ScheduleInstruction();
      HandleMemoryReturn(env.blocks);
      OperateLsq(env.room, env.accepts);
    }

    method FrontEnd(env: Env)
      requires Valid()
      modifies this`rob, this`lq, this`sq, this`dispatchBuffer, this`decodeBuffer, this`ifetchBuffer, this`inputQueue
      ensures Valid() && State() == CoreCycle.FrontEnd(cfg, old(State()), env)
    {
      hide CoreInv; hide Dispatch; hide Decode; hide Promote; hide Initialize;
      DispatchInstruction();
      DecodeInstruction();
      PromoteToDecode();
      CheckDib(env.dibHits);
      InitializeInstruction(env.takes);
    }

    /** One call of `operate`, and the tick after it. The trace instructions that arrived
        and the fetches that completed since the last call come first. */
    method Operate(env: Env)
      requires Valid() && ValidArrivals(State(), env.arrivals)
      modifies this
      ensures Valid() && State() == CoreCycle.Operate(cfg, old(State()), env)
    {
      hide CoreInv, ValidArrivals, Line, Identify, CoreCycle.BackEnd, CoreCycle.FrontEnd, RegInv, MemInv;
      ValidMeans();
      ghost var c := State();
      OperateKeeps(cfg, c, env);
      ArrivalsKeep(cfg, c, env.arrivals);
      inputQueue := inputQueue + env.arrivals;
      MarksKeep(cfg, State(), MarkFetched(ifetchBuffer, env.fetched));
      ifetchBuffer := MarkFetched(ifetchBuffer, env.fetched);
      BackEnd(env);
      FrontEnd(env);
      currentCycle := currentCycle + 1;
    }
  }

  lemma ExecutedIs(cfg: Config, c: Core, d: Core, event: nat)
    requires event == c.After(cfg.execLatency) && d.Mem() == ExecuteScan(c.Mem(), 0, cfg.execWidth, c.cycle, event)
    requires d == c.WithMem(d.Mem())
    ensures d == Execute(cfg, c)
  {
  }

  /** The first load on store `j`'s list is there, waits on it and is owed the operation. */
  lemma FirstWaiting(m: Mem, j: nat, p: nat)
    requires QueueInv(m) && Conserved(m, p, -1) && j < |m.sq| && !m.sq[j].finished && m.sq[j].waiting != []
    requires p == Position(m.rob, m.sq[j].id)
    ensures var k := m.sq[j].waiting[0];
      && Ordered(m.rob) && k < |m.lq| && m.lq[k].Some? && m.lq[k].value.producer == Some(m.sq[j].id)
      && (var q := Position(m.rob, m.lq[k].value.id); q < |m.rob| && m.rob[q].memDone < m.rob[q].MemOps())
      && (var m' :=
            Mem(Finish(m.rob, m.lq[k].value.id), m.lq[k := None], m.sq[j := m.sq[j].(waiting := m.sq[j].waiting[1..])]);
          QueueInv(m') && Conserved(m', p, -1) && SameIds(m.rob, m'.rob))
  {
    ServeOne(m, j, p, -1);
    StoreIsOpen(m, j);
    LoadIsOwed(m, m.sq[j].waiting[0], p, -1);
  }

  lemma FinishedStoreIs(m: Mem, j: nat, now: nat, r: Mem)
    requires j < |m.sq| && (r.rob, r.lq) == Serve(Finish(m.rob, m.sq[j].id), m.lq, m.sq[j].waiting)
    requires r.sq == m.sq[j := m.sq[j].(finished := true, event := now)]
    ensures r == CoreMemory.DoFinishStore(m, j, now)
  {
  }

  lemma StoreIsOpen(m: Mem, j: nat)
    requires j < |m.sq| && !m.sq[j].finished
    ensures OpenStoresOf(m.sq, m.sq[j].id) > 0
  {
    TallyPositive(m.sq, j, IsOpenStoreOf(m.sq[j].id));
  }

  lemma StoreIsOwed(m: Mem, j: nat)
    requires QueueInv(m) && Conserved(m, 0, 0) && j < |m.sq| && !m.sq[j].finished
    ensures var p := Position(m.rob, m.sq[j].id); p < |m.rob| && m.rob[p].memDone < m.rob[p].MemOps()
  {
    StoreIsOpen(m, j);
  }

  lemma FirstIs(rob: Rob, id: Id, p: nat)
    requires p <= |rob|
    requires forall k :: 0 <= k < p ==> rob[k].id < id
    requires forall k :: p <= k < |rob| ==> rob[k].id >= id
    ensures First(rob, NotBelow(id)) == p
  {
    var q := First(rob, NotBelow(id));
    assert q == |rob| || (NotBelow(id)(rob[q]) && rob[q].id >= id);
    assert p == |rob| || NotBelow(id)(rob[p]);
    assert q >= p && q <= p;
  }

  lemma OneBlock(rob: Rob, lq: LoadQueue, block: nat, blockSize: nat)
    requires blockSize > 0
    ensures ReturnBlocks(rob, lq, [block], blockSize) == ReturnBlock(rob, lq, 0, block, blockSize)
  {
  }

  /** A queued load's instruction is present and still owed the operation. */
  lemma LoadIsOwed(m: Mem, k: nat, i: int, due: int)
    requires QueueInv(m) && Conserved(m, i, due) && k < |m.lq| && m.lq[k].Some?
    requires due >= 0 || (0 <= i < |m.rob| && due + OpenStoresOf(m.sq, m.rob[i].id) >= 0)
    ensures var p := Position(m.rob, m.lq[k].value.id); p < |m.rob| && m.rob[p].memDone < m.rob[p].MemOps()
  {
    TallyPositive(m.lq, k, IsLoadOf(m.lq[k].value.id));
  }

  /** The producer lists around one instruction's own entries. */
  ghost method SplitProducers(s: Regs, i: nat) returns (a: Producers, b: Producers)
    requires RegInv(s) && i < |s.rob| && s.rob[i].executed == Inflight
    ensures forall q: Reg :: s.rob[i].id !in a[q] &&
              s.producers[q] == a[q] + Repeat(s.rob[i].id, Count(s.rob[i].destinations, q)) + b[q]
  {
    a := seq(REGISTERS, q requires 0 <= q < REGISTERS => Writers(s.rob[..i], q));
    b := seq(REGISTERS, q requires 0 <= q < REGISTERS => Writers(s.rob[i + 1..], q));
    forall q: Reg ensures s.rob[i].id !in a[q] &&
              s.producers[q] == a[q] + Repeat(s.rob[i].id, Count(s.rob[i].destinations, q)) + b[q]
    {
      WritersAround(s.rob, i, q);
    }
  }

  /** Each producer list, split around the places `id` still holds for `left`. */
  ghost predicate SplitBy(now: Producers, a: Producers, b: Producers, id: Id, left: seq<Reg>) {
    forall q: Reg :: id !in a[q] && now[q] == a[q] + Repeat(id, Count(left, q)) + b[q]
  }

  /** The list of the next destination holds the id, and erasing it there keeps the split. */
  lemma SplitStep(now: Producers, a: Producers, b: Producers, id: Id, left: seq<Reg>)
    requires SplitBy(now, a, b, id, left) && left != []
    ensures var d := left[0];
      FirstOf(now[d], id) < |now[d]| && SplitBy(now[d := Erase(now[d], id)], a, b, id, left[1..])
  {
    var d := left[0];
    EraseFromMiddle(a[d], id, Count(left, d), b[d]);
    assert now[d][|a[d]|] == id;
  }

  /** The k-th dependent of a completing instruction was waiting, and no earlier one is
      the same instruction. */
  lemma NotYetReleased(rob: Rob, i: nat, k: nat, p: nat)
    requires Ordered(rob) && StatusInOrder(rob) && Links(rob) && i < |rob| && rob[i].executed == Inflight
    requires k < |rob[i].dependents| && p == Position(rob, rob[i].dependents[k])
    ensures i < p < |rob| && rob[p].waitsFor >= 1 && rob[p].id !in rob[i].dependents[..k]
  {
    var deps := rob[i].dependents;
    assert deps[k] in deps;
    ReleasedWereWaiting(rob, i, p);
    forall m | 0 <= m < k ensures deps[..k][m] != rob[p].id { }
  }
}
