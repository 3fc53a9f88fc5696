/** The memory channel as the simulator runs it: slots, banks and bus updated in place. */
module DramController {
  import opened Options
  import opened DramState
  import opened DramPointers
  import opened DramRuns
  import opened Scans
  import opened SetUnion

  class DramChannel {
    const cfg: Config
    var currentCycle: nat
    var warmup: bool
    var rq: Queue
    var wq: Queue
    var bankRequest: seq<Bank>
    var activeRequest: Option<nat>
    var writeMode: bool
    var dbusCycleAvailable: nat
    var dbusCycleCongested: nat
    var returned: seq<Response>
    ghost var bus: Bus

    ghost function Abstract(): Channel
      reads this
    {
      Channel(rq, wq, bankRequest, activeRequest, writeMode, dbusCycleAvailable, dbusCycleCongested, returned)
    }

    ghost predicate Valid()
      reads this
    {
      ChannelInv(cfg, Abstract(), currentCycle, warmup) && BusInv(cfg, Abstract(), currentCycle, bus)
    }

    constructor (cfg: Config)
      requires cfg.Valid()
      ensures Valid() && this.cfg == cfg
      ensures DramRuns.State(Abstract(), currentCycle, warmup, bus) == Reset(cfg)
    {
      this.cfg := cfg;
      currentCycle, warmup, bus := 0, true, Bus(0, false);
      rq, wq := seq(cfg.rqSize, _ => None), seq(cfg.wqSize, _ => None);
      bankRequest := seq(cfg.ranks * cfg.banks, _ => Bank(false, false, NO_ROW, 0, Slot(false, 0)));
      activeRequest, writeMode, dbusCycleAvailable, dbusCycleCongested, returned := None, false, 0, 0, [];
      new;
      ResetInv(cfg);
    }

    /** A read takes the first empty slot; the queue refuses it when there is none. */
    method AddRq(packet: Request) returns (taken: bool)
      requires Valid() && Sorted(packet.deps) && Sorted(packet.toReturn)
      modifies this`rq
      ensures Valid() && (rq, taken) == AddTo(old(rq), packet, currentCycle)
    {
      AddAllKeeps(cfg, rq, [packet], currentCycle, AddAll(rq, [packet], currentCycle));
      ghost var before := Abstract();
      var k := First(rq, Empty());
      taken := k < |rq|;
      if taken {
        rq := rq[k := Some(packet.(scheduled := false, checked := false, event := currentCycle))];
        assert rq == AddAll(old(rq), [packet], currentCycle);
        SameScheduledKeeps(cfg, before, Abstract());
      }
    }

    method AddWq(packet: Request) returns (taken: bool)
      requires Valid() && Sorted(packet.deps) && Sorted(packet.toReturn)
      modifies this`wq
      ensures Valid() && (wq, taken) == AddTo(old(wq), packet, currentCycle)
    {
      AddAllKeeps(cfg, wq, [packet], currentCycle, AddAll(wq, [packet], currentCycle));
      ghost var before := Abstract();
      var k := First(wq, Empty());
      taken := k < |wq|;
      if taken {
        wq := wq[k := Some(packet.(scheduled := false, checked := false, event := currentCycle))];
        assert wq == AddAll(old(wq), [packet], currentCycle);
        SameScheduledKeeps(cfg, before, Abstract());
      }
    }

    method AnswerEverything()
      requires warmup
      modifies this`rq, this`wq, this`returned
      ensures Abstract() == Drain(old(Abstract()))
    {
      for k := 0 to |rq|
        invariant |rq| == |old(rq)| && wq == old(wq)
        invariant DrainReads(rq, returned, k) == DrainReads(old(rq), old(returned), 0)
      {
        if rq[k].Some? {
          returned := returned + Responses(rq[k].value, rq[k].value.data, rq[k].value.toReturn);
          rq := rq[k := None];
        }
      }
      for k := 0 to |wq|
        invariant |wq| == |old(wq)| && (rq, returned) == DrainReads(old(rq), old(returned), 0)
        invariant forall j :: 0 <= j < k ==> wq[j].None?
      {
        wq := wq[k := None];
      }
      assert wq == seq(|old(wq)|, _ => None);
    }

    method CheckCollision()
      requires cfg.blockSize > 0
      modifies this`rq, this`wq, this`returned
      ensures Abstract() == DramState.CheckCollision(cfg, old(Abstract()))
    {
      for k := 0 to |wq|
        invariant |wq| == |old(wq)| && rq == old(rq) && returned == old(returned)
        invariant CheckWrites(cfg, wq, k) == CheckWrites(cfg, old(wq), 0)
      {
        if wq[k].Some? && !wq[k].value.checked {
          var a := wq[k].value.address;
          if FindBlock(cfg, wq, 0, k, a) != k {
            wq := wq[k := None];
          } else if FindBlock(cfg, wq, k + 1, |wq|, a) != |wq| {
            wq := wq[k := None];
          } else {
            wq := wq[k := Some(wq[k].value.(checked := true))];
          }
        }
      }
      for k := 0 to |rq|
        invariant |rq| == |old(rq)| && wq == CheckWrites(cfg, old(wq), 0)
        invariant CheckReads(cfg, rq, wq, returned, k) == CheckReads(cfg, old(rq), wq, old(returned), 0)
      {
        CheckOneRead(k);
      }
    }

    method CheckOneRead(k: nat)
      requires cfg.blockSize > 0 && k < |rq|
      modifies this`rq, this`returned
      ensures (rq, returned) == CheckRead(cfg, old(rq), wq, old(returned), k)
    {
      if rq[k].Some? && !rq[k].value.checked {
        var x := rq[k].value;
        var w := FindBlock(cfg, wq, 0, |wq|, x.address);
        var before := FindBlock(cfg, rq, 0, k, x.address);
        var after := FindBlock(cfg, rq, k + 1, |rq|, x.address);
        if w < |wq| {
          returned := returned + Responses(x, wq[w].value.data, x.toReturn);
          rq := rq[k := None];
        } else if before < k {
          rq := rq[before := Some(rq[before].value.(deps := Union(rq[before].value.deps, x.deps),
                                                   toReturn := Union(rq[before].value.toReturn, x.toReturn)))];
          rq := rq[k := None];
        } else if after < |rq| {
          rq := rq[after := Some(rq[after].value.(deps := Union(rq[after].value.deps, x.deps),
                                                 toReturn := Union(rq[after].value.toReturn, x.toReturn)))];
          rq := rq[k := None];
        } else {
          rq := rq[k := Some(x.(checked := true))];
        }
      }
    }

    method FinishTransfer()
      requires PointerInv(cfg, Abstract())
      modifies this`rq, this`wq, this`bankRequest, this`activeRequest, this`returned
      ensures Abstract() == FinishRequest(old(Abstract()), currentCycle)
    {
      if activeRequest.Some? && bankRequest[activeRequest.value].event <= currentCycle {
        var i := activeRequest.value;
        assert BankLinked(cfg, Abstract(), i);
        var s := bankRequest[i].pkt;
        var e := (if s.write then wq else rq)[s.index].value;
        returned := returned + Responses(e, e.data, e.toReturn);
        bankRequest := bankRequest[i := bankRequest[i].(valid := false)];
        if s.write { wq := wq[s.index := None]; } else { rq := rq[s.index := None]; }
        activeRequest := None;
      }
    }

    method UnscheduleBanks()
      modifies this`rq, this`wq, this`bankRequest
      ensures Abstract() == UnscheduleAll(cfg, old(Abstract()), 0, currentCycle)
    {
      for k := 0 to |bankRequest|
        invariant |bankRequest| == |old(bankRequest)|
        invariant UnscheduleAll(cfg, Abstract(), k, currentCycle) ==
                  UnscheduleAll(cfg, old(Abstract()), 0, currentCycle)
      {
        UnscheduleBank(k);
      }
    }

    method UnscheduleBank(k: nat)
      requires k < |bankRequest|
      modifies this`rq, this`wq, this`bankRequest
      ensures Abstract() == Unschedule(cfg, old(Abstract()), k, currentCycle)
    {
      var b := bankRequest[k];
      if activeRequest != Some(k) && b.valid {
        if b.event < currentCycle + cfg.tCAS {
          bankRequest := bankRequest[k := bankRequest[k].(openRow := NO_ROW)];
        }
        bankRequest := bankRequest[k := bankRequest[k].(valid := false)];
        if b.pkt.write {
          if b.pkt.index < |wq| && wq[b.pkt.index].Some? {
            wq := wq[b.pkt.index := Some(wq[b.pkt.index].value.(scheduled := false, event := currentCycle))];
          }
        } else {
          if b.pkt.index < |rq| && rq[b.pkt.index].Some? {
            rq := rq[b.pkt.index := Some(rq[b.pkt.index].value.(scheduled := false, event := currentCycle))];
          }
        }
      }
    }

    method ChangeMode()
      requires activeRequest.Some? ==> activeRequest.value < |bankRequest|
      modifies this`rq, this`wq, this`bankRequest, this`dbusCycleAvailable, this`writeMode
      ensures Abstract() == SwitchMode(cfg, old(Abstract()), currentCycle)
    {
      var wqOccupancy, rqOccupancy := Occupancy(wq), Occupancy(rq);
      if (!writeMode && (wqOccupancy >= cfg.HighMark() || (rqOccupancy == 0 && wqOccupancy > 0)))
         || (writeMode && (wqOccupancy == 0 || (rqOccupancy > 0 && wqOccupancy < cfg.LowMark()))) {
        ghost var c := Abstract();
        UnscheduleBanks();
        UnscheduleAllKeepsActive(cfg, c, 0, currentCycle);
        if activeRequest.Some? {
          dbusCycleAvailable := bankRequest[activeRequest.value].event + cfg.turnAround;
        } else {
          dbusCycleAvailable := currentCycle + cfg.turnAround;
        }
        writeMode := !writeMode;
      }
    }

    /** Put the most urgent ready request on a free bus; on a busy one, count for how long
        it stays busy. */
    method ProcessRequest()
      requires cfg.Valid() && PointerInv(cfg, Abstract()) && BusInv(cfg, Abstract(), currentCycle, bus)
      requires activeRequest.Some? ==> bankRequest[activeRequest.value].event > currentCycle
      modifies this`bankRequest, this`activeRequest, this`dbusCycleCongested, this`bus
      ensures Abstract() == UseBus(cfg, old(Abstract()), currentCycle)
      ensures bus == if activeRequest != old(activeRequest) then Bus(currentCycle + cfg.returnTime, writeMode)
                else old(bus)
    {
      var next := Scan(bankRequest, IsValidBank(), BankUrgency());
      if bankRequest[next].valid && bankRequest[next].event <= currentCycle {
        if activeRequest.None? && dbusCycleAvailable <= currentCycle {
          activeRequest := Some(next);
          bankRequest := bankRequest[next := bankRequest[next].(event := currentCycle + cfg.returnTime)];
          bus := Bus(currentCycle + cfg.returnTime, writeMode);
        } else if activeRequest.Some? {
          assert bankRequest[activeRequest.value].event >= currentCycle;
          dbusCycleCongested := dbusCycleCongested + (bankRequest[activeRequest.value].event - currentCycle);
        } else {
          assert dbusCycleAvailable >= currentCycle;
          dbusCycleCongested := dbusCycleCongested + (dbusCycleAvailable - currentCycle);
        }
      }
    }

    method ScheduleNext()
      requires cfg.Valid() && Shaped(cfg, Abstract())
      modifies this`rq, this`wq, this`bankRequest
      ensures Abstract() == ScheduleRequest(cfg, old(Abstract()), currentCycle)
    {
      var q := if writeMode then wq else rq;
      var k := Scan(q, Unscheduled(), RequestAge());
      if q[k].Some? && q[k].value.event <= currentCycle {
        var e := q[k].value;
        var i := OpIndex(cfg, e.address);
        if !bankRequest[i].valid {
          var row := RowOf(cfg, e.address);
          var hit := bankRequest[i].openRow == row;
          bankRequest := bankRequest[i := Bank(true, hit, row,
            currentCycle + cfg.tCAS + (if hit then 0 else cfg.tRP + cfg.tRCD), Slot(writeMode, k))];
          if writeMode {
            wq := wq[k := Some(e.(scheduled := true, event := NEVER))];
          } else {
            rq := rq[k := Some(e.(scheduled := true, event := NEVER))];
          }
        }
      }
    }

    /** Time only moves forward, and warm-up only ends. */
    method Tick(endsWarmup: bool)
      requires Valid()
      modifies this`currentCycle, this`warmup
      ensures Valid() && currentCycle == old(currentCycle) + 1 && warmup == (old(warmup) && !endsWarmup)
    {
      LaterKeeps(cfg, DramRuns.State(Abstract(), currentCycle, warmup, bus), currentCycle + 1, endsWarmup);
      currentCycle := currentCycle + 1;
      warmup := warmup && !endsWarmup;
    }

    /** Warm-up answers, collisions, the end of a transfer, and the mode decision. */
    method ServeQueues()
      requires Valid()
      modifies this`rq, this`wq, this`bankRequest
      modifies this`activeRequest, this`writeMode, this`dbusCycleAvailable, this`returned
      ensures Abstract() == BeforeBus(cfg, old(Abstract()), currentCycle, warmup)
    {
      ghost var c := Abstract();
      assert cfg.blockSize > 0 && PointerInv(cfg, DramState.CheckCollision(cfg, if warmup then Drain(c) else c)) by {
        CollisionPointers(cfg, c, currentCycle, warmup);
      }
      hide ChannelInv; hide BusInv; hide DramState.CheckCollision; hide Drain; hide SwitchMode;
      if warmup {
        AnswerEverything();
      }
      CheckCollision();
      FinishTransfer();
      FinishPointers(cfg, DramState.CheckCollision(cfg, if warmup then Drain(c) else c), currentCycle);
      ChangeMode();
    }

    method Operate()
      requires Valid() && currentCycle < NEVER
      modifies this`rq, this`wq, this`bankRequest, this`activeRequest, this`writeMode,
               this`dbusCycleAvailable, this`dbusCycleCongested, this`returned, this`bus
      ensures Valid() && Abstract() == DramState.Operate(cfg, old(Abstract()), currentCycle, warmup)
      ensures bus == NextBus(cfg, old(Abstract()), currentCycle, warmup, old(bus))
    {
      ghost var c := Abstract();
      hide QueueInv; hide BusInv; hide UseBus; hide ScheduleRequest; hide BeforeBus;
      DramRuns.OperateKeeps(cfg, c, currentCycle, warmup, DramState.Operate(cfg, c, currentCycle, warmup));
      OperateBus(cfg, c, currentCycle, warmup, bus, DramState.Operate(cfg, c, currentCycle, warmup));
      BeforeBusInv(cfg, c, currentCycle, warmup, bus, BeforeBus(cfg, c, currentCycle, warmup));
      UseBusKeeps(cfg, BeforeBus(cfg, c, currentCycle, warmup), currentCycle, warmup,
                  UseBus(cfg, BeforeBus(cfg, c, currentCycle, warmup), currentCycle));
      OperateIs(cfg, c, currentCycle, warmup);
      ServeQueues();
      ProcessRequest();
      ScheduleNext();
    }
  }

  lemma OperateIs(cfg: Config, c: Channel, now: nat, warmup: bool)
    requires cfg.Valid() && PointerInv(cfg, c) && PointerInv(cfg, BeforeBus(cfg, c, now, warmup))
    requires Shaped(cfg, UseBus(cfg, BeforeBus(cfg, c, now, warmup), now))
    ensures DramState.Operate(cfg, c, now, warmup) ==
              ScheduleRequest(cfg, UseBus(cfg, BeforeBus(cfg, c, now, warmup), now), now)
  {
  }

  lemma {:induction false} UnscheduleAllKeepsActive(cfg: Config, c: Channel, k: nat, now: nat)
    requires k <= |c.banks| && (c.active.Some? ==> c.active.value < |c.banks|)
    ensures c.active.Some? ==> UnscheduleAll(cfg, c, k, now).banks[c.active.value] == c.banks[c.active.value]
    decreases |c.banks| - k
  {
    if k == |c.banks| {
    } else {
      UnscheduleAllKeepsActive(cfg, Unschedule(cfg, c, k, now), k + 1, now);
    }
  }

  lemma CollisionPointers(cfg: Config, c: Channel, now: nat, warmup: bool)
    requires ChannelInv(cfg, c, now, warmup)
    ensures PointerInv(cfg, DramState.CheckCollision(cfg, if warmup then Drain(c) else c))
  {
    if warmup { DrainKeeps(cfg, c, now); }
    CheckCollisionPointers(cfg, if warmup then Drain(c) else c);
  }
}
