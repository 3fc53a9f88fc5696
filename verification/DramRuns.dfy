/** The memory channel over whole runs: consistency, bus timing, and no idle stall. */
module DramRuns {
  import opened Options
  import opened DramState
  import opened DramPointers
  import opened DramQueues
  import opened Scans
  import opened SetUnion

  /** Entries that may be scheduled are due. */
  ghost predicate Due(q: Queue, now: nat) {
    forall k :: 0 <= k < |q| && q[k].Some? && !q[k].value.scheduled ==> q[k].value.event <= now
  }

  ghost predicate SortedLists(q: Queue) {
    forall k :: 0 <= k < |q| && q[k].Some? ==> Sorted(q[k].value.deps) && Sorted(q[k].value.toReturn)
  }

  ghost predicate QueueInv(cfg: Config, q: Queue, now: nat)
    requires cfg.blockSize > 0
  {
    Due(q, now) && CheckedDistinct(cfg, q) && SortedLists(q)
  }

  /** In warm-up nothing is ever scheduled. */
  ghost predicate ChannelInv(cfg: Config, c: Channel, now: nat, warmup: bool) {
    && PointerInv(cfg, c) && QueueInv(cfg, c.rq, now) && QueueInv(cfg, c.wq, now)
    && (warmup ==> forall i :: 0 <= i < |c.banks| ==> !c.banks[i].valid)
  }

  // ---- Each stage keeps the queues ----

  lemma {:induction false} CheckWritesKeep(cfg: Config, wq: Queue, k: nat, now: nat, d: Queue)
    requires cfg.blockSize > 0 && k <= |wq| && Due(wq, now) && SortedLists(wq) && d == CheckWrites(cfg, wq, k)
    ensures Due(d, now) && SortedLists(d)
    decreases |wq| - k
  {
    if k == |wq| {
    } else {
      CheckWritesKeep(cfg, CheckWrite(cfg, wq, k), k + 1, now, d);
    }
  }

  lemma CheckReadKeeps(cfg: Config, rq: Queue, wq: Queue, out: seq<Response>, k: nat, now: nat)
    requires cfg.blockSize > 0 && k < |rq| && Due(rq, now) && SortedLists(rq)
    ensures var r := CheckRead(cfg, rq, wq, out, k); Due(r.0, now) && SortedLists(r.0)
  {
    if rq[k].Some? && !rq[k].value.checked {
      var x := rq[k].value;
      var before := FindBlock(cfg, rq, 0, k, x.address);
      var after := FindBlock(cfg, rq, k + 1, |rq|, x.address);
      if before < k {
        UnionSorted(rq[before].value.deps, x.deps);
        UnionSorted(rq[before].value.toReturn, x.toReturn);
      }
      if after < |rq| {
        UnionSorted(rq[after].value.deps, x.deps);
        UnionSorted(rq[after].value.toReturn, x.toReturn);
      }
    }
  }

  lemma {:induction false} CheckReadsKeep(
      cfg: Config, rq: Queue, wq: Queue, out: seq<Response>, k: nat, now: nat, d: Queue)
    requires cfg.blockSize > 0 && k <= |rq| && Due(rq, now) && SortedLists(rq) && d == CheckReads(cfg, rq, wq, out, k).0
    ensures Due(d, now) && SortedLists(d)
    decreases |rq| - k
  {
    if k == |rq| {
    } else {
      var r := CheckRead(cfg, rq, wq, out, k);
      CheckReadKeeps(cfg, rq, wq, out, k, now);
      hide CheckRead;
      CheckReadsKeep(cfg, r.0, wq, r.1, k + 1, now, d);
    }
  }

  lemma CollisionKeeps(cfg: Config, c: Channel, now: nat, warmup: bool, d: Channel)
    requires ChannelInv(cfg, c, now, warmup) && d == CheckCollision(cfg, c)
    ensures ChannelInv(cfg, d, now, warmup)
    ensures CheckedBelow(d.rq, |d.rq|) && CheckedBelow(d.wq, |d.wq|)
  {
    CheckCollisionPointers(cfg, c);
    CheckWritesKeep(cfg, c.wq, 0, now, d.wq);
    CheckWritesDistinct(cfg, c.wq, 0, d.wq);
    CheckReadsKeep(cfg, c.rq, d.wq, c.out, 0, now, d.rq);
    CheckReadsDistinct(cfg, c.rq, d.wq, c.out, 0, d.rq);
  }

  /** No slot of `b` is occupied that was empty in `a`. */
  ghost predicate Fills(a: Queue, b: Queue) {
    |a| == |b| && forall k :: 0 <= k < |a| && b[k].Some? ==> a[k].Some?
  }

  lemma {:induction false} CheckWritesFill(cfg: Config, wq: Queue, k: nat, d: Queue)
    requires cfg.blockSize > 0 && k <= |wq| && d == CheckWrites(cfg, wq, k)
    ensures Fills(wq, d)
    decreases |wq| - k
  {
    if k == |wq| {
    } else {
      CheckWritesFill(cfg, CheckWrite(cfg, wq, k), k + 1, d);
    }
  }

  lemma {:induction false} CheckReadsFill(cfg: Config, rq: Queue, wq: Queue, out: seq<Response>, k: nat, d: Queue)
    requires cfg.blockSize > 0 && k <= |rq| && d == CheckReads(cfg, rq, wq, out, k).0
    ensures Fills(rq, d)
    decreases |rq| - k
  {
    if k == |rq| {
    } else {
      var r := CheckRead(cfg, rq, wq, out, k);
      assert Fills(rq, r.0);
      hide CheckRead;
      CheckReadsFill(cfg, r.0, wq, r.1, k + 1, d);
    }
  }

  /** Queues that differ from checked ones in scheduling only. */
  ghost predicate Rescheduled(a: Queue, b: Queue, now: nat) {
    && |a| == |b|
    && Fills(a, b)
    && (forall k :: 0 <= k < |a| && b[k].Some? && a[k].Some? ==>
          b[k].value.address == a[k].value.address && b[k].value.checked == a[k].value.checked)
    && (forall k :: 0 <= k < |a| && b[k].Some? && a[k].Some? ==>
          b[k].value.deps == a[k].value.deps && b[k].value.toReturn == a[k].value.toReturn)
    && (forall k :: 0 <= k < |a| && b[k].Some? && a[k].Some? && !b[k].value.scheduled ==>
          b[k].value.event <= now || b[k] == a[k])
  }

  lemma RescheduledKeeps(cfg: Config, a: Queue, b: Queue, now: nat)
    requires cfg.blockSize > 0 && QueueInv(cfg, a, now) && CheckedBelow(a, |a|) && Rescheduled(a, b, now)
    ensures QueueInv(cfg, b, now) && CheckedBelow(b, |b|)
  {
  }

  lemma FinishKeeps(cfg: Config, c: Channel, now: nat, warmup: bool, d: Channel)
    requires ChannelInv(cfg, c, now, warmup) && CheckedBelow(c.rq, |c.rq|) && CheckedBelow(c.wq, |c.wq|)
    requires d == FinishRequest(c, now)
    ensures ChannelInv(cfg, d, now, warmup) && CheckedBelow(d.rq, |d.rq|) && CheckedBelow(d.wq, |d.wq|)
  {
    FinishPointers(cfg, c, now);
    RescheduledKeeps(cfg, c.rq, d.rq, now);
    RescheduledKeeps(cfg, c.wq, d.wq, now);
  }

  lemma UnscheduleKeepsQueues(cfg: Config, c: Channel, k: nat, now: nat, d: Channel)
    requires PointerInv(cfg, c) && QueueInv(cfg, c.rq, now) && QueueInv(cfg, c.wq, now) && k < |c.banks|
    requires CheckedBelow(c.rq, |c.rq|) && CheckedBelow(c.wq, |c.wq|) && d == Unschedule(cfg, c, k, now)
    ensures QueueInv(cfg, d.rq, now) && QueueInv(cfg, d.wq, now) && CheckedBelow(d.rq, |d.rq|)
    ensures CheckedBelow(d.wq, |d.wq|)
  {
    hide QueueInv, CheckedBelow;
    UnscheduleReschedules(cfg, c, k, now, d);
    RescheduledKeeps(cfg, c.rq, d.rq, now);
    RescheduledKeeps(cfg, c.wq, d.wq, now);
  }

  lemma UnscheduleReschedules(cfg: Config, c: Channel, k: nat, now: nat, d: Channel)
    requires k < |c.banks| && d == Unschedule(cfg, c, k, now)
    ensures Rescheduled(c.rq, d.rq, now) && Rescheduled(c.wq, d.wq, now)
  {
  }

  lemma {:induction false} UnscheduleAllKeepsQueues(cfg: Config, c: Channel, k: nat, now: nat, d: Channel)
    requires PointerInv(cfg, c) && QueueInv(cfg, c.rq, now) && QueueInv(cfg, c.wq, now) && k <= |c.banks|
    requires CheckedBelow(c.rq, |c.rq|) && CheckedBelow(c.wq, |c.wq|) && d == UnscheduleAll(cfg, c, k, now)
    ensures QueueInv(cfg, d.rq, now) && QueueInv(cfg, d.wq, now) && CheckedBelow(d.rq, |d.rq|)
    ensures CheckedBelow(d.wq, |d.wq|)
    decreases |c.banks| - k
  {
    if k == |c.banks| {
    } else {
      hide Unschedule;
      var next := Unschedule(cfg, c, k, now);
      UnschedulePointers(cfg, c, k, now);
      UnscheduleKeepsQueues(cfg, c, k, now, next);
      UnscheduleAllKeepsQueues(cfg, next, k + 1, now, d);
    }
  }

  lemma {:induction false} UnscheduleAllInvalid(cfg: Config, c: Channel, k: nat, now: nat)
    requires k <= |c.banks|
    ensures forall i :: 0 <= i < |c.banks| && !c.banks[i].valid ==> !UnscheduleAll(cfg, c, k, now).banks[i].valid
    decreases |c.banks| - k
  {
    if k == |c.banks| {
    } else {
      UnscheduleAllInvalid(cfg, Unschedule(cfg, c, k, now), k + 1, now);
    }
  }

  lemma SwitchKeeps(cfg: Config, c: Channel, now: nat, warmup: bool, d: Channel)
    requires ChannelInv(cfg, c, now, warmup) && CheckedBelow(c.rq, |c.rq|) && CheckedBelow(c.wq, |c.wq|)
    requires d == SwitchMode(cfg, c, now)
    ensures ChannelInv(cfg, d, now, warmup) && CheckedBelow(d.rq, |d.rq|) && CheckedBelow(d.wq, |d.wq|)
  {
    SwitchPointers(cfg, c, now, d);
    UnscheduleAllKeepsQueues(cfg, c, 0, now, UnscheduleAll(cfg, c, 0, now));
    UnscheduleAllInvalid(cfg, c, 0, now);
  }

  lemma UseBusKeeps(cfg: Config, c: Channel, now: nat, warmup: bool, d: Channel)
    requires ChannelInv(cfg, c, now, warmup) && d == UseBus(cfg, c, now)
    ensures ChannelInv(cfg, d, now, warmup) && d.rq == c.rq && d.wq == c.wq
  {
    UseBusPointers(cfg, c, now);
  }

  lemma ScheduleKeeps(cfg: Config, c: Channel, now: nat, warmup: bool, d: Channel)
    requires ChannelInv(cfg, c, now, warmup) && CheckedBelow(c.rq, |c.rq|) && CheckedBelow(c.wq, |c.wq|) && now < NEVER
    requires warmup ==> forall k :: 0 <= k < |c.Q(c.writeMode)| ==> c.Q(c.writeMode)[k].None?
    requires d == ScheduleRequest(cfg, c, now)
    ensures ChannelInv(cfg, d, now, warmup)
  {
    SchedulePointers(cfg, c, now);
    RescheduledKeeps(cfg, c.rq, d.rq, now);
    RescheduledKeeps(cfg, c.wq, d.wq, now);
  }

  // ---- One call ----

  /** The channel as it enters the mode decision of a call. */
  function BeforeSwitch(cfg: Config, c: Channel, now: nat, warmup: bool): Channel
    requires cfg.blockSize > 0
  {
    FinishRequest(CheckCollision(cfg, if warmup then Drain(c) else c), now)
  }

  lemma DrainKeeps(cfg: Config, c: Channel, now: nat)
    requires ChannelInv(cfg, c, now, true)
    ensures ChannelInv(cfg, Drain(c), now, true)
    ensures forall write: bool, k :: 0 <= k < |Drain(c).Q(write)| ==> Drain(c).Q(write)[k].None?
  {
    var d := Drain(c);
    DrainReadsServe(cfg, c.rq, c.out, 0, DrainReads(c.rq, c.out, 0));
    forall i ensures BankLinked(cfg, d, i) { }
    forall write: bool, k ensures EntryLinked(cfg, d, write, k) { }
  }

  lemma BeforeSwitchKeeps(cfg: Config, c: Channel, now: nat, warmup: bool, d: Channel)
    requires ChannelInv(cfg, c, now, warmup) && d == BeforeSwitch(cfg, c, now, warmup)
    ensures ChannelInv(cfg, d, now, warmup) && CheckedBelow(d.rq, |d.rq|) && CheckedBelow(d.wq, |d.wq|)
    ensures d.active.Some? ==> d.banks[d.active.value].event > now
    ensures warmup ==> forall k :: 0 <= k < |d.rq| ==> d.rq[k].None?
    ensures warmup ==> forall k :: 0 <= k < |d.wq| ==> d.wq[k].None?
  {
    var c0 := if warmup then Drain(c) else c;
    if warmup { DrainKeeps(cfg, c, now); }
    var c1 := CheckCollision(cfg, c0);
    CollisionKeeps(cfg, c0, now, warmup, c1);
    CheckWritesFill(cfg, c0.wq, 0, c1.wq);
    CheckReadsFill(cfg, c0.rq, c1.wq, c0.out, 0, c1.rq);
    if warmup {
      forall k | 0 <= k < |c1.rq| ensures c1.rq[k].None? { assert c0.Q(false)[k].None?; }
      forall k | 0 <= k < |c1.wq| ensures c1.wq[k].None? { assert c0.Q(true)[k].None?; }
    }
    hide CheckCollision; hide Drain;
    FinishKeeps(cfg, c1, now, warmup, d);
    FinishPointers(cfg, c1, now);
  }

  lemma OperateKeeps(cfg: Config, c: Channel, now: nat, warmup: bool, d: Channel)
    requires ChannelInv(cfg, c, now, warmup) && now < NEVER && d == Operate(cfg, c, now, warmup)
    ensures ChannelInv(cfg, d, now, warmup)
  {
    var c1 := BeforeSwitch(cfg, c, now, warmup);
    BeforeSwitchKeeps(cfg, c, now, warmup, c1);
    hide BeforeSwitch; hide CheckCollision; hide FinishRequest; hide Drain;
    var c2 := SwitchMode(cfg, c1, now);
    SwitchKeeps(cfg, c1, now, warmup, c2);
    if warmup { UnscheduleAllFills(cfg, c1, 0, now); }
    hide SwitchMode; hide UseBus; hide ScheduleRequest;
    var c3 := UseBus(cfg, c2, now);
    UseBusKeeps(cfg, c2, now, warmup, c3);
    assert d == ScheduleRequest(cfg, c3, now);
    ScheduleKeeps(cfg, c3, now, warmup, d);
  }

  lemma {:induction false} UnscheduleAllFills(cfg: Config, c: Channel, k: nat, now: nat)
    requires k <= |c.banks|
    ensures var d := UnscheduleAll(cfg, c, k, now); Fills(c.rq, d.rq) && Fills(c.wq, d.wq)
    decreases |c.banks| - k
  {
    if k == |c.banks| {
    } else {
      var next := Unschedule(cfg, c, k, now);
      assert Fills(c.rq, next.rq) && Fills(c.wq, next.wq);
      UnscheduleAllFills(cfg, next, k + 1, now);
    }
  }

  // ---- The data bus ----

  /** The last transfer: when it ends, and whether it is a write. */
  datatype Bus = Bus(lastEnd: nat, lastWrite: bool)

  ghost predicate BusInv(cfg: Config, c: Channel, now: nat, bus: Bus)
    requires PointerInv(cfg, c)
  {
    && (c.active.Some? ==> bus == Bus(c.banks[c.active.value].event, c.banks[c.active.value].pkt.write))
    && (c.active.None? ==> bus.lastEnd <= now)
    && (c.writeMode != bus.lastWrite ==> c.busFree >= bus.lastEnd + cfg.turnAround)
  }

  /** The channel as the call looks for a request to put on the bus. */
  function BeforeBus(cfg: Config, c: Channel, now: nat, warmup: bool): Channel
    requires cfg.blockSize > 0
  {
    SwitchMode(cfg, BeforeSwitch(cfg, c, now, warmup), now)
  }

  ghost predicate Starts(cfg: Config, c: Channel, now: nat)
    requires PointerInv(cfg, c)
  {
    UseBus(cfg, c, now).active != c.active
  }

  lemma CheckAndDrainBus(cfg: Config, c: Channel, now: nat, warmup: bool, bus: Bus)
    requires ChannelInv(cfg, c, now, warmup) && BusInv(cfg, c, now, bus)
    ensures ChannelInv(cfg, BeforeSwitch(cfg, c, now, warmup), now, warmup)
    ensures BusInv(cfg, BeforeSwitch(cfg, c, now, warmup), now, bus)
  {
    var d := BeforeSwitch(cfg, c, now, warmup);
    BeforeSwitchKeeps(cfg, c, now, warmup, d);
    var c1 := CheckCollision(cfg, if warmup then Drain(c) else c);
    assert c1.banks == c.banks && c1.active == c.active && c1.writeMode == c.writeMode && c1.busFree == c.busFree;
    if warmup { DrainKeeps(cfg, c, now); }
    CheckCollisionPointers(cfg, if warmup then Drain(c) else c);
    FinishPointers(cfg, c1, now);
  }

  lemma BeforeBusInv(cfg: Config, c: Channel, now: nat, warmup: bool, bus: Bus, d: Channel)
    requires ChannelInv(cfg, c, now, warmup) && BusInv(cfg, c, now, bus) && d == BeforeBus(cfg, c, now, warmup)
    ensures ChannelInv(cfg, d, now, warmup) && BusInv(cfg, d, now, bus)
    ensures CheckedBelow(d.rq, |d.rq|) && CheckedBelow(d.wq, |d.wq|)
    ensures d.active.Some? ==> d.banks[d.active.value].event > now
  {
    var c1 := BeforeSwitch(cfg, c, now, warmup);
    BeforeSwitchKeeps(cfg, c, now, warmup, c1);
    CheckAndDrainBus(cfg, c, now, warmup, bus);
    hide BeforeSwitch;
    SwitchKeeps(cfg, c1, now, warmup, d);
    SwitchPointers(cfg, c1, now, d);
  }

  /** Transfers never overlap, one in the other direction waits out the turn-around
      however often the mode flipped in between, and it serves the current mode. */
  lemma TransferRespectsTurnAround(cfg: Config, c: Channel, now: nat, warmup: bool, bus: Bus)
    requires ChannelInv(cfg, c, now, warmup) && BusInv(cfg, c, now, bus)
    ensures var d := BeforeBus(cfg, c, now, warmup);
      PointerInv(cfg, d) && (Starts(cfg, d, now) ==>
        var i := UseBus(cfg, d, now).active;
        && d.active.None? && i.Some? && i.value < |d.banks|
        && d.banks[i.value].valid && d.banks[i.value].event <= now && d.banks[i.value].pkt.write == d.writeMode
        && now >= bus.lastEnd
        && (d.writeMode != bus.lastWrite ==> now >= bus.lastEnd + cfg.turnAround))
  {
    var d := BeforeBus(cfg, c, now, warmup);
    BeforeBusInv(cfg, c, now, warmup, bus, d);
    hide BeforeBus;
    var i := Scan(d.banks, IsValidBank(), BankUrgency());
    assert BankLinked(cfg, d, i);
  }

  /** The request put on the bus is the valid one that became ready first. */
  lemma BusTakesMostUrgent(cfg: Config, c: Channel, now: nat)
    requires PointerInv(cfg, c) && Starts(cfg, c, now)
    ensures var i := UseBus(cfg, c, now).active.value;
      forall j :: 0 <= j < |c.banks| && c.banks[j].valid ==> c.banks[i].event <= c.banks[j].event
  {
    ScanSelects(c.banks, IsValidBank(), BankUrgency());
    forall j | 0 <= j < |c.banks|
      ensures IsValidBank()(c.banks[j]) == c.banks[j].valid && BankUrgency()(c.banks[j]) == 0 - c.banks[j].event
    {
    }
  }

  /** The congestion statistic grows, exactly when a bank is ready and the bus is taken, by
      the cycles until the bus is free again, and that difference is never negative. */
  lemma CongestionNeverUnderflows(cfg: Config, c: Channel, now: nat, warmup: bool, bus: Bus)
    requires ChannelInv(cfg, c, now, warmup) && BusInv(cfg, c, now, bus)
    ensures PointerInv(cfg, BeforeBus(cfg, c, now, warmup))
    ensures
      var d := BeforeBus(cfg, c, now, warmup);
      var free := if d.active.Some? then d.banks[d.active.value].event else d.busFree;
      var ready := exists i :: 0 <= i < |d.banks| && d.banks[i].valid && d.banks[i].event <= now;
      var counts := ready && (d.active.Some? || free > now);
      && (counts ==> free > now)
      && UseBus(cfg, d, now).congestion == d.congestion + if counts then free - now else 0
  {
    BeforeBusInv(cfg, c, now, warmup, bus, BeforeBus(cfg, c, now, warmup));
    hide BeforeBus;
    var d := BeforeBus(cfg, c, now, warmup);
    ScanSelects(d.banks, IsValidBank(), BankUrgency());
    forall j | 0 <= j < |d.banks|
      ensures IsValidBank()(d.banks[j]) == d.banks[j].valid && BankUrgency()(d.banks[j]) == 0 - d.banks[j].event
    {
    }
  }

  function NextBus(cfg: Config, c: Channel, now: nat, warmup: bool, bus: Bus): Bus
    requires cfg.Valid() && Shaped(cfg, c)
  {
    OperateShape(cfg, c, now, warmup);
    var d := BeforeBus(cfg, c, now, warmup);
    if UseBus(cfg, d, now).active != d.active then Bus(now + cfg.returnTime, d.writeMode) else bus
  }

  lemma UseBusTransfer(cfg: Config, c: Channel, now: nat, bus: Bus, bus': Bus, d: Channel)
    requires PointerInv(cfg, c) && BusInv(cfg, c, now, bus) && d == UseBus(cfg, c, now) && PointerInv(cfg, d)
    requires bus' == if d.active != c.active then Bus(now + cfg.returnTime, c.writeMode) else bus
    ensures BusInv(cfg, d, now, bus')
  {
    var i := Scan(c.banks, IsValidBank(), BankUrgency());
    assert BankLinked(cfg, c, i);
  }

  lemma ScheduleKeepsBus(cfg: Config, c: Channel, now: nat, bus: Bus, d: Channel)
    requires cfg.Valid() && PointerInv(cfg, c) && BusInv(cfg, c, now, bus) && d == ScheduleRequest(cfg, c, now)
    requires PointerInv(cfg, d)
    ensures BusInv(cfg, d, now, bus)
  {
  }

  lemma OperateBus(cfg: Config, c: Channel, now: nat, warmup: bool, bus: Bus, d: Channel)
    requires ChannelInv(cfg, c, now, warmup) && BusInv(cfg, c, now, bus) && now < NEVER
    requires d == Operate(cfg, c, now, warmup)
    ensures PointerInv(cfg, d) && BusInv(cfg, d, now, NextBus(cfg, c, now, warmup, bus))
  {
    hide QueueInv, CheckedBelow, BusInv, UseBus, ScheduleRequest;
    OperateKeeps(cfg, c, now, warmup, d);
    var c2 := BeforeBus(cfg, c, now, warmup);
    BeforeBusInv(cfg, c, now, warmup, bus, c2);
    var c3 := UseBus(cfg, c2, now);
    UseBusKeeps(cfg, c2, now, warmup, c3);
    UseBusTransfer(cfg, c2, now, bus, NextBus(cfg, c, now, warmup, bus), c3);
    ScheduleKeepsBus(cfg, c3, now, NextBus(cfg, c, now, warmup, bus), d);
  }

  // ---- No idle stall ----

  ghost predicate HasWork(c: Channel) {
    exists write: bool, k :: 0 <= k < |c.Q(write)| && c.Q(write)[k].Some?
  }

  ghost predicate HasBusyBank(c: Channel) {
    exists i :: 0 <= i < |c.banks| && c.banks[i].valid
  }

  lemma OccupancyPositive(q: Queue)
    ensures Occupancy(q) > 0 <==> exists k :: 0 <= k < |q| && q[k].Some?
  {
    if exists k :: 0 <= k < |q| && q[k].Some? {
      var k :| 0 <= k < |q| && q[k].Some?;
      TallyPositive(q, k, Occupied());
    } else {
      TallyZero(q, Occupied());
    }
  }

  lemma {:induction false} UnscheduleAllOccupancy(cfg: Config, c: Channel, k: nat, now: nat)
    requires k <= |c.banks|
    ensures var d := UnscheduleAll(cfg, c, k, now);
      && |d.rq| == |c.rq| && |d.wq| == |c.wq|
      && (forall j :: 0 <= j < |c.rq| ==> (d.rq[j].Some? <==> c.rq[j].Some?))
      && (forall j :: 0 <= j < |c.wq| ==> (d.wq[j].Some? <==> c.wq[j].Some?))
    decreases |c.banks| - k
  {
    if k == |c.banks| {
    } else {
      var next := Unschedule(cfg, c, k, now);
      assert forall j :: 0 <= j < |c.rq| ==> (next.rq[j].Some? <==> c.rq[j].Some?);
      assert forall j :: 0 <= j < |c.wq| ==> (next.wq[j].Some? <==> c.wq[j].Some?);
      UnscheduleAllOccupancy(cfg, next, k + 1, now);
    }
  }

  /** After the mode decision, a channel with work has work in its current mode, unless
      it flipped to a write queue that is empty (a high mark of zero). */
  lemma ModeHasWork(cfg: Config, c: Channel, now: nat, d: Channel)
    requires d == SwitchMode(cfg, c, now) && HasWork(d) && (cfg.HighMark() > 0 || d.writeMode == c.writeMode)
    ensures exists k :: 0 <= k < |d.Q(d.writeMode)| && d.Q(d.writeMode)[k].Some?
  {
    UnscheduleAllOccupancy(cfg, c, 0, now);
    OccupancyPositive(c.rq);
    OccupancyPositive(c.wq);
    var write: bool, k :| 0 <= k < |d.Q(write)| && d.Q(write)[k].Some?;
    if d.writeMode {
      if !write { assert c.rq[k].Some?; } else { assert c.wq[k].Some?; }
      assert exists j :: 0 <= j < |c.wq| && c.wq[j].Some?;
      var j :| 0 <= j < |c.wq| && c.wq[j].Some?;
      assert d.Q(d.writeMode)[j].Some?;
    } else {
      if !write { assert c.rq[k].Some?; } else { assert c.wq[k].Some?; }
      assert exists j :: 0 <= j < |c.rq| && c.rq[j].Some?;
      var j :| 0 <= j < |c.rq| && c.rq[j].Some?;
      assert d.Q(d.writeMode)[j].Some?;
    }
  }

  /** With work in the current mode and every bank free, an entry is scheduled. */
  lemma FreeBanksSchedule(cfg: Config, c: Channel, now: nat)
    requires ChannelInv(cfg, c, now, false) && now < NEVER && !HasBusyBank(c)
    requires exists k :: 0 <= k < |c.Q(c.writeMode)| && c.Q(c.writeMode)[k].Some?
    ensures HasBusyBank(ScheduleRequest(cfg, c, now))
  {
    var q := c.Q(c.writeMode);
    forall k | 0 <= k < |q| && q[k].Some? ensures Unscheduled()(q[k]) {
      assert EntryLinked(cfg, c, c.writeMode, k);
    }
    ScanSelects(q, Unscheduled(), RequestAge());
    var n := Scan(q, Unscheduled(), RequestAge());
    var k :| 0 <= k < |q| && q[k].Some?;
    assert Unscheduled()(q[k]);
    assert Unscheduled()(q[n]) && q[n].Some? && !q[n].value.scheduled;
    var i := OpIndex(cfg, q[n].value.address);
    assert ScheduleRequest(cfg, c, now).banks[i].valid;
  }

  /** Outside warm-up, a call that leaves work behind leaves a busy bank or flipped the
      mode; and if the high mark is above zero, it always leaves a busy bank. */
  lemma NeverIdle(cfg: Config, c: Channel, now: nat, d: Channel)
    requires ChannelInv(cfg, c, now, false) && now < NEVER && d == Operate(cfg, c, now, false) && HasWork(d)
    ensures HasBusyBank(d) || d.writeMode != c.writeMode
    ensures cfg.HighMark() > 0 ==> HasBusyBank(d)
  {
    var c1 := BeforeSwitch(cfg, c, now, false);
    BeforeSwitchKeeps(cfg, c, now, false, c1);
    assert c1.writeMode == c.writeMode;
    var c2 := SwitchMode(cfg, c1, now);
    SwitchKeeps(cfg, c1, now, false, c2);
    hide BeforeSwitch; hide CheckCollision; hide FinishRequest;
    LateStagesIdle(cfg, c1, now, c2, d);
  }

  lemma LateStagesIdle(cfg: Config, c1: Channel, now: nat, c2: Channel, d: Channel)
    requires ChannelInv(cfg, c2, now, false) && now < NEVER && c2 == SwitchMode(cfg, c1, now)
    requires d == ScheduleRequest(cfg, UseBus(cfg, c2, now), now) && HasWork(d)
    ensures HasBusyBank(d) || c2.writeMode != c1.writeMode
    ensures cfg.HighMark() > 0 ==> HasBusyBank(d)
    ensures d.writeMode == c2.writeMode
  {
    hide SwitchMode;
    var c3 := UseBus(cfg, c2, now);
    UseBusKeeps(cfg, c2, now, false, c3);
    if HasBusyBank(c2) {
      var i :| 0 <= i < |c2.banks| && c2.banks[i].valid;
      assert c3.banks[i].valid && d.banks[i].valid;
    } else {
      forall i | 0 <= i < |c3.banks| ensures !c3.banks[i].valid { assert !c2.banks[i].valid; }
      var write: bool, k :| 0 <= k < |d.Q(write)| && d.Q(write)[k].Some?;
      assert c2.Q(write)[k].Some?;
      if cfg.HighMark() > 0 || c2.writeMode == c1.writeMode {
        ModeHasWork(cfg, c1, now, c2);
        assert c3.Q(c3.writeMode) == c2.Q(c2.writeMode);
        FreeBanksSchedule(cfg, c3, now);
      }
    }
  }

  // ---- Runs ----

  /** A call at cycle `now`: the requests offered to the channel, oldest first, before it. */
  datatype Call = Call(now: nat, readRequests: seq<Request>, writeRequests: seq<Request>, endsWarmup: bool)

  datatype State = State(c: Channel, now: nat, warmup: bool, bus: Bus)

  /** Requests are taken in order until the queue refuses one. */
  function AddAll(q: Queue, rs: seq<Request>, now: nat): (q': Queue)
    ensures |q'| == |q|
    decreases |rs|
  {
    if rs == [] then q
    else
      var r := AddTo(q, rs[0], now);
      if r.1 then AddAll(r.0, rs[1..], now) else q
  }

  function Reset(cfg: Config): State
    requires cfg.Valid()
  {
    State(Channel(seq(cfg.rqSize, _ => None), seq(cfg.wqSize, _ => None),
                  seq(cfg.ranks * cfg.banks, _ => Bank(false, false, NO_ROW, 0, Slot(false, 0))), None,
                      false, 0, 0, []),
          0, true, Bus(0, false))
  }

  ghost predicate StateInv(cfg: Config, s: State) {
    && ChannelInv(cfg, s.c, s.now, s.warmup) && BusInv(cfg, s.c, s.now, s.bus)
  }

  function Loaded(s: State, call: Call): Channel {
    s.c.(rq := AddAll(s.c.rq, call.readRequests, call.now), wq := AddAll(s.c.wq, call.writeRequests, call.now))
  }

  ghost predicate ValidCall(s: State, call: Call) {
    && s.now <= call.now < NEVER
    && (forall i :: 0 <= i < |call.readRequests| ==>
          Sorted(call.readRequests[i].deps) && Sorted(call.readRequests[i].toReturn))
    && (forall i :: 0 <= i < |call.writeRequests| ==>
          Sorted(call.writeRequests[i].deps) && Sorted(call.writeRequests[i].toReturn))
  }

  lemma {:induction false} AddAllKeeps(cfg: Config, q: Queue, rs: seq<Request>, now: nat, d: Queue)
    requires cfg.blockSize > 0 && QueueInv(cfg, q, now) && d == AddAll(q, rs, now)
    requires forall i :: 0 <= i < |rs| ==> Sorted(rs[i].deps) && Sorted(rs[i].toReturn)
    ensures QueueInv(cfg, d, now) && SameScheduled(q, d)
    ensures forall out: seq<Response> :: Serves(cfg, q, out, d, out)
    decreases |rs|
  {
    if rs == [] {
      forall out: seq<Response> ensures Serves(cfg, q, out, d, out) { SameWaiters(cfg, q, q, out); }
    } else {
      var r := AddTo(q, rs[0], now);
      var k := First(q, Empty());
      assert k < |q| ==> Empty()(q[k]);
      if r.1 {
        AddAllKeeps(cfg, r.0, rs[1..], now, d);
        SameScheduledTrans(q, r.0, d);
      }
      forall out: seq<Response> ensures Serves(cfg, q, out, d, out) {
        SameWaiters(cfg, q, r.0, out);
        if r.1 { ServesTrans(cfg, q, out, r.0, out, d, out); } else { SameWaiters(cfg, q, q, out); }
      }
    }
  }

  lemma LaterKeeps(cfg: Config, s: State, now: nat, endsWarmup: bool)
    requires StateInv(cfg, s) && s.now <= now
    ensures ChannelInv(cfg, s.c, now, s.warmup && !endsWarmup) && BusInv(cfg, s.c, now, s.bus)
  {
  }

  lemma LoadedKeeps(cfg: Config, s: State, call: Call, c: Channel)
    requires StateInv(cfg, s) && ValidCall(s, call) && c == Loaded(s, call)
    ensures ChannelInv(cfg, c, call.now, s.warmup && !call.endsWarmup) && BusInv(cfg, c, call.now, s.bus)
    ensures Serves(cfg, s.c.rq, s.c.out, c.rq, c.out)
  {
    LaterKeeps(cfg, s, call.now, call.endsWarmup);
    AddAllKeeps(cfg, s.c.rq, call.readRequests, call.now, c.rq);
    AddAllKeeps(cfg, s.c.wq, call.writeRequests, call.now, c.wq);
    SameScheduledKeeps(cfg, s.c, c);
    assert Serves(cfg, s.c.rq, s.c.out, c.rq, s.c.out);
  }

  function Next(cfg: Config, s: State, call: Call): (s': State)
    requires cfg.Valid() && Shaped(cfg, s.c)
    ensures Shaped(cfg, s'.c)
  {
    var warmup := s.warmup && !call.endsWarmup;
    State(Operate(cfg, Loaded(s, call), call.now, warmup), call.now, warmup,
          NextBus(cfg, Loaded(s, call), call.now, warmup, s.bus))
  }

  lemma NextKeeps(cfg: Config, s: State, call: Call, s': State)
    requires StateInv(cfg, s) && ValidCall(s, call) && s' == Next(cfg, s, call)
    ensures StateInv(cfg, s') && Serves(cfg, s.c.rq, s.c.out, s'.c.rq, s'.c.out)
  {
    var c, warmup := Loaded(s, call), s.warmup && !call.endsWarmup;
    LoadedKeeps(cfg, s, call, c);
    hide Loaded; hide Operate; hide NextBus;
    OperateKeeps(cfg, c, call.now, warmup, s'.c);
    OperateBus(cfg, c, call.now, warmup, s.bus, s'.c);
    OperateServes(cfg, c, call.now, warmup, s'.c);
    ServesTrans(cfg, s.c.rq, s.c.out, c.rq, c.out, s'.c.rq, s'.c.out);
  }

  lemma ResetInv(cfg: Config)
    requires cfg.Valid()
    ensures StateInv(cfg, Reset(cfg))
  {
  }

  function Run(cfg: Config, s: State, calls: seq<Call>): (s': State)
    requires cfg.Valid() && Shaped(cfg, s.c)
    ensures Shaped(cfg, s'.c)
    decreases |calls|
  {
    if calls == [] then s else Run(cfg, Next(cfg, s, calls[0]), calls[1..])
  }

  /** The environment's side of a run: cycles never go back. */
  ghost predicate ValidRun(cfg: Config, s: State, calls: seq<Call>)
    requires cfg.Valid() && Shaped(cfg, s.c)
    decreases |calls|
  {
    calls != [] ==> ValidCall(s, calls[0]) && ValidRun(cfg, Next(cfg, s, calls[0]), calls[1..])
  }

  /** A reader once queued is never forgotten: any number of calls later it still waits,
      or was answered in between. */
  lemma {:induction false} RunServes(cfg: Config, s: State, calls: seq<Call>, d: State)
    requires StateInv(cfg, s) && ValidRun(cfg, s, calls) && d == Run(cfg, s, calls)
    ensures StateInv(cfg, d) && Serves(cfg, s.c.rq, s.c.out, d.c.rq, d.c.out)
    decreases |calls|
  {
    if calls == [] {
      SameWaiters(cfg, s.c.rq, s.c.rq, s.c.out);
    } else {
      hide Next;
      var next := Next(cfg, s, calls[0]);
      NextKeeps(cfg, s, calls[0], next);
      RunServes(cfg, next, calls[1..], d);
      ServesTrans(cfg, s.c.rq, s.c.out, next.c.rq, next.c.out, d.c.rq, d.c.out);
    }
  }

  /** Pointer consistency over every run: scheduled means pointed at, once, by the bank
      the address decodes to, and from the queue of the current mode unless on the bus. */
  lemma EveryRunIsConsistent(cfg: Config, calls: seq<Call>, d: State, write: bool, k: nat)
    requires cfg.Valid() && ValidRun(cfg, Reset(cfg), calls) && d == Run(cfg, Reset(cfg), calls)
    requires k < |d.c.Q(write)| && d.c.Q(write)[k].Some?
    ensures var c := d.c;
      && (c.Q(write)[k].value.scheduled <==>
            exists i :: 0 <= i < |c.banks| && c.banks[i].valid && c.banks[i].pkt == Slot(write, k))
      && (forall i :: 0 <= i < |c.banks| && c.banks[i].valid && c.banks[i].pkt == Slot(write, k) ==>
            i == OpIndex(cfg, c.Q(write)[k].value.address) && (c.active != Some(i) ==> write == c.writeMode))
  {
    ResetInv(cfg);
    RunServes(cfg, Reset(cfg), calls, d);
    ScheduledIffPointedAt(cfg, d.c, write, k);
    forall i | 0 <= i < |d.c.banks| && d.c.banks[i].valid && d.c.banks[i].pkt == Slot(write, k)
      ensures d.c.active != Some(i) ==> write == d.c.writeMode
    {
      assert BankLinked(cfg, d.c, i);
    }
  }

  /** Bus timing over every run: see TransferRespectsTurnAround, in any reachable state. */
  lemma EveryRunRespectsTheBus(cfg: Config, calls: seq<Call>, s: State, call: Call)
    requires cfg.Valid() && ValidRun(cfg, Reset(cfg), calls) && s == Run(cfg, Reset(cfg), calls) && ValidCall(s, call)
    ensures var d := BeforeBus(cfg, Loaded(s, call), call.now, s.warmup && !call.endsWarmup);
      PointerInv(cfg, d) && (Starts(cfg, d, call.now) ==>
        && call.now >= s.bus.lastEnd
        && (d.writeMode != s.bus.lastWrite ==> call.now >= s.bus.lastEnd + cfg.turnAround))
  {
    ResetInv(cfg);
    RunServes(cfg, Reset(cfg), calls, s);
    LoadedKeeps(cfg, s, call, Loaded(s, call));
    TransferRespectsTurnAround(cfg, Loaded(s, call), call.now, s.warmup && !call.endsWarmup, s.bus);
  }
}
