/** A write queue of one slot: its high mark is zero, and no read ever gets the bus. */
module DramStarvation {
  import opened Options
  import opened Scans
  import opened DramState
  import opened DramPointers
  import opened DramQueues
  import opened DramRuns

  // ---- The failing configuration ----

  /** In read mode the mode decision always flips to writes, and a flip to reads leaves no
      bank ready, so whatever starts is a write. */
  lemma OneSlotStartsWrites(cfg: Config, c: Channel, now: nat, warmup: bool, bus: Bus)
    requires ChannelInv(cfg, c, now, warmup) && BusInv(cfg, c, now, bus) && cfg.wqSize == 1
    ensures var d := BeforeBus(cfg, c, now, warmup); PointerInv(cfg, d) && (Starts(cfg, d, now) ==> d.writeMode)
  {
    var c1, d := BeforeSwitch(cfg, c, now, warmup), BeforeBus(cfg, c, now, warmup);
    CheckAndDrainBus(cfg, c, now, warmup, bus);
    hide BeforeSwitch;
    SwitchPointers(cfg, c1, now, d);
    if !d.writeMode {
      assert d.writeMode != c1.writeMode;
      NothingStarts(cfg, d, now);
    }
  }

  lemma NothingStarts(cfg: Config, c: Channel, now: nat)
    requires PointerInv(cfg, c) && forall j :: 0 <= j < |c.banks| && c.active != Some(j) ==> !c.banks[j].valid
    ensures !Starts(cfg, c, now)
  {
    ScanSelects(c.banks, IsValidBank(), BankUrgency());
  }

  /** Over every run: with one write slot no transfer that starts is a read. */
  lemma EveryRunStartsWrites(cfg: Config, calls: seq<Call>, s: State, call: Call)
    requires cfg.Valid() && cfg.wqSize == 1
    requires ValidRun(cfg, Reset(cfg), calls) && s == Run(cfg, Reset(cfg), calls) && ValidCall(s, call)
    ensures
      var d := BeforeBus(cfg, Loaded(s, call), call.now, s.warmup && !call.endsWarmup);
      PointerInv(cfg, d) && (Starts(cfg, d, call.now) ==> d.writeMode)
  {
    ResetInv(cfg);
    RunServes(cfg, Reset(cfg), calls, s);
    LoadedKeeps(cfg, s, call, Loaded(s, call));
    OneSlotStartsWrites(cfg, Loaded(s, call), call.now, s.warmup && !call.endsWarmup, s.bus);
  }

  /** No write is queued, and nothing is on the bus. */
  ghost predicate NoWrites(c: Channel) {
    c.active.None? && forall k :: 0 <= k < |c.wq| ==> c.wq[k].None?
  }

  lemma {:induction false} NoWritesToCheck(cfg: Config, wq: Queue, k: nat)
    requires cfg.blockSize > 0 && k <= |wq| && forall i :: 0 <= i < |wq| ==> wq[i].None?
    ensures CheckWrites(cfg, wq, k) == wq
    decreases |wq| - k
  {
    if k == |wq| {
    } else {
      NoWritesToCheck(cfg, wq, k + 1);
    }
  }

  lemma {:induction false} NothingForwards(cfg: Config, rq: Queue, wq: Queue, out: seq<Response>, k: nat)
    requires cfg.blockSize > 0 && k <= |rq| && forall i :: 0 <= i < |wq| ==> wq[i].None?
    ensures CheckReads(cfg, rq, wq, out, k).1 == out
    decreases |rq| - k
  {
    if k == |rq| {
    } else {
      var next := CheckRead(cfg, rq, wq, out, k);
      assert next.1 == out;
      hide CheckRead;
      NothingForwards(cfg, next.0, wq, next.1, k + 1);
    }
  }

  /** Without writes every call flips the mode and answers nobody; a flip to the empty
      write queue leaves every bank idle. */
  lemma FlipsAndAnswersNobody(cfg: Config, c: Channel, now: nat, d: Channel)
    requires ChannelInv(cfg, c, now, false) && cfg.wqSize == 1 && NoWrites(c) && d == Operate(cfg, c, now, false)
    ensures NoWrites(d) && d.out == c.out && d.writeMode != c.writeMode
    ensures d.writeMode ==> !HasBusyBank(d)
  {
    var c1 := CheckCollision(cfg, c);
    NoWritesToCheck(cfg, c.wq, 0);
    NothingForwards(cfg, c.rq, c.wq, c.out, 0);
    CheckCollisionPointers(cfg, c);
    assert NoWrites(c1) && c1.out == c.out && c1.writeMode == c.writeMode && FinishRequest(c1, now) == c1;
    hide CheckCollision;
    var c2 := SwitchMode(cfg, c1, now);
    OccupancyPositive(c1.wq);
    assert Unbalanced(cfg, c1);
    SwitchPointers(cfg, c1, now, c2);
    UnscheduleAllOccupancy(cfg, c1, 0, now);
    UnscheduleAllAnswersNobody(cfg, c1, 0, now);
    assert NoWrites(c2) && c2.out == c.out;
    hide SwitchMode;
    NothingStarts(cfg, c2, now);
    IdleStages(cfg, c2, now, d);
  }

  lemma {:induction false} UnscheduleAllAnswersNobody(cfg: Config, c: Channel, k: nat, now: nat)
    requires k <= |c.banks|
    ensures UnscheduleAll(cfg, c, k, now).out == c.out
    decreases |c.banks| - k
  {
    if k == |c.banks| {
    } else {
      UnscheduleAllAnswersNobody(cfg, Unschedule(cfg, c, k, now), k + 1, now);
    }
  }

  lemma IdleStages(cfg: Config, c: Channel, now: nat, d: Channel)
    requires PointerInv(cfg, c) && NoWrites(c) && (forall j :: 0 <= j < |c.banks| ==> !c.banks[j].valid)
    requires d == ScheduleRequest(cfg, UseBus(cfg, c, now), now)
    ensures NoWrites(d) && d.out == c.out && d.writeMode == c.writeMode
    ensures d.writeMode ==> !HasBusyBank(d)
  {
    assert UseBus(cfg, c, now) == c;
  }

  lemma {:induction false} EveryCallFlips(cfg: Config, s: State, calls: seq<Call>, d: State)
    requires StateInv(cfg, s) && cfg.wqSize == 1 && NoWrites(s.c) && !s.warmup
    requires ValidRun(cfg, s, calls) && d == Run(cfg, s, calls)
    requires forall i :: 0 <= i < |calls| ==> calls[i].writeRequests == []
    ensures NoWrites(d.c) && d.c.out == s.c.out
    ensures d.c.writeMode == if |calls| % 2 == 0 then s.c.writeMode else !s.c.writeMode
    decreases |calls|
  {
    hide ChannelInv, BusInv, NoWrites, ValidCall, Next;
    if calls == [] {
    } else {
      StateShape(cfg, s);
      var next := Next(cfg, s, calls[0]);
      NextStarves(cfg, s, calls[0], next);
      StateShape(cfg, next);
      EveryCallFlips(cfg, next, calls[1..], d);
    }
  }

  /** Starvation: from any reachable state without writes, as long as none are added, every
      call flips the mode, nobody is answered and everybody who waits goes on waiting. */
  lemma ReadsStarve(cfg: Config, s: State, calls: seq<Call>, d: State)
    requires StateInv(cfg, s) && cfg.wqSize == 1 && NoWrites(s.c) && !s.warmup
    requires ValidRun(cfg, s, calls) && d == Run(cfg, s, calls)
    requires forall i :: 0 <= i < |calls| ==> calls[i].writeRequests == []
    ensures d.c.out == s.c.out
    ensures d.c.writeMode == if |calls| % 2 == 0 then s.c.writeMode else !s.c.writeMode
    ensures forall w :: Waiting(cfg, s.c.rq, w) ==> Waiting(cfg, d.c.rq, w)
  {
    RunServes(cfg, s, calls, d);
    EveryCallFlips(cfg, s, calls, d);
    hide ChannelInv, BusInv, NoWrites, Waiting, Run, ValidRun;
    NobodyAnswered(cfg, s.c.rq, d.c.rq, s.c.out);
  }

  lemma NobodyAnswered(cfg: Config, a: Queue, b: Queue, out: seq<Response>)
    requires cfg.blockSize > 0 && Serves(cfg, a, out, b, out)
    ensures forall w :: Waiting(cfg, a, w) ==> Waiting(cfg, b, w)
  {
    hide Waiting;
    forall w | Waiting(cfg, a, w) ensures Waiting(cfg, b, w) {
      assert !Answered(cfg, out, |out|, w);
    }
  }

  lemma StateShape(cfg: Config, s: State)
    requires StateInv(cfg, s)
    ensures cfg.Valid() && Shaped(cfg, s.c)
  {
  }

  lemma NextStarves(cfg: Config, s: State, call: Call, s': State)
    requires StateInv(cfg, s) && cfg.wqSize == 1 && NoWrites(s.c) && !(s.warmup && !call.endsWarmup)
    requires ValidCall(s, call) && call.writeRequests == [] && s' == Next(cfg, s, call)
    ensures StateInv(cfg, s') && NoWrites(s'.c) && s'.c.out == s.c.out && s'.c.writeMode != s.c.writeMode && !s'.warmup
    ensures s'.c.writeMode ==> !HasBusyBank(s'.c)
  {
    hide Operate, NextBus, BusInv;
    NextKeeps(cfg, s, call, s');
    LoadedKeeps(cfg, s, call, Loaded(s, call));
    assert Loaded(s, call).wq == s.c.wq && NoWrites(Loaded(s, call));
    FlipsAndAnswersNobody(cfg, Loaded(s, call), call.now, s'.c);
  }

  // ---- A run from reset that gets there ----

  /** One read, offered in the call that ends the warm-up. */
  function FirstRead(): Call {
    Call(0, [Request(0, 0, [], [0], false, false, 0)], [], true)
  }

  function FirstWaiter(): Waiter { Waiter(0, 0, {}) }

  lemma FirstReadWaits(cfg: Config, s: State)
    requires cfg.Valid() && s == Next(cfg, Reset(cfg), FirstRead()) && s.c.out == []
    ensures Waiting(cfg, s.c.rq, FirstWaiter()) && HasWork(s.c)
  {
    var c := Loaded(Reset(cfg), FirstRead());
    var q := Reset(cfg).c.rq;
    assert Empty()(q[0]) && First(q, Empty()) == 0;
    var r := FirstRead().readRequests[0];
    assert c.rq == AddAll(AddTo(q, r, 0).0, FirstRead().readRequests[1..], 0);
    assert c.rq[0].Some? && WaitsIn(cfg, c.rq[0].value, FirstWaiter());
    OperateServes(cfg, c, 0, false, s.c);
    hide Operate;
    assert Waiting(cfg, c.rq, FirstWaiter()) && !Answered(cfg, s.c.out, 0, FirstWaiter());
    var k :| 0 <= k < |s.c.rq| && s.c.rq[k].Some? && WaitsIn(cfg, s.c.rq[k].value, FirstWaiter());
    assert s.c.Q(false)[k].Some?;
  }

  /** With one write slot, after its first call the channel has work and no bank busy. */
  lemma OneSlotIdles(cfg: Config, s: State)
    requires cfg.Valid() && cfg.wqSize == 1 && s == Next(cfg, Reset(cfg), FirstRead())
    ensures StateInv(cfg, s) && NoWrites(s.c) && !s.warmup && s.now == 0 && s.c.out == [] && HasWork(s.c)
    ensures !HasBusyBank(s.c)
    ensures Waiting(cfg, s.c.rq, FirstWaiter())
  {
    ResetInv(cfg);
    hide Operate, NextBus;
    NextStarves(cfg, Reset(cfg), FirstRead(), s);
    FirstReadWaits(cfg, s);
  }

  // ---- Never idle, exactly with two write slots or more ----

  ghost predicate BusyAfter(cfg: Config, calls: seq<Call>, call: Call)
    requires cfg.Valid()
  {
    ValidRun(cfg, Reset(cfg), calls) ==>
      var s := Run(cfg, Reset(cfg), calls);
      ValidCall(s, call) && !(s.warmup && !call.endsWarmup) && HasWork(Next(cfg, s, call).c) ==>
          HasBusyBank(Next(cfg, s, call).c)
  }

  /** In every run, every call outside warm-up that leaves work behind leaves a busy bank. */
  ghost predicate AlwaysBusy(cfg: Config)
    requires cfg.Valid()
  {
    forall calls, call :: BusyAfter(cfg, calls, call)
  }

  lemma AlwaysBusyIff(cfg: Config)
    requires cfg.Valid()
    ensures AlwaysBusy(cfg) <==> cfg.wqSize >= 2
  {
    if cfg.wqSize >= 2 {
      forall calls, call ensures BusyAfter(cfg, calls, call) { LeavesBusyBank(cfg, calls, call); }
    } else {
      var s := Next(cfg, Reset(cfg), FirstRead());
      OneSlotIdles(cfg, s);
      assert Run(cfg, Reset(cfg), []) == Reset(cfg) && ValidRun(cfg, Reset(cfg), []);
      hide Next, HasWork, HasBusyBank;
      assert !BusyAfter(cfg, [], FirstRead());
    }
  }

  lemma LeavesBusyBank(cfg: Config, calls: seq<Call>, call: Call)
    requires cfg.Valid() && cfg.wqSize >= 2
    ensures BusyAfter(cfg, calls, call)
  {
    if ValidRun(cfg, Reset(cfg), calls) {
      var s := Run(cfg, Reset(cfg), calls);
      ResetInv(cfg);
      RunServes(cfg, Reset(cfg), calls, s);
      hide Run, ValidRun, Reset, HasWork, HasBusyBank, ChannelInv, BusInv, Next, ValidCall;
      StateShape(cfg, s);
      if ValidCall(s, call) && !(s.warmup && !call.endsWarmup) && HasWork(Next(cfg, s, call).c) {
        NextNeverIdle(cfg, s, call);
      }
    }
  }

  lemma NextNeverIdle(cfg: Config, s: State, call: Call)
    requires StateInv(cfg, s) && cfg.wqSize >= 2 && ValidCall(s, call) && !(s.warmup && !call.endsWarmup)
    requires HasWork(Next(cfg, s, call).c)
    ensures HasBusyBank(Next(cfg, s, call).c)
  {
    LoadedKeeps(cfg, s, call, Loaded(s, call));
    hide Operate, NextBus;
    NeverIdle(cfg, Loaded(s, call), call.now, Next(cfg, s, call).c);
  }
}
