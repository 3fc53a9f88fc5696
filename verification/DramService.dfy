/** Bounded service over runs: once no writes are added, every waiting read is answered
    within a fixed number of calls, exactly when there are two write slots or more. */
module DramService {
  import opened Options
  import opened DramState
  import opened DramQueues
  import opened DramRuns
  import opened DramRank
  import opened DramStarvation

  // ---- Runs ----

  /** Cycles strictly rise, and no writes come. */
  ghost predicate Quiet(s: State, calls: seq<Call>) {
    && (forall i :: 0 <= i < |calls| ==> calls[i].writeRequests == [] && s.now < calls[i].now)
    && (forall i, j :: 0 <= i < j < |calls| ==> calls[i].now < calls[j].now)
  }

  lemma {:induction false} EveryRunIsTimely(cfg: Config, s: State, calls: seq<Call>, d: State)
    requires StateInv(cfg, s) && Timely(cfg, s.c, s.now) && ValidRun(cfg, s, calls) && d == Run(cfg, s, calls)
    ensures StateInv(cfg, d) && Timely(cfg, d.c, d.now)
    decreases |calls|
  {
    if calls == [] {
    } else {
      var next := Next(cfg, s, calls[0]);
      NextTimely(cfg, s, calls[0], next);
      hide StateInv, Timely, Next;
      EveryRunIsTimely(cfg, next, calls[1..], d);
    }
  }

  lemma NextTimely(cfg: Config, s: State, call: Call, s': State)
    requires StateInv(cfg, s) && Timely(cfg, s.c, s.now) && ValidCall(s, call) && s' == Next(cfg, s, call)
    ensures StateInv(cfg, s') && Timely(cfg, s'.c, s'.now)
  {
    hide Operate, NextBus;
    NextKeeps(cfg, s, call, s');
    var c := Loaded(s, call);
    LoadedKeeps(cfg, s, call, c);
    assert Timely(cfg, c, call.now);
    OperateTimely(cfg, c, call.now, s.warmup && !call.endsWarmup, s'.c);
  }

  /** After a call outside warm-up every read is checked and the mode is settled, and
      nothing but the reads held after the collision check is there. */
  lemma CallSettles(cfg: Config, c: Channel, now: nat, d: Channel)
    requires ChannelInv(cfg, c, now, false) && now < NEVER && d == Operate(cfg, c, now, false)
    ensures |d.rq| == |c.rq| && CheckedBelow(d.rq, |d.rq|) && (cfg.wqSize >= 2 ==> Settled(cfg, d))
    ensures var q := CheckCollision(cfg, c).rq;
      && |q| == |d.rq| && CheckedBelow(q, |q|) && CheckedDistinct(cfg, q)
      && forall j :: 0 <= j < |d.rq| && d.rq[j].Some? ==> q[j].Some? && d.rq[j].value.address == q[j].value.address
  {
    var c1 := CheckCollision(cfg, c);
    CollisionKeeps(cfg, c, now, false, c1);
    var c2 := FinishRequest(c1, now);
    var c3 := SwitchMode(cfg, c2, now);
    CallStages(cfg, c, now, c1, c2, c3, d);
    hide CheckCollision, Operate, FinishRequest, SwitchMode, UseBus, ScheduleRequest;
    ReadsStayPut(cfg, c1, now, d);
  }

  /** Whoever waited in slot `k` was answered once the slot is empty, and else waits in
      slot `k` still. */
  lemma SlotAnswers(cfg: Config, s: State, call: Call, k: nat, d: Channel, w: Waiter)
    requires StateInv(cfg, s) && ValidCall(s, call) && !(s.warmup && !call.endsWarmup) && Holds(cfg, s.c, k)
    requires WaitsIn(cfg, s.c.rq[k].value, w) && s.now < call.now
    requires d == Operate(cfg, Loaded(s, call), call.now, false) && Serves(cfg, s.c.rq, s.c.out, d.rq, d.out)
    ensures Answered(cfg, d.out, |s.c.out|, w) || (k < |d.rq| && d.rq[k].Some? && WaitsIn(cfg, d.rq[k].value, w))
  {
    var c := Loaded(s, call);
    LoadedKeeps(cfg, s, call, c);
    CallSettles(cfg, c, call.now, d);
    var q := CheckCollision(cfg, c).rq;
    AddAllUndisturbed(s.c.rq, call.readRequests, call.now, c.rq, k, 0);
    CheckReadsUndisturbed(cfg, c.rq, CheckWrites(cfg, c.wq, 0), c.out, 0, q, k, 0);
    hide Operate, AddAll, CheckCollision, CheckReads, CheckWrites;
    assert Waiting(cfg, s.c.rq, w);
    if !Answered(cfg, d.out, |s.c.out|, w) {
      var j :| 0 <= j < |d.rq| && d.rq[j].Some? && WaitsIn(cfg, d.rq[j].value, w);
      assert q[k].value.checked && q[j].value.checked;
    }
  }
  lemma {:induction false} RankRuns(cfg: Config, s: State, calls: seq<Call>, d: State, k: nat, w: Waiter)
    requires StateInv(cfg, s) && Timely(cfg, s.c, s.now) && !s.warmup && Settled(cfg, s.c) && cfg.wqSize >= 2
    requires Holds(cfg, s.c, k) && WaitsIn(cfg, s.c.rq[k].value, w)
    requires ValidRun(cfg, s, calls) && Quiet(s, calls) && d == Run(cfg, s, calls) && |calls| > Rank(cfg, s.c, s.now, k)
    ensures Answered(cfg, d.c.out, |s.c.out|, w)
    decreases |calls|
  {
    hide ChannelInv, BusInv, Timely, Settled, Holds, Rank, Next, WaitsIn, ValidCall, Answered;
    StateShape(cfg, s);
    var next := Next(cfg, s, calls[0]);
    NextNow(cfg, s, calls[0]);
    QuietRest(s, calls, next);
    SettledCall(cfg, s, calls[0], next, k, w);
    StateShape(cfg, next);
    RunServes(cfg, next, calls[1..], d);
    if Answered(cfg, next.c.out, |s.c.out|, w) {
      LaterAnswers(cfg, next.c.out, d.c.out, |s.c.out|, w);
    } else {
      RankRuns(cfg, next, calls[1..], d, k, w);
      EarlierFrom(cfg, d.c.out, |next.c.out|, |s.c.out|, w);
    }
  }

  lemma QuietRest(s: State, calls: seq<Call>, next: State)
    requires Quiet(s, calls) && calls != [] && next.now == calls[0].now
    ensures calls[0].writeRequests == [] && s.now < calls[0].now && Quiet(next, calls[1..])
  {
  }

  lemma NextNow(cfg: Config, s: State, call: Call)
    requires cfg.Valid() && Shaped(cfg, s.c)
    ensures Next(cfg, s, call).now == call.now
  {
  }

  lemma EarlierFrom(cfg: Config, out: seq<Response>, from: nat, from': nat, w: Waiter)
    requires cfg.blockSize > 0 && Answered(cfg, out, from, w) && from' <= from
    ensures Answered(cfg, out, from', w)
  {
  }

  lemma LaterAnswers(cfg: Config, out: seq<Response>, out': seq<Response>, from: nat, w: Waiter)
    requires cfg.blockSize > 0 && out <= out' && Answered(cfg, out, from, w)
    ensures Answered(cfg, out', from, w)
  {
    var n :| from <= n < |out| && Answers(cfg, out[n], w);
    assert out'[n] == out[n];
  }

  lemma SettledCall(cfg: Config, s: State, call: Call, s': State, k: nat, w: Waiter)
    requires StateInv(cfg, s) && Timely(cfg, s.c, s.now) && !s.warmup && Settled(cfg, s.c) && cfg.wqSize >= 2
    requires Holds(cfg, s.c, k) && WaitsIn(cfg, s.c.rq[k].value, w)
    requires ValidCall(s, call) && s.now < call.now && call.writeRequests == [] && s' == Next(cfg, s, call)
    ensures StateInv(cfg, s') && Timely(cfg, s'.c, s'.now) && !s'.warmup && Settled(cfg, s'.c) && s.c.out <= s'.c.out
    ensures Answered(cfg, s'.c.out, |s.c.out|, w) ||
              (Holds(cfg, s'.c, k) && WaitsIn(cfg, s'.c.rq[k].value, w)
               && Rank(cfg, s'.c, s'.now, k) < Rank(cfg, s.c, s.now, k))
  {
    NextTimely(cfg, s, call, s');
    NextKeeps(cfg, s, call, s');
    LoadedKeeps(cfg, s, call, Loaded(s, call));
    hide NextBus, Operate;
    CallSettles(cfg, Loaded(s, call), call.now, s'.c);
    CallRank(cfg, s, call, k, s'.c);
    SlotAnswers(cfg, s, call, k, s'.c, w);
  }

  /** Bounded service: in any reachable state, every waiting read is answered within
      ServiceBound calls, whatever reads come after it, if no writes do. */
  lemma EveryReadIsServed(cfg: Config, before: seq<Call>, s: State, calls: seq<Call>, d: State, w: Waiter)
    requires cfg.Valid() && cfg.wqSize >= 2
    requires ValidRun(cfg, Reset(cfg), before) && s == Run(cfg, Reset(cfg), before) && Waiting(cfg, s.c.rq, w)
    requires ValidRun(cfg, s, calls) && Quiet(s, calls) && d == Run(cfg, s, calls) && |calls| >= ServiceBound(cfg)
    ensures Answered(cfg, d.c.out, |s.c.out|, w)
  {
    hide ChannelInv, BusInv, ValidRun, Run, Waiting, Answered, ServiceBound, Quiet;
    ResetTimely(cfg);
    EveryRunIsTimely(cfg, Reset(cfg), before, s);
    ServedFrom(cfg, s, calls, d, w);
  }

  lemma ResetTimely(cfg: Config)
    requires cfg.Valid()
    ensures StateInv(cfg, Reset(cfg)) && Timely(cfg, Reset(cfg).c, Reset(cfg).now)
  {
    ResetInv(cfg);
  }

  lemma ServedFrom(cfg: Config, s: State, calls: seq<Call>, d: State, w: Waiter)
    requires StateInv(cfg, s) && Timely(cfg, s.c, s.now) && cfg.wqSize >= 2 && Waiting(cfg, s.c.rq, w)
    requires ValidRun(cfg, s, calls) && Quiet(s, calls) && d == Run(cfg, s, calls) && |calls| >= ServiceBound(cfg)
    ensures Answered(cfg, d.c.out, |s.c.out|, w)
  {
    hide ChannelInv, BusInv, Timely, Settled, Holds, Rank, Next, WaitsIn, ValidCall, Answered, ServiceBound;
    StateShape(cfg, s);
    BoundPositive(cfg);
    var next := Next(cfg, s, calls[0]);
    NextNow(cfg, s, calls[0]);
    QuietRest(s, calls, next);
    NextTimely(cfg, s, calls[0], next);
    NextKeeps(cfg, s, calls[0], next);
    FirstCall(cfg, s, calls[0], next);
    StateShape(cfg, next);
    RunServes(cfg, next, calls[1..], d);
    if Answered(cfg, next.c.out, |s.c.out|, w) {
      LaterAnswers(cfg, next.c.out, d.c.out, |s.c.out|, w);
    } else {
      var k: nat :| k < |next.c.rq| && next.c.rq[k].Some? && WaitsIn(cfg, next.c.rq[k].value, w);
      FreshRank(cfg, next, k);
      RankRuns(cfg, next, calls[1..], d, k, w);
      EarlierFrom(cfg, d.c.out, |next.c.out|, |s.c.out|, w);
    }
  }

  lemma BoundPositive(cfg: Config)
    ensures ServiceBound(cfg) > 0
  {
  }

  lemma FirstCall(cfg: Config, s: State, call: Call, s': State)
    requires StateInv(cfg, s) && ValidCall(s, call) && s' == Next(cfg, s, call)
    ensures if s'.warmup then forall k :: 0 <= k < |s'.c.rq| ==> s'.c.rq[k].None?
            else CheckedBelow(s'.c.rq, |s'.c.rq|) && (cfg.wqSize >= 2 ==> Settled(cfg, s'.c))
  {
    var c := Loaded(s, call);
    LoadedKeeps(cfg, s, call, c);
    hide NextBus, Operate;
    if s'.warmup {
      WarmupEmpties(cfg, c, call.now, s'.c);
    } else {
      CallSettles(cfg, c, call.now, s'.c);
    }
  }

  lemma WarmupEmpties(cfg: Config, c: Channel, now: nat, d: Channel)
    requires ChannelInv(cfg, c, now, true) && d == Operate(cfg, c, now, true)
    ensures forall k :: 0 <= k < |d.rq| ==> d.rq[k].None?
  {
    var c2 := BeforeSwitch(cfg, c, now, true);
    BeforeSwitchKeeps(cfg, c, now, true, c2);
    UnscheduleAllFills(cfg, c2, 0, now);
    hide BeforeSwitch, CheckCollision, FinishRequest, Drain;
    var c3 := SwitchMode(cfg, c2, now);
    assert d == ScheduleRequest(cfg, UseBus(cfg, c3, now), now);
  }

  lemma FreshRank(cfg: Config, s: State, k: nat)
    requires StateInv(cfg, s) && Timely(cfg, s.c, s.now) && CheckedBelow(s.c.rq, |s.c.rq|)
    requires k < |s.c.rq| && s.c.rq[k].Some?
    ensures Holds(cfg, s.c, k) && Rank(cfg, s.c, s.now, k) + 1 < ServiceBound(cfg)
  {
    TimerBound(cfg, s.c, s.now);
    RankBounds(cfg, s.c, s.now, k, Timer(cfg, s.c, s.now));
  }

  // ---- Served, exactly with two write slots or more ----

  ghost predicate ServedWithin(cfg: Config, bound: nat, before: seq<Call>, calls: seq<Call>, w: Waiter)
    requires cfg.Valid()
  {
    ValidRun(cfg, Reset(cfg), before) ==>
      var s := Run(cfg, Reset(cfg), before);
      Waiting(cfg, s.c.rq, w) && ValidRun(cfg, s, calls) && Quiet(s, calls) && |calls| >= bound ==>
        Answered(cfg, Run(cfg, s, calls).c.out, |s.c.out|, w)
  }

  /** In every run, whoever waits for a read is answered within `bound` calls without writes. */
  ghost predicate AlwaysServes(cfg: Config, bound: nat)
    requires cfg.Valid()
  {
    forall before, calls, w :: ServedWithin(cfg, bound, before, calls, w)
  }

  /** `n` calls that bring nothing, one a cycle. */
  function Silence(now: nat, n: nat): (calls: seq<Call>)
    ensures |calls| == n
  {
    seq(n, i requires 0 <= i < n => Call(now + 1 + i, [], [], false))
  }

  lemma {:induction false} SilenceIsValid(cfg: Config, s: State, n: nat, calls: seq<Call>)
    requires cfg.Valid() && Shaped(cfg, s.c) && s.now + n < NEVER && calls == Silence(s.now, n)
    ensures ValidRun(cfg, s, calls)
    decreases n
  {
    if n == 0 {
    } else {
      hide Next;
      NextNow(cfg, s, calls[0]);
      assert calls[1..] == Silence(calls[0].now, n - 1);
      SilenceIsValid(cfg, Next(cfg, s, calls[0]), n - 1, calls[1..]);
    }
  }

  /** No number of calls that a run can hold is enough with one write slot; ServiceBound
      always is with more. */
  lemma ServedIff(cfg: Config, bound: nat)
    requires cfg.Valid() && ServiceBound(cfg) <= bound < NEVER
    ensures AlwaysServes(cfg, bound) <==> cfg.wqSize >= 2
  {
    if cfg.wqSize >= 2 {
      forall before, calls, w
        ensures ServedWithin(cfg, bound, before, calls, w)
      {
        ServedInTime(cfg, bound, before, calls, w);
      }
    } else {
      NotServed(cfg, bound);
    }
  }

  lemma ServedInTime(cfg: Config, bound: nat, before: seq<Call>, calls: seq<Call>, w: Waiter)
    requires cfg.Valid() && cfg.wqSize >= 2 && ServiceBound(cfg) <= bound
    ensures ServedWithin(cfg, bound, before, calls, w)
  {
    if ValidRun(cfg, Reset(cfg), before) {
      var s := Run(cfg, Reset(cfg), before);
      hide Run, ValidRun, Reset, Quiet, ServiceBound, Waiting, Answered;
      if Waiting(cfg, s.c.rq, w) && ValidRun(cfg, s, calls) && Quiet(s, calls) && |calls| >= bound {
        EveryReadIsServed(cfg, before, s, calls, Run(cfg, s, calls), w);
      }
    }
  }

  lemma FirstRun(cfg: Config, s: State)
    requires cfg.Valid() && s == Next(cfg, Reset(cfg), FirstRead())
    ensures ValidRun(cfg, Reset(cfg), [FirstRead()]) && Run(cfg, Reset(cfg), [FirstRead()]) == s
  {
    hide Next;
    assert [FirstRead()][1..] == [];
    assert ValidCall(Reset(cfg), FirstRead());
  }

  lemma StarvedAfter(cfg: Config, s: State, bound: nat)
    requires StateInv(cfg, s) && cfg.wqSize == 1 && NoWrites(s.c) && !s.warmup && s.now + bound < NEVER
    requires cfg.Valid() && Shaped(cfg, s.c)
    ensures var calls := Silence(s.now, bound);
      ValidRun(cfg, s, calls) && Quiet(s, calls) && Run(cfg, s, calls).c.out == s.c.out
  {
    hide StateInv, NoWrites, ValidRun, Run, Shaped;
    var calls := Silence(s.now, bound);
    SilenceIsValid(cfg, s, bound, calls);
    ReadsStarve(cfg, s, calls, Run(cfg, s, calls));
  }

  lemma NotServed(cfg: Config, bound: nat)
    requires cfg.Valid() && cfg.wqSize == 1 && bound < NEVER
    ensures !AlwaysServes(cfg, bound)
  {
    var s := Next(cfg, Reset(cfg), FirstRead());
    OneSlotIdles(cfg, s);
    FirstRun(cfg, s);
    hide Next, ValidRun, Run, Reset, StateInv, NoWrites, Silence, Quiet, Waiting, HasWork, HasBusyBank;
    StarvedAfter(cfg, s, bound);
    assert !Answered(cfg, s.c.out, |s.c.out|, FirstWaiter());
    assert !ServedWithin(cfg, bound, [FirstRead()], Silence(s.now, bound), FirstWaiter());
  }
}
