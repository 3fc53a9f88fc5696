/** What a request costs: a row that is open is reached after tCAS, any other row after
    tRP + tRCD + tCAS, and which row is open is the one scheduled last. */
module DramTiming {
  import opened Options
  import opened DramState
  import opened DramPointers
  import opened DramRuns

  // ---- What has been scheduled on each bank ----

  /** The row that a bank holds open, and its last scheduling: when, and whether it found
      its row open. */
  datatype Log = Log(row: nat, time: nat, hit: bool)

  /** How long a bank takes, given whether the row was open. */
  function Cost(cfg: Config, hit: bool): nat {
    if hit then cfg.tCAS else cfg.tRP + cfg.tRCD + cfg.tCAS
  }

  /** The bank gets a request in a call that takes the channel from `c` to `d`. */
  ghost predicate GetsRequest(c: Channel, d: Channel, i: nat) {
    i < |c.banks| && i < |d.banks| && !c.banks[i].valid && d.banks[i].valid
  }

  /** The row of the entry that bank `i` works on. */
  ghost function RowOfBank(cfg: Config, c: Channel, i: nat): nat
    requires cfg.blockSize > 0 && i < |c.banks|
  {
    var s := c.banks[i].pkt;
    if s.index < |c.Q(s.write)| && c.Q(s.write)[s.index].Some? then RowOf(cfg, c.Q(s.write)[s.index].value.address)
    else NO_ROW
  }

  /** A change of mode takes back a request that was not ready tCAS ago, and its row. */
  ghost predicate Precharges(cfg: Config, c: Channel, c': Channel, now: nat, i: nat) {
    && i < |c.banks| && c'.writeMode != c.writeMode && c.banks[i].valid && c.active != Some(i)
    && c.banks[i].event < now + cfg.tCAS
  }

  /** The log after a call at cycle `now` that is in state `a` as it decides on the mode, in
      `b` right after, and in `d` at its end. */
  ghost function NextLog(cfg: Config, a: Channel, b: Channel, d: Channel, now: nat, log: seq<Log>): (r: seq<Log>)
    requires cfg.blockSize > 0 && |d.banks| == |log|
    ensures |r| == |log|
  {
    seq(|log|, i requires 0 <= i < |log| =>
      var open := if Precharges(cfg, a, b, now, i) then NO_ROW else log[i].row;
      if GetsRequest(b, d, i) then Log(RowOfBank(cfg, d, i), now, open == RowOfBank(cfg, d, i))
      else log[i].(row := open))
  }

  /** The bank holds the row of the log open; a request on it is ready the cost after it was
      scheduled; and one that has the bus leaves it the return time after that at least. */
  ghost predicate LogHolds(cfg: Config, c: Channel, log: seq<Log>, i: int) {
    0 <= i < |log| == |c.banks| ==>
      && c.banks[i].openRow == log[i].row
      && (c.banks[i].valid && c.active != Some(i) ==> c.banks[i].event == log[i].time + Cost(cfg, log[i].hit))
      && (c.banks[i].valid && c.active == Some(i) ==>
            c.banks[i].event >= log[i].time + Cost(cfg, log[i].hit) + cfg.returnTime)
  }

  ghost predicate LogInv(cfg: Config, c: Channel, log: seq<Log>) {
    |log| == |c.banks| && forall i :: LogHolds(cfg, c, log, i)
  }

  // ---- One call ----

  /** Scheduling, exactly: a bank that gets a request is that of the address, and is ready
      tCAS later if and only if it held the row of the address open (or closing and opening
      rows takes no time). The row is open from then on. */
  lemma ScheduleCosts(cfg: Config, c: Channel, now: nat, d: Channel, i: nat)
    requires PointerInv(cfg, c) && now < NEVER && d == ScheduleRequest(cfg, c, now) && i < |c.banks|
    ensures |d.banks| == |c.banks| && d.active == c.active && d.writeMode == c.writeMode
    ensures if GetsRequest(c, d, i) then
              var s := d.banks[i].pkt;
              && s.write == c.writeMode && s.index < |d.Q(s.write)| && d.Q(s.write)[s.index].Some?
              && i == OpIndex(cfg, d.Q(s.write)[s.index].value.address)
              && d.banks[i].openRow == RowOfBank(cfg, d, i)
              && d.banks[i].event == now + Cost(cfg, c.banks[i].openRow == RowOfBank(cfg, d, i))
              && (d.banks[i].rowHit <==> c.banks[i].openRow == RowOfBank(cfg, d, i))
            else d.banks[i] == c.banks[i]
  {
  }

  lemma {:induction false} UnscheduleAllBanks(cfg: Config, c: Channel, k: nat, now: nat, d: Channel)
    requires k <= |c.banks| && d == UnscheduleAll(cfg, c, k, now)
    ensures |d.banks| == |c.banks| && d.active == c.active
    ensures forall i :: 0 <= i < |c.banks| ==>
              var b := c.banks[i];
              var row := if b.event < now + cfg.tCAS then NO_ROW else b.openRow;
              d.banks[i] == if i < k || c.active == Some(i) || !b.valid then b else b.(valid := false, openRow := row)
    decreases |c.banks| - k
  {
    if k == |c.banks| {
    } else {
      var next := Unschedule(cfg, c, k, now);
      UnscheduleBanks(cfg, c, k, now, next);
      hide Unschedule;
      UnscheduleAllBanks(cfg, next, k + 1, now, d);
    }
  }

  lemma UnscheduleBanks(cfg: Config, c: Channel, k: nat, now: nat, d: Channel)
    requires k < |c.banks| && d == Unschedule(cfg, c, k, now)
    ensures d.active == c.active && |d.banks| == |c.banks|
    ensures d.banks == if c.active == Some(k) || !c.banks[k].valid then c.banks
                       else c.banks[k := c.banks[k].(valid := false,
                              openRow := if c.banks[k].event < now + cfg.tCAS then NO_ROW else c.banks[k].openRow)]
  {
  }

  /** The log through a change of mode. */
  lemma SwitchLog(cfg: Config, c: Channel, now: nat, d: Channel, log: seq<Log>, i: nat)
    requires PointerInv(cfg, c) && LogInv(cfg, c, log) && d == SwitchMode(cfg, c, now) && i < |log|
    ensures |d.banks| == |log| && d.active == c.active
    ensures d.banks[i].openRow == if Precharges(cfg, c, d, now, i) then NO_ROW else log[i].row
    ensures d.banks[i].valid ==> c.banks[i].valid && d.banks[i].event == c.banks[i].event
  {
    assert LogHolds(cfg, c, log, i);
    SwitchPointers(cfg, c, now, d);
    UnscheduleAllBanks(cfg, c, 0, now, UnscheduleAll(cfg, c, 0, now));
  }

  lemma LateLogAt(cfg: Config, a: Channel, b: Channel, now: nat, c: Channel, d: Channel, log: seq<Log>, i: nat)
    requires PointerInv(cfg, a) && LogInv(cfg, a, log) && now < NEVER
    requires b == SwitchMode(cfg, a, now) && PointerInv(cfg, b)
    requires c == UseBus(cfg, b, now) && PointerInv(cfg, c) && d == ScheduleRequest(cfg, c, now) && |d.banks| == |log|
    requires i < |log|
    ensures LogHolds(cfg, d, NextLog(cfg, a, b, d, now, log), i)
  {
    assert LogHolds(cfg, a, log, i);
    assert cfg.blockSize > 0 && (c.active.Some? ==> c.active.value < |c.banks|);
    SwitchLog(cfg, a, now, b, log, i);
    BusLog(cfg, b, now, c, i);
    ScheduleCosts(cfg, c, now, d, i);
    hide SwitchMode, UseBus, ScheduleRequest, PointerInv, RowOfBank, LogInv;
  }

  lemma LateLog(cfg: Config, a: Channel, b: Channel, now: nat, c: Channel, d: Channel, log: seq<Log>)
    requires PointerInv(cfg, a) && LogInv(cfg, a, log) && now < NEVER
    requires b == SwitchMode(cfg, a, now) && PointerInv(cfg, b)
    requires c == UseBus(cfg, b, now) && PointerInv(cfg, c) && d == ScheduleRequest(cfg, c, now)
    requires |d.banks| == |a.banks| == |log|
    ensures LogInv(cfg, d, NextLog(cfg, a, b, d, now, log))
  {
    hide SwitchMode, UseBus, ScheduleRequest;
    forall i | 0 <= i < |log| ensures LogHolds(cfg, d, NextLog(cfg, a, b, d, now, log), i) {
      LateLogAt(cfg, a, b, now, c, d, log, i);
    }
  }

  lemma BusLog(cfg: Config, c: Channel, now: nat, d: Channel, i: nat)
    requires PointerInv(cfg, c) && d == UseBus(cfg, c, now) && i < |c.banks|
    ensures |d.banks| == |c.banks|
    ensures d.banks[i].valid == c.banks[i].valid && d.banks[i].openRow == c.banks[i].openRow
    ensures d.active != Some(i) || c.active == Some(i) ==> d.banks[i].event == c.banks[i].event
    ensures d.active != Some(i) ==> c.active != Some(i)
    ensures d.active == Some(i) && c.active != Some(i) ==>
              c.banks[i].event <= now && d.banks[i].event == now + cfg.returnTime
  {
  }

  // ---- Runs ----

  /** The channel of a state as the next call decides on the mode. */
  ghost function Deciding(cfg: Config, s: State, call: Call): Channel
    requires cfg.blockSize > 0
  {
    BeforeSwitch(cfg, Loaded(s, call), call.now, s.warmup && !call.endsWarmup)
  }

  ghost function CallLog(cfg: Config, s: State, call: Call, log: seq<Log>): (r: seq<Log>)
    requires cfg.Valid() && Shaped(cfg, s.c) && |log| == |s.c.banks|
    ensures |r| == |log|
  {
    var a := Deciding(cfg, s, call);
    NextLog(cfg, a, SwitchMode(cfg, a, call.now), Next(cfg, s, call).c, call.now, log)
  }

  ghost function RunLog(cfg: Config, s: State, calls: seq<Call>, log: seq<Log>): (r: seq<Log>)
    requires cfg.Valid() && Shaped(cfg, s.c) && |log| == |s.c.banks|
    ensures |r| == |log|
    decreases |calls|
  {
    if calls == [] then log else RunLog(cfg, Next(cfg, s, calls[0]), calls[1..], CallLog(cfg, s, calls[0], log))
  }

  /** Nothing was scheduled, and no row is open. */
  ghost function NoLog(cfg: Config): seq<Log> {
    seq(cfg.ranks * cfg.banks, _ => Log(NO_ROW, 0, false))
  }

  /** Whatever comes before the mode decision only frees banks. */
  lemma DecidingLog(cfg: Config, s: State, call: Call, log: seq<Log>, a: Channel)
    requires StateInv(cfg, s) && ValidCall(s, call) && LogInv(cfg, s.c, log) && a == Deciding(cfg, s, call)
    ensures LogInv(cfg, a, log) && PointerInv(cfg, a)
    ensures a.active.None? || a.active == s.c.active
    ensures a.active != s.c.active <==> s.c.active.Some? && s.c.banks[s.c.active.value].event <= call.now
  {
    var c := Loaded(s, call);
    LoadedKeeps(cfg, s, call, c);
    BeforeSwitchKeeps(cfg, c, call.now, s.warmup && !call.endsWarmup, a);
    var c1 := CheckCollision(cfg, if s.warmup && !call.endsWarmup then Drain(c) else c);
    assert c1.banks == s.c.banks && c1.active == s.c.active;
    forall i ensures LogHolds(cfg, c1, log, i) { assert LogHolds(cfg, s.c, log, i); }
    if s.warmup && !call.endsWarmup { DrainKeeps(cfg, c, call.now); }
    CheckCollisionPointers(cfg, if s.warmup && !call.endsWarmup then Drain(c) else c);
    hide CheckCollision, Drain, Loaded;
    FinishLog(cfg, c1, call.now, a, log);
  }

  lemma FinishLog(cfg: Config, c: Channel, now: nat, d: Channel, log: seq<Log>)
    requires PointerInv(cfg, c) && d == FinishRequest(c, now) && LogInv(cfg, c, log)
    ensures LogInv(cfg, d, log)
    ensures d.active.None? || d.active == c.active
    ensures d.active != c.active <==> c.active.Some? && c.banks[c.active.value].event <= now
  {
    if c.active.Some? { assert BankLinked(cfg, c, c.active.value); }
    forall i ensures LogHolds(cfg, d, log, i) { assert LogHolds(cfg, c, log, i); }
  }

  lemma NextLogs(cfg: Config, s: State, call: Call, log: seq<Log>, s': State)
    requires StateInv(cfg, s) && ValidCall(s, call) && LogInv(cfg, s.c, log) && s' == Next(cfg, s, call)
    ensures LogInv(cfg, s'.c, CallLog(cfg, s, call, log))
  {
    var warmup := s.warmup && !call.endsWarmup;
    var a := Deciding(cfg, s, call);
    DecidingLog(cfg, s, call, log, a);
    LoadedKeeps(cfg, s, call, Loaded(s, call));
    BeforeSwitchKeeps(cfg, Loaded(s, call), call.now, warmup, a);
    var b := SwitchMode(cfg, a, call.now);
    SwitchKeeps(cfg, a, call.now, warmup, b);
    var c := UseBus(cfg, b, call.now);
    UseBusKeeps(cfg, b, call.now, warmup, c);
    OperateIs(cfg, s, call, s');
    hide SwitchMode, UseBus, ScheduleRequest, Deciding, Next;
    LateLog(cfg, a, b, call.now, c, s'.c, log);
  }

  lemma OperateIs(cfg: Config, s: State, call: Call, s': State)
    requires StateInv(cfg, s) && ValidCall(s, call) && s' == Next(cfg, s, call)
    ensures var b := SwitchMode(cfg, Deciding(cfg, s, call), call.now);
      PointerInv(cfg, b) ==> s'.c == ScheduleRequest(cfg, UseBus(cfg, b, call.now), call.now)
  {
    hide NextBus, CheckCollision, FinishRequest, SwitchMode, UseBus, ScheduleRequest, Loaded, Drain;
  }

  lemma {:induction false} RunLogs(cfg: Config, s: State, calls: seq<Call>, log: seq<Log>, d: State)
    requires StateInv(cfg, s) && LogInv(cfg, s.c, log) && ValidRun(cfg, s, calls) && d == Run(cfg, s, calls)
    ensures StateInv(cfg, d) && LogInv(cfg, d.c, RunLog(cfg, s, calls, log))
    decreases |calls|
  {
    hide ChannelInv, BusInv, LogInv, ValidCall, Next, CallLog;
    if calls == [] {
    } else {
      StateIsShaped(cfg, s);
      LogSize(cfg, s.c, log);
      var next := Next(cfg, s, calls[0]);
      NextKeeps(cfg, s, calls[0], next);
      NextLogs(cfg, s, calls[0], log, next);
      StateIsShaped(cfg, next);
      LogSize(cfg, next.c, CallLog(cfg, s, calls[0], log));
      RunLogs(cfg, next, calls[1..], CallLog(cfg, s, calls[0], log), d);
    }
  }

  lemma StateIsShaped(cfg: Config, s: State)
    requires StateInv(cfg, s)
    ensures cfg.Valid() && Shaped(cfg, s.c)
  {
  }

  lemma LogSize(cfg: Config, c: Channel, log: seq<Log>)
    requires LogInv(cfg, c, log)
    ensures |log| == |c.banks|
  {
  }

  /** Over every run: each bank holds open the row scheduled on it last, unless a change of
      mode took that back before it was ready tCAS ago; and a transfer that ends in a call
      does so no earlier than the return time after the cost of its request, which is tCAS if
      the row was open when it was scheduled and tRP + tRCD + tCAS if not. */
  lemma EveryRunTakesItsTime(cfg: Config, calls: seq<Call>, s: State, call: Call, log: seq<Log>, i: nat)
    requires cfg.Valid() && ValidRun(cfg, Reset(cfg), calls) && s == Run(cfg, Reset(cfg), calls) && ValidCall(s, call)
    requires i < |s.c.banks| && log == RunLog(cfg, Reset(cfg), calls, NoLog(cfg))
    ensures |log| == |s.c.banks| && s.c.banks[i].openRow == log[i].row
    ensures s.c.active == Some(i) && Deciding(cfg, s, call).active != Some(i) ==>
              call.now >= log[i].time + Cost(cfg, log[i].hit) + cfg.returnTime
  {
    ResetLogs(cfg);
    RunLogs(cfg, Reset(cfg), calls, NoLog(cfg), s);
    hide Run, ValidRun, Reset, Deciding;
    assert LogHolds(cfg, s.c, log, i);
    DecidingLog(cfg, s, call, log, Deciding(cfg, s, call));
  }

  lemma ResetLogs(cfg: Config)
    requires cfg.Valid()
    ensures StateInv(cfg, Reset(cfg)) && LogInv(cfg, Reset(cfg).c, NoLog(cfg))
  {
    ResetInv(cfg);
  }
}
