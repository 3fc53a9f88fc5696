/** The rank of a waiting read: a bound on the calls it still waits, which every call
    without new writes lowers. */
module DramRank {
  import opened Options
  import opened Scans
  import opened DramState
  import opened DramPointers
  import opened DramQueues
  import opened DramRuns

  // ---- Times ----

  /** The longest a bank takes to have a request ready. */
  function Access(cfg: Config): nat { cfg.tRP + cfg.tRCD + cfg.tCAS }

  /** No time a channel holds lies further ahead than its configuration allows. */
  ghost predicate Timely(cfg: Config, c: Channel, now: nat) {
    && c.busFree <= now + cfg.returnTime + cfg.turnAround
    && (c.active.Some? && c.active.value < |c.banks| ==> c.banks[c.active.value].event <= now + cfg.returnTime)
    && forall i :: 0 <= i < |c.banks| && c.banks[i].valid && c.active != Some(i) ==>
          c.banks[i].event <= now + Access(cfg)
  }

  lemma SwitchTimely(cfg: Config, c: Channel, now: nat, d: Channel)
    requires PointerInv(cfg, c) && Timely(cfg, c, now) && d == SwitchMode(cfg, c, now)
    ensures Timely(cfg, d, now)
  {
    SwitchPointers(cfg, c, now, d);
  }

  lemma UseBusTimely(cfg: Config, c: Channel, now: nat, d: Channel)
    requires PointerInv(cfg, c) && Timely(cfg, c, now) && d == UseBus(cfg, c, now)
    ensures Timely(cfg, d, now)
  {
  }

  lemma ScheduleTimely(cfg: Config, c: Channel, now: nat, d: Channel)
    requires PointerInv(cfg, c) && Timely(cfg, c, now) && d == ScheduleRequest(cfg, c, now)
    ensures Timely(cfg, d, now)
  {
  }

  lemma LateTimely(cfg: Config, c: Channel, now: nat, d: Channel)
    requires PointerInv(cfg, c) && Timely(cfg, c, now) && d == ScheduleRequest(cfg, UseBus(cfg, c, now), now)
    ensures Timely(cfg, d, now)
  {
    hide ScheduleRequest;
    UseBusPointers(cfg, c, now);
    UseBusTimely(cfg, c, now, UseBus(cfg, c, now));
    ScheduleTimely(cfg, UseBus(cfg, c, now), now, d);
  }

  lemma OperateTimely(cfg: Config, c: Channel, now: nat, warmup: bool, d: Channel)
    requires ChannelInv(cfg, c, now, warmup) && Timely(cfg, c, now) && d == Operate(cfg, c, now, warmup)
    ensures Timely(cfg, d, now)
  {
    var c2 := BeforeSwitch(cfg, c, now, warmup);
    BeforeSwitchKeeps(cfg, c, now, warmup, c2);
    assert Timely(cfg, c2, now);
    hide BeforeSwitch, CheckCollision, FinishRequest, Drain;
    var c3 := SwitchMode(cfg, c2, now);
    SwitchTimely(cfg, c2, now, c3);
    SwitchPointers(cfg, c2, now, c3);
    hide SwitchMode, UseBus, ScheduleRequest;
    LateTimely(cfg, c3, now, d);
  }

  // ---- The timer of the next transfer ----

  function Max0(x: int): nat { if x < 0 then 0 else x }

  function Later(a: int, b: int): int { if a < b then b else a }

  /** More calls than it takes from any state with work until a transfer ends. */
  function Turn(cfg: Config): nat { 2 * cfg.returnTime + cfg.turnAround + Access(cfg) + 2 }

  /** How many calls, one cycle apart or more, the next transfer still needs at most. */
  ghost function Timer(cfg: Config, c: Channel, now: nat): nat
    requires c.banks != [] && (c.active.Some? ==> c.active.value < |c.banks|)
  {
    if c.active.Some? then Max0(c.banks[c.active.value].event - now)
    else if HasBusyBank(c) then
      var i := Scan(c.banks, IsValidBank(), BankUrgency());
      cfg.returnTime + 1 + Max0(Later(c.banks[i].event, c.busFree) - now)
    else Turn(cfg)
  }

  lemma BusiestBank(c: Channel, i: nat)
    requires c.banks != [] && HasBusyBank(c) && i == Scan(c.banks, IsValidBank(), BankUrgency())
    ensures c.banks[i].valid
    ensures forall j :: 0 <= j < |c.banks| && c.banks[j].valid ==> c.banks[i].event <= c.banks[j].event
  {
    ScanSelects(c.banks, IsValidBank(), BankUrgency());
    forall j | 0 <= j < |c.banks|
      ensures IsValidBank()(c.banks[j]) == c.banks[j].valid && BankUrgency()(c.banks[j]) == 0 - c.banks[j].event
    { }
  }

  lemma TimerBound(cfg: Config, c: Channel, now: nat)
    requires PointerInv(cfg, c) && c.banks != [] && Timely(cfg, c, now)
    ensures Timer(cfg, c, now) <= Turn(cfg)
    ensures c.active.Some? ==> Timer(cfg, c, now) <= cfg.returnTime
    ensures HasBusyBank(c) ==> Timer(cfg, c, now) < Turn(cfg)
  {
    if c.active.None? && HasBusyBank(c) { BusiestBank(c, Scan(c.banks, IsValidBank(), BankUrgency())); }
  }

  /** The bank scan and the scheduling step let the timer run. */
  lemma TimerTicks(cfg: Config, c: Channel, now: nat, later: nat, d: Channel)
    requires PointerInv(cfg, c) && c.banks != [] && now < later < NEVER && Timely(cfg, c, now)
    requires c.active.Some? ==> c.banks[c.active.value].event > later
    requires d == ScheduleRequest(cfg, UseBus(cfg, c, later), later) && PointerInv(cfg, d)
    requires HasBusyBank(c) || HasBusyBank(d)
    ensures Timer(cfg, d, later) < Timer(cfg, c, now)
  {
    var c1 := UseBus(cfg, c, later);
    UseBusPointers(cfg, c, later);
    LateTimely(cfg, c, later, d);
    TimerBound(cfg, d, later);
    if c.active.Some? {
      assert c1.banks == c.banks && c1.active == c.active;
      hide UseBus, Scan;
    } else if HasBusyBank(c) {
      hide UseBus, ScheduleRequest, Timely, Timer;
      BusTicks(cfg, c, now, later, c1, d);
    } else {
      hide UseBus, ScheduleRequest, PointerInv, Timely;
    }
  }

  lemma BusTicks(cfg: Config, c: Channel, now: nat, later: nat, c1: Channel, d: Channel)
    requires PointerInv(cfg, c) && c.banks != [] && now < later && c.active.None? && HasBusyBank(c)
    requires c1 == UseBus(cfg, c, later) && PointerInv(cfg, c1) && d == ScheduleRequest(cfg, c1, later)
    ensures Timer(cfg, d, later) < Timer(cfg, c, now)
  {
    var i := Scan(c.banks, IsValidBank(), BankUrgency());
    BusiestBank(c, i);
    if d.active.None? {
      assert c1.banks == c.banks;
      assert d.banks[i] == c.banks[i] && HasBusyBank(d);
      BusiestBank(d, Scan(d.banks, IsValidBank(), BankUrgency()));
      hide PointerInv, Scan;
    }
  }

  // ---- The rank of a waiting read ----

  /** `n` transfers to go before a read's turn, with `t` calls left for the first. */
  function Weigh(cfg: Config, n: nat, t: nat): nat { n * (Turn(cfg) + 1) + t }

  lemma WeighLess(cfg: Config, n: nat, t: nat, n': nat, t': nat)
    requires n' <= n && (t' < t || (n' < n && t' <= Turn(cfg)))
    ensures Weigh(cfg, n', t') < Weigh(cfg, n, t)
  {
    var w := Turn(cfg) + 1;
    if n' < n {
      assert (n' + 1) * w <= n * w;
      assert (n' + 1) * w == n' * w + w;
    } else {
    }
  }

  /** Reads that may be scheduled before one of age `event`, or are that read. */
  function NotAfter(event: nat): Option<Request> -> bool {
    (e: Option<Request>) => e.Some? && !e.value.scheduled && e.value.event <= event
  }

  /** Banks whose request may use the bus before one ready at `event`, or are that one. */
  function ReadyBy(event: nat): Bank -> bool {
    (b: Bank) => b.valid && b.event <= event
  }

  function OnBus(c: Channel): nat { if c.active.Some? then 1 else 0 }

  function ReadOnBus(c: Channel): nat
    requires c.active.Some? ==> c.active.value < |c.banks|
  {
    if c.active.Some? && !c.banks[c.active.value].pkt.write then 1 else 0
  }

  /** Ranks below this one: the read is scheduled, and no later one can overtake it. */
  function OvertakenRank(cfg: Config): nat { Weigh(cfg, cfg.ranks * cfg.banks + 2, 0) }

  /** Ranks below this one: the read is scheduled. */
  function ScheduledRank(cfg: Config): nat { OvertakenRank(cfg) + Access(cfg) + 1 }

  /** Ranks below this one: the channel is in read mode. */
  function ReadRank(cfg: Config): nat { ScheduledRank(cfg) + Weigh(cfg, cfg.rqSize + cfg.ranks * cfg.banks + 1, 0) }

  /** The number of calls within which a read is answered. */
  function ServiceBound(cfg: Config): nat {
    (cfg.wqSize + cfg.rqSize + 2 * (cfg.ranks * cfg.banks) + 5) * (Turn(cfg) + 1) + Access(cfg) + 2
  }

  lemma BoundOfRanks(cfg: Config)
    ensures ServiceBound(cfg) == ReadRank(cfg) + Weigh(cfg, cfg.wqSize + 2, 0) + 1
  {
    var w, b := Turn(cfg) + 1, cfg.ranks * cfg.banks;
    var n := cfg.wqSize + cfg.rqSize + 2 * b + 5;
    assert n == (cfg.wqSize + 2) + (cfg.rqSize + b + 1) + (b + 2);
    SumTimes(cfg.wqSize + 2, cfg.rqSize + b + 1, b + 2, w);
  }

  lemma SumTimes(x: nat, y: nat, z: nat, w: nat)
    ensures (x + y + z) * w == x * w + y * w + z * w
  {
  }

  /** A read that was checked for collisions waits in slot `k`. */
  ghost predicate Holds(cfg: Config, c: Channel, k: nat) {
    PointerInv(cfg, c) && k < |c.rq| && c.rq[k].Some? && c.rq[k].value.checked
  }

  function BankFor(cfg: Config, c: Channel, k: nat): (i: nat)
    requires cfg.Valid() && k < |c.rq| && c.rq[k].Some?
    ensures i < cfg.ranks * cfg.banks
  {
    OpIndex(cfg, c.rq[k].value.address)
  }

  /** How many calls the read in slot `k` still waits at most, with `t` left for the next
      transfer: first the writes drain, then it is scheduled, then none can overtake it,
      then it is on the bus. */
  ghost function RankAt(cfg: Config, c: Channel, now: nat, k: nat, t: nat): nat
    requires Holds(cfg, c, k)
  {
    var r, i := c.rq[k].value, BankFor(cfg, c, k);
    if r.scheduled && c.active == Some(i) then t
    else if c.writeMode then ReadRank(cfg) + Weigh(cfg, Occupancy(c.wq) + ReadOnBus(c), t)
    else if !r.scheduled then
      ScheduledRank(cfg) + Weigh(cfg, Tally(c.rq, NotAfter(r.event)) + Tally(c.banks, IsValidBank()), t)
    else if now < c.banks[i].event then OvertakenRank(cfg) + (c.banks[i].event - now)
    else Weigh(cfg, Tally(c.banks, ReadyBy(c.banks[i].event)) + OnBus(c), t)
  }

  ghost function Rank(cfg: Config, c: Channel, now: nat, k: nat): nat
    requires Holds(cfg, c, k)
  {
    RankAt(cfg, c, now, k, Timer(cfg, c, now))
  }

  lemma TallyBound<T>(s: seq<T>, p: T -> bool)
    ensures Tally(s, p) <= |s|
  {
    TallyAtMost(s, s, p);
  }

  lemma BusSlot(cfg: Config, c: Channel, k: nat)
    requires Holds(cfg, c, k)
    ensures c.rq[k].value.scheduled ==> c.banks[BankFor(cfg, c, k)].valid
    ensures c.rq[k].value.scheduled && c.active != Some(BankFor(cfg, c, k)) ==> !c.writeMode
  {
    assert EntryLinked(cfg, c, false, k);
    assert c.rq[k].value.scheduled ==> BankLinked(cfg, c, BankFor(cfg, c, k));
  }

  lemma RankBounds(cfg: Config, c: Channel, now: nat, k: nat, t: nat)
    requires Holds(cfg, c, k) && Timely(cfg, c, now) && t <= Turn(cfg)
    ensures RankAt(cfg, c, now, k, t) + 1 < ServiceBound(cfg)
    ensures !c.writeMode ==> RankAt(cfg, c, now, k, t) < ReadRank(cfg)
    ensures c.rq[k].value.scheduled ==> RankAt(cfg, c, now, k, t) < ScheduledRank(cfg)
    ensures var b := c.banks[BankFor(cfg, c, k)];
      c.rq[k].value.scheduled && (b.event <= now || c.active == Some(BankFor(cfg, c, k))) ==>
        RankAt(cfg, c, now, k, t) < OvertakenRank(cfg)
  {
    var r, i := c.rq[k].value, BankFor(cfg, c, k);
    BusSlot(cfg, c, k);
    BoundOfRanks(cfg);
    TallyBound(c.wq, Occupied());
    TallyBound(c.rq, NotAfter(r.event));
    TallyBound(c.banks, IsValidBank());
    TallyBound(c.banks, ReadyBy(c.banks[i].event));
    WeighLess(cfg, cfg.wqSize + 2, 0, Occupancy(c.wq) + ReadOnBus(c), t);
    WeighLess(cfg, cfg.rqSize + |c.banks| + 1, 0, Tally(c.rq, NotAfter(r.event)) + Tally(c.banks, IsValidBank()), t);
    WeighLess(cfg, |c.banks| + 2, 0, Tally(c.banks, ReadyBy(c.banks[i].event)) + OnBus(c), t);
    WeighLess(cfg, |c.banks| + 2, 0, 0, t);
    hide Weigh, Tally, ServiceBound, Turn;
  }

  // ---- New requests and collisions ----

  /** Slot `k` keeps its checked read, and no other read gets as old as `event`. */
  ghost predicate Undisturbed(a: Queue, b: Queue, k: nat, event: nat) {
    && |a| == |b| && k < |a| && a[k].Some? && a[k].value.checked && b[k].Some? && b[k].value.checked
    && b[k].value.address == a[k].value.address && b[k].value.event == a[k].value.event
    && b[k].value.scheduled == a[k].value.scheduled
    && forall j :: 0 <= j < |a| && NotAfter(event)(b[j]) ==> NotAfter(event)(a[j])
  }

  lemma UndisturbedTrans(a: Queue, b: Queue, c: Queue, k: nat, event: nat)
    requires Undisturbed(a, b, k, event) && Undisturbed(b, c, k, event)
    ensures Undisturbed(a, c, k, event)
  {
  }

  lemma {:induction false} AddAllUndisturbed(q: Queue, rs: seq<Request>, now: nat, d: Queue, k: nat, event: nat)
    requires d == AddAll(q, rs, now) && event < now && k < |q| && q[k].Some? && q[k].value.checked
    ensures Undisturbed(q, d, k, event)
    decreases |rs|
  {
    if rs == [] {
    } else {
      var r, n := AddTo(q, rs[0], now), First(q, Empty());
      assert n < |q| ==> Empty()(q[n]);
      assert Undisturbed(q, r.0, k, event);
      if r.1 {
        AddAllUndisturbed(r.0, rs[1..], now, d, k, event);
        UndisturbedTrans(q, r.0, d, k, event);
      }
    }
  }

  lemma CheckReadUndisturbed(cfg: Config, rq: Queue, wq: Queue, out: seq<Response>, n: nat, k: nat, event: nat)
    requires cfg.blockSize > 0 && n < |rq| && k < |rq| && rq[k].Some? && rq[k].value.checked
    ensures Undisturbed(rq, CheckRead(cfg, rq, wq, out, n).0, k, event)
  {
    var d := CheckRead(cfg, rq, wq, out, n).0;
    forall j | 0 <= j < |rq| && NotAfter(event)(d[j]) ensures NotAfter(event)(rq[j]) { }
  }

  lemma {:induction false} CheckReadsUndisturbed(
    cfg: Config, rq: Queue, wq: Queue, out: seq<Response>, n: nat, d: Queue, k: nat, event: nat)
    requires cfg.blockSize > 0 && n <= |rq| && d == CheckReads(cfg, rq, wq, out, n).0
    requires k < |rq| && rq[k].Some? && rq[k].value.checked
    ensures Undisturbed(rq, d, k, event)
    decreases |rq| - n
  {
    if n == |rq| {
    } else {
      var r := CheckRead(cfg, rq, wq, out, n);
      CheckReadUndisturbed(cfg, rq, wq, out, n, k, event);
      hide CheckRead;
      CheckReadsUndisturbed(cfg, r.0, wq, r.1, n + 1, d, k, event);
      UndisturbedTrans(rq, r.0, d, k, event);
    }
  }

  lemma WeighMost(cfg: Config, n: nat, n': nat, t: nat)
    requires n' <= n
    ensures Weigh(cfg, n', t) <= Weigh(cfg, n, t)
  {
    assert n' * (Turn(cfg) + 1) <= n * (Turn(cfg) + 1);
  }

  /** Stages that touch the queues only, and disturb nothing, raise no rank. */
  lemma UndisturbedRank(cfg: Config, a: Channel, b: Channel, now: nat, k: nat, event: nat)
    requires Holds(cfg, a, k) && PointerInv(cfg, b) && Undisturbed(a.rq, b.rq, k, event)
    requires !a.rq[k].value.scheduled ==> event == a.rq[k].value.event
    requires forall j :: 0 <= j < |a.wq| && b.wq[j].Some? ==> a.wq[j].Some?
    requires b.banks == a.banks && b.active == a.active && b.writeMode == a.writeMode && b.busFree == a.busFree
    ensures Holds(cfg, b, k) && Rank(cfg, b, now, k) <= Rank(cfg, a, now, k)
    ensures Occupancy(b.wq) <= Occupancy(a.wq)
  {
    var t := Timer(cfg, a, now);
    assert Timer(cfg, b, now) == t;
    TallyAtMost(b.wq, a.wq, Occupied());
    TallyAtMost(b.rq, a.rq, NotAfter(event));
    WeighMost(cfg, Occupancy(a.wq) + ReadOnBus(a), Occupancy(b.wq) + ReadOnBus(b), t);
    WeighMost(cfg, Tally(a.rq, NotAfter(event)) + Tally(a.banks, IsValidBank()),
              Tally(b.rq, NotAfter(event)) + Tally(b.banks, IsValidBank()), t);
  }

  /** New requests and their collisions raise no rank. */
  lemma ArrivalsRank(cfg: Config, s: State, call: Call, k: nat, d: Channel)
    requires StateInv(cfg, s) && ValidCall(s, call) && s.now < call.now && call.writeRequests == []
    requires Holds(cfg, s.c, k)
    requires d == CheckCollision(cfg, Loaded(s, call)) && PointerInv(cfg, d)
    ensures Holds(cfg, d, k) && Rank(cfg, d, s.now, k) <= Rank(cfg, s.c, s.now, k)
    ensures Occupancy(d.wq) <= Occupancy(s.c.wq)
  {
    var c := Loaded(s, call);
    var event := if s.c.rq[k].value.scheduled then 0 else s.c.rq[k].value.event;
    AddAllUndisturbed(s.c.rq, call.readRequests, call.now, c.rq, k, event);
    CheckReadsUndisturbed(cfg, c.rq, d.wq, c.out, 0, d.rq, k, event);
    UndisturbedTrans(s.c.rq, c.rq, d.rq, k, event);
    CheckWritesFill(cfg, c.wq, 0, d.wq);
    hide CheckReads, CheckWrites, AddAll;
    assert c.wq == s.c.wq;
    UndisturbedRank(cfg, s.c, d, s.now, k, event);
  }

  // ---- The end of a transfer ----

  /** The transfer on the bus ends: its entry and its bank are free again. */
  ghost predicate Finishes(cfg: Config, c: Channel, d: Channel) {
    && cfg.Valid() && c.active.Some? && c.active.value < |c.banks| && c.banks[c.active.value].valid
    && d.active.None? && d.writeMode == c.writeMode && d.busFree == c.busFree
    && var i, s := c.active.value, c.banks[c.active.value].pkt;
    && s.index < |c.Q(s.write)| && c.Q(s.write)[s.index].Some? && c.Q(s.write)[s.index].value.scheduled
    && i == OpIndex(cfg, c.Q(s.write)[s.index].value.address)
    && d.banks == c.banks[i := c.banks[i].(valid := false)]
    && d.Q(s.write) == c.Q(s.write)[s.index := None] && d.Q(!s.write) == c.Q(!s.write)
  }

  lemma FinishCases(cfg: Config, c: Channel, now: nat, d: Channel)
    requires PointerInv(cfg, c) && d == FinishRequest(c, now)
    ensures if c.active.Some? && c.banks[c.active.value].event <= now then Finishes(cfg, c, d) else d == c
  {
    if c.active.Some? { assert BankLinked(cfg, c, c.active.value); }
  }

  /** A transfer that ends is a write less, or the read that was left on the bus. */
  lemma FinishWrites(cfg: Config, c: Channel, d: Channel)
    requires Finishes(cfg, c, d)
    ensures Occupancy(d.wq) + ReadOnBus(d) < Occupancy(c.wq) + ReadOnBus(c)
  {
    var s := c.banks[c.active.value].pkt;
    TallyUpdate(c.Q(s.write), s.index, None, Occupied());
  }

  lemma FinishReads(cfg: Config, c: Channel, d: Channel, event: nat)
    requires Finishes(cfg, c, d)
    ensures Tally(d.rq, NotAfter(event)) + Tally(d.banks, IsValidBank())
              < Tally(c.rq, NotAfter(event)) + Tally(c.banks, IsValidBank())
  {
    var i, s := c.active.value, c.banks[c.active.value].pkt;
    TallyUpdate(c.banks, i, c.banks[i].(valid := false), IsValidBank());
    TallyUpdate(c.Q(s.write), s.index, None, NotAfter(event));
  }

  lemma FinishReady(cfg: Config, c: Channel, d: Channel, event: nat)
    requires Finishes(cfg, c, d)
    ensures Tally(d.banks, ReadyBy(event)) + OnBus(d) < Tally(c.banks, ReadyBy(event)) + OnBus(c)
  {
    var i := c.active.value;
    TallyUpdate(c.banks, i, c.banks[i].(valid := false), ReadyBy(event));
  }

  /** In read mode the read is scheduled, but a later one could still be ready first. */
  ghost predicate Overtakable(cfg: Config, c: Channel, now: nat, k: nat)
    requires Holds(cfg, c, k)
  {
    !c.writeMode && c.rq[k].value.scheduled && now < c.banks[BankFor(cfg, c, k)].event
    && c.active != Some(BankFor(cfg, c, k))
  }

  lemma FinishKeepsOthers(cfg: Config, c: Channel, k: nat, d: Channel)
    requires Holds(cfg, c, k) && PointerInv(cfg, d) && Finishes(cfg, c, d) && d.rq[k].Some?
    ensures Holds(cfg, d, k) && d.rq[k] == c.rq[k]
    ensures d.banks[BankFor(cfg, c, k)].event == c.banks[BankFor(cfg, c, k)].event
    ensures c.rq[k].value.scheduled ==> c.active != Some(BankFor(cfg, c, k))
  {
    assert EntryLinked(cfg, c, false, k);
  }

  /** A transfer that ends answers the read, or lowers its rank by a whole turn unless the
      read can still be overtaken. */
  lemma FinishRank(cfg: Config, c: Channel, now: nat, k: nat, d: Channel, t: nat, t': nat)
    requires Holds(cfg, c, k) && PointerInv(cfg, d) && Finishes(cfg, c, d) && t' <= Turn(cfg) && d.rq[k].Some?
    ensures Holds(cfg, d, k)
    ensures Overtakable(cfg, c, now, k) ==>
              Overtakable(cfg, d, now, k) && RankAt(cfg, d, now, k, t') == RankAt(cfg, c, now, k, t)
    ensures !Overtakable(cfg, c, now, k) ==> RankAt(cfg, d, now, k, t') < RankAt(cfg, c, now, k, t)
  {
    var r, event := c.rq[k].value, c.banks[BankFor(cfg, c, k)].event;
    FinishKeepsOthers(cfg, c, k, d);
    FinishWrites(cfg, c, d);
    FinishReads(cfg, c, d, r.event);
    FinishReady(cfg, c, d, event);
    WeighLess(cfg, Occupancy(c.wq) + ReadOnBus(c), t, Occupancy(d.wq) + ReadOnBus(d), t');
    WeighLess(cfg, Tally(c.rq, NotAfter(r.event)) + Tally(c.banks, IsValidBank()), t,
              Tally(d.rq, NotAfter(r.event)) + Tally(d.banks, IsValidBank()), t');
    WeighLess(cfg, Tally(c.banks, ReadyBy(event)) + OnBus(c), t, Tally(d.banks, ReadyBy(event)) + OnBus(d), t');
    hide PointerInv, Weigh, Tally;
  }

  // ---- The bus and the banks ----

  /** Bank `i`, the one ready first, gets the bus. */
  ghost predicate TakesBus(cfg: Config, c: Channel, now: nat, d: Channel, i: nat) {
    && c.active.None? && d.active == Some(i) && i < |c.banks| && c.banks[i].valid && c.banks[i].event <= now
    && d.banks == c.banks[i := c.banks[i].(event := now + cfg.returnTime)]
    && d.rq == c.rq && d.wq == c.wq && d.writeMode == c.writeMode
    && forall j :: 0 <= j < |c.banks| && c.banks[j].valid ==> c.banks[i].event <= c.banks[j].event
  }

  lemma BusCases(cfg: Config, c: Channel, now: nat, d: Channel)
    requires PointerInv(cfg, c) && d == UseBus(cfg, c, now)
    ensures d == c.(congestion := d.congestion) || exists i: nat :: TakesBus(cfg, c, now, d, i)
  {
    var i := Scan(c.banks, IsValidBank(), BankUrgency());
    if c.banks[i].valid {
      BusiestBank(c, i);
      if d.active != c.active { assert TakesBus(cfg, c, now, d, i); }
    }
  }

  /** Entry `n`, the oldest unscheduled one of the current mode, gets its free bank. */
  ghost predicate Schedules(cfg: Config, c: Channel, now: nat, d: Channel, n: nat) {
    && cfg.Valid() && |c.banks| == cfg.ranks * cfg.banks && d.active == c.active && d.writeMode == c.writeMode
    && d.Q(!c.writeMode) == c.Q(!c.writeMode)
    && var q := c.Q(c.writeMode);
    && n < |q| && q[n].Some? && !q[n].value.scheduled && q[n].value.event <= now
    && (forall j :: 0 <= j < |q| && q[j].Some? && !q[j].value.scheduled ==> q[n].value.event <= q[j].value.event)
    && d.Q(c.writeMode) == q[n := Some(q[n].value.(scheduled := true, event := NEVER))]
    && var i := OpIndex(cfg, q[n].value.address);
    && !c.banks[i].valid && |d.banks| == |c.banks| && d.banks == c.banks[i := d.banks[i]]
    && d.banks[i].valid && now <= d.banks[i].event <= now + Access(cfg)
  }

  lemma ScheduleCases(cfg: Config, c: Channel, now: nat, d: Channel)
    requires PointerInv(cfg, c) && now < NEVER && d == ScheduleRequest(cfg, c, now)
    ensures d == c || exists n: nat :: Schedules(cfg, c, now, d, n)
  {
    var q := c.Q(c.writeMode);
    var n := Scan(q, Unscheduled(), RequestAge());
    if q[n].Some? && q[n].value.event <= now && !c.banks[OpIndex(cfg, q[n].value.address)].valid {
      DueIsUnscheduled(cfg, c, now, n);
      OldestUnscheduled(q, n);
      hide PointerInv, Scan;
      assert Schedules(cfg, c, now, d, n);
    }
  }

  lemma OldestUnscheduled(q: Queue, n: nat)
    requires q != [] && n == Scan(q, Unscheduled(), RequestAge()) && q[n].Some? && !q[n].value.scheduled
    ensures forall j :: 0 <= j < |q| && q[j].Some? && !q[j].value.scheduled ==> q[n].value.event <= q[j].value.event
  {
    ScanSelects(q, Unscheduled(), RequestAge());
    assert Unscheduled()(q[n]);
    forall j | 0 <= j < |q| && q[j].Some? && !q[j].value.scheduled ensures q[n].value.event <= q[j].value.event {
      assert Unscheduled()(q[j]) && RequestAge()(q[j]) <= RequestAge()(q[n]);
    }
  }

  lemma BusWrites(cfg: Config, c: Channel, now: nat, d: Channel, i: nat)
    requires PointerInv(cfg, c) && TakesBus(cfg, c, now, d, i)
    ensures c.writeMode ==> ReadOnBus(d) == ReadOnBus(c)
    ensures Tally(d.banks, IsValidBank()) == Tally(c.banks, IsValidBank())
  {
    assert BankLinked(cfg, c, i);
    TallyUpdate(c.banks, i, d.banks[i], IsValidBank());
  }

  lemma BusReady(cfg: Config, c: Channel, now: nat, d: Channel, i: nat, event: nat)
    requires TakesBus(cfg, c, now, d, i) && c.banks[i].event <= event < now
    ensures Tally(d.banks, ReadyBy(event)) + OnBus(d) == Tally(c.banks, ReadyBy(event)) + OnBus(c)
  {
    TallyUpdate(c.banks, i, d.banks[i], ReadyBy(event));
  }

  lemma TakesBusRank(cfg: Config, c: Channel, now: nat, later: nat, k: nat, d: Channel, i: nat, t: nat)
    requires Holds(cfg, c, k) && TakesBus(cfg, c, later, d, i) && Holds(cfg, d, k) && now < later && t <= Turn(cfg)
    requires Timely(cfg, d, later)
    ensures RankAt(cfg, d, later, k, t) <= RankAt(cfg, c, now, k, t)
    ensures Overtakable(cfg, c, now, k) ==> RankAt(cfg, d, later, k, t) < RankAt(cfg, c, now, k, t)
  {
    var b := BankFor(cfg, c, k);
    var r, event := c.rq[k].value, c.banks[b].event;
    BusSlot(cfg, c, k);
    RankBounds(cfg, d, later, k, t);
    BusWrites(cfg, c, later, d, i);
    if r.scheduled && !c.writeMode && event <= now {
      BusReady(cfg, c, later, d, i, event);
      TallyPositive(c.banks, b, ReadyBy(event));
      WeighMost(cfg, Tally(c.banks, ReadyBy(event)), 1, t);
    }
    hide PointerInv, Weigh, Tally, Timely;
  }

  /** The bus step raises no rank, and lowers that of a read that can be overtaken. */
  lemma BusRank(cfg: Config, c: Channel, now: nat, later: nat, k: nat, d: Channel, t: nat)
    requires Holds(cfg, c, k) && d == UseBus(cfg, c, later) && Holds(cfg, d, k) && now < later && t <= Turn(cfg)
    requires Timely(cfg, d, later)
    ensures RankAt(cfg, d, later, k, t) <= RankAt(cfg, c, now, k, t)
    ensures Overtakable(cfg, c, now, k) ==> RankAt(cfg, d, later, k, t) < RankAt(cfg, c, now, k, t)
  {
    BusCases(cfg, c, later, d);
    hide UseBus;
    if d == c.(congestion := d.congestion) {
      BusSlot(cfg, c, k);
      RankBounds(cfg, d, later, k, t);
      hide PointerInv, Tally, Timely;
    } else {
      hide RankAt, Overtakable;
      var i: nat :| TakesBus(cfg, c, later, d, i);
      TakesBusRank(cfg, c, now, later, k, d, i, t);
    }
  }

  lemma ScheduleWrites(cfg: Config, c: Channel, now: nat, d: Channel, n: nat)
    requires Schedules(cfg, c, now, d, n)
    ensures Occupancy(d.wq) == Occupancy(c.wq)
  {
    if c.writeMode { TallyUpdate(c.wq, n, d.wq[n], Occupied()); }
  }

  lemma ScheduleReads(cfg: Config, c: Channel, now: nat, d: Channel, n: nat, event: nat)
    requires Schedules(cfg, c, now, d, n) && !c.writeMode && c.rq[n].value.event <= event
    ensures Tally(d.rq, NotAfter(event)) + Tally(d.banks, IsValidBank()) ==
              Tally(c.rq, NotAfter(event)) + Tally(c.banks, IsValidBank())
  {
    var i := OpIndex(cfg, c.rq[n].value.address);
    TallyUpdate(c.rq, n, d.rq[n], NotAfter(event));
    TallyUpdate(c.banks, i, d.banks[i], IsValidBank());
  }

  lemma ScheduleReady(cfg: Config, c: Channel, now: nat, d: Channel, n: nat, event: nat)
    requires Schedules(cfg, c, now, d, n) && event < now
    ensures Tally(d.banks, ReadyBy(event)) == Tally(c.banks, ReadyBy(event))
  {
    var i := OpIndex(cfg, c.Q(c.writeMode)[n].value.address);
    TallyUpdate(c.banks, i, d.banks[i], ReadyBy(event));
  }

  lemma ScheduleSlot(cfg: Config, c: Channel, now: nat, k: nat, d: Channel, n: nat)
    requires Holds(cfg, c, k) && Schedules(cfg, c, now, d, n) && PointerInv(cfg, d)
    ensures Holds(cfg, d, k) && BankFor(cfg, d, k) == BankFor(cfg, c, k) && ReadOnBus(d) == ReadOnBus(c)
    ensures d.rq[k] == c.rq[k] || (d.rq[k].value.scheduled && !c.rq[k].value.scheduled && !c.writeMode)
    ensures c.rq[k].value.scheduled ==> d.banks[BankFor(cfg, c, k)] == c.banks[BankFor(cfg, c, k)]
    ensures c.rq[k].value.scheduled && c.active != Some(BankFor(cfg, c, k)) ==> !c.writeMode
  {
    assert EntryLinked(cfg, c, false, k);
    assert c.rq[k].value.scheduled ==> BankLinked(cfg, c, BankFor(cfg, c, k));
  }

  /** The scheduling step raises no rank, unless the read's bank is ready this very cycle. */
  lemma ScheduleRank(cfg: Config, c: Channel, now: nat, k: nat, d: Channel, n: nat, t: nat)
    requires Holds(cfg, c, k) && Schedules(cfg, c, now, d, n) && Holds(cfg, d, k)
    requires Timely(cfg, d, now) && t <= Turn(cfg)
    requires c.rq[k].value.scheduled && c.active != Some(BankFor(cfg, c, k)) ==>
              c.banks[BankFor(cfg, c, k)].event != now
    ensures RankAt(cfg, d, now, k, t) <= RankAt(cfg, c, now, k, t)
  {
    var r, event := c.rq[k].value, c.banks[BankFor(cfg, c, k)].event;
    ScheduleSlot(cfg, c, now, k, d, n);
    RankBounds(cfg, d, now, k, t);
    ScheduleWrites(cfg, c, now, d, n);
    if !r.scheduled && !c.writeMode { ScheduleReads(cfg, c, now, d, n, r.event); }
    if event < now { ScheduleReady(cfg, c, now, d, n, event); }
    hide PointerInv, Weigh, Tally, Schedules, Timely;
  }

  /** A read whose bank is ready this very cycle cannot be overtaken any more. */
  lemma ReadyRank(cfg: Config, c: Channel, now: nat, later: nat, k: nat, d: Channel, t: nat)
    requires Holds(cfg, c, k) && d == ScheduleRequest(cfg, c, later) && PointerInv(cfg, d) && later < NEVER
    requires now < later && t <= Turn(cfg) && Timely(cfg, d, later)
    requires var b := BankFor(cfg, c, k); c.rq[k].value.scheduled && c.active != Some(b) && c.banks[b].event == later
    ensures Holds(cfg, d, k) && RankAt(cfg, d, later, k, t) < RankAt(cfg, c, now, k, t)
  {
    var b := BankFor(cfg, c, k);
    assert EntryLinked(cfg, c, false, k);
    assert BankLinked(cfg, c, b);
    ScheduleCases(cfg, c, later, d);
    hide ScheduleRequest;
    RankBounds(cfg, d, later, k, t);
  }

  /** Without a mode switch, what follows the end of transfers raises no rank, and lowers
      that of a read that can be overtaken. */
  lemma LateRank(cfg: Config, c: Channel, now: nat, later: nat, k: nat, d: Channel, t: nat)
    requires Holds(cfg, c, k) && d == ScheduleRequest(cfg, UseBus(cfg, c, later), later) && PointerInv(cfg, d)
    requires now < later < NEVER && t <= Turn(cfg) && Timely(cfg, c, now)
    ensures Holds(cfg, d, k) && RankAt(cfg, d, later, k, t) <= RankAt(cfg, c, now, k, t)
    ensures Overtakable(cfg, c, now, k) ==> RankAt(cfg, d, later, k, t) < RankAt(cfg, c, now, k, t)
  {
    var c1 := UseBus(cfg, c, later);
    UseBusPointers(cfg, c, later);
    UseBusTimely(cfg, c, later, c1);
    LateTimely(cfg, c, later, d);
    SameSlot(cfg, c, later, k, c1);
    BusRank(cfg, c, now, later, k, c1, t);
    hide *;
    AfterBusRank(cfg, c, now, later, k, c1, d, t);
  }

  lemma AfterBusRank(cfg: Config, c: Channel, now: nat, later: nat, k: nat, c1: Channel, d: Channel, t: nat)
    requires Holds(cfg, c, k) && now < later < NEVER && t <= Turn(cfg)
    requires c1 == UseBus(cfg, c, later) && Holds(cfg, c1, k)
    requires RankAt(cfg, c1, later, k, t) <= RankAt(cfg, c, now, k, t)
    requires Overtakable(cfg, c, now, k) ==> RankAt(cfg, c1, later, k, t) < RankAt(cfg, c, now, k, t)
    requires d == ScheduleRequest(cfg, c1, later) && PointerInv(cfg, d) && Timely(cfg, d, later)
    ensures Holds(cfg, d, k) && RankAt(cfg, d, later, k, t) <= RankAt(cfg, c, now, k, t)
    ensures Overtakable(cfg, c, now, k) ==> RankAt(cfg, d, later, k, t) < RankAt(cfg, c, now, k, t)
  {
    hide UseBus, ScheduleRequest, RankAt, Overtakable;
    var b := BankFor(cfg, c1, k);
    if c1.rq[k].value.scheduled && c1.active != Some(b) && c1.banks[b].event == later {
      SameSlot(cfg, c, later, k, c1);
      ReadyRank(cfg, c1, now, later, k, d, t);
      ReadyBefore(cfg, c, now, later, k, c1, t);
    } else {
      ScheduleAny(cfg, c1, later, k, d, t);
    }
  }

  lemma SameSlot(cfg: Config, c: Channel, now: nat, k: nat, d: Channel)
    requires Holds(cfg, c, k) && d == UseBus(cfg, c, now)
    ensures d.rq == c.rq
  {
  }

  lemma ScheduleAny(cfg: Config, c: Channel, now: nat, k: nat, d: Channel, t: nat)
    requires Holds(cfg, c, k) && d == ScheduleRequest(cfg, c, now) && PointerInv(cfg, d) && now < NEVER
    requires Timely(cfg, d, now) && t <= Turn(cfg)
    requires c.rq[k].value.scheduled && c.active != Some(BankFor(cfg, c, k)) ==>
              c.banks[BankFor(cfg, c, k)].event != now
    ensures Holds(cfg, d, k) && RankAt(cfg, d, now, k, t) <= RankAt(cfg, c, now, k, t)
  {
    ScheduleCases(cfg, c, now, d);
    hide RankAt, ScheduleRequest;
    if d != c {
      var n: nat :| Schedules(cfg, c, now, d, n);
      ScheduleSlot(cfg, c, now, k, d, n);
      ScheduleRank(cfg, c, now, k, d, n, t);
    }
  }

  /** Until its bank is ready, a read's rank only counts the cycles to go. */
  lemma ReadyBefore(cfg: Config, c: Channel, now: nat, later: nat, k: nat, d: Channel, t: nat)
    requires Holds(cfg, c, k) && d == UseBus(cfg, c, later) && Holds(cfg, d, k) && now < later
    requires var b := BankFor(cfg, c, k); c.rq[k].value.scheduled && d.active != Some(b) && d.banks[b].event == later
    ensures Overtakable(cfg, c, now, k) && RankAt(cfg, d, now, k, t) == RankAt(cfg, c, now, k, t)
  {
    assert EntryLinked(cfg, c, false, k);
    assert BankLinked(cfg, c, BankFor(cfg, c, k));
  }

  // ---- One call ----

  /** The shorter the time to the next transfer, the lower the rank. */
  lemma RankMonotone(cfg: Config, c: Channel, now: nat, k: nat, t: nat, t': nat)
    requires Holds(cfg, c, k) && t' < t
    ensures RankAt(cfg, c, now, k, t') <= RankAt(cfg, c, now, k, t)
    ensures !Overtakable(cfg, c, now, k) ==> RankAt(cfg, c, now, k, t') < RankAt(cfg, c, now, k, t)
  {
  }

  /** Work in the current mode keeps some bank busy. */
  lemma WorkKeepsBusy(cfg: Config, c: Channel, now: nat, d: Channel)
    requires ChannelInv(cfg, c, now, false) && now < NEVER && d == ScheduleRequest(cfg, UseBus(cfg, c, now), now)
    requires exists j :: 0 <= j < |c.Q(c.writeMode)| && c.Q(c.writeMode)[j].Some?
    ensures HasBusyBank(c) || HasBusyBank(d)
  {
    if !HasBusyBank(c) {
      assert !IsValidBank()(c.banks[Scan(c.banks, IsValidBank(), BankUrgency())]);
      assert UseBus(cfg, c, now) == c;
      FreeBanksSchedule(cfg, c, now);
    }
  }

  lemma LateRuns(cfg: Config, c: Channel, now: nat, d: Channel)
    requires ChannelInv(cfg, c, now, false) && CheckedBelow(c.rq, |c.rq|) && CheckedBelow(c.wq, |c.wq|) && now < NEVER
    requires d == ScheduleRequest(cfg, UseBus(cfg, c, now), now)
    ensures ChannelInv(cfg, d, now, false)
    ensures |d.rq| == |c.rq| && |d.wq| == |c.wq| && d.writeMode == c.writeMode
    ensures forall j :: 0 <= j < |c.rq| ==> (d.rq[j].Some? <==> c.rq[j].Some?)
    ensures forall j :: 0 <= j < |c.wq| ==> (d.wq[j].Some? <==> c.wq[j].Some?)
    ensures CheckedBelow(d.rq, |d.rq|)
    ensures forall j :: 0 <= j < |c.rq| && c.rq[j].Some? ==> d.rq[j].value.address == c.rq[j].value.address
  {
    var c1 := UseBus(cfg, c, now);
    UseBusKeeps(cfg, c, now, false, c1);
    ScheduleKeeps(cfg, c1, now, false, d);
    ScheduleCases(cfg, c1, now, d);
  }

  /** A call that leaves the mode alone answers the read or lowers its rank. */
  lemma SameModeRank(cfg: Config, c1: Channel, now: nat, later: nat, k: nat, c2: Channel, d: Channel)
    requires Holds(cfg, c1, k) && Timely(cfg, c1, now) && now < later < NEVER && c2 == FinishRequest(c1, later)
    requires ChannelInv(cfg, c2, later, false) && CheckedBelow(c2.rq, |c2.rq|) && CheckedBelow(c2.wq, |c2.wq|)
    requires d == ScheduleRequest(cfg, UseBus(cfg, c2, later), later) && PointerInv(cfg, d) && !Unbalanced(cfg, c2)
    ensures d.rq[k].None? || (Holds(cfg, d, k) && Rank(cfg, d, later, k) < Rank(cfg, c1, now, k))
  {
    LateRuns(cfg, c2, later, d);
    if c2.rq[k].Some? {
      FinishCases(cfg, c1, later, c2);
      assert Timely(cfg, c2, now);
      hide FinishRequest, UseBus, ScheduleRequest, Unbalanced;
      LateTimely(cfg, c2, later, d) by { assert Timely(cfg, c2, later); }
      TimerBound(cfg, d, later);
      var t, t' := Timer(cfg, c1, now), Timer(cfg, d, later);
      if c2 != c1 {
        FinishRank(cfg, c1, now, k, c2, t, t');
      } else {
        BalancedWork(cfg, c2, k);
        WorkKeepsBusy(cfg, c2, later, d);
        TimerTicks(cfg, c2, now, later, d);
        RankMonotone(cfg, c1, now, k, t, t');
      }
      LateRank(cfg, c2, now, later, k, d, t');
    }
  }

  lemma BalancedWork(cfg: Config, c: Channel, k: nat)
    requires !Unbalanced(cfg, c) && k < |c.rq| && c.rq[k].Some?
    ensures exists j :: 0 <= j < |c.Q(c.writeMode)| && c.Q(c.writeMode)[j].Some?
  {
    OccupancyPositive(c.wq);
    if c.writeMode {
      var j :| 0 <= j < |c.wq| && c.wq[j].Some?;
      assert c.Q(c.writeMode)[j].Some?;
    } else {
      assert c.Q(c.writeMode)[k].Some?;
    }
  }

  /** Read mode with fewer writes than the high mark: it lasts as long as a read waits. */
  ghost predicate Settled(cfg: Config, c: Channel) {
    c.writeMode || Occupancy(c.wq) < cfg.HighMark()
  }

  lemma SwitchSettles(cfg: Config, c: Channel, now: nat, d: Channel)
    requires d == SwitchMode(cfg, c, now) && cfg.wqSize >= 2
    ensures Settled(cfg, d)
    ensures forall j :: 0 <= j < |c.rq| ==> |d.rq| == |c.rq| && (d.rq[j].Some? <==> c.rq[j].Some?)
  {
    UnscheduleAllOccupancy(cfg, c, 0, now);
    OccupancySame(c.wq, d.wq);
  }

  lemma OccupancySame(a: Queue, b: Queue)
    requires |a| == |b| && forall j :: 0 <= j < |a| ==> (b[j].Some? <==> a[j].Some?)
    ensures Occupancy(b) == Occupancy(a)
  {
    TallySame(b, a, Occupied());
  }

  lemma StaysReading(cfg: Config, c: Channel, k: nat)
    requires Settled(cfg, c) && !c.writeMode && k < |c.rq| && c.rq[k].Some?
    ensures !Unbalanced(cfg, c)
  {
    OccupancyPositive(c.rq);
  }

  /** A call that ends the writes answers the read or lowers its rank. */
  lemma SwitchRank(cfg: Config, c1: Channel, now: nat, later: nat, k: nat, c2: Channel, c3: Channel, d: Channel)
    requires Holds(cfg, c1, k) && Timely(cfg, c1, now) && now < later < NEVER && c2 == FinishRequest(c1, later)
    requires ChannelInv(cfg, c2, later, false) && CheckedBelow(c2.rq, |c2.rq|) && CheckedBelow(c2.wq, |c2.wq|)
    requires c3 == SwitchMode(cfg, c2, later) && c3.writeMode != c2.writeMode && c2.writeMode && PointerInv(cfg, c3)
    requires d == ScheduleRequest(cfg, UseBus(cfg, c3, later), later) && Timely(cfg, d, later)
    ensures d.rq[k].None? || (Holds(cfg, d, k) && Rank(cfg, d, later, k) < Rank(cfg, c1, now, k))
  {
    FinishCases(cfg, c1, later, c2);
    UnscheduleAllOccupancy(cfg, c2, 0, later);
    SwitchKeeps(cfg, c2, later, false, c3);
    SwitchPointers(cfg, c2, later, c3);
    hide FinishRequest, SwitchMode;
    LateRuns(cfg, c3, later, d);
    TimerBound(cfg, d, later);
    if d.rq[k].Some? {
      if c2 == c1 && c1.rq[k].value.scheduled && c1.active == Some(BankFor(cfg, c1, k)) {
        OnBusRank(cfg, c1, now, later, k, c3, d);
      } else {
        RankBounds(cfg, d, later, k, Timer(cfg, d, later));
        ReadRankAtLeast(cfg, c1, now, later, k, c2);
      }
    }
  }

  lemma ReadRankAtLeast(cfg: Config, c1: Channel, now: nat, later: nat, k: nat, c2: Channel)
    requires Holds(cfg, c1, k) && c2 == FinishRequest(c1, later) && c1.writeMode && c2.rq[k].Some?
    requires !(c2 == c1 && c1.rq[k].value.scheduled && c1.active == Some(BankFor(cfg, c1, k)))
    ensures Rank(cfg, c1, now, k) >= ReadRank(cfg)
  {
    FinishCases(cfg, c1, later, c2);
    assert EntryLinked(cfg, c1, false, k);
  }

  /** A transfer on the bus runs on through a change of mode. */
  lemma OnBusRank(cfg: Config, c1: Channel, now: nat, later: nat, k: nat, c3: Channel, d: Channel)
    requires Holds(cfg, c1, k) && c1.rq[k].value.scheduled && c1.active == Some(BankFor(cfg, c1, k))
    requires now < later < NEVER
    requires PointerInv(cfg, c3) && c3.active == c1.active && c1.banks[BankFor(cfg, c1, k)].event > later
    requires c3.banks[BankFor(cfg, c1, k)] == c1.banks[BankFor(cfg, c1, k)]
    requires d == ScheduleRequest(cfg, UseBus(cfg, c3, later), later) && PointerInv(cfg, d)
    ensures Holds(cfg, d, k) && Rank(cfg, d, later, k) < Rank(cfg, c1, now, k)
  {
    var b := BankFor(cfg, c1, k);
    assert EntryLinked(cfg, c1, false, k);
    assert d.banks[b] == c1.banks[b] && d.active == Some(b);
    assert BankLinked(cfg, d, b);
    assert EntryLinked(cfg, d, false, k);
  }

  lemma {:induction false} UnscheduleAllAddresses(cfg: Config, c: Channel, k: nat, now: nat)
    requires k <= |c.banks|
    ensures var q := UnscheduleAll(cfg, c, k, now).rq;
      |q| == |c.rq|
      && forall j :: 0 <= j < |q| && q[j].Some? ==> c.rq[j].Some? && q[j].value.address == c.rq[j].value.address
    decreases |c.banks| - k
  {
    if k == |c.banks| {
    } else {
      var next := Unschedule(cfg, c, k, now);
      assert forall j :: 0 <= j < |c.rq| && next.rq[j].Some? ==>
          c.rq[j].Some? && next.rq[j].value.address == c.rq[j].value.address;
      UnscheduleAllAddresses(cfg, next, k + 1, now);
    }
  }

  /** Stages after the collision check move no read, and only the end of a transfer
      removes one. */
  lemma ReadsStayPut(cfg: Config, c1: Channel, now: nat, d: Channel)
    requires ChannelInv(cfg, c1, now, false) && CheckedBelow(c1.rq, |c1.rq|) && CheckedBelow(c1.wq, |c1.wq|)
    requires now < NEVER
    requires var c3 := SwitchMode(cfg, FinishRequest(c1, now), now);
      PointerInv(cfg, c3) && d == ScheduleRequest(cfg, UseBus(cfg, c3, now), now)
    ensures |d.rq| == |c1.rq| && CheckedBelow(d.rq, |d.rq|) && (cfg.wqSize >= 2 ==> Settled(cfg, d))
    ensures forall j :: 0 <= j < |d.rq| && d.rq[j].Some? ==>
              c1.rq[j].Some? && d.rq[j].value.address == c1.rq[j].value.address
  {
    var c2 := FinishRequest(c1, now);
    FinishKeeps(cfg, c1, now, false, c2);
    FinishCases(cfg, c1, now, c2);
    hide FinishRequest, UseBus, ScheduleRequest;
    SwitchStaysPut(cfg, c2, now, SwitchMode(cfg, c2, now), d);
  }

  lemma SwitchStaysPut(cfg: Config, c2: Channel, now: nat, c3: Channel, d: Channel)
    requires ChannelInv(cfg, c2, now, false) && CheckedBelow(c2.rq, |c2.rq|) && CheckedBelow(c2.wq, |c2.wq|)
    requires now < NEVER
    requires c3 == SwitchMode(cfg, c2, now) && PointerInv(cfg, c3)
    requires d == ScheduleRequest(cfg, UseBus(cfg, c3, now), now)
    ensures |d.rq| == |c2.rq| && CheckedBelow(d.rq, |d.rq|) && (cfg.wqSize >= 2 ==> Settled(cfg, d))
    ensures forall j :: 0 <= j < |d.rq| && d.rq[j].Some? ==>
              c2.rq[j].Some? && d.rq[j].value.address == c2.rq[j].value.address
  {
    SwitchKeeps(cfg, c2, now, false, c3);
    UnscheduleAllAddresses(cfg, c2, 0, now);
    assert forall j :: 0 <= j < |c3.rq| && c3.rq[j].Some? ==>
        c2.rq[j].Some? && c3.rq[j].value.address == c2.rq[j].value.address;
    if cfg.wqSize >= 2 { SwitchSettles(cfg, c2, now, c3); }
    hide SwitchMode, UseBus, ScheduleRequest;
    LateRuns(cfg, c3, now, d);
    hide PointerInv, QueueInv;
    OccupancySame(c3.wq, d.wq);
  }

  lemma StagesRank(cfg: Config, c1: Channel, now: nat, later: nat, k: nat, c2: Channel, c3: Channel, d: Channel)
    requires Holds(cfg, c1, k) && Timely(cfg, c1, now) && Settled(cfg, c1) && now < later < NEVER
    requires c2 == FinishRequest(c1, later) && ChannelInv(cfg, c2, later, false)
    requires CheckedBelow(c2.rq, |c2.rq|) && CheckedBelow(c2.wq, |c2.wq|)
    requires c3 == SwitchMode(cfg, c2, later) && PointerInv(cfg, c3)
    requires d == ScheduleRequest(cfg, UseBus(cfg, c3, later), later) && Timely(cfg, d, later) && cfg.wqSize >= 2
    ensures PointerInv(cfg, d) && |d.rq| == |c1.rq|
    ensures d.rq[k].None? || (Holds(cfg, d, k) && Rank(cfg, d, later, k) < Rank(cfg, c1, now, k))
  {
    FinishCases(cfg, c1, later, c2);
    if c2 != c1 { FinishWrites(cfg, c1, c2); }
    SwitchKeeps(cfg, c2, later, false, c3);
    SwitchPointers(cfg, c2, later, c3);
    SwitchSettles(cfg, c2, later, c3);
    hide FinishRequest, SwitchMode, UseBus, ScheduleRequest, Unbalanced, Timely, Rank;
    LateRuns(cfg, c3, later, d);
    hide PointerInv;
    if c3.writeMode == c2.writeMode {
      SameModeRank(cfg, c1, now, later, k, c2, d);
    } else if c2.writeMode {
      SwitchRank(cfg, c1, now, later, k, c2, c3, d);
    } else if c2.rq[k].Some? {
      WritesStayFew(cfg, c1, c2);
      StaysReading(cfg, c2, k);
    }
  }

  lemma WritesStayFew(cfg: Config, c1: Channel, c2: Channel)
    requires Settled(cfg, c1) && (c2 == c1 || Finishes(cfg, c1, c2))
    ensures Settled(cfg, c2)
  {
    if c2 != c1 {
      var s := c1.banks[c1.active.value].pkt;
      TallyUpdate(c1.Q(s.write), s.index, None, Occupied());
    }
  }

  /** The stages of a call outside warm-up, and what holds between them. */
  lemma CallStages(cfg: Config, c: Channel, now: nat, c1: Channel, c2: Channel, c3: Channel, d: Channel)
    requires ChannelInv(cfg, c, now, false) && d == Operate(cfg, c, now, false)
    requires c1 == CheckCollision(cfg, c) && c2 == FinishRequest(c1, now) && c3 == SwitchMode(cfg, c2, now)
    ensures ChannelInv(cfg, c1, now, false) && CheckedBelow(c1.rq, |c1.rq|) && CheckedBelow(c1.wq, |c1.wq|)
    ensures ChannelInv(cfg, c2, now, false) && CheckedBelow(c2.rq, |c2.rq|) && CheckedBelow(c2.wq, |c2.wq|)
    ensures PointerInv(cfg, c3) && d == ScheduleRequest(cfg, UseBus(cfg, c3, now), now)
  {
    CollisionKeeps(cfg, c, now, false, c1);
    BeforeSwitchKeeps(cfg, c, now, false, c2);
    SwitchKeeps(cfg, c2, now, false, c3);
    hide CheckCollision, FinishRequest, SwitchMode, UseBus, ScheduleRequest;
  }

  /** A call outside warm-up answers the read in slot `k` or lowers its rank. */
  lemma CallRank(cfg: Config, s: State, call: Call, k: nat, d: Channel)
    requires StateInv(cfg, s) && Timely(cfg, s.c, s.now) && Settled(cfg, s.c) && Holds(cfg, s.c, k) && cfg.wqSize >= 2
    requires ValidCall(s, call) && s.now < call.now && call.writeRequests == [] && !(s.warmup && !call.endsWarmup)
    requires d == Operate(cfg, Loaded(s, call), call.now, false)
    ensures |d.rq| == |s.c.rq|
    ensures (d.rq[k].None? || (Holds(cfg, d, k) && Rank(cfg, d, call.now, k) < Rank(cfg, s.c, s.now, k)))
  {
    var c, now := Loaded(s, call), call.now;
    var c1 := CheckCollision(cfg, c);
    var c2 := FinishRequest(c1, now);
    var c3 := SwitchMode(cfg, c2, now);
    LoadedKeeps(cfg, s, call, c);
    CallStages(cfg, c, now, c1, c2, c3, d);
    assert c1.banks == s.c.banks && c1.active == s.c.active;
    assert c1.busFree == s.c.busFree && c1.writeMode == s.c.writeMode;
    ArrivalsRank(cfg, s, call, k, c1);
    assert Timely(cfg, c1, s.now) && Timely(cfg, c, now) && Settled(cfg, c1) && |c1.rq| == |s.c.rq|;
    hide CheckCollision, Loaded, Operate, FinishRequest, SwitchMode;
    OperateTimely(cfg, c, now, false, d);
    hide *;
    StagesRank(cfg, c1, s.now, now, k, c2, c3, d);
  }
}
