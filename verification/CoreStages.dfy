/** What each stage of a cycle does, exactly: whom it serves, in which order, up to its
    width, and when the instructions it serves become ready again. */
module CoreStages {
  import opened Options
  import opened CoreState
  import opened CoreRegisters
  import opened CoreMemory
  import opened CoreMemoryProof
  import opened CoreCycle
  import opened CoreProof
  import opened Scans

  /** A latency, which the warm-up skips. */
  function Wait(c: Core, latency: nat): nat { if c.warmup then 0 else latency }

  // ---- Retirement ----

  /** Exactly the completed instructions in front retire, up to the width. */
  lemma RetiresExactly(cfg: Config, c: Core, d: Core, k: nat)
    requires d == Retire(cfg, c) && k < |c.rob|
    ensures |d.rob| <= |c.rob| && d.retired == c.retired + c.rob[..|c.rob| - |d.rob|]
    ensures d.rob == c.rob[|c.rob| - |d.rob|..] && d == c.(retired := d.retired, rob := d.rob)
    ensures k < |c.rob| - |d.rob| <==> k < cfg.retireWidth && forall j :: 0 <= j <= k ==> c.rob[j].executed == Completed
  {
    var n := Span(c.rob, cfg.retireWidth, IsCompleted());
    assert |d.rob| == |c.rob| - n;
    forall j | 0 <= j < |c.rob| ensures IsCompleted()(c.rob[j]) == (c.rob[j].executed == Completed) { }
  }

  // ---- Completion ----

  /** The instruction's latency is over and so are all its memory operations. */
  function CanComplete(now: nat): Instr -> bool {
    (x: Instr) => x.executed == Inflight && x.event <= now && x.memDone == |x.loads| + |x.stores|
  }

  /** `b` differs from `a` in dependences only. */
  ghost predicate SameProgress(a: Rob, b: Rob) {
    && |a| == |b|
    && forall k :: 0 <= k < |a| ==>
         b[k] == a[k].(waitsFor := b[k].waitsFor, scheduled := b[k].scheduled, dependents := b[k].dependents)
  }

  lemma SameProgressTrans(a: Rob, b: Rob, c: Rob)
    requires SameProgress(a, b) && SameProgress(b, c)
    ensures SameProgress(a, c)
  {
    forall k | 0 <= k < |a|
      ensures c[k] == a[k].(waitsFor := c[k].waitsFor, scheduled := c[k].scheduled, dependents := c[k].dependents)
    {
      assert b[k] == a[k].(waitsFor := b[k].waitsFor, scheduled := b[k].scheduled, dependents := b[k].dependents);
    }
  }

  lemma {:induction false} ReleaseProgress(rob: Rob, dependents: seq<Id>, rob': Rob)
    requires rob' == Release(rob, dependents)
    ensures SameProgress(rob, rob')
    decreases |dependents|
  {
    if dependents == [] {
    } else {
      var p := Position(rob, dependents[0]);
      var next := if p < |rob| then rob[p := ReleaseOne(rob[p])] else rob;
      ReleaseProgress(next, dependents[1..], rob');
      SameProgressTrans(rob, next, rob');
    }
  }

  ghost predicate Completes(a: Rob, b: Rob, i: nat, bw: nat, now: nat) {
    && |a| == |b|
    && forall k :: 0 <= k < |a| ==>
         var done := k >= i && CanComplete(now)(a[k]) && Between(a, i, k, CanComplete(now)) < bw;
         && b[k].executed == (if done then Completed else a[k].executed)
         && b[k].event == a[k].event && b[k].memDone == a[k].memDone
  }

  lemma {:induction false} CompleteScanExactly(s: Regs, i: nat, bw: nat, now: nat, s': Regs)
    requires i <= |s.rob| && s' == CompleteScan(s, i, bw, now)
    ensures Completes(s.rob, s'.rob, i, bw, now)
    decreases |s.rob| - i
  {
    if i == |s.rob| || bw == 0 {
    } else if Completing(s.rob[i], now) {
      var next, done := DoCompleteExecution(s, i), s.rob[i := s.rob[i].(executed := Completed)];
      ReleaseProgress(done, s.rob[i].dependents, next.rob);
      hide DoCompleteExecution;
      CompleteScanExactly(next, i + 1, bw - 1, now, s');
      CompletesStep(s.rob, next.rob, s'.rob, i, bw, now);
    } else {
      CompleteScanExactly(s, i + 1, bw, now, s');
    }
  }

  lemma CompletesStep(a: Rob, b: Rob, c: Rob, i: nat, bw: nat, now: nat)
    requires i < |a| && bw > 0 && CanComplete(now)(a[i])
    requires SameProgress(a[i := a[i].(executed := Completed)], b) && Completes(b, c, i + 1, bw - 1, now)
    ensures Completes(a, c, i, bw, now)
  {
    var done := a[i := a[i].(executed := Completed)];
    assert forall k :: 0 <= k < |a| && k != i ==> done[k] == a[k];
    forall k | 0 <= k < |a|
      ensures var due := k >= i && CanComplete(now)(a[k]) && Between(a, i, k, CanComplete(now)) < bw;
        && c[k].executed == (if due then Completed else a[k].executed)
        && c[k].event == a[k].event && c[k].memDone == a[k].memDone
    {
      assert b[k] == done[k].(waitsFor := b[k].waitsFor, scheduled := b[k].scheduled, dependents := b[k].dependents);
      if k > i { BetweenSame(a, b, i + 1, k, CanComplete(now)); }
    }
  }

  /** Exactly the first instructions that can complete do, up to the width. */
  lemma CompletesExactly(cfg: Config, c: Core, d: Core)
    requires d == Complete(cfg, c)
    ensures Completes(c.rob, d.rob, 0, cfg.execWidth, c.cycle)
  {
    CompleteScanExactly(c.Regs(), 0, cfg.execWidth, c.cycle, d.Regs());
  }

  // ---- Execution ----

  /** Scheduled, waiting for nobody, and past its scheduling latency. */
  function CanStart(now: nat): Instr -> bool {
    (x: Instr) => x.scheduled && x.executed == Idle && x.waitsFor == 0 && x.event <= now
  }

  ghost predicate Started(a: Rob, i: nat, bw: nat, now: nat, k: int) {
    i <= k < |a| && CanStart(now)(a[k]) && Between(a, i, k, CanStart(now)) < bw
  }

  /** Exactly the started instructions become inflight, and exactly their queue entries
      get the time at which they are ready. */
  ghost predicate Starts(m: Mem, m': Mem, i: nat, bw: nat, now: nat, event: nat) {
    && |m'.rob| == |m.rob| && |m'.lq| == |m.lq| && |m'.sq| == |m.sq|
    && (forall k :: 0 <= k < |m.rob| ==>
          var x := m.rob[k];
          m'.rob[k] == if Started(m.rob, i, bw, now, k) then x.(executed := Inflight, event := event) else x)
    && (forall q :: 0 <= q < |m.lq| && m.lq[q].None? ==> m'.lq[q].None?)
    && (forall q :: 0 <= q < |m.lq| && m.lq[q].Some? ==>
          var x := m.lq[q].value;
          m'.lq[q] == Some(x.(event := if StartedId(m.rob, i, bw, now, x.id) then event else x.event)))
    && (forall q :: 0 <= q < |m.sq| ==>
          m'.sq[q] == m.sq[q].(event := if StartedId(m.rob, i, bw, now, m.sq[q].id) then event else m.sq[q].event))
  }

  ghost predicate StartedId(a: Rob, i: nat, bw: nat, now: nat, id: Id) {
    exists k :: Started(a, i, bw, now, k) && a[k].id == id
  }

  lemma StartedStep(a: Rob, i: nat, bw: nat, now: nat, event: nat, id: Id)
    requires i < |a| && bw > 0 && CanStart(now)(a[i])
    ensures var b := a[i := a[i].(executed := Inflight, event := event)];
      && Started(a, i, bw, now, i)
      && (forall k :: k != i ==> Started(a, i, bw, now, k) == Started(b, i + 1, bw - 1, now, k))
      && (StartedId(a, i, bw, now, id) <==> id == a[i].id || StartedId(b, i + 1, bw - 1, now, id))
  {
    var b := a[i := a[i].(executed := Inflight, event := event)];
    forall k | k != i ensures Started(a, i, bw, now, k) == Started(b, i + 1, bw - 1, now, k) {
      if i < k < |a| { BetweenSame(a, b, i + 1, k, CanStart(now)); }
    }
    if StartedId(b, i + 1, bw - 1, now, id) {
      var k :| Started(b, i + 1, bw - 1, now, k) && b[k].id == id;
      assert Started(a, i, bw, now, k) && a[k].id == id;
    }
    if StartedId(a, i, bw, now, id) && id != a[i].id {
      var k :| Started(a, i, bw, now, k) && a[k].id == id;
      assert Started(b, i + 1, bw - 1, now, k) && b[k].id == id;
    }
  }

  lemma NotStartedStep(a: Rob, i: nat, bw: nat, now: nat, id: Id)
    requires i < |a| && bw > 0 && !CanStart(now)(a[i])
    ensures forall k :: Started(a, i, bw, now, k) == Started(a, i + 1, bw, now, k)
    ensures StartedId(a, i, bw, now, id) == StartedId(a, i + 1, bw, now, id)
  {
    forall k ensures Started(a, i, bw, now, k) == Started(a, i + 1, bw, now, k) { }
    if StartedId(a, i, bw, now, id) {
      var k :| Started(a, i, bw, now, k) && a[k].id == id;
      assert Started(a, i + 1, bw, now, k);
    }
    if StartedId(a, i + 1, bw, now, id) {
      var k :| Started(a, i + 1, bw, now, k) && a[k].id == id;
      assert Started(a, i, bw, now, k);
    }
  }

  lemma {:induction false} ExecuteScanExactly(m: Mem, i: nat, bw: nat, now: nat, event: nat, m': Mem)
    requires i <= |m.rob| && m' == ExecuteScan(m, i, bw, now, event)
    ensures Starts(m, m', i, bw, now, event)
    decreases |m.rob| - i
  {
    if i == |m.rob| || bw == 0 {
      assert forall id :: !StartedId(m.rob, i, bw, now, id);
    } else if Starting(m.rob[i], now) {
      var next := DoExecution(m, i, event);
      ExecuteScanExactly(next, i + 1, bw - 1, now, event, m');
      assert next.rob == m.rob[i := m.rob[i].(executed := Inflight, event := event)];
      StartsStep(m, next, m', i, bw, now, event);
    } else {
      ExecuteScanExactly(m, i + 1, bw, now, event, m');
      forall id ensures StartedId(m.rob, i, bw, now, id) == StartedId(m.rob, i + 1, bw, now, id) {
        NotStartedStep(m.rob, i, bw, now, id);
      }
      NotStartedStep(m.rob, i, bw, now, 0);
    }
  }

  lemma StartsStep(m: Mem, next: Mem, m': Mem, i: nat, bw: nat, now: nat, event: nat)
    requires i < |m.rob| && bw > 0 && CanStart(now)(m.rob[i]) && next == DoExecution(m, i, event)
    requires Starts(next, m', i + 1, bw - 1, now, event)
    ensures Starts(m, m', i, bw, now, event)
  {
    forall id ensures
      StartedId(m.rob, i, bw, now, id) <==> id == m.rob[i].id || StartedId(next.rob, i + 1, bw - 1, now, id)
    {
      StartedStep(m.rob, i, bw, now, event, id);
    }
    StartedStep(m.rob, i, bw, now, event, 0);
    assert !Started(next.rob, i + 1, bw - 1, now, i);
  }

  /** Exactly the first instructions that can start do, up to the width, and are ready the
      execution latency later, with their loads and stores. */
  lemma StartsExactly(cfg: Config, c: Core, d: Core)
    requires d == Execute(cfg, c)
    ensures Starts(c.Mem(), d.Mem(), 0, cfg.execWidth, c.cycle, c.cycle + Wait(c, cfg.execLatency))
  {
    ExecuteScanExactly(c.Mem(), 0, cfg.execWidth, c.cycle, c.After(cfg.execLatency), d.Mem());
  }

  // ---- Scheduling ----

  function IsIdle(): Instr -> bool {
    (x: Instr) => x.executed == Idle
  }

  /** The scan looks at entries until it has seen `bw` that have not started. */
  ghost predicate Seen(a: Rob, i: nat, bw: nat, k: int) {
    i <= k < |a| && Between(a, i, k, IsIdle()) < bw
  }

  ghost predicate Schedules(a: Rob, b: Rob, i: nat, bw: nat, event: nat) {
    && |a| == |b|
    && forall k :: 0 <= k < |a| ==>
         && b[k].scheduled == (a[k].scheduled || Seen(a, i, bw, k))
         && b[k].event == (if !a[k].scheduled && Seen(a, i, bw, k) then event else a[k].event)
         && b[k].executed == a[k].executed && b[k].memDone == a[k].memDone
  }

  /** `b` differs from `a` in who waits for whom only. */
  ghost predicate SameStatus(a: Rob, b: Rob) {
    && |a| == |b|
    && forall k :: 0 <= k < |a| ==> b[k] == a[k].(waitsFor := b[k].waitsFor, dependents := b[k].dependents)
  }

  lemma {:induction false} LinkStatus(rob: Rob, producers: Producers, i: nat, sources: seq<Reg>, rob': Rob)
    requires i < |rob| && rob' == Link(rob, producers, i, sources)
    ensures SameStatus(rob, rob')
    decreases |sources|
  {
    if sources == [] {
    } else {
      var next := LinkOne(rob, producers[sources[0]], i);
      LinkOneStatus(rob, producers[sources[0]], i);
      hide LinkOne;
      LinkStatus(next, producers, i, sources[1..], rob');
      forall k | 0 <= k < |rob|
        ensures rob'[k] == rob[k].(waitsFor := rob'[k].waitsFor, dependents := rob'[k].dependents)
      {
        assert next[k] == rob[k].(waitsFor := next[k].waitsFor, dependents := next[k].dependents);
      }
    }
  }

  lemma LinkOneStatus(rob: Rob, list: seq<Id>, i: nat)
    requires i < |rob|
    ensures SameStatus(rob, LinkOne(rob, list, i))
  {
  }

  lemma {:induction false} ScheduleScanExactly(s: Regs, i: nat, bw: nat, event: nat, s': Regs)
    requires i <= |s.rob| && s' == ScheduleScan(s, i, bw, event)
    ensures Schedules(s.rob, s'.rob, i, bw, event)
    decreases |s.rob| - i
  {
    if i == |s.rob| || bw == 0 {
    } else {
      var s1 := ScheduleStep(s, i, event);
      ScheduleStepExactly(s, i, event, s1);
      hide ScheduleStep;
      var bw1 := if s1.rob[i].executed == Idle then bw - 1 else bw;
      ScheduleScanExactly(s1, i + 1, bw1, event, s');
      SchedulesStep(s.rob, s1.rob, s'.rob, i, bw, event);
    }
  }

  lemma ScheduleStepExactly(s: Regs, i: nat, event: nat, s1: Regs)
    requires i < |s.rob| && s1 == ScheduleStep(s, i, event)
    ensures |s1.rob| == |s.rob| && s1.rob[i].scheduled
    ensures s1.rob[i].event == (if s.rob[i].scheduled then s.rob[i].event else event)
    ensures forall k :: 0 <= k < |s.rob| ==>
              s1.rob[k].executed == s.rob[k].executed && s1.rob[k].memDone == s.rob[k].memDone
    ensures forall k :: 0 <= k < |s.rob| && k != i ==>
              s1.rob[k].scheduled == s.rob[k].scheduled && s1.rob[k].event == s.rob[k].event
  {
    LinkStatus(s.rob, s.producers, i, s.rob[i].sources, Link(s.rob, s.producers, i, s.rob[i].sources));
  }

  lemma SchedulesStep(a: Rob, b: Rob, c: Rob, i: nat, bw: nat, event: nat)
    requires i < |a| == |b| && bw > 0 && b[i].scheduled && b[i].event == (if a[i].scheduled then a[i].event else event)
    requires forall k :: 0 <= k < |a| ==> b[k].executed == a[k].executed && b[k].memDone == a[k].memDone
    requires forall k :: 0 <= k < |a| && k != i ==> b[k].scheduled == a[k].scheduled && b[k].event == a[k].event
    requires Schedules(b, c, i + 1, if b[i].executed == Idle then bw - 1 else bw, event)
    ensures Schedules(a, c, i, bw, event)
  {
    var bw1 := if b[i].executed == Idle then bw - 1 else bw;
    forall k | 0 <= k < |a| && k != i ensures Seen(a, i, bw, k) == Seen(b, i + 1, bw1, k) {
      if i < k { BetweenSame(a, b, i + 1, k, IsIdle()); }
    }
    assert Seen(a, i, bw, i) && !Seen(b, i + 1, bw1, i);
  }

  /** Exactly the unscheduled instructions among the entries the scan sees are scheduled,
      and are ready the scheduling latency later. */
  lemma SchedulesExactly(cfg: Config, c: Core, d: Core)
    requires d == Schedule(cfg, c)
    ensures Schedules(c.rob, d.rob, 0, cfg.schedulerSize, c.cycle + Wait(c, cfg.schedulingLatency))
  {
    ScheduleScanExactly(c.Regs(), 0, cfg.schedulerSize, c.After(cfg.schedulingLatency), d.Regs());
  }

  // ---- Data that returns ----

  /** An issued load of one of the blocks. */
  ghost predicate Returned(e: Option<Load>, blocks: seq<nat>, blockSize: nat)
    requires blockSize > 0
  {
    e.Some? && e.value.issued && e.value.addr / blockSize in blocks
  }

  lemma {:induction false} ReturnBlockExactly(
      rob: Rob, lq: LoadQueue, k: nat, block: nat, blockSize: nat, r: (Rob, LoadQueue))
    requires k <= |lq| && blockSize > 0 && r == ReturnBlock(rob, lq, k, block, blockSize)
    ensures |r.1| == |lq|
    ensures forall q :: 0 <= q < |lq| ==>
              r.1[q] == if q >= k && Answers(lq[q], block, blockSize) then None else lq[q]
    decreases |lq| - k
  {
    hide Finish;
    if k == |lq| {
    } else if Answers(lq[k], block, blockSize) {
      ReturnBlockExactly(Finish(rob, lq[k].value.id), lq[k := None], k + 1, block, blockSize, r);
    } else {
      ReturnBlockExactly(rob, lq, k + 1, block, blockSize, r);
    }
  }

  lemma {:induction false} ReturnBlocksExactly(
      rob: Rob, lq: LoadQueue, blocks: seq<nat>, blockSize: nat, r: (Rob, LoadQueue))
    requires blockSize > 0 && r == ReturnBlocks(rob, lq, blocks, blockSize)
    ensures |r.1| == |lq|
    ensures forall q :: 0 <= q < |lq| ==> r.1[q] == if Returned(lq[q], blocks, blockSize) then None else lq[q]
    decreases |blocks|
  {
    if blocks == [] {
    } else {
      var next := ReturnBlock(rob, lq, 0, blocks[0], blockSize);
      ReturnBlockExactly(rob, lq, 0, blocks[0], blockSize, next);
      hide ReturnBlock;
      ReturnBlocksExactly(next.0, next.1, blocks[1..], blockSize, r);
      assert forall b :: b in blocks <==> b == blocks[0] || b in blocks[1..];
    }
  }

  /** Exactly the issued loads of the first returned blocks, up to the bandwidth, are done. */
  lemma ReturnsExactly(cfg: Config, c: Core, blocks: seq<nat>, d: Core, q: nat)
    requires cfg.blockSize > 0 && d == MemoryReturn(cfg, c, blocks) && q < |c.lq|
    ensures |d.lq| == |c.lq|
    ensures
      var taken := blocks[..Min(cfg.l1dBandwidth, |blocks|)];
      d.lq[q] == if Returned(c.lq[q], taken, cfg.blockSize) then None else c.lq[q]
  {
    var taken := blocks[..Min(cfg.l1dBandwidth, |blocks|)];
    ReturnBlocksExactly(c.rob, c.lq, taken, cfg.blockSize, ReturnBlocks(c.rob, c.lq, taken, cfg.blockSize));
  }

  // ---- Stores ----

  /** The next unfinished stores finish in this cycle, exactly as far as they are ready and
      the width reaches; `n` of them. */
  lemma FinishesExactly(cfg: Config, c: Core, d: Core, n: nat, j: nat)
    requires CoreInv(cfg, c) && (d, n) == FinishStage(cfg, c) && j < |c.sq|
    ensures |d.sq| == |c.sq| && n <= cfg.sqWidth
    ensures var from := First(c.sq, Unfinished());
      && (c.sq[j].finished <==> j < from)
      && (d.sq[j].finished <==>
            j < from || (j - from < cfg.sqWidth && forall i :: from <= i <= j ==> c.sq[i].event <= c.cycle))
      && (d.sq[j].finished && !c.sq[j].finished <==> from <= j < from + n)
      && d.sq[j].event == (if c.sq[j].finished == d.sq[j].finished then c.sq[j].event else c.cycle)
  {
    var from := First(c.sq, Unfinished());
    assert n == Finishable(c.sq, from, cfg.sqWidth, c.cycle);
    FinishStoresMarks(c.Mem(), from, n, c.cycle, d.Mem());
    assert d.sq == d.Mem().sq && c.sq == c.Mem().sq;
    assert StoresInOrder(c.sq);
    hide CoreInv, FinishStores, FinishStage;
    FinishedPrefix(c.sq);
  }

  lemma FinishedPrefix(sq: StoreQueue)
    requires StoresInOrder(sq)
    ensures forall i :: 0 <= i < |sq| ==> (sq[i].finished <==> i < First(sq, Unfinished()))
  {
    var from := First(sq, Unfinished());
    forall i | 0 <= i < |sq| ensures sq[i].finished <==> i < from {
      assert i < from ==> !Unfinished()(sq[i]);
      assert from < |sq| ==> Unfinished()(sq[from]);
    }
  }

  /** The stores in front leave, exactly as far as they are older than the whole reorder
      buffer, past their time, and within the bandwidth and what the cache takes. */
  lemma SendsStoresExactly(c: Core, bw: nat, room: nat, d: Core, j: nat)
    requires d == SendStores(c, bw, room) && j < |c.sq|
    ensures |d.sq| <= |c.sq| && d.sq == c.sq[|c.sq| - |d.sq|..]
    ensures d.storesSent == c.storesSent + StoreRequests(c.sq[..|c.sq| - |d.sq|])
    ensures j < |c.sq| - |d.sq| <==>
              j < bw && j < room
              && forall i :: 0 <= i <= j ==> c.sq[i].event <= c.cycle && (c.rob != [] ==> c.sq[i].id < c.rob[0].id)
  {
  }

  // ---- Loads ----

  /** The slots whose load can ask the data cache and whose request it would take. */
  predicate Sends(lq: LoadQueue, q: nat, now: nat, accepts: set<nat>) {
    && q < |lq| && q in accepts && lq[q].Some?
    && !lq[q].value.issued && lq[q].value.producer == None && lq[q].value.event < now
  }

  /** How many of the slots from `k` on and before `q` can send. */
  function SendersBefore(lq: LoadQueue, k: nat, q: nat, now: nat, accepts: set<nat>): nat
    decreases q - k
  {
    if k >= q then 0 else (if Sends(lq, k, now, accepts) then 1 else 0) + SendersBefore(lq, k + 1, q, now, accepts)
  }

  lemma {:induction false} SendersBeforeSame(a: LoadQueue, b: LoadQueue, k: nat, q: nat, now: nat, accepts: set<nat>)
    requires |a| == |b| && forall j :: k <= j < |a| ==> a[j] == b[j]
    ensures SendersBefore(a, k, q, now, accepts) == SendersBefore(b, k, q, now, accepts)
    decreases q - k
  {
    if k >= q {
    } else {
      SendersBeforeSame(a, b, k + 1, q, now, accepts);
    }
  }

  /** Exactly the first slots that can send do, up to the bandwidth. */
  lemma {:induction false} IssueLoadsExactly(
      lq: LoadQueue, k: nat, bw: nat, now: nat, accepts: set<nat>, lq': LoadQueue)
    requires k <= |lq| && lq' == IssueLoads(lq, k, bw, now, accepts)
    ensures |lq'| == |lq|
    ensures forall q :: 0 <= q < |lq| ==>
              lq'[q] == if k <= q && Sends(lq, q, now, accepts) && SendersBefore(lq, k, q, now, accepts) < bw
                        then Some(lq[q].value.(issued := true)) else lq[q]
    decreases |lq| - k
  {
    if k == |lq| {
    } else if bw > 0 && Issuable(lq[k], now) && k in accepts {
      var next := lq[k := Some(lq[k].value.(issued := true))];
      IssueLoadsExactly(next, k + 1, bw - 1, now, accepts, lq');
      var n := k + 1;
      forall q | n <= q < |lq|
        ensures SendersBefore(lq, n, q, now, accepts) == SendersBefore(next, n, q, now, accepts)
      {
        SendersBeforeSame(lq, next, n, q, now, accepts);
      }
    } else {
      IssueLoadsExactly(lq, k + 1, bw, now, accepts, lq');
    }
  }

  /** The reads that the slots from `k` on could send, in slot order. */
  function ReadyReads(lq: LoadQueue, k: nat, now: nat, accepts: set<nat>): seq<Request>
    decreases |lq| - k
  {
    if k >= |lq| then []
    else (if Sends(lq, k, now, accepts) then [Request(lq[k].value.id, lq[k].value.addr)] else [])
         + ReadyReads(lq, k + 1, now, accepts)
  }

  lemma {:induction false} ReadyReadsSame(a: LoadQueue, b: LoadQueue, k: nat, now: nat, accepts: set<nat>)
    requires |a| == |b| && forall j :: k <= j < |a| ==> a[j] == b[j]
    ensures ReadyReads(a, k, now, accepts) == ReadyReads(b, k, now, accepts)
    decreases |a| - k
  {
    if k >= |a| {
    } else {
      ReadyReadsSame(a, b, k + 1, now, accepts);
    }
  }

  /** What is sent are the first of them, in that order. */
  lemma {:induction false} LoadRequestsExactly(
      lq: LoadQueue, k: nat, bw: nat, now: nat, accepts: set<nat>, lq': LoadQueue)
    requires k <= |lq| && lq' == IssueLoads(lq, k, bw, now, accepts)
    ensures |lq'| == |lq|
    ensures var ready := ReadyReads(lq, k, now, accepts);
      LoadRequests(lq[k..], lq'[k..]) == ready[..Min(bw, |ready|)]
    decreases |lq| - k
  {
    IssueOnlyIssues(lq, k, bw, now, accepts);
    if k == |lq| {
    } else {
      assert lq[k..][1..] == lq[k + 1..] && lq'[k..][1..] == lq'[k + 1..];
      IssueLoadsExactly(lq, k, bw, now, accepts, lq');
      if bw > 0 && Issuable(lq[k], now) && k in accepts {
        var next := lq[k := Some(lq[k].value.(issued := true))];
        LoadRequestsExactly(next, k + 1, bw - 1, now, accepts, lq');
        ReadyReadsSame(lq, next, k + 1, now, accepts);
        assert next[k + 1..] == lq[k + 1..];
      } else {
        LoadRequestsExactly(lq, k + 1, bw, now, accepts, lq');
      }
    }
  }

  // ---- Dispatch ----

  /** The oldest decoded instruction can enter: its dispatch latency is over, and there is
      room for it, for its loads and for its stores. */
  ghost predicate HasRoom(cfg: Config, c: Core) {
    && c.dispatch != [] && c.dispatch[0].event < c.cycle && |c.rob| != cfg.robSize
    && |c.dispatch[0].loads| <= |set q | 0 <= q < |c.lq| && c.lq[q].None?|
    && |c.sq| + |c.dispatch[0].stores| <= cfg.sqSize
  }

  lemma FreeSlotsAre(lq: LoadQueue)
    ensures FreeSlots(lq) == |set q | 0 <= q < |lq| && lq[q].None?|
  {
    TallyIsCardinality(lq, IsFree());
    assert Positions(lq, IsFree()) == set q | 0 <= q < |lq| && lq[q].None?;
  }

  /** Dispatch goes on, oldest first, exactly as long as there is room, up to the width. */
  lemma {:induction false} DispatchesExactly(cfg: Config, c: Core, bw: nat, d: Core)
    requires d == Dispatch(cfg, c, bw)
    ensures |d.dispatch| <= |c.dispatch| && d.dispatch == c.dispatch[|c.dispatch| - |d.dispatch|..]
    ensures |c.dispatch| - |d.dispatch| <= bw
    ensures |c.dispatch| - |d.dispatch| < bw ==> !HasRoom(cfg, d)
    ensures d.dispatch != c.dispatch ==> HasRoom(cfg, c)
    ensures |d.rob| == |c.rob| + |c.dispatch| - |d.dispatch|
    decreases bw
  {
    FreeSlotsAre(c.lq);
    if bw == 0 || !CanDispatch(cfg, c) {
    } else {
      var next := DispatchOne(c);
      assert next.dispatch == c.dispatch[1..] && |next.rob| == |c.rob| + 1;
      hide DispatchOne;
      DispatchesExactly(cfg, next, bw - 1, d);
    }
  }

  // ---- The front end ----

  /** The instruction with its new time, and otherwise as it was. */
  ghost predicate Stamped(a: seq<Instr>, b: seq<Instr>, event: Instr -> nat) {
    |a| == |b| && forall k :: 0 <= k < |a| ==> b[k] == a[k].(event := event(a[k]))
  }

  /** The room a stage finds in front of it, if it is within its size. */
  function Room(size: nat, used: nat): nat {
    if used <= size then size - used else 0
  }

  /** Exactly the decoded instructions in front whose time has come go to dispatch, up to
      the width and the room there, and are ready the dispatch latency later. */
  lemma DecodesExactly(cfg: Config, c: Core, d: Core, n: nat, k: nat)
    requires d == Decode(cfg, c) && n == |c.decode| - |d.decode| && k < |c.decode|
    ensures |d.decode| <= |c.decode| && d.decode == c.decode[n..] && |d.dispatch| == |c.dispatch| + n
    ensures d.dispatch[..|c.dispatch|] == c.dispatch && d == c.(decode := d.decode, dispatch := d.dispatch)
    ensures Stamped(c.decode[..n], d.dispatch[|c.dispatch|..], (x: Instr) => c.cycle + Wait(c, cfg.dispatchLatency))
    ensures k < n <==>
              k < cfg.decodeWidth && k < Room(cfg.dispatchSize, |c.dispatch|)
              && forall j :: 0 <= j <= k ==> c.decode[j].event <= c.cycle
  {
    forall j | 0 <= j < |c.decode| ensures Ready(c.cycle)(c.decode[j]) == (c.decode[j].event <= c.cycle) { }
    assert d.dispatch[|c.dispatch|..] == Stamp(c.decode[..n], c, cfg.dispatchLatency, false);
  }

  /** Exactly the fetched instructions in front whose time has come go to decode, up to the
      width and the room there; those already decoded at once, the others after the latency. */
  lemma PromotesExactly(cfg: Config, c: Core, d: Core, n: nat, k: nat)
    requires d == Promote(cfg, c) && n == |c.ifetch| - |d.ifetch| && k < |c.ifetch|
    ensures |d.ifetch| <= |c.ifetch| && d.ifetch == c.ifetch[n..] && |d.decode| == |c.decode| + n
    ensures d.decode[..|c.decode|] == c.decode && d == c.(ifetch := d.ifetch, decode := d.decode)
    ensures Stamped(c.ifetch[..n], d.decode[|c.decode|..],
                    (x: Instr) => c.cycle + if x.decoded then 0 else Wait(c, cfg.decodeLatency))
    ensures k < n <==>
              k < cfg.fetchWidth && k < Room(cfg.decodeSize, |c.decode|)
              && forall j :: 0 <= j <= k ==> c.ifetch[j].fetched && c.ifetch[j].event <= c.cycle
  {
    forall j | 0 <= j < |c.ifetch|
      ensures FetchedAndReady(c.cycle)(c.ifetch[j]) == (c.ifetch[j].fetched && c.ifetch[j].event <= c.cycle)
    { }
    assert d.decode[|c.decode|..] == Stamp(c.ifetch[..n], c, cfg.decodeLatency, true);
  }

  /** As many instructions enter as the fetch side takes, up to the width, the room and what
      has arrived. */
  lemma InitializesExactly(cfg: Config, c: Core, takes: nat, d: Core, n: nat, k: nat)
    requires d == Initialize(cfg, c, takes) && n == |c.input| - |d.input| && k < |c.input|
    ensures |d.input| <= |c.input| && d.input == c.input[n..] && |d.ifetch| == |c.ifetch| + n
    ensures d.ifetch[..|c.ifetch|] == c.ifetch && d == c.(ifetch := d.ifetch, input := d.input)
    ensures k < n <==> k < takes && k < cfg.fetchWidth && k < Room(cfg.ifetchSize, |c.ifetch|)
  {
  }
}
