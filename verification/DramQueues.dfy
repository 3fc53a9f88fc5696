/** Collision checking: one entry per block, and no waiter is forgotten. */
module DramQueues {
  import opened Options
  import opened DramState
  import opened SetUnion

  // ---- One entry per block ----

  /** Entries that were checked hold pairwise different blocks. */
  ghost predicate CheckedDistinct(cfg: Config, q: Queue)
    requires cfg.blockSize > 0
  {
    forall a, b :: 0 <= a < b < |q| && q[a].Some? && q[b].Some? && q[a].value.checked && q[b].value.checked ==>
      Block(cfg, q[a].value.address) != Block(cfg, q[b].value.address)
  }

  ghost predicate CheckedBelow(q: Queue, n: int) {
    forall k :: 0 <= k < n && k < |q| && q[k].Some? ==> q[k].value.checked
  }

  lemma {:induction false} CheckWritesDistinct(cfg: Config, wq: Queue, k: nat, d: Queue)
    requires cfg.blockSize > 0 && k <= |wq| && CheckedDistinct(cfg, wq) && CheckedBelow(wq, k)
    requires d == CheckWrites(cfg, wq, k)
    ensures CheckedDistinct(cfg, d) && CheckedBelow(d, |d|)
    decreases |wq| - k
  {
    if k == |wq| {
    } else {
      CheckWriteDistinct(cfg, wq, k);
      hide CheckWrite;
      CheckWritesDistinct(cfg, CheckWrite(cfg, wq, k), k + 1, d);
    }
  }

  lemma CheckWriteDistinct(cfg: Config, wq: Queue, k: nat)
    requires cfg.blockSize > 0 && k < |wq| && CheckedDistinct(cfg, wq) && CheckedBelow(wq, k)
    ensures CheckedDistinct(cfg, CheckWrite(cfg, wq, k)) && CheckedBelow(CheckWrite(cfg, wq, k), k + 1)
  {
    if wq[k].Some? && !wq[k].value.checked {
      var a := wq[k].value.address;
      var before, after := FindBlock(cfg, wq, 0, k, a), FindBlock(cfg, wq, k + 1, |wq|, a);
      if before == k && after == |wq| {
        assert forall i :: 0 <= i < |wq| && i != k ==> !SameBlock(cfg, wq[i], a);
      }
    }
  }

  lemma CheckReadDistinct(cfg: Config, rq: Queue, wq: Queue, out: seq<Response>, k: nat)
    requires cfg.blockSize > 0 && k < |rq| && CheckedDistinct(cfg, rq) && CheckedBelow(rq, k)
    ensures CheckedDistinct(cfg, CheckRead(cfg, rq, wq, out, k).0)
    ensures CheckedBelow(CheckRead(cfg, rq, wq, out, k).0, k + 1)
  {
    if rq[k].Some? && !rq[k].value.checked {
      var a := rq[k].value.address;
      var before, after := FindBlock(cfg, rq, 0, k, a), FindBlock(cfg, rq, k + 1, |rq|, a);
      if before == k && after == |rq| {
        assert forall i :: 0 <= i < |rq| && i != k ==> !SameBlock(cfg, rq[i], a);
      }
    }
  }

  lemma {:induction false} CheckReadsDistinct(cfg: Config, rq: Queue, wq: Queue, out: seq<Response>, k: nat, d: Queue)
    requires cfg.blockSize > 0 && k <= |rq| && CheckedDistinct(cfg, rq) && CheckedBelow(rq, k)
    requires d == CheckReads(cfg, rq, wq, out, k).0
    ensures CheckedDistinct(cfg, d) && CheckedBelow(d, |d|)
    decreases |rq| - k
  {
    if k == |rq| {
    } else {
      CheckReadDistinct(cfg, rq, wq, out, k);
      var r := CheckRead(cfg, rq, wq, out, k);
      hide CheckRead;
      CheckReadsDistinct(cfg, r.0, wq, r.1, k + 1, d);
    }
  }

  /** After collision checking, occupied entries of a queue hold different blocks. */
  lemma CollisionLeavesDistinctBlocks(cfg: Config, c: Channel, write: bool, a: nat, b: nat)
    requires cfg.blockSize > 0 && CheckedDistinct(cfg, c.rq) && CheckedDistinct(cfg, c.wq)
    requires var q := CheckCollision(cfg, c).Q(write); a < |q| && b < |q| && a != b && q[a].Some? && q[b].Some?
    ensures var q := CheckCollision(cfg, c).Q(write); Block(cfg, q[a].value.address) != Block(cfg, q[b].value.address)
  {
    var d := CheckCollision(cfg, c);
    CheckWritesDistinct(cfg, c.wq, 0, d.wq);
    CheckReadsDistinct(cfg, c.rq, d.wq, c.out, 0, d.rq);
  }

  // ---- Waiters ----

  /** Some upper-level queue `ret` waits for `block`, on behalf of instructions `deps`. */
  datatype Waiter = Waiter(block: nat, ret: nat, deps: set<nat>)

  ghost predicate WaitsIn(cfg: Config, e: Request, w: Waiter)
    requires cfg.blockSize > 0
  {
    Block(cfg, e.address) == w.block && w.ret in e.toReturn && forall x :: x in w.deps ==> x in e.deps
  }

  ghost predicate Waiting(cfg: Config, rq: Queue, w: Waiter)
    requires cfg.blockSize > 0
  {
    exists k :: 0 <= k < |rq| && rq[k].Some? && WaitsIn(cfg, rq[k].value, w)
  }

  ghost predicate Answers(cfg: Config, r: Response, w: Waiter)
    requires cfg.blockSize > 0
  {
    Block(cfg, r.address) == w.block && r.to == w.ret && forall x :: x in w.deps ==> x in r.deps
  }

  /** A response for the waiter was pushed at position `from` or later. */
  ghost predicate Answered(cfg: Config, out: seq<Response>, from: nat, w: Waiter)
    requires cfg.blockSize > 0
  {
    exists n :: from <= n < |out| && Answers(cfg, out[n], w)
  }

  /** A stage that turns (`a`, `out`) into (`b`, `out'`) serves every waiter: it still
      waits or was answered, and earlier responses stay. */
  ghost predicate Serves(cfg: Config, a: Queue, out: seq<Response>, b: Queue, out': seq<Response>)
    requires cfg.blockSize > 0
  {
    out <= out' && forall w :: Waiting(cfg, a, w) ==> Waiting(cfg, b, w) || Answered(cfg, out', |out|, w)
  }

  lemma ServesTrans(cfg: Config, a: Queue, o1: seq<Response>, b: Queue, o2: seq<Response>, c: Queue, o3: seq<Response>)
    requires cfg.blockSize > 0 && Serves(cfg, a, o1, b, o2) && Serves(cfg, b, o2, c, o3)
    ensures Serves(cfg, a, o1, c, o3)
  {
    forall w | Waiting(cfg, a, w) ensures Waiting(cfg, c, w) || Answered(cfg, o3, |o1|, w) {
      if Answered(cfg, o2, |o1|, w) {
        var n :| |o1| <= n < |o2| && Answers(cfg, o2[n], w);
        assert o3[n] == o2[n];
      }
    }
  }

  lemma ResponsesAnswer(cfg: Config, e: Request, data: nat, out: seq<Response>, w: Waiter)
    requires cfg.blockSize > 0 && WaitsIn(cfg, e, w)
    ensures Answered(cfg, out + Responses(e, data, e.toReturn), |out|, w)
  {
    var i :| 0 <= i < |e.toReturn| && e.toReturn[i] == w.ret;
    assert Answers(cfg, (out + Responses(e, data, e.toReturn))[|out| + i], w);
  }

  lemma AbsorbKeeps(cfg: Config, found: Request, x: Request, w: Waiter)
    requires cfg.blockSize > 0 && Block(cfg, found.address) == Block(cfg, x.address)
    requires WaitsIn(cfg, found, w) || WaitsIn(cfg, x, w)
    ensures WaitsIn(cfg, Absorb(found, x), w)
  {
    UnionMembers(found.toReturn, x.toReturn, w.ret);
    forall y | y in w.deps ensures y in Absorb(found, x).deps { UnionMembers(found.deps, x.deps, y); }
  }

  /** A queue update that clears slot `k`, or moves its waiters to slot `j`. */
  lemma AbsorbServes(cfg: Config, rq: Queue, k: nat, j: nat, out: seq<Response>)
    requires cfg.blockSize > 0 && k < |rq| && j < |rq| && j != k && rq[k].Some? && rq[j].Some?
    requires Block(cfg, rq[j].value.address) == Block(cfg, rq[k].value.address)
    ensures Serves(cfg, rq, out, rq[j := Some(Absorb(rq[j].value, rq[k].value))][k := None], out)
  {
    var d := rq[j := Some(Absorb(rq[j].value, rq[k].value))][k := None];
    forall w | Waiting(cfg, rq, w) ensures Waiting(cfg, d, w) {
      var n :| 0 <= n < |rq| && rq[n].Some? && WaitsIn(cfg, rq[n].value, w);
      if n == k || n == j {
        AbsorbKeeps(cfg, rq[j].value, rq[k].value, w);
        assert WaitsIn(cfg, d[j].value, w);
      } else {
        assert d[n] == rq[n];
      }
    }
  }

  lemma AnswerServes(cfg: Config, rq: Queue, k: nat, data: nat, out: seq<Response>)
    requires cfg.blockSize > 0 && k < |rq| && rq[k].Some?
    ensures Serves(cfg, rq, out, rq[k := None], out + Responses(rq[k].value, data, rq[k].value.toReturn))
  {
    var d := rq[k := None];
    forall w | Waiting(cfg, rq, w)
      ensures Waiting(cfg, d, w) || Answered(cfg, out + Responses(rq[k].value, data, rq[k].value.toReturn), |out|, w)
    {
      var n :| 0 <= n < |rq| && rq[n].Some? && WaitsIn(cfg, rq[n].value, w);
      if n == k {
        ResponsesAnswer(cfg, rq[k].value, data, out, w);
      } else {
        assert d[n] == rq[n];
      }
    }
  }

  /** Entries that change nothing a waiter sees. */
  lemma SameWaiters(cfg: Config, a: Queue, b: Queue, out: seq<Response>)
    requires cfg.blockSize > 0 && |a| == |b|
    requires forall k :: 0 <= k < |a| && a[k].Some? ==> b[k].Some? && b[k].value.address == a[k].value.address
    requires forall k :: 0 <= k < |a| && a[k].Some? && b[k].Some? ==>
               b[k].value.deps == a[k].value.deps && b[k].value.toReturn == a[k].value.toReturn
    ensures Serves(cfg, a, out, b, out)
  {
    forall w | Waiting(cfg, a, w) ensures Waiting(cfg, b, w) {
      var n :| 0 <= n < |a| && a[n].Some? && WaitsIn(cfg, a[n].value, w);
      assert WaitsIn(cfg, b[n].value, w);
    }
  }

  lemma CheckReadServes(cfg: Config, rq: Queue, wq: Queue, out: seq<Response>, k: nat)
    requires cfg.blockSize > 0 && k < |rq|
    ensures var r := CheckRead(cfg, rq, wq, out, k); Serves(cfg, rq, out, r.0, r.1)
  {
    if rq[k].None? || rq[k].value.checked {
      SameWaiters(cfg, rq, rq, out);
    } else {
      var x := rq[k].value;
      var w := FindBlock(cfg, wq, 0, |wq|, x.address);
      var before := FindBlock(cfg, rq, 0, k, x.address);
      var after := FindBlock(cfg, rq, k + 1, |rq|, x.address);
      if w < |wq| {
        AnswerServes(cfg, rq, k, wq[w].value.data, out);
      } else if before < k {
        AbsorbServes(cfg, rq, k, before, out);
      } else if after < |rq| {
        AbsorbServes(cfg, rq, k, after, out);
      } else {
        SameWaiters(cfg, rq, rq[k := Some(x.(checked := true))], out);
      }
    }
  }

  lemma {:induction false} CheckReadsServe(
      cfg: Config, rq: Queue, wq: Queue, out: seq<Response>, k: nat, r: (Queue, seq<Response>))
    requires cfg.blockSize > 0 && k <= |rq| && r == CheckReads(cfg, rq, wq, out, k)
    ensures Serves(cfg, rq, out, r.0, r.1)
    decreases |rq| - k
  {
    if k == |rq| {
      SameWaiters(cfg, rq, rq, out);
    } else {
      var next := CheckRead(cfg, rq, wq, out, k);
      CheckReadServes(cfg, rq, wq, out, k);
      hide CheckRead;
      CheckReadsServe(cfg, next.0, wq, next.1, k + 1, r);
      ServesTrans(cfg, rq, out, next.0, next.1, r.0, r.1);
    }
  }

  lemma {:induction false} DrainReadsServe(
      cfg: Config, rq: Queue, out: seq<Response>, k: nat, r: (Queue, seq<Response>))
    requires cfg.blockSize > 0 && k <= |rq| && r == DrainReads(rq, out, k)
    ensures Serves(cfg, rq, out, r.0, r.1)
    ensures forall j :: k <= j < |rq| ==> r.0[j].None?
    ensures forall j :: 0 <= j < k ==> r.0[j] == rq[j]
    decreases |rq| - k
  {
    if k == |rq| {
      SameWaiters(cfg, rq, rq, out);
    } else if rq[k].Some? {
      var next, more := rq[k := None], out + Responses(rq[k].value, rq[k].value.data, rq[k].value.toReturn);
      AnswerServes(cfg, rq, k, rq[k].value.data, out);
      DrainReadsServe(cfg, next, more, k + 1, r);
      ServesTrans(cfg, rq, out, next, more, r.0, r.1);
    } else {
      DrainReadsServe(cfg, rq, out, k + 1, r);
    }
  }

  lemma FinishServes(cfg: Config, c: Channel, now: nat)
    requires cfg.blockSize > 0
    ensures var d := FinishRequest(c, now); Serves(cfg, c.rq, c.out, d.rq, d.out)
  {
    var d := FinishRequest(c, now);
    if d == c {
      SameWaiters(cfg, c.rq, c.rq, c.out);
    } else {
      var s := c.banks[c.active.value].pkt;
      var e := c.Q(s.write)[s.index].value;
      if s.write {
        SameWaiters(cfg, c.rq, c.rq, c.out);
        assert Serves(cfg, c.rq, c.out, d.rq, d.out);
      } else {
        AnswerServes(cfg, c.rq, s.index, e.data, c.out);
      }
    }
  }

  lemma {:induction false} UnscheduleAllServes(cfg: Config, c: Channel, k: nat, now: nat, d: Channel)
    requires cfg.blockSize > 0 && k <= |c.banks| && d == UnscheduleAll(cfg, c, k, now)
    ensures Serves(cfg, c.rq, c.out, d.rq, d.out) && d.out == c.out
    decreases |c.banks| - k
  {
    if k == |c.banks| {
      SameWaiters(cfg, c.rq, c.rq, c.out);
    } else {
      var next := Unschedule(cfg, c, k, now);
      SameWaiters(cfg, c.rq, next.rq, c.out);
      UnscheduleAllServes(cfg, next, k + 1, now, d);
      ServesTrans(cfg, c.rq, c.out, next.rq, next.out, d.rq, d.out);
    }
  }

  /** A call of the controller forgets no reader: whoever waited on a block before the
      call still waits on it, or was sent a response for it during the call. */
  lemma OperateServes(cfg: Config, c: Channel, now: nat, warmup: bool, d: Channel)
    requires cfg.Valid() && Shaped(cfg, c) && d == Operate(cfg, c, now, warmup)
    ensures Serves(cfg, c.rq, c.out, d.rq, d.out)
  {
    var c0 := if warmup then Drain(c) else c;
    if warmup {
      DrainReadsServe(cfg, c.rq, c.out, 0, DrainReads(c.rq, c.out, 0));
    } else {
      SameWaiters(cfg, c.rq, c.rq, c.out);
    }
    var c1 := CheckCollision(cfg, c0);
    CheckReadsServe(cfg, c0.rq, c1.wq, c0.out, 0, (c1.rq, c1.out));
    ServesTrans(cfg, c.rq, c.out, c0.rq, c0.out, c1.rq, c1.out);
    var c2 := FinishRequest(c1, now);
    FinishServes(cfg, c1, now);
    ServesTrans(cfg, c.rq, c.out, c1.rq, c1.out, c2.rq, c2.out);
    hide CheckCollision; hide Drain; hide FinishRequest;
    LateStagesServe(cfg, c2, now);
    OperateShape(cfg, c, now, warmup);
    ServesTrans(cfg, c.rq, c.out, c2.rq, c2.out, d.rq, d.out);
  }

  lemma LateStagesServe(cfg: Config, c: Channel, now: nat)
    requires cfg.Valid() && |c.rq| > 0 && |c.wq| > 0 && |c.banks| == cfg.ranks * cfg.banks
    requires c.active.Some? ==> c.active.value < |c.banks|
    ensures var c1 := SwitchMode(cfg, c, now);
      |c1.rq| > 0 && |c1.wq| > 0 && |c1.banks| == |c.banks| && c1.active == c.active
    ensures var d := ScheduleRequest(cfg, UseBus(cfg, SwitchMode(cfg, c, now), now), now);
      Serves(cfg, c.rq, c.out, d.rq, d.out)
  {
    var c1 := SwitchMode(cfg, c, now);
    UnscheduleAllServes(cfg, c, 0, now, UnscheduleAll(cfg, c, 0, now));
    UnscheduleAllShape(cfg, c, 0, now);
    SameWaiters(cfg, c.rq, c.rq, c.out);
    assert Serves(cfg, c.rq, c.out, c1.rq, c1.out);
    hide SwitchMode, UseBus, ScheduleRequest, Serves;
    BusAndBanksServe(cfg, c1, now);
    var d := ScheduleRequest(cfg, UseBus(cfg, c1, now), now);
    ServesTrans(cfg, c.rq, c.out, c1.rq, c1.out, d.rq, d.out);
  }

  lemma BusAndBanksServe(cfg: Config, c: Channel, now: nat)
    requires cfg.Valid() && |c.rq| > 0 && |c.wq| > 0 && |c.banks| == cfg.ranks * cfg.banks
    requires c.active.Some? ==> c.active.value < |c.banks|
    ensures var d := ScheduleRequest(cfg, UseBus(cfg, c, now), now); Serves(cfg, c.rq, c.out, d.rq, d.out)
  {
    var c1 := UseBus(cfg, c, now);
    assert c1.rq == c.rq && c1.out == c.out;
    SameWaiters(cfg, c1.rq, ScheduleRequest(cfg, c1, now).rq, c1.out);
  }
}
