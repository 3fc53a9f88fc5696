/** Pointer consistency of the memory channel: bank requests and scheduled queue entries
    point at each other, one to one, through every stage. */
module DramPointers {
  import opened Options
  import opened DramState
  import opened Scans

  /** A valid bank request points at a scheduled entry of its own bank, in the queue of
      the current mode unless it is the transfer on the bus. */
  ghost predicate BankLinked(cfg: Config, c: Channel, i: int)
    requires cfg.Valid()
  {
    0 <= i < |c.banks| && c.banks[i].valid ==>
      var s := c.banks[i].pkt;
      && s.index < |c.Q(s.write)| && c.Q(s.write)[s.index].Some?
      && c.Q(s.write)[s.index].value.scheduled
      && OpIndex(cfg, c.Q(s.write)[s.index].value.address) == i
      && (c.active != Some(i) ==> s.write == c.writeMode)
  }

  /** A scheduled entry is pointed at by the valid request of the bank its address
      decodes to; it was checked for collisions and is not up for scheduling again. */
  ghost predicate EntryLinked(cfg: Config, c: Channel, write: bool, k: int)
    requires cfg.Valid()
  {
    0 <= k < |c.Q(write)| && c.Q(write)[k].Some? && c.Q(write)[k].value.scheduled ==>
      var e := c.Q(write)[k].value;
      var i := OpIndex(cfg, e.address);
      && i < |c.banks| && c.banks[i].valid && c.banks[i].pkt == Slot(write, k)
      && e.checked && e.event == NEVER
  }

  ghost predicate PointerInv(cfg: Config, c: Channel) {
    && cfg.Valid()
    && |c.rq| == cfg.rqSize && |c.wq| == cfg.wqSize && |c.banks| == cfg.ranks * cfg.banks
    && (c.active.Some? ==> c.active.value < |c.banks| && c.banks[c.active.value].valid)
    && (forall i :: BankLinked(cfg, c, i))
    && (forall k :: EntryLinked(cfg, c, false, k))
    && (forall k :: EntryLinked(cfg, c, true, k))
  }

  /** Exactly one valid bank request points at a scheduled entry, and none at others. */
  lemma ScheduledIffPointedAt(cfg: Config, c: Channel, write: bool, k: nat)
    requires PointerInv(cfg, c) && k < |c.Q(write)| && c.Q(write)[k].Some?
    ensures c.Q(write)[k].value.scheduled <==>
              exists i :: 0 <= i < |c.banks| && c.banks[i].valid && c.banks[i].pkt == Slot(write, k)
    ensures forall i :: 0 <= i < |c.banks| && c.banks[i].valid && c.banks[i].pkt == Slot(write, k) ==>
              i == OpIndex(cfg, c.Q(write)[k].value.address)
  {
    assert EntryLinked(cfg, c, write, k);
    forall i | 0 <= i < |c.banks| && c.banks[i].valid && c.banks[i].pkt == Slot(write, k)
      ensures c.Q(write)[k].value.scheduled && i == OpIndex(cfg, c.Q(write)[k].value.address)
    {
      assert BankLinked(cfg, c, i);
    }
  }

  // ---- Queue changes that touch no scheduled entry ----

  /** `b` differs from `a` only in unscheduled entries, and keeps what matters of the
      scheduled ones. */
  ghost predicate SameScheduled(a: Queue, b: Queue) {
    && |a| == |b|
    && (forall k :: 0 <= k < |a| && a[k].Some? && a[k].value.scheduled ==>
          b[k].Some? && b[k].value.(deps := a[k].value.deps, toReturn := a[k].value.toReturn) == a[k].value)
    && (forall k :: 0 <= k < |a| && b[k].Some? && b[k].value.scheduled ==> a[k].Some? && a[k].value.scheduled)
  }

  lemma SameScheduledKeeps(cfg: Config, c: Channel, d: Channel)
    requires PointerInv(cfg, c) && SameScheduled(c.rq, d.rq) && SameScheduled(c.wq, d.wq)
    requires d.banks == c.banks && d.active == c.active && d.writeMode == c.writeMode
    ensures PointerInv(cfg, d)
  {
    forall i ensures BankLinked(cfg, d, i) {
      assert BankLinked(cfg, c, i);
    }
    forall k ensures EntryLinked(cfg, d, false, k) {
      assert EntryLinked(cfg, c, false, k);
    }
    forall k ensures EntryLinked(cfg, d, true, k) {
      assert EntryLinked(cfg, c, true, k);
    }
  }

  ghost predicate CheckedIfScheduled(q: Queue) {
    forall k :: 0 <= k < |q| && q[k].Some? && q[k].value.scheduled ==> q[k].value.checked
  }

  lemma ScheduledAreChecked(cfg: Config, c: Channel, write: bool)
    requires PointerInv(cfg, c)
    ensures CheckedIfScheduled(c.Q(write))
  {
    forall k | 0 <= k < |c.Q(write)| && c.Q(write)[k].Some? && c.Q(write)[k].value.scheduled
      ensures c.Q(write)[k].value.checked
    {
      assert EntryLinked(cfg, c, write, k);
    }
  }

  lemma SameScheduledTrans(a: Queue, b: Queue, c: Queue)
    requires SameScheduled(a, b) && SameScheduled(b, c)
    ensures SameScheduled(a, c)
  {
    forall k | 0 <= k < |a| && a[k].Some? && a[k].value.scheduled
      ensures c[k].Some? && c[k].value.(deps := a[k].value.deps, toReturn := a[k].value.toReturn) == a[k].value
    {
      assert b[k].value.(deps := a[k].value.deps, toReturn := a[k].value.toReturn) == a[k].value;
      assert b[k].value.scheduled;
    }
  }

  /** Collision checking never clears a scheduled entry. */
  lemma {:induction false} CheckWritesScheduled(cfg: Config, wq: Queue, k: nat)
    requires cfg.blockSize > 0 && k <= |wq| && CheckedIfScheduled(wq)
    ensures SameScheduled(wq, CheckWrites(cfg, wq, k)) && CheckedIfScheduled(CheckWrites(cfg, wq, k))
    decreases |wq| - k
  {
    if k == |wq| {
    } else {
      var next := CheckWrite(cfg, wq, k);
      assert SameScheduled(wq, next) && CheckedIfScheduled(next);
      CheckWritesScheduled(cfg, next, k + 1);
      SameScheduledTrans(wq, next, CheckWrites(cfg, next, k + 1));
    }
  }

  lemma CheckReadScheduled(cfg: Config, rq: Queue, wq: Queue, out: seq<Response>, k: nat)
    requires cfg.blockSize > 0 && k < |rq| && CheckedIfScheduled(rq)
    ensures SameScheduled(rq, CheckRead(cfg, rq, wq, out, k).0) && CheckedIfScheduled(CheckRead(cfg, rq, wq, out, k).0)
  {
  }

  lemma {:induction false} CheckReadsScheduled(cfg: Config, rq: Queue, wq: Queue, out: seq<Response>, k: nat)
    requires cfg.blockSize > 0 && k <= |rq| && CheckedIfScheduled(rq)
    ensures SameScheduled(rq, CheckReads(cfg, rq, wq, out, k).0)
    decreases |rq| - k
  {
    if k == |rq| {
    } else {
      var (rq1, out1) := CheckRead(cfg, rq, wq, out, k);
      CheckReadScheduled(cfg, rq, wq, out, k);
      CheckReadsScheduled(cfg, rq1, wq, out1, k + 1);
      SameScheduledTrans(rq, rq1, CheckReads(cfg, rq1, wq, out1, k + 1).0);
    }
  }

  lemma CheckCollisionPointers(cfg: Config, c: Channel)
    requires PointerInv(cfg, c)
    ensures PointerInv(cfg, CheckCollision(cfg, c))
    ensures SameScheduled(c.rq, CheckCollision(cfg, c).rq) && SameScheduled(c.wq, CheckCollision(cfg, c).wq)
  {
    ScheduledAreChecked(cfg, c, false);
    ScheduledAreChecked(cfg, c, true);
    CheckWritesScheduled(cfg, c.wq, 0);
    CheckReadsScheduled(cfg, c.rq, CheckWrites(cfg, c.wq, 0), c.out, 0);
    SameScheduledKeeps(cfg, c, CheckCollision(cfg, c));
  }

  // ---- The end of a transfer ----

  lemma FinishPointers(cfg: Config, c: Channel, now: nat)
    requires PointerInv(cfg, c)
    ensures var d := FinishRequest(c, now);
      && PointerInv(cfg, d) && d.writeMode == c.writeMode && d.busFree == c.busFree
      && (d.active.Some? ==> d == c && d.banks[d.active.value].event > now)
  {
    if c.active.Some? && c.banks[c.active.value].event <= now {
      var i, d := c.active.value, FinishRequest(c, now);
      var s := c.banks[i].pkt;
      assert BankLinked(cfg, c, i);
      forall j ensures BankLinked(cfg, d, j) {
        assert BankLinked(cfg, c, j);
      }
      forall k ensures EntryLinked(cfg, d, false, k) {
        assert EntryLinked(cfg, c, false, k);
      }
      forall k ensures EntryLinked(cfg, d, true, k) {
        assert EntryLinked(cfg, c, true, k);
      }
    }
  }

  // ---- Mode switches ----

  lemma UnschedulePointers(cfg: Config, c: Channel, k: nat, now: nat)
    requires PointerInv(cfg, c) && k < |c.banks|
    ensures var d := Unschedule(cfg, c, k, now);
      && PointerInv(cfg, d) && d.active == c.active && d.writeMode == c.writeMode && d.busFree == c.busFree
      && (c.active != Some(k) ==> !d.banks[k].valid)
      && (forall j :: 0 <= j < |c.banks| && (j != k || c.active == Some(k)) ==> d.banks[j] == c.banks[j])
  {
    if c.active != Some(k) && c.banks[k].valid {
      var d, s := Unschedule(cfg, c, k, now), c.banks[k].pkt;
      assert BankLinked(cfg, c, k);
      forall j ensures BankLinked(cfg, d, j) {
        assert BankLinked(cfg, c, j);
      }
      forall q ensures EntryLinked(cfg, d, false, q) {
        assert EntryLinked(cfg, c, false, q);
      }
      forall q ensures EntryLinked(cfg, d, true, q) {
        assert EntryLinked(cfg, c, true, q);
      }
    }
  }

  lemma {:induction false} UnscheduleAllPointers(cfg: Config, c: Channel, k: nat, now: nat, d: Channel)
    requires PointerInv(cfg, c) && k <= |c.banks| && d == UnscheduleAll(cfg, c, k, now)
    requires forall j :: 0 <= j < k && c.active != Some(j) ==> !c.banks[j].valid
    ensures PointerInv(cfg, d) && d.active == c.active && d.writeMode == c.writeMode
    ensures forall j :: 0 <= j < |d.banks| && d.active != Some(j) ==> !d.banks[j].valid
    ensures d.active.Some? ==> d.banks[d.active.value] == c.banks[d.active.value]
    decreases |c.banks| - k
  {
    if k == |c.banks| {
    } else {
      var next := Unschedule(cfg, c, k, now);
      UnschedulePointers(cfg, c, k, now);
      hide Unschedule;
      UnscheduleAllPointers(cfg, next, k + 1, now, d);
    }
  }

  lemma SwitchPointers(cfg: Config, c: Channel, now: nat, d: Channel)
    requires PointerInv(cfg, c) && d == SwitchMode(cfg, c, now)
    ensures PointerInv(cfg, d) && d.active == c.active
    ensures d.active.Some? ==> d.banks[d.active.value] == c.banks[d.active.value]
    ensures d.writeMode != c.writeMode ==> forall j :: 0 <= j < |d.banks| && d.active != Some(j) ==> !d.banks[j].valid
    ensures d.writeMode != c.writeMode <==> Unbalanced(cfg, c)
    ensures d.writeMode == c.writeMode ==> d == c
    ensures d.writeMode != c.writeMode ==>
              d.busFree == (if c.active.Some? then c.banks[c.active.value].event else now) + cfg.turnAround
  {
    if Unbalanced(cfg, c) {
      var c1 := UnscheduleAll(cfg, c, 0, now);
      UnscheduleAllPointers(cfg, c, 0, now, c1);
      hide UnscheduleAll;
      assert d == c1.(busFree := d.busFree, writeMode := !c.writeMode);
      forall j ensures BankLinked(cfg, d, j) { assert BankLinked(cfg, c1, j); }
      forall k ensures EntryLinked(cfg, d, false, k) { assert EntryLinked(cfg, c1, false, k); }
      forall k ensures EntryLinked(cfg, d, true, k) { assert EntryLinked(cfg, c1, true, k); }
    }
  }

  // ---- The bus and the banks ----

  lemma UseBusPointers(cfg: Config, c: Channel, now: nat)
    requires PointerInv(cfg, c)
    ensures PointerInv(cfg, UseBus(cfg, c, now))
  {
    var d := UseBus(cfg, c, now);
    forall j ensures BankLinked(cfg, d, j) { assert BankLinked(cfg, c, j); }
    forall k ensures EntryLinked(cfg, d, false, k) { assert EntryLinked(cfg, c, false, k); }
    forall k ensures EntryLinked(cfg, d, true, k) { assert EntryLinked(cfg, c, true, k); }
  }

  /** Whatever the scan returns, an entry that is due is not scheduled already. */
  lemma DueIsUnscheduled(cfg: Config, c: Channel, now: nat, k: nat)
    requires PointerInv(cfg, c) && now < NEVER && k < |c.Q(c.writeMode)|
    requires c.Q(c.writeMode)[k].Some? && c.Q(c.writeMode)[k].value.event <= now
    ensures !c.Q(c.writeMode)[k].value.scheduled
  {
    assert EntryLinked(cfg, c, c.writeMode, k);
  }

  lemma SchedulePointers(cfg: Config, c: Channel, now: nat)
    requires PointerInv(cfg, c) && now < NEVER
    requires forall k :: 0 <= k < |c.Q(c.writeMode)| && c.Q(c.writeMode)[k].Some? ==> c.Q(c.writeMode)[k].value.checked
    ensures PointerInv(cfg, ScheduleRequest(cfg, c, now))
  {
    var q, d := c.Q(c.writeMode), ScheduleRequest(cfg, c, now);
    var n := Scan(q, Unscheduled(), RequestAge());
    if q[n].Some? && q[n].value.event <= now && !c.banks[OpIndex(cfg, q[n].value.address)].valid {
      DueIsUnscheduled(cfg, c, now, n);
      forall j ensures BankLinked(cfg, d, j) { assert BankLinked(cfg, c, j); }
      forall k ensures EntryLinked(cfg, d, false, k) { assert EntryLinked(cfg, c, false, k); }
      forall k ensures EntryLinked(cfg, d, true, k) { assert EntryLinked(cfg, c, true, k); }
    }
  }
}
