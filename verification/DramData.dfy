/** Whose data a response carries, and which of several writes to a block stays. */
module DramData {
  import opened Options
  import opened Scans
  import opened DramState
  import opened DramPointers
  import opened DramQueues
  import opened DramRuns

  // ---- Writes to one block ----

  /** `r` is occupied as `a` is, with the same request. */
  ghost predicate SameRequest(a: Option<Request>, r: Option<Request>) {
    a.Some? && r.Some? && r.value == a.value.(checked := r.value.checked)
  }

  /** Another write makes new write `k` go: one that was checked before, or a new one in a
      later slot. */
  ghost predicate Superseded(cfg: Config, wq: Queue, k: int, j: int)
    requires cfg.blockSize > 0
  {
    && 0 <= k < |wq| && 0 <= j < |wq| && j != k && wq[k].Some? && SameBlock(cfg, wq[j], wq[k].value.address)
    && (wq[j].value.checked || j > k)
  }

  ghost predicate Stays(cfg: Config, wq: Queue, k: int)
    requires cfg.blockSize > 0
  {
    0 <= k < |wq| && wq[k].Some? && (wq[k].value.checked || forall j :: !Superseded(cfg, wq, k, j))
  }

  /** Of the writes to a block, exactly the checked one stays, or else the one in the last
      slot; nothing else changes. */
  lemma {:induction false} CheckWritesExactly(cfg: Config, wq: Queue, k: nat, d: Queue)
    requires cfg.blockSize > 0 && k <= |wq| && CheckedBelow(wq, k) && d == CheckWrites(cfg, wq, k)
    ensures |d| == |wq|
    ensures forall i :: 0 <= i < |wq| ==> if Stays(cfg, wq, i) then SameRequest(wq[i], d[i]) else d[i].None?
    decreases |wq| - k
  {
    if k == |wq| {
    } else {
      var next := CheckWrite(cfg, wq, k);
      CheckWriteExactly(cfg, wq, k, next);
      hide CheckWrite, Stays;
      CheckWritesExactly(cfg, next, k + 1, d);
      forall i | 0 <= i < |wq| ensures if Stays(cfg, wq, i) then SameRequest(wq[i], d[i]) else d[i].None? {
        StaysStep(cfg, wq, k, next, i);
      }
    }
  }

  lemma CheckWriteExactly(cfg: Config, wq: Queue, k: nat, d: Queue)
    requires cfg.blockSize > 0 && k < |wq| && CheckedBelow(wq, k) && d == CheckWrite(cfg, wq, k)
    ensures CheckedBelow(d, k + 1) && |d| == |wq| && forall i :: 0 <= i < |wq| && i != k ==> d[i] == wq[i]
    ensures if Stays(cfg, wq, k) then SameRequest(wq[k], d[k]) && d[k].value.checked else d[k].None?
  {
    if wq[k].Some? && !wq[k].value.checked {
      var a := wq[k].value.address;
      var before, after := FindBlock(cfg, wq, 0, k, a), FindBlock(cfg, wq, k + 1, |wq|, a);
      if before < k {
        assert Superseded(cfg, wq, k, before);
      } else if after < |wq| {
        assert Superseded(cfg, wq, k, after);
      } else {
        assert forall j :: 0 <= j < |wq| && j != k ==> !SameBlock(cfg, wq[j], a);
      }
    }
  }

  lemma StaysStep(cfg: Config, wq: Queue, k: nat, d: Queue, i: nat)
    requires cfg.blockSize > 0 && k < |wq| == |d| && i < |wq| && CheckedBelow(wq, k)
    requires forall j :: 0 <= j < |wq| && j != k ==> d[j] == wq[j]
    requires if Stays(cfg, wq, k) then SameRequest(wq[k], d[k]) && d[k].value.checked else d[k].None?
    ensures Stays(cfg, d, i) == Stays(cfg, wq, i)
    ensures Stays(cfg, d, i) ==> SameRequest(wq[i], d[i])
  {
    if i != k && wq[i].Some? && !wq[i].value.checked {
      forall j ensures Superseded(cfg, d, i, j) == Superseded(cfg, wq, i, j) {
        if j == k && SameBlock(cfg, wq[k], wq[i].value.address) && !wq[k].value.checked {
          assert i > k;
          assert Superseded(cfg, wq, k, i);
        }
      }
    }
  }

  // ---- Reads answered from the write queue ----

  /** The response carries the data that a queued write holds for its block. */
  ghost predicate FromWrite(cfg: Config, wq: Queue, r: Response)
    requires cfg.blockSize > 0
  {
    exists j :: 0 <= j < |wq| && SameBlock(cfg, wq[j], r.address) && r.data == wq[j].value.data
  }

  ghost predicate Unwritten(cfg: Config, wq: Queue, address: nat)
    requires cfg.blockSize > 0
  {
    forall j :: 0 <= j < |wq| ==> !SameBlock(cfg, wq[j], address)
  }

  lemma CheckReadForwards(cfg: Config, rq: Queue, wq: Queue, out: seq<Response>, k: nat, r: (Queue, seq<Response>))
    requires cfg.blockSize > 0 && k < |rq| && r == CheckRead(cfg, rq, wq, out, k)
    ensures |r.0| == |rq| && out <= r.1 && forall n :: |out| <= n < |r.1| ==> FromWrite(cfg, wq, r.1[n])
    ensures r.0[k].Some? && rq[k].Some? && !rq[k].value.checked ==> Unwritten(cfg, wq, r.0[k].value.address)
    ensures forall i :: 0 <= i < |rq| && r.0[i].Some? ==> rq[i].Some? && r.0[i].value.address == rq[i].value.address
    ensures forall i :: 0 <= i < |rq| && i != k && r.0[i].Some? ==> r.0[i].value.checked == rq[i].value.checked
  {
    if rq[k].Some? && !rq[k].value.checked {
      var x := rq[k].value;
      var w := FindBlock(cfg, wq, 0, |wq|, x.address);
      if w < |wq| {
        forall n | |out| <= n < |r.1| ensures FromWrite(cfg, wq, r.1[n]) {
          assert r.1[n] == Responses(x, wq[w].value.data, x.toReturn)[n - |out|];
          assert SameBlock(cfg, wq[w], r.1[n].address);
        }
      }
    }
  }

  /** Every response sent carries the data of a queued write to its block, and no new read
      of a block with a queued write is left. */
  lemma {:induction false} CheckReadsForward(
      cfg: Config, rq: Queue, wq: Queue, out: seq<Response>, k: nat, r: (Queue, seq<Response>))
    requires cfg.blockSize > 0 && k <= |rq| && r == CheckReads(cfg, rq, wq, out, k)
    ensures |r.0| == |rq| && out <= r.1 && forall n :: |out| <= n < |r.1| ==> FromWrite(cfg, wq, r.1[n])
    ensures forall i :: 0 <= i < |rq| && r.0[i].Some? ==> rq[i].Some? && r.0[i].value.address == rq[i].value.address
    ensures forall i :: k <= i < |rq| && r.0[i].Some? && !rq[i].value.checked ==>
              Unwritten(cfg, wq, r.0[i].value.address)
    decreases |rq| - k
  {
    if k == |rq| {
    } else {
      var next := CheckRead(cfg, rq, wq, out, k);
      CheckReadForwards(cfg, rq, wq, out, k, next);
      hide CheckRead, FromWrite, Unwritten;
      CheckReadsForward(cfg, next.0, wq, next.1, k + 1, r);
      forall n | |out| <= n < |r.1| ensures FromWrite(cfg, wq, r.1[n]) {
        if n < |next.1| { assert r.1[n] == next.1[n]; }
      }
    }
  }

  /** Forwarding in a call: the data sent is that of the write to the block that stays, and
      exactly the new reads of such blocks are answered. */
  lemma CollisionForwards(cfg: Config, c: Channel, d: Channel)
    requires cfg.blockSize > 0 && d == CheckCollision(cfg, c)
    ensures |d.wq| == |c.wq| && |d.rq| == |c.rq| && c.out <= d.out
    ensures forall i :: 0 <= i < |c.wq| ==> if Stays(cfg, c.wq, i) then SameRequest(c.wq[i], d.wq[i]) else d.wq[i].None?
    ensures forall n :: |c.out| <= n < |d.out| ==> FromWrite(cfg, d.wq, d.out[n])
    ensures forall i :: 0 <= i < |c.rq| && d.rq[i].Some? && c.rq[i].Some? && !c.rq[i].value.checked ==>
              Unwritten(cfg, d.wq, d.rq[i].value.address)
  {
    CheckWritesExactly(cfg, c.wq, 0, d.wq);
    CheckReadsForward(cfg, c.rq, d.wq, c.out, 0, (d.rq, d.out));
  }

  // ---- Reads answered by a transfer, and in the warm-up ----

  /** The end of a transfer answers with the address, data and dependents of its entry, once
      to each queue that waits, and frees the entry. */
  lemma FinishAnswers(cfg: Config, c: Channel, now: nat, d: Channel)
    requires PointerInv(cfg, c) && d == FinishRequest(c, now) && c.active.Some? && c.banks[c.active.value].event <= now
    ensures
      var s := c.banks[c.active.value].pkt;
      && s.index < |c.Q(s.write)| && c.Q(s.write)[s.index].Some?
      && d.active.None? && d.Q(s.write) == c.Q(s.write)[s.index := None] && d.Q(!s.write) == c.Q(!s.write)
      && var e := c.Q(s.write)[s.index].value;
      && |d.out| == |c.out| + |e.toReturn| && c.out <= d.out
      && forall n :: 0 <= n < |e.toReturn| ==>
           d.out[|c.out| + n] == Response(e.toReturn[n], e.address, e.data, e.deps)
  {
    assert BankLinked(cfg, c, c.active.value);
  }

  /** In the warm-up each read is answered with its own data. */
  lemma {:induction false} DrainAnswers(rq: Queue, out: seq<Response>, k: nat, r: (Queue, seq<Response>), n: nat)
    requires k <= |rq| && r == DrainReads(rq, out, k) && |out| <= n < |r.1|
    ensures out <= r.1
    ensures exists i :: k <= i < |rq| && rq[i].Some? && r.1[n].to in rq[i].value.toReturn
              && r.1[n] == Response(r.1[n].to, rq[i].value.address, rq[i].value.data, rq[i].value.deps)
    decreases |rq| - k
  {
    DrainGrows(rq, out, k, r);
    if rq[k].Some? {
      var e := rq[k].value;
      var more := out + Responses(e, e.data, e.toReturn);
      DrainGrows(rq[k := None], more, k + 1, r);
      if n < |more| {
        assert r.1[n] == more[n] && more[n] == Responses(e, e.data, e.toReturn)[n - |out|];
      } else {
        DrainAnswers(rq[k := None], more, k + 1, r, n);
      }
    } else {
      DrainAnswers(rq, out, k + 1, r, n);
    }
  }

  lemma {:induction false} DrainGrows(rq: Queue, out: seq<Response>, k: nat, r: (Queue, seq<Response>))
    requires k <= |rq| && r == DrainReads(rq, out, k)
    ensures out <= r.1 && (k == |rq| ==> r.1 == out)
    decreases |rq| - k
  {
    if k == |rq| {
    } else if rq[k].Some? {
      DrainGrows(rq[k := None], out + Responses(rq[k].value, rq[k].value.data, rq[k].value.toReturn), k + 1, r);
    } else {
      DrainGrows(rq, out, k + 1, r);
    }
  }

  // ---- The decision on the mode ----

  ghost function Held(q: Queue): set<int> {
    set k | 0 <= k < |q| && q[k].Some?
  }

  /** The mode flips exactly when, counting the requests held: in read mode, the writes reach
      7/8 of their queue or there are writes only; in write mode, no write is left, or there
      are reads and fewer writes than 6/8 of their queue. */
  lemma FlipsExactly(cfg: Config, c: Channel, now: nat, d: Channel)
    requires PointerInv(cfg, c) && d == SwitchMode(cfg, c, now)
    ensures d.writeMode != c.writeMode <==>
              var w, r := |Held(c.wq)|, |Held(c.rq)|;
              if c.writeMode then w == 0 || (r > 0 && w < cfg.wqSize * 6 / 8)
              else w >= cfg.wqSize * 7 / 8 || (r == 0 && w > 0)
  {
    SwitchPointers(cfg, c, now, d);
    OccupancyIsHeld(c.wq);
    OccupancyIsHeld(c.rq);
  }

  lemma OccupancyIsHeld(q: Queue)
    ensures Occupancy(q) == |Held(q)|
  {
    TallyIsCardinality(q, Occupied());
    assert Positions(q, Occupied()) == Held(q);
  }

  // ---- New requests ----

  /** Slot `k`, the first empty one, holds the request. */
  ghost predicate TakenAt(q: Queue, r: Request, now: nat, q': Queue, k: int) {
    && 0 <= k < |q| && q[k].None? && (forall j :: 0 <= j < k ==> q[j].Some?)
    && q' == q[k := Some(Request(r.address, r.data, r.deps, r.toReturn, false, false, now))]
  }

  /** A queue refuses a request exactly when it is full; otherwise the first empty slot
      takes it as it is, new and due at once, and no other slot changes. */
  lemma AddsExactly(q: Queue, r: Request, now: nat, res: (Queue, bool))
    requires res == AddTo(q, r, now)
    ensures res.1 <==> exists k :: 0 <= k < |q| && q[k].None?
    ensures !res.1 ==> res.0 == q
    ensures res.1 ==> exists k :: TakenAt(q, r, now, res.0, k)
  {
    var k := First(q, Empty());
    assert forall j :: 0 <= j < k ==> !Empty()(q[j]);
    if k < |q| { assert TakenAt(q, r, now, res.0, k); }
  }
}
