/** Whole runs of a cache level: the misses stay in order, and every waiter is answered or still held. */
module CacheRuns {
  import opened SetUnion
  import opened Cache
  import opened CacheProof
  import Q = ChannelQueues

  // ---- Waiters ----

  /** Instructions `deps` wait for `block`; the response goes to upper queue `ret`. */
  datatype Waiter = Waiter(ret: nat, block: nat, deps: set<nat>)

  ghost predicate Covers(address: nat, deps: seq<nat>, w: Waiter, blockSize: nat)
    requires blockSize > 0
  {
    address / blockSize == w.block && forall d :: d in w.deps ==> d in deps
  }

  ghost predicate Holds(m: Mshr, w: Waiter, blockSize: nat)
    requires blockSize > 0
  {
    w.ret in m.toReturn && Covers(m.address, m.deps, w, blockSize)
  }

  ghost predicate Asks(t: Tag, w: Waiter, blockSize: nat)
    requires blockSize > 0
  {
    w.ret in t.toReturn && Covers(t.address, t.deps, w, blockSize)
  }

  ghost predicate Held(q: seq<Mshr>, w: Waiter, blockSize: nat)
    requires blockSize > 0
  {
    exists k :: 0 <= k < |q| && Holds(q[k], w, blockSize)
  }

  ghost predicate Asked(q: seq<Tag>, w: Waiter, blockSize: nat)
    requires blockSize > 0
  {
    exists k :: 0 <= k < |q| && Asks(q[k], w, blockSize)
  }

  type Ups = seq<seq<Q.Response>>

  ghost predicate Grows(u: Ups, v: Ups) {
    |u| == |v| && forall x :: 0 <= x < |u| ==> u[x] <= v[x]
  }

  ghost predicate Answered(u: Ups, v: Ups, w: Waiter, blockSize: nat)
    requires blockSize > 0
  {
    && w.ret < |u| && w.ret < |v|
    && exists n :: |u[w.ret]| <= n < |v[w.ret]| && Covers(v[w.ret][n].address, v[w.ret][n].deps, w, blockSize)
  }

  lemma AnsweredEarlier(u: Ups, v: Ups, x: Ups, w: Waiter, blockSize: nat)
    requires blockSize > 0 && Grows(u, v) && Grows(v, x) && Answered(v, x, w, blockSize)
    ensures Answered(u, x, w, blockSize)
  {
  }

  lemma AnsweredLater(u: Ups, v: Ups, x: Ups, w: Waiter, blockSize: nat)
    requires blockSize > 0 && Grows(u, v) && Grows(v, x) && Answered(u, v, w, blockSize)
    ensures Answered(u, x, w, blockSize)
  {
    var n :| |u[w.ret]| <= n < |v[w.ret]| && Covers(v[w.ret][n].address, v[w.ret][n].deps, w, blockSize);
    assert x[w.ret][n] == v[w.ret][n];
  }

  // ---- Each step keeps or answers ----

  lemma PushedToAll(u: Ups, rets: seq<nat>, r: Q.Response, v: Ups, w: Waiter, blockSize: nat)
    requires blockSize > 0 && Sorted(rets) && (forall x :: x in rets ==> x < |u|) && v == PushAll(u, rets, r)
    ensures Grows(u, v)
    ensures w.ret in rets && Covers(r.address, r.deps, w, blockSize) ==> Answered(u, v, w, blockSize)
  {
    PushAllOnce(u, rets, r, v);
    if w.ret in rets && Covers(r.address, r.deps, w, blockSize) {
      assert v[w.ret][|u[w.ret]|] == r;
    }
  }

  lemma FillServes(c: Config, s: State, f: Mshr, choice: Choice, r: (bool, State), w: Waiter)
    requires Positive(c) && Shaped(c, s) && Sorted(f.toReturn) && (forall x :: x in f.toReturn ==> x < |s.ups|)
    requires r == HandleFill(c, s, f, choice)
    ensures Shaped(c, r.1) && Grows(s.ups, r.1.ups)
    ensures r.0 && Holds(f, w, c.blockSize) ==> Answered(s.ups, r.1.ups, w, c.blockSize)
  {
    if r.0 {
      PushedToAll(s.ups, f.toReturn, Q.Response(f.address, f.data, choice.metadata, f.deps), r.1.ups, w, c.blockSize);
    }
  }

  lemma {:induction false} FillFromServes(
      c: Config, s: State, q: seq<Mshr>, k: nat, limit: nat, now: nat, pick: nat -> Choice, r: (nat, State), w: Waiter)
    requires Positive(c) && Shaped(c, s) && Fillable(|s.ups|, q) && k <= |q| && TidyMshr(q, |s.ups|)
    requires r == FillFrom(c, s, q, k, limit, now, pick)
    ensures Grows(s.ups, r.1.ups)
    ensures Held(q[k..r.0], w, c.blockSize) ==> Answered(s.ups, r.1.ups, w, c.blockSize)
    decreases |q| - k
  {
    hide HandleFill, Holds, Answered, Shaped, Grows;
    if k < limit && k < |q| && q[k].event <= now {
      var f := HandleFill(c, s, q[k], pick(k));
      FillServes(c, s, q[k], pick(k), f, w);
      if f.0 {
        FillFromServes(c, f.1, q, k + 1, limit, now, pick, r, w);
        GrowsTrans(s.ups, f.1.ups, r.1.ups);
        if Held(q[k..r.0], w, c.blockSize) {
          var j :| 0 <= j < |q[k..r.0]| && Holds(q[k..r.0][j], w, c.blockSize);
          if j == 0 {
            AnsweredLater(s.ups, f.1.ups, r.1.ups, w, c.blockSize);
          } else {
            assert q[k..r.0][j] == q[k + 1..r.0][j - 1];
            AnsweredEarlier(s.ups, f.1.ups, r.1.ups, w, c.blockSize);
          }
        }
      } else {
        GrowsSelf(s.ups);
      }
    } else {
      GrowsSelf(s.ups);
    }
  }

  lemma GrowsSelf(u: Ups)
    ensures Grows(u, u)
  {
  }

  lemma GrowsTrans(u: Ups, v: Ups, x: Ups)
    requires Grows(u, v) && Grows(v, x)
    ensures Grows(u, x)
  {
  }

  /** A miss that is accepted holds its waiters, and no other entry loses any. */
  lemma HandleMissServes(c: Config, s: State, t: Tag, now: nat, r: (bool, State), w: Waiter)
    requires c.blockSize > 0 && NoneLater(s.mshr) && TidyTags([t], |s.ups|) && r == HandleMiss(c, s, t, now)
    ensures !r.0 ==> r.1 == s
    ensures r.0 && Asks(t, w, c.blockSize) ==> Held(r.1.mshr, w, c.blockSize)
    ensures Held(s.mshr, w, c.blockSize) ==> Held(r.1.mshr, w, c.blockSize)
  {
    assert [t][0] == t;
    var i := FindBlock(s.mshr, t.address, c.blockSize, 0);
    if i < |s.mshr| {
      MergeKeepsReturned(s.mshr[i], t, now, c.blockSize);
      if Asks(t, w, c.blockSize) { assert Holds(r.1.mshr[i], w, c.blockSize); }
    } else if r.0 && Asks(t, w, c.blockSize) {
      assert Holds(r.1.mshr[|s.mshr|], w, c.blockSize);
    }
    if Held(s.mshr, w, c.blockSize) {
      var k :| 0 <= k < |s.mshr| && Holds(s.mshr[k], w, c.blockSize);
      assert Holds(r.1.mshr[k], w, c.blockSize);
    }
  }

  ghost predicate HeldIn(s: State, w: Waiter, blockSize: nat)
    requires blockSize > 0
  {
    Held(s.mshr, w, blockSize) || Held(s.writes, w, blockSize)
  }

  lemma TagCheckServes(c: Config, s: State, t: Tag, now: nat, latency: nat, metadata: nat, r: (bool, State), w: Waiter)
    requires Positive(c) && Shaped(c, s) && NoneLater(s.mshr) && TidyTags([t], |s.ups|)
    requires (forall x :: x in t.toReturn ==> x < |s.ups|)
    requires r == TagCheck(c, s, t, now, latency, metadata)
    ensures Grows(s.ups, r.1.ups)
    ensures r.0 && Asks(t, w, c.blockSize) ==> HeldIn(r.1, w, c.blockSize) || Answered(s.ups, r.1.ups, w, c.blockSize)
    ensures HeldIn(s, w, c.blockSize) ==> HeldIn(r.1, w, c.blockSize)
  {
    hide HandleMiss, Covers;
    assert [t][0] == t;
    var h := TryHit(c, s, t, metadata);
    if h.0 {
      var set' := SetOf(c, t.address);
      var way := FindHit(s.blocks[set'], t.address, c.blockSize, 0);
      PushedToAll(s.ups, t.toReturn, Q.Response(t.address, s.blocks[set'][way].data, metadata, t.deps), r.1.ups, w,
          c.blockSize);
    } else if t.kind.Write? && !c.matchOffset {
      var n := |s.writes|;
      assert Asks(t, w, c.blockSize) ==> Holds(r.1.writes[n], w, c.blockSize);
      if Held(s.writes, w, c.blockSize) {
        var k :| 0 <= k < n && Holds(s.writes[k], w, c.blockSize);
        assert r.1.writes[k] == s.writes[k];
      }
    } else {
      HandleMissServes(c, s, t, now, r, w);
      HandleMissFrame(c, s, t, now, r);
    }
  }

  lemma HandleMissFrame(c: Config, s: State, t: Tag, now: nat, r: (bool, State))
    requires c.blockSize > 0 && r == HandleMiss(c, s, t, now)
    ensures r.1.ups == s.ups && r.1.writes == s.writes
  {
  }

  lemma {:induction false} CheckFromServes(
      c: Config, s: State, q: seq<Tag>, k: nat, limit: nat, now: nat, latency: nat, pick: nat -> Choice,
      r: (nat, State), w: Waiter)
    requires Positive(c) && Shaped(c, s) && Checkable(|s.ups|, q) && k <= |q| && CheckInv(c, s, now + latency)
    requires TidyTags(q, |s.ups|)
    requires r == CheckFrom(c, s, q, k, limit, now, latency, pick)
    ensures Grows(s.ups, r.1.ups)
    ensures Asked(q[k..r.0], w, c.blockSize) ==> HeldIn(r.1, w, c.blockSize) || Answered(s.ups, r.1.ups, w, c.blockSize)
    ensures HeldIn(s, w, c.blockSize) ==> HeldIn(r.1, w, c.blockSize)
    decreases |q| - k
  {
    hide TagCheck, Asks, Answered, HeldIn, Grows, Shaped;
    GrowsSelf(s.ups);
    if k < limit && k < |q| && q[k].event <= now {
      var t := TagCheck(c, s, q[k], now, latency, pick(k).metadata);
      TagCheckServes(c, s, q[k], now, latency, pick(k).metadata, t, w);
      if t.0 {
        TagCheckKeeps(c, s, q[k], now, latency, pick(k).metadata, t);
        CheckFromServes(c, t.1, q, k + 1, limit, now, latency, pick, r, w);
        GrowsTrans(s.ups, t.1.ups, r.1.ups);
        if Asked(q[k..r.0], w, c.blockSize) {
          var j :| 0 <= j < |q[k..r.0]| && Asks(q[k..r.0][j], w, c.blockSize);
          if j == 0 {
            if Answered(s.ups, t.1.ups, w, c.blockSize) { AnsweredLater(s.ups, t.1.ups, r.1.ups, w, c.blockSize); }
          } else {
            assert q[k..r.0][j] == q[k + 1..r.0][j - 1];
            if Answered(t.1.ups, r.1.ups, w, c.blockSize) { AnsweredEarlier(s.ups, t.1.ups, r.1.ups, w, c.blockSize); }
          }
        }
      }
    }
  }

  /** An answer from below loses no waiter: the entry only moves. */
  lemma {:induction false} FinishAllServes(
      m: seq<Mshr>, rs: seq<Q.Response>, due: nat, blockSize: nat, r: seq<Mshr>, w: Waiter)
    requires blockSize > 0 && due < NEVER && Answers(m, rs, blockSize) && Distinct(m, blockSize)
    requires r == FinishAll(m, rs, due, blockSize) && Held(m, w, blockSize)
    ensures Held(r, w, blockSize)
    decreases |rs|
  {
    hide Answers, Distinct, Covers;
    if rs == [] {
    } else {
      AnswerShrinks(m, rs, due, blockSize);
      var i, p := FindBlock(m, rs[0].address, blockSize, 0), FirstUnreturned(m, 0);
      var m' := FinishPacket(m, rs[0], due, blockSize);
      var k :| 0 <= k < |m| && Holds(m[k], w, blockSize);
      var k' := if k == i then p else if k == p then i else k;
      assert Holds(m'[k'], w, blockSize);
      FinishAllServes(m', rs[1..], due, blockSize, r, w);
    }
  }

  // ---- Cycles and runs ----

  function Due(c: Config, e: Input): nat {
    e.now + FillLatency(c, e.warmup)
  }

  /** What the cache relies on: the clock, answers to misses in flight only, tidy requests. */
  ghost predicate Env(c: Config, s: State, e: Input, bound: nat)
    requires c.blockSize > 0
  {
    bound <= Due(c, e) < NEVER && Answers(s.mshr, e.lower.returned, c.blockSize) && TidyTags(e.arrivals, |s.ups|)
  }

  function AfterFills(c: Config, s: State, e: Input): (r: State)
    requires Positive(c) && CacheInv(c, s, Due(c, e))
    ensures CacheInv(c, r, Due(c, e)) && |r.ups| == |s.ups|
  {
    var spent := FillFrom(c, s, s.mshr, 0, c.maxFill, e.now, e.fills).0;
    var s1 := FillMshr(c, s, e);
    FillMshrKeeps(c, s, e, Due(c, e), s1);
    var s2 := FillWrites(c, s1, e, c.maxFill - spent);
    FillWritesKeeps(c, s1, e, c.maxFill - spent, Due(c, e), s2);
    s2
  }

  /** One cycle: responses, fills, tag checks. */
  function Cycle(c: Config, s: State, e: Input, ghost bound: nat): (r: State)
    requires Positive(c) && CacheInv(c, s, bound) && Env(c, s, e, bound)
    ensures CacheInv(c, r, Due(c, e)) && |r.ups| == |s.ups|
  {
    var s1 := Receive(c, s, e);
    ReceiveKeeps(c, s, e, bound, s1);
    var s2 := AfterFills(c, s1, e);
    var s3 := CheckTags(c, s2, e);
    CheckTagsKeeps(c, s2, e, s3);
    CheckTagsFrame(c, s2, e, s3);
    s3
  }

  lemma CheckTagsFrame(c: Config, s: State, e: Input, r: State)
    requires Positive(c) && Shaped(c, s) && Checkable(|s.ups|, s.tags) && Checkable(|s.ups|, e.arrivals)
    requires r == CheckTags(c, s, e)
    ensures |r.ups| == |s.ups|
  {
  }

  ghost predicate Legal(c: Config, s: State, bound: nat, es: seq<Input>)
    requires Positive(c) && CacheInv(c, s, bound)
    decreases |es|
  {
    es == [] || (Env(c, s, es[0], bound) && Legal(c, Cycle(c, s, es[0], bound), Due(c, es[0]), es[1..]))
  }

  /** Every run: the misses stay distinct, within their number, returned ones in front and in order. */
  function Run(c: Config, s: State, ghost bound: nat, es: seq<Input>): (r: State)
    requires Positive(c) && CacheInv(c, s, bound) && Legal(c, s, bound, es)
    ensures exists late :: CacheInv(c, r, late)
    decreases |es|
  {
    if es == [] then s else Run(c, Cycle(c, s, es[0], bound), Due(c, es[0]), es[1..])
  }

  /** Somebody still holds the waiter. */
  ghost predicate Waits(s: State, w: Waiter, blockSize: nat)
    requires blockSize > 0
  {
    HeldIn(s, w, blockSize) || Asked(s.tags, w, blockSize)
  }

  lemma HeldSplit(q: seq<Mshr>, k: nat, w: Waiter, blockSize: nat)
    requires blockSize > 0 && k <= |q|
    ensures Held(q, w, blockSize) ==> Held(q[..k], w, blockSize) || Held(q[k..], w, blockSize)
  {
    if Held(q, w, blockSize) {
      var j :| 0 <= j < |q| && Holds(q[j], w, blockSize);
      if j < k { assert q[..k][j] == q[j]; } else { assert q[k..][j - k] == q[j]; }
    }
  }

  lemma AskedSplit(q: seq<Tag>, k: nat, w: Waiter, blockSize: nat)
    requires blockSize > 0 && k <= |q|
    ensures Asked(q, w, blockSize) ==> Asked(q[..k], w, blockSize) || Asked(q[k..], w, blockSize)
  {
    if Asked(q, w, blockSize) {
      var j :| 0 <= j < |q| && Asks(q[j], w, blockSize);
      if j < k { assert q[..k][j] == q[j]; } else { assert q[k..][j - k] == q[j]; }
    }
  }

  ghost predicate Served(s: State, r: State, w: Waiter, blockSize: nat)
    requires blockSize > 0
  {
    Grows(s.ups, r.ups) && (Waits(s, w, blockSize) ==> Waits(r, w, blockSize) || Answered(s.ups, r.ups, w, blockSize))
  }

  lemma ServedTrans(a: State, b: State, d: State, w: Waiter, blockSize: nat)
    requires blockSize > 0 && Served(a, b, w, blockSize) && Served(b, d, w, blockSize)
    ensures Served(a, d, w, blockSize)
  {
    hide Waits, Answered, Grows;
    GrowsTrans(a.ups, b.ups, d.ups);
    if Answered(a.ups, b.ups, w, blockSize) {
      AnsweredLater(a.ups, b.ups, d.ups, w, blockSize);
    } else if Answered(b.ups, d.ups, w, blockSize) {
      AnsweredEarlier(a.ups, b.ups, d.ups, w, blockSize);
    }
  }

  lemma ReceiveServes(c: Config, s: State, e: Input, bound: nat, r: State, w: Waiter)
    requires Positive(c) && CacheInv(c, s, bound) && Env(c, s, e, bound) && r == Receive(c, s, e)
    ensures Served(s, r, w, c.blockSize)
  {
    hide Held, Asked, Answers, FinishAll;
    if Held(s.mshr, w, c.blockSize) {
      FinishAllServes(s.mshr, e.lower.returned, Due(c, e), c.blockSize, r.mshr, w);
    }
  }

  lemma FillMshrServes(c: Config, s: State, e: Input, bound: nat, r: State, w: Waiter)
    requires Positive(c) && CacheInv(c, s, bound) && r == FillMshr(c, s, e)
    ensures Served(s, r, w, c.blockSize)
  {
    hide Held, Asked, Answered, MshrInv, WritesInv, Grows;
    var f := FillFrom(c, s, s.mshr, 0, c.maxFill, e.now, e.fills);
    FillFromServes(c, s, s.mshr, 0, c.maxFill, e.now, e.fills, f, w);
    HeldSplit(s.mshr, f.0, w, c.blockSize);
  }

  lemma FillWritesServes(c: Config, s: State, e: Input, limit: nat, bound: nat, r: State, w: Waiter)
    requires Positive(c) && CacheInv(c, s, bound) && r == FillWrites(c, s, e, limit)
    ensures Served(s, r, w, c.blockSize)
  {
    hide Held, Asked, Answered, MshrInv, WritesInv, Grows;
    var f := FillFrom(c, s, s.writes, 0, limit, e.now, e.writeFills);
    FillFromServes(c, s, s.writes, 0, limit, e.now, e.writeFills, f, w);
    HeldSplit(s.writes, f.0, w, c.blockSize);
  }

  lemma StampAsked(tags: seq<Tag>, arrivals: seq<Tag>, event: nat, w: Waiter, blockSize: nat)
    requires blockSize > 0
    ensures Asked(tags, w, blockSize) || Asked(arrivals, w, blockSize) ==>
              Asked(tags + Stamp(arrivals, event), w, blockSize)
  {
    hide Covers;
    if Asked(tags, w, blockSize) {
      var k :| 0 <= k < |tags| && Asks(tags[k], w, blockSize);
      assert Asks((tags + Stamp(arrivals, event))[k], w, blockSize);
    } else if Asked(arrivals, w, blockSize) {
      var k :| 0 <= k < |arrivals| && Asks(arrivals[k], w, blockSize);
      assert Asks((tags + Stamp(arrivals, event))[|tags| + k], w, blockSize);
    }
  }

  lemma CheckTagsServes(c: Config, s: State, e: Input, r: State, w: Waiter)
    requires Positive(c) && CacheInv(c, s, Due(c, e)) && TidyTags(e.arrivals, |s.ups|) && r == CheckTags(c, s, e)
    ensures Served(s, r, w, c.blockSize)
    ensures Asked(e.arrivals, w, c.blockSize) ==> Waits(r, w, c.blockSize) || Answered(s.ups, r.ups, w, c.blockSize)
  {
    hide Held, Asked, Answered, MshrInv, WritesInv, Grows;
    var latency := FillLatency(c, e.warmup);
    var stamped := Stamp(e.arrivals, e.now + HitLatency(c, e.warmup));
    var s1 := s.(tags := s.tags + stamped);
    var t := CheckFrom(c, s1, s1.tags, 0, c.maxTag, e.now, latency, e.checks);
    CheckFromServes(c, s1, s1.tags, 0, c.maxTag, e.now, latency, e.checks, t, w);
    AskedSplit(s1.tags, t.0, w, c.blockSize);
    StampAsked(s.tags, e.arrivals, e.now + HitLatency(c, e.warmup), w, c.blockSize);
  }

  lemma CycleServes(c: Config, s: State, e: Input, bound: nat, w: Waiter)
    requires Positive(c) && CacheInv(c, s, bound) && Env(c, s, e, bound)
    ensures Served(s, Cycle(c, s, e, bound), w, c.blockSize)
  {
    hide Served, FillMshr, FillWrites, CheckTags, FillFrom, WritesInv;
    var due := Due(c, e);
    var s1 := Receive(c, s, e);
    ReceiveKeeps(c, s, e, bound, s1);
    ReceiveServes(c, s, e, bound, s1, w);
    var spent := FillFrom(c, s1, s1.mshr, 0, c.maxFill, e.now, e.fills).0;
    var s2 := FillMshr(c, s1, e);
    FillMshrKeeps(c, s1, e, due, s2);
    FillMshrServes(c, s1, e, due, s2, w);
    var s3 := FillWrites(c, s2, e, c.maxFill - spent);
    FillWritesServes(c, s2, e, c.maxFill - spent, due, s3, w);
    assert s3 == AfterFills(c, s1, e);
    CheckTagsServes(c, s3, e, Cycle(c, s, e, bound), w);
    ServedTrans(s, s1, s2, w, c.blockSize);
    ServedTrans(s, s2, s3, w, c.blockSize);
    ServedTrans(s, s3, Cycle(c, s, e, bound), w, c.blockSize);
  }

  /** Over every run, an instruction that waits in a tag check, a miss or a write-back still
      waits at the end, or the queue it wanted got a response for its block. */
  lemma {:induction false} EveryRunServes(c: Config, s: State, bound: nat, es: seq<Input>, w: Waiter)
    requires Positive(c) && CacheInv(c, s, bound) && Legal(c, s, bound, es)
    ensures Served(s, Run(c, s, bound, es), w, c.blockSize)
    decreases |es|
  {
    hide CacheInv, Waits, Answered, Cycle;
    if es == [] {
    } else {
      var s1 := Cycle(c, s, es[0], bound);
      CycleServes(c, s, es[0], bound, w);
      EveryRunServes(c, s1, Due(c, es[0]), es[1..], w);
      ServedTrans(s, s1, Run(c, s, bound, es), w, c.blockSize);
    }
  }

  lemma CycleServesArrivals(c: Config, s: State, e: Input, bound: nat, w: Waiter)
    requires Positive(c) && CacheInv(c, s, bound) && Env(c, s, e, bound) && Asked(e.arrivals, w, c.blockSize)
    ensures
      var r := Cycle(c, s, e, bound);
      Waits(r, w, c.blockSize) || Answered(s.ups, r.ups, w, c.blockSize)
  {
    hide FinishAll, AfterFills, CheckTags, Waits, Asked, WritesInv, Ordered, Bounded;
    var s1 := Receive(c, s, e);
    ReceiveKeeps(c, s, e, bound, s1);
    var s2 := AfterFills(c, s1, e);
    AfterFillsGrows(c, s1, e, s2, w);
    CheckTagsServes(c, s2, e, CheckTags(c, s2, e), w);
    if Answered(s2.ups, CheckTags(c, s2, e).ups, w, c.blockSize) {
      AnsweredEarlier(s1.ups, s2.ups, CheckTags(c, s2, e).ups, w, c.blockSize);
    }
  }

  lemma AfterFillsGrows(c: Config, s: State, e: Input, r: State, w: Waiter)
    requires Positive(c) && CacheInv(c, s, Due(c, e)) && r == AfterFills(c, s, e)
    ensures Grows(s.ups, r.ups)
  {
    hide FillFrom, FillMshr, FillWrites, Ordered, Bounded, WritesInv, Waits, Answered;
    var spent := FillFrom(c, s, s.mshr, 0, c.maxFill, e.now, e.fills).0;
    var s1 := FillMshr(c, s, e);
    FillMshrKeeps(c, s, e, Due(c, e), s1);
    FillMshrServes(c, s, e, Due(c, e), s1, w);
    FillWritesServes(c, s1, e, c.maxFill - spent, Due(c, e), r, w);
  }

  /** Over every run, so does an instruction whose request arrives in any of its cycles. */
  lemma {:induction false} EveryArrivalIsServed(c: Config, s: State, bound: nat, es: seq<Input>, n: nat, w: Waiter)
    requires Positive(c) && CacheInv(c, s, bound) && Legal(c, s, bound, es)
    requires n < |es| && Asked(es[n].arrivals, w, c.blockSize)
    ensures
      var r := Run(c, s, bound, es);
      Waits(r, w, c.blockSize) || Answered(s.ups, r.ups, w, c.blockSize)
    decreases |es|
  {
    hide CacheInv, Waits, Answered, Cycle, Asked, Grows;
    var s1, r := Cycle(c, s, es[0], bound), Run(c, s, bound, es);
    CycleServes(c, s, es[0], bound, w);
    EveryRunServes(c, s1, Due(c, es[0]), es[1..], w);
    if n == 0 {
      CycleServesArrivals(c, s, es[0], bound, w);
      if Answered(s.ups, s1.ups, w, c.blockSize) {
        AnsweredLater(s.ups, s1.ups, r.ups, w, c.blockSize);
      } else if Answered(s1.ups, r.ups, w, c.blockSize) {
        AnsweredEarlier(s.ups, s1.ups, r.ups, w, c.blockSize);
      }
    } else {
      EveryArrivalIsServed(c, s1, Due(c, es[0]), es[1..], n - 1, w);
      if Answered(s1.ups, r.ups, w, c.blockSize) { AnsweredEarlier(s.ups, s1.ups, r.ups, w, c.blockSize); }
    }
  }
}
