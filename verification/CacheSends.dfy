/** Whole runs of a cache level against what it sends below: one request for every miss in
    flight, and a write-back for every dirty block that leaves. */
module CacheSends {
  import opened Cache
  import opened CacheProof
  import opened CacheRuns
  import opened CacheSteps
  import opened Scans
  import Q = ChannelQueues

  // ---- Counting ----

  /** Entries of `block` that have not returned. */
  function IsOpen(block: nat, blockSize: nat): Mshr -> bool
    requires blockSize > 0
  {
    (m: Mshr) => m.event == NEVER && m.address / blockSize == block
  }

  /** Requests for `block` that want a response. */
  function Wants(block: nat, blockSize: nat): Q.Request -> bool
    requires blockSize > 0
  {
    (r: Q.Request) => r.respond && r.address / blockSize == block
  }

  function IsFor(block: nat, blockSize: nat): Q.Response -> bool
    requires blockSize > 0
  {
    (r: Q.Response) => r.address / blockSize == block
  }

  function Requested(l: Q.State, block: nat, blockSize: nat): nat
    requires blockSize > 0
  {
    Tally(l.rq, Wants(block, blockSize)) + Tally(l.pq, Wants(block, blockSize))
  }

  /** The queues below have only grown. */
  ghost predicate Extends(a: Q.State, b: Q.State) {
    a.rq <= b.rq && a.wq <= b.wq && a.pq <= b.pq && a.returned == b.returned
  }

  /** From `s` to `r`, misses on `block` became open as often as requests for it were sent. */
  ghost predicate Balanced(s: State, r: State, block: nat, blockSize: nat)
    requires blockSize > 0
  {
    && Extends(s.lower, r.lower)
    && Tally(r.mshr, IsOpen(block, blockSize)) + Requested(s.lower, block, blockSize)
      == Tally(s.mshr, IsOpen(block, blockSize)) + Requested(r.lower, block, blockSize)
  }

  lemma BalancedTrans(a: State, b: State, d: State, block: nat, blockSize: nat)
    requires blockSize > 0 && Balanced(a, b, block, blockSize) && Balanced(b, d, block, blockSize)
    ensures Balanced(a, d, block, blockSize)
  {
  }

  // ---- One step ----

  lemma TallyAppend<T>(s: seq<T>, x: T, p: T -> bool)
    ensures Tally(s + [x], p) == Tally(s, p) + if p(x) then 1 else 0
  {
    TallySplit(s, [x], p);
    assert Tally([x], p) == if p(x) then 1 else 0;
  }

  lemma MissBalances(c: Config, s: State, t: Tag, now: nat, r: (bool, State), block: nat)
    requires c.blockSize > 0 && |s.mshr| <= c.mshrSize && Distinct(s.mshr, c.blockSize) && NoneLater(s.mshr)
    requires r == HandleMiss(c, s, t, now)
    ensures Balanced(s, r.1, block, c.blockSize)
  {
    hide HandleMiss, Distinct, NoneLater, Tally;
    MissSendsExactly(c, s, t, now, r);
    var open, wants := IsOpen(block, c.blockSize), Wants(block, c.blockSize);
    if InFlight(s.mshr, t.address, c.blockSize) {
      var k :| 0 <= k < |s.mshr| && s.mshr[k].address / c.blockSize == t.address / c.blockSize;
      MissMergesExactly(c, s, t, now, r, k);
      TallyUpdate(s.mshr, k, r.1.mshr[k], open);
    } else if r.0 {
      var request := Q.Request(t.address, true, !(t.local && t.skipFill), false, t.data, t.metadata, t.deps);
      var entry := Mshr(t.address, t.data, t.metadata, t.kind, t.local, NEVER, now, t.deps, t.toReturn);
      TallyAppend(s.lower.rq, request, wants);
      TallyAppend(s.lower.pq, request, wants);
      TallyAppend(s.mshr, entry, open);
      assert s.mshr + [] == s.mshr;
    }
  }

  lemma TagCheckBalances(
      c: Config, s: State, t: Tag, now: nat, latency: nat, metadata: nat, r: (bool, State), block: nat)
    requires Positive(c) && CheckInv(c, s, now + latency) && (forall x :: x in t.toReturn ==> x < |s.ups|)
    requires r == TagCheck(c, s, t, now, latency, metadata)
    ensures Balanced(s, r.1, block, c.blockSize)
  {
    hide HandleMiss;
    var h := TryHit(c, s, t, metadata);
    if !h.0 && !(t.kind.Write? && !c.matchOffset) {
      MissBalances(c, s, t, now, r, block);
    }
  }

  lemma {:induction false} ChecksBalance(
      c: Config, s: State, q: seq<Tag>, k: nat, limit: nat, now: nat, latency: nat, pick: nat -> Choice,
      r: (nat, State), block: nat)
    requires Positive(c) && Shaped(c, s) && Checkable(|s.ups|, q) && k <= |q| && CheckInv(c, s, now + latency)
    requires TidyTags(q, |s.ups|) && r == CheckFrom(c, s, q, k, limit, now, latency, pick)
    ensures Balanced(s, r.1, block, c.blockSize)
    decreases |q| - k
  {
    hide CheckInv, TagCheck, Shaped, Balanced;
    assert Balanced(s, s, block, c.blockSize) by { BalancedSelf(s, block, c.blockSize); }
    if k < limit && k < |q| && q[k].event <= now {
      var t := TagCheck(c, s, q[k], now, latency, pick(k).metadata);
      TagCheckKeeps(c, s, q[k], now, latency, pick(k).metadata, t);
      TagCheckBalances(c, s, q[k], now, latency, pick(k).metadata, t, block);
      if t.0 {
        assert Shaped(c, t.1) by { CheckIsShaped(c, t.1, now + latency); }
        ChecksBalance(c, t.1, q, k + 1, limit, now, latency, pick, r, block);
        BalancedTrans(s, t.1, r.1, block, c.blockSize);
      }
    }
  }

  lemma BalancedSelf(s: State, block: nat, blockSize: nat)
    requires blockSize > 0
    ensures Balanced(s, s, block, blockSize)
  {
  }

  /** Fills send nothing but write-backs. */
  lemma {:induction false} FillsSendNoRequests(
      c: Config, s: State, q: seq<Mshr>, k: nat, limit: nat, now: nat, pick: nat -> Choice, r: (nat, State))
    requires Positive(c) && Shaped(c, s) && Fillable(|s.ups|, q) && k <= |q|
    requires r == FillFrom(c, s, q, k, limit, now, pick)
    ensures Extends(s.lower, r.1.lower) && r.1.lower.rq == s.lower.rq && r.1.lower.pq == s.lower.pq
    decreases |q| - k
  {
    if k < limit && k < |q| && q[k].event <= now {
      var f := HandleFill(c, s, q[k], pick(k));
      assert Extends(s.lower, f.1.lower) && f.1.lower.rq == s.lower.rq && f.1.lower.pq == s.lower.pq;
      FillShape(c, s, q[k], pick(k), f);
      hide HandleFill;
      if f.0 { FillsSendNoRequests(c, f.1, q, k + 1, limit, now, pick, r); }
    }
  }

  lemma FillMshrBalances(c: Config, s: State, e: Input, r: State, block: nat)
    requires Positive(c) && Shaped(c, s) && Fillable(|s.ups|, s.mshr) && r == FillMshr(c, s, e) && e.now < NEVER
    ensures Balanced(s, r, block, c.blockSize)
  {
    hide FillFrom;
    var f := FillFrom(c, s, s.mshr, 0, c.maxFill, e.now, e.fills);
    FillsSendNoRequests(c, s, s.mshr, 0, c.maxFill, e.now, e.fills, f);
    FillFromExactly(c, s, s.mshr, 0, c.maxFill, e.now, e.fills, f);
    TallySplit(s.mshr[..f.0], s.mshr[f.0..], IsOpen(block, c.blockSize));
    assert s.mshr[..f.0] + s.mshr[f.0..] == s.mshr;
    TallyZero(s.mshr[..f.0], IsOpen(block, c.blockSize));
  }

  lemma FillWritesBalances(c: Config, s: State, e: Input, limit: nat, r: State, block: nat)
    requires Positive(c) && Shaped(c, s) && Fillable(|s.ups|, s.writes) && r == FillWrites(c, s, e, limit)
    ensures Balanced(s, r, block, c.blockSize)
  {
    hide FillFrom;
    FillsSendNoRequests(c, s, s.writes, 0, limit, e.now, e.writeFills,
                        FillFrom(c, s, s.writes, 0, limit, e.now, e.writeFills));
  }

  // ---- Answers ----

  lemma FinishCloses(m: seq<Mshr>, rs: seq<Q.Response>, due: nat, blockSize: nat, block: nat)
    requires blockSize > 0 && due < NEVER && rs != [] && Answers(m, rs, blockSize) && Distinct(m, blockSize)
    requires FindBlock(m, rs[0].address, blockSize, 0) < |m| && FirstUnreturned(m, 0) < |m|
    ensures Tally(FinishPacket(m, rs[0], due, blockSize), IsOpen(block, blockSize))
      + (if IsFor(block, blockSize)(rs[0]) then 1 else 0) == Tally(m, IsOpen(block, blockSize))
  {
    AnsweredEntry(m, rs, blockSize);
    hide Answers, Distinct, FindBlock, FirstUnreturned, Tally;
    var i, p := FindBlock(m, rs[0].address, blockSize, 0), FirstUnreturned(m, 0);
    var open := IsOpen(block, blockSize);
    var entry := m[i].(data := rs[0].data, metadata := rs[0].metadata, event := due);
    TallyUpdate(m, i, m[p], open);
    TallyUpdate(m[i := m[p]], p, entry, open);
    assert m[i].address / blockSize == rs[0].address / blockSize;
    assert m[i := m[p]][p] == m[p];
  }

  lemma {:induction false} FinishAllCloses(
      m: seq<Mshr>, rs: seq<Q.Response>, due: nat, blockSize: nat, r: seq<Mshr>, block: nat)
    requires blockSize > 0 && due < NEVER && Answers(m, rs, blockSize) && Distinct(m, blockSize)
    requires r == FinishAll(m, rs, due, blockSize)
    ensures Tally(r, IsOpen(block, blockSize)) + Tally(rs, IsFor(block, blockSize))
      == Tally(m, IsOpen(block, blockSize))
    decreases |rs|
  {
    hide Answers, Distinct, FinishPacket;
    if rs == [] {
    } else {
      AnswerShrinks(m, rs, due, blockSize);
      FinishCloses(m, rs, due, blockSize, block);
      FinishAllCloses(FinishPacket(m, rs[0], due, blockSize), rs[1..], due, blockSize, r, block);
    }
  }

  // ---- Dirty blocks ----

  /** `b` still holds the data that `a` holds and is dirty, as `a` is. */
  ghost predicate SameData(a: Block, b: Block) {
    b == a.(prefetch := b.prefetch)
  }

  function WriteBack(b: Block): Q.Request {
    Q.Request(b.address, true, false, false, b.data, b.metadata, [])
  }

  /** Dirty block `b` is still in its way, or its write-back is among those sent since. */
  ghost predicate Safe(c: Config, b: Block, sent: Q.Queue, s: State, set': nat, way: nat)
    requires Shaped(c, s) && set' < c.sets && way < c.ways
  {
    SameData(b, s.blocks[set'][way]) || WriteBack(b) in sent
  }

  lemma FillIsSafe(c: Config, s: State, f: Mshr, choice: Choice, r: (bool, State), set': nat, way: nat)
    requires Positive(c) && Shaped(c, s) && (forall x :: x in f.toReturn ==> x < |s.ups|)
    requires r == HandleFill(c, s, f, choice) && set' < c.sets && way < c.ways
    ensures Shaped(c, r.1) && s.lower.wq <= r.1.lower.wq
    ensures
      var b := s.blocks[set'][way];
      b.valid && b.dirty ==> r.1.blocks[set'][way] == b || WriteBack(b) in r.1.lower.wq[|s.lower.wq|..]
  {
    FillKeepsDirtyData(c, s, f, choice, r, set', way);
    var b := s.blocks[set'][way];
    if r.1.blocks[set'][way] != b && b.valid && b.dirty {
      assert r.1.lower.wq == s.lower.wq + [WriteBack(b)];
      assert r.1.lower.wq[|s.lower.wq|..] == [WriteBack(b)];
    }
  }

  lemma {:induction false} FillsAreSafe(
      c: Config, s: State, q: seq<Mshr>, k: nat, limit: nat, now: nat, pick: nat -> Choice, r: (nat, State),
      set': nat, way: nat)
    requires Positive(c) && Shaped(c, s) && Fillable(|s.ups|, q) && k <= |q|
    requires r == FillFrom(c, s, q, k, limit, now, pick) && set' < c.sets && way < c.ways
    ensures s.lower.wq <= r.1.lower.wq
    ensures
      var b := s.blocks[set'][way];
      b.valid && b.dirty ==> Safe(c, b, r.1.lower.wq[|s.lower.wq|..], r.1, set', way)
    decreases |q| - k
  {
    hide HandleFill;
    if k < limit && k < |q| && q[k].event <= now {
      var f := HandleFill(c, s, q[k], pick(k));
      FillShape(c, s, q[k], pick(k), f);
      FillIsSafe(c, s, q[k], pick(k), f, set', way);
      if f.0 {
        FillsAreSafe(c, f.1, q, k + 1, limit, now, pick, r, set', way);
        Suffixes(s.lower.wq, f.1.lower.wq, r.1.lower.wq, WriteBack(s.blocks[set'][way]));
      }
    }
  }

  lemma Suffixes(a: Q.Queue, b: Q.Queue, d: Q.Queue, x: Q.Request)
    requires a <= b <= d
    ensures x in b[|a|..] || x in d[|b|..] ==> x in d[|a|..]
  {
    if x in b[|a|..] {
      var k :| 0 <= k < |b[|a|..]| && b[|a|..][k] == x;
      assert d[|a|..][k] == x;
    } else if x in d[|b|..] {
      var k :| 0 <= k < |d[|b|..]| && d[|b|..][k] == x;
      assert d[|a|..][|b| - |a| + k] == x;
    }
  }

  /** Tag checks change no block but for its marks, and send no write-back. */
  lemma TagCheckIsSafe(
      c: Config, s: State, t: Tag, now: nat, latency: nat, metadata: nat, r: (bool, State), set': nat, way: nat)
    requires Positive(c) && Shaped(c, s) && (forall x :: x in t.toReturn ==> x < |s.ups|)
    requires r == TagCheck(c, s, t, now, latency, metadata) && set' < c.sets && way < c.ways
    ensures Shaped(c, r.1) && r.1.lower.wq == s.lower.wq
    ensures s.blocks[set'][way].dirty ==> SameData(s.blocks[set'][way], r.1.blocks[set'][way])
  {
    hide PushAll;
  }

  lemma {:induction false} ChecksAreSafe(
      c: Config, s: State, q: seq<Tag>, k: nat, limit: nat, now: nat, latency: nat, pick: nat -> Choice,
      r: (nat, State), set': nat, way: nat)
    requires Positive(c) && Shaped(c, s) && Checkable(|s.ups|, q) && k <= |q|
    requires r == CheckFrom(c, s, q, k, limit, now, latency, pick) && set' < c.sets && way < c.ways
    ensures r.1.lower.wq == s.lower.wq
    ensures s.blocks[set'][way].dirty ==> SameData(s.blocks[set'][way], r.1.blocks[set'][way])
    decreases |q| - k
  {
    hide TagCheck;
    if k < limit && k < |q| && q[k].event <= now {
      var t := TagCheck(c, s, q[k], now, latency, pick(k).metadata);
      TagCheckShape(c, s, q[k], now, latency, pick(k).metadata, t);
      TagCheckIsSafe(c, s, q[k], now, latency, pick(k).metadata, t, set', way);
      if t.0 { ChecksAreSafe(c, t.1, q, k + 1, limit, now, latency, pick, r, set', way); }
    }
  }

  // ---- Cycles ----

  /** The queues below when the cycle starts to send. */
  function Start(e: Input): Q.State {
    e.lower.(returned := [])
  }

  lemma CycleBalances(c: Config, s: State, e: Input, bound: nat, block: nat)
    requires Positive(c) && CacheInv(c, s, bound) && Env(c, s, e, bound)
    ensures
      var r := Cycle(c, s, e, bound);
      && Extends(Start(e), r.lower)
      && Tally(s.mshr, IsOpen(block, c.blockSize)) + Requested(r.lower, block, c.blockSize)
        == Tally(r.mshr, IsOpen(block, c.blockSize)) + Requested(Start(e), block, c.blockSize)
          + Tally(e.lower.returned, IsFor(block, c.blockSize))
  {
    hide FillMshr, FillWrites, FillFrom, CheckTags, Ordered, Bounded, WritesInv, Balanced, Tally;
    var due := Due(c, e);
    var s1 := Receive(c, s, e);
    ReceiveKeeps(c, s, e, bound, s1);
    ReceiveCloses(c, s, e, bound, s1, block);
    var spent := FillFrom(c, s1, s1.mshr, 0, c.maxFill, e.now, e.fills).0;
    var s2 := FillMshr(c, s1, e);
    FillMshrKeeps(c, s1, e, due, s2);
    FillMshrBalances(c, s1, e, s2, block);
    var s3 := FillWrites(c, s2, e, c.maxFill - spent);
    FillWritesKeeps(c, s2, e, c.maxFill - spent, due, s3);
    FillWritesBalances(c, s2, e, c.maxFill - spent, s3, block);
    assert s3 == AfterFills(c, s1, e);
    var r := CheckTags(c, s3, e);
    CheckTagsBalances(c, s3, e, r, block);
    BalancedTrans(s1, s2, s3, block, c.blockSize);
    BalancedTrans(s1, s3, r, block, c.blockSize);
    BalanceSays(s1, r, block, c.blockSize);
  }

  lemma BalanceSays(s: State, r: State, block: nat, blockSize: nat)
    requires blockSize > 0 && Balanced(s, r, block, blockSize)
    ensures Extends(s.lower, r.lower)
    ensures Tally(r.mshr, IsOpen(block, blockSize)) + Requested(s.lower, block, blockSize)
      == Tally(s.mshr, IsOpen(block, blockSize)) + Requested(r.lower, block, blockSize)
  {
  }

  lemma ReceiveCloses(c: Config, s: State, e: Input, bound: nat, r: State, block: nat)
    requires Positive(c) && CacheInv(c, s, bound) && Env(c, s, e, bound) && r == Receive(c, s, e)
    ensures r.lower == Start(e)
    ensures Tally(r.mshr, IsOpen(block, c.blockSize)) + Tally(e.lower.returned, IsFor(block, c.blockSize))
      == Tally(s.mshr, IsOpen(block, c.blockSize))
  {
    hide Answers, FinishAll, Tally;
    FinishAllCloses(s.mshr, e.lower.returned, Due(c, e), c.blockSize, r.mshr, block);
  }

  lemma CheckTagsBalances(c: Config, s: State, e: Input, r: State, block: nat)
    requires Positive(c) && CacheInv(c, s, Due(c, e)) && TidyTags(e.arrivals, |s.ups|) && r == CheckTags(c, s, e)
    ensures Balanced(s, r, block, c.blockSize)
  {
    hide MshrInv, WritesInv, TidyMshr, CheckFrom;
    var s1 := s.(tags := s.tags + Stamp(e.arrivals, e.now + HitLatency(c, e.warmup)));
    var t := CheckFrom(c, s1, s1.tags, 0, c.maxTag, e.now, FillLatency(c, e.warmup), e.checks);
    ChecksBalance(c, s1, s1.tags, 0, c.maxTag, e.now, FillLatency(c, e.warmup), e.checks, t, block);
  }

  lemma CycleIsSafe(c: Config, s: State, e: Input, bound: nat, set': nat, way: nat)
    requires Positive(c) && CacheInv(c, s, bound) && Env(c, s, e, bound) && set' < c.sets && way < c.ways
    ensures
      var r, b := Cycle(c, s, e, bound), s.blocks[set'][way];
      && e.lower.wq <= r.lower.wq
      && (b.valid && b.dirty ==> Safe(c, b, r.lower.wq[|e.lower.wq|..], r, set', way))
  {
    hide FillFrom, CheckFrom, FinishAll, Ordered, Bounded, WritesInv;
    var due := Due(c, e);
    var s1 := Receive(c, s, e);
    ReceiveKeeps(c, s, e, bound, s1);
    var f := FillFrom(c, s1, s1.mshr, 0, c.maxFill, e.now, e.fills);
    FillsAreSafe(c, s1, s1.mshr, 0, c.maxFill, e.now, e.fills, f, set', way);
    var s2 := FillMshr(c, s1, e);
    FillMshrKeeps(c, s1, e, due, s2);
    var g := FillFrom(c, s2, s2.writes, 0, c.maxFill - f.0, e.now, e.writeFills);
    FillsAreSafe(c, s2, s2.writes, 0, c.maxFill - f.0, e.now, e.writeFills, g, set', way);
    var s3 := FillWrites(c, s2, e, c.maxFill - f.0);
    FillWritesKeeps(c, s2, e, c.maxFill - f.0, due, s3);
    Suffixes(e.lower.wq, s2.lower.wq, s3.lower.wq, WriteBack(s.blocks[set'][way]));
    CheckTagsAreSafe(c, s3, e, CheckTags(c, s3, e), set', way);
  }

  lemma CheckTagsAreSafe(c: Config, s: State, e: Input, r: State, set': nat, way: nat)
    requires Positive(c) && Shaped(c, s) && Checkable(|s.ups|, s.tags) && Checkable(|s.ups|, e.arrivals)
    requires r == CheckTags(c, s, e) && set' < c.sets && way < c.ways
    ensures Shaped(c, r) && r.lower.wq == s.lower.wq
    ensures s.blocks[set'][way].dirty ==> SameData(s.blocks[set'][way], r.blocks[set'][way])
  {
    hide CheckFrom;
    var s1 := s.(tags := s.tags + Stamp(e.arrivals, e.now + HitLatency(c, e.warmup)));
    ChecksAreSafe(c, s1, s1.tags, 0, c.maxTag, e.now, FillLatency(c, e.warmup), e.checks,
                  CheckFrom(c, s1, s1.tags, 0, c.maxTag, e.now, FillLatency(c, e.warmup), e.checks), set', way);
  }

  // ---- Runs ----

  /** What a cycle sends below: what it leaves in the queues behind what was there. */
  function SentIn(c: Config, s: State, e: Input, ghost bound: nat): Q.State
    requires Positive(c) && CacheInv(c, s, bound) && Env(c, s, e, bound)
  {
    CycleBalances(c, s, e, bound, 0);
    var l := Cycle(c, s, e, bound).lower;
    Q.State(l.rq[|e.lower.rq|..], l.wq[|e.lower.wq|..], l.pq[|e.lower.pq|..], [])
  }

  /** All that a run sends below, queue by queue. */
  function Sent(c: Config, s: State, ghost bound: nat, es: seq<Input>): Q.State
    requires Positive(c) && CacheInv(c, s, bound) && Legal(c, s, bound, es)
    decreases |es|
  {
    if es == [] then Q.State([], [], [], [])
    else
      var now, later := SentIn(c, s, es[0], bound), Sent(c, Cycle(c, s, es[0], bound), Due(c, es[0]), es[1..]);
      Q.State(now.rq + later.rq, now.wq + later.wq, now.pq + later.pq, [])
  }

  function Returned(es: seq<Input>): seq<Q.Response> {
    if es == [] then [] else es[0].lower.returned + Returned(es[1..])
  }

  lemma CycleRequests(c: Config, s: State, e: Input, bound: nat, block: nat)
    requires Positive(c) && CacheInv(c, s, bound) && Env(c, s, e, bound)
    ensures Tally(s.mshr, IsOpen(block, c.blockSize)) + Requested(SentIn(c, s, e, bound), block, c.blockSize)
      == Tally(Cycle(c, s, e, bound).mshr, IsOpen(block, c.blockSize))
        + Tally(e.lower.returned, IsFor(block, c.blockSize))
  {
    hide Cycle, Tally;
    CycleBalances(c, s, e, bound, block);
    var l, wants := Cycle(c, s, e, bound).lower, Wants(block, c.blockSize);
    assert l.rq == e.lower.rq + l.rq[|e.lower.rq|..] && l.pq == e.lower.pq + l.pq[|e.lower.pq|..];
    TallySplit(e.lower.rq, l.rq[|e.lower.rq|..], wants);
    TallySplit(e.lower.pq, l.pq[|e.lower.pq|..], wants);
  }

  /** Over every run and for every block: the requests sent that want a response are the
      responses that came plus the change in misses waiting for one. */
  lemma {:induction false} EveryRunRequests(c: Config, s: State, bound: nat, es: seq<Input>, block: nat)
    requires Positive(c) && CacheInv(c, s, bound) && Legal(c, s, bound, es)
    ensures Tally(s.mshr, IsOpen(block, c.blockSize)) + Requested(Sent(c, s, bound, es), block, c.blockSize)
      == Tally(Run(c, s, bound, es).mshr, IsOpen(block, c.blockSize)) + Tally(Returned(es), IsFor(block, c.blockSize))
    decreases |es|
  {
    hide CacheInv, Cycle, Env, SentIn, Requested;
    if es == [] {
      assert Requested(Sent(c, s, bound, es), block, c.blockSize) == 0 by { NoneRequested(block, c.blockSize); }
    } else {
      var s1 := Cycle(c, s, es[0], bound);
      CycleRequests(c, s, es[0], bound, block);
      EveryRunRequests(c, s1, Due(c, es[0]), es[1..], block);
      TallySplit(es[0].lower.returned, Returned(es[1..]), IsFor(block, c.blockSize));
      RequestedSplit(SentIn(c, s, es[0], bound), Sent(c, s1, Due(c, es[0]), es[1..]), Sent(c, s, bound, es), block,
                     c.blockSize);
    }
  }

  lemma NoneRequested(block: nat, blockSize: nat)
    requires blockSize > 0
    ensures Requested(Q.State([], [], [], []), block, blockSize) == 0
  {
  }

  lemma RequestedSplit(a: Q.State, b: Q.State, d: Q.State, block: nat, blockSize: nat)
    requires blockSize > 0 && d.rq == a.rq + b.rq && d.pq == a.pq + b.pq
    ensures Requested(d, block, blockSize) == Requested(a, block, blockSize) + Requested(b, block, blockSize)
  {
    TallySplit(a.rq, b.rq, Wants(block, blockSize));
    TallySplit(a.pq, b.pq, Wants(block, blockSize));
  }

  lemma OneOpen(m: seq<Mshr>, k: nat, blockSize: nat)
    requires blockSize > 0 && Distinct(m, blockSize) && k < |m| && m[k].event == NEVER
    ensures Tally(m, IsOpen(m[k].address / blockSize, blockSize)) == 1
  {
    var open := IsOpen(m[k].address / blockSize, blockSize);
    TallyZero(m[..k], open);
    TallyZero(m[k + 1..], open);
    TallySplit(m[..k], m[k..], open);
    assert m == m[..k] + m[k..] && m[k..][1..] == m[k + 1..];
  }

  /** Over every run from an empty cache, a block has been requested once more than it was
      returned if a miss on it still waits for its response, and as often otherwise. */
  lemma EveryMissIsRequestedOnce(c: Config, s: State, bound: nat, es: seq<Input>, block: nat)
    requires Positive(c) && CacheInv(c, s, bound) && Legal(c, s, bound, es) && s.mshr == []
    ensures
      var m := Run(c, s, bound, es).mshr;
      var waits := exists k :: 0 <= k < |m| && m[k].event == NEVER && m[k].address / c.blockSize == block;
      Requested(Sent(c, s, bound, es), block, c.blockSize)
        == Tally(Returned(es), IsFor(block, c.blockSize)) + if waits then 1 else 0
  {
    hide Cycle, Requested, Run, Sent, Returned, Legal;
    EveryRunRequests(c, s, bound, es, block);
    var m := Run(c, s, bound, es).mshr;
    if k :| 0 <= k < |m| && m[k].event == NEVER && m[k].address / c.blockSize == block {
      OneOpen(m, k, c.blockSize);
    } else {
      TallyZero(m, IsOpen(block, c.blockSize));
    }
  }

  /** Over every run, a dirty block is still in its way, dirty and with its data, or its
      write-back has been sent below. */
  lemma {:induction false} EveryRunKeepsDirtyData(
      c: Config, s: State, bound: nat, es: seq<Input>, set': nat, way: nat)
    requires Positive(c) && CacheInv(c, s, bound) && Legal(c, s, bound, es) && set' < c.sets && way < c.ways
    requires s.blocks[set'][way].valid && s.blocks[set'][way].dirty
    ensures Safe(c, s.blocks[set'][way], Sent(c, s, bound, es).wq, Run(c, s, bound, es), set', way)
    decreases |es|
  {
    hide Cycle, MshrInv, WritesInv, TidyMshr, TidyTags, Env;
    if es == [] {
    } else {
      var b, s1 := s.blocks[set'][way], Cycle(c, s, es[0], bound);
      CycleIsSafe(c, s, es[0], bound, set', way);
      if SameData(b, s1.blocks[set'][way]) {
        EveryRunKeepsDirtyData(c, s1, Due(c, es[0]), es[1..], set', way);
        assert WriteBack(s1.blocks[set'][way]) == WriteBack(b);
      }
    }
  }
}
