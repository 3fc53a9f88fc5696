/** What each step of a cache level does, exactly: what a miss sends below, what a fill
    installs, what a hit answers, and when. */
module CacheSteps {
  import opened SetUnion
  import opened Cache
  import opened CacheProof
  import opened CacheRuns
  import Q = ChannelQueues

  /** A latency, which the warm-up skips. */
  function Wait(warmup: bool, latency: nat): nat { if warmup then 0 else latency }

  // ---- Misses ----

  ghost predicate InFlight(m: seq<Mshr>, address: nat, blockSize: nat)
    requires blockSize > 0
  {
    exists k :: 0 <= k < |m| && m[k].address / blockSize == address / blockSize
  }

  /** `l` with `q` behind its prefetch queue or its read queue. */
  function Behind(l: Q.State, prefetch: bool, q: Q.Queue): Q.State {
    if prefetch then l.(pq := l.pq + q) else l.(rq := l.rq + q)
  }

  /** A miss on a block not in flight sends exactly one request below and takes an entry if a
      response will come; it is refused exactly if there is no entry or no place below. A
      miss on a block in flight is accepted and sends nothing. */
  lemma MissSendsExactly(c: Config, s: State, t: Tag, now: nat, r: (bool, State))
    requires c.blockSize > 0 && |s.mshr| <= c.mshrSize && r == HandleMiss(c, s, t, now)
    ensures
      var prefetch := t.kind == Prefetch && !c.prefetchAsLoad;
      var room := if prefetch then |s.lower.pq| < c.lower.pq else |s.lower.rq| < c.lower.rq;
      var dropped := t.local && t.skipFill;
      var request := Q.Request(t.address, true, !dropped, false, t.data, t.metadata, t.deps);
      var entry := Mshr(t.address, t.data, t.metadata, t.kind, t.local, NEVER, now, t.deps, t.toReturn);
      if InFlight(s.mshr, t.address, c.blockSize) then r.0 && r.1 == s.(mshr := r.1.mshr)
      else if |s.mshr| < c.mshrSize && room then
        r == (true, s.(lower := Behind(s.lower, prefetch, [request]),
                       mshr := s.mshr + if dropped then [] else [entry]))
      else r == (false, s)
  {
    var i := FindBlock(s.mshr, t.address, c.blockSize, 0);
    if i < |s.mshr| { assert InFlight(s.mshr, t.address, c.blockSize); }
    assert s.mshr + [] == s.mshr;
  }

  /** A merge leaves the other entries alone; a prefetch adds only waiters, another request
      also puts its own kind, address and time in place. Data and fill time never change. */
  lemma MissMergesExactly(c: Config, s: State, t: Tag, now: nat, r: (bool, State), k: nat)
    requires c.blockSize > 0 && Distinct(s.mshr, c.blockSize) && NoneLater(s.mshr) && r == HandleMiss(c, s, t, now)
    requires k < |s.mshr| && s.mshr[k].address / c.blockSize == t.address / c.blockSize
    ensures r.0 && |r.1.mshr| == |s.mshr| && r.1 == s.(mshr := s.mshr[k := r.1.mshr[k]])
    ensures
      var m, m' := s.mshr[k], r.1.mshr[k];
      && (forall d :: d in m'.deps <==> d in m.deps || d in t.deps)
      && (forall x :: x in m'.toReturn <==> x in m.toReturn || x in t.toReturn)
      && m' == if t.kind == Prefetch then m.(deps := m'.deps, toReturn := m'.toReturn)
               else Mshr(t.address, m.data, t.metadata, t.kind, t.local, m.event, now, m'.deps, m'.toReturn)
  {
    assert FindBlock(s.mshr, t.address, c.blockSize, 0) == k;
    MergeKeepsReturned(s.mshr[k], t, now, c.blockSize);
  }

  /** An answer puts its data, metadata and the fill time into its entry, which trades
      places with the first unreturned one; nothing else changes. */
  lemma FinishPacketExactly(m: seq<Mshr>, r: Q.Response, due: nat, blockSize: nat, i: nat, p: nat)
    requires blockSize > 0 && Distinct(m, blockSize) && p <= i < |m|
    requires m[i].address / blockSize == r.address / blockSize
    requires m[p].event == NEVER && forall j :: 0 <= j < p ==> m[j].event != NEVER
    ensures FindBlock(m, r.address, blockSize, 0) < |m| && FirstUnreturned(m, 0) < |m|
    ensures
      var m' := FinishPacket(m, r, due, blockSize);
      && |m'| == |m| && m'[p] == m[i].(data := r.data, metadata := r.metadata, event := due)
      && (p < i ==> m'[i] == m[p]) && forall j :: 0 <= j < |m| && j != i && j != p ==> m'[j] == m[j]
  {
    assert FindBlock(m, r.address, blockSize, 0) == i;
    assert FirstUnreturned(m, 0) == p;
  }

  /** What answers `rs` make of entry `x`. */
  ghost predicate Becomes(x: Mshr, rs: seq<Q.Response>, due: nat, blockSize: nat, y: Mshr)
    requires blockSize > 0
  {
    && (forall a :: 0 <= a < |rs| && rs[a].address / blockSize == x.address / blockSize ==>
          y == x.(data := rs[a].data, metadata := rs[a].metadata, event := due))
    && ((forall a :: 0 <= a < |rs| ==> rs[a].address / blockSize != x.address / blockSize) ==> y == x)
  }

  ghost predicate Turns(x: Mshr, rs: seq<Q.Response>, due: nat, blockSize: nat, m: seq<Mshr>)
    requires blockSize > 0
  {
    exists k :: 0 <= k < |m| && Becomes(x, rs, due, blockSize, m[k])
  }

  lemma FirstAnswer(m: seq<Mshr>, rs: seq<Q.Response>, due: nat, blockSize: nat, k: nat)
    requires blockSize > 0 && due < NEVER && rs != [] && Answers(m, rs, blockSize) && Distinct(m, blockSize)
    requires k < |m| && FindBlock(m, rs[0].address, blockSize, 0) < |m| && FirstUnreturned(m, 0) < |m|
    ensures Turns(m[k], rs[..1], due, blockSize, FinishPacket(m, rs[0], due, blockSize))
  {
    AnsweredEntry(m, rs, blockSize);
    var i, p := FindBlock(m, rs[0].address, blockSize, 0), FirstUnreturned(m, 0);
    var m' := FinishPacket(m, rs[0], due, blockSize);
    assert rs[..1] == [rs[0]];
    assert Becomes(m[k], rs[..1], due, blockSize, m'[if k == i then p else if k == p then i else k]);
  }

  /** Every entry is completed by the answer to its block if there is one, or else unchanged. */
  lemma {:induction false} FinishAllExactly(
      m: seq<Mshr>, rs: seq<Q.Response>, due: nat, blockSize: nat, r: seq<Mshr>, k: nat)
    requires blockSize > 0 && due < NEVER && Answers(m, rs, blockSize) && Distinct(m, blockSize) && k < |m|
    requires r == FinishAll(m, rs, due, blockSize)
    ensures |r| == |m| && Turns(m[k], rs, due, blockSize, r)
    decreases |rs|
  {
    hide Distinct, Answers, Becomes, FinishPacket;
    if rs == [] {
      assert Becomes(m[k], rs, due, blockSize, m[k]) by { NoAnswer(m[k], due, blockSize); }
    } else {
      AnswerShrinks(m, rs, due, blockSize);
      FirstAnswer(m, rs, due, blockSize, k);
      var m' := FinishPacket(m, rs[0], due, blockSize);
      var j :| 0 <= j < |m'| && Becomes(m[k], rs[..1], due, blockSize, m'[j]);
      FinishAllExactly(m', rs[1..], due, blockSize, r, j);
      var l :| 0 <= l < |r| && Becomes(m'[j], rs[1..], due, blockSize, r[l]);
      assert Becomes(m[k], rs, due, blockSize, r[l]) by { BecomesThen(m, m[k], rs, due, blockSize, m'[j], r[l]); }
      assert |m'| == |m| by { FinishKeepsLength(m, rs[0], due, blockSize); }
    }
  }

  lemma FinishKeepsLength(m: seq<Mshr>, r: Q.Response, due: nat, blockSize: nat)
    requires blockSize > 0 && FindBlock(m, r.address, blockSize, 0) < |m| && FirstUnreturned(m, 0) < |m|
    ensures |FinishPacket(m, r, due, blockSize)| == |m|
  {
  }

  lemma NoAnswer(x: Mshr, due: nat, blockSize: nat)
    requires blockSize > 0
    ensures Becomes(x, [], due, blockSize, x)
  {
  }

  lemma BecomesThen(m: seq<Mshr>, x: Mshr, rs: seq<Q.Response>, due: nat, blockSize: nat, y: Mshr, z: Mshr)
    requires blockSize > 0 && rs != [] && Answers(m, rs, blockSize)
    requires Becomes(x, rs[..1], due, blockSize, y) && Becomes(y, rs[1..], due, blockSize, z)
    ensures Becomes(x, rs, due, blockSize, z)
  {
    assert rs[..1][0] == rs[0] && forall a :: 0 <= a < |rs| - 1 ==> rs[1..][a] == rs[a + 1];
    assert y.address == x.address;
    if rs[0].address / blockSize == x.address / blockSize {
      assert z == y;
    } else {
      assert y == x;
    }
  }

  /** What comes back from below in a cycle completes its entry, to be filled after the fill latency. */
  lemma ReceivesExactly(c: Config, s: State, e: Input, r: State, k: nat)
    requires Positive(c) && Distinct(s.mshr, c.blockSize) && Answers(s.mshr, e.lower.returned, c.blockSize)
    requires e.now + FillLatency(c, e.warmup) < NEVER && r == Receive(c, s, e) && k < |s.mshr|
    ensures r == s.(mshr := r.mshr, lower := e.lower.(returned := [])) && |r.mshr| == |s.mshr|
    ensures Turns(s.mshr[k], e.lower.returned, e.now + Wait(e.warmup, c.fillLatency), c.blockSize, r.mshr)
  {
    FinishAllExactly(s.mshr, e.lower.returned, e.now + FillLatency(c, e.warmup), c.blockSize, r.mshr, k);
  }

  // ---- Fills ----

  /** The way to fill: the first invalid one, or else the one the policy picked. */
  ghost predicate Victim(b: seq<Block>, choice: Choice, way: nat) {
    if forall k :: 0 <= k < |b| ==> b[k].valid then way == choice.way
    else way < |b| && !b[way].valid && forall k :: 0 <= k < way ==> b[k].valid
  }

  lemma {:induction false} FirstInvalidSelects(b: seq<Block>, k: nat)
    requires k <= |b|
    ensures forall j :: k <= j < FirstInvalid(b, k) ==> b[j].valid
    ensures FirstInvalid(b, k) < |b| ==> !b[FirstInvalid(b, k)].valid
    decreases |b| - k
  {
    if k < |b| && b[k].valid { FirstInvalidSelects(b, k + 1); }
  }

  /** A fill installs the block with the data of the entry, dirty exactly for a write, in the
      way to fill, or nowhere if the policy bypasses; a dirty block there is written back with its own data, and
      nothing else is sent. */
  lemma FillInstallsExactly(c: Config, s: State, f: Mshr, choice: Choice, r: (bool, State), way: nat)
    requires Positive(c) && Shaped(c, s) && (forall x :: x in f.toReturn ==> x < |s.ups|)
    requires r == HandleFill(c, s, f, choice) && r.0
    requires Victim(s.blocks[f.address / c.blockSize % c.sets], choice, way)
    ensures
      var set' := f.address / c.blockSize % c.sets;
      var installed := Block(true, f.local, f.kind == Write, f.address, f.data, choice.metadata);
      if way >= c.ways then r.1 == s.(ups := r.1.ups)
      else
        var b := s.blocks[set'][way];
        var writeBack := Q.Request(b.address, true, false, false, b.data, b.metadata, []);
        && r.1 == s.(ups := r.1.ups, blocks := r.1.blocks, lower := r.1.lower)
        && r.1.lower == s.lower.(wq := s.lower.wq + if b.valid && b.dirty then [writeBack] else [])
        && Shaped(c, r.1) && forall i, w :: 0 <= i < c.sets && 0 <= w < c.ways ==>
             r.1.blocks[i][w] == if i == set' && w == way then installed else s.blocks[i][w]
  {
    var b := s.blocks[f.address / c.blockSize % c.sets];
    FirstInvalidSelects(b, 0);
    assert SetOf(c, f.address) == f.address / c.blockSize % c.sets;
    assert WayFor(b, choice) == way;
  }

  // ---- Tag checks ----

  /** The first way of the set that holds the address's block. */
  ghost predicate HitsAt(b: seq<Block>, address: nat, blockSize: nat, way: nat)
    requires blockSize > 0
  {
    && way < |b| && b[way].address / blockSize == address / blockSize
    && forall k :: 0 <= k < way ==> b[k].address / blockSize != address / blockSize
  }

  /** A hit answers each waiting queue once with the block's data; a write makes the block
      dirty, a request from above clears its prefetch mark; nothing else changes. */
  lemma HitAnswersExactly(
      c: Config, s: State, t: Tag, now: nat, latency: nat, metadata: nat, r: (bool, State), way: nat)
    requires Positive(c) && Shaped(c, s) && Sorted(t.toReturn) && (forall x :: x in t.toReturn ==> x < |s.ups|)
    requires HitsAt(s.blocks[t.address / c.blockSize % c.sets], t.address, c.blockSize, way)
    requires r == TagCheck(c, s, t, now, latency, metadata)
    ensures r.0 && r.1 == s.(blocks := r.1.blocks, ups := r.1.ups) && Shaped(c, r.1) && |r.1.ups| == |s.ups|
    ensures
      var set' := t.address / c.blockSize % c.sets;
      var b := s.blocks[set'][way];
      var b' := Block(b.valid, b.prefetch && t.local, b.dirty || t.kind == Write, b.address, b.data, b.metadata);
      var answer := [Q.Response(t.address, b.data, metadata, t.deps)];
      && (forall x :: 0 <= x < |s.ups| ==> r.1.ups[x] == s.ups[x] + if x in t.toReturn then answer else [])
      && forall i, w :: 0 <= i < c.sets && 0 <= w < c.ways ==>
           r.1.blocks[i][w] == if i == set' && w == way then b' else s.blocks[i][w]
  {
    var set' := t.address / c.blockSize % c.sets;
    assert SetOf(c, t.address) == set';
    assert FindHit(s.blocks[set'], t.address, c.blockSize, 0) == way;
    PushAllOnce(s.ups, t.toReturn, Q.Response(t.address, s.blocks[set'][way].data, metadata, t.deps), r.1.ups);
  }

  /** Without the block in its set, a write-back waits to be filled after the latency, and
      anything else is a miss. */
  lemma MissGoesOn(c: Config, s: State, t: Tag, now: nat, latency: nat, metadata: nat, r: (bool, State))
    requires Positive(c) && Shaped(c, s) && (forall x :: x in t.toReturn ==> x < |s.ups|)
    requires forall way :: !HitsAt(s.blocks[t.address / c.blockSize % c.sets], t.address, c.blockSize, way)
    requires r == TagCheck(c, s, t, now, latency, metadata)
    ensures
      var waiting := Mshr(t.address, t.data, t.metadata, t.kind, t.local, now + latency, now, t.deps, t.toReturn);
      r == if t.kind == Write && !c.matchOffset then (true, s.(writes := s.writes + [waiting]))
           else HandleMiss(c, s, t, now)
  {
    var b := s.blocks[t.address / c.blockSize % c.sets];
    assert SetOf(c, t.address) == t.address / c.blockSize % c.sets;
    var way := FindHit(b, t.address, c.blockSize, 0);
    assert way < |b| ==> HitsAt(b, t.address, c.blockSize, way);
  }

  /** The tag check must be tried again: its block is neither here nor in flight, and there
      is no entry or no place below for it. */
  ghost predicate MustRetry(c: Config, s: State, t: Tag)
    requires Positive(c) && |s.blocks| == c.sets
  {
    && (forall way :: !HitsAt(s.blocks[t.address / c.blockSize % c.sets], t.address, c.blockSize, way))
    && (t.kind == Write ==> c.matchOffset) && !InFlight(s.mshr, t.address, c.blockSize)
    && (|s.mshr| == c.mshrSize
        || if t.kind == Prefetch && !c.prefetchAsLoad then |s.lower.pq| >= c.lower.pq else |s.lower.rq| >= c.lower.rq)
  }

  lemma RetriedIff(c: Config, s: State, t: Tag, now: nat, latency: nat, metadata: nat, r: (bool, State))
    requires Positive(c) && Shaped(c, s) && (forall x :: x in t.toReturn ==> x < |s.ups|)
    requires r == TagCheck(c, s, t, now, latency, metadata)
    ensures !r.0 <==> MustRetry(c, s, t)
  {
    hide PushAll;
    var b := s.blocks[t.address / c.blockSize % c.sets];
    assert SetOf(c, t.address) == t.address / c.blockSize % c.sets;
    var way, i := FindHit(b, t.address, c.blockSize, 0), FindBlock(s.mshr, t.address, c.blockSize, 0);
    assert way < |b| ==> HitsAt(b, t.address, c.blockSize, way);
    assert i < |s.mshr| ==> InFlight(s.mshr, t.address, c.blockSize);
  }

  // ---- Scans and latencies ----

  /** Only due entries are filled, within the bandwidth, and a due one is left behind only
      for lack of bandwidth or because the write queue below is full. */
  lemma {:induction false} FillFromExactly(
      c: Config, s: State, q: seq<Mshr>, k: nat, limit: nat, now: nat, pick: nat -> Choice, r: (nat, State))
    requires Positive(c) && Shaped(c, s) && Fillable(|s.ups|, q) && k <= |q|
    requires r == FillFrom(c, s, q, k, limit, now, pick)
    ensures k <= r.0 <= |q| && (r.0 <= limit || r.0 == k) && forall j :: k <= j < r.0 ==> q[j].event <= now
    ensures r.0 < limit && r.0 < |q| ==> q[r.0].event > now || |r.1.lower.wq| >= c.lower.wq
    ensures |s.lower.wq| <= |r.1.lower.wq|
    decreases |q| - k
  {
    if k < limit && k < |q| && q[k].event <= now {
      var f := HandleFill(c, s, q[k], pick(k));
      assert f.0 ==> |s.lower.wq| <= |f.1.lower.wq|;
      FillShape(c, s, q[k], pick(k), f);
      hide HandleFill;
      if f.0 { FillFromExactly(c, f.1, q, k + 1, limit, now, pick, r); }
    }
  }

  ghost predicate Stuck(c: Config, r: State, q: seq<Mshr>, now: nat) {
    q != [] && q[0].event <= now ==> |r.lower.wq| >= c.lower.wq
  }

  /** The due entries in front of `q` that one scan filled, so that `rest` is left. */
  ghost predicate Filled(c: Config, r: State, q: seq<Mshr>, rest: seq<Mshr>, limit: nat, now: nat) {
    && |rest| <= |q| && rest == q[|q| - |rest|..] && |q| - |rest| <= limit
    && (forall j :: 0 <= j < |q| - |rest| ==> q[j].event <= now)
    && (|q| - |rest| < limit ==> Stuck(c, r, rest, now))
  }

  lemma FillMshrExactly(c: Config, s: State, e: Input, r: State)
    requires Positive(c) && Shaped(c, s) && Fillable(|s.ups|, s.mshr) && r == FillMshr(c, s, e)
    ensures r.tags == s.tags && r.writes == s.writes && Filled(c, r, s.mshr, r.mshr, c.maxFill, e.now)
    ensures |s.mshr| - |r.mshr| == FillFrom(c, s, s.mshr, 0, c.maxFill, e.now, e.fills).0
  {
    hide FillFrom;
    var f := FillFrom(c, s, s.mshr, 0, c.maxFill, e.now, e.fills);
    FillFromExactly(c, s, s.mshr, 0, c.maxFill, e.now, e.fills, f);
  }

  lemma FillWritesExactly(c: Config, s: State, e: Input, limit: nat, r: State)
    requires Positive(c) && Shaped(c, s) && Fillable(|s.ups|, s.writes) && r == FillWrites(c, s, e, limit)
    ensures r.tags == s.tags && r.mshr == s.mshr && Filled(c, r, s.writes, r.writes, limit, e.now)
    ensures |s.lower.wq| <= |r.lower.wq|
  {
    hide FillFrom;
    var f := FillFrom(c, s, s.writes, 0, limit, e.now, e.writeFills);
    FillFromExactly(c, s, s.writes, 0, limit, e.now, e.writeFills, f);
  }

  /** The fills of a cycle, up to MAX_FILL in all: due misses in front, then due write-backs. */
  lemma FillsExactly(c: Config, s: State, e: Input, r: State)
    requires Positive(c) && CacheInv(c, s, Due(c, e)) && r == AfterFills(c, s, e)
    ensures r.tags == s.tags && Filled(c, r, s.mshr, r.mshr, c.maxFill, e.now)
    ensures Filled(c, r, s.writes, r.writes, c.maxFill - (|s.mshr| - |r.mshr|), e.now)
  {
    hide FillFrom, FillMshr, FillWrites, MshrInv, WritesInv, TidyTags;
    var spent := FillFrom(c, s, s.mshr, 0, c.maxFill, e.now, e.fills).0;
    var s1 := FillMshr(c, s, e);
    FillMshrExactly(c, s, e, s1);
    FillMshrKeeps(c, s, e, Due(c, e), s1);
    FillWritesExactly(c, s1, e, c.maxFill - spent, r);
  }

  /** Tag checks end at the bandwidth, at one not ready, or at one to be retried. */
  lemma {:induction false} ChecksAreReady(
      c: Config, s: State, q: seq<Tag>, k: nat, limit: nat, now: nat, latency: nat, pick: nat -> Choice,
      r: (nat, State))
    requires Positive(c) && Shaped(c, s) && Checkable(|s.ups|, q) && k <= |q|
    requires r == CheckFrom(c, s, q, k, limit, now, latency, pick)
    ensures k <= r.0 <= |q| && (r.0 <= limit || r.0 == k) && forall j :: k <= j < r.0 ==> q[j].event <= now
    ensures Shaped(c, r.1) && |r.1.ups| == |s.ups|
    ensures r.0 < limit && r.0 < |q| ==> q[r.0].event > now || MustRetry(c, r.1, q[r.0])
    decreases |q| - k
  {
    hide TagCheck, MustRetry;
    if k < limit && k < |q| && q[k].event <= now {
      var t := TagCheck(c, s, q[k], now, latency, pick(k).metadata);
      TagCheckShape(c, s, q[k], now, latency, pick(k).metadata, t);
      RetriedIff(c, s, q[k], now, latency, pick(k).metadata, t);
      if t.0 { ChecksAreReady(c, t.1, q, k + 1, limit, now, latency, pick, r); }
    }
  }

  /** What waits for a tag check: the requests that arrive are ready after the hit latency. */
  ghost predicate Queued(c: Config, s: State, e: Input, all: seq<Tag>) {
    && |all| == |s.tags| + |e.arrivals| && all[..|s.tags|] == s.tags
    && forall i :: 0 <= i < |e.arrivals| ==>
         all[|s.tags| + i] == e.arrivals[i].(event := e.now + Wait(e.warmup, c.hitLatency))
  }

  lemma QueuedIsStamped(c: Config, s: State, e: Input, all: seq<Tag>)
    requires Queued(c, s, e, all) && Checkable(|s.ups|, s.tags) && Checkable(|s.ups|, e.arrivals)
    ensures all == s.tags + Stamp(e.arrivals, e.now + HitLatency(c, e.warmup)) && Checkable(|s.ups|, all)
  {
    assert all == all[..|s.tags|] + all[|s.tags|..];
    forall k | 0 <= k < |all| ensures forall x :: x in all[k].toReturn ==> x < |s.ups| {
      if k < |s.tags| {
        assert all[k] == all[..|s.tags|][k];
      } else {
        var i := k - |s.tags|;
        assert all[|s.tags| + i] == e.arrivals[i].(event := e.now + Wait(e.warmup, c.hitLatency));
      }
    }
  }

  /** The tag checks of a cycle: the ready ones in front are done with, up to MAX_TAG, until
      one must be retried. */
  lemma TagChecksExactly(c: Config, s: State, e: Input, r: State, all: seq<Tag>)
    requires Positive(c) && Shaped(c, s) && Checkable(|s.ups|, s.tags) && Checkable(|s.ups|, e.arrivals)
    requires r == CheckTags(c, s, e) && Queued(c, s, e, all)
    ensures |r.tags| <= |all| && Shaped(c, r)
    ensures
      var n := |all| - |r.tags|;
      && r.tags == all[n..] && n <= c.maxTag && (forall j :: 0 <= j < n ==> all[j].event <= e.now)
      && (n < c.maxTag && r.tags != [] ==> r.tags[0].event > e.now || MustRetry(c, r, r.tags[0]))
  {
    hide CheckFrom, MustRetry, Queued, Stamp;
    QueuedIsStamped(c, s, e, all);
    var t := CheckFrom(c, s.(tags := all), all, 0, c.maxTag, e.now, FillLatency(c, e.warmup), e.checks);
    ChecksAreReady(c, s.(tags := all), all, 0, c.maxTag, e.now, FillLatency(c, e.warmup), e.checks, t);
    if r.tags != [] { RetryIgnoresTags(c, t.1, all[t.0..], r.tags[0]); }
  }

  lemma RetryIgnoresTags(c: Config, s: State, tags: seq<Tag>, t: Tag)
    requires Positive(c) && |s.blocks| == c.sets
    ensures MustRetry(c, s.(tags := tags), t) == MustRetry(c, s, t)
  {
  }

  // ---- A cycle ----

  /** Entries keep their places, blocks and times, and what is new comes behind them. */
  ghost predicate KeepsEntries(c: Config, s: State, r: State)
    requires c.blockSize > 0
  {
    && |s.mshr| <= |r.mshr| && s.writes <= r.writes && r.lower.wq == s.lower.wq
    && forall i :: 0 <= i < |s.mshr| ==>
         r.mshr[i].event == s.mshr[i].event && r.mshr[i].address / c.blockSize == s.mshr[i].address / c.blockSize
  }

  lemma TagCheckKeepsEntries(c: Config, s: State, t: Tag, now: nat, latency: nat, metadata: nat, r: (bool, State))
    requires Positive(c) && CheckInv(c, s, now + latency) && (forall x :: x in t.toReturn ==> x < |s.ups|)
    requires r == TagCheck(c, s, t, now, latency, metadata)
    ensures KeepsEntries(c, s, r.1)
  {
    hide HandleMiss;
    var h := TryHit(c, s, t, metadata);
    if !h.0 && !(t.kind.Write? && !c.matchOffset) {
      MissSendsExactly(c, s, t, now, r);
      if InFlight(s.mshr, t.address, c.blockSize) {
        var k :| 0 <= k < |s.mshr| && s.mshr[k].address / c.blockSize == t.address / c.blockSize;
        MissMergesExactly(c, s, t, now, r, k);
      }
    }
  }

  lemma KeepsTrans(c: Config, a: State, b: State, d: State)
    requires c.blockSize > 0 && KeepsEntries(c, a, b) && KeepsEntries(c, b, d)
    ensures KeepsEntries(c, a, d)
  {
  }

  lemma KeepsSelf(c: Config, s: State)
    requires c.blockSize > 0
    ensures KeepsEntries(c, s, s)
  {
  }

  lemma {:induction false} ChecksKeepEntries(
      c: Config, s: State, q: seq<Tag>, k: nat, limit: nat, now: nat, latency: nat, pick: nat -> Choice,
      r: (nat, State))
    requires Positive(c) && Shaped(c, s) && Checkable(|s.ups|, q) && k <= |q| && CheckInv(c, s, now + latency)
    requires TidyTags(q, |s.ups|) && r == CheckFrom(c, s, q, k, limit, now, latency, pick)
    ensures KeepsEntries(c, s, r.1)
    decreases |q| - k
  {
    hide CheckInv, TagCheck, Shaped, KeepsEntries;
    KeepsSelf(c, s);
    if k < limit && k < |q| && q[k].event <= now {
      var t := TagCheck(c, s, q[k], now, latency, pick(k).metadata);
      TagCheckKeeps(c, s, q[k], now, latency, pick(k).metadata, t);
      TagCheckKeepsEntries(c, s, q[k], now, latency, pick(k).metadata, t);
      if t.0 {
        assert Shaped(c, t.1) by { CheckIsShaped(c, t.1, now + latency); }
        ChecksKeepEntries(c, t.1, q, k + 1, limit, now, latency, pick, r);
        KeepsTrans(c, s, t.1, r.1);
      }
    }
  }

  lemma CheckTagsKeepEntries(c: Config, s: State, e: Input, r: State)
    requires Positive(c) && CacheInv(c, s, Due(c, e)) && TidyTags(e.arrivals, |s.ups|) && r == CheckTags(c, s, e)
    ensures KeepsEntries(c, s, r)
  {
    hide MshrInv, WritesInv, TidyMshr, CheckFrom;
    var s1 := s.(tags := s.tags + Stamp(e.arrivals, e.now + HitLatency(c, e.warmup)));
    var t := CheckFrom(c, s1, s1.tags, 0, c.maxTag, e.now, FillLatency(c, e.warmup), e.checks);
    ChecksKeepEntries(c, s1, s1.tags, 0, c.maxTag, e.now, FillLatency(c, e.warmup), e.checks, t);
  }

  lemma ReceiveFrame(c: Config, s: State, e: Input, r: State)
    requires Positive(c) && Distinct(s.mshr, c.blockSize) && Answers(s.mshr, e.lower.returned, c.blockSize)
    requires e.now + FillLatency(c, e.warmup) < NEVER && r == Receive(c, s, e)
    ensures r == s.(mshr := r.mshr, lower := e.lower.(returned := [])) && |r.mshr| == |s.mshr|
  {
    if s.mshr != [] { ReceivesExactly(c, s, e, r, 0); }
  }

  /** The misses of `s` with the answers of `e` are `m`, returned ones in front. */
  ghost predicate Completed(c: Config, s: State, e: Input, m: seq<Mshr>)
    requires Positive(c)
  {
    && |m| == |s.mshr| && Ordered(m)
    && forall k :: 0 <= k < |s.mshr| ==>
         Turns(s.mshr[k], e.lower.returned, e.now + Wait(e.warmup, c.fillLatency), c.blockSize, m)
  }

  /** A due entry is left by the fills only for the bandwidth or a full write queue below. */
  ghost predicate LeftOnly(c: Config, r: State, q: seq<Mshr>, n: nat, limit: nat, now: nat) {
    && n <= |q| && n <= limit && (forall j :: 0 <= j < n ==> q[j].event <= now)
    && (n < limit && n < |q| && q[n].event <= now ==> |r.lower.wq| >= c.lower.wq)
  }

  /** A whole cycle: the answers complete their misses, `n` due misses and `w` due
      write-backs are filled, the rest stays in place, and the tag checks are done. */
  lemma CycleExactly(c: Config, s: State, e: Input, bound: nat, r: State, all: seq<Tag>)
      returns (m: seq<Mshr>, n: nat, w: nat)
    requires Positive(c) && CacheInv(c, s, bound) && Env(c, s, e, bound)
    requires r == Cycle(c, s, e, bound) && Queued(c, s, e, all)
    ensures Completed(c, s, e, m)
    ensures LeftOnly(c, r, m, n, c.maxFill, e.now) && LeftOnly(c, r, s.writes, w, c.maxFill - n, e.now)
    ensures s.writes[w..] <= r.writes && |r.mshr| >= |m| - n && forall i :: n <= i < |m| ==>
              && r.mshr[i - n].event == m[i].event
              && r.mshr[i - n].address / c.blockSize == m[i].address / c.blockSize
    ensures |r.tags| <= |all| && r.tags == all[|all| - |r.tags|..] && |all| - |r.tags| <= c.maxTag
    ensures forall j :: 0 <= j < |all| - |r.tags| ==> all[j].event <= e.now
    ensures |all| - |r.tags| < c.maxTag && r.tags != [] ==> r.tags[0].event > e.now || MustRetry(c, r, r.tags[0])
  {
    hide Receive, AfterFills, CheckTags, MustRetry, Turns, Bounded, WritesInv, Ordered;
    var s1 := Receive(c, s, e);
    ReceiveFrame(c, s, e, s1);
    ReceiveKeeps(c, s, e, bound, s1);
    forall k | 0 <= k < |s.mshr| ensures
      Turns(s.mshr[k], e.lower.returned, e.now + Wait(e.warmup, c.fillLatency), c.blockSize, s1.mshr)
    {
      ReceivesExactly(c, s, e, s1, k);
    }
    var s2 := AfterFills(c, s1, e);
    FillsExactly(c, s1, e, s2);
    CheckTagsKeepEntries(c, s2, e, r);
    m, n, w := s1.mshr, |s1.mshr| - |s2.mshr|, |s1.writes| - |s2.writes|;
    TagChecksExactly(c, s2, e, r, all);
  }
}
