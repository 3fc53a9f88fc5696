/** One cache level: misses in flight, fills, and the tag checks that create them. */
module Cache {
  import opened SetUnion
  import Q = ChannelQueues

  /** The event time of a miss that has not returned: the largest 64-bit number. */
  const NEVER: nat := 0xFFFF_FFFF_FFFF_FFFF

  datatype Kind = Load | Rfo | Prefetch | Write | Translation

  /** A request on its way through the tag check. `toReturn` names the upper queues that want the response. */
  datatype Tag = Tag(
    address: nat, data: nat, metadata: nat, kind: Kind, local: bool, skipFill: bool, event: nat, deps: seq<nat>,
    toReturn: seq<nat>)

  datatype Mshr = Mshr(
    address: nat, data: nat, metadata: nat, kind: Kind, local: bool, event: nat, enqueued: nat, deps: seq<nat>,
    toReturn: seq<nat>)

  datatype Block = Block(valid: bool, prefetch: bool, dirty: bool, address: nat, data: nat, metadata: nat)

  datatype Config = Config(
    mshrSize: nat, sets: nat, ways: nat, blockSize: nat, hitLatency: nat, fillLatency: nat,
    maxFill: nat, maxTag: nat, prefetchAsLoad: bool, matchOffset: bool, lower: Q.Sizes)

  datatype State = State(
    mshr: seq<Mshr>, writes: seq<Mshr>, tags: seq<Tag>, blocks: seq<seq<Block>>, lower: Q.State,
    ups: seq<seq<Q.Response>>)

  /** What replacement policy and prefetcher say about one fill; way `ways` bypasses. */
  datatype Choice = Choice(way: nat, metadata: nat)

  ghost predicate Positive(c: Config) {
    c.sets > 0 && c.ways > 0 && c.blockSize > 0
  }

  // ---- Misses ----

  function FindBlock(m: seq<Mshr>, address: nat, blockSize: nat, k: nat): (r: nat)
    requires blockSize > 0 && k <= |m|
    ensures k <= r <= |m|
    ensures r < |m| ==> m[r].address / blockSize == address / blockSize
    ensures forall i :: k <= i < r ==> m[i].address / blockSize != address / blockSize
    decreases |m| - k
  {
    if k == |m| || m[k].address / blockSize == address / blockSize then k else FindBlock(m, address, blockSize, k + 1)
  }

  function FirstUnreturned(m: seq<Mshr>, k: nat): (r: nat)
    requires k <= |m|
    ensures k <= r <= |m|
    ensures r < |m| ==> m[r].event == NEVER
    ensures forall i :: k <= i < r ==> m[i].event != NEVER
    decreases |m| - k
  {
    if k == |m| || m[k].event == NEVER then k else FirstUnreturned(m, k + 1)
  }

  function Fresh(t: Tag, now: nat): Mshr {
    Mshr(t.address, t.data, t.metadata, t.kind, t.local, NEVER, now, t.deps, t.toReturn)
  }

  function Merge(predecessor: Mshr, successor: Mshr): Mshr {
    var base := if successor.kind.Prefetch? then predecessor else successor;
    base.(
      deps := Union(predecessor.deps, successor.deps),
      toReturn := Union(predecessor.toReturn, successor.toReturn),
      data := predecessor.data,
      event := if predecessor.event < NEVER then predecessor.event else base.event)
  }

  /** A request the tag check could not answer; false if it must be retried. */
  function HandleMiss(c: Config, s: State, t: Tag, now: nat): (bool, State)
    requires c.blockSize > 0
  {
    var i := FindBlock(s.mshr, t.address, c.blockSize, 0);
    if i < |s.mshr| then (true, s.(mshr := s.mshr[i := Merge(s.mshr[i], Fresh(t, now))]))
    else if |s.mshr| == c.mshrSize then (false, s)
    else
      var respond := !t.local || !t.skipFill;
      var packet := Q.Request(t.address, true, respond, false, t.data, t.metadata, t.deps);
      var asLoad := c.prefetchAsLoad || !t.kind.Prefetch?;
      if (if asLoad then |s.lower.rq| >= c.lower.rq else |s.lower.pq| >= c.lower.pq) then (false, s)
      else
        var lower :=
          if asLoad then s.lower.(rq := Q.Enqueue(s.lower.rq, c.lower.rq, packet))
          else s.lower.(pq := Q.Enqueue(s.lower.pq, c.lower.pq, packet));
        (true, s.(lower := lower, mshr := if respond then s.mshr + [Fresh(t, now)] else s.mshr))
  }

  /** A write-back that misses is filled like a returned miss, without asking below. */
  function HandleWrite(s: State, t: Tag, now: nat, latency: nat): State {
    s.(writes := s.writes + [Fresh(t, now).(event := now + latency)])
  }

  /** A response from below: the entry is completed and put behind the ones returned before it. */
  function FinishPacket(m: seq<Mshr>, r: Q.Response, due: nat, blockSize: nat): seq<Mshr>
    requires blockSize > 0 && FindBlock(m, r.address, blockSize, 0) < |m| && FirstUnreturned(m, 0) < |m|
  {
    var i, p := FindBlock(m, r.address, blockSize, 0), FirstUnreturned(m, 0);
    var entry := m[i].(data := r.data, metadata := r.metadata, event := due);
    m[i := m[p]][p := entry]
  }

  // ---- Fills ----

  function FirstInvalid(b: seq<Block>, k: nat): (r: nat)
    requires k <= |b|
    ensures k <= r <= |b|
    decreases |b| - k
  {
    if k == |b| || !b[k].valid then k else FirstInvalid(b, k + 1)
  }

  function SetOf(c: Config, address: nat): (r: nat)
    requires Positive(c)
    ensures r < c.sets
  {
    address / c.blockSize % c.sets
  }

  function WayFor(set': seq<Block>, choice: Choice): nat {
    var invalid := FirstInvalid(set', 0);
    if invalid < |set'| then invalid else choice.way
  }

  /** One response to each queue in `rets`. */
  function PushAll(ups: seq<seq<Q.Response>>, rets: seq<nat>, r: Q.Response): (u: seq<seq<Q.Response>>)
    requires forall x :: x in rets ==> x < |ups|
    ensures |u| == |ups|
    decreases |rets|
  {
    if rets == [] then ups
    else
      assert rets[0] in rets && forall x :: x in rets[1..] ==> x in rets;
      PushAll(ups[rets[0] := ups[rets[0]] + [r]], rets[1..], r)
  }

  ghost predicate Shaped(c: Config, s: State) {
    |s.blocks| == c.sets && forall i :: 0 <= i < |s.blocks| ==> |s.blocks[i]| == c.ways
  }

  /** `choice.way` is used only when every way is valid; false if the write-back was refused. */
  function HandleFill(c: Config, s: State, f: Mshr, choice: Choice): (bool, State)
    requires Positive(c) && Shaped(c, s) && forall x :: x in f.toReturn ==> x < |s.ups|
  {
    var set' := SetOf(c, f.address);
    var way := WayFor(s.blocks[set'], choice);
    var evict := way < c.ways && s.blocks[set'][way].valid && s.blocks[set'][way].dirty;
    if evict && |s.lower.wq| >= c.lower.wq then (false, s)
    else
      var lower :=
        if !evict then s.lower
        else
          var b := s.blocks[set'][way];
          s.lower.(wq :=
              Q.Enqueue(s.lower.wq, c.lower.wq, Q.Request(b.address, true, false, false, b.data, b.metadata, [])));
      var blocks :=
        if way >= c.ways then s.blocks
        else s.blocks[set' :=
            s.blocks[set'][way := Block(true, f.local, f.kind.Write?, f.address, f.data, choice.metadata)]];
      (true, s.(lower := lower, blocks := blocks,
                ups := PushAll(s.ups, f.toReturn, Q.Response(f.address, f.data, choice.metadata, f.deps))))
  }

  // ---- Tag checks ----

  function FindHit(b: seq<Block>, address: nat, blockSize: nat, k: nat): (r: nat)
    requires blockSize > 0 && k <= |b|
    ensures k <= r <= |b|
    ensures r < |b| ==> b[r].address / blockSize == address / blockSize
    ensures forall i :: k <= i < r ==> b[i].address / blockSize != address / blockSize
    decreases |b| - k
  {
    if k == |b| || b[k].address / blockSize == address / blockSize then k else FindHit(b, address, blockSize, k + 1)
  }

  /** Whether the tag check hits; a hit answers every queue at once. */
  function TryHit(c: Config, s: State, t: Tag, metadata: nat): (bool, State)
    requires Positive(c) && Shaped(c, s) && forall x :: x in t.toReturn ==> x < |s.ups|
  {
    var set' := SetOf(c, t.address);
    var way := FindHit(s.blocks[set'], t.address, c.blockSize, 0);
    if way == c.ways then (false, s)
    else
      var b := s.blocks[set'][way];
      var b' := b.(dirty := b.dirty || t.kind.Write?, prefetch := b.prefetch && t.local);
      (true, s.(blocks := s.blocks[set' := s.blocks[set'][way := b']],
                ups := PushAll(s.ups, t.toReturn, Q.Response(t.address, b.data, metadata, t.deps))))
  }

  function TagCheck(c: Config, s: State, t: Tag, now: nat, latency: nat, metadata: nat): (bool, State)
    requires Positive(c) && Shaped(c, s) && forall x :: x in t.toReturn ==> x < |s.ups|
  {
    var h := TryHit(c, s, t, metadata);
    if h.0 then h
    else if t.kind.Write? && !c.matchOffset then (true, HandleWrite(s, t, now, latency))
    else HandleMiss(c, s, t, now)
  }

  // ---- One cycle ----

  /** Entries that name only existing queues. */
  ghost predicate Fillable(ups: nat, q: seq<Mshr>) {
    forall k :: 0 <= k < |q| ==> forall x :: x in q[k].toReturn ==> x < ups
  }

  ghost predicate Checkable(ups: nat, q: seq<Tag>) {
    forall k :: 0 <= k < |q| ==> forall x :: x in q[k].toReturn ==> x < ups
  }

  /** Fill from `q[k]` on while entries are due, bandwidth lasts and write-backs are taken. Returns how far it came. */
  function FillFrom(
      c: Config, s: State, q: seq<Mshr>, k: nat, limit: nat, now: nat, pick: nat -> Choice): (r: (nat, State))
    requires Positive(c) && Shaped(c, s) && Fillable(|s.ups|, q) && k <= |q|
    ensures k <= r.0 <= |q| && (k <= limit ==> r.0 <= limit)
    ensures Shaped(c, r.1) && |r.1.ups| == |s.ups|
    ensures r.1.mshr == s.mshr && r.1.writes == s.writes && r.1.tags == s.tags
    decreases |q| - k
  {
    if k >= limit || k == |q| || q[k].event > now then (k, s)
    else
      var f := HandleFill(c, s, q[k], pick(k));
      if f.0 then FillFrom(c, f.1, q, k + 1, limit, now, pick) else (k, s)
  }

  /** Check `q[k]` and on while ready, up to `limit`, until one must be retried. */
  function CheckFrom(c: Config, s: State, q: seq<Tag>, k: nat, limit: nat, now: nat, latency: nat,
      pick: nat -> Choice): (r: (nat, State))
    requires Positive(c) && Shaped(c, s) && Checkable(|s.ups|, q) && k <= |q|
    ensures k <= r.0 <= |q|
    ensures Shaped(c, r.1) && |r.1.ups| == |s.ups| && r.1.tags == s.tags
    decreases |q| - k
  {
    if k >= limit || k == |q| || q[k].event > now then (k, s)
    else
      var t := TagCheck(c, s, q[k], now, latency, pick(k).metadata);
      if t.0 then CheckFrom(c, t.1, q, k + 1, limit, now, latency, pick) else (k, s)
  }

  /** A miss on this block is in flight and has not returned. */
  ghost predicate Outstanding(m: seq<Mshr>, address: nat, blockSize: nat)
    requires blockSize > 0
  {
    exists k :: 0 <= k < |m| && m[k].event == NEVER && m[k].address / blockSize == address / blockSize
  }

  /** The lower level answers only misses in flight, each at most once. */
  ghost predicate Answers(m: seq<Mshr>, rs: seq<Q.Response>, blockSize: nat)
    requires blockSize > 0
  {
    && (forall a, b :: 0 <= a < b < |rs| ==> rs[a].address / blockSize != rs[b].address / blockSize)
    && (forall a :: 0 <= a < |rs| ==> Outstanding(m, rs[a].address, blockSize))
  }

  function FinishAll(m: seq<Mshr>, rs: seq<Q.Response>, due: nat, blockSize: nat): seq<Mshr>
    requires blockSize > 0 && due < NEVER && Answers(m, rs, blockSize) && Distinct(m, blockSize)
    decreases |rs|
  {
    if rs == [] then m
    else
      AnswerShrinks(m, rs, due, blockSize);
      FinishAll(FinishPacket(m, rs[0], due, blockSize), rs[1..], due, blockSize)
  }

  /** No two misses in flight are for the same block. */
  ghost predicate Distinct(m: seq<Mshr>, blockSize: nat)
    requires blockSize > 0
  {
    forall a, b :: 0 <= a < b < |m| ==> m[a].address / blockSize != m[b].address / blockSize
  }

  lemma AnsweredEntry(m: seq<Mshr>, rs: seq<Q.Response>, blockSize: nat)
    requires blockSize > 0 && rs != [] && Answers(m, rs, blockSize) && Distinct(m, blockSize)
    ensures
      var i := FindBlock(m, rs[0].address, blockSize, 0);
      i < |m| && m[i].event == NEVER && FirstUnreturned(m, 0) <= i
  {
    assert Outstanding(m, rs[0].address, blockSize);
    var k :| 0 <= k < |m| && m[k].event == NEVER && m[k].address / blockSize == rs[0].address / blockSize;
    var i := FindBlock(m, rs[0].address, blockSize, 0);
    assert i <= k;
  }

  /** After one answer the rest are still answers to misses in flight. */
  lemma AnswerShrinks(m: seq<Mshr>, rs: seq<Q.Response>, due: nat, blockSize: nat)
    requires blockSize > 0 && due < NEVER && rs != [] && Answers(m, rs, blockSize) && Distinct(m, blockSize)
    ensures FindBlock(m, rs[0].address, blockSize, 0) < |m| && FirstUnreturned(m, 0) < |m|
    ensures Distinct(FinishPacket(m, rs[0], due, blockSize), blockSize)
    ensures Answers(FinishPacket(m, rs[0], due, blockSize), rs[1..], blockSize)
  {
    AnsweredEntry(m, rs, blockSize);
    var i, p := FindBlock(m, rs[0].address, blockSize, 0), FirstUnreturned(m, 0);
    var m' := FinishPacket(m, rs[0], due, blockSize);
    forall a | 0 <= a < |rs[1..]|
      ensures Outstanding(m', rs[1..][a].address, blockSize)
    {
      assert Outstanding(m, rs[a + 1].address, blockSize);
      var k :| 0 <= k < |m| && m[k].event == NEVER && m[k].address / blockSize == rs[a + 1].address / blockSize;
      var k' := if k == p then i else k;
      assert m'[k'] == m[k];
    }
  }

  /** One cycle's outside world: the clock, the lower level's state, new requests, and the policies' choices. */
  datatype Input = Input(
    now: nat, warmup: bool, lower: Q.State, arrivals: seq<Tag>, fills: nat -> Choice, writeFills: nat -> Choice,
    checks: nat -> Choice)

  function Stamp(ts: seq<Tag>, event: nat): seq<Tag> {
    seq(|ts|, i requires 0 <= i < |ts| => ts[i].(event := event))
  }

  function FillLatency(c: Config, warmup: bool): nat {
    if warmup then 0 else c.fillLatency
  }

  function HitLatency(c: Config, warmup: bool): nat {
    if warmup then 0 else c.hitLatency
  }

  function Receive(c: Config, s: State, e: Input): State
    requires c.blockSize > 0 && e.now + FillLatency(c, e.warmup) < NEVER
    requires Distinct(s.mshr, c.blockSize) && Answers(s.mshr, e.lower.returned, c.blockSize)
  {
    s.(mshr := FinishAll(s.mshr, e.lower.returned, e.now + FillLatency(c, e.warmup), c.blockSize),
       lower := e.lower.(returned := []))
  }

  function FillMshr(c: Config, s: State, e: Input): State
    requires Positive(c) && Shaped(c, s) && Fillable(|s.ups|, s.mshr)
  {
    var f := FillFrom(c, s, s.mshr, 0, c.maxFill, e.now, e.fills);
    f.1.(mshr := s.mshr[f.0..])
  }

  /** The write-backs get what fill bandwidth the misses left. */
  function FillWrites(c: Config, s: State, e: Input, limit: nat): State
    requires Positive(c) && Shaped(c, s) && Fillable(|s.ups|, s.writes)
  {
    var f := FillFrom(c, s, s.writes, 0, limit, e.now, e.writeFills);
    f.1.(writes := s.writes[f.0..])
  }

  function CheckTags(c: Config, s: State, e: Input): State
    requires Positive(c) && Shaped(c, s) && Checkable(|s.ups|, s.tags) && Checkable(|s.ups|, e.arrivals)
  {
    var s1 := s.(tags := s.tags + Stamp(e.arrivals, e.now + HitLatency(c, e.warmup)));
    var t := CheckFrom(c, s1, s1.tags, 0, c.maxTag, e.now, FillLatency(c, e.warmup), e.checks);
    t.1.(tags := s1.tags[t.0..])
  }

  // ---- What holds between cycles ----

  /** Returned misses come first, in the order of their fill times; none is due after `bound`. */
  ghost predicate Ordered(m: seq<Mshr>) {
    forall a, b :: 0 <= a < b < |m| && m[b].event < NEVER ==> m[a].event <= m[b].event
  }

  ghost predicate Bounded(m: seq<Mshr>, bound: nat) {
    forall a :: 0 <= a < |m| && m[a].event < NEVER ==> m[a].event <= bound
  }

  ghost predicate NoneLater(m: seq<Mshr>) {
    forall a :: 0 <= a < |m| ==> m[a].event <= NEVER
  }

  ghost predicate MshrInv(c: Config, m: seq<Mshr>, bound: nat)
    requires c.blockSize > 0
  {
    |m| <= c.mshrSize && Distinct(m, c.blockSize) && Ordered(m) && Bounded(m, bound) && NoneLater(m)
  }

  ghost predicate WritesInv(q: seq<Mshr>, bound: nat) {
    && (forall a :: 0 <= a < |q| ==> q[a].event <= bound)
    && (forall a, b :: 0 <= a < b < |q| ==> q[a].event <= q[b].event)
  }

  /** Ids and return queues are sorted without duplicates, and the queues exist. */
  ghost predicate TidyMshr(q: seq<Mshr>, ups: nat) {
    forall k :: 0 <= k < |q| ==>
        Sorted(q[k].deps) && Sorted(q[k].toReturn) && forall x :: x in q[k].toReturn ==> x < ups
  }

  /** Also: only this level's own prefetches skip the fill, and nobody waits for those. */
  ghost predicate TidyTags(q: seq<Tag>, ups: nat) {
    && (forall k :: 0 <= k < |q| ==>
          Sorted(q[k].deps) && Sorted(q[k].toReturn) && forall x :: x in q[k].toReturn ==> x < ups)
    && (forall k :: 0 <= k < |q| && q[k].local && q[k].skipFill ==> q[k].toReturn == [])
  }

  ghost predicate CacheInv(c: Config, s: State, bound: nat)
    requires c.blockSize > 0
  {
    && Shaped(c, s)
    && MshrInv(c, s.mshr, bound) && WritesInv(s.writes, bound)
    && TidyMshr(s.mshr, |s.ups|) && TidyMshr(s.writes, |s.ups|) && TidyTags(s.tags, |s.ups|)
  }
}
