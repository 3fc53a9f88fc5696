/** Misses in flight stay distinct, few and ordered; nobody who waits for one is forgotten. */
module CacheProof {
  import opened SetUnion
  import opened Cache
  import Q = ChannelQueues

  // ---- Order of the misses ----

  /** The answer finds its miss, there is an unreturned miss to swap it with, and the swap
      leaves the returned misses in front, in order. */
  ghost predicate FinishesInOrder(m: seq<Mshr>, r: Q.Response, due: nat, blockSize: nat)
    requires blockSize > 0
  {
    && FindBlock(m, r.address, blockSize, 0) < |m| && FirstUnreturned(m, 0) < |m|
    && Ordered(FinishPacket(m, r, due, blockSize))
  }

  /** Exactly the answers to a miss that had not returned before are finished in order. Of
      the others, one to no miss meets the assertion, a second one to a miss breaks the
      order, and it is swapped with the end of the list when nothing is unreturned. */
  lemma FinishPacketOrder(m: seq<Mshr>, r: Q.Response, due: nat, blockSize: nat)
    requires blockSize > 0 && due < NEVER && Ordered(m) && Bounded(m, due) && NoneLater(m)
    ensures FinishesInOrder(m, r, due, blockSize) <==>
              var i := FindBlock(m, r.address, blockSize, 0);
              i < |m| && m[i].event == NEVER
  {
    var i, p := FindBlock(m, r.address, blockSize, 0), FirstUnreturned(m, 0);
    if i < |m| && p < |m| {
      var m' := FinishPacket(m, r, due, blockSize);
      assert forall b :: p < b < |m| ==> m[b].event == NEVER;
      if m[i].event == NEVER {
        forall a, b | 0 <= a < b < |m'| && m'[b].event < NEVER ensures m'[a].event <= m'[b].event {
          assert b <= p && m'[a] == m[a];
        }
      } else {
        assert i < p && m'[i].event == NEVER && m'[p].event < NEVER;
      }
    }
  }

  lemma FinishPacketKeeps(c: Config, m: seq<Mshr>, rs: seq<Q.Response>, due: nat)
    requires c.blockSize > 0 && due < NEVER && MshrInv(c, m, due) && rs != [] && Answers(m, rs, c.blockSize)
    ensures FindBlock(m, rs[0].address, c.blockSize, 0) < |m| && FirstUnreturned(m, 0) < |m|
    ensures MshrInv(c, FinishPacket(m, rs[0], due, c.blockSize), due)
    ensures Answers(FinishPacket(m, rs[0], due, c.blockSize), rs[1..], c.blockSize)
  {
    AnsweredEntry(m, rs, c.blockSize);
    AnswerShrinks(m, rs, due, c.blockSize);
    FinishPacketOrder(m, rs[0], due, c.blockSize);
  }

  lemma {:induction false} FinishAllKeeps(c: Config, m: seq<Mshr>, rs: seq<Q.Response>, due: nat, r: seq<Mshr>)
    requires c.blockSize > 0 && due < NEVER && MshrInv(c, m, due) && Answers(m, rs, c.blockSize)
    requires r == FinishAll(m, rs, due, c.blockSize)
    ensures MshrInv(c, r, due)
    decreases |rs|
  {
    hide MshrInv, Answers;
    if rs == [] {
    } else {
      FinishPacketKeeps(c, m, rs, due);
      FinishAllKeeps(c, FinishPacket(m, rs[0], due, c.blockSize), rs[1..], due, r);
    }
  }

  /** A merge keeps the block and the fill time of the older miss, and its data. */
  lemma MergeKeepsReturned(p: Mshr, t: Tag, now: nat, blockSize: nat)
    requires blockSize > 0 && p.event <= NEVER && p.address / blockSize == t.address / blockSize
    ensures
      var r := Merge(p, Fresh(t, now));
      && r.event == p.event && r.data == p.data
      && r.address / blockSize == p.address / blockSize
      && (forall d :: d in r.deps <==> d in p.deps || d in t.deps)
      && (forall x :: x in r.toReturn <==> x in p.toReturn || x in t.toReturn)
  {
    forall d ensures d in Union(p.deps, t.deps) <==> d in p.deps || d in t.deps { UnionMembers(p.deps, t.deps, d); }
    forall x
      ensures x in Union(p.toReturn, t.toReturn) <==> x in p.toReturn || x in t.toReturn
    {
      UnionMembers(p.toReturn, t.toReturn, x);
    }
  }

  lemma HandleMissKeeps(c: Config, s: State, t: Tag, now: nat, bound: nat, r: (bool, State))
    requires c.blockSize > 0 && MshrInv(c, s.mshr, bound) && r == HandleMiss(c, s, t, now)
    ensures MshrInv(c, r.1.mshr, bound)
  {
    var i := FindBlock(s.mshr, t.address, c.blockSize, 0);
    if i < |s.mshr| {
      MergeKeepsReturned(s.mshr[i], t, now, c.blockSize);
    }
  }

  lemma HandleMissTidy(c: Config, s: State, t: Tag, now: nat, r: (bool, State))
    requires c.blockSize > 0 && TidyMshr(s.mshr, |s.ups|) && TidyTags([t], |s.ups|) && r == HandleMiss(c, s, t, now)
    ensures TidyMshr(r.1.mshr, |s.ups|) && r.1.ups == s.ups && r.1.writes == s.writes && r.1.tags == s.tags
    ensures r.1.blocks == s.blocks
  {
    assert [t][0] == t;
    var i := FindBlock(s.mshr, t.address, c.blockSize, 0);
    if i < |s.mshr| {
      var m := s.mshr[i];
      UnionSorted(m.deps, t.deps);
      UnionSorted(m.toReturn, t.toReturn);
      forall x | x in Union(m.toReturn, t.toReturn) ensures x < |s.ups| { UnionMembers(m.toReturn, t.toReturn, x); }
    }
  }

  // ---- Fills ----

  /** Each queue that waits gets exactly one response, the others none. */
  lemma {:induction false} PushAllOnce(
      ups: seq<seq<Q.Response>>, rets: seq<nat>, r: Q.Response, u: seq<seq<Q.Response>>)
    requires Sorted(rets) && (forall x :: x in rets ==> x < |ups|) && u == PushAll(ups, rets, r)
    ensures forall x :: 0 <= x < |ups| ==> u[x] == if x in rets then ups[x] + [r] else ups[x]
    decreases |rets|
  {
    if rets == [] {
    } else {
      var rest := rets[1..];
      assert rets[0] in rets && forall x :: x in rets <==> x == rets[0] || x in rest;
      assert rets[0] !in rest;
      PushAllOnce(ups[rets[0] := ups[rets[0]] + [r]], rest, r, u);
    }
  }

  /** A fill is refused exactly when it would evict a dirty block into a full write queue,
      and then it changes nothing. Otherwise it answers every waiting queue once. */
  lemma FillAnswers(c: Config, s: State, f: Mshr, choice: Choice, r: (bool, State))
    requires Positive(c) && Shaped(c, s) && TidyMshr([f], |s.ups|) && (forall x :: x in f.toReturn ==> x < |s.ups|)
    requires r == HandleFill(c, s, f, choice)
    ensures
      var set' := s.blocks[SetOf(c, f.address)];
      var way := WayFor(set', choice);
      !r.0 <==> way < c.ways && set'[way].valid && set'[way].dirty && |s.lower.wq| >= c.lower.wq
    ensures !r.0 ==> r.1 == s
    ensures |r.1.ups| == |s.ups|
    ensures r.0 ==> forall x :: 0 <= x < |s.ups| ==>
      r.1.ups[x] == if x in f.toReturn then s.ups[x] + [Q.Response(f.address, f.data, choice.metadata, f.deps)]
          else s.ups[x]
  {
    assert [f][0] == f;
    PushAllOnce(s.ups, f.toReturn, Q.Response(f.address, f.data, choice.metadata, f.deps),
                PushAll(s.ups, f.toReturn, Q.Response(f.address, f.data, choice.metadata, f.deps)));
  }

  lemma FillShape(c: Config, s: State, f: Mshr, choice: Choice, r: (bool, State))
    requires Positive(c) && Shaped(c, s) && (forall x :: x in f.toReturn ==> x < |s.ups|)
    requires r == HandleFill(c, s, f, choice)
    ensures Shaped(c, r.1) && |r.1.ups| == |s.ups| && (!r.0 ==> r.1 == s)
  {
  }

  /** A dirty block leaves only as a write-back that the lower level has accepted, and no
      other block changes. */
  lemma FillKeepsDirtyData(c: Config, s: State, f: Mshr, choice: Choice, r: (bool, State), set': nat, way: nat)
    requires Positive(c) && Shaped(c, s) && (forall x :: x in f.toReturn ==> x < |s.ups|)
    requires r == HandleFill(c, s, f, choice) && set' < c.sets && way < c.ways
    ensures Shaped(c, r.1)
    ensures r.1.blocks[set'][way] != s.blocks[set'][way] ==> set' == SetOf(c, f.address)
    ensures
      var b := s.blocks[set'][way];
      var writeBack := Q.Request(b.address, true, false, false, b.data, b.metadata, []);
      r.1.blocks[set'][way] != b && b.valid && b.dirty ==> r.1.lower.wq == s.lower.wq + [writeBack]
  {
  }

  /** A fill scan that stops early has no due entry left behind it, or met a refused write-back. */
  lemma {:induction false} NoDueFillHidden(
      c: Config, s: State, q: seq<Mshr>, k: nat, limit: nat, now: nat, pick: nat -> Choice, r: (nat, State))
    requires Positive(c) && Shaped(c, s) && Fillable(|s.ups|, q) && k <= |q| && k <= limit && now < NEVER
    requires Ordered(q) && r == FillFrom(c, s, q, k, limit, now, pick)
    ensures
      || r.0 == limit
      || (forall b :: r.0 <= b < |q| ==> q[b].event > now)
      || (r.0 < |q| && !HandleFill(c, r.1, q[r.0], pick(r.0)).0)
    decreases |q| - k
  {
    if k < limit && k < |q| && q[k].event <= now {
      var f := HandleFill(c, s, q[k], pick(k));
      if f.0 { NoDueFillHidden(c, f.1, q, k + 1, limit, now, pick, r); }
    }
  }

  // ---- One cycle keeps the invariant ----

  lemma {:induction false} FinishAllTidy(
      m: seq<Mshr>, rs: seq<Q.Response>, due: nat, blockSize: nat, ups: nat, r: seq<Mshr>)
    requires blockSize > 0 && due < NEVER && Answers(m, rs, blockSize) && Distinct(m, blockSize)
    requires TidyMshr(m, ups) && r == FinishAll(m, rs, due, blockSize)
    ensures TidyMshr(r, ups)
    decreases |rs|
  {
    hide Answers, Distinct;
    if rs == [] {
    } else {
      AnswerShrinks(m, rs, due, blockSize);
      FinishAllTidy(FinishPacket(m, rs[0], due, blockSize), rs[1..], due, blockSize, ups, r);
    }
  }

  /** The parts of the invariant that tag checks touch. */
  ghost predicate CheckInv(c: Config, s: State, bound: nat)
    requires c.blockSize > 0
  {
    && Shaped(c, s) && MshrInv(c, s.mshr, bound) && WritesInv(s.writes, bound)
    && TidyMshr(s.mshr, |s.ups|) && TidyMshr(s.writes, |s.ups|)
  }

  lemma TagCheckKeeps(c: Config, s: State, t: Tag, now: nat, latency: nat, metadata: nat, r: (bool, State))
    requires Positive(c) && CheckInv(c, s, now + latency) && TidyTags([t], |s.ups|)
    requires (forall x :: x in t.toReturn ==> x < |s.ups|)
    requires r == TagCheck(c, s, t, now, latency, metadata)
    ensures CheckInv(c, r.1, now + latency) && |r.1.ups| == |s.ups| && r.1.tags == s.tags
  {
    hide MshrInv, HandleMiss;
    assert [t][0] == t;
    var h := TryHit(c, s, t, metadata);
    if !h.0 && !(t.kind.Write? && !c.matchOffset) {
      HandleMissKeeps(c, s, t, now, now + latency, r);
      HandleMissTidy(c, s, t, now, r);
    }
  }

  /** A tag check that must be retried changes nothing. */
  lemma TagCheckShape(c: Config, s: State, t: Tag, now: nat, latency: nat, metadata: nat, r: (bool, State))
    requires Positive(c) && Shaped(c, s) && (forall x :: x in t.toReturn ==> x < |s.ups|)
    requires r == TagCheck(c, s, t, now, latency, metadata)
    ensures Shaped(c, r.1) && |r.1.ups| == |s.ups| && (!r.0 ==> r.1 == s)
  {
  }

  lemma {:induction false} CheckFromKeeps(
      c: Config, s: State, q: seq<Tag>, k: nat, limit: nat, now: nat, latency: nat, pick: nat -> Choice,
      r: (nat, State))
    requires Positive(c) && Shaped(c, s) && Checkable(|s.ups|, q) && k <= |q| && CheckInv(c, s, now + latency)
    requires TidyTags(q, |s.ups|)
    requires r == CheckFrom(c, s, q, k, limit, now, latency, pick)
    ensures CheckInv(c, r.1, now + latency) && |r.1.ups| == |s.ups|
    decreases |q| - k
  {
    hide CheckInv, TagCheck, Shaped;
    if k < limit && k < |q| && q[k].event <= now {
      var t := TagCheck(c, s, q[k], now, latency, pick(k).metadata);
      TagCheckKeeps(c, s, q[k], now, latency, pick(k).metadata, t);
      if t.0 {
        assert Shaped(c, t.1) by { CheckIsShaped(c, t.1, now + latency); }
        CheckFromKeeps(c, t.1, q, k + 1, limit, now, latency, pick, r);
      }
    }
  }

  lemma CheckIsShaped(c: Config, s: State, bound: nat)
    requires c.blockSize > 0 && CheckInv(c, s, bound)
    ensures Shaped(c, s)
  {
  }

  lemma ReceiveKeeps(c: Config, s: State, e: Input, bound: nat, r: State)
    requires Positive(c) && CacheInv(c, s, bound) && Answers(s.mshr, e.lower.returned, c.blockSize)
    requires bound <= e.now + FillLatency(c, e.warmup) < NEVER && r == Receive(c, s, e)
    ensures CacheInv(c, r, e.now + FillLatency(c, e.warmup))
  {
    var due := e.now + FillLatency(c, e.warmup);
    FinishAllKeeps(c, s.mshr, e.lower.returned, due, r.mshr);
    FinishAllTidy(s.mshr, e.lower.returned, due, c.blockSize, |s.ups|, r.mshr);
  }

  lemma FillMshrKeeps(c: Config, s: State, e: Input, bound: nat, r: State)
    requires Positive(c) && CacheInv(c, s, bound) && r == FillMshr(c, s, e)
    ensures CacheInv(c, r, bound)
  {
    var f := FillFrom(c, s, s.mshr, 0, c.maxFill, e.now, e.fills);
  }

  lemma FillWritesKeeps(c: Config, s: State, e: Input, limit: nat, bound: nat, r: State)
    requires Positive(c) && CacheInv(c, s, bound) && r == FillWrites(c, s, e, limit)
    ensures CacheInv(c, r, bound)
  {
    var f := FillFrom(c, s, s.writes, 0, limit, e.now, e.writeFills);
  }

  lemma CheckTagsKeeps(c: Config, s: State, e: Input, r: State)
    requires Positive(c) && CacheInv(c, s, e.now + FillLatency(c, e.warmup))
    requires TidyTags(e.arrivals, |s.ups|) && r == CheckTags(c, s, e)
    ensures CacheInv(c, r, e.now + FillLatency(c, e.warmup))
  {
    hide MshrInv, WritesInv, TidyMshr;
    var latency := FillLatency(c, e.warmup);
    var s1 := s.(tags := s.tags + Stamp(e.arrivals, e.now + HitLatency(c, e.warmup)));
    var t := CheckFrom(c, s1, s1.tags, 0, c.maxTag, e.now, latency, e.checks);
    CheckFromKeeps(c, s1, s1.tags, 0, c.maxTag, e.now, latency, e.checks, t);
  }
}
