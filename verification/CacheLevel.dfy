/** The cache object: each method does to its fields what the state function of Cache says. */
module CacheLevel {
  import opened Cache
  import opened CacheProof
  import opened CacheRuns
  import Q = ChannelQueues

  class Level {
    const c: Config
    var mshr: seq<Mshr>
    var writes: seq<Mshr>
    var tags: seq<Tag>
    var blocks: seq<seq<Block>>
    var lower: Q.State
    var ups: seq<seq<Q.Response>>

    ghost function Contents(): State
      reads this
    {
      State(mshr, writes, tags, blocks, lower, ups)
    }

    constructor (c: Config, uppers: nat)
      requires Positive(c)
      ensures this.c == c && CacheInv(c, Contents(), 0) && |ups| == uppers
      ensures mshr == [] && writes == [] && tags == [] && forall x :: 0 <= x < uppers ==> ups[x] == []
    {
      this.c := c;
      mshr, writes, tags := [], [], [];
      blocks := seq(c.sets, _ => seq(c.ways, _ => Block(false, false, false, 0, 0, 0)));
      lower := Q.State([], [], [], []);
      ups := seq(uppers, _ => []);
    }

    method Respond(rets: seq<nat>, r: Q.Response)
      requires forall x :: x in rets ==> x < |ups|
      modifies this`ups
      ensures ups == PushAll(old(ups), rets, r)
    {
      var k := 0;
      while k < |rets|
        invariant 0 <= k <= |rets| && |ups| == |old(ups)|
        invariant forall x :: x in rets[k..] ==> x < |ups|
        invariant PushAll(ups, rets[k..], r) == PushAll(old(ups), rets, r)
      {
        assert rets[k..][0] == rets[k] && rets[k..][1..] == rets[k + 1..] && rets[k] in rets;
        ups := ups[rets[k] := ups[rets[k]] + [r]];
        k := k + 1;
        assert forall x :: x in rets[k..] ==> x in rets;
      }
    }

    method HandleFill(f: Mshr, choice: Choice) returns (success: bool)
      requires Positive(c) && Shaped(c, Contents()) && forall x :: x in f.toReturn ==> x < |ups|
      modifies this`lower, this`blocks, this`ups
      ensures (success, Contents()) == Cache.HandleFill(c, old(Contents()), f, choice)
    {
      var set' := SetOf(c, f.address);
      var way := FirstInvalid(blocks[set'], 0);
      if way == c.ways { way := choice.way; }
      if way < c.ways {
        var b := blocks[set'][way];
        if b.valid && b.dirty {
          var packet := Q.Request(b.address, true, false, false, b.data, b.metadata, []);
          if |lower.wq| >= c.lower.wq { return false; }
          lower := lower.(wq := lower.wq + [packet]);
        }
        blocks := blocks[set' :=
            blocks[set'][way := Block(true, f.local, f.kind.Write?, f.address, f.data, choice.metadata)]];
      }
      Respond(f.toReturn, Q.Response(f.address, f.data, choice.metadata, f.deps));
      return true;
    }

    method TryHit(t: Tag, metadata: nat) returns (hit: bool)
      requires Positive(c) && Shaped(c, Contents()) && forall x :: x in t.toReturn ==> x < |ups|
      modifies this`blocks, this`ups
      ensures (hit, Contents()) == Cache.TryHit(c, old(Contents()), t, metadata)
    {
      var set' := SetOf(c, t.address);
      var way := FindHit(blocks[set'], t.address, c.blockSize, 0);
      hit := way != c.ways;
      if hit {
        var b := blocks[set'][way];
        Respond(t.toReturn, Q.Response(t.address, b.data, metadata, t.deps));
        b := b.(dirty := b.dirty || t.kind.Write?);
        if b.prefetch && !t.local { b := b.(prefetch := false); }
        blocks := blocks[set' := blocks[set'][way := b]];
      }
    }

    method HandleMiss(t: Tag, now: nat) returns (success: bool)
      requires c.blockSize > 0
      modifies this`mshr, this`lower
      ensures (success, Contents()) == Cache.HandleMiss(c, old(Contents()), t, now)
    {
      var toAllocate := Fresh(t, now);
      var entry := FindBlock(mshr, t.address, c.blockSize, 0);
      if entry != |mshr| {
        mshr := mshr[entry := Merge(mshr[entry], toAllocate)];
      } else {
        if |mshr| == c.mshrSize { return false; }
        var packet := Q.Request(t.address, true, !t.local || !t.skipFill, false, t.data, t.metadata, t.deps);
        if c.prefetchAsLoad || t.kind != Prefetch {
          if |lower.rq| >= c.lower.rq { return false; }
          lower := lower.(rq := lower.rq + [packet]);
        } else {
          if |lower.pq| >= c.lower.pq { return false; }
          lower := lower.(pq := lower.pq + [packet]);
        }
        if packet.respond { mshr := mshr + [toAllocate]; }
      }
      return true;
    }

    method HandleWrite(t: Tag, now: nat, latency: nat)
      modifies this`writes
      ensures Contents() == Cache.HandleWrite(old(Contents()), t, now, latency)
    {
      writes := writes + [Fresh(t, now)];
      writes := writes[|writes| - 1 := writes[|writes| - 1].(event := now + latency)];
    }

    method FinishPacket(r: Q.Response, due: nat)
      requires c.blockSize > 0 && FindBlock(mshr, r.address, c.blockSize, 0) < |mshr|
      requires FirstUnreturned(mshr, 0) < |mshr|
      modifies this`mshr
      ensures mshr == Cache.FinishPacket(old(mshr), r, due, c.blockSize)
    {
      var entry := FindBlock(mshr, r.address, c.blockSize, 0);
      var firstUnreturned := FirstUnreturned(mshr, 0);
      mshr := mshr[entry := mshr[entry].(data := r.data, metadata := r.metadata)];
      mshr := mshr[entry := mshr[entry].(event := due)];
      mshr := mshr[entry := mshr[firstUnreturned]][firstUnreturned := mshr[entry]];
    }

    /** The lower level's responses, then an empty response queue. */
    method FinishReturns(e: Input)
      requires Positive(c) && Distinct(mshr, c.blockSize) && Answers(mshr, e.lower.returned, c.blockSize)
      requires e.now + FillLatency(c, e.warmup) < NEVER
      modifies this`mshr, this`lower
      ensures Contents() == Receive(c, old(Contents()), e)
    {
      lower := e.lower;
      var due := e.now + if e.warmup then 0 else c.fillLatency;
      var k := 0;
      while k < |lower.returned|
        invariant 0 <= k <= |lower.returned| && lower == e.lower
        invariant Distinct(mshr, c.blockSize) && Answers(mshr, lower.returned[k..], c.blockSize)
        invariant FinishAll(mshr, lower.returned[k..], due, c.blockSize)
          == FinishAll(old(mshr), e.lower.returned, due, c.blockSize)
      {
        assert lower.returned[k..][0] == lower.returned[k] && lower.returned[k..][1..] == lower.returned[k + 1..];
        AnswerShrinks(mshr, lower.returned[k..], due, c.blockSize);
        FinishPacket(lower.returned[k], due);
        k := k + 1;
      }
      lower := lower.(returned := []);
    }

    /** The fill scan over one of the two lists; how many entries it filled. */
    method FillFrom(q: seq<Mshr>, limit: nat, now: nat, pick: nat -> Choice) returns (done: nat)
      requires Positive(c) && Shaped(c, Contents()) && Fillable(|ups|, q)
      modifies this`lower, this`blocks, this`ups
      ensures (done, Contents()) == Cache.FillFrom(c, old(Contents()), q, 0, limit, now, pick)
    {
      hide Cache.HandleFill;
      done := 0;
      while done < limit && done < |q| && q[done].event <= now
        invariant done <= |q| && Shaped(c, Contents()) && |ups| == |old(ups)|
        invariant Cache.FillFrom(c, Contents(), q, done, limit, now, pick) ==
                  Cache.FillFrom(c, old(Contents()), q, 0, limit, now, pick)
        decreases |q| - done
      {
        ghost var before := Contents();
        var success := HandleFill(q[done], pick(done));
        FillShape(c, before, q[done], pick(done), (success, Contents()));
        if !success { return; }
        done := done + 1;
      }
    }

    method PerformFills(e: Input)
      requires Positive(c) && CacheInv(c, Contents(), Due(c, e))
      modifies this`mshr, this`writes, this`lower, this`blocks, this`ups
      ensures Contents() == AfterFills(c, old(Contents()), e)
    {
      hide Cache.FillFrom;
      var bandwidth := c.maxFill;
      var done := FillFrom(mshr, bandwidth, e.now, e.fills);
      mshr := mshr[done..];
      FillMshrKeeps(c, old(Contents()), e, Due(c, e), Contents());
      bandwidth := bandwidth - done;
      done := FillFrom(writes, bandwidth, e.now, e.writeFills);
      writes := writes[done..];
    }

    method TagCheck(t: Tag, now: nat, latency: nat, metadata: nat) returns (done: bool)
      requires Positive(c) && Shaped(c, Contents()) && forall x :: x in t.toReturn ==> x < |ups|
      modifies this`mshr, this`writes, this`lower, this`blocks, this`ups
      ensures (done, Contents()) == Cache.TagCheck(c, old(Contents()), t, now, latency, metadata)
    {
      var hit := TryHit(t, metadata);
      if hit { return true; }
      if t.kind == Write && !c.matchOffset {
        HandleWrite(t, now, latency);
        return true;
      }
      done := HandleMiss(t, now);
    }

    /** The tag checks over `q`; how many are done with. */
    method CheckFrom(q: seq<Tag>, now: nat, latency: nat, pick: nat -> Choice) returns (done: nat)
      requires Positive(c) && Shaped(c, Contents()) && Checkable(|ups|, q)
      modifies this`mshr, this`writes, this`lower, this`blocks, this`ups
      ensures (done, Contents()) == Cache.CheckFrom(c, old(Contents()), q, 0, c.maxTag, now, latency, pick)
    {
      hide Cache.TagCheck;
      done := 0;
      while done < c.maxTag && done < |q| && q[done].event <= now
        invariant done <= |q| && Shaped(c, Contents()) && |ups| == |old(ups)|
        invariant Cache.CheckFrom(c, Contents(), q, done, c.maxTag, now, latency, pick)
          == Cache.CheckFrom(c, old(Contents()), q, 0, c.maxTag, now, latency, pick)
        decreases |q| - done
      {
        ghost var before := Contents();
        var finished := TagCheck(q[done], now, latency, pick(done).metadata);
        TagCheckShape(c, before, q[done], now, latency, pick(done).metadata, (finished, Contents()));
        if !finished { return; }
        done := done + 1;
      }
    }

    method PerformTagChecks(e: Input)
      requires Positive(c) && Shaped(c, Contents()) && Checkable(|ups|, tags) && Checkable(|ups|, e.arrivals)
      modifies this
      ensures Contents() == CheckTags(c, old(Contents()), e)
    {
      tags := tags + Stamp(e.arrivals, e.now + if e.warmup then 0 else c.hitLatency);
      var done := CheckFrom(tags, e.now, if e.warmup then 0 else c.fillLatency, e.checks);
      tags := tags[done..];
    }

    method Operate(e: Input, ghost bound: nat)
      requires Positive(c) && CacheInv(c, Contents(), bound) && Env(c, Contents(), e, bound)
      modifies this
      ensures Contents() == Cycle(c, old(Contents()), e, bound)
      ensures CacheInv(c, Contents(), Due(c, e))
    {
      hide Receive, AfterFills, CheckTags, Ordered, Bounded, WritesInv;
      FinishReturns(e);
      ReceiveKeeps(c, old(Contents()), e, bound, Contents());
      PerformFills(e);
      PerformTagChecks(e);
    }
  }
}
