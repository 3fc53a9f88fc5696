/** The queues between two cache levels: requests for one block are merged or answered
    from the write queue, and no instruction that waits for a response is lost. */
module ChannelQueues {
  import opened SetUnion

  datatype Request = Request(
    address: nat, translated: bool, respond: bool, checked: bool, data: nat, metadata: nat, deps: seq<nat>)

  datatype Response = Response(address: nat, data: nat, metadata: nat, deps: seq<nat>)

  type Queue = seq<Request>

  /** Addresses agree above `grain` bytes. */
  predicate Same(a: nat, b: nat, grain: nat)
    requires grain > 0
  {
    a / grain == b / grain
  }

  /** The first of the first `n` requests on the same `grain` as `address`; `n` if none. */
  function FindSame(q: Queue, n: nat, address: nat, grain: nat, k: nat): (r: nat)
    requires grain > 0 && k <= n <= |q|
    ensures k <= r <= n
    ensures r < n ==> Same(q[r].address, address, grain)
    ensures forall i :: k <= i < r ==> !Same(q[i].address, address, grain)
    decreases n - k
  {
    if k == n || Same(q[k].address, address, grain) then k else FindSame(q, n, address, grain, k + 1)
  }

  /** The request that `packet` collides with, if the first one on its grain has the same
      translation state. */
  function Collision(q: Queue, n: nat, packet: Request, grain: nat): (r: nat)
    requires grain > 0 && n <= |q|
    ensures r <= n
    ensures r < n ==> Same(q[r].address, packet.address, grain) && q[r].translated == packet.translated
  {
    var k := FindSame(q, n, packet.address, grain, 0);
    if k < n && q[k].translated == packet.translated then k else n
  }

  function Merged(source: Request, destination: Request): Request {
    destination.(respond := destination.respond || source.respond, deps := Union(destination.deps, source.deps))
  }

  function Remove(q: Queue, k: nat): (r: Queue)
    requires k < |q|
    ensures |r| == |q| - 1
  {
    q[..k] + q[k + 1..]
  }

  /** Merge every request from `k` on into an earlier one on the same grain, or mark it. */
  function MergeFrom(q: Queue, k: nat, grain: nat): (r: Queue)
    requires grain > 0 && k <= |q|
    ensures |r| <= |q|
    decreases |q| - k
  {
    if k == |q| then q
    else
      var m := Collision(q, k, q[k], grain);
      if m < k then MergeFrom(Remove(q[m := Merged(q[k], q[m])], k), k, grain)
      else MergeFrom(q[k := q[k].(checked := true)], k + 1, grain)
  }

  function Forwarded(source: Request, w: Request): seq<Response> {
    if source.respond then [Response(source.address, w.data, w.metadata, source.deps)] else []
  }

  /** As MergeFrom, but a request the write queue holds is answered from there first. */
  function ForwardFrom(
      q: Queue, wq: Queue, out: seq<Response>, k: nat, writeGrain: nat, readGrain: nat): (r: (Queue, seq<Response>))
    requires writeGrain > 0 && readGrain > 0 && k <= |q|
    ensures |r.0| <= |q|
    decreases |q| - k
  {
    if k == |q| then (q, out)
    else
      var w := Collision(wq, |wq|, q[k], writeGrain);
      if w < |wq| then ForwardFrom(Remove(q, k), wq, out + Forwarded(q[k], wq[w]), k, writeGrain, readGrain)
      else
        var m := Collision(q, k, q[k], readGrain);
        if m < k then ForwardFrom(Remove(q[m := Merged(q[k], q[m])], k), wq, out, k, writeGrain, readGrain)
        else ForwardFrom(q[k := q[k].(checked := true)], wq, out, k + 1, writeGrain, readGrain)
  }

  function FirstUnchecked(q: Queue, k: nat): (r: nat)
    requires k <= |q|
    ensures k <= r <= |q|
    decreases |q| - k
  {
    if k == |q| || !q[k].checked then k else FirstUnchecked(q, k + 1)
  }

  /** The three queues of a channel, and what was returned upwards. */
  datatype State = State(rq: Queue, wq: Queue, pq: Queue, returned: seq<Response>)

  /** `blockSize` bytes a block; writes are compared to the byte if `matchOffset`. */
  function CheckCollision(s: State, blockSize: nat, matchOffset: bool): State
    requires blockSize > 0
  {
    var writeGrain := if matchOffset then 1 else blockSize;
    var wq := MergeFrom(s.wq, FirstUnchecked(s.wq, 0), writeGrain);
    var r := ForwardFrom(s.rq, wq, s.returned, FirstUnchecked(s.rq, 0), writeGrain, blockSize);
    var p := ForwardFrom(s.pq, wq, r.1, FirstUnchecked(s.pq, 0), writeGrain, blockSize);
    State(r.0, wq, p.0, p.1)
  }

  // ---- Waiters ----

  /** Instructions `deps` wait for a response on `block`. */
  datatype Waiter = Waiter(block: nat, deps: set<nat>)

  ghost predicate WaitsIn(x: Request, w: Waiter, blockSize: nat)
    requires blockSize > 0
  {
    x.respond && x.address / blockSize == w.block && forall d :: d in w.deps ==> d in x.deps
  }

  ghost predicate Waiting(q: Queue, w: Waiter, blockSize: nat)
    requires blockSize > 0
  {
    exists k :: 0 <= k < |q| && WaitsIn(q[k], w, blockSize)
  }

  ghost predicate Answered(out: seq<Response>, start: nat, w: Waiter, blockSize: nat)
    requires blockSize > 0
  {
    exists n :: start <= n < |out| &&
      out[n].address / blockSize == w.block && forall d :: d in w.deps ==> d in out[n].deps
  }

  ghost predicate Serves(a: Queue, out: seq<Response>, b: Queue, out': seq<Response>, blockSize: nat)
    requires blockSize > 0
  {
    out <= out'
    && forall w :: Waiting(a, w, blockSize) ==> Waiting(b, w, blockSize) || Answered(out', |out|, w, blockSize)
  }

  lemma ServesTrans(
      a: Queue, o1: seq<Response>, b: Queue, o2: seq<Response>, c: Queue, o3: seq<Response>, blockSize: nat)
    requires blockSize > 0 && Serves(a, o1, b, o2, blockSize) && Serves(b, o2, c, o3, blockSize)
    ensures Serves(a, o1, c, o3, blockSize)
  {
    forall w | Waiting(a, w, blockSize) ensures Waiting(c, w, blockSize) || Answered(o3, |o1|, w, blockSize) {
      if Answered(o2, |o1|, w, blockSize) {
        var n :| |o1| <= n < |o2| && o2[n].address / blockSize == w.block
        && forall d :: d in w.deps ==> d in o2[n].deps;
        assert o3[n] == o2[n];
      }
    }
  }

  lemma MarkServes(q: Queue, k: nat, out: seq<Response>, blockSize: nat)
    requires blockSize > 0 && k < |q|
    ensures Serves(q, out, q[k := q[k].(checked := true)], out, blockSize)
  {
    forall w | Waiting(q, w, blockSize) ensures Waiting(q[k := q[k].(checked := true)], w, blockSize) {
      var n :| 0 <= n < |q| && WaitsIn(q[n], w, blockSize);
      assert WaitsIn(q[k := q[k].(checked := true)][n], w, blockSize);
    }
  }

  lemma RemovedAt(q: Queue, k: nat, n: nat)
    requires k < |q| && n < |q| && n != k
    ensures exists j :: 0 <= j < |Remove(q, k)| && Remove(q, k)[j] == q[n]
  {
    var j := if n < k then n else n - 1;
    assert Remove(q, k)[j] == q[n];
  }

  lemma SameBlock(a: nat, b: nat, grain: nat, blockSize: nat)
    requires blockSize > 0 && (grain == 1 || grain == blockSize) && Same(a, b, grain)
    ensures a / blockSize == b / blockSize
  {
  }

  /** Merging request `k` into request `m` of the same block loses no waiter. */
  lemma MergeServes(q: Queue, k: nat, m: nat, out: seq<Response>, grain: nat, blockSize: nat)
    requires blockSize > 0 && (grain == 1 || grain == blockSize)
    requires m < k < |q| && Same(q[m].address, q[k].address, grain)
    ensures Serves(q, out, Remove(q[m := Merged(q[k], q[m])], k), out, blockSize)
  {
    var q1 := q[m := Merged(q[k], q[m])];
    var d := Remove(q1, k);
    SameBlock(q[m].address, q[k].address, grain, blockSize);
    forall w | Waiting(q, w, blockSize) ensures Waiting(d, w, blockSize) {
      var n :| 0 <= n < |q| && WaitsIn(q[n], w, blockSize);
      if n == k || n == m {
        forall x | x in w.deps ensures x in q1[m].deps { UnionMembers(q[m].deps, q[k].deps, x); }
        assert WaitsIn(d[m], w, blockSize);
      } else {
        RemovedAt(q1, k, n);
      }
    }
  }

  lemma ForwardServes(q: Queue, k: nat, x: Request, out: seq<Response>, blockSize: nat)
    requires blockSize > 0 && k < |q|
    ensures Serves(q, out, Remove(q, k), out + Forwarded(q[k], x), blockSize)
  {
    var out' := out + Forwarded(q[k], x);
    forall w | Waiting(q, w, blockSize)
      ensures Waiting(Remove(q, k), w, blockSize) || Answered(out', |out|, w, blockSize)
    {
      var n :| 0 <= n < |q| && WaitsIn(q[n], w, blockSize);
      if n == k {
        assert out'[|out|] == Response(q[k].address, x.data, x.metadata, q[k].deps);
      } else {
        RemovedAt(q, k, n);
      }
    }
  }

  lemma {:induction false} MergeFromServes(q: Queue, k: nat, grain: nat, out: seq<Response>, blockSize: nat, r: Queue)
    requires blockSize > 0 && (grain == 1 || grain == blockSize) && k <= |q| && r == MergeFrom(q, k, grain)
    ensures Serves(q, out, r, out, blockSize)
    decreases |q| - k
  {
    if k == |q| {
    } else {
      var m := Collision(q, k, q[k], grain);
      if m < k {
        var next := Remove(q[m := Merged(q[k], q[m])], k);
        MergeServes(q, k, m, out, grain, blockSize);
        MergeFromServes(next, k, grain, out, blockSize, r);
        ServesTrans(q, out, next, out, r, out, blockSize);
      } else {
        var next := q[k := q[k].(checked := true)];
        MarkServes(q, k, out, blockSize);
        MergeFromServes(next, k + 1, grain, out, blockSize, r);
        ServesTrans(q, out, next, out, r, out, blockSize);
      }
    }
  }

  lemma {:induction false} ForwardFromServes(
      q: Queue, wq: Queue, out: seq<Response>, k: nat, writeGrain: nat, blockSize: nat, r: (Queue, seq<Response>))
    requires blockSize > 0 && writeGrain > 0 && k <= |q| && r == ForwardFrom(q, wq, out, k, writeGrain, blockSize)
    ensures Serves(q, out, r.0, r.1, blockSize)
    decreases |q| - k
  {
    if k == |q| {
    } else {
      var w := Collision(wq, |wq|, q[k], writeGrain);
      var m := Collision(q, k, q[k], blockSize);
      if w < |wq| {
        var next, more := Remove(q, k), out + Forwarded(q[k], wq[w]);
        ForwardServes(q, k, wq[w], out, blockSize);
        ForwardFromServes(next, wq, more, k, writeGrain, blockSize, r);
        ServesTrans(q, out, next, more, r.0, r.1, blockSize);
      } else if m < k {
        var next := Remove(q[m := Merged(q[k], q[m])], k);
        MergeServes(q, k, m, out, blockSize, blockSize);
        ForwardFromServes(next, wq, out, k, writeGrain, blockSize, r);
        ServesTrans(q, out, next, out, r.0, r.1, blockSize);
      } else {
        var next := q[k := q[k].(checked := true)];
        MarkServes(q, k, out, blockSize);
        ForwardFromServes(next, wq, out, k + 1, writeGrain, blockSize, r);
        ServesTrans(q, out, next, out, r.0, r.1, blockSize);
      }
    }
  }

  /** Collision handling loses no waiter of any of the three queues: each still waits in
      its queue or has been sent a response for its block. */
  lemma CheckCollisionServes(s: State, blockSize: nat, matchOffset: bool, t: State)
    requires blockSize > 0 && t == CheckCollision(s, blockSize, matchOffset)
    ensures s.returned <= t.returned
    ensures Serves(s.wq, s.returned, t.wq, s.returned, blockSize)
    ensures Serves(s.rq, s.returned, t.rq, t.returned, blockSize)
    ensures Serves(s.pq, s.returned, t.pq, t.returned, blockSize)
  {
    var writeGrain := if matchOffset then 1 else blockSize;
    MergeFromServes(s.wq, FirstUnchecked(s.wq, 0), writeGrain, s.returned, blockSize, t.wq);
    var r := ForwardFrom(s.rq, t.wq, s.returned, FirstUnchecked(s.rq, 0), writeGrain, blockSize);
    ForwardFromServes(s.rq, t.wq, s.returned, FirstUnchecked(s.rq, 0), writeGrain, blockSize, r);
    ForwardFromServes(s.pq, t.wq, r.1, FirstUnchecked(s.pq, 0), writeGrain, blockSize, (t.pq, t.returned));
    LaterAnswers(s.rq, s.returned, t.rq, r.1, t.returned, blockSize);
    EarlierStart(s.pq, s.returned, r.1, t.pq, t.returned, blockSize);
  }

  lemma LaterAnswers(a: Queue, o1: seq<Response>, b: Queue, o2: seq<Response>, o3: seq<Response>, blockSize: nat)
    requires blockSize > 0 && Serves(a, o1, b, o2, blockSize) && o2 <= o3
    ensures Serves(a, o1, b, o3, blockSize)
  {
    forall w | Answered(o2, |o1|, w, blockSize) ensures Answered(o3, |o1|, w, blockSize) {
      var n :| |o1| <= n < |o2| && o2[n].address / blockSize == w.block && forall d :: d in w.deps ==> d in o2[n].deps;
      assert o3[n] == o2[n];
    }
  }

  lemma EarlierStart(a: Queue, o1: seq<Response>, o2: seq<Response>, b: Queue, o3: seq<Response>, blockSize: nat)
    requires blockSize > 0 && o1 <= o2 && Serves(a, o2, b, o3, blockSize)
    ensures Serves(a, o1, b, o3, blockSize)
  {
    forall w | Answered(o3, |o2|, w, blockSize) ensures Answered(o3, |o1|, w, blockSize) {
    }
  }

  // ---- Sorted lists, one request per block ----

  ghost predicate AllSorted(q: Queue) {
    forall k :: 0 <= k < |q| ==> Sorted(q[k].deps)
  }

  lemma {:induction false} MergeFromSorted(q: Queue, k: nat, grain: nat, r: Queue)
    requires grain > 0 && k <= |q| && AllSorted(q) && r == MergeFrom(q, k, grain)
    ensures AllSorted(r)
    decreases |q| - k
  {
    if k == |q| {
    } else {
      var m := Collision(q, k, q[k], grain);
      if m < k {
        UnionSorted(q[m].deps, q[k].deps);
        MergeFromSorted(Remove(q[m := Merged(q[k], q[m])], k), k, grain, r);
      } else {
        MergeFromSorted(q[k := q[k].(checked := true)], k + 1, grain, r);
      }
    }
  }

  /** None of the first `n` requests collides with an earlier one: a later request on a
      block has the other translation state than the first one there. */
  ghost predicate Settled(q: Queue, n: nat, grain: nat)
    requires grain > 0 && n <= |q|
  {
    forall b :: 0 <= b < n ==> Collision(q, b, q[b], grain) == b
  }

  /** The two queues hold requests for the same places, up to `n`. */
  ghost predicate SamePlaces(q: Queue, p: Queue, n: nat) {
    n <= |q| && n <= |p|
    && forall i :: 0 <= i < n ==> q[i].address == p[i].address && q[i].translated == p[i].translated
  }

  lemma {:induction false} FindSameFrame(q: Queue, p: Queue, n: nat, address: nat, grain: nat, k: nat)
    requires grain > 0 && k <= n && SamePlaces(q, p, n)
    ensures FindSame(q, n, address, grain, k) == FindSame(p, n, address, grain, k)
    decreases n - k
  {
    if k == n {
    } else {
      FindSameFrame(q, p, n, address, grain, k + 1);
    }
  }

  lemma SettledFrame(q: Queue, p: Queue, n: nat, grain: nat)
    requires grain > 0 && SamePlaces(q, p, n) && Settled(q, n, grain)
    ensures Settled(p, n, grain)
  {
    forall b | 0 <= b < n ensures Collision(p, b, p[b], grain) == b {
      FindSameFrame(q, p, b, q[b].address, grain, 0);
      assert Collision(q, b, q[b], grain) == b;
    }
  }

  /** One more request is settled once it has been marked. */
  lemma MarkSettles(q: Queue, k: nat, grain: nat)
    requires grain > 0 && k < |q| && Settled(q, k, grain) && Collision(q, k, q[k], grain) == k
    ensures Settled(q[k := q[k].(checked := true)], k + 1, grain)
  {
    var p := q[k := q[k].(checked := true)];
    assert Settled(q, k + 1, grain);
    SettledFrame(q, p, k + 1, grain);
  }

  lemma {:induction false} MergeFromSettles(q: Queue, k: nat, grain: nat, r: Queue)
    requires grain > 0 && k <= |q| && Settled(q, k, grain) && r == MergeFrom(q, k, grain)
    ensures Settled(r, |r|, grain)
    decreases |q| - k
  {
    hide Settled;
    if k == |q| {
    } else {
      var m := Collision(q, k, q[k], grain);
      if m < k {
        var next := Remove(q[m := Merged(q[k], q[m])], k);
        SettledFrame(q, next, k, grain);
        MergeFromSettles(next, k, grain, r);
      } else {
        MarkSettles(q, k, grain);
        MergeFromSettles(q[k := q[k].(checked := true)], k + 1, grain, r);
      }
    }
  }

  // ---- Forwarding is filtering, then merging ----

  /** The requests that `wq` does not answer. */
  function Keep(q: Queue, wq: Queue, grain: nat): (r: Queue)
    requires grain > 0
    ensures |r| <= |q|
  {
    if q == [] then []
    else (if Collision(wq, |wq|, q[0], grain) < |wq| then [] else [q[0]]) + Keep(q[1..], wq, grain)
  }

  /** The first `k` requests, which were looked at before, and the rest without the answered ones. */
  function Unanswered(q: Queue, wq: Queue, k: nat, grain: nat): (r: Queue)
    requires grain > 0 && k <= |q|
    ensures k <= |r| <= |q| && r[..k] == q[..k]
  {
    q[..k] + Keep(q[k..], wq, grain)
  }

  lemma SplitUpdates(a: Queue, x: Request, b: Queue, m: nat, y: Request)
    ensures m < |a| ==> Remove((a + [x] + b)[m := y], |a|) == a[m := y] + b
    ensures Remove(a + [x] + b, |a|) == a + b
    ensures (a + [x] + b)[|a| := y] == a + [y] + b
  {
  }

  /** Which of the requests `a` a request `x` behind them collides with. */
  function Meets(a: Queue, x: Request, grain: nat): (m: nat)
    requires grain > 0
    ensures m <= |a|
  {
    Collision(a + [x], |a|, x, grain)
  }

  lemma SplitCollision(a: Queue, x: Request, b: Queue, grain: nat)
    requires grain > 0
    ensures Collision(a + [x] + b, |a|, x, grain) == Meets(a, x, grain)
    ensures (a + [x] + b)[|a|] == x
  {
    FindSameFrame(a + [x] + b, a + [x], |a|, x.address, grain, 0);
  }

  /** One step of merging, on the requests before and after the one looked at. */
  lemma MergeStep(a: Queue, x: Request, b: Queue, grain: nat)
    requires grain > 0
    ensures
      var m := Meets(a, x, grain);
      && (m < |a| ==> MergeFrom(a + [x] + b, |a|, grain) == MergeFrom(a[m := Merged(x, a[m])] + b, |a|, grain))
      && (m == |a| ==>
        MergeFrom(a + [x] + b, |a|, grain) == MergeFrom(a + [x.(checked := true)] + b, |a| + 1, grain))
  {
    hide Collision, Remove, Merged, Meets;
    var m, q := Meets(a, x, grain), a + [x] + b;
    SplitCollision(a, x, b, grain);
    if m < |a| {
      assert q[m] == a[m];
      SplitUpdates(a, x, b, m, Merged(x, a[m]));
    } else {
      SplitUpdates(a, x, b, 0, x.(checked := true));
    }
  }

  /** The same step of a forwarding scan, for a request that the write queue does not answer. */
  lemma ForwardStep(a: Queue, x: Request, b: Queue, wq: Queue, out: seq<Response>, writeGrain: nat, grain: nat)
    requires writeGrain > 0 && grain > 0 && Collision(wq, |wq|, x, writeGrain) == |wq|
    ensures
      var m, q := Meets(a, x, grain), a + [x] + b;
      && (m < |a| ==>
        ForwardFrom(q, wq, out, |a|, writeGrain, grain)
          == ForwardFrom(a[m := Merged(x, a[m])] + b, wq, out, |a|, writeGrain, grain))
      && (m == |a| ==>
        ForwardFrom(q, wq, out, |a|, writeGrain, grain)
          == ForwardFrom(a + [x.(checked := true)] + b, wq, out, |a| + 1, writeGrain, grain))
  {
    hide Collision, Remove, Merged, Meets;
    var m, q := Meets(a, x, grain), a + [x] + b;
    SplitCollision(a, x, b, grain);
    if m < |a| {
      assert q[m] == a[m];
      SplitUpdates(a, x, b, m, Merged(x, a[m]));
    } else {
      SplitUpdates(a, x, b, 0, x.(checked := true));
    }
  }

  /** The one scan over a read queue does what filtering and then merging would do. */
  lemma {:induction false} ForwardSplit(a: Queue, b: Queue, wq: Queue, out: seq<Response>, writeGrain: nat, grain: nat)
    requires writeGrain > 0 && grain > 0
    ensures ForwardFrom(a + b, wq, out, |a|, writeGrain, grain).0 == MergeFrom(a + Keep(b, wq, writeGrain), |a|, grain)
    decreases |b|, 0
  {
    hide Collision, Remove, Merged, Meets;
    if b == [] {
      assert a + b == a;
    } else {
      var x, rest := b[0], b[1..];
      assert a + b == a + [x] + rest;
      var w := Collision(wq, |wq|, x, writeGrain);
      if w < |wq| {
        assert Keep(b, wq, writeGrain) == Keep(rest, wq, writeGrain) && (a + b)[|a|] == x;
        SplitUpdates(a, x, rest, 0, x);
        ForwardSplit(a, rest, wq, out + Forwarded(x, wq[w]), writeGrain, grain);
      } else {
        UnansweredStep(a, x, rest, wq, out, writeGrain, grain);
      }
    }
  }

  lemma {:induction false} UnansweredStep(
      a: Queue, x: Request, rest: Queue, wq: Queue, out: seq<Response>, writeGrain: nat, grain: nat)
    requires writeGrain > 0 && grain > 0 && Collision(wq, |wq|, x, writeGrain) == |wq|
    ensures ForwardFrom(a + [x] + rest, wq, out, |a|, writeGrain, grain).0
      == MergeFrom(a + Keep([x] + rest, wq, writeGrain), |a|, grain)
    decreases |rest|, 1
  {
    hide Collision, Remove, Merged, ForwardFrom, MergeFrom;
    var kept, m := Keep(rest, wq, writeGrain), Meets(a, x, grain);
    assert ([x] + rest)[1..] == rest && a + Keep([x] + rest, wq, writeGrain) == a + [x] + kept;
    MergeStep(a, x, kept, grain);
    ForwardStep(a, x, rest, wq, out, writeGrain, grain);
    var a' := if m < |a| then a[m := Merged(x, a[m])] else a + [x.(checked := true)];
    ForwardSplit(a', rest, wq, out, writeGrain, grain);
  }

  lemma ForwardFromIsMerge(q: Queue, wq: Queue, out: seq<Response>, k: nat, writeGrain: nat, grain: nat)
    requires writeGrain > 0 && grain > 0 && k <= |q|
    ensures ForwardFrom(q, wq, out, k, writeGrain, grain).0 == MergeFrom(Unanswered(q, wq, k, writeGrain), k, grain)
  {
    assert q == q[..k] + q[k..];
    ForwardSplit(q[..k], q[k..], wq, out, writeGrain, grain);
  }

  lemma {:induction false} KeepMembers(q: Queue, wq: Queue, grain: nat)
    requires grain > 0
    ensures forall x :: x in Keep(q, wq, grain) ==> x in q
  {
    if q == [] {
    } else {
      KeepMembers(q[1..], wq, grain);
      assert forall x :: x in q[1..] ==> x in q;
    }
  }

  lemma UnansweredSorted(q: Queue, wq: Queue, k: nat, grain: nat)
    requires grain > 0 && k <= |q| && AllSorted(q)
    ensures AllSorted(Unanswered(q, wq, k, grain))
  {
    var u := Unanswered(q, wq, k, grain);
    KeepMembers(q[k..], wq, grain);
    forall i | 0 <= i < |u| ensures Sorted(u[i].deps) {
      assert i < k || u[i] in Keep(q[k..], wq, grain);
      assert u[i] in q;
    }
  }

  lemma ForwardFromSorted(q: Queue, wq: Queue, out: seq<Response>, k: nat, writeGrain: nat, readGrain: nat)
    requires writeGrain > 0 && readGrain > 0 && k <= |q| && AllSorted(q)
    ensures AllSorted(ForwardFrom(q, wq, out, k, writeGrain, readGrain).0)
  {
    var u := Unanswered(q, wq, k, writeGrain);
    ForwardFromIsMerge(q, wq, out, k, writeGrain, readGrain);
    UnansweredSorted(q, wq, k, writeGrain);
    MergeFromSorted(u, k, readGrain, MergeFrom(u, k, readGrain));
  }

  lemma ForwardFromSettles(q: Queue, wq: Queue, out: seq<Response>, k: nat, writeGrain: nat, grain: nat, r: Queue)
    requires writeGrain > 0 && grain > 0 && k <= |q| && Settled(q, k, grain)
    requires r == ForwardFrom(q, wq, out, k, writeGrain, grain).0
    ensures Settled(r, |r|, grain)
  {
    var u := Unanswered(q, wq, k, writeGrain);
    ForwardFromIsMerge(q, wq, out, k, writeGrain, grain);
    assert forall i :: 0 <= i < k ==> u[..k][i] == u[i] && q[..k][i] == q[i];
    SettledFrame(q, u, k, grain);
    MergeFromSettles(u, k, grain, r);
  }

  // ---- One request per place, exactly when ----

  ghost predicate Distinct(q: Queue, grain: nat)
    requires grain > 0
  {
    forall a, b :: 0 <= a < b < |q| ==> !Same(q[a].address, q[b].address, grain)
  }

  /** Requests for one place agree on whether they are translated. */
  ghost predicate Agreeing(q: Queue, grain: nat)
    requires grain > 0
  {
    forall a, b :: 0 <= a < b < |q| && Same(q[a].address, q[b].address, grain) ==> q[a].translated == q[b].translated
  }

  lemma {:induction false} MergeFromKeepsPlaces(q: Queue, k: nat, grain: nat)
    requires grain > 0 && k <= |q|
    ensures SamePlaces(q, MergeFrom(q, k, grain), k)
    decreases |q| - k
  {
    if k == |q| {
    } else {
      var m := Collision(q, k, q[k], grain);
      if m < k {
        MergeFromKeepsPlaces(Remove(q[m := Merged(q[k], q[m])], k), k, grain);
      } else {
        MergeFromKeepsPlaces(q[k := q[k].(checked := true)], k + 1, grain);
      }
    }
  }

  /** Merging a request into one that it agrees with decides nothing about the others. */
  lemma MergeAgrees(q: Queue, k: nat, m: nat, grain: nat)
    requires grain > 0 && m < k < |q|
    requires Same(q[m].address, q[k].address, grain) && q[m].translated == q[k].translated
    ensures Agreeing(Remove(q[m := Merged(q[k], q[m])], k), grain) <==> Agreeing(q, grain)
  {
    var next := Remove(q[m := Merged(q[k], q[m])], k);
    assert forall i :: 0 <= i < k ==> next[i].address == q[i].address && next[i].translated == q[i].translated;
    assert forall i :: k <= i < |next| ==> next[i] == q[i + 1];
    if Agreeing(next, grain) {
      forall a, b | 0 <= a < b < |q| && Same(q[a].address, q[b].address, grain)
        ensures q[a].translated == q[b].translated
      {
        var a' := if a == k then m else if a < k then a else a - 1;
        var b' := if b == k then m else if b < k then b else b - 1;
        assert Same(next[a'].address, next[b'].address, grain);
        assert a' < b' || b' < a' || a' == b';
      }
    }
    if Agreeing(q, grain) {
      forall a, b | 0 <= a < b < |next| && Same(next[a].address, next[b].address, grain)
        ensures next[a].translated == next[b].translated
      {
        var a', b' := if a < k then a else a + 1, if b < k then b else b + 1;
        assert Same(q[a'].address, q[b'].address, grain);
      }
    }
  }

  lemma AgreeingFrame(q: Queue, p: Queue, grain: nat)
    requires grain > 0 && |p| == |q| && SamePlaces(q, p, |q|)
    ensures Agreeing(q, grain) <==> Agreeing(p, grain)
  {
    assert forall i :: 0 <= i < |q| ==> q[i].address == p[i].address && q[i].translated == p[i].translated;
    if Agreeing(q, grain) {
      forall a, b | 0 <= a < b < |p| && Same(p[a].address, p[b].address, grain)
        ensures p[a].translated == p[b].translated
      {
        assert Same(q[a].address, q[b].address, grain);
      }
    }
    if Agreeing(p, grain) {
      forall a, b | 0 <= a < b < |q| && Same(q[a].address, q[b].address, grain)
        ensures q[a].translated == q[b].translated
      {
        assert Same(p[a].address, p[b].address, grain);
      }
    }
  }

  lemma MergedPrefix(q: Queue, k: nat, m: nat, grain: nat)
    requires grain > 0 && m < k < |q| && Distinct(q[..k], grain)
    ensures Distinct(Remove(q[m := Merged(q[k], q[m])], k)[..k], grain)
  {
    var next := Remove(q[m := Merged(q[k], q[m])], k);
    assert forall i :: 0 <= i < k ==> next[..k][i].address == q[..k][i].address;
  }

  lemma MarkedPrefix(q: Queue, k: nat, grain: nat)
    requires grain > 0 && k < |q| && Distinct(q[..k], grain) && FindSame(q, k, q[k].address, grain, 0) == k
    ensures Distinct(q[k := q[k].(checked := true)][..k + 1], grain)
  {
    var next := q[k := q[k].(checked := true)];
    forall a, b | 0 <= a < b <= k
      ensures !Same(next[a].address, next[b].address, grain)
    {
      assert next[a].address == q[a].address && q[..k][a] == q[a];
      if b < k { assert q[..k][b] == q[b]; }
    }
  }

  /** A request that its block's first one hides stays beside it. */
  lemma HiddenStays(q: Queue, k: nat, f: nat, grain: nat)
    requires grain > 0 && f < k < |q| && Same(q[f].address, q[k].address, grain) && q[f].translated != q[k].translated
    ensures !Agreeing(q, grain)
    ensures !Distinct(MergeFrom(q[k := q[k].(checked := true)], k + 1, grain), grain)
  {
    var next := q[k := q[k].(checked := true)];
    MergeFromKeepsPlaces(next, k + 1, grain);
    var r := MergeFrom(next, k + 1, grain);
    assert Same(r[f].address, r[k].address, grain);
  }

  /** The exact condition: after merging, the queue has one request per place if and only
      if the requests for each place agreed on their translation state. */
  lemma {:induction false} MergeFromDistinctIff(q: Queue, k: nat, grain: nat)
    requires grain > 0 && k <= |q| && Distinct(q[..k], grain)
    ensures Distinct(MergeFrom(q, k, grain), grain) <==> Agreeing(q, grain)
    decreases |q| - k
  {
    hide Distinct, Agreeing, Merged, Remove;
    if k == |q| {
      assert q[..k] == q;
      DistinctAgrees(q, grain);
    } else {
      var m, f := Collision(q, k, q[k], grain), FindSame(q, k, q[k].address, grain, 0);
      if m < k {
        MergedPrefix(q, k, m, grain);
        MergeAgrees(q, k, m, grain);
        MergeFromDistinctIff(Remove(q[m := Merged(q[k], q[m])], k), k, grain);
      } else if f < k {
        HiddenStays(q, k, f, grain);
      } else {
        var next := q[k := q[k].(checked := true)];
        AgreeingFrame(q, next, grain);
        MarkedPrefix(q, k, grain);
        MergeFromDistinctIff(next, k + 1, grain);
      }
    }
  }

  lemma DistinctAgrees(q: Queue, grain: nat)
    requires grain > 0 && Distinct(q, grain)
    ensures Agreeing(q, grain)
  {
  }

  /** For a read or prefetch queue: if and only if those agreed that the write queue does not answer. */
  lemma ForwardFromDistinctIff(q: Queue, wq: Queue, out: seq<Response>, k: nat, writeGrain: nat, grain: nat)
    requires writeGrain > 0 && grain > 0 && k <= |q| && Distinct(q[..k], grain)
    ensures Distinct(ForwardFrom(q, wq, out, k, writeGrain, grain).0, grain)
      <==> Agreeing(Unanswered(q, wq, k, writeGrain), grain)
  {
    ForwardFromIsMerge(q, wq, out, k, writeGrain, grain);
    MergeFromDistinctIff(Unanswered(q, wq, k, writeGrain), k, grain);
  }

  // ---- Runs ----

  datatype Sizes = Sizes(rq: nat, wq: nat, pq: nat, blockSize: nat, matchOffset: bool)

  function WriteGrain(c: Sizes): nat {
    if c.matchOffset then 1 else c.blockSize
  }

  datatype Target = ReadQueue | WriteQueue | PrefetchQueue

  datatype Event =
    | Add(target: Target, packet: Request)
    | Check
    | Take(target: Target, count: nat)

  /** A full queue refuses the packet; an accepted one enters unchecked at the end. */
  function Enqueue(q: Queue, size: nat, packet: Request): Queue {
    if |q| >= size then q else q + [packet.(checked := false)]
  }

  /** The cache below takes requests from the front. */
  function Dequeue(q: Queue, count: nat): Queue {
    if count <= |q| then q[count..] else []
  }

  function Next(c: Sizes, s: State, e: Event): State
    requires c.blockSize > 0
  {
    match e
    case Add(ReadQueue, p) => s.(rq := Enqueue(s.rq, c.rq, p))
    case Add(WriteQueue, p) => s.(wq := Enqueue(s.wq, c.wq, p))
    case Add(PrefetchQueue, p) => s.(pq := Enqueue(s.pq, c.pq, p))
    case Check => CheckCollision(s, c.blockSize, c.matchOffset)
    case Take(ReadQueue, n) => s.(rq := Dequeue(s.rq, n))
    case Take(WriteQueue, n) => s.(wq := Dequeue(s.wq, n))
    case Take(PrefetchQueue, n) => s.(pq := Dequeue(s.pq, n))
  }

  function Run(c: Sizes, s: State, es: seq<Event>): State
    requires c.blockSize > 0
  {
    if es == [] then s else Next(c, Run(c, s, es[..|es| - 1]), es[|es| - 1])
  }

  /** Within its size, every id list sorted, and checked requests on different places. */
  ghost predicate Good(q: Queue, size: nat, grain: nat)
    requires grain > 0
  {
    && |q| <= size
    && AllSorted(q)
    && (forall a, b :: 0 <= a < b < |q| && q[a].checked && q[b].checked ==> !Same(q[a].address, q[b].address, grain))
  }

  lemma {:induction false} UncheckedPrefix(q: Queue, k: nat)
    requires k <= |q|
    ensures forall i :: k <= i < FirstUnchecked(q, k) ==> q[i].checked
    decreases |q| - k
  {
    if k < |q| && q[k].checked { UncheckedPrefix(q, k + 1); }
  }

  lemma CheckedPrefixDistinct(q: Queue, size: nat, grain: nat)
    requires grain > 0 && Good(q, size, grain)
    ensures Distinct(q[..FirstUnchecked(q, 0)], grain)
  {
    UncheckedPrefix(q, 0);
  }

  lemma MergedQueue(q: Queue, size: nat, grain: nat, r: Queue)
    requires grain > 0 && Good(q, size, grain) && r == MergeFrom(q, FirstUnchecked(q, 0), grain)
    ensures Distinct(r, grain) <==> Agreeing(q, grain)
    ensures Distinct(r, grain) ==> Good(r, size, grain)
  {
    CheckedPrefixDistinct(q, size, grain);
    MergeFromDistinctIff(q, FirstUnchecked(q, 0), grain);
    MergeFromSorted(q, FirstUnchecked(q, 0), grain, r);
  }

  lemma ForwardedQueue(q: Queue, wq: Queue, out: seq<Response>, size: nat, writeGrain: nat, grain: nat, r: Queue)
    requires writeGrain > 0 && grain > 0 && Good(q, size, grain)
    requires r == ForwardFrom(q, wq, out, FirstUnchecked(q, 0), writeGrain, grain).0
    ensures Distinct(r, grain) <==> Agreeing(Unanswered(q, wq, FirstUnchecked(q, 0), writeGrain), grain)
    ensures Distinct(r, grain) ==> Good(r, size, grain)
  {
    var k := FirstUnchecked(q, 0);
    CheckedPrefixDistinct(q, size, grain);
    ForwardFromDistinctIff(q, wq, out, k, writeGrain, grain);
    ForwardFromSorted(q, wq, out, k, writeGrain, grain);
  }

  ghost predicate ChannelInv(c: Sizes, s: State)
    requires c.blockSize > 0
  {
    Good(s.rq, c.rq, c.blockSize) && Good(s.wq, c.wq, WriteGrain(c)) && Good(s.pq, c.pq, c.blockSize)
  }

  /** One request per place in each of the three queues. */
  ghost predicate OnePerPlace(c: Sizes, s: State)
    requires c.blockSize > 0
  {
    Distinct(s.rq, c.blockSize) && Distinct(s.wq, WriteGrain(c)) && Distinct(s.pq, c.blockSize)
  }

  /** In each queue, the requests that collision handling will not answer agree place by
      place on their translation state. */
  ghost predicate AgreesByPlace(c: Sizes, s: State)
    requires c.blockSize > 0
  {
    var g := WriteGrain(c);
    var wq := MergeFrom(s.wq, FirstUnchecked(s.wq, 0), g);
    && Agreeing(s.wq, g)
    && Agreeing(Unanswered(s.rq, wq, FirstUnchecked(s.rq, 0), g), c.blockSize)
    && Agreeing(Unanswered(s.pq, wq, FirstUnchecked(s.pq, 0), g), c.blockSize)
  }

  /** Collision handling leaves one request per place if and only if they agreed before. */
  lemma CheckCollisionExact(c: Sizes, s: State, t: State)
    requires c.blockSize > 0 && ChannelInv(c, s) && t == CheckCollision(s, c.blockSize, c.matchOffset)
    ensures OnePerPlace(c, t) <==> AgreesByPlace(c, s)
    ensures OnePerPlace(c, t) ==> ChannelInv(c, t)
  {
    hide Good, Distinct, Agreeing;
    var g := WriteGrain(c);
    MergedQueue(s.wq, c.wq, g, t.wq);
    ForwardedQueue(s.rq, t.wq, s.returned, c.rq, g, c.blockSize, t.rq);
    var r := ForwardFrom(s.rq, t.wq, s.returned, FirstUnchecked(s.rq, 0), g, c.blockSize);
    ForwardedQueue(s.pq, t.wq, r.1, c.pq, g, c.blockSize, t.pq);
  }

  /** Requesters list waiters in id order. */
  ghost predicate WellFormed(e: Event) {
    e.Add? ==> Sorted(e.packet.deps)
  }

  lemma EnqueueKeeps(q: Queue, size: nat, grain: nat, packet: Request)
    requires grain > 0 && Good(q, size, grain) && Sorted(packet.deps)
    ensures Good(Enqueue(q, size, packet), size, grain)
  {
  }

  lemma DequeueKeeps(q: Queue, size: nat, grain: nat, count: nat)
    requires grain > 0 && Good(q, size, grain)
    ensures Good(Dequeue(q, count), size, grain)
  {
  }

  lemma NextKeeps(c: Sizes, s: State, e: Event)
    requires c.blockSize > 0 && ChannelInv(c, s) && WellFormed(e)
    ensures e.Check? ==> (OnePerPlace(c, Next(c, s, e)) <==> AgreesByPlace(c, s))
    ensures (e.Check? ==> AgreesByPlace(c, s)) ==> ChannelInv(c, Next(c, s, e))
  {
    hide Good, CheckCollision, Enqueue, Dequeue, OnePerPlace, AgreesByPlace;
    match e
    case Add(ReadQueue, p) => EnqueueKeeps(s.rq, c.rq, c.blockSize, p);
    case Add(WriteQueue, p) => EnqueueKeeps(s.wq, c.wq, WriteGrain(c), p);
    case Add(PrefetchQueue, p) => EnqueueKeeps(s.pq, c.pq, c.blockSize, p);
    case Check => CheckCollisionExact(c, s, Next(c, s, e));
    case Take(ReadQueue, n) => DequeueKeeps(s.rq, c.rq, c.blockSize, n);
    case Take(WriteQueue, n) => DequeueKeeps(s.wq, c.wq, WriteGrain(c), n);
    case Take(PrefetchQueue, n) => DequeueKeeps(s.pq, c.pq, c.blockSize, n);
  }

  const EMPTY := State([], [], [], [])

  function QueueOf(s: State, t: Target): Queue {
    match t
    case ReadQueue => s.rq
    case WriteQueue => s.wq
    case PrefetchQueue => s.pq
  }

  /** Each place of a queue has one translation state, given by `states`. */
  ghost predicate Conforms(q: Queue, grain: nat, states: nat -> bool)
    requires grain > 0
  {
    forall k :: 0 <= k < |q| ==> q[k].translated == states(q[k].address / grain)
  }

  lemma ConformingAgrees(q: Queue, grain: nat, states: nat -> bool)
    requires grain > 0 && Conforms(q, grain, states)
    ensures Agreeing(q, grain)
  {
  }

  lemma {:induction false} MergeFromConforms(q: Queue, k: nat, grain: nat, states: nat -> bool)
    requires grain > 0 && k <= |q| && Conforms(q, grain, states)
    ensures Conforms(MergeFrom(q, k, grain), grain, states)
    decreases |q| - k
  {
    if k == |q| {
    } else {
      var m := Collision(q, k, q[k], grain);
      if m < k {
        MergeFromConforms(Remove(q[m := Merged(q[k], q[m])], k), k, grain, states);
      } else {
        MergeFromConforms(q[k := q[k].(checked := true)], k + 1, grain, states);
      }
    }
  }

  lemma UnansweredConforms(q: Queue, wq: Queue, k: nat, writeGrain: nat, grain: nat, states: nat -> bool)
    requires writeGrain > 0 && grain > 0 && k <= |q| && Conforms(q, grain, states)
    ensures Conforms(Unanswered(q, wq, k, writeGrain), grain, states)
  {
    var u := Unanswered(q, wq, k, writeGrain);
    KeepMembers(q[k..], wq, writeGrain);
    forall i | 0 <= i < |u| ensures u[i].translated == states(u[i].address / grain) {
      assert i < k || u[i] in Keep(q[k..], wq, writeGrain);
      assert u[i] in q;
    }
  }

  function GrainOf(c: Sizes, t: Target): nat {
    if t.WriteQueue? then WriteGrain(c) else c.blockSize
  }

  /** The requests added to each queue have one translation state per place. */
  ghost predicate Steady(c: Sizes, es: seq<Event>, states: Target -> nat -> bool)
    requires c.blockSize > 0
  {
    forall i :: 0 <= i < |es| && es[i].Add? ==>
      es[i].packet.translated == states(es[i].target)(es[i].packet.address / GrainOf(c, es[i].target))
  }

  ghost predicate AllConform(c: Sizes, s: State, states: Target -> nat -> bool)
    requires c.blockSize > 0
  {
    && Conforms(s.rq, c.blockSize, states(ReadQueue))
    && Conforms(s.wq, WriteGrain(c), states(WriteQueue))
    && Conforms(s.pq, c.blockSize, states(PrefetchQueue))
  }

  lemma CheckConforms(c: Sizes, s: State, states: Target -> nat -> bool)
    requires c.blockSize > 0 && AllConform(c, s, states)
    ensures AgreesByPlace(c, s) && AllConform(c, CheckCollision(s, c.blockSize, c.matchOffset), states)
  {
    hide Conforms, Agreeing;
    var g := WriteGrain(c);
    var kw, kr, kp := FirstUnchecked(s.wq, 0), FirstUnchecked(s.rq, 0), FirstUnchecked(s.pq, 0);
    MergeFromConforms(s.wq, kw, g, states(WriteQueue));
    ConformingAgrees(s.wq, g, states(WriteQueue));
    var wq := MergeFrom(s.wq, kw, g);
    UnansweredConforms(s.rq, wq, kr, g, c.blockSize, states(ReadQueue));
    UnansweredConforms(s.pq, wq, kp, g, c.blockSize, states(PrefetchQueue));
    var ur, up := Unanswered(s.rq, wq, kr, g), Unanswered(s.pq, wq, kp, g);
    ConformingAgrees(ur, c.blockSize, states(ReadQueue));
    ConformingAgrees(up, c.blockSize, states(PrefetchQueue));
    MergeFromConforms(ur, kr, c.blockSize, states(ReadQueue));
    MergeFromConforms(up, kp, c.blockSize, states(PrefetchQueue));
    var r := ForwardFrom(s.rq, wq, s.returned, kr, g, c.blockSize);
    ForwardFromIsMerge(s.rq, wq, s.returned, kr, g, c.blockSize);
    ForwardFromIsMerge(s.pq, wq, r.1, kp, g, c.blockSize);
  }

  /** Every collision handling of the run leaves one request per place. */
  ghost predicate NeverDuplicates(c: Sizes, es: seq<Event>)
    requires c.blockSize > 0
  {
    forall n :: 0 <= n < |es| && es[n].Check? ==> OnePerPlace(c, Run(c, EMPTY, es[..n + 1]))
  }

  /** Every collision handling of the run finds requests that agree place by place. */
  ghost predicate AlwaysAgrees(c: Sizes, es: seq<Event>)
    requires c.blockSize > 0
  {
    forall n :: 0 <= n < |es| && es[n].Check? ==> AgreesByPlace(c, Run(c, EMPTY, es[..n]))
  }

  ghost predicate SameStart(a: seq<Event>, b: seq<Event>, n: nat) {
    n < |a| && n < |b| && a[n] == b[n] && a[..n] == b[..n] && a[..n + 1] == b[..n + 1]
  }

  lemma Shorter(c: Sizes, es: seq<Event>)
    requires c.blockSize > 0 && es != []
    ensures
      var rest, n := es[..|es| - 1], |es| - 1;
      && (NeverDuplicates(c, es) <==> NeverDuplicates(c, rest) && (es[n].Check? ==> OnePerPlace(c, Run(c, EMPTY, es))))
      && (AlwaysAgrees(c, es) <==> AlwaysAgrees(c, rest) && (es[n].Check? ==> AgreesByPlace(c, Run(c, EMPTY, rest))))
  {
    hide OnePerPlace, AgreesByPlace, Run;
    var rest, last := es[..|es| - 1], |es| - 1;
    assert es[..last + 1] == es;
    forall n | 0 <= n < last ensures SameStart(es, rest, n) {
    }
    if NeverDuplicates(c, rest) && (es[last].Check? ==> OnePerPlace(c, Run(c, EMPTY, es))) {
      forall n | 0 <= n < |es| && es[n].Check? ensures OnePerPlace(c, Run(c, EMPTY, es[..n + 1])) {
        if n < last { assert SameStart(es, rest, n) && rest[n].Check?; }
      }
    }
    if NeverDuplicates(c, es) {
      forall n | 0 <= n < |rest| && rest[n].Check? ensures OnePerPlace(c, Run(c, EMPTY, rest[..n + 1])) {
        assert SameStart(es, rest, n) && es[n].Check?;
      }
    }
    if AlwaysAgrees(c, rest) && (es[last].Check? ==> AgreesByPlace(c, Run(c, EMPTY, rest))) {
      forall n | 0 <= n < |es| && es[n].Check? ensures AgreesByPlace(c, Run(c, EMPTY, es[..n])) {
        if n < last { assert SameStart(es, rest, n) && rest[n].Check?; }
      }
    }
    if AlwaysAgrees(c, es) {
      forall n | 0 <= n < |rest| && rest[n].Check? ensures AgreesByPlace(c, Run(c, EMPTY, rest[..n])) {
        assert SameStart(es, rest, n) && es[n].Check?;
      }
    }
  }

  /** Over any run: no collision handling ever leaves a duplicate if and only if each finds
      requests that agree place by place; and then sizes and sorted lists hold throughout. */
  lemma {:induction false} EveryRunDistinctIff(c: Sizes, es: seq<Event>)
    requires c.blockSize > 0 && forall i :: 0 <= i < |es| ==> WellFormed(es[i])
    ensures NeverDuplicates(c, es) <==> AlwaysAgrees(c, es)
    ensures AlwaysAgrees(c, es) ==> ChannelInv(c, Run(c, EMPTY, es))
  {
    hide OnePerPlace, AgreesByPlace, NeverDuplicates, AlwaysAgrees;
    if es == [] {
      NothingYet(c);
    } else {
      var rest, e := es[..|es| - 1], es[|es| - 1];
      Shorter(c, es);
      EveryRunDistinctIff(c, rest);
      if AlwaysAgrees(c, rest) { NextKeeps(c, Run(c, EMPTY, rest), e); }
    }
  }

  lemma {:induction false} SteadyRunAgrees(c: Sizes, es: seq<Event>, states: Target -> nat -> bool)
    requires c.blockSize > 0 && Steady(c, es, states)
    ensures AlwaysAgrees(c, es) && AllConform(c, Run(c, EMPTY, es), states)
  {
    hide AgreesByPlace, AlwaysAgrees, NeverDuplicates, OnePerPlace, CheckCollision;
    if es == [] {
      NothingYet(c);
    } else {
      var rest, e := es[..|es| - 1], es[|es| - 1];
      Shorter(c, es);
      SteadyRunAgrees(c, rest, states);
      if e.Check? { CheckConforms(c, Run(c, EMPTY, rest), states); }
    }
  }

  /** Over any run whose requests have one translation state per place of a queue, sizes and
      sorted lists hold, and no collision handling leaves a duplicate. */
  lemma EveryRunKeepsQueues(c: Sizes, es: seq<Event>, states: Target -> nat -> bool)
    requires c.blockSize > 0 && Steady(c, es, states) && forall i :: 0 <= i < |es| ==> WellFormed(es[i])
    ensures ChannelInv(c, Run(c, EMPTY, es)) && NeverDuplicates(c, es)
  {
    SteadyRunAgrees(c, es, states);
    EveryRunDistinctIff(c, es);
  }

  lemma NothingYet(c: Sizes)
    requires c.blockSize > 0
    ensures NeverDuplicates(c, []) && AlwaysAgrees(c, []) && ChannelInv(c, EMPTY)
  {
  }

  /** What the cache below has taken from queue `t`, in order. */
  function Taken(c: Sizes, s: State, es: seq<Event>, t: Target): Queue
    requires c.blockSize > 0
  {
    if es == [] then []
    else
      var q, e := QueueOf(Run(c, s, es[..|es| - 1]), t), es[|es| - 1];
      Taken(c, s, es[..|es| - 1], t) + if e.Take? && e.target == t then q[..|q| - |Dequeue(q, e.count)|] else []
  }

  /** A waiter of queue `t` is still there, has been taken along, or has been answered since `from`. */
  ghost predicate Kept(taken: Queue, s: State, t: Target, start: nat, w: Waiter, blockSize: nat)
    requires blockSize > 0
  {
    Waiting(QueueOf(s, t), w, blockSize) || Waiting(taken, w, blockSize) || Answered(s.returned, start, w, blockSize)
  }

  lemma WaitingInPart(a: Queue, b: Queue, w: Waiter, blockSize: nat)
    requires blockSize > 0
    ensures Waiting(a + b, w, blockSize) <==> Waiting(a, w, blockSize) || Waiting(b, w, blockSize)
  {
    if Waiting(a, w, blockSize) {
      var k :| 0 <= k < |a| && WaitsIn(a[k], w, blockSize);
      assert WaitsIn((a + b)[k], w, blockSize);
    }
    if Waiting(b, w, blockSize) {
      var k :| 0 <= k < |b| && WaitsIn(b[k], w, blockSize);
      assert WaitsIn((a + b)[|a| + k], w, blockSize);
    }
  }

  lemma NextServes(c: Sizes, s: State, e: Event, t: Target, w: Waiter)
    requires c.blockSize > 0 && Waiting(QueueOf(s, t), w, c.blockSize)
    ensures
      var q := QueueOf(s, t);
      var taken := if e.Take? && e.target == t then q[..|q| - |Dequeue(q, e.count)|] else [];
      Kept(taken, Next(c, s, e), t, |s.returned|, w, c.blockSize)
  {
    hide WaitsIn, CheckCollision;
    var q := QueueOf(s, t);
    if e.Check? {
      CheckCollisionServes(s, c.blockSize, c.matchOffset, Next(c, s, e));
    } else if e.Add? && e.target == t {
      WaitingInPart(q, [e.packet.(checked := false)], w, c.blockSize);
    } else if e.Take? && e.target == t {
      var rest := Dequeue(q, e.count);
      assert q[..|q| - |rest|] + rest == q;
      WaitingInPart(q[..|q| - |rest|], rest, w, c.blockSize);
    }
  }

  lemma OnlyGrows(c: Sizes, s: State, e: Event)
    requires c.blockSize > 0
    ensures s.returned <= Next(c, s, e).returned
  {
    if e.Check? { CheckCollisionServes(s, c.blockSize, c.matchOffset, Next(c, s, e)); }
  }

  /** From any state and over any run, no waiting instruction of any queue is lost. */
  lemma {:induction false} EveryRunServes(c: Sizes, s: State, es: seq<Event>, t: Target, w: Waiter)
    requires c.blockSize > 0 && Waiting(QueueOf(s, t), w, c.blockSize)
    ensures s.returned <= Run(c, s, es).returned
    ensures Kept(Taken(c, s, es, t), Run(c, s, es), t, |s.returned|, w, c.blockSize)
  {
    hide WaitsIn, CheckCollision, Dequeue;
    if es == [] {
    } else {
      var rest, e := es[..|es| - 1], es[|es| - 1];
      EveryRunServes(c, s, rest, t, w);
      var m, n := Run(c, s, rest), Run(c, s, es);
      OnlyGrows(c, m, e);
      WaitingInPart(Taken(c, s, rest, t), Taken(c, s, es, t)[|Taken(c, s, rest, t)|..], w, c.blockSize);
      if Waiting(QueueOf(m, t), w, c.blockSize) {
        NextServes(c, m, e, t, w);
      } else if Answered(m.returned, |s.returned|, w, c.blockSize) {
        var k :| |s.returned| <= k < |m.returned| && m.returned[k].address / c.blockSize == w.block
          && forall d :: d in w.deps ==> d in m.returned[k].deps;
        assert n.returned[k] == m.returned[k];
      }
    }
  }

  /** With both translation states on one block, a duplicate can stay: the first request
      hides the second from the third. */
  lemma MixedTranslationKeepsADuplicate()
    ensures
      var x := Request(64, true, true, false, 0, 0, []);
      var t := CheckCollision(State([x.(translated := false), x, x], [], [], []), 64, false);
      |t.rq| == 3 && t.rq[1] == t.rq[2] && !Distinct(t.rq, 64)
  {
    var x := Request(64, true, true, false, 0, 0, []);
    var q0 := [x.(translated := false), x, x];
    var q1 := q0[0 := q0[0].(checked := true)];
    var q2 := q1[1 := q1[1].(checked := true)];
    var q3 := q2[2 := q2[2].(checked := true)];
    assert Collision(q0, 0, q0[0], 64) == 0;
    assert FindSame(q1, 1, 64, 64, 0) == 0;
    assert FindSame(q2, 2, 64, 64, 0) == 0;
    assert ForwardFrom(q3, [], [], 3, 64, 64) == (q3, []);
    assert ForwardFrom(q2, [], [], 2, 64, 64) == (q3, []);
    assert ForwardFrom(q1, [], [], 1, 64, 64) == (q3, []);
    assert ForwardFrom(q0, [], [], 0, 64, 64) == (q3, []);
    assert Same(q3[1].address, q3[2].address, 64);
  }

  // ---- The channel object ----

  class Channel {
    const sizes: Sizes
    var rq: Queue
    var wq: Queue
    var pq: Queue
    var returned: seq<Response>

    ghost function Contents(): State
      reads this
    {
      State(rq, wq, pq, returned)
    }

    constructor (sizes: Sizes)
      ensures this.sizes == sizes && Contents() == State([], [], [], [])
    {
      this.sizes := sizes;
      rq, wq, pq, returned := [], [], [], [];
    }

    static method DoAddQueue(queue: Queue, size: nat, packet: Request) returns (ok: bool, out: Queue)
      ensures ok <==> |queue| < size
      ensures out == Enqueue(queue, size, packet)
    {
      if |queue| >= size { return false, queue; }
      return true, queue + [packet.(checked := false)];
    }

    method AddRq(packet: Request) returns (ok: bool)
      requires sizes.blockSize > 0
      modifies this
      ensures ok <==> old(|rq|) < sizes.rq
      ensures Contents() == Next(sizes, old(Contents()), Add(ReadQueue, packet))
    {
      ok, rq := DoAddQueue(rq, sizes.rq, packet);
    }

    method AddWq(packet: Request) returns (ok: bool)
      requires sizes.blockSize > 0
      modifies this
      ensures ok <==> old(|wq|) < sizes.wq
      ensures Contents() == Next(sizes, old(Contents()), Add(WriteQueue, packet))
    {
      ok, wq := DoAddQueue(wq, sizes.wq, packet);
    }

    method AddPq(packet: Request) returns (ok: bool)
      requires sizes.blockSize > 0
      modifies this
      ensures ok <==> old(|pq|) < sizes.pq
      ensures Contents() == Next(sizes, old(Contents()), Add(PrefetchQueue, packet))
    {
      ok, pq := DoAddQueue(pq, sizes.pq, packet);
    }

    /** Position `k` of `queue` against the requests before it. */
    static method CollideForMerge(queue: Queue, k: nat, grain: nat) returns (merged: bool, out: Queue)
      requires grain > 0 && k < |queue|
      ensures merged <==> Collision(queue, k, queue[k], grain) < k
      ensures merged ==> out == Remove(queue[Collision(queue, k, queue[k], grain) :=
                Merged(queue[k], queue[Collision(queue, k, queue[k], grain)])], k)
      ensures !merged ==> out == queue[k := queue[k].(checked := true)]
    {
      var found := FindSame(queue, k, queue[k].address, grain, 0);
      if found < k && queue[k].translated == queue[found].translated {
        var destination := queue[found];
        destination := destination.(
          respond := destination.respond || queue[k].respond,
          deps := Union(destination.deps, queue[k].deps));
        out := queue[found := destination];
        return true, out[..k] + out[k + 1..];
      }
      return false, queue[k := queue[k].(checked := true)];
    }

    method CollideForReturn(packet: Request, grain: nat) returns (answered: bool)
      requires grain > 0
      modifies this`returned
      ensures answered <==> Collision(wq, |wq|, packet, grain) < |wq|
      ensures answered ==> returned == old(returned) + Forwarded(packet, wq[Collision(wq, |wq|, packet, grain)])
      ensures !answered ==> returned == old(returned)
    {
      var found := FindSame(wq, |wq|, packet.address, grain, 0);
      answered := found < |wq| && packet.translated == wq[found].translated;
      if answered && packet.respond {
        returned := returned + [Response(packet.address, wq[found].data, wq[found].metadata, packet.deps)];
      }
    }

    method ForwardQueue(queue: Queue, writeGrain: nat) returns (out: Queue)
      requires sizes.blockSize > 0 && writeGrain > 0
      modifies this`returned
      ensures (out, returned) ==
                ForwardFrom(queue, wq, old(returned), FirstUnchecked(queue, 0), writeGrain, sizes.blockSize)
    {
      out := queue;
      var it: nat := FirstUnchecked(out, 0);
      while it != |out|
        invariant it <= |out|
        invariant ForwardFrom(out, wq, returned, it, writeGrain, sizes.blockSize)
          == ForwardFrom(queue, wq, old(returned), FirstUnchecked(queue, 0), writeGrain, sizes.blockSize)
        decreases |out| - it
      {
        var answered := CollideForReturn(out[it], writeGrain);
        if answered {
          out := out[..it] + out[it + 1..];
        } else {
          var merged;
          merged, out := CollideForMerge(out, it, sizes.blockSize);
          if !merged { it := it + 1; }
        }
      }
    }

    method MergeWrites(writeGrain: nat)
      requires writeGrain > 0
      modifies this`wq
      ensures wq == MergeFrom(old(wq), FirstUnchecked(old(wq), 0), writeGrain)
    {
      hide Collision, Merged, Remove;
      var it: nat := FirstUnchecked(wq, 0);
      while it != |wq|
        invariant it <= |wq|
        invariant MergeFrom(wq, it, writeGrain) == MergeFrom(old(wq), FirstUnchecked(old(wq), 0), writeGrain)
        decreases |wq| - it
      {
        var merged;
        merged, wq := CollideForMerge(wq, it, writeGrain);
        if !merged { it := it + 1; }
      }
    }

    method CheckCollision()
      requires sizes.blockSize > 0
      modifies this
      ensures Contents() == Next(sizes, old(Contents()), Check)
    {
      var writeGrain := if sizes.matchOffset then 1 else sizes.blockSize;
      MergeWrites(writeGrain);
      rq := ForwardQueue(rq, writeGrain);
      pq := ForwardQueue(pq, writeGrain);
    }
  }
}
