/** Which request of several stays in a queue, whose data a forwarded response carries, and
    the order in which requests pass. */
module ChannelData {
  import opened SetUnion
  import opened ChannelQueues

  // ---- The request that decides ----

  /** Request `j` is the first of the first `n` on the packet's grain and agrees with it on
      translation. */
  ghost predicate Meeting(q: Queue, n: nat, packet: Request, grain: nat, j: nat)
    requires grain > 0 && n <= |q|
  {
    && j < n && Same(q[j].address, packet.address, grain) && q[j].translated == packet.translated
    && forall i :: 0 <= i < j ==> !Same(q[i].address, packet.address, grain)
  }

  lemma CollisionSelects(q: Queue, n: nat, packet: Request, grain: nat, j: nat)
    requires grain > 0 && n <= |q|
    ensures Meeting(q, n, packet, grain, j) <==> j < n && Collision(q, n, packet, grain) == j
  {
    var k := FindSame(q, n, packet.address, grain, 0);
    if Meeting(q, n, packet, grain, j) { assert k == j; }
  }

  // ---- Forwarded data ----

  /** The responses that `wq` gives to requests `b`, in order: the address and the waiters of
      the request, the data and the metadata of the write. */
  ghost function AnswersTo(b: Queue, wq: Queue, grain: nat): seq<Response>
    requires grain > 0
  {
    if b == [] then []
    else
      var w := Collision(wq, |wq|, b[0], grain);
      (if w < |wq| && b[0].respond then [Response(b[0].address, wq[w].data, wq[w].metadata, b[0].deps)] else [])
      + AnswersTo(b[1..], wq, grain)
  }

  lemma AfterStep(q: Queue, k: nat, m: nat, x: Request, y: Request)
    requires k < |q|
    ensures Remove(q, k)[k..] == q[k + 1..] == q[k := y][k + 1..]
    ensures m < k ==> Remove(q[m := x], k)[k..] == q[k + 1..]
  {
  }

  lemma NoAnswers(b: Queue, wq: Queue, grain: nat)
    requires grain > 0 && b == []
    ensures AnswersTo(b, wq, grain) == []
  {
  }

  lemma AnswersStep(q: Queue, k: nat, wq: Queue, grain: nat)
    requires grain > 0 && k < |q|
    ensures
      var w := Collision(wq, |wq|, q[k], grain);
      AnswersTo(q[k..], wq, grain)
        == (if w < |wq| then Forwarded(q[k], wq[w]) else []) + AnswersTo(q[k + 1..], wq, grain)
  {
    assert q[k..][0] == q[k] && q[k..][1..] == q[k + 1..];
  }

  lemma {:induction false} ForwardFromAnswers(
      q: Queue, wq: Queue, out: seq<Response>, k: nat, writeGrain: nat, grain: nat)
    requires writeGrain > 0 && grain > 0 && k <= |q|
    ensures ForwardFrom(q, wq, out, k, writeGrain, grain).1 == out + AnswersTo(q[k..], wq, writeGrain)
    decreases |q| - k
  {
    hide Collision, Merged, Remove, Forwarded, AnswersTo;
    if k == |q| {
      assert AnswersTo(q[k..], wq, writeGrain) == [] by { NoAnswers(q[k..], wq, writeGrain); }
    } else {
      var w, m := Collision(wq, |wq|, q[k], writeGrain), Collision(q, k, q[k], grain);
      var marked := q[k].(checked := true);
      AnswersStep(q, k, wq, writeGrain);
      AfterStep(q, k, m, if m < k then Merged(q[k], q[m]) else q[k], marked);
      if w < |wq| {
        ForwardFromAnswers(Remove(q, k), wq, out + Forwarded(q[k], wq[w]), k, writeGrain, grain);
      } else if m < k {
        ForwardFromAnswers(Remove(q[m := Merged(q[k], q[m])], k), wq, out, k, writeGrain, grain);
      } else {
        ForwardFromAnswers(q[k := marked], wq, out, k + 1, writeGrain, grain);
      }
    }
  }

  /** What collision handling sends: the new reads and then the new prefetches that meet a
      write and want a response get it, with the data of the first write to their place. */
  lemma CollisionAnswersExactly(c: Sizes, s: State, t: State)
    requires c.blockSize > 0 && t == CheckCollision(s, c.blockSize, c.matchOffset)
    ensures t.returned == s.returned + AnswersTo(s.rq[FirstUnchecked(s.rq, 0)..], t.wq, WriteGrain(c))
                                     + AnswersTo(s.pq[FirstUnchecked(s.pq, 0)..], t.wq, WriteGrain(c))
  {
    var g, kr, kp := WriteGrain(c), FirstUnchecked(s.rq, 0), FirstUnchecked(s.pq, 0);
    var r := ForwardFrom(s.rq, t.wq, s.returned, kr, g, c.blockSize);
    ForwardFromAnswers(s.rq, t.wq, s.returned, kr, g, c.blockSize);
    ForwardFromAnswers(s.pq, t.wq, r.1, kp, g, c.blockSize);
  }

  // ---- Which request stays ----

  /** An earlier request takes in request `j`. */
  ghost predicate TakenIn(q: Queue, j: nat, grain: nat)
    requires grain > 0 && j < |q|
  {
    exists i: nat :: Meeting(q, j, q[j], grain, i)
  }

  ghost predicate Leads(q: Queue, k: nat, grain: nat, j: nat)
    requires grain > 0
  {
    j < |q| && (j < k || !TakenIn(q, j, grain))
  }

  /** `x` is request `j`, which leads, but for the mark and what it took in. */
  ghost predicate Stems(q: Queue, k: nat, grain: nat, x: Request, j: nat)
    requires grain > 0
  {
    && Leads(q, k, grain, j)
    && x == q[j].(checked := x.checked, respond := x.respond, deps := x.deps) && (q[j].checked || j >= k ==> x.checked)
  }

  /** All that `x` waits for came with a request on its place. */
  ghost predicate Honest(q: Queue, grain: nat, x: Request)
    requires grain > 0
  {
    && (x.respond ==> exists j :: 0 <= j < |q| && q[j].respond && Same(q[j].address, x.address, grain))
    && forall d :: d in x.deps ==> exists j :: 0 <= j < |q| && d in q[j].deps && Same(q[j].address, x.address, grain)
  }

  lemma TakenBefore(q: Queue, k: nat, m: nat, grain: nat, j: nat)
    requires grain > 0 && m < k < |q| && k <= j < |q| - 1 && Meeting(q, k, q[k], grain, m)
    ensures TakenIn(Remove(q[m := Merged(q[k], q[m])], k), j, grain) ==> TakenIn(q, j + 1, grain)
  {
    var next, n := Remove(q[m := Merged(q[k], q[m])], k), j + 1;
    assert forall i :: 0 <= i < k ==> next[i].address == q[i].address && next[i].translated == q[i].translated;
    assert forall i :: k <= i < |next| ==> next[i] == q[i + 1];
    if TakenIn(next, j, grain) {
      var i: nat :| Meeting(next, j, next[j], grain, i);
      var l := if i < k then i else i + 1;
      forall h | 0 <= h < l ensures !Same(q[h].address, q[n].address, grain) {
        assert h != k ==> !Same(next[if h < k then h else h - 1].address, next[j].address, grain);
        assert h == k ==> !Same(next[m].address, next[j].address, grain);
      }
      assert Meeting(q, n, q[n], grain, l);
    }
  }

  lemma TakenAfter(q: Queue, k: nat, m: nat, grain: nat, j: nat)
    requires grain > 0 && m < k < |q| && k <= j < |q| - 1 && Meeting(q, k, q[k], grain, m)
    ensures TakenIn(q, j + 1, grain) ==> TakenIn(Remove(q[m := Merged(q[k], q[m])], k), j, grain)
  {
    var next, n := Remove(q[m := Merged(q[k], q[m])], k), j + 1;
    assert forall i :: 0 <= i < k ==> next[i].address == q[i].address && next[i].translated == q[i].translated;
    assert forall i :: k <= i < |next| ==> next[i] == q[i + 1];
    if TakenIn(q, n, grain) {
      var l: nat :| Meeting(q, n, q[n], grain, l);
      assert l != k;
      var i := if l < k then l else l - 1;
      forall h | 0 <= h < i ensures !Same(next[h].address, next[j].address, grain) {
        assert !Same(q[if h < k then h else h + 1].address, q[n].address, grain);
      }
      assert Meeting(next, j, next[j], grain, i);
    }
  }

  /** Merging request `k` leaves it to the earlier requests to decide about the later ones. */
  lemma RemovalKeepsLeads(q: Queue, k: nat, m: nat, grain: nat, j: nat)
    requires grain > 0 && m < k < |q| && k <= j < |q| - 1 && Meeting(q, k, q[k], grain, m)
    ensures TakenIn(Remove(q[m := Merged(q[k], q[m])], k), j, grain) <==> TakenIn(q, j + 1, grain)
  {
    TakenBefore(q, k, m, grain, j);
    TakenAfter(q, k, m, grain, j);
  }

  /** Merging request `k` into `m`: whatever stems from the new queue stems from the old one. */
  lemma MergeStems(q: Queue, k: nat, m: nat, grain: nat, x: Request, j: nat)
    requires grain > 0 && m < k < |q| && Meeting(q, k, q[k], grain, m) && j < |q| - 1
    ensures
      var next := Remove(q[m := Merged(q[k], q[m])], k);
      Stems(next, k, grain, x, j) <==> Stems(q, k, grain, x, if j < k then j else j + 1)
  {
    if j >= k { RemovalKeepsLeads(q, k, m, grain, j); }
  }

  lemma MergeIsHonest(q: Queue, k: nat, m: nat, grain: nat, x: Request)
    requires grain > 0 && m < k < |q| && Same(q[m].address, q[k].address, grain)
    requires Honest(Remove(q[m := Merged(q[k], q[m])], k), grain, x)
    ensures Honest(q, grain, x)
  {
    var next := Remove(q[m := Merged(q[k], q[m])], k);
    if x.respond {
      var j :| 0 <= j < |next| && next[j].respond && Same(next[j].address, x.address, grain);
      assert j == m ==> q[m].respond || q[k].respond;
      assert j != m ==> next[j] == q[if j < k then j else j + 1];
    }
    forall d | d in x.deps ensures exists j :: 0 <= j < |q| && d in q[j].deps && Same(q[j].address, x.address, grain) {
      var j :| 0 <= j < |next| && d in next[j].deps && Same(next[j].address, x.address, grain);
      if j == m { UnionMembers(q[m].deps, q[k].deps, d); }
      assert j != m ==> next[j] == q[if j < k then j else j + 1];
    }
  }

  lemma MarkStems(q: Queue, k: nat, grain: nat, x: Request, j: nat)
    requires grain > 0 && k < |q| && !TakenIn(q, k, grain)
    ensures Stems(q[k := q[k].(checked := true)], k + 1, grain, x, j) <==> Stems(q, k, grain, x, j)
  {
    var next := q[k := q[k].(checked := true)];
    assert forall i :: 0 <= i < |q| ==> next[i].address == q[i].address && next[i].translated == q[i].translated;
    if j < |q| {
      assert TakenIn(q, j, grain) ==> TakenIn(next, j, grain) by {
        if i: nat :| Meeting(q, j, q[j], grain, i) { assert Meeting(next, j, next[j], grain, i); }
      }
      assert TakenIn(next, j, grain) ==> TakenIn(q, j, grain) by {
        if i: nat :| Meeting(next, j, next[j], grain, i) { assert Meeting(q, j, q[j], grain, i); }
      }
    }
  }

  lemma NotTaken(q: Queue, k: nat, grain: nat)
    requires grain > 0 && k < |q|
    ensures TakenIn(q, k, grain) <==> Collision(q, k, q[k], grain) < k
    ensures Collision(q, k, q[k], grain) < k ==> Meeting(q, k, q[k], grain, Collision(q, k, q[k], grain))
  {
    var m := Collision(q, k, q[k], grain);
    CollisionSelects(q, k, q[k], grain, m);
    if i: nat :| Meeting(q, k, q[k], grain, i) { CollisionSelects(q, k, q[k], grain, i); }
  }

  /** Every request that merging leaves stems from one that leads, and waits for nothing
      that did not come with a request on its place. */
  lemma {:induction false} MergedStems(q: Queue, k: nat, grain: nat, r: Queue, i: nat) returns (j: nat)
    requires grain > 0 && k <= |q| && r == MergeFrom(q, k, grain) && i < |r|
    ensures Stems(q, k, grain, r[i], j) && Honest(q, grain, r[i])
    decreases |q| - k
  {
    hide Collision, Merged, Remove, Stems, Honest;
    if k == |q| {
      j := i;
      assert Stems(q, k, grain, r[i], i) by { ItselfStems(q, k, grain, i); }
      assert Honest(q, grain, r[i]) by { ItselfHonest(q, grain, i); }
    } else {
      var m := Collision(q, k, q[k], grain);
      NotTaken(q, k, grain);
      if m < k {
        var next := Remove(q[m := Merged(q[k], q[m])], k);
        j := MergedStems(next, k, grain, r, i);
        assert j < |next| by { StemsFrom(next, k, grain, r[i], j); }
        MergeStems(q, k, m, grain, r[i], j);
        MergeIsHonest(q, k, m, grain, r[i]);
        j := if j < k then j else j + 1;
      } else {
        var next := q[k := q[k].(checked := true)];
        j := MergedStems(next, k + 1, grain, r, i);
        MarkStems(q, k, grain, r[i], j);
        assert Honest(q, grain, r[i]) by { MarkIsHonest(q, k, grain, r[i]); }
      }
    }
  }

  /** Every request that leads stays. */
  lemma {:induction false} LeadersStay(q: Queue, k: nat, grain: nat, r: Queue, j: nat) returns (i: nat)
    requires grain > 0 && k <= |q| && r == MergeFrom(q, k, grain) && Leads(q, k, grain, j)
    ensures i < |r| && Stems(q, k, grain, r[i], j)
    decreases |q| - k
  {
    hide Collision, Merged, Remove, Stems;
    if k == |q| {
      i := j;
      assert Stems(q, k, grain, r[i], j) by { ItselfStems(q, k, grain, j); }
    } else {
      var m := Collision(q, k, q[k], grain);
      NotTaken(q, k, grain);
      if m < k {
        var next, j' := Remove(q[m := Merged(q[k], q[m])], k), if j < k then j else j - 1;
        if j > k { RemovalKeepsLeads(q, k, m, grain, j'); }
        i := LeadersStay(next, k, grain, r, j');
        MergeStems(q, k, m, grain, r[i], j');
      } else {
        var next := q[k := q[k].(checked := true)];
        MarkLeads(q, k, grain, j);
        i := LeadersStay(next, k + 1, grain, r, j);
        MarkStems(q, k, grain, r[i], j);
      }
    }
  }

  lemma ItselfStems(q: Queue, k: nat, grain: nat, j: nat)
    requires grain > 0 && k == |q| && j < k
    ensures Stems(q, k, grain, q[j], j)
  {
  }

  lemma ItselfHonest(q: Queue, grain: nat, j: nat)
    requires grain > 0 && j < |q|
    ensures Honest(q, grain, q[j])
  {
    assert Same(q[j].address, q[j].address, grain);
  }

  lemma StemsFrom(q: Queue, k: nat, grain: nat, x: Request, j: nat)
    requires grain > 0 && Stems(q, k, grain, x, j)
    ensures j < |q|
  {
  }

  lemma MarkIsHonest(q: Queue, k: nat, grain: nat, x: Request)
    requires grain > 0 && k < |q| && Honest(q[k := q[k].(checked := true)], grain, x)
    ensures Honest(q, grain, x)
  {
    var next := q[k := q[k].(checked := true)];
    assert forall i :: 0 <= i < |q| ==> next[i] == q[i].(checked := next[i].checked);
  }

  lemma MarkLeads(q: Queue, k: nat, grain: nat, j: nat)
    requires grain > 0 && k < |q| && !TakenIn(q, k, grain) && Leads(q, k, grain, j)
    ensures Leads(q[k := q[k].(checked := true)], k + 1, grain, j)
  {
    var x := q[j].(checked := true);
    assert Stems(q, k, grain, x, j);
    MarkStems(q, k, grain, x, j);
  }

  /** Some request that leads has become `x`, and `x` waits for nothing made up. */
  ghost predicate Accounted(q: Queue, k: nat, grain: nat, x: Request)
    requires grain > 0
  {
    Honest(q, grain, x) && exists j: nat :: Stems(q, k, grain, x, j)
  }

  ghost predicate Stayed(q: Queue, k: nat, grain: nat, r: Queue, j: nat)
    requires grain > 0
  {
    exists i :: 0 <= i < |r| && Stems(q, k, grain, r[i], j)
  }

  /** Merging, exactly as to data: what stays stems from a request that leads, with that
      one's data, and all of those stay. For a read queue `q` is what no write answers. */
  lemma MergedDataExactly(q: Queue, k: nat, grain: nat, r: Queue)
    requires grain > 0 && k <= |q| && r == MergeFrom(q, k, grain)
    ensures forall i :: 0 <= i < |r| ==> Accounted(q, k, grain, r[i])
    ensures forall j: nat :: Leads(q, k, grain, j) ==> Stayed(q, k, grain, r, j)
  {
    hide Stems, Honest, MergeFrom, Leads;
    forall i | 0 <= i < |r| ensures Accounted(q, k, grain, r[i]) {
      var j := MergedStems(q, k, grain, r, i);
    }
    forall j: nat | Leads(q, k, grain, j) ensures Stayed(q, k, grain, r, j) {
      var i := LeadersStay(q, k, grain, r, j);
    }
  }

  // ---- Order ----

  /** The packets that queue `t` accepted, in order: those that found room. */
  ghost function Accepted(c: Sizes, s: State, es: seq<Event>, t: Target): Queue
    requires c.blockSize > 0
  {
    if es == [] then []
    else
      var rest, e := es[..|es| - 1], es[|es| - 1];
      var size := match t case ReadQueue => c.rq case WriteQueue => c.wq case PrefetchQueue => c.pq;
      Accepted(c, s, rest, t)
      + if e.Add? && e.target == t && |QueueOf(Run(c, s, rest), t)| < size then [e.packet.(checked := false)] else []
  }

  /** How many requests a run takes from queue `t`. */
  ghost function TakenCount(c: Sizes, s: State, es: seq<Event>, t: Target): nat
    requires c.blockSize > 0
  {
    if es == [] then 0
    else
      var rest, e := es[..|es| - 1], es[|es| - 1];
      var held := |QueueOf(Run(c, s, rest), t)|;
      TakenCount(c, s, rest, t) + if e.Take? && e.target == t then (if e.count < held then e.count else held) else 0
  }

  lemma NextIsFifo(c: Sizes, s: State, e: Event, t: Target, taken: Queue, accepted: Queue)
    requires c.blockSize > 0 && !e.Check?
    requires
      var q := QueueOf(s, t);
      taken == if e.Take? && e.target == t then q[..|q| - |Dequeue(q, e.count)|] else []
    requires
      var size := match t case ReadQueue => c.rq case WriteQueue => c.wq case PrefetchQueue => c.pq;
      accepted == if e.Add? && e.target == t && |QueueOf(s, t)| < size then [e.packet.(checked := false)] else []
    ensures taken + QueueOf(Next(c, s, e), t) == QueueOf(s, t) + accepted
    ensures
      var held := |QueueOf(s, t)|;
      |taken| == if e.Take? && e.target == t then (if e.count < held then e.count else held) else 0
  {
  }

  /** Between collisions each queue is first in, first out: what was taken followed by what
      is queued is what was queued followed by what was accepted. */
  lemma {:induction false} EveryRunIsFifo(c: Sizes, s: State, es: seq<Event>, t: Target)
    requires c.blockSize > 0 && forall i :: 0 <= i < |es| ==> !es[i].Check?
    ensures Taken(c, s, es, t) + QueueOf(Run(c, s, es), t) == QueueOf(s, t) + Accepted(c, s, es, t)
    ensures |Taken(c, s, es, t)| == TakenCount(c, s, es, t)
  {
    hide Next, QueueOf;
    if es == [] {
    } else {
      var rest, e := es[..|es| - 1], es[|es| - 1];
      EveryRunIsFifo(c, s, rest, t);
      var m := Run(c, s, rest);
      var q, q' := QueueOf(m, t), QueueOf(Run(c, s, es), t);
      var size := match t case ReadQueue => c.rq case WriteQueue => c.wq case PrefetchQueue => c.pq;
      var taken := if e.Take? && e.target == t then q[..|q| - |Dequeue(q, e.count)|] else [];
      var accepted := if e.Add? && e.target == t && |q| < size then [e.packet.(checked := false)] else [];
      NextIsFifo(c, m, e, t, taken, accepted);
      Regroup(Taken(c, s, rest, t), taken, q', q, accepted, QueueOf(s, t), Accepted(c, s, rest, t));
    }
  }

  lemma Regroup(a: Queue, b: Queue, q': Queue, q: Queue, d: Queue, start: Queue, e: Queue)
    requires a + q == start + e && b + q' == q + d
    ensures (a + b) + q' == start + (e + d)
  {
    assert (a + b) + q' == a + (b + q') == (a + q) + d == start + (e + d);
  }
}
