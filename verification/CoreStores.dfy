/** The writes of a program in program order, and what the core owes of them. */
module CoreStores {
  import opened CoreState
  import opened CoreMemoryProof
  import opened CoreCycle

  function RequestsFor(x: Instr): (r: seq<Request>)
    ensures |r| == |x.stores|
  {
    seq(|x.stores|, k requires 0 <= k < |x.stores| => Request(x.id, x.stores[k]))
  }

  /** Every write the instructions ask for, in program order. */
  function StoresOf(s: seq<Instr>): seq<Request> {
    if s == [] then [] else RequestsFor(s[0]) + StoresOf(s[1..])
  }

  lemma {:induction false} StoresOfSplit(a: seq<Instr>, b: seq<Instr>)
    ensures StoresOf(a + b) == StoresOf(a) + StoresOf(b)
  {
    if a == [] {
      assert a + b == b;
    } else {
      assert (a + b)[1..] == a[1..] + b;
      StoresOfSplit(a[1..], b);
    }
  }

  lemma StoresOfOne(x: Instr)
    ensures StoresOf([x]) == RequestsFor(x)
  {
    assert [x][1..] == [];
  }

  lemma {:induction false} StoresOfSame(a: seq<Instr>, b: seq<Instr>)
    requires |a| == |b| && forall k :: 0 <= k < |a| ==> b[k].id == a[k].id && b[k].stores == a[k].stores
    ensures StoresOf(a) == StoresOf(b)
  {
    if a == [] {
    } else {
      StoresOfSame(a[1..], b[1..]);
    }
  }

  /** Each write is one of the stores of an instruction. */
  ghost predicate StoredBy(s: seq<Instr>, r: Request) {
    exists i :: 0 <= i < |s| && s[i].id == r.id && r.addr in s[i].stores
  }

  lemma {:induction false} StoresOfMember(s: seq<Instr>, n: nat)
    requires n < |StoresOf(s)|
    ensures StoredBy(s, StoresOf(s)[n])
  {
    var own := RequestsFor(s[0]);
    if n < |own| {
      assert StoresOf(s)[n] == own[n];
    } else {
      StoresOfMember(s[1..], n - |own|);
      var i :| 0 <= i < |s[1..]| && s[1..][i].id == StoresOf(s)[n].id && StoresOf(s)[n].addr in s[1..][i].stores;
      assert s[i + 1] == s[1..][i];
    }
  }

  lemma {:induction false} StoresOfOrdered(s: seq<Instr>, a: nat, b: nat)
    requires Ordered(s) && a < b < |StoresOf(s)|
    ensures StoresOf(s)[a].id <= StoresOf(s)[b].id
  {
    var own, rest := RequestsFor(s[0]), StoresOf(s[1..]);
    if a >= |own| {
      StoresOfOrdered(s[1..], a - |own|, b - |own|);
    } else if b >= |own| {
      StoresOfMember(s[1..], b - |own|);
      var i :| 0 <= i < |s[1..]| && s[1..][i].id == rest[b - |own|].id;
      assert s[i + 1] == s[1..][i];
    }
  }

  lemma StoresOfPrefix(a: seq<Instr>, b: seq<Instr>)
    requires a <= b
    ensures StoresOf(a) <= StoresOf(b)
  {
    assert b == a + b[|a|..];
    StoresOfSplit(a, b[|a|..]);
  }

  // ---- What is owed ----

  /** The writes sent and those still queued are exactly the writes of the instructions
      that were dispatched, in program order; what was sent are writes of instructions
      that retired. */
  ghost predicate StoresInv(c: Core) {
    && c.storesSent + StoreRequests(c.sq) == StoresOf(c.retired + c.rob)
    && c.storesSent <= StoresOf(c.retired)
  }

  /** Stages that keep what a store asks for, and what an instruction asks for. */
  lemma StoresInvFrame(c: Core, d: Core)
    requires StoresInv(c) && d.retired == c.retired && d.storesSent == c.storesSent
    requires SameIds(c.rob, d.rob) && forall k :: 0 <= k < |c.rob| ==> d.rob[k].stores == c.rob[k].stores
    requires |d.sq| == |c.sq|
    requires forall j :: 0 <= j < |c.sq| ==> d.sq[j].id == c.sq[j].id && d.sq[j].addr == c.sq[j].addr
    ensures StoresInv(d)
  {
    StoresOfSame(c.retired + c.rob, d.retired + d.rob);
    assert StoreRequests(d.sq) == StoreRequests(c.sq);
  }

  lemma RetireStores(c: Core, d: Core, n: nat)
    requires StoresInv(c) && n <= |c.rob| && d == c.(retired := c.retired + c.rob[..n], rob := c.rob[n..])
    ensures StoresInv(d)
  {
    assert c.rob == c.rob[..n] + c.rob[n..];
    assert d.retired + d.rob == c.retired + c.rob;
    StoresOfPrefix(c.retired, d.retired);
  }

  /** Queued stores older than the reorder buffer are stores of retired instructions. */
  lemma OldStoresRetired(c: Core, n: nat)
    requires StoresInv(c) && n <= |c.sq| && forall j, k :: 0 <= j < n && 0 <= k < |c.rob| ==> c.sq[j].id < c.rob[k].id
    ensures |c.storesSent| + n <= |StoresOf(c.retired)|
  {
    var m, j := |StoresOf(c.retired)|, |StoresOf(c.retired)| - |c.storesSent|;
    StoresOfSplit(c.retired, c.rob);
    if j < n {
      assert StoresOf(c.retired + c.rob)[m] == StoreRequests(c.sq)[j] == StoresOf(c.rob)[0];
      StoresOfMember(c.rob, 0);
    }
  }

  lemma SendStoresOf(c: Core, d: Core, n: nat)
    requires StoresInv(c) && n <= |c.sq| && forall j, k :: 0 <= j < n && 0 <= k < |c.rob| ==> c.sq[j].id < c.rob[k].id
    requires d == c.(sq := c.sq[n..], storesSent := c.storesSent + StoreRequests(c.sq[..n]))
    ensures StoresInv(d)
  {
    OldStoresRetired(c, n);
    StoresOfSplit(c.retired, c.rob);
    hide StoresOf;
    assert StoreRequests(c.sq) == StoreRequests(c.sq[..n]) + StoreRequests(c.sq[n..]);
    SentPrefix(c.storesSent, StoreRequests(c.sq[..n]), StoreRequests(c.sq[n..]), StoresOf(c.retired), StoresOf(c.rob));
  }

  lemma SentPrefix(sent: seq<Request>, a: seq<Request>, b: seq<Request>, done: seq<Request>, rest: seq<Request>)
    requires sent + (a + b) == done + rest && |sent| + |a| <= |done|
    ensures sent + a + b == done + rest && sent + a <= done
  {
    assert sent + a == (sent + (a + b))[..|sent + a|];
    assert done[..|sent + a|] == (done + rest)[..|sent + a|];
  }

  lemma DispatchStores(c: Core, d: Core, x: Instr)
    requires StoresInv(c) && d.retired == c.retired && d.storesSent == c.storesSent
    requires SameIds(c.rob + [x], d.rob) && forall k :: 0 <= k < |d.rob| ==> d.rob[k].stores == (c.rob + [x])[k].stores
    requires Appends(c.sq, x, d.sq)
    ensures StoresInv(d)
  {
    assert c.retired + (c.rob + [x]) == c.retired + c.rob + [x];
    StoresOfSame(c.retired + (c.rob + [x]), d.retired + d.rob);
    StoresOfSplit(c.retired + c.rob, [x]);
    StoresOfOne(x);
    assert StoreRequests(d.sq) == StoreRequests(c.sq) + RequestsFor(x);
  }

  // ---- What that means ----

  /** Stores left in program order, each older than every store still queued. */
  ghost predicate SentInOrder(c: Core) {
    && (forall a, b :: 0 <= a < b < |c.storesSent| ==> c.storesSent[a].id <= c.storesSent[b].id)
    && (forall a, j :: 0 <= a < |c.storesSent| && 0 <= j < |c.sq| ==> c.storesSent[a].id <= c.sq[j].id)
  }

  lemma StoresInvOrdered(c: Core)
    requires StoresInv(c) && Ordered(c.retired + c.rob)
    ensures SentInOrder(c)
  {
    var all, m := StoresOf(c.retired + c.rob), |c.storesSent|;
    forall a, b | 0 <= a < b < m ensures c.storesSent[a].id <= c.storesSent[b].id {
      StoresOfOrdered(c.retired + c.rob, a, b);
      assert c.storesSent[a] == all[a] && c.storesSent[b] == all[b];
    }
    forall a, j | 0 <= a < m && 0 <= j < |c.sq| ensures c.storesSent[a].id <= c.sq[j].id {
      StoresOfOrdered(c.retired + c.rob, a, m + j);
      assert c.storesSent[a] == all[a] && StoreRequests(c.sq)[j] == all[m + j];
    }
  }

  /** A queued store belongs to an instruction that was dispatched. */
  lemma QueuedStoreIsKnown(c: Core, j: nat)
    requires StoresInv(c) && j < |c.sq|
    ensures StoredBy(c.retired + c.rob, Request(c.sq[j].id, c.sq[j].addr))
  {
    var all := StoresOf(c.retired + c.rob);
    assert StoreRequests(c.sq)[j] == all[|c.storesSent| + j];
    StoresOfMember(c.retired + c.rob, |c.storesSent| + j);
  }
}
