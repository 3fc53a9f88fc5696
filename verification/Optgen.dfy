/** OPTgen: a ring of 128 occupancy counters that decides, access by access, what an
    optimal replacement policy would have hit. */
module Optgen {
  import opened FiniteSets
  import opened Options
  import opened Timeline

  const OPTGEN_SIZE: nat := 128

  /** Number of slots the ring walk visits from `endVal` until it meets `val`. */
  function Distance(val: nat, endVal: nat): nat
    requires val < OPTGEN_SIZE && endVal < OPTGEN_SIZE
  {
    if val >= endVal then val - endVal else val + OPTGEN_SIZE - endVal
  }

  /** Slot `i` lies on the walk from `endVal` up to, not including, `val`. */
  predicate OnWalk(i: nat, val: nat, endVal: nat)
    requires i < OPTGEN_SIZE && val < OPTGEN_SIZE && endVal < OPTGEN_SIZE
  {
    Distance(i, endVal) < Distance(val, endVal)
  }

  predicate HasRoom(live: seq<nat>, cap: nat, val: nat, endVal: nat)
    requires |live| == OPTGEN_SIZE && val < OPTGEN_SIZE && endVal < OPTGEN_SIZE
  {
    forall i :: 0 <= i < OPTGEN_SIZE && OnWalk(i, val, endVal) ==> live[i] < cap
  }

  function Occupy(live: seq<nat>, val: nat, endVal: nat): (r: seq<nat>)
    requires |live| == OPTGEN_SIZE && val < OPTGEN_SIZE && endVal < OPTGEN_SIZE
    ensures |r| == OPTGEN_SIZE
  {
    seq(OPTGEN_SIZE, i requires 0 <= i < OPTGEN_SIZE =>
      if OnWalk(i, val, endVal) then live[i] + 1 else live[i])
  }

  class OPTgen {
    var liveness: array<nat>
    var numCache: nat
    var access: nat
    var cacheSize: nat

    ghost predicate Valid()
      reads this, liveness
    {
      && liveness.Length == OPTGEN_SIZE
      && forall i :: 0 <= i < OPTGEN_SIZE ==> liveness[i] <= cacheSize
    }

    constructor ()
      ensures fresh(liveness) && liveness.Length == 0
    {
      liveness := new nat[0];
      numCache, access, cacheSize := 0, 0, 0;
    }

    /** A first call creates an all-zero ring. The vector is only resized, so a later
        call keeps whatever occupancy it held. */
    method Init(size: nat)
      requires liveness.Length == 0 || liveness.Length == OPTGEN_SIZE
      modifies this
      ensures numCache == 0 && access == 0 && cacheSize == size
      ensures liveness.Length == OPTGEN_SIZE
      ensures old(liveness.Length) == 0 ==> fresh(liveness) && liveness[..] == seq(OPTGEN_SIZE, _ => 0) && Valid()
      ensures old(liveness.Length) != 0 ==> liveness == old(liveness) && liveness[..] == old(liveness[..])
    {
      numCache := 0;
      access := 0;
      cacheSize := size;
      if liveness.Length != OPTGEN_SIZE {
        liveness := new nat[OPTGEN_SIZE](_ => 0);
      }
    }

    method SetAccess(val: nat)
      requires Valid() && val < OPTGEN_SIZE
      modifies this`access, liveness
      ensures Valid() && access == old(access) + 1
      ensures liveness[..] == old(liveness[..])[val := 0]
    {
      access := access + 1;
      liveness[val] := 0;
    }

    method IsCache(val: nat, endVal: nat) returns (cache: bool)
      requires Valid() && val < OPTGEN_SIZE && endVal < OPTGEN_SIZE
      modifies this`numCache, liveness
      ensures Valid()
      ensures cache == HasRoom(old(liveness[..]), cacheSize, val, endVal)
      ensures numCache == old(numCache) + if cache then 1 else 0
      ensures liveness[..] == if cache then Occupy(old(liveness[..]), val, endVal) else old(liveness[..])
    {
      cache := true;
      var count: nat := endVal;
      while count != val
        invariant count < OPTGEN_SIZE && cache && unchanged(this, liveness)
        invariant Distance(count, endVal) <= Distance(val, endVal)
        invariant forall i :: 0 <= i < OPTGEN_SIZE && OnWalk(i, count, endVal) ==> liveness[i] < cacheSize
        decreases Distance(val, count)
      {
        if liveness[count] >= cacheSize {
          cache := false;
          assert OnWalk(count, val, endVal);
          break;
        }
        WalkStep(count, val, endVal);
        count := (count + 1) % liveness.Length;
      }
      if cache {
        ghost var before := liveness[..];
        count := endVal;
        while count != val
          invariant count < OPTGEN_SIZE && unchanged(this)
          invariant Distance(count, endVal) <= Distance(val, endVal)
          invariant forall i :: 0 <= i < OPTGEN_SIZE ==>
            liveness[i] == if OnWalk(i, count, endVal) then before[i] + 1 else before[i]
          decreases Distance(val, count)
        {
          WalkStep(count, val, endVal);
          liveness[count] := liveness[count] + 1;
          count := (count + 1) % liveness.Length;
        }
        numCache := numCache + 1;
        assert liveness[..] == Occupy(before, val, endVal);
      }
    }
  }

  lemma WalkStep(count: nat, val: nat, endVal: nat)
    requires count < OPTGEN_SIZE && val < OPTGEN_SIZE && endVal < OPTGEN_SIZE
    requires count != val && Distance(count, endVal) <= Distance(val, endVal)
    ensures var next := (count + 1) % OPTGEN_SIZE;
      && Distance(next, endVal) == Distance(count, endVal) + 1 <= Distance(val, endVal)
      && Distance(val, next) < Distance(val, count)
      && !OnWalk(count, count, endVal)
      && forall i :: 0 <= i < OPTGEN_SIZE ==> (OnWalk(i, next, endVal) <==> OnWalk(i, count, endVal) || i == count)
  {
  }

  /** What a run leaves behind: the ring's counters and the number of hits. */
  datatype Ring = Ring(live: seq<nat>, hits: nat)

  /** One access at time `t`: answer the re-use window that starts at `from` (if the
      line was seen before), then clear the slot that now stands for time `t`. */
  function Step(r: Ring, cap: nat, t: nat, from: Option<nat>): (r': Ring)
    requires |r.live| == OPTGEN_SIZE
    ensures |r'.live| == OPTGEN_SIZE
  {
    var slot := t % OPTGEN_SIZE;
    if from.Some? && HasRoom(r.live, cap, slot, from.value % OPTGEN_SIZE) then
      Ring(Occupy(r.live, slot, from.value % OPTGEN_SIZE)[slot := 0], r.hits + 1)
    else
      Ring(r.live[slot := 0], r.hits)
  }

  /** Element `t` of a run is the start of the window presented at time `t`, if any. */
  type Accesses = seq<Option<nat>>

  function Run(cap: nat, run: Accesses): (r: Ring)
    ensures |r.live| == OPTGEN_SIZE
  {
    if run == [] then Ring(seq(OPTGEN_SIZE, _ => 0), 0)
    else Step(Run(cap, run[..|run| - 1]), cap, |run| - 1, run[|run| - 1])
  }

  ghost predicate WindowsUpTo(run: Accesses, longest: nat) {
    forall t :: 0 <= t < |run| && run[t].Some? ==> run[t].value <= t <= run[t].value + longest
  }

  /** The windows of a run, in the order they were presented. */
  ghost function Windows(run: Accesses): seq<Window>
    requires WindowsUpTo(run, OPTGEN_SIZE)
  {
    if run == [] then [] else
      var t := |run| - 1;
      var before := Windows(run[..t]);
      if run[t].Some? then before + [Window(run[t].value, t)] else before
  }

  lemma {:induction false} WindowsOrdered(run: Accesses)
    requires WindowsUpTo(run, OPTGEN_SIZE)
    ensures Ordered(Windows(run))
    ensures forall i :: 0 <= i < |Windows(run)| ==> Windows(run)[i].end < |run|
  {
    if run == [] {
    } else {
      WindowsOrdered(run[..|run| - 1]);
    }
  }

  /** The set of windows the ring admitted. */
  ghost function Admitted(cap: nat, run: Accesses): set<nat>
    requires WindowsUpTo(run, OPTGEN_SIZE)
  {
    Greedy(Windows(run), cap, |Windows(run)|)
  }

  /** Refinement: each of the 127 most recent time points has a slot that counts
      exactly the admitted windows covering it, and hits count admitted windows. */
  ghost predicate Refines(cap: nat, run: Accesses)
    requires WindowsUpTo(run, OPTGEN_SIZE)
  {
    var r := Run(cap, run);
    && (forall t: nat :: t < |run| < t + OPTGEN_SIZE ==>
          r.live[t % OPTGEN_SIZE] == Load(Windows(run), Admitted(cap, run), t))
    && r.hits == |Admitted(cap, run)|
  }

  lemma SlotOfTime(now: nat, from: nat, t: nat)
    requires from <= now < from + OPTGEN_SIZE && now < t + OPTGEN_SIZE && t < now
    ensures OnWalk(t % OPTGEN_SIZE, now % OPTGEN_SIZE, from % OPTGEN_SIZE) <==> from <= t
    ensures t % OPTGEN_SIZE != now % OPTGEN_SIZE
  {
  }

  lemma TimeOfSlot(now: nat, from: nat, i: nat) returns (t: nat)
    requires from <= now < from + OPTGEN_SIZE && i < OPTGEN_SIZE
    requires OnWalk(i, now % OPTGEN_SIZE, from % OPTGEN_SIZE)
    ensures from <= t < now && t % OPTGEN_SIZE == i
  {
    var lap := from / OPTGEN_SIZE;
    t := if i >= from % OPTGEN_SIZE then OPTGEN_SIZE * lap + i else OPTGEN_SIZE * (lap + 1) + i;
    assert t == from + Distance(i, from % OPTGEN_SIZE);
    DistanceIsElapsed(now, from);
  }

  lemma DistanceIsElapsed(now: nat, from: nat)
    requires from <= now < from + OPTGEN_SIZE
    ensures Distance(now % OPTGEN_SIZE, from % OPTGEN_SIZE) == now - from
  {
  }

  lemma {:induction false} WindowsSnoc(run: Accesses, from: Option<nat>)
    requires WindowsUpTo(run + [from], OPTGEN_SIZE)
    ensures WindowsUpTo(run, OPTGEN_SIZE)
    ensures Windows(run + [from]) == if from.Some? then Windows(run) + [Window(from.value, |run|)] else Windows(run)
  {
    assert (run + [from])[..|run|] == run;
    forall t | 0 <= t < |run| && run[t].Some? ensures run[t].value <= t <= run[t].value + OPTGEN_SIZE {
      assert (run + [from])[t] == run[t];
    }
  }

  /** Greedy looks only at the windows it has been given so far. */
  lemma {:induction false} GreedyPrefix(ws: seq<Window>, w: Window, cap: nat, n: nat)
    requires n <= |ws|
    ensures Greedy(ws + [w], cap, n) == Greedy(ws, cap, n)
  {
    if n == 0 {
    } else {
      GreedyPrefix(ws, w, cap, n - 1);
      var g := Greedy(ws, cap, n - 1);
      forall t: nat ensures Load(ws + [w], g, t) == Load(ws, g, t) {
        assert Covering(ws + [w], g, t) == Covering(ws, g, t);
      }
    }
  }

  /** Adding the newest window `w` to the online choice. */
  lemma AdmitNewest(ws: seq<Window>, w: Window, cap: nat)
    ensures var g := Greedy(ws, cap, |ws|);
      var g' := Greedy(ws + [w], cap, |ws| + 1);
      && g' == (if Room(ws, g, cap, w) then g + {|ws|} else g)
      && |g'| == |g| + (if Room(ws, g, cap, w) then 1 else 0)
      && forall t: nat :: Load(ws + [w], g', t) ==
           Load(ws, g, t) + if Room(ws, g, cap, w) && Covers(w, t) then 1 else 0
  {
    var g := Greedy(ws, cap, |ws|);
    GreedyPrefix(ws, w, cap, |ws|);
    var more := ws + [w];
    forall t: nat ensures Load(more, g, t) == Load(ws, g, t) {
      assert Covering(more, g, t) == Covering(ws, g, t);
    }
    forall t: nat ensures Load(more, g + {|ws|}, t) == Load(ws, g, t) + if Covers(w, t) then 1 else 0 {
      LoadAdd(more, g, |ws|, t);
    }
  }

  /** The ring walk asks the same question as the timeline. */
  lemma RoomAgrees(cap: nat, run: Accesses, from: nat)
    requires WindowsUpTo(run, OPTGEN_SIZE) && Refines(cap, run)
    requires from <= |run| < from + OPTGEN_SIZE
    ensures HasRoom(Run(cap, run).live, cap, |run| % OPTGEN_SIZE, from % OPTGEN_SIZE)
       <==> Room(Windows(run), Admitted(cap, run), cap, Window(from, |run|))
  {
    var now, live := |run|, Run(cap, run).live;
    var ws, g := Windows(run), Admitted(cap, run);
    if HasRoom(live, cap, now % OPTGEN_SIZE, from % OPTGEN_SIZE) {
      forall t: nat | Covers(Window(from, now), t) ensures Load(ws, g, t) < cap {
        SlotOfTime(now, from, t);
        assert live[t % OPTGEN_SIZE] == Load(ws, g, t);
      }
    } else {
      var i :| 0 <= i < OPTGEN_SIZE && OnWalk(i, now % OPTGEN_SIZE, from % OPTGEN_SIZE) && live[i] >= cap;
      var t := TimeOfSlot(now, from, i);
      assert Covers(Window(from, now), t);
      assert live[t % OPTGEN_SIZE] == Load(ws, g, t);
    }
  }

  lemma NothingCoversNow(ws: seq<Window>, chosen: set<nat>, now: nat)
    requires forall i :: 0 <= i < |ws| ==> ws[i].end <= now
    ensures Load(ws, chosen, now) == 0
  {
    assert Covering(ws, chosen, now) == {};
  }

  lemma StepRefines(cap: nat, run: Accesses, from: Option<nat>)
    requires WindowsUpTo(run, OPTGEN_SIZE) && Refines(cap, run)
    requires from.Some? ==> from.value <= |run| < from.value + OPTGEN_SIZE
    requires WindowsUpTo(run + [from], OPTGEN_SIZE)
    ensures Refines(cap, run + [from])
  {
    var now, more := |run|, run + [from];
    var ws, g := Windows(run), Admitted(cap, run);
    var r, r' := Run(cap, run), Run(cap, more);
    assert more[..now] == run;
    assert r' == Step(r, cap, now, from);
    WindowsSnoc(run, from);
    WindowsOrdered(more);
    if from.Some? {
      AdmitNewest(ws, Window(from.value, now), cap);
      RoomAgrees(cap, run, from.value);
    }
    forall t: nat | t < now + 1 < t + OPTGEN_SIZE
      ensures r'.live[t % OPTGEN_SIZE] == Load(Windows(more), Admitted(cap, more), t)
    {
      if t == now {
        NothingCoversNow(Windows(more), Admitted(cap, more), now);
      } else if from.Some? {
        SlotOfTime(now, from.value, t);
      } else {
        SlotOfTime(now, now, t);
      }
    }
  }

  lemma {:induction false} RingRefinesTimeline(cap: nat, run: Accesses)
    requires WindowsUpTo(run, OPTGEN_SIZE - 1)
    ensures Refines(cap, run)
  {
    if run != [] {
      var now := |run| - 1;
      var before := run[..now];
      assert run == before + [run[now]];
      RingRefinesTimeline(cap, before);
      WindowsSnoc(before, run[now]);
      StepRefines(cap, before, run[now]);
    } else {
      assert Windows(run) == [];
    }
  }

  /** The hit count is optimal on every run whose windows are at most 127 long. */
  lemma HitsAreOptimal(cap: nat, run: Accesses)
    requires WindowsUpTo(run, OPTGEN_SIZE - 1)
    ensures IsOptimum(Windows(run), cap, Run(cap, run).hits)
  {
    RingRefinesTimeline(cap, run);
    WindowsOrdered(run);
    GreedyReachesOptimum(Windows(run), cap);
  }

  // Windows of exactly OPTGEN_SIZE accesses: both ends fall in one slot, the walk is
  // empty, and the ring says yes without looking at, or marking, any slot.

  predicate WholeRing(t: nat, from: Option<nat>) {
    from.Some? && t == from.value + OPTGEN_SIZE
  }

  function WithoutWholeRing(run: Accesses): (r: Accesses)
    ensures |r| == |run|
  {
    if run == [] then [] else
      var t := |run| - 1;
      WithoutWholeRing(run[..t]) + [if WholeRing(t, run[t]) then None else run[t]]
  }

  function CountWholeRing(run: Accesses): nat {
    if run == [] then 0 else
      var t := |run| - 1;
      CountWholeRing(run[..t]) + if WholeRing(t, run[t]) then 1 else 0
  }

  lemma {:induction false} WithoutWholeRingIsShort(run: Accesses)
    requires WindowsUpTo(run, OPTGEN_SIZE)
    ensures WindowsUpTo(WithoutWholeRing(run), OPTGEN_SIZE - 1)
  {
    if run == [] {
    } else {
      WithoutWholeRingIsShort(run[..|run| - 1]);
    }
  }

  lemma {:induction false} WholeRingWindowsAreFree(cap: nat, run: Accesses)
    requires WindowsUpTo(run, OPTGEN_SIZE)
    ensures Run(cap, run).live == Run(cap, WithoutWholeRing(run)).live
    ensures Run(cap, run).hits == Run(cap, WithoutWholeRing(run)).hits + CountWholeRing(run)
  {
    if run == [] {
    } else {
      var t := |run| - 1;
      var short := WithoutWholeRing(run);
      WholeRingWindowsAreFree(cap, run[..t]);
      assert short[..t] == WithoutWholeRing(run[..t]);
      var r := Run(cap, run[..t]);
      StepShiftsHits(r, Run(cap, short[..t]), cap, t, short[t]);
      if WholeRing(t, run[t]) {
        WholeRingStep(r, cap, t, run[t]);
      }
    }
  }

  lemma WholeRingStep(r: Ring, cap: nat, t: nat, from: Option<nat>)
    requires |r.live| == OPTGEN_SIZE && WholeRing(t, from)
    ensures Step(r, cap, t, from) == Ring(Step(r, cap, t, None).live, r.hits + 1)
  {
    var slot := t % OPTGEN_SIZE;
    assert slot == from.value % OPTGEN_SIZE && Distance(slot, slot) == 0;
    assert Occupy(r.live, slot, slot) == r.live;
  }

  lemma StepShiftsHits(a: Ring, b: Ring, cap: nat, t: nat, from: Option<nat>)
    requires |a.live| == OPTGEN_SIZE && a.live == b.live
    ensures var a', b' := Step(a, cap, t, from), Step(b, cap, t, from);
      a'.live == b'.live && a'.hits - a.hits == b'.hits - b.hits
  {
  }

  /** The hit count of any run: the optimum over the windows shorter than the ring, plus
      one for every window exactly as long as the ring. */
  lemma HitsInGeneral(cap: nat, run: Accesses) returns (optimum: nat)
    requires WindowsUpTo(run, OPTGEN_SIZE)
    ensures WindowsUpTo(WithoutWholeRing(run), OPTGEN_SIZE)
    ensures IsOptimum(Windows(WithoutWholeRing(run)), cap, optimum)
    ensures Run(cap, run).hits == optimum + CountWholeRing(run)
  {
    WithoutWholeRingIsShort(run);
    HitsAreOptimal(cap, WithoutWholeRing(run));
    WholeRingWindowsAreFree(cap, run);
    optimum := Run(cap, WithoutWholeRing(run)).hits;
  }

  /** A ring answer for a window of length `length` is right after every short history. */
  ghost predicate AlwaysRight(length: nat)
    requires length <= OPTGEN_SIZE
  {
    forall cap: nat, run: Accesses, from: nat ::
      WindowsUpTo(run, OPTGEN_SIZE - 1) && from + length == |run| ==>
        (HasRoom(Run(cap, run).live, cap, |run| % OPTGEN_SIZE, from % OPTGEN_SIZE) <==>
         Room(Windows(run), Admitted(cap, run), cap, Window(from, |run|)))
  }

  lemma {:induction false} IdleRun(n: nat) returns (run: Accesses)
    ensures |run| == n && WindowsUpTo(run, 0) && Windows(run) == [] && CountWholeRing(run) == 0
    ensures forall t :: 0 <= t < n ==> run[t] == None
  {
    if n == 0 {
      run := [];
    } else {
      var before := IdleRun(n - 1);
      run := before + [None];
      assert run[..n - 1] == before;
      forall t | 0 <= t < n ensures run[t] == None {
        if t < n - 1 { assert run[t] == before[t]; }
      }
      WindowsSnoc(before, None);
    }
  }

  /** Exactly the windows shorter than the ring are always answered correctly. */
  lemma RightExactlyBelowRingSize(length: nat)
    requires length <= OPTGEN_SIZE
    ensures AlwaysRight(length) <==> length < OPTGEN_SIZE
  {
    if length < OPTGEN_SIZE {
      forall cap: nat, run: Accesses, from: nat | WindowsUpTo(run, OPTGEN_SIZE - 1) && from + length == |run|
        ensures HasRoom(Run(cap, run).live, cap, |run| % OPTGEN_SIZE, from % OPTGEN_SIZE) <==>
                Room(Windows(run), Admitted(cap, run), cap, Window(from, |run|))
      {
        RingRefinesTimeline(cap, run);
        RoomAgrees(cap, run, from);
      }
    } else {
      var run := IdleRun(OPTGEN_SIZE);
      assert Covers(Window(0, OPTGEN_SIZE), 0);
      assert !Room(Windows(run), Admitted(0, run), 0, Window(0, OPTGEN_SIZE));
      assert HasRoom(Run(0, run).live, 0, |run| % OPTGEN_SIZE, 0 % OPTGEN_SIZE);
    }
  }

  /** Two overlapping windows of whole-ring length in a one-way cache: both are counted
      as hits although only one of them can be kept. */
  lemma WholeRingOvercounts() returns (run: Accesses)
    ensures WindowsUpTo(run, OPTGEN_SIZE) && Run(1, run).hits == 2
    ensures IsOptimum(Windows(run), 1, 1)
  {
    run := TwoWholeRings();
    AllWholeRing(1, run);
    WindowsOrdered(run);
    OneOfTwo(Windows(run));
  }

  lemma TwoWholeRings() returns (run: Accesses)
    ensures WindowsUpTo(run, OPTGEN_SIZE) && Windows(run) == [Window(0, 128), Window(1, 129)]
    ensures CountWholeRing(run) == 2
    ensures forall t :: 0 <= t < |run| && run[t].Some? ==> WholeRing(t, run[t])
  {
    var idle := IdleRun(OPTGEN_SIZE);
    var one := idle + [Some(0)];
    run := one + [Some(1)];
    assert one[..OPTGEN_SIZE] == idle && run[..OPTGEN_SIZE + 1] == one;
    WindowsSnoc(one, Some(1));
    WindowsSnoc(idle, Some(0));
    forall t | 0 <= t < |run| && run[t].Some? ensures WholeRing(t, run[t]) {
      assert t >= OPTGEN_SIZE;
    }
  }

  lemma OneOfTwo(ws: seq<Window>)
    requires ws == [Window(0, 128), Window(1, 129)] && Ordered(ws)
    ensures IsOptimum(ws, 1, 1)
  {
    GreedyReachesOptimum(ws, 1);
    var m := |Greedy(ws, 1, 2)|;
    var first := {0};
    forall t: nat ensures Load(ws, first, t) <= 1 {
      assert Covering(ws, first, t) <= first;
      CardinalityMonotone(Covering(ws, first, t), first);
    }
    assert Fits(ws, first, 1);
    var best: set<nat> :| Fits(ws, best, 1) && |best| == m;
    assert |first| == 1;
    var both: set<nat> := {0, 1};
    CardinalityMonotone(best, both);
    BothOverlap(ws, best);
  }

  lemma BothOverlap(ws: seq<Window>, s: set<nat>)
    requires |ws| == 2 && Covers(ws[0], 1) && Covers(ws[1], 1) && s <= {0, 1}
    ensures Load(ws, s, 1) == |s|
  {
    assert Covering(ws, s, 1) == s;
  }

  lemma {:induction false} AllWholeRing(cap: nat, run: Accesses)
    requires WindowsUpTo(run, OPTGEN_SIZE)
    requires forall t :: 0 <= t < |run| && run[t].Some? ==> WholeRing(t, run[t])
    ensures Run(cap, run).hits == CountWholeRing(run)
  {
    if run == [] {
    } else {
      var t := |run| - 1;
      AllWholeRing(cap, run[..t]);
      if WholeRing(t, run[t]) {
        assert Distance(t % OPTGEN_SIZE, run[t].value % OPTGEN_SIZE) == 0;
      }
    }
  }
}
