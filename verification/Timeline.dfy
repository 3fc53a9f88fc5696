/** The offline problem that OPTgen solves online. An access at time `end` re-uses a
    line last touched at time `start`; keeping the line costs one cache way at every
    time point in between. A choice of windows fits a cache of `cap` ways when no time
    point is covered by more than `cap` chosen windows. */
module Timeline {

  datatype Window = Window(start: nat, end: nat)

  predicate Covers(w: Window, t: nat) {
    w.start <= t < w.end
  }

  /** Windows arrive in order of their right end points, one at most per time. */
  ghost predicate Ordered(ws: seq<Window>) {
    && (forall i :: 0 <= i < |ws| ==> ws[i].start <= ws[i].end)
    && (forall i, j :: 0 <= i < j < |ws| ==> ws[i].end < ws[j].end)
  }

  ghost function Covering(ws: seq<Window>, chosen: set<nat>, t: nat): set<nat> {
    set i | i in chosen && i < |ws| && Covers(ws[i], t)
  }

  ghost function Load(ws: seq<Window>, chosen: set<nat>, t: nat): nat {
    |Covering(ws, chosen, t)|
  }

  ghost predicate Fits(ws: seq<Window>, chosen: set<nat>, cap: nat) {
    && (forall i :: i in chosen ==> i < |ws|)
    && (forall t: nat :: Load(ws, chosen, t) <= cap)
  }

  ghost predicate Room(ws: seq<Window>, chosen: set<nat>, cap: nat, w: Window) {
    forall t: nat :: Covers(w, t) ==> Load(ws, chosen, t) < cap
  }

  /** The online policy: take each window, in order, exactly when it still has room. */
  ghost function Greedy(ws: seq<Window>, cap: nat, n: nat): (chosen: set<nat>)
    requires n <= |ws|
    ensures forall i :: i in chosen ==> i < n
  {
    if n == 0 then {}
    else
      var g := Greedy(ws, cap, n - 1);
      if Room(ws, g, cap, ws[n - 1]) then g + {n - 1} else g
  }

  lemma LoadAdd(ws: seq<Window>, chosen: set<nat>, i: nat, t: nat)
    requires i < |ws| && i !in chosen
    ensures Load(ws, chosen + {i}, t) == Load(ws, chosen, t) + if Covers(ws[i], t) then 1 else 0
  {
    if Covers(ws[i], t) {
      assert Covering(ws, chosen + {i}, t) == Covering(ws, chosen, t) + {i};
    } else {
      assert Covering(ws, chosen + {i}, t) == Covering(ws, chosen, t);
    }
  }

  lemma {:induction false} GreedyFits(ws: seq<Window>, cap: nat, n: nat)
    requires n <= |ws|
    ensures Fits(ws, Greedy(ws, cap, n), cap)
  {
    if n == 0 {
      assert forall t: nat :: Covering(ws, {}, t) == {};
    } else {
      var g := Greedy(ws, cap, n - 1);
      GreedyFits(ws, cap, n - 1);
      if Room(ws, g, cap, ws[n - 1]) {
        var wider := g + {n - 1};
        forall t: nat ensures Load(ws, wider, t) <= cap {
          LoadAdd(ws, g, n - 1, t);
        }
      }
    }
  }

  lemma {:induction false} EarliestStart(ws: seq<Window>, s: set<nat>) returns (x: nat)
    requires s != {} && forall i :: i in s ==> i < |ws|
    ensures x in s && forall i :: i in s ==> ws[x].start <= ws[i].start
    decreases |s|
  {
    x :| x in s;
    if s != {x} {
      var y := EarliestStart(ws, s - {x});
      if ws[y].start < ws[x].start { x := y; }
    }
  }

  /** The swap: greedy has room for window `n`, a rival choice that agrees so far skipped
      it. Taking it and giving up the rival's later window with the earliest start
      (if there is one) keeps the rival feasible and no smaller. */
  lemma Exchange(ws: seq<Window>, cap: nat, n: nat, rival: set<nat>) returns (better: set<nat>)
    requires Ordered(ws) && n < |ws| && Fits(ws, rival, cap)
    requires (set i | i in rival && i < n) == Greedy(ws, cap, n)
    ensures Fits(ws, better, cap) && |better| >= |rival|
    ensures (set i | i in better && i < n + 1) == Greedy(ws, cap, n + 1)
  {
    hide Fits, Room, Load, Ordered;
    var g := Greedy(ws, cap, n);
    if n in rival {
      better := rival;
      RivalShowsRoom(ws, cap, n, g, rival);
      assert (set i | i in better && i < n + 1) == g + {n};
    } else if !Room(ws, g, cap, ws[n]) {
      better := rival;
      assert (set i | i in better && i < n + 1) == g;
    } else {
      GreedyFits(ws, cap, n);
      better := Swap(ws, cap, n, g, rival);
      assert (set i | i in better && i < n + 1) == g + {n};
    }
  }

  lemma RivalShowsRoom(ws: seq<Window>, cap: nat, n: nat, g: set<nat>, rival: set<nat>)
    requires n < |ws| && Fits(ws, rival, cap) && n in rival && n !in g && g <= rival
    ensures Room(ws, g, cap, ws[n])
  {
    forall t: nat | Covers(ws[n], t) ensures Load(ws, g, t) < cap {
      LoadAdd(ws, g, n, t);
      SubsetLoad(ws, g + {n}, rival, t);
    }
  }

  lemma Swap(ws: seq<Window>, cap: nat, n: nat, g: set<nat>, rival: set<nat>) returns (better: set<nat>)
    requires Ordered(ws) && n < |ws| && Fits(ws, rival, cap) && n !in rival && Room(ws, g, cap, ws[n])
    requires Fits(ws, g, cap)
    requires g == set i | i in rival && i < n
    ensures Fits(ws, better, cap) && |better| >= |rival|
    ensures n in better && g <= better && forall i :: i in better && i < n ==> i in g
  {
    var later := set i | i in rival && n < i;
    assert rival == g + later;
    if later == {} {
      better := g + {n};
      forall t: nat ensures Load(ws, better, t) <= cap { LoadAdd(ws, g, n, t); }
    } else {
      var x := EarliestStart(ws, later);
      assert rival - later == g;
      better := rival - {x} + {n};
      forall t: nat ensures Load(ws, better, t) <= cap {
        SwapFits(ws, cap, n, rival, later, x, t);
      }
      assert |better| == |rival|;
    }
  }

  lemma SubsetLoad(ws: seq<Window>, a: set<nat>, b: set<nat>, t: nat)
    requires a <= b
    ensures Load(ws, a, t) <= Load(ws, b, t)
  {
    var rest := Covering(ws, b, t) - Covering(ws, a, t);
    assert Covering(ws, b, t) == Covering(ws, a, t) + rest;
  }

  lemma SwapFits(ws: seq<Window>, cap: nat, n: nat, rival: set<nat>, later: set<nat>, x: nat, t: nat)
    requires Ordered(ws) && n < |ws| && Fits(ws, rival, cap) && n !in rival
    requires later == (set i | i in rival && n < i) && x in later
    requires forall i :: i in later ==> ws[x].start <= ws[i].start
    requires Room(ws, rival - later, cap, ws[n])
    ensures Load(ws, rival - {x} + {n}, t) <= cap
  {
    LoadAdd(ws, rival - {x}, n, t);
    LoadAdd(ws, rival - {x}, x, t);
    assert rival - {x} + {x} == rival;
    if Covers(ws[n], t) && !Covers(ws[x], t) {
      assert Covering(ws, rival - {x}, t) == Covering(ws, rival - later, t);
    }
  }

  /** No choice that fits keeps more windows than the online policy does. */
  lemma {:induction false} GreedyIsOptimal(ws: seq<Window>, cap: nat, n: nat, rival: set<nat>)
    requires Ordered(ws) && n <= |ws| && Fits(ws, rival, cap)
    requires (set i | i in rival && i < n) == Greedy(ws, cap, n)
    ensures |rival| <= |Greedy(ws, cap, |ws|)|
    decreases |ws| - n
  {
    if n == |ws| {
      assert rival == (set i | i in rival && i < n);
    } else {
      var better := Exchange(ws, cap, n, rival);
      GreedyIsOptimal(ws, cap, n + 1, better);
    }
  }

  /** `m` is the best any choice can do. */
  ghost predicate IsOptimum(ws: seq<Window>, cap: nat, m: nat) {
    && (exists best :: Fits(ws, best, cap) && |best| == m)
    && (forall rival :: Fits(ws, rival, cap) ==> |rival| <= m)
  }

  lemma GreedyReachesOptimum(ws: seq<Window>, cap: nat)
    requires Ordered(ws)
    ensures IsOptimum(ws, cap, |Greedy(ws, cap, |ws|)|)
  {
    GreedyFits(ws, cap, |ws|);
    forall rival | Fits(ws, rival, cap) ensures |rival| <= |Greedy(ws, cap, |ws|)| {
      assert (set i | i in rival && i < 0) == {};
      GreedyIsOptimal(ws, cap, 0, rival);
    }
  }
}
