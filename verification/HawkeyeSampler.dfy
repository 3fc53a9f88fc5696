/** The Hawkeye sampler: a short recency list of tags that presents re-use windows to OPTgen. */
module HawkeyeSampler {
  import opened Options
  import opened Listings
  import opened Ranks
  import opened Optgen
  import Timeline

  const SAMPLER_HIST: nat := 8
  const TIMER_SIZE: nat := 1024
  const OPT_WAYS: nat := 14

  datatype History = History(pc: nat, previous: nat, lru: nat)

  type Sampled = map<nat, History>

  function RankOf(m: Sampled): Rank {
    map x | x in m :: m[x].lru
  }

  function Cut(s: seq<nat>, n: nat): seq<nat> {
    if |s| > n then s[..n] else s
  }

  /** The tags a sampler set holds: the eight used last. */
  function Held(uses: seq<nat>): seq<nat> {
    Cut(Recents(uses), SAMPLER_HIST)
  }

  /** Entries newer than `limit` move down by one. */
  function Aged(m: Sampled, limit: nat): Sampled {
    map x | x in m :: if m[x].lru < limit then m[x].(lru := m[x].lru + 1) else m[x]
  }

  ghost predicate Holds(m: Sampled, uses: seq<nat>) {
    Ranked(RankOf(m), Held(uses)) && forall x :: x in m ==> m[x].previous < TIMER_SIZE
  }

  /** The sampler set never holds more than eight tags, and they are the last ones used. */
  lemma HoldsTheLastEight(m: Sampled, uses: seq<nat>, x: nat, y: nat)
    requires Holds(m, uses) && x in m && y in uses
    ensures |m| <= SAMPLER_HIST
    ensures y !in m ==> LastUse(uses, y) < LastUse(uses, x) && |m| == SAMPLER_HIST
    ensures y in m && m[x].lru < m[y].lru ==> LastUse(uses, y) < LastUse(uses, x)
  {
    var r, held := Recents(uses), Held(uses);
    assert held <= r && (|held| == SAMPLER_HIST || held == r) && |held| <= SAMPLER_HIST;
    hide Recents, LastUse, Held;
    RecentsByLastUse(uses);
    SizeOf(RankOf(m), held);
    assert RankOf(m).Keys == m.Keys;
    assert held[m[x].lru] == x;
    assert y in r;
    var k :| 0 <= k < |r| && r[k] == y;
    if k < |held| { assert held[k] in RankOf(m); }
    if y in m { assert held[m[y].lru] == y; }
  }

  lemma {:induction false} DropCut(r: seq<nat>, x: nat, n: nat)
    requires NoRepeats(r)
    ensures Cut(Drop(r, x), n) == Cut(Drop(Cut(r, n + 1), x), n)
  {
    if r == [] {
    } else {
      var c := Cut(r, n + 1);
      assert c[0] == r[0] && c[1..] == Cut(r[1..], n);
      if r[0] == x {
        assert x !in r[1..];
        DropNothing(r[1..], x);
        DropNothing(c[1..], x);
      } else if n > 0 {
        DropCut(r[1..], x, n - 1);
        assert Cut(Drop(r, x), n) == [r[0]] + Cut(Drop(r[1..], x), n - 1);
        assert Cut(Drop(c, x), n) == [r[0]] + Cut(Drop(c[1..], x), n - 1);
      }
    }
  }

  lemma HeldStep(uses: seq<nat>, x: nat)
    ensures Held(uses + [x]) == Cut([x] + Drop(Held(uses), x), SAMPLER_HIST)
  {
    RecentsByLastUse(uses);
    DropCut(Recents(uses), x, SAMPLER_HIST - 1);
    assert (uses + [x])[..|uses|] == uses;
    CutCons(x, Drop(Recents(uses), x));
    CutCons(x, Drop(Held(uses), x));
  }

  lemma CutCons(x: nat, s: seq<nat>)
    ensures Cut([x] + s, SAMPLER_HIST) == [x] + Cut(s, SAMPLER_HIST - 1)
  {
  }

  // ---- Times ----

  /** Before the first access the ring stands as after any number of idle ones. */
  function Idle(n: nat): (run: Accesses)
    ensures |run| == n
  {
    seq(n, _ => None)
  }

  lemma {:induction false} IdleLeavesZeros(cap: nat, n: nat)
    ensures Optgen.Run(cap, Idle(n)) == Ring(seq(OPTGEN_SIZE, _ => 0), 0)
  {
    if n == 0 {
    } else {
      IdleLeavesZeros(cap, n - 1);
      assert Idle(n)[..n - 1] == Idle(n - 1);
    }
  }

  /** Accesses since `previous`, on a clock of 1024. */
  function Elapsed(timer: nat, previous: nat): (d: nat)
    requires timer < TIMER_SIZE && previous < TIMER_SIZE
    ensures d < TIMER_SIZE
  {
    if timer < previous then timer + TIMER_SIZE - previous else timer - previous
  }

  /** The window presented for an entry last seen at `previous`, `now` accesses into the run. */
  function Presented(now: nat, previous: nat): Option<nat>
    requires previous < TIMER_SIZE && TIMER_SIZE <= now
  {
    var d := Elapsed(now % TIMER_SIZE, previous);
    if d > OPTGEN_SIZE then None else Some(now - d)
  }

  lemma SameSlot(now: nat, q: int, rest: nat)
    requires now == TIMER_SIZE * q + rest
    ensures now % OPTGEN_SIZE == rest % OPTGEN_SIZE
  {
    assert now == OPTGEN_SIZE * (8 * q) + rest;
  }

  /** The slot the sampler computes is the slot of the presented time. */
  lemma PresentedSlot(now: nat, previous: nat)
    requires previous < TIMER_SIZE && TIMER_SIZE <= now
    ensures now % TIMER_SIZE % OPTGEN_SIZE == now % OPTGEN_SIZE
    ensures
      var from := Presented(now, previous);
      from.Some? ==> from.value % OPTGEN_SIZE == previous % OPTGEN_SIZE && from.value <= now <= from.value + OPTGEN_SIZE
  {
    var timer := now % TIMER_SIZE;
    var q := now / TIMER_SIZE;
    SameSlot(now, q, timer);
    if Elapsed(timer, previous) <= OPTGEN_SIZE {
      SameSlot(now - Elapsed(timer, previous), if timer < previous then q - 1 else q, previous);
    }
  }

  // ---- What the entries remember ----

  /** One access that went to a sampler set: from which cache set, and as which of its accesses. */
  datatype Use = Use(tag: nat, set': nat, time: nat, pc: nat)

  function Tags(log: seq<Use>): (s: seq<nat>)
    ensures |s| == |log|
  {
    seq(|log|, i requires 0 <= i < |log| => log[i].tag)
  }

  /** The entry of each tag holds the time, on the clock of 1024, and the pc of its last use. */
  ghost predicate Remembers(m: Sampled, log: seq<Use>) {
    forall x :: x in m ==>
      var n := LastUse(Tags(log), x);
      n > 0 && m[x].previous == log[n - 1].time % TIMER_SIZE && m[x].pc == log[n - 1].pc
  }

  lemma TagsSnoc(log: seq<Use>, u: Use)
    ensures Tags(log + [u]) == Tags(log) + [u.tag]
    ensures LastUse(Tags(log + [u]), u.tag) == |log| + 1
    ensures forall x :: x != u.tag ==> LastUse(Tags(log + [u]), x) == LastUse(Tags(log), x)
  {
    assert (Tags(log) + [u.tag])[..|log|] == Tags(log);
  }

  /** A use stores its time and pc in the entry of its tag, as the most recent one; the
      entries that stay keep theirs, and only the one with the last rank of a full set goes. */
  ghost predicate StoresUse(m: Sampled, tag: nat, now: nat, pc: nat, r: Sampled) {
    && tag in r && r[tag] == History(pc, now, 0)
    && (forall x :: x in r && x != tag ==> x in m && r[x].previous == m[x].previous && r[x].pc == m[x].pc)
    && (forall x :: x in m && x !in r ==> tag !in m && |m| == SAMPLER_HIST && m[x].lru == SAMPLER_HIST - 1)
  }

  lemma TouchedTimes(m: Sampled, tag: nat, now: nat, pc: nat)
    ensures StoresUse(m, tag, now, pc, Touched(m, tag, now, pc))
  {
  }

  lemma TouchedRemembers(m: Sampled, tag: nat, pc: nat, set': nat, time: nat, log: seq<Use>, r: Sampled)
    requires Remembers(m, log) && StoresUse(m, tag, time % TIMER_SIZE, pc, r)
    ensures Remembers(r, log + [Use(tag, set', time, pc)])
  {
    var log' := log + [Use(tag, set', time, pc)];
    TagsSnoc(log, Use(tag, set', time, pc));
    hide LastUse, Tags;
    forall x | x in r
      ensures var n := LastUse(Tags(log'), x);
        n > 0 && r[x].previous == log'[n - 1].time % TIMER_SIZE && r[x].pc == log'[n - 1].pc
    {
      if x != tag {
        assert x in m && LastUse(Tags(log'), x) == LastUse(Tags(log), x);
      }
    }
  }

  /** What use number `j` of a sampler set presents: a window from the last use before it, if
      the tag is still one of the eight used last. */
  ghost function ReuseOf(log: seq<Use>, j: nat): Option<nat>
    requires j < |log| && log[j].time >= TIMER_SIZE
  {
    var before := Tags(log)[..j];
    var n := LastUse(before, log[j].tag);
    if n == 0 || log[j].tag !in Held(before) then None else Presented(log[j].time, log[n - 1].time % TIMER_SIZE)
  }

  lemma ReuseOfPrefix(log: seq<Use>, u: Use, j: nat)
    requires j < |log| && log[j].time >= TIMER_SIZE
    ensures ReuseOf(log + [u], j) == ReuseOf(log, j)
  {
    assert Tags(log + [u])[..j] == Tags(log)[..j];
  }

  /** A use presents what the entry of its tag says. */
  lemma ReuseOfEntry(m: Sampled, log: seq<Use>, u: Use)
    requires Holds(m, Tags(log)) && Remembers(m, log) && u.time >= TIMER_SIZE
    ensures u.tag in m ==> m[u.tag].previous < TIMER_SIZE
    ensures ReuseOf(log + [u], |log|) == PresentedIf(u.time, if u.tag in m then Some(m[u.tag].previous) else None)
  {
    var before := Tags(log);
    assert Tags(log + [u])[..|log|] == before;
    assert u.tag in m <==> u.tag in Held(before) by {
      hide Recents, LastUse;
      assert RankOf(m).Keys == m.Keys;
      if u.tag in Held(before) { assert u.tag in RankOf(m); }
    }
  }

  // ---- Windows are re-use windows ----

  /** When the last use came from the same cache set, the window presented is the re-use
      window, or none if that is longer than 128 accesses, exactly unless the clock of 1024
      has gone round since, to within 128 accesses of it. */
  lemma PresentedIsReuse(now: nat, last: nat)
    requires TIMER_SIZE <= last < now
    ensures Presented(now, last % TIMER_SIZE) == (if now - last <= OPTGEN_SIZE then Some(last) else None)
      <==> now - last < TIMER_SIZE || (now - last) % TIMER_SIZE > OPTGEN_SIZE
  {
    ElapsedIs(now, last);
  }

  lemma ElapsedIs(now: nat, last: nat)
    requires last < now
    ensures Elapsed(now % TIMER_SIZE, last % TIMER_SIZE) == (now - last) % TIMER_SIZE
  {
    var a, b, r := now % TIMER_SIZE, last % TIMER_SIZE, Elapsed(now % TIMER_SIZE, last % TIMER_SIZE);
    var q := now / TIMER_SIZE - last / TIMER_SIZE - if a < b then 1 else 0;
    assert now - last == TIMER_SIZE * q + r;
    DivisionOf(now - last, q, r);
  }

  lemma DivisionOf(n: nat, q: int, r: nat)
    requires n == TIMER_SIZE * q + r && r < TIMER_SIZE
    ensures n % TIMER_SIZE == r
  {
  }

  /** A line used again after 1026 accesses is presented as used again after two. */
  lemma RoundTheClock()
    ensures Presented(2050, 1024 % TIMER_SIZE) == Some(2048)
  {
  }

  // ---- The sampler object ----

  /** The ring and the clock of one cache set after the accesses in `run`. */
  ghost predicate RingShows(o: OPTgen, timer: nat, run: Accesses)
    reads o, o.liveness
  {
    && o.Valid() && o.cacheSize == OPT_WAYS
    && |run| >= TIMER_SIZE && timer == |run| % TIMER_SIZE
    && WindowsUpTo(run, OPTGEN_SIZE)
    && Ring(o.liveness[..], o.numCache) == Optgen.Run(OPT_WAYS, run)
  }

  function PresentedIf(now: nat, previous: Option<nat>): Option<nat>
    requires TIMER_SIZE <= now && (previous.Some? ==> previous.value < TIMER_SIZE)
  {
    if previous.Some? then Presented(now, previous.value) else None
  }

  lemma Tick(n: nat)
    ensures (n + 1) % TIMER_SIZE == (n % TIMER_SIZE + 1) % TIMER_SIZE
  {
  }

  /** Asks the ring about a line last seen at `previous`, and records the access. */
  method Present(o: OPTgen, timer: nat, previous: Option<nat>, ghost run: Accesses) returns (hit: bool)
    requires RingShows(o, timer, run) && (previous.Some? ==> previous.value < TIMER_SIZE)
    modifies o, o.liveness
    ensures o.liveness == old(o.liveness)
    ensures RingShows(o, (timer + 1) % TIMER_SIZE, run + [PresentedIf(|run|, previous)])
    ensures hit <==> Optgen.Run(OPT_WAYS, run + [PresentedIf(|run|, previous)]).hits > Optgen.Run(OPT_WAYS, run).hits
  {
    hide Optgen.Run, Occupy, HasRoom;
    var currentVal := timer % OPTGEN_SIZE;
    RunSnoc(run, PresentedIf(|run|, previous));
    PresentedSlot(|run|, if previous.Some? then previous.value else 0);
    Tick(|run|);
    hit := false;
    if previous.Some? {
      var currentTime := timer;
      if currentTime < previous.value { currentTime := currentTime + TIMER_SIZE; }
      var isWrap := currentTime - previous.value > OPTGEN_SIZE;
      if !isWrap { hit := o.IsCache(currentVal, previous.value % OPTGEN_SIZE); }
    }
    o.SetAccess(currentVal);
  }

  class Sampler {
    /** Per sampler set, and per cache set. */
    var history: seq<Sampled>
    var timer: seq<nat>
    const optgen: seq<OPTgen>
    /** The accesses that went to each sampler set, and what was presented to each OPTgen. */
    ghost var log: seq<seq<Use>>
    ghost var runs: seq<Accesses>

    ghost predicate Separate()
      reads optgen
    {
      forall i, j :: 0 <= i < j < |optgen| ==> optgen[i] != optgen[j] && optgen[i].liveness != optgen[j].liveness
    }

    ghost predicate RingValid(i: nat)
      requires i < |optgen|
      reads this, optgen[i], optgen[i].liveness
    {
      i < |runs| && i < |timer| && RingShows(optgen[i], timer[i], runs[i])
    }

    ghost predicate Valid()
      reads this, optgen, set o | o in optgen :: o.liveness
    {
      && |timer| == |optgen| == |runs| && |history| == |log| && Separate()
      && (forall i :: 0 <= i < |optgen| ==> RingValid(i))
      && (forall k :: 0 <= k < |history| ==> Holds(history[k], Tags(log[k])) && Remembers(history[k], log[k]))
      && Logged(log, runs)
    }

    constructor (sets: nat, sampleSets: nat)
      ensures Valid() && |optgen| == sets && |history| == sampleSets
      ensures log == seq(sampleSets, _ => []) && runs == seq(sets, _ => Idle(TIMER_SIZE))
      ensures forall o :: o in optgen ==> fresh(o) && fresh(o.liveness)
    {
      var rings: seq<OPTgen> := [];
      IdleLeavesZeros(OPT_WAYS, TIMER_SIZE);
      while |rings| < sets
        invariant |rings| <= sets
        invariant forall o :: o in rings ==> fresh(o) && fresh(o.liveness) && RingShows(o, 0, Idle(TIMER_SIZE))
        invariant forall i, j :: 0 <= i < j < |rings| ==> rings[i] != rings[j] && rings[i].liveness != rings[j].liveness
      {
        var o := new OPTgen();
        o.Init(OPT_WAYS);
        rings := rings + [o];
      }
      optgen := rings;
      history := seq(sampleSets, _ => map[]);
      timer := seq(sets, _ => 0);
      log := seq(sampleSets, _ => []);
      runs := seq(sets, _ => Idle(TIMER_SIZE));
    }

    /** One pass over the entries of one sampler set. */
    static method UpdateCacheHistory(m: Sampled, limit: nat) returns (r: Sampled)
      ensures r == Aged(m, limit)
    {
      r := m;
      var keys := m.Keys;
      while keys != {}
        invariant keys <= m.Keys && r.Keys == m.Keys
        invariant forall x :: x in keys ==> r[x] == m[x]
        invariant forall x :: x in m && x !in keys ==> r[x] == Aged(m, limit)[x]
      {
        var x :| x in keys;
        if r[x].lru < limit { r := r[x := r[x].(lru := r[x].lru + 1)]; }
        keys := keys - {x};
      }
    }

    /** The entry with the last rank; address 0 if there were none. */
    static method FindOldest(m: Sampled) returns (tag: nat)
      ensures (exists x :: x in m && m[x].lru == SAMPLER_HIST - 1) ==> tag in m && m[tag].lru == SAMPLER_HIST - 1
    {
      tag := 0;
      var keys := m.Keys;
      while keys != {}
        invariant keys <= m.Keys
        invariant forall x :: x in m && x !in keys ==> m[x].lru != SAMPLER_HIST - 1
      {
        var x :| x in keys;
        if m[x].lru == SAMPLER_HIST - 1 { return x; }
        keys := keys - {x};
      }
    }

    /** The recency list of one sampler set after a use of `tag`. */
    static method Touch(m: Sampled, tag: nat, now: nat, pc: nat, ghost uses: seq<nat>) returns (r: Sampled)
      requires Holds(m, uses) && now < TIMER_SIZE
      ensures r == Touched(m, tag, now, pc)
      ensures Holds(r, uses + [tag])
      ensures StoresUse(m, tag, now, pc, r)
    {
      hide Holds, StoresUse, Touched, Aged, Kept;
      TouchedHolds(m, tag, now, pc, uses);
      TouchedTimes(m, tag, now, pc);
      r := m;
      if tag in m {
        r := UpdateCacheHistory(r, r[tag].lru);
        WrittenHeld(m, tag, now, pc, r);
      } else {
        if |r| == SAMPLER_HIST {
          FullSetHasOldest(m, uses);
          var oldest := FindOldest(r);
          OldestIsUnique(m, uses, oldest);
          r := r - {oldest};
        } else {
          NothingEvicted(m);
        }
        assert r == Kept(m);
        r := r[tag := History(0, 0, 0)];
        r := UpdateCacheHistory(r, SAMPLER_HIST - 1);
        WrittenNew(m, tag, now, pc, r);
      }
      r := r[tag := r[tag].(previous := now, pc := pc)];
      r := r[tag := r[tag].(lru := 0)];
    }

    /** One demand access of a sampled cache set: what it tells the predictor about the pc
        of the last use of the line, if the line is in the sampler. */
    method Access(set': nat, sampleSet: nat, tag: nat, pc: nat) returns (verdict: Option<(nat, bool)>)
      requires Valid() && set' < |optgen| && sampleSet < |history|
      modifies this, optgen[set'], optgen[set'].liveness
      ensures Valid()
      ensures log == old(log)[sampleSet := old(log[sampleSet]) + [Use(tag, set', |old(runs[set'])|, pc)]]
      ensures history == old(history)[sampleSet := history[sampleSet]]
      ensures StoresUse(old(history[sampleSet]), tag, old(timer[set']), pc, history[sampleSet])
      ensures timer == old(timer)[set' := (old(timer[set']) + 1) % TIMER_SIZE]
      ensures |old(runs[set'])| >= TIMER_SIZE
      ensures
        var m, run, n := old(history[sampleSet]), old(runs[set']), LastUse(Tags(old(log[sampleSet])), tag);
        var from := ReuseOf(log[sampleSet], |log[sampleSet]| - 1);
        && runs == old(runs)[set' := run + [from]] && (tag in m ==> n > 0)
        && verdict == (if tag in m
                       then Some((old(log[sampleSet])[n - 1].pc,
                                  Optgen.Run(OPT_WAYS, run + [from]).hits > Optgen.Run(OPT_WAYS, run).hits))
                       else None)
    {
      hide Holds, Optgen.Run, RingShows, Remembers, ReuseOf, LastUse, StoresUse, Logged, Touched, Tags, PresentedIf;
      ghost var run, uses := runs[set'], log[sampleSet];
      assert RingValid(set');
      var m := history[sampleSet];
      var previous := if tag in m then Some(m[tag].previous) else None;
      LongEnough(optgen[set'], timer[set'], run);
      ghost var u := Use(tag, set', |run|, pc);
      ReuseOfEntry(m, uses, u);
      var hit := Present(optgen[set'], timer[set'], previous, run);
      if tag in m { RemembersPc(m, uses, tag); }
      verdict := if tag in m then Some((m[tag].pc, hit)) else None;
      ghost var before := m;
      m := Touch(m, tag, timer[set'], pc, Tags(uses));
      TouchedRemembers(before, tag, pc, set', |run|, uses, m);
      TagsSnoc(uses, u);
      LoggedStep(log, runs, sampleSet, u, PresentedIf(|run|, previous));
      history := history[sampleSet := m];
      log := log[sampleSet := log[sampleSet] + [u]];
      timer := timer[set' := (timer[set'] + 1) % TIMER_SIZE];
      runs := runs[set' := run + [PresentedIf(|run|, previous)]];
      forall i | 0 <= i < |optgen| ensures RingValid(i) {
        assert old(RingValid(i));
        if i != set' { OtherRing(optgen, i, set'); }
      }
    }
  }

  /** Every access of a cache set presented what its sampler set had logged of its tag. */
  ghost predicate Logged(log: seq<seq<Use>>, runs: seq<Accesses>) {
    && (forall k, j :: 0 <= k < |log| && 0 <= j < |log[k]| ==> Shows(log[k], runs, j))
    && (forall k, l, j :: 0 <= k < |log| && 0 <= l < j < |log[k]| && log[k][l].set' == log[k][j].set' ==>
          log[k][l].time < log[k][j].time)
  }

  ghost predicate Shows(uses: seq<Use>, runs: seq<Accesses>, j: nat)
    requires j < |uses|
  {
    var u: Use := uses[j];
    && u.set' < |runs| && TIMER_SIZE <= u.time < |runs[u.set']|
    && runs[u.set'][u.time] == ReuseOf(uses, j)
  }

  lemma LoggedStep(log: seq<seq<Use>>, runs: seq<Accesses>, k: nat, u: Use, from: Option<nat>)
    requires Logged(log, runs) && k < |log| && u.set' < |runs| && u.time == |runs[u.set']| >= TIMER_SIZE
    requires from == ReuseOf(log[k] + [u], |log[k]|)
    ensures Logged(log[k := log[k] + [u]], runs[u.set' := runs[u.set'] + [from]])
  {
    hide ReuseOf;
    var log', runs' := log[k := log[k] + [u]], runs[u.set' := runs[u.set'] + [from]];
    forall i, j | 0 <= i < |log'| && 0 <= j < |log'[i]| ensures Shows(log'[i], runs', j) {
      if i == k && j == |log[k]| {
      } else {
        assert log'[i][j] == log[i][j] && Shows(log[i], runs, j);
        if i == k { ReuseOfPrefix(log[k], u, j); }
      }
    }
    forall i, l, j | 0 <= i < |log'| && 0 <= l < j < |log'[i]| && log'[i][l].set' == log'[i][j].set'
      ensures log'[i][l].time < log'[i][j].time
    {
      assert log'[i][l] == log[i][l] && Shows(log[i], runs, l);
    }
  }

  lemma RemembersPc(m: Sampled, log: seq<Use>, tag: nat)
    requires Remembers(m, log) && tag in m
    ensures LastUse(Tags(log), tag) > 0 && m[tag].pc == log[LastUse(Tags(log), tag) - 1].pc
  {
  }

  /** After any accesses: take any logged use of a tag that its sampler set still held, whose
      last use before came from the same cache set, fewer than 1024 of its accesses ago. What
      was presented is the window between the two, or nothing if it is longer than 128. */
  lemma EveryWindowIsReuse(s: Sampler, k: nat, j: nat, l: nat)
    requires s.Valid() && k < |s.log| && j < |s.log[k]| && s.log[k][j].set' < |s.runs|
    requires l + 1 == LastUse(Tags(s.log[k])[..j], s.log[k][j].tag) && s.log[k][j].tag in Held(Tags(s.log[k])[..j])
    requires s.log[k][l].set' == s.log[k][j].set' && s.log[k][j].time < s.log[k][l].time + TIMER_SIZE
    ensures var u, last := s.log[k][j], s.log[k][l].time;
      && last < u.time < |s.runs[u.set']|
      && s.runs[u.set'][u.time] == if u.time - last <= OPTGEN_SIZE then Some(last) else None
  {
    var u, v := s.log[k][j], s.log[k][l];
    assert Shows(s.log[k], s.runs, j) && Shows(s.log[k], s.runs, l);
    PresentedIsReuse(u.time, v.time);
  }

  lemma LongEnough(o: OPTgen, timer: nat, run: Accesses)
    requires RingShows(o, timer, run)
    ensures |run| >= TIMER_SIZE && timer == |run| % TIMER_SIZE < TIMER_SIZE
  {
  }

  lemma OtherRing(os: seq<OPTgen>, i: nat, j: nat)
    requires i < |os| && j < |os| && i != j
    requires forall a, b :: 0 <= a < b < |os| ==> os[a] != os[b] && os[a].liveness != os[b].liveness
    ensures os[i] != os[j] && os[i].liveness != os[j].liveness
  {
  }

  /** Entries that stay when a new tag comes: all but one with the last rank in a full set. */
  function Kept(m: Sampled): Sampled {
    if |m| == SAMPLER_HIST then map x | x in m && m[x].lru != SAMPLER_HIST - 1 :: m[x] else m
  }

  function Touched(m: Sampled, tag: nat, now: nat, pc: nat): Sampled {
    (if tag in m then Aged(m, m[tag].lru) else Aged(Kept(m)[tag := History(0, 0, 0)], SAMPLER_HIST - 1))
    [tag := History(pc, now, 0)]
  }

  lemma NothingEvicted(m: Sampled)
    requires |m| != SAMPLER_HIST
    ensures Kept(m) == m
  {
  }

  function Written(r: Sampled, tag: nat, now: nat, pc: nat): Sampled
    requires tag in r
  {
    var r1 := r[tag := r[tag].(previous := now, pc := pc)];
    r1[tag := r1[tag].(lru := 0)]
  }

  lemma WrittenHeld(m: Sampled, tag: nat, now: nat, pc: nat, r: Sampled)
    requires tag in m && r == Aged(m, m[tag].lru)
    ensures tag in r && Written(r, tag, now, pc) == Touched(m, tag, now, pc)
  {
  }

  lemma WrittenNew(m: Sampled, tag: nat, now: nat, pc: nat, r: Sampled)
    requires tag !in m && r == Aged(Kept(m)[tag := History(0, 0, 0)], SAMPLER_HIST - 1)
    ensures tag in r && Written(r, tag, now, pc) == Touched(m, tag, now, pc)
  {
  }

  lemma FullSetHasOldest(m: Sampled, uses: seq<nat>)
    requires Holds(m, uses) && |m| == SAMPLER_HIST
    ensures exists x :: x in m && m[x].lru == SAMPLER_HIST - 1
  {
    SizeOf(RankOf(m), Held(uses));
    assert RankOf(m).Keys == m.Keys;
    var x := Held(uses)[SAMPLER_HIST - 1];
    assert x in RankOf(m);
  }

  lemma OldestIsUnique(m: Sampled, uses: seq<nat>, oldest: nat)
    requires Holds(m, uses) && |m| == SAMPLER_HIST && oldest in m && m[oldest].lru == SAMPLER_HIST - 1
    ensures Kept(m) == m - {oldest}
  {
    forall x | x in m && m[x].lru == SAMPLER_HIST - 1 ensures x == oldest {
      assert x in RankOf(m) && oldest in RankOf(m);
    }
  }

  lemma KeptRanked(m: Sampled, uses: seq<nat>)
    requires Holds(m, uses)
    ensures Ranked(RankOf(Kept(m)), Cut(Held(uses), SAMPLER_HIST - 1))
  {
    hide Recents;
    var held := Held(uses);
    SizeOf(RankOf(m), held);
    assert RankOf(m).Keys == m.Keys;
    if |m| == SAMPLER_HIST {
      var oldest := held[SAMPLER_HIST - 1];
      assert oldest in RankOf(m);
      EvictedRanked(RankOf(m), held, oldest);
      OldestIsUnique(m, uses, oldest);
      assert RankOf(Kept(m)) == RankOf(m) - {oldest};
    }
  }

  lemma PromotedRank(m: Sampled, tag: nat, now: nat, pc: nat)
    requires tag in m
    ensures RankOf(Touched(m, tag, now, pc)) == Promoted(RankOf(m), tag)
  {
    var t, p := RankOf(Touched(m, tag, now, pc)), Promoted(RankOf(m), tag);
    assert t.Keys == m.Keys && p.Keys == m.Keys;
    forall x | x in m ensures t[x] == p[x] {
    }
  }

  lemma InsertedRank(m: Sampled, tag: nat, now: nat, pc: nat)
    requires tag !in m && forall x :: x in Kept(m) ==> Kept(m)[x].lru < SAMPLER_HIST - 1
    ensures RankOf(Touched(m, tag, now, pc)) == Inserted(RankOf(Kept(m)), tag)
  {
    var k := Kept(m);
    hide Kept;
    var t, p := RankOf(Touched(m, tag, now, pc)), Inserted(RankOf(k), tag);
    assert t.Keys == k.Keys + {tag} && p.Keys == k.Keys + {tag};
    forall x | x in t ensures t[x] == p[x] {
    }
  }

  lemma TouchedPrevious(m: Sampled, tag: nat, now: nat, pc: nat)
    requires now < TIMER_SIZE && forall x :: x in m ==> m[x].previous < TIMER_SIZE
    ensures forall x :: x in Touched(m, tag, now, pc) ==> Touched(m, tag, now, pc)[x].previous < TIMER_SIZE
  {
  }

  lemma InsertedHolds(m: Sampled, tag: nat, now: nat, pc: nat, order: seq<nat>)
    requires tag !in m && Ranked(RankOf(Kept(m)), order) && |order| < SAMPLER_HIST
    ensures Ranked(RankOf(Touched(m, tag, now, pc)), [tag] + order)
  {
    var k := Kept(m);
    hide Touched;
    assert tag !in RankOf(k);
    NotListed(RankOf(k), order, tag);
    InsertedRanked(RankOf(k), order, tag);
    DropNothing(order, tag);
    forall x | x in k ensures k[x].lru < SAMPLER_HIST - 1 { assert x in RankOf(k); }
    InsertedRank(m, tag, now, pc);
  }

  lemma NotListed(rank: Rank, order: seq<nat>, x: nat)
    requires Ranked(rank, order) && x !in rank
    ensures x !in order
  {
  }

  /** Eviction, insertion and ageing together keep exactly the eight tags used last. */
  lemma TouchedHolds(m: Sampled, tag: nat, now: nat, pc: nat, uses: seq<nat>)
    requires Holds(m, uses) && now < TIMER_SIZE
    ensures Holds(Touched(m, tag, now, pc), uses + [tag])
  {
    hide Held, Touched, Kept;
    var held := Held(uses);
    TouchedPrevious(m, tag, now, pc);
    HeldStep(uses, tag);
    HeldSize(m, uses);
    if tag in m {
      PromotedRanked(RankOf(m), held, tag);
      PromotedRank(m, tag, now, pc);
      RankedNoRepeats(RankOf(m), held);
      assert held[m[tag].lru] == tag;
      DropAt(held, m[tag].lru);
    } else {
      NotListed(RankOf(m), held, tag);
      KeptRanked(m, uses);
      InsertedHolds(m, tag, now, pc, Cut(held, SAMPLER_HIST - 1));
      DropNothing(held, tag);
      CutCons(tag, held);
    }
  }

  lemma HeldSize(m: Sampled, uses: seq<nat>)
    requires Holds(m, uses)
    ensures |m| == |Held(uses)| <= SAMPLER_HIST
  {
    SizeOf(RankOf(m), Held(uses));
    assert RankOf(m).Keys == m.Keys;
  }

  lemma RunSnoc(run: Accesses, from: Option<nat>)
    ensures Optgen.Run(OPT_WAYS, run + [from]) == Step(Optgen.Run(OPT_WAYS, run), OPT_WAYS, |run|, from)
  {
    assert (run + [from])[..|run|] == run;
  }

  /** After any accesses, the hits OPTgen has counted for a cache set are the most that any
      choice of its presented windows of up to 127 accesses can keep within 14 ways, plus
      one for each window of exactly 128. */
  lemma SamplerHitsAreOptimal(s: Sampler, set': nat) returns (optimum: nat)
    requires s.Valid() && set' < |s.optgen|
    ensures WindowsUpTo(s.runs[set'], OPTGEN_SIZE) && WindowsUpTo(WithoutWholeRing(s.runs[set']), OPTGEN_SIZE)
    ensures Timeline.IsOptimum(Windows(WithoutWholeRing(s.runs[set'])), OPT_WAYS, optimum)
    ensures s.optgen[set'].numCache == optimum + CountWholeRing(s.runs[set'])
  {
    assert s.RingValid(set');
    optimum := HitsInGeneral(OPT_WAYS, s.runs[set']);
  }
}
