/** The trace converter moves data that shares a page with code to pages of its own. */
module TraceRemap {
  import opened FiniteSets

  const PAGE: nat := 4096
  const FIRST_BUMP: nat := 0x1000

  /** Pages seen to hold code and data, and the moves made so far. */
  datatype State = State(code: set<nat>, data: set<nat>, remapped: map<nat, nat>, bump: nat)

  function AtLeast(used: set<nat>, p: nat): set<nat> {
    set x | x in used && x >= p
  }

  /** The first page from `p` on that is not in `used`. */
  function FirstFree(used: set<nat>, p: nat): (r: nat)
    ensures r >= p && r !in used && forall x :: p <= x < r ==> x in used
    decreases |AtLeast(used, p)|
  {
    if p !in used then p
    else
      FewerAbove(used, p);
      FirstFree(used, p + 1)
  }

  lemma FewerAbove(used: set<nat>, p: nat)
    requires p in used
    ensures |AtLeast(used, p + 1)| < |AtLeast(used, p)|
  {
    assert AtLeast(used, p) == AtLeast(used, p + 1) + {p};
  }

  /** The state after one address has been asked for. */
  function Next(s: State, a: nat): State {
    var page := a / PAGE;
    if page !in s.code || page in s.remapped then s
    else
      var free := FirstFree(s.code + s.data, s.bump);
      s.(remapped := s.remapped[page := free], bump := free + 1)
  }

  function Target(s: State, page: nat): nat {
    if page in s.code && page in s.remapped then s.remapped[page] else page
  }

  /** The answer for an address that has been asked for. */
  function Answer(s: State, a: nat): nat {
    Target(s, a / PAGE) * PAGE + a % PAGE
  }

  function Run(s: State, addresses: seq<nat>): State
    decreases |addresses|
  {
    if addresses == [] then s else Run(Next(s, addresses[0]), addresses[1..])
  }

  ghost predicate Inv(s: State) {
    && s.bump >= FIRST_BUMP
    && s.remapped.Keys <= s.code
    && (forall p :: p in s.remapped ==>
          FIRST_BUMP <= s.remapped[p] < s.bump && s.remapped[p] !in s.code && s.remapped[p] !in s.data)
    && (forall p, q :: p in s.remapped && q in s.remapped && p != q ==> s.remapped[p] != s.remapped[q])
    && (forall x :: FIRST_BUMP <= x < s.bump ==> x in s.code || x in s.data || x in s.remapped.Values)
  }

  /** After the collecting pass nothing has been moved. */
  lemma StartKeeps(code: set<nat>, data: set<nat>)
    ensures Inv(State(code, data, map[], FIRST_BUMP))
  {
  }

  lemma NextKeeps(s: State, a: nat)
    requires Inv(s)
    ensures Inv(Next(s, a))
  {
    var t := Next(s, a);
    if t != s {
      var free := FirstFree(s.code + s.data, s.bump);
      assert t.remapped[a / PAGE] == free;
      forall x | FIRST_BUMP <= x < t.bump ensures x in t.code || x in t.data || x in t.remapped.Values {
        if x < s.bump && x in s.remapped.Values {
          var p :| p in s.remapped && s.remapped[p] == x;
          assert t.remapped[p] == x;
        } else if x >= s.bump && x < free {
          assert x in s.code + s.data;
        }
      }
    }
  }

  lemma {:induction false} RunKeeps(s: State, addresses: seq<nat>)
    requires Inv(s)
    ensures Inv(Run(s, addresses))
    decreases |addresses|
  {
    if addresses == [] {
    } else {
      NextKeeps(s, addresses[0]);
      RunKeeps(Next(s, addresses[0]), addresses[1..]);
    }
  }

  /** Once given, an answer is given again by every later state. */
  lemma {:induction false} AnswersNeverChange(s: State, a: nat, later: seq<nat>)
    ensures Answer(Run(Next(s, a), later), a) == Answer(Next(s, a), a)
    decreases |later|
  {
    if later != [] { KeepsTarget(Next(s, a), a, later); }
  }

  lemma {:induction false} KeepsTarget(s: State, a: nat, later: seq<nat>)
    requires a / PAGE in s.code ==> a / PAGE in s.remapped
    ensures Answer(Run(s, later), a) == Answer(s, a)
    decreases |later|
  {
    if later == [] {
    } else {
      KeepsTarget(Next(s, later[0]), a, later[1..]);
    }
  }

  /** Asked for: the page has its final place. */
  ghost predicate Settled(s: State, page: nat) {
    page in s.code ==> page in s.remapped
  }

  /** No data address is sent to a page of code, and the low 12 bits stay. */
  lemma AnswersAvoidCode(s: State, a: nat)
    requires Inv(s) && Settled(s, a / PAGE)
    ensures Answer(s, a) / PAGE !in s.code
    ensures Answer(s, a) / PAGE == Target(s, a / PAGE) && Answer(s, a) % PAGE == a % PAGE
  {
  }

  /** Two pages end up in one place exactly when one of them is moved onto the other, and
      then the other is neither code nor data that the collecting pass saw. */
  lemma SharedWhenMovedOnto(s: State, p: nat, q: nat)
    requires Inv(s) && Settled(s, p) && Settled(s, q) && p != q
    ensures Target(s, p) == Target(s, q) <==>
      (p in s.code && q !in s.code && q == Target(s, p)) || (q in s.code && p !in s.code && p == Target(s, q))
    ensures Target(s, p) == Target(s, q) ==> !((p in s.code || p in s.data) && (q in s.code || q in s.data))
  {
  }

  lemma {:induction false} RunSettles(s: State, addresses: seq<nat>, a: nat)
    requires a in addresses || Settled(s, a / PAGE)
    ensures Settled(Run(s, addresses), a / PAGE)
    ensures Run(s, addresses).code == s.code && Run(s, addresses).data == s.data
    decreases |addresses|
  {
    if addresses == [] {
    } else {
      RunSettles(Next(s, addresses[0]), addresses[1..], a);
    }
  }

  // ---- When all answers are distinct ----

  /** The first `n` pages from `p` on that are not in `used`. */
  function Frees(used: set<nat>, p: nat, n: nat): (r: seq<nat>)
    ensures |r| == n
    decreases n
  {
    if n == 0 then [] else [FirstFree(used, p)] + Frees(used, FirstFree(used, p) + 1, n - 1)
  }

  /** Where the search for the page after those starts. */
  function After(used: set<nat>, p: nat, n: nat): nat
    decreases n
  {
    if n == 0 then p else After(used, FirstFree(used, p) + 1, n - 1)
  }

  lemma {:induction false} FreesSnoc(used: set<nat>, p: nat, n: nat)
    ensures Frees(used, p, n + 1) == Frees(used, p, n) + [FirstFree(used, After(used, p, n))]
    ensures After(used, p, n + 1) == FirstFree(used, After(used, p, n)) + 1
    decreases n
  {
    if n == 0 {
      assert Frees(used, FirstFree(used, p) + 1, 0) == [];
    } else {
      FreesSnoc(used, FirstFree(used, p) + 1, n - 1);
    }
  }

  /** The moved pages take the free pages in order, whichever code pages they are. */
  ghost predicate TakesInOrder(s: State) {
    && s.bump == After(s.code + s.data, FIRST_BUMP, |s.remapped|)
    && forall x :: x in s.remapped.Values <==> x in Frees(s.code + s.data, FIRST_BUMP, |s.remapped|)
  }

  lemma InsertedValue(m: map<nat, nat>, k: nat, v: nat)
    requires k !in m
    ensures m[k := v].Values == m.Values + {v} && |m[k := v]| == |m| + 1
  {
    var t := m[k := v];
    assert t[k] == v;
    forall x | x in m.Values ensures x in t.Values {
      var j :| j in m && m[j] == x;
      assert t[j] == x;
    }
    assert t.Keys == m.Keys + {k};
  }

  lemma NextTakesInOrder(s: State, a: nat)
    requires TakesInOrder(s)
    ensures TakesInOrder(Next(s, a))
    ensures Next(s, a).remapped.Keys == s.remapped.Keys + {a / PAGE} * s.code
  {
    hide FirstFree, Frees, After;
    if Next(s, a) != s {
      FreesSnoc(s.code + s.data, FIRST_BUMP, |s.remapped|);
      InsertedValue(s.remapped, a / PAGE, FirstFree(s.code + s.data, s.bump));
    }
  }

  ghost function Pages(addresses: seq<nat>): set<nat> {
    set a | a in addresses :: a / PAGE
  }

  lemma PagesCons(a: nat, rest: seq<nat>)
    ensures Pages([a] + rest) == {a / PAGE} + Pages(rest)
  {
    var l, r := Pages([a] + rest), {a / PAGE} + Pages(rest);
    assert forall x :: x in [a] + rest <==> x == a || x in rest;
    assert a in [a] + rest;
    forall y ensures y in l <==> y in r {
      if y in Pages(rest) {
        var x :| x in rest && x / PAGE == y;
        assert x in [a] + rest;
      }
    }
  }

  lemma {:induction false} RunTakesInOrder(s: State, addresses: seq<nat>)
    requires TakesInOrder(s) && s.remapped.Keys <= s.code
    ensures TakesInOrder(Run(s, addresses))
    ensures Run(s, addresses).remapped.Keys == s.remapped.Keys + Pages(addresses) * s.code
    ensures Run(s, addresses).code == s.code && Run(s, addresses).data == s.data
    decreases |addresses|
  {
    hide TakesInOrder, FirstFree, Pages;
    if addresses == [] {
      NoPages();
    } else {
      var a, rest := addresses[0], addresses[1..];
      NextTakesInOrder(s, a);
      RunTakesInOrder(Next(s, a), rest);
      assert addresses == [a] + rest;
      PagesCons(a, rest);
    }
  }

  lemma NoPages()
    ensures Pages([]) == {}
  {
  }

  /** The moves of a settled state make distinct pages share a place exactly when an asked
      page is one of the pages moved to. */
  lemma SharedIffMovedOnto(s: State, asked: set<nat>)
    requires Inv(s) && s.remapped.Keys == asked * s.code
    ensures (forall p, q :: p in asked && q in asked && p != q ==> Target(s, p) != Target(s, q))
      <==> forall p :: p in asked ==> p !in s.remapped.Values
  {
    if p :| p in asked && p in s.remapped.Values {
      var k :| k in s.remapped && s.remapped[k] == p;
      assert Target(s, k) == p && Target(s, p) == p && k != p && k in asked;
    }
    if p, q :| p in asked && q in asked && p != q && Target(s, p) == Target(s, q) {
      SharedWhenMovedOnto(s, p, q);
      assert Target(s, p) in s.remapped.Values;
    }
  }

  /** The exact condition on the inputs, in whatever order they are asked for: distinct
      asked pages get distinct places if and only if none of them is among the first free
      pages from the first bump page on, as many as code pages are asked for. */
  lemma DistinctExactlyWhenOffTheFreePages(code: set<nat>, data: set<nat>, addresses: seq<nat>)
    ensures
      var s, asked := Run(State(code, data, map[], FIRST_BUMP), addresses), Pages(addresses);
      (forall p, q :: p in asked && q in asked && p != q ==> Target(s, p) != Target(s, q))
        <==> forall p :: p in asked ==> p !in Frees(code + data, FIRST_BUMP, |asked * code|)
  {
    hide Inv, FirstFree, Frees, After, Pages, Target, Run;
    var s0, asked := State(code, data, map[], FIRST_BUMP), Pages(addresses);
    StartTakesInOrder(code, data);
    RunKeeps(s0, addresses);
    RunTakesInOrder(s0, addresses);
    var s := Run(s0, addresses);
    assert s.remapped.Keys == asked * code && |s.remapped| == |s.remapped.Keys|;
    SharedIffMovedOnto(s, asked);
  }

  lemma StartTakesInOrder(code: set<nat>, data: set<nat>)
    ensures Inv(State(code, data, map[], FIRST_BUMP)) && TakesInOrder(State(code, data, map[], FIRST_BUMP))
  {
    var none: map<nat, nat> := map[];
    assert none.Values == {} && |none| == 0;
  }

  /** So collected data pages stay distinct, over every run. */
  lemma CollectedPagesStayDistinct(code: set<nat>, data: set<nat>, addresses: seq<nat>, a: nat, b: nat)
    requires a in addresses && b in addresses && a / PAGE in data && b / PAGE in data
    ensures
      var s := Run(State(code, data, map[], FIRST_BUMP), addresses);
      Answer(s, a) / PAGE !in code && (Answer(s, a) == Answer(s, b) <==> a == b)
  {
    var s0 := State(code, data, map[], FIRST_BUMP);
    var s := Run(s0, addresses);
    RunKeeps(s0, addresses);
    RunSettles(s0, addresses, a);
    RunSettles(s0, addresses, b);
    AnswersAvoidCode(s, a);
    AnswersAvoidCode(s, b);
    if a / PAGE != b / PAGE { SharedWhenMovedOnto(s, a / PAGE, b / PAGE); }
  }

  // ---- The whole converter ----

  /** A trace record: its program counter and, for a load or store, the address. */
  datatype Record = Other(pc: nat) | Access(pc: nat, address: nat)

  /** What the collecting pass finds. */
  ghost function CodePages(trace: seq<Record>): set<nat> {
    set r | r in trace :: r.pc / PAGE
  }

  ghost function DataPages(trace: seq<Record>): set<nat> {
    set r | r in trace && r.Access? :: r.address / PAGE
  }

  /** The addresses that the second pass asks for, in trace order. */
  function Asked(trace: seq<Record>): seq<nat> {
    if trace == [] then []
    else (if trace[0].Access? then [trace[0].address] else []) + Asked(trace[1..])
  }

  lemma {:induction false} AskedAreAccesses(trace: seq<Record>, a: nat)
    ensures a in Asked(trace) <==> exists r :: r in trace && r.Access? && r.address == a
  {
    if trace == [] {
    } else {
      AskedAreAccesses(trace[1..], a);
      assert forall r :: r in trace <==> r == trace[0] || r in trace[1..];
    }
  }

  /** For every trace: what the converter writes for its data addresses is off all its code
      pages and tells all its data addresses apart. */
  lemma EveryTraceKeepsItsAddressesApart(trace: seq<Record>, a: nat, b: nat)
    requires a in Asked(trace) && b in Asked(trace)
    ensures
      var s := Run(State(CodePages(trace), DataPages(trace), map[], FIRST_BUMP), Asked(trace));
      Answer(s, a) / PAGE !in CodePages(trace) && (Answer(s, a) == Answer(s, b) <==> a == b)
  {
    AskedAreAccesses(trace, a);
    AskedAreAccesses(trace, b);
    CollectedPagesStayDistinct(CodePages(trace), DataPages(trace), Asked(trace), a, b);
  }

  lemma RangeSize(lo: nat, hi: nat, cover: set<nat>)
    requires lo <= hi && forall x :: lo <= x < hi ==> x in cover
    ensures hi - lo <= |cover|
    decreases hi
  {
    if lo < hi {
      assert hi - 1 in cover;
      RangeSize(lo, hi - 1, cover - {hi - 1});
    }
  }

  lemma {:induction false} ValuesBound(m: map<nat, nat>)
    ensures |m.Values| <= |m|
    decreases |m|
  {
    if m != map[] {
      var k :| k in m;
      var rest := m - {k};
      ValuesBound(rest);
      assert m.Values <= rest.Values + {m[k]} by {
        forall v | v in m.Values ensures v in rest.Values + {m[k]} {
          var j :| j in m && m[j] == v;
          if j != k { assert rest[j] == v; }
        }
      }
      CardinalityMonotone(m.Values, rest.Values + {m[k]});
      assert m.Keys == rest.Keys + {k};
    } else {
      assert m.Values == {};
    }
  }

  /** New pages stay close to the first: the allocator never comes near the end of the 64-bit space. */
  lemma BumpIsBounded(s: State)
    requires Inv(s)
    ensures s.bump <= FIRST_BUMP + |s.code| + |s.data| + |s.remapped|
  {
    RangeSize(FIRST_BUMP, s.bump, s.code + s.data + s.remapped.Values);
    ValuesBound(s.remapped);
  }

  lemma MovesAreNotZero(s: State)
    requires Inv(s)
    ensures forall p :: p in s.remapped ==> s.remapped[p] != 0
  {
  }

  class Converter {
    var codePages: set<nat>
    var dataPages: set<nat>
    /** A page without an entry reads as 0. */
    var remappedPages: map<nat, nat>
    var bumpPage: nat

    ghost function Contents(): State
      reads this
    {
      State(codePages, dataPages, remappedPages, bumpPage)
    }

    constructor ()
      ensures Inv(Contents()) && Contents() == State({}, {}, map[], FIRST_BUMP)
    {
      codePages, dataPages, remappedPages, bumpPage := {}, {}, map[], FIRST_BUMP;
    }

    /** One record of the collecting pass, which is over before the first address is moved. */
    method Collect(pc: nat, accesses: bool, address: nat)
      requires remappedPages == map[] && bumpPage == FIRST_BUMP
      modifies this`codePages, this`dataPages
      ensures Inv(Contents())
      ensures codePages == old(codePages) + {pc / PAGE}
      ensures dataPages == old(dataPages) + if accesses then {address / PAGE} else {}
    {
      codePages := codePages + {pc / PAGE};
      if accesses { dataPages := dataPages + {address / PAGE}; }
    }

    method Transform(a: nat) returns (r: nat)
      requires Inv(Contents())
      modifies this`remappedPages, this`bumpPage
      ensures Inv(Contents()) && Contents() == Next(old(Contents()), a)
      ensures Settled(Contents(), a / PAGE) && r == Answer(Contents(), a)
    {
      NextKeeps(Contents(), a);
      MovesAreNotZero(Contents());
      hide Inv;
      var page := a / PAGE;
      var newPage := page;
      if page in codePages {
        newPage := if page in remappedPages then remappedPages[page] else 0;
        if newPage == 0 {
          newPage := bumpPage;
          while newPage in codePages || newPage in dataPages
            invariant newPage >= bumpPage && unchanged(this)
            invariant FirstFree(codePages + dataPages, newPage) == FirstFree(codePages + dataPages, bumpPage)
            decreases |AtLeast(codePages + dataPages, newPage)|
          {
            FewerAbove(codePages + dataPages, newPage);
            newPage := newPage + 1;
          }
          bumpPage := newPage + 1;
          remappedPages := remappedPages[page := newPage];
        }
      }
      assert Contents() == Next(old(Contents()), a);
      r := newPage * PAGE + a % PAGE;
    }
  }
}
