/** Most-recent-first lists with one entry per tag: what a set of an LRU table stands for. */
module Recency {
  import opened Options

  datatype Elem = Elem(tag: nat, data: nat)

  type Recent = seq<Elem>

  datatype Op = CheckHit(tag: nat) | Fill(elem: Elem) | Invalidate(tag: nat)

  function Without(l: Recent, tag: nat): Recent {
    if l == [] then []
    else if l[0].tag == tag then Without(l[1..], tag)
    else [l[0]] + Without(l[1..], tag)
  }

  function Lookup(l: Recent, tag: nat): (r: Option<Elem>)
    ensures r.Some? ==> r.value.tag == tag && r.value in l
    ensures r.None? ==> forall e :: e in l ==> e.tag != tag
  {
    if l == [] then None
    else if l[0].tag == tag then Some(l[0])
    else Lookup(l[1..], tag)
  }

  function Newest(l: Recent, ways: nat): Recent {
    if |l| > ways then l[..ways] else l
  }

  /** The list after an operation, and what the operation returns. */
  function Next(l: Recent, op: Op, ways: nat): (Recent, Option<Elem>) {
    match op
    case CheckHit(tag) =>
      var hit := Lookup(l, tag);
      (if hit.Some? then [hit.value] + Without(l, tag) else l, hit)
    case Fill(e) => (Newest([e] + Without(l, e.tag), ways), None)
    case Invalidate(tag) => (Without(l, tag), Lookup(l, tag))
  }

  ghost predicate Distinct(l: Recent) {
    forall i, j :: 0 <= i < j < |l| ==> l[i].tag != l[j].tag
  }

  lemma {:induction false} WithoutMembers(l: Recent, tag: nat)
    ensures |Without(l, tag)| <= |l|
    ensures forall e :: e in Without(l, tag) <==> e in l && e.tag != tag
  {
    if l == [] {
    } else {
      WithoutMembers(l[1..], tag);
      assert forall e :: e in l <==> e == l[0] || e in l[1..];
    }
  }

  lemma {:induction false} WithoutDistinct(l: Recent, tag: nat)
    requires Distinct(l)
    ensures Distinct(Without(l, tag))
  {
    if l == [] {
    } else {
      WithoutDistinct(l[1..], tag);
      WithoutMembers(l[1..], tag);
      var rest := Without(l[1..], tag);
      forall i, j | 0 <= i < j < |[l[0]] + rest| ensures ([l[0]] + rest)[i].tag != ([l[0]] + rest)[j].tag {
        assert rest[j - 1] in l[1..];
      }
    }
  }

  lemma ConsDistinct(e: Elem, l: Recent)
    requires Distinct(l) && forall x :: x in l ==> x.tag != e.tag
    ensures Distinct([e] + l)
  {
    forall i, j | 0 <= i < j < |[e] + l| ensures ([e] + l)[i].tag != ([e] + l)[j].tag {
      assert l[j - 1] in l;
    }
  }

  /** Every operation keeps one entry per tag, and at most `ways` entries. */
  lemma NextKeeps(l: Recent, op: Op, ways: nat)
    requires Distinct(l) && |l| <= ways
    ensures Distinct(Next(l, op, ways).0) && |Next(l, op, ways).0| <= ways
  {
    var tag := if op.Fill? then op.elem.tag else op.tag;
    WithoutDistinct(l, tag);
    WithoutMembers(l, tag);
    match op
    case CheckHit(t) =>
      if Lookup(l, t).Some? {
        ConsDistinct(Lookup(l, t).value, Without(l, t));
        WithoutShorter(l, t);
      }
    case Fill(e) => ConsDistinct(e, Without(l, e.tag));
    case Invalidate(t) =>
  }

  lemma AbsentLater(l: Recent, tag: nat)
    requires Distinct(l) && l != [] && l[0].tag == tag
    ensures Lookup(l[1..], tag).None?
  {
    var rest := l[1..];
    forall i | 0 <= i < |rest| ensures rest[i].tag != tag {
      assert l[i + 1] == rest[i];
    }
  }

  lemma {:induction false} WithoutShorter(l: Recent, tag: nat)
    requires Distinct(l)
    ensures |Without(l, tag)| == if Lookup(l, tag).Some? then |l| - 1 else |l|
    ensures Lookup(l, tag).None? ==> Without(l, tag) == l
  {
    if l == [] {
    } else {
      WithoutShorter(l[1..], tag);
      if l[0].tag == tag {
        AbsentLater(l, tag);
      }
      hide Distinct;
      assert l == [l[0]] + l[1..];
    }
  }

  // ---- A wider table holds at least as much ----

  /** `s` is `b` with some entries left out. */
  predicate Within(s: Recent, b: Recent) {
    if s == [] then true
    else if b == [] then false
    else if s[0] == b[0] then Within(s[1..], b[1..])
    else Within(s, b[1..])
  }

  lemma {:induction false} WithinMembers(s: Recent, b: Recent)
    requires Within(s, b)
    ensures |s| <= |b| && forall e :: e in s ==> e in b
  {
    if s == [] {
    } else {
      assert forall e :: e in s ==> e == s[0] || e in s[1..];
      if s[0] == b[0] { WithinMembers(s[1..], b[1..]); } else { WithinMembers(s, b[1..]); }
    }
  }

  lemma {:induction false} WithinTail(s: Recent, b: Recent)
    requires b != [] && Within(s, b) && s != []
    ensures Within(s[1..], b[1..])
    decreases |b|
  {
    if s[0] != b[0] {
      WithinTail(s, b[1..]);
      WithinMore(s[1..], b[1..]);
    }
  }

  /** More entries in front of the larger list do no harm. */
  lemma {:induction false} WithinMore(s: Recent, b: Recent)
    requires b != [] && Within(s, b[1..])
    ensures Within(s, b)
    decreases |b|
  {
    if s != [] && s[0] == b[0] {
      WithinTail(s, b[1..]);
      WithinMore(s[1..], b[1..]);
    }
  }

  lemma {:induction false} WithinWithout(s: Recent, b: Recent, tag: nat)
    requires Within(s, b)
    ensures Within(Without(s, tag), Without(b, tag))
    decreases |b|
  {
    if s == [] {
    } else if s[0] == b[0] {
      WithinWithout(s[1..], b[1..], tag);
    } else {
      WithinWithout(s, b[1..], tag);
      if b[0].tag != tag {
        assert Without(b, tag)[1..] == Without(b[1..], tag);
        WithinMore(Without(s, tag), Without(b, tag));
      }
    }
  }

  lemma {:induction false} WithinCut(s: Recent, b: Recent)
    requires Within(s, b) && b != []
    ensures Within(if s == [] then [] else s[..|s| - 1], b[..|b| - 1])
    decreases |b|
  {
    WithinMembers(s, b);
    if s == [] || |b| == 1 {
    } else if s[0] == b[0] {
      WithinCut(s[1..], b[1..]);
      assert s[..|s| - 1] == (if |s| == 1 then [] else [s[0]] + s[1..][..|s| - 2]);
      assert b[..|b| - 1] == [b[0]] + b[1..][..|b| - 2];
    } else {
      WithinCut(s, b[1..]);
      assert b[..|b| - 1][1..] == b[1..][..|b| - 2];
      WithinMore(s[..|s| - 1], b[..|b| - 1]);
    }
  }

  lemma {:induction false} WithinShorter(s: Recent, b: Recent)
    requires Within(s, b) && s != []
    ensures Within(s[..|s| - 1], b)
    decreases |b|
  {
    if s[0] == b[0] {
      if |s| > 1 {
        WithinShorter(s[1..], b[1..]);
        assert s[..|s| - 1][1..] == s[1..][..|s| - 2];
      }
    } else {
      WithinShorter(s, b[1..]);
      WithinMore(s[..|s| - 1], b);
    }
  }

  /** What the narrow list finds, the wide one finds too. */
  lemma {:induction false} WithinLookup(s: Recent, b: Recent, tag: nat)
    requires Within(s, b) && Distinct(b)
    ensures Lookup(s, tag).Some? ==> Lookup(b, tag) == Lookup(s, tag)
    decreases |b|
  {
    if s == [] {
    } else {
      if s[0] == b[0] {
        WithinLookup(s[1..], b[1..], tag);
      } else {
        WithinLookup(s, b[1..], tag);
        if Lookup(s, tag).Some? {
          WithinMembers(s, b[1..]);
          assert Lookup(s, tag).value in b[1..];
        }
      }
    }
  }

  /** The narrow set is part of the wide one, which holds at most `extra` entries more. */
  ghost predicate Included(s: Recent, b: Recent, ways: nat, extra: nat) {
    Within(s, b) && Distinct(b) && Distinct(s) && |s| <= ways && |b| <= ways + extra && |b| <= |s| + extra
  }

  /** One operation on both keeps the inclusion, and a hit in the narrow set is the same hit in the wide one. */
  lemma NextIncluded(s: Recent, b: Recent, op: Op, ways: nat, extra: nat)
    requires Included(s, b, ways, extra)
    ensures Included(Next(s, op, ways).0, Next(b, op, ways + extra).0, ways, extra)
    ensures Next(s, op, ways).1.Some? ==> Next(b, op, ways + extra).1 == Next(s, op, ways).1
  {
    hide Within, Lookup, Without;
    var tag := if op.Fill? then op.elem.tag else op.tag;
    NextKeeps(s, op, ways);
    NextKeeps(b, op, ways + extra);
    WithinLookup(s, b, tag);
    WithinWithout(s, b, tag);
    WithoutShorter(s, tag);
    WithoutShorter(b, tag);
    match op
    case CheckHit(t) => HitIncluded(s, b, t, ways, extra);
    case Fill(e) => FillIncluded(e, Without(s, e.tag), Without(b, e.tag), ways, extra);
    case Invalidate(t) =>
  }

  lemma HitIncluded(s: Recent, b: Recent, tag: nat, ways: nat, extra: nat)
    requires Included(s, b, ways, extra)
    ensures Within(Next(s, CheckHit(tag), ways).0, Next(b, CheckHit(tag), ways + extra).0)
  {
    WithinLookup(s, b, tag);
    WithinWithout(s, b, tag);
    WithoutShorter(s, tag);
    if Lookup(s, tag).None? && Lookup(b, tag).Some? {
      WithinMore(s, [Lookup(b, tag).value] + Without(b, tag));
    }
  }

  lemma FillIncluded(e: Elem, s: Recent, b: Recent, ways: nat, extra: nat)
    requires Within(s, b) && |s| <= ways && |b| <= ways + extra && |b| <= |s| + extra
    ensures Within(Newest([e] + s, ways), Newest([e] + b, ways + extra))
    ensures |Newest([e] + b, ways + extra)| <= |Newest([e] + s, ways)| + extra
  {
    var s1, b1 := [e] + s, [e] + b;
    assert Within(s1, b1);
    if |b1| > ways + extra {
      WithinCut(s1, b1);
    } else if |s1| > ways {
      WithinShorter(s1, b1);
    }
  }

  // ---- Whole tables, whole runs ----

  /** One list per set; `index` places a tag. */
  function TagOf(op: Op): nat {
    if op.Fill? then op.elem.tag else op.tag
  }

  function Step(t: seq<Recent>, op: Op, ways: nat, index: nat -> nat): seq<Recent>
    requires t != []
  {
    var s := index(TagOf(op)) % |t|;
    t[s := Next(t[s], op, ways).0]
  }

  function Answer(t: seq<Recent>, op: Op, ways: nat, index: nat -> nat): Option<Elem>
    requires t != []
  {
    Next(t[index(TagOf(op)) % |t|], op, ways).1
  }

  function Run(t: seq<Recent>, ops: seq<Op>, ways: nat, index: nat -> nat): (r: seq<Recent>)
    requires t != []
    ensures |r| == |t|
    decreases |ops|
  {
    if ops == [] then t else Step(Run(t, ops[..|ops| - 1], ways, index), ops[|ops| - 1], ways, index)
  }

  ghost predicate AllIncluded(t: seq<Recent>, u: seq<Recent>, ways: nat, extra: nat) {
    |t| == |u| && forall s :: 0 <= s < |t| ==> Included(t[s], u[s], ways, extra)
  }

  lemma {:induction false} RunIncluded(sets: nat, ops: seq<Op>, ways: nat, extra: nat, index: nat -> nat)
    requires sets > 0
    ensures AllIncluded(
      Run(seq(sets, _ => []), ops, ways, index), Run(seq(sets, _ => []), ops, ways + extra, index), ways, extra)
    decreases |ops|
  {
    hide Included, Next;
    var empty := seq(sets, _ => []);
    if ops == [] {
      forall s | 0 <= s < sets ensures Included(empty[s], empty[s], ways, extra) { NothingIncluded(ways, extra); }
    } else {
      var rest, op := ops[..|ops| - 1], ops[|ops| - 1];
      RunIncluded(sets, rest, ways, extra, index);
      var s := index(TagOf(op)) % sets;
      NextIncluded(Run(empty, rest, ways, index)[s], Run(empty, rest, ways + extra, index)[s], op, ways, extra);
    }
  }

  lemma NothingIncluded(ways: nat, extra: nat)
    ensures Included([], [], ways, extra)
  {
  }

  /** Inclusion: after the same operations, whatever a table of `ways` ways returns, one of
      more ways returns as well, with the same data. */
  lemma WiderTableHitsToo(sets: nat, ops: seq<Op>, op: Op, ways: nat, extra: nat, index: nat -> nat)
    requires sets > 0
    ensures
      var narrow := Run(seq(sets, _ => []), ops, ways, index);
      var wide := Run(seq(sets, _ => []), ops, ways + extra, index);
      Answer(narrow, op, ways, index).Some? ==> Answer(wide, op, ways + extra, index) == Answer(narrow, op, ways, index)
  {
    hide Included, Next;
    RunIncluded(sets, ops, ways, extra, index);
    var narrow := Run(seq(sets, _ => []), ops, ways, index);
    var wide := Run(seq(sets, _ => []), ops, ways + extra, index);
    var s := index(TagOf(op)) % sets;
    NextIncluded(narrow[s], wide[s], op, ways, extra);
  }
}
