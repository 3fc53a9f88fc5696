/** Physical pages for data and for page tables, handed out once each from one counter. */
module PageAllocator {

  const PTE_BYTES: nat := 8

  /** Sizes in bytes. `pteSize` is one page-table page; pages are taken from `reserve` up to `last`. */
  datatype Config = Config(pageSize: nat, pteSize: nat, reserve: nat, last: nat, penalty: nat)

  type Level = n: nat | n > 0 witness 1

  type DataKey = (nat, nat)
  type TableKey = (nat, nat, nat)

  datatype State = State(pages: map<DataKey, nat>, tables: map<TableKey, nat>, nextTable: nat, next: nat)

  datatype Op = Translate(cpu: nat, vaddr: nat) | Walk(cpu: nat, vaddr: nat, level: Level)

  /** What the constructor asserts, for sizes that are powers of two. */
  ghost predicate Sane(c: Config) {
    && c.pageSize > 0 && c.pteSize > 0 && c.pteSize % PTE_BYTES == 0
    && (c.pageSize % c.pteSize == 0 || c.pteSize % c.pageSize == 0)
    && c.reserve >= c.pageSize && c.reserve % c.pageSize == 0 && c.last % c.pageSize == 0 && c.reserve < c.last
  }

  function Start(c: Config): State {
    State(map[], map[], 0, c.reserve)
  }

  /** Whether a page is left; the source asserts this before it looks at one. */
  predicate Available(c: Config, s: State) {
    s.next + c.pageSize <= c.last
  }

  function Power(b: nat, e: nat): nat {
    if e == 0 then 1 else b * Power(b, e - 1)
  }

  lemma {:induction false} PowerPositive(b: nat, e: nat)
    requires b > 0
    ensures Power(b, e) > 0
  {
    if e == 0 {
    } else {
      PowerPositive(b, e - 1);
    }
  }

  /** Bytes that one table entry of this level spans. */
  function Span(c: Config, level: Level): (r: nat)
    requires Sane(c)
    ensures r > 0
  {
    PowerPositive(c.pteSize / PTE_BYTES, level - 1);
    c.pageSize * Power(c.pteSize / PTE_BYTES, level - 1)
  }

  /** The high part of `upper` over the low part of `lower`. */
  function Splice(upper: nat, lower: nat, size: nat): nat
    requires size > 0
  {
    upper - upper % size + lower % size
  }

  function DataKeyOf(c: Config, op: Op): DataKey
    requires Sane(c)
  {
    (op.cpu, op.vaddr / c.pageSize)
  }

  function TableKeyOf(c: Config, op: Op): TableKey
    requires Sane(c) && op.Walk?
  {
    (op.cpu, op.vaddr / Span(c, op.level), op.level)
  }

  /** A first page-table page is taken before the first table. */
  function WithTablePage(c: Config, s: State): State {
    if s.nextTable == 0 then s.(nextTable := s.next, next := s.next + c.pageSize) else s
  }

  function AddTable(c: Config, s: State, key: TableKey): State
    requires c.pageSize > 0
  {
    var after := s.nextTable + c.pteSize;
    var t := s.tables[key := s.nextTable];
    if after % c.pageSize == 0 then s.(tables := t, nextTable := s.next, next := s.next + c.pageSize)
    else s.(tables := t, nextTable := after)
  }

  /** No assertion fails: pages remain wherever one is looked at. */
  ghost predicate Possible(c: Config, s: State, op: Op)
    requires Sane(c)
  {
    match op
    case Translate(_, _) => Available(c, s)
    case Walk(_, _, _) =>
      && (s.nextTable == 0 ==> Available(c, s))
      && var s1 := WithTablePage(c, s);
      (TableKeyOf(c, op) !in s1.tables && (s1.nextTable + c.pteSize) % c.pageSize == 0 ==> Available(c, s1))
  }

  function Next(c: Config, s: State, op: Op): State
    requires Sane(c)
  {
    match op
    case Translate(_, _) =>
      var key := DataKeyOf(c, op);
      if key in s.pages then s else s.(pages := s.pages[key := s.next], next := s.next + c.pageSize)
    case Walk(_, _, _) =>
      var s1 := WithTablePage(c, s);
      if TableKeyOf(c, op) in s1.tables then s1 else AddTable(c, s1, TableKeyOf(c, op))
  }

  /** The physical address an operation returns in the state after it. */
  function Address(c: Config, s: State, op: Op): nat
    requires Sane(c)
    requires if op.Walk? then TableKeyOf(c, op) in s.tables else DataKeyOf(c, op) in s.pages
  {
    match op
    case Translate(_, vaddr) => Splice(s.pages[DataKeyOf(c, op)], vaddr, c.pageSize)
    case Walk(_, vaddr, level) =>
      var offset := vaddr / Span(c, level) % (c.pteSize / PTE_BYTES);
      Splice(s.tables[TableKeyOf(c, op)], offset * PTE_BYTES, c.pteSize)
  }

  function Run(c: Config, s: State, ops: seq<Op>): State
    requires Sane(c)
    decreases |ops|
  {
    if ops == [] then s else Run(c, Next(c, s, ops[0]), ops[1..])
  }

  /** Pages remain wherever the run looks at one. */
  ghost predicate Legal(c: Config, s: State, ops: seq<Op>)
    requires Sane(c)
    decreases |ops|
  {
    ops == [] || (Possible(c, s, ops[0]) && Legal(c, Next(c, s, ops[0]), ops[1..]))
  }

  // ---- Regions ----

  predicate Apart(a: nat, aSize: nat, b: nat, bSize: nat) {
    a + aSize <= b || b + bSize <= a
  }

  /** All regions handed out, data pages and page tables alike, are pairwise disjoint and above the reserve. */
  ghost predicate Disjoint(c: Config, s: State) {
    && (forall k, l :: k in s.pages && l in s.pages && k != l ==> Apart(s.pages[k], c.pageSize, s.pages[l], c.pageSize))
    && (forall k, l :: k in s.tables && l in s.tables && k != l ==>
          Apart(s.tables[k], c.pteSize, s.tables[l], c.pteSize))
    && (forall k, l :: k in s.pages && l in s.tables ==> Apart(s.pages[k], c.pageSize, s.tables[l], c.pteSize))
    && (forall k :: k in s.pages ==> c.reserve <= s.pages[k] && s.pages[k] + c.pageSize <= c.last)
    && (forall k :: k in s.tables ==> c.reserve <= s.tables[k] && s.tables[k] + c.pteSize <= c.last)
  }

  /** The page that holds an address. */
  function Base(c: Config, a: nat): nat
    requires c.pageSize > 0
  {
    a - a % c.pageSize
  }

  /** A page handed out so far. */
  ghost predicate Taken(c: Config, s: State, p: nat)
    requires c.pageSize > 0
  {
    c.reserve <= p && p % c.pageSize == 0 && p + c.pageSize <= s.next
  }

  ghost predicate PagesInv(c: Config, s: State)
    requires c.pageSize > 0
  {
    && c.reserve <= s.next <= c.last && s.next % c.pageSize == 0
    && (forall k :: k in s.pages ==> Taken(c, s, s.pages[k]))
    && (forall k, l :: k in s.pages && l in s.pages && k != l ==> s.pages[k] != s.pages[l])
  }

  /** A page-table address: its page is taken and holds no data. */
  ghost predicate TablePlace(c: Config, s: State, t: nat)
    requires c.pageSize > 0 && c.pteSize > 0
  {
    t % c.pteSize == 0 && Taken(c, s, Base(c, t)) && forall k :: k in s.pages ==> s.pages[k] != Base(c, t)
  }

  ghost predicate TablesInv(c: Config, s: State)
    requires c.pageSize > 0 && c.pteSize > 0
  {
    && (forall k :: k in s.tables ==> TablePlace(c, s, s.tables[k]) && s.tables[k] < s.nextTable)
    && (forall k, l :: k in s.tables && l in s.tables && k != l ==> s.tables[k] != s.tables[l])
    && (s.nextTable == 0 || TablePlace(c, s, s.nextTable))
  }

  ghost predicate Inv(c: Config, s: State)
    requires c.pageSize > 0 && c.pteSize > 0
  {
    PagesInv(c, s) && TablesInv(c, s)
  }

  // ---- Every operation keeps the invariant when tables fit into pages ----

  ghost predicate Fits(c: Config) {
    c.pteSize <= c.pageSize
  }

  lemma PageOf(a: nat, size: nat)
    requires size > 0
    ensures (a - a % size) % size == 0 && a - a % size <= a < a - a % size + size
  {
    var q := a / size;
    assert a - a % size == size * q;
    MultipleOf(q, size);
  }

  lemma MultipleOf(q: int, size: nat)
    requires size > 0
    ensures size * q % size == 0
  {
    assert (size * q + 0) / size == q by { DivOf(q, size, 0); }
    assert size * q == size * (size * q / size) + size * q % size;
  }

  lemma DivOf(q: int, size: nat, r: nat)
    requires r < size
    ensures (size * q + r) / size == q && (size * q + r) % size == r
  {
    var x := size * q + r;
    assert x == size * (x / size) + x % size;
    Monotone(q + 1, x / size, size);
    Monotone(x / size, q - 1, size);
  }

  lemma Monotone(a: int, b: int, n: nat)
    ensures a <= b ==> n * a <= n * b
  {
  }

  /** Tables that start on a multiple of their size stay within one page. */
  lemma WithinPage(c: Config, t: nat)
    requires Sane(c) && Fits(c) && t % c.pteSize == 0
    ensures t + c.pteSize <= Base(c, t) + c.pageSize
  {
    PageDivides(c);
    var k, m := c.pageSize / c.pteSize, t / c.pteSize;
    assert c.pageSize == c.pteSize * k && t == c.pteSize * m;
    var q := t / c.pageSize;
    var r := t % c.pageSize;
    assert r == c.pteSize * (m - k * q) by {
      assert t == c.pageSize * q + r;
      assert c.pageSize * q == c.pteSize * (k * q);
    }
    Monotone(k, m - k * q, c.pteSize);
    Monotone(m - k * q, k - 1, c.pteSize);
  }

  lemma PageDivides(c: Config)
    requires Sane(c) && Fits(c)
    ensures c.pageSize % c.pteSize == 0
  {
    if c.pteSize % c.pageSize == 0 {
      var q := c.pteSize / c.pageSize;
      assert c.pteSize == c.pageSize * q;
      Whole(c.pageSize, c.pteSize, q);
    }
  }

  lemma Whole(a: nat, b: nat, q: nat)
    requires 0 < b <= a && b == a * q
    ensures a % b == 0
  {
    Monotone(2, q, a);
    DivOf(1, a, 0);
  }

  /** A page start is also a possible table start. */
  lemma PageStart(c: Config, p: nat)
    requires Sane(c) && Fits(c) && p % c.pageSize == 0
    ensures p % c.pteSize == 0 && Base(c, p) == p && (p + c.pageSize) % c.pageSize == 0
  {
    PageDivides(c);
    var k, q := c.pageSize / c.pteSize, p / c.pageSize;
    assert p == c.pteSize * (k * q) by {
      assert p == c.pageSize * q && c.pageSize == c.pteSize * k;
    }
    MultipleOf(k * q, c.pteSize);
    assert p + c.pageSize == c.pageSize * (q + 1);
    MultipleOf(q + 1, c.pageSize);
  }

  /** The next table in the same page, unless the page is full. */
  lemma NextTable(c: Config, t: nat)
    requires Sane(c) && Fits(c) && t % c.pteSize == 0
    ensures
      var after := t + c.pteSize;
      after % c.pteSize == 0 && (after % c.pageSize != 0 ==> Base(c, after) == Base(c, t))
  {
    WithinPage(c, t);
    var m := t / c.pteSize;
    assert t + c.pteSize == c.pteSize * (m + 1);
    MultipleOf(m + 1, c.pteSize);
    var q, after := t / c.pageSize, t + c.pteSize;
    var d := after - Base(c, t);
    assert Base(c, t) == c.pageSize * q;
    if d == c.pageSize {
      assert after == c.pageSize * (q + 1);
      MultipleOf(q + 1, c.pageSize);
    } else {
      DivOf(q, c.pageSize, d);
    }
  }

  lemma TakePage(c: Config, s: State)
    requires Sane(c) && Fits(c) && Inv(c, s) && Available(c, s)
    ensures (s.next + c.pageSize) % c.pageSize == 0
    ensures s.next % c.pteSize == 0 && Base(c, s.next) == s.next
  {
    PageStart(c, s.next);
  }

  lemma TranslateKeeps(c: Config, s: State, op: Op)
    requires Sane(c) && Fits(c) && Inv(c, s) && op.Translate? && Possible(c, s, op)
    ensures Inv(c, Next(c, s, op))
  {
    TakePage(c, s);
  }

  lemma WithTablePageKeeps(c: Config, s: State)
    requires Sane(c) && Fits(c) && Inv(c, s) && (s.nextTable == 0 ==> Available(c, s))
    ensures Inv(c, WithTablePage(c, s)) && WithTablePage(c, s).nextTable > 0
  {
    if s.nextTable == 0 { TakePage(c, s); }
  }

  lemma AddTableKeeps(c: Config, s: State, key: TableKey)
    requires Sane(c) && Fits(c) && Inv(c, s) && s.nextTable > 0 && key !in s.tables
    requires (s.nextTable + c.pteSize) % c.pageSize == 0 ==> Available(c, s)
    ensures Inv(c, AddTable(c, s, key))
  {
    NextTable(c, s.nextTable);
    PageOf(s.nextTable, c.pageSize);
    if (s.nextTable + c.pteSize) % c.pageSize == 0 { TakePage(c, s); }
  }

  lemma NextKeeps(c: Config, s: State, op: Op)
    requires Sane(c) && Fits(c) && Inv(c, s) && Possible(c, s, op)
    ensures Inv(c, Next(c, s, op))
  {
    if op.Translate? {
      TranslateKeeps(c, s, op);
    } else {
      hide Inv, Fits, AddTable;
      WithTablePageKeeps(c, s);
      var s1 := WithTablePage(c, s);
      if TableKeyOf(c, op) !in s1.tables { AddTableKeeps(c, s1, TableKeyOf(c, op)); }
    }
  }

  lemma {:induction false} RunKeeps(c: Config, s: State, ops: seq<Op>)
    requires Sane(c) && Fits(c) && Inv(c, s) && Legal(c, s, ops)
    ensures Inv(c, Run(c, s, ops))
    decreases |ops|
  {
    hide Inv, Next;
    if ops == [] {
    } else {
      NextKeeps(c, s, ops[0]);
      RunKeeps(c, Next(c, s, ops[0]), ops[1..]);
    }
  }

  lemma ApartPages(c: Config, p: nat, q: nat)
    requires c.pageSize > 0 && p % c.pageSize == 0 && q % c.pageSize == 0 && p != q
    ensures Apart(p, c.pageSize, q, c.pageSize)
  {
    ApartMultiples(p, q, c.pageSize);
  }

  lemma ApartMultiples(p: nat, q: nat, size: nat)
    requires size > 0 && p % size == 0 && q % size == 0 && p != q
    ensures Apart(p, size, q, size)
  {
    var a, b := p / size, q / size;
    assert p == size * a && q == size * b;
    Monotone(a + 1, b, size);
    Monotone(b + 1, a, size);
  }

  lemma InvIsDisjoint(c: Config, s: State)
    requires Sane(c) && Fits(c) && Inv(c, s)
    ensures Disjoint(c, s)
  {
    forall k, l | k in s.pages && l in s.pages && k != l ensures Apart(s.pages[k], c.pageSize, s.pages[l], c.pageSize) {
      ApartPages(c, s.pages[k], s.pages[l]);
    }
    forall k, l | k in s.tables && l in s.tables && k != l
      ensures Apart(s.tables[k], c.pteSize, s.tables[l], c.pteSize)
    {
      ApartMultiples(s.tables[k], s.tables[l], c.pteSize);
    }
    forall l | l in s.tables
      ensures Base(c, s.tables[l]) <= s.tables[l] && s.tables[l] + c.pteSize <= Base(c, s.tables[l]) + c.pageSize
    {
      PageOf(s.tables[l], c.pageSize);
      WithinPage(c, s.tables[l]);
    }
    forall k, l | k in s.pages && l in s.tables ensures Apart(s.pages[k], c.pageSize, s.tables[l], c.pteSize) {
      ApartPages(c, s.pages[k], Base(c, s.tables[l]));
    }
  }

  lemma StartKeeps(c: Config)
    requires Sane(c)
    ensures Inv(c, Start(c))
  {
  }

  lemma EveryRunIsDisjoint(c: Config, ops: seq<Op>)
    requires Sane(c) && Fits(c) && Legal(c, Start(c), ops)
    ensures Disjoint(c, Run(c, Start(c), ops))
  {
    hide Disjoint, Inv;
    StartKeeps(c);
    RunKeeps(c, Start(c), ops);
    InvIsDisjoint(c, Run(c, Start(c), ops));
  }

  /** A walk that needs a new table when the table page is used up by it. */
  lemma WalkTakesPage(c: Config, s: State, op: Op)
    requires Sane(c) && op.Walk? && s.nextTable > 0 && TableKeyOf(c, op) !in s.tables
    requires (s.nextTable + c.pteSize) % c.pageSize == 0 && Available(c, s)
    ensures Possible(c, s, op)
    ensures Next(c, s, op) == State(s.pages, s.tables[TableKeyOf(c, op) := s.nextTable], s.next, s.next + c.pageSize)
  {
  }

  lemma FirstWalk(c: Config, s: State, op: Op)
    requires Sane(c) && op.Walk? && s.nextTable == 0 && s.next > 0 && Available(c, s)
    ensures Next(c, s, op) == Next(c, WithTablePage(c, s), op)
    ensures Possible(c, WithTablePage(c, s), op) ==> Possible(c, s, op)
  {
  }

  /** A page table larger than a page overlaps the page handed out next. */
  lemma LargeTablesOverlap(c: Config) returns (ops: seq<Op>)
    requires Sane(c) && !Fits(c) && c.reserve + 3 * c.pageSize <= c.last
    ensures Legal(c, Start(c), ops) && !Disjoint(c, Run(c, Start(c), ops))
  {
    hide Next, Possible, Span;
    var a, b := Walk(0, 0, 1), Walk(1, 0, 1);
    ops := [a, b];
    var p0, p1 := c.reserve, c.reserve + c.pageSize;
    SumDivides(p0, c.pteSize, c.pageSize);
    SumDivides(p0, c.pageSize, c.pageSize);
    SumDivides(p1, c.pteSize, c.pageSize);
    var s0 := WithTablePage(c, Start(c));
    FirstWalk(c, Start(c), a);
    WalkTakesPage(c, s0, a);
    var s1 := Next(c, s0, a);
    WalkTakesPage(c, s1, b);
    var s2 := Next(c, s1, b);
    RunTwo(c, Start(c), a, b);
    assert s2.tables[TableKeyOf(c, a)] == p0 && s2.tables[TableKeyOf(c, b)] == p1;
    assert !Apart(p0, c.pteSize, p1, c.pteSize);
  }

  lemma RunTwo(c: Config, s: State, a: Op, b: Op)
    requires Sane(c)
    ensures Run(c, s, [a, b]) == Next(c, Next(c, s, a), b)
    ensures Legal(c, s, [a, b]) <==> Possible(c, s, a) && Possible(c, Next(c, s, a), b)
  {
    hide Next, Possible;
    assert [a, b][1..] == [b] && [b][1..] == [];
    assert Run(c, Next(c, s, a), [b]) == Next(c, Next(c, s, a), b);
    assert Legal(c, Next(c, s, a), [b]) <==> Possible(c, Next(c, s, a), b);
  }

  lemma SumDivides(a: nat, b: nat, size: nat)
    requires size > 0 && a % size == 0 && b % size == 0
    ensures (a + b) % size == 0
  {
    assert a + b == size * (a / size + b / size) by {
      assert a == size * (a / size) && b == size * (b / size);
    }
    MultipleOf(a / size + b / size, size);
  }

  /** With at least three pages: every run keeps all regions disjoint exactly when a page
      table is no larger than a page. */
  lemma DisjointExactlyWhenTablesFit(c: Config)
    requires Sane(c) && c.reserve + 3 * c.pageSize <= c.last
    ensures (forall ops :: Legal(c, Start(c), ops) ==> Disjoint(c, Run(c, Start(c), ops))) <==> c.pteSize <= c.pageSize
  {
    hide Disjoint;
    if Fits(c) {
      forall ops | Legal(c, Start(c), ops) ensures Disjoint(c, Run(c, Start(c), ops)) {
        EveryRunIsDisjoint(c, ops);
      }
    } else {
      var ops := LargeTablesOverlap(c);
    }
  }

  // ---- Mappings ----

  /** A mapping never changes once it is made. */
  lemma {:induction false} MappingsNeverChange(c: Config, s: State, ops: seq<Op>)
    requires Sane(c)
    ensures forall k :: k in s.pages ==> k in Run(c, s, ops).pages && Run(c, s, ops).pages[k] == s.pages[k]
    ensures forall k :: k in s.tables ==> k in Run(c, s, ops).tables && Run(c, s, ops).tables[k] == s.tables[k]
    decreases |ops|
  {
    if ops == [] {
    } else {
      MappingsNeverChange(c, Next(c, s, ops[0]), ops[1..]);
    }
  }

  lemma SpliceOnto(p: nat, v: nat, size: nat)
    requires size > 0 && p % size == 0
    ensures Splice(p, v, size) == p + v % size && Splice(p, v, size) % size == v % size
  {
    assert p == size * (p / size);
    DivOf(p / size, size, v % size);
  }

  lemma SameSum(p: nat, q: nat, r: nat, t: nat, size: nat)
    requires size > 0 && p % size == 0 && q % size == 0 && r < size && t < size
    ensures p + r == q + t <==> p == q && r == t
  {
    if p != q { ApartMultiples(p, q, size); }
  }

  lemma SameParts(v: nat, w: nat, size: nat)
    requires size > 0
    ensures v == w <==> v / size == w / size && v % size == w % size
  {
    assert v == size * (v / size) + v % size && w == size * (w / size) + w % size;
  }

  /** Translation keeps the page offset, and no two (cpu, address) pairs share a physical
      address, whatever sizes page tables have. */
  lemma TranslationIsInjective(c: Config, s: State, a: Op, b: Op)
    requires Sane(c) && PagesInv(c, s) && a.Translate? && b.Translate?
    requires DataKeyOf(c, a) in s.pages && DataKeyOf(c, b) in s.pages
    ensures Address(c, s, a) % c.pageSize == a.vaddr % c.pageSize
    ensures Address(c, s, a) == Address(c, s, b) <==> a.cpu == b.cpu && a.vaddr == b.vaddr
  {
    hide Splice;
    var p, q := s.pages[DataKeyOf(c, a)], s.pages[DataKeyOf(c, b)];
    SpliceOnto(p, a.vaddr, c.pageSize);
    SpliceOnto(q, b.vaddr, c.pageSize);
    SameSum(p, q, a.vaddr % c.pageSize, b.vaddr % c.pageSize, c.pageSize);
    SameParts(a.vaddr, b.vaddr, c.pageSize);
  }

  /** The data pages stay sound even when page tables are too large. */
  lemma {:induction false} RunKeepsPages(c: Config, s: State, ops: seq<Op>)
    requires Sane(c) && PagesInv(c, s) && Legal(c, s, ops)
    ensures PagesInv(c, Run(c, s, ops))
    decreases |ops|
  {
    hide PagesInv, Next;
    if ops == [] {
    } else {
      NextKeepsPages(c, s, ops[0]);
      RunKeepsPages(c, Next(c, s, ops[0]), ops[1..]);
    }
  }

  lemma NextKeepsPages(c: Config, s: State, op: Op)
    requires Sane(c) && PagesInv(c, s) && Possible(c, s, op)
    ensures PagesInv(c, Next(c, s, op))
  {
    SumDivides(s.next, c.pageSize, c.pageSize);
    SumDivides(s.next + c.pageSize, c.pageSize, c.pageSize);
  }

  lemma OffsetFits(x: nat, size: nat)
    requires size > 0 && size % PTE_BYTES == 0
    ensures x % (size / PTE_BYTES) * PTE_BYTES < size
  {
    var k := size / PTE_BYTES;
    assert size == PTE_BYTES * k;
  }

  lemma SmallSplice(p: nat, v: nat, size: nat)
    requires size > 0 && p % size == 0 && v < size
    ensures Splice(p, v, size) == p + v
  {
  }

  /** The address of a page-table entry lies in the table of its key, at the entry's offset. */
  lemma EntryInItsTable(c: Config, s: State, op: Op)
    requires Sane(c) && Fits(c) && Inv(c, s) && op.Walk? && TableKeyOf(c, op) in s.tables
    ensures
      var t, offset := s.tables[TableKeyOf(c, op)], op.vaddr / Span(c, op.level) % (c.pteSize / PTE_BYTES);
      Address(c, s, op) == t + offset * PTE_BYTES < t + c.pteSize
  {
    hide Splice, Power;
    OffsetFits(op.vaddr / Span(c, op.level), c.pteSize);
    SmallSplice(s.tables[TableKeyOf(c, op)],
        op.vaddr / Span(c, op.level) % (c.pteSize / PTE_BYTES) * PTE_BYTES, c.pteSize);
  }

  /** A level-1 entry spans a page, and an entry of the next level as many entries as a
      table holds: the index at the next level is the quotient of the index at this one. */
  lemma LevelsNest(c: Config, level: Level, v: nat)
    requires Sane(c)
    ensures Span(c, 1) == c.pageSize && Span(c, level + 1) == Span(c, level) * (c.pteSize / PTE_BYTES)
    ensures v / Span(c, level + 1) == v / Span(c, level) / (c.pteSize / PTE_BYTES)
  {
    var entries, size := c.pteSize / PTE_BYTES, Span(c, level);
    assert Power(entries, 0) == 1;
    assert Power(entries, level) == entries * Power(entries, level - 1);
    Rotate(c.pageSize, entries, Power(entries, level - 1));
    DivTwice(v, size, entries);
  }

  lemma Rotate(a: nat, b: nat, d: nat)
    ensures a * (b * d) == a * d * b
  {
  }

  lemma DivTwice(v: nat, a: nat, b: nat)
    requires a > 0 && b > 0
    ensures a * b > 0 && v / (a * b) == v / a / b
  {
    Quotient(v, a);
    Quotient(v / a, b);
    DivTwiceOf(v, a, b, v / a / b, v / a % b, v % a);
  }

  lemma Quotient(v: nat, a: nat)
    requires a > 0
    ensures v == a * (v / a) + v % a
  {
  }

  lemma DivTwiceOf(v: nat, a: nat, b: nat, q: nat, r: nat, t: nat)
    requires r < b && t < a && v == a * (b * q + r) + t
    ensures a * b > 0 && v / (a * b) == q
  {
    Monotone(1, b, a);
    DigitsFit(v, a, b, a * b, q, r, t);
    DivOf(q, a * b, a * r + t);
  }

  lemma DigitsFit(v: nat, a: nat, b: nat, n: nat, q: nat, r: nat, t: nat)
    requires n == a * b && r < b && t < a && v == a * (b * q + r) + t
    ensures v == n * q + (a * r + t) && a * r + t < n
  {
    Distribute(a, b, q, r);
    Monotone(r + 1, b, a);
  }

  lemma Distribute(a: nat, b: nat, q: nat, r: nat)
    ensures a * (b * q + r) == a * b * q + a * r
  {
  }

  /** Walk steps share an entry exactly when they are of one processor and one level and
      their addresses share the index there. */
  lemma WalkIsInjective(c: Config, s: State, a: Op, b: Op)
    requires Sane(c) && Fits(c) && Inv(c, s) && a.Walk? && b.Walk?
    requires TableKeyOf(c, a) in s.tables && TableKeyOf(c, b) in s.tables
    ensures Address(c, s, a) == Address(c, s, b) <==>
              a.cpu == b.cpu && a.level == b.level && a.vaddr / Span(c, a.level) == b.vaddr / Span(c, b.level)
  {
    hide Splice, Power, Span, Address;
    EntryInItsTable(c, s, a);
    EntryInItsTable(c, s, b);
    if TableKeyOf(c, a) != TableKeyOf(c, b) {
      ApartMultiples(s.tables[TableKeyOf(c, a)], s.tables[TableKeyOf(c, b)], c.pteSize);
    }
  }
}
