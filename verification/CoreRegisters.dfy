/** Register renaming by producer lists: scheduling links an instruction to the youngest
    producer of each source register, completion releases the instructions so linked. */
module CoreRegisters {
  import opened CoreState

  // ---- What the stages do ----

  /** First position whose id is not below `id`. */
  function LowerBound(list: seq<Id>, id: Id): (k: nat)
    ensures k <= |list|
    ensures forall i :: 0 <= i < k ==> list[i] < id
    ensures k < |list| ==> list[k] >= id
  {
    if list == [] || list[0] >= id then 0 else 1 + LowerBound(list[1..], id)
  }

  function FirstOf(list: seq<Id>, id: Id): (k: nat)
    ensures k <= |list|
    ensures k < |list| ==> list[k] == id
    ensures forall i :: 0 <= i < k ==> list[i] != id
  {
    if list == [] || list[0] == id then 0 else 1 + FirstOf(list[1..], id)
  }

  function Insert(list: seq<Id>, id: Id): seq<Id> {
    var k := LowerBound(list, id);
    list[..k] + [id] + list[k..]
  }

  function Erase(list: seq<Id>, id: Id): seq<Id> {
    var k := FirstOf(list, id);
    if k < |list| then list[..k] + list[k + 1..] else list
  }

  /** Make instruction `i` wait for the last instruction on `list`, once. */
  function LinkOne(rob: Rob, list: seq<Id>, i: nat): (r: Rob)
    requires i < |rob|
    ensures |r| == |rob|
  {
    if list == [] then rob
    else
      var p := Position(rob, list[|list| - 1]);
      if p < |rob| && (rob[p].dependents == [] || rob[p].dependents[|rob[p].dependents| - 1] != rob[i].id) then
        var rob1 := rob[p := rob[p].(dependents := rob[p].dependents + [rob[i].id])];
        rob1[i := rob1[i].(waitsFor := rob1[i].waitsFor + 1)]
      else rob
  }

  function Link(rob: Rob, producers: Producers, i: nat, sources: seq<Reg>): (r: Rob)
    requires i < |rob|
    ensures |r| == |rob|
    decreases |sources|
  {
    if sources == [] then rob
    else Link(LinkOne(rob, producers[sources[0]], i), producers, i, sources[1..])
  }

  function Enlist(producers: Producers, id: Id, dsts: seq<Reg>): Producers
    decreases |dsts|
  {
    if dsts == [] then producers
    else Enlist(producers[dsts[0] := Insert(producers[dsts[0]], id)], id, dsts[1..])
  }

  function Delist(producers: Producers, id: Id, dsts: seq<Reg>): Producers
    decreases |dsts|
  {
    if dsts == [] then producers
    else Delist(producers[dsts[0] := Erase(producers[dsts[0]], id)], id, dsts[1..])
  }

  function ReleaseOne(x: Instr): Instr {
    x.(waitsFor := x.waitsFor - 1, scheduled := x.scheduled || x.waitsFor - 1 == 0)
  }

  function Release(rob: Rob, dependents: seq<Id>): (r: Rob)
    ensures |r| == |rob|
    decreases |dependents|
  {
    if dependents == [] then rob
    else
      var p := Position(rob, dependents[0]);
      Release(if p < |rob| then rob[p := ReleaseOne(rob[p])] else rob, dependents[1..])
  }

  /** The register side of the core. */
  datatype Regs = Regs(rob: Rob, producers: Producers)

  function DoScheduling(s: Regs, i: nat, event: nat): (s': Regs)
    requires i < |s.rob|
    ensures |s'.rob| == |s.rob|
  {
    var rob1 := Link(s.rob, s.producers, i, s.rob[i].sources);
    Regs(rob1[i := rob1[i].(scheduled := true, event := event)],
         Enlist(s.producers, s.rob[i].id, s.rob[i].destinations))
  }

  function DoCompleteExecution(s: Regs, i: nat): (s': Regs)
    requires i < |s.rob|
    ensures |s'.rob| == |s.rob|
  {
    var done := s.rob[i := s.rob[i].(executed := Completed)];
    Regs(Release(done, s.rob[i].dependents), Delist(s.producers, s.rob[i].id, s.rob[i].destinations))
  }

  // ---- The invariant ----

  predicate Live(x: Instr) {
    x.scheduled && x.executed != Completed
  }

  function Count(regs: seq<Reg>, r: Reg): nat {
    if regs == [] then 0 else (if regs[0] == r then 1 else 0) + Count(regs[1..], r)
  }

  function Repeat(id: Id, n: nat): (s: seq<Id>)
    ensures |s| == n && forall i :: 0 <= i < n ==> s[i] == id
  {
    seq(n, _ => id)
  }

  /** The scheduled, uncompleted writers of `r`, oldest first, one entry per mention. */
  function Writers(rob: Rob, r: Reg): seq<Id> {
    if rob == [] then []
    else (if Live(rob[0]) then Repeat(rob[0].id, Count(rob[0].destinations, r)) else []) + Writers(rob[1..], r)
  }

  /** The uncompleted instructions that list `id` among their dependents. */
  ghost function Blockers(rob: Rob, id: Id): set<Id> {
    set j | 0 <= j < |rob| && rob[j].executed != Completed && id in rob[j].dependents :: rob[j].id
  }

  /** `j` is the youngest instruction older than `i` that writes `r`. */
  ghost predicate YoungestWriter(rob: Rob, i: int, r: Reg, j: int) {
    && 0 <= j < i < |rob| && r in rob[j].destinations
    && forall k :: j < k < i ==> r !in rob[k].destinations
  }

  ghost predicate Distinct(s: seq<Id>) {
    forall a, b :: 0 <= a < b < |s| ==> s[a] != s[b]
  }

  /** What the dependence records say: dependents are listed once each, are younger,
      still present and scheduled, and count exactly who they still wait for. */
  ghost predicate Links(rob: Rob) {
    && (forall j :: 0 <= j < |rob| ==> Distinct(rob[j].dependents))
    && (forall j, d :: 0 <= j < |rob| && d in rob[j].dependents ==>
          j < Position(rob, d) < |rob| && rob[Position(rob, d)].scheduled)
    && (forall i :: 0 <= i < |rob| ==> rob[i].waitsFor == |Blockers(rob, rob[i].id)|)
  }

  ghost predicate RawLinked(rob: Rob) {
    forall i, r, j :: 0 <= i < |rob| && rob[i].scheduled && r in rob[i].sources && YoungestWriter(rob, i, r, j) ==>
      rob[j].executed == Completed || rob[i].id in rob[j].dependents
  }

  ghost predicate StatusInOrder(rob: Rob) {
    && (forall i, j :: 0 <= i < j < |rob| && rob[j].scheduled ==> rob[i].scheduled)
    && (forall i :: 0 <= i < |rob| && rob[i].executed != Idle ==> rob[i].scheduled && rob[i].waitsFor == 0)
  }

  ghost predicate RegInv(s: Regs) {
    && Ordered(s.rob) && StatusInOrder(s.rob)
    && (forall r: Reg :: s.producers[r] == Writers(s.rob, r))
    && Links(s.rob) && RawLinked(s.rob)
  }
}
