/** The entities of the out-of-order core. References between queue entries are
    instruction ids (for the reorder buffer) and slot numbers (for the load queue). */
module CoreState {
  import opened Options

  type Id = nat
  type Addr = nat

  const REGISTERS: nat := 256

  type Reg = r: nat | r < REGISTERS

  datatype Status = Idle | Inflight | Completed

  datatype Instr = Instr(
    id: Id,
    sources: seq<Reg>,
    destinations: seq<Reg>,
    loads: seq<Addr>,
    stores: seq<Addr>,
    isBranch: bool,
    fetched: bool,
    decoded: bool,
    scheduled: bool,
    executed: Status,
    event: nat,
    memDone: nat,
    waitsFor: int,
    dependents: seq<Id>
  ) {
    function MemOps(): nat {
      |stores| + |loads|
    }
  }

  /** A load queue entry; `producer` names the store it waits on, if any. */
  datatype Load = Load(id: Id, addr: Addr, event: nat, issued: bool, producer: Option<Id>)

  /** A store queue entry; `waiting` lists the load queue slots to serve when it finishes. */
  datatype Store = Store(id: Id, addr: Addr, event: nat, finished: bool, waiting: seq<nat>)

  type Rob = seq<Instr>
  type Producers = p: seq<seq<Id>> | |p| == REGISTERS witness seq(REGISTERS, _ => [])
  type LoadQueue = seq<Option<Load>>
  type StoreQueue = seq<Store>

  ghost predicate Ordered(rob: Rob) {
    forall i, j :: 0 <= i < j < |rob| ==> rob[i].id < rob[j].id
  }

  /** Where a reference to instruction `id` leads; |rob| if it dangles. */
  function Position(rob: Rob, id: Id): (p: nat)
    ensures p <= |rob|
    ensures p < |rob| ==> rob[p].id == id
    ensures forall k :: 0 <= k < p ==> rob[k].id != id
  {
    if rob == [] then 0
    else if rob[0].id == id then 0
    else 1 + Position(rob[1..], id)
  }

  lemma PositionOf(rob: Rob, i: nat)
    requires Ordered(rob) && i < |rob|
    ensures Position(rob, rob[i].id) == i
  {
  }

  /** Positions depend on the ids only. */
  lemma PositionSame(a: Rob, b: Rob, id: Id)
    requires |a| == |b| && forall i :: 0 <= i < |a| ==> a[i].id == b[i].id
    ensures Position(a, id) == Position(b, id)
  {
    var p, q := Position(a, id), Position(b, id);
    assert p < |a| ==> b[p].id == id;
    assert q < |b| ==> a[q].id == id;
  }
}
