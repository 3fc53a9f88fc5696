/** One memory channel: two slot queues, per-bank requests that point into them, one
    transfer on the data bus, and a read/write mode. */
module DramState {
  import opened Options
  import opened Scans
  import opened SetUnion

  /** The event cycle of an entry that a bank is already working on. */
  const NEVER: nat := 0xFFFF_FFFF_FFFF_FFFF

  datatype Request = Request(
    address: nat, data: nat, deps: seq<nat>, toReturn: seq<nat>, scheduled: bool, checked: bool, event: nat)

  type Queue = seq<Option<Request>>

  /** A queue slot, in the write queue or in the read queue. */
  datatype Slot = Slot(write: bool, index: nat)

  datatype Bank = Bank(valid: bool, rowHit: bool, openRow: nat, event: nat, pkt: Slot)

  const NO_ROW: nat := 0xFFFF_FFFF

  /** A response pushed to the upper level queue `to`. */
  datatype Response = Response(to: nat, address: nat, data: nat, deps: seq<nat>)

  datatype Config = Config(
    blockSize: nat, channels: nat, banks: nat, columns: nat, ranks: nat, rows: nat, rqSize: nat, wqSize: nat,
    tRP: nat, tRCD: nat, tCAS: nat, turnAround: nat, returnTime: nat
  ) {
    ghost predicate Valid() {
      blockSize > 0 && channels > 0 && banks > 0 && columns > 0 && ranks > 0 && rows > 0 && rqSize > 0 && wqSize > 0
    }

    function HighMark(): nat { wqSize * 7 / 8 }

    function LowMark(): nat { wqSize * 6 / 8 }
  }

  datatype Channel = Channel(
    rq: Queue, wq: Queue, banks: seq<Bank>, active: Option<nat>, writeMode: bool, busFree: nat,
    congestion: int, out: seq<Response>
  ) {
    function Q(write: bool): Queue { if write then wq else rq }

    function WithQ(write: bool, q: Queue): Channel { if write then this.(wq := q) else this.(rq := q) }
  }

  // ---- Addresses ----

  function Lg2(n: nat): nat {
    if n < 2 then 0 else 1 + Lg2(n / 2)
  }

  function Pow2(k: nat): (p: nat)
    ensures p > 0
  {
    if k == 0 then 1 else 2 * Pow2(k - 1)
  }

  /** How many values a field for `n` units can take: the largest power of two in `n`. */
  function Span(n: nat): nat {
    Pow2(Lg2(n))
  }

  lemma {:induction false} SpanBounds(n: nat)
    requires n > 0
    ensures 0 < Span(n) <= n < 2 * Span(n)
  {
    if n < 2 {
    } else {
      SpanBounds(n / 2);
    }
  }

  function Block(cfg: Config, address: nat): nat
    requires cfg.blockSize > 0
  {
    address / cfg.blockSize
  }

  function ChannelOf(cfg: Config, address: nat): nat
    requires cfg.blockSize > 0
  {
    Block(cfg, address) % Span(cfg.channels)
  }

  function BankOf(cfg: Config, address: nat): nat
    requires cfg.blockSize > 0
  {
    Block(cfg, address) / Span(cfg.channels) % Span(cfg.banks)
  }

  function ColumnOf(cfg: Config, address: nat): nat
    requires cfg.blockSize > 0
  {
    Block(cfg, address) / Span(cfg.channels) / Span(cfg.banks) % Span(cfg.columns)
  }

  function RankOf(cfg: Config, address: nat): nat
    requires cfg.blockSize > 0
  {
    Block(cfg, address) / Span(cfg.channels) / Span(cfg.banks) / Span(cfg.columns) % Span(cfg.ranks)
  }

  function RowOf(cfg: Config, address: nat): nat
    requires cfg.blockSize > 0
  {
    Block(cfg, address) / Span(cfg.channels) / Span(cfg.banks) / Span(cfg.columns) / Span(cfg.ranks) % Span(cfg.rows)
  }

  /** The bank request an address belongs to. */
  function OpIndex(cfg: Config, address: nat): (i: nat)
    requires cfg.Valid()
    ensures i < cfg.ranks * cfg.banks
  {
    var i := RankOf(cfg, address) * cfg.banks + BankOf(cfg, address);
    SpanBounds(cfg.ranks);
    SpanBounds(cfg.banks);
    MixedRadix(RankOf(cfg, address), BankOf(cfg, address), cfg.ranks, cfg.banks);
    i
  }

  lemma MixedRadix(a: nat, b: nat, n: nat, m: nat)
    requires a < n && b < m
    ensures a * m + b < n * m
  {
    assert (a + 1) * m <= n * m;
  }

  // ---- Adding requests ----

  function Empty(): Option<Request> -> bool {
    (e: Option<Request>) => e.None?
  }

  function Occupied(): Option<Request> -> bool {
    (e: Option<Request>) => e.Some?
  }

  function Occupancy(q: Queue): nat {
    Tally(q, Occupied())
  }

  /** The first empty slot takes the request; a full queue refuses it. */
  function AddTo(q: Queue, r: Request, now: nat): (res: (Queue, bool))
    ensures |res.0| == |q|
  {
    var k := First(q, Empty());
    if k < |q| then (q[k := Some(r.(scheduled := false, checked := false, event := now))], true) else (q, false)
  }

  // ---- Collisions ----

  predicate SameBlock(cfg: Config, e: Option<Request>, address: nat)
    requires cfg.blockSize > 0
  {
    e.Some? && Block(cfg, e.value.address) == Block(cfg, address)
  }

  /** The first slot in [lo, hi) that holds the block of `address`; `hi` if none. */
  function FindBlock(cfg: Config, q: Queue, lo: nat, hi: nat, address: nat): (k: nat)
    requires cfg.blockSize > 0 && lo <= hi <= |q|
    ensures lo <= k <= hi
    ensures k < hi ==> SameBlock(cfg, q[k], address)
    ensures forall i :: lo <= i < k ==> !SameBlock(cfg, q[i], address)
    decreases hi - lo
  {
    if lo == hi || SameBlock(cfg, q[lo], address) then lo else FindBlock(cfg, q, lo + 1, hi, address)
  }

  function CheckWrite(cfg: Config, wq: Queue, k: nat): (r: Queue)
    requires cfg.blockSize > 0 && k < |wq|
    ensures |r| == |wq|
  {
    if wq[k].None? || wq[k].value.checked then wq
    else
      var a := wq[k].value.address;
      if FindBlock(cfg, wq, 0, k, a) != k || FindBlock(cfg, wq, k + 1, |wq|, a) != |wq| then wq[k := None]
      else wq[k := Some(wq[k].value.(checked := true))]
  }

  function CheckWrites(cfg: Config, wq: Queue, k: nat): (r: Queue)
    requires cfg.blockSize > 0 && k <= |wq|
    ensures |r| == |wq|
    decreases |wq| - k
  {
    if k == |wq| then wq else CheckWrites(cfg, CheckWrite(cfg, wq, k), k + 1)
  }

  function Responses(e: Request, data: nat, toReturn: seq<nat>): (r: seq<Response>)
    ensures |r| == |toReturn|
    ensures forall i :: 0 <= i < |r| ==> r[i] == Response(toReturn[i], e.address, data, e.deps)
  {
    seq(|toReturn|, i requires 0 <= i < |toReturn| => Response(toReturn[i], e.address, data, e.deps))
  }

  function Absorb(found: Request, x: Request): Request {
    found.(deps := Union(found.deps, x.deps), toReturn := Union(found.toReturn, x.toReturn))
  }

  /** Entry `k` of the read queue: answered from the write queue, absorbed by another
      read of the same block, or kept. */
  function CheckRead(cfg: Config, rq: Queue, wq: Queue, out: seq<Response>, k: nat): (r: (Queue, seq<Response>))
    requires cfg.blockSize > 0 && k < |rq|
    ensures |r.0| == |rq|
  {
    if rq[k].None? || rq[k].value.checked then (rq, out)
    else
      var x := rq[k].value;
      var w := FindBlock(cfg, wq, 0, |wq|, x.address);
      var before := FindBlock(cfg, rq, 0, k, x.address);
      var after := FindBlock(cfg, rq, k + 1, |rq|, x.address);
      if w < |wq| then (rq[k := None], out + Responses(x, wq[w].value.data, x.toReturn))
      else if before < k then (rq[before := Some(Absorb(rq[before].value, x))][k := None], out)
      else if after < |rq| then (rq[after := Some(Absorb(rq[after].value, x))][k := None], out)
      else (rq[k := Some(x.(checked := true))], out)
  }

  function CheckReads(cfg: Config, rq: Queue, wq: Queue, out: seq<Response>, k: nat): (r: (Queue, seq<Response>))
    requires cfg.blockSize > 0 && k <= |rq|
    ensures |r.0| == |rq|
    decreases |rq| - k
  {
    if k == |rq| then (rq, out)
    else
      var (rq1, out1) := CheckRead(cfg, rq, wq, out, k);
      CheckReads(cfg, rq1, wq, out1, k + 1)
  }

  function CheckCollision(cfg: Config, c: Channel): Channel
    requires cfg.blockSize > 0
  {
    var wq := CheckWrites(cfg, c.wq, 0);
    var (rq, out) := CheckReads(cfg, c.rq, wq, c.out, 0);
    c.(wq := wq, rq := rq, out := out)
  }

  // ---- Warm-up, the end of a transfer, mode switches ----

  /** During warm-up every read is answered at once and every write dropped. */
  function DrainReads(rq: Queue, out: seq<Response>, k: nat): (r: (Queue, seq<Response>))
    requires k <= |rq|
    ensures |r.0| == |rq|
    decreases |rq| - k
  {
    if k == |rq| then (rq, out)
    else if rq[k].Some?
    then DrainReads(rq[k := None], out + Responses(rq[k].value, rq[k].value.data, rq[k].value.toReturn), k + 1)
    else DrainReads(rq, out, k + 1)
  }

  function Drain(c: Channel): Channel {
    var (rq, out) := DrainReads(c.rq, c.out, 0);
    c.(rq := rq, wq := seq(|c.wq|, _ => None), out := out)
  }

  function FinishRequest(c: Channel, now: nat): Channel {
    if c.active.Some? && c.active.value < |c.banks| && c.banks[c.active.value].event <= now then
      var i := c.active.value;
      var s := c.banks[i].pkt;
      if s.index < |c.Q(s.write)| && c.Q(s.write)[s.index].Some? then
        var e := c.Q(s.write)[s.index].value;
        c.WithQ(s.write, c.Q(s.write)[s.index := None])
          .(banks := c.banks[i := c.banks[i].(valid := false)], active := None,
            out := c.out + Responses(e, e.data, e.toReturn))
      else c
    else c
  }

  predicate Unbalanced(cfg: Config, c: Channel) {
    var w, r := Occupancy(c.wq), Occupancy(c.rq);
    if c.writeMode then w == 0 || (r > 0 && w < cfg.LowMark())
    else w >= cfg.HighMark() || (r == 0 && w > 0)
  }

  /** Take back the work of bank `k`, unless it is on the bus. */
  function Unschedule(cfg: Config, c: Channel, k: nat, now: nat): (r: Channel)
    requires k < |c.banks|
    ensures |r.banks| == |c.banks|
  {
    var b := c.banks[k];
    if c.active == Some(k) || !b.valid then c
    else
      var c1 := c.(banks :=
          c.banks[k := b.(valid := false, openRow := if b.event < now + cfg.tCAS then NO_ROW else b.openRow)]);
      if b.pkt.index < |c.Q(b.pkt.write)| && c.Q(b.pkt.write)[b.pkt.index].Some? then
        c1.WithQ(b.pkt.write, c.Q(b.pkt.write)[b.pkt.index :=
          Some(c.Q(b.pkt.write)[b.pkt.index].value.(scheduled := false, event := now))])
      else c1
  }

  function UnscheduleAll(cfg: Config, c: Channel, k: nat, now: nat): (r: Channel)
    requires k <= |c.banks|
    ensures |r.banks| == |c.banks|
    decreases |c.banks| - k
  {
    if k == |c.banks| then c else UnscheduleAll(cfg, Unschedule(cfg, c, k, now), k + 1, now)
  }

  function SwitchMode(cfg: Config, c: Channel, now: nat): Channel {
    if !Unbalanced(cfg, c) then c
    else
      var c1 := UnscheduleAll(cfg, c, 0, now);
      var free := (if c.active.Some? && c.active.value < |c.banks| then c.banks[c.active.value].event else now)
          + cfg.turnAround;
      c1.(busFree := free, writeMode := !c.writeMode)
  }

  // ---- The data bus and the banks ----

  function IsValidBank(): Bank -> bool {
    (b: Bank) => b.valid
  }

  function BankUrgency(): Bank -> int {
    (b: Bank) => 0 - b.event
  }

  /** How many cycles longer the bus stays taken. */
  function BusBusyFor(c: Channel, now: nat): int
    requires c.active.Some? ==> c.active.value < |c.banks|
  {
    (if c.active.Some? then c.banks[c.active.value].event else c.busFree) - now
  }

  function UseBus(cfg: Config, c: Channel, now: nat): Channel
    requires |c.banks| > 0 && (c.active.Some? ==> c.active.value < |c.banks|)
  {
    var i := Scan(c.banks, IsValidBank(), BankUrgency());
    if c.banks[i].valid && c.banks[i].event <= now then
      if c.active.None? && c.busFree <= now
      then c.(active := Some(i), banks := c.banks[i := c.banks[i].(event := now + cfg.returnTime)])
      else c.(congestion := c.congestion + BusBusyFor(c, now))
    else c
  }

  function Unscheduled(): Option<Request> -> bool {
    (e: Option<Request>) => e.Some? && !e.value.scheduled
  }

  function RequestAge(): Option<Request> -> int {
    (e: Option<Request>) => if e.Some? then 0 - e.value.event else 0
  }

  function ScheduleRequest(cfg: Config, c: Channel, now: nat): Channel
    requires cfg.Valid() && |c.rq| > 0 && |c.wq| > 0 && |c.banks| == cfg.ranks * cfg.banks
  {
    var q := c.Q(c.writeMode);
    var k := Scan(q, Unscheduled(), RequestAge());
    if q[k].Some? && q[k].value.event <= now then
      var e := q[k].value;
      var i := OpIndex(cfg, e.address);
      if c.banks[i].valid then c
      else
        var row := RowOf(cfg, e.address);
        var hit := c.banks[i].openRow == row;
        c.WithQ(c.writeMode, q[k := Some(e.(scheduled := true, event := NEVER))])
          .(banks := c.banks[i :=
              Bank(true, hit, row, now + cfg.tCAS + (if hit then 0 else cfg.tRP + cfg.tRCD), Slot(c.writeMode, k))])
    else c
  }

  /** Sizes as configured, and the bus naming a bank that exists. */
  predicate Shaped(cfg: Config, c: Channel) {
    && |c.rq| == cfg.rqSize && |c.wq| == cfg.wqSize && |c.banks| == cfg.ranks * cfg.banks
    && (c.active.Some? ==> c.active.value < |c.banks|)
  }

  /** One call of the controller on this channel, after the new requests were added. */
  function Operate(cfg: Config, c: Channel, now: nat, warmup: bool): (d: Channel)
    requires cfg.Valid() && Shaped(cfg, c)
    ensures Shaped(cfg, d)
  {
    hide CheckCollision, Drain, FinishRequest, SwitchMode;
    OperateShape(cfg, c, now, warmup);
    var c1 := CheckCollision(cfg, if warmup then Drain(c) else c);
    var c2 := SwitchMode(cfg, FinishRequest(c1, now), now);
    ScheduleRequest(cfg, UseBus(cfg, c2, now), now)
  }

  lemma {:induction false} UnscheduleAllShape(cfg: Config, c: Channel, k: nat, now: nat)
    requires k <= |c.banks|
    ensures var r := UnscheduleAll(cfg, c, k, now);
      r.active == c.active && |r.rq| == |c.rq| && |r.wq| == |c.wq| && |r.banks| == |c.banks|
    decreases |c.banks| - k
  {
    if k == |c.banks| {
    } else {
      UnscheduleAllShape(cfg, Unschedule(cfg, c, k, now), k + 1, now);
    }
  }

  /** Sizes never change. */
  lemma OperateShape(cfg: Config, c: Channel, now: nat, warmup: bool)
    requires cfg.Valid() && (c.active.Some? ==> c.active.value < |c.banks|)
    ensures var c1 := CheckCollision(cfg, if warmup then Drain(c) else c);
      var c2 := SwitchMode(cfg, FinishRequest(c1, now), now);
      && |c2.rq| == |c.rq| && |c2.wq| == |c.wq| && |c2.banks| == |c.banks|
      && (c2.active.Some? ==> c2.active.value < |c.banks|)
  {
    var c1 := CheckCollision(cfg, if warmup then Drain(c) else c);
    UnscheduleAllShape(cfg, FinishRequest(c1, now), 0, now);
  }
}
