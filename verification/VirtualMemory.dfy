/** The page allocator object over the state of PageAllocator. */
module VirtualMemory {
  import opened PageAllocator

  class Memory {
    const c: Config
    var vpageToPpage: map<DataKey, nat>
    var pageTable: map<TableKey, nat>
    var nextPtePage: nat
    var nextPpage: nat

    ghost function Contents(): State
      reads this
    {
      State(vpageToPpage, pageTable, nextPtePage, nextPpage)
    }

    constructor (c: Config)
      requires Sane(c)
      ensures this.c == c && Contents() == Start(c)
    {
      this.c := c;
      vpageToPpage, pageTable, nextPtePage := map[], map[], 0;
      nextPpage := c.reserve;
    }

    method TakePage() returns (p: nat)
      requires Sane(c) && Available(c, Contents())
      modifies this`nextPpage
      ensures p == old(nextPpage) && nextPpage == old(nextPpage) + c.pageSize
    {
      p := nextPpage;
      nextPpage := nextPpage + c.pageSize;
    }

    method VaToPa(cpu: nat, vaddr: nat) returns (paddr: nat, penalty: nat)
      requires Sane(c) && Possible(c, Contents(), Translate(cpu, vaddr))
      modifies this
      ensures Contents() == Next(c, old(Contents()), Translate(cpu, vaddr))
      ensures (cpu, vaddr / c.pageSize) in vpageToPpage
      ensures paddr == Address(c, Contents(), Translate(cpu, vaddr))
      ensures penalty == if (cpu, vaddr / c.pageSize) in old(vpageToPpage) then 0 else c.penalty
    {
      var key := (cpu, vaddr / c.pageSize);
      penalty := 0;
      if key !in vpageToPpage {
        var p := TakePage();
        vpageToPpage := vpageToPpage[key := p];
        penalty := c.penalty;
      }
      paddr := Splice(vpageToPpage[key], vaddr, c.pageSize);
    }

    method GetPtePa(cpu: nat, vaddr: nat, level: Level) returns (paddr: nat, penalty: nat)
      requires Sane(c) && Possible(c, Contents(), Walk(cpu, vaddr, level))
      modifies this
      ensures Contents() == Next(c, old(Contents()), Walk(cpu, vaddr, level))
      ensures TableKeyOf(c, Walk(cpu, vaddr, level)) in pageTable
      ensures paddr == Address(c, Contents(), Walk(cpu, vaddr, level))
      ensures penalty == if TableKeyOf(c, Walk(cpu, vaddr, level)) in old(pageTable) then 0 else c.penalty
    {
      hide Span, Splice, Power;
      if nextPtePage == 0 { nextPtePage := TakePage(); }
      var key := (cpu, vaddr / Span(c, level), level as nat);
      penalty := 0;
      if key !in pageTable {
        pageTable := pageTable[key := nextPtePage];
        nextPtePage := nextPtePage + c.pteSize;
        if nextPtePage % c.pageSize == 0 { nextPtePage := TakePage(); }
        penalty := c.penalty;
      }
      var offset := vaddr / Span(c, level) % (c.pteSize / PTE_BYTES);
      paddr := Splice(pageTable[key], offset * PTE_BYTES, c.pteSize);
    }
  }
}
