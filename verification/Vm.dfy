// kernel/memory/vm.c: two-level ARM page tables kept in 1K chunks.
module Vm {
  import opened Words
  import opened Ledgers
  import opened PageTables
  import opened Walks
  import opened Kalloc

  class Vm {
    const alloc: Kalloc
    const kernelEnd: nat
    // Where process_vm, the table sets of the slots, starts.
    const processVm: TableAddress
    var tables: seq<Table>
    ghost var live: seq<set<nat>>

    ghost predicate Valid()
      reads this, alloc
    {
      alloc.Valid() && Ample(alloc.ledger) && TablesOwned(tables, live, alloc.ledger) && kernelEnd <= 0x80_0000
    }

    constructor (alloc: Kalloc, kernelEnd: nat, processVm: TableAddress)
      ensures this.alloc == alloc && this.kernelEnd == kernelEnd
      ensures tables == seq(11, _ => EMPTY) && live == seq(11, _ => {})
    {
      this.alloc, this.kernelEnd, this.processVm := alloc, kernelEnd, processVm;
      tables, live := seq(11, _ => EMPTY), seq(11, _ => {});
    }

    /** The address of the table set of slot `t`. */
    function TableAt(t: nat): TableAddress { processVm + 16384 * t }

    /** resolve_physical_address in the table set of slot `t`. */
    method Resolve(t: nat, virtual: nat, ghost s: nat, ghost j: nat, ghost o: nat) returns (physical: nat)
      requires t < |tables| && s < 4096 && j < 256 && o < 4096 && virtual == 0x10_0000 * s + 4096 * j + o
      ensures physical == Indexed(alloc.ram, tables[t][s], j, o)
    {
      var table, vm := tables[t], TableAt(t);
      WalkPage(alloc.ram, table, vm, s, j, o);
      physical := Walk(alloc.ram, table, vm, virtual);
    }

    /** memset of a page table to zero. */
    method ClearChunk(block: nat, ghost b: Block)
      requires alloc.Valid() && b in alloc.ledger.chunk && alloc.ledger.chunk[b].UsedChunk? && block == P2V(b.Address())
      modifies alloc`ram
      ensures alloc.Valid() && OnlyChunk(old(alloc.ram), alloc.ram, b)
      ensures forall j :: 0 <= j < 256 ==> Le32(alloc.ram[b.page], 1024 * b.quarter + 4 * j) == 0
    {
      Quotient(b.page, 1024 * b.quarter);
      var p, o := V2P(block) / 4096, V2P(block) % 4096;
      var frame := PutBytes(alloc.ram[p], o, seq(1024, _ => 0));
      alloc.WriteChunk(b, p, frame);
    }

    /** kalloc1k followed by memset: a zeroed page table that nobody owned before. */
    method NewPageTable(ghost t: nat, ghost s: nat) returns (entry: Section, ghost b: Block)
      requires alloc.Valid() && Ample(alloc.ledger)
      modifies alloc
      ensures alloc.Valid() && entry.desc == 1 && entry.base == b
      ensures ChunkTaken(old(alloc.ledger), alloc.ledger, b, UsedChunk(t, s))
      ensures FreshChunk(old(alloc.ledger), old(alloc.ram), alloc.ram, b)
      ensures forall j :: 0 <= j < 256 ==> Le32(alloc.ram[b.page], 1024 * b.quarter + 4 * j) == 0
    {
      AmpleNeverEmpty(alloc.ledger);
      var pageTable: nat;
      pageTable, b := alloc.Alloc1k(t, s);
      ClearChunk(pageTable, b);
      entry := Section(1, BlockAt(V2P(pageTable)));
      BlockAtAddress(b);
    }

    /** Gives section `s` of table set `t` a zeroed page table. */
    method AddTable(t: nat, s: nat)
      requires Valid() && t < 11 && Held(tables, live, t) && s < 4096 && Allowed(s) && tables[t][s].desc == 0
      modifies this, alloc
      ensures Valid() && Held(tables, live, t) && tables[t][s].desc != 0
      ensures OthersKept(old(tables), old(live), old(alloc.ram), tables, live, alloc.ram, t)
      ensures SameView(old(alloc.ram), old(tables)[t], alloc.ram, tables[t])
      ensures PagesKept(old(alloc.ledger), old(alloc.ram), alloc.ledger, alloc.ram)
    {
      RoomForTable(tables, live, alloc.ledger, t, s);
      var entry, b := NewPageTable(t, s);
      EnterChunk(tables, live, old(alloc.ledger), alloc.ledger, b, t, s, entry);
      GrowViews(tables, live, old(alloc.ledger), old(alloc.ram), alloc.ledger, alloc.ram, b, t, s, entry);
      tables, live := tables[t := tables[t][s := entry]], live[t := live[t] + {s}];
    }

    /** Writes word `w` for page `j` of section `s`, which has a page table. */
    method StorePte(t: nat, s: nat, j: nat, w: nat)
      requires Valid() && t < 11 && Held(tables, live, t) && s < 4096 && j < 256
      requires tables[t][s].desc != 0 && w < 0x1_0000_0000
      modifies alloc`ram
      ensures Valid()
      ensures OthersKept(tables, live, old(alloc.ram), tables, live, alloc.ram, t)
      ensures OneChanged(old(alloc.ram), tables[t], alloc.ram, tables[t], s, j, w)
      ensures PagesKept(alloc.ledger, old(alloc.ram), alloc.ledger, alloc.ram)
    {
      var b := tables[t][s].base;
      assert s in live[t] && b in alloc.ledger.chunk;
      var frame := StoreWord(alloc.ram[b.page], 1024 * b.quarter + 4 * j, w);
      alloc.WriteChunk(b, b.page, frame);
      StoreViews(tables, live, alloc.ledger, old(alloc.ram), alloc.ram, t, s, j, w);
    }

    /** Stores a page-table word, giving the section a page table first if it has none. */
    method SetPte(t: nat, s: nat, j: nat, w: nat)
      requires Valid() && t < 11 && Held(tables, live, t)
      requires s < 4096 && j < 256 && Allowed(s) && w < 0x1_0000_0000
      modifies this, alloc
      ensures Valid() && Held(tables, live, t)
      ensures OthersKept(old(tables), old(live), old(alloc.ram), tables, live, alloc.ram, t)
      ensures OneChanged(old(alloc.ram), old(tables)[t], alloc.ram, tables[t], s, j, w)
      ensures PagesKept(old(alloc.ledger), old(alloc.ram), alloc.ledger, alloc.ram)
    {
      if tables[t][s].desc == 0 {
        AddTable(t, s);
      }
      ghost var mid := alloc.ram;
      StorePte(t, s, j, w);
      OthersKeptTwice(old(tables), old(live), old(alloc.ram), tables, live, mid, tables, live, alloc.ram, t);
    }

    /** Maps one virtual page, page `j` of section `s`, to the frame at `physical`. */
    method MapPage(t: nat, physical: nat, virtual: nat, access: nat, ghost frame: nat, ghost s: nat, ghost j: nat)
      requires Valid() && t < 11 && Held(tables, live, t)
      requires s < 4096 && j < 256 && Allowed(s) && virtual == 0x10_0000 * s + 4096 * j
      requires physical == 4096 * frame && frame < 0x10_0000 && access < 256
      modifies this, alloc
      ensures Valid() && Held(tables, live, t)
      ensures OthersKept(old(tables), old(live), old(alloc.ram), tables, live, alloc.ram, t)
      ensures Mapped(old(alloc.ram), old(tables)[t], alloc.ram, tables[t], 256 * s + j, 1, frame, access)
      ensures PagesKept(old(alloc.ledger), old(alloc.ram), alloc.ledger, alloc.ram)
    {
      var sectionIndex, pageIndex := Indices(virtual, s, j);
      SetPte(t, sectionIndex, pageIndex, physical + 16 * access + 2);
      OneMapped(old(alloc.ram), old(tables)[t], alloc.ram, tables[t], s, j, frame, access);
    }

    /** Maps a run of virtual pages to the frames of [physicalStart, physicalEnd). */
    method MapPages(t: nat, virtualAddress: nat, physicalStart: nat, physicalEnd: nat, access: nat,
                    ghost first: nat, ghost frame: nat, ghost count: nat)
      requires Valid() && t < 11 && Held(tables, live, t)
      requires 4096 * first <= virtualAddress < 4096 * first + 4096 && first + count <= 0x10_0000
      requires 4096 * frame <= physicalStart < 4096 * frame + 4096
      requires 4096 * (frame + count) - 4096 < physicalEnd <= 4096 * (frame + count)
      requires frame + count <= 0x10_0000 && access < 256
      requires AllAllowed(first, count)
      modifies this, alloc
      ensures Valid() && Held(tables, live, t)
      ensures OthersKept(old(tables), old(live), old(alloc.ram), tables, live, alloc.ram, t)
      ensures Mapped(old(alloc.ram), old(tables)[t], alloc.ram, tables[t], first, count, frame, access)
      ensures PagesKept(old(alloc.ledger), old(alloc.ram), alloc.ledger, alloc.ram)
    {
      var virtualCurrent, physicalCurrent, physicalStop :=
        Rounded(virtualAddress, physicalStart, physicalEnd, first, frame, frame + count);
      ghost var k := 0;
      while physicalCurrent != physicalStop
        invariant k <= count && virtualCurrent == 4096 * (first + k) && physicalCurrent == 4096 * (frame + k)
        invariant Valid() && Held(tables, live, t)
        invariant OthersKept(old(tables), old(live), old(alloc.ram), tables, live, alloc.ram, t)
        invariant Mapped(old(alloc.ram), old(tables)[t], alloc.ram, tables[t], first, k, frame, access)
        invariant PagesKept(old(alloc.ledger), old(alloc.ram), alloc.ledger, alloc.ram)
        decreases count - k
      {
        ghost var tables1, live1, ram1 := tables, live, alloc.ram;
        ghost var s, j := SplitPageNumber(first, count, first + k);
        MapPage(t, physicalCurrent, virtualCurrent, access, frame + k, s, j);
        OthersKeptTwice(old(tables), old(live), old(alloc.ram), tables1, live1, ram1, tables, live, alloc.ram, t);
        MappedStep(old(alloc.ram), old(tables)[t], ram1, tables1[t], alloc.ram, tables[t], first, k, frame, access);
        virtualCurrent := virtualCurrent + 4096;
        physicalCurrent := physicalCurrent + 4096;
        k := k + 1;
      }
    }

    /** Enters kernel mapping `i` after the ones before it. */
    method MapKernelRun(t: nat, i: nat)
      requires Valid() && t < 11 && Held(tables, live, t) && i < 6
      requires KernelView(kernelEnd, i, alloc.ram, tables[t])
      modifies this, alloc
      ensures Valid() && Held(tables, live, t)
      ensures OthersKept(old(tables), old(live), old(alloc.ram), tables, live, alloc.ram, t)
      ensures KernelView(kernelEnd, i + 1, alloc.ram, tables[t])
      ensures PagesKept(old(alloc.ledger), old(alloc.ram), alloc.ledger, alloc.ram)
    {
      ghost var r := KernelRun(kernelEnd, i);
      KernelRunFits(kernelEnd, i);
      var m := KernelMapping(kernelEnd, i);
      MapPages(t, m.virtual, m.start, m.end, 0x55, r.first, r.frame, r.count);
      KernelViewStep(kernelEnd, i, old(alloc.ram), old(tables)[t], alloc.ram, tables[t]);
    }

    /** Empties table set `t` and enters the kernel's mappings. */
    method SetupKernelVm(t: nat)
      requires Valid() && t < 11 && live[t] == {}
      modifies this, alloc
      ensures Valid() && Held(tables, live, t)
      ensures OthersKept(old(tables), old(live), old(alloc.ram), tables, live, alloc.ram, t)
      ensures KernelView(kernelEnd, 6, alloc.ram, tables[t])
      ensures PagesKept(old(alloc.ledger), old(alloc.ram), alloc.ledger, alloc.ram)
    {
      ClearedTable(tables, live, alloc.ledger, alloc.ram, t);
      tables := tables[t := EMPTY];
      var i := 0;
      while i < 6
        invariant i <= 6
        invariant Valid() && Held(tables, live, t)
        invariant OthersKept(old(tables), old(live), old(alloc.ram), tables, live, alloc.ram, t)
        invariant KernelView(kernelEnd, i, alloc.ram, tables[t])
        invariant PagesKept(old(alloc.ledger), old(alloc.ram), alloc.ledger, alloc.ram)
      {
        ghost var tables1, live1, ram1 := tables, live, alloc.ram;
        MapKernelRun(t, i);
        OthersKeptTwice(old(tables), old(live), old(alloc.ram), tables1, live1, ram1, tables, live, alloc.ram, t);
        i := i + 1;
      }
    }

    /** Gives back the page table of section `i`. */
    method FreePageTable(t: nat, i: nat)
      requires Valid() && t < 11 && i in live[t]
      modifies this`live, alloc
      ensures Valid() && live == old(live)[t := old(live)[t] - {i}] && alloc.ledger.page == old(alloc.ledger.page)
      ensures OthersKept(tables, old(live), old(alloc.ram), tables, live, alloc.ram, t)
      ensures PagesKept(old(alloc.ledger), old(alloc.ram), alloc.ledger, alloc.ram)
    {
      DropChunk(tables, live, alloc.ledger, t, i);
      var b := tables[t][i].base;
      alloc.Free1k(P2V(b.Address()), b);
      DropViews(tables, live, old(alloc.ledger), old(alloc.ram), alloc.ram, t, i, old(alloc.head1k));
      live := live[t := live[t] - {i}];
    }

    /** Gives back every page table of table set `t`; its entries are left as they are. */
    method FreeVmPageTables(t: nat)
      requires Valid() && t < 11 && Held(tables, live, t)
      modifies this`live, alloc
      ensures Valid() && live == old(live)[t := {}] && alloc.ledger.page == old(alloc.ledger.page)
      ensures OthersKept(tables, old(live), old(alloc.ram), tables, live, alloc.ram, t)
      ensures PagesKept(old(alloc.ledger), old(alloc.ram), alloc.ledger, alloc.ram)
    {
      var i := 0;
      while i < 4096
        invariant i <= 4096
        invariant Valid() && HeldFrom(tables, live, t, i) && alloc.ledger.page == old(alloc.ledger.page)
        invariant OthersKept(tables, old(live), old(alloc.ram), tables, live, alloc.ram, t)
        invariant PagesKept(old(alloc.ledger), old(alloc.ram), alloc.ledger, alloc.ram)
      {
        ghost var live1, ram1 := live, alloc.ram;
        DropStep(tables, live, t, i);
        if tables[t][i].desc != 0 {
          FreePageTable(t, i);
          OthersKeptTwice(tables, old(live), old(alloc.ram), tables, live1, ram1, tables, live, alloc.ram, t);
        }
        i := i + 1;
      }
      AllDropped(tables, old(live), live, alloc.ledger, t);
    }

    /** Clears the type field of the word for page `j` of section `s`. */
    method UnmapPage(t: nat, virtual: nat, ghost s: nat, ghost j: nat)
      requires Valid() && t < 11 && Held(tables, live, t) && s < 4096 && j < 256
      requires virtual == 0x10_0000 * s + 4096 * j && tables[t][s].desc != 0
      modifies alloc`ram
      ensures Valid()
      ensures OthersKept(tables, live, old(alloc.ram), tables, live, alloc.ram, t)
      ensures OneChanged(old(alloc.ram), tables[t], alloc.ram, tables[t], s, j,
                         Unmapped(Lookup(old(alloc.ram), tables[t], s, j)))
      ensures PagesKept(alloc.ledger, old(alloc.ram), alloc.ledger, alloc.ram)
    {
      var sectionIndex, pageIndex := Indices(virtual, s, j);
      StorePte(t, sectionIndex, pageIndex, Unmapped(Lookup(alloc.ram, tables[t], sectionIndex, pageIndex)));
    }
  }
}
