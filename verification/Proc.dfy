// kernel/proc/proc.c: the process table.
module Proc {
  import opened Words
  import opened Ledgers
  import opened PageTables
  import opened Walks
  import opened Spaces
  import opened Vm

  /** heap_size / PAGE_SIZE */
  function HeapPageCount(heapSize: nat, ghost n: nat): (count: nat)
    requires heapSize == 4096 * n
    ensures count == n
  {
    heapSize / 4096
  }

  class ProcTable {
    const vm: Vm
    var procs: seq<Process>
    ghost var own: seq<Pages>
    ghost var managed: set<nat>

    constructor (vm: Vm)
      ensures this.vm == vm && own == seq(10, _ => map[]) && managed == vm.alloc.ledger.page.Keys && |procs| == 10
      ensures forall t :: 0 <= t < 10 ==> procs[t].state == UNUSED && |procs[t].context| == 17
    {
      this.vm := vm;
      procs := seq(10, _ => Process(UNUSED, 0, 0, 0, 0, 0, seq(17, _ => 0), 0));
      own := seq(10, _ => map[]);
      managed := vm.alloc.ledger.page.Keys;
    }

    ghost predicate MemOk()
      reads this`own, this`managed, vm, vm.alloc
    {
      vm.Valid() && PagesOwned(own, vm.alloc.ledger) && vm.alloc.ledger.page.Keys == managed
    }

    /** kalloc for page `k` of slot `t`; the result is never NULL. */
    method TakePage(t: nat, ghost k: nat) returns (page: nat, ghost p: nat)
      requires MemOk() && t < 10 && k !in own[t] && |own[t]| < 258
      modifies this`own, vm.alloc
      ensures MemOk() && page == P2V(4096 * p) && page != NULL && p < 0x1_0000
      ensures own == old(own)[t := With(old(own)[t], k, p)]
      ensures vm.alloc.ram == old(vm.alloc.ram)
    {
      RoomForPage(own, vm.alloc.ledger, t, k);
      AmpleNeverEmpty(vm.alloc.ledger);
      TakeOwned(own, vm.alloc.ledger, t, k);
      p := vm.alloc.ledger.free4[0].page;
      assert vm.alloc.ledger.free4[0] in vm.alloc.ledger.free4;
      SameManaged(vm.alloc.ledger.page, p, UsedPage(t, k));
      SameChunksOwned(vm.tables, vm.live, vm.alloc.ledger, vm.alloc.ledger.Take4(t, k));
      page := vm.alloc.Alloc(t, k);
      own := own[t := With(own[t], k, p)];
    }

    /** Replaces the contents of page `k` of slot `t`. */
    method WriteOwned(p: nat, frame: Frame, ghost t: nat, ghost k: nat)
      requires MemOk() && t < 10 && k in own[t] && p == own[t][k]
      modifies vm.alloc`ram
      ensures MemOk() && p < 0x1_0000 && vm.alloc.ram == old(vm.alloc.ram)[p := frame]
      ensures ViewsKept(vm.tables, vm.live, old(vm.alloc.ram), vm.alloc.ram)
      ensures PagesBut(own, old(vm.alloc.ram), vm.alloc.ram, t, k)
    {
      vm.alloc.WritePage(p, frame);
      PageStoreKeepsViews(vm.tables, vm.live, vm.alloc.ledger, old(vm.alloc.ram), vm.alloc.ram, p);
      OnlyFramePagesBut(own, vm.alloc.ledger, old(vm.alloc.ram), vm.alloc.ram, t, k);
    }

    /** kfree of page `k` of slot `t`. */
    method GivePage(page: nat, ghost t: nat, ghost k: nat)
      requires MemOk() && t < 10 && k in own[t] && page == P2V(4096 * own[t][k])
      modifies this`own, vm.alloc
      ensures MemOk() && own == old(own)[t := Without(old(own)[t], k)]
        && OnlyFrees(old(vm.alloc.ledger), vm.alloc.ledger)
      ensures ViewsKept(vm.tables, vm.live, old(vm.alloc.ram), vm.alloc.ram)
      ensures PagesBut(old(own), old(vm.alloc.ram), vm.alloc.ram, t, k)
    {
      ghost var l, p := vm.alloc.ledger, own[t][k];
      GiveOwned(own, l, t, k);
      GiveOnlyFrees(own, l, t, k);
      SameManaged(l.page, p, FreePage);
      vm.alloc.Free(page, p);
      PageStoreKeepsViews(vm.tables, vm.live, l, old(vm.alloc.ram), vm.alloc.ram, p);
      OnlyFramePagesBut(own, l, old(vm.alloc.ram), vm.alloc.ram, t, k);
      SameChunksOwned(vm.tables, vm.live, l, vm.alloc.ledger);
      own := own[t := Without(own[t], k)];
    }

    /** kalloc and memset: a zeroed page `k` for slot `t`. */
    method ZeroedPage(t: nat, ghost k: nat) returns (page: nat, ghost p: nat)
      requires MemOk() && t < 10 && k !in own[t] && |own[t]| < 258
      modifies this`own, vm.alloc
      ensures MemOk() && page == P2V(4096 * p) && p < 0x1_0000
      ensures own == old(own)[t := With(old(own)[t], k, p)]
      ensures ViewsKept(vm.tables, vm.live, old(vm.alloc.ram), vm.alloc.ram)
      ensures vm.alloc.ram == old(vm.alloc.ram)[p := ZEROS]
        && PagesGrown(old(own), own, old(vm.alloc.ram), vm.alloc.ram)
    {
      page, p := TakePage(t, k);
      Quotient(p, 0);
      WriteOwned(V2P(page) / 4096, ZEROS, t, k);
    }

    /** Maps one page of slot `t`; the slots keep their pages. */
    method MapOwn(t: nat, virtual: nat, page: nat, access: nat, ghost first: nat, ghost p: nat)
      requires MemOk() && t < 10 && Held(vm.tables, vm.live, t) && access < 256
      requires virtual == 4096 * first && first < 0x10_0000 && AllAllowed(first, 1)
      requires page == P2V(4096 * p) && p < 0x1_0000
      modifies vm, vm.alloc
      ensures MemOk() && Held(vm.tables, vm.live, t)
      ensures OthersKept(old(vm.tables), old(vm.live), old(vm.alloc.ram), vm.tables, vm.live, vm.alloc.ram, t)
      ensures Mapped(old(vm.alloc.ram), old(vm.tables)[t], vm.alloc.ram, vm.tables[t], first, 1, p, access)
      ensures PagesGrown(own, own, old(vm.alloc.ram), vm.alloc.ram)
    {
      vm.MapPages(t, virtual, V2P(page), V2P(page) + 4096, access, first, p, 1);
      KeepOwned(own, old(vm.alloc.ledger), old(vm.alloc.ram), vm.alloc.ledger, vm.alloc.ram);
    }

    /** Slot `t` has both stacks and `n` heap pages, and its table set maps exactly them. */
    ghost predicate SlotSpace(t: nat, n: nat)
      requires MemOk() && t < 10
      reads this`own, this`managed, vm, vm.alloc
    {
      && Held(vm.tables, vm.live, t) && HasPages(own[t], n)
      && SpaceView(vm.kernelEnd, vm.alloc.ram, vm.tables[t], own[t])
    }

    /** One round of proc_expand_memory: one more zeroed heap page at the end of the heap. */
    method ExpandOne(t: nat, ghost n: nat)
      requires MemOk() && t < 10 && SlotSpace(t, n) && n < 256
      requires |procs| == 10 && procs[t].heapSize == 4096 * n
      modifies this`procs, this`own, vm, vm.alloc
      ensures MemOk() && SlotSpace(t, n + 1)
      ensures Grew(old(vm.tables), old(vm.live), old(vm.alloc.ram), old(own), vm.tables, vm.live, vm.alloc.ram, own, t,
                   n + 2)
      ensures ProcsBut(old(procs), procs, t) && procs[t].heapSize == 4096 * n + 4096
      ensures procs[t] == old(procs)[t].(heapSize := procs[t].heapSize)
    {
      PageCount(own[t], n);
      var heapSize := procs[t].heapSize;
      procs := procs[t := procs[t].(heapSize := heapSize + 4096)];
      var page, p := ZeroedPage(t, n + 2);
      ghost var ram1 := vm.alloc.ram;
      MapOwn(t, heapSize, page, 0xff, n, p);
      HeapGrew(vm.kernelEnd, old(vm.tables), old(vm.live), old(vm.alloc.ram), old(own), ram1,
               vm.tables, vm.live, vm.alloc.ram, own, t, n, p);
    }

    /** Adds `count` zeroed pages to the heap of slot `t`. */
    method ProcExpandMemory(t: nat, count: nat, ghost n: nat)
      requires MemOk() && t < 10 && SlotSpace(t, n) && n + count <= 256
      requires |procs| == 10 && procs[t].heapSize == 4096 * n
      modifies this`procs, this`own, vm, vm.alloc
      ensures MemOk() && SlotSpace(t, n + count)
      ensures Grew(old(vm.tables), old(vm.live), old(vm.alloc.ram), old(own), vm.tables, vm.live, vm.alloc.ram, own, t,
                   n + 2)
      ensures ProcsBut(old(procs), procs, t) && procs[t] == old(procs)[t].(heapSize := 4096 * (n + count))
    {
      var i := 0;
      while i < count
        invariant i <= count
        invariant MemOk() && SlotSpace(t, n + i)
        invariant Grew(old(vm.tables), old(vm.live), old(vm.alloc.ram), old(own), vm.tables, vm.live, vm.alloc.ram, own,
                       t, n + 2)
        invariant ProcsBut(old(procs), procs, t) && procs[t].heapSize == 4096 * (n + i)
        invariant procs[t] == old(procs)[t].(heapSize := procs[t].heapSize)
      {
        ghost var tables1, live1, ram1, own1 := vm.tables, vm.live, vm.alloc.ram, own;
        ExpandOne(t, n + i);
        GrewTwice(old(vm.tables), old(vm.live), old(vm.alloc.ram), old(own), tables1, live1, ram1, own1,
                  vm.tables, vm.live, vm.alloc.ram, own, t, n + 2, n + i);
        i := i + 1;
      }
    }

    /** The physical address behind the start of heap page `j` of slot `t`. */
    method ResolveHeap(t: nat, virtual: nat, ghost j: nat) returns (page: nat)
      requires MemOk() && t < 10 && j < 256 && virtual == 4096 * j
      requires 2 + j in own[t] && Lookup(vm.alloc.ram, vm.tables[t], 0, j) == Pte(own[t][2 + j], 0xff)
      ensures page == P2V(4096 * own[t][2 + j])
    {
      PteFrame(own[t][2 + j], 0xff);
      WordIndexed(vm.alloc.ram, vm.tables[t], 0, j, 0);
      var physical := vm.Resolve(t, virtual, 0, j, 0);
      page := P2V(physical);
    }

    /** Frees the last heap page, which is still mapped. */
    method FreeLastPage(t: nat, virtual: nat, ghost n: nat)
      requires MemOk() && t < 10 && Held(vm.tables, vm.live, t) && n > 0 && virtual == 4096 * n - 4096
      requires HeapView(vm.alloc.ram, vm.tables[t], own[t], n)
      modifies this`own, vm.alloc
      ensures MemOk() && OnlyFrees(old(vm.alloc.ledger), vm.alloc.ledger) && vm.tables[t][0].desc != 0 && n <= 256
      ensures own == old(own)[t := Without(old(own)[t], n + 1)] && Shrunk(old(own)[t], own[t], n, n - 1)
      ensures SameView(old(vm.alloc.ram), vm.tables[t], vm.alloc.ram, vm.tables[t])
      ensures Apart(vm.tables, vm.live, old(vm.alloc.ram), old(own), vm.tables, vm.live, vm.alloc.ram, own, t)
    {
      HeapPageTable(vm.alloc.ram, vm.tables[t], own[t], n);
      var page := ResolveHeap(t, virtual, n - 1);
      ShrunkOnce(own[t], n);
      GivePage(page, t, n + 1);
      GiveApart(vm.tables, vm.live, old(vm.alloc.ram), old(own), vm.alloc.ram, t, n + 1);
    }

    /** One round of proc_shrink_memory: frees and unmaps the last heap page. */
    method ShrinkOne(t: nat, ghost n: nat)
      requires MemOk() && t < 10 && Held(vm.tables, vm.live, t) && n > 0
      requires HeapView(vm.alloc.ram, vm.tables[t], own[t], n) && |procs| == 10 && procs[t].heapSize == 4096 * n
      modifies this`procs, this`own, vm.alloc
      ensures MemOk() && Shrunk(old(own)[t], own[t], n, n - 1) && OnlyFrees(old(vm.alloc.ledger), vm.alloc.ledger)
      ensures HeapView(vm.alloc.ram, vm.tables[t], own[t], n - 1)
      ensures Apart(vm.tables, vm.live, old(vm.alloc.ram), old(own), vm.tables, vm.live, vm.alloc.ram, own, t)
      ensures ProcsBut(old(procs), procs, t) && procs[t].heapSize == 4096 * n - 4096
      ensures procs[t] == old(procs)[t].(heapSize := procs[t].heapSize)
    {
      var virtual := procs[t].heapSize - 4096;
      procs := procs[t := procs[t].(heapSize := virtual)];
      FreeLastPage(t, virtual, n);
      ghost var ram1 := vm.alloc.ram;
      UnmapHeap(t, virtual, n - 1);
      HeapViewShrinks(old(vm.alloc.ram), ram1, vm.alloc.ram, vm.tables[t], old(own)[t], n,
                      Unmapped(Lookup(ram1, vm.tables[t], 0, n - 1)));
      ApartTwice(vm.tables, vm.live, old(vm.alloc.ram), old(own), vm.tables, vm.live, ram1, own,
                 vm.tables, vm.live, vm.alloc.ram, own, t);
    }

    /** unmap_page on heap page `j` of slot `t`; the slots keep their pages. */
    method UnmapHeap(t: nat, virtual: nat, ghost j: nat)
      requires MemOk() && t < 10 && Held(vm.tables, vm.live, t) && j < 256 && virtual == 4096 * j
        && vm.tables[t][0].desc != 0
      modifies vm.alloc`ram
      ensures MemOk()
      ensures Apart(vm.tables, vm.live, old(vm.alloc.ram), own, vm.tables, vm.live, vm.alloc.ram, own, t)
      ensures OneChanged(old(vm.alloc.ram), vm.tables[t], vm.alloc.ram, vm.tables[t], 0, j,
                         Unmapped(Lookup(old(vm.alloc.ram), vm.tables[t], 0, j)))
    {
      vm.UnmapPage(t, virtual, 0, j);
      KeepOwned(own, vm.alloc.ledger, old(vm.alloc.ram), vm.alloc.ledger, vm.alloc.ram);
      MappedApart(vm.tables, vm.live, old(vm.alloc.ram), own, vm.tables, vm.live, vm.alloc.ram, t);
    }

    /** Gives back the last `count` pages of the heap of slot `t`. */
    method ProcShrinkMemory(t: nat, count: nat, ghost n: nat)
      requires MemOk() && t < 10 && Held(vm.tables, vm.live, t) && count <= n
      requires HeapView(vm.alloc.ram, vm.tables[t], own[t], n) && |procs| == 10 && procs[t].heapSize == 4096 * n
      modifies this`procs, this`own, vm.alloc
      ensures MemOk() && Shrunk(old(own)[t], own[t], n, n - count) && OnlyFrees(old(vm.alloc.ledger), vm.alloc.ledger)
      ensures Apart(vm.tables, vm.live, old(vm.alloc.ram), old(own), vm.tables, vm.live, vm.alloc.ram, own, t)
      ensures ProcsBut(old(procs), procs, t) && procs[t] == old(procs)[t].(heapSize := 4096 * (n - count))
    {
      var i := 0;
      while i < count
        invariant i <= count
        invariant MemOk() && Shrunk(old(own)[t], own[t], n, n - i) && OnlyFrees(old(vm.alloc.ledger), vm.alloc.ledger)
        invariant HeapView(vm.alloc.ram, vm.tables[t], own[t], n - i)
        invariant Apart(vm.tables, vm.live, old(vm.alloc.ram), old(own), vm.tables, vm.live, vm.alloc.ram, own, t)
        invariant ProcsBut(old(procs), procs, t) && procs[t].heapSize == 4096 * (n - i)
        invariant procs[t] == old(procs)[t].(heapSize := procs[t].heapSize)
      {
        ghost var ram1, own1, l1 := vm.alloc.ram, own, vm.alloc.ledger;
        ShrinkOne(t, n - i);
        OnlyFreesTwice(old(vm.alloc.ledger), l1, vm.alloc.ledger);
        ShrunkTwice(old(own)[t], own1[t], own[t], n, n - i);
        ApartTwice(vm.tables, vm.live, old(vm.alloc.ram), old(own), vm.tables, vm.live, ram1, own1,
                   vm.tables, vm.live, vm.alloc.ram, own, t);
        i := i + 1;
        if procs[t].heapSize == 0 {
          break;
        }
      }
    }

    /** kfree of stack `k` (0 kernel, 1 user) of slot `t`. */
    method GiveStack(page: nat, ghost t: nat, ghost k: nat, ghost n: nat)
      requires MemOk() && t < 10 && k in own[t] && k < 2 && page == P2V(4096 * own[t][k])
      requires Held(vm.tables, vm.live, t) && HeapView(vm.alloc.ram, vm.tables[t], own[t], n)
      modifies this`own, vm.alloc
      ensures MemOk() && own[t] == Without(old(own)[t], k) && HeapView(vm.alloc.ram, vm.tables[t], own[t], n)
      ensures OnlyFrees(old(vm.alloc.ledger), vm.alloc.ledger)
      ensures Apart(vm.tables, vm.live, old(vm.alloc.ram), old(own), vm.tables, vm.live, vm.alloc.ram, own, t)
    {
      GivePage(page, t, k);
      GiveApart(vm.tables, vm.live, old(vm.alloc.ram), old(own), vm.alloc.ram, t, k);
      HeapViewLosesStack(old(vm.alloc.ram), vm.alloc.ram, vm.tables[t], old(own)[t], n, k);
    }

    /** kfree of both stacks of slot `t`. */
    method GiveStacks(t: nat, ghost n: nat)
      requires MemOk() && t < 10 && SlotSpace(t, n) && |procs| == 10
      requires procs[t].kernelStack == P2V(4096 * own[t][0]) && procs[t].userStack == P2V(4096 * own[t][1])
      modifies this`own, vm.alloc
      ensures MemOk() && own[t] == Without(Without(old(own)[t], 0), 1)
        && HeapView(vm.alloc.ram, vm.tables[t], own[t], n)
      ensures OnlyFrees(old(vm.alloc.ledger), vm.alloc.ledger)
      ensures Apart(vm.tables, vm.live, old(vm.alloc.ram), old(own), vm.tables, vm.live, vm.alloc.ram, own, t)
    {
      SpaceHasHeap(vm.kernelEnd, vm.alloc.ram, vm.tables[t], own[t], n);
      GiveStack(procs[t].kernelStack, t, 0, n);
      ghost var ram1, own1, l1 := vm.alloc.ram, own, vm.alloc.ledger;
      GiveStack(procs[t].userStack, t, 1, n);
      OnlyFreesTwice(old(vm.alloc.ledger), l1, vm.alloc.ledger);
      ApartTwice(vm.tables, vm.live, old(vm.alloc.ram), old(own), vm.tables, vm.live, ram1, own1,
                 vm.tables, vm.live, vm.alloc.ram, own, t);
    }

    /** The page half of proc_free: both stacks, then the heap from its end. */
    method FreePages(t: nat, ghost n: nat)
      requires MemOk() && t < 10 && SlotSpace(t, n) && |procs| == 10 && procs[t].heapSize == 4096 * n
      requires procs[t].kernelStack == P2V(4096 * own[t][0]) && procs[t].userStack == P2V(4096 * own[t][1])
      modifies this`procs, this`own, vm.alloc
      ensures MemOk() && Empty(own[t]) && OnlyFrees(old(vm.alloc.ledger), vm.alloc.ledger)
      ensures Apart(vm.tables, vm.live, old(vm.alloc.ram), old(own), vm.tables, vm.live, vm.alloc.ram, own, t)
      ensures ProcsBut(old(procs), procs, t) && procs[t] == old(procs)[t].(heapSize := 0)
    {
      GiveStacks(t, n);
      ghost var ram1, own1, l1 := vm.alloc.ram, own, vm.alloc.ledger;
      ProcShrinkMemory(t, HeapPageCount(procs[t].heapSize, n), n);
      ApartTwice(vm.tables, vm.live, old(vm.alloc.ram), old(own), vm.tables, vm.live, ram1, own1,
                 vm.tables, vm.live, vm.alloc.ram, own, t);
      AllShed(old(own)[t], own[t], n);
      OnlyFreesTwice(old(vm.alloc.ledger), l1, vm.alloc.ledger);
    }

    /** Gives back everything slot `t` owns and marks it unused. */
    method ProcFree(t: nat, ghost n: nat)
      requires MemOk() && t < 10 && SlotSpace(t, n) && |procs| == 10 && procs[t].heapSize == 4096 * n
      requires procs[t].kernelStack == P2V(4096 * own[t][0]) && procs[t].userStack == P2V(4096 * own[t][1])
      modifies this`procs, this`own, vm, vm.alloc
      ensures MemOk() && Empty(own[t]) && vm.live[t] == {}
      ensures Released(vm.alloc.ledger, old(own)[t], old(vm.tables)[t], old(vm.live)[t])
      ensures Apart(old(vm.tables), old(vm.live), old(vm.alloc.ram), old(own), vm.tables, vm.live, vm.alloc.ram, own, t)
      ensures ProcsBut(old(procs), procs, t) && procs[t] == old(procs)[t].(heapSize := 0, state := UNUSED)
    {
      FreePages(t, n);
      ghost var ram1, l1 := vm.alloc.ram, vm.alloc.ledger;
      FreeTables(t);
      ApartTwice(old(vm.tables), old(vm.live), old(vm.alloc.ram), old(own), old(vm.tables), old(vm.live), ram1, own,
                 vm.tables, vm.live, vm.alloc.ram, own, t);
      procs := procs[t := procs[t].(state := UNUSED)];
      OnlyFreesTwice(old(vm.alloc.ledger), l1, vm.alloc.ledger);
      AllReleased(old(vm.tables), old(vm.live), old(own), old(vm.alloc.ledger), vm.tables, vm.live, own,
                  vm.alloc.ledger, t);
    }

    /** free_vm_page_tables on the table set of slot `t`; the slots keep their pages. */
    method FreeTables(t: nat)
      requires MemOk() && t < 10 && Held(vm.tables, vm.live, t)
      modifies vm, vm.alloc
      ensures MemOk() && vm.live[t] == {} && OnlyFrees(old(vm.alloc.ledger), vm.alloc.ledger)
      ensures Apart(old(vm.tables), old(vm.live), old(vm.alloc.ram), own, vm.tables, vm.live, vm.alloc.ram, own, t)
    {
      vm.FreeVmPageTables(t);
      KeepOwned(own, old(vm.alloc.ledger), old(vm.alloc.ram), vm.alloc.ledger, vm.alloc.ram);
      MappedApart(old(vm.tables), old(vm.live), old(vm.alloc.ram), own, vm.tables, vm.live, vm.alloc.ram, t);
    }

    /** kalloc and memset for stack `k` of slot `t`. */
    method TakeStack(t: nat, ghost k: nat) returns (page: nat, ghost p: nat)
      requires MemOk() && t < 10 && k !in own[t] && |own[t]| < 258
      modifies this`own, vm.alloc
      ensures MemOk() && page == P2V(4096 * p) && p < 0x1_0000 && AllZero(vm.alloc.ram[p])
      ensures own == old(own)[t := With(old(own)[t], k, p)]
        && PagesGrown(old(own), own, old(vm.alloc.ram), vm.alloc.ram)
      ensures Apart(vm.tables, vm.live, old(vm.alloc.ram), old(own), vm.tables, vm.live, vm.alloc.ram, own, t)
    {
      page, p := ZeroedPage(t, k);
      TookApart(vm.tables, vm.live, old(vm.alloc.ram), old(own), vm.alloc.ram, own, t);
    }

    /** Both stacks of slot `t`, which owns nothing yet. */
    method TakeStacks(t: nat) returns (kernelStack: nat, userStack: nat)
      requires MemOk() && t < 10 && Empty(own[t])
      modifies this`own, vm.alloc
      ensures MemOk() && HasPages(own[t], 0) && ZeroFrom(vm.alloc.ram, own[t], 0)
      ensures kernelStack == P2V(4096 * own[t][0]) && userStack == P2V(4096 * own[t][1])
      ensures Apart(vm.tables, vm.live, old(vm.alloc.ram), old(own), vm.tables, vm.live, vm.alloc.ram, own, t)
    {
      ghost var p, q;
      EmptyCount(own[t], 0);
      kernelStack, p := TakeStack(t, 0);
      ghost var ram1, own1 := vm.alloc.ram, own;
      EmptyCount(old(own)[t], p);
      userStack, q := TakeStack(t, 1);
      StacksTaken(old(own), own1, own, ram1, vm.alloc.ram, t, p, q);
      ApartTwice(vm.tables, vm.live, old(vm.alloc.ram), old(own), vm.tables, vm.live, ram1, own1,
                 vm.tables, vm.live, vm.alloc.ram, own, t);
    }

    /** setup_kernel_vm on the table set of slot `t`; the slots keep their pages. */
    method SetupSpace(t: nat)
      requires MemOk() && t < 10 && vm.live[t] == {}
      modifies vm, vm.alloc
      ensures MemOk() && Held(vm.tables, vm.live, t) && KernelView(vm.kernelEnd, 6, vm.alloc.ram, vm.tables[t])
      ensures OthersKept(old(vm.tables), old(vm.live), old(vm.alloc.ram), vm.tables, vm.live, vm.alloc.ram, t)
      ensures PagesGrown(own, own, old(vm.alloc.ram), vm.alloc.ram)
    {
      vm.SetupKernelVm(t);
      KeepOwned(own, old(vm.alloc.ledger), old(vm.alloc.ram), vm.alloc.ledger, vm.alloc.ram);
    }

    /** Maps both stacks of slot `t` below the kernel. */
    method MapStacks(t: nat, kernelStack: nat, userStack: nat)
      requires MemOk() && t < 10 && Held(vm.tables, vm.live, t)
        && KernelView(vm.kernelEnd, 6, vm.alloc.ram, vm.tables[t])
      requires HasPages(own[t], 0) && own[t][0] < 0x1_0000 && own[t][1] < 0x1_0000
      requires kernelStack == P2V(4096 * own[t][0]) && userStack == P2V(4096 * own[t][1])
      modifies vm, vm.alloc
      ensures MemOk() && SlotSpace(t, 0)
      ensures OthersKept(old(vm.tables), old(vm.live), old(vm.alloc.ram), vm.tables, vm.live, vm.alloc.ram, t)
      ensures PagesGrown(own, own, old(vm.alloc.ram), vm.alloc.ram)
    {
      MapOwn(t, 0x7fff_e000, kernelStack, 0xaa, 0x7_fffe, own[t][0]);
      ghost var tables1, live1, ram1 := vm.tables, vm.live, vm.alloc.ram;
      MapOwn(t, 0x7fff_d000, userStack, 0xff, 0x7_fffd, own[t][1]);
      OthersKeptTwice(old(vm.tables), old(vm.live), old(vm.alloc.ram), tables1, live1, ram1,
                      vm.tables, vm.live, vm.alloc.ram, t);
      GrownTwice(own, old(vm.alloc.ram), ram1, vm.alloc.ram);
      StackViews(vm.kernelEnd, old(vm.alloc.ram), old(vm.tables)[t], ram1, tables1[t], vm.alloc.ram, vm.tables[t],
                 own[t]);
    }

    /** The memory half of proc_create: zeroed stacks and a fresh address space for slot `t`. */
    method BuildSpace(t: nat) returns (kernelStack: nat, userStack: nat)
      requires MemOk() && t < 10 && Empty(own[t]) && vm.live[t] == {}
      modifies this`own, vm, vm.alloc
      ensures MemOk() && SlotSpace(t, 0) && ZeroFrom(vm.alloc.ram, own[t], 0)
      ensures kernelStack == P2V(4096 * own[t][0]) && userStack == P2V(4096 * own[t][1])
      ensures Apart(old(vm.tables), old(vm.live), old(vm.alloc.ram), old(own), vm.tables, vm.live, vm.alloc.ram, own, t)
    {
      kernelStack, userStack := TakeStacks(t);
      ghost var ram1 := vm.alloc.ram;
      SetupSpace(t);
      ghost var tables2, live2, ram2 := vm.tables, vm.live, vm.alloc.ram;
      MapStacks(t, kernelStack, userStack);
      OthersKeptTwice(old(vm.tables), old(vm.live), ram1, tables2, live2, ram2, vm.tables, vm.live, vm.alloc.ram, t);
      GrownTwice(own, ram1, ram2, vm.alloc.ram);
      ZeroKept(own, ram1, vm.alloc.ram, t, 0);
      MappedApart(old(vm.tables), old(vm.live), ram1, own, vm.tables, vm.live, vm.alloc.ram, t);
      ApartTwice(old(vm.tables), old(vm.live), old(vm.alloc.ram), old(own), old(vm.tables), old(vm.live), ram1, own,
                 vm.tables, vm.live, vm.alloc.ram, own, t);
    }

    /** The kernel invariant: memory is partitioned and every slot is in order. */
    ghost predicate Inv()
      reads this, vm, vm.alloc
    {
      MemOk() && AllSlotsOk(vm.kernelEnd, vm.tables, vm.live, vm.alloc.ram, own, procs)
    }

    /** The first unused slot, or 10 when all are in use. */
    method FirstUnused() returns (i: nat)
      requires |procs| == 10
      ensures i <= 10 && (if i == 10 then AllUsed(procs) else FirstFree(procs, i) && !AllUsed(procs))
    {
      i := 0;
      while i < 10
        invariant i <= 10 && forall u :: 0 <= u < i ==> procs[u].state != UNUSED
      {
        if procs[i].state == UNUSED {
          break;
        }
        i := i + 1;
      }
    }

    /** Takes the first unused slot and gives it zeroed stacks, no heap and an address space of its own. */
    method ProcCreate() returns (slot: int)
      requires Inv()
      modifies this`procs, this`own, vm, vm.alloc
      ensures Inv() && -1 <= slot < 10
      ensures slot == -1 <==> AllUsed(old(procs))
      ensures slot == -1 ==> unchanged(this, vm, vm.alloc)
      ensures slot != -1 ==>
        && FirstFree(old(procs), slot)
        && Apart(old(vm.tables), old(vm.live), old(vm.alloc.ram), old(own), vm.tables, vm.live, vm.alloc.ram, own, slot)
        && ProcsBut(old(procs), procs, slot) && HasPages(own[slot], 0) && ZeroFrom(vm.alloc.ram, own[slot], 0)
        && procs[slot].state == CREATED && procs[slot].waitPid == -1
    {
      slot := FirstUnused();
      if slot == 10 {
        return -1;
      }
      assert SlotOk(vm.kernelEnd, vm.tables, vm.live, vm.alloc.ram, own[slot], procs[slot], slot);
      var kernelStack, userStack := BuildSpace(slot);
      PageCount(own[slot], 0);
      procs := procs[slot := procs[slot].(state := CREATED, pid := slot + 1, heapSize := 0,
                                          kernelStack := kernelStack, userStack := userStack, waitPid := -1)];
      OneSlotStep(vm.kernelEnd, old(vm.tables), old(vm.live), old(vm.alloc.ram), old(own), old(procs),
                  vm.tables, vm.live, vm.alloc.ram, own, procs, slot);
    }
  }
}
