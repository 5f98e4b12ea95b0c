// kernel/proc/syscall_fork.c: a deep copy of a process.
module Fork {
  import opened Words
  import opened PageTables
  import opened Walks
  import opened Spaces
  import opened ForkCopy
  import opened Proc

  /** The page and offset behind heap address 4096 * j + o of slot `t`. */
  method ResolveByte(pt: ProcTable, t: nat, virtual: nat, ghost j: nat, ghost o: nat) returns (page: nat, offset: nat)
    requires pt.MemOk() && t < 10 && o < 4096 && virtual == 4096 * j + o
    requires HeapPageMapped(pt.vm.alloc.ram, pt.vm.tables[t], pt.own[t], j)
    ensures page == pt.own[t][2 + j] && offset == o
  {
    PteFrame(pt.own[t][2 + j], 0xff);
    WordIndexed(pt.vm.alloc.ram, pt.vm.tables[t], 0, j, o);
    var physical := pt.vm.Resolve(t, virtual, 0, j, o);
    Quotient(pt.own[t][2 + j], o);
    page, offset := physical / 4096, physical % 4096;
  }

  /** Copies the byte at heap address 4096 * j + o. */
  method CopyByte(pt: ProcTable, child: nat, parent: nat, virtual: nat, ghost j: nat, ghost o: nat)
    requires pt.MemOk() && child < 10 && parent < 10 && child != parent && o < 4096 && virtual == 4096 * j + o
    requires HeapPageMapped(pt.vm.alloc.ram, pt.vm.tables[child], pt.own[child], j)
    requires HeapPageMapped(pt.vm.alloc.ram, pt.vm.tables[parent], pt.own[parent], j)
    requires Copied(pt.vm.alloc.ram, pt.own[child], pt.own[parent], 4096 * j + o)
    modifies pt.vm.alloc`ram
    ensures pt.MemOk() && Copied(pt.vm.alloc.ram, pt.own[child], pt.own[parent], 4096 * j + o + 1)
    ensures ViewsKept(pt.vm.tables, pt.vm.live, old(pt.vm.alloc.ram), pt.vm.alloc.ram)
    ensures PagesBut(pt.own, old(pt.vm.alloc.ram), pt.vm.alloc.ram, child, 2 + j)
  {
    var to, offset := ResolveByte(pt, child, virtual, j, o);
    var from, _ := ResolveByte(pt, parent, virtual, j, o);
    InRamPages(pt.own, pt.vm.alloc.ledger, child, 2 + j);
    InRamPages(pt.own, pt.vm.alloc.ledger, parent, 2 + j);
    var frame := pt.vm.alloc.ram[to][offset := pt.vm.alloc.ram[from][offset]];
    pt.WriteOwned(to, frame, child, 2 + j);
    CopyStep(pt.own, pt.vm.alloc.ledger, old(pt.vm.alloc.ram), pt.vm.alloc.ram, child, parent, j, o);
  }

  /** The byte-by-byte copy of the parent's heap. */
  method CopyHeap(pt: ProcTable, child: nat, parent: nat, heapSize: nat, ghost n: nat)
    requires pt.MemOk() && child < 10 && parent < 10 && child != parent && heapSize == 4096 * n
    requires Held(pt.vm.tables, pt.vm.live, child) && HeapView(pt.vm.alloc.ram, pt.vm.tables[child], pt.own[child], n)
    requires Held(pt.vm.tables, pt.vm.live, parent)
      && HeapView(pt.vm.alloc.ram, pt.vm.tables[parent], pt.own[parent], n)
    modifies pt.vm.alloc`ram
    ensures pt.MemOk() && Copied(pt.vm.alloc.ram, pt.own[child], pt.own[parent], 4096 * n)
    ensures ViewsKept(pt.vm.tables, pt.vm.live, old(pt.vm.alloc.ram), pt.vm.alloc.ram)
    ensures HeapOnly(pt.own, old(pt.vm.alloc.ram), pt.vm.alloc.ram, child)
  {
    var i := 0;
    while i < heapSize
      invariant i <= heapSize
      invariant pt.MemOk() && Copied(pt.vm.alloc.ram, pt.own[child], pt.own[parent], i)
      invariant ViewsKept(pt.vm.tables, pt.vm.live, old(pt.vm.alloc.ram), pt.vm.alloc.ram)
      invariant HeapOnly(pt.own, old(pt.vm.alloc.ram), pt.vm.alloc.ram, child)
      invariant HeapView(pt.vm.alloc.ram, pt.vm.tables[child], pt.own[child], n)
      invariant HeapView(pt.vm.alloc.ram, pt.vm.tables[parent], pt.own[parent], n)
    {
      ghost var j, o := SplitAddress(i);
      ghost var ram1 := pt.vm.alloc.ram;
      CopyByte(pt, child, parent, i, j, o);
      ViewsKeptTwice(pt.vm.tables, pt.vm.live, old(pt.vm.alloc.ram), ram1, pt.vm.alloc.ram);
      HeapOnlyStep(pt.own, old(pt.vm.alloc.ram), ram1, pt.vm.alloc.ram, child, 2 + j);
      HeapViewKept(ram1, pt.vm.alloc.ram, pt.vm.tables[child], pt.own[child], n);
      HeapViewKept(ram1, pt.vm.alloc.ram, pt.vm.tables[parent], pt.own[parent], n);
      i := i + 1;
    }
  }

  /** memcpy of one stack. */
  method CopyStack(pt: ProcTable, to: nat, from: nat, ghost child: nat, ghost parent: nat, ghost k: nat)
    requires pt.MemOk() && child < 10 && parent < 10 && child != parent && k in pt.own[child] && k in pt.own[parent]
    requires to == P2V(4096 * pt.own[child][k]) && from == P2V(4096 * pt.own[parent][k])
    modifies pt.vm.alloc`ram
    ensures pt.MemOk() && pt.own[child][k] < 0x1_0000 && pt.own[parent][k] < 0x1_0000
    ensures pt.vm.alloc.ram[pt.own[child][k]] == old(pt.vm.alloc.ram)[pt.own[parent][k]]
    ensures ViewsKept(pt.vm.tables, pt.vm.live, old(pt.vm.alloc.ram), pt.vm.alloc.ram)
    ensures PagesBut(pt.own, old(pt.vm.alloc.ram), pt.vm.alloc.ram, child, k)
  {
    InRamPages(pt.own, pt.vm.alloc.ledger, child, k);
    InRamPages(pt.own, pt.vm.alloc.ledger, parent, k);
    Quotient(pt.own[child][k], 0);
    Quotient(pt.own[parent][k], 0);
    pt.WriteOwned(V2P(to) / 4096, pt.vm.alloc.ram[V2P(from) / 4096], child, k);
  }

  /** memcpy of both stacks; afterwards every page of the child equals the parent's. */
  method CopyStacks(pt: ProcTable, child: nat, parent: nat, ghost n: nat)
    requires pt.MemOk() && child < 10 && parent < 10 && child != parent && |pt.procs| == 10
    requires HasPages(pt.own[child], n) && HasPages(pt.own[parent], n)
    requires pt.procs[child].kernelStack == P2V(4096 * pt.own[child][0])
      && pt.procs[child].userStack == P2V(4096 * pt.own[child][1])
    requires pt.procs[parent].kernelStack == P2V(4096 * pt.own[parent][0])
      && pt.procs[parent].userStack == P2V(4096 * pt.own[parent][1])
    requires Copied(pt.vm.alloc.ram, pt.own[child], pt.own[parent], 4096 * n)
    modifies pt.vm.alloc`ram
    ensures pt.MemOk() && SameContents(pt.vm.alloc.ram, pt.own[child], pt.own[parent])
    ensures ViewsKept(pt.vm.tables, pt.vm.live, old(pt.vm.alloc.ram), pt.vm.alloc.ram)
    ensures Apart(pt.vm.tables, pt.vm.live, old(pt.vm.alloc.ram), pt.own, pt.vm.tables, pt.vm.live, pt.vm.alloc.ram,
                  pt.own, child)
  {
    CopyStack(pt, pt.procs[child].kernelStack, pt.procs[parent].kernelStack, child, parent, 0);
    ghost var ram1 := pt.vm.alloc.ram;
    CopyStack(pt, pt.procs[child].userStack, pt.procs[parent].userStack, child, parent, 1);
    PagesButApart(pt.vm.tables, pt.vm.live, pt.own, old(pt.vm.alloc.ram), ram1, child, 0);
    PagesButApart(pt.vm.tables, pt.vm.live, pt.own, ram1, pt.vm.alloc.ram, child, 1);
    ApartTwice(pt.vm.tables, pt.vm.live, old(pt.vm.alloc.ram), pt.own, pt.vm.tables, pt.vm.live, ram1, pt.own,
               pt.vm.tables, pt.vm.live, pt.vm.alloc.ram, pt.own, child);
    ViewsKeptTwice(pt.vm.tables, pt.vm.live, old(pt.vm.alloc.ram), ram1, pt.vm.alloc.ram);
    StacksEqual(pt.own, old(pt.vm.alloc.ram), ram1, pt.vm.alloc.ram, child, parent, n);
  }

  /** Copies heap and stacks of the parent into a child of the same size. */
  method CopySpace(pt: ProcTable, child: nat, parent: nat, ghost n: nat)
    requires pt.MemOk() && child < 10 && parent < 10 && child != parent && |pt.procs| == 10
      && pt.procs[parent].heapSize == 4096 * n
    requires Held(pt.vm.tables, pt.vm.live, child) && HeapView(pt.vm.alloc.ram, pt.vm.tables[child], pt.own[child], n)
    requires Held(pt.vm.tables, pt.vm.live, parent)
      && HeapView(pt.vm.alloc.ram, pt.vm.tables[parent], pt.own[parent], n)
    requires HasPages(pt.own[child], n) && HasPages(pt.own[parent], n)
    requires pt.procs[child].kernelStack == P2V(4096 * pt.own[child][0])
      && pt.procs[child].userStack == P2V(4096 * pt.own[child][1])
    requires pt.procs[parent].kernelStack == P2V(4096 * pt.own[parent][0])
      && pt.procs[parent].userStack == P2V(4096 * pt.own[parent][1])
    modifies pt.vm.alloc`ram
    ensures pt.MemOk() && SameContents(pt.vm.alloc.ram, pt.own[child], pt.own[parent])
    ensures ViewsKept(pt.vm.tables, pt.vm.live, old(pt.vm.alloc.ram), pt.vm.alloc.ram)
    ensures Apart(pt.vm.tables, pt.vm.live, old(pt.vm.alloc.ram), pt.own, pt.vm.tables, pt.vm.live, pt.vm.alloc.ram,
                  pt.own, child)
  {
    CopyHeap(pt, child, parent, pt.procs[parent].heapSize, n);
    ghost var ram1 := pt.vm.alloc.ram;
    HeapOnlyApart(pt.vm.tables, pt.vm.live, pt.own, old(pt.vm.alloc.ram), ram1, child);
    CopyStacks(pt, child, parent, n);
    ApartTwice(pt.vm.tables, pt.vm.live, old(pt.vm.alloc.ram), pt.own, pt.vm.tables, pt.vm.live, ram1, pt.own,
               pt.vm.tables, pt.vm.live, pt.vm.alloc.ram, pt.own, child);
    ViewsKeptTwice(pt.vm.tables, pt.vm.live, old(pt.vm.alloc.ram), ram1, pt.vm.alloc.ram);
  }

  /** The memory half of fork: grow the child to the parent's size, then copy heap and stacks. */
  method ForkMemory(pt: ProcTable, child: nat, parent: nat, ghost n: nat)
    requires pt.MemOk() && child < 10 && parent < 10 && child != parent && |pt.procs| == 10
    requires pt.SlotSpace(child, 0) && pt.procs[child].heapSize == 0
    requires pt.SlotSpace(parent, n) && pt.procs[parent].heapSize == 4096 * n
    requires pt.procs[child].kernelStack == P2V(4096 * pt.own[child][0])
      && pt.procs[child].userStack == P2V(4096 * pt.own[child][1])
    requires pt.procs[parent].kernelStack == P2V(4096 * pt.own[parent][0])
      && pt.procs[parent].userStack == P2V(4096 * pt.own[parent][1])
    modifies pt`procs, pt`own, pt.vm, pt.vm.alloc
    ensures pt.MemOk() && pt.SlotSpace(child, n) && SameContents(pt.vm.alloc.ram, pt.own[child], pt.own[parent])
    ensures Apart(old(pt.vm.tables), old(pt.vm.live), old(pt.vm.alloc.ram), old(pt.own), pt.vm.tables, pt.vm.live,
                  pt.vm.alloc.ram, pt.own, child)
    ensures ProcsBut(old(pt.procs), pt.procs, child) && pt.procs[child] == old(pt.procs)[child].(heapSize := 4096 * n)
    ensures pt.own[child][0] == old(pt.own)[child][0] && pt.own[child][1] == old(pt.own)[child][1]
  {
    pt.ProcExpandMemory(child, HeapPageCount(pt.procs[parent].heapSize, n), 0);
    ghost var ram1 := pt.vm.alloc.ram;
    assert 0 in old(pt.own)[child] && 1 in old(pt.own)[child];
    GrewApart(old(pt.vm.tables), old(pt.vm.live), old(pt.vm.alloc.ram), old(pt.own), pt.vm.tables, pt.vm.live, ram1,
              pt.own, child, 2);
    SpaceHasHeap(pt.vm.kernelEnd, ram1, pt.vm.tables[child], pt.own[child], n);
    ParentHeap(pt.vm.kernelEnd, old(pt.vm.tables), old(pt.vm.live), old(pt.vm.alloc.ram), old(pt.own),
               pt.vm.tables, pt.vm.live, ram1, pt.own, child, parent, n);
    CopySpace(pt, child, parent, n);
    ApartTwice(old(pt.vm.tables), old(pt.vm.live), old(pt.vm.alloc.ram), old(pt.own), pt.vm.tables, pt.vm.live, ram1,
               pt.own,
               pt.vm.tables, pt.vm.live, pt.vm.alloc.ram, pt.own, child);
    SpaceViewKept(pt.vm.kernelEnd, pt.vm.tables, pt.vm.live, ram1, pt.vm.alloc.ram, pt.own[child], child);
  }

  /** Turns the fresh slot `child` into a copy of the process in slot `parent`. */
  method FillChild(pt: ProcTable, child: nat, parent: nat)
    requires pt.Inv() && child < 10 && parent < 10 && child != parent && pt.procs[parent].state != UNUSED
    requires pt.procs[child].state == CREATED && HasPages(pt.own[child], 0)
    modifies pt`procs, pt`own, pt.vm, pt.vm.alloc
    ensures pt.Inv() && ProcsBut(old(pt.procs), pt.procs, child)
    ensures Apart(old(pt.vm.tables), old(pt.vm.live), old(pt.vm.alloc.ram), old(pt.own),
                  pt.vm.tables, pt.vm.live, pt.vm.alloc.ram, pt.own, child)
    ensures Forked(pt.vm.alloc.ram, pt.own, pt.procs, child, parent)
    ensures pt.procs[child].pid == child + 1 && pt.procs[child].waitPid == old(pt.procs)[child].waitPid
  {
    ghost var n := |pt.own[parent]| - 2;
    assert SlotOk(pt.vm.kernelEnd, pt.vm.tables, pt.vm.live, pt.vm.alloc.ram, pt.own[parent], pt.procs[parent], parent);
    assert SlotOk(pt.vm.kernelEnd, pt.vm.tables, pt.vm.live, pt.vm.alloc.ram, pt.own[child], pt.procs[child], child);
    PageCount(pt.own[child], 0);
    ForkMemory(pt, child, parent, n);
    pt.procs := pt.procs[child := pt.procs[child].(context := pt.procs[parent].context[2 := 0], state := READY)];
    PageCount(pt.own[child], n);
    OneSlotStep(pt.vm.kernelEnd, old(pt.vm.tables), old(pt.vm.live), old(pt.vm.alloc.ram), old(pt.own), old(pt.procs),
                pt.vm.tables, pt.vm.live, pt.vm.alloc.ram, pt.own, pt.procs, child);
  }

  /** Completes a fork whose fresh slot `child` was taken in the state given by `ta` to `pa`. */
  method CopyInto(pt: ProcTable, child: nat, parent: nat, ghost ta: seq<Table>, ghost la: seq<set<nat>>, ghost ra: Ram,
                  ghost oa: seq<Pages>, ghost pa: seq<Process>)
    requires pt.Inv() && child < 10 && parent < 10 && child != parent && pt.procs[parent].state != UNUSED
    requires pt.procs[child].state == CREATED && HasPages(pt.own[child], 0) && pt.procs[child].waitPid == -1
    requires FirstFree(pa, child) && ProcsBut(pa, pt.procs, child)
    requires Apart(ta, la, ra, oa, pt.vm.tables, pt.vm.live, pt.vm.alloc.ram, pt.own, child)
    modifies pt`procs, pt`own, pt.vm, pt.vm.alloc
    ensures pt.Inv() && |pt.procs| == 10 && pt.procs[child].pid == child + 1
    ensures ChildMade(ta, la, ra, oa, pa, pt.vm.tables, pt.vm.live, pt.vm.alloc.ram, pt.own, pt.procs, parent, child)
  {
    FillChild(pt, child, parent);
    MadeChild(ta, la, ra, oa, pa, old(pt.vm.tables), old(pt.vm.live), old(pt.vm.alloc.ram), old(pt.own), old(pt.procs),
              pt.vm.tables, pt.vm.live, pt.vm.alloc.ram, pt.own, pt.procs, parent, child);
  }

  /** Creates a copy of the process in slot `parent` and returns its pid, or -1 when no slot is unused. */
  method SyscallFork(pt: ProcTable, parent: nat) returns (pid: int)
    requires pt.Inv() && parent < 10 && pt.procs[parent].state != UNUSED
    modifies pt`procs, pt`own, pt.vm, pt.vm.alloc
    ensures pt.Inv()
    ensures pid == -1 <==> AllUsed(old(pt.procs))
    ensures pid == -1 ==> unchanged(pt, pt.vm, pt.vm.alloc)
    ensures pid != -1 ==> 1 <= pid <= 10
    ensures pid != -1 ==>
      ChildMade(old(pt.vm.tables), old(pt.vm.live), old(pt.vm.alloc.ram), old(pt.own), old(pt.procs),
                pt.vm.tables, pt.vm.live, pt.vm.alloc.ram, pt.own, pt.procs, parent, pid - 1)
  {
    ghost var tables, live, ram, own, procs := pt.vm.tables, pt.vm.live, pt.vm.alloc.ram, pt.own, pt.procs;
    var child := pt.ProcCreate();
    if child == -1 {
      return -1;
    }
    CopyInto(pt, child, parent, tables, live, ram, own, procs);
    pid := pt.procs[child].pid;
  }
}
