// kernel/proc/syscall_exec.c: replacing a process by a program, all or nothing.
module Exec {
  import opened Words
  import opened PageTables
  import opened Spaces
  import opened Swap
  import opened Virtio
  import opened Elf
  import opened Images
  import opened Outcomes
  import opened Vm
  import opened Proc
  import opened Fat
  import opened Loader

  /** Exchanges the 4096 section entries of two table sets. */
  method SwapTables(vm: Vm, a: nat, b: nat)
    requires a < |vm.tables| && b < |vm.tables| && a != b
    modifies vm`tables
    ensures vm.tables == Exchanged(old(vm.tables), a, b)
  {
    ghost var x, y := vm.tables[a], vm.tables[b];
    var i := 0;
    while i < 4096
      invariant i <= 4096 && |vm.tables| == |old(vm.tables)|
      invariant forall u :: 0 <= u < |vm.tables| && u != a && u != b ==> vm.tables[u] == old(vm.tables)[u]
      invariant forall s :: 0 <= s < 4096 ==> vm.tables[a][s] == if s < i then y[s] else x[s]
      invariant forall s :: 0 <= s < 4096 ==> vm.tables[b][s] == if s < i then x[s] else y[s]
    {
      var entry := vm.tables[a][i];
      vm.tables := vm.tables[a := vm.tables[a][i := vm.tables[b][i]]];
      vm.tables := vm.tables[b := vm.tables[b][i := entry]];
      i := i + 1;
    }
    assert vm.tables[a] == y && vm.tables[b] == x;
  }

  /** Exchanges the table sets of two slots; from here on each owns what the other owned. */
  method SwapMemory(pt: ProcTable, a: nat, b: nat)
    requires pt.MemOk() && a < 10 && b < 10 && a != b
    modifies pt`own, pt.vm`tables, pt.vm`live, pt.vm.alloc`ledger
    ensures pt.MemOk() && pt.own == Exchanged(old(pt.own), a, b)
    ensures pt.vm.tables == Exchanged(old(pt.vm.tables), a, b) && pt.vm.live == Exchanged(old(pt.vm.live), a, b)
  {
    ghost var live, l := pt.vm.live, pt.vm.alloc.ledger;
    ExchangedValid(l, a, b);
    ExchangedTables(pt.vm.tables, live, l, a, b);
    ExchangedPages(pt.own, l, a, b);
    SwapTables(pt.vm, a, b);
    pt.vm.live := Exchanged(live, a, b);
    pt.vm.alloc.ledger := OwnersExchanged(l, a, b);
    pt.own := Exchanged(pt.own, a, b);
  }

  /** Slot `proc` takes over the program in slot `image`, which gets the old memory of `proc`. */
  method SwapSlots(pt: ProcTable, proc: nat, image: nat)
    requires pt.Inv() && proc < 10 && image < 10 && proc != image
    requires pt.procs[proc].state != UNUSED && pt.procs[image].state != UNUSED
    modifies pt`procs, pt`own, pt.vm`tables, pt.vm`live, pt.vm.alloc`ledger
    ensures pt.Inv() && ProcsButTwo(old(pt.procs), pt.procs, proc, image)
    ensures pt.own == Exchanged(old(pt.own), proc, image)
    ensures pt.vm.tables == Exchanged(old(pt.vm.tables), proc, image)
      && pt.vm.live == Exchanged(old(pt.vm.live), proc, image)
    ensures ApartTwo(old(pt.vm.tables), old(pt.vm.live), old(pt.vm.alloc.ram), old(pt.own),
                     pt.vm.tables, pt.vm.live, pt.vm.alloc.ram, pt.own, proc, image)
    ensures pt.procs[proc]
      == old(pt.procs)[image].(pid := old(pt.procs)[proc].pid, waitPid := old(pt.procs)[proc].waitPid, state := READY)
    ensures pt.procs[image].state == old(pt.procs)[image].state
  {
    assert SlotOk(pt.vm.kernelEnd, pt.vm.tables, pt.vm.live, pt.vm.alloc.ram, pt.own[image], pt.procs[image], image);
    ExchangedApart(pt.vm.tables, pt.vm.live, pt.vm.alloc.ram, pt.own, proc, image);
    SwapMemory(pt, proc, image);
    var p, q := pt.procs[proc], pt.procs[image];
    pt.procs := pt.procs[proc := p.(heapSize := q.heapSize, kernelStack := q.kernelStack, userStack := q.userStack,
                                    entry := q.entry, context := q.context, state := READY)];
    pt.procs := pt.procs[image := q.(heapSize := p.heapSize, kernelStack := p.kernelStack, userStack := p.userStack)];
    assert SlotOk(pt.vm.kernelEnd, old(pt.vm.tables), old(pt.vm.live), pt.vm.alloc.ram, old(pt.own)[proc], p, proc);
    ExchangedSlots(pt.vm.kernelEnd, old(pt.vm.tables), old(pt.vm.live), pt.vm.alloc.ram, old(pt.own), old(pt.procs),
                   pt.procs, proc, image);
  }

  /** proc_free on a slot in use. */
  method FreeSlot(pt: ProcTable, t: nat)
    requires pt.Inv() && t < 10 && pt.procs[t].state != UNUSED
    modifies pt`procs, pt`own, pt.vm, pt.vm.alloc
    ensures pt.Inv() && Empty(pt.own[t]) && pt.vm.live[t] == {}
    ensures Released(pt.vm.alloc.ledger, old(pt.own)[t], old(pt.vm.tables)[t], old(pt.vm.live)[t])
    ensures Apart(old(pt.vm.tables), old(pt.vm.live), old(pt.vm.alloc.ram), old(pt.own),
                  pt.vm.tables, pt.vm.live, pt.vm.alloc.ram, pt.own, t)
    ensures ProcsBut(old(pt.procs), pt.procs, t) && pt.procs[t] == old(pt.procs)[t].(heapSize := 0, state := UNUSED)
  {
    assert SlotOk(pt.vm.kernelEnd, pt.vm.tables, pt.vm.live, pt.vm.alloc.ram, pt.own[t], pt.procs[t], t);
    pt.ProcFree(t, |pt.own[t]| - 2);
    OneSlotStep(pt.vm.kernelEnd, old(pt.vm.tables), old(pt.vm.live), old(pt.vm.alloc.ram), old(pt.own), old(pt.procs),
                pt.vm.tables, pt.vm.live, pt.vm.alloc.ram, pt.own, pt.procs, t);
  }

  /** Loads a program into a spare slot. If that fails the slot is given back: every process is
      as it was and as much memory is free as before. */
  method StageProgram(pt: ProcTable, fat: FatReader, file: FatFile, ghost bytes: seq<byte>) returns (image: int)
    requires fat.Opened(file, bytes) && pt.Inv()
    modifies fat.dev, pt`procs, pt`own, pt.vm, pt.vm.alloc
    ensures fat.Opened(file, bytes)
      && Served(old(fat.dev.faults), old(fat.dev.sectors), fat.dev.faults, fat.dev.sectors) && pt.Inv()
      && -1 <= image < 10
    ensures image == -1 ==>
      AllUsed(old(pt.procs)) || Failed(old(fat.dev.faults), old(fat.dev.sectors), fat.dev.faults) || !Loadable(bytes)
    ensures image == -1 ==>
      Untouched(old(pt.vm.tables), old(pt.vm.live), old(pt.vm.alloc.ram), old(pt.own), old(pt.procs),
                old(pt.vm.alloc.ledger),
                pt.vm.tables, pt.vm.live, pt.vm.alloc.ram, pt.own, pt.procs, pt.vm.alloc.ledger)
    ensures image != -1 ==>
      && FirstFree(old(pt.procs), image) && ProcsBut(old(pt.procs), pt.procs, image) && pt.procs[image].state == CREATED
      && Apart(old(pt.vm.tables), old(pt.vm.live), old(pt.vm.alloc.ram), old(pt.own),
               pt.vm.tables, pt.vm.live, pt.vm.alloc.ram, pt.own, image)
      && FreshProgram(pt.vm.alloc.ram, pt.own[image], pt.procs[image], bytes)
  {
    image := pt.ProcCreate();
    if image == -1 {
      NothingUsedKept(pt.vm.kernelEnd, pt.vm.tables, pt.vm.live, pt.vm.alloc.ram, pt.own, pt.procs);
      return;
    }
    ghost var t := image;
    ghost var tables1, live1, ram1, own1 := pt.vm.tables, pt.vm.live, pt.vm.alloc.ram, pt.own;
    var ok := LoadElf(pt, fat, file, image, bytes);
    ApartTwice(old(pt.vm.tables), old(pt.vm.live), old(pt.vm.alloc.ram), old(pt.own), tables1, live1, ram1, own1,
               pt.vm.tables, pt.vm.live, pt.vm.alloc.ram, pt.own, t);
    StacksStayFresh(own1, pt.own, ram1, pt.vm.alloc.ram, t);
    if !ok {
      tables1, live1, ram1, own1 := pt.vm.tables, pt.vm.live, pt.vm.alloc.ram, pt.own;
      FreeSlot(pt, image);
      ApartTwice(old(pt.vm.tables), old(pt.vm.live), old(pt.vm.alloc.ram), old(pt.own), tables1, live1, ram1, own1,
                 pt.vm.tables, pt.vm.live, pt.vm.alloc.ram, pt.own, t);
      GivenBack(pt.vm.kernelEnd, old(pt.vm.tables), old(pt.vm.live), old(pt.vm.alloc.ram), old(pt.own), old(pt.procs),
                old(pt.vm.alloc.ledger),
                pt.vm.tables, pt.vm.live, pt.vm.alloc.ram, pt.own, pt.procs, pt.vm.alloc.ledger, t);
      image := -1;
    }
  }

  /** Gives slot `proc` the program in slot `image` and frees what `proc` had before. */
  method Commit(pt: ProcTable, proc: nat, image: nat, ghost bytes: seq<byte>)
    requires pt.Inv() && proc < 10 && image < 10 && proc != image
    requires pt.procs[proc].state != UNUSED && pt.procs[image].state != UNUSED
    requires FreshProgram(pt.vm.alloc.ram, pt.own[image], pt.procs[image], bytes)
    modifies pt`procs, pt`own, pt.vm, pt.vm.alloc
    ensures pt.Inv() && ProcsButTwo(old(pt.procs), pt.procs, proc, image)
    ensures ApartTwo(old(pt.vm.tables), old(pt.vm.live), old(pt.vm.alloc.ram), old(pt.own),
                     pt.vm.tables, pt.vm.live, pt.vm.alloc.ram, pt.own, proc, image)
    ensures pt.own[proc] == old(pt.own)[image] && Empty(pt.own[image]) && pt.procs[image].state == UNUSED
    ensures NobodyOwns(pt.own, old(pt.own)[proc])
    ensures Released(pt.vm.alloc.ledger, old(pt.own)[proc], old(pt.vm.tables)[proc], old(pt.vm.live)[proc])
    ensures FreshProgram(pt.vm.alloc.ram, pt.own[proc], pt.procs[proc], bytes)
    ensures pt.procs[proc].state == READY && pt.procs[proc].pid == old(pt.procs)[proc].pid
    ensures pt.procs[proc].waitPid == old(pt.procs)[proc].waitPid
  {
    ghost var l := pt.vm.alloc.ledger;
    SwapSlots(pt, proc, image);
    ghost var tables1, live1, own1 := pt.vm.tables, pt.vm.live, pt.own;
    FreeSlot(pt, image);
    ProgramKept(tables1, live1, old(pt.vm.alloc.ram), own1, pt.vm.tables, pt.vm.live, pt.vm.alloc.ram, pt.own,
                image, proc, pt.procs[proc], bytes);
    OldUnowned(old(pt.own), l, pt.own, proc, image);
    ApartIsTwo(tables1, live1, old(pt.vm.alloc.ram), own1, pt.vm.tables, pt.vm.live, pt.vm.alloc.ram, pt.own, proc,
               image);
    ApartTwoTwice(old(pt.vm.tables), old(pt.vm.live), old(pt.vm.alloc.ram), old(pt.own), tables1, live1,
                  old(pt.vm.alloc.ram), own1,
                  pt.vm.tables, pt.vm.live, pt.vm.alloc.ram, pt.own, proc, image);
  }

  /** Commits a program that was staged in slot `image` since the state given by `ta` to `pa`. */
  method CommitStaged(pt: ProcTable, proc: nat, image: nat, ghost bytes: seq<byte>,
                      ghost ta: seq<Table>, ghost la: seq<set<nat>>, ghost ra: Ram, ghost oa: seq<Pages>,
                      ghost pa: seq<Process>)
    requires pt.Inv() && proc < 10 && image < 10 && proc != image
    requires pt.procs[proc].state != UNUSED && pt.procs[image].state != UNUSED && |pa| == 10 && FirstFree(pa, image)
    requires FreshProgram(pt.vm.alloc.ram, pt.own[image], pt.procs[image], bytes) && ProcsBut(pa, pt.procs, image)
    requires Apart(ta, la, ra, oa, pt.vm.tables, pt.vm.live, pt.vm.alloc.ram, pt.own, image)
    modifies pt`procs, pt`own, pt.vm, pt.vm.alloc
    ensures pt.Inv()
    ensures Replaced(ta, la, ra, oa, pa, pt.vm.tables, pt.vm.live, pt.vm.alloc.ram, pt.own, pt.procs,
                     pt.vm.alloc.ledger, proc, image, bytes)
  {
    ApartIsTwo(ta, la, ra, oa, pt.vm.tables, pt.vm.live, pt.vm.alloc.ram, pt.own, proc, image);
    Commit(pt, proc, image, bytes);
    ApartTwoTwice(ta, la, ra, oa, old(pt.vm.tables), old(pt.vm.live), old(pt.vm.alloc.ram), old(pt.own),
                  pt.vm.tables, pt.vm.live, pt.vm.alloc.ram, pt.own, proc, image);
  }

  /** Stages the program in an open file and, if that works, gives it to slot `proc`. */
  method ReplaceProgram(pt: ProcTable, fat: FatReader, proc: nat, file: FatFile, ghost bytes: seq<byte>)
    returns (ok: bool, ghost image: nat)
    requires pt.Inv() && fat.Opened(file, bytes) && proc < 10 && pt.procs[proc].state != UNUSED
    modifies fat.dev, pt`procs, pt`own, pt.vm, pt.vm.alloc
    ensures pt.Inv() && fat.Valid()
      && Served(old(fat.dev.faults), old(fat.dev.sectors), fat.dev.faults, fat.dev.sectors)
    ensures !ok ==>
      Untouched(old(pt.vm.tables), old(pt.vm.live), old(pt.vm.alloc.ram), old(pt.own), old(pt.procs),
                old(pt.vm.alloc.ledger),
                pt.vm.tables, pt.vm.live, pt.vm.alloc.ram, pt.own, pt.procs, pt.vm.alloc.ledger)
    ensures !ok ==>
      Failed(old(fat.dev.faults), old(fat.dev.sectors), fat.dev.faults) || AllUsed(old(pt.procs)) || !Loadable(bytes)
    ensures ok ==> Replaced(old(pt.vm.tables), old(pt.vm.live), old(pt.vm.alloc.ram), old(pt.own), old(pt.procs),
                            pt.vm.tables, pt.vm.live, pt.vm.alloc.ram, pt.own, pt.procs, pt.vm.alloc.ledger, proc,
                            image, bytes)
  {
    ghost var tables, live, ram, own, procs := pt.vm.tables, pt.vm.live, pt.vm.alloc.ram, pt.own, pt.procs;
    var slot := StageProgram(pt, fat, file, bytes);
    if slot == -1 {
      return false, 0;
    }
    CommitStaged(pt, proc, slot, bytes, tables, live, ram, own, procs);
    ok, image := true, slot;
  }

  /** No file of that name is a program. */
  ghost predicate NoProgram(fat: FatReader, name: seq<byte>)
    reads fat
  {
    forall bytes :: fat.Names(name, bytes) ==> !Loadable(bytes)
  }

  /** Replaces the process in slot `proc` by the program `name`. On success it owns exactly the new
      image and everything it had before is free; on failure nothing changed for anybody. */
  method ProcLoadProgram(pt: ProcTable, fat: FatReader, proc: int, name: seq<byte>)
    returns (ok: bool, ghost bytes: seq<byte>, ghost image: nat)
    requires pt.Inv() && fat.Valid() && 0 !in name
    requires -1 <= proc < 10 && (proc >= 0 ==> pt.procs[proc].state != UNUSED)
    modifies fat.dev, pt`procs, pt`own, pt.vm, pt.vm.alloc
    ensures pt.Inv() && fat.Valid()
      && Served(old(fat.dev.faults), old(fat.dev.sectors), fat.dev.faults, fat.dev.sectors)
    ensures !ok ==>
      Untouched(old(pt.vm.tables), old(pt.vm.live), old(pt.vm.alloc.ram), old(pt.own), old(pt.procs),
                old(pt.vm.alloc.ledger),
                pt.vm.tables, pt.vm.live, pt.vm.alloc.ram, pt.own, pt.procs, pt.vm.alloc.ledger)
    ensures !ok && proc >= 0 ==>
      Failed(old(fat.dev.faults), old(fat.dev.sectors), fat.dev.faults) || AllUsed(old(pt.procs))
      || NoProgram(fat, name)
    ensures ok ==> proc >= 0 && fat.Names(name, bytes)
    ensures ok ==> Replaced(old(pt.vm.tables), old(pt.vm.live), old(pt.vm.alloc.ram), old(pt.own), old(pt.procs),
                            pt.vm.tables, pt.vm.live, pt.vm.alloc.ram, pt.own, pt.procs, pt.vm.alloc.ledger, proc,
                            image, bytes)
  {
    ok, bytes, image := false, [], 0;
    NothingUsedKept(pt.vm.kernelEnd, pt.vm.tables, pt.vm.live, pt.vm.alloc.ram, pt.own, pt.procs);
    if proc < 0 {
      return;
    }
    var file;
    ok, file, bytes := fat.OpenProgram(name);
    if !ok {
      return;
    }
    ok, image := ReplaceProgram(pt, fat, proc, file, bytes);
  }
}
