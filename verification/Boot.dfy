// kernel/init.c: from power-on to the first process.
module Boot {
  import opened Words
  import opened PageTables
  import opened Walks
  import opened Spaces
  import opened BootMemory
  import opened Sched
  import opened KernelState
  import opened Kalloc
  import opened Vm
  import opened Proc
  import opened Virtio
  import opened Volumes
  import opened Images
  import opened Fat
  import opened Exec
  import opened Kernels
  import opened Runs

  /** The first kalloc_init and vm_init: the kernel's own address space, built from the memory below 32 MB. */
  method StartMemory(ram: Ram, kernelEnd: nat, processVm: TableAddress) returns (vm: Vm)
    requires kernelEnd <= 0x80_0000
    ensures fresh(vm) && fresh(vm.alloc) && vm.Valid() && vm.kernelEnd == kernelEnd
    ensures Held(vm.tables, vm.live, 10) && KernelView(kernelEnd, 6, vm.alloc.ram, vm.tables[10])
    ensures forall t :: 0 <= t < 10 ==> vm.live[t] == {}
    ensures vm.alloc.ledger.usedPages == 0 && forall p <- vm.alloc.ledger.page :: !vm.alloc.ledger.page[p].UsedPage?
    ensures forall p :: p in vm.alloc.ledger.page <==> Allocatable(kernelEnd, 0x200_0000, p)
  {
    var alloc := new Kalloc(ram);
    FirstPage(kernelEnd);
    ghost var lo := (kernelEnd + 0x20_0000 + 4095) / 4096;
    alloc.KallocInit(P2V(kernelEnd + 0x20_0000), P2V(0x200_0000), lo, 0x2000);
    ghost var l := alloc.ledger;
    vm := new Vm(alloc, kernelEnd, processVm);
    NoTables(vm.tables, vm.live, l, lo, 0x2000);
    vm.SetupKernelVm(10);
  }

  /** proc_init and the second kalloc_init: an empty process table and all the memory up to 256 MB. */
  method StartProcesses(vm: Vm) returns (pt: ProcTable)
    requires vm.Valid() && Held(vm.tables, vm.live, 10) && KernelView(vm.kernelEnd, 6, vm.alloc.ram, vm.tables[10])
    requires forall t :: 0 <= t < 10 ==> vm.live[t] == {}
    requires vm.alloc.ledger.usedPages == 0 && forall p <- vm.alloc.ledger.page :: !vm.alloc.ledger.page[p].UsedPage?
    requires forall p :: p in vm.alloc.ledger.page <==> Allocatable(vm.kernelEnd, 0x200_0000, p)
    modifies vm.alloc
    ensures fresh(pt) && pt.vm == vm && pt.Inv() && NoneYet(pt.procs) && AllManaged(vm.kernelEnd, pt.managed)
  {
    pt := new ProcTable(vm);
    ghost var l, ram := vm.alloc.ledger, vm.alloc.ram;
    vm.alloc.KallocInit(P2V(0x200_0000), P2V(0x1000_0000), 0x2000, 0x1_0000);
    pt.managed := vm.alloc.ledger.page.Keys;
    MorePages(vm.tables, vm.live, l, ram, vm.alloc.ledger, vm.alloc.ram, 0x2000, 0x1_0000, 10);
    NoPages(pt.own, vm.alloc.ledger);
    AllUnused(vm.kernelEnd, vm.tables, vm.live, vm.alloc.ram, pt.own, pt.procs);
  }

  /** The name of the first program. */
  const SHELL: seq<byte> := [115, 104, 101, 108, 108]

  /** proc_create and proc_load_program for the first program. */
  method StartShell(pt: ProcTable, fat: FatReader) returns (ok: bool, ghost bytes: seq<byte>)
    requires pt.Inv() && fat.Valid() && NoneYet(pt.procs)
    modifies fat.dev, pt`procs, pt`own, pt.vm, pt.vm.alloc
    ensures pt.Inv() && fat.Valid() && old(fat.dev.faults) <= fat.dev.faults
    ensures ok ==>
      OnlyFirst(pt.procs, READY) && fat.Names(SHELL, bytes)
      && FreshProgram(pt.vm.alloc.ram, pt.own[0], pt.procs[0], bytes)
    ensures !ok ==> Failed(old(fat.dev.faults), old(fat.dev.sectors), fat.dev.faults) || NoProgram(fat, SHELL)
  {
    FirstSlot(pt.procs, 0);
    var slot := pt.ProcCreate();
    FirstSlot(old(pt.procs), slot);
    SlotsLeft(pt.procs);
    ghost var procs1 := pt.procs;
    ghost var image;
    ok, bytes, image := ProcLoadProgram(pt, fat, slot, SHELL);
    if ok {
      ShellOnly(procs1, pt.procs, image);
    }
  }

  /** The device failed a request, is not usable or holds no FAT16 volume. */
  ghost predicate DiskFailed(faults: nat, faults': nat, config: Config, disk: seq<Sector>) {
    faults' > faults || !Usable(config, disk) || !Mountable(disk, Parse(disk[0]))
  }

  /** block_init and fat_init. */
  method Mount(dev: BlockDevice, config: Config) returns (ok: bool, fat: FatReader)
    requires |dev.disk| < 0x1_0000_0000
    requires config.present && config.capacityHigh == 0 ==> config.capacityLow == |dev.disk|
    modifies dev
    ensures fresh(fat) && fat.dev == dev && fat.Valid() && old(dev.faults) <= dev.faults
    ensures ok ==> dev.sectors != 0 || dev.faults > old(dev.faults)
    ensures !ok ==> DiskFailed(old(dev.faults), dev.faults, config, dev.disk)
  {
    ok := dev.BlockInit(config);
    fat := new FatReader(dev);
    if ok {
      ok := fat.FatInit();
    }
  }

  /** scheduler_init and the first schedule. */
  method Dispatch(k: Kernel)
    requires k.pt.Inv() && k.fat.Valid() && k.fat.mounted && OnlyFirst(k.pt.procs, READY)
    requires k.current == -1 && k.rr == 0 && !k.halted && k.born == k.awaited == NEVER
    modifies k`rr, k`current, k`halted
    ensures k.KInv() && k.Abs() == FIRST
  {
    FirstDispatch(k.pt.procs);
    k.Reschedule();
  }

  /** All of memory and an empty process table. */
  method StartTable(ram: Ram, kernelEnd: nat, processVm: TableAddress) returns (pt: ProcTable)
    requires kernelEnd <= 0x80_0000
    ensures fresh(pt) && fresh(pt.vm) && fresh(pt.vm.alloc) && pt.Inv() && NoneYet(pt.procs)
      && pt.vm.kernelEnd == kernelEnd && AllManaged(kernelEnd, pt.managed)
  {
    var vm := StartMemory(ram, kernelEnd, processVm);
    pt := StartProcesses(vm);
  }

  /** Loads the first program and dispatches it. */
  method RunShell(k: Kernel) returns (ok: bool, ghost bytes: seq<byte>)
    requires k.pt.Inv() && k.fat.Valid() && NoneYet(k.pt.procs)
    requires k.current == -1 && k.rr == 0 && !k.halted && k.born == k.awaited == NEVER
    modifies k`rr, k`current, k`halted, k.fat.dev, k.pt`procs, k.pt`own, k.pt.vm, k.pt.vm.alloc
    ensures old(k.fat.dev.faults) <= k.fat.dev.faults
    ensures k.pt.Inv() && k.fat.Valid() && (ok ==> k.KInv() && k.Abs() == FIRST)
    ensures ok ==> k.fat.Names(SHELL, bytes) && FreshProgram(k.pt.vm.alloc.ram, k.pt.own[0], k.pt.procs[0], bytes)
    ensures !ok ==> Failed(old(k.fat.dev.faults), old(k.fat.dev.sectors), k.fat.dev.faults) || NoProgram(k.fat, SHELL)
  {
    ok, bytes := StartShell(k.pt, k.fat);
    if ok {
      Dispatch(k);
    }
  }

  /** The disk, the first program and the scheduler, on top of an empty process table. */
  method StartKernel(pt: ProcTable, dev: BlockDevice, config: Config)
    returns (ok: bool, k: Kernel, ghost bytes: seq<byte>)
    requires pt.Inv() && NoneYet(pt.procs) && |dev.disk| < 0x1_0000_0000
    requires config.present && config.capacityHigh == 0 ==> config.capacityLow == |dev.disk|
    modifies dev, pt`procs, pt`own, pt.vm, pt.vm.alloc
    ensures fresh(k) && fresh(k.fat) && k.pt == pt && k.fat.dev == dev && k.pt.Inv() && k.fat.Valid()
    ensures ok ==> k.KInv() && k.Abs() == FIRST
    ensures ok ==> k.fat.Names(SHELL, bytes) && FreshProgram(pt.vm.alloc.ram, pt.own[0], pt.procs[0], bytes)
    ensures !ok ==> DiskFailed(old(dev.faults), dev.faults, config, dev.disk) || NoProgram(k.fat, SHELL)
  {
    var fat;
    ok, fat := Mount(dev, config);
    bytes := [];
    k := new Kernel(pt, fat);
    if ok {
      ok, bytes := RunShell(k);
    }
  }

  /** c_entry: brings the machine up and starts the first program. Whatever RAM held and wherever the
      kernel ends, it either stops, because the disk failed or holds no such program, or it reaches a
      state in order, with the program about to run in the first slot. */
  method Start(ram: Ram, kernelEnd: nat, processVm: TableAddress, dev: BlockDevice, config: Config)
    returns (ok: bool, k: Kernel, ghost bytes: seq<byte>)
    requires kernelEnd <= 0x80_0000 && |dev.disk| < 0x1_0000_0000
    requires config.present && config.capacityHigh == 0 ==> config.capacityLow == |dev.disk|
    modifies dev
    ensures fresh(k) && fresh(k.pt) && fresh(k.pt.vm) && fresh(k.pt.vm.alloc) && fresh(k.fat) && k.fat.dev == dev
    ensures k.pt.Inv() && k.fat.Valid() && k.pt.vm.kernelEnd == kernelEnd && AllManaged(kernelEnd, k.pt.managed)
    ensures ok ==> k.KInv() && k.Abs() == FIRST
    ensures ok ==> k.fat.Names(SHELL, bytes) && FreshProgram(k.pt.vm.alloc.ram, k.pt.own[0], k.pt.procs[0], bytes)
    ensures !ok ==> DiskFailed(old(dev.faults), dev.faults, config, dev.disk) || NoProgram(k.fat, SHELL)
  {
    var pt := StartTable(ram, kernelEnd, processVm);
    ok, k, bytes := StartKernel(pt, dev, config);
  }

  /** Everything after the dispatch of the first program. */
  method RunOn(k: Kernel, actions: seq<Action>, ghost shell: seq<byte>) returns (ghost run: seq<Machine>)
    requires k.KInv() && k.Abs() == FIRST && forall i :: 0 <= i < |actions| ==> Possible(actions[i])
    requires k.fat.Names(SHELL, shell) && FreshProgram(k.pt.vm.alloc.ram, k.pt.own[0], k.pt.procs[0], shell)
    modifies k`rr, k`current, k`halted, k`born, k`awaited, k.fat.dev, k.pt`procs, k.pt`own, k.pt.vm, k.pt.vm.alloc
    ensures k.KInv() && k.pt.managed == old(k.pt.managed) && k.Abs() == Trace(FIRST, Ops(actions))
    ensures Follows(k.fat.vol, k.fat.root, run, actions) && k.IsIn(run[|actions|])
    ensures run[0].sys == FIRST && AboutToStart(k.fat.vol, k.fat.root, run[0], 0, SHELL, shell)
  {
    assert AboutToStart(k.fat.vol, k.fat.root, k.Snap([], 0), 0, SHELL, shell);
    run := k.RunMachine(actions);
  }

  /** Power-on and everything after it. Whatever RAM held, wherever the kernel ends, whatever is on the
      disk and whatever programs, the timer and the device do: once the first program is dispatched the
      kernel's invariant holds, the processes go through the states of the abstract machine, and every
      action does to memory what it should. */
  method PowerOn(ram: Ram, kernelEnd: nat, processVm: TableAddress, dev: BlockDevice, config: Config,
                 actions: seq<Action>)
    returns (ok: bool, k: Kernel, ghost run: seq<Machine>, ghost shell: seq<byte>)
    requires kernelEnd <= 0x80_0000 && |dev.disk| < 0x1_0000_0000
    requires config.present && config.capacityHigh == 0 ==> config.capacityLow == |dev.disk|
    requires forall i :: 0 <= i < |actions| ==> Possible(actions[i])
    modifies dev
    ensures ok ==> k.KInv() && AllManaged(kernelEnd, k.pt.managed) && k.Abs() == Trace(FIRST, Ops(actions))
    ensures ok ==> Follows(k.fat.vol, k.fat.root, run, actions) && k.IsIn(run[|actions|])
    ensures ok ==> run[0].sys == FIRST && AboutToStart(k.fat.vol, k.fat.root, run[0], 0, SHELL, shell)
    ensures !ok ==> DiskFailed(old(dev.faults), dev.faults, config, dev.disk) || NoProgram(k.fat, SHELL)
  {
    run := [];
    ok, k, shell := Start(ram, kernelEnd, processVm, dev, config);
    if ok {
      run := RunOn(k, actions, shell);
    }
  }
}
