// The kernel as a whole: system calls, the scheduler and user code, one atomic step at a time.
module Kernels {
  import opened Words
  import opened PageTables
  import opened Spaces
  import opened Swap
  import opened Sched
  import opened Scheduler
  import opened KernelState
  import opened Proc
  import opened Virtio
  import opened Directories
  import opened Fat
  import opened Fork
  import opened Exec
  import opened UserMemory
  import opened Outcomes
  import opened Images
  import opened ForkCopy
  import opened Runs

  /** There is no name at `addr`, or no file of that name is a program. */
  ghost predicate NoUserProgram(fat: FatReader, ram: Ram, pages: Pages, heapSize: nat, addr: nat)
    reads fat
  {
    forall name :: UserName(ram, pages, heapSize, addr, name) ==> NoProgram(fat, name)
  }

  /** A store through the table set of slot `t`, with the access rights of user code. */
  method WriteUser(pt: ProcTable, t: nat, a: nat, v: byte, ghost n: nat)
    requires pt.Inv() && t < 10 && a < 0x1_0000_0000 && pt.SlotSpace(t, n) && pt.procs[t].heapSize == 4096 * n
    requires pt.procs[t].state != UNUSED
    modifies pt.vm.alloc`ram
    ensures pt.Inv()
    ensures Apart(pt.vm.tables, pt.vm.live, old(pt.vm.alloc.ram), pt.own, pt.vm.tables, pt.vm.live, pt.vm.alloc.ram,
                  pt.own, t)
    ensures if InUser(4096 * n, a) then UserStored(pt.own[t], 4096 * n, old(pt.vm.alloc.ram), pt.vm.alloc.ram, a, v)
            else pt.vm.alloc.ram == old(pt.vm.alloc.ram)
  {
    NothingApart(pt.vm.tables, pt.vm.live, pt.vm.alloc.ram, pt.own, t);
    UserAccess(pt.vm.kernelEnd, pt.vm.alloc.ram, pt.vm.tables[t], pt.own[t], n, a);
    var w := Lookup(pt.vm.alloc.ram, pt.vm.tables[t], a / 0x10_0000, a / 4096 % 256);
    if Writable(w) {
      InRamPages(pt.own, pt.vm.alloc.ledger, t, UserPage(a));
      StoredByte(pt.own, pt.vm.alloc.ledger, pt.vm.alloc.ram, t, n, a, v);
      pt.WriteOwned(w / 4096, pt.vm.alloc.ram[w / 4096][a % 4096 := v], t, UserPage(a));
      PagesButApart(pt.vm.tables, pt.vm.live, pt.own, old(pt.vm.alloc.ram), pt.vm.alloc.ram, t, UserPage(a));
      SpaceViewKept(pt.vm.kernelEnd, pt.vm.tables, pt.vm.live, old(pt.vm.alloc.ram), pt.vm.alloc.ram, pt.own[t], t);
      PageCount(pt.own[t], n);
      assert SlotOk(pt.vm.kernelEnd, pt.vm.tables, pt.vm.live, old(pt.vm.alloc.ram), pt.own[t], pt.procs[t], t);
      OneSlotStep(pt.vm.kernelEnd, pt.vm.tables, pt.vm.live, old(pt.vm.alloc.ram), pt.own, pt.procs,
                  pt.vm.tables, pt.vm.live, pt.vm.alloc.ram, pt.own, pt.procs, t);
    }
  }

  class Kernel {
    const pt: ProcTable
    const fat: FatReader
    var current: int
    var rr: nat
    var halted: bool
    // How many processes each slot has held, and which of them each sleeper waits for.
    ghost var born: seq<nat>
    ghost var awaited: seq<nat>

    constructor (pt: ProcTable, fat: FatReader)
      ensures this.pt == pt && this.fat == fat && current == -1 && rr == 0 && !halted
      ensures born == awaited == NEVER
    {
      this.pt, this.fat := pt, fat;
      current, rr, halted := -1, 0, false;
      born, awaited := NEVER, NEVER;
    }

    ghost function Abs(): Sys
      reads this`rr, this`current, this`halted, this`born, this`awaited, pt
    {
      View(pt.procs, rr, current, halted, born, awaited)
    }

    /** The whole state as a value, with what was printed and returned so far. */
    ghost function Snap(printed: seq<seq<byte>>, result: int): Machine
      reads this`rr, this`current, this`halted, this`born, this`awaited, pt, pt.vm, pt.vm.alloc, fat.dev
    {
      Machine(pt.vm.tables, pt.vm.live, pt.vm.alloc.ram, pt.own, pt.procs, pt.vm.alloc.ledger, Abs(),
              fat.dev.faults, fat.dev.sectors, printed, result)
    }

    /** The machine is in state `m`. */
    ghost predicate IsIn(m: Machine)
      reads this`rr, this`current, this`halted, this`born, this`awaited, pt, pt.vm, pt.vm.alloc, fat.dev
    {
      m == Snap(m.printed, m.result)
    }

    /** Memory is partitioned, a volume is mounted and the processes are in order. */
    ghost predicate KInv()
      reads this`rr, this`current, this`halted, this`born, this`awaited, pt, pt.vm, pt.vm.alloc, fat, fat.dev
    {
      pt.Inv() && fat.Valid() && fat.mounted && Inv(Abs())
    }

    /** schedule: starts the next ready process in circular order, or stops for good. */
    method Reschedule()
      requires |pt.procs| == 10 && Shaped(Abs())
      modifies this`rr, this`current, this`halted
      ensures Abs() == Schedule(old(Abs()))
    {
      var found;
      found, rr := FindReady(pt.procs, rr, States(pt.procs));
      if found {
        current := rr;
      } else {
        halted := true;
      }
    }

    /** yield, and the timer tick. */
    method SyscallYield()
      requires KInv() && !halted
      modifies this`rr, this`current, this`halted
      ensures KInv() && Abs() == Step(old(Abs()), Yield)
    {
      StepInv(Abs(), Yield);
      Reschedule();
    }

    /** Saves the registers of the running process on entry to the kernel. */
    method SaveContext(context: seq<int>)
      requires KInv() && !halted && |context| == 17
      modifies pt`procs
      ensures KInv() && Abs() == old(Abs()) && ProcsBut(old(pt.procs), pt.procs, current)
      ensures pt.procs[current] == old(pt.procs)[current].(context := context)
    {
      assert SlotOk(pt.vm.kernelEnd, pt.vm.tables, pt.vm.live, pt.vm.alloc.ram, pt.own[current], pt.procs[current],
                    current);
      pt.procs := pt.procs[current := pt.procs[current].(context := context)];
      RecordStep(pt.vm.kernelEnd, pt.vm.tables, pt.vm.live, pt.vm.alloc.ram, pt.own, old(pt.procs), pt.procs);
      SameStates(old(pt.procs), pt.procs);
    }

    /** Puts the running process to sleep until the process with this pid exits. */
    method Sleep(pid: int)
      requires KInv() && !halted && 1 <= pid <= 10
      modifies pt`procs, this`awaited
      ensures pt.Inv()
      ensures pt.procs == old(pt.procs)[current := old(pt.procs)[current].(waitPid := pid, state := SLEEPING)]
      ensures Abs() == Asleep(old(Abs()), pid)
    {
      pt.procs := pt.procs[current := pt.procs[current].(waitPid := pid, state := SLEEPING)];
      awaited := awaited[current := born[pid - 1]];
      OneRecord(old(pt.procs), pt.procs, current);
      RecordStep(pt.vm.kernelEnd, pt.vm.tables, pt.vm.live, pt.vm.alloc.ram, pt.own, old(pt.procs), pt.procs);
    }

    /** wait: sleeps if the pid is that of a slot in use, else returns at once. */
    method SyscallWait(pid: int) returns (slept: bool)
      requires KInv() && !halted
      modifies this`rr, this`current, this`halted, this`awaited, pt`procs
      ensures KInv() && Abs() == Step(old(Abs()), Wait(pid))
      ensures slept <==> 1 <= pid <= 10 && old(pt.procs)[pid - 1].state != UNUSED
      ensures slept ==>
        pt.procs == old(pt.procs)[old(current) := old(pt.procs)[old(current)].(waitPid := pid, state := SLEEPING)]
      ensures !slept ==> unchanged(this) && unchanged(pt)
    {
      StepInv(Abs(), Wait(pid));
      slept := false;
      if 0 < pid <= 10 && pt.procs[pid - 1].state != UNUSED {
        Sleep(pid);
        Reschedule();
        slept := true;
      }
    }

    /** Makes every process that waits for `pid` ready. */
    method WakeWaiters(pid: int)
      requires pt.Inv()
      modifies pt`procs
      ensures pt.Inv() && |pt.procs| == 10
      ensures forall u :: 0 <= u < 10 ==> pt.procs[u] == Told(old(pt.procs)[u], pid)
    {
      var u := 0;
      while u < 10
        invariant 0 <= u <= 10 && |pt.procs| == 10
        invariant forall v :: 0 <= v < 10 ==>
          pt.procs[v] == if v < u then Told(old(pt.procs)[v], pid) else old(pt.procs)[v]
      {
        if pt.procs[u].state == SLEEPING && pt.procs[u].waitPid == pid {
          pt.procs := pt.procs[u := pt.procs[u].(waitPid := -1, state := READY)];
        }
        u := u + 1;
      }
      RecordStep(pt.vm.kernelEnd, pt.vm.tables, pt.vm.live, pt.vm.alloc.ram, pt.own, old(pt.procs), pt.procs);
    }

    /** The running process wakes its waiters and gives everything back. */
    method LeaveSlot()
      requires pt.Inv() && 0 <= current < 10 && pt.procs[current].state == READY && Shaped(Abs())
      modifies this`current, pt`procs, pt`own, pt.vm, pt.vm.alloc
      ensures pt.Inv() && Abs() == Leave(old(Abs())) && Empty(pt.own[old(current)]) && pt.vm.live[old(current)] == {}
      ensures LeftSlot(old(pt.procs), pt.procs, old(current))
      ensures Released(pt.vm.alloc.ledger, old(pt.own)[old(current)], old(pt.vm.tables)[old(current)],
                       old(pt.vm.live)[old(current)])
      ensures Apart(old(pt.vm.tables), old(pt.vm.live), old(pt.vm.alloc.ram), old(pt.own),
                    pt.vm.tables, pt.vm.live, pt.vm.alloc.ram, pt.own, old(current))
    {
      assert SlotOk(pt.vm.kernelEnd, pt.vm.tables, pt.vm.live, pt.vm.alloc.ram, pt.own[current], pt.procs[current],
                    current);
      WakeWaiters(pt.procs[current].pid);
      ghost var told := pt.procs;
      FreeSlot(pt, current);
      ExitStates(old(pt.procs), told, pt.procs, current);
      LeftRecords(old(pt.procs), told, pt.procs, current);
      current := -1;
    }

    /** exit: wakes the waiters, gives everything back and runs somebody else. */
    method SyscallExit()
      requires KInv() && !halted
      modifies this`rr, this`current, this`halted, pt`procs, pt`own, pt.vm, pt.vm.alloc
      ensures KInv() && Abs() == Step(old(Abs()), Exit) && LeftSlot(old(pt.procs), pt.procs, old(current))
      ensures Empty(pt.own[old(current)]) && pt.vm.live[old(current)] == {}
      ensures Released(pt.vm.alloc.ledger, old(pt.own)[old(current)], old(pt.vm.tables)[old(current)],
                       old(pt.vm.live)[old(current)])
      ensures Apart(old(pt.vm.tables), old(pt.vm.live), old(pt.vm.alloc.ram), old(pt.own),
                    pt.vm.tables, pt.vm.live, pt.vm.alloc.ram, pt.own, old(current))
    {
      StepInv(Abs(), Exit);
      LeaveSlot();
      Reschedule();
    }

    /** Slot `c` holds one more process. */
    ghost method CountChild(procs: seq<Process>, s: Sys, c: nat)
      requires FirstFree(procs, c) && ProcsBut(procs, pt.procs, c) && pt.procs[c].state == READY
      requires Shaped(s) && !s.halted && 0 <= s.current < 10 && s == View(procs, rr, current, halted, born, awaited)
      modifies this`born
      ensures Abs() == Step(s, Op.Fork)
    {
      ForkStep(procs, pt.procs, s, c);
      born := born[c := born[c] + 1];
    }

    /** Copies the running process into an unused slot, if there is one. */
    method CopyCurrent() returns (pid: int)
      requires pt.Inv() && !halted && 0 <= current < 10 && pt.procs[current].state == READY && Shaped(Abs())
      modifies this`born, pt`procs, pt`own, pt.vm, pt.vm.alloc
      ensures pt.Inv() && Abs() == Step(old(Abs()), Op.Fork)
      ensures pid == -1 <==> AllUsed(old(pt.procs))
      ensures pid == -1 ==> unchanged(pt, pt.vm, pt.vm.alloc)
      ensures pid != -1 ==> 1 <= pid <= 10
      ensures pid != -1 ==>
        ChildMade(old(pt.vm.tables), old(pt.vm.live), old(pt.vm.alloc.ram), old(pt.own), old(pt.procs),
                  pt.vm.tables, pt.vm.live, pt.vm.alloc.ram, pt.own, pt.procs, current, pid - 1)
    {
      ghost var s, procs := Abs(), pt.procs;
      pid := SyscallFork(pt, current);
      if pid == -1 {
        NoForkStep(procs, s);
      } else {
        CountChild(procs, s, pid - 1);
      }
    }

    /** fork by the running process. */
    method ForkCurrent() returns (pid: int)
      requires KInv() && !halted
      modifies this`born, pt`procs, pt`own, pt.vm, pt.vm.alloc
      ensures KInv() && Abs() == Step(old(Abs()), Op.Fork)
      ensures pid == -1 <==> AllUsed(old(pt.procs))
      ensures pid == -1 ==> unchanged(pt, pt.vm, pt.vm.alloc)
      ensures pid != -1 ==> 1 <= pid <= 10
      ensures pid != -1 ==>
        ChildMade(old(pt.vm.tables), old(pt.vm.live), old(pt.vm.alloc.ram), old(pt.own), old(pt.procs),
                  pt.vm.tables, pt.vm.live, pt.vm.alloc.ram, pt.own, pt.procs, current, pid - 1)
    {
      StepInv(Abs(), Op.Fork);
      pid := CopyCurrent();
    }

    /** The byte at a user address of slot `t`, through its page table. */
    method ReadUser(t: nat, a: nat) returns (b: byte)
      requires pt.Inv() && t < 10 && pt.procs[t].state != UNUSED && InUser(pt.procs[t].heapSize, a)
      ensures b == UserByte(pt.vm.alloc.ram, pt.own[t], a)
    {
      assert SlotOk(pt.vm.kernelEnd, pt.vm.tables, pt.vm.live, pt.vm.alloc.ram, pt.own[t], pt.procs[t], t);
      UserWalk(pt.vm.kernelEnd, pt.vm.alloc.ram, pt.vm.tables[t], pt.own[t], |pt.own[t]| - 2, a);
      InRamPages(pt.own, pt.vm.alloc.ledger, t, UserPage(a));
      var physical := pt.vm.Resolve(t, a, UserSection(a), UserIndex(a), a % 4096);
      b := pt.vm.alloc.ram[physical / 4096][physical % 4096];
    }

    /** Copies a file name from user memory, checking every address. */
    method FetchName(t: nat, addr: nat) returns (ok: bool, name: seq<byte>)
      requires pt.Inv() && t < 10 && pt.procs[t].state != UNUSED
      ensures ok ==> UserName(pt.vm.alloc.ram, pt.own[t], pt.procs[t].heapSize, addr, name)
      ensures !ok ==> forall s :: !UserName(pt.vm.alloc.ram, pt.own[t], pt.procs[t].heapSize, addr, s)
    {
      name := [];
      if addr == 0 {
        return false, name;
      }
      ghost var ram, pages, heapSize := pt.vm.alloc.ram, pt.own[t], pt.procs[t].heapSize;
      while |name| < 13
        invariant |name| <= 13 && NamePrefix(ram, pages, heapSize, addr, name)
      {
        forall s | UserName(ram, pages, heapSize, addr, s) ensures InUser(heapSize, addr + |name|) {
          NamesAgree(ram, pages, heapSize, addr, name, s);
        }
        if !InUser(pt.procs[t].heapSize, addr + |name|) {
          return false, name;
        }
        var b := ReadUser(t, addr + |name|);
        if b == 0 {
          return true, name;
        }
        NameGrows(ram, pages, heapSize, addr, name, b);
        name := name + [b];
      }
      forall s | UserName(ram, pages, heapSize, addr, s) ensures false {
        NamesAgree(ram, pages, heapSize, addr, name, s);
      }
      ok := false;
    }

    /** Replaces the running process by the program `name`; the scheduler's view does not change. */
    method ExecName(name: seq<byte>) returns (ok: bool, ghost bytes: seq<byte>, ghost image: nat)
      requires pt.Inv() && fat.Valid() && 0 <= current < 10 && pt.procs[current].state == READY && 0 !in name
      modifies fat.dev, pt`procs, pt`own, pt.vm, pt.vm.alloc
      ensures pt.Inv() && fat.Valid() && States(pt.procs) == States(old(pt.procs))
        && Waits(pt.procs) == Waits(old(pt.procs))
      ensures !ok ==>
        Untouched(old(pt.vm.tables), old(pt.vm.live), old(pt.vm.alloc.ram), old(pt.own), old(pt.procs),
                  old(pt.vm.alloc.ledger),
                  pt.vm.tables, pt.vm.live, pt.vm.alloc.ram, pt.own, pt.procs, pt.vm.alloc.ledger)
      ensures !ok ==>
        Failed(old(fat.dev.faults), old(fat.dev.sectors), fat.dev.faults) || AllUsed(old(pt.procs))
        || NoProgram(fat, name)
      ensures ok ==> fat.Names(name, bytes)
      ensures ok ==> Replaced(old(pt.vm.tables), old(pt.vm.live), old(pt.vm.alloc.ram), old(pt.own), old(pt.procs),
                              pt.vm.tables, pt.vm.live, pt.vm.alloc.ram, pt.own, pt.procs, pt.vm.alloc.ledger, current,
                              image, bytes)
    {
      ok, bytes, image := ProcLoadProgram(pt, fat, current, name);
      if ok {
        ExecStates(old(pt.procs), pt.procs, current, image);
      } else {
        KeptStates(old(pt.vm.tables), old(pt.vm.live), old(pt.vm.alloc.ram), old(pt.own), old(pt.procs),
                   pt.vm.tables, pt.vm.live, pt.vm.alloc.ram, pt.own, pt.procs);
      }
    }

    /** Replaces the running process by the program whose name is at `addr`. */
    method ExecAt(addr: nat) returns (started: bool, ghost name: seq<byte>, ghost bytes: seq<byte>, ghost image: nat)
      requires pt.Inv() && fat.Valid() && 0 <= current < 10 && pt.procs[current].state == READY && addr < 0x1_0000_0000
      modifies fat.dev, pt`procs, pt`own, pt.vm, pt.vm.alloc
      ensures pt.Inv() && fat.Valid() && States(pt.procs) == States(old(pt.procs))
        && Waits(pt.procs) == Waits(old(pt.procs))
      ensures !started ==>
        Untouched(old(pt.vm.tables), old(pt.vm.live), old(pt.vm.alloc.ram), old(pt.own), old(pt.procs),
                  old(pt.vm.alloc.ledger),
                  pt.vm.tables, pt.vm.live, pt.vm.alloc.ram, pt.own, pt.procs, pt.vm.alloc.ledger)
      ensures !started ==>
        || Failed(old(fat.dev.faults), old(fat.dev.sectors), fat.dev.faults)
        || AllUsed(old(pt.procs))
        || NoUserProgram(fat, old(pt.vm.alloc.ram), old(pt.own)[current], old(pt.procs)[current].heapSize, addr)
      ensures started ==>
        UserName(old(pt.vm.alloc.ram), old(pt.own)[current], old(pt.procs)[current].heapSize, addr, name)
      ensures started ==> fat.Names(name, bytes)
      ensures started ==> Replaced(old(pt.vm.tables), old(pt.vm.live), old(pt.vm.alloc.ram), old(pt.own), old(pt.procs),
                                   pt.vm.tables, pt.vm.live, pt.vm.alloc.ram, pt.own, pt.procs, pt.vm.alloc.ledger,
                                   current, image, bytes)
    {
      bytes, image := [], 0;
      var text;
      started, text := FetchName(current, addr);
      name := text;
      if !started {
        NothingUsedKept(pt.vm.kernelEnd, pt.vm.tables, pt.vm.live, pt.vm.alloc.ram, pt.own, pt.procs);
        return;
      }
      NameHasNoNul(pt.vm.alloc.ram, pt.own[current], pt.procs[current].heapSize, addr, name);
      OneName(pt.vm.alloc.ram, pt.own[current], pt.procs[current].heapSize, addr, name);
      started, bytes, image := ExecName(text);
    }

    /** exec by the running process: all or nothing, and no wakeup is lost or made up. */
    method SyscallExec(addr: nat)
      returns (started: bool, ghost name: seq<byte>, ghost bytes: seq<byte>, ghost image: nat)
      requires KInv() && !halted && addr < 0x1_0000_0000
      modifies fat.dev, pt`procs, pt`own, pt.vm, pt.vm.alloc
      ensures KInv() && Abs() == Step(old(Abs()), Op.Exec)
      ensures !started ==>
        Untouched(old(pt.vm.tables), old(pt.vm.live), old(pt.vm.alloc.ram), old(pt.own), old(pt.procs),
                  old(pt.vm.alloc.ledger),
                  pt.vm.tables, pt.vm.live, pt.vm.alloc.ram, pt.own, pt.procs, pt.vm.alloc.ledger)
      ensures !started ==>
        || Failed(old(fat.dev.faults), old(fat.dev.sectors), fat.dev.faults)
        || AllUsed(old(pt.procs))
        || NoUserProgram(fat, old(pt.vm.alloc.ram), old(pt.own)[current], old(pt.procs)[current].heapSize, addr)
      ensures started ==>
        UserName(old(pt.vm.alloc.ram), old(pt.own)[current], old(pt.procs)[current].heapSize, addr, name)
      ensures started ==> fat.Names(name, bytes)
      ensures started ==> Replaced(old(pt.vm.tables), old(pt.vm.live), old(pt.vm.alloc.ram), old(pt.own), old(pt.procs),
                                   pt.vm.tables, pt.vm.live, pt.vm.alloc.ram, pt.own, pt.procs, pt.vm.alloc.ledger,
                                   current, image, bytes)
    {
      NothingSteps(Abs(), Op.Exec);
      started, name, bytes, image := ExecAt(addr);
    }

    /** dir: prints the names of the files of the root directory, in order. Only a failing device can
        stop it before the end. */
    method SyscallDir() returns (result: int, lines: seq<seq<byte>>)
      requires KInv()
      modifies fat.dev
      ensures KInv() && Abs() == Step(old(Abs()), Op.Dir)
      ensures lines <= Lines(fat.root, 0) && (result == 0 ==> lines == Lines(fat.root, 0))
      ensures result != 0 ==> result == -1 && Failed(old(fat.dev.faults), old(fat.dev.sectors), fat.dev.faults)
    {
      NothingSteps(Abs(), Op.Dir);
      result, lines := fat.ListRoot();
    }

    /** User code of the running process stores one byte anywhere. Only its own heap and user stack
        take it, and nobody else can tell. */
    method UserStore(a: nat, v: byte)
      requires KInv() && !halted && a < 0x1_0000_0000
      modifies pt.vm.alloc`ram
      ensures KInv() && Abs() == old(Abs())
      ensures Apart(pt.vm.tables, pt.vm.live, old(pt.vm.alloc.ram), pt.own, pt.vm.tables, pt.vm.live, pt.vm.alloc.ram,
                    pt.own, current)
      ensures !InUser(pt.procs[current].heapSize, a) ==> pt.vm.alloc.ram == old(pt.vm.alloc.ram)
      ensures InUser(pt.procs[current].heapSize, a) ==> UserByte(pt.vm.alloc.ram, pt.own[current], a) == v
      ensures forall x :: InUser(pt.procs[current].heapSize, x) && x != a ==>
        UserByte(pt.vm.alloc.ram, pt.own[current], x) == UserByte(old(pt.vm.alloc.ram), pt.own[current], x)
    {
      assert SlotOk(pt.vm.kernelEnd, pt.vm.tables, pt.vm.live, pt.vm.alloc.ram, pt.own[current], pt.procs[current],
                    current);
      WriteUser(pt, current, a, v, |pt.own[current]| - 2);
    }

    /** A process runs. */
    lemma SnapRuns(m: Machine)
      requires KInv() && !halted && IsIn(m)
      ensures Running(m)
    {
      assert States(pt.procs)[rr] == READY;
    }

    /** wait, from the state `m`. */
    method CallWait(pid: int, ghost m: Machine) returns (ghost m': Machine)
      requires KInv() && !halted && IsIn(m) && Running(m)
      modifies this`rr, this`current, this`halted, this`awaited, pt`procs
      ensures KInv() && IsIn(m') && m'.sys == Step(m.sys, Wait(pid)) && WaitDone(m, pid, m')
    {
      var slept := SyscallWait(pid);
      m' := Snap(m.printed, if slept then m.result else 0);
    }

    /** exit, from the state `m`. */
    method CallExit(ghost m: Machine) returns (ghost m': Machine)
      requires KInv() && !halted && IsIn(m) && Running(m)
      modifies this`rr, this`current, this`halted, pt`procs, pt`own, pt.vm, pt.vm.alloc
      ensures KInv() && IsIn(m') && m'.sys == Step(m.sys, Exit) && ExitDone(m, m')
    {
      SyscallExit();
      m' := Snap(m.printed, m.result);
    }

    /** fork, from the state `m`. */
    method CallFork(ghost m: Machine) returns (ghost m': Machine)
      requires KInv() && !halted && IsIn(m) && Running(m)
      modifies this`born, pt`procs, pt`own, pt.vm, pt.vm.alloc
      ensures KInv() && IsIn(m') && m'.sys == Step(m.sys, Op.Fork) && ForkDone(m, m')
    {
      var pid := ForkCurrent();
      m' := Snap(m.printed, pid);
    }

    /** exec, from the state `m`. */
    method CallExec(addr: nat, ghost m: Machine) returns (ghost m': Machine)
      requires KInv() && !halted && IsIn(m) && Running(m) && addr < 0x1_0000_0000
      modifies fat.dev, pt`procs, pt`own, pt.vm, pt.vm.alloc
      ensures KInv() && IsIn(m') && m'.sys == Step(m.sys, Op.Exec) && ExecDone(fat.vol, fat.root, m, addr, m')
    {
      ghost var name, bytes, image;
      var started;
      started, name, bytes, image := SyscallExec(addr);
      m' := Snap(m.printed, if started then m.result else -1);
      if started {
        assert Started(fat.vol, fat.root, m, addr, m', name, bytes, image);
      }
    }

    /** dir, from the state `m`. */
    method CallDir(ghost m: Machine) returns (ghost m': Machine)
      requires KInv() && !halted && IsIn(m)
      modifies fat.dev
      ensures KInv() && IsIn(m') && m'.sys == Step(m.sys, Op.Dir) && DirDone(fat.root, m, m')
    {
      var result, lines := SyscallDir();
      m' := Snap(m.printed + lines, result);
    }

    /** yield or a tick, from the state `m`. */
    method CallYield(ghost m: Machine) returns (ghost m': Machine)
      requires KInv() && !halted && IsIn(m)
      modifies this`rr, this`current, this`halted
      ensures KInv() && IsIn(m') && m'.sys == Step(m.sys, Yield)
      ensures MemoryKept(m, m') && m'.procs == m.procs && SameDevice(m, m')
    {
      SyscallYield();
      m' := Snap(m.printed, m.result);
    }

    /** Carries out a system call of the running process, or a timer tick, from the state `m`. */
    method Call(op: Op, addr: nat, ghost m: Machine) returns (ghost m': Machine)
      requires KInv() && !halted && addr < 0x1_0000_0000 && IsIn(m) && Running(m)
      modifies this`rr, this`current, this`halted, this`born, this`awaited, fat.dev, pt`procs, pt`own, pt.vm,
               pt.vm.alloc
      ensures KInv() && IsIn(m') && CallDone(fat.vol, fat.root, m, op, addr, m')
    {
      match op
      case Yield => m' := CallYield(m);
      case Wait(pid) => m' := CallWait(pid, m);
      case Exit => m' := CallExit(m);
      case Fork => m' := CallFork(m);
      case Exec => m' := CallExec(addr, m);
      case Dir => m' := CallDir(m);
      case Other =>
        NothingSteps(Abs(), Op.Other);
        m' := m;
    }

    /** A store by user code, from the state `m`. */
    method StoreFrom(a: nat, v: byte, ghost m: Machine) returns (ghost m': Machine)
      requires KInv() && !halted && IsIn(m) && Running(m) && a < 0x1_0000_0000
      modifies pt.vm.alloc`ram
      ensures KInv() && IsIn(m') && StoreDone(m, a, v, m')
    {
      UserStore(a, v);
      m' := Snap(m.printed, m.result);
    }

    /** Entry to the kernel with these registers, from the state `m`. */
    method EnterFrom(context: seq<int>, ghost m: Machine) returns (ghost m': Machine)
      requires KInv() && !halted && IsIn(m) && Running(m) && |context| == 17
      modifies pt`procs
      ensures KInv() && IsIn(m') && m' == Entered(m, context) && Running(m')
    {
      SaveContext(context);
      m' := Snap(m.printed, m.result);
    }

    /** One action of the running machine: user code stores a byte, or the kernel is entered. */
    method Act(action: Action, ghost m: Machine) returns (ghost m': Machine)
      requires KInv() && Possible(action) && IsIn(m)
      modifies this`rr, this`current, this`halted, this`born, this`awaited, fat.dev, pt`procs, pt`own, pt.vm,
               pt.vm.alloc
      ensures KInv() && IsIn(m') && ActionDone(fat.vol, fat.root, m, action, m')
    {
      m' := m;
      if !halted {
        SnapRuns(m);
        match action
        case Store(a, v) => m' := StoreFrom(a, v, m);
        case Enter(context, op, addr) =>
          ghost var e := EnterFrom(context, m);
          m' := Call(op, addr, e);
      }
    }

    /** One more action of a run. */
    method Advance(action: Action, ghost run: seq<Machine>, ghost done: seq<Action>) returns (ghost more: seq<Machine>)
      requires KInv() && Possible(action) && Follows(fat.vol, fat.root, run, done) && IsIn(run[|done|])
      modifies this`rr, this`current, this`halted, this`born, this`awaited, fat.dev, pt`procs, pt`own, pt.vm,
               pt.vm.alloc
      ensures KInv() && |more| == |done| + 2 && more[0] == run[0] && IsIn(more[|done| + 1])
      ensures Follows(fat.vol, fat.root, more, done + [action])
    {
      ghost var m := Act(action, run[|done|]);
      RunGrows(fat.vol, fat.root, run, done, action, m);
      more := run + [m];
    }

    /** Whatever programs do, for however long, the kernel's invariant holds, the processes go through
        the states of the abstract machine, and every action does to memory what it should: `run` are
        the states before, between and after the actions. */
    method RunMachine(actions: seq<Action>) returns (ghost run: seq<Machine>)
      requires KInv() && forall i :: 0 <= i < |actions| ==> Possible(actions[i])
      modifies this`rr, this`current, this`halted, this`born, this`awaited, fat.dev, pt`procs, pt`own, pt.vm,
               pt.vm.alloc
      ensures KInv() && Abs() == Trace(old(Abs()), Ops(actions))
      ensures Follows(fat.vol, fat.root, run, actions) && run[0] == old(Snap([], 0)) && IsIn(run[|actions|])
    {
      ghost var first := Snap([], 0);
      run := [first];
      var i := 0;
      while i < |actions|
        invariant 0 <= i <= |actions| && KInv()
        invariant |run| == i + 1 && run[0] == first && IsIn(run[i])
        invariant Follows(fat.vol, fat.root, run, actions[..i])
      {
        assert actions[..i + 1] == actions[..i] + [actions[i]];
        run := Advance(actions[i], run, actions[..i]);
        i := i + 1;
      }
      assert actions[..|actions|] == actions;
      RunTraces(fat.vol, fat.root, run, actions, |actions|);
    }
  }
}
