// What every action does to the memory and the processes, and what whole runs keep.
module Runs {
  import opened Words
  import opened Ledgers
  import opened PageTables
  import opened Spaces
  import opened Sched
  import opened KernelState
  import opened UserMemory
  import opened Virtio
  import opened Volumes
  import opened Directories
  import opened Fat
  import opened Elf
  import opened ForkCopy
  import opened Images
  import opened Outcomes

  /** The state of the machine: table sets, memory, what the slots own, their records, the ledger, the
      scheduler's view, the device, the lines that dir printed and what the last call returned. */
  datatype Machine = Machine(tables: seq<Table>, live: seq<set<nat>>, ram: Ram, own: seq<Pages>, procs: seq<Process>,
                             ledger: Ledger, sys: Sys, faults: nat, sectors: nat, printed: seq<seq<byte>>, result: int)

  /** Some process runs. */
  ghost predicate Running(m: Machine) {
    && |m.procs| == |m.own| == 10 && |m.tables| == |m.live| == 11
    && Shaped(m.sys) && !m.sys.halted && 0 <= m.sys.current < 10 && m.procs[m.sys.current].state == READY
  }

  /** Memory, its owners and the page tables are the same. */
  ghost predicate MemoryKept(m: Machine, m': Machine) {
    m'.tables == m.tables && m'.live == m.live && m'.ram == m.ram && m'.own == m.own && m'.ledger == m.ledger
  }

  ghost predicate SameDevice(m: Machine, m': Machine) {
    m'.faults == m.faults && m'.sectors == m.sectors && m'.printed == m.printed
  }

  /** Everything outside slot `t` is the same. */
  ghost predicate OnlySlot(m: Machine, m': Machine, t: nat) {
    Apart(m.tables, m.live, m.ram, m.own, m'.tables, m'.live, m'.ram, m'.own, t)
  }

  /** User code stored a byte: at an address of its heap or user stack it is there and no other byte of
      the process changed, anywhere else nothing changed; nobody else can tell. */
  ghost predicate StoreDone(m: Machine, a: nat, v: byte, m': Machine)
    requires Running(m)
  {
    var t := m.sys.current;
    && m' == m.(ram := m'.ram) && OnlySlot(m, m', t)
    && if InUser(m.procs[t].heapSize, a) then UserStored(m.own[t], m.procs[t].heapSize, m.ram, m'.ram, a, v)
       else m'.ram == m.ram
  }

  /** The running process entered the kernel with these registers, which are saved. */
  ghost function Entered(m: Machine, context: seq<int>): Machine
    requires Running(m)
  {
    var t := m.sys.current;
    m.(procs := m.procs[t := m.procs[t].(context := context)])
  }

  /** A wait records whom the caller waits for, if that is a process; otherwise it returns 0. */
  ghost predicate WaitDone(m: Machine, pid: int, m': Machine)
    requires Running(m)
  {
    var t := m.sys.current;
    && MemoryKept(m, m') && SameDevice(m, m')
    && if 1 <= pid <= 10 && m.procs[pid - 1].state != UNUSED
       then m'.procs == m.procs[t := m.procs[t].(waitPid := pid, state := SLEEPING)]
       else m'.procs == m.procs && m'.result == 0
  }

  /** The record of a process after the exit of the process with this pid. */
  ghost predicate AfterExit(p: Process, pid: int, p': Process) {
    if p.state == SLEEPING && p.waitPid == pid then p' == p.(waitPid := -1, state := READY) else p' == p
  }

  /** The process in slot `t` is gone, and those who waited for it are ready. */
  ghost predicate LeftSlot(procs: seq<Process>, procs': seq<Process>, t: nat) {
    && |procs| == |procs'| == 10 && t < 10 && procs'[t].state == UNUSED
    && forall u: nat {:trigger procs'[u]} :: u < 10 && u != t ==> AfterExit(procs[u], t + 1, procs'[u])
  }

  /** Waiters told, then the slot freed. */
  lemma LeftRecords(procs: seq<Process>, told: seq<Process>, procs': seq<Process>, t: nat)
    requires |procs| == |told| == 10 && t < 10 && ProcsBut(told, procs', t) && procs'[t].state == UNUSED
    requires forall u :: 0 <= u < 10 ==> told[u] == Told(procs[u], t + 1)
    ensures LeftSlot(procs, procs', t)
  {
    forall u: nat | u < 10 && u != t ensures AfterExit(procs[u], t + 1, procs'[u]) {
      assert told[u] == Told(procs[u], t + 1);
    }
  }

  /** An exit gives back everything the caller had, and wakes those who wait for it. */
  ghost predicate ExitDone(m: Machine, m': Machine)
    requires Running(m)
  {
    var t := m.sys.current;
    && SameDevice(m, m') && |m'.own| == 10 && |m'.live| == 11 && LeftSlot(m.procs, m'.procs, t)
    && Empty(m'.own[t]) && m'.live[t] == {} && Released(m'.ledger, m.own[t], m.tables[t], m.live[t])
    && OnlySlot(m, m', t)
  }

  /** A fork returns the pid of a copy of the caller, in the slot before that number; when every slot is
      in use it returns -1 and changes nothing. */
  ghost predicate ForkDone(m: Machine, m': Machine)
    requires Running(m)
  {
    && SameDevice(m, m')
    && if AllUsed(m.procs) then MemoryKept(m, m') && m'.procs == m.procs && m'.result == -1
       else
         && 1 <= m'.result <= 10
         && ChildMade(m.tables, m.live, m.ram, m.own, m.procs,
                      m'.tables, m'.live, m'.ram, m'.own, m'.procs, m.sys.current, m'.result - 1)
  }

  /** There is no string at `addr`, or no good file of that name is a program. */
  ghost predicate NothingToRun(v: Volume, root: seq<Entry>, ram: Ram, pages: Pages, heapSize: nat, addr: nat) {
    forall name, bytes :: UserName(ram, pages, heapSize, addr, name) && FileNamed(v, root, name, bytes) ==>
      !Loadable(bytes)
  }

  /** An exec was refused: it returned -1, nobody else can tell, and there was a reason. */
  ghost predicate Refused(v: Volume, root: seq<Entry>, m: Machine, addr: nat, m': Machine)
    requires Running(m)
  {
    && Untouched(m.tables, m.live, m.ram, m.own, m.procs, m.ledger,
                 m'.tables, m'.live, m'.ram, m'.own, m'.procs, m'.ledger)
    && m'.result == -1
    && (Failed(m.faults, m.sectors, m'.faults) || AllUsed(m.procs)
        || NothingToRun(v, root, m.ram, m.own[m.sys.current], m.procs[m.sys.current].heapSize, addr))
  }

  /** An exec replaced the caller by the program whose name was at `addr`. */
  ghost predicate Started(v: Volume, root: seq<Entry>, m: Machine, addr: nat, m': Machine, name: seq<byte>,
                          bytes: seq<byte>, image: nat)
    requires Running(m)
  {
    var t := m.sys.current;
    && UserName(m.ram, m.own[t], m.procs[t].heapSize, addr, name) && FileNamed(v, root, name, bytes)
    && Replaced(m.tables, m.live, m.ram, m.own, m.procs, m'.tables, m'.live, m'.ram, m'.own, m'.procs, m'.ledger, t,
                image, bytes)
  }

  ghost predicate ExecDone(v: Volume, root: seq<Entry>, m: Machine, addr: nat, m': Machine)
    requires Running(m)
  {
    && m'.printed == m.printed
    && (Refused(v, root, m, addr, m')
        || exists name, bytes, image: nat :: Started(v, root, m, addr, m', name, bytes, image))
  }

  /** dir prints the names of the root directory, in order: all of them and returns 0, or returns -1
      because the device failed. */
  ghost predicate DirDone(root: seq<Entry>, m: Machine, m': Machine) {
    && MemoryKept(m, m') && m'.procs == m.procs
    && m.printed <= m'.printed <= m.printed + Lines(root, 0)
    && if m'.result == 0 then m'.printed == m.printed + Lines(root, 0)
       else m'.result == -1 && Failed(m.faults, m.sectors, m'.faults)
  }

  /** What a system call, or a tick, does to memory and processes. */
  ghost predicate CallDone(v: Volume, root: seq<Entry>, m: Machine, op: Op, addr: nat, m': Machine)
    requires Running(m)
  {
    && m'.sys == Step(m.sys, op)
    && match op
       case Yield => MemoryKept(m, m') && m'.procs == m.procs && SameDevice(m, m')
       case Wait(pid) => WaitDone(m, pid, m')
       case Exit => ExitDone(m, m')
       case Fork => ForkDone(m, m')
       case Exec => ExecDone(v, root, m, addr, m')
       case Dir => DirDone(root, m, m')
       case Other => m' == m
  }

  /** What an action does. A stopped machine does nothing. */
  ghost predicate ActionDone(v: Volume, root: seq<Entry>, m: Machine, action: Action, m': Machine) {
    if m.sys.halted then m' == m else
      && Running(m)
      && match action
         case Store(a, b) => StoreDone(m, a, b, m')
         case Enter(context, op, addr) => CallDone(v, root, Entered(m, context), op, addr, m')
  }

  /** Slot `t` holds the program called `name`, which is about to start. */
  ghost predicate AboutToStart(v: Volume, root: seq<Entry>, m: Machine, t: nat, name: seq<byte>, bytes: seq<byte>) {
    && t < |m.own| && t < |m.procs| && FileNamed(v, root, name, bytes)
    && FreshProgram(m.ram, m.own[t], m.procs[t], bytes)
  }

  /** Action number `i` of a run. */
  ghost predicate StepAt(v: Volume, root: seq<Entry>, run: seq<Machine>, actions: seq<Action>, i: nat)
    requires i < |actions| && |run| == |actions| + 1
  {
    ActionDone(v, root, run[i], actions[i], run[i + 1])
  }

  /** A run: the states before, between and after the actions. */
  ghost predicate Follows(v: Volume, root: seq<Entry>, run: seq<Machine>, actions: seq<Action>) {
    && |run| == |actions| + 1
    && forall i: nat {:trigger StepAt(v, root, run, actions, i)} :: i < |actions| ==> StepAt(v, root, run, actions, i)
  }

  lemma RunGrows(v: Volume, root: seq<Entry>, run: seq<Machine>, actions: seq<Action>, action: Action, m: Machine)
    requires Follows(v, root, run, actions) && ActionDone(v, root, run[|actions|], action, m)
    ensures Follows(v, root, run + [m], actions + [action])
  {
    var run', actions' := run + [m], actions + [action];
    forall j: nat | j < |actions'| ensures StepAt(v, root, run', actions', j) {
      if j < |actions| {
        assert StepAt(v, root, run, actions, j);
        assert run'[j] == run[j] && run'[j + 1] == run[j + 1] && actions'[j] == actions[j];
      }
    }
  }

  /** In a run the processes go through the states of the abstract machine. */
  lemma {:induction false} RunTraces(v: Volume, root: seq<Entry>, run: seq<Machine>, actions: seq<Action>, i: nat)
    requires Follows(v, root, run, actions) && i <= |actions| && Shaped(run[0].sys)
    ensures run[i].sys == Trace(run[0].sys, Ops(actions[..i]))
  {
    if i > 0 {
      RunTraces(v, root, run, actions, i - 1);
      MoreActions(run[0].sys, actions, i - 1);
      assert StepAt(v, root, run, actions, i - 1);
      ActionTraces(v, root, run[i - 1], actions[i - 1], run[i]);
    }
  }

  lemma ActionTraces(v: Volume, root: seq<Entry>, m: Machine, action: Action, m': Machine)
    requires ActionDone(v, root, m, action, m') && Shaped(m.sys)
    ensures m'.sys == Trace(m.sys, Ops([action]))
  {
    OneAction(m.sys, action);
  }

  // What a process that does not run can rely on.

  /** Slot `t` holds the same process, with the same registers, the same pages and the same contents. */
  ghost predicate Undisturbed(m: Machine, m': Machine, t: nat) {
    && t < 10 && |m.procs| == |m'.procs| == |m.own| == |m'.own| == 10
    && m'.procs[t].context == m.procs[t].context && m'.procs[t].pid == m.procs[t].pid
    && m'.procs[t].heapSize == m.procs[t].heapSize && m'.own[t] == m.own[t]
    && forall k {:trigger m.own[t][k]} :: k in m.own[t] && m.own[t][k] < 0x1_0000 ==>
         m'.ram[m.own[t][k]] == m.ram[m.own[t][k]]
  }

  lemma UndisturbedTwice(a: Machine, b: Machine, c: Machine, t: nat)
    requires Undisturbed(a, b, t) && Undisturbed(b, c, t)
    ensures Undisturbed(a, c, t)
  {
    forall k | k in a.own[t] && a.own[t][k] < 0x1_0000 ensures c.ram[a.own[t][k]] == a.ram[a.own[t][k]] {
      assert b.own[t][k] == a.own[t][k];
    }
  }

  /** An undisturbed process sees the same byte at every address. */
  lemma SameUserBytes(m: Machine, m': Machine, t: nat, a: nat)
    requires Undisturbed(m, m', t)
    ensures UserByte(m'.ram, m'.own[t], a) == UserByte(m.ram, m.own[t], a)
  {
    if UserPage(a) in m.own[t] && m.own[t][UserPage(a)] < 0x1_0000 {
      assert m'.ram[m.own[t][UserPage(a)]] == m.ram[m.own[t][UserPage(a)]];
    }
  }

  lemma ApartUndisturbed(m: Machine, m': Machine, t: nat, u: nat)
    requires OnlySlot(m, m', t) && u < 10 && u != t && |m.procs| == |m'.procs| == 10
    requires m'.procs[u].context == m.procs[u].context && m'.procs[u].pid == m.procs[u].pid
    requires m'.procs[u].heapSize == m.procs[u].heapSize
    ensures Undisturbed(m, m', u)
  {
    forall k | k in m.own[u] && m.own[u][k] < 0x1_0000 ensures m'.ram[m.own[u][k]] == m.ram[m.own[u][k]] {}
  }

  lemma ReplacedUndisturbed(v: Volume, root: seq<Entry>, m: Machine, addr: nat, m': Machine, u: nat)
    requires Running(m) && ExecDone(v, root, m, addr, m') && u < 10 && u != m.sys.current && m.procs[u].state != UNUSED
    ensures Undisturbed(m, m', u) && m'.procs[u].state == m.procs[u].state
  {
    if !Refused(v, root, m, addr, m') {
      var name, bytes, image: nat :| Started(v, root, m, addr, m', name, bytes, image);
      assert m'.procs[u] == m.procs[u] && m'.own[u] == m.own[u];
    }
  }

  lemma ForkUndisturbed(m: Machine, m': Machine, u: nat)
    requires Running(m) && ForkDone(m, m') && u < 10 && m.procs[u].state != UNUSED
    ensures Undisturbed(m, m', u) && m'.procs[u].state == m.procs[u].state
  {
    if !AllUsed(m.procs) {
      var c := m'.result - 1;
      assert FirstFree(m.procs, c) && c != u;
      assert m'.procs[u] == m.procs[u];
      ApartUndisturbed(m, m', c, u);
    }
  }

  lemma ExitUndisturbed(m: Machine, m': Machine, u: nat)
    requires Running(m) && ExitDone(m, m') && u < 10 && u != m.sys.current && m.procs[u].state != UNUSED
    ensures Undisturbed(m, m', u) && m'.procs[u].state != UNUSED
  {
    assert AfterExit(m.procs[u], m.sys.current + 1, m'.procs[u]);
    ApartUndisturbed(m, m', m.sys.current, u);
  }

  /** No call disturbs a process that is not the caller. */
  lemma CallUndisturbed(v: Volume, root: seq<Entry>, m: Machine, op: Op, addr: nat, m': Machine, u: nat)
    requires Running(m) && CallDone(v, root, m, op, addr, m') && u < 10 && u != m.sys.current
    requires m.procs[u].state != UNUSED
    ensures Undisturbed(m, m', u) && m'.procs[u].state != UNUSED
  {
    match op
    case Exit => ExitUndisturbed(m, m', u);
    case Fork => ForkUndisturbed(m, m', u);
    case Exec => ReplacedUndisturbed(v, root, m, addr, m', u);
    case _ =>
  }

  /** Slots have records and pages. */
  ghost predicate Sized(m: Machine) { |m.procs| == |m.own| == 10 }

  /** A program that can be run is run: with a string at `addr` that names a good file that is a
      program, a spare slot and a device that does not fail, exec replaces the caller by that program. */
  lemma ExecStarts(v: Volume, root: seq<Entry>, m: Machine, addr: nat, m': Machine, name: seq<byte>, bytes: seq<byte>)
    requires Running(m) && ExecDone(v, root, m, addr, m')
    requires UserName(m.ram, m.own[m.sys.current], m.procs[m.sys.current].heapSize, addr, name)
    requires FileNamed(v, root, name, bytes) && Loadable(bytes)
    requires !AllUsed(m.procs) && !Failed(m.faults, m.sectors, m'.faults)
    ensures exists image: nat :: Started(v, root, m, addr, m', name, bytes, image)
  {
    CannotRefuse(v, root, m, addr, m', name, bytes);
    var other, content, image: nat :| Started(v, root, m, addr, m', other, content, image);
    SameProgram(v, root, m, addr, m', other, content, image, name, bytes);
  }

  lemma CannotRefuse(v: Volume, root: seq<Entry>, m: Machine, addr: nat, m': Machine, name: seq<byte>, bytes: seq<byte>)
    requires Running(m) && !AllUsed(m.procs) && !Failed(m.faults, m.sectors, m'.faults)
    requires UserName(m.ram, m.own[m.sys.current], m.procs[m.sys.current].heapSize, addr, name)
    requires FileNamed(v, root, name, bytes) && Loadable(bytes)
    ensures !Refused(v, root, m, addr, m')
  {
  }

  lemma SameProgram(v: Volume, root: seq<Entry>, m: Machine, addr: nat, m': Machine, other: seq<byte>,
                    content: seq<byte>, image: nat, name: seq<byte>, bytes: seq<byte>)
    requires Running(m) && Started(v, root, m, addr, m', other, content, image)
    requires UserName(m.ram, m.own[m.sys.current], m.procs[m.sys.current].heapSize, addr, name)
    requires FileNamed(v, root, name, bytes)
    ensures Started(v, root, m, addr, m', name, bytes, image)
  {
    OneName(m.ram, m.own[m.sys.current], m.procs[m.sys.current].heapSize, addr, name);
    assert other == name;
    OneContent(v, root, name, content, bytes);
  }

  /** Whatever the running process does, nobody else is disturbed. */
  lemma ActionUndisturbed(v: Volume, root: seq<Entry>, m: Machine, action: Action, m': Machine, u: nat)
    requires Sized(m) && ActionDone(v, root, m, action, m') && u < 10 && m.procs[u].state != UNUSED
    requires m.sys.halted || m.sys.current != u
    ensures Sized(m') && Undisturbed(m, m', u) && m'.procs[u].state != UNUSED
  {
    if !m.sys.halted {
      match action
      case Store(a, b) => ApartUndisturbed(m, m', m.sys.current, u);
      case Enter(context, op, addr) =>
        var e := Entered(m, context);
        assert Undisturbed(m, e, u);
        CallUndisturbed(v, root, e, op, addr, m', u);
        UndisturbedTwice(m, e, m', u);
    }
  }

  /** Slot `t` does not run in the states from `i` up to `j`. */
  ghost predicate Idle(run: seq<Machine>, t: nat, i: nat, j: nat) {
    forall k: nat {:trigger run[k]} :: i <= k < j && k < |run| ==> run[k].sys.halted || run[k].sys.current != t
  }

  /** While a process does not run, its registers, its pages and every byte in them stay as they are,
      whatever the others do. */
  lemma {:induction false} IdleUndisturbed(v: Volume, root: seq<Entry>, run: seq<Machine>, actions: seq<Action>,
                                           t: nat, i: nat, j: nat)
    requires Follows(v, root, run, actions) && i <= j < |run| && t < 10 && Idle(run, t, i, j)
    requires Sized(run[i]) && run[i].procs[t].state != UNUSED
    ensures Sized(run[j]) && Undisturbed(run[i], run[j], t) && run[j].procs[t].state != UNUSED
    decreases j - i
  {
    if i < j {
      IdleUndisturbed(v, root, run, actions, t, i, j - 1);
      assert StepAt(v, root, run, actions, j - 1);
      assert run[j - 1].sys.halted || run[j - 1].sys.current != t;
      ActionUndisturbed(v, root, run[j - 1], actions[j - 1], run[j], t);
      UndisturbedTwice(run[i], run[j - 1], run[j], t);
    }
  }

  /** A call that neither ends nor replaces the caller leaves it as it entered. */
  lemma CallerKept(v: Volume, root: seq<Entry>, m: Machine, op: Op, addr: nat, m': Machine)
    requires Running(m) && CallDone(v, root, m, op, addr, m')
    requires op != Exit && (op == Exec ==> Refused(v, root, m, addr, m'))
    ensures Sized(m') && Undisturbed(m, m', m.sys.current) && m'.procs[m.sys.current].state != UNUSED
  {
    if op == Fork {
      ForkUndisturbed(m, m', m.sys.current);
    }
  }

  /** A process that enters the kernel with registers `context`, and is neither ended nor replaced by
      the call, finds these registers and its memory as it left them when it runs again. */
  lemma Resumed(v: Volume, root: seq<Entry>, run: seq<Machine>, actions: seq<Action>, i: nat, j: nat,
                context: seq<int>, op: Op, addr: nat)
    requires Follows(v, root, run, actions) && i < j < |run| && actions[i] == Enter(context, op, addr)
    requires Running(run[i]) && op != Exit
    requires op == Exec ==> Refused(v, root, Entered(run[i], context), addr, run[i + 1])
    requires Idle(run, run[i].sys.current, i + 1, j)
    ensures var t := run[i].sys.current;
      && Sized(run[j]) && run[j].procs[t].context == context && run[j].own[t] == run[i].own[t]
      && forall a: nat :: UserByte(run[j].ram, run[j].own[t], a) == UserByte(run[i].ram, run[i].own[t], a)
  {
    var m, t := Entered(run[i], context), run[i].sys.current;
    assert StepAt(v, root, run, actions, i);
    CallerKept(v, root, m, op, addr, run[i + 1]);
    IdleUndisturbed(v, root, run, actions, t, i + 1, j);
    UndisturbedTwice(m, run[i + 1], run[j], t);
    forall a: nat ensures UserByte(run[j].ram, run[j].own[t], a) == UserByte(run[i].ram, run[i].own[t], a) {
      SameUserBytes(m, run[j], t, a);
    }
  }
}
