// How the scheduler sees the process table.
module KernelState {
  import opened Words
  import opened PageTables
  import opened Spaces
  import opened Swap
  import opened Sched

  ghost function States(procs: seq<Process>): (r: seq<State>)
    ensures |r| == |procs| && forall t :: 0 <= t < |procs| ==> r[t] == procs[t].state
  {
    seq(|procs|, t requires 0 <= t < |procs| => procs[t].state)
  }

  /** Whom every sleeping process waits for. */
  ghost function Waits(procs: seq<Process>): (r: seq<int>)
    ensures |r| == |procs| && forall t :: 0 <= t < |procs| ==>
      r[t] == if procs[t].state == SLEEPING then procs[t].waitPid else -1
  {
    seq(|procs|, t requires 0 <= t < |procs| => if procs[t].state == SLEEPING then procs[t].waitPid else -1)
  }

  ghost function View(procs: seq<Process>, rr: nat, current: int, halted: bool, born: seq<nat>,
                      awaited: seq<nat>): Sys {
    Sys(States(procs), Waits(procs), rr, current, halted, born, awaited)
  }

  /** One record changed. */
  lemma OneRecord(procs: seq<Process>, procs': seq<Process>, t: nat)
    requires ProcsBut(procs, procs', t) && t < 10
    ensures States(procs') == States(procs)[t := procs'[t].state]
    ensures Waits(procs') == Waits(procs)[t := if procs'[t].state == SLEEPING then procs'[t].waitPid else -1]
  {
  }

  /** Record `u` after the process in slot `t` has told its waiters. */
  ghost function Told(p: Process, pid: int): Process {
    if p.state == SLEEPING && p.waitPid == pid then p.(waitPid := -1, state := READY) else p
  }

  /** Waiters woken, then the slot freed: the states are those of an exit. */
  lemma ExitStates(procs: seq<Process>, told: seq<Process>, procs': seq<Process>, t: nat)
    requires |procs| == |told| == 10 && t < 10 && procs[t].state == READY && procs[t].pid == t + 1
    requires forall u :: 0 <= u < 10 ==> told[u] == Told(procs[u], t + 1)
    requires ProcsBut(told, procs', t) && procs'[t].state == UNUSED
    ensures States(procs') == Woken(States(procs), Waits(procs), t)
    ensures Waits(procs') == StillWaits(States(procs'), Waits(procs))
  {
  }

  lemma {:induction false} FirstUnusedIs(procs: seq<Process>, i: nat, t: nat)
    requires |procs| == 10 && i <= t && FirstFree(procs, t)
    ensures FirstUnused(States(procs), i) == t
    decreases t - i
  {
    if i < t {
      FirstUnusedIs(procs, i + 1, t);
    }
  }

  lemma {:induction false} NoneUnusedFrom(procs: seq<Process>, i: nat)
    requires |procs| == 10 && i <= 10 && AllUsed(procs)
    ensures FirstUnused(States(procs), i) == -1
    decreases 10 - i
  {
    if i < 10 {
      NoneUnusedFrom(procs, i + 1);
    }
  }

  lemma NoneUnused(procs: seq<Process>)
    requires |procs| == 10 && AllUsed(procs)
    ensures FirstUnused(States(procs), 0) == -1
  {
    NoneUnusedFrom(procs, 0);
  }

  /** A child in the first unused slot. */
  lemma ForkStates(procs: seq<Process>, procs': seq<Process>, c: nat)
    requires FirstFree(procs, c) && ProcsBut(procs, procs', c) && procs'[c].state == READY
    ensures FirstUnused(States(procs), 0) == c && States(procs') == States(procs)[c := READY]
      && Waits(procs') == Waits(procs)
  {
    FirstUnusedIs(procs, 0, c);
  }

  lemma ForkStep(procs: seq<Process>, procs': seq<Process>, s: Sys, c: nat)
    requires FirstFree(procs, c) && ProcsBut(procs, procs', c) && procs'[c].state == READY
    requires Shaped(s) && !s.halted && 0 <= s.current < 10 && s.state == States(procs) && s.waits == Waits(procs)
    ensures View(procs', s.rr, s.current, s.halted, s.born[c := s.born[c] + 1], s.awaited) == Step(s, Fork)
  {
    ForkStates(procs, procs', c);
  }

  lemma NoForkStep(procs: seq<Process>, s: Sys)
    requires |procs| == 10 && AllUsed(procs) && Shaped(s) && s.state == States(procs)
    ensures Step(s, Fork) == s
  {
    NoneUnused(procs);
  }

  ghost const NEVER: seq<nat> := seq(10, _ => 0)

  /** The first process runs, in slot 0, and there is no other. */
  ghost const FIRST: Sys :=
    Sys(seq(10, t => if t == 0 then READY else UNUSED), seq(10, _ => -1), 0, 0, false, NEVER, NEVER)

  /** The first call of schedule runs the only process. */
  lemma FirstDispatch(procs: seq<Process>)
    requires |procs| == 10 && forall t :: 0 <= t < 10 ==> procs[t].state == if t == 0 then READY else UNUSED
    ensures Schedule(View(procs, 0, -1, false, NEVER, NEVER)) == FIRST && Inv(FIRST)
  {
    var s := View(procs, 0, -1, false, NEVER, NEVER);
    ScheduleInv(s);
    PickNearest(s.state, 0, 0, |s.state|);
    assert s.state == FIRST.state && s.waits == FIRST.waits;
  }

  /** The caller was ready and is ready; the staging slot was unused and is unused. */
  lemma ExecStates(procs: seq<Process>, procs': seq<Process>, a: nat, b: nat)
    requires ProcsButTwo(procs, procs', a, b) && a < 10 && b < 10
    requires procs[a].state == READY && procs'[a].state == READY && procs[b].state == UNUSED
      && procs'[b].state == UNUSED
    ensures States(procs') == States(procs) && Waits(procs') == Waits(procs)
  {
    SameStates(procs, procs');
  }

  lemma KeptStates(tables: seq<Table>, live: seq<set<nat>>, ram: Ram, own: seq<Pages>, procs: seq<Process>,
                   tables': seq<Table>, live': seq<set<nat>>, ram': Ram, own': seq<Pages>, procs': seq<Process>)
    requires UsedKept(tables, live, ram, own, procs, tables', live', ram', own', procs')
    ensures States(procs') == States(procs) && Waits(procs') == Waits(procs)
  {
    SameStates(procs, procs');
  }

  lemma SameStates(procs: seq<Process>, procs': seq<Process>)
    requires |procs| == |procs'| == 10
    requires forall t :: 0 <= t < 10 ==> procs'[t].state == procs[t].state
    requires forall t :: 0 <= t < 10 && procs[t].state == SLEEPING ==> procs'[t].waitPid == procs[t].waitPid
    ensures States(procs') == States(procs) && Waits(procs') == Waits(procs)
  {
  }

  /** What can happen while a process runs: its code stores a byte, or it enters the kernel, by itself
      or by a timer tick, with some registers. */
  datatype Action = Store(a: nat, v: byte) | Enter(context: seq<int>, op: Op, addr: nat)

  predicate Possible(action: Action) {
    match action
    case Store(a, _) => a < 0x1_0000_0000
    case Enter(context, _, addr) => |context| == 17 && addr < 0x1_0000_0000
  }

  /** The kernel entries among the actions. */
  ghost function Ops(actions: seq<Action>): seq<Op> {
    if actions == [] then []
    else Ops(actions[..|actions| - 1]) + if actions[|actions| - 1].Enter? then [actions[|actions| - 1].op] else []
  }

  lemma OneAction(s: Sys, action: Action)
    requires Shaped(s)
    ensures Trace(s, Ops([action])) == if action.Enter? then Step(s, action.op) else s
  {
    assert [action][..0] == [];
    assert Ops([action]) == if action.Enter? then [action.op] else [];
    assert action.Enter? ==> [action.op][..0] == [];
  }

  lemma MoreActions(s: Sys, actions: seq<Action>, i: nat)
    requires Shaped(s) && i < |actions|
    ensures Trace(s, Ops(actions[..i + 1])) == Trace(Trace(s, Ops(actions[..i])), Ops([actions[i]]))
  {
    var before, now := Ops(actions[..i]), Ops(actions[..i + 1]);
    assert actions[..i + 1][..i] == actions[..i];
    OneAction(Trace(s, before), actions[i]);
    if actions[i].Enter? {
      assert now == before + [actions[i].op];
      assert now[..|now| - 1] == before;
    } else {
      assert now == before;
    }
  }
}
