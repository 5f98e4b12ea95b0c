// The process state machine of kernel/proc, step by step and over whole runs.
module Sched {
  import opened Spaces

  /** States, who sleeping processes wait for, the scheduler and, for every slot, how many
      processes it has held (`born`) and which of them a sleeper waits for (`awaited`). */
  datatype Sys = Sys(state: seq<State>, waits: seq<int>, rr: nat, current: int, halted: bool,
                     born: seq<nat>, awaited: seq<nat>)

  /** What a process, or the timer, can make the kernel do. `Other` are the calls that reach neither
      processes nor the disk (putch, getch and getpid) and the numbers of no call. */
  datatype Op = Yield | Wait(pid: int) | Exit | Fork | Exec | Dir | Other

  predicate Shaped(s: Sys) {
    |s.state| == |s.waits| == |s.born| == |s.awaited| == 10 && s.rr < 10
  }

  function Next(i: nat): nat { if i + 1 == 10 then 0 else i + 1 }

  /** The first ready slot among the `n` slots after `rr`, or -1. */
  function Pick(state: seq<State>, rr: nat, n: nat): (r: int)
    requires |state| == 10 && rr < 10
    ensures -1 <= r < 10
    decreases n
  {
    if n == 0 then -1
    else if state[Next(rr)] == READY then Next(rr)
    else Pick(state, Next(rr), n - 1)
  }

  lemma PickStep(state: seq<State>, rr: nat, n: nat)
    requires |state| == 10 && rr < 10 && n > 0
    ensures Pick(state, rr, n) == if state[Next(rr)] == READY then Next(rr) else Pick(state, Next(rr), n - 1)
  {
  }

  lemma {:induction false} PickIsReady(state: seq<State>, rr: nat, n: nat)
    requires |state| == 10 && rr < 10
    ensures Pick(state, rr, n) >= 0 ==> state[Pick(state, rr, n)] == READY
    decreases n
  {
    if n > 0 {
      PickIsReady(state, Next(rr), n - 1);
    }
  }

  /** Dispatches the next ready process in circular order, or halts when there is none. */
  function Schedule(s: Sys): Sys
    requires Shaped(s)
  {
    var next := Pick(s.state, s.rr, |s.state|);
    if next < 0 then s.(halted := true) else s.(rr := next, current := next)
  }

  function FirstUnused(state: seq<State>, i: nat): (r: int)
    requires |state| == 10 && i <= 10
    ensures -1 <= r < 10 && (r >= 0 ==> i <= r && state[r] == UNUSED)
    decreases 10 - i
  {
    if i == 10 then -1 else if state[i] == UNUSED then i else FirstUnused(state, i + 1)
  }

  /** After the process in slot `t` is gone: its waiters are ready. */
  function Woken(state: seq<State>, waits: seq<int>, t: nat): (r: seq<State>)
    requires |state| == |waits| == 10 && t < 10
    ensures |r| == 10
  {
    seq(10, u requires 0 <= u < 10 =>
      if u == t then UNUSED else if state[u] == SLEEPING && waits[u] == t + 1 then READY else state[u])
  }

  /** Only sleepers wait for anybody. */
  function StillWaits(state: seq<State>, waits: seq<int>): (r: seq<int>)
    requires |state| == |waits| == 10
    ensures |r| == 10
  {
    seq(10, u requires 0 <= u < 10 => if state[u] == SLEEPING then waits[u] else -1)
  }

  /** The running process leaves; its waiters are woken. */
  function Leave(s: Sys): (r: Sys)
    requires Shaped(s) && 0 <= s.current < 10
    ensures Shaped(r)
  {
    var state := Woken(s.state, s.waits, s.current);
    s.(state := state, waits := StillWaits(state, s.waits), current := -1)
  }

  function Step(s: Sys, op: Op): (r: Sys)
    requires Shaped(s)
    ensures Shaped(r)
  {
    if s.halted || !(0 <= s.current < 10) then s else
    match op
    case Yield => Schedule(s)
    case Wait(pid) =>
      if !(1 <= pid <= 10) || s.state[pid - 1] == UNUSED then s
      else Schedule(Asleep(s, pid))
    case Exit => Schedule(Leave(s))
    case Fork =>
      var c := FirstUnused(s.state, 0);
      if c < 0 then s else s.(state := s.state[c := READY], born := s.born[c := s.born[c] + 1])
    case _ => s
  }

  lemma NothingSteps(s: Sys, op: Op)
    requires Shaped(s) && (op == Exec || op == Dir || op == Other)
    ensures Step(s, op) == s
  {
  }

  function Trace(s: Sys, ops: seq<Op>): (r: Sys)
    requires Shaped(s)
    ensures Shaped(r)
  {
    if ops == [] then s else Step(Trace(s, ops[..|ops| - 1]), ops[|ops| - 1])
  }

  /** A running system runs the ready process at the round-robin index; a sleeper waits for a process
      that is still there, the same one as when it went to sleep. */
  predicate Inv(s: Sys) {
    && Shaped(s)
    && (!s.halted ==> s.current == s.rr && s.state[s.rr] == READY)
    && (s.halted ==> forall u :: 0 <= u < 10 ==> s.state[u] != READY)
    && (forall u :: 0 <= u < 10 ==> s.state[u] == UNUSED || s.state[u] == READY || s.state[u] == SLEEPING)
    && (forall u :: 0 <= u < 10 && s.state[u] == SLEEPING ==> Waiting(s, u))
  }

  /** The sleeper in slot `u` waits for the process that now is in the slot it waits for. */
  predicate Waiting(s: Sys, u: nat)
    requires Shaped(s) && u < 10
  {
    1 <= s.waits[u] <= 10 && s.state[s.waits[u] - 1] != UNUSED && s.awaited[u] == s.born[s.waits[u] - 1]
  }

  /** How many slots the scheduler passes from `rr` to `u`: 10 for `rr` itself. */
  function Distance(rr: nat, u: nat): (d: nat)
    requires rr < 10 && u < 10
    ensures 1 <= d <= 10
  {
    if u > rr then u - rr else u + 10 - rr
  }

  /** The scheduler finds a ready process whenever there is one, and never passes it. */
  lemma {:induction false} PickNearest(state: seq<State>, rr: nat, u: nat, n: nat)
    requires |state| == 10 && rr < 10 && u < 10 && state[u] == READY && Distance(rr, u) <= n <= 10
    ensures Pick(state, rr, n) >= 0
    ensures Pick(state, rr, n) != u ==> Distance(Pick(state, rr, n), u) < Distance(rr, u)
    decreases n
  {
    if state[Next(rr)] != READY {
      PickNearest(state, Next(rr), u, n - 1);
    }
  }

  lemma ScheduleInv(s: Sys)
    requires Shaped(s) && !s.halted
    requires forall u :: 0 <= u < 10 ==> s.state[u] == UNUSED || s.state[u] == READY || s.state[u] == SLEEPING
    requires forall u :: 0 <= u < 10 && s.state[u] == SLEEPING ==> Waiting(s, u)
    ensures Inv(Schedule(s))
  {
    PickIsReady(s.state, s.rr, |s.state|);
    forall u | 0 <= u < 10 && s.state[u] == READY ensures Pick(s.state, s.rr, |s.state|) >= 0 {
      PickNearest(s.state, s.rr, u, |s.state|);
    }
    assert forall u :: 0 <= u < 10 && s.state[u] == SLEEPING ==> Waiting(Schedule(s), u);
  }

  /** The running process falls asleep. */
  function Asleep(s: Sys, pid: int): Sys
    requires Shaped(s) && 0 <= s.current < 10 && 1 <= pid <= 10
  {
    s.(state := s.state[s.current := SLEEPING], waits := s.waits[s.current := pid],
       awaited := s.awaited[s.current := s.born[pid - 1]])
  }

  lemma AsleepInv(s: Sys, pid: int)
    requires Inv(s) && !s.halted && 1 <= pid <= 10 && s.state[pid - 1] != UNUSED
    ensures Inv(Schedule(Asleep(s, pid)))
  {
    var t := Asleep(s, pid);
    forall u | 0 <= u < 10 && t.state[u] == SLEEPING ensures Waiting(t, u) {
      assert u != s.current ==> Waiting(s, u);
    }
    ScheduleInv(t);
  }

  lemma LeaveInv(s: Sys)
    requires Inv(s) && !s.halted
    ensures Inv(Schedule(Leave(s)))
  {
    var t := Leave(s);
    forall u | 0 <= u < 10 && t.state[u] == SLEEPING ensures Waiting(t, u) {
      assert Waiting(s, u);
    }
    ScheduleInv(t);
  }

  lemma ForkInv(s: Sys)
    requires Inv(s) && !s.halted
    ensures Inv(Step(s, Fork))
  {
    var t := Step(s, Fork);
    forall u | 0 <= u < 10 && t.state[u] == SLEEPING ensures Waiting(t, u) {
      assert Waiting(s, u);
    }
  }

  /** Every step keeps the processes in order. */
  lemma StepInv(s: Sys, op: Op)
    requires Inv(s)
    ensures Inv(Step(s, op))
  {
    if !s.halted {
      match op
      case Yield => ScheduleInv(s);
      case Wait(pid) =>
        if 1 <= pid <= 10 && s.state[pid - 1] != UNUSED {
          AsleepInv(s, pid);
        }
      case Exit => LeaveInv(s);
      case Fork => ForkInv(s);
      case _ =>
    }
  }

  /** Every state of every run is in order. */
  lemma {:induction false} RunInv(s: Sys, ops: seq<Op>)
    requires Inv(s)
    ensures Inv(Trace(s, ops))
  {
    if ops != [] {
      RunInv(s, ops[..|ops| - 1]);
      StepInv(Trace(s, ops[..|ops| - 1]), ops[|ops| - 1]);
    }
  }

  /** The panic at the end of schedule is reached only when no process is ready. */
  lemma HaltsOnlyIdle(s: Sys, ops: seq<Op>)
    requires Inv(s)
    ensures Trace(s, ops).halted <==> forall u :: 0 <= u < 10 ==> Trace(s, ops).state[u] != READY
  {
    RunInv(s, ops);
    assert !Trace(s, ops).halted ==> Trace(s, ops).state[Trace(s, ops).rr] == READY;
  }

  /** A sleeper stays asleep, with the same process to wait for, unless that process exits: then it is ready. */
  lemma SleeperStep(s: Sys, op: Op, u: nat)
    requires Inv(s) && u < 10 && s.state[u] == SLEEPING
    ensures var r, t := Step(s, op), s.waits[u] - 1;
      if op == Exit && !s.halted && s.current == t then r.state[u] == READY
      else r.state[u] == SLEEPING && r.waits[u] == s.waits[u] && r.awaited[u] == s.awaited[u]
           && r.state[t] != UNUSED && r.born[t] == s.awaited[u]
  {
    assert Waiting(s, u);
    var t := s.waits[u] - 1;
    if op == Exit && !s.halted {
      var woken := Woken(s.state, s.waits, s.current);
      assert u != s.current && woken[u] == if s.current == t then READY else SLEEPING;
      assert s.current != t ==> woken[t] != UNUSED;
    }
  }

  /** Before each of these steps the process in slot `u` sleeps. */
  ghost predicate SleepsThrough(s: Sys, ops: seq<Op>, u: nat)
    requires Shaped(s) && u < 10
  {
    forall i: nat {:trigger ops[..i]} :: i < |ops| ==> Trace(s, ops[..i]).state[u] == SLEEPING
  }

  lemma SamePrefix(ops: seq<Op>, n: nat, i: nat)
    requires i <= n <= |ops|
    ensures ops[..n][..i] == ops[..i]
  {
  }

  lemma SleepsBefore(s: Sys, ops: seq<Op>, u: nat)
    requires Shaped(s) && u < 10 && ops != [] && SleepsThrough(s, ops, u)
    ensures SleepsThrough(s, ops[..|ops| - 1], u) && Trace(s, ops[..|ops| - 1]).state[u] == SLEEPING
  {
    var n := |ops| - 1;
    forall i: nat | i < n ensures Trace(s, ops[..n][..i]).state[u] == SLEEPING {
      SamePrefix(ops, n, i);
    }
  }

  /** The sleeper in slot `u` of `s` still sleeps in `r`, and the very process it waits for is still there. */
  predicate StillAsleep(s: Sys, r: Sys, u: nat)
    requires Shaped(s) && Shaped(r) && u < 10 && 1 <= s.waits[u] <= 10
  {
    var t := s.waits[u] - 1;
    r.state[u] == SLEEPING && r.waits[u] == s.waits[u] && r.awaited[u] == s.awaited[u]
    && r.state[t] != UNUSED && r.born[t] == s.born[t] == s.awaited[u]
  }

  /** In every run, as long as a sleeper sleeps, the very process it waits for has not exited; and the
      step that wakes it is the exit of that process. */
  lemma {:induction false} SleeperRun(s: Sys, ops: seq<Op>, u: nat)
    requires Inv(s) && u < 10 && s.state[u] == SLEEPING && SleepsThrough(s, ops, u)
    ensures Waiting(s, u)
    ensures StillAsleep(s, Trace(s, ops), u) ||
      (ops != [] && ops[|ops| - 1] == Exit && Trace(s, ops).state[u] == READY
       && StillAsleep(s, Trace(s, ops[..|ops| - 1]), u) && Trace(s, ops[..|ops| - 1]).current == s.waits[u] - 1)
  {
    assert Waiting(s, u);
    if ops != [] {
      var front := ops[..|ops| - 1];
      SleepsBefore(s, ops, u);
      SleeperRun(s, front, u);
      RunInv(s, front);
      SleeperStep(Trace(s, front), ops[|ops| - 1], u);
    }
  }

  // Bounded waiting.

  predicate Schedules(s: Sys, op: Op)
    requires Shaped(s)
  {
    !s.halted && (op == Yield || op == Exit || (op.Wait? && 1 <= op.pid <= 10 && s.state[op.pid - 1] != UNUSED))
  }

  /** The number of schedule calls in a run. */
  function Schedulings(s: Sys, ops: seq<Op>): nat
    requires Shaped(s)
  {
    if ops == [] then 0 else
      var front := ops[..|ops| - 1];
      Schedulings(s, front) + if Schedules(Trace(s, front), ops[|ops| - 1]) then 1 else 0
  }

  /** Step by step: every scheduling that does not dispatch a ready process brings it nearer. */
  lemma NearerStep(s: Sys, op: Op, u: nat)
    requires Inv(s) && u < 10 && Step(s, op).state[u] == READY && !s.halted
    ensures Schedules(s, op) ==> Step(s, op).current == u || Distance(Step(s, op).rr, u) < Distance(s.rr, u)
    ensures !Schedules(s, op) ==> Step(s, op).rr == s.rr
  {
    if Schedules(s, op) {
      var state := Step(s, op).state;
      PickNearest(state, s.rr, u, |state|);
    }
  }

  /** A process that stays ready is dispatched within ten calls of schedule. */
  lemma {:induction false} BoundedWaiting(s: Sys, ops: seq<Op>, u: nat)
    requires Inv(s) && u < 10
    requires forall i :: 0 <= i <= |ops| ==> Trace(s, ops[..i]).state[u] == READY
    requires forall i :: 0 < i <= |ops| && Schedules(Trace(s, ops[..i - 1]), ops[i - 1]) ==>
      Trace(s, ops[..i]).current != u
    ensures Schedulings(s, ops) + Distance(Trace(s, ops).rr, u) <= Distance(s.rr, u)
    ensures Schedulings(s, ops) < 10
  {
    if ops != [] {
      var front := ops[..|ops| - 1];
      forall i | 0 <= i <= |front| ensures front[..i] == ops[..i] {}
      BoundedWaiting(s, front, u);
      RunInv(s, front);
      assert ops[..|ops|] == ops && ops[..|ops| - 1] == front && front[..|front|] == front;
      NearerStep(Trace(s, front), ops[|ops| - 1], u);
    }
  }
}
