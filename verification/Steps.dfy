// What each step of the process state machine does, slot by slot.
module Steps {
  import opened Spaces
  import opened Sched

  /** Nothing that concerns slot `u` changed. */
  predicate SameSlot(s: Sys, r: Sys, u: nat)
    requires Shaped(s) && Shaped(r) && u < 10
  {
    r.state[u] == s.state[u] && r.waits[u] == s.waits[u] && r.awaited[u] == s.awaited[u]
  }

  /** How many slots are between `rr` and `u` in circular order; all the others for `rr` itself. */
  function Ahead(rr: nat, u: nat): nat { (u - rr + 9) % 10 }

  /** The ready slot that comes first in circular order after `rr` runs; without one the system stops. */
  ghost predicate Dispatched(r: Sys, rr: nat)
    requires Shaped(r) && rr < 10
  {
    && (r.halted <==> forall u :: 0 <= u < 10 ==> r.state[u] != READY)
    && (!r.halted ==> r.current == r.rr && r.state[r.rr] == READY)
    && (!r.halted ==> forall u: nat :: u < 10 && r.state[u] == READY ==> Ahead(rr, r.rr) <= Ahead(rr, u))
  }

  /** No ready slot is nearer than the one picked. */
  lemma {:induction false} PickIsNearest(state: seq<State>, rr: nat, n: nat, u: nat)
    requires |state| == 10 && rr < 10 && u < 10 && state[u] == READY && Distance(rr, u) <= n <= 10
    ensures var p := Pick(state, rr, n); p >= 0 && Distance(rr, p) <= Distance(rr, u)
    decreases n
  {
    if state[Next(rr)] != READY {
      PickIsNearest(state, Next(rr), n - 1, u);
      PickIsReady(state, Next(rr), n - 1);
    }
  }

  lemma DistanceIs(rr: nat, u: nat)
    requires rr < 10 && u < 10
    ensures Distance(rr, u) == Ahead(rr, u) + 1
  {
  }

  lemma PickedAhead(state: seq<State>, rr: nat, u: nat)
    requires |state| == 10 && rr < 10 && u < 10 && state[u] == READY
    ensures var p := Pick(state, rr, |state|); p >= 0 && Ahead(rr, p) <= Ahead(rr, u)
  {
    PickIsNearest(state, rr, |state|, u);
    DistanceIs(rr, u);
    DistanceIs(rr, Pick(state, rr, |state|));
  }

  lemma ScheduleDispatches(s: Sys)
    requires Shaped(s) && !s.halted
    ensures Dispatched(Schedule(s), s.rr)
  {
    var r := Schedule(s);
    PickIsReady(s.state, s.rr, |s.state|);
    forall u: nat | u < 10 && s.state[u] == READY ensures !r.halted && Ahead(s.rr, r.rr) <= Ahead(s.rr, u) {
      PickedAhead(s.state, s.rr, u);
    }
  }

  /** A tick or a yield changes no process; the next ready one runs. */
  lemma YieldDoes(s: Sys)
    requires Inv(s) && !s.halted
    ensures var r := Step(s, Yield);
      && (forall u: nat :: u < 10 ==> SameSlot(s, r, u)) && r.born == s.born && Dispatched(r, s.rr)
  {
    ScheduleDispatches(s);
  }

  /** A wait for a process that is there puts the caller to sleep until that very process exits; any
      other wait does nothing. Nobody else is touched. */
  lemma WaitDoes(s: Sys, pid: int)
    requires Inv(s) && !s.halted
    ensures var r, t := Step(s, Wait(pid)), s.current;
      if 1 <= pid <= 10 && s.state[pid - 1] != UNUSED then
        && r.state[t] == SLEEPING && r.waits[t] == pid && r.awaited[t] == s.born[pid - 1]
        && (forall u: nat :: u < 10 && u != t ==> SameSlot(s, r, u)) && r.born == s.born && Dispatched(r, s.rr)
      else r == s
  {
    if 1 <= pid <= 10 && s.state[pid - 1] != UNUSED {
      ScheduleDispatches(Asleep(s, pid));
    }
  }

  /** An exit empties the caller's slot and wakes exactly those who wait for it. */
  lemma ExitDoes(s: Sys)
    requires Inv(s) && !s.halted
    ensures var r, t := Step(s, Exit), s.current;
      && r.state[t] == UNUSED && r.born == s.born && Dispatched(r, s.rr)
      && forall u: nat :: u < 10 && u != t ==>
           if s.state[u] == SLEEPING && s.waits[u] == t + 1 then r.state[u] == READY && r.waits[u] == -1
           else r.state[u] == s.state[u] && (s.state[u] == SLEEPING ==> SameSlot(s, r, u))
  {
    ScheduleDispatches(Leave(s));
  }

  /** A fork makes the first unused slot ready, for one more process; the caller goes on. Without an
      unused slot nothing happens. */
  lemma ForkDoes(s: Sys, c: nat)
    requires Inv(s) && !s.halted && c <= 10
    requires (c < 10 ==> s.state[c] == UNUSED) && forall u :: 0 <= u < c ==> s.state[u] != UNUSED
    ensures var r := Step(s, Fork);
      if c == 10 then r == s else
        && r.state[c] == READY && r.born[c] == s.born[c] + 1
        && (forall u: nat :: u < 10 && u != c ==> SameSlot(s, r, u) && r.born[u] == s.born[u])
        && r.current == s.current && r.rr == s.rr && !r.halted
  {
    FirstUnusedFrom(s.state, 0, c);
  }

  lemma {:induction false} FirstUnusedFrom(state: seq<State>, i: nat, c: nat)
    requires |state| == 10 && i <= c <= 10
    requires (c < 10 ==> state[c] == UNUSED) && forall u :: i <= u < c ==> state[u] != UNUSED
    ensures FirstUnused(state, i) == if c == 10 then -1 else c
    decreases c - i
  {
    if i < c {
      FirstUnusedFrom(state, i + 1, c);
    }
  }
}
